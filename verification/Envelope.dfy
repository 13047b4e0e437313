/** The XOR-stream envelope (libs/veripay_common/veripay_common/security.py). */
module Envelope {
  import opened Wrappers
  import opened Octets
  import opened Base64Url

  const DIGEST := 32
  const COUNTER_LIMIT := 0x1_0000_0000

  // ---------------------------------------------------------------- exclusive or

  function XorAll(p: bytes, q: bytes): (r: bytes)
    requires |p| == |q|
    ensures |r| == |p|
  {
    seq(|p|, i requires 0 <= i < |p| => Xor(p[i], q[i]))
  }

  lemma XorAllTwice(p: bytes, q: bytes)
    requires |p| == |q|
    ensures XorAll(XorAll(p, q), q) == p
  {
    EightBits();
    forall i | 0 <= i < |p| ensures XorAll(XorAll(p, q), q)[i] == p[i] {
      XorTwice(p[i], q[i], 8);
    }
  }

  // ---------------------------------------------------------------- the key stream

  /** `counter.to_bytes(4, "big")` */
  function BigEndian(n: nat): (b: bytes)
    requires n < COUNTER_LIMIT
    ensures |b| == 4
  {
    [n / 0x100_0000, n / 0x1_0000 % 256, n / 0x100 % 256, n % 256]
  }

  datatype Sealed = Sealed(keyId: string, nonce: string, ciphertext: string, tag: string)

  datatype EnvelopeError = EmptyField | UnknownKey | Malformed | AuthenticationFailed

  /** The key and the keyed digest. */
  datatype Encryptor = Encryptor(secret: bytes, keyId: string, mac: (bytes, bytes) -> bytes)
  {
    ghost predicate Lawful() {
      forall m: bytes :: |mac(secret, m)| == DIGEST
    }

    /** The first `n` digests of the counter, one after the other. */
    ghost function Blocks(nonce: bytes, n: nat): bytes
      requires n <= COUNTER_LIMIT
    {
      if n == 0 then [] else Blocks(nonce, n - 1) + mac(secret, nonce + BigEndian(n - 1))
    }

    lemma {:induction false} BlocksLength(nonce: bytes, n: nat)
      requires Lawful() && n <= COUNTER_LIMIT
      ensures |Blocks(nonce, n)| == DIGEST * n
    {
      if n > 0 {
        BlocksLength(nonce, n - 1);
      }
    }

    lemma {:induction false} BlocksPrefix(nonce: bytes, m: nat, n: nat)
      requires m <= n <= COUNTER_LIMIT
      ensures Blocks(nonce, m) <= Blocks(nonce, n)
    {
      if m < n {
        BlocksPrefix(nonce, m, n - 1);
      }
    }

    /** The first `size` bytes of the key stream. */
    ghost function Stream(nonce: bytes, size: nat): (s: bytes)
      requires Lawful() && size <= DIGEST * COUNTER_LIMIT
      ensures |s| == size
    {
      var n := (size + DIGEST - 1) / DIGEST;
      BlocksLength(nonce, n);
      Blocks(nonce, n)[..size]
    }

    /** A shorter stream is a prefix of a longer one. */
    lemma StreamPrefix(nonce: bytes, s: nat, t: nat)
      requires Lawful() && s <= t <= DIGEST * COUNTER_LIMIT
      ensures Stream(nonce, s) == Stream(nonce, t)[..s]
    {
      var m, n := (s + DIGEST - 1) / DIGEST, (t + DIGEST - 1) / DIGEST;
      BlocksLength(nonce, m);
      BlocksLength(nonce, n);
      BlocksPrefix(nonce, m, n);
    }

    /** The loop that grows the stream one digest at a time until it is long enough. */
    method StreamBytes(nonce: bytes, size: nat) returns (stream: bytes)
      requires Lawful() && size <= DIGEST * COUNTER_LIMIT
      ensures stream == Stream(nonce, size)
    {
      var output: bytes := [];
      var counter := 0;
      while |output| < size
        invariant counter <= (size + DIGEST - 1) / DIGEST
        invariant output == Blocks(nonce, counter) && |output| == DIGEST * counter
        decreases size - |output|
      {
        output := output + mac(secret, nonce + BigEndian(counter));
        counter := counter + 1;
      }
      assert counter == (size + DIGEST - 1) / DIGEST;
      stream := output[..size];
    }

    // -------------------------------------------------------------- sealing and opening

    /** `nonce` is the random value drawn for this envelope. An empty field is refused. */
    method Encrypt(payload: bytes, nonce: bytes) returns (r: Result<Sealed, EnvelopeError>)
      requires Lawful() && |payload| <= DIGEST * COUNTER_LIMIT
      ensures r == Seal(payload, nonce)
    {
      var stream := StreamBytes(nonce, |payload|);
      var ciphertext := XorAll(payload, stream);
      EncodeShape(nonce);
      EncodeShape(ciphertext);
      EncodeShape(mac(secret, nonce + ciphertext));
      var sealed := Sealed(keyId, Encode(nonce), Encode(ciphertext), Encode(mac(secret, nonce + ciphertext)));
      if sealed.keyId == "" || sealed.nonce == "" || sealed.ciphertext == "" || sealed.tag == "" {
        return Err(EmptyField);
      }
      return Ok(sealed);
    }

    /** The ciphertext is within what the stream's counter can cover. */
    predicate Coverable(e: Sealed) {
      Decode(e.ciphertext).Some? ==> |Decode(e.ciphertext).value| <= DIGEST * COUNTER_LIMIT
    }

    method Decrypt(e: Sealed) returns (r: Result<bytes, EnvelopeError>)
      requires Lawful() && Coverable(e)
      ensures r == Open(e)
    {
      if e.keyId != keyId {
        return Err(UnknownKey);
      }
      var nonce, ciphertext, tag := Decode(e.nonce), Decode(e.ciphertext), Decode(e.tag);
      if nonce.None? || ciphertext.None? || tag.None? {
        return Err(Malformed);
      }
      if mac(secret, nonce.value + ciphertext.value) != tag.value {
        return Err(AuthenticationFailed);
      }
      var stream := StreamBytes(nonce.value, |ciphertext.value|);
      return Ok(XorAll(ciphertext.value, stream));
    }

    ghost function Seal(payload: bytes, nonce: bytes): Result<Sealed, EnvelopeError>
      requires Lawful() && |payload| <= DIGEST * COUNTER_LIMIT
    {
      var ciphertext := XorAll(payload, Stream(nonce, |payload|));
      if keyId == "" || nonce == [] || payload == [] then Err(EmptyField)
      else Ok(Sealed(keyId, Encode(nonce), Encode(ciphertext), Encode(mac(secret, nonce + ciphertext))))
    }

    ghost function Open(e: Sealed): Result<bytes, EnvelopeError>
      requires Lawful() && Coverable(e)
    {
      if e.keyId != keyId then Err(UnknownKey)
      else if Decode(e.nonce).None? || Decode(e.ciphertext).None? || Decode(e.tag).None? then Err(Malformed)
      else
        var nonce, ciphertext := Decode(e.nonce).value, Decode(e.ciphertext).value;
        if Decode(e.tag).value != mac(secret, nonce + ciphertext) then Err(AuthenticationFailed)
        else Ok(XorAll(ciphertext, Stream(nonce, |ciphertext|)))
    }

    /** Opening a sealed payload gives the payload back, whatever the nonce; sealing fails exactly on
        an empty payload, nonce or key id. */
    lemma OpenAfterSeal(payload: bytes, nonce: bytes)
      requires Lawful() && |payload| <= DIGEST * COUNTER_LIMIT
      ensures Seal(payload, nonce).Ok? <==> payload != [] && nonce != [] && keyId != ""
      ensures Seal(payload, nonce).Ok? ==>
                Coverable(Seal(payload, nonce).value) && Open(Seal(payload, nonce).value) == Ok(payload)
    {
      var stream := Stream(nonce, |payload|);
      var ciphertext := XorAll(payload, stream);
      RoundTrip(nonce);
      RoundTrip(ciphertext);
      RoundTrip(mac(secret, nonce + ciphertext));
      XorAllTwice(payload, stream);
    }

    /** Exactly the envelopes that open to a payload: those whose three texts, however they are written, decode to
        a nonce, to the payload's ciphertext under it, and to their digest. */
    lemma OpenExactly(e: Sealed, payload: bytes)
      requires Lawful() && Coverable(e) && |payload| <= DIGEST * COUNTER_LIMIT
      ensures Open(e) == Ok(payload) <==>
              && e.keyId == keyId && Decode(e.nonce).Some?
              && var nonce := Decode(e.nonce).value;
                 var ciphertext := XorAll(payload, Stream(nonce, |payload|));
                 Decode(e.ciphertext) == Some(ciphertext) && Decode(e.tag) == Some(mac(secret, nonce + ciphertext))
    {
      if Decode(e.nonce).Some? {
        var stream := Stream(Decode(e.nonce).value, |payload|);
        XorAllTwice(payload, stream);
        if Decode(e.ciphertext).Some? && |Decode(e.ciphertext).value| == |payload| {
          XorAllTwice(Decode(e.ciphertext).value, stream);
        }
      }
    }

    /** Sealing what was opened, under the same nonce, gives the envelope back exactly when its three
        coded fields are canonical and no field is empty. */
    lemma SealAfterOpen(e: Sealed, payload: bytes)
      requires Lawful() && Coverable(e)
      requires Open(e) == Ok(payload)
      ensures |payload| <= DIGEST * COUNTER_LIMIT
      ensures Seal(payload, Decode(e.nonce).value) == Ok(e)
              <==> (&& Canonical(e.nonce) && Canonical(e.ciphertext) && Canonical(e.tag)
                    && payload != [] && Decode(e.nonce).value != [] && keyId != "")
    {
      var nonce, ciphertext := Decode(e.nonce).value, Decode(e.ciphertext).value;
      var stream := Stream(nonce, |ciphertext|);
      XorAllTwice(ciphertext, stream);
      EncodeAfterDecode(e.nonce, nonce);
      EncodeAfterDecode(e.ciphertext, ciphertext);
      EncodeAfterDecode(e.tag, mac(secret, nonce + ciphertext));
    }
  }
}
