/** The compact signed verification token (libs/veripay_common/veripay_common/security.py).
    HMAC-SHA256 and the JSON codec are parameters of the signer. */
module VerificationToken {
  import opened Wrappers
  import opened Octets
  import opened Base64Url

  /** A datetime in microseconds, with or without a time zone. */
  datatype DateTime = Naive(micros: int) | Aware(micros: int) {
    /** A naive datetime is read as UTC. */
    function Utc(): DateTime {
      Aware(micros)
    }
  }

  const SECOND := 1_000_000
  const MIN_TTL := 10
  const MAX_TTL := 30

  datatype Claims = Claims(
    sessionId: string,
    transactionId: string,
    deviceId: string,
    nonce: string,
    amountMinor: int,
    currency: string,
    riskTier: string,
    issuedAt: DateTime,
    expiresAt: DateTime,
    tokenId: string)
  {
    /** The field constraints of the claims model. */
    predicate WellFormed() {
      && sessionId != "" && transactionId != "" && deviceId != "" && nonce != ""
      && amountMinor >= 0 && |currency| == 3 && riskTier != "" && tokenId != ""
    }

    /** The claims the signed body carries. */
    function Stamped(ttl: int): Claims {
      var issued := issuedAt.Utc();
      this.(issuedAt := issued, expiresAt := Aware(issued.micros + ttl * SECOND))
    }
  }

  datatype TokenError = BadTtl | Invalid | Expired | NotComparable

  /** The signing key with the functions it is used with: the keyed digest, the JSON printer, and the
      JSON parser with the claims model's validation. */
  datatype Signer = Signer(
    secret: bytes,
    mac: (bytes, bytes) -> bytes,
    toJson: Claims -> bytes,
    fromJson: bytes -> Option<Claims>)
  {
    /** Parsing what was printed gives well-formed, zoned claims back. */
    ghost predicate Lawful() {
      forall c: Claims :: c.WellFormed() && c.issuedAt.Aware? && c.expiresAt.Aware? ==>
        fromJson(toJson(c)) == Some(c)
    }

    function Sign(body: bytes): string {
      Encode(mac(secret, body))
    }

    function Issue(claims: Claims, ttl: int): Result<string, TokenError> {
      if !(MIN_TTL <= ttl <= MAX_TTL) then Err(BadTtl)
      else
        var body := toJson(claims.Stamped(ttl));
        Ok(VERSION + "." + Encode(body) + "." + Sign(body))
    }

    function Verify(token: string, now: DateTime): Result<Claims, TokenError> {
      match SplitThree(token)
      case None => Err(Invalid)
      case Some((version, encoded, signature)) =>
        if version != VERSION then Err(Invalid)
        else
          match Decode(encoded)
          case None => Err(Invalid)
          case Some(body) =>
            if Sign(body) != signature then Err(Invalid)
            else
              match fromJson(body)
              case None => Err(Invalid)
              case Some(claims) =>
                if claims.expiresAt.Naive? then Err(NotComparable)
                else if claims.expiresAt.micros <= now.Utc().micros then Err(Expired)
                else Ok(claims)
    }
  }

  const VERSION := "vpt1"

  // ---------------------------------------------------------------- splitting at dots

  function SplitOnce(s: string): Option<(string, string)> {
    if s == "" then None
    else if s[0] == '.' then Some(("", s[1..]))
    else
      match SplitOnce(s[1..])
      case None => None
      case Some((head, tail)) => Some(([s[0]] + head, tail))
  }

  /** `split(".", 2)` into exactly three parts. */
  function SplitThree(s: string): Option<(string, string, string)> {
    match SplitOnce(s)
    case None => None
    case Some((first, rest)) =>
      match SplitOnce(rest)
      case None => None
      case Some((second, third)) => Some((first, second, third))
  }

  predicate Dotless(s: string) {
    '.' !in s
  }

  /** Splitting at the first dot: the only way to write the string with a dotless head. */
  lemma {:induction false} SplitOnceParts(s: string, head: string, tail: string)
    ensures SplitOnce(s) == Some((head, tail)) <==> Dotless(head) && s == head + "." + tail
  {
    if s != "" {
      if s[0] == '.' {
        if head != "" && s == head + "." + tail {
          assert s[0] == head[0];
        }
        if head == "" && s == head + "." + tail {
          assert tail == s[1..];
        }
        assert s == "" + "." + s[1..];
      } else if head == "" {
        assert (head + "." + tail)[0] == '.';
      } else {
        SplitOnceParts(s[1..], head[1..], tail);
        assert head == [head[0]] + head[1..];
        if s == head + "." + tail {
          assert s[1..] == head[1..] + "." + tail;
        }
        if s[0] == head[0] && s[1..] == head[1..] + "." + tail {
          assert s == [s[0]] + s[1..];
        }
      }
    }
  }

  lemma SplitThreeParts(s: string, a: string, b: string, c: string)
    ensures SplitThree(s) == Some((a, b, c)) <==> Dotless(a) && Dotless(b) && s == a + "." + b + "." + c
  {
    SplitOnceParts(s, a, b + "." + c);
    SplitOnceParts(b + "." + c, b, c);
    assert a + "." + b + "." + c == a + "." + (b + "." + c);
    if SplitThree(s) == Some((a, b, c)) {
      var rest := SplitOnce(s).value.1;
      SplitOnceParts(rest, b, c);
    }
  }

  lemma PlainIsDotless(s: string)
    requires Plain(s)
    ensures Dotless(s)
  {
    forall i | 0 <= i < |s| ensures s[i] != '.' {
      assert InAlphabet(s[i]);
    }
  }

  // ---------------------------------------------------------------- laws of the token

  /** Exactly the tokens that are accepted, and with which claims. */
  lemma VerifyExactly(signer: Signer, token: string, now: DateTime, claims: Claims)
    ensures signer.Verify(token, now) == Ok(claims)
            <==> exists encoded, body ::
                   && Dotless(encoded) && Decode(encoded) == Some(body)
                   && token == VERSION + "." + encoded + "." + signer.Sign(body)
                   && signer.fromJson(body) == Some(claims)
                   && claims.expiresAt.Aware? && now.micros < claims.expiresAt.micros
  {
    if signer.Verify(token, now) == Ok(claims) {
      var (version, encoded, signature) := SplitThree(token).value;
      SplitThreeParts(token, version, encoded, signature);
      var body := Decode(encoded).value;
      assert token == VERSION + "." + encoded + "." + signer.Sign(body);
    }
    if encoded, body :| Dotless(encoded) && Decode(encoded) == Some(body)
                        && token == VERSION + "." + encoded + "." + signer.Sign(body)
                        && signer.fromJson(body) == Some(claims)
                        && claims.expiresAt.Aware? && now.micros < claims.expiresAt.micros {
      SplitThreeParts(token, VERSION, encoded, signer.Sign(body));
    }
  }

  /** Issuing is refused exactly outside the allowed lifetimes. An issued token gives the stamped
      claims back until the moment it expires, and is refused as expired from then on. */
  lemma IssuedTokenLifetime(signer: Signer, claims: Claims, ttl: int, now: DateTime)
    requires signer.Lawful() && claims.WellFormed()
    ensures signer.Issue(claims, ttl).Ok? <==> MIN_TTL <= ttl <= MAX_TTL
    ensures signer.Issue(claims, ttl).Ok? ==>
              var token := signer.Issue(claims, ttl).value;
              signer.Verify(token, now)
              == if now.micros < claims.issuedAt.micros + ttl * SECOND
                 then Ok(claims.Stamped(ttl)) else Err(Expired)
  {
    if MIN_TTL <= ttl <= MAX_TTL {
      var body := signer.toJson(claims.Stamped(ttl));
      var token := signer.Issue(claims, ttl).value;
      EncodeShape(body);
      PlainIsDotless(Encode(body));
      RoundTrip(body);
      SplitThreeParts(token, VERSION, Encode(body), signer.Sign(body));
      assert claims.Stamped(ttl).WellFormed();
    }
  }

  // ---------------------------------------------------------------- other spellings of a token

  /** The token with another text for its body. */
  function Respelled(signer: Signer, claims: Claims, ttl: int, encoded: string): string {
    VERSION + "." + encoded + "." + signer.Sign(signer.toJson(claims.Stamped(ttl)))
  }

  lemma IssuedSpelling(signer: Signer, claims: Claims, ttl: int)
    requires MIN_TTL <= ttl <= MAX_TTL
    ensures signer.Issue(claims, ttl) == Ok(Respelled(signer, claims, ttl, Encode(signer.toJson(claims.Stamped(ttl)))))
  {
  }

  /** A text of the token's body that splitting leaves in one piece. */
  predicate SpellsBody(signer: Signer, claims: Claims, ttl: int, encoded: string) {
    Dotless(encoded) && Decode(encoded) == Some(signer.toJson(claims.Stamped(ttl)))
  }

  /** What a token is worth depends on its body's text only through what that decodes to. */
  lemma RespelledVerifiesAlike(signer: Signer, claims: Claims, ttl: int, encoded: string, now: DateTime)
    requires SpellsBody(signer, claims, ttl, encoded)
    ensures signer.Verify(Respelled(signer, claims, ttl, encoded), now)
            == signer.Verify(Respelled(signer, claims, ttl, Encode(signer.toJson(claims.Stamped(ttl)))), now)
  {
    var body := signer.toJson(claims.Stamped(ttl));
    EncodeShape(body);
    PlainIsDotless(Encode(body));
    RoundTrip(body);
    SplitThreeParts(Respelled(signer, claims, ttl, encoded), VERSION, encoded, signer.Sign(body));
    SplitThreeParts(Respelled(signer, claims, ttl, Encode(body)), VERSION, Encode(body), signer.Sign(body));
  }

  /** Of the ways to write the body without dots, exactly those that decode to it are accepted for the issued
      token, or another body with the same signature and claims. */
  lemma RespellingsExactly(signer: Signer, claims: Claims, ttl: int, encoded: string, now: DateTime)
    requires signer.Lawful() && claims.WellFormed() && Dotless(encoded)
    requires now.micros < claims.Stamped(ttl).expiresAt.micros
    ensures signer.Verify(Respelled(signer, claims, ttl, encoded), now) == Ok(claims.Stamped(ttl)) <==>
            && Decode(encoded).Some?
            && signer.Sign(Decode(encoded).value) == signer.Sign(signer.toJson(claims.Stamped(ttl)))
            && signer.fromJson(Decode(encoded).value) == Some(claims.Stamped(ttl))
  {
    var body := signer.toJson(claims.Stamped(ttl));
    SplitThreeParts(Respelled(signer, claims, ttl, encoded), VERSION, encoded, signer.Sign(body));
  }

  /** The text of the token's body with four characters behind it that decoding skips. */
  function JunkedBody(signer: Signer, claims: Claims, ttl: int): string {
    Encode(signer.toJson(claims.Stamped(ttl))) + "!!!!"
  }

  /** Every issued token has another spelling that is accepted just as well: four skipped characters behind
      its body. */
  lemma EveryTokenRespelled(signer: Signer, claims: Claims, ttl: int, now: DateTime)
    requires MIN_TTL <= ttl <= MAX_TTL
    ensures var other := Respelled(signer, claims, ttl, JunkedBody(signer, claims, ttl));
            && signer.Issue(claims, ttl).Ok? && other != signer.Issue(claims, ttl).value
            && signer.Verify(other, now) == signer.Verify(signer.Issue(claims, ttl).value, now)
  {
    var body := signer.toJson(claims.Stamped(ttl));
    IssuedSpelling(signer, claims, ttl);
    CodeWithJunk(body);
    JunkedIsDotless(body);
    RespelledVerifiesAlike(signer, claims, ttl, Encode(body) + "!!!!", now);
    assert |Respelled(signer, claims, ttl, Encode(body) + "!!!!")| > |Respelled(signer, claims, ttl, Encode(body))|;
  }

  lemma JunkedIsDotless(body: bytes)
    ensures Dotless(Encode(body) + "!!!!")
  {
    EncodeShape(body);
    PlainIsDotless(Encode(body));
  }

  /** So has the standard alphabet for it. */
  lemma StandardTokenAccepted(signer: Signer, claims: Claims, ttl: int, now: DateTime)
    requires MIN_TTL <= ttl <= MAX_TTL
    ensures var encoded := Encode(signer.toJson(claims.Stamped(ttl)));
            signer.Verify(Respelled(signer, claims, ttl, Standard(encoded)), now)
            == signer.Verify(signer.Issue(claims, ttl).value, now)
  {
    var body := signer.toJson(claims.Stamped(ttl));
    EncodeShape(body);
    RoundTrip(body);
    StandardDecodesAlike(Encode(body));
    IssuedSpelling(signer, claims, ttl);
    forall i | 0 <= i < |Encode(body)| ensures Standard(Encode(body))[i] != '.' {
      assert InAlphabet(Encode(body)[i]);
    }
    RespelledVerifiesAlike(signer, claims, ttl, Standard(Encode(body)), now);
  }
}
