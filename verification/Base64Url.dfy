/** Unpadded base64url, section 5 of RFC 4648, as `_b64encode` and `_b64decode` use it
    (libs/veripay_common/veripay_common/security.py). */
module Base64Url {
  import opened Wrappers
  import opened Octets

  type sextet = v: int | 0 <= v < 64

  // ---------------------------------------------------------------- the alphabet

  function Symbol(v: sextet): (c: char)
    ensures InAlphabet(c)
  {
    if v < 26 then ('A' as int + v) as char
    else if v < 52 then ('a' as int + v - 26) as char
    else if v < 62 then ('0' as int + v - 52) as char
    else if v == 62 then '-'
    else '_'
  }

  predicate InAlphabet(c: char) {
    'A' <= c <= 'Z' || 'a' <= c <= 'z' || '0' <= c <= '9' || c == '-' || c == '_'
  }

  function Value(c: char): sextet
    requires InAlphabet(c)
  {
    if 'A' <= c <= 'Z' then c as int - 'A' as int
    else if 'a' <= c <= 'z' then c as int - 'a' as int + 26
    else if '0' <= c <= '9' then c as int - '0' as int + 52
    else if c == '-' then 62
    else 63
  }

  lemma SymbolValue(v: sextet)
    ensures InAlphabet(Symbol(v)) && Value(Symbol(v)) == v
  {
  }

  lemma ValueSymbol(c: char)
    requires InAlphabet(c)
    ensures Symbol(Value(c)) == c
  {
  }

  // ---------------------------------------------------------------- three bytes, four sextets

  function First(a: byte): sextet { a / 4 }
  function Second(a: byte, b: byte): sextet { a % 4 * 16 + b / 16 }
  function Third(b: byte, c: byte): sextet { b % 16 * 4 + c / 64 }
  function Fourth(c: byte): sextet { c % 64 }

  // A closing byte fills the high bits of its second or third sextet.
  function SecondAlone(a: byte): sextet { a % 4 * 16 }
  function ThirdAlone(b: byte): sextet { b % 16 * 4 }

  function Pair(p: sextet, q: sextet): byte { p * 4 + q / 16 }
  function Middle(q: sextet, r: sextet): byte { q % 16 * 16 + r / 4 }
  function Last(r: sextet, s: sextet): byte { r % 4 * 64 + s }

  lemma BytesBack(a: byte, b: byte, c: byte)
    ensures Pair(First(a), Second(a, b)) == a
    ensures Middle(Second(a, b), Third(b, c)) == b
    ensures Last(Third(b, c), Fourth(c)) == c
  {
  }

  lemma ClosingByte(a: byte)
    ensures Pair(First(a), SecondAlone(a)) == a
  {
    assert a == 4 * First(a) + a % 4;
  }

  lemma ClosingPair(a: byte, b: byte)
    ensures Pair(First(a), Second(a, b)) == a
    ensures Middle(Second(a, b), ThirdAlone(b)) == b
  {
    BytesBack(a, b, 0);
    assert Second(a, b) % 16 == b / 16;
    assert ThirdAlone(b) / 4 == b % 16;
  }

  lemma SextetsBack(p: sextet, q: sextet, r: sextet, s: sextet)
    ensures First(Pair(p, q)) == p && Second(Pair(p, q), Middle(q, r)) == q
    ensures Third(Middle(q, r), Last(r, s)) == r && Fourth(Last(r, s)) == s
  {
  }

  lemma ClosingSextets(p: sextet, q: sextet, r: sextet)
    ensures SecondAlone(Pair(p, q)) == q <==> q % 16 == 0
    ensures ThirdAlone(Middle(q, r)) == r <==> r % 4 == 0
  {
    LowFour(p, q / 16);
    LowSixteen(q % 16, r / 4);
  }

  lemma LowFour(high: int, low: int)
    requires 0 <= low < 4
    ensures (high * 4 + low) % 4 == low
  {
  }

  lemma LowSixteen(high: int, low: int)
    requires 0 <= low < 16
    ensures (high * 16 + low) % 16 == low
  {
  }

  /** The sextets of a byte string: four for each three bytes, two or three for what remains. */
  function Sextets(b: bytes): seq<sextet> {
    if |b| == 0 then []
    else if |b| == 1 then [First(b[0]), SecondAlone(b[0])]
    else if |b| == 2 then [First(b[0]), Second(b[0], b[1]), ThirdAlone(b[1])]
    else [First(b[0]), Second(b[0], b[1]), Third(b[1], b[2]), Fourth(b[2])] + Sextets(b[3..])
  }

  /** One sextet cannot remain: it does not fill a byte. */
  function Bytes(v: seq<sextet>): Option<bytes> {
    if |v| == 0 then Some([])
    else if |v| == 1 then None
    else if |v| == 2 then Some([Pair(v[0], v[1])])
    else if |v| == 3 then Some([Pair(v[0], v[1]), Middle(v[1], v[2])])
    else
      match Bytes(v[4..])
      case None => None
      case Some(rest) => Some([Pair(v[0], v[1]), Middle(v[1], v[2]), Last(v[2], v[3])] + rest)
  }

  lemma SextetsOfGroup(a: byte, b: byte, c: byte, rest: bytes)
    ensures Sextets([a, b, c] + rest) == [First(a), Second(a, b), Third(b, c), Fourth(c)] + Sextets(rest)
  {
    assert ([a, b, c] + rest)[3..] == rest;
  }

  lemma BytesOfGroup(p: sextet, q: sextet, r: sextet, s: sextet, rest: seq<sextet>)
    requires Bytes(rest).Some?
    ensures Bytes([p, q, r, s] + rest) == Some([Pair(p, q), Middle(q, r), Last(r, s)] + Bytes(rest).value)
  {
    assert ([p, q, r, s] + rest)[4..] == rest;
  }

  lemma BytesOfOne(a: byte)
    ensures Bytes(Sextets([a])) == Some([a])
  {
    ClosingByte(a);
    assert Sextets([a]) == [First(a), SecondAlone(a)];
  }

  lemma BytesOfTwo(a: byte, b: byte)
    ensures Bytes(Sextets([a, b])) == Some([a, b])
  {
    ClosingPair(a, b);
    assert Sextets([a, b]) == [First(a), Second(a, b), ThirdAlone(b)];
  }

  lemma {:induction false} BytesOfSextets(b: bytes)
    ensures Bytes(Sextets(b)) == Some(b)
  {
    if |b| == 1 {
      BytesOfOne(b[0]);
      assert b == [b[0]];
    } else if |b| == 2 {
      BytesOfTwo(b[0], b[1]);
      assert b == [b[0], b[1]];
    } else if |b| >= 3 {
      var rest := b[3..];
      BytesOfSextets(rest);
      SextetsOfGroup(b[0], b[1], b[2], rest);
      BytesOfGroup(First(b[0]), Second(b[0], b[1]), Third(b[1], b[2]), Fourth(b[2]), Sextets(rest));
      BytesBack(b[0], b[1], b[2]);
      assert b == [b[0], b[1], b[2]] + rest;
    }
  }

  /** How many sextets carry `n` bytes. */
  function CodeLength(n: nat): nat {
    if n < 3 then (if n == 0 then 0 else n + 1) else 4 + CodeLength(n - 3)
  }

  lemma {:induction false} SextetsLength(b: bytes)
    ensures |Sextets(b)| == CodeLength(|b|)
  {
    if |b| >= 3 {
      SextetsLength(b[3..]);
    }
  }

  /** The bits of the last sextet that no byte uses are zero. */
  predicate Filled(v: seq<sextet>) {
    && (|v| % 4 == 2 ==> v[|v| - 1] % 16 == 0)
    && (|v| % 4 == 3 ==> v[|v| - 1] % 4 == 0)
  }

  lemma SameRemainder(n: nat)
    ensures (n + 4) % 4 == n % 4
  {
  }

  lemma {:induction false} BytesDefined(v: seq<sextet>)
    ensures Bytes(v).Some? <==> |v| % 4 != 1
  {
    if |v| >= 4 {
      BytesDefined(v[4..]);
      SameRemainder(|v[4..]|);
    }
  }

  lemma FilledRest(v: seq<sextet>)
    requires |v| >= 4
    ensures Filled(v) <==> Filled(v[4..])
  {
    assert |v[4..]| % 4 == |v| % 4;
    if |v| > 4 {
      assert v[4..][|v| - 5] == v[|v| - 1];
    }
  }

  lemma TwoFilled(p: sextet, q: sextet)
    ensures Sextets([Pair(p, q)]) == [p, q] <==> q % 16 == 0
  {
    SextetsBack(p, q, 0, 0);
    ClosingSextets(p, q, 0);
    assert Sextets([Pair(p, q)]) == [First(Pair(p, q)), SecondAlone(Pair(p, q))];
  }

  lemma ThreeFilled(p: sextet, q: sextet, r: sextet)
    ensures Sextets([Pair(p, q), Middle(q, r)]) == [p, q, r] <==> r % 4 == 0
  {
    SextetsBack(p, q, r, 0);
    ClosingSextets(p, q, r);
    var b := [Pair(p, q), Middle(q, r)];
    assert Sextets(b) == [First(b[0]), Second(b[0], b[1]), ThirdAlone(b[1])];
  }

  lemma {:induction false} SextetsOfBytes(v: seq<sextet>)
    requires Bytes(v).Some?
    ensures Sextets(Bytes(v).value) == v <==> Filled(v)
  {
    if |v| == 2 {
      TwoFilled(v[0], v[1]);
      assert v == [v[0], v[1]];
    } else if |v| == 3 {
      ThreeFilled(v[0], v[1], v[2]);
      assert v == [v[0], v[1], v[2]];
    } else if |v| >= 4 {
      GroupFilled(v[0], v[1], v[2], v[3], v[4..]);
      SextetsOfBytes(v[4..]);
      assert v == [v[0], v[1], v[2], v[3]] + v[4..];
    }
  }

  /** A whole group is reproduced, so only what follows it matters. */
  lemma GroupFilled(p: sextet, q: sextet, r: sextet, s: sextet, rest: seq<sextet>)
    requires Bytes(rest).Some?
    ensures var v := [p, q, r, s] + rest;
            && Bytes(v).Some?
            && (Sextets(Bytes(v).value) == v <==> Sextets(Bytes(rest).value) == rest)
            && (Filled(v) <==> Filled(rest))
  {
    var v := [p, q, r, s] + rest;
    var again := Sextets(Bytes(rest).value);
    BytesOfGroup(p, q, r, s, rest);
    SextetsOfGroup(Pair(p, q), Middle(q, r), Last(r, s), Bytes(rest).value);
    SextetsBack(p, q, r, s);
    assert Sextets(Bytes(v).value) == [p, q, r, s] + again;
    assert ([p, q, r, s] + again)[4..] == again && v[4..] == rest;
    FilledRest(v);
  }

  // ---------------------------------------------------------------- characters and padding

  function Text(v: seq<sextet>): (s: string)
    ensures |s| == |v| && forall i :: 0 <= i < |v| ==> s[i] == Symbol(v[i])
  {
    seq(|v|, i requires 0 <= i < |v| => Symbol(v[i]))
  }

  predicate Plain(s: string) {
    forall i :: 0 <= i < |s| ==> InAlphabet(s[i])
  }

  function Values(s: string): (v: seq<sextet>)
    requires Plain(s)
    ensures |v| == |s| && forall i :: 0 <= i < |v| ==> v[i] == Value(s[i])
  {
    seq(|s|, i requires 0 <= i < |s| => Value(s[i]))
  }

  /** `-n % 4`: what fills a group of four; more than two only for a lone character. */
  function Fill(n: nat): (k: nat)
    ensures k < 4 && (n + k) % 4 == 0
    ensures k <= 2 <==> n % 4 != 1
  {
    if n % 4 == 0 then 0 else 4 - n % 4
  }

  function Padding(n: nat): string {
    seq(n, _ => '=')
  }

  /** `rstrip("=")` */
  function Stripped(s: string): string {
    if |s| > 0 && s[|s| - 1] == '=' then Stripped(s[..|s| - 1]) else s
  }

  /** The standard code: whole groups of four, the last one filled up with `=`. */
  function EncodePadded(b: bytes): string {
    Text(Sextets(b)) + Padding(Fill(|Sextets(b)|))
  }

  function Encode(b: bytes): string {
    Stripped(EncodePadded(b))
  }

  lemma {:induction false} StripPadding(s: string, n: nat)
    requires |s| > 0 ==> s[|s| - 1] != '='
    ensures Stripped(s + Padding(n)) == s
    decreases n
  {
    if n == 0 {
      assert s + Padding(0) == s;
    } else {
      assert (s + Padding(n))[..|s| + n - 1] == s + Padding(n - 1);
      StripPadding(s, n - 1);
    }
  }

  lemma TextValues(v: seq<sextet>)
    ensures Plain(Text(v)) && Values(Text(v)) == v
  {
    forall i | 0 <= i < |v| ensures InAlphabet(Text(v)[i]) && Value(Text(v)[i]) == v[i] {
      SymbolValue(v[i]);
    }
  }

  lemma ValuesText(s: string)
    requires Plain(s)
    ensures Text(Values(s)) == s
  {
    forall i | 0 <= i < |s| ensures Text(Values(s))[i] == s[i] {
      ValueSymbol(s[i]);
    }
  }

  // ---------------------------------------------------------------- the decoder

  /** The characters that carry data: those of the alphabet and the two of the standard alphabet they stand for. */
  predicate Counts(c: char) {
    InAlphabet(c) || c == '+' || c == '/'
  }

  function Weight(c: char): sextet
    requires Counts(c)
  {
    if c == '+' then 62 else if c == '/' then 63 else Value(c)
  }

  datatype Scan = Reading(data: seq<sextet>, pads: nat) | Done(data: seq<sextet>)

  /** One character of the library's decoder, which skips whatever carries no data: a group with enough
      padding ends the text. */
  function Step(scan: Scan, c: char): Scan {
    match scan
    case Done(_) => scan
    case Reading(data, pads) =>
      if c == '=' then
        if |data| % 4 < 2 then scan
        else if |data| % 4 + pads + 1 >= 4 then Done(data)
        else Reading(data, pads + 1)
      else if Counts(c) then Reading(data + [Weight(c)], 0)
      else scan
  }

  function Scanned(s: string): Scan {
    if s == "" then Reading([], 0) else Step(Scanned(s[..|s| - 1]), s[|s| - 1])
  }

  /** Without an end by padding the last group has to be whole. */
  function Finished(scan: Scan): Option<bytes> {
    match scan
    case Done(data) => Bytes(data)
    case Reading(data, _) => if |data| % 4 == 0 then Bytes(data) else None
  }

  predicate Ascii(s: string) {
    forall i :: 0 <= i < |s| ==> s[i] as int < 128
  }

  /** Padding is restored by the length of the text, whatever it consists of. */
  function Repadded(s: string): string {
    s + Padding(Fill(|s|))
  }

  function Decode(s: string): Option<bytes> {
    if Ascii(s) then Finished(Scanned(Repadded(s))) else None
  }

  // ---------------------------------------------------------------- what the decoder reads

  /** The data of all data characters. */
  function Data(s: string): seq<sextet> {
    if s == "" then []
    else if Counts(s[|s| - 1]) then Data(s[..|s| - 1]) + [Weight(s[|s| - 1])]
    else Data(s[..|s| - 1])
  }

  /** The padding characters since the last data character. */
  function Pads(s: string): nat {
    if s == "" || Counts(s[|s| - 1]) then 0
    else Pads(s[..|s| - 1]) + if s[|s| - 1] == '=' then 1 else 0
  }

  /** The text ends with the padding character that completes its last group. */
  predicate Closes(s: string) {
    var open := |Data(s)| % 4;
    s != "" && s[|s| - 1] == '=' && open >= 2 && open + Pads(s) >= 4
  }

  /** Nothing before position `i` ends the text. */
  ghost predicate OpenUntil(s: string, i: nat)
    requires i <= |s|
  {
    forall j :: 0 <= j < i ==> !Closes(s[..j])
  }

  /** Scanning ends at `i`, at the first completed group or else at the end. */
  ghost predicate EndsAt(s: string, i: nat) {
    i <= |s| && OpenUntil(s, i) && (Closes(s[..i]) || i == |s|)
  }

  lemma {:induction false} ScannedOpen(s: string)
    requires OpenUntil(s, |s|) && !Closes(s)
    ensures Scanned(s) == Reading(Data(s), if |Data(s)| % 4 >= 2 then Pads(s) else 0)
    decreases |s|
  {
    if s != "" {
      var front := s[..|s| - 1];
      assert s[..|s| - 1] == front;
      forall j | 0 <= j < |front| ensures !Closes(front[..j]) {
        assert front[..j] == s[..j];
      }
      ScannedOpen(front);
    }
  }

  lemma {:induction false} ScannedClosed(s: string, i: nat)
    requires i <= |s| && OpenUntil(s, i) && Closes(s[..i])
    ensures Scanned(s) == Done(Data(s[..i]))
    decreases |s|
  {
    var front := s[..|s| - 1];
    if i == |s| {
      assert s[..i] == s;
      forall j | 0 <= j < |front| ensures !Closes(front[..j]) {
        assert front[..j] == s[..j];
      }
      ScannedOpen(front);
    } else {
      assert front[..i] == s[..i];
      forall j | 0 <= j < i ensures !Closes(front[..j]) {
        assert front[..j] == s[..j];
      }
      ScannedClosed(front, i);
    }
  }

  lemma {:induction false} SomeEnd(s: string, n: nat) returns (i: nat)
    requires n <= |s| && OpenUntil(s, n)
    ensures EndsAt(s, i)
    decreases |s| - n
  {
    if n == |s| || Closes(s[..n]) {
      i := n;
    } else {
      i := SomeEnd(s, n + 1);
    }
  }

  // ---------------------------------------------------------------- which texts spell which bytes

  /** The sextets with the bits of the last one that no byte uses cleared. */
  function Cleared(v: seq<sextet>): (r: seq<sextet>)
    ensures |r| == |v|
  {
    var n := |v|;
    if n % 4 == 2 then v[..n - 1] + [v[n - 1] / 16 * 16]
    else if n % 4 == 3 then v[..n - 1] + [v[n - 1] / 4 * 4]
    else v
  }

  lemma ClearedFilled(v: seq<sextet>)
    ensures Filled(Cleared(v)) && (Filled(v) ==> Cleared(v) == v)
  {
  }

  lemma {:induction false} BytesOfCleared(v: seq<sextet>)
    ensures Bytes(Cleared(v)) == Bytes(v)
    decreases |v|
  {
    if |v| == 2 {
      assert v[1] / 16 * 16 / 16 == v[1] / 16;
    } else if |v| == 3 {
      assert v[2] / 4 * 4 / 4 == v[2] / 4;
    } else if |v| >= 4 {
      BytesOfCleared(v[4..]);
      ClearedRest(v);
    }
  }

  lemma ClearedRest(v: seq<sextet>)
    requires |v| >= 4
    ensures Cleared(v)[..4] == v[..4] && Cleared(v)[4..] == Cleared(v[4..])
  {
    assert |v[4..]| % 4 == |v| % 4;
  }

  /** Sextets give just these bytes when, up to unused bits, they are the bytes' own. */
  lemma BytesExactly(v: seq<sextet>, b: bytes)
    ensures Bytes(v) == Some(b) <==> |v| % 4 != 1 && Cleared(v) == Sextets(b)
  {
    BytesDefined(v);
    BytesOfCleared(v);
    ClearedFilled(v);
    if Bytes(v).Some? {
      SextetsOfBytes(Cleared(v));
    }
    BytesOfSextets(b);
  }

  /** What is read up to position `i` of a repadded text spells the bytes. */
  ghost predicate Spells(padded: string, i: nat, b: bytes)
    requires i <= |padded|
  {
    (Closes(padded[..i]) || |Data(padded[..i])| % 4 == 0) && Cleared(Data(padded[..i])) == Sextets(b)
  }

  lemma EndSpells(padded: string, i: nat, b: bytes)
    requires EndsAt(padded, i)
    ensures Finished(Scanned(padded)) == Some(b) <==> Spells(padded, i, b)
  {
    BytesExactly(Data(padded[..i]), b);
    if Closes(padded[..i]) {
      ScannedClosed(padded, i);
    } else {
      assert padded[..i] == padded;
      ScannedOpen(padded);
    }
  }

  /** Exactly the texts that decode to given bytes: of ASCII characters, and what is read of them up to the first
      completed group, or else all of it in whole groups, is the bytes' code up to unused bits. */
  lemma DecodeExactly(s: string, b: bytes)
    ensures Decode(s) == Some(b) <==>
            Ascii(s) && exists i :: EndsAt(Repadded(s), i) && Spells(Repadded(s), i, b)
  {
    if Ascii(s) {
      var i := SomeEnd(Repadded(s), 0);
      EndSpells(Repadded(s), i, b);
      if j :| EndsAt(Repadded(s), j) && Spells(Repadded(s), j, b) {
        EndSpells(Repadded(s), j, b);
      }
    }
  }

  // ---------------------------------------------------------------- texts without padding characters

  /** The restored padding is enough for the last group. */
  predicate Fits(data: nat, length: nat) {
    data % 4 == 0 || (data % 4 == 2 && Fill(length) >= 2) || (data % 4 == 3 && Fill(length) >= 1)
  }

  lemma {:induction false} ScannedPadFree(s: string)
    requires '=' !in s
    ensures Scanned(s) == Reading(Data(s), 0)
  {
    if s != "" {
      assert s[|s| - 1] in s && forall c :: c in s[..|s| - 1] ==> c in s;
      ScannedPadFree(s[..|s| - 1]);
    }
  }

  /** Where `k` padding characters behind all this data lead. */
  function Padded(data: seq<sextet>, k: nat): Scan {
    var open := |data| % 4;
    if open < 2 then Reading(data, 0) else if open + k >= 4 then Done(data) else Reading(data, k)
  }

  lemma OneMorePad(data: seq<sextet>, k: nat)
    requires k > 0
    ensures Step(Padded(data, k - 1), '=') == Padded(data, k)
  {
  }

  lemma {:induction false} ScannedPadding(s: string, k: nat)
    requires '=' !in s
    ensures Scanned(s + Padding(k)) == Padded(Data(s), k)
    decreases k
  {
    if k == 0 {
      assert s + Padding(0) == s;
      ScannedPadFree(s);
    } else {
      ScannedPadding(s, k - 1);
      ScannedSnoc(s + Padding(k - 1), '=');
      assert s + Padding(k - 1) + ['='] == s + Padding(k);
      OneMorePad(Data(s), k);
    }
  }

  lemma ScannedSnoc(s: string, c: char)
    ensures Scanned(s + [c]) == Step(Scanned(s), c)
  {
    assert (s + [c])[..|s|] == s;
  }

  lemma PaddedFits(data: seq<sextet>, length: nat)
    ensures Finished(Padded(data, Fill(length))) == if Fits(|data|, length) then Bytes(data) else None
  {
    BytesDefined(data);
  }

  /** Without padding characters in it, a text decodes to all its data exactly when its length restores
      enough padding. */
  lemma DecodePadFree(s: string)
    requires '=' !in s && Ascii(s)
    ensures Decode(s) == if Fits(|Data(s)|, |s|) then Bytes(Data(s)) else None
  {
    ScannedPadding(s, Fill(|s|));
    PaddedFits(Data(s), |s|);
  }

  lemma {:induction false} PlainData(s: string)
    requires Plain(s)
    ensures Data(s) == Values(s) && '=' !in s && Ascii(s)
  {
    if s != "" {
      PlainData(s[..|s| - 1]);
      assert s == s[..|s| - 1] + [s[|s| - 1]];
    }
  }

  /** Every other text of the same length and data decodes alike: `+` for `-`, `/` for `_`. */
  lemma SameDataDecodesAlike(s: string, t: string)
    requires Plain(s) && '=' !in t && Ascii(t) && Data(t) == Data(s) && |t| % 4 == |s| % 4
    ensures Decode(t) == Decode(s)
  {
    PlainData(s);
    SameFill(|s|, |t|);
    DecodePadFree(s);
    DecodePadFree(t);
  }

  lemma SameFill(m: nat, n: nat)
    requires m % 4 == n % 4
    ensures Fill(m) == Fill(n)
  {
  }

  predicate Skipped(s: string) {
    forall i :: 0 <= i < |s| ==> !Counts(s[i]) && s[i] != '=' && s[i] as int < 128
  }

  lemma {:induction false} SkippedData(s: string, junk: string)
    requires Skipped(junk)
    ensures Data(s + junk) == Data(s)
    decreases |junk|
  {
    if junk == "" {
      assert s + junk == s;
    } else {
      SkippedData(s, junk[..|junk| - 1]);
      assert (s + junk)[..|s + junk| - 1] == s + junk[..|junk| - 1];
    }
  }

  lemma JunkDecoded(s: string, junk: string)
    requires Plain(s) && Skipped(junk)
    ensures Decode(s + junk) == if Fits(|s|, |s| + |junk|) then Bytes(Values(s)) else None
  {
    PlainData(s);
    SkippedData(s, junk);
    JunkPadFree(s, junk);
    DecodePadFree(s + junk);
  }

  lemma JunkPadFree(s: string, junk: string)
    requires Plain(s) && Skipped(junk)
    ensures '=' !in s + junk && Ascii(s + junk)
  {
  }

  /** Skipped characters behind a code change nothing exactly when the padding restored with them is still enough. */
  lemma JunkExactly(s: string, junk: string)
    requires Decode(s).Some? && Plain(s) && Skipped(junk)
    ensures Decode(s + junk) == Decode(s) <==> Fits(|s|, |s| + |junk|)
  {
    DecodePlain(s);
    JunkDecoded(s, junk);
  }

  /** The same text over the standard alphabet. */
  function Standard(s: string): (t: string)
    ensures |t| == |s|
  {
    seq(|s|, i requires 0 <= i < |s| => if s[i] == '-' then '+' else if s[i] == '_' then '/' else s[i])
  }

  lemma {:induction false} StandardData(s: string)
    requires Plain(s)
    ensures Data(Standard(s)) == Data(s) && '=' !in Standard(s) && Ascii(Standard(s))
  {
    if s != "" {
      StandardData(s[..|s| - 1]);
      assert Standard(s)[..|s| - 1] == Standard(s[..|s| - 1]);
      assert Standard(s) == Standard(s)[..|s| - 1] + [Standard(s)[|s| - 1]];
    }
  }

  /** The standard alphabet is read as well. */
  lemma StandardDecodesAlike(s: string)
    requires Plain(s)
    ensures Decode(Standard(s)) == Decode(s)
  {
    StandardData(s);
    SameDataDecodesAlike(s, Standard(s));
  }

  // ---------------------------------------------------------------- the laws

  /** The code has no padding, only alphabet characters, and the expected length. */
  lemma EncodeShape(b: bytes)
    ensures Encode(b) == Text(Sextets(b))
    ensures Plain(Encode(b)) && |Encode(b)| == CodeLength(|b|)
  {
    TextValues(Sextets(b));
    SextetsLength(b);
    StripPadding(Text(Sextets(b)), Fill(|Sextets(b)|));
  }

  /** What `Decode` makes of alphabet characters: only a length of one more than a multiple of four fails. */
  lemma DecodePlain(s: string)
    requires Plain(s)
    ensures Decode(s) == Bytes(Values(s))
    ensures Decode(s).Some? <==> |s| % 4 != 1
  {
    PlainData(s);
    DecodePadFree(s);
    FitsItself(|s|);
    BytesDefined(Values(s));
  }

  /** Every byte string decodes back from its code. */
  lemma RoundTrip(b: bytes)
    ensures Decode(Encode(b)) == Some(b)
  {
    EncodeShape(b);
    DecodePlain(Encode(b));
    TextValues(Sextets(b));
    BytesOfSextets(b);
  }

  /** Four skipped characters behind a code always leave it as it is. */
  lemma FourSkipped(s: string, junk: string)
    requires Plain(s) && Decode(s).Some? && Skipped(junk) && |junk| == 4
    ensures Decode(s + junk) == Decode(s)
  {
    DecodePlain(s);
    SameFill(|s|, |s| + 4);
    FitsItself(|s|);
    JunkExactly(s, junk);
  }

  lemma FitsItself(n: nat)
    ensures Fits(n, n) <==> n % 4 != 1
  {
  }

  lemma CodeWithJunk(b: bytes)
    ensures Decode(Encode(b) + "!!!!") == Some(b)
  {
    EncodeShape(b);
    RoundTrip(b);
    FourSkipped(Encode(b), "!!!!");
  }

  predicate Canonical(s: string) {
    Plain(s) && Filled(Values(s))
  }

  /** A decodable string is the code of its bytes exactly when it is canonical: alphabet characters
      only, and no bit set that belongs to no byte. */
  lemma EncodeAfterDecode(s: string, b: bytes)
    requires Decode(s) == Some(b)
    ensures Encode(b) == s <==> Canonical(s)
  {
    EncodeShape(b);
    if Plain(s) {
      DecodePlain(s);
      SextetsOfBytes(Values(s));
      ValuesText(s);
      TextValues(Sextets(b));
    }
  }
}
