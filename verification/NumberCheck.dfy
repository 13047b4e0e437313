/** The number scanner of the case report and the check of its numbers against the scoring payload
    (services/analyst_api/veripay_analyst_api/reasoning.py). */
module NumberCheck {

  /** The decimal digits with their values. Among the ASCII characters these are '0' to '9'; which
      other characters are digits is left to the Unicode version in use. */
  type Digits = d: map<char, nat> |
      && (forall c: char :: c < 128 as char ==> (c in d <==> '0' <= c <= '9'))
      && (forall c: char :: '0' <= c <= '9' ==> d[c] == c as int - '0' as int)
    witness map c: char | '0' <= c <= '9' :: c as int - '0' as int

  // ---------------------------------------------------------------- numbers

  predicate AllDigits(d: Digits, s: string) {
    forall i :: 0 <= i < |s| ==> s[i] in d
  }

  predicate Run(d: Digits, s: string) {
    s != "" && AllDigits(d, s)
  }

  /** Digits, optionally followed by a point and more digits. */
  ghost predicate Unsigned(d: Digits, s: string) {
    Run(d, s)
    || exists k :: 0 <= k < |s| && s[k] == '.' && Run(d, s[..k]) && Run(d, s[k + 1..])
  }

  /** The strings the pattern `-?\d+(?:\.\d+)?` describes. */
  ghost predicate IsNumber(d: Digits, s: string) {
    Unsigned(d, s) || (s != "" && s[0] == '-' && Unsigned(d, s[1..]))
  }

  // ---------------------------------------------------------------- the scanner

  /** How many digits the string starts with. */
  function LeadingDigits(d: Digits, s: string): (n: nat)
    ensures n <= |s| && AllDigits(d, s[..n]) && (n < |s| ==> s[n] !in d)
  {
    if s == "" || s[0] !in d then 0 else 1 + LeadingDigits(d, s[1..])
  }

  /** The length of an unsigned number at the start of the string, 0 when there is none. */
  function UnsignedLength(d: Digits, s: string): (n: nat)
    ensures n <= |s|
  {
    var k := LeadingDigits(d, s);
    if k == 0 then 0
    else if k < |s| && s[k] == '.' && LeadingDigits(d, s[k + 1..]) > 0 then
      k + 1 + LeadingDigits(d, s[k + 1..])
    else k
  }

  /** The length of the match at the start of the string, 0 when there is none. */
  function MatchLength(d: Digits, s: string): (n: nat)
    ensures n <= |s|
  {
    if s != "" && s[0] == '-' then
      var n := UnsignedLength(d, s[1..]);
      if n == 0 then 0 else 1 + n
    else UnsignedLength(d, s)
  }

  /** Every numeric token, in order. */
  function Numbers(d: Digits, s: string): seq<string>
    decreases |s|
  {
    if s == "" then []
    else
      var n := MatchLength(d, s);
      if n == 0 then Numbers(d, s[1..]) else [s[..n]] + Numbers(d, s[n..])
  }

  /** What stands before, between and after the tokens. */
  ghost function Gaps(d: Digits, s: string): (g: seq<string>)
    ensures |g| == |Numbers(d, s)| + 1
    decreases |s|
  {
    if s == "" then [""]
    else
      var n := MatchLength(d, s);
      if n == 0 then
        var g := Gaps(d, s[1..]);
        [[s[0]] + g[0]] + g[1..]
      else [""] + Gaps(d, s[n..])
  }

  ghost function Weave(gaps: seq<string>, tokens: seq<string>): string
    requires |gaps| == |tokens| + 1
  {
    if tokens == [] then gaps[0] else gaps[0] + tokens[0] + Weave(gaps[1..], tokens[1..])
  }

  lemma PrefixRun(d: Digits, s: string, m: nat)
    requires m <= |s|
    ensures AllDigits(d, s[..m]) <==> m <= LeadingDigits(d, s)
  {
    var n := LeadingDigits(d, s);
    if m <= n {
      forall i | 0 <= i < m ensures s[..m][i] in d {
        assert s[..m][i] == s[..n][i];
      }
    } else {
      assert s[..m][n] == s[n];
    }
  }

  lemma UnsignedMatch(d: Digits, s: string)
    requires UnsignedLength(d, s) > 0
    ensures Unsigned(d, s[..UnsignedLength(d, s)])
  {
    var n, k := UnsignedLength(d, s), LeadingDigits(d, s);
    var t := s[..n];
    if n > k {
      assert t[..k] == s[..k];
      assert t[k + 1..] == s[k + 1..][..n - k - 1];
      assert t[k] == '.' && Run(d, t[..k]) && Run(d, t[k + 1..]);
    }
  }

  /** An unsigned number with its point at `j` cannot be longer than the match. */
  lemma PointedPrefix(d: Digits, s: string, m: nat, j: nat)
    requires j < m <= |s| && s[j] == '.' && Run(d, s[..j]) && Run(d, s[j + 1..m])
    ensures m <= UnsignedLength(d, s)
  {
    PrefixRun(d, s, j);
    assert s[j] !in d;
    assert j == LeadingDigits(d, s) by {
      PrefixRun(d, s, j + 1);
      assert s[..j + 1][j] == '.';
    }
    assert s[j + 1..][..m - j - 1] == s[j + 1..m];
    PrefixRun(d, s[j + 1..], m - j - 1);
  }

  lemma UnsignedLongest(d: Digits, s: string, m: nat)
    requires m <= |s| && Unsigned(d, s[..m])
    ensures 0 < m <= UnsignedLength(d, s)
  {
    var t := s[..m];
    if Run(d, t) {
      PrefixRun(d, s, m);
    } else {
      var j :| 0 <= j < m && t[j] == '.' && Run(d, t[..j]) && Run(d, t[j + 1..]);
      assert t[..j] == s[..j] && t[j + 1..] == s[j + 1..m];
      PointedPrefix(d, s, m, j);
    }
  }

  /** The scanner takes the longest number a position starts with, and skips the position only when
      no number starts there. */
  lemma LongestMatch(d: Digits, s: string)
    ensures MatchLength(d, s) > 0 ==> IsNumber(d, s[..MatchLength(d, s)])
    ensures forall m :: 0 <= m <= |s| && IsNumber(d, s[..m]) ==> 0 < m <= MatchLength(d, s)
  {
    var n := MatchLength(d, s);
    if n > 0 {
      if s[0] == '-' {
        UnsignedMatch(d, s[1..]);
        assert s[..n][1..] == s[1..][..n - 1];
      } else {
        UnsignedMatch(d, s);
      }
    }
    forall m | 0 <= m <= |s| && IsNumber(d, s[..m]) ensures 0 < m <= n {
      NumberPrefix(d, s, m);
    }
  }

  lemma NumberPrefix(d: Digits, s: string, m: nat)
    requires m <= |s| && IsNumber(d, s[..m])
    ensures 0 < m <= MatchLength(d, s)
  {
    if Unsigned(d, s[..m]) {
      UnsignedLongest(d, s, m);
      assert s[..m][0] == s[0] && s[..m][0] in d by {
        UnsignedStartsWithDigit(d, s[..m]);
      }
    } else {
      assert s[..m][1..] == s[1..][..m - 1];
      UnsignedLongest(d, s[1..], m - 1);
    }
  }

  lemma UnsignedStartsWithDigit(d: Digits, s: string)
    requires Unsigned(d, s)
    ensures s != "" && s[0] in d
  {
    if !Run(d, s) {
      var k :| 0 <= k < |s| && s[k] == '.' && Run(d, s[..k]) && Run(d, s[k + 1..]);
      assert s[..k][0] in d;
    }
  }

  predicate DigitFree(d: Digits, s: string) {
    forall i :: 0 <= i < |s| ==> s[i] !in d
  }

  /** The tokens are numbers; with digit-free gaps around them they are the whole text again. So they
      are in order, they do not overlap, and every digit is in one of them. */
  lemma TokensAndGaps(d: Digits, s: string)
    ensures Weave(Gaps(d, s), Numbers(d, s)) == s
    ensures forall t <- Numbers(d, s) :: IsNumber(d, t)
    ensures forall g <- Gaps(d, s) :: DigitFree(d, g)
  {
    WeaveBack(d, s);
    TokensAreNumbers(d, s);
    GapsAreDigitFree(d, s);
  }

  lemma {:induction false} WeaveBack(d: Digits, s: string)
    ensures Weave(Gaps(d, s), Numbers(d, s)) == s
    decreases |s|
  {
    if s != "" {
      var n := MatchLength(d, s);
      if n == 0 {
        WeaveBack(d, s[1..]);
        WeaveCharacter(s[0], Gaps(d, s[1..]), Numbers(d, s[1..]));
        assert s == [s[0]] + s[1..];
      } else {
        WeaveBack(d, s[n..]);
        WeaveToken(s[..n], Gaps(d, s[n..]), Numbers(d, s[n..]));
        assert s == s[..n] + s[n..];
      }
    }
  }

  lemma WeaveCharacter(c: char, g: seq<string>, tokens: seq<string>)
    requires |g| == |tokens| + 1
    ensures Weave([[c] + g[0]] + g[1..], tokens) == [c] + Weave(g, tokens)
  {
    assert ([[c] + g[0]] + g[1..])[1..] == g[1..];
    if tokens != [] {
      assert [c] + g[0] + tokens[0] + Weave(g[1..], tokens[1..])
             == [c] + (g[0] + tokens[0] + Weave(g[1..], tokens[1..]));
    }
  }

  lemma WeaveToken(t: string, g: seq<string>, tokens: seq<string>)
    requires |g| == |tokens| + 1
    ensures Weave([""] + g, [t] + tokens) == t + Weave(g, tokens)
  {
    assert ([""] + g)[1..] == g && ([t] + tokens)[1..] == tokens;
    assert "" + t == t;
  }

  lemma {:induction false} TokensAreNumbers(d: Digits, s: string)
    ensures forall t <- Numbers(d, s) :: IsNumber(d, t)
    decreases |s|
  {
    if s != "" {
      var n := MatchLength(d, s);
      LongestMatch(d, s);
      TokensAreNumbers(d, s[if n == 0 then 1 else n..]);
    }
  }

  lemma {:induction false} GapsAreDigitFree(d: Digits, s: string)
    ensures forall g <- Gaps(d, s) :: DigitFree(d, g)
    decreases |s|
  {
    if s != "" {
      var n := MatchLength(d, s);
      GapsAreDigitFree(d, s[if n == 0 then 1 else n..]);
      if n == 0 {
        assert s[0] !in d;
        var g := Gaps(d, s[1..]);
        assert g[0] in g && DigitFree(d, [s[0]] + g[0]);
      }
    }
  }

  // ---------------------------------------------------------------- scanning joined texts

  /** A character that keeps numbers apart: scanning around it never joins or changes tokens. */
  ghost predicate Separates(d: Digits, c: char) {
    forall a: string, b: string :: Numbers(d, a + [c] + b) == Numbers(d, a) + Numbers(d, b)
  }

  lemma {:induction false} RunBeforeSeparator(d: Digits, a: string, c: char, b: string)
    requires c !in d
    ensures LeadingDigits(d, a + [c] + b) == LeadingDigits(d, a)
  {
    if a != "" {
      assert (a + [c] + b)[1..] == a[1..] + [c] + b;
      RunBeforeSeparator(d, a[1..], c, b);
    }
  }

  lemma UnsignedBeforeSeparator(d: Digits, a: string, c: char, b: string)
    requires c !in d && c != '.'
    ensures UnsignedLength(d, a + [c] + b) == UnsignedLength(d, a)
  {
    RunBeforeSeparator(d, a, c, b);
    var k := LeadingDigits(d, a);
    if k < |a| {
      assert (a + [c] + b)[k + 1..] == a[k + 1..] + [c] + b;
      RunBeforeSeparator(d, a[k + 1..], c, b);
    }
  }

  lemma MatchBeforeSeparator(d: Digits, a: string, c: char, b: string)
    requires c !in d && c != '.' && c != '-'
    ensures MatchLength(d, a + [c] + b) == MatchLength(d, a)
  {
    UnsignedBeforeSeparator(d, a, c, b);
    if a != "" {
      assert (a + [c] + b)[1..] == a[1..] + [c] + b;
      UnsignedBeforeSeparator(d, a[1..], c, b);
    }
  }

  lemma {:induction false} NumbersAround(d: Digits, a: string, c: char, b: string)
    requires c !in d && c != '.' && c != '-'
    ensures Numbers(d, a + [c] + b) == Numbers(d, a) + Numbers(d, b)
    decreases |a|
  {
    var s := a + [c] + b;
    MatchBeforeSeparator(d, a, c, b);
    if a == "" {
      assert s[1..] == b;
    } else {
      var n := MatchLength(d, a);
      var k := if n == 0 then 1 else n;
      assert s[k..] == a[k..] + [c] + b && s[..k] == a[..k];
      NumbersAround(d, a[k..], c, b);
    }
  }

  lemma OneDigit(d: Digits)
    ensures Numbers(d, "5") == ["5"] && Numbers(d, "") == []
  {
    assert LeadingDigits(d, "5") == 1;
    assert "5"[..1] == "5" && "5"[1..] == "";
  }

  /** Exactly the characters that are no digit, no point and no minus keep numbers apart. */
  lemma SeparatesExactly(d: Digits, c: char)
    ensures Separates(d, c) <==> c !in d && c != '.' && c != '-'
  {
    if c !in d && c != '.' && c != '-' {
      forall a: string, b: string ensures Numbers(d, a + [c] + b) == Numbers(d, a) + Numbers(d, b) {
        NumbersAround(d, a, c, b);
      }
    } else {
      Joined(d, c);
    }
  }

  lemma Joined(d: Digits, c: char)
    requires c in d || c == '.' || c == '-'
    ensures !Separates(d, c)
  {
    OneDigit(d);
    if c == '.' {
      var s := "5" + [c] + "5";
      assert s[1..] == ".5" && s[2..] == "5";
      assert LeadingDigits(d, s) == 1 && MatchLength(d, s) == 3;
      assert s[..3] == s && s[3..] == "";
      assert Numbers(d, s) == [s];
      assert Numbers(d, s) != Numbers(d, "5") + Numbers(d, "5");
    } else if c == '-' {
      var s := "" + [c] + "5";
      assert s[1..] == "5";
      assert MatchLength(d, s) == 2 && s[..2] == s && s[2..] == "";
      assert Numbers(d, s) == [s] && |s| == 2;
      assert (Numbers(d, "") + Numbers(d, "5"))[0] == "5";
      assert Numbers(d, s)[0] != "5";
    } else {
      var s := "" + [c] + "";
      assert s[1..] == "" && LeadingDigits(d, s) == 1;
      assert s[..1] == s;
      assert Numbers(d, s) == [s];
      assert Numbers(d, s) != Numbers(d, "") + Numbers(d, "");
    }
  }

  // ---------------------------------------------------------------- what a number is worth

  function Whole(d: Digits, s: string): int
    requires AllDigits(d, s)
  {
    if s == "" then 0 else 10 * Whole(d, s[..|s| - 1]) + d[s[|s| - 1]]
  }

  function Power10(n: nat): (p: real)
    ensures p >= 1.0
  {
    if n == 0 then 1.0 else 10.0 * Power10(n - 1)
  }

  /** The value of an unsigned number: the digits before the point and those after it. */
  function Magnitude(d: Digits, s: string): real {
    var k := LeadingDigits(d, s);
    var tail := if k < |s| then s[k + 1..] else "";
    var n := LeadingDigits(d, tail);
    Whole(d, s[..k]) as real + Whole(d, tail[..n]) as real / Power10(n)
  }

  /** `float(token)` */
  function NumberValue(d: Digits, token: string): real {
    if token != "" && token[0] == '-' then -Magnitude(d, token[1..]) else Magnitude(d, token)
  }

  function Abs(x: real): real {
    if x < 0.0 then -x else x
  }

  // ---------------------------------------------------------------- the crosscheck

  /** A payload value: a truth value, or anything else by what it prints as. */
  datatype PayloadValue = Flag(on: bool) | Printed(text: string)

  type Payload = map<string, PayloadValue>

  const FLOOR := 200.0

  /** The numbers the payload prints. */
  ghost function Allowed(d: Digits, payload: Payload): set<string> {
    set k <- payload, t <- PrintedNumbers(d, payload[k]) :: t
  }

  function PrintedNumbers(d: Digits, value: PayloadValue): seq<string> {
    if value.Flag? then [] else Numbers(d, value.text)
  }

  /** Whole numbers below the floor are taken for incidental counts. */
  predicate Checked(d: Digits, token: string) {
    '.' in token || Abs(NumberValue(d, token)) >= FLOOR
  }

  predicate Close(d: Digits, candidate: string, token: string) {
    var value := NumberValue(d, token);
    Abs(NumberValue(d, candidate) - value) <= Abs(value) * 0.05
  }

  ghost predicate Supported(d: Digits, token: string, allowed: set<string>) {
    token in allowed || exists c <- allowed :: Close(d, c, token)
  }

  ghost predicate Unsupported(d: Digits, token: string, allowed: set<string>) {
    Checked(d, token) && !Supported(d, token, allowed)
  }

  /** The payload prints numbers, and some number of the text has no support among them. */
  ghost predicate Flagged(d: Digits, text: string, payload: Payload) {
    Allowed(d, payload) != {} && exists t <- Numbers(d, text) :: Unsupported(d, t, Allowed(d, payload))
  }

  method AllowedNumberStrings(d: Digits, payload: Payload) returns (allowed: set<string>)
    ensures allowed == Allowed(d, payload)
  {
    allowed := {};
    var left := payload.Keys;
    ghost var done: set<string> := {};
    while left != {}
      invariant done + left == payload.Keys
      invariant forall t :: t in allowed <==> exists k <- done :: t in PrintedNumbers(d, payload[k])
      decreases |left|
    {
      var k :| k in left;
      left, done := left - {k}, done + {k};
      if payload[k].Flag? {
        continue;
      }
      var numbers := Numbers(d, payload[k].text);
      allowed := AddAll(allowed, numbers);
    }
  }

  method AddAll<T(==)>(s: set<T>, xs: seq<T>) returns (r: set<T>)
    ensures forall x :: x in r <==> x in s || x in xs
  {
    r := s;
    for i := 0 to |xs|
      invariant forall x :: x in r <==> x in s || x in xs[..i]
    {
      assert xs[..i + 1] == xs[..i] + [xs[i]];
      r := r + {xs[i]};
    }
    assert xs[..|xs|] == xs;
  }

  method MatchesAllowed(d: Digits, token: string, allowed: set<string>) returns (matches: bool)
    ensures matches <==> Supported(d, token, allowed)
  {
    if token in allowed {
      return true;
    }
    var left := allowed;
    while left != {}
      invariant left <= allowed && forall c <- allowed - left :: !Close(d, c, token)
      decreases |left|
    {
      var candidate :| candidate in left;
      if Close(d, candidate, token) {
        return true;
      }
      left := left - {candidate};
    }
    return false;
  }

  /** The check is made exactly when the payload has numbers, and it flags exactly the texts with an
      unsupported number. */
  method CrosscheckNumbers(d: Digits, text: string, payload: Payload)
    returns (crosschecked: bool, flagged: bool)
    ensures crosschecked <==> Allowed(d, payload) != {}
    ensures flagged <==> Flagged(d, text, payload)
  {
    var allowed := AllowedNumberStrings(d, payload);
    if allowed == {} {
      return false, false;
    }
    var falseFound := FindUnsupported(d, Numbers(d, text), allowed);
    if falseFound != [] {
      assert falseFound[0] in falseFound;
    }
    return true, falseFound != [];
  }

  /** The loop over the tokens, collecting those that are checked and have no support. */
  method FindUnsupported(d: Digits, tokens: seq<string>, allowed: set<string>) returns (falseFound: seq<string>)
    ensures forall t :: t in falseFound <==> t in tokens && Unsupported(d, t, allowed)
  {
    falseFound := [];
    for i := 0 to |tokens|
      invariant forall t :: t in falseFound <==> t in tokens[..i] && Unsupported(d, t, allowed)
    {
      var token := tokens[i];
      assert tokens[..i + 1] == tokens[..i] + [token];
      if '.' !in token && Abs(NumberValue(d, token)) < FLOOR {
        continue;
      }
      var matches := MatchesAllowed(d, token, allowed);
      if !matches {
        falseFound := falseFound + [token];
      }
    }
    assert tokens[..|tokens|] == tokens;
  }

  // ---------------------------------------------------------------- laws of the crosscheck

  /** A text is flagged exactly when one of its space-separated parts is. */
  lemma FlaggedByParts(d: Digits, a: string, b: string, payload: Payload)
    ensures Flagged(d, a + " " + b, payload) <==> Flagged(d, a, payload) || Flagged(d, b, payload)
  {
    NumbersAround(d, a, ' ', b);
    var na, nb := Numbers(d, a), Numbers(d, b);
    assert forall t :: t in na + nb <==> t in na || t in nb;
  }

  function SpaceJoined(parts: seq<string>): string {
    if parts == [] then ""
    else if |parts| == 1 then parts[0]
    else parts[0] + " " + SpaceJoined(parts[1..])
  }

  /** A text that only quotes what the payload prints is never flagged. */
  lemma {:induction false} QuotesNeverFlagged(d: Digits, parts: seq<string>, payload: Payload)
    requires forall p <- parts :: exists k <- payload :: payload[k] == Printed(p)
    ensures !Flagged(d, SpaceJoined(parts), payload)
  {
    if parts != [] {
      assert parts[0] in parts;
      var k :| k in payload && payload[k] == Printed(parts[0]);
      forall t <- Numbers(d, parts[0]) ensures t in Allowed(d, payload) {
        assert t in PrintedNumbers(d, payload[k]);
      }
      assert !Flagged(d, parts[0], payload);
      if |parts| > 1 {
        QuotesNeverFlagged(d, parts[1..], payload);
        FlaggedByParts(d, parts[0], SpaceJoined(parts[1..]), payload);
      }
    }
  }

  /** Adding entries to a payload that already prints a number never creates a flag. */
  lemma MoreEntriesNeverFlag(d: Digits, text: string, payload: Payload, more: Payload)
    requires forall k <- payload :: k in more && more[k] == payload[k]
    requires Allowed(d, payload) != {}
    ensures Flagged(d, text, more) ==> Flagged(d, text, payload)
  {
    forall t <- Allowed(d, payload) ensures t in Allowed(d, more) {
      var k :| k in payload && t in PrintedNumbers(d, payload[k]);
      assert k in more && more[k] == payload[k];
    }
  }

  // ---------------------------------------------------------------- the system's own sentences

  lemma AlertToken(d: Digits)
    ensures Numbers(d, "+0.10.") == ["0.10"]
    ensures NumberValue(d, "0.10") == 0.1
  {
    var s := "0.10.";
    assert "+0.10."[1..] == s && MatchLength(d, "+0.10.") == 0;
    assert s[1..] == ".10." && s[2..] == "10." && "10."[1..] == "0." && "0."[1..] == ".";
    assert LeadingDigits(d, ".") == 0 && LeadingDigits(d, "0.") == 1 && LeadingDigits(d, "10.") == 2;
    assert LeadingDigits(d, s) == 1 && MatchLength(d, s) == 4;
    assert s[..4] == "0.10" && s[4..] == ".";
    assert Numbers(d, ".") == [] by { assert "."[1..] == ""; }
    var t := "0.10";
    assert t[1..] == ".10" && t[..1] == "0" && t[2..] == "10" && "10"[1..] == "0" && "0"[1..] == "";
    assert LeadingDigits(d, "0") == 1 && LeadingDigits(d, "10") == 2 && LeadingDigits(d, t) == 1;
    assert "10"[..2] == "10" && "10"[..1] == "1" && "0"[..0] == "" && "1"[..0] == "";
    assert Whole(d, "") == 0 && Whole(d, "1") == 1 && Whole(d, "10") == 10 && Whole(d, "0") == 0;
    assert Power10(0) == 1.0 && Power10(1) == 10.0 && Power10(2) == 100.0;
  }

  /** The explanation of a heightened alert ends with the words "+0.10."; with the default addition, a
      report that contains it is flagged, unless the rest is fine and the payload happens to print a
      number within five per cent of 0.10. */
  lemma HeightenedAlertFlagged(d: Digits, before: string, after: string, payload: Payload)
    requires Allowed(d, payload) != {}
    ensures Flagged(d, before + " " + "+0.10." + " " + after, payload)
            <==> || Flagged(d, before, payload) || Flagged(d, after, payload)
                 || forall c <- Allowed(d, payload) :: !(0.095 <= NumberValue(d, c) <= 0.105)
  {
    var allowed := Allowed(d, payload);
    FlaggedByParts(d, before + " " + "+0.10.", after, payload);
    FlaggedByParts(d, before, "+0.10.", payload);
    AlertToken(d);
    assert Checked(d, "0.10") by { assert "0.10"[1] == '.'; }
    forall c <- allowed ensures Close(d, c, "0.10") <==> 0.095 <= NumberValue(d, c) <= 0.105 {
    }
    assert Flagged(d, "+0.10.", payload) <==> Unsupported(d, "0.10", allowed) by {
      assert "0.10" in Numbers(d, "+0.10.");
    }
  }
}
