/** The recursive redactor of personal data (libs/veripay_common/veripay_common/privacy.py). Which
    keys are sensitive, and the one-way token of a value, are parameters. */
module Redaction {
  import Sorting

  /** A payload value. A mapping is its entries in iteration order, with the keys as they print. */
  datatype Value =
    | Leaf(text: string)
    | Listing(items: seq<Value>)
    | Mapping(entries: seq<(string, Value)>)

  datatype Redactor = Redactor(sensitive: string -> bool, tokenize: Value -> string)

  // ---------------------------------------------------------------- positions

  /** A position is the sequence of child numbers that leads to it. */
  type Position = seq<nat>

  function Children(v: Value): nat {
    match v
    case Leaf(_) => 0
    case Listing(items) => |items|
    case Mapping(entries) => |entries|
  }

  function Child(v: Value, i: nat): (c: Value)
    requires i < Children(v)
    ensures c < v
  {
    match v
    case Listing(items) => items[i]
    case Mapping(entries) => entries[i].1
  }

  predicate Exists(v: Value, p: Position) {
    p == [] || (p[0] < Children(v) && Exists(Child(v, p[0]), p[1..]))
  }

  function At(v: Value, p: Position): Value
    requires Exists(v, p)
  {
    if p == [] then v else At(Child(v, p[0]), p[1..])
  }

  /** The entry with which the position starts has a sensitive key. */
  predicate Guarded(r: Redactor, v: Value, i: nat) {
    v.Mapping? && i < |v.entries| && r.sensitive(v.entries[i].0)
  }

  /** Some entry on the way to the position has a sensitive key. */
  predicate Hidden(r: Redactor, v: Value, p: Position)
    requires Exists(v, p)
  {
    p != [] && (Guarded(r, v, p[0]) || Hidden(r, Child(v, p[0]), p[1..]))
  }

  /** The position of a sensitive entry with no sensitive entry above it. */
  predicate Outermost(r: Redactor, v: Value, p: Position)
    requires Exists(v, p)
  {
    p != [] && if |p| == 1 then Guarded(r, v, p[0])
               else !Guarded(r, v, p[0]) && Outermost(r, Child(v, p[0]), p[1..])
  }

  /** Keys are distinct in every mapping. */
  predicate DistinctKeys(v: Value) {
    match v
    case Leaf(_) => true
    case Listing(items) => forall c <- items :: DistinctKeys(c)
    case Mapping(entries) =>
      && (forall i, j :: 0 <= i < j < |entries| ==> entries[i].0 != entries[j].0)
      && (forall e <- entries :: DistinctKeys(e.1))
  }

  // ---------------------------------------------------------------- specification of the walk

  /** Assignment to a dictionary key: in place when the key is there, at the end otherwise. */
  function Assign(entries: seq<(string, Value)>, key: string, v: Value): seq<(string, Value)> {
    if entries == [] then [(key, v)]
    else if entries[0].0 == key then [(key, v)] + entries[1..]
    else [entries[0]] + Assign(entries[1..], key, v)
  }

  /** The sanitized value, with the entries of a mapping assigned one after the other. */
  function Sanitized(r: Redactor, v: Value): Value
    decreases v, Children(v) + 1
  {
    match v
    case Leaf(_) => v
    case Listing(items) => Listing(SanitizedItems(r, v, |items|))
    case Mapping(entries) => Mapping(SanitizedEntries(r, v, |entries|))
  }

  function SanitizedItems(r: Redactor, v: Value, n: nat): (out: seq<Value>)
    requires v.Listing? && n <= |v.items|
    ensures |out| == n
    decreases v, n
  {
    if n == 0 then [] else SanitizedItems(r, v, n - 1) + [SanitizedChild(r, v, n - 1)]
  }

  function SanitizedEntries(r: Redactor, v: Value, n: nat): seq<(string, Value)>
    requires v.Mapping? && n <= |v.entries|
    decreases v, n
  {
    if n == 0 then []
    else Assign(SanitizedEntries(r, v, n - 1), v.entries[n - 1].0, SanitizedChild(r, v, n - 1))
  }

  function SanitizedChild(r: Redactor, v: Value, i: nat): Value
    requires i < Children(v)
    decreases v, i
  {
    if Guarded(r, v, i) then Leaf(r.tokenize(Child(v, i))) else Sanitized(r, Child(v, i))
  }

  function Digit(n: nat): char
    requires n < 10
  {
    ('0' as int + n) as char
  }

  function Decimal(n: nat): string {
    if n < 10 then [Digit(n)] else Decimal(n / 10) + [Digit(n % 10)]
  }

  /** The path text of a child. */
  function ChildPath(v: Value, i: nat, path: string): string
    requires i < Children(v)
  {
    if v.Listing? then path + "[" + Decimal(i) + "]"
    else if path == "" then v.entries[i].0
    else path + "." + v.entries[i].0
  }

  /** The paths reported for the first `n` children. */
  function Reported(r: Redactor, v: Value, path: string, n: nat): seq<string>
    requires n <= Children(v)
    decreases v, n
  {
    if n == 0 then [] else Reported(r, v, path, n - 1) + ReportedChild(r, v, path, n - 1)
  }

  function ReportedChild(r: Redactor, v: Value, path: string, i: nat): seq<string>
    requires i < Children(v)
    decreases v, i
  {
    var c := Child(v, i);
    if Guarded(r, v, i) then [ChildPath(v, i, path)] else Reported(r, c, ChildPath(v, i, path), Children(c))
  }

  // ---------------------------------------------------------------- the walk

  /** The list the walk appends to. */
  class FieldList {
    var paths: seq<string>

    constructor ()
      ensures paths == []
    {
      paths := [];
    }

    method Append(path: string)
      modifies this
      ensures paths == old(paths) + [path]
    {
      paths := paths + [path];
    }
  }

  method Walk(r: Redactor, v: Value, path: string, redacted: FieldList) returns (out: Value)
    modifies redacted
    ensures out == Sanitized(r, v)
    ensures redacted.paths == old(redacted.paths) + Reported(r, v, path, Children(v))
    decreases v, 1
  {
    match v
    case Leaf(_) =>
      return v;
    case Listing(_) =>
      var items := WalkItems(r, v, path, redacted);
      return Listing(items);
    case Mapping(_) =>
      var entries := WalkEntries(r, v, path, redacted);
      return Mapping(entries);
  }

  method WalkItems(r: Redactor, v: Value, path: string, redacted: FieldList) returns (out: seq<Value>)
    requires v.Listing?
    modifies redacted
    ensures out == SanitizedItems(r, v, |v.items|)
    ensures redacted.paths == old(redacted.paths) + Reported(r, v, path, Children(v))
    decreases v, 0
  {
    out := [];
    ghost var start := redacted.paths;
    for i := 0 to |v.items|
      invariant out == SanitizedItems(r, v, i)
      invariant redacted.paths == start + Reported(r, v, path, i)
    {
      var child := WalkItem(r, v, i, path, redacted);
      out := out + [child];
      Sorting.Regroup(start, Reported(r, v, path, i), ReportedChild(r, v, path, i));
    }
  }

  method WalkItem(r: Redactor, v: Value, i: nat, path: string, redacted: FieldList) returns (child: Value)
    requires v.Listing? && i < |v.items|
    modifies redacted
    ensures child == SanitizedChild(r, v, i)
    ensures redacted.paths == old(redacted.paths) + ReportedChild(r, v, path, i)
    decreases v, 0, 0
  {
    child := Walk(r, Child(v, i), ChildPath(v, i, path), redacted);
  }

  method WalkEntries(r: Redactor, v: Value, path: string, redacted: FieldList)
    returns (result: seq<(string, Value)>)
    requires v.Mapping?
    modifies redacted
    ensures result == SanitizedEntries(r, v, |v.entries|)
    ensures redacted.paths == old(redacted.paths) + Reported(r, v, path, Children(v))
    decreases v, 0
  {
    result := [];
    ghost var start := redacted.paths;
    for i := 0 to |v.entries|
      invariant result == SanitizedEntries(r, v, i)
      invariant redacted.paths == start + Reported(r, v, path, i)
    {
      Sorting.Regroup(start, Reported(r, v, path, i), ReportedChild(r, v, path, i));
      var key, child, childPath := v.entries[i].0, Child(v, i), ChildPath(v, i, path);
      if r.sensitive(key) {
        result := Assign(result, key, Leaf(r.tokenize(child)));
        redacted.Append(childPath);
      } else {
        var walked := Walk(r, child, childPath, redacted);
        result := Assign(result, key, walked);
      }
    }
  }

  datatype RedactionResult = RedactionResult(payload: Value, redactedFields: seq<string>)

  method Redact(r: Redactor, payload: Value) returns (result: RedactionResult)
    requires payload.Mapping?
    ensures result.payload == Sanitized(r, payload)
    ensures result.redactedFields == Reported(r, payload, "", Children(payload))
  {
    var redactedFields := new FieldList();
    var sanitized := Walk(r, payload, "", redactedFields);
    return RedactionResult(sanitized, redactedFields.paths);
  }

  // ---------------------------------------------------------------- shape

  function Keys(entries: seq<(string, Value)>): set<string> {
    set e <- entries :: e.0
  }

  predicate KeysDistinctUpTo(entries: seq<(string, Value)>, n: nat)
    requires n <= |entries|
  {
    forall i, j :: 0 <= i < j < n ==> entries[i].0 != entries[j].0
  }

  lemma {:induction false} AssignKeys(entries: seq<(string, Value)>, key: string, v: Value)
    ensures Keys(Assign(entries, key, v)) == Keys(entries) + {key}
    ensures key !in Keys(entries) ==> Assign(entries, key, v) == entries + [(key, v)]
    ensures key in Keys(entries) ==> |Assign(entries, key, v)| == |entries|
  {
    if entries != [] {
      AssignKeys(entries[1..], key, v);
      assert Keys(entries) == {entries[0].0} + Keys(entries[1..]);
      var after := Assign(entries, key, v);
      assert Keys(after) == {after[0].0} + Keys(after[1..]);
    }
  }

  /** Among the first `n` keys, the last one is new. */
  predicate NewKey(entries: seq<(string, Value)>, n: nat)
    requires 0 < n <= |entries|
  {
    forall i :: 0 <= i < n - 1 ==> entries[i].0 != entries[n - 1].0
  }

  lemma FirstKeys(entries: seq<(string, Value)>, n: nat)
    requires 0 < n <= |entries|
    ensures Keys(entries[..n]) == Keys(entries[..n - 1]) + {entries[n - 1].0}
    ensures entries[n - 1].0 !in Keys(entries[..n - 1]) <==> NewKey(entries, n)
  {
    assert entries[..n] == entries[..n - 1] + [entries[n - 1]];
    forall i | 0 <= i < n - 1 ensures entries[i] in entries[..n - 1] {
      assert entries[..n - 1][i] == entries[i];
    }
  }

  /** `out` has the first `n` keys, and one entry for each exactly when they are distinct. */
  ghost predicate Covers(out: seq<(string, Value)>, entries: seq<(string, Value)>, n: nat)
    requires n <= |entries|
  {
    && Keys(out) == Keys(entries[..n]) && |out| <= n
    && (|out| == n <==> KeysDistinctUpTo(entries, n))
  }

  lemma OneMoreCovered(out: seq<(string, Value)>, entries: seq<(string, Value)>, n: nat, child: Value)
    requires 0 < n <= |entries| && Covers(out, entries, n - 1)
    ensures Covers(Assign(out, entries[n - 1].0, child), entries, n)
    ensures KeysDistinctUpTo(entries, n) ==>
              KeysDistinctUpTo(entries, n - 1)
              && Assign(out, entries[n - 1].0, child) == out + [(entries[n - 1].0, child)]
  {
    AssignKeys(out, entries[n - 1].0, child);
    FirstKeys(entries, n);
    assert KeysDistinctUpTo(entries, n) <==> KeysDistinctUpTo(entries, n - 1) && NewKey(entries, n);
  }

  /** The entries the first `n` entries turn into. */
  lemma {:induction false} EntriesInPlace(r: Redactor, v: Value, n: nat)
    requires v.Mapping? && n <= |v.entries|
    ensures Covers(SanitizedEntries(r, v, n), v.entries, n)
    ensures KeysDistinctUpTo(v.entries, n) ==>
              forall i :: 0 <= i < n ==> SanitizedEntries(r, v, n)[i] == (v.entries[i].0, SanitizedChild(r, v, i))
    decreases n
  {
    if n > 0 {
      EntriesInPlace(r, v, n - 1);
      OneMoreCovered(SanitizedEntries(r, v, n - 1), v.entries, n, SanitizedChild(r, v, n - 1));
    }
  }

  lemma {:induction false} ItemsInPlace(r: Redactor, v: Value, n: nat)
    requires v.Listing? && n <= |v.items|
    ensures forall i :: 0 <= i < n ==> SanitizedItems(r, v, n)[i] == SanitizedChild(r, v, i)
    decreases n
  {
    if n > 0 {
      ItemsInPlace(r, v, n - 1);
    }
  }

  /** A mapping keeps its number of entries exactly when its keys are distinct as they print. */
  lemma EntriesKeptIffDistinct(r: Redactor, v: Value)
    requires v.Mapping?
    ensures Children(Sanitized(r, v)) == Children(v) <==> KeysDistinctUpTo(v.entries, |v.entries|)
  {
    EntriesInPlace(r, v, |v.entries|);
  }

  /** With distinct keys a container keeps its kind and its keys, and each child is sanitized in place. */
  lemma ShapeKept(r: Redactor, v: Value)
    requires DistinctKeys(v)
    ensures var out := Sanitized(r, v);
            && out.Leaf? == v.Leaf? && out.Listing? == v.Listing? && Children(out) == Children(v)
            && (v.Leaf? ==> out == v)
            && (forall i :: 0 <= i < Children(v) ==> Child(out, i) == SanitizedChild(r, v, i))
            && (forall i :: 0 <= i < Children(v) ==> DistinctKeys(Child(v, i)))
            && (v.Mapping? ==> forall i :: 0 <= i < Children(v) ==> out.entries[i].0 == v.entries[i].0)
            && (forall i: nat :: Guarded(r, out, i) == Guarded(r, v, i))
  {
    if v.Mapping? {
      EntriesInPlace(r, v, |v.entries|);
    } else if v.Listing? {
      ItemsInPlace(r, v, |v.items|);
    }
  }

  // ---------------------------------------------------------------- what is kept and what is replaced

  /** What a position shows: its kind, its number of children, its keys or its leaf. */
  datatype Label = LeafLabel(text: string) | ListingLabel(n: nat) | MappingLabel(keys: seq<string>)

  function LabelOf(v: Value): Label {
    match v
    case Leaf(text) => LeafLabel(text)
    case Listing(items) => ListingLabel(|items|)
    case Mapping(entries) => MappingLabel(seq(|entries|, i requires 0 <= i < |entries| => entries[i].0))
  }

  /** A position with no sensitive key above it is kept with its leaf, or its kind and keys. */
  lemma {:induction false} VisibleKept(r: Redactor, v: Value, p: Position)
    requires DistinctKeys(v) && Exists(v, p) && !Hidden(r, v, p)
    ensures Exists(Sanitized(r, v), p)
    ensures LabelOf(At(Sanitized(r, v), p)) == LabelOf(At(v, p))
    decreases |p|
  {
    ShapeKept(r, v);
    if p != [] {
      VisibleKept(r, Child(v, p[0]), p[1..]);
    }
  }

  /** An outermost sensitive entry is replaced by the token of its value. */
  lemma {:induction false} SensitiveReplaced(r: Redactor, v: Value, p: Position)
    requires DistinctKeys(v) && Exists(v, p) && Outermost(r, v, p)
    ensures Exists(Sanitized(r, v), p)
    ensures At(Sanitized(r, v), p) == Leaf(r.tokenize(At(v, p)))
    decreases |p|
  {
    ShapeKept(r, v);
    if |p| > 1 {
      SensitiveReplaced(r, Child(v, p[0]), p[1..]);
    } else {
      assert At(v, p) == Child(v, p[0]);
    }
  }

  /** Nothing else is in the result: every position of it is a visible one or an outermost sensitive one. */
  lemma {:induction false} NothingElse(r: Redactor, v: Value, p: Position)
    requires DistinctKeys(v) && Exists(Sanitized(r, v), p)
    ensures Exists(v, p) && (!Hidden(r, v, p) || Outermost(r, v, p))
    decreases |p|
  {
    ShapeKept(r, v);
    if p != [] {
      if Guarded(r, v, p[0]) {
        assert Child(Sanitized(r, v), p[0]).Leaf?;
        assert p[1..] == [];
      } else {
        NothingElse(r, Child(v, p[0]), p[1..]);
      }
    }
  }

  /** Two payloads that differ only below sensitive keys, in values with the same token. */
  ghost predicate Alike(r: Redactor, v: Value, w: Value) {
    && LabelOf(v) == LabelOf(w)
    && (v.Mapping? ==> w.Mapping?)
    && Children(v) == Children(w)
    && forall i :: 0 <= i < Children(v) ==>
         if Guarded(r, v, i) then r.tokenize(Child(v, i)) == r.tokenize(Child(w, i))
         else Alike(r, Child(v, i), Child(w, i))
  }

  lemma LabelMeans(r: Redactor, v: Value, w: Value)
    requires LabelOf(v) == LabelOf(w)
    ensures Children(v) == Children(w)
    ensures v.Leaf? ==> v == w
    ensures v.Listing? == w.Listing? && v.Mapping? == w.Mapping?
    ensures forall i: nat :: Guarded(r, v, i) == Guarded(r, w, i)
    ensures v.Mapping? ==> forall i :: 0 <= i < |v.entries| ==> v.entries[i].0 == w.entries[i].0
  {
    if v.Mapping? {
      forall i | 0 <= i < |v.entries| ensures i < |w.entries| && v.entries[i].0 == w.entries[i].0 {
        assert LabelOf(v).keys[i] == LabelOf(w).keys[i];
      }
      assert |LabelOf(v).keys| == |LabelOf(w).keys|;
    }
  }

  lemma SameParts(v: Value, w: Value)
    requires LabelOf(v) == LabelOf(w) && Children(v) == Children(w)
    requires forall i :: 0 <= i < Children(v) ==> Child(v, i) == Child(w, i)
    ensures v == w
  {
    match v
    case Leaf(_) =>
    case Listing(items) => assert items == w.items by {
      forall i | 0 <= i < |items| ensures items[i] == w.items[i] {
        assert Child(v, i) == Child(w, i);
      }
    }
    case Mapping(entries) => assert entries == w.entries by {
      forall i | 0 <= i < |entries| ensures entries[i] == w.entries[i] {
        assert Child(v, i) == Child(w, i) && LabelOf(v).keys[i] == LabelOf(w).keys[i];
      }
    }
  }

  /** The redacted payload tells apart exactly the payloads that differ outside sensitive values or
      in a token: a sensitive value matters only through its token. */
  lemma {:induction false} RevealsOnlyTokens(r: Redactor, v: Value, w: Value)
    requires DistinctKeys(v) && DistinctKeys(w)
    ensures Sanitized(r, v) == Sanitized(r, w) <==> Alike(r, v, w)
    decreases v
  {
    ShapeKept(r, v);
    ShapeKept(r, w);
    LabelKept(r, v);
    LabelKept(r, w);
    if LabelOf(v) == LabelOf(w) {
      LabelMeans(r, v, w);
      forall i | 0 <= i < Children(v)
        ensures Child(Sanitized(r, v), i) == Child(Sanitized(r, w), i)
                <==> if Guarded(r, v, i) then r.tokenize(Child(v, i)) == r.tokenize(Child(w, i))
                     else Alike(r, Child(v, i), Child(w, i))
      {
        if !Guarded(r, v, i) {
          RevealsOnlyTokens(r, Child(v, i), Child(w, i));
        }
      }
      if Alike(r, v, w) {
        SameParts(Sanitized(r, v), Sanitized(r, w));
      }
    }
  }

  lemma LabelKept(r: Redactor, v: Value)
    requires DistinctKeys(v)
    ensures LabelOf(Sanitized(r, v)) == LabelOf(v)
  {
    ShapeKept(r, v);
  }

  // ---------------------------------------------------------------- redacting twice

  /** The sanitized payload has distinct keys again, and redacting it reports the same paths. */
  lemma {:induction false} SamePathsAgain(r: Redactor, v: Value, path: string, n: nat)
    requires DistinctKeys(v) && n <= Children(v)
    ensures DistinctKeys(Sanitized(r, v)) && Children(Sanitized(r, v)) == Children(v)
    ensures Reported(r, Sanitized(r, v), path, n) == Reported(r, v, path, n)
    decreases v, n
  {
    ShapeKept(r, v);
    var out := Sanitized(r, v);
    forall i | 0 <= i < Children(v) ensures DistinctKeys(Child(out, i)) {
      if !Guarded(r, v, i) {
        SamePathsAgain(r, Child(v, i), path, 0);
      }
    }
    assert DistinctKeys(out) by { DistinctFromChildren(v, out); }
    if n > 0 {
      SamePathsAgain(r, v, path, n - 1);
      var c := Child(v, n - 1);
      assert ChildPath(out, n - 1, path) == ChildPath(v, n - 1, path);
      if !Guarded(r, v, n - 1) {
        SamePathsAgain(r, c, ChildPath(v, n - 1, path), Children(c));
      }
    }
  }

  /** The redactor whose token is the token of the token. */
  function Twice(r: Redactor): Redactor {
    Redactor(r.sensitive, x => r.tokenize(Leaf(r.tokenize(x))))
  }

  /** Redacting twice is redacting once with the doubled token: nothing but tokens changes again. */
  lemma {:induction false} RedactedTwice(r: Redactor, v: Value)
    requires DistinctKeys(v)
    ensures Sanitized(r, Sanitized(r, v)) == Sanitized(Twice(r), v)
    decreases v
  {
    var out, twice := Sanitized(r, v), Twice(r);
    ShapeKept(r, v);
    ShapeKept(twice, v);
    SamePathsAgain(r, v, "", 0);
    ShapeKept(r, out);
    forall i | 0 <= i < Children(v)
      ensures Child(Sanitized(r, out), i) == Child(Sanitized(twice, v), i)
    {
      if !Guarded(r, v, i) {
        RedactedTwice(r, Child(v, i));
      }
    }
    LabelKept(r, v);
    LabelKept(r, out);
    LabelKept(twice, v);
    SameParts(Sanitized(r, out), Sanitized(twice, v));
  }

  lemma DistinctFromChildren(v: Value, out: Value)
    requires DistinctKeys(v) && LabelOf(out) == LabelOf(v) && Children(out) == Children(v)
    requires forall i :: 0 <= i < Children(v) ==> DistinctKeys(Child(out, i))
    ensures DistinctKeys(out)
  {
    match out
    case Leaf(_) =>
    case Listing(items) =>
      forall c <- items ensures DistinctKeys(c) {
        var i :| 0 <= i < |items| && items[i] == c;
        assert Child(out, i) == c;
      }
    case Mapping(entries) =>
      forall e <- entries ensures DistinctKeys(e.1) {
        var i :| 0 <= i < |entries| && entries[i] == e;
        assert Child(out, i) == e.1;
      }
      forall i, j | 0 <= i < j < |entries| ensures entries[i].0 != entries[j].0 {
        assert LabelOf(out).keys[i] == v.entries[i].0 && LabelOf(out).keys[j] == v.entries[j].0;
      }
  }

  // ---------------------------------------------------------------- which paths are reported

  /** The path text of a position. */
  function PathText(v: Value, p: Position, path: string): string
    requires Exists(v, p)
  {
    if p == [] then path else PathText(Child(v, p[0]), p[1..], ChildPath(v, p[0], path))
  }

  /** Document order: the first place where two positions differ decides. */
  predicate Before(p: Position, q: Position) {
    p != [] && q != [] && (p[0] < q[0] || (p[0] == q[0] && Before(p[1..], q[1..])))
  }

  ghost function Below(i: nat, ps: seq<Position>): seq<Position> {
    seq(|ps|, k requires 0 <= k < |ps| => [i] + ps[k])
  }

  /** The outermost sensitive positions among the first `n` children. */
  ghost function Positions(r: Redactor, v: Value, n: nat): seq<Position>
    requires n <= Children(v)
    decreases v, n
  {
    if n == 0 then [] else Positions(r, v, n - 1) + PositionsAt(r, v, n - 1)
  }

  ghost function PositionsAt(r: Redactor, v: Value, i: nat): seq<Position>
    requires i < Children(v)
    decreases v, i
  {
    if Guarded(r, v, i) then [[i]]
    else Below(i, Positions(r, Child(v, i), Children(Child(v, i))))
  }

  lemma {:induction false} PositionsExactly(r: Redactor, v: Value, n: nat, p: Position)
    requires n <= Children(v)
    ensures p in Positions(r, v, n) <==> Exists(v, p) && Outermost(r, v, p) && p[0] < n
    decreases v, n
  {
    if n > 0 {
      PositionsExactly(r, v, n - 1, p);
      PositionsAtExactly(r, v, n - 1, p);
    }
  }

  lemma SingletonPosition(r: Redactor, v: Value, i: nat, p: Position)
    requires i < Children(v) && Guarded(r, v, i)
    ensures p in [[i]] <==> Exists(v, p) && Outermost(r, v, p) && p[0] == i
  {
    assert p in [[i]] <==> p == [i];
    if |p| == 1 && p[0] == i {
      assert p == [i] && p[1..] == [];
      assert Exists(v, p);
    } else {
      assert p != [i];
      assert p != [] && p[0] == i && Exists(v, p) ==> !Outermost(r, v, p);
    }
  }

  lemma {:induction false} PositionsAtExactly(r: Redactor, v: Value, i: nat, p: Position)
    requires i < Children(v)
    ensures p in PositionsAt(r, v, i) <==> Exists(v, p) && Outermost(r, v, p) && p[0] == i
    decreases v, i
  {
    if Guarded(r, v, i) {
      assert PositionsAt(r, v, i) == [[i]];
      SingletonPosition(r, v, i, p);
    } else {
      var c := Child(v, i);
      var ps := Positions(r, c, Children(c));
      if p != [] && p[0] == i {
        PositionsExactly(r, c, Children(c), p[1..]);
        assert p == [i] + p[1..];
        if p[1..] in ps {
          var k :| 0 <= k < |ps| && ps[k] == p[1..];
          assert Below(i, ps)[k] == p;
        }
      }
      if p in Below(i, ps) {
        var k :| 0 <= k < |ps| && Below(i, ps)[k] == p;
        assert p[1..] == ps[k];
      }
    }
  }

  ghost predicate Ordered(ps: seq<Position>) {
    forall i, j :: 0 <= i < j < |ps| ==> Before(ps[i], ps[j])
  }

  lemma {:induction false} PositionsOrdered(r: Redactor, v: Value, n: nat)
    requires n <= Children(v)
    ensures Ordered(Positions(r, v, n))
    decreases v, n
  {
    if n > 0 {
      PositionsOrdered(r, v, n - 1);
      var ps, qs := Positions(r, v, n - 1), PositionsAt(r, v, n - 1);
      var c := Child(v, n - 1);
      if !Guarded(r, v, n - 1) {
        PositionsOrdered(r, c, Children(c));
        BelowOrdered(n - 1, Positions(r, c, Children(c)));
      }
      forall i, j | 0 <= i < |ps| && 0 <= j < |qs| ensures Before(ps[i], qs[j]) {
        PositionsExactly(r, v, n - 1, ps[i]);
        PositionsAtExactly(r, v, n - 1, qs[j]);
      }
    }
  }

  lemma BelowOrdered(i: nat, ps: seq<Position>)
    requires Ordered(ps)
    ensures Ordered(Below(i, ps))
  {
    forall j, k | 0 <= j < k < |ps| ensures Before(Below(i, ps)[j], Below(i, ps)[k]) {
      assert Below(i, ps)[j][1..] == ps[j] && Below(i, ps)[k][1..] == ps[k];
    }
  }

  /** Each reported path is that of the outermost sensitive entry with the same number. */
  ghost predicate PathsOf(v: Value, path: string, paths: seq<string>, ps: seq<Position>) {
    && |paths| == |ps|
    && forall k :: 0 <= k < |ps| ==> Exists(v, ps[k]) && paths[k] == PathText(v, ps[k], path)
  }

  /** What is reported: the paths of exactly the outermost sensitive entries, in document order. */
  ghost predicate ReportsPositions(r: Redactor, v: Value, path: string, paths: seq<string>, ps: seq<Position>) {
    && PathsOf(v, path, paths, ps) && Ordered(ps)
    && (forall p :: p in ps <==> Exists(v, p) && Outermost(r, v, p))
  }

  lemma PathsBelow(v: Value, path: string, i: nat, paths: seq<string>, ps: seq<Position>)
    requires i < Children(v) && PathsOf(Child(v, i), ChildPath(v, i, path), paths, ps)
    ensures PathsOf(v, path, paths, Below(i, ps))
  {
    forall k | 0 <= k < |ps|
      ensures Exists(v, Below(i, ps)[k]) && paths[k] == PathText(v, Below(i, ps)[k], path)
    {
      assert Below(i, ps)[k][1..] == ps[k];
    }
  }

  lemma {:induction false} ReportedPaths(r: Redactor, v: Value, path: string, n: nat)
    requires n <= Children(v)
    ensures PathsOf(v, path, Reported(r, v, path, n), Positions(r, v, n))
    decreases v, n
  {
    if n > 0 {
      ReportedPaths(r, v, path, n - 1);
      ReportedPathsAt(r, v, path, n - 1);
    }
  }

  lemma {:induction false} ReportedPathsAt(r: Redactor, v: Value, path: string, i: nat)
    requires i < Children(v)
    ensures PathsOf(v, path, ReportedChild(r, v, path, i), PositionsAt(r, v, i))
    decreases v, i
  {
    var c, at := Child(v, i), ChildPath(v, i, path);
    if Guarded(r, v, i) {
      assert [i][1..] == [];
      assert PathText(v, [i], path) == at;
    } else {
      ReportedPaths(r, c, at, Children(c));
      PathsBelow(v, path, i, Reported(r, c, at, Children(c)), Positions(r, c, Children(c)));
    }
  }

  /** Redaction reports exactly the outermost sensitive entries, each once, in document order. */
  lemma ReportedExactly(r: Redactor, v: Value, path: string)
    ensures ReportsPositions(
              r, v, path, Reported(r, v, path, Children(v)), Positions(r, v, Children(v)))
  {
    var ps := Positions(r, v, Children(v));
    ReportedPaths(r, v, path, Children(v));
    PositionsOrdered(r, v, Children(v));
    forall p ensures p in ps <==> Exists(v, p) && Outermost(r, v, p) {
      PositionsExactly(r, v, Children(v), p);
    }
  }

  /** The printed path does not always tell positions apart: a dot in a key reads like nesting. */
  lemma PathsCanCoincide(x: Value, y: Value) returns (r: Redactor, v: Value, p: Position, q: Position)
    ensures DistinctKeys(x) && DistinctKeys(y) ==> DistinctKeys(v)
    ensures Exists(v, p) && Exists(v, q) && p != q
    ensures Outermost(r, v, p) && Outermost(r, v, q)
    ensures PathText(v, p, "") == PathText(v, q, "")
  {
    r := Redactor((k: string) => k == "ssn" || k == "card.ssn", (v: Value) => "tok_");
    var inner := Mapping([("ssn", x)]);
    v := Mapping([("card", inner), ("card.ssn", y)]);
    p, q := [0, 0], [1];
    assert p[1..] == [0] && Child(v, 0) == inner;
    assert PathText(inner, [0], "card") == "card.ssn";
    assert DistinctKeys(x) ==> DistinctKeys(inner);
  }

  // ---------------------------------------------------------------- when paths tell positions apart

  /** All keys are nonempty words over the alphabet. */
  predicate KeyOver(alphabet: set<char>, key: string) {
    key != "" && forall i :: 0 <= i < |key| ==> key[i] in alphabet
  }

  predicate KeysOver(alphabet: set<char>, v: Value) {
    match v
    case Leaf(_) => true
    case Listing(items) => forall c <- items :: KeysOver(alphabet, c)
    case Mapping(entries) => forall e <- entries :: KeyOver(alphabet, e.0) && KeysOver(alphabet, e.1)
  }

  /** Two positions of a payload with such keys, distinct in each mapping, print one path. */
  predicate SamePath(alphabet: set<char>, v: Value, p: Position, q: Position) {
    && v.Mapping? && KeysOver(alphabet, v) && DistinctKeys(v) && Exists(v, p) && Exists(v, q)
    && PathText(v, p, "") == PathText(v, q, "")
  }

  /** In every payload with such keys, distinct in each mapping, different positions have different paths. */
  ghost predicate TellsApart(alphabet: set<char>) {
    forall v: Value, p: Position, q: Position ::
      SamePath(alphabet, v, p, q) ==> p == q
  }

  /** A key can neither contain the dot nor spell an index. */
  predicate Unambiguous(alphabet: set<char>) {
    '.' !in alphabet && !('[' in alphabet && ']' in alphabet && exists d :: 0 <= d < 10 && Digit(d) in alphabet)
  }

  function Index(i: nat): string {
    "[" + Decimal(i) + "]"
  }

  /** What follows a key in a path: nothing, another key after a dot, or an index. */
  ghost predicate Follows(s: string) {
    s == "" || s[0] == '.' || exists i: nat, rest: string :: s == Index(i) + rest
  }

  predicate Decimals(s: string) {
    forall k :: 0 <= k < |s| ==> exists d :: 0 <= d < 10 && s[k] == Digit(d)
  }

  lemma {:induction false} DecimalDigits(n: nat)
    ensures Decimals(Decimal(n)) && |Decimal(n)| >= 1 && (n >= 10 ==> |Decimal(n)| >= 2)
  {
    if n >= 10 {
      DecimalDigits(n / 10);
    }
  }

  lemma DigitMarks(d: nat)
    requires d < 10
    ensures Digit(d) != '.' && Digit(d) != '[' && Digit(d) != ']'
  {
  }

  lemma {:induction false} SameDecimal(m: nat, n: nat)
    requires Decimal(m) == Decimal(n)
    ensures m == n
  {
    DecimalDigits(m);
    DecimalDigits(n);
    if m >= 10 && n >= 10 {
      var a, b := Decimal(m / 10), Decimal(n / 10);
      assert (a + [Digit(m % 10)])[..|a|] == a && (b + [Digit(n % 10)])[..|b|] == b;
      assert |a| == |b|;
      SameDecimal(m / 10, n / 10);
      assert (a + [Digit(m % 10)])[|a|] == (b + [Digit(n % 10)])[|b|];
    }
  }

  /** Over an unambiguous alphabet no part of a key can be the start of what follows a key, unless nothing
      or something else follows that part. */
  lemma NoKeyContinues(alphabet: set<char>, x: string, s: string, t: string)
    requires Unambiguous(alphabet) && KeyOver(alphabet, x) && Follows(s) && Follows(t)
    ensures s != x + t
  {
    assert (x + t)[0] == x[0];
    if s != "" && s[0] != '.' {
      var i: nat, rest: string :| s == Index(i) + rest;
      NotInIndex(alphabet, x, i, rest, t);
    }
  }

  lemma NotInIndex(alphabet: set<char>, x: string, i: nat, rest: string, t: string)
    requires Unambiguous(alphabet) && KeyOver(alphabet, x) && Follows(t)
    ensures Index(i) + rest != x + t
  {
    var digits := Decimal(i);
    var s := "[" + digits + "]" + rest;
    assert Index(i) + rest == s;
    DecimalDigits(i);
    var d :| 0 <= d < 10 && digits[0] == Digit(d);
    DigitMarks(d);
    assert s[0] == '[' && s[1] == digits[0] && (x + t)[0] == x[0];
    if |x| == 1 {
      if t != "" {
        StartsRight(t);
        assert (x + t)[1] == t[0];
      }
    } else {
      assert (x + t)[1] == x[1];
      if x[0] == '[' && x[1] == digits[0] {
        InsideIndex(alphabet, x, digits, rest, t);
      }
    }
  }

  lemma StartsRight(t: string)
    requires Follows(t) && t != ""
    ensures t[0] == '.' || t[0] == '['
  {
  }

  /** A key without a closing bracket ends inside the index, and what follows it would start there. */
  lemma InsideIndex(alphabet: set<char>, x: string, digits: string, rest: string, t: string)
    requires KeyOver(alphabet, x) && ']' !in alphabet && Decimals(digits) && Follows(t) && |x| >= 1
    ensures x + t != "[" + digits + "]" + rest
  {
    var s := "[" + digits + "]" + rest;
    if |x| > |digits| + 1 {
      assert (x + t)[|digits| + 1] == x[|digits| + 1] && s[|digits| + 1] == ']';
    } else if t != "" {
      StartsRight(t);
      assert (x + t)[|x|] == t[0];
      if |x| <= |digits| {
        assert s[|x|] == digits[|x| - 1];
        var d :| 0 <= d < 10 && digits[|x| - 1] == Digit(d);
        DigitMarks(d);
      } else {
        assert s[|x|] == ']';
      }
    }
  }

  lemma SameKey(alphabet: set<char>, a: string, s: string, b: string, t: string)
    requires Unambiguous(alphabet) && KeyOver(alphabet, a) && KeyOver(alphabet, b) && Follows(s) && Follows(t)
    requires a + s == b + t
    ensures a == b && s == t
  {
    NotLonger(alphabet, a, s, b, t);
    NotLonger(alphabet, b, t, a, s);
    assert a == (a + s)[..|a|] && b == (b + t)[..|b|];
    assert s == (a + s)[|a|..] && t == (b + t)[|b|..];
  }

  lemma NotLonger(alphabet: set<char>, a: string, s: string, b: string, t: string)
    requires Unambiguous(alphabet) && KeyOver(alphabet, b) && Follows(s) && Follows(t)
    ensures |a| < |b| ==> a + s != b + t
  {
    if |a| < |b| {
      var x := b[|a|..];
      NoKeyContinues(alphabet, x, s, t);
      assert (a + s)[|a|..] == s && (b + t)[|a|..] == x + t;
    }
  }

  /** What a child adds to a path that is not empty. */
  function Part(v: Value, i: nat): string
    requires i < Children(v)
  {
    if v.Listing? then Index(i) else "." + v.entries[i].0
  }

  /** What a position adds to a path that is not empty. */
  function Tail(v: Value, p: Position): string
    requires Exists(v, p)
  {
    if p == [] then "" else Part(v, p[0]) + Tail(Child(v, p[0]), p[1..])
  }

  lemma TailFollows(v: Value, p: Position)
    requires Exists(v, p)
    ensures Follows(Tail(v, p)) && (p != [] ==> Tail(v, p) != "")
  {
  }

  lemma ChildKeys(alphabet: set<char>, v: Value, i: nat)
    requires KeysOver(alphabet, v) && DistinctKeys(v) && i < Children(v)
    ensures KeysOver(alphabet, Child(v, i)) && DistinctKeys(Child(v, i))
    ensures v.Mapping? ==> KeyOver(alphabet, v.entries[i].0)
  {
    if v.Listing? {
      assert v.items[i] in v.items;
    } else {
      assert v.entries[i] in v.entries;
    }
  }

  /** Two indexes with what follows them. */
  lemma SameIndex(i: nat, s: string, j: nat, t: string)
    requires Index(i) + s == Index(j) + t
    ensures i == j && s == t
  {
    var a, b := Index(i) + s, Index(j) + t;
    DecimalDigits(i);
    DecimalDigits(j);
    ShorterIndex(i, s, j, t);
    ShorterIndex(j, t, i, s);
    assert Decimal(i) == a[1..|Decimal(i)| + 1] && Decimal(j) == b[1..|Decimal(j)| + 1];
    SameDecimal(i, j);
    assert s == a[|Index(i)|..] && t == b[|Index(j)|..];
  }

  lemma ShorterIndex(i: nat, s: string, j: nat, t: string)
    ensures |Decimal(i)| < |Decimal(j)| ==> Index(i) + s != Index(j) + t
  {
    if |Decimal(i)| < |Decimal(j)| {
      var n := |Decimal(i)|;
      DecimalDigits(j);
      var d :| 0 <= d < 10 && Decimal(j)[n] == Digit(d);
      DigitMarks(d);
      assert (Index(i) + s)[n + 1] == ']' && (Index(j) + t)[n + 1] == Decimal(j)[n];
    }
  }

  lemma SameChild(alphabet: set<char>, v: Value, i: nat, s: string, j: nat, t: string)
    requires Unambiguous(alphabet) && KeysOver(alphabet, v) && DistinctKeys(v) && i < Children(v) && j < Children(v)
    requires Follows(s) && Follows(t)
    ensures v.Listing? && Index(i) + s == Index(j) + t ==> i == j && s == t
    ensures v.Mapping? && v.entries[i].0 + s == v.entries[j].0 + t ==> i == j && s == t
  {
    ChildKeys(alphabet, v, i);
    ChildKeys(alphabet, v, j);
    if v.Listing? && Index(i) + s == Index(j) + t {
      SameIndex(i, s, j, t);
    }
    if v.Mapping? && v.entries[i].0 + s == v.entries[j].0 + t {
      SameKey(alphabet, v.entries[i].0, s, v.entries[j].0, t);
    }
  }

  lemma TailStep(alphabet: set<char>, v: Value, p: Position, q: Position)
    requires Unambiguous(alphabet) && KeysOver(alphabet, v) && DistinctKeys(v)
    requires Exists(v, p) && Exists(v, q) && p != [] && q != [] && Tail(v, p) == Tail(v, q)
    ensures p[0] == q[0] && Tail(Child(v, p[0]), p[1..]) == Tail(Child(v, p[0]), q[1..])
  {
    var s, t := Tail(Child(v, p[0]), p[1..]), Tail(Child(v, q[0]), q[1..]);
    TailFollows(Child(v, p[0]), p[1..]);
    TailFollows(Child(v, q[0]), q[1..]);
    if v.Mapping? {
      DropDot(v.entries[p[0]].0, s);
      DropDot(v.entries[q[0]].0, t);
    }
    SameChild(alphabet, v, p[0], s, q[0], t);
  }

  lemma DropDot(key: string, s: string)
    ensures ("." + key + s)[1..] == key + s
  {
  }

  lemma {:induction false} SameTail(alphabet: set<char>, v: Value, p: Position, q: Position)
    requires Unambiguous(alphabet) && KeysOver(alphabet, v) && DistinctKeys(v)
    requires Exists(v, p) && Exists(v, q) && Tail(v, p) == Tail(v, q)
    ensures p == q
    decreases |p|
  {
    TailFollows(v, p);
    TailFollows(v, q);
    if p != [] && q != [] {
      TailStep(alphabet, v, p, q);
      ChildKeys(alphabet, v, p[0]);
      SameTail(alphabet, Child(v, p[0]), p[1..], q[1..]);
      assert p == [p[0]] + p[1..] && q == [q[0]] + q[1..];
    }
  }

  lemma ChildPathIsPart(v: Value, i: nat, path: string)
    requires i < Children(v) && path != ""
    ensures ChildPath(v, i, path) == path + Part(v, i)
  {
    if v.Listing? {
      assert path + "[" + Decimal(i) + "]" == path + ("[" + Decimal(i) + "]");
    } else {
      assert path + "." + v.entries[i].0 == path + ("." + v.entries[i].0);
    }
  }

  lemma {:induction false} PathIsTail(v: Value, p: Position, path: string)
    requires Exists(v, p) && path != ""
    ensures PathText(v, p, path) == path + Tail(v, p)
    decreases |p|
  {
    if p == [] {
      assert path + "" == path;
    } else {
      var rest := Tail(Child(v, p[0]), p[1..]);
      ChildPathIsPart(v, p[0], path);
      PathIsTail(Child(v, p[0]), p[1..], path + Part(v, p[0]));
      Sorting.Regroup(path, Part(v, p[0]), rest);
    }
  }

  lemma FromRoot(alphabet: set<char>, v: Value, p: Position)
    requires v.Mapping? && KeysOver(alphabet, v) && DistinctKeys(v) && Exists(v, p)
    ensures p == [] ==> PathText(v, p, "") == ""
    ensures p != [] ==> PathText(v, p, "") == v.entries[p[0]].0 + Tail(Child(v, p[0]), p[1..])
    ensures p != [] ==> PathText(v, p, "") != ""
  {
    if p != [] {
      ChildKeys(alphabet, v, p[0]);
      PathIsTail(Child(v, p[0]), p[1..], v.entries[p[0]].0);
    }
  }

  lemma UnambiguousTellsApart(alphabet: set<char>, v: Value, p: Position, q: Position)
    requires Unambiguous(alphabet) && SamePath(alphabet, v, p, q)
    ensures p == q
  {
    FromRoot(alphabet, v, p);
    FromRoot(alphabet, v, q);
    if p != [] && q != [] {
      var s, t := Tail(Child(v, p[0]), p[1..]), Tail(Child(v, q[0]), q[1..]);
      TailFollows(Child(v, p[0]), p[1..]);
      TailFollows(Child(v, q[0]), q[1..]);
      SameChild(alphabet, v, p[0], s, q[0], t);
      ChildKeys(alphabet, v, p[0]);
      SameTail(alphabet, Child(v, p[0]), p[1..], q[1..]);
      assert p == [p[0]] + p[1..] && q == [q[0]] + q[1..];
    }
  }

  /** A dot in a key reads like nesting. */
  lemma DotCollides(alphabet: set<char>)
    requires '.' in alphabet
    ensures !TellsApart(alphabet)
  {
    var inner := Mapping([(".", Leaf(""))]);
    var v := Mapping([(".", inner), ("...", Leaf(""))]);
    assert KeyOver(alphabet, ".") && KeyOver(alphabet, "...");
    var p: Position, q: Position := [0, 0], [1];
    assert p[1..] == [0] && q[1..] == [] && Child(v, 0) == inner && Exists(inner, [0]);
    assert ChildPath(v, 0, "") == "." && PathText(v, p, "") == PathText(inner, [0], ".") == "...";
    assert Child(v, 1) == Leaf("") && ChildPath(v, 1, "") == "...";
    assert PathText(v, q, "") == PathText(Leaf(""), [], "...");
    assert SamePath(alphabet, v, p, q);
  }

  /** An index in a key reads like a place in a list. */
  lemma IndexCollides(alphabet: set<char>, d: nat)
    requires d < 10 && '[' in alphabet && ']' in alphabet && Digit(d) in alphabet
    ensures !TellsApart(alphabet)
  {
    var inner := Listing(seq(d + 1, i => Leaf("")));
    var key := "[" + Index(d);
    var v := Mapping([("[", inner), (key, Leaf(""))]);
    assert Index(d) == ['[', Digit(d), ']'] && key == ['[', '[', Digit(d), ']'];
    assert KeyOver(alphabet, "[") && KeyOver(alphabet, key);
    var p: Position, q: Position := [0, d], [1];
    assert p[1..] == [d] && [d][1..] == [] && q[1..] == [] && Child(v, 0) == inner && Exists(inner, [d]);
    assert PathText(inner, [d], "[") == key;
    assert DistinctKeys(inner) && KeysOver(alphabet, inner);
    assert ChildPath(v, 0, "") == "[" && PathText(v, p, "") == PathText(inner, [d], "[");
    assert Child(v, 1) == Leaf("") && ChildPath(v, 1, "") == key && PathText(v, q, "") == PathText(Leaf(""), [], key);
    assert |key| != 1 && DistinctKeys(v) && KeysOver(alphabet, v);
    assert PathText(v, p, "") == key && PathText(v, q, "") == key;
    assert SamePath(alphabet, v, p, q);
  }

  /** Paths tell all positions of all payloads apart exactly over an alphabet of keys that neither has the dot
      nor can spell an index. */
  lemma TellsApartExactly(alphabet: set<char>)
    ensures TellsApart(alphabet) <==> Unambiguous(alphabet)
  {
    if '.' in alphabet {
      DotCollides(alphabet);
    } else if d :| 0 <= d < 10 && Digit(d) in alphabet && '[' in alphabet && ']' in alphabet {
      IndexCollides(alphabet, d);
    } else {
      forall v: Value, p: Position, q: Position | SamePath(alphabet, v, p, q) ensures p == q {
        UnambiguousTellsApart(alphabet, v, p, q);
      }
    }
  }

  /** The empty key reads like no nesting at all, whatever the other keys. */
  lemma EmptyKeyCollides(key: string, x: Value, y: Value)
    requires key != ""
    ensures var v := Mapping([("", Mapping([(key, x)])), (key, y)]);
            && Exists(v, [0, 0]) && Exists(v, [1])
            && PathText(v, [0, 0], "") == PathText(v, [1], "") == key
  {
    var inner := Mapping([(key, x)]);
    var v := Mapping([("", inner), (key, y)]);
    var p: Position := [0, 0];
    assert p[1..] == [0] && Child(v, 0) == inner;
    assert PathText(inner, [0], "") == key;
  }
}
