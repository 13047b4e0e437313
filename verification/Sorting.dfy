/** Python's stable `sorted(s, key=...)`. */
module Sorting {

  /** Put `x` behind everything whose key is not larger. */
  function Insert<T>(key: T -> real, s: seq<T>, x: T): seq<T>
    decreases |s|
  {
    if s == [] || key(s[|s| - 1]) <= key(x) then s + [x]
    else Insert(key, s[..|s| - 1], x) + [s[|s| - 1]]
  }

  function Sorted<T>(key: T -> real, s: seq<T>): seq<T>
    decreases |s|
  {
    if s == [] then [] else Insert(key, Sorted(key, s[..|s| - 1]), s[|s| - 1])
  }

  function Filter<T>(keep: T -> bool, s: seq<T>): seq<T>
    decreases |s|
  {
    if s == [] then []
    else Filter(keep, s[..|s| - 1]) + if keep(s[|s| - 1]) then [s[|s| - 1]] else []
  }

  ghost predicate Ascending<T>(key: T -> real, s: seq<T>) {
    forall i, j :: 0 <= i < j < |s| ==> key(s[i]) <= key(s[j])
  }

  // ---------------------------------------------------------------- insertion

  lemma {:induction false} InsertedMembers<T>(key: T -> real, s: seq<T>, x: T)
    ensures multiset(Insert(key, s, x)) == multiset(s) + multiset{x}
    ensures |Insert(key, s, x)| == |s| + 1
    decreases |s|
  {
    if s != [] && key(s[|s| - 1]) > key(x) {
      var n := |s| - 1;
      InsertedMembers(key, s[..n], x);
      assert s == s[..n] + [s[n]];
    }
  }

  lemma {:induction false} InsertedOrder<T>(key: T -> real, s: seq<T>, x: T, bound: real)
    requires Ascending(key, s)
    requires key(x) <= bound && forall i :: 0 <= i < |s| ==> key(s[i]) <= bound
    ensures Ascending(key, Insert(key, s, x))
    ensures forall i :: 0 <= i < |Insert(key, s, x)| ==> key(Insert(key, s, x)[i]) <= bound
    decreases |s|
  {
    if s != [] && key(s[|s| - 1]) > key(x) {
      var n := |s| - 1;
      InsertedOrder(key, s[..n], x, key(s[n]));
    }
  }

  lemma LargestKey<T>(key: T -> real, s: seq<T>, x: T) returns (bound: real)
    requires Ascending(key, s)
    ensures key(x) <= bound && forall i :: 0 <= i < |s| ==> key(s[i]) <= bound
  {
    bound := if s == [] || key(s[|s| - 1]) <= key(x) then key(x) else key(s[|s| - 1]);
  }

  // ---------------------------------------------------------------- what sorting is

  /** The result is in order and has the same members, each as often. */
  lemma {:induction false} SortedOrders<T>(key: T -> real, s: seq<T>)
    ensures Ascending(key, Sorted(key, s))
    ensures multiset(Sorted(key, s)) == multiset(s)
    ensures |Sorted(key, s)| == |s|
    decreases |s|
  {
    if s != [] {
      var n := |s| - 1;
      SortedOrders(key, s[..n]);
      var bound := LargestKey(key, Sorted(key, s[..n]), s[n]);
      InsertedOrder(key, Sorted(key, s[..n]), s[n], bound);
      InsertedMembers(key, Sorted(key, s[..n]), s[n]);
      assert s == s[..n] + [s[n]];
    }
  }

  lemma SortedMembers<T>(key: T -> real, s: seq<T>)
    ensures forall x :: x in Sorted(key, s) <==> x in s
  {
    SortedOrders(key, s);
    forall x
      ensures x in Sorted(key, s) <==> x in s
    {
      assert x in Sorted(key, s) <==> x in multiset(Sorted(key, s));
      assert x in s <==> x in multiset(s);
    }
  }

  lemma InsertSnoc<T>(key: T -> real, s: seq<T>, last: T, x: T)
    ensures Insert(key, s + [last], x)
            == if key(last) <= key(x) then s + [last] + [x] else Insert(key, s, x) + [last]
  {
    assert (s + [last])[..|s|] == s;
  }

  lemma SortedSnoc<T>(key: T -> real, s: seq<T>, last: T)
    ensures Sorted(key, s + [last]) == Insert(key, Sorted(key, s), last)
  {
    assert (s + [last])[..|s|] == s;
  }

  lemma FilterSnoc<T>(keep: T -> bool, s: seq<T>, last: T)
    ensures Filter(keep, s + [last]) == if keep(last) then Filter(keep, s) + [last] else Filter(keep, s)
  {
    assert (s + [last])[..|s|] == s;
    assert Filter(keep, s) + [] == Filter(keep, s);
  }

  lemma Unsnoc<T>(s: seq<T>)
    requires s != []
    ensures s == s[..|s| - 1] + [s[|s| - 1]]
  {
  }

  lemma InsertAtEnd<T>(key: T -> real, s: seq<T>, x: T)
    requires forall i :: 0 <= i < |s| ==> key(s[i]) <= key(x)
    ensures Insert(key, s, x) == s + [x]
  {
  }

  lemma {:induction false} FilterInserted<T>(key: T -> real, keep: T -> bool, s: seq<T>, x: T)
    requires Ascending(key, s)
    ensures Filter(keep, Insert(key, s, x))
            == if keep(x) then Insert(key, Filter(keep, s), x) else Filter(keep, s)
    decreases |s|
  {
    if s == [] || key(s[|s| - 1]) <= key(x) {
      FilterSnoc(keep, s, x);
      FilterBelow(key, keep, s, key(x));
      InsertAtEnd(key, Filter(keep, s), x);
    } else {
      var front, last := s[..|s| - 1], s[|s| - 1];
      Unsnoc(s);
      FilterInserted(key, keep, front, x);
      InsertSnoc(key, front, last, x);
      FilterSnoc(keep, Insert(key, front, x), last);
      FilterSnoc(keep, front, last);
      InsertSnoc(key, Filter(keep, front), last, x);
    }
  }

  lemma {:induction false} FilterBelow<T>(key: T -> real, keep: T -> bool, s: seq<T>, bound: real)
    requires forall i :: 0 <= i < |s| ==> key(s[i]) <= bound
    ensures forall i :: 0 <= i < |Filter(keep, s)| ==> key(Filter(keep, s)[i]) <= bound
    decreases |s|
  {
    if s != [] {
      FilterBelow(key, keep, s[..|s| - 1], bound);
    }
  }

  /** Leaving members out before or after sorting is the same: sorting is stable, and no member's place
      depends on members left out. */
  lemma {:induction false} FilterSorted<T>(key: T -> real, keep: T -> bool, s: seq<T>)
    ensures Filter(keep, Sorted(key, s)) == Sorted(key, Filter(keep, s))
    decreases |s|
  {
    if s != [] {
      var front, last := s[..|s| - 1], s[|s| - 1];
      Unsnoc(s);
      FilterSorted(key, keep, front);
      SortedOrders(key, front);
      SortedSnoc(key, front, last);
      FilterInserted(key, keep, Sorted(key, front), last);
      FilterSnoc(keep, front, last);
      SortedSnoc(key, Filter(keep, front), last);
    }
  }

  /** A sequence already in order stays as it is. */
  lemma {:induction false} AlreadySorted<T>(key: T -> real, s: seq<T>)
    requires Ascending(key, s)
    ensures Sorted(key, s) == s
    decreases |s|
  {
    if s != [] {
      var n := |s| - 1;
      AlreadySorted(key, s[..n]);
      InsertAtEnd(key, s[..n], s[n]);
      Unsnoc(s);
    }
  }

  function WithKey<T>(key: T -> real, k: real): T -> bool {
    (x: T) => key(x) == k
  }

  /** Members with equal keys keep their order: stability on its own. */
  lemma EqualKeysKeepOrder<T>(key: T -> real, s: seq<T>, k: real)
    ensures Filter(WithKey(key, k), Sorted(key, s)) == Filter(WithKey(key, k), s)
  {
    var same := WithKey(key, k);
    FilterSorted(key, same, s);
    FilterKeeps(same, s);
    AlreadySorted(key, Filter(same, s));
  }

  lemma {:induction false} FilterKeeps<T>(keep: T -> bool, s: seq<T>)
    ensures forall i :: 0 <= i < |Filter(keep, s)| ==> keep(Filter(keep, s)[i])
    ensures forall x :: x in Filter(keep, s) <==> x in s && keep(x)
    decreases |s|
  {
    if s != [] {
      var n := |s| - 1;
      FilterKeeps(keep, s[..n]);
      assert s == s[..n] + [s[n]];
    }
  }

  lemma {:induction false} FilterConcat<T>(keep: T -> bool, a: seq<T>, b: seq<T>)
    ensures Filter(keep, a + b) == Filter(keep, a) + Filter(keep, b)
    decreases |b|
  {
    if b == [] {
      assert a + b == a;
    } else {
      var front, last := b[..|b| - 1], b[|b| - 1];
      Unsnoc(b);
      FilterConcat(keep, a, front);
      Regroup(a, front, [last]);
      FilterSnoc(keep, a + front, last);
      FilterSnoc(keep, front, last);
      Regroup(Filter(keep, a), Filter(keep, front), [last]);
    }
  }

  lemma Regroup<T>(a: seq<T>, b: seq<T>, c: seq<T>)
    ensures (a + b) + c == a + (b + c)
  {
  }
}
