/** The transactions a graph store has kept, as plain values: deduplication by id and the
    window over which every graph question is asked (ml/graph/extract.py). */
module TransactionLog {
  import opened Wrappers

  /** Timestamps are microseconds; amounts are reals. */
  datatype Transaction = Transaction(
    id: string, cc: int, merchant: string, amount: real, timestamp: int, flagged: bool)

  const SECOND := 1_000_000
  const DAY := 86_400 * SECOND
  const CO_OCCURRENCE_WINDOW := 60 * SECOND

  // ---------------------------------------------------------------- deduplication

  type Index = map<string, Transaction>

  ghost predicate Keyed(index: Index) {
    forall id <- index :: index[id].id == id
  }

  /** The transactions held by an index. */
  function Kept(index: Index): set<Transaction> {
    set id <- index :: index[id]
  }

  function Record(index: Index, tx: Transaction): Index {
    if tx.id in index then index else index[tx.id := tx]
  }

  /** The index after observing `observed` in order. */
  function Replay(index: Index, observed: seq<Transaction>): Index
    decreases |observed|
  {
    if observed == [] then index else Replay(Record(index, observed[0]), observed[1..])
  }

  lemma RecordKept(index: Index, tx: Transaction)
    requires Keyed(index)
    ensures Keyed(Record(index, tx))
    ensures Kept(Record(index, tx)) == if tx.id in index then Kept(index) else Kept(index) + {tx}
    ensures tx.id !in index ==> forall t <- Kept(index) :: t.id != tx.id
  {
    if tx.id !in index {
      var after := index[tx.id := tx];
      forall t | t in Kept(index) + {tx} ensures t in Kept(after) {
        if t != tx {
          var id :| id in index && index[id] == t;
          assert after[id] == t;
        } else {
          assert after[tx.id] == tx;
        }
      }
    }
  }

  /** First write per id wins: an id is present exactly when it was observed, and it holds the
      first transaction observed under it (or what the index held before). */
  lemma {:induction false} FirstWriteWins(index: Index, observed: seq<Transaction>, id: string)
    ensures id in index ==> id in Replay(index, observed) && Replay(index, observed)[id] == index[id]
    ensures id !in index ==>
              (id in Replay(index, observed) <==>
               exists i :: 0 <= i < |observed| && observed[i].id == id)
    ensures id !in index ==>
              forall i :: 0 <= i < |observed| && observed[i].id == id
                          && (forall j :: 0 <= j < i ==> observed[j].id != id)
                          ==> id in Replay(index, observed) && Replay(index, observed)[id] == observed[i]
    decreases |observed|
  {
    if observed != [] {
      var rest := observed[1..];
      FirstWriteWins(Record(index, observed[0]), rest, id);
      if id !in index {
        if observed[0].id != id {
          assert forall i :: 0 <= i < |rest| ==> rest[i] == observed[i + 1];
          if i :| 0 <= i < |observed| && observed[i].id == id {
            assert rest[i - 1].id == id;
          }
          forall i | 0 <= i < |observed| && observed[i].id == id
                     && (forall j :: 0 <= j < i ==> observed[j].id != id)
            ensures id in Replay(index, observed) && Replay(index, observed)[id] == observed[i]
          {
            assert rest[i - 1].id == id;
            forall j | 0 <= j < i - 1 ensures rest[j].id != id {
              assert rest[j] == observed[j + 1];
            }
          }
        }
      }
    }
  }

  /** The log never gives one id two different contents. */
  ghost predicate Consistent(observed: seq<Transaction>) {
    forall i, j :: 0 <= i < |observed| && 0 <= j < |observed| && observed[i].id == observed[j].id
                   ==> observed[i] == observed[j]
  }

  /** Every reordering of the observations leaves the same index. */
  ghost predicate OrderFree(observed: seq<Transaction>) {
    forall other: seq<Transaction> :: multiset(other) == multiset(observed) ==>
      Replay(map[], other) == Replay(map[], observed)
  }

  /** Replaying a consistent log keeps exactly the transactions in it. */
  lemma ConsistentReplay(observed: seq<Transaction>)
    requires Consistent(observed)
    ensures Keyed(Replay(map[], observed))
    ensures forall t :: t in Kept(Replay(map[], observed)) <==> t in observed
  {
    var index := Replay(map[], observed);
    forall id | id in index
      ensures exists i :: 0 <= i < |observed| && observed[i].id == id && index[id] == observed[i]
    {
      FirstWriteWins(map[], observed, id);
      FirstIndex(observed, id);
    }
    forall t | t in observed ensures t in Kept(index) {
      FirstWriteWins(map[], observed, t.id);
      FirstIndex(observed, t.id);
    }
  }

  lemma {:induction false} FirstIndex(observed: seq<Transaction>, id: string)
    requires exists i :: 0 <= i < |observed| && observed[i].id == id
    ensures exists i :: 0 <= i < |observed| && observed[i].id == id
                        && forall j :: 0 <= j < i ==> observed[j].id != id
  {
    var i :| 0 <= i < |observed| && observed[i].id == id;
    if k :| 0 <= k < i && observed[k].id == id {
      FirstIndex(observed[..i], id);
      var f :| 0 <= f < i && observed[..i][f].id == id
               && forall j :: 0 <= j < f ==> observed[..i][j].id != id;
      forall j | 0 <= j < f ensures observed[j].id != id {
        assert observed[..i][j].id != id;
      }
    }
  }

  /** Observation order is irrelevant exactly when no id is reused for a different transaction. */
  lemma OrderFreeIffConsistent(observed: seq<Transaction>)
    ensures OrderFree(observed) <==> Consistent(observed)
  {
    if Consistent(observed) {
      forall other: seq<Transaction> | multiset(other) == multiset(observed)
        ensures Replay(map[], other) == Replay(map[], observed)
      {
        SameMembers(observed, other);
        assert Consistent(other) by {
          forall i, j | 0 <= i < |other| && 0 <= j < |other| && other[i].id == other[j].id
            ensures other[i] == other[j]
          {
            assert other[i] in observed && other[j] in observed;
          }
        }
        SameIndex(observed, other);
      }
    }
    if OrderFree(observed) {
      forall i, j | 0 <= i < |observed| && 0 <= j < |observed| && observed[i].id == observed[j].id
        ensures observed[i] == observed[j]
      {
        FrontedBy(observed, i);
        FrontedBy(observed, j);
      }
    }
  }

  lemma SameMembers(a: seq<Transaction>, b: seq<Transaction>)
    requires multiset(a) == multiset(b)
    ensures forall t :: t in a <==> t in b
  {
    forall t ensures t in a <==> t in b {
      assert t in a <==> t in multiset(a);
      assert t in b <==> t in multiset(b);
    }
  }

  lemma SameIndex(a: seq<Transaction>, b: seq<Transaction>)
    requires Consistent(a) && Consistent(b)
    requires forall t :: t in a <==> t in b
    ensures Replay(map[], a) == Replay(map[], b)
  {
    ConsistentReplay(a);
    ConsistentReplay(b);
    var m, n := Replay(map[], a), Replay(map[], b);
    forall id | id in m ensures id in n && n[id] == m[id] {
      assert m[id] in Kept(n);
    }
    forall id | id in n ensures id in m {
      assert n[id] in Kept(m);
    }
  }

  /** Moving observation `i` to the front makes it the one that is kept. */
  lemma FrontedBy(observed: seq<Transaction>, i: nat)
    requires OrderFree(observed) && i < |observed|
    ensures observed[i].id in Replay(map[], observed)
    ensures Replay(map[], observed)[observed[i].id] == observed[i]
  {
    var other := MoveToFront(observed, i);
    assert Replay(map[], other) == Replay(map[], observed);
    FirstWriteWins(map[], other, observed[i].id);
    assert other[0] == observed[i] && other[0].id == observed[i].id;
  }

  function MoveToFront<T>(s: seq<T>, i: nat): (r: seq<T>)
    requires i < |s|
    ensures |r| == |s| && r[0] == s[i]
    ensures multiset(r) == multiset(s)
  {
    assert s == s[..i] + [s[i]] + s[i + 1..];
    [s[i]] + s[..i] + s[i + 1..]
  }

  // ---------------------------------------------------------------- the logs a store can hold

  /** Some observations leave exactly this log. */
  ghost predicate Reachable(log: set<Transaction>) {
    exists observed: seq<Transaction> :: Kept(Replay(map[], observed)) == log
  }

  ghost predicate DistinctIds(log: set<Transaction>) {
    forall t <- log, u <- log :: t.id == u.id ==> t == u
  }

  /** Exactly the logs without a repeated id are what some observations leave. */
  lemma ReachableExactly(log: set<Transaction>)
    ensures Reachable(log) <==> DistinctIds(log)
  {
    if observed: seq<Transaction> :| Kept(Replay(map[], observed)) == log {
      ReplayKeyed(map[], observed);
    }
    if DistinctIds(log) {
      var observed := Listed(log);
      ConsistentReplay(observed);
      assert Kept(Replay(map[], observed)) == log;
    }
  }

  lemma {:induction false} ReplayKeyed(index: Index, observed: seq<Transaction>)
    requires Keyed(index)
    ensures Keyed(Replay(index, observed))
    decreases |observed|
  {
    if observed != [] {
      RecordKept(index, observed[0]);
      ReplayKeyed(Record(index, observed[0]), observed[1..]);
    }
  }

  lemma {:induction false} Listed(log: set<Transaction>) returns (observed: seq<Transaction>)
    requires DistinctIds(log)
    ensures forall t :: t in observed <==> t in log
    ensures Consistent(observed)
    decreases log
  {
    observed := [];
    if log != {} {
      var t :| t in log;
      observed := Listed(log - {t});
      observed := observed + [t];
      forall i, j | 0 <= i < |observed| && 0 <= j < |observed| && observed[i].id == observed[j].id
        ensures observed[i] == observed[j]
      {
        assert observed[i] in log && observed[j] in log;
      }
    }
  }

  // ---------------------------------------------------------------- windows

  lemma LatestExists(log: set<Transaction>)
    requires log != {}
    ensures exists t :: t in log && forall u :: u in log ==> u.timestamp <= t.timestamp
  {
    var t :| t in log;
    var rest := log - {t};
    if rest == {} {
      assert log == {t};
    } else {
      LatestExists(rest);
      var l :| l in rest && forall u :: u in rest ==> u.timestamp <= l.timestamp;
      var top := if l.timestamp >= t.timestamp then l else t;
      assert top in log && forall u :: u in log ==> u.timestamp <= top.timestamp;
    }
  }

  /** The latest timestamp over all customers' transactions. */
  function Latest(log: set<Transaction>): (latest: int)
    requires log != {}
    ensures (exists t :: t in log && t.timestamp == latest) && forall t <- log :: t.timestamp <= latest
  {
    LatestExists(log);
    var t0 :| t0 in log && forall u :: u in log ==> u.timestamp <= t0.timestamp;
    var stamps := set t <- log :: t.timestamp;
    assert t0.timestamp in stamps;
    var latest :| latest in stamps && forall u <- log :: u.timestamp <= latest;
    latest
  }

  /** Asking for a window of an empty log underflows the earliest representable time. */
  predicate Askable(log: set<Transaction>, window: Option<int>) {
    window.Some? ==> log != {}
  }

  function Cutoff(log: set<Transaction>, window: Option<int>): Option<int>
    requires Askable(log, window)
  {
    match window
    case None => None
    case Some(days) => Some(Latest(log) - days * DAY)
  }

  predicate Visible(t: Transaction, cutoff: Option<int>) {
    cutoff.None? || t.timestamp >= cutoff.value
  }

  function Scope(log: set<Transaction>, cutoff: Option<int>): set<Transaction> {
    set t <- log | Visible(t, cutoff)
  }

  /** The transactions a windowed question looks at. */
  function Window(log: set<Transaction>, window: Option<int>): set<Transaction>
    requires Askable(log, window)
  {
    Scope(log, Cutoff(log, window))
  }

  function Merchants(scope: set<Transaction>, cc: int): set<string> {
    set t <- scope | t.cc == cc :: t.merchant
  }

  function Customers(scope: set<Transaction>, merchant: string): set<int> {
    set t <- scope | t.merchant == merchant :: t.cc
  }

  // ---------------------------------------------------------------- the documented window

  function Own(log: set<Transaction>, cc: int): set<Transaction> {
    set t <- log | t.cc == cc
  }

  /** What the documentation describes: the days before the customer's own latest transaction. */
  function Documented(log: set<Transaction>, cc: int, days: int): set<Transaction>
    requires Own(log, cc) != {}
  {
    Scope(log, Some(Latest(Own(log, cc)) - days * DAY))
  }

  /** A transaction between the two cutoffs: documented to count, but left out. */
  predicate Dropped(log: set<Transaction>, cc: int, days: int, t: Transaction)
    requires Own(log, cc) != {} && log != {}
  {
    Latest(Own(log, cc)) - days * DAY <= t.timestamp < Latest(log) - days * DAY
  }

  lemma LatestOfPart(part: set<Transaction>, log: set<Transaction>)
    requires part != {} && part <= log
    ensures log != {} && Latest(part) <= Latest(log)
  {
    var t :| t in part && t.timestamp == Latest(part);
    assert t in log;
  }

  lemma ScopesDiffer(log: set<Transaction>, low: int, high: int)
    requires low <= high
    ensures Scope(log, Some(low)) == Scope(log, Some(high)) <==> !(exists t <- log :: low <= t.timestamp < high)
  {
    if t :| t in log && low <= t.timestamp < high {
      assert t in Scope(log, Some(low)) && t !in Scope(log, Some(high));
    }
  }

  /** The window is the documented one exactly when no transaction falls between the two cutoffs. */
  lemma WindowAsDocumentedExactly(log: set<Transaction>, cc: int, days: int)
    requires Own(log, cc) != {}
    ensures log != {}
    ensures Window(log, Some(days)) == Documented(log, cc, days) <==> !(exists t <- log :: Dropped(log, cc, days, t))
  {
    LatestOfPart(Own(log, cc), log);
    ScopesDiffer(log, Latest(Own(log, cc)) - days * DAY, Latest(log) - days * DAY);
  }

  lemma OwnVisible(log: set<Transaction>, cc: int, cutoff: int)
    requires Own(log, cc) != {}
    ensures Merchants(Scope(log, Some(cutoff)), cc) == {} <==> Latest(Own(log, cc)) < cutoff
  {
    var t :| t in Own(log, cc) && t.timestamp == Latest(Own(log, cc));
    if t.timestamp >= cutoff {
      assert t in Scope(log, Some(cutoff)) && t.merchant in Merchants(Scope(log, Some(cutoff)), cc);
    } else if m :| m in Merchants(Scope(log, Some(cutoff)), cc) {
      var u :| u in Scope(log, Some(cutoff)) && u.cc == cc && u.merchant == m;
      assert u in Own(log, cc);
    }
  }

  /** A customer is without merchants exactly when its latest transaction is before the common cutoff. */
  lemma WindowEmptyExactly(log: set<Transaction>, cc: int, days: int)
    requires Own(log, cc) != {}
    ensures log != {}
    ensures Merchants(Window(log, Some(days)), cc) == {} <==> Latest(Own(log, cc)) < Latest(log) - days * DAY
    ensures days >= 0 ==> Merchants(Documented(log, cc, days), cc) != {}
  {
    LatestOfPart(Own(log, cc), log);
    OwnVisible(log, cc, Latest(log) - days * DAY);
    OwnVisible(log, cc, Latest(Own(log, cc)) - days * DAY);
  }

  predicate FlaggedIn(log: set<Transaction>, cc: int) {
    exists t <- log :: t.cc == cc && t.flagged
  }

  // ---------------------------------------------------------------- sums over sets

  ghost function Volume(ts: set<Transaction>): real {
    if ts == {} then 0.0
    else
      var t :| t in ts;
      t.amount + Volume(ts - {t})
  }

  lemma {:induction false} VolumeWithout(ts: set<Transaction>, t: Transaction)
    requires t in ts
    ensures Volume(ts) == t.amount + Volume(ts - {t})
  {
    var c :| c in ts && Volume(ts) == c.amount + Volume(ts - {c});
    if c != t {
      VolumeWithout(ts - {c}, t);
      VolumeWithout(ts - {t}, c);
      assert ts - {c} - {t} == ts - {t} - {c};
    }
  }

  lemma {:induction false} VolumeUnion(a: set<Transaction>, b: set<Transaction>)
    requires a !! b
    ensures Volume(a + b) == Volume(a) + Volume(b)
  {
    if a == {} {
      assert a + b == b;
    } else {
      var t :| t in a;
      VolumeUnion(a - {t}, b);
      VolumeWithout(a, t);
      VolumeWithout(a + b, t);
      assert a + b - {t} == (a - {t}) + b;
    }
  }
}
