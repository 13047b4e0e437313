/** The in-memory graph store: five dictionaries updated in place by `Observe`, and the loops
    that read them (ml/graph/extract.py). */
module GraphStore {
  import opened Rounding
  import opened Wrappers
  import opened TransactionLog
  import opened CommunitySearch
  import opened GraphFeatures

  // ---------------------------------------------------------------- projections of the log

  /** An entry of a merchant's event list. */
  datatype Event = Event(timestamp: int, cc: int, id: string)

  function EventOf(t: Transaction): Event {
    Event(t.timestamp, t.cc, t.id)
  }

  function Get<K, V>(m: map<K, V>, k: K, default: V): V {
    if k in m then m[k] else default
  }

  ghost predicate MerchantsByCustomer(index: map<int, set<string>>, log: set<Transaction>) {
    forall c :: Get(index, c, {}) == Merchants(log, c) && (c in index <==> Merchants(log, c) != {})
  }

  ghost predicate CustomersByMerchant(index: map<string, set<int>>, log: set<Transaction>) {
    forall m :: Get(index, m, {}) == Customers(log, m) && (m in index <==> Customers(log, m) != {})
  }

  ghost predicate Distinct<T>(s: seq<T>) {
    forall i, j :: 0 <= i < j < |s| ==> s[i] != s[j]
  }

  /** A merchant's event list holds each kept transaction at that merchant exactly once. */
  ghost predicate Lists(events: seq<Event>, log: set<Transaction>, merchant: string) {
    && Distinct(events)
    && (forall t <- log :: t.merchant == merchant ==> EventOf(t) in events)
    && (forall e <- events :: exists t <- log :: t.merchant == merchant && EventOf(t) == e)
  }

  ghost predicate EventsByMerchant(index: map<string, seq<Event>>, log: set<Transaction>) {
    forall m :: Lists(Get(index, m, []), log, m)
  }

  ghost function FlaggedBy(log: set<Transaction>, cc: int): set<Transaction> {
    set t <- log | t.cc == cc && t.flagged
  }

  ghost predicate FlagsByCustomer(index: map<int, nat>, log: set<Transaction>) {
    forall c :: Get(index, c, 0) == |FlaggedBy(log, c)|
  }

  // One transaction more, dictionary by dictionary.

  function WithMerchant(index: map<int, set<string>>, tx: Transaction): map<int, set<string>> {
    index[tx.cc := Get(index, tx.cc, {}) + {tx.merchant}]
  }

  function WithCustomer(index: map<string, set<int>>, tx: Transaction): map<string, set<int>> {
    index[tx.merchant := Get(index, tx.merchant, {}) + {tx.cc}]
  }

  function WithEvent(index: map<string, seq<Event>>, tx: Transaction): map<string, seq<Event>> {
    index[tx.merchant := Get(index, tx.merchant, []) + [EventOf(tx)]]
  }

  function WithFlag(index: map<int, nat>, tx: Transaction): map<int, nat> {
    if tx.flagged then index[tx.cc := Get(index, tx.cc, 0) + 1] else index
  }

  lemma AddMerchant(index: map<int, set<string>>, log: set<Transaction>, tx: Transaction)
    requires MerchantsByCustomer(index, log)
    ensures MerchantsByCustomer(WithMerchant(index, tx), log + {tx})
  {
    forall c ensures Merchants(log + {tx}, c) == Merchants(log, c) + if c == tx.cc then {tx.merchant} else {} {
    }
  }

  lemma AddCustomer(index: map<string, set<int>>, log: set<Transaction>, tx: Transaction)
    requires CustomersByMerchant(index, log)
    ensures CustomersByMerchant(WithCustomer(index, tx), log + {tx})
  {
    forall m ensures Customers(log + {tx}, m) == Customers(log, m) + if m == tx.merchant then {tx.cc} else {} {
    }
  }

  lemma AddEvent(index: map<string, seq<Event>>, log: set<Transaction>, tx: Transaction)
    requires EventsByMerchant(index, log)
    requires forall t <- log :: t.id != tx.id
    ensures EventsByMerchant(WithEvent(index, tx), log + {tx})
  {
    var after := WithEvent(index, tx);
    forall m ensures Lists(Get(after, m, []), log + {tx}, m) {
      assert Lists(Get(index, m, []), log, m);
      assert EventOf(tx) !in Get(index, m, []);
    }
  }

  lemma AddFlag(index: map<int, nat>, log: set<Transaction>, tx: Transaction)
    requires FlagsByCustomer(index, log) && tx !in log
    ensures FlagsByCustomer(WithFlag(index, tx), log + {tx})
  {
    forall c ensures Get(WithFlag(index, tx), c, 0) == |FlaggedBy(log + {tx}, c)| {
      assert Get(index, c, 0) == |FlaggedBy(log, c)|;
      FlaggedSplit(log, tx, c);
    }
  }

  lemma FlaggedSplit(log: set<Transaction>, tx: Transaction, c: int)
    requires tx !in log
    ensures |FlaggedBy(log + {tx}, c)| == |FlaggedBy(log, c)| + if c == tx.cc && tx.flagged then 1 else 0
  {
    if c == tx.cc && tx.flagged {
      assert FlaggedBy(log + {tx}, c) == FlaggedBy(log, c) + {tx};
    } else {
      assert FlaggedBy(log + {tx}, c) == FlaggedBy(log, c);
    }
  }

  ghost predicate Projections(
    ms: map<int, set<string>>, cs: map<string, set<int>>, es: map<string, seq<Event>>, fs: map<int, nat>,
    log: set<Transaction>)
  {
    && MerchantsByCustomer(ms, log)
    && CustomersByMerchant(cs, log)
    && EventsByMerchant(es, log)
    && FlagsByCustomer(fs, log)
  }

  /** The four index updates of one observation keep every projection. */
  lemma AddTransaction(
      ms: map<int, set<string>>, cs: map<string, set<int>>, es: map<string, seq<Event>>, fs: map<int, nat>,
      log: set<Transaction>, tx: Transaction)
    requires Projections(ms, cs, es, fs, log)
    requires forall t <- log :: t.id != tx.id
    ensures Projections(
              WithMerchant(ms, tx), WithCustomer(cs, tx), WithEvent(es, tx), WithFlag(fs, tx),
              log + {tx})
  {
    AddMerchant(ms, log, tx);
    AddCustomer(cs, log, tx);
    AddEvent(es, log, tx);
    AddFlag(fs, log, tx);
  }

  /** One observation, on all five dictionaries at once. */
  lemma AddObservation(
      index: Index, ms: map<int, set<string>>, cs: map<string, set<int>>, es: map<string, seq<Event>>,
      fs: map<int, nat>, tx: Transaction)
    requires Keyed(index) && Projections(ms, cs, es, fs, Kept(index)) && tx.id !in index
    ensures Keyed(index[tx.id := tx])
    ensures Projections(
              WithMerchant(ms, tx), WithCustomer(cs, tx), WithEvent(es, tx), WithFlag(fs, tx),
              Kept(index[tx.id := tx]))
  {
    RecordKept(index, tx);
    AddTransaction(ms, cs, es, fs, Kept(index), tx);
    assert Record(index, tx) == index[tx.id := tx];
  }

  lemma FlagCount(index: map<int, nat>, log: set<Transaction>, cc: int)
    requires FlagsByCustomer(index, log)
    ensures Get(index, cc, 0) >= 1 <==> FlaggedIn(log, cc)
  {
    assert Get(index, cc, 0) == |FlaggedBy(log, cc)|;
    if FlaggedIn(log, cc) {
      var t :| t in log && t.cc == cc && t.flagged;
      assert t in FlaggedBy(log, cc);
    } else {
      assert FlaggedBy(log, cc) == {};
    }
  }

  ghost function Edge(scope: set<Transaction>, cc: int, merchant: string): set<Transaction> {
    set t <- scope | t.cc == cc && t.merchant == merchant
  }

  // ---------------------------------------------------------------- co-occurrence at one merchant

  predicate Admits(cutoff: Option<int>, e: Event) {
    cutoff.None? || e.timestamp >= cutoff.value
  }

  predicate OwnNear(events: seq<Event>, cc: int, cutoff: Option<int>, timestamp: int) {
    exists own <- events :: own.cc == cc && Admits(cutoff, own) && Near(own.timestamp, timestamp)
  }

  predicate PeerHit(events: seq<Event>, cc: int, cutoff: Option<int>, e: Event) {
    e.cc != cc && Admits(cutoff, e) && OwnNear(events, cc, cutoff, e.timestamp)
  }

  /** The peer events to be counted among the first `n`. */
  ghost function PeerEvents(events: seq<Event>, n: nat, cc: int, cutoff: Option<int>): set<Event>
    requires n <= |events|
  {
    if n == 0 then {}
    else
      PeerEvents(events, n - 1, cc, cutoff)
      + if PeerHit(events, cc, cutoff, events[n - 1]) then {events[n - 1]} else {}
  }

  lemma {:induction false} PeerEventsMembers(events: seq<Event>, n: nat, cc: int, cutoff: Option<int>, e: Event)
    requires n <= |events|
    ensures e in PeerEvents(events, n, cc, cutoff)
            <==> PeerHit(events, cc, cutoff, e) && exists i :: 0 <= i < n && events[i] == e
    decreases n
  {
    if n > 0 {
      PeerEventsMembers(events, n - 1, cc, cutoff, e);
    }
  }

  lemma PeerEventsStep(events: seq<Event>, i: nat, cc: int, cutoff: Option<int>)
    requires i < |events|
    requires Distinct(events)
    ensures |PeerEvents(events, i + 1, cc, cutoff)|
            == |PeerEvents(events, i, cc, cutoff)| + if PeerHit(events, cc, cutoff, events[i]) then 1 else 0
  {
    PeerEventsMembers(events, i, cc, cutoff, events[i]);
  }

  /** The innermost loop, left at the first close own event. */
  method FindOwnNear(events: seq<Event>, cc: int, cutoff: Option<int>, timestamp: int) returns (found: bool)
    ensures found <==> OwnNear(events, cc, cutoff, timestamp)
  {
    found := false;
    for j := 0 to |events|
      invariant !found
      invariant forall k :: 0 <= k < j ==>
        !(events[k].cc == cc && Admits(cutoff, events[k]) && Near(events[k].timestamp, timestamp))
    {
      if events[j].cc != cc || !Admits(cutoff, events[j]) {
        continue;
      }
      if Near(events[j].timestamp, timestamp) {
        return true;
      }
    }
  }

  /** The loop over one merchant's events: each peer event is counted at most once. */
  method CountPeerEvents(events: seq<Event>, cc: int, cutoff: Option<int>) returns (count: nat)
    requires Distinct(events)
    ensures count == |PeerEvents(events, |events|, cc, cutoff)|
  {
    count := 0;
    for i := 0 to |events|
      invariant count == |PeerEvents(events, i, cc, cutoff)|
    {
      PeerEventsStep(events, i, cc, cutoff);
      if events[i].cc == cc || !Admits(cutoff, events[i]) {
        continue;
      }
      var found := FindOwnNear(events, cc, cutoff, events[i].timestamp);
      if found {
        count := count + 1;
      }
    }
  }

  lemma {:induction false} SameSize(ts: set<Transaction>, es: set<Event>)
    requires forall t <- ts :: EventOf(t) in es
    requires forall e <- es :: exists t <- ts :: EventOf(t) == e
    requires forall t <- ts, u <- ts :: t.id == u.id ==> t == u
    ensures |ts| == |es|
  {
    if ts == {} {
      assert es == {};
    } else {
      var t :| t in ts;
      forall u <- ts - {t} ensures EventOf(u) in es - {EventOf(t)} {
        assert u.id != t.id;
      }
      SameSize(ts - {t}, es - {EventOf(t)});
    }
  }

  /** A co-occurring transaction's event is counted. */
  lemma EventCounted(events: seq<Event>, log: set<Transaction>, cc: int, cutoff: Option<int>, t: Transaction)
    requires Lists(events, log, t.merchant)
    requires t in CoOccurring(Scope(log, cutoff), cc, {t.merchant})
    ensures EventOf(t) in PeerEvents(events, |events|, cc, cutoff)
  {
    var scope := Scope(log, cutoff);
    assert CoOccurs(scope, cc, {t.merchant}, t);
    var own :| own in scope && own.cc == cc && own.merchant == t.merchant && Near(own.timestamp, t.timestamp);
    assert EventOf(own) in events && EventOf(t) in events;
    assert EventOf(own).cc == cc && Admits(cutoff, EventOf(own));
    PeerEventsMembers(events, |events|, cc, cutoff, EventOf(t));
  }

  /** A counted event belongs to a co-occurring transaction. */
  lemma CountedEvent(events: seq<Event>, log: set<Transaction>, cc: int, cutoff: Option<int>, m: string, e: Event)
    requires Lists(events, log, m)
    requires e in PeerEvents(events, |events|, cc, cutoff)
    ensures exists t <- CoOccurring(Scope(log, cutoff), cc, {m}) :: EventOf(t) == e
  {
    var scope := Scope(log, cutoff);
    PeerEventsMembers(events, |events|, cc, cutoff, e);
    assert e in events;
    var t :| t in log && t.merchant == m && EventOf(t) == e;
    var o :| o in events && o.cc == cc && Admits(cutoff, o) && Near(o.timestamp, e.timestamp);
    var own :| own in log && own.merchant == m && EventOf(own) == o;
    assert own in scope && t in scope;
    assert CoOccurs(scope, cc, {m}, t);
  }

  /** Counting a merchant's events counts the co-occurring transactions there. */
  lemma CountedTransactions(
      events: seq<Event>, log: set<Transaction>, cc: int, cutoff: Option<int>, m: string)
    requires Lists(events, log, m)
    requires forall t <- log, u <- log :: t.id == u.id ==> t == u
    ensures |PeerEvents(events, |events|, cc, cutoff)| == |CoOccurring(Scope(log, cutoff), cc, {m})|
  {
    var ts := CoOccurring(Scope(log, cutoff), cc, {m});
    var es := PeerEvents(events, |events|, cc, cutoff);
    forall t <- ts ensures EventOf(t) in es {
      EventCounted(events, log, cc, cutoff, t);
    }
    forall e <- es ensures exists t <- ts :: EventOf(t) == e {
      CountedEvent(events, log, cc, cutoff, m, e);
    }
    SameSize(ts, es);
  }

  lemma CoOccurringSplit(scope: set<Transaction>, cc: int, done: set<string>, m: string)
    requires m !in done
    ensures |CoOccurring(scope, cc, done + {m})| == |CoOccurring(scope, cc, done)| + |CoOccurring(scope, cc, {m})|
  {
    assert CoOccurring(scope, cc, done + {m}) == CoOccurring(scope, cc, done) + CoOccurring(scope, cc, {m});
    assert CoOccurring(scope, cc, done) !! CoOccurring(scope, cc, {m});
  }

  // ---------------------------------------------------------------- steps of the search

  /** Moving one element of a set from the part left to the part done. */
  lemma Advance<T>(all: set<T>, left: set<T>, x: T)
    requires x in left && left <= all
    ensures x !in all - left && (all - left) + {x} == all - (left - {x}) && left - {x} <= all
    ensures |left - {x}| < |left|
  {
  }

  /** Any element, as iterating over a set yields one. */
  method Choose<T(==)>(s: set<T>) returns (x: T)
    requires s != {}
    ensures x in s
  {
    x :| x in s;
  }

  lemma CrowdSplit(scope: set<Transaction>, done: set<string>, m: string)
    ensures Crowd(scope, done + {m}) == Crowd(scope, done) + Customers(scope, m)
  {
  }

  lemma CrowdIsNeighbours(scope: set<Transaction>, cust: int)
    ensures Crowd(scope, Merchants(scope, cust)) == Neighbours(scope, {cust})
  {
    assert Merchants(scope, cust) == MerchantsOf(scope, {cust});
  }

  /** In the middle of a layer: `left` is still to be looked at, `added` was first seen here. */
  ghost predicate Visiting(
    scope: set<Transaction>, was: set<int>, frontier: set<int>, left: set<int>,
    seen: set<int>, added: set<int>, nxt: set<int>)
  {
    && left <= frontier <= seen + left && seen <= was + frontier && seen == was + added
    && nxt <= Neighbours(scope, seen) && Neighbours(scope, added) <= seen + nxt
    && (seen == was ==> nxt == {})
  }

  /** Visiting `cust`: its unseen neighbours are now in the next layer. */
  lemma Visit(
      scope: set<Transaction>, was: set<int>, frontier: set<int>, left: set<int>,
      seen: set<int>, added: set<int>, nxt0: set<int>, cust: int, nxt: set<int>)
    requires Visiting(scope, was, frontier, left, seen, added, nxt0) && cust in left
    requires cust !in seen ==> nxt == nxt0 + (Neighbours(scope, {cust}) - ({cust} + (seen + {cust})))
    ensures cust in seen ==> Visiting(scope, was, frontier, left - {cust}, seen, added, nxt0)
    ensures cust !in seen ==> Visiting(scope, was, frontier, left - {cust}, seen + {cust}, added + {cust}, nxt)
  {
    NeighboursSplit(scope, added, cust);
    NeighboursSplit(scope, seen, cust);
  }

  lemma NeighboursSplit(scope: set<Transaction>, from: set<int>, cust: int)
    ensures Neighbours(scope, from + {cust}) == Neighbours(scope, from) + Neighbours(scope, {cust})
  {
  }

  /** Where the search stands before layer `n`: the layers before it are seen, and `frontier` adds
      the rest of the ball; the result is still the one the search started for. */
  ghost predicate Searching(scope: set<Transaction>, cc: int, n: nat, seen: set<int>, frontier: set<int>) {
    && seen + frontier == Ball(scope, cc, n)
    && (if n == 0 then seen == {} else seen == Ball(scope, cc, n - 1) && |seen| <= COMMUNITY_MAX_NODES)
    && Community(scope, cc) == SearchFrom(scope, cc, n)
  }

  ghost function Unseen(scope: set<Transaction>, cc: int, seen: set<int>): nat {
    |Everyone(scope, cc) - seen|
  }

  /** One layer of the search: either the cap is passed and the layers so far are the result, or the
      search goes on with fewer unseen customers, or with none and an empty next layer. */
  ghost predicate Layered(
    scope: set<Transaction>, cc: int, n: nat, was: set<int>, seen: set<int>, nxt: set<int>)
  {
    && (if |seen| > COMMUNITY_MAX_NODES then Community(scope, cc) == seen else Searching(scope, cc, n + 1, seen, nxt))
    && (Unseen(scope, cc, seen) < Unseen(scope, cc, was) || (seen == was && nxt == {}))
  }

  /** A visited layer ends in one of these ways. */
  lemma LayerDone(
      scope: set<Transaction>, cc: int, n: nat, was: set<int>, frontier: set<int>,
      seen: set<int>, added: set<int>, nxt: set<int>)
    requires Searching(scope, cc, n, was, frontier)
    requires seen == was + frontier == was + added
    requires nxt <= Neighbours(scope, seen) && Neighbours(scope, added) <= seen + nxt
    requires seen == was ==> nxt == {}
    ensures Layered(scope, cc, n, was, seen, nxt)
  {
    NextBall(scope, cc, n, was, seen, added, nxt);
    BallBounded(scope, cc, n);
    FewerUnseen(Everyone(scope, cc), was, seen);
  }

  lemma FewerUnseen<T>(all: set<T>, was: set<T>, seen: set<T>)
    requires was <= seen <= all
    ensures |all - seen| <= |all - was|
    ensures seen != was ==> |all - seen| < |all - was|
  {
    SubsetSize(was, seen);
    assert all == seen + (all - seen) && all == was + (all - was);
  }

  lemma NextBall(
      scope: set<Transaction>, cc: int, n: nat, was: set<int>, seen: set<int>, added: set<int>, nxt: set<int>)
    requires seen == Ball(scope, cc, n) == was + added
    requires if n == 0 then was == {} else was == Ball(scope, cc, n - 1)
    requires nxt <= Neighbours(scope, seen) && Neighbours(scope, added) <= seen + nxt
    ensures seen + nxt == Ball(scope, cc, n + 1)
    ensures |seen| > COMMUNITY_MAX_NODES ==> SearchFrom(scope, cc, n) == seen
    ensures |seen| <= COMMUNITY_MAX_NODES ==> SearchFrom(scope, cc, n) == SearchFrom(scope, cc, n + 1)
  {
  }

  lemma JoinOutside<T>(base: set<T>, a: set<T>, b: set<T>, out: set<T>)
    ensures base + (a - out) + (b - out) == base + (a + b - out)
  {
  }

  lemma SearchStarts(scope: set<Transaction>, cc: int)
    ensures Searching(scope, cc, 0, {}, {cc})
  {
  }

  lemma Exhausted(scope: set<Transaction>, cc: int, n: nat, seen: set<int>)
    requires n > 0 && Searching(scope, cc, n, seen, {})
    ensures Community(scope, cc) == seen
  {
    assert Ball(scope, cc, n) == Ball(scope, cc, n - 1);
    assert Ball(scope, cc, n + 1) == Ball(scope, cc, n);
  }

  method AddUnseen<T(==)>(peers: set<T>, cust: T, seen: set<T>, nxt0: set<T>) returns (nxt: set<T>)
    ensures nxt == nxt0 + (peers - ({cust} + seen))
  {
    nxt := nxt0;
    var left := peers;
    while left != {}
      invariant left <= peers && nxt == nxt0 + (peers - left - ({cust} + seen))
      decreases |left|
    {
      var peer := Choose(left);
      Advance(peers, left, peer);
      JoinOutside(nxt0, peers - left, {peer}, {cust} + seen);
      if peer != cust && peer !in seen {
        nxt := nxt + {peer};
      }
      left := left - {peer};
    }
  }

  // ---------------------------------------------------------------- sums over merchants and members

  ghost function Paired<A, B>(a: A, bs: set<B>): set<(A, B)> {
    set b <- bs :: (a, b)
  }

  lemma {:induction false} PairedSize<A, B>(a: A, bs: set<B>)
    ensures |Paired(a, bs)| == |bs|
  {
    if bs == {} {
      assert Paired(a, bs) == {};
    } else {
      var b :| b in bs;
      PairedSize(a, bs - {b});
      assert Paired(a, bs) == Paired(a, bs - {b}) + {(a, b)};
    }
  }

  lemma UnionSize<T>(a: set<T>, b: set<T>)
    requires a !! b
    ensures |a + b| == |a| + |b|
  {
  }

  /** What has been gathered from the merchants in `done`. */
  ghost predicate Gathered(
    scope: set<Transaction>, cc: int, done: set<string>, peers: set<int>, fanIn: nat)
  {
    peers == Peers(scope, cc, done) && fanIn == |Visits(scope, cc, done)|
  }

  /** One more merchant adds its crowd to the peers, and one visit per customer in it. */
  lemma GatherMerchant(
      scope: set<Transaction>, cc: int, done: set<string>, peers: set<int>, fanIn: nat, m: string)
    requires m !in done && Gathered(scope, cc, done, peers, fanIn)
    ensures var crowd := Customers(scope, m) - {cc};
            Gathered(scope, cc, done + {m}, peers + crowd, fanIn + |crowd|)
  {
    var crowd := Customers(scope, m) - {cc};
    PeersSplit(scope, cc, done, m);
    VisitsSplit(scope, cc, done, m);
    PairedSize(m, crowd);
    UnionSize(Visits(scope, cc, done), Paired(m, crowd));
  }

  lemma PeersSplit(scope: set<Transaction>, cc: int, done: set<string>, m: string)
    ensures Peers(scope, cc, done + {m}) == Peers(scope, cc, done) + (Customers(scope, m) - {cc})
  {
  }

  lemma VisitsSplit(scope: set<Transaction>, cc: int, done: set<string>, m: string)
    requires m !in done
    ensures Visits(scope, cc, done + {m}) == Visits(scope, cc, done) + Paired(m, Customers(scope, m) - {cc})
    ensures Visits(scope, cc, done) !! Paired(m, Customers(scope, m) - {cc})
  {
  }

  /** The transactions of the given customers. */
  ghost function Spent(scope: set<Transaction>, customers: set<int>): set<Transaction> {
    set t <- scope | t.cc in customers
  }

  datatype CommunityStats = CommunityStats(
    clusterSize: nat, flaggedCount: nat, flaggedRatio: real, distinctSharedMerchants: nat, volume: real)

  ghost function TotalsOf(log: set<Transaction>, cc: int, window: Option<int>): CommunityStats
    requires Askable(log, window)
  {
    var scope := Window(log, window);
    var members := Community(scope, cc);
    CommunityStats(
      |members|, |FlaggedAmong(log, members)|, ClusterFlaggedRatio(log, cc, window),
      |MerchantsOf(scope, members)|, Volume(Spent(scope, members)))
  }

  ghost predicate Totalled(scope: set<Transaction>, done: set<int>, merchants: set<string>, volume: real) {
    merchants == MerchantsOf(scope, done) && volume == Volume(Spent(scope, done))
  }

  lemma TotalMember(scope: set<Transaction>, done: set<int>, merchants: set<string>, volume: real, c: int)
    requires c !in done && Totalled(scope, done, merchants, volume)
    ensures Totalled(scope, done + {c}, merchants + Merchants(scope, c), volume + Volume(Spent(scope, {c})))
  {
    VolumeUnion(Spent(scope, done), Spent(scope, {c}));
    assert Spent(scope, done + {c}) == Spent(scope, done) + Spent(scope, {c});
  }

  class Store {
    var txns: Index
    var customerMerchants: map<int, set<string>>
    var merchantCustomers: map<string, set<int>>
    var merchantEvents: map<string, seq<Event>>
    var flaggedCount: map<int, nat>

    /** The deduplicated log. */
    function Log(): set<Transaction>
      reads this
    {
      Kept(txns)
    }

    /** Every index is the projection of the log it is named after. */
    ghost predicate Valid()
      reads this
    {
      && Keyed(txns)
      && Projections(customerMerchants, merchantCustomers, merchantEvents, flaggedCount, Log())
    }

    constructor ()
      ensures Valid() && txns == map[]
    {
      txns, customerMerchants, merchantCustomers := map[], map[], map[];
      merchantEvents, flaggedCount := map[], map[];
    }

    method Observe(tx: Transaction)
      requires Valid()
      modifies this
      ensures Valid()
      ensures txns == Record(old(txns), tx)
      ensures tx.id in old(txns) ==> unchanged(this)
      ensures tx.id !in old(txns) ==> merchantEvents == WithEvent(old(merchantEvents), tx)
    {
      if tx.id in txns {
        return;
      }
      AddObservation(txns, customerMerchants, merchantCustomers, merchantEvents, flaggedCount, tx);
      txns := txns[tx.id := tx];
      customerMerchants := WithMerchant(customerMerchants, tx);
      merchantCustomers := WithCustomer(merchantCustomers, tx);
      merchantEvents := WithEvent(merchantEvents, tx);
      flaggedCount := WithFlag(flaggedCount, tx);
    }

    /** The seeding loop: the store ends up as the replay of everything offered to it. */
    method ObserveAll(txs: seq<Transaction>)
      requires Valid()
      modifies this
      ensures Valid()
      ensures txns == Replay(old(txns), txs)
    {
      for i := 0 to |txs|
        invariant Valid()
        invariant Replay(txns, txs[i..]) == Replay(old(txns), txs)
      {
        assert txs[i..][0] == txs[i] && txs[i..][1..] == txs[i + 1..];
        Observe(txs[i]);
      }
    }

    predicate IsFlagged(cc: int)
      reads this
      requires Valid()
      ensures IsFlagged(cc) <==> FlaggedIn(Log(), cc)
    {
      FlagCount(flaggedCount, Log(), cc);
      Get(flaggedCount, cc, 0) >= 1
    }

    // -------------------------------------------------------------- windowed projections

    method ScopedMerchants(cc: int, window: Option<int>) returns (ms: set<string>)
      requires Valid() && Askable(Log(), window)
      ensures ms == Merchants(Window(Log(), window), cc)
    {
      if window.None? {
        assert Window(Log(), window) == Log();
        ms := Get(customerMerchants, cc, {});
      } else {
        var cutoff := Cutoff(Log(), window).value;
        ms := set t <- Log() | t.cc == cc && t.timestamp >= cutoff :: t.merchant;
      }
    }

    method ScopedCustomers(merchant: string, window: Option<int>) returns (cs: set<int>)
      requires Valid() && Askable(Log(), window)
      ensures cs == Customers(Window(Log(), window), merchant)
    {
      if window.None? {
        assert Window(Log(), window) == Log();
        cs := Get(merchantCustomers, merchant, {});
      } else {
        var cutoff := Cutoff(Log(), window).value;
        cs := set t <- Log() | t.merchant == merchant && t.timestamp >= cutoff :: t.cc;
      }
    }

    method EdgeVolume(cc: int, merchant: string, window: Option<int>) returns (volume: real)
      requires Valid() && Askable(Log(), window)
      ensures volume == Volume(Edge(Window(Log(), window), cc, merchant))
    {
      var cutoff := Cutoff(Log(), window);
      var edge := set t <- Log() | t.cc == cc && t.merchant == merchant && Visible(t, cutoff);
      assert edge == Edge(Window(Log(), window), cc, merchant);
      volume := 0.0;
      var left := edge;
      while left != {}
        invariant left <= edge && volume + Volume(left) == Volume(edge)
        decreases |left|
      {
        var t :| t in left;
        VolumeWithout(left, t);
        left := left - {t};
        volume := volume + t.amount;
      }
    }

    // -------------------------------------------------------------- temporal co-occurrence

    method CoOccurrence(cc: int, merchants: set<string>, window: Option<int>) returns (count: nat)
      requires Valid() && Askable(Log(), window)
      ensures count == |CoOccurring(Window(Log(), window), cc, merchants)|
    {
      var cutoff := Cutoff(Log(), window);
      ghost var scope := Window(Log(), window);
      count := 0;
      var left := merchants;
      ghost var done: set<string> := {};
      assert CoOccurring(scope, cc, {}) == {};
      while left != {}
        invariant done !! left && done + left == merchants
        invariant count == |CoOccurring(scope, cc, done)|
        decreases |left|
      {
        var m :| m in left;
        var events := Get(merchantEvents, m, []);
        assert Lists(events, Log(), m);
        var here := CountPeerEvents(events, cc, cutoff);
        CountedTransactions(events, Log(), cc, cutoff, m);
        CoOccurringSplit(scope, cc, done, m);
        left, done := left - {m}, done + {m};
        count := count + here;
      }
    }

    // -------------------------------------------------------------- community search

    /** The peers of one customer that were not seen yet join `nxt`. */
    method AddPeers(cust: int, window: Option<int>, seen: set<int>, nxt0: set<int>) returns (nxt: set<int>)
      requires Valid() && Askable(Log(), window)
      ensures nxt == nxt0 + (Neighbours(Window(Log(), window), {cust}) - ({cust} + seen))
    {
      ghost var scope := Window(Log(), window);
      nxt := nxt0;
      var left := ScopedMerchants(cust, window);
      ghost var done: set<string> := {};
      while left != {}
        invariant done + left == Merchants(scope, cust)
        invariant nxt == nxt0 + (Crowd(scope, done) - ({cust} + seen))
        decreases |left|
      {
        var m := Choose(left);
        var peers := ScopedCustomers(m, window);
        JoinOutside(nxt0, Crowd(scope, done), peers, {cust} + seen);
        nxt := AddUnseen(peers, cust, seen, nxt);
        CrowdSplit(scope, done, m);
        left, done := left - {m}, done + {m};
      }
      CrowdIsNeighbours(scope, cust);
    }

    /** Visit the customers of one layer that were not seen yet, collecting the next layer;
        `added` are the customers first seen here. */
    method VisitLayer(frontier: set<int>, window: Option<int>, was: set<int>)
      returns (seen: set<int>, nxt: set<int>, ghost added: set<int>)
      requires Valid() && Askable(Log(), window)
      ensures seen == was + frontier == was + added
      ensures nxt <= Neighbours(Window(Log(), window), seen)
      ensures Neighbours(Window(Log(), window), added) <= seen + nxt
      ensures seen == was ==> nxt == {}
    {
      ghost var scope := Window(Log(), window);
      seen, nxt, added := was, {}, {};
      var left := frontier;
      while left != {}
        invariant Visiting(scope, was, frontier, left, seen, added, nxt)
        decreases |left|
      {
        var cust := Choose(left);
        if cust in seen {
          Visit(scope, was, frontier, left, seen, added, nxt, cust, nxt);
        } else {
          var more := AddPeers(cust, window, seen + {cust}, nxt);
          Visit(scope, was, frontier, left, seen, added, nxt, cust, more);
          seen, added, nxt := seen + {cust}, added + {cust}, more;
        }
        left := left - {cust};
      }
    }

    /** One whole layer: the search ends here, or goes on with fewer unseen customers or an empty layer. */
    method SearchLayer(cc: int, window: Option<int>, ghost n: nat, was: set<int>, frontier: set<int>)
      returns (seen: set<int>, nxt: set<int>)
      requires Valid() && Askable(Log(), window)
      requires Searching(Window(Log(), window), cc, n, was, frontier)
      ensures Layered(Window(Log(), window), cc, n, was, seen, nxt)
    {
      ghost var added;
      seen, nxt, added := VisitLayer(frontier, window, was);
      LayerDone(Window(Log(), window), cc, n, was, frontier, seen, added, nxt);
    }

    /** The layered search: whole layers of unseen customers until nobody is left or the cap is passed. */
    method CommunityMembers(cc: int, window: Option<int>) returns (seen: set<int>)
      requires Valid() && Askable(Log(), window)
      ensures seen == Community(Window(Log(), window), cc)
    {
      ghost var scope := Window(Log(), window);
      seen := {};
      var frontier := {cc};
      ghost var n := 0;
      SearchStarts(scope, cc);
      while frontier != {}
        invariant Searching(scope, cc, n, seen, frontier)
        decreases Unseen(scope, cc, seen), |frontier|
      {
        seen, frontier := SearchLayer(cc, window, n, seen, frontier);
        if |seen| > COMMUNITY_MAX_NODES {
          return;
        }
        n := n + 1;
      }
      Exhausted(scope, cc, n, seen);
    }

    method CountFlagged(customers: set<int>) returns (n: nat)
      requires Valid()
      ensures n == |FlaggedAmong(Log(), customers)|
    {
      var flagged := set c <- customers | IsFlagged(c);
      assert flagged == FlaggedAmong(Log(), customers);
      n := |flagged|;
    }

    method ComponentStats(cc: int, window: Option<int>) returns (size: nat, ratio: real)
      requires Valid() && Askable(Log(), window)
      ensures size == ClusterSize(Log(), cc, window)
      ensures ratio == ClusterFlaggedRatio(Log(), cc, window)
    {
      var component := CommunityMembers(cc, window);
      var flagged := CountFlagged(component);
      size, ratio := |component|, RoundTo(Ratio(flagged, |component|), 10000.0);
    }

    // -------------------------------------------------------------- features and score

    /** The other customers at the merchants, and the summed sizes of their crowds. */
    method PeersAndFanIn(cc: int, merchants: set<string>, window: Option<int>)
      returns (peers: set<int>, fanIn: nat)
      requires Valid() && Askable(Log(), window)
      ensures peers == Peers(Window(Log(), window), cc, merchants)
      ensures fanIn == |Visits(Window(Log(), window), cc, merchants)|
    {
      ghost var scope := Window(Log(), window);
      peers, fanIn := {}, 0;
      var left := merchants;
      assert Gathered(scope, cc, {}, peers, fanIn);
      while left != {}
        invariant left <= merchants && Gathered(scope, cc, merchants - left, peers, fanIn)
        decreases |left|
      {
        var m := Choose(left);
        var crowd := ScopedCustomers(m, window);
        crowd := crowd - {cc};
        GatherMerchant(scope, cc, merchants - left, peers, fanIn, m);
        peers, fanIn := peers + crowd, fanIn + |crowd|;
        Advance(merchants, left, m);
        left := left - {m};
      }
      assert merchants - left == merchants;
    }

    method Features(cc: int, window: Option<int>) returns (f: NodeFeatures)
      requires Valid() && Askable(Log(), window)
      ensures f == FeaturesOf(Log(), cc, window)
    {
      var merchants := ScopedMerchants(cc, window);
      if merchants == {} {
        return ISOLATED;
      }
      var peers, fanIn := PeersAndFanIn(cc, merchants, window);
      fanIn := Min(fanIn, |merchants| * 1000);
      var flagged := CountFlagged(peers);
      var coOccurrence := CoOccurrence(cc, merchants, window);
      var size, ratio := ComponentStats(cc, window);
      f := NodeFeatures(
        |merchants|, fanIn, |peers|, coOccurrence, flagged,
        RoundTo(Ratio(flagged, |peers|), 10000.0), size, RoundTo(ratio, 10000.0));
    }

    method NetworkRiskScore(cc: int, window: Option<int>) returns (score: real)
      requires Valid() && Askable(Log(), window)
      ensures score == RiskScore(FeaturesOf(Log(), cc, window))
      ensures score == 0.0 <==> forall d :: Linked(Window(Log(), window), cc, d) ==> d == cc
    {
      var f := Features(cc, window);
      ScoreAvailability(Log(), cc, window);
      score := RiskScore(f);
    }

    // -------------------------------------------------------------- community totals

    /** The volume of the edges between one member and its merchants. */
    method MemberVolume(c: int, window: Option<int>) returns (volume: real)
      requires Valid() && Askable(Log(), window)
      ensures volume == Volume(Spent(Window(Log(), window), {c}))
    {
      ghost var scope := Window(Log(), window);
      volume := 0.0;
      var left := ScopedMerchants(c, window);
      ghost var counted: set<Transaction> := {};
      while left != {}
        invariant counted == set t <- scope | t.cc == c && t.merchant !in left
        invariant volume == Volume(counted)
        decreases |left|
      {
        var m := Choose(left);
        var edge := EdgeVolume(c, m, window);
        VolumeUnion(counted, Edge(scope, c, m));
        counted := counted + Edge(scope, c, m);
        volume := volume + edge;
        left := left - {m};
      }
      assert counted == Spent(scope, {c});
    }

    /** The merchants the members used, and everything they spent in the window. */
    method MemberTotals(members: set<int>, window: Option<int>) returns (merchants: set<string>, volume: real)
      requires Valid() && Askable(Log(), window)
      ensures merchants == MerchantsOf(Window(Log(), window), members)
      ensures volume == Volume(Spent(Window(Log(), window), members))
    {
      ghost var scope := Window(Log(), window);
      merchants, volume := {}, 0.0;
      var left := members;
      assert Totalled(scope, {}, merchants, volume);
      while left != {}
        invariant left <= members && Totalled(scope, members - left, merchants, volume)
        decreases |left|
      {
        var c := Choose(left);
        var own := MemberVolume(c, window);
        TotalMember(scope, members - left, merchants, volume, c);
        var used := ScopedMerchants(c, window);
        merchants, volume := merchants + used, volume + own;
        Advance(members, left, c);
        left := left - {c};
      }
      assert members - left == members;
    }

    /** Size, flags and volume of a whole community: nothing a member spent in the window is lost
        or counted twice. */
    method CommunityTotals(cc: int, window: Option<int>) returns (stats: CommunityStats)
      requires Valid() && Askable(Log(), window)
      ensures stats == TotalsOf(Log(), cc, window)
    {
      var members := CommunityMembers(cc, window);
      var flagged := CountFlagged(members);
      var merchants, volume := MemberTotals(members, window);
      stats := CommunityStats(
        |members|, flagged, RoundTo(Ratio(flagged, |members|), 10000.0), |merchants|, volume);
    }
  }
}
