/** Communities of customers linked by shared merchants: reachability, and the size-capped
    layer-by-layer search that approximates it (ml/graph/extract.py). */
module CommunitySearch {
  import opened TransactionLog

  const COMMUNITY_MAX_NODES := 500

  // ---------------------------------------------------------------- reachability

  /** Two customers are linked when they transacted at one merchant. */
  ghost predicate Linked(scope: set<Transaction>, a: int, b: int) {
    exists t, u :: t in scope && u in scope && t.cc == a && u.cc == b && t.merchant == u.merchant
  }

  /** A nonempty chain of customers, each linked to the next. */
  ghost predicate Chain(scope: set<Transaction>, p: seq<int>) {
    |p| > 0 && forall i :: 0 <= i < |p| - 1 ==> Linked(scope, p[i], p[i + 1])
  }

  ghost predicate Joins(scope: set<Transaction>, p: seq<int>, a: int, b: int) {
    Chain(scope, p) && p[0] == a && p[|p| - 1] == b
  }

  ghost predicate Connected(scope: set<Transaction>, a: int, b: int) {
    exists p :: Joins(scope, p, a, b)
  }

  lemma ConnectedReflexive(scope: set<Transaction>, a: int)
    ensures Connected(scope, a, a)
  {
    assert Joins(scope, [a], a, a);
  }

  lemma ConnectedTransitive(scope: set<Transaction>, a: int, b: int, c: int)
    requires Connected(scope, a, b) && Connected(scope, b, c)
    ensures Connected(scope, a, c)
  {
    var p :| Joins(scope, p, a, b);
    var q :| Joins(scope, q, b, c);
    var r := p + q[1..];
    forall i | 0 <= i < |r| - 1 ensures Linked(scope, r[i], r[i + 1]) {
      if i >= |p| - 1 {
        assert r[i] == q[i - (|p| - 1)] && r[i + 1] == q[i - (|p| - 1) + 1];
      }
    }
    assert Joins(scope, r, a, c);
  }

  lemma {:induction false} ReversedJoins(scope: set<Transaction>, p: seq<int>, a: int, b: int)
    requires Joins(scope, p, a, b)
    ensures Connected(scope, b, a)
    decreases |p|
  {
    if |p| == 1 {
      ConnectedReflexive(scope, a);
    } else {
      assert Linked(scope, p[0], p[1]);
      assert Joins(scope, [p[1], a], p[1], a);
      var rest := p[1..];
      assert Chain(scope, rest) by {
        forall i | 0 <= i < |rest| - 1 ensures Linked(scope, rest[i], rest[i + 1]) {
          assert Linked(scope, p[i + 1], p[i + 2]);
        }
      }
      ReversedJoins(scope, rest, p[1], b);
      ConnectedTransitive(scope, b, p[1], a);
    }
  }

  lemma ConnectedSymmetric(scope: set<Transaction>, a: int, b: int)
    requires Connected(scope, a, b)
    ensures Connected(scope, b, a)
  {
    var p :| Joins(scope, p, a, b);
    ReversedJoins(scope, p, a, b);
  }

  // ---------------------------------------------------------------- layers

  /** The merchants where someone in `customers` transacted. */
  function MerchantsOf(scope: set<Transaction>, customers: set<int>): set<string> {
    set t <- scope | t.cc in customers :: t.merchant
  }

  /** Everyone who transacted at one of the merchants. */
  function Crowd(scope: set<Transaction>, merchants: set<string>): set<int> {
    set t <- scope | t.merchant in merchants :: t.cc
  }

  /** Every customer linked to one in `from`. */
  function Neighbours(scope: set<Transaction>, from: set<int>): set<int> {
    Crowd(scope, MerchantsOf(scope, from))
  }

  lemma NeighboursAreLinked(scope: set<Transaction>, from: set<int>, d: int)
    ensures d in Neighbours(scope, from) <==> exists c <- from :: Linked(scope, c, d)
  {
    if d in Neighbours(scope, from) {
      var u :| u in scope && u.merchant in MerchantsOf(scope, from) && u.cc == d;
      var t :| t in scope && t.cc in from && t.merchant == u.merchant;
      assert Linked(scope, t.cc, d);
    }
    if c :| c in from && Linked(scope, c, d) {
      var t, u :| t in scope && u in scope && t.cc == c && u.cc == d && t.merchant == u.merchant;
      assert u.merchant in MerchantsOf(scope, from);
    }
  }

  /** The customers within `n` links of `cc`. */
  function Ball(scope: set<Transaction>, cc: int, n: nat): set<int> {
    if n == 0 then {cc} else Ball(scope, cc, n - 1) + Neighbours(scope, Ball(scope, cc, n - 1))
  }

  /** All customers the search from `cc` could ever visit. */
  function Everyone(scope: set<Transaction>, cc: int): set<int> {
    {cc} + set t <- scope :: t.cc
  }

  lemma {:induction false} BallBounded(scope: set<Transaction>, cc: int, n: nat)
    ensures cc in Ball(scope, cc, n) && Ball(scope, cc, n) <= Everyone(scope, cc)
  {
    if n > 0 {
      BallBounded(scope, cc, n - 1);
    }
  }

  lemma SubsetSize<T>(a: set<T>, b: set<T>)
    requires a <= b
    ensures |a| <= |b|
    ensures a != b ==> |a| < |b|
  {
    assert b == a + (b - a);
    assert a != b ==> b - a != {};
  }

  /** The search stops at layer `n`: the cap has been passed, or nobody new was found. */
  predicate Stops(scope: set<Transaction>, cc: int, n: nat) {
    |Ball(scope, cc, n)| > COMMUNITY_MAX_NODES || Ball(scope, cc, n + 1) == Ball(scope, cc, n)
  }

  /** A layer that does not stop the search adds a customer. */
  lemma NewLayerGrows(scope: set<Transaction>, cc: int, n: nat)
    requires !Stops(scope, cc, n)
    ensures |Ball(scope, cc, n)| < |Ball(scope, cc, n + 1)| <= |Everyone(scope, cc)|
  {
    BallBounded(scope, cc, n + 1);
    SubsetSize(Ball(scope, cc, n), Ball(scope, cc, n + 1));
    SubsetSize(Ball(scope, cc, n + 1), Everyone(scope, cc));
  }

  /** The first layer at or after `n` at which the search stops. */
  function SearchFrom(scope: set<Transaction>, cc: int, n: nat): set<int>
    decreases |Everyone(scope, cc)| - |Ball(scope, cc, n)|
  {
    if Stops(scope, cc, n) then Ball(scope, cc, n)
    else
      NewLayerGrows(scope, cc, n);
      SearchFrom(scope, cc, n + 1)
  }

  /** The community of `cc`: the whole layers visited until the search stops. */
  function Community(scope: set<Transaction>, cc: int): set<int> {
    SearchFrom(scope, cc, 0)
  }

  /** `SearchFrom` is the ball at the first layer that stops. */
  lemma {:induction false} SearchLayer(scope: set<Transaction>, cc: int, n: nat) returns (k: nat)
    ensures n <= k && Stops(scope, cc, k) && SearchFrom(scope, cc, n) == Ball(scope, cc, k)
    decreases |Everyone(scope, cc)| - |Ball(scope, cc, n)|
  {
    if Stops(scope, cc, n) {
      k := n;
    } else {
      NewLayerGrows(scope, cc, n);
      k := SearchLayer(scope, cc, n + 1);
    }
  }

  /** A search that goes on past layer `n` has `last` as the layer before it stops, within the cap. */
  lemma {:induction false} LastLayerWithin(scope: set<Transaction>, cc: int, n: nat) returns (k: nat, last: nat)
    ensures n <= k && SearchFrom(scope, cc, n) == Ball(scope, cc, k)
    ensures n < k ==> k == last + 1 && |Ball(scope, cc, last)| <= COMMUNITY_MAX_NODES
    decreases |Everyone(scope, cc)| - |Ball(scope, cc, n)|
  {
    if Stops(scope, cc, n) {
      k, last := n, n;
    } else {
      NewLayerGrows(scope, cc, n);
      k, last := LastLayerWithin(scope, cc, n + 1);
      if k == n + 1 {
        last := n;
      }
    }
  }

  lemma BallMonotone(scope: set<Transaction>, cc: int, m: nat, n: nat)
    requires m <= n
    ensures Ball(scope, cc, m) <= Ball(scope, cc, n)
  {
  }

  lemma {:induction false} BallIsReachable(scope: set<Transaction>, cc: int, n: nat, d: int)
    requires d in Ball(scope, cc, n)
    ensures Connected(scope, cc, d)
    decreases n
  {
    if n == 0 {
      ConnectedReflexive(scope, cc);
    } else if d in Ball(scope, cc, n - 1) {
      BallIsReachable(scope, cc, n - 1, d);
    } else {
      var c := NeighbourLink(scope, Ball(scope, cc, n - 1), d);
      BallIsReachable(scope, cc, n - 1, c);
      ConnectedTransitive(scope, cc, c, d);
    }
  }

  lemma NeighbourLink(scope: set<Transaction>, from: set<int>, d: int) returns (c: int)
    requires d in Neighbours(scope, from)
    ensures c in from && Linked(scope, c, d) && Connected(scope, c, d)
  {
    NeighboursAreLinked(scope, from, d);
    c :| c in from && Linked(scope, c, d);
    assert Joins(scope, [c, d], c, d);
  }

  /** A set closed under links contains every chain that starts in it. */
  lemma {:induction false} ClosedContainsChain(scope: set<Transaction>, s: set<int>, p: seq<int>)
    requires Neighbours(scope, s) <= s && Chain(scope, p) && p[0] in s
    ensures p[|p| - 1] in s
    decreases |p|
  {
    if |p| > 1 {
      var rest := p[1..];
      assert Linked(scope, p[0], p[1]);
      NeighboursAreLinked(scope, s, p[1]);
      forall i | 0 <= i < |rest| - 1 ensures Linked(scope, rest[i], rest[i + 1]) {
        assert Linked(scope, p[i + 1], p[i + 2]);
      }
      ClosedContainsChain(scope, s, rest);
    }
  }

  // ---------------------------------------------------------------- what the search returns

  /** Whatever the cap did, only customers reachable by shared merchants are returned. */
  lemma CommunitySound(scope: set<Transaction>, cc: int, d: int)
    requires d in Community(scope, cc)
    ensures Connected(scope, cc, d)
  {
    var k := SearchLayer(scope, cc, 0);
    BallIsReachable(scope, cc, k, d);
  }

  /** No link leads out of the set. */
  predicate Closed(scope: set<Transaction>, s: set<int>) {
    Neighbours(scope, s) <= s
  }

  /** Exactly the customers reachable from `cc` are returned. */
  ghost predicate Whole(scope: set<Transaction>, cc: int) {
    forall d :: d in Community(scope, cc) <==> Connected(scope, cc, d)
  }

  lemma ClosedBallIsWhole(scope: set<Transaction>, cc: int, k: nat)
    requires Closed(scope, Ball(scope, cc, k))
    ensures forall d :: d in Ball(scope, cc, k) <==> Connected(scope, cc, d)
  {
    var ball := Ball(scope, cc, k);
    BallBounded(scope, cc, k);
    forall d ensures d in ball <==> Connected(scope, cc, d) {
      if d in ball {
        BallIsReachable(scope, cc, k, d);
      }
      if Connected(scope, cc, d) {
        var p :| Joins(scope, p, cc, d);
        ClosedContainsChain(scope, ball, p);
      }
    }
  }

  /** A ball that holds every reachable customer is closed, and no later one is larger. */
  lemma WholeBallIsClosed(scope: set<Transaction>, cc: int, k: nat, n: nat)
    requires (forall d :: d in Ball(scope, cc, k) <==> Connected(scope, cc, d)) && k <= n
    ensures Closed(scope, Ball(scope, cc, n))
  {
    forall d | d in Neighbours(scope, Ball(scope, cc, n)) ensures d in Ball(scope, cc, n) {
      var c := NeighbourLink(scope, Ball(scope, cc, n), d);
      BallIsReachable(scope, cc, n, c);
      ConnectedTransitive(scope, cc, c, d);
      BallMonotone(scope, cc, k, n);
    }
  }

  /** No layer past the cap has a link to a further customer. */
  ghost predicate ClosedPastCap(scope: set<Transaction>, cc: int) {
    forall n: nat :: |Ball(scope, cc, n)| > COMMUNITY_MAX_NODES ==> Closed(scope, Ball(scope, cc, n))
  }

  lemma WholeSearchIsClosed(scope: set<Transaction>, cc: int, n: nat)
    requires Whole(scope, cc) && |Ball(scope, cc, n)| > COMMUNITY_MAX_NODES
    ensures Closed(scope, Ball(scope, cc, n))
  {
    var k, last := LastLayerWithin(scope, cc, 0);
    if n < k {
      BallMonotone(scope, cc, n, last);
      SubsetSize(Ball(scope, cc, n), Ball(scope, cc, last));
    }
    WholeBallIsClosed(scope, cc, k, n);
  }

  lemma ClosedSearchIsWhole(scope: set<Transaction>, cc: int)
    requires ClosedPastCap(scope, cc)
    ensures Whole(scope, cc)
  {
    var k := SearchLayer(scope, cc, 0);
    ClosedBallIsWhole(scope, cc, k);
  }

  /** Every reachable customer is returned exactly when no layer past the cap leads to a further one. */
  lemma WholeExactly(scope: set<Transaction>, cc: int)
    ensures Whole(scope, cc) <==> ClosedPastCap(scope, cc)
  {
    if Whole(scope, cc) {
      forall n: nat | |Ball(scope, cc, n)| > COMMUNITY_MAX_NODES ensures Closed(scope, Ball(scope, cc, n)) {
        WholeSearchIsClosed(scope, cc, n);
      }
    }
    if ClosedPastCap(scope, cc) {
      ClosedSearchIsWhole(scope, cc);
    }
  }

  /** So a result within the cap is exactly the connected component. */
  lemma CommunityComplete(scope: set<Transaction>, cc: int)
    requires |Community(scope, cc)| <= COMMUNITY_MAX_NODES
    ensures forall d :: d in Community(scope, cc) <==> Connected(scope, cc, d)
  {
    var k := SearchLayer(scope, cc, 0);
    ClosedBallIsWhole(scope, cc, k);
  }

  // ---------------------------------------------------------------- customers lost to the cap

  function Visitor(cc: nat): Transaction {
    Transaction(seq(cc + 1, i => 'v'), cc, "mall", 10.0, 0, false)
  }

  /** The customers below `n`. */
  ghost function FirstCustomers(n: nat): set<int> {
    if n == 0 then {} else FirstCustomers(n - 1) + {n - 1}
  }

  lemma {:induction false} FirstCustomersExactly(n: nat)
    ensures |FirstCustomers(n)| == n
    ensures forall i :: i in FirstCustomers(n) <==> 0 <= i < n
  {
    if n > 0 {
      FirstCustomersExactly(n - 1);
    }
  }

  /** The customers below `n` at one merchant; the last of them shares another one with customer `n`. */
  function Crowded(n: nat): set<Transaction> {
    (set cc | 0 <= cc < n :: Visitor(cc))
    + {Transaction("a", n - 1, "kiosk", 10.0, 0, false), Transaction("b", n, "kiosk", 10.0, 0, false)}
  }

  lemma MallMerchants(n: nat)
    requires n > 1
    ensures MerchantsOf(Crowded(n), {0}) == {"mall"}
  {
    assert Visitor(0) in Crowded(n);
  }

  lemma MallCrowd(n: nat)
    ensures Crowd(Crowded(n), {"mall"}) == FirstCustomers(n)
  {
    FirstCustomersExactly(n);
    forall cc | cc in FirstCustomers(n) ensures cc in Crowd(Crowded(n), {"mall"}) {
      assert Visitor(cc) in Crowded(n);
    }
  }

  lemma CrowdedStops(n: nat)
    requires n > COMMUNITY_MAX_NODES
    ensures Community(Crowded(n), 0) == FirstCustomers(n)
  {
    var scope := Crowded(n);
    MallMerchants(n);
    MallCrowd(n);
    FirstCustomersExactly(n);
    TwoLayers(scope, 0, FirstCustomers(n));
  }

  /** A search that passes the cap with the direct peers returns just them. */
  lemma TwoLayers(scope: set<Transaction>, cc: int, crowd: set<int>)
    requires Neighbours(scope, {cc}) == crowd && cc in crowd && |crowd| > COMMUNITY_MAX_NODES
    ensures Community(scope, cc) == crowd
  {
    assert Ball(scope, cc, 0) == {cc};
    assert {cc} + crowd == crowd;
    assert Ball(scope, cc, 1) == crowd;
    assert !Stops(scope, cc, 0) && Stops(scope, cc, 1);
    assert SearchFrom(scope, cc, 1) == crowd;
  }

  lemma CrowdedReachable(n: nat)
    ensures Reachable(Crowded(n))
  {
    forall t <- Crowded(n), u <- Crowded(n) | t.id == u.id
      ensures t == u
    {
      assert |t.id| == |u.id| && t.id[0] == u.id[0];
    }
    ReachableExactly(Crowded(n));
  }

  /** With one customer too many the search stops at the crowd and loses the one reachable beyond it. */
  lemma CapLosesCustomer(n: nat)
    requires n > COMMUNITY_MAX_NODES
    ensures Connected(Crowded(n), 0, n) && n !in Community(Crowded(n), 0)
    ensures !Whole(Crowded(n), 0)
    ensures Reachable(Crowded(n))
  {
    CrowdedReachable(n);
    var scope := Crowded(n);
    CrowdedStops(n);
    FirstCustomersExactly(n);
    var p := [0, n - 1, n];
    assert Visitor(0) in scope && Visitor(n - 1) in scope;
    assert Linked(scope, p[0], p[1]) && Linked(scope, p[1], p[2]);
    assert Joins(scope, p, 0, n);
  }

  /** Communities within the cap partition the customers: each member sees the same one. */
  lemma CommunityPartition(scope: set<Transaction>, c: int, d: int)
    requires |Community(scope, c)| <= COMMUNITY_MAX_NODES && d in Community(scope, c)
    ensures Community(scope, d) == Community(scope, c)
  {
    CommunityComplete(scope, c);
    ConnectedSymmetric(scope, c, d);
    forall e | e in Community(scope, d) ensures e in Community(scope, c) {
      CommunitySound(scope, d, e);
      ConnectedTransitive(scope, c, d, e);
    }
    SubsetSize(Community(scope, d), Community(scope, c));
    CommunityComplete(scope, d);
    forall e | e in Community(scope, c) ensures e in Community(scope, d) {
      ConnectedTransitive(scope, d, c, e);
    }
  }

  /** Two communities within the cap are equal or disjoint. */
  lemma CommunitiesDisjoint(scope: set<Transaction>, c: int, d: int)
    requires |Community(scope, c)| <= COMMUNITY_MAX_NODES
    requires |Community(scope, d)| <= COMMUNITY_MAX_NODES
    ensures Community(scope, c) == Community(scope, d) || Community(scope, c) !! Community(scope, d)
  {
    if !(Community(scope, c) !! Community(scope, d)) {
      var e := CommonMember(Community(scope, c), Community(scope, d));
      CommunityPartition(scope, c, e);
      CommunityPartition(scope, d, e);
    }
  }

  lemma CommonMember<T>(a: set<T>, b: set<T>) returns (e: T)
    requires !(a !! b)
    ensures e in a && e in b
  {
    e :| e in a && e in b;
  }

  /** Even when the cap fires, the customer and every direct peer are returned. */
  lemma DirectPeersReturned(scope: set<Transaction>, cc: int)
    ensures {cc} + Neighbours(scope, {cc}) <= Community(scope, cc)
  {
    var k := SearchLayer(scope, cc, 0);
    assert Ball(scope, cc, 0) == {cc};
    assert Ball(scope, cc, 1) == {cc} + Neighbours(scope, {cc});
    if k == 0 {
      assert Ball(scope, cc, 1) == Ball(scope, cc, 0);
    } else {
      BallMonotone(scope, cc, 1, k);
    }
  }
}
