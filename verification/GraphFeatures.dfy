/** What a graph store reports about one customer, stated on the set of kept transactions
    alone: no index, no iteration order (ml/graph/extract.py). */
module GraphFeatures {
  import opened Rounding
  import opened Wrappers
  import opened TransactionLog
  import opened CommunitySearch

  datatype NodeFeatures = NodeFeatures(
    merchantDegree: nat,
    merchantFanIn: nat,
    sharedCounterpartyCount: nat,
    coOccurrenceCount: nat,
    flaggedNeighborCount: nat,
    flaggedExposure: real,
    clusterSize: nat,
    clusterFlaggedRatio: real)

  const ISOLATED := NodeFeatures(0, 0, 0, 0, 0, 0.0, 1, 0.0)

  function Ratio(part: nat, whole: nat): real {
    if whole == 0 then 0.0 else part as real / whole as real
  }

  function Min(a: nat, b: nat): nat {
    if a <= b then a else b
  }

  // ---------------------------------------------------------------- specification

  /** The other customers seen at the given merchants. */
  ghost function Peers(scope: set<Transaction>, cc: int, merchants: set<string>): set<int> {
    set t <- scope | t.merchant in merchants && t.cc != cc :: t.cc
  }

  /** One pair per merchant and other customer seen there. */
  ghost function Visits(scope: set<Transaction>, cc: int, merchants: set<string>): set<(string, int)> {
    set t <- scope | t.merchant in merchants && t.cc != cc :: (t.merchant, t.cc)
  }

  predicate Near(a: int, b: int) {
    -CO_OCCURRENCE_WINDOW <= a - b <= CO_OCCURRENCE_WINDOW
  }

  /** Another customer's visible transaction at one of the merchants, with an own visible
      transaction there within the co-occurrence window. */
  ghost predicate CoOccurs(scope: set<Transaction>, cc: int, merchants: set<string>, t: Transaction) {
    && t.merchant in merchants && t.cc != cc
    && exists own <- scope :: own.cc == cc && own.merchant == t.merchant && Near(own.timestamp, t.timestamp)
  }

  ghost function CoOccurring(scope: set<Transaction>, cc: int, merchants: set<string>): set<Transaction> {
    set t <- scope | CoOccurs(scope, cc, merchants, t)
  }

  ghost function FlaggedAmong(log: set<Transaction>, customers: set<int>): set<int> {
    set c <- customers | FlaggedIn(log, c)
  }

  ghost function ClusterSize(log: set<Transaction>, cc: int, window: Option<int>): nat
    requires Askable(log, window)
  {
    |Community(Window(log, window), cc)|
  }

  ghost function ClusterFlaggedRatio(log: set<Transaction>, cc: int, window: Option<int>): real
    requires Askable(log, window)
  {
    var members := Community(Window(log, window), cc);
    RoundTo(Ratio(|FlaggedAmong(log, members)|, |members|), 10000.0)
  }

  /** The feature vector of `cc` as a function of the log and the window. */
  ghost function FeaturesOf(log: set<Transaction>, cc: int, window: Option<int>): NodeFeatures
    requires Askable(log, window)
  {
    var scope := Window(log, window);
    var merchants := Merchants(scope, cc);
    if merchants == {} then ISOLATED
    else
      var peers := Peers(scope, cc, merchants);
      NodeFeatures(
        |merchants|,
        Min(|Visits(scope, cc, merchants)|, |merchants| * 1000),
        |peers|,
        |CoOccurring(scope, cc, merchants)|,
        |FlaggedAmong(log, peers)|,
        RoundTo(Ratio(|FlaggedAmong(log, peers)|, |peers|), 10000.0),
        ClusterSize(log, cc, window),
        RoundTo(ClusterFlaggedRatio(log, cc, window), 10000.0))
  }

  // ---------------------------------------------------------------- score

  const WEIGHT_FLAGGED_EXPOSURE := 0.45
  const WEIGHT_SHARED_COUNTERPARTY := 0.25
  const WEIGHT_CO_OCCURRENCE := 0.15
  const WEIGHT_MERCHANT_FAN_IN := 0.15

  /** The weighted blend before clamping and rounding. */
  function Blend(f: NodeFeatures): real {
    WEIGHT_FLAGGED_EXPOSURE * MinReal(1.0, f.flaggedExposure)
    + WEIGHT_SHARED_COUNTERPARTY * MinReal(1.0, f.sharedCounterpartyCount as real / 5.0)
    + WEIGHT_CO_OCCURRENCE * MinReal(1.0, f.coOccurrenceCount as real / 3.0)
    + WEIGHT_MERCHANT_FAN_IN * MinReal(1.0, f.merchantFanIn as real / 10.0)
  }

  function RiskScore(f: NodeFeatures): real {
    if f.sharedCounterpartyCount == 0 then 0.0
    else RoundTo(MinReal(1.0, MaxReal(0.0, Blend(f))), 10000.0)
  }

  // ---------------------------------------------------------------- properties

  /** Peers found by walking merchants are the linked customers other than `cc` itself. */
  lemma PeersAreLinked(scope: set<Transaction>, cc: int)
    ensures Peers(scope, cc, Merchants(scope, cc)) == Neighbours(scope, {cc}) - {cc}
  {
    assert Merchants(scope, cc) == MerchantsOf(scope, {cc});
  }

  lemma {:induction false} SecondComponents<M(!new), D>(pairs: set<(M, D)>, ds: set<D>)
    requires forall d <- ds :: exists m :: (m, d) in pairs
    ensures |ds| <= |pairs|
  {
    if ds != {} {
      var d :| d in ds;
      var m :| (m, d) in pairs;
      forall e <- ds - {d} ensures exists k: M :: (k, e) in pairs - {(m, d)} {
        var k: M :| (k, e) in pairs;
        assert (k, e) in pairs - {(m, d)};
      }
      SecondComponents(pairs - {(m, d)}, ds - {d});
    }
  }

  /** Every peer is visited at least once, so the fan-in is at least the number of peers. */
  lemma FanInCoversPeers(scope: set<Transaction>, cc: int, merchants: set<string>)
    ensures |Peers(scope, cc, merchants)| <= |Visits(scope, cc, merchants)|
  {
    forall d <- Peers(scope, cc, merchants) ensures exists m :: (m, d) in Visits(scope, cc, merchants) {
      var t :| t in scope && t.merchant in merchants && t.cc != cc && t.cc == d;
      assert (t.merchant, d) in Visits(scope, cc, merchants);
    }
    SecondComponents(Visits(scope, cc, merchants), Peers(scope, cc, merchants));
  }

  /** The community holds the customer and all its peers, even when the cap fires. */
  lemma ClusterCoversPeers(log: set<Transaction>, cc: int, window: Option<int>)
    requires Askable(log, window)
    ensures var f := FeaturesOf(log, cc, window);
            f.clusterSize >= 1 + f.sharedCounterpartyCount
  {
    var scope := Window(log, window);
    var peers := Peers(scope, cc, Merchants(scope, cc));
    PeersAreLinked(scope, cc);
    DirectPeersReturned(scope, cc);
    assert cc !in peers;
    assert |{cc} + peers| == 1 + |peers|;
    SubsetSize({cc} + peers, Community(scope, cc));
  }

  lemma RatioBetween(part: nat, whole: nat)
    requires part <= whole
    ensures 0.0 <= Ratio(part, whole) <= 1.0
    ensures part == 0 ==> Ratio(part, whole) == 0.0
  {
    if whole > 0 {
      DivideMonotone(0.0, part as real, whole as real);
      DivideMonotone(part as real, whole as real, whole as real);
    }
  }

  /** A rounded proportion stays a proportion, and an empty part gives zero. */
  lemma RoundedRatio(part: nat, whole: nat)
    requires part <= whole
    ensures 0.0 <= RoundTo(Ratio(part, whole), 10000.0) <= 1.0
    ensures part == 0 ==> RoundTo(Ratio(part, whole), 10000.0) == 0.0
  {
    RatioBetween(part, whole);
    RoundBetween(Ratio(part, whole), 0, 1, 10000);
    RoundToInteger(0, 10000);
  }

  /** The exposure is a proportion, and it is positive only when a peer is flagged. */
  lemma ExposureBounds(log: set<Transaction>, cc: int, window: Option<int>)
    requires Askable(log, window)
    ensures var f := FeaturesOf(log, cc, window);
            && 0.0 <= f.flaggedExposure <= 1.0
            && f.flaggedNeighborCount <= f.sharedCounterpartyCount
            && (f.flaggedNeighborCount == 0 ==> f.flaggedExposure == 0.0)
  {
    var scope := Window(log, window);
    var peers := Peers(scope, cc, Merchants(scope, cc));
    SubsetSize(FlaggedAmong(log, peers), peers);
    RoundedRatio(|FlaggedAmong(log, peers)|, |peers|);
  }

  /** The score is zero exactly when nobody shares a merchant with the customer (the axis is
      then unavailable); otherwise a single peer already guarantees 0.065. */
  lemma ScoreAvailability(log: set<Transaction>, cc: int, window: Option<int>)
    requires Askable(log, window)
    ensures var f := FeaturesOf(log, cc, window);
            && (RiskScore(f) == 0.0 <==> f.sharedCounterpartyCount == 0)
            && (RiskScore(f) == 0.0 <==> forall d :: Linked(Window(log, window), cc, d) ==> d == cc)
            && (f.sharedCounterpartyCount > 0 ==> 0.065 <= RiskScore(f) <= 1.0)
  {
    var f := FeaturesOf(log, cc, window);
    var scope := Window(log, window);
    PeersAreLinked(scope, cc);
    NoPeersMeansUnlinked(scope, cc);
    if f.sharedCounterpartyCount > 0 {
      FanInCoversPeers(scope, cc, Merchants(scope, cc));
      ExposureBounds(log, cc, window);
      assert f.merchantFanIn >= 1;
      BlendFloor(f);
      RoundToMonotone(0.065, MinReal(1.0, Blend(f)), 10000.0);
      RoundToMonotone(MinReal(1.0, Blend(f)), 1.0, 10000.0);
    }
  }

  lemma NoPeersMeansUnlinked(scope: set<Transaction>, cc: int)
    ensures |Neighbours(scope, {cc}) - {cc}| == 0 <==> forall d :: Linked(scope, cc, d) ==> d == cc
  {
    var others := Neighbours(scope, {cc}) - {cc};
    forall d ensures d in others <==> Linked(scope, cc, d) && d != cc {
      NeighboursAreLinked(scope, {cc}, d);
    }
    assert |others| == 0 <==> others == {};
  }

  lemma BlendFloor(f: NodeFeatures)
    requires f.sharedCounterpartyCount >= 1 && f.merchantFanIn >= 1 && f.flaggedExposure >= 0.0
    ensures Blend(f) >= 0.065
  {
    DivideMonotone(1.0, f.sharedCounterpartyCount as real, 5.0);
    DivideMonotone(1.0, f.merchantFanIn as real, 10.0);
  }

  /** More exposure, peers, co-occurrences or fan-in never lower the score of a connected customer. */
  lemma ScoreMonotone(f: NodeFeatures, g: NodeFeatures)
    requires f.flaggedExposure <= g.flaggedExposure && f.coOccurrenceCount <= g.coOccurrenceCount
    requires f.sharedCounterpartyCount <= g.sharedCounterpartyCount && f.merchantFanIn <= g.merchantFanIn
    ensures RiskScore(f) <= RiskScore(g)
  {
    var a := MinReal(1.0, MaxReal(0.0, Blend(f)));
    var b := MinReal(1.0, MaxReal(0.0, Blend(g)));
    assert Blend(f) <= Blend(g);
    RoundToMonotone(0.0, b, 10000.0);
    RoundToMonotone(a, b, 10000.0);
  }

  /** A known customer is isolated exactly when its latest transaction is before the common cutoff. */
  lemma IsolatedExactly(log: set<Transaction>, cc: int, days: int)
    requires Own(log, cc) != {}
    ensures log != {}
    ensures FeaturesOf(log, cc, Some(days)) == ISOLATED <==> Latest(Own(log, cc)) < Latest(log) - days * DAY
  {
    WindowEmptyExactly(log, cc, days);
  }

  /** Another customer's activity alone isolates a customer: one transaction more than the window after
      the customer's own latest one. */
  lemma OthersIsolate(log: set<Transaction>, cc: int, other: Transaction, days: int)
    requires Own(log, cc) != {} && other.cc != cc
    requires other.timestamp > Latest(Own(log, cc)) + days * DAY
    ensures FeaturesOf(log + {other}, cc, Some(days)) == ISOLATED
    ensures RiskScore(FeaturesOf(log + {other}, cc, Some(days))) == 0.0
  {
    var longer := log + {other};
    assert Own(longer, cc) == Own(log, cc);
    WindowEmptyExactly(longer, cc, days);
    assert other in longer;
  }

  const FIRST_VISIT := Transaction("a", 1, "kiosk", 5.0, 0, false)
  const SECOND_VISIT := Transaction("b", 2, "kiosk", 5.0, 0, false)
  const LATER_VISIT := Transaction("c", 3, "mall", 5.0, 31 * DAY, false)

  /** Two customers at one merchant score; a third elsewhere a month later leaves them without a score,
      although the documented window still shows them to each other. */
  lemma NeighboursForgotten()
    ensures RiskScore(FeaturesOf({FIRST_VISIT, SECOND_VISIT}, 1, Some(30))) >= 0.065
    ensures RiskScore(FeaturesOf({FIRST_VISIT, SECOND_VISIT, LATER_VISIT}, 1, Some(30))) == 0.0
    ensures Own({FIRST_VISIT, SECOND_VISIT, LATER_VISIT}, 1) != {}
    ensures {FIRST_VISIT, SECOND_VISIT} <= Documented({FIRST_VISIT, SECOND_VISIT, LATER_VISIT}, 1, 30)
    ensures Reachable({FIRST_VISIT, SECOND_VISIT, LATER_VISIT})
  {
    TwoNeighbours(FIRST_VISIT, SECOND_VISIT);
    OwnOfFirst();
    OthersIsolate({FIRST_VISIT, SECOND_VISIT}, 1, LATER_VISIT, 30);
    assert {FIRST_VISIT, SECOND_VISIT} + {LATER_VISIT} == {FIRST_VISIT, SECOND_VISIT, LATER_VISIT};
    ReachableExactly({FIRST_VISIT, SECOND_VISIT, LATER_VISIT});
  }

  lemma OwnOfFirst()
    ensures Own({FIRST_VISIT, SECOND_VISIT}, 1) == {FIRST_VISIT} == Own({FIRST_VISIT, SECOND_VISIT, LATER_VISIT}, 1)
    ensures {FIRST_VISIT, SECOND_VISIT} <= Documented({FIRST_VISIT, SECOND_VISIT, LATER_VISIT}, 1, 30)
  {
  }

  lemma TwoNeighbours(a: Transaction, b: Transaction)
    requires a.merchant == b.merchant && a.cc != b.cc && a.timestamp == b.timestamp
    ensures RiskScore(FeaturesOf({a, b}, a.cc, Some(30))) >= 0.065
  {
    assert Window({a, b}, Some(30)) == {a, b};
    assert Linked({a, b}, a.cc, b.cc);
    ScoreAvailability({a, b}, a.cc, Some(30));
  }

  /** Members of a community within the cap report the same size and flagged ratio. */
  lemma ComponentStatsAgree(log: set<Transaction>, c: int, d: int, window: Option<int>)
    requires Askable(log, window)
    requires ClusterSize(log, c, window) <= COMMUNITY_MAX_NODES
    requires d in Community(Window(log, window), c)
    ensures ClusterSize(log, d, window) == ClusterSize(log, c, window)
    ensures ClusterFlaggedRatio(log, d, window) == ClusterFlaggedRatio(log, c, window)
  {
    CommunityPartition(Window(log, window), c, d);
  }

  /** Reordering a consistent log changes no feature and no score of anybody, in any window. */
  lemma FeaturesOrderFree(observed: seq<Transaction>, other: seq<Transaction>, cc: int, window: Option<int>)
    requires Consistent(observed) && multiset(other) == multiset(observed)
    requires Askable(Kept(Replay(map[], observed)), window)
    ensures Askable(Kept(Replay(map[], other)), window)
    ensures var a := FeaturesOf(Kept(Replay(map[], observed)), cc, window);
            var b := FeaturesOf(Kept(Replay(map[], other)), cc, window);
            a == b && RiskScore(a) == RiskScore(b)
  {
    OrderFreeIffConsistent(observed);
    assert Replay(map[], other) == Replay(map[], observed);
  }
}
