/** The two feature engines of the analyst pipeline
    (services/analyst_api/veripay_analyst_api/features.py and features16.py). */
module Features {
  import opened Wrappers
  import opened Rounding
  import opened Sorting
  import opened Profiles

  // ---------------------------------------------------------------- data

  /** `zoned` tells whether the timestamp came with a time zone; without one it is read as UTC. */
  datatype TransactionInput = TransactionInput(
    id: string, ccNum: int, amount: real, merchant: string, category: string, moment: Moment, zoned: bool,
    location: Option<GeoPoint>, merchantLocation: Option<GeoPoint>, mccRisk: real, deviceTrust: real,
    networkTrust: real, newDevice: real, impossibleTravel: real, modelFeatures: Option<map<string, real>>)
  {
    predicate InBounds() {
      && id != "" && ccNum >= 1 && amount >= 0.0 && merchant != ""
      && 0.0 <= mccRisk <= 1.0 && -1.0 <= deviceTrust <= 1.0 && -1.0 <= networkTrust <= 1.0
      && 0.0 <= newDevice <= 1.0 && 0.0 <= impossibleTravel <= 1.0
      && moment.hour <= 23 && moment.weekday <= 6
    }
  }

  /** The ten columns both models read. */
  datatype ModelVector = ModelVector(
    amountLog: real, mccRisk: real, velocity5m: real, deviceTrust: real, networkTrust: real,
    impossibleTravel: real, newDevice: real, hourOfDay: real, weekend: real, distanceKm: real)

  datatype Features16 = Features16(
    txnCount1h: real, txnCount24h: real, amtSum1h: real, amtSum24h: real, amtOverMedian90d: real,
    amtZscore90d: real, isNewMerchant: real, isNewCategory: real, daysSinceFirstSeenMerchant: real,
    distFromHomeKm: real, distFromPrevTxnKm: real, impliedVelocityKmh: real, hourOfDay: real, isNight: real,
    hoursSincePrevTxn: real, hourDeviationFromCustomerMode: real)

  /** What the rich engine uses of a customer's baseline; `hourMode` is -1 without one. */
  datatype Baseline = Baseline(median: real, mean: real, std: real, hourMode: int, count: nat)

  // ---------------------------------------------------------------- the earlier transactions

  function Before(now: int): StoredTransaction -> bool {
    (t: StoredTransaction) => t.moment.instant < now
  }

  function Prior(tx: TransactionInput, history: seq<StoredTransaction>): seq<StoredTransaction> {
    Filter(Before(tx.moment.instant), history)
  }

  function CountWithin(now: int, delta: int, ts: seq<StoredTransaction>): nat {
    if ts == [] then 0
    else
      CountWithin(now, delta, ts[..|ts| - 1])
      + if now - ts[|ts| - 1].moment.instant <= delta then 1 else 0
  }

  function AmountWithin(now: int, delta: int, ts: seq<StoredTransaction>): real {
    if ts == [] then 0.0
    else
      AmountWithin(now, delta, ts[..|ts| - 1])
      + if now - ts[|ts| - 1].moment.instant <= delta then ts[|ts| - 1].amount else 0.0
  }

  function AmountLog(ext: Externals, tx: TransactionInput): real {
    RoundTo(ext.log1p(MaxReal(0.0, tx.amount * 100.0)), 10000.0)
  }

  function Weekend(moment: Moment): real {
    if moment.weekday >= 5 then 1.0 else 0.0
  }

  // ---------------------------------------------------------------- the basic engine

  function DistanceKm(ext: Externals, tx: TransactionInput, home: Option<GeoPoint>): real {
    if tx.merchantLocation.None? then 0.0
    else if home.Some? then ext.haversine(home.value, tx.merchantLocation.value)
    else if tx.location.Some? then ext.haversine(tx.location.value, tx.merchantLocation.value)
    else 0.0
  }

  function BasicVector(ext: Externals, tx: TransactionInput, history: seq<StoredTransaction>): ModelVector {
    var prior := Prior(tx, history);
    ModelVector(
      AmountLog(ext, tx), RoundTo(tx.mccRisk, 10000.0),
      CountWithin(tx.moment.instant, 5 * MINUTE, prior) as real,
      tx.deviceTrust, tx.networkTrust, tx.impossibleTravel, tx.newDevice, tx.moment.hour as real,
      Weekend(tx.moment), RoundTo(DistanceKm(ext, tx, Centroid(prior)), 100.0))
  }

  method CentroidLocation(history: seq<StoredTransaction>) returns (home: Option<GeoPoint>)
    ensures home == Centroid(history)
  {
    var points: seq<GeoPoint> := [];
    for i := 0 to |history|
      invariant points == Points(history[..i])
    {
      assert history[..i + 1][..i] == history[..i];
      var point := if history[i].location.Some? then history[i].location else history[i].merchantLocation;
      if point.Some? {
        points := points + [point.value];
      }
    }
    assert history[..|history|] == history;
    if points == [] {
      return None;
    }
    return Some(MiddleOf(points));
  }

  /** Times with and without a zone cannot be compared, and stored times have one. */
  predicate Comparable(tx: TransactionInput, history: seq<StoredTransaction>) {
    tx.zoned || history == []
  }

  method BuildFeatures(ext: Externals, tx: TransactionInput, history: seq<StoredTransaction>)
    returns (v: Option<ModelVector>)
    ensures v == if Comparable(tx, history) then Some(BasicVector(ext, tx, history)) else None
  {
    if !tx.zoned && history != [] {
      return None;
    }
    var prior := Prior(tx, history);
    var velocity5m := CountWithin(tx.moment.instant, 5 * MINUTE, prior);
    var home := CentroidLocation(prior);
    var distanceKm := DistanceKm(ext, tx, home);
    return Some(
      ModelVector(
        AmountLog(ext, tx), RoundTo(tx.mccRisk, 10000.0), velocity5m as real, tx.deviceTrust, tx.networkTrust,
        tx.impossibleTravel, tx.newDevice, tx.moment.hour as real, Weekend(tx.moment), RoundTo(distanceKm, 100.0)));
  }

  // ---------------------------------------------------------------- the rich engine

  const KMH_CAP := 9999.0
  const ZSCORE_CLIP := 10.0

  function FirstSeen(merchant: string, ts: seq<StoredTransaction>): (t: Option<StoredTransaction>)
    ensures t.Some? ==> t.value in ts && t.value.merchant == merchant
  {
    if ts == [] then None
    else if ts[0].merchant == merchant then Some(ts[0])
    else FirstSeen(merchant, ts[1..])
  }

  function Distance(
      ext: Externals, home: Option<GeoPoint>, merchant: Option<GeoPoint>, card: Option<GeoPoint>): real
  {
    match (merchant, home, card)
    case (None, _, _) => 0.0
    case (Some(m), Some(h), _) => ext.haversine(h, m)
    case (Some(m), None, Some(c)) => ext.haversine(c, m)
    case (Some(_), None, None) => 0.0
  }

  function HourDeviation(hour: real, mode: int): real {
    if mode < 0 then 0.0
    else
      var diff := if hour < mode as real then mode as real - hour else hour - mode as real;
      MinReal(diff, 24.0 - diff)
  }

  function Zscore(amount: real, b: Baseline): real {
    var raw := if b.count > 0 && b.std > 0.0 then (amount - b.mean) / b.std else 0.0;
    MaxReal(-ZSCORE_CLIP, MinReal(ZSCORE_CLIP, raw))
  }

  function OverMedian(amount: real, b: Baseline): real {
    if b.count > 0 && b.median != 0.0 then RoundTo(amount / b.median, 10000.0) else 0.0
  }

  function HoursBetween(from: int, to: int): real {
    (to - from) as real / HOUR as real
  }

  function ImpliedVelocity(km: real, hours: real): real {
    MinReal(KMH_CAP, if hours > 0.0 && km > 0.0 then km / hours else 0.0)
  }

  function DistanceFromPrevious(ext: Externals, tx: TransactionInput, prior: seq<StoredTransaction>): real {
    var here := if tx.location.Some? then tx.location else tx.merchantLocation;
    if prior != [] && PointOf(prior[|prior| - 1]).Some? && here.Some? then
      ext.haversine(PointOf(prior[|prior| - 1]).value, here.value)
    else 0.0
  }

  function HoursSincePrevious(tx: TransactionInput, prior: seq<StoredTransaction>): real {
    if prior == [] then 0.0 else HoursBetween(prior[|prior| - 1].moment.instant, tx.moment.instant)
  }

  function DaysSinceFirstSeen(tx: TransactionInput, prior: seq<StoredTransaction>): real {
    match FirstSeen(tx.merchant, prior)
    case None => 0.0
    case Some(first) => RoundTo(((tx.moment.instant - first.moment.instant) / DAY) as real, 100.0)
  }

  function Compute16(
      ext: Externals, tx: TransactionInput, history: seq<StoredTransaction>, baseline: Baseline): Features16
  {
    var prior := Prior(tx, history);
    var now := tx.moment.instant;
    var km, hours := DistanceFromPrevious(ext, tx, prior), HoursSincePrevious(tx, prior);
    Features16(
      CountWithin(now, HOUR, prior) as real,
      CountWithin(now, 24 * HOUR, prior) as real,
      RoundTo(AmountWithin(now, HOUR, prior), 100.0),
      RoundTo(AmountWithin(now, 24 * HOUR, prior), 100.0),
      OverMedian(tx.amount, baseline),
      RoundTo(Zscore(tx.amount, baseline), 10000.0),
      if exists t <- prior :: t.merchant == tx.merchant then 0.0 else 1.0,
      if tx.category != "" && !(exists t <- prior :: t.category == tx.category) then 1.0 else 0.0,
      DaysSinceFirstSeen(tx, prior),
      RoundTo(Distance(ext, Centroid(prior), tx.merchantLocation, tx.location), 100.0),
      RoundTo(km, 100.0),
      RoundTo(ImpliedVelocity(km, hours), 100.0),
      tx.moment.hour as real,
      if 0 <= tx.moment.hour <= 5 then 1.0 else 0.0,
      RoundTo(hours, 100.0),
      RoundTo(HourDeviation(tx.moment.hour as real, if baseline.count > 0 then baseline.hourMode else -1), 100.0))
  }

  function MapToModel(
      ext: Externals, f: Features16, tx: TransactionInput, history: seq<StoredTransaction>): ModelVector
  {
    ModelVector(
      AmountLog(ext, tx), RoundTo(tx.mccRisk, 10000.0),
      CountWithin(tx.moment.instant, 5 * MINUTE, Prior(tx, history)) as real,
      tx.deviceTrust, tx.networkTrust, tx.impossibleTravel, tx.newDevice, f.hourOfDay,
      Weekend(tx.moment), f.distFromHomeKm)
  }

  function RichVector(
      ext: Externals, tx: TransactionInput, history: seq<StoredTransaction>, baseline: Baseline): ModelVector
  {
    MapToModel(ext, Compute16(ext, tx, history, baseline), tx, history)
  }

  // ---------------------------------------------------------------- one causal vector

  /** The three features that read the baseline aside, the features are the same. */
  predicate SameButBaseline(f: Features16, g: Features16) {
    f.(amtOverMedian90d := g.amtOverMedian90d, amtZscore90d := g.amtZscore90d,
       hourDeviationFromCustomerMode := g.hourDeviationFromCustomerMode) == g
  }

  lemma PriorOfStored(tx: TransactionInput, rows: seq<StoredTransaction>)
    ensures Prior(tx, Sorted(Instant, rows)) == Sorted(Instant, Filter(Before(tx.moment.instant), rows))
  {
    FilterSorted(Instant, Before(tx.moment.instant), rows);
  }

  lemma SamePrior(
      ext: Externals, tx: TransactionInput, h: seq<StoredTransaction>, k: seq<StoredTransaction>,
      b: Baseline, c: Baseline)
    requires Prior(tx, h) == Prior(tx, k)
    ensures BasicVector(ext, tx, h) == RichVector(ext, tx, k, c)
    ensures SameButBaseline(Compute16(ext, tx, h, b), Compute16(ext, tx, k, c))
    ensures b == c ==> Compute16(ext, tx, h, b) == Compute16(ext, tx, k, c)
  {
  }

  /** Both engines give one vector, whatever the baseline, and it depends on the stored rows only through
      those before the scored transaction: any others may be added, removed or moved. So do the features
      that read no baseline. */
  lemma OneCausalVector(
      ext: Externals, tx: TransactionInput, rows: seq<StoredTransaction>, others: seq<StoredTransaction>,
      b: Baseline, c: Baseline)
    requires Filter(Before(tx.moment.instant), rows) == Filter(Before(tx.moment.instant), others)
    ensures BasicVector(ext, tx, Sorted(Instant, rows)) == RichVector(ext, tx, Sorted(Instant, others), c)
    ensures SameButBaseline(
              Compute16(ext, tx, Sorted(Instant, rows), b), Compute16(ext, tx, Sorted(Instant, others), c))
    ensures b == c ==>
              Compute16(ext, tx, Sorted(Instant, rows), b) == Compute16(ext, tx, Sorted(Instant, others), c)
  {
    PriorOfStored(tx, rows);
    PriorOfStored(tx, others);
    SamePrior(ext, tx, Sorted(Instant, rows), Sorted(Instant, others), b, c);
  }

  /** A row at or after the scored transaction, stored anywhere, changes nothing. */
  lemma LaterRowIgnored(
      ext: Externals, tx: TransactionInput, before: seq<StoredTransaction>, late: StoredTransaction,
      after: seq<StoredTransaction>, b: Baseline)
    requires late.moment.instant >= tx.moment.instant
    ensures BasicVector(ext, tx, Sorted(Instant, before + [late] + after))
            == BasicVector(ext, tx, Sorted(Instant, before + after))
    ensures Compute16(ext, tx, Sorted(Instant, before + [late] + after), b)
            == Compute16(ext, tx, Sorted(Instant, before + after), b)
  {
    var keep := Before(tx.moment.instant);
    FilterSnoc(keep, before, late);
    FilterConcat(keep, before + [late], after);
    FilterConcat(keep, before, after);
    OneCausalVector(ext, tx, before + [late] + after, before + after, b, b);
    OneCausalVector(ext, tx, before + after, before + after, b, b);
  }

  // ---------------------------------------------------------------- relations between the features

  lemma {:induction false} WiderWindow(now: int, narrow: int, wide: int, ts: seq<StoredTransaction>)
    requires narrow <= wide
    ensures CountWithin(now, narrow, ts) <= CountWithin(now, wide, ts) <= |ts|
    ensures (forall i :: 0 <= i < |ts| ==> ts[i].amount >= 0.0) ==>
              AmountWithin(now, narrow, ts) <= AmountWithin(now, wide, ts)
    decreases |ts|
  {
    if ts != [] {
      WiderWindow(now, narrow, wide, ts[..|ts| - 1]);
    }
  }

  /** Wider windows hold more transactions and, without negative amounts, more money. */
  lemma WindowsNest(ext: Externals, tx: TransactionInput, history: seq<StoredTransaction>, b: Baseline)
    ensures var f := Compute16(ext, tx, history, b);
            && BasicVector(ext, tx, history).velocity5m <= f.txnCount1h <= f.txnCount24h
            && ((forall i :: 0 <= i < |history| ==> history[i].amount >= 0.0) ==> f.amtSum1h <= f.amtSum24h)
  {
    var now, prior := tx.moment.instant, Prior(tx, history);
    WiderWindow(now, 5 * MINUTE, HOUR, prior);
    WiderWindow(now, HOUR, 24 * HOUR, prior);
    if forall i :: 0 <= i < |history| ==> history[i].amount >= 0.0 {
      FilterKeeps(Before(now), history);
      forall i | 0 <= i < |prior|
        ensures prior[i].amount >= 0.0
      {
        assert prior[i] in prior && prior[i] in history;
      }
      RoundToMonotone(AmountWithin(now, HOUR, prior), AmountWithin(now, 24 * HOUR, prior), 100.0);
    }
  }

  lemma {:induction false} FirstSeenEarliest(merchant: string, ts: seq<StoredTransaction>)
    requires Ascending(Instant, ts)
    ensures FirstSeen(merchant, ts).Some? <==> exists t <- ts :: t.merchant == merchant
    ensures FirstSeen(merchant, ts).Some? ==>
              forall t <- ts :: t.merchant == merchant ==>
                FirstSeen(merchant, ts).value.moment.instant <= t.moment.instant
    decreases |ts|
  {
    if ts != [] {
      if ts[0].merchant == merchant {
        forall t | t in ts
          ensures ts[0].moment.instant <= t.moment.instant
        {
          var i :| 0 <= i < |ts| && ts[i] == t;
          assert i > 0 ==> Instant(ts[0]) <= Instant(ts[i]);
        }
      } else {
        FirstSeenEarliest(merchant, ts[1..]);
        assert forall t :: t in ts <==> t == ts[0] || t in ts[1..];
      }
    }
  }

  /** The earlier transactions come in order, and are exactly the stored ones before this one. */
  ghost predicate Earlier(prior: seq<StoredTransaction>, rows: seq<StoredTransaction>, now: int) {
    && Ascending(Instant, prior)
    && forall t :: t in prior <==> t in rows && t.moment.instant < now
  }

  lemma PriorIsEarlier(tx: TransactionInput, rows: seq<StoredTransaction>)
    ensures Earlier(Prior(tx, Sorted(Instant, rows)), rows, tx.moment.instant)
  {
    var kept := Filter(Before(tx.moment.instant), rows);
    PriorOfStored(tx, rows);
    FilterKeeps(Before(tx.moment.instant), rows);
    SortedOrders(Instant, kept);
    SortedMembers(Instant, kept);
    forall t
      ensures t in Sorted(Instant, kept) <==> t in rows && t.moment.instant < tx.moment.instant
    {
      assert t in kept <==> t in rows && Before(tx.moment.instant)(t);
    }
  }

  lemma DaysReachBack(tx: TransactionInput, prior: seq<StoredTransaction>, t: StoredTransaction)
    requires Ascending(Instant, prior) && t in prior && t.merchant == tx.merchant
    ensures ((tx.moment.instant - t.moment.instant) / DAY) as real <= DaysSinceFirstSeen(tx, prior)
  {
    FirstSeenEarliest(tx.merchant, prior);
    WholeDays(tx.moment.instant, FirstSeen(tx.merchant, prior).value.moment.instant, t.moment.instant);
  }

  /** Days since the merchant was first seen reach back to the customer's earliest transaction there. */
  lemma MerchantNovelty(
      ext: Externals, tx: TransactionInput, rows: seq<StoredTransaction>, b: Baseline, t: StoredTransaction)
    requires t in rows && t.moment.instant < tx.moment.instant && t.merchant == tx.merchant
    ensures Compute16(ext, tx, Sorted(Instant, rows), b).isNewMerchant == 0.0
    ensures ((tx.moment.instant - t.moment.instant) / DAY) as real
            <= Compute16(ext, tx, Sorted(Instant, rows), b).daysSinceFirstSeenMerchant
  {
    var prior := Prior(tx, Sorted(Instant, rows));
    PriorIsEarlier(tx, rows);
    assert t in prior;
    DaysReachBack(tx, prior, t);
  }

  /** A new merchant was never seen, and has no days. */
  lemma NewMerchantExactly(ext: Externals, tx: TransactionInput, rows: seq<StoredTransaction>, b: Baseline)
    ensures var f := Compute16(ext, tx, Sorted(Instant, rows), b);
            && (f.isNewMerchant == 1.0 <==>
                !(exists t <- rows :: t.moment.instant < tx.moment.instant && t.merchant == tx.merchant))
            && (f.isNewMerchant == 1.0 ==> f.daysSinceFirstSeenMerchant == 0.0)
  {
    var prior := Prior(tx, Sorted(Instant, rows));
    PriorIsEarlier(tx, rows);
    FirstSeenEarliest(tx.merchant, prior);
  }

  lemma WholeDays(now: int, first: int, later: int)
    requires first <= later
    ensures ((now - later) / DAY) as real <= RoundTo(((now - first) / DAY) as real, 100.0)
  {
    var days := (now - first) / DAY;
    assert (now - later) / DAY <= days;
    assert days as real * 100.0 == (days * 100) as real;
    RoundInteger(days * 100);
  }

  /** The capped and circular features stay in their ranges. */
  lemma FeatureRanges(ext: Externals, tx: TransactionInput, history: seq<StoredTransaction>, b: Baseline)
    requires tx.InBounds() && -1 <= b.hourMode <= 23
    ensures var f := Compute16(ext, tx, history, b);
            && -10.0 <= f.amtZscore90d <= 10.0
            && 0.0 <= f.impliedVelocityKmh <= KMH_CAP
            && 0.0 <= f.hourDeviationFromCustomerMode <= 12.0
            && (f.isNight == 1.0 <==> tx.moment.hour <= 5)
  {
    var prior := Prior(tx, history);
    RoundBetween(Zscore(tx.amount, b), -10, 10, 10000);
    SpeedRange(DistanceFromPrevious(ext, tx, prior), HoursSincePrevious(tx, prior));
    RoundBetween(
      ImpliedVelocity(DistanceFromPrevious(ext, tx, prior), HoursSincePrevious(tx, prior)), 0, 9999, 100);
    RoundBetween(
      HourDeviation(tx.moment.hour as real, if b.count > 0 then b.hourMode else -1), 0, 12, 100);
  }

  lemma SpeedRange(km: real, hours: real)
    ensures 0.0 <= ImpliedVelocity(km, hours) <= KMH_CAP
  {
  }

  /** The previous transaction is the latest earlier one, and always strictly in the past. */
  lemma PreviousIsLatest(tx: TransactionInput, rows: seq<StoredTransaction>, t: StoredTransaction)
    requires t in rows && t.moment.instant < tx.moment.instant
    ensures var prior := Prior(tx, Sorted(Instant, rows));
            && prior != [] && prior[|prior| - 1] in rows
            && t.moment.instant <= prior[|prior| - 1].moment.instant < tx.moment.instant
            && HoursSincePrevious(tx, prior) > 0.0
  {
    var prior := Prior(tx, Sorted(Instant, rows));
    PriorIsEarlier(tx, rows);
    LatestOf(tx, prior, t);
    assert prior[|prior| - 1] in prior;
  }

  lemma LatestOf(tx: TransactionInput, prior: seq<StoredTransaction>, t: StoredTransaction)
    requires Ascending(Instant, prior) && t in prior
    requires forall u <- prior :: u.moment.instant < tx.moment.instant
    ensures t.moment.instant <= prior[|prior| - 1].moment.instant < tx.moment.instant
    ensures HoursSincePrevious(tx, prior) > 0.0
  {
    LastIsLatest(prior, t);
    assert prior[|prior| - 1] in prior;
    ElapsedPositive(prior[|prior| - 1].moment.instant, tx.moment.instant);
  }

  lemma LastIsLatest(ts: seq<StoredTransaction>, t: StoredTransaction)
    requires Ascending(Instant, ts) && t in ts
    ensures t.moment.instant <= ts[|ts| - 1].moment.instant
  {
    var i :| 0 <= i < |ts| && ts[i] == t;
    assert i < |ts| - 1 ==> Instant(ts[i]) <= Instant(ts[|ts| - 1]);
  }

  lemma ElapsedPositive(from: int, to: int)
    requires from < to
    ensures HoursBetween(from, to) > 0.0
  {
  }

  // ---------------------------------------------------------------- the baseline the pipeline passes

  /** The most frequent hour, the one met first among equals. */
  function HourMode(ts: seq<StoredTransaction>): int
    requires ts != []
  {
    var hours := Hours(ts);
    Modal(hours, |hours|)
  }

  function Hours(ts: seq<StoredTransaction>): (r: seq<int>)
    ensures |r| == |ts|
  {
    seq(|ts|, i requires 0 <= i < |ts| => ts[i].moment.hour as int)
  }

  function Modal(hours: seq<int>, n: nat): int
    requires 0 < n <= |hours|
  {
    if n == 1 then hours[0]
    else
      var best := Modal(hours, n - 1);
      if multiset(hours)[hours[n - 1]] > multiset(hours)[best] then hours[n - 1] else best
  }

  function AmountOf(t: StoredTransaction): real {
    t.amount
  }

  function BaselineOf(ext: Externals, ts: seq<StoredTransaction>): Baseline {
    if ts == [] then Baseline(0.0, 0.0, 0.0, -1, 0)
    else
      Baseline(
        Median(Amounts(ts)), Sum(AmountOf, ts) / |ts| as real,
        if |ts| >= 2 then ext.stdev(Amounts(ts)) else 0.0, HourMode(ts), |ts|)
  }

  /** The rows the scored transaction's baseline is taken over. */
  function BaselineRows(tx: TransactionInput, rows: seq<StoredTransaction>): seq<StoredTransaction> {
    Within90(tx.moment.instant, Sorted(Instant, rows))
  }

  function Pipeline16(ext: Externals, tx: TransactionInput, rows: seq<StoredTransaction>): Features16 {
    Compute16(ext, tx, Sorted(Instant, rows), BaselineOf(ext, BaselineRows(tx, rows)))
  }

  /** The baseline is taken over earlier rows only exactly when no later one is stored: its window has no end. */
  lemma BaselineCausalExactly(tx: TransactionInput, rows: seq<StoredTransaction>)
    ensures BaselineRows(tx, rows) == BaselineRows(tx, Filter(Before(tx.moment.instant), rows)) <==>
            forall t <- rows :: t.moment.instant < tx.moment.instant
  {
    var now := tx.moment.instant;
    var earlier := Filter(Before(now), rows);
    FilterKeeps(Before(now), rows);
    SortedMembers(Instant, rows);
    SortedMembers(Instant, earlier);
    if forall t <- rows :: t.moment.instant < now {
      FilterAll(Before(now), rows);
    } else {
      var late :| late in rows && late.moment.instant >= now;
      Within90Exactly(now, Sorted(Instant, rows), late);
      Within90Exactly(now, Sorted(Instant, earlier), late);
      assert late in BaselineRows(tx, rows) && late !in BaselineRows(tx, earlier);
    }
  }

  lemma {:induction false} FilterAll<T>(keep: T -> bool, s: seq<T>)
    requires forall x <- s :: keep(x)
    ensures Filter(keep, s) == s
    decreases |s|
  {
    if s != [] {
      Unsnoc(s);
      FilterAll(keep, s[..|s| - 1]);
    }
  }

  /** A later transaction does reach the amount features through the baseline: with one at 30.00 stored
      after it, a transaction of 20.00 drops from twice the median to the median. */
  lemma LaterRowReachesBaseline(ext: Externals, tx: TransactionInput, early: StoredTransaction, late: StoredTransaction)
    requires tx.amount == 20.0 && early.amount == 10.0 && late.amount == 30.0
    requires early.moment.instant < tx.moment.instant <= late.moment.instant
    requires tx.moment.instant - early.moment.instant < 91 * DAY
    ensures Pipeline16(ext, tx, [early]).amtOverMedian90d == 2.0
    ensures Pipeline16(ext, tx, [early, late]).amtOverMedian90d == 1.0
  {
    BaselineOfOne(ext, tx, early);
    BaselineOfTwo(ext, tx, early, late);
    RoundToInteger(2, 10000);
    RoundToInteger(1, 10000);
  }

  lemma BaselineOfOne(ext: Externals, tx: TransactionInput, early: StoredTransaction)
    requires early.amount == 10.0 && early.moment.instant < tx.moment.instant
    requires tx.moment.instant - early.moment.instant < 91 * DAY
    ensures BaselineOf(ext, BaselineRows(tx, [early])).median == 10.0
    ensures BaselineOf(ext, BaselineRows(tx, [early])).count == 1
  {
    UsedInOrder(tx, [early]);
    assert Amounts([early]) == [10.0];
    MedianOfOne();
  }

  lemma BaselineOfTwo(ext: Externals, tx: TransactionInput, early: StoredTransaction, late: StoredTransaction)
    requires early.amount == 10.0 && late.amount == 30.0
    requires early.moment.instant < tx.moment.instant <= late.moment.instant
    requires tx.moment.instant - early.moment.instant < 91 * DAY
    ensures BaselineOf(ext, BaselineRows(tx, [early, late])).median == 20.0
    ensures BaselineOf(ext, BaselineRows(tx, [early, late])).count == 2
  {
    UsedInOrder(tx, [early, late]);
    assert Amounts([early, late]) == [10.0, 30.0];
    MedianOfTwo();
  }

  lemma UsedInOrder(tx: TransactionInput, ts: seq<StoredTransaction>)
    requires Ascending(Instant, ts)
    requires forall i :: 0 <= i < |ts| ==> tx.moment.instant - ts[i].moment.instant < 91 * DAY
    ensures BaselineRows(tx, ts) == ts
  {
    AlreadySorted(Instant, ts);
    AllWithin90(tx.moment.instant, ts);
  }

  lemma MedianOfOne()
    ensures Median([10.0]) == 10.0
  {
    AlreadySorted(Identity, [10.0]);
  }

  lemma MedianOfTwo()
    ensures Median([10.0, 30.0]) == 20.0
  {
    AlreadySorted(Identity, [10.0, 30.0]);
  }

  lemma AllWithin90(now: int, ts: seq<StoredTransaction>)
    requires forall i :: 0 <= i < |ts| ==> now - ts[i].moment.instant < 91 * DAY
    ensures Within90(now, ts) == ts
  {
    forall i | 0 <= i < |ts|
      ensures AgeInDays(now, ts[i]) <= 90
    {
      WholeDaysBelow(now - ts[i].moment.instant);
    }
    FilterAll(AgedWithin(now, 90), ts);
  }

  lemma WholeDaysBelow(span: int)
    requires span < 91 * DAY
    ensures span / DAY <= 90
  {
  }
}
