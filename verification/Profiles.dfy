/** The customer profile store (services/analyst_api/veripay_analyst_api/profiles.py): each customer's
    transactions and the analysts' verdicts, with the drift and trust derived from them. */
module Profiles {
  import opened Wrappers
  import opened Sorting

  // ---------------------------------------------------------------- data

  datatype GeoPoint = GeoPoint(lat: real, lon: real)

  /** A point in time in microseconds with its wall-clock hour, weekday (Monday is 0) and date. */
  datatype Moment = Moment(instant: int, hour: nat, weekday: nat, date: int)

  datatype Decision = BLOCK | REVIEW_STEALTH | REVIEW_UNUSUAL | PASS

  datatype StoredTransaction = StoredTransaction(
    id: string, ccNum: int, amount: real, merchant: string, category: string, moment: Moment,
    location: Option<GeoPoint>, merchantLocation: Option<GeoPoint>, decision: Decision)

  datatype StoredFeedback = StoredFeedback(id: string, ccNum: int, analystDecision: string, decision: Decision)

  /** Great-circle distance, standard deviation, logarithm, and the trimming and lower-casing of verdicts. */
  datatype Externals = Externals(
    haversine: (GeoPoint, GeoPoint) -> real, stdev: seq<real> -> real, log1p: real -> real,
    normalize: string -> string)

  const MINUTE := 60_000_000
  const HOUR := 60 * MINUTE
  const DAY := 24 * HOUR

  /** The store's contents. */
  datatype Store = Store(
    transactions: map<int, seq<StoredTransaction>>, feedback: seq<StoredFeedback>, customerByTx: map<string, int>)
  {
    /** A customer's transactions in the order they were added. */
    function Rows(ccNum: int): seq<StoredTransaction> {
      RowsIn(transactions, ccNum)
    }

    function WithTransaction(t: StoredTransaction): Store {
      Store(transactions[t.ccNum := Rows(t.ccNum) + [t]], feedback, customerByTx[t.id := t.ccNum])
    }

    function WithFeedback(f: StoredFeedback): Store {
      Store(transactions, feedback + [f], customerByTx)
    }

    /** A customer's transactions by time; equal times stay in the order they were added. */
    function History(ccNum: int): seq<StoredTransaction> {
      Sorted(Instant, Rows(ccNum))
    }

    /** A customer's verdicts, oldest first. */
    function Verdicts(ccNum: int): seq<string> {
      VerdictsIn(feedback, ccNum)
    }
  }

  function RowsIn(transactions: map<int, seq<StoredTransaction>>, ccNum: int): seq<StoredTransaction> {
    if ccNum in transactions then transactions[ccNum] else []
  }

  function Instant(t: StoredTransaction): real {
    t.moment.instant as real
  }

  function VerdictsIn(fs: seq<StoredFeedback>, ccNum: int): seq<string> {
    if fs == [] then []
    else
      VerdictsIn(fs[..|fs| - 1], ccNum)
      + if fs[|fs| - 1].ccNum == ccNum then [fs[|fs| - 1].analystDecision] else []
  }

  // ---------------------------------------------------------------- verdicts and trust

  predicate IsBenign(ext: Externals, verdict: string) {
    ext.normalize(verdict) in ["false_alarm", "false_positive", "customer_confirmed_legitimate", "legitimate"]
  }

  predicate IsConfirmedFraud(ext: Externals, verdict: string) {
    ext.normalize(verdict) in ["confirmed_fraud", "confirmed_fraud?"]
  }

  predicate AllBenign(ext: Externals, verdicts: seq<string>) {
    forall i :: 0 <= i < |verdicts| ==> IsBenign(ext, verdicts[i])
  }

  predicate AnyConfirmed(ext: Externals, verdicts: seq<string>) {
    exists i :: 0 <= i < |verdicts| && IsConfirmedFraud(ext, verdicts[i])
  }

  /** `s[-n:]` for any integer `n`: the whole sequence for zero, all but the first `-n` below. */
  function LastSlice<T>(s: seq<T>, n: int): seq<T> {
    if n > 0 then (if n >= |s| then s else s[|s| - n..])
    else if -n >= |s| then [] else s[-n..]
  }

  predicate RecentBenign(ext: Externals, verdicts: seq<string>, window: int) {
    |verdicts| >= window && AllBenign(ext, LastSlice(verdicts, window))
  }

  datatype TrustLevel = NORMAL | BOOSTED | ALERT

  function TrustStatus(ext: Externals, verdicts: seq<string>, window: int): TrustLevel {
    if AnyConfirmed(ext, verdicts) then ALERT
    else if RecentBenign(ext, verdicts, window) then BOOSTED
    else NORMAL
  }

  /** One more verdict: trust is boosted by it exactly when it and the `window - 1` before it are benign
      and fraud was never confirmed. */
  lemma BoostedExactly(ext: Externals, verdicts: seq<string>, last: string, window: int)
    requires window > 0
    ensures TrustStatus(ext, verdicts + [last], window) == BOOSTED <==>
            && IsBenign(ext, last)
            && (window == 1 || RecentBenign(ext, verdicts, window - 1))
            && !AnyConfirmed(ext, verdicts + [last])
  {
    var all := verdicts + [last];
    if |all| >= window {
      var before := if window == 1 then [] else LastSlice(verdicts, window - 1);
      assert LastSlice(all, window) == before + [last];
      BenignSnoc(ext, before, last);
    }
  }

  lemma BenignSnoc(ext: Externals, verdicts: seq<string>, last: string)
    ensures AllBenign(ext, verdicts + [last]) <==> AllBenign(ext, verdicts) && IsBenign(ext, last)
  {
    var all := verdicts + [last];
    if AllBenign(ext, all) {
      assert IsBenign(ext, all[|verdicts|]);
      forall i | 0 <= i < |verdicts|
        ensures IsBenign(ext, verdicts[i])
      {
        assert IsBenign(ext, all[i]);
      }
    }
  }

  // ---------------------------------------------------------------- windows and baselines

  function Since(cutoff: int): StoredTransaction -> bool {
    (t: StoredTransaction) => t.moment.instant >= cutoff
  }

  function AgedWithin(now: int, days: int): StoredTransaction -> bool {
    (t: StoredTransaction) => AgeInDays(now, t) <= days
  }

  function Recent(history: seq<StoredTransaction>, days: int): seq<StoredTransaction> {
    if history == [] then []
    else
      var cutoff := history[|history| - 1].moment.instant - days * DAY;
      Filter(Since(cutoff), history)
  }

  /** Whole days from `t` to `now`, rounded down. */
  function AgeInDays(now: int, t: StoredTransaction): int {
    (now - t.moment.instant) / DAY
  }

  /** The transactions at most ninety whole days old, seen from `now`. */
  function Within90(now: int, history: seq<StoredTransaction>): seq<StoredTransaction> {
    Filter(AgedWithin(now, 90), history)
  }

  function LongTerm(history: seq<StoredTransaction>): seq<StoredTransaction> {
    if history == [] then [] else Within90(history[|history| - 1].moment.instant, history)
  }

  /** Rounding days down, the ninety-day window reaches back almost ninety-one, and it has no end. */
  lemma Within90Exactly(now: int, history: seq<StoredTransaction>, t: StoredTransaction)
    ensures t in Within90(now, history) <==> t in history && now - t.moment.instant < 91 * DAY
  {
    FilterKeeps(AgedWithin(now, 90), history);
    assert AgeInDays(now, t) <= 90 <==> now - t.moment.instant < 91 * DAY;
  }

  lemma RecentExactly(history: seq<StoredTransaction>, days: int, t: StoredTransaction)
    requires history != []
    ensures t in Recent(history, days) <==>
            t in history && history[|history| - 1].moment.instant - t.moment.instant <= days * DAY
  {
    FilterKeeps(Since(history[|history| - 1].moment.instant - days * DAY), history);
  }

  /** Recent behaviour is always part of the long-term baseline it is compared with. */
  lemma RecentInLongTerm(history: seq<StoredTransaction>, days: int, t: StoredTransaction)
    requires days <= 90 && t in Recent(history, days)
    ensures t in LongTerm(history)
  {
    RecentExactly(history, days, t);
    FewerDays(days);
    Within90Exactly(history[|history| - 1].moment.instant, history, t);
  }

  lemma FewerDays(days: int)
    requires days <= 90
    ensures days * DAY < 91 * DAY
  {
  }

  function PointOf(t: StoredTransaction): Option<GeoPoint> {
    if t.location.Some? then t.location else t.merchantLocation
  }

  function Points(ts: seq<StoredTransaction>): seq<GeoPoint> {
    if ts == [] then []
    else
      Points(ts[..|ts| - 1])
      + if PointOf(ts[|ts| - 1]).Some? then [PointOf(ts[|ts| - 1]).value] else []
  }

  function Sum<T>(part: T -> real, s: seq<T>): real {
    if s == [] then 0.0 else Sum(part, s[..|s| - 1]) + part(s[|s| - 1])
  }

  function MiddleOf(points: seq<GeoPoint>): GeoPoint
    requires points != []
  {
    GeoPoint(
      Sum((p: GeoPoint) => p.lat, points) / |points| as real, Sum((p: GeoPoint) => p.lon, points) / |points| as real)
  }

  function Centroid(ts: seq<StoredTransaction>): Option<GeoPoint> {
    var points := Points(ts);
    if points == [] then None else Some(MiddleOf(points))
  }

  function Identity(x: real): real {
    x
  }

  function Median(values: seq<real>): real
    requires values != []
  {
    SortedOrders(Identity, values);
    var sorted := Sorted(Identity, values);
    var half := |values| / 2;
    if |values| % 2 == 1 then sorted[half] else (sorted[half - 1] + sorted[half]) / 2.0
  }

  function Amounts(ts: seq<StoredTransaction>): (r: seq<real>)
    ensures |r| == |ts|
  {
    seq(|ts|, i requires 0 <= i < |ts| => ts[i].amount)
  }

  /** The median lies between the smallest and the largest value. */
  lemma MedianBetween(values: seq<real>, lo: real, hi: real)
    requires values != []
    requires forall i :: 0 <= i < |values| ==> lo <= values[i] <= hi
    ensures lo <= Median(values) <= hi
  {
    SortedOrders(Identity, values);
    SortedMembers(Identity, values);
    var sorted := Sorted(Identity, values);
    forall i | 0 <= i < |sorted|
      ensures lo <= sorted[i] <= hi
    {
      assert sorted[i] in sorted && sorted[i] in values;
    }
  }

  // ---------------------------------------------------------------- drift

  datatype Drift = SuddenDrift(red: bool) | GradualDrift(spending: bool, relocated: bool)

  /** Two transactions within fifteen minutes and at least 250 km apart. */
  predicate Jump(ext: Externals, from: StoredTransaction, to: StoredTransaction) {
    && to.moment.instant - from.moment.instant <= 15 * MINUTE
    && PointOf(from).Some? && PointOf(to).Some?
    && ext.haversine(PointOf(from).value, PointOf(to).value) >= 250.0
  }

  function JumpLength(ext: Externals, from: StoredTransaction, to: StoredTransaction): real
    requires Jump(ext, from, to)
  {
    ext.haversine(PointOf(from).value, PointOf(to).value)
  }

  /** Position of the first jump between neighbours. */
  function FirstJump(ext: Externals, ts: seq<StoredTransaction>): (i: Option<nat>)
    ensures i.Some? ==> i.value + 1 < |ts| && Jump(ext, ts[i.value], ts[i.value + 1])
    ensures i.Some? ==> forall j :: 0 <= j < i.value ==> !Jump(ext, ts[j], ts[j + 1])
    ensures i.None? ==> forall j :: 0 <= j && j + 1 < |ts| ==> !Jump(ext, ts[j], ts[j + 1])
  {
    if |ts| < 2 then None
    else
      var n := |ts| - 1;
      var earlier := FirstJump(ext, ts[..n]);
      if earlier.Some? then earlier
      else if Jump(ext, ts[n - 1], ts[n]) then Some(n - 1)
      else
        assert forall j :: 0 <= j && j + 1 < n ==> !Jump(ext, ts[..n][j], ts[..n][j + 1]);
        None
  }

  predicate SpendingChanged(recent: seq<StoredTransaction>, longTerm: seq<StoredTransaction>)
    requires recent != [] && longTerm != []
  {
    var before, now := Median(Amounts(longTerm)), Median(Amounts(recent));
    before != 0.0 && !(0.5 <= now / before <= 2.0)
  }

  predicate Relocated(ext: Externals, recent: seq<StoredTransaction>, longTerm: seq<StoredTransaction>) {
    var now, before := Centroid(recent), Centroid(longTerm);
    now.Some? && before.Some? && ext.haversine(now.value, before.value) >= 100.0
  }

  function Gradual(ext: Externals, recent: seq<StoredTransaction>, longTerm: seq<StoredTransaction>): Option<Drift> {
    if |recent| < 5 || |longTerm| < 5 then None
    else
      var spending, relocated := SpendingChanged(recent, longTerm), Relocated(ext, recent, longTerm);
      if spending || relocated then Some(GradualDrift(spending, relocated)) else None
  }

  function DriftOf(ext: Externals, history: seq<StoredTransaction>): Option<Drift> {
    if |history| < 5 then None
    else
      var recent := Recent(history, 30);
      match FirstJump(ext, recent)
      case Some(i) => Some(SuddenDrift(JumpLength(ext, recent[i], recent[i + 1]) >= 1000.0))
      case None => Gradual(ext, recent, LongTerm(history))
  }

  /** Sudden drift hides gradual drift, and both need five transactions. */
  lemma DriftExactly(ext: Externals, history: seq<StoredTransaction>)
    ensures var recent := Recent(history, 30);
            var jumps := exists i :: 0 <= i && i + 1 < |recent| && Jump(ext, recent[i], recent[i + 1]);
            && (DriftOf(ext, history).Some? && DriftOf(ext, history).value.SuddenDrift? <==>
                |history| >= 5 && jumps)
            && (DriftOf(ext, history).Some? && DriftOf(ext, history).value.GradualDrift? <==>
                && |history| >= 5 && !jumps && |recent| >= 5
                && (SpendingChanged(recent, LongTerm(history)) || Relocated(ext, recent, LongTerm(history))))
  {
    if |history| >= 5 {
      var recent := Recent(history, 30);
      RecentIsShorter(history);
      var jump := FirstJump(ext, recent);
      if jump.Some? {
        assert Jump(ext, recent[jump.value], recent[jump.value + 1]);
      }
    }
  }

  lemma RecentIsShorter(history: seq<StoredTransaction>)
    ensures |Recent(history, 30)| <= |LongTerm(history)|
  {
    if history != [] {
      var last := history[|history| - 1].moment.instant;
      FilterNested(Since(last - 30 * DAY), AgedWithin(last, 90), history);
    }
  }

  lemma {:induction false} FilterNested<T>(fewer: T -> bool, more: T -> bool, s: seq<T>)
    requires forall i :: 0 <= i < |s| && fewer(s[i]) ==> more(s[i])
    ensures |Filter(fewer, s)| <= |Filter(more, s)|
  {
    if s != [] {
      FilterNested(fewer, more, s[..|s| - 1]);
    }
  }

  // ---------------------------------------------------------------- the store object

  class ProfileStore {
    var transactions: map<int, seq<StoredTransaction>>
    var feedback: seq<StoredFeedback>
    var customerByTx: map<string, int>

    constructor ()
      ensures View() == Store(map[], [], map[])
    {
      transactions, feedback, customerByTx := map[], [], map[];
    }

    function View(): Store
      reads this
    {
      Store(transactions, feedback, customerByTx)
    }

    method AddTransaction(t: StoredTransaction)
      modifies this
      ensures View() == old(View()).WithTransaction(t)
    {
      if t.ccNum !in transactions {
        transactions := transactions[t.ccNum := []];
      }
      transactions := transactions[t.ccNum := transactions[t.ccNum] + [t]];
      customerByTx := customerByTx[t.id := t.ccNum];
    }

    method RecordFeedback(f: StoredFeedback)
      modifies this
      ensures View() == old(View()).WithFeedback(f)
    {
      feedback := feedback + [f];
    }

    method DetectDrift(ext: Externals, ccNum: int) returns (drift: Option<Drift>)
      ensures drift == DriftOf(ext, View().History(ccNum))
    {
      drift := FindDrift(ext, View().History(ccNum));
    }
  }

  /** Looks at the neighbours one after the other and stops at the first jump. */
  method FindDrift(ext: Externals, history: seq<StoredTransaction>) returns (drift: Option<Drift>)
    ensures drift == DriftOf(ext, history)
  {
    if |history| < 5 {
      return None;
    }
    var recent := Recent(history, 30);
    var i := 0;
    while i + 1 < |recent|
      invariant 0 <= i
      invariant forall j :: 0 <= j < i && j + 1 < |recent| ==> !Jump(ext, recent[j], recent[j + 1])
    {
      if Jump(ext, recent[i], recent[i + 1]) {
        return Some(SuddenDrift(JumpLength(ext, recent[i], recent[i + 1]) >= 1000.0));
      }
      i := i + 1;
    }
    return Gradual(ext, recent, LongTerm(history));
  }
}
