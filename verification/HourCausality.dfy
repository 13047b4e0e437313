/** Which histories can let a later transaction into `hour_deviation_from_customer_mode`
    (services/analyst_api/veripay_analyst_api/profiles.py and features16.py). */
module HourCausality {
  import opened Rounding
  import opened Sorting
  import opened Profiles
  import opened Features
  import opened BaselineCausality

  /** The row at another hour. */
  function Moved(t: StoredTransaction, hour: nat): StoredTransaction {
    t.(moment := t.moment.(hour := hour))
  }

  /** The history with other wall-clock hours at the same instants, as in other time zones. */
  function Retimed(rows: seq<StoredTransaction>, hours: seq<nat>): (r: seq<StoredTransaction>)
    requires |hours| == |rows|
    ensures |r| == |rows|
  {
    seq(|rows|, i requires 0 <= i < |rows| => Moved(rows[i], hours[i]))
  }

  predicate OnTheClock(hours: seq<nat>) {
    forall i :: 0 <= i < |hours| ==> hours[i] < 24
  }

  /** Whatever the hours were, the deviation is the one over the earlier rows alone. */
  ghost predicate DeviationCausal(ext: Externals, tx: TransactionInput, rows: seq<StoredTransaction>) {
    forall hours: seq<nat> | |hours| == |rows| && OnTheClock(hours) :: SameDeviation(ext, tx, Retimed(rows, hours))
  }

  predicate SameDeviation(ext: Externals, tx: TransactionInput, rows: seq<StoredTransaction>) {
    Pipeline16(ext, tx, rows).hourDeviationFromCustomerMode
    == Pipeline16(ext, tx, Filter(Before(tx.moment.instant), rows)).hourDeviationFromCustomerMode
  }

  function NotBefore(now: int): StoredTransaction -> bool {
    (t: StoredTransaction) => t.moment.instant >= now
  }

  function At(hour: int): StoredTransaction -> bool {
    (t: StoredTransaction) => t.moment.hour == hour
  }

  // ---------------------------------------------------------------- the most frequent hour

  lemma {:induction false} ModalMost(hours: seq<int>, n: nat)
    requires 0 < n <= |hours|
    ensures Modal(hours, n) in hours[..n]
    ensures forall i :: 0 <= i < n ==> multiset(hours)[hours[i]] <= multiset(hours)[Modal(hours, n)]
  {
    if n > 1 {
      ModalMost(hours, n - 1);
    }
  }

  lemma {:induction false} HoursCounted(ts: seq<StoredTransaction>, hour: int)
    ensures multiset(Hours(ts))[hour] == |Filter(At(hour), ts)|
    decreases |ts|
  {
    if ts != [] {
      var n := |ts| - 1;
      HoursCounted(ts[..n], hour);
      assert Hours(ts) == Hours(ts[..n]) + [ts[n].moment.hour as int];
    }
  }

  /** The mode is the hour of some row, and no hour has more rows. */
  lemma ModeMost(ts: seq<StoredTransaction>, hour: int)
    requires ts != []
    ensures exists t <- ts :: t.moment.hour == HourMode(ts)
    ensures |Filter(At(hour), ts)| <= |Filter(At(HourMode(ts)), ts)|
  {
    var hours := Hours(ts);
    ModalMost(hours, |hours|);
    HoursCounted(ts, hour);
    HoursCounted(ts, HourMode(ts));
    var i :| 0 <= i < |hours| && hours[i] == HourMode(ts);
    assert ts[i] in ts;
    if hour in hours {
      var j :| 0 <= j < |hours| && hours[j] == hour;
    }
  }

  lemma SortedFilterSize(keep: StoredTransaction -> bool, ts: seq<StoredTransaction>)
    ensures |Filter(keep, Sorted(Instant, ts))| == |Filter(keep, ts)|
  {
    FilterSorted(Instant, keep, ts);
    SortedOrders(Instant, Filter(keep, ts));
  }

  /** The rows of the two baselines, with and without the later rows, before they are sorted. */
  function Used(now: int, rows: seq<StoredTransaction>): seq<StoredTransaction> {
    Filter(AgedWithin(now, 90), rows)
  }

  lemma SortedUsed(tx: TransactionInput, rows: seq<StoredTransaction>)
    ensures BaselineRows(tx, rows) == Sorted(Instant, Used(tx.moment.instant, rows))
    ensures BaselineRows(tx, Filter(Before(tx.moment.instant), rows))
            == Sorted(Instant, Filter(EarlyWithin(tx.moment.instant), rows))
  {
    var now := tx.moment.instant;
    FilterSorted(Instant, AgedWithin(now, 90), rows);
    FilterSorted(Instant, AgedWithin(now, 90), Filter(Before(now), rows));
    FilterBoth(Before(now), AgedWithin(now, 90), rows);
  }

  predicate LaterAt(now: int, rows: seq<StoredTransaction>, late: int) {
    forall i :: 0 <= i < |rows| && NotBefore(now)(rows[i]) ==> rows[i].moment.hour == late
  }

  /** When all later rows are at one hour, they add to the count of that hour only. */
  lemma {:induction false} LaterCounts(now: int, rows: seq<StoredTransaction>, late: int, hour: int)
    requires LaterAt(now, rows, late)
    ensures |Filter(At(hour), Used(now, rows))|
            == |Filter(At(hour), Filter(EarlyWithin(now), rows))|
               + if hour == late then |Filter(NotBefore(now), rows)| else 0
    decreases |rows|
  {
    if rows != [] {
      var front, last := rows[..|rows| - 1], rows[|rows| - 1];
      Unsnoc(rows);
      LaterCounts(now, front, late, hour);
      FilterSnoc(AgedWithin(now, 90), front, last);
      FilterSnoc(EarlyWithin(now), front, last);
      FilterSnoc(NotBefore(now), front, last);
      FilterSnoc(At(hour), Used(now, front), last);
      FilterSnoc(At(hour), Filter(EarlyWithin(now), front), last);
      LaterAge(now, last);
    }
  }

  lemma LaterAge(now: int, t: StoredTransaction)
    ensures NotBefore(now)(t) ==> AgedWithin(now, 90)(t)
  {
  }

  /** Enough later rows at one hour make that the mode. */
  lemma LaterMode(tx: TransactionInput, rows: seq<StoredTransaction>, late: int)
    requires var now := tx.moment.instant;
             && LaterAt(now, rows, late)
             && TakesOver(Filter(EarlyWithin(now), rows), late, |Filter(NotBefore(now), rows)|)
    ensures BaselineRows(tx, rows) != [] && HourMode(BaselineRows(tx, rows)) == late
  {
    var now, base := tx.moment.instant, BaselineRows(tx, rows);
    SortedUsed(tx, rows);
    LaterCounts(now, rows, late, late);
    SortedFilterSize(At(late), Used(now, rows));
    assert base != [];
    var mode := HourMode(base);
    ModeMost(base, late);
    LaterCounts(now, rows, late, mode);
    SortedFilterSize(At(mode), Used(now, rows));
    assert |Filter(At(mode), Filter(EarlyWithin(now), rows))|
           < |Filter(At(late), Filter(EarlyWithin(now), rows))| + |Filter(NotBefore(now), rows)|;
  }

  // ---------------------------------------------------------------- three neighbouring hours

  /** The hour `k` hours later. */
  function Clock(hour: nat, k: nat): nat {
    (hour + k) % 24
  }

  /** Three different hours. */
  datatype Hours3 = Hours3(x: nat, y: nat, z: nat)
  {
    predicate Different() {
      x != y && x != z && y != z
    }

    predicate Has(hour: int) {
      hour == x || hour == y || hour == z
    }
  }

  /** The transaction's hour and the two after it. */
  function Around(hour: nat): Hours3 {
    Hours3(Clock(hour, 0), Clock(hour, 1), Clock(hour, 2))
  }

  lemma AroundIs(hour: nat)
    requires hour < 24
    ensures var three := Around(hour);
            && three.Different() && three.x < 24 && three.y < 24 && three.z < 24
            && Gap(hour, three.x) == 0.0 && Gap(hour, three.y) == 1.0 && Gap(hour, three.z) == 2.0
  {
    GapIs(hour, 0);
    GapIs(hour, 1);
    GapIs(hour, 2);
  }

  predicate OfThree(three: Hours3, hours: seq<nat>) {
    forall i :: 0 <= i < |hours| ==> three.Has(hours[i])
  }

  /** What the deviation of a transaction at `hour` from that mode is. */
  function Gap(hour: nat, mode: int): real {
    RoundTo(HourDeviation(hour as real, mode), 100.0)
  }

  lemma GapIs(hour: nat, k: nat)
    requires hour < 24 && k < 3
    ensures Gap(hour, Clock(hour, k)) == k as real
  {
    assert HourDeviation(hour as real, Clock(hour, k)) == k as real;
    RoundToInteger(k, 100);
  }

  lemma DeviationIs(ext: Externals, tx: TransactionInput, rows: seq<StoredTransaction>)
    ensures var base := BaselineRows(tx, rows);
            Pipeline16(ext, tx, rows).hourDeviationFromCustomerMode
            == if base == [] then 0.0 else Gap(tx.moment.hour, HourMode(base))
  {
    RoundToInteger(0, 100);
  }

  lemma {:induction false} RetimedFilter(
      keep: StoredTransaction -> bool, rows: seq<StoredTransaction>, hours: seq<nat>)
    requires |hours| == |rows|
    requires forall t: StoredTransaction, h: nat :: keep(Moved(t, h)) == keep(t)
    ensures |Filter(keep, Retimed(rows, hours))| == |Filter(keep, rows)|
    decreases |rows|
  {
    if rows != [] {
      var n := |rows| - 1;
      RetimedFilter(keep, rows[..n], hours[..n]);
      assert Retimed(rows, hours)[..n] == Retimed(rows[..n], hours[..n]);
    }
  }

  /** The earlier rows of the baseline, at these hours. */
  function EarlyAt(now: int, rows: seq<StoredTransaction>, hours: seq<nat>): seq<StoredTransaction>
    requires |hours| == |rows|
  {
    Filter(EarlyWithin(now), Retimed(rows, hours))
  }

  lemma EarlyLast(now: int, rows: seq<StoredTransaction>, hours: seq<nat>)
    requires |hours| == |rows| > 0
    ensures var n := |rows| - 1;
            EarlyAt(now, rows, hours)
            == if EarlyWithin(now)(rows[n]) then EarlyAt(now, rows[..n], hours[..n]) + [Moved(rows[n], hours[n])]
               else EarlyAt(now, rows[..n], hours[..n])
  {
    var n := |rows| - 1;
    RetimedLast(rows, hours);
    FilterSnoc(EarlyWithin(now), Retimed(rows[..n], hours[..n]), Moved(rows[n], hours[n]));
    MovedEarly(now, rows[n], hours[n]);
  }

  lemma RetimedLast(rows: seq<StoredTransaction>, hours: seq<nat>)
    requires |hours| == |rows| > 0
    ensures var n := |rows| - 1;
            Retimed(rows, hours) == Retimed(rows[..n], hours[..n]) + [Moved(rows[n], hours[n])]
  {
  }

  lemma MovedEarly(now: int, t: StoredTransaction, hour: nat)
    ensures EarlyWithin(now)(Moved(t, hour)) == EarlyWithin(now)(t)
  {
  }

  predicate Spread(three: Hours3, early: seq<StoredTransaction>, a: nat, b: nat, c: nat) {
    && |Filter(At(three.x), early)| == a && |Filter(At(three.y), early)| == b && |Filter(At(three.z), early)| == c
  }

  lemma SpreadSnoc(three: Hours3, early: seq<StoredTransaction>, a: nat, b: nat, c: nat, last: StoredTransaction)
    requires three.Different() && Spread(three, early, a, b, c)
    ensures last.moment.hour == three.x ==> Spread(three, early + [last], a + 1, b, c)
    ensures last.moment.hour == three.y ==> Spread(three, early + [last], a, b + 1, c)
    ensures last.moment.hour == three.z ==> Spread(three, early + [last], a, b, c + 1)
  {
    FilterSnoc(At(three.x), early, last);
    FilterSnoc(At(three.y), early, last);
    FilterSnoc(At(three.z), early, last);
  }

  function One(counts: bool): nat {
    if counts then 1 else 0
  }

  lemma SpreadLast(
      now: int, rows: seq<StoredTransaction>, three: Hours3, before: seq<nat>, hour: nat, a: nat, b: nat, c: nat)
    requires |rows| == |before| + 1 && three.Different() && three.Has(hour)
    requires Spread(three, EarlyAt(now, rows[..|before|], before), a, b, c)
    ensures var early := EarlyWithin(now)(rows[|before|]);
            Spread(
              three, EarlyAt(now, rows, before + [hour]), a + One(early && hour == three.x),
              b + One(early && hour == three.y), c + One(early && hour == three.z))
  {
    var last := rows[|before|];
    assert (before + [hour])[..|before|] == before;
    EarlyLast(now, rows, before + [hour]);
    SpreadSnoc(three, EarlyAt(now, rows[..|before|], before), a, b, c, Moved(last, hour));
  }

  lemma ThreeLast(three: Hours3, before: seq<nat>, hour: nat)
    requires OfThree(three, before) && three.Has(hour)
    ensures OfThree(three, before + [hour])
  {
  }

  /** Spread the earlier rows of the baseline over three hours, as many in each as wanted. */
  lemma {:induction false} Spreading(now: int, rows: seq<StoredTransaction>, three: Hours3, a: nat, b: nat, c: nat)
    returns (hours: seq<nat>)
    requires three.Different() && a + b + c == |Filter(EarlyWithin(now), rows)|
    ensures |hours| == |rows| && OfThree(three, hours)
    ensures Spread(three, EarlyAt(now, rows, hours), a, b, c)
    decreases |rows|
  {
    hours := [];
    if rows != [] {
      var n := |rows| - 1;
      var early := EarlyWithin(now)(rows[n]);
      var hour := if a > 0 then three.x else if b > 0 then three.y else three.z;
      var before := Spreading(
        now, rows[..n], three, a - One(early && hour == three.x), b - One(early && hour == three.y),
        c - One(early && hour == three.z));
      ThreeLast(three, before, hour);
      SpreadLast(
        now, rows, three, before, hour, a - One(early && hour == three.x), b - One(early && hour == three.y),
        c - One(early && hour == three.z));
      hours := before + [hour];
    }
  }

  // ---------------------------------------------------------------- an hour that takes over

  predicate AtThree(three: Hours3, ts: seq<StoredTransaction>) {
    forall t <- ts :: three.Has(t.moment.hour)
  }

  /** The mode of rows spread over three hours is one of these, and no hour has more rows. */
  lemma SpreadMode(three: Hours3, early: seq<StoredTransaction>) returns (mode: int)
    requires early != [] && AtThree(three, early)
    ensures three.Has(mode) && Sorted(Instant, early) != [] && HourMode(Sorted(Instant, early)) == mode
    ensures forall h :: |Filter(At(h), early)| <= |Filter(At(mode), early)|
  {
    var sorted := Sorted(Instant, early);
    SortedOrders(Instant, early);
    SortedMembers(Instant, early);
    mode := HourMode(sorted);
    ModeMost(sorted, 0);
    var t :| t in sorted && t.moment.hour == mode;
    assert t in early;
    forall h
      ensures |Filter(At(h), early)| <= |Filter(At(mode), early)|
    {
      ModeMost(sorted, h);
      SortedFilterSize(At(h), early);
      SortedFilterSize(At(mode), early);
    }
  }

  /** Another hour that `later` more rows make the mode, unless there is one row and one more. */
  lemma LateHour(hour: nat, three: Hours3, early: seq<StoredTransaction>, later: nat) returns (late: nat)
    requires three.Different() && Gap(hour, three.x) == 0.0 && Gap(hour, three.y) == 1.0 && Gap(hour, three.z) == 2.0
    requires AtThree(three, early) && Spread(three, early, |early| / 2, |early| / 2, |early| % 2)
    requires later > 0 && !(|early| == 1 && later == 1)
    ensures three.Has(late) && TakesOver(early, late, later)
    ensures early == [] ==> Gap(hour, late) != 0.0
    ensures early != [] ==>
              Sorted(Instant, early) != [] && Gap(hour, HourMode(Sorted(Instant, early))) != Gap(hour, late)
  {
    late := three.y;
    if early != [] {
      var mode := SpreadMode(three, early);
      late := if mode == three.x then three.y else three.x;
      Majority(|early|, |Filter(At(mode), early)|, later);
      assert |Filter(At(three.z), early)| <= |Filter(At(mode), early)|;
    }
  }

  /** Half the rows and `later` more are more than any of two halves and a rest. */
  lemma Majority(size: nat, most: nat, later: nat)
    requires most == size / 2 || most == size % 2
    requires later > 0 && !(size == 1 && later == 1) && size % 2 <= most
    ensures most < size / 2 + later
  {
  }

  /** With `later` more rows at that hour no other hour has as many. */
  ghost predicate TakesOver(early: seq<StoredTransaction>, late: int, later: nat) {
    forall h :: |Filter(At(h), early)| < |Filter(At(late), early)| + later
  }

  /** The later rows at one hour, the others where they were. */
  function LateAt(now: int, rows: seq<StoredTransaction>, hours: seq<nat>, late: nat): (r: seq<nat>)
    requires |hours| == |rows|
    ensures |r| == |rows|
  {
    seq(|rows|, i requires 0 <= i < |rows| => if NotBefore(now)(rows[i]) then late else hours[i])
  }

  lemma {:induction false} EarlyStay(now: int, rows: seq<StoredTransaction>, hours: seq<nat>, late: nat)
    requires |hours| == |rows|
    ensures EarlyAt(now, rows, LateAt(now, rows, hours, late)) == EarlyAt(now, rows, hours)
    decreases |rows|
  {
    if rows != [] {
      var n := |rows| - 1;
      var moved := LateAt(now, rows, hours, late);
      EarlyStay(now, rows[..n], hours[..n], late);
      assert moved[..n] == LateAt(now, rows[..n], hours[..n], late);
      EarlyLast(now, rows, hours);
      EarlyLast(now, rows, moved);
      EarlyIsBefore(now, rows[n]);
    }
  }

  lemma EarlyIsBefore(now: int, t: StoredTransaction)
    ensures EarlyWithin(now)(t) ==> !NotBefore(now)(t)
  {
  }

  lemma EarlyAtThree(now: int, rows: seq<StoredTransaction>, three: Hours3, hours: seq<nat>)
    requires |hours| == |rows| && OfThree(three, hours)
    ensures AtThree(three, EarlyAt(now, rows, hours))
  {
    FilterKeeps(EarlyWithin(now), Retimed(rows, hours));
  }

  /** With later rows, some hours let them into the deviation, unless there is one earlier row and one later one. */
  lemma LaterHourMatters(ext: Externals, tx: TransactionInput, rows: seq<StoredTransaction>)
    returns (hours: seq<nat>)
    requires tx.moment.hour < 24 && !NoRival(tx.moment.instant, rows)
    ensures |hours| == |rows| && OnTheClock(hours) && !SameDeviation(ext, tx, Retimed(rows, hours))
  {
    var now, three := tx.moment.instant, Around(tx.moment.hour);
    AroundIs(tx.moment.hour);
    var before := EvenHours(now, rows, three);
    var late := LateHour(tx.moment.hour, three, EarlyAt(now, rows, before), |Filter(NotBefore(now), rows)|);
    hours := LateAt(now, rows, before, late);
    LateRetimed(now, rows, before, late);
    LateOnTheClock(now, rows, before, three, late);
    HourTakesOver(ext, tx, Retimed(rows, hours), late);
  }

  lemma LateOnTheClock(now: int, rows: seq<StoredTransaction>, before: seq<nat>, three: Hours3, late: nat)
    requires |before| == |rows| && OfThree(three, before) && three.Has(late)
    requires three.x < 24 && three.y < 24 && three.z < 24
    ensures OnTheClock(LateAt(now, rows, before, late))
  {
  }

  lemma LateRetimed(now: int, rows: seq<StoredTransaction>, before: seq<nat>, late: nat)
    requires |before| == |rows|
    ensures var retimed := Retimed(rows, LateAt(now, rows, before, late));
            && LaterAt(now, retimed, late)
            && Filter(EarlyWithin(now), retimed) == EarlyAt(now, rows, before)
            && |Filter(NotBefore(now), retimed)| == |Filter(NotBefore(now), rows)|
  {
    EarlyStay(now, rows, before, late);
    RetimedFilter(NotBefore(now), rows, LateAt(now, rows, before, late));
  }

  lemma EvenHours(now: int, rows: seq<StoredTransaction>, three: Hours3) returns (hours: seq<nat>)
    requires three.Different()
    ensures |hours| == |rows| && OfThree(three, hours)
    ensures var early := EarlyAt(now, rows, hours);
            && AtThree(three, early) && |early| == |Filter(EarlyWithin(now), rows)|
            && Spread(three, early, |early| / 2, |early| / 2, |early| % 2)
  {
    var size := |Filter(EarlyWithin(now), rows)|;
    hours := Spreading(now, rows, three, size / 2, size / 2, size % 2);
    RetimedFilter(EarlyWithin(now), rows, hours);
    EarlyAtThree(now, rows, three, hours);
  }

  lemma HourTakesOver(ext: Externals, tx: TransactionInput, rows: seq<StoredTransaction>, late: nat)
    requires LaterAt(tx.moment.instant, rows, late)
    requires var early := Filter(EarlyWithin(tx.moment.instant), rows);
             && TakesOver(early, late, |Filter(NotBefore(tx.moment.instant), rows)|)
             && (early == [] ==> Gap(tx.moment.hour, late) != 0.0)
             && (early != [] ==>
                   && Sorted(Instant, early) != []
                   && Gap(tx.moment.hour, HourMode(Sorted(Instant, early))) != Gap(tx.moment.hour, late))
    ensures !SameDeviation(ext, tx, rows)
  {
    LaterMode(tx, rows, late);
    SortedUsed(tx, rows);
    DeviationIs(ext, tx, rows);
    DeviationIs(ext, tx, Filter(Before(tx.moment.instant), rows));
  }

  // ---------------------------------------------------------------- one earlier row and one later one

  /** With one row before and one after, the earlier one is met first, so its hour stays the mode. */
  lemma OneEach(ext: Externals, tx: TransactionInput, rows: seq<StoredTransaction>)
    requires |Filter(EarlyWithin(tx.moment.instant), rows)| == 1 == |Filter(NotBefore(tx.moment.instant), rows)|
    ensures SameDeviation(ext, tx, rows)
  {
    var now := tx.moment.instant;
    var base, early := BaselineRows(tx, rows), BaselineRows(tx, Filter(Before(now), rows));
    SortedUsed(tx, rows);
    SortedOrders(Instant, Used(now, rows));
    SortedOrders(Instant, Filter(EarlyWithin(now), rows));
    TwoUsed(now, rows);
    FilterSorted(Instant, Before(now), Used(now, rows));
    EarlyFirst(now, base, early);
    DeviationIs(ext, tx, rows);
    DeviationIs(ext, tx, Filter(Before(now), rows));
  }

  lemma {:induction false} TwoUsed(now: int, rows: seq<StoredTransaction>)
    ensures |Used(now, rows)| == |Filter(EarlyWithin(now), rows)| + |Filter(NotBefore(now), rows)|
    ensures Filter(Before(now), Used(now, rows)) == Filter(EarlyWithin(now), rows)
    decreases |rows|
  {
    if rows != [] {
      var front, last := rows[..|rows| - 1], rows[|rows| - 1];
      Unsnoc(rows);
      TwoUsed(now, front);
      FilterSnoc(AgedWithin(now, 90), front, last);
      FilterSnoc(EarlyWithin(now), front, last);
      FilterSnoc(NotBefore(now), front, last);
      FilterSnoc(Before(now), Used(now, front), last);
      LaterAge(now, last);
    }
  }

  lemma EarlyFirst(now: int, base: seq<StoredTransaction>, early: seq<StoredTransaction>)
    requires |base| == 2 && |early| == 1 && Ascending(Instant, base) && Filter(Before(now), base) == early
    ensures HourMode(base) == HourMode(early)
  {
    KeptFirst(now, base[0], base[1]);
    assert base == [base[0], base[1]] && Instant(base[0]) <= Instant(base[1]);
    FirstOfTwo(base[0].moment.hour, base[1].moment.hour);
    assert Hours(base) == [base[0].moment.hour as int, base[1].moment.hour as int];
    assert Hours(early) == [base[0].moment.hour as int];
  }

  lemma KeptFirst(now: int, first: StoredTransaction, second: StoredTransaction)
    requires Instant(first) <= Instant(second) && |Filter(Before(now), [first, second])| == 1
    ensures Filter(Before(now), [first, second]) == [first]
  {
    assert [first] + [second] == [first, second] && [] + [first] == [first];
    FilterSnoc(Before(now), [first], second);
    FilterSnoc(Before(now), [], first);
  }

  lemma FirstOfTwo(x: int, y: int)
    ensures Modal([x, y], 2) == x == Modal([x], 1)
  {
    assert multiset([x, y]) == multiset{x, y};
  }

  /** At most one later row, and that only with one earlier row in the baseline. */
  predicate NoRival(now: int, rows: seq<StoredTransaction>) {
    || |Filter(NotBefore(now), rows)| == 0
    || (|Filter(NotBefore(now), rows)| == 1 && |Filter(EarlyWithin(now), rows)| == 1)
  }

  /** The deviation is causal, whatever the hours at these instants, exactly when nothing is stored at or after the
      transaction, or just one row before it in the baseline and one after. */
  lemma DeviationCausalExactly(ext: Externals, tx: TransactionInput, rows: seq<StoredTransaction>)
    requires tx.moment.hour < 24
    ensures DeviationCausal(ext, tx, rows) <==> NoRival(tx.moment.instant, rows)
  {
    if NoRival(tx.moment.instant, rows) {
      forall hours: seq<nat> | |hours| == |rows| && OnTheClock(hours)
        ensures SameDeviation(ext, tx, Retimed(rows, hours))
      {
        NoRivalSame(ext, tx, rows, hours);
      }
    } else {
      var hours := LaterHourMatters(ext, tx, rows);
      assert !SameDeviation(ext, tx, Retimed(rows, hours));
    }
  }

  lemma NoRivalSame(ext: Externals, tx: TransactionInput, rows: seq<StoredTransaction>, hours: seq<nat>)
    requires |hours| == |rows| && NoRival(tx.moment.instant, rows)
    ensures SameDeviation(ext, tx, Retimed(rows, hours))
  {
    var now := tx.moment.instant;
    RetimedFilter(NotBefore(now), rows, hours);
    RetimedFilter(EarlyWithin(now), rows, hours);
    if |Filter(NotBefore(now), rows)| == 0 {
      NoneLater(now, Retimed(rows, hours));
    } else {
      OneEach(ext, tx, Retimed(rows, hours));
    }
  }

  lemma NoneLater(now: int, rows: seq<StoredTransaction>)
    requires Filter(NotBefore(now), rows) == []
    ensures Filter(Before(now), rows) == rows
  {
    FilterKeeps(NotBefore(now), rows);
    forall t <- rows
      ensures Before(now)(t)
    {
      assert NotBefore(now)(t) ==> t in Filter(NotBefore(now), rows);
    }
    FilterAll(Before(now), rows);
  }
}
