/** What the unbounded baseline window costs: which histories can let a later transaction into
    `amt_over_median_90d` (services/analyst_api/veripay_analyst_api/profiles.py and features16.py). */
module BaselineCausality {
  import opened Rounding
  import opened Sorting
  import opened Profiles
  import opened Features

  /** The row at another amount. */
  function Costing(t: StoredTransaction, amount: real): StoredTransaction {
    t.(amount := amount)
  }

  /** The history with other amounts. */
  function Priced(rows: seq<StoredTransaction>, amounts: seq<real>): (r: seq<StoredTransaction>)
    requires |amounts| == |rows|
    ensures |r| == |rows|
  {
    seq(|rows|, i requires 0 <= i < |rows| => Costing(rows[i], amounts[i]))
  }

  /** Whatever was spent at these times, the ratio is the one over the earlier rows alone. */
  ghost predicate RatioCausal(ext: Externals, tx: TransactionInput, rows: seq<StoredTransaction>) {
    forall amount: real, amounts: seq<real> | |amounts| == |rows| :: SameRatio(ext, tx, amount, Priced(rows, amounts))
  }

  predicate SameRatio(ext: Externals, tx: TransactionInput, amount: real, rows: seq<StoredTransaction>) {
    var priced := tx.(amount := amount);
    Pipeline16(ext, priced, rows).amtOverMedian90d
    == Pipeline16(ext, priced, Filter(Before(tx.moment.instant), rows)).amtOverMedian90d
  }

  // ---------------------------------------------------------------- counting kept members

  function Both<T>(p: T -> bool, q: T -> bool): T -> bool {
    (x: T) => p(x) && q(x)
  }

  lemma {:induction false} FilterBoth<T>(p: T -> bool, q: T -> bool, s: seq<T>)
    ensures Filter(q, Filter(p, s)) == Filter(Both(p, q), s)
    decreases |s|
  {
    if s != [] {
      var front, last := s[..|s| - 1], s[|s| - 1];
      Unsnoc(s);
      FilterBoth(p, q, front);
      FilterSnoc(p, front, last);
      FilterSnoc(q, Filter(p, front), last);
      FilterSnoc(Both(p, q), front, last);
    }
  }

  lemma {:induction false} FilterAgree<T>(p: T -> bool, q: T -> bool, s: seq<T>)
    requires forall i :: 0 <= i < |s| ==> p(s[i]) == q(s[i])
    ensures Filter(p, s) == Filter(q, s)
    decreases |s|
  {
    if s != [] {
      FilterAgree(p, q, s[..|s| - 1]);
    }
  }

  /** Every further condition keeps no more, and less when it drops the member at `i`. */
  lemma {:induction false} FewerKept<T>(p: T -> bool, q: T -> bool, s: seq<T>, i: nat)
    requires i < |s| ==> q(s[i]) && !p(s[i])
    ensures |Filter(Both(p, q), s)| + (if i < |s| then 1 else 0) <= |Filter(q, s)|
    decreases |s|
  {
    if s != [] {
      var n := |s| - 1;
      FewerKept(p, q, s[..n], i);
    }
  }

  lemma {:induction false} PricedFilter(
      keep: StoredTransaction -> bool, rows: seq<StoredTransaction>, amounts: seq<real>)
    requires |amounts| == |rows|
    requires forall t: StoredTransaction, a: real :: keep(Costing(t, a)) == keep(t)
    ensures |Filter(keep, Priced(rows, amounts))| == |Filter(keep, rows)|
    decreases |rows|
  {
    if rows != [] {
      var n := |rows| - 1;
      PricedFilter(keep, rows[..n], amounts[..n]);
      assert Priced(rows, amounts)[..n] == Priced(rows[..n], amounts[..n]);
    }
  }

  // ---------------------------------------------------------------- medians of two prices

  const LOW := 2.0
  const HIGH := 4.0

  function IsLow(x: real): bool {
    x == LOW
  }

  function CostsLow(t: StoredTransaction): bool {
    t.amount == LOW
  }

  predicate TwoPrices(ts: seq<StoredTransaction>) {
    forall i :: 0 <= i < |ts| ==> ts[i].amount == LOW || ts[i].amount == HIGH
  }

  predicate OfTwo(values: seq<real>) {
    forall i :: 0 <= i < |values| ==> values[i] == LOW || values[i] == HIGH
  }

  lemma {:induction false} LowAmounts(ts: seq<StoredTransaction>)
    ensures |Filter(IsLow, Amounts(ts))| == |Filter(CostsLow, ts)|
    decreases |ts|
  {
    if ts != [] {
      var n := |ts| - 1;
      LowAmounts(ts[..n]);
      assert Amounts(ts)[..n] == Amounts(ts[..n]);
    }
  }

  lemma {:induction false} LowFirst(values: seq<real>)
    requires Ascending(Identity, values) && OfTwo(values)
    ensures |Filter(IsLow, values)| <= |values|
    ensures forall i :: 0 <= i < |values| ==> values[i] == if i < |Filter(IsLow, values)| then LOW else HIGH
    decreases |values|
  {
    if values != [] {
      var n := |values| - 1;
      LowFirst(values[..n]);
      assert n > 0 ==> Identity(values[n - 1]) <= Identity(values[n]);
    }
  }

  lemma SortedOfTwo(values: seq<real>)
    requires OfTwo(values)
    ensures OfTwo(Sorted(Identity, values))
    ensures |Filter(IsLow, Sorted(Identity, values))| == |Filter(IsLow, values)|
  {
    var sorted := Sorted(Identity, values);
    SortedMembers(Identity, values);
    forall i | 0 <= i < |sorted|
      ensures sorted[i] == LOW || sorted[i] == HIGH
    {
      assert sorted[i] in sorted;
    }
    FilterSorted(Identity, IsLow, values);
    SortedOrders(Identity, Filter(IsLow, values));
  }

  /** The middle of a sequence whose first `low` members are low and all others high. */
  lemma MiddleOfTwo(values: seq<real>, low: nat)
    requires values != [] && forall i :: 0 <= i < |values| ==> values[i] == if i < low then LOW else HIGH
    ensures var half := |values| / 2;
            (if |values| % 2 == 1 then values[half] else (values[half - 1] + values[half]) / 2.0)
            == if 2 * low > |values| then LOW else if 2 * low == |values| then 3.0 else HIGH
  {
    var half := |values| / 2;
    assert |values| == 2 * half || |values| == 2 * half + 1;
  }

  /** With two prices the median tells which of them has the majority. */
  lemma TwoPriceMedian(values: seq<real>)
    requires values != [] && OfTwo(values)
    ensures var low := |Filter(IsLow, values)|;
            Median(values) == if 2 * low > |values| then LOW else if 2 * low == |values| then 3.0 else HIGH
  {
    var low, sorted := |Filter(IsLow, values)|, Sorted(Identity, values);
    SortedOrders(Identity, values);
    SortedOfTwo(values);
    LowFirst(sorted);
    MiddleOfTwo(sorted, low);
  }

  // ---------------------------------------------------------------- the ratio

  /** What the ratio of a transaction of 12.00 is over `n` rows, `low` of them at the low price. */
  function Ratio(n: nat, low: nat): real {
    if n == 0 then 0.0 else if 2 * low > n then 6.0 else if 2 * low == n then 4.0 else 3.0
  }

  lemma TwoPriceRatio(ext: Externals, tx: TransactionInput, rows: seq<StoredTransaction>)
    requires tx.amount == 12.0 && TwoPrices(rows)
    ensures var used := Filter(AgedWithin(tx.moment.instant, 90), rows);
            Pipeline16(ext, tx, rows).amtOverMedian90d == Ratio(|used|, |Filter(CostsLow, used)|)
  {
    var base := BaselineRows(tx, rows);
    BaselineCounts(tx, rows);
    if base != [] {
      TwoPriceMedian(Amounts(base));
      LowAmounts(base);
      RoundToInteger(6, 10000);
      RoundToInteger(4, 10000);
      RoundToInteger(3, 10000);
    }
  }

  lemma BaselineCounts(tx: TransactionInput, rows: seq<StoredTransaction>)
    requires TwoPrices(rows)
    ensures var used := Filter(AgedWithin(tx.moment.instant, 90), rows);
            var base := BaselineRows(tx, rows);
            |base| == |used| && |Filter(CostsLow, base)| == |Filter(CostsLow, used)| && TwoPrices(base)
  {
    var inWindow := AgedWithin(tx.moment.instant, 90);
    var used := Filter(inWindow, rows);
    FilterSorted(Instant, inWindow, rows);
    SortedCounts(used);
    FilterKeeps(inWindow, rows);
    SortedMembers(Instant, used);
    TwoPricesKept(Sorted(Instant, used), rows);
  }

  lemma SortedCounts(ts: seq<StoredTransaction>)
    ensures |Sorted(Instant, ts)| == |ts|
    ensures |Filter(CostsLow, Sorted(Instant, ts))| == |Filter(CostsLow, ts)|
  {
    FilterSorted(Instant, CostsLow, ts);
    SortedOrders(Instant, ts);
    SortedOrders(Instant, Filter(CostsLow, ts));
  }

  lemma TwoPricesKept(ts: seq<StoredTransaction>, rows: seq<StoredTransaction>)
    requires TwoPrices(rows) && forall t <- ts :: t in rows
    ensures TwoPrices(ts)
  {
    forall i | 0 <= i < |ts|
      ensures ts[i].amount == LOW || ts[i].amount == HIGH
    {
      assert ts[i] in rows;
    }
  }

  /** The rows of the baseline that are earlier than the transaction. */
  function EarlyWithin(now: int): StoredTransaction -> bool {
    Both(Before(now), AgedWithin(now, 90))
  }

  /** The low price is given to earlier rows of the baseline only. */
  predicate LowIsEarly(now: int, rows: seq<StoredTransaction>) {
    forall i :: 0 <= i < |rows| && CostsLow(rows[i]) ==> EarlyWithin(now)(rows[i])
  }

  /** Give the low price to any `low` earlier rows of the baseline, and the high price to all others. */
  lemma {:induction false} Prices(now: int, rows: seq<StoredTransaction>, low: nat) returns (amounts: seq<real>)
    requires low <= |Filter(EarlyWithin(now), rows)|
    ensures |amounts| == |rows| && TwoPrices(Priced(rows, amounts)) && LowIsEarly(now, Priced(rows, amounts))
    ensures |Filter(CostsLow, Priced(rows, amounts))| == low
    decreases |rows|
  {
    amounts := [];
    if rows != [] {
      var n := |rows| - 1;
      var chosen := EarlyWithin(now)(rows[n]) && low > 0;
      var before := Prices(now, rows[..n], if chosen then low - 1 else low);
      amounts := before + [if chosen then LOW else HIGH];
      PricesLast(now, rows, before, chosen);
    }
  }

  lemma PricesLast(now: int, rows: seq<StoredTransaction>, before: seq<real>, chosen: bool)
    requires |rows| == |before| + 1 && (chosen ==> EarlyWithin(now)(rows[|before|]))
    requires TwoPrices(Priced(rows[..|before|], before)) && LowIsEarly(now, Priced(rows[..|before|], before))
    ensures var priced := Priced(rows, before + [if chosen then LOW else HIGH]);
            && TwoPrices(priced) && LowIsEarly(now, priced)
            && |Filter(CostsLow, priced)|
               == |Filter(CostsLow, Priced(rows[..|before|], before))| + if chosen then 1 else 0
  {
    var last := Costing(rows[|before|], if chosen then LOW else HIGH);
    PricedLast(rows, before, last.amount);
    FilterSnoc(CostsLow, Priced(rows[..|before|], before), last);
    CostingEarly(now, rows[|before|], last.amount);
    PricedSnoc(now, Priced(rows[..|before|], before), last);
  }

  lemma PricedLast(rows: seq<StoredTransaction>, before: seq<real>, amount: real)
    requires |rows| == |before| + 1
    ensures Priced(rows, before + [amount]) == Priced(rows[..|before|], before) + [Costing(rows[|before|], amount)]
  {
  }

  lemma CostingEarly(now: int, t: StoredTransaction, amount: real)
    ensures EarlyWithin(now)(Costing(t, amount)) == EarlyWithin(now)(t)
  {
  }

  lemma PricedSnoc(now: int, front: seq<StoredTransaction>, last: StoredTransaction)
    requires TwoPrices(front) && LowIsEarly(now, front)
    requires (last.amount == LOW && EarlyWithin(now)(last)) || last.amount == HIGH
    ensures TwoPrices(front + [last]) && LowIsEarly(now, front + [last])
  {
  }

  /** The ratio is causal, whatever was spent at these times, exactly when nothing is stored at or after the
      transaction. */
  lemma RatioCausalExactly(ext: Externals, tx: TransactionInput, rows: seq<StoredTransaction>)
    ensures RatioCausal(ext, tx, rows) <==> forall t <- rows :: t.moment.instant < tx.moment.instant
  {
    if forall t <- rows :: t.moment.instant < tx.moment.instant {
      forall amount: real, amounts: seq<real> | |amounts| == |rows|
        ensures SameRatio(ext, tx, amount, Priced(rows, amounts))
      {
        FilterAll(Before(tx.moment.instant), Priced(rows, amounts));
      }
    } else {
      var late :| 0 <= late < |rows| && rows[late].moment.instant >= tx.moment.instant;
      var amounts := LaterRowMatters(ext, tx, rows, late);
      assert !SameRatio(ext, tx, 12.0, Priced(rows, amounts));
    }
  }

  /** Whatever was spent at these times, all sixteen features are those over the earlier rows alone. */
  ghost predicate VectorCausal(ext: Externals, tx: TransactionInput, rows: seq<StoredTransaction>) {
    forall amount: real, amounts: seq<real> | |amounts| == |rows| :: SameVector(ext, tx, amount, Priced(rows, amounts))
  }

  predicate SameVector(ext: Externals, tx: TransactionInput, amount: real, rows: seq<StoredTransaction>) {
    var priced := tx.(amount := amount);
    Pipeline16(ext, priced, rows) == Pipeline16(ext, priced, Filter(Before(tx.moment.instant), rows))
  }

  /** The whole feature vector is causal just when the ratio is. */
  lemma VectorCausalExactly(ext: Externals, tx: TransactionInput, rows: seq<StoredTransaction>)
    ensures VectorCausal(ext, tx, rows) <==> RatioCausal(ext, tx, rows)
    ensures VectorCausal(ext, tx, rows) <==> forall t <- rows :: t.moment.instant < tx.moment.instant
  {
    RatioCausalExactly(ext, tx, rows);
    if forall t <- rows :: t.moment.instant < tx.moment.instant {
      forall amount: real, amounts: seq<real> | |amounts| == |rows|
        ensures SameVector(ext, tx, amount, Priced(rows, amounts))
      {
        FilterAll(Before(tx.moment.instant), Priced(rows, amounts));
      }
    }
    if VectorCausal(ext, tx, rows) {
      forall amount: real, amounts: seq<real> | |amounts| == |rows|
        ensures SameRatio(ext, tx, amount, Priced(rows, amounts))
      {
        assert SameVector(ext, tx, amount, Priced(rows, amounts));
      }
    }
  }

  /** With a row at or after the transaction, some amounts let it into the ratio. */
  lemma LaterRowMatters(ext: Externals, tx: TransactionInput, rows: seq<StoredTransaction>, late: nat)
    returns (amounts: seq<real>)
    requires late < |rows| && rows[late].moment.instant >= tx.moment.instant
    ensures |amounts| == |rows| && !SameRatio(ext, tx, 12.0, Priced(rows, amounts))
  {
    var now := tx.moment.instant;
    var early := |Filter(EarlyWithin(now), rows)|;
    amounts := Prices(now, rows, (early + 1) / 2);
    var priced := Priced(rows, amounts);
    PricedFilter(EarlyWithin(now), rows, amounts);
    Counted(now, priced, late);
    FilterKeeps(Before(now), priced);
    TwoPricesKept(Filter(Before(now), priced), priced);
    TwoPriceRatio(ext, tx.(amount := 12.0), priced);
    TwoPriceRatio(ext, tx.(amount := 12.0), Filter(Before(now), priced));
  }

  /** How many rows, and how many at the low price, the two baselines have. */
  lemma Counted(now: int, rows: seq<StoredTransaction>, late: nat)
    requires late < |rows| && rows[late].moment.instant >= now && LowIsEarly(now, rows)
    ensures var used := Filter(AgedWithin(now, 90), rows);
            var causal := Filter(AgedWithin(now, 90), Filter(Before(now), rows));
            && |causal| == |Filter(EarlyWithin(now), rows)| < |used|
            && |Filter(CostsLow, used)| == |Filter(CostsLow, causal)| == |Filter(CostsLow, rows)|
  {
    var inWindow := AgedWithin(now, 90);
    FilterBoth(Before(now), inWindow, rows);
    assert AgeInDays(now, rows[late]) <= 90;
    FewerKept(Before(now), inWindow, rows, late);
    FilterBoth(inWindow, CostsLow, rows);
    FilterAgree(Both(inWindow, CostsLow), CostsLow, rows);
    FilterBoth(EarlyWithin(now), CostsLow, rows);
    FilterAgree(Both(EarlyWithin(now), CostsLow), CostsLow, rows);
  }
}
