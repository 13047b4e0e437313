/** The statistics over the analysts' verdicts
    (services/analyst_api/veripay_analyst_api/service.py, feedback_stats). */
module FeedbackStatistics {
  import opened Rounding
  import opened Sorting
  import opened Profiles

  datatype DecisionRow = DecisionRow(
    decision: Decision, totalReviewed: nat, confirmedFraud: nat, falseAlarm: nat, fraudRate: real)

  datatype FeedbackStats = FeedbackStats(
    total: nat, confirmedFraud: nat, falseAlarm: nat, legitimate: nat, falsePositiveRate: real,
    byDecision: seq<DecisionRow>)

  function Count<T>(counted: T -> bool, s: seq<T>): (n: nat)
    ensures n <= |s|
  {
    if s == [] then 0 else Count(counted, s[..|s| - 1]) + if counted(s[|s| - 1]) then 1 else 0
  }

  function Confirmed(ext: Externals): StoredFeedback -> bool {
    (f: StoredFeedback) => IsConfirmedFraud(ext, f.analystDecision)
  }

  function Benign(ext: Externals): StoredFeedback -> bool {
    (f: StoredFeedback) => IsBenign(ext, f.analystDecision)
  }

  function OneOf(ext: Externals, names: seq<string>): StoredFeedback -> bool {
    (f: StoredFeedback) => ext.normalize(f.analystDecision) in names
  }

  const ALARMS := ["false_alarm", "false_positive"]
  const CLEARED := ["customer_confirmed_legitimate"]
  const UNCOUNTED := ["legitimate"]

  const ORDER := [BLOCK, REVIEW_STEALTH, REVIEW_UNUSUAL, PASS]

  function About(d: Decision): StoredFeedback -> bool {
    (f: StoredFeedback) => f.decision == d
  }

  function Rate(part: nat, whole: nat): real {
    if whole > 0 then RoundTo(part as real / whole as real, 10000.0) else 0.0
  }

  function RowFor(ext: Externals, d: Decision, bucket: seq<StoredFeedback>): DecisionRow {
    var confirmed := Count(Confirmed(ext), bucket);
    DecisionRow(d, |bucket|, confirmed, Count(Benign(ext), bucket), Rate(confirmed, |bucket|))
  }

  function BucketOf(byDecision: map<Decision, seq<StoredFeedback>>, d: Decision): seq<StoredFeedback> {
    if d in byDecision then byDecision[d] else []
  }

  /** The buckets hold the verdicts on each decision in the order given. */
  ghost predicate Bucketed(byDecision: map<Decision, seq<StoredFeedback>>, records: seq<StoredFeedback>) {
    forall d :: BucketOf(byDecision, d) == Filter(About(d), records)
  }

  lemma OneMoreBucketed(
      byDecision: map<Decision, seq<StoredFeedback>>, records: seq<StoredFeedback>, record: StoredFeedback)
    requires Bucketed(byDecision, records)
    ensures Bucketed(
              byDecision[record.decision := BucketOf(byDecision, record.decision) + [record]], records + [record])
  {
    var more := byDecision[record.decision := BucketOf(byDecision, record.decision) + [record]];
    forall d
      ensures BucketOf(more, d) == Filter(About(d), records + [record])
    {
      FilterSnoc(About(d), records, record);
      assert BucketOf(byDecision, d) == Filter(About(d), records);
    }
  }

  method Buckets(records: seq<StoredFeedback>) returns (byDecision: map<Decision, seq<StoredFeedback>>)
    ensures Bucketed(byDecision, records)
  {
    byDecision := map[];
    for i := 0 to |records|
      invariant Bucketed(byDecision, records[..i])
    {
      var record := records[i];
      OneMoreBucketed(byDecision, records[..i], record);
      assert records[..i + 1] == records[..i] + [record];
      byDecision := byDecision[record.decision := BucketOf(byDecision, record.decision) + [record]];
    }
    assert records[..|records|] == records;
  }

  /** Totals over all verdicts and a row for each of the four decisions. */
  predicate Describes(ext: Externals, records: seq<StoredFeedback>, s: FeedbackStats) {
    && s.total == |records|
    && s.confirmedFraud == Count(Confirmed(ext), records)
    && s.falseAlarm == Count(OneOf(ext, ALARMS), records)
    && s.legitimate == Count(OneOf(ext, CLEARED), records)
    && s.falsePositiveRate == Rate(Count(Benign(ext), records), s.confirmedFraud + Count(Benign(ext), records))
    && RowsDescribe(ext, records, s.byDecision)
  }

  function RowAbout(ext: Externals, records: seq<StoredFeedback>, d: Decision): DecisionRow {
    RowFor(ext, d, Filter(About(d), records))
  }

  predicate RowsDescribe(ext: Externals, records: seq<StoredFeedback>, rows: seq<DecisionRow>) {
    && |rows| == |ORDER|
    && forall i :: 0 <= i < |rows| ==> rows[i] == RowAbout(ext, records, ORDER[i])
  }

  method DecisionRows(ext: Externals, records: seq<StoredFeedback>) returns (rows: seq<DecisionRow>)
    ensures RowsDescribe(ext, records, rows)
  {
    var byDecision := Buckets(records);
    rows := [];
    for i := 0 to |ORDER|
      invariant |rows| == i
      invariant forall j :: 0 <= j < i ==> rows[j] == RowAbout(ext, records, ORDER[j])
    {
      var row := RowFrom(ext, records, byDecision, ORDER[i]);
      rows := rows + [row];
    }
  }

  method RowFrom(
      ext: Externals, records: seq<StoredFeedback>, byDecision: map<Decision, seq<StoredFeedback>>, d: Decision)
    returns (row: DecisionRow)
    requires Bucketed(byDecision, records)
    ensures row == RowAbout(ext, records, d)
  {
    var bucket := BucketOf(byDecision, d);
    row := RowFor(ext, d, bucket);
  }

  method StatsOf(ext: Externals, records: seq<StoredFeedback>) returns (s: FeedbackStats)
    ensures Describes(ext, records, s)
  {
    var confirmed, benign := Count(Confirmed(ext), records), Count(Benign(ext), records);
    var rows := DecisionRows(ext, records);
    s := FeedbackStats(
      |records|, confirmed, Count(OneOf(ext, ALARMS), records), Count(OneOf(ext, CLEARED), records),
      Rate(benign, confirmed + benign), rows);
  }

  // ---------------------------------------------------------------- nothing is lost

  /** How many verdicts on one decision are counted. */
  function CountAbout(counted: StoredFeedback -> bool, d: Decision, records: seq<StoredFeedback>): nat {
    Count(counted, Filter(About(d), records))
  }

  lemma {:induction false} BucketsAddUp(counted: StoredFeedback -> bool, records: seq<StoredFeedback>)
    ensures Count(counted, records)
            == CountAbout(counted, BLOCK, records) + CountAbout(counted, REVIEW_STEALTH, records)
               + CountAbout(counted, REVIEW_UNUSUAL, records) + CountAbout(counted, PASS, records)
    decreases |records|
  {
    if records != [] {
      var front, last := records[..|records| - 1], records[|records| - 1];
      BucketsAddUp(counted, front);
      Unsnoc(records);
      OneMore(counted, BLOCK, front, last);
      OneMore(counted, REVIEW_STEALTH, front, last);
      OneMore(counted, REVIEW_UNUSUAL, front, last);
      OneMore(counted, PASS, front, last);
    }
  }

  lemma OneMore(counted: StoredFeedback -> bool, d: Decision, front: seq<StoredFeedback>, last: StoredFeedback)
    ensures CountAbout(counted, d, front + [last])
            == CountAbout(counted, d, front) + if last.decision == d && counted(last) then 1 else 0
  {
    FilterSnoc(About(d), front, last);
    var kept := Filter(About(d), front);
    assert (kept + [last])[..|kept|] == kept;
  }

  /** The rows partition the verdicts: their totals, confirmed frauds and false alarms add up. */
  lemma RowsAddUp(ext: Externals, records: seq<StoredFeedback>, s: FeedbackStats)
    requires Describes(ext, records, s)
    ensures var r := s.byDecision;
            && r[0].totalReviewed + r[1].totalReviewed + r[2].totalReviewed + r[3].totalReviewed == s.total
            && r[0].confirmedFraud + r[1].confirmedFraud + r[2].confirmedFraud + r[3].confirmedFraud
               == s.confirmedFraud
            && r[0].falseAlarm + r[1].falseAlarm + r[2].falseAlarm + r[3].falseAlarm == Count(Benign(ext), records)
  {
    BucketsAddUp(Confirmed(ext), records);
    BucketsAddUp(Benign(ext), records);
    TotalsAddUp(records);
  }

  lemma {:induction false} TotalsAddUp(records: seq<StoredFeedback>)
    ensures |records| == |Filter(About(BLOCK), records)| + |Filter(About(REVIEW_STEALTH), records)|
                         + |Filter(About(REVIEW_UNUSUAL), records)| + |Filter(About(PASS), records)|
    decreases |records|
  {
    if records != [] {
      TotalsAddUp(records[..|records| - 1]);
    }
  }

  /** The two named kinds of benign verdict are all of them exactly when none is plainly "legitimate": such a
      verdict counts in the rate and the rows but under neither name. */
  lemma {:induction false} NamedBenignExactly(ext: Externals, records: seq<StoredFeedback>)
    ensures Count(OneOf(ext, ALARMS), records) + Count(OneOf(ext, CLEARED), records)
            + Count(OneOf(ext, UNCOUNTED), records) == Count(Benign(ext), records)
    ensures Count(OneOf(ext, UNCOUNTED), records) == 0 <==>
            forall i :: 0 <= i < |records| ==> ext.normalize(records[i].analystDecision) != "legitimate"
    decreases |records|
  {
    if records != [] {
      NamedBenignExactly(ext, records[..|records| - 1]);
    }
  }

  lemma {:induction false} Exclusive(ext: Externals, records: seq<StoredFeedback>)
    ensures Count(Confirmed(ext), records) + Count(Benign(ext), records) <= |records|
    decreases |records|
  {
    if records != [] {
      Exclusive(ext, records[..|records| - 1]);
    }
  }

  /** Every rate is a rate, and no verdict is both confirmed and benign. */
  lemma RatesInRange(ext: Externals, records: seq<StoredFeedback>, s: FeedbackStats)
    requires Describes(ext, records, s)
    ensures 0.0 <= s.falsePositiveRate <= 1.0
    ensures forall i :: 0 <= i < 4 ==> 0.0 <= s.byDecision[i].fraudRate <= 1.0
    ensures s.falseAlarm + s.legitimate + s.confirmedFraud <= s.total
  {
    var benign := Count(Benign(ext), records);
    RateInRange(benign, s.confirmedFraud + benign);
    forall i | 0 <= i < 4
      ensures 0.0 <= s.byDecision[i].fraudRate <= 1.0
    {
      RateInRange(s.byDecision[i].confirmedFraud, s.byDecision[i].totalReviewed);
    }
    NamedBenignExactly(ext, records);
    Exclusive(ext, records);
  }

  lemma RateInRange(part: nat, whole: nat)
    requires part <= whole
    ensures 0.0 <= Rate(part, whole) <= 1.0
  {
    if whole > 0 {
      ShareInRange(part, whole);
      RoundBetween(part as real / whole as real, 0, 1, 10000);
    }
  }

  lemma ShareInRange(part: nat, whole: nat)
    requires part <= whole && whole > 0
    ensures 0.0 <= part as real / whole as real <= 1.0
  {
    DivideMonotone(0.0, part as real, whole as real);
    DivideMonotone(part as real, whole as real, whole as real);
  }
}
