/** Drift of the observation window against a reference profile
    (services/model_monitor/veripay_model_monitor/service.py, mirrored in ml/drift/detect.py). */
module Drift {
  import opened Wrappers
  import opened ModelRegistry

  const EPSILON := 0.000001

  /** The population stability index: unbounded when either histogram is empty. */
  datatype Psi = Infinite | Finite(value: real)

  predicate Meets(p: Psi, threshold: real) {
    p.Infinite? || p.value >= threshold
  }

  predicate AtMost(p: Psi, q: Psi) {
    q.Infinite? || (p.Finite? && p.value <= q.value)
  }

  /** All that is used of the natural logarithm. */
  ghost predicate Logarithm(ln: real -> real) {
    && (forall x, y :: 0.0 < x < y ==> ln(x) < ln(y))
    && (forall x :: 0.0 < x ==> ln(1.0 / x) == -ln(x))
  }

  // ---------------------------------------------------------------- the index

  function Total(h: seq<nat>): nat {
    if h == [] then 0 else Total(h[..|h| - 1]) + h[|h| - 1]
  }

  type Fraction = x: real | x >= 0.0

  /** A share with epsilon added, so that the ratio and its logarithm exist. */
  type Positive = x: real | x > 0.0 witness 1.0

  function Share(count: nat, total: nat): Fraction
    requires total > 0
  {
    ShareNotNegative(count, total);
    count as real / total as real
  }

  lemma ShareNotNegative(count: nat, total: nat)
    requires total > 0
    ensures count as real / total as real >= 0.0
  {
  }

  /** The histogram normalised. */
  function Shares(h: seq<nat>): (r: seq<Fraction>)
    requires Total(h) > 0
    ensures |r| == |h|
  {
    seq(|h|, i requires 0 <= i < |h| => Share(h[i], Total(h)))
  }

  function Raise(share: Fraction): Positive {
    share + EPSILON
  }

  function Raised(shares: seq<Fraction>): (r: seq<Positive>)
    ensures |r| == |shares|
  {
    seq(|shares|, i requires 0 <= i < |shares| => Raise(shares[i]))
  }

  function Term(ln: real -> real, reference: Positive, current: Positive): real {
    (current - reference) * ln(current / reference)
  }

  function TermWith(ln: real -> real): (Positive, Positive) -> real {
    (reference: Positive, current: Positive) => Term(ln, reference, current)
  }

  function Sum(term: (Positive, Positive) -> real, reference: seq<Positive>, current: seq<Positive>): real
    requires |reference| == |current|
  {
    var n := |reference|;
    if n == 0 then 0.0
    else Sum(term, reference[..n - 1], current[..n - 1]) + term(reference[n - 1], current[n - 1])
  }

  function PsiOf(ln: real -> real, reference: seq<nat>, current: seq<nat>): Psi
    requires |reference| == |current|
  {
    if Total(reference) <= 0 || Total(current) <= 0 then Infinite
    else Finite(Sum(TermWith(ln), Raised(Shares(reference)), Raised(Shares(current))))
  }

  // ---------------------------------------------------------------- one term

  lemma LogOfOne(ln: real -> real)
    requires Logarithm(ln)
    ensures ln(1.0) == 0.0
  {
    assert ln(1.0 / 1.0) == -ln(1.0);
    assert 1.0 / 1.0 == 1.0;
  }

  lemma RatioAgainstOne(a: real, b: real)
    requires a > 0.0 && b > 0.0
    ensures b / a > 0.0
    ensures b > a <==> b / a > 1.0
    ensures b < a <==> b / a < 1.0
  {
    assert (b / a) * a == b;
  }

  lemma SameSigns(x: real, y: real)
    requires (x > 0.0 <==> y > 0.0) && (x < 0.0 <==> y < 0.0)
    ensures x * y >= 0.0
    ensures x * y == 0.0 <==> x == 0.0
  {
  }

  /** No term is negative, and only equal shares give a zero term. */
  lemma TermSign(ln: real -> real, a: Positive, b: Positive)
    requires Logarithm(ln)
    ensures Term(ln, a, b) >= 0.0
    ensures Term(ln, a, b) == 0.0 <==> a == b
  {
    LogOfOne(ln);
    RatioAgainstOne(a, b);
    SameSigns(b - a, ln(b / a));
  }

  lemma RatioInverse(a: real, b: real)
    requires a > 0.0 && b > 0.0
    ensures b / a > 0.0 && 1.0 / (b / a) == a / b
  {
    var r := b / a;
    assert r * a == b && r > 0.0;
    assert (1.0 / r) * b == a by {
      assert (1.0 / r) * r == 1.0;
      assert (1.0 / r) * (r * a) == ((1.0 / r) * r) * a;
    }
  }

  lemma OppositeFactors(x: real, y: real)
    ensures (-x) * (-y) == x * y
  {
  }

  lemma TermSymmetric(ln: real -> real, a: Positive, b: Positive)
    requires Logarithm(ln)
    ensures Term(ln, a, b) == Term(ln, b, a)
  {
    RatioInverse(a, b);
    assert ln(a / b) == -ln(b / a);
    OppositeFactors(b - a, ln(b / a));
  }

  // ---------------------------------------------------------------- the sum

  ghost predicate Separating(term: (Positive, Positive) -> real) {
    forall a, b :: term(a, b) >= 0.0 && (term(a, b) == 0.0 <==> a == b)
  }

  lemma {:induction false} SumSign(term: (Positive, Positive) -> real, p: seq<Positive>, q: seq<Positive>)
    requires Separating(term) && |p| == |q|
    ensures Sum(term, p, q) >= 0.0
    ensures Sum(term, p, q) == 0.0 <==> p == q
    decreases |p|
  {
    if p != [] {
      var n := |p| - 1;
      SumSign(term, p[..n], q[..n]);
      assert term(p[n], q[n]) >= 0.0;
      assert p == p[..n] + [p[n]] && q == q[..n] + [q[n]];
    }
  }

  lemma {:induction false} SumSymmetric(term: (Positive, Positive) -> real, p: seq<Positive>, q: seq<Positive>)
    requires |p| == |q| && forall a, b :: term(a, b) == term(b, a)
    ensures Sum(term, p, q) == Sum(term, q, p)
    decreases |p|
  {
    if p != [] {
      SumSymmetric(term, p[..|p| - 1], q[..|p| - 1]);
    }
  }

  lemma RaisedExactly(p: seq<Fraction>, q: seq<Fraction>)
    requires |p| == |q|
    ensures Raised(p) == Raised(q) <==> p == q
  {
    if Raised(p) == Raised(q) {
      forall i | 0 <= i < |p|
        ensures p[i] == q[i]
      {
        assert Raised(p)[i] == Raised(q)[i];
      }
    }
  }

  // ---------------------------------------------------------------- the index as a measure

  /** The index is never negative, and zero exactly when the histograms have the same shares. */
  lemma PsiSeparates(ln: real -> real, reference: seq<nat>, current: seq<nat>)
    requires Logarithm(ln) && |reference| == |current|
    ensures PsiOf(ln, reference, current).Infinite? <==> Total(reference) == 0 || Total(current) == 0
    ensures PsiOf(ln, reference, current).Finite? ==> PsiOf(ln, reference, current).value >= 0.0
    ensures PsiOf(ln, reference, current) == Finite(0.0) <==>
            Total(reference) > 0 && Total(current) > 0 && Shares(reference) == Shares(current)
  {
    if Total(reference) > 0 && Total(current) > 0 {
      forall a: Positive, b: Positive
        ensures Term(ln, a, b) >= 0.0 && (Term(ln, a, b) == 0.0 <==> a == b)
      {
        TermSign(ln, a, b);
      }
      SumSign(TermWith(ln), Raised(Shares(reference)), Raised(Shares(current)));
      RaisedExactly(Shares(reference), Shares(current));
    }
  }

  lemma PsiSymmetric(ln: real -> real, reference: seq<nat>, current: seq<nat>)
    requires Logarithm(ln) && |reference| == |current|
    ensures PsiOf(ln, reference, current) == PsiOf(ln, current, reference)
  {
    if Total(reference) > 0 && Total(current) > 0 {
      forall a: Positive, b: Positive
        ensures Term(ln, a, b) == Term(ln, b, a)
      {
        TermSymmetric(ln, a, b);
      }
      SumSymmetric(TermWith(ln), Raised(Shares(reference)), Raised(Shares(current)));
    }
  }

  function Scaled(h: seq<nat>, factor: nat): (r: seq<nat>)
    ensures |r| == |h|
  {
    seq(|h|, i requires 0 <= i < |h| => factor * h[i])
  }

  lemma {:induction false} TotalScaled(h: seq<nat>, factor: nat)
    ensures Total(Scaled(h, factor)) == factor * Total(h)
    decreases |h|
  {
    if h != [] {
      var n := |h| - 1;
      TotalScaled(h[..n], factor);
      assert Scaled(h, factor)[..n] == Scaled(h[..n], factor);
      assert factor * (Total(h[..n]) + h[n]) == factor * Total(h[..n]) + factor * h[n];
    }
  }

  lemma ShareScaled(count: nat, total: nat, factor: nat)
    requires total > 0 && factor > 0
    ensures factor * total > 0
    ensures Share(factor * count, factor * total) == Share(count, total)
  {
    var x, t, f := count as real, total as real, factor as real;
    assert (factor * count) as real == f * x && (factor * total) as real == f * t;
    var r := x / t;
    assert r * t == x;
    assert r * (f * t) == f * (r * t);
    assert f * t > 0.0;
    assert (f * x) / (f * t) == r;
  }

  lemma SharesScaled(h: seq<nat>, factor: nat)
    requires factor > 0 && Total(h) > 0
    ensures Total(Scaled(h, factor)) > 0 && Shares(Scaled(h, factor)) == Shares(h)
  {
    TotalScaled(h, factor);
    ShareScaled(0, Total(h), factor);
    forall i | 0 <= i < |h|
      ensures Shares(Scaled(h, factor))[i] == Shares(h)[i]
    {
      ShareScaled(h[i], Total(h), factor);
    }
  }

  /** Counting either histogram over a multiple of the observations changes nothing. */
  lemma PsiScaleFree(ln: real -> real, reference: seq<nat>, current: seq<nat>, factor: nat)
    requires |reference| == |current| && factor > 0
    ensures PsiOf(ln, Scaled(reference, factor), current) == PsiOf(ln, reference, current)
    ensures PsiOf(ln, reference, Scaled(current, factor)) == PsiOf(ln, reference, current)
  {
    TotalScaled(reference, factor);
    TotalScaled(current, factor);
    if Total(reference) > 0 {
      SharesScaled(reference, factor);
    }
    if Total(current) > 0 {
      SharesScaled(current, factor);
    }
  }

  // ---------------------------------------------------------------- the report

  datatype Reference = Reference(edges: seq<real>, counts: seq<nat>)

  /** The reference profile's features by column. */
  type Profile = map<string, Reference>

  /** The logarithm and the histogram routine the report computes with. */
  datatype Numerics = Numerics(ln: real -> real, histogram: (seq<real>, seq<real>) -> seq<nat>)

  /** The profile's counts belong to its edges. */
  ghost predicate Fits(numerics: Numerics, profile: Profile) {
    forall column <- profile, values ::
      |numerics.histogram(values, profile[column].edges)| == |profile[column].counts|
  }

  function FeatureValues(os: seq<Observation>, column: string): seq<real> {
    seq(|os|, i requires 0 <= i < |os| => if column in os[i].features then os[i].features[column] else 0.0)
  }

  function FeaturePsi(numerics: Numerics, profile: Profile, os: seq<Observation>, column: string): Psi
    requires Fits(numerics, profile) && column in profile
  {
    PsiOf(
      numerics.ln, profile[column].counts, numerics.histogram(FeatureValues(os, column), profile[column].edges))
  }

  /** How many observations lack the column. */
  function Missing(os: seq<Observation>, column: string): (n: nat)
    ensures n <= |os|
  {
    if os == [] then 0
    else Missing(os[..|os| - 1], column) + if column in os[|os| - 1].features then 0 else 1
  }

  /** The gaps in all profiled columns. */
  function Gaps(profile: Profile, os: seq<Observation>, columns: seq<string>): nat {
    if columns == [] then 0
    else
      var last := columns[|columns| - 1];
      Gaps(profile, os, columns[..|columns| - 1]) + if last in profile then Missing(os, last) else 0
  }

  function MissingRate(gaps: nat, observed: nat, columns: nat): real {
    gaps as real / (if observed * columns > 1 then observed * columns else 1) as real
  }

  method FeatureDrift(numerics: Numerics, profile: Profile, os: seq<Observation>, columns: seq<string>)
    returns (perFeature: map<string, Psi>, missingRate: real)
    requires Fits(numerics, profile)
    ensures perFeature.Keys == (set column <- columns | column in profile)
    ensures forall column <- perFeature :: perFeature[column] == FeaturePsi(numerics, profile, os, column)
    ensures missingRate == MissingRate(Gaps(profile, os, columns), |os|, |columns|)
  {
    perFeature := map[];
    var missing := 0;
    for i := 0 to |columns|
      invariant forall column :: column in perFeature <==> column in columns[..i] && column in profile
      invariant forall column <- perFeature :: perFeature[column] == FeaturePsi(numerics, profile, os, column)
      invariant missing == Gaps(profile, os, columns[..i])
    {
      var column := columns[i];
      assert columns[..i + 1] == columns[..i] + [column];
      if column !in profile {
        continue;
      }
      perFeature := perFeature[column := FeaturePsi(numerics, profile, os, column)];
      var gaps := CountMissing(os, column);
      missing := missing + gaps;
    }
    assert columns[..|columns|] == columns;
    missingRate := MissingRate(missing, |os|, |columns|);
  }

  method CountMissing(os: seq<Observation>, column: string) returns (n: nat)
    ensures n == Missing(os, column)
  {
    n := 0;
    for i := 0 to |os|
      invariant n == Missing(os[..i], column)
    {
      assert os[..i + 1][..i] == os[..i];
      if column !in os[i].features {
        n := n + 1;
      }
    }
    assert os[..|os|] == os;
  }

  predicate Complete(os: seq<Observation>, column: string) {
    forall i :: 0 <= i < |os| ==> column in os[i].features
  }

  /** No observation lacks a profiled column. */
  predicate AllComplete(profile: Profile, os: seq<Observation>, columns: seq<string>) {
    forall i :: 0 <= i < |columns| && columns[i] in profile ==> Complete(os, columns[i])
  }

  lemma {:induction false} MissingExactly(os: seq<Observation>, column: string)
    ensures Missing(os, column) == 0 <==> Complete(os, column)
  {
    if os != [] {
      MissingExactly(os[..|os| - 1], column);
    }
  }

  lemma {:induction false} GapsBounded(profile: Profile, os: seq<Observation>, columns: seq<string>)
    ensures Gaps(profile, os, columns) <= |os| * |columns|
    ensures Gaps(profile, os, columns) == 0 <==> AllComplete(profile, os, columns)
    decreases |columns|
  {
    if columns != [] {
      var n := |columns| - 1;
      GapsBounded(profile, os, columns[..n]);
      MissingExactly(os, columns[n]);
      assert |os| * |columns| == |os| * n + |os|;
    }
  }

  /** The missing rate is a rate, and zero exactly when no profiled column is missing anywhere. */
  lemma MissingRateBounds(profile: Profile, os: seq<Observation>, columns: seq<string>)
    ensures 0.0 <= MissingRate(Gaps(profile, os, columns), |os|, |columns|) <= 1.0
    ensures MissingRate(Gaps(profile, os, columns), |os|, |columns|) == 0.0 <==> AllComplete(profile, os, columns)
  {
    GapsBounded(profile, os, columns);
    var cells := if |os| * |columns| > 1 then |os| * |columns| else 1;
    FractionBounds(Gaps(profile, os, columns), cells);
  }

  lemma FractionBounds(part: nat, whole: nat)
    requires part <= whole && whole > 0
    ensures 0.0 <= part as real / whole as real <= 1.0
    ensures part as real / whole as real == 0.0 <==> part == 0
  {
    var r := part as real / whole as real;
    assert r * whole as real == part as real;
  }

  /** The largest index, zero when nothing is profiled. */
  method MaxPsi(perFeature: map<string, Psi>) returns (largest: Psi)
    ensures perFeature == map[] ==> largest == Finite(0.0)
    ensures perFeature != map[] ==> exists column <- perFeature :: perFeature[column] == largest
    ensures forall column <- perFeature :: AtMost(perFeature[column], largest)
  {
    if perFeature == map[] {
      return Finite(0.0);
    }
    var holder :| holder in perFeature;
    largest := perFeature[holder];
    var rest := perFeature.Keys;
    while rest != {}
      invariant rest <= perFeature.Keys
      invariant holder in perFeature && perFeature[holder] == largest
      invariant forall column <- perFeature :: column in rest || AtMost(perFeature[column], largest)
      decreases |rest|
    {
      var column :| column in rest;
      if !AtMost(perFeature[column], largest) {
        holder, largest := column, perFeature[column];
      }
      rest := rest - {column};
    }
  }

  datatype Verdict = INSUFFICIENT_DATA | DRIFT | STABLE

  datatype Report = Report(
    verdict: Verdict, featurePsi: map<string, Psi>, maxPsi: Option<Psi>, windowSize: nat, missingRate: real)

  /** Some profiled column meets the threshold; without any, zero has to. */
  ghost predicate Drifted(
      numerics: Numerics, profile: Profile, os: seq<Observation>, columns: seq<string>, threshold: real)
    requires Fits(numerics, profile)
  {
    || (exists column <- columns :: column in profile && Meets(FeaturePsi(numerics, profile, os, column), threshold))
    || ((forall column <- columns :: column !in profile) && threshold <= 0.0)
  }

  method DriftReport(
      numerics: Numerics, profile: Profile, os: seq<Observation>, columns: seq<string>, minWindow: int, threshold: real)
    returns (report: Report)
    requires Fits(numerics, profile)
    ensures report.verdict == INSUFFICIENT_DATA <==> |os| < minWindow
    ensures report.verdict == DRIFT <==> |os| >= minWindow && Drifted(numerics, profile, os, columns, threshold)
    ensures report.windowSize == |os|
    ensures report.missingRate == if |os| < minWindow then 0.0
                                  else MissingRate(Gaps(profile, os, columns), |os|, |columns|)
    ensures report.featurePsi.Keys == if |os| < minWindow then {} else set column <- columns | column in profile
    ensures forall column <- report.featurePsi ::
              report.featurePsi[column] == FeaturePsi(numerics, profile, os, column)
    ensures report.maxPsi.Some? <==> |os| >= minWindow
    ensures report.maxPsi.Some? ==>
              forall column <- report.featurePsi :: AtMost(report.featurePsi[column], report.maxPsi.value)
  {
    if |os| < minWindow {
      return Report(INSUFFICIENT_DATA, map[], None, |os|, 0.0);
    }
    var perFeature, missingRate := FeatureDrift(numerics, profile, os, columns);
    var largest := MaxPsi(perFeature);
    assert perFeature == map[] <==> forall column <- columns :: column !in profile by {
      assert forall column :: column in perFeature <==> column in columns && column in profile;
      if perFeature != map[] {
        var column :| column in perFeature;
      }
    }
    report := Report(
      if Meets(largest, threshold) then DRIFT else STABLE, perFeature, Some(largest), |os|, missingRate);
  }

  /** With a positive threshold, a window shaped like the reference in every profiled column has not drifted. */
  lemma SameShapesHaveNotDrifted(
      numerics: Numerics, profile: Profile, os: seq<Observation>, columns: seq<string>, threshold: real)
    requires Logarithm(numerics.ln) && Fits(numerics, profile) && threshold > 0.0
    requires forall column <- columns :: column in profile ==>
               var counts := numerics.histogram(FeatureValues(os, column), profile[column].edges);
               && Total(profile[column].counts) > 0 && Total(counts) > 0
               && Shares(counts) == Shares(profile[column].counts)
    ensures !Drifted(numerics, profile, os, columns, threshold)
  {
    forall column <- columns | column in profile
      ensures FeaturePsi(numerics, profile, os, column) == Finite(0.0)
    {
      PsiSeparates(
        numerics.ln, profile[column].counts,
        numerics.histogram(FeatureValues(os, column), profile[column].edges));
    }
  }
}
