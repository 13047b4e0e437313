/** Weighted fusion of risk components (services/risk_fusion/veripay_risk_fusion/service.py). */
module RiskFusion {
  import opened Rounding
  import opened RiskPolicy

  datatype RiskComponent = RiskComponent(name: string, score: real, weight: real, available: bool) {
    /** The bounds the component model enforces. */
    predicate InBounds() {
      0.0 <= score <= 100.0 && 0.0 < weight <= 1.0
    }
  }

  predicate AllInBounds(cs: seq<RiskComponent>) {
    forall c <- cs :: c.InBounds()
  }

  datatype FusionResponse = FusionResponse(
    unifiedScore: int, band: RiskBand, tier: RiskTier, components: seq<RiskComponent>)

  function Available(cs: seq<RiskComponent>): seq<RiskComponent> {
    if cs == [] then []
    else if cs[0].available then [cs[0]] + Available(cs[1..])
    else Available(cs[1..])
  }

  function TotalWeight(cs: seq<RiskComponent>): real {
    if cs == [] then 0.0 else cs[0].weight + TotalWeight(cs[1..])
  }

  function Contribution(c: RiskComponent): real {
    c.score * c.weight
  }

  function WeightedScore(cs: seq<RiskComponent>): real {
    if cs == [] then 0.0 else Contribution(cs[0]) + WeightedScore(cs[1..])
  }

  lemma {:induction false} TotalWeightPositive(cs: seq<RiskComponent>)
    requires forall c <- cs :: c.weight > 0.0
    ensures TotalWeight(cs) >= 0.0 && (cs != [] ==> TotalWeight(cs) > 0.0)
  {
    if cs != [] {
      TotalWeightPositive(cs[1..]);
    }
  }

  // ---------------------------------------------------------------- the mean as a balance point

  /** How far the scores lie above `m`, weighted. The mean is where this is zero. */
  function Surplus(cs: seq<RiskComponent>, m: real): real {
    if cs == [] then 0.0 else Above(cs[0], m) + Surplus(cs[1..], m)
  }

  function Above(c: RiskComponent, m: real): real {
    (c.score - m) * c.weight
  }

  lemma AboveIsLinear(c: RiskComponent, m: real)
    ensures Above(c, m) == Contribution(c) - m * c.weight
  {
  }

  lemma AboveOrder(c: RiskComponent, d: RiskComponent, m: real)
    requires c.weight == d.weight && c.weight > 0.0
    ensures c.score <= d.score ==> Above(c, m) <= Above(d, m)
  {
    ScaleUp(c.score - m, if c.score <= d.score then d.score - m else c.score - m, c.weight);
  }

  lemma AboveSign(c: RiskComponent, m: real)
    requires c.weight > 0.0
    ensures c.score >= m ==> Above(c, m) >= 0.0
    ensures c.score <= m ==> Above(c, m) <= 0.0
    ensures c.score > m ==> Above(c, m) > 0.0
    ensures c.score < m ==> Above(c, m) < 0.0
  {
  }

  lemma AboveFalls(c: RiskComponent, m: real, n: real)
    requires c.weight > 0.0 && m < n
    ensures Above(c, m) > Above(c, n)
  {
    assert (n - m) * c.weight > 0.0;
  }

  lemma {:induction false} SurplusIsLinear(cs: seq<RiskComponent>, m: real)
    ensures Surplus(cs, m) == WeightedScore(cs) - m * TotalWeight(cs)
  {
    if cs != [] {
      SurplusIsLinear(cs[1..], m);
      AboveIsLinear(cs[0], m);
      Distribute(m, cs[0].weight, TotalWeight(cs[1..]));
    }
  }

  lemma Distribute(k: real, x: real, y: real)
    ensures k * (x + y) == k * x + k * y
  {
  }

  /** The surplus falls strictly, so it is zero at one point only. */
  lemma {:induction false} SurplusFalls(cs: seq<RiskComponent>, m: real, n: real)
    requires cs != [] && m < n && forall c <- cs :: c.weight > 0.0
    ensures Surplus(cs, m) > Surplus(cs, n)
  {
    AboveFalls(cs[0], m, n);
    if |cs| > 1 {
      SurplusFalls(cs[1..], m, n);
    }
  }

  lemma SurplusOrders(cs: seq<RiskComponent>, m: real, mean: real)
    requires cs != [] && (forall c <- cs :: c.weight > 0.0) && Surplus(cs, mean) == 0.0
    ensures Surplus(cs, m) >= 0.0 ==> m <= mean
    ensures Surplus(cs, m) <= 0.0 ==> m >= mean
  {
    if mean < m {
      SurplusFalls(cs, mean, m);
    } else if m < mean {
      SurplusFalls(cs, m, mean);
    }
  }

  lemma Quotient(s: real, w: real)
    requires w > 0.0
    ensures s / w * w == s
  {
  }

  /** The quotient the service computes is the balance point of the scores. */
  function Mean(cs: seq<RiskComponent>): (m: real)
    requires cs != [] && forall c <- cs :: c.weight > 0.0
    ensures Surplus(cs, m) == 0.0
  {
    TotalWeightPositive(cs);
    var m := WeightedScore(cs) / TotalWeight(cs);
    Quotient(WeightedScore(cs), TotalWeight(cs));
    SurplusIsLinear(cs, m);
    m
  }

  lemma {:induction false} AvailableMembers(cs: seq<RiskComponent>)
    ensures forall c :: c in Available(cs) <==> c in cs && c.available
  {
    if cs != [] {
      AvailableMembers(cs[1..]);
    }
  }

  function UnifiedScore(cs: seq<RiskComponent>): int
    requires AllInBounds(cs)
  {
    var available := Available(cs);
    AvailableMembers(cs);
    if available == [] then 100 else Round(Mean(available))
  }

  // ---------------------------------------------------------------- bounds

  lemma {:induction false} SurplusSign(cs: seq<RiskComponent>, m: real)
    requires forall c <- cs :: c.weight > 0.0
    ensures (forall c <- cs :: m <= c.score) ==> Surplus(cs, m) >= 0.0
    ensures (forall c <- cs :: c.score <= m) ==> Surplus(cs, m) <= 0.0
  {
    if cs != [] {
      AboveSign(cs[0], m);
      SurplusSign(cs[1..], m);
    }
  }

  /** Scores between `lo` and `hi` have their weighted mean between them. */
  lemma MeanBetween(cs: seq<RiskComponent>, lo: real, hi: real)
    requires cs != [] && forall c <- cs :: c.weight > 0.0 && lo <= c.score <= hi
    ensures lo <= Mean(cs) <= hi
  {
    SurplusSign(cs, lo);
    SurplusSign(cs, hi);
    SurplusOrders(cs, lo, Mean(cs));
    SurplusOrders(cs, hi, Mean(cs));
  }

  /** The fused score lies between the rounded bounds of the available scores. */
  lemma UnifiedBetween(cs: seq<RiskComponent>, lo: real, hi: real)
    requires AllInBounds(cs) && Available(cs) != []
    requires forall c <- cs :: c.available ==> lo <= c.score <= hi
    ensures Round(lo) <= UnifiedScore(cs) <= Round(hi)
  {
    AvailableMembers(cs);
    MeanBetween(Available(cs), lo, hi);
    RoundMonotone(lo, Mean(Available(cs)));
    RoundMonotone(Mean(Available(cs)), hi);
  }

  /** The score is always one that has a tier. */
  lemma UnifiedHasTier(cs: seq<RiskComponent>)
    requires AllInBounds(cs)
    ensures 0 <= UnifiedScore(cs) <= 100
    ensures TierForScore(UnifiedScore(cs) as real).Some?
  {
    if Available(cs) != [] {
      UnifiedBetween(cs, 0.0, 100.0);
      RoundInteger(0);
      RoundInteger(100);
    }
  }

  function FuseRisk(cs: seq<RiskComponent>): FusionResponse
    requires cs != [] && AllInBounds(cs)
  {
    UnifiedHasTier(cs);
    var score := UnifiedScore(cs);
    var tier := TierForScore(score as real).value;
    FusionResponse(score, BandForTier(tier), tier, cs)
  }

  // ---------------------------------------------------------------- laws

  /** The same components, up to the scores of those available, which may only rise. */
  ghost predicate Raised(cs: seq<RiskComponent>, ds: seq<RiskComponent>) {
    |cs| == |ds| && forall i :: 0 <= i < |cs| ==>
      && ds[i].available == cs[i].available
      && (cs[i].available ==> ds[i].weight == cs[i].weight && cs[i].score <= ds[i].score)
  }

  lemma {:induction false} RaisedSurplus(cs: seq<RiskComponent>, ds: seq<RiskComponent>, m: real)
    requires AllInBounds(cs) && AllInBounds(ds) && Raised(cs, ds)
    ensures |Available(cs)| == |Available(ds)|
    ensures Surplus(Available(cs), m) <= Surplus(Available(ds), m)
  {
    if cs != [] {
      RaisedSurplus(cs[1..], ds[1..], m);
      if cs[0].available {
        assert cs[0].InBounds();
        AboveOrder(cs[0], ds[0], m);
        assert Available(cs)[1..] == Available(cs[1..]) && Available(ds)[1..] == Available(ds[1..]);
      }
    }
  }

  /** Raising available scores never lowers the fused score, its tier or its band. Nothing about an
      unavailable component matters. */
  lemma FusionMonotone(cs: seq<RiskComponent>, ds: seq<RiskComponent>)
    requires cs != [] && AllInBounds(cs) && AllInBounds(ds) && Raised(cs, ds)
    ensures FuseRisk(cs).unifiedScore <= FuseRisk(ds).unifiedScore
    ensures TierRank(FuseRisk(cs).tier) <= TierRank(FuseRisk(ds).tier)
    ensures BandRank(FuseRisk(cs).band) <= BandRank(FuseRisk(ds).band)
  {
    UnifiedHasTier(cs);
    UnifiedHasTier(ds);
    RaisedSurplus(cs, ds, 0.0);
    var a, b := Available(cs), Available(ds);
    if a != [] {
      AvailableMembers(cs);
      AvailableMembers(ds);
      RaisedSurplus(cs, ds, Mean(a));
      SurplusOrders(b, Mean(a), Mean(b));
      RoundMonotone(Mean(a), Mean(b));
    }
  }

  /** Unavailable components might as well not be there; with none available the score is 100. */
  lemma UnavailableIgnored(cs: seq<RiskComponent>)
    requires AllInBounds(cs)
    ensures AllInBounds(Available(cs)) && UnifiedScore(cs) == UnifiedScore(Available(cs))
    ensures (forall c <- cs :: !c.available) ==> UnifiedScore(cs) == 100
  {
    AvailableMembers(cs);
    AvailableAgain(cs);
  }

  lemma {:induction false} AvailableAgain(cs: seq<RiskComponent>)
    ensures Available(Available(cs)) == Available(cs)
  {
    if cs != [] {
      AvailableAgain(cs[1..]);
      if cs[0].available {
        assert Available(cs)[1..] == Available(cs[1..]);
      }
    }
  }

  function Heavier(c: RiskComponent, k: real): RiskComponent {
    c.(weight := k * c.weight)
  }

  function Reweighted(cs: seq<RiskComponent>, k: real): seq<RiskComponent> {
    if cs == [] then [] else [Heavier(cs[0], k)] + Reweighted(cs[1..], k)
  }

  lemma {:induction false} ReweightedSurplus(cs: seq<RiskComponent>, k: real, m: real)
    ensures Available(Reweighted(cs, k)) == Reweighted(Available(cs), k)
    ensures Surplus(Reweighted(cs, k), m) == k * Surplus(cs, m)
  {
    if cs != [] {
      var rest := cs[1..];
      ReweightedSurplus(rest, k, m);
      assert Reweighted(cs, k)[1..] == Reweighted(rest, k);
      assert (cs[0].score - m) * (k * cs[0].weight) == k * Above(cs[0], m);
      Distribute(k, Above(cs[0], m), Surplus(rest, m));
      if cs[0].available {
        assert Available(cs)[1..] == Available(rest);
      }
    }
  }

  /** Only the proportions of the weights matter. */
  lemma CommonScaleIgnored(cs: seq<RiskComponent>, k: real)
    requires AllInBounds(cs) && AllInBounds(Reweighted(cs, k))
    ensures UnifiedScore(Reweighted(cs, k)) == UnifiedScore(cs)
  {
    var a, b := Available(cs), Available(Reweighted(cs, k));
    ReweightedSurplus(cs, k, 0.0);
    AvailableMembers(cs);
    AvailableMembers(Reweighted(cs, k));
    if a != [] {
      assert b == Reweighted(a, k);
      ReweightedMean(a, b, k);
    }
  }

  lemma ReweightedMean(a: seq<RiskComponent>, b: seq<RiskComponent>, k: real)
    requires a != [] && b != [] && b == Reweighted(a, k)
    requires (forall c <- a :: c.weight > 0.0) && (forall c <- b :: c.weight > 0.0)
    ensures Mean(a) == Mean(b)
  {
    var m := Mean(a);
    ReweightedSurplus(a, k, m);
    assert Surplus(a, m) == 0.0;
    assert Surplus(b, m) == 0.0;
    SurplusOrders(b, m, Mean(b));
  }

  /** Redistribution: losing a component that scored at most the mean of all never lowers the mean,
      losing one that scored at least the mean never raises it. */
  lemma LosingAComponent(before: seq<RiskComponent>, c: RiskComponent, after: seq<RiskComponent>)
    requires forall x <- before + [c] + after :: x.weight > 0.0
    requires before + after != []
    ensures c.score <= Mean(before + [c] + after) ==> Mean(before + [c] + after) <= Mean(before + after)
    ensures c.score >= Mean(before + [c] + after) ==> Mean(before + [c] + after) >= Mean(before + after)
  {
    var all, rest := before + [c] + after, before + after;
    var m := Mean(all);
    assert all == before + ([c] + after) && ([c] + after)[1..] == after && c in all;
    SurplusSplit(before, [c] + after, m);
    SurplusSplit(before, after, m);
    AboveSign(c, m);
    SurplusOrders(rest, m, Mean(rest));
  }

  lemma {:induction false} SurplusSplit(a: seq<RiskComponent>, b: seq<RiskComponent>, m: real)
    ensures Surplus(a + b, m) == Surplus(a, m) + Surplus(b, m)
  {
    if a == [] {
      assert a + b == b;
    } else {
      assert (a + b)[1..] == a[1..] + b;
      SurplusSplit(a[1..], b, m);
    }
  }
}
