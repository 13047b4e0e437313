/** How analyst verdicts and drift adjust the two model scores, and how the adjusted scores become components
    and decisions (services/analyst_api/veripay_analyst_api/adjustments.py, reasoning.py, service.py). */
module Adjustments {
  import opened Wrappers
  import opened Rounding
  import opened RiskPolicy
  import opened RiskFusion
  import opened Profiles

  datatype Settings = Settings(
    trustWindow: int, trustFactor: real, heightenedAdd: real, gradualFactor: real, suddenFactor: real,
    networkWeight: real, fraudThreshold: real, anomalyThreshold: real, rich: bool)

  datatype FeedbackEffect = NO_FEEDBACK | HEIGHTENED_ALERT | TRUST_BOOST

  datatype FeedbackOutcome = FeedbackOutcome(anomalyFactor: real, fraudAdd: real, effect: FeedbackEffect)

  datatype Adjustment = Adjustment(anomalyFactor: real, fraudAdd: real)

  // ---------------------------------------------------------------- the two adjustments

  function FeedbackAdjustment(ext: Externals, verdicts: seq<string>, s: Settings): FeedbackOutcome {
    var confirmed := AnyConfirmed(ext, verdicts);
    var recent := if verdicts == [] then [] else LastSlice(verdicts, s.trustWindow);
    var benign := |recent| >= s.trustWindow && AllBenign(ext, recent);
    FeedbackOutcome(
      if benign then s.trustFactor else 1.0, if confirmed then s.heightenedAdd else 0.0,
      if confirmed then HEIGHTENED_ALERT else if benign then TRUST_BOOST else NO_FEEDBACK)
  }

  /** The factor of the drift adjustment; gradual drift counts only once feedback confirms it. */
  function DriftFactor(drift: Option<Drift>, confirmedByFeedback: bool, s: Settings): real {
    match drift
    case Some(GradualDrift(_, _)) => if confirmedByFeedback then s.gradualFactor else 1.0
    case Some(SuddenDrift(_)) => s.suddenFactor
    case None => 1.0
  }

  function Combined(ext: Externals, verdicts: seq<string>, drift: Option<Drift>, s: Settings): Adjustment {
    var feedback := FeedbackAdjustment(ext, verdicts, s);
    Adjustment(
      Chained(feedback.anomalyFactor, DriftFactor(drift, RecentBenign(ext, verdicts, s.trustWindow), s)),
      feedback.fraudAdd)
  }

  function Chained(x: real, y: real): real {
    x * y
  }

  /** The boost and the profile's trust, computed apart, agree for every window. */
  lemma BoostIsRecentBenign(ext: Externals, verdicts: seq<string>, s: Settings)
    ensures FeedbackAdjustment(ext, verdicts, s).anomalyFactor
            == if RecentBenign(ext, verdicts, s.trustWindow) then s.trustFactor else 1.0
    ensures FeedbackAdjustment(ext, verdicts, s).effect == TRUST_BOOST <==>
            TrustStatus(ext, verdicts, s.trustWindow) == BOOSTED
    ensures FeedbackAdjustment(ext, verdicts, s).effect == HEIGHTENED_ALERT <==>
            TrustStatus(ext, verdicts, s.trustWindow) == ALERT
  {
    var recent := if verdicts == [] then [] else LastSlice(verdicts, s.trustWindow);
    assert |recent| >= s.trustWindow <==> |verdicts| >= s.trustWindow;
    assert verdicts == [] ==> AllBenign(ext, LastSlice(verdicts, s.trustWindow));
  }

  /** What both adjustments come to, by whether the latest verdicts are benign and what drift there is. */
  function Factor(benign: bool, drift: Option<Drift>, s: Settings): real {
    match drift
    case None => if benign then s.trustFactor else 1.0
    case Some(SuddenDrift(_)) => if benign then Chained(s.trustFactor, s.suddenFactor) else s.suddenFactor
    case Some(GradualDrift(_, _)) => if benign then Chained(s.trustFactor, s.gradualFactor) else 1.0
  }

  lemma ChainedFactor(benign: bool, drift: Option<Drift>, s: Settings)
    ensures Chained(if benign then s.trustFactor else 1.0, DriftFactor(drift, benign, s)) == Factor(benign, drift, s)
  {
  }

  /** Gradual drift never lowers the anomaly without the boost, sudden drift always raises it. */
  lemma CombinedFactor(ext: Externals, verdicts: seq<string>, drift: Option<Drift>, s: Settings)
    ensures Combined(ext, verdicts, drift, s).anomalyFactor
            == Factor(RecentBenign(ext, verdicts, s.trustWindow), drift, s)
  {
    BoostIsRecentBenign(ext, verdicts, s);
    ChainedFactor(RecentBenign(ext, verdicts, s.trustWindow), drift, s);
  }

  function Clamp01(x: real): real {
    if x < 0.0 then 0.0 else if x > 1.0 then 1.0 else x
  }

  function AdjustedFraud(raw: real, a: Adjustment): real {
    Clamp01(raw + a.fraudAdd)
  }

  function AdjustedAnomaly(raw: real, a: Adjustment): real {
    Clamp01(Chained(raw, a.anomalyFactor))
  }

  /** The fraud probability only rises, and only after confirmed fraud. */
  lemma FraudOnlyRises(ext: Externals, verdicts: seq<string>, drift: Option<Drift>, s: Settings, raw: real)
    requires 0.0 <= raw <= 1.0 && s.heightenedAdd >= 0.0
    ensures raw <= AdjustedFraud(raw, Combined(ext, verdicts, drift, s)) <= 1.0
    ensures AdjustedFraud(raw, Combined(ext, verdicts, drift, s)) > raw ==> AnyConfirmed(ext, verdicts)
  {
  }

  /** Only sudden drift raises the anomaly score. */
  lemma AnomalyRisesOnlySuddenly(
      ext: Externals, verdicts: seq<string>, drift: Option<Drift>, s: Settings, raw: real)
    requires 0.0 <= raw <= 1.0 && 0.0 <= s.trustFactor <= 1.0 && 0.0 <= s.gradualFactor <= 1.0
    ensures 0.0 <= AdjustedAnomaly(raw, Combined(ext, verdicts, drift, s)) <= 1.0
    ensures AdjustedAnomaly(raw, Combined(ext, verdicts, drift, s)) > raw ==>
              drift.Some? && drift.value.SuddenDrift?
  {
    if !(drift.Some? && drift.value.SuddenDrift?) {
      CombinedFactor(ext, verdicts, drift, s);
      FactorShrinks(RecentBenign(ext, verdicts, s.trustWindow), drift, s);
      AnomalyShrinks(raw, Combined(ext, verdicts, drift, s));
    }
  }

  lemma FactorShrinks(benign: bool, drift: Option<Drift>, s: Settings)
    requires 0.0 <= s.trustFactor <= 1.0 && 0.0 <= s.gradualFactor <= 1.0
    requires !(drift.Some? && drift.value.SuddenDrift?)
    ensures 0.0 <= Factor(benign, drift, s) <= 1.0
  {
    Shrinks(s.trustFactor, s.gradualFactor);
  }

  lemma AnomalyShrinks(raw: real, a: Adjustment)
    requires 0.0 <= raw <= 1.0 && 0.0 <= a.anomalyFactor <= 1.0
    ensures AdjustedAnomaly(raw, a) <= raw
  {
    Shrinks(raw, a.anomalyFactor);
  }

  lemma Shrinks(x: real, factor: real)
    requires x >= 0.0 && 0.0 <= factor <= 1.0
    ensures 0.0 <= Chained(x, factor) <= x
  {
    assert x * (1.0 - factor) >= 0.0;
  }

  // ---------------------------------------------------------------- components

  /** A probability as a score of at most 100. */
  function Percent(x: real): real {
    var p := Round(x * 100.0);
    (if p < 100 then p else 100) as real
  }

  function Components(
      fraud: real, fraudAvailable: bool, anomaly: real, anomalyAvailable: bool, network: real,
      networkAvailable: bool, s: Settings): seq<RiskComponent>
  {
    [RiskComponent("supervised", Percent(fraud), 0.5, fraudAvailable),
     RiskComponent("anomaly", Percent(anomaly), 0.5, anomalyAvailable),
     RiskComponent("network", Percent(network), s.networkWeight, networkAvailable)]
  }

  /** The fusion service takes the components exactly when the network axis, the only one not clamped, does
      not round below zero and its weight is in bounds. */
  lemma ComponentsFit(
      fraud: real, fraudAvailable: bool, anomaly: real, anomalyAvailable: bool, network: real,
      networkAvailable: bool, s: Settings)
    requires 0.0 <= fraud <= 1.0 && 0.0 <= anomaly <= 1.0
    ensures AllInBounds(Components(fraud, fraudAvailable, anomaly, anomalyAvailable, network, networkAvailable, s))
            <==> Round(network * 100.0) >= 0 && 0.0 < s.networkWeight <= 1.0
  {
    var cs := Components(fraud, fraudAvailable, anomaly, anomalyAvailable, network, networkAvailable, s);
    PercentRange(fraud);
    PercentRange(anomaly);
    assert cs[0].InBounds() && cs[1].InBounds();
    assert cs[2].InBounds() <==> Round(network * 100.0) >= 0 && 0.0 < s.networkWeight <= 1.0;
    assert forall c :: c in cs <==> c == cs[0] || c == cs[1] || c == cs[2];
  }

  lemma PercentRange(x: real)
    requires 0.0 <= x
    ensures 0.0 <= Percent(x) <= 100.0
  {
    RoundMonotone(0.0, x * 100.0);
    RoundInteger(0);
  }

  // ---------------------------------------------------------------- the analyst's vocabulary

  function MapDecision(action: DecisionAction): Decision {
    match action
    case ALLOW => PASS
    case MONITOR => REVIEW_UNUSUAL
    case CHALLENGE => REVIEW_UNUSUAL
    case REVIEW => REVIEW_STEALTH
    case DECLINE => Decision.BLOCK
    case REVERSE => Decision.BLOCK
  }

  datatype RiskLevel = HIGH_RISK | MODERATE_RISK | LOW_RISK

  function MapRiskLevel(tier: RiskTier): RiskLevel {
    match tier
    case HIGH => HIGH_RISK
    case MODERATE => MODERATE_RISK
    case LOW => LOW_RISK
    case NO_RISK => LOW_RISK
  }

  /** A block of a normal-looking transaction with a high fraud probability is reviewed instead. */
  function DocDecision(action: DecisionAction, fraud: real, anomaly: real, s: Settings): Decision {
    var mapped := MapDecision(action);
    if mapped == Decision.BLOCK && fraud >= s.fraudThreshold && anomaly < s.anomalyThreshold
    then REVIEW_STEALTH else mapped
  }

  /** Only an allowed transaction passes, and only a declined or reversed one, outside the stealth
      quadrant, is blocked. */
  lemma DocDecisionExactly(action: DecisionAction, fraud: real, anomaly: real, s: Settings)
    ensures DocDecision(action, fraud, anomaly, s) == PASS <==> action == ALLOW
    ensures DocDecision(action, fraud, anomaly, s) == Decision.BLOCK <==>
            && (action == DECLINE || action == REVERSE)
            && (fraud < s.fraudThreshold || anomaly >= s.anomalyThreshold)
  {
  }
}
