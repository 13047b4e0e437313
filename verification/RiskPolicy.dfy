/** The tier policy shared by fusion, decisions and verification sessions
    (libs/veripay_common/veripay_common/risk_policy.py, enums.py). */
module RiskPolicy {
  import opened Wrappers

  datatype RiskTier = NO_RISK | LOW | MODERATE | HIGH
  datatype RiskBand = APPROVE | VERIFY | BLOCK
  datatype DecisionAction = ALLOW | MONITOR | CHALLENGE | REVIEW | DECLINE | REVERSE
  datatype PaymentRail = CARD | ISO_8583 | FEDNOW | RTP | ACH | SWIFT | ISO_20022 | DOMESTIC_INSTANT
  datatype ProcessingPath = FAST | SECONDARY
  datatype VerificationOutcome = PENDING | APPROVED | DENIED | TIMED_OUT | EXPIRED | LOCKED | ESCALATED
  datatype Friction = NO_FRICTION | PUSH | BIOMETRIC | MULTI_FACTOR

  datatype Workflow = SILENT_PASS | PUSH_APPROVE_DENY | PUSH_BIOMETRIC | EXACT_AMOUNT_BIOMETRIC_SWIPE
  datatype Fallback = STANDARD_AUDIT | AUTO_DECLINE | AUTO_DECLINE_AND_LOCK | LIVE_ANALYST_ESCALATION

  datatype TierPolicy = TierPolicy(
    minimumScore: int, maximumScore: int, friction: Friction, workflow: Workflow, timeoutSeconds: nat,
    fallback: Fallback, fallbackAction: DecisionAction, temporaryLock: bool, analystEscalation: bool)

  function PolicyForTier(tier: RiskTier): TierPolicy {
    match tier
    case NO_RISK => TierPolicy(0, 5, NO_FRICTION, SILENT_PASS, 0, STANDARD_AUDIT, ALLOW, false, false)
    case LOW => TierPolicy(6, 25, PUSH, PUSH_APPROVE_DENY, 30, AUTO_DECLINE, DECLINE, false, false)
    case MODERATE => TierPolicy(26, 50, BIOMETRIC, PUSH_BIOMETRIC, 30, AUTO_DECLINE_AND_LOCK, DECLINE, true, false)
    case HIGH =>
      TierPolicy(
        51, 100, MULTI_FACTOR, EXACT_AMOUNT_BIOMETRIC_SWIPE, 30, LIVE_ANALYST_ESCALATION, REVIEW, false, true)
  }

  /** Refused outside 0 to 100. */
  function TierForScore(score: real): Option<RiskTier> {
    if !(0.0 <= score <= 100.0) then None
    else if score <= 5.0 then Some(NO_RISK)
    else if score <= 25.0 then Some(LOW)
    else if score <= 50.0 then Some(MODERATE)
    else Some(HIGH)
  }

  /** Wherever the policy table has a tier it is the one scores are classified to, and between two ranges there is
      none in the table. */
  lemma TableAgreesExactly(score: real)
    requires 0.0 <= score <= 100.0
    ensures (exists tier ::
               PolicyForTier(tier).minimumScore as real <= score <= PolicyForTier(tier).maximumScore as real) <==>
            !(5.0 < score < 6.0 || 25.0 < score < 26.0 || 50.0 < score < 51.0)
    ensures forall tier ::
              PolicyForTier(tier).minimumScore as real <= score <= PolicyForTier(tier).maximumScore as real ==>
                TierForScore(score) == Some(tier)
  {
    var tier := TierForScore(score).value;
    assert PolicyForTier(tier).maximumScore as real >= score;
    assert PolicyForTier(tier).minimumScore as real <= score <==>
           !(5.0 < score < 6.0 || 25.0 < score < 26.0 || 50.0 < score < 51.0);
  }

  function TierFromBand(band: RiskBand): RiskTier {
    match band
    case APPROVE => LOW
    case VERIFY => MODERATE
    case BLOCK => HIGH
  }

  function BandForTier(tier: RiskTier): RiskBand {
    match tier
    case NO_RISK => APPROVE
    case LOW => APPROVE
    case MODERATE => VERIFY
    case HIGH => BLOCK
  }

  function ProcessingPathForRail(rail: PaymentRail): ProcessingPath {
    if rail == CARD || rail == ISO_8583 then FAST else SECONDARY
  }

  function AllowedActionsForTier(tier: RiskTier): seq<DecisionAction> {
    match tier
    case NO_RISK => [ALLOW, MONITOR]
    case LOW => [ALLOW, CHALLENGE, DECLINE]
    case MODERATE => [CHALLENGE, REVIEW, DECLINE]
    case HIGH => [REVIEW, DECLINE, REVERSE]
  }

  function TierRank(tier: RiskTier): nat {
    match tier
    case NO_RISK => 0
    case LOW => 1
    case MODERATE => 2
    case HIGH => 3
  }

  function BandRank(band: RiskBand): nat {
    match band
    case APPROVE => 0
    case VERIFY => 1
    case BLOCK => 2
  }
}
