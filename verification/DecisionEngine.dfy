/** Cost-aware decisions under the tier matrix
    (services/decision_engine/veripay_decision_engine/service.py). */
module DecisionEngine {
  import opened Wrappers
  import opened RiskPolicy

  // ---------------------------------------------------------------- data

  datatype Reason =
    | REVERSAL_REQUEST | COMPLIANCE_BLOCK | EVIDENCE_UNAVAILABLE | VERIFICATION_APPROVED
    | VERIFICATION_DENIED | VERIFICATION_TIMEOUT | VERIFICATION_ESCALATED
    | FAST_PATH_ASYNC_EXPLANATION | SECONDARY_PATH_IN_BAND_EXPLANATION | COST_MINIMIZED

  datatype ExplanationMode = ASYNC | IN_BAND

  datatype CostModel = CostModel(
    fraudLoss: real, falseDeclineLoss: real, monitorCost: real, challengeCost: real, reviewCost: real,
    reversalCost: real, monitorResidual: real, challengeResidual: real, reviewResidual: real,
    reversalResidual: real)
  {
    predicate InBounds() {
      && fraudLoss >= 0.0 && falseDeclineLoss >= 0.0 && monitorCost >= 0.0 && challengeCost >= 0.0
      && reviewCost >= 0.0 && reversalCost >= 0.0 && 0.0 <= monitorResidual <= 1.0
      && 0.0 <= challengeResidual <= 1.0 && 0.0 <= reviewResidual <= 1.0 && 0.0 <= reversalResidual <= 1.0
    }
  }

  datatype Request = Request(
    transactionId: string, riskScore: int, riskBand: Option<RiskBand>, riskTier: Option<RiskTier>,
    rail: Option<PaymentRail>, path: Option<ProcessingPath>, outcome: VerificationOutcome, isReversal: bool,
    complianceBlocked: bool, mandatoryChallenge: bool, evidenceAvailable: bool,
    explanationAvailable: bool, cost: CostModel)
  {
    predicate InBounds() {
      transactionId != "" && 0 <= riskScore <= 100 && cost.InBounds()
    }

    /** The fields the request model fills in when it is built. */
    function Derived(): Request
      requires InBounds()
    {
      var tier := if riskTier.Some? then riskTier.value
                  else if riskBand.Some? then TierFromBand(riskBand.value)
                  else TierForScore(riskScore as real).value;
      var derivedPath := if path.None? && rail.Some? then Some(ProcessingPathForRail(rail.value)) else path;
      this.(riskTier := Some(tier), path := derivedPath)
    }

    predicate Ready() {
      InBounds() && riskTier.Some?
    }

    function Probability(): real {
      riskScore as real / 100.0
    }

    /** The tier was not just projected from the band, so the tier's own action matrix applies. */
    predicate MatrixMode()
      requires riskTier.Some?
    {
      riskBand.None? || riskTier.value != TierFromBand(riskBand.value)
    }
  }

  datatype Candidate = Candidate(action: DecisionAction, cost: real)

  datatype Response = Response(
    transactionId: string, action: DecisionAction, riskScore: int, riskBand: RiskBand, riskTier: RiskTier,
    reason: Reason, cost: real, candidates: seq<Candidate>, policy: TierPolicy, path: ProcessingPath,
    mode: ExplanationMode, explanationJob: bool, escalationRequired: bool)

  // ---------------------------------------------------------------- costs

  function ExpectedCost(action: DecisionAction, p: real, m: CostModel): real {
    var fraudLoss := p * m.fraudLoss;
    match action
    case ALLOW => fraudLoss
    case MONITOR => m.monitorCost + fraudLoss * m.monitorResidual
    case CHALLENGE => m.challengeCost + fraudLoss * m.challengeResidual
    case REVIEW => m.reviewCost + fraudLoss * m.reviewResidual
    case DECLINE => (1.0 - p) * m.falseDeclineLoss
    case REVERSE => m.reversalCost + fraudLoss * m.reversalResidual
  }

  /** How much the cost of an action grows with the fraud probability. */
  function Slope(action: DecisionAction, m: CostModel): real {
    match action
    case ALLOW => m.fraudLoss
    case MONITOR => m.fraudLoss * m.monitorResidual
    case CHALLENGE => m.fraudLoss * m.challengeResidual
    case REVIEW => m.fraudLoss * m.reviewResidual
    case DECLINE => -m.falseDeclineLoss
    case REVERSE => m.fraudLoss * m.reversalResidual
  }

  /** The cost of an action is a line in the fraud probability. */
  lemma CostIsLine(action: DecisionAction, p: real, m: CostModel)
    ensures ExpectedCost(action, p, m) == ExpectedCost(action, 0.0, m) + p * Slope(action, m)
  {
    Associate(p, m.fraudLoss, m.monitorResidual);
    Associate(p, m.fraudLoss, m.challengeResidual);
    Associate(p, m.fraudLoss, m.reviewResidual);
    Associate(p, m.fraudLoss, m.reversalResidual);
    assert 0.0 * m.fraudLoss == 0.0;
    assert (1.0 - p) * m.falseDeclineLoss == m.falseDeclineLoss + p * -m.falseDeclineLoss;
  }

  lemma Associate(a: real, b: real, c: real)
    ensures a * b * c == a * (b * c)
  {
  }

  // ---------------------------------------------------------------- candidates

  function CandidateActions(band: RiskBand): seq<DecisionAction> {
    match band
    case APPROVE => [ALLOW, MONITOR]
    case VERIFY => [MONITOR, CHALLENGE, REVIEW]
    case BLOCK => [REVIEW, DECLINE]
  }

  function ActionsFor(r: Request): seq<DecisionAction>
    requires r.Ready()
  {
    if r.MatrixMode() then AllowedActionsForTier(r.riskTier.value) else CandidateActions(r.riskBand.value)
  }

  function Candidates(actions: seq<DecisionAction>, p: real, m: CostModel): (cs: seq<Candidate>)
    ensures |cs| == |actions|
    ensures forall i :: 0 <= i < |cs| ==> cs[i] == Candidate(actions[i], ExpectedCost(actions[i], p, m))
  {
    seq(|actions|, i requires 0 <= i < |actions| => Candidate(actions[i], ExpectedCost(actions[i], p, m)))
  }

  function CheapestIndex(cs: seq<Candidate>): (i: nat)
    requires cs != []
    ensures i < |cs|
    ensures forall j :: 0 <= j < |cs| ==> cs[i].cost <= cs[j].cost
    ensures forall j :: 0 <= j < i ==> cs[i].cost < cs[j].cost
  {
    var n := |cs| - 1;
    if n == 0 then 0
    else
      var i := CheapestIndex(cs[..n]);
      assert forall j :: 0 <= j < n ==> cs[..n][j] == cs[j];
      if cs[n].cost < cs[i].cost then n else i
  }

  /** `min(candidates, key=cost)`: the first of the cheapest. */
  function Cheapest(cs: seq<Candidate>): (c: Candidate)
    requires cs != []
    ensures c in cs && forall d <- cs :: c.cost <= d.cost
  {
    cs[CheapestIndex(cs)]
  }

  /** Allowing was cheapest, but the customer must be challenged and that is a candidate. */
  predicate Overridden(actions: seq<DecisionAction>, mustChallenge: bool, p: real, m: CostModel)
    requires actions != []
  {
    mustChallenge && Cheapest(Candidates(actions, p, m)).action == ALLOW && CHALLENGE in actions
  }

  function Choice(actions: seq<DecisionAction>, mustChallenge: bool, p: real, m: CostModel): Candidate
    requires actions != []
  {
    if Overridden(actions, mustChallenge, p, m) then Candidate(CHALLENGE, ExpectedCost(CHALLENGE, p, m))
    else Cheapest(Candidates(actions, p, m))
  }

  /** In matrix mode a tier with risk is challenged rather than allowed. */
  predicate MustChallenge(r: Request)
    requires r.Ready()
  {
    r.MatrixMode() && r.riskTier.value != NO_RISK
  }

  function Selected(r: Request): Candidate
    requires r.Ready()
  {
    Choice(ActionsFor(r), MustChallenge(r), r.Probability(), r.cost)
  }

  // ---------------------------------------------------------------- the decision

  function PathOf(r: Request): ProcessingPath {
    if r.path.Some? then r.path.value else FAST
  }

  /** A decision that hard controls or a verification outcome make without looking at costs. */
  datatype Control = Control(action: DecisionAction, reason: Reason, job: bool, escalate: bool)

  function HardControl(r: Request): Option<Control>
    requires r.Ready()
  {
    var high := r.riskTier.value == HIGH;
    var job := PathOf(r) == FAST && !r.explanationAvailable;
    if r.isReversal then Some(Control(REVERSE, REVERSAL_REQUEST, job, false))
    else if r.complianceBlocked then Some(Control(DECLINE, COMPLIANCE_BLOCK, job, false))
    else if !r.evidenceAvailable then Some(Control(REVIEW, EVIDENCE_UNAVAILABLE, job, high))
    else if PathOf(r) == SECONDARY && !r.explanationAvailable then
      Some(Control(REVIEW, EVIDENCE_UNAVAILABLE, false, true))
    else if r.outcome == DENIED || r.outcome == TIMED_OUT || r.outcome == EXPIRED || r.outcome == LOCKED then
      var reason := if r.outcome == TIMED_OUT || r.outcome == EXPIRED
                    then VERIFICATION_TIMEOUT else VERIFICATION_DENIED;
      Some(Control(if high then REVIEW else DECLINE, reason, false, high))
    else if r.outcome == ESCALATED then Some(Control(REVIEW, VERIFICATION_ESCALATED, false, true))
    else if r.outcome == APPROVED then Some(Control(ALLOW, VERIFICATION_APPROVED, job, false))
    else None
  }

  function ResponseOf(r: Request, c: Control, cost: real, candidates: seq<Candidate>): Response
    requires r.Ready()
  {
    var tier := r.riskTier.value;
    Response(
      r.transactionId, c.action, r.riskScore, if r.riskBand.Some? then r.riskBand.value else BandForTier(tier),
      tier, c.reason, cost, candidates, PolicyForTier(tier), PathOf(r),
      if PathOf(r) == FAST then ASYNC else IN_BAND, c.job, c.escalate)
  }

  function CostReason(r: Request): Reason
    requires r.Ready()
  {
    if !r.MatrixMode() then COST_MINIMIZED
    else if PathOf(r) == SECONDARY then SECONDARY_PATH_IN_BAND_EXPLANATION
    else if r.riskTier.value != NO_RISK then FAST_PATH_ASYNC_EXPLANATION
    else COST_MINIMIZED
  }

  function Forced(r: Request, c: Control): Response
    requires r.Ready()
  {
    var cost := ExpectedCost(c.action, r.Probability(), r.cost);
    ResponseOf(r, c, cost, [Candidate(c.action, cost)])
  }

  function ByCost(r: Request): Response
    requires r.Ready()
  {
    var selected := Selected(r);
    var job := PathOf(r) == FAST && !r.explanationAvailable;
    var escalate := PolicyForTier(r.riskTier.value).analystEscalation && selected.action == REVIEW;
    ResponseOf(
      r, Control(selected.action, CostReason(r), job, escalate), selected.cost,
      Candidates(ActionsFor(r), r.Probability(), r.cost))
  }

  function Decision(r: Request): Response
    requires r.Ready()
  {
    match HardControl(r)
    case Some(c) => Forced(r, c)
    case None => ByCost(r)
  }

  /** The request object of the service: deciding fills in its processing path. */
  class DecisionRequest {
    var fields: Request

    constructor (r: Request)
      requires r.InBounds()
      ensures fields == r.Derived() && fields.Ready()
    {
      fields := r.Derived();
    }

    method Decide() returns (response: Response)
      requires fields.Ready()
      modifies this
      ensures fields == old(fields).(path := Some(PathOf(old(fields))))
      ensures response == Decision(old(fields))
    {
      var path := PathOf(fields);
      ghost var before := fields;
      fields := fields.(path := Some(path));
      PathFilledIn(before);
      var control := HardControl(fields);
      if control.Some? {
        var cost := ExpectedCost(control.value.action, fields.Probability(), fields.cost);
        return ResponseOf(fields, control.value, cost, [Candidate(control.value.action, cost)]);
      }
      var selected, candidates := Select(fields);
      var reason := CostReason(fields);
      var escalate := PolicyForTier(fields.riskTier.value).analystEscalation && selected.action == REVIEW;
      var job := path == FAST && !fields.explanationAvailable;
      return ResponseOf(fields, Control(selected.action, reason, job, escalate), selected.cost, candidates);
    }
  }

  /** Writing the path down does not change what is decided. */
  lemma PathFilledIn(r: Request)
    requires r.Ready()
    ensures Decision(r.(path := Some(PathOf(r)))) == Decision(r)
  {
    var s := r.(path := Some(PathOf(r)));
    assert s.MatrixMode() == r.MatrixMode() && s.Probability() == r.Probability();
    assert HardControl(s) == HardControl(r) && Selected(s) == Selected(r);
  }

  /** The cheapest candidate, replaced when the tier must be challenged. */
  method Select(r: Request) returns (selected: Candidate, candidates: seq<Candidate>)
    requires r.Ready()
    ensures selected == Selected(r)
    ensures candidates == Candidates(ActionsFor(r), r.Probability(), r.cost)
  {
    candidates := Candidates(ActionsFor(r), r.Probability(), r.cost);
    selected := Cheapest(candidates);
    CandidateCosts(ActionsFor(r), r.Probability(), r.cost);
    if r.MatrixMode() && r.riskTier.value != NO_RISK && selected.action == ALLOW {
      var challenge := FirstChallenge(candidates);
      if challenge.Some? {
        selected := challenge.value;
      }
    }
  }

  method FirstChallenge(cs: seq<Candidate>) returns (c: Option<Candidate>)
    ensures c.None? <==> forall d <- cs :: d.action != CHALLENGE
    ensures c.Some? ==> c.value in cs && c.value.action == CHALLENGE
  {
    for i := 0 to |cs|
      invariant forall j :: 0 <= j < i ==> cs[j].action != CHALLENGE
    {
      if cs[i].action == CHALLENGE {
        return Some(cs[i]);
      }
    }
    return None;
  }

  // ---------------------------------------------------------------- optimality

  lemma CandidateCosts(actions: seq<DecisionAction>, p: real, m: CostModel)
    ensures forall a <- actions :: Candidate(a, ExpectedCost(a, p, m)) in Candidates(actions, p, m)
    ensures forall c <- Candidates(actions, p, m) :: c.action in actions && c.cost == ExpectedCost(c.action, p, m)
  {
    forall a <- actions ensures Candidate(a, ExpectedCost(a, p, m)) in Candidates(actions, p, m) {
      var i :| 0 <= i < |actions| && actions[i] == a;
      assert Candidates(actions, p, m)[i] in Candidates(actions, p, m);
    }
  }

  lemma ChallengeRegret(p: real, m: CostModel)
    requires m.InBounds() && p >= 0.0
    ensures ExpectedCost(CHALLENGE, p, m) <= ExpectedCost(ALLOW, p, m) + m.challengeCost
  {
    var fraudLoss := p * m.fraudLoss;
    assert fraudLoss >= 0.0;
    assert fraudLoss * (1.0 - m.challengeResidual) >= 0.0;
  }

  /** Without a hard control the decided cost is the least of the candidates, except when allowing was
      strictly cheapest and the customer must be challenged; that never costs more than the price of a
      challenge above the least. */
  lemma DecidedCostIsLeast(r: Request)
    requires r.Ready() && HardControl(r).None?
    ensures var d := Decision(r);
            var overridden := Overridden(ActionsFor(r), MustChallenge(r), r.Probability(), r.cost);
            && Candidate(d.action, d.cost) in d.candidates
            && ((forall c <- d.candidates :: d.cost <= c.cost)
                <==> !(overridden && ExpectedCost(ALLOW, r.Probability(), r.cost) < d.cost))
            && (forall c <- d.candidates :: d.cost <= c.cost + r.cost.challengeCost)
  {
    ChoiceIsLeast(ActionsFor(r), MustChallenge(r), r.Probability(), r.cost);
  }

  lemma ChoiceIsLeast(actions: seq<DecisionAction>, mustChallenge: bool, p: real, m: CostModel)
    requires actions != [] && m.InBounds() && p >= 0.0
    ensures var d := Choice(actions, mustChallenge, p, m);
            var cs := Candidates(actions, p, m);
            && d in cs
            && ((forall c <- cs :: d.cost <= c.cost)
                <==> !(Overridden(actions, mustChallenge, p, m) && ExpectedCost(ALLOW, p, m) < d.cost))
            && (forall c <- cs :: d.cost <= c.cost + m.challengeCost)
  {
    CandidateCosts(actions, p, m);
    ChallengeRegret(p, m);
  }

  /** Costs are never negative, as the response model demands. */
  lemma CostsNotNegative(action: DecisionAction, p: real, m: CostModel)
    requires m.InBounds() && 0.0 <= p <= 1.0
    ensures ExpectedCost(action, p, m) >= 0.0
  {
    var fraudLoss := p * m.fraudLoss;
    NotNegative(p, m.fraudLoss);
    NotNegative(fraudLoss, m.monitorResidual);
    NotNegative(fraudLoss, m.challengeResidual);
    NotNegative(fraudLoss, m.reviewResidual);
    NotNegative(fraudLoss, m.reversalResidual);
    NotNegative(1.0 - p, m.falseDeclineLoss);
  }

  lemma NotNegative(x: real, y: real)
    requires x >= 0.0 && y >= 0.0
    ensures x * y >= 0.0
  {
  }

  // ---------------------------------------------------------------- lower envelope

  /** Two lines, each below the other at its own point: the later one is no steeper. */
  lemma LaterIsFlatter(a: DecisionAction, b: DecisionAction, p: real, q: real, m: CostModel)
    requires p < q
    requires ExpectedCost(a, p, m) <= ExpectedCost(b, p, m)
    requires ExpectedCost(b, q, m) <= ExpectedCost(a, q, m)
    ensures Slope(b, m) <= Slope(a, m)
  {
    CostIsLine(a, p, m);
    CostIsLine(b, p, m);
    CostIsLine(a, q, m);
    CostIsLine(b, q, m);
    Crossing(ExpectedCost(a, 0.0, m), Slope(a, m), ExpectedCost(b, 0.0, m), Slope(b, m), p, q);
  }

  lemma Crossing(a0: real, a1: real, b0: real, b1: real, p: real, q: real)
    requires p < q && a0 + p * a1 <= b0 + p * b1 && b0 + q * b1 <= a0 + q * a1
    ensures b1 <= a1
  {
    assert (q - p) * (b1 - a1) <= 0.0;
  }

  lemma ChallengeFlatter(m: CostModel)
    requires m.InBounds()
    ensures 0.0 <= Slope(CHALLENGE, m) <= Slope(ALLOW, m) && Slope(DECLINE, m) <= 0.0
  {
    assert m.fraudLoss * m.challengeResidual >= 0.0;
    assert m.fraudLoss * (1.0 - m.challengeResidual) >= 0.0;
  }

  /** As the risk score rises, with everything else fixed, the decided action's cost grows no faster
      with the fraud probability than before: the decisions follow the lower envelope of the lines,
      override included. */
  lemma DecisionsFlatten(r: Request, s: Request)
    requires r.Ready() && s.Ready() && HardControl(r).None?
    requires s == r.(riskScore := s.riskScore) && r.riskScore <= s.riskScore
    ensures HardControl(s).None?
    ensures Slope(Decision(s).action, r.cost) <= Slope(Decision(r).action, r.cost)
  {
    OnlyScoreDiffers(r, s);
    var actions, must, m := ActionsFor(r), MustChallenge(r), r.cost;
    UnforcedAction(r, actions, must, r.Probability(), m);
    UnforcedAction(s, actions, must, s.Probability(), m);
    if r.riskScore < s.riskScore {
      BothModes(r);
      ChoiceFlattens(actions, must, r.Probability(), s.Probability(), m);
    }
  }

  lemma BothModes(r: Request)
    requires r.Ready()
    ensures ALLOW in ActionsFor(r) && CHALLENGE in ActionsFor(r) ==> ActionsFor(r) == [ALLOW, CHALLENGE, DECLINE]
  {
  }

  lemma OnlyScoreDiffers(r: Request, s: Request)
    requires r.Ready() && s.Ready() && s == r.(riskScore := s.riskScore)
    ensures HardControl(s) == HardControl(r)
    ensures ActionsFor(s) == ActionsFor(r) && MustChallenge(s) == MustChallenge(r) && s.cost == r.cost
    ensures r.riskScore < s.riskScore ==> r.Probability() < s.Probability()
    ensures r.riskScore == s.riskScore ==> r == s
  {
  }

  lemma UnforcedAction(r: Request, actions: seq<DecisionAction>, mustChallenge: bool, p: real, m: CostModel)
    requires r.Ready() && HardControl(r).None?
    requires actions == ActionsFor(r) && mustChallenge == MustChallenge(r) && p == r.Probability() && m == r.cost
    ensures actions != [] && Decision(r).action == Choice(actions, mustChallenge, p, m).action
  {
  }

  lemma CheapestFlattens(actions: seq<DecisionAction>, p: real, q: real, m: CostModel)
    requires actions != [] && p < q
    ensures Cheapest(Candidates(actions, p, m)).action in actions
    ensures Cheapest(Candidates(actions, q, m)).action in actions
    ensures Slope(Cheapest(Candidates(actions, q, m)).action, m) <= Slope(Cheapest(Candidates(actions, p, m)).action, m)
  {
    CandidateCosts(actions, p, m);
    CandidateCosts(actions, q, m);
    LaterIsFlatter(
      Cheapest(Candidates(actions, p, m)).action, Cheapest(Candidates(actions, q, m)).action, p, q, m);
  }

  /** The override on top: from `a` to `b`, each replaced by a challenge where it is an allowance. */
  lemma OverrideFlattens(a: DecisionAction, b: DecisionAction, over: bool, under: bool, m: CostModel)
    requires m.InBounds() && Slope(b, m) <= Slope(a, m)
    requires over ==> a == ALLOW && (b == ALLOW || b == CHALLENGE || b == DECLINE)
    requires under ==> b == ALLOW
    requires over && b == ALLOW ==> under
    ensures Slope(if under then CHALLENGE else b, m) <= Slope(if over then CHALLENGE else a, m)
  {
    ChallengeFlatter(m);
  }

  lemma ChoiceFlattens(actions: seq<DecisionAction>, mustChallenge: bool, p: real, q: real, m: CostModel)
    requires actions != [] && p < q && m.InBounds()
    requires ALLOW in actions && CHALLENGE in actions ==> actions == [ALLOW, CHALLENGE, DECLINE]
    ensures Slope(Choice(actions, mustChallenge, q, m).action, m)
            <= Slope(Choice(actions, mustChallenge, p, m).action, m)
  {
    CheapestFlattens(actions, p, q, m);
    var a, b := Cheapest(Candidates(actions, p, m)).action, Cheapest(Candidates(actions, q, m)).action;
    OverrideFlattens(
      a, b, Overridden(actions, mustChallenge, p, m), Overridden(actions, mustChallenge, q, m), m);
  }

  // ---------------------------------------------------------------- controls and the tier matrix

  lemma NeverAllowsChallenged(r: Request)
    requires r.Ready() && MustChallenge(r)
    ensures Selected(r).action != ALLOW
  {
    CandidateCosts(ActionsFor(r), r.Probability(), r.cost);
  }

  /** A transaction is allowed only past every hard control; outside tier NO_RISK, in matrix mode, it is
      allowed exactly when the customer approved it. */
  lemma AllowedOnlyWhenClear(r: Request)
    requires r.Ready()
    ensures var clear := && !r.isReversal && !r.complianceBlocked && r.evidenceAvailable
                         && (PathOf(r) == FAST || r.explanationAvailable);
            && (Decision(r).action == ALLOW ==> clear && (r.outcome == APPROVED || r.outcome == PENDING))
            && (MustChallenge(r) ==> (Decision(r).action == ALLOW <==> clear && r.outcome == APPROVED))
  {
    if HardControl(r).None? {
      assert Decision(r).action == Selected(r).action;
      if MustChallenge(r) {
        NeverAllowsChallenged(r);
      }
    } else {
      assert Decision(r).action == HardControl(r).value.action;
    }
  }

  /** The candidates respect the tier's permitted actions exactly in matrix mode or at tier HIGH: the
      older band lists let tiers LOW and MODERATE be merely monitored. */
  lemma CandidatesPermitted(r: Request)
    requires r.Ready() && HardControl(r).None?
    ensures (forall c <- Decision(r).candidates :: c.action in AllowedActionsForTier(r.riskTier.value))
            <==> r.MatrixMode() || r.riskTier.value == HIGH
  {
    CandidateCosts(ActionsFor(r), r.Probability(), r.cost);
    if !r.MatrixMode() && r.riskTier.value != HIGH {
      assert MONITOR in ActionsFor(r);
    }
  }

  /** A band and tier that come from one fused score leave the matrix to tier NO_RISK: at tier LOW
      the customer is then never challenged and never declined on cost. */
  lemma FusedBandBypassesMatrix(r: Request)
    requires r.Ready() && r.riskBand == Some(BandForTier(r.riskTier.value))
    ensures r.MatrixMode() <==> r.riskTier.value == NO_RISK
    ensures r.riskTier.value == LOW && HardControl(r).None? ==>
              Decision(r).action == ALLOW || Decision(r).action == MONITOR
  {
    CandidateCosts(ActionsFor(r), r.Probability(), r.cost);
  }

  lemma SameForced(r: Request, asked: bool, c: Control)
    requires r.Ready()
    ensures Forced(r.(mandatoryChallenge := asked), c) == Forced(r, c)
  {
  }

  lemma SameControl(r: Request, asked: bool)
    requires r.Ready()
    ensures HardControl(r.(mandatoryChallenge := asked)) == HardControl(r)
  {
  }

  lemma SameByCost(r: Request, asked: bool)
    requires r.Ready()
    ensures ByCost(r.(mandatoryChallenge := asked)) == ByCost(r)
  {
    var s := r.(mandatoryChallenge := asked);
    assert s.MatrixMode() == r.MatrixMode() && s.Probability() == r.Probability();
    assert Selected(s) == Selected(r);
  }

  /** Asking for a mandatory challenge changes nothing. */
  lemma MandatoryChallengeIgnored(r: Request, asked: bool)
    requires r.Ready()
    ensures Decision(r.(mandatoryChallenge := asked)) == Decision(r)
  {
    SameControl(r, asked);
    match HardControl(r)
    case Some(c) => SameForced(r, asked, c);
    case None => SameByCost(r, asked);
  }
}
