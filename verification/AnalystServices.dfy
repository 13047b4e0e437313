/** The analyst API over its own services: which answers its responses accept, and that the repository's
    fusion and decision services only give such answers
    (services/analyst_api/veripay_analyst_api/service.py, models.py). */
module AnalystServices {
  import opened Wrappers
  import opened Rounding
  import opened RiskPolicy
  import opened RiskFusion
  import opened Sorting
  import opened Profiles
  import opened Features
  import opened Adjustments
  import opened Analyst
  import opened AnalystRuns
  import Engine = DecisionEngine

  // ---------------------------------------------------------------- which answers are accepted

  /** A score that four-digit rounding brings into the unit interval. */
  predicate Tolerable(x: real) {
    -0.00005 <= x <= 1.00005
  }

  lemma TolerableExactly(x: real)
    ensures 0.0 <= RoundTo(x, 10000.0) <= 1.0 <==> Tolerable(x)
  {
    assert 0.0 <= RoundTo(x, 10000.0) <= 1.0 <==> 0 <= Round(x * 10000.0) <= 10000;
  }

  /** A response is accepted exactly when the fused score is in range and the three raw scores are tolerable:
      the adjusted scores always are. */
  lemma AcceptedExactly(
      env: Environment, client: Client, store: Store, tx: TransactionInput, fusion: FusionReply,
      decided: DecisionReply)
    requires AxesFor(env, client, store, tx).Ok?
    ensures var axes := AxesFor(env, client, store, tx).value;
            EvaluationOf(env.settings, tx, axes, fusion, decided).response.InBounds() <==>
            && 0 <= fusion.score <= 100
            && Tolerable(axes.supervised.score) && Tolerable(axes.anomalyReply.score) && Tolerable(axes.graph.score)
  {
    var axes := AxesFor(env, client, store, tx).value;
    AdjustedInUnit(env, client, store, tx);
    BoundsOf(env.settings, tx, axes, fusion, decided);
  }

  lemma AdjustedInUnit(env: Environment, client: Client, store: Store, tx: TransactionInput)
    requires AxesFor(env, client, store, tx).Ok?
    ensures 0.0 <= AxesFor(env, client, store, tx).value.fraud <= 1.0
    ensures 0.0 <= AxesFor(env, client, store, tx).value.anomaly <= 1.0
  {
  }

  lemma BoundsOf(s: Settings, tx: TransactionInput, axes: Axes, fusion: FusionReply, decided: DecisionReply)
    requires 0.0 <= axes.fraud <= 1.0 && 0.0 <= axes.anomaly <= 1.0
    ensures EvaluationOf(s, tx, axes, fusion, decided).response.InBounds() <==>
            && 0 <= fusion.score <= 100
            && Tolerable(axes.supervised.score) && Tolerable(axes.anomalyReply.score) && Tolerable(axes.graph.score)
  {
    TolerableExactly(axes.fraud);
    TolerableExactly(axes.anomaly);
    TolerableExactly(axes.supervised.score);
    TolerableExactly(axes.anomalyReply.score);
    TolerableExactly(axes.graph.score);
  }

  /** Every response shows its adjustments one way: fraud raised only after confirmed fraud, the anomaly
      raised only by sudden drift; it passes exactly when the action was to allow, and blocks exactly when that
      was to decline or reverse and the adjusted scores are not the stealth pattern's. */
  lemma ResponseExplained(env: Environment, client: Client, store: Store, tx: TransactionInput)
    requires Evaluate(env, client, store, tx).Ok?
    requires var s := env.settings;
             s.heightenedAdd >= 0.0 && 0.0 <= s.trustFactor <= 1.0 && 0.0 <= s.gradualFactor <= 1.0
    requires var axes := AxesFor(env, client, store, tx).value;
             0.0 <= axes.supervised.score <= 1.0 && 0.0 <= axes.anomalyReply.score <= 1.0
    ensures var r := Evaluate(env, client, store, tx).value.response;
            var drift := DriftOf(env.ext, store.History(tx.ccNum));
            && r.rawFraud <= r.fraud
            && (r.fraud > r.rawFraud ==> AnyConfirmed(env.ext, store.Verdicts(tx.ccNum)))
            && (r.anomaly > r.rawAnomaly ==> drift.Some? && drift.value.SuddenDrift?)
            && (r.decision == PASS <==> r.action == ALLOW)
            && (r.decision == Decision.BLOCK <==>
                (r.action == DECLINE || r.action == REVERSE)
                && var axes := AxesFor(env, client, store, tx).value;
                   axes.fraud < env.settings.fraudThreshold || axes.anomaly >= env.settings.anomalyThreshold)
  {
    var axes := AxesFor(env, client, store, tx).value;
    var verdicts, drift := store.Verdicts(tx.ccNum), DriftOf(env.ext, store.History(tx.ccNum));
    FraudOnlyRises(env.ext, verdicts, drift, env.settings, axes.supervised.score);
    AnomalyRisesOnlySuddenly(env.ext, verdicts, drift, env.settings, axes.anomalyReply.score);
    DocDecisionExactly(
      Evaluate(env, client, store, tx).value.response.action, axes.fraud, axes.anomaly, env.settings);
    RoundToMonotone(axes.supervised.score, axes.fraud, 10000.0);
    if axes.fraud <= axes.supervised.score {
      RoundToMonotone(axes.fraud, axes.supervised.score, 10000.0);
    }
    if axes.anomaly <= axes.anomalyReply.score {
      RoundToMonotone(axes.anomaly, axes.anomalyReply.score, 10000.0);
    }
  }

  lemma PipelineCoherent(env: Environment, client: Client)
    ensures Coherent(Pipeline(env, client))
  {
    forall store, tx
      ensures Evaluate(env, client, store, tx).Ok? ==> About(Evaluate(env, client, store, tx).value, tx)
      ensures Evaluate(env, client, store, tx) != Err(RESPONSE_REJECTED)
    {
    }
  }

  // ---------------------------------------------------------------- failures

  /** A timestamp without zone has to be compared with the customer's stored ones. */
  predicate Incomparable(store: Store, tx: TransactionInput) {
    tx.modelFeatures.None? && !tx.zoned && store.Rows(tx.ccNum) != []
  }

  /** A service that the score needs fails on what it is asked. The graph is not one. */
  predicate Fails(env: Environment, client: Client, store: Store, tx: TransactionInput) {
    match FeaturesFor(env, tx, store.History(tx.ccNum))
    case Err(_) => false
    case Ok(features) =>
      || client.supervised(tx.id, features).None? || client.anomaly(tx.id, features).None?
      || var components := ComponentsOf(AxesFor(env, client, store, tx).value, env.settings);
         client.fuse(tx.id, components).None?
         || client.decide(tx.id, client.fuse(tx.id, components).value).None?
  }

  /** The services answer, and a response can hold what they answer. */
  predicate Acceptable(env: Environment, client: Client, store: Store, tx: TransactionInput) {
    match AxesFor(env, client, store, tx)
    case Err(_) => false
    case Ok(axes) =>
      match client.fuse(tx.id, ComponentsOf(axes, env.settings))
      case None => false
      case Some(fusion) =>
        && 0 <= fusion.score <= 100
        && Tolerable(axes.supervised.score) && Tolerable(axes.anomalyReply.score) && Tolerable(axes.graph.score)
  }

  /** Which new requests raise, and how: times that cannot be compared, a failing service, or answers out of bounds;
      nothing else does, and only the last changes the state. */
  lemma FailuresExactly(env: Environment, client: Client, st: State, tx: TransactionInput)
    requires tx.id !in st.scored
    ensures var (after, result) := ScoreStep(st, tx, Pipeline(env, client));
            && (result == Err(NOT_COMPARABLE) <==> Incomparable(st.store, tx))
            && (result == Err(DOWNSTREAM_FAILED) <==> Fails(env, client, st.store, tx))
            && (result == Err(RESPONSE_REJECTED) <==>
                && !Incomparable(st.store, tx) && !Fails(env, client, st.store, tx)
                && !Acceptable(env, client, st.store, tx))
            && (Incomparable(st.store, tx) || Fails(env, client, st.store, tx) ==> after == st)
  {
    ErrorsExactly(env, client, st.store, tx);
    var evaluate := Pipeline(env, client);
    assert evaluate(st.store, tx) == Evaluate(env, client, st.store, tx);
    if Evaluate(env, client, st.store, tx).Ok? {
      var fusion := client.fuse(tx.id, ComponentsOf(AxesFor(env, client, st.store, tx).value, env.settings)).value;
      AcceptedExactly(env, client, st.store, tx, fusion, client.decide(tx.id, fusion).value);
    }
  }

  lemma ErrorsExactly(env: Environment, client: Client, store: Store, tx: TransactionInput)
    ensures Evaluate(env, client, store, tx) == Err(NOT_COMPARABLE) <==> Incomparable(store, tx)
    ensures Evaluate(env, client, store, tx) == Err(DOWNSTREAM_FAILED) <==> Fails(env, client, store, tx)
    ensures Evaluate(env, client, store, tx) != Err(RESPONSE_REJECTED)
  {
    SortedOrders(Instant, store.Rows(tx.ccNum));
  }

  /** After one score a customer's further requests without zone all raise, whatever the services say. */
  lemma SecondZonelessRaises(
      env: Environment, client: Client, st: State, tx: TransactionInput, evaluate: Evaluator, again: TransactionInput)
    requires Coherent(evaluate) && tx.id !in st.scored && ScoreStep(st, tx, evaluate).1.Ok?
    requires again.ccNum == tx.ccNum && again.id != tx.id && again.id !in st.scored
    requires again.modelFeatures.None? && !again.zoned
    ensures var after := ScoreStep(st, tx, evaluate).0;
            ScoreStep(after, again, Pipeline(env, client)) == (after, Err(NOT_COMPARABLE))
  {
    var after := ScoreStep(st, tx, evaluate).0;
    FailuresExactly(env, client, after, again);
  }

  /** Services of which the first model answers 2.0, which is no probability. */
  function OverflowingClient(): Client {
    Client(
      (id: string, features: FeatureInput) => Some(ModelReply(2.0, true)),
      (id: string, features: FeatureInput) => Some(ModelReply(0.5, true)),
      (request: GraphRequest) => None,
      (id: string, cs: seq<RiskComponent>) => Some(FusionReply(80, RiskBand.BLOCK, HIGH)),
      (id: string, fusion: FusionReply) => Some(DecisionReply(REVIEW, HIGH, RiskBand.BLOCK)))
  }

  /** Such a model leaves a history row without a score on the very first call. */
  lemma OutOfRangeOrphan(env: Environment, tx: TransactionInput)
    ensures var (after, result) := ScoreStep(EMPTY, tx, Pipeline(env, OverflowingClient()));
            && result == Err(RESPONSE_REJECTED) && after.scored == map[]
            && |after.store.Rows(tx.ccNum)| == 1 && !RowsMatch(after.scored, after.store.transactions)
  {
    var client := OverflowingClient();
    var axes := AxesFor(env, client, EMPTY.store, tx).value;
    var fusion := client.fuse(tx.id, ComponentsOf(axes, env.settings)).value;
    AcceptedExactly(env, client, EMPTY.store, tx, fusion, client.decide(tx.id, fusion).value);
    var after := ScoreStep(EMPTY, tx, Pipeline(env, client)).0;
    var rows := RowsIn(after.store.transactions, tx.ccNum);
    assert !RowFits(after.scored, tx.ccNum, rows[0]);
    assert !CustomerRows(after.scored, tx.ccNum, rows);
  }

  // ---------------------------------------------------------------- the repository's own services

  function FuseInHouse(id: string, cs: seq<RiskComponent>): Option<FusionReply> {
    if cs == [] || !AllInBounds(cs) then None
    else
      var r := FuseRisk(cs);
      Some(FusionReply(r.unifiedScore, r.band, r.tier))
  }

  /** The decision request the pipeline builds; whatever it leaves out has its default. */
  function DecisionRequestFor(id: string, fusion: FusionReply, cost: Engine.CostModel): Engine.Request {
    Engine.Request(
      id, fusion.score, Some(fusion.band), Some(fusion.tier), Some(CARD), None, PENDING, false, false, false, true,
      true, cost)
  }

  function DecideInHouse(cost: Engine.CostModel): (string, FusionReply) -> Option<DecisionReply> {
    (id: string, fusion: FusionReply) =>
      var request := DecisionRequestFor(id, fusion, cost);
      if !request.InBounds() then None
      else
        var r := Engine.Decision(request.Derived());
        Some(DecisionReply(r.action, r.riskTier, r.riskBand))
  }

  /** Fusion and decisions are the repository's own, and the models and the graph answer probabilities. */
  ghost predicate InHouse(client: Client, cost: Engine.CostModel) {
    && client.fuse == FuseInHouse && client.decide == DecideInHouse(cost)
    && (forall id, features :: client.supervised(id, features).Some? ==>
          0.0 <= client.supervised(id, features).value.score <= 1.0)
    && (forall id, features :: client.anomaly(id, features).Some? ==>
          0.0 <= client.anomaly(id, features).value.score <= 1.0)
    && (forall request :: client.graph(request).Some? ==> 0.0 <= client.graph(request).value.score <= 1.0)
  }

  lemma FusedInRange(id: string, cs: seq<RiskComponent>)
    requires FuseInHouse(id, cs).Some?
    ensures 0 <= FuseInHouse(id, cs).value.score <= 100
  {
    UnifiedHasTier(cs);
  }

  lemma InHouseAccepted(env: Environment, client: Client, cost: Engine.CostModel)
    requires InHouse(client, cost)
    ensures InRange(Pipeline(env, client))
  {
    forall store, tx | Evaluate(env, client, store, tx).Ok?
      ensures Evaluate(env, client, store, tx).value.response.InBounds()
    {
      var axes := AxesFor(env, client, store, tx).value;
      var fusion := client.fuse(tx.id, ComponentsOf(axes, env.settings)).value;
      FusedInRange(tx.id, ComponentsOf(axes, env.settings));
      InHouseAxes(env, client, cost, store, tx);
      AcceptedExactly(env, client, store, tx, fusion, client.decide(tx.id, fusion).value);
    }
  }

  lemma InHouseAxes(env: Environment, client: Client, cost: Engine.CostModel, store: Store, tx: TransactionInput)
    requires InHouse(client, cost) && AxesFor(env, client, store, tx).Ok?
    ensures var axes := AxesFor(env, client, store, tx).value;
            Tolerable(axes.supervised.score) && Tolerable(axes.anomalyReply.score) && Tolerable(axes.graph.score)
  {
  }

  /** The event runs the pipeline over the repository's own services. */
  ghost predicate UsesInHouse(e: Event, env: Environment, cost: Engine.CostModel) {
    match e
    case Score(_, evaluate) => exists client :: InHouse(client, cost) && evaluate == Pipeline(env, client)
    case Explain(_, evaluate, _) => exists client :: InHouse(client, cost) && evaluate == Pipeline(env, client)
    case Feedback(_) => true
  }

  lemma InHouseEvent(e: Event, env: Environment, cost: Engine.CostModel)
    requires UsesInHouse(e, env, cost)
    ensures Lawful(e) && Ranged(e)
  {
    match e
    case Score(_, evaluate) =>
      var client :| InHouse(client, cost) && evaluate == Pipeline(env, client);
      PipelineCoherent(env, client);
      InHouseAccepted(env, client, cost);
    case Explain(_, evaluate, _) =>
      var client :| InHouse(client, cost) && evaluate == Pipeline(env, client);
      PipelineCoherent(env, client);
      InHouseAccepted(env, client, cost);
    case Feedback(_) =>
  }

  /** Over the repository's own fusion and decisions, with models and graph answering probabilities or
      failing at any time, no run breaks the analyst API's books. */
  lemma InHouseRunsKeepInvariant(env: Environment, cost: Engine.CostModel, events: seq<Event>)
    requires forall i :: 0 <= i < |events| ==> UsesInHouse(events[i], env, cost)
    ensures Invariant(Run(EMPTY, events))
  {
    forall i | 0 <= i < |events|
      ensures Lawful(events[i]) && Ranged(events[i])
    {
      InHouseEvent(events[i], env, cost);
    }
    RunKeepsInvariant(events);
  }

  /** Without the graph, fusion is over the two model scores alone: its weight is redistributed. */
  lemma GraphWeightRedistributed(
      fraud: real, fraudAvailable: bool, anomaly: real, anomalyAvailable: bool, network: real, s: Settings)
    requires AllInBounds(Components(fraud, fraudAvailable, anomaly, anomalyAvailable, network, false, s))
    ensures var cs := Components(fraud, fraudAvailable, anomaly, anomalyAvailable, network, false, s);
            AllInBounds(cs[..2]) && UnifiedScore(cs) == UnifiedScore(cs[..2])
  {
    var cs := Components(fraud, fraudAvailable, anomaly, anomalyAvailable, network, false, s);
    assert AllInBounds(cs[..2]) by {
      assert forall c :: c in cs[..2] ==> c in cs;
    }
    UnavailableIgnored(cs);
    UnavailableIgnored(cs[..2]);
    WithoutUnavailable(cs);
  }

  lemma {:induction false} WithoutUnavailable(cs: seq<RiskComponent>)
    requires cs != [] && !cs[|cs| - 1].available
    ensures Available(cs) == Available(cs[..|cs| - 1])
    decreases |cs|
  {
    if |cs| > 1 {
      WithoutUnavailable(cs[1..]);
      assert cs[1..][..|cs| - 2] == cs[..|cs| - 1][1..];
    }
  }
}
