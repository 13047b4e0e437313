/** Scoring, explaining and feedback of the analyst API as a state machine
    (services/analyst_api/veripay_analyst_api/service.py). */
module Analyst {
  import opened Wrappers
  import opened Rounding
  import opened RiskPolicy
  import opened RiskFusion
  import opened Sorting
  import opened Profiles
  import opened Features
  import opened Adjustments

  // ---------------------------------------------------------------- the downstream services

  datatype Environment = Environment(ext: Externals, settings: Settings)

  datatype FeatureInput = Submitted(columns: map<string, real>) | Built(vector: ModelVector)

  datatype ModelReply = ModelReply(score: real, available: bool)

  datatype GraphReply = GraphReply(score: real, available: bool, findings: seq<string>)

  datatype GraphRequest = GraphRequest(
    id: string, ccNum: int, merchant: string, amount: real, moment: Moment, flagged: bool)

  datatype FusionReply = FusionReply(score: int, band: RiskBand, tier: RiskTier)

  datatype DecisionReply = DecisionReply(action: DecisionAction, tier: RiskTier, band: RiskBand)

  /** What the services answer during one call; no answer is a failure. */
  datatype Client = Client(
    supervised: (string, FeatureInput) -> Option<ModelReply>,
    anomaly: (string, FeatureInput) -> Option<ModelReply>,
    graph: GraphRequest -> Option<GraphReply>,
    fuse: (string, seq<RiskComponent>) -> Option<FusionReply>,
    decide: (string, FusionReply) -> Option<DecisionReply>)

  // ---------------------------------------------------------------- one evaluation

  datatype ScoreResponse = ScoreResponse(
    id: string, ccNum: int, decision: Decision, riskLevel: RiskLevel, action: DecisionAction, band: RiskBand,
    tier: RiskTier, fused: int, fraud: real, anomaly: real, rawFraud: real, rawAnomaly: real,
    modelAvailable: bool, rich: bool, networkScore: real, networkAvailable: bool, findings: seq<string>)
  {
    /** The bounds the response model enforces. */
    predicate InBounds() {
      && 0 <= fused <= 100 && 0.0 <= fraud <= 1.0 && 0.0 <= anomaly <= 1.0
      && 0.0 <= rawFraud <= 1.0 && 0.0 <= rawAnomaly <= 1.0 && 0.0 <= networkScore <= 1.0
    }
  }

  /** A history row and the response that belongs to it. */
  datatype Evaluation = Evaluation(row: StoredTransaction, response: ScoreResponse)

  datatype Error = NOT_COMPARABLE | DOWNSTREAM_FAILED | RESPONSE_REJECTED

  /** Submitted features are passed on; both engines raise on a time they cannot compare. */
  function FeaturesFor(env: Environment, tx: TransactionInput, before: seq<StoredTransaction>)
    : Result<FeatureInput, Error>
  {
    if tx.modelFeatures.Some? then Ok(Submitted(tx.modelFeatures.value))
    else if !Comparable(tx, before) then Err(NOT_COMPARABLE)
    else if env.settings.rich then
      Ok(Built(RichVector(env.ext, tx, before, BaselineOf(env.ext, Within90(tx.moment.instant, before)))))
    else Ok(Built(BasicVector(env.ext, tx, before)))
  }

  /** The models are sent the same features in both modes, and only rows before the transaction reach them. */
  lemma ModelInputCausal(
      env: Environment, rich: bool, tx: TransactionInput, rows: seq<StoredTransaction>,
      others: seq<StoredTransaction>)
    requires Filter(Before(tx.moment.instant), rows) == Filter(Before(tx.moment.instant), others)
    ensures var mine := FeaturesFor(env, tx, Sorted(Instant, rows));
            var theirs := FeaturesFor(env.(settings := env.settings.(rich := rich)), tx, Sorted(Instant, others));
            && (mine.Ok? && theirs.Ok? ==> mine == theirs)
            && (tx.zoned || tx.modelFeatures.Some? ==> mine.Ok? && theirs.Ok?)
  {
    var h, k := Sorted(Instant, rows), Sorted(Instant, others);
    var b := BaselineOf(env.ext, Within90(tx.moment.instant, h));
    var c := BaselineOf(env.ext, Within90(tx.moment.instant, k));
    OneCausalVector(env.ext, tx, rows, others, b, c);
    OneCausalVector(env.ext, tx, others, rows, c, b);
    OneCausalVector(env.ext, tx, rows, rows, b, b);
  }

  function GraphAxis(client: Client, tx: TransactionInput, confirmed: bool): GraphReply {
    match client.graph(GraphRequest(tx.id, tx.ccNum, tx.merchant, tx.amount, tx.moment, confirmed))
    case Some(reply) => reply
    case None => GraphReply(0.0, false, [])
  }

  /** The three axes of one call: the models' answers, the adjusted scores, and the graph's answer. */
  datatype Axes = Axes(
    supervised: ModelReply, anomalyReply: ModelReply, fraud: real, anomaly: real, graph: GraphReply)

  function AxesFor(env: Environment, client: Client, store: Store, tx: TransactionInput): Result<Axes, Error> {
    var before := store.History(tx.ccNum);
    match FeaturesFor(env, tx, before)
    case Err(e) => Err(e)
    case Ok(features) =>
      var supervised, anomalyReply := client.supervised(tx.id, features), client.anomaly(tx.id, features);
      if supervised.None? || anomalyReply.None? then Err(DOWNSTREAM_FAILED)
      else
        var verdicts := store.Verdicts(tx.ccNum);
        var combined := Combined(env.ext, verdicts, DriftOf(env.ext, before), env.settings);
        Ok(
          Axes(
            supervised.value, anomalyReply.value, AdjustedFraud(supervised.value.score, combined),
            AdjustedAnomaly(anomalyReply.value.score, combined),
            GraphAxis(client, tx, AnyConfirmed(env.ext, verdicts))))
  }

  function ComponentsOf(axes: Axes, s: Settings): seq<RiskComponent> {
    Components(
      axes.fraud, axes.supervised.available, axes.anomaly, axes.anomalyReply.available, axes.graph.score,
      axes.graph.available, s)
  }

  function EvaluationOf(
      s: Settings, tx: TransactionInput, axes: Axes, fusion: FusionReply, decided: DecisionReply): Evaluation
  {
    var decision := DocDecision(decided.action, axes.fraud, axes.anomaly, s);
    Evaluation(
      StoredTransaction(
        tx.id, tx.ccNum, tx.amount, tx.merchant, tx.category, tx.moment, tx.location, tx.merchantLocation, decision),
      ScoreResponse(
        tx.id, tx.ccNum, decision, MapRiskLevel(decided.tier), decided.action, decided.band, decided.tier,
        fusion.score, RoundTo(axes.fraud, 10000.0), RoundTo(axes.anomaly, 10000.0),
        RoundTo(axes.supervised.score, 10000.0), RoundTo(axes.anomalyReply.score, 10000.0),
        axes.supervised.available && axes.anomalyReply.available, tx.modelFeatures.None? && s.rich,
        RoundTo(axes.graph.score, 10000.0), axes.graph.available, axes.graph.findings))
  }

  /** The whole pipeline for a transaction not scored before. */
  function Evaluate(env: Environment, client: Client, store: Store, tx: TransactionInput): Result<Evaluation, Error> {
    match AxesFor(env, client, store, tx)
    case Err(e) => Err(e)
    case Ok(axes) =>
      match client.fuse(tx.id, ComponentsOf(axes, env.settings))
      case None => Err(DOWNSTREAM_FAILED)
      case Some(fusion) =>
        match client.decide(tx.id, fusion)
        case None => Err(DOWNSTREAM_FAILED)
        case Some(decided) => Ok(EvaluationOf(env.settings, tx, axes, fusion, decided))
  }

  /** What a call computes from the store, as one value. */
  type Evaluator = (Store, TransactionInput) -> Result<Evaluation, Error>

  function Pipeline(env: Environment, client: Client): Evaluator {
    (store: Store, tx: TransactionInput) => Evaluate(env, client, store, tx)
  }

  // ---------------------------------------------------------------- the state

  datatype AlertItem = AlertItem(
    id: string, ccNum: int, amount: real, merchant: string, decision: Decision, riskLevel: RiskLevel,
    fraud: real, anomaly: real)

  datatype Pattern = TAKEOVER | UNUSUAL | STEALTH | NO_PATTERN | NETWORK_CONNECTED

  datatype ExplainResponse = ExplainResponse(
    id: string, ccNum: int, riskLevel: RiskLevel, pattern: Pattern, summary: string, score: ScoreResponse)

  datatype State = State(
    store: Store, scored: map<string, ScoreResponse>, explained: map<string, ExplainResponse>,
    lookup: map<int, string>, alerts: seq<AlertItem>)

  const EMPTY := State(Store(map[], [], map[]), map[], map[], map[], [])

  function AlertFor(row: StoredTransaction, r: ScoreResponse): AlertItem {
    AlertItem(row.id, row.ccNum, RoundTo(row.amount, 100.0), row.merchant, r.decision, r.riskLevel, r.fraud, r.anomaly)
  }

  function PatternOf(score: ScoreResponse): Pattern {
    var larger := if score.rawFraud < score.rawAnomaly then score.rawAnomaly else score.rawFraud;
    if score.networkAvailable && score.networkScore >= larger && score.networkScore > 0.0 then NETWORK_CONNECTED
    else if score.fraud >= 0.6 && score.anomaly >= 0.6 then TAKEOVER
    else if score.anomaly >= 0.6 then UNUSUAL
    else if score.fraud >= 0.6 then STEALTH
    else NO_PATTERN
  }

  // ---------------------------------------------------------------- the calls

  /** The response is kept, found by customer, and raised as an alert unless it passes. */
  function Filed(st: State, e: Evaluation): State {
    State(
      st.store.WithTransaction(e.row), st.scored[e.row.id := e.response], st.explained,
      st.lookup[e.row.ccNum := e.row.id],
      if e.response.decision != PASS then st.alerts + [AlertFor(e.row, e.response)] else st.alerts)
  }

  function ScoreStep(st: State, tx: TransactionInput, evaluate: Evaluator): (State, Result<ScoreResponse, Error>) {
    if tx.id in st.scored then (st, Ok(st.scored[tx.id]))
    else
      match evaluate(st.store, tx)
      case Err(error) => (st, Err(error))
      case Ok(e) =>
        if e.response.InBounds() then (Filed(st, e), Ok(e.response))
        else (st.(store := st.store.WithTransaction(e.row)), Err(RESPONSE_REJECTED))
  }

  /** The investigation's answer to the customer's latest other transactions and the score. */
  type Investigator = (seq<StoredTransaction>, ScoreResponse) -> Option<string>

  function OtherThan(id: string): StoredTransaction -> bool {
    (t: StoredTransaction) => t.id != id
  }

  function Background(store: Store, tx: TransactionInput): seq<StoredTransaction> {
    LastSlice(Filter(OtherThan(tx.id), store.History(tx.ccNum)), 20)
  }

  function ExplainStep(st: State, tx: TransactionInput, evaluate: Evaluator, investigate: Investigator)
    : (State, Result<ExplainResponse, Error>)
  {
    match ScoreStep(st, tx, evaluate)
    case (after, Err(e)) => (after, Err(e))
    case (after, Ok(score)) => Explained(after, tx, score, investigate)
  }

  function Explained(st: State, tx: TransactionInput, score: ScoreResponse, investigate: Investigator)
    : (State, Result<ExplainResponse, Error>)
  {
    match investigate(Background(st.store, tx), score)
    case None => (st, Err(DOWNSTREAM_FAILED))
    case Some(summary) =>
      var r := ExplainResponse(tx.id, tx.ccNum, score.riskLevel, PatternOf(score), summary, score);
      (st.(explained := st.explained[tx.id := r]), Ok(r))
  }

  datatype Event =
    | Score(tx: TransactionInput, evaluate: Evaluator)
    | Explain(tx: TransactionInput, evaluate: Evaluator, investigate: Investigator)
    | Feedback(feedback: StoredFeedback)

  function Step(st: State, e: Event): State {
    match e
    case Score(tx, evaluate) => ScoreStep(st, tx, evaluate).0
    case Explain(tx, evaluate, investigate) => ExplainStep(st, tx, evaluate, investigate).0
    case Feedback(f) => st.(store := st.store.WithFeedback(f))
  }

  function Run(st: State, events: seq<Event>): State {
    if events == [] then st else Step(Run(st, events[..|events| - 1]), events[|events| - 1])
  }

  // ---------------------------------------------------------------- queries

  function Suspicion(a: AlertItem): real {
    a.fraud + a.anomaly
  }

  function LeastSuspicion(a: AlertItem): real {
    -Suspicion(a)
  }

  /** Most suspicious first; equals in the order they were raised. */
  function AlertQueue(alerts: seq<AlertItem>): seq<AlertItem> {
    Sorted(LeastSuspicion, alerts)
  }

  /** The identifier asked for, or the customer's latest. */
  function LookupKey(st: State, id: Option<string>, ccNum: Option<int>): Option<string> {
    if id.Some? && id.value != "" then id
    else
      var customer := if ccNum.Some? && ccNum.value != 0 then ccNum.value else -1;
      if customer in st.lookup then Some(st.lookup[customer]) else None
  }

  function LookupScore(st: State, id: Option<string>, ccNum: Option<int>): Option<ScoreResponse> {
    match LookupKey(st, id, ccNum)
    case None => None
    case Some(key) => if key in st.scored then Some(st.scored[key]) else None
  }

  function LookupExplain(st: State, id: Option<string>, ccNum: Option<int>): Option<ExplainResponse> {
    match LookupKey(st, id, ccNum)
    case None => None
    case Some(key) => if key in st.explained then Some(st.explained[key]) else None
  }
}
