/** The orchestrator object of the analyst API
    (services/analyst_api/veripay_analyst_api/service.py). */
module AnalystOrchestrator {
  import opened Wrappers
  import opened Profiles
  import opened Features
  import opened Adjustments
  import opened Analyst
  import opened AnalystRuns

  class Orchestrator {
    const env: Environment
    const store: ProfileStore
    var scored: map<string, ScoreResponse>
    var explained: map<string, ExplainResponse>
    var lookup: map<int, string>
    var alerts: seq<AlertItem>

    constructor (env: Environment)
      ensures View() == EMPTY && this.env == env && fresh(store)
    {
      this.env := env;
      store := new ProfileStore();
      scored, explained, lookup, alerts := map[], map[], map[], [];
    }

    function View(): State
      reads this, store
    {
      State(store.View(), scored, explained, lookup, alerts)
    }

    /** The scores of one call, fusion and the decision. */
    method EvaluateTransaction(client: Client, tx: TransactionInput) returns (e: Result<Evaluation, Error>)
      ensures e == Pipeline(env, client)(View().store, tx)
    {
      var axes := FindAxes(client, tx);
      if axes.Err? {
        return Err(axes.error);
      }
      var fusion := client.fuse(tx.id, ComponentsOf(axes.value, env.settings));
      if fusion.None? {
        return Err(DOWNSTREAM_FAILED);
      }
      var decided := client.decide(tx.id, fusion.value);
      if decided.None? {
        return Err(DOWNSTREAM_FAILED);
      }
      return Ok(EvaluationOf(env.settings, tx, axes.value, fusion.value, decided.value));
    }

    /** Both models on the features of the request, the two adjustments, and the graph axis. */
    method FindAxes(client: Client, tx: TransactionInput) returns (axes: Result<Axes, Error>)
      ensures axes == AxesFor(env, client, View().store, tx)
    {
      var before := store.View().History(tx.ccNum);
      var features: FeatureInput;
      if tx.modelFeatures.Some? {
        features := Submitted(tx.modelFeatures.value);
      } else if env.settings.rich {
        if !Comparable(tx, before) {
          return Err(NOT_COMPARABLE);
        }
        features := Built(RichVector(env.ext, tx, before, BaselineOf(env.ext, Within90(tx.moment.instant, before))));
      } else {
        var vector := BuildFeatures(env.ext, tx, before);
        if vector.None? {
          return Err(NOT_COMPARABLE);
        }
        features := Built(vector.value);
      }
      var supervised := client.supervised(tx.id, features);
      var anomalyReply := client.anomaly(tx.id, features);
      if supervised.None? || anomalyReply.None? {
        return Err(DOWNSTREAM_FAILED);
      }
      var verdicts := store.View().Verdicts(tx.ccNum);
      var drift := store.DetectDrift(env.ext, tx.ccNum);
      var combined := Combined(env.ext, verdicts, drift, env.settings);
      var graph := GraphAxis(client, tx, AnyConfirmed(env.ext, verdicts));
      return Ok(
        Axes(
          supervised.value, anomalyReply.value, AdjustedFraud(supervised.value.score, combined),
          AdjustedAnomaly(anomalyReply.value.score, combined), graph));
    }

    /** The row is stored before the response is checked; everything else only after. */
    method File(row: StoredTransaction, response: ScoreResponse) returns (result: Result<ScoreResponse, Error>)
      modifies this, store
      ensures response.InBounds() ==>
                View() == Filed(old(View()), Evaluation(row, response)) && result == Ok(response)
      ensures !response.InBounds() ==>
                && View() == old(View()).(store := old(View()).store.WithTransaction(row))
                && result == Err(RESPONSE_REJECTED)
    {
      store.AddTransaction(row);
      if !response.InBounds() {
        return Err(RESPONSE_REJECTED);
      }
      scored := scored[row.id := response];
      lookup := lookup[row.ccNum := row.id];
      if response.decision != PASS {
        alerts := alerts + [AlertFor(row, response)];
      }
      return Ok(response);
    }

    method Score(client: Client, tx: TransactionInput) returns (result: Result<ScoreResponse, Error>)
      modifies this, store
      ensures (View(), result) == ScoreStep(old(View()), tx, Pipeline(env, client))
    {
      if tx.id in scored {
        return Ok(scored[tx.id]);
      }
      var e := EvaluateTransaction(client, tx);
      if e.Err? {
        return Err(e.error);
      }
      result := File(e.value.row, e.value.response);
    }

    method Explain(client: Client, investigate: Investigator, tx: TransactionInput)
      returns (result: Result<ExplainResponse, Error>)
      modifies this, store
      ensures (View(), result) == ExplainStep(old(View()), tx, Pipeline(env, client), investigate)
    {
      var score := Score(client, tx);
      if score.Err? {
        return Err(score.error);
      }
      var summary := investigate(Background(store.View(), tx), score.value);
      if summary.None? {
        return Err(DOWNSTREAM_FAILED);
      }
      var r := ExplainResponse(
        tx.id, tx.ccNum, score.value.riskLevel, PatternOf(score.value), summary.value, score.value);
      explained := explained[tx.id := r];
      return Ok(r);
    }

    method SubmitFeedback(f: StoredFeedback)
      modifies this, store
      ensures View() == Step(old(View()), Feedback(f))
    {
      store.RecordFeedback(f);
    }

    method Alerts() returns (queue: seq<AlertItem>)
      ensures Queued(View().alerts, queue)
    {
      QueueOrdered(alerts);
      queue := AlertQueue(alerts);
    }

    method FindScore(id: Option<string>, ccNum: Option<int>) returns (r: Option<ScoreResponse>)
      ensures Invariant(View()) ==> ScoreFound(View(), id, ccNum, r)
    {
      if Invariant(View()) {
        LookupFinds(View(), id, ccNum);
      }
      r := LookupScore(View(), id, ccNum);
    }

    method FindExplanation(id: Option<string>, ccNum: Option<int>) returns (r: Option<ExplainResponse>)
      ensures Invariant(View()) ==> ExplanationFound(View(), id, ccNum, r)
    {
      if Invariant(View()) {
        LookupExplains(View(), id, ccNum);
      }
      r := LookupExplain(View(), id, ccNum);
    }
  }
}
