/** What every run of the analyst API keeps, and what breaks it
    (services/analyst_api/veripay_analyst_api/service.py). */
module AnalystRuns {
  import opened Wrappers
  import opened Sorting
  import opened Profiles
  import opened Features
  import opened Analyst

  // ---------------------------------------------------------------- what is assumed of evaluations

  /** An evaluation is about the transaction it was asked for; it does not reject responses itself. */
  ghost predicate About(e: Evaluation, tx: TransactionInput) {
    && e.row.id == tx.id && e.row.ccNum == tx.ccNum
    && e.response.id == tx.id && e.response.ccNum == tx.ccNum && e.response.decision == e.row.decision
  }

  ghost predicate Coherent(evaluate: Evaluator) {
    forall store, tx ::
      match evaluate(store, tx)
      case Ok(e) => About(e, tx)
      case Err(error) => error != RESPONSE_REJECTED
  }

  ghost predicate InRange(evaluate: Evaluator) {
    forall store, tx :: evaluate(store, tx).Ok? ==> evaluate(store, tx).value.response.InBounds()
  }

  ghost predicate Lawful(e: Event) {
    match e
    case Score(_, evaluate) => Coherent(evaluate)
    case Explain(_, evaluate, _) => Coherent(evaluate)
    case Feedback(_) => true
  }

  ghost predicate Ranged(e: Event) {
    match e
    case Score(_, evaluate) => InRange(evaluate)
    case Explain(_, evaluate, _) => InRange(evaluate)
    case Feedback(_) => true
  }

  // ---------------------------------------------------------------- the invariant

  /** A customer's rows: one for each of the customer's scored transactions, and no others. */
  ghost predicate CustomerRows(scored: map<string, ScoreResponse>, ccNum: int, rows: seq<StoredTransaction>) {
    && (forall i :: 0 <= i < |rows| ==> RowFits(scored, ccNum, rows[i]))
    && (forall i, j :: 0 <= i < j < |rows| ==> rows[i].id != rows[j].id)
    && (forall id <- scored :: scored[id].ccNum == ccNum ==> HasRow(rows, id))
  }

  ghost predicate RowFits(scored: map<string, ScoreResponse>, ccNum: int, row: StoredTransaction) {
    && row.ccNum == ccNum && row.id in scored
    && scored[row.id].ccNum == ccNum && scored[row.id].decision == row.decision
  }

  ghost predicate HasRow(rows: seq<StoredTransaction>, id: string) {
    exists i :: 0 <= i < |rows| && rows[i].id == id
  }

  type Transactions = map<int, seq<StoredTransaction>>

  ghost predicate RowsMatch(scored: map<string, ScoreResponse>, transactions: Transactions) {
    forall ccNum: int :: CustomerRows(scored, ccNum, RowsIn(transactions, ccNum))
  }

  /** One alert for each scored transaction that did not pass, and no others. */
  ghost predicate AlertsMatch(scored: map<string, ScoreResponse>, alerts: seq<AlertItem>) {
    && (forall i :: 0 <= i < |alerts| ==> AlertFits(scored, alerts[i]))
    && (forall i, j :: 0 <= i < j < |alerts| ==> alerts[i].id != alerts[j].id)
    && (forall id <- scored :: scored[id].decision != PASS ==> HasAlert(alerts, id))
  }

  ghost predicate AlertFits(scored: map<string, ScoreResponse>, a: AlertItem) {
    && a.id in scored && scored[a.id].decision != PASS
    && a.decision == scored[a.id].decision && a.ccNum == scored[a.id].ccNum
    && a.fraud == scored[a.id].fraud && a.anomaly == scored[a.id].anomaly
  }

  ghost predicate HasAlert(alerts: seq<AlertItem>, id: string) {
    exists i :: 0 <= i < |alerts| && alerts[i].id == id
  }

  /** Looking a customer up finds the customer's latest scored transaction. */
  ghost predicate LookupMatches(
      scored: map<string, ScoreResponse>, transactions: Transactions, lookup: map<int, string>)
  {
    && (forall ccNum <- lookup :: LookupFits(scored, RowsIn(transactions, ccNum), ccNum, lookup[ccNum]))
    && (forall id <- scored :: scored[id].ccNum in lookup)
  }

  ghost predicate LookupFits(
      scored: map<string, ScoreResponse>, rows: seq<StoredTransaction>, ccNum: int, id: string)
  {
    && id in scored && scored[id].ccNum == ccNum
    && rows != [] && rows[|rows| - 1].id == id
  }

  /** Explanations hold the stored scores. */
  ghost predicate ExplanationsMatch(scored: map<string, ScoreResponse>, explained: map<string, ExplainResponse>) {
    forall id <- explained :: id in scored && explained[id].id == id && explained[id].score == scored[id]
  }

  /** Scores are kept under their names, and the store knows their customers and no others. */
  ghost predicate NamesMatch(scored: map<string, ScoreResponse>, customerByTx: map<string, int>) {
    && customerByTx.Keys == scored.Keys
    && (forall id <- scored :: scored[id].id == id && customerByTx[id] == scored[id].ccNum)
  }

  ghost predicate Invariant(st: State) {
    && RowsMatch(st.scored, st.store.transactions)
    && AlertsMatch(st.scored, st.alerts)
    && LookupMatches(st.scored, st.store.transactions, st.lookup)
    && ExplanationsMatch(st.scored, st.explained)
    && NamesMatch(st.scored, st.store.customerByTx)
  }

  // ---------------------------------------------------------------- filing keeps it

  lemma AddedRow(
      scored: map<string, ScoreResponse>, ccNum: int, rows: seq<StoredTransaction>, row: StoredTransaction,
      r: ScoreResponse)
    requires CustomerRows(scored, ccNum, rows)
    requires row.id !in scored && row.ccNum == ccNum == r.ccNum && row.decision == r.decision
    ensures CustomerRows(scored[row.id := r], ccNum, rows + [row])
  {
    var more, longer := scored[row.id := r], rows + [row];
    forall id <- more | more[id].ccNum == ccNum
      ensures HasRow(longer, id)
    {
      if id == row.id {
        assert longer[|rows|].id == id;
      } else {
        assert HasRow(rows, id);
        var i :| 0 <= i < |rows| && rows[i].id == id;
        assert longer[i].id == id;
      }
    }
  }

  lemma OtherCustomersRows(
      scored: map<string, ScoreResponse>, ccNum: int, rows: seq<StoredTransaction>, id: string, r: ScoreResponse)
    requires CustomerRows(scored, ccNum, rows) && id !in scored && r.ccNum != ccNum
    ensures CustomerRows(scored[id := r], ccNum, rows)
  {
  }

  lemma FiledRows(st: State, tx: TransactionInput, e: Evaluation)
    requires RowsMatch(st.scored, st.store.transactions) && tx.id !in st.scored && About(e, tx)
    ensures RowsMatch(Filed(st, e).scored, Filed(st, e).store.transactions)
  {
    var after := Filed(st, e);
    forall ccNum: int
      ensures CustomerRows(after.scored, ccNum, RowsIn(after.store.transactions, ccNum))
    {
      var rows := RowsIn(st.store.transactions, ccNum);
      assert CustomerRows(st.scored, ccNum, rows);
      if ccNum == tx.ccNum {
        AddedRow(st.scored, ccNum, rows, e.row, e.response);
      } else {
        OtherCustomersRows(st.scored, ccNum, rows, tx.id, e.response);
      }
    }
  }

  lemma AddedAlert(
      scored: map<string, ScoreResponse>, alerts: seq<AlertItem>, row: StoredTransaction, r: ScoreResponse)
    requires AlertsMatch(scored, alerts)
    requires row.id !in scored && row.ccNum == r.ccNum && row.decision == r.decision
    ensures AlertsMatch(scored[row.id := r], if r.decision != PASS then alerts + [AlertFor(row, r)] else alerts)
  {
    var more := scored[row.id := r];
    var longer := if r.decision != PASS then alerts + [AlertFor(row, r)] else alerts;
    forall id <- more | more[id].decision != PASS
      ensures HasAlert(longer, id)
    {
      if id == row.id {
        assert longer[|alerts|].id == id;
      } else {
        assert HasAlert(alerts, id);
        var i :| 0 <= i < |alerts| && alerts[i].id == id;
        assert longer[i].id == id;
      }
    }
  }

  lemma FiledLookup(st: State, tx: TransactionInput, e: Evaluation)
    requires LookupMatches(st.scored, st.store.transactions, st.lookup) && tx.id !in st.scored && About(e, tx)
    ensures LookupMatches(Filed(st, e).scored, Filed(st, e).store.transactions, Filed(st, e).lookup)
  {
    var after := Filed(st, e);
    forall ccNum <- after.lookup
      ensures LookupFits(after.scored, RowsIn(after.store.transactions, ccNum), ccNum, after.lookup[ccNum])
    {
      if ccNum != tx.ccNum {
        assert LookupFits(st.scored, RowsIn(st.store.transactions, ccNum), ccNum, st.lookup[ccNum]);
      }
    }
  }

  lemma FiledCopies(st: State, tx: TransactionInput, e: Evaluation)
    requires ExplanationsMatch(st.scored, st.explained) && NamesMatch(st.scored, st.store.customerByTx)
    requires tx.id !in st.scored && About(e, tx)
    ensures ExplanationsMatch(Filed(st, e).scored, Filed(st, e).explained)
    ensures NamesMatch(Filed(st, e).scored, Filed(st, e).store.customerByTx)
  {
  }

  lemma FiledKeepsInvariant(st: State, tx: TransactionInput, e: Evaluation)
    requires Invariant(st) && tx.id !in st.scored && About(e, tx)
    ensures Invariant(Filed(st, e))
  {
    FiledRows(st, tx, e);
    AddedAlert(st.scored, st.alerts, e.row, e.response);
    FiledLookup(st, tx, e);
    FiledCopies(st, tx, e);
  }

  lemma ScoreKeepsInvariant(st: State, tx: TransactionInput, evaluate: Evaluator)
    requires Invariant(st) && Coherent(evaluate) && InRange(evaluate)
    ensures Invariant(ScoreStep(st, tx, evaluate).0)
    ensures ScoreStep(st, tx, evaluate).1.Ok? ==>
              var after := ScoreStep(st, tx, evaluate).0;
              tx.id in after.scored && after.scored[tx.id] == ScoreStep(st, tx, evaluate).1.value
  {
    if tx.id !in st.scored && evaluate(st.store, tx).Ok? {
      FiledKeepsInvariant(st, tx, evaluate(st.store, tx).value);
    }
  }

  lemma ExplainedKeepsInvariant(st: State, tx: TransactionInput, score: ScoreResponse, investigate: Investigator)
    requires Invariant(st) && tx.id in st.scored && score == st.scored[tx.id]
    ensures Invariant(Explained(st, tx, score, investigate).0)
  {
    ExplainedFits(st, tx, score, investigate);
    OnlyExplained(st, Explained(st, tx, score, investigate).0.explained);
  }

  lemma ExplainedFits(st: State, tx: TransactionInput, score: ScoreResponse, investigate: Investigator)
    requires ExplanationsMatch(st.scored, st.explained) && tx.id in st.scored && score == st.scored[tx.id]
    ensures var after := Explained(st, tx, score, investigate).0;
            after == st.(explained := after.explained) && ExplanationsMatch(st.scored, after.explained)
  {
  }

  lemma OnlyExplained(st: State, explained: map<string, ExplainResponse>)
    requires Invariant(st) && ExplanationsMatch(st.scored, explained)
    ensures Invariant(st.(explained := explained))
  {
  }

  lemma FeedbackKeepsInvariant(st: State, f: StoredFeedback)
    requires Invariant(st)
    ensures Invariant(st.(store := st.store.WithFeedback(f)))
  {
  }

  lemma ExplainKeepsInvariant(st: State, tx: TransactionInput, evaluate: Evaluator, investigate: Investigator)
    requires Invariant(st) && Coherent(evaluate) && InRange(evaluate)
    ensures Invariant(ExplainStep(st, tx, evaluate, investigate).0)
  {
    ScoreKeepsInvariant(st, tx, evaluate);
    match ScoreStep(st, tx, evaluate)
    case (after, Err(_)) =>
    case (after, Ok(score)) => ExplainedKeepsInvariant(after, tx, score, investigate);
  }

  lemma StepKeepsInvariant(st: State, e: Event)
    requires Invariant(st) && Lawful(e) && Ranged(e)
    ensures Invariant(Step(st, e))
  {
    match e
    case Score(tx, evaluate) => ScoreKeepsInvariant(st, tx, evaluate);
    case Explain(tx, evaluate, investigate) => ExplainKeepsInvariant(st, tx, evaluate, investigate);
    case Feedback(f) => FeedbackKeepsInvariant(st, f);
  }

  /** From the empty state, with answers in range, every run keeps one row per scored transaction, one alert
      per response that does not pass, the customer lookups and the explanations. */
  lemma {:induction false} RunKeepsInvariant(events: seq<Event>)
    requires forall i :: 0 <= i < |events| ==> Lawful(events[i]) && Ranged(events[i])
    ensures Invariant(Run(EMPTY, events))
    decreases |events|
  {
    if events != [] {
      var n := |events| - 1;
      RunKeepsInvariant(events[..n]);
      StepKeepsInvariant(Run(EMPTY, events[..n]), events[n]);
    }
  }

  // ---------------------------------------------------------------- scores never change

  /** Scores are never revised; alerts and history rows are only added. */
  ghost predicate Extends(later: State, st: State) {
    && (forall id <- st.scored :: id in later.scored && later.scored[id] == st.scored[id])
    && st.alerts <= later.alerts
    && (forall ccNum: int :: st.store.Rows(ccNum) <= later.store.Rows(ccNum))
    && st.store.feedback <= later.store.feedback
  }

  lemma StepExtends(st: State, e: Event)
    requires Lawful(e)
    ensures Extends(Step(st, e), st)
  {
    match e
    case Score(tx, evaluate) =>
      ScoreExtends(st, tx, evaluate);
    case Explain(tx, evaluate, investigate) =>
      ScoreExtends(st, tx, evaluate);
    case Feedback(_) =>
  }

  lemma ScoreExtends(st: State, tx: TransactionInput, evaluate: Evaluator)
    requires Coherent(evaluate)
    ensures Extends(ScoreStep(st, tx, evaluate).0, st)
  {
  }

  /** Over any run whatever, answers in range or not. */
  lemma {:induction false} RunExtends(st: State, events: seq<Event>)
    requires forall i :: 0 <= i < |events| ==> Lawful(events[i])
    ensures Extends(Run(st, events), st)
    decreases |events|
  {
    if events != [] {
      var n := |events| - 1;
      RunExtends(st, events[..n]);
      StepExtends(Run(st, events[..n]), events[n]);
      ExtendsOn(Step(Run(st, events[..n]), events[n]), Run(st, events[..n]), st);
    }
  }

  lemma ExtendsOn(c: State, b: State, a: State)
    requires Extends(c, b) && Extends(b, a)
    ensures Extends(c, a)
  {
  }

  /** Scoring again answers the same and changes nothing, whatever the request and the services say now. */
  lemma RescoringIsNoOp(
      st: State, tx: TransactionInput, evaluate: Evaluator, again: TransactionInput, other: Evaluator)
    requires Coherent(evaluate) && again.id == tx.id && ScoreStep(st, tx, evaluate).1.Ok?
    ensures ScoreStep(ScoreStep(st, tx, evaluate).0, again, other) == ScoreStep(st, tx, evaluate)
  {
  }

  // ---------------------------------------------------------------- rejected responses

  /** A rejected response leaves its history row behind: the rows keep matching the scores exactly when the
      transaction was scored before, a service failed, or the answers are in bounds. */
  lemma OrphanExactly(st: State, tx: TransactionInput, evaluate: Evaluator)
    requires Invariant(st) && Coherent(evaluate)
    ensures RowsMatch(ScoreStep(st, tx, evaluate).0.scored, ScoreStep(st, tx, evaluate).0.store.transactions) <==>
            || tx.id in st.scored || evaluate(st.store, tx).Err?
            || evaluate(st.store, tx).value.response.InBounds()
  {
    if tx.id !in st.scored && evaluate(st.store, tx).Ok? {
      var e := evaluate(st.store, tx).value;
      if e.response.InBounds() {
        FiledRows(st, tx, e);
      } else {
        var after := ScoreStep(st, tx, evaluate).0;
        var rows := after.store.Rows(tx.ccNum);
        assert rows[|rows| - 1].id == tx.id;
        assert !RowFits(after.scored, tx.ccNum, rows[|rows| - 1]);
        assert !CustomerRows(after.scored, tx.ccNum, rows);
      }
    }
  }

  /** Trying again after a rejection gives the transaction a second history row. */
  lemma RetryAddsRow(st: State, tx: TransactionInput, evaluate: Evaluator, again: Evaluator)
    requires Coherent(evaluate) && Coherent(again) && tx.id !in st.scored
    requires ScoreStep(st, tx, evaluate).1 == Err(RESPONSE_REJECTED)
    requires ScoreStep(ScoreStep(st, tx, evaluate).0, tx, again).1.Ok?
    ensures var after := ScoreStep(ScoreStep(st, tx, evaluate).0, tx, again).0;
            var rows := after.store.Rows(tx.ccNum);
            && |rows| == |st.store.Rows(tx.ccNum)| + 2
            && rows[|rows| - 1].id == rows[|rows| - 2].id == tx.id
            && !RowsMatch(after.scored, after.store.transactions)
  {
    var after := ScoreStep(ScoreStep(st, tx, evaluate).0, tx, again).0;
    var rows := after.store.Rows(tx.ccNum);
    assert rows[|rows| - 2].id == rows[|rows| - 1].id;
    assert !CustomerRows(after.scored, tx.ccNum, rows);
  }

  // ---------------------------------------------------------------- orphaned rows over runs

  /** A new transaction's response is rejected. */
  predicate Rejects(st: State, tx: TransactionInput, evaluate: Evaluator) {
    tx.id !in st.scored && evaluate(st.store, tx).Ok? && !evaluate(st.store, tx).value.response.InBounds()
  }

  predicate RejectedAt(st: State, e: Event) {
    match e
    case Score(tx, evaluate) => Rejects(st, tx, evaluate)
    case Explain(tx, evaluate, _) => Rejects(st, tx, evaluate)
    case Feedback(_) => false
  }

  /** The call at place `i` of the run. */
  predicate RejectedBy(events: seq<Event>, i: nat)
    requires i < |events|
  {
    RejectedAt(Run(EMPTY, events[..i]), events[i])
  }

  predicate NothingRejected(events: seq<Event>) {
    forall i :: 0 <= i < |events| ==> !RejectedBy(events, i)
  }

  /** The row belongs to no score of its customer, or not alone. */
  predicate Stray(scored: map<string, ScoreResponse>, ccNum: int, rows: seq<StoredTransaction>, i: nat) {
    && i < |rows|
    && (|| rows[i].id !in scored || scored[rows[i].id].ccNum != ccNum
        || exists j :: 0 <= j < |rows| && j != i && rows[j].id == rows[i].id)
  }

  lemma StrayBreaks(st: State, ccNum: int, i: nat)
    requires Stray(st.scored, ccNum, st.store.Rows(ccNum), i)
    ensures !RowsMatch(st.scored, st.store.transactions)
  {
    var rows := RowsIn(st.store.transactions, ccNum);
    assert RowFits(st.scored, ccNum, rows[i]) ==> rows[i].id in st.scored && st.scored[rows[i].id].ccNum == ccNum;
    assert !CustomerRows(st.scored, ccNum, rows);
  }

  /** No later score mends a stray row: scoring the transaction for its customer adds a second row, and scoring it
      for another customer leaves the first without a score of its own customer. */
  lemma StrayStays(st: State, tx: TransactionInput, evaluate: Evaluator, ccNum: int, i: nat)
    requires Coherent(evaluate) && Stray(st.scored, ccNum, st.store.Rows(ccNum), i)
    ensures var after := ScoreStep(st, tx, evaluate).0;
            Stray(after.scored, ccNum, after.store.Rows(ccNum), i)
  {
    var after := ScoreStep(st, tx, evaluate).0;
    var rows, longer := st.store.Rows(ccNum), after.store.Rows(ccNum);
    assert rows <= longer && longer[i] == rows[i];
    if j :| 0 <= j < |rows| && j != i && rows[j].id == rows[i].id {
      assert longer[j].id == longer[i].id;
    } else if rows[i].id !in st.scored && tx.id == rows[i].id && tx.ccNum == ccNum && after != st {
      assert longer[|rows|].id == longer[i].id;
    }
  }

  lemma StepRows(st: State, e: Event)
    requires Lawful(e) && RowsMatch(st.scored, st.store.transactions) && !RejectedAt(st, e)
    ensures RowsMatch(Step(st, e).scored, Step(st, e).store.transactions)
  {
    match e
    case Score(tx, evaluate) => ScoreRows(st, tx, evaluate);
    case Explain(tx, evaluate, _) => ScoreRows(st, tx, evaluate);
    case Feedback(_) =>
  }

  lemma ScoreRows(st: State, tx: TransactionInput, evaluate: Evaluator)
    requires Coherent(evaluate) && RowsMatch(st.scored, st.store.transactions) && !Rejects(st, tx, evaluate)
    ensures RowsMatch(ScoreStep(st, tx, evaluate).0.scored, ScoreStep(st, tx, evaluate).0.store.transactions)
  {
    if tx.id !in st.scored && evaluate(st.store, tx).Ok? {
      FiledRows(st, tx, evaluate(st.store, tx).value);
    }
  }

  lemma StepStray(st: State, e: Event, ccNum: int, i: nat)
    requires Lawful(e) && Stray(st.scored, ccNum, st.store.Rows(ccNum), i)
    ensures Stray(Step(st, e).scored, ccNum, Step(st, e).store.Rows(ccNum), i)
  {
    match e
    case Score(tx, evaluate) => StrayStays(st, tx, evaluate, ccNum, i);
    case Explain(tx, evaluate, _) => StrayStays(st, tx, evaluate, ccNum, i);
    case Feedback(_) =>
  }

  lemma RejectionStrays(st: State, e: Event) returns (ccNum: int, i: nat)
    requires Lawful(e) && RejectedAt(st, e)
    ensures Stray(Step(st, e).scored, ccNum, Step(st, e).store.Rows(ccNum), i)
  {
    ccNum := e.tx.ccNum;
    i := |st.store.Rows(ccNum)|;
    assert Step(st, e).store.Rows(ccNum)[i].id == e.tx.id;
  }

  lemma {:induction false} RunStrays(events: seq<Event>) returns (ccNum: int, i: nat)
    requires forall k :: 0 <= k < |events| ==> Lawful(events[k])
    requires !NothingRejected(events)
    ensures Stray(Run(EMPTY, events).scored, ccNum, Run(EMPTY, events).store.Rows(ccNum), i)
    decreases |events|
  {
    var n := |events| - 1;
    if RejectedBy(events, n) {
      ccNum, i := RejectionStrays(Run(EMPTY, events[..n]), events[n]);
    } else {
      RejectedEarlier(events);
      ccNum, i := RunStrays(events[..n]);
      StepStray(Run(EMPTY, events[..n]), events[n], ccNum, i);
    }
  }

  lemma RejectedEarlier(events: seq<Event>)
    requires events != [] && !RejectedBy(events, |events| - 1)
    ensures NothingRejected(events) <==> NothingRejected(events[..|events| - 1])
  {
    var rest := events[..|events| - 1];
    forall i | 0 <= i < |rest|
      ensures RejectedBy(rest, i) == RejectedBy(events, i)
    {
      assert rest[..i] == events[..i];
    }
  }

  /** Over every run from the empty state the rows match the scores in the end exactly when no response to a new
      transaction was rejected on the way: a row once orphaned is never mended. */
  lemma {:induction false} RunOrphanExactly(events: seq<Event>)
    requires forall k :: 0 <= k < |events| ==> Lawful(events[k])
    ensures RowsMatch(Run(EMPTY, events).scored, Run(EMPTY, events).store.transactions) <==> NothingRejected(events)
    decreases |events|
  {
    if !NothingRejected(events) {
      var ccNum, i := RunStrays(events);
      StrayBreaks(Run(EMPTY, events), ccNum, i);
    } else if events != [] {
      var n := |events| - 1;
      assert !RejectedBy(events, n);
      RejectedEarlier(events);
      RunOrphanExactly(events[..n]);
      StepRows(Run(EMPTY, events[..n]), events[n]);
    }
  }

  // ---------------------------------------------------------------- explanations

  /** An explanation names the customer it was asked for, which is the scored one exactly when the
      identifier was new or belonged to that customer. */
  lemma ExplainedCustomerExactly(
      st: State, tx: TransactionInput, evaluate: Evaluator, investigate: Investigator)
    requires Invariant(st) && Coherent(evaluate) && ExplainStep(st, tx, evaluate, investigate).1.Ok?
    ensures var after := ExplainStep(st, tx, evaluate, investigate).0;
            && tx.id in after.explained && tx.id in after.scored
            && (after.explained[tx.id].ccNum == after.scored[tx.id].ccNum <==>
                tx.id in st.scored ==> st.scored[tx.id].ccNum == tx.ccNum)
  {
  }

  /** The investigation sees some of the customer's transactions, and never the explained one. */
  lemma BackgroundExcludes(store: Store, tx: TransactionInput)
    ensures |Background(store, tx)| <= 20
    ensures forall t <- Background(store, tx) :: t.id != tx.id && t in store.Rows(tx.ccNum)
  {
    var others := Filter(OtherThan(tx.id), store.History(tx.ccNum));
    FilterKeeps(OtherThan(tx.id), store.History(tx.ccNum));
    SortedMembers(Instant, store.Rows(tx.ccNum));
    forall t | t in Background(store, tx)
      ensures t in others
    {
    }
  }

  // ---------------------------------------------------------------- queries

  predicate LatestOf(rows: seq<StoredTransaction>, ccNum: int, r: ScoreResponse) {
    r.ccNum == ccNum && rows != [] && rows[|rows| - 1].id == r.id
  }

  predicate ById(id: Option<string>) {
    id.Some? && id.value != ""
  }

  /** No customer has the number that stands for a missing one. */
  function CustomerAsked(ccNum: Option<int>): int {
    if ccNum.Some? && ccNum.value != 0 then ccNum.value else -1
  }

  /** Asking by identifier finds exactly the scored transactions; asking otherwise finds the customer's own latest
      score, exactly if there is any. */
  ghost predicate ScoreFound(st: State, id: Option<string>, ccNum: Option<int>, r: Option<ScoreResponse>) {
    && (r.Some? ==> r.value.id in st.scored && r.value == st.scored[r.value.id])
    && (ById(id) ==> (r.Some? <==> id.value in st.scored) && (r.Some? ==> r.value.id == id.value))
    && (!ById(id) ==>
          var customer := CustomerAsked(ccNum);
          && (r.None? <==> forall k <- st.scored :: st.scored[k].ccNum != customer)
          && (r.Some? ==> LatestOf(RowsIn(st.store.transactions, customer), customer, r.value)))
  }

  /** The explanation is the stored one of the score found, exactly if that was explained, and holds that score. */
  ghost predicate ExplanationFound(st: State, id: Option<string>, ccNum: Option<int>, r: Option<ExplainResponse>) {
    exists score: Option<ScoreResponse> :: ScoreFound(st, id, ccNum, score) && Explains(st, score, r)
  }

  predicate Explains(st: State, score: Option<ScoreResponse>, r: Option<ExplainResponse>) {
    && (r.Some? <==> score.Some? && score.value.id in st.explained)
    && (r.Some? ==> r.value == st.explained[score.value.id] && r.value.score == score.value)
  }

  lemma LookupById(st: State, id: string, ccNum: Option<int>)
    requires NamesMatch(st.scored, st.store.customerByTx) && id != ""
    ensures ScoreFound(st, Some(id), ccNum, LookupScore(st, Some(id), ccNum))
  {
  }

  lemma LookupByCustomer(st: State, id: Option<string>, ccNum: Option<int>)
    requires NamesMatch(st.scored, st.store.customerByTx)
    requires LookupMatches(st.scored, st.store.transactions, st.lookup) && !ById(id)
    ensures ScoreFound(st, id, ccNum, LookupScore(st, id, ccNum))
  {
    var customer := CustomerAsked(ccNum);
    if customer in st.lookup {
      assert LookupFits(st.scored, RowsIn(st.store.transactions, customer), customer, st.lookup[customer]);
      assert st.scored[st.lookup[customer]].id == st.lookup[customer];
    }
  }

  lemma LookupFinds(st: State, id: Option<string>, ccNum: Option<int>)
    requires Invariant(st)
    ensures ScoreFound(st, id, ccNum, LookupScore(st, id, ccNum))
  {
    if ById(id) {
      LookupById(st, id.value, ccNum);
    } else {
      LookupByCustomer(st, id, ccNum);
    }
  }

  lemma KeyOfScore(st: State, id: Option<string>, ccNum: Option<int>)
    requires NamesMatch(st.scored, st.store.customerByTx) && ExplanationsMatch(st.scored, st.explained)
    requires LookupMatches(st.scored, st.store.transactions, st.lookup)
    ensures Explains(st, LookupScore(st, id, ccNum), LookupExplain(st, id, ccNum))
  {
  }

  lemma LookupExplains(st: State, id: Option<string>, ccNum: Option<int>)
    requires Invariant(st)
    ensures ExplanationFound(st, id, ccNum, LookupExplain(st, id, ccNum))
  {
    LookupFinds(st, id, ccNum);
    KeyOfScore(st, id, ccNum);
  }

  /** The queue is a reordering of the alerts, most suspicious first, equals in the order raised. */
  ghost predicate Queued(alerts: seq<AlertItem>, queue: seq<AlertItem>) {
    && multiset(queue) == multiset(alerts)
    && (forall i, j :: 0 <= i < j < |queue| ==> Suspicion(queue[i]) >= Suspicion(queue[j]))
    && (forall k :: Filter(WithKey(LeastSuspicion, k), queue) == Filter(WithKey(LeastSuspicion, k), alerts))
  }

  lemma QueueOrdered(alerts: seq<AlertItem>)
    ensures Queued(alerts, AlertQueue(alerts))
  {
    var queue := AlertQueue(alerts);
    SortedOrders(LeastSuspicion, alerts);
    forall i, j | 0 <= i < j < |queue| ensures Suspicion(queue[i]) >= Suspicion(queue[j]) {
      assert LeastSuspicion(queue[i]) <= LeastSuspicion(queue[j]);
    }
    forall k ensures Filter(WithKey(LeastSuspicion, k), queue) == Filter(WithKey(LeastSuspicion, k), alerts) {
      EqualKeysKeepOrder(LeastSuspicion, alerts, k);
    }
  }
}
