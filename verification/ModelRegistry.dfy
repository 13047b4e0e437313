/** The model registry, its promotion gate and the retraining loop
    (services/model_monitor/veripay_model_monitor/service.py). */
module ModelRegistry {
  import opened Wrappers

  // ---------------------------------------------------------------- data

  type Metrics = map<string, real>

  datatype Entry = Entry(version: string, metrics: Metrics, datasetPath: string)

  datatype Model = Model(latest: Option<string>, versions: map<string, Entry>)

  /** The registry file: models by name. */
  type Registry = map<string, Model>

  datatype Artifact = MODEL_FILE | DESCRIPTION | REFERENCE_PROFILE

  /** The directory of a model's current artefacts: which version left each of them. */
  type Directory = map<Artifact, string>

  /** The registry, and the directory that the entries of each model refer to. */
  datatype State = State(registry: Registry, current: map<string, Directory>)

  /** What training produced, with the files it left. */
  datatype RetrainResult = RetrainResult(version: string, metrics: Metrics, datasetPath: string, files: set<Artifact>)

  datatype MonitorLabel = CONFIRMED_FRAUD | LEGITIMATE | NEEDS_REVIEW | FALSE_POSITIVE

  datatype Observation = Observation(
    transactionId: string, features: map<string, real>, score: real, localLabel: Option<MonitorLabel>)

  // ---------------------------------------------------------------- the gate

  /** The champion's entry: absent without a registered model, or when `latest` names nothing stored. */
  function LatestEntry(registry: Registry, name: string): Option<Entry> {
    if name !in registry || registry[name].latest.None? then None
    else
      var model := registry[name];
      if model.latest.value in model.versions then Some(model.versions[model.latest.value]) else None
  }

  function Metric(m: Metrics, key: string): Option<real> {
    if key in m then Some(m[key]) else None
  }

  function Beats(latest: Metrics, retrained: Metrics, key: string, tolerance: real): Option<bool> {
    match (Metric(latest, key), Metric(retrained, key))
    case (Some(was), Some(now)) => Some(now >= was - tolerance)
    case (Some(_), None) => None
    case (None, _) => None
  }

  /** ROC-AUC decides when both have it, PR-AUC when both have that; otherwise nothing is compared. */
  function GatePassed(latest: Option<Metrics>, retrained: Metrics, tolerance: real): bool {
    if latest.None? || latest.value == map[] then true
    else if Beats(latest.value, retrained, "roc_auc", tolerance).Some? then
      Beats(latest.value, retrained, "roc_auc", tolerance).value
    else if Beats(latest.value, retrained, "pr_auc", tolerance).Some? then
      Beats(latest.value, retrained, "pr_auc", tolerance).value
    else true
  }

  function ChampionMetrics(registry: Registry, name: string): Option<Metrics> {
    match LatestEntry(registry, name)
    case None => None
    case Some(e) => Some(e.metrics)
  }

  function Register(registry: Registry, name: string, e: Entry): Registry {
    var model := if name in registry then registry[name] else Model(None, map[]);
    registry[name := Model(Some(e.version), model.versions[e.version := e])]
  }

  // ---------------------------------------------------------------- labels

  function LabelToFlag(verdict: Option<MonitorLabel>): Option<nat> {
    match verdict
    case None => None
    case Some(CONFIRMED_FRAUD) => Some(1)
    case Some(LEGITIMATE) => Some(0)
    case Some(FALSE_POSITIVE) => Some(0)
    case Some(NEEDS_REVIEW) => None
  }

  function ParsedLabel(text: string): Option<MonitorLabel> {
    if text == "CONFIRMED_FRAUD" then Some(CONFIRMED_FRAUD)
    else if text == "LEGITIMATE" then Some(LEGITIMATE)
    else if text == "FALSE_POSITIVE" then Some(FALSE_POSITIVE)
    else if text == "NEEDS_REVIEW" then Some(NEEDS_REVIEW)
    else None
  }

  /** The feedback label wins; one that decides nothing leaves the observation's own. */
  function FlagOf(o: Observation, feedback: map<string, string>): Option<nat> {
    var fromFeedback := LabelToFlag(
      if o.transactionId in feedback then ParsedLabel(feedback[o.transactionId]) else None);
    if fromFeedback.Some? then fromFeedback else LabelToFlag(o.localLabel)
  }

  function Labeled(os: seq<Observation>, feedback: map<string, string>): seq<(Observation, nat)> {
    if os == [] then []
    else
      var o := os[|os| - 1];
      Labeled(os[..|os| - 1], feedback)
      + if FlagOf(o, feedback).Some? then [(o, FlagOf(o, feedback).value)] else []
  }

  method CollectLabeled(os: seq<Observation>, feedback: map<string, string>) returns (labeled: seq<(Observation, nat)>)
    ensures labeled == Labeled(os, feedback)
  {
    labeled := [];
    for i := 0 to |os|
      invariant labeled == Labeled(os[..i], feedback)
    {
      var flag := LabelToFlag(
        if os[i].transactionId in feedback then ParsedLabel(feedback[os[i].transactionId]) else None);
      if flag.None? {
        flag := LabelToFlag(os[i].localLabel);
      }
      assert os[..i + 1][..i] == os[..i];
      if flag.Some? {
        labeled := labeled + [(os[i], flag.value)];
      }
    }
    assert os[..|os|] == os;
  }

  /** The labeled pairs are exactly the observations with a flag, each with its flag. */
  lemma {:induction false} LabeledExactly(os: seq<Observation>, feedback: map<string, string>)
    ensures forall p :: p in Labeled(os, feedback) <==> p.0 in os && FlagOf(p.0, feedback) == Some(p.1)
    ensures |Labeled(os, feedback)| <= |os|
  {
    if os != [] {
      var n := |os| - 1;
      LabeledExactly(os[..n], feedback);
      assert os == os[..n] + [os[n]];
    }
  }

  // ---------------------------------------------------------------- retraining

  /** One call of the retraining: the window, the labels and what training would give (nothing when it raises). */
  datatype Attempt = Attempt(
    observations: seq<Observation>, feedback: map<string, string>, minLabels: int, trained: Option<RetrainResult>)

  predicate Triggered(a: Attempt) {
    |Labeled(a.observations, a.feedback)| >= a.minLabels
  }

  function DirectoryOf(st: State, name: string): Directory {
    if name in st.current then st.current[name] else map[]
  }

  /** The directory after the retrain's files were copied over what is there. */
  function Copied(d: Directory, r: RetrainResult): Directory {
    map a | a in d.Keys + r.files :: if a in r.files then r.version else d[a]
  }

  /** The attempt gets past the gate, so its files are copied. */
  predicate Passes(st: State, name: string, a: Attempt, tolerance: real) {
    && Triggered(a) && a.trained.Some?
    && GatePassed(ChampionMetrics(st.registry, name), a.trained.value.metrics, tolerance)
  }

  /** The attempt replaces the champion: past the gate there is a description, its own or one left before. */
  predicate Promotes(st: State, name: string, a: Attempt, tolerance: real) {
    && Passes(st, name, a, tolerance)
    && (DESCRIPTION in a.trained.value.files || DESCRIPTION in DirectoryOf(st, name))
  }

  function EntryOf(r: RetrainResult): Entry {
    Entry(r.version, r.metrics, r.datasetPath)
  }

  /** Without a description copying still happens, and then the call raises. */
  function Retrained(st: State, name: string, a: Attempt, tolerance: real): State {
    if !Passes(st, name, a, tolerance) then st
    else
      var r := a.trained.value;
      State(
        if Promotes(st, name, a, tolerance) then Register(st.registry, name, EntryOf(r)) else st.registry,
        st.current[name := Copied(DirectoryOf(st, name), r)])
  }

  function Run(st: State, name: string, attempts: seq<Attempt>, tolerance: real): State {
    if attempts == [] then st
    else Retrained(Run(st, name, attempts[..|attempts| - 1], tolerance), name, attempts[|attempts| - 1], tolerance)
  }

  /** How many attempts of the run were promoted. */
  function Promotions(st: State, name: string, attempts: seq<Attempt>, tolerance: real): nat {
    if attempts == [] then 0
    else
      var before := attempts[..|attempts| - 1];
      Promotions(st, name, before, tolerance)
      + if Promotes(Run(st, name, before, tolerance), name, attempts[|attempts| - 1], tolerance) then 1 else 0
  }

  datatype Outcome = NotTriggered | TrainingFailed | ArtifactsMissing | Gated(passed: bool)

  class Monitor {
    var registry: Registry
    var current: map<string, Directory>

    constructor ()
      ensures View() == State(map[], map[])
    {
      registry, current := map[], map[];
    }

    function View(): State
      reads this
    {
      State(registry, current)
    }

    method RegisterVersion(name: string, e: Entry)
      modifies this`registry
      ensures registry == Register(old(registry), name, e)
    {
      if name !in registry {
        registry := registry[name := Model(None, map[])];
      }
      var model := registry[name];
      registry := registry[name := Model(Some(e.version), model.versions[e.version := e])];
    }

    /** Copies the three files one after the other where the retrain has them. */
    method CopyFiles(r: RetrainResult, name: string)
      modifies this`current
      ensures current == old(current)[name := Copied(DirectoryOf(old(View()), name), r)]
    {
      var files := [MODEL_FILE, DESCRIPTION, REFERENCE_PROFILE];
      var before := DirectoryOf(View(), name);
      var d := before;
      for i := 0 to 3
        invariant forall a :: a in d <==> a in before || (a in r.files && a in files[..i])
        invariant forall a <- d :: d[a] == if a in r.files && a in files[..i] then r.version else before[a]
      {
        if files[i] in r.files {
          d := d[files[i] := r.version];
        }
      }
      forall a: Artifact ensures a in files {
        match a
        case MODEL_FILE => assert files[0] == a;
        case DESCRIPTION => assert files[1] == a;
        case REFERENCE_PROFILE => assert files[2] == a;
      }
      assert files[..3] == files;
      assert d == Copied(before, r);
      current := current[name := d];
    }

    method PromoteIfBetter(result: RetrainResult, name: string, tolerance: real) returns (outcome: Outcome)
      modifies this
      ensures var passed := GatePassed(ChampionMetrics(old(registry), name), result.metrics, tolerance);
              var described := DESCRIPTION in result.files || DESCRIPTION in DirectoryOf(old(View()), name);
              && outcome == (if !passed then Gated(false) else if !described then ArtifactsMissing else Gated(true))
              && registry == (if passed && described then Register(old(registry), name, EntryOf(result))
                              else old(registry))
              && current == if passed then old(current)[name := Copied(DirectoryOf(old(View()), name), result)]
                            else old(current)
    {
      var latest := ChampionMetrics(registry, name);
      var gatePassed := true;
      if latest.Some? && latest.value != map[] {
        var latestAuc, newAuc := Metric(latest.value, "roc_auc"), Metric(result.metrics, "roc_auc");
        if latestAuc.Some? && newAuc.Some? {
          gatePassed := newAuc.value >= latestAuc.value - tolerance;
        } else {
          var latestPr, newPr := Metric(latest.value, "pr_auc"), Metric(result.metrics, "pr_auc");
          if latestPr.Some? && newPr.Some? {
            gatePassed := newPr.value >= latestPr.value - tolerance;
          }
        }
      }
      if !gatePassed {
        return Gated(false);
      }
      CopyFiles(result, name);
      if DESCRIPTION !in current[name] {
        return ArtifactsMissing;
      }
      RegisterVersion(name, EntryOf(result));
      return Gated(true);
    }

    method RetrainAndPromote(a: Attempt, name: string, tolerance: real) returns (outcome: Outcome)
      modifies this
      ensures View() == Retrained(old(View()), name, a, tolerance)
      ensures outcome == Gated(true) <==> Promotes(old(View()), name, a, tolerance)
      ensures outcome == NotTriggered <==> !Triggered(a)
    {
      var labeled := CollectLabeled(a.observations, a.feedback);
      if |labeled| < a.minLabels {
        return NotTriggered;
      }
      if a.trained.None? {
        return TrainingFailed;
      }
      outcome := PromoteIfBetter(a.trained.value, name, tolerance);
    }
  }

  // ---------------------------------------------------------------- what every run keeps

  /** `latest` names a stored version, and versions are stored under their names. */
  ghost predicate WellLinked(registry: Registry) {
    forall name <- registry ::
      && (registry[name].latest.Some? ==> registry[name].latest.value in registry[name].versions)
      && (forall v <- registry[name].versions :: registry[name].versions[v].version == v)
  }

  /** Over every run `latest` keeps naming a stored version, and other models are left alone. */
  lemma {:induction false} RunKeepsLinks(st: State, name: string, attempts: seq<Attempt>, tolerance: real)
    requires WellLinked(st.registry)
    ensures WellLinked(Run(st, name, attempts, tolerance).registry)
    ensures forall other <- st.registry :: other != name ==>
              other in Run(st, name, attempts, tolerance).registry
              && Run(st, name, attempts, tolerance).registry[other] == st.registry[other]
    ensures Promotions(st, name, attempts, tolerance) == 0 ==>
              Run(st, name, attempts, tolerance).registry == st.registry
    decreases |attempts|
  {
    if attempts != [] {
      RunKeepsLinks(st, name, attempts[..|attempts| - 1], tolerance);
    }
  }

  lemma PromotedChampion(st: State, name: string, a: Attempt, tolerance: real)
    requires Promotes(st, name, a, tolerance)
    ensures ChampionMetrics(Retrained(st, name, a, tolerance).registry, name) == Some(a.trained.value.metrics)
  {
  }

  predicate CarryRocAuc(attempts: seq<Attempt>) {
    forall i :: 0 <= i < |attempts| && attempts[i].trained.Some? ==> "roc_auc" in attempts[i].trained.value.metrics
  }

  function ChampionMetric(registry: Registry, name: string, metric: string): Option<real> {
    match ChampionMetrics(registry, name)
    case None => None
    case Some(m) => Metric(m, metric)
  }

  function RocAuc(registry: Registry, name: string): Option<real> {
    ChampionMetric(registry, name, "roc_auc")
  }

  predicate RocAucAtLeast(registry: Registry, name: string, floor: real) {
    RocAuc(registry, name).Some? && RocAuc(registry, name).value >= floor
  }

  /** What one attempt may cost the champion. */
  function Loss(st: State, name: string, a: Attempt, tolerance: real): real {
    if Promotes(st, name, a, tolerance) then tolerance else 0.0
  }

  lemma StepErodes(st: State, name: string, a: Attempt, tolerance: real, floor: real)
    requires RocAucAtLeast(st.registry, name, floor)
    requires a.trained.Some? ==> "roc_auc" in a.trained.value.metrics
    ensures RocAucAtLeast(Retrained(st, name, a, tolerance).registry, name, floor - Loss(st, name, a, tolerance))
  {
    if Promotes(st, name, a, tolerance) {
      PromotedChampion(st, name, a, tolerance);
    }
  }

  /** `k` tolerances. */
  function Losses(k: nat, tolerance: real): real {
    if k == 0 then 0.0 else Losses(k - 1, tolerance) + tolerance
  }

  lemma {:induction false} LossesMultiply(k: nat, tolerance: real)
    ensures Losses(k, tolerance) == k as real * tolerance
  {
    if k > 0 {
      LossesMultiply(k - 1, tolerance);
      OneMore((k - 1) as real, tolerance);
    }
  }

  lemma OneMore(k: real, tolerance: real)
    ensures (k + 1.0) * tolerance == k * tolerance + tolerance
  {
  }

  /** When every retrain carries ROC-AUC, `k` promotions cost the champion at most `k` tolerances. */
  lemma {:induction false} ErosionBound(st: State, name: string, attempts: seq<Attempt>, tolerance: real)
    requires RocAuc(st.registry, name).Some? && CarryRocAuc(attempts)
    ensures RocAucAtLeast(
              Run(st, name, attempts, tolerance).registry, name,
              RocAuc(st.registry, name).value - Losses(Promotions(st, name, attempts, tolerance), tolerance))
    decreases |attempts|
  {
    if attempts != [] {
      var n := |attempts| - 1;
      var rest := attempts[..n];
      ErosionBound(st, name, rest, tolerance);
      StepErodes(
        Run(st, name, rest, tolerance), name, attempts[n], tolerance,
        RocAuc(st.registry, name).value - Losses(Promotions(st, name, rest, tolerance), tolerance));
    }
  }

  // ---------------------------------------------------------------- how tight the gate is

  const ALL_FILES := {MODEL_FILE, DESCRIPTION, REFERENCE_PROFILE}

  /** A triggered attempt whose training gives just these metrics. */
  function AttemptWith(metrics: Metrics): Attempt {
    Attempt([], map[], 0, Some(RetrainResult("retrained", metrics, "dataset", ALL_FILES)))
  }

  /** A retrain worse by the whole tolerance is still promoted. */
  lemma StepReaches(st: State, name: string, tolerance: real, was: real)
    requires RocAuc(st.registry, name) == Some(was)
    ensures var a := AttemptWith(map["roc_auc" := was - tolerance]);
            && Promotes(st, name, a, tolerance)
            && RocAuc(Retrained(st, name, a, tolerance).registry, name) == Some(was - tolerance)
  {
    var a := AttemptWith(map["roc_auc" := was - tolerance]);
    assert Triggered(a);
    PromotedChampion(st, name, a, tolerance);
  }

  lemma LastAttempt(st: State, name: string, before: seq<Attempt>, last: Attempt, tolerance: real)
    ensures Run(st, name, before + [last], tolerance)
            == Retrained(Run(st, name, before, tolerance), name, last, tolerance)
    ensures Promotions(st, name, before + [last], tolerance)
            == Promotions(st, name, before, tolerance)
               + if Promotes(Run(st, name, before, tolerance), name, last, tolerance) then 1 else 0
  {
    assert (before + [last])[..|before|] == before;
  }

  lemma OneMoreEroding(st: State, name: string, before: seq<Attempt>, tolerance: real, was: real)
    returns (longer: seq<Attempt>)
    requires RocAuc(Run(st, name, before, tolerance).registry, name) == Some(was) && CarryRocAuc(before)
    ensures |longer| == |before| + 1 && CarryRocAuc(longer)
    ensures Promotions(st, name, longer, tolerance) == Promotions(st, name, before, tolerance) + 1
    ensures RocAuc(Run(st, name, longer, tolerance).registry, name) == Some(was - tolerance)
    ensures ReportScores(before) && 0.0 <= was - tolerance <= 1.0 ==> ReportScores(longer)
  {
    var last := AttemptWith(map["roc_auc" := was - tolerance]);
    longer := before + [last];
    StepReaches(Run(st, name, before, tolerance), name, tolerance, was);
    LastAttempt(st, name, before, last, tolerance);
  }

  /** Every ROC-AUC in the attempts is a score. */
  predicate ReportScores(attempts: seq<Attempt>) {
    forall i :: 0 <= i < |attempts| && attempts[i].trained.Some? && "roc_auc" in attempts[i].trained.value.metrics ==>
      0.0 <= attempts[i].trained.value.metrics["roc_auc"] <= 1.0
  }

  /** The bound is reached: some `k` ever worse retrains are all promoted, each at the cost of a tolerance; with
      scores only, as long as `k` tolerances fit under the champion's ROC-AUC. */
  lemma {:induction false} ErosionReached(st: State, name: string, tolerance: real, k: nat)
    returns (attempts: seq<Attempt>)
    requires RocAuc(st.registry, name).Some?
    ensures |attempts| == k && CarryRocAuc(attempts)
    ensures Promotions(st, name, attempts, tolerance) == k
    ensures RocAuc(Run(st, name, attempts, tolerance).registry, name)
            == Some(RocAuc(st.registry, name).value - Losses(k, tolerance))
    ensures tolerance >= 0.0 && Losses(k, tolerance) <= RocAuc(st.registry, name).value <= 1.0 ==>
              ReportScores(attempts)
  {
    attempts := [];
    if k > 0 {
      var was := RocAuc(st.registry, name).value - Losses(k - 1, tolerance);
      LossesNotNegative(k - 1, tolerance);
      var before := ErosionReached(st, name, tolerance, k - 1);
      attempts := OneMoreEroding(st, name, before, tolerance, was);
    }
  }

  lemma {:induction false} LossesNotNegative(k: nat, tolerance: real)
    ensures tolerance >= 0.0 ==> Losses(k, tolerance) >= 0.0
    ensures tolerance <= 0.0 ==> Losses(k, tolerance) <= 0.0
  {
    if k > 0 {
      LossesNotNegative(k - 1, tolerance);
    }
  }

  // ---------------------------------------------------------------- which metrics the gate protects

  /** Training reports these metrics whenever it succeeds. */
  predicate Report(keys: set<string>, attempts: seq<Attempt>) {
    forall i :: 0 <= i < |attempts| && attempts[i].trained.Some? ==> keys <= attempts[i].trained.value.metrics.Keys
  }

  predicate Kept(now: Option<real>, was: real) {
    now.Some? && now.value >= was
  }

  predicate Lowered(now: Option<real>, was: real) {
    now.Some? && now.value < was
  }

  /** Over every run of retrains that report `keys`, a champion's `metric` is neither lost nor lowered. */
  ghost predicate NeverErodes(metric: string, keys: set<string>, tolerance: real) {
    forall st: State, name: string, attempts: seq<Attempt> |
      ChampionMetric(st.registry, name, metric).Some? && Report(keys, attempts) ::
      Kept(
        ChampionMetric(Run(st, name, attempts, tolerance).registry, name, metric),
        ChampionMetric(st.registry, name, metric).value)
  }

  /** The weaker promise that allows a metric to go missing. */
  ghost predicate NeverLowers(metric: string, keys: set<string>, tolerance: real) {
    forall st: State, name: string, attempts: seq<Attempt> |
      ChampionMetric(st.registry, name, metric).Some? && Report(keys, attempts) ::
      !Lowered(
        ChampionMetric(Run(st, name, attempts, tolerance).registry, name, metric),
        ChampionMetric(st.registry, name, metric).value)
  }

  /** A worse retrain never replaces a good model exactly when good means ROC-AUC, every retrain reports it, and the
      tolerance is not positive; no other metric is ever protected. */
  lemma NeverErodesExactly(metric: string, keys: set<string>, tolerance: real)
    ensures NeverErodes(metric, keys, tolerance) <==> metric == "roc_auc" && "roc_auc" in keys && tolerance <= 0.0
    ensures NeverLowers(metric, keys, tolerance) <==> NeverErodes(metric, keys, tolerance)
  {
    if metric == "roc_auc" && "roc_auc" in keys && tolerance <= 0.0 {
      forall st: State, name: string, attempts: seq<Attempt> |
        RocAuc(st.registry, name).Some? && Report(keys, attempts)
        ensures Kept(RocAuc(Run(st, name, attempts, tolerance).registry, name), RocAuc(st.registry, name).value)
      {
        ErosionBound(st, name, attempts, tolerance);
        LossesNotNegative(Promotions(st, name, attempts, tolerance), tolerance);
      }
    } else {
      var attempts := LoweringRun(metric, keys, tolerance);
      assert !NeverLowers(metric, keys, tolerance);
    }
  }

  /** A registry with one model of these metrics. */
  function Champion(metrics: Metrics): State {
    State(Register(map[], "model", Entry("v1", metrics, "dataset")), map[])
  }

  /** The reported metrics, all with one value. */
  function Uniform(keys: set<string>, value: real): Metrics {
    map key | key in keys :: value
  }

  function GoodChampion(metric: string): State {
    Champion(map["roc_auc" := 0.0][metric := 1.0])
  }

  /** The failing inputs: another metric behind a passing ROC-AUC, a tolerance, or a retrain without ROC-AUC first. */
  lemma LoweringRun(metric: string, keys: set<string>, tolerance: real) returns (attempts: seq<Attempt>)
    requires !(metric == "roc_auc" && "roc_auc" in keys && tolerance <= 0.0)
    ensures Report(keys, attempts) && ChampionMetric(GoodChampion(metric).registry, "model", metric) == Some(1.0)
    ensures Lowered(
              ChampionMetric(Run(GoodChampion(metric), "model", attempts, tolerance).registry, "model", metric), 1.0)
  {
    if metric != "roc_auc" {
      attempts := OtherMetricLowered(metric, keys, tolerance);
    } else if tolerance > 0.0 {
      attempts := RocAucLowered(keys, tolerance);
    } else {
      attempts := RocAucBypassed(keys, tolerance);
    }
  }

  lemma OtherMetricLowered(metric: string, keys: set<string>, tolerance: real) returns (attempts: seq<Attempt>)
    requires metric != "roc_auc"
    ensures Report(keys, attempts)
    ensures ChampionMetric(Run(GoodChampion(metric), "model", attempts, tolerance).registry, "model", metric)
            == Some(0.0)
  {
    var a := AttemptWith(Uniform(keys, 0.0)["roc_auc" := -tolerance][metric := 0.0]);
    attempts := [a];
    OnePromotion(GoodChampion(metric), a, tolerance);
  }

  lemma RocAucLowered(keys: set<string>, tolerance: real) returns (attempts: seq<Attempt>)
    ensures Report(keys, attempts)
    ensures RocAuc(Run(GoodChampion("roc_auc"), "model", attempts, tolerance).registry, "model")
            == Some(1.0 - tolerance)
  {
    var a := AttemptWith(Uniform(keys, 0.0)["roc_auc" := 1.0 - tolerance]);
    attempts := [a];
    OnePromotion(GoodChampion("roc_auc"), a, tolerance);
  }

  lemma RocAucBypassed(keys: set<string>, tolerance: real) returns (attempts: seq<Attempt>)
    requires "roc_auc" !in keys
    ensures Report(keys, attempts)
    ensures RocAuc(Run(GoodChampion("roc_auc"), "model", attempts, tolerance).registry, "model") == Some(0.0)
  {
    var first, second := AttemptWith(Uniform(keys, 0.0)), AttemptWith(Uniform(keys, -tolerance)["roc_auc" := 0.0]);
    attempts := [first, second];
    TwoPromotions(GoodChampion("roc_auc"), first, second, tolerance);
  }

  lemma OnePromotion(st: State, a: Attempt, tolerance: real)
    requires Promotes(st, "model", a, tolerance)
    ensures ChampionMetrics(Run(st, "model", [a], tolerance).registry, "model") == Some(a.trained.value.metrics)
  {
    PromotedChampion(st, "model", a, tolerance);
    assert [] + [a] == [a];
    LastAttempt(st, "model", [], a, tolerance);
  }

  lemma TwoPromotions(st: State, a: Attempt, b: Attempt, tolerance: real)
    requires Promotes(st, "model", a, tolerance)
    requires Promotes(Retrained(st, "model", a, tolerance), "model", b, tolerance)
    ensures ChampionMetrics(Run(st, "model", [a, b], tolerance).registry, "model") == Some(b.trained.value.metrics)
  {
    var mid := Retrained(st, "model", a, tolerance);
    assert [] + [a] == [a] && [a] + [b] == [a, b];
    LastAttempt(st, "model", [], a, tolerance);
    LastAttempt(st, "model", [a], b, tolerance);
    PromotedChampion(mid, "model", b, tolerance);
  }

  /** One retrain without a metric to compare opens the gate: whatever the champion's metrics, two
      promotions install any metrics at all. */
  lemma MissingMetricOpensGate(st: State, name: string, wanted: Metrics, tolerance: real)
    ensures var run := [AttemptWith(map[]), AttemptWith(wanted)];
            && Promotions(st, name, run, tolerance) == 2
            && ChampionMetrics(Run(st, name, run, tolerance).registry, name) == Some(wanted)
  {
    var first, second := AttemptWith(map[]), AttemptWith(wanted);
    assert [] + [first] == [first] && [first] + [second] == [first, second];
    assert Triggered(first) && Triggered(second);
    PromotedChampion(st, name, first, tolerance);
    LastAttempt(st, name, [], first, tolerance);
    var mid := Retrained(st, name, first, tolerance);
    PromotedChampion(mid, name, second, tolerance);
    LastAttempt(st, name, [first], second, tolerance);
  }

  // ---------------------------------------------------------------- whose artefacts an entry refers to

  /** The directory holds all artefacts of one version. */
  predicate Owns(d: Directory, version: string) {
    forall a: Artifact :: a in d && d[a] == version
  }

  /** A promoted version has its own artefacts exactly when the retrain left each file, or an earlier retrain of
      that version did and nothing replaced it since. */
  lemma PromotedOwnsExactly(st: State, name: string, a: Attempt, tolerance: real)
    requires Promotes(st, name, a, tolerance)
    ensures var r := a.trained.value;
            var before := DirectoryOf(st, name);
            Owns(DirectoryOf(Retrained(st, name, a, tolerance), name), r.version) <==>
            forall f: Artifact :: f in r.files || (f in before && before[f] == r.version)
  {
    var r := a.trained.value;
    var before, after := DirectoryOf(st, name), DirectoryOf(Retrained(st, name, a, tolerance), name);
    assert after == Copied(before, r);
    forall f: Artifact
      ensures f in after && after[f] == r.version <==> f in r.files || (f in before && before[f] == r.version)
    {
    }
  }

  /** The latest version of the model, if there is one, has its own artefacts. */
  predicate ChampionOwns(st: State, name: string) {
    match LatestEntry(st.registry, name)
    case None => true
    case Some(e) => Owns(DirectoryOf(st, name), e.version)
  }

  predicate Complete(attempts: seq<Attempt>) {
    forall i :: 0 <= i < |attempts| && attempts[i].trained.Some? ==> attempts[i].trained.value.files == ALL_FILES
  }

  /** Over any run of retrains that each leave all their files, the champion keeps having its own artefacts. */
  lemma {:induction false} RunOwns(st: State, name: string, attempts: seq<Attempt>, tolerance: real)
    requires ChampionOwns(st, name) && Complete(attempts)
    ensures ChampionOwns(Run(st, name, attempts, tolerance), name)
    decreases |attempts|
  {
    if attempts != [] {
      var n := |attempts| - 1;
      RunOwns(st, name, attempts[..n], tolerance);
      StepOwns(Run(st, name, attempts[..n], tolerance), name, attempts[n], tolerance);
    }
  }

  lemma AllFiles()
    ensures forall f: Artifact :: f in ALL_FILES
  {
    forall f: Artifact ensures f in ALL_FILES {
      match f
      case MODEL_FILE =>
      case DESCRIPTION =>
      case REFERENCE_PROFILE =>
    }
  }

  lemma StepOwns(st: State, name: string, a: Attempt, tolerance: real)
    requires ChampionOwns(st, name) && (a.trained.Some? ==> a.trained.value.files == ALL_FILES)
    ensures ChampionOwns(Retrained(st, name, a, tolerance), name)
  {
    if Passes(st, name, a, tolerance) {
      AllFiles();
      PromotedOwnsExactly(st, name, a, tolerance);
      assert LatestEntry(Retrained(st, name, a, tolerance).registry, name) == Some(EntryOf(a.trained.value));
    }
  }

  /** Any retrain that passes the gate without files of its own is registered over the champion's artefacts. */
  lemma BorrowedArtefacts(st: State, name: string, champion: Entry, a: Attempt, tolerance: real)
    requires LatestEntry(st.registry, name) == Some(champion) && Owns(DirectoryOf(st, name), champion.version)
    requires Passes(st, name, a, tolerance) && a.trained.value.files == {}
    ensures var after := Retrained(st, name, a, tolerance);
            && LatestEntry(after.registry, name) == Some(EntryOf(a.trained.value))
            && Owns(DirectoryOf(after, name), champion.version)
            && (ChampionOwns(after, name) <==> a.trained.value.version == champion.version)
  {
    var after := Retrained(st, name, a, tolerance);
    assert DirectoryOf(after, name) == DirectoryOf(st, name);
    assert DirectoryOf(st, name)[MODEL_FILE] == champion.version;
  }

  // ---------------------------------------------------------------- the observation window

  function LastOf<T>(s: seq<T>, n: nat): seq<T> {
    if |s| <= n then s else s[|s| - n..]
  }

  class ObservationWindow {
    const maxlen: nat
    var observations: seq<Observation>

    constructor (maxlen: nat)
      ensures this.maxlen == maxlen && observations == []
    {
      this.maxlen := maxlen;
      observations := [];
    }

    method Add(o: Observation)
      requires |observations| <= maxlen
      modifies this
      ensures observations == LastOf(old(observations) + [o], maxlen)
      ensures |observations| <= maxlen
    {
      observations := observations + [o];
      ghost var all := observations;
      while |observations| > maxlen
        invariant |observations| <= |all| && observations == all[|all| - |observations|..]
        invariant |all| > maxlen ==> |observations| >= maxlen
        invariant |all| <= maxlen ==> observations == all
        decreases |observations|
      {
        observations := observations[1..];
      }
    }

    /** After any number of additions the window is the end of all that was ever added. */
    method AddAll(os: seq<Observation>)
      requires |observations| <= maxlen
      modifies this
      ensures observations == LastOf(old(observations) + os, maxlen)
    {
      ghost var start := observations;
      for i := 0 to |os|
        invariant observations == LastOf(start + os[..i], maxlen)
      {
        LastOfAppend(start + os[..i], os[i], maxlen);
        assert start + os[..i + 1] == start + os[..i] + [os[i]];
        Add(os[i]);
      }
      assert os[..|os|] == os;
    }
  }

  lemma LastOfAppend<T>(s: seq<T>, x: T, n: nat)
    ensures LastOf(LastOf(s, n) + [x], n) == LastOf(s + [x], n)
    ensures |LastOf(s, n)| <= n
  {
  }
}
