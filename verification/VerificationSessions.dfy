/** Verification sessions as a transition system on values: what creating and completing a session
    does, and what holds over every run
    (services/auth_orchestration/veripay_auth_orchestration/service.py). */
module VerificationSessions {
  import opened Wrappers
  import opened RiskPolicy
  import Token = VerificationToken

  // ---------------------------------------------------------------- data

  /** What the service calls: the two halves of the token signer, the digest of a token, the biometric
      verifier and upper-casing. */
  datatype Environment = Environment(
    issue: (Token.Claims, int) -> Result<string, Token.TokenError>,
    verify: (string, Token.DateTime) -> Result<Token.Claims, Token.TokenError>,
    digest: string -> string,
    biometric: (string, string, string) -> bool,
    upper: string -> string)
  {
    /** The signer is the keyed one, with a JSON codec that gives claims back. */
    ghost predicate SignedBy(signer: Token.Signer) {
      && signer.Lawful()
      && (forall c: Token.Claims, ttl: int :: issue(c, ttl) == signer.Issue(c, ttl))
      && (forall t: string, now: Token.DateTime :: verify(t, now) == signer.Verify(t, now))
    }

    /** The digest tells the two tokens apart. */
    predicate Distinguishes(t: string, u: string) {
      digest(t) == digest(u) ==> t == u
    }
  }

  datatype CreateRequest = CreateRequest(
    transactionId: string, deviceId: string, amountMinor: int, currency: string, riskTier: RiskTier,
    path: ProcessingPath, ttlSeconds: int)
  {
    predicate InBounds() {
      && transactionId != "" && deviceId != "" && amountMinor >= 0 && |currency| == 3
      && Token.MIN_TTL <= ttlSeconds <= Token.MAX_TTL
    }
  }

  datatype CompletionRequest = CompletionRequest(
    token: string, outcome: VerificationOutcome, exactAmountMinor: Option<int>, exactCurrency: Option<string>,
    biometricAssertion: Option<string>, confirmationSwipe: bool, denialReason: Option<string>)

  datatype Session = Session(
    sessionId: string, transactionId: string, deviceId: string, amountMinor: int, currency: string,
    riskTier: RiskTier, path: ProcessingPath, expiresAt: int, tokenId: string, tokenDigest: string,
    outcome: VerificationOutcome, temporaryLock: bool, escalationRequired: bool)

  datatype Error =
    | InvalidClaims | NotFound | AlreadyCompleted | BindingFailed | InvalidToken | ClaimsMismatch

  // ---------------------------------------------------------------- creating

  function TierText(tier: RiskTier): string {
    match tier
    case NO_RISK => "NO_RISK"
    case LOW => "LOW"
    case MODERATE => "MODERATE"
    case HIGH => "HIGH"
  }

  function ClaimsFor(
    env: Environment, r: CreateRequest, sessionId: string, tokenId: string, nonce: string, now: int): Token.Claims
  {
    Token.Claims(
      sessionId, r.transactionId, r.deviceId, nonce, r.amountMinor, env.upper(r.currency),
      TierText(r.riskTier), Token.Aware(now), Token.Aware(now), tokenId)
  }

  function NewSession(
    env: Environment, r: CreateRequest, sessionId: string, tokenId: string, token: string, expiresAt: int): Session
  {
    Session(
      sessionId, r.transactionId, r.deviceId, r.amountMinor, env.upper(r.currency), r.riskTier, r.path,
      expiresAt, tokenId, env.digest(token), PENDING, false, false)
  }

  /** The new session and its token. The ids and the nonce are drawn by the caller. */
  function Created(
    env: Environment, r: CreateRequest, sessionId: string, tokenId: string, nonce: string, now: int
  ): Result<(Session, string), Error>
    requires r.InBounds()
  {
    var claims := ClaimsFor(env, r, sessionId, tokenId, nonce, now);
    if !claims.WellFormed() then Err(InvalidClaims)
    else
      var token := env.issue(claims, r.ttlSeconds);
      if token.Err? then Err(InvalidToken)
      else
        var parsed := env.verify(token.value, Token.Aware(now));
        if parsed.Err? then Err(InvalidToken)
        else
          Ok((NewSession(env, r, sessionId, tokenId, token.value, parsed.value.expiresAt.micros), token.value))
  }

  // ---------------------------------------------------------------- completing

  datatype WorkflowError =
    | BIOMETRIC_ASSERTION_REQUIRED | BIOMETRIC_ASSERTION_REJECTED | EXACT_AMOUNT_MISMATCH
    | EXACT_CURRENCY_MISMATCH | CONFIRMATION_SWIPE_REQUIRED

  function BiometricError(env: Environment, s: Session, r: CompletionRequest): Option<WorkflowError> {
    if r.biometricAssertion.None? || r.biometricAssertion.value == "" then Some(BIOMETRIC_ASSERTION_REQUIRED)
    else if !env.biometric(r.biometricAssertion.value, s.deviceId, s.transactionId) then
      Some(BIOMETRIC_ASSERTION_REJECTED)
    else None
  }

  function WorkflowErrorOf(env: Environment, s: Session, r: CompletionRequest): Option<WorkflowError> {
    if r.outcome != APPROVED && r.outcome != DENIED then None
    else if r.outcome == DENIED then None
    else
      match s.riskTier
      case NO_RISK => None
      case LOW => None
      case MODERATE => BiometricError(env, s, r)
      case HIGH =>
        if r.exactAmountMinor != Some(s.amountMinor) then Some(EXACT_AMOUNT_MISMATCH)
        else if env.upper(if r.exactCurrency.Some? then r.exactCurrency.value else "") != s.currency then
          Some(EXACT_CURRENCY_MISMATCH)
        else if BiometricError(env, s, r).Some? then BiometricError(env, s, r)
        else if !r.confirmationSwipe then Some(CONFIRMATION_SWIPE_REQUIRED)
        else None
  }

  /** The token belongs to the session and has not expired at `now`. */
  function BindingError(env: Environment, s: Session, token: string, now: int): Option<Error> {
    if env.digest(token) != s.tokenDigest then Some(BindingFailed)
    else
      match env.verify(token, Token.Aware(now))
      case Err(_) => Some(InvalidToken)
      case Ok(claims) =>
        if claims.sessionId != s.sessionId || claims.transactionId != s.transactionId
           || claims.deviceId != s.deviceId || claims.tokenId != s.tokenId
        then Some(ClaimsMismatch) else None
  }

  /** The session closed with an outcome that is not an approval. */
  function ClosedAs(s: Session, outcome: VerificationOutcome): Session {
    s.(outcome := if s.riskTier == HIGH then ESCALATED else outcome,
       temporaryLock := s.riskTier == MODERATE, escalationRequired := s.riskTier == HIGH)
  }

  /** The session after a completion that passed its binding checks; `late` is the second reading of
      the clock. */
  function ClosedSession(env: Environment, s: Session, r: CompletionRequest, late: int): Session {
    if s.expiresAt <= late then ClosedAs(s, TIMED_OUT)
    else if WorkflowErrorOf(env, s, r).Some? then ClosedAs(s, DENIED)
    else if r.outcome == DENIED then ClosedAs(s, DENIED)
    else s.(outcome := APPROVED, temporaryLock := false, escalationRequired := false)
  }

  datatype Reason =
    | VERIFICATION_TIMEOUT | CheckFailed(error: WorkflowError) | Denied(text: string) | VERIFICATION_APPROVED

  /** The reason code of the result. */
  function ReasonFor(env: Environment, s: Session, r: CompletionRequest, late: int): Reason {
    if s.expiresAt <= late then VERIFICATION_TIMEOUT
    else if WorkflowErrorOf(env, s, r).Some? then CheckFailed(WorkflowErrorOf(env, s, r).value)
    else if r.outcome == DENIED then
      Denied(if r.denialReason.Some? && r.denialReason.value != "" then r.denialReason.value else "USER_DENIED")
    else VERIFICATION_APPROVED
  }

  /** What the caller is told; `completedAt` is the first reading of the clock. */
  datatype CompletionResult = CompletionResult(session: Session, reason: Reason, completedAt: int)

  function Completed(
    env: Environment, s: Session, r: CompletionRequest, now: int, late: int): Result<Session, Error>
  {
    if s.outcome != PENDING then Err(AlreadyCompleted)
    else
      match BindingError(env, s, r.token, now)
      case Some(e) => Err(e)
      case None => Ok(ClosedSession(env, s, r, late))
  }

  // ---------------------------------------------------------------- runs

  datatype Event =
    | Create(request: CreateRequest, sessionId: string, tokenId: string, nonce: string, now: int)
    | Complete(id: string, completion: CompletionRequest, now: int, late: int)

  /** The repository, and the sessions the push provider was given. */
  datatype State = State(sessions: map<string, Session>, pushed: seq<string>)

  const EMPTY := State(map[], [])

  predicate Legal(e: Event) {
    e.Create? ==> e.request.InBounds()
  }

  predicate AllLegal(events: seq<Event>) {
    forall i :: 0 <= i < |events| ==> Legal(events[i])
  }

  /** One call; a call that raises leaves the state as it is. */
  function Step(env: Environment, st: State, e: Event): State
    requires Legal(e)
  {
    match e
    case Create(request, sessionId, tokenId, nonce, now) =>
      (match Created(env, request, sessionId, tokenId, nonce, now)
       case Err(_) => st
       case Ok((s, _)) =>
         State(st.sessions[sessionId := s],
               if request.riskTier != NO_RISK then st.pushed + [sessionId] else st.pushed))
    case Complete(id, completion, now, late) =>
      if id !in st.sessions then st
      else
        match Completed(env, st.sessions[id], completion, now, late)
        case Err(_) => st
        case Ok(s) => st.(sessions := st.sessions[id := s])
  }

  function Run(env: Environment, st: State, events: seq<Event>): State
    requires AllLegal(events)
  {
    if events == [] then st else Step(env, Run(env, st, events[..|events| - 1]), events[|events| - 1])
  }

  /** Every created session gets an id not in use. */
  ghost predicate FreshIds(env: Environment, st: State, events: seq<Event>)
    requires AllLegal(events)
  {
    forall i :: 0 <= i < |events| && events[i].Create? ==>
      events[i].sessionId !in Run(env, st, events[..i]).sessions
  }

  // ---------------------------------------------------------------- what every run keeps

  /** A lock means an unapproved MODERATE session, an escalation an unapproved HIGH one; and a HIGH
      session is never merely denied or timed out. */
  ghost predicate Consistent(s: Session) {
    && (s.temporaryLock <==> s.riskTier == MODERATE && s.outcome != PENDING && s.outcome != APPROVED)
    && (s.escalationRequired <==> s.riskTier == HIGH && s.outcome != PENDING && s.outcome != APPROVED)
    && (s.outcome == ESCALATED <==> s.escalationRequired)
    && s.outcome != EXPIRED && s.outcome != LOCKED
  }

  ghost predicate SessionsConsistent(st: State) {
    forall id <- st.sessions :: st.sessions[id].sessionId == id && Consistent(st.sessions[id])
  }

  /** Exactly the sessions of a tier with risk were pushed, each once. */
  ghost predicate PushedOnce(st: State) {
    && (forall id :: id in st.pushed <==> id in st.sessions && st.sessions[id].riskTier != NO_RISK)
    && (forall i, j :: 0 <= i < j < |st.pushed| ==> st.pushed[i] != st.pushed[j])
  }

  ghost predicate Invariant(st: State) {
    SessionsConsistent(st) && PushedOnce(st)
  }

  /** What a session keeps for good: everything from its creation, and, once it has left PENDING, all of it. */
  ghost predicate Follows(later: Session, s: Session) {
    && later.(outcome := s.outcome, temporaryLock := s.temporaryLock, escalationRequired := s.escalationRequired) == s
    && (s.outcome != PENDING ==> later == s)
  }

  lemma CompletionConsistent(env: Environment, s: Session, r: CompletionRequest, now: int, late: int)
    requires Completed(env, s, r, now, late).Ok?
    ensures Follows(Completed(env, s, r, now, late).value, s)
    ensures Consistent(s) ==> Consistent(Completed(env, s, r, now, late).value)
    ensures Completed(env, s, r, now, late).value.outcome != PENDING
  {
  }

  lemma CreationConsistent(
      env: Environment, r: CreateRequest, sessionId: string, tokenId: string, nonce: string, now: int)
    requires r.InBounds() && Created(env, r, sessionId, tokenId, nonce, now).Ok?
    ensures var s := Created(env, r, sessionId, tokenId, nonce, now).value.0;
            Consistent(s) && s.sessionId == sessionId && s.riskTier == r.riskTier
  {
  }

  lemma AddKeepsPushed(st: State, s: Session)
    requires PushedOnce(st) && s.sessionId !in st.sessions
    ensures PushedOnce(State(
      st.sessions[s.sessionId := s], if s.riskTier != NO_RISK then st.pushed + [s.sessionId] else st.pushed))
  {
    var pushed := st.pushed + [s.sessionId];
    assert forall id :: id in pushed <==> id in st.pushed || id == s.sessionId;
  }

  lemma ReplaceKeepsPushed(st: State, id: string, s: Session)
    requires PushedOnce(st) && id in st.sessions && s.riskTier == st.sessions[id].riskTier
    ensures PushedOnce(st.(sessions := st.sessions[id := s]))
  {
  }

  lemma StepKeepsInvariant(env: Environment, st: State, e: Event)
    requires Invariant(st) && Legal(e) && (e.Create? ==> e.sessionId !in st.sessions)
    ensures Invariant(Step(env, st, e))
  {
    match e
    case Create(request, sessionId, tokenId, nonce, now) =>
      var created := Created(env, request, sessionId, tokenId, nonce, now);
      if created.Ok? {
        CreationConsistent(env, request, sessionId, tokenId, nonce, now);
        AddKeepsPushed(st, created.value.0);
      }
    case Complete(id, completion, now, late) =>
      if id in st.sessions && Completed(env, st.sessions[id], completion, now, late).Ok? {
        CompletionConsistent(env, st.sessions[id], completion, now, late);
        ReplaceKeepsPushed(st, id, Completed(env, st.sessions[id], completion, now, late).value);
      }
  }

  /** Over every run with fresh ids from the empty repository the invariant holds. */
  lemma {:induction false} RunKeepsInvariant(env: Environment, events: seq<Event>)
    requires AllLegal(events) && FreshIds(env, EMPTY, events)
    ensures Invariant(Run(env, EMPTY, events))
  {
    if events != [] {
      var n := |events| - 1;
      PrefixFresh(env, EMPTY, events, n);
      RunKeepsInvariant(env, events[..n]);
      StepKeepsInvariant(env, Run(env, EMPTY, events[..n]), events[n]);
    }
  }

  lemma PrefixFresh(env: Environment, st: State, events: seq<Event>, n: nat)
    requires AllLegal(events) && FreshIds(env, st, events) && n <= |events|
    ensures FreshIds(env, st, events[..n])
  {
    forall i | 0 <= i < n && events[..n][i].Create?
      ensures events[..n][i].sessionId !in Run(env, st, events[..n][..i]).sessions
    {
      assert events[..n][..i] == events[..i];
    }
  }

  // ---------------------------------------------------------------- completion happens once

  lemma FollowsOn(a: Session, b: Session, c: Session)
    requires Follows(b, a) && Follows(c, b)
    ensures Follows(c, a)
  {
  }

  lemma StepFollows(env: Environment, st: State, e: Event, id: string)
    requires Legal(e) && id in st.sessions && (e.Create? ==> e.sessionId !in st.sessions)
    ensures id in Step(env, st, e).sessions && Follows(Step(env, st, e).sessions[id], st.sessions[id])
  {
    if e.Complete? && e.id == id && Completed(env, st.sessions[id], e.completion, e.now, e.late).Ok? {
      CompletionConsistent(env, st.sessions[id], e.completion, e.now, e.late);
    }
  }

  ghost predicate AllFollow(st: State, later: State) {
    forall id <- st.sessions :: id in later.sessions && Follows(later.sessions[id], st.sessions[id])
  }

  lemma {:induction false} FollowThrough(states: seq<State>, m: nat, n: nat)
    requires m <= n < |states| && forall i :: 0 <= i < |states| - 1 ==> AllFollow(states[i], states[i + 1])
    ensures AllFollow(states[m], states[n])
    decreases n
  {
    if m < n {
      FollowThrough(states, m, n - 1);
      assert AllFollow(states[n - 1], states[n - 1 + 1]);
      forall id <- states[m].sessions
        ensures id in states[n].sessions && Follows(states[n].sessions[id], states[m].sessions[id])
      {
        FollowsOn(states[m].sessions[id], states[n - 1].sessions[id], states[n].sessions[id]);
      }
    }
  }

  lemma RunStepFollows(env: Environment, st: State, events: seq<Event>, i: nat)
    requires AllLegal(events) && FreshIds(env, st, events) && i < |events|
    ensures AllFollow(Run(env, st, events[..i]), Run(env, st, events[..i + 1]))
  {
    assert events[..i + 1][..i] == events[..i];
    var before := Run(env, st, events[..i]);
    forall id <- before.sessions
      ensures id in Step(env, before, events[i]).sessions
      ensures Follows(Step(env, before, events[i]).sessions[id], before.sessions[id])
    {
      StepFollows(env, before, events[i], id);
    }
  }

  /** Each session leaves PENDING at most once: at any two moments of a run it is the same session,
      and if it was completed at the earlier one nothing about it has changed. */
  lemma CompletedOnce(env: Environment, st: State, events: seq<Event>, m: nat, n: nat)
    requires AllLegal(events) && FreshIds(env, st, events) && m <= n <= |events|
    ensures AllFollow(Run(env, st, events[..m]), Run(env, st, events[..n]))
  {
    var states := seq(|events| + 1, i requires 0 <= i <= |events| => Run(env, st, events[..i]));
    forall i | 0 <= i < |events| ensures AllFollow(states[i], states[i + 1]) {
      RunStepFollows(env, st, events, i);
    }
    FollowThrough(states, m, n);
  }

  // ---------------------------------------------------------------- approval and its checks

  predicate Biometric(env: Environment, s: Session, r: CompletionRequest) {
    && r.biometricAssertion.Some? && r.biometricAssertion.value != ""
    && env.biometric(r.biometricAssertion.value, s.deviceId, s.transactionId)
  }

  /** The evidence a tier asks for. */
  predicate ChecksPassed(env: Environment, s: Session, r: CompletionRequest) {
    match s.riskTier
    case NO_RISK => true
    case LOW => true
    case MODERATE => Biometric(env, s, r)
    case HIGH =>
      && r.exactAmountMinor == Some(s.amountMinor)
      && env.upper(if r.exactCurrency.Some? then r.exactCurrency.value else "") == s.currency
      && Biometric(env, s, r) && r.confirmationSwipe
  }

  /** Every completion of such a session with such a requested outcome that approves it has passed the
      checks of its tier. */
  ghost predicate ApprovalMeansChecked(
    env: Environment, s: Session, outcome: VerificationOutcome, now: int, late: int)
  {
    forall r: CompletionRequest :: r.outcome == outcome ==>
      Completed(env, s, r, now, late).Ok? && Completed(env, s, r, now, late).value.outcome == APPROVED ==>
        ChecksPassed(env, s, r)
  }

  /** A completion approves exactly when it asks for no denial, is in time and passes its checks; the
      checks are made only for a requested approval. */
  lemma ApprovedExactly(env: Environment, s: Session, r: CompletionRequest, now: int, late: int)
    requires Completed(env, s, r, now, late).Ok?
    ensures Completed(env, s, r, now, late).value.outcome == APPROVED
            <==> late < s.expiresAt && r.outcome != DENIED && (r.outcome == APPROVED ==> ChecksPassed(env, s, r))
  {
  }

  /** For a session some completion of which succeeds in time, approval implies the tier's checks
      exactly when the requested outcome is APPROVED or DENIED, or the tier asks for nothing. */
  lemma ApprovalMeansCheckedExactly(
      env: Environment, s: Session, outcome: VerificationOutcome, token: string, now: int, late: int)
    requires s.outcome == PENDING && BindingError(env, s, token, now).None? && late < s.expiresAt
    ensures ApprovalMeansChecked(env, s, outcome, now, late)
            <==> outcome == APPROVED || outcome == DENIED || s.riskTier == NO_RISK || s.riskTier == LOW
  {
    var bare := CompletionRequest(token, outcome, None, None, None, false, None);
    assert Completed(env, s, bare, now, late).Ok?;
    if outcome != APPROVED && outcome != DENIED && s.riskTier != NO_RISK && s.riskTier != LOW {
      assert Completed(env, s, bare, now, late).value.outcome == APPROVED;
      assert !ChecksPassed(env, s, bare);
    }
    forall r: CompletionRequest | r.outcome == outcome && Completed(env, s, r, now, late).Ok?
                                  && Completed(env, s, r, now, late).value.outcome == APPROVED
      ensures outcome == APPROVED || outcome == DENIED ==> ChecksPassed(env, s, r)
    {
      ApprovedExactly(env, s, r, now, late);
    }
  }

  /** Some completion in the run asked to approve the session and passed its checks. */
  ghost predicate CheckedInRun(env: Environment, events: seq<Event>, id: string, s: Session) {
    exists i :: 0 <= i < |events| && events[i].Complete? && events[i].id == id
                && events[i].completion.outcome == APPROVED && ChecksPassed(env, s, events[i].completion)
  }

  /** Closing a session without approval locks and escalates exactly as its tier's policy says. */
  lemma ClosedByPolicy(env: Environment, s: Session, r: CompletionRequest, now: int, late: int)
    requires Completed(env, s, r, now, late).Ok?
    requires Completed(env, s, r, now, late).value.outcome != APPROVED
    ensures var closed := Completed(env, s, r, now, late).value;
            && closed.temporaryLock == PolicyForTier(s.riskTier).temporaryLock
            && closed.escalationRequired == PolicyForTier(s.riskTier).analystEscalation
            && (closed.outcome == ESCALATED <==> PolicyForTier(s.riskTier).fallbackAction == REVIEW)
  {
  }

  /** The reason tells how a session ended: approval, the timeout and the denial have their own, and a failed check is
      named exactly when a requested approval lacked one. */
  predicate Tells(env: Environment, s: Session, r: CompletionRequest, late: int, closed: Session, reason: Reason) {
    && (reason == VERIFICATION_APPROVED <==> closed.outcome == APPROVED)
    && (reason == VERIFICATION_TIMEOUT <==> s.expiresAt <= late)
    && (reason.CheckFailed? <==> late < s.expiresAt && r.outcome == APPROVED && !ChecksPassed(env, s, r))
    && (reason.Denied? <==> late < s.expiresAt && r.outcome == DENIED)
  }

  lemma ReasonExactly(env: Environment, s: Session, r: CompletionRequest, late: int)
    ensures Tells(env, s, r, late, ClosedSession(env, s, r, late), ReasonFor(env, s, r, late))
  {
  }

  /** Over a run in which completions ask only for approval or denial, every approved session was
      approved by a completion that passed the checks of its tier. */
  lemma {:induction false} ApprovedSessionsChecked(env: Environment, events: seq<Event>, id: string)
    requires AllLegal(events) && FreshIds(env, EMPTY, events)
    requires forall e <- events :: e.Complete? ==> e.completion.outcome == APPROVED || e.completion.outcome == DENIED
    requires id in Run(env, EMPTY, events).sessions
    requires Run(env, EMPTY, events).sessions[id].outcome == APPROVED
    ensures CheckedInRun(env, events, id, Run(env, EMPTY, events).sessions[id])
    decreases |events|
  {
    var n := |events| - 1;
    var before, e := Run(env, EMPTY, events[..n]), events[n];
    var s := Run(env, EMPTY, events).sessions[id];
    if id in before.sessions && before.sessions[id].outcome == APPROVED {
      PrefixFresh(env, EMPTY, events, n);
      CompletedOnce(env, EMPTY, events, n, n + 1);
      assert events[..n + 1] == events;
      ApprovedSessionsChecked(env, events[..n], id);
      var i :| 0 <= i < n && events[..n][i].Complete? && events[..n][i].id == id
               && events[..n][i].completion.outcome == APPROVED
               && ChecksPassed(env, before.sessions[id], events[..n][i].completion);
      assert events[i] == events[..n][i];
    } else {
      assert e.Complete? && e.id == id;
      assert events[n] in events;
      ApprovedExactly(env, before.sessions[id], e.completion, e.now, e.late);
      assert ChecksPassed(env, s, e.completion);
    }
  }

  // ---------------------------------------------------------------- tokens and expiry

  /** A created session expires when its lifetime is over, and its token completes it until then,
      whatever happens to other sessions. */
  lemma CreatedSessionUsable(
      env: Environment, signer: Token.Signer, r: CreateRequest, sessionId: string, tokenId: string, nonce: string,
      now: int, later: int)
    requires r.InBounds() && env.SignedBy(signer)
    ensures Created(env, r, sessionId, tokenId, nonce, now).Ok?
            <==> ClaimsFor(env, r, sessionId, tokenId, nonce, now).WellFormed()
    ensures Created(env, r, sessionId, tokenId, nonce, now).Ok? ==>
              var (s, token) := Created(env, r, sessionId, tokenId, nonce, now).value;
              && s.outcome == PENDING && s.expiresAt == now + r.ttlSeconds * Token.SECOND
              && (BindingError(env, s, token, later).None? <==> later < s.expiresAt)
  {
    var claims := ClaimsFor(env, r, sessionId, tokenId, nonce, now);
    if claims.WellFormed() {
      Token.IssuedTokenLifetime(signer, claims, r.ttlSeconds, Token.Aware(now));
      Token.IssuedTokenLifetime(signer, claims, r.ttlSeconds, Token.Aware(later));
    }
  }

  /** A created session takes exactly its own token, spelled as it was issued, while it lives; at least among the
      tokens whose digest differs from its own. */
  lemma OnlyIssuedTokenBinds(
      env: Environment, signer: Token.Signer, r: CreateRequest, sessionId: string, tokenId: string, nonce: string,
      now: int, token: string, later: int)
    requires r.InBounds() && env.SignedBy(signer)
    requires Created(env, r, sessionId, tokenId, nonce, now).Ok?
    requires env.Distinguishes(token, Created(env, r, sessionId, tokenId, nonce, now).value.1)
    ensures var (s, issued) := Created(env, r, sessionId, tokenId, nonce, now).value;
            && (BindingError(env, s, token, later).None? <==> token == issued && later < s.expiresAt)
            && (token != issued ==> BindingError(env, s, token, later) == Some(BindingFailed))
  {
    CreatedSessionUsable(env, signer, r, sessionId, tokenId, nonce, now, later);
  }

  /** The signer gives the same answer for every spelling of the token, so whether the session takes one is decided
      by its digest alone. */
  lemma SpellingBindsExactly(
      env: Environment, signer: Token.Signer, r: CreateRequest, sessionId: string, tokenId: string, nonce: string,
      now: int, encoded: string, later: int)
    requires r.InBounds() && env.SignedBy(signer)
    requires Created(env, r, sessionId, tokenId, nonce, now).Ok?
    requires Token.SpellsBody(signer, ClaimsFor(env, r, sessionId, tokenId, nonce, now), r.ttlSeconds, encoded)
    ensures var (s, issued) := Created(env, r, sessionId, tokenId, nonce, now).value;
            var token :=
              Token.Respelled(signer, ClaimsFor(env, r, sessionId, tokenId, nonce, now), r.ttlSeconds, encoded);
            && env.verify(token, Token.Aware(later)) == env.verify(issued, Token.Aware(later))
            && (BindingError(env, s, token, later).None? <==>
                env.digest(token) == env.digest(issued) && later < s.expiresAt)
  {
    var claims := ClaimsFor(env, r, sessionId, tokenId, nonce, now);
    Token.IssuedSpelling(signer, claims, r.ttlSeconds);
    Token.RespelledVerifiesAlike(signer, claims, r.ttlSeconds, encoded, Token.Aware(later));
    CreatedSessionUsable(env, signer, r, sessionId, tokenId, nonce, now, later);
  }

  /** So the second spelling that every token has completes no session, unless it has the same digest. */
  lemma RespelledTokenRefused(
      env: Environment, signer: Token.Signer, r: CreateRequest, sessionId: string, tokenId: string, nonce: string,
      now: int, completion: CompletionRequest, later: int, late: int)
    requires r.InBounds() && env.SignedBy(signer)
    requires Created(env, r, sessionId, tokenId, nonce, now).Ok?
    requires env.Distinguishes(completion.token, Created(env, r, sessionId, tokenId, nonce, now).value.1)
    requires completion.token == Token.Respelled(
               signer, ClaimsFor(env, r, sessionId, tokenId, nonce, now), r.ttlSeconds,
               Token.JunkedBody(signer, ClaimsFor(env, r, sessionId, tokenId, nonce, now), r.ttlSeconds))
    ensures var (s, issued) := Created(env, r, sessionId, tokenId, nonce, now).value;
            && env.verify(completion.token, Token.Aware(later)) == env.verify(issued, Token.Aware(later))
            && Completed(env, s, completion, later, late) == Err(BindingFailed)
  {
    var claims := ClaimsFor(env, r, sessionId, tokenId, nonce, now);
    Token.EveryTokenRespelled(signer, claims, r.ttlSeconds, Token.Aware(later));
    OnlyIssuedTokenBinds(
      env, signer, r, sessionId, tokenId, nonce, now, completion.token, later);
  }

  /** A completion of a created session with its own token succeeds exactly while the token lives at the
      first reading of the clock, and times out only when the lifetime ends between the two readings. After
      the lifetime a completion fails and changes nothing, so the session stays PENDING. */
  lemma LateCompletionFails(
      env: Environment, signer: Token.Signer, r: CreateRequest, sessionId: string, tokenId: string, nonce: string,
      created: int, completion: CompletionRequest, now: int, late: int)
    requires r.InBounds() && env.SignedBy(signer)
    requires Created(env, r, sessionId, tokenId, nonce, created).Ok?
    requires completion.token == Created(env, r, sessionId, tokenId, nonce, created).value.1
    ensures var s := Created(env, r, sessionId, tokenId, nonce, created).value.0;
            var done := Completed(env, s, completion, now, late);
            && (done.Ok? <==> now < s.expiresAt)
            && (done.Ok? && done.value.outcome == TIMED_OUT ==> now < s.expiresAt <= late && r.riskTier != HIGH)
            && (done.Ok? && s.expiresAt <= late && r.riskTier != HIGH ==> done.value.outcome == TIMED_OUT)
  {
    CreatedSessionUsable(env, signer, r, sessionId, tokenId, nonce, created, now);
    CreationConsistent(env, r, sessionId, tokenId, nonce, created);
  }
}
