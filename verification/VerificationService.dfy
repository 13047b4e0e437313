/** The verification service over its in-memory repository: session objects changed in place
    (services/auth_orchestration/veripay_auth_orchestration/service.py). */
module VerificationService {
  import opened Wrappers
  import opened RiskPolicy
  import opened VerificationSessions

  class SessionObject {
    const created: Session
    var outcome: VerificationOutcome
    var temporaryLock: bool
    var escalationRequired: bool

    constructor (s: Session)
      ensures created == s && View() == s
    {
      created := s;
      outcome, temporaryLock, escalationRequired := s.outcome, s.temporaryLock, s.escalationRequired;
    }

    function View(): Session
      reads this
    {
      created.(outcome := outcome, temporaryLock := temporaryLock, escalationRequired := escalationRequired)
    }

    /** Close the session with an outcome that is not an approval. */
    method Close(otherwise: VerificationOutcome)
      modifies this
      ensures View() == ClosedAs(old(View()), otherwise)
    {
      outcome := if created.riskTier == HIGH then ESCALATED else otherwise;
      temporaryLock := created.riskTier == MODERATE;
      escalationRequired := created.riskTier == HIGH;
    }

    method Conclude(denied: bool)
      modifies this
      ensures View() == if denied then ClosedAs(old(View()), DENIED)
                        else old(View()).(outcome := APPROVED, temporaryLock := false, escalationRequired := false)
    {
      if denied {
        outcome := if created.riskTier == HIGH then ESCALATED else DENIED;
      } else {
        outcome := APPROVED;
      }
      temporaryLock := created.riskTier == MODERATE && outcome != APPROVED;
      escalationRequired := created.riskTier == HIGH && outcome != APPROVED;
    }
  }

  /** Issue the token and read its expiry back. */
  method IssueSession(
      env: Environment, r: CreateRequest, sessionId: string, tokenId: string, nonce: string, now: int)
    returns (result: Result<(Session, string), Error>)
    requires r.InBounds()
    ensures result == Created(env, r, sessionId, tokenId, nonce, now)
    ensures result.Ok? ==> result.value.0.sessionId == sessionId && result.value.0.riskTier == r.riskTier
  {
    var claims := ClaimsFor(env, r, sessionId, tokenId, nonce, now);
    if !claims.WellFormed() {
      return Err(InvalidClaims);
    }
    var token := env.issue(claims, r.ttlSeconds);
    if token.Err? {
      return Err(InvalidToken);
    }
    var parsed := env.verify(token.value, Token.Aware(now));
    if parsed.Err? {
      return Err(InvalidToken);
    }
    return Ok((NewSession(env, r, sessionId, tokenId, token.value, parsed.value.expiresAt.micros), token.value));
  }

  /** Close a session that passed its binding checks. */
  method Finish(env: Environment, session: SessionObject, r: CompletionRequest, late: int) returns (reason: Reason)
    modifies session
    ensures session.View() == ClosedSession(env, old(session.View()), r, late)
    ensures reason == ReasonFor(env, old(session.View()), r, late)
    ensures Tells(env, old(session.View()), r, late, session.View(), reason)
  {
    ReasonExactly(env, session.View(), r, late);
    if session.created.expiresAt <= late {
      session.Close(TIMED_OUT);
      return VERIFICATION_TIMEOUT;
    }
    var error := WorkflowErrorOf(env, session.View(), r);
    if error.Some? {
      session.Close(DENIED);
      return CheckFailed(error.value);
    }
    session.Conclude(r.outcome == DENIED);
    if r.outcome == DENIED {
      return Denied(
        if r.denialReason.Some? && r.denialReason.value != "" then r.denialReason.value else "USER_DENIED");
    }
    return VERIFICATION_APPROVED;
  }

  class Service {
    const env: Environment
    var sessions: map<string, SessionObject>
    var pushed: seq<string>

    constructor (env: Environment)
      ensures this.env == env && View() == EMPTY && Valid()
    {
      this.env := env;
      sessions, pushed := map[], [];
    }

    /** Each session object is stored under its own id, so no two ids share one. */
    ghost predicate Valid()
      reads this
    {
      forall id <- sessions :: sessions[id].created.sessionId == id
    }

    function View(): State
      reads this, sessions.Values
    {
      State(map id <- sessions :: sessions[id].View(), pushed)
    }

    method Save(session: SessionObject)
      modifies this`sessions
      ensures sessions == old(sessions)[session.created.sessionId := session]
      ensures View().sessions == old(View()).sessions[session.created.sessionId := session.View()]
    {
      sessions := sessions[session.created.sessionId := session];
      assert View().sessions == old(View()).sessions[session.created.sessionId := session.View()];
    }

    /** Keep a new session, and push it unless its tier is without risk. */
    method Keep(s: Session) returns (session: SessionObject)
      requires Valid()
      modifies this
      ensures Valid() && fresh(session) && session.View() == s
      ensures s.sessionId in sessions && sessions[s.sessionId] == session
      ensures View() == State(
                          old(View()).sessions[s.sessionId := s],
                          if s.riskTier != NO_RISK then old(View()).pushed + [s.sessionId] else old(View()).pushed)
    {
      session := new SessionObject(s);
      assert View() == old(View());
      Save(session);
      if s.riskTier != NO_RISK {
        pushed := pushed + [s.sessionId];
      }
    }

    /** The ids and the nonce are drawn by the caller. */
    method CreateSession(r: CreateRequest, sessionId: string, tokenId: string, nonce: string, now: int)
      returns (result: Result<(SessionObject, string), Error>)
      requires Valid() && r.InBounds()
      modifies this
      ensures Valid()
      ensures View() == Step(env, old(View()), Create(r, sessionId, tokenId, nonce, now))
      ensures result.Ok? == Created(env, r, sessionId, tokenId, nonce, now).Ok?
      ensures result.Ok? ==> fresh(result.value.0) && sessionId in sessions && sessions[sessionId] == result.value.0
    {
      var issued := IssueSession(env, r, sessionId, tokenId, nonce, now);
      if issued.Err? {
        return Err(issued.error);
      }
      var session := Keep(issued.value.0);
      return Ok((session, issued.value.1));
    }

    /** Close a stored session that passed its binding checks. */
    method CloseStored(id: string, r: CompletionRequest, late: int) returns (reason: Reason)
      requires Valid() && id in sessions
      modifies this, sessions.Values
      ensures Valid() && id in sessions
      ensures View() == old(View()).(
                          sessions := old(View()).sessions[id := ClosedSession(env, old(View()).sessions[id], r, late)])
      ensures sessions[id].View() == ClosedSession(env, old(View()).sessions[id], r, late)
      ensures reason == ReasonFor(env, old(View()).sessions[id], r, late)
    {
      var session := sessions[id];
      reason := Finish(env, session, r, late);
      Save(session);
      assert View().sessions == old(View()).sessions[id := session.View()];
    }

    /** `now` and `late` are the two readings of the clock. */
    method CompleteSession(id: string, r: CompletionRequest, now: int, late: int)
      returns (result: Result<CompletionResult, Error>)
      requires Valid()
      modifies this, sessions.Values
      ensures Valid()
      ensures View() == Step(env, old(View()), Complete(id, r, now, late))
      ensures result == if id !in old(View()).sessions then Err(NotFound)
                        else
                          match Completed(env, old(View()).sessions[id], r, now, late)
                          case Err(e) => Err(e)
                          case Ok(s) => Ok(CompletionResult(s, ReasonFor(env, old(View()).sessions[id], r, late), now))
      ensures result.Ok? ==>
                id in old(View()).sessions
                && Tells(env, old(View()).sessions[id], r, late, result.value.session, result.value.reason)
    {
      if id !in sessions {
        return Err(NotFound);
      }
      if sessions[id].outcome != PENDING {
        return Err(AlreadyCompleted);
      }
      var binding := BindingError(env, sessions[id].View(), r.token, now);
      if binding.Some? {
        return Err(binding.value);
      }
      ReasonExactly(env, sessions[id].View(), r, late);
      var reason := CloseStored(id, r, late);
      return Ok(CompletionResult(sessions[id].View(), reason, now));
    }
  }
}
