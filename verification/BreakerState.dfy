/** The circuit breaker as a value: its stored state, the temporary half-open window and the event
    history, and what each call turns them into at a given ledger time. */
module BreakerState {
  import opened Common

  datatype Mode = Closed | Open | HalfOpen

  datatype PauseScope = BettingOnly | Full

  datatype Action = Pause | Resume | Trigger | Reset

  datatype Condition =
    | HighErrorRate | HighLatency | LowLiquidity | OracleFailure | NetworkCongestion
    | SecurityThreat | ManualOverride | SystemOverload | InvalidData | UnauthorizedAccess

  datatype Event = Event(action: Action, condition: Condition, timestamp: nat, admin: Option<nat>)

  datatype Config = Config(
    maxErrorRate: nat, recoveryTimeout: nat, halfOpenMaxRequests: nat, autoRecovery: bool,
    callsPerMinute: nat, evaluationWindow: nat)

  datatype Window = Window(admitted: nat, completed: nat, failures: nat, windowStart: nat)

  datatype Breaker = Breaker(
    mode: Mode, failureCount: nat, lastFailureTime: nat, lastSuccessTime: nat, openedTime: nat,
    halfOpenRequests: nat, totalRequests: nat, errorCount: nat,
    scope: PauseScope, allowWithdrawals: bool, halfOpenSince: nat,
    window: Option<Window>, events: seq<Event>)

  const MAX_EVENTS: nat := 100
  const NO_WINDOW := Window(0, 0, 0, 0)
  const DEFAULT_CONFIG := Config(10, 300, 3, true, 3, 60)

  function Initial(now: nat): Breaker {
    Breaker(Closed, 0, 0, now, 0, 0, 0, 0, BettingOnly, false, 0, None, [])
  }

  /** `validate_config`, for the fields the transitions use. */
  predicate ValidConfig(c: Config) {
    c.maxErrorRate <= 100 && c.recoveryTimeout > 0 && c.halfOpenMaxRequests > 0
    && c.callsPerMinute > 0 && c.evaluationWindow > 0
  }

  /** Appends to the history, which keeps the last hundred entries. */
  function Push(events: seq<Event>, e: Event): seq<Event> {
    var longer := events + [e];
    if |longer| > MAX_EVENTS then longer[1..] else longer
  }

  function Emit(s: Breaker, action: Action, condition: Condition, now: nat, admin: Option<nat>): Breaker {
    s.(events := Push(s.events, Event(action, condition, now, admin)))
  }

  /** Storing a state that is not HalfOpen also wipes the temporary window. */
  function Stored(s: Breaker): Breaker {
    if s.mode == HalfOpen then s else s.(window := Some(NO_WINDOW))
  }

  // ----- admin calls; `permitted` says whether the admin checks pass -----

  function PauseWith(s: Breaker, admin: nat, permitted: bool, scope: PauseScope, allowWithdrawals: bool, now: nat)
    : Result<Breaker>
  {
    if !permitted then Err(Unauthorized) else
    :- Need(s.mode != Open, CBError);
    Ok(Emit(Stored(s.(mode := Open, openedTime := now, scope := scope, allowWithdrawals := allowWithdrawals)),
            Pause, ManualOverride, now, Some(admin)))
  }

  function Recover(s: Breaker, admin: nat, permitted: bool, now: nat): Result<Breaker> {
    if !permitted then Err(Unauthorized) else
    :- Need(s.mode != Closed, CBError);
    Ok(Emit(Stored(s.(mode := Closed, failureCount := 0, halfOpenRequests := 0, halfOpenSince := 0,
                      lastSuccessTime := now, scope := BettingOnly, allowWithdrawals := false)),
            Resume, ManualOverride, now, Some(admin)))
  }

  function RequestResume(s: Breaker, admin: nat, permitted: bool, now: nat): Result<Breaker> {
    if !permitted then Err(Unauthorized) else
    :- Need(s.mode == Open, CBError);
    Ok(Emit(Stored(s.(mode := HalfOpen, halfOpenRequests := 0, halfOpenSince := now)),
            Resume, ManualOverride, now, Some(admin)))
  }

  // ----- automatic trigger -----

  function AutoRecover(c: Config, s: Breaker, now: nat): Breaker {
    if c.autoRecovery && s.mode == Open && now - s.openedTime >= c.recoveryTimeout then
      Emit(Stored(s.(mode := HalfOpen, halfOpenRequests := 0, halfOpenSince := now)), Reset, ManualOverride, now, None)
    else s
  }

  predicate ShouldTrigger(c: Config, s: Breaker, condition: Condition) {
    condition == HighErrorRate && s.totalRequests > 0 && s.errorCount * 100 / s.totalRequests >= c.maxErrorRate
  }

  /** Auto-recovery first, then the condition; the answer says whether the breaker opened. The error
      rate is computed in 32 bits, and the time since opening in unsigned arithmetic. */
  function AutoTrigger(c: Config, s: Breaker, condition: Condition, now: nat): Result<(Breaker, bool)> {
    if c.autoRecovery && s.mode == Open && now < s.openedTime then Err(Trap) else
    var r := AutoRecover(c, s, now);
    :- Need(condition == HighErrorRate && r.totalRequests > 0 ==> r.errorCount * 100 <= U32_MAX, Trap);
    if ShouldTrigger(c, r, condition) && r.mode != Open then
      :- Need(r.failureCount + 1 <= U32_MAX, Trap);
      Ok((Emit(Stored(r.(mode := Open, failureCount := r.failureCount + 1, lastFailureTime := now, openedTime := now)),
               Trigger, condition, now, None), true))
    else Ok((r, false))
  }

  // ----- admission -----

  /** The window a request finds: the stored one, a new one if none is stored, reset when it has run out. */
  function CurrentWindow(c: Config, s: Breaker, now: nat): Window {
    var w := if s.window.Some? then s.window.value else Window(0, 0, 0, now);
    if now >= w.windowStart + c.evaluationWindow then Window(0, 0, 0, now) else w
  }

  function HalfOpenAdmit(c: Config, s: Breaker, now: nat): (Breaker, bool) {
    var w := CurrentWindow(c, s, now);
    if w.admitted < c.callsPerMinute then
      (s.(window := Some(w.(admitted := w.admitted + 1))), true)
    else if w.failures == 0 then
      (Emit(Stored(s.(mode := Closed, failureCount := 0, halfOpenRequests := 0)),
            Resume, ManualOverride, now, None), false)
    else
      (Emit(Stored(s.(mode := Open, openedTime := now, halfOpenRequests := 0)),
            Trigger, HighErrorRate, now, None), false)
  }

  function OperationAllowed(c: Config, s: Breaker, betting: bool, now: nat): (Breaker, bool) {
    match s.mode
    case Closed => (s, true)
    case Open => (s, s.scope == BettingOnly && !betting)
    case HalfOpen =>
      if c.callsPerMinute > 0 then HalfOpenAdmit(c, s, now)
      else (s, s.halfOpenRequests < c.halfOpenMaxRequests)
  }

  // ----- outcomes of operations -----

  function RecordSuccess(c: Config, s: Breaker, now: nat): Result<Breaker> {
    if s.totalRequests + 1 > U32_MAX then Err(Trap) else
    var r := s.(totalRequests := s.totalRequests + 1, lastSuccessTime := now);
    if r.mode != HalfOpen || now < r.halfOpenSince + c.recoveryTimeout then Ok(Stored(r)) else
    :- Need(r.halfOpenRequests + 1 <= U32_MAX, Trap);
    if r.halfOpenRequests + 1 >= c.halfOpenMaxRequests then
      Ok(Stored(Emit(r.(mode := Closed, failureCount := 0, halfOpenRequests := 0, halfOpenSince := 0),
                     Resume, ManualOverride, now, None)))
    else
      Ok(Stored(r.(halfOpenRequests := r.halfOpenRequests + 1)))
  }

  function RecordFailure(s: Breaker, now: nat): Result<Breaker> {
    if s.totalRequests + 1 > U32_MAX || s.errorCount + 1 > U32_MAX then Err(Trap) else
    var r := s.(totalRequests := s.totalRequests + 1, errorCount := s.errorCount + 1, lastFailureTime := now);
    if r.mode != HalfOpen then Ok(Stored(r)) else
    var w := if r.window.Some? then r.window.value else Window(0, 0, 0, now);
    Ok(Stored(Emit(r.(window := Some(w.(failures := w.failures + 1, completed := w.completed + 1)),
                      mode := Open, openedTime := now, halfOpenRequests := 0, halfOpenSince := 0),
                   Trigger, HighErrorRate, now, None)))
  }
}
