/** The circuit breaker as stored: fields that every call reads, changes and writes back, the temporary
    half-open window, and the event history. Each method implements its function of `BreakerState`. */
module CircuitBreaker {
  import opened Common
  import opened BreakerState
  import opened BreakerRuns
  import BetLedger

  /** What the ledger sees of the breaker when one operation asks to be admitted. */
  function GateOf(c: Config, s: Breaker, betting: bool, now: nat): BetLedger.Gate {
    match s.mode
    case Closed => BetLedger.Gate.Closed
    case Open => BetLedger.Paused(s.scope, s.allowWithdrawals)
    case HalfOpen => BetLedger.Probing(OperationAllowed(c, s, betting, now).1)
  }

  /** The ledger's gate answers every operation as the breaker does. */
  lemma GateAgrees(c: Config, s: Breaker, op: BetLedger.Operation, now: nat)
    ensures BetLedger.Admits(GateOf(c, s, op == BetLedger.Betting, now), op)
            == OperationAllowed(c, s, op == BetLedger.Betting, now).1
    ensures BetLedger.WithdrawalsAllowed(GateOf(c, s, op == BetLedger.Betting, now))
            <==> !(s.mode == Open && !s.allowWithdrawals)
  {
  }

  class CircuitBreaker {
    const config: Config
    var state: Breaker   // the stored state, without window and events
    var window: Option<Window>
    var events: seq<Event>

    constructor (config: Config, now: nat)
      requires ValidConfig(config)
      ensures this.config == config && Model() == Initial(now) && Valid()
    {
      this.config := config;
      this.state := Initial(now);
      this.window := None;
      this.events := [];
    }

    function Model(): Breaker
      reads this
    {
      state.(window := window, events := events)
    }

    ghost predicate Valid()
      reads this
    {
      ValidConfig(config) && Kept(config, Model())
    }

    /** Every operation gets the same answer, and asking changes nothing. */
    ghost predicate Answers(betting: bool, admitted: bool)
      reads this
    {
      forall t :: OperationAllowed(config, Model(), betting, t) == (Model(), admitted)
    }

    method EmitEvent(action: Action, condition: Condition, now: nat, admin: Option<nat>)
      modifies this`events
      ensures Model() == Emit(old(Model()), action, condition, now, admin)
    {
      events := events + [Event(action, condition, now, admin)];
      if |events| > MAX_EVENTS {
        events := events[1..];
      }
    }

    /** Stores a changed state; leaving HalfOpen wipes the window. */
    method UpdateState(changed: Breaker)
      modifies this`state, this`window
      ensures Model() == Stored(changed.(window := old(window), events := events))
    {
      state := changed;
      if changed.mode != HalfOpen {
        window := Some(NO_WINDOW);
      }
    }

    method PauseWithOptions(admin: nat, permitted: bool, scope: PauseScope, allowWithdrawals: bool, now: nat)
      returns (outcome: Result<()>)
      requires Valid()
      modifies this
      ensures Follows(outcome, old(Model()), Model(),
                      PauseWith(old(Model()), admin, permitted, scope, allowWithdrawals, now))
      ensures Valid() && (outcome.Ok? <==> permitted && old(Model()).mode != Open)
      ensures outcome.Ok? ==> Answers(true, false) && Answers(false, scope == BettingOnly)
      ensures outcome.Ok? ==>
                forall t :: BetLedger.WithdrawalsAllowed(GateOf(config, Model(), false, t)) == allowWithdrawals
    {
      NextKept(config, Model(), Timed(DoPause(admin, permitted, scope, allowWithdrawals), now));
      if !permitted {
        return Err(Unauthorized);
      }
      var s := state;
      if s.mode == Open {
        return Err(CBError);
      }
      s := s.(mode := Open);
      s := s.(openedTime := now);
      s := s.(scope := scope);
      s := s.(allowWithdrawals := allowWithdrawals);
      UpdateState(s);
      EmitEvent(Pause, ManualOverride, now, Some(admin));
      return Ok(());
    }

    method Recovery(admin: nat, permitted: bool, now: nat) returns (outcome: Result<()>)
      requires Valid()
      modifies this
      ensures Follows(outcome, old(Model()), Model(), Recover(old(Model()), admin, permitted, now))
      ensures Valid() && (outcome.Ok? <==> permitted && old(Model()).mode != Closed)
      ensures outcome.Ok? ==> Answers(true, true) && Answers(false, true)
    {
      NextKept(config, Model(), Timed(DoRecover(admin, permitted), now));
      if !permitted {
        return Err(Unauthorized);
      }
      var s := state;
      if s.mode != Open && s.mode != HalfOpen {
        return Err(CBError);
      }
      s := s.(mode := Closed);
      s := s.(failureCount := 0);
      s := s.(halfOpenRequests := 0);
      s := s.(halfOpenSince := 0);
      s := s.(lastSuccessTime := now);
      s := s.(scope := BettingOnly);
      s := s.(allowWithdrawals := false);
      UpdateState(s);
      EmitEvent(Resume, ManualOverride, now, Some(admin));
      return Ok(());
    }

    method RequestResume(admin: nat, permitted: bool, now: nat) returns (outcome: Result<()>)
      requires Valid()
      modifies this
      ensures Follows(outcome, old(Model()), Model(), BreakerState.RequestResume(old(Model()), admin, permitted, now))
      ensures Valid() && (outcome.Ok? <==> permitted && old(Model()).mode == Open)
      ensures outcome.Ok? ==> forall t: nat :: Closes(config, Model(), t) ==> t >= now + config.recoveryTimeout
      ensures outcome.Ok? ==> forall betting, t :: OperationAllowed(config, Model(), betting, t).1
    {
      NextKept(config, Model(), Timed(DoResume(admin, permitted), now));
      if !permitted {
        return Err(Unauthorized);
      }
      var s := state;
      if s.mode != Open {
        return Err(CBError);
      }
      s := s.(mode := HalfOpen);
      s := s.(halfOpenRequests := 0);
      s := s.(halfOpenSince := now);
      UpdateState(s);
      EmitEvent(Resume, ManualOverride, now, Some(admin));
      return Ok(());
    }

    /** An open breaker whose timeout has passed moves to HalfOpen. */
    method RecoverIfDue(now: nat)
      modifies this
      ensures Model() == AutoRecover(config, old(Model()), now)
    {
      var s := state;
      if config.autoRecovery && s.mode == Open && now - s.openedTime >= config.recoveryTimeout {
        s := s.(mode := HalfOpen);
        s := s.(halfOpenRequests := 0);
        s := s.(halfOpenSince := now);
        UpdateState(s);
        EmitEvent(Reset, ManualOverride, now, None);
      }
    }

    method AutomaticTrigger(condition: Condition, now: nat) returns (outcome: Result<bool>)
      requires Valid()
      modifies this
      ensures var spec := AutoTrigger(config, old(Model()), condition, now);
              if spec.Ok? then outcome == Ok(spec.value.1) && Model() == spec.value.0
              else outcome == Err(spec.error) && Model() == old(Model())
      ensures Valid() && (outcome == Ok(true) ==> Model().mode == Open && Model().openedTime == now)
      ensures HasRoom(old(Model()), now) ==>
                outcome == Ok(RateReached(config, old(Model()), condition)
                              && (old(Model()).mode != Open || RecoveryDue(config, old(Model()), now)))
    {
      NextKept(config, Model(), Timed(DoTrigger(condition), now));
      if HasRoom(Model(), now) {
        TriggerOutcome(config, Model(), condition, now);
      }
      outcome := TriggerOn(condition, now);
    }

    /** The call itself: recovery if due, the condition, the opening. */
    method TriggerOn(condition: Condition, now: nat) returns (outcome: Result<bool>)
      modifies this
      ensures var spec := AutoTrigger(config, old(Model()), condition, now);
              if spec.Ok? then outcome == Ok(spec.value.1) && Model() == spec.value.0
              else outcome == Err(spec.error) && Model() == old(Model())
    {
      var savedState, savedWindow, savedEvents := state, window, events;
      if config.autoRecovery && state.mode == Open && now < state.openedTime {
        return Err(Trap);
      }
      RecoverIfDue(now);
      var s := state;
      var shouldTrigger := false;
      if condition == HighErrorRate && s.totalRequests > 0 {
        if s.errorCount * 100 > U32_MAX {
          state, window, events := savedState, savedWindow, savedEvents;
          return Err(Trap);
        }
        shouldTrigger := s.errorCount * 100 / s.totalRequests >= config.maxErrorRate;
      }
      if shouldTrigger && s.mode != Open {
        if s.failureCount + 1 > U32_MAX {
          state, window, events := savedState, savedWindow, savedEvents;
          return Err(Trap);
        }
        s := s.(mode := Open);
        s := s.(failureCount := s.failureCount + 1);
        s := s.(lastFailureTime := now);
        s := s.(openedTime := now);
        UpdateState(s);
        EmitEvent(Trigger, condition, now, None);
        return Ok(true);
      }
      return Ok(false);
    }

    method Admit(now: nat) returns (admitted: bool)
      modifies this
      ensures (Model(), admitted) == HalfOpenAdmit(config, old(Model()), now)
      ensures old(Valid()) && old(Model()).mode == HalfOpen ==>
                Valid() && Model().mode == if admitted then HalfOpen else Closed
    {
      var w := if window.Some? then window.value else Window(0, 0, 0, now);
      if now >= w.windowStart + config.evaluationWindow {
        w := Window(0, 0, 0, now);
      }
      if w.admitted < config.callsPerMinute {
        w := w.(admitted := w.admitted + 1);
        window := Some(w);
        return true;
      }
      var s := state;
      if w.failures == 0 {
        s := s.(mode := Closed);
        s := s.(failureCount := 0);
        s := s.(halfOpenRequests := 0);
        UpdateState(s);
        EmitEvent(Resume, ManualOverride, now, None);
      } else {
        s := s.(mode := Open);
        s := s.(openedTime := now);
        s := s.(halfOpenRequests := 0);
        UpdateState(s);
        EmitEvent(Trigger, HighErrorRate, now, None);
      }
      return false;
    }

    method IsOperationAllowed(betting: bool, now: nat) returns (allowed: bool)
      requires Valid()
      modifies this
      ensures (Model(), allowed) == OperationAllowed(config, old(Model()), betting, now)
      ensures Valid() && (allowed ==> Model().mode == old(Model()).mode)
    {
      match state.mode
      case Closed =>
        allowed := true;
      case Open =>
        allowed := state.scope == BettingOnly && !betting;
      case HalfOpen =>
        if config.callsPerMinute > 0 {
          allowed := Admit(now);
        } else {
          allowed := state.halfOpenRequests < config.halfOpenMaxRequests;
        }
    }

    /** The guard of the writing calls: a refusal is an error, so the caller's state is rolled back. In
        HalfOpen it is what a quota request amounts to: admitted and counted, or without any effect. */
    method RequireWriteAllowed(betting: bool, now: nat) returns (outcome: Result<()>)
      requires Valid()
      modifies this
      ensures Valid() && Model() == Next(config, old(Model()), Timed(Request(betting), now))
      ensures outcome.Ok? <==> OperationAllowed(config, old(Model()), betting, now).1
      ensures Model().mode == old(Model()).mode && (outcome.Err? ==> Model() == old(Model()))
    {
      var savedState, savedWindow, savedEvents := state, window, events;
      var allowed := IsOperationAllowed(betting, now);
      if !allowed {
        state, window, events := savedState, savedWindow, savedEvents;
        return Err(CBOpen);
      }
      return Ok(());
    }

    method RecordSuccess(now: nat) returns (outcome: Result<()>)
      requires Valid()
      modifies this
      ensures Follows(outcome, old(Model()), Model(), BreakerState.RecordSuccess(config, old(Model()), now))
      ensures Valid() && (outcome.Ok? ==> (Model().mode != old(Model()).mode <==> Closes(config, old(Model()), now)))
      ensures Closes(config, old(Model()), now) ==> Answers(true, true) && Answers(false, true)
    {
      NextKept(config, Model(), Timed(Success, now));
      var s := state;
      if s.totalRequests + 1 > U32_MAX {
        return Err(Trap);
      }
      s := s.(totalRequests := s.totalRequests + 1);
      s := s.(lastSuccessTime := now);
      if s.mode == HalfOpen {
        if now < s.halfOpenSince + config.recoveryTimeout {
          UpdateState(s);
          return Ok(());
        }
        if s.halfOpenRequests + 1 > U32_MAX {
          return Err(Trap);
        }
        s := s.(halfOpenRequests := s.halfOpenRequests + 1);
        if s.halfOpenRequests >= config.halfOpenMaxRequests {
          s := s.(mode := Closed);
          s := s.(failureCount := 0);
          s := s.(halfOpenRequests := 0);
          s := s.(halfOpenSince := 0);
          EmitEvent(Resume, ManualOverride, now, None);
        }
      }
      UpdateState(s);
      return Ok(());
    }

    method RecordFailure(now: nat) returns (outcome: Result<()>)
      requires Valid()
      modifies this
      ensures Follows(outcome, old(Model()), Model(), BreakerState.RecordFailure(old(Model()), now))
      ensures Valid() && (outcome.Ok? <==> CountsFailure(old(Model())))
      ensures outcome.Ok? && old(Model()).mode == HalfOpen ==> Answers(true, false) && Model().openedTime == now
      ensures outcome.Ok? && old(Model()).mode != HalfOpen ==> Model().mode == old(Model()).mode
    {
      NextKept(config, Model(), Timed(Failure, now));
      var s := state;
      if s.totalRequests + 1 > U32_MAX || s.errorCount + 1 > U32_MAX {
        return Err(Trap);
      }
      s := s.(totalRequests := s.totalRequests + 1);
      s := s.(errorCount := s.errorCount + 1);
      s := s.(lastFailureTime := now);
      if s.mode == HalfOpen {
        var w := if window.Some? then window.value else Window(0, 0, 0, now);
        w := w.(failures := w.failures + 1);
        w := w.(completed := w.completed + 1);
        window := Some(w);
        s := s.(mode := Open);
        s := s.(openedTime := now);
        s := s.(halfOpenRequests := 0);
        s := s.(halfOpenSince := 0);
        EmitEvent(Trigger, HighErrorRate, now, None);
      }
      UpdateState(s);
      return Ok(());
    }
  }
}
