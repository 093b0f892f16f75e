/** Histories of the circuit breaker: what must have happened in an episode of HalfOpen for the
    breaker to close, what the quota window can and cannot do, and what the event history holds.
    A request that is refused is an error of the contract call that made it, so it leaves no trace. */
module BreakerRuns {
  import opened Common
  import opened BreakerState

  datatype Call =
    | DoPause(admin: nat, permitted: bool, scope: PauseScope, allowWithdrawals: bool)
    | DoRecover(admin: nat, permitted: bool)
    | DoResume(admin: nat, permitted: bool)
    | DoTrigger(condition: Condition)
    | Request(betting: bool)
    | Success
    | Failure
    | WindowExpires   // the host drops the temporary window

  datatype Timed = Timed(call: Call, at: nat)

  function Perform(c: Config, s: Breaker, t: Timed): Result<Breaker> {
    match t.call
    case DoPause(a, p, scope, w) => PauseWith(s, a, p, scope, w, t.at)
    case DoRecover(a, p) => Recover(s, a, p, t.at)
    case DoResume(a, p) => RequestResume(s, a, p, t.at)
    case DoTrigger(condition) =>
      var r :- AutoTrigger(c, s, condition, t.at);
      Ok(r.0)
    case Request(betting) =>
      var (admittedState, admitted) := OperationAllowed(c, s, betting, t.at);
      :- Need(admitted, CBOpen);
      Ok(admittedState)
    case Success => RecordSuccess(c, s, t.at)
    case Failure => RecordFailure(s, t.at)
    case WindowExpires => Ok(s.(window := None))
  }

  /** One call; a failed call is rolled back. */
  function Next(c: Config, s: Breaker, t: Timed): Breaker {
    var r := Perform(c, s, t);
    if r.Ok? then r.value else s
  }

  /** A history: timed calls on a fresh breaker, and the states before and after each of them. */
  ghost predicate History(c: Config, start: nat, h: seq<Timed>, ss: seq<Breaker>) {
    && |ss| == |h| + 1 && ss[0] == Initial(start)
    && forall i | 0 <= i < |h| :: ss[i + 1] == Next(c, ss[i], h[i])
  }

  /** Every list of calls has a history. */
  lemma HistoryExists(c: Config, start: nat, h: seq<Timed>) returns (ss: seq<Breaker>)
    ensures History(c, start, h, ss)
  {
    if h == [] {
      ss := [Initial(start)];
    } else {
      var k := |h| - 1;
      var before := HistoryExists(c, start, h[..k]);
      ss := before + [Next(c, before[k], h[k])];
      assert forall i | 0 <= i < k :: h[..k][i] == h[i];
    }
  }

  /** Call number `i` was recorded as a request. */
  predicate Recorded(ss: seq<Breaker>, i: nat)
    requires i + 1 < |ss|
  {
    ss[i + 1].totalRequests > ss[i].totalRequests
  }

  predicate EntersHalfOpen(ss: seq<Breaker>, i: nat)
    requires i + 1 < |ss|
  {
    ss[i].mode != HalfOpen && ss[i + 1].mode == HalfOpen
  }

  /** Call number `i` opens the breaker: it was not open before, or the automatic trigger recovered and
      reopened it in one go, which counts as a failure. */
  predicate Opens(ss: seq<Breaker>, i: nat)
    requires i + 1 < |ss|
  {
    ss[i + 1].mode == Open && (ss[i].mode != Open || ss[i + 1].failureCount > ss[i].failureCount)
  }

  /** Call number `e` starts the episode of HalfOpen that is still on after `n` calls. */
  ghost predicate EpisodeStart(ss: seq<Breaker>, n: nat, e: nat)
    requires n < |ss|
  {
    && e < n && EntersHalfOpen(ss, e)
    && forall i | e < i <= n :: ss[i].mode == HalfOpen
  }

  /** Call number `o` is the last opening among the first `n` calls, and the breaker has stayed open since. */
  ghost predicate LastOpening(ss: seq<Breaker>, n: nat, o: nat)
    requires n < |ss|
  {
    && o < n && Opens(ss, o)
    && forall i | o < i < n :: StaysOpen(ss, i)
  }

  predicate StaysOpen(ss: seq<Breaker>, i: nat)
    requires i + 1 < |ss|
  {
    ss[i + 1].mode == Open && !Opens(ss, i)
  }

  /** Recorded successes among calls `from..to` at time `since` or later. */
  function Probes(h: seq<Timed>, ss: seq<Breaker>, from: nat, to: nat, since: nat): nat
    requires from <= to <= |h| && |ss| == |h| + 1
  {
    if from == to then 0
    else Probes(h, ss, from, to - 1, since)
         + (if h[to - 1].call == Success && h[to - 1].at >= since && Recorded(ss, to - 1) then 1 else 0)
  }

  ghost predicate NoFailure(h: seq<Timed>, ss: seq<Breaker>, from: nat, to: nat)
    requires from <= to <= |h| && |ss| == |h| + 1
  {
    forall i | from <= i < to :: h[i].call == Failure ==> !Recorded(ss, i)
  }

  // ----- one call, as far as episodes and openings are concerned -----

  ghost predicate CountersStep(c: Config, s: Breaker, t: Timed, s': Breaker) {
    && (s'.mode == HalfOpen && s.mode != HalfOpen ==> s'.halfOpenSince == t.at && s'.halfOpenRequests == 0)
    && (s'.mode == HalfOpen && s.mode == HalfOpen ==>
        && s'.halfOpenSince == s.halfOpenSince
        && !(t.call == Failure && s'.totalRequests > s.totalRequests)
        && s'.halfOpenRequests == s.halfOpenRequests +
           (if t.call == Success && t.at >= s.halfOpenSince + c.recoveryTimeout && s'.totalRequests > s.totalRequests
            then 1 else 0))
    && (s'.mode == Open ==>
        s'.openedTime == if s.mode != Open || s'.failureCount > s.failureCount then t.at else s.openedTime)
  }

  lemma NextCounters(c: Config, s: Breaker, t: Timed)
    ensures CountersStep(c, s, t, Next(c, s, t))
  {
    match t.call
    case DoTrigger(condition) => TriggerCounters(c, s, t);
    case Request(betting) => RequestCounters(c, s, t);
    case Success => SuccessCounters(c, s, t);
    case _ =>
  }

  lemma TriggerCounters(c: Config, s: Breaker, t: Timed)
    requires t.call.DoTrigger?
    ensures CountersStep(c, s, t, Next(c, s, t))
  {
  }

  lemma RequestCounters(c: Config, s: Breaker, t: Timed)
    requires t.call.Request?
    ensures CountersStep(c, s, t, Next(c, s, t))
  {
  }

  lemma SuccessCounters(c: Config, s: Breaker, t: Timed)
    requires t.call.Success?
    ensures CountersStep(c, s, t, Next(c, s, t))
  {
  }

  lemma NextClosing(c: Config, s: Breaker, t: Timed)
    requires t.call == Success && s.mode == HalfOpen && Next(c, s, t).mode == Closed
    ensures s.halfOpenRequests + 1 >= c.halfOpenMaxRequests
    ensures t.at >= s.halfOpenSince + c.recoveryTimeout
    ensures Next(c, s, t).totalRequests > s.totalRequests
  {
  }

  lemma NextByTrigger(c: Config, s: Breaker, t: Timed)
    requires t.call.DoTrigger? && s.mode != HalfOpen && Next(c, s, t).mode == HalfOpen
    ensures s.mode == Open && t.at >= s.openedTime + c.recoveryTimeout
  {
  }

  ghost predicate Counters(c: Config, h: seq<Timed>, ss: seq<Breaker>) {
    && |ss| == |h| + 1 && ss[0].mode == Closed
    && forall i | 0 <= i < |h| :: CountersStep(c, ss[i], h[i], ss[i + 1])
  }

  lemma HistoryCounters(c: Config, start: nat, h: seq<Timed>, ss: seq<Breaker>)
    requires History(c, start, h, ss)
    ensures Counters(c, h, ss)
  {
    forall i | 0 <= i < |h| ensures CountersStep(c, ss[i], h[i], ss[i + 1]) {
      NextCounters(c, ss[i], h[i]);
    }
  }

  // ----- the stored fields agree with the history -----

  /** In HalfOpen the entry time and the probe counter describe the current episode. */
  lemma {:induction false} EpisodeHolds(c: Config, h: seq<Timed>, ss: seq<Breaker>, n: nat) returns (e: nat)
    requires Counters(c, h, ss) && n <= |h| && ss[n].mode == HalfOpen
    ensures EpisodeStart(ss, n, e)
    ensures ss[n].halfOpenSince == h[e].at
    ensures ss[n].halfOpenRequests == Probes(h, ss, e + 1, n, h[e].at + c.recoveryTimeout)
    ensures NoFailure(h, ss, e + 1, n)
  {
    assert CountersStep(c, ss[n - 1], h[n - 1], ss[n]);
    if ss[n - 1].mode == HalfOpen {
      e := EpisodeHolds(c, h, ss, n - 1);
    } else {
      e := n - 1;
    }
  }

  lemma {:induction false} OpeningHolds(c: Config, h: seq<Timed>, ss: seq<Breaker>, n: nat) returns (o: nat)
    requires Counters(c, h, ss) && n <= |h| && ss[n].mode == Open
    ensures LastOpening(ss, n, o) && ss[n].openedTime == h[o].at
  {
    assert CountersStep(c, ss[n - 1], h[n - 1], ss[n]);
    if Opens(ss, n - 1) {
      o := n - 1;
    } else {
      o := OpeningHolds(c, h, ss, n - 1);
      assert StaysOpen(ss, n - 1);
    }
  }

  // ----- the automatic trigger and the tallies, on the stored fields -----

  /** The error rate has reached the configured percentage, without rounding. */
  predicate RateReached(c: Config, s: Breaker, condition: Condition) {
    condition == HighErrorRate && s.totalRequests > 0 && s.errorCount * 100 >= c.maxErrorRate * s.totalRequests
  }

  predicate RecoveryDue(c: Config, s: Breaker, now: nat) {
    s.mode == Open && c.autoRecovery && now >= s.openedTime + c.recoveryTimeout
  }

  /** The counters have room, and the clock has not gone back since the breaker opened. */
  predicate HasRoom(s: Breaker, now: nat) {
    s.errorCount * 100 <= U32_MAX && s.failureCount + 1 <= U32_MAX && (s.mode == Open ==> now >= s.openedTime)
  }

  lemma ShouldTriggerIff(c: Config, s: Breaker, condition: Condition)
    ensures ShouldTrigger(c, s, condition) <==> RateReached(c, s, condition)
  {
    if s.totalRequests > 0 {
      DivBounds(s.errorCount * 100, s.totalRequests);
      if s.errorCount * 100 >= c.maxErrorRate * s.totalRequests {
        DivGe(s.errorCount * 100, s.totalRequests, c.maxErrorRate);
      } else if s.errorCount * 100 / s.totalRequests >= c.maxErrorRate {
        MulMono(s.totalRequests, c.maxErrorRate, s.errorCount * 100 / s.totalRequests);
      }
    }
  }

  /** The trigger opens the breaker exactly when the condition is a high error rate, the rate is reached, and the
      breaker is not open or due to recover; if it does not open a breaker due to recover, that one is in
      HalfOpen from now on; otherwise nothing changes. */
  lemma TriggerOutcome(c: Config, s: Breaker, condition: Condition, now: nat)
    requires HasRoom(s, now)
    ensures AutoTrigger(c, s, condition, now).Ok?
    ensures var (s', tripped) := AutoTrigger(c, s, condition, now).value;
            && (tripped <==> RateReached(c, s, condition) && (s.mode != Open || RecoveryDue(c, s, now)))
            && (if tripped then
                  s'.mode == Open && s'.openedTime == s'.lastFailureTime == now && s'.failureCount == s.failureCount + 1
                else if RecoveryDue(c, s, now) then s'.mode == HalfOpen && s'.halfOpenSince == now
                else s' == s)
  {
    ShouldTriggerIff(c, s, condition);
  }

  /** Half of ten requests failing opens a breaker set to ten percent. */
  lemma TriggerWitness(s: Breaker, now: nat)
    requires s.mode == Closed && s.totalRequests == 10 && s.errorCount == 5 && HasRoom(s, now)
    ensures var r := AutoTrigger(DEFAULT_CONFIG, s, HighErrorRate, now); r.Ok? && r.value.1 && r.value.0.mode == Open
  {
    TriggerOutcome(DEFAULT_CONFIG, s, HighErrorRate, now);
  }

  /** The pause options in force: those of the last successful pause since the last recovery, else betting only
      and no withdrawals. They also govern openings by the trigger or a failed probe. */
  function OptionsOf(c: Config, h: seq<Timed>, ss: seq<Breaker>, n: nat): (PauseScope, bool)
    requires n <= |h| && |ss| == |h| + 1
  {
    if n == 0 then (BettingOnly, false)
    else
      match h[n - 1].call
      case DoPause(_, permitted, scope, withdrawals) =>
        if permitted && ss[n - 1].mode != Open then (scope, withdrawals) else OptionsOf(c, h, ss, n - 1)
      case DoRecover(_, permitted) =>
        if permitted && ss[n - 1].mode != Closed then (BettingOnly, false) else OptionsOf(c, h, ss, n - 1)
      case _ => OptionsOf(c, h, ss, n - 1)
  }

  /** In every state of every history. */
  lemma {:induction false} OptionsHold(c: Config, start: nat, h: seq<Timed>, ss: seq<Breaker>, n: nat)
    requires History(c, start, h, ss) && n <= |h|
    ensures (ss[n].scope, ss[n].allowWithdrawals) == OptionsOf(c, h, ss, n)
  {
    if n > 0 {
      OptionsHold(c, start, h, ss, n - 1);
      NextOptions(c, ss[n - 1], h[n - 1]);
    }
  }

  lemma NextOptions(c: Config, s: Breaker, t: Timed)
    ensures var s' := Next(c, s, t);
            (s'.scope, s'.allowWithdrawals) ==
            match t.call
            case DoPause(_, permitted, scope, withdrawals) =>
              if permitted && s.mode != Open then (scope, withdrawals) else (s.scope, s.allowWithdrawals)
            case DoRecover(_, permitted) =>
              if permitted && s.mode != Closed then (BettingOnly, false) else (s.scope, s.allowWithdrawals)
            case _ => (s.scope, s.allowWithdrawals)
  {
  }

  /** What the stored tallies are meant to be: recorded outcomes, failures among them, trips since the breaker last
      closed, and the times of the last failure or trip and of the last success or recovery. */
  datatype Tally = Tally(outcomes: nat, failures: nat, trips: nat, lastFailure: nat, lastSuccess: nat)

  /** What one call adds to the tallies. */
  function Tallied(before: Tally, succeeded: bool, failed: bool, tripped: bool, closed: bool, recovered: bool, at: nat)
    : Tally
  {
    Tally(before.outcomes + (if succeeded || failed then 1 else 0),
          before.failures + (if failed then 1 else 0),
          if closed then 0 else before.trips + (if tripped then 1 else 0),
          if failed || tripped then at else before.lastFailure,
          if succeeded || recovered then at else before.lastSuccess)
  }

  function TallyOf(c: Config, start: nat, h: seq<Timed>, ss: seq<Breaker>, n: nat): Tally
    requires n <= |h| && |ss| == |h| + 1
  {
    if n == 0 then Tally(0, 0, 0, 0, start)
    else
      var k := n - 1;
      var done := Perform(c, ss[k], h[k]).Ok?;
      var closed := ss[k].mode != Closed && ss[n].mode == Closed;
      Tallied(TallyOf(c, start, h, ss, k), done && h[k].call.Success?, done && h[k].call.Failure?,
              Trips(c, ss[k], h[k]), closed, closed && h[k].call.DoRecover?, h[k].at)
  }

  /** A trigger call that opens the breaker. */
  predicate Trips(c: Config, s: Breaker, t: Timed) {
    t.call.DoTrigger? && Perform(c, s, t).Ok? && AutoTrigger(c, s, t.call.condition, t.at).value.1
  }

  function StoredTally(s: Breaker): Tally {
    Tally(s.totalRequests, s.errorCount, s.failureCount, s.lastFailureTime, s.lastSuccessTime)
  }

  /** In every state of every history the stored counters and times are those tallies. */
  lemma {:induction false} TalliesHold(c: Config, start: nat, h: seq<Timed>, ss: seq<Breaker>, n: nat)
    requires History(c, start, h, ss) && n <= |h|
    ensures StoredTally(ss[n]) == TallyOf(c, start, h, ss, n)
  {
    if n > 0 {
      TalliesHold(c, start, h, ss, n - 1);
      NextTallies(c, ss[n - 1], h[n - 1]);
    }
  }

  /** One call, as far as the tallies are concerned. */
  ghost predicate TalliesStep(c: Config, s: Breaker, t: Timed, s': Breaker) {
    var done := Perform(c, s, t).Ok?;
    var closed := s.mode != Closed && s'.mode == Closed;
    StoredTally(s') == Tallied(StoredTally(s), done && t.call.Success?, done && t.call.Failure?, Trips(c, s, t),
                               closed, closed && t.call.DoRecover?, t.at)
  }

  lemma NextTallies(c: Config, s: Breaker, t: Timed)
    ensures TalliesStep(c, s, t, Next(c, s, t))
  {
    match t.call
    case DoTrigger(_) => TriggerTallies(c, s, t);
    case Request(_) => RequestTallies(c, s, t);
    case Success => SuccessTallies(c, s, t);
    case _ =>
  }

  lemma TriggerTallies(c: Config, s: Breaker, t: Timed)
    requires t.call.DoTrigger?
    ensures TalliesStep(c, s, t, Next(c, s, t))
  {
  }

  lemma RequestTallies(c: Config, s: Breaker, t: Timed)
    requires t.call.Request?
    ensures TalliesStep(c, s, t, Next(c, s, t))
  {
  }

  lemma SuccessTallies(c: Config, s: Breaker, t: Timed)
    requires t.call.Success?
    ensures TalliesStep(c, s, t, Next(c, s, t))
  {
  }

  /** An outcome is recorded as long as its counters have room. */
  lemma RecordedIff(c: Config, s: Breaker, now: nat)
    ensures RecordFailure(s, now).Ok? <==> s.totalRequests < U32_MAX && s.errorCount < U32_MAX
    ensures RecordSuccess(c, s, now).Ok? <==>
              (&& s.totalRequests < U32_MAX
               && (s.mode == HalfOpen && now >= s.halfOpenSince + c.recoveryTimeout ==> s.halfOpenRequests < U32_MAX))
  {
  }

  // ----- episode safety -----

  /** Whenever a recorded success (call number `k`) closes the breaker, the episode of HalfOpen it ends
      contains exactly the required number of successes at or after entry plus the recovery timeout, the
      closing one included, and no failure. If the episode began by automatic recovery, the breaker
      closes no earlier than two recovery timeouts after it last opened. */
  lemma ProbesCloseSafely(c: Config, start: nat, h: seq<Timed>, ss: seq<Breaker>, k: nat)
    requires ValidConfig(c) && History(c, start, h, ss) && k < |h|
    requires h[k].call == Success && ss[k].mode == HalfOpen && ss[k + 1].mode == Closed
    ensures exists e: nat ::
              && EpisodeStart(ss, k, e)
              && Probes(h, ss, e + 1, k + 1, h[e].at + c.recoveryTimeout) == c.halfOpenMaxRequests
              && NoFailure(h, ss, e + 1, k + 1)
              && h[k].at >= h[e].at + c.recoveryTimeout
              && (h[e].call.DoTrigger? ==>
                  exists o: nat :: LastOpening(ss, e, o) && h[k].at >= h[o].at + 2 * c.recoveryTimeout)
  {
    HistoryCounters(c, start, h, ss);
    var e := EpisodeHolds(c, h, ss, k);
    CounterBelowMax(c, start, h, ss, k);
    NextClosing(c, ss[k], h[k]);
    assert Probes(h, ss, e + 1, k + 1, h[e].at + c.recoveryTimeout) == c.halfOpenMaxRequests;
    if h[e].call.DoTrigger? {
      NextByTrigger(c, ss[e], h[e]);
      var o := OpeningHolds(c, h, ss, e);
      assert LastOpening(ss, e, o) && h[k].at >= h[o].at + 2 * c.recoveryTimeout;
    }
  }

  lemma {:induction false} CounterBelowMax(c: Config, start: nat, h: seq<Timed>, ss: seq<Breaker>, n: nat)
    requires ValidConfig(c) && History(c, start, h, ss) && n <= |h|
    ensures ss[n].mode == HalfOpen ==> ss[n].halfOpenRequests < c.halfOpenMaxRequests
  {
    if n > 0 {
      CounterBelowMax(c, start, h, ss, n - 1);
      NextBelowMax(c, ss[n - 1], h[n - 1]);
    }
  }

  lemma NextBelowMax(c: Config, s: Breaker, t: Timed)
    requires ValidConfig(c) && (s.mode == HalfOpen ==> s.halfOpenRequests < c.halfOpenMaxRequests)
    ensures Next(c, s, t).mode == HalfOpen ==> Next(c, s, t).halfOpenRequests < c.halfOpenMaxRequests
  {
  }

  // ----- the quota window -----

  ghost predicate WindowOk(c: Config, s: Breaker) {
    s.window.Some? ==> s.window.value.failures == 0 && s.window.value.admitted <= c.callsPerMinute
  }

  /** Between calls no failure is ever on record in the window, and it never admitted more than the quota. */
  lemma {:induction false} WindowHolds(c: Config, start: nat, h: seq<Timed>, ss: seq<Breaker>, n: nat)
    requires History(c, start, h, ss) && n <= |h|
    ensures WindowOk(c, ss[n])
  {
    if n > 0 {
      WindowHolds(c, start, h, ss, n - 1);
      NextWindow(c, ss[n - 1], h[n - 1]);
    }
  }

  lemma NextWindow(c: Config, s: Breaker, t: Timed)
    requires WindowOk(c, s)
    ensures WindowOk(c, Next(c, s, t))
  {
  }

  /** What every call keeps of the stored state: the window's bounds, a wiped window outside HalfOpen, so that
      each episode starts with a full quota, room for a probe, and a bounded event history. */
  ghost predicate Kept(c: Config, s: Breaker) {
    && WindowOk(c, s)
    && (s.mode != HalfOpen && s.window.Some? ==> s.window.value == NO_WINDOW)
    && (s.mode == HalfOpen ==> s.halfOpenRequests < c.halfOpenMaxRequests)
    && |s.events| <= MAX_EVENTS
  }

  lemma NextKept(c: Config, s: Breaker, t: Timed)
    requires ValidConfig(c) && Kept(c, s)
    ensures Kept(c, Next(c, s, t))
  {
    NextWindow(c, s, t);
    NextBelowMax(c, s, t);
    NextWiped(c, s, t);
    NextEvents(c, s, t);
  }

  lemma NextWiped(c: Config, s: Breaker, t: Timed)
    requires s.mode != HalfOpen && s.window.Some? ==> s.window.value == NO_WINDOW
    ensures var s' := Next(c, s, t); s'.mode != HalfOpen && s'.window.Some? ==> s'.window.value == NO_WINDOW
  {
  }

  /** In every state of every history. */
  lemma {:induction false} KeptHolds(c: Config, start: nat, h: seq<Timed>, ss: seq<Breaker>, n: nat)
    requires ValidConfig(c) && History(c, start, h, ss) && n <= |h|
    ensures Kept(c, ss[n])
  {
    if n > 0 {
      KeptHolds(c, start, h, ss, n - 1);
      NextKept(c, ss[n - 1], h[n - 1]);
    }
  }

  /** Admission in full: a window that is missing or has run out starts anew; a request is admitted as long as the
      window has quota left, and counted in it, and nothing else changes. */
  lemma AdmissionIs(c: Config, s: Breaker, now: nat)
    requires ValidConfig(c)
    ensures var (s', admitted) := HalfOpenAdmit(c, s, now);
            var renewed := s.window.None? || now >= s.window.value.windowStart + c.evaluationWindow;
            && (admitted <==> renewed || s.window.value.admitted < c.callsPerMinute)
            && (admitted ==>
                s' == s.(window := Some(if renewed then Window(1, 0, 0, now)
                                        else s.window.value.(admitted := s.window.value.admitted + 1))))
  {
  }

  /** What the admission helper computes for a request in HalfOpen: it is admitted, or the breaker would
      close; the branch that would reopen it is dead. It is refused exactly when the running window has
      spent its quota, and as a refused call is rolled back, the breaker then stays as it was. */
  lemma QuotaNeverReopens(c: Config, start: nat, h: seq<Timed>, ss: seq<Breaker>, n: nat, betting: bool, now: nat)
    requires ValidConfig(c) && History(c, start, h, ss) && n <= |h| && ss[n].mode == HalfOpen
    ensures var s := ss[n];
            var (s', admitted) := HalfOpenAdmit(c, s, now);
            && (s'.mode == HalfOpen <==> admitted) && (s'.mode == Closed <==> !admitted)
            && (!admitted <==> s.window.Some? && s.window.value.admitted == c.callsPerMinute
                               && now < s.window.value.windowStart + c.evaluationWindow)
            && Next(c, s, Timed(Request(betting), now)) == if admitted then s' else s
  {
    WindowHolds(c, start, h, ss, n);
  }

  /** What the automatic trigger requires to open a breaker that is not open, or has just recovered. */
  predicate Fires(c: Config, s: Breaker, condition: Condition) {
    ShouldTrigger(c, s, condition) && s.errorCount * 100 <= U32_MAX && s.failureCount + 1 <= U32_MAX
  }

  predicate Closes(c: Config, s: Breaker, now: nat) {
    && s.mode == HalfOpen && s.totalRequests + 1 <= U32_MAX && s.halfOpenRequests + 1 <= U32_MAX
    && now >= s.halfOpenSince + c.recoveryTimeout && s.halfOpenRequests + 1 >= c.halfOpenMaxRequests
  }

  predicate CountsFailure(s: Breaker) {
    s.totalRequests + 1 <= U32_MAX && s.errorCount + 1 <= U32_MAX
  }

  /** The calls that end an episode of HalfOpen. */
  predicate EndsEpisode(c: Config, s: Breaker, t: Timed) {
    match t.call
    case DoPause(_, permitted, _, _) => permitted
    case DoRecover(_, permitted) => permitted
    case DoTrigger(condition) => Fires(c, s, condition)
    case Success => Closes(c, s, t.at)
    case Failure => CountsFailure(s)
    case _ => false
  }

  /** HalfOpen is left by a permitted pause or recovery, the trigger, the closing success or a recorded
      failure, and by nothing else: no request, however many, ever ends it. */
  lemma HalfOpenEndsIff(c: Config, s: Breaker, t: Timed)
    requires s.mode == HalfOpen
    ensures Next(c, s, t).mode != HalfOpen <==> EndsEpisode(c, s, t)
  {
    if t.call.DoTrigger? {
      TriggerEffect(c, s, t.call.condition, t.at);
    }
  }

  lemma TriggerEffect(c: Config, s: Breaker, condition: Condition, now: nat)
    requires s.mode == HalfOpen
    ensures var r := AutoTrigger(c, s, condition, now);
            (r.Ok? && r.value.0.mode != HalfOpen) <==> Fires(c, s, condition)
  {
  }

  /** Over whole histories: an episode lasts until a call that ends it. */
  lemma {:induction false} HalfOpenLasts(c: Config, start: nat, h: seq<Timed>, ss: seq<Breaker>, m: nat, n: nat)
    requires History(c, start, h, ss) && m <= n <= |h| && ss[m].mode == HalfOpen
    requires forall i | m <= i < n :: !EndsEpisode(c, ss[i], h[i])
    ensures ss[n].mode == HalfOpen
  {
    if m < n {
      HalfOpenLasts(c, start, h, ss, m, n - 1);
      HalfOpenEndsIff(c, ss[n - 1], h[n - 1]);
    }
  }

  /** A breaker in HalfOpen that has admitted `n` requests of a window starting at 0. */
  predicate HasAdmitted(s: Breaker, n: nat) {
    s.mode == HalfOpen && s.window == Some(Window(n, 0, 0, 0))
  }

  lemma AskOnce(s: Breaker, n: nat)
    requires HasAdmitted(s, n) && n <= 3
    ensures var s' := Next(DEFAULT_CONFIG, s, Timed(Request(true), 3));
            if n < 3 then HasAdmitted(s', n + 1)
            else s' == s && HalfOpenAdmit(DEFAULT_CONFIG, s, 3).0.mode == Closed
  {
  }

  /** With the default configuration: paused, resumed, and three requests admitted, the fourth finds its quota
      spent; the helper would close the breaker, but the refusal leaves it in HalfOpen. */
  lemma QuotaWitness() returns (h: seq<Timed>, ss: seq<Breaker>)
    ensures History(DEFAULT_CONFIG, 0, h, ss) && |h| == 6 && h[5] == Timed(Request(true), 3)
    ensures ss[5].mode == HalfOpen && HalfOpenAdmit(DEFAULT_CONFIG, ss[5], 3).0.mode == Closed
    ensures ss[6] == ss[5]
  {
    var ask := Timed(Request(true), 3);
    h := [Timed(DoPause(7, true, Full, false), 1), Timed(DoResume(7, true), 2), ask, ask, ask, ask];
    var s0 := Initial(0);
    var s1 := Next(DEFAULT_CONFIG, s0, h[0]);
    var s2 := Next(DEFAULT_CONFIG, s1, h[1]);
    AskOnce(s2, 0);
    var s3 := Next(DEFAULT_CONFIG, s2, ask);
    AskOnce(s3, 1);
    var s4 := Next(DEFAULT_CONFIG, s3, ask);
    AskOnce(s4, 2);
    var s5 := Next(DEFAULT_CONFIG, s4, ask);
    AskOnce(s5, 3);
    ss := [s0, s1, s2, s3, s4, s5, Next(DEFAULT_CONFIG, s5, ask)];
  }

  // ----- the entry timestamp -----

  /** What the field is documented to satisfy: zero outside HalfOpen. */
  predicate SinceOk(s: Breaker) {
    s.mode != HalfOpen ==> s.halfOpenSince == 0
  }

  /** The calls that leave an entry time behind: a pause or the trigger in HalfOpen, and the trigger on an
      open breaker whose timeout has passed, which enters and leaves HalfOpen in one call. */
  predicate KeepsStamp(c: Config, s: Breaker, t: Timed) {
    match t.call
    case DoPause(_, permitted, _, _) => permitted && s.mode == HalfOpen && s.halfOpenSince > 0
    case DoTrigger(condition) =>
      && Fires(c, s, condition)
      && (|| (s.mode == HalfOpen && s.halfOpenSince > 0)
          || (s.mode == Open && c.autoRecovery && t.at >= s.openedTime + c.recoveryTimeout && t.at > 0))
    case _ => false
  }

  /** One call keeps the documented property exactly when it is none of those. */
  lemma SinceKeptIff(c: Config, s: Breaker, t: Timed)
    requires SinceOk(s)
    ensures SinceOk(Next(c, s, t)) <==> !KeepsStamp(c, s, t)
  {
    if t.call.DoTrigger? {
      SinceAfterTrigger(c, s, t);
    }
  }

  lemma SinceAfterTrigger(c: Config, s: Breaker, t: Timed)
    requires SinceOk(s) && t.call.DoTrigger?
    ensures SinceOk(Next(c, s, t)) <==> !KeepsStamp(c, s, t)
  {
  }

  /** So a history has the documented property in all its states exactly when none of its calls is of that kind. */
  lemma SinceHoldsIff(c: Config, start: nat, h: seq<Timed>, ss: seq<Breaker>)
    requires History(c, start, h, ss)
    ensures (forall i | 0 <= i <= |h| :: SinceOk(ss[i])) <==> (forall i | 0 <= i < |h| :: !KeepsStamp(c, ss[i], h[i]))
  {
    if forall i | 0 <= i < |h| :: !KeepsStamp(c, ss[i], h[i]) {
      forall i | 0 <= i <= |h| ensures SinceOk(ss[i]) {
        SinceHolds(c, start, h, ss, i);
      }
    } else {
      var i :| 0 <= i < |h| && KeepsStamp(c, ss[i], h[i]);
      if SinceOk(ss[i]) {
        SinceKeptIff(c, ss[i], h[i]);
        assert !SinceOk(ss[i + 1]);
      }
    }
  }

  lemma {:induction false} SinceHolds(c: Config, start: nat, h: seq<Timed>, ss: seq<Breaker>, n: nat)
    requires History(c, start, h, ss) && n <= |h|
    requires forall i | 0 <= i < |h| :: !KeepsStamp(c, ss[i], h[i])
    ensures SinceOk(ss[n])
  {
    if n > 0 {
      SinceHolds(c, start, h, ss, n - 1);
      SinceKeptIff(c, ss[n - 1], h[n - 1]);
    }
  }

  /** It happens with the default configuration: after one failure and a pause, the trigger recovers and
      reopens the breaker, which stays open throughout and carries the entry time. */
  lemma StampWitness() returns (h: seq<Timed>, ss: seq<Breaker>)
    ensures History(DEFAULT_CONFIG, 0, h, ss) && |h| == 3
    ensures SinceOk(ss[0]) && SinceOk(ss[1]) && SinceOk(ss[2])
    ensures ss[2].mode == Open && ss[3].mode == Open && ss[3].halfOpenSince == 1000
  {
    h := [Timed(Failure, 1), Timed(DoPause(7, true, Full, false), 2), Timed(DoTrigger(HighErrorRate), 1000)];
    ss := HistoryExists(DEFAULT_CONFIG, 0, h);
    assert ss[1] == Next(DEFAULT_CONFIG, ss[0], h[0]);
    assert ss[2] == Next(DEFAULT_CONFIG, ss[1], h[1]);
    assert ss[3] == Next(DEFAULT_CONFIG, ss[2], h[2]);
  }

  // ----- the event history -----

  /** The last hundred events of a list. */
  function Recent(es: seq<Event>): seq<Event> {
    if |es| <= MAX_EVENTS then es else es[|es| - MAX_EVENTS..]
  }

  predicate Traps(c: Config, s: Breaker, condition: Condition, now: nat) {
    || (c.autoRecovery && s.mode == Open && now < s.openedTime)
    || (condition == HighErrorRate && s.totalRequests > 0 && s.errorCount * 100 > U32_MAX)
    || (ShouldTrigger(c, s, condition) && (s.mode != Open || RecoveryDue(c, s, now)) && s.failureCount + 1 > U32_MAX)
  }

  /** The events one call reports. */
  function Reported(c: Config, s: Breaker, t: Timed): seq<Event> {
    match t.call
    case DoPause(admin, permitted, _, _) =>
      if permitted && s.mode != Open then [Event(Pause, ManualOverride, t.at, Some(admin))] else []
    case DoRecover(admin, permitted) =>
      if permitted && s.mode != Closed then [Event(Resume, ManualOverride, t.at, Some(admin))] else []
    case DoResume(admin, permitted) =>
      if permitted && s.mode == Open then [Event(Resume, ManualOverride, t.at, Some(admin))] else []
    case DoTrigger(condition) =>
      if Traps(c, s, condition, t.at) then []
      else (if RecoveryDue(c, s, t.at) then [Event(Reset, ManualOverride, t.at, None)] else [])
           + (if ShouldTrigger(c, s, condition) && (s.mode != Open || RecoveryDue(c, s, t.at))
              then [Event(Trigger, condition, t.at, None)] else [])
    case Success => if Closes(c, s, t.at) then [Event(Resume, ManualOverride, t.at, None)] else []
    case Failure =>
      if s.mode == HalfOpen && CountsFailure(s) then [Event(Trigger, HighErrorRate, t.at, None)] else []
    case _ => []
  }

  /** All events the first `n` calls reported, in order. */
  function ReportedBy(c: Config, h: seq<Timed>, ss: seq<Breaker>, n: nat): seq<Event>
    requires |ss| == |h| + 1 && n <= |h|
  {
    if n == 0 then [] else ReportedBy(c, h, ss, n - 1) + Reported(c, ss[n - 1], h[n - 1])
  }

  lemma RecentTwice(a: seq<Event>, b: seq<Event>)
    ensures Recent(Recent(a) + b) == Recent(a + b)
  {
  }

  lemma PushIsRecent(es: seq<Event>, e: Event)
    requires |es| <= MAX_EVENTS
    ensures Push(es, e) == Recent(es + [e])
  {
  }

  lemma PushTwice(es: seq<Event>, e: Event, f: Event)
    requires |es| <= MAX_EVENTS
    ensures Push(Push(es, e), f) == Recent(es + [e, f])
  {
    PushIsRecent(es, e);
    PushIsRecent(Push(es, e), f);
    RecentTwice(es + [e], [f]);
    assert es + [e] + [f] == es + [e, f];
  }

  /** The history after a list of at most two reports. */
  function Extended(es: seq<Event>, added: seq<Event>): seq<Event> {
    if |added| == 0 then es
    else if |added| == 1 then Push(es, added[0])
    else Push(Push(es, added[0]), added[1])
  }

  lemma ExtendedIsRecent(es: seq<Event>, added: seq<Event>)
    requires |es| <= MAX_EVENTS && |added| <= 2
    ensures Extended(es, added) == Recent(es + added)
  {
    if |added| == 0 {
      assert es + added == es;
    } else if |added| == 1 {
      assert added == [added[0]];
      PushIsRecent(es, added[0]);
    } else {
      assert added == [added[0], added[1]];
      PushTwice(es, added[0], added[1]);
    }
  }

  lemma NextExtends(c: Config, s: Breaker, t: Timed)
    ensures |Reported(c, s, t)| <= 2
    ensures Next(c, s, t).events == Extended(s.events, Reported(c, s, t))
  {
    match t.call
    case DoTrigger(_) => TriggerExtends(c, s, t);
    case Request(_) => RequestExtends(c, s, t);
    case _ =>
  }

  lemma TriggerExtends(c: Config, s: Breaker, t: Timed)
    requires t.call.DoTrigger?
    ensures |Reported(c, s, t)| <= 2
    ensures Next(c, s, t).events == Extended(s.events, Reported(c, s, t))
  {
  }

  lemma RequestExtends(c: Config, s: Breaker, t: Timed)
    requires t.call.Request?
    ensures Next(c, s, t).events == s.events
  {
  }

  lemma NextEvents(c: Config, s: Breaker, t: Timed)
    requires |s.events| <= MAX_EVENTS
    ensures Next(c, s, t).events == Recent(s.events + Reported(c, s, t))
  {
    NextExtends(c, s, t);
    ExtendedIsRecent(s.events, Reported(c, s, t));
  }

  /** In every history the stored events are the last hundred of all events reported so far, in order. */
  lemma {:induction false} StoredEventsAreRecent(c: Config, start: nat, h: seq<Timed>, ss: seq<Breaker>, n: nat)
    requires History(c, start, h, ss) && n <= |h|
    ensures ss[n].events == Recent(ReportedBy(c, h, ss, n))
  {
    if n > 0 {
      StoredEventsAreRecent(c, start, h, ss, n - 1);
      RecentNext(c, ss[n - 1], h[n - 1], ReportedBy(c, h, ss, n - 1));
    }
  }

  lemma RecentNext(c: Config, s: Breaker, t: Timed, es: seq<Event>)
    requires s.events == Recent(es)
    ensures Next(c, s, t).events == Recent(es + Reported(c, s, t))
  {
    NextEvents(c, s, t);
    RecentTwice(es, Reported(c, s, t));
  }
}
