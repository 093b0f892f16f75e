/** Multisig approval of admin actions and the two-phase change of its threshold, running on top of the
    admin registry: who may propose and approve is whoever the registry lets manage admins at that moment. */
module Governance {
  import opened Common
  import opened AdminRegistry

  const THRESHOLD_ROTATION_DELAY: nat := 86400
  const ACTION_LIFETIME: nat := 86400

  datatype Pending = Pending(newThreshold: nat, proposedAt: nat, proposedBy: Address)

  datatype Config = Config(threshold: nat, totalAdmins: nat, enabled: bool)

  datatype Action = Action(
    kind: nat, target: Address, data: map<nat, nat>, initiator: Address,
    approvals: seq<Address>, createdAt: nat, expiresAt: nat, executed: bool)

  datatype Gov = Gov(
    admins: Admins, pending: Option<Pending>, config: Option<Config>, actions: map<nat, Action>, nextId: nat)

  function Start(original: Option<Address>): Gov {
    Gov(Deployed(original), None, None, map[], 1)
  }

  function ConfigOf(s: Gov): Config {
    if s.config.Some? then s.config.value else Config(1, 1, false)
  }

  /** What the threshold calls take for the number of admins; one if none was ever counted. */
  function ActiveAdmins(s: Gov): nat {
    CountOr(s.admins, 1)
  }

  // ----- two-phase threshold change -----

  function ProposeThreshold(s: Gov, actor: Address, legacyOk: bool, threshold: nat, now: nat): Result<Gov> {
    if !CanManage(s.admins, actor, legacyOk) then Err(Unauthorized) else
    :- Need(0 < threshold <= ActiveAdmins(s), InvalidInput);
    Ok(s.(pending := Some(Pending(threshold, now, actor))))
  }

  /** A proposal that the admin count has overtaken is an error, so the host also undoes its removal. */
  function ConfirmThreshold(s: Gov, now: nat): Result<Gov> {
    if s.pending.None? then Err(InvalidState) else
    var p := s.pending.value;
    :- Need(now >= p.proposedAt + THRESHOLD_ROTATION_DELAY, InvalidState);
    :- Need(0 < p.newThreshold <= ActiveAdmins(s), InvalidInput);
    Ok(s.(config := Some(Config(p.newThreshold, ActiveAdmins(s), p.newThreshold > 1)), pending := None))
  }

  function CancelProposal(s: Gov, actor: Address, legacyOk: bool): Result<Gov> {
    if !CanManage(s.admins, actor, legacyOk) then Err(Unauthorized) else
    :- Need(s.pending.Some?, InvalidState);
    Ok(s.(pending := None))
  }

  // ----- pending actions -----

  function CreateAction(s: Gov, actor: Address, legacyOk: bool, kind: nat, target: Address, data: map<nat, nat>,
                        now: nat)
    : Result<Gov>
  {
    if !CanManage(s.admins, actor, legacyOk) then Err(Unauthorized) else
    Ok(s.(nextId := s.nextId + 1,
          actions := s.actions[s.nextId :=
            Action(kind, target, data, actor, [actor], now, now + ACTION_LIFETIME, false)]))
  }

  function ApproveAction(s: Gov, actor: Address, legacyOk: bool, id: nat, now: nat): Result<Gov> {
    if !CanManage(s.admins, actor, legacyOk) then Err(Unauthorized) else
    :- Need(id in s.actions, ConfigNotFound);
    var a := s.actions[id];
    :- Need(!a.executed, InvalidState);
    :- Need(now <= a.expiresAt, DisputeError);
    :- Need(actor !in a.approvals, InvalidState);
    Ok(s.(actions := s.actions[id := a.(approvals := a.approvals + [actor])]))
  }

  /** Execution asks for neither permission nor freshness, only for enough approvals. */
  function ExecuteAction(s: Gov, id: nat): Result<Gov> {
    if id !in s.actions then Err(ConfigNotFound) else
    var a := s.actions[id];
    :- Need(!a.executed, InvalidState);
    :- Need(|a.approvals| >= ConfigOf(s).threshold, Unauthorized);
    Ok(s.(actions := s.actions[id := a.(executed := true)]))
  }

  // ----- histories -----

  datatype Call =
    | OnAdmins(step: Step)
    | Propose(actor: Address, legacyOk: bool, threshold: nat)
    | Confirm
    | CancelPending(actor: Address, legacyOk: bool)
    | Create(actor: Address, legacyOk: bool, kind: nat, target: Address, data: map<nat, nat>)
    | Approve(actor: Address, legacyOk: bool, id: nat)
    | Execute(id: nat)

  datatype Timed = Timed(call: Call, at: nat)

  function Outcome(s: Gov, t: Timed): Result<Gov> {
    match t.call
    case OnAdmins(step) => Ok(s.(admins := After(s.admins, step, t.at)))
    case Propose(a, legacy, n) => ProposeThreshold(s, a, legacy, n, t.at)
    case Confirm => ConfirmThreshold(s, t.at)
    case CancelPending(a, legacy) => CancelProposal(s, a, legacy)
    case Create(a, legacy, k, target, data) => CreateAction(s, a, legacy, k, target, data, t.at)
    case Approve(a, legacy, id) => ApproveAction(s, a, legacy, id, t.at)
    case Execute(id) => ExecuteAction(s, id)
  }

  function Next(s: Gov, t: Timed): Gov {
    var r := Outcome(s, t);
    if r.Ok? then r.value else s
  }

  ghost predicate History(original: Option<Address>, h: seq<Timed>, ss: seq<Gov>) {
    && |ss| == |h| + 1 && ss[0] == Start(original)
    && forall i | 0 <= i < |h| :: ss[i + 1] == Next(ss[i], h[i])
  }

  // ----- the threshold over whole histories -----

  predicate ConfigOk(c: Config) {
    1 <= c.threshold <= c.totalAdmins && (c.enabled <==> c.threshold > 1)
  }

  lemma NextThreshold(s: Gov, t: Timed)
    requires ConfigOk(ConfigOf(s))
    ensures var s' := Next(s, t);
            && ConfigOk(ConfigOf(s'))
            && (s'.config != s.config || (t.call.Confirm? && s'.pending != s.pending) ==>
                && t.call.Confirm? && s.pending.Some? && s'.pending == None
                && t.at >= s.pending.value.proposedAt + THRESHOLD_ROTATION_DELAY
                && ConfigOf(s').threshold == s.pending.value.newThreshold)
            && (s'.pending != s.pending ==>
                s'.pending == None ||
                (t.call.Propose? && CanManage(s.admins, t.call.actor, t.call.legacyOk)
                 && s'.pending == Some(Pending(t.call.threshold, t.at, t.call.actor))))
  {
  }

  /** In every reachable state the threshold in force lies between one and the recorded number of
      admins, and approval is required exactly when it exceeds one. */
  lemma {:induction false} ThresholdInRange(original: Option<Address>, h: seq<Timed>, ss: seq<Gov>, n: nat)
    requires History(original, h, ss) && n <= |h|
    ensures ConfigOk(ConfigOf(ss[n]))
  {
    if n > 0 {
      ThresholdInRange(original, h, ss, n - 1);
      NextThreshold(ss[n - 1], h[n - 1]);
    }
  }

  /** A stored proposal was put there by a permitted `Propose` call, and nothing has touched it since. */
  lemma {:induction false} PendingOrigin(original: Option<Address>, h: seq<Timed>, ss: seq<Gov>, n: nat)
    returns (p: nat)
    requires History(original, h, ss) && n <= |h| && ss[n].pending.Some?
    ensures p < n && h[p].call.Propose?
    ensures ss[n].pending == Some(Pending(h[p].call.threshold, h[p].at, h[p].call.actor))
    ensures CanManage(ss[p].admins, h[p].call.actor, h[p].call.legacyOk)
    ensures forall i | p < i <= n :: ss[i].pending == ss[n].pending
  {
    ThresholdInRange(original, h, ss, n - 1);
    NextThreshold(ss[n - 1], h[n - 1]);
    if ss[n].pending == ss[n - 1].pending {
      p := PendingOrigin(original, h, ss, n - 1);
    } else {
      p := n - 1;
    }
  }

  /** Every change of the threshold configuration is a confirmation of a proposal that a permitted admin
      made at least the rotation delay earlier and that stood, neither replaced, cancelled nor used, until then. */
  lemma ThresholdChangesAreDelayed(original: Option<Address>, h: seq<Timed>, ss: seq<Gov>, k: nat)
    requires History(original, h, ss) && k < |h| && ss[k + 1].config != ss[k].config
    ensures h[k].call.Confirm?
    ensures exists p: nat ::
              && p < k && h[p].call.Propose? && CanManage(ss[p].admins, h[p].call.actor, h[p].call.legacyOk)
              && ConfigOf(ss[k + 1]).threshold == h[p].call.threshold
              && h[k].at >= h[p].at + THRESHOLD_ROTATION_DELAY
              && forall i | p < i <= k :: ss[i].pending == Some(Pending(h[p].call.threshold, h[p].at, h[p].call.actor))
  {
    ThresholdInRange(original, h, ss, k);
    NextThreshold(ss[k], h[k]);
    var p := PendingOrigin(original, h, ss, k);
  }

  /** The recorded range is not re-checked when admins leave: a removal keeps the threshold within the
      number of remaining admins exactly when it was below their number before. */
  lemma RemovalStrandsThresholdIff(s: Gov, actor: Address, legacyOk: bool, a: Address)
    requires IndexOk(s.admins) && RemoveAdmin(s.admins, actor, legacyOk, a).Ok?
    requires ConfigOf(s).threshold <= CountOr(s.admins, 0)
    ensures var s' := s.(admins := RemoveAdmin(s.admins, actor, legacyOk, a).value);
            ConfigOf(s').threshold <= CountOr(s'.admins, 0) <==> ConfigOf(s).threshold < CountOr(s.admins, 0)
  {
    assert a in s.admins.list;
  }

  /** From deployment: a second admin, a threshold of two confirmed after the delay, and the second admin's
      removal leave a threshold nobody can meet any more. */
  lemma StrandedWitness() returns (h: seq<Timed>, ss: seq<Gov>)
    ensures History(Some(1), h, ss) && |h| == 5
    ensures ConfigOf(ss[4]).threshold == CountOr(ss[4].admins, 0) == 2
    ensures ConfigOf(ss[5]).threshold == 2 && CountOr(ss[5].admins, 0) == 1
  {
    h := [Timed(OnAdmins(DoMigrate), 0), Timed(OnAdmins(DoAdd(1, false, 2, SuperAdmin)), 0),
          Timed(Propose(1, false, 2), 0),
          Timed(Confirm, 86400), Timed(OnAdmins(DoRemove(1, false, 2)), 86400)];
    var s0 := Start(Some(1));
    var s1 := Next(s0, h[0]);
    var s2 := Next(s1, h[1]);
    var s3 := Next(s2, h[2]);
    var s4 := Next(s3, h[3]);
    ss := [s0, s1, s2, s3, s4, Next(s4, h[4])];
  }

  // ----- actions over whole histories -----

  /** What one call can do to an action that exists. */
  ghost predicate ActionStep(s: Gov, t: Timed, s': Gov, id: nat)
    requires id in s.actions
  {
    var a := s.actions[id];
    && id in s'.actions
    && (|| s'.actions[id] == a
        || (&& t.call.Approve? && t.call.id == id && !a.executed && t.at <= a.expiresAt && t.call.actor !in a.approvals
            && CanManage(s.admins, t.call.actor, t.call.legacyOk)
            && s'.actions[id] == a.(approvals := a.approvals + [t.call.actor]))
        || (&& t.call == Execute(id) && !a.executed && |a.approvals| >= ConfigOf(s).threshold
            && s'.actions[id] == a.(executed := true)))
  }

  lemma NextActions(s: Gov, t: Timed)
    requires forall id | id in s.actions :: id < s.nextId
    ensures var s' := Next(s, t);
            && (forall id | id in s'.actions :: id < s'.nextId)
            && s.nextId <= s'.nextId
            && (forall id | id in s.actions :: ActionStep(s, t, s', id))
            && (forall id | id in s'.actions && id !in s.actions ::
                  && id == s.nextId && t.call.Create? && CanManage(s.admins, t.call.actor, t.call.legacyOk)
                  && s'.actions[id] == Action(t.call.kind, t.call.target, t.call.data, t.call.actor, [t.call.actor],
                                              t.at, t.at + ACTION_LIFETIME, false))
  {
  }

  /** What every call keeps of the stored entries: the threshold in range, action ids below the counter, and
      in every action distinct approvals that start with the initiator's. */
  ghost predicate Kept(s: Gov) {
    && ConfigOk(ConfigOf(s))
    && forall id | id in s.actions :: id < s.nextId && WellApproved(s.actions[id])
  }

  ghost predicate WellApproved(a: Action) {
    NoDup(a.approvals) && |a.approvals| > 0 && a.approvals[0] == a.initiator
  }

  lemma NextKept(s: Gov, t: Timed)
    requires Kept(s)
    ensures Kept(Next(s, t))
  {
    NextThreshold(s, t);
    NextActions(s, t);
    forall id | id in Next(s, t).actions ensures WellApproved(Next(s, t).actions[id]) {
      if id in s.actions {
        assert WellApproved(s.actions[id]) && ActionStep(s, t, Next(s, t), id);
      }
    }
  }

  /** Action ids come from a counter that only grows, so an id is never given out twice. */
  lemma {:induction false} IdsAreFresh(original: Option<Address>, h: seq<Timed>, ss: seq<Gov>, n: nat)
    requires History(original, h, ss) && n <= |h|
    ensures forall id | id in ss[n].actions :: id < ss[n].nextId
  {
    if n > 0 {
      IdsAreFresh(original, h, ss, n - 1);
      NextActions(ss[n - 1], h[n - 1]);
    }
  }

  /** Approval number `j` of an action was given by call number `i`. */
  ghost predicate ApprovedBy(h: seq<Timed>, ss: seq<Gov>, id: nat, a: Action, j: nat, i: nat)
    requires |ss| == |h| + 1 && j < |a.approvals|
  {
    && i < |h| && h[i].call.Approve? && h[i].call.id == id && h[i].call.actor == a.approvals[j]
    && h[i].at <= a.expiresAt && CanManage(ss[i].admins, a.approvals[j], h[i].call.legacyOk)
  }

  /** Approval number `j` was given in time by a permitted admin, among the first `n` calls. */
  ghost predicate Approved(h: seq<Timed>, ss: seq<Gov>, n: nat, id: nat, a: Action, j: nat)
    requires |ss| == |h| + 1 && j < |a.approvals|
  {
    exists i: nat :: i < n && ApprovedBy(h, ss, id, a, j, i)
  }

  /** Call number `x` executed the action, with the approvals it has, which met the threshold then in force. */
  ghost predicate ExecutedBy(h: seq<Timed>, ss: seq<Gov>, id: nat, a: Action, x: nat)
    requires |ss| == |h| + 1
  {
    && x < |h| && h[x].call == Execute(id)
    && id in ss[x].actions && ss[x].actions[id] == a.(executed := false)
    && |a.approvals| >= ConfigOf(ss[x]).threshold
  }

  /** The record of an action tells the truth about the first `n` calls. */
  ghost predicate ActionOk(h: seq<Timed>, ss: seq<Gov>, n: nat, id: nat, a: Action)
    requires |ss| == |h| + 1 && n <= |h|
  {
    && NoDup(a.approvals) && |a.approvals| > 0 && a.approvals[0] == a.initiator
    && (forall j: nat | 0 < j < |a.approvals| :: Approved(h, ss, n, id, a, j))
    && (a.executed ==> exists x: nat :: x < n && ExecutedBy(h, ss, id, a, x))
  }

  lemma ApprovedNext(h: seq<Timed>, ss: seq<Gov>, n: nat, id: nat, a: Action, a': Action, j: nat)
    requires |ss| == |h| + 1 && n < |h| && j < |a.approvals| <= |a'.approvals|
    requires Approved(h, ss, n, id, a, j) && a'.approvals[j] == a.approvals[j] && a'.expiresAt == a.expiresAt
    ensures Approved(h, ss, n + 1, id, a', j)
  {
    var i: nat :| i < n && ApprovedBy(h, ss, id, a, j, i);
    assert ApprovedBy(h, ss, id, a', j, i);
  }

  lemma ActionOkNext(h: seq<Timed>, ss: seq<Gov>, n: nat, id: nat)
    requires |ss| == |h| + 1 && n < |h| && id in ss[n].actions && id in ss[n + 1].actions
    requires ActionOk(h, ss, n, id, ss[n].actions[id]) && ActionStep(ss[n], h[n], ss[n + 1], id)
    ensures ActionOk(h, ss, n + 1, id, ss[n + 1].actions[id])
  {
    var a, a', after := ss[n].actions[id], ss[n + 1].actions[id], n + 1;
    forall j: nat | 0 < j < |a'.approvals| ensures Approved(h, ss, after, id, a', j) {
      if j < |a.approvals| {
        ApprovedNext(h, ss, n, id, a, a', j);
      } else {
        assert ApprovedBy(h, ss, id, a', j, n);
      }
    }
    if a.executed {
      var x: nat :| x < n && ExecutedBy(h, ss, id, a, x);
      assert ExecutedBy(h, ss, id, a', x);
    } else if a'.executed {
      assert a'.(executed := false) == a;
      assert ExecutedBy(h, ss, id, a', n);
    }
  }

  /** Every action in every reachable state: its approvals are distinct, start with the initiator, and each
      further one was given by a permitted admin before the expiry; if it is executed, it was executed with
      exactly these approvals, at least as many as the threshold in force at that moment. */
  lemma {:induction false} ActionsAreHonest(original: Option<Address>, h: seq<Timed>, ss: seq<Gov>, n: nat)
    requires History(original, h, ss) && n <= |h|
    ensures forall id | id in ss[n].actions :: ActionOk(h, ss, n, id, ss[n].actions[id])
  {
    if n > 0 {
      var k := n - 1;
      ActionsAreHonest(original, h, ss, k);
      IdsAreFresh(original, h, ss, k);
      NextActions(ss[k], h[k]);
      forall id | id in ss[n].actions ensures ActionOk(h, ss, n, id, ss[n].actions[id]) {
        if id in ss[k].actions {
          ActionOkNext(h, ss, k, id);
        }
      }
    }
  }

  /** An action is never forgotten, and what it is about never changes; once executed it is frozen and
      every further attempt to execute it, or to add an approval, fails. */
  lemma {:induction false} ExecutedOnce(original: Option<Address>, h: seq<Timed>, ss: seq<Gov>, m: nat, n: nat, id: nat)
    requires History(original, h, ss) && m <= n <= |h| && id in ss[m].actions
    ensures id in ss[n].actions
    ensures var a, b := ss[m].actions[id], ss[n].actions[id];
            && b == a.(approvals := b.approvals, executed := b.executed)
            && a.approvals <= b.approvals
            && (a.executed ==> b == a)
    ensures ss[m].actions[id].executed ==>
              (&& ExecuteAction(ss[n], id).Err?
               && forall actor, legacyOk, now :: ApproveAction(ss[n], actor, legacyOk, id, now).Err?)
  {
    if n > m {
      ExecutedOnce(original, h, ss, m, n - 1, id);
      IdsAreFresh(original, h, ss, n - 1);
      NextActions(ss[n - 1], h[n - 1]);
      assert ActionStep(ss[n - 1], h[n - 1], ss[n], id);
    }
  }

  /** Execution succeeds exactly on an existing, unexecuted action with enough approvals: neither the caller nor
      the time matter. */
  lemma ExecutableIff(s: Gov, id: nat)
    ensures ExecuteAction(s, id).Ok? <==>
              id in s.actions && !s.actions[id].executed && |s.actions[id].approvals| >= ConfigOf(s).threshold
  {
  }

  /** From deployment: an action created at time 0 is executed ten days later, long past its expiry. */
  lemma StaleExecutionWitness() returns (h: seq<Timed>, ss: seq<Gov>)
    ensures History(Some(1), h, ss) && |h| == 3
    ensures 1 in ss[2].actions && !ss[2].actions[1].executed && h[2].at > ss[2].actions[1].expiresAt
    ensures 1 in ss[3].actions && ss[3].actions[1].executed
  {
    h := [Timed(OnAdmins(DoMigrate), 0), Timed(Create(1, false, 0, 9, map[]), 0), Timed(Execute(1), 864000)];
    var s0 := Start(Some(1));
    var s1 := Next(s0, h[0]);
    var s2 := Next(s1, h[1]);
    ss := [s0, s1, s2, Next(s2, h[2])];
  }

  // ----- when the calls succeed -----

  lemma ProposeIff(s: Gov, actor: Address, legacyOk: bool, threshold: nat, now: nat)
    ensures ProposeThreshold(s, actor, legacyOk, threshold, now).Ok? ==>
              ProposeThreshold(s, actor, legacyOk, threshold, now).value
              == s.(pending := Some(Pending(threshold, now, actor)))
    ensures ProposeThreshold(s, actor, legacyOk, threshold, now).Ok? <==>
              (&& Permitted(s.admins, actor, legacyOk)
               && 0 < threshold <= (if s.admins.count.Some? then s.admins.count.value else 1))
    ensures Permitted(s.admins, actor, legacyOk) ==>
              ProposeThreshold(s, actor, legacyOk, threshold, now) != Err(Unauthorized)
  {
    PermittedIff(s.admins, actor, legacyOk);
  }

  lemma ConfirmIff(s: Gov, now: nat)
    ensures ConfirmThreshold(s, now).Ok? <==>
              (&& s.pending.Some? && now >= s.pending.value.proposedAt + 86400
               && 0 < s.pending.value.newThreshold <= (if s.admins.count.Some? then s.admins.count.value else 1))
    ensures ConfirmThreshold(s, now).Ok? ==>
              var t := ConfirmThreshold(s, now).value;
              && t.pending == None && t == s.(config := t.config, pending := None) && t.config.Some?
              && t.config.value.threshold == s.pending.value.newThreshold
              && t.config.value.totalAdmins == (if s.admins.count.Some? then s.admins.count.value else 1)
  {
  }

  lemma CancelIff(s: Gov, actor: Address, legacyOk: bool)
    ensures CancelProposal(s, actor, legacyOk).Ok? <==> Permitted(s.admins, actor, legacyOk) && s.pending.Some?
    ensures Permitted(s.admins, actor, legacyOk) ==> CancelProposal(s, actor, legacyOk) != Err(Unauthorized)
  {
    PermittedIff(s.admins, actor, legacyOk);
  }

  lemma CreateIff(s: Gov, actor: Address, legacyOk: bool, kind: nat, target: Address, data: map<nat, nat>, now: nat)
    ensures CreateAction(s, actor, legacyOk, kind, target, data, now).Ok? <==> Permitted(s.admins, actor, legacyOk)
    ensures Permitted(s.admins, actor, legacyOk) ==>
              var action := Action(kind, target, data, actor, [actor], now, now + 86400, false);
              CreateAction(s, actor, legacyOk, kind, target, data, now).value
              == s.(nextId := s.nextId + 1, actions := s.actions[s.nextId := action])
  {
    PermittedIff(s.admins, actor, legacyOk);
  }

  /** An approval is accepted exactly from a permitted admin who has not approved, on an unexecuted action, up to
      and including its expiry. */
  lemma ApproveIff(s: Gov, actor: Address, legacyOk: bool, id: nat, now: nat)
    ensures ApproveAction(s, actor, legacyOk, id, now).Ok? <==>
              (&& Permitted(s.admins, actor, legacyOk) && id in s.actions && !s.actions[id].executed
               && now <= s.actions[id].expiresAt && actor !in s.actions[id].approvals)
    ensures Permitted(s.admins, actor, legacyOk) ==> ApproveAction(s, actor, legacyOk, id, now) != Err(Unauthorized)
  {
    PermittedIff(s.admins, actor, legacyOk);
  }

  /** A list of admins asked to approve, one after the other, at their times; those who are refused are passed over. */
  function ApproveEach(s: Gov, id: nat, who: seq<(Address, nat)>): Gov {
    if who == [] then s
    else
      var before := ApproveEach(s, id, who[..|who| - 1]);
      var (actor, at) := who[|who| - 1];
      var r := ApproveAction(before, actor, false, id, at);
      if r.Ok? then r.value else before
  }

  function Names(who: seq<(Address, nat)>): seq<Address> {
    seq(|who|, i requires 0 <= i < |who| => who[i].0)
  }

  /** `t` is `s` but for approvals of one action, which all of `who` are among. */
  ghost predicate Collected(s: Gov, id: nat, who: seq<(Address, nat)>, t: Gov)
    requires id in s.actions
  {
    && t.admins == s.admins && t.config == s.config && id in t.actions
    && t.actions[id] == s.actions[id].(approvals := t.actions[id].approvals)
    && forall w | w in who :: w.0 in t.actions[id].approvals
  }

  lemma CollectOne(s: Gov, id: nat, who: seq<(Address, nat)>, mid: Gov, w: (Address, nat))
    requires id in s.actions && !s.actions[id].executed && s.admins.migrated
    requires Collected(s, id, who, mid) && RoleFor(s.admins, w.0) == Some(SuperAdmin) && w.1 <= s.actions[id].expiresAt
    ensures var r := ApproveAction(mid, w.0, false, id, w.1);
            Collected(s, id, who + [w], if r.Ok? then r.value else mid)
  {
    ApproveIff(mid, w.0, false, id, w.1);
  }

  /** All permitted admins asked in time end up among the approvals. */
  lemma {:induction false} ApproveEachCollects(s: Gov, id: nat, who: seq<(Address, nat)>)
    requires id in s.actions && !s.actions[id].executed && s.admins.migrated
    requires forall w | w in who :: RoleFor(s.admins, w.0) == Some(SuperAdmin) && w.1 <= s.actions[id].expiresAt
    ensures Collected(s, id, who, ApproveEach(s, id, who))
  {
    if who == [] {
    } else {
      var k := |who| - 1;
      assert who == who[..k] + [who[k]];
      assert who[k] in who && forall w | w in who[..k] :: w in who;
      ApproveEachCollects(s, id, who[..k]);
      CollectOne(s, id, who[..k], ApproveEach(s, id, who[..k]), who[k]);
    }
  }

  /** So an action can be carried: as many different SuperAdmins as the threshold, approving no later than the
      expiry, in any order, make its execution succeed at any time after. */
  lemma EnoughApprovalsCarry(s: Gov, id: nat, who: seq<(Address, nat)>)
    requires id in s.actions && !s.actions[id].executed && s.admins.migrated
    requires forall w | w in who :: RoleFor(s.admins, w.0) == Some(SuperAdmin) && w.1 <= s.actions[id].expiresAt
    requires NoDup(Names(who)) && |who| >= ConfigOf(s).threshold
    ensures ExecuteAction(ApproveEach(s, id, who), id).Ok?
  {
    ApproveEachCollects(s, id, who);
    NamesWithin(who, ApproveEach(s, id, who).actions[id].approvals);
  }

  lemma NamesWithin(who: seq<(Address, nat)>, approvals: seq<Address>)
    requires NoDup(Names(who)) && forall w | w in who :: w.0 in approvals
    ensures |who| <= |approvals|
  {
    var approved := set a | a in approvals;
    forall a | a in Names(who) ensures a in approved {
      var i :| 0 <= i < |who| && who[i].0 == a;
      assert who[i] in who;
    }
    NoDupSize(Names(who), approved);
    SetAtMost(approvals, approved);
  }

  lemma {:induction false} SetAtMost(l: seq<Address>, s: set<Address>)
    requires forall a | a in s :: a in l
    ensures |s| <= |l|
  {
    if l == [] {
      assert s == {};
    } else {
      var k := |l| - 1;
      assert l == l[..k] + [l[k]];
      SetAtMost(l[..k], s - {l[k]});
      assert |s - {l[k]}| >= |s| - 1;
    }
  }

  /** From deployment: with two SuperAdmins an action of the first is approved by the second an hour later. */
  lemma ApproveWitness() returns (h: seq<Timed>, ss: seq<Gov>)
    ensures History(Some(1), h, ss) && |h| == 4 && h[3] == Timed(Approve(2, false, 1), 3600)
    ensures 1 in ss[3].actions && ss[3].actions[1].approvals == [1]
    ensures 1 in ss[4].actions && ss[4].actions[1].approvals == [1, 2]
  {
    h := [Timed(OnAdmins(DoMigrate), 0), Timed(OnAdmins(DoAdd(1, false, 2, SuperAdmin)), 0),
          Timed(Create(1, false, 0, 9, map[]), 0), Timed(Approve(2, false, 1), 3600)];
    var s0 := Start(Some(1));
    var s1 := Next(s0, h[0]);
    var s2 := Next(s1, h[1]);
    var s3 := Next(s2, h[2]);
    ss := [s0, s1, s2, s3, Next(s3, h[3])];
  }
}
