/** The multisig entries as stored, beside the registry they consult. */
module MultisigManager {
  import opened Common
  import opened AdminRegistry
  import opened Governance

  class MultisigManager {
    var admins: Admins
    var pending: Option<Pending>
    var config: Option<Config>
    var actions: map<nat, Action>
    var nextId: nat

    constructor (original: Option<Address>)
      ensures Model() == Start(original) && Valid()
    {
      admins, pending, config, actions, nextId := Deployed(original), None, None, map[], 1;
    }

    function Model(): Gov
      reads this
    {
      Gov(admins, pending, config, actions, nextId)
    }

    ghost predicate Valid()
      reads this
    {
      Kept(Model())
    }

    method Propose(actor: Address, legacyOk: bool, newThreshold: nat, now: nat) returns (outcome: Result<()>)
      requires Valid()
      modifies this`pending
      ensures Follows(outcome, old(Model()), Model(),
                      ProposeThreshold(old(Model()), actor, legacyOk, newThreshold, now))
      ensures outcome.Ok? <==>
                (&& Permitted(admins, actor, legacyOk)
                 && 0 < newThreshold <= (if admins.count.Some? then admins.count.value else 1))
      ensures Valid()
      ensures outcome.Ok? ==>
                forall t: nat :: ConfirmThreshold(Model(), t).Ok? <==> t >= now + THRESHOLD_ROTATION_DELAY
    {
      ProposeIff(Model(), actor, legacyOk, newThreshold, now);
      NextKept(Model(), Timed(Governance.Propose(actor, legacyOk, newThreshold), now));
      if !CanManage(admins, actor, legacyOk) {
        return Err(Unauthorized);
      }
      var totalAdmins := CountOr(admins, 1);
      if newThreshold == 0 || newThreshold > totalAdmins {
        return Err(InvalidInput);
      }
      pending := Some(Pending(newThreshold, now, actor));
      return Ok(());
    }

    method Confirm(now: nat) returns (outcome: Result<()>)
      requires Valid()
      modifies this`pending, this`config
      ensures Follows(outcome, old(Model()), Model(), ConfirmThreshold(old(Model()), now))
      ensures Valid()
      ensures outcome.Ok? ==>
                1 <= ConfigOf(Model()).threshold == old(pending).value.newThreshold <= ActiveAdmins(Model())
      ensures outcome.Ok? ==> forall t :: ConfirmThreshold(Model(), t).Err?
    {
      NextKept(Model(), Timed(Governance.Confirm, now));
      if pending.None? {
        return Err(InvalidState);
      }
      var proposal := pending.value;
      if now < proposal.proposedAt + THRESHOLD_ROTATION_DELAY {
        return Err(InvalidState);
      }
      var totalAdmins := CountOr(admins, 1);
      if proposal.newThreshold == 0 || proposal.newThreshold > totalAdmins {
        // the source drops the proposal here, but the error makes the host undo that
        return Err(InvalidInput);
      }
      var c := ConfigOf(Model());
      c := c.(threshold := proposal.newThreshold);
      c := c.(enabled := proposal.newThreshold > 1);
      c := c.(totalAdmins := totalAdmins);
      config := Some(c);
      pending := None;
      return Ok(());
    }

    method Cancel(actor: Address, legacyOk: bool) returns (outcome: Result<()>)
      requires Valid()
      modifies this`pending
      ensures Follows(outcome, old(Model()), Model(), CancelProposal(old(Model()), actor, legacyOk))
      ensures outcome.Ok? <==> Permitted(admins, actor, legacyOk) && old(pending).Some?
      ensures Valid()
      ensures outcome.Ok? ==> ConfigOf(Model()) == ConfigOf(old(Model()))
      ensures outcome.Ok? ==> forall t :: ConfirmThreshold(Model(), t).Err?
    {
      CancelIff(Model(), actor, legacyOk);
      NextKept(Model(), Timed(CancelPending(actor, legacyOk), 0));
      if !CanManage(admins, actor, legacyOk) {
        return Err(Unauthorized);
      }
      if pending.None? {
        return Err(InvalidState);
      }
      pending := None;
      return Ok(());
    }

    method Create(actor: Address, legacyOk: bool, kind: nat, target: Address, data: map<nat, nat>, now: nat)
      returns (outcome: Result<nat>)
      requires Valid()
      modifies this`actions, this`nextId
      ensures Follows(outcome, old(Model()), Model(),
                      CreateAction(old(Model()), actor, legacyOk, kind, target, data, now))
      ensures outcome.Ok? ==> outcome.value == old(nextId)
      ensures outcome.Ok? <==> Permitted(admins, actor, legacyOk)
      ensures Valid()
      ensures outcome.Ok? ==> outcome.value !in old(actions) && outcome.value in actions
      ensures outcome.Ok? ==> (ExecuteAction(Model(), outcome.value).Ok? <==> ConfigOf(Model()).threshold == 1)
      ensures outcome.Ok? ==> forall legacy, t :: ApproveAction(Model(), actor, legacy, outcome.value, t).Err?
      ensures forall id | id in old(actions) :: id in actions && actions[id] == old(actions)[id]
    {
      CreateIff(Model(), actor, legacyOk, kind, target, data, now);
      NextKept(Model(), Timed(Governance.Create(actor, legacyOk, kind, target, data), now));
      if !CanManage(admins, actor, legacyOk) {
        return Err(Unauthorized);
      }
      var id := nextId;
      nextId := nextId + 1;
      var approvals := [actor];
      actions := actions[id := Action(kind, target, data, actor, approvals, now, now + ACTION_LIFETIME, false)];
      return Ok(id);
    }

    /** Answers whether the threshold is now met. */
    method Approve(actor: Address, legacyOk: bool, id: nat, now: nat) returns (outcome: Result<bool>)
      requires Valid()
      modifies this`actions
      ensures Follows(outcome, old(Model()), Model(), ApproveAction(old(Model()), actor, legacyOk, id, now))
      ensures outcome.Ok? ==> id in actions && outcome.value == ExecuteAction(Model(), id).Ok?
      ensures outcome.Ok? <==>
                (&& Permitted(admins, actor, legacyOk) && id in old(actions) && !old(actions)[id].executed
                 && now <= old(actions)[id].expiresAt && actor !in old(actions)[id].approvals)
      ensures Valid()
    {
      ApproveIff(Model(), actor, legacyOk, id, now);
      NextKept(Model(), Timed(Governance.Approve(actor, legacyOk, id), now));
      if !CanManage(admins, actor, legacyOk) {
        return Err(Unauthorized);
      }
      if id !in actions {
        return Err(ConfigNotFound);
      }
      var action := actions[id];
      if action.executed {
        return Err(InvalidState);
      }
      if now > action.expiresAt {
        return Err(DisputeError);
      }
      if actor in action.approvals {
        return Err(InvalidState);
      }
      action := action.(approvals := action.approvals + [actor]);
      actions := actions[id := action];
      return Ok(|action.approvals| >= ConfigOf(Model()).threshold);
    }

    method Execute(id: nat) returns (outcome: Result<()>)
      requires Valid()
      modifies this`actions
      ensures Follows(outcome, old(Model()), Model(), ExecuteAction(old(Model()), id))
      ensures outcome.Ok? <==>
                (&& id in old(actions) && !old(actions)[id].executed
                 && |old(actions)[id].approvals| >= (if config.Some? then config.value.threshold else 1))
      ensures Valid()
      ensures outcome.Ok? ==> actions[id].executed && ExecuteAction(Model(), id).Err?
      ensures forall x | x in old(actions) && x != id :: x in actions && actions[x] == old(actions)[x]
    {
      NextKept(Model(), Timed(Governance.Execute(id), 0));
      if id !in actions {
        return Err(ConfigNotFound);
      }
      var action := actions[id];
      if action.executed {
        return Err(InvalidState);
      }
      if |action.approvals| < ConfigOf(Model()).threshold {
        return Err(Unauthorized);
      }
      action := action.(executed := true);
      actions := actions[id := action];
      return Ok(());
    }
  }
}
