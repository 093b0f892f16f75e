/** The multi-admin registry as stored: the original admin, the assignments, the list and the count are
    separate entries that the calls have to keep in step. */
module AdminManager {
  import opened Common
  import opened AdminRegistry

  class AdminManager {
    var original: Option<Address>
    var assignments: map<Address, Assignment>
    var list: seq<Address>
    var count: Option<nat>
    var migrated: bool

    constructor (original: Option<Address>)
      ensures Model() == Deployed(original) && Valid()
    {
      this.original, this.assignments, this.list, this.count, this.migrated := original, map[], [], None, false;
    }

    function Model(): Admins
      reads this
    {
      Admins(original, assignments, list, count, migrated)
    }

    /** List, count and assignments agree, and the original admin has no lesser assignment. */
    ghost predicate Valid()
      reads this
    {
      IndexOk(Model()) && OriginalOk(Model())
    }

    method AddAdmin(actor: Address, legacyOk: bool, a: Address, role: Role, now: nat) returns (outcome: Result<()>)
      requires Valid()
      modifies this
      ensures Follows(outcome, old(Model()), Model(),
                      AdminRegistry.AddAdmin(old(Model()), actor, legacyOk, a, role, now))
      ensures Valid()
      ensures var s := old(Model());
              outcome.Ok? <==> (&& Permitted(s, actor, legacyOk) && s.original != Some(a) && a !in s.assignments
                                && (s.count.Some? ==> s.count.value < U32_MAX))
      ensures outcome.Ok? ==> OnlyRoleOf(a, Some(role), old(Model()), Model())
    {
      var savedAssignments, savedList := assignments, list;
      AddIff(Model(), actor, legacyOk, a, role, now);
      if !CanManage(Model(), actor, legacyOk) {
        return Err(Unauthorized);
      }
      if IsAdmin(Model(), a) {
        return Err(InvalidState);
      }
      assignments := assignments[a := Assignment(role, actor, now, true)];
      if a !in list {
        list := list + [a];
      }
      var current := if count.Some? then count.value else 0;
      if current + 1 > U32_MAX {
        assignments, list := savedAssignments, savedList;
        return Err(Trap);
      }
      count := Some(current + 1);
      AddEffect(old(Model()), actor, legacyOk, a, role, now);
      return Ok(());
    }

    method RemoveAdmin(actor: Address, legacyOk: bool, a: Address) returns (outcome: Result<()>)
      requires Valid()
      modifies this
      ensures Follows(outcome, old(Model()), Model(), AdminRegistry.RemoveAdmin(old(Model()), actor, legacyOk, a))
      ensures outcome.Ok? <==> Permitted(old(Model()), actor, legacyOk) && actor != a && a in old(assignments)
      ensures Valid()
      ensures outcome.Ok? ==> a !in list
      ensures outcome.Ok? ==>
                OnlyRoleOf(a, if original == Some(a) then Some(SuperAdmin) else None, old(Model()), Model())
    {
      RemoveIff(Model(), actor, legacyOk, a);
      if !CanManage(Model(), actor, legacyOk) {
        return Err(Unauthorized);
      }
      if actor == a && CountSuperAdmins(Model()) <= 1 {
        return Err(InvalidState);
      }
      if a !in assignments {
        return Err(Unauthorized);
      }
      assignments := assignments - {a};
      TakeOffList(a);
      RemoveEffect(old(Model()), actor, legacyOk, a);
      return Ok(());
    }

    /** Cuts an address from the list and lowers the count. */
    method TakeOffList(a: Address)
      modifies this`list, this`count
      ensures list == RemoveFirst(old(list), a)
      ensures count == if CountOr(old(Model()), 0) > 0 then Some(CountOr(old(Model()), 0) - 1) else old(count)
    {
      var i := FirstIndexOf(a);
      if i < |list| {
        list := list[..i] + list[i + 1..];
      }
      var current := if count.Some? then count.value else 0;
      if current > 0 {
        count := Some(current - 1);
      }
    }

    /** Where the list names `a` first, or its length; cutting there is removing the first occurrence. */
    method FirstIndexOf(a: Address) returns (i: nat)
      ensures i <= |list| && a !in list[..i]
      ensures if i < |list| then list[i] == a && RemoveFirst(list, a) == list[..i] + list[i + 1..]
              else RemoveFirst(list, a) == list
    {
      i := 0;
      while i < |list| && list[i] != a
        invariant i <= |list| && a !in list[..i]
      {
        i := i + 1;
      }
      CutIsRemoveFirst(list, i, a);
    }

    method UpdateAdminRole(actor: Address, legacyOk: bool, a: Address, role: Role, now: nat)
      returns (outcome: Result<()>)
      requires Valid()
      modifies this`assignments
      ensures Follows(outcome, old(Model()), Model(), UpdateRole(old(Model()), actor, legacyOk, a, role, now))
      ensures outcome.Ok? <==>
                (&& Permitted(old(Model()), actor, legacyOk) && a in old(assignments)
                 && (old(assignments)[a].role == SuperAdmin ==> role == SuperAdmin))
      ensures Valid()
      ensures outcome.Ok? ==>
                var was := RoleFor(old(Model()), a);
                OnlyRoleOf(a, if original != Some(a) && was.Some? then Some(role) else was, old(Model()), Model())
    {
      UpdateIff(Model(), actor, legacyOk, a, role, now);
      if !CanManage(Model(), actor, legacyOk) {
        return Err(Unauthorized);
      }
      if a !in assignments {
        return Err(Unauthorized);
      }
      var assignment := assignments[a];
      if assignment.role == SuperAdmin && role != SuperAdmin && CountSuperAdmins(Model()) <= 1 {
        return Err(InvalidState);
      }
      assignment := assignment.(role := role);
      assignment := assignment.(assignedBy := actor);
      assignment := assignment.(assignedAt := now);
      assignments := assignments[a := assignment];
      UpdateEffect(old(Model()), actor, legacyOk, a, role, now);
      return Ok(());
    }

    method SetAdminActive(actor: Address, legacyOk: bool, a: Address, active: bool) returns (outcome: Result<()>)
      requires Valid()
      modifies this`assignments
      ensures Follows(outcome, old(Model()), Model(), SetActive(old(Model()), actor, legacyOk, a, active))
      ensures outcome.Ok? <==> Permitted(old(Model()), actor, legacyOk) && a in old(assignments)
      ensures Valid()
      ensures outcome.Ok? ==>
                var held := if active then Some(assignments[a].role) else None;
                OnlyRoleOf(a, if original == Some(a) then Some(SuperAdmin) else held, old(Model()), Model())
    {
      SetActiveIff(Model(), actor, legacyOk, a, active);
      StepKeeps(Model(), DoSetActive(actor, legacyOk, a, active), 0);
      if !CanManage(Model(), actor, legacyOk) {
        return Err(Unauthorized);
      }
      if a !in assignments {
        return Err(Unauthorized);
      }
      assignments := assignments[a := assignments[a].(active := active)];
      return Ok(());
    }

    method TransferAdmin(actor: Address, a: Address) returns (outcome: Result<()>)
      requires Valid()
      modifies this`original
      ensures Follows(outcome, old(Model()), Model(), AdminRegistry.TransferAdmin(old(Model()), actor, a))
      ensures outcome.Ok? <==> old(original) == Some(actor) && a != actor
      ensures Valid() <==> (outcome.Ok? && a in assignments ==> assignments[a].role == SuperAdmin)
      ensures outcome.Ok? ==> RoleFor(Model(), a) == Some(SuperAdmin)
      ensures forall x | x != actor && x != a :: RoleFor(Model(), x) == RoleFor(old(Model()), x)
    {
      if original.None? {
        return Err(AdminNotSet);
      }
      if original != Some(actor) {
        return Err(Unauthorized);
      }
      if a == actor {
        return Err(InvalidInput);
      }
      original := Some(a);
      return Ok(());
    }

    method MigrateToMultiAdmin(now: nat)
      requires Valid()
      modifies this
      ensures Model() == Migrate(old(Model()), now)
      ensures Valid() <==> (original.Some? ==> forall a | a in assignments :: original == Some(a))
      ensures forall x :: RoleFor(Model(), x) == RoleFor(old(Model()), x)
    {
      ghost var before := Model();
      if before.original.Some? {
        MigrateKeepsIndexIff(before, now);
      }
      if original.Some? {
        var o := original.value;
        assignments := assignments[o := Assignment(SuperAdmin, o, now, true)];
        list := [o];
        count := Some(1);
        migrated := true;
      }
    }

    method GetAdminRoles() returns (roles: map<Address, Role>)
      ensures roles == AdminRoles(Model())
      ensures Valid() ==> forall x :: (if x in roles then Some(roles[x]) else None) == RoleFor(Model(), x)
    {
      roles := map[];
      if original.Some? {
        roles := roles[original.value := SuperAdmin];
      }
      var i := 0;
      while i < |list|
        invariant 0 <= i <= |list|
        invariant roles == RolesFrom(Model(), list[..i])
      {
        assert list[..i + 1][..i] == list[..i];
        if list[i] in assignments && assignments[list[i]].active {
          roles := roles[list[i] := assignments[list[i]].role];
        }
        i := i + 1;
      }
      assert list[..i] == list;
      if IndexOk(Model()) {
        RolesAgreeIff(Model());
      }
    }
  }
}
