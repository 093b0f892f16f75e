/** The multi-admin registry: role assignments, the admin list that makes them enumerable, the admin
    count, and the original single admin that exists beside them. */
module AdminRegistry {
  import opened Common

  type Address = nat

  datatype Role = SuperAdmin | MarketAdmin | ConfigAdmin | FeeAdmin | ReadOnlyAdmin

  datatype Assignment = Assignment(role: Role, assignedBy: Address, assignedAt: nat, active: bool)

  /** `list` is empty when none is stored; `count` is None when none is stored. */
  datatype Admins = Admins(
    original: Option<Address>, assignments: map<Address, Assignment>, list: seq<Address>,
    count: Option<nat>, migrated: bool)

  /** Right after deployment with a single admin (or none). */
  function Deployed(original: Option<Address>): Admins {
    Admins(original, map[], [], None, false)
  }

  /** Who may manage admins. After migration this is the original admin or an active SuperAdmin, the only
      role whose permissions include the emergency permission; before, it is up to the single-admin role check. */
  predicate CanManage(s: Admins, a: Address, legacyOk: bool) {
    if s.migrated then
      s.original == Some(a) || (a in s.assignments && s.assignments[a].active && s.assignments[a].role == SuperAdmin)
    else legacyOk
  }

  predicate IsAdmin(s: Admins, a: Address) {
    s.original == Some(a) || a in s.assignments
  }

  /** The stored-pattern count of SuperAdmins: it only ever sees the original admin. */
  function CountSuperAdmins(s: Admins): nat {
    if s.original.Some? then 1 else 0
  }

  function CountOr(s: Admins, default: nat): nat {
    if s.count.Some? then s.count.value else default
  }

  function RemoveFirst(l: seq<Address>, a: Address): seq<Address> {
    if l == [] then [] else if l[0] == a then l[1..] else [l[0]] + RemoveFirst(l[1..], a)
  }

  // ----- the calls -----

  function Migrate(s: Admins, now: nat): Admins {
    if s.original.None? then s
    else
      var o := s.original.value;
      s.(assignments := s.assignments[o := Assignment(SuperAdmin, o, now, true)], list := [o], count := Some(1),
          migrated := true)
  }

  function AddAdmin(s: Admins, actor: Address, legacyOk: bool, a: Address, role: Role, now: nat): Result<Admins> {
    if !CanManage(s, actor, legacyOk) then Err(Unauthorized) else
    :- Need(!IsAdmin(s, a), InvalidState);
    :- Need(CountOr(s, 0) + 1 <= U32_MAX, Trap);
    Ok(s.(assignments := s.assignments[a := Assignment(role, actor, now, true)],
          list := if a in s.list then s.list else s.list + [a],
          count := Some(CountOr(s, 0) + 1)))
  }

  function RemoveAdmin(s: Admins, actor: Address, legacyOk: bool, a: Address): Result<Admins> {
    RemoveAdminCounting(s, actor, legacyOk, a, CountSuperAdmins(s))
  }

  /** Removal, if there were `superAdmins` SuperAdmins. */
  function RemoveAdminCounting(s: Admins, actor: Address, legacyOk: bool, a: Address, superAdmins: nat)
    : Result<Admins>
  {
    if !CanManage(s, actor, legacyOk) then Err(Unauthorized) else
    :- Need(actor == a ==> superAdmins > 1, InvalidState);
    :- Need(a in s.assignments, Unauthorized);
    Ok(s.(assignments := s.assignments - {a}, list := RemoveFirst(s.list, a),
          count := if CountOr(s, 0) > 0 then Some(CountOr(s, 0) - 1) else s.count))
  }

  function UpdateRole(s: Admins, actor: Address, legacyOk: bool, a: Address, role: Role, now: nat): Result<Admins> {
    UpdateRoleCounting(s, actor, legacyOk, a, role, now, CountSuperAdmins(s))
  }

  /** Role change, if there were `superAdmins` SuperAdmins. */
  function UpdateRoleCounting(s: Admins, actor: Address, legacyOk: bool, a: Address, role: Role, now: nat,
                              superAdmins: nat)
    : Result<Admins>
  {
    if !CanManage(s, actor, legacyOk) then Err(Unauthorized) else
    :- Need(a in s.assignments, Unauthorized);
    var before := s.assignments[a];
    :- Need(before.role == SuperAdmin && role != SuperAdmin ==> superAdmins > 1, InvalidState);
    Ok(s.(assignments := s.assignments[a := before.(role := role, assignedBy := actor, assignedAt := now)]))
  }

  function SetActive(s: Admins, actor: Address, legacyOk: bool, a: Address, active: bool): Result<Admins> {
    if !CanManage(s, actor, legacyOk) then Err(Unauthorized) else
    :- Need(a in s.assignments, Unauthorized);
    Ok(s.(assignments := s.assignments[a := s.assignments[a].(active := active)]))
  }

  function TransferAdmin(s: Admins, actor: Address, a: Address): Result<Admins> {
    if s.original.None? then Err(AdminNotSet) else
    :- Need(s.original == Some(actor), Unauthorized);
    :- Need(a != actor, InvalidInput);
    Ok(s.(original := Some(a)))
  }

  /** Role of one address. */
  function RoleFor(s: Admins, a: Address): Option<Role> {
    if s.original == Some(a) then Some(SuperAdmin)
    else if a in s.assignments && s.assignments[a].active then Some(s.assignments[a].role)
    else None
  }

  /** From one state to another only the role of `a` changes, to `role`. */
  ghost predicate OnlyRoleOf(a: Address, role: Option<Role>, before: Admins, after: Admins) {
    forall x :: RoleFor(after, x) == if x == a then role else RoleFor(before, x)
  }

  /** All roles, by walking the list; a listed active assignment overrides the original admin's entry. */
  function RolesFrom(s: Admins, l: seq<Address>): map<Address, Role> {
    if l == [] then (if s.original.Some? then map[s.original.value := SuperAdmin] else map[])
    else
      var roles := RolesFrom(s, l[..|l| - 1]);
      var a := l[|l| - 1];
      if a in s.assignments && s.assignments[a].active then roles[a := s.assignments[a].role] else roles
  }

  function AdminRoles(s: Admins): map<Address, Role> {
    RolesFrom(s, s.list)
  }

  // ----- index agreement -----

  /** The list names every assignment once and the count is its length. */
  ghost predicate IndexOk(s: Admins) {
    && NoDup(s.list)
    && (forall a :: a in s.list <==> a in s.assignments)
    && CountOr(s, 0) == |s.list|
  }

  /** If the original admin also has an assignment, it is a SuperAdmin one. */
  predicate OriginalOk(s: Admins) {
    s.original.Some? && s.original.value in s.assignments ==> s.assignments[s.original.value].role == SuperAdmin
  }

  ghost predicate RolesAgree(s: Admins) {
    forall a :: (if a in AdminRoles(s) then Some(AdminRoles(s)[a]) else None) == RoleFor(s, a)
  }

  lemma {:induction false} RolesPointwise(s: Admins, l: seq<Address>, a: Address)
    ensures a in RolesFrom(s, l) <==>
              (s.original == Some(a) || (a in l && a in s.assignments && s.assignments[a].active))
    ensures a in RolesFrom(s, l) ==>
              RolesFrom(s, l)[a] ==
              if a in l && a in s.assignments && s.assignments[a].active then s.assignments[a].role else SuperAdmin
  {
    if l == [] {
    } else {
      RolesPointwise(s, l[..|l| - 1], a);
      assert l == l[..|l| - 1] + [l[|l| - 1]];
    }
  }

  /** The enumeration and the single lookup tell the same story for every address exactly when no
      active non-SuperAdmin assignment belongs to the original admin. */
  lemma RolesAgreeIff(s: Admins)
    requires IndexOk(s)
    ensures RolesAgree(s) <==>
              !(s.original.Some? && s.original.value in s.assignments
                && s.assignments[s.original.value].active && s.assignments[s.original.value].role != SuperAdmin)
  {
    forall a
      ensures a in AdminRoles(s) <==> (s.original == Some(a) || (a in s.assignments && s.assignments[a].active))
    {
      RolesPointwise(s, s.list, a);
    }
    forall a | a in AdminRoles(s)
      ensures AdminRoles(s)[a] ==
              if a in s.assignments && s.assignments[a].active then s.assignments[a].role else SuperAdmin
    {
      RolesPointwise(s, s.list, a);
    }
    if s.original.Some? {
      assert RoleFor(s, s.original.value) == Some(SuperAdmin);
    }
  }

  lemma {:induction false} RemoveFirstEffect(l: seq<Address>, a: Address)
    requires NoDup(l)
    ensures NoDup(RemoveFirst(l, a))
    ensures forall x :: x in RemoveFirst(l, a) <==> x in l && x != a
    ensures |RemoveFirst(l, a)| == if a in l then |l| - 1 else |l|
  {
    if l == [] {
    } else {
      assert l == [l[0]] + l[1..];
      RemoveFirstEffect(l[1..], a);
      assert l[0] !in l[1..];
      assert l[0] !in RemoveFirst(l[1..], a);
    }
  }

  lemma CutTail(l: seq<Address>, i: nat)
    requires 0 < i <= |l|
    ensures l[..i] == [l[0]] + l[1..][..i - 1] && l == [l[0]] + l[1..]
    ensures i < |l| ==> l[1..][i - 1] == l[i] && l[i + 1..] == l[1..][i..]
  {
  }

  /** Cutting a list at the first place where it names `a` removes that occurrence. */
  lemma {:induction false} CutIsRemoveFirst(l: seq<Address>, i: nat, a: Address)
    requires i <= |l| && a !in l[..i] && (i < |l| ==> l[i] == a)
    ensures RemoveFirst(l, a) == if i < |l| then l[..i] + l[i + 1..] else l
  {
    if l == [] {
    } else if i == 0 {
      assert l[..0] + l[1..] == l[1..];
    } else {
      CutTail(l, i);
      CutIsRemoveFirst(l[1..], i - 1, a);
      assert l[..i][0] == l[0];
    }
  }

  datatype Step =
    | DoMigrate
    | DoEnsureMigration
    | DoAdd(actor: Address, legacyOk: bool, a: Address, role: Role)
    | DoRemove(actor: Address, legacyOk: bool, a: Address)
    | DoUpdateRole(actor: Address, legacyOk: bool, a: Address, role: Role)
    | DoSetActive(actor: Address, legacyOk: bool, a: Address, active: bool)
    | DoTransfer(actor: Address, a: Address)

  function Perform(s: Admins, step: Step, now: nat): Result<Admins> {
    match step
    case DoMigrate => Ok(Migrate(s, now))
    case DoEnsureMigration => Ok(if s.migrated then s else Migrate(s, now))
    case DoAdd(actor, legacy, a, role) => AddAdmin(s, actor, legacy, a, role, now)
    case DoRemove(actor, legacy, a) => RemoveAdmin(s, actor, legacy, a)
    case DoUpdateRole(actor, legacy, a, role) => UpdateRole(s, actor, legacy, a, role, now)
    case DoSetActive(actor, legacy, a, active) => SetActive(s, actor, legacy, a, active)
    case DoTransfer(actor, a) => TransferAdmin(s, actor, a)
  }

  function After(s: Admins, step: Step, now: nat): Admins {
    var r := Perform(s, step, now);
    if r.Ok? then r.value else s
  }

  /** Migration resets list and count, so it keeps the index exactly when nobody else is assigned yet. */
  lemma MigrateKeepsIndexIff(s: Admins, now: nat)
    requires IndexOk(s) && s.original.Some?
    ensures IndexOk(Migrate(s, now)) <==> forall a | a in s.assignments :: s.original == Some(a)
  {
    var t := Migrate(s, now);
    if a :| a in s.assignments && s.original != Some(a) {
      assert a in t.assignments && a !in t.list;
    }
  }

  /** A transfer keeps enumeration and lookup in step, now and after any later activation, exactly when
      the new admin is unlisted or listed as SuperAdmin. */
  lemma TransferKeepsOriginalIff(s: Admins, actor: Address, a: Address)
    requires OriginalOk(s) && TransferAdmin(s, actor, a).Ok?
    ensures OriginalOk(TransferAdmin(s, actor, a).value) <==>
              (a in s.assignments ==> s.assignments[a].role == SuperAdmin)
  {
  }

  /** The steps that can break agreement, each held to exactly the condition under which it does not. */
  ghost predicate Sound(s: Admins, step: Step) {
    match step
    case DoMigrate => s.original.Some? ==> forall a | a in s.assignments :: s.original == Some(a)
    case DoEnsureMigration =>
      s.migrated || (s.original.Some? ==> forall a | a in s.assignments :: s.original == Some(a))
    case DoTransfer(actor, a) => a in s.assignments ==> s.assignments[a].role == SuperAdmin
    case _ => true
  }

  lemma StepKeeps(s: Admins, step: Step, now: nat)
    requires IndexOk(s) && OriginalOk(s) && Sound(s, step)
    ensures IndexOk(After(s, step, now)) && OriginalOk(After(s, step, now))
    ensures s.original.Some? ==> After(s, step, now).original.Some?
    ensures s.migrated ==> After(s, step, now).migrated
  {
    if step.DoRemove? {
      RemoveFirstEffect(s.list, step.a);
    }
  }

  /** Who may manage admins, in terms of the roles themselves: after migration, whoever has the SuperAdmin role. */
  predicate Permitted(s: Admins, actor: Address, legacyOk: bool) {
    if s.migrated then RoleFor(s, actor) == Some(SuperAdmin) else legacyOk
  }

  lemma PermittedIff(s: Admins, actor: Address, legacyOk: bool)
    ensures CanManage(s, actor, legacyOk) <==> Permitted(s, actor, legacyOk)
  {
  }

  /** When the calls on admins succeed, on roles, assignments and count. */
  lemma AddIff(s: Admins, actor: Address, legacyOk: bool, a: Address, role: Role, now: nat)
    ensures AddAdmin(s, actor, legacyOk, a, role, now).Ok? <==>
              (&& Permitted(s, actor, legacyOk) && s.original != Some(a) && a !in s.assignments
               && (s.count.Some? ==> s.count.value < U32_MAX))
    ensures Permitted(s, actor, legacyOk) ==> AddAdmin(s, actor, legacyOk, a, role, now) != Err(Unauthorized)
  {
    PermittedIff(s, actor, legacyOk);
  }

  lemma RemoveIff(s: Admins, actor: Address, legacyOk: bool, a: Address)
    ensures RemoveAdmin(s, actor, legacyOk, a).Ok? <==>
              Permitted(s, actor, legacyOk) && actor != a && a in s.assignments
    ensures Permitted(s, actor, legacyOk) && a in s.assignments ==>
              RemoveAdmin(s, actor, legacyOk, a) != Err(Unauthorized)
  {
    PermittedIff(s, actor, legacyOk);
  }

  lemma UpdateIff(s: Admins, actor: Address, legacyOk: bool, a: Address, role: Role, now: nat)
    ensures UpdateRole(s, actor, legacyOk, a, role, now).Ok? <==>
              (&& Permitted(s, actor, legacyOk) && a in s.assignments
               && (s.assignments[a].role == SuperAdmin ==> role == SuperAdmin))
    ensures Permitted(s, actor, legacyOk) && a in s.assignments ==>
              UpdateRole(s, actor, legacyOk, a, role, now) != Err(Unauthorized)
  {
    PermittedIff(s, actor, legacyOk);
  }

  lemma SetActiveIff(s: Admins, actor: Address, legacyOk: bool, a: Address, active: bool)
    ensures SetActive(s, actor, legacyOk, a, active).Ok? <==> Permitted(s, actor, legacyOk) && a in s.assignments
  {
    PermittedIff(s, actor, legacyOk);
  }

  lemma TransferIff(s: Admins, actor: Address, a: Address)
    ensures TransferAdmin(s, actor, a).Ok? <==> s.original == Some(actor) && a != actor
    ensures TransferAdmin(s, actor, a).Ok? ==> TransferAdmin(s, actor, a).value == s.(original := Some(a))
  {
  }

  /** What a successful call records about the admin it is about; no other assignment changes. */
  lemma AssignmentEffects(s: Admins, actor: Address, legacyOk: bool, a: Address, role: Role, active: bool, now: nat)
    ensures var r := AddAdmin(s, actor, legacyOk, a, role, now);
            r.Ok? ==> r.value.assignments == s.assignments[a := Assignment(role, actor, now, true)]
    ensures var r := UpdateRole(s, actor, legacyOk, a, role, now);
            r.Ok? ==> a in s.assignments
                      && var held := Assignment(role, actor, now, s.assignments[a].active);
                         r.value.assignments == s.assignments[a := held]
    ensures var r := SetActive(s, actor, legacyOk, a, active);
            r.Ok? ==> a in s.assignments
                      && r.value.assignments == s.assignments[a := s.assignments[a].(active := active)]
    ensures var r := RemoveAdmin(s, actor, legacyOk, a);
            r.Ok? ==> r.value.assignments == s.assignments - {a}
  {
  }

  /** From deployment: an active fee admin cannot add anybody. */
  lemma FeeAdminWitness()
    ensures var migrated := After(Deployed(Some(1)), DoMigrate, 0);
            var s := After(migrated, DoAdd(1, false, 2, FeeAdmin), 0);
            && RoleFor(s, 2) == Some(FeeAdmin)
            && AddAdmin(s, 2, true, 3, SuperAdmin, 1) == Err(Unauthorized)
            && AddAdmin(s, 1, false, 3, SuperAdmin, 1).Ok?
  {
    var migrated := After(Deployed(Some(1)), DoMigrate, 0);
    var s := After(migrated, DoAdd(1, false, 2, FeeAdmin), 0);
    AddIff(s, 1, false, 3, SuperAdmin, 1);
    AddIff(s, 2, true, 3, SuperAdmin, 1);
  }

  /** A new admin has the given role, and nobody else's role changes. */
  lemma AddEffect(s: Admins, actor: Address, legacyOk: bool, a: Address, role: Role, now: nat)
    requires IndexOk(s) && OriginalOk(s) && AddAdmin(s, actor, legacyOk, a, role, now).Ok?
    ensures var t := AddAdmin(s, actor, legacyOk, a, role, now).value;
            IndexOk(t) && OriginalOk(t) && OnlyRoleOf(a, Some(role), s, t)
  {
  }

  /** A removed admin is off the list and has no role left, unless it is the original admin. */
  lemma RemoveEffect(s: Admins, actor: Address, legacyOk: bool, a: Address)
    requires IndexOk(s) && OriginalOk(s) && RemoveAdmin(s, actor, legacyOk, a).Ok?
    ensures var t := RemoveAdmin(s, actor, legacyOk, a).value;
            && IndexOk(t) && OriginalOk(t) && a !in t.list
            && OnlyRoleOf(a, if s.original == Some(a) then Some(SuperAdmin) else None, s, t)
  {
    RemoveFirstEffect(s.list, a);
  }

  /** An updated admin has the new role if active and not the original admin. */
  lemma UpdateEffect(s: Admins, actor: Address, legacyOk: bool, a: Address, role: Role, now: nat)
    requires IndexOk(s) && OriginalOk(s) && UpdateRole(s, actor, legacyOk, a, role, now).Ok?
    ensures var t := UpdateRole(s, actor, legacyOk, a, role, now).value;
            var was := RoleFor(s, a);
            && IndexOk(t) && OriginalOk(t)
            && OnlyRoleOf(a, if s.original != Some(a) && was.Some? then Some(role) else was, s, t)
  {
  }

  /** A run from `s`: the states before and after each of the timed steps. */
  ghost predicate Run(s: Admins, steps: seq<(Step, nat)>, ss: seq<Admins>) {
    && |ss| == |steps| + 1 && ss[0] == s
    && forall i | 0 <= i < |steps| :: ss[i + 1] == After(ss[i], steps[i].0, steps[i].1)
  }

  /** What a migration writes: the original admin as a SuperAdmin of its own making, alone on the list. */
  lemma MigrateEffect(s: Admins, now: nat)
    ensures s.original.None? ==> Migrate(s, now) == s
    ensures s.original.Some? ==>
              var o, t := s.original.value, Migrate(s, now);
              && t.migrated && t.original == s.original && t.list == [o] && t.count == Some(1)
              && t.assignments == s.assignments[o := Assignment(SuperAdmin, o, now, true)]
  {
  }

  /** From deployment: an admin added before the migration is assigned but no longer listed after it. */
  lemma MigrateWitness()
    ensures var added := After(Deployed(Some(1)), DoAdd(1, true, 2, FeeAdmin), 0);
            && IndexOk(added) && 2 in added.assignments
            && !IndexOk(After(added, DoMigrate, 1))
  {
    var added := After(Deployed(Some(1)), DoAdd(1, true, 2, FeeAdmin), 0);
    StepKeeps(Deployed(Some(1)), DoAdd(1, true, 2, FeeAdmin), 0);
    MigrateKeepsIndexIff(added, 1);
    assert 2 in added.assignments && added.original != Some(2);
  }

  /** A transfer to an active lesser admin makes enumeration and lookup disagree about the new original admin. */
  lemma TransferBreaksAgreement(s: Admins, actor: Address, a: Address)
    requires IndexOk(s) && TransferAdmin(s, actor, a).Ok?
    requires a in s.assignments && s.assignments[a].active && s.assignments[a].role != SuperAdmin
    ensures var t := TransferAdmin(s, actor, a).value; IndexOk(t) && !RolesAgree(t) && RoleFor(t, a) == Some(SuperAdmin)
  {
    RolesAgreeIff(TransferAdmin(s, actor, a).value);
  }

  /** From deployment: after a transfer to a listed fee admin, the enumeration calls the new original admin a
      fee admin and the lookup a super admin. */
  lemma TransferWitness()
    ensures var migrated := After(Deployed(Some(1)), DoMigrate, 0);
            var added := After(migrated, DoAdd(1, false, 2, FeeAdmin), 0);
            var moved := After(added, DoTransfer(1, 2), 1);
            && RolesAgree(added) && IndexOk(moved) && !RolesAgree(moved)
            && RoleFor(moved, 2) == Some(SuperAdmin)
  {
    var migrated := After(Deployed(Some(1)), DoMigrate, 0);
    var added := After(migrated, DoAdd(1, false, 2, FeeAdmin), 0);
    StepKeeps(Deployed(Some(1)), DoMigrate, 0);
    StepKeeps(migrated, DoAdd(1, false, 2, FeeAdmin), 0);
    RolesAgreeIff(added);
    TransferBreaksAgreement(added, 1, 2);
  }

  /** Over every run from deployment in which migrations meet no foreign assignment and transfers no
      lesser admin, list, count and assignments agree, enumeration and lookup agree for every address,
      and once migrated the original admin always has the role that manages the others. */
  lemma {:induction false} RunAgrees(original: Option<Address>, steps: seq<(Step, nat)>, ss: seq<Admins>, n: nat)
    requires Run(Deployed(original), steps, ss) && n <= |steps|
    requires forall i | 0 <= i < n :: Sound(ss[i], steps[i].0)
    ensures IndexOk(ss[n]) && OriginalOk(ss[n]) && RolesAgree(ss[n])
    ensures original.Some? ==> ss[n].original.Some?
    ensures ss[n].migrated && original.Some? ==> RoleFor(ss[n], ss[n].original.value) == Some(SuperAdmin)
  {
    if n > 0 {
      RunAgrees(original, steps, ss, n - 1);
      StepKeeps(ss[n - 1], steps[n - 1].0, steps[n - 1].1);
    }
    RolesAgreeIff(ss[n]);
  }

  /** The addresses that are SuperAdmins, which the guards are documented to count. */
  function SuperAdmins(s: Admins): (r: set<Address>)
    ensures forall a :: a in r <==> RoleFor(s, a) == Some(SuperAdmin)
  {
    (set a | a in s.assignments && RoleFor(s, a) == Some(SuperAdmin))
    + (if s.original.Some? then {s.original.value} else {})
  }

  /** The guard against downgrading the last SuperAdmin gives the documented answer, the one it would give on
      the true count, except exactly when a permitted downgrade would leave other SuperAdmins: then it is refused. */
  lemma DowngradeGuardIff(s: Admins, actor: Address, legacyOk: bool, a: Address, role: Role, now: nat)
    ensures UpdateRole(s, actor, legacyOk, a, role, now)
            == UpdateRoleCounting(s, actor, legacyOk, a, role, now, |SuperAdmins(s)|)
            <==> !(&& CanManage(s, actor, legacyOk) && a in s.assignments
                   && s.assignments[a].role == SuperAdmin && role != SuperAdmin && |SuperAdmins(s)| > 1)
    ensures a in s.assignments && s.assignments[a].role == SuperAdmin && role != SuperAdmin ==>
              UpdateRole(s, actor, legacyOk, a, role, now).Err?
  {
  }

  /** The guard against the last SuperAdmin's self-removal does so except exactly when a permitted admin who is
      not the only SuperAdmin removes itself: that is refused too. */
  lemma SelfRemovalGuardIff(s: Admins, actor: Address, legacyOk: bool, a: Address)
    ensures RemoveAdmin(s, actor, legacyOk, a) == RemoveAdminCounting(s, actor, legacyOk, a, |SuperAdmins(s)|)
            <==> !(CanManage(s, actor, legacyOk) && actor == a && |SuperAdmins(s)| > 1)
    ensures RemoveAdmin(s, a, legacyOk, a).Err?
  {
  }

  /** From deployment: with two SuperAdmins neither can the second be downgraded nor remove itself. */
  lemma StepDownWitness()
    ensures var migrated := After(Deployed(Some(1)), DoMigrate, 0);
            var s := After(migrated, DoAdd(1, false, 2, SuperAdmin), 0);
            && |SuperAdmins(s)| == 2
            && UpdateRole(s, 1, false, 2, FeeAdmin, 1).Err?
            && UpdateRoleCounting(s, 1, false, 2, FeeAdmin, 1, |SuperAdmins(s)|).Ok?
            && RemoveAdmin(s, 2, false, 2).Err?
            && RemoveAdminCounting(s, 2, false, 2, |SuperAdmins(s)|).Ok?
  {
    var migrated := After(Deployed(Some(1)), DoMigrate, 0);
    var s := After(migrated, DoAdd(1, false, 2, SuperAdmin), 0);
    assert SuperAdmins(s) == {1, 2};
  }
}
