/**
  What each group request means, read off the rows before and after it: exactly when it is refused with
  which error, and exactly what it writes.
*/
module GroupsEffects {
  import opened Prelude
  import opened GroupsModel
  import opened GroupsSafety

  predicate Has(s: Groups, group: Uuid, user: Uuid, role: Role) {
    group in s.rosters && user in s.rosters[group] && s.rosters[group][user] == role
  }

  predicate IsMember(s: Groups, group: Uuid, user: Uuid) { group in s.rosters && user in s.rosters[group] }

  predicate Leads(s: Groups, group: Uuid, user: Uuid) { Has(s, group, user, Owner) || Has(s, group, user, Admin) }

  predicate Uses(s: Groups, group: Uuid, code: string) { group in s.groups && s.groups[group].code == code }

  ghost predicate Used(s: Groups, code: string) { exists g :: Uses(s, g, code) }

  predicate Waits(s: Groups, id: Uuid, group: Uuid, user: Uuid) {
    id in s.requests && s.requests[id].group == group && s.requests[id].user == user && s.requests[id].status == Pending
  }

  // ---------------------------------------------------------------- refusals

  predicate SetsOwnerFields(patch: GroupPatch) { patch.discoverable != Keep || patch.joinMode != Keep }

  predicate UpdateRefused(s: Groups, actor: Uuid, group: Uuid, patch: GroupPatch, e: Error) {
    match e
    case OwnerRequired => SetsOwnerFields(patch) && !Has(s, group, actor, Owner)
    case AdminOrOwnerRequired => !SetsOwnerFields(patch) && !Leads(s, group, actor)
    case NotNullViolation =>
      && Leads(s, group, actor) && (SetsOwnerFields(patch) ==> Has(s, group, actor, Owner))
      && (patch.name == To(None) || patch.discoverable == To(None) || patch.joinMode == To(None))
    case _ => false
  }

  predicate JoinRefused(s: Groups, actor: Uuid, group: Uuid, e: Error)
    requires group in s.groups
  {
    match e
    case MemberAlreadyExists => IsMember(s, group, actor)
    case JoinRequestRequired => !IsMember(s, group, actor) && s.groups[group].joinMode == Approval
    case _ => false
  }

  predicate RemovalRefused(s: Groups, actor: Uuid, group: Uuid, target: Uuid, e: Error) {
    match e
    case AdminOrOwnerRequired => actor != target && !Leads(s, group, actor)
    case MemberNotFound => (actor == target || Leads(s, group, actor)) && !IsMember(s, group, target)
    case OwnerCannotLeave => actor == target && Has(s, group, target, Owner)
    case OwnerCannotBeRemoved => actor != target && Leads(s, group, actor) && Has(s, group, target, Owner)
    case OwnerRequired => actor != target && Has(s, group, actor, Admin) && Has(s, group, target, Admin)
    case _ => false
  }

  predicate RoleChangeRefused(s: Groups, actor: Uuid, group: Uuid, target: Uuid, role: Role, e: Error) {
    match e
    case OwnerRequired => !Has(s, group, actor, Owner)
    case MemberNotFound => Has(s, group, actor, Owner) && !IsMember(s, group, target)
    case InvalidRoleChange =>
      && Has(s, group, actor, Owner) && IsMember(s, group, target)
      && (Has(s, group, target, Owner) || role == Owner)
    case _ => false
  }

  predicate TransferRefused(s: Groups, actor: Uuid, group: Uuid, target: Uuid, e: Error) {
    match e
    case OwnerRequired => !Has(s, group, actor, Owner)
    case TransferInvalidTarget => Has(s, group, actor, Owner) && actor == target
    case MemberNotFound => Has(s, group, actor, Owner) && actor != target && !IsMember(s, group, target)
    case _ => false
  }

  ghost predicate AskRefused(s: Groups, actor: Uuid, group: Uuid, e: Error)
    requires group in s.groups
  {
    match e
    case JoinRequestNotRequired => s.groups[group].joinMode == Open
    case MemberAlreadyExists => s.groups[group].joinMode == Approval && IsMember(s, group, actor)
    case JoinRequestPending =>
      && s.groups[group].joinMode == Approval && !IsMember(s, group, actor)
      && exists id :: Waits(s, id, group, actor)
    case _ => false
  }

  predicate ResolutionRefused(s: Groups, actor: Uuid, id: Uuid, approve: bool, e: Error) {
    if id !in s.requests then e == JoinRequestNotFound
    else
      var r := s.requests[id];
      match e
      case AdminOrOwnerRequired => !Leads(s, r.group, actor)
      case JoinRequestResolved => Leads(s, r.group, actor) && r.status != Pending
      case MemberAlreadyExists =>
        Leads(s, r.group, actor) && r.status == Pending && approve && IsMember(s, r.group, r.user)
      case _ => false
  }

  /** The request is refused with this error, and why. */
  ghost predicate Refused(s: Groups, r: Request, e: Error) {
    match r
    case CreateGroup(_, _, _, _, _, candidates) =>
      e == InviteCodeGenerationFailed && forall i :: 0 <= i < |candidates| ==> Used(s, candidates[i])
    case UpdateGroup(a, g, patch) => UpdateRefused(s, a, g, patch, e)
    case DeleteGroup(a, g) => e == OwnerRequired && !Has(s, g, a, Owner)
    case JoinByCode(a, code) =>
      if Used(s, code) then exists g :: Uses(s, g, code) && JoinRefused(s, a, g, e) else e == InviteCodeInvalid
    case RemoveMember(a, g, t) => RemovalRefused(s, a, g, t, e)
    case ChangeRole(a, g, t, role) => RoleChangeRefused(s, a, g, t, role, e)
    case TransferOwnership(a, g, t) => TransferRefused(s, a, g, t, e)
    case AskToJoin(a, g) =>
      if g in s.groups && s.groups[g].discoverable then AskRefused(s, a, g, e) else e == GroupNotFound
    case AskToJoinByCode(a, code) =>
      if Used(s, code) then exists g :: Uses(s, g, code) && AskRefused(s, a, g, e) else e == InviteCodeInvalid
    case Resolve(a, id, approve) => ResolutionRefused(s, a, id, approve, e)
  }

  lemma RoleIs(s: Groups, group: Uuid, user: Uuid)
    ensures IsOwner(s, group, user) <==> Has(s, group, user, Owner)
    ensures IsManager(s, group, user) <==> Leads(s, group, user)
    ensures RoleOf(s, group, user).Some? <==> IsMember(s, group, user)
    ensures RoleOf(s, group, user).Some? ==> Has(s, group, user, RoleOf(s, group, user).value)
  {
  }

  lemma CodeIs(s: Groups, code: string)
    requires UniqueCodes(s)
    ensures ByCode(s, code).Some? <==> Used(s, code)
    ensures forall g: Uuid :: Uses(s, g, code) ==> ByCode(s, code) == Some(g)
    ensures CodeInUse(s, code) <==> Used(s, code)
  {
    forall g: Uuid | Uses(s, g, code) ensures ByCode(s, code) == Some(g) {
      assert HasCode(s, g, code);
    }
    if Used(s, code) {
      var g :| Uses(s, g, code);
      assert HasCode(s, g, code);
      assert g in s.groups && s.groups[g].code == code;
    }
    if ByCode(s, code).Some? {
      assert Uses(s, ByCode(s, code).value, code);
    }
    if CodeInUse(s, code) {
      var g :| g in s.groups && s.groups[g].code == code;
      assert Uses(s, g, code);
    }
  }

  lemma CreateRefusedIff(s: Groups, now: int, r: Request, e: Error)
    requires Inv(s) && r.CreateGroup?
    ensures Step(s, now, r) == Err(e) <==> Refused(s, r, e)
  {
    FirstFreeIsFree(s, r.candidates);
    forall i | 0 <= i < |r.candidates| ensures CodeInUse(s, r.candidates[i]) <==> Used(s, r.candidates[i]) {
      CodeIs(s, r.candidates[i]);
    }
    if FirstFree(s, r.candidates).Some? {
      var i :| 0 <= i < |r.candidates| && r.candidates[i] == FirstFree(s, r.candidates).value;
      assert !Used(s, r.candidates[i]);
    }
  }

  lemma UpdateRefusedIff(s: Groups, actor: Uuid, group: Uuid, patch: GroupPatch, e: Error)
    requires s.rosters.Keys == s.groups.Keys
    ensures Updated(s, actor, group, patch) == Err(e) <==> UpdateRefused(s, actor, group, patch, e)
  {
    RoleIs(s, group, actor);
    assert SetsOwnerFields(patch) <==> patch.discoverable.To? || patch.joinMode.To?;
  }

  lemma DeleteRefusedIff(s: Groups, actor: Uuid, group: Uuid, e: Error)
    requires s.rosters.Keys == s.groups.Keys
    ensures Deleted(s, actor, group) == Err(e) <==> e == OwnerRequired && !Has(s, group, actor, Owner)
  {
    RoleIs(s, group, actor);
  }

  lemma JoinRefusedIff(s: Groups, now: int, r: Request, e: Error)
    requires Inv(s) && r.JoinByCode?
    ensures Step(s, now, r) == Err(e) <==> Refused(s, r, e)
  {
    CodeIs(s, r.code);
    if ByCode(s, r.code).Some? {
      assert Uses(s, ByCode(s, r.code).value, r.code);
      RoleIs(s, ByCode(s, r.code).value, r.actor);
    }
  }

  lemma RemovalRefusedIff(s: Groups, actor: Uuid, group: Uuid, target: Uuid, e: Error)
    ensures Removed(s, actor, group, target) == Err(e) <==> RemovalRefused(s, actor, group, target, e)
  {
    RoleIs(s, group, actor);
    RoleIs(s, group, target);
  }

  lemma RoleChangeRefusedIff(s: Groups, actor: Uuid, group: Uuid, target: Uuid, role: Role, e: Error)
    ensures RoleChanged(s, actor, group, target, role) == Err(e) <==>
            RoleChangeRefused(s, actor, group, target, role, e)
  {
    RoleIs(s, group, actor);
    RoleIs(s, group, target);
  }

  lemma TransferRefusedIff(s: Groups, actor: Uuid, group: Uuid, target: Uuid, e: Error)
    requires Inv(s)
    ensures Transferred(s, actor, group, target) == Err(e) <==> TransferRefused(s, actor, group, target, e)
  {
    RoleIs(s, group, actor);
    RoleIs(s, group, target);
    if Has(s, group, actor, Owner) && Has(s, group, target, Owner) {
      assert OneOwner(s.rosters[group]);
    }
  }

  lemma AskedForRefusedIff(s: Groups, actor: Uuid, group: Uuid, e: Error)
    requires group in s.groups
    ensures AskedFor(s, actor, group) == Err(e) <==> AskRefused(s, actor, group, e)
  {
    RoleIs(s, group, actor);
    forall id ensures IsPending(s, id, group, actor) <==> Waits(s, id, group, actor) {}
    if HasPending(s, group, actor) {
      var id :| id in s.requests && IsPending(s, id, group, actor);
      assert Waits(s, id, group, actor);
    }
  }

  lemma AskRefusedIff(s: Groups, now: int, r: Request, e: Error)
    requires Inv(s) && (r.AskToJoin? || r.AskToJoinByCode?)
    ensures Step(s, now, r) == Err(e) <==> Refused(s, r, e)
  {
    if r.AskToJoin? {
      if r.group in s.groups {
        AskedForRefusedIff(s, r.actor, r.group, e);
      }
    } else {
      CodeIs(s, r.code);
      if ByCode(s, r.code).Some? {
        assert Uses(s, ByCode(s, r.code).value, r.code);
        AskedForRefusedIff(s, r.actor, ByCode(s, r.code).value, e);
      }
    }
  }

  lemma ResolutionRefusedIff(s: Groups, now: int, actor: Uuid, id: Uuid, approve: bool, e: Error)
    ensures Resolved(s, now, actor, id, approve) == Err(e) <==> ResolutionRefused(s, actor, id, approve, e)
  {
    if id in s.requests {
      RoleIs(s, s.requests[id].group, actor);
      RoleIs(s, s.requests[id].group, s.requests[id].user);
    }
  }

  /** For every request and every error: the request is refused with it exactly for the stated reason. */
  lemma RefusedIff(s: Groups, now: int, r: Request, e: Error)
    requires Inv(s)
    ensures Step(s, now, r) == Err(e) <==> Refused(s, r, e)
  {
    match r
    case CreateGroup(_, _, _, _, _, _) => CreateRefusedIff(s, now, r, e);
    case UpdateGroup(a, g, patch) => UpdateRefusedIff(s, a, g, patch, e);
    case DeleteGroup(a, g) => DeleteRefusedIff(s, a, g, e);
    case JoinByCode(_, _) => JoinRefusedIff(s, now, r, e);
    case RemoveMember(a, g, t) => RemovalRefusedIff(s, a, g, t, e);
    case ChangeRole(a, g, t, role) => RoleChangeRefusedIff(s, a, g, t, role, e);
    case TransferOwnership(a, g, t) => TransferRefusedIff(s, a, g, t, e);
    case AskToJoin(_, _) => AskRefusedIff(s, now, r, e);
    case AskToJoinByCode(_, _) => AskRefusedIff(s, now, r, e);
    case Resolve(a, id, approve) => ResolutionRefusedIff(s, now, a, id, approve, e);
  }

  // ---------------------------------------------------------------- what a request writes

  /** Every membership but these is as before. */
  ghost predicate SameRolesBut(s: Groups, t: Groups, group: Uuid, users: set<Uuid>) {
    && t.rosters.Keys == s.rosters.Keys
    && forall h, u, role | h != group || u !in users :: Has(t, h, u, role) <==> Has(s, h, u, role)
  }

  ghost predicate OnlyRoles(s: Groups, t: Groups, group: Uuid, users: set<Uuid>) {
    t.groups == s.groups && t.requests == s.requests && t.nextId == s.nextId && SameRolesBut(s, t, group, users)
  }

  ghost predicate NewGroup(s: Groups, r: Request, t: Groups)
    requires r.CreateGroup?
  {
    var id := s.nextId;
    && id !in s.groups && t.groups.Keys == s.groups.Keys + {id} && t.rosters.Keys == s.rosters.Keys + {id}
    && (forall g :: g in s.groups ==> t.groups[g] == s.groups[g])
    && (forall g :: g in s.rosters ==> t.rosters[g] == s.rosters[g])
    && (var row := t.groups[id];
        && row.name == r.name && row.description == r.description && row.discoverable == r.discoverable
        && row.joinMode == r.joinMode && row.createdBy == r.actor
        && !Used(s, row.code)
        && exists i :: 0 <= i < |r.candidates| && IsFirstUnused(s, r.candidates, i) && row.code == r.candidates[i])
    && (forall u :: u in t.rosters[id] <==> u == r.actor) && t.rosters[id][r.actor] == Owner
    && t.requests == s.requests && t.nextId == id + 1
  }

  /** Only this candidate and later ones may be unused. */
  ghost predicate IsFirstUnused(s: Groups, candidates: seq<string>, i: nat)
    requires i < |candidates|
  {
    forall j :: 0 <= j < i ==> Used(s, candidates[j])
  }

  /** A required column: kept, or set to the given value. */
  predicate Wrote<T(==)>(patch: Patch<Option<T>>, before: T, after: T) {
    match patch
    case Keep => after == before
    case To(given) => given.Some? && after == given.value
  }

  predicate WroteNullable<T(==)>(patch: Patch<Option<T>>, before: Option<T>, after: Option<T>) {
    match patch
    case Keep => after == before
    case To(given) => after == given
  }

  predicate Patches(patch: GroupPatch, x: Group, y: Group) {
    && Wrote(patch.name, x.name, y.name) && WroteNullable(patch.description, x.description, y.description)
    && Wrote(patch.discoverable, x.discoverable, y.discoverable) && Wrote(patch.joinMode, x.joinMode, y.joinMode)
    && y.code == x.code && y.createdBy == x.createdBy
  }

  ghost predicate RowPatched(s: Groups, r: Request, t: Groups)
    requires r.UpdateGroup?
  {
    && r.group in s.groups && t.groups.Keys == s.groups.Keys
    && (forall g :: g in s.groups && g != r.group ==> t.groups[g] == s.groups[g])
    && t.rosters == s.rosters && t.requests == s.requests && t.nextId == s.nextId
    && Patches(r.patch, s.groups[r.group], t.groups[r.group])
  }

  ghost predicate GroupGone(s: Groups, r: Request, t: Groups)
    requires r.DeleteGroup?
  {
    && t.groups.Keys == s.groups.Keys - {r.group} && t.rosters.Keys == s.rosters.Keys - {r.group}
    && (forall g :: g in t.groups ==> t.groups[g] == s.groups[g])
    && (forall g :: g in t.rosters ==> t.rosters[g] == s.rosters[g])
    && (forall id :: id in t.requests <==> id in s.requests && s.requests[id].group != r.group)
    && (forall id :: id in t.requests ==> t.requests[id] == s.requests[id])
    && t.nextId == s.nextId
  }

  ghost predicate NewRequest(s: Groups, group: Uuid, actor: Uuid, t: Groups) {
    && t.groups == s.groups && t.rosters == s.rosters && s.nextId !in s.requests && t.nextId == s.nextId + 1
    && t.requests.Keys == s.requests.Keys + {s.nextId}
    && (forall id :: id in s.requests ==> t.requests[id] == s.requests[id])
    && Waits(t, s.nextId, group, actor)
    && t.requests[s.nextId].resolvedBy == None && t.requests[s.nextId].resolvedAt == None
  }

  ghost predicate RequestResolved(s: Groups, now: int, r: Request, t: Groups)
    requires r.Resolve?
  {
    && r.request in s.requests && t.requests.Keys == s.requests.Keys
    && t.groups == s.groups && t.nextId == s.nextId
    && (forall id :: id in s.requests && id != r.request ==> t.requests[id] == s.requests[id])
    && (var x, y := s.requests[r.request], t.requests[r.request];
        && y.user == x.user && y.group == x.group
        && (y.status == Approved <==> r.approve) && (y.status == Denied <==> !r.approve)
        && y.resolvedBy == Some(r.actor) && y.resolvedAt == Some(now)
        && (if r.approve then Has(t, x.group, x.user, PlainMember) && SameRolesBut(s, t, x.group, {x.user})
            else t.rosters == s.rosters))
  }

  /** Exactly what the request wrote. */
  ghost predicate Effect(s: Groups, now: int, r: Request, t: Groups) {
    match r
    case CreateGroup(_, _, _, _, _, _) => NewGroup(s, r, t)
    case UpdateGroup(_, _, _) => RowPatched(s, r, t)
    case DeleteGroup(_, _) => GroupGone(s, r, t)
    case JoinByCode(a, code) =>
      exists g :: Uses(s, g, code) && Has(t, g, a, PlainMember) && OnlyRoles(s, t, g, {a})
    case RemoveMember(a, g, u) => !IsMember(t, g, u) && OnlyRoles(s, t, g, {u})
    case ChangeRole(a, g, u, role) => Has(t, g, u, role) && OnlyRoles(s, t, g, {u})
    case TransferOwnership(a, g, u) => Has(t, g, u, Owner) && Has(t, g, a, Admin) && OnlyRoles(s, t, g, {a, u})
    case AskToJoin(a, g) => NewRequest(s, g, a, t)
    case AskToJoinByCode(a, code) => exists g :: Uses(s, g, code) && NewRequest(s, g, a, t)
    case Resolve(_, _, _) => RequestResolved(s, now, r, t)
  }

  lemma {:induction false} FirstFreeIsFirst(s: Groups, candidates: seq<string>) returns (i: nat)
    requires FirstFree(s, candidates).Some?
    ensures i < |candidates| && candidates[i] == FirstFree(s, candidates).value && !CodeInUse(s, candidates[i])
    ensures forall j :: 0 <= j < i ==> CodeInUse(s, candidates[j])
  {
    i := 0;
    if CodeInUse(s, candidates[0]) {
      i := FirstFreeIsFirst(s, candidates[1..]);
      forall j | 0 <= j < i + 1 ensures CodeInUse(s, candidates[j]) {
        assert j > 0 ==> candidates[j] == candidates[1..][j - 1];
      }
      i := i + 1;
    }
  }

  lemma CreateEffect(s: Groups, now: int, r: Request)
    requires Inv(s) && r.CreateGroup? && Step(s, now, r).Ok?
    ensures NewGroup(s, r, Step(s, now, r).value)
  {
    var i := FirstFreeIsFirst(s, r.candidates);
    forall j | 0 <= j <= i ensures CodeInUse(s, r.candidates[j]) <==> Used(s, r.candidates[j]) {
      CodeIs(s, r.candidates[j]);
    }
    assert IsFirstUnused(s, r.candidates, i);
  }

  lemma UpdatedRow(s: Groups, actor: Uuid, group: Uuid, patch: GroupPatch) returns (y: Group)
    requires group in s.groups && Updated(s, actor, group, patch).Ok?
    ensures Updated(s, actor, group, patch).value == s.(groups := s.groups[group := y])
    ensures Patches(patch, s.groups[group], y)
  {
    y := Updated(s, actor, group, patch).value.groups[group];
    assert s.groups[group := s.groups[group]] == s.groups;
  }

  lemma UpdateEffect(s: Groups, now: int, r: Request)
    requires Inv(s) && r.UpdateGroup? && Updated(s, r.actor, r.group, r.patch).Ok?
    ensures RowPatched(s, r, Updated(s, r.actor, r.group, r.patch).value)
  {
    RoleIs(s, r.group, r.actor);
    var y := UpdatedRow(s, r.actor, r.group, r.patch);
  }

  lemma DeleteEffect(s: Groups, now: int, r: Request)
    requires Inv(s) && r.DeleteGroup? && Deleted(s, r.actor, r.group).Ok?
    ensures GroupGone(s, r, Deleted(s, r.actor, r.group).value)
  {
  }

  lemma PutRoleWrites(s: Groups, group: Uuid, user: Uuid, role: Role)
    requires group in s.rosters
    ensures var t := PutRole(s, group, user, role);
            Has(t, group, user, role) && SameRolesBut(s, t, group, {user})
  {
  }

  lemma DropMemberWrites(s: Groups, group: Uuid, user: Uuid)
    requires group in s.rosters
    ensures var t := DropMember(s, group, user);
            !IsMember(t, group, user) && SameRolesBut(s, t, group, {user})
  {
  }

  lemma RosterEffect(s: Groups, now: int, r: Request)
    requires Inv(s) && (r.RemoveMember? || r.ChangeRole? || r.TransferOwnership?) && Step(s, now, r).Ok?
    ensures Effect(s, now, r, Step(s, now, r).value)
  {
    RoleIs(s, r.group, r.actor);
    RoleIs(s, r.group, r.target);
    match r
    case RemoveMember(_, g, u) => DropMemberWrites(s, g, u);
    case ChangeRole(_, g, u, role) => PutRoleWrites(s, g, u, role);
    case TransferOwnership(a, g, u) =>
      PutRoleWrites(s, g, a, Admin);
      PutRoleWrites(PutRole(s, g, a, Admin), g, u, Owner);
  }

  lemma JoinEffect(s: Groups, now: int, r: Request)
    requires Inv(s) && r.JoinByCode? && Step(s, now, r).Ok?
    ensures Effect(s, now, r, Step(s, now, r).value)
  {
    CodeIs(s, r.code);
    var g := ByCode(s, r.code).value;
    assert Uses(s, g, r.code);
    PutRoleWrites(s, g, r.actor, PlainMember);
  }

  lemma AskEffect(s: Groups, actor: Uuid, group: Uuid)
    requires Inv(s) && group in s.groups && AskedFor(s, actor, group).Ok?
    ensures NewRequest(s, group, actor, AskedFor(s, actor, group).value)
  {
  }

  lemma AskByCodeEffect(s: Groups, now: int, r: Request)
    requires Inv(s) && r.AskToJoinByCode? && Step(s, now, r).Ok?
    ensures Effect(s, now, r, Step(s, now, r).value)
  {
    CodeIs(s, r.code);
    assert Uses(s, ByCode(s, r.code).value, r.code);
    AskEffect(s, r.actor, ByCode(s, r.code).value);
  }

  lemma ResolutionEffect(s: Groups, now: int, r: Request)
    requires Inv(s) && r.Resolve? && Step(s, now, r).Ok?
    ensures RequestResolved(s, now, r, Step(s, now, r).value)
  {
    var x := s.requests[r.request];
    RoleIs(s, x.group, r.actor);
    if r.approve {
      PutRoleWrites(s, x.group, x.user, PlainMember);
    }
  }

  /** Every successful request writes exactly what it says. */
  lemma StepEffect(s: Groups, now: int, r: Request)
    requires Inv(s) && Step(s, now, r).Ok?
    ensures Effect(s, now, r, Step(s, now, r).value)
  {
    match r
    case CreateGroup(_, _, _, _, _, _) => CreateEffect(s, now, r);
    case UpdateGroup(_, _, _) => UpdateEffect(s, now, r);
    case DeleteGroup(_, _) => DeleteEffect(s, now, r);
    case JoinByCode(_, _) => JoinEffect(s, now, r);
    case RemoveMember(_, _, _) => RosterEffect(s, now, r);
    case ChangeRole(_, _, _, _) => RosterEffect(s, now, r);
    case TransferOwnership(_, _, _) => RosterEffect(s, now, r);
    case AskToJoin(a, g) => AskEffect(s, a, g);
    case AskToJoinByCode(_, _) => AskByCodeEffect(s, now, r);
    case Resolve(_, _, _) => ResolutionEffect(s, now, r);
  }
}
