/** Groups, memberships and join requests: the tables and every request that changes them. */
module GroupsModel {
  import opened Prelude

  datatype JoinMode = Open | Approval

  datatype Group = Group(
    name: string, description: Option<string>, code: string, discoverable: bool, joinMode: JoinMode, createdBy: Uuid)

  datatype Status = Pending | Approved | Denied

  datatype JoinRequest = JoinRequest(
    user: Uuid, group: Uuid, status: Status, resolvedBy: Option<Uuid>, resolvedAt: Option<int>)

  type Roster = map<Uuid, Role>

  /** `rosters` is the membership table, grouped by its group column; (user, group) is unique in it. */
  datatype Groups = Groups(
    groups: map<Uuid, Group>, rosters: map<Uuid, Roster>, requests: map<Uuid, JoinRequest>, nextId: Uuid)

  const NO_GROUPS := Groups(map[], map[], map[], 0)

  datatype Error =
    | InviteCodeGenerationFailed | InviteCodeInvalid
    | GroupNotFound | MemberAlreadyExists | MemberNotFound
    | AdminOrOwnerRequired | OwnerRequired
    | OwnerCannotLeave | OwnerCannotBeRemoved | InvalidRoleChange | TransferInvalidTarget
    | JoinRequestRequired | JoinRequestNotRequired | JoinRequestPending | JoinRequestNotFound | JoinRequestResolved
    | NotNullViolation

  datatype GroupPatch = GroupPatch(
    name: Patch<Option<string>>, description: Patch<Option<string>>,
    discoverable: Patch<Option<bool>>, joinMode: Patch<Option<JoinMode>>)

  datatype Request =
    | CreateGroup(
        actor: Uuid, name: string, description: Option<string>, discoverable: bool, joinMode: JoinMode,
        candidates: seq<string>)
    | UpdateGroup(actor: Uuid, group: Uuid, patch: GroupPatch)
    | DeleteGroup(actor: Uuid, group: Uuid)
    | JoinByCode(actor: Uuid, code: string)
    | RemoveMember(actor: Uuid, group: Uuid, target: Uuid)
    | ChangeRole(actor: Uuid, group: Uuid, target: Uuid, role: Role)
    | TransferOwnership(actor: Uuid, group: Uuid, target: Uuid)
    | AskToJoin(actor: Uuid, group: Uuid)
    | AskToJoinByCode(actor: Uuid, code: string)
    | Resolve(actor: Uuid, request: Uuid, approve: bool)

  // ---------------------------------------------------------------- reads

  function RosterOf(s: Groups, group: Uuid): Roster {
    if group in s.rosters then s.rosters[group] else map[]
  }

  function RoleOf(s: Groups, group: Uuid, user: Uuid): Option<Role> { Lookup(RosterOf(s, group), user) }

  predicate IsManager(s: Groups, group: Uuid, user: Uuid) {
    RoleOf(s, group, user).Some? && Manages(RoleOf(s, group, user).value)
  }

  predicate IsOwner(s: Groups, group: Uuid, user: Uuid) { RoleOf(s, group, user) == Some(Owner) }

  predicate CodeInUse(s: Groups, code: string) { exists g :: g in s.groups && s.groups[g].code == code }

  ghost predicate HasCode(s: Groups, group: Uuid, code: string) { group in s.groups && s.groups[group].code == code }

  ghost function ByCode(s: Groups, code: string): Option<Uuid> {
    if exists g :: HasCode(s, g, code) then var g :| HasCode(s, g, code); Some(g) else None
  }

  predicate IsPending(s: Groups, id: Uuid, group: Uuid, user: Uuid) {
    id in s.requests && s.requests[id].group == group && s.requests[id].user == user && s.requests[id].status == Pending
  }

  predicate HasPending(
    s: Groups, group: Uuid, user: Uuid) { exists id :: id in s.requests && IsPending(s, id, group, user) }

  /** The first candidate code that no group uses. */
  function FirstFree(s: Groups, candidates: seq<string>): Option<string> {
    if candidates == [] then None
    else if !CodeInUse(s, candidates[0]) then Some(candidates[0])
    else FirstFree(s, candidates[1..])
  }

  // ---------------------------------------------------------------- mutations

  function PutRole(s: Groups, group: Uuid, user: Uuid, role: Role): Groups {
    s.(rosters := s.rosters[group := RosterOf(s, group)[user := role]])
  }

  function DropMember(s: Groups, group: Uuid, user: Uuid): Groups {
    s.(rosters := s.rosters[group := RosterOf(s, group) - {user}])
  }

  function Created(
    s: Groups, actor: Uuid, name: string, description: Option<string>, discoverable: bool, mode: JoinMode,
    candidates: seq<string>)
    : Result<Groups, Error>
  {
    var code := FirstFree(s, candidates);
    if code.None? then Err(InviteCodeGenerationFailed)
    else
      Ok(s.(groups := s.groups[s.nextId := Group(name, description, code.value, discoverable, mode, actor)],
            rosters := s.rosters[s.nextId := map[actor := Owner]],
            nextId := s.nextId + 1))
  }

  function Updated(s: Groups, actor: Uuid, group: Uuid, patch: GroupPatch): Result<Groups, Error> {
    if (patch.discoverable.To? || patch.joinMode.To?) && !IsOwner(s, group, actor) then Err(OwnerRequired)
    else if !IsManager(s, group, actor) then Err(AdminOrOwnerRequired)
    else if patch == GroupPatch(Keep, Keep, Keep, Keep) then Ok(s)
    else if group !in s.groups then Err(GroupNotFound)
    else if patch.name == To(None) || patch.discoverable == To(None) || patch.joinMode == To(None)
        then Err(NotNullViolation)
    else
      var g := s.groups[group];
      Ok(s.(groups := s.groups[group := g.(
        name := if patch.name.To? then patch.name.value.value else g.name,
        description := if patch.description.To? then patch.description.value else g.description,
        discoverable := if patch.discoverable.To? then patch.discoverable.value.value else g.discoverable,
        joinMode := if patch.joinMode.To? then patch.joinMode.value.value else g.joinMode)]))
  }

  function Deleted(s: Groups, actor: Uuid, group: Uuid): Result<Groups, Error> {
    if !IsOwner(s, group, actor) then Err(OwnerRequired)
    else if group !in s.groups then Err(GroupNotFound)
    else
      Ok(s.(groups := s.groups - {group}, rosters := s.rosters - {group},
            requests := map id | id in s.requests && s.requests[id].group != group :: s.requests[id]))
  }

  ghost function Joined(s: Groups, actor: Uuid, code: string): Result<Groups, Error> {
    var g := ByCode(s, code);
    if g.None? then Err(InviteCodeInvalid)
    else if RoleOf(s, g.value, actor).Some? then Err(MemberAlreadyExists)
    else if s.groups[g.value].joinMode == Approval then Err(JoinRequestRequired)
    else Ok(PutRole(s, g.value, actor, PlainMember))
  }

  function Removed(s: Groups, actor: Uuid, group: Uuid, target: Uuid): Result<Groups, Error> {
    var role := RoleOf(s, group, target);
    if actor != target && !IsManager(s, group, actor) then Err(AdminOrOwnerRequired)
    else if role.None? then Err(MemberNotFound)
    else if role.value == Owner then Err(if actor == target then OwnerCannotLeave else OwnerCannotBeRemoved)
    else if actor != target && role.value == Admin && !IsOwner(s, group, actor) then Err(OwnerRequired)
    else Ok(DropMember(s, group, target))
  }

  function RoleChanged(s: Groups, actor: Uuid, group: Uuid, target: Uuid, role: Role): Result<Groups, Error> {
    var current := RoleOf(s, group, target);
    if !IsOwner(s, group, actor) then Err(OwnerRequired)
    else if current.None? then Err(MemberNotFound)
    else if current.value == Owner || role == Owner then Err(InvalidRoleChange)
    else Ok(PutRole(s, group, target, role))
  }

  function Transferred(s: Groups, actor: Uuid, group: Uuid, target: Uuid): Result<Groups, Error> {
    var current := RoleOf(s, group, target);
    if !IsOwner(s, group, actor) then Err(OwnerRequired)
    else if actor == target then Err(TransferInvalidTarget)
    else if current.None? then Err(MemberNotFound)
    else if current.value == Owner then Err(TransferInvalidTarget)
    else Ok(PutRole(PutRole(s, group, actor, Admin), group, target, Owner))
  }

  function AskedFor(s: Groups, actor: Uuid, group: Uuid): Result<Groups, Error>
    requires group in s.groups
  {
    if s.groups[group].joinMode != Approval then Err(JoinRequestNotRequired)
    else if RoleOf(s, group, actor).Some? then Err(MemberAlreadyExists)
    else if HasPending(s, group, actor) then Err(JoinRequestPending)
    else Ok(s.(requests := s.requests[s.nextId := JoinRequest(actor, group, Pending, None, None)],
        nextId := s.nextId + 1))
  }

  function Asked(s: Groups, actor: Uuid, group: Uuid): Result<Groups, Error> {
    if group !in s.groups || !s.groups[group].discoverable then Err(GroupNotFound) else AskedFor(s, actor, group)
  }

  ghost function AskedByCode(s: Groups, actor: Uuid, code: string): Result<Groups, Error> {
    var g := ByCode(s, code);
    if g.None? then Err(InviteCodeInvalid) else AskedFor(s, actor, g.value)
  }

  function Resolved(s: Groups, now: int, actor: Uuid, id: Uuid, approve: bool): Result<Groups, Error> {
    if id !in s.requests then Err(JoinRequestNotFound)
    else
      var r := s.requests[id];
      if !IsManager(s, r.group, actor) then Err(AdminOrOwnerRequired)
      else if r.status != Pending then Err(JoinRequestResolved)
      else if approve && RoleOf(s, r.group, r.user).Some? then Err(MemberAlreadyExists)
      else
        var status := if approve then Approved else Denied;
        var done := r.(status := status, resolvedBy := Some(actor), resolvedAt := Some(now));
        var t := s.(requests := s.requests[id := done]);
        Ok(if approve then PutRole(t, r.group, r.user, PlainMember) else t)
  }

  ghost function Step(s: Groups, now: int, r: Request): Result<Groups, Error> {
    match r
    case CreateGroup(a, name, description, discoverable, mode, candidates) =>
      Created(s, a, name, description, discoverable, mode, candidates)
    case UpdateGroup(a, g, patch) => Updated(s, a, g, patch)
    case DeleteGroup(a, g) => Deleted(s, a, g)
    case JoinByCode(a, code) => Joined(s, a, code)
    case RemoveMember(a, g, t) => Removed(s, a, g, t)
    case ChangeRole(a, g, t, role) => RoleChanged(s, a, g, t, role)
    case TransferOwnership(a, g, t) => Transferred(s, a, g, t)
    case AskToJoin(a, g) => Asked(s, a, g)
    case AskToJoinByCode(a, code) => AskedByCode(s, a, code)
    case Resolve(a, id, approve) => Resolved(s, now, a, id, approve)
  }
}
