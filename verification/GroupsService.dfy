/** The group and join-request services over their repository, as an object that owns the tables. */
module GroupsService {
  import opened Prelude
  import opened GroupsModel
  import opened GroupsSafety
  import opened GroupsEffects

  /** Reply and new tables are what the specification says; a raised error changes nothing. */
  ghost predicate Answers(before: Groups, after: Groups, reply: Result<(), Error>, spec: Result<Groups, Error>) {
    match spec
    case Ok(t) => reply == Ok(()) && after == t
    case Err(e) => reply == Err(e) && after == before
  }

  /** A group creation comes with the five codes its loop may draw. */
  predicate DrawsFive(r: Request) { r.CreateGroup? ==> |r.candidates| == 5 }

  class GroupService {
    var groups: map<Uuid, Group>
    var rosters: map<Uuid, Roster>
    var requests: map<Uuid, JoinRequest>
    var nextId: Uuid

    function Tables(): Groups
      reads this
    {
      Groups(groups, rosters, requests, nextId)
    }

    ghost predicate Valid()
      reads this
    {
      Inv(Tables())
    }

    constructor ()
      ensures Tables() == NO_GROUPS && Valid()
    {
      groups, rosters, requests, nextId := map[], map[], map[], 0;
    }

    // -------------------------------------------------------------- repository

    method GetByInviteCode(code: string) returns (group: Option<Uuid>)
      requires UniqueCodes(Tables())
      ensures group == ByCode(Tables(), code)
    {
      var rows := set g | g in groups && groups[g].code == code;
      if rows == {} {
        assert forall g :: HasCode(Tables(), g, code) ==> g in rows;
        return None;
      }
      var g :| g in rows;
      assert HasCode(Tables(), g, code);
      return Some(g);
    }

    method WriteRole(group: Uuid, user: Uuid, role: Role)
      modifies this`rosters
      ensures Tables() == PutRole(old(Tables()), group, user, role)
    {
      rosters := rosters[group := RosterOf(Tables(), group)[user := role]];
    }

    // -------------------------------------------------------------- groups

    /** Up to five random codes are tried; `candidates` are the codes the generator draws. */
    method CreateGroup(
      actor: Uuid, name: string, description: Option<string>, discoverable: bool, mode: JoinMode,
      candidates: seq<string>)
      returns (reply: Result<(), Error>)
      requires |candidates| == 5
      modifies this
      ensures Answers(old(Tables()), Tables(), reply,
                      Created(old(Tables()), actor, name, description, discoverable, mode, candidates))
    {
      var code: Option<string> := None;
      var i := 0;
      while i < |candidates| && code.None?
        invariant 0 <= i <= |candidates|
        invariant code.None? ==> FirstFree(Tables(), candidates) == FirstFree(Tables(), candidates[i..])
        invariant code.Some? ==> FirstFree(Tables(), candidates) == code
        invariant Tables() == old(Tables())
      {
        if !CodeInUse(Tables(), candidates[i]) {
          code := Some(candidates[i]);
        }
        assert candidates[i..][1..] == candidates[i + 1..];
        i := i + 1;
      }
      if code.None? {
        return Err(InviteCodeGenerationFailed);
      }
      var id := nextId;
      nextId := nextId + 1;
      groups := groups[id := Group(name, description, code.value, discoverable, mode, actor)];
      rosters := rosters[id := map[]];
      WriteRole(id, actor, Owner);
      assert rosters == old(rosters)[id := map[actor := Owner]];
      return Ok(());
    }

    method UpdateGroup(actor: Uuid, group: Uuid, patch: GroupPatch) returns (reply: Result<(), Error>)
      modifies this
      ensures Answers(old(Tables()), Tables(), reply, Updated(old(Tables()), actor, group, patch))
    {
      if patch.discoverable.To? || patch.joinMode.To? {
        if !IsOwner(Tables(), group, actor) {
          return Err(OwnerRequired);
        }
      } else if !IsManager(Tables(), group, actor) {
        return Err(AdminOrOwnerRequired);
      }
      if patch == GroupPatch(Keep, Keep, Keep, Keep) {
        return Ok(());
      }
      if group !in groups {
        return Err(GroupNotFound);
      }
      // An explicit null in a NOT NULL column fails at the flush.
      if patch.name == To(None) || patch.discoverable == To(None) || patch.joinMode == To(None) {
        return Err(NotNullViolation);
      }
      var row := groups[group];
      if patch.name.To? {
        row := row.(name := patch.name.value.value);
      }
      if patch.description.To? {
        row := row.(description := patch.description.value);
      }
      if patch.discoverable.To? {
        row := row.(discoverable := patch.discoverable.value.value);
      }
      if patch.joinMode.To? {
        row := row.(joinMode := patch.joinMode.value.value);
      }
      groups := groups[group := row];
      return Ok(());
    }

    method DeleteGroup(actor: Uuid, group: Uuid) returns (reply: Result<(), Error>)
      modifies this
      ensures Answers(old(Tables()), Tables(), reply, Deleted(old(Tables()), actor, group))
    {
      if !IsOwner(Tables(), group, actor) {
        return Err(OwnerRequired);
      }
      if group !in groups {
        return Err(GroupNotFound);
      }
      groups := groups - {group};
      // ON DELETE CASCADE on memberships and join requests.
      rosters := rosters - {group};
      requests := map id | id in requests && requests[id].group != group :: requests[id];
      return Ok(());
    }

    method JoinByInviteCode(actor: Uuid, code: string) returns (reply: Result<(), Error>)
      requires UniqueCodes(Tables())
      modifies this
      ensures Answers(old(Tables()), Tables(), reply, Joined(old(Tables()), actor, code))
    {
      var group := GetByInviteCode(code);
      if group.None? {
        return Err(InviteCodeInvalid);
      }
      if RoleOf(Tables(), group.value, actor).Some? {
        return Err(MemberAlreadyExists);
      }
      if groups[group.value].joinMode == Approval {
        return Err(JoinRequestRequired);
      }
      WriteRole(group.value, actor, PlainMember);
      return Ok(());
    }

    method RemoveMember(actor: Uuid, group: Uuid, target: Uuid) returns (reply: Result<(), Error>)
      modifies this
      ensures Answers(old(Tables()), Tables(), reply, Removed(old(Tables()), actor, group, target))
    {
      if actor != target && !IsManager(Tables(), group, actor) {
        return Err(AdminOrOwnerRequired);
      }
      var membership := RoleOf(Tables(), group, target);
      if membership.None? {
        return Err(MemberNotFound);
      }
      if membership.value == Owner {
        return Err(if actor == target then OwnerCannotLeave else OwnerCannotBeRemoved);
      }
      if actor != target && membership.value == Admin {
        var own := RoleOf(Tables(), group, actor);
        if own.Some? && own.value != Owner {
          return Err(OwnerRequired);
        }
      }
      rosters := rosters[group := RosterOf(Tables(), group) - {target}];
      return Ok(());
    }

    method LeaveGroup(actor: Uuid, group: Uuid) returns (reply: Result<(), Error>)
      modifies this
      ensures Answers(old(Tables()), Tables(), reply, Removed(old(Tables()), actor, group, actor))
    {
      reply := RemoveMember(actor, group, actor);
    }

    method UpdateMemberRole(actor: Uuid, group: Uuid, target: Uuid, role: Role) returns (reply: Result<(), Error>)
      modifies this
      ensures Answers(old(Tables()), Tables(), reply, RoleChanged(old(Tables()), actor, group, target, role))
    {
      if !IsOwner(Tables(), group, actor) {
        return Err(OwnerRequired);
      }
      var membership := RoleOf(Tables(), group, target);
      if membership.None? {
        return Err(MemberNotFound);
      }
      if membership.value == Owner {
        return Err(InvalidRoleChange);
      }
      if role != Admin && role != PlainMember {
        return Err(InvalidRoleChange);
      }
      WriteRole(group, target, role);
      return Ok(());
    }

    method TransferOwnership(actor: Uuid, group: Uuid, target: Uuid) returns (reply: Result<(), Error>)
      modifies this
      ensures Answers(old(Tables()), Tables(), reply, Transferred(old(Tables()), actor, group, target))
    {
      if !IsOwner(Tables(), group, actor) {
        return Err(OwnerRequired);
      }
      if actor == target {
        return Err(TransferInvalidTarget);
      }
      var membership := RoleOf(Tables(), group, target);
      if membership.None? {
        return Err(MemberNotFound);
      }
      if membership.value == Owner {
        return Err(TransferInvalidTarget);
      }
      WriteRole(group, actor, Admin);
      WriteRole(group, target, Owner);
      return Ok(());
    }

    // -------------------------------------------------------------- join requests

    /** Scans the group's pending requests for one of the same user before inserting. */
    method CreateRequestForGroup(actor: Uuid, group: Uuid) returns (reply: Result<(), Error>)
      requires group in groups
      modifies this
      ensures Answers(old(Tables()), Tables(), reply, AskedFor(old(Tables()), actor, group))
    {
      if groups[group].joinMode != Approval {
        return Err(JoinRequestNotRequired);
      }
      if RoleOf(Tables(), group, actor).Some? {
        return Err(MemberAlreadyExists);
      }
      var pending := set id | id in requests && requests[id].group == group && requests[id].status == Pending;
      while pending != {}
        invariant forall id :: id in pending ==>
                    id in requests && requests[id].group == group && requests[id].status == Pending
        invariant forall id :: id in requests && IsPending(Tables(), id, group, actor) ==> id in pending
        invariant Tables() == old(Tables())
        decreases pending
      {
        var id :| id in pending;
        if requests[id].user == actor {
          assert IsPending(Tables(), id, group, actor);
          return Err(JoinRequestPending);
        }
        pending := pending - {id};
      }
      requests := requests[nextId := JoinRequest(actor, group, Pending, None, None)];
      nextId := nextId + 1;
      return Ok(());
    }

    method CreateRequest(actor: Uuid, group: Uuid) returns (reply: Result<(), Error>)
      modifies this
      ensures Answers(old(Tables()), Tables(), reply, Asked(old(Tables()), actor, group))
    {
      if group !in groups {
        return Err(GroupNotFound);
      }
      if !groups[group].discoverable {
        return Err(GroupNotFound);
      }
      reply := CreateRequestForGroup(actor, group);
    }

    method CreateRequestByInviteCode(actor: Uuid, code: string) returns (reply: Result<(), Error>)
      requires UniqueCodes(Tables())
      modifies this
      ensures Answers(old(Tables()), Tables(), reply, AskedByCode(old(Tables()), actor, code))
    {
      var group := GetByInviteCode(code);
      if group.None? {
        return Err(InviteCodeInvalid);
      }
      reply := CreateRequestForGroup(actor, group.value);
    }

    method ResolveRequest(now: int, actor: Uuid, id: Uuid, approve: bool) returns (reply: Result<(), Error>)
      modifies this
      ensures Answers(old(Tables()), Tables(), reply, Resolved(old(Tables()), now, actor, id, approve))
    {
      if id !in requests {
        return Err(JoinRequestNotFound);
      }
      var row := requests[id];
      if !IsManager(Tables(), row.group, actor) {
        return Err(AdminOrOwnerRequired);
      }
      if row.status != Pending {
        return Err(JoinRequestResolved);
      }
      if approve && RoleOf(Tables(), row.group, row.user).Some? {
        return Err(MemberAlreadyExists);
      }
      row := row.(status := if approve then Approved else Denied);
      row := row.(resolvedBy := Some(actor), resolvedAt := Some(now));
      requests := requests[id := row];
      if approve {
        WriteRole(row.group, row.user, PlainMember);
      }
      return Ok(());
    }

    // -------------------------------------------------------------- requests

    /**
      One request, as the application routes it to its handler. From a valid state every request leads
      to a valid state, in which every group still has exactly one owner.
    */
    method Handle(now: int, r: Request) returns (reply: Result<(), Error>)
      requires Valid() && DrawsFive(r)
      modifies this
      ensures Valid() && forall g :: g in groups ==> OneOwner(RosterOf(Tables(), g))
      ensures Answers(old(Tables()), Tables(), reply, Step(old(Tables()), now, r))
      ensures reply.Ok? && r.TransferOwnership? ==> IsOwner(Tables(), r.group, r.target)
      ensures reply.Ok? ==> Effect(old(Tables()), now, r, Tables())
      ensures reply.Err? ==> Tables() == old(Tables()) && Refused(old(Tables()), r, reply.error)
    {
      ghost var before := Tables();
      reply := Dispatch(now, r);
      if Step(before, now, r).Ok? {
        StepKeepsInv(before, now, r);
        StepEffect(before, now, r);
      } else {
        RefusedIff(before, now, r, reply.error);
      }
    }

    /** The routing table. */
    method Dispatch(now: int, r: Request) returns (reply: Result<(), Error>)
      requires UniqueCodes(Tables()) && DrawsFive(r)
      modifies this
      ensures Answers(old(Tables()), Tables(), reply, Step(old(Tables()), now, r))
    {
      match r
      case CreateGroup(a, name, description, discoverable, mode, candidates) =>
        reply := CreateGroup(a, name, description, discoverable, mode, candidates);
      case UpdateGroup(a, g, patch) => reply := UpdateGroup(a, g, patch);
      case DeleteGroup(a, g) => reply := DeleteGroup(a, g);
      case JoinByCode(a, code) => reply := JoinByInviteCode(a, code);
      case RemoveMember(a, g, t) => reply := RemoveMember(a, g, t);
      case ChangeRole(a, g, t, role) => reply := UpdateMemberRole(a, g, t, role);
      case TransferOwnership(a, g, t) => reply := TransferOwnership(a, g, t);
      case AskToJoin(a, g) => reply := CreateRequest(a, g);
      case AskToJoinByCode(a, code) => reply := CreateRequestByInviteCode(a, code);
      case Resolve(a, id, approve) => reply := ResolveRequest(now, a, id, approve);
    }

    /** Any number of requests: the object goes through exactly the states of the specified run. */
    method Serve(run: seq<Turn>)
      requires Valid() && forall i :: 0 <= i < |run| ==> DrawsFive(run[i].request)
      modifies this
      ensures Valid() && Tables() == After(old(Tables()), run)
    {
      var i := 0;
      while i < |run|
        invariant 0 <= i <= |run| && Valid()
        invariant Tables() == After(old(Tables()), run[..i])
      {
        assert run[..i + 1][..i] == run[..i];
        var reply := Handle(run[i].now, run[i].request);
        i := i + 1;
      }
      assert run[..i] == run;
    }
  }
}
