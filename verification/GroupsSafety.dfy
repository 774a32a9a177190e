/** What whole runs of group requests keep: ownership, admission, join requests. */
module GroupsSafety {
  import opened Prelude
  import opened GroupsModel

  ghost predicate OneOwner(roster: Roster) {
    exists o :: o in roster && roster[o] == Owner && forall u :: u in roster && roster[u] == Owner ==> u == o
  }

  ghost function TheOwner(roster: Roster): Uuid
    requires OneOwner(roster)
  {
    var o :| o in roster && roster[o] == Owner && forall u :: u in roster && roster[u] == Owner ==> u == o;
    o
  }

  function Admins(roster: Roster): set<Uuid> { set u | u in roster && roster[u] == Admin }

  ghost predicate RequestsConsistent(s: Groups) {
    && (forall id :: id in s.requests ==>
          && id < s.nextId && s.requests[id].group in s.groups
          && (s.requests[id].status == Pending <==> s.requests[id].resolvedBy == None)
          && (s.requests[id].status == Pending <==> s.requests[id].resolvedAt == None))
    && (forall a, b, g, u | a in s.requests && b in s.requests && IsPending(s, a, g, u) && IsPending(s, b, g, u) ::
        a == b)
  }

  /** The unique column behind `get_by_invite_code`. */
  ghost predicate UniqueCodes(s: Groups) {
    forall g, h | g in s.groups && h in s.groups && s.groups[g].code == s.groups[h].code :: g == h
  }

  ghost predicate Inv(s: Groups) {
    && s.rosters.Keys == s.groups.Keys
    && (forall g :: g in s.groups ==> g < s.nextId)
    && (forall g :: g in s.rosters ==> OneOwner(s.rosters[g]))
    && UniqueCodes(s)
    && RequestsConsistent(s)
  }

  // ---------------------------------------------------------------- one request

  lemma {:induction false} FirstFreeIsFree(s: Groups, candidates: seq<string>)
    ensures FirstFree(s, candidates).Some? ==> !CodeInUse(s, FirstFree(s, candidates).value)
    ensures FirstFree(s, candidates).Some? ==> FirstFree(s, candidates).value in candidates
    ensures FirstFree(s, candidates).None? ==> forall i :: 0 <= i < |candidates| ==> CodeInUse(s, candidates[i])
  {
    if candidates != [] {
      FirstFreeIsFree(s, candidates[1..]);
      forall i | 0 < i < |candidates| ensures candidates[i] == candidates[1..][i - 1] {}
    }
  }

  /** Writing any role but owner for anyone but the owner, or dropping such a member, keeps the owner. */
  lemma OwnerUntouched(roster: Roster, after: Roster)
    requires OneOwner(roster)
    requires forall u :: (u in after && after[u] == Owner) <==> (u in roster && roster[u] == Owner)
    ensures OneOwner(after) && TheOwner(after) == TheOwner(roster)
  {
    var o := TheOwner(roster);
    assert o in after && after[o] == Owner && forall u :: u in after && after[u] == Owner ==> u == o;
  }

  lemma HandedOver(roster: Roster, actor: Uuid, target: Uuid)
    requires OneOwner(roster) && actor in roster && roster[actor] == Owner && target in roster && target != actor
    ensures OneOwner(roster[actor := Admin][target := Owner])
    ensures TheOwner(roster[actor := Admin][target := Owner]) == target && TheOwner(roster) == actor
  {
    var after := roster[actor := Admin][target := Owner];
    assert target in after && after[target] == Owner && forall u :: u in after && after[u] == Owner ==> u == target;
  }

  /** The same pending requests as before, or fewer. */
  lemma PendingStaysUnique(s: Groups, t: Groups)
    requires RequestsConsistent(s)
    requires forall id :: id in t.requests && t.requests[id].status == Pending ==>
               id in s.requests && s.requests[id] == t.requests[id]
    ensures forall a, b, g, u | a in t.requests && b in t.requests && IsPending(t, a, g, u) && IsPending(t, b, g, u) ::
        a == b
  {
    forall a, b, g, u | a in t.requests && b in t.requests && IsPending(t, a, g, u) && IsPending(t, b, g, u)
        ensures a == b {
      assert IsPending(s, a, g, u) && IsPending(s, b, g, u);
    }
  }

  lemma CreatedKeepsInv(
    s: Groups, actor: Uuid, name: string, description: Option<string>, discoverable: bool, mode: JoinMode,
    candidates: seq<string>)
    requires Inv(s) && Created(s, actor, name, description, discoverable, mode, candidates).Ok?
    ensures Inv(Created(s, actor, name, description, discoverable, mode, candidates).value)
  {
    var t := Created(s, actor, name, description, discoverable, mode, candidates).value;
    FirstFreeIsFree(s, candidates);
    PendingStaysUnique(s, t);
    var roster: Roster := map[actor := Owner];
    assert actor in roster && roster[actor] == Owner && forall u :: u in roster && roster[u] == Owner ==> u == actor;
    assert OneOwner(t.rosters[s.nextId]);
  }

  lemma UpdatedKeepsInv(s: Groups, actor: Uuid, group: Uuid, patch: GroupPatch)
    requires Inv(s) && Updated(s, actor, group, patch).Ok?
    ensures Inv(Updated(s, actor, group, patch).value)
  {
    PendingStaysUnique(s, Updated(s, actor, group, patch).value);
  }

  lemma DeletedKeepsInv(s: Groups, actor: Uuid, group: Uuid)
    requires Inv(s) && Deleted(s, actor, group).Ok?
    ensures Inv(Deleted(s, actor, group).value)
  {
    PendingStaysUnique(s, Deleted(s, actor, group).value);
  }

  /** Requests that write one roster and no group or request row. */
  lemma RosterWriteKeepsInv(s: Groups, group: Uuid, after: Roster)
    requires Inv(s) && group in s.groups && OneOwner(after)
    ensures Inv(s.(rosters := s.rosters[group := after]))
  {
    PendingStaysUnique(s, s.(rosters := s.rosters[group := after]));
  }

  lemma PlainWriteKeepsInv(s: Groups, group: Uuid, user: Uuid, role: Role)
    requires Inv(s) && group in s.groups && role != Owner && RoleOf(s, group, user) != Some(Owner)
    ensures Inv(PutRole(s, group, user, role))
  {
    assert OneOwner(RosterOf(s, group));
    OwnerUntouched(RosterOf(s, group), RosterOf(s, group)[user := role]);
    RosterWriteKeepsInv(s, group, RosterOf(s, group)[user := role]);
  }

  lemma RemovedKeepsInv(s: Groups, actor: Uuid, group: Uuid, target: Uuid)
    requires Inv(s) && Removed(s, actor, group, target).Ok?
    ensures Inv(Removed(s, actor, group, target).value)
  {
    assert OneOwner(RosterOf(s, group));
    OwnerUntouched(RosterOf(s, group), RosterOf(s, group) - {target});
    RosterWriteKeepsInv(s, group, RosterOf(s, group) - {target});
  }

  lemma TwoRoles(s: Groups, group: Uuid, a: Uuid, b: Uuid)
    ensures PutRole(PutRole(s, group, a, Admin), group, b, Owner)
         == s.(rosters := s.rosters[group := RosterOf(s, group)[a := Admin][b := Owner]])
  {
    var after := RosterOf(s, group)[a := Admin][b := Owner];
    assert s.rosters[group := RosterOf(s, group)[a := Admin]][group := after] == s.rosters[group := after];
  }

  lemma TransferredKeepsInv(s: Groups, actor: Uuid, group: Uuid, target: Uuid)
    requires Inv(s) && Transferred(s, actor, group, target).Ok?
    ensures Inv(Transferred(s, actor, group, target).value)
  {
    var roster := RosterOf(s, group);
    assert OneOwner(roster);
    TwoRoles(s, group, actor, target);
    HandedOver(roster, actor, target);
    RosterWriteKeepsInv(s, group, roster[actor := Admin][target := Owner]);
  }

  lemma AskKeepsInv(s: Groups, actor: Uuid, group: Uuid)
    requires Inv(s) && group in s.groups && AskedFor(s, actor, group).Ok?
    ensures Inv(AskedFor(s, actor, group).value)
  {
    var t := AskedFor(s, actor, group).value;
    forall a, b, g, u | a in t.requests && b in t.requests && IsPending(t, a, g, u) && IsPending(t, b, g, u)
        ensures a == b {
      assert a != s.nextId ==> IsPending(s, a, g, u);
      assert b != s.nextId ==> IsPending(s, b, g, u);
    }
  }

  lemma ResolvedRowKeepsInv(s: Groups, id: Uuid, done: JoinRequest)
    requires Inv(s) && id in s.requests && done.group == s.requests[id].group && done.status != Pending
    requires done.resolvedBy.Some? && done.resolvedAt.Some?
    ensures Inv(s.(requests := s.requests[id := done]))
  {
    var t := s.(requests := s.requests[id := done]);
    ResolvedRowStaysConsistent(s, id, done);
    assert RequestsConsistent(t);
  }

  lemma ResolvedRowStaysConsistent(s: Groups, id: Uuid, done: JoinRequest)
    requires RequestsConsistent(s) && id in s.requests && done.group == s.requests[id].group && done.status != Pending
    requires done.resolvedBy.Some? && done.resolvedAt.Some?
    ensures RequestsConsistent(s.(requests := s.requests[id := done]))
  {
    var t := s.(requests := s.requests[id := done]);
    PendingStaysUnique(s, t);
    forall k | k in t.requests
      ensures k < t.nextId && t.requests[k].group in t.groups
      ensures t.requests[k].status == Pending <==> t.requests[k].resolvedBy == None
      ensures t.requests[k].status == Pending <==> t.requests[k].resolvedAt == None
    {
      if k != id {
        assert t.requests[k] == s.requests[k];
      }
    }
  }

  lemma ResolvedKeepsInv(s: Groups, now: int, actor: Uuid, id: Uuid, approve: bool)
    requires Inv(s) && Resolved(s, now, actor, id, approve).Ok?
    ensures Inv(Resolved(s, now, actor, id, approve).value)
  {
    var r := s.requests[id];
    var done := r.(status := if approve then Approved else Denied, resolvedBy := Some(actor), resolvedAt := Some(now));
    ResolvedRowKeepsInv(s, id, done);
    if approve {
      PlainWriteKeepsInv(s.(requests := s.requests[id := done]), r.group, r.user, PlainMember);
    }
  }

  lemma JoinedKeepsInv(s: Groups, actor: Uuid, code: string)
    requires Inv(s) && Joined(s, actor, code).Ok?
    ensures Inv(Joined(s, actor, code).value)
  {
    PlainWriteKeepsInv(s, ByCode(s, code).value, actor, PlainMember);
  }

  lemma StepKeepsInv(s: Groups, now: int, r: Request)
    requires Inv(s) && Step(s, now, r).Ok?
    ensures Inv(Step(s, now, r).value)
  {
    match r
    case CreateGroup(a, name, description, discoverable, mode, candidates) =>
      CreatedKeepsInv(s, a, name, description, discoverable, mode, candidates);
    case UpdateGroup(a, g, patch) => UpdatedKeepsInv(s, a, g, patch);
    case DeleteGroup(a, g) => DeletedKeepsInv(s, a, g);
    case JoinByCode(a, code) => JoinedKeepsInv(s, a, code);
    case RemoveMember(a, g, t) => RemovedKeepsInv(s, a, g, t);
    case ChangeRole(_, g, t, role) => PlainWriteKeepsInv(s, g, t, role);
    case TransferOwnership(a, g, t) => TransferredKeepsInv(s, a, g, t);
    case AskToJoin(a, g) => AskKeepsInv(s, a, g);
    case AskToJoinByCode(a, code) => AskKeepsInv(s, a, ByCode(s, code).value);
    case Resolve(a, id, approve) => ResolvedKeepsInv(s, now, a, id, approve);
  }

  // ---------------------------------------------------------------- what a request does to one group

  datatype Move = Stay | Admit(user: Uuid) | Promote(user: Uuid, role: Role) | Drop(user: Uuid) | Hand(to: Uuid)

  /** How a successful request changes the roster of a group that survives it. */
  ghost function MoveOf(s: Groups, r: Request, group: Uuid): Move {
    match r
    case JoinByCode(a, code) => if ByCode(s, code) == Some(group) then Admit(a) else Stay
    case RemoveMember(_, g, t) => if g == group then Drop(t) else Stay
    case ChangeRole(_, g, t, role) => if g == group then Promote(t, role) else Stay
    case TransferOwnership(_, g, t) => if g == group then Hand(t) else Stay
    case Resolve(_, id, approve) =>
      if approve && id in s.requests && s.requests[id].group == group then Admit(s.requests[id].user) else Stay
    case _ => Stay
  }

  function MoveRoster(roster: Roster, actor: Uuid, m: Move): Roster {
    match m
    case Stay => roster
    case Admit(u) => roster[u := PlainMember]
    case Promote(u, role) => roster[u := role]
    case Drop(u) => roster - {u}
    case Hand(u) => roster[actor := Admin][u := Owner]
  }

  /** The guards a successful request has passed. */
  ghost predicate Permitted(s: Groups, r: Request, group: Uuid)
    requires group in s.groups
  {
    match MoveOf(s, r, group)
    case Stay => true
    case Admit(u) =>
      && RoleOf(s, group, u).None?
      && (r.JoinByCode? ==> s.groups[group].joinMode == Open)
      && (r.Resolve? ==> IsPending(s, r.request, group, u) && IsManager(s, group, r.actor))
    case Promote(u, role) => IsOwner(s, group, r.actor) && role != Owner && RoleOf(s, group, u).Some?
        && !IsOwner(s, group, u)
    case Drop(u) =>
      && RoleOf(s, group, u).Some? && !IsOwner(s, group, u)
      && (r.actor == u || IsOwner(s, group, r.actor) ||
          (IsManager(s, group, r.actor) && RoleOf(s, group, u) == Some(PlainMember)))
    case Hand(u) => IsOwner(s, group, r.actor) && u != r.actor && RoleOf(s, group, u).Some?
  }

  /** A request row after a step: as before, or resolved by this step. */
  ghost predicate RowAfter(s: Groups, t: Groups, now: int, r: Request, id: Uuid)
    requires id in s.requests
  {
    if r.Resolve? && r.request == id then
      && s.requests[id].status == Pending
      && Lookup(t.requests, id) == Some(s.requests[id].(
           status := if r.approve then Approved else Denied, resolvedBy := Some(r.actor), resolvedAt := Some(now)))
    else Lookup(t.requests, id) == Some(s.requests[id])
  }

  ghost predicate Facts(s: Groups, t: Groups, now: int, r: Request, group: Uuid) {
    && group in s.groups && group in t.groups
    && RosterOf(t, group) == MoveRoster(RosterOf(s, group), r.actor, MoveOf(s, r, group))
    && Permitted(s, r, group)
    && (IsOwner(s, group, r.actor) ||
        (t.groups[group].discoverable == s.groups[group].discoverable
            && t.groups[group].joinMode == s.groups[group].joinMode))
    && (forall id :: id in s.requests && s.requests[id].group == group ==> RowAfter(s, t, now, r, id))
  }

  lemma CreatedFacts(s: Groups, now: int, r: Request, group: Uuid)
    requires Inv(s) && group in s.groups && r.CreateGroup?
    requires Created(s, r.actor, r.name, r.description, r.discoverable, r.joinMode, r.candidates).Ok?
    ensures Facts(s, Created(s, r.actor, r.name, r.description, r.discoverable, r.joinMode, r.candidates).value, now,
        r, group)
  {
  }

  lemma UpdatedFacts(s: Groups, now: int, r: Request, group: Uuid)
    requires group in s.groups && r.UpdateGroup? && Updated(s, r.actor, r.group, r.patch).Ok?
    ensures Facts(s, Updated(s, r.actor, r.group, r.patch).value, now, r, group)
  {
  }

  lemma DeletedFacts(s: Groups, now: int, r: Request, group: Uuid)
    requires group in s.groups && r.DeleteGroup? && r.group != group && Deleted(s, r.actor, r.group).Ok?
    ensures Facts(s, Deleted(s, r.actor, r.group).value, now, r, group)
  {
  }

  lemma JoinedFacts(s: Groups, now: int, r: Request, group: Uuid)
    requires group in s.groups && r.JoinByCode? && Joined(s, r.actor, r.code).Ok?
    ensures Facts(s, Joined(s, r.actor, r.code).value, now, r, group)
  {
  }

  lemma RemovedFacts(s: Groups, now: int, r: Request, group: Uuid)
    requires group in s.groups && r.RemoveMember? && Removed(s, r.actor, r.group, r.target).Ok?
    ensures Facts(s, Removed(s, r.actor, r.group, r.target).value, now, r, group)
  {
  }

  lemma RoleChangedFacts(s: Groups, now: int, r: Request, group: Uuid)
    requires group in s.groups && r.ChangeRole? && RoleChanged(s, r.actor, r.group, r.target, r.role).Ok?
    ensures Facts(s, RoleChanged(s, r.actor, r.group, r.target, r.role).value, now, r, group)
  {
  }

  lemma TransferredFacts(s: Groups, now: int, r: Request, group: Uuid)
    requires group in s.groups && r.TransferOwnership? && Transferred(s, r.actor, r.group, r.target).Ok?
    ensures Facts(s, Transferred(s, r.actor, r.group, r.target).value, now, r, group)
  {
  }

  lemma AskedFacts(s: Groups, now: int, r: Request, asked: Uuid, group: Uuid)
    requires Inv(s) && group in s.groups && (r.AskToJoin? || r.AskToJoinByCode?)
    requires asked in s.groups && AskedFor(s, r.actor, asked).Ok?
    ensures Facts(s, AskedFor(s, r.actor, asked).value, now, r, group)
  {
  }

  lemma ResolvedFacts(s: Groups, now: int, r: Request, group: Uuid)
    requires group in s.groups && r.Resolve? && Resolved(s, now, r.actor, r.request, r.approve).Ok?
    ensures Facts(s, Resolved(s, now, r.actor, r.request, r.approve).value, now, r, group)
  {
  }

  lemma StepFacts(s: Groups, now: int, r: Request, group: Uuid)
    requires Inv(s) && group in s.groups && Step(s, now, r).Ok? && group in Step(s, now, r).value.groups
    ensures Facts(s, Step(s, now, r).value, now, r, group)
  {
    if r.CreateGroup? || r.UpdateGroup? || r.DeleteGroup? {
      GroupStepFacts(s, now, r, group);
    } else {
      MemberStepFacts(s, now, r, group);
    }
  }

  lemma GroupStepFacts(s: Groups, now: int, r: Request, group: Uuid)
    requires Inv(s) && group in s.groups && Step(s, now, r).Ok? && group in Step(s, now, r).value.groups
    requires r.CreateGroup? || r.UpdateGroup? || r.DeleteGroup?
    ensures Facts(s, Step(s, now, r).value, now, r, group)
  {
    match r
    case CreateGroup(_, _, _, _, _, _) => CreatedFacts(s, now, r, group);
    case UpdateGroup(_, _, _) => UpdatedFacts(s, now, r, group);
    case DeleteGroup(_, _) => DeletedFacts(s, now, r, group);
  }

  lemma MemberStepFacts(s: Groups, now: int, r: Request, group: Uuid)
    requires Inv(s) && group in s.groups && Step(s, now, r).Ok? && group in Step(s, now, r).value.groups
    requires !r.CreateGroup? && !r.UpdateGroup? && !r.DeleteGroup?
    ensures Facts(s, Step(s, now, r).value, now, r, group)
  {
    match r
    case JoinByCode(_, _) => JoinedFacts(s, now, r, group);
    case RemoveMember(_, _, _) => RemovedFacts(s, now, r, group);
    case ChangeRole(_, _, _, _) => RoleChangedFacts(s, now, r, group);
    case TransferOwnership(_, _, _) => TransferredFacts(s, now, r, group);
    case AskToJoin(_, g) => AskedFacts(s, now, r, g, group);
    case AskToJoinByCode(_, code) => AskedFacts(s, now, r, ByCode(s, code).value, group);
    case Resolve(_, _, _) => ResolvedFacts(s, now, r, group);
  }

  /** A group disappears only by its owner's delete. */
  lemma OnlyOwnerDeletes(s: Groups, now: int, r: Request, group: Uuid)
    requires Inv(s) && group in s.groups && Step(s, now, r).Ok? && !IsOwner(s, group, r.actor)
    ensures group in Step(s, now, r).value.groups
  {
    if r.DeleteGroup? {
      DeletionRemovesOwn(s, r.actor, r.group, group);
    } else if r.CreateGroup? || r.UpdateGroup? {
      assert s.groups.Keys <= Step(s, now, r).value.groups.Keys;
    } else {
      MembersKeepGroups(s, now, r);
    }
  }

  lemma DeletionRemovesOwn(s: Groups, actor: Uuid, deleted: Uuid, group: Uuid)
    requires group in s.groups && Deleted(s, actor, deleted).Ok? && !IsOwner(s, group, actor)
    ensures group in Deleted(s, actor, deleted).value.groups
  {
  }

  lemma MembersKeepGroups(s: Groups, now: int, r: Request)
    requires !r.CreateGroup? && !r.UpdateGroup? && !r.DeleteGroup? && Step(s, now, r).Ok?
    ensures Step(s, now, r).value.groups == s.groups
  {
  }

  // ---------------------------------------------------------------- runs

  datatype Turn = Turn(now: int, request: Request)

  ghost function Then(s: Groups, t: Turn): Groups {
    var r := Step(s, t.now, t.request);
    if r.Ok? then r.value else s
  }

  ghost function After(s: Groups, run: seq<Turn>): Groups {
    if run == [] then s else Then(After(s, run[..|run| - 1]), run[|run| - 1])
  }

  ghost predicate Succeeds(s: Groups, run: seq<Turn>, i: nat)
    requires i < |run|
  {
    Step(After(s, run[..i]), run[i].now, run[i].request).Ok?
  }

  lemma {:induction false} RunKeepsInv(s: Groups, run: seq<Turn>)
    requires Inv(s)
    ensures Inv(After(s, run))
  {
    if run != [] {
      var init, last := run[..|run| - 1], run[|run| - 1];
      RunKeepsInv(s, init);
      if Step(After(s, init), last.now, last.request).Ok? {
        StepKeepsInv(After(s, init), last.now, last.request);
      }
    }
  }

  /** Every reachable group has exactly one owner and the join requests are consistent. */
  lemma ReachableGroupsHaveOneOwner(run: seq<Turn>, group: Uuid)
    ensures var s := After(NO_GROUPS, run);
            && (group in s.groups <==> group in s.rosters)
            && (group in s.groups ==> OneOwner(s.rosters[group]))
            && RequestsConsistent(s)
  {
    RunKeepsInv(NO_GROUPS, run);
  }

  /** The group exists at every point of the run. */
  ghost predicate Persists(s: Groups, run: seq<Turn>, group: Uuid) {
    forall i :: 0 <= i <= |run| ==> group in After(s, run[..i]).groups
  }

  lemma PrefixOf(run: seq<Turn>, i: nat)
    requires i < |run|
    ensures run[..|run| - 1][..i] == run[..i] && run[..|run|] == run
    ensures i < |run| - 1 ==> run[..|run| - 1][i] == run[i]
  {
  }

  lemma PrefixPersists(s: Groups, run: seq<Turn>, group: Uuid)
    requires run != [] && Persists(s, run, group)
    ensures Persists(s, run[..|run| - 1], group)
    ensures group in After(s, run).groups
  {
    var init := run[..|run| - 1];
    forall i | 0 <= i <= |init| ensures group in After(s, init[..i]).groups {
      PrefixOf(run, i);
    }
    assert run[..|run|] == run;
  }

  // ---------------------------------------------------------------- ownership

  lemma OwnerAfterFacts(s: Groups, t: Groups, now: int, r: Request, group: Uuid)
    requires Facts(s, t, now, r, group) && OneOwner(RosterOf(s, group))
    ensures OneOwner(RosterOf(t, group))
    ensures TheOwner(RosterOf(t, group)) ==
            if MoveOf(s, r, group).Hand? then MoveOf(s, r, group).to else TheOwner(RosterOf(s, group))
    ensures MoveOf(s, r, group).Hand? ==> r.actor == TheOwner(RosterOf(s, group))
  {
    var m := MoveOf(s, r, group);
    if m.Hand? {
      HandedOver(RosterOf(s, group), r.actor, m.to);
    } else {
      OwnerUntouched(RosterOf(s, group), RosterOf(t, group));
    }
  }

  /** The owner changes in a step exactly if the owner's own transfer succeeds in it. */
  lemma OwnerChangesByTransfer(s: Groups, t: Turn, group: Uuid)
    requires Inv(s) && group in s.groups && group in Then(s, t).groups
    ensures OneOwner(RosterOf(s, group)) && OneOwner(RosterOf(Then(s, t), group))
    ensures TheOwner(RosterOf(Then(s, t), group)) ==
            if TransfersIn(s, t, group) then t.request.target else TheOwner(RosterOf(s, group))
    ensures TransfersIn(s, t, group) ==> t.request.actor == TheOwner(RosterOf(s, group))
  {
    assert OneOwner(RosterOf(s, group));
    if Step(s, t.now, t.request).Ok? {
      StepFacts(s, t.now, t.request, group);
      OwnerAfterFacts(s, Then(s, t), t.now, t.request, group);
    }
  }

  ghost predicate TransfersIn(s: Groups, t: Turn, group: Uuid) {
    t.request.TransferOwnership? && t.request.group == group && Step(s, t.now, t.request).Ok?
  }

  datatype Handover = Handover(from: Uuid, to: Uuid)

  /** The successful transfers of one group in a run, in order: who performed it, and to whom. */
  ghost function Handovers(s: Groups, run: seq<Turn>, group: Uuid): seq<Handover> {
    if run == [] then []
    else
      var init, last := run[..|run| - 1], run[|run| - 1];
      Handovers(s, init, group) +
      if TransfersIn(After(s, init), last, group) then [Handover(last.request.actor, last.request.target)] else []
  }

  /** A chain from one owner to another: each transfer is performed by the owner the previous one made. */
  predicate Chain(first: Uuid, chain: seq<Handover>, last: Uuid) {
    if chain == [] then first == last
    else chain[|chain| - 1].to == last && Chain(first, chain[..|chain| - 1], chain[|chain| - 1].from)
  }

  /** Between any two points of a run the owners are linked by the chain of transfers, each by the then-owner. */
  lemma {:induction false} OwnersAreLinkedByTransfers(s: Groups, run: seq<Turn>, group: Uuid)
    requires Inv(s) && Persists(s, run, group)
    ensures group in s.groups && OneOwner(RosterOf(s, group)) && OneOwner(RosterOf(After(s, run), group))
    ensures Chain(TheOwner(RosterOf(s, group)), Handovers(s, run, group), TheOwner(RosterOf(After(s, run), group)))
  {
    assert run[..0] == [];
    assert group in After(s, run[..0]).groups;
    if run != [] {
      var init, last := run[..|run| - 1], run[|run| - 1];
      PrefixPersists(s, run, group);
      OwnersAreLinkedByTransfers(s, init, group);
      RunKeepsInv(s, init);
      assert init[..|init|] == init;
      OwnerChangesByTransfer(After(s, init), last, group);
      var chain := Handovers(s, run, group);
      if |chain| > |Handovers(s, init, group)| {
        assert chain[..|chain| - 1] == Handovers(s, init, group);
      } else {
        assert chain == Handovers(s, init, group);
      }
    }
  }

  // ---------------------------------------------------------------- segments without the owner

  lemma FactsWithoutOwner(s: Groups, t: Groups, now: int, r: Request, group: Uuid)
    requires Facts(s, t, now, r, group) && !IsOwner(s, group, r.actor)
    ensures Admins(RosterOf(t, group)) <= Admins(RosterOf(s, group))
    ensures forall a :: a in Admins(RosterOf(s, group)) && a !in Admins(RosterOf(t, group)) ==>
        r == RemoveMember(a, group, a)
  {
  }

  /** One request by anyone but the owner. */
  lemma StepWithoutOwner(s: Groups, t: Turn, group: Uuid)
    requires Inv(s) && group in s.groups && OneOwner(RosterOf(s, group))
      && t.request.actor != TheOwner(RosterOf(s, group))
    ensures group in Then(s, t).groups
    ensures Then(s, t).groups[group].discoverable == s.groups[group].discoverable
    ensures Then(s, t).groups[group].joinMode == s.groups[group].joinMode
    ensures Admins(RosterOf(Then(s, t), group)) <= Admins(RosterOf(s, group))
    ensures forall a :: a in Admins(RosterOf(s, group)) && a !in Admins(RosterOf(Then(s, t), group)) ==>
              t.request == RemoveMember(a, group, a) && Step(s, t.now, t.request).Ok?
  {
    assert !IsOwner(s, group, t.request.actor);
    if Step(s, t.now, t.request).Ok? {
      OnlyOwnerDeletes(s, t.now, t.request, group);
      StepFacts(s, t.now, t.request, group);
      FactsWithoutOwner(s, Then(s, t), t.now, t.request, group);
    }
  }

  /**
    In any run segment in which the owner takes no step, the owner and the owner-only settings stay,
    no admin is added, and every admin who is gone left by a leave step of their own.
  */
  lemma {:induction false} WithoutOwnerNothingEscalates(s: Groups, run: seq<Turn>, group: Uuid)
    requires Inv(s) && group in s.groups
    requires forall i :: 0 <= i < |run| ==> run[i].request.actor != TheOwner(RosterOf(s, group))
    ensures var t := After(s, run);
            && group in t.groups && OneOwner(RosterOf(t, group))
            && TheOwner(RosterOf(t, group)) == TheOwner(RosterOf(s, group))
            && t.groups[group].discoverable == s.groups[group].discoverable
            && t.groups[group].joinMode == s.groups[group].joinMode
            && Admins(RosterOf(t, group)) <= Admins(RosterOf(s, group))
            && (forall a :: a in Admins(RosterOf(s, group)) && a !in Admins(RosterOf(t, group)) ==>
                  exists i :: 0 <= i < |run| && run[i].request == RemoveMember(a, group, a) && Succeeds(s, run, i))
  {
    if run == [] {
      assert OneOwner(RosterOf(s, group));
    } else {
      var init, last := run[..|run| - 1], run[|run| - 1];
      WithoutOwnerNothingEscalates(s, init, group);
      RunKeepsInv(s, init);
      var m := After(s, init);
      StepWithoutOwner(m, last, group);
      OwnerChangesByTransfer(m, last, group);
      var t := After(s, run);
      forall a | a in Admins(RosterOf(s, group)) && a !in Admins(RosterOf(t, group))
        ensures exists i :: 0 <= i < |run| && run[i].request == RemoveMember(a, group, a) && Succeeds(s, run, i)
      {
        if a in Admins(RosterOf(m, group)) {
          assert run[|run| - 1].request == RemoveMember(a, group, a) && Succeeds(s, run, |run| - 1);
        } else {
          var i :| 0 <= i < |init| && init[i].request == RemoveMember(a, group, a) && Succeeds(s, init, i);
          PrefixOf(run, i);
          assert Succeeds(s, run, i);
        }
      }
    }
  }

  // ---------------------------------------------------------------- admission by approval

  /** Step `i` approves the pending request of `user` for `group`, on behalf of someone who manages the group then. */
  ghost predicate ApprovedAt(s: Groups, run: seq<Turn>, i: nat, group: Uuid, user: Uuid)
    requires i < |run|
  {
    var m, r := After(s, run[..i]), run[i].request;
    && r.Resolve? && r.approve && Succeeds(s, run, i)
    && IsPending(m, r.request, group, user)
    && IsManager(m, group, r.actor)
    && var done := After(s, run[..i + 1]);
       r.request in done.requests && done.requests[r.request] ==
         JoinRequest(user, group, Approved, Some(r.actor), Some(run[i].now))
  }

  ghost predicate ApprovalThroughout(s: Groups, run: seq<Turn>, group: Uuid) {
    forall i :: 0 <= i <= |run| ==>
      group in After(s, run[..i]).groups && After(s, run[..i]).groups[group].joinMode == Approval
  }

  predicate DepartsFrom(r: Request, group: Uuid) { r.RemoveMember? && r.group == group }

  ghost predicate Approves(s: Groups, r: Request, group: Uuid) {
    r.Resolve? && r.approve && r.request in s.requests && s.requests[r.request].group == group
  }

  /** What `StepInApprovalMode` says, on the facts about one step. */
  lemma FactsInApprovalMode(s: Groups, t: Groups, now: int, r: Request, group: Uuid)
    requires Facts(s, t, now, r, group) && s.groups[group].joinMode == Approval
    ensures RosterStep(s, t, now, r, group)
  {
  }

  /** In approval mode a step adds at most one member, by approval, and drops at most one, by removal or leave. */
  ghost predicate RosterStep(s: Groups, t: Groups, now: int, r: Request, group: Uuid) {
    var before, after := RosterOf(s, group).Keys, RosterOf(t, group).Keys;
    if Approves(s, r, group) then
      var u := s.requests[r.request].user;
      && after == before + {u} && u !in before
      && IsPending(s, r.request, group, u) && IsManager(s, group, r.actor)
      && Lookup(t.requests, r.request) == Some(JoinRequest(u, group, Approved, Some(r.actor), Some(now)))
    else if DepartsFrom(r, group) then
      after == before - {r.target} && r.target in before
    else after == before
  }

  lemma StepInApprovalMode(s: Groups, t: Turn, group: Uuid)
    requires Inv(s) && group in s.groups && s.groups[group].joinMode == Approval && group in Then(s, t).groups
    ensures if Step(s, t.now, t.request).Ok? then RosterStep(s, Then(s, t), t.now, t.request, group)
        else Then(s, t) == s
  {
    if Step(s, t.now, t.request).Ok? {
      StepFacts(s, t.now, t.request, group);
      FactsInApprovalMode(s, Then(s, t), t.now, t.request, group);
    }
  }

  ghost function Approvals(s: Groups, run: seq<Turn>, group: Uuid): nat {
    if run == [] then 0
    else
      var init, last := run[..|run| - 1], run[|run| - 1];
      Approvals(s, init, group) +
      if Step(After(s, init), last.now, last.request).Ok? && Approves(After(s, init), last.request, group) then 1 else 0
  }

  ghost function Departures(s: Groups, run: seq<Turn>, group: Uuid): nat {
    if run == [] then 0
    else
      var init, last := run[..|run| - 1], run[|run| - 1];
      Departures(s, init, group) +
      if Step(After(s, init), last.now, last.request).Ok? && DepartsFrom(last.request, group) then 1 else 0
  }

  lemma ApprovalThroughoutInit(s: Groups, run: seq<Turn>, group: Uuid)
    requires run != [] && ApprovalThroughout(s, run, group)
    ensures var init := run[..|run| - 1];
            && ApprovalThroughout(s, init, group)
            && group in After(s, init).groups && After(s, init).groups[group].joinMode == Approval
            && group in After(s, run).groups
  {
    var init := run[..|run| - 1];
    forall i | 0 <= i <= |init| ensures init[..i] == run[..i] {}
    assert run[..|run|] == run && init[..|init|] == init;
    assert group in After(s, run[..|init|]).groups && group in After(s, run[..|run|]).groups;
  }

  lemma ApprovalPrefix(s: Groups, run: seq<Turn>, group: Uuid)
    requires run != [] && Inv(s) && ApprovalThroughout(s, run, group)
    ensures var init, last := run[..|run| - 1], run[|run| - 1];
            var m := After(s, init);
            && ApprovalThroughout(s, init, group) && Inv(m)
            && (if Step(m, last.now, last.request).Ok? then RosterStep(m, After(s, run), last.now, last.request, group)
                else After(s, run) == m)
  {
    var init := run[..|run| - 1];
    ApprovalThroughoutInit(s, run, group);
    RunKeepsInv(s, init);
    StepInApprovalMode(After(s, init), run[|run| - 1], group);
  }

  /**
    While a group's join mode stays approval, whoever became a member had a request approved in the
    run by someone who managed the group at that step.
  */
  lemma {:induction false} MembersJoinOnlyByApproval(s: Groups, run: seq<Turn>, group: Uuid, user: Uuid)
    requires Inv(s) && ApprovalThroughout(s, run, group)
    requires RoleOf(s, group, user).None? && RoleOf(After(s, run), group, user).Some?
    ensures exists i :: 0 <= i < |run| && ApprovedAt(s, run, i, group, user)
  {
    if run != [] {
      var init, last := run[..|run| - 1], run[|run| - 1];
      ApprovalPrefix(s, run, group);
      if RoleOf(After(s, init), group, user).Some? {
        MembersJoinOnlyByApproval(s, init, group, user);
        var i :| 0 <= i < |init| && ApprovedAt(s, init, i, group, user);
        PrefixOf(run, i);
        assert init[..i + 1] == run[..i + 1];
        assert ApprovedAt(s, run, i, group, user);
      } else {
        LastStepAdmits(s, run, group, user);
      }
    }
  }

  lemma LastStepAdmits(s: Groups, run: seq<Turn>, group: Uuid, user: Uuid)
    requires run != [] && Inv(s) && ApprovalThroughout(s, run, group)
    requires RoleOf(After(s, run[..|run| - 1]), group, user).None? && RoleOf(After(s, run), group, user).Some?
    ensures ApprovedAt(s, run, |run| - 1, group, user)
  {
    var init := run[..|run| - 1];
    ApprovalPrefix(s, run, group);
    assert run[..|run| - 1 + 1] == run;
    assert user in RosterOf(After(s, run), group).Keys && user !in RosterOf(After(s, init), group).Keys;
  }

  /**
    Meanwhile members are conserved: those at the end and those who departed are those at the start and
    those approved.
  */
  lemma {:induction false} MemberCountIsConserved(s: Groups, run: seq<Turn>, group: Uuid)
    requires Inv(s) && ApprovalThroughout(s, run, group)
    ensures |RosterOf(After(s, run), group)| + Departures(s, run, group)
         == |RosterOf(s, group)| + Approvals(s, run, group)
  {
    if run != [] {
      var init := run[..|run| - 1];
      ApprovalPrefix(s, run, group);
      MemberCountIsConserved(s, init, group);
      var m, last := After(s, init), run[|run| - 1];
      if Step(m, last.now, last.request).Ok? {
        RosterStepCounts(m, After(s, run), last.now, last.request, group);
      }
    }
  }

  lemma RosterStepCounts(s: Groups, t: Groups, now: int, r: Request, group: Uuid)
    requires RosterStep(s, t, now, r, group)
    ensures |RosterOf(t, group)| + (if DepartsFrom(r, group) then 1 else 0)
         == |RosterOf(s, group)| + (if Approves(s, r, group) then 1 else 0)
  {
    var before, after := RosterOf(s, group).Keys, RosterOf(t, group).Keys;
    assert |RosterOf(s, group)| == |before| && |RosterOf(t, group)| == |after|;
  }

  // ---------------------------------------------------------------- join requests

  /** A resolved request never changes again; it can only disappear with its group. */
  lemma {:induction false} ResolvedRequestsAreFinal(s: Groups, run: seq<Turn>, id: Uuid)
    requires Inv(s) && id in s.requests && s.requests[id].status != Pending
    requires Persists(s, run, s.requests[id].group)
    ensures id in After(s, run).requests && After(s, run).requests[id] == s.requests[id]
  {
    if run != [] {
      var init, last := run[..|run| - 1], run[|run| - 1];
      PrefixPersists(s, run, s.requests[id].group);
      ResolvedRequestsAreFinal(s, init, id);
      RunKeepsInv(s, init);
      RequestKeptByStep(After(s, init), last, id);
    }
  }

  lemma RequestKeptByStep(s: Groups, t: Turn, id: Uuid)
    requires Inv(s) && id in s.requests && s.requests[id].status != Pending && s.requests[id].group in Then(s, t).groups
    ensures id in Then(s, t).requests && Then(s, t).requests[id] == s.requests[id]
  {
    if Step(s, t.now, t.request).Ok? {
      StepFacts(s, t.now, t.request, s.requests[id].group);
      assert RowAfter(s, Then(s, t), t.now, t.request, id);
    }
  }

  /** No pending request belongs to a member of its group. */
  ghost predicate PendingAreOutsiders(s: Groups) {
    forall id :: id in s.requests && s.requests[id].status == Pending ==>
        RoleOf(s, s.requests[id].group, s.requests[id].user).None?
  }

  lemma PendingAfterFacts(s: Groups, t: Groups, now: int, r: Request, id: Uuid)
    requires PendingAreOutsiders(s) && RequestsConsistent(s)
    requires id in s.requests && id in t.requests && t.requests[id].status == Pending
    requires Facts(s, t, now, r, s.requests[id].group)
    ensures t.requests[id] == s.requests[id]
    ensures var g, u := s.requests[id].group, s.requests[id].user;
            RoleOf(t, g, u).None? || (r.JoinByCode? && r.actor == u && ByCode(s, r.code) == Some(g))
  {
    var g, u := s.requests[id].group, s.requests[id].user;
    assert RowAfter(s, t, now, r, id);
    if r.Resolve? && MoveOf(s, r, g) == Admit(u) {
      assert IsPending(s, r.request, g, u) && IsPending(s, id, g, u);
      assert false;
    }
  }

  lemma NewRequestIsOutsider(s: Groups, now: int, r: Request, id: Uuid)
    requires Step(s, now, r).Ok? && id in Step(s, now, r).value.requests && id !in s.requests
    ensures var t := Step(s, now, r).value; RoleOf(t, t.requests[id].group, t.requests[id].user).None?
    ensures !r.JoinByCode?
  {
  }

  /**
    A member with a pending request comes about exactly when somebody with a pending request joins by
    invite code, which the code allows once the owner has switched the group back to open.
  */
  lemma PendingMemberIff(s: Groups, t: Turn)
    requires Inv(s) && PendingAreOutsiders(s) && Step(s, t.now, t.request).Ok?
    ensures PendingAreOutsiders(Then(s, t)) <==>
            !(t.request.JoinByCode? && HasPending(s, ByCode(s, t.request.code).value, t.request.actor))
  {
    StepKeepsInv(s, t.now, t.request);
    if t.request.JoinByCode? && HasPending(s, ByCode(s, t.request.code).value, t.request.actor) {
      JoinWithPending(s, t);
    } else {
      forall id | id in Then(s, t).requests && Then(s, t).requests[id].status == Pending
        ensures RoleOf(Then(s, t), Then(s, t).requests[id].group, Then(s, t).requests[id].user).None?
      {
        PendingStaysOutside(s, t, id);
      }
    }
  }

  lemma JoinWithPending(s: Groups, t: Turn)
    requires Inv(s) && t.request.JoinByCode? && Joined(s, t.request.actor, t.request.code).Ok?
    requires HasPending(s, ByCode(s, t.request.code).value, t.request.actor)
    ensures !PendingAreOutsiders(Then(s, t))
  {
    var u := Joined(s, t.request.actor, t.request.code).value;
    var g, a := ByCode(s, t.request.code).value, t.request.actor;
    var id :| id in s.requests && IsPending(s, id, g, a);
    assert RoleOf(u, g, a).Some? && u.requests[id] == s.requests[id];
  }

  lemma PendingStaysOutside(s: Groups, t: Turn, id: Uuid)
    requires Inv(s) && Inv(Then(s, t)) && PendingAreOutsiders(s) && Step(s, t.now, t.request).Ok?
    requires !(t.request.JoinByCode? && HasPending(s, ByCode(s, t.request.code).value, t.request.actor))
    requires id in Then(s, t).requests && Then(s, t).requests[id].status == Pending
    ensures RoleOf(Then(s, t), Then(s, t).requests[id].group, Then(s, t).requests[id].user).None?
  {
    var u, r := Then(s, t), t.request;
    if id !in s.requests {
      NewRequestIsOutsider(s, t.now, r, id);
    } else {
      RowKeepsGroup(s, t.now, r, id);
      StepFacts(s, t.now, r, s.requests[id].group);
      PendingAfterFacts(s, u, t.now, r, id);
      assert IsPending(s, id, s.requests[id].group, s.requests[id].user);
    }
  }

  /** A request row never moves to another group. */
  lemma RowKeepsGroup(s: Groups, now: int, r: Request, id: Uuid)
    requires Step(s, now, r).Ok? && id < s.nextId && id in s.requests && id in Step(s, now, r).value.requests
    ensures Step(s, now, r).value.requests[id].group == s.requests[id].group
  {
  }

  /** Without such members an approval by a manager always succeeds and makes the requester a plain member. */
  lemma ApprovalSucceeds(s: Groups, now: int, actor: Uuid, id: Uuid)
    requires PendingAreOutsiders(s) && id in s.requests && s.requests[id].status == Pending
    requires IsManager(s, s.requests[id].group, actor)
    ensures Resolved(s, now, actor, id, true).Ok?
    ensures RoleOf(Resolved(s, now, actor, id, true).value, s.requests[id].group, s.requests[id].user)
        == Some(PlainMember)
  {
  }
}
