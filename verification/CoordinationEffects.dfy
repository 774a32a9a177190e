/**
  What each coordination mutation means, read off the rows before and after it: exactly when it is
  refused with which error, what it writes, and which events carry it.
*/
module CoordinationEffects {
  import opened Prelude
  import opened CoordinationModel

  predicate InGroup(c: Context, group: Uuid, user: Uuid) { group in c.rosters && user in c.rosters[group] }

  predicate Outsider(c: Context, group: Uuid, user: Uuid, e: Error) {
    || (e == GroupNotFound && group !in c.rosters)
    || (e == MemberRequired && group in c.rosters && user !in c.rosters[group])
  }

  /** The author, or somebody who leads the group. */
  predicate Edits(c: Context, group: Uuid, user: Uuid, author: Uuid) {
    author == user || (InGroup(c, group, user) && c.rosters[group][user] != PlainMember)
  }

  // ---------------------------------------------------------------- refusals

  /** The bound of the request, or the stored one. */
  function Given(bound: Option<Instant>, stored: Instant): Instant { if bound.Some? then bound.value else stored }

  predicate WindowRefused(c: Context, db: Db, r: Request, e: Error)
    requires r.UpdateWindow? || r.DeleteWindow?
  {
    Outsider(c, r.group, r.user, e) ||
    (InGroup(c, r.group, r.user) &&
     if r.window !in db.windows || db.windows[r.window].group != r.group then e == WindowNotFound
     else if !Edits(c, r.group, r.user, db.windows[r.window].user) then e == WindowEditForbidden
     else
       r.UpdateWindow? && e == WindowTimeInvalid &&
       var x := db.windows[r.window];
       var start, end := Given(r.newStart, x.startsAt), Given(r.newEnd, x.endsAt);
       start <= c.now || end <= start)
  }

  predicate StartPassed(c: Context, patch: SessionPatch) {
    patch.startsAt.To? && patch.startsAt.value.Some? && patch.startsAt.value.value <= c.now
  }

  predicate OddStatus(patch: SessionPatch) {
    && patch.status.To? && patch.status.value.Some?
    && patch.status.value.value != "proposed" && patch.status.value.value != "confirmed"
    && patch.status.value.value != "cancelled"
  }

  predicate PatchRefused(c: Context, patch: SessionPatch, e: Error) {
    if StartPassed(c, patch) then e == SessionTimeInvalid
    else if OddStatus(patch) then e == SessionStatusInvalid
    else e == NotNullViolation && (patch.startsAt == To(None) || patch.status == To(None))
  }

  predicate SessionRefused(c: Context, db: Db, r: Request, e: Error)
    requires r.UpdateSession? || r.DeleteSession?
  {
    Outsider(c, r.group, r.user, e) ||
    (InGroup(c, r.group, r.user) &&
     if r.session !in db.sessions || db.sessions[r.session].group != r.group then e == SessionNotFound
     else if !Edits(c, r.group, r.user, db.sessions[r.session].proposedBy) then e == SessionEditForbidden
     else r.UpdateSession? && PatchRefused(c, r.patch, e))
  }

  /** The request is refused with this error, and why. */
  predicate Refused(c: Context, db: Db, r: Request, e: Error) {
    match r
    case CreateWindow(g, u, s, t) => if t <= s || s <= c.now then e == WindowTimeInvalid else Outsider(c, g, u, e)
    case UpdateWindow(_, _, _, _, _) => WindowRefused(c, db, r, e)
    case DeleteWindow(_, _, _) => WindowRefused(c, db, r, e)
    case CreateSession(g, u, _, _, s, _) => if s <= c.now then e == SessionTimeInvalid else Outsider(c, g, u, e)
    case UpdateSession(_, _, _, _) => SessionRefused(c, db, r, e)
    case DeleteSession(_, _, _) => SessionRefused(c, db, r, e)
    case UpsertRsvp(g, id, u, response) =>
      if response != "in" && response != "out" && response != "maybe" then e == RsvpInvalid
      else
        Outsider(c, g, u, e) ||
        (InGroup(c, g, u) && e == SessionNotFound && (id !in db.sessions || db.sessions[id].group != g))
  }

  lemma MembershipIs(c: Context, group: Uuid, user: Uuid, author: Uuid)
    ensures MemberError(c, group, user).None? <==> InGroup(c, group, user)
    ensures forall e :: MemberError(c, group, user) == Some(e) <==> Outsider(c, group, user, e)
    ensures MayEdit(c, group, user, author) <==> Edits(c, group, user, author)
  {
  }

  lemma WindowRefusedIff(c: Context, db: Db, r: Request, e: Error)
    requires r.UpdateWindow? || r.DeleteWindow?
    ensures Step(c, db, r) == Err(e) <==> Refused(c, db, r, e)
  {
    MembershipIs(c, r.group, r.user, if r.window in db.windows then db.windows[r.window].user else 0);
  }

  lemma SessionRefusedIff(c: Context, db: Db, r: Request, e: Error)
    requires r.UpdateSession? || r.DeleteSession?
    ensures Step(c, db, r) == Err(e) <==> Refused(c, db, r, e)
  {
    MembershipIs(c, r.group, r.user, if r.session in db.sessions then db.sessions[r.session].proposedBy else 0);
  }

  lemma CreationRefusedIff(c: Context, db: Db, r: Request, e: Error)
    requires r.CreateWindow? || r.CreateSession? || r.UpsertRsvp?
    ensures Step(c, db, r) == Err(e) <==> Refused(c, db, r, e)
  {
    MembershipIs(c, r.group, r.user, 0);
  }

  /** For every mutation and every error: it is refused with that error exactly for the stated reason. */
  lemma RefusedIff(c: Context, db: Db, r: Request, e: Error)
    ensures Step(c, db, r) == Err(e) <==> Refused(c, db, r, e)
  {
    if r.UpdateWindow? || r.DeleteWindow? {
      WindowRefusedIff(c, db, r, e);
    } else if r.UpdateSession? || r.DeleteSession? {
      SessionRefusedIff(c, db, r, e);
    } else {
      CreationRefusedIff(c, db, r, e);
    }
  }

  // ---------------------------------------------------------------- what a mutation writes

  /** Row `id` is there afterwards, and every other row is as before. */
  ghost predicate OneRowPut<T>(before: map<Uuid, T>, after: map<Uuid, T>, id: Uuid) {
    after.Keys == before.Keys + {id} && forall k :: k in before && k != id ==> after[k] == before[k]
  }

  ghost predicate OneRowGone<T>(before: map<Uuid, T>, after: map<Uuid, T>, id: Uuid) {
    after.Keys == before.Keys - {id} && forall k :: k in after ==> after[k] == before[k]
  }

  /** One entry is appended; entries that name what was deleted lose the reference. */
  ghost predicate Logged(
    before: seq<Activity>, after: seq<Activity>, entry: Activity, goneSession: Option<Uuid>, goneWindow: Option<Uuid>)
  {
    && |after| == |before| + 1
    && forall i :: 0 <= i < |after| ==>
         var x := if i < |before| then before[i] else entry;
         && after[i].session == (if x.session == goneSession then None else x.session)
         && after[i].window == (if x.window == goneWindow then None else x.window)
         && after[i].group == x.group && after[i].actor == x.actor && after[i].kind == x.kind
         && after[i].createdAt == x.createdAt
  }

  /** The second event is the activity of this user about this row. */
  ghost predicate Reported(
    c: Context, r: Request, e: Effect, kind: Kind, session: Option<Uuid>, window: Option<Uuid>)
  {
    && |e.events| == 2 && e.events[1].ActivityRecorded? && e.events[1].group == r.group
    && (var a := e.events[1].activity;
        && a.group == r.group && a.actor == r.user && a.kind == kind && a.session == session && a.window == window
        && a.createdAt == c.now)
  }

  ghost predicate WindowPut(c: Context, db: Db, r: Request, e: Effect)
    requires r.CreateWindow? || r.UpdateWindow?
  {
    var id := if r.CreateWindow? then db.nextId else r.window;
    && OneRowPut(db.windows, e.db.windows, id)
    && e.db.sessions == db.sessions && e.db.rsvps == db.rsvps
    && (var y := e.db.windows[id];
        if r.CreateWindow? then
          && id !in db.windows && e.db.nextId == id + 1
          && y.group == r.group && y.user == r.user && y.startsAt == r.startsAt && y.endsAt == r.endsAt
          && y.createdAt == c.now && y.updatedAt == None
        else
          && id in db.windows && e.db.nextId == db.nextId
          && (var x := db.windows[id];
              && y.group == x.group == r.group && y.user == x.user && y.createdAt == x.createdAt
              && y.startsAt == Given(r.newStart, x.startsAt) && y.endsAt == Given(r.newEnd, x.endsAt)
              && y.updatedAt == if y.startsAt == x.startsAt && y.endsAt == x.endsAt then x.updatedAt
                                else Some(c.now)))
    && Reported(c, r, e, WindowChanged, None, Some(id)) && e.events[0] == WindowUpdated(r.group, id, e.db.windows[id])
    && Logged(db.activity, e.db.activity, e.events[1].activity, None, None)
  }

  ghost predicate WindowGone(c: Context, db: Db, r: Request, e: Effect)
    requires r.DeleteWindow?
  {
    && r.window in db.windows && OneRowGone(db.windows, e.db.windows, r.window)
    && e.db.sessions == db.sessions && e.db.rsvps == db.rsvps && e.db.nextId == db.nextId
    && Reported(c, r, e, WindowRemoved, None, Some(r.window)) && e.events[0] == WindowDeleted(r.group, r.window)
    && Logged(db.activity, e.db.activity, e.events[1].activity, None, Some(r.window))
  }

  /** The view shows the session with exactly the RSVPs that name it. */
  ghost predicate Shows(view: SessionView, db: Db, id: Uuid) {
    && id in db.sessions && view.session == db.sessions[id]
    && (forall k :: k in view.rsvps <==> k in db.rsvps && db.rsvps[k].session == id)
    && (forall k :: k in view.rsvps ==> view.rsvps[k] == db.rsvps[k])
  }

  ghost predicate SessionMade(c: Context, db: Db, r: Request, e: Effect)
    requires r.CreateSession?
  {
    var id := db.nextId;
    && id !in db.sessions && OneRowPut(db.sessions, e.db.sessions, id) && e.db.nextId == id + 1
    && e.db.windows == db.windows && e.db.rsvps == db.rsvps
    && (var y := e.db.sessions[id];
        && y.group == r.group && y.proposedBy == r.user && y.title == r.title && y.game == r.game
        && y.startsAt == r.startsAt && y.notes == r.notes && y.status == "proposed" && y.createdAt == c.now
        && y.updatedAt == None)
    && Reported(c, r, e, SessionProposal, Some(id), None)
    && e.events[0].SessionProposed? && e.events[0].group == r.group && e.events[0].id == id
    && Shows(e.events[0].view, e.db, id)
    && Logged(db.activity, e.db.activity, e.events[1].activity, None, None)
  }

  /** A column that may be null: kept, or set to what was given. */
  predicate Wrote<T(==)>(patch: Patch<T>, before: T, after: T) {
    match patch
    case Keep => after == before
    case To(given) => after == given
  }

  predicate WroteRequired<T(==)>(patch: Patch<Option<T>>, before: T, after: T) {
    match patch
    case Keep => after == before
    case To(given) => given.Some? && after == given.value
  }

  predicate Patches(patch: SessionPatch, x: Session, y: Session, now: Instant) {
    && Wrote(patch.title, x.title, y.title) && Wrote(patch.game, x.game, y.game)
    && WroteRequired(patch.startsAt, x.startsAt, y.startsAt)
    && Wrote(patch.notes, x.notes, y.notes) && WroteRequired(patch.status, x.status, y.status)
    && y.group == x.group && y.proposedBy == x.proposedBy && y.createdAt == x.createdAt
    && (y.updatedAt == Some(now) || (y == x))
    && (y.(updatedAt := x.updatedAt) == x ==> y == x)
  }

  ghost predicate SessionPatched(c: Context, db: Db, r: Request, e: Effect)
    requires r.UpdateSession?
  {
    var id := r.session;
    && id in db.sessions && OneRowPut(db.sessions, e.db.sessions, id) && e.db.nextId == db.nextId
    && e.db.windows == db.windows && e.db.rsvps == db.rsvps
    && Patches(r.patch, db.sessions[id], e.db.sessions[id], c.now)
    && Reported(c, r, e, SessionChanged, Some(id), None)
    && e.events[0].SessionUpdated? && e.events[0].group == r.group && e.events[0].id == id
    && Shows(e.events[0].view, e.db, id)
    && Logged(db.activity, e.db.activity, e.events[1].activity, None, None)
  }

  ghost predicate SessionGone(c: Context, db: Db, r: Request, e: Effect)
    requires r.DeleteSession?
  {
    && r.session in db.sessions && OneRowGone(db.sessions, e.db.sessions, r.session)
    && e.db.windows == db.windows && e.db.nextId == db.nextId
    && (forall k :: k in e.db.rsvps <==> k in db.rsvps && db.rsvps[k].session != r.session)
    && (forall k :: k in e.db.rsvps ==> e.db.rsvps[k] == db.rsvps[k])
    && Reported(c, r, e, SessionRemoved, Some(r.session), None) && e.events[0] == SessionDeleted(r.group, r.session)
    && Logged(db.activity, e.db.activity, e.events[1].activity, Some(r.session), None)
  }

  predicate Answer(rsvps: map<Uuid, Rsvp>, id: Uuid, session: Uuid, user: Uuid) {
    id in rsvps && rsvps[id].session == session && rsvps[id].user == user
  }

  /** Exactly one row holds the user's answer to the session, and it is the one given. */
  ghost predicate RsvpStored(c: Context, db: Db, r: Request, e: Effect)
    requires r.UpsertRsvp?
  {
    && Reported(c, r, e, RsvpChanged, Some(r.session), None) && e.events[0].RsvpUpdated? && e.events[0].group == r.group
    && (var id := e.events[0].id;
        && (forall k :: Answer(e.db.rsvps, k, r.session, r.user) <==> k == id)
        && OneRowPut(db.rsvps, e.db.rsvps, id)
        && e.events[0].rsvp == e.db.rsvps[id] && e.db.rsvps[id].response == r.response
        && (if id in db.rsvps then
              && Answer(db.rsvps, id, r.session, r.user) && e.db.nextId == db.nextId
              && e.db.rsvps[id].updatedAt
                 == if db.rsvps[id].response == r.response then db.rsvps[id].updatedAt else c.now
            else
              && id == db.nextId && e.db.nextId == id + 1 && e.db.rsvps[id].updatedAt == c.now
              && forall k :: !Answer(db.rsvps, k, r.session, r.user)))
    && e.db.windows == db.windows && e.db.sessions == db.sessions
    && Logged(db.activity, e.db.activity, e.events[1].activity, None, None)
  }

  /** Exactly what the mutation wrote and published. */
  ghost predicate Means(c: Context, db: Db, r: Request, e: Effect) {
    match r
    case CreateWindow(_, _, _, _) => WindowPut(c, db, r, e)
    case UpdateWindow(_, _, _, _, _) => WindowPut(c, db, r, e)
    case DeleteWindow(_, _, _) => WindowGone(c, db, r, e)
    case CreateSession(_, _, _, _, _, _) => SessionMade(c, db, r, e)
    case UpdateSession(_, _, _, _) => SessionPatched(c, db, r, e)
    case DeleteSession(_, _, _) => SessionGone(c, db, r, e)
    case UpsertRsvp(_, _, _, _) => RsvpStored(c, db, r, e)
  }

  lemma WindowPutMeans(c: Context, db: Db, r: Request)
    requires Valid(db) && (r.CreateWindow? || r.UpdateWindow?) && Step(c, db, r).Ok?
    ensures WindowPut(c, db, r, Step(c, db, r).value)
  {
  }

  lemma WindowGoneMeans(c: Context, db: Db, r: Request)
    requires Valid(db) && r.DeleteWindow? && Step(c, db, r).Ok?
    ensures WindowGone(c, db, r, Step(c, db, r).value)
  {
  }

  lemma SessionMadeMeans(c: Context, db: Db, r: Request)
    requires Valid(db) && r.CreateSession? && Step(c, db, r).Ok?
    ensures SessionMade(c, db, r, Step(c, db, r).value)
  {
  }

  lemma SessionPatchedMeans(c: Context, db: Db, r: Request)
    requires Valid(db) && r.UpdateSession? && Step(c, db, r).Ok?
    ensures SessionPatched(c, db, r, Step(c, db, r).value)
  {
  }

  lemma SessionGoneMeans(c: Context, db: Db, r: Request)
    requires Valid(db) && r.DeleteSession? && Step(c, db, r).Ok?
    ensures SessionGone(c, db, r, Step(c, db, r).value)
  {
  }

  lemma RsvpStoredMeans(c: Context, db: Db, r: Request)
    requires Valid(db) && r.UpsertRsvp? && Step(c, db, r).Ok?
    ensures RsvpStored(c, db, r, Step(c, db, r).value)
  {
    AnswerFound(db.rsvps, r.session, r.user);
    var e := Step(c, db, r).value;
    var id := e.events[0].id;
    assert id !in db.rsvps ==> forall k :: !Answer(db.rsvps, k, r.session, r.user);
    forall k: Uuid ensures Answer(e.db.rsvps, k, r.session, r.user) <==> k == id {
      assert k != id ==> (Answer(e.db.rsvps, k, r.session, r.user) <==> Answer(db.rsvps, k, r.session, r.user));
    }
  }

  /** The lookup finds the user's one answer, if there is one. */
  lemma AnswerFound(rsvps: map<Uuid, Rsvp>, session: Uuid, user: Uuid)
    requires OnePerUser(rsvps)
    ensures RsvpId(rsvps, session, user).Some? ==> Answer(rsvps, RsvpId(rsvps, session, user).value, session, user)
    ensures forall k: Uuid :: Answer(rsvps, k, session, user) ==> RsvpId(rsvps, session, user) == Some(k)
  {
    forall k: Uuid | Answer(rsvps, k, session, user) ensures RsvpId(rsvps, session, user) == Some(k) {
      assert IsRsvpOf(rsvps, k, session, user);
    }
  }

  /** Every successful mutation writes exactly what it says, and publishes the row it wrote. */
  lemma StepMeans(c: Context, db: Db, r: Request)
    requires Valid(db) && Step(c, db, r).Ok?
    ensures Means(c, db, r, Step(c, db, r).value)
  {
    match r
    case CreateWindow(_, _, _, _) => WindowPutMeans(c, db, r);
    case UpdateWindow(_, _, _, _, _) => WindowPutMeans(c, db, r);
    case DeleteWindow(_, _, _) => WindowGoneMeans(c, db, r);
    case CreateSession(_, _, _, _, _, _) => SessionMadeMeans(c, db, r);
    case UpdateSession(_, _, _, _) => SessionPatchedMeans(c, db, r);
    case DeleteSession(_, _, _) => SessionGoneMeans(c, db, r);
    case UpsertRsvp(_, _, _, _) => RsvpStoredMeans(c, db, r);
  }
}
