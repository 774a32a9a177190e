/**
  Scheduled ready windows, proposed sessions, RSVPs and the group activity log: the tables, every
  mutation of the coordination service, and the events published after the commit.
*/
module CoordinationModel {
  import opened Prelude

  type Instant = int

  /** Group memberships as the mutation sees them: a key exists iff the group exists. */
  type Rosters = map<Uuid, map<Uuid, Role>>

  datatype Window = Window(
    group: Uuid, user: Uuid, startsAt: Instant, endsAt: Instant, createdAt: Instant, updatedAt: Option<Instant>)

  datatype Session = Session(
    group: Uuid, proposedBy: Uuid, title: Option<string>, game: Option<string>, startsAt: Instant,
    notes: Option<string>, status: string, createdAt: Instant, updatedAt: Option<Instant>)

  datatype Rsvp = Rsvp(session: Uuid, user: Uuid, response: string, updatedAt: Instant)

  datatype Kind = WindowChanged | WindowRemoved | SessionProposal | SessionChanged | SessionRemoved | RsvpChanged

  datatype Activity = Activity(
    group: Uuid, actor: Uuid, kind: Kind, session: Option<Uuid>, window: Option<Uuid>, createdAt: Instant)

  datatype Db = Db(
    windows: map<Uuid, Window>, sessions: map<Uuid, Session>, rsvps: map<Uuid, Rsvp>,
    activity: seq<Activity>, nextId: Uuid)

  const EMPTY_DB := Db(map[], map[], map[], [], 0)

  datatype Error =
    | GroupNotFound | MemberRequired
    | WindowNotFound | WindowTimeInvalid | WindowEditForbidden
    | SessionNotFound | SessionTimeInvalid | SessionStatusInvalid | SessionEditForbidden
    | RsvpInvalid
    | NotNullViolation

  /** A session together with its RSVPs, as the REST listing and the session events show it. */
  datatype SessionView = SessionView(session: Session, rsvps: map<Uuid, Rsvp>)

  datatype Event =
    | WindowUpdated(group: Uuid, id: Uuid, window: Window)
    | WindowDeleted(group: Uuid, id: Uuid)
    | SessionProposed(group: Uuid, id: Uuid, view: SessionView)
    | SessionUpdated(group: Uuid, id: Uuid, view: SessionView)
    | SessionDeleted(group: Uuid, id: Uuid)
    | RsvpUpdated(group: Uuid, id: Uuid, rsvp: Rsvp)
    | ActivityRecorded(group: Uuid, activity: Activity)

  datatype Effect = Effect(db: Db, events: seq<Event>)

  function Patched<T>(p: Patch<T>, current: T): T {
    match p
    case Keep => current
    case To(v) => v
  }

  datatype SessionPatch = SessionPatch(
    title: Patch<Option<string>>, game: Patch<Option<string>>, startsAt: Patch<Option<Instant>>,
    notes: Patch<Option<string>>, status: Patch<Option<string>>)

  datatype Request =
    | CreateWindow(group: Uuid, user: Uuid, startsAt: Instant, endsAt: Instant)
    | UpdateWindow(group: Uuid, window: Uuid, user: Uuid, newStart: Option<Instant>, newEnd: Option<Instant>)
    | DeleteWindow(group: Uuid, window: Uuid, user: Uuid)
    | CreateSession(group: Uuid, user: Uuid, title: Option<string>, game: Option<string>, startsAt: Instant,
        notes: Option<string>)
    | UpdateSession(group: Uuid, session: Uuid, user: Uuid, patch: SessionPatch)
    | DeleteSession(group: Uuid, session: Uuid, user: Uuid)
    | UpsertRsvp(group: Uuid, session: Uuid, user: Uuid, response: string)

  /** What a request sees besides the coordination tables: the clock and the memberships. */
  datatype Context = Context(rosters: Rosters, now: Instant)

  // ---------------------------------------------------------------- guards

  function MemberError(c: Context, group: Uuid, user: Uuid): Option<Error> {
    if group !in c.rosters then Some(GroupNotFound)
    else if user !in c.rosters[group] then Some(MemberRequired)
    else None
  }

  predicate MayEdit(c: Context, group: Uuid, user: Uuid, author: Uuid) {
    author == user || (group in c.rosters && user in c.rosters[group] && Manages(c.rosters[group][user]))
  }

  predicate KnownStatus(status: string) { status in {"proposed", "confirmed", "cancelled"} }

  predicate KnownResponse(response: string) { response in {"in", "out", "maybe"} }

  /** The session row after the attribute assignments; `updated_at` moves only if some column changed. */
  function PatchedSession(s: Session, patch: SessionPatch, startsAt: Instant, status: string, now: Instant): Session {
    var t := s.(title := Patched(patch.title, s.title), game := Patched(patch.game, s.game),
                startsAt := startsAt, notes := Patched(patch.notes, s.notes), status := status);
    if t == s then s else t.(updatedAt := Some(now))
  }

  ghost predicate IsRsvpOf(rsvps: map<Uuid, Rsvp>, id: Uuid, session: Uuid, user: Uuid) {
    id in rsvps && rsvps[id].session == session && rsvps[id].user == user
  }

  ghost function RsvpId(rsvps: map<Uuid, Rsvp>, session: Uuid, user: Uuid): Option<Uuid> {
    if exists id :: IsRsvpOf(rsvps, id, session, user) then
      var id :| IsRsvpOf(rsvps, id, session, user);
      Some(id)
    else None
  }

  function RsvpsOf(rsvps: map<Uuid, Rsvp>, session: Uuid): map<Uuid, Rsvp> {
    map id | id in rsvps && rsvps[id].session == session :: rsvps[id]
  }

  function WithoutSession(log: seq<Activity>, id: Uuid): (r: seq<Activity>)
    ensures |r| == |log|
    ensures forall i :: 0 <= i < |log| ==>
              r[i] == if log[i].session == Some(id) then log[i].(session := None) else log[i]
  {
    seq(|log|, i requires 0 <= i < |log| => if log[i].session == Some(id) then log[i].(session := None) else log[i])
  }

  function WithoutWindow(log: seq<Activity>, id: Uuid): (r: seq<Activity>)
    ensures |r| == |log|
    ensures forall i :: 0 <= i < |log| ==>
              r[i] == if log[i].window == Some(id) then log[i].(window := None) else log[i]
  {
    seq(|log|, i requires 0 <= i < |log| => if log[i].window == Some(id) then log[i].(window := None) else log[i])
  }

  // ---------------------------------------------------------------- mutations

  function WindowCreated(c: Context, db: Db, g: Uuid, u: Uuid, s: Instant, e: Instant): Result<Effect, Error> {
    if e <= s || s <= c.now then Err(WindowTimeInvalid)
    else if MemberError(c, g, u).Some? then Err(MemberError(c, g, u).value)
    else
      var w := Window(g, u, s, e, c.now, None);
      var a := Activity(g, u, WindowChanged, None, Some(db.nextId), c.now);
      Ok(Effect(db.(windows := db.windows[db.nextId := w], activity := db.activity + [a], nextId := db.nextId + 1),
                [WindowUpdated(g, db.nextId, w), ActivityRecorded(g, a)]))
  }

  function WindowEdited(
    c: Context, db: Db, g: Uuid, id: Uuid, u: Uuid, s: Option<Instant>, e: Option<Instant>): Result<Effect, Error>
  {
    if MemberError(c, g, u).Some? then Err(MemberError(c, g, u).value)
    else if id !in db.windows || db.windows[id].group != g then Err(WindowNotFound)
    else
      var w := db.windows[id];
      var start, end := if s.Some? then s.value else w.startsAt, if e.Some? then e.value else w.endsAt;
      if !MayEdit(c, g, u, w.user) then Err(WindowEditForbidden)
      else if end <= start || start <= c.now then Err(WindowTimeInvalid)
      else
        var w' := if start == w.startsAt && end == w.endsAt then w
                  else w.(startsAt := start, endsAt := end, updatedAt := Some(c.now));
        var a := Activity(g, u, WindowChanged, None, Some(id), c.now);
        Ok(Effect(db.(windows := db.windows[id := w'], activity := db.activity + [a]),
                  [WindowUpdated(g, id, w'), ActivityRecorded(g, a)]))
  }

  function WindowDropped(c: Context, db: Db, g: Uuid, id: Uuid, u: Uuid): Result<Effect, Error> {
    if MemberError(c, g, u).Some? then Err(MemberError(c, g, u).value)
    else if id !in db.windows || db.windows[id].group != g then Err(WindowNotFound)
    else if !MayEdit(c, g, u, db.windows[id].user) then Err(WindowEditForbidden)
    else
      var a := Activity(g, u, WindowRemoved, None, Some(id), c.now);
      Ok(Effect(db.(windows := db.windows - {id}, activity := WithoutWindow(db.activity + [a], id)),
                [WindowDeleted(g, id), ActivityRecorded(g, a)]))
  }

  function SessionCreated(
    c: Context, db: Db, g: Uuid, u: Uuid, title: Option<string>, game: Option<string>, s: Instant,
    notes: Option<string>)
    : Result<Effect, Error>
  {
    if s <= c.now then Err(SessionTimeInvalid)
    else if MemberError(c, g, u).Some? then Err(MemberError(c, g, u).value)
    else
      var x := Session(g, u, title, game, s, notes, "proposed", c.now, None);
      var a := Activity(g, u, SessionProposal, Some(db.nextId), None, c.now);
      Ok(Effect(db.(sessions := db.sessions[db.nextId := x], activity := db.activity + [a], nextId := db.nextId + 1),
                [SessionProposed(g, db.nextId, SessionView(x, map[])), ActivityRecorded(g, a)]))
  }

  function SessionEdited(c: Context, db: Db, g: Uuid, id: Uuid, u: Uuid, patch: SessionPatch): Result<Effect, Error> {
    if MemberError(c, g, u).Some? then Err(MemberError(c, g, u).value)
    else if id !in db.sessions || db.sessions[id].group != g then Err(SessionNotFound)
    else
      var x := db.sessions[id];
      if !MayEdit(c, g, u, x.proposedBy) then Err(SessionEditForbidden)
      else if patch.startsAt.To? && patch.startsAt.value.Some? && patch.startsAt.value.value <= c.now
          then Err(SessionTimeInvalid)
      else if patch.status.To? && patch.status.value.Some? && !KnownStatus(patch.status.value.value)
          then Err(SessionStatusInvalid)
      else if patch.startsAt == To(None) || patch.status == To(None) then Err(NotNullViolation)
      else
        var startsAt, status := Patched(patch.startsAt, Some(x.startsAt)).value,
            Patched(patch.status, Some(x.status)).value;
        var x' := PatchedSession(x, patch, startsAt, status, c.now);
        var a := Activity(g, u, SessionChanged, Some(id), None, c.now);
        Ok(Effect(db.(sessions := db.sessions[id := x'], activity := db.activity + [a]),
                  [SessionUpdated(g, id, SessionView(x', RsvpsOf(db.rsvps, id))), ActivityRecorded(g, a)]))
  }

  function SessionDropped(c: Context, db: Db, g: Uuid, id: Uuid, u: Uuid): Result<Effect, Error> {
    if MemberError(c, g, u).Some? then Err(MemberError(c, g, u).value)
    else if id !in db.sessions || db.sessions[id].group != g then Err(SessionNotFound)
    else if !MayEdit(c, g, u, db.sessions[id].proposedBy) then Err(SessionEditForbidden)
    else
      var a := Activity(g, u, SessionRemoved, Some(id), None, c.now);
      Ok(Effect(db.(sessions := db.sessions - {id}, rsvps := db.rsvps - RsvpsOf(db.rsvps, id).Keys,
                    activity := WithoutSession(db.activity + [a], id)),
                [SessionDeleted(g, id), ActivityRecorded(g, a)]))
  }

  ghost function RsvpPut(c: Context, db: Db, g: Uuid, id: Uuid, u: Uuid, response: string): Result<Effect, Error> {
    if !KnownResponse(response) then Err(RsvpInvalid)
    else if MemberError(c, g, u).Some? then Err(MemberError(c, g, u).value)
    else if id !in db.sessions || db.sessions[id].group != g then Err(SessionNotFound)
    else
      var existing := RsvpId(db.rsvps, id, u);
      var rid := if existing.Some? then existing.value else db.nextId;
      var v := if existing.Some? && db.rsvps[rid].response == response then db.rsvps[rid]
          else Rsvp(id, u, response, c.now);
      var a := Activity(g, u, RsvpChanged, Some(id), None, c.now);
      Ok(Effect(db.(rsvps := db.rsvps[rid := v], activity := db.activity + [a],
                    nextId := if existing.Some? then db.nextId else db.nextId + 1),
                [RsvpUpdated(g, rid, v), ActivityRecorded(g, a)]))
  }

  ghost function Step(c: Context, db: Db, r: Request): Result<Effect, Error> {
    match r
    case CreateWindow(g, u, s, e) => WindowCreated(c, db, g, u, s, e)
    case UpdateWindow(g, id, u, s, e) => WindowEdited(c, db, g, id, u, s, e)
    case DeleteWindow(g, id, u) => WindowDropped(c, db, g, id, u)
    case CreateSession(g, u, title, game, s, notes) => SessionCreated(c, db, g, u, title, game, s, notes)
    case UpdateSession(g, id, u, patch) => SessionEdited(c, db, g, id, u, patch)
    case DeleteSession(g, id, u) => SessionDropped(c, db, g, id, u)
    case UpsertRsvp(g, id, u, response) => RsvpPut(c, db, g, id, u, response)
  }

  // ---------------------------------------------------------------- table invariants

  ghost predicate OnePerUser(rsvps: map<Uuid, Rsvp>) {
    forall a, b | a in rsvps && b in rsvps && rsvps[a].session == rsvps[b].session && rsvps[a].user == rsvps[b].user ::
      a == b
  }

  ghost predicate Valid(db: Db) {
    && (forall id :: id in db.windows ==> id < db.nextId && db.windows[id].startsAt < db.windows[id].endsAt)
    && (forall id :: id in db.sessions ==> id < db.nextId && KnownStatus(db.sessions[id].status))
    && (forall id :: id in db.rsvps ==>
          id < db.nextId && db.rsvps[id].session in db.sessions && KnownResponse(db.rsvps[id].response))
    && OnePerUser(db.rsvps)
    && (forall i :: 0 <= i < |db.activity| ==>
          && (db.activity[i].session.Some? ==> db.activity[i].session.value in db.sessions)
          && (db.activity[i].window.Some? ==> db.activity[i].window.value in db.windows))
  }

  lemma WindowCreatedKeepsValid(c: Context, db: Db, g: Uuid, u: Uuid, s: Instant, e: Instant)
    requires Valid(db)
    ensures var r := WindowCreated(c, db, g, u, s, e); r.Ok? ==> Valid(r.value.db)
  {
  }

  lemma WindowEditedKeepsValid(c: Context, db: Db, g: Uuid, id: Uuid, u: Uuid, s: Option<Instant>, e: Option<Instant>)
    requires Valid(db)
    ensures var r := WindowEdited(c, db, g, id, u, s, e); r.Ok? ==> Valid(r.value.db)
  {
  }

  lemma WindowDroppedKeepsValid(c: Context, db: Db, g: Uuid, id: Uuid, u: Uuid)
    requires Valid(db)
    ensures var r := WindowDropped(c, db, g, id, u); r.Ok? ==> Valid(r.value.db)
  {
  }

  lemma SessionCreatedKeepsValid(
    c: Context, db: Db, g: Uuid, u: Uuid, title: Option<string>, game: Option<string>, s: Instant,
    notes: Option<string>)
    requires Valid(db)
    ensures var r := SessionCreated(c, db, g, u, title, game, s, notes); r.Ok? ==> Valid(r.value.db)
  {
  }

  lemma SessionEditedKeepsValid(c: Context, db: Db, g: Uuid, id: Uuid, u: Uuid, patch: SessionPatch)
    requires Valid(db)
    ensures var r := SessionEdited(c, db, g, id, u, patch); r.Ok? ==> Valid(r.value.db)
  {
  }

  lemma SessionDroppedKeepsValid(c: Context, db: Db, g: Uuid, id: Uuid, u: Uuid)
    requires Valid(db)
    ensures var r := SessionDropped(c, db, g, id, u); r.Ok? ==> Valid(r.value.db)
  {
  }

  lemma RsvpPutKeepsValid(c: Context, db: Db, g: Uuid, id: Uuid, u: Uuid, response: string)
    requires Valid(db)
    ensures var r := RsvpPut(c, db, g, id, u, response); r.Ok? ==> Valid(r.value.db)
  {
    var r := RsvpPut(c, db, g, id, u, response);
    if r.Ok? {
      forall a | a in db.rsvps && db.rsvps[a].session == id && db.rsvps[a].user == u
        ensures RsvpId(db.rsvps, id, u) == Some(a)
      {
        assert IsRsvpOf(db.rsvps, a, id, u);
      }
    }
  }

  /** Every successful mutation keeps the tables consistent. */
  lemma StepKeepsValid(c: Context, db: Db, r: Request)
    requires Valid(db)
    ensures Step(c, db, r).Ok? ==> Valid(Step(c, db, r).value.db)
  {
    match r
    case CreateWindow(g, u, s, e) => WindowCreatedKeepsValid(c, db, g, u, s, e);
    case UpdateWindow(g, id, u, s, e) => WindowEditedKeepsValid(c, db, g, id, u, s, e);
    case DeleteWindow(g, id, u) => WindowDroppedKeepsValid(c, db, g, id, u);
    case CreateSession(g, u, title, game, s, notes) => SessionCreatedKeepsValid(c, db, g, u, title, game, s, notes);
    case UpdateSession(g, id, u, patch) => SessionEditedKeepsValid(c, db, g, id, u, patch);
    case DeleteSession(g, id, u) => SessionDroppedKeepsValid(c, db, g, id, u);
    case UpsertRsvp(g, id, u, response) => RsvpPutKeepsValid(c, db, g, id, u, response);
  }
}
