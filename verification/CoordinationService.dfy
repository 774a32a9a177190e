/** The coordination service over its repository, as an object that owns the tables. */
module CoordinationService {
  import opened Prelude
  import opened CoordinationModel
  import opened CoordinationEffects
  import opened CoordinationReplay

  type Row<+T> = (Uuid, T)

  datatype SessionResponse = SessionResponse(id: Uuid, session: Session, rsvps: seq<Row<Rsvp>>)

  /** The naive per-session filter, in the order of the rows. */
  function RsvpsFor(rows: seq<Row<Rsvp>>, session: Uuid): seq<Row<Rsvp>> {
    if rows == [] then []
    else
      var last := rows[|rows| - 1];
      RsvpsFor(rows[..|rows| - 1], session) + if last.1.session == session then [last] else []
  }

  function ToMap<T>(rows: seq<Row<T>>): map<Uuid, T> {
    if rows == [] then map[]
    else ToMap(rows[..|rows| - 1])[rows[|rows| - 1].0 := rows[|rows| - 1].1]
  }

  predicate DistinctIds<T>(rows: seq<Row<T>>) {
    forall i, j :: 0 <= i < j < |rows| ==> rows[i].0 != rows[j].0
  }

  /** `by_session_id.get(session, [])`. */
  function Bucket(bySession: map<Uuid, seq<Row<Rsvp>>>, session: Uuid): seq<Row<Rsvp>> {
    if session in bySession then bySession[session] else []
  }

  /** `setdefault(row.session_id, []).append(row)`. */
  function PutInBucket(bySession: map<Uuid, seq<Row<Rsvp>>>, row: Row<Rsvp>): map<Uuid, seq<Row<Rsvp>>> {
    bySession[row.1.session := Bucket(bySession, row.1.session) + [row]]
  }

  lemma BucketsGrow(bySession: map<Uuid, seq<Row<Rsvp>>>, seen: seq<Row<Rsvp>>, row: Row<Rsvp>)
    requires forall s :: Bucket(bySession, s) == RsvpsFor(seen, s)
    ensures forall s :: Bucket(PutInBucket(bySession, row), s) == RsvpsFor(seen + [row], s)
  {
    forall s ensures Bucket(PutInBucket(bySession, row), s) == RsvpsFor(seen + [row], s) {
      RsvpsForSnoc(seen, row, s);
      assert Bucket(bySession, s) == RsvpsFor(seen, s);
    }
  }

  lemma RsvpsForSnoc(rows: seq<Row<Rsvp>>, row: Row<Rsvp>, session: Uuid)
    ensures RsvpsFor(rows + [row], session)
         == if row.1.session == session then RsvpsFor(rows, session) + [row] else RsvpsFor(rows, session)
  {
    assert (rows + [row])[..|rows|] == rows;
  }

  /** The response list as the map a client keeps. */
  function AsViews(responses: seq<SessionResponse>): map<Uuid, SessionView> {
    ToMap(seq(|responses|, i requires 0 <= i < |responses| =>
      (responses[i].id, SessionView(responses[i].session, ToMap(responses[i].rsvps)))))
  }

  /** Reply and new tables are what the specification of the mutation says; a raised error changes nothing. */
  ghost predicate Answers(before: Db, after: Db, reply: Result<seq<Event>, Error>, spec: Result<Effect, Error>) {
    match spec
    case Ok(e) => reply == Ok(e.events) && after == e.db
    case Err(x) => reply == Err(x) && after == before
  }

  class CoordinationService {
    var windows: map<Uuid, Window>
    var sessions: map<Uuid, Session>
    var rsvps: map<Uuid, Rsvp>
    var activity: seq<Activity>
    var nextId: Uuid

    ghost function Tables(): Db
      reads this
    {
      Db(windows, sessions, rsvps, activity, nextId)
    }

    constructor ()
      ensures Tables() == EMPTY_DB && Valid(Tables())
    {
      windows, sessions, rsvps, activity, nextId := map[], map[], map[], [], 0;
    }

    method RecordActivity(a: Activity)
      modifies this`activity
      ensures activity == old(activity) + [a]
    {
      activity := activity + [a];
    }

    method CreateScheduledReadyWindow(c: Context, group: Uuid, user: Uuid, startsAt: Instant, endsAt: Instant)
      returns (reply: Result<seq<Event>, Error>)
      modifies this
      ensures Answers(old(Tables()), Tables(), reply, WindowCreated(c, old(Tables()), group, user, startsAt, endsAt))
    {
      if endsAt <= startsAt {
        return Err(WindowTimeInvalid);
      }
      if startsAt <= c.now {
        return Err(WindowTimeInvalid);
      }
      var denied := MemberError(c, group, user);
      if denied.Some? {
        return Err(denied.value);
      }
      var id, window := nextId, Window(group, user, startsAt, endsAt, c.now, None);
      nextId := nextId + 1;
      windows := windows[id := window];
      var a := Activity(group, user, WindowChanged, None, Some(id), c.now);
      RecordActivity(a);
      return Ok([WindowUpdated(group, id, window), ActivityRecorded(group, a)]);
    }

    method UpdateScheduledReadyWindow(
      c: Context, group: Uuid, id: Uuid, user: Uuid, startsAt: Option<Instant>, endsAt: Option<Instant>)
      returns (reply: Result<seq<Event>, Error>)
      modifies this
      ensures Answers(old(Tables()), Tables(), reply, WindowEdited(c, old(Tables()), group, id, user, startsAt, endsAt))
    {
      var denied := MemberError(c, group, user);
      if denied.Some? {
        return Err(denied.value);
      }
      if id !in windows || windows[id].group != group {
        return Err(WindowNotFound);
      }
      var window := windows[id];
      if !MayEdit(c, group, user, window.user) {
        return Err(WindowEditForbidden);
      }
      var nextStart := if startsAt.Some? then startsAt.value else window.startsAt;
      var nextEnd := if endsAt.Some? then endsAt.value else window.endsAt;
      if nextEnd <= nextStart || nextStart <= c.now {
        return Err(WindowTimeInvalid);
      }
      // The repository assigns the given fields; the row's `updated_at` moves if it became dirty.
      if startsAt.Some? {
        window := window.(startsAt := startsAt.value);
      }
      if endsAt.Some? {
        window := window.(endsAt := endsAt.value);
      }
      if window != windows[id] {
        window := window.(updatedAt := Some(c.now));
      }
      windows := windows[id := window];
      var a := Activity(group, user, WindowChanged, None, Some(id), c.now);
      RecordActivity(a);
      return Ok([WindowUpdated(group, id, window), ActivityRecorded(group, a)]);
    }

    method DeleteScheduledReadyWindow(c: Context, group: Uuid, id: Uuid, user: Uuid)
      returns (reply: Result<seq<Event>, Error>)
      modifies this
      ensures Answers(old(Tables()), Tables(), reply, WindowDropped(c, old(Tables()), group, id, user))
    {
      var denied := MemberError(c, group, user);
      if denied.Some? {
        return Err(denied.value);
      }
      if id !in windows || windows[id].group != group {
        return Err(WindowNotFound);
      }
      if !MayEdit(c, group, user, windows[id].user) {
        return Err(WindowEditForbidden);
      }
      var a := Activity(group, user, WindowRemoved, None, Some(id), c.now);
      RecordActivity(a);
      windows := windows - {id};
      activity := WithoutWindow(activity, id);
      return Ok([WindowDeleted(group, id), ActivityRecorded(group, a)]);
    }

    method CreateSession(
      c: Context, group: Uuid, user: Uuid, title: Option<string>, game: Option<string>, startsAt: Instant,
      notes: Option<string>)
      returns (reply: Result<seq<Event>, Error>)
      modifies this
      ensures Answers(old(Tables()), Tables(), reply,
          SessionCreated(c, old(Tables()), group, user, title, game, startsAt, notes))
    {
      if startsAt <= c.now {
        return Err(SessionTimeInvalid);
      }
      var denied := MemberError(c, group, user);
      if denied.Some? {
        return Err(denied.value);
      }
      var id, session := nextId, Session(group, user, title, game, startsAt, notes, "proposed", c.now, None);
      nextId := nextId + 1;
      sessions := sessions[id := session];
      var a := Activity(group, user, SessionProposal, Some(id), None, c.now);
      RecordActivity(a);
      return Ok([SessionProposed(group, id, SessionView(session, map[])), ActivityRecorded(group, a)]);
    }

    /** The repository's partial update: the given fields are set one by one. */
    method PatchRow(row: Session, patch: SessionPatch, now: Instant) returns (session: Session)
      requires patch.startsAt != To(None) && patch.status != To(None)
      ensures session == PatchedSession(row, patch, Patched(patch.startsAt, Some(row.startsAt)).value,
                                        Patched(patch.status, Some(row.status)).value, now)
    {
      session := row;
      if patch.title.To? {
        session := session.(title := patch.title.value);
      }
      if patch.game.To? {
        session := session.(game := patch.game.value);
      }
      if patch.startsAt.To? {
        session := session.(startsAt := patch.startsAt.value.value);
      }
      if patch.notes.To? {
        session := session.(notes := patch.notes.value);
      }
      if patch.status.To? {
        session := session.(status := patch.status.value.value);
      }
      if session != row {
        session := session.(updatedAt := Some(now));
      }
    }

    method UpdateSession(c: Context, group: Uuid, id: Uuid, user: Uuid, patch: SessionPatch)
      returns (reply: Result<seq<Event>, Error>)
      modifies this
      ensures Answers(old(Tables()), Tables(), reply, SessionEdited(c, old(Tables()), group, id, user, patch))
    {
      var denied := MemberError(c, group, user);
      if denied.Some? {
        return Err(denied.value);
      }
      if id !in sessions || sessions[id].group != group {
        return Err(SessionNotFound);
      }
      if !MayEdit(c, group, user, sessions[id].proposedBy) {
        return Err(SessionEditForbidden);
      }
      if patch.startsAt.To? && patch.startsAt.value.Some? && patch.startsAt.value.value <= c.now {
        return Err(SessionTimeInvalid);
      }
      if patch.status.To? && patch.status.value.Some? && !KnownStatus(patch.status.value.value) {
        return Err(SessionStatusInvalid);
      }
      // An explicit null in a NOT NULL column fails at the flush.
      if patch.startsAt == To(None) || patch.status == To(None) {
        return Err(NotNullViolation);
      }
      var session := PatchRow(sessions[id], patch, c.now);
      sessions := sessions[id := session];
      var a := Activity(group, user, SessionChanged, Some(id), None, c.now);
      RecordActivity(a);
      return Ok([SessionUpdated(group, id, SessionView(session, RsvpsOf(rsvps, id))), ActivityRecorded(group, a)]);
    }

    method DeleteSession(c: Context, group: Uuid, id: Uuid, user: Uuid) returns (reply: Result<seq<Event>, Error>)
      modifies this
      ensures Answers(old(Tables()), Tables(), reply, SessionDropped(c, old(Tables()), group, id, user))
    {
      var denied := MemberError(c, group, user);
      if denied.Some? {
        return Err(denied.value);
      }
      if id !in sessions || sessions[id].group != group {
        return Err(SessionNotFound);
      }
      if !MayEdit(c, group, user, sessions[id].proposedBy) {
        return Err(SessionEditForbidden);
      }
      var a := Activity(group, user, SessionRemoved, Some(id), None, c.now);
      RecordActivity(a);
      sessions := sessions - {id};
      // ON DELETE CASCADE on the RSVPs, ON DELETE SET NULL on the activity rows.
      rsvps := rsvps - (set r | r in rsvps && rsvps[r].session == id);
      activity := WithoutSession(activity, id);
      return Ok([SessionDeleted(group, id), ActivityRecorded(group, a)]);
    }

    /** The repository's upsert: the row of this session and user is overwritten, or a new one added. */
    method UpsertRow(session: Uuid, user: Uuid, response: string, now: Instant) returns (rid: Uuid)
      requires OnePerUser(rsvps)
      modifies this`rsvps, this`nextId
      ensures var existing := RsvpId(old(rsvps), session, user);
              && rid == (if existing.Some? then existing.value else old(nextId))
              && nextId == (if existing.Some? then old(nextId) else old(nextId) + 1)
              && rsvps == old(rsvps)[rid := if existing.Some? && old(rsvps)[rid].response == response
                                            then old(rsvps)[rid] else Rsvp(session, user, response, now)]
    {
      var existing := set r | r in rsvps && rsvps[r].session == session && rsvps[r].user == user;
      if existing == {} {
        assert forall r :: r in rsvps && rsvps[r].session == session && rsvps[r].user == user ==> r in existing;
        rid := nextId;
        nextId := nextId + 1;
        rsvps := rsvps[rid := Rsvp(session, user, response, now)];
      } else {
        rid :| rid in existing;
        assert IsRsvpOf(rsvps, rid, session, user);
        if rsvps[rid].response != response {
          rsvps := rsvps[rid := Rsvp(session, user, response, now)];
        }
      }
    }

    method UpsertRsvp(c: Context, group: Uuid, id: Uuid, user: Uuid, response: string)
      returns (reply: Result<seq<Event>, Error>)
      requires Valid(Tables())
      modifies this
      ensures Answers(old(Tables()), Tables(), reply, RsvpPut(c, old(Tables()), group, id, user, response))
    {
      if !KnownResponse(response) {
        return Err(RsvpInvalid);
      }
      var denied := MemberError(c, group, user);
      if denied.Some? {
        return Err(denied.value);
      }
      if id !in sessions || sessions[id].group != group {
        return Err(SessionNotFound);
      }
      var rid := UpsertRow(id, user, response, c.now);
      var a := Activity(group, user, RsvpChanged, Some(id), None, c.now);
      RecordActivity(a);
      return Ok([RsvpUpdated(group, rid, rsvps[rid]), ActivityRecorded(group, a)]);
    }

    // ---------------------------------------------------------------- listings

    /** SELECT ... WHERE group_id = group, in whatever order the database gives. */
    method SelectSessions(group: Uuid) returns (rows: seq<Row<Session>>)
      ensures DistinctIds(rows)
      ensures ToMap(rows) == map id | id in sessions && sessions[id].group == group :: sessions[id]
    {
      rows := [];
      var waiting := set id | id in sessions && sessions[id].group == group;
      ghost var all := waiting;
      while waiting != {}
        invariant waiting <= all && DistinctIds(rows)
        invariant forall i :: 0 <= i < |rows| ==> rows[i].0 !in waiting
        invariant ToMap(rows) == map id | id in all - waiting :: sessions[id]
        decreases waiting
      {
        var id :| id in waiting;
        waiting := waiting - {id};
        ToMapSnoc(rows, (id, sessions[id]));
        rows := rows + [(id, sessions[id])];
      }
    }

    /** SELECT ... WHERE session_id IN ids. */
    method SelectRsvps(ids: set<Uuid>) returns (rows: seq<Row<Rsvp>>)
      ensures DistinctIds(rows)
      ensures ToMap(rows) == map id | id in rsvps && rsvps[id].session in ids :: rsvps[id]
    {
      rows := [];
      var waiting := set id | id in rsvps && rsvps[id].session in ids;
      ghost var all := waiting;
      while waiting != {}
        invariant waiting <= all && DistinctIds(rows)
        invariant forall i :: 0 <= i < |rows| ==> rows[i].0 !in waiting
        invariant ToMap(rows) == map id | id in all - waiting :: rsvps[id]
        decreases waiting
      {
        var id :| id in waiting;
        waiting := waiting - {id};
        ToMapSnoc(rows, (id, rsvps[id]));
        rows := rows + [(id, rsvps[id])];
      }
    }

    /** The grouping loop of `_sessions_to_response`: one dictionary entry per session that has rows. */
    static method GroupBySession(replies: seq<Row<Rsvp>>) returns (bySession: map<Uuid, seq<Row<Rsvp>>>)
      ensures forall s :: Bucket(bySession, s) == RsvpsFor(replies, s)
    {
      bySession := map[];
      var i := 0;
      while i < |replies|
        invariant 0 <= i <= |replies|
        invariant forall s :: Bucket(bySession, s) == RsvpsFor(replies[..i], s)
      {
        assert replies[..i + 1] == replies[..i] + [replies[i]];
        BucketsGrow(bySession, replies[..i], replies[i]);
        bySession := PutInBucket(bySession, replies[i]);
        i := i + 1;
      }
      assert replies[..|replies|] == replies;
    }

    /** Groups the RSVP rows once, then builds one response per session. */
    static method SessionsToResponse(rows: seq<Row<Session>>, replies: seq<Row<Rsvp>>)
      returns (responses: seq<SessionResponse>)
      ensures |responses| == |rows|
      ensures forall i :: 0 <= i < |rows| ==>
                responses[i] == SessionResponse(rows[i].0, rows[i].1, RsvpsFor(replies, rows[i].0))
    {
      var bySession := GroupBySession(replies);
      var i := 0;
      responses := [];
      while i < |rows|
        invariant 0 <= i <= |rows| && |responses| == i
        invariant forall j :: 0 <= j < i ==>
                    responses[j] == SessionResponse(rows[j].0, rows[j].1, RsvpsFor(replies, rows[j].0))
      {
        responses := responses + [SessionResponse(rows[i].0, rows[i].1, Bucket(bySession, rows[i].0))];
        i := i + 1;
      }
    }

    /** The REST listing is the group's sessions, each with exactly the RSVPs that name it. */
    method ListSessions(c: Context, group: Uuid, user: Uuid) returns (reply: Result<seq<SessionResponse>, Error>)
      ensures MemberError(c, group, user).Some? ==> reply == Err(MemberError(c, group, user).value)
      ensures MemberError(c, group, user).None? ==>
                reply.Ok? && AsViews(reply.value) == ListingOf(Tables(), group).sessions
      ensures reply.Ok? ==> forall i, j :: 0 <= i < j < |reply.value| ==> reply.value[i].id != reply.value[j].id
    {
      var denied := MemberError(c, group, user);
      if denied.Some? {
        return Err(denied.value);
      }
      var rows := SelectSessions(group);
      var ids := set i | 0 <= i < |rows| :: rows[i].0;
      var replies := [];
      if ids != {} {
        replies := SelectRsvps(ids);
      }
      var responses := SessionsToResponse(rows, replies);
      ViewsOfResponses(rows, replies, ids, rsvps, responses);
      return Ok(responses);
    }

    // -------------------------------------------------------------- mutations

    /**
      One mutation, as the application routes it to its handler. From consistent tables it leads to
      consistent tables, and its events bring every group's listing up to date.
    */
    method Handle(c: Context, r: Request) returns (reply: Result<seq<Event>, Error>)
      requires Valid(Tables())
      modifies this
      ensures Valid(Tables())
      ensures Answers(old(Tables()), Tables(), reply, Step(c, old(Tables()), r))
      ensures reply.Ok? ==> forall g ::
                Fold(ListingOf(old(Tables()), g), g, reply.value) == ListingOf(Tables(), g)
      ensures reply.Ok? ==> Means(c, old(Tables()), r, Effect(Tables(), reply.value))
      ensures reply.Err? ==> Tables() == old(Tables()) && Refused(c, old(Tables()), r, reply.error)
    {
      ghost var before := Tables();
      reply := Dispatch(c, r);
      if reply.Err? {
        RefusedIff(c, before, r, reply.error);
      } else {
        StepMeans(c, before, r);
        StepKeepsValid(c, before, r);
        forall g ensures Fold(ListingOf(before, g), g, reply.value) == ListingOf(Tables(), g) {
          StepReplays(c, before, r, g);
        }
      }
    }

    /** The routing table. */
    method Dispatch(c: Context, r: Request) returns (reply: Result<seq<Event>, Error>)
      requires Valid(Tables())
      modifies this
      ensures Answers(old(Tables()), Tables(), reply, Step(c, old(Tables()), r))
    {
      match r
      case CreateWindow(g, u, s, e) => reply := CreateScheduledReadyWindow(c, g, u, s, e);
      case UpdateWindow(g, id, u, s, e) => reply := UpdateScheduledReadyWindow(c, g, id, u, s, e);
      case DeleteWindow(g, id, u) => reply := DeleteScheduledReadyWindow(c, g, id, u);
      case CreateSession(g, u, title, game, s, notes) => reply := CreateSession(c, g, u, title, game, s, notes);
      case UpdateSession(g, id, u, patch) => reply := UpdateSession(c, g, id, u, patch);
      case DeleteSession(g, id, u) => reply := DeleteSession(c, g, id, u);
      case UpsertRsvp(g, id, u, response) => reply := UpsertRsvp(c, g, id, u, response);
    }

    /**
      Any number of mutations: the object goes through the states of the specified run, and what it
      publishes brings a client's earlier listing of any group up to date.
    */
    method Serve(run: seq<Turn>) returns (events: seq<Event>)
      requires Valid(Tables())
      modifies this
      ensures Valid(Tables()) && Tables() == DbAfter(old(Tables()), run) && events == Published(old(Tables()), run)
      ensures forall g :: Fold(ListingOf(old(Tables()), g), g, events) == ListingOf(Tables(), g)
    {
      events := [];
      var i := 0;
      while i < |run|
        invariant 0 <= i <= |run| && Valid(Tables())
        invariant Tables() == DbAfter(old(Tables()), run[..i]) && events == Published(old(Tables()), run[..i])
      {
        RunSnoc(old(Tables()), run, i);
        var reply := Handle(run[i].context, run[i].request);
        if reply.Ok? {
          events := events + reply.value;
        }
        i := i + 1;
      }
      assert run[..i] == run;
      forall g ensures Fold(ListingOf(old(Tables()), g), g, events) == ListingOf(Tables(), g) {
        ReplayGivesCurrentListing(old(Tables()), run, g);
      }
    }
  }

  // ---------------------------------------------------------------- lemmas about rows

  lemma ToMapSnoc<T>(rows: seq<Row<T>>, row: Row<T>)
    ensures ToMap(rows + [row]) == ToMap(rows)[row.0 := row.1]
  {
    assert (rows + [row])[..|rows|] == rows;
  }

  lemma {:induction false} ToMapKeys<T>(rows: seq<Row<T>>, id: Uuid)
    ensures id in ToMap(rows) <==> exists i :: 0 <= i < |rows| && rows[i].0 == id
  {
    if rows != [] {
      var init := rows[..|rows| - 1];
      ToMapKeys(init, id);
      if id in ToMap(init) {
        var i :| 0 <= i < |init| && init[i].0 == id;
        assert rows[i].0 == id;
      }
      if i :| 0 <= i < |rows| && rows[i].0 == id {
        if i < |init| {
          assert init[i].0 == id;
        }
      }
    }
  }

  lemma {:induction false} ToMapAt<T>(rows: seq<Row<T>>, i: nat)
    requires DistinctIds(rows) && i < |rows|
    ensures rows[i].0 in ToMap(rows) && ToMap(rows)[rows[i].0] == rows[i].1
  {
    var init := rows[..|rows| - 1];
    if i < |init| {
      assert init[i] == rows[i];
      ToMapAt(init, i);
    }
  }

  /** Filtering rows and filtering the table agree. */
  lemma {:induction false} FilterCommutes(rows: seq<Row<Rsvp>>, session: Uuid)
    requires DistinctIds(rows)
    ensures ToMap(RsvpsFor(rows, session)) == RsvpsOf(ToMap(rows), session)
  {
    if rows != [] {
      var init, last := rows[..|rows| - 1], rows[|rows| - 1];
      FilterCommutes(init, session);
      ToMapKeys(init, last.0);
      RsvpPutTouches(ToMap(init), last.0, last.1, session);
      if last.1.session == session {
        ToMapSnoc(RsvpsFor(init, session), last);
      } else {
        assert RsvpsFor(rows, session) == RsvpsFor(init, session);
      }
    }
  }

  lemma ViewsOfResponses(
    rows: seq<Row<Session>>, replies: seq<Row<Rsvp>>, ids: set<Uuid>, rsvps: map<Uuid, Rsvp>,
    responses: seq<SessionResponse>)
    requires DistinctIds(rows) && DistinctIds(replies) && |responses| == |rows|
    requires ids == set i | 0 <= i < |rows| :: rows[i].0
    requires ToMap(replies) == map id | id in rsvps && rsvps[id].session in ids :: rsvps[id]
    requires forall i :: 0 <= i < |rows| ==>
               responses[i] == SessionResponse(rows[i].0, rows[i].1, RsvpsFor(replies, rows[i].0))
    ensures AsViews(responses) == map id | id in ToMap(rows) :: SessionView(ToMap(rows)[id], RsvpsOf(rsvps, id))
  {
    var views := seq(|responses|, i requires 0 <= i < |responses| =>
      (responses[i].id, SessionView(responses[i].session, ToMap(responses[i].rsvps))));
    assert DistinctIds(views);
    var expected := map id | id in ToMap(rows) :: SessionView(ToMap(rows)[id], RsvpsOf(rsvps, id));
    forall id ensures id in ToMap(views) <==> id in expected {
      ToMapKeys(views, id);
      ToMapKeys(rows, id);
      if i :| 0 <= i < |rows| && rows[i].0 == id {
        assert views[i].0 == id;
      }
      if i :| 0 <= i < |views| && views[i].0 == id {
        assert rows[i].0 == id;
      }
    }
    forall id | id in expected ensures ToMap(views)[id] == expected[id] {
      ToMapKeys(rows, id);
      var i :| 0 <= i < |rows| && rows[i].0 == id;
      ToMapAt(rows, i);
      ToMapAt(views, i);
      FilterCommutes(replies, id);
      assert id in ids;
      assert RsvpsOf(ToMap(replies), id) == RsvpsOf(rsvps, id);
    }
  }
}
