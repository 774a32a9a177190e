/**
  A client that holds a REST listing of a group and receives the group's events: the listing it
  ends up with is the one the server would serve.
*/
module CoordinationReplay {
  import opened Prelude
  import opened CoordinationModel

  /** The windows and sessions of one group, keyed by id (order and display names are not part of it). */
  datatype Listing = Listing(windows: map<Uuid, Window>, sessions: map<Uuid, SessionView>)

  /** What the REST endpoints serve: every session shows the RSVP rows that name it. */
  function ListingOf(db: Db, group: Uuid): Listing {
    Listing(
      map id | id in db.windows && db.windows[id].group == group :: db.windows[id],
      map id | id in db.sessions && db.sessions[id].group == group ::
        SessionView(db.sessions[id], RsvpsOf(db.rsvps, id)))
  }

  /** The client's reaction to one event: insert or replace by id, or remove by id. */
  function Receive(l: Listing, group: Uuid, e: Event): Listing {
    if e.group != group then l
    else
      match e
      case WindowUpdated(_, id, w) => l.(windows := l.windows[id := w])
      case WindowDeleted(_, id) => l.(windows := l.windows - {id})
      case SessionProposed(_, id, v) => l.(sessions := l.sessions[id := v])
      case SessionUpdated(_, id, v) => l.(sessions := l.sessions[id := v])
      case SessionDeleted(_, id) => l.(sessions := l.sessions - {id})
      case RsvpUpdated(_, id, r) =>
        if r.session in l.sessions then
          var v := l.sessions[r.session];
          l.(sessions := l.sessions[r.session := v.(rsvps := v.rsvps[id := r])])
        else l
      case ActivityRecorded(_, _) => l
  }

  function Fold(l: Listing, group: Uuid, events: seq<Event>): Listing
    decreases |events|
  {
    if events == [] then l else Fold(Receive(l, group, events[0]), group, events[1..])
  }

  lemma {:induction false} FoldConcat(l: Listing, group: Uuid, a: seq<Event>, b: seq<Event>)
    ensures Fold(l, group, a + b) == Fold(Fold(l, group, a), group, b)
    decreases |a|
  {
    if a == [] {
      assert a + b == b;
    } else {
      assert (a + b)[1..] == a[1..] + b;
      FoldConcat(Receive(l, group, a[0]), group, a[1..], b);
    }
  }

  // ---------------------------------------------------------------- runs

  /** One request with the clock and memberships it saw; a request that raises changes and publishes nothing. */
  datatype Turn = Turn(context: Context, request: Request)

  ghost function DbAfter(db: Db, run: seq<Turn>): Db
    decreases |run|
  {
    if run == [] then db
    else
      var r := Step(run[0].context, db, run[0].request);
      DbAfter(if r.Ok? then r.value.db else db, run[1..])
  }

  ghost function Published(db: Db, run: seq<Turn>): seq<Event>
    decreases |run|
  {
    if run == [] then []
    else
      var r := Step(run[0].context, db, run[0].request);
      if r.Ok? then r.value.events + Published(r.value.db, run[1..]) else Published(db, run[1..])
  }

  lemma {:induction false} RunConcat(db: Db, a: seq<Turn>, b: seq<Turn>)
    ensures DbAfter(db, a + b) == DbAfter(DbAfter(db, a), b)
    ensures Published(db, a + b) == Published(db, a) + Published(DbAfter(db, a), b)
    decreases |a|
  {
    if a == [] {
      assert a + b == b;
    } else {
      assert (a + b)[1..] == a[1..] + b;
      var r := Step(a[0].context, db, a[0].request);
      RunConcat(if r.Ok? then r.value.db else db, a[1..], b);
    }
  }

  /** One more turn at the end. */
  lemma RunSnoc(db: Db, run: seq<Turn>, i: nat)
    requires i < |run|
    ensures var m := DbAfter(db, run[..i]); var r := Step(run[i].context, m, run[i].request);
            && DbAfter(db, run[..i + 1]) == (if r.Ok? then r.value.db else m)
            && Published(db, run[..i + 1]) == Published(db, run[..i]) + if r.Ok? then r.value.events else []
  {
    var m := DbAfter(db, run[..i]);
    assert run[..i + 1] == run[..i] + [run[i]];
    RunConcat(db, run[..i], [run[i]]);
    var r := Step(run[i].context, m, run[i].request);
    assert [run[i]][1..] == [];
    assert Published(m, [run[i]]) == if r.Ok? then r.value.events + [] else [];
  }

  lemma {:induction false} RunKeepsValid(db: Db, run: seq<Turn>)
    requires Valid(db)
    ensures Valid(DbAfter(db, run))
    decreases |run|
  {
    if run != [] {
      StepKeepsValid(run[0].context, db, run[0].request);
      var r := Step(run[0].context, db, run[0].request);
      RunKeepsValid(if r.Ok? then r.value.db else db, run[1..]);
    }
  }

  // ---------------------------------------------------------------- one mutation

  /** An event the server may publish when a client holding `l` is up to date: an RSVP names a listed session. */
  predicate Admissible(l: Listing, group: Uuid, e: Event) {
    e.group == group && e.RsvpUpdated? ==> e.rsvp.session in l.sessions
  }

  predicate AllAdmissible(l: Listing, group: Uuid, events: seq<Event>)
    decreases |events|
  {
    events == [] || (Admissible(l, group, events[0]) && AllAdmissible(Receive(l, group, events[0]), group, events[1..]))
  }

  lemma TwoEvents(l: Listing, group: Uuid, a: Event, b: Event)
    requires b.ActivityRecorded?
    ensures Fold(l, group, [a, b]) == Receive(l, group, a)
    ensures AllAdmissible(l, group, [a, b]) <==> Admissible(l, group, a)
  {
    assert [a, b][1..] == [b] && [b][1..] == [];
    assert Fold(Receive(l, group, a), group, [b]) == Fold(Receive(Receive(l, group, a), group, b), group, [b][1..]);
    assert AllAdmissible(Receive(l, group, a), group, [b]);
  }

  lemma RsvpsUntouched(before: map<Uuid, Rsvp>, after: map<Uuid, Rsvp>, session: Uuid)
    requires forall id ::
               (id in before && before[id].session == session) || (id in after && after[id].session == session) ==>
               id in before && id in after && before[id] == after[id]
    ensures RsvpsOf(before, session) == RsvpsOf(after, session)
  {
  }

  ghost predicate Replays(db: Db, group: Uuid, e: Effect) {
    && Fold(ListingOf(db, group), group, e.events) == ListingOf(e.db, group)
    && AllAdmissible(ListingOf(db, group), group, e.events)
  }

  /** An effect on windows alone, with one event about them. */
  lemma WindowEffectReplays(db: Db, group: Uuid, e: Effect)
    requires |e.events| == 2 && e.events[1].ActivityRecorded?
    requires e.events[0].WindowUpdated? || e.events[0].WindowDeleted?
    requires e.db.sessions == db.sessions && e.db.rsvps == db.rsvps
    requires ListingOf(e.db, group).windows == Receive(ListingOf(db, group), group, e.events[0]).windows
    ensures Replays(db, group, e)
  {
    TwoEvents(ListingOf(db, group), group, e.events[0], e.events[1]);
    assert e.events == [e.events[0], e.events[1]];
    assert ListingOf(e.db, group).sessions == ListingOf(db, group).sessions;
  }

  lemma PutWindowReplays(c: Context, db: Db, r: Request, group: Uuid)
    requires Valid(db) && Step(c, db, r).Ok? && (r.CreateWindow? || r.UpdateWindow?)
    ensures Replays(db, group, Step(c, db, r).value)
  {
    var e := Step(c, db, r).value;
    assert ListingOf(e.db, group).windows == Receive(ListingOf(db, group), group, e.events[0]).windows;
    WindowEffectReplays(db, group, e);
  }

  lemma DeleteWindowReplays(c: Context, db: Db, r: Request, group: Uuid)
    requires Valid(db) && Step(c, db, r).Ok? && r.DeleteWindow?
    ensures Replays(db, group, Step(c, db, r).value)
  {
    var e := Step(c, db, r).value;
    assert ListingOf(e.db, group).windows == Receive(ListingOf(db, group), group, e.events[0]).windows;
    WindowEffectReplays(db, group, e);
  }

  lemma CreateSessionReplays(c: Context, db: Db, r: Request, group: Uuid)
    requires Valid(db) && Step(c, db, r).Ok? && r.CreateSession?
    ensures Replays(db, group, Step(c, db, r).value)
  {
    var e := Step(c, db, r).value;
    TwoEvents(ListingOf(db, group), group, e.events[0], e.events[1]);
    assert RsvpsOf(db.rsvps, db.nextId) == map[];
    assert ListingOf(e.db, group).sessions == Receive(ListingOf(db, group), group, e.events[0]).sessions;
    assert ListingOf(e.db, group).windows == ListingOf(db, group).windows;
  }

  lemma UpdateSessionReplays(c: Context, db: Db, r: Request, group: Uuid)
    requires Valid(db) && Step(c, db, r).Ok? && r.UpdateSession?
    ensures Replays(db, group, Step(c, db, r).value)
  {
    var e := Step(c, db, r).value;
    TwoEvents(ListingOf(db, group), group, e.events[0], e.events[1]);
    assert ListingOf(e.db, group).sessions == Receive(ListingOf(db, group), group, e.events[0]).sessions;
    assert ListingOf(e.db, group).windows == ListingOf(db, group).windows;
  }

  lemma DeleteSessionReplays(c: Context, db: Db, r: Request, group: Uuid)
    requires Valid(db) && Step(c, db, r).Ok? && r.DeleteSession?
    ensures Replays(db, group, Step(c, db, r).value)
  {
    var e := Step(c, db, r).value;
    TwoEvents(ListingOf(db, group), group, e.events[0], e.events[1]);
    forall id | id in e.db.sessions ensures RsvpsOf(e.db.rsvps, id) == RsvpsOf(db.rsvps, id) {
      RsvpsUntouched(db.rsvps, e.db.rsvps, id);
    }
    assert ListingOf(e.db, group).sessions == Receive(ListingOf(db, group), group, e.events[0]).sessions;
    assert ListingOf(e.db, group).windows == ListingOf(db, group).windows;
  }

  /** Writing one RSVP row changes the RSVPs of its own session only, at its own id. */
  lemma RsvpPutTouches(rsvps: map<Uuid, Rsvp>, rid: Uuid, v: Rsvp, session: Uuid)
    requires rid in rsvps ==> rsvps[rid].session == v.session
    ensures RsvpsOf(rsvps[rid := v], session) ==
            if session == v.session then RsvpsOf(rsvps, session)[rid := v] else RsvpsOf(rsvps, session)
  {
  }

  lemma RsvpPutListing(db: Db, rid: Uuid, v: Rsvp, group: Uuid)
    requires v.session in db.sessions && (rid in db.rsvps ==> db.rsvps[rid].session == v.session)
    ensures ListingOf(db.(rsvps := db.rsvps[rid := v]), group)
         == Receive(ListingOf(db, group), group, RsvpUpdated(db.sessions[v.session].group, rid, v))
  {
    var l := ListingOf(db.(rsvps := db.rsvps[rid := v]), group);
    var l' := Receive(ListingOf(db, group), group, RsvpUpdated(db.sessions[v.session].group, rid, v));
    assert l.sessions.Keys == l'.sessions.Keys;
    forall id | id in l.sessions ensures l.sessions[id] == l'.sessions[id] {
      RsvpPutTouches(db.rsvps, rid, v, id);
    }
    assert l.sessions == l'.sessions;
  }

  lemma RsvpStepReplays(c: Context, db: Db, r: Request, group: Uuid)
    requires Valid(db) && Step(c, db, r).Ok? && r.UpsertRsvp?
    ensures Replays(db, group, Step(c, db, r).value)
  {
    var e := Step(c, db, r).value;
    var rid, v := e.events[0].id, e.events[0].rsvp;
    TwoEvents(ListingOf(db, group), group, e.events[0], e.events[1]);
    RsvpPutListing(db, rid, v, group);
    assert ListingOf(e.db, group) == ListingOf(db.(rsvps := db.rsvps[rid := v]), group);
  }

  lemma StepReplays(c: Context, db: Db, r: Request, group: Uuid)
    requires Valid(db) && Step(c, db, r).Ok?
    ensures Replays(db, group, Step(c, db, r).value)
  {
    match r
    case CreateWindow(_, _, _, _) => PutWindowReplays(c, db, r, group);
    case UpdateWindow(_, _, _, _, _) => PutWindowReplays(c, db, r, group);
    case DeleteWindow(_, _, _) => DeleteWindowReplays(c, db, r, group);
    case CreateSession(_, _, _, _, _, _) => CreateSessionReplays(c, db, r, group);
    case UpdateSession(_, _, _, _) => UpdateSessionReplays(c, db, r, group);
    case DeleteSession(_, _, _) => DeleteSessionReplays(c, db, r, group);
    case UpsertRsvp(_, _, _, _) => RsvpStepReplays(c, db, r, group);
  }

  // ---------------------------------------------------------------- main results

  lemma {:induction false} AdmissibleConcat(l: Listing, group: Uuid, a: seq<Event>, b: seq<Event>)
    ensures AllAdmissible(l, group, a + b) <==> AllAdmissible(l, group, a) && AllAdmissible(Fold(l, group, a), group, b)
    decreases |a|
  {
    if a == [] {
      assert a + b == b;
    } else {
      assert (a + b)[1..] == a[1..] + b;
      AdmissibleConcat(Receive(l, group, a[0]), group, a[1..], b);
    }
  }

  /** Replaying everything published since a listing was taken gives the current listing. */
  lemma {:induction false} ReplayGivesCurrentListing(db: Db, run: seq<Turn>, group: Uuid)
    requires Valid(db)
    ensures Fold(ListingOf(db, group), group, Published(db, run)) == ListingOf(DbAfter(db, run), group)
    ensures AllAdmissible(ListingOf(db, group), group, Published(db, run))
    decreases |run|
  {
    if run != [] {
      var r := Step(run[0].context, db, run[0].request);
      if r.Ok? {
        StepKeepsValid(run[0].context, db, run[0].request);
        StepReplays(run[0].context, db, run[0].request, group);
        ReplayGivesCurrentListing(r.value.db, run[1..], group);
        FoldConcat(ListingOf(db, group), group, r.value.events, Published(r.value.db, run[1..]));
        AdmissibleConcat(ListingOf(db, group), group, r.value.events, Published(r.value.db, run[1..]));
      } else {
        ReplayGivesCurrentListing(db, run[1..], group);
      }
    }
  }

  function Core(l: Listing, id: Uuid): Option<Session> {
    if id in l.sessions then Some(l.sessions[id].session) else None
  }

  function RsvpIn(l: Listing, session: Uuid, id: Uuid): Option<Rsvp> {
    if session in l.sessions then Lookup(l.sessions[session].rsvps, id) else None
  }

  /** Every entry of `v` is either as in `a` or as in `b`. */
  ghost predicate Mixes(v: Listing, a: Listing, b: Listing) {
    && (forall id :: Lookup(v.windows, id) == Lookup(a.windows, id) || Lookup(v.windows, id) == Lookup(b.windows, id))
    && (forall id :: Core(v, id) == Core(a, id) || Core(v, id) == Core(b, id))
    && (forall s, id :: s in v.sessions ==>
          RsvpIn(v, s, id) == RsvpIn(a, s, id) || RsvpIn(v, s, id) == RsvpIn(b, s, id))
  }

  lemma ReceiveMixes(v: Listing, a: Listing, b: Listing, group: Uuid, e: Event)
    requires Mixes(v, a, b) && Admissible(a, group, e)
    ensures Mixes(Receive(v, group, e), Receive(a, group, e), b)
  {
    var v', a' := Receive(v, group, e), Receive(a, group, e);
    forall id ensures Lookup(v'.windows, id) == Lookup(a'.windows, id)
        || Lookup(v'.windows, id) == Lookup(b.windows, id) {
      assert Lookup(v.windows, id) == Lookup(a.windows, id) || Lookup(v.windows, id) == Lookup(b.windows, id);
    }
    forall id ensures Core(v', id) == Core(a', id) || Core(v', id) == Core(b, id) {
      assert Core(v, id) == Core(a, id) || Core(v, id) == Core(b, id);
    }
    forall s, id | s in v'.sessions
      ensures RsvpIn(v', s, id) == RsvpIn(a', s, id) || RsvpIn(v', s, id) == RsvpIn(b, s, id)
    {
      if s in v.sessions {
        assert RsvpIn(v, s, id) == RsvpIn(a, s, id) || RsvpIn(v, s, id) == RsvpIn(b, s, id);
      }
    }
  }

  lemma {:induction false} FoldMixes(v: Listing, a: Listing, b: Listing, group: Uuid, events: seq<Event>)
    requires Mixes(v, a, b) && AllAdmissible(a, group, events)
    ensures Mixes(Fold(v, group, events), Fold(a, group, events), b)
    decreases |events|
  {
    if events != [] {
      ReceiveMixes(v, a, b, group, events[0]);
      FoldMixes(Receive(v, group, events[0]), Receive(a, group, events[0]), b, group, events[1..]);
    }
  }

  lemma MixOfOneIsIt(v: Listing, b: Listing)
    requires Mixes(v, b, b)
    ensures v == b
  {
    forall id ensures Lookup(v.windows, id) == Lookup(b.windows, id) {}
    assert forall id :: id in v.windows <==> id in b.windows by {
      forall id ensures id in v.windows <==> id in b.windows {
        assert Lookup(v.windows, id) == Lookup(b.windows, id);
      }
    }
    assert v.windows == b.windows by {
      forall id | id in v.windows ensures v.windows[id] == b.windows[id] {
        assert Lookup(v.windows, id) == Lookup(b.windows, id);
      }
    }
    forall id ensures id in v.sessions <==> id in b.sessions {
      assert Core(v, id) == Core(b, id);
    }
    forall s | s in v.sessions ensures v.sessions[s] == b.sessions[s] {
      assert Core(v, s) == Core(b, s);
      forall id ensures Lookup(v.sessions[s].rsvps, id) == Lookup(b.sessions[s].rsvps, id) {
        assert RsvpIn(v, s, id) == RsvpIn(b, s, id);
      }
      SameLookups(v.sessions[s].rsvps, b.sessions[s].rsvps);
    }
    assert v.sessions == b.sessions;
  }

  lemma SameLookups<V>(m: map<Uuid, V>, n: map<Uuid, V>)
    requires forall id :: Lookup(m, id) == Lookup(n, id)
    ensures m == n
  {
    forall id ensures id in m <==> id in n {
      assert Lookup(m, id) == Lookup(n, id);
    }
    forall id | id in m ensures m[id] == n[id] {
      assert Lookup(m, id) == Lookup(n, id);
    }
  }

  /**
    A client may subscribe first and fetch the listing later. Events that the listing already
    reflects are then applied a second time, on top of newer data; the result is still current.
  */
  lemma OverlappingReplayIsHarmless(db: Db, seen: seq<Turn>, later: seq<Turn>, group: Uuid)
    requires Valid(db)
    ensures Fold(ListingOf(DbAfter(db, seen), group), group, Published(db, seen + later))
         == ListingOf(DbAfter(db, seen + later), group)
  {
    var mid := DbAfter(db, seen);
    var fetched := ListingOf(mid, group);
    ReplayGivesCurrentListing(db, seen, group);
    FoldMixes(fetched, ListingOf(db, group), fetched, group, Published(db, seen));
    MixOfOneIsIt(Fold(fetched, group, Published(db, seen)), fetched);
    RunConcat(db, seen, later);
    FoldConcat(fetched, group, Published(db, seen), Published(mid, later));
    RunKeepsValid(db, seen);
    ReplayGivesCurrentListing(mid, later, group);
  }

  /** In every reachable state the tables are consistent. */
  lemma ReachableIsValid(run: seq<Turn>)
    ensures Valid(DbAfter(EMPTY_DB, run))
  {
    RunKeepsValid(EMPTY_DB, run);
  }

  // ---------------------------------------------------------------- activity log

  ghost function Successes(db: Db, run: seq<Turn>): nat
    decreases |run|
  {
    if run == [] then 0
    else
      var r := Step(run[0].context, db, run[0].request);
      if r.Ok? then 1 + Successes(r.value.db, run[1..]) else Successes(db, run[1..])
  }

  /** The same row up to references that a deletion has since cleared. */
  predicate SameUpToCleared(stored: Activity, recorded: Activity) {
    && stored.group == recorded.group && stored.actor == recorded.actor
    && stored.kind == recorded.kind && stored.createdAt == recorded.createdAt
    && (stored.session == recorded.session || stored.session == None)
    && (stored.window == recorded.window || stored.window == None)
  }

  /** The activity events among the published ones, in order. */
  function Activities(events: seq<Event>): seq<Activity> {
    if events == [] then []
    else ActivityIn(events[0]) + Activities(events[1..])
  }

  function ActivityIn(e: Event): seq<Activity> { if e.ActivityRecorded? then [e.activity] else [] }

  lemma {:induction false} ActivitiesConcat(a: seq<Event>, b: seq<Event>)
    ensures Activities(a + b) == Activities(a) + Activities(b)
    decreases |a|
  {
    if a == [] {
      assert a + b == b;
    } else {
      ActivitiesConcat(a[1..], b);
      assert (a + b)[0] == a[0] && (a + b)[1..] == a[1..] + b;
      var here, rest := ActivityIn(a[0]), Activities(a[1..]);
      assert Activities(a + b) == here + (rest + Activities(b));
      assert here + (rest + Activities(b)) == (here + rest) + Activities(b);
    }
  }

  /** The log now is the log then, followed by the rows that were sent, all up to cleared references. */
  predicate LogMatches(before: seq<Activity>, log: seq<Activity>, sent: seq<Activity>) {
    && |log| == |before| + |sent|
    && (forall i :: 0 <= i < |before| ==> SameUpToCleared(log[i], before[i]))
    && (forall i :: 0 <= i < |sent| ==> SameUpToCleared(log[|before| + i], sent[i]))
  }

  lemma StepAppendsOneActivity(c: Context, db: Db, r: Request)
    requires Step(c, db, r).Ok?
    ensures var e := Step(c, db, r).value;
            && Activities(e.events) == [e.events[1].activity]
            && LogMatches(db.activity, e.db.activity, [e.events[1].activity])
  {
    var e := Step(c, db, r).value;
    OneActivity(e.events);
  }

  lemma OneActivity(events: seq<Event>)
    requires |events| == 2 && !events[0].ActivityRecorded? && events[1].ActivityRecorded?
    ensures Activities(events) == [events[1].activity]
  {
    assert events[1..][1..] == [];
    assert Activities(events[1..]) == [events[1].activity] + Activities(events[1..][1..]);
  }

  lemma LogsCompose(
    before: seq<Activity>, middle: seq<Activity>, log: seq<Activity>, first: Activity, rest: seq<Activity>)
    requires LogMatches(before, middle, [first]) && LogMatches(middle, log, rest)
    ensures LogMatches(before, log, [first] + rest)
  {
    assert SameUpToCleared(middle[|before| + 0], [first][0]);
    forall i | 0 <= i < |before| ensures SameUpToCleared(log[i], before[i]) {
      assert SameUpToCleared(log[i], middle[i]) && SameUpToCleared(middle[i], before[i]);
    }
    forall i | 0 <= i < 1 + |rest| ensures SameUpToCleared(log[|before| + i], ([first] + rest)[i]) {
      if i > 0 {
        assert log[|before| + i] == log[|middle| + (i - 1)];
      }
    }
  }

  /**
    Each successful mutation appends exactly one activity row and publishes exactly that row, in
    order; earlier rows only ever lose references to deleted sessions or windows.
  */
  lemma {:induction false} ActivityLogMatchesPublished(db: Db, run: seq<Turn>)
    ensures LogMatches(db.activity, DbAfter(db, run).activity, Activities(Published(db, run)))
    ensures |Activities(Published(db, run))| == Successes(db, run)
    decreases |run|
  {
    if run != [] {
      var r := Step(run[0].context, db, run[0].request);
      if r.Ok? {
        var e := r.value;
        var first := e.events[1].activity;
        StepAppendsOneActivity(run[0].context, db, run[0].request);
        ActivityLogMatchesPublished(e.db, run[1..]);
        ActivitiesConcat(e.events, Published(e.db, run[1..]));
        LogsCompose(db.activity, e.db.activity, DbAfter(e.db, run[1..]).activity, first,
            Activities(Published(e.db, run[1..])));
      } else {
        ActivityLogMatchesPublished(db, run[1..]);
      }
    }
  }

  /** The published activity is the stored row itself exactly when the mutation was not a deletion. */
  lemma PublishedRowIsStoredIff(c: Context, db: Db, r: Request)
    requires Step(c, db, r).Ok?
    ensures var e := Step(c, db, r).value;
            e.events[1] == ActivityRecorded(r.group, e.db.activity[|e.db.activity| - 1]) <==>
            !(r.DeleteWindow? || r.DeleteSession?)
  {
    var e := Step(c, db, r).value;
    if r.DeleteWindow? {
      assert e.db.activity[|db.activity|].window == None;
    } else if r.DeleteSession? {
      assert e.db.activity[|db.activity|].session == None;
    }
  }
}
