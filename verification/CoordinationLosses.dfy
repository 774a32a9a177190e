/**
  Publishing is best effort: a hook that fails is logged and skipped. A client that folds only the
  events that arrived is out of date at most where the last event about an entry was lost.
*/
module CoordinationLosses {
  import opened Prelude
  import opened CoordinationModel
  import opened CoordinationReplay

  /** The entries of a listing. */
  datatype Item = WindowItem(id: Uuid) | SessionItem(id: Uuid) | RsvpItem(session: Uuid, id: Uuid)

  predicate OnSession(e: Event, id: Uuid) {
    (e.SessionProposed? || e.SessionUpdated? || e.SessionDeleted?) && e.id == id
  }

  /** The events that write an entry; an event about a session writes all its RSVPs. */
  predicate About(e: Event, group: Uuid, item: Item) {
    e.group == group &&
    match item
    case WindowItem(id) => (e.WindowUpdated? || e.WindowDeleted?) && e.id == id
    case SessionItem(id) => OnSession(e, id)
    case RsvpItem(s, id) => OnSession(e, s) || (e.RsvpUpdated? && e.rsvp.session == s && e.id == id)
  }

  predicate Agree(a: Listing, b: Listing, item: Item) {
    match item
    case WindowItem(id) => Lookup(a.windows, id) == Lookup(b.windows, id)
    case SessionItem(id) => Core(a, id) == Core(b, id)
    case RsvpItem(s, id) => RsvpIn(a, s, id) == RsvpIn(b, s, id)
  }

  /** The events whose hook did not fail, in order. */
  function Arrived(events: seq<Event>, arrives: seq<bool>): seq<Event>
    requires |arrives| == |events|
    decreases |events|
  {
    if events == [] then []
    else (if arrives[0] then [events[0]] else []) + Arrived(events[1..], arrives[1..])
  }

  predicate Touched(events: seq<Event>, group: Uuid, item: Item) { exists e :: e in events && About(e, group, item) }

  /** The last event about the entry arrived, or there is none. */
  predicate LastArrived(events: seq<Event>, arrives: seq<bool>, group: Uuid, item: Item)
    requires |arrives| == |events|
  {
    forall i :: 0 <= i < |events| && About(events[i], group, item) && !Touched(events[i + 1..], group, item) ==>
        arrives[i]
  }

  /** What the client does about one published event. */
  function MaybeReceive(l: Listing, group: Uuid, e: Event, arrives: bool): Listing {
    if arrives then Receive(l, group, e) else l
  }

  lemma FoldArrived(l: Listing, group: Uuid, events: seq<Event>, arrives: seq<bool>)
    requires |arrives| == |events| && events != []
    ensures Fold(l, group, Arrived(events, arrives)) ==
            Fold(MaybeReceive(l, group, events[0], arrives[0]), group, Arrived(events[1..], arrives[1..]))
  {
    var rest := Arrived(events[1..], arrives[1..]);
    if arrives[0] {
      assert ([events[0]] + rest)[1..] == rest;
    } else {
      assert [] + rest == rest;
    }
  }

  lemma LastArrivedBehind(events: seq<Event>, arrives: seq<bool>, group: Uuid, item: Item)
    requires |arrives| == |events| && events != [] && LastArrived(events, arrives, group, item)
    ensures LastArrived(events[1..], arrives[1..], group, item)
    ensures About(events[0], group, item) && !Touched(events[1..], group, item) ==> arrives[0]
  {
    var rest := events[1..];
    forall i | 0 <= i < |rest| && About(rest[i], group, item) && !Touched(rest[i + 1..], group, item)
      ensures arrives[1..][i]
    {
      assert events[i + 1] == rest[i] && events[i + 2..] == rest[i + 1..];
    }
  }

  lemma TouchedNext(events: seq<Event>, group: Uuid, item: Item)
    requires events != []
    ensures Touched(events, group, item) <==> About(events[0], group, item) || Touched(events[1..], group, item)
  {
    if Touched(events, group, item) && !About(events[0], group, item) {
      var e :| e in events && About(e, group, item);
      assert e in events[1..];
    }
    if Touched(events[1..], group, item) {
      var e :| e in events[1..] && About(e, group, item);
      assert e in events;
    }
    if About(events[0], group, item) {
      assert events[0] in events;
    }
  }

  lemma UntouchedAgrees(a: Listing, b: Listing, group: Uuid, e: Event, arrives: bool, item: Item)
    requires Agree(a, b, item) && !About(e, group, item)
    ensures Agree(Receive(a, group, e), MaybeReceive(b, group, e, arrives), item)
  {
    UntouchedKept(a, group, e, item);
    UntouchedKept(b, group, e, item);
  }

  lemma UntouchedKept(l: Listing, group: Uuid, e: Event, item: Item)
    requires !About(e, group, item)
    ensures Agree(Receive(l, group, e), l, item)
  {
  }

  /** An event that both receive makes them agree; an RSVP needs its session on both sides or on neither. */
  lemma ReceivedAgrees(a: Listing, b: Listing, group: Uuid, e: Event, item: Item)
    requires About(e, group, item)
    requires item.RsvpItem? && e.RsvpUpdated? ==> Agree(a, b, SessionItem(item.session))
    ensures Agree(Receive(a, group, e), Receive(b, group, e), item)
  {
  }

  /** Windows and sessions: at the end they agree, if they do at the start or an event about them is to come. */
  lemma {:induction false} FreshEntry(
    a: Listing, b: Listing, group: Uuid, events: seq<Event>, arrives: seq<bool>, item: Item)
    requires |arrives| == |events| && !item.RsvpItem? && LastArrived(events, arrives, group, item)
    requires Agree(a, b, item) || Touched(events, group, item)
    ensures Agree(Fold(a, group, events), Fold(b, group, Arrived(events, arrives)), item)
    decreases |events|
  {
    if events != [] {
      var e := events[0];
      FoldArrived(b, group, events, arrives);
      LastArrivedBehind(events, arrives, group, item);
      TouchedNext(events, group, item);
      var a', b' := Receive(a, group, e), MaybeReceive(b, group, e, arrives[0]);
      if !Touched(events[1..], group, item) {
        if About(e, group, item) {
          ReceivedAgrees(a, b, group, e, item);
        } else {
          UntouchedAgrees(a, b, group, e, arrives[0], item);
        }
      }
      FreshEntry(a', b', group, events[1..], arrives[1..], item);
    }
  }

  lemma SessionEventsTouchRsvps(events: seq<Event>, group: Uuid, session: Uuid, id: Uuid)
    requires Touched(events, group, SessionItem(session))
    ensures Touched(events, group, RsvpItem(session, id))
  {
    var e :| e in events && About(e, group, SessionItem(session));
    assert About(e, group, RsvpItem(session, id));
  }

  /** One step of `FreshRsvp`: what the two sides agree on behind the first event. */
  lemma FreshStep(a: Listing, b: Listing, group: Uuid, events: seq<Event>, arrives: bool, item: Item)
    requires events != [] && (Agree(a, b, item) || Touched(events, group, item))
    requires item.RsvpItem? ==>
               Agree(a, b, SessionItem(item.session)) || Touched(events, group, SessionItem(item.session))
    requires About(events[0], group, item) && !Touched(events[1..], group, item) ==> arrives
    ensures Agree(Receive(a, group, events[0]), MaybeReceive(b, group, events[0], arrives), item)
            || Touched(events[1..], group, item)
  {
    var e := events[0];
    TouchedNext(events, group, item);
    if !Touched(events[1..], group, item) {
      if About(e, group, item) {
        if item.RsvpItem? && e.RsvpUpdated? {
          OnlyLaterSessions(events, group, item);
        }
        ReceivedAgrees(a, b, group, e, item);
      } else {
        UntouchedAgrees(a, b, group, e, arrives, item);
      }
    }
  }

  lemma OnlyLaterSessions(events: seq<Event>, group: Uuid, item: Item)
    requires events != [] && item.RsvpItem? && events[0].RsvpUpdated? && !Touched(events[1..], group, item)
    ensures !Touched(events, group, SessionItem(item.session))
  {
    TouchedNext(events, group, SessionItem(item.session));
    if Touched(events[1..], group, SessionItem(item.session)) {
      SessionEventsTouchRsvps(events[1..], group, item.session, item.id);
    }
  }

  lemma {:induction false} FreshRsvp(
    a: Listing, b: Listing, group: Uuid, events: seq<Event>, arrives: seq<bool>, session: Uuid, id: Uuid)
    requires |arrives| == |events|
    requires LastArrived(events, arrives, group, SessionItem(session))
    requires LastArrived(events, arrives, group, RsvpItem(session, id))
    requires Agree(a, b, SessionItem(session)) || Touched(events, group, SessionItem(session))
    requires Agree(a, b, RsvpItem(session, id)) || Touched(events, group, RsvpItem(session, id))
    ensures Agree(Fold(a, group, events), Fold(b, group, Arrived(events, arrives)), RsvpItem(session, id))
    decreases |events|
  {
    if events != [] {
      FoldArrived(b, group, events, arrives);
      LastArrivedBehind(events, arrives, group, SessionItem(session));
      LastArrivedBehind(events, arrives, group, RsvpItem(session, id));
      FreshStep(a, b, group, events, arrives[0], SessionItem(session));
      FreshStep(a, b, group, events, arrives[0], RsvpItem(session, id));
      FreshRsvp(Receive(a, group, events[0]), MaybeReceive(b, group, events[0], arrives[0]),
                group, events[1..], arrives[1..], session, id);
    }
  }

  /**
    Whichever hooks fail over a run: an entry of the client's listing is the server's current one
    whenever the last event about it arrived, and for an RSVP also the last one about its session.
  */
  lemma LostEventsStayLocal(db: Db, run: seq<Turn>, group: Uuid, arrives: seq<bool>, item: Item)
    requires Valid(db) && |arrives| == |Published(db, run)|
    requires LastArrived(Published(db, run), arrives, group, item)
    requires item.RsvpItem? ==> LastArrived(Published(db, run), arrives, group, SessionItem(item.session))
    ensures Agree(ListingOf(DbAfter(db, run), group),
                  Fold(ListingOf(db, group), group, Arrived(Published(db, run), arrives)), item)
  {
    var l := ListingOf(db, group);
    ReplayGivesCurrentListing(db, run, group);
    if item.RsvpItem? {
      FreshRsvp(l, l, group, Published(db, run), arrives, item.session, item.id);
    } else {
      FreshEntry(l, l, group, Published(db, run), arrives, item);
    }
  }

  // ---------------------------------------------------------------- exactly which entries are current

  datatype Content = WindowContent(window: Window) | SessionContent(session: Session) | RsvpContent(rsvp: Rsvp)

  function RsvpContentOf(r: Option<Rsvp>): Option<Content> { if r.Some? then Some(RsvpContent(r.value)) else None }

  function Entry(l: Listing, item: Item): Option<Content> {
    match item
    case WindowItem(id) => if id in l.windows then Some(WindowContent(l.windows[id])) else None
    case SessionItem(id) => if id in l.sessions then Some(SessionContent(l.sessions[id].session)) else None
    case RsvpItem(s, id) => RsvpContentOf(RsvpIn(l, s, id))
  }

  lemma AgreeIsSameEntry(a: Listing, b: Listing, item: Item)
    ensures Agree(a, b, item) <==> Entry(a, item) == Entry(b, item)
  {
  }

  /** The row an event about the entry carries; a deletion carries none. */
  function Carried(e: Event, item: Item): Option<Content> {
    match e
    case WindowUpdated(_, _, w) => Some(WindowContent(w))
    case SessionProposed(_, _, v) =>
      if item.RsvpItem? then RsvpContentOf(Lookup(v.rsvps, item.id)) else Some(SessionContent(v.session))
    case SessionUpdated(_, _, v) =>
      if item.RsvpItem? then RsvpContentOf(Lookup(v.rsvps, item.id)) else Some(SessionContent(v.session))
    case RsvpUpdated(_, _, r) => Some(RsvpContent(r))
    case _ => None
  }

  /**
    What the last event about the entry carries, or the start listing if there is none. An event about a
    single RSVP counts only if its session is there by then.
  */
  function LastCarried(l: Listing, group: Uuid, events: seq<Event>, item: Item): Option<Content>
    decreases |events|, if item.RsvpItem? then 1 else 0
  {
    if events == [] then Entry(l, item)
    else
      var init, last := events[..|events| - 1], events[|events| - 1];
      if !About(last, group, item)
         || (last.RsvpUpdated? && LastCarried(l, group, init, SessionItem(last.rsvp.session)).None?)
      then LastCarried(l, group, init, item)
      else Carried(last, item)
  }

  lemma EntryReceived(l: Listing, group: Uuid, e: Event, item: Item)
    ensures Entry(Receive(l, group, e), item) ==
            if !About(e, group, item) || (e.RsvpUpdated? && Entry(l, SessionItem(e.rsvp.session)).None?)
            then Entry(l, item) else Carried(e, item)
  {
  }

  lemma FoldSnoc(l: Listing, group: Uuid, events: seq<Event>)
    requires events != []
    ensures Fold(l, group, events) == Receive(Fold(l, group, events[..|events| - 1]), group, events[|events| - 1])
  {
    var init, last := events[..|events| - 1], events[|events| - 1];
    assert events == init + [last];
    FoldConcat(l, group, init, [last]);
    assert Fold(Fold(l, group, init), group, [last]) == Receive(Fold(l, group, init), group, last) by {
      assert [last][1..] == [];
    }
  }

  lemma {:induction false} FoldHoldsLastCarried(l: Listing, group: Uuid, events: seq<Event>, item: Item)
    ensures Entry(Fold(l, group, events), item) == LastCarried(l, group, events, item)
    decreases |events|
  {
    if events != [] {
      var init, last := events[..|events| - 1], events[|events| - 1];
      FoldSnoc(l, group, events);
      FoldHoldsLastCarried(l, group, init, item);
      if last.RsvpUpdated? {
        FoldHoldsLastCarried(l, group, init, SessionItem(last.rsvp.session));
      }
      EntryReceived(Fold(l, group, init), group, last, item);
    }
  }

  /**
    Whichever hooks fail over a run: an entry of the client's listing is the server's current one exactly
    if the last event about it that arrived carries the same row as the last one that was published.
  */
  lemma EntryIsCurrentIff(db: Db, run: seq<Turn>, group: Uuid, arrives: seq<bool>, item: Item)
    requires Valid(db) && |arrives| == |Published(db, run)|
    ensures var l, published := ListingOf(db, group), Published(db, run);
            var arrived := Arrived(published, arrives);
            Agree(ListingOf(DbAfter(db, run), group), Fold(l, group, arrived), item) <==>
            LastCarried(l, group, published, item) == LastCarried(l, group, arrived, item)
  {
    var l, published := ListingOf(db, group), Published(db, run);
    var arrived := Arrived(published, arrives);
    ReplayGivesCurrentListing(db, run, group);
    FoldHoldsLastCarried(l, group, published, item);
    FoldHoldsLastCarried(l, group, arrived, item);
    AgreeIsSameEntry(Fold(l, group, published), Fold(l, group, arrived), item);
  }

  /** The condition is needed: with its only event lost, a new window is missing from the client's listing. */
  lemma LostCreationIsMissed(c: Context, db: Db, r: Request)
    requires Valid(db) && r.CreateWindow? && Step(c, db, r).Ok?
    ensures var run := [Turn(c, r)];
            && |Published(db, run)| == 2
            && !Agree(ListingOf(DbAfter(db, run), r.group),
                      Fold(ListingOf(db, r.group), r.group, Arrived(Published(db, run), [false, true])),
                      WindowItem(db.nextId))
  {
    var run, e := [Turn(c, r)], Step(c, db, r).value;
    assert run[1..] == [] && Published(db, run) == e.events + [];
    assert Published(db, run) == e.events && DbAfter(db, run) == e.db;
    FirstLost(ListingOf(db, r.group), r.group, e.events);
    WindowCreated(c, db, r);
  }

  lemma FirstLost(l: Listing, group: Uuid, events: seq<Event>)
    requires |events| == 2 && events[1].ActivityRecorded?
    ensures Fold(l, group, Arrived(events, [false, true])) == l
  {
    var rest := [events[1]];
    assert events[1..] == rest && rest[1..] == [] && [false, true][1..] == [true];
    assert Arrived(rest, [true]) == rest + Arrived([], [true][1..]);
    assert Arrived(events, [false, true]) == [] + Arrived(events[1..], [false, true][1..]);
    assert Fold(l, group, rest) == Fold(Receive(l, group, rest[0]), group, rest[1..]);
  }

  lemma WindowCreated(c: Context, db: Db, r: Request)
    requires Valid(db) && r.CreateWindow? && Step(c, db, r).Ok?
    ensures var e := Step(c, db, r).value;
            && |e.events| == 2 && e.events[1].ActivityRecorded?
            && !Agree(ListingOf(e.db, r.group), ListingOf(db, r.group), WindowItem(db.nextId))
  {
    assert db.nextId !in db.windows;
  }
}
