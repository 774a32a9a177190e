/**
  What the listeners of one group see of one user. An announcement is one event per listed group, and
  the group lists of the connect that goes online and of the disconnect that goes offline may differ.
*/
module PresenceEvents {
  import opened Prelude
  import opened PresenceReconcile
  import opened PresenceHandlers

  function Repeat(online: bool, n: nat): seq<bool> { seq(n, _ => online) }

  /** The events of an announcement for one user in one group: true for online, false for offline. */
  function EventsOf(a: Announcement, user: Uuid, group: Uuid): seq<bool> {
    if IsLifecycle(a) && a.user == user then Repeat(a.UserOnline?, multiset(a.groups)[group]) else []
  }

  function EventsFor(log: seq<Announcement>, user: Uuid, group: Uuid): seq<bool> {
    if log == [] then []
    else EventsFor(log[..|log| - 1], user, group) + EventsOf(log[|log| - 1], user, group)
  }

  /** What the listeners of the group have been sent about the user. */
  function Sent(run: seq<Call>, user: Uuid, group: Uuid): seq<bool> {
    EventsFor(HubAfter(run).lifecycle, user, group)
  }

  /** The last event a listener saw says online. */
  predicate Believed(events: seq<bool>) { events != [] && events[|events| - 1] }

  predicate EventsAlternate(events: seq<bool>) { forall i :: 0 <= i < |events| ==> (events[i] <==> i % 2 == 0) }

  // ---------------------------------------------------------------- the history of a session

  predicate Opens(run: seq<Call>, user: Uuid) {
    run != [] && run[|run| - 1].Connecting? && run[|run| - 1].user == user && OpenSockets(run[..|run| - 1], user) == {}
  }

  predicate Closes(run: seq<Call>, user: Uuid) {
    && run != [] && run[|run| - 1].Disconnecting? && run[|run| - 1].user == user
    && OpenSockets(run[..|run| - 1], user) != {} && OpenSockets(run, user) == {}
  }

  /** The group list of the connect that opened the user's current session. */
  function OpeningGroups(run: seq<Call>, user: Uuid): seq<Uuid> {
    if run == [] then []
    else if Opens(run, user) then run[|run| - 1].groups
    else OpeningGroups(run[..|run| - 1], user)
  }

  /** The events that the last call of the run sends. */
  function LastSent(run: seq<Call>, user: Uuid, group: Uuid): seq<bool>
    requires run != []
  {
    if Opens(run, user) then Repeat(true, multiset(run[|run| - 1].groups)[group])
    else if Closes(run, user) && group in LatestGroups(run[..|run| - 1], user) then [false]
    else []
  }

  lemma EventsForSnoc(log: seq<Announcement>, a: Announcement, user: Uuid, group: Uuid)
    ensures EventsFor(log + [a], user, group) == EventsFor(log, user, group) + EventsOf(a, user, group)
  {
    assert (log + [a])[..|log|] == log;
  }

  predicate Unique(xs: seq<Uuid>) { forall i, j :: 0 <= i < j < |xs| ==> xs[i] != xs[j] }

  lemma {:induction false} CountUnique(xs: seq<Uuid>, x: Uuid)
    requires Unique(xs)
    ensures multiset(xs)[x] == if x in xs then 1 else 0
  {
    if xs != [] {
      var init, last := xs[..|xs| - 1], xs[|xs| - 1];
      assert xs == init + [last];
      CountUnique(init, x);
    }
  }

  lemma {:induction false} LatestIsUnique(run: seq<Call>, user: Uuid)
    ensures Unique(LatestGroups(run, user))
  {
    if run != [] {
      var last := run[|run| - 1];
      if last.Connecting? && last.user == user {
        assert Unique(Distinct(last.groups));
      } else {
        LatestIsUnique(run[..|run| - 1], user);
      }
    }
  }

  /** What the last call of a run announces. */
  function LastAnnounced(run: seq<Call>): seq<Announcement>
    requires run != []
  {
    var init, call := run[..|run| - 1], run[|run| - 1];
    if call.Connecting? && OpenSockets(init, call.user) == {} then [UserOnline(call.user, call.groups)]
    else if call.Disconnecting? && OpenSockets(run, call.user) == {}
        then [UserOffline(call.user, AnnouncedGroups(init, call.user))]
    else []
  }

  /** The list that a disconnect announces: the latest one, or none if no socket was open. */
  function AnnouncedGroups(init: seq<Call>, user: Uuid): seq<Uuid> {
    if OpenSockets(init, user) != {} then LatestGroups(init, user) else []
  }

  lemma LifecycleByCall(run: seq<Call>)
    requires run != []
    ensures HubAfter(run).lifecycle == HubAfter(run[..|run| - 1]).lifecycle + LastAnnounced(run)
  {
    var init, call := run[..|run| - 1], run[|run| - 1];
    ManagerTracksSockets(init, call.user);
    ManagerTracksSockets(run, call.user);
  }

  lemma EventsForMore(log: seq<Announcement>, more: seq<Announcement>, user: Uuid, group: Uuid)
    requires |more| <= 1
    ensures EventsFor(log + more, user, group) ==
            EventsFor(log, user, group) + if more == [] then [] else EventsOf(more[0], user, group)
  {
    if more == [] {
      assert log + more == log;
    } else {
      assert more == [more[0]];
      EventsForSnoc(log, more[0], user, group);
    }
  }

  lemma LastSentIs(run: seq<Call>, user: Uuid, group: Uuid)
    requires run != []
    ensures LastSent(run, user, group) ==
            if LastAnnounced(run) == [] then [] else EventsOf(LastAnnounced(run)[0], user, group)
  {
    var init := run[..|run| - 1];
    LatestIsUnique(init, user);
    CountUnique(LatestGroups(init, user), group);
    assert Repeat(false, 1) == [false];
  }

  lemma SentByCall(run: seq<Call>, user: Uuid, group: Uuid)
    requires run != []
    ensures Sent(run, user, group) == Sent(run[..|run| - 1], user, group) + LastSent(run, user, group)
  {
    LifecycleByCall(run);
    EventsForMore(HubAfter(run[..|run| - 1]).lifecycle, LastAnnounced(run), user, group);
    LastSentIs(run, user, group);
  }

  // ---------------------------------------------------------------- listeners are right exactly if lists stay the same

  /** At every point of every session the opening list and the latest list agree about the group. */
  predicate Steady(run: seq<Call>, user: Uuid, group: Uuid) {
    && (run != [] ==> Steady(run[..|run| - 1], user, group))
    && (OpenSockets(run, user) != {} ==> (group in OpeningGroups(run, user) <==> group in LatestGroups(run, user)))
  }

  /** At every point the last event says online exactly if the user is connected and lists the group. */
  predicate AlwaysRight(run: seq<Call>, user: Uuid, group: Uuid) {
    && (run != [] ==> AlwaysRight(run[..|run| - 1], user, group))
    && (Believed(Sent(run, user, group)) <==> OpenSockets(run, user) != {} && group in LatestGroups(run, user))
  }

  lemma BelievedAfter(events: seq<bool>, more: seq<bool>)
    ensures Believed(events + more) == if more == [] then Believed(events) else more[|more| - 1]
  {
    assert events + [] == events;
  }

  predicate Open(run: seq<Call>, user: Uuid) { OpenSockets(run, user) != {} }

  /** How one call moves the user's session. */
  lemma SessionByCall(run: seq<Call>, user: Uuid, group: Uuid)
    requires run != []
    ensures var init, last := run[..|run| - 1], run[|run| - 1];
            if Opens(run, user) then
              && Open(run, user) && !Open(init, user) && !Closes(run, user) && OpeningGroups(run, user) == last.groups
              && (group in LatestGroups(run, user) <==> group in last.groups)
            else if Closes(run, user) then
              && !Open(run, user) && Open(init, user)
              && LatestGroups(run, user) == LatestGroups(init, user)
            else Open(run, user) == Open(init, user) && OpeningGroups(run, user) == OpeningGroups(init, user)
  {
    var last := run[|run| - 1];
    if Opens(run, user) {
      assert group in Elements(Distinct(last.groups)) <==> group in Elements(last.groups);
    }
  }

  lemma BelievedByCall(run: seq<Call>, user: Uuid, group: Uuid, before: seq<bool>, after: seq<bool>)
    requires run != [] && after == before + LastSent(run, user, group) && Steady(run[..|run| - 1], user, group)
    requires var init := run[..|run| - 1];
             Believed(before) <==> Open(init, user) && group in OpeningGroups(init, user)
    ensures Believed(after) <==> Open(run, user) && group in OpeningGroups(run, user)
  {
    SessionByCall(run, user, group);
    BelievedAfter(before, LastSent(run, user, group));
    OpeningCount(run, user, group);
  }

  lemma OpeningCount(run: seq<Call>, user: Uuid, group: Uuid)
    requires run != []
    ensures Opens(run, user) ==> (multiset(run[|run| - 1].groups)[group] > 0 <==> group in run[|run| - 1].groups)
  {
  }

  /** As long as the lists were steady so far, listeners believe what the opening list said. */
  lemma {:induction false} BelievedIsOpening(run: seq<Call>, user: Uuid, group: Uuid)
    requires run != [] ==> Steady(run[..|run| - 1], user, group)
    ensures Believed(Sent(run, user, group)) <==> Open(run, user) && group in OpeningGroups(run, user)
  {
    if run != [] {
      var init := run[..|run| - 1];
      BelievedIsOpening(init, user, group);
      SentByCall(run, user, group);
      BelievedByCall(run, user, group, Sent(init, user, group), Sent(run, user, group));
    }
  }

  /**
    The listeners of a group are right about a user at every point of a run exactly if in every session
    the group lists of the first and of the latest connect always agree about the group.
  */
  lemma {:induction false} ListenersAreRightIff(run: seq<Call>, user: Uuid, group: Uuid)
    ensures AlwaysRight(run, user, group) <==> Steady(run, user, group)
  {
    if run != [] {
      ListenersAreRightIff(run[..|run| - 1], user, group);
    }
    if run != [] ==> Steady(run[..|run| - 1], user, group) {
      BelievedIsOpening(run, user, group);
    }
  }

  // ---------------------------------------------------------------- exactly when the events alternate

  /** Announced as online, and not yet as offline, going by the group lists of the openings and closings. */
  predicate Shown(run: seq<Call>, user: Uuid, group: Uuid) {
    run != [] &&
    if Opens(run, user) && group in run[|run| - 1].groups then true
    else if Closes(run, user) && group in LatestGroups(run[..|run| - 1], user) then false
    else Shown(run[..|run| - 1], user, group)
  }

  /**
    Nobody is announced twice in a row: each opening list names the group at most once and when due, each
    closing list when due.
  */
  predicate NoClash(run: seq<Call>, user: Uuid, group: Uuid) {
    run == [] ||
    (var init, last := run[..|run| - 1], run[|run| - 1];
     && NoClash(init, user, group)
     && (Opens(run, user) && group in last.groups ==> multiset(last.groups)[group] == 1 && !Shown(init, user, group))
     && (Closes(run, user) && group in LatestGroups(init, user) ==> Shown(init, user, group)))
  }

  lemma AlternateSnoc(events: seq<bool>, e: bool)
    ensures EventsAlternate(events + [e]) <==> EventsAlternate(events) && (e <==> |events| % 2 == 0)
  {
    var all := events + [e];
    assert all[|events|] == e;
    if EventsAlternate(all) {
      forall i | 0 <= i < |events| ensures events[i] <==> i % 2 == 0 {
        assert all[i] == events[i];
      }
    }
  }

  lemma TwoOnlinesDoNotAlternate(events: seq<bool>, more: seq<bool>)
    requires |more| >= 2 && more[0] && more[1]
    ensures !EventsAlternate(events + more)
  {
    var all := events + more;
    assert all[|events|] && all[|events| + 1];
  }

  lemma AlternateByCall(run: seq<Call>, user: Uuid, group: Uuid, before: seq<bool>, after: seq<bool>)
    requires run != [] && after == before + LastSent(run, user, group)
    requires EventsAlternate(before) <==> NoClash(run[..|run| - 1], user, group)
    requires EventsAlternate(before) ==> (|before| % 2 == 1 <==> Shown(run[..|run| - 1], user, group))
    ensures EventsAlternate(after) <==> NoClash(run, user, group)
    ensures EventsAlternate(after) ==> (|after| % 2 == 1 <==> Shown(run, user, group))
  {
    SessionByCall(run, user, group);
    OpeningCount(run, user, group);
    AlternateStep(before, LastSent(run, user, group));
  }

  /** The events for a group alternate, starting with online, exactly if no opening or closing list clashes. */
  lemma {:induction false} EventsAlternateIff(run: seq<Call>, user: Uuid, group: Uuid)
    ensures EventsAlternate(Sent(run, user, group)) <==> NoClash(run, user, group)
    ensures NoClash(run, user, group) ==> (|Sent(run, user, group)| % 2 == 1 <==> Shown(run, user, group))
  {
    if run != [] {
      var init := run[..|run| - 1];
      EventsAlternateIff(init, user, group);
      SentByCall(run, user, group);
      AlternateByCall(run, user, group, Sent(init, user, group), Sent(run, user, group));
    }
  }

  lemma AlternateStep(events: seq<bool>, more: seq<bool>)
    requires more == [false] || forall i :: 0 <= i < |more| ==> more[i]
    ensures EventsAlternate(events + more) <==>
            EventsAlternate(events) && (more == [] || (|more| == 1 && (more[0] <==> |events| % 2 == 0)))
  {
    if more == [] {
      assert events + more == events;
    } else if |more| == 1 {
      assert more == [more[0]];
      AlternateSnoc(events, more[0]);
    } else {
      TwoOnlinesDoNotAlternate(events, more);
    }
  }

  /** Lists as the database gives them name a group at most once. */
  predicate ListsDistinct(run: seq<Call>, group: Uuid) {
    forall i :: 0 <= i < |run| && run[i].Connecting? ==> multiset(run[i].groups)[group] <= 1
  }

  /** If lists stay the same within sessions, the events alternate. */
  lemma {:induction false} SteadyEventsAlternate(run: seq<Call>, user: Uuid, group: Uuid)
    requires Steady(run, user, group) && ListsDistinct(run, group)
    ensures NoClash(run, user, group) && EventsAlternate(Sent(run, user, group))
    ensures Shown(run, user, group) <==> Open(run, user) && group in OpeningGroups(run, user)
  {
    if run != [] {
      SteadyEventsAlternate(run[..|run| - 1], user, group);
      SessionByCall(run, user, group);
      OpeningCount(run, user, group);
    }
    EventsAlternateIff(run, user, group);
  }

  /** The history of the example: two sockets of one session with different lists, then both close. */
  function TwoSockets(user: Uuid, s1: Socket, s2: Socket, a: Uuid, b: Uuid, now: nat): seq<Call> {
    [Connecting(user, s1, [a], now), Connecting(user, s2, [a, b], now), Disconnecting(user, s1),
        Disconnecting(user, s2)]
  }

  lemma TwoSocketsOpen(user: Uuid, s1: Socket, s2: Socket, a: Uuid, b: Uuid, now: nat)
    requires s1 != s2
    ensures var run := TwoSockets(user, s1, s2, a, b, now);
            && OpenSockets(run[..0], user) == {} && OpenSockets(run[..1], user) == {s1}
            && OpenSockets(run[..2], user) == {s1, s2} && OpenSockets(run[..3], user) == {s2}
            && OpenSockets(run[..4], user) == {}
  {
    var run := TwoSockets(user, s1, s2, a, b, now);
    PrefixesOfFour(run);
  }

  lemma PrefixesOfFour(run: seq<Call>)
    requires |run| == 4
    ensures forall i :: 0 < i <= 4 ==> run[..i][..i - 1] == run[..i - 1] && run[..i][i - 1] == run[i - 1]
  {
  }

  lemma TwoSocketsSend(user: Uuid, s1: Socket, s2: Socket, a: Uuid, b: Uuid, now: nat)
    requires s1 != s2 && a != b
    ensures Sent(TwoSockets(user, s1, s2, a, b, now), user, b) == [false]
  {
    var run := TwoSockets(user, s1, s2, a, b, now);
    PrefixesOfFour(run);
    TwoSocketsOpen(user, s1, s2, a, b, now);
    assert run[..4] == run;
    assert LastSent(run[..1], user, b) == [] && LastSent(run[..2], user, b) == [] && LastSent(run[..3], user, b) == [];
    ClosingIsSent(run, user, b, s2);
    SentByCall(run[..1], user, b);
    SentByCall(run[..2], user, b);
    SentByCall(run[..3], user, b);
    SentByCall(run[..4], user, b);
    assert Sent(run[..0], user, b) == [];
  }

  lemma OfflineFirst(events: seq<bool>)
    requires events == [false]
    ensures !EventsAlternate(events)
  {
    assert !events[0];
  }

  lemma NotAlternatingIsUnsteady(run: seq<Call>, user: Uuid, group: Uuid)
    requires !EventsAlternate(Sent(run, user, group)) && ListsDistinct(run, group)
    ensures !NoClash(run, user, group) && !Steady(run, user, group)
  {
    EventsAlternateIff(run, user, group);
    if Steady(run, user, group) {
      SteadyEventsAlternate(run, user, group);
    }
  }

  /**
    The lists may differ: whoever joins a group between opening a first and a second socket goes
    offline in that group, once both are closed, without ever having gone online in it.
  */
  lemma OfflineWithoutOnline(user: Uuid, s1: Socket, s2: Socket, a: Uuid, b: Uuid, now: nat)
    requires s1 != s2 && a != b
    ensures var run := TwoSockets(user, s1, s2, a, b, now);
            Sent(run, user, b) == [false] && !NoClash(run, user, b) && !Steady(run, user, b)
  {
    TwoSocketsSend(user, s1, s2, a, b, now);
    OfflineFirst(Sent(TwoSockets(user, s1, s2, a, b, now), user, b));
    NotAlternatingIsUnsteady(TwoSockets(user, s1, s2, a, b, now), user, b);
  }

  lemma ClosingIsSent(run: seq<Call>, user: Uuid, b: Uuid, s2: Socket)
    requires |run| == 4 && run[1].Connecting? && run[1].user == user && b in run[1].groups
    requires run[2].Disconnecting? && run[3] == Disconnecting(user, s2)
    requires OpenSockets(run[..3], user) == {s2} && OpenSockets(run[..4], user) == {}
    ensures LastSent(run[..4], user, b) == [false]
  {
    PrefixesOfFour(run);
    assert b in Elements(Distinct(run[1].groups));
    assert LatestGroups(run[..2], user) == Distinct(run[1].groups);
    assert LatestGroups(run[..3], user) == LatestGroups(run[..2], user);
  }
}
