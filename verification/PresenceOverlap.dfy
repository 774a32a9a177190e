/**
  Connect and disconnect calls of one user that overlap. Every call plans its commands when it starts
  and issues them one by one; here any number of calls may be under way at once, and any of them may
  issue next.
*/
module PresenceOverlap {
  import opened Prelude
  import opened PresenceReconcile

  /** A call under way: the commands it has still to issue. */
  datatype Flight = Flight(user: Uuid, todo: seq<Command>)

  /** The `inFlight` table of the presence is not used here; the flights take its place. */
  datatype Overlapped = Overlapped(presence: Presence, flights: seq<Flight>)

  datatype Move =
    | Opens(user: Uuid, socket: Socket, groups: seq<Uuid>)
    | Closes(user: Uuid, socket: Socket)
    | Issues(flight: nat)

  /** The synchronous part of a call, which plans commands for its user. */
  function Begun(p: Presence, m: Move): Presence
    requires !m.Issues?
  {
    var idle := p.(inFlight := map[]);
    if m.Opens? then StartConnect(idle, m.user, m.socket, m.groups) else StartDisconnect(idle, m.user, m.socket)
  }

  predicate CanIssue(o: Overlapped, t: nat) { t < |o.flights| && o.flights[t].todo != [] }

  function Moved(o: Overlapped, m: Move): Overlapped {
    if !m.Issues? then
      var q := Begun(o.presence, m);
      Overlapped(q.(inFlight := map[]), o.flights + [Flight(m.user, PendingOf(q, m.user))])
    else if CanIssue(o, m.flight) then
      var t := o.flights[m.flight];
      Overlapped(o.presence.(online := Execute(t.todo[0], t.user, o.presence.online)),
                 o.flights[m.flight := t.(todo := t.todo[1..])])
    else o
  }

  function After(run: seq<Move>): Overlapped {
    if run == [] then Overlapped(EMPTY, []) else Moved(After(run[..|run| - 1]), run[|run| - 1])
  }

  // ---------------------------------------------------------------- what was planned, and what was issued

  function PlannedBy(o: Overlapped, m: Move, user: Uuid): seq<Command> {
    if !m.Issues? && m.user == user then PendingOf(Begun(o.presence, m), user) else []
  }

  /** The commands the calls of a user planned, in the order in which the calls started. */
  function Planned(run: seq<Move>, user: Uuid): seq<Command> {
    if run == [] then []
    else Planned(run[..|run| - 1], user) + PlannedBy(After(run[..|run| - 1]), run[|run| - 1], user)
  }

  function IssuedBy(o: Overlapped, m: Move, user: Uuid): seq<Command> {
    if m.Issues? && CanIssue(o, m.flight) && o.flights[m.flight].user == user then [o.flights[m.flight].todo[0]] else []
  }

  /** The commands that reached Redis for a user, in the order in which they did. */
  function Issued(run: seq<Move>, user: Uuid): seq<Command> {
    if run == [] then []
    else Issued(run[..|run| - 1], user) + IssuedBy(After(run[..|run| - 1]), run[|run| - 1], user)
  }

  /** The last command about a group. */
  function LastAbout(cmds: seq<Command>, group: Uuid): Option<Command> {
    if cmds == [] then None
    else if cmds[|cmds| - 1].group == group then Some(cmds[|cmds| - 1])
    else LastAbout(cmds[..|cmds| - 1], group)
  }

  lemma LastAboutSnoc(cmds: seq<Command>, cmd: Command, group: Uuid)
    ensures LastAbout(cmds + [cmd], group) == if cmd.group == group then Some(cmd) else LastAbout(cmds, group)
  {
    assert (cmds + [cmd])[..|cmds|] == cmds;
  }

  lemma {:induction false} LastDecidesEntry(cmds: seq<Command>, user: Uuid, group: Uuid, online: set<(Uuid, Uuid)>)
    ensures (group, user) in ExecuteAll(cmds, user, online) <==>
            if LastAbout(cmds, group).Some? then LastAbout(cmds, group) == Some(SAdd(group))
            else (group, user) in online
  {
    if cmds != [] {
      var init, last := cmds[..|cmds| - 1], cmds[|cmds| - 1];
      assert cmds == init + [last];
      LastDecidesEntry(init, user, group, online);
      ExecuteAllConcat(init, [last], user, online);
      assert ExecuteAll([last], user, ExecuteAll(init, user, online))
          == Execute(last, user, ExecuteAll(init, user, online));
      assert last.SAdd? && last.group == group ==> last == SAdd(group);
    }
  }

  lemma InOnlineGroups(online: set<(Uuid, Uuid)>, user: Uuid, group: Uuid)
    ensures group in OnlineGroups(online, user) <==> (group, user) in online
  {
  }

  // ---------------------------------------------------------------- the group list is what was planned

  /** One call plans its way from the group list before it to the one after it. */
  lemma PlanReaches(p: Presence, m: Move, online: set<(Uuid, Uuid)>)
    requires !m.Issues? && OnlineGroups(online, m.user) == Elements(GroupsOf(p, m.user))
    requires p.connections.Keys == p.userGroups.Keys
    ensures var q := Begun(p, m);
            && q.connections.Keys == q.userGroups.Keys
            && OnlineGroups(ExecuteAll(PendingOf(q, m.user), m.user, online), m.user) == Elements(GroupsOf(q, m.user))
  {
    var q := Begun(p, m);
    if m.Opens? {
      ReconcileReaches(GroupsOf(p, m.user), Distinct(m.groups), m.user, online);
    } else if PendingOf(q, m.user) != [] {
      ReconcileReaches(GroupsOf(p, m.user), [], m.user, online);
      assert Additions([], GroupsOf(p, m.user)) + Removals(GroupsOf(p, m.user), [])
          == Removals(GroupsOf(p, m.user), []);
    }
  }

  lemma {:induction false} PlanIsTheList(run: seq<Move>, user: Uuid)
    ensures var p := After(run).presence;
            && p.connections.Keys == p.userGroups.Keys
            && OnlineGroups(ExecuteAll(Planned(run, user), user, {}), user) == Elements(GroupsOf(p, user))
  {
    if run != [] {
      var init, last := run[..|run| - 1], run[|run| - 1];
      PlanIsTheList(init, user);
      var o := After(init);
      if !last.Issues? && last.user == user {
        ExecuteAllConcat(Planned(init, user), PlannedBy(o, last, user), user, {});
        PlanReaches(o.presence, last, ExecuteAll(Planned(init, user), user, {}));
      } else {
        assert Planned(run, user) == Planned(init, user);
        OthersListsStay(o, last, user);
      }
    }
  }

  lemma OthersListsStay(o: Overlapped, m: Move, user: Uuid)
    requires m.Issues? || m.user != user
    ensures GroupsOf(Moved(o, m).presence, user) == GroupsOf(o.presence, user)
    ensures o.presence.connections.Keys == o.presence.userGroups.Keys ==>
              Moved(o, m).presence.connections.Keys == Moved(o, m).presence.userGroups.Keys
  {
  }

  lemma ListIffPlanned(run: seq<Move>, user: Uuid, group: Uuid)
    ensures group in GroupsOf(After(run).presence, user) <==> LastAbout(Planned(run, user), group) == Some(SAdd(group))
  {
    PlanIsTheList(run, user);
    LastDecidesEntry(Planned(run, user), user, group, {});
    InOnlineGroups(ExecuteAll(Planned(run, user), user, {}), user, group);
    assert group in Elements(GroupsOf(After(run).presence, user)) <==> group in GroupsOf(After(run).presence, user);
  }

  // ---------------------------------------------------------------- the entry is what was issued

  lemma {:induction false} EntryIffIssued(run: seq<Move>, user: Uuid, group: Uuid)
    ensures (group, user) in After(run).presence.online <==> LastAbout(Issued(run, user), group) == Some(SAdd(group))
  {
    if run != [] {
      var init, last := run[..|run| - 1], run[|run| - 1];
      EntryIffIssued(init, user, group);
      EntryByMove(After(init), last, user, group);
      var more := IssuedBy(After(init), last, user);
      if more != [] {
        LastAboutSnoc(Issued(init, user), more[0], group);
      } else {
        assert Issued(run, user) == Issued(init, user);
      }
    }
  }

  lemma EntryByMove(o: Overlapped, m: Move, user: Uuid, group: Uuid)
    ensures var more := IssuedBy(o, m, user);
            && (more == [] || more == [more[0]])
            && ((group, user) in Moved(o, m).presence.online <==>
                  if more != [] && more[0].group == group then more[0] == SAdd(group)
                  else (group, user) in o.presence.online)
  {
    if !m.Issues? {
      assert Begun(o.presence, m).online == o.presence.online;
    } else if CanIssue(o, m.flight) {
      var t := o.flights[m.flight];
      assert t.todo[0] == SAdd(group) <==> t.todo[0].SAdd? && t.todo[0].group == group;
    }
  }

  /**
    However the calls of all users overlap, at every point of every run: the online set is right about
    a user and a group exactly if the last command that reached Redis about them says the same as the
    last one planned.
  */
  lemma EntryIsRightIff(run: seq<Move>, user: Uuid, group: Uuid)
    ensures var p := After(run).presence;
            ((group, user) in p.online <==> group in GroupsOf(p, user))
            <==>
            (LastAbout(Issued(run, user), group) == Some(SAdd(group)) <==>
             LastAbout(Planned(run, user), group) == Some(SAdd(group)))
  {
    ListIffPlanned(run, user, group);
    EntryIffIssued(run, user, group);
  }

  // ---------------------------------------------------------------- when every call has finished

  function Outstanding(flights: seq<Flight>, user: Uuid): multiset<Command> {
    if flights == [] then multiset{}
    else
      var last := flights[|flights| - 1];
      Outstanding(flights[..|flights| - 1], user) + if last.user == user then multiset(last.todo) else multiset{}
  }

  lemma OutstandingSnoc(flights: seq<Flight>, t: Flight, user: Uuid)
    ensures Outstanding(flights + [t], user)
         == Outstanding(flights, user) + if t.user == user then multiset(t.todo) else multiset{}
  {
    assert (flights + [t])[..|flights|] == flights;
  }

  lemma {:induction false} OutstandingTail(flights: seq<Flight>, i: nat, user: Uuid)
    requires i < |flights| && flights[i].todo != []
    ensures var t := flights[i];
            Outstanding(flights, user) == Outstanding(flights[i := t.(todo := t.todo[1..])], user)
              + if t.user == user then multiset{t.todo[0]} else multiset{}
  {
    var t, n := flights[i], |flights| - 1;
    var later := flights[i := t.(todo := t.todo[1..])];
    if i == n {
      assert later[..n] == flights[..n];
      assert t.todo == [t.todo[0]] + t.todo[1..];
    } else {
      OutstandingTail(flights[..n], i, user);
      assert later[..n] == flights[..n][i := t.(todo := t.todo[1..])];
    }
  }

  /** No command is lost or invented: what was planned is what was issued and what is outstanding. */
  lemma {:induction false} CommandsAreConserved(run: seq<Move>, user: Uuid)
    ensures multiset(Planned(run, user)) == multiset(Issued(run, user)) + Outstanding(After(run).flights, user)
  {
    if run != [] {
      var init, last := run[..|run| - 1], run[|run| - 1];
      CommandsAreConserved(init, user);
      var o := After(init);
      if !last.Issues? {
        OutstandingSnoc(o.flights, Flight(last.user, PendingOf(Begun(o.presence, last), last.user)), user);
      } else if CanIssue(o, last.flight) {
        OutstandingTail(o.flights, last.flight, user);
      }
    }
  }

  /** Every call has issued all its commands. */
  predicate Quiet(o: Overlapped) { forall i :: 0 <= i < |o.flights| ==> o.flights[i].todo == [] }

  lemma {:induction false} NothingOutstanding(flights: seq<Flight>, user: Uuid)
    requires forall i :: 0 <= i < |flights| ==> flights[i].todo == []
    ensures Outstanding(flights, user) == multiset{}
  {
    if flights != [] {
      NothingOutstanding(flights[..|flights| - 1], user);
    }
  }

  lemma {:induction false} LastAboutIn(cmds: seq<Command>, group: Uuid)
    ensures LastAbout(cmds, group).Some? ==> LastAbout(cmds, group).value in cmds
    ensures LastAbout(cmds, group).Some? ==> LastAbout(cmds, group).value.group == group
    ensures LastAbout(cmds, group).None? ==> forall c :: c in cmds ==> c.group != group
  {
    if cmds != [] {
      LastAboutIn(cmds[..|cmds| - 1], group);
      assert cmds == cmds[..|cmds| - 1] + [cmds[|cmds| - 1]];
    }
  }

  /** For the same commands in another order, saying the same means that the last command is the same. */
  lemma SameLastIff(issued: seq<Command>, planned: seq<Command>, group: Uuid)
    requires multiset(issued) == multiset(planned)
    ensures (LastAbout(issued, group) == Some(SAdd(group)) <==> LastAbout(planned, group) == Some(SAdd(group)))
            <==> LastAbout(issued, group) == LastAbout(planned, group)
  {
    LastAboutIn(issued, group);
    LastAboutIn(planned, group);
    forall c ensures c in issued <==> c in planned {
      assert c in multiset(issued) <==> c in multiset(planned);
    }
  }

  /** If the planned commands reach Redis in any order at all, the same condition decides. */
  lemma AnyOrderIsRightIff(run: seq<Move>, user: Uuid, group: Uuid, issued: seq<Command>)
    requires multiset(issued) == multiset(Planned(run, user))
    ensures ((group, user) in ExecuteAll(issued, user, {}) <==> group in GroupsOf(After(run).presence, user))
            <==> LastAbout(issued, group) == LastAbout(Planned(run, user), group)
  {
    ListIffPlanned(run, user, group);
    LastDecidesEntry(issued, user, group, {});
    SameLastIff(issued, Planned(run, user), group);
  }

  /**
    When all calls have finished, however they overlapped: the online set is right about a user and a
    group exactly if the last command about the group that was issued is the last one that was planned.
  */
  lemma QuietEntryIsRightIff(run: seq<Move>, user: Uuid, group: Uuid)
    requires Quiet(After(run))
    ensures var p := After(run).presence;
            ((group, user) in p.online <==> group in GroupsOf(p, user))
            <==> LastAbout(Issued(run, user), group) == LastAbout(Planned(run, user), group)
  {
    EntryIsRightIff(run, user, group);
    CommandsAreConserved(run, user);
    NothingOutstanding(After(run).flights, user);
    SameLastIff(Issued(run, user), Planned(run, user), group);
  }

  // ---------------------------------------------------------------- two ways to meet the condition, and one to miss it

  /** Whenever a call of the user starts, the earlier ones have finished. */
  predicate Serialised(run: seq<Move>, user: Uuid) {
    run == [] ||
    (var init, last := run[..|run| - 1], run[|run| - 1];
     && Serialised(init, user)
     && (!last.Issues? && last.user == user ==> Outstanding(After(init).flights, user) == multiset{}))
  }

  /** Of the user's flights, at most the last is under way, and `rest` is what it has still to issue. */
  ghost predicate OnlyLast(flights: seq<Flight>, user: Uuid, rest: seq<Command>) {
    if flights == [] then rest == []
    else
      var last := flights[|flights| - 1];
      if last.user != user then OnlyLast(flights[..|flights| - 1], user, rest)
      else rest == last.todo && Outstanding(flights[..|flights| - 1], user) == multiset{}
  }

  lemma {:induction false} OnlyLastOutstanding(flights: seq<Flight>, user: Uuid, rest: seq<Command>)
    requires OnlyLast(flights, user, rest)
    ensures Outstanding(flights, user) == multiset(rest)
  {
    if flights != [] && flights[|flights| - 1].user != user {
      OnlyLastOutstanding(flights[..|flights| - 1], user, rest);
    }
  }

  lemma {:induction false} TodoIsOutstanding(flights: seq<Flight>, user: Uuid, i: nat)
    requires i < |flights| && flights[i].user == user
    ensures multiset(flights[i].todo) <= Outstanding(flights, user)
  {
    if i < |flights| - 1 {
      TodoIsOutstanding(flights[..|flights| - 1], user, i);
    }
  }

  lemma {:induction false} OnlyLastIssues(flights: seq<Flight>, user: Uuid, rest: seq<Command>, i: nat)
    requires OnlyLast(flights, user, rest) && i < |flights| && flights[i].todo != []
    ensures var t := flights[i];
            var later := flights[i := t.(todo := t.todo[1..])];
            if t.user == user then rest == t.todo && OnlyLast(later, user, rest[1..]) else OnlyLast(later, user, rest)
  {
    var t, n := flights[i], |flights| - 1;
    var later := flights[i := t.(todo := t.todo[1..])];
    if i == n {
      assert later[..n] == flights[..n];
    } else {
      assert later[..n] == flights[..n][i := t.(todo := t.todo[1..])];
      if flights[n].user != user {
        OnlyLastIssues(flights[..n], user, rest, i);
      } else {
        OutstandingTail(flights[..n], i, user);
      }
    }
  }

  /** Calls that do not overlap issue their commands in the planned order. */
  lemma {:induction false} SerialisedIssuesInOrder(run: seq<Move>, user: Uuid) returns (rest: seq<Command>)
    requires Serialised(run, user)
    ensures OnlyLast(After(run).flights, user, rest) && Planned(run, user) == Issued(run, user) + rest
  {
    rest := [];
    if run != [] {
      var init, last := run[..|run| - 1], run[|run| - 1];
      rest := SerialisedIssuesInOrder(init, user);
      var o := After(init);
      if !last.Issues? {
        var t := Flight(last.user, PendingOf(Begun(o.presence, last), last.user));
        assert (o.flights + [t])[..|o.flights|] == o.flights;
        if last.user == user {
          OnlyLastOutstanding(o.flights, user, rest);
          assert |multiset(rest)| == 0;
          rest := t.todo;
        }
      } else if CanIssue(o, last.flight) {
        OnlyLastIssues(o.flights, user, rest, last.flight);
        if o.flights[last.flight].user == user {
          assert rest == [rest[0]] + rest[1..];
          rest := rest[1..];
        }
      }
    }
  }

  /** So with serialised calls the online sets are right about the user when all calls have finished. */
  lemma SerialisedIsRight(run: seq<Move>, user: Uuid, group: Uuid)
    requires Serialised(run, user) && Quiet(After(run))
    ensures var p := After(run).presence;
            (group, user) in p.online <==> group in GroupsOf(p, user)
  {
    var rest := SerialisedIssuesInOrder(run, user);
    NothingLeft(After(run).flights, user, rest);
    assert Issued(run, user) + [] == Issued(run, user);
    EntryIsRightIff(run, user, group);
  }

  lemma NothingLeft(flights: seq<Flight>, user: Uuid, rest: seq<Command>)
    requires OnlyLast(flights, user, rest) && forall i :: 0 <= i < |flights| ==> flights[i].todo == []
    ensures rest == []
  {
    OnlyLastOutstanding(flights, user, rest);
    NothingOutstanding(flights, user);
    assert |multiset(rest)| == 0;
  }

  lemma FirstOpens(p: Presence, user: Uuid, socket: Socket, group: Uuid)
    requires GroupsOf(p, user) == []
    ensures var q := Begun(p, Opens(user, socket, [group]));
            && PendingOf(q, user) == [SAdd(group)] && GroupsOf(q, user) == [group]
            && SocketsOf(q, user) == SocketsOf(p, user) + {socket} && q.online == p.online
  {
    PlansOfOne(group);
  }

  lemma PlansOfOne(group: Uuid)
    ensures Distinct([group]) == [group]
    ensures Additions([group], []) + Removals([], [group]) == [SAdd(group)]
    ensures Removals([group], []) == [SRem(group)]
  {
    assert [group][..0] == [] && Distinct([]) == [];
    assert Additions([], []) == [] && Removals([], []) == [] && Removals([], [group]) == [];
  }

  lemma LastCloses(p: Presence, user: Uuid, socket: Socket, group: Uuid)
    requires SocketsOf(p, user) == {socket} && GroupsOf(p, user) == [group]
    ensures var q := Begun(p, Closes(user, socket));
            && PendingOf(q, user) == [SRem(group)] && GroupsOf(q, user) == [] && SocketsOf(q, user) == {}
            && q.online == p.online
  {
    PlansOfOne(group);
  }

  /** The states of `OverlapLosesUser`, one move at a time. */
  lemma ReopenedTooSoon(user: Uuid, group: Uuid, closing: Socket, opening: Socket) returns (o: Overlapped)
    ensures o == Moved(Moved(Moved(Moved(
                   Overlapped(EMPTY, []), Opens(user, closing, [group])), Issues(0)), Closes(user, closing)),
                   Opens(user, opening, [group]))
    ensures o.flights == [Flight(user, []), Flight(user, [SRem(group)]), Flight(user, [SAdd(group)])]
    ensures SocketsOf(o.presence, user) == {opening} && GroupsOf(o.presence, user) == [group]
  {
    o := Overlapped(EMPTY, []);
    FirstOpens(o.presence, user, closing, group);
    o := Moved(o, Opens(user, closing, [group]));
    assert o.flights == [Flight(user, [SAdd(group)])];
    o := Moved(o, Issues(0));
    assert o.flights == [Flight(user, [])];
    LastCloses(o.presence, user, closing, group);
    o := Moved(o, Closes(user, closing));
    FirstOpens(o.presence, user, opening, group);
    o := Moved(o, Opens(user, opening, [group]));
  }

  /**
    The condition can fail. A user's only socket closes and the SREM is still unissued when the same
    user connects again; if the new call's SADD reaches Redis first, the user is connected and lists
    the group but the online set does not contain the user.
  */
  lemma OverlapLosesUser(user: Uuid, group: Uuid, closing: Socket, opening: Socket)
    ensures var gs := [group];
            var start := [Opens(user, closing, gs), Issues(0), Closes(user, closing), Opens(user, opening, gs)];
            var o := After(start + [Issues(2), Issues(1)]);
            && Quiet(o) && SocketsOf(o.presence, user) == {opening} && group in GroupsOf(o.presence, user)
            && (group, user) !in o.presence.online
  {
    var start := [Opens(user, closing, [group]), Issues(0), Closes(user, closing), Opens(user, opening, [group])];
    var o := ReopenedTooSoon(user, group, closing, opening);
    AfterFour(start);
    assert After(start) == o;
    AfterNext(start, Issues(2));
    AfterNext(start + [Issues(2)], Issues(1));
    assert start + [Issues(2)] + [Issues(1)] == start + [Issues(2), Issues(1)];
    LastTwoIssue(o, user, group);
  }

  lemma LastTwoIssue(o: Overlapped, user: Uuid, group: Uuid)
    requires o.flights == [Flight(user, []), Flight(user, [SRem(group)]), Flight(user, [SAdd(group)])]
    ensures var z := Moved(Moved(o, Issues(2)), Issues(1));
            && Quiet(z) && (group, user) !in z.presence.online
            && SocketsOf(z.presence, user) == SocketsOf(o.presence, user)
            && GroupsOf(z.presence, user) == GroupsOf(o.presence, user)
  {
    assert [SAdd(group)][1..] == [] && [SRem(group)][1..] == [];
    var m := Moved(o, Issues(2));
    assert m.flights == [Flight(user, []), Flight(user, [SRem(group)]), Flight(user, [])];
    assert Moved(m, Issues(1)).flights == [Flight(user, []), Flight(user, []), Flight(user, [])];
  }

  lemma AfterFour(run: seq<Move>)
    requires |run| == 4
    ensures After(run) == Moved(Moved(Moved(Moved(Overlapped(EMPTY, []), run[0]), run[1]), run[2]), run[3])
  {
    AfterPrefix(run, 0);
    AfterPrefix(run, 1);
    AfterPrefix(run, 2);
    AfterPrefix(run, 3);
    assert run[..0] == [] && run[..4] == run;
  }

  lemma AfterPrefix(run: seq<Move>, n: nat)
    requires n < |run|
    ensures After(run[..n + 1]) == Moved(After(run[..n]), run[n])
  {
    assert run[..n + 1][..n] == run[..n];
  }

  lemma AfterNext(run: seq<Move>, m: Move)
    ensures After(run + [m]) == Moved(After(run), m)
  {
    assert (run + [m])[..|run|] == run;
  }
}
