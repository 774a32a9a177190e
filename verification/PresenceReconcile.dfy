/**
  Connection bookkeeping of one API replica (`ConnectionManager`) against the Redis sets
  `group:{id}:online`, at the granularity of single Redis commands.

  `connect` and `disconnect` change the two dictionaries without suspending and then issue
  SADD/SREM commands one by one. Between two commands any other user's call may run, so a
  state also records, for every user, the commands that the current call still has to issue.
*/
module PresenceReconcile {
  import opened Prelude

  type Socket = nat

  datatype Command = SAdd(group: Uuid) | SRem(group: Uuid)

  /** An entry `(group, user)` of `online` means that `user` is in the set `group:{group}:online`. */
  datatype Presence = Presence(
    connections: map<Uuid, set<Socket>>,
    userGroups: map<Uuid, seq<Uuid>>,
    online: set<(Uuid, Uuid)>,
    inFlight: map<Uuid, seq<Command>>)

  const EMPTY := Presence(map[], map[], {}, map[])

  function GroupsOf(p: Presence, user: Uuid): seq<Uuid> {
    if user in p.userGroups then p.userGroups[user] else []
  }

  function SocketsOf(p: Presence, user: Uuid): set<Socket> {
    if user in p.connections then p.connections[user] else {}
  }

  function PendingOf(p: Presence, user: Uuid): seq<Command> {
    if user in p.inFlight then p.inFlight[user] else []
  }

  /** The groups whose online set currently lists the user. */
  function OnlineGroups(online: set<(Uuid, Uuid)>, user: Uuid): set<Uuid> {
    set e | e in online && e.1 == user :: e.0
  }

  /** `list(dict.fromkeys(xs))`: the first occurrence of every element, in order. */
  function Distinct(xs: seq<Uuid>): (ys: seq<Uuid>)
    ensures Elements(ys) == Elements(xs)
    ensures forall i, j :: 0 <= i < j < |ys| ==> ys[i] != ys[j]
  {
    if xs == [] then []
    else
      var init, last := xs[..|xs| - 1], xs[|xs| - 1];
      assert xs == init + [last];
      var ys := Distinct(init);
      assert forall x :: x in init <==> x in Elements(ys);
      if last in ys then ys else ys + [last]
  }

  /** The SADDs of the first loop of `connect`. */
  function Additions(next: seq<Uuid>, previous: seq<Uuid>): seq<Command> {
    if next == [] then []
    else
      var last := next[|next| - 1];
      Additions(next[..|next| - 1], previous) + if last in previous then [] else [SAdd(last)]
  }

  /** The SREMs of the second loop of `connect` (and of `disconnect`, with nothing kept). */
  function Removals(previous: seq<Uuid>, next: seq<Uuid>): seq<Command> {
    if previous == [] then []
    else
      var last := previous[|previous| - 1];
      Removals(previous[..|previous| - 1], next) + if last in next then [] else [SRem(last)]
  }

  function Execute(cmd: Command, user: Uuid, online: set<(Uuid, Uuid)>): set<(Uuid, Uuid)> {
    match cmd
    case SAdd(g) => online + {(g, user)}
    case SRem(g) => online - {(g, user)}
  }

  function ExecuteAll(cmds: seq<Command>, user: Uuid, online: set<(Uuid, Uuid)>): set<(Uuid, Uuid)> {
    if cmds == [] then online
    else ExecuteAll(cmds[1..], user, Execute(cmds[0], user, online))
  }

  // ---------------------------------------------------------------- steps

  datatype Step =
    | BeginConnect(user: Uuid, socket: Socket, groups: seq<Uuid>)
    | BeginDisconnect(user: Uuid, socket: Socket)
    | Issue(user: Uuid)

  /** The synchronous part of `connect`: both dictionaries change, the commands are planned. */
  function StartConnect(p: Presence, user: Uuid, socket: Socket, groups: seq<Uuid>): Presence {
    var previous, next := GroupsOf(p, user), Distinct(groups);
    p.(connections := p.connections[user := SocketsOf(p, user) + {socket}],
       userGroups := p.userGroups[user := next],
       inFlight := p.inFlight[user := Additions(next, previous) + Removals(previous, next)])
  }

  /** The synchronous part of `disconnect`. */
  function StartDisconnect(p: Presence, user: Uuid, socket: Socket): Presence {
    if user !in p.connections then p
    else if p.connections[user] - {socket} != {} then
      p.(connections := p.connections[user := p.connections[user] - {socket}])
    else
      p.(connections := p.connections - {user},
         userGroups := p.userGroups - {user},
         inFlight := p.inFlight[user := Removals(GroupsOf(p, user), [])])
  }

  /** One Redis command of the user's current call reaches Redis. */
  function IssueNext(p: Presence, user: Uuid): Presence
    requires PendingOf(p, user) != []
  {
    var cmds := PendingOf(p, user);
    p.(online := Execute(cmds[0], user, p.online), inFlight := p.inFlight[user := cmds[1..]])
  }

  /** One user's own calls are serialised: a call starts only when the previous one has finished. */
  predicate Enabled(p: Presence, step: Step) {
    match step
    case BeginConnect(u, _, _) => PendingOf(p, u) == []
    case BeginDisconnect(u, _) => PendingOf(p, u) == []
    case Issue(u) => PendingOf(p, u) != []
  }

  function Next(p: Presence, step: Step): Presence
    requires Enabled(p, step)
  {
    match step
    case BeginConnect(u, ws, gs) => StartConnect(p, u, ws, gs)
    case BeginDisconnect(u, ws) => StartDisconnect(p, u, ws)
    case Issue(u) => IssueNext(p, u)
  }

  predicate Possible(p: Presence, steps: seq<Step>)
    decreases |steps|
  {
    steps == [] || (Enabled(p, steps[0]) && Possible(Next(p, steps[0]), steps[1..]))
  }

  function After(p: Presence, steps: seq<Step>): Presence
    requires Possible(p, steps)
    decreases |steps|
  {
    if steps == [] then p else After(Next(p, steps[0]), steps[1..])
  }

  /** The user's call runs to its end without another user's step in between. */
  function Drain(p: Presence, user: Uuid): Presence {
    p.(online := ExecuteAll(PendingOf(p, user), user, p.online), inFlight := p.inFlight - {user})
  }

  // ---------------------------------------------------------------- invariant

  ghost predicate Converging(p: Presence, user: Uuid) {
    OnlineGroups(ExecuteAll(PendingOf(p, user), user, p.online), user) == Elements(GroupsOf(p, user))
  }

  ghost predicate Inv(p: Presence) {
    && p.connections.Keys == p.userGroups.Keys
    && (forall u :: u in p.connections ==> p.connections[u] != {})
    && (forall u :: Converging(p, u))
  }

  lemma ExecuteAllConcat(a: seq<Command>, b: seq<Command>, user: Uuid, online: set<(Uuid, Uuid)>)
    ensures ExecuteAll(a + b, user, online) == ExecuteAll(b, user, ExecuteAll(a, user, online))
  {
    if a == [] {
      assert a + b == b;
    } else {
      assert (a + b)[1..] == a[1..] + b;
      ExecuteAllConcat(a[1..], b, user, Execute(a[0], user, online));
    }
  }

  /** Commands of one user never touch another user's entries. */
  lemma {:induction false} OthersUntouched(cmds: seq<Command>, user: Uuid, other: Uuid, online: set<(Uuid, Uuid)>)
    requires other != user
    ensures OnlineGroups(ExecuteAll(cmds, user, online), other) == OnlineGroups(online, other)
  {
    if cmds != [] {
      OthersUntouched(cmds[1..], user, other, Execute(cmds[0], user, online));
      var after := Execute(cmds[0], user, online);
      forall g ensures g in OnlineGroups(after, other) <==> g in OnlineGroups(online, other) {
        assert (g, other) in after <==> (g, other) in online;
      }
    }
  }

  /** Two sets that agree on one user's entries still do after the same commands of that user. */
  lemma {:induction false} OwnEntriesDecide(cmds: seq<Command>, user: Uuid, a: set<(Uuid, Uuid)>, b: set<(Uuid, Uuid)>)
    requires OnlineGroups(a, user) == OnlineGroups(b, user)
    ensures OnlineGroups(ExecuteAll(cmds, user, a), user) == OnlineGroups(ExecuteAll(cmds, user, b), user)
  {
    if cmds != [] {
      OneCommand(cmds[0], user, a);
      OneCommand(cmds[0], user, b);
      OwnEntriesDecide(cmds[1..], user, Execute(cmds[0], user, a), Execute(cmds[0], user, b));
    }
  }

  lemma OneCommand(cmd: Command, user: Uuid, online: set<(Uuid, Uuid)>)
    ensures cmd.SAdd? ==> OnlineGroups(Execute(cmd, user, online), user) == OnlineGroups(online, user) + {cmd.group}
    ensures cmd.SRem? ==> OnlineGroups(Execute(cmd, user, online), user) == OnlineGroups(online, user) - {cmd.group}
  {
    var after := Execute(cmd, user, online);
    forall g ensures (g in OnlineGroups(after, user)) == ((g, user) in after) {}
    forall g ensures (g in OnlineGroups(online, user)) == ((g, user) in online) {}
  }

  lemma {:induction false} AdditionsEffect(next: seq<Uuid>, previous: seq<Uuid>, user: Uuid, online: set<(Uuid, Uuid)>)
    ensures OnlineGroups(ExecuteAll(Additions(next, previous), user, online), user)
         == OnlineGroups(online, user) + (Elements(next) - Elements(previous))
  {
    if next != [] {
      var init, last := next[..|next| - 1], next[|next| - 1];
      assert next == init + [last];
      assert Elements(next) == Elements(init) + {last};
      AdditionsEffect(init, previous, user, online);
      assert last in Elements(previous) <==> last in previous;
      if last !in previous {
        ExecuteAllConcat(Additions(init, previous), [SAdd(last)], user, online);
        OneCommand(SAdd(last), user, ExecuteAll(Additions(init, previous), user, online));
      } else {
        assert Additions(next, previous) == Additions(init, previous);
      }
    }
  }

  lemma {:induction false} RemovalsEffect(previous: seq<Uuid>, next: seq<Uuid>, user: Uuid, online: set<(Uuid, Uuid)>)
    ensures OnlineGroups(ExecuteAll(Removals(previous, next), user, online), user)
         == OnlineGroups(online, user) - (Elements(previous) - Elements(next))
  {
    if previous != [] {
      var init, last := previous[..|previous| - 1], previous[|previous| - 1];
      assert previous == init + [last];
      assert Elements(previous) == Elements(init) + {last};
      RemovalsEffect(init, next, user, online);
      assert last in Elements(next) <==> last in next;
      if last !in next {
        ExecuteAllConcat(Removals(init, next), [SRem(last)], user, online);
        OneCommand(SRem(last), user, ExecuteAll(Removals(init, next), user, online));
      } else {
        assert Removals(previous, next) == Removals(init, next);
      }
    }
  }

  /** The planned commands lead exactly from the previous group list to the next one. */
  lemma ReconcileReaches(previous: seq<Uuid>, next: seq<Uuid>, user: Uuid, online: set<(Uuid, Uuid)>)
    requires OnlineGroups(online, user) == Elements(previous)
    ensures OnlineGroups(ExecuteAll(Additions(next, previous) + Removals(previous, next), user, online), user)
         == Elements(next)
  {
    ExecuteAllConcat(Additions(next, previous), Removals(previous, next), user, online);
    AdditionsEffect(next, previous, user, online);
    RemovalsEffect(previous, next, user, ExecuteAll(Additions(next, previous), user, online));
  }

  lemma StepKeepsConverging(p: Presence, step: Step, user: Uuid)
    requires Inv(p) && Enabled(p, step)
    ensures Converging(Next(p, step), user)
  {
    var q := Next(p, step);
    assert Converging(p, user);
    if user == step.user {
      match step
      case BeginConnect(_, _, gs) =>
        ReconcileReaches(GroupsOf(p, user), Distinct(gs), user, p.online);
      case BeginDisconnect(_, _) =>
        if PendingOf(q, user) != [] {
          ReconcileReaches(GroupsOf(p, user), [], user, p.online);
          assert Additions([], GroupsOf(p, user)) + Removals(GroupsOf(p, user), []) == Removals(GroupsOf(p, user), []);
        }
      case Issue(_) =>
    } else if step.Issue? {
      OthersUntouched([PendingOf(p, step.user)[0]], step.user, user, p.online);
      assert ExecuteAll([PendingOf(p, step.user)[0]], step.user, p.online) == q.online;
      OwnEntriesDecide(PendingOf(p, user), user, p.online, q.online);
    }
  }

  lemma StepKeepsInv(p: Presence, step: Step)
    requires Inv(p) && Enabled(p, step)
    ensures Inv(Next(p, step))
  {
    forall u ensures Converging(Next(p, step), u) {
      StepKeepsConverging(p, step, u);
    }
  }

  lemma EmptyInv()
    ensures Inv(EMPTY)
  {
    forall u ensures Converging(EMPTY, u) {}
  }

  lemma {:induction false} RunKeepsInv(p: Presence, steps: seq<Step>)
    requires Inv(p) && Possible(p, steps)
    ensures Inv(After(p, steps))
    decreases |steps|
  {
    if steps != [] {
      StepKeepsInv(p, steps[0]);
      RunKeepsInv(Next(p, steps[0]), steps[1..]);
    }
  }

  // ---------------------------------------------------------------- main results

  /** In any interleaving, what Redis lists for a user plus that user's unissued commands is the group list. */
  lemma InFlightSuffixCompletes(steps: seq<Step>, user: Uuid)
    requires Possible(EMPTY, steps)
    ensures var p := After(EMPTY, steps);
            OnlineGroups(ExecuteAll(PendingOf(p, user), user, p.online), user) == Elements(GroupsOf(p, user))
  {
    EmptyInv();
    RunKeepsInv(EMPTY, steps);
    assert Converging(After(EMPTY, steps), user);
  }

  /** With nothing in flight, the online sets are exactly the group lists of the connected users. */
  lemma QuiescentOnlineIsExact(steps: seq<Step>, group: Uuid, user: Uuid)
    requires Possible(EMPTY, steps)
    requires forall u :: PendingOf(After(EMPTY, steps), u) == []
    ensures var p := After(EMPTY, steps);
            (group, user) in p.online <==> SocketsOf(p, user) != {} && group in GroupsOf(p, user)
  {
    EmptyInv();
    RunKeepsInv(EMPTY, steps);
    var p := After(EMPTY, steps);
    assert Converging(p, user) && PendingOf(p, user) == [];
    assert (group, user) in p.online <==> group in OnlineGroups(p.online, user);
    assert group in Elements(GroupsOf(p, user)) <==> group in GroupsOf(p, user);
  }

  /** Even while a call is in flight, only groups named by its unissued commands can disagree. */
  lemma {:induction false} OnlyPendingGroupsDisagree(
    cmds: seq<Command>, user: Uuid, group: Uuid, online: set<(Uuid, Uuid)>)
    requires forall c :: c in cmds ==> c.group != group
    ensures (group, user) in ExecuteAll(cmds, user, online) <==> (group, user) in online
  {
    if cmds != [] {
      assert cmds[0] in cmds;
      OnlyPendingGroupsDisagree(cmds[1..], user, group, Execute(cmds[0], user, online));
    }
  }

  lemma StalenessIsBounded(steps: seq<Step>, group: Uuid, user: Uuid)
    requires Possible(EMPTY, steps)
    requires forall c :: c in PendingOf(After(EMPTY, steps), user) ==> c.group != group
    ensures var p := After(EMPTY, steps);
            (group, user) in p.online <==> group in GroupsOf(p, user)
  {
    var p := After(EMPTY, steps);
    InFlightSuffixCompletes(steps, user);
    OnlyPendingGroupsDisagree(PendingOf(p, user), user, group, p.online);
    var final := ExecuteAll(PendingOf(p, user), user, p.online);
    assert (group, user) in final <==> group in OnlineGroups(final, user);
  }

  /** Issuing every planned command one by one is what `Drain` does at once. */
  lemma {:induction false} DrainIsIssuing(p: Presence, user: Uuid)
    ensures var steps := seq(|PendingOf(p, user)|, _ => Issue(user));
            Possible(p, steps) && After(p, steps).online == Drain(p, user).online
            && After(p, steps).connections == p.connections && After(p, steps).userGroups == p.userGroups
            && PendingOf(After(p, steps), user) == []
    decreases |PendingOf(p, user)|
  {
    var steps := seq(|PendingOf(p, user)|, _ => Issue(user));
    if PendingOf(p, user) != [] {
      var q := IssueNext(p, user);
      DrainIsIssuing(q, user);
      assert steps[1..] == seq(|PendingOf(q, user)|, _ => Issue(user));
    }
  }
}
