/**
  The connection manager and the WebSocket handlers as imperative code over the status store,
  and what whole runs of handler calls announce.
*/
module PresenceHandlers {
  import opened Prelude
  import opened PresenceReconcile
  import opened StatusStore
  import opened ReadyIndex

  /** One record per `publish_*` call; an online or offline record stands for one event per listed group. */
  datatype Announcement =
    | UserOnline(user: Uuid, groups: seq<Uuid>)
    | UserOffline(user: Uuid, groups: seq<Uuid>)
    | ReadyChanged(user: Uuid, group: Uuid, ready: Option<Payload>)
    | ConnectionChanged(user: Uuid, group: Uuid, state: Connection)

  predicate IsLifecycle(a: Announcement) { a.UserOnline? || a.UserOffline? }

  /** The online and offline announcements among everything published. */
  function LifecycleOf(log: seq<Announcement>): seq<Announcement> {
    if log == [] then []
    else LifecycleOf(log[..|log| - 1]) + if IsLifecycle(log[|log| - 1]) then [log[|log| - 1]] else []
  }

  lemma LifecycleOfSnoc(log: seq<Announcement>, a: Announcement)
    ensures LifecycleOf(log + [a]) == LifecycleOf(log) + if IsLifecycle(a) then [a] else []
  {
    assert (log + [a])[..|log|] == log;
  }

  datatype Hub = Hub(presence: Presence, connection: map<Uuid, ConnectionHash>, lifecycle: seq<Announcement>)

  const START := Hub(EMPTY, map[], [])

  function HubConnect(h: Hub, user: Uuid, socket: Socket, groups: seq<Uuid>, now: nat): Hub {
    Hub(Drain(StartConnect(h.presence, user, socket, groups), user),
        h.connection[user := ConnectionHash(Online, Second(now))],
        h.lifecycle + if SocketsOf(h.presence, user) == {} then [UserOnline(user, groups)] else [])
  }

  function HubDisconnect(h: Hub, user: Uuid, socket: Socket): Hub {
    var p := Drain(StartDisconnect(h.presence, user, socket), user);
    if user in p.connections then h.(presence := p)
    else Hub(p, h.connection - {user}, h.lifecycle + [UserOffline(user, GroupsOf(h.presence, user))])
  }

  function HubLifecycle(h: Hub, user: Uuid, away: bool, now: nat): Hub {
    h.(connection := h.connection[user := ConnectionHash(if away then Away else Online, Second(now))])
  }

  /** A message as it arrives on a socket, before its fields have been checked. */
  datatype Message =
    | PresenceLifecycle(state: Option<string>)
    | ReadyToggle(group: Option<Uuid>, ready: Option<bool>)
    | OtherMessage

  /** What reaches the WebSocket endpoint; the group list of a new socket is read from the database. */
  datatype Incoming =
    | Opened(user: Uuid, socket: Socket, groups: seq<Uuid>)
    | Closed(user: Uuid, socket: Socket)
    | Received(user: Uuid, message: Message, readAt: nat)

  datatype Arrival = Arrival(at: nat, incoming: Incoming)

  /** The calls that concern sockets and connection hashes, if any. */
  function CallsFor(a: Arrival): seq<Call> {
    match a.incoming
    case Opened(u, ws, gs) => [Connecting(u, ws, gs, a.at)]
    case Closed(u, ws) => [Disconnecting(u, ws)]
    case Received(u, PresenceLifecycle(Some(s)), _) =>
      if s == "away" || s == "active" then [Reporting(u, s == "away", a.at)] else []
    case Received(_, _, _) => []
  }

  function ApplyFirst(h: Hub, calls: seq<Call>): Hub { if calls == [] then h else Apply(h, calls[0]) }

  function HubArrival(h: Hub, a: Arrival): Hub { ApplyFirst(h, CallsFor(a)) }

  function CallsOf(run: seq<Arrival>): seq<Call> {
    if run == [] then [] else CallsOf(run[..|run| - 1]) + CallsFor(run[|run| - 1])
  }

  /** The clock never goes back, and a message's handler reads it no later than it writes. */
  ghost predicate InTime(run: seq<Arrival>, start: nat) {
    && (forall i :: 0 <= i < |run| ==> start <= run[i].at)
    && (forall i, j :: 0 <= i < j < |run| ==> run[i].at <= run[j].at)
    && (forall i :: 0 <= i < |run| && run[i].incoming.Received? ==> run[i].incoming.readAt <= run[i].at)
  }

  class ConnectionManager {
    const store: StatusStore
    var connections: map<Uuid, set<Socket>>
    var userGroups: map<Uuid, seq<Uuid>>
    var published: seq<Announcement>

    ghost function Tracked(): Presence
      reads this, store
    {
      Presence(connections, userGroups, store.online, map[])
    }

    ghost function Summary(): Hub
      reads this, store
    {
      Hub(Tracked(), store.connection, LifecycleOf(published))
    }

    /** The online sets are exact, and no live ready flag is missing from the index, now and later. */
    ghost predicate Valid(now: nat)
      reads this, store
    {
      Inv(Tracked()) && IndexAgrees(store.State(), now) && Honest(store.State())
    }

    constructor (store: StatusStore)
      requires store.online == {} && store.connection == map[]
      ensures this.store == store && Summary() == START
      ensures store.State() == Ready(map[], {}) ==> Valid(0)
    {
      this.store := store;
      connections, userGroups, published := map[], map[], [];
      new;
      EmptyInv();
    }

    method Connect(socket: Socket, user: Uuid, groups: seq<Uuid>) returns (isFirst: bool)
      modifies this`connections, this`userGroups, store`online
      ensures Tracked() == Drain(StartConnect(old(Tracked()), user, socket, groups), user)
      ensures isFirst <==> SocketsOf(old(Tracked()), user) == {}
    {
      isFirst := user !in connections || connections[user] == {};
      var previous := if user in userGroups then userGroups[user] else [];
      var next := Distinct(groups);
      if isFirst {
        connections := connections[user := {socket}];
      } else {
        connections := connections[user := connections[user] + {socket}];
      }
      userGroups := userGroups[user := next];

      ghost var before := store.online;
      IssueAdditions(user, next, previous);
      ghost var added := store.online;
      IssueRemovals(user, previous, next);
      ExecuteAllConcat(Additions(next, previous), Removals(previous, next), user, before);
      ghost var started := StartConnect(old(Tracked()), user, socket, groups);
      assert started.inFlight - {user} == map[];
      assert SocketsOf(old(Tracked()), user) + {socket} == connections[user];
    }

    /** The first loop of `connect`. */
    method IssueAdditions(user: Uuid, next: seq<Uuid>, previous: seq<Uuid>)
      modifies store`online
      ensures store.online == PresenceReconcile.ExecuteAll(Additions(next, previous), user, old(store.online))
    {
      ghost var before := store.online;
      var i := 0;
      while i < |next|
        invariant 0 <= i <= |next|
        invariant store.online == PresenceReconcile.ExecuteAll(Additions(next[..i], previous), user, before)
      {
        assert next[..i + 1][..i] == next[..i] && next[..i + 1][i] == next[i];
        if next[i] !in previous {
          store.AddToGroupOnline(next[i], user);
          ExecuteAllConcat(Additions(next[..i], previous), [SAdd(next[i])], user, before);
        } else {
          assert Additions(next[..i + 1], previous) == Additions(next[..i], previous);
        }
        i := i + 1;
      }
      assert next[..|next|] == next;
    }

    /** The second loop of `connect`, and with nothing kept the loop of `disconnect`. */
    method IssueRemovals(user: Uuid, previous: seq<Uuid>, next: seq<Uuid>)
      modifies store`online
      ensures store.online == PresenceReconcile.ExecuteAll(Removals(previous, next), user, old(store.online))
    {
      ghost var before := store.online;
      var i := 0;
      while i < |previous|
        invariant 0 <= i <= |previous|
        invariant store.online == PresenceReconcile.ExecuteAll(Removals(previous[..i], next), user, before)
      {
        assert previous[..i + 1][..i] == previous[..i] && previous[..i + 1][i] == previous[i];
        if previous[i] !in next {
          store.RemoveFromGroupOnline(previous[i], user);
          ExecuteAllConcat(Removals(previous[..i], next), [SRem(previous[i])], user, before);
        } else {
          assert Removals(previous[..i + 1], next) == Removals(previous[..i], next);
        }
        i := i + 1;
      }
      assert previous[..|previous|] == previous;
    }

    method Disconnect(user: Uuid, socket: Socket) returns (wasLast: bool)
      modifies this`connections, this`userGroups, store`online
      ensures Tracked() == Drain(StartDisconnect(old(Tracked()), user, socket), user)
      ensures wasLast <==> user !in connections
    {
      assert old(Tracked()).inFlight - {user} == map[];
      if user !in connections {
        return true;
      }
      var left := connections[user] - {socket};
      connections := connections[user := left];
      if left != {} {
        return false;
      }
      var groups := if user in userGroups then userGroups[user] else [];
      userGroups := userGroups - {user};
      connections := connections - {user};
      IssueRemovals(user, groups, []);
      ghost var started := StartDisconnect(old(Tracked()), user, socket);
      assert started.inFlight - {user} == map[];
      assert connections == started.connections;
      return true;
    }

    method Publish(a: Announcement)
      modifies this`published
      ensures published == old(published) + [a]
      ensures LifecycleOf(published) == LifecycleOf(old(published)) + if IsLifecycle(a) then [a] else []
    {
      LifecycleOfSnoc(published, a);
      published := published + [a];
    }

    method AnnounceExpired(group: Uuid, expired: seq<Uuid>)
      modifies this`published
      ensures published == old(published) + NotReady(group, expired)
      ensures LifecycleOf(published) == LifecycleOf(old(published))
    {
      var j := 0;
      while j < |expired|
        invariant 0 <= j <= |expired|
        invariant published == old(published) + NotReady(group, expired[..j])
        invariant LifecycleOf(published) == LifecycleOf(old(published))
      {
        Publish(ReadyChanged(expired[j], group, None));
        assert NotReady(group, expired[..j + 1])
            == NotReady(group, expired[..j]) + [ReadyChanged(expired[j], group, None)];
        j := j + 1;
      }
      assert expired[..j] == expired;
    }

    method SweepGroup(group: Uuid, now: nat) returns (expired: seq<Uuid>)
      modifies this`published, store`readyKeys, store`readyUsers
      ensures store.State() == Sweep(old(store.State()), group, now)
      ensures forall u :: u in expired <==>
                (group, u) in old(store.readyUsers) && !Live(old(store.State()), (group, u), now)
      ensures forall i, j :: 0 <= i < j < |expired| ==> expired[i] != expired[j]
      ensures published == old(published) + NotReady(group, expired)
      ensures LifecycleOf(published) == LifecycleOf(old(published))
    {
      expired := store.SweepExpiredReady(group, now);
      AnnounceExpired(group, expired);
    }

    /** Every flag that the sweeps find dead is announced as not ready, once, and nothing else is announced. */
    method SweepAllGroups(groups: seq<Uuid>, now: nat)
      modifies this`published, store`readyKeys, store`readyUsers
      ensures store.State() == SweepAll(old(store.State()), groups, now)
      ensures LifecycleOf(published) == LifecycleOf(old(published))
      ensures old(published) <= published
      ensures ExactlyTheDead(published[|old(published)|..], old(store.State()), groups, now)
    {
      ghost var before := store.State();
      ghost var news: seq<Announcement> := [];
      var i := 0;
      while i < |groups|
        invariant 0 <= i <= |groups|
        invariant store.State() == SweepAll(before, groups[..i], now)
        invariant LifecycleOf(published) == LifecycleOf(old(published)) && published == old(published) + news
        invariant ExactlyTheDead(news, before, groups[..i], now)
      {
        ghost var s := store.State();
        var expired := SweepGroup(groups[i], now);
        MoreSwept(before, groups, i, now);
        MoreDead(news, before, s, groups, i, expired, now);
        news := Appended(old(published), news, NotReady(groups[i], expired));
        i := i + 1;
      }
      assert groups[..|groups|] == groups;
    }

    /** One snapshot per group, each what a scan of all keys would give. */
    method SendPresenceSnapshot(groups: seq<Uuid>, now: nat) returns (snapshots: seq<seq<Member>>)
      modifies store`readyKeys, store`readyUsers
      ensures IndexAgrees(old(store.State()), now) ==>
                AreSnapshots(snapshots, store.online, store.connection, old(store.State()), groups, now)
      ensures OnlyDeadDropped(old(store.State()), store.State(), now)
    {
      ghost var before := store.State();
      snapshots := [];
      var i := 0;
      while i < |groups|
        invariant 0 <= i <= |groups|
        invariant OnlyDeadDropped(before, store.State(), now)
        invariant IndexAgrees(before, now) ==>
                    AreSnapshots(snapshots, store.online, store.connection, before, groups[..i], now)
      {
        ghost var s := store.State();
        var members := store.GetGroupPresenceSnapshot(groups[i], now);
        DropTransitive(before, s, store.State(), now);
        MoreSnapshots(before, s, store.online, store.connection, snapshots, members, groups, i, now);
        snapshots := snapshots + [members];
        i := i + 1;
      }
      assert groups[..|groups|] == groups;
    }

    method SweepAndSnapshot(groups: seq<Uuid>, now: nat) returns (snapshots: seq<seq<Member>>)
      modifies this`published, store`readyKeys, store`readyUsers
      ensures IndexAgrees(old(store.State()), now) ==>
                AreSnapshots(snapshots, store.online, store.connection, old(store.State()), groups, now)
      ensures OnlyDeadDropped(old(store.State()), store.State(), now)
      ensures LifecycleOf(published) == LifecycleOf(old(published)) && old(published) <= published
      ensures ExactlyTheDead(published[|old(published)|..], old(store.State()), groups, now)
    {
      ghost var before := store.State();
      SweepAllGroups(groups, now);
      SweepAllDropsDead(before, groups, now);
      ghost var swept := store.State();
      snapshots := SendPresenceSnapshot(groups, now);
      DropTransitive(before, swept, store.State(), now);
      DropKeepsSnapshots(before, swept, snapshots, store.online, store.connection, groups, now);
    }

    method AnnounceFirst(user: Uuid, groups: seq<Uuid>, isFirst: bool)
      modifies this`published
      ensures published == old(published) + if isFirst then [UserOnline(user, groups)] else []
      ensures LifecycleOf(published)
           == LifecycleOf(old(published)) + if isFirst then [UserOnline(user, groups)] else []
    {
      if isFirst {
        Publish(UserOnline(user, groups));
      }
    }

    method HandleConnect(socket: Socket, user: Uuid, groups: seq<Uuid>, now: nat) returns (snapshots: seq<seq<Member>>)
      modifies this, store
      ensures Summary() == HubConnect(old(Summary()), user, socket, groups, now)
      ensures IndexAgrees(old(store.State()), now) ==>
                AreSnapshots(snapshots, store.online, store.connection, old(store.State()), groups, now)
      ensures OnlyDeadDropped(old(store.State()), store.State(), now)
      ensures AnnouncedOnConnect(old(published), published, old(store.State()), user, groups, now,
                                 SocketsOf(old(Tracked()), user) == {})
    {
      store.SetUserConnection(user, Online, now);
      var isFirst := Connect(socket, user, groups);
      ghost var before := store.State();
      snapshots := SweepAndSnapshot(groups, now);
      ghost var announced := published;
      AnnounceFirst(user, groups, isFirst);
      ConnectAnnounced(old(published), announced, published, before, user, groups, now, isFirst);
    }

    method HandleDisconnect(user: Uuid, socket: Socket)
      modifies this, store`online, store`connection
      ensures Summary() == HubDisconnect(old(Summary()), user, socket)
    {
      var groups := if user in userGroups then userGroups[user] else [];
      var wasLast := Disconnect(user, socket);
      if wasLast {
        store.ClearUserConnection(user);
        Publish(UserOffline(user, groups));
      }
    }

    method AnnounceConnection(user: Uuid, groups: seq<Uuid>, connection: Connection)
      modifies this`published
      ensures published == old(published) + ConnectionChanges(user, groups, connection)
      ensures LifecycleOf(published) == LifecycleOf(old(published))
    {
      var i := 0;
      while i < |groups|
        invariant 0 <= i <= |groups|
        invariant published == old(published) + ConnectionChanges(user, groups[..i], connection)
        invariant LifecycleOf(published) == LifecycleOf(old(published))
      {
        Publish(ConnectionChanged(user, groups[i], connection));
        assert ConnectionChanges(user, groups[..i + 1], connection)
            == ConnectionChanges(user, groups[..i], connection) + [ConnectionChanged(user, groups[i], connection)];
        i := i + 1;
      }
      assert groups[..i] == groups;
    }

    method HandleMessage(user: Uuid, message: Message, readAt: nat, now: nat)
      requires readAt <= now
      modifies this`published, store`connection, store`readyKeys, store`readyUsers
      ensures match message
              case PresenceLifecycle(Some(s)) =>
                && store.State() == old(store.State())
                && published == old(published)
                   + (if s == "away" then ConnectionChanges(user, GroupsOf(Tracked(), user), Away)
                      else if s == "active" then ConnectionChanges(user, GroupsOf(Tracked(), user), Online)
                      else [])
                && Summary() == if s == "away" || s == "active"
                                then HubLifecycle(old(Summary()), user, s == "away", now)
                                else old(Summary())
              case ReadyToggle(Some(g), Some(ready)) =>
                && Summary() == old(Summary())
                && (g in GroupsOf(Tracked(), user) ==>
                      && store.State() == Perform(old(store.State()),
                           if ready then SetCall((g, user), readAt) else ClearCall((g, user)), now)
                      && published == old(published)
                         + [ReadyChanged(user, g, if ready then Some(PayloadAt(readAt)) else None)])
                && (g !in GroupsOf(Tracked(), user) ==>
                      && store.State() == old(store.State())
                      && published == old(published))
              case _ =>
                && Summary() == old(Summary())
                && store.State() == old(store.State())
                && published == old(published)
    {
      var groups := if user in userGroups then userGroups[user] else [];
      match message
      case PresenceLifecycle(state) =>
        var connection;
        if state == Some("away") {
          connection := Away;
        } else if state == Some("active") {
          connection := Online;
        } else {
          return;
        }
        store.SetUserConnection(user, connection, now);
        AnnounceConnection(user, groups, connection);
      case ReadyToggle(group, ready) =>
        if group.None? || group.value !in groups || ready.None? {
          return;
        }
        if ready.value {
          var payload := store.SetGroupReady(group.value, user, readAt, now);
          Publish(ReadyChanged(user, group.value, Some(payload)));
        } else {
          store.ClearGroupReady(group.value, user, now);
          Publish(ReadyChanged(user, group.value, None));
        }
      case OtherMessage =>
    }

    /** Delivery of a group event: every socket of every listed user except the excluded one, once. */
    method BroadcastToGroup(group: Uuid, exclude: Option<Uuid>) returns (sent: multiset<(Uuid, Socket)>)
      ensures forall u: Uuid, ws: Socket :: sent[(u, ws)] ==
                if ws in SocketsOf(Tracked(), u) && group in GroupsOf(Tracked(), u) && exclude != Some(u) then 1 else 0
    {
      sent := multiset{};
      var users := connections.Keys;
      while users != {}
        invariant users <= connections.Keys
        invariant forall u: Uuid, ws: Socket :: sent[(u, ws)] ==
                    if u !in users && ws in SocketsOf(Tracked(), u) && group in GroupsOf(Tracked(), u)
                        && exclude != Some(u) then 1 else 0
        decreases users
      {
        var uid :| uid in users;
        users := users - {uid};
        var groups := if uid in userGroups then userGroups[uid] else [];
        if Some(uid) != exclude && group in groups {
          ghost var already := sent;
          var sockets := connections[uid];
          while sockets != {}
            invariant sockets <= connections[uid]
            invariant forall u: Uuid, ws: Socket :: sent[(u, ws)] ==
                        already[(u, ws)] + if u == uid && ws in connections[uid] - sockets then 1 else 0
            decreases sockets
          {
            var ws :| ws in sockets;
            sockets := sockets - {ws};
            sent := sent + multiset{(uid, ws)};
          }
        }
      }
    }

    /**
      Anything that arrives: the online sets stay exact and the ready index complete, and the snapshots
      for a new socket are those of a scan of all keys.
    */
    method Handle(a: Arrival, ghost earlier: nat) returns (snapshots: seq<seq<Member>>)
      requires Valid(earlier) && earlier <= a.at
      requires a.incoming.Received? ==> a.incoming.readAt <= a.at
      modifies this, store
      ensures Valid(a.at)
      ensures Summary() == HubArrival(old(Summary()), a)
      ensures a.incoming.Opened? ==>
                AreTrue(snapshots, store.online, store.connection, old(store.State()), a.incoming.groups, a.at)
    {
      ghost var h, r := Summary(), store.State();
      LaterAgreement(r, earlier, a.at);
      snapshots := [];
      match a.incoming
      case Opened(user, socket, groups) =>
        CallKeepsInv(h, Connecting(user, socket, groups, a.at));
        snapshots := HandleConnect(socket, user, groups, a.at);
        DropKeepsAgreement(r, store.State(), a.at);
        SnapshotsAreTrue(snapshots, store.online, store.connection, r, groups, a.at);
      case Closed(user, socket) =>
        CallKeepsInv(h, Disconnecting(user, socket));
        HandleDisconnect(user, socket);
      case Received(user, message, readAt) =>
        HandleMessage(user, message, readAt, a.at);
        MessageKeepsAgreement(r, store.State(), user, message, readAt, a.at);
    }

    /**
      Any number of arrivals: sockets, group lists, online sets, hashes and lifecycle announcements are
      those of the specified run of calls.
    */
    method Serve(run: seq<Arrival>)
      requires Summary() == START && Valid(0) && InTime(run, 0)
      modifies this, store
      ensures Summary() == HubAfter(CallsOf(run))
      ensures Valid(LastTime(run))
    {
      var i := 0;
      while i < |run|
        invariant 0 <= i <= |run|
        invariant Summary() == HubAfter(CallsOf(run[..i])) && Valid(LastTime(run[..i]))
      {
        HubAfterArrival(run, i);
        TimeGoesOn(run, i);
        var snapshots := Handle(run[i], LastTime(run[..i]));
        i := i + 1;
      }
      assert run[..i] == run;
    }
  }

  function LastTime(run: seq<Arrival>): nat { if run == [] then 0 else run[|run| - 1].at }

  lemma TimeGoesOn(run: seq<Arrival>, i: nat)
    requires i < |run| && InTime(run, 0)
    ensures LastTime(run[..i]) <= run[i].at == LastTime(run[..i + 1])
    ensures run[i].incoming.Received? ==> run[i].incoming.readAt <= run[i].at
  {
  }

  lemma HubAfterArrival(run: seq<Arrival>, i: nat)
    requires i < |run|
    ensures HubAfter(CallsOf(run[..i + 1])) == HubArrival(HubAfter(CallsOf(run[..i])), run[i])
  {
    assert run[..i + 1][..i] == run[..i];
    HubAfterMore(CallsOf(run[..i]), CallsFor(run[i]));
  }

  lemma HubAfterMore(calls: seq<Call>, more: seq<Call>)
    requires |more| <= 1
    ensures HubAfter(calls + more) == ApplyFirst(HubAfter(calls), more)
  {
    if more == [] {
      assert calls + more == calls;
    } else {
      assert (calls + more)[..|calls|] == calls;
    }
  }

  lemma DropKeepsAgreement(before: Ready, after: Ready, now: nat)
    requires IndexAgrees(before, now) && Honest(before) && OnlyDeadDropped(before, after, now)
    ensures IndexAgrees(after, now) && Honest(after)
  {
    DropKeepsSnapshot(before, after, {}, map[], 0, now);
  }

  /** The ready calls a message can lead to. */
  lemma MessageKeepsAgreement(before: Ready, after: Ready, user: Uuid, message: Message, readAt: nat, now: nat)
    requires IndexAgrees(before, now) && Honest(before) && readAt <= now
    requires after == before ||
             (message.ReadyToggle? && message.group.Some? &&
              (after == Perform(before, SetCall((message.group.value, user), readAt), now) ||
               after == Perform(before, ClearCall((message.group.value, user)), now)))
    ensures IndexAgrees(after, now) && Honest(after)
  {
    if after != before {
      PerformKeepsAgreement(before, SetCall((message.group.value, user), readAt), now);
      PerformKeepsAgreement(before, ClearCall((message.group.value, user)), now);
    }
  }

  /** For every group in turn, what a scan of all keys shows. */
  ghost predicate AreSnapshots(
    snapshots: seq<seq<Member>>, online: set<(Uuid, Uuid)>, connection: map<Uuid, ConnectionHash>,
    r: Ready, groups: seq<Uuid>, now: nat)
  {
    && |snapshots| == |groups|
    && forall i :: 0 <= i < |groups| ==> snapshots[i] == NaiveSnapshot(online, connection, r, groups[i], now)
  }

  /** For every group in turn: who is online or ready there, and how. */
  ghost predicate AreTrue(
    snapshots: seq<seq<Member>>, online: set<(Uuid, Uuid)>, connection: map<Uuid, ConnectionHash>,
    r: Ready, groups: seq<Uuid>, now: nat)
  {
    && |snapshots| == |groups|
    && forall i :: 0 <= i < |groups| ==> IsTrue(snapshots[i], online, connection, r, groups[i], now)
  }

  lemma SnapshotsAreTrue(
    snapshots: seq<seq<Member>>, online: set<(Uuid, Uuid)>, connection: map<Uuid, ConnectionHash>,
    r: Ready, groups: seq<Uuid>, now: nat)
    requires AreSnapshots(snapshots, online, connection, r, groups, now)
    ensures AreTrue(snapshots, online, connection, r, groups, now)
  {
    forall i | 0 <= i < |groups| ensures IsTrue(snapshots[i], online, connection, r, groups[i], now) {
      NaiveSnapshotIsTrue(online, connection, r, groups[i], now);
    }
  }

  lemma DropKeepsSnapshots(
    before: Ready, after: Ready, snapshots: seq<seq<Member>>,
    online: set<(Uuid, Uuid)>, connection: map<Uuid, ConnectionHash>, groups: seq<Uuid>, now: nat)
    requires OnlyDeadDropped(before, after, now)
    requires IndexAgrees(after, now) ==> AreSnapshots(snapshots, online, connection, after, groups, now)
    ensures IndexAgrees(before, now) ==> AreSnapshots(snapshots, online, connection, before, groups, now)
  {
    if IndexAgrees(before, now) {
      DropKeepsSnapshot(before, after, online, connection, 0, now);
      forall i | 0 <= i < |groups|
        ensures snapshots[i] == NaiveSnapshot(online, connection, before, groups[i], now)
      {
        DropKeepsSnapshot(before, after, online, connection, groups[i], now);
      }
    }
  }

  /** One more snapshot, read after some dead entries were dropped from the index. */
  lemma MoreSnapshots(
    before: Ready, s: Ready, online: set<(Uuid, Uuid)>, connection: map<Uuid, ConnectionHash>,
    snapshots: seq<seq<Member>>, members: seq<Member>, groups: seq<Uuid>, i: nat, now: nat)
    requires i < |groups| && OnlyDeadDropped(before, s, now)
    requires IndexAgrees(before, now) ==> AreSnapshots(snapshots, online, connection, before, groups[..i], now)
    requires IndexAgrees(s, now) ==> members == NaiveSnapshot(online, connection, s, groups[i], now)
    ensures IndexAgrees(before, now) ==>
              AreSnapshots(snapshots + [members], online, connection, before, groups[..i + 1], now)
  {
    if IndexAgrees(before, now) {
      DropKeepsSnapshot(before, s, online, connection, groups[i], now);
      OneMoreSnapshot(snapshots, members, online, connection, before, groups, i, now);
    }
  }

  lemma OneMoreSnapshot(
    snapshots: seq<seq<Member>>, members: seq<Member>, online: set<(Uuid, Uuid)>,
    connection: map<Uuid, ConnectionHash>, r: Ready, groups: seq<Uuid>, i: nat, now: nat)
    requires i < |groups| && AreSnapshots(snapshots, online, connection, r, groups[..i], now)
    requires members == NaiveSnapshot(online, connection, r, groups[i], now)
    ensures AreSnapshots(snapshots + [members], online, connection, r, groups[..i + 1], now)
  {
  }

  function SweepAll(r: Ready, groups: seq<Uuid>, now: nat): Ready {
    if groups == [] then r
    else Sweep(SweepAll(r, groups[..|groups| - 1], now), groups[|groups| - 1], now)
  }

  function NotReady(group: Uuid, users: seq<Uuid>): seq<Announcement> {
    seq(|users|, i requires 0 <= i < |users| => ReadyChanged(users[i], group, None))
  }

  function ConnectionChanges(user: Uuid, groups: seq<Uuid>, state: Connection): seq<Announcement> {
    seq(|groups|, i requires 0 <= i < |groups| => ConnectionChanged(user, groups[i], state))
  }

  /** The flag is indexed in one of the groups and has no live key. */
  ghost predicate DeadFlag(before: Ready, groups: seq<Uuid>, group: Uuid, user: Uuid, now: nat) {
    group in groups && (group, user) in before.index && !Live(before, (group, user), now)
  }

  /** These announcements take back exactly the dead flags of these groups, each once. */
  ghost predicate ExactlyTheDead(news: seq<Announcement>, before: Ready, groups: seq<Uuid>, now: nat) {
    && (forall a :: a in news ==> a.ReadyChanged? && a.ready == None && DeadFlag(before, groups, a.group, a.user, now))
    && (forall g, u :: DeadFlag(before, groups, g, u, now) ==> ReadyChanged(u, g, None) in news)
    && (forall i, j :: 0 <= i < j < |news| ==> news[i] != news[j])
  }

  /** What a connect publishes: the dead flags of its groups are taken back, then a first socket goes online. */
  ghost predicate AnnouncedOnConnect(
    log: seq<Announcement>, after: seq<Announcement>, before: Ready, user: Uuid, groups: seq<Uuid>, now: nat,
    first: bool)
  {
    exists news :: ExactlyTheDead(news, before, groups, now)
                   && after == log + news + if first then [UserOnline(user, groups)] else []
  }

  lemma ConnectAnnounced(
    log: seq<Announcement>, swept: seq<Announcement>, after: seq<Announcement>, before: Ready, user: Uuid,
    groups: seq<Uuid>, now: nat, first: bool)
    requires log <= swept && ExactlyTheDead(swept[|log|..], before, groups, now)
    requires after == swept + if first then [UserOnline(user, groups)] else []
    ensures AnnouncedOnConnect(log, after, before, user, groups, now, first)
  {
    assert swept == log + swept[|log|..];
  }

  /** Sweeping some groups leaves of their index exactly the live entries, and the other groups alone. */
  lemma {:induction false} SweptIndex(r: Ready, groups: seq<Uuid>, now: nat, key: Key)
    ensures key in SweepAll(r, groups, now).index <==> key in r.index && (key.0 in groups ==> Live(r, key, now))
  {
    if groups != [] {
      var init, last := groups[..|groups| - 1], groups[|groups| - 1];
      assert groups == init + [last];
      SweptIndex(r, init, now, key);
      SweepAllDropsDead(r, init, now);
      DropKeepsReport(r, SweepAll(r, init, now), key, now);
    }
  }

  /** `news + more`, which behind `log` is the same either way the log is read. */
  function Appended(log: seq<Announcement>, news: seq<Announcement>, more: seq<Announcement>): (all: seq<Announcement>)
    ensures log + all == (log + news) + more
  {
    assert log + (news + more) == (log + news) + more;
    news + more
  }

  lemma MoreSwept(r: Ready, groups: seq<Uuid>, i: nat, now: nat)
    requires i < |groups|
    ensures SweepAll(r, groups[..i + 1], now) == Sweep(SweepAll(r, groups[..i], now), groups[i], now)
  {
    assert groups[..i + 1][..i] == groups[..i] && groups[..i + 1][i] == groups[i];
  }

  lemma MoreDead(
    news: seq<Announcement>, before: Ready, s: Ready, groups: seq<Uuid>, i: nat, expired: seq<Uuid>, now: nat)
    requires i < |groups| && s == SweepAll(before, groups[..i], now) && ExactlyTheDead(news, before, groups[..i], now)
    requires forall u :: u in expired <==> (groups[i], u) in s.index && !Live(s, (groups[i], u), now)
    requires forall j, k :: 0 <= j < k < |expired| ==> expired[j] != expired[k]
    ensures ExactlyTheDead(news + NotReady(groups[i], expired), before, groups[..i + 1], now)
  {
    var g := groups[i];
    forall u ensures u in expired <==> DeadFlag(before, [g], g, u, now) && g !in groups[..i] {
      SweptIndex(before, groups[..i], now, (g, u));
      SweepAllDropsDead(before, groups[..i], now);
      DropKeepsReport(before, s, (g, u), now);
    }
    assert groups[..i + 1] == groups[..i] + [g];
    DeadAppended(news, before, groups[..i], g, expired, now);
  }

  lemma DeadAppended(
    news: seq<Announcement>, before: Ready, groups: seq<Uuid>, g: Uuid, expired: seq<Uuid>, now: nat)
    requires ExactlyTheDead(news, before, groups, now)
    requires forall u :: u in expired <==> DeadFlag(before, [g], g, u, now) && g !in groups
    requires forall j, k :: 0 <= j < k < |expired| ==> expired[j] != expired[k]
    ensures ExactlyTheDead(news + NotReady(g, expired), before, groups + [g], now)
  {
    var more := NotReady(g, expired);
    var all := news + more;
    forall a | a in all
      ensures a.ReadyChanged? && a.ready == None && DeadFlag(before, groups + [g], a.group, a.user, now)
    {
      if a in more {
        assert a.user in expired;
        assert DeadFlag(before, [g], g, a.user, now);
      } else {
        assert DeadFlag(before, groups, a.group, a.user, now);
      }
    }
    forall h, u | DeadFlag(before, groups + [g], h, u, now) ensures ReadyChanged(u, h, None) in all {
      if h in groups {
        assert DeadFlag(before, groups, h, u, now);
      } else {
        assert DeadFlag(before, [g], g, u, now) && u in expired;
        var j :| 0 <= j < |expired| && expired[j] == u;
        assert more[j] == ReadyChanged(u, h, None);
      }
    }
    forall i, j | 0 <= i < j < |all| ensures all[i] != all[j] {
      if i < |news| && j >= |news| {
        assert all[i] in news && DeadFlag(before, groups, all[i].group, all[i].user, now);
        assert all[j] == more[j - |news|] && all[j].user in expired;
      }
    }
  }

  lemma SweepDropsDead(before: Ready, s: Ready, group: Uuid, now: nat)
    requires OnlyDeadDropped(before, s, now)
    ensures OnlyDeadDropped(before, Sweep(s, group, now), now)
  {
    assert OnlyDeadDropped(s, Sweep(s, group, now), now);
    DropTransitive(before, s, Sweep(s, group, now), now);
  }

  lemma {:induction false} SweepAllDropsDead(r: Ready, groups: seq<Uuid>, now: nat)
    ensures OnlyDeadDropped(r, SweepAll(r, groups, now), now)
  {
    if groups != [] {
      SweepAllDropsDead(r, groups[..|groups| - 1], now);
      SweepDropsDead(r, SweepAll(r, groups[..|groups| - 1], now), groups[|groups| - 1], now);
    }
  }

  // ---------------------------------------------------------------- runs of handler calls

  datatype Call =
    | Connecting(user: Uuid, socket: Socket, groups: seq<Uuid>, now: nat)
    | Disconnecting(user: Uuid, socket: Socket)
    | Reporting(user: Uuid, away: bool, now: nat)

  function Apply(h: Hub, call: Call): Hub {
    match call
    case Connecting(u, ws, gs, now) => HubConnect(h, u, ws, gs, now)
    case Disconnecting(u, ws) => HubDisconnect(h, u, ws)
    case Reporting(u, away, now) => HubLifecycle(h, u, away, now)
  }

  function HubAfter(run: seq<Call>): Hub {
    if run == [] then START else Apply(HubAfter(run[..|run| - 1]), run[|run| - 1])
  }

  /** The sockets a user has opened and not closed, read off the history alone. */
  function OpenSockets(run: seq<Call>, user: Uuid): set<Socket> {
    if run == [] then {}
    else
      var open, last := OpenSockets(run[..|run| - 1], user), run[|run| - 1];
      if last.user != user || last.Reporting? then open
      else if last.Connecting? then open + {last.socket}
      else open - {last.socket}
  }

  /** The group list of the user's latest connect. */
  function LatestGroups(run: seq<Call>, user: Uuid): seq<Uuid> {
    if run == [] then []
    else if run[|run| - 1].Connecting? && run[|run| - 1].user == user then Distinct(run[|run| - 1].groups)
    else LatestGroups(run[..|run| - 1], user)
  }

  function AnnouncedFor(log: seq<Announcement>, user: Uuid): seq<Announcement> {
    if log == [] then []
    else AnnouncedFor(log[..|log| - 1], user) + if log[|log| - 1].user == user then [log[|log| - 1]] else []
  }

  /** Online, offline, online, and so on. */
  predicate Alternates(log: seq<Announcement>) {
    forall i :: 0 <= i < |log| ==> (log[i].UserOnline? <==> i % 2 == 0)
  }

  /** A disconnect of the user that found no open socket of that user. */
  predicate StrayDisconnect(run: seq<Call>, user: Uuid) {
    run != [] &&
    (StrayDisconnect(run[..|run| - 1], user) ||
     (run[|run| - 1].Disconnecting? && run[|run| - 1].user == user && OpenSockets(run[..|run| - 1], user) == {}))
  }

  /** Messages arrive only on open sockets. */
  predicate MessagesOnOpenSockets(run: seq<Call>) {
    run == [] ||
    (MessagesOnOpenSockets(run[..|run| - 1]) &&
     (run[|run| - 1].Reporting? ==> OpenSockets(run[..|run| - 1], run[|run| - 1].user) != {}))
  }

  lemma AnnouncedForSnoc(log: seq<Announcement>, a: Announcement, user: Uuid)
    ensures AnnouncedFor(log + [a], user) == AnnouncedFor(log, user) + if a.user == user then [a] else []
  {
    assert (log + [a])[..|log|] == log;
    assert AnnouncedFor(log, user) + [] == AnnouncedFor(log, user);
  }

  lemma {:induction false} ManagerTracksSockets(run: seq<Call>, user: Uuid)
    ensures var p := HubAfter(run).presence;
            && SocketsOf(p, user) == OpenSockets(run, user)
            && (user in p.connections <==> OpenSockets(run, user) != {})
            && (user in p.userGroups <==> user in p.connections)
            && (user in p.connections ==> GroupsOf(p, user) == LatestGroups(run, user))
  {
    if run != [] {
      ManagerTracksSockets(run[..|run| - 1], user);
    }
  }

  lemma DrainKeepsInv(p: Presence, user: Uuid)
    requires Inv(p)
    ensures Inv(Drain(p, user))
  {
    var steps := seq(|PendingOf(p, user)|, _ => Issue(user));
    DrainIsIssuing(p, user);
    RunKeepsInv(p, steps);
    var q, d := After(p, steps), Drain(p, user);
    forall u ensures Converging(d, u) {
      assert Converging(p, u);
      if u != user {
        OthersUntouched(PendingOf(p, user), user, u, p.online);
        OwnEntriesDecide(PendingOf(p, u), u, p.online, d.online);
      } else {
        assert Converging(q, u);
      }
    }
  }

  lemma {:induction false} HubKeepsInv(run: seq<Call>)
    ensures Inv(HubAfter(run).presence) && HubAfter(run).presence.inFlight == map[]
  {
    if run == [] {
      EmptyInv();
    } else {
      HubKeepsInv(run[..|run| - 1]);
      CallKeepsInv(HubAfter(run[..|run| - 1]), run[|run| - 1]);
    }
  }

  lemma CallKeepsInv(h: Hub, call: Call)
    requires Inv(h.presence) && h.presence.inFlight == map[]
    ensures Inv(Apply(h, call).presence) && Apply(h, call).presence.inFlight == map[]
  {
    var p := h.presence;
    match call
    case Connecting(u, ws, gs, _) =>
      StepKeepsInv(p, BeginConnect(u, ws, gs));
      DrainKeepsInv(StartConnect(p, u, ws, gs), u);
    case Disconnecting(u, ws) =>
      StepKeepsInv(p, BeginDisconnect(u, ws));
      DrainKeepsInv(StartDisconnect(p, u, ws), u);
    case Reporting(_, _, _) =>
  }

  /**
    After any run of handler calls the online set of a group lists exactly the users with an open socket
    and that group.
  */
  lemma OnlineSetMatchesHistory(run: seq<Call>, group: Uuid, user: Uuid)
    ensures (group, user) in HubAfter(run).presence.online <==>
            OpenSockets(run, user) != {} && group in LatestGroups(run, user)
  {
    HubKeepsInv(run);
    ManagerTracksSockets(run, user);
    var p := HubAfter(run).presence;
    assert Converging(p, user);
    assert (group, user) in p.online <==> group in OnlineGroups(p.online, user);
  }

  /**
    A user's announcements alternate, starting with online, exactly when no disconnect of that user
    ever came without an open socket; then one more online than offline means a socket is open.
  */
  lemma {:induction false} AnnouncementsAlternateIff(run: seq<Call>, user: Uuid)
    ensures var log := AnnouncedFor(HubAfter(run).lifecycle, user);
            && (Alternates(log) <==> !StrayDisconnect(run, user))
            && (Alternates(log) ==> (|log| % 2 == 1 <==> OpenSockets(run, user) != {}))
  {
    if run != [] {
      var init := run[..|run| - 1];
      AnnouncementsAlternateIff(init, user);
      ManagerTracksSockets(init, user);
      ManagerTracksSockets(run, user);
      AlternatesByCall(HubAfter(init), run[|run| - 1], user, StrayDisconnect(init, user));
    }
  }

  lemma AlternatesByConnect(h: Hub, call: Call, user: Uuid, strayed: bool)
    requires call.Connecting? && call.user == user && Tracks(h, user, strayed)
    ensures Tracks(Apply(h, call), user, strayed)
  {
    var log := AnnouncedFor(h.lifecycle, user);
    AnnouncedByCall(h, call, user);
    SocketsByCall(h, call, user);
    if SocketsOf(h.presence, user) == {} {
      AnnouncementAlternates(log, UserOnline(user, call.groups), strayed, false);
    } else {
      assert log + [] == log;
    }
  }

  lemma AlternatesByDisconnect(h: Hub, call: Call, user: Uuid, strayed: bool)
    requires call.Disconnecting? && call.user == user && Tracks(h, user, strayed)
    ensures Tracks(Apply(h, call), user, strayed || SocketsOf(h.presence, user) == {})
  {
    var log := AnnouncedFor(h.lifecycle, user);
    AnnouncedByCall(h, call, user);
    SocketsByCall(h, call, user);
    if user !in Apply(h, call).presence.connections {
      AnnouncementAlternates(log, UserOffline(user, GroupsOf(h.presence, user)), strayed,
          SocketsOf(h.presence, user) != {});
    } else {
      assert log + [] == log;
    }
  }

  /** The announcements of a user alternate up to the first stray disconnect, in step with the sockets. */
  ghost predicate Tracks(h: Hub, user: Uuid, strayed: bool) {
    var log := AnnouncedFor(h.lifecycle, user);
    && (user in h.presence.connections <==> SocketsOf(h.presence, user) != {})
    && (Alternates(log) <==> !strayed)
    && (!strayed ==> (|log| % 2 == 1 <==> SocketsOf(h.presence, user) != {}))
  }

  lemma AlternatesByCall(h: Hub, call: Call, user: Uuid, strayed: bool)
    requires Tracks(h, user, strayed)
    ensures Tracks(Apply(h, call), user,
                   strayed || (call.Disconnecting? && call.user == user && SocketsOf(h.presence, user) == {}))
  {
    if call.user == user && call.Connecting? {
      AlternatesByConnect(h, call, user, strayed);
    } else if call.user == user && call.Disconnecting? {
      AlternatesByDisconnect(h, call, user, strayed);
    } else {
      AnnouncedByCall(h, call, user);
      SocketsByCall(h, call, user);
    }
  }

  /** One more announcement alternates exactly if its side is due. */
  lemma AnnouncementAlternates(log: seq<Announcement>, a: Announcement, strayed: bool, open: bool)
    requires Alternates(log) <==> !strayed
    requires !strayed ==> (|log| % 2 == 1 <==> open)
    ensures Alternates(log + [a]) <==> !strayed && (a.UserOnline? <==> !open)
    ensures Alternates(log + [a]) ==> (|log + [a]| % 2 == 1 <==> a.UserOnline?)
  {
    AlternatesSnoc(log, a);
  }

  /** When a call opens or closes the user's sockets. */
  lemma SocketsByCall(h: Hub, call: Call, user: Uuid)
    requires user in h.presence.connections <==> SocketsOf(h.presence, user) != {}
    ensures var before, after := SocketsOf(h.presence, user), SocketsOf(Apply(h, call).presence, user);
            && (call.user != user || call.Reporting? ==> after == before)
            && (call.user == user && call.Connecting? ==> after != {})
            && (call.user == user && call.Disconnecting? ==>
                  (after != {} <==> user in Apply(h, call).presence.connections) && (before == {} ==> after == {}))
            && (user in Apply(h, call).presence.connections <==> after != {})
  {
  }

  /** What one call adds to a user's announcements. */
  lemma AnnouncedByCall(h: Hub, call: Call, user: Uuid)
    ensures var log, next := AnnouncedFor(h.lifecycle, user), AnnouncedFor(Apply(h, call).lifecycle, user);
            if call.user != user || call.Reporting? then next == log
            else if call.Connecting? then
              next == log + if SocketsOf(h.presence, user) == {} then [UserOnline(user, call.groups)] else []
            else
              next == log + if user in Apply(h, call).presence.connections then []
                  else [UserOffline(user, GroupsOf(h.presence, user))]
  {
    var log := AnnouncedFor(h.lifecycle, user);
    assert log + [] == log && h.lifecycle + [] == h.lifecycle;
    if call.Connecting? {
      AnnouncedForSnoc(h.lifecycle, UserOnline(call.user, call.groups), user);
    } else if call.Disconnecting? {
      AnnouncedForSnoc(h.lifecycle, UserOffline(call.user, GroupsOf(h.presence, call.user)), user);
    }
  }

  lemma AlternatesSnoc(log: seq<Announcement>, a: Announcement)
    ensures Alternates(log + [a]) <==> Alternates(log) && (a.UserOnline? <==> |log| % 2 == 0)
  {
    var all := log + [a];
    assert all[|log|] == a;
    if Alternates(all) {
      forall i | 0 <= i < |log| ensures log[i].UserOnline? <==> i % 2 == 0 {
        assert all[i] == log[i];
      }
    }
  }

  /** The state and whole second a user's latest call left behind, read off the history alone. */
  function LatestState(run: seq<Call>, user: Uuid): Option<(Connection, nat)> {
    if run == [] then None
    else
      var last := run[|run| - 1];
      if last.user != user then LatestState(run[..|run| - 1], user)
      else
        match last
        case Connecting(_, _, _, now) => Some((Online, now / 1000))
        case Reporting(_, away, now) => Some((if away then Away else Online, now / 1000))
        case Disconnecting(_, _) => if OpenSockets(run, user) == {} then None else LatestState(run[..|run| - 1], user)
  }

  /** The connection hash shows what the latest connect or report said, until the last socket closes. */
  lemma {:induction false} HashIsLatest(run: seq<Call>, user: Uuid)
    ensures var h := HubAfter(run).connection;
            match LatestState(run, user)
            case None => user !in h
            case Some(latest) => user in h && h[user].state == latest.0 && h[user].since == latest.1
  {
    if run != [] {
      HashIsLatest(run[..|run| - 1], user);
      ManagerTracksSockets(run, user);
      HashByCall(HubAfter(run[..|run| - 1]), run[|run| - 1], user);
    }
  }

  lemma HashByCall(h: Hub, call: Call, user: Uuid)
    ensures var k := Apply(h, call);
            && (call.user != user ==> Lookup(k.connection, user) == Lookup(h.connection, user))
            && (call.user == user && call.Connecting? ==>
                  Lookup(k.connection, user) == Some(ConnectionHash(Online, Second(call.now))))
            && (call.user == user && call.Reporting? ==>
                  Lookup(k.connection, user)
                  == Some(ConnectionHash(if call.away then Away else Online, Second(call.now))))
            && (call.user == user && call.Disconnecting? ==>
                  Lookup(k.connection, user)
                  == if user in k.presence.connections then Lookup(h.connection, user) else None)
  {
  }

  /** The connection hash exists exactly while the user has an open socket. */
  lemma {:induction false} HashExistsIffOpen(run: seq<Call>, user: Uuid)
    requires MessagesOnOpenSockets(run)
    ensures user in HubAfter(run).connection <==> OpenSockets(run, user) != {}
  {
    if run != [] {
      var init := run[..|run| - 1];
      HashExistsIffOpen(init, user);
      ManagerTracksSockets(init, run[|run| - 1].user);
      ManagerTracksSockets(run, user);
    }
  }
}
