/** The Redis-backed presence store (`status_store.py`) as an object whose fields are the Redis keys. */
module StatusStore {
  import opened Prelude
  import opened ReadyIndex
  import PresenceReconcile

  datatype Connection = Online | Away | Offline

  /** The hash `user:{id}:connection`. */
  datatype ConnectionHash = ConnectionHash(state: Connection, since: nat)

  datatype Member = Member(user: Uuid, connection: Connection, ready: Option<Payload>)

  predicate Increasing(xs: seq<Uuid>) {
    forall i, j :: 0 <= i < j < |xs| ==> xs[i] < xs[j]
  }

  predicate IsLeast(m: Uuid, s: set<Uuid>) {
    m in s && forall x :: x in s ==> m <= x
  }

  lemma {:induction false} LeastExists(s: set<Uuid>)
    requires s != {}
    ensures exists m :: IsLeast(m, s)
  {
    var y :| y in s;
    var rest := s - {y};
    if rest == {} {
      assert s == {y};
      assert IsLeast(y, s);
    } else {
      LeastExists(rest);
      var m :| IsLeast(m, rest);
      assert forall x :: x in s ==> x == y || x in rest;
      assert IsLeast(if m <= y then m else y, s);
    }
  }

  function Least(s: set<Uuid>): (m: Uuid)
    requires s != {}
    ensures IsLeast(m, s)
  {
    LeastExists(s);
    var m :| IsLeast(m, s);
    m
  }

  /** Python's `sorted` on a set of ids: increasing, every element once. */
  function Sorted(s: set<Uuid>): (r: seq<Uuid>)
    ensures forall x :: x in r <==> x in s
    ensures Increasing(r)
    decreases |s|
  {
    if s == {} then []
    else
      var m := Least(s);
      assert |s - {m}| == |s| - 1;
      [m] + Sorted(s - {m})
  }

  /** The users of a group whose ready key is live, found by looking at every key. */
  function LiveUsers(r: Ready, group: Uuid, now: nat): set<Uuid> {
    set k | k in r.keys && k.0 == group && Live(r, k, now) :: k.1
  }

  function OnlineUsers(online: set<(Uuid, Uuid)>, group: Uuid): set<Uuid> {
    set e | e in online && e.0 == group :: e.1
  }

  function ConnectionOf(connection: map<Uuid, ConnectionHash>, user: Uuid): Connection {
    if user in connection then connection[user].state else Offline
  }

  function MembersOf(
    users: seq<Uuid>, connection: map<Uuid, ConnectionHash>, r: Ready, group: Uuid, now: nat): (ms: seq<Member>)
    ensures |ms| == |users|
  {
    if users == [] then []
    else
      var init, u := users[..|users| - 1], users[|users| - 1];
      MembersOf(init, connection, r, group, now)
      + [Member(u, ConnectionOf(connection, u), Reported(r, (group, u), now))]
  }

  /** The member list a client should see, computed from all keys without the index. */
  function NaiveSnapshot(
    online: set<(Uuid, Uuid)>, connection: map<Uuid, ConnectionHash>, r: Ready, group: Uuid, now: nat): seq<Member>
  {
    MembersOf(Sorted(OnlineUsers(online, group) + LiveUsers(r, group, now)), connection, r, group, now)
  }

  /** What a member shows: the state of the hash, or offline, and the ready flag if it is live. */
  predicate ShowsUser(
    m: Member, user: Uuid, connection: map<Uuid, ConnectionHash>, r: Ready, group: Uuid, now: nat)
  {
    && m.user == user
    && m.connection == (if user in connection then connection[user].state else Offline)
    && m.ready == Reported(r, (group, user), now)
  }

  predicate Lists(members: seq<Member>, user: Uuid) { exists i :: 0 <= i < |members| && members[i].user == user }

  /** The members are the users who are online or have a live flag, in increasing order, each as it is. */
  ghost predicate IsTrue(
    members: seq<Member>, online: set<(Uuid, Uuid)>, connection: map<Uuid, ConnectionHash>, r: Ready, group: Uuid,
    now: nat)
  {
    && (forall i, j :: 0 <= i < j < |members| ==> members[i].user < members[j].user)
    && (forall u: Uuid :: Lists(members, u) <==> (group, u) in online || Live(r, (group, u), now))
    && (forall i :: 0 <= i < |members| ==> ShowsUser(members[i], members[i].user, connection, r, group, now))
  }

  lemma {:induction false} MembersShow(
    users: seq<Uuid>, connection: map<Uuid, ConnectionHash>, r: Ready, group: Uuid, now: nat)
    ensures var ms := MembersOf(users, connection, r, group, now);
            forall i :: 0 <= i < |users| ==> ShowsUser(ms[i], users[i], connection, r, group, now)
  {
    if users != [] {
      MembersShow(users[..|users| - 1], connection, r, group, now);
    }
  }

  lemma NaiveSnapshotIsTrue(
    online: set<(Uuid, Uuid)>, connection: map<Uuid, ConnectionHash>, r: Ready, group: Uuid, now: nat)
    ensures IsTrue(NaiveSnapshot(online, connection, r, group, now), online, connection, r, group, now)
  {
    var users := Sorted(OnlineUsers(online, group) + LiveUsers(r, group, now));
    MembersShow(users, connection, r, group, now);
    UsersAreListed(users, NaiveSnapshot(online, connection, r, group, now));
    forall u: Uuid ensures u in users <==> (group, u) in online || Live(r, (group, u), now) {
      OnlineOrLive(online, r, group, u, now);
    }
  }

  lemma UsersAreListed(users: seq<Uuid>, members: seq<Member>)
    requires |members| == |users| && Increasing(users)
    requires forall i :: 0 <= i < |users| ==> members[i].user == users[i]
    ensures forall u: Uuid :: Lists(members, u) <==> u in users
    ensures forall i, j :: 0 <= i < j < |members| ==> members[i].user < members[j].user
  {
    forall u: Uuid | u in users ensures Lists(members, u) {
      var i :| 0 <= i < |users| && users[i] == u;
      assert members[i].user == u;
    }
  }

  lemma OnlineOrLive(online: set<(Uuid, Uuid)>, r: Ready, group: Uuid, user: Uuid, now: nat)
    ensures user in OnlineUsers(online, group) + LiveUsers(r, group, now) <==>
            (group, user) in online || Live(r, (group, user), now)
  {
    if Live(r, (group, user), now) {
      assert (group, user) in r.keys;
    }
  }

  /** Index entries of the other groups and every live flag survive; only dead material goes. */
  ghost predicate OnlyDeadDropped(before: Ready, after: Ready, now: nat) {
    && after.index <= before.index
    && (forall k :: k in before.index && k !in after.index ==> !Live(before, k, now))
    && (forall k :: k in after.keys ==> k in before.keys && after.keys[k] == before.keys[k])
    && (forall k :: k in before.keys && k !in after.keys ==> !Live(before, k, now))
  }

  class StatusStore {
    var online: set<(Uuid, Uuid)>
    var connection: map<Uuid, ConnectionHash>
    var readyKeys: map<Key, Stored>
    var readyUsers: set<Key>

    function State(): Ready
      reads this
    {
      Ready(readyKeys, readyUsers)
    }

    constructor ()
      ensures online == {} && connection == map[] && State() == Ready(map[], {})
    {
      online, connection, readyKeys, readyUsers := {}, map[], map[], {};
    }

    method SetUserConnection(user: Uuid, state: Connection, now: nat)
      modifies this`connection
      ensures connection == old(connection)[user := ConnectionHash(if state == Away then Away else Online, Second(now))]
    {
      var stored := state;
      if stored != Online && stored != Away {
        stored := Online;
      }
      connection := connection[user := ConnectionHash(stored, Second(now))];
    }

    method ClearUserConnection(user: Uuid)
      modifies this`connection
      ensures connection == old(connection) - {user}
    {
      connection := connection - {user};
    }

    method AddToGroupOnline(group: Uuid, user: Uuid)
      modifies this`online
      ensures online == PresenceReconcile.Execute(PresenceReconcile.SAdd(group), user, old(online))
    {
      online := online + {(group, user)};
    }

    method RemoveFromGroupOnline(group: Uuid, user: Uuid)
      modifies this`online
      ensures online == PresenceReconcile.Execute(PresenceReconcile.SRem(group), user, old(online))
    {
      online := online - {(group, user)};
    }

    method SetGroupReady(group: Uuid, user: Uuid, readAt: nat, now: nat) returns (payload: Payload)
      requires readAt <= now
      modifies this`readyKeys, this`readyUsers
      ensures payload == PayloadAt(readAt)
      ensures State() == Perform(old(State()), SetCall((group, user), readAt), now)
      ensures Reported(State(), (group, user), readAt) == Some(payload)
    {
      PerformEffects(State(), SetCall((group, user), readAt), now);
      payload := Payload(Second(readAt), Second(readAt) + READY_TTL_SECONDS);
      readyUsers := readyUsers + {(group, user)};
      readyKeys := readyKeys[(group, user) := Stored(payload, now + READY_TTL_SECONDS * 1000)];
    }

    method ClearGroupReady(group: Uuid, user: Uuid, now: nat)
      modifies this`readyKeys, this`readyUsers
      ensures State() == Perform(old(State()), ClearCall((group, user)), now)
      ensures !Live(State(), (group, user), now)
    {
      PerformEffects(State(), ClearCall((group, user)), now);
      readyUsers := readyUsers - {(group, user)};
      readyKeys := readyKeys - {(group, user)};
    }

    method GetGroupReady(group: Uuid, user: Uuid, now: nat) returns (ready: Option<Payload>)
      modifies this`readyKeys, this`readyUsers
      ensures ready == Reported(old(State()), (group, user), now)
      ensures State() == Perform(old(State()), GetCall((group, user)), now)
    {
      PerformEffects(State(), GetCall((group, user)), now);
      var raw := Get(State(), (group, user), now);
      if raw.None? {
        readyUsers := readyUsers - {(group, user)};
        return None;
      }
      if raw.value.expiresAt <= Second(now) {
        ClearGroupReady(group, user, now);
        PerformEffects(old(State()), ClearCall((group, user)), now);
        return None;
      }
      return raw;
    }

    /** Reads every indexed key of the group in an arbitrary order and reports those that are gone. */
    method SweepExpiredReady(group: Uuid, now: nat) returns (expired: seq<Uuid>)
      modifies this`readyKeys, this`readyUsers
      ensures State() == Sweep(old(State()), group, now)
      ensures forall u :: u in expired <==> (group, u) in old(readyUsers) && !Live(old(State()), (group, u), now)
      ensures forall i, j :: 0 <= i < j < |expired| ==> expired[i] != expired[j]
    {
      expired := [];
      var waiting := set k | k in readyUsers && k.0 == group :: k.1;
      ghost var before := State();
      ghost var dead: set<Key> := {};
      while waiting != {}
        invariant waiting <= set k | k in before.index && k.0 == group :: k.1
        invariant forall k :: k in dead <==>
                    k in before.index && k.0 == group && k.1 !in waiting && !Live(before, k, now)
        invariant State() == Ready(before.keys - (set k | k in dead && Get(before, k, now).Some?), before.index - dead)
        invariant forall u :: u in expired <==> (group, u) in dead
        invariant forall i, j :: 0 <= i < j < |expired| ==> expired[i] != expired[j]
        decreases waiting
      {
        var user :| user in waiting;
        waiting := waiting - {user};
        PerformEffects(State(), GetCall((group, user)), now);
        assert (group, user) !in dead;
        assert Get(State(), (group, user), now) == Get(before, (group, user), now);
        var ready := GetGroupReady(group, user, now);
        if ready.None? {
          expired := expired + [user];
          dead := dead + {(group, user)};
        }
      }
    }

    /** Reads every member's flag; what is found dead on the way is dropped. */
    method ReadMembers(users: seq<Uuid>, group: Uuid, now: nat) returns (members: seq<Member>)
      modifies this`readyKeys, this`readyUsers
      ensures OnlyDeadDropped(old(State()), State(), now)
      ensures members == MembersOf(users, connection, old(State()), group, now)
      ensures |members| == |users|
      ensures forall i :: 0 <= i < |users| ==> ShowsUser(members[i], users[i], connection, old(State()), group, now)
    {
      ghost var before := State();
      members := [];
      var i := 0;
      while i < |users|
        invariant 0 <= i <= |users|
        invariant OnlyDeadDropped(before, State(), now)
        invariant members == MembersOf(users[..i], connection, before, group, now)
      {
        var u := users[i];
        ghost var s := State();
        PerformEffects(s, GetCall((group, u)), now);
        DropKeepsReport(before, s, (group, u), now);
        var ready := GetGroupReady(group, u, now);
        GetDropsDead(before, s, (group, u), now);
        members := members + [Member(u, ConnectionOf(connection, u), ready)];
        assert users[..i + 1][..i] == users[..i];
        i := i + 1;
      }
      assert users[..i] == users;
      MembersShow(users, connection, before, group, now);
    }

    /** The snapshot sent to a connecting client. */
    method GetGroupPresenceSnapshot(group: Uuid, now: nat) returns (members: seq<Member>)
      modifies this`readyKeys, this`readyUsers
      ensures IndexAgrees(old(State()), now) ==>
                && members == NaiveSnapshot(online, connection, old(State()), group, now)
                && IsTrue(members, online, connection, old(State()), group, now)
      ensures IndexAgrees(old(State()), now) ==>
                forall u :: (group, u) in readyUsers <==> u in LiveUsers(old(State()), group, now)
      ensures OnlyDeadDropped(old(State()), State(), now)
    {
      ghost var before := State();
      var expired := SweepExpiredReady(group, now);
      ghost var swept := State();
      var onlineUsers := OnlineUsers(online, group);
      var readyOnes := set k | k in readyUsers && k.0 == group :: k.1;
      var users := Sorted(onlineUsers + readyOnes);
      members := ReadMembers(users, group, now);
      SnapshotIsNaive(before, swept, State(), online, connection, users, group, now);
      NaiveSnapshotIsTrue(online, connection, before, group, now);
    }
  }

  lemma IndexedAreLive(before: Ready, swept: Ready, group: Uuid, now: nat)
    requires IndexAgrees(before, now) && swept == Sweep(before, group, now)
    ensures (set k | k in swept.index && k.0 == group :: k.1) == LiveUsers(before, group, now)
    ensures OnlyDeadDropped(before, swept, now)
  {
    forall u ensures (u in set k | k in swept.index && k.0 == group :: k.1) <==> u in LiveUsers(before, group, now) {
      assert (group, u) in swept.index <==> Live(before, (group, u), now);
      if Live(before, (group, u), now) {
        assert (group, u) in before.keys;
      }
    }
  }

  lemma DropKeepsReport(before: Ready, after: Ready, key: Key, now: nat)
    requires OnlyDeadDropped(before, after, now)
    ensures Reported(after, key, now) == Reported(before, key, now)
  {
    if key in before.keys && key !in after.keys {
      assert !Live(before, key, now);
    }
  }

  lemma DropTransitive(a: Ready, b: Ready, c: Ready, now: nat)
    requires OnlyDeadDropped(a, b, now) && OnlyDeadDropped(b, c, now)
    ensures OnlyDeadDropped(a, c, now)
  {
    forall k ensures Reported(b, k, now) == Reported(a, k, now) {
      DropKeepsReport(a, b, k, now);
    }
    forall k | k in a.index && k !in c.index ensures !Live(a, k, now) {
      assert Reported(b, k, now) == Reported(a, k, now);
    }
    forall k | k in a.keys && k !in c.keys ensures !Live(a, k, now) {
      assert Reported(b, k, now) == Reported(a, k, now);
    }
  }

  lemma GetDropsDead(before: Ready, s: Ready, key: Key, now: nat)
    requires OnlyDeadDropped(before, s, now)
    ensures OnlyDeadDropped(before, Perform(s, GetCall(key), now), now)
  {
    PerformEffects(s, GetCall(key), now);
    var t := Perform(s, GetCall(key), now);
    assert OnlyDeadDropped(s, t, now);
    DropTransitive(before, s, t, now);
  }

  lemma {:induction false} SameReports(
    users: seq<Uuid>, connection: map<Uuid, ConnectionHash>, a: Ready, b: Ready, group: Uuid, now: nat)
    requires forall u :: Reported(a, (group, u), now) == Reported(b, (group, u), now)
    ensures MembersOf(users, connection, a, group, now) == MembersOf(users, connection, b, group, now)
  {
    if users != [] {
      SameReports(users[..|users| - 1], connection, a, b, group, now);
    }
  }

  /** After the sweep, reading the indexed members gives the naive snapshot, and leaves the live users indexed. */
  lemma SnapshotIsNaive(
    before: Ready, swept: Ready, after: Ready, online: set<(Uuid, Uuid)>, connection: map<Uuid, ConnectionHash>,
    users: seq<Uuid>, group: Uuid, now: nat)
    requires swept == Sweep(before, group, now) && OnlyDeadDropped(swept, after, now)
    requires users == Sorted(OnlineUsers(online, group) + set k | k in swept.index && k.0 == group :: k.1)
    ensures OnlyDeadDropped(before, after, now)
    ensures IndexAgrees(before, now) ==>
              MembersOf(users, connection, swept, group, now) == NaiveSnapshot(online, connection, before, group, now)
    ensures IndexAgrees(before, now) ==>
              forall u :: (group, u) in after.index <==> u in LiveUsers(before, group, now)
  {
    assert OnlyDeadDropped(before, swept, now);
    DropTransitive(before, swept, after, now);
    if IndexAgrees(before, now) {
      IndexedAreLive(before, swept, group, now);
      forall u ensures Reported(swept, (group, u), now) == Reported(before, (group, u), now) {
        DropKeepsReport(before, swept, (group, u), now);
      }
      SameReports(users, connection, swept, before, group, now);
      LiveStayIndexed(before, swept, after, group, now);
    }
  }

  lemma LiveStayIndexed(before: Ready, swept: Ready, after: Ready, group: Uuid, now: nat)
    requires IndexAgrees(before, now) && swept == Sweep(before, group, now)
    requires OnlyDeadDropped(swept, after, now) && OnlyDeadDropped(before, after, now)
    ensures forall u :: (group, u) in after.index <==> u in LiveUsers(before, group, now)
  {
    forall u ensures (group, u) in after.index <==> u in LiveUsers(before, group, now) {
      assert u in LiveUsers(before, group, now) <==> Live(before, (group, u), now);
      if Live(before, (group, u), now) {
        assert (group, u) in before.index;
      }
    }
  }

  /** Dropping dead material changes neither the agreement nor what a snapshot shows. */
  lemma DropKeepsSnapshot(
    before: Ready, after: Ready, online: set<(Uuid, Uuid)>, connection: map<Uuid, ConnectionHash>, group: Uuid,
    now: nat)
    requires IndexAgrees(before, now) && OnlyDeadDropped(before, after, now)
    ensures IndexAgrees(after, now)
    ensures NaiveSnapshot(online, connection, after, group, now)
        == NaiveSnapshot(online, connection, before, group, now)
  {
    forall k ensures Reported(after, k, now) == Reported(before, k, now) {
      DropKeepsReport(before, after, k, now);
    }
    forall k | Live(after, k, now) ensures k in after.index {
      assert Reported(after, k, now) == Reported(before, k, now);
    }
    forall u ensures u in LiveUsers(after, group, now) <==> u in LiveUsers(before, group, now) {
      assert Reported(after, (group, u), now) == Reported(before, (group, u), now);
    }
    assert LiveUsers(after, group, now) == LiveUsers(before, group, now);
    SameReports(Sorted(OnlineUsers(online, group) + LiveUsers(before, group, now)), connection, after, before, group,
        now);
  }
}
