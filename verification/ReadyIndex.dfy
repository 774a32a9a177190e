/**
  The ready flags of a group: one expiring key per (group, user) holds the truth, and the Redis
  set `group:{id}:ready_users` indexes the keys. Instants are milliseconds; `int(time.time())`
  is the whole second of an instant.
*/
module ReadyIndex {
  import opened Prelude

  const READY_TTL_SECONDS: nat := 8 * 60 * 60

  /** A key is a pair (group, user). */
  type Key = (Uuid, Uuid)

  datatype Payload = Payload(since: nat, expiresAt: nat)

  /** What SETEX stores; Redis itself drops the key at `dropAt`. */
  datatype Stored = Stored(payload: Payload, dropAt: nat)

  datatype Ready = Ready(keys: map<Key, Stored>, index: set<Key>)

  function Second(instant: nat): nat { instant / 1000 }

  /** GET: the payload, unless the key is absent or Redis has dropped it. */
  function Get(r: Ready, key: Key, now: nat): Option<Payload> {
    if key in r.keys && now < r.keys[key].dropAt then Some(r.keys[key].payload) else None
  }

  /** What `get_group_ready` answers: the stored payload, as long as it has not expired. */
  function Reported(r: Ready, key: Key, now: nat): Option<Payload> {
    var raw := Get(r, key, now);
    if raw.Some? && raw.value.expiresAt <= Second(now) then None else raw
  }

  predicate Live(r: Ready, key: Key, now: nat) { Reported(r, key, now).Some? }

  // ---------------------------------------------------------------- single Redis commands

  datatype Command =
    | IndexAdd(key: Key)
    | IndexRemove(key: Key)
    | SetEx(key: Key, payload: Payload, at: nat)
    | Delete(key: Key)

  function Execute(r: Ready, cmd: Command): Ready {
    match cmd
    case IndexAdd(k) => r.(index := r.index + {k})
    case IndexRemove(k) => r.(index := r.index - {k})
    case SetEx(k, payload, at) => r.(keys := r.keys[k := Stored(payload, at + READY_TTL_SECONDS * 1000)])
    case Delete(k) => r.(keys := r.keys - {k})
  }

  function ExecuteAll(r: Ready, cmds: seq<Command>): Ready {
    if cmds == [] then r else Execute(ExecuteAll(r, cmds[..|cmds| - 1]), cmds[|cmds| - 1])
  }

  /** The payload of a ready-set that read the clock at `readAt`. */
  function PayloadAt(readAt: nat): Payload {
    Payload(Second(readAt), Second(readAt) + READY_TTL_SECONDS)
  }

  /** `set_group_ready`: the clock is read first, the key is written at or after that instant. */
  function SetReady(key: Key, readAt: nat, setAt: nat): seq<Command> {
    [IndexAdd(key), SetEx(key, PayloadAt(readAt), setAt)]
  }

  function ClearReady(key: Key): seq<Command> { [IndexRemove(key), Delete(key)] }

  /** The commands `get_group_ready` issues after its GET. */
  function CleanUp(r: Ready, key: Key, now: nat): seq<Command> {
    if Get(r, key, now).None? then [IndexRemove(key)]
    else if Live(r, key, now) then []
    else ClearReady(key)
  }

  // ---------------------------------------------------------------- calls as atomic operations

  /** Every indexed key of the group is read once, in some order. */
  function Sweep(r: Ready, group: Uuid, now: nat): Ready {
    var dead := set k | k in r.index && k.0 == group && !Live(r, k, now);
    Ready(r.keys - (set k | k in dead && Get(r, k, now).Some?), r.index - dead)
  }

  datatype Operation =
    | SetCall(key: Key, readAt: nat)
    | ClearCall(key: Key)
    | GetCall(key: Key)
    | SweepCall(group: Uuid)

  function Perform(r: Ready, op: Operation, now: nat): Ready {
    match op
    case SetCall(k, readAt) => ExecuteAll(r, SetReady(k, readAt, now))
    case ClearCall(k) => ExecuteAll(r, ClearReady(k))
    case GetCall(k) => ExecuteAll(r, CleanUp(r, k, now))
    case SweepCall(g) => Sweep(r, g, now)
  }

  /** A timed run: the clock never goes back, and a ready-set reads it no later than it writes. */
  datatype Timed = Timed(at: nat, op: Operation)

  ghost predicate Monotone(run: seq<Timed>) {
    && (forall i, j :: 0 <= i < j < |run| ==> run[i].at <= run[j].at)
    && (forall i :: 0 <= i < |run| && run[i].op.SetCall? ==> run[i].op.readAt <= run[i].at)
  }

  function Outcome(run: seq<Timed>): Ready {
    if run == [] then Ready(map[], {})
    else Perform(Outcome(run[..|run| - 1]), run[|run| - 1].op, run[|run| - 1].at)
  }

  /** The index may name dead keys, but it never misses a live one. */
  ghost predicate IndexAgrees(r: Ready, now: nat) {
    forall k :: Live(r, k, now) ==> k in r.index
  }

  /** Redis never drops a key before its payload expires. */
  ghost predicate Honest(r: Ready) {
    forall k :: k in r.keys ==>
      && r.keys[k].payload.expiresAt == r.keys[k].payload.since + READY_TTL_SECONDS
      && r.keys[k].payload.expiresAt * 1000 <= r.keys[k].dropAt
  }

  lemma TwoCommands(r: Ready, a: Command, b: Command)
    ensures ExecuteAll(r, [a, b]) == Execute(Execute(r, a), b)
    ensures ExecuteAll(r, [a]) == Execute(r, a)
  {
    assert [a, b][..1] == [a] && [a][..0] == [];
    assert ExecuteAll(r, [a][..0]) == r;
    assert ExecuteAll(r, [a, b][..1]) == ExecuteAll(r, [a]);
  }

  lemma PerformEffects(r: Ready, op: Operation, now: nat)
    ensures op.SetCall? ==>
              Perform(r, op, now) == Ready(
                r.keys[op.key := Stored(PayloadAt(op.readAt), now + READY_TTL_SECONDS * 1000)], r.index + {op.key})
    ensures op.ClearCall? ==> Perform(r, op, now) == Ready(r.keys - {op.key}, r.index - {op.key})
    ensures op.GetCall? && Live(r, op.key, now) ==> Perform(r, op, now) == r
    ensures op.GetCall? && Get(r, op.key, now).None? ==> Perform(r, op, now) == Ready(r.keys, r.index - {op.key})
    ensures op.GetCall? && Get(r, op.key, now).Some? && !Live(r, op.key, now) ==>
              Perform(r, op, now) == Ready(r.keys - {op.key}, r.index - {op.key})
  {
    match op
    case SetCall(k, readAt) => TwoCommands(r, IndexAdd(k), SetEx(k, PayloadAt(readAt), now));
    case ClearCall(k) => TwoCommands(r, IndexRemove(k), Delete(k));
    case GetCall(k) => TwoCommands(r, IndexRemove(k), Delete(k));
    case SweepCall(_) =>
  }

  lemma PerformKeepsAgreement(r: Ready, op: Operation, now: nat)
    requires IndexAgrees(r, now) && Honest(r)
    requires op.SetCall? ==> op.readAt <= now
    ensures IndexAgrees(Perform(r, op, now), now) && Honest(Perform(r, op, now))
  {
    PerformEffects(r, op, now);
    var q := Perform(r, op, now);
    forall k | Live(q, k, now) ensures k in q.index {
      assert k in q.keys;
      if op.SetCall? && k == op.key {
      } else {
        assert q.keys[k] == r.keys[k];
        assert Live(r, k, now);
      }
    }
  }

  /** A live key only dies as time passes. */
  lemma LaterAgreement(r: Ready, now: nat, later: nat)
    requires IndexAgrees(r, now) && now <= later
    ensures IndexAgrees(r, later)
  {
    forall k | Live(r, k, later) ensures k in r.index {
      assert Live(r, k, now);
    }
  }

  // ---------------------------------------------------------------- main results

  /** After any run of whole calls, at the end and at every later instant, no live key is missing from the index. */
  lemma {:induction false} RunKeepsAgreement(run: seq<Timed>, now: nat)
    requires Monotone(run)
    requires forall i :: 0 <= i < |run| ==> run[i].at <= now
    ensures IndexAgrees(Outcome(run), now) && Honest(Outcome(run))
  {
    if run != [] {
      var init, last := run[..|run| - 1], run[|run| - 1];
      RunKeepsAgreement(init, last.at);
      PerformKeepsAgreement(Outcome(init), last.op, last.at);
      LaterAgreement(Outcome(run), last.at, now);
    }
  }

  /** The expiry Redis applies never shortens a ready flag: the payload's own expiry decides. */
  lemma PayloadDecides(run: seq<Timed>, key: Key, now: nat)
    requires Monotone(run)
    requires forall i :: 0 <= i < |run| ==> run[i].at <= now
    ensures var r := Outcome(run);
            Live(r, key, now) <==> key in r.keys && Second(now) < r.keys[key].payload.since + READY_TTL_SECONDS
  {
    RunKeepsAgreement(run, now);
  }

  /**
    A ready-set is reported for eight hours from the second in which the clock was read, whatever was
    stored before; nobody else's flag changes.
  */
  lemma ReadyForEightHours(r: Ready, key: Key, readAt: nat, setAt: nat, now: nat, other: Key)
    requires readAt <= setAt
    ensures var t := Perform(r, SetCall(key, readAt), setAt);
            && key in t.index
            && (Live(t, key, now) <==> now / 1000 < readAt / 1000 + 28800)
            && (Live(t, key, now) ==>
                  && Reported(t, key, now).value.since == readAt / 1000
                  && Reported(t, key, now).value.expiresAt == readAt / 1000 + 28800)
            && (other != key ==>
                  && Reported(t, other, now) == Reported(r, other, now)
                  && (other in t.index <==> other in r.index))
  {
    PerformEffects(r, SetCall(key, readAt), setAt);
  }

  /** Clearing takes away this flag and no other. */
  lemma ClearedAtOnce(r: Ready, key: Key, at: nat, now: nat, other: Key)
    ensures var t := Perform(r, ClearCall(key), at);
            && !Live(t, key, now) && key !in t.index
            && (other != key ==>
                  && Reported(t, other, now) == Reported(r, other, now)
                  && (other in t.index <==> other in r.index))
  {
    PerformEffects(r, ClearCall(key), at);
  }

  /** After a sweep the index of the group is exactly its live users, and nothing live is lost. */
  lemma SweepLeavesLiveUsers(r: Ready, group: Uuid, now: nat, key: Key)
    requires IndexAgrees(r, now)
    ensures key.0 == group ==> (key in Sweep(r, group, now).index <==> Live(Sweep(r, group, now), key, now))
    ensures Reported(Sweep(r, group, now), key, now) == Reported(r, key, now)
    ensures key.0 != group ==> (key in Sweep(r, group, now).index <==> key in r.index)
  {
  }

  /** Which write last decided the key's stored value in a command sequence, if it was a SETEX. */
  function LastSet(cmds: seq<Command>, key: Key): Option<nat> {
    if cmds == [] then None
    else
      var last := cmds[|cmds| - 1];
      if last.SetEx? && last.key == key then Some(|cmds| - 1)
      else if last.Delete? && last.key == key then None
      else LastSet(cmds[..|cmds| - 1], key)
  }

  lemma {:induction false} LastSetDecides(cmds: seq<Command>, key: Key)
    ensures var r, w := ExecuteAll(Ready(map[], {}), cmds), LastSet(cmds, key);
            && (key in r.keys <==> w.Some?)
            && (w.Some? ==>
                  && w.value < |cmds| && cmds[w.value].SetEx? && cmds[w.value].key == key
                  && r.keys[key] == Stored(cmds[w.value].payload, cmds[w.value].at + READY_TTL_SECONDS * 1000)
                  && (forall j :: w.value < j < |cmds| ==> !(cmds[j].Delete? && cmds[j].key == key)))
  {
    if cmds != [] {
      LastSetDecides(cmds[..|cmds| - 1], key);
    }
  }

  /**
    However the commands of concurrent calls interleave, a member is reported ready only if some
    ready-set of that member is less than the TTL old and no DEL of the key came after it.
  */
  lemma ReportedReadyWasSetRecently(cmds: seq<Command>, key: Key, now: nat)
    requires forall i :: 0 <= i < |cmds| && cmds[i].SetEx? ==>
                           exists readAt: nat :: readAt <= cmds[i].at && cmds[i].payload == PayloadAt(readAt)
    requires Live(ExecuteAll(Ready(map[], {}), cmds), key, now)
    ensures exists i ::
              && 0 <= i < |cmds| && cmds[i].SetEx? && cmds[i].key == key
              && Some(cmds[i].payload) == Reported(ExecuteAll(Ready(map[], {}), cmds), key, now)
              && Second(now) < cmds[i].payload.since + READY_TTL_SECONDS
              && (forall j :: i < j < |cmds| ==> !(cmds[j].Delete? && cmds[j].key == key))
  {
    LastSetDecides(cmds, key);
    var i := LastSet(cmds, key).value;
    var readAt: nat :| readAt <= cmds[i].at && cmds[i].payload == PayloadAt(readAt);
    assert cmds[i].payload.expiresAt == cmds[i].payload.since + READY_TTL_SECONDS;
  }

  // ---------------------------------------------------------------- when index and keys agree, command by command

  /** The last index command about the key. */
  function LastIndexing(cmds: seq<Command>, key: Key): Option<Command> {
    if cmds == [] then None
    else
      var last := cmds[|cmds| - 1];
      if (last.IndexAdd? || last.IndexRemove?) && last.key == key then Some(last)
      else LastIndexing(cmds[..|cmds| - 1], key)
  }

  lemma {:induction false} LastIndexingDecides(cmds: seq<Command>, key: Key)
    ensures key in ExecuteAll(Ready(map[], {}), cmds).index <==> LastIndexing(cmds, key) == Some(IndexAdd(key))
  {
    if cmds != [] {
      LastIndexingDecides(cmds[..|cmds| - 1], key);
    }
  }

  /** The last SETEX of the key has no DEL behind it, and neither Redis nor its payload has let it expire. */
  predicate SetAndUnexpired(cmds: seq<Command>, key: Key, now: nat) {
    var w := LastSet(cmds, key);
    && w.Some? && w.value < |cmds| && cmds[w.value].SetEx?
    && now < cmds[w.value].at + READY_TTL_SECONDS * 1000
    && Second(now) < cmds[w.value].payload.expiresAt
  }

  lemma LiveIffSet(cmds: seq<Command>, key: Key, now: nat)
    ensures Live(ExecuteAll(Ready(map[], {}), cmds), key, now) <==> SetAndUnexpired(cmds, key, now)
  {
    LastSetDecides(cmds, key);
  }

  /**
    However the commands of concurrent calls interleave, index and keys agree exactly if every key whose
    last SETEX still stands had an SADD as its last index command.
  */
  lemma AgreementIff(cmds: seq<Command>, now: nat)
    ensures IndexAgrees(ExecuteAll(Ready(map[], {}), cmds), now) <==>
            forall k :: SetAndUnexpired(cmds, k, now) ==> LastIndexing(cmds, k) == Some(IndexAdd(k))
  {
    forall k
      ensures Live(ExecuteAll(Ready(map[], {}), cmds), k, now) <==> SetAndUnexpired(cmds, k, now)
      ensures k in ExecuteAll(Ready(map[], {}), cmds).index <==> LastIndexing(cmds, k) == Some(IndexAdd(k))
    {
      LiveIffSet(cmds, k, now);
      LastIndexingDecides(cmds, k);
    }
  }

  /**
    The condition can fail. A sweep that runs between the SADD and the SETEX of a ready-set finds no
    key, removes the index entry, and the live key stays unindexed.
  */
  lemma SweepInsideSetUnindexes(key: Key, at: nat)
    ensures
      var begun := Execute(Ready(map[], {}), IndexAdd(key));
      var cmds := [IndexAdd(key)] + CleanUp(begun, key, at) + [SetEx(key, PayloadAt(at), at)];
      && Live(ExecuteAll(Ready(map[], {}), cmds), key, at) && key !in ExecuteAll(Ready(map[], {}), cmds).index
      && SetAndUnexpired(cmds, key, at) && LastIndexing(cmds, key) == Some(IndexRemove(key))
  {
    var init := [IndexAdd(key), IndexRemove(key)];
    var cmds := init + [SetEx(key, PayloadAt(at), at)];
    assert cmds[..2] == init && init[..1] == [IndexAdd(key)];
    LastIndexingDecides(cmds, key);
    LiveIffSet(cmds, key, at);
  }
}
