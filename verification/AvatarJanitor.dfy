/**
  What janitor passes do exactly. A pass ends at the first visit that fails, so that which rows and
  objects go depends on everything listed before them.
*/
module AvatarJanitor {
  import opened Prelude
  import opened AvatarUrl
  import opened AvatarRoundTrip
  import opened AvatarModel
  import opened AvatarSafety
  import opened AvatarLimits

  // ---------------------------------------------------------------- one pass

  predicate Pending(rows: map<UuidText, Row>, r: UuidText) { r in rows && !rows[r].committed }

  /** No visit before this position fails. */
  predicate Undisturbed(
    cfg: Config, rows: map<UuidText, Row>, listed: seq<UuidText>, outcomes: map<UuidText, Visit>, i: nat)
    requires i <= |listed|
  {
    forall j | 0 <= j < i :: !FailsAt(cfg, rows, listed, outcomes, j)
  }

  /** The row is listed, and every pending row listed before it is visited without a failure. */
  predicate Reached(
    cfg: Config, rows: map<UuidText, Row>, listed: seq<UuidText>, outcomes: map<UuidText, Visit>, r: UuidText)
  {
    exists i | 0 <= i < |listed| :: listed[i] == r && Undisturbed(cfg, rows, listed, outcomes, i)
  }

  lemma ReachedNext(
    cfg: Config, rows: map<UuidText, Row>, listed: seq<UuidText>, outcomes: map<UuidText, Visit>, r: UuidText)
    requires listed != []
    ensures Reached(cfg, rows, listed, outcomes, r) <==>
            r == listed[0] || (!FailsAt(cfg, rows, listed, outcomes, 0) && Reached(cfg, rows, listed[1..], outcomes, r))
  {
    var rest := listed[1..];
    assert Undisturbed(cfg, rows, listed, outcomes, 0);
    if Reached(cfg, rows, listed, outcomes, r) && r != listed[0] {
      var i :| 0 <= i < |listed| && listed[i] == r && Undisturbed(cfg, rows, listed, outcomes, i);
      UndisturbedNext(cfg, rows, listed, outcomes, i);
      assert rest[i - 1] == r;
    }
    if Reached(cfg, rows, rest, outcomes, r) && !FailsAt(cfg, rows, listed, outcomes, 0) {
      var i :| 0 <= i < |rest| && rest[i] == r && Undisturbed(cfg, rows, rest, outcomes, i);
      UndisturbedNext(cfg, rows, listed, outcomes, i + 1);
      assert listed[i + 1] == r;
    }
  }

  lemma UndisturbedNext(
    cfg: Config, rows: map<UuidText, Row>, listed: seq<UuidText>, outcomes: map<UuidText, Visit>, i: nat)
    requires 0 < i <= |listed|
    ensures Undisturbed(cfg, rows, listed, outcomes, i) <==>
            !FailsAt(cfg, rows, listed, outcomes, 0) && Undisturbed(cfg, rows, listed[1..], outcomes, i - 1)
  {
    var rest := listed[1..];
    if Undisturbed(cfg, rows, listed, outcomes, i) {
      forall j | 0 <= j < i - 1 ensures !FailsAt(cfg, rows, rest, outcomes, j) {
        assert !FailsAt(cfg, rows, listed, outcomes, j + 1);
      }
    }
    if !FailsAt(cfg, rows, listed, outcomes, 0) && Undisturbed(cfg, rows, rest, outcomes, i - 1) {
      forall j | 0 <= j < i ensures !FailsAt(cfg, rows, listed, outcomes, j) {
        assert j > 0 ==> !FailsAt(cfg, rows, rest, outcomes, j - 1);
      }
    }
  }

  lemma ReachedOnSameFailures(
    cfg: Config, a: map<UuidText, Row>, b: map<UuidText, Row>, listed: seq<UuidText>, outcomes: map<UuidText, Visit>,
    r: UuidText)
    requires SameFailures(cfg, a, b, outcomes)
    ensures Reached(cfg, a, listed, outcomes, r) <==> Reached(cfg, b, listed, outcomes, r)
  {
    forall i | 0 <= i <= |listed|
      ensures Undisturbed(cfg, a, listed, outcomes, i) <==> Undisturbed(cfg, b, listed, outcomes, i)
    {
      forall j | 0 <= j < i ensures FailsAt(cfg, a, listed, outcomes, j) <==> FailsAt(cfg, b, listed, outcomes, j) {}
    }
  }

  /** Reached in a pass, from the second record on, means reached in what the first visit leaves to do. */
  lemma ReachedBehind(
    cfg: Config, s: Avatars, listed: seq<UuidText>, outcomes: map<UuidText, Visit>, r: UuidText)
    requires listed != [] && r != listed[0]
    ensures var outcome := OutcomeOf(outcomes, listed[0]);
            Reached(cfg, s.rows, listed, outcomes, r) <==>
            Reached(cfg, Visited(cfg, s, listed[0], outcome).rows, Remaining(cfg, s.rows, listed, outcome), outcomes, r)
  {
    var u := Visited(cfg, s, listed[0], OutcomeOf(outcomes, listed[0]));
    ReachedNext(cfg, s.rows, listed, outcomes, r);
    if !FailsAt(cfg, s.rows, listed, outcomes, 0) {
      assert SameFailures(cfg, s.rows, u.rows, outcomes);
      ReachedOnSameFailures(cfg, s.rows, u.rows, listed[1..], outcomes, r);
    }
  }

  /** The rows whose visit in a pass goes through. */
  predicate Collected(
    cfg: Config, rows: map<UuidText, Row>, listed: seq<UuidText>, outcomes: map<UuidText, Visit>, r: UuidText) {
    Pending(rows, r) && !Fails(cfg, rows, r, OutcomeOf(outcomes, r)) && Reached(cfg, rows, listed, outcomes, r)
  }

  /** With any failures: exactly the reached rows whose visit goes through are removed. */
  lemma {:induction false} PassRows(
    cfg: Config, s: Avatars, listed: seq<UuidText>, outcomes: map<UuidText, Visit>, r: UuidText)
    ensures var t := Pass(cfg, s, listed, outcomes);
            && t.urls == s.urls
            && (r in t.rows <==> r in s.rows && !Collected(cfg, s.rows, listed, outcomes, r))
            && (r in t.rows ==> t.rows[r] == s.rows[r])
    decreases |listed|
  {
    if listed != [] {
      var outcome := OutcomeOf(outcomes, listed[0]);
      var u, rest := Visited(cfg, s, listed[0], outcome), Remaining(cfg, s.rows, listed, outcome);
      PassRows(cfg, u, rest, outcomes, r);
      if r == listed[0] {
        ReachedNext(cfg, s.rows, listed, outcomes, r);
      } else {
        ReachedBehind(cfg, s, listed, outcomes, r);
      }
    }
  }

  /** The storage deleted the object behind this row at its visit. */
  predicate Hit(
    cfg: Config, rows: map<UuidText, Row>, listed: seq<UuidText>, outcomes: map<UuidText, Visit>, r: UuidText,
    key: string)
  {
    && Pending(rows, r) && OutcomeOf(outcomes, r) != StorageFails && rows[r].key == key
    && Reached(cfg, rows, listed, outcomes, r)
  }

  lemma {:induction false} PassObjects(
    cfg: Config, s: Avatars, listed: seq<UuidText>, outcomes: map<UuidText, Visit>, key: string)
    ensures key in Pass(cfg, s, listed, outcomes).objects <==>
            key in s.objects && (cfg.bucket == "" || forall r :: !Hit(cfg, s.rows, listed, outcomes, r, key))
    decreases |listed|
  {
    if listed != [] {
      var r0, outcome := listed[0], OutcomeOf(outcomes, listed[0]);
      var u, rest := Visited(cfg, s, r0, outcome), Remaining(cfg, s.rows, listed, outcome);
      PassObjects(cfg, u, rest, outcomes, key);
      ReachedNext(cfg, s.rows, listed, outcomes, r0);
      assert key in u.objects <==>
             key in s.objects && (cfg.bucket == "" || !Hit(cfg, s.rows, listed, outcomes, r0, key));
      forall r | r != r0
        ensures Hit(cfg, s.rows, listed, outcomes, r, key) <==> Hit(cfg, u.rows, rest, outcomes, r, key)
      {
        ReachedBehind(cfg, s, listed, outcomes, r);
      }
      assert cfg.bucket != "" && Hit(cfg, u.rows, rest, outcomes, r0, key) ==>
             Hit(cfg, s.rows, listed, outcomes, r0, key);
    }
  }

  /**
    A pass in which nothing fails removes exactly the rows that were never claimed and are older than the
    configured number of hours, with their objects.
  */
  lemma CleanPassClearsExpired(
    cfg: Config, s: Avatars, now: int, ordered: seq<UuidText>, outcomes: map<UuidText, Visit>)
    requires cfg.bucket != "" && PendingOldestFirst(s.rows, ordered)
    requires forall r :: !Fails(cfg, s.rows, r, OutcomeOf(outcomes, r))
    ensures var t := Pass(cfg, s, Listing(cfg, s.rows, ordered, now), outcomes);
            && t.rows == (map r | r in s.rows && !Overdue(cfg, s.rows[r], now) :: s.rows[r])
            && t.objects == s.objects - (set r | r in s.rows && Overdue(cfg, s.rows[r], now) :: s.rows[r].key)
            && t.urls == s.urls
  {
    var listed := Listing(cfg, s.rows, ordered, now);
    ListingIsOverdue(cfg, s.rows, ordered, now);
    PassTakesOverdue(cfg, s, now, ordered, outcomes);
    forall r ensures Reached(cfg, s.rows, listed, outcomes, r) <==> r in listed {
      EverybodyReached(cfg, s.rows, listed, outcomes, r);
    }
    CleanPassObjects(cfg, s, now, listed, outcomes);
    PassKeepsUrls(cfg, s, listed, outcomes);
  }

  lemma {:induction false} PassKeepsUrls(
    cfg: Config, s: Avatars, listed: seq<UuidText>, outcomes: map<UuidText, Visit>)
    ensures Pass(cfg, s, listed, outcomes).urls == s.urls
    decreases |listed|
  {
    if listed != [] {
      var outcome := OutcomeOf(outcomes, listed[0]);
      PassKeepsUrls(cfg, Visited(cfg, s, listed[0], outcome), Remaining(cfg, s.rows, listed, outcome), outcomes);
    }
  }

  lemma CleanPassObjects(cfg: Config, s: Avatars, now: int, listed: seq<UuidText>, outcomes: map<UuidText, Visit>)
    requires cfg.bucket != "" && forall r :: !Fails(cfg, s.rows, r, OutcomeOf(outcomes, r))
    requires forall r :: Reached(cfg, s.rows, listed, outcomes, r) <==> r in s.rows && Overdue(cfg, s.rows[r], now)
    ensures Pass(cfg, s, listed, outcomes).objects
         == s.objects - set r | r in s.rows && Overdue(cfg, s.rows[r], now) :: s.rows[r].key
  {
    var gone := set r | r in s.rows && Overdue(cfg, s.rows[r], now) :: s.rows[r].key;
    forall key ensures key in Pass(cfg, s, listed, outcomes).objects <==> key in s.objects && key !in gone {
      PassObjects(cfg, s, listed, outcomes, key);
      assert forall r :: Hit(cfg, s.rows, listed, outcomes, r, key) <==>
                         r in s.rows && Overdue(cfg, s.rows[r], now) && s.rows[r].key == key;
    }
  }

  /** Rows stay as they are; only overdue ones are gone, and all of those if no visit fails. */
  ghost predicate TakesOverdue(
    cfg: Config, before: map<UuidText, Row>, after: map<UuidText, Row>, now: int, outcomes: map<UuidText, Visit>)
  {
    && (forall r :: r in after ==> r in before && after[r] == before[r])
    && (forall r :: r in before && r !in after ==> Overdue(cfg, before[r], now))
    && ((forall r :: !Fails(cfg, before, r, OutcomeOf(outcomes, r))) ==>
          forall r :: r in before && Overdue(cfg, before[r], now) ==> r !in after)
  }

  lemma PassTakesOverdue(cfg: Config, s: Avatars, now: int, ordered: seq<UuidText>, outcomes: map<UuidText, Visit>)
    requires PendingOldestFirst(s.rows, ordered)
    ensures TakesOverdue(cfg, s.rows, Pass(cfg, s, Listing(cfg, s.rows, ordered, now), outcomes).rows, now, outcomes)
  {
    var listed := Listing(cfg, s.rows, ordered, now);
    ListingIsOverdue(cfg, s.rows, ordered, now);
    forall r
      ensures var t := Pass(cfg, s, listed, outcomes);
              && (r in t.rows ==> r in s.rows && t.rows[r] == s.rows[r])
              && (r in s.rows ==> (r in t.rows <==> !Collected(cfg, s.rows, listed, outcomes, r)))
    {
      PassRows(cfg, s, listed, outcomes, r);
    }
    if forall r :: !Fails(cfg, s.rows, r, OutcomeOf(outcomes, r)) {
      forall r ensures Reached(cfg, s.rows, listed, outcomes, r) <==> r in listed {
        EverybodyReached(cfg, s.rows, listed, outcomes, r);
      }
    }
  }

  lemma EverybodyReached(
    cfg: Config, rows: map<UuidText, Row>, listed: seq<UuidText>, outcomes: map<UuidText, Visit>, r: UuidText)
    requires forall q :: !Fails(cfg, rows, q, OutcomeOf(outcomes, q))
    ensures Reached(cfg, rows, listed, outcomes, r) <==> r in listed
  {
    if r in listed {
      var i :| 0 <= i < |listed| && listed[i] == r;
      assert Undisturbed(cfg, rows, listed, outcomes, i);
    }
  }

  // ---------------------------------------------------------------- failures in front

  /** Two expired rows: if the visit of the first fails, the second keeps row and object in this pass. */
  lemma FailureEndsPass(cfg: Config, s: Avatars, first: UuidText, second: UuidText, outcomes: map<UuidText, Visit>)
    requires first != second && Pending(s.rows, first) && Pending(s.rows, second)
    requires Fails(cfg, s.rows, first, OutcomeOf(outcomes, first)) && s.rows[first].key != s.rows[second].key
    ensures var t := Pass(cfg, s, [first, second], outcomes);
            && t.rows == s.rows && (s.rows[second].key in t.objects <==> s.rows[second].key in s.objects)
            && BreaksOff(cfg, s.rows, [first, second], outcomes)
  {
    assert FailsAt(cfg, s.rows, [first, second], outcomes, 0);
  }

  // ---------------------------------------------------------------- saved avatars and the janitor

  /** Saving someone else's upload leaves its row unclaimed, saving one's own claims it. */
  lemma ClaimedIffStarter(cfg: Config, rows: map<UuidText, Row>, issued: Issued, actor: UuidText, r: UuidText)
    requires UsableBase(cfg.base) && IssuedUnderPrefix(issued) && LedgerConsistent(cfg, rows, issued)
    requires Pending(rows, r) && Committed(rows, actor, Some(rows[r].url)).Ok?
    ensures var after := Committed(rows, actor, Some(rows[r].url)).value;
            && r in after && after[r] == rows[r].(committed := actor == rows[r].startedBy)
            && LedgerConsistent(cfg, after, issued)
  {
    CommitKeepsLedger(cfg, rows, issued, actor, Some(rows[r].url));
    assert |rows[r].url| >= |rows[r].key| > 0;
  }

  /**
    Someone saves the URL of a pending upload, for instance a manager as the group's avatar. The next
    janitor pass spares the object, which is the current avatar, exactly if the caller who saves is the
    one who started the upload, or the pass does not get to the row, or the storage refuses: two
    managers sharing the work lose the group's avatar.
  */
  lemma AvatarSurvivesJanitorIff(
    cfg: Config, s: Avatars, issued: Issued, actor: UuidText, target: Target, r: UuidText, storage: Storage,
    now: int, ordered: seq<UuidText>, outcomes: map<UuidText, Visit>)
    requires UsableBase(cfg.base) && cfg.bucket != ""
    requires IssuedUnderPrefix(issued) && LedgerConsistent(cfg, s.rows, issued) && Pending(s.rows, r)
    requires Saved(cfg, s, actor, target, true, Some(s.rows[r].url), storage).Ok?
    requires var t := Saved(cfg, s, actor, target, true, Some(s.rows[r].url), storage).value;
             PendingOldestFirst(t.rows, ordered) && s.rows[r].key in t.objects
    ensures var t := Saved(cfg, s, actor, target, true, Some(s.rows[r].url), storage).value;
            var listed := Listing(cfg, t.rows, ordered, now);
            var u := Pass(cfg, t, listed, outcomes);
            && Live(cfg, u, OwnerOf(actor, target), s.rows[r].key)
            && (r in listed <==> actor != s.rows[r].startedBy && Overdue(cfg, s.rows[r], now))
            && (s.rows[r].key in u.objects <==>
                  || actor == s.rows[r].startedBy || OutcomeOf(outcomes, r).StorageFails?
                  || !Reached(cfg, t.rows, listed, outcomes, r))
  {
    var t := Saved(cfg, s, actor, target, true, Some(s.rows[r].url), storage).value;
    ClaimedIffStarter(cfg, s.rows, issued, actor, r);
    SavedIsLive(cfg, s, issued, actor, target, r, storage);
    ObjectSurvivesPassIff(cfg, t, issued, r, now, ordered, outcomes);
    ListingIsOverdue(cfg, t.rows, ordered, now);
  }

  lemma SavedIsLive(
    cfg: Config, s: Avatars, issued: Issued, actor: UuidText, target: Target, r: UuidText, storage: Storage)
    requires UsableBase(cfg.base) && IssuedUnderPrefix(issued) && LedgerConsistent(cfg, s.rows, issued) && r in s.rows
    requires Saved(cfg, s, actor, target, true, Some(s.rows[r].url), storage).Ok?
    ensures var t := Saved(cfg, s, actor, target, true, Some(s.rows[r].url), storage).value;
            Live(cfg, t, OwnerOf(actor, target), s.rows[r].key)
  {
    RoundTripIff(cfg.base, s.rows[r].key);
  }

  /** A pass deletes an uploaded object exactly if it reaches the row and the storage does not refuse. */
  lemma ObjectSurvivesPassIff(
    cfg: Config, t: Avatars, issued: Issued, r: UuidText, now: int, ordered: seq<UuidText>,
    outcomes: map<UuidText, Visit>)
    requires cfg.bucket != "" && LedgerConsistent(cfg, t.rows, issued) && PendingOldestFirst(t.rows, ordered)
    requires r in t.rows && t.rows[r].key in t.objects
    ensures var listed := Listing(cfg, t.rows, ordered, now);
            var u := Pass(cfg, t, listed, outcomes);
            && u.urls == t.urls
            && (t.rows[r].key in u.objects <==>
                  OutcomeOf(outcomes, r).StorageFails? || !Reached(cfg, t.rows, listed, outcomes, r))
  {
    var key := t.rows[r].key;
    var listed := Listing(cfg, t.rows, ordered, now);
    PassRows(cfg, t, listed, outcomes, r);
    PassObjects(cfg, t, listed, outcomes, key);
    if Reached(cfg, t.rows, listed, outcomes, r) {
      ListingIsOverdue(cfg, t.rows, ordered, now);
      assert Hit(cfg, t.rows, listed, outcomes, r, key) <==> !OutcomeOf(outcomes, r).StorageFails?;
    }
    assert forall q :: Hit(cfg, t.rows, listed, outcomes, q, key) ==> q == r;
  }

  /**
    A group can be created with the URL of any upload, and no row is claimed by that. A janitor pass
    spares the object, which is the new group's current avatar, exactly if the row was claimed before,
    or the pass does not get to it (it is not old enough, or a visit before it fails), or the storage
    refuses.
  */
  lemma EnrolledAvatarSurvivesJanitorIff(
    cfg: Config, s: Avatars, issued: Issued, o: Owner, r: UuidText, createdAt: int,
    now: int, ordered: seq<UuidText>, outcomes: map<UuidText, Visit>)
    requires UsableBase(cfg.base) && cfg.bucket != "" && o !in s.urls
    requires IssuedUnderPrefix(issued) && LedgerConsistent(cfg, s.rows, issued) && r in s.rows
    requires s.rows[r].key in s.objects && PendingOldestFirst(s.rows, ordered)
    ensures var t := Step(cfg, System(s, []), createdAt, Enrolled(o, Some(s.rows[r].url))).tables;
            var listed := Listing(cfg, t.rows, ordered, now);
            var u := Pass(cfg, t, listed, outcomes);
            && Live(cfg, u, o, s.rows[r].key)
            && (r in listed <==> Overdue(cfg, s.rows[r], now))
            && (s.rows[r].key in u.objects <==>
                  OutcomeOf(outcomes, r).StorageFails? || !Reached(cfg, t.rows, listed, outcomes, r))
  {
    var t := Step(cfg, System(s, []), createdAt, Enrolled(o, Some(s.rows[r].url))).tables;
    RoundTripIff(cfg.base, s.rows[r].key);
    ObjectSurvivesPassIff(cfg, t, issued, r, now, ordered, outcomes);
    ListingIsOverdue(cfg, t.rows, ordered, now);
  }

  // ---------------------------------------------------------------- a row that always fails

  /** In what is still to be visited, `r` comes before `q`, if `q` is there at all. */
  predicate Before(listed: seq<UuidText>, r: UuidText, q: UuidText) {
    listed == [] || listed[0] == r || (listed[0] != q && Before(listed[1..], r, q))
  }

  predicate OldestFirst(rows: map<UuidText, Row>, ordered: seq<UuidText>) {
    forall i, j | 0 <= i < j < |ordered| && ordered[i] in rows && ordered[j] in rows ::
        rows[ordered[i]].createdAt <= rows[ordered[j]].createdAt
  }

  lemma {:induction false} NotListedIsBehind(listed: seq<UuidText>, r: UuidText, q: UuidText)
    requires q !in listed
    ensures Before(listed, r, q)
  {
    if listed != [] {
      NotListedIsBehind(listed[1..], r, q);
    }
  }

  /** Whenever a younger row is listed, so is the older one, before it. */
  lemma {:induction false} OlderIsListedBefore(
    rows: map<UuidText, Row>, ordered: seq<UuidText>, cutoff: int, r: UuidText, q: UuidText)
    requires OldestFirst(rows, ordered) && r in ordered && Pending(rows, r)
    requires q in rows && rows[r].createdAt < rows[q].createdAt
    ensures Before(ExpiredOf(rows, ordered, cutoff), r, q)
  {
    var rest := ordered[1..];
    if ordered[0] == r {
      if !Expired(rows, r, cutoff) {
        ExpiredOfIsExpired(rows, ordered, cutoff);
        NotListedIsBehind(ExpiredOf(rows, ordered, cutoff), r, q);
      }
    } else {
      assert r in rest;
      var j :| 0 <= j < |rest| && rest[j] == r;
      assert ordered[j + 1] == r;
      assert OldestFirst(rows, rest) by {
        assert forall i | 0 <= i < |rest| :: rest[i] == ordered[i + 1];
      }
      OlderIsListedBefore(rows, rest, cutoff, r, q);
    }
  }

  /** At this step nobody has claimed the row, and if it is visited the visit fails. */
  predicate StuckAt(cfg: Config, m: Moment, e: Event, r: UuidText) {
    var y := m.system;
    && Pending(y.tables.rows, r)
    && (e.Visits? && y.listed != [] && y.listed[0] == r ==> Fails(cfg, y.tables.rows, r, e.outcome))
  }

  /** Two rows, the older of them first wherever the younger is listed. */
  predicate Shields(y: System, r: UuidText, q: UuidText) {
    && r in y.tables.rows && q in y.tables.rows && y.tables.rows[r].createdAt < y.tables.rows[q].createdAt
    && Before(y.listed, r, q)
  }

  lemma ShieldedByStep(cfg: Config, m: Moment, now: int, e: Event, r: UuidText, q: UuidText)
    requires Orderly(m.system, m.issued, e) && StuckAt(cfg, m, e, r) && Shields(m.system, r, q)
    ensures Shields(Step(cfg, m.system, now, e), r, q)
    ensures RowKept(m.system.tables.rows[q], Lookup(Step(cfg, m.system, now, e).tables.rows, q))
  {
    var y := m.system;
    StepOnRows(cfg, y, now, e);
    if e.Visits? {
      StepOfVisit(cfg, y, now, e);
    } else if e.Lists? {
      OlderIsListedBefore(y.tables.rows, e.ordered, Cutoff(cfg, now), r, q);
    } else {
      RowsStayOutsideVisits(cfg, y, now, e);
    }
  }

  lemma RowsStayOutsideVisits(cfg: Config, y: System, now: int, e: Event)
    requires !e.Visits? && !e.Lists?
    ensures Step(cfg, y, now, e).listed == y.listed
    ensures forall r :: r in y.tables.rows ==> r in Step(cfg, y, now, e).tables.rows
  {
    if e.Saves? {
      StepOfSave(cfg, y, now, e);
      SavedRows(cfg, y.tables, e.actor, e.target, e.manages, e.url, e.storage);
    } else if e.DeletesGroup? {
      StepOfDeletion(cfg, y, now, e);
    }
  }

  /**
    A pending row whose visits always fail, say because the storage refuses its key, keeps every
    younger row in the ledger: however many passes run, none gets beyond it.
  */
  lemma {:induction false} StuckRowShieldsYounger(
    cfg: Config, run: seq<Timed>, trace: seq<Moment>, i: nat, j: nat, r: UuidText, q: UuidText)
    requires RunOf(cfg, run, trace) && i <= j <= |run| && Shields(trace[i].system, r, q)
    requires forall m | i <= m < j :: StuckAt(cfg, trace[m], run[m].event, r)
    ensures Shields(trace[j].system, r, q)
    ensures RowKept(trace[i].system.tables.rows[q], RowAt(trace[j], q))
    decreases j
  {
    if i < j {
      StuckRowShieldsYounger(cfg, run, trace, i, j - 1, r, q);
      assert StepAt(cfg, run, trace, j - 1);
      ShieldedByStep(cfg, trace[j - 1], run[j - 1].now, run[j - 1].event, r, q);
    }
  }
}
