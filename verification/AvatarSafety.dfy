/**
  When the object of a current avatar can be lost: never, as long as everybody keeps to own uploads;
  for an owner who does, exactly when somebody else's replaced avatar is the same object, or when the
  deletion of the group itself sweeps and then fails to commit.
*/
module AvatarSafety {
  import opened Prelude
  import opened AvatarUrl
  import opened AvatarRoundTrip
  import opened AvatarModel

  /** Who an upload form was handed out to, and whose avatar it is for. */
  datatype Issue = Issue(startedBy: UuidText, owner: Owner)

  /** Every upload form handed out so far, by object key; a history of the run, not a table. */
  type Issued = map<string, Issue>

  function IssuedBy(cfg: Config, s: Avatars, now: int, e: Event, issued: Issued): Issued {
    if e.Starts? && Started(cfg, s, now, e.upload).Ok?
    then issued[KeyOfUpload(e.upload).value := Issue(e.upload.actor, OwnerOf(e.upload.actor, e.upload.target))]
    else issued
  }

  predicate Managed(cfg: Config, url: Option<string>) { KeyOf(cfg.base, url).Some? }

  /** The URL of an upload that this caller started for this very owner. */
  ghost predicate OwnUpload(cfg: Config, issued: Issued, actor: UuidText, owner: Owner, url: Option<string>) {
    exists k :: k in issued && issued[k] == Issue(actor, owner) && url == Some(UrlFor(cfg.base, k))
  }

  /** Ids are fresh and the ledger query is answered truthfully; no demand on URLs. */
  ghost predicate Orderly(y: System, issued: Issued, e: Event) {
    && (e.Starts? ==>
          && e.upload.row !in y.listed
          && (KeyOfUpload(e.upload).Some? ==> KeyOfUpload(e.upload).value !in issued))
    && (e.Lists? ==> PendingOldestFirst(y.tables.rows, e.ordered))
  }

  /**
    The avatar of `o` is only set to null, to unmanaged URLs, or to the URL of an own upload;
    providers and enrolment supply unmanaged ones. Nothing is said about other owners.
  */
  ghost predicate KeepsToOwn(cfg: Config, issued: Issued, e: Event, o: Owner) {
    match e
    case Enrolled(p, url) => p == o ==> !Managed(cfg, url)
    case Seeds(user, url) => UserOwner(user) == o ==> !Managed(cfg, url)
    case Saves(actor, target, _, url, _) =>
      OwnerOf(actor, target) == o && Managed(cfg, url) ==> OwnUpload(cfg, issued, actor, o, url)
    case Starts(_) => true
    case Lists(_) => true
    case PutObject(_) => true
    case DeletesGroup(_, _, _, _) => true
    case Visits(_) => true
  }

  /** The owner's current avatar is the managed object `key`. */
  predicate Live(cfg: Config, s: Avatars, o: Owner, key: string) {
    o in s.urls && KeyOf(cfg.base, s.urls[o]) == Some(key)
  }

  // ---------------------------------------------------------------- keys and prefixes

  lemma PrefixShape(o: Owner)
    ensures PrefixOf(o)[0] == if o.UserOwner? then 'u' else 'g'
    ensures |PrefixOf(o)| == (if o.UserOwner? then 6 else 7) + 45
    ensures o.id == if o.UserOwner? then PrefixOf(o)[6..42] else PrefixOf(o)[7..43]
  {
  }

  /** No key lies under the prefixes of two owners. */
  lemma PrefixesNeverOverlap(o1: Owner, o2: Owner, key: string)
    requires PrefixOf(o1) <= key && PrefixOf(o2) <= key
    ensures o1 == o2
  {
    PrefixShape(o1);
    PrefixShape(o2);
    assert key[0] == PrefixOf(o1)[0] == PrefixOf(o2)[0];
    assert PrefixOf(o1) == PrefixOf(o2);
  }

  lemma PlainParts(a: string, b: string)
    requires NoMarks(a) && NoBreaks(a) && NoMarks(b) && NoBreaks(b)
    ensures NoMarks(a + b) && NoBreaks(a + b)
  {
  }

  lemma UuidIsPlain(id: UuidText)
    ensures NoMarks(id) && NoBreaks(id)
  {
    forall k | 0 <= k < |id| ensures !IsHash(id[k]) && !IsQuestion(id[k]) && !IsTabOrNewline(id[k]) {
      assert IsUuidChar(id[k]);
    }
  }

  lemma UploadKeysArePlain(owner: Owner, image: UuidText, contentType: string)
    requires Extension(contentType).Some?
    ensures var k := UploadKey(owner, image, Extension(contentType).value);
            PlainKey(k) && PrefixOf(owner) <= k
  {
    var e := Extension(contentType).value;
    UuidIsPlain(owner.id);
    UuidIsPlain(image);
    var head := if owner.UserOwner? then "users/" else "groups/";
    PlainParts(head, owner.id);
    PlainParts(head + owner.id, "/avatars/");
    assert PrefixOf(owner) == head + owner.id + "/avatars/";
    PlainParts(PrefixOf(owner), image);
    PlainParts(PrefixOf(owner) + image, ".");
    PlainParts(PrefixOf(owner) + image + ".", e);
    PrefixShape(owner);
    var k := UploadKey(owner, image, e);
    assert k[0] == PrefixOf(owner)[0];
  }

  // ---------------------------------------------------------------- the invariant

  ghost predicate IssuedUnderPrefix(issued: Issued) {
    forall k :: k in issued ==> PlainKey(k) && PrefixOf(issued[k].owner) <= k
  }

  ghost predicate LedgerConsistent(cfg: Config, rows: map<UuidText, Row>, issued: Issued) {
    && (forall r :: r in rows ==>
          && rows[r].key in issued && issued[rows[r].key].startedBy == rows[r].startedBy
          && rows[r].url == UrlFor(cfg.base, rows[r].key))
    && (forall r, q | r in rows && q in rows && rows[r].key == rows[q].key :: r == q)
  }

  /** The ledger no longer lists this key as unclaimed. */
  ghost predicate Claimed(rows: map<UuidText, Row>, key: string) {
    forall r :: r in rows && rows[r].key == key ==> rows[r].committed
  }

  ghost predicate Holds(cfg: Config, rows: map<UuidText, Row>, issued: Issued, owner: Owner, url: Option<string>) {
    Managed(cfg, url) ==>
      var k := KeyOf(cfg.base, url).value;
      k in issued && issued[k].owner == owner && url == Some(UrlFor(cfg.base, k)) && Claimed(rows, k)
  }

  /** The ledger matches the forms handed out, and the avatar of `o` is an own upload that is claimed. */
  ghost predicate Inv(cfg: Config, s: Avatars, issued: Issued, o: Owner) {
    && IssuedUnderPrefix(issued)
    && LedgerConsistent(cfg, s.rows, issued)
    && (o in s.urls ==> Holds(cfg, s.rows, issued, o, s.urls[o]))
  }

  // ---------------------------------------------------------------- one step keeps it

  lemma StartKeepsLedger(cfg: Config, rows: map<UuidText, Row>, issued: Issued, r: UuidText, row: Row, issue: Issue)
    requires LedgerConsistent(cfg, rows, issued) && r !in rows && row.key !in issued
    requires row.startedBy == issue.startedBy && row.url == UrlFor(cfg.base, row.key)
    ensures LedgerConsistent(cfg, rows[r := row], issued[row.key := issue])
  {
  }

  lemma StartKeepsHolding(
    cfg: Config, rows: map<UuidText, Row>, issued: Issued, r: UuidText, row: Row, issue: Issue, o: Owner,
    url: Option<string>)
    requires Holds(cfg, rows, issued, o, url) && r !in rows && row.key !in issued
    ensures Holds(cfg, rows[r := row], issued[row.key := issue], o, url)
  {
  }

  lemma StartKeepsInv(cfg: Config, s: Avatars, now: int, u: Upload, issued: Issued, o: Owner)
    requires Inv(cfg, s, issued, o) && Started(cfg, s, now, u).Ok? && KeyOfUpload(u).value !in issued
    ensures Inv(cfg, Started(cfg, s, now, u).value, IssuedBy(cfg, s, now, Starts(u), issued), o)
  {
    var owner, key := OwnerOf(u.actor, u.target), KeyOfUpload(u).value;
    var row, issue := Row(u.actor, key, UrlFor(cfg.base, key), now, false), Issue(u.actor, owner);
    UploadKeysArePlain(owner, u.image, u.contentType);
    StartKeepsLedger(cfg, s.rows, issued, u.row, row, issue);
    if o in s.urls {
      StartKeepsHolding(cfg, s.rows, issued, u.row, row, issue, o, s.urls[o]);
    }
  }

  /** Committing an own upload's URL claims its row: the row was started by the same user. */
  lemma CommitClaims(cfg: Config, rows: map<UuidText, Row>, issued: Issued, actor: UuidText, owner: Owner, key: string)
    requires LedgerConsistent(cfg, rows, issued) && key in issued && issued[key] == Issue(actor, owner)
    requires Committed(rows, actor, Some(UrlFor(cfg.base, key))).Ok?
    ensures Claimed(Committed(rows, actor, Some(UrlFor(cfg.base, key))).value, key)
  {
    UrlIsNotBlank(cfg.base, key);
  }

  lemma CommitKeepsLedger(cfg: Config, rows: map<UuidText, Row>, issued: Issued, actor: UuidText, url: Option<string>)
    requires LedgerConsistent(cfg, rows, issued) && Committed(rows, actor, url).Ok?
    ensures LedgerConsistent(cfg, Committed(rows, actor, url).value, issued)
  {
  }

  lemma CommitKeepsHolding(
    cfg: Config, rows: map<UuidText, Row>, issued: Issued, actor: UuidText, url: Option<string>, o: Owner,
    current: Option<string>)
    requires Holds(cfg, rows, issued, o, current) && Committed(rows, actor, url).Ok?
    ensures Holds(cfg, Committed(rows, actor, url).value, issued, o, current)
  {
  }

  /** A saved own upload is held. */
  lemma OwnUploadHolds(
    cfg: Config, rows: map<UuidText, Row>, issued: Issued, actor: UuidText, o: Owner, url: Option<string>)
    requires UsableBase(cfg.base) && IssuedUnderPrefix(issued) && LedgerConsistent(cfg, rows, issued)
    requires Managed(cfg, url) ==> OwnUpload(cfg, issued, actor, o, url)
    requires Committed(rows, actor, url).Ok?
    ensures Holds(cfg, Committed(rows, actor, url).value, issued, o, url)
  {
    if Managed(cfg, url) {
      var k :| k in issued && issued[k] == Issue(actor, o) && url == Some(UrlFor(cfg.base, k));
      RoundTripIff(cfg.base, k);
      CommitClaims(cfg, rows, issued, actor, o, k);
    }
  }

  lemma SavedTables(
    cfg: Config, s: Avatars, actor: UuidText, target: Target, manages: bool, url: Option<string>, storage: Storage)
    requires Saved(cfg, s, actor, target, manages, url, storage).Ok?
    ensures var t := Saved(cfg, s, actor, target, manages, url, storage).value;
            && Committed(s.rows, actor, url).Ok? && t.rows == Committed(s.rows, actor, url).value
            && OwnerOf(actor, target) in s.urls && t.urls == s.urls[OwnerOf(actor, target) := url]
  {
  }

  lemma CommitKeepsInv(
    cfg: Config, s: Avatars, t: Avatars, actor: UuidText, owner: Owner, url: Option<string>, issued: Issued, o: Owner)
    requires UsableBase(cfg.base) && Inv(cfg, s, issued, o) && Committed(s.rows, actor, url).Ok?
    requires owner in s.urls && t.urls == s.urls[owner := url] && t.rows == Committed(s.rows, actor, url).value
    requires owner == o && Managed(cfg, url) ==> OwnUpload(cfg, issued, actor, o, url)
    ensures Inv(cfg, t, issued, o)
  {
    CommitKeepsLedger(cfg, s.rows, issued, actor, url);
    if owner == o {
      OwnUploadHolds(cfg, s.rows, issued, actor, o, url);
    } else if o in s.urls {
      CommitKeepsHolding(cfg, s.rows, issued, actor, url, o, s.urls[o]);
    }
  }

  lemma SaveStepKeepsInv(cfg: Config, y: System, now: int, e: Event, issued: Issued, o: Owner)
    requires UsableBase(cfg.base) && Inv(cfg, y.tables, issued, o) && KeepsToOwn(cfg, issued, e, o) && e.Saves?
    ensures Inv(cfg, Step(cfg, y, now, e).tables, issued, o)
  {
    StepOfSave(cfg, y, now, e);
    if Saved(cfg, y.tables, e.actor, e.target, e.manages, e.url, e.storage).Ok? {
      SavedTables(cfg, y.tables, e.actor, e.target, e.manages, e.url, e.storage);
      CommitKeepsInv(
        cfg, y.tables, Step(cfg, y, now, e).tables, e.actor, OwnerOf(e.actor, e.target), e.url, issued, o);
    }
  }

  lemma StartStepKeepsInv(cfg: Config, y: System, now: int, e: Event, issued: Issued, o: Owner)
    requires Inv(cfg, y.tables, issued, o) && Orderly(y, issued, e) && e.Starts?
    ensures Inv(cfg, Step(cfg, y, now, e).tables, IssuedBy(cfg, y.tables, now, e, issued), o)
  {
    if Started(cfg, y.tables, now, e.upload).Ok? {
      StartKeepsInv(cfg, y.tables, now, e.upload, issued, o);
    }
  }

  lemma FewerRowsKeepHolding(
    cfg: Config, rows: map<UuidText, Row>, fewer: map<UuidText, Row>, issued: Issued, o: Owner, url: Option<string>)
    requires Holds(cfg, rows, issued, o, url) && forall r :: r in fewer ==> r in rows && fewer[r] == rows[r]
    ensures Holds(cfg, fewer, issued, o, url)
  {
  }

  lemma VisitStepKeepsInv(cfg: Config, y: System, now: int, e: Event, issued: Issued, o: Owner)
    requires Inv(cfg, y.tables, issued, o) && e.Visits?
    ensures Inv(cfg, Step(cfg, y, now, e).tables, issued, o)
  {
    var s, t := y.tables, Step(cfg, y, now, e).tables;
    StepOfVisit(cfg, y, now, e);
    if o in s.urls {
      FewerRowsKeepHolding(cfg, s.rows, t.rows, issued, o, s.urls[o]);
    }
  }

  lemma DeletionStepKeepsInv(cfg: Config, y: System, now: int, e: Event, issued: Issued, o: Owner)
    requires Inv(cfg, y.tables, issued, o) && e.DeletesGroup?
    ensures Inv(cfg, Step(cfg, y, now, e).tables, issued, o)
  {
    StepOfDeletion(cfg, y, now, e);
  }

  /** Enrolment and seeding write unmanaged URLs, the other steps no URL and no row. */
  lemma PlainStepKeepsInv(cfg: Config, y: System, now: int, e: Event, issued: Issued, o: Owner)
    requires Inv(cfg, y.tables, issued, o) && KeepsToOwn(cfg, issued, e, o)
    requires e.Enrolled? || e.Seeds? || e.PutObject? || e.Lists?
    ensures Inv(cfg, Step(cfg, y, now, e).tables, issued, o)
  {
  }

  lemma StepKeepsInv(cfg: Config, y: System, now: int, e: Event, issued: Issued, o: Owner)
    requires UsableBase(cfg.base) && Inv(cfg, y.tables, issued, o) && Orderly(y, issued, e)
    requires KeepsToOwn(cfg, issued, e, o)
    ensures Inv(cfg, Step(cfg, y, now, e).tables, IssuedBy(cfg, y.tables, now, e, issued), o)
  {
    if e.Saves? {
      SaveStepKeepsInv(cfg, y, now, e, issued, o);
    } else if e.Starts? {
      StartStepKeepsInv(cfg, y, now, e, issued, o);
    } else if e.Visits? {
      VisitStepKeepsInv(cfg, y, now, e, issued, o);
    } else if e.DeletesGroup? {
      DeletionStepKeepsInv(cfg, y, now, e, issued, o);
    } else {
      PlainStepKeepsInv(cfg, y, now, e, issued, o);
    }
  }

  // ---------------------------------------------------------------- exactly what a step deletes

  /** The cleanup of a replaced avatar asks for this object and gets through. */
  predicate CleanupHits(cfg: Config, previous: Option<string>, next: Option<string>, works: bool, key: string) {
    cfg.bucket != "" && works && Replaced(cfg, previous, next) == Some(key)
  }

  /** A sweep of the owner's prefix asks for this object and reaches it. */
  predicate SweepHits(cfg: Config, owner: Owner, keepUrl: Option<string>, reached: set<string>, key: string) {
    && cfg.bucket != "" && cfg.base != "" && PrefixOf(owner) <= key && key in reached
    && KeyOf(cfg.base, keepUrl) != Some(key)
  }

  predicate VisitHits(cfg: Config, s: Avatars, r: UuidText, outcome: Visit, key: string) {
    && cfg.bucket != "" && r in s.rows && !s.rows[r].committed && !outcome.StorageFails?
    && s.rows[r].key == key
  }

  /** Whether a step deletes an object, read off the request and the tables before it. */
  predicate Hits(cfg: Config, y: System, e: Event, key: string) {
    var s := y.tables;
    match e
    case Saves(actor, target, manages, url, storage) =>
      var owner := OwnerOf(actor, target);
      && Saved(cfg, s, actor, target, manages, url, storage).Ok?
      && (|| CleanupHits(cfg, s.urls[owner], url, storage.cleanupWorks, key)
          || SweepHits(cfg, owner, url, storage.reached, key))
    case DeletesGroup(group, isOwner, reached, commits) =>
      && GroupDeleted(cfg, s, group, isOwner, reached, commits).Ok?
      && SweepHits(cfg, GroupOwner(group), None, reached, key)
    case Visits(outcome) => y.listed != [] && VisitHits(cfg, s, y.listed[0], outcome, key)
    case Enrolled(_, _) => false
    case Seeds(_, _) => false
    case Starts(_) => false
    case PutObject(_) => false
    case Lists(_) => false
  }

  lemma SweptIff(
    cfg: Config, objects: set<string>, owner: Owner, keepUrl: Option<string>, reached: set<string>, key: string)
    ensures key in Swept(cfg, objects, owner, keepUrl, reached) <==>
            key in objects && !SweepHits(cfg, owner, keepUrl, reached, key)
  {
  }

  lemma DroppedIff(
    cfg: Config, objects: set<string>, previous: Option<string>, next: Option<string>, works: bool, key: string)
    ensures key in Dropped(cfg, objects, Replaced(cfg, previous, next), works) <==>
            key in objects && !CleanupHits(cfg, previous, next, works, key)
  {
  }

  /**
    For any tables and any URL: saving deletes an object exactly if the cleanup works and the replaced
    avatar is that object, or the sweep reaches it under the owner's prefix and it is not the new one.
  */
  lemma SaveDeletesIff(
    cfg: Config, s: Avatars, actor: UuidText, target: Target, manages: bool, url: Option<string>, storage: Storage,
    key: string)
    requires Saved(cfg, s, actor, target, manages, url, storage).Ok? && key in s.objects
    ensures var owner := OwnerOf(actor, target);
            key !in Saved(cfg, s, actor, target, manages, url, storage).value.objects <==>
            || CleanupHits(cfg, s.urls[owner], url, storage.cleanupWorks, key)
            || SweepHits(cfg, owner, url, storage.reached, key)
    ensures forall o :: o != OwnerOf(actor, target) ==>
              (Live(cfg, Saved(cfg, s, actor, target, manages, url, storage).value, o, key) <==> Live(cfg, s, o, key))
  {
    var owner := OwnerOf(actor, target);
    var previous := s.urls[owner];
    var kept := Dropped(cfg, s.objects, Replaced(cfg, previous, url), storage.cleanupWorks);
    DroppedIff(cfg, s.objects, previous, url, storage.cleanupWorks, key);
    SweptIff(cfg, kept, owner, url, storage.reached, key);
    SavedTables(cfg, s, actor, target, manages, url, storage);
  }

  lemma StepOfSave(cfg: Config, y: System, now: int, e: Event)
    requires e.Saves?
    ensures Step(cfg, y, now, e).tables
            == OrUnchanged(y.tables, Saved(cfg, y.tables, e.actor, e.target, e.manages, e.url, e.storage))
  {
  }

  lemma StepOfDeletion(cfg: Config, y: System, now: int, e: Event)
    requires e.DeletesGroup?
    ensures var r := GroupDeleted(cfg, y.tables, e.group, e.isOwner, e.reached, e.commits);
            var t := Step(cfg, y, now, e).tables;
            && t == OrUnchanged(y.tables, r) && t.rows == y.tables.rows
            && (r.Ok? ==> t.urls == if e.commits then y.tables.urls - {GroupOwner(e.group)} else y.tables.urls)
            && (r.Ok? ==> t.objects == Swept(cfg, y.tables.objects, GroupOwner(e.group), None, e.reached))
            && (r.Ok? <==> e.isOwner && GroupOwner(e.group) in y.tables.urls)
  {
  }

  lemma StepOfVisit(cfg: Config, y: System, now: int, e: Event)
    requires e.Visits?
    ensures var t := Step(cfg, y, now, e).tables;
            && t == (if y.listed == [] then y.tables else Visited(cfg, y.tables, y.listed[0], e.outcome))
            && t.urls == y.tables.urls
            && forall r :: r in t.rows ==> r in y.tables.rows && t.rows[r] == y.tables.rows[r]
  {
  }

  lemma VisitedIff(cfg: Config, s: Avatars, r: UuidText, outcome: Visit, key: string)
    ensures key in Visited(cfg, s, r, outcome).objects <==> key in s.objects && !VisitHits(cfg, s, r, outcome, key)
  {
  }

  lemma OthersDeleteNothing(cfg: Config, y: System, now: int, e: Event, key: string)
    requires !e.Saves? && !e.DeletesGroup? && !e.Visits?
    ensures y.tables.objects <= Step(cfg, y, now, e).tables.objects && !Hits(cfg, y, e, key)
  {
  }

  lemma SaveStepDeletesIff(cfg: Config, y: System, now: int, e: Event, key: string)
    requires e.Saves? && key in y.tables.objects
    ensures key !in Step(cfg, y, now, e).tables.objects <==> Hits(cfg, y, e, key)
  {
    StepOfSave(cfg, y, now, e);
    if Saved(cfg, y.tables, e.actor, e.target, e.manages, e.url, e.storage).Ok? {
      SaveDeletesIff(cfg, y.tables, e.actor, e.target, e.manages, e.url, e.storage, key);
    }
  }

  lemma DeletionStepDeletesIff(cfg: Config, y: System, now: int, e: Event, key: string)
    requires e.DeletesGroup? && key in y.tables.objects
    ensures key !in Step(cfg, y, now, e).tables.objects <==> Hits(cfg, y, e, key)
  {
    StepOfDeletion(cfg, y, now, e);
    SweptIff(cfg, y.tables.objects, GroupOwner(e.group), None, e.reached, key);
  }

  lemma VisitStepDeletesIff(cfg: Config, y: System, now: int, e: Event, key: string)
    requires e.Visits? && key in y.tables.objects
    ensures key !in Step(cfg, y, now, e).tables.objects <==> Hits(cfg, y, e, key)
  {
    StepOfVisit(cfg, y, now, e);
    if y.listed != [] {
      VisitedIff(cfg, y.tables, y.listed[0], e.outcome, key);
    }
  }

  /** For any configuration, tables and step: which present objects the step deletes. */
  lemma StepDeletesIff(cfg: Config, y: System, now: int, e: Event, key: string)
    requires key in y.tables.objects
    ensures key !in Step(cfg, y, now, e).tables.objects <==> Hits(cfg, y, e, key)
  {
    if e.Saves? {
      SaveStepDeletesIff(cfg, y, now, e, key);
    } else if e.DeletesGroup? {
      DeletionStepDeletesIff(cfg, y, now, e, key);
    } else if e.Visits? {
      VisitStepDeletesIff(cfg, y, now, e, key);
    } else {
      OthersDeleteNothing(cfg, y, now, e, key);
    }
  }

  // ---------------------------------------------------------------- exactly how an owner's object is lost

  /** Somebody else's replaced avatar is this object, and its cleanup works. */
  predicate Robs(cfg: Config, y: System, e: Event, o: Owner, key: string) {
    && e.Saves? && OwnerOf(e.actor, e.target) != o
    && Saved(cfg, y.tables, e.actor, e.target, e.manages, e.url, e.storage).Ok?
    && CleanupHits(cfg, y.tables.urls[OwnerOf(e.actor, e.target)], e.url, e.storage.cleanupWorks, key)
  }

  /** The group's own deletion sweeps the object and then fails to commit. */
  predicate Strands(cfg: Config, y: System, e: Event, o: Owner, key: string) {
    && e.DeletesGroup? && GroupOwner(e.group) == o && e.isOwner && o in y.tables.urls && !e.commits
    && cfg.bucket != "" && key in e.reached
  }

  lemma LiveFacts(cfg: Config, s: Avatars, issued: Issued, o: Owner, key: string)
    requires Inv(cfg, s, issued, o) && Live(cfg, s, o, key)
    ensures PrefixOf(o) <= key && s.urls[o] == Some(UrlFor(cfg.base, key)) && Claimed(s.rows, key)
  {
    assert Holds(cfg, s.rows, issued, o, s.urls[o]);
  }

  lemma ForeignSweepMisses(
    cfg: Config, owner: Owner, keepUrl: Option<string>, reached: set<string>, o: Owner, key: string)
    requires PrefixOf(o) <= key && owner != o
    ensures !SweepHits(cfg, owner, keepUrl, reached, key)
  {
    if PrefixOf(owner) <= key {
      PrefixesNeverOverlap(owner, o, key);
    }
  }

  lemma ClaimedIsNotVisited(cfg: Config, s: Avatars, r: UuidText, outcome: Visit, key: string)
    requires Claimed(s.rows, key)
    ensures !VisitHits(cfg, s, r, outcome, key)
  {
  }

  /** An owner who keeps to own uploads never deletes the object that is saved. */
  lemma OwnSaveMisses(
    cfg: Config, s: Avatars, issued: Issued, o: Owner, url: Option<string>, works: bool,
    reached: set<string>, key: string)
    requires Inv(cfg, s, issued, o) && o in s.urls && KeyOf(cfg.base, url) == Some(key)
        && url == Some(UrlFor(cfg.base, key))
    ensures !CleanupHits(cfg, s.urls[o], url, works, key) && !SweepHits(cfg, o, url, reached, key)
  {
    if Replaced(cfg, s.urls[o], url) == Some(key) {
      assert Live(cfg, s, o, key);
      LiveFacts(cfg, s, issued, o, key);
    }
  }

  lemma SavedUrlIs(cfg: Config, issued: Issued, actor: UuidText, o: Owner, url: Option<string>, key: string)
    requires UsableBase(cfg.base) && IssuedUnderPrefix(issued) && OwnUpload(cfg, issued, actor, o, url)
    requires KeyOf(cfg.base, url) == Some(key)
    ensures url == Some(UrlFor(cfg.base, key))
  {
    var k :| k in issued && issued[k] == Issue(actor, o) && url == Some(UrlFor(cfg.base, k));
    RoundTripIff(cfg.base, k);
  }

  /** The saving step in terms of what it hits. */
  lemma SaveHits(cfg: Config, y: System, e: Event, key: string)
    requires e.Saves?
    ensures Hits(cfg, y, e, key) <==>
            && Saved(cfg, y.tables, e.actor, e.target, e.manages, e.url, e.storage).Ok?
            && (|| CleanupHits(cfg, y.tables.urls[OwnerOf(e.actor, e.target)], e.url, e.storage.cleanupWorks, key)
                || SweepHits(cfg, OwnerOf(e.actor, e.target), e.url, e.storage.reached, key))
  {
  }

  lemma ForeignSaveLosesIff(cfg: Config, y: System, e: Event, o: Owner, key: string)
    requires e.Saves? && OwnerOf(e.actor, e.target) != o && PrefixOf(o) <= key
    ensures Hits(cfg, y, e, key) <==> Robs(cfg, y, e, o, key)
  {
    SaveHits(cfg, y, e, key);
    ForeignSweepMisses(cfg, OwnerOf(e.actor, e.target), e.url, e.storage.reached, o, key);
  }

  lemma OwnSaveLosesNothing(cfg: Config, y: System, e: Event, issued: Issued, o: Owner, key: string)
    requires UsableBase(cfg.base) && Inv(cfg, y.tables, issued, o) && KeepsToOwn(cfg, issued, e, o)
    requires e.Saves? && OwnerOf(e.actor, e.target) == o && KeyOf(cfg.base, e.url) == Some(key)
    ensures !Hits(cfg, y, e, key)
  {
    SaveHits(cfg, y, e, key);
    SavedUrlIs(cfg, issued, e.actor, o, e.url, key);
    if Saved(cfg, y.tables, e.actor, e.target, e.manages, e.url, e.storage).Ok? {
      OwnSaveMisses(cfg, y.tables, issued, o, e.url, e.storage.cleanupWorks, e.storage.reached, key);
    }
  }

  lemma SaveStepLosesIff(cfg: Config, y: System, now: int, e: Event, issued: Issued, t: Avatars, o: Owner, key: string)
    requires UsableBase(cfg.base) && Inv(cfg, y.tables, issued, o) && KeepsToOwn(cfg, issued, e, o) && e.Saves?
    requires t == Step(cfg, y, now, e).tables && Live(cfg, t, o, key) && PrefixOf(o) <= key
    ensures Hits(cfg, y, e, key) <==> Robs(cfg, y, e, o, key)
  {
    if OwnerOf(e.actor, e.target) != o {
      ForeignSaveLosesIff(cfg, y, e, o, key);
    } else if Saved(cfg, y.tables, e.actor, e.target, e.manages, e.url, e.storage).Ok? {
      StepOfSave(cfg, y, now, e);
      SavedTables(cfg, y.tables, e.actor, e.target, e.manages, e.url, e.storage);
      OwnSaveLosesNothing(cfg, y, e, issued, o, key);
    } else {
      SaveHits(cfg, y, e, key);
    }
  }

  lemma DeletionStepLosesIff(cfg: Config, y: System, now: int, e: Event, t: Avatars, o: Owner, key: string)
    requires cfg.base != "" && e.DeletesGroup? && PrefixOf(o) <= key && t == Step(cfg, y, now, e).tables && o in t.urls
    ensures Hits(cfg, y, e, key) <==> Strands(cfg, y, e, o, key)
  {
    StepOfDeletion(cfg, y, now, e);
    if GroupOwner(e.group) != o {
      ForeignSweepMisses(cfg, GroupOwner(e.group), None, e.reached, o, key);
    }
  }

  /**
    Whatever anybody else does: the present object of an owner who keeps to own uploads, current after
    the step, is lost in it exactly if somebody else's replaced avatar decodes to it and is cleaned up,
    or the group's own deletion sweeps it and fails to commit.
  */
  lemma StepLosesIff(cfg: Config, y: System, now: int, e: Event, issued: Issued, o: Owner, key: string)
    requires UsableBase(cfg.base) && Inv(cfg, y.tables, issued, o) && Orderly(y, issued, e)
    requires KeepsToOwn(cfg, issued, e, o)
    requires Live(cfg, Step(cfg, y, now, e).tables, o, key) && key in y.tables.objects
    ensures key !in Step(cfg, y, now, e).tables.objects <==> Robs(cfg, y, e, o, key) || Strands(cfg, y, e, o, key)
  {
    var t := Step(cfg, y, now, e).tables;
    StepKeepsInv(cfg, y, now, e, issued, o);
    LiveFacts(cfg, t, IssuedBy(cfg, y.tables, now, e, issued), o, key);
    StepDeletesIff(cfg, y, now, e, key);
    HitsIff(cfg, y, now, e, issued, t, o, key);
  }

  lemma HitsIff(cfg: Config, y: System, now: int, e: Event, issued: Issued, t: Avatars, o: Owner, key: string)
    requires UsableBase(cfg.base) && Inv(cfg, y.tables, issued, o) && KeepsToOwn(cfg, issued, e, o)
    requires t == Step(cfg, y, now, e).tables && Live(cfg, t, o, key) && PrefixOf(o) <= key
    ensures Hits(cfg, y, e, key) <==> Robs(cfg, y, e, o, key) || Strands(cfg, y, e, o, key)
  {
    if e.Saves? {
      SaveStepLosesIff(cfg, y, now, e, issued, t, o, key);
    } else if e.DeletesGroup? {
      BaseIsNotBlank(cfg.base);
      DeletionStepLosesIff(cfg, y, now, e, t, o, key);
    } else if e.Visits? {
      VisitStepLosesNothing(cfg, y, now, e, issued, t, o, key);
    } else {
      OthersDeleteNothing(cfg, y, now, e, key);
    }
  }

  lemma VisitStepLosesNothing(
    cfg: Config, y: System, now: int, e: Event, issued: Issued, t: Avatars, o: Owner,
    key: string)
    requires Inv(cfg, y.tables, issued, o) && e.Visits? && t == Step(cfg, y, now, e).tables && Live(cfg, t, o, key)
    ensures !Hits(cfg, y, e, key)
  {
    StepOfVisit(cfg, y, now, e);
    LiveFacts(cfg, y.tables, issued, o, key);
    if y.listed != [] {
      ClaimedIsNotVisited(cfg, y.tables, y.listed[0], e.outcome, key);
    }
  }

  // ---------------------------------------------------------------- whole runs

  /** A moment of a run: the system, and the forms handed out by then. */
  datatype Moment = Moment(system: System, issued: Issued)

  const BEGINNING := Moment(System(NO_AVATARS, []), map[])

  ghost predicate StepAt(cfg: Config, run: seq<Timed>, trace: seq<Moment>, i: nat)
    requires i < |run| && |trace| == |run| + 1
  {
    var y, now, e := trace[i].system, run[i].now, run[i].event;
    && trace[i + 1].system == Step(cfg, y, now, e)
    && trace[i + 1].issued == IssuedBy(cfg, y.tables, now, e, trace[i].issued)
    && Orderly(y, trace[i].issued, e)
  }

  /** The moments of an orderly run from the empty system; the URLs that are saved are arbitrary. */
  ghost predicate RunOf(cfg: Config, run: seq<Timed>, trace: seq<Moment>) {
    && |trace| == |run| + 1
    && trace[0] == BEGINNING
    && (forall i | 0 <= i < |run| :: StepAt(cfg, run, trace, i))
  }

  ghost predicate OwnAt(cfg: Config, run: seq<Timed>, trace: seq<Moment>, i: nat, o: Owner)
    requires i < |run| && |trace| == |run| + 1
  {
    KeepsToOwn(cfg, trace[i].issued, run[i].event, o)
  }

  /** In this run `o` keeps to own uploads; the others do as they like. */
  ghost predicate CarefulRun(cfg: Config, run: seq<Timed>, trace: seq<Moment>, o: Owner) {
    RunOf(cfg, run, trace) && forall i | 0 <= i < |run| :: OwnAt(cfg, run, trace, i, o)
  }

  /** In this run everybody keeps to own uploads. */
  ghost predicate FairRun(cfg: Config, run: seq<Timed>, trace: seq<Moment>) {
    RunOf(cfg, run, trace) && forall o, i | 0 <= i < |run| :: OwnAt(cfg, run, trace, i, o)
  }

  ghost predicate InvAt(cfg: Config, m: Moment, o: Owner) { Inv(cfg, m.system.tables, m.issued, o) }

  lemma CarefulStep(cfg: Config, run: seq<Timed>, trace: seq<Moment>, i: nat, o: Owner)
    requires CarefulRun(cfg, run, trace, o) && i < |run|
    ensures StepAt(cfg, run, trace, i) && OwnAt(cfg, run, trace, i, o)
  {
  }

  lemma NextKeepsInv(cfg: Config, run: seq<Timed>, trace: seq<Moment>, i: nat, o: Owner)
    requires UsableBase(cfg.base) && CarefulRun(cfg, run, trace, o) && i < |run| && InvAt(cfg, trace[i], o)
    ensures InvAt(cfg, trace[i + 1], o)
  {
    CarefulStep(cfg, run, trace, i, o);
    StepKeepsInv(cfg, trace[i].system, run[i].now, run[i].event, trace[i].issued, o);
  }

  lemma InvAtTheBeginning(cfg: Config, run: seq<Timed>, trace: seq<Moment>, o: Owner)
    requires RunOf(cfg, run, trace)
    ensures InvAt(cfg, trace[0], o)
  {
  }

  lemma {:induction false} RunKeepsInv(cfg: Config, run: seq<Timed>, trace: seq<Moment>, i: nat, o: Owner)
    requires UsableBase(cfg.base) && CarefulRun(cfg, run, trace, o) && i <= |run|
    ensures InvAt(cfg, trace[i], o)
  {
    if i == 0 {
      InvAtTheBeginning(cfg, run, trace, o);
    } else {
      RunKeepsInv(cfg, run, trace, i - 1, o);
      NextKeepsInv(cfg, run, trace, i - 1, o);
    }
  }

  /** The owner's avatar is the managed object `key` at this moment. */
  predicate LiveAt(cfg: Config, m: Moment, o: Owner, key: string) { Live(cfg, m.system.tables, o, key) }

  predicate PresentAt(m: Moment, key: string) { key in m.system.tables.objects }

  predicate RobbedAt(cfg: Config, m: Moment, t: Timed, o: Owner, key: string) { Robs(cfg, m.system, t.event, o, key) }

  predicate StrandedAt(cfg: Config, m: Moment, t: Timed, o: Owner, key: string) {
    Strands(cfg, m.system, t.event, o, key)
  }

  /** At any step of a run in which `o` keeps to own uploads. */
  lemma CarefulOwnerLosesIff(cfg: Config, run: seq<Timed>, trace: seq<Moment>, i: nat, o: Owner, key: string)
    requires UsableBase(cfg.base) && CarefulRun(cfg, run, trace, o) && i < |run|
    requires LiveAt(cfg, trace[i + 1], o, key) && PresentAt(trace[i], key)
    ensures !PresentAt(trace[i + 1], key) <==>
            RobbedAt(cfg, trace[i], run[i], o, key) || StrandedAt(cfg, trace[i], run[i], o, key)
  {
    RunKeepsInv(cfg, run, trace, i, o);
    assert StepAt(cfg, run, trace, i) && OwnAt(cfg, run, trace, i, o);
    StepLosesIff(cfg, trace[i].system, run[i].now, run[i].event, trace[i].issued, o, key);
  }

  ghost predicate StaysLive(cfg: Config, trace: seq<Moment>, i: nat, j: nat, o: Owner, key: string)
    requires j < |trace|
  {
    forall m {:trigger LiveAt(cfg, trace[m], o, key)} | i <= m <= j :: LiveAt(cfg, trace[m], o, key)
  }

  /** No step in between takes the object away. */
  ghost predicate Persists(trace: seq<Moment>, i: nat, j: nat, key: string)
    requires j < |trace|
  {
    forall m {:trigger PresentAt(trace[m], key)} | i <= m < j && PresentAt(trace[m], key) ::
        PresentAt(trace[m + 1], key)
  }

  /** No step in between robs the owner or strands the group while the object is there. */
  ghost predicate Untouched(
    cfg: Config, run: seq<Timed>, trace: seq<Moment>, i: nat, j: nat, o: Owner, key: string)
    requires j <= |run| && |trace| == |run| + 1
  {
    forall m {:trigger PresentAt(trace[m], key)} | i <= m < j && PresentAt(trace[m], key) ::
      !RobbedAt(cfg, trace[m], run[m], o, key) && !StrandedAt(cfg, trace[m], run[m], o, key)
  }

  /**
    Over a whole run, whatever the others do: while the avatar of a careful owner stays current, its
    object is never lost exactly if no replaced avatar of another owner decodes to it when it is
    cleaned up, and no deletion of the group itself sweeps it and fails to commit.
  */
  lemma CarefulOwnerKeepsObjectIff(
    cfg: Config, run: seq<Timed>, trace: seq<Moment>, i: nat, j: nat, o: Owner, key: string)
    requires UsableBase(cfg.base) && CarefulRun(cfg, run, trace, o) && i <= j <= |run|
    requires StaysLive(cfg, trace, i, j, o, key)
    ensures Persists(trace, i, j, key) <==> Untouched(cfg, run, trace, i, j, o, key)
  {
    forall m | i <= m < j && PresentAt(trace[m], key)
      ensures !PresentAt(trace[m + 1], key) <==>
              RobbedAt(cfg, trace[m], run[m], o, key) || StrandedAt(cfg, trace[m], run[m], o, key)
    {
      assert LiveAt(cfg, trace[m + 1], o, key);
      CarefulOwnerLosesIff(cfg, run, trace, m, o, key);
    }
  }

  lemma {:induction false} PersistentObjectStays(trace: seq<Moment>, i: nat, j: nat, key: string)
    requires i <= j < |trace| && Persists(trace, i, j, key) && PresentAt(trace[i], key)
    ensures PresentAt(trace[j], key)
    decreases j
  {
    if i < j {
      PersistentObjectStays(trace, i, j - 1, key);
    }
  }

  // ---------------------------------------------------------------- when everybody is careful

  /** The avatar that another owner replaces lies under that owner's prefix. */
  lemma NobodyRobs(cfg: Config, y: System, e: Event, issued: Issued, o: Owner, key: string)
    requires (forall p :: Inv(cfg, y.tables, issued, p)) && PrefixOf(o) <= key
    ensures !Robs(cfg, y, e, o, key)
  {
    if Robs(cfg, y, e, o, key) {
      var p := OwnerOf(e.actor, e.target);
      assert Inv(cfg, y.tables, issued, p) && Live(cfg, y.tables, p, key);
      LiveFacts(cfg, y.tables, issued, p, key);
      PrefixesNeverOverlap(p, o, key);
    }
  }

  /**
    In a fair run a step takes away the object of an avatar that is current after it exactly if it is
    the deletion of the group itself, whose sweep reaches the object and whose commit then fails.
  */
  lemma FairRunLosesIff(cfg: Config, run: seq<Timed>, trace: seq<Moment>, i: nat, o: Owner, key: string)
    requires UsableBase(cfg.base) && FairRun(cfg, run, trace) && i < |run|
    requires LiveAt(cfg, trace[i + 1], o, key) && PresentAt(trace[i], key)
    ensures !PresentAt(trace[i + 1], key) <==> StrandedAt(cfg, trace[i], run[i], o, key)
  {
    assert CarefulRun(cfg, run, trace, o);
    CarefulOwnerLosesIff(cfg, run, trace, i, o, key);
    forall p ensures Inv(cfg, trace[i].system.tables, trace[i].issued, p) {
      assert CarefulRun(cfg, run, trace, p);
      RunKeepsInv(cfg, run, trace, i, p);
    }
    RunKeepsInv(cfg, run, trace, i + 1, o);
    LiveFacts(cfg, trace[i + 1].system.tables, trace[i + 1].issued, o, key);
    NobodyRobs(cfg, trace[i].system, run[i].event, trace[i].issued, o, key);
  }

  predicate CommitFails(e: Event) { e.DeletesGroup? && !e.commits }

  /** Neither the cleanup, nor a sweep, nor the janitor ever deletes the object of a current avatar. */
  lemma LiveObjectsAreNeverDeleted(cfg: Config, run: seq<Timed>, trace: seq<Moment>, i: nat, o: Owner, key: string)
    requires UsableBase(cfg.base) && FairRun(cfg, run, trace) && i < |run| && !CommitFails(run[i].event)
    requires LiveAt(cfg, trace[i + 1], o, key) && PresentAt(trace[i], key)
    ensures PresentAt(trace[i + 1], key)
  {
    FairRunLosesIff(cfg, run, trace, i, o, key);
  }

  lemma LiveMeansPersistent(cfg: Config, run: seq<Timed>, trace: seq<Moment>, i: nat, j: nat, o: Owner, key: string)
    requires UsableBase(cfg.base) && FairRun(cfg, run, trace) && i <= j <= |run| && StaysLive(cfg, trace, i, j, o, key)
    requires forall m | i <= m < j :: !CommitFails(run[m].event)
    ensures Persists(trace, i, j, key)
  {
    assert CarefulRun(cfg, run, trace, o);
    forall m | i <= m < j && PresentAt(trace[m], key) ensures PresentAt(trace[m + 1], key) {
      assert LiveAt(cfg, trace[m + 1], o, key);
      LiveObjectsAreNeverDeleted(cfg, run, trace, m, o, key);
    }
  }

  /** As long as an avatar stays current, its uploaded object stays in the bucket. */
  lemma CurrentAvatarsSurvive(cfg: Config, run: seq<Timed>, trace: seq<Moment>, i: nat, j: nat, o: Owner, key: string)
    requires UsableBase(cfg.base) && FairRun(cfg, run, trace) && i <= j <= |run|
    requires forall m | i <= m < j :: !CommitFails(run[m].event)
    requires StaysLive(cfg, trace, i, j, o, key) && PresentAt(trace[i], key)
    ensures PresentAt(trace[j], key)
  {
    assert CarefulRun(cfg, run, trace, o);
    LiveMeansPersistent(cfg, run, trace, i, j, o, key);
    PersistentObjectStays(trace, i, j, key);
  }

  // ---------------------------------------------------------------- fair runs exist

  ghost predicate Fair(cfg: Config, y: System, issued: Issued, e: Event) {
    Orderly(y, issued, e) && forall o :: KeepsToOwn(cfg, issued, e, o)
  }

  function Next(cfg: Config, m: Moment, t: Timed): Moment {
    Moment(Step(cfg, m.system, t.now, t.event), IssuedBy(cfg, m.system.tables, t.now, t.event, m.issued))
  }

  /** Every step of the run is orderly, starting from this moment. */
  ghost predicate OrderlyFrom(cfg: Config, m: Moment, run: seq<Timed>)
    decreases |run|
  {
    run == [] || (Orderly(m.system, m.issued, run[0].event) && OrderlyFrom(cfg, Next(cfg, m, run[0]), run[1..]))
  }

  function MomentAfter(cfg: Config, m: Moment, run: seq<Timed>): Moment
    decreases |run|
  {
    if run == [] then m else MomentAfter(cfg, Next(cfg, m, run[0]), run[1..])
  }

  /** The moments of an orderly run, one by one. */
  lemma {:induction false} MomentsOf(cfg: Config, m: Moment, run: seq<Timed>) returns (trace: seq<Moment>)
    requires OrderlyFrom(cfg, m, run)
    ensures |trace| == |run| + 1 && trace[0] == m && trace[|run|] == MomentAfter(cfg, m, run)
    ensures forall i | 0 <= i < |run| :: StepAt(cfg, run, trace, i)
    decreases |run|
  {
    trace := [m];
    if run != [] {
      var rest := MomentsOf(cfg, Next(cfg, m, run[0]), run[1..]);
      trace := [m] + rest;
      forall i | 0 <= i < |run| ensures StepAt(cfg, run, trace, i) {
        assert i > 0 ==> StepAt(cfg, run[1..], rest, i - 1) && run[1..][i - 1] == run[i];
        assert trace[i + 1] == rest[i];
      }
    }
  }

  lemma TraceOf(cfg: Config, run: seq<Timed>) returns (trace: seq<Moment>)
    requires OrderlyFrom(cfg, BEGINNING, run)
    ensures RunOf(cfg, run, trace) && trace[|run|] == MomentAfter(cfg, BEGINNING, run)
  {
    trace := MomentsOf(cfg, BEGINNING, run);
  }

  /** Whatever is saved: the ledger stays consistent with the forms handed out. */
  lemma StepKeepsLedger(cfg: Config, y: System, now: int, e: Event, issued: Issued)
    requires IssuedUnderPrefix(issued) && LedgerConsistent(cfg, y.tables.rows, issued) && Orderly(y, issued, e)
    ensures var later := IssuedBy(cfg, y.tables, now, e, issued);
            IssuedUnderPrefix(later) && LedgerConsistent(cfg, Step(cfg, y, now, e).tables.rows, later)
  {
    if e.Saves? {
      StepOfSave(cfg, y, now, e);
      if Saved(cfg, y.tables, e.actor, e.target, e.manages, e.url, e.storage).Ok? {
        SavedTables(cfg, y.tables, e.actor, e.target, e.manages, e.url, e.storage);
        CommitKeepsLedger(cfg, y.tables.rows, issued, e.actor, e.url);
      }
    } else if e.Starts? {
      StartKeepsLedgerOf(cfg, y, now, e, issued);
    } else if e.Visits? {
      StepOfVisit(cfg, y, now, e);
    } else if e.DeletesGroup? {
      StepOfDeletion(cfg, y, now, e);
    }
  }

  lemma StartKeepsLedgerOf(cfg: Config, y: System, now: int, e: Event, issued: Issued)
    requires IssuedUnderPrefix(issued) && LedgerConsistent(cfg, y.tables.rows, issued) && Orderly(y, issued, e)
    requires e.Starts?
    ensures var later := IssuedBy(cfg, y.tables, now, e, issued);
            IssuedUnderPrefix(later) && LedgerConsistent(cfg, Step(cfg, y, now, e).tables.rows, later)
  {
    var s, u := y.tables, e.upload;
    if Started(cfg, s, now, u).Ok? {
      var owner, key := OwnerOf(u.actor, u.target), KeyOfUpload(u).value;
      UploadKeysArePlain(owner, u.image, u.contentType);
      StartKeepsLedger(
        cfg, s.rows, issued, u.row, Row(u.actor, key, UrlFor(cfg.base, key), now, false), Issue(u.actor, owner));
    }
  }

  lemma StepAtExtended(cfg: Config, run: seq<Timed>, trace: seq<Moment>, next: Timed, i: nat)
    requires RunOf(cfg, run, trace) && i <= |run|
    requires Orderly(trace[|run|].system, trace[|run|].issued, next.event)
    ensures StepAt(cfg, run + [next], trace + [Next(cfg, trace[|run|], next)], i)
  {
    var run', trace' := run + [next], trace + [Next(cfg, trace[|run|], next)];
    if i < |run| {
      assert StepAt(cfg, run, trace, i);
      assert run'[i] == run[i] && trace'[i] == trace[i] && trace'[i + 1] == trace[i + 1];
    }
  }

  lemma OwnAtExtended(cfg: Config, run: seq<Timed>, trace: seq<Moment>, next: Timed, i: nat, o: Owner)
    requires |trace| == |run| + 1 && i <= |run|
    requires if i < |run| then OwnAt(cfg, run, trace, i, o) else KeepsToOwn(cfg, trace[|run|].issued, next.event, o)
    ensures OwnAt(cfg, run + [next], trace + [Next(cfg, trace[|run|], next)], i, o)
  {
    var run', trace' := run + [next], trace + [Next(cfg, trace[|run|], next)];
    assert trace'[i] == trace[i] && run'[i] == if i < |run| then run[i] else next;
  }

  /** One more fair step at the end of a run. */
  lemma ExtendRun(cfg: Config, run: seq<Timed>, trace: seq<Moment>, next: Timed)
    requires FairRun(cfg, run, trace) && Fair(cfg, trace[|run|].system, trace[|run|].issued, next.event)
    ensures FairRun(cfg, run + [next], trace + [Next(cfg, trace[|run|], next)])
  {
    var run', trace' := run + [next], trace + [Next(cfg, trace[|run|], next)];
    forall i | 0 <= i < |run'| ensures StepAt(cfg, run', trace', i) {
      StepAtExtended(cfg, run, trace, next, i);
    }
    forall o, i | 0 <= i < |run'| ensures OwnAt(cfg, run', trace', i, o) {
      assert i < |run| ==> OwnAt(cfg, run, trace, i, o);
      OwnAtExtended(cfg, run, trace, next, i, o);
    }
  }

  predicate Acceptable(cfg: Config, u: Upload) {
    u.target.Me? && u.signed && Extension(u.contentType).Some? && u.bytes <= cfg.maxBytes
  }

  /** The rows, and the forms handed out, after the very first upload was started at `now`. */
  function FirstRow(cfg: Config, now: int, u: Upload): Row
    requires KeyOfUpload(u).Some?
  {
    Row(u.actor, KeyOfUpload(u).value, UrlFor(cfg.base, KeyOfUpload(u).value), now, false)
  }

  lemma FirstRowMatches(cfg: Config, now: int, u: Upload)
    requires Acceptable(cfg, u)
    ensures var row := FirstRow(cfg, now, u);
            Matching(map[u.row := row], u.actor, row.url) == {u.row} && !Blank(Some(row.url))
  {
    UrlIsNotBlank(cfg.base, KeyOfUpload(u).value);
  }

  lemma KeptStays(
    cfg: Config, objects: set<string>, owner: Owner, keepUrl: Option<string>, reached: set<string>, key: string)
    requires KeyOf(cfg.base, keepUrl) == Some(key) && key in objects
    ensures key in Swept(cfg, objects, owner, keepUrl, reached)
  {
  }

  lemma SavingTheFirstUpload(cfg: Config, now: int, u: Upload)
    requires UsableBase(cfg.base) && Acceptable(cfg, u)
    ensures var o, key, row := UserOwner(u.actor), KeyOfUpload(u).value, FirstRow(cfg, now, u);
            var s := Avatars(map[o := None], map[u.row := row], {key});
            var saved := Saved(cfg, s, u.actor, Me, true, Some(row.url), Storage(true, {key}));
            saved.Ok? && Live(cfg, saved.value, o, key) && key in saved.value.objects
  {
    var o, key, row := UserOwner(u.actor), KeyOfUpload(u).value, FirstRow(cfg, now, u);
    UploadKeysArePlain(o, u.image, u.contentType);
    RoundTripIff(cfg.base, key);
    FirstRowMatches(cfg, now, u);
    SavingAlone(cfg, o, map[u.row := row], u.actor, Some(row.url), key);
  }

  /** The first avatar of an owner, saved with nothing but its own object in the bucket. */
  lemma SavingAlone(
    cfg: Config, o: Owner, rows: map<UuidText, Row>, actor: UuidText, url: Option<string>, key: string)
    requires o == UserOwner(actor) && Committed(rows, actor, url).Ok? && KeyOf(cfg.base, url) == Some(key)
    ensures var saved := Saved(cfg, Avatars(map[o := None], rows, {key}), actor, Me, true, url, Storage(true, {key}));
            saved.Ok? && Live(cfg, saved.value, o, key) && key in saved.value.objects
  {
    KeptStays(cfg, {key}, o, url, {key}, key);
  }

  function Enrolment(o: Owner): Moment { Moment(System(Avatars(map[o := None], map[], {}), []), map[]) }

  function AfterStart(cfg: Config, now: int, u: Upload, objects: set<string>): Moment
    requires KeyOfUpload(u).Some?
  {
    var o, row := UserOwner(u.actor), FirstRow(cfg, now, u);
    Moment(System(Avatars(map[o := None], map[u.row := row], objects), []), map[row.key := Issue(u.actor, o)])
  }

  lemma EnrolledRun(cfg: Config, now: int, o: Owner)
    ensures FairRun(cfg, [Timed(now, Enrolled(o, None))], [BEGINNING, Enrolment(o)])
  {
    assert FairRun(cfg, [], [BEGINNING]);
    ExtendRun(cfg, [], [BEGINNING], Timed(now, Enrolled(o, None)));
    assert [BEGINNING] + [Enrolment(o)] == [BEGINNING, Enrolment(o)];
  }

  lemma StartedRun(cfg: Config, now: int, u: Upload)
    requires cfg.base != "" && cfg.bucket != "" && Acceptable(cfg, u)
    ensures FairRun(cfg, [Timed(now, Enrolled(UserOwner(u.actor), None)), Timed(now, Starts(u))],
                    [BEGINNING, Enrolment(UserOwner(u.actor)), AfterStart(cfg, now, u, {})])
  {
    var o := UserOwner(u.actor);
    var run, trace := [Timed(now, Enrolled(o, None))], [BEGINNING, Enrolment(o)];
    EnrolledRun(cfg, now, o);
    ExtendRun(cfg, run, trace, Timed(now, Starts(u)));
    assert run + [Timed(now, Starts(u))] == [Timed(now, Enrolled(o, None)), Timed(now, Starts(u))];
    assert trace + [AfterStart(cfg, now, u, {})] == [BEGINNING, Enrolment(o), AfterStart(cfg, now, u, {})];
  }

  lemma UploadedRun(cfg: Config, now: int, u: Upload, run: seq<Timed>, trace: seq<Moment>)
    requires Acceptable(cfg, u) && FairRun(cfg, run, trace) && trace[|run|] == AfterStart(cfg, now, u, {})
    ensures FairRun(cfg, run + [Timed(now, PutObject(KeyOfUpload(u).value))],
                    trace + [AfterStart(cfg, now, u, {KeyOfUpload(u).value})])
  {
    var key := KeyOfUpload(u).value;
    ExtendRun(cfg, run, trace, Timed(now, PutObject(key)));
    assert {} + {key} == {key};
  }

  predicate EndsLive(cfg: Config, trace: seq<Moment>, o: Owner, key: string) {
    trace != [] && LiveAt(cfg, trace[|trace| - 1], o, key) && PresentAt(trace[|trace| - 1], key)
  }

  /** The step that saves the first upload. */
  function FirstSave(cfg: Config, now: int, u: Upload): Event
    requires KeyOfUpload(u).Some?
  {
    Saves(u.actor, Me, true, Some(FirstRow(cfg, now, u).url), Storage(true, {KeyOfUpload(u).value}))
  }

  lemma FirstSaveIsFair(cfg: Config, now: int, u: Upload)
    requires Acceptable(cfg, u)
    ensures var m := AfterStart(cfg, now, u, {KeyOfUpload(u).value});
            Fair(cfg, m.system, m.issued, FirstSave(cfg, now, u))
  {
    var key := KeyOfUpload(u).value;
    var m, url := AfterStart(cfg, now, u, {key}), Some(FirstRow(cfg, now, u).url);
    assert key in m.issued && m.issued[key] == Issue(u.actor, UserOwner(u.actor));
    assert OwnUpload(cfg, m.issued, u.actor, OwnerOf(u.actor, Me), url);
  }

  lemma SavedRun(cfg: Config, now: int, u: Upload, run: seq<Timed>, trace: seq<Moment>)
    returns (longer: seq<Timed>, trail: seq<Moment>)
    requires UsableBase(cfg.base) && Acceptable(cfg, u) && FairRun(cfg, run, trace)
    requires trace[|run|] == AfterStart(cfg, now, u, {KeyOfUpload(u).value})
    ensures FairRun(cfg, longer, trail) && EndsLive(cfg, trail, UserOwner(u.actor), KeyOfUpload(u).value)
  {
    var m, e := trace[|run|], FirstSave(cfg, now, u);
    FirstSaveIsFair(cfg, now, u);
    ExtendRun(cfg, run, trace, Timed(now, e));
    var last := Next(cfg, m, Timed(now, e));
    longer, trail := run + [Timed(now, e)], trace + [last];
    FirstSaveIsLive(cfg, now, u, last);
    EndingLive(cfg, trace, last, UserOwner(u.actor), KeyOfUpload(u).value);
  }

  lemma EndingLive(cfg: Config, trace: seq<Moment>, last: Moment, o: Owner, key: string)
    requires LiveAt(cfg, last, o, key) && PresentAt(last, key)
    ensures EndsLive(cfg, trace + [last], o, key)
  {
  }

  lemma FirstSaveIsLive(cfg: Config, now: int, u: Upload, last: Moment)
    requires UsableBase(cfg.base) && Acceptable(cfg, u)
    requires last.system == Step(cfg, AfterStart(cfg, now, u, {KeyOfUpload(u).value}).system, now,
        FirstSave(cfg, now, u))
    ensures LiveAt(cfg, last, UserOwner(u.actor), KeyOfUpload(u).value) && PresentAt(last, KeyOfUpload(u).value)
  {
    StepOfSave(cfg, AfterStart(cfg, now, u, {KeyOfUpload(u).value}).system, now, FirstSave(cfg, now, u));
    SavingTheFirstUpload(cfg, now, u);
  }

  /** Fair runs with live avatars exist: enrol, start an upload, put the object, save its URL. */
  lemma EveryUploadCanBecomeLive(cfg: Config, now: int, u: Upload) returns (run: seq<Timed>, trace: seq<Moment>)
    requires UsableBase(cfg.base) && cfg.bucket != "" && Acceptable(cfg, u)
    ensures FairRun(cfg, run, trace) && EndsLive(cfg, trace, UserOwner(u.actor), KeyOfUpload(u).value)
  {
    BaseIsNotBlank(cfg.base);
    StartedRun(cfg, now, u);
    var o, key := UserOwner(u.actor), KeyOfUpload(u).value;
    run := [Timed(now, Enrolled(o, None)), Timed(now, Starts(u))];
    trace := [BEGINNING, Enrolment(o), AfterStart(cfg, now, u, {})];
    UploadedRun(cfg, now, u, run, trace);
    run, trace := run + [Timed(now, PutObject(key))], trace + [AfterStart(cfg, now, u, {key})];
    run, trace := SavedRun(cfg, now, u, run, trace);
  }

  lemma BaseIsNotBlank(base: string)
    requires UsableBase(base)
    ensures base != ""
  {
    ServingIsNotBlank(ReadBase(base));
  }

  // ---------------------------------------------------------------- how long an upload stays claimable

  /** Rows never change except that they become committed; only uncommitted ones disappear. */
  ghost predicate RowsOnlyGrowUp(before: map<UuidText, Row>, after: map<UuidText, Row>) {
    forall r :: r in before && (before[r].committed || r in after) ==>
                  r in after && after[r].(committed := before[r].committed) == before[r]
                  && (before[r].committed ==> after[r].committed)
  }

  /** Never claimed, and older than the configured number of hours. */
  predicate Overdue(cfg: Config, row: Row, now: int) { !row.committed && now - row.createdAt > 3600 * cfg.ttlHours }

  lemma {:induction false} ExpiredOfIsExpired(rows: map<UuidText, Row>, ordered: seq<UuidText>, cutoff: int)
    ensures forall r :: r in ExpiredOf(rows, ordered, cutoff) <==> r in ordered && Expired(rows, r, cutoff)
  {
    if ordered != [] {
      ExpiredOfIsExpired(rows, ordered[1..], cutoff);
      assert ordered == [ordered[0]] + ordered[1..];
    }
  }

  ghost predicate InOrder(rows: map<UuidText, Row>, listed: seq<UuidText>) {
    && (forall i :: 0 <= i < |listed| ==> listed[i] in rows)
    && (forall i, j | 0 <= i < j < |listed| ::
          listed[i] != listed[j] && rows[listed[i]].createdAt <= rows[listed[j]].createdAt)
  }

  lemma {:induction false} ExpiredOfKeepsOrder(rows: map<UuidText, Row>, ordered: seq<UuidText>, cutoff: int)
    requires InOrder(rows, ordered)
    ensures InOrder(rows, ExpiredOf(rows, ordered, cutoff))
  {
    if ordered != [] {
      var rest := ordered[1..];
      assert forall i | 0 <= i < |rest| :: rest[i] == ordered[i + 1];
      ExpiredOfKeepsOrder(rows, rest, cutoff);
      ExpiredOfIsExpired(rows, rest, cutoff);
      var later := ExpiredOf(rows, rest, cutoff);
      forall j | 0 <= j < |later|
        ensures ordered[0] != later[j] && rows[ordered[0]].createdAt <= rows[later[j]].createdAt
      {
        assert later[j] in rest;
        var k :| 0 <= k < |rest| && rest[k] == later[j];
        assert ordered[k + 1] == later[j];
      }
    }
  }

  /** A pass lists exactly the overdue rows, each once, oldest first. */
  lemma ListingIsOverdue(cfg: Config, rows: map<UuidText, Row>, ordered: seq<UuidText>, now: int)
    requires PendingOldestFirst(rows, ordered)
    ensures forall r :: r in Listing(cfg, rows, ordered, now) <==> r in rows && Overdue(cfg, rows[r], now)
    ensures InOrder(rows, Listing(cfg, rows, ordered, now))
  {
    ExpiredOfIsExpired(rows, ordered, Cutoff(cfg, now));
    ExpiredOfKeepsOrder(rows, ordered, Cutoff(cfg, now));
  }

  lemma SavedRows(
    cfg: Config, s: Avatars, actor: UuidText, target: Target, manages: bool, url: Option<string>, storage: Storage)
    ensures RowsOnlyGrowUp(s.rows, OrUnchanged(s, Saved(cfg, s, actor, target, manages, url, storage)).rows)
    ensures OrUnchanged(s, Saved(cfg, s, actor, target, manages, url, storage)).rows.Keys == s.rows.Keys
  {
    assert Saved(cfg, s, actor, target, manages, url, storage).Ok? ==>
        OrUnchanged(s, Saved(cfg, s, actor, target, manages, url, storage)).rows == Committed(s.rows, actor, url).value;
  }

  /** A step removes at most one row, a listed and uncommitted one. */
  lemma StepOnRows(cfg: Config, y: System, now: int, e: Event)
    ensures RowsOnlyGrowUp(y.tables.rows, Step(cfg, y, now, e).tables.rows)
    ensures forall r :: r in y.tables.rows && r !in Step(cfg, y, now, e).tables.rows ==> r in y.listed
  {
    if e.Saves? {
      StepOfSave(cfg, y, now, e);
      SavedRows(cfg, y.tables, e.actor, e.target, e.manages, e.url, e.storage);
    } else if e.DeletesGroup? {
      assert Step(cfg, y, now, e).tables.rows == y.tables.rows;
    } else if e.Visits? {
      StepOfVisit(cfg, y, now, e);
    }
  }

  lemma NewRowsAreNotListed(cfg: Config, y: System, now: int, e: Event, issued: Issued)
    requires Orderly(y, issued, e)
    ensures forall r :: r in Step(cfg, y, now, e).tables.rows && r !in y.tables.rows ==> r !in y.listed
  {
    if e.Saves? {
      StepOfSave(cfg, y, now, e);
      SavedRows(cfg, y.tables, e.actor, e.target, e.manages, e.url, e.storage);
    } else if e.DeletesGroup? {
      assert Step(cfg, y, now, e).tables.rows == y.tables.rows;
    }
  }

  /** A row that waits for its visit was listed at some step, and was overdue then. */
  lemma {:induction false} WasOverdueWhenListed(
    cfg: Config, run: seq<Timed>, trace: seq<Moment>, i: nat, r: UuidText) returns (l: nat)
    requires RunOf(cfg, run, trace) && i <= |run|
    requires r in trace[i].system.listed && r in trace[i].system.tables.rows
    ensures l < i && run[l].event.Lists?
    ensures Overdue(cfg, trace[i].system.tables.rows[r].(committed := false), run[l].now)
  {
    assert i > 0;
    var y, t := trace[i - 1].system, run[i - 1];
    assert StepAt(cfg, run, trace, i - 1);
    if t.event.Lists? && y.listed == [] {
      l := i - 1;
      ExpiredOfIsExpired(y.tables.rows, t.event.ordered, Cutoff(cfg, t.now));
    } else {
      NewRowsAreNotListed(cfg, y, t.now, t.event, trace[i - 1].issued);
      StepOnRows(cfg, y, t.now, t.event);
      ListShrinks(cfg, y, t.now, t.event, r);
      l := WasOverdueWhenListed(cfg, run, trace, i - 1, r);
    }
  }

  lemma ListShrinks(cfg: Config, y: System, now: int, e: Event, r: UuidText)
    requires !(e.Lists? && y.listed == []) && r in Step(cfg, y, now, e).listed
    ensures r in y.listed
  {
  }

  /** The row at a moment, if it is in the ledger. */
  function RowAt(m: Moment, r: UuidText): Option<Row> { Lookup(m.system.tables.rows, r) }

  ghost predicate RowKept(row: Row, later: Option<Row>) {
    later.Some? && later.value.(committed := row.committed) == row && (row.committed ==> later.value.committed)
  }

  /** At this step the janitor asked the ledger, and the row was overdue. */
  predicate ListedOverdue(cfg: Config, t: Timed, row: Row) { t.event.Lists? && Overdue(cfg, row, t.now) }

  /**
    A started upload stays claimable: its row is kept, unchanged, until it is committed (then it is
    kept for good), or until the janitor listed it when it was older than the time limit.
  */
  lemma {:induction false} UploadsStayClaimable(
    cfg: Config, run: seq<Timed>, trace: seq<Moment>, i: nat, j: nat, r: UuidText)
    requires RunOf(cfg, run, trace) && i <= j <= |run| && RowAt(trace[i], r).Some?
    ensures var row := RowAt(trace[i], r).value;
            RowKept(row, RowAt(trace[j], r)) || exists l :: 0 <= l < j && ListedOverdue(cfg, run[l], row)
    decreases j
  {
    if i < j {
      UploadsStayClaimable(cfg, run, trace, i, j - 1, r);
      var row, y, t := RowAt(trace[i], r).value, trace[j - 1].system, run[j - 1];
      assert StepAt(cfg, run, trace, j - 1);
      StepOnRows(cfg, y, t.now, t.event);
      if RowKept(row, RowAt(trace[j - 1], r)) && !RowKept(row, RowAt(trace[j], r)) {
        var l := WasOverdueWhenListed(cfg, run, trace, j - 1, r);
        assert ListedOverdue(cfg, run[l], row);
      }
    }
  }
}
