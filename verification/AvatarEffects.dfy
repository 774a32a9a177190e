/**
  What starting an upload, saving an avatar, seeding one and deleting a group mean, read off tables and
  bucket before and after: exactly when they are refused with which error, and exactly what they write.
*/
module AvatarEffects {
  import opened Prelude
  import opened AvatarUrl
  import opened AvatarModel
  import opened AvatarSafety

  // ---------------------------------------------------------------- the texts

  /** The base without its trailing slashes, one slash, and the key. */
  ghost predicate IsUrlFor(base: string, key: string, url: string) {
    exists n :: 0 <= n <= |base| && IsCutAt(base, n) && url == base[..n] + "/" + key
  }

  predicate IsCutAt(base: string, n: nat)
    requires n <= |base|
  {
    (n == 0 || base[n - 1] != '/') && forall k :: n <= k < |base| ==> base[k] == '/'
  }

  lemma UrlForIs(base: string, key: string)
    ensures IsUrlFor(base, key, UrlFor(base, key))
  {
    DropWhileEndIsPrefix(base, IsSlash);
    var n := |DropWhileEnd(base, IsSlash)|;
    assert DropWhileEnd(base, IsSlash) == base[..n];
    assert IsCutAt(base, n);
  }

  predicate Accepted(contentType: string, extension: string) {
    || (contentType == "image/jpeg" && extension == "jpg")
    || (contentType == "image/png" && extension == "png")
    || (contentType == "image/webp" && extension == "webp")
  }

  predicate IsImage(contentType: string) {
    contentType == "image/jpeg" || contentType == "image/png" || contentType == "image/webp"
  }

  function Folder(owner: Owner): string {
    match owner
    case GroupOwner(id) => "groups/" + id + "/avatars/"
    case UserOwner(id) => "users/" + id + "/avatars/"
  }

  /** The object key of an upload: the owner's folder, the fresh image id, the extension of its type. */
  ghost predicate IsKeyOf(u: Upload, key: string) {
    var owner := if u.target.Me? then UserOwner(u.actor) else GroupOwner(u.target.id);
    exists extension :: Accepted(u.contentType, extension) && key == Folder(owner) + u.image + "." + extension
  }

  // ---------------------------------------------------------------- starting an upload

  predicate OutsideGroup(target: Target, manages: bool) { target.ForGroup? && !manages }

  ghost predicate StartRefused(cfg: Config, s: Avatars, u: Upload, e: Error) {
    if OutsideGroup(u.target, u.manages) then e == AdminOrOwnerRequired
    else if u.bytes > cfg.maxBytes then e == FileTooLarge
    else if !IsImage(u.contentType) then e == ContentTypeInvalid
    else if cfg.bucket == "" || cfg.base == "" || !u.signed then e == Unavailable
    else e == UniqueViolation && exists r :: r in s.rows && (r == u.row || IsKeyOf(u, s.rows[r].key))
  }

  /** One pending row more, for the caller, with the key and its URL. */
  ghost predicate StartMeans(cfg: Config, s: Avatars, now: int, u: Upload, t: Avatars) {
    && t.urls == s.urls && t.objects == s.objects
    && u.row !in s.rows && t.rows.Keys == s.rows.Keys + {u.row}
    && (forall r :: r in s.rows ==> t.rows[r] == s.rows[r])
    && (var row := t.rows[u.row];
        && row.startedBy == u.actor && IsKeyOf(u, row.key) && IsUrlFor(cfg.base, row.key, row.url)
        && row.createdAt == now && !row.committed)
  }

  lemma ExtensionIs(contentType: string)
    ensures Extension(contentType).Some? <==> IsImage(contentType)
    ensures forall x :: Accepted(contentType, x) <==> Extension(contentType) == Some(x)
  {
  }

  lemma KeyOfUploadIs(u: Upload, key: string)
    ensures IsKeyOf(u, key) <==> KeyOfUpload(u) == Some(key)
  {
    ExtensionIs(u.contentType);
    var owner := OwnerOf(u.actor, u.target);
    assert Folder(owner) == PrefixOf(owner);
    if KeyOfUpload(u) == Some(key) {
      assert Accepted(u.contentType, Extension(u.contentType).value);
    }
  }

  lemma StartRefusedIff(cfg: Config, s: Avatars, now: int, u: Upload, e: Error)
    ensures Started(cfg, s, now, u) == Err(e) <==> StartRefused(cfg, s, u, e)
  {
    ExtensionIs(u.contentType);
    forall r | r in s.rows ensures IsKeyOf(u, s.rows[r].key) <==> KeyOfUpload(u) == Some(s.rows[r].key) {
      KeyOfUploadIs(u, s.rows[r].key);
    }
  }

  lemma StartMeant(cfg: Config, s: Avatars, now: int, u: Upload)
    requires Started(cfg, s, now, u).Ok?
    ensures StartMeans(cfg, s, now, u, Started(cfg, s, now, u).value)
  {
    KeyOfUploadIs(u, KeyOfUpload(u).value);
    UrlForIs(cfg.base, KeyOfUpload(u).value);
  }

  // ---------------------------------------------------------------- saving an avatar

  /** The ledger row of this caller and this URL. */
  predicate Claims(rows: map<UuidText, Row>, r: UuidText, actor: UuidText, url: Option<string>) {
    && url.Some? && url.value != "" && r in rows
    && rows[r].startedBy == actor && rows[r].url == url.value
  }

  ghost predicate SaveRefused(
    s: Avatars, actor: UuidText, target: Target, manages: bool, url: Option<string>, e: Error)
  {
    if OutsideGroup(target, manages) then e == AdminOrOwnerRequired
    else if OwnerOf(actor, target) !in s.urls then e == NotFound
    else e == MultipleRows && exists r, q :: r != q && Claims(s.rows, r, actor, url) && Claims(s.rows, q, actor, url)
  }

  /** The object goes with the avatar that is replaced, or with the sweep of the owner's folder. */
  predicate GoesWithSave(
    cfg: Config, owner: Owner, previous: Option<string>, url: Option<string>, storage: Storage, key: string)
  {
    && cfg.bucket != ""
    && (|| (&& storage.cleanupWorks && previous.Some? && previous.value != "" && previous != url
            && KeyOf(cfg.base, previous) == Some(key))
        || (&& cfg.base != "" && Folder(owner) <= key && key in storage.reached
            && KeyOf(cfg.base, url) != Some(key)))
  }

  ghost predicate SaveMeans(
    cfg: Config, s: Avatars, actor: UuidText, target: Target, url: Option<string>, storage: Storage, t: Avatars)
  {
    var owner := OwnerOf(actor, target);
    && owner in s.urls && t.urls.Keys == s.urls.Keys && t.urls[owner] == url
    && (forall o :: o in s.urls && o != owner ==> t.urls[o] == s.urls[o])
    && t.rows.Keys == s.rows.Keys
    && (forall r :: r in s.rows ==>
          && t.rows[r].startedBy == s.rows[r].startedBy && t.rows[r].key == s.rows[r].key
          && t.rows[r].url == s.rows[r].url && t.rows[r].createdAt == s.rows[r].createdAt
          && (t.rows[r].committed <==> s.rows[r].committed || Claims(s.rows, r, actor, url)))
    && (forall key :: key in t.objects <==>
                      key in s.objects && !GoesWithSave(cfg, owner, s.urls[owner], url, storage, key))
  }

  lemma {:induction false} MoreThanOne<T>(s: set<T>)
    ensures |s| > 1 <==> exists x, y :: x != y && x in s && y in s
  {
    if s != {} {
      var x :| x in s;
      assert s == {x} + (s - {x});
      if |s| > 1 {
        var y :| y in s - {x};
        assert x != y && x in s && y in s;
      } else {
        assert s == {x};
      }
    }
  }

  lemma ManyClaims(rows: map<UuidText, Row>, actor: UuidText, url: Option<string>)
    ensures Committed(rows, actor, url).Err? <==>
            exists r, q :: r != q && Claims(rows, r, actor, url) && Claims(rows, q, actor, url)
  {
    if !Blank(url) {
      var found := Matching(rows, actor, url.value);
      MoreThanOne(found);
      assert forall r :: r in found <==> Claims(rows, r, actor, url);
    }
  }

  lemma SaveRefusedIff(
    cfg: Config, s: Avatars, actor: UuidText, target: Target, manages: bool, url: Option<string>, storage: Storage,
    e: Error)
    ensures Saved(cfg, s, actor, target, manages, url, storage) == Err(e) <==>
            SaveRefused(s, actor, target, manages, url, e)
  {
    ManyClaims(s.rows, actor, url);
  }

  lemma SaveMeant(
    cfg: Config, s: Avatars, actor: UuidText, target: Target, manages: bool, url: Option<string>, storage: Storage)
    requires Saved(cfg, s, actor, target, manages, url, storage).Ok?
    ensures SaveMeans(cfg, s, actor, target, url, storage,
                      Saved(cfg, s, actor, target, manages, url, storage).value)
  {
    var owner := OwnerOf(actor, target);
    assert Folder(owner) == PrefixOf(owner);
    ClaimedRows(s.rows, actor, url);
    ObjectsAfterSave(cfg, s.objects, owner, s.urls[owner], url, storage);
  }

  lemma ClaimedRows(rows: map<UuidText, Row>, actor: UuidText, url: Option<string>)
    requires Committed(rows, actor, url).Ok?
    ensures var after := Committed(rows, actor, url).value;
            && after.Keys == rows.Keys
            && forall r :: r in rows ==>
                 after[r] == rows[r].(committed := rows[r].committed || Claims(rows, r, actor, url))
  {
  }

  lemma ObjectsAfterSave(
    cfg: Config, objects: set<string>, owner: Owner, previous: Option<string>, url: Option<string>, storage: Storage)
    ensures var kept := Dropped(cfg, objects, Replaced(cfg, previous, url), storage.cleanupWorks);
            forall key :: key in Swept(cfg, kept, owner, url, storage.reached) <==>
                          key in objects && !GoesWithSave(cfg, owner, previous, url, storage, key)
  {
    assert Folder(owner) == PrefixOf(owner);
  }

  // ---------------------------------------------------------------- deleting a group, seeding, enrolment

  predicate DeletionRefused(s: Avatars, group: UuidText, isOwner: bool, e: Error) {
    if !isOwner then e == OwnerRequired else e == NotFound && GroupOwner(group) !in s.urls
  }

  /** Its folder is swept; the group is gone exactly if the commit succeeds. */
  ghost predicate DeletionMeans(
    cfg: Config, s: Avatars, group: UuidText, reached: set<string>, commits: bool, t: Avatars)
  {
    && t.rows == s.rows
    && t.urls.Keys == (if commits then s.urls.Keys - {GroupOwner(group)} else s.urls.Keys)
    && (forall o :: o in t.urls ==> t.urls[o] == s.urls[o])
    && (forall key :: key in t.objects <==>
          && key in s.objects
          && !(cfg.bucket != "" && cfg.base != "" && Folder(GroupOwner(group)) <= key && key in reached))
  }

  lemma DeletionRefusedIff(
    cfg: Config, s: Avatars, group: UuidText, isOwner: bool, reached: set<string>, commits: bool, e: Error)
    ensures GroupDeleted(cfg, s, group, isOwner, reached, commits) == Err(e) <==> DeletionRefused(s, group, isOwner, e)
  {
  }

  lemma DeletionMeant(
    cfg: Config, s: Avatars, group: UuidText, isOwner: bool, reached: set<string>, commits: bool)
    requires GroupDeleted(cfg, s, group, isOwner, reached, commits).Ok?
    ensures DeletionMeans(cfg, s, group, reached, commits,
                          GroupDeleted(cfg, s, group, isOwner, reached, commits).value)
  {
    assert Folder(GroupOwner(group)) == PrefixOf(GroupOwner(group));
  }

  /** A provider's avatar only fills an empty column of an existing user. */
  ghost predicate SeedMeans(s: Avatars, user: UuidText, url: Option<string>, t: Avatars) {
    var o := UserOwner(user);
    && t.rows == s.rows && t.objects == s.objects && t.urls.Keys == s.urls.Keys
    && (forall p :: p in s.urls && p != o ==> t.urls[p] == s.urls[p])
    && (o in s.urls ==>
          var empty := s.urls[o] == None || s.urls[o] == Some("");
          t.urls[o] == if empty && url != None && url != Some("") then url else s.urls[o])
  }

  lemma SeedMeant(s: Avatars, user: UuidText, url: Option<string>)
    ensures SeedMeans(s, user, url, Seeded(s, user, url))
  {
  }

  // ---------------------------------------------------------------- any event

  ghost predicate Refused(cfg: Config, s: Avatars, e: Event, error: Error) {
    match e
    case Starts(u) => StartRefused(cfg, s, u, error)
    case Saves(actor, target, manages, url, _) => SaveRefused(s, actor, target, manages, url, error)
    case DeletesGroup(group, isOwner, _, _) => DeletionRefused(s, group, isOwner, error)
    case _ => false
  }

  /** A pass that starts lists exactly the overdue rows, oldest first; one under way goes on. */
  ghost predicate ListMeans(cfg: Config, y: System, now: int, z: System) {
    && z.tables == y.tables
    && if y.listed != [] then z.listed == y.listed
       else
         && InOrder(y.tables.rows, z.listed)
         && forall r :: r in z.listed <==> r in y.tables.rows && Overdue(cfg, y.tables.rows[r], now)
  }

  /**
    A visit of a row that is gone or claimed does nothing. Otherwise the object goes unless the storage
    refuses, the row goes if the commit succeeds as well, and after a failure the pass is over.
  */
  ghost predicate VisitMeans(cfg: Config, y: System, outcome: Visit, z: System)
    requires y.listed != []
  {
    var s, t, r := y.tables, z.tables, y.listed[0];
    var pending := r in s.rows && !s.rows[r].committed;
    var refused := cfg.bucket != "" && outcome == StorageFails;
    var works := !refused && outcome != CommitFails;
    && t.urls == s.urls
    && (forall q :: q in t.rows <==> q in s.rows && !(q == r && pending && works))
    && (forall q :: q in t.rows ==> t.rows[q] == s.rows[q])
    && (forall key :: key in t.objects <==>
          key in s.objects && !(pending && cfg.bucket != "" && !refused && key == s.rows[r].key))
    && z.listed == if pending && !works then [] else y.listed[1..]
  }

  /** Exactly what a successful event does. */
  ghost predicate Means(cfg: Config, y: System, now: int, e: Event, z: System) {
    var s, t := y.tables, z.tables;
    && (!e.Lists? && !e.Visits? ==> z.listed == y.listed)
    && match e
       case Starts(u) => StartMeans(cfg, s, now, u, t)
       case Saves(actor, target, _, url, storage) => SaveMeans(cfg, s, actor, target, url, storage, t)
       case DeletesGroup(group, _, reached, commits) => DeletionMeans(cfg, s, group, reached, commits, t)
       case Seeds(user, url) => SeedMeans(s, user, url, t)
       case Enrolled(o, url) =>
         && t.rows == s.rows && t.objects == s.objects && t.urls.Keys == s.urls.Keys + {o}
         && (forall p :: p in s.urls ==> t.urls[p] == s.urls[p]) && (o !in s.urls ==> t.urls[o] == url)
       case PutObject(key) =>
         t.urls == s.urls && t.rows == s.rows && forall k :: k in t.objects <==> k in s.objects || k == key
       case Lists(_) => ListMeans(cfg, y, now, z)
       case Visits(outcome) => if y.listed == [] then z == y else VisitMeans(cfg, y, outcome, z)
  }

  lemma VisitMeant(cfg: Config, y: System, now: int, outcome: Visit)
    requires y.listed != []
    ensures VisitMeans(cfg, y, outcome, Step(cfg, y, now, Visits(outcome)))
  {
  }

  /** What the service answers to an event. */
  function Answer(cfg: Config, s: Avatars, now: int, e: Event): Result<Avatars, Error> {
    match e
    case Starts(u) => Started(cfg, s, now, u)
    case Saves(actor, target, manages, url, storage) => Saved(cfg, s, actor, target, manages, url, storage)
    case DeletesGroup(group, isOwner, reached, commits) => GroupDeleted(cfg, s, group, isOwner, reached, commits)
    case _ => Ok(s)
  }

  /** For every event and every error: it is refused with that error exactly for the stated reason. */
  lemma RefusedIff(cfg: Config, s: Avatars, now: int, e: Event, error: Error)
    ensures Answer(cfg, s, now, e) == Err(error) <==> Refused(cfg, s, e, error)
  {
    match e
    case Starts(u) => StartRefusedIff(cfg, s, now, u, error);
    case Saves(actor, target, manages, url, storage) =>
      SaveRefusedIff(cfg, s, actor, target, manages, url, storage, error);
    case DeletesGroup(group, isOwner, reached, commits) =>
      DeletionRefusedIff(cfg, s, group, isOwner, reached, commits, error);
    case _ =>
  }

  /** Every event that is not refused does exactly what it says, to the tables, the bucket and the pass. */
  lemma StepMeans(cfg: Config, y: System, now: int, e: Event)
    requires Answer(cfg, y.tables, now, e).Ok? && (e.Lists? ==> PendingOldestFirst(y.tables.rows, e.ordered))
    ensures Means(cfg, y, now, e, Step(cfg, y, now, e))
  {
    var s := y.tables;
    match e
    case Starts(u) => StartMeant(cfg, s, now, u);
    case Saves(actor, target, manages, url, storage) => SaveMeant(cfg, s, actor, target, manages, url, storage);
    case DeletesGroup(group, isOwner, reached, commits) => DeletionMeant(cfg, s, group, isOwner, reached, commits);
    case Seeds(user, url) => SeedMeant(s, user, url);
    case Enrolled(_, _) =>
    case PutObject(_) =>
    case Lists(ordered) => ListingIsOverdue(cfg, s.rows, ordered, now);
    case Visits(outcome) =>
      if y.listed != [] {
        VisitMeant(cfg, y, now, outcome);
      }
  }

  /** The reply, and what became of the system, are accounted for. */
  ghost predicate Accounted(cfg: Config, y: System, now: int, e: Event, reply: Result<(), Error>, z: System) {
    match reply
    case Ok(_) => Means(cfg, y, now, e, z)
    case Err(error) => z.tables == y.tables && Refused(cfg, y.tables, e, error)
  }

  lemma EventAccounted(cfg: Config, y: System, now: int, e: Event, reply: Result<(), Error>)
    requires match Answer(cfg, y.tables, now, e)
             case Ok(_) => reply == Ok(())
             case Err(error) => reply == Err(error)
    requires e.Lists? ==> PendingOldestFirst(y.tables.rows, e.ordered)
    ensures Accounted(cfg, y, now, e, reply, Step(cfg, y, now, e))
  {
    if reply.Ok? {
      StepMeans(cfg, y, now, e);
    } else {
      RefusedIff(cfg, y.tables, now, e, reply.error);
    }
  }
}
