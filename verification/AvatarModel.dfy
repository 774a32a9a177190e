/**
  Avatars: the `avatar_url` columns of users and groups, the upload ledger, the bucket, and the
  three deleters (replaced-avatar cleanup, prefix sweep, ledger janitor). Ids appear here as their
  text, because they are part of object keys.
*/
module AvatarModel {
  import opened Prelude
  import opened AvatarUrl

  predicate IsUuidChar(c: char) { '0' <= c <= '9' || 'a' <= c <= 'f' || c == '-' }

  const NIL_UUID := "00000000-0000-0000-0000-000000000000"

  /** The canonical text of a UUID. */
  type UuidText = s: string | |s| == 36 && forall k :: 0 <= k < |s| ==> IsUuidChar(s[k])
    witness NIL_UUID

  datatype Owner = UserOwner(id: UuidText) | GroupOwner(id: UuidText)

  function PrefixOf(owner: Owner): string {
    match owner
    case UserOwner(id) => "users/" + id + "/avatars/"
    case GroupOwner(id) => "groups/" + id + "/avatars/"
  }

  /** `bucket` and `base` are the storage settings as configured; either may be blank. */
  datatype Config = Config(bucket: string, base: string, maxBytes: nat, ttlHours: nat)

  /** A row of the upload ledger; times are in seconds. */
  datatype Row = Row(startedBy: UuidText, key: string, url: string, createdAt: int, committed: bool)

  datatype Avatars = Avatars(urls: map<Owner, Option<string>>, rows: map<UuidText, Row>, objects: set<string>)

  const NO_AVATARS := Avatars(map[], map[], {})

  datatype Error =
    | NotFound | AdminOrOwnerRequired | OwnerRequired
    | FileTooLarge | ContentTypeInvalid | Unavailable | UniqueViolation | MultipleRows | RecordsExpired

  /** Whose avatar a request is about: the caller's own, or a group's. */
  datatype Target = Me | ForGroup(id: UuidText)

  function OwnerOf(actor: UuidText, target: Target): Owner {
    if target.Me? then UserOwner(actor) else GroupOwner(target.id)
  }

  // ---------------------------------------------------------------- starting an upload

  function Extension(contentType: string): Option<string> {
    if contentType == "image/jpeg" then Some("jpg")
    else if contentType == "image/png" then Some("png")
    else if contentType == "image/webp" then Some("webp")
    else None
  }

  function UploadKey(owner: Owner, image: UuidText, extension: string): string {
    PrefixOf(owner) + image + "." + extension
  }

  /** `manages` is the caller's role check, `image` and `row` the fresh ids, `signed` whether signing succeeds. */
  datatype Upload = Upload(
    actor: UuidText, target: Target, manages: bool, contentType: string, bytes: nat,
    image: UuidText, row: UuidText, signed: bool)

  function KeyOfUpload(u: Upload): Option<string> {
    var e := Extension(u.contentType);
    if e.None? then None else Some(UploadKey(OwnerOf(u.actor, u.target), u.image, e.value))
  }

  predicate KeyInUse(rows: map<UuidText, Row>, key: string) { exists r :: r in rows && rows[r].key == key }

  function Started(cfg: Config, s: Avatars, now: int, u: Upload): Result<Avatars, Error> {
    var key := KeyOfUpload(u);
    if u.target.ForGroup? && !u.manages then Err(AdminOrOwnerRequired)
    else if u.bytes > cfg.maxBytes then Err(FileTooLarge)
    else if key.None? then Err(ContentTypeInvalid)
    else if cfg.bucket == "" || cfg.base == "" || !u.signed then Err(Unavailable)
    else if KeyInUse(s.rows, key.value) || u.row in s.rows then Err(UniqueViolation)
    else Ok(s.(rows := s.rows[u.row := Row(u.actor, key.value, UrlFor(cfg.base, key.value), now, false)]))
  }

  // ---------------------------------------------------------------- saving an avatar

  predicate Blank(url: Option<string>) { url.None? || url.value == "" }

  /** The key of the avatar that an update replaces, when it is a managed one. */
  function Replaced(cfg: Config, previous: Option<string>, next: Option<string>): Option<string> {
    if Blank(previous) || previous == next then None else KeyOf(cfg.base, previous)
  }

  predicate Matches(rows: map<UuidText, Row>, r: UuidText, actor: UuidText, url: string) {
    r in rows && rows[r].startedBy == actor && rows[r].url == url
  }

  function Matching(rows: map<UuidText, Row>, actor: UuidText, url: string): set<UuidText> {
    set r | r in rows && Matches(rows, r, actor, url)
  }

  /** `mark_committed`: the row of this user and URL; several rows would make the query raise. */
  function Committed(
    rows: map<UuidText, Row>, actor: UuidText, url: Option<string>): Result<map<UuidText, Row>, Error> {
    if Blank(url) then Ok(rows)
    else if |Matching(rows, actor, url.value)| > 1 then Err(MultipleRows)
    else Ok(map r | r in rows :: if Matches(rows, r, actor, url.value) then rows[r].(committed := true) else rows[r])
  }

  /** The objects a sweep asks to delete. */
  function Stale(objects: set<string>, prefix: string, keep: Option<string>): set<string> {
    set k | k in objects && prefix <= k && keep != Some(k)
  }

  /** A sweep of which the storage carries out the deletions in `reached`; failing early reaches fewer. */
  function Swept(
    cfg: Config, objects: set<string>, owner: Owner, keepUrl: Option<string>, reached: set<string>): set<string> {
    if cfg.bucket == "" || cfg.base == "" then objects
    else objects - Stale(objects, PrefixOf(owner), KeyOf(cfg.base, keepUrl)) * reached
  }

  function Dropped(cfg: Config, objects: set<string>, key: Option<string>, works: bool): set<string> {
    if key.None? || cfg.bucket == "" || !works then objects else objects - {key.value}
  }

  /** How far the storage gets with the two deletions behind an update. */
  datatype Storage = Storage(cleanupWorks: bool, reached: set<string>)

  function Saved(
    cfg: Config, s: Avatars, actor: UuidText, target: Target, manages: bool, url: Option<string>, storage: Storage)
    : Result<Avatars, Error>
  {
    var owner := OwnerOf(actor, target);
    if target.ForGroup? && !manages then Err(AdminOrOwnerRequired)
    else if owner !in s.urls then Err(NotFound)
    else
      var rows := Committed(s.rows, actor, url);
      if rows.Err? then Err(rows.error)
      else
        var kept := Dropped(cfg, s.objects, Replaced(cfg, s.urls[owner], url), storage.cleanupWorks);
        Ok(Avatars(s.urls[owner := url], rows.value, Swept(cfg, kept, owner, url, storage.reached)))
  }

  /** A provider login fills in a missing avatar. */
  function Seeded(s: Avatars, user: UuidText, url: Option<string>): Avatars {
    var o := UserOwner(user);
    if o !in s.urls || !Blank(s.urls[o]) || Blank(url) then s else s.(urls := s.urls[o := url])
  }

  /** The route sweeps before the session commits: if the commit fails, the group is still there. */
  function GroupDeleted(
    cfg: Config, s: Avatars, group: UuidText, isOwner: bool, reached: set<string>, commits: bool)
    : Result<Avatars, Error>
  {
    var o := GroupOwner(group);
    if !isOwner then Err(OwnerRequired)
    else if o !in s.urls then Err(NotFound)
    else
      var swept := s.(objects := Swept(cfg, s.objects, o, None, reached));
      Ok(if commits then swept.(urls := s.urls - {o}) else swept)
  }

  // ---------------------------------------------------------------- the janitor

  function Cutoff(cfg: Config, now: int): int { now - 3600 * cfg.ttlHours }

  predicate Expired(rows: map<UuidText, Row>, r: UuidText, cutoff: int) {
    r in rows && !rows[r].committed && rows[r].createdAt < cutoff
  }

  /** What the ledger query answers: the uncommitted rows, oldest first. */
  ghost predicate PendingOldestFirst(rows: map<UuidText, Row>, ordered: seq<UuidText>) {
    && (forall r :: r in ordered <==> r in rows && !rows[r].committed)
    && (forall i, j | 0 <= i < j < |ordered| ::
          ordered[i] != ordered[j] && rows[ordered[i]].createdAt <= rows[ordered[j]].createdAt)
  }

  /** `list_expired_pending`: the rows of that answer that are older than the cutoff, in the same order. */
  function ExpiredOf(rows: map<UuidText, Row>, ordered: seq<UuidText>, cutoff: int): seq<UuidText> {
    if ordered == [] then []
    else
      var rest := ExpiredOf(rows, ordered[1..], cutoff);
      if Expired(rows, ordered[0], cutoff) then [ordered[0]] + rest else rest
  }

  /** What a pass that starts now lists. */
  function Listing(cfg: Config, rows: map<UuidText, Row>, ordered: seq<UuidText>, now: int): seq<UuidText> {
    ExpiredOf(rows, ordered, Cutoff(cfg, now))
  }

  /** What goes wrong on a visit: deleting the object raises, or the commit of the row's deletion does. */
  datatype Visit = Works | StorageFails | CommitFails

  /** Without a bucket the storage is never called, so it cannot fail. */
  predicate Raises(cfg: Config, outcome: Visit) { outcome.StorageFails? && cfg.bucket != "" }

  /** One record of a janitor pass, read again before it is acted on. */
  function Visited(cfg: Config, s: Avatars, r: UuidText, outcome: Visit): Avatars {
    if r !in s.rows || s.rows[r].committed || Raises(cfg, outcome) then s
    else
      var objects := Dropped(cfg, s.objects, Some(s.rows[r].key), true);
      if outcome.CommitFails? then s.(objects := objects)
      else s.(objects := objects, rows := s.rows - {r})
  }

  /** The visit acts on a pending row, and raises or cannot commit. */
  predicate Fails(cfg: Config, rows: map<UuidText, Row>, r: UuidText, outcome: Visit) {
    r in rows && !rows[r].committed && (Raises(cfg, outcome) || outcome.CommitFails?)
  }

  /**
    What a pass still has to visit. The rollback behind a failed visit expires every record that the
    session has loaded, so that reading the id of the next one raises: the pass ends there.
  */
  function Remaining(
    cfg: Config, rows: map<UuidText, Row>, listed: seq<UuidText>, outcome: Visit): (rest: seq<UuidText>)
    requires listed != []
    ensures |rest| < |listed|
  {
    if Fails(cfg, rows, listed[0], outcome) then [] else listed[1..]
  }

  /** A pass without requests in between: the listed records in order, with the outcome of each visit. */
  function Pass(cfg: Config, s: Avatars, listed: seq<UuidText>, outcomes: map<UuidText, Visit>): Avatars
    decreases |listed|
  {
    if listed == [] then s
    else
      var outcome := OutcomeOf(outcomes, listed[0]);
      Pass(cfg, Visited(cfg, s, listed[0], outcome), Remaining(cfg, s.rows, listed, outcome), outcomes)
  }

  /** The visit of the record at this position would fail, going by the tables at the start of the pass. */
  predicate FailsAt(
    cfg: Config, rows: map<UuidText, Row>, listed: seq<UuidText>, outcomes: map<UuidText, Visit>, i: nat)
    requires i < |listed|
  {
    Fails(cfg, rows, listed[i], OutcomeOf(outcomes, listed[i]))
  }

  /** A visit fails with another record still to come. */
  predicate BreaksOff(
    cfg: Config, rows: map<UuidText, Row>, listed: seq<UuidText>, outcomes: map<UuidText, Visit>) {
    exists i :: 0 <= i < |listed| - 1 && FailsAt(cfg, rows, listed, outcomes, i)
  }

  /** The same visits fail on both ledgers. */
  ghost predicate SameFailures(
    cfg: Config, a: map<UuidText, Row>, b: map<UuidText, Row>, outcomes: map<UuidText, Visit>) {
    forall r :: Fails(cfg, a, r, OutcomeOf(outcomes, r)) <==> Fails(cfg, b, r, OutcomeOf(outcomes, r))
  }

  function OutcomeOf(outcomes: map<UuidText, Visit>, r: UuidText): Visit {
    if r in outcomes then outcomes[r] else Works
  }

  // ---------------------------------------------------------------- events

  /** The tables, and the records that the running janitor pass has listed and not yet visited. */
  datatype System = System(tables: Avatars, listed: seq<UuidText>)

  /** `PutObject` is a client using an upload form. Requests may come between the visits of a pass. */
  datatype Event =
    | Enrolled(owner: Owner, url: Option<string>)
    | Seeds(user: UuidText, url: Option<string>)
    | Starts(upload: Upload)
    | PutObject(key: string)
    | Saves(actor: UuidText, target: Target, manages: bool, url: Option<string>, storage: Storage)
    | DeletesGroup(group: UuidText, isOwner: bool, reached: set<string>, commits: bool)
    | Lists(ordered: seq<UuidText>)
    | Visits(outcome: Visit)

  function OrUnchanged(s: Avatars, r: Result<Avatars, Error>): Avatars { if r.Ok? then r.value else s }

  function Step(cfg: Config, y: System, now: int, e: Event): System {
    var s := y.tables;
    match e
    case Enrolled(o, url) => y.(tables := if o in s.urls then s else s.(urls := s.urls[o := url]))
    case Seeds(user, url) => y.(tables := Seeded(s, user, url))
    case Starts(u) => y.(tables := OrUnchanged(s, Started(cfg, s, now, u)))
    case PutObject(key) => y.(tables := s.(objects := s.objects + {key}))
    case Saves(actor, target, manages, url, storage) =>
      y.(tables := OrUnchanged(s, Saved(cfg, s, actor, target, manages, url, storage)))
    case DeletesGroup(group, isOwner, reached, commits) =>
      y.(tables := OrUnchanged(s, GroupDeleted(cfg, s, group, isOwner, reached, commits)))
    case Lists(ordered) => if y.listed != [] then y else y.(listed := Listing(cfg, s.rows, ordered, now))
    case Visits(outcome) =>
      if y.listed == [] then y
      else System(Visited(cfg, s, y.listed[0], outcome), Remaining(cfg, s.rows, y.listed, outcome))
  }

  datatype Timed = Timed(now: int, event: Event)
}
