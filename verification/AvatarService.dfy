/** The avatar services, storage helpers and janitor, as an object that owns the tables and the bucket. */
module AvatarService {
  import opened Prelude
  import opened AvatarUrl
  import opened AvatarModel
  import opened AvatarSafety
  import opened AvatarLimits
  import opened AvatarJanitor
  import opened AvatarEffects

  /** Reply and new tables are what the specification says; a raised error changes nothing. */
  ghost predicate Answers(before: Avatars, after: Avatars, reply: Result<(), Error>, spec: Result<Avatars, Error>) {
    match spec
    case Ok(t) => reply == Ok(()) && after == t
    case Err(e) => reply == Err(e) && after == before
  }

  // ---------------------------------------------------------------- the paginated listing

  /** One answer of the listing call; an item may come without a key. */
  datatype Page = Page(contents: seq<Option<string>>, truncated: bool, next: Option<string>)

  predicate Continues(page: Page) { page.truncated && !Blank(page.next) }

  function KeysOf(page: Page): set<string> { set item | item in page.contents && item.Some? :: item.value }

  function KeysUpTo(pages: seq<Page>, n: nat): set<string>
    requires n <= |pages|
  {
    if n == 0 then {} else KeysUpTo(pages, n - 1) + KeysOf(pages[n - 1])
  }

  function PageAfter(pages: seq<Page>, token: Option<string>, from: nat): nat
    requires from <= |pages|
    decreases |pages| - from
  {
    if from == |pages| || pages[from].next == token then from + 1 else PageAfter(pages, token, from + 1)
  }

  /** The storage answers a request without a token with the first page, else with the page the token leads to. */
  function PageFor(pages: seq<Page>, token: Option<string>): (page: Page)
    requires pages != []
  {
    var i := if token.None? then 0 else PageAfter(pages, token, 0);
    if i < |pages| then pages[i] else Page([], false, None)
  }

  /** Pages that end, linked by distinct tokens: what the paging protocol promises. */
  ghost predicate Linked(pages: seq<Page>) {
    && pages != []
    && (forall i | 0 <= i < |pages| :: Continues(pages[i]) <==> i < |pages| - 1)
    && (forall i, j | 0 <= i < j < |pages| - 1 :: pages[i].next != pages[j].next)
  }

  /** No page lists a key outside the prefix; keys may be missing. */
  ghost predicate ListsUnder(pages: seq<Page>, prefix: string) {
    Linked(pages) && forall k :: k in KeysUpTo(pages, |pages|) ==> prefix <= k
  }

  /** Together they list exactly the keys under the prefix, in pages of any sizes. */
  ghost predicate TruthfulListing(pages: seq<Page>, objects: set<string>, prefix: string) {
    Linked(pages) && KeysUpTo(pages, |pages|) == set k | k in objects && prefix <= k
  }

  /** The keys a listing makes the sweep delete. */
  function ListedStale(pages: seq<Page>, n: nat, keep: Option<string>): set<string>
    requires n <= |pages|
  {
    set k | k in KeysUpTo(pages, n) && keep != Some(k)
  }

  lemma {:induction false} TokenLeadsTo(pages: seq<Page>, i: nat, from: nat)
    requires i < |pages| && from <= i && forall j | from <= j < i :: pages[j].next != pages[i].next
    ensures PageAfter(pages, pages[i].next, from) == i + 1
    decreases i - from
  {
    if from < i {
      TokenLeadsTo(pages, i, from + 1);
    }
  }

  lemma ServedInOrder(pages: seq<Page>, n: nat, token: Option<string>)
    requires Linked(pages) && n < |pages| && token == (if n == 0 then None else pages[n - 1].next)
    ensures PageFor(pages, token) == pages[n] && (Continues(pages[n]) <==> n < |pages| - 1)
  {
    if n > 0 {
      assert Continues(pages[n - 1]);
      TokenLeadsTo(pages, n - 1, 0);
    }
  }

  /** What a sweep deletes is what it lists and what the storage carries out. */
  lemma SweptOfListed(
    cfg: Config, objects: set<string>, owner: Owner, keepUrl: Option<string>, pages: seq<Page>, reached: set<string>)
    requires cfg.bucket != "" && cfg.base != ""
    ensures ListsUnder(pages, PrefixOf(owner)) ==>
              objects - ListedStale(pages, |pages|, KeyOf(cfg.base, keepUrl)) * reached
              == Swept(cfg, objects, owner, keepUrl, reached * KeysUpTo(pages, |pages|))
    ensures TruthfulListing(pages, objects, PrefixOf(owner)) ==>
              objects - ListedStale(pages, |pages|, KeyOf(cfg.base, keepUrl)) * reached
              == Swept(cfg, objects, owner, keepUrl, reached)
  {
  }

  /** With a truthful listing the sweep misses nothing. */
  lemma TruthfulSweepReachesAll(
    cfg: Config, objects: set<string>, owner: Owner, keepUrl: Option<string>, pages: seq<Page>, reached: set<string>)
    requires TruthfulListing(pages, objects, PrefixOf(owner))
    ensures ListsUnder(pages, PrefixOf(owner))
    ensures Swept(cfg, objects, owner, keepUrl, reached * KeysUpTo(pages, |pages|))
         == Swept(cfg, objects, owner, keepUrl, reached)
  {
  }

  // ---------------------------------------------------------------- events as the storage lets them happen

  /** The event with the deletions its sweep asks for and the storage carries out. */
  function Seen(e: Event, pages: seq<Page>): Event {
    match e
    case Saves(_, _, _, _, storage) =>
      e.(storage := storage.(reached := storage.reached * KeysUpTo(pages, |pages|)))
    case DeletesGroup(_, _, reached, _) => e.(reached := reached * KeysUpTo(pages, |pages|))
    case _ => e
  }

  ghost predicate Fits(e: Event, pages: seq<Page>) {
    && (e.Saves? ==> ListsUnder(pages, PrefixOf(OwnerOf(e.actor, e.target))))
    && (e.DeletesGroup? ==> ListsUnder(pages, PrefixOf(GroupOwner(e.group))))
  }

  function SeenRun(run: seq<Timed>, pages: seq<seq<Page>>): seq<Timed>
    requires |run| == |pages|
  {
    seq(|run|, i requires 0 <= i < |run| => Timed(run[i].now, Seen(run[i].event, pages[i])))
  }

  lemma OnlyElement<T>(s: set<T>, x: T)
    requires x in s && |s| <= 1
    ensures s == {x}
  {
    forall y | y in s ensures y == x {
      if y != x {
        assert |{x, y}| <= |s| by {
          SubsetIsSmaller({x, y}, s);
        }
      }
    }
  }

  lemma {:induction false} SubsetIsSmaller<T>(a: set<T>, b: set<T>)
    requires a <= b
    ensures |a| <= |b|
  {
    if a != {} {
      var x :| x in a;
      SubsetIsSmaller(a - {x}, b - {x});
    }
  }

  class AvatarStore {
    const cfg: Config
    var urls: map<Owner, Option<string>>
    var rows: map<UuidText, Row>
    var objects: set<string>

    /** What the janitor pass that is under way has still to visit. */
    var listed: seq<UuidText>

    /** The upload forms handed out so far. */
    ghost var issued: Issued

    function Tables(): Avatars
      reads this
    {
      Avatars(urls, rows, objects)
    }

    ghost function Now(): Moment
      reads this
    {
      Moment(System(Tables(), listed), issued)
    }

    ghost predicate Valid()
      reads this
    {
      IssuedUnderPrefix(issued) && LedgerConsistent(cfg, rows, issued)
    }

    constructor (cfg: Config)
      ensures this.cfg == cfg && Now() == BEGINNING && Valid()
    {
      this.cfg := cfg;
      urls, rows, objects, listed, issued := map[], map[], {}, [], map[];
    }

    // -------------------------------------------------------------- storage

    method DeleteObjectByKey(key: Option<string>, works: bool)
      modifies this`objects
      ensures objects == Dropped(cfg, old(objects), key, works)
    {
      if key.None? || cfg.bucket == "" {
        return;
      }
      if works {
        objects := objects - {key.value};
      }
    }

    /** The keys of one page that are to go, behind those already found. */
    method CollectStale(page: Page, keep: Option<string>, found: seq<string>) returns (stale: seq<string>)
      ensures Elements(stale) == Elements(found) + (set k | k in KeysOf(page) && keep != Some(k))
    {
      stale := found;
      var i := 0;
      while i < |page.contents|
        invariant 0 <= i <= |page.contents|
        invariant forall k :: k in stale <==> k in found || (Some(k) in page.contents[..i] && keep != Some(k))
      {
        var item := page.contents[i];
        if item.Some? && keep != item {
          stale := stale + [item.value];
        }
        assert page.contents[..i + 1] == page.contents[..i] + [item];
        i := i + 1;
      }
      assert page.contents[..i] == page.contents;
      forall k ensures k in KeysOf(page) <==> Some(k) in page.contents {
        if Some(k) in page.contents {
          assert Some(k).value in KeysOf(page);
        }
      }
    }

    /** Fetches page after page and collects every key but the one to keep. */
    method ListStale(pages: seq<Page>, keep: Option<string>) returns (stale: seq<string>)
      requires Linked(pages)
      ensures Elements(stale) == ListedStale(pages, |pages|, keep)
    {
      stale := [];
      var token: Option<string> := None;
      ghost var n := 0;
      while true
        invariant 0 <= n < |pages|
        invariant token == if n == 0 then None else pages[n - 1].next
        invariant Elements(stale) == ListedStale(pages, n, keep)
        decreases |pages| - n
      {
        var page := PageFor(pages, token);
        ServedInOrder(pages, n, token);
        stale := CollectStale(page, keep, stale);
        n := n + 1;
        assert Elements(stale) == ListedStale(pages, n, keep);
        if !page.truncated {
          break;
        }
        token := page.next;
        if Blank(token) {
          break;
        }
      }
    }

    /** The sweep of a prefix: whatever is listed goes, except the key to keep, as far as the storage gets. */
    method SweepPrefix(owner: Owner, keepUrl: Option<string>, pages: seq<Page>, reached: set<string>)
      requires Linked(pages)
      modifies this`objects
      ensures cfg.bucket == "" || cfg.base == "" ==> objects == old(objects)
      ensures cfg.bucket != "" && cfg.base != "" ==>
                objects == old(objects) - ListedStale(pages, |pages|, KeyOf(cfg.base, keepUrl)) * reached
      ensures TruthfulListing(pages, old(objects), PrefixOf(owner)) ==>
                objects == Swept(cfg, old(objects), owner, keepUrl, reached)
      ensures ListsUnder(pages, PrefixOf(owner)) ==>
                objects == Swept(cfg, old(objects), owner, keepUrl, reached * KeysUpTo(pages, |pages|))
    {
      if cfg.bucket == "" || cfg.base == "" {
        return;
      }
      var keep := KeyOf(cfg.base, keepUrl);
      var stale := ListStale(pages, keep);
      SweptOfListed(cfg, objects, owner, keepUrl, pages, reached);
      if stale == [] {
        return;
      }
      objects := objects - Elements(stale) * reached;
    }

    // -------------------------------------------------------------- the upload ledger

    method MarkCommitted(actor: UuidText, url: string) returns (ok: bool)
      modifies this`rows
      ensures ok == (|Matching(old(rows), actor, url)| <= 1)
      ensures !ok ==> rows == old(rows)
      ensures ok ==> rows == map r | r in old(rows) ::
                        if Matches(old(rows), r, actor, url) then old(rows)[r].(committed := true) else old(rows)[r]
    {
      var found := Matching(rows, actor, url);
      if |found| > 1 {
        return false;
      }
      if found != {} {
        var r :| r in found;
        OnlyElement(found, r);
        if !rows[r].committed {
          rows := rows[r := rows[r].(committed := true)];
        }
      }
      assert forall r :: r in old(rows) && Matches(old(rows), r, actor, url) ==> r in found;
      return true;
    }

    method ListExpiredPending(ordered: seq<UuidText>, cutoff: int) returns (expired: seq<UuidText>)
      requires PendingOldestFirst(rows, ordered)
      ensures expired == ExpiredOf(rows, ordered, cutoff)
    {
      expired := [];
      var i := 0;
      while i < |ordered|
        invariant 0 <= i <= |ordered|
        invariant expired + ExpiredOf(rows, ordered[i..], cutoff) == ExpiredOf(rows, ordered, cutoff)
      {
        if rows[ordered[i]].createdAt < cutoff {
          expired := expired + [ordered[i]];
        }
        assert ordered[i..][1..] == ordered[i + 1..];
        i := i + 1;
      }
    }

    // -------------------------------------------------------------- uploads and avatars

    method InitUpload(now: int, u: Upload) returns (reply: Result<(), Error>)
      modifies this`rows
      ensures Answers(old(Tables()), Tables(), reply, Started(cfg, old(Tables()), now, u))
    {
      if u.target.ForGroup? && !u.manages {
        return Err(AdminOrOwnerRequired);
      }
      if u.bytes > cfg.maxBytes {
        return Err(FileTooLarge);
      }
      var extension := Extension(u.contentType);
      if extension.None? {
        return Err(ContentTypeInvalid);
      }
      if cfg.bucket == "" || cfg.base == "" {
        return Err(Unavailable);
      }
      var key := UploadKey(OwnerOf(u.actor, u.target), u.image, extension.value);
      if !u.signed {
        return Err(Unavailable);
      }
      if KeyInUse(rows, key) || u.row in rows {
        return Err(UniqueViolation);
      }
      rows := rows[u.row := Row(u.actor, key, UrlFor(cfg.base, key), now, false)];
      return Ok(());
    }

    /**
      `pages` is what the storage lists under the owner's prefix after the replaced avatar was cleaned
      up. What it does not list, the sweep does not reach.
    */
    method SaveAvatar(
      actor: UuidText, target: Target, manages: bool, url: Option<string>, storage: Storage, pages: seq<Page>)
      returns (reply: Result<(), Error>)
      requires ListsUnder(pages, PrefixOf(OwnerOf(actor, target)))
      modifies this`urls, this`rows, this`objects
      ensures var reached := storage.reached * KeysUpTo(pages, |pages|);
              Answers(old(Tables()), Tables(), reply,
                      Saved(cfg, old(Tables()), actor, target, manages, url, storage.(reached := reached)))
    {
      var owner := OwnerOf(actor, target);
      if target.ForGroup? && !manages {
        return Err(AdminOrOwnerRequired);
      }
      if owner !in urls {
        return Err(NotFound);
      }
      var previous := urls[owner];
      var cleanup := Replaced(cfg, previous, url);
      urls := urls[owner := url];
      if !Blank(url) {
        var ok := MarkCommitted(actor, url.value);
        if !ok {
          urls := urls[owner := previous];
          assert urls == old(urls);
          return Err(MultipleRows);
        }
      }
      // The transaction is committed; what follows only logs failures.
      DeleteObjectByKey(cleanup, storage.cleanupWorks);
      SweepPrefix(owner, url, pages, storage.reached);
      return Ok(());
    }

    method SeedAvatarIfMissing(user: UuidText, url: Option<string>)
      modifies this`urls
      ensures Tables() == Seeded(old(Tables()), user, url)
    {
      var o := UserOwner(user);
      if o !in urls || !Blank(urls[o]) || Blank(url) {
        return;
      }
      urls := urls[o := url];
    }

    /** The handler sweeps and returns; the session commits afterwards, or fails to and rolls back. */
    method DeleteGroup(group: UuidText, isOwner: bool, reached: set<string>, commits: bool, pages: seq<Page>)
      returns (reply: Result<(), Error>)
      requires ListsUnder(pages, PrefixOf(GroupOwner(group)))
      modifies this`urls, this`objects
      ensures var deleted := reached * KeysUpTo(pages, |pages|);
              Answers(old(Tables()), Tables(), reply,
                      GroupDeleted(cfg, old(Tables()), group, isOwner, deleted, commits))
    {
      var o := GroupOwner(group);
      if !isOwner {
        return Err(OwnerRequired);
      }
      if o !in urls {
        return Err(NotFound);
      }
      var before := urls;
      urls := urls - {o};
      SweepPrefix(o, None, pages, reached);
      if !commits {
        urls := before;
      }
      return Ok(());
    }

    // -------------------------------------------------------------- the janitor

    method VisitRecord(r: UuidText, outcome: Visit) returns (deleted: bool, rolledBack: bool)
      modifies this`rows, this`objects
      ensures Tables() == Visited(cfg, old(Tables()), r, outcome)
      ensures |rows| == |old(rows)| - if deleted then 1 else 0
      ensures rolledBack == Fails(cfg, old(rows), r, outcome)
    {
      if r !in rows || rows[r].committed {
        return false, false;
      }
      if Raises(cfg, outcome) {
        return false, true;
      }
      DeleteObjectByKey(Some(rows[r].key), true);
      var before := rows;
      rows := rows - {r};
      if outcome.CommitFails? {
        rows := before;
        return false, true;
      }
      assert rows.Keys == before.Keys - {r};
      assert |rows| == |rows.Keys| && |before| == |before.Keys|;
      return true, false;
    }

    /** The loop of a pass: behind a rollback the next record can no longer be read, and the pass raises. */
    method VisitAll(expired: seq<UuidText>, outcomes: map<UuidText, Visit>) returns (reply: Result<nat, Error>)
      modifies this`rows, this`objects
      ensures Tables() == Pass(cfg, old(Tables()), expired, outcomes)
      ensures reply == if BreaksOff(cfg, old(rows), expired, outcomes) then Err(RecordsExpired)
                       else Ok(|old(rows)| - |rows|)
    {
      var count, rolledBack := 0, false;
      ghost var before := Tables();
      var i := 0;
      while i < |expired|
        invariant 0 <= i <= |expired|
        invariant count == |before.rows| - |rows|
        invariant forall j | 0 <= j < i :: FailsAt(cfg, before.rows, expired, outcomes, j) <==> rolledBack && j == i - 1
        invariant rolledBack ==> 0 < i && Tables() == Pass(cfg, before, expired, outcomes)
        invariant !rolledBack ==>
                    && SameFailures(cfg, before.rows, rows, outcomes)
                    && Pass(cfg, Tables(), expired[i..], outcomes) == Pass(cfg, before, expired, outcomes)
      {
        if rolledBack {
          assert FailsAt(cfg, before.rows, expired, outcomes, i - 1);
          return Err(RecordsExpired);
        }
        assert expired[i..][1..] == expired[i + 1..];
        var deleted;
        deleted, rolledBack := VisitRecord(expired[i], OutcomeOf(outcomes, expired[i]));
        assert FailsAt(cfg, before.rows, expired, outcomes, i) <==> rolledBack;
        if deleted {
          count := count + 1;
        }
        i := i + 1;
      }
      return Ok(count);
    }

    /** One janitor pass; the result counts the rows it removed. */
    method RunJanitorOnce(now: int, ordered: seq<UuidText>, outcomes: map<UuidText, Visit>)
      returns (reply: Result<nat, Error>)
      requires PendingOldestFirst(rows, ordered)
      modifies this`rows, this`objects
      ensures Tables() == Pass(cfg, old(Tables()), Listing(cfg, old(rows), ordered, now), outcomes)
      ensures reply == if BreaksOff(cfg, old(rows), Listing(cfg, old(rows), ordered, now), outcomes)
                       then Err(RecordsExpired) else Ok(|old(rows)| - |rows|)
      ensures TakesOverdue(cfg, old(rows), rows, now, outcomes)
    {
      PassTakesOverdue(cfg, Tables(), now, ordered, outcomes);
      var expired := ListExpiredPending(ordered, Cutoff(cfg, now));
      reply := VisitAll(expired, outcomes);
    }

    // -------------------------------------------------------------- any event, any number of events

    method Enrol(owner: Owner, url: Option<string>)
      modifies this`urls
      ensures urls == if owner in old(urls) then old(urls) else old(urls)[owner := url]
    {
      if owner !in urls {
        urls := urls[owner := url];
      }
    }

    /** The janitor asks the ledger, or goes on to its next record. */
    method Collect(now: int, e: Event)
      requires e.Visits? || (e.Lists? && PendingOldestFirst(rows, e.ordered))
      modifies this`rows, this`objects, this`listed
      ensures Now().system == Step(cfg, old(Now()).system, now, e)
    {
      if e.Lists? {
        if listed == [] {
          listed := ListExpiredPending(e.ordered, Cutoff(cfg, now));
        }
      } else if listed != [] {
        var deleted, rolledBack := VisitRecord(listed[0], e.outcome);
        listed := if rolledBack then [] else listed[1..];
      }
    }

    /** The routing table. */
    method Dispatch(now: int, e: Event, pages: seq<Page>) returns (reply: Result<(), Error>)
      requires Fits(e, pages) && (e.Lists? ==> PendingOldestFirst(rows, e.ordered))
      modifies this`urls, this`rows, this`objects, this`listed
      ensures Now().system == Step(cfg, old(Now()).system, now, Seen(e, pages))
      ensures match Answer(cfg, old(Tables()), now, Seen(e, pages))
              case Ok(_) => reply == Ok(())
              case Err(error) => reply == Err(error) && Tables() == old(Tables())
      ensures reply.Ok? && e.Starts? ==> Started(cfg, old(Tables()), now, e.upload).Ok?
      ensures reply.Ok? && e.Saves? ==> OwnerOf(e.actor, e.target) in urls && urls[OwnerOf(e.actor, e.target)] == e.url
      ensures reply == Err(MultipleRows) ==> e.Saves? && Committed(old(rows), e.actor, e.url).Err?
    {
      reply := Ok(());
      match e
      case Enrolled(owner, url) => Enrol(owner, url);
      case Seeds(user, url) => SeedAvatarIfMissing(user, url);
      case Starts(u) => reply := InitUpload(now, u);
      case PutObject(key) => objects := objects + {key};
      case Saves(actor, target, manages, url, storage) =>
        reply := SaveAvatar(actor, target, manages, url, storage, pages);
      case DeletesGroup(group, isOwner, reached, commits) =>
        reply := DeleteGroup(group, isOwner, reached, commits, pages);
      case Lists(_) => Collect(now, e);
      case Visits(_) => Collect(now, e);
    }

    /**
      Any event: the ledger stays consistent with the upload forms handed out, so that no query for the
      caller's row meets several; a save that succeeds makes its URL the current one, and an upload that
      succeeds hands out a form for the caller and the owner.
    */
    method Handle(now: int, e: Event, pages: seq<Page>) returns (reply: Result<(), Error>)
      requires Valid() && Orderly(Now().system, issued, e) && Fits(e, pages)
      modifies this
      ensures Valid() && Now() == Next(cfg, old(Now()), Timed(now, Seen(e, pages)))
      ensures Accounted(cfg, old(Now()).system, now, Seen(e, pages), reply, Now().system)
      ensures reply != Err(MultipleRows)
      ensures reply.Ok? && e.Saves? ==> OwnerOf(e.actor, e.target) in urls && urls[OwnerOf(e.actor, e.target)] == e.url
      ensures reply.Ok? && e.Starts? ==>
                var u, key := e.upload, KeyOfUpload(e.upload);
                && key.Some?
                && OwnUpload(cfg, issued, u.actor, OwnerOf(u.actor, u.target), Some(UrlFor(cfg.base, key.value)))
    {
      ghost var m := Now();
      if e.Saves? {
        CommitSucceeds(cfg, rows, issued, e.actor, e.url);
      }
      StepKeepsLedger(cfg, m.system, now, Seen(e, pages), issued);
      reply := Dispatch(now, e, pages);
      issued := IssuedBy(cfg, m.system.tables, now, e, issued);
      assert Valid() && Now() == Next(cfg, m, Timed(now, Seen(e, pages)));
      EventAccounted(cfg, m.system, now, Seen(e, pages), reply);
    }

    /** Any number of events: the object goes through exactly the moments of the specified run. */
    method Serve(run: seq<Timed>, pages: seq<seq<Page>>)
      requires |run| == |pages| && forall i :: 0 <= i < |run| ==> Fits(run[i].event, pages[i])
      requires Valid() && OrderlyFrom(cfg, Now(), SeenRun(run, pages))
      modifies this
      ensures Valid() && Now() == MomentAfter(cfg, old(Now()), SeenRun(run, pages))
      ensures old(Now()) == BEGINNING ==>
                exists trace :: RunOf(cfg, SeenRun(run, pages), trace) && trace[|run|] == Now()
    {
      ghost var start, seen := Now(), SeenRun(run, pages);
      var i := 0;
      while i < |run|
        invariant 0 <= i <= |run| && Valid() && OrderlyFrom(cfg, Now(), seen[i..])
        invariant MomentAfter(cfg, Now(), seen[i..]) == MomentAfter(cfg, start, seen)
      {
        assert seen[i..][0] == seen[i] && seen[i..][1..] == seen[i + 1..];
        var reply := Handle(run[i].now, run[i].event, pages[i]);
        i := i + 1;
      }
      if start == BEGINNING {
        ghost var trace := TraceOf(cfg, seen);
      }
    }
  }
}
