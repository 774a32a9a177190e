/** What one sweep does exactly, and what saving does to its own and to borrowed objects. */
module AvatarLimits {
  import opened Prelude
  import opened AvatarUrl
  import opened AvatarRoundTrip
  import opened AvatarModel
  import opened AvatarSafety

  // ---------------------------------------------------------------- a whole sweep

  /** A sweep that the storage carries out leaves at most the kept key under the prefix, and touches nothing else. */
  lemma SweepLeavesOnlyTheKept(
    cfg: Config, objects: set<string>, owner: Owner, keepUrl: Option<string>, reached: set<string>, key: string)
    requires cfg.bucket != "" && cfg.base != "" && Stale(objects, PrefixOf(owner), KeyOf(cfg.base, keepUrl)) <= reached
    ensures key in Swept(cfg, objects, owner, keepUrl, reached) <==>
            key in objects && (PrefixOf(owner) <= key ==> KeyOf(cfg.base, keepUrl) == Some(key))
  {
  }

  /** Sweeps of different owners never compete for an object, so their order does not matter. */
  lemma SweepsCommute(
    cfg: Config, objects: set<string>, o1: Owner, k1: Option<string>, r1: set<string>, o2: Owner, k2: Option<string>,
    r2: set<string>)
    requires o1 != o2
    ensures Swept(cfg, Swept(cfg, objects, o1, k1, r1), o2, k2, r2)
        == Swept(cfg, Swept(cfg, objects, o2, k2, r2), o1, k1, r1)
  {
    var p1, p2 := PrefixOf(o1), PrefixOf(o2);
    forall key | key in objects ensures !(p1 <= key && p2 <= key) {
      if p1 <= key && p2 <= key {
        PrefixesNeverOverlap(o1, o2, key);
      }
    }
    SweepsOfApartPrefixes(cfg, objects, o1, KeyOf(cfg.base, k1), r1, o2, KeyOf(cfg.base, k2), r2);
  }

  lemma SweepsOfApartPrefixes(
    cfg: Config, objects: set<string>, o1: Owner, k1: Option<string>, r1: set<string>, o2: Owner, k2: Option<string>,
    r2: set<string>)
    requires forall key :: key in objects ==> !(PrefixOf(o1) <= key && PrefixOf(o2) <= key)
    ensures var a := objects - Stale(objects, PrefixOf(o1), k1) * r1;
            var b := objects - Stale(objects, PrefixOf(o2), k2) * r2;
            a - Stale(a, PrefixOf(o2), k2) * r2 == b - Stale(b, PrefixOf(o1), k1) * r1
  {
  }

  // ---------------------------------------------------------------- what saving does to its own object

  /**
    Saving any URL of a managed object keeps that object exactly if the previous avatar was not the
    same object under another spelling of its URL.
  */
  lemma SavedObjectSurvivesIff(
    cfg: Config, s: Avatars, actor: UuidText, target: Target, manages: bool, url: Option<string>, storage: Storage,
    key: string)
    requires cfg.bucket != "" && storage.cleanupWorks && key in s.objects && KeyOf(cfg.base, url) == Some(key)
    requires Saved(cfg, s, actor, target, manages, url, storage).Ok?
    ensures var previous := s.urls[OwnerOf(actor, target)];
            key in Saved(cfg, s, actor, target, manages, url, storage).value.objects <==>
            Blank(previous) || previous == url || KeyOf(cfg.base, previous) != Some(key)
  {
    SaveDeletesIff(cfg, s, actor, target, manages, url, storage, key);
  }

  /**
    Saving the URL handed out for an upload, with a sweep that gets through: the uploaded object
    survives exactly if the configured base is usable.
  */
  lemma OwnUploadSurvivesIff(
    cfg: Config, s: Avatars, actor: UuidText, target: Target, manages: bool, key: string, storage: Storage)
    requires cfg.bucket != "" && cfg.base != "" && PlainKey(key) && PrefixOf(OwnerOf(actor, target)) <= key
    requires key in s.objects && key in storage.reached
    requires Saved(cfg, s, actor, target, manages, Some(UrlFor(cfg.base, key)), storage).Ok?
    requires Replaced(cfg, s.urls[OwnerOf(actor, target)], Some(UrlFor(cfg.base, key))) != Some(key)
    ensures key in Saved(cfg, s, actor, target, manages, Some(UrlFor(cfg.base, key)), storage).value.objects <==>
            UsableBase(cfg.base)
  {
    RoundTripIff(cfg.base, key);
    SaveDeletesIff(cfg, s, actor, target, manages, Some(UrlFor(cfg.base, key)), storage, key);
  }

  // ---------------------------------------------------------------- a borrowed URL

  lemma AtMostOne<T>(s: set<T>)
    requires forall x, y :: x in s && y in s ==> x == y
    ensures |s| <= 1
  {
    if s != {} {
      var x :| x in s;
      assert s == {x};
    }
  }

  /** With a consistent ledger no query by user and URL meets two rows. */
  lemma CommitSucceeds(cfg: Config, rows: map<UuidText, Row>, issued: Issued, actor: UuidText, url: Option<string>)
    requires LedgerConsistent(cfg, rows, issued)
    ensures Committed(rows, actor, url).Ok?
  {
    if !Blank(url) {
      var found := Matching(rows, actor, url.value);
      forall r, q | r in found && q in found ensures r == q {
        BuiltUrlsAreDistinct(cfg.base, rows[r].key, rows[q].key);
      }
      AtMostOne(found);
    }
  }

  lemma SaveSucceeds(
    cfg: Config, s: Avatars, issued: Issued, actor: UuidText, url: Option<string>, storage: Storage)
    requires LedgerConsistent(cfg, s.rows, issued) && UserOwner(actor) in s.urls
    ensures Saved(cfg, s, actor, Me, true, url, storage).Ok?
  {
    CommitSucceeds(cfg, s.rows, issued, actor, url);
  }

  /**
    Nothing stops a user from saving the URL of somebody else's avatar. When that user then clears the
    avatar again, the cleanup deletes the object that the other one still points to.
  */
  lemma BorrowedUrlLosesAvatar(cfg: Config, s: Avatars, issued: Issued, borrower: UuidText, o: Owner, key: string)
    requires cfg.bucket != "" && Inv(cfg, s, issued, o) && Live(cfg, s, o, key) && key in s.objects
    requires UserOwner(borrower) in s.urls && s.urls[UserOwner(borrower)] == None && o != UserOwner(borrower)
    ensures var storage := Storage(true, {});
            var first := Saved(cfg, s, borrower, Me, true, s.urls[o], storage);
            && first.Ok?
            && var second := Saved(cfg, first.value, borrower, Me, true, None, storage);
            second.Ok? && Live(cfg, second.value, o, key) && key !in second.value.objects
  {
    var storage, b := Storage(true, {}), UserOwner(borrower);
    SaveSucceeds(cfg, s, issued, borrower, s.urls[o], storage);
    var t := Saved(cfg, s, borrower, Me, true, s.urls[o], storage).value;
    SavedTables(cfg, s, borrower, Me, true, s.urls[o], storage);
    CommitKeepsLedger(cfg, s.rows, issued, borrower, s.urls[o]);
    SaveSucceeds(cfg, t, issued, borrower, None, storage);
    BorrowedOnce(cfg, s, t, b, o, key);
    SaveDeletesIff(cfg, s, borrower, Me, true, s.urls[o], storage, key);
    SaveDeletesIff(cfg, t, borrower, Me, true, None, storage, key);
  }

  lemma BorrowedOnce(cfg: Config, s: Avatars, t: Avatars, b: Owner, o: Owner, key: string)
    requires Live(cfg, s, o, key) && b in s.urls && s.urls[b] == None && b != o && cfg.bucket != ""
    requires t.urls == s.urls[b := s.urls[o]]
    ensures !CleanupHits(cfg, s.urls[b], s.urls[o], true, key) && CleanupHits(cfg, t.urls[b], None, true, key)
    ensures Live(cfg, t, o, key)
  {
  }

  // ---------------------------------------------------------------- a group deletion that fails to commit

  /**
    The route sweeps before the session commits. If the commit fails, the group keeps its avatar, and
    the avatar's object under the group's prefix survives exactly if the sweep did not reach it.
  */
  lemma FailedDeletionSparesIff(cfg: Config, s: Avatars, group: UuidText, reached: set<string>, key: string)
    requires Live(cfg, s, GroupOwner(group), key) && key in s.objects && PrefixOf(GroupOwner(group)) <= key
    ensures var r := GroupDeleted(cfg, s, group, true, reached, false);
            && r.Ok? && Live(cfg, r.value, GroupOwner(group), key)
            && (key in r.value.objects <==> cfg.bucket == "" || cfg.base == "" || key !in reached)
  {
    SweptIff(cfg, s.objects, GroupOwner(group), None, reached, key);
  }
}
