/**
  What each account request means, read off the rows before and after it: exactly when it is refused
  with which error, who is signed in, and exactly what is written.
*/
module AccountsEffects {
  import opened Prelude
  import opened AccountsModel
  import opened AccountsSafety

  ghost predicate Held(a: Accounts, p: Provider, x: string) { exists u :: Holds(a, u, p, x) }

  ghost predicate HeldByOther(a: Accounts, user: Uuid, p: Provider, x: string) {
    exists u :: u != user && Holds(a, u, p, x)
  }

  ghost predicate Taken(a: Accounts, email: string) { exists u :: HasEmail(a, u, email) }

  ghost predicate TakenByOther(a: Accounts, user: Uuid, email: string) {
    exists u :: u != user && HasEmail(a, u, email)
  }

  /** The ways a user can sign in. */
  datatype Way = Password | Through(provider: Provider)

  predicate HasWay(a: Accounts, user: Uuid, way: Way)
    requires user in a.users
  {
    match way
    case Password => var u := a.users[user]; u.email.Some? && u.email.value != "" && u.hash.Some?
    case Through(p) => (p == Steam || p == Discord || p == Apple) && (user, p) in a.identities
  }

  ghost predicate HasTwoWays(a: Accounts, user: Uuid)
    requires user in a.users
  {
    exists v, w :: v != w && HasWay(a, user, v) && HasWay(a, user, w)
  }

  /** The user of this email whose password login is set. */
  ghost predicate PasswordUser(a: Accounts, user: Uuid, email: string) {
    HasEmail(a, user, email) && a.users[user].hash.Some?
  }

  /** An official identity that was last synchronised more than a day ago. */
  predicate Old(a: Accounts, user: Uuid, p: Provider, now: int) {
    && (user, p) in a.identities
    && (var i := a.identities[(user, p)];
        && i.external.Some? && i.external.value != ""
        && (p == Discord ==> i.refreshToken.Some? && i.refreshToken.value != "")
        && (i.syncedAt.Some? ==> now - i.syncedAt.value > 86400))
  }

  // ---------------------------------------------------------------- refusals

  predicate RefreshRefused(a: Accounts, now: int, token: Option<Token>, e: Error) {
    if token.None? || token.value.expires < now then e == RefreshTokenInvalid
    else if token.value.kind == Access then e == RefreshTokenTypeInvalid
    else
      var u := token.value.user;
      && e == RefreshTokenRevoked
      && (u !in a.sessions || a.sessions[u].token != token.value || a.sessions[u].dropAt <= now)
  }

  ghost predicate LinkRefused(a: Accounts, user: Uuid, p: Provider, x: Option<string>, works: bool, e: Error) {
    if user !in a.users then e == UserNotFound
    else if x.None? then e == ProviderInvalid
    else if HeldByOther(a, user, p, x.value) then e == AlreadyLinked
    else !works && e == ProviderUnavailable
  }

  ghost predicate UnlinkRefused(a: Accounts, user: Uuid, e: Error) {
    if user !in a.users then e == UserNotFound else e == LastAuthMethod && !HasTwoWays(a, user)
  }

  /** A login with an id that nobody holds creates a user, unless the id is revoked or the email taken. */
  ghost predicate NewUserRefused(a: Accounts, p: Provider, x: string, email: Option<string>, e: Error) {
    !Held(a, p, x) &&
    if (p, x) in a.revoked then e == RelinkRequired
    else e == UniqueViolation && email.Some? && Taken(a, email.value)
  }

  /** The request is refused with this error, and why. */
  ghost predicate Refused(a: Accounts, now: int, r: Request, e: Error) {
    match r
    case Register(email, _) => e == EmailTaken && Taken(a, email)
    case PasswordLogin(email, matches) =>
      e == InvalidCredentials && (!matches || forall u :: !PasswordUser(a, u, email))
    case RefreshSession(token) => RefreshRefused(a, now, token, e)
    case SteamAuth(id, ok) =>
      if id.None? then e == ProviderInvalid
      else if !Held(a, Steam, id.value) && (Steam, id.value) in a.revoked then e == RelinkRequired
      else e == ProviderUnavailable && !ok
    case DiscordAuth(configured, d) =>
      if !configured then e == ProviderUnavailable
      else if d.None? then e == ProviderInvalid
      else NewUserRefused(a, Discord, d.value.id, d.value.email, e)
    case AppleAuth(info) =>
      if info.None? then e == ProviderInvalid else NewUserRefused(a, Apple, info.value.sub, info.value.email, e)
    case LinkSteam(u, id, ok) => LinkRefused(a, u, Steam, id, ok, e)
    case LinkDiscord(u, d) => LinkRefused(a, u, Discord, if d.Some? then Some(d.value.id) else None, true, e)
    case LinkApple(u, info) => LinkRefused(a, u, Apple, if info.Some? then Some(info.value.sub) else None, true, e)
    case UnlinkSteam(u) => UnlinkRefused(a, u, e)
    case UnlinkDiscord(u) => UnlinkRefused(a, u, e)
    case UnlinkApple(u) => UnlinkRefused(a, u, e)
    case SetEmailPassword(u, email, _) =>
      if u !in a.users then e == UserNotFound
      else if HasWay(a, u, Password) then e == EmailPasswordAlreadySet
      else e == EmailTaken && TakenByOther(a, u, email)
    case ChangeEmail(u, email) =>
      if u !in a.users then e == UserNotFound else e == EmailTaken && TakenByOther(a, u, email)
    case PutManualIdentity(u, p, _, ok) =>
      if u !in a.users then e == UserNotFound
      else e == ManualIdentityInvalid && (p == Steam || p == Discord || p == Apple || !ok)
    case DeleteManualIdentity(u, p) =>
      if u !in a.users then e == UserNotFound
      else e == ManualIdentityInvalid && (p == Steam || p == Discord || p == Apple)
    case ViewOwnProfile(u, ok, d) =>
      if u !in a.users then e == UserNotFound
      else e == ProviderUnavailable && ((Old(a, u, Discord, now) && d.None?) || (Old(a, u, Steam, now) && !ok))
    case ViewUser(u) => u !in a.users && e == UserNotFound
  }

  // ---------------------------------------------------------------- lookups

  /** The lookup by email finds the one user that has it. */
  ghost predicate EmailLookup(a: Accounts, email: string) {
    && (ByEmail(a, email).Some? <==> Taken(a, email))
    && (forall u: Uuid :: HasEmail(a, u, email) <==> ByEmail(a, email) == Some(u))
    && (forall u: Uuid :: TakenByOther(a, u, email) <==> ByEmail(a, email).Some? && ByEmail(a, email).value != u)
  }

  lemma EmailIs(a: Accounts, email: string)
    requires UniqueEmails(a)
    ensures EmailLookup(a, email)
  {
    forall u: Uuid | HasEmail(a, u, email) ensures ByEmail(a, email) == Some(u) {}
  }

  /** The lookups by external id, by row and by column, find the one user that holds it. */
  ghost predicate HolderLookup(a: Accounts, p: Provider, x: string) {
    var h := Holder(a, p, x);
    && h.Ok? && (h.value.Some? <==> Held(a, p, x))
    && (forall u: Uuid :: Holds(a, u, p, x) <==> h.value == Some(u))
    && (forall u: Uuid :: HeldByOther(a, u, p, x) <==> h.value.Some? && h.value.value != u)
    && (h.value.Some? ==> h.value.value in a.users && (p, x) !in a.revoked)
    && (p == Steam ==> BySteam(a, x) == h.value) && (p == Apple ==> ByApple(a, x) == h.value)
  }

  lemma HolderIs(a: Accounts, p: Provider, x: string)
    requires Inv(a) && SupportsLogin(p)
    ensures HolderLookup(a, p, x)
  {
    HolderIsTheHolder(a, p, x);
    BySteamIsTheHolder(a, x);
    ByAppleIsTheHolder(a, x);
    var h := Holder(a, p, x).value;
    if h.Some? {
      HeldIsNotRevoked(a, p, x);
      assert (h.value, p) in a.identities;
    }
    LookupOfHolder(a, p, x);
  }

  lemma LookupOfHolder(a: Accounts, p: Provider, x: string)
    requires var h := Holder(a, p, x);
             && h.Ok? && (forall u: Uuid :: Holds(a, u, p, x) ==> h == Ok(Some(u)))
             && (h.value.Some? ==>
                   Holds(a, h.value.value, p, x) && h.value.value in a.users && (p, x) !in a.revoked)
             && (p == Steam ==> BySteam(a, x) == h.value) && (p == Apple ==> ByApple(a, x) == h.value)
    ensures HolderLookup(a, p, x)
  {
  }

  lemma HeldIsNotRevoked(a: Accounts, p: Provider, x: string)
    requires LinkedNotRevoked(a) && SupportsLogin(p) && Held(a, p, x)
    ensures (p, x) !in a.revoked
  {
    var u :| Holds(a, u, p, x);
    assert (p, External(a, u, p).value) !in a.revoked;
  }

  /** The count of login methods, against the ways themselves. */
  lemma WaysAreCounted(a: Accounts, user: Uuid)
    requires user in a.users
    ensures AuthMethods(a, user) >= 2 <==> HasTwoWays(a, user)
  {
    var w0, w1, w2, w3 := Password, Through(Steam), Through(Discord), Through(Apple);
    var b0, b1 := HasWay(a, user, w0), HasWay(a, user, w1);
    var b2, b3 := HasWay(a, user, w2), HasWay(a, user, w3);
    assert AuthMethods(a, user) == One(b0) + One(b1) + One(b2) + One(b3);
    assert forall w :: HasWay(a, user, w) ==> w == w0 || w == w1 || w == w2 || w == w3;
    if AuthMethods(a, user) >= 2 {
      assert (b0 && b1) || (b0 && b2) || (b0 && b3) || (b1 && b2) || (b1 && b3) || (b2 && b3);
    }
  }

  // ---------------------------------------------------------------- exactly when a request is refused

  lemma RegisterRefusedIff(a: Accounts, now: int, email: Email, hash: Hash, e: Error)
    requires EmailLookup(a, email)
    ensures Registered(a, now, email, hash) == Err(e) <==> Refused(a, now, Register(email, hash), e)
  {
  }

  lemma PasswordRefusedIff(a: Accounts, now: int, email: Email, matches: bool, e: Error)
    requires EmailLookup(a, email)
    ensures LoggedIn(a, now, email, matches) == Err(e) <==> Refused(a, now, PasswordLogin(email, matches), e)
  {
    var u := ByEmail(a, email);
    if u.Some? {
      assert PasswordUser(a, u.value, email) <==> a.users[u.value].hash.Some?;
    }
  }

  lemma RefreshRefusedIff(a: Accounts, now: int, token: Option<Token>, e: Error)
    requires forall u :: u in a.sessions ==> u in a.users
    ensures Refreshed(a, now, token) == Err(e) <==> RefreshRefused(a, now, token, e)
  {
  }

  lemma SteamLoginRefusedIff(a: Accounts, now: int, id: Option<string>, ok: bool, e: Error)
    requires id.Some? ==> HolderLookup(a, Steam, id.value)
    ensures SteamSignedIn(a, now, id, ok) == Err(e) <==> Refused(a, now, SteamAuth(id, ok), e)
  {
  }

  lemma DiscordLoginRefusedIff(a: Accounts, now: int, configured: bool, d: Option<DiscordProfile>, e: Error)
    requires d.Some? ==> HolderLookup(a, Discord, d.value.id)
    requires d.Some? && d.value.email.Some? ==> EmailLookup(a, d.value.email.value)
    ensures DiscordSignedIn(a, now, configured, d) == Err(e) <==> Refused(a, now, DiscordAuth(configured, d), e)
  {
  }

  lemma AppleLoginRefusedIff(a: Accounts, now: int, info: Option<AppleInfo>, e: Error)
    requires info.Some? ==> HolderLookup(a, Apple, info.value.sub)
    requires info.Some? && info.value.email.Some? ==> EmailLookup(a, info.value.email.value)
    ensures AppleSignedIn(a, now, info) == Err(e) <==> Refused(a, now, AppleAuth(info), e)
  {
  }

  lemma SteamLinkRefusedIff(a: Accounts, now: int, u: Uuid, id: Option<string>, ok: bool, e: Error)
    requires id.Some? ==> HolderLookup(a, Steam, id.value)
    ensures SteamLinked(a, now, u, id, ok) == Err(e) <==> Refused(a, now, LinkSteam(u, id, ok), e)
  {
  }

  lemma DiscordLinkRefusedIff(a: Accounts, now: int, u: Uuid, d: Option<DiscordProfile>, e: Error)
    requires d.Some? ==> HolderLookup(a, Discord, d.value.id)
    ensures DiscordLinked(a, now, u, d) == Err(e) <==> Refused(a, now, LinkDiscord(u, d), e)
  {
  }

  lemma AppleLinkRefusedIff(a: Accounts, now: int, u: Uuid, info: Option<AppleInfo>, e: Error)
    requires info.Some? ==> HolderLookup(a, Apple, info.value.sub)
    ensures AppleLinked(a, u, info) == Err(e) <==> Refused(a, now, LinkApple(u, info), e)
  {
  }

  lemma UnlinkRefusedIff(a: Accounts, now: int, r: Request, e: Error)
    requires r.UnlinkSteam? || r.UnlinkDiscord? || r.UnlinkApple?
    ensures Step(a, now, r) == Err(e) <==> Refused(a, now, r, e)
  {
    if r.user in a.users {
      WaysAreCounted(a, r.user);
    }
  }

  lemma EmailPasswordRefusedIff(a: Accounts, now: int, u: Uuid, email: Email, hash: Hash, e: Error)
    requires EmailLookup(a, email)
    ensures EmailPasswordSet(a, u, email, hash) == Err(e) <==> Refused(a, now, SetEmailPassword(u, email, hash), e)
  {
  }

  lemma EmailChangeRefusedIff(a: Accounts, now: int, u: Uuid, email: Email, e: Error)
    requires EmailLookup(a, email)
    ensures EmailChanged(a, u, email) == Err(e) <==> Refused(a, now, ChangeEmail(u, email), e)
  {
    if u in a.users && a.users[u].email == Some(email) {
      assert HasEmail(a, u, email);
    }
  }

  lemma ManualRefusedIff(a: Accounts, now: int, r: Request, e: Error)
    requires r.PutManualIdentity? || r.DeleteManualIdentity?
    ensures Step(a, now, r) == Err(e) <==> Refused(a, now, r, e)
  {
  }

  lemma OldIsDue(a: Accounts, user: Uuid, now: int)
    ensures Old(a, user, Discord, now) <==> DiscordDue(a, user, now)
    ensures Old(a, user, Steam, now) <==> SteamDue(a, user, now)
  {
  }

  lemma ViewRefusedIff(a: Accounts, now: int, r: Request, e: Error)
    requires r.ViewOwnProfile? || r.ViewUser?
    requires r.user in a.users ==> LegacySynced(a, r.user) == a
    ensures Step(a, now, r) == Err(e) <==> Refused(a, now, r, e)
  {
    OldIsDue(a, r.user, now);
  }

  lemma LoginRefusedIff(a: Accounts, now: int, r: Request, e: Error)
    requires Inv(a) && StartsSession(r)
    ensures Step(a, now, r) == Err(e) <==> Refused(a, now, r, e)
  {
    match r
    case Register(email, hash) =>
      EmailIs(a, email);
      RegisterRefusedIff(a, now, email, hash, e);
    case PasswordLogin(email, matches) =>
      EmailIs(a, email);
      PasswordRefusedIff(a, now, email, matches, e);
    case RefreshSession(token) => RefreshRefusedIff(a, now, token, e);
    case SteamAuth(id, ok) =>
      if id.Some? {
        HolderIs(a, Steam, id.value);
      }
      SteamLoginRefusedIff(a, now, id, ok, e);
    case DiscordAuth(configured, d) =>
      if d.Some? {
        HolderIs(a, Discord, d.value.id);
        EmailIs(a, if d.value.email.Some? then d.value.email.value else "");
      }
      DiscordLoginRefusedIff(a, now, configured, d, e);
    case AppleAuth(info) =>
      if info.Some? {
        HolderIs(a, Apple, info.value.sub);
        EmailIs(a, if info.value.email.Some? then info.value.email.value else "");
      }
      AppleLoginRefusedIff(a, now, info, e);
  }

  lemma LinkStepRefusedIff(a: Accounts, now: int, r: Request, e: Error)
    requires Inv(a) && (r.LinkSteam? || r.LinkDiscord? || r.LinkApple?)
    ensures Step(a, now, r) == Err(e) <==> Refused(a, now, r, e)
  {
    match r
    case LinkSteam(u, id, ok) =>
      if id.Some? {
        HolderIs(a, Steam, id.value);
      }
      SteamLinkRefusedIff(a, now, u, id, ok, e);
    case LinkDiscord(u, d) =>
      if d.Some? {
        HolderIs(a, Discord, d.value.id);
      }
      DiscordLinkRefusedIff(a, now, u, d, e);
    case LinkApple(u, info) =>
      if info.Some? {
        HolderIs(a, Apple, info.value.sub);
      }
      AppleLinkRefusedIff(a, now, u, info, e);
  }

  lemma ProfileRefusedIff(a: Accounts, now: int, r: Request, e: Error)
    requires Inv(a) && !StartsSession(r) && !ChangesLinks(r)
    ensures Step(a, now, r) == Err(e) <==> Refused(a, now, r, e)
  {
    match r
    case SetEmailPassword(u, email, hash) =>
      EmailIs(a, email);
      EmailPasswordRefusedIff(a, now, u, email, hash, e);
    case ChangeEmail(u, email) =>
      EmailIs(a, email);
      EmailChangeRefusedIff(a, now, u, email, e);
    case PutManualIdentity(_, _, _, _) => ManualRefusedIff(a, now, r, e);
    case DeleteManualIdentity(_, _) => ManualRefusedIff(a, now, r, e);
    case ViewOwnProfile(u, _, _) =>
      if u in a.users {
        LegacySyncIsNoOp(a, u);
      }
      ViewRefusedIff(a, now, r, e);
    case ViewUser(u) =>
      if u in a.users {
        LegacySyncIsNoOp(a, u);
      }
      ViewRefusedIff(a, now, r, e);
  }

  /** For every request and every error: it is refused with that error exactly for the stated reason. */
  lemma RefusedIff(a: Accounts, now: int, r: Request, e: Error)
    requires Inv(a)
    ensures Step(a, now, r) == Err(e) <==> Refused(a, now, r, e)
  {
    if StartsSession(r) {
      LoginRefusedIff(a, now, r, e);
    } else if r.LinkSteam? || r.LinkDiscord? || r.LinkApple? {
      LinkStepRefusedIff(a, now, r, e);
    } else if ChangesLinks(r) {
      UnlinkRefusedIff(a, now, r, e);
    } else {
      ProfileRefusedIff(a, now, r, e);
    }
  }

  // ---------------------------------------------------------------- who is signed in, and what is written

  /** Entry `k` is there afterwards, and every other entry is as before. */
  ghost predicate OnePut<K, V>(before: map<K, V>, after: map<K, V>, k: K) {
    after.Keys == before.Keys + {k} && forall j :: j in before && j != k ==> after[j] == before[j]
  }

  ghost predicate OneGone<K, V>(before: map<K, V>, after: map<K, V>, k: K) {
    after.Keys == before.Keys - {k} && forall j :: j in after ==> after[j] == before[j]
  }

  /** The user, and nobody else, has a new refresh token, which is good for the configured number of days. */
  ghost predicate SessionFor(a: Accounts, b: Accounts, user: Uuid, now: int) {
    && OnePut(a.sessions, b.sessions, user)
    && (var slot := b.sessions[user];
        && slot.token.user == user && slot.token.kind == Refresh
        && slot.token.expires == now + a.refreshDays * 86400 && slot.dropAt == now + a.refreshDays * 86400)
  }

  predicate Row(u: User, email: Option<string>, hash: Option<Hash>, steam: Option<string>, apple: Option<string>) {
    u.email == email && u.hash == hash && u.steam == steam && u.apple == apple
  }

  ghost predicate Registers(a: Accounts, now: int, r: Request, b: Accounts, who: Option<Uuid>)
    requires r.Register?
  {
    && who == Some(a.nextId) && a.nextId !in a.users && b.nextId == a.nextId + 1
    && OnePut(a.users, b.users, a.nextId) && Row(b.users[a.nextId], Some(r.email), Some(r.hash), None, None)
    && b.identities == a.identities && b.revoked == a.revoked && SessionFor(a, b, a.nextId, now)
  }

  /** Nothing but the session of this user changes. */
  ghost predicate OnlySession(a: Accounts, now: int, b: Accounts, user: Uuid) {
    && b.users == a.users && b.identities == a.identities && b.revoked == a.revoked && b.nextId == a.nextId
    && SessionFor(a, b, user, now)
  }

  /** What a provider's answer amounts to. */
  datatype Grant = Grant(
    provider: Provider, external: string, email: Option<string>, token: Option<string>, syncedAt: Option<int>)

  predicate Shows(i: Identity, g: Grant) {
    i.external == Some(g.external) && i.refreshToken == g.token && i.syncedAt == g.syncedAt
  }

  /** The holder of the id is signed in; if there is none, a new user, who then holds it. */
  ghost predicate SignsInHolder(a: Accounts, now: int, g: Grant, b: Accounts, who: Option<Uuid>) {
    var p, x := g.provider, g.external;
    && who.Some? && SessionFor(a, b, who.value, now)
    && OnePut(a.identities, b.identities, (who.value, p)) && Shows(b.identities[(who.value, p)], g)
    && b.revoked == a.revoked && (p, x) !in a.revoked
    && if Held(a, p, x) then Holds(a, who.value, p, x) && b.users == a.users && b.nextId == a.nextId
       else
         && who.value == a.nextId && a.nextId !in a.users && b.nextId == a.nextId + 1
         && OnePut(a.users, b.users, a.nextId)
         && Row(b.users[a.nextId], g.email, None, if p == Steam then Some(x) else None,
                if p == Apple then Some(x) else None)
  }

  /** The user gets column and identity of the id, which is no longer revoked. */
  ghost predicate Links(a: Accounts, user: Uuid, g: Grant, b: Accounts, who: Option<Uuid>) {
    var p, x := g.provider, g.external;
    && who.None? && user in a.users && OnePut(a.users, b.users, user)
    && (var u := a.users[user];
        Row(b.users[user], u.email, u.hash, if p == Steam then Some(x) else u.steam,
            if p == Apple then Some(x) else u.apple))
    && OnePut(a.identities, b.identities, (user, p)) && Shows(b.identities[(user, p)], g)
    && OneGone(a.revoked, b.revoked, (p, x)) && b.sessions == a.sessions && b.nextId == a.nextId
  }

  /** Column and identity go and the id is revoked; without a link nothing happens. */
  ghost predicate Unlinked(a: Accounts, user: Uuid, p: Provider, b: Accounts, who: Option<Uuid>) {
    && who.None? && user in a.users && b.sessions == a.sessions && b.nextId == a.nextId
    && if External(a, user, p).None? then b == a
       else
         && OnePut(a.users, b.users, user)
         && (var u := a.users[user];
             Row(b.users[user], u.email, u.hash, if p == Steam then None else u.steam,
                 if p == Apple then None else u.apple))
         && OneGone(a.identities, b.identities, (user, p))
         && OnePut(a.revoked, b.revoked, (p, External(a, user, p).value))
         && b.revoked[(p, External(a, user, p).value)] == user
  }

  ghost predicate EmailWritten(a: Accounts, user: Uuid, email: string, hash: Option<Hash>, b: Accounts) {
    && user in a.users && OnePut(a.users, b.users, user)
    && (var u := a.users[user]; Row(b.users[user], Some(email), hash, u.steam, u.apple))
    && b.identities == a.identities && b.revoked == a.revoked && b.sessions == a.sessions && b.nextId == a.nextId
  }

  ghost predicate OnlyIdentities(a: Accounts, b: Accounts) {
    b.users == a.users && b.revoked == a.revoked && b.sessions == a.sessions && b.nextId == a.nextId
  }

  /** Identities last synchronised more than a day ago get the provider's answer; the others stay. */
  ghost predicate Resynchronised(a: Accounts, now: int, user: Uuid, d: Option<DiscordProfile>, b: Accounts) {
    && OnlyIdentities(a, b) && b.identities.Keys == a.identities.Keys
    && (forall k :: k in a.identities && k != (user, Discord) && k != (user, Steam) ==>
          b.identities[k] == a.identities[k])
    && ((user, Steam) in a.identities ==>
          var x, y := a.identities[(user, Steam)], b.identities[(user, Steam)];
          if Old(a, user, Steam, now) then
            y.external == x.external && y.refreshToken == None && y.syncedAt == Some(now)
          else y == x)
    && ((user, Discord) in a.identities ==>
          var x, y := a.identities[(user, Discord)], b.identities[(user, Discord)];
          if Old(a, user, Discord, now) then
            && d.Some? && y.external == Some(d.value.id) && y.syncedAt == Some(now)
            && y.refreshToken == if d.value.refreshToken.Some? then d.value.refreshToken else x.refreshToken
          else y == x)
  }

  /** Exactly who is signed in and what is written. */
  ghost predicate Means(a: Accounts, now: int, r: Request, b: Accounts, who: Option<Uuid>) {
    && b.refreshDays == a.refreshDays
    && match r
       case Register(_, _) => Registers(a, now, r, b, who)
       case PasswordLogin(email, matches) =>
         matches && who.Some? && PasswordUser(a, who.value, email) && OnlySession(a, now, b, who.value)
       case RefreshSession(token) => token.Some? && who == Some(token.value.user) && OnlySession(a, now, b, who.value)
       case SteamAuth(id, _) => id.Some? && SignsInHolder(a, now, Grant(Steam, id.value, None, None, Some(now)), b, who)
       case DiscordAuth(_, d) =>
         && d.Some?
         && SignsInHolder(a, now, Grant(Discord, d.value.id, d.value.email, d.value.refreshToken, Some(now)), b, who)
       case AppleAuth(info) =>
         info.Some? && SignsInHolder(a, now, Grant(Apple, info.value.sub, info.value.email, None, None), b, who)
       case LinkSteam(u, id, _) => id.Some? && Links(a, u, Grant(Steam, id.value, None, None, Some(now)), b, who)
       case LinkDiscord(u, d) =>
         d.Some? && Links(a, u, Grant(Discord, d.value.id, None, d.value.refreshToken, Some(now)), b, who)
       case LinkApple(u, info) => info.Some? && Links(a, u, Grant(Apple, info.value.sub, None, None, None), b, who)
       case UnlinkSteam(u) => Unlinked(a, u, Steam, b, who)
       case UnlinkDiscord(u) => Unlinked(a, u, Discord, b, who)
       case UnlinkApple(u) => Unlinked(a, u, Apple, b, who)
       case SetEmailPassword(u, email, hash) => who.None? && EmailWritten(a, u, email, Some(hash), b)
       case ChangeEmail(u, email) => who.None? && u in a.users && EmailWritten(a, u, email, a.users[u].hash, b)
       case PutManualIdentity(u, p, x, _) =>
         && who.None? && OnlyIdentities(a, b) && OnePut(a.identities, b.identities, (u, p))
         && b.identities[(u, p)].external == x && b.identities[(u, p)].refreshToken == None
         && b.identities[(u, p)].syncedAt == None
       case DeleteManualIdentity(u, p) =>
         who.None? && OnlyIdentities(a, b) && OneGone(a.identities, b.identities, (u, p))
       case ViewOwnProfile(u, _, d) => who.None? && Resynchronised(a, now, u, d, b)
       case ViewUser(_) => who.None? && b == a
  }

  ghost predicate Meant(a: Accounts, now: int, r: Request, result: Result<Outcome, Error>) {
    result.Ok? ==> Means(a, now, r, result.value.accounts, result.value.signedIn)
  }

  lemma RegisterMeans(a: Accounts, now: int, email: Email, hash: Hash)
    requires a.nextId !in a.users
    ensures Meant(a, now, Register(email, hash), Registered(a, now, email, hash))
  {
  }

  lemma PasswordMeans(a: Accounts, now: int, email: Email, matches: bool)
    ensures Meant(a, now, PasswordLogin(email, matches), LoggedIn(a, now, email, matches))
  {
  }

  lemma RefreshMeans(a: Accounts, now: int, token: Option<Token>)
    ensures Meant(a, now, RefreshSession(token), Refreshed(a, now, token))
  {
  }

  lemma SteamLoginMeans(a: Accounts, now: int, id: Option<string>, ok: bool)
    requires a.nextId !in a.users
    requires id.Some? ==> HolderLookup(a, Steam, id.value)
    requires forall u: Uuid, x :: Holds(a, u, Steam, x) && u in a.users ==> a.users[u].steam == Some(x)
    ensures Meant(a, now, SteamAuth(id, ok), SteamSignedIn(a, now, id, ok))
  {
    if id.Some? && Holder(a, Steam, id.value).value.Some? {
      var u := Holder(a, Steam, id.value).value.value;
      assert Holds(a, u, Steam, id.value);
      assert a.users[u := a.users[u].(steam := id)] == a.users;
    }
  }

  lemma DiscordHolderMeans(a: Accounts, now: int, d: DiscordProfile)
    requires HolderLookup(a, Discord, d.id) && Held(a, Discord, d.id)
    ensures Meant(a, now, DiscordAuth(true, Some(d)), DiscordSignedIn(a, now, true, Some(d)))
  {
    assert a.revoked - {(Discord, d.id)} == a.revoked;
    assert Holds(a, Holder(a, Discord, d.id).value.value, Discord, d.id);
  }

  lemma DiscordNewcomerMeans(a: Accounts, now: int, d: DiscordProfile)
    requires a.nextId !in a.users && HolderLookup(a, Discord, d.id) && !Held(a, Discord, d.id)
    ensures Meant(a, now, DiscordAuth(true, Some(d)), DiscordSignedIn(a, now, true, Some(d)))
  {
    if (Discord, d.id) !in a.revoked {
      assert a.revoked - {(Discord, d.id)} == a.revoked;
    }
  }

  lemma AppleHolderMeans(a: Accounts, now: int, info: AppleInfo)
    requires HolderLookup(a, Apple, info.sub) && Held(a, Apple, info.sub)
    ensures Meant(a, now, AppleAuth(Some(info)), AppleSignedIn(a, now, Some(info)))
  {
    assert Holds(a, Holder(a, Apple, info.sub).value.value, Apple, info.sub);
  }

  lemma AppleNewcomerMeans(a: Accounts, now: int, info: AppleInfo)
    requires a.nextId !in a.users && HolderLookup(a, Apple, info.sub) && !Held(a, Apple, info.sub)
    ensures Meant(a, now, AppleAuth(Some(info)), AppleSignedIn(a, now, Some(info)))
  {
  }

  lemma DiscordLoginMeans(a: Accounts, now: int, configured: bool, d: Option<DiscordProfile>)
    requires a.nextId !in a.users
    requires d.Some? ==> HolderLookup(a, Discord, d.value.id)
    ensures Meant(a, now, DiscordAuth(configured, d), DiscordSignedIn(a, now, configured, d))
  {
    if configured && d.Some? {
      if Held(a, Discord, d.value.id) {
        DiscordHolderMeans(a, now, d.value);
      } else {
        DiscordNewcomerMeans(a, now, d.value);
      }
    }
  }

  lemma AppleLoginMeans(a: Accounts, now: int, info: Option<AppleInfo>)
    requires a.nextId !in a.users
    requires info.Some? ==> HolderLookup(a, Apple, info.value.sub)
    ensures Meant(a, now, AppleAuth(info), AppleSignedIn(a, now, info))
  {
    if info.Some? {
      if Held(a, Apple, info.value.sub) {
        AppleHolderMeans(a, now, info.value);
      } else {
        AppleNewcomerMeans(a, now, info.value);
      }
    }
  }

  lemma SteamLinkMeans(a: Accounts, now: int, u: Uuid, id: Option<string>, ok: bool)
    ensures Meant(a, now, LinkSteam(u, id, ok), SteamLinked(a, now, u, id, ok))
  {
  }

  lemma DiscordLinkMeans(a: Accounts, now: int, u: Uuid, d: Option<DiscordProfile>)
    ensures Meant(a, now, LinkDiscord(u, d), DiscordLinked(a, now, u, d))
  {
  }

  lemma AppleLinkMeans(a: Accounts, now: int, u: Uuid, info: Option<AppleInfo>)
    ensures Meant(a, now, LinkApple(u, info), AppleLinked(a, u, info))
  {
  }

  lemma SteamUnlinkMeans(a: Accounts, now: int, u: Uuid)
    requires u in a.users ==> a.users[u].steam == External(a, u, Steam)
    ensures Meant(a, now, UnlinkSteam(u), SteamUnlinked(a, u))
  {
  }

  lemma DiscordUnlinkMeans(a: Accounts, now: int, u: Uuid)
    ensures Meant(a, now, UnlinkDiscord(u), DiscordUnlinked(a, u))
  {
  }

  lemma AppleUnlinkMeans(a: Accounts, now: int, u: Uuid)
    requires u in a.users ==> a.users[u].apple == External(a, u, Apple)
    ensures Meant(a, now, UnlinkApple(u), AppleUnlinked(a, u))
  {
  }

  lemma EmailMeans(a: Accounts, now: int, r: Request)
    requires r.SetEmailPassword? || r.ChangeEmail? || r.PutManualIdentity? || r.DeleteManualIdentity?
    ensures Meant(a, now, r, Step(a, now, r))
  {
  }

  lemma ViewMeans(a: Accounts, now: int, r: Request)
    requires r.ViewOwnProfile? || r.ViewUser?
    requires r.user in a.users ==> LegacySynced(a, r.user) == a
    ensures Meant(a, now, r, Step(a, now, r))
  {
    OldIsDue(a, r.user, now);
  }

  lemma LoginMeans(a: Accounts, now: int, r: Request)
    requires Inv(a) && StartsSession(r)
    ensures Meant(a, now, r, Step(a, now, r))
  {
    match r
    case Register(email, hash) => RegisterMeans(a, now, email, hash);
    case PasswordLogin(email, matches) => PasswordMeans(a, now, email, matches);
    case RefreshSession(token) => RefreshMeans(a, now, token);
    case SteamAuth(id, ok) =>
      if id.Some? {
        HolderIs(a, Steam, id.value);
      }
      SteamLoginMeans(a, now, id, ok);
    case DiscordAuth(configured, d) =>
      if d.Some? {
        HolderIs(a, Discord, d.value.id);
      }
      DiscordLoginMeans(a, now, configured, d);
    case AppleAuth(info) =>
      if info.Some? {
        HolderIs(a, Apple, info.value.sub);
      }
      AppleLoginMeans(a, now, info);
  }

  lemma LinkStepMeans(a: Accounts, now: int, r: Request)
    requires Inv(a) && ChangesLinks(r)
    ensures Meant(a, now, r, Step(a, now, r))
  {
    match r
    case LinkSteam(u, id, ok) => SteamLinkMeans(a, now, u, id, ok);
    case LinkDiscord(u, d) => DiscordLinkMeans(a, now, u, d);
    case LinkApple(u, info) => AppleLinkMeans(a, now, u, info);
    case UnlinkSteam(u) => SteamUnlinkMeans(a, now, u);
    case UnlinkDiscord(u) => DiscordUnlinkMeans(a, now, u);
    case UnlinkApple(u) => AppleUnlinkMeans(a, now, u);
  }

  /** Every successful request signs in whom it should, and writes exactly what it says. */
  lemma StepMeans(a: Accounts, now: int, r: Request)
    requires Inv(a)
    ensures Meant(a, now, r, Step(a, now, r))
  {
    if StartsSession(r) {
      LoginMeans(a, now, r);
    } else if ChangesLinks(r) {
      LinkStepMeans(a, now, r);
    } else if r.ViewOwnProfile? || r.ViewUser? {
      if r.user in a.users {
        LegacySyncIsNoOp(a, r.user);
      }
      ViewMeans(a, now, r);
    } else {
      EmailMeans(a, now, r);
    }
  }

  /** On any tables: the legacy synchronisation adds the rows that a non-empty column lacks, and nothing else. */
  lemma LegacySyncFills(a: Accounts, user: Uuid)
    requires user in a.users
    ensures var b, u := LegacySynced(a, user), a.users[user];
            && OnlyIdentities(a, b) && b.refreshDays == a.refreshDays
            && (forall k :: k in a.identities ==> k in b.identities && b.identities[k] == a.identities[k])
            && (forall k :: k in b.identities && k !in a.identities ==>
                  && k.0 == user && (k.1 == Steam || k.1 == Apple)
                  && (var column := if k.1 == Steam then u.steam else u.apple;
                      && column.Some? && column.value != "" && b.identities[k].external == column
                      && b.identities[k].refreshToken == None && b.identities[k].syncedAt == None))
            && (u.steam.Some? && u.steam.value != "" ==> (user, Steam) in b.identities)
            && (u.apple.Some? && u.apple.value != "" ==> (user, Apple) in b.identities)
  {
  }
}
