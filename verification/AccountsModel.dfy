/**
  Users, linked provider identities, revoked links and refresh-token slots: the tables and every
  request that changes them. What providers, bcrypt and JWT validation answer is part of a request.
*/
module AccountsModel {
  import opened Prelude

  datatype Provider = Steam | Discord | Apple | Xbox | PlayStation | Nintendo

  predicate SupportsLogin(p: Provider) { p.Steam? || p.Discord? || p.Apple? }

  /** The request schemas only let syntactically valid, hence non-empty, addresses through. */
  type Email = s: string | s != "" witness "a@b"

  /** A password hash is opaque and never empty. */
  type Hash = nat

  datatype User = User(email: Option<string>, hash: Option<Hash>, steam: Option<string>, apple: Option<string>)

  datatype Identity = Identity(external: Option<string>, refreshToken: Option<string>, syncedAt: Option<int>)

  datatype TokenKind = Access | Refresh

  /** A signed token carries its user, its expiry in whole seconds and its kind, and nothing else. */
  datatype Token = Token(user: Uuid, expires: int, kind: TokenKind)

  datatype Slot = Slot(token: Token, dropAt: int)

  /** The setting `refresh_token_expire_days`; SETEX refuses a lifetime that is not positive. */
  type Days = d: int | d > 0 witness 30

  const STALE_SECONDS: int := 24 * 60 * 60

  type IdentityKey = (Uuid, Provider)
  type Link = (Provider, string)

  /**
    `identities` is keyed by the unique (user, provider), `revoked` by the unique (provider, external id).
    The lifetime of refresh tokens stands beside the tables; no request changes it.
  */
  datatype Accounts = Accounts(
    users: map<Uuid, User>, identities: map<IdentityKey, Identity>, revoked: map<Link, Uuid>,
    sessions: map<Uuid, Slot>, nextId: Uuid, refreshDays: Days)

  function NoAccounts(refreshDays: Days): Accounts { Accounts(map[], map[], map[], map[], 0, refreshDays) }

  datatype Error =
    | EmailTaken | InvalidCredentials
    | RefreshTokenInvalid | RefreshTokenTypeInvalid | RefreshTokenRevoked | RefreshTokenUserNotFound
    | ProviderInvalid | ProviderUnavailable | RelinkRequired | AlreadyLinked
    | EmailPasswordAlreadySet | LastAuthMethod | ManualIdentityInvalid
    | UserNotFound | UniqueViolation | MultipleResults

  datatype DiscordProfile = DiscordProfile(id: string, email: Option<string>, refreshToken: Option<string>)

  datatype AppleInfo = AppleInfo(sub: string, email: Option<string>)

  /** `None` stands for a validation or provider call that failed. */
  datatype Request =
    | Register(email: Email, hash: Hash)
    | PasswordLogin(email: Email, matches: bool)
    | RefreshSession(token: Option<Token>)
    | SteamAuth(steamId: Option<string>, profileOk: bool)
    | DiscordAuth(configured: bool, profile: Option<DiscordProfile>)
    | AppleAuth(info: Option<AppleInfo>)
    | LinkSteam(user: Uuid, steamId: Option<string>, profileOk: bool)
    | LinkDiscord(user: Uuid, profile: Option<DiscordProfile>)
    | LinkApple(user: Uuid, info: Option<AppleInfo>)
    | UnlinkSteam(user: Uuid)
    | UnlinkDiscord(user: Uuid)
    | UnlinkApple(user: Uuid)
    | SetEmailPassword(user: Uuid, email: Email, hash: Hash)
    | ChangeEmail(user: Uuid, email: Email)
    | PutManualIdentity(user: Uuid, provider: Provider, external: Option<string>, acceptable: bool)
    | DeleteManualIdentity(user: Uuid, provider: Provider)
    | ViewOwnProfile(user: Uuid, steamOk: bool, discord: Option<DiscordProfile>)
    | ViewUser(user: Uuid)

  datatype Outcome = Outcome(accounts: Accounts, signedIn: Option<Uuid>)

  // ---------------------------------------------------------------- reads

  function External(a: Accounts, user: Uuid, p: Provider): Option<string> {
    if (user, p) in a.identities then a.identities[(user, p)].external else None
  }

  ghost predicate Holds(a: Accounts, user: Uuid, p: Provider, external: string) {
    External(a, user, p) == Some(external)
  }

  /** `get_by_provider_external_id`: more than one matching row raises. */
  ghost function Holder(a: Accounts, p: Provider, external: string): Result<Option<Uuid>, Error> {
    if exists u :: Holds(a, u, p, external) then
      var u :| Holds(a, u, p, external);
      if exists v :: v != u && Holds(a, v, p, external) then Err(MultipleResults) else Ok(Some(u))
    else Ok(None)
  }

  ghost predicate HasSteam(a: Accounts, user: Uuid, id: string) { user in a.users && a.users[user].steam == Some(id) }
  ghost predicate HasApple(a: Accounts, user: Uuid, id: string) { user in a.users && a.users[user].apple == Some(id) }
  ghost predicate HasEmail(
    a: Accounts, user: Uuid, email: string) { user in a.users && a.users[user].email == Some(email) }

  ghost function BySteam(a: Accounts, id: string): Option<Uuid> {
    if exists u :: HasSteam(a, u, id) then var u :| HasSteam(a, u, id); Some(u) else None
  }

  ghost function ByApple(a: Accounts, id: string): Option<Uuid> {
    if exists u :: HasApple(a, u, id) then var u :| HasApple(a, u, id); Some(u) else None
  }

  ghost function ByEmail(a: Accounts, email: string): Option<Uuid> {
    if exists u :: HasEmail(a, u, email) then var u :| HasEmail(a, u, email); Some(u) else None
  }

  predicate HasPasswordLogin(u: User) { u.email.Some? && u.email.value != "" && u.hash.Some? }

  function One(b: bool): nat { if b then 1 else 0 }

  /** `_count_auth_methods`. */
  function AuthMethods(a: Accounts, user: Uuid): nat
    requires user in a.users
  {
    One(HasPasswordLogin(a.users[user])) + One((user, Steam) in a.identities)
    + One((user, Discord) in a.identities) + One((user, Apple) in a.identities)
  }

  // ---------------------------------------------------------------- writes shared by several requests

  function PutIdentity(a: Accounts, user: Uuid, p: Provider, i: Identity): Accounts {
    a.(identities := a.identities[(user, p) := i])
  }

  function SetUser(a: Accounts, user: Uuid, u: User): Accounts { a.(users := a.users[user := u]) }

  function AddUser(a: Accounts, u: User): Accounts {
    a.(users := a.users[a.nextId := u], nextId := a.nextId + 1)
  }

  function Forget(a: Accounts, link: Link): Accounts { a.(revoked := a.revoked - {link}) }

  /** Issues a token pair; the user's one refresh slot is overwritten. */
  function SignIn(a: Accounts, user: Uuid, now: int): Outcome {
    var expires := now + a.refreshDays * 86400;
    Outcome(
      a.(sessions := a.sessions[user := Slot(Token(user, expires, Refresh), expires)]),
            Some(user))
  }

  function Quiet(a: Accounts): Result<Outcome, Error> { Ok(Outcome(a, None)) }

  // ---------------------------------------------------------------- sign-in requests

  ghost function Registered(a: Accounts, now: int, email: string, hash: Hash): Result<Outcome, Error> {
    if ByEmail(a, email).Some? then Err(EmailTaken)
    else Ok(SignIn(AddUser(a, User(Some(email), Some(hash), None, None)), a.nextId, now))
  }

  ghost function LoggedIn(a: Accounts, now: int, email: string, matches: bool): Result<Outcome, Error> {
    var u := ByEmail(a, email);
    if u.None? || a.users[u.value].hash.None? || !matches then Err(InvalidCredentials)
    else Ok(SignIn(a, u.value, now))
  }

  function Refreshed(a: Accounts, now: int, token: Option<Token>): Result<Outcome, Error> {
    if token.None? || token.value.expires < now then Err(RefreshTokenInvalid)
    else if token.value.kind != Refresh then Err(RefreshTokenTypeInvalid)
    else
      var u := token.value.user;
      if u !in a.sessions || a.sessions[u].dropAt <= now || a.sessions[u].token != token.value
          then Err(RefreshTokenRevoked)
      else if u !in a.users then Err(RefreshTokenUserNotFound)
      else Ok(SignIn(a, u, now))
  }

  ghost function SteamSignedIn(
    a: Accounts, now: int, steamId: Option<string>, profileOk: bool): Result<Outcome, Error> {
    if steamId.None? then Err(ProviderInvalid)
    else
      var id := steamId.value;
      var held := Holder(a, Steam, id);
      if held.Err? then Err(held.error)
      else
        var found := if BySteam(a, id).Some? then BySteam(a, id)
                     else if held.value.Some? && held.value.value in a.users then held.value else None;
        if found.None? && (Steam, id) in a.revoked then Err(RelinkRequired)
        else if !profileOk then Err(ProviderUnavailable)
        else
          var user := if found.Some? then found.value else a.nextId;
          var b := if found.Some? then SetUser(a, user, a.users[user].(steam := Some(id)))
                   else AddUser(a, User(None, None, Some(id), None));
          Ok(SignIn(PutIdentity(b, user, Steam, Identity(Some(id), None, Some(now))), user, now))
  }

  ghost function DiscordSignedIn(
    a: Accounts, now: int, configured: bool, profile: Option<DiscordProfile>): Result<Outcome, Error> {
    if !configured then Err(ProviderUnavailable)
    else if profile.None? then Err(ProviderInvalid)
    else
      var d := profile.value;
      var held := Holder(a, Discord, d.id);
      if held.Err? then Err(held.error)
      else
        var found := if held.value.Some? && held.value.value in a.users then held.value else None;
        if found.None? && (Discord, d.id) in a.revoked then Err(RelinkRequired)
        else if found.None? && d.email.Some? && ByEmail(a, d.email.value).Some? then Err(UniqueViolation)
        else
          var user := if found.Some? then found.value else a.nextId;
          var b := if found.Some? then a else AddUser(a, User(d.email, None, None, None));
          var c := PutIdentity(b, user, Discord, Identity(Some(d.id), d.refreshToken, Some(now)));
          Ok(SignIn(Forget(c, (Discord, d.id)), user, now))
  }

  ghost function AppleSignedIn(a: Accounts, now: int, info: Option<AppleInfo>): Result<Outcome, Error> {
    if info.None? then Err(ProviderInvalid)
    else
      var id := info.value.sub;
      var held := Holder(a, Apple, id);
      if held.Err? then Err(held.error)
      else
        var found := if ByApple(a, id).Some? then ByApple(a, id)
                     else if held.value.Some? && held.value.value in a.users then held.value else None;
        if found.None? && (Apple, id) in a.revoked then Err(RelinkRequired)
        else if found.None? && info.value.email.Some? && ByEmail(a, info.value.email.value).Some?
            then Err(UniqueViolation)
        else
          var user := if found.Some? then found.value else a.nextId;
          var b := if found.Some? then a else AddUser(a, User(info.value.email, None, None, Some(id)));
          Ok(SignIn(PutIdentity(b, user, Apple, Identity(Some(id), None, None)), user, now))
  }

  // ---------------------------------------------------------------- linking and unlinking

  ghost function SteamLinked(
    a: Accounts, now: int, user: Uuid, steamId: Option<string>, profileOk: bool): Result<Outcome, Error> {
    if user !in a.users then Err(UserNotFound)
    else if steamId.None? then Err(ProviderInvalid)
    else
      var id := steamId.value;
      var held := Holder(a, Steam, id);
      if held.Err? then Err(held.error)
      else if BySteam(a, id).Some? && BySteam(a, id).value != user then Err(AlreadyLinked)
      else if held.value.Some? && held.value.value != user then Err(AlreadyLinked)
      else if !profileOk then Err(ProviderUnavailable)
      else
        var b := SetUser(a, user, a.users[user].(steam := Some(id)));
        Quiet(Forget(PutIdentity(b, user, Steam, Identity(Some(id), None, Some(now))), (Steam, id)))
  }

  ghost function AppleLinked(a: Accounts, user: Uuid, info: Option<AppleInfo>): Result<Outcome, Error> {
    if user !in a.users then Err(UserNotFound)
    else if info.None? then Err(ProviderInvalid)
    else
      var id := info.value.sub;
      var held := Holder(a, Apple, id);
      if held.Err? then Err(held.error)
      else if ByApple(a, id).Some? && ByApple(a, id).value != user then Err(AlreadyLinked)
      else if held.value.Some? && held.value.value != user then Err(AlreadyLinked)
      else
        var b := SetUser(a, user, a.users[user].(apple := Some(id)));
        Quiet(Forget(PutIdentity(b, user, Apple, Identity(Some(id), None, None)), (Apple, id)))
  }

  ghost function DiscordLinked(
    a: Accounts, now: int, user: Uuid, profile: Option<DiscordProfile>): Result<Outcome, Error> {
    if user !in a.users then Err(UserNotFound)
    else if profile.None? then Err(ProviderInvalid)
    else
      var d := profile.value;
      var held := Holder(a, Discord, d.id);
      if held.Err? then Err(held.error)
      else if held.value.Some? && held.value.value != user then Err(AlreadyLinked)
      else
        Quiet(Forget(PutIdentity(a, user, Discord, Identity(Some(d.id), d.refreshToken, Some(now))), (Discord, d.id)))
  }

  function SteamUnlinked(a: Accounts, user: Uuid): Result<Outcome, Error> {
    if user !in a.users then Err(UserNotFound)
    else if AuthMethods(a, user) <= 1 then Err(LastAuthMethod)
    else if a.users[user].steam.None? then Quiet(a)
    else
      Quiet(a.(users := a.users[user := a.users[user].(steam := None)],
               revoked := a.revoked[(Steam, a.users[user].steam.value) := user],
               identities := a.identities - {(user, Steam)}))
  }

  function AppleUnlinked(a: Accounts, user: Uuid): Result<Outcome, Error> {
    if user !in a.users then Err(UserNotFound)
    else if AuthMethods(a, user) <= 1 then Err(LastAuthMethod)
    else if a.users[user].apple.None? then Quiet(a)
    else
      Quiet(a.(users := a.users[user := a.users[user].(apple := None)],
               revoked := a.revoked[(Apple, a.users[user].apple.value) := user],
               identities := a.identities - {(user, Apple)}))
  }

  function DiscordUnlinked(a: Accounts, user: Uuid): Result<Outcome, Error> {
    if user !in a.users then Err(UserNotFound)
    else if AuthMethods(a, user) <= 1 then Err(LastAuthMethod)
    else if External(a, user, Discord).None? then Quiet(a)
    else
      Quiet(a.(revoked := a.revoked[(Discord, External(a, user, Discord).value) := user],
               identities := a.identities - {(user, Discord)}))
  }

  // ---------------------------------------------------------------- profile requests

  ghost function EmailPasswordSet(a: Accounts, user: Uuid, email: string, hash: Hash): Result<Outcome, Error> {
    if user !in a.users then Err(UserNotFound)
    else if HasPasswordLogin(a.users[user]) then Err(EmailPasswordAlreadySet)
    else if ByEmail(a, email).Some? && ByEmail(a, email).value != user then Err(EmailTaken)
    else Quiet(SetUser(a, user, a.users[user].(email := Some(email), hash := Some(hash))))
  }

  ghost function EmailChanged(a: Accounts, user: Uuid, email: string): Result<Outcome, Error> {
    if user !in a.users then Err(UserNotFound)
    else if a.users[user].email != Some(email) && ByEmail(a, email).Some? && ByEmail(a, email).value != user
        then Err(EmailTaken)
    else Quiet(SetUser(a, user, a.users[user].(email := Some(email))))
  }

  function ManualPut(
    a: Accounts, user: Uuid, p: Provider, external: Option<string>, acceptable: bool): Result<Outcome, Error> {
    if user !in a.users then Err(UserNotFound)
    else if SupportsLogin(p) || !acceptable then Err(ManualIdentityInvalid)
    else Quiet(PutIdentity(a, user, p, Identity(external, None, None)))
  }

  function ManualDeleted(a: Accounts, user: Uuid, p: Provider): Result<Outcome, Error> {
    if user !in a.users then Err(UserNotFound)
    else if SupportsLogin(p) then Err(ManualIdentityInvalid)
    else Quiet(a.(identities := a.identities - {(user, p)}))
  }

  predicate Truthy(s: Option<string>) { s.Some? && s.value != "" }

  /** `sync_legacy_provider_identities`: rows for column values that have none. */
  function LegacySynced(a: Accounts, user: Uuid): Accounts
    requires user in a.users
  {
    var u := a.users[user];
    var b := if Truthy(u.steam) && (user, Steam) !in a.identities then
               PutIdentity(a, user, Steam, Identity(u.steam, None, None)) else a;
    if Truthy(u.apple) && (user, Apple) !in b.identities then
      PutIdentity(b, user, Apple, Identity(u.apple, None, None)) else b
  }

  predicate Stale(a: Accounts, user: Uuid, p: Provider, now: int) {
    (user, p) in a.identities &&
    (a.identities[(user, p)].syncedAt.None? || a.identities[(user, p)].syncedAt.value < now - STALE_SECONDS)
  }

  predicate DiscordDue(a: Accounts, user: Uuid, now: int) {
    Stale(a, user, Discord, now) && Truthy(a.identities[(user, Discord)].refreshToken)
        && Truthy(External(a, user, Discord))
  }

  predicate SteamDue(a: Accounts, user: Uuid, now: int) {
    Stale(a, user, Steam, now) && Truthy(External(a, user, Steam))
  }

  /** `refresh_stale_official_identities`; a failing provider call fails the whole request. */
  function StaleRefreshed(
    a: Accounts, now: int, user: Uuid, steamOk: bool, discord: Option<DiscordProfile>): Result<Accounts, Error> {
    if DiscordDue(a, user, now) && discord.None? then Err(ProviderUnavailable)
    else if SteamDue(a, user, now) && !steamOk then Err(ProviderUnavailable)
    else
      var b := if DiscordDue(a, user, now) then
                 var d := discord.value;
                 var kept := if d.refreshToken.Some? then d.refreshToken
                     else a.identities[(user, Discord)].refreshToken;
                 PutIdentity(a, user, Discord, Identity(Some(d.id), kept, Some(now)))
               else a;
      Ok(if SteamDue(a, user, now) then
           PutIdentity(b, user, Steam, Identity(External(a, user, Steam), None, Some(now)))
         else b)
  }

  function ProfileViewed(
    a: Accounts, now: int, user: Uuid, steamOk: bool, discord: Option<DiscordProfile>): Result<Outcome, Error> {
    if user !in a.users then Err(UserNotFound)
    else
      var r := StaleRefreshed(LegacySynced(a, user), now, user, steamOk, discord);
      if r.Err? then Err(r.error) else Quiet(r.value)
  }

  function UserViewed(a: Accounts, user: Uuid): Result<Outcome, Error> {
    if user !in a.users then Err(UserNotFound) else Quiet(LegacySynced(a, user))
  }

  ghost function Step(a: Accounts, now: int, r: Request): Result<Outcome, Error> {
    match r
    case Register(email, hash) => Registered(a, now, email, hash)
    case PasswordLogin(email, matches) => LoggedIn(a, now, email, matches)
    case RefreshSession(token) => Refreshed(a, now, token)
    case SteamAuth(id, ok) => SteamSignedIn(a, now, id, ok)
    case DiscordAuth(configured, profile) => DiscordSignedIn(a, now, configured, profile)
    case AppleAuth(info) => AppleSignedIn(a, now, info)
    case LinkSteam(u, id, ok) => SteamLinked(a, now, u, id, ok)
    case LinkDiscord(u, profile) => DiscordLinked(a, now, u, profile)
    case LinkApple(u, info) => AppleLinked(a, u, info)
    case UnlinkSteam(u) => SteamUnlinked(a, u)
    case UnlinkDiscord(u) => DiscordUnlinked(a, u)
    case UnlinkApple(u) => AppleUnlinked(a, u)
    case SetEmailPassword(u, email, hash) => EmailPasswordSet(a, u, email, hash)
    case ChangeEmail(u, email) => EmailChanged(a, u, email)
    case PutManualIdentity(u, p, x, ok) => ManualPut(a, u, p, x, ok)
    case DeleteManualIdentity(u, p) => ManualDeleted(a, u, p)
    case ViewOwnProfile(u, ok, d) => ProfileViewed(a, now, u, ok, d)
    case ViewUser(u) => UserViewed(a, u)
  }
}
