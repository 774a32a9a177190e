/** The auth and user services over their repositories, as an object that owns the tables. */
module AccountsService {
  import opened Prelude
  import opened AccountsModel
  import opened AccountsSafety
  import opened AccountsEffects

  // The lookups by a unique column rely on the database constraint (`UniqueColumns`) and on nothing else.

  /** Reply and new tables are what the specification says; a raised error changes nothing. */
  ghost predicate Answers(
    before: Accounts, after: Accounts, reply: Result<Option<Uuid>, Error>, spec: Result<Outcome, Error>)
  {
    match spec
    case Ok(o) => reply == Ok(o.signedIn) && after == o.accounts
    case Err(e) => reply == Err(e) && after == before
  }

  class AccountService {
    var users: map<Uuid, User>
    var identities: map<IdentityKey, Identity>
    var revoked: map<Link, Uuid>
    var sessions: map<Uuid, Slot>
    var nextId: Uuid
    const refreshDays: Days

    ghost function Tables(): Accounts
      reads this
    {
      Accounts(users, identities, revoked, sessions, nextId, refreshDays)
    }

    ghost predicate Valid()
      reads this
    {
      Consistent(Tables())
    }

    constructor (refreshDays: Days)
      ensures Tables() == NoAccounts(refreshDays) && Valid()
    {
      this.refreshDays := refreshDays;
      users, identities, revoked, sessions, nextId := map[], map[], map[], map[], 0;
    }

    // -------------------------------------------------------------- repositories

    method GetByProviderExternalId(p: Provider, external: string) returns (row: Result<Option<Uuid>, Error>)
      ensures row == Holder(Tables(), p, external)
    {
      var rows := set k | k in identities && k.1 == p && identities[k].external == Some(external) :: k.0;
      assert forall u :: Holds(Tables(), u, p, external) <==> u in rows;
      if rows == {} {
        return Ok(None);
      }
      var u :| u in rows;
      if rows != {u} {
        assert exists v :: v in rows && v != u;
        return Err(MultipleResults);
      }
      return Ok(Some(u));
    }

    method GetBySteamId(id: string) returns (user: Option<Uuid>)
      requires UniqueColumns(Tables())
      ensures user == BySteam(Tables(), id)
    {
      var rows := set u | u in users && users[u].steam == Some(id);
      if rows == {} {
        assert forall u :: HasSteam(Tables(), u, id) ==> u in rows;
        return None;
      }
      var u :| u in rows;
      assert HasSteam(Tables(), u, id);
      return Some(u);
    }

    method GetByAppleId(id: string) returns (user: Option<Uuid>)
      requires UniqueColumns(Tables())
      ensures user == ByApple(Tables(), id)
    {
      var rows := set u | u in users && users[u].apple == Some(id);
      if rows == {} {
        assert forall u :: HasApple(Tables(), u, id) ==> u in rows;
        return None;
      }
      var u :| u in rows;
      assert HasApple(Tables(), u, id);
      return Some(u);
    }

    method GetByEmail(email: string) returns (user: Option<Uuid>)
      requires UniqueColumns(Tables())
      ensures user == ByEmail(Tables(), email)
    {
      var rows := set u | u in users && users[u].email == Some(email);
      if rows == {} {
        assert forall u :: HasEmail(Tables(), u, email) ==> u in rows;
        return None;
      }
      var u :| u in rows;
      assert HasEmail(Tables(), u, email);
      return Some(u);
    }

    method UpsertIdentity(user: Uuid, p: Provider, row: Identity)
      modifies this`identities
      ensures Tables() == PutIdentity(old(Tables()), user, p, row)
    {
      identities := identities[(user, p) := row];
    }

    method DeleteIdentity(user: Uuid, p: Provider)
      modifies this`identities
      ensures identities == old(identities) - {(user, p)}
    {
      if (user, p) in identities {
        identities := identities - {(user, p)};
      }
    }

    method DeleteRevocation(p: Provider, external: string)
      modifies this`revoked
      ensures Tables() == Forget(old(Tables()), (p, external))
    {
      revoked := revoked - {(p, external)};
    }

    method UpsertRevocation(user: Uuid, p: Provider, external: string)
      modifies this`revoked
      ensures revoked == old(revoked)[(p, external) := user]
    {
      revoked := revoked[(p, external) := user];
    }

    method CreateUser(row: User) returns (id: Uuid)
      modifies this`users, this`nextId
      ensures id == old(nextId) && Tables() == AddUser(old(Tables()), row)
    {
      id := nextId;
      users := users[id := row];
      nextId := nextId + 1;
    }

    method StoreRefreshToken(user: Uuid, now: int)
      modifies this`sessions
      ensures Tables() == SignIn(old(Tables()), user, now).accounts
    {
      var expires := now + refreshDays * 86400;
      sessions := sessions[user := Slot(Token(user, expires, Refresh), expires)];
    }

    // -------------------------------------------------------------- sign-in

    method Register(now: int, email: Email, hash: Hash) returns (reply: Result<Option<Uuid>, Error>)
      requires UniqueColumns(Tables())
      modifies this
      ensures Answers(old(Tables()), Tables(), reply, Registered(old(Tables()), now, email, hash))
    {
      var existing := GetByEmail(email);
      if existing.Some? {
        return Err(EmailTaken);
      }
      var user := CreateUser(User(Some(email), Some(hash), None, None));
      StoreRefreshToken(user, now);
      return Ok(Some(user));
    }

    method Login(now: int, email: Email, matches: bool) returns (reply: Result<Option<Uuid>, Error>)
      requires UniqueColumns(Tables())
      modifies this
      ensures Answers(old(Tables()), Tables(), reply, LoggedIn(old(Tables()), now, email, matches))
    {
      var user := GetByEmail(email);
      if user.None? || users[user.value].hash.None? {
        return Err(InvalidCredentials);
      }
      if !matches {
        return Err(InvalidCredentials);
      }
      StoreRefreshToken(user.value, now);
      return Ok(user);
    }

    method RefreshSession(now: int, token: Option<Token>) returns (reply: Result<Option<Uuid>, Error>)
      modifies this
      ensures Answers(old(Tables()), Tables(), reply, Refreshed(old(Tables()), now, token))
    {
      if token.None? || token.value.expires < now {
        return Err(RefreshTokenInvalid);
      }
      if token.value.kind != Refresh {
        return Err(RefreshTokenTypeInvalid);
      }
      var user := token.value.user;
      var stored := if user in sessions && now < sessions[user].dropAt then Some(sessions[user].token) else None;
      if stored != token {
        return Err(RefreshTokenRevoked);
      }
      if user !in users {
        return Err(RefreshTokenUserNotFound);
      }
      StoreRefreshToken(user, now);
      return Ok(Some(user));
    }

    method AuthSteam(now: int, steamId: Option<string>, profileOk: bool) returns (reply: Result<Option<Uuid>, Error>)
      requires UniqueColumns(Tables())
      modifies this
      ensures Answers(old(Tables()), Tables(), reply, SteamSignedIn(old(Tables()), now, steamId, profileOk))
    {
      if steamId.None? {
        return Err(ProviderInvalid);
      }
      var id := steamId.value;
      var user := GetBySteamId(id);
      var identity := GetByProviderExternalId(Steam, id);
      if identity.Err? {
        return Err(identity.error);
      }
      if user.None? && identity.value.Some? && identity.value.value in users {
        user := identity.value;
      }
      if user.None? && (Steam, id) in revoked {
        return Err(RelinkRequired);
      }
      if !profileOk {
        return Err(ProviderUnavailable);
      }
      var signedIn;
      if user.None? {
        signedIn := CreateUser(User(None, None, Some(id), None));
      } else {
        signedIn := user.value;
        if users[signedIn].steam != Some(id) {
          users := users[signedIn := users[signedIn].(steam := Some(id))];
        }
      }
      assert user.Some? ==> users == old(users)[signedIn := old(users)[signedIn].(steam := Some(id))];
      UpsertIdentity(signedIn, Steam, Identity(Some(id), None, Some(now)));
      StoreRefreshToken(signedIn, now);
      return Ok(Some(signedIn));
    }

    method AuthDiscord(
      now: int, configured: bool, profile: Option<DiscordProfile>) returns (reply: Result<Option<Uuid>, Error>)
      requires UniqueColumns(Tables())
      modifies this
      ensures Answers(old(Tables()), Tables(), reply, DiscordSignedIn(old(Tables()), now, configured, profile))
    {
      if !configured {
        return Err(ProviderUnavailable);
      }
      if profile.None? {
        return Err(ProviderInvalid);
      }
      var d := profile.value;
      var identity := GetByProviderExternalId(Discord, d.id);
      if identity.Err? {
        return Err(identity.error);
      }
      var user := if identity.value.Some? && identity.value.value in users then identity.value else None;
      if user.None? && (Discord, d.id) in revoked {
        return Err(RelinkRequired);
      }
      var signedIn;
      if user.None? {
        if d.email.Some? {
          var taken := GetByEmail(d.email.value);
          if taken.Some? {
            return Err(UniqueViolation);
          }
        }
        signedIn := CreateUser(User(d.email, None, None, None));
      } else {
        signedIn := user.value;
      }
      UpsertIdentity(signedIn, Discord, Identity(Some(d.id), d.refreshToken, Some(now)));
      DeleteRevocation(Discord, d.id);
      StoreRefreshToken(signedIn, now);
      return Ok(Some(signedIn));
    }

    method AuthApple(now: int, info: Option<AppleInfo>) returns (reply: Result<Option<Uuid>, Error>)
      requires UniqueColumns(Tables())
      modifies this
      ensures Answers(old(Tables()), Tables(), reply, AppleSignedIn(old(Tables()), now, info))
    {
      if info.None? {
        return Err(ProviderInvalid);
      }
      var id, email := info.value.sub, info.value.email;
      var user := GetByAppleId(id);
      var identity := GetByProviderExternalId(Apple, id);
      if identity.Err? {
        return Err(identity.error);
      }
      if user.None? && identity.value.Some? && identity.value.value in users {
        user := identity.value;
      }
      if user.None? && (Apple, id) in revoked {
        return Err(RelinkRequired);
      }
      var signedIn;
      if user.None? {
        if email.Some? {
          var taken := GetByEmail(email.value);
          if taken.Some? {
            return Err(UniqueViolation);
          }
        }
        signedIn := CreateUser(User(email, None, None, Some(id)));
      } else {
        signedIn := user.value;
      }
      UpsertIdentity(signedIn, Apple, Identity(Some(id), None, None));
      StoreRefreshToken(signedIn, now);
      return Ok(Some(signedIn));
    }

    // -------------------------------------------------------------- linking

    method LinkSteam(
      now: int, user: Uuid, steamId: Option<string>, profileOk: bool) returns (reply: Result<Option<Uuid>, Error>)
      requires UniqueColumns(Tables())
      modifies this
      ensures Answers(old(Tables()), Tables(), reply, SteamLinked(old(Tables()), now, user, steamId, profileOk))
    {
      if user !in users {
        return Err(UserNotFound);
      }
      if steamId.None? {
        return Err(ProviderInvalid);
      }
      var id := steamId.value;
      var existing := GetBySteamId(id);
      var identity := GetByProviderExternalId(Steam, id);
      if identity.Err? {
        return Err(identity.error);
      }
      if existing.Some? && existing.value != user {
        return Err(AlreadyLinked);
      }
      if identity.value.Some? && identity.value.value != user {
        return Err(AlreadyLinked);
      }
      if !profileOk {
        return Err(ProviderUnavailable);
      }
      users := users[user := users[user].(steam := Some(id))];
      UpsertIdentity(user, Steam, Identity(Some(id), None, Some(now)));
      DeleteRevocation(Steam, id);
      return Ok(None);
    }

    method LinkApple(user: Uuid, info: Option<AppleInfo>) returns (reply: Result<Option<Uuid>, Error>)
      requires UniqueColumns(Tables())
      modifies this
      ensures Answers(old(Tables()), Tables(), reply, AppleLinked(old(Tables()), user, info))
    {
      if user !in users {
        return Err(UserNotFound);
      }
      if info.None? {
        return Err(ProviderInvalid);
      }
      var id := info.value.sub;
      var existing := GetByAppleId(id);
      var identity := GetByProviderExternalId(Apple, id);
      if identity.Err? {
        return Err(identity.error);
      }
      if existing.Some? && existing.value != user {
        return Err(AlreadyLinked);
      }
      if identity.value.Some? && identity.value.value != user {
        return Err(AlreadyLinked);
      }
      users := users[user := users[user].(apple := Some(id))];
      UpsertIdentity(user, Apple, Identity(Some(id), None, None));
      DeleteRevocation(Apple, id);
      return Ok(None);
    }

    method LinkDiscord(
      now: int, user: Uuid, profile: Option<DiscordProfile>) returns (reply: Result<Option<Uuid>, Error>)
      modifies this
      ensures Answers(old(Tables()), Tables(), reply, DiscordLinked(old(Tables()), now, user, profile))
    {
      if user !in users {
        return Err(UserNotFound);
      }
      if profile.None? {
        return Err(ProviderInvalid);
      }
      var d := profile.value;
      var identity := GetByProviderExternalId(Discord, d.id);
      if identity.Err? {
        return Err(identity.error);
      }
      if identity.value.Some? && identity.value.value != user {
        return Err(AlreadyLinked);
      }
      UpsertIdentity(user, Discord, Identity(Some(d.id), d.refreshToken, Some(now)));
      DeleteRevocation(Discord, d.id);
      return Ok(None);
    }

    method UnlinkSteam(user: Uuid) returns (reply: Result<Option<Uuid>, Error>)
      modifies this
      ensures Answers(old(Tables()), Tables(), reply, SteamUnlinked(old(Tables()), user))
    {
      if user !in users {
        return Err(UserNotFound);
      }
      var methods := CountAuthMethods(user);
      if methods <= 1 {
        return Err(LastAuthMethod);
      }
      var steamId := users[user].steam;
      if steamId.None? {
        return Ok(None);
      }
      users := users[user := users[user].(steam := None)];
      UpsertRevocation(user, Steam, steamId.value);
      DeleteIdentity(user, Steam);
      return Ok(None);
    }

    method UnlinkApple(user: Uuid) returns (reply: Result<Option<Uuid>, Error>)
      modifies this
      ensures Answers(old(Tables()), Tables(), reply, AppleUnlinked(old(Tables()), user))
    {
      if user !in users {
        return Err(UserNotFound);
      }
      var methods := CountAuthMethods(user);
      if methods <= 1 {
        return Err(LastAuthMethod);
      }
      var appleId := users[user].apple;
      if appleId.None? {
        return Ok(None);
      }
      users := users[user := users[user].(apple := None)];
      UpsertRevocation(user, Apple, appleId.value);
      DeleteIdentity(user, Apple);
      return Ok(None);
    }

    method UnlinkDiscord(user: Uuid) returns (reply: Result<Option<Uuid>, Error>)
      modifies this
      ensures Answers(old(Tables()), Tables(), reply, DiscordUnlinked(old(Tables()), user))
    {
      if user !in users {
        return Err(UserNotFound);
      }
      var methods := CountAuthMethods(user);
      if methods <= 1 {
        return Err(LastAuthMethod);
      }
      if (user, Discord) !in identities || identities[(user, Discord)].external.None? {
        return Ok(None);
      }
      UpsertRevocation(user, Discord, identities[(user, Discord)].external.value);
      DeleteIdentity(user, Discord);
      return Ok(None);
    }

    /** Counts the password login and the user's identity rows whose provider supports login. */
    method CountAuthMethods(user: Uuid) returns (count: nat)
      requires user in users
      ensures count == AuthMethods(Tables(), user)
    {
      count := 0;
      if HasPasswordLogin(users[user]) {
        count := count + 1;
      }
      ghost var start := count;
      var providers := [Apple, Discord, Nintendo, PlayStation, Steam, Xbox];
      var i := 0;
      while i < |providers|
        invariant 0 <= i <= |providers|
        invariant count == start + One(i > 0 && (user, Apple) in identities)
                           + One(i > 1 && (user, Discord) in identities) + One(i > 4 && (user, Steam) in identities)
      {
        if (user, providers[i]) in identities && SupportsLogin(providers[i]) {
          count := count + 1;
        }
        i := i + 1;
      }
    }

    // -------------------------------------------------------------- profile

    method SetEmailPassword(user: Uuid, email: Email, hash: Hash) returns (reply: Result<Option<Uuid>, Error>)
      requires UniqueColumns(Tables())
      modifies this
      ensures Answers(old(Tables()), Tables(), reply, EmailPasswordSet(old(Tables()), user, email, hash))
    {
      if user !in users {
        return Err(UserNotFound);
      }
      if HasPasswordLogin(users[user]) {
        return Err(EmailPasswordAlreadySet);
      }
      var existing := GetByEmail(email);
      if existing.Some? && existing.value != user {
        return Err(EmailTaken);
      }
      users := users[user := users[user].(email := Some(email), hash := Some(hash))];
      return Ok(None);
    }

    method ChangeEmail(user: Uuid, email: Email) returns (reply: Result<Option<Uuid>, Error>)
      requires UniqueColumns(Tables())
      modifies this
      ensures Answers(old(Tables()), Tables(), reply, EmailChanged(old(Tables()), user, email))
    {
      if user !in users {
        return Err(UserNotFound);
      }
      if users[user].email != Some(email) {
        var existing := GetByEmail(email);
        if existing.Some? && existing.value != user {
          return Err(EmailTaken);
        }
      }
      users := users[user := users[user].(email := Some(email))];
      return Ok(None);
    }

    method PutManualIdentity(user: Uuid, p: Provider, external: Option<string>, acceptable: bool)
      returns (reply: Result<Option<Uuid>, Error>)
      modifies this
      ensures Answers(old(Tables()), Tables(), reply, ManualPut(old(Tables()), user, p, external, acceptable))
    {
      if user !in users {
        return Err(UserNotFound);
      }
      if SupportsLogin(p) || !acceptable {
        return Err(ManualIdentityInvalid);
      }
      UpsertIdentity(user, p, Identity(external, None, None));
      return Ok(None);
    }

    method DeleteManualIdentity(user: Uuid, p: Provider) returns (reply: Result<Option<Uuid>, Error>)
      modifies this
      ensures Answers(old(Tables()), Tables(), reply, ManualDeleted(old(Tables()), user, p))
    {
      if user !in users {
        return Err(UserNotFound);
      }
      if SupportsLogin(p) {
        return Err(ManualIdentityInvalid);
      }
      DeleteIdentity(user, p);
      return Ok(None);
    }

    method SyncLegacyIdentities(user: Uuid)
      requires user in users
      modifies this`identities
      ensures Tables() == LegacySynced(old(Tables()), user)
    {
      var row := users[user];
      if Truthy(row.steam) && (user, Steam) !in identities {
        UpsertIdentity(user, Steam, Identity(row.steam, None, None));
      }
      if Truthy(row.apple) && (user, Apple) !in identities {
        UpsertIdentity(user, Apple, Identity(row.apple, None, None));
      }
    }

    /** Answers false when a provider call failed; the caller then rolls back. */
    method RefreshStaleIdentities(
      now: int, user: Uuid, steamOk: bool, discord: Option<DiscordProfile>) returns (failed: bool)
      modifies this`identities
      ensures failed <==> StaleRefreshed(old(Tables()), now, user, steamOk, discord).Err?
      ensures !failed ==> Tables() == StaleRefreshed(old(Tables()), now, user, steamOk, discord).value
    {
      ghost var before := Tables();
      var listed := identities;
      if (user, Discord) in listed {
        var row := listed[(user, Discord)];
        var stale := row.syncedAt.None? || row.syncedAt.value < now - STALE_SECONDS;
        if stale && Truthy(row.refreshToken) && Truthy(row.external) {
          if discord.None? {
            return true;
          }
          var d := discord.value;
          var kept := if d.refreshToken.Some? then d.refreshToken else row.refreshToken;
          UpsertIdentity(user, Discord, Identity(Some(d.id), kept, Some(now)));
        }
      }
      if (user, Steam) in listed {
        var row := listed[(user, Steam)];
        var stale := row.syncedAt.None? || row.syncedAt.value < now - STALE_SECONDS;
        if stale && Truthy(row.external) {
          if !steamOk {
            return true;
          }
          UpsertIdentity(user, Steam, Identity(row.external, None, Some(now)));
        }
      }
      return false;
    }

    method GetCurrentUserProfile(now: int, user: Uuid, steamOk: bool, discord: Option<DiscordProfile>)
      returns (reply: Result<Option<Uuid>, Error>)
      modifies this
      ensures Answers(old(Tables()), Tables(), reply, ProfileViewed(old(Tables()), now, user, steamOk, discord))
    {
      if user !in users {
        return Err(UserNotFound);
      }
      var rollback := identities;
      SyncLegacyIdentities(user);
      var failed := RefreshStaleIdentities(now, user, steamOk, discord);
      if failed {
        identities := rollback;
        return Err(ProviderUnavailable);
      }
      return Ok(None);
    }

    method GetUser(user: Uuid) returns (reply: Result<Option<Uuid>, Error>)
      modifies this
      ensures Answers(old(Tables()), Tables(), reply, UserViewed(old(Tables()), user))
    {
      if user !in users {
        return Err(UserNotFound);
      }
      SyncLegacyIdentities(user);
      return Ok(None);
    }

    // -------------------------------------------------------------- requests

    /**
      One request, as the application routes it to its handler. From a valid state every request leads
      to a valid state; who signs in or links holds the id alone, and nobody loses access by a request
      of their own.
    */
    method Handle(now: int, r: Request) returns (reply: Result<Option<Uuid>, Error>)
      requires Valid() && HonestDiscord(Tables(), r)
      modifies this
      ensures Valid()
      ensures Answers(old(Tables()), Tables(), reply, Step(old(Tables()), now, r))
      ensures reply.Ok? ==> Means(old(Tables()), now, r, Tables(), reply.value)
      ensures reply.Err? ==> Tables() == old(Tables()) && Refused(old(Tables()), now, r, reply.error)
      ensures reply.Ok? && ActsOnAccount(r) ==> SignsIn(Tables(), r.user)
      ensures forall p, x :: reply.Ok? && LinkWith(r, p, x) ==> SoleHolder(Tables(), r.user, p, x)
      ensures forall p, x :: reply.Ok? && LoginWith(r, p, x) ==>
                               reply.value.Some? && SoleHolder(Tables(), reply.value.value, p, x)
    {
      ghost var before := Tables();
      reply := Dispatch(now, r);
      PromisesKept(before, now, r);
      if reply.Ok? {
        StepMeans(before, now, r);
      } else {
        RefusedIff(before, now, r, reply.error);
      }
    }

    /** The routing table. */
    method Dispatch(now: int, r: Request) returns (reply: Result<Option<Uuid>, Error>)
      requires UniqueColumns(Tables())
      modifies this
      ensures Answers(old(Tables()), Tables(), reply, Step(old(Tables()), now, r))
    {
      match r
      case Register(email, hash) => reply := Register(now, email, hash);
      case PasswordLogin(email, matches) => reply := Login(now, email, matches);
      case RefreshSession(token) => reply := RefreshSession(now, token);
      case SteamAuth(id, ok) => reply := AuthSteam(now, id, ok);
      case DiscordAuth(configured, profile) => reply := AuthDiscord(now, configured, profile);
      case AppleAuth(info) => reply := AuthApple(now, info);
      case LinkSteam(u, id, ok) => reply := LinkSteam(now, u, id, ok);
      case LinkDiscord(u, profile) => reply := LinkDiscord(now, u, profile);
      case LinkApple(u, info) => reply := LinkApple(u, info);
      case UnlinkSteam(u) => reply := UnlinkSteam(u);
      case UnlinkDiscord(u) => reply := UnlinkDiscord(u);
      case UnlinkApple(u) => reply := UnlinkApple(u);
      case SetEmailPassword(u, email, hash) => reply := SetEmailPassword(u, email, hash);
      case ChangeEmail(u, email) => reply := ChangeEmail(u, email);
      case PutManualIdentity(u, p, x, ok) => reply := PutManualIdentity(u, p, x, ok);
      case DeleteManualIdentity(u, p) => reply := DeleteManualIdentity(u, p);
      case ViewOwnProfile(u, ok, d) => reply := GetCurrentUserProfile(now, u, ok, d);
      case ViewUser(u) => reply := GetUser(u);
    }

    /** Any number of requests: the object goes through exactly the states of the specified run. */
    method Serve(run: seq<Turn>)
      requires Valid() && Honest(Tables(), run)
      modifies this
      ensures Valid() && Tables() == After(old(Tables()), run)
    {
      var i := 0;
      while i < |run|
        invariant 0 <= i <= |run| && Valid()
        invariant Tables() == After(old(Tables()), run[..i])
      {
        HonestSoFar(old(Tables()), run, i);
        assert run[..i + 1][..i] == run[..i];
        var reply := Handle(run[i].now, run[i].request);
        i := i + 1;
      }
      assert run[..i] == run;
    }
  }
}
