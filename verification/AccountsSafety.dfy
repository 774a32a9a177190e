/** What every reachable account state keeps, and what an unlinked login can still do. */
module AccountsSafety {
  import opened Prelude
  import opened AccountsModel

  /** Email with password, or an identity of a provider that supports login. */
  ghost predicate CanSignIn(a: Accounts, user: Uuid)
    requires user in a.users
  {
    HasPasswordLogin(a.users[user]) || exists p :: SupportsLogin(p) && (user, p) in a.identities
  }

  /** The legacy columns repeat the identity rows. */
  ghost predicate Coupled(a: Accounts) {
    forall u :: u in a.users ==>
      a.users[u].steam == External(a, u, Steam) && a.users[u].apple == External(a, u, Apple)
  }

  /** At most one user holds an external id of a login provider. */
  ghost predicate OneHolder(a: Accounts) {
    forall u, v, p | SupportsLogin(p) && External(a, u, p).Some? && External(a, u, p) == External(a, v, p) :: u == v
  }

  /** Nothing is both linked and revoked. */
  ghost predicate LinkedNotRevoked(a: Accounts) {
    forall u, p | SupportsLogin(p) && External(a, u, p).Some? :: (p, External(a, u, p).value) !in a.revoked
  }

  ghost predicate NoLockout(a: Accounts) {
    forall u :: u in a.users ==> CanSignIn(a, u)
  }

  ghost predicate UniqueEmails(a: Accounts) {
    forall u, v | u in a.users && v in a.users && a.users[u].email.Some? && a.users[u].email == a.users[v].email ::
        u == v
  }

  /** The unique columns of the user table. */
  ghost predicate UniqueColumns(a: Accounts) {
    && UniqueEmails(a)
    && (forall u, v, x | HasSteam(a, u, x) && HasSteam(a, v, x) :: u == v)
    && (forall u, v, x | HasApple(a, u, x) && HasApple(a, v, x) :: u == v)
  }

  /** Foreign keys hold, ids below `nextId` are the only ones in use, login identities carry an external id. */
  ghost predicate WellFormed(a: Accounts) {
    && (forall u :: u in a.users ==> u < a.nextId)
    && (forall k :: k in a.identities ==> k.0 in a.users && (SupportsLogin(k.1) ==> a.identities[k].external.Some?))
    && (forall u :: u in a.sessions ==> u in a.users)
  }

  ghost predicate Inv(a: Accounts) {
    Coupled(a) && OneHolder(a) && LinkedNotRevoked(a) && NoLockout(a) && UniqueEmails(a) && WellFormed(a)
  }

  // ---------------------------------------------------------------- lookups under the invariant

  lemma HolderIsTheHolder(a: Accounts, p: Provider, x: string)
    requires OneHolder(a) && SupportsLogin(p)
    ensures Holder(a, p, x).Ok?
    ensures forall u: Uuid :: Holds(a, u, p, x) ==> Holder(a, p, x) == Ok(Some(u))
    ensures Holder(a, p, x).value.Some? ==> Holds(a, Holder(a, p, x).value.value, p, x)
  {
    forall u, v | Holds(a, u, p, x) && Holds(a, v, p, x) ensures u == v {
      assert External(a, u, p) == External(a, v, p);
    }
  }

  lemma BySteamIsTheHolder(a: Accounts, x: string)
    requires Coupled(a) && OneHolder(a) && WellFormed(a)
    ensures BySteam(a, x) == Holder(a, Steam, x).value
    ensures Holder(a, Steam, x).Ok?
  {
    HolderIsTheHolder(a, Steam, x);
    forall u ensures HasSteam(a, u, x) <==> Holds(a, u, Steam, x) {}
  }

  lemma ByAppleIsTheHolder(a: Accounts, x: string)
    requires Coupled(a) && OneHolder(a) && WellFormed(a)
    ensures ByApple(a, x) == Holder(a, Apple, x).value
    ensures Holder(a, Apple, x).Ok?
  {
    HolderIsTheHolder(a, Apple, x);
    forall u ensures HasApple(a, u, x) <==> Holds(a, u, Apple, x) {}
  }

  /** The exclusive links imply what the database enforces on the columns. */
  lemma ColumnsAreUnique(a: Accounts)
    requires Inv(a)
    ensures UniqueColumns(a)
  {
    forall u, v, x | HasSteam(a, u, x) && HasSteam(a, v, x) ensures u == v {
      assert External(a, u, Steam) == External(a, v, Steam);
    }
    forall u, v, x | HasApple(a, u, x) && HasApple(a, v, x) ensures u == v {
      assert External(a, u, Apple) == External(a, v, Apple);
    }
  }

  lemma NoneByEmail(a: Accounts, email: string)
    requires ByEmail(a, email).None?
    ensures forall u :: u in a.users ==> a.users[u].email != Some(email)
  {
    forall u | u in a.users ensures a.users[u].email != Some(email) {
      assert !HasEmail(a, u, email);
    }
  }

  // ---------------------------------------------------------------- the building blocks keep the invariant

  function WithColumn(u: User, p: Provider, x: Option<string>): User {
    match p
    case Steam => u.(steam := x)
    case Apple => u.(apple := x)
    case _ => u
  }

  /** What every successful link or login writes: column, identity, no revocation of the link. */
  function Attached(a: Accounts, user: Uuid, p: Provider, i: Identity, x: string): Accounts
    requires user in a.users
  {
    a.(users := a.users[user := WithColumn(a.users[user], p, Some(x))],
       identities := a.identities[(user, p) := i],
       revoked := a.revoked - {(p, x)})
  }

  /** Exactly one entry of the link table changed. */
  ghost predicate OnlyLinkChanged(a: Accounts, b: Accounts, user: Uuid, p: Provider, external: Option<string>) {
    forall v, q :: External(b, v, q) == if v == user && q == p then external else External(a, v, q)
  }

  lemma OneHolderAfter(a: Accounts, b: Accounts, user: Uuid, p: Provider, external: Option<string>)
    requires OneHolder(a) && SupportsLogin(p) && OnlyLinkChanged(a, b, user, p, external)
    requires external.Some? ==> forall v :: Holds(a, v, p, external.value) ==> v == user
    ensures OneHolder(b)
  {
    forall u, v, q | SupportsLogin(q) && External(b, u, q).Some? && External(b, u, q) == External(b, v, q)
        ensures u == v {
      if q == p && (u == user || v == user) {
        if u != user {
          assert Holds(a, u, p, external.value);
        }
        if v != user {
          assert Holds(a, v, p, external.value);
        }
      } else {
        assert External(a, u, q) == External(a, v, q);
      }
    }
  }

  lemma LinkedNotRevokedAfter(a: Accounts, b: Accounts, user: Uuid, p: Provider, external: Option<string>)
    requires LinkedNotRevoked(a) && OneHolder(a) && SupportsLogin(p) && OnlyLinkChanged(a, b, user, p, external)
    requires external.Some? ==> (p, external.value) !in b.revoked && b.revoked.Keys <= a.revoked.Keys
    requires external.None? ==>
               External(a, user, p).Some? && b.revoked.Keys <= a.revoked.Keys + {(p, External(a, user, p).value)}
    ensures LinkedNotRevoked(b)
  {
    forall u, q | SupportsLogin(q) && External(b, u, q).Some? ensures (q, External(b, u, q).value) !in b.revoked {
      if u != user || q != p {
        assert (q, External(a, u, q).value) !in a.revoked;
        assert u != user && external.None? && q == p ==> External(a, u, p) != External(a, user, p);
      }
    }
  }

  lemma SignInSurvives(a: Accounts, b: Accounts, v: Uuid)
    requires v in a.users && v in b.users && CanSignIn(a, v)
    requires HasPasswordLogin(a.users[v]) ==> HasPasswordLogin(b.users[v])
    requires forall q :: (v, q) in a.identities ==> (v, q) in b.identities
    ensures CanSignIn(b, v)
  {
    if q :| SupportsLogin(q) && (v, q) in a.identities {
      assert (v, q) in b.identities;
    }
  }

  lemma CoupledAfter(a: Accounts, b: Accounts, user: Uuid, p: Provider, external: Option<string>)
    requires Coupled(a) && OnlyLinkChanged(a, b, user, p, external)
    requires user in b.users && b.users.Keys == a.users.Keys + {user}
    requires forall u :: u in a.users && u != user ==> b.users[u] == a.users[u]
    requires user in a.users ==> b.users[user] == WithColumn(a.users[user], p, external)
    requires user !in a.users ==>
               && External(a, user, Steam) == None && External(a, user, Apple) == None
               && b.users[user].steam == (if p == Steam then external else None)
               && b.users[user].apple == (if p == Apple then external else None)
    ensures Coupled(b)
  {
  }

  lemma NoLockoutAfter(a: Accounts, b: Accounts, user: Uuid)
    requires NoLockout(a) && user in b.users && CanSignIn(b, user) && b.users.Keys == a.users.Keys + {user}
    requires forall u :: u in a.users && u != user ==> b.users[u] == a.users[u]
    requires forall k :: k in a.identities && k.0 != user ==> k in b.identities
    ensures NoLockout(b)
  {
    forall v | v in b.users ensures CanSignIn(b, v) {
      if v != user {
        SignInSurvives(a, b, v);
      }
    }
  }

  lemma WellFormedAfter(a: Accounts, b: Accounts, user: Uuid, p: Provider)
    requires WellFormed(a) && user in b.users && b.users.Keys == a.users.Keys + {user} && user < b.nextId
      && a.nextId <= b.nextId
    requires forall k :: k in b.identities && k != (user, p) ==> k in a.identities && b.identities[k] == a.identities[k]
    requires (user, p) in b.identities ==> b.identities[(user, p)].external.Some?
    requires b.sessions == a.sessions
    ensures WellFormed(b)
  {
  }

  lemma SameEmailsStayUnique(a: Accounts, b: Accounts)
    requires UniqueEmails(a) && b.users.Keys == a.users.Keys
    requires forall u :: u in a.users ==> b.users[u].email == a.users[u].email
    ensures UniqueEmails(b)
  {
  }

  ghost predicate LinksConsistent(a: Accounts) { Coupled(a) && OneHolder(a) && LinkedNotRevoked(a) }

  ghost predicate AccountsConsistent(a: Accounts) { NoLockout(a) && UniqueEmails(a) && WellFormed(a) }

  lemma AttachKeepsLinks(a: Accounts, user: Uuid, p: Provider, i: Identity, x: string)
    requires LinksConsistent(a) && user in a.users && SupportsLogin(p) && i.external == Some(x)
    requires forall v :: Holds(a, v, p, x) ==> v == user
    ensures LinksConsistent(Attached(a, user, p, i, x))
  {
    var b := Attached(a, user, p, i, x);
    AttachChangesOneLink(a, user, p, i, x);
    OneHolderAfter(a, b, user, p, Some(x));
    LinkedNotRevokedAfter(a, b, user, p, Some(x));
    CoupledAfter(a, b, user, p, Some(x));
  }

  /** Attaching an external id that no other user holds. */
  lemma AttachKeepsInv(a: Accounts, user: Uuid, p: Provider, i: Identity, x: string)
    requires Inv(a) && user in a.users && SupportsLogin(p) && i.external == Some(x)
    requires forall v :: Holds(a, v, p, x) ==> v == user
    ensures Inv(Attached(a, user, p, i, x))
  {
    AttachKeepsLinks(a, user, p, i, x);
    AttachKeepsAccounts(a, user, p, i, x);
  }

  lemma AttachKeepsAccounts(a: Accounts, user: Uuid, p: Provider, i: Identity, x: string)
    requires AccountsConsistent(a) && user in a.users && SupportsLogin(p) && i.external == Some(x)
    ensures AccountsConsistent(Attached(a, user, p, i, x))
  {
    var b := Attached(a, user, p, i, x);
    assert (user, p) in b.identities;
    NoLockoutAfter(a, b, user);
    WellFormedAfter(a, b, user, p);
    SameEmailsStayUnique(a, b);
  }

  lemma AttachChangesOneLink(a: Accounts, user: Uuid, p: Provider, i: Identity, x: string)
    requires user in a.users && i.external == Some(x)
    ensures OnlyLinkChanged(a, Attached(a, user, p, i, x), user, p, Some(x))
  {
  }

  lemma NewUserKeepsLinks(a: Accounts, email: Option<string>, p: Provider, i: Identity, x: string)
    requires LinksConsistent(a) && WellFormed(a) && SupportsLogin(p) && i.external == Some(x)
    requires forall v :: !Holds(a, v, p, x)
    ensures LinksConsistent(Attached(AddUser(a, User(email, None, None, None)), a.nextId, p, i, x))
  {
    var added := AddUser(a, User(email, None, None, None));
    var b := Attached(added, a.nextId, p, i, x);
    AttachChangesOneLink(added, a.nextId, p, i, x);
    forall v, q ensures External(added, v, q) == External(a, v, q) {}
    assert OnlyLinkChanged(a, b, a.nextId, p, Some(x));
    assert a.nextId !in a.users;
    forall q ensures External(a, a.nextId, q) == None {}
    OneHolderAfter(a, b, a.nextId, p, Some(x));
    LinkedNotRevokedAfter(a, b, a.nextId, p, Some(x));
    CoupledAfter(a, b, a.nextId, p, Some(x));
  }

  /** A new user together with the first identity, for an external id nobody holds. */
  lemma NewUserKeepsInv(a: Accounts, email: Option<string>, p: Provider, i: Identity, x: string)
    requires Inv(a) && SupportsLogin(p) && i.external == Some(x)
    requires forall v :: !Holds(a, v, p, x)
    requires email.Some? ==> ByEmail(a, email.value).None?
    ensures Inv(Attached(AddUser(a, User(email, None, None, None)), a.nextId, p, i, x))
  {
    NewUserKeepsLinks(a, email, p, i, x);
    NewUserKeepsAccounts(a, email, p, i, x);
  }

  lemma NewUserKeepsAccounts(a: Accounts, email: Option<string>, p: Provider, i: Identity, x: string)
    requires AccountsConsistent(a) && SupportsLogin(p) && i.external == Some(x)
    requires email.Some? ==> ByEmail(a, email.value).None?
    ensures AccountsConsistent(Attached(AddUser(a, User(email, None, None, None)), a.nextId, p, i, x))
  {
    var b := Attached(AddUser(a, User(email, None, None, None)), a.nextId, p, i, x);
    assert a.nextId !in a.users;
    assert (a.nextId, p) in b.identities;
    NoLockoutAfter(a, b, a.nextId);
    WellFormedAfter(a, b, a.nextId, p);
    NewEmailIsUnique(a, b, a.nextId, email);
  }

  lemma NewEmailIsUnique(a: Accounts, b: Accounts, user: Uuid, email: Option<string>)
    requires UniqueEmails(a) && user !in a.users && b.users.Keys == a.users.Keys + {user}
    requires b.users[user].email == email && (email.Some? ==> ByEmail(a, email.value).None?)
    requires forall u :: u in a.users ==> b.users[u].email == a.users[u].email
    ensures UniqueEmails(b)
  {
    if email.Some? {
      NoneByEmail(a, email.value);
    }
  }

  function Detached(a: Accounts, user: Uuid, p: Provider): Accounts
    requires user in a.users && External(a, user, p).Some?
  {
    a.(users := a.users[user := WithColumn(a.users[user], p, None)],
       revoked := a.revoked[(p, External(a, user, p).value) := user],
       identities := a.identities - {(user, p)})
  }

  /** With more than one method, dropping one login identity leaves another method. */
  lemma AnotherMethodLeft(a: Accounts, user: Uuid, p: Provider)
    requires user in a.users && SupportsLogin(p) && External(a, user, p).Some? && AuthMethods(a, user) > 1
    ensures CanSignIn(Detached(a, user, p), user)
  {
    var b := Detached(a, user, p);
    if !HasPasswordLogin(a.users[user]) {
      assert exists q :: q != p && SupportsLogin(q) && (user, q) in a.identities;
      var q :| q != p && SupportsLogin(q) && (user, q) in a.identities;
      assert (user, q) in b.identities;
    }
  }

  lemma DetachKeepsLinks(a: Accounts, user: Uuid, p: Provider)
    requires LinksConsistent(a) && user in a.users && SupportsLogin(p) && External(a, user, p).Some?
    ensures LinksConsistent(Detached(a, user, p))
  {
    var b := Detached(a, user, p);
    DetachChangesOneLink(a, user, p);
    OneHolderAfter(a, b, user, p, None);
    LinkedNotRevokedAfter(a, b, user, p, None);
    CoupledAfter(a, b, user, p, None);
  }

  /** Removing a login identity of a user with another login method, and revoking its link. */
  lemma DetachKeepsInv(a: Accounts, user: Uuid, p: Provider)
    requires Inv(a) && user in a.users && SupportsLogin(p) && External(a, user, p).Some? && AuthMethods(a, user) > 1
    ensures Inv(Detached(a, user, p))
  {
    var b := Detached(a, user, p);
    DetachKeepsLinks(a, user, p);
    AnotherMethodLeft(a, user, p);
    NoLockoutAfter(a, b, user);
    WellFormedAfter(a, b, user, p);
    SameEmailsStayUnique(a, b);
  }

  lemma DetachChangesOneLink(a: Accounts, user: Uuid, p: Provider)
    requires user in a.users && External(a, user, p).Some?
    ensures OnlyLinkChanged(a, Detached(a, user, p), user, p, None)
  {
  }

  /** Changing nothing but email, password, session slot or a manual identity. */
  lemma ProfileWriteKeepsInv(a: Accounts, b: Accounts)
    requires Inv(a) && b.nextId == a.nextId && b.revoked == a.revoked && b.users.Keys == a.users.Keys
    requires forall k: IdentityKey :: SupportsLogin(k.1) ==> (k in b.identities <==> k in a.identities)
    requires forall k: IdentityKey :: SupportsLogin(k.1) && k in a.identities ==>
        b.identities[k].external == a.identities[k].external
    requires forall k :: k in b.identities ==> k.0 in a.users
    requires forall u :: u in a.users ==>
               && b.users[u].steam == a.users[u].steam && b.users[u].apple == a.users[u].apple
               && (HasPasswordLogin(a.users[u]) ==> HasPasswordLogin(b.users[u]))
    requires UniqueEmails(b) && forall u :: u in b.sessions ==> u in a.users
    ensures Inv(b)
  {
    forall v, q | SupportsLogin(q) ensures External(b, v, q) == External(a, v, q) {}
    forall v | v in b.users ensures CanSignIn(b, v) {
      assert CanSignIn(a, v);
      if q :| SupportsLogin(q) && (v, q) in a.identities {
        assert (v, q) in b.identities;
      }
    }
  }

  lemma SignInKeepsInv(a: Accounts, user: Uuid, now: int)
    requires Inv(a) && user in a.users
    ensures Inv(SignIn(a, user, now).accounts)
  {
    ProfileWriteKeepsInv(a, SignIn(a, user, now).accounts);
  }

  // ---------------------------------------------------------------- requests

  /** A Discord refresh answers for the account the refresh token was issued to. */
  ghost predicate HonestDiscord(a: Accounts, r: Request) {
    r.ViewOwnProfile? && r.discord.Some? ==> External(a, r.user, Discord) == Some(r.discord.value.id)
  }

  ghost predicate KeepsInv(a: Accounts, now: int, r: Request) {
    Step(a, now, r).Ok? ==> Inv(Step(a, now, r).value.accounts)
  }

  /** With consistent lookups a Steam login attaches the id to its holder, or to a new user. */
  lemma SteamSignInShape(a: Accounts, now: int, x: string, profileOk: bool)
    requires Holder(a, Steam, x).Ok? && BySteam(a, x) == Holder(a, Steam, x).value
    requires BySteam(a, x).Some? ==> BySteam(a, x).value in a.users && (Steam, x) !in a.revoked
    requires SteamSignedIn(a, now, Some(x), profileOk).Ok?
    ensures var i := Identity(Some(x), None, Some(now));
            SteamSignedIn(a, now, Some(x), profileOk).value ==
            if BySteam(a, x).Some? then SignIn(Attached(a, BySteam(a, x).value, Steam, i, x), BySteam(a, x).value, now)
            else SignIn(Attached(AddUser(a, User(None, None, None, None)), a.nextId, Steam, i, x), a.nextId, now)
  {
    assert (Steam, x) !in a.revoked;
    assert a.revoked - {(Steam, x)} == a.revoked;
    assert AddUser(a, User(None, None, Some(x), None)).users
        == AddUser(a, User(None, None, None, None)).users[a.nextId := User(None, None, Some(x), None)];
  }

  lemma SteamSignInKeepsInv(a: Accounts, now: int, steamId: Option<string>, profileOk: bool)
    requires Inv(a) && SteamSignedIn(a, now, steamId, profileOk).Ok?
    ensures Inv(SteamSignedIn(a, now, steamId, profileOk).value.accounts)
  {
    var x := steamId.value;
    var i := Identity(Some(x), None, Some(now));
    HolderIsTheHolder(a, Steam, x);
    BySteamIsTheHolder(a, x);
    SteamSignInShape(a, now, x, profileOk);
    AttachOrCreateKeepsInv(a, BySteam(a, x), None, Steam, i, x, now);
  }

  lemma AppleSignInShape(a: Accounts, now: int, info: AppleInfo)
    requires var x := info.sub;
             && Holder(a, Apple, x).Ok? && ByApple(a, x) == Holder(a, Apple, x).value
             && (ByApple(a, x).Some? ==> HasApple(a, ByApple(a, x).value, x) && (Apple, x) !in a.revoked)
    requires AppleSignedIn(a, now, Some(info)).Ok?
    ensures var i, x := Identity(Some(info.sub), None, None), info.sub;
            AppleSignedIn(a, now, Some(info)).value ==
            if ByApple(a, x).Some? then SignIn(Attached(a, ByApple(a, x).value, Apple, i, x), ByApple(a, x).value, now)
            else SignIn(Attached(AddUser(a, User(info.email, None, None, None)), a.nextId, Apple, i, x), a.nextId, now)
  {
    var x := info.sub;
    assert (Apple, x) !in a.revoked;
    assert a.revoked - {(Apple, x)} == a.revoked;
    if ByApple(a, x).Some? {
      var u := ByApple(a, x).value;
      assert a.users[u := a.users[u].(apple := Some(x))] == a.users;
    } else {
      assert AddUser(a, User(info.email, None, None, Some(x))).users
          == AddUser(a, User(info.email, None, None, None)).users[a.nextId := User(info.email, None, None, Some(x))];
    }
  }

  lemma AppleSignInKeepsInv(a: Accounts, now: int, info: Option<AppleInfo>)
    requires Inv(a) && AppleSignedIn(a, now, info).Ok?
    ensures Inv(AppleSignedIn(a, now, info).value.accounts)
  {
    var x := info.value.sub;
    HolderIsTheHolder(a, Apple, x);
    ByAppleIsTheHolder(a, x);
    AppleSignInShape(a, now, info.value);
    AttachOrCreateKeepsInv(a, ByApple(a, x), info.value.email, Apple, Identity(Some(x), None, None), x, now);
  }

  lemma DiscordSignInShape(a: Accounts, now: int, d: DiscordProfile)
    requires var h := Holder(a, Discord, d.id); h.Ok? && (h.value.Some? ==> h.value.value in a.users)
    requires DiscordSignedIn(a, now, true, Some(d)).Ok?
    ensures var i, h := Identity(Some(d.id), d.refreshToken, Some(now)), Holder(a, Discord, d.id).value;
            DiscordSignedIn(a, now, true, Some(d)).value ==
            if h.Some? then SignIn(Attached(a, h.value, Discord, i, d.id), h.value, now)
            else SignIn(Attached(AddUser(a, User(d.email, None, None, None)), a.nextId, Discord, i, d.id), a.nextId,
                now)
  {
    var h := Holder(a, Discord, d.id).value;
    if h.Some? {
      assert a.users[h.value := a.users[h.value]] == a.users;
    } else {
      var b := AddUser(a, User(d.email, None, None, None));
      assert b.users[a.nextId := b.users[a.nextId]] == b.users;
    }
  }

  lemma DiscordSignInKeepsInv(a: Accounts, now: int, configured: bool, profile: Option<DiscordProfile>)
    requires Inv(a) && DiscordSignedIn(a, now, configured, profile).Ok?
    ensures Inv(DiscordSignedIn(a, now, configured, profile).value.accounts)
  {
    var d := profile.value;
    HolderIsTheHolder(a, Discord, d.id);
    DiscordSignInShape(a, now, d);
    AttachOrCreateKeepsInv(
      a, Holder(a, Discord, d.id).value, d.email, Discord, Identity(Some(d.id), d.refreshToken, Some(now)), d.id, now);
  }

  /** Either way of signing in with an external id keeps the invariant. */
  lemma AttachOrCreateKeepsInv(
    a: Accounts, found: Option<Uuid>, email: Option<string>, p: Provider, i: Identity, x: string, now: int)
    requires Inv(a) && SupportsLogin(p) && i.external == Some(x)
    requires found.Some? ==> found.value in a.users && forall v :: Holds(a, v, p, x) ==> v == found.value
    requires found.None? ==> (forall v :: !Holds(a, v, p, x)) && (email.Some? ==> ByEmail(a, email.value).None?)
    ensures found.Some? ==> Inv(SignIn(Attached(a, found.value, p, i, x), found.value, now).accounts)
    ensures found.None? ==>
              Inv(SignIn(Attached(AddUser(a, User(email, None, None, None)), a.nextId, p, i, x), a.nextId,
                  now).accounts)
  {
    if found.Some? {
      AttachKeepsInv(a, found.value, p, i, x);
      SignInKeepsInv(Attached(a, found.value, p, i, x), found.value, now);
    } else {
      NewUserKeepsInv(a, email, p, i, x);
      SignInKeepsInv(Attached(AddUser(a, User(email, None, None, None)), a.nextId, p, i, x), a.nextId, now);
    }
  }

  lemma SteamLinkKeepsInv(a: Accounts, now: int, user: Uuid, steamId: Option<string>, profileOk: bool)
    requires Inv(a) && SteamLinked(a, now, user, steamId, profileOk).Ok?
    ensures Inv(SteamLinked(a, now, user, steamId, profileOk).value.accounts)
  {
    var x := steamId.value;
    HolderIsTheHolder(a, Steam, x);
    AttachKeepsInv(a, user, Steam, Identity(Some(x), None, Some(now)), x);
  }

  lemma AppleLinkKeepsInv(a: Accounts, user: Uuid, info: Option<AppleInfo>)
    requires Inv(a) && AppleLinked(a, user, info).Ok?
    ensures Inv(AppleLinked(a, user, info).value.accounts)
  {
    var x := info.value.sub;
    AppleLinkAttaches(a, user, info);
    HolderIsTheHolder(a, Apple, x);
    AttachKeepsInv(a, user, Apple, Identity(Some(x), None, None), x);
  }

  lemma AppleLinkAttaches(a: Accounts, user: Uuid, info: Option<AppleInfo>)
    requires AppleLinked(a, user, info).Ok?
    ensures var x := info.value.sub;
            && user in a.users && Holder(a, Apple, x).Ok?
            && (Holder(a, Apple, x).value.Some? ==> Holder(a, Apple, x).value.value == user)
            && AppleLinked(a, user, info).value.accounts
               == Attached(a, user, Apple, Identity(Some(x), None, None), x)
  {
  }

  lemma DiscordLinkKeepsInv(a: Accounts, now: int, user: Uuid, profile: Option<DiscordProfile>)
    requires Inv(a) && DiscordLinked(a, now, user, profile).Ok?
    ensures Inv(DiscordLinked(a, now, user, profile).value.accounts)
  {
    var d := profile.value;
    HolderIsTheHolder(a, Discord, d.id);
    assert a.users[user := a.users[user]] == a.users;
    AttachKeepsInv(a, user, Discord, Identity(Some(d.id), d.refreshToken, Some(now)), d.id);
  }

  lemma SteamUnlinkKeepsInv(a: Accounts, user: Uuid)
    requires Inv(a) && SteamUnlinked(a, user).Ok?
    ensures Inv(SteamUnlinked(a, user).value.accounts)
  {
    if a.users[user].steam.Some? {
      assert External(a, user, Steam) == a.users[user].steam;
      DetachKeepsInv(a, user, Steam);
    }
  }

  lemma AppleUnlinkKeepsInv(a: Accounts, user: Uuid)
    requires Inv(a) && AppleUnlinked(a, user).Ok?
    ensures Inv(AppleUnlinked(a, user).value.accounts)
  {
    if a.users[user].apple.Some? {
      assert External(a, user, Apple) == a.users[user].apple;
      DetachKeepsInv(a, user, Apple);
    }
  }

  lemma DiscordUnlinkKeepsInv(a: Accounts, user: Uuid)
    requires Inv(a) && DiscordUnlinked(a, user).Ok?
    ensures Inv(DiscordUnlinked(a, user).value.accounts)
  {
    if External(a, user, Discord).Some? {
      DetachKeepsInv(a, user, Discord);
      assert a.users[user := a.users[user]] == a.users;
    }
  }

  lemma RegisterKeepsInv(a: Accounts, now: int, email: Email, hash: Hash)
    requires Inv(a) && Registered(a, now, email, hash).Ok?
    ensures Inv(Registered(a, now, email, hash).value.accounts)
  {
    NoneByEmail(a, email);
    var b := AddUser(a, User(Some(email), Some(hash), None, None));
    forall q ensures External(b, a.nextId, q) == None {
      assert a.nextId !in a.users;
    }
    forall v: Uuid, q ensures External(b, v, q) == External(a, v, q) {}
    forall v | v in b.users ensures CanSignIn(b, v) {
      if v == a.nextId {
        assert HasPasswordLogin(b.users[v]);
      } else {
        assert CanSignIn(a, v);
        if q :| SupportsLogin(q) && (v, q) in a.identities {
          assert (v, q) in b.identities;
        }
      }
    }
    assert Inv(b);
    SignInKeepsInv(b, a.nextId, now);
  }

  lemma NewEmailStaysUnique(a: Accounts, user: Uuid, u: User)
    requires UniqueEmails(a) && user in a.users && u.email.Some?
    requires forall v :: HasEmail(a, v, u.email.value) ==> v == user
    ensures UniqueEmails(SetUser(a, user, u))
  {
    var b := SetUser(a, user, u);
    forall v, w | v in b.users && w in b.users && b.users[v].email.Some? && b.users[v].email == b.users[w].email
      ensures v == w
    {
      assert w == user || v == user || a.users[v].email == a.users[w].email;
      if v == user && w != user {
        assert HasEmail(a, w, u.email.value);
      }
      if w == user && v != user {
        assert HasEmail(a, v, u.email.value);
      }
    }
  }

  lemma OnlyOwnerOfEmail(a: Accounts, user: Uuid, email: string)
    requires UniqueEmails(a) && user in a.users
    requires a.users[user].email == Some(email) || ByEmail(a, email).None? || ByEmail(a, email).value == user
    ensures forall v :: HasEmail(a, v, email) ==> v == user
  {
    forall v | HasEmail(a, v, email) ensures v == user {
      assert HasEmail(a, ByEmail(a, email).value, email);
    }
  }

  lemma EmailWriteKeepsInv(a: Accounts, user: Uuid, u: User)
    requires Inv(a) && user in a.users && u.email.Some?
    requires u.steam == a.users[user].steam && u.apple == a.users[user].apple
    requires HasPasswordLogin(a.users[user]) ==> HasPasswordLogin(u)
    requires a.users[user].email == u.email || ByEmail(a, u.email.value).None?
        || ByEmail(a, u.email.value).value == user
    ensures Inv(SetUser(a, user, u))
  {
    OnlyOwnerOfEmail(a, user, u.email.value);
    NewEmailStaysUnique(a, user, u);
    ProfileWriteKeepsInv(a, SetUser(a, user, u));
  }

  /** Under the invariant there is never anything to synchronise. */
  lemma LegacySyncIsNoOp(a: Accounts, user: Uuid)
    requires Inv(a) && user in a.users
    ensures LegacySynced(a, user) == a
  {
  }

  lemma RefreshKeepsInv(a: Accounts, now: int, user: Uuid, steamOk: bool, discord: Option<DiscordProfile>)
    requires Inv(a) && user in a.users
    requires discord.Some? ==> External(a, user, Discord) == Some(discord.value.id)
    requires StaleRefreshed(a, now, user, steamOk, discord).Ok?
    ensures Inv(StaleRefreshed(a, now, user, steamOk, discord).value)
  {
    var b := StaleRefreshed(a, now, user, steamOk, discord).value;
    RefreshRewritesIdentities(a, now, user, steamOk, discord);
    ProfileWriteKeepsInv(a, b);
  }

  /** A refresh rewrites identity rows of its user, under the external ids they have. */
  lemma RefreshRewritesIdentities(a: Accounts, now: int, user: Uuid, steamOk: bool, discord: Option<DiscordProfile>)
    requires discord.Some? ==> External(a, user, Discord) == Some(discord.value.id)
    requires StaleRefreshed(a, now, user, steamOk, discord).Ok?
    ensures var b := StaleRefreshed(a, now, user, steamOk, discord).value;
            && b == a.(identities := b.identities) && b.identities.Keys == a.identities.Keys
            && forall k :: k in a.identities ==> b.identities[k].external == a.identities[k].external
  {
  }

  lemma PasswordLoginKeepsInv(a: Accounts, now: int, email: string, matches: bool)
    requires Inv(a) && LoggedIn(a, now, email, matches).Ok?
    ensures Inv(LoggedIn(a, now, email, matches).value.accounts)
  {
    SignInKeepsInv(a, ByEmail(a, email).value, now);
  }

  predicate StartsSession(r: Request) {
    r.Register? || r.PasswordLogin? || r.RefreshSession? || r.SteamAuth? || r.DiscordAuth? || r.AppleAuth?
  }

  lemma SessionStepKeepsInv(a: Accounts, now: int, r: Request)
    requires Inv(a) && StartsSession(r) && Step(a, now, r).Ok?
    ensures Inv(Step(a, now, r).value.accounts)
  {
    match r
    case Register(email, hash) => RegisterKeepsInv(a, now, email, hash);
    case PasswordLogin(email, matches) => PasswordLoginKeepsInv(a, now, email, matches);
    case RefreshSession(token) => SignInKeepsInv(a, token.value.user, now);
    case SteamAuth(id, ok) => SteamSignInKeepsInv(a, now, id, ok);
    case DiscordAuth(configured, profile) => DiscordSignInKeepsInv(a, now, configured, profile);
    case AppleAuth(info) => AppleSignInKeepsInv(a, now, info);
  }

  predicate ChangesLinks(r: Request) {
    r.LinkSteam? || r.LinkDiscord? || r.LinkApple? || r.UnlinkSteam? || r.UnlinkDiscord? || r.UnlinkApple?
  }

  lemma LinkStepKeepsInv(a: Accounts, now: int, r: Request)
    requires Inv(a) && ChangesLinks(r) && Step(a, now, r).Ok?
    ensures Inv(Step(a, now, r).value.accounts)
  {
    match r
    case LinkSteam(u, id, ok) => SteamLinkKeepsInv(a, now, u, id, ok);
    case LinkDiscord(u, profile) => DiscordLinkKeepsInv(a, now, u, profile);
    case LinkApple(u, info) => AppleLinkKeepsInv(a, u, info);
    case UnlinkSteam(u) => SteamUnlinkKeepsInv(a, u);
    case UnlinkDiscord(u) => DiscordUnlinkKeepsInv(a, u);
    case UnlinkApple(u) => AppleUnlinkKeepsInv(a, u);
  }

  lemma ManualStepKeepsInv(a: Accounts, now: int, r: Request)
    requires Inv(a) && (r.PutManualIdentity? || r.DeleteManualIdentity?) && Step(a, now, r).Ok?
    ensures Inv(Step(a, now, r).value.accounts)
  {
    ProfileWriteKeepsInv(a, Step(a, now, r).value.accounts);
  }

  lemma AccountStepKeepsInv(a: Accounts, now: int, r: Request)
    requires Inv(a) && HonestDiscord(a, r) && !StartsSession(r) && !ChangesLinks(r) && Step(a, now, r).Ok?
    ensures Inv(Step(a, now, r).value.accounts)
  {
    match r
    case SetEmailPassword(u, email, hash) =>
      EmailWriteKeepsInv(a, u, a.users[u].(email := Some(email), hash := Some(hash)));
    case ChangeEmail(u, email) => EmailWriteKeepsInv(a, u, a.users[u].(email := Some(email)));
    case PutManualIdentity(_, _, _, _) => ManualStepKeepsInv(a, now, r);
    case DeleteManualIdentity(_, _) => ManualStepKeepsInv(a, now, r);
    case ViewOwnProfile(u, ok, d) =>
      LegacySyncIsNoOp(a, u);
      RefreshKeepsInv(a, now, u, ok, d);
    case ViewUser(u) => LegacySyncIsNoOp(a, u);
  }

  lemma StepKeepsInv(a: Accounts, now: int, r: Request)
    requires Inv(a) && HonestDiscord(a, r)
    ensures KeepsInv(a, now, r)
  {
    if Step(a, now, r).Ok? {
      if StartsSession(r) {
        SessionStepKeepsInv(a, now, r);
      } else if ChangesLinks(r) {
        LinkStepKeepsInv(a, now, r);
      } else {
        AccountStepKeepsInv(a, now, r);
      }
    }
  }

  predicate LoginWith(r: Request, p: Provider, x: string) {
    match r
    case SteamAuth(id, _) => p == Steam && id == Some(x)
    case DiscordAuth(configured, d) => p == Discord && configured && d.Some? && d.value.id == x
    case AppleAuth(info) => p == Apple && info.Some? && info.value.sub == x
    case _ => false
  }

  predicate LinkWith(r: Request, p: Provider, x: string) {
    match r
    case LinkSteam(_, id, _) => p == Steam && id == Some(x)
    case LinkDiscord(_, d) => p == Discord && d.Some? && d.value.id == x
    case LinkApple(_, info) => p == Apple && info.Some? && info.value.sub == x
    case _ => false
  }

  predicate Unlinks(r: Request, p: Provider) {
    (r.UnlinkSteam? && p == Steam) || (r.UnlinkDiscord? && p == Discord) || (r.UnlinkApple? && p == Apple)
  }

  // ---------------------------------------------------------------- what a handler promises its callers

  /** The invariant, with the unique columns that follow from it. */
  ghost predicate Consistent(a: Accounts) { Inv(a) && UniqueColumns(a) }

  /** Of everybody, exactly this user holds the external id. */
  ghost predicate SoleHolder(a: Accounts, user: Uuid, p: Provider, x: string) {
    forall v :: Holds(a, v, p, x) <==> v == user
  }

  ghost predicate SignsIn(a: Accounts, user: Uuid) { user in a.users && CanSignIn(a, user) }

  /** Requests of a signed-in user about the own account. */
  predicate ActsOnAccount(r: Request) {
    ChangesLinks(r) || r.SetEmailPassword? || r.ChangeEmail? || r.PutManualIdentity? || r.DeleteManualIdentity?
  }

  lemma UsersStay(a: Accounts, now: int, r: Request)
    requires ActsOnAccount(r) && Step(a, now, r).Ok?
    ensures r.user in Step(a, now, r).value.accounts.users
  {
  }

  /** Nobody is locked out by a request of their own. */
  lemma AccessStays(a: Accounts, now: int, r: Request)
    requires Inv(a) && ActsOnAccount(r) && Step(a, now, r).Ok?
    ensures SignsIn(Step(a, now, r).value.accounts, r.user)
  {
    UsersStay(a, now, r);
    StepKeepsInv(a, now, r);
  }

  lemma OnlyHolderFound(a: Accounts, p: Provider, x: string, user: Uuid)
    requires Holder(a, p, x).Ok? && (Holder(a, p, x).value.Some? ==> Holder(a, p, x).value.value == user)
    ensures forall v :: Holds(a, v, p, x) ==> v == user
  {
  }

  lemma AttachedIsSole(a: Accounts, user: Uuid, p: Provider, i: Identity, x: string)
    requires user in a.users && i.external == Some(x) && forall v :: Holds(a, v, p, x) ==> v == user
    ensures SoleHolder(Attached(a, user, p, i, x), user, p, x)
  {
    var b := Attached(a, user, p, i, x);
    AttachChangesOneLink(a, user, p, i, x);
    forall v ensures Holds(b, v, p, x) <==> v == user {
      assert External(b, v, p) == if v == user then Some(x) else External(a, v, p);
      assert Holds(a, v, p, x) ==> v == user;
    }
  }

  /** Whatever the tables: a successful link makes the user the only holder of the id. */
  lemma LinkIsExclusive(a: Accounts, now: int, r: Request, p: Provider, x: string)
    requires LinkWith(r, p, x) && Step(a, now, r).Ok?
    ensures SoleHolder(Step(a, now, r).value.accounts, r.user, p, x)
  {
    OnlyHolderFound(a, p, x, r.user);
    match r
    case LinkSteam(u, _, _) => AttachedIsSole(a, u, Steam, Identity(Some(x), None, Some(now)), x);
    case LinkApple(u, _) => AttachedIsSole(a, u, Apple, Identity(Some(x), None, None), x);
    case LinkDiscord(u, d) =>
      assert a.users[u := a.users[u]] == a.users;
      AttachedIsSole(a, u, Discord, Identity(Some(x), d.value.refreshToken, Some(now)), x);
  }

  lemma OneHolderIsSole(a: Accounts, user: Uuid, p: Provider, x: string)
    requires OneHolder(a) && SupportsLogin(p) && Holds(a, user, p, x)
    ensures SoleHolder(a, user, p, x)
  {
    forall v | Holds(a, v, p, x) ensures v == user {
      assert External(a, v, p) == External(a, user, p);
    }
  }

  lemma LoginHolds(a: Accounts, now: int, r: Request, p: Provider, x: string)
    requires LoginWith(r, p, x) && Step(a, now, r).Ok? && Inv(a)
    ensures var o := Step(a, now, r).value; o.signedIn.Some? && Holds(o.accounts, o.signedIn.value, p, x)
  {
    match r
    case SteamAuth(id, ok) =>
      HolderIsTheHolder(a, Steam, x);
      BySteamIsTheHolder(a, x);
      SteamSignInShape(a, now, x, ok);
    case DiscordAuth(_, d) =>
      HolderIsTheHolder(a, Discord, x);
      DiscordSignInShape(a, now, d.value);
    case AppleAuth(info) =>
      HolderIsTheHolder(a, Apple, x);
      ByAppleIsTheHolder(a, x);
      AppleSignInShape(a, now, info.value);
  }

  /** Whoever signs in with an external id holds it alone. */
  lemma LoginIsExclusive(a: Accounts, now: int, r: Request, p: Provider, x: string)
    requires LoginWith(r, p, x) && Step(a, now, r).Ok? && Inv(a)
    ensures var o := Step(a, now, r).value; o.signedIn.Some? && SoleHolder(o.accounts, o.signedIn.value, p, x)
  {
    LoginHolds(a, now, r, p, x);
    StepKeepsInv(a, now, r);
    OneHolderIsSole(Step(a, now, r).value.accounts, Step(a, now, r).value.signedIn.value, p, x);
  }

  /** What a handler promises, for every request that succeeds in a consistent state. */
  ghost predicate Promises(o: Outcome, r: Request) {
    && Consistent(o.accounts)
    && (ActsOnAccount(r) ==> SignsIn(o.accounts, r.user))
    && (forall p, x :: LinkWith(r, p, x) ==> SoleHolder(o.accounts, r.user, p, x))
    && (forall p, x :: LoginWith(r, p, x) ==> o.signedIn.Some? && SoleHolder(o.accounts, o.signedIn.value, p, x))
  }

  lemma PromisesKept(a: Accounts, now: int, r: Request)
    requires Consistent(a) && HonestDiscord(a, r)
    ensures Step(a, now, r).Ok? ==> Promises(Step(a, now, r).value, r)
  {
    if Step(a, now, r).Ok? {
      StepKeepsInv(a, now, r);
      ColumnsAreUnique(Step(a, now, r).value.accounts);
      if ActsOnAccount(r) {
        AccessStays(a, now, r);
      }
      forall p, x | LinkWith(r, p, x) ensures SoleHolder(Step(a, now, r).value.accounts, r.user, p, x) {
        LinkIsExclusive(a, now, r, p, x);
      }
      forall p, x | LoginWith(r, p, x)
        ensures var o := Step(a, now, r).value; o.signedIn.Some? && SoleHolder(o.accounts, o.signedIn.value, p, x)
      {
        LoginIsExclusive(a, now, r, p, x);
      }
    }
  }

  // ---------------------------------------------------------------- runs

  datatype Turn = Turn(now: int, request: Request)

  ghost function Then(a: Accounts, t: Turn): Accounts {
    var r := Step(a, t.now, t.request);
    if r.Ok? then r.value.accounts else a
  }

  ghost function After(a: Accounts, run: seq<Turn>): Accounts {
    if run == [] then a else Then(After(a, run[..|run| - 1]), run[|run| - 1])
  }

  ghost predicate Honest(a: Accounts, run: seq<Turn>) {
    run == [] ||
    (Honest(a, run[..|run| - 1]) && HonestDiscord(After(a, run[..|run| - 1]), run[|run| - 1].request))
  }

  lemma {:induction false} HonestSoFar(a: Accounts, run: seq<Turn>, i: nat)
    requires Honest(a, run) && i < |run|
    ensures HonestDiscord(After(a, run[..i]), run[i].request)
  {
    var init := run[..|run| - 1];
    if i < |init| {
      HonestSoFar(a, init, i);
      assert init[..i] == run[..i];
    }
  }

  lemma {:induction false} RunKeepsInv(a: Accounts, run: seq<Turn>)
    requires Inv(a) && Honest(a, run)
    ensures Inv(After(a, run))
  {
    if run != [] {
      var init, last := run[..|run| - 1], run[|run| - 1];
      RunKeepsInv(a, init);
      StepKeepsInv(After(a, init), last.now, last.request);
    }
  }

  /** Columns and identities agree, links are exclusive and not revoked, nobody is locked out. */
  lemma ReachableAccountsAreConsistent(refreshDays: Days, run: seq<Turn>)
    requires Honest(NoAccounts(refreshDays), run)
    ensures var a := After(NoAccounts(refreshDays), run);
            Coupled(a) && OneHolder(a) && LinkedNotRevoked(a) && NoLockout(a) && UniqueEmails(a)
  {
    RunKeepsInv(NoAccounts(refreshDays), run);
  }

  // ---------------------------------------------------------------- unlinked logins

  /** A login through provider `p` whose validation yields the external id `x`. */
  lemma NobodyHoldsRevoked(a: Accounts, p: Provider, x: string)
    requires Inv(a) && SupportsLogin(p) && (p, x) in a.revoked
    ensures Holder(a, p, x) == Ok(None)
    ensures p == Steam ==> BySteam(a, x) == None
    ensures p == Apple ==> ByApple(a, x) == None
  {
    HolderIsTheHolder(a, p, x);
    if p == Steam {
      BySteamIsTheHolder(a, x);
    } else if p == Apple {
      ByAppleIsTheHolder(a, x);
    }
  }

  /** A direct login with a revoked link fails with relink-required, whatever the provider's profile call does. */
  lemma RevokedLoginFails(a: Accounts, now: int, r: Request, p: Provider, x: string)
    requires Inv(a) && SupportsLogin(p) && (p, x) in a.revoked && LoginWith(r, p, x)
    ensures Step(a, now, r) == Err(RelinkRequired)
  {
    NobodyHoldsRevoked(a, p, x);
  }

  /** What a request can remove from the revocations. */
  lemma RevocationsKept(a: Accounts, now: int, r: Request, p: Provider, x: string)
    requires (p, x) in a.revoked && Step(a, now, r).Ok?
    requires !LinkWith(r, p, x) && !(r.DiscordAuth? && LoginWith(r, p, x))
    ensures (p, x) in Step(a, now, r).value.accounts.revoked
  {
    match r
    case Register(_, _) =>
    case PasswordLogin(_, _) =>
    case RefreshSession(_) =>
    case SteamAuth(_, _) =>
    case DiscordAuth(_, _) =>
    case AppleAuth(_) =>
    case LinkSteam(_, _, _) =>
    case LinkDiscord(_, _) =>
    case LinkApple(_, _) =>
    case UnlinkSteam(_) =>
    case UnlinkDiscord(_) =>
    case UnlinkApple(_) =>
    case SetEmailPassword(_, _, _) =>
    case ChangeEmail(_, _) =>
    case PutManualIdentity(_, _, _, _) =>
    case DeleteManualIdentity(_, _) =>
    case ViewOwnProfile(_, _, _) =>
    case ViewUser(_) =>
  }

  /** Only a successful link with `x` itself takes the revocation away. */
  lemma RevocationSurvives(a: Accounts, t: Turn, p: Provider, x: string)
    requires Inv(a) && SupportsLogin(p) && (p, x) in a.revoked
    requires !LinkWith(t.request, p, x) || Step(a, t.now, t.request).Err?
    ensures (p, x) in Then(a, t).revoked
  {
    if Step(a, t.now, t.request).Ok? {
      if LoginWith(t.request, p, x) {
        RevokedLoginFails(a, t.now, t.request, p, x);
      } else {
        RevocationsKept(a, t.now, t.request, p, x);
      }
    }
  }

  /**
    From the moment a link is revoked, every direct login with it fails with relink-required at
    every point of any run until a link request with the same external id succeeds.
  */
  lemma {:induction false} RevokedUntilRelinked(a: Accounts, run: seq<Turn>, p: Provider, x: string)
    requires Inv(a) && Honest(a, run) && SupportsLogin(p) && (p, x) in a.revoked
    requires forall i :: 0 <= i < |run| && LinkWith(run[i].request, p, x) ==>
                           Step(After(a, run[..i]), run[i].now, run[i].request).Err?
    ensures (p, x) in After(a, run).revoked
    ensures forall i :: 0 <= i < |run| && LoginWith(run[i].request, p, x) ==>
                          Step(After(a, run[..i]), run[i].now, run[i].request) == Err(RelinkRequired)
  {
    if run != [] {
      var init, last := run[..|run| - 1], run[|run| - 1];
      forall i | 0 <= i < |init| ensures init[..i] == run[..i] {}
      RevokedUntilRelinked(a, init, p, x);
      RunKeepsInv(a, init);
      RevocationSurvives(After(a, init), last, p, x);
      forall i | 0 <= i < |run| && LoginWith(run[i].request, p, x)
        ensures Step(After(a, run[..i]), run[i].now, run[i].request) == Err(RelinkRequired)
      {
        if i == |run| - 1 {
          RevokedLoginFails(After(a, init), last.now, last.request, p, x);
        } else {
          assert init[i] == run[i] && init[..i] == run[..i];
        }
      }
    }
  }

  /** A successful unlink of a linked provider leaves its external id revoked and held by nobody. */
  lemma UnlinkWrites(a: Accounts, now: int, r: Request, p: Provider)
    requires Coupled(a) && Unlinks(r, p) && Step(a, now, r).Ok? && External(a, r.user, p).Some?
    ensures var b, x := Step(a, now, r).value.accounts, External(a, r.user, p).value;
            (p, x) in b.revoked && b.sessions == a.sessions && b.users.Keys == a.users.Keys
  {
  }

  lemma UnlinkRevokes(a: Accounts, now: int, r: Request, p: Provider)
    requires Inv(a) && Unlinks(r, p) && Step(a, now, r).Ok? && External(a, r.user, p).Some?
    ensures var b, x := Step(a, now, r).value.accounts, External(a, r.user, p).value;
            (p, x) in b.revoked && Holder(b, p, x) == Ok(None) && b.sessions == a.sessions
                && b.users.Keys == a.users.Keys
  {
    UnlinkWrites(a, now, r, p);
    LinkStepKeepsInv(a, now, r);
    NobodyHoldsRevoked(Step(a, now, r).value.accounts, p, External(a, r.user, p).value);
  }

  // ---------------------------------------------------------------- Discord refresh and refresh tokens

  /**
    Without the assumption on the provider: when a refresh is due and Discord answers with account
    `y`, the invariant is kept exactly if nobody else holds `y` and `y` is not revoked.
  */
  lemma DiscordRefreshKeepsInvIff(a: Accounts, now: int, user: Uuid, steamOk: bool, d: DiscordProfile)
    requires Inv(a) && user in a.users && DiscordDue(a, user, now)
    requires StaleRefreshed(a, now, user, steamOk, Some(d)).Ok?
    ensures Inv(StaleRefreshed(a, now, user, steamOk, Some(d)).value) <==>
            (Discord, d.id) !in a.revoked && (forall v :: Holds(a, v, Discord, d.id) ==> v == user)
  {
    var b := StaleRefreshed(a, now, user, steamOk, Some(d)).value;
    if (Discord, d.id) !in a.revoked && forall v :: Holds(a, v, Discord, d.id) ==> v == user {
      AttachKeepsInv(a, user, Discord, b.identities[(user, Discord)], d.id);
      RefreshOfAttached(a, now, user, steamOk, d);
    } else {
      assert External(b, user, Discord) == Some(d.id);
      if v :| Holds(a, v, Discord, d.id) && v != user {
        assert External(b, v, Discord) == Some(d.id);
        assert !OneHolder(b);
      } else {
        assert !LinkedNotRevoked(b);
      }
    }
  }

  lemma RefreshOfAttached(a: Accounts, now: int, user: Uuid, steamOk: bool, d: DiscordProfile)
    requires user in a.users && DiscordDue(a, user, now) && (Discord, d.id) !in a.revoked
    requires StaleRefreshed(a, now, user, steamOk, Some(d)).Ok?
    requires Inv(Attached(a, user, Discord,
        StaleRefreshed(a, now, user, steamOk, Some(d)).value.identities[(user, Discord)], d.id))
    ensures Inv(StaleRefreshed(a, now, user, steamOk, Some(d)).value)
  {
    var b := StaleRefreshed(a, now, user, steamOk, Some(d)).value;
    var c := Attached(a, user, Discord, b.identities[(user, Discord)], d.id);
    assert c.users == a.users && c.revoked == a.revoked;
    SteamRefreshOf(a, b, c, user, now);
    ProfileWriteKeepsInv(c, b);
  }

  /** Apart from the Discord row, a refresh only moves the Steam row's bookkeeping. */
  lemma SteamRefreshOf(a: Accounts, b: Accounts, c: Accounts, user: Uuid, now: int)
    requires (user, Discord) in b.identities
    requires c.identities == a.identities[(user, Discord) := b.identities[(user, Discord)]]
    requires b.identities == c.identities ||
             ((user, Steam) in a.identities &&
              b.identities == c.identities[(user, Steam) := Identity(External(a, user, Steam), None, Some(now))])
    ensures b.identities.Keys == c.identities.Keys
    ensures forall k :: k in c.identities ==> b.identities[k].external == c.identities[k].external
  {
  }

  /**
    A refresh token that was just used is accepted once more exactly if it was issued in the same
    second in which it was used (the new token is then the same token) and has not expired.
  */
  lemma ReusedRefreshTokenIff(a: Accounts, now: int, later: int, token: Token)
    requires Refreshed(a, now, Some(token)).Ok? && now <= later
    ensures Refreshed(Refreshed(a, now, Some(token)).value.accounts, later, Some(token)).Ok? <==>
            token.expires == now + a.refreshDays * 86400 && later < token.expires
  {
  }
}
