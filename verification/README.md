# Verified model of the backend's stateful core

A Dafny model of five components of the FastAPI backend that keep two or more stores in agreement
over unbounded runs, and of the small circular-time core of the notification gate. Each component
has four layers:

* a **specification**: the tables as a datatype and every request as a total function that either
  gives the new tables or one of the application's errors;
* an **object** in the form of the source (a class that owns the tables; methods that read, branch,
  loop and assign in the source's order), every method proved to do exactly what the specification
  function says. Each object is called through `Handle`, which keeps its invariant and states what a
  caller gets from it, and through `Serve`, which takes any number of requests and goes through exactly
  the states of the specified run;
* **meanings** (the `Effects` modules): for every request and every error, exactly when it is refused
  with that error, and for every success exactly which rows it writes, read off the tables before and
  after it; `Handle` promises both;
* **theorems over whole runs** of the specification.

| files | component |
|---|---|
| `PresenceReconcile`, `PresenceOverlap`, `ReadyIndex`, `StatusStore`, `PresenceHandlers`, `PresenceEvents` | sockets, online sets, ready flags, connection hashes |
| `CoordinationModel`, `CoordinationEffects`, `CoordinationReplay`, `CoordinationLosses`, `CoordinationService` | windows, sessions, RSVPs, activity log, published events |
| `AccountsModel`, `AccountsSafety`, `AccountsEffects`, `AccountsService` | users, provider identities, revoked links, session slots |
| `GroupsModel`, `GroupsSafety`, `GroupsEffects`, `GroupsService` | groups, memberships, join requests |
| `AvatarUrl`, `AvatarRoundTrip`, `AvatarSpellings`, `AvatarModel`, `AvatarSafety`, `AvatarLimits`, `AvatarJanitor`, `AvatarEffects`, `AvatarService` | avatar URLs, upload ledger, bucket, the three deleters |
| `QuietHours` | quiet hours and the gate around them |
| `Prelude` | `Option`, `Result`, `Patch`, ids, roles |

`dafny verify dfyconfig.toml` checks everything.

## Conventions

* The clock is a parameter of each step. Results that depend on its order require it to be monotone.
* One HTTP request is one atomic transaction; a raised error leaves the tables unchanged. Saving an
  avatar cleans the storage up behind its commit. Deleting a group sweeps the storage before the
  session commits (groups/routes.py:136-139, db/database.py:29-36), so there the outcome of the commit
  is an input of its own. Two places are finer: presence is also modelled one Redis command at a time,
  and requests may come between the visits of a janitor pass.
* The handlers of the service classes require only what the database itself guarantees (unique columns
  and codes, one RSVP per session and user), so that their error branches can be reached; `Handle` adds
  the invariant.
* Unique and NOT NULL violations, and a `scalar_one_or_none` that meets several rows, are failures.
* Ids are fresh. A UUID is its numeric value (the canonical text sorts in the same order), except in
  the avatar component, where ids are text because they are part of object keys.
* There is one API replica. Calls of one user to connect or disconnect do not overlap;
  `PresenceOverlap` drops this and gives the exact condition for the online sets to be right.
* Rolling back a session expires the records it has loaded, and reading an expired record of an async
  session raises; that is how SQLAlchemy is documented. The janitor rolls back in the middle of its loop
  and then reads the next record (avatar_upload_janitor.py:22-33), so a pass ends at the first failing
  visit.
* The lifetime of refresh tokens is a parameter, a positive number of days.
* What a provider, the object storage, password hashing or token signing answers is an input.
* Clients receive events in the order of the commits that published them. A hook that fails publishes
  nothing: `CoordinationReplay` is about runs in which none fails, `CoordinationLosses` about the others.

## Results in short

* **Presence.** With every SADD and SREM a step of its own, and any interleaving of different users,
  applying a user's unissued commands to the online sets always yields that user's group list. When
  calls of one user overlap too, an entry is right exactly if the last command about it that was
  issued says the same as the last one planned. The ready index never misses a live key when whole
  calls are atomic; at command granularity it does so exactly if every standing SETEX had an SADD as
  the last index command on its key; a member reported ready was set ready less than the time limit
  ago and not cleared since. Publish calls of a user alternate exactly if no disconnect came without
  an open socket; the events of one group need more, because the group list may differ between the
  sockets of a session: its listeners are always right about a user exactly if the lists of the
  first and the latest connect agree about the group.
* **Coordination.** Folding the published events over any earlier listing gives the current listing,
  also when the listing already reflects some of them. If hooks fail, an entry is current exactly if
  the last event about it that arrived carries the row of the last one published.
* **Accounts.** Columns, identities and revocations stay coupled; external ids have one holder;
  nobody is locked out; a revoked login fails until it is linked again. For an arbitrary Discord
  answer to a refresh the exact condition for keeping this is given, and for reusing a refresh
  token.
* **Groups.** One owner always; owners change only along transfers by the then-owner; without the
  owner nothing escalates; approval mode admits only by approval and conserves the member count.
* **Avatars.** Which URLs decode to which key is stated exactly, for every base and URL, and
  decoding the built URL returns the key exactly if the key is plain and the base usable. What each
  step deletes is stated exactly, for any tables and any URL. With a usable base, if everybody sets
  avatars only to null, to unmanaged URLs or to own uploads, no step loses the object of a current
  avatar, except the deletion of a group that reaches the object and then fails to commit. An owner
  who keeps to this while the others save any URL at all loses the object exactly if, besides, an
  avatar that another owner replaces decodes to its key and is cleaned up: nothing keeps a user from
  saving somebody else's URL and clearing it again. For saves outside the rule: the saved object
  survives exactly if the previous avatar was not the same object under another spelling of its URL,
  an own upload saved with a complete sweep exactly if the base is usable, and a pending upload a
  later janitor pass exactly if the saver started it, or the pass breaks off before it, or the
  storage refuses. A group created with an upload's URL never claims it. A row whose visits always
  fail keeps every younger row.
* **Quiet hours.** A circular interval, whose quiet minutes are counted exactly.

Where code and naming disagree, the code is followed: a deleted session's or window's activity event
carries the id while the stored row has lost it (`CoordinationReplay.PublishedRowIsStoredIff`).

## Model

| member | source | states |
|---|---|---|
| `PresenceReconcile.ReconcileReaches` | backend/app/ws/manager.py:47-60 | The commands planned for a reconnect, run in order on online sets that list the previous groups, leave exactly the new groups for that user. |
| `PresenceReconcile.InFlightSuffixCompletes` | backend/app/ws/manager.py:40-61 | After any interleaving of different users' calls, one Redis command per step, the online sets with a user's unissued commands applied list exactly that user's groups. |
| `PresenceReconcile.QuiescentOnlineIsExact` | backend/app/ws/manager.py:102-117 | Whenever no command is outstanding, a group's online set is exactly the connected users whose group list contains it. |
| `PresenceReconcile.StalenessIsBounded` | backend/app/ws/manager.py:45-61 | Even during a call, the online set can only be wrong for groups that the user's outstanding commands name. |
| `PresenceReconcile.DrainIsIssuing` | backend/app/ws/manager.py:55-60 | Issuing the planned commands one by one is possible in every state and ends where the atomic call ends, so the command level refines the handler level. |
| `PresenceOverlap.EntryIsRightIff` | backend/app/ws/manager.py:40-61 | However calls of all users overlap, one Redis command per step, at every point of every run: the online set is right about a user and a group exactly if the last command about them that was issued says the same as the last one planned. |
| `PresenceOverlap.QuietEntryIsRightIff` | backend/app/ws/manager.py:102-117 | When all calls have finished, it is right exactly if the last command issued about the group is the last one planned. |
| `PresenceOverlap.AnyOrderIsRightIff` | backend/app/ws/manager.py:47-60 | The same for the planned commands in any order whatever. |
| `PresenceOverlap.CommandsAreConserved` | backend/app/ws/manager.py:55-60 | What a user's calls planned is, as a multiset, what was issued and what is outstanding. |
| `PresenceOverlap.SerialisedIsRight` | backend/app/ws/manager.py:40-61 | Calls of a user that do not overlap meet the condition. |
| `PresenceOverlap.OverlapLosesUser` | backend/app/ws/manager.py:47-60 | The condition fails for some input: if one user's disconnect and connect overlap, all calls can finish with the user connected and the group listed, yet missing from the online set. |
| `ReadyIndex.RunKeepsAgreement` | backend/app/redis/status_store.py:51-92 | After any run of whole ready calls under a monotone clock, every live ready key has its user in the index, then and at every later instant. |
| `ReadyIndex.PayloadDecides` | backend/app/redis/status_store.py:51-82 | The expiry Redis applies never cuts a ready flag short: a key is live exactly while the payload's own time limit has not passed. |
| `ReadyIndex.ReadyForEightHours` | backend/app/redis/status_store.py:51-62 | Whatever was stored before, a ready-set is reported for 28800 seconds from the second in which the clock was read, with that second and that expiry; nobody else's flag changes. |
| `ReadyIndex.ClearedAtOnce` | backend/app/redis/status_store.py:65-68 | Clearing takes away this flag and no other. |
| `ReadyIndex.SweepLeavesLiveUsers` | backend/app/redis/status_store.py:85-92 | After a sweep the group's index is exactly its live users; no report and no other group's index changes. |
| `ReadyIndex.ReportedReadyWasSetRecently` | backend/app/redis/status_store.py:56-61 | Under any interleaving of single commands, whoever is reported ready has a ready-set less than the time limit old with no delete of the key after it. |
| `ReadyIndex.LastSetDecides` | backend/app/redis/status_store.py:65-82 | After any list of commands a key is stored exactly if its last set comes after its last delete, and then holds that set's payload and expiry. |
| `ReadyIndex.AgreementIff` | backend/app/redis/status_store.py:51-92 | Whatever commands reach Redis in whatever order, and at any instant: no live key is missing from the index exactly if, for every key whose last SETEX has no DEL behind it and has not expired, the last index command is an SADD. |
| `ReadyIndex.SweepInsideSetUnindexes` | backend/app/redis/status_store.py:56-61 | The condition fails for some input: a sweep between the SADD and the SETEX of a ready-set leaves a live key whose last index command is an SREM. |
| `StatusStore.StatusStore.SetUserConnection` | backend/app/redis/status_store.py:28-35 | The hash is overwritten with away for away and online for any other state, stamped in whole seconds. |
| `StatusStore.StatusStore.SetGroupReady` | backend/app/redis/status_store.py:51-62 | The call writes index entry and expiring key as the command sequence says, and the flag reads back at once. |
| `StatusStore.StatusStore.ClearGroupReady` | backend/app/redis/status_store.py:65-68 | The key and the index entry are gone, whatever was there. |
| `StatusStore.StatusStore.GetGroupReady` | backend/app/redis/status_store.py:71-82 | Returns the payload exactly if it is live at this instant; a dead entry is cleaned up by the read. |
| `StatusStore.StatusStore.SweepExpiredReady` | backend/app/redis/status_store.py:85-92 | Whatever order the set is read in, the result lists exactly the indexed users without a live key, each once, and the index becomes the live users. |
| `StatusStore.StatusStore.GetGroupPresenceSnapshot` | backend/app/redis/status_store.py:102-126 | With index agreement the ids are exactly the online users and the users with a live flag, increasing; each member shows the live flag of the state before the call, and the state of the hash or offline. |
| `StatusStore.StatusStore.ReadMembers` | backend/app/redis/status_store.py:112-126 | One member per listed user in order; each shows the flag that is live in the state before the call, and the state of the hash or offline; only dead material is dropped on the way. |
| `StatusStore.DropKeepsSnapshot` | backend/app/redis/status_store.py:85-126 | Dropping dead index entries changes neither the agreement nor any snapshot. |
| `StatusStore.NaiveSnapshotIsTrue` | backend/app/redis/status_store.py:102-126 | The naive scan lists exactly who is online or has a live flag, increasing, with that flag and the state of the hash. |
| `PresenceHandlers.ConnectionManager.Connect` | backend/app/ws/manager.py:40-61 | Sockets, group list and online sets change as the atomic reconciliation says; the result tells whether this is the user's first socket. |
| `PresenceHandlers.ConnectionManager.IssueAdditions` | backend/app/ws/manager.py:55-57 | The first loop of connect issues exactly the planned additions. |
| `PresenceHandlers.ConnectionManager.IssueRemovals` | backend/app/ws/manager.py:58-60 | The second loop of connect, and the loop of disconnect, issue exactly the planned removals. |
| `PresenceHandlers.ConnectionManager.Disconnect` | backend/app/ws/manager.py:102-117 | Only the last socket takes user, groups and online entries away; a socket that is not there still reports a last one if nothing is left. |
| `PresenceHandlers.ConnectionManager.SweepAllGroups` | backend/app/ws/manager.py:280-288 | The groups given are swept, and no others; what is announced as not ready is exactly their indexed and dead flags, each once. |
| `PresenceHandlers.ConnectionManager.SendPresenceSnapshot` | backend/app/ws/manager.py:63-89 | One snapshot per group in order, each equal to the naive scan of the state before the call. |
| `PresenceHandlers.ConnectionManager.HandleConnect` | backend/app/ws/handlers.py:46-59 | Store, manager, sweep, snapshot and announcements together give the specified hub state: the dead flags of the groups are taken back, exactly and once each, then a first socket is announced; the snapshots equal naive scans. |
| `PresenceHandlers.ConnectionManager.HandleDisconnect` | backend/app/ws/handlers.py:62-67 | Only the last socket clears the hash and announces offline, with the groups read before the disconnect. |
| `PresenceHandlers.ConnectionManager.HandleMessage` | backend/app/ws/handlers.py:87-132 | Each message changes exactly the store and publishes exactly the announcements it names, a connection change to each listed group in order; a ready toggle for a group the user does not list changes nothing. |
| `PresenceHandlers.ConnectionManager.BroadcastToGroup` | backend/app/ws/manager.py:350-363 | A group event goes once to every socket of every user who lists the group, except the excluded user, and nowhere else. |
| `PresenceHandlers.ConnectionManager.Handle` | backend/app/ws/handlers.py:135-152 | Anything that arrives on the endpoint keeps the online sets exact and the ready index complete at every instant; each snapshot sent to a new socket lists exactly who is online or ready in its group, with flag and state. |
| `PresenceHandlers.ConnectionManager.Serve` | backend/app/ws/handlers.py:135-152 | Any number of arrivals under a monotone clock ends in the hub state of the specified run of calls, with that invariant. |
| `PresenceHandlers.ManagerTracksSockets` | backend/app/ws/manager.py:45-53 | After any run of handler calls the manager holds exactly the opened and not closed sockets of each user and the latest group list. |
| `PresenceHandlers.OnlineSetMatchesHistory` | backend/app/ws/handlers.py:46-67 | After any run of handler calls the online set of a group is exactly the users with an open socket whose latest group list has it. |
| `PresenceHandlers.AnnouncementsAlternateIff` | backend/app/ws/handlers.py:46-67 | The publish calls for a user alternate, starting with online, exactly if no disconnect came without an open socket; then one more online than offline means a socket is open. (Events per group: `PresenceEvents`.) |
| `PresenceEvents.ListenersAreRightIff` | backend/app/ws/handlers.py:46-67 | At every point of a run the last event a group got about a user says online exactly if the user is connected and lists the group, if and only if within each session the first and the latest group list always agree about the group. |
| `PresenceEvents.EventsAlternateIff` | backend/app/ws/manager.py:91-100 | The online and offline events a group gets about a user alternate, starting with online, exactly if no opening list names the group twice or while it still counts as online, and no closing list names it while it does not. |
| `PresenceEvents.SteadyEventsAlternate` | backend/app/ws/manager.py:119-122 | If the lists agree within sessions and name a group at most once, these events alternate. |
| `PresenceEvents.OfflineWithoutOnline` | backend/app/ws/handlers.py:62-67 | The condition is needed: a user who joins a group between opening a first and a second socket goes offline there without having gone online. |
| `PresenceHandlers.HashExistsIffOpen` | backend/app/ws/handlers.py:46-104 | If messages arrive on open sockets only, the connection hash exists exactly while a socket is open. |
| `PresenceHandlers.HashIsLatest` | backend/app/ws/handlers.py:46-104 | After any run the hash shows state and whole second of the user's latest connect or report, and is gone once a disconnect leaves no socket. |
| `CoordinationModel.StepKeepsValid` | backend/app/api/v1/coordination/service.py:40-432 | Every mutation keeps: windows start before they end, one RSVP per session and user, no reference to a missing row, ids below the counter. |
| `CoordinationModel.RsvpPutKeepsValid` | backend/app/db/repositories/coordination_repo.py:132-143 | An upsert keeps the uniqueness of (session, user) among RSVPs. |
| `CoordinationEffects.RefusedIff` | backend/app/api/v1/coordination/service.py:40-432 | For every mutation and every error: it is refused with that error exactly for the stated reason (membership, missing row, author or leader, time, status, response, null), in terms of the rows and the clock. |
| `CoordinationEffects.StepMeans` | backend/app/db/repositories/coordination_repo.py:34-150 | Every successful mutation writes exactly the fields of its request into exactly one row, leaves all other rows, logs one activity, and publishes the row it wrote. |
| `CoordinationEffects.RsvpStoredMeans` | backend/app/db/repositories/coordination_repo.py:121-143 | After an RSVP exactly one row has this session and user, its response is the one given, every other row is as before, and the event carries that row. |
| `CoordinationReplay.ReachableIsValid` | backend/app/db/models/coordination.py:61-101 | Every state reachable from empty tables is consistent in that sense. |
| `CoordinationReplay.StepReplays` | backend/app/api/v1/coordination/service.py:86-95 | The events of one successful mutation, applied to the listing before it, give the listing after it, for every group. |
| `CoordinationReplay.ReplayGivesCurrentListing` | backend/app/api/v1/coordination/service.py:422-451 | For any run in which no hook fails, folding all published events over an earlier listing gives the current listing; an RSVP event always names a session the client has. |
| `CoordinationReplay.OverlappingReplayIsHarmless` | backend/app/api/v1/coordination/service.py:422-432 | Events that the listing already reflects may be applied again on top of it: the result is still the current listing. |
| `CoordinationLosses.LostEventsStayLocal` | backend/app/api/v1/coordination/service.py:446-451 | Whichever hooks fail over a run: an entry of the client's listing is the server's current one whenever the last event about it arrived, and for an RSVP also the last about its session. |
| `CoordinationLosses.EntryIsCurrentIff` | backend/app/api/v1/coordination/service.py:446-451 | Whichever hooks fail over a run, for every window, session and RSVP: the client's entry is the server's current one exactly if the last event about it that arrived (or the start listing) carries the same row as the last one published. |
| `CoordinationLosses.LostCreationIsMissed` | backend/app/api/v1/coordination/service.py:86-95 | The condition is needed: a window whose only event is lost is missing from the client's listing. |
| `CoordinationReplay.StepAppendsOneActivity` | backend/app/api/v1/coordination/service.py:534-551 | A successful mutation appends one activity row and publishes it; older rows lose at most references to what was deleted. |
| `CoordinationReplay.ActivityLogMatchesPublished` | backend/app/db/repositories/coordination_repo.py:145-150 | Over any run the log grows by exactly the published activities, in order, one per successful mutation. |
| `CoordinationReplay.PublishedRowIsStoredIff` | backend/app/api/v1/coordination/service.py:356-375 | The published activity equals the stored row exactly if the mutation was not a deletion. |
| `CoordinationService.CoordinationService.CreateScheduledReadyWindow` | backend/app/api/v1/coordination/service.py:40-95 | Membership, range and future checks in that order, then row, activity and events; an error changes nothing. |
| `CoordinationService.CoordinationService.UpdateScheduledReadyWindow` | backend/app/api/v1/coordination/service.py:98-156 | Partial update with the missing bound taken from the row; same checks, row, activity and events as specified. |
| `CoordinationService.CoordinationService.DeleteScheduledReadyWindow` | backend/app/api/v1/coordination/service.py:159-199 | The row goes, references to it are cleared, and the deletion is published with its id. |
| `CoordinationService.CoordinationService.CreateSession` | backend/app/api/v1/coordination/service.py:216-270 | The new session, its activity and both events. |
| `CoordinationService.CoordinationService.UpdateSession` | backend/app/api/v1/coordination/service.py:273-333 | Only the given fields change; explicit nulls in required columns fail. |
| `CoordinationService.CoordinationService.PatchRow` | backend/app/db/repositories/coordination_repo.py:83-91 | The fields of the patch are set one by one, the others kept. |
| `CoordinationService.CoordinationService.DeleteSession` | backend/app/api/v1/coordination/service.py:336-375 | Session and its RSVPs go, activity references are cleared, the deletion is published. |
| `CoordinationService.CoordinationService.UpsertRsvp` | backend/app/api/v1/coordination/service.py:378-432 | One row per (session, user): a second response overwrites the first under the same id; the value stored and published is the one given (`CoordinationEffects.RsvpStoredMeans`). |
| `CoordinationService.CoordinationService.UpsertRow` | backend/app/db/repositories/coordination_repo.py:132-143 | The row of this session and user is overwritten in place, or a new one is inserted; an unchanged response leaves the row as it is. |
| `CoordinationService.CoordinationService.SelectRsvps` | backend/app/db/repositories/coordination_repo.py:109-119 | The query gives exactly the RSVP rows of the listed sessions, each once. |
| `CoordinationService.GroupBySession` | backend/app/api/v1/coordination/service.py:459-461 | The dictionary built in one pass holds, per session, what filtering the rows for that session gives. |
| `CoordinationService.SessionsToResponse` | backend/app/api/v1/coordination/service.py:463-486 | Each session gets exactly its own RSVPs, none for a session without an entry. |
| `CoordinationService.CoordinationService.ListSessions` | backend/app/api/v1/coordination/service.py:202-213 | For members the listing is the group's sessions, each once, each with exactly the RSVPs that name it. |
| `CoordinationService.FilterCommutes` | backend/app/api/v1/coordination/service.py:454-486 | Grouping rows and filtering the table agree. |
| `CoordinationService.ViewsOfResponses` | backend/app/api/v1/coordination/service.py:454-486 | The responses, read as a map by id, are the naive per-session filter of the RSVP table. |
| `CoordinationService.CoordinationService.Handle` | backend/app/api/v1/coordination/service.py:40-432 | Any mutation keeps the tables consistent, is refused exactly for the stated reason or writes and publishes exactly the stated rows, and its events bring a listing of any group from before the call up to date. |
| `CoordinationService.CoordinationService.Serve` | backend/app/api/v1/coordination/service.py:40-432 | Any number of mutations through the object: the tables and events are those of the specified run, and the events bring any earlier listing up to date. |
| `AccountsSafety.ReachableAccountsAreConsistent` | backend/app/api/v1/users/service.py:237-489 | From empty tables, every run in which Discord answers a refresh for the same account keeps columns and identities coupled, external ids exclusive, linked ids unrevoked, every user able to sign in, emails unique. |
| `AccountsSafety.StepKeepsInv` | backend/app/api/v1/auth/service.py:153-342 | Each of the eighteen requests keeps that invariant. |
| `AccountsSafety.AttachKeepsInv` | backend/app/db/repositories/provider_identity_repo.py:44-84 | Writing column, identity and lifting the revocation for an id that no other user holds keeps the invariant. |
| `AccountsSafety.NewUserKeepsInv` | backend/app/api/v1/auth/service.py:182-204 | Creating a user with a first identity for an id nobody holds keeps the invariant. |
| `AccountsSafety.DetachKeepsInv` | backend/app/api/v1/users/service.py:408-489 | Unlinking with another login method left, and revoking the id, keeps the invariant. |
| `AccountsSafety.AnotherMethodLeft` | backend/app/api/v1/users/service.py:48-56 | A count above one means that a login method remains after the unlink. |
| `AccountsSafety.HolderIsTheHolder` | backend/app/db/repositories/provider_identity_repo.py:33-42 | Exclusive ids make the lookup by external id single-valued: it finds the holder, if any. |
| `AccountsSafety.ColumnsAreUnique` | backend/app/db/models/user.py:17-29 | The identity-level exclusivity implies the unique columns of the user table. |
| `AccountsSafety.LegacySyncIsNoOp` | backend/app/api/v1/user_response.py:73-97 | In every consistent state the legacy synchronisation writes nothing. |
| `AccountsSafety.RevokedLoginFails` | backend/app/api/v1/auth/service.py:162-172 | A direct login with a revoked id fails with relink-required, whatever the rest of the login would do. |
| `AccountsSafety.RevocationSurvives` | backend/app/db/repositories/revoked_auth_link_repo.py:22-47 | Only a successful link with that very id lifts a revocation; no login, refresh or other link does. |
| `AccountsSafety.RevokedUntilRelinked` | backend/app/api/v1/auth/service.py:248-288 | Over any run: every direct login with a revoked id fails until a link with it succeeds. |
| `AccountsSafety.UnlinkRevokes` | backend/app/api/v1/users/service.py:408-489 | A successful unlink leaves the id revoked and held by nobody and creates no session or user. |
| `AccountsSafety.LinkIsExclusive` | backend/app/api/v1/users/service.py:237-381 | Whatever the tables: after a successful link the user is the only holder of the id. |
| `AccountsSafety.LoginIsExclusive` | backend/app/api/v1/auth/service.py:153-353 | In consistent tables whoever signs in with an external id is then its only holder. |
| `AccountsSafety.PromisesKept` | backend/app/api/v1/users/service.py:48-56 | Every successful request leaves consistent tables in which its own user can still sign in, and a linked id has one holder. |
| `AccountsEffects.RefusedIff` | backend/app/api/v1/auth/service.py:52-353 | In consistent tables, for every request and every error: it is refused with that error exactly for the stated reason, in terms of columns, identities, revocations and session slots. A password login is refused exactly if the password does not match or no user with that email has a password. |
| `AccountsEffects.StepMeans` | backend/app/api/v1/users/service.py:237-656 | Every successful request signs in exactly the stated user (the password user of the email, the token's user, the holder of the external id, or a new user if there is none) and writes exactly the stated entries; no other session changes. |
| `AccountsEffects.PasswordMeans` | backend/app/api/v1/auth/service.py:80-105 | On any tables, a successful password login means that the password matched, that the user has the email and a password, and that only this user's session slot changed. |
| `AccountsEffects.WaysAreCounted` | backend/app/api/v1/users/service.py:48-56 | The count is at least two exactly if the user has two different ways to sign in. |
| `AccountsEffects.LegacySyncFills` | backend/app/api/v1/user_response.py:73-97 | On any tables: the synchronisation adds exactly the rows that a non-empty column lacks. |
| `AccountsSafety.DiscordRefreshKeepsInvIff` | backend/app/api/v1/users/service.py:602-656 | For any account Discord answers with, a due refresh keeps the invariant exactly if that account is not revoked and nobody else holds it. |
| `AccountsSafety.ReusedRefreshTokenIff` | backend/app/auth/jwt.py:21-30 | A refresh token just used is accepted again exactly if it was issued in the same second and has not expired (section 4.1.4 of RFC 7519 counts whole seconds). |
| `AccountsService.AccountService.GetByProviderExternalId` | backend/app/db/repositories/provider_identity_repo.py:33-42 | The lookup returns the holder, nothing, or the failure of a query that meets several rows. |
| `AccountsService.AccountService.CountAuthMethods` | backend/app/api/v1/users/service.py:48-56 | The loop counts the password login and each login-capable identity. |
| `AccountsService.AccountService.StoreRefreshToken` | backend/app/api/v1/auth/service.py:31-37 | The user's single session slot is overwritten. |
| `AccountsService.AccountService.Register` | backend/app/api/v1/auth/service.py:52-77 | A taken email is refused; else one user with password and one session. |
| `AccountsService.AccountService.Login` | backend/app/api/v1/auth/service.py:80-105 | Unknown user, missing password and wrong password are one error; success needs the matching password and starts a session of that user (`AccountsEffects.PasswordMeans`). |
| `AccountsService.AccountService.RefreshSession` | backend/app/api/v1/auth/service.py:108-150 | Decoding, token kind, slot and user are checked in that order before the slot is replaced. |
| `AccountsService.AccountService.AuthSteam` | backend/app/api/v1/auth/service.py:153-215 | Branches, writes and errors of the Steam login, in the code's order. |
| `AccountsService.AccountService.AuthDiscord` | backend/app/api/v1/auth/service.py:218-299 | Branches, writes and errors of the Discord login, including the deletion of revocations. |
| `AccountsService.AccountService.AuthApple` | backend/app/api/v1/auth/service.py:302-353 | Branches, writes and errors of the Apple login. |
| `AccountsService.AccountService.LinkSteam` | backend/app/api/v1/users/service.py:237-282 | An id held by another user is refused; else column, identity and lifted revocation. |
| `AccountsService.AccountService.LinkApple` | backend/app/api/v1/users/service.py:285-319 | The same for Apple. |
| `AccountsService.AccountService.LinkDiscord` | backend/app/api/v1/users/service.py:322-381 | The same for Discord, which has no column. |
| `AccountsService.AccountService.UnlinkSteam` | backend/app/api/v1/users/service.py:408-433 | Refused for the last method; else revocation, column and identity change together; nothing for a user without the link. |
| `AccountsService.AccountService.UnlinkApple` | backend/app/api/v1/users/service.py:436-461 | The same for Apple. |
| `AccountsService.AccountService.UnlinkDiscord` | backend/app/api/v1/users/service.py:464-489 | The same for Discord. |
| `AccountsService.AccountService.SetEmailPassword` | backend/app/api/v1/users/service.py:384-405 | Refused for a complete login or a taken email. |
| `AccountsService.AccountService.ChangeEmail` | backend/app/api/v1/users/service.py:144-164 | The email part of a profile update: a taken email is refused. |
| `AccountsService.AccountService.PutManualIdentity` | backend/app/api/v1/users/service.py:553-584 | Only providers without login are writable by hand. |
| `AccountsService.AccountService.DeleteManualIdentity` | backend/app/api/v1/users/service.py:587-599 | Only providers without login can be deleted by hand. |
| `AccountsService.AccountService.SyncLegacyIdentities` | backend/app/api/v1/user_response.py:73-97 | Missing identities are created from the columns, existing ones are left alone. |
| `AccountsService.AccountService.RefreshStaleIdentities` | backend/app/api/v1/users/service.py:602-656 | Due identities are rewritten with the provider's answer; a failing provider fails the request. |
| `AccountsService.AccountService.GetCurrentUserProfile` | backend/app/api/v1/users/service.py:71-79 | Synchronisation, then refresh, as one transaction. |
| `AccountsService.AccountService.GetUser` | backend/app/api/v1/users/service.py:228-234 | A missing user is an error; else the legacy synchronisation runs. |
| `AccountsService.AccountService.Handle` | backend/app/api/v1/users/service.py:237-489 | Every request keeps the invariant, is refused exactly for the stated reason, or signs in and writes exactly what is stated; its user can still sign in, a linked id is held by that user alone, and so is the id signed in with. |
| `AccountsService.AccountService.Serve` | backend/app/api/v1/auth/service.py:52-353 | Any run of honest requests through the object ends in the tables of the specified run, with the invariant. |
| `GroupsSafety.ReachableGroupsHaveOneOwner` | backend/app/api/v1/groups/service.py:52-62 | In every reachable state each existing group has exactly one owner, and join requests are consistent: one pending per user and group, pending exactly if resolver and time are absent. |
| `GroupsSafety.StepKeepsInv` | backend/app/api/v1/groups/service.py:104-365 | Every request keeps one owner per group, unique codes and consistent join requests. |
| `GroupsSafety.OwnerChangesByTransfer` | backend/app/db/repositories/group_repo.py:130-143 | The owner changes in a step exactly if the owner's own transfer succeeds in it, and then to its target. |
| `GroupsSafety.OwnersAreLinkedByTransfers` | backend/app/api/v1/groups/service.py:330-359 | Between any two points of a run the owners are linked by the chain of transfers, each performed by the then-owner. |
| `GroupsSafety.WithoutOwnerNothingEscalates` | backend/app/api/v1/groups/service.py:222-268 | While the owner takes no step: same owner, same discoverability and join mode, no new admin, and every admin who is gone left by a leave step of their own. |
| `GroupsSafety.MembersJoinOnlyByApproval` | backend/app/api/v1/join_requests/service.py:148-186 | While the join mode stays approval, whoever became a member had a request approved in the run by someone who managed the group at that step. |
| `GroupsSafety.MemberCountIsConserved` | backend/app/api/v1/groups/service.py:159-181 | In the same runs: members at the end plus removals and leaves equal members at the start plus approvals. |
| `GroupsSafety.ResolvedRequestsAreFinal` | backend/app/db/repositories/group_repo.py:200-214 | A resolved request keeps status, resolver and time in any run; it only goes with its group. |
| `GroupsSafety.PendingMemberIff` | backend/app/api/v1/join_requests/service.py:46-61 | A member with a pending request arises exactly when someone with a pending request joins by invite code. |
| `GroupsSafety.ApprovalSucceeds` | backend/app/api/v1/join_requests/service.py:168-186 | Without such members every approval by a manager succeeds and admits the requester as a plain member. |
| `GroupsSafety.OnlyOwnerDeletes` | backend/app/api/v1/groups/service.py:149-156 | A group only disappears by its owner's request. |
| `GroupsSafety.FirstFreeIsFree` | backend/app/api/v1/groups/service.py:40-50 | The chosen invite code is one of the candidates and unused; without one, all candidates are taken. |
| `GroupsEffects.RefusedIff` | backend/app/api/v1/groups/service.py:29-365 | For every request and every error: it is refused with that error exactly for the stated reason, in terms of roles, codes, join mode and requests. |
| `GroupsEffects.StepEffect` | backend/app/db/repositories/group_repo.py:50-214 | Every successful request writes exactly what it says: the stated memberships, row or join request, and nothing else. |
| `GroupsEffects.CreateEffect` | backend/app/api/v1/groups/service.py:52-65 | Exactly one group is new: its only member is the caller, as owner; name, description, discoverability, join mode and creator are the request's; its code is the first unused candidate; every other group is as before. |
| `GroupsService.GroupService.GetByInviteCode` | backend/app/db/repositories/group_repo.py:18-22 | With unique codes the lookup finds the one group with the code, or none. |
| `GroupsService.GroupService.CreateGroup` | backend/app/api/v1/groups/service.py:29-65 | Up to five candidate codes; the group with its creator as only member and owner (`GroupsEffects.CreateEffect`), or the generation error. |
| `GroupsService.GroupService.UpdateGroup` | backend/app/api/v1/groups/service.py:104-146 | Owner-only fields need the owner, others a manager; nulls in required columns fail; only given fields change. |
| `GroupsService.GroupService.DeleteGroup` | backend/app/api/v1/groups/service.py:149-156 | Group, memberships and join requests go together. |
| `GroupsService.GroupService.JoinByInviteCode` | backend/app/api/v1/groups/service.py:159-186 | Refused for members and in approval mode. |
| `GroupsService.GroupService.RemoveMember` | backend/app/api/v1/groups/service.py:222-264 | Nobody removes the owner, only the owner removes an admin, everybody else may leave. |
| `GroupsService.GroupService.LeaveGroup` | backend/app/api/v1/groups/service.py:267-268 | Leaving is removing oneself. |
| `GroupsService.GroupService.UpdateMemberRole` | backend/app/api/v1/groups/service.py:297-327 | Only the owner changes roles, never to or from owner. |
| `GroupsService.GroupService.TransferOwnership` | backend/app/api/v1/groups/service.py:330-365 | The owner becomes admin and the target owner, together. |
| `GroupsService.GroupService.CreateRequestForGroup` | backend/app/api/v1/join_requests/service.py:39-96 | The loop over pending requests refuses a second one; members and open groups are refused first. |
| `GroupsService.GroupService.CreateRequest` | backend/app/api/v1/join_requests/service.py:15-24 | Undiscoverable groups are not found. |
| `GroupsService.GroupService.CreateRequestByInviteCode` | backend/app/api/v1/join_requests/service.py:27-36 | The code stands in for discoverability. |
| `GroupsService.GroupService.ResolveRequest` | backend/app/api/v1/join_requests/service.py:148-186 | A manager resolves a pending request once; approval adds a plain member and fails for someone who is one already. |
| `GroupsService.GroupService.Handle` | backend/app/api/v1/groups/service.py:29-365 | Every request keeps one owner per group, unique codes and consistent join requests; it is refused exactly for the stated reason and changes nothing, or writes exactly what it says. |
| `GroupsService.GroupService.Serve` | backend/app/api/v1/groups/service.py:29-365 | Any run of requests through the object ends in the tables of the specified run, with the invariant. |
| `AvatarRoundTrip.RoundTripIff` | backend/app/storage/avatar_uploads.py:66-92 | For every base and every key, decoding the built URL returns the key exactly if the key is plain (non-empty, no leading slash, no query, fragment, tab or line-break character) and the base usable: trimmed of outer whitespace and slashes it has a scheme, a host and neither query nor fragment (section 3 and Appendix B of RFC 3986), only control characters and spaces were trimmed in front, and only tabs and line breaks behind. |
| `AvatarRoundTrip.BadTrailSpoilsEveryKey` | backend/app/storage/avatar_uploads.py:70-92 | Other whitespace behind an otherwise usable base spoils every plain key: with a slash before it the decoder answers a wrong key, namely the whitespace and a slash before the right one, else none. |
| `AvatarRoundTrip.BadLeadHidesEveryKey` | backend/app/storage/avatar_uploads.py:70-85 | Whitespace in front of the base that the URL splitting keeps hides every key. |
| `AvatarRoundTrip.MarkedBaseHidesEveryKey` | backend/app/storage/avatar_uploads.py:76-85 | With a question mark or number sign in the base no URL built from it is recognised. |
| `AvatarRoundTrip.BuiltUrlsAreDistinct` | backend/app/storage/avatar_uploads.py:214-219 | Distinct keys have distinct URLs, whatever the base. |
| `AvatarRoundTrip.DecodeBuildDecode` | backend/app/storage/avatar_uploads.py:66-92 | For every URL that decodes, rebuilding the URL of its key and decoding again gives the same key exactly if the base is usable. |
| `AvatarUrl.DecodedKeysArePlain` | backend/app/storage/avatar_uploads.py:86-92 | Every decoded key is plain. |
| `AvatarSpellings.KeyOfIff` | backend/app/storage/avatar_uploads.py:66-92 | For every base, every URL and every key: the decoder answers the key exactly if it is plain, the base has scheme and host, and the cleaned URL is the scheme in any case, the host, the base path, one or more slashes, the key, and at most an empty query and an empty fragment. |
| `AvatarEffects.UrlForIs` | backend/app/storage/avatar_uploads.py:214-219 | The URL handed out is the base without its trailing slashes, one slash, and the key. |
| `AvatarRoundTrip.PlainBasesAreUsable` | backend/app/storage/avatar_uploads.py:70-85 | Every scheme and host written in letters and dots makes a base for which the round trip holds. |
| `AvatarSafety.PrefixesNeverOverlap` | backend/app/storage/avatar_uploads.py:95-100 | No key lies under the prefixes of two different owners, users or groups. |
| `AvatarSafety.UploadKeysArePlain` | backend/app/storage/avatar_uploads.py:175-190 | Every key handed out is plain and under its owner's prefix, so its URL decodes to it. |
| `AvatarSafety.StepKeepsInv` | backend/app/api/v1/users/service.py:144-184 | Every step of a run in which an owner keeps to own uploads, whatever the others save, keeps: ledger rows match the forms handed out; this owner's current managed avatar is an own upload and its row is claimed. |
| `AvatarSafety.SaveDeletesIff` | backend/app/api/v1/users/service.py:82-108 | Whatever the tables and the URL: a successful save deletes a present object exactly if the bucket is set and the cleanup works and the replaced avatar decodes to it, or the sweep is configured, reaches it under the saver's prefix and it is not the key of the new URL. |
| `AvatarSafety.StepDeletesIff` | backend/app/jobs/avatar_upload_janitor.py:15-36 | The same for every step: which object it deletes is read off the request and the tables before it, from nothing that happens during it. |
| `AvatarSafety.StepLosesIff` | backend/app/api/v1/users/service.py:82-90 | Whatever the others do, the present object of an owner who keeps to own uploads, current after the step, is lost exactly if another owner's replaced avatar decodes to it and is cleaned up, or its group's deletion sweeps it and fails to commit. |
| `AvatarSafety.CarefulOwnerKeepsObjectIff` | backend/app/api/v1/users/service.py:144-184 | Over any run, while the avatar of such an owner stays current, its object is never lost exactly if no step is one of those two. |
| `AvatarSafety.FairRunLosesIff` | backend/app/api/v1/groups/routes.py:130-141 | If everybody keeps to own uploads, only a group's own deletion with a failing commit loses the object of an avatar that is current after the step, exactly if its sweep reaches it. |
| `AvatarSafety.LiveObjectsAreNeverDeleted` | backend/app/jobs/avatar_upload_janitor.py:15-36 | In every fair run, no step other than a group deletion whose commit fails (replaced-avatar cleanup, prefix sweep, committed group deletion, janitor visit, with any storage failures) removes the object of an avatar that is current after it. |
| `AvatarSafety.EveryUploadCanBecomeLive` | backend/app/api/v1/users/service.py:199-225 | The hypotheses of a fair run can be met: for every acceptable upload there is one that ends with its object in the bucket and current. |
| `AvatarSafety.CurrentAvatarsSurvive` | backend/app/api/v1/users/routes.py:42-57 | As long as an avatar stays current in a fair run whose group deletions commit, its uploaded object stays in the bucket. |
| `AvatarSafety.UploadsStayClaimable` | backend/app/db/repositories/avatar_upload_ledger_repo.py:53-92 | A ledger row stays, unchanged, until it is committed, and then for good, or until a pass listed it, uncommitted, at an age of more than 3600 seconds times the configured hours. |
| `AvatarSafety.ListingIsOverdue` | backend/app/db/repositories/avatar_upload_ledger_repo.py:76-92 | A pass lists exactly the rows that were never committed and are more than 3600 seconds times the configured hours old, each once, oldest first. |
| `AvatarJanitor.CleanPassClearsExpired` | backend/app/jobs/avatar_upload_janitor.py:15-36 | A pass in which nothing fails removes exactly the uncommitted rows that are more than 3600 seconds times the configured hours old, with exactly their objects. |
| `AvatarJanitor.PassTakesOverdue` | backend/app/jobs/avatar_upload_janitor.py:15-36 | With any failures, a row that is gone after a pass was uncommitted and older than that; without a failure all such rows are gone. |
| `AvatarJanitor.PassRows` | backend/app/jobs/avatar_upload_janitor.py:22-36 | With any failures: a pass removes exactly the pending rows whose visit goes through and before which no listed pending row failed. |
| `AvatarJanitor.PassObjects` | backend/app/jobs/avatar_upload_janitor.py:22-36 | With any failures: an object is gone after a pass exactly if it belongs to a pending row that the pass reached and whose visit the storage did not refuse. |
| `AvatarJanitor.FailureEndsPass` | backend/app/jobs/avatar_upload_janitor.py:22-33 | Two expired rows: if the visit of the first fails, the pass raises and the second keeps row and object. |
| `AvatarJanitor.StuckRowShieldsYounger` | backend/app/jobs/avatar_upload_janitor.py:15-36 | Over any run: while a row is unclaimed and each of its visits fails, every younger row stays in the ledger, however many passes there are. |
| `AvatarLimits.SweepLeavesOnlyTheKept` | backend/app/storage/avatar_uploads.py:125-165 | A sweep the storage carries out leaves at most the kept key under the prefix and changes nothing outside it. |
| `AvatarLimits.SweepsCommute` | backend/app/storage/avatar_uploads.py:125-165 | Sweeps of different owners do not affect each other. |
| `AvatarLimits.SavedObjectSurvivesIff` | backend/app/api/v1/users/service.py:82-96 | Saving any managed URL keeps its object exactly if the previous avatar was not the same object under another spelling of its URL. |
| `AvatarLimits.BorrowedUrlLosesAvatar` | backend/app/api/v1/users/service.py:82-90 | A user without avatar saves the URL of somebody else's current avatar and then clears it: both calls succeed, the other avatar is still current and its object is gone. |
| `AvatarLimits.OwnUploadSurvivesIff` | backend/app/storage/avatar_uploads.py:125-165 | For every base: an own upload saved with a sweep that reaches it survives exactly if the base is usable. |
| `AvatarLimits.FailedDeletionSparesIff` | backend/app/api/v1/groups/routes.py:130-141 | A group deletion that fails to commit leaves the group's avatar current; its object survives exactly if bucket or base is blank or the sweep did not reach it. |
| `AvatarJanitor.AvatarSurvivesJanitorIff` | backend/app/api/v1/groups/service.py:136-141 | After somebody saves the URL of a pending upload, a later janitor pass spares the object, which is the current avatar, exactly if the saver started the upload, or the pass does not get to the row (it is too young, or a row listed before it fails), or the storage refuses. |
| `AvatarJanitor.EnrolledAvatarSurvivesJanitorIff` | backend/app/api/v1/groups/service.py:29-65 | Creating a group with the URL of an upload claims no row: a later janitor pass spares the object, which is the new group's avatar, exactly if the row was claimed before, or the pass does not get to it, or the storage refuses. |
| `AvatarJanitor.ClaimedIffStarter` | backend/app/db/repositories/avatar_upload_ledger_repo.py:53-74 | Saving the URL of a pending upload commits its row exactly if the saver started it, and no other row changes owner or key. |
| `AvatarEffects.RefusedIff` | backend/app/api/v1/users/service.py:199-225 | For every event and every error: it is refused with that error exactly for the stated reason (role, size, type, configuration, keys in use, rows claimed twice, missing owner). |
| `AvatarEffects.StepMeans` | backend/app/api/v1/users/service.py:144-184 | Every other event does exactly what it says to columns, ledger, bucket and pass: a start adds one pending row with the key users/…/avatars/… or groups/…/avatars/… and its URL; a save changes one column, commits exactly the caller's row of that URL, and deletes exactly the stated objects; and so on for deletions, seeds, listings and visits. |
| `AvatarEffects.SeedMeant` | backend/app/api/v1/users/service.py:59-68 | A provider's avatar is written exactly if the user exists and has none. |
| `AvatarService.AvatarStore.CollectStale` | backend/app/storage/avatar_uploads.py:148-151 | One page adds exactly its keys other than the kept one; items without a key are skipped. |
| `AvatarService.AvatarStore.ListStale` | backend/app/storage/avatar_uploads.py:136-161 | The loop over the pages collects exactly the listed keys other than the kept one. |
| `AvatarService.AvatarStore.SweepPrefix` | backend/app/storage/avatar_uploads.py:125-165 | For pages of any size, linked by tokens, the loop ends and deletes exactly the listed keys other than the kept one, as far as the storage carries it out; for a truthful listing these are the keys under the prefix. |
| `AvatarService.AvatarStore.DeleteObjectByKey` | backend/app/storage/avatar_uploads.py:103-118 | Nothing happens without a key or a bucket. |
| `AvatarService.AvatarStore.MarkCommitted` | backend/app/db/repositories/avatar_upload_ledger_repo.py:53-74 | Only the row of this user and URL becomes committed; several such rows fail. |
| `AvatarService.AvatarStore.ListExpiredPending` | backend/app/db/repositories/avatar_upload_ledger_repo.py:76-92 | The pending rows older than the cutoff, oldest first. |
| `AvatarService.AvatarStore.InitUpload` | backend/app/api/v1/users/service.py:199-225 | Role, size, type, configuration and signing are checked before a pending row is written; a key in use fails. |
| `AvatarService.AvatarStore.SaveAvatar` | backend/app/api/v1/groups/routes.py:80-107 | Update, commit of the ledger row, cleanup of the replaced object, sweep of what the storage lists, keeping the new object, in that order; a failing query changes nothing. |
| `AvatarService.AvatarStore.SeedAvatarIfMissing` | backend/app/api/v1/users/service.py:59-68 | A provider avatar only fills a missing one. |
| `AvatarService.AvatarStore.DeleteGroup` | backend/app/api/v1/groups/routes.py:130-141 | The owner's deletion sweeps the whole prefix of the group, then removes the group if the commit succeeds and leaves it otherwise. |
| `AvatarService.AvatarStore.VisitRecord` | backend/app/jobs/avatar_upload_janitor.py:23-34 | A record that is gone or committed is skipped; a storage failure keeps the row, a commit failure restores it, and exactly these two roll back. |
| `AvatarService.AvatarStore.VisitAll` | backend/app/jobs/avatar_upload_janitor.py:22-36 | The loop is the specified pass over the listed rows; it raises exactly if a visit fails with another record to come, and otherwise returns the number of rows removed. |
| `AvatarService.AvatarStore.RunJanitorOnce` | backend/app/jobs/avatar_upload_janitor.py:15-36 | The specified pass over the overdue rows, oldest first; what is gone was uncommitted and more than 3600 seconds times the configured hours old, and without a failure all of that is gone. |
| `AvatarService.AvatarStore.Handle` | backend/app/api/v1/users/routes.py:42-57 | Any event is refused exactly for the stated reason or does exactly what is stated, and keeps the ledger consistent with the upload forms handed out, so that no commit query meets several rows; a successful save makes its URL current, a successful start hands out an upload for caller and owner. |
| `AvatarService.AvatarStore.Serve` | backend/app/jobs/avatar_upload_janitor.py:39-51 | Any number of events, janitor visits among them, ends at the moment of the specified run; from the empty store it is one of the runs of the safety theorems. |
| `QuietHours.QuietHoursAreCircular` | backend/app/notifications/evaluator.py:71-84 | A time is quiet exactly if, going round the clock from the start, it comes before the end. |
| `QuietHours.SwappedBoundsPartitionTheDay` | backend/app/notifications/evaluator.py:71-84 | For different bounds, [start, end) and [end, start) partition the day; equal bounds are never quiet. |
| `QuietHours.ShiftingTheClockKeepsQuietHours` | backend/app/notifications/evaluator.py:71-84 | Moving both bounds and the time by the same amount round the clock changes nothing. |
| `QuietHours.QuietMinutesOfADay` | backend/app/notifications/evaluator.py:71-84 | Over a day the number of quiet check minutes is the distance of the bounds rounded up to minutes, plus a day if the start is after the end. |
| `QuietHours.QuietMinutesOfAlignedBounds` | backend/app/notifications/evaluator.py:71-84 | For bounds on whole minutes it is (end - start) mod 1440. |
| `QuietHours.NotifiedIff` | backend/app/notifications/evaluator.py:5-68 | A notification goes out exactly if the recipient is not the actor, has not muted the group, has the preference on, meets every given condition, and the time is outside the quiet hours round the clock. |
| `QuietHours.NotifiedAndQuiet` | backend/app/notifications/evaluator.py:5-44 | Up to any minute of the day, the minutes a notification goes out and the quiet minutes add up to all, or none goes out if another gate is shut. |
| `QuietHours.SwappedBoundsShareTheDay` | backend/app/notifications/evaluator.py:5-44 | With the bounds swapped, exactly the other minutes of the day let the notification through. |

## Left out

- Network and library code: provider calls, token signing, password hashing, the storage client and push delivery are inputs that fail or return a value.
- Several API replicas, and Redis content left by an earlier process: the online sets are not exact there, because the difference is computed from the manager's own table.
- Delivery of group events to current members: group lists are refreshed on connect only, so no such claim is made.
- AvatarSafety.LiveObjectsAreNeverDeleted: a PATCH with the cleanup behind its commit is one step, so two concurrent PATCH requests of the same owner are not modelled. Only group deletion has a commit outcome of its own, because only there the clean-up comes first.
- AvatarService.AvatarStore.SweepPrefix: the pages are assumed to be linked by distinct tokens (with a repeated token the loop need not end), and the storage's limit on keys per delete call appears only as deletions that are not carried out.
- `urlsplit` failures on brackets in the host and on characters that normalise to delimiters; the URL the client uploads to.
- AvatarService.AvatarStore.SaveAvatar: the storage may list fewer keys than there are under the prefix, but none outside it.
- AvatarService.AvatarStore.DeleteGroup: likewise.
- Profile fields without checks: display name, bio, time zone and similar columns; the uniqueness of emails is modelled.
- Order, paging limits and display names in the coordination and group listings; listings are compared as maps by id.
- GroupsService.GroupService.DeleteGroup: in the database the windows, sessions and activity rows of the group go with it (db/models/coordination.py, foreign keys with cascade); the group component does not hold these tables, which is a limit of this model.
- GroupsService.GroupService.UpdateGroup: the avatar URL of the same request is modelled in the avatar component (`AvatarService.AvatarStore.SaveAvatar`), not here.
- CoordinationReplay.ReplayGivesCurrentListing: assumes that every hook publishes; what failing hooks cost is in `CoordinationLosses`.
- Deletion of users: no request deletes them.
- `add_member` of the group service: not routed, and it takes an unchecked role.
- Access tokens, and the persistence of token revocation beyond the single session slot.
- Time zones in quiet hours: the check does not use them.
- Routers, request schemas, configuration, migrations and every client application.
