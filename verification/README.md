# Gather Your Party: verified model

Gather Your Party lets Steam users form parties, invite friends and see the multiplayer games all members
own. This project models the logic of its store and of the code around it, and proves what that logic is for.

| Part | Files |
|---|---|
| Party and invite transactions | `Party` (what each transaction means), `PartyInterleaving` (their statements, interleaved), `PartySerialisability`, `PartyProgress` (each transaction ends as its effect), `PartyHistory` (laws over whole runs), `PartyStore` (the store methods over the tables) |
| Invite picker | `InvitePicker` |
| Per-user sync lock on a finite pool | `SyncLock` (the machine and its invariant), `SyncLockSafety`, `SyncLockProgress`, `SyncProtocol` (due checks, clock and stamps under the lock), `SyncStore` (the methods) |
| Libraries | `Library` (what a save and a read mean), `LibraryStore` (the save, its retries, the sync), `SyncRuns` (whole runs of syncs), `SaveLocks` (row locks of concurrent saves) |
| Shared games and game data | `BatchFetch`, `FetchRounds`, `SharedGames`, `PartyGames` |
| Reason scrubber | `Scrub` |
| Helpers | `Wrappers`, `Ordering` |

How to read the concurrent parts: a machine is a state, a datatype of actions and a function `Do` that gives the
next state; `Run` folds a sequence of actions, and an action that is not enabled leaves the state as it is. A
theorem about `Run(…, actions)` for all `actions` is a theorem about every reachable state. The classes show the
same code as it is written, in place and with its loops; their methods are proved against the functions that the
machines use.

What is taken as given, and built into the steps: READ COMMITTED with `SELECT … FOR UPDATE` returning the latest
committed row or none; a commit publishes all of a transaction at once; session-level advisory locks are re-entrant
and freed when their session ends; a pgx batch is one implicit transaction; generated ids are unused before. The
clock, `joined_at`, Steam's answers, the end of a context and every failure are inputs that can take any value at
any time.

Results that differ from what the code or its comments suggest:

- A library whose app ids repeat after truncation to int32 is refused as a whole (`Library.SaveMeans`,
  `Library.WrappedIdsFail`): the dedupe runs before the truncation.
- `Scrub` is described as safe to apply to a stored reason; a second application can still drop the final
  ellipsis, in exactly one case (`Scrub.ScrubTwice`, `Scrub.EllipsisIsDropped`).
- The picker lists an invitable friend with the empty Steam id twice (`InvitePicker.EmptySteamIdIsShownTwice`).
- Lock keys of ids from 2^32 up can collide (`SyncLockSafety.KeysCollide`).

## Model

| member | source | states |
|---|---|---|
| PartySerialisability.Serialisable | internal/db/db.go:327-580 | For any interleaving of statements, commits, aborts and user upserts of any number of party transactions over any parties, the committed tables are those of running the committed transactions one at a time, each succeeding; the serial order keeps, per party, the order in which the row lock was granted |
| PartySerialisability.SerialOrder | internal/db/db.go:327-580 | That serial order is the order of the commits, with each send moved to where it read the target's sign-in flag |
| PartySerialisability.ReachableRowsAreGood | internal/db/db.go:327-580 | In every reachable state each leader is a member, each (party, user) has at most one pending invite, no member has one, and every member and invitee has a users row |
| PartySerialisability.NoReachableViolation | internal/db/db.go:481-543 | In no reachable state can the next statement of any transaction hit the memberships primary key or the pending-invite index (the 23505 branch), and an accept never misses its users row |
| PartySerialisability.StatementAdvances | internal/db/db.go:327-580 | One statement, on the committed rows and its own writes, takes a transaction one step further towards the atomic effect of the whole transaction |
| PartySerialisability.CommitReplays | internal/db/db.go:336-580 | What a commit publishes is what the whole transaction, run alone at its place in the serial order, does |
| PartySerialisability.ExecAfterFlag | internal/db/db.go:481-499 | Sign-ins after SendInvite read ever_logged_in change nothing that the send still does, so it is placed at that read |
| PartyInterleaving.ReplayInsert | internal/db/db.go:327-580 | A committed transaction moves to the left past every entry that does not touch its party without changing the outcome |
| PartyInterleaving.ReplayKeepsDb | internal/db/db.go:327-580 | Running any sequence of committed entries on good tables leaves good tables |
| PartyProgress.FailsAsTheEffect | internal/db/db.go:327-580 | A statement fails only if the whole transaction is refused, and with that error |
| PartyProgress.RunsToItsEnd | internal/db/db.go:327-580 | From every reachable state a transaction that does not wait for its party's lock ends by its own statements alone: committed with its atomic effect exactly if that is no error, else without a trace, and its lock free |
| PartyProgress.AloneIsTheEffect | internal/db/db.go:327-580 | One that finds its party free ends exactly as its effect on the rows and users it finds |
| PartyProgress.EveryTransactionCanEnd | internal/db/db.go:327-343 | From every reachable state every transaction can still end, if need be after the holder of its party's lock |
| Party.EffectKeepsRows | internal/db/db.go:186-580 | Each of the six party operations keeps: leader is a member, unique pending invites, no pending invite of a member |
| Party.ConstraintsNeverFire | internal/db/db.go:481-543 | From good rows no operation violates the memberships key or the pending-invite index |
| Party.Earliest | internal/db/db.go:353-366 | The successor is the remaining member first by joined_at, then user id |
| PartyHistory.MembershipConserved | internal/db/db.go:186-580 | Over every run: joins of a user minus the leaves that removed a row is 1 if they are a member and 0 if not |
| PartyHistory.InviteLedger | internal/db/db.go:186-580 | For every live party and user: accepted invites, plus 1 if they created it, minus removing leaves, is 1 for a member and 0 otherwise |
| PartyHistory.RejectionLedger | internal/db/db.go:552-580 | For every live party and user: their rejected invites are as many as the rejections committed since the party was created |
| PartyHistory.LedgerOverRuns | internal/db/db.go:186-580 | The three ledgers (memberships, accepted and rejected invites) hold after any interleaving from a database without the party |
| PartyHistory.InvitesAreFinal | internal/db/db.go:517-580 | While the party lives no invite disappears or changes its user or inviter, and an accepted or rejected one never changes |
| PartyHistory.SignedInJoinOnlyThemselves | internal/db/db.go:481-513 | A user whose ever_logged_in is set, from the start or by a sign-in, becomes a member only by their own create or accept |
| PartyHistory.FlagIsHistory | internal/db/db.go:58-100 | The flag is set exactly if it was at the start or the user signed in since; nothing unsets it |
| PartyHistory.SuccessionOverRuns | internal/db/db.go:345-375 | Over any run in which only the leader of the day leaves the party, with any other transactions and sign-ins between: after the k-th leave the k-th other member in PartyMembers order leads, the rest follow in that order, invites stay, and the party with its rows is gone exactly from the n-th leave on |
| PartyHistory.LeaderIsFirst | internal/db/db.go:284-309 | When the leader heads the PartyMembers list their leave removes the head and the next entry leads |
| PartyHistory.SuccessionOverInterleavings | internal/db/db.go:327-381 | The same heirs and the same end for every interleaving of statements, by its serial order |
| PartyStore.PartyStore.CreateParty | internal/db/db.go:186-206 | Adds the party with its leader as sole member, or refuses and changes nothing |
| PartyStore.PartyStore.LeaveParty | internal/db/db.go:327-381 | Statement by statement over the tables: the leaver is removed, a leaving leader is succeeded by the earliest member, the last leave drops the party with all its rows, and no other party changes |
| PartyStore.PartyStore.StepDown | internal/db/db.go:387-427 | Leadership moves to the member named by the leader of a party of two or more; each refusal, in the order of the checks, changes nothing |
| PartyStore.PartyStore.SendInvite | internal/db/db.go:448-513 | The invite row is added as pending for a target who has signed in, and as accepted with a membership for one who never has; each refusal changes nothing |
| PartyStore.PartyStore.AcceptInvite | internal/db/db.go:517-548 | The pending invite row becomes accepted and a membership is added, together or not at all; every other row stays |
| PartyStore.PartyStore.RejectInvite | internal/db/db.go:552-580 | The status of one pending invite row of the party and user becomes rejected, no pending row of theirs is left, and every other row stays; without a pending invite, or without the party, nothing changes |
| PartyStore.PartyStore.UpsertUser | internal/db/db.go:58-77 | Sets ever_logged_in, creating the row if needed |
| PartyStore.PartyStore.UpsertFriend | internal/db/db.go:82-100 | Creates a missing row as never signed in and leaves the flag of an existing one |
| PartyStore.LeaveRan | internal/db/db.go:345-381 | The tables after the statements of a leave are the atomic leave seen through the tables |
| PartyStore.SendRan | internal/db/db.go:461-513 | The rows written by a send are the atomic send seen through the tables |
| PartyStore.ReplyRan | internal/db/db.go:527-580 | The rows written by a reply are the atomic accept or reject seen through the tables; its insert cannot fail |
| PartyStore.RanKeepsDb | internal/db/db.go:186-580 | Any call leaves good tables good |
| InvitePicker.PickerAgrees | internal/view/view.go:44-136 | For any friend list of a leader: a friend whom SendInvite would refuse in the same state is not shown; one it would take is shown once if they have a users row and as often as Steam lists them if not; an invitable friend with the empty Steam id and a row is shown in both ways |
| InvitePicker.ShownOnceIfInvitable | internal/view/view.go:44-136 | With distinct friend ids and no empty one among the users: shown exactly once if SendInvite would take them, and otherwise not at all |
| InvitePicker.RefusedIff | internal/db/db.go:461-479 | SendInvite by the leader refuses a known user exactly if they are a member or have a pending invite |
| InvitePicker.EmptySteamIdIsShownTwice | internal/view/view.go:75-103 | The exception occurs: a friend with the empty Steam id and a row is listed twice |
| InvitePicker.BuildInviteCandidates | internal/view/view.go:44-136 | How often each Steam id is listed, for any friend list; each selected row is listed with its own user id and name, in id order before the others, and everyone else listed is a missing friend with id 0 |
| InvitePicker.InviteCandidates | internal/db/db.go:584-612 | Exactly the rows of friends who are not the caller, not members and not invited, if the caller leads the party, with their names, in id order |
| InvitePicker.FriendIds | internal/view/view.go:49-57 | The friend ids without the caller, in order |
| InvitePicker.MissingFriends | internal/view/view.go:92-103 | Every mention of a friend who is neither listed nor excluded |
| InvitePicker.AddProfiles | internal/view/view.go:104-134 | Each missing friend is added once, by profile name or by id |
| InvitePicker.LastPlayerWins | internal/view/view.go:109-121 | A profile's name is the persona name of the last player returned for the id, or the id if that is empty |
| SyncLockSafety.Exclusion | internal/db/games.go:235-316 | For any tasks, polls, cancellations, panics, errors and session deaths: two tasks are inside fn for one key only if the session of one of their lock connections has ended |
| SyncLockSafety.IdleHoldsNoLock | internal/db/games.go:248-276 | No idle pooled connection ever holds an advisory lock, so re-entrancy never grants one wrongly |
| SyncLockSafety.ConnectionsAreReturned | internal/db/games.go:294-316 | Every acquired connection has one holder, is returned once by it and never used after, the pool never exceeds its size, and when all is over all are returned |
| SyncLockSafety.NoHoldAndWait | internal/db/db.go:36-50 | In every reachable state no task that has a connection waits for one, and no call made under its lock waits for or has another |
| SyncLockProgress.NeverStuck | internal/db/games.go:235-316 | With a pool of any size from 1 up and any number of locked syncs: some task or call can take a step of its own (no timer, no failure, no cancelled wait) unless every task is over or sleeping between attempts and every call is over |
| SyncLockProgress.WorkLowersRank | internal/db/games.go:235-316 | Every step of a task or call, also a failing or cancelled one, uses up one of the steps it has left |
| SyncLockProgress.WorkIsBounded | internal/db/games.go:248-308 | Over any run, with any failures, there are at most eight steps for each task, three for each call and seven for each wake-up of a poller |
| SyncLockProgress.WorkComesToRest | internal/db/games.go:235-316 | From every reachable state, whichever own steps are taken, there are only so many, and when none is left everything is over or asleep |
| SyncLockProgress.FreeLockIsGranted | internal/db/games.go:255-267 | An attempt on a live connection gets the lock exactly if no live session holds it |
| SyncLockProgress.EveryWaiterCanGetIn | internal/db/games.go:248-276 | From every reachable state, whoever holds the lock and however full the pool is, a sleeping waiter can still get its lock: own steps, the noticing of closed or dead connections and one wake-up lead there |
| SyncLockSafety.KeysAreDistinct | internal/db/games.go:236 | Ids with the same upper half, as all below 2^32 have, get the same lock key exactly if they are equal |
| SyncLockSafety.KeysCollide | internal/db/games.go:236 | Wider ids can share a key: 0 and 2^32 + 1 |
| SyncLock.RunKeeps | internal/db/games.go:235-316 | The invariant of pool, sessions, tasks, mutexes and calls holds in every reachable state |
| SyncLock.StepKeeps | internal/db/games.go:235-316 | A step that changes at most one task, one call and one connection, which no other shares, keeps the invariant if it keeps those good |
| SyncLock.QuerierKeeps | internal/db/db.go:36-50 | Choosing between lock connection and pool keeps the invariant, with the lock live, dead or released |
| SyncLock.FallBackKeeps | internal/db/db.go:39-43 | A call that finds its lock connection dead returns it to the pool once and then counts as a pool call |
| SyncLock.TryLockKeeps | internal/db/games.go:255-270 | An attempt keeps the invariant whether the lock is granted or held elsewhere |
| SyncLock.ReturnedKeeps | internal/db/games.go:257-266 | A connection given back between attempts, or closed after a failed one, holds no lock in the pool |
| SyncLock.ReturnLockKeeps | internal/db/games.go:294-308 | After release the connection is back without a lock, or discarded |
| SyncStore.AcquireUserSyncLock | internal/db/games.go:248-276 | Returns a connection exactly if an attempt was granted, having given back every other it took; a connection whose attempt failed is closed and not in the pool; it waits once per attempt that found the lock held, 20 ms first and twice as long each time up to 250 ms |
| SyncStore.BackoffBounds | internal/db/games.go:249-274 | The waits start at 20 ms, never shrink and never exceed 250 ms |
| SyncStore.SyncLockConn.Querier | internal/db/db.go:36-50 | On the lock connection exactly if the lock is neither released nor its connection closed, keeping the mutex just then; a dead connection is released here and only here |
| SyncStore.SyncLockConn.Release | internal/db/games.go:294-308 | Returns the connection if no call did before; it stays in the pool exactly if the unlock succeeded on an open connection |
| SyncStore.Pool.Release | internal/db/games.go:312-316 | An open connection becomes idle, a closed one is dropped |
| SyncProtocol.SuccessesAreSpaced | main.go:349-381 | Over every run in which no lock session ends under its sync, two recorded successes of one user are more than 24 hours apart |
| SyncProtocol.StampIsTheLastSuccess | internal/db/games.go:187-198 | In every reachable state a user's library_synced_at is the time of the last success logged for them, or what it was before the run |
| SyncProtocol.WaiterReportsSuccess | main.go:365-371 | Under the same condition a user who is not due has no stored failure, so a request that waited on the lock and then finds itself not due reports success |
| SyncProtocol.AfterKeeps | main.go:349-402 | The lock machine with clock, users rows created on the way, phases and stamps keeps its invariant over whole runs of any number of syncs |
| SyncProtocol.RecordKeeps | internal/view/view.go:391-420 | Recording an outcome keeps stamps and spacing, because nobody else of that user is inside |
| SyncStore.DueAfterSuccess | internal/db/games.go:173-198 | After a recorded success a known user is not reported as failed, and is due again exactly when more than 24 hours have passed |
| SyncStore.FailureIsReported | internal/db/games.go:203-212 | A failure recorded for a due user with consistent stamps is reported, and leaves everyone as due as before |
| SyncStore.OutcomeIsTheLast | main.go:448-461 | After any outcomes, each recorded when the user was due, the reported one is the last |
| SyncStore.StampStore.RunLibrarySync | main.go:385-402 | The outcome that is recorded and the one that is reported, also when the recording fails or its reply is lost |
| SyncStore.StampStore.PageSyncUnderLock | main.go:363-375 | Runs the sync only if still due; a waiter that is not due writes nothing and, with consistent stamps, reports no failure; a failed check or read is an error and writes nothing |
| SyncStore.StampStore.MemberSyncUnderLock | internal/view/view.go:401-420 | Records an outcome only if the member is still due, a failed details fetch alone as a success; the returned error joins those of the check, the sync, its details and the recording |
| SyncStore.RecordingIsTheProtocolStep | main.go:988-994 | What these methods write is what the recording steps of the whole-run protocol write |
| Library.SaveMeans | internal/db/games.go:103-169 | A save fails exactly if two listed app ids are equal as int32 or the user is unknown and the list is not empty; otherwise it stores the whole list |
| Library.ClashIsRefused | internal/db/games.go:126-147 | The upsert would touch a row twice exactly if two different listed app ids wrap to the same int32 |
| Library.WrappedIdsFail | internal/db/games.go:126-147 | Such a list: app ids 0 and 2^32, of which neither is stored |
| Library.SavedIsUnique | internal/db/games.go:103-169 | The description of a saved state (first listings stored, everything else untouched) leaves exactly one state |
| Library.SavedInColumns | internal/db/games.go:133-160 | A save keeps every fetched detail, adds unfetched rows for new apps only, leaves the rows and positions of unlisted apps and every other user as they were, and marks the user synced |
| Library.SameInt32 | internal/db/games.go:126 | Two app ids become one exactly if they are a multiple of 2^32 apart |
| Library.SyncedGamesKeepListOrder | internal/db/games.go:389-403 | After a save over any library, the synced games stand in the stored order as their first occurrences in the list, for lists of up to 2^31 games |
| Library.FreshLibraryIsTheList | internal/db/games.go:389-403 | From an empty library the stored order is exactly the list without repeats |
| Library.RoundTrip | internal/db/games.go:389-403 | From an empty library, reading the games back gives the listed games at exactly the places where an app id first occurs, in list order, with their names and icons |
| Library.SaveTwice | internal/db/games.go:103-169 | Saving the same list again changes nothing |
| Library.SavedKeepsDb | internal/db/games.go:133-160 | A save keeps the foreign key to games and the unique Steam ids, and removes no game |
| Library.FoundIsFirst | internal/db/games.go:106-131 | The arrays sent hold, for each app id, its first listing and nothing else |
| LibraryStore.LibraryStore.KeepFirst | internal/db/games.go:110-118 | The loop keeps each app id exactly once, at its first index |
| LibraryStore.LibraryStore.SortByApp | internal/db/games.go:119 | The entries in the one order by app id |
| LibraryStore.LibraryStore.FillArrays | internal/db/games.go:120-131 | The four arrays, position by position, are the entries of the list truncated to int32 |
| LibraryStore.LibraryStore.TrySave | internal/db/games.go:134-160 | One attempt publishes all three statements or none, also when the reply to the commit is lost |
| LibraryStore.LibraryStore.SaveWithRetry | internal/db/games.go:133-168 | Retries only after a lost race, at most five times, and applies the transaction at most once |
| LibraryStore.LibraryStore.StoreUserLibrary | internal/db/games.go:103-169 | Leaves the old state or exactly one save of the whole list; no error if and only if one of five attempts commits after lost races only, no two listed ids clash as int32, and the user is known or the list empty |
| LibraryStore.LibraryStore.RecordEmptyLibrary | internal/db/games.go:321-335 | A known user with stored games becomes synced and one without becomes private_or_no_games, which is returned; nothing else changes, and a failed write changes nothing |
| LibraryStore.LibraryStore.FetchMissingGameData | internal/view/game_sync.go:102-144 | The table after a call whose workers took any given steps; only asked-for rows that lacked data change; no error exactly if the ids fit the query and every worker succeeded, and then all asked-for rows have data |
| LibraryStore.LibraryStore.SyncUserGames | internal/view/game_sync.go:64-87 | A failure leaves the old state, or a write whose reply was lost, and fetches nothing; otherwise the empty list is recorded, or the list is saved whole and exactly the fetch of its details follows; full success means every listed game has data |
| SyncRuns.ReachableStatesMatch | internal/view/game_sync.go:64-87 | In every reachable state of any users' syncs a user is synced exactly if their stored library is non-empty |
| SyncRuns.StatesOnlyAdvance | internal/db/games.go:103-169 | never_synced is never re-entered, synced is never left, and no game leaves a library, between any two states of a run |
| SyncRuns.LibraryIsEverySave | internal/db/games.go:103-169 | Over every run a stored library is exactly the union of the lists saved for that user |
| SyncRuns.StateIsHistory | internal/db/games.go:321-335 | Over every run a known user is synced exactly if a list was saved for them, private_or_no_games exactly if none was but an empty list was recorded, and never_synced exactly if neither |
| SyncRuns.SyncedAfterFirstSave | internal/view/game_sync.go:64-87 | A user is synced exactly from the first list saved for them on |
| SyncRuns.EmptySaveWouldNotMatch | internal/view/game_sync.go:69-75 | The guard of SyncUserGames is needed: saving an empty list would mark an empty library synced |
| SyncRuns.SyncIsSteps | internal/view/game_sync.go:64-87 | Whatever SyncUserGames leaves is what some run of these commits leaves |
| SyncRuns.FetchIsSteps | internal/view/game_sync.go:123-142 | Whatever the fetch workers leave is what their committed batches, in commit order, leave |
| SaveLocks.NoDeadlock | internal/db/games.go:119-160 | In no reachable state of any number of concurrent saves is there a cycle of saves each waiting for a row the next holds |
| SaveLocks.SomeSaveAdvances | internal/db/games.go:133-160 | While any save is under way one of them can take its next lock, statement or commit, without an abort |
| SaveLocks.LocksAreExclusive | internal/db/games.go:135-160 | No two saves hold the same row |
| SaveLocks.WaitRises | internal/db/games.go:135-151 | A save that is waited for wants only rows later in the common order than the row it is waited for |
| SharedGames.CountIsIntersection | internal/db/games.go:412-424 | For any libraries, distinct ids and unknown ids: the count of distinct owners equals the number of ids exactly if every id belongs to a user who owns the game |
| SharedGames.SharedRowsAreTheIntersection | internal/db/games.go:408-427 | For any ids, repeated or unknown: the result is the caller's rows in position order, and holds exactly the games all own |
| SharedGames.AnyCallerSeesTheSame | internal/db/games.go:408-427 | As a set the shared games do not depend on which member asks, nor on the order or number of mentions of the others |
| SharedGames.MoreMembersShareLess | internal/db/games.go:408-427 | Another member never adds a game |
| SharedGames.UniqueStrings | internal/db/games.go:446-456 | The same values, each once, in the order of their first places |
| SharedGames.UniqueMembers | internal/view/party_games.go:115-125 | The caller first, then the other ids, each once, in the order of their first places |
| SharedGames.UniqueHolds | internal/db/games.go:446-456 | Nothing repeated, nothing lost, nothing added |
| SharedGames.UniqueKeepsOrder | internal/db/games.go:446-456 | Values keep the order of their first places |
| SharedGames.MessagesAre | internal/view/party_games.go:53-72 | The messages stand in the members' order, one for each member without a synced row and none for others |
| SharedGames.MessagesCount | internal/view/party_games.go:53-72 | As many messages as distinct members whose library cannot be used |
| PartyGames.ReadOrder | internal/db/games.go:389-403 | A library in position order, then app id |
| PartyGames.SharedStoredGames | internal/db/games.go:408-427 | The caller's games that the count keeps, with their stored rows, in position order |
| PartyGames.MemberMessage | internal/view/party_games.go:54-71 | No message exactly for a member whose row is synced; otherwise the private, failed (with the scrubbed reason) or not-yet-synced text, by the row's columns |
| PartyGames.StoredSharedGames | internal/view/party_games.go:47-103 | One message per distinct unusable member and nothing else, exactly if there is one; otherwise exactly the fetch of what the shared games lack, and then the list: a game is in it exactly if every member has a row that owns it and its stored row is fetched and multiplayer, with the stored name and icon, in the caller's order |
| PartyGames.SharedFetchIsExact | internal/view/party_games.go:79-95 | The fetch asks exactly for the games that all own and that lack data, and changes no other row, for any pattern of batch failures |
| SharedGames.SameOutcome | internal/view/party_games.go:107-112 | For a reason that is stored and stamped, the message here and the outcome of the page sync agree on whether the last sync failed |
| PartyGames.SharedResultIsExact | internal/view/party_games.go:79-102 | That result lists exactly the games for which every member has an owning row and whose stored row is fetched and multiplayer, with the stored names and icons, each once and in the caller's order |
| PartyGames.ListedInOrder | internal/db/games.go:408-427 | The listed games stand by the caller's stored position, and at one position by app id |
| BatchFetch.GamesMissingData | internal/db/games.go:339-367 | Exactly the asked-for ids with a row and no data, each once, in input order; an id wider than int32 fails the query |
| BatchFetch.MissingHolds | internal/db/games.go:358-366 | Those ids are distinct and are exactly the ones asked for that lack data |
| BatchFetch.MissingKeepsOrder | internal/db/games.go:358-366 | Wherever a missing id is asked for, the missing ids before it in the answer were asked for already |
| BatchFetch.MakeBatches | internal/view/game_sync.go:114-118 | The batches concatenate to the missing ids, each has one to ten ids and all but the last have ten; there is one way to do it |
| BatchFetch.BatchesAreApart | internal/view/game_sync.go:114-118 | No id is in two batches, and the ids in some batch are exactly those missing |
| BatchFetch.BuildData | internal/view/game_sync.go:164-172 | One row per requested id, in order: data exactly if the response has a detail of it, multiplayer exactly if the last such detail says so |
| BatchFetch.ReturnedIs | internal/view/game_sync.go:164-172 | What a response says of an app is its last detail |
| BatchFetch.StoredBatch | internal/db/games.go:370-386 | A stored batch fills exactly the rows of its ids; ids left out of the response are stored as having no data |
| BatchFetch.SlotsAreBounded | internal/view/game_sync.go:121-140 | In every state at most ten batches are in flight, the slots taken are exactly those, and all are free once every worker is done, after errors and panics too |
| BatchFetch.TableIsStoredBatches | internal/view/game_sync.go:94-144 | In every state of every run the games table is the initial one with exactly the rows of the stored batches filled |
| BatchFetch.StoredRowsSayTheResponse | internal/view/game_sync.go:123-172 | After any run the row of an id in a stored batch is fetched, has data exactly if the stored response has a detail of it, and is multiplayer exactly if the last such detail says so; its name and icon stay |
| BatchFetch.Confluence | internal/view/game_sync.go:94-144 | Two runs that stored the same responses end with the same table, whatever their order, errors and cancellations |
| BatchFetch.NoErrorMeansStored | internal/view/game_sync.go:123-143 | A worker that ends without an error stored its batch; one that stored nothing ends with an error |
| BatchFetch.CallFinishes | internal/view/game_sync.go:121-142 | Until every worker is done some worker can step, whatever failed before, and every step of a worker uses up one of finitely many |
| BatchFetch.EveryAnswerCanBeStored | internal/view/game_sync.go:121-142 | Whatever the responses, some run stores all of them and ends every worker without an error |
| BatchFetch.FetchFills | internal/view/game_sync.go:94-144 | A whole call changes only rows that it asks for and unsets no data, and if every worker succeeds no asked-for row lacks data |
| FetchRounds.Converges | internal/view/game_sync.go:94-144 | Over any repeated calls and library saves the missing ids never grow, and each call that stores a batch leaves strictly fewer, so there are at most as many such calls as missing ids |
| FetchRounds.RequestedAgain | internal/view/game_sync.go:98-101 | An id is requested again only if every earlier batch holding it was not stored and its worker did not succeed |
| FetchRounds.DataStays | internal/db/games.go:133-151 | Stored data is never unset, neither by later fetches nor by saves |
| FetchRounds.StillMissing | internal/view/game_sync.go:94-144 | After a call an id is missing exactly if it was before and its batch was not stored |
| Scrub.RewrittenEverywhere | internal/syncreason/syncreason.go:19-29 | At no position of the rewritten text does an http(s) URL run into ? or #, and every key= is followed by the end, a delimiter, or REDACTED and then one of these |
| Scrub.StripCutsTheQuery | internal/syncreason/syncreason.go:23 | An http or https URL in any letter case, its query or fragment up to the next white space or quote, and the rest: exactly the query goes, and the rewrite goes on behind it |
| Scrub.StripKeepsPlainUrl | internal/syncreason/syncreason.go:23 | A URL without query or fragment stays, and the rewrite goes on behind it |
| Scrub.StripKeepsText | internal/syncreason/syncreason.go:23 | Text in which no URL can start stays, and the rewrite goes on behind it |
| Scrub.StripKeepsStops | internal/syncreason/syncreason.go:23 | The first rewrite keeps every white space and quote of the text, in order |
| Scrub.RedactReplacesTheValue | internal/syncreason/syncreason.go:28 | key= in any letter case with a value up to the next &, white space or quote, and the rest: exactly the value is replaced by REDACTED, and the rewrite goes on behind it |
| Scrub.RedactKeepsText | internal/syncreason/syncreason.go:28 | Text in which no key= can start stays, and the rewrite goes on behind it |
| Scrub.RedactKeepsKeyStops | internal/syncreason/syncreason.go:28 | The second rewrite keeps every &, white space and quote, in order |
| Scrub.NoQueryFollows | internal/syncreason/syncreason.go:19-29 | Wherever a URL ends in the rewritten text, the next character is no ? and no # |
| Scrub.TextBehindStays | internal/syncreason/syncreason.go:56 | An instance: of http://h?a b only ?a goes |
| Scrub.RewriteIsIdempotent | internal/syncreason/syncreason.go:55-57 | Rewriting again changes nothing |
| Scrub.StrippedIsClean | internal/syncreason/syncreason.go:22-23 | After the first pattern no URL with a query or fragment is left |
| Scrub.RedactedIsSafe | internal/syncreason/syncreason.go:24-28 | After the second pattern every key= has a safe value |
| Scrub.RedactKeepsClean | internal/syncreason/syncreason.go:56-57 | The second rewrite does not bring a URL query back |
| Scrub.ScrubIsShort | internal/syncreason/syncreason.go:58-60 | A rewritten text of up to 300 characters is kept whole; of a longer one the first 300 are kept and an ellipsis follows |
| Scrub.ScrubTwice | internal/syncreason/syncreason.go:53-62 | A second scrub changes nothing, except that it drops the ellipsis exactly if the first 300 characters end in a redacted key |
| Scrub.EllipsisIsDropped | internal/syncreason/syncreason.go:53-62 | Such a text: 288 letters, key=REDACTED, and two characters beyond the cap |
| Scrub.ScrubThrice | internal/syncreason/syncreason.go:53-62 | From the second scrub on nothing changes |
| Ordering.AscendingIsUnique | internal/db/db.go:287-292 | An ORDER BY on a key has exactly one answer |

## Left out

- HTTP handlers, sessions, templates, events and OpenID; `migrate`; `Reason`'s unwrapping of errors before `Scrub`.
- Avatars of users; names, game icons and messages are modelled.
- `syncMembers`' own channel of three slots: the lock and pool results hold for any number of concurrent syncs.
- The due check made before the lock is requested: only the check under the lock decides, and
  `WaiterReportsSuccess` covers what the first one may answer.
- The failure of the read at the start of a fetch, which leaves what a fetch whose workers store nothing leaves.
- Nested use of two sync locks in one context, which the code never does.
- Several rows created by one id generator: ids of parties, invites and users are inputs, unused before.
- `games.id` and `user_games.game_id`: a game is named by its app id, except in `SaveLocks`, where the order of the
  second statement is by game id.
- `game_sync_state_at` and the text of a stored failure reason, which is taken to be non-empty.
- Text that Postgres would refuse (zero bytes, invalid UTF-8).
- `StoreGameData` takes its locks in batch order: `SaveLocks` does not cover it.
- Locks that the foreign keys take: they conflict with none of the updates in a save.
- Two syncs of one user at the same time without the lock: in `SyncRuns` the two writes of one user's library do
  not overlap.
- SyncLockProgress.EveryWaiterCanGetIn: which waiter gets the lock first is up to the timers, so it says that each can, not
  in which order they do.
- PartyStore.PartyStore.SendInvite: the invite's id is an input, and a repeated id is refused.
- SyncProtocol.SuccessesAreSpaced: only while no session of a lock connection ends under its sync; without that the
  lock is free while its holder still runs.
- SyncProtocol.WaiterReportsSuccess: the same condition.
- Library.RoundTrip: for lists of up to 2^31 games, beyond which positions wrap.
- SyncStore.AcquireUserSyncLock: waits are numbers of milliseconds; the time they take is not modelled.
- LibraryStore.LibraryStore.SortByApp: an insertion sort stands for the library sort, whose result is the same.
- PartyGames.SharedStoredGames: the query is a loop over the caller's rows with the query's own count.
