# Vautr client core: a Dafny model

A model of the client orchestrator of the Vautr password manager (`core/vautr-app-state`) and of
the server tables it talks to, with proofs of what the client keeps through failures, retries,
conflicts, other devices' writes, key rotation and locking. `dafny verify dfyconfig.toml` checks
the whole project.

## How it is built

Each protocol is given twice. Functions over values say what a step, a session or a whole run does;
classes with the source's fields and loops are proved to compute those functions. Everything the
client cannot decide (lost requests, failed transactions, lost answers, writes by other devices
before any server step, locks, clocks, iteration order, random ids) is an input that the theorems
quantify over.

| file | what it holds |
|---|---|
| `Common`, `Crypto`, `LocalDb`, `Server` | identifiers, ideal cryptography, local rows, the item table with its change counter and version check |
| `Offline`, `OfflineStore`, `OfflineFlushers` | the mutation queue, the flush and the replay invariant; when the whole store is kept; overlapping flushes |
| `Sync`, `SyncRuns`, `SyncPages`, `SyncClient` | paged pull, both cursors, convergence, unlocks and local edits, the session page by page, the running loop |
| `Rotation`, `RotationMeaning`, `RotationCompletes`, `RotationStops`, `RotationClient` | key rotation, what it preserves on both sides, when it completes, what it has done wherever it stops, the running loop |
| `Pushing`, `PendingDeletes`, `Resolution`, `PushClient` | pushing rows, recorded deletions, settling conflicts, the running loops |
| `Keys`, `SecretStore`, `LockReveal` | unlock, lock, recovery and second factor; handles; the race of reveal and lock |
| `FileTransfer`, `FileTransferClient`, `Throttle` | attachments, the running loops, progress events |
| `Groups`, `GroupRuns` | group sharing, and its operations overlapping |
| `Hardening`, `Updater`, `Versions` | the crash-report scrubber, hex and version codecs |

Cryptography is ideal: a sealed box opens exactly with the key, identifier and generation it was
sealed with, and key derivations are injective.

## What was found

Where a property one would expect does not hold of the code, the code is modelled as it is and the
exact condition is proved.

- The server's 410 check compares the cursor with the lowest change number in use, and an edit moves
  a row's number up. A new device is refused as soon as the account's first change was superseded,
  and a client whose two cursors are both expired never syncs again. The handler's comment says that
  the client restarts from 0; 0 is refused by the same test.
- The durable cursor is written even with a page that lost a download, and every unlock resumes from
  it, so the item can be skipped for good.
- A page overwrites whatever the local row holds: an unpushed edit of a listed item is lost.
- Asking for a generation that is not ahead of the account's is confirmed without storing the new
  blob; the promoted key is then not the one the password unwraps.
- Trashed rows are not rotated, and a live row the server has never seen stops a rotation.
- Completing a recovery while another password's master key is cached makes the next rotation wrap
  the new key under the wrong password.
- Rotation replaces the password's blob and leaves the recovery blob. Recovering afterwards activates
  the key from before the rotation, and completing that recovery gives the account this key back.
- An attachment's key envelope is wrapped under the root key of its upload and is not rewrapped by a
  rotation, so earlier attachments cannot be opened after one.
- A push does not advance local versions: pushing twice reports every row, a forced resolution comes
  back, and a row saved for the first time (version 1) is only ever reported, with server version 0.
- Recorded deletions go out in one request and are forgotten all or none: one applied among others
  refused blocks the list for good, and so does a list of more than 100.
- Keeping the server's side of a conflict stores the session's generation instead of the item's. A
  forced push whose answer is lost is reported as failed although both sides agree.
- Two concurrent flushes of the offline queue can lose a save; which rounds are safe can be read off
  the queue. Creation times and recorded tombstones survive a flush exactly when no commit follows a
  rejection; otherwise a retried delete can record a tombstone of a row nobody deleted, and one such
  entry can keep the whole list from being cleared.
- Removing a group member or rotating a group leaves the admin as the only holder of the group's key.
  An addition that a rotation overtakes stores a key that opens nothing new.
- An empty file has one chunk in its manifest and none in its ciphertext; a chunk count of 2^32 or
  more is cut to 32 bits and such a file cannot be read back.

## Model

| member | source | states |
|---|---|---|
| `Server.PushAllEvolves` | core/vautr-server/src/repository/items.rs:43-140 | Any number of pushes, accepted or refused, keeps the change index exact, never lowers a version, and gives every changed row a number above all earlier ones |
| `Offline.RunLosesNothing` | core/vautr-app-state/src/orchestrator.rs:1908-1952 | Over any run of flushes and additions, with commits, rejections, locks and arrivals in any order, replaying what is left on the current store gives the contents of replaying everything ever queued on the original store |
| `Offline.FlushLosesNothing` | core/vautr-app-state/src/orchestrator.rs:1908-1946 | The same for one flush |
| `Offline.FlushRemovesOnlyWhatIsSafe` | core/vautr-app-state/src/orchestrator.rs:1915-1946 | The queue afterwards is a suffix of the one before plus the arrivals; a removed entry at j has the kind and uuid of one at some i >= j that committed; if all commit and nothing locks, the whole snapshot goes |
| `Offline.CommitAheadOfTurn` | core/vautr-app-state/src/worker.rs:181-247 | Committing a queued save or delete before its turn does not change what the queue will produce |
| `Offline.RemoveMatchingHead` | core/vautr-app-state/src/orchestrator.rs:1924-1937 | After a commit, dropping a head of the same kind and uuid is safe although it may be another entry |
| `Offline.LastWordDecides` | core/vautr-app-state/src/worker.rs:181-283 | What a replay leaves: no row after a last delete; after a last save its generation, trash flag and payload at the version kept or 1; else the old row |
| `Offline.AppliedIsTheCommits` | core/vautr-app-state/src/orchestrator.rs:1914-1951 | The number a flush returns is the number of entries that committed before it stopped |
| `OfflineStore.OrderlyRunKeepsStore` | core/vautr-app-state/src/orchestrator.rs:1908-1952 | Over any run whose flushes never commit after a rejection the whole store is kept, creation times and recorded tombstones included |
| `OfflineStore.OrderlyFlushKeepsStore` | core/vautr-app-state/src/orchestrator.rs:1915-1946 | The same for one flush |
| `OfflineStore.KeepsStoreIffOrderly` | core/vautr-app-state/src/orchestrator.rs:1915-1946 | Exactly: with given outcomes every queue of that length and every store keep the whole store iff no commit follows a rejection |
| `OfflineStore.CrossingBreaks` | core/vautr-app-state/src/orchestrator.rs:1939-1942 | Finding: for every other pattern a queue for which a rejected delete and a later committed save leave a tombstone of a row nobody deleted |
| `OfflineStore.TombstonesSurviveIff` | core/vautr-app-state/src/worker.rs:249-283 | The recorded tombstones survive one save or delete out of turn iff the first deletion of the item still queued records the same target, or a later one replaces it |
| `OfflineStore.StoreSurvivesIff` | core/vautr-app-state/src/worker.rs:181-283 | The whole store survives one commit out of turn iff the tombstones do and, where the queue does not delete the item, its creation time does |
| `OfflineStore.CreationSurvivesIff` | core/vautr-app-state/src/worker.rs:209-210 | In a queue that does not delete the item, its creation time survives a save out of turn iff the row existed or the first queued save has the same time |
| `OfflineStore.RetriedDeleteRetargetsTombstone` | core/vautr-app-state/src/worker.rs:249-283 | A flush in which a retried delete records the re-created row's version as its target |
| `OfflineFlushers.OneFlusherLosesNothing` | core/vautr-app-state/src/orchestrator.rs:1908-1946 | Step by step, with commit and removal apart: a client that flushes one at a time loses nothing, in every interleaving with additions |
| `OfflineFlushers.HarmlessRunLosesNothing` | core/vautr-app-state/src/orchestrator.rs:1908-1946 | Any number of flushers, each with its own snapshot: nothing is lost if every step is harmless |
| `OfflineFlushers.StepKeepsPromiseIff` | core/vautr-app-state/src/orchestrator.rs:1917-1937 | A step keeps what the queue promises iff it is harmless: the queue has the last word on the item, or the store says already what the entry would |
| `OfflineFlushers.RoundIsAFlushStep` | core/vautr-app-state/src/orchestrator.rs:1915-1941 | Commit and removal with nothing in between are one round of the flush loop, and so is a rejection |
| `OfflineFlushers.OneHarmfulStepLoses` | core/vautr-app-state/src/orchestrator.rs:1917-1937 | A run with one harmful step and no addition after it does lose something |
| `OfflineFlushers.RoundSafeIff` | core/vautr-app-state/src/orchestrator.rs:1917-1937 | Exactly: committing an entry and removing a matching head loses nothing on every store iff the queue deletes the item, still saves it afterwards, or starts with that entry |
| `OfflineFlushers.TwoFlushersLoseASave` | core/vautr-app-state/src/offline.rs:55-73 | Finding: two overlapping flushes from one snapshot lose the newer of two saves |
| `Offline.OfflineQueue.Push` | core/vautr-app-state/src/offline.rs:35-39 | Appends and returns the new length |
| `Offline.OfflineQueue.PopFrontIf` | core/vautr-app-state/src/offline.rs:62-73 | Removes and returns the front exactly when it passes the test |
| `Offline.OfflineQueue.Drain` | core/vautr-app-state/src/offline.rs:77-80 | Returns everything and leaves the queue empty |
| `Offline.OfflineClient.FlushOfflineQueue` | core/vautr-app-state/src/orchestrator.rs:1908-1946 | The flush loop computes the reference flush and keeps the replay promise |
| `Sync.Since` | core/vautr-server/src/handlers/sync.rs:154-164 | The change numbers after the cursor: exactly those in use, ascending |
| `Sync.PullCovers` | core/vautr-server/src/handlers/sync.rs:154-188 | A page lists, as they are, exactly the rows changed after the cursor and up to the new one, and the last page reaches the end |
| `Sync.CollectsAll` | core/vautr-app-state/src/orchestrator.rs:675-705 | Whatever is downloaded is on the page and still true unless the row changed again; without a failure every row that is not ignored is collected |
| `Sync.RowAfterPage` | core/vautr-db/src/txn.rs:64-139 | Applying a page: a delivered row agrees with the server afterwards, any other agrees iff it did before |
| `Sync.PageKeepsSound` | core/vautr-app-state/src/orchestrator.rs:760-823 | Persisting a page never makes a row wrong that counted as right |
| `Sync.DurableCursorIff` | core/vautr-app-state/src/orchestrator.rs:706-719 | The cursor written with a page is right iff every row the page failed to deliver was up to date already |
| `SyncRuns.SessionKeepsCursors` | core/vautr-app-state/src/orchestrator.rs:626-754 | Whatever fails and whoever writes meanwhile, every row not listed after the in-memory cursor agrees, save for local edits still in place; the durable cursor keeps this if nothing failed and regains it by a clean session, which also brings in every change after the old cursor |
| `SyncPages.DurableIsTheLastPersistedEnd` | core/vautr-app-state/src/orchestrator.rs:706-719 | After any session the durable cursor is the end of the last page whose transaction succeeded, or what it was |
| `SyncPages.UnlockResumesAtThePageEnd` | core/vautr-app-state/src/orchestrator.rs:1011-1021 | A session stopped after any number of pages, the last persisted: the next unlock resumes at the end of that page |
| `SyncPages.StoppedSessionsGetOn` | core/vautr-app-state/src/orchestrator.rs:706-719 | If its first page is persisted, a session leaves a durable cursor beyond the one it started from, however it is stopped |
| `SyncPages.CleanIff` | core/vautr-app-state/src/orchestrator.rs:681-719 | A session is clean iff no download and no page transaction failed in it |
| `SyncPages.IgnoredRowsStay` | core/vautr-app-state/src/orchestrator.rs:675-679 | No session touches the row of an ignored item |
| `SyncPages.SyncedRowsOpen` | core/vautr-server/src/handlers/sync.rs:191-238 | Downloads are of the exact version listed, so every row a session leaves opens at its own generation, whoever writes in between |
| `SyncRuns.RunStaysGood` | core/vautr-app-state/src/orchestrator.rs:626-754 | The same over any run of sessions, foreign writes, local saves and deletes, newly ignored items and unlocks, if no unlock reads the durable cursor back after a failure that no clean session has made good |
| `SyncRuns.EditSurvivesIff` | core/vautr-app-state/src/orchestrator.rs:760-805 | Finding: a row that differs from the server's, an unpushed edit for instance, is left alone by a completed clean session iff its item is not listed after the old cursor |
| `SyncRuns.UnlockIsSafeIff` | core/vautr-app-state/src/orchestrator.rs:1011-1021 | Exactly: an unlock keeps the promise iff the durable cursor it reads back is sound; restarting from 0 always does |
| `SyncRuns.CleanRunsAreTrusted` | core/vautr-app-state/src/orchestrator.rs:1011-1021 | In a run without failures every unlock is of that kind, wherever the sessions stopped |
| `SyncRuns.RunsWithoutUnlocksAreTrusted` | core/vautr-app-state/src/orchestrator.rs:626-754 | So is every run that does not read the durable cursor back, whatever fails in it |
| `SyncRuns.LostDownloadThenUnlock` | core/vautr-app-state/src/orchestrator.rs:706-734 | The hypothesis is needed: one lost download, an unlock, and the item is never asked for again |
| `SyncRuns.UndisturbedSessionEndsIff` | core/vautr-app-state/src/orchestrator.rs:642-734 | From any good state an undisturbed session ends normally iff the cursor is not expired and the backlog fits 10 000 pages; then local equals server, save for ignored items and edits of unlisted ones |
| `SyncRuns.SyncConverges` | core/vautr-app-state/src/orchestrator.rs:626-754 | After any such run the next undisturbed session that ends normally leaves local and server with the same items, live or deleted, and no row left over, save for ignored ones and edits left in place |
| `SyncRuns.ExpiredForever` | core/vautr-server/src/handlers/sync.rs:134-148 | Finding: once both cursors are expired no run of sessions, writes and unlocks changes a local row again; only local edits do |
| `SyncRuns.CursorRefusedIff` | core/vautr-server/src/handlers/sync.rs:134-148 | A cursor is refused iff the server holds something and no change number up to the next one is in use |
| `SyncRuns.FreshDeviceRefusedIff` | core/vautr-server/src/handlers/sync.rs:134-148 | Finding: a device starting at 0 is refused iff the vault is not empty and the account's first change has been superseded |
| `SyncRuns.EditedOnceIsEnough` | core/vautr-server/src/handlers/sync.rs:134-148 | Creating one item and editing it once is such a vault |
| `SyncClient.Client.CollectPage` | core/vautr-app-state/src/orchestrator.rs:675-705 | The download loop computes the collected page |
| `SyncClient.Client.PersistSyncedPage` | core/vautr-app-state/src/orchestrator.rs:760-805 | One transaction: deletions, then upserts that keep the creation time, and the cursor; or nothing |
| `SyncClient.Client.Synchronize` | core/vautr-app-state/src/orchestrator.rs:642-734 | The paging loop computes the session and leaves the in-memory cursor sound |
| `SyncClient.Client.Sync` | core/vautr-app-state/src/orchestrator.rs:626-754 | Needs a transport, runs one session, and is Ok iff it ended and the ignored list was written |
| `SyncClient.Client.LoadPersistedCursor` | core/vautr-app-state/src/orchestrator.rs:1011-1021 | The in-memory cursor becomes the durable one, or 0 if it cannot be read |
| `Rotation.BatchesVisitEachRowOnce` | core/vautr-app-state/src/orchestrator.rs:887-900 | The skip/take batches, glued together, are the listing, for any number of rows |
| `RotationMeaning.RotateRows` | core/vautr-app-state/src/orchestrator.rs:887-928 | Wherever a rotation stops, each row is as it was or moved to the new key with only its key changed; after success exactly the live rows below the confirmed generation are moved |
| `RotationStops.RotationMovesExactly` | core/vautr-app-state/src/orchestrator.rs:884-989 | The rows at every stop: exactly the first n listed rows are moved, where n is 0 if the account step failed, the first row that does not open or is not persisted, the end of the batch whose request failed, or all |
| `RotationStops.NotSentIfNotMoved` | core/vautr-app-state/src/orchestrator.rs:902-932 | A batch is sent only when all its rows are moved: with no other writer a server item is untouched if any row of its batch or an earlier one does not go through |
| `RotationStops.BrokenRequestWrites` | core/vautr-server/src/handlers/sync.rs:240-357 | A request that breaks has written the first rows the server handled, at version plus one under the new key, and nothing else |
| `RotationStops.RotationRaisesTheGate` | core/vautr-server/src/handlers/account.rs:129-147 | Once the account request arrived the gate is at the larger generation and anything older is refused, whatever became of the rest |
| `RotationMeaning.EveryStopLeavesRowsReadable` | core/vautr-app-state/src/orchestrator.rs:884-996 | Each row opens to its plaintext under exactly one of the two keys: the old one below the confirmed generation, the new one at it |
| `RotationMeaning.RotationPreservesServerMeaning` | core/vautr-app-state/src/orchestrator.rs:929-998 | On success every moved item the server knew still says what it meant, edits by other devices that surfaced as conflicts included; untouched ones are under the new key at the confirmed generation, and for a clean row the content is the one the server had before |
| `RotationCompletes.NeverPushedRowStopsRotation` | core/vautr-app-state/src/orchestrator.rs:884-983 | Finding: a rotation that completes has no selected row the server never saw, unless another device created the item meanwhile |
| `RotationCompletes.RotationCompletesIff` | core/vautr-app-state/src/orchestrator.rs:884-989 | With no other writer and nothing lost, a rotation completes iff every selected row opens under the old key and the server is at its version, or holds a live copy that opens at the listed generation |
| `RotationMeaning.RotateBlob` | core/vautr-server/src/handlers/account.rs:129-147 | The account's blob after any rotation, whatever failed |
| `RotationMeaning.ReadableAfterReunlockIff` | core/vautr-app-state/src/orchestrator.rs:846-868 | After any rotation, a lock and a password unlock, a row is readable iff it was moved just in case the blob was replaced |
| `RotationClient.Client.ListRotationItems` | core/vautr-db/src/query.rs:257-283 | Lists every live row below the generation once, lowest generation first |
| `RotationClient.Client.ReencryptBatch` | core/vautr-app-state/src/orchestrator.rs:902-928 | The per-row transactions compute the specified rows and push items |
| `RotationClient.Client.PushBatch` | core/vautr-server/src/handlers/sync.rs:240-357 | The server handles the items of a request in order under the version check |
| `RotationClient.Client.SettleOutcomes` | core/vautr-app-state/src/orchestrator.rs:938-983 | The conflict branch computes the specified settlement |
| `RotationClient.Client.RotateKey` | core/vautr-app-state/src/orchestrator.rs:830-999 | Refused iff locked, not connected, or without user id, master key or SVK; otherwise the whole rotation, with the new keys promoted iff nothing failed |
| `Pushing.PublishesExactlyTheConflicts` | core/vautr-app-state/src/orchestrator.rs:1335-1365 | The published conflicts are, in row order, those of the answered rows whose version differs from the one the other writers alone have left, each with its own local version; the cut into hundreds and this client's own pushes make no difference |
| `Pushing.ReportedIff` | core/vautr-app-state/src/orchestrator.rs:1341-1362 | Row by row: reported iff the versions differ and the generation is still taken |
| `Pushing.WritesExactlyTheAccepted` | core/vautr-server/src/repository/items.rs:77-136 | Without other writers the accepted among the rows the server handled are at version plus one with the local payload, and nothing else changes, also when a request breaks |
| `Pushing.RequestsFitTheServer` | core/vautr-server/src/handlers/sync.rs:246-251 | No request carries more than the 100 items the server takes |
| `Pushing.PushingTwiceReportsEveryRow` | core/vautr-app-state/src/orchestrator.rs:1335-1365 | Finding: local versions are not advanced, so a second push before a sync reports every row, the applied ones included |
| `Pushing.NewRowIsOnlyReported` | core/vautr-app-state/src/worker.rs:192-210 | Finding: a row saved for the first time has version 1, so a push never creates it and reports server version 0 |
| `PendingDeletes.PendingClearedIff` | core/vautr-app-state/src/orchestrator.rs:1295-1333 | The recorded deletions are forgotten iff there are at most 100, the request was answered, clearing worked and every one was accepted |
| `PendingDeletes.ForgottenMeansDeleted` | core/vautr-app-state/src/orchestrator.rs:1298-1318 | Once forgotten, with no other writer, every recorded deletion is a tombstone on the server and nothing else has changed |
| `PendingDeletes.PartialFlushBlocksForGood` | core/vautr-app-state/src/orchestrator.rs:1307-1322 | Finding: a deletion applied by a flush that kept the list blocks every later list holding it, for ever |
| `Resolution.ResolutionAgrees` | core/vautr-app-state/src/orchestrator.rs:1373-1434 | Either choice returning Ok leaves one payload on both sides, and other items, the creation time and the in-memory cursor untouched; keeping the server's side writes that cursor as the durable one |
| `Resolution.FailedResolutionChangesTheServerIff` | core/vautr-app-state/src/orchestrator.rs:1373-1434 | A choice that does not return Ok leaves rows and cursors alone; it changes the server iff a forced push was accepted and its answer lost |
| `Resolution.RetryAfterLostAnswer` | core/vautr-app-state/src/orchestrator.rs:1415-1433 | Finding: after a lost answer, forcing again at the same version is refused although both sides agree |
| `Resolution.SettlesIff` | core/vautr-app-state/src/orchestrator.rs:1389-1434 | Exactly when forcing and keeping succeed with no other writer |
| `Resolution.ReportedConflictsCanBeSettled` | core/vautr-app-state/src/orchestrator.rs:1345-1434 | Push, then settle: forcing at the reported version always applies; keeping the server's side works iff the server holds a live item |
| `Resolution.KeptServerSideReadableIff` | core/vautr-app-state/src/orchestrator.rs:1399-1406 | Finding: the kept row is stored at the session's generation and is readable iff the payload is of that generation |
| `Resolution.SettledConflictReturnsIff` | core/vautr-app-state/src/orchestrator.rs:1335-1434 | Finding: the next push, with every request answered and no other writer, reports the item again iff the local side was forced and its unchanged version is not the server's new one |
| `PushClient.Client.LocalVersion` | core/vautr-app-state/src/orchestrator.rs:1347-1351 | Finds the first row of the chunk with the uuid, else the default |
| `PushClient.Client.PushLocalChanges` | core/vautr-app-state/src/orchestrator.rs:1275-1365 | Deletions first, then the rows; publishes exactly the expected conflicts; every early error |
| `PushClient.Client.ResolveConflict` | core/vautr-app-state/src/orchestrator.rs:1373-1434 | Computes the specified resolution and leaves the payloads equal when it returns Ok |
| `Keys.PasswordUnlockIsNeverBricked` | core/vautr-app-state/src/orchestrator.rs:329-486 | Over any run of unlocks, locks, rotations (whatever fails), creations and permitted recoveries the current password opens the blob on the server |
| `Keys.PasswordUnlockIff` | core/vautr-app-state/src/orchestrator.rs:344-394 | A password unlock succeeds iff the password is current and no factor is required or one is verified; then the key in the blob is active at the given generation, else the keys stay |
| `Keys.UnlockFromHistoryIff` | core/vautr-app-state/src/orchestrator.rs:344-362 | The gate from the history alone: current password, and no factor required by the last event that says so or by the server's declaration, or a verification since the last event that clears it |
| `Keys.RequiredFromHistory` | core/vautr-app-state/src/orchestrator.rs:413-486 | The required factor is what the last setting, lock, reset or declaring unlock made it |
| `Keys.EveryWayInActivatesItsKey` | core/vautr-app-state/src/orchestrator.rs:397-408 | Raw key, new vault and recovery each activate their own key and its item key; only the raw key drops the cached master key |
| `Keys.RawKeySessionCannotRotate` | core/vautr-app-state/src/orchestrator.rs:846-853 | A session opened with a raw key refuses to rotate until the password has been used |
| `Keys.FailureLeavesTheKeys` | core/vautr-app-state/src/orchestrator.rs:329-394 | An operation that fails leaves the keys as they were |
| `Keys.RecoverIff` | core/vautr-app-state/src/orchestrator.rs:1739-1757 | The recovery key works iff the blob is its own, bound to the user or to nobody |
| `Keys.RecoveryOverAnOpenSessionBricks` | core/vautr-app-state/src/orchestrator.rs:1784-1833 | Finding: recovering in an open password session, completing with another password and rotating leaves a blob the new password does not open |
| `Crypto.UnwrapIff` | core/vautr-app-state/src/orchestrator.rs:363-386 | A wrapped key opens iff the master key is right and it is bound to the user or to nobody |
| `Keys.BlobMatchesActiveKeyIff` | core/vautr-server/src/handlers/account.rs:129-147 | Finding: after a successful rotation the blob holds the active key iff the requested generation was ahead of the account's |
| `Keys.RotateLockUnlock` | core/vautr-app-state/src/orchestrator.rs:830-999 | Rotate, lock, unlock: the same key is active again iff the requested generation was ahead |
| `Keys.RotationBricksIffCacheIsStale` | core/vautr-app-state/src/orchestrator.rs:846-868 | A cached master key is harmless for every rotation iff it is the current password's |
| `Keys.RecoveryKeepsInvIff` | core/vautr-app-state/src/orchestrator.rs:1784-1833 | Completing a recovery keeps the promise iff no other password's master key is cached |
| `Keys.DisciplinedRunsArePermitted` | core/vautr-app-state/src/orchestrator.rs:1739-1833 | Entering recovery from a locked vault and not unlocking before completing it is enough |
| `Keys.RecoveryIsCurrentIff` | core/vautr-server/src/handlers/account.rs:137-147 | Finding: over any run the recovery key leads to the key the password leads to iff no rotation replaced the blob since both were last written together |
| `Keys.RecoveryRoundTrip` | core/vautr-app-state/src/orchestrator.rs:1784-1833 | After both blobs are uploaded, the new password and the new recovery key each bring back the active key |
| `Keys.RecoveryAfterRotationGoesBack` | core/vautr-app-state/src/orchestrator.rs:1739-1833 | Finding: recovering after a rotation activates the key from before it, and completing it writes that key back; what the rotation moved does not open |
| `Keys.RotationAgrees` | core/vautr-app-state/src/orchestrator.rs:846-868 | The account half of the full rotation is the rotation step of the key machine |
| `Keys.VerifiedIff` | core/vautr-app-state/src/orchestrator.rs:413-486 | The verified mark is set iff a verification came after the last event that clears it |
| `Keys.UnlockNeedsVerification` | core/vautr-app-state/src/orchestrator.rs:344-362 | A password unlock that succeeds while the history requires a factor follows a verification after the last lock, reset or clearing |
| `Keys.VaultSession.UnlockWithPassword` | core/vautr-app-state/src/orchestrator.rs:329-394 | Performs its step of the key machine |
| `Keys.VaultSession.UnlockWithRawKey` | core/vautr-app-state/src/orchestrator.rs:397-408 | Performs its step; drops the cached master key |
| `Keys.VaultSession.LockVault` | core/vautr-app-state/src/orchestrator.rs:476-486 | Performs its step; no key is left |
| `Keys.VaultSession.RecoverWithKey` | core/vautr-app-state/src/orchestrator.rs:1739-1760 | Performs its step |
| `Keys.VaultSession.CompleteRecovery` | core/vautr-app-state/src/orchestrator.rs:1784-1833 | Performs its step and returns the two blobs to upload; a failed local write leaves the recovery pending |
| `SecretStore.HandleReusedIff` | core/vautr-app-state/src/handles.rs:57-62 | Two reveals share a handle iff the 64-bit counter went all the way round between them |
| `SecretStore.AccessIff` | core/vautr-app-state/src/handles.rs:57-89 | A handle yields exactly what the reveal that returned it stored, and only until something removed it |
| `SecretStore.OneRevealPerHandle` | core/vautr-app-state/src/handles.rs:57-62 | A handle belongs to one reveal |
| `SecretStore.GoneIsForever` | core/vautr-app-state/src/handles.rs:66-89 | A handle that is gone stays gone, through locks and unlocks |
| `SecretStore.SecretHandles.Reveal` | core/vautr-app-state/src/handles.rs:57-62 | Appends a reveal to the history and returns its handle |
| `SecretStore.SecretHandles.Access` | core/vautr-app-state/src/handles.rs:66-72 | Yields exactly what the reveal that returned the handle stored, and only while nothing has removed it since |
| `SecretStore.SecretHandles.Release` | core/vautr-app-state/src/handles.rs:75-77 | Appends a release to the history; the handle is gone |
| `SecretStore.SecretHandles.ClearAll` | core/vautr-app-state/src/handles.rs:87-89 | Appends a clearing to the history; the table is empty |
| `LockReveal.RunKeepsInv` | core/vautr-app-state/src/orchestrator.rs:518-536 | In every interleaving of any number of reveals, locks and unlocks, whoever is between key and table holds the mutex and a key |
| `LockReveal.LockBeatsReveal` | core/vautr-app-state/src/orchestrator.rs:476-486 | After any history with any unlocks: if nobody unlocks from when a lock is about to clear the key, the handle table is empty once it has cleared it, and stays empty |
| `LockReveal.NoLateReveal` | core/vautr-app-state/src/orchestrator.rs:518-536 | No reveal gets a key after a lock has cleared it |
| `LockReveal.RevealAlone` | core/vautr-app-state/src/orchestrator.rs:518-536 | Left to itself a reveal adds exactly one handle if the vault is open and none if it is locked |
| `LockReveal.LockAlone` | core/vautr-app-state/src/orchestrator.rs:476-486 | Left to itself a lock ends with no key, no handle and the flag set |
| `LockReveal.UnlockInBetweenBreaksIt` | core/vautr-app-state/src/orchestrator.rs:476-486 | The hypothesis is needed: an unlock between the clearing of the key and of the table leaves a live handle after the lock |
| `FileTransfer.ChunksIsCeiling` | core/vautr-files/src/manifest.rs:57-57 | The number of sealed chunks is the ceiling of size over chunk size |
| `FileTransfer.CiphertextLengthIff` | core/vautr-app-state/src/file_transfer.rs:202-210 | The ciphertext is total_size + 40 * total_chunks long iff the file is not empty |
| `FileTransfer.CutIsSealedChunks` | core/vautr-app-state/src/file_transfer.rs:219-226 | The offset loop cuts exactly the sealed chunks, in order, as far as the count goes |
| `FileTransfer.EnvelopesMakeTheCiphertext` | core/vautr-app-state/src/file_transfer.rs:219-234 | The envelopes together are the whole ciphertext |
| `FileTransfer.RoundTripIff` | core/vautr-app-state/src/file_transfer.rs:179-275 | Upload then download returns the plaintext iff the SVK is the same and the chunk count fits 32 bits; otherwise it fails |
| `FileTransfer.LegacyRoundTripIff` | core/vautr-app-state/src/file_transfer.rs:105-117 | A manifest without a key envelope: the plaintext comes back iff the SVK is that of the upload or the file is empty |
| `FileTransfer.DecryptIff` | core/vautr-files/src/file.rs:84-146 | Decryption accepts exactly the stream encryption makes of the plaintext, apart from the nonces it computes itself: nothing short, altered, out of place or trailing |
| `FileTransfer.EnvelopeIs` | core/vautr-app-state/src/file_transfer.rs:219-226 | Envelope j is the j-th chunk of the plaintext sealed under its own number |
| `FileTransfer.ProgressReachesTheTotal` | core/vautr-app-state/src/file_transfer.rs:231-234 | Reported bytes never decrease and end at the size |
| `FileTransfer.ReportIsBytesSent` | core/vautr-app-state/src/file_transfer.rs:231-234 | What is reported after a chunk is the bytes in the chunks up to it |
| `FileTransferClient.EncryptFile` | core/vautr-files/src/file.rs:31-77 | The encrypting loop computes the stream |
| `FileTransferClient.SendEnvelopes` | core/vautr-app-state/src/file_transfer.rs:219-234 | The offset loop sends the envelopes and reports in order, up to the first refused chunk |
| `FileTransferClient.UploadBytes` | core/vautr-app-state/src/file_transfer.rs:179-242 | Sends and reports the acknowledged prefix of the upload; returns the manifest iff every request succeeded |
| `FileTransferClient.DownloadFile` | core/vautr-app-state/src/file_transfer.rs:246-275 | Fetches and reports up to the first missing chunk; with all of them it is the specified download, whose errors are a key envelope that does not open, a manifest whose numbers disagree, and a bad stream |
| `FileTransferClient.DecryptFile` | core/vautr-files/src/file.rs:84-146 | The decrypting loop computes the stream's plaintext, refusing short, altered and trailing input |
| `Throttle.RateBound` | core/vautr-app-state/src/file_transfer.rs:152-173 | Published events are 250 ms apart, any half-open second holds at most 4, the counter counts them |
| `Throttle.NeverSilentForLong` | core/vautr-app-state/src/file_transfer.rs:152-173 | Whenever progress is reported, an event went out then or less than 250 ms before |
| `Throttle.ProgressGate.EmitProgress` | core/vautr-app-state/src/file_transfer.rs:152-173 | Publishes exactly when the window has passed, and remembers it |
| `GroupRuns.RunKeepsAgreement` | core/vautr-app-state/src/orchestrator.rs:1589-1659 | Over any interleaving of additions, removals and rotations without a slip, every wrapped key at the relay wraps the key in the admin's store, or the one about to be promoted |
| `GroupRuns.AgreementKeptIff` | core/vautr-app-state/src/orchestrator.rs:1589-1659 | A step breaks the agreement iff it stores a wrapping that a rotation has overtaken, relays without an answer, or relays while another rotation of the group is about to promote |
| `Groups.RotationMends` | core/vautr-app-state/src/orchestrator.rs:1639-1659 | An uninterrupted answered rotation brings its own group into agreement, from any state |
| `Groups.EntriesAfterRotation` | core/vautr-app-state/src/orchestrator.rs:1629-1659 | Finding: after a removal or rotation only the admin has an entry of that group; other groups are untouched |
| `GroupRuns.AddIsTwoSteps` | core/vautr-app-state/src/orchestrator.rs:1589-1608 | An addition is its reading and its storing step with nothing in between |
| `GroupRuns.RotateIsThreeSteps` | core/vautr-app-state/src/orchestrator.rs:1639-1659 | A rotation is its drawing, relaying and promoting steps with nothing in between |
| `GroupRuns.RemoveIsThreeSteps` | core/vautr-app-state/src/orchestrator.rs:1612-1635 | So is a removal, which is Ok iff the group and the admin's key are known, the member is not the admin and the relay answered |
| `GroupRuns.RunKeepsFresh` | core/vautr-app-state/src/orchestrator.rs:1589-1659 | In every interleaving a drawn key is nobody's current key, in no addition under way and shown to nobody but the admin until it is promoted |
| `GroupRuns.NewClientKeepsAgreement` | core/vautr-app-state/src/orchestrator.rs:1574-1659 | Both hold in every state a new client can reach, agreement if no step slipped |
| `GroupRuns.AddedMemberHasAccessIff` | core/vautr-app-state/src/orchestrator.rs:1589-1608 | A stored addition opens the group's current key iff that key has not been overtaken, and goes on doing so through every interleaving that does not rotate the group |
| `GroupRuns.AddedMemberOpensWithItsOwnKey` | core/vautr-app-state/src/orchestrator.rs:1604-1607 | The whole addition: the member opens the group's key with the key pair it had published when the addition began, whatever happens between its steps and afterwards short of replacing the group's key or entries |
| `GroupRuns.RunKeepsOwnKeys` | core/vautr-app-state/src/orchestrator.rs:1589-1659 | In every interleaving nothing is wrapped for a key its user did not publish |
| `GroupRuns.CreatorRunsTheGroup` | core/vautr-app-state/src/orchestrator.rs:1574-1586 | A new group has no entries, and its creator is the one member that cannot be removed |
| `GroupRuns.RemovedMemberNeverSeesTheKey` | core/vautr-app-state/src/orchestrator.rs:1612-1635 | Forward secrecy in every interleaving: once a removal has returned Ok, and until a new addition begins, the group's key is none the relay ever showed the member |
| `GroupRuns.EntryComesBackIff` | core/vautr-app-state/src/orchestrator.rs:1589-1635 | A member can come to have an entry without a new addition iff it has one or an addition of it is still under way |
| `GroupRuns.UnansweredRemovalKeepsTheOldKey` | core/vautr-app-state/src/orchestrator.rs:1631-1635 | Finding: if the relay's answer is lost the admin goes on with a key the member has seen |
| `Groups.GroupAdmin.ReplaceWrappedKeys` | core/vautr-app-state/src/sharing.rs:187-203 | Drops the group's entries and inserts the given ones |
| `Groups.GroupAdmin.RewrapFor` | core/vautr-sharing/src/lib.rs:335-357 | Wraps the new key for each remaining member, in order |
| `Groups.GroupAdmin.CreateGroup` | core/vautr-app-state/src/orchestrator.rs:1574-1586 | A fresh key under the new id, or an error without a user id |
| `Groups.GroupAdmin.AddGroupMember` | core/vautr-app-state/src/orchestrator.rs:1589-1608 | Performs its step, with every error |
| `Groups.GroupAdmin.RotateGroupSik` | core/vautr-app-state/src/orchestrator.rs:1639-1659 | Performs its step, with every error |
| `Groups.GroupAdmin.RemoveGroupMember` | core/vautr-sharing/src/lib.rs:364-378 | Performs its step; the admin cannot be removed |
| `Hardening.IsUuidAt` | core/vautr-app-state/src/hardening.rs:129-146 | The window has the 8-4-4-4-12 hex form of section 3 of RFC 4122 |
| `Hardening.LooksLikeUuid` | core/vautr-app-state/src/hardening.rs:113-127 | True iff some 36-octet window has the form |
| `Hardening.ScrubCleans` | core/vautr-app-state/src/hardening.rs:164-209 | A scrubbed event is clean; scrubbing changes nothing iff the event was clean; breadcrumbs and stack traces pass |
| `Hardening.ScrubIsIdempotent` | core/vautr-app-state/src/hardening.rs:164-209 | Scrubbing twice is scrubbing once |
| `Hardening.ScrubKeepsTheRest` | core/vautr-app-state/src/hardening.rs:164-209 | A leaking message is replaced by the marker; a harmless message, id and extra and an empty email are kept |
| `Hardening.NoSecretKeyIsLeft` | core/vautr-app-state/src/hardening.rs:148-159 | No key with one of the secret words in any case, and no uuid key, is left |
| `Hardening.CrashEvent.ScrubUser` | core/vautr-app-state/src/hardening.rs:176-188 | Drops a non-empty email and an id that contains a UUID |
| `Hardening.CrashEvent.KeysToRemove` | core/vautr-app-state/src/hardening.rs:191-205 | The first pass collects exactly the keys to drop |
| `Hardening.CrashEvent.ScrubCrashEvent` | core/vautr-app-state/src/hardening.rs:164-209 | Collect-then-remove equals one filter and leaves a clean event |
| `Updater.HexDecode64` | apps/desktop/src/updater.rs:367-390 | Returns the 64 bytes that print as the trimmed text in lower case; None iff there are none |
| `Updater.PrintHex` | apps/desktop/src/updater.rs:403-410 | Two lower-case digits for each byte |
| `Updater.SignThenDecode` | apps/desktop/src/updater.rs:367-410 | Decoding what was printed, with any blanks around it, returns the bytes |
| `Updater.TrimPadding` | apps/desktop/src/updater.rs:368-368 | Trimming takes off the blanks at both ends and nothing else |
| `Versions.ParseRecoversTriple` | apps/desktop/src/updater.rs:357-364 | Any printed a.b.c of 32-bit numbers is recovered, with any suffix |
| `Versions.OversizeCountsAsZero` | apps/desktop/src/updater.rs:357-364 | A component of 2^32 or more counts as 0 |
| `Versions.UpdatesClimb` | apps/desktop/src/updater.rs:237-256 | Along any chain of offers each installed version is a greater number than all earlier ones |
| `Versions.NothingNewerIsMissed` | apps/desktop/src/updater.rs:237-256 | What is in use after the offers is the start or one of them, and none of them is greater |
| `Versions.NewerIffGreater` | apps/desktop/src/updater.rs:350-352 | Newer iff greater as one number, most significant component first |
| `Versions.GarbageCountsAsZero` | apps/desktop/src/updater.rs:357-364 | Anything that is not a number counts as 0 |
| `Versions.UpdatesCannotCycle` | apps/desktop/src/updater.rs:350-352 | No chain of offers returns to a version that was left |
| `Versions.PreReleasesAreNotOrdered` | apps/desktop/src/updater.rs:350-364 | Newer iff the numbers are, whatever the suffixes (Semantic Versioning 2.0.0, item 11, is followed for the numbers alone) |

## Left out

- Worker scheduling and epoch checks (`worker.rs`, `epoch.rs`): a save or delete commits, changing its own item, or is rejected and changes nothing; that writes in flight are blocked during a rotation is not claimed, and read-only mode is not modelled.
- Local edits while a sync session or a rotation is running; edits between sessions are modelled.
- Retrying a failed rotation: a retry draws another key, so nothing is claimed beyond what `RotationMeaning.ReadableAfterReunlockIff` says of one attempt.
- Rotation assumes one outcome per pushed item, as the engine enforces for its own callers.
- Offline.OfflineClient.FlushOfflineQueue: does not include the push that follows a flush with commits, whose error replaces the count; that push is `PushClient.Client.PushLocalChanges`.
- Offline.RunLosesNothing: contents up to creation times, and without recorded tombstone targets, since neither is kept in general; `OfflineStore.KeepsStoreIffOrderly` says exactly when both are.
- FileTransferClient.UploadBytes: a chunk that was stored without an acknowledgement counts as not sent; reports are listed before throttling, which `Throttle` models.
- Keys.VaultSession.UnlockWithPassword: the account status request is an input, and the events it publishes are not modelled.
- SyncClient.Client.Sync: the account status read and the published events; the ignored set does not change during a session. The source's request for a repeated session is never raised, so there is one session to a call.
- Rows of a corrupt uuid, which the source skips with a warning, and rows without a payload.
- 64-bit casts of versions, generations and cursors; they are unbounded here. Handle ids and 32-bit chunk counts are modelled with their width.
- HTTP clients, authentication, quotas and the limits of blob sizes on the server.
- Real cryptography: Argon2id, XChaCha20-Poly1305, HKDF, X25519, Ed25519, OPAQUE and BIP-39.
- One-to-one shares, the inbox and `share_to_group`: single sealed messages without state of their own.
- `scrub_for_crash_report`, consent and memory locking in `hardening.rs`; nested values and key names are not looked at by the scrubber, and the model follows it.
- The reaper's timing, quarantine and the expiry of ignored items; reaping is an arbitrary event in `SecretStore`.
- Signature verification, staging and installing of updates; only the codecs and the version check are modelled.
- Import, export, search, projects, the desktop, web, mobile and extension interfaces.
