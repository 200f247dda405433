# Nimbus: a verified model of its storage core

Nimbus is a content-addressed, replicated file store: a browser client cuts files into hashed
chunks, a Go backend places them on storage nodes, deduplicates them, lists them in file versions
and collects the ones nobody needs any more. This project models the parts of it whose correctness
is hard to see by reading, and proves what they are for, in Dafny.

Two shapes recur. Tables, nodes and calls that several actors change are a *state machine*: a
datatype for the state, one function per SQL statement, transaction or remote call, and theorems over
all runs. An action the code rejects leaves the state alone, so a run is any sequence of actions.
Code that works step by step is a *class or method* with the source's own loops, proved against the
functions of the state machine or against an independent specification.

| module | what it is about |
|---|---|
| `Entities` | the identifiers the modules share |
| `ChunkState`, `ChunkSafety` | commit, dedup check, completion, purge, repair, mark and reap as one machine; what is never lost, and when |
| `ChunkRaces` | runs that lose a chunk, which show that the tests of `ChunkSafety` are exact |
| `ChunkLeases`, `ChunkGarbage` | the lease given by a dedup check; that garbage is collected |
| `ChunkEffects` | what each action of that machine does to which rows, in their columns alone |
| `ChunkServices` | the upload service and the sweeper as methods that take exactly those steps |
| `FolderForest`, `FolderMoves` | the folder tree, its two recursive queries, moves, the cascading delete; two moves at once |
| `Drive`, `DriveEffects`, `DriveLedger`, `DriveService` | trash, restore, purge and the byte counter of each organization |
| `HashRing`, `RingPlacement`, `Router`, `ReplicaOrder` | the consistent-hash ring, replica selection, failover, two-tier placement, the order of replicas in a download |
| `Sha256Spec`, `Sha256Constants`, `Sha256Bits` | FIPS 180-4 as a pure function; its tables from the roots of primes, its operations bit by bit and as plain sums |
| `Int32`, `Sha256Stream` | JavaScript's signed 32-bit arithmetic; the streaming class that computes the function in it |
| `Transfer`, `Download` | cutting a file up and uploading what is missing; reading it back through untrusted replicas |
| `CompleteRace`, `CompleteResults`, `CompleteTargets`, `CompleteOrphans`, `CompleteService` | concurrent, stale and retried completions of an upload; which file each ends up in |
| `NodeRepair`, `RepairRefines` | a repair pass in which any call may fail; that it is a run of the chunk machine |
| `RefreshFamilies`, `TotpReplay` | refresh-token rotation; burning one-time codes |
| `TokenBucket`, `DeadLetters`, `LiveStream` | rate limiting; retrying dead events; server-sent events from both ends |

The functions of a machine are not left to stand for themselves. For the chunk store, the drive, completions
and refresh tokens a lemma per action says in the columns of the tables alone exactly when the action is
accepted, which rows it changes and to what, without naming the function it is about.

## Modelling decisions

- Each SQL statement or transaction is atomic, and so is one reap attempt. A commit of a chunk is one
  step. A reap attempt that fails rolls the rows back, but the objects it removed stay gone.
- The upload row a request handler loaded is passed to the service and may be out of date by the
  time it is used; the actions carry that snapshot (`seen`).
- What a folder purge takes with it is a set of files to `Drive`, of versions and uploads to `ChunkState`
  (`Purge`) and of uploads to `CompleteRace` (`DeleteUploads`). The last two allow any set at any time, so
  every purge is among their steps.
- Clocks are integers. One database clock never runs backwards; there is one sweeper.
- Clients report only the acknowledgements they received, nodes keep what they acknowledged, and a
  storage or database call that succeeds told the truth. Any call may fail, and unless the model says otherwise a failed call has no effect.
- Vnode positions (SHA-1), code values (HMAC), ids and tokens are arbitrary or fresh values. Where
  different nodes must not share a vnode position, the lemma says so.
- Lists that a database or a Go map returns in no particular order are walked in an arbitrary order.

## Findings

Places where the code does less than its comments or its callers suggest. Each is a lemma with a
concrete run or input, next to the exact condition under which the code does what is promised.

- A completion that inserts its version later than two grace windows and one tick after its own check
  (backend/internal/upload/service.go:349-361), or after its upload has left in_progress, can list a
  chunk whose objects a reap has already removed: the foreign key still holds, because the reap rolled
  back after removing them. A commit with an out-of-date snapshot of a completed upload can bring a
  reaped chunk's row back with no object behind it. `ChunkRaces.TestsAreExact`: all runs are safe exactly
  when the service tests for all three.
- Sizes are never required to be non-negative, and the folder cascade debits only
  `freedBytes > 0` (backend/internal/folder/repository.go:360). The counters are right on a run exactly
  when no folder purge of it frees a negative amount (`DriveLedger.LedgerHoldsIffNoDrift`,
  `DriveLedger.NegativeSizeDrifts`).
- The comment on `Resolve` says a slow node is "never preferred over a faster node at the same ring
  distance" (backend/internal/storage/router.go:138-140). That says nothing about nodes at different
  distances, and there it does not hold: the second pass is plain ring order among all healthy
  nodes, so two slow nodes can leave a fast one out (`Router.FastNodeLeftOut`). A slow node is used
  exactly when fewer than n fast healthy nodes exist and one lies among the first n healthy
  (`Router.UsesSlowIff`).
- `orderHealthyFirst` is described as stable (backend/internal/file/service.go:147). It keeps the
  order of the healthy nodes; [d1, d2, h] with d1 and d2 down becomes [h, d2, d1]
  (`ReplicaOrder.TwoDownsAreSwapped`). The others keep theirs exactly when each longest stretch of
  healthy nodes has a length divisible by the number of down nodes before it
  (`ReplicaOrder.DownOrderKeptIff`).
- A missing chunk that occurs twice in a file makes the upload fail, because its second commit finds
  the attempt committed (frontend/lib/upload.ts:136-149): one full block twice is enough
  (`Transfer.RepeatedBlockFails`). `Transfer.Session.UploadMissing` says exactly when the loop gets through.
- An idempotency key shared by two uploads of a user makes the second call return the first one's file
  (`CompleteOrphans.SharedKeyMixesUploads`, `CompleteResults.ForeignAnswerIff`).
- Versions can be created that no upload records: by overlapping calls
  (`CompleteOrphans.OverlapOrphansAVersion`), and without any overlap by every retry under a key held
  by an upload whose file was purged (`CompleteOrphans.RetriesPileUp`). `CompleteResults.OrphanedIff` says
  exactly when, and `CompleteResults.SerialCallsOrphanNothing` what callers can do about it.
- The row of a completed upload goes when its folder is purged
  (backend/migrations/000002_uploads.up.sql:11), even if the file was moved and lives on; a retry under
  its key then finds nothing (`CompleteOrphans.DeletedRowIsForgotten`). It gets the recorded pair exactly
  as long as the row is there and the file is not purged (`CompleteResults.RetryReplays`).
- Two folder moves that each pass their checks before either writes can close a cycle: two folders moved
  into each other (`FolderMoves.EachIntoTheOther`). They do exactly when each target lies in the subtree
  of the other folder (`FolderMoves.TwoMovesKeepForestIff`).
- A revert that fails leaves a dead event marked retried with nothing published, for good
  (`DeadLetters.StrandingRun`). At rest the row is retried exactly when it was republished, if and only if
  no revert has failed (`DeadLetters.RepublishedAtMostOnce`).
- Go's truncating division makes time step 0 nearly twice as long, so around the beginning of 1970 a burn
  can expire while its step is still acceptable (`TotpReplay.ReplayTimesExact`).

## Model

| member | source | states |
|---|---|---|
| ChunkSafety.NoPromisedChunkIsLost | backend/internal/gc/sweeper.go:136-270 | in every state of every run whose accepted commits and inserts pass the three tests, every chunk listed by a version or committed by an upload in progress has its row and at least max(1, W) recorded replicas really there, aborted reaps included |
| ChunkSafety.StepKeepsSafe | backend/internal/gc/sweeper.go:33-41 | every single action that passes tests the service could make, rejected requests included, keeps the safety invariant |
| ChunkSafety.NothingReapedEarly | backend/internal/gc/sweeper.go:163-192 | on every run whatever, a reap that changes rows or objects comes more than two grace windows after the chunk's lease was last renewed |
| ChunkSafety.ExecKeepsClock | backend/internal/gc/sweeper.go:136-157 | on every run a doomed chunk was doomed more than one grace window after its last lease renewal, and a sweep candidate has been doomed for more than another |
| ChunkSafety.PromptCreateSucceeds | backend/internal/upload/service.go:349-361 | inside its window a completion's insert never fails on the foreign key: the version lists exactly the checked order |
| ChunkSafety.CommitDurable | backend/internal/upload/service.go:263-315 | an accepted commit of an upload in progress is backed by at least max(1, W) objects that are still there |
| ChunkSafety.CreateDurable | backend/internal/file/repository.go:248-296 | every hash a completion lists inside its window is durable when the version is inserted |
| ChunkSafety.ReapKeeps | backend/internal/gc/sweeper.go:201-270 | a reap attempt, successful or aborted after some removals, takes no replica from any promised chunk |
| ChunkSafety.MarkKeeps | backend/internal/gc/sweeper.go:136-157 | marking keeps the invariant, and with it every completion still in its window |
| ChunkEffects.MarkDoomsIff | backend/internal/gc/sweeper.go:136-157 | a mark dooms a chunk exactly when no sweep is on, it is live, its lease is older than the grace window, no version lists it, and every session in progress with an attempt for it is at least a day old; every other row and table stays as it was |
| ChunkEffects.ScanListsIff | backend/internal/gc/sweeper.go:163-170 | a scan lists exactly the chunks doomed for longer than the grace window |
| ChunkEffects.ReapDeletesIff | backend/internal/gc/sweeper.go:201-270 | a reap deletes the row exactly when the chunk is listed, still doomed, in no version and in no session in progress, the transaction commits and all its nodes answer; no other row is touched |
| ChunkEffects.ReapRemovesIff | backend/internal/gc/sweeper.go:253-257 | an object goes exactly when its hash is reaped, may be, and is recorded on that node, and the row goes too or the node was reached before the attempt failed |
| ChunkEffects.CheckRenewsIff | backend/internal/upload/repository.go:190-200 | a check renews the lease of exactly the listed live chunks the upload has not committed, and changes nothing else |
| ChunkEffects.BeginRecordsIff | backend/internal/upload/service.go:333-355 | a completion is checked, with its hashes in the order given, exactly when each is committed by its upload or live and proven by its organization |
| ChunkEffects.InitAddsIff | backend/internal/upload/repository.go:76-83 | presigning adds an attempt exactly for a hash that has none in a session seen in progress; a committed attempt is left alone |
| ChunkEffects.PutLands | backend/internal/upload/service.go:213-262 | a PUT to a node that is up leaves the object there and is known to the attempt it was made for |
| ChunkEffects.CommitAcceptsIff | backend/internal/upload/service.go:263-295 | a commit is accepted exactly for a presigned attempt of a session seen in progress, of a size up to the limit included, with at least one and at least the quorum of nodes that report one non-empty etag |
| ChunkEffects.CommitWrites | backend/internal/upload/repository.go:100-129 | an accepted commit makes the chunk live with a lease from now, new or not, keeps the size first recorded, commits the attempt and proves the hash for the organization |
| ChunkEffects.CommitLocates | backend/internal/upload/repository.go:131-137 | its locations are the earlier ones and the reporting nodes, these committed and the others as they were |
| ChunkEffects.CreateInsertsIff | backend/internal/file/repository.go:272-296 | a checked call inserts exactly its list, in its order, exactly when a row is there for each hash |
| ChunkEffects.FinishCompletes | backend/internal/upload/repository.go:233-249 | a call that has inserted completes its upload and touches nothing else |
| ChunkEffects.RepairTouches | backend/internal/storage/repair.go:79-126 | a repair touches one location, and recommits it, with the object back, exactly when another committed location has the object and the node is up |
| ChunkSafety.RepairKeeps | backend/internal/storage/repair.go:79-126 | a repair, whatever its outcome, keeps the safety invariant |
| ChunkSafety.CarryingKeeps | backend/internal/upload/repository.go:118-129 | any step that loses no row, location, lease or object and backs what it adds keeps the safety invariant |
| ChunkLeases.CheckIsALease | backend/internal/upload/repository.go:155-222 | a hash the dedup check reports present for an organization and upload is still present at every check or completion of that upload within one grace window, whatever runs in between |
| ChunkLeases.ExecKeepsHeld | backend/internal/upload/repository.go:190-200 | a live, proven and freshly leased chunk stays so over any run of at most one grace window |
| ChunkLeases.ExecKeepsCommitted | backend/internal/upload/repository.go:100-116 | a committed attempt stays committed for as long as its upload row exists |
| ChunkRaces.TestsAreExact | backend/internal/upload/service.go:263-361 | all runs from the empty store that pass a set of tests are safe exactly when commits and inserts are tested for an upload in progress and the window is at most two grace windows and one tick, for every configuration |
| ChunkRaces.LongWindowLosesBytes | backend/internal/upload/service.go:349-361 | with any longer window a run from the empty store, with its upload in progress throughout, ends with a version that lists a chunk nobody holds |
| ChunkRaces.OvertakenCreateLosesBytes | backend/internal/upload/service.go:349-361 | without the test at the insert, a run loses a chunk to an insert in the very instant of its check |
| ChunkRaces.StaleCommitRun | backend/internal/upload/service.go:263-315 | without the test at the commit, a run with a stale commit and then a completion that passes every test lists a chunk nobody holds |
| ChunkRaces.LateCreateLosesBytes | backend/internal/gc/sweeper.go:194-270 | from any state with a chunk due to be swept, an insert after an aborted reap satisfies the foreign key and breaks safety |
| ChunkRaces.StaleCommitLosesBytes | backend/internal/upload/repository.go:118-129 | from any such state, a commit after a reap makes the chunk claimable again without a single replica |
| ChunkGarbage.GarbageIsCollected | backend/internal/gc/sweeper.go:136-192 | a chunk without version, attempt, pending completion and recent lease is gone with all its recorded objects after a mark, then any run longer than a grace window that neither uploads nor completes with it, then a sweep with its nodes up |
| ChunkGarbage.StepKeepsCondemned | backend/internal/gc/sweeper.go:201-225 | no other action, dedup checks, aborted reaps and repairs included, saves a doomed chunk that nothing protects |
| ChunkServices.VerifyEtags | backend/internal/upload/service.go:283-295 | the loop that compares with the first etag accepts exactly when all etags are non-empty and equal, in whatever order they are visited |
| ChunkServices.Store.Admit | backend/internal/upload/service.go:263-295 | the checks pass exactly when the commit is acceptable, and every error means what it says |
| ChunkServices.Store.CommitChunk | backend/internal/upload/service.go:263-320 | its statements together are the machine's commit step: the attempt, the resurrected chunk row, its locations and the proof; a rejected commit changes nothing |
| ChunkServices.Store.UpsertLocations | backend/internal/upload/repository.go:131-137 | exactly the reported nodes become committed locations and no other row changes |
| ChunkServices.Store.FindMissing | backend/internal/upload/repository.go:155-222 | it answers with the hashes the organization and upload cannot claim, in order, and renews the lease of exactly the live uncommitted ones |
| ChunkServices.MissingMembers | backend/internal/upload/repository.go:139-149 | a hash is reported missing exactly when it is asked for and neither committed by this upload nor live and proven |
| ChunkServices.MissingInOrder | backend/internal/upload/repository.go:155-222 | the report keeps the order of the request, and names no hash more often than it |
| ChunkServices.Store.ReapChunk | backend/internal/gc/sweeper.go:201-270 | an attempt with any removal or database failure is the machine's reap step, and succeeds exactly when the chunk is reapable, all its nodes answer and the delete goes through |
| ChunkServices.Store.RemoveObjects | backend/internal/gc/sweeper.go:253-257 | only recorded replicas on nodes that answer are removed, and all of them exactly when every node answers |
| ChunkServices.Store.SweepPhase | backend/internal/gc/sweeper.go:163-192 | the whole sweep is a run of the machine: the scan, then exactly one reap attempt per candidate, in any order and each with faults of its own |
| ChunkServices.Store.CreateVersion | backend/internal/file/repository.go:272-279 | the row-by-row insert succeeds exactly when every hash has a chunk row, lists them all in order, and otherwise leaves nothing behind |
| FolderForest.QueriesAgree | backend/internal/folder/repository.go:172-210 | a folder is in another's subtree, searched downwards, exactly when that other is on its breadcrumb chain, searched upwards |
| FolderForest.SubtreeClosed | backend/internal/folder/repository.go:212-216 | the subtree query finds a set closed under children and, up to its root, under parents, within one organization |
| DriveEffects.AncestorsAreTheTrail | backend/internal/folder/repository.go:172-196 | breadcrumbs lead from a root folder down to the folder itself, each the parent of the next |
| DriveEffects.CreateFolderAddsIff | backend/internal/folder/service.go:19-30 | a folder is created, live and below the parent asked for, exactly when that is live and in the organization |
| DriveEffects.MoveFolderWritesIff | backend/internal/folder/repository.go:150-155 | a move writes the new parent, and nothing else, exactly when the folder is live and the target is live, in the same organization, and without the folder on its trail |
| DriveEffects.MovedTrail | backend/internal/folder/repository.go:150-196 | after a move the folder's breadcrumbs are those of its target and then itself |
| DriveEffects.TrashFolderStamps | backend/internal/folder/repository.go:220-238 | trashing stamps exactly the live folders and files whose trail passes through the folder, and keeps earlier stamps |
| DriveEffects.RestoreFolderClears | backend/internal/folder/repository.go:245-263 | restoring clears the stamp of every folder and file whose trail passes through the folder, and of no other |
| DriveEffects.PurgeFolderDeletesIff | backend/internal/folder/repository.go:316-369 | a folder purge goes through exactly when nothing below the folder is live and the counter covers what it frees, deletes exactly what is below, and debits only a positive sum |
| DriveEffects.CreateFileAddsIff | backend/internal/file/repository.go:248-296 | a new file is inserted and charged exactly when its folder is there and the counter stays at zero or above |
| DriveEffects.AddVersionAppendsIff | backend/internal/file/repository.go:313-350 | a version is appended and charged likewise |
| DriveEffects.MoveFileWritesIff | backend/internal/file/repository.go:101-130 | a file move writes the folder exactly for a live file and a live folder of its organization |
| DriveEffects.TrashAndRestoreFile | backend/internal/file/repository.go:134-144 | trashing twice keeps the first stamp, restoring clears it |
| DriveEffects.PurgeFileDeletesIff | backend/internal/file/repository.go:152-180 | a file is purged exactly when it is trashed and the counter covers its versions, which are credited |
| DriveEffects.PurgeExpiredDeletesIff | backend/internal/file/repository.go:190-240 | the retention purge goes through as a whole exactly when every counter covers its organization's share, and deletes exactly the files trashed before the cutoff |
| FolderForest.CreateKeepsForest | backend/internal/folder/service.go:19-30 | creating below an existing folder of the same organization keeps the forest |
| FolderForest.MoveKeepsForest | backend/internal/folder/service.go:54-76 | a move that passes the cycle and organization checks keeps the forest |
| FolderForest.MoveBelowItselfBreaksForest | backend/internal/folder/service.go:68-74 | the cycle check is exactly needed: any target inside the subtree would close a cycle |
| FolderForest.CascadeIsSubtree | backend/internal/folder/repository.go:265-273 | what the cascading foreign key deletes is exactly the subtree the guard looked at |
| FolderForest.PurgeKeepsForest | backend/internal/folder/repository.go:316-369 | deleting a whole subtree leaves a forest |
| FolderForest.SameShapeKeepsForest | backend/internal/folder/repository.go:220-263 | trashing and restoring keep the forest |
| FolderMoves.TwoMovesKeepForestIff | backend/internal/folder/service.go:54-76 | two moves that both pass their checks on the same table and then write leave a forest, in either order of writing, unless each target lies in the subtree of the other folder |
| FolderMoves.EachIntoTheOther | backend/internal/folder/service.go:68-76 | two folders each moved into the other pass all checks and close a cycle |
| DriveLedger.ForestOnEveryRun | backend/internal/folder/repository.go:172-216 | on every run of creates, moves, trashings, restores and purges the folders are a forest, so both recursive queries end, and they agree |
| DriveLedger.StepKeepsPlaced | backend/internal/folder/repository.go:138-165 | every step keeps the forest, and files and folders in their own organization |
| DriveLedger.LedgerHoldsIffNoDrift | backend/internal/folder/repository.go:331-368 | for any sizes, the counters of all organizations are right in all states of a run exactly when no folder purge of it frees a negative amount |
| DriveLedger.StepLedgerIff | backend/internal/file/repository.go:152-352 | for any sizes, a step keeps all counters right exactly when it is no folder purge that frees a negative amount |
| DriveLedger.CounterIsTheSum | backend/internal/file/repository.go:430-438 | on every run without such a purge each organization's counter is not negative and equals the sum of all versions of all its files, trash included |
| DriveLedger.NonNegativeRunsNeverDrift | backend/internal/folder/repository.go:360-364 | runs that only add versions of non-negative size have no such purge |
| DriveLedger.PurgeFolderLedgerIff | backend/internal/folder/repository.go:331-368 | the cascade leaves the counters right exactly when the bytes it frees are not negative |
| DriveLedger.PurgeFolderKeepsLedger | backend/internal/folder/repository.go:316-369 | with non-negative sizes the guarded purge always goes through, removes the subtree and keeps the books |
| DriveLedger.CreateFileKeepsLedger | backend/internal/file/repository.go:248-296 | a new file charges its organization what it stores |
| DriveLedger.AddVersionKeepsLedger | backend/internal/file/repository.go:313-354 | a re-upload charges the new version and keeps the old ones charged |
| DriveLedger.PurgeFileKeepsLedger | backend/internal/file/repository.go:152-182 | purging a trashed file credits all its versions, to its own organization only |
| DriveLedger.PurgeExpiredKeepsLedger | backend/internal/file/repository.go:190-240 | the retention purge credits every organization exactly what it lost, in one transaction |
| DriveLedger.StepKeepsBooks | backend/internal/file/repository.go:152-352 | every step with non-negative sizes keeps forest, placement, counters and sizes together |
| DriveLedger.NegativeSizeDrifts | backend/internal/folder/repository.go:360-364 | a run reaches a drive with its books right on which a folder purge leaves the counter at 5 with 10 bytes stored |
| DriveLedger.NothingLiveIsDeleted | backend/internal/folder/repository.go:274-369 | no step of any run hard-deletes a live file or a live folder |
| DriveLedger.QuotaHolds | backend/internal/upload/service.go:187-209 | on every run without such a purge, for any sizes, a completion that goes through leaves what the organization stores within a positive limit in force |
| DriveLedger.QuotaRefusesIff | backend/internal/upload/service.go:187-209 | on the same runs, of the completions the tables would take exactly those are refused that would bring what is really stored above a positive limit |
| DriveService.Repository.MoveFolder | backend/internal/folder/service.go:54-76 | each outcome exactly characterized: moved, cyclic (the folder is on the target's breadcrumb chain), invalid parent; a folder that moved has the parent asked for, every other row and every refused move is as before, and the forest is kept |
| DriveService.Repository.PurgeOneFolder | backend/internal/folder/repository.go:316-369 | guard, sum, cascade and debit are the machine's purge step; it counts one exactly when the guard holds and the debit does not violate the CHECK, and then exactly the subtree is gone |
| DriveService.Repository.PurgeExpiredFolders | backend/internal/folder/repository.go:274-305 | every folder trashed before the cutoff, and no other, is tried, nested ones included and in any order, until one overdraws; the count is the number of purges that went through, with the books right none overdraws and they stay right, and every live file stays live |
| DriveService.Repository.GroupByOrg | backend/internal/file/repository.go:197-221 | the totals are, for every organization, the bytes of its expired files |
| DriveService.Repository.PurgeExpiredFiles | backend/internal/file/repository.go:190-240 | totals, delete and debits together are the machine's atomic step; it fails exactly when some organization is overdrawn and then deletes nothing; otherwise exactly the files trashed before the cutoff go, and are counted, and every other row is as before |
| DriveService.Repository.Debit | backend/internal/file/repository.go:230-234 | the debits go through exactly when none would drive a counter below zero |
| HashRing.BuildRing | backend/internal/storage/ring.go:28-37 | a sorted permutation of every node's 128 vnodes, whatever an unstable sort does with ties |
| HashRing.Search | backend/internal/storage/ring.go:73-79 | the first index at or after the key, or 0 if there is none: from there the table, wrapped around, is the clockwise order from the key |
| RingPlacement.SelectReplicas | backend/internal/storage/ring.go:87-109 | the walk with its seen-set returns the first n healthy entries of the clockwise first-occurrence order, and errs when they are fewer |
| RingPlacement.PreferenceIsEveryNodeOnce | backend/internal/storage/ring.go:81-86 | the preference list of any key holds every configured node exactly once |
| RingPlacement.ErrsIffTooFew | backend/internal/storage/ring.go:105-108 | selection errs exactly when fewer than n nodes are healthy, and then still returns all of those |
| RingPlacement.FailoverIsRebuild | backend/internal/storage/ring.go:20-23 | skipping an unhealthy node gives the list and error of the ring rebuilt without it |
| RingPlacement.RebuiltRing | backend/internal/storage/ring.go:28-37 | the ring built without a node is the full ring with its vnodes left out |
| RingPlacement.PlacementIgnoresOrder | backend/internal/storage/ring.go:28-37 | listing the nodes in another order builds the same ring |
| RingPlacement.SortedOrderIsUnique | backend/internal/storage/ring.go:35 | with no shared position there is one sorted table, so the unstable sort is harmless |
| RingPlacement.OneNodeDown | backend/internal/storage/ring.go:87-109 | when a node goes down every placement keeps the others in order and gains at most one node, at the end |
| RingPlacement.NearestFirst | backend/internal/storage/ring.go:81-110 | of two nodes on the preference list the earlier has a vnode that comes, clockwise from the key, no later than any of the other's |
| Router.Resolve | backend/internal/storage/router.go:144-164 | errs exactly when fewer than n of the nodes are not down, returns no node that is, and none slower than the threshold while n faster ones that are up exist; otherwise it is the plain health-filtered selection |
| Router.UsesSlowIff | backend/internal/storage/router.go:135-164 | a slow node is used exactly when fewer than n fast healthy nodes exist and one lies among the first n healthy ones in ring order |
| Router.ShortageUsesSlow | backend/internal/storage/router.go:157-163 | and when n healthy nodes exist but fewer than n fast ones, one always is |
| Router.FastNodeLeftOut | backend/internal/storage/router.go:138-140 | on a ring with two slow nodes before a fast one, all healthy, two replicas go to the slow nodes |
| Router.Candidates | backend/internal/storage/router.go:171-175 | every configured node once, in preference order and without error |
| Router.ResolvedAreCandidates | backend/internal/storage/router.go:166-170 | a reader that walks the candidates meets every node a writer was ever given for the key |
| ReplicaOrder.OrderHealthyFirst | backend/internal/file/service.go:150-158 | the in-place swaps put the healthy nodes first in their order, the others after them each rotated once per healthy node that passes them, and lose none |
| ReplicaOrder.DownOrderKeptIff | backend/internal/file/service.go:147-158 | for distinct nodes, those that are down keep their order exactly when every longest stretch of healthy nodes has a length divisible by the number of down nodes before it |
| ReplicaOrder.TwoDownsAreSwapped | backend/internal/file/service.go:147-158 | two down nodes before a healthy one end up swapped |
| Sha256Stream.HashParts | frontend/lib/sha256-stream.ts:32-75 | for every byte string and every way of splitting it into updates the digest is the FIPS 180-4 SHA-256 of the whole, in hexadecimal |
| Sha256Stream.Sha256Stream.Update | frontend/lib/sha256-stream.ts:32-56 | compressed blocks and pending prefix together are always the input so far |
| Sha256Stream.Sha256Stream.DigestHex | frontend/lib/sha256-stream.ts:58-75 | padding ends on a block boundary and the printed words are the digest of what was fed |
| Sha256Stream.Sha256Stream.FillPending | frontend/lib/sha256-stream.ts:36-45 | topping up keeps the input accounted for, and leaves either an empty buffer or no data |
| Sha256Stream.Sha256Stream.AbsorbBlocks | frontend/lib/sha256-stream.ts:47-50 | all whole blocks are compressed and fewer than 64 bytes are left |
| Sha256Stream.Sha256Stream.ProcessBlock | frontend/lib/sha256-stream.ts:77-109 | the in-place schedule, rounds and additions compute section 6.2.2's next hash value |
| Sha256Stream.Sha256Stream.Schedule | frontend/lib/sha256-stream.ts:80-85 | the array holds the message schedule of the block |
| Sha256Stream.Sha256Stream.RunRounds | frontend/lib/sha256-stream.ts:87-99 | the 64 rounds on eight rotating signed variables have the bits of the standard's |
| Sha256Stream.Sha256Stream.OneRound | frontend/lib/sha256-stream.ts:91-98 | one round in signed arithmetic, each sum wrapped once by | 0, has the bits of the round of section 6.2.2 |
| Sha256Stream.Sha256Stream.NextWord | frontend/lib/sha256-stream.ts:82-84 | the next schedule word, summed in signed arithmetic and wrapped once, has the bits of the standard's |
| Sha256Constants.RoundConstants | frontend/lib/sha256-stream.ts:8-17 | each round constant is the first 32 bits of the fraction of the cube root of its prime, as section 4.2.2 of FIPS 180-4 defines it |
| Sha256Constants.InitialHash | frontend/lib/sha256-stream.ts:23-27 | each word of the initial hash value is the same of the square root, as section 5.3.3 defines it |
| Sha256Bits.RotrBit | frontend/lib/sha256-stream.ts:19-21 | a rotation by n brings bit i + n to place i, around the end |
| Sha256Bits.SigmaBits | frontend/lib/sha256-stream.ts:82-94 | each bit of the four sigma functions is the exclusive or of three bits of the word, at the distances of equations 4.4 to 4.7 |
| Sha256Bits.ChBit | frontend/lib/sha256-stream.ts:92 | Ch takes each bit from its second word where the first has a one and from its third elsewhere |
| Sha256Bits.MajBit | frontend/lib/sha256-stream.ts:95 | Maj takes each bit as at least two of its words have it |
| Sha256Bits.RoundSums | frontend/lib/sha256-stream.ts:91-99 | a round's two new words are plain sums reduced once modulo 2^32, and the other six move on by one place |
| Sha256Bits.ScheduleSums | frontend/lib/sha256-stream.ts:79-85 | a schedule word is four bytes of the block in order, or the sum of four terms reduced once |
| Int32.RotateOfBits | frontend/lib/sha256-stream.ts:19-21 | >>>, << and | of JavaScript rotate the 32 bits of a number whatever its sign |
| Sha256Stream.Sha256Stream.PrintHash | frontend/lib/sha256-stream.ts:72-74 | word-wise toString and padStart print the bytes of the digest |
| Sha256Stream.PadLength | frontend/lib/sha256-stream.ts:64 | the padding length computed from the pending bytes is the one of section 5.1.1 |
| Sha256Stream.BitLength | frontend/lib/sha256-stream.ts:62-63 | hi times 2^32 plus lo is eight times the length, and lo fits a word |
| Sha256Stream.PadBytes | frontend/lib/sha256-stream.ts:62-70 | the bytes fed as padding are those of section 5.1.1 |
| Sha256Stream.BigEndianSplit | frontend/lib/sha256-stream.ts:68-69 | a number written as its high and low digits separately is written as a whole |
| Sha256Stream.WordHex | frontend/lib/sha256-stream.ts:73 | eight padded hex digits per word are two per byte of the digest |
| Transfer.HashFile | frontend/lib/upload.ts:96-108 | the chunks are consecutive non-empty slices under their SHA-256 and cover the file, the streamed checksum is that of the whole, and an empty file has one empty chunk |
| Transfer.Session.UploadMissing | frontend/lib/upload.ts:133-151 | the loop gets through exactly when no missing hash was committed before or repeats, every PUT for one succeeds and its etags are accepted; then all bytes are accounted for and exactly the missing hashes are newly committed |
| Transfer.RepeatedBlockFails | frontend/lib/upload.ts:136-149 | a file of one full block twice, with the block missing on the server, is cut into two chunks of one hash, and its upload cannot get through |
| Transfer.PutAll | frontend/lib/upload.ts:140-145 | the PUT loop succeeds exactly when every target does, with the etag of each, and fails as a whole otherwise |
| Download.SortRestoresOrder | frontend/lib/download.ts:21 | sorting a plan that arrived in any order puts the version's i-th hash at place i |
| Download.DownloadIsTheFile | frontend/lib/download.ts:19-38 | whatever each fetch returns, different answers for a repeated chunk included, and however the plan is ordered, a successful assembly is the file that was cut, unless a fetch exhibits a hash collision |
| Download.ReassembledIsTheFile | backend/internal/processing/processor.go:148-173 | the worker's reassembly of the version's rows is the file, under the same condition |
| Download.OneHonestReplicaSuffices | frontend/lib/download.ts:23-33 | an assembly succeeds as soon as each chunk has one replica that returns its slice |
| Download.AssembledIff | frontend/lib/download.ts:22-36 | an assembly succeeds exactly when every chunk has a replica that passes the check |
| Download.AssembleFromPlan | frontend/lib/download.ts:19-38 | the nested loops return the verified parts in file order, or nothing if one chunk has none |
| Download.Reassemble | backend/internal/processing/processor.go:148-173 | the same for the worker, over recorded locations, failing on a chunk without any |
| Download.FetchVerified | backend/internal/processing/processor.go:184-208 | the replica loop returns the first reply that passes the hash check, and nothing exactly when none does |
| Download.Located | backend/internal/file/repository.go:272-279 | the rows a version was given, in sequence order, are a plan for its hashes |
| CompleteResults.OneResultForAll | backend/internal/upload/service.go:325-398 | over any interleaving with unshared keys, purges and deleted rows, at most one pair is recorded for an upload, and every call for it that ever succeeded returned that pair |
| CompleteResults.RecordedForGood | backend/internal/upload/repository.go:233-249 | shared keys or not, what was recorded for an upload never changes, and its row shows it until the file is purged or the row is deleted |
| CompleteRace.StepKeepsInv | backend/internal/upload/repository.go:224-249 | every step of any call, and every purge and row deletion, keeps rows, key index, calls and versions consistent, and what calls made, returned and recorded stays |
| CompleteResults.ForeignAnswerIff | backend/internal/upload/service.go:326-332 | the key lookup answers with another upload's pair exactly when the key is held by another upload |
| CompleteResults.RetryReplays | backend/internal/upload/service.go:326-332 | at any later time a call under the key of the call that won gets the recorded pair exactly as long as the row is there and the file is not purged |
| CompleteResults.RecordedIffWon | backend/internal/upload/service.go:357-390 | on every run, a version is the recorded one of its upload exactly when the swap of the call that made it won |
| CompleteResults.OrphanedIff | backend/internal/upload/service.go:367-390 | a created version stays unrecorded for good exactly when its swap finds the row gone, the upload done, the key with another upload or the file purged, or fails |
| CompleteResults.SerialCallsOrphanNothing | backend/internal/upload/repository.go:226-232 | with unshared keys and calls for an upload that do not overlap, every version made for it is the recorded one, unless its file is purged, its row deleted or its swap failed outright |
| CompleteResults.LateCallCreatesNothing | backend/internal/upload/service.go:333-335 | a call that saw the upload completed never creates a version |
| CompleteTargets.AnswersHitTheTarget | backend/internal/upload/service.go:357-362 | over any interleaving with unshared keys, every call for an upload opened for a target file that ever succeeded returned a version of that file, unless it is purged; and for an upload without a target, a version of a file that has no other but by uploads opened for it |
| CompleteTargets.MadeWhereAimed | backend/internal/upload/service.go:357-362 | on every run, recorded or not, a version made by a call that saw a target is a version of it, and one made without a target is of a file of its own |
| CompleteTargets.RecordedWhereAimed | backend/internal/upload/repository.go:233-249 | the pair recorded for an upload is a version of the file it was opened for |
| CompleteTargets.CreateMakesIff | backend/internal/upload/service.go:357-366 | a call makes a version exactly when it has passed its checks and its target is not purged, and which |
| CompleteTargets.SwapSettles | backend/internal/upload/service.go:372-390 | how a call ends: with its pair exactly when the swap reaches its row in progress with key and file free, told apart as lost exactly when the row or the key is in the way, else with an error |
| CompleteTargets.SwapWrites | backend/internal/upload/repository.go:233-249 | a swap that wins completes the row and takes the key; any other writes nothing |
| CompleteTargets.LoserAnswersWithWinner | backend/internal/upload/service.go:373-382 | over every run a call that lost returns the pair recorded for its upload as long as the row is there and the file is not purged, and an error otherwise |
| CompleteTargets.AloneAnswers | backend/internal/upload/service.go:325-390 | what an uninterrupted call answers in any consistent state |
| CompleteTargets.RowsTouched | backend/migrations/000008_uploads_purge_fk.up.sql:9-14 | opening and loading an upload, purging a file and deleting rows, column by column: a purge nulls exactly the targets and recorded pairs of its file |
| CompleteOrphans.SharedKeyMixesUploads | backend/internal/upload/repository.go:54-58 | a run in which a shared key makes a call return the wrong upload's file |
| CompleteOrphans.OverlapOrphansAVersion | backend/internal/upload/repository.go:226-232 | a run in which two overlapping calls create two versions and record one |
| CompleteOrphans.RetriesPileUp | backend/internal/upload/service.go:326-390 | under a key held by an upload whose file is purged, any number of retries, one after the other, leave one unrecorded version each and change nothing else |
| CompleteOrphans.StuckHappens | backend/internal/upload/repository.go:240-245 | a run leads to such a key |
| CompleteOrphans.DeletedRowIsForgotten | backend/migrations/000002_uploads.up.sql:11 | a run in which the row of a completed upload is deleted, its file lives on, and a retry under its key finds nothing |
| CompleteService.Service.CompareAndSwap | backend/internal/upload/repository.go:233-249 | the update is the machine's swap, and wins exactly when it answers, the upload is there and in progress, the key is free and the file is there |
| CompleteService.Service.CompleteUpload | backend/internal/upload/service.go:325-398 | an uninterrupted call is the sequence of the machine's steps; in every consistent state it returns the earlier result under its key if there is one, else its own version, of the upload's target or of a new file, unless the upload is done, the request unacceptable, the target purged, the swap fails or the key is with another upload |
| NodeRepair.Router.RepairNode | backend/internal/storage/repair.go:43-73 | a pass with any faults gives each listed chunk one verdict with the stated outcome, touches nothing else, and its counters are the verdict counts with checked = present + restored + unrepairable |
| NodeRepair.Router.RestoreChunk | backend/internal/storage/repair.go:79-126 | a restored object is the bytes of another committed replica; a failed restore leaves the row degraded unless that write failed |
| NodeRepair.CommittedRowsAreTrue | backend/internal/storage/repair.go:36-42 | a row that started and ends committed lacks its object exactly when the object was gone and the degrading write failed |
| NodeRepair.PassKeepsContent | backend/internal/storage/repository.go:101-138 | content addressing is kept, no replica disappears, and other nodes' and degraded rows are untouched |
| NodeRepair.CalmPassRestoresEverything | backend/internal/storage/repair.go:43-73 | when no call fails, every chunk that is present or whose other replicas are all there ends committed and present |
| RepairRefines.PassIsARun | backend/internal/storage/repair.go:43-126 | a whole pass, with any faults, is a run of the chunk machine's repair steps, with a stray PUT for each failed write that landed |
| RepairRefines.PassKeepsSafe | backend/internal/storage/repair.go:43-126 | so after any pass on a state that keeps the safety invariant no promised chunk has lost a replica it needs |
| NodeRepair.Router.LocationsForChunk | backend/internal/storage/repository.go:73-90 | lists exactly the nodes with a committed row, in any order |
| NodeRepair.Router.CommittedChunksForNode | backend/internal/storage/repository.go:101-118 | lists exactly the committed chunks of the node, each once |
| RefreshFamilies.ExactlyOneUnused | backend/internal/auth/repository.go:86-151 | in every state of every run an open family has exactly one unused token and a revoked one has none at all |
| RefreshFamilies.ReuseEndsFamily | backend/internal/auth/repository.go:122-131 | once a spent token is presented no token ever issued in its family can rotate, in any continuation and at any time |
| RefreshFamilies.LogoutEndsFamily | backend/internal/auth/repository.go:156-168 | the same after a logout with any token of the family, current or spent |
| RefreshFamilies.ResetEndsEveryFamily | backend/internal/auth/repository.go:185-222 | the same for every family of the user after a password reset, whose token works once |
| RefreshFamilies.RotationHandsOn | backend/internal/auth/repository.go:136-151 | a rotation leaves the new token as its family's only unused one, for the same user |
| RefreshFamilies.RowsTouched | backend/internal/auth/repository.go:86-222 | row by row: a rotation spends one token and adds one, reuse and logout delete exactly one family, a reset exactly one user's tokens, an expired token changes nothing |
| RefreshFamilies.StepKeepsInv | backend/internal/auth/repository.go:86-168 | every transaction keeps the token table consistent with what was issued and revoked |
| RefreshFamilies.Repository.RotateRefreshToken | backend/internal/auth/repository.go:99-151 | the transaction is the machine's step and succeeds exactly for an unused, unexpired token, for its owner |
| RefreshFamilies.Repository.RevokeFamilyByTokenHash | backend/internal/auth/repository.go:156-168 | deletes the family of a known token and reports its user; an unknown one changes nothing |
| RefreshFamilies.Repository.ResetUserPassword | backend/internal/auth/repository.go:185-222 | succeeds exactly for an unused, unexpired reset token and leaves the user no refresh token |
| TotpReplay.NoReplay | backend/internal/auth/service.go:267-284 | over every run after 1970 no (user, time step) pair is accepted twice |
| TotpReplay.NoReplayOutsideStretch | backend/internal/auth/service.go:267-284 | the same over every run with any clock, unless two attempts are at least 90 seconds apart inside the 119 seconds of a step next to step 0 |
| TotpReplay.LifetimeIsExact | backend/internal/auth/service.go:275-276 | a burn lifetime rules out replays on all runs exactly when it is at least 90 seconds |
| TotpReplay.SameCodeTwice | backend/internal/auth/service.go:267-284 | a code accepted twice is the code of two different steps |
| TotpReplay.StepWindow | backend/internal/auth/totp.go:49-62 | a step can be accepted only in its window: 90 seconds from one period before it to one after, 119 seconds for the three steps around 1970 |
| TotpReplay.StepMatches | backend/internal/auth/totp.go:49-62 | at every time in that window a code of that step alone is matched with it |
| TotpReplay.ReplayTimesExact | backend/internal/auth/totp.go:54 | attempts at two times can replay a step exactly when they are so placed, and then the earlier is in the 89 seconds before 1970 |
| TotpReplay.VerifyTotp | backend/internal/auth/totp.go:49-62 | the loop finds the first matching step of the window and fails only if none matches |
| TotpReplay.Service.VerifyOnce | backend/internal/auth/service.go:270-284 | accepts exactly a matching step whose burn is absent or over, when Redis answers; burns it, for 90 seconds and for this user only, unless the write failed without landing |
| TokenBucket.WindowBound | backend/internal/platform/ratelimit/ratelimit.go:21-24 | any calls within T milliseconds on a non-decreasing clock include at most burst + rate * T / 1000 admitted ones, in whole numbers |
| TokenBucket.Conservation | backend/internal/platform/ratelimit/ratelimit.go:39-46 | admitted requests plus tokens left never exceed a full bucket plus rate / 1000 for every millisecond since |
| TokenBucket.EmptiedAdmitsIff | backend/internal/platform/ratelimit/ratelimit.go:39-44 | once emptied, a bucket admits the next call exactly when it comes at least 1000 / rate milliseconds later |
| TokenBucket.ExpiresIff | backend/internal/platform/ratelimit/ratelimit.go:47 | a bucket is dropped exactly from two full refills after its last call on, although the lifetime is rounded up |
| TokenBucket.SpacedNeverRefused | backend/internal/platform/ratelimit/ratelimit.go:39-44 | calls at least 1000 / rate milliseconds apart are never refused |
| TokenBucket.ExpiryIsInvisible | backend/internal/platform/ratelimit/ratelimit.go:47 | key expiry changes no answer and no bucket compared with a key kept forever |
| TokenBucket.BurstIsAdmitted | backend/internal/platform/ratelimit/ratelimit.go:31-44 | at one instant exactly burst calls are admitted, so the bound is attained |
| TokenBucket.Limiter.Allow | backend/internal/platform/ratelimit/ratelimit.go:25-71 | the decision and the stored tokens, in thousandths: what was there and rate for every millisecond since, capped at the burst, less a thousand exactly when that was there; a full bucket once the key is gone |
| DeadLetters.RepublishedAtMostOnce | backend/internal/events/dlq_handler.go:50-83 | over any interleaving of retries at most one republish succeeds, and at rest the row is retried exactly when it was republished if and only if no revert has failed |
| DeadLetters.RepublishIsFinal | backend/internal/events/dlq_handler.go:63-82 | after a republish the row is retried for good and nothing is republished again |
| DeadLetters.FailedRevertStrands | backend/internal/events/dlq.go:91-100 | after a failed revert the row is retried for good with nothing republished |
| DeadLetters.StrandingRun | backend/internal/events/dlq_handler.go:73-81 | one call whose republish and revert both fail leaves the row retried with nothing published |
| DeadLetters.StepKeepsInv | backend/internal/events/dlq.go:80-100 | at most one call is between its flip and its end, and while one is nothing has been republished |
| DeadLetters.Handler.Retry | backend/internal/events/dlq_handler.go:50-83 | an uninterrupted call is the machine's steps, with each response tied to the row and the republish |
| DeadLetters.Handler.MarkRetried | backend/internal/events/dlq.go:85-91 | the conditional update flips exactly a dead row and says so |
| LiveStream.ReceiveAll | frontend/lib/live.ts:46-71 | the events depend on the bytes received and not on how they were split into reads |
| LiveStream.StreamRoundTrip | backend/internal/live/live.go:97-130 | for every sequence of messages with plain payloads, hello and keepalives included, the client emits exactly the sent activities and health changes in order |
| LiveStream.ActivitySurvivesIffPlain | frontend/lib/live.ts:59-66 | an activity comes out of its frame unchanged exactly when its payload is one trimmed, non-empty line other than the empty object |
| LiveStream.FramesAppend | frontend/lib/live.ts:52-56 | the frames of text in two pieces are those of the first and those of its rest with the second |
| LiveStream.Client.Receive | frontend/lib/live.ts:50-71 | after every read the buffer is the unfinished rest and the events are those of all complete frames |
| LiveStream.Client.HandleFrames | frontend/lib/live.ts:53-70 | the separator loop dispatches every complete frame once and leaves the rest |
| LiveStream.ReadInParts | frontend/lib/live.ts:57-62 | of a frame in two parts the data is joined and the last event line names it |
| LiveStream.DispatchOne | frontend/lib/live.ts:63-66 | the page is handed a frame exactly when it is an activity or node_health event with data other than the empty object |
| LiveStream.TrimCuts | frontend/lib/live.ts:60-61 | trimming takes away nothing but white space at the two ends |
| LiveStream.Client.ReadFrame | frontend/lib/live.ts:57-62 | the line loop computes the last event name and the joined data of the frame |

## Left out

- HTTP handlers, authentication middleware, role checks, configuration, logging, metrics, mail and the
  React pages: no state of their own that these properties depend on.
- PostgreSQL isolation below a statement or transaction, and a failure between the statements of one
  chunk commit: the model takes a commit as one step.
- A client PUT that lands inside a reap attempt: the race documented at
  backend/internal/gc/sweeper.go:33-41; a reap attempt is one step.
- DriveLedger.QuotaHolds: completions that overlap between quota check and insert can exceed the limit
  together, as backend/internal/upload/service.go:339-342 accepts.
- DriveLedger.ForestOnEveryRun: in its runs a move's checks and its update are one step; checks that go
  stale before the update are the subject of FolderMoves, for two moves at a time.
- NodeRepair.Router.RepairNode: nothing is claimed about repeated passes, since a row left degraded is
  never listed again; other writers during a pass are not modelled.
- TokenBucket.Limiter.Allow: tokens are real numbers, so floating-point rounding is not modelled.
- Sha256Stream.Sha256Stream.Update: lengths are unbounded, where the source is limited by JavaScript's
  exact integers (2^53) and one 64-bit length field.
- LiveStream.StreamRoundTrip: text arrives already decoded, and the JSON of an event is an opaque payload; UTF-8
  decoding, JSON parsing, reconnecting and the write deadline are left out.
- Folder and file names with their uniqueness conflicts, and which version of a file is the latest.
- Presigned URLs, progress reports and the resume record of the upload client.
- The latency average, health probing, the circuit breaker and the thumbnail pipeline around
  `reassemble`: health and speed are arbitrary per-node facts.
- Password and token hashing, JWTs, the TOTP enrolment tables and the login challenge around the code check.
