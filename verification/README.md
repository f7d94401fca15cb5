# A verified model of the relay

The relay stores encrypted data for the devices of an account: manifests, session snapshots and content-addressed blocks,
under one byte quota. Devices are partitioned into sync groups that merge when a sync code is redeemed. Blocks are uploaded
under reservations and removed by a garbage collector that shares no lock with the uploads.

This project models that store as a state machine and proves what holds after every run. `dafny verify dfyconfig.toml`
checks everything.

## How the model is laid out

- **The store.** `Tables` holds the tables as one value, with the foreign keys and unique indexes of the schema; `Integrity`
  is the invariant. Each transaction is a function from database to database and outcome: `Uploads`, `SyncGroups`,
  `Release`, `Discarding`, `Collection`, `Documents`. `Store.Queries` is the code: a class whose methods run the same
  statements, branch for branch, on a transaction's view and are proved against those functions. Assigning `db` is the
  commit; returning before it is the rollback. What is proved about the functions is thereby proved about the methods.
- **Runs.** `Machine` strings transactions together in any order with any arguments, so calls that span several
  transactions interleave and may stop anywhere. `Guarantees`, `Answers`, `Partition`, `Revisions`, `Invitations`,
  `Revocation`, `ManifestLog`, `SessionLog`, `Pruning`, `Holdings`, `Batches`, `Merging` and `Grace` hold the results about
  all runs. `Answers` and `Guarantees` say in the rows of the tables what each transaction answers and does.
- **Files.** `BlockFiles` adds the block directory with its modification times, any number of uploads cut into reserve,
  install, commit and cancel, and the one collector cut into claim, unlink and finalise, and its sweep of stray files cut
  into file listing, row listing and single deletions. `Sweeping` has the results about the sweep. `Blocks` has the service
  methods, run without interference over a file system that may fail; by `Calls` each is then a sequence of those steps.
- **Other parts.** `Limiter` and `RateLimits` (the sliding-window limiter, filtering its slices in place), `Events` and
  `Streams` (the event hub), `Replay` (the nonce window), `Transcript` (what gets signed), `Challenges` (login attempts).

Assumptions: SHA-256 is injective, so a digest is modelled as a wrapper around its data; UUIDs and subscriber references are
fresh; the clocks of the limiter and of the nonce table do not go back; one collector runs at a time, as `main.go` arranges.

## What the code does where one might expect otherwise

- The orphan-file sweep is not safe under interleaving. `Sweeping.SweepRace` is a run from the empty store in which the
  sweep passes both of its guards and an account ends up referencing a block that is not on disk.
  `Sweeping.SweepIsSafeIff` says exactly which deletions do harm, now or later, and `Sweeping.UndisturbedSweepsAreSafe` what
  keeps every pass of a run harmless. The comment in the source relies on uploads being short and on the grace period, but
  installing over an old file does not renew its modification time.
- A request proof can be accepted twice when 60 seconds or more pass between reading the clock and inserting the nonce:
  `Replay.AtMostOnceIff`.
- `Put` passes the clock reading of its reservation to the commit, so a commit never finds its own reservation expired; a
  late one finds it purged or succeeds.
- A discard that stops between its first transaction and its release batches leaks quota: `Holdings.StoppedDiscardLeaks`.
  The blocks that only the discarded groups held stay charged and held by nobody until the account happens to upload them
  again. Repeating the discard returns early, and a prune looks at visible blocks only (`Holdings.LooseIsNoCandidate`).
- A key that waits out the delay the limiter gave it can be refused all the same, when other keys have taken the room in a
  full table meanwhile: `RateLimits.RetryCanFindNoRoom`. `RateLimits.RetryIsExact` says when.
- `PruneGroupBlocks` with nothing to prune succeeds without checking the caller or the revision.
- A session write that meets a version conflict still commits its purge of expired reservations. Versions start at 1 again
  after a delete.
- A group's revision depends on the order of the merges. Its members and its id do not.

## Model

| member | source | states |
|---|---|---|
| Machine.ApplyKeepsInv | internal/db/queries.go:35-62 | every transaction, with any arguments, keeps the whole invariant, whether it commits or rolls back |
| Machine.RunInv | internal/db/migrations/000001_init.up.sql:23-136 | every state of every run satisfies the invariant: foreign keys, unique indexes, exact counters, block lifecycle, code ownership, revision bounds |
| Guarantees.UsedBytesAreExact | internal/db/queries.go:763-783 | after any run `used_bytes` is the sum of the account's block and session bytes, never negative, and with its reservations for blocks it does not hold never above the quota |
| Guarantees.ReserveIsGrantedExactly | internal/db/queries.go:718-800 | after any run a fresh id is refused for exactly three reasons, in this order: no active device of the account, a busy block, or a new block that does not fit beside all bytes stored and reserved; the missing-row error and an id collision are never met |
| Guarantees.CommitNeverFailsOnQuota | internal/db/queries.go:866-887 | a commit of an existing reservation is refused exactly for expiry or a revoked device; the quota, size and deletion refusals are unreachable |
| Guarantees.ReleaseNeverClamps | internal/db/queries.go:1190-1200 | a release subtracts exactly the block's size; `MAX(0, ...)` never acts |
| Guarantees.BlockLifecycle | internal/db/queries.go:844-895 | device rows imply an account row, account rows an active object of the right size; the orphan mark is absent exactly while an account references the object; a deleting object has no reference and no reservation |
| Guarantees.FinalizeAlwaysSucceeds | internal/db/queries.go:1288-1303 | finalising an object marked deleting always succeeds and cascades onto no account or device row; on any other id it changes nothing |
| Guarantees.PruneIsSetDifference | internal/db/queries.go:924-997 | for any device set and any list of ids the block-by-block prune equals one set difference, and the counter falls by exactly the sizes of the blocks freed |
| Guarantees.ReleaseKeepsHeldBlocks | internal/db/queries.go:1129-1153 | a release batch run in any state leaves every block that some device of the account holds |
| Guarantees.DiscardLeavesOnlyTheCallersGroup | internal/db/queries.go:1013-1128 | a discard succeeds exactly when its check passes; afterwards only the caller's group remains, the other devices are revoked and groupless, no other sync data is left, nothing else changed, and the counter fell by exactly the removed session bytes |
| Guarantees.MergeConservesData | internal/db/queries.go:619-652 | after any run a merge gives the surviving group exactly the union of what the two groups could read, and touches no other group, no counter, no session and no other open code |
| Answers.EnrollAnswers | internal/db/queries.go:208-220 | an enrolment succeeds exactly for an existing account and two fresh ids; the device is then alone in a new group of revision 1 that sees no block, session or manifest |
| Answers.RegisterAnswers | internal/db/queries.go:121-146 | a registration succeeds exactly for a new account, a quota that is not negative and two fresh ids; nothing is charged yet |
| Answers.CommitAnswers | internal/db/queries.go:815-910 | a commit adds exactly the missing rows, charges the block's size only if the block is new to the account, spends the reservation, and reports which rows it created |
| Answers.PruneBatchAnswers | internal/db/queries.go:959-996 | a batch succeeds exactly for an active member and the current revision; the group lets go of the ids, the account is discharged of exactly those no other device holds, an object is marked now exactly if it lost its last reference, and the counter is again the sum of the rows |
| Answers.ReleaseBatchAnswers | internal/db/queries.go:1129-1200 | a clean-up batch discharges the account of exactly the ids that none of its devices holds |
| Answers.DiscardAnswers | internal/db/queries.go:1089-1116 | the first transaction revokes exactly the devices of other groups, keeping an earlier revocation time, takes them out of their groups, and removes their manifests and block rows and no others |
| Answers.ClaimAnswers | internal/db/queries.go:1225-1286 | a claim takes only unreferenced objects orphaned by the deadline or claimed before that no valid reservation holds, all of them up to the limit (256 unless 1 to 1000), earliest marks first; it marks exactly those and purges exactly the expired reservations |
| Guarantees.SessionPutIsExact | internal/db/session_files.go:106-210 | after any run a put is refused, in this order, for a non-member, a revoked writer, an id that belongs to another group, growth beyond the quota or a size out of bounds, and answers a stale base with the current version; otherwise it writes and moves the counter by exactly the difference; the missing-row and negative-counter errors are unreachable |
| Guarantees.SessionDeleteIsExact | internal/db/session_files.go:216-268 | after any run a delete fails only for a non-member or a revoked writer; it removes exactly the named version of the group's session and gives back exactly its bytes, reports a stale version with the current one, and finds nothing in another group's session |
| BlockFiles.StepsKeepWorld | internal/service/blocks.go:47-91 | any interleaving of uploads, collector, sweep and other calls, each stopping anywhere, keeps the store's invariant, true file contents, calls tied to their own reservations and claimed objects marked deleting |
| BlockFiles.NextKeepsIntact | internal/service/blocks.go:168-192 | every step but the deletion of a needed file keeps a file for each referenced block and for the block of each call that can still commit |
| BlockFiles.ReferencedBlockIsStored | internal/service/blocks.go:168-192 | after any interleaving without a sweep's deletion, a block that an account references has an active object row and its own bytes on disk; no timing assumption |
| BlockFiles.VisibleBlockIsReadable | internal/service/blocks.go:117-136 | after any such interleaving a block is found exactly when it is visible, and reading it returns the bytes that were hashed |
| BlockFiles.DeletingIsFree | internal/db/queries.go:1236-1281 | an object marked deleting is referenced by no account and reserved by no upload |
| BlockFiles.UnlinkKeepsIntact | internal/service/blocks.go:178-183 | unlinking the file of a claimed object is safe in every state of the protocol |
| Sweeping.SweepIsSafeIff | internal/service/blocks.go:209-238 | in every state of every run still in order, deleting a file does harm now or later exactly when it is there and an account references the block or an installed call for it keeps its reservation row and an active device |
| Sweeping.StaysStoredIffIntact | internal/service/blocks.go:47-91 | in every state of every run, sweeps included, all referenced blocks will keep their files exactly when each has its file and so has the block of every call that can still commit |
| Sweeping.SweepRace | internal/service/blocks.go:209-238 | a run from the empty store in which the sweep, past its age and row guards, deletes a file under a call that then commits: the account references a block that is not on disk |
| Sweeping.UndisturbedSweepsAreSafe | internal/service/blocks.go:209-238 | over whole runs with any number of passes and deletions: referenced blocks stay stored if, for each file deleted, no call for it had outlived an unpurged reservation when the rows were listed and none started since |
| BlockFiles.ListingDoomsStrays | internal/service/blocks.go:209-230 | the sweep dooms exactly those files of its earlier listing that are at least 86,400 seconds old and have, when the rows are listed, neither an object row nor a reservation still valid |
| Blocks.BlockStore.PutNew | internal/store/blocks.go:83-127 | installs without replacing: an existing file keeps its bytes and its modification time; a failure changes nothing |
| Blocks.BlockStore.Delete | internal/store/blocks.go:155-163 | removes exactly the one file, is content with its absence, and changes nothing when it fails |
| Blocks.BlocksService.Put | internal/service/blocks.go:47-91 | without interference a put succeeds exactly when the hash matches, the reservation is granted and the file can be written; then the block is charged, held and on disk and the reservation is spent; a failing disk leaves only the purge of expired reservations, any other refusal nothing |
| Blocks.BlocksService.Missing | internal/service/blocks.go:93-115 | refuses more than 900 ids; otherwise returns exactly the ids invisible to the group, in order |
| Blocks.BlocksService.Get | internal/service/blocks.go:117-136 | returns the hashed bytes exactly when the block is visible to the group |
| Blocks.BlocksService.CollectRows | internal/service/blocks.go:168-192 | of the claimed objects those whose file cannot be deleted keep file and row, those whose row cannot be deleted keep the row, all others lose both and are counted; no finalisation that runs fails |
| Blocks.BlocksService.CollectOrphanFiles | internal/service/blocks.go:209-238 | run as one step, removes exactly the files at least 86,400 seconds old without an object row or a valid reservation that can be deleted, leaves every other file as it was, and takes no file an account needs |
| Blocks.BlocksService.CollectGarbage | internal/service/blocks.go:168-201 | both halves in sequence, and the count of everything they removed |
| Calls.PutIsSteps | internal/service/blocks.go:47-91 | an uninterrupted put whose reservation is granted is exactly the interleaving model's reserve, install and commit |
| Calls.FailedPutIsSteps | internal/service/blocks.go:71-76 | with a failing disk it is exactly reserve and cancel, and leaves only the purge of expired reservations |
| Calls.CollectIsSteps | internal/service/blocks.go:168-192 | an uninterrupted collection, with any files and rows that fail, is exactly the claim and the unlink and finalise steps of the ids that do not |
| Calls.SweepIsSteps | internal/service/blocks.go:209-238 | an uninterrupted sweep is exactly its two listings and one deletion step for each stray file |
| Store.Queries.ReserveBlockUpload | internal/db/queries.go:718-800 | the new state and every refusal are those of the reservation transaction; a refusal leaves expired reservations in place |
| Uploads.CancelUndoesReserve | internal/db/queries.go:802-809 | cancelling what was just reserved gives back the store as it was, less its expired reservations, and the reservation can never be committed |
| Store.Queries.CommitBlockUpload | internal/db/queries.go:813-912 | object, charge and device row appear together and the reservation goes, or nothing changes |
| Store.Queries.ReleaseUnreferencedAccountBlock | internal/db/queries.go:1160-1217 | the block leaves the account only when no device of it holds the block; bytes and orphans are reported for exactly that case |
| Store.Queries.PruneGroupBlocks | internal/db/queries.go:924-997 | the batches of 256 amount to one set difference over the candidates read first; reported bytes are the counter's fall and reported orphans the blocks that lost their last reference |
| Store.Queries.DiscardStructure | internal/db/queries.go:1013-1128 | the structural transaction, statement by statement, is the discard transaction; the clean-up candidates are exactly the blocks that some device of another group holds, revoked ones included, and the bytes summed are those of the rows the cascade removes |
| Store.Queries.DiscardOtherGroups | internal/db/queries.go:1005-1157 | with its release batches uninterrupted, the account still pays for exactly the blocks its own group sees or no other group held, no block is left loose that was not, the devices reported are those that were in other groups, the bytes are exactly the fall of the counter and the orphans exactly the blocks that lost their last reference |
| Store.Queries.SelectCollectible | internal/db/queries.go:1236-1251 | the rows selected are collectible, as many as the limit admits, oldest marks first |
| Store.Queries.ClaimCollectibleBlocks | internal/db/queries.go:1221-1285 | purges expired reservations and marks exactly the selected rows as deleting |
| Store.Queries.FinalizeBlockDeletion | internal/db/queries.go:1288-1303 | deletes the object row exactly when it is deleting, unreferenced and unreserved |
| Store.Queries.PutDeviceManifest | internal/db/queries.go:421-480 | in a valid store the compare-and-swap never misses; outcome and state are those of the manifest transaction |
| Store.Queries.CreateDeviceEnrollment | internal/db/queries.go:209-219 | group, device and manifest head appear together or not at all |
| Store.Queries.ReplaceSyncCode | internal/db/queries.go:493-531 | expired codes and the inviter's other codes are consumed, and the new code is inserted unless it collides |
| Store.Queries.RedeemSyncCode | internal/db/queries.go:541-664 | the lookup's answer is unambiguous and the statements of the merge, with their cascade, are the redemption transaction |
| Store.Queries.PutSessionFileCAS | internal/db/session_files.go:106-210 | in a valid store the insert never collides and the compare-and-swap never misses; outcome and state are those of the put transaction |
| Store.Queries.DeleteSessionFileCAS | internal/db/session_files.go:216-268 | row and counter change together or not at all |
| Guarantees.WriterIsActiveMember | internal/db/session_files.go:83-97 | after any run the three checks come down to membership, then activity: a member's group always exists and is the account's |
| Uploads.ReserveKeepsInv | internal/db/queries.go:763-783 | a granted reservation keeps counter plus pending reservations inside the quota |
| Uploads.ReservedRoom | internal/db/queries.go:866-876 | a reservation for a block not yet held leaves room for exactly that block |
| Uploads.CommitOutcome | internal/db/queries.go:813-912 | in a valid store a commit succeeds exactly when its reservation is unexpired and its device active |
| Uploads.AttachKeepsQuota | internal/db/queries.go:866-908 | a commit moves bytes from the reservation to the counter: their sum stays |
| Release.ReleasePending | internal/db/queries.go:763-783 | releasing a block under an open reservation makes at most that one reservation pending again |
| Release.ReleaseEffect | internal/db/queries.go:1160-1217 | what one release does in a valid store: exact discharge, and a fresh mark exactly when no account is left |
| Pruning.PruneAllIsOneShot | internal/db/queries.go:924-997 | pruning ids one by one, in any order and with repeats, is one set difference |
| Pruning.PruneMeaning | internal/db/queries.go:924-997 | after a prune the group sees exactly what it saw and kept, every other group what it saw, and the account pays exactly for what was kept or is held outside the group |
| Pruning.PruneAllAppend | internal/db/queries.go:960-994 | a prune cut into batches is the prune of the whole list |
| Pruning.HeldBlocksSurvive | internal/db/queries.go:1160-1179 | the clean-up never releases a block that some device of the account holds |
| Holdings.NewRowIsCommit | internal/db/queries.go:893-903 | in every reachable state a device comes to hold a block only by committing its own reservation, and never changes its account |
| Holdings.DiscardLeavesLoose | internal/db/queries.go:1046-1110 | of the blocks that the discarded groups held, the first transaction leaves exactly those its own group does not hold charged to the account and held by nobody |
| Holdings.LooseUntilReleased | internal/db/queries.go:1157-1216 | over any stretch of a run a charged block that no device holds stays so exactly until the account commits an upload of it or a batch of the account names it |
| Holdings.StoppedDiscardLeaks | internal/db/queries.go:1129-1153 | after a discard whose clean-up does not run, such blocks stay charged through any operations that neither upload them again nor release them |
| Holdings.WholeDiscardLeaksNothing | internal/db/queries.go:1049-1157 | a discard that runs to its end releases exactly what only devices of other groups held, revoked ones included, and leaves no block loose that was not loose before |
| Batches.PrunedStaysUnseen | internal/db/queries.go:924-997 | right after the last batch of a prune that went through, with any operations between its batches, the group sees nothing it saw when the candidates were read except what is kept and what a member uploaded meanwhile |
| Batches.ReclaimedIsFreed | internal/db/queries.go:959-996 | what the batches of one call took off the counter, whether it went through or stopped and whatever came in between, is the sizes of the blocks they freed, each counted once |
| Discarding.DiscardedCharges | internal/db/queries.go:1074-1126 | the bytes summed before the cascade are exactly the charges of the session rows it removes, for every account |
| Discarding.DiscardIsExact | internal/db/queries.go:331-357 | after a successful discard there is no other sync data, and the revoked devices, candidate blocks and session bytes reported are exactly those removed |
| Guarantees.RedeemIsGrantedExactly | internal/db/queries.go:541-664 | after any run a redemption goes through exactly when an active device presents the MAC of an unexpired open code of its account whose inviter is still active; both are then in the older of their two groups (smaller id on a tie); the answer carries that group's revision and all its devices as they are afterwards, the revision being one more than the larger of the two if groups merged and unchanged if not; the code is spent now and no other row changes |
| Merging.MergeConserves | internal/db/queries.go:619-652 | blocks, manifests and sessions visible to the survivor are exactly the union; every other group and account reads what it read |
| Merging.MergedOpenCodes | internal/db/queries.go:619-652 | the open codes after a merge are those before it except the redeemed one, moved with their group; the cascade reaches none |
| Merging.MovedMembers | internal/db/queries.go:619-634 | the survivor's members are the disjoint union of both groups' members |
| Partition.GroupsAreComponents | internal/db/queries.go:601-652 | after any run, discards included, a device's group is the least founding of its component by creation time and id, its members are exactly the component, and a discard takes components whole |
| Partition.MergeOrderIrrelevant | internal/db/queries.go:601-652 | two runs with the same enrolments that join the same pairs, in any order and direction and with any discards, put a device that has a group in both in the same group |
| Partition.RedeemIsRedeemCode | internal/db/migrations/000001_init.up.sql:72-74 | the unique index on open codes makes the redeemed code unambiguous |
| Revisions.RevisionBounds | internal/db/queries.go:617-634 | after any run a group of revision r has at least r and at most 2^(r-1) members |
| Revisions.SameRevisionSameMembers | internal/db/queries.go:617-634 | in any two states of a run a group with the same revision has the same members, and revisions never fall |
| Revisions.GuardSeesSameMembers | internal/db/queries.go:965-974 | a prune batch or discard whose revision check passes acts on the membership the caller saw, whatever came between |
| Invitations.OpenCodesFollowInviters | internal/db/queries.go:493-531 | after any run an inviter has at most one open code, and it names the inviter's current group |
| Invitations.ReplaceCodeOpens | internal/db/queries.go:493-531 | after any run a code is refused for exactly three reasons: inviter not in the group, not active, or a collision of id or MAC; otherwise exactly it, as passed in, and the unexpired codes of other inviters are open, and the codes closed are stamped now |
| Invitations.CodeRedeemedOnce | internal/db/queries.go:541-664 | over any run a code is redeemed at most once |
| Invitations.MergesBounded | internal/db/queries.go:601-652 | an account's merges never exceed its enrolments minus one |
| Revocation.RevokeTakesEffect | internal/db/queries.go:230-261 | an active member revokes exactly an active member of its group; only that row changes, and the device stays in the group; a caller outside the group and a revoked caller get different errors |
| Revocation.RevocationIsFinal | internal/db/queries.go:230-261 | over any run a revoked device stays revoked since the time first recorded, and every later operation on its behalf leaves the store as it was, except that cancelling a reservation of its own removes that row; the clean-up batches after a discard are nobody's in particular |
| Revocation.RevokedInvitesNobody | internal/db/queries.go:541-600 | the open code of a revoked inviter cannot be redeemed by anyone |
| ManifestLog.VersionsAreContiguous | internal/db/queries.go:421-480 | after any run the stored versions of a device are exactly 1 to its head |
| ManifestLog.PutManifestOutcome | internal/db/queries.go:421-480 | every answer: a current base is accepted as the next version, a stale one is a conflict that tells the head unless it repeats the last accepted ciphertext, and the collision branch is unreachable |
| ManifestLog.RetryIsIdempotent | internal/db/queries.go:443-456 | an immediate retry of the write just accepted returns its version and changes nothing |
| ManifestLog.BaseAcceptedOnce | internal/db/queries.go:457-477 | over any run each base version of a device accepts at most one write, whose ciphertext stays under its version as long as the device keeps its log |
| SessionLog.VersionsCountPuts | internal/db/session_files.go:106-210 | over any stretch of a run that does not lose the session its version rises by exactly one per accepted put |
| SessionLog.LossIsDeleteOrDiscard | internal/db/session_files.go:216-268 | a session is lost only to a successful delete that names its current version or to a successful discard of its group; an accepted put names the current version |
| SessionLog.BaseReusedOnlyAfterLoss | internal/db/session_files.go:106-268 | between two puts of one session accepted at the same base, the session was lost to a successful delete of its current version or a successful discard of its group |
| SessionLog.SessionsBelong | internal/db/session_files.go:136-140 | whatever the operation, a session changes its group only if a redemption merges that group away, and its version or ciphertext only if an active member of its group writes it at the current version |
| SessionLog.SessionsBelongOverRuns | internal/db/session_files.go:136-140 | the same between any two states of a run |
| Grace.MarkIsLastRelease | internal/db/queries.go:1202-1215 | an object that no account references is marked with the time of the operation that last released it |
| Grace.ClaimedAfterGrace | internal/db/queries.go:1230-1260 | after any run each id that a claim takes is of an object no account references, and unless it is one still to be deleted from an earlier claim its last release lies 86,400 seconds or more back; blocks whose expired reservation the claim itself purges are included |
| Grace.DeletingWasClaimed | internal/db/queries.go:1266-1278 | in every state an object marked deleting was claimed 86,400 seconds or more after its last release and has not been referenced since that release |
| Grace.RemovedAfterGrace | internal/db/queries.go:1288-1303 | over any run of the collector among other operations an object row disappears only by finalising such an object |
| Grace.RoundShrinksBacklog | internal/service/blocks.go:168-192 | a round removes exactly the claimed objects from the backlog: all of it, or 256 |
| Grace.BacklogCleared | internal/service/blocks.go:168-192 | k undisturbed rounds leave exactly max(0, n - 256 k) of n collectible objects |
| Limiter.HashedLimiter.constructor | internal/middleware/hashed_limiter.go:26-37 | non-positive limits become one grant and one minute; the table starts empty |
| Limiter.HashedLimiter.FilterInPlace | internal/middleware/hashed_limiter.go:49-54 | filtering a slice into its own array leaves exactly the hits after the cutoff, in order |
| Limiter.HashedLimiter.Allow | internal/middleware/hashed_limiter.go:39-74 | answer and table are those of the decision on values, with slices filtered and appended in place and no array shared between keys |
| Limiter.HashedLimiter.CleanupLocked | internal/middleware/hashed_limiter.go:76-90 | every entry is left with exactly its fresh hits, and entries without any are gone |
| RateLimits.AgreesWithHistory | internal/middleware/hashed_limiter.go:39-90 | over any calls with non-decreasing times the answer, delay included, is that of a limiter that never forgets a grant; clean-up changes no answer |
| RateLimits.AtMostMaxPerWindow | internal/middleware/hashed_limiter.go:55-73 | a key's grant number i + max comes at least a window after grant number i |
| RateLimits.TableBounded | internal/middleware/hashed_limiter.go:63-72 | the table never exceeds its capacity |
| RateLimits.RetryIsExact | internal/middleware/hashed_limiter.go:55-72 | a refusal for too many grants carries a positive delay; whatever other keys ask for in between, the key's next call is granted exactly if the delay has passed and, should none of its grants be recent any more, fewer than `capacity` keys have recent grants |
| RateLimits.RetryAtOnceIsExact | internal/middleware/hashed_limiter.go:55-72 | with no call in between the delay alone decides |
| RateLimits.RetryCanFindNoRoom | internal/middleware/hashed_limiter.go:63-72 | a run in which a key waits out its delay and is refused for lack of room |
| Events.EventHub.Subscribe | internal/service/events.go:47-64 | granted exactly while the device lists fewer than three subscribers; a refusal has no effect |
| Events.EventHub.CloseSubscriberLocked | internal/service/events.go:81-91 | closing delists and shuts an open subscriber and does nothing to a closed one |
| Events.EventHub.Publish | internal/service/events.go:66-79 | every open subscriber of each device named gets the event, or is closed if its queue is full, in whatever order the map is walked |
| Events.PublishKeepsHub | internal/service/events.go:66-91 | a publication keeps queues within 32 events, at most three subscribers per device, and exactly the open ones listed |
| Streams.RunKeepsHub | internal/service/events.go:47-91 | after any calls queues hold at most 32 events, a device has at most three subscribers, exactly the open ones are listed and the closed flag is the channel's state |
| Streams.StreamHasNoGaps | internal/service/events.go:66-91 | for an open subscriber, events consumed followed by events queued are exactly those published to its device since it subscribed; for a closed one, a prefix |
| Streams.PublicationIsExact | internal/service/events.go:66-79 | after any calls, a publication that names an open stream's device n times appends the event n times if at most 32 are then unconsumed, and otherwise fills the queue to 32 and ends the stream; an ended stream gets nothing |
| Streams.SubscribeIsGrantedExactly | internal/service/events.go:47-64 | after any calls a device gets a further stream exactly while fewer than three of its streams are open; it starts empty |
| Streams.ReceiveTakesNext | internal/service/events.go:47-64 | a receive hands out the next published event in order whenever one is queued, and for an open stream that is whenever one is unconsumed |
| Streams.CancelEnds | internal/service/events.go:57-63 | a cancelled stream is closed at once and keeps what it holds; no other stream changes |
| Streams.EndedStaysEnded | internal/service/events.go:81-91 | over any further calls a closed stream stays closed and hands out only what it held |
| Replay.ProofGuard.UseRequestNonce | internal/db/queries.go:1331-1349 | the nonce is taken exactly if nobody holds it or its holder has expired; it is held afterwards in any case, and every other nonce exactly if unexpired |
| Replay.ProofGuard.RequireDeviceProof | internal/middleware/auth.go:109-145 | a request is accepted exactly if its headers are in order, its signature verifies, its signed time is within 300,000 ms of the clock on either side, and its nonce of 16 to 32 bytes is free or held by an expired row; the nonce is then held for 360,000 ms from the signed time; failing another check leaves every nonce as it was |
| Replay.SecondIsRefused | internal/middleware/auth.go:115-145 | under 60 seconds from clock reading to insert, a proof accepted once is refused ever after, with purge and insert interleaved freely |
| Replay.AtMostOnceIff | internal/middleware/auth.go:115-145 | proofs are accepted at most once over all runs if and only if that time is under 60 seconds |
| Transcript.BuildTranscript | internal/auth/transcript.go:17-32 | fails exactly for an empty domain or a field of 2^32 bytes or more; otherwise appends each field behind its length |
| Transcript.BuildDomain | internal/auth/transcript.go:17-32 | a built transcript begins with the domain's characters and reads back as exactly the fields passed, in order |
| Transcript.BuildAccountCreate | internal/auth/transcript.go:34-48 | begins with "lumina-account-create" and reads back as the twelve fields in the source's order |
| Transcript.BuildLogin | internal/auth/transcript.go:50-61 | begins with "lumina-login-proof" and reads back as the seven fields in the source's order |
| Transcript.BuildSession | internal/auth/transcript.go:63-72 | begins with "lumina-device-session" and reads back as the four fields in the source's order |
| Transcript.BuildDiscardGroups | internal/auth/transcript.go:74-84 | begins with "lumina-discard-sync-groups" and reads back as four ids and eight bytes that spell the revision in two's complement, most significant first |
| Transcript.BuildDekEnvelope | internal/auth/transcript.go:86-94 | begins with "lumina-dek-envelope" and reads back as the four fields in the source's order |
| Transcript.DecodeEncode | internal/auth/transcript.go:21-31 | a decoder recovers exactly the fields encoded, for any fields under 2^32 bytes |
| Transcript.DomainsDiffer | internal/auth/transcript.go:8-14 | the five domains already differ in their first ten bytes, so none is a prefix of another |
| Transcript.TranscriptsAreUnambiguous | internal/auth/transcript.go:34-89 | two transcripts of any kinds are equal only if kind and all fields are equal |
| Challenges.ChallengeStore.Create | internal/auth/challenge.go:53-81 | the attempt is stored for five minutes; of the others expired ones go and the rest stay as they are, except that a store full of unexpired attempts gives up exactly one that expires first; the store never exceeds its capacity |
| Challenges.ChallengeStore.FirstToExpire | internal/auth/challenge.go:70-76 | the scan finds an attempt that expires first, in whatever order the map is walked |
| Challenges.ChallengeStore.Take | internal/auth/challenge.go:84-93 | the attempt is consumed in any case, and returned exactly when it exists, is of the kind asked for and is unexpired |
| Challenges.ChallengeStore.CleanupLocked | internal/auth/challenge.go:95-102 | exactly the unexpired attempts stay |
| Challenges.CapacityHolds | internal/auth/challenge.go:68-79 | over any calls the store stays within its capacity |
| Challenges.TakenOnceAsCreated | internal/auth/challenge.go:84-93 | a successful take returns the attempt as created, of the right kind and unexpired, and nobody asked for it in between: at most once, and never after a failed try |
| Challenges.LostOnlyWhenFull | internal/auth/challenge.go:68-79 | over any calls an unexpired attempt nobody took is lost only to a create that found the store full of unexpired attempts, none expiring before it |
| Challenges.SurvivesNewerAttempts | internal/auth/challenge.go:68-79 | while expiries rise, an attempt left alone survives any calls with fewer than `capacity` newer attempts |

## Left out

- Store.Queries.SelectCollectible: leaves ties between equal orphan marks open; the source breaks them by block id, the text of a hash.
- Store.Queries.PruneGroupBlocks: its contract is that of a call without interference, in which a later batch cannot fail; what an interleaved or stopped call has accumulated is stated in `Batches`. Returned id lists are sets.
- Replay.ProofGuard.RequireDeviceProof: the signature check, header parsing and request path are inputs; deleting a device's nonces with the device is not modelled, since no call deletes devices.
- Integer overflow: sizes, versions and times are unbounded integers.
- Columns no decision reads: user names, keys, salts, device names, creation times other than a group's, last-seen times.
- Which file deletions and statements fail is an input of the service methods; in the interleaved steps a failure is a step that does not happen.
- Malformed block ids and ids in upper case: a block id is a digest by type.
- The random sync code, its MAC and the retry on a collision; the MAC is an input.
- Event tickets, which are single-use like login attempts; WebSocket framing, heartbeats and write timeouts.
- Signatures, tokens, key derivation, encryption and their encodings.
- HTTP routing, JSON, error codes, body limits and access logs.
- SQL parsing, drivers and migrations; temporary files, fsync and directory layout of the block store.
- Calls to the limiter whose clock readings arrive out of order: the reading precedes the lock, so two goroutines can swap.
- Several collectors at once.
