# FrostVault: verified models of its protocols and its catalog

FrostVault keeps a catalog of files in PostgreSQL, archives them as exact versions in a versioned S3 bucket,
and runs everything that moves or deletes data as leased jobs. This project models the parts whose safety
rests on whole runs rather than on single functions, and proves their properties in Dafny:

- **Job leases** (`JobRows`, `JobSteps`, `JobLeases`, `JobProgress`, `JobStore`): fencing tokens, takeovers, expiry,
  all-or-nothing leasing of deletion groups, cancellation, and restart reconciliation.
- **Delayed cloud deletion** (`DeletionRows`, `DeletionColumns`, `PurgeMachine`, `PurgeSafety`, `PurgeOutcomes`,
  `PurgeProgress`, `DeletionStore`): consent captured as exact VersionIds, held for seven days, revocable, and
  revalidated before every batch; what its records mean; and why no job of the engine is stranded.
- **Uploads** (`UploadProtocol`, `UploadWorker`): intents, sends, receipts and no-write outcomes under crashes and
  lost responses.
- **Freeing local space** (`CleanupNames`, `FreeSpace`, `LocalFolder`): claim by rename, rehash, recheck under lock,
  unlink, restore, in a folder of several files, with the names of claims and the pattern that finds them again.
- **The event journal and its live tail** (`EventDomains`, `EventJournal`, `EventStream`, `EventHub`).
- **The catalog**: local observation (`LocalCopies`, `Observations`, `RepeatedPaths`, `LocalTables`), the scan journal
  (`ScanJournal`), cloud-only holds (`CloudHolds`, `HoldTable`), renames (`FileRenames`, `RenameTables`), cloud scan,
  audit and version numbers (`VersionRows`, `CloudScan`, `CatalogAudit`, `VersionNumbers`, `VersionTable`).
- **Two small algorithms**: the walk over a cyclic exception graph (`ExceptionChain`) and sign-in backoff (`Backoff`).

## How to read it

Every committed database transaction is one atomic step. A state machine gives its steps as functions on values
(`Enabled`, `Apply`), and main results are about every run of it. Code that changes rows or folders in place is a class
whose methods carry the statements and loops and are proved equal to those functions, so what is proved of the functions
holds of the methods. What an operation decides is stated in the columns of the rows it reads, apart from the predicates
it evaluates. Time is a natural number that never decreases; claim tokens, ids and claim names are fresh; the
provider is a set of exact versions. SQL NULL is `None`. `dafny verify dfyconfig.toml` checks everything.

Where code and documentation, or two pieces of code, disagree, the model follows the code:

- The scheduler's predicate accepts a deletion group whose id is the empty string, the group acquisition refuses it
  (`EmptyGroupIdDisagrees`); they agree on every other job. Group ids are random, so no run reaches that table.
- Equal no-write outcomes of an upload intent are stored as one row, so rows alone undercount requests
  (`RowsUndercount`); `RowsBoundPuts` says exactly when they do not, and outcomes as events always bound them
  (`PutsBounded`).
- The batched observation claims to treat a repeated path like the per-file form. It keeps only the last observation,
  which preserves a fingerprint the per-file form drops (`RepeatedPathDiffers`); `RepeatedPathAgrees` gives the exact
  condition for every batch, read off the rows and the observations beforehand.
- Scan rollback does not undo a fingerprint published over a row the scan had not journaled
  (`FingerprintOutlivesRollback`); `RollbackIsIdentity` says exactly when a row is restored. Holds and revoked deletions
  are not journaled either (`HoldOutlivesRollback`).
- An audit right after a scan may still mark a version missing that the scan spared as too recent
  (`LatecomerIsMarkedMissing`); `AuditAfterScan` gives the exact condition.
- Restart reconciliation finds the claims of a file with a shell pattern built from the file's own name, unescaped. The
  pattern may match the claim of another file, whose bytes then end up at the wrong path (`StarTakesAnotherFile`,
  `MarkTakesAnotherFile`), and it may miss the file's own claim, so that the job is reported as completed while the
  bytes are under the claim (`BracketCompletesTooEarly`). `TouchesOwnOnlyIff` and `CompletedIsCleanIff` give the exact
  conditions for one reconciliation. Over whole runs, `NothingLostIff` says that no claimed file is ever lost exactly if
  no job's pattern matches another job's claims, and `SeparateByNames` tests that on the names before any job runs.
- Interrupted storage-class changes outside a vault move, recoveries whose destination is occupied and deletion groups
  with a recorded failure are ended by reconciliation, not resumed (`StorageClassIsNotRepeated`, `FailedItemEndsGroup`);
  `NoJobStranded` therefore says that a job has ended or is back in a worker's hands.

## Model

| member | source | states |
|---|---|---|
| JobRows.PurgeClaimabilityAgrees | app/catalog.py:2816-2888 | a deletion job satisfies the scheduler's predicate exactly when the group acquisition led by it would include it, and then it takes all active members; the empty group id is the only exception |
| JobRows.EmptyGroupIdDisagrees | app/catalog.py:3016-3025 | a concrete table in which the predicate admits a job whose group is never acquired |
| JobLeases.LostWriteIsNoOp | app/storage.py:2146-2181 | a renewal, status, retry, progress or group write with a token that lost the job leaves the whole table unchanged |
| JobLeases.FencingIsPermanent | app/catalog.py:3090-3112 | once lost by expiry, takeover, release or cancellation, a token owns nothing in any later state of any run and all its writes are no-ops |
| JobLeases.NoTakeoverBeforeExpiry | app/catalog.py:2945-2987 | over every run, nobody else comes to own a leased job before the lease runs out, unless its owner let go of it or the job has ended |
| JobLeases.PausedUploadsWait | app/catalog.py:2844-2852 | over every run, an automatic upload without a version never gets into a worker's hands while its Vault has automatic uploads switched off |
| JobLeases.TerminalAbsorbs | app/main.py:2562-2575 | completed, failed and cancelled are kept, with the same outcome, by every later step of every run |
| JobLeases.GroupsKept | app/catalog.py:2989-3146 | every step keeps one token among the live leases of a deletion group and the delay all-or-nothing |
| JobLeases.OneOwnerPerGroup | app/catalog.py:2989-3146 | in every reachable state all live leases of a deletion group carry one token, and its members are in their delay together or not at all |
| JobLeases.NewDeletionWaits | app/services/cloud_deletion.py:243-258 | a deletion row starts out unclaimed and waits seven days from its request |
| JobLeases.WaitingGroupCanBeCancelled | app/catalog.py:137-157 | while one member waits, revoking is accepted and ends the whole selection |
| PurgeProgress.PlacedOverRuns | app/storage.py:191-200 | every reachable (action, status) is terminal, in the interrupted matrix, or a waiting status |
| PurgeProgress.NoJobStranded | app/storage.py:2966-3161 | in every reachable state of the engine with its deletions, every unfinished job has ended or is back in a worker's hands within five moves, for every outcome reconciliation may choose; the Owner moves only where the job waits for the Owner or its folder |
| PurgeProgress.StorageClassIsNotRepeated | app/storage.py:2696-2791 | whatever reconciliation decides, an interrupted storage-class change outside a vault move ends |
| PurgeProgress.FailedItemEndsGroup | app/storage.py:2842-2844 | a recorded item failure makes reconciliation fail every job of the group that was being cleaned |
| JobProgress.DecidedRow | app/storage.py:3032-3160 | after any decision reconciliation may take, an interrupted job has ended or is ready to be claimed |
| JobProgress.DecisionTable | app/storage.py:2966-3161 | reconciliation moves exactly the interrupted, unclaimed jobs whose folder is there, to the outcomes listed per action |
| JobProgress.WriteTable | app/storage.py:2146-2181 | a worker moves exactly the job it holds, to exactly the statuses of its action; a deletion is never completed this way |
| JobStore.JobTable.ClaimJob | app/catalog.py:2945-2987 | claims exactly an unclaimed, runnable job, unless it is an automatic upload without a version whose Vault has switched those off; no other row looks at that policy; the claimer then has the job alone for 300 seconds |
| JobStore.JobTable.AllFree | app/catalog.py:3047-3056 | the row-by-row check is the universally quantified one |
| JobStore.JobTable.ClaimPurgeGroup | app/catalog.py:2989-3088 | leases all unfinished jobs of the lead's group exactly if every one is unclaimed and queued or through with its delay, and otherwise nothing |
| JobStore.JobTable.RenewJobClaim | app/catalog.py:3090-3112 | renews exactly an unexpired claim of this token on an unfinished job, which is then exclusive for its whole new term; a refused owner never owns the job again |
| JobStore.JobTable.RenewPurgeGroupClaim | app/catalog.py:3114-3146 | renews row by row exactly if the expected jobs are those being cleaned under this token; otherwise the rows already renewed are rolled back |
| JobStore.JobTable.SetJob | app/storage.py:2146-2181 | writes exactly for the holder of an unexpired claim; the four working statuses keep the job with the worker alone for a full lease, all others let go of it; a worker that lost the job changes nothing and never owns it again |
| JobStore.JobTable.ScheduleUploadRetry | app/storage.py:2259-2290 | the job is let go of and becomes claimable exactly from its retry time on, unless its upload is paused |
| JobStore.JobTable.CancelJobGroup | app/main.py:2491-2575 | cancels and counts exactly the jobs of the group and action that have not ended; a deletion group is revoked in whole while it waits, or not at all |
| PurgeSafety.SafeStep | app/services/cloud_deletion.py:307-362 | every step keeps the invariant that ties items to admissions, workers to fences and calls to consent |
| PurgeSafety.OnlyConsentedTargetsAreDeleted | app/services/cloud_deletion.py:224-362 | every DeleteObjects request of every run names only exact targets captured by an admission of that group at least seven days before the check that preceded the batch; at that check the target's job was claimed by the sender, the Vault was active and enabled or being stopped by this very group, the file was proved absent from the disk, and if it still had content it was not held, nobody else worked on it, and everything it had in the cloud had been captured |
| PurgeSafety.EveryItemWasAdmitted | app/services/cloud_deletion.py:224-278 | over every run, each captured target was captured by an admission confirmed with the Vault's name and a reason, for a file that was cloud-only, not held, without other work and absent from the disk, from a version or marker row it had then |
| PurgeSafety.LoadedIsHeld | app/storage.py:5010-5036 | a worker that loads a group holds every unfinished job of it and takes on all its open items |
| PurgeSafety.RevokedGroupDeletesNothing | app/storage.py:5010-5147 | a group cancelled while waiting has no target sent to the provider and no item recorded as deleted in any continuation |
| PurgeSafety.WaitersSparedOverRuns | app/services/cloud_deletion.py:281-293 | as long as one job of a group waits, no item of the group is recorded as deleted |
| PurgeOutcomes.DeletedWasSentOrGone | app/storage.py:5060-5147 | over every run, an item is recorded as deleted only after its target was in a request or the provider no longer held it |
| PurgeOutcomes.CompletedMeansDeleted | app/services/cloud_deletion.py:399-417 | in every reachable state a completed deletion job has captured targets, all recorded as deleted |
| PurgeOutcomes.FinishDecides | app/storage.py:5149-5182 | finishing a group completes exactly the jobs whose captured targets are all gone, fails the others, and releases them all |
| DeletionColumns.AuthorizedInColumns | app/services/cloud_deletion.py:307-362 | the authority check passes exactly when every column of the Vault, job, file, version, marker and item rows of the group is as required |
| DeletionColumns.AdmissibleInColumns | app/services/cloud_deletion.py:186-239 | a request is admitted exactly for an active Vault with confirmed observations, its exact name, a reason, and cloud-only files proved absent |
| DeletionColumns.CapturedInColumns | app/services/cloud_deletion.py:260-274 | exactly the versions that are not purged and the markers not recorded as deleted are captured, with the targets of their rows |
| DeletionStore.DeletionTables.CancelRows | app/services/cloud_deletion.py:295-305 | cancels and releases exactly the given jobs and skips exactly their pending and failed items |
| DeletionStore.DeletionTables.CancelCloudDeletion | app/services/cloud_deletion.py:281-293 | revokes a group in whole exactly if it has jobs and all of them wait unclaimed, or refuses without a change |
| DeletionStore.DeletionTables.RowsAuthorized | app/services/cloud_deletion.py:307-362 | the row loop decides delay and consent of every active job |
| DeletionStore.DeletionTables.ValidateExecution | app/services/cloud_deletion.py:307-362 | true exactly when the rows of the whole group allow it, column by column; a refusal cancels the group on the spot |
| DeletionStore.DeletionTables.MarkItemsDeleted | app/services/cloud_deletion.py:369-386 | batches of 500 record exactly the given items and purge exactly their versions |
| DeletionStore.DeletionTables.ReconcilePurgeGroup | app/storage.py:2794-2889 | a group left in cleaning that nobody holds fails if an item failed or the provider must be read and cannot be, and otherwise returns to the queue with exactly the vanished targets recorded; all its abandoned jobs move together and no other row changes |
| UploadProtocol.BalancedOverRuns | app/services/upload_provenance.py:267-307 | starts are matched by no-write outcomes except the open one, in every reachable state |
| UploadProtocol.PutsBounded | app/storage.py:3609-3857 | requests for one intent never exceed one plus its no-write outcomes, for every interleaving |
| UploadProtocol.RowsBoundPuts | app/services/upload_provenance.py:302-307 | stored no-write rows bound the requests exactly as long as repeated outcomes and an open start are made up for by attempts that have not sent |
| UploadProtocol.RowsUndercount | app/services/upload_provenance.py:302-307 | for any number of rounds a run whose rows stay at one while requests grow |
| UploadProtocol.LinkedIntentNeverRestarts | app/storage.py:3551-3606 | once a receipt is linked, no later state allows a send to be started |
| UploadProtocol.AtMostOneObject | app/services/upload_provenance.py:349-396 | with truthful absence proofs an intent stores at most one object, and every receipt and the published version name it |
| UploadProtocol.NoRequestAfterLanding | app/storage.py:3551-3606 | with truthful absence proofs no request is issued after an object landed or a version was linked |
| UploadWorker.Ledger.StartSend | app/services/upload_provenance.py:267-277 | a send is started exactly if claim and target hold, it was not started and there is no receipt; so at most once |
| UploadWorker.Ledger.RecordRefusal | app/services/upload_provenance.py:288-307 | a refusal of a started, open, unlinked send without receipt is journaled and rearms the intent, so that the next start is accepted |
| UploadWorker.Ledger.LinkVersion | app/storage.py:3494-3508 | once linked, the intent can neither be started nor rearmed |
| UploadWorker.Ledger.Prepare | app/services/upload_provenance.py:216-265 | a new intent is accepted exactly if the file has no started, unsettled one and no receipt on one that never sent; it closes exactly those that never sent |
| UploadWorker.Ledger.Conclude | app/storage.py:3485-3520 | the receipt is journaled even if the claim or the target is lost; the version is linked exactly if they hold |
| UploadWorker.Ledger.Resume | app/storage.py:3551-3606 | a started send is published, rearmed on proven absence, or blocked by a lost claim, an inconsistent link, a contradicting receipt or paused protection, without any request and along a path of the machine |
| UploadWorker.Ledger.Transmit | app/storage.py:3817-3857 | at most one request, sent exactly when the start was committed; acceptance is journaled and published unless the claim is lost meanwhile, refusal rearms |
| CleanupNames.LiteralLists | app/storage.py:3082-3084 | a name without wildcards finds, besides its own claims, exactly the claims of files whose name continues it with the mark of a claim |
| CleanupNames.ListsByNames | app/storage.py:3082-3084 | for arbitrary names, wildcards and brackets included, whether one file's pattern matches another file's claims is decided by the two names, not by the random part |
| CleanupNames.PlainClass | app/storage.py:3082-3084 | a bracket class without a hyphen stands for the characters written in it |
| CleanupNames.RangeClass | app/storage.py:3082-3084 | a hyphen between two characters of a class stands for the range between them |
| CleanupNames.NoBracketListsItself | app/storage.py:3082-3084 | a name without brackets and line feeds finds its own claims |
| CleanupNames.StarListsOthers | app/storage.py:3082-3084 | a name with a star finds the claims of every file that has something else in its place |
| CleanupNames.BracketHidesOwn | app/storage.py:3082-3084 | a name whose first wildcard is a bracket around one character, such as `a[b].txt`, does not find its own claims |
| CleanupNames.BracketListsOther | app/storage.py:3082-3084 | it finds the claims of the name without the brackets, such as `ab.txt`, instead |
| FreeSpace.InvOverRuns | app/storage.py:4456-4554 | over all runs of jobs whose patterns do not match each other's claims, every name belongs to the path its inode came from, and every claimed file keeps a name nobody is about to remove, or was released or discarded |
| FreeSpace.HistoryOf | app/storage.py:4488-4512 | what counts as gone was last unlinked by the release step of its own job's worker, while the catalog row of its path, in all its columns, confirmed the newest verified, available and located version for these bytes, or removed from its path by its Owner, and got no name since |
| FreeSpace.OriginalNeverLost | app/storage.py:4456-4554 | after any crashes, restarts and races of jobs for several files, a claimed file has its bytes and origin unchanged and is at its own path or a claim of it, or its last fate, with no name since, was a release step confirming a verified available version of its digest or its Owner's removal |
| FreeSpace.PathIsNeverOverwritten | app/services/local_files.py:47-65 | no worker replaces what is at a path; only the claiming rename takes it away |
| FreeSpace.RehashDecides | app/storage.py:4488-4495 | a worker goes on after the rehash exactly if the claimed bytes have the size, time and digest of the first check |
| FreeSpace.NothingLostIff | app/storage.py:3080-3088 | no run over a set of jobs, with any crashes, restarts and catalog changes, loses a claimed file exactly when no job's pattern matches the claim of another job's file |
| FreeSpace.SeparateByNames | app/storage.py:3082-3084 | for any names, that condition is a finite test on pairs of names, independent of the random part of claims |
| FreeSpace.OrdinarySeparate | app/storage.py:3082-3084 | for names without wildcards it means that no name continues another one with the mark of a claim |
| LocalFolder.TouchesOwnOnlyIff | app/storage.py:3080-3088 | in whatever order the folder is visited, reconciling a file leaves other files and their claims alone, whichever links succeed, exactly when the file is there or no foreign claim matches its pattern |
| LocalFolder.CompletedIsCleanIff | app/storage.py:3103-3116 | a completed reconciliation leaves no claim of the file in any folder exactly when the name passes a test on the name alone: its pattern finds its own claims |
| LocalFolder.OrdinaryIsClean | app/storage.py:3103-3116 | names without brackets and line feeds are among those |
| LocalFolder.StarTakesAnotherFile | app/storage.py:3080-3088 | a folder in which reconciling `a*.txt` and `ab.txt` leaves the bytes of `ab.txt` at neither of its names |
| LocalFolder.MarkTakesAnotherFile | app/storage.py:3080-3088 | a folder in which `x` takes the claim of `x.cleanup-y` |
| LocalFolder.BracketCompletesTooEarly | app/storage.py:3103-3116 | every file with such a name can be reported as freed while its bytes are under its claim |
| LocalFolder.Folder.RestoreClaimed | app/services/local_files.py:47-65 | links back exactly when the path is free, overwrites nothing, loses no inode |
| LocalFolder.Folder.Reconcile | app/storage.py:3061-3129 | lists by the pattern, requeues exactly when the path or a usable match exists, fails with a surviving match, completes only without one; no inode is lost |
| LocalFolder.Folder.ProcessFreeSpace | app/storage.py:4456-4554 | frees exactly when both catalog rows and the hashed bytes agree in every column the source compares; otherwise the folder is restored, or the bytes stay at the claim beside a newer file |
| EventDomains.NormalizeFacts | app/services/catalog_event_hub.py:24-46 | any payload gives a non-empty list of distinct trimmed names, stable under normalising again |
| EventDomains.NormalizedNames | app/services/catalog_event_hub.py:24-46 | the result is exactly what the payload names: the trimmed, non-blank entries of a list or pieces between commas, of `invalidate` unless it is absent, else of `domains`; and files and stats if it names nothing |
| EventDomains.NormalizedOrder | app/services/catalog_event_hub.py:39-46 | a list keeps the order in which its domains are first named |
| EventDomains.Accumulate | app/services/catalog_event_hub.py:39-46 | the loop keeps first occurrences in order |
| EventDomains.CoalesceFacts | app/services/catalog_event_hub.py:65-88 | merging keeps the newest revision, exactly the union of domains, and a gap if any |
| EventHub.CoalesceSignals | app/services/catalog_event_hub.py:65-88 | the loop computes the merge, or refuses to mix Vaults |
| EventHub.MergePending | app/services/catalog_event_hub.py:99-119 | merging one by one into the waiting signal is merging everything at once |
| EventHub.Subscriber.Offer | app/services/catalog_event_hub.py:99-119 | the queue of an open consumer holds one signal merged from all that wait |
| EventHub.Subscriber.Take | app/services/catalog_event_hub.py:91-97 | what is taken has the newest revision, all domains and all gaps of what waited |
| EventHub.Subscriber.Close | app/services/catalog_event_hub.py:121-128 | what waited is still delivered before the end marker |
| EventJournal.PageIsConsecutive | app/services/catalog_events.py:349-404 | a page is the run of consecutive retained revisions after the cursor |
| EventJournal.ReadFacts | app/services/catalog_events.py:349-404 | a gap is reported exactly when retention swallowed something after the cursor; otherwise the page continues it |
| EventJournal.RecordsKept | app/services/catalog_events.py:206-255 | any mix of appends and prunes keeps a dense record of what was appended |
| EventJournal.EventStore.Append | app/services/catalog_events.py:206-255 | allocates the next revision and records the event under it |
| EventJournal.EventStore.Prune | app/services/catalog_events.py:406-470 | drops exactly the older events behind a durable marker, or refuses |
| EventStream.TickCovers | app/services/catalog_event_stream.py:110-246 | an emitted frame moves the client forward, and whatever happened between the two reads it reports a gap or names exactly the domains that the payloads of the events it moves past invalidate |
| EventStream.ListedDomainsAreCovered | app/services/catalog_events.py:506-512 | every name in the list a writer puts under `invalidate` is in the covering frame, or the frame has a gap |
| EventStream.QuiescentTickCatchesUp | app/services/catalog_event_stream.py:110-246 | one tick on a quiet journal brings a client that is not ahead up to date |
| EventStream.InterleavedReadsObserved | app/services/catalog_event_stream.py:249-358 | every interleaving of appends and prunes with the ticks gives reads the stream's contract covers |
| EventStream.Stream | app/services/catalog_event_stream.py:469-561 | every revision in (resume, last seen] is covered, by its payload, by the frame that stepped over it; frames name nothing else; and their revisions strictly increase |
| LocalCopies.BatchIsFold | app/catalog.py:483-693 | the batched statements equal the per-file observation folded over pairwise distinct paths, and over the last observation of each path in general |
| LocalCopies.BulkIsFold | app/catalog.py:379-481 | one lookup and one insert of the unknown paths hand out the same ids as resolving path after path |
| Observations.FoldIsRowByRow | app/catalog.py:246-373 | after any sequence of observations each row is its own observations folded, every other row is untouched, and a pending deletion stays exactly if it holds no observed file |
| Observations.FingerprintSurvives | app/catalog.py:318-350 | a fingerprint outlives any sequence of observations exactly when every one of them saw the same type, size and time |
| Observations.HoldIsPlaced | app/catalog.py:279-289 | the hold is on the newest recoverable version exactly if the file ever reappeared in the sequence, and otherwise as it was |
| Observations.RowInClosedForm | app/catalog.py:246-373 | every column of a row after any sequence of observations, from the row before and the observations alone |
| Observations.ContentIsDated | app/catalog.py:293-304 | the content is dated by the last observation that changed anything, or as before if none did |
| RepeatedPaths.RepeatedPathAgrees | app/catalog.py:500-512 | for any batch, the batched form equals observing everything in turn exactly when, for every path, a row whose content only the last observation sees again has no fingerprint to lose, a hold placed only on the way is the hold it had, and both forms date the content alike |
| RepeatedPaths.SkippedRow | app/catalog.py:500-512 | exactly when one observation may be skipped before the next, read off the row and the two observations |
| RepeatedPaths.SkippableChainsAgree | app/catalog.py:500-512 | if every repeated observation may be skipped before the next one of its path, the forms agree |
| RepeatedPaths.RepeatedPathDiffers | app/catalog.py:500-512 | a batch with a repeated path that keeps a fingerprint the per-file form drops |
| LocalTables.Tables.ResolveOrCreateFiles | app/catalog.py:379-481 | chunks of two hundred, each a lookup of all its paths and an insert of those not found, resolve as one pass would |
| LocalTables.Tables.ObserveBatch | app/catalog.py:483-693 | identity pass, UPDATE, INSERT and revocation together are the batch function; exactly the pending deletions without an observed file stay |
| ScanJournal.InvHolds | app/storage.py:532-596 | after any committed batches, journal entries are the original rows, journaled rows are stamped, all others are untouched |
| ScanJournal.RollbackIsIdentity | app/storage.py:1394-1497 | batches and published fingerprints followed by rollback restore the paths, and restore a row in all journaled columns exactly when it was journaled or no fingerprint matched it |
| ScanJournal.NewerRowsSurvive | app/storage.py:1394-1497 | in any state, rows without the scan's stamp and identities with a version or job are untouched |
| ScanJournal.AttachedPathsSurvive | app/storage.py:1411-1457 | paths of attached or newer identities keep their file |
| ScanJournal.HoldOutlivesRollback | app/storage.py:546-562 | a scan and rollback that leave a hold behind |
| ScanJournal.FingerprintOutlivesRollback | app/storage.py:1331-1391 | a fingerprint over an unjournaled row that the rollback leaves in place |
| LocalTables.Tables.RecordJournal | app/storage.py:541-562 | each path is journaled once, before it is overwritten |
| LocalTables.Tables.Flush | app/storage.py:532-596 | a batch is journaled, observed and invalidated as the scan's step |
| LocalTables.Tables.PublishFingerprints | app/storage.py:1331-1391 | over each row exactly the first hash computed for its present, regular, unhashed state is published, with size, time, stamp and content date |
| LocalTables.Tables.Rollback | app/storage.py:1394-1497 | the compensation loop is the rollback function |
| CloudHolds.SettledConflicts | app/services/catalog_incidents.py:171-272 | after settling, every copy in scope that was held, present and hashed with another digest than its verified available version has exactly one open conflict, and earlier conflicts are closed exactly if they are in scope and no present copy still holds their version |
| CloudHolds.SettledRow | app/services/catalog_incidents.py:171-272 | a held copy in scope is let go if its version is not recoverable, matched to it if its digest is equal, and otherwise left alone |
| CloudHolds.UnsettledRow | app/services/catalog_incidents.py:171-272 | copies that are not held or not in scope are left alone |
| CloudHolds.SettleIsIdempotent | app/services/catalog_incidents.py:171-272 | settling again, in any row order, changes nothing |
| CloudHolds.SettleKeepsValid | app/services/catalog_incidents.py:119-168 | conflicts stay coherent: one open per version, naming the version's file |
| CloudHolds.StepKeepsValid | app/services/catalog_incidents.py:119-168 | every step keeps holds and conflicts coherent |
| CloudHolds.OnlyThreeCauses | app/catalog.py:279-289 | while the copy stays present, a step clears the hold only by equal digest, loss of the verified available version, or the Owner's confirmation |
| CloudHolds.HoldLastsUntilDecided | app/catalog.py:279-289 | the same over every run |
| CloudHolds.SettlingNeverReplaces | app/services/catalog_incidents.py:210-243 | settling a recoverable version lifts its hold only by matching the copy to that very version |
| CloudHolds.ConfirmFindsContent | app/services/catalog_incidents.py:279-338 | after settling a path, its newest open conflict has content to release |
| HoldTable.Table.OpenConflict | app/services/catalog_incidents.py:119-168 | opens a conflict exactly when the version has none open |
| HoldTable.Table.Settle | app/services/catalog_incidents.py:171-272 | the row loop and the resolving update are the settling function; the counters are the numbers of equal, unprotected and newly conflicting rows |
| HoldTable.Table.ConfirmReplacement | app/services/catalog_incidents.py:279-338 | releases exactly the newest open conflict's content, or changes nothing |
| FileRenames.AllOrNothing | app/catalog.py:1813-2050 | with arbitrary interfering commits, confirmation succeeds exactly when no statement saw a file, path or any compared column of the pair, its archive state or the new path change; otherwise it leaves exactly what others committed |
| FileRenames.RenameEffects | app/catalog.py:1813-2050 | one current path per Vault path, exactly one active file retired, the present copy's fingerprint moved, all else unchanged |
| FileRenames.OthersStayCandidates | app/catalog.py:1426-1503 | confirming one candidate leaves every other one a candidate |
| FileRenames.CandidatesAreDisjoint | app/catalog.py:1426-1503 | different candidates share no file |
| FileRenames.RenameAllEffects | app/storage.py:1992-2002 | renaming the whole list retires exactly the provisional files and keeps one file per path |
| RenameTables.Renames.ListCandidates | app/catalog.py:1426-1503 | lists exactly the pairs of the only missing and the only present unheld file of a digest, observed within an hour, with nothing archived and no job |
| RenameTables.Renames.ConfirmRename | app/catalog.py:1813-2050 | the six guarded statements under a savepoint, with interference |
| RenameTables.Renames.AutoRename | app/storage.py:1992-2002 | confirms every candidate listed at the start |
| CloudScan.MergeClosedForm | app/storage.py:997-1050 | what the merge loop makes of every row, although listed rows may be purged on the way |
| CloudScan.ScanEndState | app/storage.py:963-1094 | listed versions end available with their class; unlisted ones are written off exactly when discovered by then, not checked by this scan and without an upload, as purged or missing under an exact condition; all others are unchanged |
| CloudScan.UninterpretableWritesNothingOff | app/storage.py:1068-1090 | an uninterpretable listing changes no unlisted row |
| CloudScan.OvertakenScanLosesNothing | app/storage.py:997-1000 | a scan overtaken by a newer one marks nothing missing |
| CloudScan.PurgedBehindAStalePath | app/catalog.py:1255-1306 | a version is purged only behind a path whose newest live version left the listing |
| CatalogAudit.AuditAfterScan | app/services/catalog_audit.py:118-163 | after a scan of the same listing an audit finds no drift and nothing uncatalogued, and changes rows exactly when the scan spared a row as too recent |
| CatalogAudit.LatecomerIsMarkedMissing | app/services/catalog_audit.py:122-130 | an available version whose row the scan leaves as it was and the audit of the same listing marks missing |
| CatalogAudit.AuditedCatalog.Audit | app/services/catalog_audit.py:63-196 | what the audit makes of every row, and its counters, in the columns of rows and listing |
| VersionNumbers.NumbersStayDistinct | app/catalog.py:770-785 | version numbers of a file stay pairwise distinct over any sequence of recordings, publications and reconnections |
| VersionNumbers.DiscoveryAndTheLatest | app/catalog.py:775-785 | an unknown discovered version displaces the newest non-purged one exactly when no verified available keeper exists |
| VersionNumbers.FirstPublicationIsOnTop | app/storage.py:3494-3520 | a published version ends strictly on top exactly when it is new, promoted under the guard on its linked, started intent, or there already; so the first publication of a sent intent does |
| VersionNumbers.RepublicationKeepsOrder | app/storage.py:3509-3519 | publishing again moves nothing |
| VersionNumbers.ReconnectedIsOnTop | app/storage.py:1142-1150 | reconnection puts the newest listed version on top |
| VersionTable.Versions.Bounds | app/catalog.py:762-785 | the newest and oldest number of a file and whether it has a keeper |
| VersionTable.Versions.RecordVersion | app/catalog.py:695-826 | refreshes a known version, or records an unverified one under the owner of its path, above all versions of the file, or below them if it was discovered and the file keeps a verified available one; no other row changes |
| VersionTable.Versions.StaleKeepers | app/storage.py:973-990 | exactly the listed paths whose newest live version is not listed under them |
| VersionTable.Versions.ScanCloud | app/storage.py:997-1090 | the scan loop is the scan function, or a prefix of its merge when overtaken |
| VersionTable.Versions.Publish | app/storage.py:3494-3520 | publishes exactly if the path and a known version belong to the intent's file and the version has its snapshot or none and is unverified; then records, pins the snapshot, links the intent and promotes under its guard |
| ExceptionChain.Walk | app/services/database_retry.py:18-30 | yields each reachable exception exactly once on every finite graph, cycles included |
| ExceptionChain.IsRetryable | app/services/database_retry.py:33-37 | true exactly when a reachable error has one of the two retryable codes |
| ExceptionChain.RetryUnit | app/services/database_retry.py:56-77 | at most eight attempts, repeated only after retryable failures, with the last outcome passed on |
| Backoff.CaseEqualsFormula | app/backoff.py:101-159 | the unrolled deadline table equals the capped exponential for every count |
| Backoff.BackoffSchedule | app/backoff.py:61-65 | nothing for four failures, then 30, 60, 120, 240 and 480 seconds, then 900 |
| Backoff.StoredAndDerivedAgree | app/backoff.py:71-78 | a stored deadline equals the one derived from the count |
| Backoff.Store.Guard | app/backoff.py:81-91 | blocks exactly an undecayed row before its stored deadline, or the one derived from five or more failures, with the wait rounded up to seconds |
| Backoff.Store.RecordFailure | app/backoff.py:94-159 | counts one failure, from one again after an hour without any, and stores the formula's deadline, other keys untouched |
| Backoff.FewFailuresAreFree | app/backoff.py:57-88 | fewer than five failures in a row, at whatever times, never block |
| Backoff.FailuresAreSpaced | app/backoff.py:57-88 | in a guarded run without decay the n-th failure comes no earlier than the first plus all backoffs in between |
| Backoff.TotalClosedForm | app/backoff.py:57-68 | the total backoff in closed form from the ninth failure on |

## Left out

- HTTP routes, authentication, sessions, cookies, TLS and DNS handling, metrics, audit log lines, messages and notifications: they carry requests and results and decide nothing about files, versions or jobs.
- Filesystem walking, pinned directory handles, boto3 transfers and hashing: their results are inputs of the steps.
- The statuses a worker writes per action are read off the worker procedures (`WorkerWrites`); the engine has no step for other ones, although `set_job` itself would accept them.
- The administrative branch of `set_job` without a claim token, and progress throttling.
- Directory aggregates, protection states, metadata backups, vault moves and relocation, including their rewriting of holds.
- CleanupNames: `Path.glob` before Python 3.13 refuses a name that contains `**`; in the model, as in the Python of the Dockerfile, it is a run of stars.
- FreeSpace: nobody else creates or deletes names built like claims; an inode's content is fixed, so a program that keeps writing through an already open descriptor after the rehash is not modelled; neither is the HEAD request that precedes the claim, nor the catalog repair after a failed release.
- UploadProtocol: proof checksums, blocked reasons, remediation episodes and the reuse of an earlier version are not modelled; truthfulness of a no-write outcome is an explicit hypothesis where it is needed, and the job lease is not needed at all.
- LocalCopies: creation stamps and recoveries (`recovered_at`), and the replacement of a copy that was just freed.
- CloudHolds: incident timestamps.
- CloudScan: delete markers, missing-version incidents, cleanup offers for extra copies, and the verification that follows a reconnection; keys of directory markers are taken as not listed.
- CatalogAudit: counters of delete markers and incidents.
- FileRenames: digests are compared without regard to letter case in the source and are plain values here.
- EventStream: session checks, heartbeats, the `hello` frame and frame encoding; coverage is stated over `catalog` frames.
- PurgeProgress.NoJobStranded: shows that moves exist against every decision, not that the scheduler is fair; scheduling filters per Vault and the batch limit of one reconciliation sweep are not modelled.
