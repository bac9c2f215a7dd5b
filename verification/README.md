# SmartFS: verified models of the commit protocol and its neighbours

SmartFS is a FUSE file system whose metadata lives in PostgreSQL and whose file
contents live in a blob store. This project models the parts of it whose
correctness rests on invariants that span several files, and proves those
invariants in Dafny 4.11. `dafny verify dfyconfig.toml` checks everything.

## What is modelled

**The two-stage commit.** `release()` stores a provisional blob, makes a marker
durable by rename, publishes a read overlay and returns. A drain turns markers
into one transaction each (dedup and version insert together), reconciles the
provisional blob and unlinks the marker. Two state machines model it:

* `Interleaving`: disk and database, with any number of writers, marker consumers
  (the daemon's drain, the CLI's recovery), cleaner passes and unlinks, each cut
  into its atomic steps, and crashes between any two steps.
* `Pipeline`: the daemon's RAM on top of that (gate counter, channel, inflight set,
  overlay, scanner), with one FUSE writer and the drain as the only consumer.
  Every pipeline step is a step of `Interleaving` or leaves disk and database alone.

`Quiescence`, `Fifo`, `ReadAfterWrite` and `CrashRefinement` prove properties of
runs of the pipeline; `RestartHazard` settles one question about restarts,
`Orphans` one about bytes nothing accounts for, and `Reachability` shows by explicit
runs that the counterexamples start from reachable states. `Database` holds the SQL transactions as functions. `Replay`, `Cleaner`,
`Daemon` and `Filesystem` are the same code in its imperative form (classes whose
methods change fields), each method proved against those functions.
`ReplayRefinement` shows that one call of the commit code, of the cleaner and of
`unlink` is a run of the atomic steps, `DrainRefinement` the same for one turn of
the drain. `QueueNames` covers the printed queue file names that the protocol
modules use as pairs.

**The centroid graph.** `Statistics` (Welford and Chan over the reals), `KMeans`
(2-means for any distance function) and `CentroidGraph` (create, attach, split,
merge, batch) prove, for any distance function, who owns which vector and that the
counts are right, and exactly when the stored mean and m2 agree with a full scan.

**Four smaller algorithms.** `Handles` (descriptor counts, delayed deletion,
buffers), `Delimiters` (the bracket scanner), `TopK` (layered search results) and
`Base32` (CID encoding).

### Modelling choices

* Each SQL transaction, each rename and each store put, get or delete is atomic.
  A failed statement rolls its transaction back.
* Version ids and blob ids are fresh; inode ids are never reused.
* Writers are the `release()` path. FUSE submits are sequential.
* The codec is the identity on contents (stored bytes are the plaintext) and the
  content hash is an arbitrary function `digest`, so nothing rests on hashes being
  collision-free.
* Waiting for a slot is a nondeterministic refusal; I/O failures are parameters of
  the imperative methods and nondeterministic steps of the state machines.
* `start` (list, seed, rebuild, first scan) is one step: nothing reads before it
  returns. The periodic scan is not atomic: listing and each hand-over are steps.
* A restart ends the old daemon's writers, cleaner passes and unlinks; recoveries by
  other processes run on. A crash ends everything.
* Histories (`made`, `acked`, `newly`, `acks`, `done`) record what happened; no step
  reads them except to keep ids fresh.
* Floats are reals; centroid ids are numbered in order of creation; all vectors of
  a model have one dimension. The distance is an arbitrary function.

## Findings

Each of these is proved, with the exact condition where there is one.

1. A private marker whose transaction committed but whose file survived a crash
   cannot be replayed while its blob row exists: `blobs` is keyed by `blob_id`
   (migrations/009_per_inode_dedup.sql:57-73) and the private insert has no conflict
   clause, although crates/smartfs-db/src/replay.rs:35-37 calls the commit safe to
   repeat. `Interleaving.StuckExactlyWhenPrivateRowExists` is the equivalence; one
   write and one crash lead there (`Reachability.StuckMarkerIsReachable`).
2. A restarted daemon seeds its sequence counter from the queue directory alone. If a
   recovery that outlives it holds, in whatever phase, a marker whose name the counter
   can reach again, its unlink can remove a new, acknowledged write with the same
   content. `RestartHazard.RestartLosesWritesIffNameReusable` is the equivalence, for
   any number of recoveries in any reachable state, and the reason why `Interleaving`
   guards `Restart` with `HeldBelow`. Only recoveries that can ever get past their
   transaction count: one whose private marker's row exists gets nowhere while that
   row stands (`RestartHazard.StuckConsumerGetsNowhere`), and a queued stuck private
   marker of the same content keeps every cleaner from that row for good. One write
   and two consumers lead to the hazard (`RestartHazard.HazardIsReachable`).
3. An overlay entry outlives its marker in two ways: `submit` publishes it after its
   withdrawal was due, because a scan handed the marker over between rename and
   publication; or the drain could not read the marker's inode up front and so has
   nothing to withdraw. `Quiescence.EmptyQueueLeavesStrays` says that with an empty
   queue exactly these entries are left, and `TimelyRunsEmptyTheOverlay` that none is
   when neither happens. One write is enough for each
   (`Reachability.StaleViewIsReachable`, `Reachability.OwnerlessViewIsReachable`).
4. A scan between a failed commit and the clearing of the inflight entry passes the
   marker over, so one scan is not always enough. `Quiescence.ScanMissesIffOverlooked`
   is the equivalence; one write leads there (`Reachability.MissedFailureIsReachable`).
5. A commit that fails and is retried by a later scan makes the older content current
   again: `Reachability.RetryRevertsTheFile` is such a run. In general the write
   committed last is current (`CrashRefinement.LastCommittedIsCurrent`).
6. While an overlay entry names a provisional copy that the reconcile has deleted, a
   reader is sent to bytes that are gone, although the content is stored under the
   canonical blob. `ReadAfterWrite.ReadersSeeTheLastWrite` says that this is exactly
   when bytes are missing; two equal writes lead there
   (`Reachability.LostCopyIsReachable`). After finding 3 it can last until a restart.
7. In the model, where each SQL transaction is atomic, `NoDanglingBlob` needs neither
   the cleaner's grace window nor its queue check: a blob row appears only together
   with the version that references it. The source sets no isolation level, so this
   is no argument against either check.
8. `kmeans2` takes small distance for equality: its degenerate split is exact if and
   only if all vectors are equal (`KMeans.HalvesExactIffAllEqual`), while the cosine
   distance of parallel vectors is 0 too. So a split keeps the index exact if and only
   if its members are not degenerate or are all equal
   (`CentroidGraph.Graph.SplitCentroid`), attaching never makes an exact centroid
   inexact nor an inexact one exact, and after a batch the inexact centroids are
   exactly those that were inexact before or are the unequal half of such a split
   (`CentroidGraph.Graph.ConsolidateBatch`); who owns what is right in any case.
9. The scanner takes two slashes, or a slash and a star, for a comment in Python as
   well. If every stretch it skips leaves the stack of open brackets as it was, the
   verdict is right (`Delimiters.NeutralSkipsAreJudgedRight`). With any number of
   stretches of whole tokens, what the scanner accepts is balanced, and what is
   balanced is accepted, if and only if reading all of them leaves the stack as the
   scanner has it (`SkipsAreJudgedRightIffNeutralInAll`): stretches that are not
   neutral may cancel out. Floor division inside brackets is refused.
10. The queue lists any name that parses, not only printed ones.
    `QueueNames.StrayNamesSortRightIff` says which printed numbers such a name is
    sorted on the wrong side of. Only a foreign file could bring one in.
11. When the last close of an unlinked file has a write that cannot be queued,
    `release` returns before it deletes the inode, and the mark is already gone with
    the handle: nothing deletes that inode unless it is unlinked again
    (`Filesystem.Mount.Release`).
12. Comments in crates/smartfs-fuse/src/fs.rs:883-886, crates/smartfs-db/src/replay.rs:198-201
    and crates/smartfs-fuse/src/cleaner.rs:91-94 say that the cleaner reclaims stored
    bytes without a row. It proposes rows of `blobs` only
    (crates/smartfs-db/src/blobs.rs:196-222), so it never does.
    `Orphans.OrphansAreAbandoned` says which steps produce such bytes: a refused or
    crashed submit, a checkpoint without a row (a deleted inode, or a copy whose
    deletion failed), a cleaner between row and bytes, a late heal. Once nobody has
    them in hand they stay (`Orphans.ForgottenForGood`), in particular after a refused
    submit and after a crash (`RefusedBytesStay`, `CrashedBytesStay`).

## Model

| member | source | states |
|---|---|---|
| Database.TxShape | crates/smartfs-db/src/replay.rs:64-114 | Everything the drain's transaction can change: a fresh version adds one version row with the marker's fields and at most one blob row; otherwise the database is unchanged |
| Database.ReplayIsNoOpUnlessPrivate | crates/smartfs-db/src/replay.rs:35-37 | Replaying a committed marker changes nothing, and fails exactly for a private marker |
| Database.ChainedTx | crates/smartfs-db/src/versions.rs:141-257 | The commit transaction keeps every inode's version chain and its current blob and size |
| Database.VersionNumbersAreOneToN | crates/smartfs-db/src/versions.rs:162-182 | In a chained table an inode's version numbers are exactly 1..n, one row each |
| Interleaving.StepKeeps | crates/smartfs-db/src/replay.rs:43-240 | Any atomic step of any writer, consumer, cleaner, unlink or crash keeps the protocol's invariant |
| Interleaving.NoDanglingBlob | crates/smartfs-db/src/replay.rs:202-240 | In every interleaving each committed version's blob has its bytes, they hash to the version's content, its blob row records that hash, and every shared blob row has its bytes |
| Interleaving.AcknowledgedWritesSurvive | crates/smartfs-fuse/src/pending.rs:439-483 | After the marker is durable the write is, in every later state, queued or committed with its version id, hash and size, unless its inode is gone |
| Interleaving.VersionChain | crates/smartfs-db/src/versions.rs:128-268 | In every reachable state numbers are 1..n, parents are predecessors and the inode shows version n |
| Interleaving.AtMostOneFreshInsert | crates/smartfs-db/src/replay.rs:134-149 | However many consumers race, a version is reported as newly inserted at most once |
| Interleaving.CheckpointIsFinal | crates/smartfs-db/src/replay.rs:133-135 | A checkpointed marker never returns to the queue, and the loser's unlink removes nothing else |
| Interleaving.StuckExactlyWhenPrivateRowExists | crates/smartfs-db/src/blobs.rs:291-305 | A queued marker cannot be committed if and only if it is private and its blob row exists |
| RestartHazard.RestartLosesWritesIffNameReusable | crates/smartfs-fuse/src/pending.rs:316-358 | In every reachable state, after a restart beside any number of running recoveries in any phase, an acknowledged write can be lost if and only if one of them holds a name the new counter can reach and can get past its transaction |
| RestartHazard.StuckConsumerGetsNowhere | crates/smartfs-db/src/blobs.rs:299-305 | A recovery holding a private marker whose blob row exists neither commits nor checkpoints until a cleaner deletes that row |
| RestartHazard.HazardIsReachable | crates/smartfs-fuse/src/pending.rs:316-358 | One write and two consumers lead from the initial state to an empty queue whose seeded counter is below a name still held |
| Orphans.OrphansAreAbandoned | crates/smartfs-fuse/src/fs.rs:878-929 | In every reachable state a stored blob has neither row, queued marker nor writer if and only if a step of the run let go of it and none has deleted it since |
| Orphans.ForgottenForGood | crates/smartfs-db/src/blobs.rs:196-222 | Such bytes stay in every later state, cleaner passes or not, once no consumer, cleaner or unlink has them in hand |
| Orphans.RefusedBytesStay | crates/smartfs-fuse/src/pending.rs:439-457 | The bytes of a refused submit are never reclaimed |
| Orphans.CrashedBytesStay | crates/smartfs-fuse/src/cleaner.rs:62-113 | Orphans and the bytes of unfinished submits survive a crash and everything after it |
| Pipeline.RefinesStep | crates/smartfs-fuse/src/pending.rs:439-661 | Every pipeline step moves disk and database by one step of module Interleaving or not at all |
| Pipeline.GateCountsOutstanding | crates/smartfs-fuse/src/pending.rs:210-267 | In every interleaving the gate equals queued markers plus the admitted writer plus the checkpoint in progress, and never exceeds the limit or the last start's backlog |
| Quiescence.RescanThenDrainEmptiesEverything | crates/smartfs-fuse/src/pending.rs:551-661 | From any reachable state with no submit in progress that is not overlooked, one rescan and an error-free drain, interleaved in any way, end with queue and inflight set empty and the gate at 0, and the overlay shows exactly the inodes gone astray |
| Quiescence.ScanMissesIffOverlooked | crates/smartfs-fuse/src/pending.rs:551-659 | If the other markers can be committed, some error-free drain after a scan leaves a marker queued if and only if the scan came while that marker's failure was being recorded |
| Quiescence.RescanMissesAFailureBeingRecorded | crates/smartfs-fuse/src/pending.rs:630-659 | Counterexample: a scan during a failure leaves the marker queued after draining |
| Quiescence.EmptyQueueLeavesStrays | crates/smartfs-fuse/src/pending.rs:164-194 | In every run, once the queue is empty and nothing awaits withdrawal, the overlay keeps exactly the entries published after their withdrawal was due or checkpointed without a known inode |
| Quiescence.TimelyRunsEmptyTheOverlay | crates/smartfs-fuse/src/pending.rs:452-469 | If every publication is in time and every owner is read, an empty queue means an empty overlay, commits failing or not |
| Quiescence.PublishAfterDrainLeavesStaleView | crates/smartfs-fuse/src/pending.rs:452-469 | Counterexample: publishing after the drain has finished leaves an overlay entry for good |
| Quiescence.AdvanceShrinksWork | crates/smartfs-fuse/src/pending.rs:610-661 | Scanning and draining steps strictly shrink the work left, so draining ends |
| Quiescence.DrainCannotStall | crates/smartfs-fuse/src/pending.rs:610-661 | Until everything is quiet some step is possible, except for a marker whose transaction cannot succeed |
| Reachability.MissedFailureIsReachable | crates/smartfs-fuse/src/pending.rs:630-659 | From a fresh file system, one write whose commit fails during a scan ends with everything drained and the marker still queued |
| Reachability.StaleViewIsReachable | crates/smartfs-fuse/src/pending.rs:452-469 | From a fresh file system, one write scanned before its publication ends with an empty queue and an overlay entry for good |
| Reachability.OwnerlessViewIsReachable | crates/smartfs-fuse/src/pending.rs:622-641 | From a fresh file system, one write whose inode the drain cannot read up front ends with everything drained and its overlay entry left |
| Reachability.RetryRevertsTheFile | crates/smartfs-fuse/src/pending.rs:648-657 | From a fresh file system, a failed commit retried by a scan after its successor ends with the file showing the write acknowledged first |
| Reachability.LostCopyIsReachable | crates/smartfs-db/src/replay.rs:211-218 | From a fresh file system, two equal writes lead to a reader who is sent to deleted bytes |
| Reachability.StuckMarkerIsReachable | crates/smartfs-db/src/blobs.rs:299-305 | One private write and one crash lead to a queued marker that is committed and can no longer be replayed |
| Fifo.ListedIsSuffix | crates/smartfs-store/src/pending.rs:123-141 | The directory listing is the acknowledged, uncheckpointed writes, oldest first |
| Fifo.VersionNumbersFollowWriteOrder | crates/smartfs-fuse/src/pending.rs:545-550 | Without failed commits version numbers follow acknowledgement order across restarts, the queue is the uncheckpointed suffix, and what is checkpointed is committed |
| ReadAfterWrite.RebuildLast | crates/smartfs-fuse/src/pending.rs:517-537 | Rebuilding the overlay shows each inode's newest queued write and no other inode |
| ReadAfterWrite.WithdrawnIsDecided | crates/smartfs-fuse/src/pending.rs:183-189 | An entry withdrawn by a marker's name shows a committed write, never a newer one |
| ReadAfterWrite.ReadersSeeTheLastWrite | crates/smartfs-fuse/src/fs.rs:94-117 | In every reachable state, restarts included, a reader resolves the size and content of the last acknowledged write; bytes are missing if and only if the drain has deleted the copy the overlay still names, and then the content is stored under the canonical blob |
| CrashRefinement.CrashesLeaveWhatOnePassWould | crates/smartfs-fuse/src/pending.rs:306-373 | With any number of crashes the database is that of one crash-free pass over a prefix of the acknowledged writes, and over all of them once the queue is empty |
| CrashRefinement.LastCommittedIsCurrent | crates/smartfs-db/src/versions.rs:244-257 | After a pass in any order each inode shows the write committed last |
| CrashRefinement.RetryAfterSuccessorRevertsTheFile | crates/smartfs-fuse/src/pending.rs:648-657 | Of two writes to one file, the order of their commits decides which one it shows |
| Replay.Disk.SelectLatest | crates/smartfs-db/src/versions.rs:171-182 | Returns the row with the inode's highest version number |
| Replay.Disk.CowCommitTx | crates/smartfs-db/src/versions.rs:128-268 | Leaves the tables and outcome the transaction function prescribes, in every branch |
| Replay.Disk.InsertBlobTx | crates/smartfs-db/src/blobs.rs:282-333 | Inserts or finds the canonical blob, or fails on the primary key |
| Replay.Disk.ReconcileProvisionalBlob | crates/smartfs-db/src/replay.rs:202-240 | Discards, heals or keeps the provisional copy for every combination of store failures |
| Replay.Disk.CommitPendingMarker | crates/smartfs-db/src/replay.rs:43-149 | The whole call, each failure point included, leaves the specified queue, store, tables and outcome |
| Replay.Disk.ReplayPendingQueue | crates/smartfs-db/src/replay.rs:157-180 | The pass leaves the fold of the calls and a report that counts their outcomes |
| Replay.RecoveryPassIsCommitAll | crates/smartfs-db/src/replay.rs:151-180 | A pass in which nothing fails commits the markers in listing order, removes exactly the committed ones and counts each once |
| Replay.RecoveryEmptiesTheQueue | crates/smartfs-db/src/replay.rs:151-180 | If every marker can be committed in its turn, nothing fails and the queue ends empty |
| ReplayRefinement.CommitIsARun | crates/smartfs-db/src/replay.rs:43-149 | One call, whatever fails inside, is a run of atomic steps ending in the specified snapshot |
| ReplayRefinement.CommitKeepsInv | crates/smartfs-db/src/replay.rs:43-149 | So the call keeps the invariant of all interleavings |
| ReplayRefinement.CleaningIsARun | crates/smartfs-fuse/src/cleaner.rs:64-110 | One cleaner pass, deletions failing or not, is a run of atomic steps ending in the specified snapshot |
| Filesystem.UnlinkIsARun | crates/smartfs-fuse/src/fs.rs:1112-1142 | One unlink that deletes at once is a run of atomic steps ending in the specified tables and store |
| DrainRefinement.DrainTurnIsARun | crates/smartfs-fuse/src/pending.rs:619-659 | One turn of the drain, whatever fails in it, is a run of the pipeline that leaves disk, channel, inflight set, overlay and gate as the code does |
| Cleaner.DeleteBlobIfUnreferenced | crates/smartfs-db/src/blobs.rs:228-243 | Removes the row exactly when it exists and no version has its content hash |
| Cleaner.CleanOnce | crates/smartfs-fuse/src/cleaner.rs:64-110 | The pass leaves the specified tables, store and report |
| Cleaner.CleaningTouchesOnlyGarbage | crates/smartfs-fuse/src/cleaner.rs:92-107 | Only proposed, unreferenced blobs lose row or bytes, nothing else changes, and every candidate is counted once |
| Cleaner.CleaningReclaims | crates/smartfs-fuse/src/cleaner.rs:86-107 | Every proposed, unreferenced, unprotected blob loses row and bytes if nothing fails |
| Daemon.Gate.TryAdmit | crates/smartfs-fuse/src/pending.rs:225-231 | Takes a slot if and only if one is free |
| Daemon.PendingOverlay.Withdraw | crates/smartfs-fuse/src/pending.rs:183-189 | Removes the entry only if it stems from that marker; entries of other markers stay |
| Daemon.PendingPipeline.constructor | crates/smartfs-fuse/src/pending.rs:306-373 | Starting seeds the counter above the queue, the gate with the backlog, the overlay from the markers, and hands every marker to the drain |
| Daemon.PendingPipeline.Submit | crates/smartfs-fuse/src/pending.rs:439-483 | A refusal changes nothing; acceptance queues, publishes and hands over the marker; the gate stays exact |
| Daemon.PendingPipeline.RebuildOverlay | crates/smartfs-fuse/src/pending.rs:517-537 | The overlay becomes the rebuild of the listed markers |
| Daemon.PendingPipeline.Rescan | crates/smartfs-fuse/src/pending.rs:551-566 | Appends the listed names that were not inflight and returns how many |
| Daemon.FreshIs | crates/smartfs-fuse/src/pending.rs:553-557 | Those names are exactly the listed, not inflight ones, each once |
| Daemon.PendingPipeline.DrainOne | crates/smartfs-fuse/src/pending.rs:619-659 | One turn commits one name, clears its inflight entry, and withdraws and releases only on a checkpoint; the gate stays exact |
| Filesystem.LoadReturnsTheLastWrite | crates/smartfs-fuse/src/fs.rs:94-117 | In a steady run a reader is given content with the hash of the last acknowledged write, and is told the bytes are missing exactly while the overlay names a deleted copy |
| Filesystem.Mount.QueueWrite | crates/smartfs-fuse/src/fs.rs:842-960 | An accepted write is queued, stored and readable at once, and accepted exactly if nothing fails and the gate has a slot; errors before the rename leave queue and overlay alone, a stopped drain leaves the marker queued and published |
| Filesystem.Mount.Release | crates/smartfs-fuse/src/fs.rs:829-971 | Closes the handle first; the deferred deletion happens exactly at a marked inode's last close if no error reply came first, and the mark is gone either way |
| Filesystem.Mount.Unlink | crates/smartfs-fuse/src/fs.rs:1084-1148 | Deletes the inode and then its private blob exactly when no handle is open and the row's deletion succeeds; an open file is only marked |
| Filesystem.SubmitIsFourSteps | crates/smartfs-fuse/src/pending.rs:439-483 | An undisturbed submit is admit, enqueue, publish and send |
| QueueNames.PrintedNamesParse | crates/smartfs-schema/src/pending.rs:120-136 | Parsing a printed name returns its parts for every u64 and 64-hex-digit hash |
| QueueNames.NameOrderIsNumericOrder | crates/smartfs-schema/src/pending.rs:117-122 | Byte order of printed names is numeric order |
| QueueNames.PendingQueue.List | crates/smartfs-store/src/pending.rs:123-141 | Every parseable name, and nothing else, in byte order |
| QueueNames.ReadFindsTheMarker | crates/smartfs-store/src/pending.rs:147-159 | Reading a printed name finds the marker queued under it, or that none is |
| QueueNames.RemoveTakesOnlyItsMarker | crates/smartfs-store/src/pending.rs:166-172 | Removing a printed name takes that marker from the queue and no other, whether or not it was there |
| QueueNames.ListingIsFifo | crates/smartfs-store/src/pending.rs:116-141 | The sorted listing is the protocol's FIFO listing of the queue |
| QueueNames.StartSeedsAboveTheQueue | crates/smartfs-fuse/src/pending.rs:316-320 | One more than the last listed number is above every queued marker |
| QueueNames.EnqueueOverwritesNothing | crates/smartfs-store/src/pending.rs:84-114 | A marker numbered above the queue takes an unused name |
| QueueNames.StrayNamesParse | crates/smartfs-schema/src/pending.rs:129-136 | Digits of any number, with or without a plus sign, parse to their value |
| QueueNames.StrayNamesSortRightIff | crates/smartfs-store/src/pending.rs:123-141 | A parseable name stands on the right side of a printed one unless it is misplaced: by a plus sign, by missing digits, or by leading zeros beyond twenty |
| QueueNames.UnpaddedNameBreaksFifo | crates/smartfs-schema/src/pending.rs:129-136 | Counterexample: a parseable but unprinted name is listed out of order |
| Statistics.WelfordUpdate | crates/smartfs-semantic/src/kmeans.rs:44-55 | The in-place loop computes the update, for unequal lengths too |
| Statistics.WelfordKeepsExact | crates/smartfs-semantic/src/kmeans.rs:44-55 | The update takes exact statistics to exact statistics |
| Statistics.WelfordLeavesInexact | crates/smartfs-semantic/src/kmeans.rs:44-55 | And it takes only exact statistics to exact statistics |
| Statistics.FoldingIsExact | crates/smartfs-semantic/src/kmeans.rs:44-55 | Folding it from the first point gives the exact mean and m2 of every sequence |
| Statistics.CombineCentroids | crates/smartfs-semantic/src/kmeans.rs:277-340 | The loop computes the combination in all four branches; only the last one reads the second mean |
| Statistics.CombineIsExact | crates/smartfs-semantic/src/kmeans.rs:277-340 | Combining exact statistics gives the exact statistics of the union, however it is listed |
| Statistics.CombineOfFolds | crates/smartfs-semantic/src/kmeans.rs:270-340 | Combining the statistics of A and of B equals those of A followed by B |
| Statistics.ExactIsUnique | crates/smartfs-semantic/src/kmeans.rs:44-55 | Exact statistics of given points are unique |
| Statistics.RecombiningASplit | crates/smartfs-semantic/src/kmeans.rs:234-340 | Combining the halves of any exact split gives back the parent |
| Statistics.VarianceIsSampleVariance | crates/smartfs-semantic/src/kmeans.rs:59-65 | The variance is the sample variance and never negative |
| KMeans.Assign | crates/smartfs-semantic/src/kmeans.rs:142-194 | After each assignment pass both clusters are non-empty and every member is with its nearer mean, except one moved into a cluster that was empty |
| KMeans.FarthestPair | crates/smartfs-semantic/src/kmeans.rs:102-116 | The starting pair attains the largest pairwise distance, and it is small exactly in the degenerate case |
| KMeans.Farthest | crates/smartfs-semantic/src/kmeans.rs:166-189 | No member with a distance above -1 is farther than the one returned |
| KMeans.Average | crates/smartfs-semantic/src/kmeans.rs:201-230 | The recomputed mean is the average of its side |
| KMeans.BuildCluster | crates/smartfs-semantic/src/kmeans.rs:234-263 | The final cluster lists its side and its statistics are exact |
| KMeans.Kmeans2 | crates/smartfs-semantic/src/kmeans.rs:86-269 | Errors exactly for too few members or unequal dimensions; otherwise non-empty clusters that partition the ids, exact outside the degenerate case |
| KMeans.HalvesExactIffAllEqual | crates/smartfs-semantic/src/kmeans.rs:118-139 | The degenerate split is exact if and only if all vectors are equal |
| KMeans.HalfExactIffEqual | crates/smartfs-semantic/src/kmeans.rs:118-139 | One half of the degenerate split is exact if and only if all its vectors equal the first of all |
| CentroidGraph.Graph.NearestCentroid | crates/smartfs-semantic/src/consolidation.rs:109-174 | An active centroid no other is nearer than, or none if there is none |
| CentroidGraph.Graph.CreateCentroidFrom | crates/smartfs-semantic/src/consolidation.rs:178-258 | Adds one centroid with the vector as its only member and exact statistics, keeps the invariant, and leaves the set of inexact centroids as it was |
| CentroidGraph.Graph.AttachToCentroid | crates/smartfs-semantic/src/consolidation.rs:262-339 | Attaching keeps the invariant for any distance, consolidates the vector, and splits exactly when variance or size is past its limit; the inexact centroids are afterwards exactly the active ones among those before and the unequal halves of a degenerate split |
| CentroidGraph.Graph.SplitCentroid | crates/smartfs-semantic/src/consolidation.rs:377-541 | The parent becomes inactive, two active centroids take over, the invariant holds for any distance; of the new ones exactly the unequal halves of a degenerate split are inexact, so exact statistics stay exact if and only if the members were not degenerate or all equal |
| CentroidGraph.Graph.MergePair | crates/smartfs-semantic/src/consolidation.rs:644-738 | Both sources become inactive and point to the new centroid, which owns all members; exact statistics stay exact |
| CentroidGraph.Graph.MergeCentroids | crates/smartfs-semantic/src/consolidation.rs:601-742 | The pass with its set of merged ids keeps the invariant and exact statistics, and counts the merges |
| CentroidGraph.Graph.ConsolidateBatch | crates/smartfs-semantic/src/consolidation.rs:744-783 | The batch is consolidated, no other vector is, the invariant holds for any distance, and the centroids inexact at the end are exactly the active ones that were inexact before or are the unequal half of a degenerate split |
| CentroidGraph.EveryVectorHasOneActiveCentroid | crates/smartfs-semantic/src/consolidation.rs:178-783 | A consolidated vector has exactly one member row, in an active centroid; inactive centroids have none |
| CentroidGraph.IndexAgreesWithScan | crates/smartfs-semantic/src/consolidation.rs:262-300 | The count of an active centroid equals that of a scan of its member rows in any order; its mean and m2 are those of the scan if and only if it is not one of the inexact ones |
| CentroidGraph.MergeChainEnds | crates/smartfs-semantic/src/consolidation.rs:715-738 | Every merged_into chain is finite and ends at a centroid that was never merged |
| Delimiters.MachineDecidesGrammar | crates/smartfs-fuse/src/syntax.rs:138-201 | The stack machine accepts exactly the well-nested bracket sequences |
| Delimiters.ValidateBalancedDelimiters | crates/smartfs-fuse/src/syntax.rs:43-202 | Ok if and only if every comment and string is closed and the delimiters outside them are well nested |
| Delimiters.NeutralSkipsAreJudgedRight | crates/smartfs-fuse/src/syntax.rs:66-100 | Python code whose skipped stretches hold whole tokens and leave the bracket stack as it was, above all code without slash pairs, is accepted if and only if it is balanced with slashes as operators |
| Delimiters.SkipsAreJudgedRightIffNeutralInAll | crates/smartfs-fuse/src/syntax.rs:66-100 | With any number of skipped stretches of whole tokens, accepted code is balanced and balanced code is accepted if and only if, behind the last one, reading them all has left the bracket stack as the scanner has it |
| Delimiters.FloorDivisionIsRefused | crates/smartfs-fuse/src/syntax.rs:66-72 | Counterexample: balanced floor division inside brackets is refused |
| Handles.BufferIsFile | crates/smartfs-fuse/src/state.rs:248-282 | A buffer refines a file of zero-defaulted bytes under write and truncate |
| Handles.WritesCompose | crates/smartfs-fuse/src/state.rs:248-265 | Disjoint writes commute and a later write hides an earlier one |
| Handles.FuseStateManager.AllocateFh | crates/smartfs-fuse/src/state.rs:161-197 | A new handle, its inode counted once more |
| Handles.FuseStateManager.WriteToHandle | crates/smartfs-fuse/src/state.rs:248-265 | Refused exactly for an unknown handle or past 2 GiB, and then unchanged; else the written buffer |
| Handles.FuseStateManager.TruncateHandle | crates/smartfs-fuse/src/state.rs:269-282 | Refused exactly past 2 GiB or for an unknown handle, and then unchanged; else the cut buffer |
| Handles.FuseStateManager.TruncateInodeHandles | crates/smartfs-fuse/src/state.rs:286-295 | Every handle of the inode is cut, no other changes |
| Handles.FuseStateManager.CloseHandle | crates/smartfs-fuse/src/state.rs:360-382 | Removes the handle, uncounts it, and signals deletion exactly at a marked inode's last close |
| Handles.FuseStateManager.MarkForDeletion | crates/smartfs-fuse/src/state.rs:387-397 | Deletion at once if and only if no handle is open, else the mark |
| Handles.CountIsLiveHandles | crates/smartfs-fuse/src/state.rs:161-382 | Over every run an inode's count is the number of its live handles |
| Handles.EachDeferralSignalsOnce | crates/smartfs-fuse/src/state.rs:360-397 | Signals so far, plus a pending mark, are the deferred unlinks so far |
| Handles.SignalIsLastClose | crates/smartfs-fuse/src/state.rs:360-382 | The signal comes with the close of the last handle |
| TopK.MergeBySimilarity | crates/smartfs-semantic/src/search.rs:271-297 | Sorted, one hit an id at its smallest distance, as many as the limit allows, no omitted id closer than a kept one |
| TopK.DistancesAreDetermined | crates/smartfs-semantic/src/search.rs:287-296 | The distances do not depend on the hash map's order |
| TopK.CuttingLayersLosesNothing | crates/smartfs-semantic/src/search.rs:98-108 | Cutting each layer to the limit before merging gives the same distances as merging the full layers |
| TopK.SearchByConcept | crates/smartfs-semantic/src/search.rs:98-108 | The search over cut layers returns the distances of the full merge |
| Base32.EncodeBase32Multibase | crates/smartfs-ipfs/src/cid.rs:10-33 | The loop emits the 5-bit groups of the input's bits, the last one zero-padded, although high bits of the buffer are lost |
| Base32.EncodedLength | crates/smartfs-ipfs/src/cid.rs:11 | The length is 1 plus a fifth of the bits, rounded up |
| Base32.DecodeEncode | crates/smartfs-ipfs/src/cid.rs:10-33 | Decoding gives back every byte string |
| Base32.EncodingIsInjective | crates/smartfs-ipfs/src/cid.rs:10-33 | No two byte strings share an encoding |
| Base32.ComputeCidFromDigest | crates/smartfs-ipfs/src/cid.rs:38-53 | A CID exactly below 256 KB, starting with bafkrei, from which the digest can be read back |

## Left out

- The `setattr`, `symlink`, CLI `write` and `import`, and MCP `overwrite_file` write paths: they insert the blob row before the bytes exist, and the invariants are not claimed for them.
- Version rows' AST nodes, compressed sizes, external paths and special data: carried along, never decided on.
- The grace window of the cleaner and the batch limit of its query: any proposal of unreferenced rows is allowed, which covers both.
- Private blob rows can outlive their bytes after an unlink: only shared rows are claimed to have bytes, and every committed version.
- Interleaving.StepKeeps: a daemon restart beside a running recovery is allowed only when the recovery holds no reusable name; RestartHazard shows that this is necessary.
- ReadAfterWrite.ReadersSeeTheLastWrite: for runs in which no commit fails and no scan hands over a marker between its rename and its publication; findings 3 and 5 are what happens otherwise.
- Delimiters.SkipsAreJudgedRightIffNeutralInAll: for skipped stretches that hold whole tokens; one that cuts a string or a name in two is not covered. Python's triple-quoted strings are not part of either lexer.
- Filesystem.Mount.Release: which handles and inodes exist comes from the handle manager; directories, name lookups and errno values are not part of this model.
- Several FUSE writers at once: the pipeline model has one, as the FUSE session dispatches requests one after the other; module Interleaving has any number.
- The CLI's recovery as a second consumer beside a running daemon: the gate and overlay results are for the drain as the only consumer, since nothing but the drain gives slots back.
- Timeouts, `Notify`, tokio scheduling, connection pools: waiting is a nondeterministic refusal and tasks interleave freely.
- zstd, SHA-256, JSON and UUID generation: an identity codec, an arbitrary hash function and fresh ids.
- `ast_nodes` of a marker that cannot be parsed: one of the causes of the modelled read failure.
- Sequence numbers at the end of the u64 range: counters are unbounded, file names are exact up to 2^64.
- Handles.FuseStateManager.TruncateInodeHandles: the 2 GiB limit is not checked there, as in the source.
- Locks taken one after the other inside one handle-manager call: each call is one step.
- Cosine distance, square roots and floating-point rounding: distances are an arbitrary function; member distances are not claimed.
- CentroidGraph.Graph.MergeCentroids: takes the rows its query returned as a parameter, with the statistics the query read.
- CentroidGraph.Graph.ConsolidateBatch: takes the claimed batch as a parameter; advisory locks and row locks are not part of the model.
- Line and column numbers in the scanner's messages.
- The approximate ten-centroid routing of `search_via_centroids`, full-text search, embeddings, lexical import and IPFS HTTP.
- `compute_cid` from a hex string: it decodes the digest and calls the modelled function.
