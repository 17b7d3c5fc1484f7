# ProxBack in Dafny

A model of the parts of ProxBack, a deduplicating backup server, that decide
whether a backup can be restored: the parallel upload pipeline, the chunk store
with its index and garbage collection, grandfather-father-son retention, the
random-access reader, the scheduler's concurrency gate, the agent run protocol,
schedules, timestamps, exclusion patterns and the filesystem target.  Each part
is modelled in the form it has in the program.  Objects that change in place are
classes whose methods are proved against a function of the old state; loops are
loops with invariants; goroutines that share state are a step system in which a
step is one critical section or one call to a store, and theorems quantify over
every interleaving, every fault and every cancellation.

`dafny verify dfyconfig.toml` checks the project.

## How it is laid out

| files | what they hold |
|---|---|
| `Base`, `Text`, `Calendar` | options, byte strings, text order and digits, the proleptic Gregorian calendar and ISO weeks |
| `ChunkFormat` | hash, compression and the stored form of a chunk; cutting a stream |
| `Pipeline`, `PipelineSafety`, `PipelineCoalescing`, `PipelineAccounting`, `PipelineTheorems`, `PipelineOutcome`, `PipelineLiveness`, `PipelineCode` | the backup pipeline as a step system, its invariants, its theorems, its index and result, its sequential pieces |
| `Target`, `TargetCode`, `Repository`, `Resume`, `Backup` | objects, index, manifests, collection and restore; the machine of runs, prunes and collections; storing and collecting by turns; pipeline runs on a target |
| `Retention`, `RetentionCode`, `Catalog` | what a policy keeps, the loops that compute it, pruning a source |
| `StreamReader`, `Gate` | the random-access reader; the resizable gate |
| `Agents`, `AgentProtocol`, `AgentSafety`, `AgentDelivery` | the agent manager's tables, the run protocol, its invariants, what reaches whom |
| `ScheduleText`, `Firing`, `NextRun` | schedules as cron text, what cron text means, the next run |
| `Timestamps`, `OldTimestamps`, `Glob` | fixed-width timestamps; those earlier releases wrote; exclusion patterns |
| `FileKeys`, `FileDisk`, `FileSafety`, `FileStore` | keys and paths, the crash-step machine, its theorems, the target's operations |

## What is assumed of the surroundings

SHA-256, zstd and JSON are parameters with the laws the theorems need: the hash
is injective on the contents in play (`ChunkFormat.CollisionFree`), decompressing
a compressed chunk gives it back (`ChunkFormat.Lawful`), a manifest decodes to
what was encoded (`Target.LawfulEnv`).  Clocks, random names and the outcome of a
call that can fail are parameters or non-deterministic choices; where a method
takes `works`, its contract also says what it does when no call fails.  The cron
library is not part of the repository: its rule for the two day fields and its
search up to the end of the fifth year are those of robfig/cron version 3.

## Where the program does not keep a promise

Each of these is a lemma with the input that shows it, beside the theorem that
says exactly when the promise is kept.

- A caller that cancels after the last read gets a manifest without the trailing
  chunks and no error (`PipelineTheorems.LateCancelTruncates`).  A worker lets a
  chunk go when it finds the context cancelled.  A call that meets no failed call
  and no failed read returns the chunks before those let go when these are the
  stream's last ones, and otherwise reports the first of them
  (`PipelineTheorems.ResultIsExact`); the manifest is the whole stream if and only
  if none was let go, and none is while the caller is there
  (`PipelineTheorems.BackupStreamDelivers`).
- A chunk stored verbatim that begins with `PBZ1` and goes on with a decodable
  frame does not read back (`ChunkFormat.MasqueradingChunkDecodesWrongly`); every
  other chunk does (`ChunkFormat.StoredDecodesIff`), and a read that fails says so
  instead of returning other bytes (`Resume.UploadedChunkReadsBackIff`).
- Garbage collection deletes an object and then its row.  If the second call fails
  the row is stale and hides the missing chunk until the next pass
  (`Resume.TornDeleteHidesAChunk`).  A failed pass leaves that one stale row and no
  other (`Resume.FailedPassLeavesOneStaleRow`); a chunk reported stored is there if
  and only if its row was not stale (`Resume.StoredUnlessStale`, and for every
  interleaving of a backup `PipelineTheorems.ManifestIsAPrefix`); and a stream
  backed up restores if and only if none of its chunks had a stale row
  (`Backup.BackupThenRestore`).
- A chunk that an interrupted run merely found on the target does not get its index
  row renewed: it outlives collections if and only if it would have without the run
  (`Resume.FoundChunkIsNotRenewed`), by a manifest or by its age
  (`Resume.SurvivesIffProtected`).  A rerun uploads no more than was missing if and
  only if what was there stayed protected (`Backup.RerunUploadsTheRest`); chunks
  the run uploaded are, for the grace window (`Resume.FreshUploadIsProtected`).
- A manifest entry of size zero over a chunk that is not empty is written by a
  restore and passed over by random access (`StreamReader.ZeroSizeEntryReadsShort`);
  the two agree on a disk if and only if it has no such entry
  (`StreamReader.ReadsWhatRestoresIff`), and no backup run writes one
  (`StreamReader.BackedUpStreamReads`).
- The comment at internal/store/schedule.go:398-403 says that no job's timing
  changes across the upgrade.  A legacy day of the month 31 or 28-31 does change,
  into the last day of every month, and nothing else does
  (`NextRun.MigrationKeepsTimingIff`).
- The comment at internal/store/schedule.go:149-150 says an empty kind becomes
  `manual`.  A kind of nothing but white space is emptied after that test and only
  becomes `manual` when tidied again; every other schedule is tidied once and for
  all (`ScheduleText.NormalizedTwiceIff`).
- Past year 9999 text order is not time order
  (`Timestamps.YearTenThousandSortsFirst`); for years 0 to 9999 it is
  (`Timestamps.TextOrderIsTimeOrder`).
- A key whose last segment begins with `.proxback-probe-` is accepted and readable
  but never listed (`FileKeys.WalkListsExactly`).  The comment at
  internal/blobstore/filesystem.go:171-176 says a stray temporary file is cleaned
  up on the next attempt; no code does that, and the model does not either.

One hazard is no broken promise: `ShouldRun` looks at the kind as written while
`Cron` tidies it first, so a last-day schedule whose kind reads `monthly` only
after tidying would run on each of the last four days of January
(`NextRun.UntidyLastDayRunsFourTimes`).  Every way a schedule enters the program
tidies its kind, and one written `monthly` runs once a month
(`NextRun.LastDayRunsOncePerMonth`).

## Model

| member | source | states |
|---|---|---|
| `ChunkFormat.StoredDecodesIff` | internal/engine/compress.go:81-114 | a chunk's stored form decodes to the chunk exactly when it was compressed and a decoder is there, or was stored verbatim and is not the magic followed by a frame of something else; it is never longer than the chunk and never empty unless the chunk is |
| `ChunkFormat.StoredIsTheShorter` | internal/engine/compress.go:81-94 | the stored form is the magic and a frame or the raw bytes, whichever is shorter, where compression is on and available, and the raw bytes elsewhere |
| `ChunkFormat.MasqueradingChunkDecodesWrongly` | internal/engine/compress.go:101-114 | a verbatim chunk that is the magic and a decodable frame decodes to the frame's contents, not to itself |
| `ChunkFormat.LawfulCodecsHaveSuchChunks` | internal/engine/compress.go:101-114 | a codec that keeps zstd's contract and a chunk that it does not give back, with compression on or off |
| `ChunkFormat.SplitShape` | internal/engine/pipeline.go:197-227 | cutting a stream: the pieces concatenate to it, all but the last are of full size, none is empty or too long |
| `PipelineTheorems.InvStep` | internal/engine/pipeline.go:110-192 | every step of the reader, a worker or the caller keeps the pipeline's invariant |
| `PipelineTheorems.ResultIsExact` | internal/engine/pipeline.go:144-191 | what the call returns, exactly: a failed call or read is reported; otherwise the stream up to the first chunk let go when all after it were too, and that chunk's number when a later one was stored |
| `PipelineTheorems.ManifestIsAPrefix` | internal/engine/pipeline.go:171-191 | for every target, interleaving, fault and cancellation: a returned manifest lists the stream's first chunks in order, those it leaves out are exactly the ones let go, and each one listed is stored exactly when no stale index row stands for it |
| `PipelineTheorems.BackupStreamDelivers` | internal/engine/pipeline.go:110-192 | a manifest returned without error is the whole stream, in order, full size but the last, right total, exactly when no chunk was let go, and none is while the caller is there; each chunk is stored exactly when its row was not stale |
| `PipelineTheorems.BackupStreamStores` | internal/engine/engine.go:323-359 | in every reachable state, from any target: old objects are untouched, each new one is the stored form of a chunk of the stream, rows are backed or were stale before, no hash is put twice and none that was indexed or there; the rows themselves are in `BackupStreamIndexes` |
| `PipelineOutcome.BackupStreamIndexes` | internal/engine/engine.go:323-359 | in every reachable state no row is lost, none is added but for chunks of the stream, and every chunk placed has its row; so has every chunk of a manifest returned without error, and when none was let go the index is the old one and the stream's hashes, exactly |
| `PipelineOutcome.BackupStreamResult` | internal/engine/pipeline.go:110-192 | while the caller stays the result is settled: an error when an index or store call failed, else an error when the read failed, else the whole stream |
| `PipelineTheorems.FaultsAreReported` | internal/engine/pipeline.go:144-180 | if any index or store call failed, the call returns an error |
| `PipelineTheorems.BuffersAreBounded` | internal/engine/pipeline.go:31-80 | in every reachable state free, reader's and workers' buffers are all there are, at most one more than workers, and a buffer handed back always fits in the free list |
| `PipelineTheorems.AccountingIsSerial` | internal/engine/engine.go:236-317 | a clean call counts exactly what a one-at-a-time run would, and puts each hash neither indexed nor there exactly once |
| `PipelineTheorems.LateCancelTruncates` | internal/engine/pipeline.go:152-165 | a run in which a late cancellation lets the only chunk go and yields an empty manifest and no error |
| `PipelineAccounting.SerialTotals` | internal/engine/engine.go:236-258 | the one-at-a-time counters after any number of chunks, as totals over distinct hashes not known before |
| `PipelineCoalescing.TokenAdvance` | internal/engine/engine.go:287-317 | every step of a worker keeps one live leader per in-flight hash and a leader or a result for every waiter |
| `PipelineLiveness.NeverStuck` | internal/engine/pipeline.go:48-80 | in every reachable state short of completion some fault-free step of the reader or a worker is possible, waiters included |
| `PipelineLiveness.RunsAreBounded` | internal/engine/pipeline.go:110-192 | no run takes more steps than a bound in the stream's length and the number of workers |
| `PipelineCode.BufPool.constructor` | internal/engine/pipeline.go:39-46 | an empty pool of at least one buffer |
| `PipelineCode.BufPool.Get` | internal/engine/pipeline.go:48-69 | a recycled buffer first, a fresh one below the cap, otherwise nothing |
| `PipelineCode.BufPool.Put` | internal/engine/pipeline.go:72-80 | a buffer goes back to the free list unless it is full |
| `PipelineCode.Place` | internal/engine/pipeline.go:135-142 | the chunk lands at its sequence number, the slice grows to hold it, the rest is unchanged |
| `PipelineCode.Assemble` | internal/engine/pipeline.go:171-191 | sizes are totalled, and the call succeeds exactly when no entry is empty |
| `Target.CollectionIsExact` | internal/engine/engine.go:527-637 | what a pass leaves: exactly the objects that are not chunks, are referenced or are provably younger than the grace, and exactly the rows backed by an object |
| `Target.ManifestKeyIsManifest` | internal/engine/manifest.go:70-73 | the key any restore point's manifest is written under is one collection reads |
| `Target.ManifestKeyShape` | internal/engine/engine.go:530-533 | collection reads exactly the keys under the manifest prefix that end in the manifest suffix |
| `Target.ManifestKeysDiffer` | internal/engine/manifest.go:70-73 | two restore points have one manifest key exactly when they are one, for kinds and sources without a slash |
| `Target.ListedIsNotDoomed` | internal/engine/engine.go:530-587 | no restore point's manifest, and no chunk that one lists, is ever doomed |
| `Target.SparedIff` | internal/engine/engine.go:572-637 | an unreferenced chunk outlives a pass exactly when there is a grace and the time it was stored is known and within it: its row's time, or the store's when it has no readable row |
| `Target.RestoredIff` | internal/engine/engine.go:369-477 | a restore yields exactly the contents of the disk's objects one after the other, each of its entry's hash and size, in all as long as the manifest says; a total that disagrees is an error |
| `TargetCode.ScannedAddsUp` | internal/engine/engine.go:503-524 | scanned chunks are the referenced present ones, the spared ones and the deleted ones |
| `TargetCode.TargetEngine.ScanManifests` | internal/engine/engine.go:530-557 | the hashes collected are exactly those some manifest lists; a manifest pruned since the listing is passed over, one that does not decode stops the pass, and nothing else does while calls succeed |
| `TargetCode.TargetEngine.ScanChunks` | internal/engine/engine.go:558-587 | the doomed keys are exactly the unreferenced chunks not provably younger than the grace, and the counters count the rest |
| `TargetCode.TargetEngine.DeleteDoomed` | internal/engine/engine.go:588-597 | pairs are deleted in turn; at a failure at most one object has gone whose row is still there |
| `TargetCode.TargetEngine.DropStaleRows` | internal/engine/engine.go:598-611 | exactly the rows whose chunk was not listed are dropped |
| `TargetCode.TargetEngine.Sweep` | internal/engine/engine.go:588-611 | the deletions of a pass together: the whole collection with its counts, or part of it |
| `TargetCode.TargetEngine.Gc` | internal/engine/engine.go:527-619 | a pass that succeeds does exactly the collection and reports it, and while calls succeed it does so exactly when every manifest decodes; whatever happens, every restore point's manifest and every chunk it lists stay; a pass that fails has removed doomed objects only, and nothing when a manifest could not be read |
| `TargetCode.TargetEngine.StoreChunk` | internal/engine/engine.go:263-359 | index first, then the object store, then the upload; bytes are reported only for an upload; when a call fails nothing is reported and what is left is nothing, the object without its row, or both |
| `TargetCode.TargetEngine.HasChunk` | internal/engine/engine.go:389-411 | answers whether the chunk is indexed or there, which is whether its object is there when no row is stale, repairs a missing row from it, touches no other row; a failed call gives no answer and at most the repaired row |
| `TargetCode.TargetEngine.RestoreDisk` | internal/engine/engine.go:457-477 | what reached the writer is the restored disk, or the error is the reason it cannot be |
| `TargetCode.TargetEngine.VerifyBackup` | internal/engine/engine.go:486-500 | succeeds only when every disk restores, and then it does while calls succeed; a failed one has a disk that does not |
| `TargetCode.TargetEngine.SyncChunkIndex` | internal/engine/engine.go:644-657 | every object gets a row of its size, old rows keep their age, others stay; a rebuild that fails half way counts nothing and has added rows of objects only |
| `Repository.SoundStep` | internal/sched/backup.go:118-160 | storing, writing a manifest, deleting one, collecting and partly collecting an idle target, each keeps the repository sound |
| `Repository.SoundRun` | internal/sched/sched.go:946-963 | soundness over every run |
| `Repository.EveryPointRestores` | internal/engine/engine.go:323-477 | in every run, each restore point whose manifest is still under its key restores every disk to the bytes it was written for, whatever else was backed up, pruned, interrupted or collected |
| `Repository.StoreIsAStep` | internal/engine/engine.go:323-359 | however storing a chunk ends, it is a step of the machine |
| `Repository.CollectionIsAStep` | internal/engine/engine.go:527-619 | every outcome of a pass over an idle target that leaves no pair torn is a step of the machine |
| `Repository.EmptyIsSound` | internal/engine/engine.go:92-127 | an empty target is sound, so the promise holds of every history from the start |
| `Repository.RestoreStream` | internal/engine/engine.go:369-477 | a stream whose chunks are present and sound restores to itself |
| `Resume.UploadedChunkReadsBackIff` | internal/engine/engine.go:323-387 | an uploaded chunk reads back as itself exactly when its stored form does, and otherwise fails on the hash |
| `Resume.TornDeleteHidesAChunk` | internal/engine/engine.go:588-597 | a pass that deletes a doomed chunk and fails on its row makes storing it again a silent no-op that leaves it unreadable, until a pass that succeeds |
| `Resume.FailedPassLeavesOneStaleRow` | internal/engine/engine.go:588-611 | on a target without stale rows a failed pass leaves exactly the row of the object it had just deleted stale |
| `Resume.StoredUnlessStale` | internal/engine/engine.go:323-359 | from any target, a chunk reported stored is there exactly when its row was not stale |
| `Resume.StoreAllUploads` | internal/engine/engine.go:323-359 | storing a list, from any target, uploads each hash neither indexed nor there once and leaves all of them indexed, old rows as they were |
| `Resume.StoreAllRows` | internal/engine/engine.go:353-353 | each row it adds carries the size of a chunk of that hash and the time of the run |
| `Resume.SurvivesIffProtected` | internal/engine/engine.go:572-583 | a chunk outlives any number of passes exactly when a manifest lists it or it is provably younger than the grace at each of them |
| `Resume.KnownAfter` | internal/engine/engine.go:323-343 | what a later run takes to be there after the passes: everything if there were none, otherwise exactly what is there and protected |
| `Resume.FreshUploadIsProtected` | internal/store/targets.go:132-141 | what an interrupted run uploaded is protected for one grace window |
| `Resume.FoundChunkIsNotRenewed` | internal/store/targets.go:132-141 | what an interrupted run merely found outlives passes exactly when it would have without the run |
| `Backup.BackupThenRestore` | internal/engine/pipeline.go:110-227 | end to end over every interleaving: a stream backed up without error and with no chunk let go restores to itself exactly when no stale row stood for one of its chunks |
| `Backup.RerunUploadsTheRest` | internal/engine/engine.go:283-359 | after any interruption and any passes, under every interleaving, a clean rerun uploads exactly the distinct chunks no longer known, which are those missing at the interruption if and only if what was there stayed known |
| `Backup.PipelineRunIsARun` | internal/engine/pipeline.go:110-192 | a finished pipeline run on a sound repository is a run of the machine: stores, then an enabled manifest, with the objects, the index and the manifest the pipeline left |
| `Retention.PeriodsAreMonotone` | internal/store/retention.go:150-168 | day, ISO week, month and year keys identify periods that never run backwards in time |
| `Calendar.IsoWeekIdentifiesWeek` | internal/store/retention.go:158-160 | two days share ISO year and week exactly when they fall in one Monday-to-Sunday week |
| `Calendar.FirstIsoWeek` | internal/store/retention.go:158-160 | week 1 of a year holds 4 January |
| `Calendar.IsoWeekOrder` | internal/store/retention.go:158-160 | later weeks have later year and week, the year counting first |
| `Retention.DailyRule` | internal/store/retention.go:155-157 | the daily rule in dates: no newer point on the same date, and fewer later dates with a point than it counts |
| `Retention.WeeklyRule` | internal/store/retention.go:158-160 | the weekly rule in ISO weeks |
| `Retention.MonthlyRule` | internal/store/retention.go:161-162 | the monthly rule in year and month |
| `Retention.YearlyRule` | internal/store/retention.go:163-164 | the yearly rule in years |
| `Retention.BetweenEvaluatesAlike` | internal/store/retention.go:185-266 | any set between the kept points and the whole history gives every point the same reasons and keeps the same points |
| `Retention.PathIndependence` | internal/sched/backup.go:755-791 | pruning after every arrival, in any order, leaves the points and reasons of one evaluation of the whole history |
| `Retention.KeptBound` | internal/store/retention.go:71-73 | no more points are kept than the counters add up to |
| `Retention.MoreKeepsMore` | internal/store/retention.go:185-266 | raising counters never prunes more |
| `Retention.NewestIsKept` | internal/sched/backup.go:736-772 | a policy that retains anything retains the newest point |
| `RetentionCode.CreditLast` | internal/store/retention.go:207-211 | the first points of the sorted list are credited with the "last" rule, and nothing else changes |
| `RetentionCode.CreditPeriods` | internal/store/retention.go:212-238 | the first point of each of the most recent periods is credited with the rule |
| `RetentionCode.EvaluateRetention` | internal/store/retention.go:185-266 | the loops compute the plan that `PlanMeetsSpecification` describes |
| `RetentionCode.PlanMeetsSpecification` | internal/store/retention.go:185-266 | keeps and prunes partition the input newest first; a point is kept exactly when some rule retains it, with exactly those reasons |
| `Catalog.BackupCatalog.PlanPrune` | internal/sched/backup.go:736-772 | nothing for a policy that retains nothing, otherwise exactly the points not kept; the refusal to keep none is never needed |
| `Catalog.BackupCatalog.ApplyRetention` | internal/sched/backup.go:736-798 | exactly the kept points of that source remain, and no pruned point's manifest does; a prune that fails half way keeps them all and evaluates alike, a point whose row is gone has no manifest, at most one row is left without one, and other manifests and sources are untouched |
| `Catalog.BackupCatalog.DeleteAll` | internal/sched/backup.go:773-791 | exactly the listed points' manifests go, each before its row: a point whose row is gone has no manifest, and at most one row is left without one |
| `Catalog.PrunedHistory` | internal/sched/backup.go:736-798 | the points left of a pruned history are those of the whole one, its newest among them |
| `StreamReader.StreamLayout` | internal/browse/stream.go:66-82 | each entry's bytes sit in the stream at its offset, zero-size entries adding nothing |
| `StreamReader.FetchIsVerified` | internal/engine/engine.go:369-387 | a fetch that succeeds yields the one content in play behind the entry, whatever objects are there |
| `StreamReader.ReadsWhatRestoresIff` | internal/engine/engine.go:382-477 | random access and restore agree on a disk exactly when no entry of size zero stands for a chunk that is not empty |
| `StreamReader.ZeroSizeEntryReadsShort` | internal/browse/stream.go:66-82 | such an entry restores to its chunk and reads as nothing |
| `StreamReader.BackedUpStreamReads` | internal/browse/stream.go:66-82 | the manifest of a backed-up stream reads as the stream |
| `StreamReader.CacheIsAlwaysOk` | internal/browse/stream.go:130-157 | across all fetches the cache's keys are its duplicate-free order list, within the limit, with verified data only |
| `StreamReader.FiledIsHeld` | internal/browse/stream.go:147-156 | a chunk just fetched is held, last in line to leave, and only the oldest makes room for it |
| `StreamReader.StreamReaderAt.constructor` | internal/browse/stream.go:66-82 | offsets are running sums and the size is the stream's |
| `StreamReader.StreamReaderAt.ChunkAt` | internal/browse/stream.go:121-127 | the binary search finds the non-empty entry that holds the offset |
| `StreamReader.StreamReaderAt.GetChunk` | internal/browse/stream.go:130-157 | the verified bytes behind the entry, from the cache or from a fetch of the objects there at that moment, filed in the cache with the oldest dropped; a failed fetch leaves the cache alone, and none fails of a chunk that reads while calls succeed |
| `StreamReader.StreamReaderAt.ReadAt` | internal/browse/stream.go:88-118 | the bytes delivered are the stream's at that offset, whatever happens to the objects meanwhile, the rest of the buffer is untouched, the end is reported exactly when it cuts the read short, and no failure is while every chunk reads |
| `Gate.WakeShape` | internal/sched/gate.go:88-95 | waking takes grants off the front of the queue, up to the limit, and leaves waiters only at the limit |
| `Gate.ResizeShape` | internal/sched/gate.go:26-35 | a new limit, at least one, holds at once, and the slots it frees go to the front of the queue |
| `Gate.GiveShape` | internal/sched/gate.go:78-86 | a slot given back is one fewer out, then the front of the queue is served |
| `Gate.ResizableGate.constructor` | internal/sched/gate.go:18-24 | an empty gate with a limit of at least one |
| `Gate.ResizableGate.WakeLocked` | internal/sched/gate.go:88-95 | the loop does what `WakeShape` describes and closes exactly the granted channels |
| `Gate.ResizableGate.SetLimit` | internal/sched/gate.go:26-35 | the limit is the new one, or one when that is less, and waiters it admits are woken |
| `Gate.ResizableGate.Enter` | internal/sched/gate.go:44-53 | a slot at once below the limit, otherwise the end of the queue |
| `Gate.ResizableGate.Leave` | internal/sched/gate.go:55-75 | a cancelled caller leaves the queue, or learns that its slot was already granted |
| `Gate.ResizableGate.Release` | internal/sched/gate.go:78-86 | one slot fewer, never below none, and the next waiters are woken |
| `Gate.InvStep` | internal/sched/gate.go:26-95 | every step of every caller keeps the gate's invariant |
| `Gate.GateIsFair` | internal/sched/gate.go:26-95 | over every interleaving: active is held plus granted plus owed, nobody waits below the limit, and service is in order of arrival, each once, withdrawals left out |
| `Gate.NoGrantAboveLimit` | internal/sched/gate.go:44-95 | no step grants a slot at or above the limit |
| `Gate.ReleaseServesTheNext` | internal/sched/gate.go:78-95 | at the limit, a release hands its slot to the head of the queue and to nobody else |
| `Agents.Manager.constructor` | internal/agentmgr/agentmgr.go:162-174 | empty tables |
| `Agents.Manager.Enqueue` | internal/agentmgr/agentmgr.go:363-370 | an open, unpicked run state becomes the run's active one and the dispatch joins the agent's queue |
| `Agents.Manager.Heartbeat` | internal/agentmgr/agentmgr.go:287-310 | the whole queue is handed out and cleared, and exactly the active run states it belongs to are marked picked with fresh progress |
| `Agents.Manager.BusyLocked` | internal/agentmgr/agentmgr.go:329-336 | true exactly when some active run of the agent is open |
| `Agents.Manager.QueueUpdate` | internal/agentmgr/agentmgr.go:344-361 | refused exactly while busy; otherwise it replaces any update queued before and leaves other work in order |
| `Agents.Manager.NoteProgress` | internal/agentmgr/agentmgr.go:374-380 | only the active run state's progress changes |
| `Agents.Manager.FinishLocked` | internal/agentmgr/agentmgr.go:407-418 | the open run state is closed and deactivated, or nothing happens |
| `Agents.Manager.Abandon` | internal/agentmgr/agentmgr.go:420-427 | the active run state is closed and deactivated |
| `AgentSafety.InvStep` | internal/agentmgr/agentmgr.go:287-427 | every critical section keeps the protocol's invariant |
| `AgentSafety.EverythingHappensOnce` | internal/agentmgr/agentmgr.go:344-427 | over every interleaving: no run state ends twice or sends two results, a result can always be sent at once, no dispatch is handed out twice, no agent has two updates queued |
| `AgentDelivery.StartQueues` | internal/agentmgr/agentmgr.go:363-370 | starting a run queues its dispatch and displaces none |
| `AgentDelivery.UpdateQueues` | internal/agentmgr/agentmgr.go:344-361 | an accepted update is queued, earlier updates are displaced by it and nothing else is |
| `AgentDelivery.NothingIsLost` | internal/agentmgr/agentmgr.go:287-370 | over every run a dispatch that was queued, an update apart, stays queued until it is handed out |
| `AgentDelivery.QueuesAreInOrder` | internal/agentmgr/agentmgr.go:287-370 | over every run an agent's queue is in the order its dispatches were made, and a heartbeat hands it out whole, in that order |
| `AgentDelivery.HandOutPicks` | internal/agentmgr/agentmgr.go:287-310 | a run whose dispatch is handed out is picked with fresh progress, so its caller can go on to watch it |
| `AgentDelivery.UncollectedWaited` | internal/agentmgr/agentmgr.go:504-520 | a caller that reports its work was not collected had waited for the whole pickup window |
| `AgentDelivery.ResultsAreReported` | internal/agentmgr/agentmgr.go:407-418 | a result a caller returns was reported by the agent for the run it waited for |
| `AgentSafety.ResultIsOnItsWay` | internal/agentmgr/agentmgr.go:504-549 | a caller still waiting whose run is no longer active has its result in the channel or on the way with nothing to block it; one that returned leaves nothing active |
| `AgentSafety.BusyIffAwaited` | internal/agentmgr/agentmgr.go:313-336 | an agent is busy exactly while some caller waits for an open run of its |
| `AgentSafety.SilenceIsSinceTheLastSign` | internal/agentmgr/agentmgr.go:384-392 | what the watchdog reads is the time since the last sign of life of the very run state its caller awaits, and nothing once that state has ended |
| `AgentSafety.StallsAreReal` | internal/agentmgr/agentmgr.go:535-547 | a reported stall was a silence of that run state, from a sign of life on, as long as the timeout |
| `AgentSafety.LivelyRunsDoNotStall` | internal/agentmgr/agentmgr.go:504-573 | a run whose silences stay below the timeout never ends as stalled |
| `ScheduleText.NormalizeWeekdays` | internal/store/schedule.go:164-179 | the same days, each once, in increasing order |
| `ScheduleText.ReadCronIntList` | internal/store/schedule.go:483-494 | the loop reads a list of numbers, or refuses it whole |
| `ScheduleText.CronRoundTrips` | internal/store/schedule.go:279-309 | reading the expression a valid schedule generates gives the schedule back, up to fields its kind ignores |
| `ScheduleText.ClockDigits` | internal/store/schedule.go:241-254 | a time of day is two digits, a colon and two digits, and is read as their hour and minute |
| `ScheduleText.TrimShape` | internal/store/schedule.go:404-413 | trimming takes off the white space at both ends, all of it, and nothing else |
| `ScheduleText.FieldsAppend` | internal/store/schedule.go:419-424 | white space separates the words of an expression wherever it stands |
| `ScheduleText.NormalizedTwiceIff` | internal/store/schedule.go:151-160 | tidying a schedule twice changes nothing more, except when its kind is nothing but white space |
| `Firing.PresetMeans` | internal/store/schedule.go:279-309 | the expression of a valid preset means its minute, hour and days |
| `Firing.PresetKeepsFields` | internal/store/schedule.go:419-467 | a recognised legacy expression gives a valid preset that means the same fields, but for the day of a last-day preset |
| `Calendar.DaysInMonthIsLength` | internal/store/schedule.go:360-362 | day zero of the next month is the last day of this one, leap years included |
| `Calendar.CalendarSteps` | internal/store/schedule.go:360-362 | day numbers are dates from 1 January of year 0 on, each the date after the one before |
| `Calendar.KnownDates` | internal/store/schedule.go:360-362 | leap years by fours, hundreds and four hundreds, the first day of Unix time, and a Monday |
| `Calendar.WeekdaySteps` | internal/store/schedule.go:287-296 | weekdays run from Sunday 0 to Saturday 6 and round again |
| `NextRun.HourlyRuns` | internal/store/schedule.go:283-284 | an hourly schedule runs exactly in its minute of every hour |
| `NextRun.DailyRuns` | internal/store/schedule.go:285-286 | a daily schedule runs exactly at its time of every day |
| `NextRun.WeeklyRuns` | internal/store/schedule.go:287-295 | a weekly schedule runs exactly at its time of the weekdays it names |
| `NextRun.MonthlyRuns` | internal/store/schedule.go:296-303 | a monthly schedule on a day from 1 to 30 runs exactly at its time of that day, in the months that have it |
| `NextRun.FiresAt` | internal/sched/sched.go:231-243 | when any expression fires on a date at a time: minute, hour and month are named, and the day is by both day fields that are not stars, or by either where neither is one |
| `NextRun.HorizonIs` | internal/sched/sched.go:240-245 | the search ends with the fifth year after that of the next whole second |
| `NextRun.LastDayRunsOncePerMonth` | internal/store/schedule.go:351-362 | in every month of every year a last-day schedule is accepted in one minute: the last day, at its time |
| `NextRun.UntidyLastDayRunsFourTimes` | internal/store/schedule.go:351-356 | a last-day schedule whose kind needs tidying is accepted on each of the last four days of January |
| `NextRun.MigrationKeepsTimingIff` | internal/store/schedule.go:404-467 | migrating a recognised legacy expression keeps its firing minutes exactly when its day of the month is neither 31 nor 28-31 |
| `NextRun.LastDayMigration` | internal/store/schedule.go:451-466 | those two become one run a month, on its last day |
| `NextRun.OtherExpressionsAreKept` | internal/store/schedule.go:404-413 | an unrecognised expression is kept as it was |
| `NextRun.NextRun` | internal/sched/sched.go:220-252 | the least later minute in which the schedule really runs; a valid enabled preset always has one within the probes, and so has a last-day schedule whose time is in range; none for a disabled, manual or unparsable schedule, and for another exactly when it does not fire by the end of the fifth year |
| `Timestamps.TextOrderIsTimeOrder` | internal/store/store.go:703-712 | for years 0 to 9999 text order is time order, and text identifies the instant |
| `Timestamps.YearTenThousandSortsFirst` | internal/store/store.go:710-712 | past them it is not |
| `Timestamps.ParseInvertsFmt` | internal/store/store.go:721-727 | reading the text of an instant gives it back |
| `Timestamps.UnrepresentableIsNotRead` | internal/store/store.go:721-727 | the text of an instant outside those years is not read as a timestamp |
| `Timestamps.NormalTwice` | internal/store/store.go:555-598 | normalising is idempotent on every text |
| `Timestamps.NormalisedSorts` | internal/store/store.go:542-598 | normalised text keeps its instant and sorts as time, whatever text it was written in |
| `OldTimestamps.NanoTextReads` | internal/store/store.go:721-727 | the text an earlier release wrote, its fraction without trailing zeros or none, in UTC or with an offset of either sign, reads as its instant: every year 0 to 9999, every nanosecond |
| `OldTimestamps.NanoTextIsNormalised` | internal/store/store.go:555-598 | normalising rewrites it as the canonical text of that instant |
| `OldTimestamps.NormalisedNanoTextsSort` | internal/store/store.go:542-598 | after which such texts sort as their instants do, whatever zones they were written in |
| `OldTimestamps.WholeSecondsSortedLast` | internal/store/store.go:703-712 | before it they did not: a whole second sorted after every other moment of that second |
| `OldTimestamps.FractionIsRead` | internal/store/store.go:721-727 | a fraction of any number of digits is read as the whole nanoseconds in it |
| `Timestamps.Column.NormalizeTimestamps` | internal/store/store.go:555-598 | every row of the column becomes its normal form, which for the texts of earlier releases `OldTimestamps.NanoTextIsNormalised` gives; null rows and unreadable text stay |
| `Timestamps.DatabaseOrderIsRetentionOrder` | internal/store/jobs.go:545-545 | the database's order on creation time and id is the order retention sorts by |
| `Timestamps.KeyTextNamesThePeriod` | internal/store/retention.go:150-168 | two instants have the same key text exactly when they fall in the same period |
| `Glob.MatchSegments` | internal/store/policy.go:414-440 | true exactly when the pattern can be laid along a front part of the path, each `**` over any number of segments; an error only for a malformed segment |
| `Glob.MatchGlob` | internal/store/policy.go:406-410 | the same of a pattern and a path after tidying slashes |
| `Glob.TrimSlashesShape` | internal/store/policy.go:406-410 | tidying takes the slashes off both ends, all of them, and nothing else |
| `Glob.CoversBelow` | internal/store/policy.go:438-439 | a pattern that excludes a directory excludes everything under it |
| `FileKeys.CheckKey` | internal/blobstore/filesystem.go:107-129 | a key's path, or a refusal for an empty, relative, reserved or badly separated segment |
| `FileKeys.KeysArePaths` | internal/blobstore/filesystem.go:107-129 | keys and good paths correspond one to one, in both directions |
| `FileKeys.PathsAreInjective` | internal/blobstore/filesystem.go:96-129 | different keys have different paths |
| `FileKeys.WalkFiles` | internal/blobstore/filesystem.go:361-420 | the walk from the prefix's directory lists exactly the files it reports there |
| `FileKeys.WalkListsExactly` | internal/blobstore/filesystem.go:361-444 | that is exactly the keys with the prefix, probe-named ones left out |
| `FileSafety.InvStep` | internal/blobstore/filesystem.go:207-243 | every step of a writer and every crash keep the disk's invariant: what a key can show is synced, and no writer's file is visible before its rename |
| `FileSafety.StepMoves` | internal/blobstore/filesystem.go:207-254 | what each step does to the object at a key and to what a crash may leave there |
| `FileSafety.OldOrCompleteNew` | internal/blobstore/filesystem.go:177-243 | over every run with crashes anywhere: a key shows an object that was there, a complete object some Put brought, or nothing where a Delete asked for it |
| `FileSafety.OnlyCompleteObjects` | internal/blobstore/filesystem.go:177-243 | from an empty target, a key shows nothing or a complete object put under it |
| `FileSafety.FlushedPutSurvives` | internal/blobstore/filesystem.go:237-254 | after the rename and the directory flush, a crash leaves the new object |
| `FileSafety.TemporariesAreNeverSeen` | internal/blobstore/filesystem.go:398-403 | a temporary file is no key's file and no listing reports it |
| `FileStore.FileTarget.constructor` | internal/blobstore/filesystem.go:66-87 | an empty, mounted target |
| `FileStore.FileTarget.WriteFileAtomic` | internal/blobstore/filesystem.go:207-243 | whichever call fails, the file appears whole or not at all, other objects are untouched, a crash can bring nothing but the new file to its path, and only that after a write without a fault; the temporary file is left only when a failed write could not remove it, and the steps are a run of the machine |
| `FileStore.FileTarget.Put` | internal/blobstore/filesystem.go:177-200 | a bad key or a vanished target changes nothing; otherwise the object is there or nothing changed; a crash can leave what it could before or the new object, and after a faultless Put the new object only |
| `FileStore.FileTarget.GetBytes` | internal/blobstore/filesystem.go:258-297 | the object at the key, a miss, or a failure; a vanished target is never reported as a missing object |
| `FileStore.FileTarget.Head` | internal/blobstore/filesystem.go:300-325 | the stored size, a miss, or a failure; a vanished target is never a miss |
| `FileStore.FileTarget.Delete` | internal/blobstore/filesystem.go:334-352 | the object is gone, or the call failed and nothing changed; others are untouched, also by a crash, and a missing one is no error |
| `FileStore.FileTarget.Walk` | internal/blobstore/filesystem.go:361-420 | exactly the accepted keys with the prefix that hold an object, probe-named ones left out, or a failure |

## Left out

- HTTP handlers, sessions, the console, SSH deployment, installers, self-update and binary staging: input, output and operating-system plumbing.
- SHA-256, zstd, JSON, SQLite and the S3 client: parameters, maps and laws, as said above.
- The cron syntax beyond stars, numbers, ranges and lists (steps, names, descriptors, time zones): the parameter `other` of `NextRun.NextRun` stands for it.
- Time zones and daylight saving: civil time is one time line.
- Letters outside ASCII in a schedule's kind: `ScheduleText.Lower` folds ASCII only.
- Goroutines, locks, channels and wait groups of the pipeline, the gate's waiters and the agent manager's wait loop run as step systems over their critical sections; the sequential code inside a critical section is a method where it does more than assign.
- Collection overlapping a newly started run: the program tests once, before a pass, that the target is idle, so collection steps are taken on idle targets.
- Two engines on one target: each run builds its own engine, so accounting is per engine.
- The retry loop, duration limits and backup windows of a run, upload rate limits, progress percentages and throughput: wall clock and floating point, or easy members.
- Agent authentication, chunk upload and completion bodies: the protocol keeps the critical sections they end in, taken at any time for any run.
- Restore points' parent links and display names: nothing decides on them.
- Chunk sizes in a manifest are natural numbers, so a manifest with negative sizes is not modelled.
- Directories of a filesystem target: a directory in the place of a file is one of the failures a call may report.
- The two guards in the reader's loop against a missing entry and a chunk shorter than its offset: with verified chunks they are never taken, which `StreamReader.StreamReaderAt.ReadSome` shows by not needing them; `StreamReader.ZeroSizeEntryReadsShort` shows that an entry of size zero does not reach them either.
- Virtual machine identifiers, posture counts, audit trimming, settings and policy validation: easy members.
- NextRun.NextRun: of a last-day schedule whose time is out of range, which saving refuses and whose expression the cron library rejects, it says only that a run it names is the least.
- Retention.KeptBound: takes counters that are not negative, which is what saving a policy demands (internal/store/retention.go:82-98); with a negative counter the total says nothing.
- AgentSafety.ResultIsOnItsWay: takes runs in which a run's attempts follow one another, as the scheduler's retry loop makes them; with overlapping attempts under one run id the second replaces the first in the table.
- PipelineTheorems.AccountingIsSerial: takes a stream without hash collisions among its chunks.
- Repository.EveryPointRestores: takes chunks whose stored form reads back (`ChunkFormat.ReadsBack`), contents in play without hash collisions, and deleted pairs of object and row as one step.
