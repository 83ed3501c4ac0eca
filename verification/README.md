# PegaFlow verification

PegaFlow keeps the KV-cache blocks of language-model workers in pinned host memory and lets nodes fetch blocks from
each other. This project models three parts of it in Dafny and proves what they promise.

**The MetaServer** keeps a directory of which node holds which block, under sessions that come and go.
`Directory` holds its two maps and its incremental counters. `DirectoryProtocol` is the directory as a step system: one
step per guarded section, any number of calls interleaved, a clock that only moves forward. A heartbeat takeover is two
steps, a sweep swaps its flag and then visits nodes and keys one at a time, an unregister drops the node and then scans.
`DirectoryCalls` says what each call leaves when no other call interferes, and `BlockHashStore` is the directory as an
object whose calls are such uninterrupted runs of the protocol. On top of it are `FetchPlan` (the greedy plan that
serves a prefix from few nodes), `Pairing` (which source is backed up on which target, for an arbitrary score),
`BackupReport` (what sources report), `BackupPlanner` (the queues that targets drain), `BackupScans` (what a scan
leaves behind) and `BackupTurns` (whose turn it is).

**The engine** takes the layers of a model through registration, save, sealing and load.
`Layout` decides which affine device layouts are accepted, `PageLayouts`, `Topology`, `Sealing` and `Registration` fix
slots and byte offsets when the last worker has registered, and `SealLaws` tells the outcome by what the workers
registered. `SaveTargets`, `SavePath`, `SaveBatches`, `CopyDescs` and
`Transfer` move device bytes into pinned memory; `Blocks`, `InsertEntries` and `WritePath` assemble slots into sealed
blocks; `LoadPath` and `SaveLoad` bring them back. `Progress` follows every delivery until its block is sealed, and
`SealHistory` tells what is sealed under a key from all that ever arrived for it. `Engine` puts the parts together: an
object whose every run of saves, insertions, loads and arbitrary device writes keeps one invariant, from which it
follows that a load returns what was saved first into the slot it reads and that nothing saved gets stuck.
`SharedPages` is the smallest instance that mixes up ranks, and a run of the engine that does so. Memory is a sequence
of bytes per device and per pinned allocation, a copy is a byte assignment.

**Kernels**: `HyperLogLog`, `HashBits` and `HllTracker` (the sliding-window hit estimate up to its registers),
`FrequencySketch` (the admission sketch with saturation and ageing), `SizeClass` (allocator rounding), `CpuList` and
`CpuListText` (CPU-list printing and parsing). `Common`, `Seqs` and `Bits` hold shared types and facts about sequences and powers of two.

Where a property fails on the code as it is, the code is kept, and the exact condition (named first) is proved beside
an input that shows the failure (named second):

- a lone block whose stride is below its size is refused although nothing overlaps (`CheckBoundsExact`,
  `SingleBlockRefused`);
- slot starts of the tracker repeat after a silence of a multiple of 2^32 slot lengths (`StrictExactly`,
  `StartsCanRepeat`);
- sweeping is visible to queries when nodes may be dropped before they are stale (`SweepInvisibleExactly`, which holds
  the input);
- printing a CPU list loses ids that are listed only in spans where 0 follows the largest id
  (`CpuList.RoundTripExactly`, `WrapLoses`);
- the ordered way of building insert entries splits a repeated hash over two entries (`PathsAgree`,
  `RepeatedHashSplits`);
- the footprint of a block filled slot by slot wraps where the one sealed at once saturates (`AnyOrderSealsAlike`,
  `OverflowDiffers`); this needs slots of more than 2^64 bytes together, which no pinned pool can hand out;
- content hashes can collide once the storage group is appended (`GroupHashExactly` for two hashes, `KeysApartExactly`
  for a set of them, `GroupHashCollides`);
- of several saves under one key a load gives back the one that reached the slot first since the key was last sealed
  (`LoadGivesFirst` and `Engine.RoundTripExactly`, `FirstSaveWins`);
- page-first instances with several tensor-parallel ranks do not keep the ranks apart (`RankKeptExactly` and
  `RanksLoadAlike`, `SecondRankLost` and the run `MixUp`).

## Model

| member | source | states |
|---|---|---|
| `Directory.AdjustExact` | pegaflow-metaserver/src/store.rs:129-155 | Whatever number of owners a key goes from and to, exact counters stay exact, no key without owners appears, and no counter is decremented below zero. |
| `Common.NameLessExactly` | pegaflow-metaserver/src/backup.rs:395-395 | Names are ordered as in a dictionary: at the first character that differs, or the shorter first. |
| `DirectoryProtocol.TakeoverWriteStale` | pegaflow-metaserver/src/store.rs:209-229 | The second half of a takeover makes a node's records stale all at once, and all of them are covered by the flag its first half raised or by a sweep that consumed that flag and has yet to pass the node. |
| `DirectoryProtocol.UnregisterStale` | pegaflow-metaserver/src/store.rs:290-309 | Dropping a node orphans its records, and each one lies ahead of the scan the same call goes on to make. |
| `DirectoryProtocol.SweepSwapTakeovers` | pegaflow-metaserver/src/store.rs:426-430 | A sweep that clears the flag between the two halves of a takeover still visits what that takeover will orphan. |
| `DirectoryProtocol.TakeoversStep` | pegaflow-metaserver/src/store.rs:197-237 | Every takeover that is half done is still bound to be followed by a scan, after any step of any call. |
| `DirectoryProtocol.GuardsStep` | pegaflow-metaserver/src/store.rs:525-539 | Two calls never hold the guard of one key, and a key whose guard is held stays stored with every owner its scan has yet to visit. |
| `DirectoryProtocol.CountsStep` | pegaflow-metaserver/src/store.rs:311-389 | After every step, also in the middle of a batch, the counters are exact for the owners they were told about. |
| `DirectoryProtocol.InvStep` | pegaflow-metaserver/src/store.rs:197-539 | Every enabled step of every call keeps the whole invariant: stale records pending, takeovers covered, guards exclusive, counters exact. |
| `DirectoryProtocol.InvRun` | pegaflow-metaserver/src/store.rs:197-539 | The invariant holds after every finite interleaving. |
| `DirectoryProtocol.StaleRecordsArePending` | pegaflow-metaserver/src/store.rs:197-455 | In every run, a stored record that is not of its node's current session exists only while the flag is up or some running scan has yet to visit its key. |
| `DirectoryProtocol.RestingDirectoryIsCurrent` | pegaflow-metaserver/src/store.rs:424-455 | With the flag down and no scan running, every stored owner is a current session, even while inserts and removes are under way. |
| `DirectoryProtocol.CountersExact` | pegaflow-metaserver/src/store.rs:129-155 | In every run the buckets count the keys with 1, 2, 3 and 4 or more owners, `copies` counts the owners, no key is empty, nothing ever underflowed; between calls this is about the stored maps themselves. |
| `DirectoryProtocol.LiveRecordsSurvive` | pegaflow-metaserver/src/store.rs:361-389 | No step of another session, scan or sweep removes a record of a live session; only its own session and an operator's clean-up do. |
| `DirectoryCalls.HeartbeatCall` | pegaflow-metaserver/src/store.rs:197-237 | A heartbeat on a resting directory is one step, or two on a takeover, and ends at rest with exact counters, the session in place and the flag up on a takeover. |
| `DirectoryCalls.InsertCall` | pegaflow-metaserver/src/store.rs:311-359 | An insert call whose steps nothing interrupts ends at rest, with exact counters and the caller's record under every listed key. |
| `DirectoryCalls.RemoveCall` | pegaflow-metaserver/src/store.rs:361-389 | So does a remove call, without this session's records under the listed keys. |
| `DirectoryCalls.ScanRuns` | pegaflow-metaserver/src/store.rs:525-539 | Taking the guard of every key, visiting its owners one by one and dropping the guard leaves exactly what the filter keeps. |
| `DirectoryCalls.UnregisterCall` | pegaflow-metaserver/src/store.rs:290-309 | Dropping a node and scanning leaves the other nodes and exactly the records that are not orphaned. |
| `DirectoryCalls.SweepCall` | pegaflow-metaserver/src/store.rs:426-455 | Clearing the flag, visiting every node and scanning if there is a reason leaves the flag down, the nodes within the time to live and the records of current sessions. |
| `BlockHashStoreModule.BlockHashStore.constructor` | pegaflow-metaserver/src/store.rs:176-184 | A new directory is empty and its counters are exact. |
| `BlockHashStoreModule.BlockHashStore.HeartbeatNode` | pegaflow-metaserver/src/store.rs:197-237 | Refuses a second session exactly while the first one is fresh; otherwise the session is current and last seen now, and the reconcile flag goes up exactly on a takeover. The call is an uninterrupted run of protocol steps from the old directory to the new one. |
| `BlockHashStoreModule.BlockHashStore.TouchNodeSession` | pegaflow-metaserver/src/store.rs:505-522 | Refreshes only the current session and tells an unknown node from a stale session. |
| `BlockHashStoreModule.BlockHashStore.CountVisible` | pegaflow-metaserver/src/store.rs:345-353 | Counts the owners whose node is registered under the session of the record and was seen no longer ago than the stale limit. |
| `BlockHashStoreModule.BlockHashStore.InsertHashes` | pegaflow-metaserver/src/store.rs:311-359 | Accepted exactly for the current session; then every listed key has the caller's record and every other record is what it was; a hash is hinted exactly when the caller's session did not hold it and, with the caller, at least as many nodes answer for it as the configured count; the counters stay exact; refused calls change nothing. The call is an uninterrupted run of protocol steps from the old directory to the new one. |
| `BlockHashStoreModule.BlockHashStore.PutOwners` | pegaflow-metaserver/src/store.rs:370-387 | Writing a key's owners back keeps the counters exact and drops the key exactly when no owner is left. |
| `BlockHashStoreModule.BlockHashStore.RemoveHashes` | pegaflow-metaserver/src/store.rs:361-389 | Accepted exactly for the current session; then exactly this session's records under the listed keys are gone, and their number is returned. The call is an uninterrupted run of protocol steps from the old directory to the new one. |
| `BlockHashStoreModule.BlockHashStore.RetainOwners` | pegaflow-metaserver/src/store.rs:525-539 | The key-by-key scan leaves exactly the records the filter keeps and no empty key, and its statistics are the differences it made. |
| `BlockHashStoreModule.BlockHashStore.KeepOwners` | pegaflow-metaserver/src/store.rs:527-531 | Owner by owner, what remains of one key is what the filter keeps. |
| `BlockHashStoreModule.BlockHashStore.UnregisterNode` | pegaflow-metaserver/src/store.rs:290-309 | Drops the node and exactly its records, and counts them. The call is an uninterrupted run of protocol steps from the old directory to the new one. |
| `BlockHashStoreModule.BlockHashStore.ExpireNodes` | pegaflow-metaserver/src/store.rs:431-444 | Exactly the nodes older than the time to live go, and are counted. |
| `BlockHashStoreModule.BlockHashStore.SweepExpired` | pegaflow-metaserver/src/store.rs:426-455 | Leaves the flag down; scans only if a node went or the flag was up, and then keeps exactly the records of current sessions. The call is an uninterrupted run of protocol steps from the old directory to the new one. |
| `BlockHashStoreModule.BlockHashStore.QueryPrefix` | pegaflow-metaserver/src/store.rs:392-422 | Answers the longest prefix whose every hash has an owner that is registered under the session of its record and was seen within the stale limit, each hash with all such owners once. |
| `BlockHashStoreModule.BlockHashStore.LiveOwners` | pegaflow-metaserver/src/store.rs:402-411 | Lists exactly once every owner of a key whose node is registered under the session of the record and was seen within the stale limit. |
| `BlockHashStoreModule.CallKeepsCurrent` | pegaflow-metaserver/src/store.rs:424-455 | Between calls the flag is up or every stored owner is a current session; no call breaks that. |
| `BlockHashStoreModule.InsertedExactly` | pegaflow-metaserver/src/store.rs:324-345 | A batch of inserts sets the caller's record under the listed keys and touches no other key or owner, whatever repeats in the list. |
| `BlockHashStoreModule.InsertedPointwise` | pegaflow-metaserver/src/store.rs:324-345 | Record by record: the listed keys have the caller's record, every other record is what it was. |
| `BlockHashStoreModule.VisibleAnswers` | pegaflow-metaserver/src/store.rs:541-547 | A record is visible exactly when its node is registered under the session of the record and was last seen no more than the stale limit ago. |
| `BlockHashStoreModule.HintsExactly` | pegaflow-metaserver/src/store.rs:345-356 | The hints of a call are exactly the listed hashes that were new to the caller's session and are answered for by the configured number of nodes. |
| `BlockHashStoreModule.HintedExactly` | pegaflow-metaserver/src/store.rs:345-356 | A hash is hinted exactly when the caller's session was not an owner before the call and enough visible owners hold the block with it, and at most once. |
| `BlockHashStoreModule.RemovedExactly` | pegaflow-metaserver/src/store.rs:370-387 | A batch of removes drops only this session's record under the listed keys and leaves no empty key. |
| `BlockHashStoreModule.RemovedPointwise` | pegaflow-metaserver/src/store.rs:370-387 | Record by record: only records of this session under the listed keys go. |
| `BlockHashStoreModule.RetainedPointwise` | pegaflow-metaserver/src/store.rs:525-539 | Record by record, a scan keeps what its filter keeps and nothing else goes. |
| `BlockHashStoreModule.RemoveUndoesInsert` | pegaflow-metaserver/src/store.rs:311-389 | Removing what was just inserted gives the directory back, if the caller owned none of it before. |
| `BlockHashStoreModule.InsertedIsVisible` | pegaflow-metaserver/src/store.rs:541-547 | A node that inserted a block answers queries for it until it goes stale. |
| `BlockHashStoreModule.SweepKeepsVisible` | pegaflow-metaserver/src/store.rs:424-455 | With a stale limit not above the time to live, a sweep changes no query answer, now or later. |
| `BlockHashStoreModule.SweepInvisibleExactly` | pegaflow-metaserver/src/store.rs:424-455 | A sweep is invisible to queries on every directory if and only if the stale limit is not above the time to live. |
| `FetchPlan.BestUnique` | pegaflow-metaserver/src/service.rs:25-43 | The farthest-reaching owner with the least name is unique, so the choice is determined. |
| `FetchPlan.BestCandidate` | pegaflow-metaserver/src/service.rs:25-47 | The inner loop finds an owner that reaches at least as far as every other one and has the least name among those that reach as far, or none exactly when only the excluded node or nobody has the entry. |
| `FetchPlan.PlanFetchSegments` | pegaflow-metaserver/src/service.rs:17-58 | Returns the greedy plan; fails exactly when one of its segments is too long for 32 bits. |
| `FetchPlan.ServableUpTo` | pegaflow-metaserver/src/service.rs:17-58 | The servable prefix ends at the first entry that no node but the excluded one has. |
| `FetchPlan.GreedyFetches` | pegaflow-metaserver/src/service.rs:17-58 | The plan covers exactly the longest servable prefix, without gaps, and each segment's node owns all of it and is not the excluded one. |
| `FetchPlan.GreedyMinimal` | pegaflow-metaserver/src/service.rs:17-58 | No plan that covers that prefix has fewer segments, even one that starts earlier. |
| `FetchPlan.GreedyIgnoresOwnerOrder` | pegaflow-metaserver/src/service.rs:26-43 | The plan depends only on the owner sets of the entries, not on the order or repetition of owners. |
| `Pairing.CapacityCovers` | pegaflow-metaserver/src/backup.rs:392-392 | The rounded-up share gives all items room. |
| `Pairing.ChosenBin` | pegaflow-metaserver/src/backup.rs:396-405 | The chosen bin has room, scores highest among all that have, and is listed first among equals. |
| `Pairing.AssignSound` | pegaflow-metaserver/src/backup.rs:393-405 | Assignment always finds a bin with room, keeps every item exactly as often as given, and overfills no bin. |
| `Pairing.AssignItems` | pegaflow-metaserver/src/backup.rs:393-405 | The assignment loop computes the assignment the other statements are about, for any order of items. |
| `Pairing.DonorCanSpare` | pegaflow-metaserver/src/backup.rs:406-412 | While a bin is empty the fullest bin has two items, so the early exit is never taken. |
| `Pairing.RebalanceSound` | pegaflow-metaserver/src/backup.rs:406-421 | Rebalancing ends with no bin empty, loses and doubles no item, and overfills no bin. |
| `Pairing.FillEmptyBins` | pegaflow-metaserver/src/backup.rs:406-421 | The rebalancing loop terminates and computes that result. |
| `Pairing.ListLinks` | pegaflow-metaserver/src/backup.rs:422-432 | Lists one link per assigned item. |
| `Pairing.FinalLoadSound` | pegaflow-metaserver/src/backup.rs:392-421 | After both phases every item is in one bin once and every bin has between one and its share. |
| `Pairing.ComputePairing` | pegaflow-metaserver/src/backup.rs:374-435 | For every score function and distinct nodes: in the order of their names, the nodes of the larger side take the partner with the highest `score(source, target)` among those that still have room, the first listed among equals; then the first partner left without a node takes, from the first of the fullest, the node that scores best with it, until none is left without. The pairs are exactly the outcome, in name order. No `expect` can fail. |
| `Pairing.PairsAreSeating` | pegaflow-metaserver/src/backup.rs:374-435 | The same as a law of the pairs: room, score and ties are spelled out on the given nodes. |
| `Pairing.ChoiceIsBest` | pegaflow-metaserver/src/backup.rs:396-421 | A node that was not moved scores no lower with its partner than with any partner that was not full with nodes named before it. |
| `Pairing.FirstNamedIsBest` | pegaflow-metaserver/src/backup.rs:396-421 | The first node by name, unless moved, has a partner of highest score. |
| `Pairing.ItemPairedOnce` | pegaflow-metaserver/src/backup.rs:374-435 | For every score, each node of the larger side is in exactly one pair. |
| `Pairing.BinPairedWithinShare` | pegaflow-metaserver/src/backup.rs:374-435 | For every score, each node of the smaller side is paired at least once and at most its rounded-up share. |
| `Pairing.PairInRange` | pegaflow-metaserver/src/backup.rs:422-432 | Pairs join a source to a target, never the other way round. |
| `Pairing.PairsSorted` | pegaflow-metaserver/src/backup.rs:433-434 | Pairs come in the order of their sources, and for one source in the order of their targets. |
| `Pairing.SourceHasTarget` | pegaflow-metaserver/src/backup.rs:374-435 | With any target at all, every source has a backup target. |
| `Pairing.TargetHasSource` | pegaflow-metaserver/src/backup.rs:374-435 | With any source at all, every target has work. |
| `BackupPlanner.OneTargetOwnsBlock` | pegaflow-metaserver/src/backup.rs:265-277 | Of the targets paired with a source exactly one owns a given block: the one whose score, and on equal scores whose name, is above all others. |
| `BackupPlanner.WinnerIgnoresOrder` | pegaflow-metaserver/src/backup.rs:265-277 | The owner of a block does not depend on the order or repetition of the paired targets. |
| `BackupPlanner.BudgetExact` | pegaflow-metaserver/src/backup.rs:313-317 | The saturating 64-bit test stops exactly where the exact byte sum passes the budget. |
| `BackupPlanner.ScanSound` | pegaflow-metaserver/src/backup.rs:292-320 | What a scan drops is gone from the source or already backed up; what it takes is due to this target. |
| `BackupPlanner.ScanSplits` | pegaflow-metaserver/src/backup.rs:292-320 | A scan splits the queue into kept, taken and dropped, each in the old order, nothing lost or doubled. |
| `BackupPlanner.ScanTakesOldest` | pegaflow-metaserver/src/backup.rs:292-320 | Taken entries are the oldest due ones; several fit the budget in exact arithmetic, and it stops early only when one more would pass it; the largest budget is no limit. |
| `BackupScans.ScanExactly` | pegaflow-metaserver/src/backup.rs:292-320 | What a scan leaves behind are the blocks of other targets up to the first due block that did not fit, and everything from there on; due blocks before it are taken, and blocks gone from the source or already backed up are dropped. |
| `BackupPlanner.TakeConserves` | pegaflow-metaserver/src/backup.rs:281-333 | Over all groups, a block worth copying is afterwards in the queue or in the batch, as often as before; without a batch nothing in the queue was due. |
| `BackupPlanner.TakesFirstWanted` | pegaflow-metaserver/src/backup.rs:281-333 | There is no batch exactly when no group has a wanted block; otherwise the batch is what the scan takes from the first group that has one, groups up to it keep what their scan kept, later groups are untouched, and empty groups go. |
| `BackupPlanner.RoundVisits` | pegaflow-metaserver/src/backup.rs:195-200 | A round visits every source wherever the cursor stands. |
| `BackupPlanner.PullMoves` | pegaflow-metaserver/src/backup.rs:168-232 | One pull delivers only blocks due to this target from a paired source, takes them off the queue, and answers nothing only if no source had any. |
| `BackupTurns.SourcesInNameOrder` | pegaflow-metaserver/src/backup.rs:185-190 | The sources of a target come in the order of their names, none twice. |
| `BackupTurns.PullTakesTurns` | pegaflow-metaserver/src/backup.rs:168-232 | An answer comes from the first source, from the cursor on, that has something due to the target, and the cursor moves behind it; without an answer it stays, and cursors of other targets always do. |
| `BackupTurns.AnswersAlternate` | pegaflow-metaserver/src/backup.rs:195-217 | Two answers in a row come from different sources while another source has something due to the target. |
| `BackupTurns.PullForgets` | pegaflow-metaserver/src/backup.rs:176-183 | After a pull no queue is left of a node that is no source, and no cursor of one that is no target. |
| `BackupScans.PullTidy` | pegaflow-metaserver/src/backup.rs:326-329 | A pull leaves no empty group and no empty queue behind. |
| `BackupPlanner.RunConserves` | pegaflow-metaserver/src/backup.rs:168-232 | Over any sequence of pulls by any targets, what is queued plus what was delivered stays the same for every block worth copying, and others are never delivered. |
| `BackupPlanner.NothingDueAfterNone` | pegaflow-metaserver/src/backup.rs:168-232 | After a target was told there is nothing, nothing due to it is queued any more at the end of the run. |
| `BackupPlanner.DrainedExactly` | pegaflow-metaserver/src/backup.rs:168-232 | If every target pulled until it got nothing, each entry that its source visibly holds and no target does was delivered exactly as often as it was queued, and no other. |
| `BackupPlanner.PullShortens` | pegaflow-metaserver/src/backup.rs:168-232 | Every answered pull shortens the queues of the live sources and no pull lengthens them. |
| `BackupPlanner.PatientTargetTold` | pegaflow-metaserver/src/backup.rs:168-232 | A target that pulls more often than entries are queued is told that there is nothing, whoever else pulls in between. |
| `BackupPlanner.PatienceDrains` | pegaflow-metaserver/src/backup.rs:168-232 | So if all targets pull that often, in any order, each such entry is delivered exactly as often as it was queued. |
| `BackupPlanner.WinningTarget` | pegaflow-metaserver/src/backup.rs:265-277 | Every dispatchable block of every source has a paired target that owns it. |
| `BackupPlanner.DeliveredToWinner` | pegaflow-metaserver/src/backup.rs:200-230 | Whatever a pull delivers is visibly held by its source and by no target, and went to the paired target with the highest score for that block, the greater name on equal scores. |
| `BackupPlanner.ReportConserves` | pegaflow-metaserver/src/backup.rs:105-156 | Of a report, blocks without a backup are queued and the others handed back, each as often as reported. |
| `BackupReport.PortionExactly` | pegaflow-metaserver/src/backup.rs:105-156 | The two parts of a report list the blocks with and without a visible target, as often and in the order reported. |
| `BackupPlanner.Planner.Report` | pegaflow-metaserver/src/backup.rs:105-156 | Group by group and in order, the blocks that a target visibly holds are handed back and the others become the queue of this source; groups that would be empty are left out, and so is an empty queue. |
| `BackupPlanner.Planner.ForgetSource` | pegaflow-metaserver/src/backup.rs:159-165 | Forgets the queue of this source only. |
| `BackupPlanner.Planner.TakeBatch` | pegaflow-metaserver/src/backup.rs:281-333 | The loop over groups computes the conserving step, and a queue that became empty is removed. |
| `BackupPlanner.Planner.Plan` | pegaflow-metaserver/src/backup.rs:168-232 | One call is one pull of the runs above, cursor included. |
| `Layout.TwoDistancesSuffice` | pegaflow-core/src/layout.rs:205-225 | If K and V keep clear of each other at the two block distances nearest to their stride, they do at every distance. |
| `Layout.AcceptedInside` | pegaflow-core/src/layout.rs:164-203 | Every K and V range of an accepted layout lies in the registered region. |
| `Layout.AcceptedDisjoint` | pegaflow-core/src/layout.rs:164-225 | No two ranges of an accepted layout overlap, K against V of other blocks included. |
| `Layout.CheckBoundsExact` | pegaflow-core/src/layout.rs:164-225 | A layout passes if and only if its ranges are disjoint and inside the region, except that a lone block also needs a stride that covers it. |
| `Layout.SingleBlockRefused` | pegaflow-core/src/layout.rs:164-203 | That exception is real: a sound one-block layout is refused. |
| `Layout.ConstructedSound` | pegaflow-core/src/layout.rs:73-130 | Every layout the constructor returns is sound. |
| `Layout.ConstructedExactly` | pegaflow-core/src/layout.rs:73-130 | The constructor returns the layout asked for exactly when no size is zero, no sum overflows, K and V are ordered and its ranges are disjoint and inside the region. |
| `Layout.RestridedSound` | pegaflow-core/src/layout.rs:140-153 | So is every layout after its stride was replaced. |
| `Layout.RestridedExactly` | pegaflow-core/src/layout.rs:140-153 | A stride is accepted exactly when it covers a block and the ranges stay disjoint and inside; nothing else changes. |
| `Layout.CopiesInBounds` | pegaflow-core/src/layout.rs:231-255 | Copy ranges are the block's own ranges, are refused exactly for a block out of range, and no address overflows. |
| `Layout.RangesStep` | pegaflow-core/src/layout.rs:231-255 | Ranges of consecutive blocks are one stride apart from the base on, and V lies the K/V stride behind K. |
| `Layout.PaddingCovers` | pegaflow-core/src/layout.rs:157-160 | SSD padding is the least multiple of the alignment that holds a segment. |
| `Layout.RegisteredSound` | pegaflow-core/src/lib.rs:366-393 | Every layout that registration accepts is sound, and its padding depends only on the segment size and on whether the engine has an SSD tier. |
| `PageLayouts.PartitionByShards` | pegaflow-core/src/instance.rs:113-123 | Replicas do not matter: the distinct sorted layer sets are disjoint and covering exactly when the registered ones are equal or disjoint and cover all layers. |
| `PageLayouts.ClaimLayers` | pegaflow-core/src/instance.rs:124-136 | Finds a clash exactly when two shards overlap, and otherwise the shard of every claimed layer. |
| `PageLayouts.BuildPageLayout` | pegaflow-core/src/instance.rs:107-162 | Succeeds exactly when the registered sets are pairwise equal or disjoint and cover every layer, and names the violated half otherwise. |
| `PageLayouts.LayOut` | pegaflow-core/src/instance.rs:145-160 | Offsets and page sizes are the sums of the padded sizes before a layer and of the whole shard. |
| `PageLayouts.LayersApart` | pegaflow-core/src/instance.rs:148-155 | Layers of one shard do not overlap in its page. |
| `PageLayouts.LayerInPage` | pegaflow-core/src/instance.rs:148-155 | Every layer ends inside its page. |
| `PageLayouts.PageTiled` | pegaflow-core/src/instance.rs:148-155 | Every byte of a page belongs to a layer of that shard: no gap. |
| `PageLayouts.LayoutIgnoresWorkerOrder` | pegaflow-core/src/instance.rs:107-162 | Workers in any order with any number of replicas give the same layout or none. |
| `PageLayouts.OffsetsAligned` | pegaflow-core/src/instance.rs:148-155 | Offsets keep any alignment that all layer sizes have. |
| `Topology.SlotInGroup` | pegaflow-core/src/instance.rs:208-269 | A layer's slot is below its storage group's slot count, page-first or layer-first. |
| `Topology.SlotIndexExactly` | pegaflow-core/src/instance.rs:251-269 | There is a slot exactly for the layers and ranks of the instance, and with pages it is the page of the layer. |
| `Topology.SlotInjective` | pegaflow-core/src/instance.rs:251-269 | In one storage group of a layer-first topology, different (layer, rank) pairs have different slots. |
| `Topology.SlotsInOrder` | pegaflow-core/src/instance.rs:251-269 | In one storage group, slots go layer by layer in layer order and rank by rank within a layer. |
| `Topology.RanksShareSlot` | pegaflow-core/src/instance.rs:251-269 | Two ranks share the slot of a layer exactly in page-first topologies. |
| `Topology.RankKeptExactly` | pegaflow-core/src/instance.rs:251-269 | A slot tells the ranks of a layer apart if and only if there are no pages or only one rank. |
| `Topology.SlotSurjective` | pegaflow-core/src/instance.rs:208-269 | Every slot of a group is the slot of some layer of the group and some rank. |
| `Topology.LookupNeverMisses` | pegaflow-core/src/lib.rs:818-875 | A block with as many slots as the storage group has the slot of every layer of the group. |
| `Sealing.Collect` | pegaflow-core/src/instance.rs:517-571 | Succeeds exactly when no two workers disagree about a layer, and then knows every layer of every worker. |
| `Sealing.NumberLayers` | pegaflow-core/src/instance.rs:544-551 | Layers are numbered in name order, each once. |
| `Sealing.DenseByCount` | pegaflow-core/src/instance.rs:572-585 | Counting the groups in use decides whether they are 0 up to the largest. |
| `Sealing.CountGroups` | pegaflow-core/src/instance.rs:572-585 | Reports density and the group count. |
| `Sealing.RankLayers` | pegaflow-core/src/instance.rs:586-597 | A layer's rank is the number of earlier layers of its group; group counts are exact. |
| `Sealing.FillGrid` | pegaflow-core/src/instance.rs:610-632 | Fails exactly when two owners of a layer and rank are in different pipeline stages. |
| `Sealing.GridFull` | pegaflow-core/src/instance.rs:633-645 | The grid has a hole exactly when some layer has no owner for some rank. |
| `Sealing.SetsPartition` | pegaflow-core/src/instance.rs:647-662 | For registered workers the page condition is that any two hold the same layers or none in common. |
| `Sealing.PlaceLayers` | pegaflow-core/src/instance.rs:500-597 | Tables exist exactly when workers agree and groups are dense; otherwise the first reason is returned. |
| `Sealing.CheckOwners` | pegaflow-core/src/instance.rs:610-645 | Tells mixed stages from a missing owner, and neither from a full grid. |
| `Sealing.PlacePages` | pegaflow-core/src/instance.rs:647-662 | Pages are built exactly when workers are replicas or disjoint. |
| `Sealing.SealTopology` | pegaflow-core/src/instance.rs:500-672 | Seals exactly the worker sets against which there is no reason, and returns the first reason otherwise. |
| `SealLaws.SealableExactly` | pegaflow-core/src/instance.rs:500-662 | Workers can be sealed exactly when those that share a layer agree on its segments, padding and group, groups are 0 up to some number, owners of a layer and rank are in one stage, every layer has every rank, and with pages there is one group and workers hold the same layers or none in common. |
| `SealLaws.SealedLayers` | pegaflow-core/src/instance.rs:544-597 | Layers are numbered by name and lie in the group their workers gave them, 0 where none was given. |
| `SealLaws.PagesNumbered` | pegaflow-core/src/instance.rs:107-162 | Layers share a page exactly when a worker holds both, and pages are numbered in the order of their first layers. |
| `Sealing.SealedUnique` | pegaflow-core/src/instance.rs:500-672 | Workers registered in any order seal to one and the same topology. |
| `Registration.NewInstance` | pegaflow-core/src/instance.rs:423-445 | Refuses exactly instances without ranks or without workers; otherwise the instance is open and has no workers. |
| `Registration.Instance.Admit` | pegaflow-core/src/instance.rs:771-796 | Lets a worker in exactly when its rank, layers and device are acceptable and the instance is open. |
| `Registration.Instance.Complete` | pegaflow-core/src/instance.rs:798-825 | Checks again under the lock, seals with the last worker and only then; a refused registration leaves no trace, so it can be tried again. |
| `Registration.SealWith` | pegaflow-core/src/instance.rs:802-806 | The seal is over all workers including the arriving one, in whatever order they are listed. |
| `Blocks.InsertSound` | pegaflow-core/src/block.rs:408-438 | Every slot write keeps `remaining` equal to the empty slots and the footprint equal to the filled sizes in 64 bits. |
| `Blocks.InflightBlock.constructor` | pegaflow-core/src/block.rs:376-385 | A new block has every slot empty. |
| `Blocks.InflightBlock.Insert` | pegaflow-core/src/block.rs:408-438 | Reports a duplicate exactly for a filled slot and completion exactly when the last slot was filled. |
| `Blocks.InflightBlock.Seal` | pegaflow-core/src/block.rs:442-453 | Sealing freezes slots, placement and footprint as they are. |
| `Blocks.FullExactly` | pegaflow-core/src/block.rs:408-453 | Nothing remains exactly when every slot is filled. |
| `Blocks.FirstWriteWins` | pegaflow-core/src/block.rs:408-438 | After any list of writes a slot holds what it held, else its first write. |
| `Blocks.FirstWriteExactly` | pegaflow-core/src/block.rs:408-438 | The first write of a slot is the one before which no write has that slot. |
| `Blocks.SizeAdds` | pegaflow-core/src/block.rs:131-142 | The size of a block is the sum of its segments. |
| `Blocks.Saturates` | pegaflow-core/src/block.rs:315-341 | The footprint of an ordered batch is the exact sum cut at the 64-bit maximum. |
| `Blocks.TotalAdds` | pegaflow-core/src/block.rs:315-341 | That sum adds up the blocks one by one. |
| `Blocks.FromOrdered` | pegaflow-core/src/block.rs:315-341 | Seals at once exactly the batches that carry every slot in slot order. |
| `Blocks.FirstBatchWins` | pegaflow-core/src/block.rs:408-438 | Over several saves, a slot and its NUMA node are those of the first write. |
| `Blocks.AnyOrderSealsAlike` | pegaflow-core/src/block.rs:315-453 | Saves that write all slots in any order, with repetitions and from any NUMA nodes, seal to the block the ordered list gives at once, exactly when the sizes sum to the same footprint under wrapping and saturation and the first writes come from the same node. |
| `Blocks.OverflowDiffers` | pegaflow-core/src/block.rs:315-453 | Two slots of 2^63 bytes in one segment each, for which the two blocks differ. |
| `WritePath.FillUntilComplete` | pegaflow-core/src/storage/write_path.rs:214-257 | Stopping at the completing write loses nothing: the block is as if all writes had been made. |
| `WritePath.InsertWorker.InsertPartial` | pegaflow-core/src/storage/write_path.rs:214-267 | Fills a pending block and seals and forgets it exactly when that completes it. |
| `WritePath.InsertWorker.ProcessBatch` | pegaflow-core/src/storage/write_path.rs:127-208 | Entry by entry, resident keys are dropped and no complete block stays pending. |
| `WritePath.ProcessIncomplete` | pegaflow-core/src/storage/write_path.rs:143-186 | A block that became complete is never left in the pending map. |
| `WritePath.SealsExactlyWhenFull` | pegaflow-core/src/storage/write_path.rs:143-186 | An entry that is no duplicate seals its key exactly when every slot is filled by it or was before. |
| `WritePath.FirstSaveWins` | pegaflow-core/src/storage/write_path.rs:143-186 | Two saves of one slot before the block is complete: the sealed block holds the first, whatever the second holds. |
| `WritePath.BatchTraced` | pegaflow-core/src/storage/write_path.rs:127-208 | Every slot of every sealed or pending block was delivered for that key and that slot by some batch. |
| `SealHistory.OpenIsPending` | pegaflow-core/src/storage/write_path.rs:127-267 | After any arrivals a key is pending exactly when some but not all of its slots were written since it was last sealed, and every slot has its first write of that time. |
| `SealHistory.SealsExactlyCovered` | pegaflow-core/src/storage/write_path.rs:127-267 | Over any run of arrivals, an arrival seals its key exactly when it is neither a late duplicate nor of another slot count and, with it, every slot was written since the key was last sealed; every slot of the block holds the first content of that time. |
| `SealHistory.BatchFollows` | pegaflow-core/src/storage/write_path.rs:127-208 | Processing a batch is the run of its entries, one arrival each. |
| `InsertEntries.GroupByHash` | pegaflow-core/src/offload.rs:124-135 | The hash map holds for each hash its writes in batch order. |
| `InsertEntries.WritesExactly` | pegaflow-core/src/offload.rs:124-135 | The writes of a hash are those listed with it, as often and in the order listed. |
| `InsertEntries.HashedEntries` | pegaflow-core/src/offload.rs:124-141 | One entry per hash, and every (hash, slot, block) triple is kept exactly as often as it occurs. |
| `InsertEntries.OrderedEntries` | pegaflow-core/src/offload.rs:100-121 | One entry per position of the shared list, with the same conservation of triples. |
| `InsertEntries.OrderedEntryAt` | pegaflow-core/src/offload.rs:100-121 | The entry of a listed hash has, layer by layer, the slot and the block of that position. |
| `InsertEntries.CountColumns` | pegaflow-core/src/offload.rs:100-121 | Transposing layers into positions neither loses nor doubles a triple. |
| `InsertEntries.PathsAgree` | pegaflow-core/src/offload.rs:72-141 | The ordered way groups like the hash map if and only if the shared list has no repeated hash. |
| `InsertEntries.RepeatedHashSplits` | pegaflow-core/src/offload.rs:100-141 | A hash listed twice: the ordered way makes two entries of one write each, the hash map one entry of both. |
| `InsertEntries.BuildInsertEntries` | pegaflow-core/src/offload.rs:72-96 | Whichever way is taken, the entries keep the batch; with a shared order there is one entry per listed hash with what each layer has for it in layer order, otherwise one entry per hash. |
| `Transfer.HostReceives` | pegaflow-core/src/gpu_worker.rs:482-523 | Copies to the host that do not overlap, or repeat each other, all arrive. |
| `Transfer.HostReceivesBytes` | pegaflow-core/src/gpu_worker.rs:482-523 | Each byte of the host range is the byte at the same distance in the device range. |
| `Transfer.DeviceReceives` | pegaflow-core/src/gpu_worker.rs:428-477 | Copies to the device that do not overlap all arrive. |
| `Transfer.DeviceReceivesBytes` | pegaflow-core/src/gpu_worker.rs:428-477 | Each byte of the device range is the byte at the same distance in the host range. |
| `Transfer.JoinTwo` | pegaflow-core/src/transfer/memcpy.rs:25-55 | Two copies that adjoin on both sides do what one longer copy does, in either direction and on any memory. |
| `Transfer.EffectCompose` | pegaflow-core/src/transfer/memcpy.rs:25-55 | Replacing parts of a copy list by parts of the same effect keeps the effect of the list. |
| `Transfer.ExtendRun` | pegaflow-core/src/transfer/memcpy.rs:31-46 | A run grows as long as the next copy adjoins it and no longer. |
| `Transfer.Coalesce` | pegaflow-core/src/transfer/memcpy.rs:25-55 | The merged list has the same effect as the given one in both directions; each merged copy covers one run of copies that continue one another in the same allocations on both sides, the runs make up the list, and no run continues the one before it. |
| `CopyDescs.CoordsExact` | pegaflow-core/src/gpu_worker.rs:353-423 | Every range of every block of every layer has exactly one descriptor. |
| `CopyDescs.BlockDescs` | pegaflow-core/src/gpu_worker.rs:368-418 | One block gives its K and V descriptors in order, and fails exactly when out of range. |
| `CopyDescs.BuildCopyDescs` | pegaflow-core/src/gpu_worker.rs:353-423 | Fails exactly when some block index is out of range; otherwise the list is the descriptors of all ranges in order. |
| `CopyDescs.DeviceImageBytes` | pegaflow-core/src/layout.rs:231-255 | The image of a device block, byte by byte: K from one stride per block behind the base, V from the K/V stride behind K. |
| `CopyDescs.HostImageBytes` | pegaflow-core/src/gpu_worker.rs:368-418 | The image of a host block, byte by byte: from the layer's start in the first segment, V in the second segment or, without one, right behind K. |
| `CopyDescs.SaveMoves` | pegaflow-core/src/gpu_worker.rs:482-523 | After a save every host block holds the bytes of its device block, for contiguous and split layouts. |
| `CopyDescs.LoadMoves` | pegaflow-core/src/gpu_worker.rs:428-477 | After a load every device block holds the bytes of its host block. |
| `CopyDescs.SaveLeaves` | pegaflow-core/src/gpu_worker.rs:482-523 | A save changes no other host byte. |
| `CopyDescs.LoadLeaves` | pegaflow-core/src/gpu_worker.rs:428-477 | A load changes no other device byte. |
| `SaveTargets.AllocateLayer` | pegaflow-core/src/offload.rs:450-510 | Per block or for the whole layer, K and V apart or together, the blocks of a layer get fresh host ranges with room that do not overlap. |
| `SaveTargets.LayerFirstTargets` | pegaflow-core/src/offload.rs:450-526 | Every layer gets such ranges in allocations no other layer of the save uses. |
| `SaveTargets.LayerFirstApart` | pegaflow-core/src/offload.rs:450-526 | So no two copies of a layer-first save share a host byte. |
| `SaveTargets.CoverByCount` | pegaflow-core/src/offload.rs:226-243 | Comparing the number of distinct saved layers with the shard's decides whether the whole shard is saved. |
| `SaveTargets.CheckShard` | pegaflow-core/src/offload.rs:192-243 | Accepts exactly saves of one whole shard, contiguous, with the same blocks in every layer. |
| `SaveTargets.PageFirstTargets` | pegaflow-core/src/offload.rs:182-282 | Accepted saves get one fresh page per block, and every layer its piece of each page; refusals are for the shard condition or lack of memory. |
| `SaveTargets.PieceRoom` | pegaflow-core/src/offload.rs:257-280 | A layer's piece of a page has room for its block and ends inside the page. |
| `SaveTargets.PageFirstApart` | pegaflow-core/src/offload.rs:182-282 | Pieces of one page do not overlap; a layer listed twice only repeats its copies. |
| `SavePath.GroupHashExactly` | pegaflow-common/src/block.rs:33-42 | Two content hashes share a key in two storage groups exactly when hash and group are equal, or one hash is the other with its group appended and is itself in group 0. |
| `SavePath.GroupHashBytes` | pegaflow-common/src/block.rs:33-42 | Group 0 keeps the hash; any other group is appended as four bytes, the most significant first. |
| `SavePath.GroupHashCollides` | pegaflow-common/src/block.rs:33-42 | The colliding pairs: any hash in any group but 0, and the same hash with that group appended. |
| `SavePath.KeysApartExactly` | pegaflow-common/src/block.rs:33-42 | Keys tell all hashes of a set and all groups apart if and only if no hash of the set is another one with a group in use appended. |
| `SavePath.UsualKeysApart` | pegaflow-common/src/block.rs:33-42 | Hashes of one length satisfy that, and with a single storage group every set does. |
| `SavePath.ResolveAll` | pegaflow-core/src/offload.rs:310-425 | Fails exactly when some layer has lists of different lengths, is unknown, is not on the device or names a block out of range, with the first such layer as the reason; otherwise there is a context for exactly the layers that have a block whose key is not resident, listing exactly those blocks, as often and in the order given. |
| `SavePath.NotResidentExactly` | pegaflow-core/src/offload.rs:397-404 | What the filter leaves of a layer are the blocks whose key is not resident, as often and in the order given. |
| `SavePath.ContextsExactly` | pegaflow-core/src/offload.rs:320-409 | The same for all layers of a request; layers with nothing left are dropped, the others keep their order. |
| `SavePath.OldMemoryKept` | pegaflow-core/src/offload.rs:426-545 | A save changes no byte of memory that was allocated before it. |
| `SavePath.NewIntact` | pegaflow-core/src/offload.rs:530-556 | After the copies every stored slot holds, at the layer's place in it, the bytes the device had. |
| `SavePath.DeliveryRecorded` | pegaflow-core/src/offload.rs:594-656 | For whatever a save delivers to a slot, the bytes of every layer that is read from that slot were recorded, in page-first mode for all layers of the page. |
| `SaveBatches.BatchesByGroup` | pegaflow-core/src/offload.rs:627-656 | One batch per storage group that has layers, in group order. |
| `SaveBatches.LayerBatched` | pegaflow-core/src/offload.rs:627-656 | Every layer of a save ends up in a batch that carries the slot count of its own storage group. |
| `SaveBatches.BatchOfGroup` | pegaflow-core/src/offload.rs:627-656 | A batch never mixes storage groups. |
| `SaveBatches.EntriesDelivered` | pegaflow-core/src/offload.rs:72-141 | The entries built from a batch deliver nothing the save did not store. |
| `LoadPath.StorageGroups` | pegaflow-core/src/lib.rs:762-784 | Accepts exactly load groups whose layers are known and of one storage group, and tells an unknown layer from a mixture. |
| `LoadPath.CheckLease` | pegaflow-core/src/lib.rs:794-832 | Accepts a lease exactly when it has one destination list per group, one entry per block, and every block with a destination has its storage group's slots; otherwise says which of these is wrong. |
| `LoadPath.CollectTargets` | pegaflow-core/src/lib.rs:785-842 | Fails exactly when some lease is not acceptable; otherwise the targets of each group are all leased blocks that have a destination in it, each once with its destination, key and block, in the order of the leases and of their blocks. |
| `LoadPath.TargetFrom` | pegaflow-core/src/lib.rs:802-842 | The targets of a group are exactly the blocks of leases with the destination that the lease gave them. |
| `LoadPath.TargetsRead` | pegaflow-core/src/lib.rs:833-842 | Collecting leaves out no block that has a destination and doubles none. |
| `LoadPath.NamedOnceExactly` | pegaflow-core/src/lib.rs:746-757 | Counting the names over all groups tells exactly whether a layer is named twice, in one group or in two. |
| `LoadPath.BuildLayer` | pegaflow-core/src/lib.rs:851-893 | Succeeds exactly when the layer is known, registered and every target has its slot; then every target is read from that slot at the layer's offset. |
| `LoadPath.BuildLayers` | pegaflow-core/src/lib.rs:845-894 | Every layer of every group with targets is loaded, once, and a failure names a layer that cannot be loaded or a slot that is missing. |
| `SaveLoad.KeysOfGroups` | pegaflow-common/src/block.rs:33-42 | If keys tell the hashes in use apart, every key was used by one storage group only. |
| `SaveLoad.SlotHoldsSaved` | pegaflow-core/src/lib.rs:860-893 | What a load will read for a layer is what the save recorded that put this content into the slot, a save of this layer under this key, and of this rank wherever slots tell ranks apart. |
| `SaveLoad.SameRawSameImage` | pegaflow-core/src/instance.rs:517-542 | Saves of one layer by any workers that lie in the same place have the same bytes. |
| `SaveLoad.LoadApart` | pegaflow-core/src/lib.rs:845-894 | With distinct destinations and layers that do not share memory, no two copies of a load overlap. |
| `SaveLoad.InBlocksExactly` | pegaflow-core/src/gpu_worker.rs:353-423 | The copy builder refuses a load exactly when some destination is not a block of a layer it is loaded into. |
| `SaveLoad.LoadTouchesOnlyTargets` | pegaflow-core/src/gpu_worker.rs:428-477 | A load changes nothing outside the ranges of its destinations. |
| `SaveLoad.LoadRestores` | pegaflow-core/src/lib.rs:726-905 | After a load every destination of every layer holds the bytes recorded by the save whose content the block holds in that slot. |
| `Engine.SaveKeepsTrust` | pegaflow-core/src/offload.rs:293-656 | A save adds its records and damages none: all recorded bytes, old and new, are still where the deliveries say. |
| `Engine.LeaseFitsExactly` | pegaflow-core/src/lib.rs:811-832 | The slot-count check against the resolved group is the check against the group of every layer to be loaded. |
| `Engine.NeverMisses` | pegaflow-core/src/lib.rs:818-875 | After that check no slot lookup of the load can fail. |
| `Engine.PlanLoad` | pegaflow-core/src/lib.rs:735-894 | A load is planned exactly when its groups are non-empty, distinct and homogeneous, its leases fit and its layers are on the device; its targets are all leased blocks with a destination; a missing slot is never found, and every error has its cause in the request. |
| `Engine.LoadSound` | pegaflow-core/src/lib.rs:726-905 | A planned load restores every destination and leaves every other byte of the device. |
| `Engine.LeasesLoaded` | pegaflow-core/src/lib.rs:785-894 | Told by the leases: every destination they give for a group, in every layer of the group, and nothing outside. |
| `Engine.LeasesInRange` | pegaflow-core/src/gpu_worker.rs:353-423 | Destinations are in range exactly when every destination a lease gives is a block of every layer of its group. |
| `Engine.PegaEngine.constructor` | pegaflow-core/src/lib.rs:142-180 | An engine starts with nothing stored and its invariant holding. |
| `Engine.PegaEngine.Save` | pegaflow-core/src/offload.rs:293-656 | Refused exactly for a wrong worker, a layer that cannot be saved or a broken page condition, or for lack of memory, with the first reason and without a trace; otherwise, for every layer of the request and every block of it whose key is not resident, the device bytes of that block are recorded under that key, layer and rank and delivered to its slot, and nothing else is. |
| `Engine.SaveTold` | pegaflow-core/src/offload.rs:310-656 | What a save adds, told by its request and the resident keys alone. |
| `Progress.SaveAdvances` | pegaflow-core/src/offload.rs:594-656 | Whatever a save delivers waits in one of its batches. |
| `Progress.BatchArrives` | pegaflow-core/src/storage/write_path.rs:127-208 | What a batch delivers for a key that is not resident is afterwards in the pending block of that key, or a block of that key was sealed. |
| `Progress.InsertAdvances` | pegaflow-core/src/storage/write_path.rs:127-208 | Processing a batch loses no delivery of any key that one storage group uses: it waits, is filled in, is sealed, or its key was resident. |
| `Progress.DrainedIsSealed` | pegaflow-core/src/storage/write_path.rs:127-267 | With the queue drained, a key whose slots were all delivered is sealed with exactly its storage group's slots, unless it was resident when a batch came in. |
| `Progress.LayersDelivered` | pegaflow-core/src/instance.rs:251-269 | In a layer-first instance all slots are delivered once every layer and rank of the storage group is. |
| `Engine.PegaEngine.Insert` | pegaflow-core/src/storage/write_path.rs:127-208 | The oldest batch is processed, its entries join the history of arrivals, and everything sealed is traceable to a save. |
| `Engine.PegaEngine.SealedWhenDrained` | pegaflow-core/src/storage/write_path.rs:127-267 | In every run, once the queue is empty, a key of one storage group whose slots were all delivered has a sealed block with all its slots. |
| `Engine.PegaEngine.LoadGivesFirst` | pegaflow-core/src/lib.rs:849-894 | In every run, whatever was saved under the key and however often: a load gives the bytes of the save whose content reached the slot first since the key was last sealed. |
| `Engine.PegaEngine.Load` | pegaflow-core/src/lib.rs:726-905 | Accepted exactly when the request is well formed and its destinations exist, and every error has its cause in the request; then, for every lease, group and block with a destination, that destination holds in every layer of the group the bytes recorded by the save whose content the block holds in the slot, and no other byte of the device changed. |
| `Engine.RestoresHeld` | pegaflow-core/src/lib.rs:849-894 | A loaded destination has the bytes of every recorded save of its layer whose content the block holds in the slot. |
| `Engine.RoundTrip` | pegaflow-core/src/lib.rs:849-894 | A block saved on one device and loaded on any device of the sealed instance has the bytes it had, in contiguous, split and page-first layouts, whenever the leased block holds what that save stored, whatever else was saved under any key. |
| `Engine.OnlySaveRestored` | pegaflow-core/src/lib.rs:849-894 | If all that was ever delivered for the key and slot is what one save stored, the destination has the bytes of that save. |
| `Engine.RoundTripExactly` | pegaflow-core/src/lib.rs:849-894 | Of several saves under one key, a load gives the bytes of a given one if and only if the save whose content is in the slot has the same bytes. |
| `Engine.RanksLoadAlike` | pegaflow-core/src/instance.rs:251-269 | On every page-first instance, ranks that load one block get the same bytes, whatever each of them saved. |
| `Engine.SavesKeyed` | pegaflow-core/src/offload.rs:310-425 | A save uses only keys of the content hashes it was given, each for the storage group of its layer. |
| `Engine.SealedIsSound` | pegaflow-core/src/instance.rs:500-672 | Whatever sealing makes of workers registered on one engine is all that saves and loads rely on, so the round trip applies to every sealed instance. |
| `SharedPages.ReplicasSeal` | pegaflow-core/src/instance.rs:500-672 | Two tensor-parallel replicas of one layer seal to a page-first topology. |
| `SharedPages.SecondRankLost` | pegaflow-core/src/instance.rs:251-269 | On it, with both ranks having saved their own byte under one key, every load of the block on rank 1 gives the byte of rank 0. |
| `SharedPages.SuchALoad` | pegaflow-core/src/lib.rs:849-894 | The engine accepts such a load, and a device memory as the load leaves it exists. |
| `SharedPages.MixUp` | pegaflow-core/src/lib.rs:849-894 | A run of the engine: both ranks save their byte under one key, the queue is drained, both load the block, and unless memory ran out both hold the same byte. |
| `HyperLogLog.BucketIndexIs` | pegaflow-common/src/hll.rs:109-117 | The shifted 24-bit head is the number spelled by the first bits of the hash, short hashes padded with zeros, and indexes a register. |
| `HyperLogLog.CountLeadingZeros` | pegaflow-common/src/hll.rs:120-139 | Counts the zero bits after the bucket bits over the whole hash, in a byte that wraps. |
| `HyperLogLog.Insert` | pegaflow-common/src/hll.rs:60-68 | Raises exactly the register of the hash's bucket. |
| `HyperLogLog.Merge` | pegaflow-common/src/hll.rs:76-86 | Register by register the larger one. |
| `HyperLogLog.FedIsHighest` | pegaflow-common/src/hll.rs:60-68 | A register is the largest rank among the hashes of its bucket. |
| `HyperLogLog.HighestReached` | pegaflow-common/src/hll.rs:60-68 | That bound is reached by some hash, so it is a maximum. |
| `HashBits.StreamBits` | pegaflow-common/src/hll.rs:109-139 | The stream is the hash, bit by bit from the top of its first byte, with zeros up to 32 bits. |
| `HashBits.BucketExactly` | pegaflow-common/src/hll.rs:109-117 | The bucket number is spelled by the first bits of the hash. |
| `HashBits.RhoExactly` | pegaflow-common/src/hll.rs:120-139 | The rank is one more than the number of zero bits behind them, in a byte. |
| `HashBits.RegistersExactly` | pegaflow-common/src/hll.rs:60-68 | A register is the largest rank of a hash of its bucket, and 0 without one. |
| `HyperLogLog.SameHashesSameRegisters` | pegaflow-common/src/hll.rs:60-68 | Registers depend only on the set of hashes seen, not on order or repetition. |
| `HyperLogLog.UnionIsFed` | pegaflow-common/src/hll.rs:76-86 | Merging equals having seen both inputs. |
| `HllTrackerModule.AlignedWithin` | pegaflow-common/src/hll.rs:296-304 | A new slot starts neither before the last one nor after now. |
| `HllTrackerModule.AlignedContainsNow` | pegaflow-common/src/hll.rs:296-304 | It contains now if and only if the number of elapsed slots fits 32 bits. |
| `HllTrackerModule.RecordedOrdered` | pegaflow-common/src/hll.rs:281-317 | Slot starts never decrease and never pass now. |
| `HllTrackerModule.RecordedAdds` | pegaflow-common/src/hll.rs:281-317 | Whether or not a slot is opened, exactly the given hashes and requests are added; without requests nothing is. |
| `HllTrackerModule.RecordedPlaces` | pegaflow-common/src/hll.rs:281-317 | A slot is opened exactly when there is none or the last one is a slot length old, and where it starts; older slots stay. |
| `HllTrackerModule.StrictExactly` | pegaflow-common/src/hll.rs:281-317 | Starts stay strictly increasing if and only if no new slot is opened after a multiple of 2^32 slot lengths. |
| `HllTrackerModule.StartsCanRepeat` | pegaflow-common/src/hll.rs:296-304 | An input for which two slots start at one instant. |
| `HllTrackerModule.SurvivorsYoung` | pegaflow-common/src/hll.rs:352-361 | No slot that survives a read is as old as the window. |
| `HllTrackerModule.ExpiresExactly` | pegaflow-common/src/hll.rs:352-361 | A read drops slots from the front up to the first that is younger than the window, and no other. |
| `HllTrackerModule.SlotsAddUp` | pegaflow-common/src/hll.rs:327-350 | The hashes and requests of a window are those of its slots, put together. |
| `HllTrackerModule.HllTracker.constructor` | pegaflow-common/src/hll.rs:254-263 | A new tracker has observed nothing. |
| `HllTrackerModule.HllTracker.Record` | pegaflow-common/src/hll.rs:281-317 | The tracker has observed the hashes and requests in the slot of now: in the last slot while it lasts, else in a new one that starts whole slot lengths behind it; a valid cached merge stays valid. |
| `HllTrackerModule.HllTracker.Expire` | pegaflow-common/src/hll.rs:352-361 | Popping from the front removes exactly the expired slots. |
| `HllTrackerModule.HllTracker.EnsureMerged` | pegaflow-common/src/hll.rs:365-375 | Afterwards the cache is the merge of all finished slots. |
| `HllTrackerModule.HllTracker.Metric` | pegaflow-common/src/hll.rs:327-350 | The registers estimated from are those of one fresh HyperLogLog fed every hash of the unexpired slots, and the total is the requests of these slots. |
| `FrequencySketch.RowCovers` | pegaflow-core/src/cache.rs:180-233 | A row that bounds every key's exact count from above still does after any access, with saturation and halving. |
| `FrequencySketch.RowSharp` | pegaflow-core/src/cache.rs:180-233 | A cell that only one key ever hits is that key's exact count. |
| `FrequencySketch.RowsNext` | pegaflow-core/src/cache.rs:246-253 | Both hold for all rows after one access, whatever the hash functions. |
| `FrequencySketch.EstimateSound` | pegaflow-core/src/cache.rs:192-201 | The estimate is never below the exact count under the same schedule, and equal when some row has no collision. |
| `FrequencySketch.ExactIsCount` | pegaflow-core/src/cache.rs:180-233 | Within the first window the exact count of a key is the number of its accesses, cut at 255. |
| `FrequencySketch.ExactWithin` | pegaflow-core/src/cache.rs:204-233 | Within any window the exact count grows by one per access to the key, up to 255, and by nothing else. |
| `FrequencySketch.ExactFades` | pegaflow-core/src/cache.rs:204-233 | Every full window halves the exact count of a key that is not accessed any more. |
| `FrequencySketch.TinyLfu.Get` | pegaflow-core/src/cache.rs:192-201 | Reading gives an estimate that is never below the exact count under the same schedule and equal to it when some row has no collision; up to the window length that count is the number of accesses to the key, cut at 255. |
| `FrequencySketch.TinyLfu.Incr` | pegaflow-core/src/cache.rs:246-253 | Recording an access keeps the bounds and returns such an estimate of the history including it. |
| `FrequencySketch.BumpRow` | pegaflow-core/src/cache.rs:204-233 | Cell by cell: when the window is full every cell is halved first; then the cell of the key is raised by one, stopping at 255, and no other changes. |
| `SizeClass.RoundedLeast` | pegaflow-core/src/allocator.rs:161-165 | The rounded size is the least class boundary not below the request. |
| `SizeClass.RefusedExactly` | pegaflow-core/src/allocator.rs:161-165 | None is returned exactly when that boundary does not fit 32 bits. |
| `SizeClass.Idempotent` | pegaflow-core/src/allocator.rs:161-165 | A class size is its own class. |
| `SizeClass.Monotone` | pegaflow-core/src/allocator.rs:161-165 | Larger requests never get smaller classes. |
| `SizeClass.WasteBound` | pegaflow-core/src/allocator.rs:161-165 | Rounding wastes less than an eighth of the request. |
| `SizeClass.RequestCovers` | pegaflow-core/src/allocator.rs:106-134 | What is taken from the allocator covers the bytes asked for, and nothing is taken exactly for zero bytes. |
| `SizeClass.RequestExactly` | pegaflow-core/src/allocator.rs:106-134 | A request takes the least class boundary whose units hold its bytes, and is refused exactly when that does not fit 32 bits. |
| `CpuList.FormatCpuList` | pegaflow-common/src/numa.rs:49-79 | The loop over `start` and `prev` prints the maximal runs of the list. |
| `CpuList.ParseCpuList` | pegaflow-common/src/numa.rs:131-167 | The loop over parts parses exactly what the grammar of parts accepts, and fails otherwise. |
| `CpuList.SplitJoin` | pegaflow-common/src/numa.rs:131-140 | Splitting undoes joining for pieces without the separator. |
| `CpuListText.JoinSplit` | pegaflow-common/src/numa.rs:139-147 | Joining undoes splitting, and no piece contains the separator. |
| `CpuListText.DigitsExactly` | pegaflow-common/src/numa.rs:147-159 | Digits are accepted exactly when the number they stand for fits 64 bits. |
| `CpuListText.NumberExactly` | pegaflow-common/src/numa.rs:147-159 | A number is such digits, with or without a plus sign before them. |
| `CpuListText.PartExactly` | pegaflow-common/src/numa.rs:140-160 | A part is one number, or two with one dash between them. |
| `CpuListText.PartAlone` | pegaflow-common/src/numa.rs:139-166 | A list of one part has the ids from its first to its last number. |
| `CpuListText.CommaExactly` | pegaflow-common/src/numa.rs:139-166 | A list may go on with a comma and one more part, and then has the ids of both. |
| `CpuListText.PrintedText` | pegaflow-common/src/numa.rs:49-79 | Neighbours are printed with a dash, what does not follow behind a comma. |
| `CpuListText.DecimalText` | pegaflow-common/src/numa.rs:49-79 | Numbers are printed with decimal digits, the last one last. |
| `CpuList.RunsCover` | pegaflow-common/src/numa.rs:49-79 | Without a wrap the printed runs contain exactly the listed ids. |
| `CpuList.NormalExact` | pegaflow-common/src/numa.rs:163-166 | Sorting and removing neighbours that repeat gives the ascending list of the same ids. |
| `CpuList.RoundTrip` | pegaflow-common/src/numa.rs:49-167 | Parsing the printed list gives its ids sorted and without repetition, for every list in which 0 never directly follows the largest id. |
| `CpuList.SpansAreRuns` | pegaflow-common/src/numa.rs:49-79 | The printed runs are, one by one, the first and last ids of spans of ids that follow each other. |
| `CpuList.SpansMaximal` | pegaflow-common/src/numa.rs:49-79 | The spans put together are the list, and none could be longer. |
| `CpuList.PrintedExactly` | pegaflow-common/src/numa.rs:49-79 | An id is in a printed run exactly when it is listed in a span that does not wrap. |
| `CpuList.RoundTripExactly` | pegaflow-common/src/numa.rs:49-167 | For every list that fits memory, with or without repetitions, parsing the printed list gives its ids if and only if every id is listed in some span that does not wrap. |
| `CpuList.RoundTripDistinct` | pegaflow-common/src/numa.rs:49-167 | Without repetitions that is when 0 never directly follows the largest id. |
| `CpuList.RoundTripSorted` | pegaflow-common/src/numa.rs:49-167 | On strictly increasing lists printing and parsing are inverse. |
| `CpuList.WrapLoses` | pegaflow-common/src/numa.rs:56-60 | The largest id followed by 0 prints as one run that parses to nothing. |

## Left out

- Load: assumes leases of sealed blocks under keys that no other storage group used (KeysOfGroups says when), one lease entry per destination block, and layers that do not share device memory.
- SealedWhenDrained: says nothing of a key that was resident when one of its batches came in, because late duplicates are dropped, nor of a key that two storage groups used.
- CountLeadingZeros: models the byte counter's wrap in an unchecked build; an overflow-checked build would stop instead.
- FormatCpuList: models the successor's wrap in an unchecked build; an overflow-checked build would stop instead.
- Allocate: which pinned allocation succeeds is left to the pool; each success is a fresh identity with arbitrary contents, so reuse of freed memory and the order of exhaustion are not modelled, and a size that overflows counts as lack of memory.
- Metric: gives the registers, the request total and the slot count; the floating-point cardinality and hit rate made from them are not modelled.
- TinyLfu: accesses are sequential; lost updates of concurrent relaxed increments and the sizing from error bounds are not modelled.
- Planner: roles and ownership are parameters that stay fixed over a run of pulls; the rendezvous score is an arbitrary function.
- PegaEngine: evictions are not modelled; `sealed` lists every block ever sealed and residency is a parameter of each call.
- Expiry, consumption and identity of query leases; sessions; instance lookup and teardown.
- The recency list, admission and eviction of the read cache.
- Collection of stale pending blocks.
- SSD storage, RDMA transfer, remote fetch and the prefill/decode wire protocol.
- CUDA contexts, streams, copy failures and the kernel transfer backend.
- `MultiWindowHllTracker`, namespaced hashing and the comparison of two HyperLogLogs.
- Node role bookkeeping beyond the step that sets or clears a node's idle time.
- gRPC and HTTP handlers, command-line parsing, logging, metrics, byte totals kept only for metrics, and tracing.
- 64-bit overflow of page sizes, request counts and clocks, which are unbounded here.
