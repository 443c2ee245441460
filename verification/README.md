# Verification of the client's and the indexer's core

The repository follows an EVM chain through providers that fail, lag and disagree, and turns what it sees into ordered,
revertible streams and durable indexes. This project models the state machines and algorithms that make those streams
trustworthy, in Dafny, and proves what they promise over every run, every interleaving and every answer of a provider.

- **Chain following.** `LiveChain` is the acquisition worker with its window of 128 blocks; `LiveChainRuns` proves that
  its updates always replay as a hash-linked stack, `LiveChainConverges` and `LiveChainLeftovers` when it catches up with
  a stable head.
  `ChainConsumers` keeps two bounded windows in step with it. `RawFeed` is the second, recursive follower. `Receipts`
  is the check that a block's receipts and logs are whole.
- **The model.** `Coverage` and `Backfill` are the block ranges and the worker that fills them. `ModelStore` is one
  abstract store with the in-memory and the PostgreSQL version refining it. `Partitions` is the decision when a time
  period may be published as closed and complete; `ModelCommit` is the model's state and its operations; `ModelSafety`
  and `ModelRuns` prove that what is published is exact over runs with failed writes, retention, restarts and reorgs.
  `LiveBoundary` states exactly when a verdict is sound, `Retention` the cut and the case in which it is not,
  `ModelReorgs` what happens to rows that survive a reorg. `ModelRecovery`, `ModelRestore` and `ModelRestart` are
  recovery and restart, with the exact conditions under which the state and the rows fit the chain that is canonical
  then; `Branches` builds the chains that refute them otherwise. `ModelInputs` is what the checks before a commit prove.
- **Historical logs.** `History` cuts, bisects and normalizes; `PageOrder` restores the order of concurrent pages;
  `Chunking` turns a page into groups that the model's commit accepts.
- **The checkpointed index.** `IndexStore` and `Indexer`: recovery, windows and what a sync leaves.
- **Request machinery.** `Abi` and `Multicall`, `HttpBatcher`, `TwoLane`, `Scheduler`, `Queries`.

`Blocks`, `OrderedMap` (a JavaScript Map in insertion order), `Sorting` (the runtime's stable sort) and `ModelTypes` are
shared.

A class has the fields its source counterpart updates, and its methods are the stretches of code between two points
where the source can be interleaved. Each method is proved equal to a specification function, or to a relation on the
state before and after; the theorems about whole runs are lemmas about those specifications. Ghost parameters and
ghost fields stand for what only the proof needs: the canonical chain, the replayed stack, the wire log, the history of
admissions.

## Assumptions

- A hash identifies a block, its parent hash and its events included. (`HashIdentifies`, `Identified`, `OneBlockPerHash`)
- A read of height n returns a block numbered n; `src/rpc/client.ts:878-883` and `src/indexer/model.ts:112-116` check
  it, for `src/indexer/index.ts:183-194` it is assumed. (`Answers`, `Numbered`, `Trusted`)
- Timestamps do not decrease along a chain, and the clock does not go back. A second reading of the clock in the same
  synchronous stretch gives the same value.
- Providers, the network, random choices and scores are parameters; answers may differ at every read unless a lemma
  says that the chain is stable.
- User callbacks are deterministic functions. A projection's row records the events it was computed from, so "the row
  is exact" means that the projection was given exactly the events of the period in block order.
- The chain of a model's run is the one that is canonical until the next reorg, from height 0 on, including blocks not
  yet seen. The batches of a commit are blocks of that chain with all their events (`GoodInput`); what the source's own
  checks say about that is in `ModelInputs`.
- No event of a definition precedes the origin it resolves. (`OriginFirst`, `OriginQuiet`)
- `Share(n)` is n * 4 / 5, which `Math.floor(n * 0.8)` gives for every limit in use.

## What turned out not to hold

Each is shown by a lemma with an input, beside the exact condition under which the code is right.

1. `src/indexer/model.ts:465`: the live-boundary clause takes for granted that everything since the boundary is still
   stored. Retention can prune it (`Retention.RetentionLosesEvent`). A closed verdict is sound exactly when
   `LiveBoundary.GapCovered` holds; every other clause implies it.
2. `src/indexer/model-store.ts:112`: rows are kept under `projection:key`; two rows collide when keys contain a colon
   (`ModelStore.ColonCollides`). The PostgreSQL version is not affected, and partition keys have no colon.
3. `src/indexer/model-store.ts:118`: the fork time may be the discarded block's own, so a surviving row can miss events
   of the new branch (`ModelReorgs.SurvivorMissesEvent`). The surviving rows are exact on every branch from the cut
   exactly when each ends by the time of the ancestor, the block below the cut (`SurvivorsIffEarly`). With `<` in place
   of `<=` there, all survivors are (`StrictForkTimeSuffices`), and of the rows that end by the time of a stored
   ancestor none is lost (`StrictForkTimeKeeps`).
4. `src/indexer/model.ts:705-713`: the raw feed takes a reported ancestor on trust; it stays replayable exactly when
   `RawFeed.Rejoins` holds (`Feed.Rollback`, `RollbackBreaks`; an input: `RollbackMisleads`).
5. `src/rpc/live-chain.ts:22-23,41-52`: a chain that is now shorter than the cursor, or a fork deeper than the window,
   is never left (`LiveChainConverges.ConvergesExactly`; a run: `LosesItsWay`). A loaded block of the old branch that
   is applied before the search can push the last common block out of the window
   (`LiveChainLeftovers.LeftoverLosesTheWay`; exactly when: `ConvergesFromAnywhere`).
6. `src/indexer/index.ts:364-407`: a sync does not cut back to its target, so a resumed index can end above a fresh one
   (`Indexer.ResumeIsFresh`, `SyncBoth`; an index: `SyncDown`).
7. `src/indexer/model.ts:739`: periods are restored before the stored coverage is checked against the chain, so a row
   of a branch that is gone can be published as closed and complete (`ModelRestart.StaleRowRestored`). It is exact on
   the current chain exactly when `ModelRestart.Settled` holds (`RestoredIffSettled`).
8. `src/indexer/model.ts:742-743`: the check of the coverage passes over a range whose last block is not stored, and the
   model goes on with another branch's blocks (`ModelRestart.ValidationMisses`). It leaves a state that tracks the
   current chain exactly when every range ends in a stored block (`ValidationIffEnded`), which every operation keeps
   but a reported revert to a height that is covered and not stored (`ModelRuns.StepEnds`).
9. `src/indexer/model.ts:512,812`: a reported ancestor is taken on trust, so blocks stored from another branch at or
   below it stay (`ModelRecovery.RevertMisses`). The state tracks the new chain exactly when `ModelRecovery.Anchored`
   holds (`RevertIffAnchored`); where a block is stored at the ancestor's height, its hash decides.
10. `src/indexer/model.ts:387-395,677-679`: for a group of history only the blocks next to it and its last block are
   compared, so a block of another branch can be committed in front of a gap or a canonical block
   (`ModelInputs.HistoryLetsStrayThrough`; exactly what must be canonical: `EndsDecide`).

In `src/indexer/model.ts:620-626` the branch for a block at the feed's own height and the guard after it can never be
taken, as `RawFeed.Feed.Accept` asserts there.

## Model

| member | source | states |
|---|---|---|
| `LiveChain.Worker.Attempt` | src/rpc/live-chain.ts:20-61 | one attempt changes the window, the loaded blocks and the cursor exactly as the step specification does, in every branch: waiting, partial load, same head again, stale child, rollback, failure, extension |
| `LiveChain.Worker.Load` | src/rpc/live-chain.ts:25-32 | the wanted heights that can be loaded are kept even when another load fails |
| `LiveChain.Worker.Recover` | src/rpc/live-chain.ts:37-56 | the newest retained block that is still canonical becomes the cursor; everything above it goes; a stale child or no ancestor fails |
| `LiveChain.Worker.Extend` | src/rpc/live-chain.ts:58-60 | the updates enter the window in order and only the newest 128 entries stay |
| `LiveChainRuns.StepKeeps` | src/rpc/live-chain.ts:20-61 | every attempt, whatever the provider answers, emits updates that are sound on the replayed stack and leaves the window equal to the stack's newest part |
| `LiveChainRuns.RunsReplay` | src/rpc/live-chain.ts:16-62 | in every run: after every update the replayed stack is contiguous and hash-linked, a revert's ancestor is the stack top after the pop, and the window is the newest heights, at most 128, ending at the cursor |
| `LiveChainConverges.Converges` | src/rpc/live-chain.ts:20-60 | with a stable chain and no loaded blocks left over, exactly one revert (or none) and then the canonical blocks in bursts of eight reach the head within the step budget |
| `LiveChainConverges.ConvergesExactly` | src/rpc/live-chain.ts:20-60 | the head is ever reached if and only if the cursor is not above it and a retained block is canonical; otherwise no number of steps reaches it |
| `LiveChainConverges.LosesItsWay` | src/rpc/live-chain.ts:20-60 | a run from the initial state that ends with no canonical block in the window, and never reaches the head of the stable chain |
| `LiveChainLeftovers.ConvergesFromAnywhere` | src/rpc/live-chain.ts:20-60 | from every state the worker can be in, the initial one and any left-over loaded blocks included: the head of a stable chain is ever reached if and only if, once the loaded blocks that link have been applied, the cursor is not above it and a retained block is canonical |
| `LiveChainLeftovers.LeftoverLosesTheWay` | src/rpc/live-chain.ts:22-60 | a worker whose window still holds a canonical block, and one loaded block of the old branch that links: applying it drops the last common block from the window, and the head is never reached, though without that block it is |
| `ChainConsumers.CompletedBlocks.OnUpdate` | src/rpc/client.ts:669-678 | one update of the completed-block map, with its in-place deletion and eviction loops, equals the specification |
| `ChainConsumers.CompletedIsWindow` | src/rpc/client.ts:669-678 | in every run the completed blocks are exactly the chain's retained window, in the same order |
| `ChainConsumers.LogSubscription.OnUpdate` | src/viem.ts:196-210 | one update of a log subscriber: the logs sent, and its bounded map |
| `ChainConsumers.SubscriberInStep` | src/viem.ts:195-211 | for a subscriber joining any run anywhere: logs sent minus logs sent back as removed are exactly the matching logs of the blocks applied since and not reverted, so eviction never loses an orphaned log |
| `Coverage.MergeBlockRanges` | src/indexer/model-store.ts:55-65 | the sort-and-merge loop returns the merge, and fails exactly on an invalid range |
| `Coverage.MergeIsNormalUnion` | src/indexer/model-store.ts:55-65 | the merge is sorted, disjoint and non-adjacent and covers exactly the union |
| `Coverage.NormalIsUnique` | src/indexer/model-store.ts:55-65 | that form is unique: two lists in it that cover the same heights are equal |
| `Coverage.MissingRange` | src/indexer/model-store.ts:66-75 | the newest missing window: nothing newer is missing, all of it is, it cannot grow; null exactly when all is covered |
| `Coverage.MissingForwardRange` | src/indexer/model-store.ts:77-86 | the oldest missing window, mirrored |
| `Coverage.MergeCoverageAgrees` | src/indexer/model.ts:101-110 | the model's own merge of its coverage equals what the store computes for the same commit |
| `ModelStore.RangesFromBlocksCovers` | src/indexer/model-store.ts:45-54 | the ranges inferred from block numbers are in normal form and cover exactly those numbers |
| `Backfill.Worker.Step` | src/indexer/model.ts:670-681 | one select, fetch and merge, of which any part may arrive: the window fetched is missing and lies in the request, and coverage grows by exactly the heights that arrive, none of them committed before |
| `Backfill.Worker.Run` | src/indexer/model.ts:649-683 | repeating it never commits a height twice, so a height is fetched again only while it is missing; it ends with the request covered, within one attempt per height when each attempt commits something |
| `ModelStore.CommitKeeps` | src/indexer/model-store.ts:107-116 | a commit adds exactly the declared heights, keeps coverage in normal form and batches inside it |
| `ModelStore.InvalidateKeeps` | src/indexer/model-store.ts:117-123 | a reorg leaves coverage below the cut and nothing else, and no surviving row has a period that reaches a discarded batch |
| `ModelStore.RetainKeeps` | src/indexer/model-store.ts:124-131 | retention leaves coverage and batches from the cut on, in normal form |
| `ModelStore.MemoryStore.Commit` | src/indexer/model-store.ts:107-116 | the store in memory does what the abstract store does, when row keys have no colon |
| `ModelStore.MemoryStore.ForkTime` | src/indexer/model-store.ts:118-119 | the time of the highest batch at or below the cut, 0 if there is none |
| `ModelStore.MemoryStore.Invalidate` | src/indexer/model-store.ts:117-123 | the deletion loops over batches and rows, and the filtered and clipped coverage, refine the abstract invalidation |
| `ModelStore.MemoryStore.Retain` | src/indexer/model-store.ts:124-131 | the deletion loops over batches and rows, and the filtered and clipped coverage, refine the abstract retention |
| `ModelStore.PutRepresents` | src/indexer/model-store.ts:112 | setting a row under its joined key keeps the representation if and only if no other row has the same joined key |
| `ModelStore.ColonCollides` | src/indexer/model-store.ts:112 | two rows with different projection and key, one joined key: the second write in memory replaces the first |
| `ModelStore.JoinedInjective` | src/indexer/model-store.ts:112 | joined keys differ when keys have no colon, as partition keys have none |
| `ModelStore.PostgresStore.Commit` | src/indexer/model-postgres.ts:49-64 | the table updates of a commit refine the same abstract store, colons or not |
| `ModelStore.PostgresStore.Invalidate` | src/indexer/model-postgres.ts:65-72 | the deletes and updates of an invalidation refine the abstract one |
| `ModelStore.PostgresStore.Retain` | src/indexer/model-postgres.ts:73-81 | the deletes and updates of a retention refine the abstract one |
| `ModelStore.MergeSameElements` | src/indexer/model-postgres.ts:53-57 | merging does not depend on the order in which the coverage table is read |
| `Partitions.PublishedIsExact` | src/indexer/model.ts:446-479 | a period judged closed is complete, and the events handed to the projection are exactly those of every canonical block of the period in block order, given what the live-boundary clause takes for granted |
| `Partitions.EmptyPeriodSound` | src/indexer/model.ts:450-460 | a period closed without batches has no event block |
| `Partitions.StartSound` | src/indexer/model.ts:461-466 | every start clause but the live boundary's leaves no event block of the period before the first known batch |
| `Partitions.EndSound` | src/indexer/model.ts:467-470 | nothing of the period after the first known batch is missing |
| `Partitions.ExactWhenNoneMissing` | src/indexer/model.ts:447-479 | the known batches in height order give exactly the events of the period when none is missing |
| `LiveBoundary.SoundIffGapCovered` | src/indexer/model.ts:461-470 | a closed verdict is exact on every chain it can have been read from if and only if each height below its first batch is known to precede the period or the origin, or is covered |
| `LiveBoundary.StartKnownCoversGap` | src/indexer/model.ts:464-466 | every start clause but the live boundary's implies that condition |
| `ModelCommit.Model.Examine` | src/indexer/model.ts:402-481 | the loop over projections and periods fills the caches of exactly the examined slots and collects exactly the rows of those judged publishable |
| `ModelCommit.Model.Commit` | src/indexer/model.ts:384-505 | the whole outcome: nothing changes when the commit is refused, only caches when the write fails, and otherwise store, coverage, progress, caches and completed periods are exactly as specified |
| `ModelCommit.Model.ActivateLivePartitions` | src/indexer/model.ts:546-561 | each projection's first live period and the block before it are set once, from the first incoming block of a later period |
| `ModelCommit.Model.FindLater` | src/indexer/model.ts:552 | the first incoming block of a later period |
| `ModelCommit.Model.ApplyRetention` | src/indexer/model.ts:326-330 | the store's retention and then the deletion loops over the cached and the completed periods leave exactly what is not older than the cut |
| `ModelCommit.Model.RestorePartitions` | src/indexer/model.ts:335-376 | a restart publishes exactly the periods that stored batches and coverage prove complete and that have no row |
| `ModelCommit.AtTime` | src/indexer/model.ts:337-346 | the binary search finds the first batch not before a time |
| `ModelSafety.VerdictExact` | src/indexer/model.ts:435-480 | a commit's closed verdict for an examined period is complete and exact on the chain the state agrees with |
| `ModelSafety.PublishedRowExact` | src/indexer/model.ts:457-479 | every closed row a commit publishes holds exactly its period's events |
| `ModelSafety.CombinedSound` | src/indexer/model.ts:438-445 | the batches a commit combines for a period are canonical, lie in it, and include every stored and incoming one |
| `ModelSafety.NextCoverageSound` | src/indexer/model.ts:399 | the coverage a commit works with has no event block without a batch, and is what the store will hold |
| `ModelSafety.BoundaryRead` | src/indexer/model.ts:465 | from the live boundary on nothing is missing from a period that closes, while the boundary is held |
| `ModelRestore.SliceOfPeriod` | src/indexer/model.ts:361-366 | the batches between the two cuts are the stored batches of the period, in order |
| `ModelRestore.RestoredRowExact` | src/indexer/model.ts:358-373 | every row a restart publishes holds exactly its period's events on the chain the store was written from |
| `ModelRuns.CommitAgrees` | src/indexer/model.ts:384-505 | a commit of canonical batches keeps the state in agreement with the chain: store, coverage, caches, boundaries |
| `ModelRuns.RunAgrees` | src/indexer/model.ts:384-545 | over every run of commits, failed writes, activations, retention, restarts, recoveries and reported reverts, the state agrees with the chain of the moment, provided that each reported ancestor is anchored and each restart finds every range ended by a stored block; closed rows are exact whenever the gap condition holds |
| `ModelRuns.RunIsExact` | src/indexer/model.ts:384-545 | in such a run, when retention never cuts above a live boundary, every closed row published is complete and exact, a restart's on the chain its store was written from |
| `ModelRuns.RunRejoins` | src/indexer/model.ts:506-545 | when writes cover nothing past their last block and each reported ancestor is a stored block, every reported revert of the run is anchored and every restart finds every range ended |
| `ModelRuns.StepEnds` | src/indexer/model.ts:384-545 | every step keeps every range of the coverage ended by a stored block, except a write that covers more than its blocks reach or a reported revert to a height that is covered, with the next one, and not stored |
| `ModelRuns.RestartTracks` | src/indexer/model.ts:687-755 | a restart that finds every range ended leaves a state that tracks the chain canonical now, and its restored rows are exact on the chain the store was written from |
| `ModelRuns.GuardIsSafe` | src/indexer/model.ts:461-470 | the gap condition, which a commit could check, makes its verdict safe |
| `ModelRuns.RetainAgrees` | src/indexer/model.ts:319-334 | retention keeps the agreement always, and the boundaries when it keeps each boundary's successor or the period stays published |
| `ModelRecovery.FindAncestor` | src/indexer/model.ts:510-518 | the highest stored block of the recent window that is still canonical, or exactly why there is none |
| `ModelRecovery.Recover` | src/indexer/model.ts:506-542 | both ways into a recovery: a reported ancestor is taken as it is, otherwise it is searched from the conflict, the applied block or the head; a search that fails changes nothing, otherwise the store is cut above the ancestor, every cache dropped and the model seeded at the ancestor or the head |
| `ModelRecovery.CutTracks` | src/indexer/model.ts:522-538 | after a cut the state tracks a chain if and only if every block stored and every height covered below the cut is that chain's |
| `ModelRecovery.RecoveryRejoins` | src/indexer/model.ts:510-542 | when the ancestor was searched, everything kept is on the new chain and the state tracks it, whatever was stored of the old one |
| `ModelRecovery.RevertIffAnchored` | src/indexer/model.ts:507-538 | when the ancestor was reported, the state tracks the new chain for every pair of chains that fits what the model knows if and only if the ancestor is anchored: a known header names it, or only its parent and nothing is kept at its height, or nothing is kept |
| `ModelRecovery.StoredAncestorDecides` | src/indexer/model.ts:812 | where a block is stored at the ancestor's height, the ancestor is anchored if and only if that block has its hash |
| `ModelRecovery.RevertMisses` | src/indexer/model.ts:812 | a state that tracks its chain and a reported ancestor of another branch, after which the old branch's block is still stored beside it |
| `ModelRestart.Validate` | src/indexer/model.ts:741-754 | the loop over the ranges cuts at the start of the first range whose stored end is not canonical any more and seeds the model anew, passes over ranges whose end is not stored, and fails without a change when a hash cannot be read |
| `ModelRestart.Restart` | src/indexer/model.ts:687-755 | a restart over the stored blocks, whose time order follows from the chain: what is restored and then checked is exactly the restarted state, and a check that fails leaves the restored one |
| `ModelRestart.RestoredIffSettled` | src/indexer/model.ts:358-373 | a row restored before that check is exact on every chain that fits the store, the progress block and the hash read at the height of the stored block next to the period, if and only if the period is settled: that block still has its hash, or the progress block decides it |
| `ModelRestart.StaleRowRestored` | src/indexer/model.ts:739 | a store, a branch that replaced its blocks during downtime, and the old branch's row published as closed and complete |
| `ModelRestart.ValidationRejoins` | src/indexer/model.ts:741-754 | when every range ends in a stored block, the check leaves a state that tracks the chain canonical now |
| `ModelRestart.ValidationIffEnded` | src/indexer/model.ts:741-754 | it does so for all chains and all hashes read if and only if every range ends in a stored block |
| `ModelRestart.ValidationMisses` | src/indexer/model.ts:742-743 | a range whose end is not stored: the check passes over it and what is left does not track the new chain |
| `ModelInputs.EndsDecide` | src/indexer/model.ts:387-397 | a group is canonical if and only if the last block of each of its linked runs is |
| `ModelInputs.LiveIsGoodInput` | src/indexer/model.ts:396-397 | a live group that passes the parent checks is what the safety theorems take if and only if its last block is canonical |
| `ModelInputs.HistoryLetsStrayThrough` | src/indexer/model.ts:387-395 | a group of history that joins the store and whose last block is canonical, accepted with a block of another branch in it |
| `ModelReorgs.StoredRowsExact` | src/indexer/model.ts:482-483 | between reorgs every closed row in the store is exact |
| `ModelReorgs.SurvivorExact` | src/indexer/model-store.ts:117-123 | a row that survives a reorg is exact on the new branch if and only if no block of the new branch from the cut on has an event in its period |
| `ModelReorgs.SurvivorIffEarly` | src/indexer/model-store.ts:117-123 | the events of a period that ends by the fork time are the same on every branch from the cut if and only if the period ends by the time of the ancestor, the block below the cut |
| `ModelReorgs.SurvivorsIffEarly` | src/indexer/model-store.ts:117-123 | all rows that survive a reorg are exact on every branch from the cut if and only if each of them ends by the ancestor's time, which recovery knows when it cuts |
| `ModelReorgs.StrictForkTimeSuffices` | src/indexer/model-store.ts:118 | if the fork time were read from the batches strictly below the cut, every surviving row would be exact on every branch |
| `ModelReorgs.StrictForkTimeKeeps` | src/indexer/model-store.ts:118 | and where the ancestor is stored exactly the rows that end by its time would survive, so none of those that are exact on every branch by the theorem above is lost |
| `ModelReorgs.SurvivorsExact` | src/indexer/model-store.ts:117-123 | all survivors are exact when the new branch does not start before the fork time |
| `ModelReorgs.SurvivorMissesEvent` | src/indexer/model-store.ts:118-122 | a store, a cut and a row that is exact on the old branch and survives, though the new branch has another event in its period: the fork time is the discarded block's own |
| `Retention.RetentionBoundary` | src/indexer/model.ts:292-318 | the cut, with its binary search over timestamps, equals the specification |
| `Retention.FirstFromTime` | src/indexer/model.ts:301-308 | the search finds the first height whose time reaches the target |
| `Retention.CutKeeps` | src/indexer/model.ts:292-318 | every block the limits ask for is kept with the one before it, and under a limit so is the window that recovery searches |
| `Retention.RetentionLosesEvent` | src/indexer/model.ts:465 | a state that tracks its chain, the cut retention makes there, and the next live commit: a period published as closed and complete without its only event |
| `Chunking.Chunks` | src/indexer/model.ts:261-281 | chunks tile the page in either direction; each has 62 event blocks, the last at most as many |
| `Chunking.ChunkIsGoodInput` | src/indexer/model.ts:229-249 | a chunk reads at most 64 headers, first and last its ends, and is a group that commit accepts as history |
| `Chunking.ChunksAddWindow` | src/indexer/model.ts:676-681 | committing all chunks adds exactly the window to coverage |
| `History.Ranges` | src/rpc/history.ts:66-80 | the ranges tile the request in either direction, each of the chunk size but the last |
| `History.NormalizeLogs` | src/rpc/history.ts:89-115 | fails exactly on a log without position or outside the range; else deduplicated and sorted |
| `History.NormalizedIsExact` | src/rpc/history.ts:107-114 | sorted by block, transaction and log index, and of each identity exactly the last log remains |
| `History.NormalizedIsListing` | src/rpc/history.ts:89-115 | an honest answer in any order, with repetitions, becomes the listing of its range |
| `History.StreamRangeTiles` | src/rpc/history.ts:194-218 | bisection ends for every pattern of refusals, with pages that tile the range, or the part before the range that failed |
| `History.StreamRangeDelivers` | src/rpc/history.ts:205-216 | only a failing provider or a refused single block breaks the stream |
| `History.SplittingPreservesMeaning` | src/rpc/history.ts:66-218 | for every tiling and every pattern of refusals the pages hold together exactly the listed logs of the request, once each, in order |
| `PageOrder.Buffer.Accept` | src/rpc/history.ts:136-147 | a page that arrives releases exactly the next pages of the sequential order, as many as have arrived without a gap |
| `PageOrder.Reorder` | src/rpc/history.ts:131-148 | pages arriving in any order, some perhaps never, leave in sequential order up to the first that is missing; when all have arrived nothing waits |
| `PageOrder.StreamLogPages` | src/rpc/history.ts:120-149 | the whole query, for every direction, chunk size, concurrency, refusal pattern and arrival order: pages tile the request and hold its listed logs in order |
| `RawFeed.Feed.Accept` | src/indexer/model.ts:600-648 | after success the feed ends in the block, or an old block changed nothing, so the same-height branch and the final guard are never taken; every replay of the updates is linked; on a stable chain four levels of recursion are enough |
| `RawFeed.Feed.FillGap` | src/indexer/model.ts:612-619 | the gap is filled up to the block's parent height |
| `RawFeed.Feed.FindAncestor` | src/indexer/model.ts:628-631 | the newest retained block that is still canonical |
| `RawFeed.Feed.Publish` | src/indexer/model.ts:640-647 | publishing a child extends the replayed chain and keeps the newest 128 blocks |
| `RawFeed.Feed.Withdraw` | src/indexer/model.ts:634-636 | a rollback to a retained block drops exactly what is above it |
| `RawFeed.Feed.Rollback` | src/indexer/model.ts:705-713 | a reported revert keeps the feed replayable if and only if its ancestor lies below everything replayed or is the replayed block of its height |
| `RawFeed.RollbackBreaks` | src/indexer/model.ts:709-711 | otherwise the next block of the live chain breaks the link |
| `RawFeed.RollbackMisleads` | src/indexer/model.ts:705-713 | two blocks published, a reverted-to block of another branch, its child: both branches are linked and the replay is not |
| `IndexStore.TransformBlock` | src/indexer/index.ts:279-303 | one row per value in order, and failure exactly on a failed transform or a repeated key |
| `IndexStore.ChainRowsExact` | src/indexer/storage.ts:102-108 | an index of a chain holds exactly one row for each value of each of its blocks |
| `Indexer.Index.Recent` | src/indexer/libsql.ts:29-34 | the newest stored blocks, newest first, up to the depth |
| `Indexer.Index.Commit` | src/indexer/libsql.ts:35-39 | rows, block and checkpoint of the next block extend the indexed chain by it |
| `Indexer.Index.Rollback` | src/indexer/libsql.ts:40-52 | deleting the orphaned blocks' rows and entries leaves the index of the shorter chain |
| `Indexer.Index.FindAncestor` | src/indexer/index.ts:437-445 | the first recent block that is still canonical, with none above it |
| `Indexer.Index.StillCanonical` | src/indexer/index.ts:425-435 | the finalized check and the check of the newest block |
| `Indexer.Index.GoBack` | src/indexer/index.ts:436-453 | takes back exactly what is above the ancestor, or fails with the store unchanged |
| `Indexer.Index.Recover` | src/indexer/index.ts:419-455 | on failure the store is unchanged; a finalized block in the index never loses a block at or below it; on a stable chain what stays is the longest canonical start of the index |
| `Indexer.Index.Fetch` | src/indexer/index.ts:378-382 | a window of blocks with their rows, or failure |
| `Indexer.Index.CommitWindow` | src/indexer/index.ts:383-403 | blocks that extend the checkpoint are committed in order; one that does not starts a recovery |
| `Indexer.Index.Sync` | src/indexer/index.ts:364-407 | the store always holds one linked chain and its rows; a finalized block that the index had never loses a block at or below it; on a stable chain a successful sync leaves exactly the canonical blocks through the target or the last canonical one, it ends, and when every block transforms it succeeds exactly when the stored finalized block is canonical and no more than the recent blocks have to go |
| `Indexer.ResumeIsFresh` | src/indexer/index.ts:364-407 | two indexes after a sync of one stable chain, one resumed and one fresh, hold the same blocks if and only if the resumed one held no canonical block above the target, and then the same rows and the same newest block |
| `Indexer.SyncBoth` | src/indexer/index.ts:364-407 | runs a sync of an index that may hold blocks of any fork and one of an empty index: on a stable chain whose blocks all transform the second succeeds, the first exactly when its finalized block is canonical and no more than the recent blocks have to go, and they then hold the same if and only if the first held no canonical block above the target |
| `Indexer.SyncDown` | src/indexer/index.ts:364-407 | runs three syncs: an index synced to height 1, opened again and synced to height 0 keeps block 1, which a fresh index has not |
| `Indexer.CanonicalBelow` | src/indexer/index.ts:437-453 | one canonical stored block makes all below it canonical |
| `Abi.EncodeAggregate3` | src/rpc/multicall.ts:37-47 | the running-offset encoder gives the array layout of the specification |
| `Abi.EncodedIsDecodable` | src/rpc/multicall.ts:37-47 | a decoder written from the specification recovers every list of calls from the encoding |
| `Abi.ReadWordAt` | src/rpc/multicall.ts:56-65 | reads one word, never outside the data |
| `Abi.DecodeAggregate3` | src/rpc/multicall.ts:86-101 | rejects, or reads only inside the data, and returns what the offsets say |
| `Abi.DecodedIsEncoded` | src/rpc/multicall.ts:86-101 | the decoder recovers every list of results from the reference encoding |
| `Multicall.Deduplicate` | src/rpc/multicall.ts:148-158 | distinct requests in order of appearance, and each request's place among them |
| `Multicall.Reads.RunUnique` | src/rpc/multicall.ts:162-194 | only an answer with one result per call and the right block number is used; every other contract failure falls back to single reads; the batch fails as a whole exactly when the code or the aggregate cannot be read |
| `Multicall.Reads.Run` | src/rpc/multicall.ts:147-160 | behind an honest provider each caller receives exactly what its request gives on its own |
| `Multicall.HonestAnswers` | src/rpc/multicall.ts:175-189 | encode, run as the specification says, decode and verify: an honest provider's answer is always accepted and each call gets its own result |
| `HttpBatcher.Batcher.Send` | src/rpc/transport/http.ts:90-140 | ends for every server; one justified exit per request in order, or failure as a whole, never for size; the limit never grows, stays positive and falls as the server says; a batch that fits is posted first |
| `HttpBatcher.Batcher.MatchUp` | src/rpc/transport/http.ts:119-131 | a request with a unique response keeps it, every other is sent again on its own |
| `HttpBatcher.Batcher.SendChunks` | src/rpc/transport/http.ts:96-99 | the slices cover the batch in order, and the first failure ends it |
| `HttpBatcher.Batcher.SendSingly` | src/rpc/transport/http.ts:92-95 | each request in a POST of its own, failures included as its exit |
| `HttpBatcher.DeliveredIsOwn` | src/rpc/transport/http.ts:69-76 | a matched response is always delivered, and no caller is given another request's response |
| `TwoLane.Read.TakeTurn` | src/rpc/client.ts:1148-1175 | a turn of a lane's loop is a step of the protocol, whichever endpoint the scores put first |
| `TwoLane.Read.Finish` | src/rpc/client.ts:1176-1184 | the end of an attempt and its policy are steps of the protocol |
| `TwoLane.RunsAreSafe` | src/rpc/client.ts:1138-1193 | every interleaving over a fixed set of candidates: at most two attempts in flight, never at one endpoint; at most max(4, endpoints) attempts; giving up unstopped means every endpoint was tried; and the run is short |
| `TwoLane.AnyRunIsSafe` | src/rpc/client.ts:1138-1193 | every interleaving, with the candidates read anew at each turn: at most two attempts in flight, never at one endpoint; at most as many attempts as there ever were endpoints, or four; and the run is short |
| `TwoLane.TurnDecides` | src/rpc/client.ts:1148-1172 | a turn gives up exactly when the read is stopped, no candidate may be used, or the attempts have reached their bound; otherwise it starts one attempt at an endpoint it may use, a tried one only when all of these were tried |
| `TwoLane.TurnsAreFair` | src/rpc/client.ts:1148-1172 | in every run with the candidates read anew at each turn: an endpoint is tried again only when every candidate of the turn has been tried, and a lane gives up unstopped only then or when the attempts have reached max(4, candidates and excluded ones) |
| `TwoLane.NoEarlyRepeat` | src/rpc/client.ts:1157-1172 | in every run, an attempt goes to an endpoint a second time only when every candidate has been tried |
| `Scheduler.RequestScheduler.Acquire` | src/rpc/transport/queue.ts:158-167 | admitted exactly when the last second holds fewer admissions than the limit, and background ones fewer than their share; else wait at most a second |
| `Scheduler.RequestScheduler.Enter` | src/rpc/transport/queue.ts:145-157 | refused exactly when the queue or the background share is full; the counters are those of the requests inside |
| `Scheduler.RequestScheduler.Leave` | src/rpc/transport/queue.ts:173-174 | leaving restores every counter |
| `Scheduler.RequestScheduler.Throttle` | src/rpc/transport/queue.ts:131-134 | the limit falls and stays at least one |
| `Scheduler.RequestScheduler.Recover` | src/rpc/transport/queue.ts:136-142 | the limit rises by one when due, never above rps |
| `Scheduler.RequestScheduler.NoBusySecond` | src/rpc/transport/queue.ts:158-167 | in every run no window of 1000 ms at an endpoint holds more than rps admissions, or more background ones than max(1, 4/5 rps) |
| `Queries.Coordinator.Get` | src/rpc/query.ts:85-122 | a cached answer, the query in flight, or a new one; a hit makes its key the most recent |
| `Queries.Coordinator.Store` | src/rpc/query.ts:131-144 | the cache is then the most recently touched keys up to capacity, each with the value last loaded for it |
| `Queries.Coordinator.End` | src/rpc/query.ts:115-117 | a query that ends leaves its place only if the place is its own, so never removes a successor |
| `Queries.Coordinator.Leave` | src/rpc/query.ts:123-126 | a query is cancelled exactly when its last waiter leaves while it runs |
| `Queries.Coordinator.OneFlight` | src/rpc/query.ts:97-105 | in every run no two running queries have the same key |
| `Queries.TouchKeeps` | src/rpc/query.ts:131-144 | delete, set and evict-oldest keep exactly the most recently touched keys |
| `Receipts.OrderedReceipts` | src/rpc/live.ts:10-28 | returns an ordering exactly when there is one: a matched reordering of the receipts, one per transaction, with log indices counting up from zero through the block; and it is the only one |

## Left out

- The WebSocket and HTTP transports, reconnects, fibers, scopes and PubSub: only the atomic steps of the core state are modelled.
- SQL engines, JSON and schema codecs, database drivers: a transaction is one update of the tables it touches.
- Hexadecimal text in the multicall codec: the model works on bytes, with an address already 20 bytes long; inputs of 2^256 bytes, on which the source throws, are excluded.
- Endpoint scores, latencies, hedge delays and error-message patterns: an arbitrary choice, and an arbitrary policy or refusal.
- The wall clock of the model's retention schedule (`everyBlocks`, `everySeconds`): retention may run at any moment with any cut.
- Rows that are not closed (volatile, open, state rows), the reset messages that withdraw them, and status reports: the theorems are about closed, complete rows.
- Several sources per batch and the raw logs kept beside events: a batch has one list of events.
- Other instances' rows in a shared store, writer claims and locks: the store is that of one instance.
- The index's metadata check, finality modes and the fetching of bundles: the target is any block, a bundle is determined by its block.
- `BatchQueue`: taking a batch and handing each entry its own exit would add only easy members; `MulticallReads.request` with it.
- Permits of the scheduler (`Semaphore`) and the endpoint's concurrency: only the admission windows and the counters are modelled.
- `stableKey`, `canonical`, `completedResponse`, `estimateBlockTime`: single expressions or short checks.
- Retries of a historical request: the model sees the answer after them.
- ModelCommit.Model.RestorePartitions: requires the stored batches to be in time order, as they are on every chain by assumption (`ModelRestore.StoredByTime`, which `ModelRestart.Restart` uses).
- ModelRecovery.Recover: the commit of the batches that are left, at the end of a recovery, is an ordinary commit of a run.
- ModelRestart.Validate: a restart that fails there is not a step of a run; the rows it has restored stay in the store.
- ModelRuns.CommitAgrees: the batches are assumed to be canonical; `ModelInputs` states what the source's own checks prove of that.
- TwoLane.RunsAreSafe: that every endpoint was tried when a read gives up is stated for a fixed set of candidates, as an endpoint that appears late need not be reached; `TurnsAreFair` says what giving up means when the candidates are read anew at each turn, `AnyRunIsSafe` has the rest.
- TwoLane.NoEarlyRepeat: for a fixed set of candidates; `TurnsAreFair` has the statement for candidates read anew at each turn.
- ModelRuns.RunIsExact: a step of retention that cuts above a live boundary's successor is excluded, because the property is then false; `ModelRuns.RunAgrees` covers such runs under the gap condition.
- RawFeed.Feed.Accept: the depth of recursion is bounded by a parameter, since nothing bounds it while the chain keeps changing; the bound of four is proved enough for a stable chain.
- Indexer.Index.Sync: the number of windows is bounded by a parameter, for the same reason; more than the target's height is proved enough for a stable chain.
- HttpBatcher.Batcher.SendSingly: sends in order, where the source sends up to four at once; the server may answer each POST as it likes.
- Abi.DecodedIsEncoded: for encodings of at most 2^53 - 1 bytes, the longest that the decoder's own checks accept.
