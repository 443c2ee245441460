/** Runs of a model: every step keeps its state in agreement with the chain, and every row published as closed is exact. */
module ModelRuns {
  import opened Blocks
  import opened Coverage
  import opened ModelTypes
  import opened ModelStore
  import opened Partitions
  import opened Branches
  import opened LiveBoundary
  import opened ModelCommit
  import opened ModelSafety
  import opened ModelRestore
  import opened ModelRecovery
  import opened ModelRestart

  datatype Op =
    | Write(batches: seq<Batch>, live: bool, scanned: seq<Range>)
    | FailedWrite(batches: seq<Batch>, live: bool, scanned: seq<Range>)
    | Activate(incoming: seq<Batch>)
    | Retain(fromBlock: nat, fromTime: nat)
    | Resolve(origin: nat)
    | Restart(resumed: Header, head: Header, hashes: map<nat, Hash>)
    | Recovery(search: Search, ceiling: nat, hashes: map<nat, Hash>, latest: Header, forkTime: nat)
    | Revert(ancestor: Header, forkTime: nat)

  /**
   What retention must leave for the live-boundary clause: each boundary's successor, unless the first live period
   stays published.
   */
  predicate KeepsBoundaries(s: State, fromBlock: nat, fromTime: nat) {
    forall name :: name in s.liveFrom && name in s.liveBoundary ==>
      if (name, s.liveFrom[name]) in s.completed then s.liveFrom[name] >= fromTime
      else fromBlock <= s.liveBoundary[name].number + 1
  }

  /** One operation on a state that follows `chain`; `after` is the chain it follows from then on. */
  ghost predicate Step(plan: Plan, chain: seq<Batch>, s: State, op: Op, after: seq<Batch>, next: State, rows: seq<Row>)
    requires ValidPlan(plan)
  {
    match op
    case Write(batches, live, scanned) =>
      after == chain && GoodInput(chain, s, batches, live, scanned) && CommittedState(s, plan, batches, live, scanned, next, rows)
    case FailedWrite(batches, live, scanned) =>
      && after == chain && rows == [] && GoodInput(chain, s, batches, live, scanned)
      && CacheFilled(s, plan, Examined(s, plan, batches, live), batches, next.cache) && next == s.(cache := next.cache)
    case Activate(incoming) =>
      after == chain && rows == [] && GoodInput(chain, s, incoming, true, []) && next == Activated(s, plan, incoming)
    case Retain(fromBlock, fromTime) =>
      after == chain && rows == [] && next == Pruned(s, fromBlock, fromTime)
    case Resolve(origin) =>
      after == chain && rows == [] && next == s.(origin := Some(origin)) && OriginQuiet(chain, next, plan)
    case Restart(resumed, head, hashes) =>
      && Branch(chain, after) && OnChain(after, resumed) && OnChain(after, head) && ReadsOf(after, hashes)
      && RestartedState(s, plan, resumed, head, hashes, next, rows)
    case Recovery(search, ceiling, hashes, latest, forkTime) =>
      && rows == [] && Branch(chain, after) && ReadsOf(after, hashes) && OnChain(after, latest) && OriginQuiet(after, s, plan)
      && Searched(s.store.batches, ceiling, latest.number, hashes, search) && (search.Ancestor? || search.NothingRecent?)
      && IsForkTime(s.store.batches, CutAt(search), forkTime) && next == Reorganized(s, CutAt(search), forkTime, latest)
    case Revert(ancestor, forkTime) =>
      && rows == [] && Branch(chain, after) && OnChain(after, ancestor) && OriginQuiet(after, s, plan)
      && IsForkTime(s.store.batches, ancestor.number + 1, forkTime) && next == Reorganized(s, ancestor.number + 1, forkTime, ancestor)
  }

  // ------------------------------------------------------------------------------------------ commits

  /** The store after a commit: canonical batches, all those inside coverage with events. */
  lemma StoreKept(chain: seq<Batch>, s: State, plan: Plan, batches: seq<Batch>, live: bool, scanned: seq<Range>, rows: seq<Row>, next: Store)
    requires Agrees(chain, s, plan) && GoodInput(chain, s, batches, live, scanned)
    requires Committed(s.store, batches, rows, if scanned == [] then None else Some(scanned)) == Some(next)
    ensures StoredOnChain(chain, next.batches) && WellKept(next)
    ensures next.coverage == NextCoverage(s, batches, scanned)
    ensures CoveredStored(chain, next.coverage, next.batches)
    ensures forall n :: n in next.batches <==> n in s.store.batches || n in NumbersOf(batches)
  {
    hide Covers, NextCoverage, NumbersOf, PutBatches, PutRows, CacheSound, IsChain, Normal, Merge, AllValid, ModelStore.Added;
    ModelStore.CommitKeeps(s.store, batches, rows, if scanned == [] then None else Some(scanned));
    NextCoverageSound(chain, s, plan, batches, live, scanned);
    PutBatchesKeys(s.store.batches, batches);
  }

  /** An incoming block of a slot puts the slot among the examined ones. */
  lemma IncomingExamined(chain: seq<Batch>, s: State, plan: Plan, slot: Slot, batches: seq<Batch>, live: bool, n: nat)
    requires ValidPlan(plan) && batches != [] && slot.0 in plan.projections && slot !in s.completed
    requires Aligned(slot.1, plan.projections[slot.0]) && n in NumbersOf(batches) && n < |chain|
    requires forall i :: 0 <= i < |batches| ==> batches[i].block.number < |chain| && batches[i] == chain[batches[i].block.number]
    requires InPeriod(chain[n].block, slot.1, SlotEnd(plan, slot))
    ensures slot in Examined(s, plan, batches, live)
  {
    hide Aligned, Gaps, Joined, Predecessor, Successor, Elapsed, Floor;
    var interval := plan.projections[slot.0];
    var i :| 0 <= i < |batches| && batches[i].block.number == n;
    assert batches[i] == chain[n];
    FloorUnique(batches[i].block.timestamp, interval, slot.1);
    assert slot.1 in Own(batches, interval);
    assert slot == (slot.0, slot.1);
  }

  /** A cache entry after the examined slots have been filled. */
  lemma EntryKept(chain: seq<Batch>, s: State, plan: Plan, batches: seq<Batch>, live: bool, scanned: seq<Range>,
                  cache: map<Slot, map<nat, Batch>>, next: State, slot: Slot)
    requires Agrees(chain, s, plan) && GoodInput(chain, s, batches, live, scanned)
    requires CacheFilled(s, plan, Examined(s, plan, batches, live), batches, cache)
    requires slot in cache && slot in next.cache && next.cache[slot] == cache[slot] && slot !in next.completed
    requires StoredOnChain(chain, next.store.batches)
    requires forall n :: n in next.store.batches ==> n in s.store.batches || n in NumbersOf(batches)
    ensures EntrySound(chain, next, plan, slot)
  {
    hide Combined, Known, NumbersOf, Periods, Aligned, Covers, CoveredStored, WellKept, IsChain;
    if slot in Examined(s, plan, batches, live) {
      ExaminedAligned(s, plan, batches, live, slot);
      CombinedSound(chain, s, plan, slot, batches);
    } else {
      assert EntrySound(chain, s, plan, slot);
      forall n | n in next.store.batches && InPeriod(next.store.batches[n].block, slot.1, SlotEnd(plan, slot))
        ensures n in cache[slot]
      {
        if n in s.store.batches {
        } else if slot !in s.completed {
          IncomingExamined(chain, s, plan, slot, batches, live, n);
        }
      }
    }
  }

  lemma ExaminedNames(s: State, plan: Plan, batches: seq<Batch>, live: bool)
    requires ValidPlan(plan) && batches != []
    ensures forall slot :: slot in Examined(s, plan, batches, live) ==> slot.0 in plan.projections
  {
    hide Periods;
  }

  lemma BoundariesKept(chain: seq<Batch>, s: State, plan: Plan, batches: seq<Batch>, live: bool, scanned: seq<Range>, next: State)
    requires Tracks(chain, s, plan) && GoodInput(chain, s, batches, live, scanned) && BoundariesOnChain(chain, next, plan)
    requires next.liveFrom == s.liveFrom && next.liveBoundary == s.liveBoundary && s.completed <= next.completed
    requires next.applied == if live then Some(Last(batches).block) else s.applied
    requires forall n :: n in next.store.batches <==> n in s.store.batches || n in NumbersOf(batches)
    ensures BoundariesHeld(chain, next, plan)
  {
    hide Covers, Eventful, CacheSound, CoveredStored, WellKept, IsChain, OnChain;
    forall name | name in next.liveFrom ensures BoundaryHeld(chain, next, plan, name) {
      assert BoundaryHeld(chain, s, plan, name);
      var slot := (name, s.liveFrom[name]);
      forall n | slot !in s.completed && Eventful(chain, n, slot.1, SlotEnd(plan, slot))
                 && s.liveBoundary[name].number < n <= next.applied.value.number
        ensures n in next.store.batches
      {
        if n > s.applied.value.number {
          var i := n - s.applied.value.number - 1;
          assert NumbersOf(batches)[i] == n;
        }
      }
    }
  }

  /** A commit of canonical batches keeps the state in agreement. */
  lemma CommitAgrees(chain: seq<Batch>, s: State, plan: Plan, batches: seq<Batch>, live: bool, scanned: seq<Range>, next: State, rows: seq<Row>)
    requires Agrees(chain, s, plan) && GoodInput(chain, s, batches, live, scanned)
    requires CommittedState(s, plan, batches, live, scanned, next, rows)
    ensures Agrees(chain, next, plan)
    ensures forall n :: n in next.store.batches <==> n in s.store.batches || n in NumbersOf(batches)
  {
    hide Covers, NextCoverage, NumbersOf, PutBatches, CacheSound, CoveredStored, WellKept, IsChain, Examined, CacheFilled,
      EntrySound, StoredOnChain, Committed, Durable, RowsOf, ClosedSlots, MaybeOnChain, AllValid;
    ExaminedNames(s, plan, batches, live);
    StoreKept(chain, s, plan, batches, live, scanned, Durable(rows), next.store);
    LastOnChain(chain, s, batches, live, scanned);
    var cache :| CacheFilled(s, plan, Examined(s, plan, batches, live), batches, cache) && next.cache == cache - ClosedSlots(rows);
    CacheKept(chain, s, plan, batches, live, scanned, cache, next, rows);
  }

  lemma LastOnChain(chain: seq<Batch>, s: State, batches: seq<Batch>, live: bool, scanned: seq<Range>)
    requires IsChain(chain) && GoodInput(chain, s, batches, live, scanned)
    ensures MaybeOnChain(chain, Some(Last(batches).block))
  {
    var last := batches[|batches| - 1];
    assert last == chain[last.block.number];
  }

  lemma CacheKept(chain: seq<Batch>, s: State, plan: Plan, batches: seq<Batch>, live: bool, scanned: seq<Range>,
                  cache: map<Slot, map<nat, Batch>>, next: State, rows: seq<Row>)
    requires Agrees(chain, s, plan) && GoodInput(chain, s, batches, live, scanned)
    requires CacheFilled(s, plan, Examined(s, plan, batches, live), batches, cache) && next.cache == cache - ClosedSlots(rows)
    requires next.completed == s.completed + ClosedSlots(rows) && StoredOnChain(chain, next.store.batches)
    requires forall n :: n in next.store.batches ==> n in s.store.batches || n in NumbersOf(batches)
    ensures CacheSound(chain, next, plan)
  {
    hide Combined, NumbersOf, Examined, ClosedSlots, EntrySound, Covers, CoveredStored, WellKept, IsChain, AllValid, StoredOnChain;
    forall slot | slot in next.cache ensures EntrySound(chain, next, plan, slot) {
      NotCompleted(chain, s, plan, batches, live, cache, slot);
      EntryKept(chain, s, plan, batches, live, scanned, cache, next, slot);
    }
  }

  lemma NotCompleted(chain: seq<Batch>, s: State, plan: Plan, batches: seq<Batch>, live: bool, cache: map<Slot, map<nat, Batch>>, slot: Slot)
    requires ValidPlan(plan) && batches != [] && CacheSound(chain, s, plan) && slot in cache
    requires CacheFilled(s, plan, Examined(s, plan, batches, live), batches, cache)
    ensures slot !in s.completed
  {
    hide Periods, Combined;
    if slot !in Examined(s, plan, batches, live) {
      assert EntrySound(chain, s, plan, slot);
    }
  }

  lemma RowsOfExact(chain: seq<Batch>, s: State, plan: Plan, batches: seq<Batch>, live: bool, scanned: seq<Range>, rows: seq<Row>)
    requires Agrees(chain, s, plan) && GoodInput(chain, s, batches, live, scanned)
    requires RowsOf(s, plan, Examined(s, plan, batches, live), batches, live, scanned, rows)
    requires forall slot :: slot in Examined(s, plan, batches, live) ==> BoundarySafe(chain, s, plan, slot, batches, live, scanned)
    ensures ClosedExact(chain, plan, rows)
  {
    hide StoredOnChain, WellKept, CoveredStored, CacheSound, BoundariesOnChain, AllValid, Covers, NumbersOf, IsChain, Examined, Published,
      RowExact, Decimal, Parse, EventsIn, VerdictOn, RowFor, BoundarySafe;
    ExaminedNames(s, plan, batches, live);
    forall row | row in rows && row.period == Closed ensures row.complete && RowExact(chain, plan, row) {
      var slot :| slot in Examined(s, plan, batches, live) && Published(s, plan, slot, batches, live, scanned, row);
      ExaminedAligned(s, plan, batches, live, slot);
      PublishedRowExact(chain, s, plan, slot, batches, live, scanned, row);
      KeyedRowExact(chain, plan, slot, row);
    }
  }

  /**
   What a commit could check of a slot before it publishes: coverage reaches from its first known batch down to the
   last block known to precede the period.
   */
  ghost predicate GapGuard(s: State, plan: Plan, slot: Slot, batches: seq<Batch>, live: bool, scanned: seq<Range>)
    requires slot.0 in plan.projections && batches != []
  {
    var ordered := Ascending(Combined(s, slot, plan.projections[slot.0], batches));
    ordered != [] ==>
      GapCovered(ContextOf(s, plan, slot.0, batches, live, scanned), slot.1, ordered[0].block,
                 LastAtMost(Ascending(s.store.batches), ordered[0].block.number - 1),
                 FirstAtLeast(Ascending(s.store.batches), Last(ordered).block.number + 1))
  }

  lemma GuardIsSafe(chain: seq<Batch>, s: State, plan: Plan, slot: Slot, batches: seq<Batch>, live: bool, scanned: seq<Range>)
    requires Agrees(chain, s, plan) && GoodInput(chain, s, batches, live, scanned) && slot.0 in plan.projections
    requires GapGuard(s, plan, slot, batches, live, scanned)
    ensures BoundarySafe(chain, s, plan, slot, batches, live, scanned)
  {
    hide Combined, ContextOf, Ascending, LastAtMost, FirstAtLeast, Fits, GapCovered, BoundaryIntact, Progress, Agrees;
    var combined := Combined(s, slot, plan.projections[slot.0], batches);
    var ordered := Ascending(combined);
    if ordered != [] {
      CommitFits(chain, s, plan, slot, batches, live, scanned, ordered[0].block.number - 1, Last(ordered).block.number + 1);
      NotEmpty(combined);
      GapIsIntact(chain, ContextOf(s, plan, slot.0, batches, live, scanned), slot.1, SlotEnd(plan, slot), combined,
                  LastAtMost(Ascending(s.store.batches), ordered[0].block.number - 1),
                  FirstAtLeast(Ascending(s.store.batches), Last(ordered).block.number + 1));
    }
  }

  lemma NotEmpty(known: map<nat, Batch>)
    ensures Ascending(known) != [] ==> known != map[]
  {
  }

  lemma CommitFits(chain: seq<Batch>, s: State, plan: Plan, slot: Slot, batches: seq<Batch>, live: bool, scanned: seq<Range>, n: int, m: int)
    requires Agrees(chain, s, plan) && GoodInput(chain, s, batches, live, scanned) && slot.0 in plan.projections
    ensures Fits(chain, ContextOf(s, plan, slot.0, batches, live, scanned), slot.1, SlotEnd(plan, slot),
                 Combined(s, slot, plan.projections[slot.0], batches),
                 LastAtMost(Ascending(s.store.batches), n), FirstAtLeast(Ascending(s.store.batches), m))
  {
    hide Combined, ContextOf, Ascending, LastAtMost, FirstAtLeast, EventsIn, Progress, ReadFrom, PartOf, NextCoverage, Covers, CacheSound,
      IsChain, NumbersOf, WellKept, Known;
    CombinedSound(chain, s, plan, slot, batches);
    NextCoverageSound(chain, s, plan, batches, live, scanned);
    ContextCoverage(s, plan, slot.0, batches, live, scanned);
    ContextRead(chain, s, plan, slot, batches, live, scanned, n, m);
  }

  /** Published as closed means complete and exact. */
  ghost predicate ClosedExact(chain: seq<Batch>, plan: Plan, rows: seq<Row>) {
    forall row :: row in rows && row.period == Closed ==> row.complete && RowExact(chain, plan, row)
  }

  lemma KeyedRowExact(chain: seq<Batch>, plan: Plan, slot: Slot, row: Row)
    requires slot.0 in plan.projections && row.projection == slot.0 && row.key == Decimal(slot.1)
    requires row.endTime == Some(SlotEnd(plan, slot)) && row.events == EventsIn(chain, slot.1, SlotEnd(plan, slot))
    ensures RowExact(chain, plan, row)
  {
    hide EventsIn, Parse, Decimal;
    ParseDecimal(slot.1);
  }

  // ------------------------------------------------------------------------------------------ the other steps

  lemma FailedWriteAgrees(chain: seq<Batch>, s: State, plan: Plan, batches: seq<Batch>, live: bool, scanned: seq<Range>, next: State)
    requires Agrees(chain, s, plan) && GoodInput(chain, s, batches, live, scanned)
    requires CacheFilled(s, plan, Examined(s, plan, batches, live), batches, next.cache) && next == s.(cache := next.cache)
    ensures Agrees(chain, next, plan)
  {
    hide Covers, NumbersOf, CoveredStored, WellKept, IsChain, Examined, CacheFilled, StoredOnChain, AllValid, EntrySound;
    ExaminedNames(s, plan, batches, live);
    forall slot | slot in next.cache ensures EntrySound(chain, next, plan, slot) {
      NotCompleted(chain, s, plan, batches, live, next.cache, slot);
      EntryKept(chain, s, plan, batches, live, scanned, next.cache, next, slot);
    }
  }

  lemma SameBoundaries(chain: seq<Batch>, s: State, next: State, plan: Plan)
    requires BoundariesHeld(chain, s, plan) && next.liveFrom == s.liveFrom && next.liveBoundary == s.liveBoundary
    requires next.applied == s.applied && s.completed <= next.completed && next.store.batches == s.store.batches
    ensures BoundariesHeld(chain, next, plan)
  {
    hide Eventful;
    forall name | name in next.liveFrom && name in next.liveBoundary && name in plan.projections
      ensures BoundaryHeld(chain, next, plan, name)
    {
      assert BoundaryHeld(chain, s, plan, name);
    }
  }

  /** A live boundary is kept, or is the applied block or an incoming one. */
  lemma ActivatedBoundaries(s: State, plan: Plan, incoming: seq<Batch>)
    requires ValidPlan(plan) && s.applied.Some? && s.liveBoundary.Keys == s.liveFrom.Keys
    ensures var next := Activated(s, plan, incoming);
            && next == s.(liveFrom := next.liveFrom, liveBoundary := next.liveBoundary)
            && next.liveFrom.Keys == s.liveFrom.Keys + Opening(s, plan, incoming)
            && next.liveBoundary.Keys == next.liveFrom.Keys
            && (forall name :: name in s.liveFrom ==> next.liveFrom[name] == s.liveFrom[name] && next.liveBoundary[name] == s.liveBoundary[name])
            && (forall name :: name in Opening(s, plan, incoming) ==>
                  NewBoundary(s, incoming, next.liveBoundary[name]) && name in plan.projections)
  {
    hide FirstLater, Floor;
    var next := Activated(s, plan, incoming);
    forall name | name in Opening(s, plan, incoming) ensures NewBoundary(s, incoming, next.liveBoundary[name]) {
      var k := FirstLater(incoming, s.applied.value, plan.projections[name]);
      assert next.liveBoundary[name] == OpensAt(s, plan, incoming, name).1;
    }
  }

  ghost predicate NewBoundary(s: State, incoming: seq<Batch>, block: Header) {
    s.applied == Some(block) || exists i :: 0 <= i < |incoming| && incoming[i].block == block
  }

  /** A new boundary is canonical and not older than the applied block. */
  lemma NewBoundaryHeld(chain: seq<Batch>, s: State, incoming: seq<Batch>, block: Header)
    requires IsChain(chain) && MaybeOnChain(chain, s.applied) && GoodInput(chain, s, incoming, true, []) && NewBoundary(s, incoming, block)
    ensures OnChain(chain, block) && block.number >= s.applied.value.number
  {
    hide Covers, NumbersOf, AllValid;
  }

  lemma ActivateAgrees(chain: seq<Batch>, s: State, plan: Plan, incoming: seq<Batch>)
    requires Agrees(chain, s, plan) && GoodInput(chain, s, incoming, true, [])
    ensures Agrees(chain, Activated(s, plan, incoming), plan)
    ensures Tracks(chain, s, plan) ==> BoundariesHeld(chain, Activated(s, plan, incoming), plan)
  {
    hide Covers, NumbersOf, CoveredStored, WellKept, StoredOnChain, AllValid, CacheSound, BoundaryHeld, Activated, NewBoundary, IsChain,
      Opening, OnChain, BoundariesHeld;
    var next := Activated(s, plan, incoming);
    ActivatedBoundaries(s, plan, incoming);
    CacheCarried(chain, s, next, plan);
    forall name | name in next.liveBoundary && name !in s.liveFrom
      ensures OnChain(chain, next.liveBoundary[name]) && next.liveBoundary[name].number >= s.applied.value.number
    {
      NewBoundaryHeld(chain, s, incoming, next.liveBoundary[name]);
    }
    if BoundariesHeld(chain, s, plan) {
      ActivatedHeld(chain, s, next, plan);
    }
  }

  lemma ActivatedHeld(chain: seq<Batch>, s: State, next: State, plan: Plan)
    requires BoundariesHeld(chain, s, plan) && next == s.(liveFrom := next.liveFrom, liveBoundary := next.liveBoundary) && s.applied.Some?
    requires forall name :: name in s.liveFrom ==> name in next.liveFrom && next.liveFrom[name] == s.liveFrom[name]
    requires forall name :: name in s.liveFrom ==>
               name in s.liveBoundary && name in next.liveBoundary && next.liveBoundary[name] == s.liveBoundary[name]
    requires forall name :: name in next.liveBoundary && name !in s.liveFrom ==> next.liveBoundary[name].number >= s.applied.value.number
    ensures BoundariesHeld(chain, next, plan)
  {
    hide Eventful;
    forall name | name in next.liveFrom && name in next.liveBoundary && name in plan.projections
      ensures BoundaryHeld(chain, next, plan, name)
    {
      if name in s.liveFrom {
        assert BoundaryHeld(chain, s, plan, name);
      }
    }
  }

  lemma CacheCarried(chain: seq<Batch>, s: State, next: State, plan: Plan)
    requires CacheSound(chain, s, plan) && next.cache == s.cache && next.completed == s.completed
    requires next.store.batches == s.store.batches
    ensures CacheSound(chain, next, plan)
  {
    forall slot | slot in next.cache ensures EntrySound(chain, next, plan, slot) {
      assert EntrySound(chain, s, plan, slot);
    }
  }

  /** Retention keeps the agreement; the boundaries it keeps only under its guard. */
  lemma RetainAgrees(chain: seq<Batch>, s: State, plan: Plan, fromBlock: nat, fromTime: nat)
    requires Agrees(chain, s, plan)
    ensures Agrees(chain, Pruned(s, fromBlock, fromTime), plan)
    ensures Tracks(chain, s, plan) && KeepsBoundaries(s, fromBlock, fromTime) ==>
              BoundariesHeld(chain, Pruned(s, fromBlock, fromTime), plan)
  {
    hide Covers, Eventful, WellKept, IsChain, Retained, BoundaryHeld, EntrySound, KeepsBoundaries;
    RetainKeeps(s.store, fromBlock, fromTime);
    var next := Pruned(s, fromBlock, fromTime);
    RetainedStored(s.store, fromBlock, fromTime);
    forall slot | slot in next.cache ensures EntrySound(chain, next, plan, slot) {
      PrunedEntry(chain, s, plan, fromBlock, fromTime, slot);
    }
    if BoundariesHeld(chain, s, plan) && KeepsBoundaries(s, fromBlock, fromTime) {
      forall name | name in next.liveFrom ensures BoundaryHeld(chain, next, plan, name) {
        PrunedBoundary(chain, s, plan, fromBlock, fromTime, name);
      }
    }
  }

  lemma RetainedStored(s: Store, fromBlock: nat, fromTime: nat)
    ensures forall n :: n in Retained(s, fromBlock, fromTime).batches ==>
              n in s.batches && Retained(s, fromBlock, fromTime).batches[n] == s.batches[n]
  {
    hide Above, Unexpired;
  }

  lemma PrunedEntry(chain: seq<Batch>, s: State, plan: Plan, fromBlock: nat, fromTime: nat, slot: Slot)
    requires slot in s.cache && slot.1 >= fromTime && EntrySound(chain, s, plan, slot)
    ensures EntrySound(chain, Pruned(s, fromBlock, fromTime), plan, slot)
  {
    hide Above, Unexpired, Aligned, PartOf;
  }

  lemma PrunedBoundary(chain: seq<Batch>, s: State, plan: Plan, fromBlock: nat, fromTime: nat, name: string)
    requires name in s.liveFrom && name in s.liveBoundary && name in plan.projections
    requires BoundaryHeld(chain, s, plan, name) && KeepsBoundaries(s, fromBlock, fromTime)
    ensures BoundaryHeld(chain, Pruned(s, fromBlock, fromTime), plan, name)
  {
    hide Above, Unexpired, Eventful;
  }

  /** Restored rows are exact on the chain the store was written from; nothing else changes. */
  lemma RestoredKeeps(chain: seq<Batch>, s: State, plan: Plan, progress: Header, next: State, rows: seq<Row>)
    requires WrittenFrom(chain, s, plan) && RestoredState(s, plan, progress, next, rows)
    ensures WrittenFrom(chain, next, plan) && ClosedExact(chain, plan, rows)
    ensures next == s.(store := next.store, completed := next.completed) && next.coverage == next.store.coverage
    ensures next.store.batches == s.store.batches
  {
    hide Restored, CoveredStored, IsChain, StoredOnChain, PutRows, ClosedSlots, RowExact, EventsIn, Decimal, Covers;
    forall row | row in rows ensures row.complete && RowExact(chain, plan, row) {
      var slot :| Restored(s, plan, progress, slot, row);
      RestoredRowExact(chain, s, plan, progress, slot, row);
      KeyedRowExact(chain, plan, slot, row);
    }
  }

  lemma StartedIsWritten(chain: seq<Batch>, s: State, plan: Plan, applied: Header)
    requires WrittenFrom(chain, s, plan)
    ensures WrittenFrom(chain, Started(s.store, applied, None), plan)
    ensures Ended(s) ==> Ended(Started(s.store, applied, None))
  {
    hide Covers, IsChain, StoredOnChain, WellKept, CoveredStored, CompletedRows;
  }

  /** A restart whose ranges all end in a stored block. */
  lemma RestartTracks(chain: seq<Batch>, after: seq<Batch>, s: State, plan: Plan, resumed: Header, head: Header, hashes: map<nat, Hash>,
                      next: State, rows: seq<Row>)
    requires Agrees(chain, s, plan) && Branch(chain, after) && OnChain(after, resumed) && OnChain(after, head) && ReadsOf(after, hashes)
    requires RestartedState(s, plan, resumed, head, hashes, next, rows)
    ensures ClosedExact(chain, plan, rows)
    ensures Ended(s) ==> Tracks(after, next, plan)
  {
    hide RestoredState, Validated, Branch, ReadsOf, CoveredStored, StoredOnChain, WellKept, CacheSound, IsChain, OnChain, BoundariesOnChain,
      Ended, ClosedExact, Tracks, CompletedRows, ValidPlan;
    var middle :| RestoredState(Started(s.store, resumed, None), plan, resumed, middle, rows) && Validated(middle, head, hashes, next);
    StartedIsWritten(chain, s, plan, resumed);
    RestoredKeeps(chain, Started(s.store, resumed, None), plan, resumed, middle, rows);
    if Ended(s) {
      EndedSame(Started(s.store, resumed, None), middle);
      assert OnChain(after, resumed) ==> MaybeOnChain(after, Some(resumed));
      ValidationRejoins(chain, after, middle, plan, head, hashes, next);
    }
  }

  lemma EndedSame(s: State, next: State)
    requires Ended(s) && next.coverage == s.coverage && next.store.batches == s.store.batches
    ensures Ended(next)
  {
    hide Covers;
  }

  // ------------------------------------------------------------------------------------------ runs

  /** The state, and the chain that is canonical until the next reorg. */
  datatype Moment = Moment(chain: seq<Batch>, state: State)

  ghost predicate StepAt(plan: Plan, run: seq<Moment>, ops: seq<Op>, published: seq<seq<Row>>, i: nat)
    requires ValidPlan(plan) && |run| == |ops| + 1 == |published| + 1 && i < |ops|
  {
    Step(plan, run[i].chain, run[i].state, ops[i], run[i + 1].chain, run[i + 1].state, published[i])
  }

  ghost predicate IsRun(plan: Plan, run: seq<Moment>, ops: seq<Op>, published: seq<seq<Row>>)
    requires ValidPlan(plan)
  {
    |run| == |ops| + 1 == |published| + 1 && forall i :: 0 <= i < |ops| ==> StepAt(plan, run, ops, published, i)
  }

  /** Every slot a commit looks at passes the guard. */
  ghost predicate Guarded(s: State, plan: Plan, op: Op)
    requires ValidPlan(plan)
  {
    op.Write? && op.batches != [] ==>
      forall slot :: slot in Examined(s, plan, op.batches, op.live) ==> slot.0 in plan.projections && GapGuard(s, plan, slot, op.batches, op.live, op.scanned)
  }

  /**
   What a caller could check before the chain changes: a reported ancestor is anchored in what the model knows, and a
   restart finds every range of the coverage ended by a stored block.
   */
  ghost predicate Rejoining(s: State, plan: Plan, op: Op) {
    && (op.Revert? ==> Anchored(s, plan, op.ancestor))
    && (op.Restart? ==> Ended(s))
  }

  lemma StepAgrees(plan: Plan, chain: seq<Batch>, s: State, op: Op, after: seq<Batch>, next: State, rows: seq<Row>)
    requires Agrees(chain, s, plan) && Step(plan, chain, s, op, after, next, rows) && Rejoining(s, plan, op)
    ensures Agrees(after, next, plan)
    ensures Guarded(s, plan, op) ==> ClosedExact(chain, plan, rows)
  {
    hide Agrees, GoodInput, CommittedState, CacheFilled, RestartedState, Activated, Pruned, Reorganized, IsForkTime, Searched, ReadsOf,
      Branch, OnChain, OriginQuiet, Anchored, Ended, ClosedExact,
      GapGuard, Examined;
    match op
    case Write(batches, live, scanned) =>
      WriteRows(chain, s, plan, batches, live, scanned, next, rows);
      CommitAgrees(chain, s, plan, batches, live, scanned, next, rows);
    case FailedWrite(batches, live, scanned) =>
      FailedWriteAgrees(chain, s, plan, batches, live, scanned, next);
      NoneExact(chain, plan);
    case Activate(incoming) =>
      ActivateAgrees(chain, s, plan, incoming);
      NoneExact(chain, plan);
    case Retain(fromBlock, fromTime) =>
      RetainAgrees(chain, s, plan, fromBlock, fromTime);
      NoneExact(chain, plan);
    case Resolve(origin) =>
      ResolveAgrees(chain, s, next, plan);
      NoneExact(chain, plan);
    case Restart(resumed, head, hashes) =>
      RestartTracks(chain, after, s, plan, resumed, head, hashes, next, rows);
    case Recovery(search, ceiling, hashes, latest, forkTime) =>
      RecoveryRejoins(chain, s, plan, after, latest, forkTime, hashes, ceiling, search);
      NoneExact(chain, plan);
    case Revert(ancestor, forkTime) =>
      RevertRejoins(chain, s, plan, after, ancestor, forkTime);
      NoneExact(chain, plan);
  }

  lemma ResolveAgrees(chain: seq<Batch>, s: State, next: State, plan: Plan)
    requires Agrees(chain, s, plan) && next == s.(origin := next.origin) && OriginQuiet(chain, next, plan)
    ensures Agrees(chain, next, plan)
    ensures BoundariesHeld(chain, s, plan) ==> BoundariesHeld(chain, next, plan)
  {
    hide Covers, WellKept, StoredOnChain, IsChain, Eventful;
    CacheCarried(chain, s, next, plan);
    if BoundariesHeld(chain, s, plan) {
      SameBoundaries(chain, s, next, plan);
    }
  }

  lemma RevertRejoins(chain: seq<Batch>, s: State, plan: Plan, after: seq<Batch>, ancestor: Header, forkTime: nat)
    requires Agrees(chain, s, plan) && Branch(chain, after) && OnChain(after, ancestor) && OriginQuiet(after, s, plan)
    requires IsForkTime(s.store.batches, ancestor.number + 1, forkTime) && Anchored(s, plan, ancestor)
    ensures Tracks(after, Reorganized(s, ancestor.number + 1, forkTime, ancestor), plan)
  {
    hide Agrees, Branch, OnChain, OriginQuiet, IsForkTime, Anchored, Tracks, Reorganized, KeptOn;
    RevertTracks(chain, after, s, plan, ancestor, forkTime);
    AnchoredKeeps(chain, after, s, plan, ancestor);
  }

  lemma NoneExact(chain: seq<Batch>, plan: Plan)
    ensures ClosedExact(chain, plan, [])
  {
  }

  lemma WriteRows(chain: seq<Batch>, s: State, plan: Plan, batches: seq<Batch>, live: bool, scanned: seq<Range>, next: State, rows: seq<Row>)
    requires Agrees(chain, s, plan) && GoodInput(chain, s, batches, live, scanned)
    requires CommittedState(s, plan, batches, live, scanned, next, rows)
    ensures Guarded(s, plan, Write(batches, live, scanned)) ==> ClosedExact(chain, plan, rows)
    ensures Tracks(chain, s, plan) ==> ClosedExact(chain, plan, rows)
  {
    hide BoundariesHeld, ClosedExact, GapGuard, Examined, BoundarySafe, RowsOf, NumbersOf, Covers, CacheSound, IsChain, CoveredStored,
      WellKept, StoredOnChain, AllValid, BoundariesOnChain, MaybeOnChain, OriginQuiet, Committed, CacheFilled;
    ExaminedNames(s, plan, batches, live);
    if Guarded(s, plan, Write(batches, live, scanned)) {
      forall slot | slot in Examined(s, plan, batches, live) ensures BoundarySafe(chain, s, plan, slot, batches, live, scanned) {
        GuardIsSafe(chain, s, plan, slot, batches, live, scanned);
      }
      RowsOfExact(chain, s, plan, batches, live, scanned, rows);
    }
    if Tracks(chain, s, plan) {
      forall slot | slot in Examined(s, plan, batches, live) ensures BoundarySafe(chain, s, plan, slot, batches, live, scanned) {
        TrackedIsSafe(chain, s, plan, slot, batches, live, scanned);
      }
      RowsOfExact(chain, s, plan, batches, live, scanned, rows);
    }
  }

  lemma TrackedIsSafe(chain: seq<Batch>, s: State, plan: Plan, slot: Slot, batches: seq<Batch>, live: bool, scanned: seq<Range>)
    requires Tracks(chain, s, plan) && GoodInput(chain, s, batches, live, scanned) && slot in Examined(s, plan, batches, live)
    ensures slot.0 in plan.projections && BoundarySafe(chain, s, plan, slot, batches, live, scanned)
  {
    hide Combined, ContextOf, Ascending, BoundaryIntact, Progress, BoundariesHeld, Examined, NumbersOf, Covers, CacheSound, IsChain,
      CoveredStored, WellKept, StoredOnChain, AllValid, BoundariesOnChain, MaybeOnChain, OriginQuiet;
    ExaminedAligned(s, plan, batches, live, slot);
    if Progress(s, batches, live).timestamp >= SlotEnd(plan, slot) {
      BoundaryRead(chain, s, plan, slot, batches, live, scanned);
    }
  }

  predicate KeptByRetention(s: State, op: Op) {
    op.Retain? ==> KeepsBoundaries(s, op.fromBlock, op.fromTime)
  }

  lemma StepTracks(plan: Plan, chain: seq<Batch>, s: State, op: Op, after: seq<Batch>, next: State, rows: seq<Row>)
    requires Tracks(chain, s, plan) && Step(plan, chain, s, op, after, next, rows) && KeptByRetention(s, op) && Rejoining(s, plan, op)
    ensures Tracks(after, next, plan) && ClosedExact(chain, plan, rows)
  {
    hide Agrees, GoodInput, CommittedState, CacheFilled, RestartedState, Activated, Pruned, Reorganized, IsForkTime, Searched, ReadsOf,
      Branch, OnChain, OriginQuiet, Anchored, Ended, ClosedExact,
      BoundariesHeld, KeepsBoundaries;
    StepAgrees(plan, chain, s, op, after, next, rows);
    match op
    case Write(batches, live, scanned) =>
      WriteRows(chain, s, plan, batches, live, scanned, next, rows);
      WriteTracks(chain, s, plan, batches, live, scanned, next, rows);
    case FailedWrite(batches, live, scanned) =>
      SameBoundaries(chain, s, next, plan);
      NoneExact(chain, plan);
    case Activate(incoming) =>
      ActivateAgrees(chain, s, plan, incoming);
      NoneExact(chain, plan);
    case Retain(fromBlock, fromTime) =>
      RetainAgrees(chain, s, plan, fromBlock, fromTime);
      NoneExact(chain, plan);
    case Resolve(origin) =>
      ResolveAgrees(chain, s, next, plan);
      NoneExact(chain, plan);
    case Restart(resumed, head, hashes) =>
      RestartTracks(chain, after, s, plan, resumed, head, hashes, next, rows);
    case Recovery(search, ceiling, hashes, latest, forkTime) =>
      RecoveryRejoins(chain, s, plan, after, latest, forkTime, hashes, ceiling, search);
      NoneExact(chain, plan);
    case Revert(ancestor, forkTime) =>
      RevertRejoins(chain, s, plan, after, ancestor, forkTime);
      NoneExact(chain, plan);
  }

  lemma WriteTracks(chain: seq<Batch>, s: State, plan: Plan, batches: seq<Batch>, live: bool, scanned: seq<Range>, next: State, rows: seq<Row>)
    requires Tracks(chain, s, plan) && GoodInput(chain, s, batches, live, scanned)
    requires CommittedState(s, plan, batches, live, scanned, next, rows)
    ensures Tracks(chain, next, plan)
  {
    hide BoundariesHeld, Examined, RowsOf, NumbersOf, Covers, CacheSound, IsChain, CoveredStored, WellKept, StoredOnChain, AllValid,
      Committed, CacheFilled, ClosedSlots, OnChain, Durable;
    CommitAgrees(chain, s, plan, batches, live, scanned, next, rows);
    BoundariesKept(chain, s, plan, batches, live, scanned, next);
  }

  /**
   Every state of a run agrees with the chain that is canonical at that moment, and every closed row published by a
   restart, or by a commit whose slots pass the guard, is complete and exact.
   */
  lemma {:induction false} RunAgrees(plan: Plan, run: seq<Moment>, ops: seq<Op>, published: seq<seq<Row>>, n: nat)
    requires ValidPlan(plan) && IsRun(plan, run, ops, published) && n <= |ops|
    requires Agrees(run[0].chain, run[0].state, plan) && forall i :: 0 <= i < |ops| ==> Rejoining(run[i].state, plan, ops[i])
    ensures Agrees(run[n].chain, run[n].state, plan)
    ensures n < |ops| && Guarded(run[n].state, plan, ops[n]) ==> ClosedExact(run[n].chain, plan, published[n])
  {
    hide Agrees, Step, Guarded, Rejoining, ClosedExact;
    if n > 0 {
      RunAgrees(plan, run, ops, published, n - 1);
      assert StepAt(plan, run, ops, published, n - 1);
      StepAgrees(plan, run[n - 1].chain, run[n - 1].state, ops[n - 1], run[n].chain, run[n].state, published[n - 1]);
    }
    if n < |ops| {
      assert StepAt(plan, run, ops, published, n);
      StepAgrees(plan, run[n].chain, run[n].state, ops[n], run[n + 1].chain, run[n + 1].state, published[n]);
    }
  }

  /** When retention never cuts above a live boundary, every closed row of the run is complete and exact. */
  lemma {:induction false} RunIsExact(plan: Plan, run: seq<Moment>, ops: seq<Op>, published: seq<seq<Row>>, n: nat)
    requires ValidPlan(plan) && IsRun(plan, run, ops, published) && n <= |ops|
    requires Tracks(run[0].chain, run[0].state, plan)
    requires forall i :: 0 <= i < |ops| ==> KeptByRetention(run[i].state, ops[i]) && Rejoining(run[i].state, plan, ops[i])
    ensures Tracks(run[n].chain, run[n].state, plan)
    ensures n < |ops| ==> ClosedExact(run[n].chain, plan, published[n])
  {
    hide Tracks, Step, KeptByRetention, Rejoining, ClosedExact;
    if n > 0 {
      RunIsExact(plan, run, ops, published, n - 1);
      assert StepAt(plan, run, ops, published, n - 1);
      StepTracks(plan, run[n - 1].chain, run[n - 1].state, ops[n - 1], run[n].chain, run[n].state, published[n - 1]);
    }
    if n < |ops| {
      assert StepAt(plan, run, ops, published, n);
      StepTracks(plan, run[n].chain, run[n].state, ops[n], run[n + 1].chain, run[n + 1].state, published[n]);
    }
  }

  // ------------------------------------------------------------------------------------------ runs that always rejoin

  /** A write covers nothing past its last block. */
  ghost predicate EndsWrite(op: Op) {
    op.Write? ==> forall n :: Covers(op.scanned, n) && !Covers(op.scanned, n + 1) ==> n in NumbersOf(op.batches)
  }

  /** Nor does a reported revert leave anything covered past a stored block. */
  ghost predicate KeepsEnds(s: State, op: Op) {
    && EndsWrite(op)
    && (op.Revert? ==> var a := op.ancestor.number; Covers(s.coverage, a) && Covers(s.coverage, a + 1) ==> a in s.store.batches)
  }

  /** What a caller can check: how far a write covers, and that a reported ancestor is a stored block. */
  ghost predicate Careful(s: State, op: Op) {
    && EndsWrite(op)
    && (op.Revert? ==> op.ancestor.number in s.store.batches && s.store.batches[op.ancestor.number].block.hash == op.ancestor.hash)
  }

  lemma WriteEnds(chain: seq<Batch>, s: State, plan: Plan, batches: seq<Batch>, live: bool, scanned: seq<Range>, next: State, rows: seq<Row>)
    requires Agrees(chain, s, plan) && GoodInput(chain, s, batches, live, scanned) && Ended(s)
    requires CommittedState(s, plan, batches, live, scanned, next, rows)
    requires forall n :: Covers(scanned, n) && !Covers(scanned, n + 1) ==> n in NumbersOf(batches)
    ensures Ended(next)
  {
    hide Covers, NumbersOf, Agrees, GoodInput, CommittedState, Normal, MergeCoverage, NextCoverage;
    CommitAgrees(chain, s, plan, batches, live, scanned, next, rows);
    NextCovers(chain, s, plan, batches, live, scanned, next, rows);
    forall n | Covers(next.coverage, n) && !Covers(next.coverage, n + 1) ensures n in next.store.batches {
      assert Covers(next.coverage, n + 1) || (!Covers(s.coverage, n + 1) && !Covers(scanned, n + 1));
    }
  }

  lemma NextCovers(chain: seq<Batch>, s: State, plan: Plan, batches: seq<Batch>, live: bool, scanned: seq<Range>, next: State, rows: seq<Row>)
    requires Agrees(chain, s, plan) && GoodInput(chain, s, batches, live, scanned)
    requires CommittedState(s, plan, batches, live, scanned, next, rows)
    ensures forall n :: Covers(next.coverage, n) <==> Covers(s.coverage, n) || Covers(scanned, n) || n in NumbersOf(batches)
  {
    hide Covers, NumbersOf, Normal, Merge, MergeCoverage, RangesFromBlocks, CacheSound, IsChain, Examined, RowsOf, CacheFilled;
    MergeCoverageAgrees(s.coverage, NumbersOf(batches), scanned);
  }

  lemma RetainEnds(s: State, fromBlock: nat, fromTime: nat)
    requires WellKept(s.store) && s.coverage == s.store.coverage && Ended(s)
    ensures Ended(Pruned(s, fromBlock, fromTime))
  {
    hide Covers, Normal, Above;
    RetainKeeps(s.store, fromBlock, fromTime);
  }

  /** A cut leaves ends stored when the height right below it is stored or not covered. */
  lemma CutEnds(chain: seq<Batch>, s: State, plan: Plan, from: nat, forkTime: nat, next: State)
    requires WrittenFrom(chain, s, plan) && Ended(s) && IsForkTime(s.store.batches, from, forkTime)
    requires next.store == Invalidated(s.store, from, forkTime) && next.coverage == next.store.coverage
    requires Covers(s.coverage, from - 1) && Covers(s.coverage, from) ==> from - 1 in s.store.batches
    ensures Ended(next)
  {
    hide Covers, Normal, Below, IsForkTime, Surviving, IsChain, StoredOnChain;
    StoredInTimeOrder(chain, s.store.batches);
    InvalidateKeeps(s.store, from, forkTime);
    forall n | Covers(next.coverage, n) && !Covers(next.coverage, n + 1) ensures n in next.store.batches {
      assert n + 1 == from || !Covers(s.coverage, n + 1);
    }
  }

  /** In normal form the height below a range is not covered. */
  lemma StartIsStart(coverage: seq<Range>, i: nat)
    requires Normal(coverage) && i < |coverage|
    ensures !Covers(coverage, coverage[i].from - 1)
  {
    var n := coverage[i].from - 1;
    forall j | 0 <= j < |coverage| ensures !(coverage[j].from <= n <= coverage[j].through) {
      assert Coverage.Valid(coverage[j]) && Coverage.Valid(coverage[i]);
    }
  }

  lemma RestartEnds(chain: seq<Batch>, s: State, plan: Plan, resumed: Header, head: Header, hashes: map<nat, Hash>, next: State, rows: seq<Row>)
    requires Agrees(chain, s, plan) && Ended(s) && RestartedState(s, plan, resumed, head, hashes, next, rows)
    ensures Ended(next)
  {
    hide RestoredState, CoveredStored, StoredOnChain, CacheSound, IsChain, OnChain, BoundariesOnChain, Ended, ClosedExact, CompletedRows,
      Covers, Normal, IsForkTime, Invalidated, Passes;
    var middle :| RestoredState(Started(s.store, resumed, None), plan, resumed, middle, rows) && Validated(middle, head, hashes, next);
    StartedIsWritten(chain, s, plan, resumed);
    RestoredKeeps(chain, Started(s.store, resumed, None), plan, resumed, middle, rows);
    EndedSame(Started(s.store, resumed, None), middle);
    var i := FirstFailing(middle, hashes, 0);
    if i < |middle.coverage| {
      var from: nat := middle.coverage[i].from;
      StartIsStart(middle.coverage, i);
      var forkTime: nat :| IsForkTime(middle.store.batches, from, forkTime) && next == Reseeded(middle, from, forkTime, head);
      CutEnds(chain, middle, plan, from, forkTime, next);
    }
  }

  /** Every step but a careless write or revert leaves every range ended by a stored block. */
  lemma StepEnds(plan: Plan, chain: seq<Batch>, s: State, op: Op, after: seq<Batch>, next: State, rows: seq<Row>)
    requires Agrees(chain, s, plan) && Step(plan, chain, s, op, after, next, rows) && Ended(s) && KeepsEnds(s, op)
    ensures Ended(next)
  {
    hide Agrees, GoodInput, CommittedState, CacheFilled, RestartedState, Activated, Pruned, Invalidated, IsForkTime, ReadsOf, Branch, OnChain,
      OriginQuiet, Ended, Covers, NumbersOf, Recent, StillCanonical;
    AgreesParts(chain, s, plan);
    match op
    case Write(batches, live, scanned) =>
      WriteEnds(chain, s, plan, batches, live, scanned, next, rows);
    case FailedWrite(batches, live, scanned) =>
      EndedSame(s, next);
    case Activate(incoming) =>
      ActivatedSame(s, plan, incoming);
      EndedSame(s, next);
    case Retain(fromBlock, fromTime) =>
      RetainEnds(s, fromBlock, fromTime);
    case Resolve(origin) =>
      EndedSame(s, next);
    case Restart(resumed, head, hashes) =>
      RestartEnds(chain, s, plan, resumed, head, hashes, next, rows);
    case Recovery(search, ceiling, hashes, latest, forkTime) =>
      SearchedStored(s, ceiling, latest.number, hashes, search);
      NothingBelowZero(chain, s, plan);
      CutEnds(chain, s, plan, CutAt(search), forkTime, next);
    case Revert(ancestor, forkTime) =>
      CutEnds(chain, s, plan, ancestor.number + 1, forkTime, next);
  }

  lemma AgreesParts(chain: seq<Batch>, s: State, plan: Plan)
    requires Agrees(chain, s, plan)
    ensures WrittenFrom(chain, s, plan) && WellKept(s.store) && s.coverage == s.store.coverage
  {
  }

  lemma ActivatedSame(s: State, plan: Plan, incoming: seq<Batch>)
    requires ValidPlan(plan)
    ensures Activated(s, plan, incoming).store == s.store && Activated(s, plan, incoming).coverage == s.coverage
  {
  }

  lemma SearchedStored(s: State, ceiling: nat, latest: nat, hashes: map<nat, Hash>, search: Search)
    requires Searched(s.store.batches, ceiling, latest, hashes, search)
    ensures search.Ancestor? ==> CutAt(search) > 0 && CutAt(search) - 1 in s.store.batches
  {
  }

  lemma NothingBelowZero(chain: seq<Batch>, s: State, plan: Plan)
    requires WrittenFrom(chain, s, plan)
    ensures !Covers(s.coverage, -1)
  {
    hide Covers, IsChain;
  }

  /** When callers are careful, every reported revert and every restart of the run rejoins the chain. */
  lemma {:induction false} RunRejoins(plan: Plan, run: seq<Moment>, ops: seq<Op>, published: seq<seq<Row>>, n: nat)
    requires ValidPlan(plan) && IsRun(plan, run, ops, published) && n <= |ops|
    requires Agrees(run[0].chain, run[0].state, plan) && Ended(run[0].state)
    requires forall i :: 0 <= i < |ops| ==> Careful(run[i].state, ops[i])
    ensures Agrees(run[n].chain, run[n].state, plan) && Ended(run[n].state)
    ensures n < |ops| ==> Rejoining(run[n].state, plan, ops[n])
  {
    hide Agrees, Step, Careful, KeepsEnds, Rejoining, Ended;
    if n > 0 {
      RunRejoins(plan, run, ops, published, n - 1);
      assert StepAt(plan, run, ops, published, n - 1);
      StepAgrees(plan, run[n - 1].chain, run[n - 1].state, ops[n - 1], run[n].chain, run[n].state, published[n - 1]);
      CarefulKeepsEnds(run[n - 1].state, ops[n - 1]);
      StepEnds(plan, run[n - 1].chain, run[n - 1].state, ops[n - 1], run[n].chain, run[n].state, published[n - 1]);
    }
    if n < |ops| {
      assert StepAt(plan, run, ops, published, n);
      CarefulRejoins(plan, run[n].chain, run[n].state, ops[n], run[n + 1].chain, run[n + 1].state, published[n]);
    }
  }

  lemma CarefulKeepsEnds(s: State, op: Op)
    requires Careful(s, op)
    ensures KeepsEnds(s, op)
  {
    hide Covers, NumbersOf;
  }

  lemma CarefulRejoins(plan: Plan, chain: seq<Batch>, s: State, op: Op, after: seq<Batch>, next: State, rows: seq<Row>)
    requires Agrees(chain, s, plan) && Step(plan, chain, s, op, after, next, rows) && Ended(s) && Careful(s, op)
    ensures Rejoining(s, plan, op)
  {
    hide Agrees, Ended, Anchored, HashLinked, IsChain, OneBlockPerHash, NumbersOf, Covers, GoodInput, CommittedState, CacheFilled, RestartedState,
      Activated, Pruned, Reorganized, IsForkTime, Searched;
    if op.Revert? {
      StoredAncestorDecides(chain, s, plan, op.ancestor);
    }
  }
}
