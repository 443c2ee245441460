/**
 Safety of the model over every run on one canonical chain: what each operation keeps, and that every row it
 publishes as closed and complete was computed from exactly the events of its period.
 */
module ModelSafety {
  import opened Blocks
  import opened Coverage
  import opened ModelTypes
  import opened ModelStore
  import opened Partitions
  import opened ModelCommit

  // ------------------------------------------------------------------------------------------ the invariant

  ghost predicate StoredOnChain(chain: seq<Batch>, batches: map<nat, Batch>) {
    forall n :: n in batches ==> n < |chain| && batches[n] == chain[n]
  }

  /** Every event block inside coverage has a stored batch, and coverage does not leave the chain. */
  ghost predicate CoveredStored(chain: seq<Batch>, coverage: seq<Range>, batches: map<nat, Batch>) {
    forall n :: Covers(coverage, n) ==> 0 <= n < |chain| && (chain[n].events != [] ==> n in batches)
  }

  function SlotEnd(plan: Plan, slot: Slot): nat
    requires slot.0 in plan.projections
  {
    slot.1 + plan.projections[slot.0]
  }

  /** A cache entry holds canonical batches of its period, among them all the stored ones. */
  ghost predicate EntrySound(chain: seq<Batch>, s: State, plan: Plan, slot: Slot)
    requires slot in s.cache
  {
    && slot.0 in plan.projections && plan.projections[slot.0] > 0 && Aligned(slot.1, plan.projections[slot.0])
    && slot !in s.completed
    && PartOf(chain, s.cache[slot], slot.1, SlotEnd(plan, slot))
    && forall n :: n in s.store.batches && InPeriod(s.store.batches[n].block, slot.1, SlotEnd(plan, slot)) ==> n in s.cache[slot]
  }

  ghost predicate CacheSound(chain: seq<Batch>, s: State, plan: Plan) {
    forall slot :: slot in s.cache ==> EntrySound(chain, s, plan, slot)
  }

  ghost predicate BoundariesOnChain(chain: seq<Batch>, s: State, plan: Plan) {
    && s.liveBoundary.Keys == s.liveFrom.Keys
    && forall name :: name in s.liveBoundary ==> OnChain(chain, s.liveBoundary[name]) && name in plan.projections
  }

  /** From the live boundary to the last applied block no event block of the first live period is missing. */
  ghost predicate BoundaryHeld(chain: seq<Batch>, s: State, plan: Plan, name: string)
    requires name in s.liveFrom && name in s.liveBoundary && name in plan.projections
  {
    && s.applied.Some?
    && var slot := (name, s.liveFrom[name]);
       slot in s.completed ||
       forall n :: Eventful(chain, n, slot.1, SlotEnd(plan, slot)) && s.liveBoundary[name].number < n <= s.applied.value.number
         ==> n in s.store.batches
  }

  ghost predicate BoundariesHeld(chain: seq<Batch>, s: State, plan: Plan) {
    forall name :: name in s.liveFrom && name in s.liveBoundary && name in plan.projections ==> BoundaryHeld(chain, s, plan, name)
  }

  /** A closed, complete row of a partitioned projection holds exactly its period's events. */
  ghost predicate RowExact(chain: seq<Batch>, plan: Plan, row: Row) {
    row.period == Closed && row.complete && row.projection in plan.projections ==>
      var start := Parse(row.key);
      && row.endTime == Some(start + plan.projections[row.projection])
      && row.events == EventsIn(chain, start, start + plan.projections[row.projection])
  }

  ghost predicate RowsExact(chain: seq<Batch>, plan: Plan, rows: map<RowId, Row>) {
    forall id :: id in rows ==> RowExact(chain, plan, rows[id])
  }

  ghost predicate OriginQuiet(chain: seq<Batch>, s: State, plan: Plan) {
    plan.fromOrigin && s.origin.Some? ==> forall n :: 0 <= n < |chain| && n < s.origin.value ==> chain[n].events == []
  }

  /** What the store holds was written while this chain was canonical. */
  ghost predicate WrittenFrom(chain: seq<Batch>, s: State, plan: Plan) {
    && IsChain(chain) && ValidPlan(plan)
    && StoredOnChain(chain, s.store.batches) && WellKept(s.store)
    && s.coverage == s.store.coverage
    && CoveredStored(chain, s.coverage, s.store.batches) && OriginQuiet(chain, s, plan)
  }

  /** The state agrees with the canonical chain; nothing is said of what lies between a live boundary and its period. */
  ghost predicate Agrees(chain: seq<Batch>, s: State, plan: Plan) {
    && WrittenFrom(chain, s, plan) && CacheSound(chain, s, plan)
    && MaybeOnChain(chain, s.applied) && BoundariesOnChain(chain, s, plan)
  }

  ghost predicate Tracks(chain: seq<Batch>, s: State, plan: Plan) {
    Agrees(chain, s, plan) && BoundariesHeld(chain, s, plan)
  }

  /**
   What the callers of commit pass: canonical batches in order; for history the scanned range with all its event
   blocks, for live the blocks right after the applied one.
   */
  ghost predicate GoodInput(chain: seq<Batch>, s: State, batches: seq<Batch>, live: bool, scanned: seq<Range>) {
    && batches != []
    && (forall i :: 0 <= i < |batches| ==> batches[i].block.number < |chain| && batches[i] == chain[batches[i].block.number])
    && AllValid(scanned)
    && (scanned != [] ==> forall n :: n in NumbersOf(batches) ==> Covers(scanned, n))
    && (forall n :: Covers(scanned, n) ==> 0 <= n < |chain| && (chain[n].events != [] ==> n in NumbersOf(batches)))
    && (live ==> scanned == [] && s.applied.Some? && forall i :: 0 <= i < |batches| ==> batches[i].block.number == s.applied.value.number + 1 + i)
  }

  // ------------------------------------------------------------------------------------------ periods are aligned

  lemma FloorHolds(timestamp: nat, interval: nat)
    requires interval > 0
    ensures Floor(timestamp, interval) <= timestamp < Floor(timestamp, interval) + interval
    ensures Aligned(Floor(timestamp, interval), interval)
  {
    assert timestamp == timestamp / interval * interval + timestamp % interval;
  }

  lemma AddInterval(start: nat, interval: nat)
    requires Aligned(start, interval)
    ensures Aligned(start + interval, interval)
  {
    var k: nat :| start == Times(k, interval);
    assert start + interval == Times(k + 1, interval);
  }

  lemma {:induction false} TimesGap(a: nat, b: nat, interval: nat)
    requires a < b
    ensures Times(a, interval) + interval <= Times(b, interval)
    decreases b
  {
    assert Times(b, interval) == Times(b - 1, interval) + interval;
    if a < b - 1 {
      TimesGap(a, b - 1, interval);
    }
  }

  /** An aligned period that holds a timestamp is the timestamp's own. */
  lemma FloorUnique(timestamp: nat, interval: nat, start: nat)
    requires interval > 0 && Aligned(start, interval) && start <= timestamp < start + interval
    ensures Floor(timestamp, interval) == start
  {
    FloorHolds(timestamp, interval);
    var a: nat :| start == Times(a, interval);
    var b := timestamp / interval;
    if a < b { TimesGap(a, b, interval); }
    if b < a { TimesGap(b, a, interval); }
  }

  lemma {:induction false} StepsAligned(start: nat, limit: nat, interval: nat)
    requires interval > 0 && Aligned(start, interval)
    ensures forall x :: x in Steps(start, limit, interval) ==> Aligned(x, interval)
    decreases limit - start
  {
    if start < limit {
      AddInterval(start, interval);
      StepsAligned(start + interval, limit, interval);
    }
  }

  lemma {:induction false} GapsAligned(joined: seq<Batch>, interval: nat)
    requires interval > 0
    ensures forall x :: x in Gaps(joined, interval) ==> Aligned(x, interval)
  {
    if |joined| >= 2 {
      var last := |joined| - 1;
      GapsAligned(joined[..last], interval);
      FloorHolds(joined[last - 1].block.timestamp, interval);
      AddInterval(Floor(joined[last - 1].block.timestamp, interval), interval);
      StepsAligned(Floor(joined[last - 1].block.timestamp, interval) + interval, Floor(joined[last].block.timestamp, interval), interval);
    }
  }

  lemma OwnAligned(batches: seq<Batch>, interval: nat)
    requires interval > 0
    ensures forall x :: x in Own(batches, interval) ==> Aligned(x, interval)
  {
    forall i | 0 <= i < |batches| ensures Aligned(Floor(batches[i].block.timestamp, interval), interval) {
      FloorHolds(batches[i].block.timestamp, interval);
    }
  }

  lemma PeriodsAligned(s: State, batches: seq<Batch>, live: bool, interval: nat)
    requires interval > 0 && batches != []
    ensures forall x :: x in Periods(s, batches, live, interval) ==> Aligned(x, interval)
  {
    hide Aligned, Own, Gaps, Steps, Joined, Predecessor, Successor, Floor;
    OwnAligned(batches, interval);
    GapsAligned(Joined(s, batches), interval);
    OwnAligned(Maybe(Predecessor(s, batches[0].block)), interval);
    OwnAligned(Maybe(Successor(s, Last(batches).block)), interval);
    if s.applied.Some? {
      FloorHolds(s.applied.value.timestamp, interval);
      StepsAligned(Floor(s.applied.value.timestamp, interval),
                   Floor(Progress(s, batches, live).timestamp, interval) + 1, interval);
    }
  }

  // ------------------------------------------------------------------------------------------ what a commit reads

  /** Height by height, the incoming batches. */
  lemma IncomingOf(chain: seq<Batch>, batches: seq<Batch>)
    requires forall i :: 0 <= i < |batches| ==> batches[i].block.number < |chain| && batches[i] == chain[batches[i].block.number]
    ensures forall n :: n in PutBatches(map[], batches) <==> n in NumbersOf(batches)
    ensures StoredOnChain(chain, PutBatches(map[], batches))
  {
    PutBatchesKeys(map[], batches);
    forall n | n in PutBatches(map[], batches) ensures n < |chain| && PutBatches(map[], batches)[n] == chain[n] {
      var b := PutBatches(map[], batches)[n];
      assert b in batches;
    }
  }

  lemma KnownSound(chain: seq<Batch>, s: State, plan: Plan, slot: Slot)
    requires StoredOnChain(chain, s.store.batches) && CacheSound(chain, s, plan) && slot.0 in plan.projections
    ensures var known := Known(s, slot, plan.projections[slot.0]);
            && PartOf(chain, known, slot.1, SlotEnd(plan, slot))
            && forall n :: n in s.store.batches && InPeriod(s.store.batches[n].block, slot.1, SlotEnd(plan, slot)) ==> n in known
  {
    if slot in s.cache {
      assert EntrySound(chain, s, plan, slot);
    }
  }

  /** The combined batches: canonical, of the period, and with every stored and incoming batch of it. */
  lemma CombinedSound(chain: seq<Batch>, s: State, plan: Plan, slot: Slot, batches: seq<Batch>)
    requires StoredOnChain(chain, s.store.batches) && CacheSound(chain, s, plan) && slot.0 in plan.projections
    requires forall i :: 0 <= i < |batches| ==> batches[i].block.number < |chain| && batches[i] == chain[batches[i].block.number]
    ensures var combined := Combined(s, slot, plan.projections[slot.0], batches);
            && PartOf(chain, combined, slot.1, SlotEnd(plan, slot))
            && (forall n :: n in Known(s, slot, plan.projections[slot.0]) ==> n in combined)
            && (forall n | 0 <= n < |chain| && (n in s.store.batches || n in NumbersOf(batches)) ::
                  InPeriod(chain[n].block, slot.1, SlotEnd(plan, slot)) ==> n in combined)
  {
    hide NumbersOf, PutBatches, CacheSound, Known;
    KnownSound(chain, s, plan, slot);
    IncomingOf(chain, batches);
  }

  /** The coverage a commit works with: nothing of it is unknown once the incoming batches are counted. */
  lemma NextCoverageSound(chain: seq<Batch>, s: State, plan: Plan, batches: seq<Batch>, live: bool, scanned: seq<Range>)
    requires Agrees(chain, s, plan) && GoodInput(chain, s, batches, live, scanned)
    ensures Normal(NextCoverage(s, batches, scanned))
    ensures forall n :: Covers(NextCoverage(s, batches, scanned), n) ==>
              0 <= n < |chain| && (chain[n].events != [] ==> n in s.store.batches || n in NumbersOf(batches))
    ensures forall n :: n in NumbersOf(batches) ==> Covers(NextCoverage(s, batches, scanned), n)
    ensures Merge(s.coverage + ModelStore.Added(batches, if scanned == [] then None else Some(scanned)))
         == Some(NextCoverage(s, batches, scanned))
  {
    hide Covers, Normal, Merge, MergeCoverage, RangesFromBlocks, CacheSound, IsChain;
    MergeCoverageAgrees(s.coverage, NumbersOf(batches), scanned);
  }

  lemma {:induction false} AscendingMembers(m: map<nat, Batch>, b: Batch)
    requires b in Ascending(m)
    ensures exists n :: n in m && m[n] == b
    decreases |m|
  {
    if m != map[] {
      var k := MaxKey(m);
      assert (m - {k}).Keys == m.Keys - {k};
      if b != m[k] {
        AscendingMembers(m - {k}, b);
      }
    }
  }

  lemma {:induction false} QueryMembers(batches: seq<Batch>, n: int)
    ensures LastAtMost(batches, n).Some? ==> LastAtMost(batches, n).value in batches
    ensures FirstAtLeast(batches, n).Some? ==> FirstAtLeast(batches, n).value in batches
    decreases |batches|
  {
    if batches != [] {
      QueryMembers(batches[..|batches| - 1], n);
      QueryMembers(batches[1..], n);
    }
  }

  lemma QueryOnChain(chain: seq<Batch>, stored: map<nat, Batch>, n: int)
    requires IsChain(chain) && StoredOnChain(chain, stored)
    ensures MaybeOnChain(chain, HeaderOf(LastAtMost(Ascending(stored), n)))
    ensures MaybeOnChain(chain, HeaderOf(FirstAtLeast(Ascending(stored), n)))
  {
    hide Ascending, LastAtMost, FirstAtLeast;
    QueryMembers(Ascending(stored), n);
    var a, b := LastAtMost(Ascending(stored), n), FirstAtLeast(Ascending(stored), n);
    if a.Some? { AscendingMembers(stored, a.value); }
    if b.Some? { AscendingMembers(stored, b.value); }
  }

  lemma JoinedRead(chain: seq<Batch>, s: State, batches: seq<Batch>)
    requires IsChain(chain) && StoredOnChain(chain, s.store.batches) && batches != []
    requires forall i :: 0 <= i < |batches| ==> batches[i].block.number < |chain| && batches[i] == chain[batches[i].block.number]
    ensures JoinedOnChain(chain, Joined(s, batches))
  {
    hide Ascending, LastAtMost, FirstAtLeast;
    QueryOnChain(chain, s.store.batches, batches[0].block.number - 1);
    QueryOnChain(chain, s.store.batches, Last(batches).block.number + 1);
    var before, after := Maybe(Predecessor(s, batches[0].block)), Maybe(Successor(s, Last(batches).block));
    var joined := before + batches + after;
    forall i | 0 <= i < |joined| ensures OnChain(chain, joined[i].block) {
      if |before| <= i < |before| + |batches| {
        assert joined[i] == batches[i - |before|];
      }
    }
  }

  lemma ContextRead(chain: seq<Batch>, s: State, plan: Plan, slot: Slot, batches: seq<Batch>, live: bool, scanned: seq<Range>, n: int, m: int)
    requires Agrees(chain, s, plan) && GoodInput(chain, s, batches, live, scanned)
    ensures ReadFrom(chain, ContextOf(s, plan, slot.0, batches, live, scanned),
                     LastAtMost(Ascending(s.store.batches), n), FirstAtLeast(Ascending(s.store.batches), m))
  {
    hide Ascending, LastAtMost, FirstAtLeast, Joined, NextCoverage, CacheSound, IsChain, WellKept, CoveredStored;
    JoinedRead(chain, s, batches);
    QueryOnChain(chain, s.store.batches, n);
    QueryOnChain(chain, s.store.batches, m);
    assert batches[|batches| - 1].block.number < |chain|;
  }

  /** When the period has closed, nothing after the live boundary is missing from the combined batches. */
  lemma BoundaryRead(chain: seq<Batch>, s: State, plan: Plan, slot: Slot, batches: seq<Batch>, live: bool, scanned: seq<Range>)
    requires Tracks(chain, s, plan) && GoodInput(chain, s, batches, live, scanned)
    requires slot.0 in plan.projections && slot !in s.completed
    requires Progress(s, batches, live).timestamp >= SlotEnd(plan, slot)
    ensures BoundaryIntact(chain, ContextOf(s, plan, slot.0, batches, live, scanned), slot.1, SlotEnd(plan, slot),
                           Combined(s, slot, plan.projections[slot.0], batches))
  {
    hide Combined, Joined, NextCoverage, CacheSound, WellKept, CoveredStored, Known, IsChain;
    var c := ContextOf(s, plan, slot.0, batches, live, scanned);
    if AtLiveBoundary(c, slot.1) {
      assert BoundaryHeld(chain, s, plan, slot.0);
      CombinedSound(chain, s, plan, slot, batches);
      var progress := Progress(s, batches, live);
      assert batches[|batches| - 1].block.number < |chain|;
      assert OnChain(chain, progress);
      forall n | Eventful(chain, n, slot.1, SlotEnd(plan, slot)) && c.liveBoundary.value.number < n
        ensures n in Combined(s, slot, plan.projections[slot.0], batches)
      {
        InOrder(chain, progress, n);
        NotAfter(chain, progress, n, SlotEnd(plan, slot));
        if n > s.applied.value.number {
          var i := n - s.applied.value.number - 1;
          assert NumbersOf(batches)[i] == n;
        }
      }
    }
  }

  lemma NotAfter(chain: seq<Batch>, progress: Header, n: nat, end: nat)
    requires IsChain(chain) && OnChain(chain, progress) && n < |chain|
    requires progress.timestamp >= end && chain[n].block.timestamp < end
    ensures n < progress.number
  {
  }

  lemma ExaminedAligned(s: State, plan: Plan, batches: seq<Batch>, live: bool, slot: Slot)
    requires ValidPlan(plan) && batches != [] && slot in Examined(s, plan, batches, live)
    ensures slot.0 in plan.projections && Aligned(slot.1, plan.projections[slot.0]) && slot !in s.completed
  {
    hide Aligned, Periods;
    PeriodsAligned(s, batches, live, plan.projections[slot.0]);
  }

  /** What the live-boundary clause takes for granted, for a period that closes. */
  ghost predicate BoundarySafe(chain: seq<Batch>, s: State, plan: Plan, slot: Slot, batches: seq<Batch>, live: bool, scanned: seq<Range>)
    requires slot.0 in plan.projections && batches != []
  {
    Ascending(Combined(s, slot, plan.projections[slot.0], batches)) != [] && Progress(s, batches, live).timestamp >= SlotEnd(plan, slot) ==>
      BoundaryIntact(chain, ContextOf(s, plan, slot.0, batches, live, scanned), slot.1, SlotEnd(plan, slot),
                     Combined(s, slot, plan.projections[slot.0], batches))
  }

  /** Every closed row a commit publishes holds exactly its period's events. */
  lemma PublishedRowExact(chain: seq<Batch>, s: State, plan: Plan, slot: Slot, batches: seq<Batch>, live: bool, scanned: seq<Range>, row: Row)
    requires Agrees(chain, s, plan) && GoodInput(chain, s, batches, live, scanned)
    requires slot in Examined(s, plan, batches, live) && Published(s, plan, slot, batches, live, scanned, row)
    requires BoundarySafe(chain, s, plan, slot, batches, live, scanned)
    ensures row.projection == slot.0 && row.key == Decimal(slot.1) && row.endTime == Some(SlotEnd(plan, slot))
    ensures row.period == Closed ==> row.complete && row.events == EventsIn(chain, slot.1, SlotEnd(plan, slot))
  {
    hide VerdictOn, Examined, BoundarySafe, EventsIn, Flat, Decimal, Progress, CacheSound, CoveredStored, WellKept, StoredOnChain, IsChain;
    ExaminedAligned(s, plan, batches, live, slot);
    var verdict := VerdictOn(s, plan, slot, batches, live, scanned);
    if verdict.closed {
      VerdictExact(chain, s, plan, slot, batches, live, scanned);
    }
  }

  lemma VerdictExact(chain: seq<Batch>, s: State, plan: Plan, slot: Slot, batches: seq<Batch>, live: bool, scanned: seq<Range>)
    requires Agrees(chain, s, plan) && GoodInput(chain, s, batches, live, scanned)
    requires slot.0 in plan.projections && slot !in s.completed && BoundarySafe(chain, s, plan, slot, batches, live, scanned)
    requires var v := VerdictOn(s, plan, slot, batches, live, scanned); v.Publish? && v.closed
    ensures var v := VerdictOn(s, plan, slot, batches, live, scanned);
            v.complete && Flat(v.batches) == EventsIn(chain, slot.1, SlotEnd(plan, slot))
  {
    hide Combined, ContextOf, Ascending, LastAtMost, FirstAtLeast, EventsIn, Flat, Progress, ReadFrom, StartKnown, EndKnown, Before,
      AtLiveBoundary, ClosesEmpty, PartOf, NoneMissing, NextCoverage, Covers, BoundariesHeld, CacheSound, IsChain,
      NumbersOf, BoundaryIntact, WellKept, Judge;
    var interval := plan.projections[slot.0];
    var combined := Combined(s, slot, interval, batches);
    var ordered := Ascending(combined);
    var stored := Ascending(s.store.batches);
    var c := ContextOf(s, plan, slot.0, batches, live, scanned);
    CombinedSound(chain, s, plan, slot, batches);
    NextCoverageSound(chain, s, plan, batches, live, scanned);
    ContextCoverage(s, plan, slot.0, batches, live, scanned);
    assert CoveredIsKnown(chain, c.coverage, combined, slot.1, slot.1 + interval);
    var n := if ordered == [] then 0 else ordered[0].block.number - 1;
    var m := if ordered == [] then 0 else Last(ordered).block.number + 1;
    ContextRead(chain, s, plan, slot, batches, live, scanned, n, m);
    ContextRead(chain, s, plan, slot, batches, live, scanned, n, m);
    if ordered == [] {
      EmptyVerdict(chain, c, slot.1, slot.1 + interval, combined, LastAtMost(stored, n), FirstAtLeast(stored, m));
    } else {
      ClosedNeedsProgress(c, slot.1, slot.1 + interval, ordered, LastAtMost(stored, n), FirstAtLeast(stored, m));
      PublishedIsExact(chain, c, slot.1, slot.1 + interval, combined, LastAtMost(stored, n), FirstAtLeast(stored, m));
    }
  }

  lemma ContextCoverage(s: State, plan: Plan, name: string, batches: seq<Batch>, live: bool, scanned: seq<Range>)
    requires batches != []
    ensures ContextOf(s, plan, name, batches, live, scanned).coverage == NextCoverage(s, batches, scanned)
    ensures ContextOf(s, plan, name, batches, live, scanned).progress == Progress(s, batches, live)
  {
  }

  lemma ClosedNeedsProgress(c: Context, start: nat, end: nat, ordered: seq<Batch>, before: Option<Batch>, after: Option<Batch>)
    requires ordered != []
    requires var v := Judge(c, start, end, ordered, before, after); v.Publish? && v.closed
    ensures c.progress.timestamp >= end
  {
  }

  lemma EmptyVerdict(chain: seq<Batch>, c: Context, start: nat, end: nat, known: map<nat, Batch>, before: Option<Batch>, after: Option<Batch>)
    requires ReadFrom(chain, c, before, after) && PartOf(chain, known, start, end)
    requires CoveredIsKnown(chain, c.coverage, known, start, end) && Ascending(known) == []
    requires Judge(c, start, end, [], None, None).Publish?
    ensures var v := Judge(c, start, end, [], None, None); v.complete && Flat(v.batches) == EventsIn(chain, start, end)
  {
    hide IsChain, LastBefore, FirstFrom, Spans, Covers, ClosesEmpty, Ascending, EventsIn;
    PartNumbers(chain, known, start, end);
    AscendingHead(known);
    EmptyPeriodSound(chain, c, start, end);
    ExactWhenNoneMissing(chain, known, start, end);
  }
}
