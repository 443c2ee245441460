/**
 The model's commit.

 It joins a group of batches to what is stored, looks at every period it touches, publishes what can be published, and
 keeps the in-memory caches in step with the store. What it reads and writes is given by functions of the state; that
 these are sound is shown in ModelSafety.
 */
module ModelCommit {
  import opened Blocks
  import opened Sorting
  import opened Coverage
  import opened ModelTypes
  import opened ModelStore
  import opened Partitions

  type Slot = (string, nat)

  /** The partitioned projections by name, with their intervals, and what the plan says about live and origin. */
  datatype Plan = Plan(projections: map<string, nat>, hasLive: bool, fromOrigin: bool)

  datatype State = State(
    store: Store,
    applied: Option<Header>,
    coverage: seq<Range>,
    revision: nat,
    cache: map<Slot, map<nat, Batch>>,
    completed: set<Slot>,
    liveFrom: map<string, nat>,
    liveBoundary: map<string, Header>,
    origin: Option<nat>)

  datatype Outcome = Done(rows: seq<Row>) | Failed

  predicate ValidPlan(plan: Plan) {
    forall name :: name in plan.projections ==> plan.projections[name] > 0
  }

  /** The start of the period a timestamp falls in. */
  function Floor(timestamp: nat, interval: nat): nat
    requires interval > 0
  {
    Times(timestamp / interval, interval)
  }

  function Times(k: nat, interval: nat): nat { k * interval }

  ghost predicate Aligned(start: nat, interval: nat) {
    exists k: nat :: start == Times(k, interval)
  }

  function InTime(batches: map<nat, Batch>, start: nat, end: nat): map<nat, Batch> {
    map n | n in batches && InPeriod(batches[n].block, start, end) :: batches[n]
  }

  /** The batches known for a slot before a commit: its cache entry, or what the store holds for the period. */
  function Known(s: State, slot: Slot, interval: nat): map<nat, Batch> {
    if slot in s.cache then s.cache[slot] else InTime(s.store.batches, slot.1, slot.1 + interval)
  }

  function Combined(s: State, slot: Slot, interval: nat, batches: seq<Batch>): map<nat, Batch> {
    Known(s, slot, interval) + InTime(PutBatches(map[], batches), slot.1, slot.1 + interval)
  }

  function Predecessor(s: State, first: Header): Option<Batch> {
    if first.number > 0 then LastAtMost(Ascending(s.store.batches), first.number - 1) else None
  }

  function Successor(s: State, last: Header): Option<Batch> {
    FirstAtLeast(Ascending(s.store.batches), last.number + 1)
  }

  function Maybe<T>(x: Option<T>): seq<T> { if x.Some? then [x.value] else [] }

  function Joined(s: State, batches: seq<Batch>): seq<Batch>
    requires batches != []
  {
    Maybe(Predecessor(s, batches[0].block)) + batches + Maybe(Successor(s, Last(batches).block))
  }

  function Progress(s: State, batches: seq<Batch>, live: bool): Header
    requires batches != []
  {
    if live || s.applied.None? then Last(batches).block else s.applied.value
  }

  function NextCoverage(s: State, batches: seq<Batch>, scanned: seq<Range>): seq<Range> {
    MergeCoverage(s.coverage, NumbersOf(batches), scanned)
  }

  function ContextOf(s: State, plan: Plan, name: string, batches: seq<Batch>, live: bool, scanned: seq<Range>): Context
    requires batches != []
  {
    Context(live, Joined(s, batches), s.applied, Progress(s, batches, live), NextCoverage(s, batches, scanned),
            s.origin, plan.fromOrigin, plan.hasLive,
            if name in s.liveFrom then Some(s.liveFrom[name]) else None,
            if name in s.liveBoundary then Some(s.liveBoundary[name]) else None)
  }

  // ------------------------------------------------------------------------------------------ periods to look at

  /** start, start + interval, ... below `limit`. */
  function Steps(start: nat, limit: nat, interval: nat): set<nat>
    requires interval > 0
    decreases limit - start
  {
    if start >= limit then {} else {start} + Steps(start + interval, limit, interval)
  }

  function Own(batches: seq<Batch>, interval: nat): set<nat>
    requires interval > 0
  {
    set i | 0 <= i < |batches| :: Floor(batches[i].block.timestamp, interval)
  }

  /** The empty periods strictly between consecutive batches. */
  function Gaps(joined: seq<Batch>, interval: nat): set<nat>
    requires interval > 0
  {
    if |joined| < 2 then {}
    else
      var last := |joined| - 1;
      Gaps(joined[..last], interval)
      + Steps(Floor(joined[last - 1].block.timestamp, interval) + interval,
              Floor(joined[last].block.timestamp, interval), interval)
  }

  /** From the period of the last applied block through that of the newest one. */
  function Elapsed(s: State, progress: Header, live: bool, interval: nat): set<nat>
    requires interval > 0
  {
    if live && s.applied.Some? then
      Steps(Floor(s.applied.value.timestamp, interval), Floor(progress.timestamp, interval) + 1, interval)
    else {}
  }

  function Periods(s: State, batches: seq<Batch>, live: bool, interval: nat): set<nat>
    requires interval > 0 && batches != []
  {
    Own(batches, interval) + Gaps(Joined(s, batches), interval)
    + Own(Maybe(Predecessor(s, batches[0].block)), interval) + Own(Maybe(Successor(s, Last(batches).block)), interval)
    + Elapsed(s, Progress(s, batches, live), live, interval)
  }

  /** The slots a commit looks at: those not yet completed. */
  function Examined(s: State, plan: Plan, batches: seq<Batch>, live: bool): set<Slot>
    requires ValidPlan(plan) && batches != []
  {
    (set name, start | name in plan.projections && start in Periods(s, batches, live, plan.projections[name]) :: (name, start))
    - s.completed
  }

  function VerdictOn(s: State, plan: Plan, slot: Slot, batches: seq<Batch>, live: bool, scanned: seq<Range>): Verdict
    requires slot.0 in plan.projections && batches != []
  {
    var interval := plan.projections[slot.0];
    var ordered := Ascending(Combined(s, slot, interval, batches));
    var stored := Ascending(s.store.batches);
    var before := if ordered == [] then None else LastAtMost(stored, ordered[0].block.number - 1);
    var after := if ordered == [] then None else FirstAtLeast(stored, Last(ordered).block.number + 1);
    Judge(ContextOf(s, plan, slot.0, batches, live, scanned), slot.1, slot.1 + interval, ordered, before, after)
  }

  function RowFor(s: State, plan: Plan, slot: Slot, batches: seq<Batch>, live: bool, verdict: Verdict): Row
    requires slot.0 in plan.projections && batches != [] && verdict.Publish?
  {
    Row(slot.0, Decimal(slot.1), Flat(verdict.batches), Progress(s, batches, live),
        Some(slot.1 + plan.projections[slot.0]), if verdict.closed then Closed else Open, verdict.complete)
  }

  /** The rows of the examined slots that are published, each once. */
  ghost predicate RowsOf(s: State, plan: Plan, slots: set<Slot>, batches: seq<Batch>, live: bool, scanned: seq<Range>, rows: seq<Row>)
    requires batches != [] && forall slot :: slot in slots ==> slot.0 in plan.projections
  {
    && (forall row :: row in rows ==> exists slot :: slot in slots && Published(s, plan, slot, batches, live, scanned, row))
    && (forall slot :: slot in slots && VerdictOn(s, plan, slot, batches, live, scanned).Publish? ==>
          RowFor(s, plan, slot, batches, live, VerdictOn(s, plan, slot, batches, live, scanned)) in rows)
  }

  ghost predicate Published(s: State, plan: Plan, slot: Slot, batches: seq<Batch>, live: bool, scanned: seq<Range>, row: Row)
    requires slot.0 in plan.projections && batches != []
  {
    var verdict := VerdictOn(s, plan, slot, batches, live, scanned);
    verdict.Publish? && row == RowFor(s, plan, slot, batches, live, verdict)
  }

  /** The cache once the given slots have been looked at. */
  ghost predicate CacheFilled(s: State, plan: Plan, slots: set<Slot>, batches: seq<Batch>, cache: map<Slot, map<nat, Batch>>)
    requires forall slot :: slot in slots ==> slot.0 in plan.projections
  {
    && cache.Keys == s.cache.Keys + slots
    && (forall slot :: slot in slots ==> cache[slot] == Combined(s, slot, plan.projections[slot.0], batches))
    && (forall slot :: slot in cache && slot !in slots ==> cache[slot] == s.cache[slot])
  }

  function Durable(rows: seq<Row>): seq<Row> {
    if rows == [] then []
    else Durable(rows[..|rows| - 1]) + (if Last(rows).period == Closed && Last(rows).complete then [Last(rows)] else [])
  }

  function ClosedSlots(rows: seq<Row>): set<Slot> {
    set i | 0 <= i < |rows| && rows[i].period == Closed && rows[i].complete :: (rows[i].projection, Parse(rows[i].key))
  }

  predicate Contiguous(batches: seq<Batch>) {
    forall i :: 0 < i < |batches| ==> batches[i].block.parentHash == batches[i - 1].block.hash
  }

  /** A historical group must join the stored blocks next to it. */
  predicate Joins(s: State, batches: seq<Batch>)
    requires batches != []
  {
    var first, last := batches[0].block, Last(batches).block;
    var before := LastAtMost(Ascending(s.store.batches), first.number - 1);
    var after := FirstAtLeast(Ascending(s.store.batches), last.number + 1);
    && !(before.Some? && before.value.block.number == first.number - 1 && before.value.block.hash != first.parentHash)
    && !(after.Some? && after.value.block.number == last.number + 1 && after.value.block.parentHash != last.hash)
  }

  predicate Accepted(s: State, batches: seq<Batch>, live: bool, expectedRevision: nat)
    requires batches != []
  {
    expectedRevision == s.revision && (if live then Contiguous(batches) else Joins(s, batches))
  }

  ghost predicate CommittedState(s: State, plan: Plan, batches: seq<Batch>, live: bool, scanned: seq<Range>, next: State, rows: seq<Row>)
    requires ValidPlan(plan) && batches != []
  {
    var slots := Examined(s, plan, batches, live);
    && RowsOf(s, plan, slots, batches, live, scanned, rows)
    && Committed(s.store, batches, Durable(rows), if scanned == [] then None else Some(scanned)) == Some(next.store)
    && next.coverage == NextCoverage(s, batches, scanned)
    && next.applied == (if live then Some(Last(batches).block) else s.applied)
    && next.completed == s.completed + ClosedSlots(rows)
    && (exists cache :: CacheFilled(s, plan, slots, batches, cache) && next.cache == cache - ClosedSlots(rows))
    && next.revision == s.revision && next.origin == s.origin
    && next.liveFrom == s.liveFrom && next.liveBoundary == s.liveBoundary
  }

  // ------------------------------------------------------------------------------------------ the other operations

  /** The first incoming block in a later period than `initial`; |incoming| when there is none. */
  function FirstLater(incoming: seq<Batch>, initial: Header, interval: nat): (k: nat)
    requires interval > 0
    ensures k <= |incoming|
  {
    if incoming == [] then 0
    else if incoming[0].block.timestamp / interval > initial.timestamp / interval then 0
    else 1 + FirstLater(incoming[1..], initial, interval)
  }

  /** The projections whose first live period opens in these incoming blocks. */
  function Opening(s: State, plan: Plan, incoming: seq<Batch>): set<string>
    requires ValidPlan(plan) && s.applied.Some?
  {
    set name | name in plan.projections && name !in s.liveFrom
               && FirstLater(incoming, s.applied.value, plan.projections[name]) < |incoming|
  }

  function OpensAt(s: State, plan: Plan, incoming: seq<Batch>, name: string): (nat, Header)
    requires ValidPlan(plan) && s.applied.Some? && name in Opening(s, plan, incoming)
  {
    var interval := plan.projections[name];
    var k := FirstLater(incoming, s.applied.value, interval);
    (Floor(incoming[k].block.timestamp, interval), if k == 0 then s.applied.value else incoming[k - 1].block)
  }

  function OpenTimes(s: State, plan: Plan, incoming: seq<Batch>, names: set<string>): map<string, nat>
    requires ValidPlan(plan) && s.applied.Some? && names <= Opening(s, plan, incoming)
  {
    map name | name in names :: OpensAt(s, plan, incoming, name).0
  }

  function OpenBlocks(s: State, plan: Plan, incoming: seq<Batch>, names: set<string>): map<string, Header>
    requires ValidPlan(plan) && s.applied.Some? && names <= Opening(s, plan, incoming)
  {
    map name | name in names :: OpensAt(s, plan, incoming, name).1
  }

  function ActivatedIn(s: State, plan: Plan, incoming: seq<Batch>, names: set<string>): State
    requires ValidPlan(plan) && s.applied.Some? && names <= Opening(s, plan, incoming)
  {
    s.(liveFrom := s.liveFrom + OpenTimes(s, plan, incoming, names),
       liveBoundary := s.liveBoundary + OpenBlocks(s, plan, incoming, names))
  }

  function Activated(s: State, plan: Plan, incoming: seq<Batch>): State
    requires ValidPlan(plan)
  {
    if s.applied.None? then s else ActivatedIn(s, plan, incoming, Opening(s, plan, incoming))
  }

  function Pruned(s: State, fromBlock: nat, fromTime: nat): State {
    var store := Retained(s.store, fromBlock, fromTime);
    s.(store := store, coverage := store.coverage,
       cache := map slot | slot in s.cache && slot.1 >= fromTime :: s.cache[slot],
       completed := set slot | slot in s.completed && slot.1 >= fromTime)
  }

  /** A reorg back to below `from`: the store is invalidated, every cache is dropped, and `latest` is the new progress. */
  function Reorganized(s: State, from: nat, forkTime: nat, latest: Header): State {
    var store := Invalidated(s.store, from, forkTime);
    s.(store := store, coverage := store.coverage, revision := s.revision + 1, cache := map[], completed := {},
       liveFrom := map[], liveBoundary := map[], applied := Some(latest))
  }

  /** Where the first block at or after a time stands, in batches ordered by time. */
  ghost predicate IsCut(batches: seq<Batch>, time: nat, k: nat) {
    && k <= |batches|
    && (forall j :: 0 <= j < k ==> batches[j].block.timestamp < time)
    && (forall j :: k <= j < |batches| ==> batches[j].block.timestamp >= time)
  }

  ghost predicate ByTime(batches: seq<Batch>) {
    forall i, j :: 0 <= i <= j < |batches| ==> batches[i].block.timestamp <= batches[j].block.timestamp
  }

  /** The stored batches of [start, end), if coverage joins the stored neighbours on both sides. */
  predicate Restorable(stored: seq<Batch>, coverage: seq<Range>, first: nat, last: nat) {
    && first <= |stored| && last < |stored|
    && (first > 0 || stored[first].block.number == 0)
    && Spans(coverage, if first > 0 then stored[first - 1].block.number else 0, stored[last].block.number)
  }

  method AtTime(stored: seq<Batch>, time: nat) returns (low: nat)
    requires ByTime(stored)
    ensures IsCut(stored, time, low)
  {
    low := 0;
    var high := |stored|;
    while low < high
      invariant low <= high <= |stored|
      invariant forall j :: 0 <= j < low ==> stored[j].block.timestamp < time
      invariant forall j :: high <= j < |stored| ==> stored[j].block.timestamp >= time
    {
      var middle := (low + high) / 2;
      if stored[middle].block.timestamp < time { low := middle + 1; } else { high := middle; }
    }
  }

  /** The periods restored after a restart: those of stored batches, and the empty ones between covered neighbours. */
  function CoveredGaps(stored: seq<Batch>, coverage: seq<Range>, interval: nat): set<nat>
    requires interval > 0
  {
    if |stored| < 2 then {}
    else
      var last := |stored| - 1;
      CoveredGaps(stored[..last], coverage, interval)
      + if Spans(coverage, stored[last - 1].block.number, stored[last].block.number)
        then Steps(Floor(stored[last - 1].block.timestamp, interval) + interval, Floor(stored[last].block.timestamp, interval), interval)
        else {}
  }

  function RestorePeriods(s: State, interval: nat): set<nat>
    requires interval > 0
  {
    var stored := Ascending(s.store.batches);
    Own(stored, interval) + CoveredGaps(stored, s.coverage, interval)
  }

  function RestoreSlots(s: State, plan: Plan): set<Slot>
    requires ValidPlan(plan)
  {
    set name, start | name in plan.projections && start in RestorePeriods(s, plan.projections[name]) :: (name, start)
  }

  /** A slot to restore that has no stored row, and the row restored for it. */
  ghost predicate Restored(s: State, plan: Plan, progress: Header, slot: Slot, row: Row)
    requires ValidPlan(plan)
  {
    && slot in RestoreSlots(s, plan) && slot.0 in plan.projections
    && (slot.0, Decimal(slot.1)) !in s.store.rows && RestoredRow(s, plan, progress, slot, row)
  }

  /** A row restored for a slot: closed and complete, from the stored batches of its period. */
  ghost predicate RestoredRow(s: State, plan: Plan, progress: Header, slot: Slot, row: Row)
    requires slot.0 in plan.projections
  {
    exists first: nat, last: nat :: RestoredBetween(s, plan, progress, slot, first, last, row)
  }

  /** The cuts, the batches between them and the row restored from them. */
  ghost predicate RestoredBetween(s: State, plan: Plan, progress: Header, slot: Slot, first: nat, last: nat, row: Row)
    requires slot.0 in plan.projections
  {
    var stored := Ascending(s.store.batches);
    var end := slot.1 + plan.projections[slot.0];
    && IsCut(stored, slot.1, first) && IsCut(stored, end, last) && Restorable(stored, s.coverage, first, last)
    && first <= last <= |stored| && progress.timestamp >= end
    && row == Row(slot.0, Decimal(slot.1), Flat(stored[first..last]), progress, Some(end), Closed, true)
  }

  class Model {
    var state: State
    const plan: Plan

    constructor (plan: Plan, state: State)
      ensures this.plan == plan && this.state == state
    {
      this.plan, this.state := plan, state;
    }

    /** Looks at every slot, filling the cache and collecting the rows to publish. */
    method Examine(batches: seq<Batch>, live: bool, scanned: seq<Range>) returns (rows: seq<Row>)
      requires ValidPlan(plan) && batches != []
      modifies this
      ensures state == old(state).(cache := state.cache)
      ensures CacheFilled(old(state), plan, Examined(old(state), plan, batches, live), batches, state.cache)
      ensures RowsOf(old(state), plan, Examined(old(state), plan, batches, live), batches, live, scanned, rows)
    {
      hide Judge, Periods, Ascending, Combined, Known, InTime, ContextOf, VerdictOn, RowFor;
      var s := state;
      var examined := Examined(s, plan, batches, live);
      var work := examined;
      rows := [];
      while work != {}
        invariant work <= examined
        invariant state == s.(cache := state.cache)
        invariant CacheFilled(s, plan, examined - work, batches, state.cache)
        invariant RowsOf(s, plan, examined - work, batches, live, scanned, rows)
        decreases work
      {
        var slot :| slot in work;
        var combined := Combined(s, slot, plan.projections[slot.0], batches);
        var verdict := VerdictOn(s, plan, slot, batches, live, scanned);
        var more := if verdict.Publish? then [RowFor(s, plan, slot, batches, live, verdict)] else [];
        AddSlot(s, plan, examined - work, slot, batches, live, scanned, state.cache, rows, more);
        assert examined - (work - {slot}) == (examined - work) + {slot};
        state := state.(cache := state.cache[slot := combined]);
        rows := rows + more;
        work := work - {slot};
      }
      assert examined - {} == examined;
    }

    /** `storeFails` stands for a failed write: the caches have been filled, nothing else changes. */
    method Commit(batches: seq<Batch>, live: bool, expectedRevision: nat, scanned: seq<Range>, storeFails: bool) returns (r: Outcome)
      requires ValidPlan(plan)
      modifies this
      ensures batches == [] ==> r == Done([]) && state == old(state)
      ensures batches != [] && !Accepted(old(state), batches, live, expectedRevision) ==> r == Failed && state == old(state)
      ensures batches != [] && Accepted(old(state), batches, live, expectedRevision) && r.Failed? ==>
                && state == old(state).(cache := state.cache)
                && CacheFilled(old(state), plan, Examined(old(state), plan, batches, live), batches, state.cache)
      ensures batches != [] && r.Done? ==> CommittedState(old(state), plan, batches, live, scanned, state, r.rows)
      ensures r.Failed? ==> storeFails || !Accepted(old(state), batches, live, expectedRevision)
                            || Merge(old(state).store.coverage + ModelStore.Added(batches, if scanned == [] then None else Some(scanned))).None?
    {
      if batches == [] { return Done([]); }
      if expectedRevision != state.revision { return Failed; }
      if !live && !Joins(state, batches) { return Failed; }
      if live && !Contiguous(batches) { return Failed; }
      hide Examined, RowsOf, CacheFilled, NextCoverage, Contiguous, Joins;
      var s := state;
      var rows := Examine(batches, live, scanned);
      if storeFails { return Failed; }
      var written := Committed(s.store, batches, Durable(rows), if scanned == [] then None else Some(scanned));
      if written.None? { return Failed; }
      ghost var filled := state.cache;
      state := s.(store := written.value, coverage := NextCoverage(s, batches, scanned),
                  applied := if live then Some(Last(batches).block) else s.applied,
                  completed := s.completed + ClosedSlots(rows), cache := state.cache - ClosedSlots(rows));
      r := Done(rows);
    }

    method FindLater(incoming: seq<Batch>, initial: Header, interval: nat) returns (k: nat)
      requires interval > 0
      ensures k == FirstLater(incoming, initial, interval)
    {
      k := 0;
      while k < |incoming| && incoming[k].block.timestamp / interval <= initial.timestamp / interval
        invariant k <= |incoming|
        invariant forall j :: 0 <= j < k ==> incoming[j].block.timestamp / interval <= initial.timestamp / interval
      {
        k := k + 1;
      }
      if k == |incoming| {
        FirstLaterNone(incoming, initial, interval);
      } else {
        FirstLaterAt(incoming, initial, interval, k);
      }
    }

    method ActivateLivePartitions(incoming: seq<Batch>)
      requires ValidPlan(plan)
      modifies this
      ensures state == Activated(old(state), plan, incoming)
    {
      if state.applied.None? { return; }
      hide Floor, FirstLater, ActivatedIn, Opening, OpensAt;
      var s := state;
      var initial := s.applied.value;
      var work := plan.projections.Keys;
      ActivatedNone(s, plan, incoming);
      while work != {}
        invariant work <= plan.projections.Keys
        invariant state == ActivatedIn(s, plan, incoming, Opening(s, plan, incoming) - work)
        decreases work
      {
        var name :| name in work;
        ActivatedNext(s, plan, incoming, work, name);
        work := work - {name};
        if name in s.liveFrom { continue; }
        var interval := plan.projections[name];
        var k := FindLater(incoming, initial, interval);
        if k == |incoming| { continue; }
        state := state.(liveFrom := state.liveFrom[name := Floor(incoming[k].block.timestamp, interval)],
                        liveBoundary := state.liveBoundary[name := if k == 0 then initial else incoming[k - 1].block]);
      }
      assert Opening(s, plan, incoming) - {} == Opening(s, plan, incoming);
    }

    /** The store drops what is older than the cut; the caches lose the periods that start before it, one by one. */
    method ApplyRetention(fromBlock: nat, fromTime: nat)
      modifies this
      ensures state == Pruned(old(state), fromBlock, fromTime)
    {
      hide Retained;
      var s := state;
      var store := Retained(s.store, fromBlock, fromTime);
      state := s.(store := store);
      var slots := s.cache.Keys;
      assert (map slot | slot in s.cache && (slot in slots || slot.1 >= fromTime) :: s.cache[slot]) == s.cache;
      while slots != {}
        invariant slots <= s.cache.Keys
        invariant state == s.(store := store, cache := map slot | slot in s.cache && (slot in slots || slot.1 >= fromTime) :: s.cache[slot])
        decreases slots
      {
        var slot :| slot in slots;
        slots := slots - {slot};
        if slot.1 < fromTime {
          state := state.(cache := state.cache - {slot});
        }
        assert state.cache == map x | x in s.cache && (x in slots || x.1 >= fromTime) :: s.cache[x];
      }
      var cache := state.cache;
      assert cache == map slot | slot in s.cache && slot.1 >= fromTime :: s.cache[slot];
      var left := s.completed;
      assert (set slot | slot in s.completed && (slot in left || slot.1 >= fromTime)) == s.completed;
      while left != {}
        invariant left <= s.completed
        invariant state == s.(store := store, cache := cache, completed := set slot | slot in s.completed && (slot in left || slot.1 >= fromTime))
        decreases left
      {
        var slot :| slot in left;
        left := left - {slot};
        if slot.1 < fromTime {
          state := state.(completed := state.completed - {slot});
        }
        assert state.completed == set x | x in s.completed && (x in left || x.1 >= fromTime);
      }
      assert state.completed == set slot | slot in s.completed && slot.1 >= fromTime;
      state := state.(coverage := store.coverage);
    }

    /** Publishes, after a restart, the closed periods that the stored batches prove complete. */
    method RestorePartitions(progress: Header) returns (rows: seq<Row>)
      requires ValidPlan(plan) && ByTime(Ascending(state.store.batches))
      modifies this
      ensures state == old(state).(store := old(state).store.(rows := state.store.rows), completed := state.completed)
      ensures state.store.rows == PutRows(old(state).store.rows, rows)
      ensures state.completed == old(state).completed + ClosedSlots(rows)
      ensures forall row :: row in rows ==> exists slot :: Restored(old(state), plan, progress, slot, row)
      ensures forall slot, row :: Restored(old(state), plan, progress, slot, row) ==> row in rows
    {
      hide Ascending, RestoreSlots, Decimal, Parse, Restorable, RestoredRow, Flat, PutRows, ClosedSlots, IsCut, ByTime;
      var s := state;
      var stored := Ascending(s.store.batches);
      var work := RestoreSlots(s, plan);
      RestoreSlotNames(s, plan);
      rows := [];
      NoRows(s.store.rows);
      while work != {}
        invariant work <= RestoreSlots(s, plan)
        invariant state == s.(store := s.store.(rows := state.store.rows), completed := state.completed)
        invariant state.store.rows == PutRows(s.store.rows, rows)
        invariant state.completed == s.completed + ClosedSlots(rows)
        invariant forall row :: row in rows ==> exists slot :: Restored(s, plan, progress, slot, row)
        invariant forall slot, row :: Restored(s, plan, progress, slot, row) && slot !in work ==> row in rows
        decreases work
      {
        var slot :| slot in work;
        work := work - {slot};
        var end := slot.1 + plan.projections[slot.0];
        RestoredOnly(s, plan, progress, slot);
        if (slot.0, Decimal(slot.1)) in s.store.rows || progress.timestamp < end { continue; }
        var first := AtTime(stored, slot.1);
        var last := AtTime(stored, end);
        RestoredBy(s, plan, progress, slot, first, last);
        if !Restorable(stored, s.coverage, first, last) { continue; }
        CutsOrdered(stored, slot.1, end, first, last);
        var row := Row(slot.0, Decimal(slot.1), Flat(stored[first..last]), progress, Some(end), Closed, true);
        Restores(s, plan, progress, slot, first, last, row);
        assert Restored(s, plan, progress, slot, row);
        AppendRow(s.store.rows, rows, row);
        state := state.(store := state.store.(rows := state.store.rows[Id(row) := row]),
                        completed := state.completed + {(row.projection, Parse(row.key))});
        rows := rows + [row];
      }
    }
  }

  lemma ActivatedNone(s: State, plan: Plan, incoming: seq<Batch>)
    requires ValidPlan(plan) && s.applied.Some?
    ensures ActivatedIn(s, plan, incoming, Opening(s, plan, incoming) - plan.projections.Keys) == s
  {
    hide OpensAt, FirstLater;
    assert Opening(s, plan, incoming) - plan.projections.Keys == {};
  }

  lemma ActivatedMore(s: State, plan: Plan, incoming: seq<Batch>, names: set<string>, name: string)
    requires ValidPlan(plan) && s.applied.Some? && names <= Opening(s, plan, incoming) && name in Opening(s, plan, incoming)
    ensures var before, opens := ActivatedIn(s, plan, incoming, names), OpensAt(s, plan, incoming, name);
            ActivatedIn(s, plan, incoming, names + {name})
            == before.(liveFrom := before.liveFrom[name := opens.0], liveBoundary := before.liveBoundary[name := opens.1])
  {
    hide OpensAt, Opening, OpenTimes, OpenBlocks;
    OpenMore(s, plan, incoming, names, name);
    var opens := OpensAt(s, plan, incoming, name);
    assert s.liveFrom + OpenTimes(s, plan, incoming, names)[name := opens.0]
        == (s.liveFrom + OpenTimes(s, plan, incoming, names))[name := opens.0];
    assert s.liveBoundary + OpenBlocks(s, plan, incoming, names)[name := opens.1]
        == (s.liveBoundary + OpenBlocks(s, plan, incoming, names))[name := opens.1];
  }

  lemma OpenMore(s: State, plan: Plan, incoming: seq<Batch>, names: set<string>, name: string)
    requires ValidPlan(plan) && s.applied.Some? && names <= Opening(s, plan, incoming) && name in Opening(s, plan, incoming)
    ensures OpenTimes(s, plan, incoming, names + {name})
         == OpenTimes(s, plan, incoming, names)[name := OpensAt(s, plan, incoming, name).0]
    ensures OpenBlocks(s, plan, incoming, names + {name})
         == OpenBlocks(s, plan, incoming, names)[name := OpensAt(s, plan, incoming, name).1]
  {
    hide OpensAt, Opening;
  }

  /** What one turn of the activation loop adds. */
  lemma ActivatedNext(s: State, plan: Plan, incoming: seq<Batch>, work: set<string>, name: string)
    requires ValidPlan(plan) && s.applied.Some? && name in work && work <= plan.projections.Keys
    ensures var opening := Opening(s, plan, incoming);
            var before := ActivatedIn(s, plan, incoming, opening - work);
            var after := ActivatedIn(s, plan, incoming, opening - (work - {name}));
            var interval := plan.projections[name];
            var k := FirstLater(incoming, s.applied.value, interval);
            if name !in s.liveFrom && k < |incoming| then
              after == before.(liveFrom := before.liveFrom[name := Floor(incoming[k].block.timestamp, interval)],
                               liveBoundary := before.liveBoundary[name := if k == 0 then s.applied.value else incoming[k - 1].block])
            else after == before
  {
    hide ActivatedIn, Floor, FirstLater;
    var opening := Opening(s, plan, incoming);
    if name in opening {
      assert opening - (work - {name}) == (opening - work) + {name};
      ActivatedMore(s, plan, incoming, opening - work, name);
    } else {
      assert opening - (work - {name}) == opening - work;
    }
  }

  lemma RestoreSlotNames(s: State, plan: Plan)
    requires ValidPlan(plan)
    ensures forall slot :: slot in RestoreSlots(s, plan) ==> slot.0 in plan.projections
  {
  }

  lemma NoRows(rows: map<RowId, Row>)
    ensures PutRows(rows, []) == rows && ClosedSlots([]) == {}
  {
  }

  lemma CutsOrdered(stored: seq<Batch>, start: nat, end: nat, first: nat, last: nat)
    requires IsCut(stored, start, first) && IsCut(stored, end, last) && start <= end
    ensures first <= last
  {
    var at := if last < |stored| then stored[last].block.timestamp else end;
  }

  lemma RestoredOnly(s: State, plan: Plan, progress: Header, slot: Slot)
    requires ValidPlan(plan) && slot.0 in plan.projections
    ensures forall row :: Restored(s, plan, progress, slot, row) ==>
              (slot.0, Decimal(slot.1)) !in s.store.rows && progress.timestamp >= slot.1 + plan.projections[slot.0]
  {
    hide RestoreSlots, Ascending, IsCut, Restorable, Decimal, Flat;
  }

  lemma CutUnique(stored: seq<Batch>, time: nat, i: nat, j: nat)
    requires IsCut(stored, time, i) && IsCut(stored, time, j)
    ensures i == j
  {
    var at := if i < |stored| then stored[i].block.timestamp else time;
    var bt := if j < |stored| then stored[j].block.timestamp else time;
  }

  /** The cuts determine the restored row. */
  lemma RestoredBy(s: State, plan: Plan, progress: Header, slot: Slot, first: nat, last: nat)
    requires ValidPlan(plan) && slot.0 in plan.projections
    requires var stored := Ascending(s.store.batches);
             IsCut(stored, slot.1, first) && IsCut(stored, slot.1 + plan.projections[slot.0], last)
    ensures var stored := Ascending(s.store.batches);
            var end := slot.1 + plan.projections[slot.0];
            forall row :: Restored(s, plan, progress, slot, row) ==>
              && Restorable(stored, s.coverage, first, last) && first <= last
              && row == Row(slot.0, Decimal(slot.1), Flat(stored[first..last]), progress, Some(end), Closed, true)
  {
    hide RestoreSlots, Ascending, Restorable, Decimal, Flat, IsCut;
    var stored := Ascending(s.store.batches);
    var end := slot.1 + plan.projections[slot.0];
    forall row | Restored(s, plan, progress, slot, row)
      ensures Restorable(stored, s.coverage, first, last) && first <= last <= |stored|
      ensures row == Row(slot.0, Decimal(slot.1), Flat(stored[first..last]), progress, Some(end), Closed, true)
    {
      var i: nat, j: nat :| RestoredBetween(s, plan, progress, slot, i, j, row);
      CutUnique(stored, slot.1, i, first);
      CutUnique(stored, end, j, last);
    }
  }

  lemma Restores(s: State, plan: Plan, progress: Header, slot: Slot, first: nat, last: nat, row: Row)
    requires slot.0 in plan.projections && RestoredBetween(s, plan, progress, slot, first, last, row)
    ensures RestoredRow(s, plan, progress, slot, row)
  {
  }

  lemma AppendRow(stored: map<RowId, Row>, rows: seq<Row>, row: Row)
    requires row.period == Closed && row.complete
    ensures PutRows(stored, rows + [row]) == PutRows(stored, rows)[Id(row) := row]
    ensures ClosedSlots(rows + [row]) == ClosedSlots(rows) + {(row.projection, Parse(row.key))}
  {
    hide Parse;
    var all := rows + [row];
    assert all[..|all| - 1] == rows;
    forall slot ensures slot in ClosedSlots(all) <==> slot in ClosedSlots(rows) + {(row.projection, Parse(row.key))} {
      if slot in ClosedSlots(rows) {
        var i :| 0 <= i < |rows| && rows[i].period == Closed && rows[i].complete && slot == (rows[i].projection, Parse(rows[i].key));
        assert all[i] == rows[i];
      }
      assert all[|rows|] == row;
    }
  }

  lemma {:induction false} FirstLaterAt(incoming: seq<Batch>, initial: Header, interval: nat, k: nat)
    requires interval > 0 && k < |incoming|
    requires forall j :: 0 <= j < k ==> incoming[j].block.timestamp / interval <= initial.timestamp / interval
    requires incoming[k].block.timestamp / interval > initial.timestamp / interval
    ensures FirstLater(incoming, initial, interval) == k
  {
    if k > 0 {
      FirstLaterAt(incoming[1..], initial, interval, k - 1);
    }
  }

  lemma {:induction false} FirstLaterNone(incoming: seq<Batch>, initial: Header, interval: nat)
    requires interval > 0
    requires forall j :: 0 <= j < |incoming| ==> incoming[j].block.timestamp / interval <= initial.timestamp / interval
    ensures FirstLater(incoming, initial, interval) == |incoming|
  {
    if incoming != [] {
      FirstLaterNone(incoming[1..], initial, interval);
    }
  }

  lemma AddSlot(s: State, plan: Plan, done: set<Slot>, slot: Slot, batches: seq<Batch>, live: bool, scanned: seq<Range>,
                cache: map<Slot, map<nat, Batch>>, rows: seq<Row>, more: seq<Row>)
    requires batches != [] && (forall x :: x in done ==> x.0 in plan.projections) && slot.0 in plan.projections
    requires CacheFilled(s, plan, done, batches, cache) && RowsOf(s, plan, done, batches, live, scanned, rows)
    requires var v := VerdictOn(s, plan, slot, batches, live, scanned);
             more == if v.Publish? then [RowFor(s, plan, slot, batches, live, v)] else []
    ensures CacheFilled(s, plan, done + {slot}, batches, cache[slot := Combined(s, slot, plan.projections[slot.0], batches)])
    ensures RowsOf(s, plan, done + {slot}, batches, live, scanned, rows + more)
  {
    hide VerdictOn, RowFor, Combined;
    forall row | row in rows + more
      ensures exists x :: x in done + {slot} && Published(s, plan, x, batches, live, scanned, row)
    {
      if row in rows {
        var x :| x in done && Published(s, plan, x, batches, live, scanned, row);
        assert x in done + {slot};
      } else {
        assert row in more;
        assert Published(s, plan, slot, batches, live, scanned, row);
      }
    }
  }
}
