/** Rows in the store: exact between reorgs, and across one exactly when they end by the time of the ancestor. */
module ModelReorgs {
  import opened Blocks
  import opened Coverage
  import opened ModelTypes
  import opened ModelStore
  import opened Partitions
  import opened Branches
  import opened ModelCommit
  import opened ModelSafety
  import opened ModelRecovery
  import opened ModelRestart
  import opened ModelRuns

  // ------------------------------------------------------------------------------------------ between reorgs

  lemma {:induction false} DurableClosed(rows: seq<Row>)
    ensures forall row :: row in Durable(rows) ==> row in rows && row.period == Closed && row.complete
  {
    if rows != [] {
      DurableClosed(rows[..|rows| - 1]);
    }
  }

  lemma {:induction false} PutRowsExact(chain: seq<Batch>, plan: Plan, stored: map<RowId, Row>, rows: seq<Row>)
    requires RowsExact(chain, plan, stored) && forall row :: row in rows ==> RowExact(chain, plan, row)
    ensures RowsExact(chain, plan, PutRows(stored, rows))
  {
    if rows != [] {
      hide RowExact;
      PutRowsExact(chain, plan, stored, rows[..|rows| - 1]);
      assert Last(rows) in rows;
    }
  }

  /** The chain stays as it is; a restart may happen, a recovery may not. */
  predicate Steady(op: Op, chain: seq<Batch>, after: seq<Batch>) {
    after == chain && !op.Recovery? && !op.Revert?
  }

  lemma StepKeepsRows(plan: Plan, chain: seq<Batch>, s: State, op: Op, after: seq<Batch>, next: State, rows: seq<Row>)
    requires ValidPlan(plan) && RowsExact(chain, plan, s.store.rows) && Steady(op, chain, after)
    requires Step(plan, chain, s, op, after, next, rows) && ClosedExact(chain, plan, rows)
    ensures RowsExact(chain, plan, next.store.rows)
  {
    hide RowExact, GoodInput, PutRows, Durable, PutBatches, Merge, CacheFilled, RowsOf, ClosedSlots, Restored, Activated, Above,
      NextCoverage, Examined, Unexpired, RestartedState, Branch, ReadsOf;
    match op
    case Write(batches, live, scanned) =>
      DurableClosed(rows);
      PutRowsExact(chain, plan, s.store.rows, Durable(rows));
    case FailedWrite(_, _, _) =>
    case Activate(incoming) =>
      ActivatedStore(s, plan, incoming);
    case Retain(fromBlock, fromTime) =>
      UnexpiredExact(chain, plan, s.store.rows, fromTime);
    case Resolve(_) =>
    case Restart(resumed, head, hashes) =>
      RestartKeepsRows(chain, s, plan, resumed, head, hashes, next, rows);
  }

  lemma RestartKeepsRows(chain: seq<Batch>, s: State, plan: Plan, resumed: Header, head: Header, hashes: map<nat, Hash>, next: State, rows: seq<Row>)
    requires ValidPlan(plan) && RowsExact(chain, plan, s.store.rows) && ClosedExact(chain, plan, rows)
    requires RestartedState(s, plan, resumed, head, hashes, next, rows)
    ensures RowsExact(chain, plan, next.store.rows)
  {
    hide RowExact, PutRows, ClosedSlots, Restored, IsForkTime, Below, CompletedRows, Passes;
    var started := Started(s.store, resumed, None);
    var middle :| RestoredState(started, plan, resumed, middle, rows) && Validated(middle, head, hashes, next);
    RestoredClosed(started, plan, resumed, middle, rows);
    PutRowsExact(chain, plan, s.store.rows, rows);
  }

  lemma ActivatedStore(s: State, plan: Plan, incoming: seq<Batch>)
    requires ValidPlan(plan)
    ensures Activated(s, plan, incoming).store == s.store
  {
  }

  lemma UnexpiredExact(chain: seq<Batch>, plan: Plan, rows: map<RowId, Row>, fromTime: nat)
    requires RowsExact(chain, plan, rows)
    ensures RowsExact(chain, plan, Unexpired(rows, fromTime))
  {
    hide RowExact;
  }

  lemma RestoredClosed(s: State, plan: Plan, progress: Header, next: State, rows: seq<Row>)
    requires ValidPlan(plan) && RestoredState(s, plan, progress, next, rows)
    ensures forall row :: row in rows ==> row.period == Closed
  {
    hide Ascending, IsCut, Restorable, RestoreSlots, Flat, Decimal;
  }

  ghost predicate Kept(plan: Plan, run: seq<Moment>, ops: seq<Op>, i: nat)
    requires i < |ops| && |run| == |ops| + 1
  {
    && KeptByRetention(run[i].state, ops[i]) && Rejoining(run[i].state, plan, ops[i])
    && Steady(ops[i], run[i].chain, run[i + 1].chain)
  }

  /** Along a run without a reorg every closed row in the store is exact. */
  lemma {:induction false} StoredRowsExact(plan: Plan, run: seq<Moment>, ops: seq<Op>, published: seq<seq<Row>>, n: nat)
    requires ValidPlan(plan) && IsRun(plan, run, ops, published) && n <= |ops|
    requires Tracks(run[0].chain, run[0].state, plan) && RowsExact(run[0].chain, plan, run[0].state.store.rows)
    requires forall i :: 0 <= i < |ops| ==> Kept(plan, run, ops, i)
    ensures run[n].chain == run[0].chain && RowsExact(run[0].chain, plan, run[n].state.store.rows)
  {
    hide Tracks, Step, KeptByRetention, Rejoining, ClosedExact, RowsExact;
    if n > 0 {
      StoredRowsExact(plan, run, ops, published, n - 1);
      forall i | 0 <= i < |ops| ensures KeptByRetention(run[i].state, ops[i]) && Rejoining(run[i].state, plan, ops[i]) {
        assert Kept(plan, run, ops, i);
      }
      RunIsExact(plan, run, ops, published, n - 1);
      assert StepAt(plan, run, ops, published, n - 1) && Kept(plan, run, ops, n - 1);
      StepKeepsRows(plan, run[n - 1].chain, run[n - 1].state, ops[n - 1], run[n].chain, run[n].state, published[n - 1]);
    }
  }

  // ------------------------------------------------------------------------------------------ across a reorg

  /** Nothing at or above the fork lies before the fork time. */
  lemma ForkTimeHolds(chain: seq<Batch>, stored: map<nat, Batch>, from: nat, forkTime: nat, start: nat, end: nat)
    requires IsChain(chain) && StoredOnChain(chain, stored) && IsForkTime(stored, from, forkTime) && end <= forkTime
    ensures forall n :: n >= from ==> !Eventful(chain, n, start, end)
  {
  }

  /**
   A row that was exact and ends by the fork time is exact on the new branch if and only if no block of the new
   branch, from the fork on, has an event in the row's period.
   */
  lemma SurvivorExact(chain: seq<Batch>, after: seq<Batch>, stored: map<nat, Batch>, from: nat, forkTime: nat, start: nat, end: nat)
    requires IsChain(chain) && StoredOnChain(chain, stored) && IsForkTime(stored, from, forkTime) && end <= forkTime
    requires SameBelow(chain, after, from) && from <= |chain|
    ensures EventsIn(chain, start, end) == EventsIn(after, start, end)
            <==> forall n :: n >= from ==> !Eventful(after, n, start, end)
  {
    hide EventsIn, IsForkTime, StoredOnChain, IsChain, Eventful;
    ForkTimeHolds(chain, stored, from, forkTime, start, end);
    TailEvents(chain, from, start, end);
    SameLength(chain, after, from);
    TailEvents(after, from, start, end);
    assert chain[..from] == after[..from];
    var common, tail := EventsIn(chain[..from], start, end), EventsIn(after[from..], start, end);
    assert common + [] == common;
    if common == common + tail {
      assert |common + tail| == |common| + |tail|;
    }
  }

  lemma SameLength(chain: seq<Batch>, after: seq<Batch>, from: nat)
    requires SameBelow(chain, after, from) && from <= |chain|
    ensures from <= |after| && forall n :: 0 <= n < from ==> after[n] == chain[n]
  {
    if from > 0 {
      var block := chain[from - 1];
    }
  }

  /** The new branch is one that recovery can meet after a cut at `from`. */
  ghost predicate FromCut(chain: seq<Batch>, after: seq<Batch>, s: State, plan: Plan, from: nat) {
    Branch(chain, after) && SameBelow(chain, after, from) && OriginQuiet(after, s, plan)
  }

  /** The period ends by the time of the ancestor, the block right below the cut. */
  predicate EndsByAncestor(chain: seq<Batch>, from: nat, end: nat)
    requires from <= |chain|
  {
    from > 0 && end <= chain[from - 1].block.timestamp
  }

  /** Blocks from the cut on come after the period on every branch. */
  lemma EarlySame(chain: seq<Batch>, after: seq<Batch>, s: State, plan: Plan, from: nat, start: nat, end: nat)
    requires IsChain(chain) && from <= |chain| && FromCut(chain, after, s, plan, from) && EndsByAncestor(chain, from, end)
    ensures EventsIn(chain, start, end) == EventsIn(after, start, end)
  {
    hide EventsIn, HashLinked, OneBlockPerHash;
    SameLength(chain, after, from);
    assert after[from - 1] == chain[from - 1] && chain[..from] == after[..from];
    TailEvents(chain, from, start, end);
    TailEvents(after, from, start, end);
    assert EventsIn(chain[..from], start, end) + [] == EventsIn(chain[..from], start, end);
  }

  /** A branch from the cut with one event in the period, at or above the origin. */
  lemma LateIsRefuted(chain: seq<Batch>, s: State, plan: Plan, from: nat, forkTime: nat, start: nat, end: nat) returns (after: seq<Batch>)
    requires Branch(chain, chain) && StoredOnChain(chain, s.store.batches) && IsForkTime(s.store.batches, from, forkTime) && end <= forkTime
    requires from <= |chain| && start < end && OriginQuiet(chain, s, plan) && !EndsByAncestor(chain, from, end)
    ensures FromCut(chain, after, s, plan, from) && EventsIn(chain, start, end) != EventsIn(after, start, end)
  {
    hide EventsIn, IsForkTime, StoredOnChain, HashLinked, OneBlockPerHash, IsChain, HashesBelow;
    var unused := Bound(chain, 0);
    var time := if from > 0 && chain[from - 1].block.timestamp > start then chain[from - 1].block.timestamp else start;
    var origin := if s.origin.Some? then s.origin.value else 0;
    var length := 1 + if origin > from then origin else from;
    after := Onward(chain, unused, from, time, length, [0]);
    OnwardBranch(chain, unused, from, time, length, [0]);
    OnwardIsChain(chain, unused, from, time, length, [0]);
    forall n | plan.fromOrigin && s.origin.Some? && 0 <= n < |after| && n < s.origin.value ensures after[n].events == [] {
    }
    assert Eventful(after, length - 1, start, end);
    SurvivorExact(chain, after, s.store.batches, from, forkTime, start, end);
  }

  /**
   The events of a period that ends by the fork time are the same on every branch from the cut if and only if the period
   ends by the ancestor's time.
   */
  lemma SurvivorIffEarly(chain: seq<Batch>, s: State, plan: Plan, from: nat, forkTime: nat, start: nat, end: nat)
    requires Branch(chain, chain) && StoredOnChain(chain, s.store.batches) && IsForkTime(s.store.batches, from, forkTime) && end <= forkTime
    requires from <= |chain| && start < end && OriginQuiet(chain, s, plan)
    ensures (forall after :: FromCut(chain, after, s, plan, from) ==> EventsIn(chain, start, end) == EventsIn(after, start, end))
            <==> EndsByAncestor(chain, from, end)
  {
    hide *;
    if EndsByAncestor(chain, from, end) {
      BranchIsChain(chain);
      forall after | FromCut(chain, after, s, plan, from) ensures EventsIn(chain, start, end) == EventsIn(after, start, end) {
        EarlySame(chain, after, s, plan, from, start, end);
      }
    } else {
      var after := LateIsRefuted(chain, s, plan, from, forkTime, start, end);
    }
  }

  lemma BranchIsChain(chain: seq<Batch>)
    requires Branch(chain, chain)
    ensures IsChain(chain)
  {
  }

  /** Every row of a period that survives the cut ends by the ancestor's time. */
  ghost predicate AllEarly(chain: seq<Batch>, plan: Plan, rows: map<RowId, Row>, from: nat)
    requires from <= |chain|
  {
    forall id :: id in rows && Periodic(plan, rows[id]) ==> rows[id].endTime.Some? && EndsByAncestor(chain, from, rows[id].endTime.value)
  }

  /** A closed, complete row of a partitioned projection. */
  predicate Periodic(plan: Plan, row: Row) {
    row.period == Closed && row.complete && row.projection in plan.projections
  }

  /**
   The rows that survive a cut are exact on every branch from it if and only if each ends by the ancestor's time, which
   is known when the cut is made.
   */
  lemma SurvivorsIffEarly(chain: seq<Batch>, s: State, plan: Plan, from: nat, forkTime: nat)
    requires Agrees(chain, s, plan) && Branch(chain, chain) && RowsExact(chain, plan, s.store.rows)
    requires IsForkTime(s.store.batches, from, forkTime) && from <= |chain|
    ensures (forall after :: FromCut(chain, after, s, plan, from) ==> RowsExact(after, plan, Invalidated(s.store, from, forkTime).rows))
            <==> AllEarly(chain, plan, Invalidated(s.store, from, forkTime).rows, from)
  {
    hide EventsIn, IsForkTime, StoredOnChain, Parse, Below, FromCut, CacheSound, WellKept, CoveredStored, Branch, EndsByAncestor,
      BoundariesOnChain, MaybeOnChain, IsChain, RowExact, OriginQuiet;
    var rows := Invalidated(s.store, from, forkTime).rows;
    if AllEarly(chain, plan, rows, from) {
      forall after | FromCut(chain, after, s, plan, from) ensures RowsExact(after, plan, rows) {
        forall id | id in rows ensures RowExact(after, plan, rows[id]) {
          EarlyRowExact(chain, after, s, plan, from, rows[id]);
        }
      }
    } else {
      var id :| id in rows && Periodic(plan, rows[id]) && !(rows[id].endTime.Some? && EndsByAncestor(chain, from, rows[id].endTime.value));
      var after := LateRowRefuted(chain, s, plan, from, forkTime, rows[id]);
    }
  }

  lemma EarlyRowExact(chain: seq<Batch>, after: seq<Batch>, s: State, plan: Plan, from: nat, row: Row)
    requires IsChain(chain) && from <= |chain| && FromCut(chain, after, s, plan, from) && RowExact(chain, plan, row)
    requires Periodic(plan, row) ==> EndsByAncestor(chain, from, row.endTime.value)
    ensures RowExact(after, plan, row)
  {
    hide EventsIn, Parse, FromCut, IsChain;
    if Periodic(plan, row) {
      var start := Parse(row.key);
      EarlySame(chain, after, s, plan, from, start, start + plan.projections[row.projection]);
    }
  }

  lemma LateRowRefuted(chain: seq<Batch>, s: State, plan: Plan, from: nat, forkTime: nat, row: Row) returns (after: seq<Batch>)
    requires Branch(chain, chain) && StoredOnChain(chain, s.store.batches) && IsForkTime(s.store.batches, from, forkTime) && from <= |chain|
    requires ValidPlan(plan) && OriginQuiet(chain, s, plan) && RowExact(chain, plan, row) && EndedBy(row, forkTime)
    requires Periodic(plan, row) && !EndsByAncestor(chain, from, row.endTime.value)
    ensures FromCut(chain, after, s, plan, from) && !RowExact(after, plan, row)
  {
    hide EventsIn, IsForkTime, StoredOnChain, Parse, FromCut, Branch, OriginQuiet;
    var start := Parse(row.key);
    after := LateIsRefuted(chain, s, plan, from, forkTime, start, start + plan.projections[row.projection]);
  }

  /** The time of the highest block stored strictly below the cut; 0 if there is none. */
  ghost predicate IsStrictForkTime(batches: map<nat, Batch>, from: nat, time: nat) {
    if from == 0 then time == 0 else IsForkTime(batches, from - 1, time)
  }

  /** With the block at the cut left out of the fork time, every row that survives is exact on every branch from the cut. */
  lemma StrictForkTimeSuffices(chain: seq<Batch>, s: State, plan: Plan, from: nat, forkTime: nat, after: seq<Batch>)
    requires Agrees(chain, s, plan) && RowsExact(chain, plan, s.store.rows) && from <= |chain|
    requires IsStrictForkTime(s.store.batches, from, forkTime) && FromCut(chain, after, s, plan, from)
    ensures AllEarly(chain, plan, Invalidated(s.store, from, forkTime).rows, from)
    ensures RowsExact(after, plan, Invalidated(s.store, from, forkTime).rows)
  {
    hide EventsIn, Parse, Below, FromCut, CacheSound, WellKept, CoveredStored, BoundariesOnChain, MaybeOnChain, OriginQuiet, IsStrictForkTime,
      EndsByAncestor, IsChain, StoredOnChain;
    var rows := Invalidated(s.store, from, forkTime).rows;
    forall id | id in rows && Periodic(plan, rows[id]) ensures rows[id].endTime.Some? && EndsByAncestor(chain, from, rows[id].endTime.value) {
      assert RowExact(chain, plan, s.store.rows[id]);
      StrictIsEarly(chain, s, from, forkTime, rows[id].endTime.value);
    }
    forall id | id in rows ensures RowExact(after, plan, rows[id]) {
      assert RowExact(chain, plan, s.store.rows[id]);
      EarlyRowExact(chain, after, s, plan, from, rows[id]);
    }
  }

  /** And where the ancestor is stored, no row that ends by its time is lost. */
  lemma StrictForkTimeKeeps(chain: seq<Batch>, s: State, from: nat, forkTime: nat)
    requires IsChain(chain) && StoredOnChain(chain, s.store.batches) && from <= |chain| && IsStrictForkTime(s.store.batches, from, forkTime)
    requires from > 0 && from - 1 in s.store.batches
    ensures var rows := Invalidated(s.store, from, forkTime).rows;
            forall id :: id in rows <==>
              id in s.store.rows && s.store.rows[id].endTime.Some? && EndsByAncestor(chain, from, s.store.rows[id].endTime.value)
  {
    hide Below;
    assert forkTime == chain[from - 1].block.timestamp;
  }

  lemma StrictIsEarly(chain: seq<Batch>, s: State, from: nat, forkTime: nat, end: nat)
    requires IsChain(chain) && StoredOnChain(chain, s.store.batches) && from <= |chain| && IsStrictForkTime(s.store.batches, from, forkTime)
    requires 0 < end <= forkTime
    ensures EndsByAncestor(chain, from, end)
  {
  }

  /** Where the new branch starts no earlier than the fork time, every row that survives the reorg is exact on it. */
  lemma SurvivorsExact(chain: seq<Batch>, s: State, plan: Plan, from: nat, forkTime: nat, after: seq<Batch>)
    requires Agrees(chain, s, plan) && RowsExact(chain, plan, s.store.rows) && IsChain(after)
    requires SameBelow(chain, after, from) && from <= |chain| && IsForkTime(s.store.batches, from, forkTime)
    requires from < |after| ==> after[from].block.timestamp >= forkTime
    ensures RowsExact(after, plan, Invalidated(s.store, from, forkTime).rows)
  {
    hide EventsIn, IsForkTime, StoredOnChain, Parse, Below, SameBelow, CacheSound, WellKept, CoveredStored;
    var rows := Surviving(s.store.rows, forkTime);
    forall id | id in rows ensures RowExact(after, plan, rows[id]) {
      var row := s.store.rows[id];
      assert RowExact(chain, plan, row);
      if row.period == Closed && row.complete && row.projection in plan.projections {
        var start := Parse(row.key);
        var end := start + plan.projections[row.projection];
        SurvivorExact(chain, after, s.store.batches, from, forkTime, start, end);
      }
    }
  }

  const KEPT_BLOCK := Batch(Header(0, 10, 9, 0), [1])
  const DROPPED_BLOCK := Batch(Header(1, 11, 10, 70), [])
  const NEXT_BLOCK := Batch(Header(1, 12, 10, 30), [2])
  const SURVIVOR := Row("p", "0", [1], DROPPED_BLOCK.block, Some(60), Closed, true)
  const SURVIVOR_PLAN := Plan(map["p" := 60], true, false)

  /** Blocks 0 and 1 are stored, and the row of the first minute, which holds block 0's event. */
  function SurvivorStore(): Store {
    Store([Range(0, 1)], map[0 := KEPT_BLOCK, 1 := DROPPED_BLOCK], map[("p", "0") := SURVIVOR])
  }

  /**
   The fork time can be that of the discarded block. Here a row that is exact on the old branch survives the cut at
   height 1, though the new branch's block 1 has an event in the row's period.
   */
  lemma SurvivorMissesEvent()
    ensures var chain, after, store := [KEPT_BLOCK, DROPPED_BLOCK], [KEPT_BLOCK, NEXT_BLOCK], SurvivorStore();
            && IsChain(chain) && IsChain(after) && StoredOnChain(chain, store.batches) && SameBelow(chain, after, 1)
            && RowsExact(chain, SURVIVOR_PLAN, store.rows) && IsForkTime(store.batches, 1, 70)
            && ("p", "0") in Invalidated(store, 1, 70).rows && Invalidated(store, 1, 70).rows[("p", "0")] == SURVIVOR
            && !RowExact(after, SURVIVOR_PLAN, SURVIVOR)
  {
    hide EventsIn, IsForkTime, SameBelow, Invalidated, Parse;
    var chain, after, store := [KEPT_BLOCK, DROPPED_BLOCK], [KEPT_BLOCK, NEXT_BLOCK], SurvivorStore();
    ForkAtOne(chain, after, store.batches);
    SurvivorExact(chain, after, store.batches, 1, 70, 0, 60);
    assert Eventful(after, 1, 0, 60);
    assert EventsIn(after, 0, 60) != EventsIn(chain, 0, 60);
    ZeroParses();
    OneEvent();
    SurvivorStays();
  }

  lemma ZeroParses()
    ensures Parse("0") == 0
  {
    ParseDecimal(0);
    assert Decimal(0) == "0";
  }

  lemma SurvivorStays()
    ensures var rows := Invalidated(SurvivorStore(), 1, 70).rows; ("p", "0") in rows && rows[("p", "0")] == SURVIVOR
  {
    hide Below;
  }

  lemma OneEvent()
    ensures EventsIn([KEPT_BLOCK, DROPPED_BLOCK], 0, 60) == [1]
  {
    var chain, one := [KEPT_BLOCK, DROPPED_BLOCK], [KEPT_BLOCK];
    assert one[..0] == [] && Last(one) == KEPT_BLOCK;
    assert EventsIn(one, 0, 60) == [] + [1];
    assert chain[..1] == one && Last(chain) == DROPPED_BLOCK;
  }

  lemma ForkAtOne(chain: seq<Batch>, after: seq<Batch>, stored: map<nat, Batch>)
    requires |chain| == 2 && |after| == 2 && chain[0] == after[0] && chain[1].block.timestamp == 70
    requires stored.Keys == {0, 1} && stored[1] == chain[1]
    ensures IsForkTime(stored, 1, 70) && SameBelow(chain, after, 1)
  {
    assert 1 in stored && stored[1].block.timestamp == 70;
  }
}
