/**
 A restart of the model while the chain may have changed: the periods it restores, the check of the stored coverage that
 comes after, and exactly when each is right for the chain that is canonical now.
 */
module ModelRestart {
  import opened Blocks
  import opened Coverage
  import opened ModelTypes
  import opened ModelStore
  import opened Partitions
  import opened Branches
  import opened ModelCommit
  import opened ModelSafety
  import opened ModelRestore
  import opened ModelRecovery

  function CompletedRows(rows: map<RowId, Row>): set<Slot> {
    set id | id in rows && rows[id].period == Closed && rows[id].complete :: (id.0, Parse(id.1))
  }

  /** A model as a restart finds it: what the store holds, and nothing remembered. */
  function Started(store: Store, applied: Header, origin: Option<nat>): State {
    State(store, Some(applied), store.coverage, 0, map[], CompletedRows(store.rows), map[], map[], origin)
  }

  ghost function StoredHeaders(s: State): set<Header> {
    set n | n in s.store.batches :: s.store.batches[n].block
  }

  lemma StoredAreKnown(chain: seq<Batch>, s: State, plan: Plan)
    requires WrittenFrom(chain, s, plan)
    ensures AllOnChain(chain, StoredHeaders(s)) && StoredKnownTo(s, StoredHeaders(s))
  {
    hide Covers, Normal, CoveredStored;
  }

  // ------------------------------------------------------------------------------------------ the rows restored

  /** The hash that a read of height n gives; None when the chain does not reach it. */
  function HashAt(chain: seq<Batch>, n: nat): Option<Hash> {
    if n < |chain| then Some(chain[n].block.hash) else None
  }

  /** The chain the store was written from and one that can be canonical at the restart, where height n has this hash. */
  ghost predicate Restartable(chain: seq<Batch>, after: seq<Batch>, s: State, plan: Plan, progress: Header, n: nat, read: Option<Hash>) {
    WrittenFrom(chain, s, plan) && Branch(chain, after) && OnChain(after, progress) && OriginQuiet(after, s, plan) && HashAt(after, n) == read
  }

  /** No stored block of the period at or above height n has an event. */
  ghost predicate NothingFrom(s: State, start: nat, end: nat, n: nat) {
    forall m :: m in s.store.batches && m >= n && InPeriod(s.store.batches[m].block, start, end) ==> s.store.batches[m].events == []
  }

  /**
   What a restart could check of a period before it restores it: the stored block next to the period still has the
   canonical hash of its height. Failing that, the progress block, which is canonical and past the period, can settle
   it: it, or its parent with nothing stored from there on, is known; or nothing can have happened below it.
   */
  ghost predicate Settled(s: State, plan: Plan, progress: Header, slot: Slot, neighbour: Header, read: Option<Hash>, row: Row)
    requires slot.0 in plan.projections
  {
    || read == Some(neighbour.hash)
    || KnownAt(StoredHeaders(s), progress.number, progress.hash)
    || if progress.number > 0 && KnownAt(StoredHeaders(s), progress.number - 1, progress.parentHash)
       then NothingFrom(s, slot.1, SlotEnd(plan, slot), progress.number)
       else row.events == [] && (progress.number == 0 || BeforeTheOrigin(s, plan, progress.number - 1))
  }

  /** Blocks from one that is past the period on do not count. */
  lemma EventsBelow(chain: seq<Batch>, n: nat, start: nat, end: nat)
    requires IsChain(chain) && n < |chain| && chain[n].block.timestamp >= end
    ensures EventsIn(chain, start, end) == EventsIn(chain[..n], start, end)
  {
    hide EventsIn;
    TailEvents(chain, n, start, end);
    assert EventsIn(chain[n..], start, end) == [];
  }

  lemma SamePrefix(chain: seq<Batch>, after: seq<Batch>, n: nat)
    requires SameBelow(chain, after, n) && n <= |chain|
    ensures n <= |after| && chain[..n] == after[..n]
  {
    if n > 0 {
      SharedAt(chain, after, n - 1);
    }
  }

  /** Two chains that share a block past the period have the same events in it. */
  lemma SharedPast(chain: seq<Batch>, after: seq<Batch>, n: nat, start: nat, end: nat)
    requires IsChain(chain) && IsChain(after) && SameBelow(chain, after, n + 1) && n < |chain| && chain[n].block.timestamp >= end
    ensures EventsIn(chain, start, end) == EventsIn(after, start, end)
  {
    hide EventsIn;
    SamePrefix(chain, after, n + 1);
    SamePrefix(chain, after, n);
    assert after[n] == chain[n];
    EventsBelow(chain, n, start, end);
    EventsBelow(after, n, start, end);
  }

  /** A row that is exact on the chain its store was written from. */
  lemma BetweenExact(chain: seq<Batch>, s: State, plan: Plan, progress: Header, slot: Slot, first: nat, last: nat, row: Row)
    requires WrittenFrom(chain, s, plan) && slot.0 in plan.projections && RestoredBetween(s, plan, progress, slot, first, last, row)
    ensures row.events == EventsIn(chain, slot.1, SlotEnd(plan, slot))
    ensures forall n :: Eventful(chain, n, slot.1, SlotEnd(plan, slot)) ==> n in s.store.batches
    ensures var stored := Ascending(s.store.batches);
            last < |stored| && OnChain(chain, stored[last].block) && stored[last].block.timestamp >= SlotEnd(plan, slot)
  {
    hide Ascending, IsCut, Restorable, Flat, EventsIn, IsChain, WellKept, CoveredStored, StoredOnChain, Decimal;
    RestorableLast(Ascending(s.store.batches), s.coverage, first, last);
    RestorableIsExact(chain, s, slot.1, SlotEnd(plan, slot), first, last);
    RestorableIsStored(chain, s, slot.1, SlotEnd(plan, slot), first, last);
    NeighboursOnChain(chain, s.store.batches, slot.1, SlotEnd(plan, slot), first, last);
  }

  /** Only the parent of the progress block is known: the events above it make the difference. */
  lemma ParentSettles(chain: seq<Batch>, after: seq<Batch>, s: State, progress: Header, start: nat, end: nat)
    requires IsChain(chain) && IsChain(after) && StoredOnChain(chain, s.store.batches) && OnChain(after, progress) && progress.timestamp >= end
    requires SameBelow(chain, after, progress.number) && progress.number <= |chain|
    requires forall n :: Eventful(chain, n, start, end) ==> n in s.store.batches
    ensures EventsIn(chain, start, end) == EventsIn(after, start, end) <==> NothingFrom(s, start, end, progress.number)
  {
    hide EventsIn, IsChain;
    var p := progress.number;
    SamePrefix(chain, after, p);
    EventsBelow(after, p, start, end);
    TailEvents(chain, p, start, end);
    var common, tail := EventsIn(chain[..p], start, end), EventsIn(chain[p..], start, end);
    assert common + [] == common;
    if common == common + tail {
      assert |common + tail| == |common| + |tail|;
    }
    if NothingFrom(s, start, end, p) {
      forall n | n >= p ensures !Eventful(chain, n, start, end) {
      }
    }
    if forall n :: n >= p ==> !Eventful(chain, n, start, end) {
      forall m | m in s.store.batches && m >= p && InPeriod(s.store.batches[m].block, start, end) ensures s.store.batches[m].events == [] {
        assert !Eventful(chain, m, start, end);
      }
    }
  }

  /** Nothing can have happened below the progress block. */
  lemma NoRoom(after: seq<Batch>, s: State, plan: Plan, progress: Header, start: nat, end: nat)
    requires IsChain(after) && OnChain(after, progress) && progress.timestamp >= end && OriginQuiet(after, s, plan)
    requires progress.number == 0 || BeforeTheOrigin(s, plan, progress.number - 1)
    ensures EventsIn(after, start, end) == []
  {
    hide EventsIn;
    NoEvents(after, start, end);
  }

  lemma SettledIsExact(chain: seq<Batch>, after: seq<Batch>, s: State, plan: Plan, progress: Header, slot: Slot, first: nat, last: nat,
                       read: Option<Hash>, row: Row)
    requires slot.0 in plan.projections && RestoredBetween(s, plan, progress, slot, first, last, row) && last < |Ascending(s.store.batches)|
    requires Restartable(chain, after, s, plan, progress, Ascending(s.store.batches)[last].block.number, read)
    requires Settled(s, plan, progress, slot, Ascending(s.store.batches)[last].block, read, row)
    ensures row.events == EventsIn(after, slot.1, SlotEnd(plan, slot))
  {
    hide Ascending, IsCut, Restorable, Flat, EventsIn, WellKept, CoveredStored, KnownAt, StoredHeaders, IsChain, HashLinked, OneBlockPerHash,
      SameBelow, Decimal, NothingFrom, StoredOnChain;
    var start, end := slot.1, SlotEnd(plan, slot);
    var neighbour := Ascending(s.store.batches)[last].block;
    BetweenExact(chain, s, plan, progress, slot, first, last, row);
    StoredAreKnown(chain, s, plan);
    RejoinsAt(chain, after, StoredHeaders(s), progress);
    if read == Some(neighbour.hash) {
      SharedBelow(chain, after, neighbour.number);
      SharedPast(chain, after, neighbour.number, start, end);
    } else if KnownAt(StoredHeaders(s), progress.number, progress.hash) {
      SharedAt(chain, after, progress.number);
      SharedPast(chain, after, progress.number, start, end);
    } else if progress.number > 0 && KnownAt(StoredHeaders(s), progress.number - 1, progress.parentHash) {
      ParentSettles(chain, after, s, progress, start, end);
    } else {
      NoRoom(after, s, plan, progress, start, end);
    }
  }

  lemma SharedAt(chain: seq<Batch>, after: seq<Batch>, n: nat)
    requires SameBelow(chain, after, n + 1) && n < |chain|
    ensures n < |after| && after[n] == chain[n]
  {
    var block := chain[n];
  }

  /** Nothing settles it: a branch through the progress block and the block read, with other events in the period. */
  lemma UnsettledDiffers(chain: seq<Batch>, after: seq<Batch>, s: State, plan: Plan, progress: Header, slot: Slot, neighbour: Header,
                         read: Option<Hash>, events: seq<Event>)
    requires slot.0 in plan.projections && Restartable(chain, after, s, plan, progress, neighbour.number, read)
    requires progress.timestamp >= SlotEnd(plan, slot) && OnChain(chain, neighbour) && read != Some(neighbour.hash)
    requires !KnownAt(StoredHeaders(s), progress.number, progress.hash)
    requires progress.number > 0 && !KnownAt(StoredHeaders(s), progress.number - 1, progress.parentHash)
    requires !BeforeTheOrigin(s, plan, progress.number - 1)
    ensures exists other, fork :: Restartable(other, fork, s, plan, progress, neighbour.number, read)
                                  && EventsIn(fork, slot.1, SlotEnd(plan, slot)) != events
  {
    hide EventsIn, WellKept, CoveredStored, KnownAt, StoredHeaders, IsChain, HashLinked, OneBlockPerHash, StoredOnChain, Scrubbed, Made, MadeHash,
      Like, Covers;
    var p, n, known := progress.number, neighbour.number, StoredHeaders(s);
    var more := if read.Some? then Some((n, read.value)) else None;
    var length := if read.Some? && n > p then n + 1 else p + 1;
    var unused := Bound(after, Bound(chain, 0));
    BoundBoth(chain, after);
    StoredAreKnown(chain, s, plan);
    UnknownNeighbour(chain, after, s, plan, neighbour, read);
    var other := Scrubbed(chain, known, unused);
    ScrubbedKeeps(chain, known, unused);
    WrittenLike(chain, other, s, plan, known);
    var fork := Made(progress, more, unused, length, slot.1, p - 1, events + [0]);
    MadeBranch(chain, after, known, progress, more, unused, length, slot.1, p - 1, events + [0]);
    MadeIsChain(progress, more, unused, length, slot.1, p - 1, events + [0]);
    MadeRead(after, progress, more, unused, length, slot.1, p - 1, events + [0], n, read);
    MadeEvents(fork, progress, more, unused, slot.1, SlotEnd(plan, slot), events + [0]);
    assert OriginQuiet(fork, s, plan);
    assert Restartable(other, fork, s, plan, progress, n, read);
    assert |EventsIn(fork, slot.1, SlotEnd(plan, slot))| == |events| + 1;
  }

  /** A neighbour whose hash has changed: the hash read is not known to be on the old chain. */
  lemma UnknownNeighbour(chain: seq<Batch>, after: seq<Batch>, s: State, plan: Plan, neighbour: Header, read: Option<Hash>)
    requires WrittenFrom(chain, s, plan) && Branch(chain, after) && OnChain(chain, neighbour) && read != Some(neighbour.hash)
    ensures read.Some? ==> !KnownAt(StoredHeaders(s), neighbour.number, read.value)
  {
    hide KnownAt, StoredHeaders, WellKept, CoveredStored, StoredOnChain, OneBlockPerHash;
    StoredAreKnown(chain, s, plan);
    if read.Some? && KnownAt(StoredHeaders(s), neighbour.number, read.value) {
      KnownIsThere(chain, StoredHeaders(s), neighbour.number, read.value);
    }
  }

  lemma MadeRead(after: seq<Batch>, head: Header, more: Option<(nat, Hash)>, unused: int, length: nat, time: nat, e: nat, events: seq<Event>,
                 n: nat, read: Option<Hash>)
    requires IsChain(after) && HashLinked(after) && OnChain(after, head) && HashAt(after, n) == read
    requires more == (if read.Some? then Some((n, read.value)) else None) && length == if read.Some? && n > head.number then n + 1 else head.number + 1
    ensures HashAt(Made(head, more, unused, length, time, e, events), n) == read
  {
    TakenParent(after, head);
    var made := Made(head, more, unused, length, time, e, events);
    if read.Some? {
      assert made[n] == MadeAt(head, more, unused, time, e, events, n);
    }
  }

  /** The made branch has events in one block of the period only. */
  lemma MadeEvents(fork: seq<Batch>, head: Header, more: Option<(nat, Hash)>, unused: int, start: nat, end: nat, events: seq<Event>)
    requires head.number > 0 && |fork| > head.number && start < end <= head.timestamp
    requires forall k :: 0 <= k < |fork| ==> fork[k] == MadeAt(head, more, unused, start, head.number - 1, events, k)
    ensures EventsIn(fork, start, end) == events
  {
    hide EventsIn, MadeHash;
    var e := head.number - 1;
    TailEvents(fork, e + 1, start, end);
    TailEvents(fork, e, start, end);
    EventsNext(fork, start, end, e);
    NoEvents(fork[..e], start, end);
    assert EventsIn(fork[..e], start, end) == [];
    assert EventsIn(fork[e + 1..], start, end) == [];
  }

  /**
   A restored row is exact on every chain that can be canonical at the restart if and only if the period is settled by
   what the restart could check.
   */
  lemma RestoredIffSettled(chain: seq<Batch>, after: seq<Batch>, s: State, plan: Plan, progress: Header, slot: Slot, first: nat, last: nat,
                           read: Option<Hash>, row: Row)
    requires slot.0 in plan.projections && RestoredBetween(s, plan, progress, slot, first, last, row) && last < |Ascending(s.store.batches)|
    requires Restartable(chain, after, s, plan, progress, Ascending(s.store.batches)[last].block.number, read)
    ensures (forall other, fork :: Restartable(other, fork, s, plan, progress, Ascending(s.store.batches)[last].block.number, read) ==>
               row.events == EventsIn(fork, slot.1, SlotEnd(plan, slot)))
            <==> Settled(s, plan, progress, slot, Ascending(s.store.batches)[last].block, read, row)
  {
    hide *;
    var neighbour := Ascending(s.store.batches)[last].block;
    if Settled(s, plan, progress, slot, neighbour, read, row) {
      forall other, fork | Restartable(other, fork, s, plan, progress, neighbour.number, read)
        ensures row.events == EventsIn(fork, slot.1, SlotEnd(plan, slot))
      {
        SettledIsExact(other, fork, s, plan, progress, slot, first, last, read, row);
      }
    } else {
      NotSettled(chain, after, s, plan, progress, slot, first, last, read, row);
    }
  }

  lemma NotSettled(chain: seq<Batch>, after: seq<Batch>, s: State, plan: Plan, progress: Header, slot: Slot, first: nat, last: nat,
                   read: Option<Hash>, row: Row)
    requires slot.0 in plan.projections && RestoredBetween(s, plan, progress, slot, first, last, row) && last < |Ascending(s.store.batches)|
    requires Restartable(chain, after, s, plan, progress, Ascending(s.store.batches)[last].block.number, read)
    requires !Settled(s, plan, progress, slot, Ascending(s.store.batches)[last].block, read, row)
    ensures exists other, fork :: Restartable(other, fork, s, plan, progress, Ascending(s.store.batches)[last].block.number, read)
                                  && row.events != EventsIn(fork, slot.1, SlotEnd(plan, slot))
  {
    hide Ascending, IsCut, Restorable, Flat, EventsIn, WellKept, CoveredStored, KnownAt, StoredHeaders, IsChain, HashLinked, OneBlockPerHash,
      SameBelow, Decimal, NothingFrom, StoredOnChain;
    var start, end := slot.1, SlotEnd(plan, slot);
    var neighbour := Ascending(s.store.batches)[last].block;
    BetweenExact(chain, s, plan, progress, slot, first, last, row);
    StoredAreKnown(chain, s, plan);
    RejoinsAt(chain, after, StoredHeaders(s), progress);
    if progress.number > 0 && KnownAt(StoredHeaders(s), progress.number - 1, progress.parentHash) {
      ParentSettles(chain, after, s, progress, start, end);
    } else if progress.number == 0 || BeforeTheOrigin(s, plan, progress.number - 1) {
      NoRoom(after, s, plan, progress, start, end);
    } else {
      UnsettledDiffers(chain, after, s, plan, progress, slot, neighbour, read, row.events);
    }
  }

  // ------------------------------------------------------------------------------------------ a row restored in error

  function StaleState(): State {
    Started(Store([Range(0, 2)], map[0 := StaleBlock(0), 1 := StaleBlock(1), 2 := StaleBlock(2)], map[]), NewBlock(2).block, None)
  }

  /** Three blocks; the one at height 1 has the only event of the first minute, another one on the new branch. */
  function StaleBlock(i: nat): Batch { Batch(Header(i, 10 + i, 9 + i, 35 * i), if i == 1 then [1] else []) }

  function NewBlock(i: nat): Batch {
    if i == 0 then StaleBlock(0) else Batch(Header(i, 20 + i, if i == 1 then 10 else 19 + i, 35 * i), if i == 1 then [2] else [])
  }

  const STALE_PLAN := Plan(map["p" := 60], true, false)

  function StaleChain(): seq<Batch> { seq(3, i requires 0 <= i < 3 => StaleBlock(i)) }

  function NewChain(): seq<Batch> { seq(3, i requires 0 <= i < 3 => NewBlock(i)) }

  lemma StaleFacts()
    ensures forall i: nat :: StaleBlock(i).block.number == i && StaleBlock(i).block.timestamp == 35 * i && StaleBlock(i).block.hash == 10 + i
    ensures forall i: nat :: NewBlock(i).block.number == i && NewBlock(i).block.timestamp == 35 * i
    ensures NewBlock(0) == StaleBlock(0) && forall i: nat :: i > 0 ==> NewBlock(i).block.hash == 20 + i
    ensures forall i: nat :: i > 0 ==> StaleBlock(i).block.parentHash == StaleBlock(i - 1).block.hash
    ensures forall i: nat :: i > 0 ==> NewBlock(i).block.parentHash == NewBlock(i - 1).block.hash
  {
  }

  lemma StaleBranches()
    ensures Branch(StaleChain(), NewChain())
  {
    StaleFacts();
    hide StaleBlock, NewBlock;
    var a, b := StaleChain(), NewChain();
    assert JoinedAt(a, 0) && JoinedAt(a, 1) && JoinedAt(b, 0) && JoinedAt(b, 1);
  }

  lemma StaleWritten()
    ensures WrittenFrom(StaleChain(), StaleState(), STALE_PLAN)
  {
    hide Covers;
    forall n ensures Covers([Range(0, 2)], n) <==> 0 <= n <= 2 { CoversOne(Range(0, 2), n); }
    StaleFacts();
    hide StaleBlock;
  }

  lemma StaleRestartable()
    ensures Restartable(StaleChain(), NewChain(), StaleState(), STALE_PLAN, NewBlock(2).block, 2, Some(22))
  {
    hide Branch, WrittenFrom;
    StaleBranches();
    StaleWritten();
  }

  lemma StaleStored()
    ensures Ascending(StaleState().store.batches) == StaleChain()
  {
    var m: map<nat, Batch> := StaleState().store.batches;
    AscendingMax(m, 2);
    var two: map<nat, Batch> := m - {2};
    assert two == map[0 := StaleBlock(0), 1 := StaleBlock(1)];
    AscendingMax(two, 1);
    var one: map<nat, Batch> := two - {1};
    assert one == map[0 := StaleBlock(0)];
    AscendingMax(one, 0);
    assert one - {0} == map[];
    assert StaleChain() == [StaleBlock(0), StaleBlock(1), StaleBlock(2)];
  }

  lemma StaleSlot()
    ensures ("p", 0) in RestoreSlots(StaleState(), STALE_PLAN)
  {
    hide Ascending, CoveredGaps, StaleState;
    StaleStored();
    var s := StaleState();
    assert Floor(StaleBlock(0).block.timestamp, 60) == 0;
    assert Ascending(s.store.batches)[0] == StaleBlock(0);
    assert 0 in Own(Ascending(s.store.batches), 60);
    assert STALE_PLAN.projections["p"] == 60;
  }

  lemma StaleFlat()
    ensures Flat(StaleChain()[0..2]) == [1]
    ensures EventsIn(NewChain(), 0, 60) == [2]
  {
    var two := StaleChain()[0..2];
    assert two == [StaleBlock(0), StaleBlock(1)];
    assert two[..1] == [StaleBlock(0)] && [StaleBlock(0)][..0] == [];
    var all := NewChain();
    assert all == [NewBlock(0), NewBlock(1), NewBlock(2)];
    assert all[..2] == [NewBlock(0), NewBlock(1)];
    assert [NewBlock(0), NewBlock(1)][..1] == [NewBlock(0)];
    assert [NewBlock(0)][..0] == [];
  }

  /**
   The chain has changed from height 1 on while the model was down, and the restart publishes the old branch's row of
   the first period as closed and complete.
   */
  lemma StaleRowRestored()
    ensures Restartable(StaleChain(), NewChain(), StaleState(), STALE_PLAN, NewBlock(2).block, 2, Some(22))
    ensures var row := Row("p", "0", [1], NewBlock(2).block, Some(60), Closed, true);
            && Restored(StaleState(), STALE_PLAN, NewBlock(2).block, ("p", 0), row) && row.events != EventsIn(NewChain(), 0, 60)
  {
    hide Ascending, RestoreSlots, Flat, EventsIn, StaleState, Restartable;
    StaleRestartable();
    StaleStored();
    StaleSlot();
    StaleFlat();
    StaleRestores();
  }

  lemma StaleRestores()
    requires Ascending(StaleState().store.batches) == StaleChain() && Flat(StaleChain()[0..2]) == [1]
    ensures RestoredRow(StaleState(), STALE_PLAN, NewBlock(2).block, ("p", 0), Row("p", "0", [1], NewBlock(2).block, Some(60), Closed, true))
    ensures Decimal(0) == "0" && ("p", "0") !in StaleState().store.rows
  {
    hide Ascending, Flat;
    var s := StaleState();
    var stored := StaleChain();
    assert IsCut(stored, 0, 0) && IsCut(stored, 60, 2);
    assert Spans(s.coverage, 0, 2) by { assert s.coverage[0] == Range(0, 2); }
    assert Restorable(stored, s.coverage, 0, 2);
    assert Decimal(0) == "0";
    Restores(s, STALE_PLAN, NewBlock(2).block, ("p", 0), 0, 2, Row("p", "0", [1], NewBlock(2).block, Some(60), Closed, true));
  }

  // ------------------------------------------------------------------------------------------ the check of the coverage

  /** The end of the range is not stored, or it still has the canonical hash. */
  predicate Passes(s: State, hashes: map<nat, Hash>, i: nat)
    requires i < |s.coverage|
  {
    var end := s.coverage[i].through;
    end in s.store.batches ==> end in hashes && hashes[end] == s.store.batches[end].block.hash
  }

  /** The first range from i on that does not pass; the number of ranges if all do. */
  function FirstFailing(s: State, hashes: map<nat, Hash>, i: nat): (k: nat)
    requires i <= |s.coverage|
    ensures i <= k <= |s.coverage| && (forall j :: i <= j < k ==> Passes(s, hashes, j))
    ensures k < |s.coverage| ==> !Passes(s, hashes, k)
    decreases |s.coverage| - i
  {
    if i == |s.coverage| || !Passes(s, hashes, i) then i else FirstFailing(s, hashes, i + 1)
  }

  /** Everything from a range on is dropped, and the model is seeded anew. */
  function Reseeded(s: State, from: nat, forkTime: nat, head: Header): State {
    var store := Invalidated(s.store, from, forkTime);
    s.(store := store, coverage := store.coverage, revision := s.revision + 1, cache := map[], completed := CompletedRows(store.rows),
       applied := Some(head))
  }

  /** What the check leaves: everything, or what lies below the first range whose end is not canonical any more. */
  ghost predicate Validated(s: State, head: Header, hashes: map<nat, Hash>, next: State) {
    var i := FirstFailing(s, hashes, 0);
    if i == |s.coverage| then next == s
    else
      && s.coverage[i].through in hashes && s.coverage[i].from >= 0
      && exists forkTime: nat :: IsForkTime(s.store.batches, s.coverage[i].from, forkTime) && next == Reseeded(s, s.coverage[i].from, forkTime, head)
  }

  /** False when the hash of a range's end cannot be read: the restart fails there. */
  method Validate(model: Model, head: Header, hashes: map<nat, Hash>) returns (ok: bool)
    requires AllValid(model.state.coverage)
    modifies model
    ensures ok ==> Validated(old(model.state), head, hashes, model.state)
    ensures !ok ==> model.state == old(model.state)
    ensures !ok <==> var i := FirstFailing(old(model.state), hashes, 0);
                     i < |old(model.state).coverage| && old(model.state).coverage[i].through !in hashes
  {
    hide IsForkTime, Below, Surviving, CompletedRows;
    var s := model.state;
    for i := 0 to |s.coverage|
      invariant model.state == s && FirstFailing(s, hashes, 0) == FirstFailing(s, hashes, i)
    {
      var range := s.coverage[i];
      assert Coverage.Valid(range);
      if range.through !in s.store.batches { continue; }
      if range.through !in hashes { return false; }
      if hashes[range.through] != s.store.batches[range.through].block.hash {
        model.state := model.state.(revision := model.state.revision + 1);
        var time := ForkTimeOf(s.store.batches, range.from);
        model.state := model.state.(store := Invalidated(s.store, range.from, time));
        model.state := model.state.(coverage := model.state.store.coverage);
        model.state := model.state.(cache := map[], completed := {});
        model.state := model.state.(applied := Some(head));
        model.state := model.state.(completed := CompletedRows(model.state.store.rows));
        return true;
      }
    }
    ok := true;
  }

  /** The rows and the state that `RestorePartitions` leaves. */
  ghost predicate RestoredState(s: State, plan: Plan, progress: Header, next: State, rows: seq<Row>)
    requires ValidPlan(plan)
  {
    && next == s.(store := s.store.(rows := PutRows(s.store.rows, rows)), completed := s.completed + ClosedSlots(rows))
    && (forall row :: row in rows ==> exists slot :: Restored(s, plan, progress, slot, row))
  }

  /** A restart: what the store holds, the periods restored from it, then the check of the coverage. */
  ghost predicate RestartedState(s: State, plan: Plan, resumed: Header, head: Header, hashes: map<nat, Hash>, next: State, rows: seq<Row>)
    requires ValidPlan(plan)
  {
    exists middle :: RestoredState(Started(s.store, resumed, None), plan, resumed, middle, rows) && Validated(middle, head, hashes, next)
  }

  /**
   A restart over what the store holds: the caches start empty, periods are restored, then the coverage is checked. The
   restored rows stay when the check fails for want of a hash.
   */
  method Restart(store: Store, plan: Plan, resumed: Header, head: Header, hashes: map<nat, Hash>, ghost chain: seq<Batch>)
      returns (model: Model, rows: seq<Row>, ok: bool)
    requires WrittenFrom(chain, Started(store, resumed, None), plan)
    ensures fresh(model) && model.plan == plan
    ensures ok ==> RestartedState(Started(store, resumed, None), plan, resumed, head, hashes, model.state, rows)
    ensures !ok ==> RestoredState(Started(store, resumed, None), plan, resumed, model.state, rows)
  {
    hide RestorePeriods, CompletedRows, Ascending, Restored, ClosedSlots, PutRows, Validated, FirstFailing;
    var s := Started(store, resumed, None);
    StoredAreOrdered(chain, s, plan);
    model := new Model(plan, s);
    rows := model.RestorePartitions(resumed);
    ghost var middle := model.state;
    assert RestoredState(s, plan, resumed, middle, rows);
    ok := Validate(model, head, hashes);
  }

  lemma StoredAreOrdered(chain: seq<Batch>, s: State, plan: Plan)
    requires WrittenFrom(chain, s, plan)
    ensures ByTime(Ascending(s.store.batches)) && AllValid(s.coverage)
  {
    hide Ascending, ByTime, Covers, IsChain, CoveredStored, StoredOnChain;
    OrderOnChain(chain, s.store.batches);
    StoredByTime(s.store.batches);
  }

  /** The last block of every range of the coverage is stored. */
  ghost predicate Ended(s: State) {
    forall n :: Covers(s.coverage, n) && !Covers(s.coverage, n + 1) ==> n in s.store.batches
  }

  /** The chain the store was written from, the one at the restart, and what the check reads of it. */
  ghost predicate Restarts(chain: seq<Batch>, after: seq<Batch>, s: State, plan: Plan, head: Header, hashes: map<nat, Hash>) {
    && WrittenFrom(chain, s, plan) && Branch(chain, after) && OriginQuiet(after, s, plan) && Bare(after, s)
    && OnChain(after, head) && ReadsOf(after, hashes)
  }

  lemma NormalEnd(coverage: seq<Range>, i: nat)
    requires Normal(coverage) && i < |coverage|
    ensures Coverage.Valid(coverage[i]) && Covers(coverage, coverage[i].through) && !Covers(coverage, coverage[i].through + 1)
  {
    assert Coverage.Valid(coverage[i]);
    var n := coverage[i].through + 1;
    forall j | 0 <= j < |coverage| ensures !(coverage[j].from <= n <= coverage[j].through) {
      assert Coverage.Valid(coverage[j]);
    }
  }

  lemma RangeEnd(s: State, i: nat)
    requires Normal(s.coverage) && i < |s.coverage| && Ended(s)
    ensures s.coverage[i].through >= 0 && s.coverage[i].through in s.store.batches
  {
    hide Covers, Normal;
    NormalEnd(s.coverage, i);
  }

  /** A stored end with its canonical hash: everything up to it is shared. */
  lemma PassedIsShared(chain: seq<Batch>, after: seq<Batch>, s: State, plan: Plan, head: Header, hashes: map<nat, Hash>, i: nat)
    requires Restarts(chain, after, s, plan, head, hashes) && i < |s.coverage| && Passes(s, hashes, i)
    requires s.coverage[i].through >= 0 && s.coverage[i].through in s.store.batches
    ensures SameBelow(chain, after, s.coverage[i].through + 1) && s.coverage[i].through < |chain|
  {
    hide IsChain, HashLinked, OneBlockPerHash, WellKept, CoveredStored, Bare, SameBelow;
    SharedBelow(chain, after, s.coverage[i].through);
  }

  /** What the ranges below the i-th cover is the new chain's. */
  lemma PassedKeeps(chain: seq<Batch>, after: seq<Batch>, s: State, plan: Plan, head: Header, hashes: map<nat, Hash>, i: nat, from: nat)
    requires Restarts(chain, after, s, plan, head, hashes) && Ended(s) && i <= |s.coverage|
    requires forall j :: 0 <= j < i ==> Passes(s, hashes, j)
    requires i < |s.coverage| ==> from <= s.coverage[i].from
    ensures KeptOn(after, s, from)
  {
    hide IsChain, HashLinked, OneBlockPerHash, Bare, Passes, Ended, ReadsOf, OriginQuiet;
    forall n | Covers(s.coverage, n) && n < from ensures 0 <= n < |after| && n < |chain| && after[n] == chain[n] {
      var j :| 0 <= j < |s.coverage| && s.coverage[j].from <= n <= s.coverage[j].through;
      assert j < i;
      RangeEnd(s, j);
      PassedIsShared(chain, after, s, plan, head, hashes, j);
    }
  }

  /** With every end stored the check leaves a state that tracks the chain that is canonical now. */
  lemma ValidationRejoins(chain: seq<Batch>, after: seq<Batch>, s: State, plan: Plan, head: Header, hashes: map<nat, Hash>, next: State)
    requires Restarts(chain, after, s, plan, head, hashes) && Ended(s) && Validated(s, head, hashes, next)
    ensures Tracks(after, next, plan)
  {
    hide IsForkTime, Invalidated, Branch, ReadsOf, KeptOn, Ended, Covers, Normal, Passes, CompletedRows, StoredOnChain, CoveredStored, Tracks,
      OriginQuiet, IsChain;
    BranchParts(chain, after);
    var i := FirstFailing(s, hashes, 0);
    if i == |s.coverage| {
      PassedKeeps(chain, after, s, plan, head, hashes, i, |chain|);
      WholeKept(chain, after, s, plan);
      BareTracks(after, s, plan);
    } else {
      var from: nat := s.coverage[i].from;
      PassedKeeps(chain, after, s, plan, head, hashes, i, from);
      var forkTime: nat :| IsForkTime(s.store.batches, from, forkTime) && next == Reseeded(s, from, forkTime, head);
      OriginStays(after, s, next, plan);
      CutTracks(chain, s, plan, from, forkTime, after, next);
    }
  }

  lemma OriginStays(after: seq<Batch>, s: State, next: State, plan: Plan)
    requires OriginQuiet(after, s, plan) && next.origin == s.origin
    ensures OriginQuiet(after, next, plan)
  {
  }

  /** Nothing is stored or covered above the chain. */
  lemma WholeKept(chain: seq<Batch>, after: seq<Batch>, s: State, plan: Plan)
    requires WrittenFrom(chain, s, plan) && KeptOn(after, s, |chain|)
    ensures StoredOnChain(after, s.store.batches) && CoveredStored(after, s.coverage, s.store.batches)
  {
    hide Covers, Normal, IsChain;
  }

  // ------------------------------------------------------------------------------------------ an end that is not stored

  /** One restart on one pair of chains: the block seeded from, the head, the hashes read and the state that is left. */
  ghost predicate Revalidates(chain: seq<Batch>, after: seq<Batch>, s: State, plan: Plan, applied: Header, head: Header,
                              hashes: map<nat, Hash>, next: State) {
    Restarts(chain, after, s.(applied := Some(applied)), plan, head, hashes) && Validated(s.(applied := Some(applied)), head, hashes, next)
  }

  lemma ForkTimeExists(batches: map<nat, Batch>, from: nat)
    ensures exists time: nat :: IsForkTime(batches, from, time)
  {
    var below := set n | n in batches && n <= from;
    if below == {} {
      assert forall n :: n in batches ==> n !in below;
      assert IsForkTime(batches, from, 0);
    } else {
      HasMax(below);
      var top :| top in below && forall j :: j in below ==> j <= top;
      forall m | m in batches && m <= from ensures m <= top {
        assert m in below;
      }
      IsTheForkTime(batches, from, top);
    }
  }

  lemma IsTheForkTime(batches: map<nat, Batch>, from: nat, top: nat)
    requires top in batches && top <= from && forall m :: m in batches && m <= from ==> m <= top
    ensures IsForkTime(batches, from, batches[top].block.timestamp)
  {
  }

  /** The hash of every block of a chain. */
  function AllHashes(chain: seq<Batch>): map<nat, Hash> {
    map n: nat | n < |chain| :: chain[n].block.hash
  }

  /** A branch that parts at height n and has an event there; below n nothing known changes. */
  ghost predicate PartsAt(fork: seq<Batch>, s: State, n: nat) {
    && n < |fork| && fork[n].events != [] && n !in s.store.batches
    && (forall m :: m in s.store.batches && m < n ==> m < |fork| && fork[m].block.hash == s.store.batches[m].block.hash)
  }

  /** A range that fails there lies above n, so the event is not missed but the height is kept as covered. */
  lemma FailsAbove(fork: seq<Batch>, s: State, n: nat)
    requires PartsAt(fork, s, n) && Normal(s.coverage) && !Covers(s.coverage, n + 1)
    ensures var i := FirstFailing(s, AllHashes(fork), 0);
            i < |s.coverage| ==> s.coverage[i].from > n && s.coverage[i].through in s.store.batches
  {
    var i := FirstFailing(s, AllHashes(fork), 0);
    if i < |s.coverage| {
      EndsBelow(s.coverage, i, n);
    }
  }

  lemma EndsBelow(coverage: seq<Range>, i: nat, n: nat)
    requires Normal(coverage) && i < |coverage| && !Covers(coverage, n + 1)
    ensures coverage[i].through >= 0 && (coverage[i].from <= n ==> coverage[i].through <= n)
  {
    assert Coverage.Valid(coverage[i]);
  }

  lemma MissedHeight(fork: seq<Batch>, s: State, n: nat, from: nat)
    requires PartsAt(fork, s, n) && Covers(s.coverage, n) && n < from
    ensures !KeptOn(fork, s, from)
  {
    hide Covers;
  }

  /** The check passes over a range whose end is not stored, and the restart goes on with what it covers. */
  lemma PassedOver(chain: seq<Batch>, fork: seq<Batch>, s: State, plan: Plan, head: Header, n: nat) returns (next: State)
    requires Restarts(chain, fork, s, plan, head, AllHashes(fork)) && PartsAt(fork, s, n)
    requires Covers(s.coverage, n) && !Covers(s.coverage, n + 1) && |fork| == |chain|
    ensures Validated(s, head, AllHashes(fork), next) && !Tracks(fork, next, plan)
  {
    hide IsForkTime, Invalidated, Branch, ReadsOf, KeptOn, Covers, Normal, Passes, CompletedRows, StoredOnChain, CoveredStored, Tracks,
      OriginQuiet, IsChain, PartsAt, AllHashes;
    BranchParts(chain, fork);
    FailsAbove(fork, s, n);
    var i := FirstFailing(s, AllHashes(fork), 0);
    if i == |s.coverage| {
      next := s;
      BareTracks(fork, s, plan);
      MissedWhole(fork, s, n);
    } else {
      var from: nat := s.coverage[i].from;
      EndOnChain(chain, fork, s, plan, i);
      ForkTimeExists(s.store.batches, from);
      var forkTime: nat :| IsForkTime(s.store.batches, from, forkTime);
      next := Reseeded(s, from, forkTime, head);
      OriginStays(fork, s, next, plan);
      CutTracks(chain, s, plan, from, forkTime, fork, next);
      MissedHeight(fork, s, n, from);
    }
  }

  lemma MissedWhole(fork: seq<Batch>, s: State, n: nat)
    requires PartsAt(fork, s, n) && Covers(s.coverage, n)
    ensures !CoveredStored(fork, s.coverage, s.store.batches)
  {
    hide Covers;
  }

  lemma EndOnChain(chain: seq<Batch>, fork: seq<Batch>, s: State, plan: Plan, i: nat)
    requires WrittenFrom(chain, s, plan) && i < |s.coverage| && s.coverage[i].through in s.store.batches && |fork| == |chain|
    ensures s.coverage[i].through in AllHashes(fork)
  {
    hide IsChain, CoveredStored;
  }

  /** A branch that the check cannot tell from the chain. */
  lemma OpenEndRefutes(chain: seq<Batch>, s: State, plan: Plan, n: nat)
    requires WrittenFrom(chain, s, plan) && Branch(chain, chain) && s.origin.None?
    requires s.cache == map[] && s.liveFrom == map[] && s.liveBoundary == map[]
    requires Covers(s.coverage, n) && !Covers(s.coverage, n + 1) && n !in s.store.batches
    ensures exists other, fork, applied, head, hashes, next ::
              Revalidates(other, fork, s, plan, applied, head, hashes, next) && !Tracks(fork, next, plan)
  {
    hide Covers, Normal, IsChain, HashLinked, OneBlockPerHash, Scrubbed, ScrubbedHash, Forked, StoredHeaders, HashesBelow, Like, Tracks, WellKept,
      AllHashes, Validated, ReadsOf;
    CoveredHeight(chain, s, plan, n);
    var known, unused := StoredHeaders(s), Bound(chain, 0);
    var time := chain[|chain| - 1].block.timestamp;
    LastIsLatest(chain);
    StoredAreKnown(chain, s, plan);
    var other := Scrubbed(chain, known, unused);
    ScrubbedKeeps(chain, known, unused);
    WrittenLike(chain, other, s, plan, known);
    var fork := Forked(chain, known, unused, n, time, n, [0]);
    ForkedBranch(chain, known, unused, n, time, n, [0]);
    ForkedKeeps(chain, known, unused, n, time, n, [0]);
    var head := fork[|fork| - 1].block;
    TopOnChain(fork);
    var t := s.(applied := Some(head));
    assert ReadsOf(fork, AllHashes(fork)) by { AllRead(fork); }
    assert WrittenFrom(other, t, plan);
    PartsThere(chain, other, fork, s, plan, n);
    assert PartsAt(fork, t, n);
    var next := PassedOver(other, fork, t, plan, head, n);
    assert Revalidates(other, fork, s, plan, head, head, AllHashes(fork), next);
  }

  lemma LastIsLatest(chain: seq<Batch>)
    requires IsChain(chain) && chain != []
    ensures forall k :: 0 <= k < |chain| ==> chain[k].block.timestamp <= chain[|chain| - 1].block.timestamp
  {
  }

  lemma TopOnChain(chain: seq<Batch>)
    requires IsChain(chain) && chain != []
    ensures OnChain(chain, chain[|chain| - 1].block)
  {
  }

  lemma AllRead(chain: seq<Batch>)
    ensures ReadsOf(chain, AllHashes(chain))
  {
  }

  lemma PartsThere(chain: seq<Batch>, other: seq<Batch>, fork: seq<Batch>, s: State, plan: Plan, n: nat)
    requires WrittenFrom(chain, s, plan) && Like(chain, other, StoredHeaders(s)) && n < |fork| == |chain| && n !in s.store.batches
    requires (forall k :: 0 <= k < n ==> fork[k] == other[k]) && fork[n].events != []
    ensures PartsAt(fork, s, n)
  {
    hide Covers, Normal, IsChain, CoveredStored;
    forall m | m in s.store.batches && m < n ensures fork[m].block.hash == s.store.batches[m].block.hash {
      assert LikeAt(chain[m], other[m], StoredHeaders(s));
    }
  }

  /**
   A restart of a model that has not resolved its origin leaves, whatever the chains and the hashes read, a state that
   tracks the chain that is canonical now, if and only if the last block of every range of the coverage is stored.
   */
  lemma ValidationIffEnded(chain: seq<Batch>, s: State, plan: Plan)
    requires WrittenFrom(chain, s, plan) && Branch(chain, chain) && s.origin.None?
    requires s.cache == map[] && s.liveFrom == map[] && s.liveBoundary == map[]
    ensures (forall other, fork, applied, head, hashes, next :: Revalidates(other, fork, s, plan, applied, head, hashes, next) ==>
               Tracks(fork, next, plan))
            <==> Ended(s)
  {
    hide *;
    if Ended(s) {
      forall other, fork, applied, head, hashes, next | Revalidates(other, fork, s, plan, applied, head, hashes, next)
        ensures Tracks(fork, next, plan)
      {
        EndedRejoins(other, fork, s, plan, applied, head, hashes, next);
      }
    } else {
      OpenEnd(chain, s, plan);
    }
  }

  lemma EndedRejoins(other: seq<Batch>, fork: seq<Batch>, s: State, plan: Plan, applied: Header, head: Header, hashes: map<nat, Hash>, next: State)
    requires Revalidates(other, fork, s, plan, applied, head, hashes, next) && Ended(s)
    ensures Tracks(fork, next, plan)
  {
    hide Restarts, Validated, Tracks, Covers;
    ValidationRejoins(other, fork, s.(applied := Some(applied)), plan, head, hashes, next);
  }

  lemma OpenEnd(chain: seq<Batch>, s: State, plan: Plan)
    requires WrittenFrom(chain, s, plan) && Branch(chain, chain) && s.origin.None? && !Ended(s)
    requires s.cache == map[] && s.liveFrom == map[] && s.liveBoundary == map[]
    ensures exists other, fork, applied, head, hashes, next ::
              Revalidates(other, fork, s, plan, applied, head, hashes, next) && !Tracks(fork, next, plan)
  {
    hide *;
    var n := OpenHeight(s);
    CoveredHeight(chain, s, plan, n);
    OpenEndRefutes(chain, s, plan, n);
  }

  lemma OpenHeight(s: State) returns (n: int)
    requires !Ended(s)
    ensures Covers(s.coverage, n) && !Covers(s.coverage, n + 1) && n !in s.store.batches
  {
    hide Covers;
    n :| Covers(s.coverage, n) && !Covers(s.coverage, n + 1) && n !in s.store.batches;
  }

  // ------------------------------------------------------------------------------------------ a check passed over

  const GENESIS_ONLY := Store([Range(0, 1)], map[0 := GENESIS], map[])

  /** Heights 0 and 1 are covered, block 1 had no event and is not stored; on the new branch it has one, and the check passes. */
  lemma ValidationMisses(plan: Plan)
    requires ValidPlan(plan)
    ensures var fork := [GENESIS, Batch(Header(1, 12, 10, 70), [2])];
            var s := Started(GENESIS_ONLY, fork[1].block, None);
            && Restarts([GENESIS, OLD_ONE], fork, s, plan, fork[1].block, AllHashes(fork))
            && Validated(s, fork[1].block, AllHashes(fork), s) && !Tracks(fork, s, plan)
  {
    hide Covers;
    forall n ensures Covers([Range(0, 1)], n) <==> 0 <= n <= 1 { CoversOne(Range(0, 1), n); }
    var fork := [GENESIS, Batch(Header(1, 12, 10, 70), [2])];
    assert JoinedAt([GENESIS, OLD_ONE], 0) && JoinedAt(fork, 0);
    assert Covers(GENESIS_ONLY.coverage, 1);
  }
}
