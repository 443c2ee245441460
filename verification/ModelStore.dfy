/**
 The store of one model instance: coverage, source batches and projection rows.

 There is one abstract store, and the in-memory and the PostgreSQL version of it. Each operation of the two versions
 is shown to do what the abstract one does, in memory on condition that row keys do not collide.
 */
module ModelStore {
  import opened Blocks
  import opened Sorting
  import opened Coverage
  import opened ModelTypes

  type RowId = (string, string)

  datatype Store = Store(coverage: seq<Range>, batches: map<nat, Batch>, rows: map<RowId, Row>)

  function Id(row: Row): RowId { (row.projection, row.key) }

  function PutBatches(stored: map<nat, Batch>, batches: seq<Batch>): map<nat, Batch> {
    if batches == [] then stored
    else PutBatches(stored, batches[..|batches| - 1])[Last(batches).block.number := Last(batches)]
  }

  function PutRows(stored: map<RowId, Row>, rows: seq<Row>): map<RowId, Row> {
    if rows == [] then stored else PutRows(stored, rows[..|rows| - 1])[Id(Last(rows)) := Last(rows)]
  }

  /** The heights a commit adds: those it declares, else those of its batches. */
  function Added(batches: seq<Batch>, declared: Option<seq<Range>>): seq<Range> {
    if declared.Some? then declared.value else RangesFromBlocks(NumbersOf(batches))
  }

  /** None when a declared range is invalid: the commit fails as a whole. */
  function Committed(s: Store, batches: seq<Batch>, rows: seq<Row>, declared: Option<seq<Range>>): Option<Store> {
    var spans := Merge(s.coverage + Added(batches, declared));
    if spans.None? then None
    else Some(Store(spans.value, PutBatches(s.batches, batches), PutRows(s.rows, rows)))
  }

  function Below(ranges: seq<Range>, from: nat): seq<Range> {
    if ranges == [] then []
    else if ranges[0].from < from then
      [Range(ranges[0].from, if ranges[0].through < from then ranges[0].through else from - 1)] + Below(ranges[1..], from)
    else Below(ranges[1..], from)
  }

  function Above(ranges: seq<Range>, from: nat): seq<Range> {
    if ranges == [] then []
    else if ranges[0].through >= from then
      [Range(if ranges[0].from < from then from else ranges[0].from, ranges[0].through)] + Above(ranges[1..], from)
    else Above(ranges[1..], from)
  }

  /** The timestamp of the highest stored batch at or below `from`, the discarded block itself included; 0 if none. */
  ghost predicate IsForkTime(batches: map<nat, Batch>, from: nat, time: nat) {
    if exists n :: n in batches && n <= from then
      exists n :: n in batches && n <= from && batches[n].block.timestamp == time
        && forall m :: m in batches && m <= from ==> m <= n
    else time == 0
  }

  predicate EndedBy(row: Row, time: nat) {
    row.endTime.Some? && row.endTime.value <= time
  }

  function Surviving<K>(rows: map<K, Row>, forkTime: nat): map<K, Row> {
    map k | k in rows && EndedBy(rows[k], forkTime) :: rows[k]
  }

  /** A reorg: everything from height `from` goes, and every row that does not end by the fork time. */
  function Invalidated(s: Store, from: nat, forkTime: nat): Store {
    Store(Below(s.coverage, from),
          map n | n in s.batches && n < from :: s.batches[n],
          Surviving(s.rows, forkTime))
  }

  predicate Expires(row: Row, fromTime: nat) {
    row.period != Current && (row.period != Closed || !row.complete || EndedBy(row, fromTime))
  }

  function Unexpired<K>(rows: map<K, Row>, fromTime: nat): map<K, Row> {
    map k | k in rows && !Expires(rows[k], fromTime) :: rows[k]
  }

  /** Retention: keep heights from `fromBlock` on, state rows, and complete closed rows that end after `fromTime`. */
  function Retained(s: Store, fromBlock: nat, fromTime: nat): Store {
    Store(Above(s.coverage, fromBlock),
          map n | n in s.batches && n >= fromBlock :: s.batches[n],
          Unexpired(s.rows, fromTime))
  }

  // ------------------------------------------------------------------------------------------ the abstract store

  lemma {:induction false} BelowCovers(ranges: seq<Range>, from: nat)
    requires Normal(ranges)
    ensures Normal(Below(ranges, from))
    ensures forall n :: Covers(Below(ranges, from), n) <==> Covers(ranges, n) && n < from
    ensures forall r :: r in Below(ranges, from) ==> ranges != [] && r.from >= ranges[0].from
  {
    if ranges != [] {
      BelowCovers(ranges[1..], from);
      var rest := Below(ranges[1..], from);
      forall n ensures Covers(Below(ranges, from), n) <==> Covers(ranges, n) && n < from {
        HeadTail(ranges, n);
        if ranges[0].from < from {
          HeadTail(Below(ranges, from), n);
        }
      }
      forall i | 0 <= i < |rest| ensures ranges[0].through + 1 < rest[i].from {
        assert rest[i] in rest;
      }
    }
  }

  lemma {:induction false} AboveCovers(ranges: seq<Range>, from: nat)
    requires Normal(ranges)
    ensures Normal(Above(ranges, from))
    ensures forall n :: Covers(Above(ranges, from), n) <==> Covers(ranges, n) && n >= from
    ensures forall r :: r in Above(ranges, from) ==> ranges != [] && r.from >= ranges[0].from
  {
    if ranges != [] {
      AboveCovers(ranges[1..], from);
      var rest := Above(ranges[1..], from);
      forall n ensures Covers(Above(ranges, from), n) <==> Covers(ranges, n) && n >= from {
        HeadTail(ranges, n);
        if ranges[0].through >= from {
          HeadTail(Above(ranges, from), n);
        }
      }
      forall i | 0 <= i < |rest| ensures ranges[0].through + 1 < rest[i].from {
        assert rest[i] in rest;
      }
    }
  }

  lemma HeadTail(ranges: seq<Range>, n: int)
    requires ranges != []
    ensures Covers(ranges, n) <==> ranges[0].from <= n <= ranges[0].through || Covers(ranges[1..], n)
  {
    assert ranges == [ranges[0]] + ranges[1..];
    CoversConcat([ranges[0]], ranges[1..], n);
    CoversOne(ranges[0], n);
  }

  /** Coverage is in normal form and every stored batch lies inside it. */
  ghost predicate WellKept(s: Store) {
    && Normal(s.coverage)
    && (forall n :: n in s.batches ==> s.batches[n].block.number == n && Covers(s.coverage, n))
  }

  lemma {:induction false} PutBatchesKeys(stored: map<nat, Batch>, batches: seq<Batch>)
    ensures var all := PutBatches(stored, batches);
            && (forall n :: n in all <==> n in stored || n in NumbersOf(batches))
            && (forall n :: n in all && n !in NumbersOf(batches) ==> all[n] == stored[n])
            && (forall n :: n in all && n in NumbersOf(batches) ==> all[n] in batches && all[n].block.number == n)
  {
    if batches != [] {
      var front := batches[..|batches| - 1];
      PutBatchesKeys(stored, front);
      assert NumbersOf(batches) == NumbersOf(front) + [Last(batches).block.number];
      assert forall b :: b in front ==> b in batches;
    }
  }

  /** A commit that declares coverage for its batches keeps the store well kept and adds exactly those heights. */
  lemma CommitKeeps(s: Store, batches: seq<Batch>, rows: seq<Row>, declared: Option<seq<Range>>)
    requires WellKept(s)
    requires declared.Some? ==> AllValid(declared.value)
    requires declared.Some? ==> forall n :: n in NumbersOf(batches) ==> Covers(declared.value, n) || Covers(s.coverage, n)
    ensures var next := Committed(s, batches, rows, declared);
            && next.Some? && WellKept(next.value)
            && (forall n :: Covers(next.value.coverage, n) <==>
                  Covers(s.coverage, n) || (if declared.Some? then Covers(declared.value, n) else n in NumbersOf(batches)))
  {
    hide Covers, Normal, Merge, RangesFromBlocks, PutBatches, PutRows, NumbersOf;
    var added := Added(batches, declared);
    if declared.None? {
      RangesFromBlocksCovers(NumbersOf(batches));
      NormalIsValid(added);
    }
    NormalIsValid(s.coverage);
    ValidConcat(s.coverage, added);
    MergeIsNormalUnion(s.coverage + added);
    forall n ensures Covers(s.coverage + added, n) <==> Covers(s.coverage, n) || Covers(added, n) {
      CoversConcat(s.coverage, added, n);
    }
    PutBatchesKeys(s.batches, batches);
  }

  lemma RangesFromBlocksCovers(numbers: seq<nat>)
    ensures Normal(RangesFromBlocks(numbers))
    ensures forall n :: Covers(RangesFromBlocks(numbers), n) <==> n in numbers
  {
    hide Covers, Normal, JoinAll, Sort, Singles;
    SinglesCover(numbers);
    MergedSort(Singles(numbers));
  }

  /** Timestamps do not decrease with height. */
  ghost predicate InTimeOrder(batches: map<nat, Batch>) {
    forall m, n :: m in batches && n in batches && m <= n ==> batches[m].block.timestamp <= batches[n].block.timestamp
  }

  /**
   A reorg leaves the coverage below `from` and nothing else, keeps the batches inside it, and no row survives
   whose period reaches a discarded batch.
   */
  lemma InvalidateKeeps(s: Store, from: nat, forkTime: nat)
    requires WellKept(s) && InTimeOrder(s.batches) && IsForkTime(s.batches, from, forkTime)
    ensures var next := Invalidated(s, from, forkTime);
            && WellKept(next)
            && (forall n :: Covers(next.coverage, n) <==> Covers(s.coverage, n) && n < from)
            && (forall n :: n in next.batches <==> n in s.batches && n < from)
            && (forall id, n :: id in next.rows && n in s.batches && n !in next.batches ==>
                  next.rows[id].endTime.Some? && s.batches[n].block.timestamp >= next.rows[id].endTime.value)
  {
    hide Covers, Normal, Below;
    BelowCovers(s.coverage, from);
    forall n | n in s.batches && n >= from ensures s.batches[n].block.timestamp >= forkTime {
    }
  }

  lemma RetainKeeps(s: Store, fromBlock: nat, fromTime: nat)
    requires WellKept(s)
    ensures var next := Retained(s, fromBlock, fromTime);
            && WellKept(next)
            && (forall n :: Covers(next.coverage, n) <==> Covers(s.coverage, n) && n >= fromBlock)
            && (forall n :: n in next.batches <==> n in s.batches && n >= fromBlock)
  {
    hide Covers, Normal, Above;
    AboveCovers(s.coverage, fromBlock);
  }

  // ------------------------------------------------------------------------------------------ the store in memory

  function JoinedKey(id: RowId): string { id.0 + ":" + id.1 }

  function PutJoined(stored: map<string, Row>, rows: seq<Row>): map<string, Row> {
    if rows == [] then stored else PutJoined(stored, rows[..|rows| - 1])[JoinedKey(Id(Last(rows))) := Last(rows)]
  }

  /** The in-memory rows hold the abstract rows, each under its joined key. */
  ghost predicate Represents(memory: map<string, Row>, rows: map<RowId, Row>) {
    && (forall id :: id in rows ==> id == Id(rows[id]) && JoinedKey(id) in memory && memory[JoinedKey(id)] == rows[id])
    && (forall k :: k in memory ==> k == JoinedKey(Id(memory[k])) && Id(memory[k]) in rows)
  }

  ghost predicate PlainKeys(rows: map<RowId, Row>) {
    forall id :: id in rows ==> ColonFree(id.1)
  }

  /** The time of the highest batch at or below `from`. */
  method ForkTimeOf(batches: map<nat, Batch>, from: nat) returns (time: nat)
    ensures IsForkTime(batches, from, time)
  {
    var best := -1;
    time := 0;
    var left := batches.Keys;
    while left != {}
      invariant left <= batches.Keys
      invariant best == -1 ==> time == 0 && forall m :: m in batches && m <= from ==> m in left
      invariant best != -1 ==> best in batches && best <= from && batches[best].block.timestamp == time
                               && forall m :: m in batches && m <= from && m !in left ==> m <= best
      decreases left
    {
      var n :| n in left;
      left := left - {n};
      if n <= from && n > best {
        best, time := n, batches[n].block.timestamp;
      }
    }
  }

  class MemoryStore {
    var coverage: seq<Range>
    var batches: map<nat, Batch>
    var rows: map<string, Row>

    constructor ()
      ensures coverage == [] && batches == map[] && rows == map[]
    {
      coverage, batches, rows := [], map[], map[];
    }

    /** The store in memory agrees with the abstract store; its row keys have no colon. */
    ghost predicate Holds(s: Store)
      reads this
    {
      coverage == s.coverage && batches == s.batches && Represents(rows, s.rows) && PlainKeys(s.rows)
    }

    method Commit(ghost s: Store, incoming: seq<Batch>, added: seq<Row>, declared: Option<seq<Range>>) returns (ok: bool)
      modifies this
      ensures old(Holds(s)) && (forall i :: 0 <= i < |added| ==> ColonFree(added[i].key)) ==>
                var next := Committed(s, incoming, added, declared); ok == next.Some? && Holds(if ok then next.value else s)
      ensures ok == Merge(old(coverage) + Added(incoming, declared)).Some?
      ensures !ok ==> unchanged(this)
      ensures ok ==> coverage == Merge(old(coverage) + Added(incoming, declared)).value
                     && batches == PutBatches(old(batches), incoming) && rows == PutJoined(old(rows), added)
    {
      hide Merge, Added, Represents, PlainKeys, JoinedKey;
      var spans := MergeBlockRanges(coverage + Added(incoming, declared));
      if spans.None? { return false; }
      for k := 0 to |incoming|
        invariant batches == PutBatches(old(batches), incoming[..k]) && unchanged(`coverage) && unchanged(`rows)
      {
        assert incoming[..k + 1][..k] == incoming[..k];
        batches := batches[incoming[k].block.number := incoming[k]];
      }
      assert incoming[..|incoming|] == incoming;
      for k := 0 to |added|
        invariant rows == PutJoined(old(rows), added[..k]) && unchanged(`coverage)
        invariant batches == PutBatches(old(batches), incoming)
      {
        assert added[..k + 1][..k] == added[..k];
        rows := rows[JoinedKey(Id(added[k])) := added[k]];
      }
      assert added[..|added|] == added;
      coverage := spans.value;
      ok := true;
      if old(Holds(s)) && forall i :: 0 <= i < |added| ==> ColonFree(added[i].key) {
        PutJoinedRepresents(old(rows), s.rows, added);
      }
    }

    method ForkTime(from: nat) returns (time: nat)
      ensures IsForkTime(batches, from, time)
    {
      time := ForkTimeOf(batches, from);
    }

    /** Deletes the batches outside [from, below), one by one. */
    method KeepBatches(from: nat, below: Option<nat>)
      modifies this`batches
      ensures batches == map n | n in old(batches) && from <= n && (below.Some? ==> n < below.value) :: old(batches)[n]
    {
      ghost var all := batches;
      var numbers := batches.Keys;
      while numbers != {}
        invariant numbers <= all.Keys
        invariant batches == map n | n in all && (n in numbers || (from <= n && (below.Some? ==> n < below.value))) :: all[n]
        decreases numbers
      {
        var number :| number in numbers;
        numbers := numbers - {number};
        if number < from || (below.Some? && number >= below.value) { batches := batches - {number}; }
      }
    }

    /** Deletes the rows that fail a test, one by one. */
    method KeepRows(keep: Row -> bool)
      modifies this`rows
      ensures rows == map k | k in old(rows) && keep(old(rows)[k]) :: old(rows)[k]
    {
      ghost var all := rows;
      var keys := rows.Keys;
      while keys != {}
        invariant keys <= all.Keys
        invariant rows == map k | k in all && (k in keys || keep(all[k])) :: all[k]
        decreases keys
      {
        var key :| key in keys;
        keys := keys - {key};
        if !keep(rows[key]) { rows := rows - {key}; }
      }
    }

    /** Ranges are filtered and clipped, then blocks and rows deleted. */
    method Invalidate(ghost s: Store, from: nat) returns (ghost time: nat)
      modifies this
      ensures IsForkTime(old(batches), from, time)
      ensures old(Holds(s)) ==> Holds(Invalidated(s, from, time))
      ensures coverage == Below(old(coverage), from) && rows == Surviving(old(rows), time)
      ensures batches == (map n | n in old(batches) && n < from :: old(batches)[n])
    {
      hide IsForkTime, Below, Represents, PlainKeys, DeleteFirstFrom, UpdateLast;
      var forkTime := ForkTime(from);
      time := forkTime;
      SurvivingRepresents(rows, s.rows, time);
      FilteredBelow(coverage, from);
      coverage := UpdateLast(DeleteFirstFrom(coverage, from), from);
      KeepBatches(0, Some(from));
      KeepRows((row: Row) => row.endTime.Some? && row.endTime.value <= forkTime);
      assert rows == Surviving(old(rows), forkTime);
    }

    method Retain(ghost s: Store, fromBlock: nat, fromTime: nat)
      modifies this
      ensures old(Holds(s)) ==> Holds(Retained(s, fromBlock, fromTime))
      ensures coverage == Above(old(coverage), fromBlock) && rows == Unexpired(old(rows), fromTime)
      ensures batches == (map n | n in old(batches) && n >= fromBlock :: old(batches)[n])
    {
      hide Above, Represents, PlainKeys, DeleteLastBelow, UpdateFirst;
      UnexpiredRepresents(rows, s.rows, fromTime);
      FilteredAbove(coverage, fromBlock);
      coverage := UpdateFirst(DeleteLastBelow(coverage, fromBlock), fromBlock);
      KeepBatches(fromBlock, None);
      KeepRows((row: Row) => row.period == Current || (row.period == Closed && row.complete
                      && !(row.endTime.Some? && row.endTime.value <= fromTime)));
      assert rows == Unexpired(old(rows), fromTime);
    }
  }

  /** Filtering the ranges and then clipping them is cutting them in one pass. */
  lemma {:induction false} FilteredBelow(ranges: seq<Range>, from: nat)
    ensures UpdateLast(DeleteFirstFrom(ranges, from), from) == Below(ranges, from)
  {
    if ranges != [] {
      FilteredBelow(ranges[1..], from);
      var kept := DeleteFirstFrom(ranges[1..], from);
      if ranges[0].from < from {
        assert DeleteFirstFrom(ranges, from) == [ranges[0]] + kept;
        assert UpdateLast([ranges[0]] + kept, from) == [ClipBelow(ranges[0], from)] + UpdateLast(kept, from);
      } else {
        assert DeleteFirstFrom(ranges, from) == kept;
      }
    }
  }

  lemma {:induction false} FilteredAbove(ranges: seq<Range>, from: nat)
    ensures UpdateFirst(DeleteLastBelow(ranges, from), from) == Above(ranges, from)
  {
    if ranges != [] {
      FilteredAbove(ranges[1..], from);
      var kept := DeleteLastBelow(ranges[1..], from);
      if ranges[0].through >= from {
        assert DeleteLastBelow(ranges, from) == [ranges[0]] + kept;
        assert UpdateFirst([ranges[0]] + kept, from) == [ClipAbove(ranges[0], from)] + UpdateFirst(kept, from);
      } else {
        assert DeleteLastBelow(ranges, from) == kept;
      }
    }
  }

  /** The key starts after the last colon. */
  lemma LastColon(id: RowId)
    requires ColonFree(id.1)
    ensures JoinedKey(id)[|id.0|] == ':' && forall i :: |id.0| < i < |JoinedKey(id)| ==> JoinedKey(id)[i] != ':'
    ensures id.0 == JoinedKey(id)[..|id.0|] && id.1 == JoinedKey(id)[|id.0| + 1..]
  {
    forall i | |id.0| < i < |JoinedKey(id)| ensures JoinedKey(id)[i] != ':' {
      assert JoinedKey(id)[i] == id.1[i - |id.0| - 1];
    }
  }

  lemma JoinedInjective(a: RowId, b: RowId)
    requires ColonFree(a.1) && ColonFree(b.1) && JoinedKey(a) == JoinedKey(b)
    ensures a == b
  {
    LastColon(a);
    LastColon(b);
  }

  /** Putting a row keeps the in-memory rows a faithful copy exactly when its joined key is no other row's. */
  lemma PutRepresents(memory: map<string, Row>, rows: map<RowId, Row>, row: Row)
    requires Represents(memory, rows)
    ensures Represents(memory[JoinedKey(Id(row)) := row], rows[Id(row) := row])
       <==> forall id :: id in rows && JoinedKey(id) == JoinedKey(Id(row)) ==> id == Id(row)
  {
    var m, r := memory[JoinedKey(Id(row)) := row], rows[Id(row) := row];
    if Represents(m, r) {
      forall id | id in rows && JoinedKey(id) == JoinedKey(Id(row)) ensures id == Id(row) {
        assert id in r && m[JoinedKey(id)] == r[id];
      }
    }
    if forall id :: id in rows && JoinedKey(id) == JoinedKey(Id(row)) ==> id == Id(row) {
      forall id | id in r ensures id == Id(r[id]) && JoinedKey(id) in m && m[JoinedKey(id)] == r[id] {
      }
      forall k | k in m ensures k == JoinedKey(Id(m[k])) && Id(m[k]) in r {
      }
    }
  }

  /** Two rows, one with a colon in its projection and one with a colon in its key, overwrite each other in memory. */
  lemma ColonCollides(block: Header)
    ensures var a := Row("pool", "x:0", [], block, None, Current, true);
            var b := Row("pool:x", "0", [], block, None, Current, true);
            Id(a) != Id(b) && JoinedKey(Id(a)) == JoinedKey(Id(b))
            && |PutRows(map[], [a, b])| == 2 && |PutJoined(map[], [a, b])| == 1
  {
    var a := Row("pool", "x:0", [], block, None, Current, true);
    var b := Row("pool:x", "0", [], block, None, Current, true);
    var both := [a, b];
    assert both[..1] == [a] && [a][..0] == [];
    assert JoinedKey(Id(a)) == "pool:x:0" == JoinedKey(Id(b));
    assert PutRows(map[], [a]) == map[Id(a) := a] && PutJoined(map[], [a]) == map[JoinedKey(Id(a)) := a];
    assert PutRows(map[], both) == map[Id(a) := a][Id(b) := b];
    assert PutJoined(map[], both) == map["pool:x:0" := b];
    assert PutRows(map[], both).Keys == {Id(a), Id(b)};
    assert PutJoined(map[], both).Keys == {"pool:x:0"};
  }

  lemma {:induction false} PutJoinedRepresents(memory: map<string, Row>, rows: map<RowId, Row>, added: seq<Row>)
    requires Represents(memory, rows) && PlainKeys(rows)
    requires forall i :: 0 <= i < |added| ==> ColonFree(added[i].key)
    ensures Represents(PutJoined(memory, added), PutRows(rows, added)) && PlainKeys(PutRows(rows, added))
  {
    if added != [] {
      var front := added[..|added| - 1];
      PutJoinedRepresents(memory, rows, front);
      hide Represents, PutRows, PutJoined, ColonFree, JoinedKey;
      var row := Last(added);
      forall id | id in PutRows(rows, front) && JoinedKey(id) == JoinedKey(Id(row)) ensures id == Id(row) {
        JoinedInjective(id, Id(row));
      }
      PutRepresents(PutJoined(memory, front), PutRows(rows, front), row);
      UnfoldPut(memory, rows, added);
    }
  }

  lemma UnfoldPut(memory: map<string, Row>, rows: map<RowId, Row>, added: seq<Row>)
    requires added != []
    ensures PutRows(rows, added) == PutRows(rows, added[..|added| - 1])[Id(Last(added)) := Last(added)]
    ensures PutJoined(memory, added) == PutJoined(memory, added[..|added| - 1])[JoinedKey(Id(Last(added))) := Last(added)]
  {
  }

  /** Deleting rows by a test on the row keeps the copy faithful. */
  lemma SurvivingRepresents(memory: map<string, Row>, rows: map<RowId, Row>, time: nat)
    ensures Represents(memory, rows) ==> Represents(Surviving(memory, time), Surviving(rows, time))
    ensures PlainKeys(rows) ==> PlainKeys(Surviving(rows, time))
  {
  }

  lemma UnexpiredRepresents(memory: map<string, Row>, rows: map<RowId, Row>, time: nat)
    ensures Represents(memory, rows) ==> Represents(Unexpired(memory, time), Unexpired(rows, time))
    ensures PlainKeys(rows) ==> PlainKeys(Unexpired(rows, time))
  {
  }

  // ------------------------------------------------------------------------------------------ the store in PostgreSQL

  /** Tables: coverage in no particular order, blocks by number with a timestamp column, rows by projection and key. */
  class PostgresStore {
    var coverage: seq<Range>
    var blocks: map<nat, (nat, Batch)>
    var rows: map<RowId, Row>

    constructor ()
      ensures coverage == [] && blocks == map[] && rows == map[]
    {
      coverage, blocks, rows := [], map[], map[];
    }

    ghost predicate Holds(s: Store)
      reads this
    {
      && (forall r :: r in coverage <==> r in s.coverage)
      && Timestamped(blocks, s.batches)
      && rows == s.rows
    }

    method Commit(ghost s: Store, incoming: seq<Batch>, added: seq<Row>, declared: Option<seq<Range>>) returns (ok: bool)
      requires Holds(s)
      modifies this
      ensures ok == Committed(s, incoming, added, declared).Some?
      ensures Holds(if ok then Committed(s, incoming, added, declared).value else s)
    {
      hide Merge, Added;
      var spans := MergeBlockRanges(coverage + Added(incoming, declared));
      MergeSameElements(coverage + Added(incoming, declared), s.coverage + Added(incoming, declared));
      if spans.None? { return false; }
      coverage := spans.value;
      for k := 0 to |incoming|
        invariant Timestamped(blocks, PutBatches(s.batches, incoming[..k]))
        invariant coverage == spans.value && rows == s.rows
      {
        assert incoming[..k + 1][..k] == incoming[..k];
        blocks := blocks[incoming[k].block.number := (incoming[k].block.timestamp, incoming[k])];
      }
      assert incoming[..|incoming|] == incoming;
      for k := 0 to |added|
        invariant rows == PutRows(s.rows, added[..k]) && coverage == spans.value
        invariant Timestamped(blocks, PutBatches(s.batches, incoming))
      {
        assert added[..k + 1][..k] == added[..k];
        rows := rows[Id(added[k]) := added[k]];
      }
      assert added[..|added|] == added;
      ok := true;
    }

    method Invalidate(ghost s: Store, from: nat, forkTime: nat)
      requires Holds(s) && IsForkTime(s.batches, from, forkTime)
      modifies this
      ensures Holds(Invalidated(s, from, forkTime))
    {
      hide Below, DeleteFirstFrom, UpdateLast, IsForkTime;
      ghost var before := coverage;
      coverage := DeleteFirstFrom(coverage, from);
      coverage := UpdateLast(coverage, from);
      BelowTable(before, s.coverage, from);
      blocks := map n | n in blocks && n < from :: blocks[n];
      rows := map id | id in rows && !(rows[id].endTime.None? || rows[id].endTime.value > forkTime) :: rows[id];
    }

    method Retain(ghost s: Store, fromBlock: nat, fromTime: nat)
      requires Holds(s)
      modifies this
      ensures Holds(Retained(s, fromBlock, fromTime))
    {
      hide Above, DeleteLastBelow, UpdateFirst;
      ghost var before := coverage;
      coverage := DeleteLastBelow(coverage, fromBlock);
      coverage := UpdateFirst(coverage, fromBlock);
      AboveTable(before, s.coverage, fromBlock);
      blocks := map n | n in blocks && n >= fromBlock :: blocks[n];
      rows := map id | id in rows && !(rows[id].period != Current
                && (rows[id].period != Closed || !rows[id].complete
                    || (rows[id].endTime.Some? && rows[id].endTime.value <= fromTime))) :: rows[id];
    }
  }

  /** The block table holds each batch beside its timestamp. */
  ghost predicate Timestamped(blocks: map<nat, (nat, Batch)>, batches: map<nat, Batch>) {
    && blocks.Keys == batches.Keys
    && forall n :: n in blocks ==> blocks[n] == (batches[n].block.timestamp, batches[n])
  }

  function DeleteFirstFrom(table: seq<Range>, from: nat): seq<Range> {
    if table == [] then []
    else (if table[0].from >= from then [] else [table[0]]) + DeleteFirstFrom(table[1..], from)
  }

  function UpdateLast(table: seq<Range>, from: nat): seq<Range> {
    seq(|table|, i requires 0 <= i < |table| => if table[i].through >= from then table[i].(through := from - 1) else table[i])
  }

  function DeleteLastBelow(table: seq<Range>, from: nat): seq<Range> {
    if table == [] then []
    else (if table[0].through < from then [] else [table[0]]) + DeleteLastBelow(table[1..], from)
  }

  function UpdateFirst(table: seq<Range>, from: nat): seq<Range> {
    seq(|table|, i requires 0 <= i < |table| => if table[i].from < from then table[i].(from := from) else table[i])
  }

  lemma MergeSameElements(a: seq<Range>, b: seq<Range>)
    requires forall r :: r in a <==> r in b
    ensures Merge(a) == Merge(b)
  {
    hide Covers, Normal, Merge, Valid;
    MergeIsNormalUnion(a);
    MergeIsNormalUnion(b);
    ValidSameElements(a, b);
    if Merge(a).Some? {
      forall n ensures Covers(a, n) <==> Covers(b, n) {
        CoversSameElements(a, b, n);
      }
      NormalIsUnique(Merge(a).value, Merge(b).value);
    }
  }

  lemma ValidSameElements(a: seq<Range>, b: seq<Range>)
    requires forall r :: r in a <==> r in b
    ensures AllValid(a) <==> AllValid(b)
  {
    if AllValid(a) {
      forall i | 0 <= i < |b| ensures Valid(b[i]) { assert b[i] in a; }
    }
    if AllValid(b) {
      forall i | 0 <= i < |a| ensures Valid(a[i]) { assert a[i] in b; }
    }
  }

  function ClipBelow(r: Range, from: nat): Range {
    Range(r.from, if r.through < from then r.through else from - 1)
  }

  function ClipAbove(r: Range, from: nat): Range {
    Range(if r.from < from then from else r.from, r.through)
  }

  lemma {:induction false} BelowMembers(ranges: seq<Range>, from: nat, r: Range)
    ensures r in Below(ranges, from) <==> exists q :: q in ranges && q.from < from && r == ClipBelow(q, from)
  {
    if ranges != [] {
      BelowMembers(ranges[1..], from, r);
      assert ranges == [ranges[0]] + ranges[1..];
      assert forall q :: q in ranges <==> q == ranges[0] || q in ranges[1..];
    }
  }

  lemma {:induction false} AboveMembers(ranges: seq<Range>, from: nat, r: Range)
    ensures r in Above(ranges, from) <==> exists q :: q in ranges && q.through >= from && r == ClipAbove(q, from)
  {
    if ranges != [] {
      AboveMembers(ranges[1..], from, r);
      assert ranges == [ranges[0]] + ranges[1..];
      assert forall q :: q in ranges <==> q == ranges[0] || q in ranges[1..];
    }
  }

  lemma {:induction false} DeletedMembers(table: seq<Range>, from: nat, q: Range)
    ensures q in DeleteFirstFrom(table, from) <==> q in table && q.from < from
    ensures q in DeleteLastBelow(table, from) <==> q in table && q.through >= from
  {
    if table != [] {
      DeletedMembers(table[1..], from, q);
      assert table == [table[0]] + table[1..];
    }
  }

  lemma BelowTable(table: seq<Range>, coverage: seq<Range>, from: nat)
    requires forall r :: r in table <==> r in coverage
    ensures forall r :: r in UpdateLast(DeleteFirstFrom(table, from), from) <==> r in Below(coverage, from)
  {
    hide Below, DeleteFirstFrom;
    var left := DeleteFirstFrom(table, from);
    forall r ensures r in UpdateLast(left, from) <==> r in Below(coverage, from) {
      BelowMembers(coverage, from, r);
      forall q ensures q in left <==> q in table && q.from < from { DeletedMembers(table, from, q); }
      if r in UpdateLast(left, from) {
        var i :| 0 <= i < |left| && UpdateLast(left, from)[i] == r;
        assert left[i] in left && r == ClipBelow(left[i], from);
      }
      if r in Below(coverage, from) {
        var q :| q in coverage && q.from < from && r == ClipBelow(q, from);
        var i :| 0 <= i < |left| && left[i] == q;
        assert UpdateLast(left, from)[i] == r;
      }
    }
  }

  lemma AboveTable(table: seq<Range>, coverage: seq<Range>, from: nat)
    requires forall r :: r in table <==> r in coverage
    ensures forall r :: r in UpdateFirst(DeleteLastBelow(table, from), from) <==> r in Above(coverage, from)
  {
    hide Above, DeleteLastBelow;
    var left := DeleteLastBelow(table, from);
    forall r ensures r in UpdateFirst(left, from) <==> r in Above(coverage, from) {
      AboveMembers(coverage, from, r);
      forall q ensures q in left <==> q in table && q.through >= from { DeletedMembers(table, from, q); }
      if r in UpdateFirst(left, from) {
        var i :| 0 <= i < |left| && UpdateFirst(left, from)[i] == r;
        assert left[i] in left && r == ClipAbove(left[i], from);
      }
      if r in Above(coverage, from) {
        var q :| q in coverage && q.through >= from && r == ClipAbove(q, from);
        var i :| 0 <= i < |left| && left[i] == q;
        assert UpdateFirst(left, from)[i] == r;
      }
    }
  }
}
