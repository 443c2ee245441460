/**
 From one page of logs to the groups that are committed: the page is cut into chunks of at most 62 event blocks, each
 chunk is read with its boundary blocks, and its batches are what commit expects of history.
 */
module Chunking {
  import opened Blocks
  import opened Coverage
  import opened ModelTypes
  import opened ModelStore
  import opened Partitions
  import opened ModelCommit
  import opened ModelSafety
  import opened History

  const EVENT_BLOCKS: nat := 62

  ghost predicate Ascends(numbers: seq<nat>) {
    forall i, j :: 0 <= i < j < |numbers| ==> numbers[i] < numbers[j]
  }

  ghost predicate Within(numbers: seq<nat>, from: int, to: int) {
    forall i :: 0 <= i < |numbers| ==> from <= numbers[i] <= to
  }

  /** The event blocks that lie in a range. */
  function EventsOf(numbers: seq<nat>, range: Range): seq<nat> {
    if numbers == [] then []
    else EventsOf(numbers[..|numbers| - 1], range) + (if range.from <= Last(numbers) <= range.through then [Last(numbers)] else [])
  }

  lemma {:induction false} EventsOfMembers(numbers: seq<nat>, range: Range)
    requires Ascends(numbers)
    ensures Ascends(EventsOf(numbers, range))
    ensures forall n :: n in EventsOf(numbers, range) <==> n in numbers && range.from <= n <= range.through
  {
    if numbers != [] {
      var front := numbers[..|numbers| - 1];
      assert numbers == front + [Last(numbers)];
      EventsOfMembers(front, range);
      var part := EventsOf(front, range);
      forall i | 0 <= i < |part| ensures part[i] < Last(numbers) {
        assert part[i] in front;
        var k :| 0 <= k < |front| && front[k] == part[i];
        assert numbers[k] == part[i];
      }
    }
  }

  /** When the event blocks from lo to hi are those of a range, they are the slice. */
  lemma {:induction false} EventsOfSlice(numbers: seq<nat>, range: Range, lo: nat, hi: nat)
    requires lo <= hi <= |numbers|
    requires forall i :: 0 <= i < |numbers| ==> (range.from <= numbers[i] <= range.through <==> lo <= i < hi)
    ensures EventsOf(numbers, range) == numbers[lo..hi]
    decreases |numbers|
  {
    if numbers != [] {
      var front := numbers[..|numbers| - 1];
      if hi == |numbers| && lo < hi {
        EventsOfSlice(front, range, lo, hi - 1);
        assert numbers[lo..hi] == front[lo..hi - 1] + [Last(numbers)];
      } else {
        var h := if hi == |numbers| then hi - 1 else hi;
        var l := if lo == |numbers| then lo - 1 else lo;
        EventsOfSlice(front, range, l, h);
        assert numbers[lo..hi] == front[l..h];
      }
    }
  }

  /** At most 62 event blocks a chunk. */
  ghost predicate Small(numbers: seq<nat>, chunks: seq<Range>) {
    forall i :: 0 <= i < |chunks| ==> SmallAt(numbers, chunks[i])
  }

  ghost predicate SmallAt(numbers: seq<nat>, chunk: Range) {
    |EventsOf(numbers, chunk)| <= EVENT_BLOCKS
  }

  /** All chunks but the last have exactly 62 event blocks. */
  ghost predicate Full(numbers: seq<nat>, chunks: seq<Range>) {
    forall i :: 0 <= i < |chunks| ==> FullAt(numbers, chunks[i])
  }

  ghost predicate FullAt(numbers: seq<nat>, chunk: Range) {
    |EventsOf(numbers, chunk)| == EVENT_BLOCKS
  }

  /** Chunks tile the page in the direction of travel; each has 62 event blocks, the last perhaps fewer. */
  method Chunks(from: nat, to: nat, numbers: seq<nat>, forward: bool) returns (chunks: seq<Range>)
    requires from <= to && Ascends(numbers) && Within(numbers, from, to)
    ensures Tiles(chunks, from, to, forward) && Small(numbers, chunks)
    ensures chunks != [] && Full(numbers, chunks[..|chunks| - 1])
  {
    hide Tiles, SmallAt, FullAt, Ascends, Within, Reversed;
    chunks := [];
    NoTiles(from, to);
    Ends(numbers, from, to);
    if forward {
      var start: int, index := from as int, 0;
      while index < |numbers|
        invariant 0 <= index && Tiles(chunks, from, start - 1, true)
        invariant index < |numbers| ==> start <= numbers[index] && (index > 0 ==> numbers[index - 1] < start)
        invariant index >= |numbers| && chunks != [] ==> start == to + 1
        invariant chunks == [] ==> index == 0
        invariant Small(numbers, chunks) && Full(numbers, if index < |numbers| || chunks == [] then chunks else chunks[..|chunks| - 1])
      {
        var end: int := if index + EVENT_BLOCKS < |numbers| then numbers[index + EVENT_BLOCKS] - 1 else to;
        SliceChunk(numbers, start, end, index, from, to);
        TilesSnoc(chunks, Range(start, end), from, end, true);
        chunks := chunks + [Range(start, end)];
        start := end + 1;
        index := index + EVENT_BLOCKS;
      }
    } else {
      var descending := Reversed(numbers);
      var through: int, index := to as int, 0;
      while index < |descending|
        invariant 0 <= index && Tiles(chunks, through + 1, to, false)
        invariant index < |descending| ==> descending[index] <= through && (index > 0 ==> through < descending[index - 1])
        invariant index >= |descending| && chunks != [] ==> through + 1 == from
        invariant chunks == [] ==> index == 0
        invariant Small(numbers, chunks) && Full(numbers, if index < |numbers| || chunks == [] then chunks else chunks[..|chunks| - 1])
      {
        var start: int := if index + EVENT_BLOCKS < |descending| then descending[index + EVENT_BLOCKS] + 1 else from;
        DescendingChunk(numbers, start, through, index, from, to);
        TilesSnoc(chunks, Range(start, through), start, to, false);
        chunks := chunks + [Range(start, through)];
        through := start - 1;
        index := index + EVENT_BLOCKS;
      }
    }
    if |chunks| == 0 {
      TilesOne(Range(from, to), forward);
      NoEventsOf(numbers, Range(from, to));
      chunks := [Range(from, to)];
    }
  }

  function Reversed(numbers: seq<nat>): seq<nat> {
    seq(|numbers|, i requires 0 <= i < |numbers| => numbers[|numbers| - 1 - i])
  }

  lemma Ends(numbers: seq<nat>, from: int, to: int)
    requires Within(numbers, from, to)
    ensures |Reversed(numbers)| == |numbers|
    ensures numbers != [] ==> from <= numbers[0] && Reversed(numbers)[0] <= to
  {
  }

  lemma NoEventsOf(numbers: seq<nat>, range: Range)
    requires numbers == []
    ensures SmallAt(numbers, range)
  {
  }

  lemma SliceChunk(numbers: seq<nat>, start: int, end: int, index: nat, from: int, to: int)
    requires Ascends(numbers) && Within(numbers, from, to) && index < |numbers| && start <= numbers[index]
    requires index > 0 ==> numbers[index - 1] < start
    requires end == if index + EVENT_BLOCKS < |numbers| then numbers[index + EVENT_BLOCKS] - 1 else to
    ensures SmallAt(numbers, Range(start, end)) && start <= end
    ensures index + EVENT_BLOCKS < |numbers| ==> numbers[index + EVENT_BLOCKS - 1] < numbers[index + EVENT_BLOCKS]
    ensures index + EVENT_BLOCKS < |numbers| ==> FullAt(numbers, Range(start, end))
  {
    var hi := if index + EVENT_BLOCKS < |numbers| then index + EVENT_BLOCKS else |numbers|;
    EventsOfSlice(numbers, Range(start, end), index, hi);
  }

  lemma DescendingChunk(numbers: seq<nat>, start: int, through: int, index: nat, from: int, to: int)
    requires Ascends(numbers) && Within(numbers, from, to) && index < |numbers| == |Reversed(numbers)| && Reversed(numbers)[index] <= through
    requires index > 0 ==> through < Reversed(numbers)[index - 1]
    requires start == if index + EVENT_BLOCKS < |numbers| then Reversed(numbers)[index + EVENT_BLOCKS] + 1 else from
    ensures SmallAt(numbers, Range(start, through)) && start <= through
    ensures index + EVENT_BLOCKS < |numbers| ==> Reversed(numbers)[index + EVENT_BLOCKS] < Reversed(numbers)[index + EVENT_BLOCKS - 1]
    ensures index + EVENT_BLOCKS < |numbers| ==> FullAt(numbers, Range(start, through))
  {
    var lo := if index + EVENT_BLOCKS < |numbers| then |numbers| - index - EVENT_BLOCKS else 0;
    EventsOfSlice(numbers, Range(start, through), lo, |numbers| - index);
  }

  // ------------------------------------------------------------------------------------------ one chunk

  /** Places a number that is not yet there; the distinct numbers in ascending order. */
  function Include(numbers: seq<nat>, n: nat): seq<nat> {
    if numbers == [] || Last(numbers) < n then numbers + [n]
    else if Last(numbers) == n then numbers
    else Include(numbers[..|numbers| - 1], n) + [Last(numbers)]
  }

  lemma AscendsSnoc(front: seq<nat>, last: nat)
    requires Ascends(front) && forall x :: x in front ==> x < last
    ensures Ascends(front + [last])
  {
    forall i | 0 <= i < |front| ensures front[i] < last {
      assert front[i] in front;
    }
  }

  lemma AscendsFront(numbers: seq<nat>, front: seq<nat>)
    requires Ascends(numbers) && numbers != [] && front == numbers[..|numbers| - 1]
    ensures Ascends(front) && forall x :: x in front ==> x < Last(numbers)
    ensures forall x :: x in numbers <==> x in front || x == Last(numbers)
  {
    assert numbers == front + [Last(numbers)];
  }

  lemma {:induction false} IncludeKeeps(numbers: seq<nat>, n: nat)
    requires Ascends(numbers)
    ensures Ascends(Include(numbers, n)) && |Include(numbers, n)| <= |numbers| + 1
    ensures forall x :: x in Include(numbers, n) <==> x in numbers || x == n
  {
    hide Ascends;
    if numbers == [] {
      NothingAscends();
      AscendsSnoc([], n);
    } else {
      var front := numbers[..|numbers| - 1];
      AscendsFront(numbers, front);
      if Last(numbers) < n {
        AscendsSnoc(numbers, n);
      } else if Last(numbers) > n {
        IncludeKeeps(front, n);
        AscendsSnoc(Include(front, n), Last(numbers));
      }
    }
  }

  lemma NothingAscends()
    ensures Ascends([])
  {
  }

  /** The heights a chunk reads: its event blocks and its two ends. */
  function HeightsOf(events: seq<nat>, from: nat, through: nat): seq<nat> {
    Include(Include(events, from), through)
  }

  lemma AscendsEnds(numbers: seq<nat>, from: nat, through: nat)
    requires Ascends(numbers) && from in numbers && through in numbers && Within(numbers, from, through)
    ensures numbers[0] == from && Last(numbers) == through
  {
    var i :| 0 <= i < |numbers| && numbers[i] == from;
    var j :| 0 <= j < |numbers| && numbers[j] == through;
  }

  lemma HeightsAreExact(events: seq<nat>, from: nat, through: nat)
    requires Ascends(events) && Within(events, from, through) && from <= through
    ensures var heights := HeightsOf(events, from, through);
            && Ascends(heights) && (forall n :: n in heights <==> n in events || n == from || n == through)
            && heights != [] && heights[0] == from && Last(heights) == through && |heights| <= |events| + 2
  {
    hide Include;
    IncludeKeeps(events, from);
    IncludeKeeps(Include(events, from), through);
    var heights := HeightsOf(events, from, through);
    assert from in heights && through in heights;
    forall i | 0 <= i < |heights| ensures from <= heights[i] <= through {
      assert heights[i] in heights;
      if heights[i] in events {
        var k :| 0 <= k < |events| && events[k] == heights[i];
      }
    }
    AscendsEnds(heights, from, through);
  }

  function BatchesAt(chain: seq<Batch>, heights: seq<nat>): seq<Batch>
    requires forall i :: 0 <= i < |heights| ==> heights[i] < |chain|
  {
    seq(|heights|, i requires 0 <= i < |heights| => chain[heights[i]])
  }

  /** The page's event blocks are all those of its range. */
  ghost predicate AllEvents(chain: seq<Batch>, numbers: seq<nat>, from: int, to: int) {
    forall n :: 0 <= n < |chain| && from <= n <= to && chain[n].events != [] ==> n in numbers
  }

  /** One chunk: at most 64 headers, first and last its ends, and a group that commit accepts as history. */
  lemma ChunkIsGoodInput(chain: seq<Batch>, s: State, numbers: seq<nat>, chunk: Range, from: int, to: int)
    requires IsChain(chain) && Ascends(numbers) && AllEvents(chain, numbers, from, to) && SmallAt(numbers, chunk)
    requires 0 <= chunk.from <= chunk.through < |chain| && from <= chunk.from && chunk.through <= to
    ensures var heights := HeightsOf(EventsOf(numbers, chunk), chunk.from, chunk.through);
            && |heights| <= 64 && heights != [] && (forall i :: 0 <= i < |heights| ==> heights[i] < |chain|)
            && heights[0] == chunk.from && Last(heights) == chunk.through
            && GoodInput(chain, s, BatchesAt(chain, heights), false, [chunk])
  {
    hide Include, EventsOf, Covers;
    var events := EventsOf(numbers, chunk);
    EventsOfMembers(numbers, chunk);
    forall i | 0 <= i < |events| ensures chunk.from <= events[i] <= chunk.through {
      assert events[i] in events;
    }
    HeightsAreExact(events, chunk.from, chunk.through);
    var heights := HeightsOf(events, chunk.from, chunk.through);
    forall i | 0 <= i < |heights| ensures chunk.from <= heights[i] <= chunk.through {
      assert heights[i] in heights;
    }
    var batches := BatchesAt(chain, heights);
    assert NumbersOf(batches) == heights;
    forall n ensures Covers([chunk], n) <==> chunk.from <= n <= chunk.through {
      CoversOne(chunk, n);
    }
    assert Valid(chunk);
  }

  // ------------------------------------------------------------------------------------------ all chunks

  /** The coverage after the chunks have been committed one after the other. */
  function CoverageAfter(coverage: seq<Range>, numbers: seq<nat>, chunks: seq<Range>): seq<Range>
    requires forall i :: 0 <= i < |chunks| ==> 0 <= chunks[i].from <= chunks[i].through
    decreases |chunks|
  {
    if chunks == [] then coverage
    else
      var heights := HeightsOf(EventsOf(numbers, chunks[0]), chunks[0].from, chunks[0].through);
      CoverageAfter(MergeCoverage(coverage, heights, [chunks[0]]), numbers, chunks[1..])
  }

  /** Committing the chunks of a page adds exactly the page to coverage. */
  lemma {:induction false} ChunksAddWindow(coverage: seq<Range>, numbers: seq<nat>, chunks: seq<Range>, from: nat, to: int, forward: bool)
    requires Normal(coverage) && Ascends(numbers) && Tiles(chunks, from, to, forward)
    requires forall i :: 0 <= i < |chunks| ==> 0 <= chunks[i].from <= chunks[i].through
    ensures Normal(CoverageAfter(coverage, numbers, chunks))
    ensures forall n :: Covers(CoverageAfter(coverage, numbers, chunks), n) <==> Covers(coverage, n) || from <= n <= to
    decreases |chunks|
  {
    if chunks != [] {
      hide Covers, Normal, MergeCoverage, HeightsOf, EventsOf;
      var chunk := chunks[0];
      ChunkAdds(coverage, numbers, chunk);
      var heights := HeightsOf(EventsOf(numbers, chunk), chunk.from, chunk.through);
      var next := MergeCoverage(coverage, heights, [chunk]);
      TilesBounds(chunks, from, to, forward);
      if forward {
        ChunksAddWindow(next, numbers, chunks[1..], chunk.through + 1, to, true);
      } else {
        ChunksAddWindow(next, numbers, chunks[1..], from, chunk.from - 1, false);
      }
    }
  }

  lemma {:induction false} TilesBounds(chunks: seq<Range>, from: int, to: int, forward: bool)
    requires Tiles(chunks, from, to, forward)
    ensures forall i :: 0 <= i < |chunks| ==> from <= chunks[i].from <= chunks[i].through <= to
    ensures from <= to + 1
    decreases |chunks|
  {
    if chunks != [] {
      if forward {
        TilesBounds(chunks[1..], chunks[0].through + 1, to, true);
      } else {
        TilesBounds(chunks[1..], from, chunks[0].from - 1, false);
      }
      assert forall i :: 0 < i < |chunks| ==> chunks[i] == chunks[1..][i - 1];
    }
  }

  lemma ChunkAdds(coverage: seq<Range>, numbers: seq<nat>, chunk: Range)
    requires Normal(coverage) && Ascends(numbers) && 0 <= chunk.from <= chunk.through
    ensures var next := MergeCoverage(coverage, HeightsOf(EventsOf(numbers, chunk), chunk.from, chunk.through), [chunk]);
            Normal(next) && forall n :: Covers(next, n) <==> Covers(coverage, n) || chunk.from <= n <= chunk.through
  {
    hide Covers, Normal, MergeCoverage, Include, EventsOf;
    var events := EventsOf(numbers, chunk);
    EventsOfMembers(numbers, chunk);
    forall i | 0 <= i < |events| ensures chunk.from <= events[i] <= chunk.through {
      assert events[i] in events;
    }
    HeightsAreExact(events, chunk.from, chunk.through);
    var heights := HeightsOf(events, chunk.from, chunk.through);
    forall n ensures Covers([chunk], n) <==> chunk.from <= n <= chunk.through {
      CoversOne(chunk, n);
    }
    assert Valid(chunk);
    MergeCoverageAgrees(coverage, heights, [chunk]);
    assert forall n :: n in heights ==> chunk.from <= n <= chunk.through;
  }
}
