/**
 When a time partition may be published as closed and complete. The decision works from sparse batches and from coverage
 kept apart from them; here it is shown sound against the canonical chain the batches were taken from.
 */
module Partitions {
  import opened Blocks
  import opened Coverage
  import opened ModelTypes

  // ------------------------------------------------------------------------------------------ sorted batches

  lemma {:induction false} HasMax(s: set<nat>)
    requires s != {}
    ensures exists k :: k in s && forall j :: j in s ==> j <= k
  {
    var x :| x in s;
    var rest := s - {x};
    if rest == {} {
      assert s == {x};
    } else {
      HasMax(rest);
      var k :| k in rest && forall j :: j in rest ==> j <= k;
      var top := if k > x then k else x;
      assert forall j :: j in s ==> j == x || j in rest;
      assert top in s;
    }
  }

  function MaxKey(m: map<nat, Batch>): (k: nat)
    requires m != map[]
    ensures k in m && forall j :: j in m ==> j <= k
  {
    assert m.Keys != {};
    HasMax(m.Keys);
    var k :| k in m && forall j :: j in m ==> j <= k;
    k
  }

  /** The batches in block order. */
  function Ascending(m: map<nat, Batch>): seq<Batch>
    decreases |m|
  {
    if m == map[] then []
    else
      var k := MaxKey(m);
      assert |m - {k}| < |m| by { assert (m - {k}).Keys == m.Keys - {k}; }
      Ascending(m - {k}) + [m[k]]
  }

  /** A query for one batch: the highest at or below n, or the lowest at or above it. */
  function LastAtMost(batches: seq<Batch>, n: int): Option<Batch> {
    if batches == [] then None
    else if Last(batches).block.number <= n then Some(Last(batches))
    else LastAtMost(batches[..|batches| - 1], n)
  }

  function FirstAtLeast(batches: seq<Batch>, n: int): Option<Batch> {
    if batches == [] then None
    else if batches[0].block.number >= n then Some(batches[0])
    else FirstAtLeast(batches[1..], n)
  }

  function Flat(batches: seq<Batch>): seq<Event> {
    if batches == [] then [] else Flat(batches[..|batches| - 1]) + Last(batches).events
  }

  predicate InPeriod(block: Header, start: nat, end: nat) {
    start <= block.timestamp < end
  }

  // ------------------------------------------------------------------------------------------ the decision

  /** What one commit knows when it looks at a period of one projection. */
  datatype Context = Context(
    live: bool,
    joined: seq<Batch>,
    applied: Option<Header>,
    progress: Header,
    coverage: seq<Range>,
    origin: Option<nat>,
    fromOrigin: bool,
    hasLive: bool,
    liveFrom: Option<nat>,
    liveBoundary: Option<Header>)

  datatype Verdict = Skip | Publish(closed: bool, complete: bool, batches: seq<Batch>)

  predicate Spans(coverage: seq<Range>, lo: int, hi: int) {
    exists i :: 0 <= i < |coverage| && coverage[i].from <= lo && coverage[i].through >= hi
  }

  function LastBefore(joined: seq<Batch>, time: nat): Option<Header> {
    if joined == [] then None
    else if Last(joined).block.timestamp < time then Some(Last(joined).block)
    else LastBefore(joined[..|joined| - 1], time)
  }

  function FirstFrom(joined: seq<Batch>, time: nat): Option<Header> {
    if joined == [] then None
    else if joined[0].block.timestamp >= time then Some(joined[0].block)
    else FirstFrom(joined[1..], time)
  }

  function HeaderOf(batch: Option<Batch>): Option<Header> {
    if batch.Some? then Some(batch.value.block) else None
  }

  function Either<T>(a: Option<T>, b: Option<T>): Option<T> { if a.Some? then a else b }

  /** A period with no batch of its own closes between two known neighbours with nothing unknown between them. */
  predicate ClosesEmpty(c: Context, start: nat, end: nat) {
    var before := Either(LastBefore(c.joined, start), if c.live then c.applied else None);
    var after := FirstFrom(c.joined, end);
    && before.Some? && after.Some?
    && before.value.timestamp < start && after.value.timestamp >= end
    && (before.value.number + 1 == after.value.number || Spans(c.coverage, before.value.number, after.value.number))
  }

  /** The clauses, other than the live boundary's, under which nothing before the first batch is missing. */
  predicate StartKnown(c: Context, start: nat, first: Header, before: Option<Header>) {
    || first.number == 0
    || (c.origin == Some(first.number) && (first.number == 0 || c.fromOrigin))
    || (before.Some? && before.value.timestamp < start && Spans(c.coverage, before.value.number, first.number))
    || (c.live && c.applied.Some? && c.applied.value.number == first.number - 1 && c.applied.value.timestamp < start)
  }

  predicate AtLiveBoundary(c: Context, start: nat) {
    c.liveBoundary.Some? && c.liveFrom == Some(start) && c.liveBoundary.value.timestamp < start
  }

  function Before(c: Context, start: nat, first: Header, stored: Option<Batch>): Option<Header> {
    if first.number == 0 then None else Either(LastBefore(c.joined, start), HeaderOf(stored))
  }

  predicate EndKnown(c: Context, end: nat, first: Header, stored: Option<Batch>) {
    var closes := c.progress.timestamp >= end;
    var after := Either(FirstFrom(c.joined, end), HeaderOf(stored));
    var through := if !closes then Some(c.progress.number) else if after.Some? then Some(after.value.number) else None;
    && through.Some? && Spans(c.coverage, first.number, through.value)
    && (!closes || (after.Some? && after.value.timestamp >= end))
  }

  /**
   The decision for the period [start, end) whose known batches, in order, are `ordered`; `beforeStored` and
   `afterStored` are the stored batches next to them.
   */
  function Judge(c: Context, start: nat, end: nat, ordered: seq<Batch>, beforeStored: Option<Batch>, afterStored: Option<Batch>): Verdict {
    if c.live && c.liveFrom.None? then Skip
    else if ordered == [] then (if ClosesEmpty(c, start, end) then Publish(true, true, []) else Skip)
    else
      var first := ordered[0].block;
      var startsCovered := StartKnown(c, start, first, Before(c, start, first, beforeStored)) || AtLiveBoundary(c, start);
      var complete := startsCovered && EndKnown(c, end, first, afterStored);
      var closes := c.progress.timestamp >= end;
      if closes && !complete then Skip
      else if !c.live && c.hasLive && !closes then Skip
      else Publish(closes, complete, ordered)
  }

  // ------------------------------------------------------------------------------------------ the canonical chain

  /** Every block from height 0, with its events; timestamps do not decrease. */
  ghost predicate IsChain(chain: seq<Batch>) {
    && (forall i :: 0 <= i < |chain| ==> chain[i].block.number == i)
    && (forall i, j :: 0 <= i <= j < |chain| ==> chain[i].block.timestamp <= chain[j].block.timestamp)
  }

  predicate OnChain(chain: seq<Batch>, block: Header) {
    block.number < |chain| && chain[block.number].block == block
  }

  predicate MaybeOnChain(chain: seq<Batch>, block: Option<Header>) {
    block.Some? ==> OnChain(chain, block.value)
  }

  /** The events of every canonical block of the period, in block order. */
  function EventsIn(chain: seq<Batch>, start: nat, end: nat): seq<Event> {
    if chain == [] then []
    else EventsIn(chain[..|chain| - 1], start, end)
         + (if InPeriod(Last(chain).block, start, end) then Last(chain).events else [])
  }

  /** A block of the period that has events. */
  predicate Eventful(chain: seq<Batch>, n: int, start: nat, end: nat) {
    0 <= n < |chain| && InPeriod(chain[n].block, start, end) && chain[n].events != []
  }

  /** Known batches of the period: canonical blocks that lie in it. */
  ghost predicate PartOf(chain: seq<Batch>, known: map<nat, Batch>, start: nat, end: nat) {
    forall n :: n in known ==> n < |chain| && known[n] == chain[n] && InPeriod(chain[n].block, start, end)
  }

  /** No event block of the period is missing from the known ones. */
  ghost predicate NoneMissing(chain: seq<Batch>, known: map<nat, Batch>, start: nat, end: nat) {
    forall n :: Eventful(chain, n, start, end) ==> n in known
  }

  /** The invariant the decision rests on: an event block of the period inside coverage is known. */
  ghost predicate CoveredIsKnown(chain: seq<Batch>, coverage: seq<Range>, known: map<nat, Batch>, start: nat, end: nat) {
    forall n :: Eventful(chain, n, start, end) && Covers(coverage, n) ==> n in known
  }

  /** Nothing happens before the origin that a definition resolves. */
  ghost predicate OriginFirst(chain: seq<Batch>, c: Context) {
    c.fromOrigin && c.origin.Some? ==> forall n :: 0 <= n < |chain| && n < c.origin.value ==> chain[n].events == []
  }

  ghost predicate JoinedOnChain(chain: seq<Batch>, joined: seq<Batch>) {
    forall i :: 0 <= i < |joined| ==> OnChain(chain, joined[i].block)
  }

  /** Everything a commit knows was read from this chain. */
  ghost predicate ReadFrom(chain: seq<Batch>, c: Context, beforeStored: Option<Batch>, afterStored: Option<Batch>) {
    && IsChain(chain) && JoinedOnChain(chain, c.joined)
    && MaybeOnChain(chain, c.applied) && OnChain(chain, c.progress) && MaybeOnChain(chain, c.liveBoundary)
    && MaybeOnChain(chain, HeaderOf(beforeStored)) && MaybeOnChain(chain, HeaderOf(afterStored))
    && OriginFirst(chain, c)
  }

  // ------------------------------------------------------------------------------------------ events of a stretch

  lemma {:induction false} EventsConcat(a: seq<Batch>, b: seq<Batch>, start: nat, end: nat)
    ensures EventsIn(a + b, start, end) == EventsIn(a, start, end) + EventsIn(b, start, end)
  {
    if b == [] {
      assert a + b == a;
    } else {
      assert (a + b)[..|a + b| - 1] == a + b[..|b| - 1];
      EventsConcat(a, b[..|b| - 1], start, end);
    }
  }

  lemma {:induction false} NoEvents(tail: seq<Batch>, start: nat, end: nat)
    ensures EventsIn(tail, start, end) == [] <==> forall i :: 0 <= i < |tail| ==> !Eventful(tail, i, start, end)
  {
    if tail != [] {
      var front := tail[..|tail| - 1];
      NoEvents(front, start, end);
      assert forall i :: 0 <= i < |front| ==> (Eventful(front, i, start, end) <==> Eventful(tail, i, start, end));
      assert EventsIn(tail, start, end) == [] <==> EventsIn(front, start, end) == [] && !Eventful(tail, |tail| - 1, start, end);
    }
  }

  lemma TailEvents(chain: seq<Batch>, from: nat, start: nat, end: nat)
    requires from <= |chain|
    ensures EventsIn(chain, start, end) == EventsIn(chain[..from], start, end) + EventsIn(chain[from..], start, end)
    ensures EventsIn(chain[from..], start, end) == [] <==> forall n :: n >= from ==> !Eventful(chain, n, start, end)
  {
    hide EventsIn;
    assert chain == chain[..from] + chain[from..];
    EventsConcat(chain[..from], chain[from..], start, end);
    NoEvents(chain[from..], start, end);
    forall n: nat | n >= from ensures Eventful(chain, n, start, end) <==> Eventful(chain[from..], n - from, start, end) {
    }
    forall i | 0 <= i < |chain| - from ensures Eventful(chain[from..], i, start, end) <==> Eventful(chain, from + i, start, end) {
    }
  }

  // ------------------------------------------------------------------------------------------ known batches

  lemma AscendingMax(m: map<nat, Batch>, k: nat)
    requires k in m && forall j :: j in m ==> j <= k
    ensures Ascending(m) == Ascending(m - {k}) + [m[k]]
  {
    assert MaxKey(m) == k;
  }

  function Under(known: map<nat, Batch>, n: nat): map<nat, Batch> {
    map k | k in known && k < n :: known[k]
  }

  /** Height by height: the next batch, if known, goes last. */
  lemma UnderNext(known: map<nat, Batch>, n: nat, next: nat)
    requires next == n + 1
    ensures Flat(Ascending(Under(known, next)))
         == Flat(Ascending(Under(known, n))) + (if n in known then known[n].events else [])
  {
    hide Ascending, Flat;
    var part: map<nat, Batch> := Under(known, next);
    if n in known {
      var rest: map<nat, Batch> := part - {n};
      assert rest == Under(known, n) && part[n] == known[n];
      AscendingMax(part, n);
      FlatAppend(Ascending(Under(known, n)), known[n]);
    } else {
      assert part == Under(known, n);
    }
  }

  lemma EventsNext(chain: seq<Batch>, start: nat, end: nat, n: nat)
    requires n < |chain|
    ensures EventsIn(chain[..n + 1], start, end)
         == EventsIn(chain[..n], start, end) + (if InPeriod(chain[n].block, start, end) then chain[n].events else [])
  {
    assert chain[..n + 1][..n] == chain[..n];
  }

  lemma {:induction false} FlatIsExact(chain: seq<Batch>, known: map<nat, Batch>, start: nat, end: nat, n: nat)
    requires n <= |chain| && PartOf(chain, known, start, end) && NoneMissing(chain, known, start, end)
    ensures Flat(Ascending(Under(known, n))) == EventsIn(chain[..n], start, end)
  {
    if n == 0 {
      assert Under(known, 0) == map[];
    } else {
      hide Ascending, Flat, Under, EventsIn;
      FlatIsExact(chain, known, start, end, n - 1);
      UnderNext(known, n - 1, n);
      EventsNext(chain, start, end, n - 1);
      assert n - 1 in known || !Eventful(chain, n - 1, start, end);
    }
  }

  lemma FlatAppend(batches: seq<Batch>, batch: Batch)
    ensures Flat(batches + [batch]) == Flat(batches) + batch.events
  {
    assert (batches + [batch])[..|batches|] == batches;
  }

  lemma ExactWhenNoneMissing(chain: seq<Batch>, known: map<nat, Batch>, start: nat, end: nat)
    requires PartOf(chain, known, start, end) && NoneMissing(chain, known, start, end)
    ensures Flat(Ascending(known)) == EventsIn(chain, start, end)
  {
    FlatIsExact(chain, known, start, end, |chain|);
    assert Under(known, |chain|) == known;
    assert chain[..|chain|] == chain;
  }

  // ------------------------------------------------------------------------------------------ soundness

  lemma SpanCovers(coverage: seq<Range>, lo: int, hi: int)
    requires Spans(coverage, lo, hi)
    ensures forall n :: lo <= n <= hi ==> Covers(coverage, n)
  {
  }

  lemma {:induction false} FoundOnChain(chain: seq<Batch>, joined: seq<Batch>, time: nat)
    requires JoinedOnChain(chain, joined)
    ensures MaybeOnChain(chain, LastBefore(joined, time))
    ensures LastBefore(joined, time).Some? ==> LastBefore(joined, time).value.timestamp < time
    decreases |joined|
  {
    if joined != [] {
      FoundOnChain(chain, joined[..|joined| - 1], time);
    }
  }

  lemma {:induction false} FirstOnChain(chain: seq<Batch>, joined: seq<Batch>, time: nat)
    requires JoinedOnChain(chain, joined)
    ensures MaybeOnChain(chain, FirstFrom(joined, time))
    ensures FirstFrom(joined, time).Some? ==> FirstFrom(joined, time).value.timestamp >= time
    decreases |joined|
  {
    if joined != [] {
      FirstOnChain(chain, joined[1..], time);
    }
  }

  lemma {:induction false} AscendingHead(known: map<nat, Batch>)
    requires forall n :: n in known ==> known[n].block.number == n
    ensures Ascending(known) == [] <==> known == map[]
    ensures known != map[] ==>
              var first := Ascending(known)[0].block.number;
              first in known && known[first] == Ascending(known)[0] && forall n :: n in known ==> first <= n
    decreases |known|
  {
    if known != map[] {
      var k := MaxKey(known);
      var rest := known - {k};
      assert rest.Keys == known.Keys - {k};
      AscendingHead(rest);
      assert Ascending(known) == Ascending(rest) + [known[k]];
      assert forall n :: n in known ==> n == k || n in rest;
      assert forall n :: n in rest ==> n in known && rest[n] == known[n];
      if rest != map[] {
        assert Ascending(known)[0] == Ascending(rest)[0];
      } else {
        assert known.Keys == {k};
      }
    }
  }

  /** A block between two others in height lies between them in time; one strictly later in time is higher. */
  lemma InOrder(chain: seq<Batch>, a: Header, n: nat)
    requires IsChain(chain) && OnChain(chain, a) && n < |chain|
    ensures chain[n].block.timestamp > a.timestamp ==> n > a.number
    ensures chain[n].block.timestamp < a.timestamp ==> n < a.number
  {
  }

  lemma EmptyPeriodSound(chain: seq<Batch>, c: Context, start: nat, end: nat)
    requires ReadFrom(chain, c, None, None) && ClosesEmpty(c, start, end)
    requires CoveredIsKnown(chain, c.coverage, map[], start, end)
    ensures NoneMissing(chain, map[], start, end)
  {
    hide IsChain, LastBefore, FirstFrom, Spans, Covers;
    FoundOnChain(chain, c.joined, start);
    FirstOnChain(chain, c.joined, end);
    var before := Either(LastBefore(c.joined, start), if c.live then c.applied else None).value;
    var after := FirstFrom(c.joined, end).value;
    if Spans(c.coverage, before.number, after.number) {
      SpanCovers(c.coverage, before.number, after.number);
    }
    var none: map<nat, Batch> := map[];
    forall n | Eventful(chain, n, start, end) ensures n in none {
      InOrder(chain, before, n);
      InOrder(chain, after, n);
    }
  }

  /** Nothing of the period precedes the first known batch, when one of the sound clauses holds. */
  lemma StartSound(chain: seq<Batch>, c: Context, start: nat, end: nat, known: map<nat, Batch>, first: Header,
                   beforeStored: Option<Batch>, afterStored: Option<Batch>)
    requires ReadFrom(chain, c, beforeStored, afterStored)
    requires CoveredIsKnown(chain, c.coverage, known, start, end)
    requires StartKnown(c, start, first, Before(c, start, first, beforeStored))
    ensures forall n :: Eventful(chain, n, start, end) && n < first.number ==> n in known
  {
    hide IsChain, LastBefore, FirstFrom, Spans, Covers;
    FoundOnChain(chain, c.joined, start);
    var before := Before(c, start, first, beforeStored);
    if before.Some? && Spans(c.coverage, before.value.number, first.number) {
      SpanCovers(c.coverage, before.value.number, first.number);
    }
    forall n | Eventful(chain, n, start, end) && n < first.number ensures n in known {
      if before.Some? && before.value.timestamp < start {
        InOrder(chain, before.value, n);
      }
      if c.applied.Some? && c.applied.value.timestamp < start {
        InOrder(chain, c.applied.value, n);
      }
    }
  }

  /** From the first known batch on, coverage reaches a block past the end of the period. */
  lemma EndSound(chain: seq<Batch>, c: Context, start: nat, end: nat, known: map<nat, Batch>, first: Header,
                 beforeStored: Option<Batch>, afterStored: Option<Batch>)
    requires ReadFrom(chain, c, beforeStored, afterStored)
    requires CoveredIsKnown(chain, c.coverage, known, start, end)
    requires c.progress.timestamp >= end && EndKnown(c, end, first, afterStored)
    ensures forall n :: Eventful(chain, n, start, end) && n >= first.number ==> n in known
  {
    hide IsChain, LastBefore, FirstFrom, Spans, Covers;
    FirstOnChain(chain, c.joined, end);
    var after := Either(FirstFrom(c.joined, end), HeaderOf(afterStored)).value;
    SpanCovers(c.coverage, first.number, after.number);
    forall n | Eventful(chain, n, start, end) && n >= first.number ensures n in known {
      InOrder(chain, after, n);
    }
  }

  ghost predicate BeforeAll(n: int, known: map<nat, Batch>) {
    forall k :: k in known ==> n < k
  }

  /** What the live-boundary clause takes for granted: from the boundary to the first known batch nothing is missing. */
  ghost predicate BoundaryIntact(chain: seq<Batch>, c: Context, start: nat, end: nat, known: map<nat, Batch>) {
    AtLiveBoundary(c, start) ==>
      forall n :: Eventful(chain, n, start, end) && c.liveBoundary.value.number < n && BeforeAll(n, known) ==> n in known
  }

  /**
   A period published as closed and complete: the events handed to the projection are exactly those of every
   canonical block of the period, in block order, empty periods included.
   */
  lemma PublishedIsExact(chain: seq<Batch>, c: Context, start: nat, end: nat, known: map<nat, Batch>,
                         beforeStored: Option<Batch>, afterStored: Option<Batch>)
    requires ReadFrom(chain, c, beforeStored, afterStored) && PartOf(chain, known, start, end)
    requires CoveredIsKnown(chain, c.coverage, known, start, end) && BoundaryIntact(chain, c, start, end, known)
    requires var v := Judge(c, start, end, Ascending(known), beforeStored, afterStored); v.Publish? && v.closed
    ensures var v := Judge(c, start, end, Ascending(known), beforeStored, afterStored);
            v.complete && Flat(v.batches) == EventsIn(chain, start, end)
  {
    hide IsChain, LastBefore, FirstFrom, Spans, Covers, ClosesEmpty, StartKnown, EndKnown, Ascending, Flat, EventsIn;
    var ordered := Ascending(known);
    PartNumbers(chain, known, start, end);
    AscendingHead(known);
    if known == map[] {
      EmptyPeriodSound(chain, c, start, end);
    } else {
      var first := ordered[0].block;
      EndSound(chain, c, start, end, known, first, beforeStored, afterStored);
      if StartKnown(c, start, first, Before(c, start, first, beforeStored)) {
        StartSound(chain, c, start, end, known, first, beforeStored, afterStored);
      } else {
        BoundarySound(chain, c, start, end, known, first);
      }
    }
    assert NoneMissing(chain, known, start, end);
    ExactWhenNoneMissing(chain, known, start, end);
  }

  lemma PartNumbers(chain: seq<Batch>, known: map<nat, Batch>, start: nat, end: nat)
    requires IsChain(chain) && PartOf(chain, known, start, end)
    ensures forall n :: n in known ==> known[n].block.number == n
  {
  }

  lemma BoundarySound(chain: seq<Batch>, c: Context, start: nat, end: nat, known: map<nat, Batch>, first: Header)
    requires IsChain(chain) && MaybeOnChain(chain, c.liveBoundary)
    requires BoundaryIntact(chain, c, start, end, known) && AtLiveBoundary(c, start)
    requires forall n :: n in known ==> first.number <= n
    ensures forall n :: Eventful(chain, n, start, end) && n < first.number ==> n in known
  {
    forall n | Eventful(chain, n, start, end) && n < first.number ensures n in known {
      InOrder(chain, c.liveBoundary.value, n);
    }
  }
}
