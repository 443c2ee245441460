/**
 When is a period published as closed sound whatever the chain? Exactly when coverage reaches down from its first
 known batch to the last block known to precede the period. The live-boundary clause does not ask for that.
 */
module LiveBoundary {
  import opened Blocks
  import opened Coverage
  import opened ModelTypes
  import opened Partitions

  predicate EarlyBy(h: Option<Header>, start: nat, n: int) {
    h.Some? && h.value.timestamp < start && n <= h.value.number
  }

  /** A header that the decision has in hand shows that height n precedes the period. */
  predicate Early(c: Context, before: Option<Batch>, after: Option<Batch>, start: nat, n: int) {
    || (exists i :: 0 <= i < |c.joined| && EarlyBy(Some(c.joined[i].block), start, n))
    || EarlyBy(c.applied, start, n) || EarlyBy(Some(c.progress), start, n) || EarlyBy(c.liveBoundary, start, n)
    || EarlyBy(HeaderOf(before), start, n) || EarlyBy(HeaderOf(after), start, n)
  }

  predicate BeforeOrigin(c: Context, n: int) {
    c.fromOrigin && c.origin.Some? && n < c.origin.value
  }

  /** Every height below the first known batch precedes the period or the origin, or is covered. */
  ghost predicate GapCovered(c: Context, start: nat, first: Header, before: Option<Batch>, after: Option<Batch>) {
    forall n :: 0 <= n < first.number && !Early(c, before, after, start, n) && !BeforeOrigin(c, n) ==> Covers(c.coverage, n)
  }

  /** A chain from which everything the decision knows can have been read. */
  ghost predicate Fits(chain: seq<Batch>, c: Context, start: nat, end: nat, known: map<nat, Batch>, before: Option<Batch>, after: Option<Batch>) {
    && ReadFrom(chain, c, before, after) && PartOf(chain, known, start, end)
    && CoveredIsKnown(chain, c.coverage, known, start, end)
  }

  lemma EarlyPrecedes(chain: seq<Batch>, c: Context, start: nat, before: Option<Batch>, after: Option<Batch>, n: nat)
    requires ReadFrom(chain, c, before, after) && Early(c, before, after, start, n) && n < |chain|
    ensures chain[n].block.timestamp < start
  {
    hide OriginFirst;
    if exists i :: 0 <= i < |c.joined| && EarlyBy(Some(c.joined[i].block), start, n) {
      var i :| 0 <= i < |c.joined| && EarlyBy(Some(c.joined[i].block), start, n);
      assert OnChain(chain, c.joined[i].block);
    }
  }

  /** A covered gap is all that the live-boundary clause takes for granted. */
  lemma GapIsIntact(chain: seq<Batch>, c: Context, start: nat, end: nat, known: map<nat, Batch>, before: Option<Batch>, after: Option<Batch>)
    requires Fits(chain, c, start, end, known, before, after) && known != map[]
    requires Ascending(known) != [] && GapCovered(c, start, Ascending(known)[0].block, before, after)
    ensures BoundaryIntact(chain, c, start, end, known)
  {
    hide Early, Ascending, IsChain, Covers, AtLiveBoundary;
    PartNumbers(chain, known, start, end);
    AscendingHead(known);
    var first := Ascending(known)[0].block;
    forall n | Eventful(chain, n, start, end) && BeforeAll(n, known) ensures n in known {
      assert n < first.number;
      if Early(c, before, after, start, n) {
        EarlyPrecedes(chain, c, start, before, after, n);
      }
      assert Covers(c.coverage, n);
    }
  }

  // ------------------------------------------------------------------------------------------ a chain that refutes

  /** The chain rewritten below the first known batch: block n falls in the period with the given events. */
  function Rewritten(chain: seq<Batch>, c: Context, before: Option<Batch>, after: Option<Batch>, start: nat, first: nat,
                     n: nat, events: seq<Event>): seq<Batch> {
    seq(|chain|, k requires 0 <= k < |chain| => RewrittenAt(chain[k], c, before, after, start, first, n, events, k))
  }

  function RewrittenAt(b: Batch, c: Context, before: Option<Batch>, after: Option<Batch>, start: nat, first: nat,
                       n: nat, events: seq<Event>, k: nat): Batch {
    if k >= first || Early(c, before, after, start, k) then b
    else Batch(b.block.(timestamp := if b.block.timestamp < start then start else b.block.timestamp), if k == n then events else [])
  }

  /** What is known cannot tell the rewritten chain from the first one. */
  lemma RewrittenFits(chain: seq<Batch>, c: Context, start: nat, end: nat, known: map<nat, Batch>, before: Option<Batch>,
                      after: Option<Batch>, first: nat, n: nat, events: seq<Event>)
    requires Fits(chain, c, start, end, known, before, after) && first in known && forall k :: k in known ==> first <= k
    requires n < first && !Early(c, before, after, start, n) && !BeforeOrigin(c, n) && !Covers(c.coverage, n)
    ensures Fits(Rewritten(chain, c, before, after, start, first, n, events), c, start, end, known, before, after)
  {
    hide Early, Covers;
    var to := Rewritten(chain, c, before, after, start, first, n, events);
    RewrittenChain(chain, c, start, end, known, before, after, first, n, events);
    RewrittenHeaders(chain, c, start, end, known, before, after, first, n, events);
    forall k | Eventful(to, k, start, end) && Covers(c.coverage, k) ensures k in known {
      if Early(c, before, after, start, k) {
        EarlyPrecedes(to, c, start, before, after, k);
      }
      assert Eventful(chain, k, start, end);
    }
  }

  lemma EarlyDown(c: Context, before: Option<Batch>, after: Option<Batch>, start: nat, i: int, j: int)
    requires i <= j && Early(c, before, after, start, j)
    ensures Early(c, before, after, start, i)
  {
    if exists k :: 0 <= k < |c.joined| && EarlyBy(Some(c.joined[k].block), start, j) {
      var k :| 0 <= k < |c.joined| && EarlyBy(Some(c.joined[k].block), start, j);
      assert EarlyBy(Some(c.joined[k].block), start, i);
    }
  }

  lemma RewrittenChain(chain: seq<Batch>, c: Context, start: nat, end: nat, known: map<nat, Batch>, before: Option<Batch>,
                       after: Option<Batch>, first: nat, n: nat, events: seq<Event>)
    requires IsChain(chain) && PartOf(chain, known, start, end) && first in known
    ensures IsChain(Rewritten(chain, c, before, after, start, first, n, events))
  {
    hide Early;
    var to := Rewritten(chain, c, before, after, start, first, n, events);
    forall i, j | 0 <= i <= j < |to| ensures to[i].block.timestamp <= to[j].block.timestamp {
      if j < first && Early(c, before, after, start, j) {
        EarlyDown(c, before, after, start, i, j);
      }
      assert chain[first].block.timestamp >= start;
    }
  }

  lemma HeaderKept(chain: seq<Batch>, c: Context, before: Option<Batch>, after: Option<Batch>, start: nat, first: nat,
                   n: nat, events: seq<Event>, h: Header)
    requires OnChain(chain, h)
    requires h.timestamp < start ==> Early(c, before, after, start, h.number)
    ensures OnChain(Rewritten(chain, c, before, after, start, first, n, events), h)
  {
    hide Early;
  }

  lemma RewrittenHeaders(chain: seq<Batch>, c: Context, start: nat, end: nat, known: map<nat, Batch>, before: Option<Batch>,
                         after: Option<Batch>, first: nat, n: nat, events: seq<Event>)
    requires Fits(chain, c, start, end, known, before, after) && first in known && forall k :: k in known ==> first <= k
    requires !BeforeOrigin(c, n)
    ensures var to := Rewritten(chain, c, before, after, start, first, n, events);
            && JoinedOnChain(to, c.joined) && MaybeOnChain(to, c.applied) && OnChain(to, c.progress) && MaybeOnChain(to, c.liveBoundary)
            && MaybeOnChain(to, HeaderOf(before)) && MaybeOnChain(to, HeaderOf(after)) && OriginFirst(to, c)
            && PartOf(to, known, start, end)
  {
    var to := Rewritten(chain, c, before, after, start, first, n, events);
    JoinedKept(chain, c, before, after, start, first, n, events);
    OthersKept(chain, c, before, after, start, first, n, events);
  }

  lemma JoinedKept(chain: seq<Batch>, c: Context, before: Option<Batch>, after: Option<Batch>, start: nat, first: nat,
                   n: nat, events: seq<Event>)
    requires JoinedOnChain(chain, c.joined)
    ensures JoinedOnChain(Rewritten(chain, c, before, after, start, first, n, events), c.joined)
  {
    hide Rewritten, OnChain;
    forall i | 0 <= i < |c.joined| ensures OnChain(Rewritten(chain, c, before, after, start, first, n, events), c.joined[i].block) {
      assert c.joined[i].block.timestamp < start ==> EarlyBy(Some(c.joined[i].block), start, c.joined[i].block.number);
      HeaderKept(chain, c, before, after, start, first, n, events, c.joined[i].block);
    }
  }

  lemma OthersKept(chain: seq<Batch>, c: Context, before: Option<Batch>, after: Option<Batch>, start: nat, first: nat,
                   n: nat, events: seq<Event>)
    requires ReadFrom(chain, c, before, after) && !BeforeOrigin(c, n)
    ensures var to := Rewritten(chain, c, before, after, start, first, n, events);
            && MaybeOnChain(to, c.applied) && OnChain(to, c.progress) && MaybeOnChain(to, c.liveBoundary)
            && MaybeOnChain(to, HeaderOf(before)) && MaybeOnChain(to, HeaderOf(after)) && OriginFirst(to, c)
  {
    var to := Rewritten(chain, c, before, after, start, first, n, events);
    forall h: Option<Header> | h in {c.applied, Some(c.progress), c.liveBoundary, HeaderOf(before), HeaderOf(after)}
      ensures MaybeOnChain(to, h)
    {
      if h.Some? {
        HeaderKept(chain, c, before, after, start, first, n, events, h.value);
      }
    }
  }

  /** An event more in one block of the period is an event more in the period. */
  lemma {:induction false} OneEventMore(a: seq<Batch>, b: seq<Batch>, start: nat, end: nat, n: nat)
    requires |a| == |b| && forall k :: 0 <= k < |a| ==> a[k].block == b[k].block && (k != n ==> a[k].events == b[k].events)
    requires n < |a| ==> InPeriod(a[n].block, start, end) && a[n].events == [] && |b[n].events| == 1
    ensures |EventsIn(b, start, end)| == |EventsIn(a, start, end)| + (if n < |a| then 1 else 0)
  {
    if a != [] {
      OneEventMore(a[..|a| - 1], b[..|b| - 1], start, end, n);
    }
  }

  /**
   A period with a known batch, published as closed, is exact on every chain it can have been read from if and
   only if its gap is covered.
   */
  lemma SoundIffGapCovered(base: seq<Batch>, c: Context, start: nat, end: nat, known: map<nat, Batch>, before: Option<Batch>, after: Option<Batch>)
    requires Fits(base, c, start, end, known, before, after) && known != map[] && Ascending(known) != []
    requires var v := Judge(c, start, end, Ascending(known), before, after); v.Publish? && v.closed
    ensures var v := Judge(c, start, end, Ascending(known), before, after);
            (forall chain :: Fits(chain, c, start, end, known, before, after) ==> Flat(v.batches) == EventsIn(chain, start, end))
            <==> GapCovered(c, start, Ascending(known)[0].block, before, after)
  {
    hide *;
    if GapCovered(c, start, Ascending(known)[0].block, before, after) {
      forall chain | Fits(chain, c, start, end, known, before, after)
        ensures Flat(Judge(c, start, end, Ascending(known), before, after).batches) == EventsIn(chain, start, end)
      {
        GapIsIntact(chain, c, start, end, known, before, after);
        FitsParts(chain, c, start, end, known, before, after);
        PublishedIsExact(chain, c, start, end, known, before, after);
      }
    } else {
      UncoveredGap(base, c, start, end, known, before, after);
    }
  }

  lemma FitsParts(chain: seq<Batch>, c: Context, start: nat, end: nat, known: map<nat, Batch>, before: Option<Batch>, after: Option<Batch>)
    requires Fits(chain, c, start, end, known, before, after)
    ensures ReadFrom(chain, c, before, after) && PartOf(chain, known, start, end)
    ensures CoveredIsKnown(chain, c.coverage, known, start, end)
  {
  }

  /** A height of the gap that is not covered: two chains that fit have different events in the period. */
  lemma UncoveredGap(base: seq<Batch>, c: Context, start: nat, end: nat, known: map<nat, Batch>, before: Option<Batch>, after: Option<Batch>)
    requires Fits(base, c, start, end, known, before, after) && known != map[] && Ascending(known) != []
    requires !GapCovered(c, start, Ascending(known)[0].block, before, after)
    ensures exists a, b :: Fits(a, c, start, end, known, before, after) && Fits(b, c, start, end, known, before, after)
                           && EventsIn(a, start, end) != EventsIn(b, start, end)
  {
    hide Fits, Early, BeforeOrigin, Covers, EventsIn, Ascending, Rewritten;
    FitsParts(base, c, start, end, known, before, after);
    PartNumbers(base, known, start, end);
    AscendingHead(known);
    var first := Ascending(known)[0].block.number;
    var n: nat :| n < first && !Early(c, before, after, start, n) && !BeforeOrigin(c, n) && !Covers(c.coverage, n);
    var a := Rewritten(base, c, before, after, start, first, n, []);
    var b := Rewritten(base, c, before, after, start, first, n, [0]);
    RewrittenFits(base, c, start, end, known, before, after, first, n, []);
    RewrittenFits(base, c, start, end, known, before, after, first, n, [0]);
    RewrittenDiffers(base, c, start, end, known, before, after, first, n);
    OneEventMore(a, b, start, end, n);
  }

  lemma RewrittenDiffers(chain: seq<Batch>, c: Context, start: nat, end: nat, known: map<nat, Batch>, before: Option<Batch>,
                         after: Option<Batch>, first: nat, n: nat)
    requires IsChain(chain) && PartOf(chain, known, start, end) && first in known && n < first && !Early(c, before, after, start, n)
    ensures var a := Rewritten(chain, c, before, after, start, first, n, []);
            var b := Rewritten(chain, c, before, after, start, first, n, [0]);
            && |a| == |b| && n < |a| && InPeriod(a[n].block, start, end) && a[n].events == [] && b[n].events == [0]
            && forall k :: 0 <= k < |a| ==> a[k].block == b[k].block && (k != n ==> a[k].events == b[k].events)
  {
    hide Early;
  }

  /** Every clause but the live boundary's covers the gap. */
  lemma StartKnownCoversGap(c: Context, start: nat, first: Header, before: Option<Batch>, after: Option<Batch>)
    requires StartKnown(c, start, first, Before(c, start, first, before))
    ensures GapCovered(c, start, first, before, after)
  {
    hide Covers, Spans;
    BeforeIsEarly(c, start, before, after);
    forall n | 0 <= n < first.number && !Early(c, before, after, start, n) && !BeforeOrigin(c, n) ensures Covers(c.coverage, n) {
      var b := Before(c, start, first, before);
      if b.Some? && Spans(c.coverage, b.value.number, first.number) {
        SpanCovers(c.coverage, b.value.number, first.number);
      }
    }
  }

  lemma {:induction false} LastBeforeMember(joined: seq<Batch>, time: nat)
    ensures LastBefore(joined, time).Some? ==> exists i :: 0 <= i < |joined| && joined[i].block == LastBefore(joined, time).value
    decreases |joined|
  {
    if joined != [] && Last(joined).block.timestamp >= time {
      LastBeforeMember(joined[..|joined| - 1], time);
    }
  }

  lemma BeforeIsEarly(c: Context, start: nat, before: Option<Batch>, after: Option<Batch>)
    ensures forall n :: EarlyBy(Either(LastBefore(c.joined, start), HeaderOf(before)), start, n) ==> Early(c, before, after, start, n)
  {
    LastBeforeMember(c.joined, start);
  }
}
