/**
 The reorder buffer of a window of concurrent page streams: whatever the order of arrival, pages leave in the
 sequential order.
 */
module PageOrder {
  import opened Blocks
  import opened Coverage
  import opened History

  function Start(page: Page, forward: bool): int { if forward then page.range.from else page.range.through }

  function Next(page: Page, forward: bool): int { if forward then page.range.through + 1 else page.range.from - 1 }

  /** Where the page at index m must start, or where the last one ends. */
  function CursorAt(expected: seq<Page>, m: nat, forward: bool): int
    requires expected != [] && m <= |expected|
  {
    if m < |expected| then Start(expected[m], forward) else Next(Last(expected), forward)
  }

  /** Pages in sequential order: each starts where the one before ends. */
  ghost predicate InSequence(expected: seq<Page>, forward: bool) {
    && (forall i :: 0 <= i < |expected| ==> expected[i].range.from <= expected[i].range.through)
    && (forall i :: 0 <= i < |expected| - 1 ==> Next(expected[i], forward) == Start(expected[i + 1], forward))
  }

  lemma {:induction false} TilesInSequence(pages: seq<Page>, from: int, to: int, forward: bool)
    requires Tiles(RangesOf(pages), from, to, forward)
    ensures InSequence(pages, forward)
    ensures pages != [] ==> Start(pages[0], forward) == if forward then from else to
    decreases |pages|
  {
    if pages != [] {
      var rest := pages[1..];
      assert RangesOf(pages)[1..] == RangesOf(rest);
      if forward {
        TilesInSequence(rest, pages[0].range.through + 1, to, true);
      } else {
        TilesInSequence(rest, from, pages[0].range.from - 1, false);
      }
      forall i | 0 <= i < |pages| - 1 ensures Next(pages[i], forward) == Start(pages[i + 1], forward) {
        if i > 0 {
          assert pages[i] == rest[i - 1] && pages[i + 1] == rest[i];
        } else if rest != [] {
          assert pages[1] == rest[0];
        }
      }
    }
  }

  /** Later pages start strictly further on. */
  lemma {:induction false} SequenceAdvances(expected: seq<Page>, i: nat, j: nat, forward: bool)
    requires InSequence(expected, forward) && i < j < |expected|
    ensures if forward then Start(expected[i], forward) < Start(expected[j], forward) && Next(expected[i], forward) <= Start(expected[j], forward)
            else Start(expected[i], forward) > Start(expected[j], forward) && Next(expected[i], forward) >= Start(expected[j], forward)
    decreases j
  {
    assert Next(expected[j - 1], forward) == Start(expected[j], forward);
    if i < j - 1 {
      SequenceAdvances(expected, i, j - 1, forward);
    }
  }

  lemma StartsDiffer(expected: seq<Page>, forward: bool)
    requires InSequence(expected, forward)
    ensures forall i, j :: 0 <= i < j < |expected| ==> Start(expected[i], forward) != Start(expected[j], forward)
    ensures expected != [] ==> forall i :: 0 <= i < |expected| ==> Start(expected[i], forward) != Next(Last(expected), forward)
  {
    forall i, j | 0 <= i < j < |expected| ensures Start(expected[i], forward) != Start(expected[j], forward) {
      SequenceAdvances(expected, i, j, forward);
    }
    forall i | 0 <= i < |expected| ensures Start(expected[i], forward) != Next(Last(expected), forward) {
      if i < |expected| - 1 {
        SequenceAdvances(expected, i, |expected| - 1, forward);
      }
    }
  }

  /** The buffer once the pages of `seen` have arrived and the first m pages have left. */
  ghost predicate Waiting(expected: seq<Page>, forward: bool, seen: set<nat>, m: nat, ready: map<int, Page>) {
    && m <= |expected| && (forall i :: i in seen ==> i < |expected|) && (forall i :: 0 <= i < m ==> i in seen)
    && (forall i :: i in seen && i >= m ==> Start(expected[i], forward) in ready && ready[Start(expected[i], forward)] == expected[i])
    && (forall k :: k in ready ==> exists i :: i in seen && i >= m && k == Start(expected[i], forward))
  }

  class Buffer {
    var cursor: int
    var ready: map<int, Page>
    const forward: bool

    constructor (first: int, forward: bool)
      ensures cursor == first && ready == map[] && this.forward == forward
    {
      cursor, ready, this.forward := first, map[], forward;
    }

    /**
     One page arrives. What leaves are the next pages of the sequential order, as many as have arrived without a
     gap; `arrived` is the page's place in that order and `seen` the places of the pages before it.
     */
    method Accept(page: Page, ghost expected: seq<Page>, ghost seen: set<nat>, ghost arrived: nat, ghost m: nat) returns (output: seq<Page>)
      requires InSequence(expected, forward) && arrived < |expected| && expected[arrived] == page && arrived !in seen
      requires m <= |expected| && Waiting(expected, forward, seen, m, ready) && cursor == CursorAt(expected, m, forward)
      modifies this
      ensures m + |output| <= |expected| && output == expected[m..m + |output|]
      ensures Waiting(expected, forward, seen + {arrived}, m + |output|, ready)
      ensures cursor == CursorAt(expected, m + |output|, forward)
      ensures m + |output| !in seen + {arrived}
    {
      hide Waiting, CursorAt, InSequence;
      Arrives(expected, forward, seen, m, ready, arrived);
      ready := ready[Start(page, forward) := page];
      output := [];
      ghost var all := seen + {arrived};
      while cursor in ready
        invariant m + |output| <= |expected| && output == expected[m..m + |output|]
        invariant Waiting(expected, forward, all, m + |output|, ready) && cursor == CursorAt(expected, m + |output|, forward)
        decreases ready.Keys
      {
        Leaves(expected, forward, all, m + |output|, ready);
        var next := ready[cursor];
        ready := ready - {cursor};
        output := output + [next];
        cursor := Next(next, forward);
      }
      Stops(expected, forward, all, m + |output|, ready);
    }
  }

  lemma Arrives(expected: seq<Page>, forward: bool, seen: set<nat>, m: nat, ready: map<int, Page>, arrived: nat)
    requires InSequence(expected, forward) && arrived < |expected| && arrived !in seen && Waiting(expected, forward, seen, m, ready)
    ensures Waiting(expected, forward, seen + {arrived}, m, ready[Start(expected[arrived], forward) := expected[arrived]])
  {
    hide Start;
    StartsDiffer(expected, forward);
    var next := ready[Start(expected[arrived], forward) := expected[arrived]];
    forall k | k in next ensures exists i :: i in seen + {arrived} && i >= m && k == Start(expected[i], forward) {
      if k == Start(expected[arrived], forward) {
        assert arrived in seen + {arrived};
      } else {
        var i :| i in seen && i >= m && k == Start(expected[i], forward);
        assert i in seen + {arrived};
      }
    }
  }

  /** When the buffer has a page at the cursor, it is the next one. */
  lemma Leaves(expected: seq<Page>, forward: bool, seen: set<nat>, m: nat, ready: map<int, Page>)
    requires InSequence(expected, forward) && expected != [] && Waiting(expected, forward, seen, m, ready)
    requires CursorAt(expected, m, forward) in ready
    ensures m < |expected| && ready[CursorAt(expected, m, forward)] == expected[m]
    ensures Waiting(expected, forward, seen, m + 1, ready - {CursorAt(expected, m, forward)})
    ensures CursorAt(expected, m + 1, forward) == Next(expected[m], forward)
  {
    StartsDiffer(expected, forward);
    hide Start, Next;
    var cursor := CursorAt(expected, m, forward);
    var i :| i in seen && i >= m && cursor == Start(expected[i], forward);
    assert i == m;
    var rest := ready - {cursor};
    forall k | k in rest ensures exists j :: j in seen && j >= m + 1 && k == Start(expected[j], forward) {
      var j :| j in seen && j >= m && k == Start(expected[j], forward);
      assert j != m;
    }
  }

  lemma Stops(expected: seq<Page>, forward: bool, seen: set<nat>, m: nat, ready: map<int, Page>)
    requires expected != [] && Waiting(expected, forward, seen, m, ready) && CursorAt(expected, m, forward) !in ready
    ensures m !in seen
  {
  }

  ghost predicate Bounded(order: seq<nat>, n: nat) {
    && (forall i :: 0 <= i < |order| ==> order[i] < n)
    && (forall i, j :: 0 <= i < j < |order| ==> order[i] != order[j])
  }

  ghost function Places(order: seq<nat>): set<nat> {
    set i | 0 <= i < |order| :: order[i]
  }

  /**
   The pages of a window arrive in any order, some perhaps never. They leave in the sequential order, up to the
   first that has not arrived; when all have arrived all have left and nothing waits.
   */
  method Reorder(expected: seq<Page>, forward: bool, arrivals: seq<Page>, ghost order: seq<nat>) returns (output: seq<Page>, left: map<int, Page>)
    requires InSequence(expected, forward) && expected != []
    requires |order| == |arrivals| && Bounded(order, |expected|) && forall i :: 0 <= i < |arrivals| ==> arrivals[i] == expected[order[i]]
    ensures |output| <= |expected| && output == expected[..|output|]
    ensures |output| !in order && forall i :: 0 <= i < |output| ==> i in order
    ensures (forall i :: 0 <= i < |expected| ==> i in order) ==> output == expected && left == map[]
  {
    hide Waiting, CursorAt, InSequence;
    var buffer := new Buffer(Start(expected[0], forward), forward);
    output := [];
    NoneSeen(expected, forward);
    assert order[..0] == [];
    for k := 0 to |arrivals|
      invariant fresh(buffer) && buffer.forward == forward
      invariant |output| <= |expected| && output == expected[..|output|]
      invariant Waiting(expected, forward, Places(order[..k]), |output|, buffer.ready)
      invariant buffer.cursor == CursorAt(expected, |output|, forward)
      invariant |output| !in Places(order[..k])
    {
      OneMorePlace(order, k, |expected|);
      var more := buffer.Accept(arrivals[k], expected, Places(order[..k]), order[k], |output|);
      assert expected[..|output|] + expected[|output|..|output| + |more|] == expected[..|output| + |more|];
      output := output + more;
    }
    assert order[..|arrivals|] == order;
    left := buffer.ready;
    Finished(expected, forward, order, |output|, left);
  }

  lemma NoneSeen(expected: seq<Page>, forward: bool)
    requires expected != []
    ensures Waiting(expected, forward, Places([]), 0, map[]) && CursorAt(expected, 0, forward) == Start(expected[0], forward)
  {
  }

  lemma OneMorePlace(order: seq<nat>, k: nat, n: nat)
    requires Bounded(order, n) && k < |order|
    ensures order[k] !in Places(order[..k]) && Places(order[..k + 1]) == Places(order[..k]) + {order[k]}
  {
    var more := order[..k + 1];
    forall x ensures x in Places(more) <==> x in Places(order[..k]) + {order[k]} {
      if x in Places(order[..k]) {
        var i :| 0 <= i < k && order[..k][i] == x;
        assert more[i] == x;
      }
      if x == order[k] { assert more[k] == x; }
    }
  }

  lemma Finished(expected: seq<Page>, forward: bool, order: seq<nat>, m: nat, ready: map<int, Page>)
    requires Bounded(order, |expected|) && m !in Places(order) && Waiting(expected, forward, Places(order), m, ready)
    ensures m !in order && forall i :: 0 <= i < m ==> i in order
    ensures (forall i :: 0 <= i < |expected| ==> i in order) ==> m == |expected| && ready == map[]
  {
    PlacesMembers(order);
    if forall i :: 0 <= i < |expected| ==> i in order {
      assert m < |expected| ==> m in order;
      NoneWaits(expected, forward, Places(order), ready);
    }
  }

  lemma NoneWaits(expected: seq<Page>, forward: bool, seen: set<nat>, ready: map<int, Page>)
    requires Waiting(expected, forward, seen, |expected|, ready)
    ensures ready == map[]
  {
    assert forall k :: k !in ready;
  }

  lemma PlacesMembers(order: seq<nat>)
    ensures forall x :: x in Places(order) <==> x in order
  {
  }

  // ------------------------------------------------------------------------------------------ the whole request

  ghost predicate Arrangement(order: seq<nat>, n: nat) {
    |order| == n && Bounded(order, n) && forall i :: 0 <= i < n ==> i in order
  }

  lemma {:induction false} StreamRangesConcat(a: seq<Range>, b: seq<Range>, reply: Range -> Reply, forward: bool)
    ensures StreamRanges(a + b, reply, forward) == Then(StreamRanges(a, reply, forward), StreamRanges(b, reply, forward))
  {
    hide StreamRange;
    if a == [] {
      assert a + b == b;
    } else {
      assert (a + b)[1..] == a[1..] + b;
      StreamRangesConcat(a[1..], b, reply, forward);
      var first := StreamRange(a[0], reply, forward);
      var x, y := StreamRanges(a[1..], reply, forward), StreamRanges(b, reply, forward);
      assert first.pages + (x.pages + y.pages) == (first.pages + x.pages) + y.pages;
    }
  }

  /** Every range of the request is delivered, with at least one page. */
  lemma {:induction false} AllDelivered(ranges: seq<Range>, reply: Range -> Reply, from: int, to: int, forward: bool, listing: seq<HistoricalLog>, whole: Range)
    requires Tiles(ranges, from, to, forward) && whole.from <= from && to <= whole.through
    requires ServedFrom(listing, reply) && OnlySplits(reply, whole)
    ensures StreamRanges(ranges, reply, forward).Delivered?
    decreases |ranges|
  {
    if ranges != [] {
      hide ServedFrom, OnlySplits, StreamRange;
      StreamRangesTile(ranges, reply, from, to, forward);
      if forward {
        StreamRangesTile(ranges[1..], reply, ranges[0].through + 1, to, true);
      } else {
        StreamRangesTile(ranges[1..], reply, from, ranges[0].from - 1, false);
      }
      PartSplits(reply, whole, ranges[0]);
      StreamRangeDelivers(ranges[0], reply, forward, listing);
      if forward {
        AllDelivered(ranges[1..], reply, ranges[0].through + 1, to, true, listing, whole);
      } else {
        AllDelivered(ranges[1..], reply, from, ranges[0].from - 1, false, listing, whole);
      }
    }
  }

  lemma PartSplits(reply: Range -> Reply, whole: Range, part: Range)
    requires OnlySplits(reply, whole) && whole.from <= part.from && part.through <= whole.through
    ensures OnlySplits(reply, part)
  {
  }

  /** A stretch of pages in sequence. */
  lemma SliceInSequence(pages: seq<Page>, lo: nat, hi: nat, forward: bool)
    requires InSequence(pages, forward) && lo <= hi <= |pages|
    ensures InSequence(pages[lo..hi], forward)
  {
    var part := pages[lo..hi];
    forall i | 0 <= i < |part| - 1 ensures Next(part[i], forward) == Start(part[i + 1], forward) {
      assert Next(pages[lo + i], forward) == Start(pages[lo + i + 1], forward);
    }
  }

  /** The pages of the ranges before k, then those of the window, then the rest. */
  lemma WindowPages(ranges: seq<Range>, lo: nat, hi: nat, reply: Range -> Reply, forward: bool)
    requires lo <= hi <= |ranges| && StreamRanges(ranges, reply, forward).Delivered?
    ensures var a, b, all := StreamRanges(ranges[..lo], reply, forward), StreamRanges(ranges[lo..hi], reply, forward),
                             StreamRanges(ranges, reply, forward);
            && a.Delivered? && b.Delivered? && StreamRanges(ranges[..hi], reply, forward) == Delivered(a.pages + b.pages)
            && |a.pages| + |b.pages| <= |all.pages| && b.pages == all.pages[|a.pages|..|a.pages| + |b.pages|]
  {
    hide StreamRanges;
    assert ranges[..lo] + ranges[lo..hi] == ranges[..hi] && ranges[..hi] + ranges[hi..] == ranges;
    StreamRangesConcat(ranges[..lo], ranges[lo..hi], reply, forward);
    StreamRangesConcat(ranges[..hi], ranges[hi..], reply, forward);
  }

  /**
   The whole query: whatever the direction, chunk size, concurrency, pattern of refusals and order of arrival, the
   pages tile the request and hold exactly its listed logs, each once, in order of position.
   */
  method StreamLogPages(from: nat, to: nat, size: nat, concurrency: nat, forward: bool, reply: Range -> Reply,
                        arrival: (nat, nat) -> seq<nat>, ghost listing: seq<HistoricalLog>)
    returns (pages: seq<Page>)
    requires from <= to && size > 0 && concurrency > 0
    requires Listing(listing) && ServedFrom(listing, reply) && OnlySplits(reply, Range(from, to))
    requires forall window, n :: Arrangement(arrival(window, n), n)
    ensures Tiles(RangesOf(pages), from, to, forward)
    ensures Upward(pages, forward) == In(listing, from, to)
  {
    hide *;
    var ranges := Ranges(from, to, size, forward);
    AllDelivered(ranges, reply, from, to, forward, listing, Range(from, to));
    ghost var all := StreamRanges(ranges, reply, forward);
    StreamRangesTile(ranges, reply, from, to, forward);
    TilesInSequence(all.pages, from, to, forward);
    SplittingPreservesMeaning(listing, ranges, reply, from, to, forward);
    pages := [];
    NoneStreamed(reply, forward);
    assert ranges[..0] == [];
    var k := 0;
    while k < |ranges|
      invariant k <= |ranges| && StreamRanges(ranges[..k], reply, forward) == Delivered(pages)
    {
      var hi := if k + concurrency < |ranges| then k + concurrency else |ranges|;
      WindowPages(ranges, k, hi, reply, forward);
      var window := StreamRanges(ranges[k..hi], reply, forward).pages;
      SliceInSequence(all.pages, |pages|, |pages| + |window|, forward);
      var output := Receive(window, forward, arrival(k, |window|));
      pages := pages + output;
      k := hi;
    }
    assert ranges[..|ranges|] == ranges;
  }

  lemma NoneStreamed(reply: Range -> Reply, forward: bool)
    ensures StreamRanges([], reply, forward) == Delivered([])
  {
  }

  /** One window: its pages, received in any order, leave in sequence. */
  method Receive(window: seq<Page>, forward: bool, order: seq<nat>) returns (output: seq<Page>)
    requires InSequence(window, forward) && Arrangement(order, |window|)
    ensures output == window
  {
    hide InSequence;
    if window == [] { return []; }
    var arrivals := seq(|order|, i requires 0 <= i < |order| => window[order[i]]);
    var left;
    output, left := Reorder(window, forward, arrivals, order);
  }
}
