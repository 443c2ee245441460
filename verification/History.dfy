/**
 Historical log queries: the request is cut into ranges, a range that a provider refuses is bisected, each answer is
 normalized, and pages that arrive in any order leave in the order of the request.
 */
module History {
  import opened Blocks
  import opened Sorting
  import opened OrderedMap
  import opened Coverage

  /** A log as a provider returns it, and one whose position is known. */
  datatype RpcLog = RpcLog(blockHash: Option<Hash>, blockNumber: Option<nat>, transactionIndex: Option<nat>, logIndex: Option<nat>,
                           transactionHash: Hash, data: int)

  datatype HistoricalLog = HistoricalLog(blockHash: Hash, blockNumber: nat, transactionIndex: nat, logIndex: nat,
                                         transactionHash: Hash, data: int)

  datatype Page = Page(range: Range, logs: seq<HistoricalLog>)

  type Identity = (Hash, Hash, nat)

  function IdentityOf(log: HistoricalLog): Identity { (log.blockHash, log.transactionHash, log.logIndex) }

  function Position(log: HistoricalLog): Key { Key(log.blockNumber, log.transactionIndex, log.logIndex) }

  // ------------------------------------------------------------------------------------------ ranges

  /** Ranges that follow each other in the direction of travel and make up [from, to]. */
  ghost predicate Tiles(ranges: seq<Range>, from: int, to: int, forward: bool) {
    if ranges == [] then from == to + 1
    else if forward then ranges[0].from == from <= ranges[0].through && Tiles(ranges[1..], ranges[0].through + 1, to, forward)
    else ranges[0].through == to >= ranges[0].from && Tiles(ranges[1..], from, ranges[0].from - 1, forward)
  }

  lemma {:induction false} TilesConcat(a: seq<Range>, b: seq<Range>, from: int, middle: int, to: int, forward: bool)
    requires if forward then Tiles(a, from, middle, true) && Tiles(b, middle + 1, to, true)
             else Tiles(a, middle + 1, to, false) && Tiles(b, from, middle, false)
    ensures Tiles(a + b, from, to, forward)
  {
    if a == [] {
      assert a + b == b;
    } else {
      assert (a + b)[1..] == a[1..] + b;
      if forward {
        TilesConcat(a[1..], b, a[0].through + 1, middle, to, true);
      } else {
        TilesConcat(a[1..], b, from, middle, a[0].from - 1, false);
      }
    }
  }

  lemma TilesOne(range: Range, forward: bool)
    requires range.from <= range.through
    ensures Tiles([range], range.from, range.through, forward)
  {
    assert [range][1..] == [];
  }

  /** All ranges but the last have `size` heights, and the last no more. */
  ghost predicate Chunked(ranges: seq<Range>, size: nat) {
    && (forall i :: 0 <= i < |ranges| ==> ranges[i].through - ranges[i].from < size)
    && (forall i :: 0 <= i < |ranges| - 1 ==> ranges[i].through - ranges[i].from == size - 1)
  }

  lemma TilesSnoc(ranges: seq<Range>, next: Range, from: int, to: int, forward: bool)
    requires next.from <= next.through
    requires if forward then Tiles(ranges, from, next.from - 1, true) && to == next.through
             else Tiles(ranges, next.through + 1, to, false) && from == next.from
    ensures Tiles(ranges + [next], from, to, forward)
  {
    TilesOne(next, forward);
    TilesConcat(ranges, [next], from, if forward then next.from - 1 else next.through, to, forward);
  }

  /** The ranges of a request tile it in either direction. */
  method Ranges(from: nat, to: nat, size: nat, forward: bool) returns (ranges: seq<Range>)
    requires from <= to && size > 0
    ensures Tiles(ranges, from, to, forward) && Chunked(ranges, size)
  {
    hide Tiles;
    ranges := [];
    NoTiles(from, to);
    if !forward {
      var end: int := to;
      while end >= from
        invariant from - 1 <= end <= to
        invariant Tiles(ranges, end + 1, to, false)
        invariant forall i :: 0 <= i < |ranges| ==> ranges[i].through - ranges[i].from < size
        invariant forall i :: 0 <= i < |ranges| - (if end >= from then 0 else 1) ==> ranges[i].through - ranges[i].from == size - 1
        decreases end
      {
        var start := if end - size + 1 > from then end - size + 1 else from;
        TilesSnoc(ranges, Range(start, end), start, to, false);
        ranges := ranges + [Range(start, end)];
        end := start - 1;
      }
      return;
    }
    var start: int := from;
    while start <= to
      invariant from <= start && (start <= to ==> Tiles(ranges, from, start - 1, true)) && (start > to ==> Tiles(ranges, from, to, true))
      invariant forall i :: 0 <= i < |ranges| ==> ranges[i].through - ranges[i].from < size
      invariant forall i :: 0 <= i < |ranges| - (if start <= to then 0 else 1) ==> ranges[i].through - ranges[i].from == size - 1
    {
      var end := start + size - 1;
      var next := Range(start, if end < to then end else to);
      TilesSnoc(ranges, next, from, next.through, true);
      ranges := ranges + [next];
      start := start + size;
    }
  }

  lemma NoTiles(from: int, to: int)
    ensures Tiles([], from, from - 1, true) && Tiles([], to + 1, to, false)
  {
  }

  // ------------------------------------------------------------------------------------------ one answer

  predicate Positioned(log: RpcLog, range: Range) {
    && log.blockHash.Some? && log.blockNumber.Some? && log.transactionIndex.Some? && log.logIndex.Some?
    && range.from <= log.blockNumber.value <= range.through
  }

  function Located(log: RpcLog): HistoricalLog
    requires log.blockHash.Some? && log.blockNumber.Some? && log.transactionIndex.Some? && log.logIndex.Some?
  {
    HistoricalLog(log.blockHash.value, log.blockNumber.value, log.transactionIndex.value, log.logIndex.value,
                  log.transactionHash, log.data)
  }

  predicate AllPositioned(logs: seq<RpcLog>, range: Range) {
    forall i :: 0 <= i < |logs| ==> Positioned(logs[i], range)
  }

  function LocatedAll(logs: seq<RpcLog>, range: Range): seq<HistoricalLog>
    requires AllPositioned(logs, range)
  {
    seq(|logs|, i requires 0 <= i < |logs| => Located(logs[i]))
  }

  function Uniques(logs: seq<HistoricalLog>): Entries<Identity, HistoricalLog> {
    if logs == [] then [] else Put(Uniques(logs[..|logs| - 1]), IdentityOf(Last(logs)), Last(logs))
  }

  function Values<K, V>(m: Entries<K, V>): seq<V> { seq(|m|, i requires 0 <= i < |m| => m[i].1) }

  /** None when a log has no position, or one outside the range. */
  function Normalized(logs: seq<RpcLog>, range: Range): Option<seq<HistoricalLog>> {
    if AllPositioned(logs, range) then Some(Sort(Values(Uniques(LocatedAll(logs, range))), Position)) else None
  }

  method NormalizeLogs(logs: seq<RpcLog>, range: Range) returns (r: Option<seq<HistoricalLog>>)
    ensures r == Normalized(logs, range)
  {
    hide Sort, Uniques;
    var normalized: seq<HistoricalLog> := [];
    for i := 0 to |logs|
      invariant forall j :: 0 <= j < i ==> Positioned(logs[j], range)
      invariant |normalized| == i && forall j :: 0 <= j < i ==> normalized[j] == Located(logs[j])
    {
      if !Positioned(logs[i], range) { return None; }
      normalized := normalized + [Located(logs[i])];
    }
    assert normalized == LocatedAll(logs, range);
    var unique: Entries<Identity, HistoricalLog> := [];
    NoUniques();
    for i := 0 to |normalized|
      invariant unique == Uniques(normalized[..i])
    {
      MoreUniques(normalized, i);
      unique := Put(unique, IdentityOf(normalized[i]), normalized[i]);
    }
    assert normalized[..|normalized|] == normalized;
    r := Some(Sort(Values(unique), Position));
  }

  lemma NoUniques()
    ensures Uniques([]) == []
  {
  }

  lemma MoreUniques(logs: seq<HistoricalLog>, i: nat)
    requires i < |logs|
    ensures Uniques(logs[..i + 1]) == Put(Uniques(logs[..i]), IdentityOf(logs[i]), logs[i])
  {
    assert logs[..i + 1][..i] == logs[..i];
  }

  lemma {:induction false} PutMembers<K, V>(m: Entries<K, V>, k: K, v: V, e: (K, V))
    requires DistinctKeys(m)
    ensures e in Put(m, k, v) <==> (if e.0 == k then e.1 == v else e in m)
  {
    if m != [] {
      assert m == [m[0]] + m[1..];
      if m[0].0 == k {
        assert Put(m, k, v) == [(k, v)] + m[1..];
        if e in m[1..] {
          var i :| 0 <= i < |m[1..]| && m[1..][i] == e;
          assert m[i + 1].0 != m[0].0;
        }
      } else {
        PutMembers(m[1..], k, v, e);
        assert Put(m, k, v) == [m[0]] + Put(m[1..], k, v);
      }
    }
  }

  /** The log is the last of its identity. */
  ghost predicate LastOfIdentity(logs: seq<HistoricalLog>, log: HistoricalLog) {
    exists i :: 0 <= i < |logs| && logs[i] == log && forall j :: i < j < |logs| ==> IdentityOf(logs[j]) != IdentityOf(log)
  }

  lemma LastOfMore(front: seq<HistoricalLog>, x: HistoricalLog, log: HistoricalLog)
    ensures LastOfIdentity(front + [x], log) <==> if IdentityOf(log) == IdentityOf(x) then log == x else LastOfIdentity(front, log)
  {
    var all := front + [x];
    if LastOfIdentity(all, log) {
      var i :| 0 <= i < |all| && all[i] == log && forall j :: i < j < |all| ==> IdentityOf(all[j]) != IdentityOf(log);
      if i < |front| {
        assert all[|front|] == x;
        assert front[i] == log;
        assert forall j :: i < j < |front| ==> all[j] == front[j];
      }
    }
    if IdentityOf(log) != IdentityOf(x) && LastOfIdentity(front, log) {
      var i :| 0 <= i < |front| && front[i] == log && forall j :: i < j < |front| ==> IdentityOf(front[j]) != IdentityOf(log);
      assert all[i] == log;
    }
    if log == x { assert all[|front|] == log; }
  }

  /** Of each identity the last log remains, and only that one. */
  lemma {:induction false} UniquesExact(logs: seq<HistoricalLog>)
    ensures DistinctKeys(Uniques(logs))
    ensures forall e :: e in Uniques(logs) <==> e.0 == IdentityOf(e.1) && LastOfIdentity(logs, e.1)
  {
    if logs != [] {
      hide Put, LastOfIdentity, DistinctKeys;
      var front, x := logs[..|logs| - 1], Last(logs);
      assert logs == front + [x];
      UniquesExact(front);
      PutDistinct(Uniques(front), IdentityOf(x), x);
      forall e ensures e in Uniques(logs) <==> e.0 == IdentityOf(e.1) && LastOfIdentity(logs, e.1) {
        PutMembers(Uniques(front), IdentityOf(x), x, e);
        LastOfMore(front, x, e.1);
      }
    }
  }

  lemma ValuesMembers<K, V>(m: Entries<K, V>, v: V)
    ensures v in Values(m) <==> exists k :: (k, v) in m
  {
    if v in Values(m) {
      var i :| 0 <= i < |Values(m)| && Values(m)[i] == v;
      assert m[i] == (m[i].0, v);
      assert (m[i].0, v) in m;
    }
    if exists k :: (k, v) in m {
      var k :| (k, v) in m;
      var i :| 0 <= i < |m| && m[i] == (k, v);
      assert Values(m)[i] == v;
    }
  }

  /** A normalized answer is sorted by position and holds, once each, the last log of every identity. */
  lemma NormalizedIsExact(logs: seq<RpcLog>, range: Range)
    requires AllPositioned(logs, range)
    ensures var r := Normalized(logs, range);
            && r.Some? && Sorted(r.value, Position)
            && (forall log :: log in r.value <==> LastOfIdentity(LocatedAll(logs, range), log))
            && |r.value| == |Uniques(LocatedAll(logs, range))| && DistinctKeys(Uniques(LocatedAll(logs, range)))
  {
    hide Sort, Uniques, LastOfIdentity, DistinctKeys;
    var located := LocatedAll(logs, range);
    var kept := Values(Uniques(located));
    UniquesExact(located);
    SortKeeps(kept, Position);
    SameElements(kept, Position);
    forall log ensures log in kept <==> LastOfIdentity(located, log) {
      ValuesMembers(Uniques(located), log);
      assert (IdentityOf(log), log) in Uniques(located) <==> LastOfIdentity(located, log);
    }
  }

  // ------------------------------------------------------------------------------------------ an honest provider

  /** The chain's logs, in order of position; a position or an identity belongs to one log. */
  ghost predicate Listing(logs: seq<HistoricalLog>) {
    && StrictlySorted(logs, Position)
    && forall i, j :: 0 <= i < |logs| && 0 <= j < |logs| && IdentityOf(logs[i]) == IdentityOf(logs[j]) ==> i == j
  }

  /** The listed logs of the heights [from, to]. */
  function In(listing: seq<HistoricalLog>, from: int, to: int): seq<HistoricalLog> {
    if listing == [] then []
    else In(listing[..|listing| - 1], from, to) + (if from <= Last(listing).blockNumber <= to then [Last(listing)] else [])
  }

  lemma {:induction false} InMembers(listing: seq<HistoricalLog>, from: int, to: int)
    requires StrictlySorted(listing, Position)
    ensures forall log :: log in In(listing, from, to) <==> log in listing && from <= log.blockNumber <= to
    ensures StrictlySorted(In(listing, from, to), Position)
  {
    if listing != [] {
      var front, x := listing[..|listing| - 1], Last(listing);
      InMembers(front, from, to);
      assert listing == front + [x];
      var part := In(front, from, to);
      forall i | 0 <= i < |part| ensures Less(Position(part[i]), Position(x)) {
        assert part[i] in front;
        var k :| 0 <= k < |front| && front[k] == part[i];
        assert listing[k] == part[i];
      }
    }
  }

  /** An answer, in any order and with repetitions, that holds exactly the listed logs of the range. */
  ghost predicate Honest(listing: seq<HistoricalLog>, logs: seq<RpcLog>, range: Range) {
    && AllPositioned(logs, range)
    && forall log :: log in LocatedAll(logs, range) <==> log in listing && range.from <= log.blockNumber <= range.through
  }

  lemma LastWhenOne(logs: seq<HistoricalLog>, log: HistoricalLog)
    requires log in logs && forall x :: x in logs && IdentityOf(x) == IdentityOf(log) ==> x == log
    ensures LastOfIdentity(logs, log)
  {
    LastWhenOneIn(logs, log, |logs|);
  }

  lemma {:induction false} LastWhenOneIn(logs: seq<HistoricalLog>, log: HistoricalLog, n: nat)
    requires n <= |logs| && log in logs[..n] && forall x :: x in logs && IdentityOf(x) == IdentityOf(log) ==> x == log
    requires forall j :: n <= j < |logs| ==> IdentityOf(logs[j]) != IdentityOf(log)
    ensures LastOfIdentity(logs, log)
  {
    if IdentityOf(logs[n - 1]) == IdentityOf(log) {
      assert logs[n - 1] in logs;
    } else {
      var i :| 0 <= i < |logs[..n]| && logs[..n][i] == log;
      assert logs[..n - 1][i] == log;
      LastWhenOneIn(logs, log, n - 1);
    }
  }

  lemma SortedIsStrict(logs: seq<HistoricalLog>, listing: seq<HistoricalLog>)
    requires Sorted(logs, Position) && Listing(listing) && forall log :: log in logs ==> log in listing
    requires forall i, j :: 0 <= i < j < |logs| ==> logs[i] != logs[j]
    ensures StrictlySorted(logs, Position)
  {
    forall i, j | 0 <= i < j < |logs| ensures Less(Position(logs[i]), Position(logs[j])) {
      assert logs[i] in listing && logs[j] in listing;
      var a :| 0 <= a < |listing| && listing[a] == logs[i];
      var b :| 0 <= b < |listing| && listing[b] == logs[j];
      assert !Less(Position(logs[j]), Position(logs[i]));
    }
  }

  lemma {:induction false} DistinctCounts<T>(s: seq<T>, x: T)
    requires forall i, j :: 0 <= i < j < |s| ==> s[i] != s[j]
    ensures multiset(s)[x] <= 1
  {
    if s != [] {
      var front := s[..|s| - 1];
      assert s == front + [Last(s)];
      DistinctCounts(front, x);
      if x == Last(s) {
        assert x !in front;
        assert x !in multiset(front);
      }
    }
  }

  lemma RearrangedDistinct<T>(a: seq<T>, b: seq<T>)
    requires multiset(a) == multiset(b) && forall i, j :: 0 <= i < j < |a| ==> a[i] != a[j]
    ensures forall i, j :: 0 <= i < j < |b| ==> b[i] != b[j]
  {
    forall i, j | 0 <= i < j < |b| ensures b[i] != b[j] {
      assert b == b[..i] + [b[i]] + b[i + 1..j] + [b[j]] + b[j + 1..];
      DistinctCounts(a, b[i]);
    }
  }

  /** The normalized form of an honest answer is the listing of the range, whatever the answer's order. */
  lemma NormalizedIsListing(listing: seq<HistoricalLog>, logs: seq<RpcLog>, range: Range)
    requires Listing(listing) && Honest(listing, logs, range)
    ensures Normalized(logs, range) == Some(In(listing, range.from, range.through))
  {
    hide Sort, Uniques, LastOfIdentity, LocatedAll, Sorted, StrictlySorted;
    var located := LocatedAll(logs, range);
    var kept := Values(Uniques(located));
    var sorted := Sort(kept, Position);
    NormalizedIsExact(logs, range);
    UniquesExact(located);
    SortKeeps(kept, Position);
    KeptDistinct(Uniques(located));
    RearrangedDistinct(kept, sorted);
    OnlyOne(listing, located);
    ListingSorted(listing);
    InMembers(listing, range.from, range.through);
    SortedIsStrict(sorted, listing);
    StrictlySortedUnique(sorted, In(listing, range.from, range.through), Position);
  }

  lemma ListingSorted(listing: seq<HistoricalLog>)
    requires Listing(listing)
    ensures StrictlySorted(listing, Position)
  {
  }

  lemma KeptDistinct(m: Entries<Identity, HistoricalLog>)
    requires DistinctKeys(m) && forall e :: e in m ==> e.0 == IdentityOf(e.1)
    ensures forall i, j :: 0 <= i < j < |Values(m)| ==> Values(m)[i] != Values(m)[j]
  {
    forall i, j | 0 <= i < j < |m| ensures m[i].1 != m[j].1 {
      assert m[i] in m && m[j] in m;
    }
  }

  /** Listed logs are the last of their identity, and only they. */
  lemma OnlyOne(listing: seq<HistoricalLog>, located: seq<HistoricalLog>)
    requires Listing(listing) && forall log :: log in located ==> log in listing
    ensures forall log :: LastOfIdentity(located, log) <==> log in located
  {
    forall log ensures LastOfIdentity(located, log) <==> log in located {
      if log in located {
        forall x | x in located && IdentityOf(x) == IdentityOf(log) ensures x == log {
          assert x in listing && log in listing;
        }
        LastWhenOne(located, log);
      }
    }
  }

  // ------------------------------------------------------------------------------------------ bisection

  /** What the client reports for a range once its retries are over. */
  datatype Reply = Answered(logs: seq<RpcLog>) | TooLarge | Unavailable

  datatype Delivery = Delivered(pages: seq<Page>) | Broken(pages: seq<Page>, at: Range)

  function RangesOf(pages: seq<Page>): seq<Range> { seq(|pages|, i requires 0 <= i < |pages| => pages[i].range) }

  /** The pages of a range: its answer, or those of its halves when the range is refused as too large. */
  function StreamRange(range: Range, reply: Range -> Reply, forward: bool): Delivery
    decreases range.through - range.from
  {
    match reply(range)
    case Answered(logs) =>
      var r := Normalized(logs, range);
      if r.Some? then Delivered([Page(range, r.value)]) else Broken([], range)
    case Unavailable => Broken([], range)
    case TooLarge =>
      if range.from >= range.through then Broken([], range)
      else
        var middle := (range.from + range.through) / 2;
        var lower, upper := Range(range.from, middle), Range(middle + 1, range.through);
        if forward then Then(StreamRange(lower, reply, forward), StreamRange(upper, reply, forward))
        else Then(StreamRange(upper, reply, forward), StreamRange(lower, reply, forward))
  }

  /** The second stream starts when the first has ended. */
  function Then(a: Delivery, b: Delivery): Delivery {
    if a.Broken? then a
    else if b.Broken? then Broken(a.pages + b.pages, b.at) else Delivered(a.pages + b.pages)
  }

  /** Pages read from the lowest height up. */
  function Upward(pages: seq<Page>, forward: bool): seq<HistoricalLog> {
    if pages == [] then []
    else if forward then pages[0].logs + Upward(pages[1..], forward) else Upward(pages[1..], forward) + pages[0].logs
  }

  /** The provider answers from one listing, and refuses or fails as it likes. */
  ghost predicate ServedFrom(listing: seq<HistoricalLog>, reply: Range -> Reply) {
    forall range :: ServedAt(listing, reply, range)
  }

  ghost predicate ServedAt(listing: seq<HistoricalLog>, reply: Range -> Reply, range: Range) {
    reply(range).Answered? ==> Honest(listing, reply(range).logs, range)
  }

  lemma RangesConcat(a: seq<Page>, b: seq<Page>)
    ensures RangesOf(a + b) == RangesOf(a) + RangesOf(b)
  {
  }

  /** The pages delivered make up the range, or the part of it before the range that broke the stream. */
  ghost predicate Covered(d: Delivery, range: Range, forward: bool) {
    match d
    case Delivered(pages) => Tiles(RangesOf(pages), range.from, range.through, forward)
    case Broken(pages, at) =>
      && range.from <= at.from <= at.through <= range.through
      && if forward then Tiles(RangesOf(pages), range.from, at.from - 1, true) else Tiles(RangesOf(pages), at.through + 1, range.through, false)
  }

  lemma ThenCovered(a: Delivery, b: Delivery, lower: Range, upper: Range, forward: bool)
    requires lower.from <= lower.through && upper.from == lower.through + 1 <= upper.through
    requires if forward then Covered(a, lower, true) && Covered(b, upper, true) else Covered(a, upper, false) && Covered(b, lower, false)
    ensures Covered(Then(a, b), Range(lower.from, upper.through), forward)
  {
    hide Tiles;
    if a.Delivered? {
      RangesConcat(a.pages, b.pages);
      if forward {
        TilesConcat(RangesOf(a.pages), RangesOf(b.pages), lower.from, lower.through,
                    if b.Broken? then b.at.from - 1 else upper.through, true);
      } else {
        TilesConcat(RangesOf(a.pages), RangesOf(b.pages), if b.Broken? then b.at.through + 1 else lower.from, lower.through,
                    upper.through, false);
      }
    }
  }

  /** Bisection ends with pages that tile the range, in either direction and for every pattern of refusals. */
  lemma {:induction false} StreamRangeTiles(range: Range, reply: Range -> Reply, forward: bool)
    requires range.from <= range.through
    ensures Covered(StreamRange(range, reply, forward), range, forward)
    decreases range.through - range.from
  {
    if reply(range).TooLarge? && range.from < range.through {
      hide Tiles, Covered, Then;
      var middle := (range.from + range.through) / 2;
      var lower, upper := Range(range.from, middle), Range(middle + 1, range.through);
      StreamRangeTiles(lower, reply, forward);
      StreamRangeTiles(upper, reply, forward);
      var a, b := StreamRange(lower, reply, forward), StreamRange(upper, reply, forward);
      ThenCovered(if forward then a else b, if forward then b else a, lower, upper, forward);
    } else {
      NoTiles(range.from, range.through);
      if StreamRange(range, reply, forward).Delivered? {
        var pages := StreamRange(range, reply, forward).pages;
        assert RangesOf(pages) == [range];
        TilesOne(range, forward);
      } else {
        assert RangesOf([]) == [];
      }
    }
  }

  lemma Served(listing: seq<HistoricalLog>, reply: Range -> Reply, range: Range)
    requires ServedFrom(listing, reply)
    ensures reply(range).Answered? ==> Honest(listing, reply(range).logs, range) && Normalized(reply(range).logs, range).Some?
  {
    hide Sort, Uniques, Values;
    assert ServedAt(listing, reply, range);
  }

  /** Inside the range the provider never fails, and never refuses a single block. */
  ghost predicate OnlySplits(reply: Range -> Reply, range: Range) {
    forall r: Range :: range.from <= r.from <= r.through <= range.through ==>
      !reply(r).Unavailable? && (reply(r).TooLarge? ==> r.from < r.through)
  }

  lemma HalvesSplit(reply: Range -> Reply, range: Range)
    requires range.from <= range.through && OnlySplits(reply, range)
    ensures !reply(range).Unavailable? && (reply(range).TooLarge? ==> range.from < range.through)
    ensures var middle := (range.from + range.through) / 2;
            OnlySplits(reply, Range(range.from, middle)) && OnlySplits(reply, Range(middle + 1, range.through))
  {
  }

  /** Nothing but a provider that fails, or refuses a single block, breaks the stream. */
  lemma {:induction false} StreamRangeDelivers(range: Range, reply: Range -> Reply, forward: bool, listing: seq<HistoricalLog>)
    requires range.from <= range.through && ServedFrom(listing, reply) && OnlySplits(reply, range)
    ensures StreamRange(range, reply, forward).Delivered?
    decreases range.through - range.from
  {
    hide Normalized, Honest, ServedFrom, OnlySplits, Then;
    Served(listing, reply, range);
    HalvesSplit(reply, range);
    if reply(range).TooLarge? {
      var middle := (range.from + range.through) / 2;
      var lower, upper := Range(range.from, middle), Range(middle + 1, range.through);
      StreamRangeDelivers(lower, reply, forward, listing);
      StreamRangeDelivers(upper, reply, forward, listing);
      var a, b := StreamRange(lower, reply, forward), StreamRange(upper, reply, forward);
      ThenDelivers(if forward then a else b, if forward then b else a);
    }
  }

  lemma ThenDelivers(a: Delivery, b: Delivery)
    requires a.Delivered? && b.Delivered?
    ensures Then(a, b).Delivered?
  {
  }

  /** Two adjacent parts of the listing make up the whole. */
  lemma InSplits(listing: seq<HistoricalLog>, from: int, middle: int, to: int)
    requires StrictlySorted(listing, Position) && from - 1 <= middle <= to
    ensures In(listing, from, middle) + In(listing, middle + 1, to) == In(listing, from, to)
  {
    hide In;
    InMembers(listing, from, middle);
    InMembers(listing, middle + 1, to);
    InMembers(listing, from, to);
    var a, b := In(listing, from, middle), In(listing, middle + 1, to);
    var all := a + b;
    forall i, j | 0 <= i < j < |all| ensures Less(Position(all[i]), Position(all[j])) {
      if i < |a| <= j {
        assert a[i] in a && b[j - |a|] in b;
      }
    }
    StrictlySortedUnique(all, In(listing, from, to), Position);
  }

  /** Page by page: each holds the listing of its own range. */
  ghost predicate PagesFrom(listing: seq<HistoricalLog>, pages: seq<Page>) {
    forall i :: 0 <= i < |pages| ==> pages[i].logs == In(listing, pages[i].range.from, pages[i].range.through)
  }

  lemma ThenPages(listing: seq<HistoricalLog>, a: Delivery, b: Delivery)
    requires PagesFrom(listing, a.pages) && PagesFrom(listing, b.pages)
    ensures PagesFrom(listing, Then(a, b).pages)
  {
    hide In;
  }

  lemma {:induction false} StreamRangePages(range: Range, reply: Range -> Reply, forward: bool, listing: seq<HistoricalLog>)
    requires Listing(listing) && ServedFrom(listing, reply)
    ensures PagesFrom(listing, StreamRange(range, reply, forward).pages)
    decreases range.through - range.from
  {
    hide In, Honest, Normalized, Listing, ServedFrom, PagesFrom, Then;
    Served(listing, reply, range);
    NoPages(listing);
    match reply(range)
    case Answered(logs) =>
      NormalizedIsListing(listing, logs, range);
      OnePage(listing, range);
    case Unavailable =>
    case TooLarge =>
      if range.from < range.through {
        var middle := (range.from + range.through) / 2;
        var lower, upper := Range(range.from, middle), Range(middle + 1, range.through);
        StreamRangePages(lower, reply, forward, listing);
        StreamRangePages(upper, reply, forward, listing);
        var a, b := StreamRange(lower, reply, forward), StreamRange(upper, reply, forward);
        ThenPages(listing, if forward then a else b, if forward then b else a);
      }
  }

  lemma NoPages(listing: seq<HistoricalLog>)
    ensures PagesFrom(listing, [])
  {
  }

  lemma OnePage(listing: seq<HistoricalLog>, range: Range)
    ensures PagesFrom(listing, [Page(range, In(listing, range.from, range.through))])
  {
  }

  /** Tiling pages of the listing, read from the lowest height up, are the listing. */
  lemma {:induction false} TiledPagesAreListing(listing: seq<HistoricalLog>, pages: seq<Page>, from: int, to: int, forward: bool)
    requires StrictlySorted(listing, Position) && PagesFrom(listing, pages) && Tiles(RangesOf(pages), from, to, forward)
    ensures from <= to + 1 && Upward(pages, forward) == In(listing, from, to)
    decreases |pages|
  {
    hide In, StrictlySorted;
    if pages == [] {
      NothingIn(listing, from, to);
    } else {
      var rest := pages[1..];
      assert RangesOf(pages)[1..] == RangesOf(rest);
      assert PagesFrom(listing, rest);
      if forward {
        TiledPagesAreListing(listing, rest, pages[0].range.through + 1, to, true);
        InSplits(listing, from, pages[0].range.through, to);
      } else {
        TiledPagesAreListing(listing, rest, from, pages[0].range.from - 1, false);
        InSplits(listing, from, pages[0].range.from - 1, to);
      }
    }
  }

  lemma {:induction false} NothingIn(listing: seq<HistoricalLog>, from: int, to: int)
    requires to < from
    ensures In(listing, from, to) == []
  {
    if listing != [] {
      NothingIn(listing[..|listing| - 1], from, to);
    }
  }

  /** The sequential order: the pages of one range after those of the one before. */
  function StreamRanges(ranges: seq<Range>, reply: Range -> Reply, forward: bool): Delivery {
    if ranges == [] then Delivered([])
    else Then(StreamRange(ranges[0], reply, forward), StreamRanges(ranges[1..], reply, forward))
  }

  /** The pages of tiling ranges tile the request. */
  lemma {:induction false} StreamRangesTile(ranges: seq<Range>, reply: Range -> Reply, from: int, to: int, forward: bool)
    requires Tiles(ranges, from, to, forward)
    ensures from <= to + 1
    ensures StreamRanges(ranges, reply, forward).Delivered? ==> Tiles(RangesOf(StreamRanges(ranges, reply, forward).pages), from, to, forward)
    decreases |ranges|
  {
    if ranges == [] {
      assert RangesOf([]) == [];
    } else {
      var a, b := StreamRange(ranges[0], reply, forward), StreamRanges(ranges[1..], reply, forward);
      StreamRangeTiles(ranges[0], reply, forward);
      if forward {
        StreamRangesTile(ranges[1..], reply, ranges[0].through + 1, to, forward);
      } else {
        StreamRangesTile(ranges[1..], reply, from, ranges[0].from - 1, forward);
      }
      if a.Delivered? && b.Delivered? {
        RangesConcat(a.pages, b.pages);
        TilesConcat(RangesOf(a.pages), RangesOf(b.pages), from, if forward then ranges[0].through else ranges[0].from - 1, to, forward);
      }
    }
  }

  lemma {:induction false} StreamRangesPages(ranges: seq<Range>, reply: Range -> Reply, forward: bool, listing: seq<HistoricalLog>)
    requires Listing(listing) && ServedFrom(listing, reply)
    ensures PagesFrom(listing, StreamRanges(ranges, reply, forward).pages)
  {
    hide In, Listing, ServedFrom, PagesFrom, StreamRange, Then;
    NoPages(listing);
    if ranges != [] {
      StreamRangePages(ranges[0], reply, forward, listing);
      StreamRangesPages(ranges[1..], reply, forward, listing);
      ThenPages(listing, StreamRange(ranges[0], reply, forward), StreamRanges(ranges[1..], reply, forward));
    }
  }

  /**
   Range splitting preserves meaning: for every tiling of the request and every pattern of refusals, the delivered
   pages hold together exactly the listed logs of the request, each once, in order of position.
   */
  lemma SplittingPreservesMeaning(listing: seq<HistoricalLog>, ranges: seq<Range>, reply: Range -> Reply, from: int, to: int, forward: bool)
    requires Listing(listing) && ServedFrom(listing, reply) && Tiles(ranges, from, to, forward)
    requires StreamRanges(ranges, reply, forward).Delivered?
    ensures Upward(StreamRanges(ranges, reply, forward).pages, forward) == In(listing, from, to)
  {
    hide In, Listing, ServedFrom, StreamRanges, PagesFrom, Tiles;
    StreamRangesTile(ranges, reply, from, to, forward);
    StreamRangesPages(ranges, reply, forward, listing);
    ListingSorted(listing);
    TiledPagesAreListing(listing, StreamRanges(ranges, reply, forward).pages, from, to, forward);
  }
}
