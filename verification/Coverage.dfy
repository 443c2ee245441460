/**
 Block coverage: inclusive ranges kept sorted, disjoint and non-adjacent, and the choice of the next missing window,
 newest or oldest first.

 The normal form is unique, so two coverages of the same blocks are equal.
 */
module Coverage {
  import opened Blocks
  import opened Sorting

  datatype Range = Range(from: int, through: int)

  ghost predicate Covers(ranges: seq<Range>, n: int) {
    exists i :: 0 <= i < |ranges| && ranges[i].from <= n <= ranges[i].through
  }

  predicate Valid(range: Range) {
    0 <= range.from <= range.through
  }

  ghost predicate AllValid(ranges: seq<Range>) {
    forall i :: 0 <= i < |ranges| ==> Valid(ranges[i])
  }

  /** Sorted, disjoint and not adjacent. */
  ghost predicate Normal(ranges: seq<Range>) {
    && AllValid(ranges)
    && forall i, j :: 0 <= i < j < |ranges| ==> ranges[i].through + 1 < ranges[j].from
  }

  function ByFrom(range: Range): Key { Key(range.from, 0, 0) }

  /** Adds a range that starts no earlier than the last one. */
  function Join(merged: seq<Range>, range: Range): seq<Range> {
    if merged != [] && range.from <= Last(merged).through + 1 then
      if range.through > Last(merged).through
      then merged[|merged| - 1 := Range(Last(merged).from, range.through)] else merged
    else merged + [range]
  }

  function JoinAll(sorted: seq<Range>): seq<Range> {
    if sorted == [] then [] else Join(JoinAll(sorted[..|sorted| - 1]), Last(sorted))
  }

  /** The merged ranges; the source throws on an invalid range. */
  function Merge(ranges: seq<Range>): Option<seq<Range>> {
    if exists i :: 0 <= i < |ranges| && !Valid(ranges[i]) then None
    else Some(JoinAll(Sort(ranges, ByFrom)))
  }

  /** The same merge without the validity check, as the model keeps its own copy of the coverage. */
  function MergeCoverage(ranges: seq<Range>, numbers: seq<nat>, scanned: seq<Range>): seq<Range> {
    JoinAll(Sort(ranges + scanned + Singles(numbers), ByFrom))
  }

  function Singles(numbers: seq<nat>): seq<Range> {
    seq(|numbers|, i requires 0 <= i < |numbers| => Range(numbers[i], numbers[i]))
  }

  /** What the store infers when a commit names no coverage. */
  function RangesFromBlocks(numbers: seq<nat>): seq<Range> {
    JoinAll(Sort(Singles(numbers), ByFrom))
  }

  // ------------------------------------------------------------------------------------------ the normal form

  lemma CoversConcat(a: seq<Range>, b: seq<Range>, n: int)
    ensures Covers(a + b, n) <==> Covers(a, n) || Covers(b, n)
  {
    forall i | 0 <= i < |a| && a[i].from <= n <= a[i].through ensures Covers(a + b, n) {
      assert (a + b)[i] == a[i];
    }
    forall i | 0 <= i < |b| && b[i].from <= n <= b[i].through ensures Covers(a + b, n) {
      assert (a + b)[|a| + i] == b[i];
    }
  }

  lemma CoversSameElements(a: seq<Range>, b: seq<Range>, n: int)
    requires forall r :: r in a <==> r in b
    ensures Covers(a, n) <==> Covers(b, n)
  {
    forall i | 0 <= i < |a| && a[i].from <= n <= a[i].through ensures Covers(b, n) {
      assert a[i] in b;
    }
    forall i | 0 <= i < |b| && b[i].from <= n <= b[i].through ensures Covers(a, n) {
      assert b[i] in a;
    }
  }

  lemma CoversOne(range: Range, n: int)
    ensures Covers([range], n) <==> range.from <= n <= range.through
  {
    if range.from <= n <= range.through {
      assert [range][0] == range;
    }
  }

  lemma JoinCovers(merged: seq<Range>, range: Range, n: int)
    requires Normal(merged) && Valid(range)
    requires merged != [] ==> Last(merged).from <= range.from
    ensures Covers(Join(merged, range), n) <==> Covers(merged, n) || range.from <= n <= range.through
  {
    hide Covers, Normal;
    if merged != [] && range.from <= Last(merged).through + 1 {
      var front := merged[..|merged| - 1];
      var last := Last(merged);
      assert merged == front + [last];
      CoversConcat(front, [last], n);
      CoversOne(last, n);
      var grown := Range(last.from, range.through);
      CoversConcat(front, [grown], n);
      CoversOne(grown, n);
      assert merged[|merged| - 1 := grown] == front + [grown];
    } else {
      CoversConcat(merged, [range], n);
      CoversOne(range, n);
    }
  }

  lemma JoinNormal(merged: seq<Range>, range: Range)
    requires Normal(merged) && Valid(range)
    requires merged != [] ==> Last(merged).from <= range.from
    ensures Normal(Join(merged, range))
    ensures Last(Join(merged, range)).from <= range.from
  {
  }

  lemma {:induction false} JoinAllNormal(sorted: seq<Range>)
    requires Sorted(sorted, ByFrom) && AllValid(sorted)
    ensures Normal(JoinAll(sorted))
    ensures sorted != [] ==> JoinAll(sorted) != [] && Last(JoinAll(sorted)).from <= Last(sorted).from
    ensures forall n :: Covers(JoinAll(sorted), n) <==> Covers(sorted, n)
  {
    if sorted != [] {
      var front := sorted[..|sorted| - 1];
      JoinAllNormal(front);
      if front != [] {
        assert !Less(ByFrom(sorted[|sorted| - 1]), ByFrom(sorted[|sorted| - 2]));
      } else {
        assert JoinAll(front) == [];
      }
      hide Covers, Normal, Join;
      JoinNormal(JoinAll(front), Last(sorted));
      forall n ensures Covers(JoinAll(sorted), n) <==> Covers(sorted, n) {
        JoinCovers(JoinAll(front), Last(sorted), n);
        assert sorted == front + [Last(sorted)];
        CoversConcat(front, [Last(sorted)], n);
        CoversOne(Last(sorted), n);
      }
    }
  }

  lemma MergedSort(ranges: seq<Range>)
    requires AllValid(ranges)
    ensures Normal(JoinAll(Sort(ranges, ByFrom)))
    ensures forall n :: Covers(JoinAll(Sort(ranges, ByFrom)), n) <==> Covers(ranges, n)
  {
    hide Covers, JoinAll, Sort;
    var sorted := Sort(ranges, ByFrom);
    SortKeeps(ranges, ByFrom);
    SameElements(ranges, ByFrom);
    forall i | 0 <= i < |sorted| ensures Valid(sorted[i]) {
      assert sorted[i] in ranges;
    }
    JoinAllNormal(sorted);
    forall n ensures Covers(JoinAll(sorted), n) <==> Covers(ranges, n) {
      CoversSameElements(sorted, ranges, n);
    }
  }

  /** Merging fails exactly on an invalid range, and otherwise gives a normal form that covers the same heights. */
  lemma MergeIsNormalUnion(ranges: seq<Range>)
    ensures Merge(ranges).None? <==> !AllValid(ranges)
    ensures Merge(ranges).Some? ==>
              && Normal(Merge(ranges).value)
              && (forall n :: Covers(Merge(ranges).value, n) <==> Covers(ranges, n))
  {
    hide Covers, Normal, JoinAll, Sort;
    if AllValid(ranges) {
      MergedSort(ranges);
    }
  }

  lemma NonemptyCovers(b: seq<Range>)
    requires Normal(b)
    ensures b == [] || Covers(b, b[0].from)
  {
    if b != [] {
      assert b[0] in b;
    }
  }

  /** The heights a normal form covers determine it: two normal forms with one cover are equal. */
  lemma {:induction false} NormalIsUnique(a: seq<Range>, b: seq<Range>)
    requires Normal(a) && Normal(b)
    requires forall n :: Covers(a, n) <==> Covers(b, n)
    ensures a == b
    decreases |a|
  {
    if a == [] {
      NonemptyCovers(b);
    } else {
      FirstRange(a, b);
      FirstRange(b, a);
      assert a[0] == b[0];
      forall n ensures Covers(a[1..], n) <==> Covers(b[1..], n) {
        CoversTail(a, n);
        CoversTail(b, n);
      }
      NormalIsUnique(a[1..], b[1..]);
    }
  }

  lemma CoversTail(a: seq<Range>, n: int)
    requires Normal(a) && a != []
    ensures Covers(a[1..], n) <==> Covers(a, n) && n > a[0].through
  {
    forall i | 0 <= i < |a[1..]| && a[1..][i].from <= n <= a[1..][i].through ensures Covers(a, n) && n > a[0].through {
      assert a[i + 1] == a[1..][i];
    }
    forall i | 0 <= i < |a| && a[i].from <= n <= a[i].through && n > a[0].through ensures Covers(a[1..], n) {
      assert a[1..][i - 1] == a[i];
    }
  }

  lemma HeadCovers(a: seq<Range>)
    requires a != []
    ensures forall n :: a[0].from <= n <= a[0].through ==> Covers(a, n)
  {
    assert a[0] in a;
  }

  /** The first range is the lowest covered height and the run that starts there. */
  lemma FirstRange(a: seq<Range>, b: seq<Range>)
    requires Normal(a) && Normal(b) && a != []
    requires forall n :: Covers(a, n) <==> Covers(b, n)
    ensures b != [] && b[0].from <= a[0].from && (a[0].from == b[0].from ==> b[0].through >= a[0].through)
  {
    assert Covers(a, a[0].from) by { assert a[0].from <= a[0].from <= a[0].through; }
    assert Covers(b, a[0].from);
    if a[0].from == b[0].from {
      var gap := b[0].through + 1;
      assert !Covers(b, gap);
      HeadCovers(a);
    }
  }

  lemma SinglesCover(numbers: seq<nat>)
    ensures AllValid(Singles(numbers))
    ensures forall n :: Covers(Singles(numbers), n) <==> n in numbers
  {
    forall n | n in numbers ensures Covers(Singles(numbers), n) {
      var i :| 0 <= i < |numbers| && numbers[i] == n;
      assert Singles(numbers)[i] == Range(n, n);
    }
  }

  /** The model's own merge and the store's agree, and add exactly the commit's heights. */
  lemma MergeCoverageAgrees(coverage: seq<Range>, numbers: seq<nat>, scanned: seq<Range>)
    requires Normal(coverage) && AllValid(scanned)
    requires scanned != [] ==> forall n :: n in numbers ==> Covers(scanned, n)
    ensures Normal(MergeCoverage(coverage, numbers, scanned))
    ensures forall n :: Covers(MergeCoverage(coverage, numbers, scanned), n)
                    <==> Covers(coverage, n) || Covers(scanned, n) || n in numbers
    ensures Merge(coverage + (if scanned == [] then RangesFromBlocks(numbers) else scanned))
         == Some(MergeCoverage(coverage, numbers, scanned))
  {
    hide Covers, JoinAll, Sort, Normal, AllValid, Singles, Merge, Valid;
    var mine := coverage + scanned + Singles(numbers);
    SinglesCover(numbers);
    NormalIsValid(coverage);
    ValidConcat(coverage, scanned);
    ValidConcat(coverage + scanned, Singles(numbers));
    MergedSort(mine);
    MergedSort(Singles(numbers));
    NormalIsValid(RangesFromBlocks(numbers));
    var added := if scanned == [] then RangesFromBlocks(numbers) else scanned;
    ValidConcat(coverage, added);
    MergeIsNormalUnion(coverage + added);
    forall n
      ensures Covers(mine, n) <==> Covers(coverage, n) || Covers(scanned, n) || n in numbers
      ensures Covers(coverage + added, n) <==> Covers(mine, n)
    {
      CoversConcat(coverage + scanned, Singles(numbers), n);
      CoversConcat(coverage, scanned, n);
      CoversConcat(coverage, added, n);
      CoversNothing(n);
    }
    NormalIsUnique(Merge(coverage + added).value, MergeCoverage(coverage, numbers, scanned));
  }

  lemma CoversNothing(n: int)
    ensures !Covers([], n)
  {
  }

  lemma NormalIsValid(a: seq<Range>)
    requires Normal(a)
    ensures AllValid(a)
  {
  }

  lemma ValidConcat(a: seq<Range>, b: seq<Range>)
    requires AllValid(a) && AllValid(b)
    ensures AllValid(a + b)
  {
  }

  // ------------------------------------------------------------------------------------------ the methods

  method MergeBlockRanges(ranges: seq<Range>) returns (merged: Option<seq<Range>>)
    ensures merged == Merge(ranges)
  {
    var sorted := Sort(ranges, ByFrom);
    SameElements(ranges, ByFrom);
    var result := [];
    for k := 0 to |sorted|
      invariant result == JoinAll(sorted[..k])
      invariant forall i :: 0 <= i < k ==> Valid(sorted[i])
    {
      var range := sorted[k];
      if range.from < 0 || range.through < range.from {
        assert range in ranges;
        return None;
      }
      assert sorted[..k + 1][..k] == sorted[..k];
      if result != [] && range.from <= Last(result).through + 1 {
        if range.through > Last(result).through {
          result := result[|result| - 1 := Range(Last(result).from, range.through)];
        }
      } else {
        result := result + [range];
      }
    }
    assert sorted[..|sorted|] == sorted;
    forall i | 0 <= i < |ranges| ensures Valid(ranges[i]) {
      assert ranges[i] in sorted;
    }
    merged := Some(result);
  }

  /**
   The newest missing window of at most `size` heights in [from, through]: nothing newer is missing, all of it
   is missing, and it cannot be extended downwards. None exactly when nothing is missing.
   */
  method MissingRange(ranges: seq<Range>, from: int, through: int, size: nat) returns (window: Option<Range>)
    requires Normal(ranges) && size >= 1
    ensures window.None? <==> forall n :: from <= n <= through ==> Covers(ranges, n)
    ensures window.Some? ==> Newest(ranges, from, through, size, window.value)
  {
    var end := through;
    var i := |ranges|;
    while i > 0
      invariant 0 <= i <= |ranges|
      invariant end <= through
      invariant forall n :: end < n <= through ==> Covers(ranges, n)
      invariant forall j :: i <= j < |ranges| ==> ranges[j].from > end
    {
      i := i - 1;
      var range := ranges[i];
      if range.from > end { continue; }
      if range.through >= end {
        forall n | range.from <= n <= end ensures Covers(ranges, n) {
          assert ranges[i].from <= n <= ranges[i].through;
        }
        end := range.from - 1;
        continue;
      }
      NotBetween(ranges, i, end);
      if end < from { return None; }
      var start := end - size + 1;
      start := if start > range.through + 1 && start > from then start
               else if range.through + 1 > from then range.through + 1 else from;
      assert Covers(ranges, range.through) by { assert ranges[i].from <= range.through <= ranges[i].through; }
      assert !Covers(ranges, end);
      return Some(Range(start, end));
    }
    forall n | n <= end ensures !Covers(ranges, n) {
    }
    if end < from { return None; }
    assert !Covers(ranges, end);
    window := Some(Range(if end - size + 1 > from then end - size + 1 else from, end));
  }

  ghost predicate Newest(ranges: seq<Range>, from: int, through: int, size: int, w: Range) {
    && from <= w.from <= w.through <= through && w.through - w.from < size
    && (forall n :: w.from <= n <= w.through ==> !Covers(ranges, n))
    && (forall n :: w.through < n <= through ==> Covers(ranges, n))
    && (w.from == from || w.through - w.from + 1 == size || Covers(ranges, w.from - 1))
  }

  /** Nothing is covered strictly after range i up to `end` when every later range starts after `end`. */
  lemma NotBetween(ranges: seq<Range>, i: nat, end: int)
    requires Normal(ranges) && i < |ranges| && ranges[i].through < end
    requires forall j :: i < j < |ranges| ==> ranges[j].from > end
    ensures forall n :: ranges[i].through < n <= end ==> !Covers(ranges, n)
  {
    forall n | ranges[i].through < n <= end ensures !Covers(ranges, n) {
      forall j | 0 <= j < |ranges| ensures !(ranges[j].from <= n <= ranges[j].through) {
        if j < i {
          assert ranges[j].through + 1 < ranges[i].from;
        }
      }
    }
  }

  /** The oldest missing window, with the same guarantees mirrored. */
  method MissingForwardRange(ranges: seq<Range>, from: int, through: int, size: nat) returns (window: Option<Range>)
    requires Normal(ranges) && size >= 1
    ensures window.None? <==> forall n :: from <= n <= through ==> Covers(ranges, n)
    ensures window.Some? ==> Oldest(ranges, from, through, size, window.value)
  {
    var start := from;
    for i := 0 to |ranges|
      invariant from <= start
      invariant forall n :: from <= n < start ==> Covers(ranges, n)
      invariant forall j :: 0 <= j < i ==> ranges[j].through < start
    {
      var range := ranges[i];
      if range.through < start { continue; }
      if range.from <= start {
        forall n | start <= n <= range.through ensures Covers(ranges, n) {
          assert ranges[i].from <= n <= ranges[i].through;
        }
        start := range.through + 1;
        continue;
      }
      NotBefore(ranges, i, start);
      if start > through { return None; }
      var end := start + size - 1;
      end := if end < range.from && end < through then end
             else if range.from - 1 < through then range.from - 1 else through;
      assert Covers(ranges, range.from) by { assert ranges[i].from <= range.from <= ranges[i].through; }
      assert !Covers(ranges, start);
      return Some(Range(start, end));
    }
    forall n | n >= start ensures !Covers(ranges, n) {
    }
    if start > through { return None; }
    assert !Covers(ranges, start);
    window := Some(Range(start, if start + size - 1 < through then start + size - 1 else through));
  }

  ghost predicate Oldest(ranges: seq<Range>, from: int, through: int, size: int, w: Range) {
    && from <= w.from <= w.through <= through && w.through - w.from < size
    && (forall n :: w.from <= n <= w.through ==> !Covers(ranges, n))
    && (forall n :: from <= n < w.from ==> Covers(ranges, n))
    && (w.through == through || w.through - w.from + 1 == size || Covers(ranges, w.through + 1))
  }

  lemma NotBefore(ranges: seq<Range>, i: nat, start: int)
    requires Normal(ranges) && i < |ranges| && start < ranges[i].from
    requires forall j :: 0 <= j < i ==> ranges[j].through < start
    ensures forall n :: start <= n < ranges[i].from ==> !Covers(ranges, n)
  {
    forall n | start <= n < ranges[i].from ensures !Covers(ranges, n) {
      forall j | 0 <= j < |ranges| ensures !(ranges[j].from <= n <= ranges[j].through) {
        if j > i {
          assert ranges[i].through + 1 < ranges[j].from;
        }
      }
    }
  }
}
