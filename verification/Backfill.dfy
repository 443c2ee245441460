/**
 The history worker: pick the next missing window, fetch it, commit what arrives, repeat. A failed attempt may
 commit only the part of the window that came first in the chosen direction.
 */
module Backfill {
  import opened Blocks
  import opened Coverage

  /** The part of a window that one attempt commits: its first `n` heights in the direction of travel. */
  function Arrived(window: Range, n: nat, forward: bool): Range {
    if forward then Range(window.from, window.from + n - 1) else Range(window.through - n + 1, window.through)
  }

  function Heights(range: Range): seq<int> {
    if range.through < range.from then [] else seq(range.through - range.from + 1, i => range.from + i)
  }

  ghost predicate Distinct(s: seq<int>) {
    forall i, j :: 0 <= i < j < |s| ==> s[i] != s[j]
  }

  class Worker {
    var coverage: seq<Range>
    ghost var committed: seq<int>

    constructor (initial: seq<Range>)
      ensures coverage == initial && committed == []
    {
      coverage, committed := initial, [];
    }

    /** Committed heights were missing, lie in the request, and were committed once; coverage grew by exactly them. */
    ghost predicate Exact(initial: seq<Range>, from: int, through: int)
      reads this
    {
      && Normal(coverage) && Distinct(committed)
      && (forall n :: n in committed ==> from <= n <= through && !Covers(initial, n))
      && (forall n :: Covers(coverage, n) <==> Covers(initial, n) || n in committed)
    }

    /**
     One attempt: a window is fetched, all of it still missing, and `arrives` of its heights reach the store; the others
     are missing as before and will be fetched again. False when nothing is missing.
     */
    method Step(ghost initial: seq<Range>, from: int, through: int, size: nat, forward: bool, arrives: nat)
      returns (more: bool, ghost asked: Range)
      requires Exact(initial, from, through) && from >= 0 && size >= 1
      modifies this
      ensures Exact(initial, from, through)
      ensures more ==> from <= asked.from <= asked.through <= through && asked.through - asked.from < size
      ensures more ==> forall n :: asked.from <= n <= asked.through ==> !Covers(old(coverage), n)
      ensures more ==> var width := asked.through - asked.from + 1;
                committed == old(committed) + Heights(Arrived(asked, if arrives < width then arrives else width, forward))
      ensures !more ==> committed == old(committed) && forall n :: from <= n <= through ==> Covers(coverage, n)
      ensures more && arrives >= 1 ==> |committed| > |old(committed)|
    {
      var window: Option<Range>;
      if forward {
        window := MissingForwardRange(coverage, from, through, size);
      } else {
        window := MissingRange(coverage, from, through, size);
      }
      if window.None? { return false, Range(0, 0); }
      var range := window.value;
      asked := range;
      var width := range.through - range.from + 1;
      var n := if arrives < width then arrives else width;
      if n > 0 {
        var part := Arrived(range, n, forward);
        var merged := MergeBlockRanges(coverage + [part]);
        Commits(initial, coverage, committed, part, from, through);
        coverage := merged.value;
        committed := committed + Heights(part);
      }
      more := true;
    }

    /**
     Repeated attempts: no height is ever committed twice, and when the worker reports it is done the whole request
     is covered. If every attempt commits something it is done within one attempt more than the request has heights.
     */
    method Run(from: int, through: int, size: nat, forward: bool, arrivals: seq<nat>) returns (done: bool)
      requires Normal(coverage) && committed == [] && from >= 0 && size >= 1
      modifies this
      ensures Exact(old(coverage), from, through)
      ensures done ==> forall n :: from <= n <= through ==> Covers(coverage, n)
      ensures (forall i :: 0 <= i < |arrivals| ==> arrivals[i] >= 1) && |arrivals| > through - from + 1 && arrivals != []
              ==> done
    {
      ghost var initial := coverage;
      for k := 0 to |arrivals|
        invariant Exact(initial, from, through)
        invariant (forall i :: 0 <= i < |arrivals| ==> arrivals[i] >= 1) ==> |committed| >= k
      {
        var more, asked := Step(initial, from, through, size, forward, arrivals[k]);
        if !more { return true; }
      }
      DistinctBounded(committed, from, through);
      done := false;
    }
  }

  lemma HeightsOf(range: Range)
    ensures Distinct(Heights(range))
    ensures forall n :: n in Heights(range) <==> range.from <= n <= range.through
  {
    forall n | range.from <= n <= range.through ensures n in Heights(range) {
      assert Heights(range)[n - range.from] == n;
    }
  }

  lemma Commits(initial: seq<Range>, coverage: seq<Range>, committed: seq<int>, part: Range, from: int, through: int)
    requires Normal(coverage) && Valid(part) && Distinct(committed)
    requires forall n :: n in committed ==> from <= n <= through && !Covers(initial, n)
    requires forall n :: Covers(coverage, n) <==> Covers(initial, n) || n in committed
    requires forall n :: part.from <= n <= part.through ==> from <= n <= through && !Covers(coverage, n)
    ensures var merged := Merge(coverage + [part]);
            var all := committed + Heights(part);
            && merged.Some? && Normal(merged.value) && Distinct(all)
            && (forall n :: n in all ==> from <= n <= through && !Covers(initial, n))
            && (forall n :: Covers(merged.value, n) <==> Covers(initial, n) || n in all)
  {
    hide Covers, Normal, Merge, Heights;
    NormalIsValid(coverage);
    OneValid(part);
    ValidConcat(coverage, [part]);
    MergeIsNormalUnion(coverage + [part]);
    HeightsOf(part);
    forall n ensures Covers(coverage + [part], n) <==> Covers(initial, n) || n in committed || n in Heights(part) {
      CoversConcat(coverage, [part], n);
      CoversOne(part, n);
    }
    DistinctConcat(committed, Heights(part));
  }

  lemma OneValid(part: Range)
    requires Valid(part)
    ensures AllValid([part])
  {
  }

  lemma DistinctConcat(a: seq<int>, b: seq<int>)
    requires Distinct(a) && Distinct(b) && forall n :: n in a ==> n !in b
    ensures Distinct(a + b)
  {
    var all := a + b;
    forall i, j | 0 <= i < j < |all| ensures all[i] != all[j] {
      if i < |a| <= j {
        assert a[i] in a && b[j - |a|] in b;
      }
    }
  }

  lemma {:induction false} DistinctBounded(s: seq<int>, lo: int, hi: int)
    requires Distinct(s) && forall n :: n in s ==> lo <= n <= hi
    ensures |s| <= if hi < lo then 0 else hi - lo + 1
    decreases if hi < lo then 0 else hi - lo + 1
  {
    if s == [] {
    } else if hi in s {
      var i :| 0 <= i < |s| && s[i] == hi;
      var rest := s[..i] + s[i + 1..];
      assert forall n :: n in rest ==> n in s;
      forall n | n in rest ensures n <= hi - 1 {
        var k :| 0 <= k < |rest| && rest[k] == n;
        assert s[if k < i then k else k + 1] == n;
      }
      DistinctBounded(rest, lo, hi - 1);
    } else {
      assert s[0] in s;
      DistinctBounded(s, lo, hi - 1);
    }
  }
}
