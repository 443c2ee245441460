/**
 Where retention cuts, what it is sure to keep, and a model on which the cut makes a later commit publish a closed
 period without one of its events.
 */
module Retention {
  import opened Blocks
  import opened Coverage
  import opened ModelTypes
  import opened ModelStore
  import opened Partitions
  import opened ModelCommit
  import opened ModelSafety
  import opened ModelRuns
  import opened ModelReorgs

  datatype Limits = Limits(blocks: Option<nat>, seconds: Option<nat>)

  datatype Boundary = Boundary(storeFrom: nat, fromTime: nat)

  const RECOVERY_WINDOW: nat := 128

  function Max(a: nat, b: nat): nat { if a > b then a else b }

  function OneBefore(n: nat): nat { if n > 0 then n - 1 else 0 }

  /** The block before the last `blocks` ones. */
  function ByBlocks(head: nat, blocks: nat): nat {
    OneBefore(if head >= blocks then head - blocks + 1 else 0)
  }

  function Target(head: Header, seconds: nat): nat {
    if head.timestamp > seconds then head.timestamp - seconds else 0
  }

  /** The first height from i on that is not before `target`; `head` if there is none below it. */
  function FirstNotBefore(chain: seq<Batch>, target: nat, i: nat, head: nat): nat
    requires i <= head < |chain|
    decreases head - i
  {
    if i == head || chain[i].block.timestamp >= target then i else FirstNotBefore(chain, target, i + 1, head)
  }

  function HistoryFrom(chain: seq<Batch>, head: nat, limits: Limits, from: nat): nat
    requires head < |chain|
  {
    var byBlocks := if limits.blocks.Some? then ByBlocks(head, limits.blocks.value) else 0;
    var byTime := if limits.seconds.Some?
                  then OneBefore(FirstNotBefore(chain, Target(chain[head].block, limits.seconds.value), 0, head)) else 0;
    Max(Max(from, byBlocks), byTime)
  }

  /** None when the plan starts above the chain. */
  function Cut(chain: seq<Batch>, head: nat, limits: Limits, from: nat): Option<Boundary>
    requires head < |chain|
  {
    var historyFrom := HistoryFrom(chain, head, limits, from);
    var recoveryFrom := if head > RECOVERY_WINDOW then head - RECOVERY_WINDOW else 0;
    var limited := limits.blocks.Some? || limits.seconds.Some?;
    if historyFrom >= |chain| then None
    else Some(Boundary(if !limited || historyFrom < recoveryFrom then historyFrom else recoveryFrom,
                       chain[historyFrom].block.timestamp))
  }

  lemma {:induction false} FirstFound(chain: seq<Batch>, target: nat, i: nat, head: nat, k: nat)
    requires i <= k <= head < |chain|
    requires forall j :: i <= j < k ==> chain[j].block.timestamp < target
    requires k == head || chain[k].block.timestamp >= target
    ensures FirstNotBefore(chain, target, i, head) == k
    decreases k - i
  {
    if i < k {
      FirstFound(chain, target, i + 1, head, k);
    }
  }

  method FirstFromTime(chain: seq<Batch>, target: nat, head: nat) returns (low: nat)
    requires IsChain(chain) && head < |chain|
    ensures low == FirstNotBefore(chain, target, 0, head)
  {
    hide FirstNotBefore;
    low := 0;
    var high := head;
    while low < high
      invariant low <= high <= head
      invariant forall i :: 0 <= i < low ==> chain[i].block.timestamp < target
      invariant high == head || chain[high].block.timestamp >= target
    {
      var middle := (low + high) / 2;
      if chain[middle].block.timestamp < target { low := middle + 1; } else { high := middle; }
    }
    FirstFound(chain, target, 0, head, low);
  }

  method RetentionBoundary(chain: seq<Batch>, head: nat, limits: Limits, from: nat) returns (b: Option<Boundary>)
    requires IsChain(chain) && head < |chain|
    ensures b == Cut(chain, head, limits, from)
  {
    hide FirstNotBefore, IsChain, Target, ByBlocks;
    var historyFrom := from;
    if limits.blocks.Some? {
      var byBlocks := ByBlocks(head, limits.blocks.value);
      if byBlocks > historyFrom { historyFrom := byBlocks; }
    }
    if limits.seconds.Some? {
      var low := FirstFromTime(chain, Target(chain[head].block, limits.seconds.value), head);
      var byTime := if low > 0 then low - 1 else 0;
      if byTime > historyFrom { historyFrom := byTime; }
    }
    var recoveryFrom := if head > RECOVERY_WINDOW then head - RECOVERY_WINDOW else 0;
    var limited := limits.blocks.Some? || limits.seconds.Some?;
    var storeFrom := if !limited || historyFrom < recoveryFrom then historyFrom else recoveryFrom;
    if historyFrom >= |chain| { return None; }
    b := Some(Boundary(storeFrom, chain[historyFrom].block.timestamp));
  }

  /** A block that both limits and the plan ask for. */
  predicate Asked(chain: seq<Batch>, limits: Limits, from: nat, head: nat, n: nat)
    requires head < |chain|
  {
    && from <= n <= head
    && (limits.blocks.Some? ==> n + limits.blocks.value > head)
    && (limits.seconds.Some? ==> chain[n].block.timestamp + limits.seconds.value >= chain[head].block.timestamp)
  }

  lemma {:induction false} NotBeforeFirst(chain: seq<Batch>, target: nat, i: nat, head: nat, n: nat)
    requires i <= n <= head < |chain| && chain[n].block.timestamp >= target
    ensures FirstNotBefore(chain, target, i, head) <= n
    decreases head - i
  {
    if i < n && chain[i].block.timestamp < target {
      NotBeforeFirst(chain, target, i + 1, head, n);
    }
  }

  /**
   Retention keeps every block it is asked for, and the one before it, with every closed row that ends after that one;
   under a limit the window that recovery searches is kept as well.
   */
  lemma CutKeeps(chain: seq<Batch>, head: nat, limits: Limits, from: nat)
    requires IsChain(chain) && head < |chain| && Cut(chain, head, limits, from).Some?
    ensures var b := Cut(chain, head, limits, from).value;
            && (limits.blocks.Some? || limits.seconds.Some? ==> b.storeFrom == 0 || b.storeFrom + RECOVERY_WINDOW <= head)
            && (forall n: nat :: Asked(chain, limits, from, head, n) ==>
                  var kept := if n > from then n - 1 else n; b.storeFrom <= kept && b.fromTime <= chain[kept].block.timestamp)
  {
    forall n: nat | Asked(chain, limits, from, head, n)
      ensures HistoryFrom(chain, head, limits, from) <= if n > from then n - 1 else n
    {
      if limits.seconds.Some? {
        NotBeforeFirst(chain, Target(chain[head].block, limits.seconds.value), 0, head, n);
      }
    }
  }

  // ------------------------------------------------------------------------------------------ an event lost

  /** Two hundred blocks; those of heights 1 to 198 lie in the period [1000, 2000), and block 1 has the only event. */
  function LostTime(i: nat): nat { if i == 0 then 0 else if i < 199 then 999 + i else 2000 }

  function LostBlock(i: nat): Batch {
    Batch(Header(i, i + 1, i, LostTime(i)), if i == 1 then [7] else [])
  }

  function LostChain(): seq<Batch> { seq(200, i requires 0 <= i < 200 => LostBlock(i)) }

  const LOST_PLAN := Plan(map["p" := 1000], true, false)

  function LiveBatches(from: nat): map<nat, Batch> { map n: nat | from <= n < 199 :: LostBlock(n) }

  /** Followed live from block 0 to block 198: every block since is stored and covered. */
  function LostState(): State {
    State(Store([Range(1, 198)], LiveBatches(1), map[]), Some(LostBlock(198).block), [Range(1, 198)], 0,
          map[("p", 1000) := LiveBatches(1)], {}, map["p" := 1000], map["p" := LostBlock(0).block], None)
  }

  /** The same model once retention has cut at height 70. */
  function LostPruned(): State {
    State(Store([Range(70, 198)], LiveBatches(70), map[]), Some(LostBlock(198).block), [Range(70, 198)], 0,
          map[], {}, map["p" := 1000], map["p" := LostBlock(0).block], None)
  }

  lemma LostIsChain()
    ensures IsChain(LostChain()) && |LostChain()| == 200 && forall i :: 0 <= i < 200 ==> LostChain()[i] == LostBlock(i)
  {
  }

  lemma OneRangeCovers(from: nat, through: nat)
    requires from <= through
    ensures Normal([Range(from, through)]) && forall n :: Covers([Range(from, through)], n) <==> from <= n <= through
  {
    forall n ensures Covers([Range(from, through)], n) <==> from <= n <= through {
      CoversOne(Range(from, through), n);
    }
  }

  lemma LostCoverage(from: nat)
    requires 1 <= from <= 198
    ensures WellKept(Store([Range(from, 198)], LiveBatches(from), map[]))
    ensures StoredOnChain(LostChain(), LiveBatches(from)) && CoveredStored(LostChain(), [Range(from, 198)], LiveBatches(from))
  {
    hide Covers, Normal, LostChain, LostTime;
    LostIsChain();
    OneRangeCovers(from, 198);
  }

  lemma LostAgrees(s: State, from: nat)
    requires 1 <= from <= 198 && s.store == Store([Range(from, 198)], LiveBatches(from), map[]) && s.coverage == s.store.coverage
    requires CacheSound(LostChain(), s, LOST_PLAN) && s.applied == Some(LostBlock(198).block) && s.origin == None
    requires s.liveFrom == map["p" := 1000] && s.liveBoundary == map["p" := LostBlock(0).block]
    ensures Agrees(LostChain(), s, LOST_PLAN)
  {
    hide Covers, Normal, CacheSound, WellKept, StoredOnChain, CoveredStored, LiveBatches, LostChain, LostTime, IsChain;
    LostIsChain();
    LostCoverage(from);
  }

  lemma LostCache()
    ensures CacheSound(LostChain(), LostState(), LOST_PLAN) && CacheSound(LostChain(), LostPruned(), LOST_PLAN)
  {
    LostIsChain();
    hide LostChain;
    assert Aligned(1000, 1000) by { assert 1000 == Times(1, 1000); }
    assert EntrySound(LostChain(), LostState(), LOST_PLAN, ("p", 1000));
  }

  /** The state before retention satisfies the whole invariant. */
  lemma LostStateTracks()
    ensures Tracks(LostChain(), LostState(), LOST_PLAN)
  {
    hide Agrees, CacheSound, LostChain;
    LostIsChain();
    LostCache();
    LostAgrees(LostState(), 1);
  }

  /** Retention of one block, at head 198, cuts at height 70, above the live boundary's successor. */
  lemma LostCut()
    ensures Cut(LostChain(), 198, Limits(Some(1), None), 0) == Some(Boundary(70, LostTime(197)))
    ensures Pruned(LostState(), 70, LostTime(197)) == LostPruned()
    ensures !KeepsBoundaries(LostState(), 70, LostTime(197))
  {
    hide LostChain, LiveBatches, Retained;
    LostIsChain();
    LostRetained();
    var next := Pruned(LostState(), 70, LostTime(197));
    assert next.cache == map[];
    assert next.completed == {};
    assert "p" in LostState().liveFrom && "p" in LostState().liveBoundary;
  }

  lemma LostRetained()
    ensures Retained(LostState().store, 70, LostTime(197)) == LostPruned().store
  {
    assert Above([Range(1, 198)], 70) == [Range(70, 198)] + Above([], 70);
    var next := Retained(LostState().store, 70, LostTime(197));
    assert next.batches == LiveBatches(70);
    assert next.rows == map[];
  }

  function Closing(): seq<Batch> { [LostBlock(199)] }

  lemma LostInput()
    ensures Agrees(LostChain(), LostPruned(), LOST_PLAN) && GoodInput(LostChain(), LostPruned(), Closing(), true, [])
  {
    hide Agrees, CacheSound, LostChain, LiveBatches;
    LostIsChain();
    LostCache();
    LostAgrees(LostPruned(), 70);
    assert forall n :: !Covers([], n);
  }

  lemma LostOrder()
    ensures var ordered := Ascending(LiveBatches(70));
            ordered != [] && ordered[0] == LostBlock(70) && Last(ordered) == LostBlock(198)
    ensures LastAtMost(Ascending(LiveBatches(70)), 198) == Some(LostBlock(198))
    ensures FirstAtLeast(Ascending(LiveBatches(70)), 200) == None
  {
    hide Ascending, LostTime;
    var known := LiveBatches(70);
    AscendingMax(known, 198);
    assert 70 in known;
    AscendingHead(known);
    NoneAtLeast(known, 200);
  }

  lemma {:induction false} NoneFrom(batches: seq<Batch>, n: int)
    requires forall b :: b in batches ==> b.block.number < n
    ensures FirstAtLeast(batches, n) == None
  {
    if batches != [] {
      assert batches[0] in batches;
      NoneFrom(batches[1..], n);
    }
  }

  lemma NoneAtLeast(known: map<nat, Batch>, n: int)
    requires forall k :: k in known ==> known[k].block.number < n
    ensures FirstAtLeast(Ascending(known), n) == None
  {
    forall b | b in Ascending(known) ensures b.block.number < n {
      AscendingMembers(known, b);
    }
    NoneFrom(Ascending(known), n);
  }

  lemma LostJoined()
    ensures Joined(LostPruned(), Closing()) == [LostBlock(198), LostBlock(199)]
    ensures ("p", 1000) in Examined(LostPruned(), LOST_PLAN, Closing(), true)
  {
    hide Ascending, LiveBatches, Gaps, Elapsed, LastAtMost, FirstAtLeast;
    LostOrder();
    var s := LostPruned();
    assert Predecessor(s, Closing()[0].block) == Some(LostBlock(198));
    assert Successor(s, Last(Closing()).block) == None;
    assert Floor(LostBlock(198).block.timestamp, 1000) == 1000 by {
      assert Aligned(1000, 1000) by { assert 1000 == Times(1, 1000); }
      FloorUnique(LostBlock(198).block.timestamp, 1000, 1000);
    }
    var own := Maybe(Predecessor(s, Closing()[0].block));
    assert own[0] == LostBlock(198);
    assert 1000 in Own(own, 1000);
    assert 1000 in Periods(s, Closing(), true, 1000);
    assert LOST_PLAN.projections["p"] == 1000;
  }

  lemma LostCombined()
    ensures Combined(LostPruned(), ("p", 1000), 1000, Closing()) == LiveBatches(70)
  {
    var incoming := PutBatches(map[], Closing());
    assert incoming == map[199 := LostBlock(199)] by {
      assert Closing()[..0] == [];
    }
    assert InTime(incoming, 1000, 2000) == map[];
    assert InTime(LiveBatches(70), 1000, 2000) == LiveBatches(70);
  }

  /** In normal form a stretch that is covered lies in one range. */
  lemma NormalSpans(coverage: seq<Range>, lo: int, hi: int)
    requires Normal(coverage) && lo <= hi && forall n :: lo <= n <= hi ==> Covers(coverage, n)
    ensures Spans(coverage, lo, hi)
  {
    assert Covers(coverage, lo);
    var i :| 0 <= i < |coverage| && coverage[i].from <= lo <= coverage[i].through;
    if coverage[i].through < hi {
      assert Covers(coverage, coverage[i].through + 1);
      var j :| 0 <= j < |coverage| && coverage[j].from <= coverage[i].through + 1 <= coverage[j].through;
      Apart(coverage, i, j);
    }
  }

  lemma Apart(coverage: seq<Range>, i: nat, j: nat)
    requires Normal(coverage) && i < |coverage| && j < |coverage| && coverage[j].through > coverage[i].through
    ensures coverage[j].from > coverage[i].through + 1
  {
    assert Valid(coverage[i]);
  }

  lemma LostSpans()
    ensures Spans(NextCoverage(LostPruned(), Closing(), []), 70, 199)
  {
    hide Covers, Normal, MergeCoverage, LiveBatches;
    OneRangeCovers(70, 198);
    assert NumbersOf(Closing()) == [199];
    MergeCoverageAgrees([Range(70, 198)], [199], []);
    NormalSpans(MergeCoverage([Range(70, 198)], [199], []), 70, 199);
  }

  lemma LostVerdict()
    ensures VerdictOn(LostPruned(), LOST_PLAN, ("p", 1000), Closing(), true, []) == Publish(true, true, Ascending(LiveBatches(70)))
  {
    hide Ascending, LiveBatches, LastAtMost, FirstAtLeast, Joined, NextCoverage, Spans, Combined, StartKnown, LastBefore;
    LostJoined();
    LostCombined();
    LostOrder();
    LostSpans();
    var c := ContextOf(LostPruned(), LOST_PLAN, "p", Closing(), true, []);
    assert c.liveFrom == Some(1000) && c.liveBoundary == Some(LostBlock(0).block);
    assert AtLiveBoundary(c, 1000);
    assert FirstFrom(c.joined, 2000) == Some(LostBlock(199).block) by {
      assert c.joined[1..] == [LostBlock(199)];
    }
  }

  lemma {:induction false} FlatOfNone(batches: seq<Batch>)
    requires forall b :: b in batches ==> b.events == []
    ensures Flat(batches) == []
  {
    if batches != [] {
      FlatOfNone(batches[..|batches| - 1]);
      assert Last(batches) in batches;
    }
  }

  lemma LostEvents()
    ensures Flat(Ascending(LiveBatches(70))) == []
    ensures EventsIn(LostChain(), 1000, 2000) != []
  {
    hide Ascending, Flat, EventsIn;
    forall b | b in Ascending(LiveBatches(70)) ensures b.events == [] {
      AscendingMembers(LiveBatches(70), b);
    }
    FlatOfNone(Ascending(LiveBatches(70)));
    NoEvents(LostChain(), 1000, 2000);
    assert Eventful(LostChain(), 1, 1000, 2000);
  }

  /**
   The live-boundary clause is unsound after retention: a state that tracks its chain, the cut that retention makes
   there, the next live block, and a row published as closed and complete without its period's only event.
   */
  lemma RetentionLosesEvent()
    ensures Tracks(LostChain(), LostState(), LOST_PLAN)
    ensures Cut(LostChain(), 198, Limits(Some(1), None), 0) == Some(Boundary(70, LostTime(197)))
    ensures var s := Pruned(LostState(), 70, LostTime(197));
            && GoodInput(LostChain(), s, Closing(), true, []) && ("p", 1000) in Examined(s, LOST_PLAN, Closing(), true)
            && exists row :: Published(s, LOST_PLAN, ("p", 1000), Closing(), true, [], row) && row.period == Closed && row.complete
                 && row.events == [] && EventsIn(LostChain(), 1000, 2000) != []
  {
    hide *;
    LostStateTracks();
    LostCut();
    LostInput();
    LostJoined();
    LostVerdict();
    LostEvents();
    LostRow();
  }

  lemma LostRow()
    requires VerdictOn(LostPruned(), LOST_PLAN, ("p", 1000), Closing(), true, []) == Publish(true, true, Ascending(LiveBatches(70)))
    requires Flat(Ascending(LiveBatches(70))) == []
    ensures exists row :: Published(LostPruned(), LOST_PLAN, ("p", 1000), Closing(), true, [], row)
                          && row.period == Closed && row.complete && row.events == []
  {
    hide VerdictOn, Ascending, LiveBatches, Flat, LostPruned;
    var row := RowFor(LostPruned(), LOST_PLAN, ("p", 1000), Closing(), true, Publish(true, true, Ascending(LiveBatches(70))));
    assert Published(LostPruned(), LOST_PLAN, ("p", 1000), Closing(), true, [], row);
  }
}
