/** On a stable canonical chain the live chain reverts at most once and then catches up eight blocks a step. */
module LiveChainConverges {
  import opened Blocks
  import opened OrderedMap
  import opened LiveChain
  import opened LiveChainRuns

  /** A chain from height 0; its last block is the head. */
  ghost predicate Canonical(canon: seq<Block>) {
    canon != [] && Linked(canon) && canon[0].number == 0
  }

  function Top(canon: seq<Block>): nat
    requires canon != []
  {
    |canon| - 1
  }

  /** What a provider answers once the chain is stable. */
  function Stable(canon: seq<Block>): Input
    requires canon != []
  {
    Input(Head(Top(canon), Some(Last(canon).hash)),
          map n | 0 <= n < |canon| :: canon[n],
          map n | 0 <= n < |canon| :: canon[n].hash)
  }

  function Follow(s: State, canon: seq<Block>, steps: nat): (State, seq<Update>)
    requires canon != []
  {
    Run(s, seq(steps, _ => Stable(canon)))
  }

  /** The retained block at `at` is canonical and nothing newer is. */
  ghost predicate HighestCanonical(s: State, canon: seq<Block>, at: nat) {
    && at < |s.retained|
    && s.retained[at].0 < |canon| && s.retained[at].1 == canon[s.retained[at].0]
    && forall j :: at < j < |s.retained| && s.retained[j].0 < |canon| ==> s.retained[j].1 != canon[s.retained[j].0]
  }

  /** What a caller can check beforehand: the cursor is not above the head and a retained block is canonical. */
  ghost predicate Rejoinable(s: State, canon: seq<Block>) {
    && s.cursor.Some? && s.cursor.value.number < |canon|
    && exists at :: HighestCanonical(s, canon, at)
  }

  /** Bursts of eight that cover n blocks. */
  function Bursts(n: nat): nat { (n + 7) / 8 }

  /** Steps to reach the head from the canonical height `a`, after a revert when the cursor is not canonical. */
  function Budget(canon: seq<Block>, s: State, a: nat): nat
    requires s.cursor.Some? && a < |canon|
  {
    (if s.cursor.value.number == a then 0 else 1) + Bursts(Top(canon) - a)
  }

  function Journey(canon: seq<Block>, s: State, a: nat): seq<Update>
    requires s.cursor.Some? && a < |canon|
  {
    (if s.cursor.value.number == a then [] else [Revert(a + 1, canon[a])]) + Applies(canon[a + 1..])
  }

  lemma StableAnswers(canon: seq<Block>)
    requires Canonical(canon)
    ensures Answers(Stable(canon).loads)
    ensures forall n :: 0 <= n < |canon| ==> canon[n].number == n
  {
    AllLinkedNumbers(canon);
  }

  lemma {:induction false} LinkedNoConflict(parent: Block, updates: seq<Block>)
    requires Linked([parent] + updates)
    ensures Conflict(Some(parent), updates) == |updates|
    decreases |updates|
  {
    if updates != [] {
      var all := [parent] + updates;
      assert LinkedAt(all, 1);
      SliceLinked(all, 1, |all|);
      assert all[1..|all|] == [updates[0]] + updates[1..];
      LinkedNoConflict(updates[0], updates[1..]);
    }
  }

  lemma StableLoads(canon: seq<Block>, cursor: Option<Block>, lo: nat, hi: nat)
    requires Canonical(canon) && lo <= hi < |canon|
    requires Wanted(cursor, Top(canon)) == seq(hi - lo + 1, i => lo + i)
    ensures var wanted := Wanted(cursor, Top(canon));
            var ready := Fill(map[], wanted, Stable(canon).loads);
            && AllReady(wanted, ready)
            && Collect(wanted, ready) == canon[lo..hi + 1]
            && ready - Numbers(canon[lo..hi + 1]) == map[]
  {
    hide Wanted, Linked, Numbers;
    StableAnswers(canon);
    var wanted := Wanted(cursor, Top(canon));
    var ready := Fill(map[], wanted, Stable(canon).loads);
    var part := canon[lo..hi + 1];
    forall n | n in ready ensures n in Numbers(part) {
      assert n in wanted;
      NumberOf(part, n - lo);
    }
  }

  lemma NumberOf(blocks: seq<Block>, i: nat)
    requires i < |blocks|
    ensures blocks[i].number in Numbers(blocks)
  {
  }

  /** From a canonical cursor below the head, one step applies the next blocks, eight at most. */
  lemma Advances(s: State, canon: seq<Block>, stack: seq<Block>, depth: nat, hi: nat)
    requires Canonical(canon) && Agrees(s, stack, depth) && s.ready == map[]
    requires stack != [] && Last(stack).number < Top(canon) && Last(stack) == canon[Last(stack).number]
    requires hi == Min(Last(stack).number + BURST, Top(canon))
    ensures var (next, outcome) := Step(s, Stable(canon));
            var more := canon[Last(stack).number + 1..hi + 1];
            && outcome == Emitted(Applies(more))
            && next.ready == map[] && next.cursor == Some(canon[hi])
            && next.retained == Evict(PutAll(s.retained, more), WINDOW)
  {
    hide Conflict, PutAll, Evict, Applies, Collect, Fill, AllReady, Numbers, Answers, Held, Linked;
    var a := Last(stack).number;
    var more := canon[a + 1..hi + 1];
    WantsNext(s.cursor, canon, a, hi);
    StableLoads(canon, s.cursor, a + 1, hi);
    NextLinks(canon, a, hi);
    assert Last(more) == canon[hi];
  }

  lemma WantsNext(cursor: Option<Block>, canon: seq<Block>, a: nat, hi: nat)
    requires canon != [] && cursor.Some? && cursor.value.number == a < Top(canon) && hi == Min(a + BURST, Top(canon))
    ensures Wanted(cursor, Top(canon)) == seq(hi - (a + 1) + 1, i => a + 1 + i)
  {
  }

  lemma NextLinks(canon: seq<Block>, a: nat, hi: nat)
    requires Canonical(canon) && a < hi < |canon|
    ensures var more := canon[a + 1..hi + 1];
            Conflict(Some(canon[a]), more) == |more| && more[0].number == a + 1
  {
    var more := canon[a + 1..hi + 1];
    StableAnswers(canon);
    SliceLinked(canon, a, hi + 1);
    assert canon[a..hi + 1] == [canon[a]] + more;
    LinkedNoConflict(canon[a], more);
  }

  lemma AppliesSplit(blocks: seq<Block>, lo: nat, mid: nat)
    requires lo <= mid <= |blocks|
    ensures Applies(blocks[lo..mid]) + Applies(blocks[mid..]) == Applies(blocks[lo..])
  {
  }

  lemma BudgetShrinks(top: nat, a: nat, hi: nat, steps: nat)
    requires a < top && hi == Min(a + BURST, top) && steps >= Bursts(top - a)
    ensures steps - 1 >= Bursts(top - hi)
  {
  }

  lemma FollowStep(s: State, canon: seq<Block>, steps: nat)
    requires canon != [] && steps > 0
    ensures var (next, now) := Seen(Step(s, Stable(canon)));
            var (end, rest) := Follow(next, canon, steps - 1);
            Follow(s, canon, steps) == (end, now + rest)
  {
    var input := Stable(canon);
    var inputs := seq(steps, _ => input);
    assert inputs[1..] == seq(steps - 1, _ => input);
  }

  lemma Arrived(s: State, canon: seq<Block>)
    requires canon != [] && s.cursor == Some(Last(canon)) && Last(canon).number == Top(canon)
    ensures Seen(Step(s, Stable(canon))) == (s, [])
  {
  }

  /** One burst: the state agrees with the grown stack, whose top is the canonical block at `hi`. */
  lemma Burst(s: State, canon: seq<Block>, stack: seq<Block>, depth: nat, hi: nat)
    returns (grown: seq<Block>, deeper: nat)
    requires Canonical(canon) && Agrees(s, stack, depth) && s.ready == map[]
    requires stack != [] && Last(stack).number < Top(canon) && Last(stack) == canon[Last(stack).number]
    requires hi == Min(Last(stack).number + BURST, Top(canon))
    ensures var (next, now) := Seen(Step(s, Stable(canon)));
            && Agrees(next, grown, deeper) && next.ready == map[]
            && grown != [] && Last(grown) == canon[hi] && canon[hi].number == hi
            && now == Applies(canon[Last(stack).number + 1..hi + 1])
  {
    hide Step, Agrees, Applies, Stable, Canonical, AllSound, Replay, Depth, Linked, Top;
    var a := Last(stack).number;
    CanonicalTop(canon);
    StackBounds(s, stack, depth);
    StableAnswers(canon);
    Advances(s, canon, stack, depth, hi);
    StepKeeps(s, Stable(canon), stack, depth);
    StackGrows(stack, depth, canon, a, hi);
    var now := Applies(canon[a + 1..hi + 1]);
    grown, deeper := Replay(stack, now), Depth(stack, depth, now);
  }

  lemma StackBounds(s: State, stack: seq<Block>, depth: nat)
    requires Agrees(s, stack, depth)
    ensures Linked(stack) && depth <= WINDOW
  {
  }

  lemma CanonicalTop(canon: seq<Block>)
    requires Canonical(canon)
    ensures canon != [] && Top(canon) == |canon| - 1
    ensures Last(canon) == canon[Top(canon)] && Last(canon).number == Top(canon)
  {
    StableAnswers(canon);
  }

  lemma StackTop(s: State, stack: seq<Block>, depth: nat)
    requires Agrees(s, stack, depth)
    ensures stack != [] <==> s.cursor.Some?
    ensures stack != [] ==> s.cursor == Some(Last(stack)) && s.retained != [] && Last(s.retained).1 == Last(stack)
  {
  }

  lemma BurstBounds(top: nat, a: nat, steps: nat)
    requires a <= top && steps >= Bursts(top - a)
    ensures steps == 0 ==> a == top
    ensures a == top && steps > 0 ==> steps - 1 >= Bursts(top - a)
    ensures a < top ==> a < Min(a + BURST, top) <= top
  {
  }

  lemma {:induction false} CatchesUp(s: State, canon: seq<Block>, stack: seq<Block>, depth: nat, steps: nat)
    requires Canonical(canon) && Agrees(s, stack, depth) && s.ready == map[]
    requires stack != [] && Last(stack).number <= Top(canon) && Last(stack) == canon[Last(stack).number]
    requires steps >= Bursts(Top(canon) - Last(stack).number)
    ensures Follow(s, canon, steps).0.cursor == Some(Last(canon))
    ensures Follow(s, canon, steps).1 == Applies(canon[Last(stack).number + 1..])
    decreases steps
  {
    hide *;
    CanonicalTop(canon);
    StackTop(s, stack, depth);
    var a := Last(stack).number;
    var top := Top(canon);
    var hi := Min(a + BURST, top);
    BurstBounds(top, a, steps);
    if steps == 0 {
      FollowNone(s, canon);
      NoneApplied(canon);
    } else if a == top {
      Arrived(s, canon);
      FollowStep(s, canon, steps);
      CatchesUp(s, canon, stack, depth, steps - 1);
    } else {
      var grown, deeper := Burst(s, canon, stack, depth, hi);
      FollowStep(s, canon, steps);
      BudgetShrinks(top, a, hi, steps);
      AppliesSplit(canon, a + 1, hi + 1);
      CatchesUp(Seen(Step(s, Stable(canon))).0, canon, grown, deeper, steps - 1);
    }
  }

  lemma NoneApplied(canon: seq<Block>)
    ensures Applies(canon[|canon|..]) == []
  {
  }

  lemma FollowNone(s: State, canon: seq<Block>)
    requires canon != []
    ensures Follow(s, canon, 0) == (s, [])
  {
  }

  lemma StackGrows(stack: seq<Block>, depth: nat, canon: seq<Block>, a: nat, hi: nat)
    requires Linked(stack) && Canonical(canon) && depth <= WINDOW && stack != []
    requires a <= hi < |canon| && Last(stack) == canon[a]
    ensures var more := canon[a + 1..hi + 1];
            && Replay(stack, Applies(more)) == stack + more
            && Last(stack + more) == canon[hi] && canon[hi].number == hi
  {
    var more := canon[a + 1..hi + 1];
    StableAnswers(canon);
    SliceLinked(canon, a + 1, hi + 1);
    if more != [] {
      assert LinkedAt(canon, a + 1);
    }
    AppendLinked(stack, more);
    AppliesSound(stack, depth, more);
  }

  /**
   A cursor off the canonical chain, at or below the head: the first loaded block conflicts with it. The
   attempt then resolves a conflict at height c + 1, or at c itself when the head is no higher.
   */
  lemma OffChainConflicts(s: State, canon: seq<Block>, stack: seq<Block>, depth: nat)
    returns (value: Block, ready: map<nat, Block>)
    requires Canonical(canon) && Agrees(s, stack, depth) && s.ready == map[]
    requires HashIdentifies(stack, canon)
    requires stack != [] && Last(stack).number <= Top(canon) && Last(stack) != canon[Last(stack).number]
    ensures Step(s, Stable(canon)) == Resolve(s, ready, value, Stable(canon).headers)
  {
    hide Conflict, Resolve, Collect, Fill, AllReady, Numbers, Answers, Held, Linked;
    var c := Last(stack).number;
    var lo := if c == Top(canon) then c else c + 1;
    var hi := Min(lo + BURST - 1, Top(canon));
    WantsFrom(s.cursor, canon, lo, hi);
    StableLoads(canon, s.cursor, lo, hi);
    assert stack[|stack| - 1].hash != canon[c].hash;
    ready := Fill(map[], Wanted(s.cursor, Top(canon)), Stable(canon).loads);
    var updates := canon[lo..hi + 1];
    value := updates[0];
    FirstConflicts(canon, Last(stack), lo, hi);
  }

  lemma WantsFrom(cursor: Option<Block>, canon: seq<Block>, lo: nat, hi: nat)
    requires canon != [] && cursor.Some? && cursor.value.number <= Top(canon)
    requires lo == if cursor.value.number == Top(canon) then Top(canon) else cursor.value.number + 1
    requires hi == Min(lo + BURST - 1, Top(canon))
    ensures Wanted(cursor, Top(canon)) == seq(hi - lo + 1, i => lo + i)
  {
  }

  lemma FirstConflicts(canon: seq<Block>, cursor: Block, lo: nat, hi: nat)
    requires Canonical(canon) && lo <= hi < |canon| && cursor.number <= lo <= cursor.number + 1
    requires cursor.hash != canon[cursor.number].hash
    ensures Conflict(Some(cursor), canon[lo..hi + 1]) == 0
    ensures canon[lo].number == lo
  {
    StableAnswers(canon);
    if lo == cursor.number + 1 {
      assert LinkedAt(canon, lo);
    }
  }

  /** The search finds the highest canonical retained block, and fails when there is none. */
  lemma SearchFinds(s: State, canon: seq<Block>, stack: seq<Block>, depth: nat)
    requires Canonical(canon) && Agrees(s, stack, depth) && HashIdentifies(stack, canon)
    requires stack != [] && Last(stack).number <= Top(canon)
    ensures var r := FindAncestor(s.retained, Stable(canon).headers);
            && !r.Unavailable?
            && (r.Found? ==> HighestCanonical(s, canon, r.index))
            && (r.Exhausted? ==> forall at :: !HighestCanonical(s, canon, at))
  {
    var headers := Stable(canon).headers;
    AllLinkedNumbers(stack);
    StableAnswers(canon);
    var lo := |stack| - depth;
    forall i | 0 <= i < |s.retained|
      ensures s.retained[i].0 in headers
      ensures headers[s.retained[i].0] == s.retained[i].1.hash <==> s.retained[i].1 == canon[s.retained[i].0]
    {
      assert s.retained[i].1 == stack[lo + i];
    }
    FoundIsCanonical(s.retained, headers);
    NeverUnavailable(s.retained, headers);
  }

  lemma {:induction false} NeverUnavailable(retained: Entries<nat, Block>, headers: map<nat, Hash>)
    requires forall i :: 0 <= i < |retained| ==> retained[i].0 in headers
    ensures !FindAncestor(retained, headers).Unavailable?
    decreases |retained|
  {
    if retained != [] {
      NeverUnavailable(retained[..|retained| - 1], headers);
    }
  }

  lemma HighestIsUnique(s: State, canon: seq<Block>, i: nat, j: nat)
    requires HighestCanonical(s, canon, i) && HighestCanonical(s, canon, j)
    ensures i == j
  {
  }

  lemma RollsBack(s: State, canon: seq<Block>, stack: seq<Block>, depth: nat, at: nat)
    requires Canonical(canon) && Agrees(s, stack, depth) && s.ready == map[]
    requires HashIdentifies(stack, canon)
    requires stack != [] && Last(stack).number <= Top(canon) && Last(stack) != canon[Last(stack).number]
    requires HighestCanonical(s, canon, at)
    ensures var (next, now) := Seen(Step(s, Stable(canon)));
            var a := s.retained[at].0;
            && now == [Revert(a + 1, canon[a])] && next.ready == map[] && next.cursor == Some(canon[a])
  {
    hide *;
    HighestIndex(s, canon, at);
    CanonicalTop(canon);
    var value, ready := OffChainConflicts(s, canon, stack, depth);
    SearchFinds(s, canon, stack, depth);
    var found := FindAncestor(s.retained, Stable(canon).headers);
    if found.Found? {
      HighestIsUnique(s, canon, at, found.index);
    }
    StackTop(s, stack, depth);
    Itinerary(s, canon, stack, depth, at);
    ResolveFound(s, ready, value, Stable(canon).headers);
  }

  lemma ResolveFound(s: State, ready: map<nat, Block>, value: Block, headers: map<nat, Hash>)
    requires s.cursor.Some?
    ensures var found := FindAncestor(s.retained, headers);
            var (next, now) := Seen(Resolve(s, ready, value, headers));
            && (found.Found? && s.retained[found.index].0 != s.cursor.value.number ==>
                  var (number, held) := s.retained[found.index];
                  now == [Revert(number + 1, held)] && next.ready == map[] && next.cursor == Some(held))
            && (found.Exhausted? ==> (next, now) == (s.(ready := map[]), []))
  {
  }

  lemma LostOffChain(s: State, canon: seq<Block>, stack: seq<Block>, depth: nat)
    requires Canonical(canon) && Agrees(s, stack, depth) && s.ready == map[]
    requires HashIdentifies(stack, canon)
    requires stack != [] && Last(stack).number <= Top(canon) && Last(stack) != canon[Last(stack).number]
    requires forall at :: !HighestCanonical(s, canon, at)
    ensures Seen(Step(s, Stable(canon))) == (s, [])
  {
    hide *;
    CanonicalTop(canon);
    StackTop(s, stack, depth);
    var value, ready := OffChainConflicts(s, canon, stack, depth);
    SearchFinds(s, canon, stack, depth);
    ResolveFound(s, ready, value, Stable(canon).headers);
  }

  /** With no canonical block in the window the attempt fails and changes nothing. */
  lemma StaysLost(s: State, canon: seq<Block>, stack: seq<Block>, depth: nat)
    requires Canonical(canon) && Agrees(s, stack, depth) && s.ready == map[]
    requires HashIdentifies(stack, canon)
    requires stack != [] && !Rejoinable(s, canon)
    ensures Seen(Step(s, Stable(canon))) == (s, [])
  {
    StableAnswers(canon);
    TopIsHighest(s, canon, stack, depth);
    if Last(stack).number <= Top(canon) {
      LostOffChain(s, canon, stack, depth);
    }
  }

  /** A canonical stack top is the highest canonical block of the window. */
  lemma TopIsHighest(s: State, canon: seq<Block>, stack: seq<Block>, depth: nat)
    requires Canonical(canon) && Agrees(s, stack, depth) && stack != []
    ensures Last(stack).number <= Top(canon) && Last(stack) == canon[Last(stack).number] ==> Rejoinable(s, canon)
  {
    if Last(stack).number <= Top(canon) && Last(stack) == canon[Last(stack).number] {
      assert s.retained[|s.retained| - 1].1 == Last(stack);
      assert HighestCanonical(s, canon, |s.retained| - 1);
    }
  }

  lemma {:induction false} StaysLostForever(s: State, canon: seq<Block>, stack: seq<Block>, depth: nat, steps: nat)
    requires Canonical(canon) && Agrees(s, stack, depth) && s.ready == map[]
    requires HashIdentifies(stack, canon)
    requires stack != [] && !Rejoinable(s, canon)
    ensures Follow(s, canon, steps) == (s, [])
    decreases steps
  {
    hide Agrees, Follow, Seen, Step;
    if steps == 0 {
      FollowNone(s, canon);
    } else {
      FollowStep(s, canon, steps);
      StaysLost(s, canon, stack, depth);
      StaysLostForever(s, canon, stack, depth, steps - 1);
      assert Seen(Step(s, Stable(canon))).1 + Follow(s, canon, steps - 1).1 == [];
    }
  }

  lemma HighestIndex(s: State, canon: seq<Block>, at: nat)
    requires HighestCanonical(s, canon, at)
    ensures at < |s.retained| && s.retained[at].0 < |canon|
  {
  }

  /** The highest canonical height is the cursor's exactly when the cursor is canonical. */
  lemma Itinerary(s: State, canon: seq<Block>, stack: seq<Block>, depth: nat, at: nat)
    requires Canonical(canon) && Agrees(s, stack, depth) && stack != [] && Last(stack).number < |canon|
    requires s.cursor.Some? && HighestCanonical(s, canon, at)
    ensures var a := s.retained[at].0;
            var c := Last(stack).number;
            && a < |canon| && canon[a].number == a && s.retained[at].1 == canon[a]
            && c <= Top(canon)
            && (a == c <==> Last(stack) == canon[c])
            && Budget(canon, s, a) == (if a == c then 0 else 1) + Bursts(Top(canon) - a)
            && Journey(canon, s, a) == (if a == c then [] else [Revert(a + 1, canon[a])]) + Applies(canon[a + 1..])
  {
    AllLinkedNumbers(stack);
    StableAnswers(canon);
    var lo := |stack| - depth;
    assert s.retained[at].1 == stack[lo + at];
    assert s.retained[|s.retained| - 1].1 == Last(stack);
    if Last(stack) == canon[Last(stack).number] {
      HighestIsUnique(s, canon, at, |s.retained| - 1);
    }
  }

  /**
   Convergence on a stable chain of head H, from any state a run can leave with an empty cache. Where `a` is
   the highest canonical retained height, the run emits exactly one revert to `a` (none when the cursor is
   canonical) and then the blocks a+1..H, within 1 + ceil((H - a) / 8) steps.
   */
  lemma Converges(s: State, canon: seq<Block>, stack: seq<Block>, depth: nat, at: nat, steps: nat)
    requires Canonical(canon) && Agrees(s, stack, depth) && s.ready == map[]
    requires HashIdentifies(stack, canon)
    requires s.cursor.Some? && s.cursor.value.number < |canon|
    requires HighestCanonical(s, canon, at)
    requires steps >= Budget(canon, s, s.retained[at].0)
    ensures var (end, updates) := Follow(s, canon, steps);
            end.cursor == Some(Last(canon)) && updates == Journey(canon, s, s.retained[at].0)
  {
    hide *;
    CanonicalTop(canon);
    StackTop(s, stack, depth);
    HighestIndex(s, canon, at);
    var a := s.retained[at].0;
    var c := Last(stack).number;
    Itinerary(s, canon, stack, depth, at);
    if Last(stack) == canon[c] {
      CatchesUp(s, canon, stack, depth, steps);
    } else {
      RollsBack(s, canon, stack, depth, at);
      FollowStep(s, canon, steps);
      var next := Seen(Step(s, Stable(canon))).0;
      var shrunk, shallower := StepAgrees(s, canon, stack, depth);
      CatchesUp(next, canon, shrunk, shallower, steps - 1);
    }
  }

  lemma StepAgrees(s: State, canon: seq<Block>, stack: seq<Block>, depth: nat)
    returns (replayed: seq<Block>, shallower: nat)
    requires Canonical(canon) && Agrees(s, stack, depth)
    ensures var next := Seen(Step(s, Stable(canon))).0;
            && Agrees(next, replayed, shallower)
            && (next.cursor.Some? ==> replayed != [] && next.cursor == Some(Last(replayed)))
  {
    hide Step, AllSound, Replay, Agrees, Stable, Canonical, Depth;
    CanonicalTop(canon);
    StableAnswers(canon);
    StepKeeps(s, Stable(canon), stack, depth);
    var (next, now) := Seen(Step(s, Stable(canon)));
    replayed, shallower := Replay(stack, now), Depth(stack, depth, now);
    StackTop(next, replayed, shallower);
  }

  /** It converges exactly when the cursor is at or below the head and the window still holds a canonical block. */
  lemma ConvergesExactly(s: State, canon: seq<Block>, stack: seq<Block>, depth: nat)
    requires Canonical(canon) && Agrees(s, stack, depth) && s.ready == map[]
    requires HashIdentifies(stack, canon) && stack != []
    ensures (exists steps: nat :: Follow(s, canon, steps).0.cursor == Some(Last(canon))) <==> Rejoinable(s, canon)
  {
    if Rejoinable(s, canon) {
      var at: nat :| HighestCanonical(s, canon, at);
      var steps := Budget(canon, s, s.retained[at].0);
      Converges(s, canon, stack, depth, at, steps);
      assert Follow(s, canon, steps).0.cursor == Some(Last(canon));
    } else {
      StableAnswers(canon);
      forall steps: nat ensures Follow(s, canon, steps).0.cursor != Some(Last(canon)) {
        StaysLostForever(s, canon, stack, depth, steps);
        CanonicalTop(canon);
        TopIsHighest(s, canon, stack, depth);
      }
    }
  }

  const LOST_BLOCK := Block(1, 11, 10, 0, [])

  /** The stable chain: another block at height 1. */
  function ParallelChain(): seq<Block> { [Block(0, 20, 19, 0, []), Block(1, 21, 20, 0, [])] }

  /** What the first attempt of a new worker leaves when the head is a block that is then replaced. */
  function LostState(): State { State([(1, LOST_BLOCK)], map[], Some(LOST_BLOCK)) }

  lemma FirstAttempt()
    ensures Step(INITIAL, Input(Head(1, Some(11)), map[1 := LOST_BLOCK], map[])) == (LostState(), Emitted([Apply(LOST_BLOCK)]))
  {
    var i := Input(Head(1, Some(11)), map[1 := LOST_BLOCK], map[]);
    assert Wanted(None, 1) == [1];
    var ready := Fill(map[], [1], i.loads);
    assert ready == map[1 := LOST_BLOCK];
    var updates := Collect([1], ready);
    assert updates == [LOST_BLOCK];
    assert updates[1..] == [] && updates[..0] == [];
    assert Conflict(None, updates) == 1 + Conflict(Some(LOST_BLOCK), []);
    assert PutAll([], []) == [];
    assert PutAll([], updates) == Put([], 1, LOST_BLOCK);
    assert ready - {1} == map[];
    assert AllReady([1], ready);
    assert Numbers(updates) == {1} by { assert updates[0].number == 1; }
    assert Applies(updates) == [Apply(LOST_BLOCK)];
    assert Put([], 1, LOST_BLOCK) == [(1, LOST_BLOCK)];
  }

  /**
   A run that is lost: from the initial state the worker applies a block whose branch is given up, its window holds no
   canonical block, and on the stable chain no number of attempts reaches the head.
   */
  lemma LosesItsWay()
    ensures Run(INITIAL, [Input(Head(1, Some(11)), map[1 := LOST_BLOCK], map[])]) == (LostState(), [Apply(LOST_BLOCK)])
    ensures Canonical(ParallelChain()) && !Rejoinable(LostState(), ParallelChain())
    ensures forall steps: nat :: Follow(LostState(), ParallelChain(), steps).0.cursor != Some(Last(ParallelChain()))
  {
    hide Follow, Step;
    FirstAttempt();
    RunOnce(INITIAL, Input(Head(1, Some(11)), map[1 := LOST_BLOCK], map[]));
    assert LinkedAt(ParallelChain(), 1);
    assert Suffix([LOST_BLOCK], 1) == [LOST_BLOCK];
    assert Agrees(LostState(), [LOST_BLOCK], 1);
    ConvergesExactly(LostState(), ParallelChain(), [LOST_BLOCK], 1);
  }

  lemma RunOnce(s: State, i: Input)
    ensures Run(s, [i]) == (Step(s, i).0, Updates(Step(s, i).1))
  {
    hide Step;
    assert [i][1..] == [];
    var (next, outcome) := Step(s, i);
    assert Run(next, []) == (next, []);
    assert Updates(outcome) + [] == Updates(outcome);
  }
}
