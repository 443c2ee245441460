/** What every run of the live chain keeps: its updates replay as a stack of hash-linked blocks. */
module LiveChainRuns {
  import opened Blocks
  import opened OrderedMap
  import opened LiveChain

  /** Replaying updates on a stack: an apply pushes, a revert pops every block at or above its height. */
  function Pop(stack: seq<Block>, from: nat): seq<Block> {
    if stack == [] || Last(stack).number < from then stack
    else Pop(stack[..|stack| - 1], from)
  }

  function Advance(stack: seq<Block>, update: Update): seq<Block> {
    match update
    case Apply(value) => stack + [value]
    case Revert(from, _) => Pop(stack, from)
  }

  function Replay(stack: seq<Block>, updates: seq<Update>): seq<Block>
    decreases |updates|
  {
    if updates == [] then stack else Replay(Advance(stack, updates[0]), updates[1..])
  }

  function Updates(outcome: Outcome): seq<Update> {
    if outcome.Emitted? then outcome.updates else []
  }

  function Run(s: State, inputs: seq<Input>): (State, seq<Update>)
    decreases |inputs|
  {
    if inputs == [] then (s, [])
    else
      var (next, outcome) := Step(s, inputs[0]);
      var (end, rest) := Run(next, inputs[1..]);
      (end, Updates(outcome) + rest)
  }

  function Held(blocks: seq<Block>): Entries<nat, Block> {
    seq(|blocks|, i requires 0 <= i < |blocks| => (blocks[i].number, blocks[i]))
  }

  function Min(a: nat, b: nat): nat { if a < b then a else b }

  function Suffix<T>(s: seq<T>, n: nat): seq<T>
    requires n <= |s|
  {
    s[|s| - n..]
  }

  /** An update that keeps the stack linked and reverts to one of its newest `depth` blocks. */
  ghost predicate Sound(stack: seq<Block>, depth: nat, update: Update) {
    match update
    case Apply(value) => stack == [] || Follows(Last(stack), value)
    case Revert(from, ancestor) =>
      var kept := Pop(stack, from);
      kept != [] && Last(kept) == ancestor && from == ancestor.number + 1 && |stack| - |kept| < depth
  }

  function NextDepth(stack: seq<Block>, depth: nat, update: Update): int {
    match update
    case Apply(_) => Min(depth + 1, WINDOW)
    case Revert(from, _) => depth - (|stack| - |Pop(stack, from)|)
  }

  ghost predicate AllSound(stack: seq<Block>, depth: nat, updates: seq<Update>)
    decreases |updates|
  {
    updates == [] ||
    (Sound(stack, depth, updates[0]) && NextDepth(stack, depth, updates[0]) >= 0
     && AllSound(Advance(stack, updates[0]), NextDepth(stack, depth, updates[0]), updates[1..]))
  }

  ghost function Depth(stack: seq<Block>, depth: nat, updates: seq<Update>): nat
    requires AllSound(stack, depth, updates)
    decreases |updates|
  {
    if updates == [] then depth
    else Depth(Advance(stack, updates[0]), NextDepth(stack, depth, updates[0]), updates[1..])
  }

  /** The state agrees with the stack: the window is its newest `depth` blocks and the cursor its top. */
  ghost predicate Agrees(s: State, stack: seq<Block>, depth: nat) {
    && Linked(stack)
    && depth <= |stack| && depth <= WINDOW
    && (stack != [] ==> depth > 0)
    && s.retained == Held(Suffix(stack, depth))
    && s.cursor == (if stack == [] then None else Some(Last(stack)))
    && Answers(s.ready)
  }

  /** What an attempt keeps: its updates are sound on the stack, and the new state agrees with the new stack. */
  ghost predicate Keeps(stack: seq<Block>, depth: nat, result: (State, seq<Update>)) {
    && AllSound(stack, depth, result.1)
    && Agrees(result.0, Replay(stack, result.1), Depth(stack, depth, result.1))
  }

  function Seen(result: (State, Outcome)): (State, seq<Update>) {
    (result.0, Updates(result.1))
  }

  lemma {:induction false} PopLinked(stack: seq<Block>, from: nat)
    requires Linked(stack)
    ensures Pop(stack, from) <= stack
    ensures Linked(Pop(stack, from))
    ensures stack != [] && stack[0].number < from <= stack[0].number + |stack|
            ==> Pop(stack, from) == stack[..from - stack[0].number]
    ensures stack != [] && from <= stack[0].number ==> Pop(stack, from) == []
    ensures stack != [] && from > Last(stack).number ==> Pop(stack, from) == stack
  {
    if stack != [] {
      LinkedNumbers(stack, |stack| - 1);
      if Last(stack).number >= from {
        var shorter := stack[..|stack| - 1];
        SliceLinked(stack, 0, |stack| - 1);
        PopLinked(shorter, from);
        if shorter != [] {
          LinkedNumbers(stack, |shorter| - 1);
          if from > stack[0].number {
            assert shorter[..from - stack[0].number] == stack[..from - stack[0].number];
          }
        }
      }
    }
  }

  /** Updates that pass the check link to each other and to the parent. */
  lemma {:induction false} NoConflictLinks(parent: Option<Block>, updates: seq<Block>)
    requires Conflict(parent, updates) == |updates|
    ensures Linked(updates)
    ensures parent.Some? && updates != [] ==> Follows(parent.value, updates[0])
    decreases |updates|
  {
    if updates != [] {
      NoConflictLinks(Some(updates[0]), updates[1..]);
      AppendLinked([updates[0]], updates[1..]);
      assert updates == [updates[0]] + updates[1..];
    }
  }

  lemma {:induction false} PutAllHeld(stack: seq<Block>, lo: nat, updates: seq<Block>)
    requires lo <= |stack| && Linked(stack + updates)
    ensures PutAll(Held(stack[lo..]), updates) == Held((stack + updates)[lo..])
    decreases |updates|
  {
    if updates == [] {
      assert stack + updates == stack;
    } else {
      var front := updates[..|updates| - 1];
      var all := stack + updates;
      assert stack + front == all[..|all| - 1];
      SliceLinked(all, 0, |all| - 1);
      PutAllHeld(stack, lo, front);
      var held := Held((stack + front)[lo..]);
      AllLinkedNumbers(all);
      forall i | 0 <= i < |held| ensures held[i].0 != Last(updates).number {
        assert (stack + front)[lo..][i] == all[lo + i];
        assert Last(updates) == all[|all| - 1];
      }
      PutFresh(held, Last(updates).number, Last(updates));
      assert Held(all[lo..]) == held + [(Last(updates).number, Last(updates))];
    }
  }

  lemma {:induction false} AppliesSound(stack: seq<Block>, depth: nat, updates: seq<Block>)
    requires Linked(stack + updates) && depth <= WINDOW
    ensures AllSound(stack, depth, Applies(updates))
    ensures Replay(stack, Applies(updates)) == stack + updates
    ensures Depth(stack, depth, Applies(updates)) == Min(depth + |updates|, WINDOW)
    decreases |updates|
  {
    if updates == [] {
      assert stack + updates == stack;
    } else {
      var all := stack + updates;
      var rest := updates[1..];
      assert all == (stack + [updates[0]]) + rest;
      assert stack != [] ==> LinkedAt(all, |stack|);
      AppliesSound(stack + [updates[0]], Min(depth + 1, WINDOW), rest);
      assert Applies(updates)[1..] == Applies(rest);
    }
  }

  lemma {:induction false} FoundIsCanonical(retained: Entries<nat, Block>, headers: map<nat, Hash>)
    ensures var r := FindAncestor(retained, headers);
            && (r.Found? ==> retained[r.index].0 in headers && headers[retained[r.index].0] == retained[r.index].1.hash)
            && (r.Found? ==> forall j :: r.index < j < |retained| ==>
                  retained[j].0 in headers && headers[retained[j].0] != retained[j].1.hash)
            && (r.Exhausted? ==> forall j :: 0 <= j < |retained| ==>
                  retained[j].0 in headers && headers[retained[j].0] != retained[j].1.hash)
    decreases |retained|
  {
    if retained != [] {
      FoundIsCanonical(retained[..|retained| - 1], headers);
    }
  }

  lemma HeldSlice(blocks: seq<Block>, lo: nat, hi: nat)
    requires lo <= hi <= |blocks|
    ensures Held(blocks)[lo..hi] == Held(blocks[lo..hi])
  {
  }

  lemma EvictHeld(all: seq<Block>, lo: nat)
    requires lo <= |all|
    ensures Evict(Held(all[lo..]), WINDOW) == Held(Suffix(all, Min(|all| - lo, WINDOW)))
  {
    if |all| - lo > WINDOW {
      HeldSlice(all[lo..], |all| - lo - WINDOW, |all| - lo);
      assert all[lo..][|all| - lo - WINDOW..] == Suffix(all, WINDOW);
    }
  }

  lemma RevertWindow(stack: seq<Block>, depth: nat, index: nat)
    requires Linked(stack) && depth <= |stack| && index < depth
    ensures var at := |stack| - depth + index;
            DropFrom(Held(Suffix(stack, depth)), stack[at].number + 1) == Held(Suffix(stack[..at + 1], index + 1))
  {
    hide DropFrom, Linked;
    AllLinkedNumbers(stack);
    var at := |stack| - depth + index;
    DropFromAscending(Held(Suffix(stack, depth)), stack[at].number + 1, index + 1);
    HeldSlice(Suffix(stack, depth), 0, index + 1);
    assert Suffix(stack, depth)[..index + 1] == Suffix(stack[..at + 1], index + 1);
  }

  lemma RevertStack(stack: seq<Block>, depth: nat, at: nat)
    requires Linked(stack) && depth <= |stack| && |stack| - depth <= at < |stack|
    ensures var updates := [Revert(stack[at].number + 1, stack[at])];
            && AllSound(stack, depth, updates) && Replay(stack, updates) == stack[..at + 1]
            && Depth(stack, depth, updates) == depth - (|stack| - (at + 1))
            && Linked(stack[..at + 1])
  {
    AllLinkedNumbers(stack);
    PopLinked(stack, stack[at].number + 1);
    assert Pop(stack, stack[at].number + 1) == stack[..at + 1];
    assert [Revert(stack[at].number + 1, stack[at])][1..] == [];
  }

  /** Reverting to the retained block at `index` pops the stack to it, and the window with it. */
  lemma RevertKeeps(s: State, stack: seq<Block>, depth: nat, index: nat)
    requires Agrees(s, stack, depth) && index < |s.retained|
    ensures var (number, held) := s.retained[index];
            var next := State(DropFrom(s.retained, number + 1), map[], Some(held));
            Keeps(stack, depth, (next, [Revert(number + 1, held)]))
  {
    hide AllSound, Replay, Depth, DropFrom;
    RevertWindow(stack, depth, index);
    RevertStack(stack, depth, |stack| - depth + index);
  }

  lemma QuietKeeps(s: State, ready: map<nat, Block>, stack: seq<Block>, depth: nat)
    requires Agrees(s, stack, depth) && Answers(ready)
    ensures Keeps(stack, depth, (s.(ready := ready), []))
  {
  }

  /** The rollback pops the stack to the ancestor, and the window with it. */
  lemma ResolveKeeps(s: State, ready: map<nat, Block>, value: Block, headers: map<nat, Hash>, stack: seq<Block>, depth: nat)
    requires Agrees(s, stack, depth) && Answers(ready)
    ensures Keeps(stack, depth, Seen(Resolve(s, ready, value, headers)))
  {
    hide Keeps, Agrees;
    var r := FindAncestor(s.retained, headers);
    if r.Found? {
      RevertKeeps(s, stack, depth, r.index);
    }
    QuietKeeps(s, ready, stack, depth);
    QuietKeeps(s, map[], stack, depth);
  }

  lemma ExtendWindow(stack: seq<Block>, depth: nat, updates: seq<Block>)
    requires depth <= |stack| && Linked(stack + updates)
    ensures Evict(PutAll(Held(Suffix(stack, depth)), updates), WINDOW)
         == Held(Suffix(stack + updates, Min(depth + |updates|, WINDOW)))
  {
    hide Evict, Held, PutAll, Linked;
    var all := stack + updates;
    var lo := |stack| - depth;
    PutAllHeld(stack, lo, updates);
    EvictHeld(all, lo);
  }

  lemma ExtendKeeps(s: State, ready: map<nat, Block>, updates: seq<Block>, stack: seq<Block>, depth: nat)
    requires Agrees(s, stack, depth) && Answers(ready)
    requires updates != [] && Conflict(s.cursor, updates) == |updates|
    ensures var next := State(Evict(PutAll(s.retained, updates), WINDOW), ready, Some(Last(updates)));
            Keeps(stack, depth, (next, Applies(updates)))
  {
    NoConflictLinks(s.cursor, updates);
    AppendLinked(stack, updates);
    AppliesSound(stack, depth, updates);
    ExtendWindow(stack, depth, updates);
    assert Last(stack + updates) == Last(updates);
  }

  /** One attempt, whatever the provider answers. */
  lemma StepKeeps(s: State, i: Input, stack: seq<Block>, depth: nat)
    requires Agrees(s, stack, depth) && Answers(i.loads)
    ensures Keeps(stack, depth, Seen(Step(s, i)))
  {
    hide Keeps, Agrees, Answers, Fill, Wanted, Resolve, Conflict, PutAll, Evict, Applies, Collect, Numbers;
    var wanted := Wanted(s.cursor, i.head.number);
    var ready := Fill(s.ready, wanted, i.loads);
    AgreesReady(s, stack, depth);
    FillAnswers(s.ready, wanted, i.loads);
    QuietKeeps(s, s.ready, stack, depth);
    QuietKeeps(s, ready, stack, depth);
    if Accepts(s.cursor, i.head) && AllReady(wanted, ready) {
      var updates := Collect(wanted, ready);
      WantedNonempty(s.cursor, i.head.number, ready);
      var k := Conflict(s.cursor, updates);
      if k < |updates| {
        ResolveKeeps(s, ready, updates[k], i.headers, stack, depth);
      } else {
        LessAnswers(ready, Numbers(updates));
        ExtendKeeps(s, ready - Numbers(updates), updates, stack, depth);
      }
      if s.cursor.Some? {
        LessAnswers(ready, {s.cursor.value.number});
        QuietKeeps(s, ready - {s.cursor.value.number}, stack, depth);
      }
    }
  }

  lemma AgreesReady(s: State, stack: seq<Block>, depth: nat)
    requires Agrees(s, stack, depth)
    ensures Answers(s.ready)
  {
  }

  lemma FillAnswers(ready: map<nat, Block>, wanted: seq<nat>, loads: map<nat, Block>)
    requires Answers(ready) && Answers(loads)
    ensures Answers(Fill(ready, wanted, loads))
  {
  }

  lemma LessAnswers(ready: map<nat, Block>, keys: set<nat>)
    requires Answers(ready)
    ensures Answers(ready - keys)
  {
  }

  lemma WantedNonempty(cursor: Option<Block>, head: nat, ready: map<nat, Block>)
    requires AllReady(Wanted(cursor, head), ready)
    ensures |Collect(Wanted(cursor, head), ready)| == |Wanted(cursor, head)| > 0
  {
  }

  lemma {:induction false} ReplayConcat(stack: seq<Block>, depth: nat, a: seq<Update>, b: seq<Update>)
    requires AllSound(stack, depth, a)
    requires AllSound(Replay(stack, a), Depth(stack, depth, a), b)
    ensures AllSound(stack, depth, a + b)
    ensures Replay(stack, a + b) == Replay(Replay(stack, a), b)
    ensures Depth(stack, depth, a + b) == Depth(Replay(stack, a), Depth(stack, depth, a), b)
    decreases |a|
  {
    if a == [] {
      assert a + b == b;
    } else {
      assert (a + b)[1..] == a[1..] + b;
      ReplayConcat(Advance(stack, a[0]), NextDepth(stack, depth, a[0]), a[1..], b);
    }
  }

  lemma {:induction false} RunKeeps(s: State, inputs: seq<Input>, stack: seq<Block>, depth: nat)
    requires Agrees(s, stack, depth)
    requires forall k :: 0 <= k < |inputs| ==> Answers(inputs[k].loads)
    ensures Keeps(stack, depth, Run(s, inputs))
    decreases |inputs|
  {
    hide Step, Agrees, Answers;
    if inputs == [] {
      QuietRun(s, stack, depth);
    } else {
      var (next, now) := Seen(Step(s, inputs[0]));
      StepKeeps(s, inputs[0], stack, depth);
      RunKeeps(next, inputs[1..], Replay(stack, now), Depth(stack, depth, now));
      ReplayConcat(stack, depth, now, Run(next, inputs[1..]).1);
    }
  }

  lemma QuietRun(s: State, stack: seq<Block>, depth: nat)
    requires Agrees(s, stack, depth)
    ensures Keeps(stack, depth, (s, []))
  {
  }

  /** Every prefix of sound updates leaves a linked stack, and its next update is sound on that stack. */
  lemma {:induction false} SoundPrefix(stack: seq<Block>, depth: nat, updates: seq<Update>, k: nat)
    requires Linked(stack) && AllSound(stack, depth, updates) && k <= |updates|
    ensures Linked(Replay(stack, updates[..k]))
    ensures AllSound(stack, depth, updates[..k])
    ensures k < |updates| ==> Sound(Replay(stack, updates[..k]), Depth(stack, depth, updates[..k]), updates[k])
    ensures k < |updates| ==> Replay(stack, updates[..k + 1]) == Advance(Replay(stack, updates[..k]), updates[k])
    decreases |updates|
  {
    if k > 0 {
      var next := Advance(stack, updates[0]);
      assert Linked(next) by {
        match updates[0]
        case Apply(value) => AppendLinked(stack, [value]);
        case Revert(from, _) => PopLinked(stack, from);
      }
      SoundPrefix(next, NextDepth(stack, depth, updates[0]), updates[1..], k - 1);
      assert updates[..k][1..] == updates[1..][..k - 1];
      if k < |updates| {
        assert updates[..k + 1][1..] == updates[1..][..k];
      }
    } else if updates != [] {
      assert updates[..1][1..] == [];
    }
  }

  /** After k updates the replayed stack is linked; if the next one reverts, it leaves its ancestor on top. */
  ghost predicate ReplaysAt(updates: seq<Update>, k: nat)
    requires k <= |updates|
  {
    && Linked(Replay([], updates[..k]))
    && (k < |updates| && updates[k].Revert? ==>
          var kept := Replay([], updates[..k + 1]);
          kept != [] && Last(kept) == updates[k].ancestor && updates[k].from == Last(kept).number + 1)
  }

  /** The window is the newest heights of the stack, at most 128 of them, and ends at the cursor. */
  ghost predicate WindowOf(s: State, stack: seq<Block>) {
    && |s.retained| <= WINDOW && |s.retained| <= |stack|
    && (s.retained == [] <==> stack == [])
    && s.retained == Held(stack[|stack| - |s.retained|..])
    && s.cursor == (if stack == [] then None else Some(Last(stack)))
  }

  lemma SoundReplays(updates: seq<Update>)
    requires AllSound([], 0, updates)
    ensures forall k :: 0 <= k <= |updates| ==> ReplaysAt(updates, k)
  {
    forall k | 0 <= k <= |updates| ensures ReplaysAt(updates, k) {
      SoundPrefix([], 0, updates, k);
    }
  }

  /**
   In every run, whatever the provider answers: after every update the replayed stack is a contiguous
   hash-linked chain; a revert leaves its ancestor on top and names the next height; and the window is
   exactly the newest heights of the final stack, at most 128 of them, ending at the cursor.
   */
  lemma RunsReplay(inputs: seq<Input>)
    requires forall k :: 0 <= k < |inputs| ==> Answers(inputs[k].loads)
    ensures var (end, updates) := Run(INITIAL, inputs);
            var stack := Replay([], updates);
            && (forall k :: 0 <= k <= |updates| ==> ReplaysAt(updates, k))
            && WindowOf(end, stack)
  {
    hide Run, AllSound, ReplaysAt;
    var (end, updates) := Run(INITIAL, inputs);
    assert Agrees(INITIAL, [], 0);
    RunKeeps(INITIAL, inputs, [], 0);
    SoundReplays(updates);
  }
}
