/**
 Convergence of the live chain from every state it can be in, with loaded blocks of other forks left over: these are
 applied while they link, and what the window then holds decides.
 */
module LiveChainLeftovers {
  import opened Blocks
  import opened OrderedMap
  import opened LiveChain
  import opened LiveChainRuns
  import opened LiveChainConverges

  /** A hash identifies a block, among the loaded ones too. */
  ghost predicate ReadyIdentified(ready: map<nat, Block>, canon: seq<Block>) {
    forall n, j :: n in ready && 0 <= j < |canon| && ready[n].hash == canon[j].hash ==> ready[n] == canon[j]
  }

  /** How far the cursor is below the head. */
  function Rest(s: State, canon: seq<Block>): nat
    requires canon != []
  {
    if s.cursor.None? then Top(canon) + 1
    else if s.cursor.value.number < Top(canon) then Top(canon) - s.cursor.value.number
    else 0
  }

  predicate Extends(s: State, canon: seq<Block>, next: State, outcome: Outcome)
    requires canon != []
  {
    outcome.Emitted? && outcome.updates != [] && outcome.updates[0].Apply? && Rest(next, canon) < Rest(s, canon)
  }

  /** The state once the blocks that link to the cursor have been applied, burst by burst, before anything is searched. */
  function Clean(s: State, canon: seq<Block>): State
    requires canon != []
    decreases Rest(s, canon)
  {
    var (next, outcome) := Step(s, Stable(canon));
    if Extends(s, canon, next, outcome) then Clean(next, canon) else s
  }

  ghost predicate Reaches(s: State, canon: seq<Block>)
    requires canon != []
  {
    exists steps: nat :: Follow(s, canon, steps).0.cursor == Some(Last(canon))
  }

  // ------------------------------------------------------------------------------------------ the kinds of attempts

  datatype Kind = Idle | Drop | Conflicts(value: Block, ready: map<nat, Block>) | Extend(updates: seq<Block>, ready: map<nat, Block>)

  lemma AllLoaded(s: State, canon: seq<Block>)
    requires Canonical(canon) && Answers(s.ready) && Accepts(s.cursor, Stable(canon).head)
    ensures var wanted := Wanted(s.cursor, Top(canon));
            var ready := Fill(s.ready, wanted, Stable(canon).loads);
            && AllReady(wanted, ready) && Answers(ready) && wanted != []
            && (forall i :: 0 <= i < |wanted| ==> wanted[i] == wanted[0] + i <= Top(canon))
            && wanted[0] == (if s.cursor.None? || s.cursor.value.number == Top(canon) then Top(canon) else s.cursor.value.number + 1)
            && (s.cursor.None? || s.cursor.value.number == Top(canon) ==> wanted == [Top(canon)])
            && (forall n :: n in ready ==> (n in s.ready && ready[n] == s.ready[n]) || (n < |canon| && ready[n] == canon[n]))
  {
    StableAnswers(canon);
  }

  lemma FilledIdentified(ready: map<nat, Block>, filled: map<nat, Block>, canon: seq<Block>)
    requires ReadyIdentified(ready, canon) && Canonical(canon) && HashIdentifies(canon, canon)
    requires forall n :: n in filled ==> (n in ready && filled[n] == ready[n]) || (n < |canon| && filled[n] == canon[n])
    ensures ReadyIdentified(filled, canon)
  {
    forall n, j | n in filled && 0 <= j < |canon| && filled[n].hash == canon[j].hash ensures filled[n] == canon[j] {
    }
  }

  lemma CollectIs(wanted: seq<nat>, ready: map<nat, Block>)
    requires AllReady(wanted, ready) && Answers(ready)
    ensures |Collect(wanted, ready)| == |wanted|
    ensures forall i :: 0 <= i < |wanted| ==> Collect(wanted, ready)[i] == ready[wanted[i]] && Collect(wanted, ready)[i].number == wanted[i]
  {
  }

  /** What one attempt on a stable chain does. */
  lemma StepKind(s: State, canon: seq<Block>) returns (kind: Kind)
    requires Canonical(canon) && Answers(s.ready)
    ensures var (next, outcome) := Step(s, Stable(canon));
            && (kind.Idle? ==> next == s && s.cursor.Some? && (s.cursor.value.number > Top(canon)
                                 || (s.cursor.value.number == Top(canon) && s.cursor.value.hash == Last(canon).hash)))
            && (kind.Drop? ==> s.cursor.Some? && s.cursor.value.number == Top(canon) && Top(canon) in s.ready
                               && s.ready[Top(canon)].hash == s.cursor.value.hash && next == s.(ready := s.ready - {Top(canon)})
                               && outcome == Emitted([]))
            && (kind.Conflicts? ==> s.cursor.Some? && s.cursor.value.number <= Top(canon)
                                    && (next, outcome) == Resolve(s, kind.ready, kind.value, Stable(canon).headers))
            && (kind.Extend? ==> Applied(s, canon, kind.updates, kind.ready, next, outcome))
    ensures kind.Idle? || (s.cursor.Some? ==> s.cursor != Some(Last(canon)))
    ensures var (next, outcome) := Step(s, Stable(canon)); kind.Extend? <==> Extends(s, canon, next, outcome)
  {
    hide Fill, Wanted, Collect, Conflict, Resolve, Evict, PutAll, Applies, Numbers, Linked;
    CanonicalTop(canon);
    if !Accepts(s.cursor, Stable(canon).head) {
      return Idle;
    }
    AllLoaded(s, canon);
    var wanted := Wanted(s.cursor, Top(canon));
    var ready := Fill(s.ready, wanted, Stable(canon).loads);
    CollectIs(wanted, ready);
    var updates := Collect(wanted, ready);
    if s.cursor.Some? && |updates| == 1 && updates[0].number == s.cursor.value.number && updates[0].hash == s.cursor.value.hash {
      DropIs(s, canon, ready);
      return Drop;
    }
    var k := Conflict(s.cursor, updates);
    if s.cursor.Some? { TieConflicts(s.cursor.value, updates); }
    if k < |updates| {
      if s.cursor.None? { FirstFits(updates); }
      ResolveAppliesNothing(s, ready, updates[k], Stable(canon).headers);
      return Conflicts(updates[k], ready);
    }
    FirstApplied(updates);
    return Extend(updates, ready);
  }

  /** An attempt that applies a whole burst. */
  ghost predicate Applied(s: State, canon: seq<Block>, updates: seq<Block>, ready: map<nat, Block>, next: State, outcome: Outcome)
    requires canon != []
  {
    && updates != [] && Conflict(s.cursor, updates) == |updates|
    && next == State(Evict(PutAll(s.retained, updates), WINDOW), ready - Numbers(updates), Some(Last(updates)))
    && outcome == Emitted(Applies(updates))
    && (forall i :: 0 <= i < |updates| ==> updates[i].number in ready && ready[updates[i].number] == updates[i])
    && (forall n :: n in ready ==> (n in s.ready && ready[n] == s.ready[n]) || (n < |canon| && ready[n] == canon[n]))
    && Last(updates).number <= Top(canon)
    && (s.cursor.Some? ==> Last(updates).number > s.cursor.value.number)
  }

  lemma DropIs(s: State, canon: seq<Block>, ready: map<nat, Block>)
    requires Canonical(canon) && s.cursor.Some? && s.cursor.value.number == Top(canon) && s.cursor.value.hash != Last(canon).hash
    requires ready == Fill(s.ready, [Top(canon)], Stable(canon).loads) && ready[Top(canon)].hash == s.cursor.value.hash
    ensures Top(canon) in s.ready && s.ready[Top(canon)] == ready[Top(canon)] && ready == s.ready
  {
    CanonicalTop(canon);
  }

  lemma ResolveAppliesNothing(s: State, ready: map<nat, Block>, value: Block, headers: map<nat, Hash>)
    ensures var outcome := Resolve(s, ready, value, headers).1; outcome.Emitted? ==> |outcome.updates| == 1 && outcome.updates[0].Revert?
  {
  }

  lemma FirstApplied(updates: seq<Block>)
    requires updates != []
    ensures Applies(updates) != [] && Applies(updates)[0].Apply?
  {
  }

  lemma TieConflicts(cursor: Block, updates: seq<Block>)
    requires updates != []
    ensures updates[0].number == cursor.number ==> Conflict(Some(cursor), updates) == 0
  {
  }

  lemma FirstFits(updates: seq<Block>)
    requires |updates| == 1
    ensures Conflict(None, updates) == 1
  {
    assert updates[1..] == [];
  }

  // ------------------------------------------------------------------------------------------ what each kind keeps

  /** The state agrees with its stack, and a hash identifies a block on the stack, among the loaded ones and on the chain. */
  ghost predicate Sane(s: State, canon: seq<Block>, stack: seq<Block>, depth: nat) {
    && Canonical(canon) && HashIdentifies(canon, canon) && Agrees(s, stack, depth)
    && HashIdentifies(stack, canon) && ReadyIdentified(s.ready, canon)
  }

  /** After any attempt the state agrees with the replayed stack. */
  lemma AttemptAgrees(s: State, canon: seq<Block>, stack: seq<Block>, depth: nat) returns (after: seq<Block>, deep: nat)
    requires Sane(s, canon, stack, depth)
    ensures var (next, now) := Seen(Step(s, Stable(canon))); after == Replay(stack, now) && Agrees(next, after, deep)
  {
    hide Agrees, AllSound, Replay, Depth, Step, ReadyIdentified, HashIdentifies, Stable;
    StableAnswers(canon);
    StepKeeps(s, Stable(canon), stack, depth);
    var (next, now) := Seen(Step(s, Stable(canon)));
    after, deep := Replay(stack, now), Depth(stack, depth, now);
  }

  lemma AppliedKeeps(s: State, canon: seq<Block>, stack: seq<Block>, depth: nat, updates: seq<Block>, ready: map<nat, Block>, next: State,
                     outcome: Outcome) returns (grown: seq<Block>, deeper: nat)
    requires Sane(s, canon, stack, depth) && (next, outcome) == Step(s, Stable(canon)) && Applied(s, canon, updates, ready, next, outcome)
    ensures grown != [] && Sane(next, canon, grown, deeper)
  {
    hide Agrees, Step, Stable, Conflict, Evict, PutAll, Applies, Numbers, Linked, Replay, AllSound, Depth, HashIdentifies, ReadyIdentified;
    grown, deeper := AttemptAgrees(s, canon, stack, depth);
    AppliedStack(s, stack, depth, updates);
    FilledIdentified(s.ready, ready, canon);
    GrownIdentified(stack, updates, ready, canon);
    LessIdentified(ready, Numbers(updates), canon);
  }

  lemma AppliedStack(s: State, stack: seq<Block>, depth: nat, updates: seq<Block>)
    requires Agrees(s, stack, depth) && Conflict(s.cursor, updates) == |updates|
    ensures Replay(stack, Applies(updates)) == stack + updates
  {
    hide Conflict, Applies, Replay, AllSound, Depth;
    NoConflictLinks(s.cursor, updates);
    AppendLinked(stack, updates);
    AppliesSound(stack, depth, updates);
  }

  lemma GrownIdentified(stack: seq<Block>, updates: seq<Block>, ready: map<nat, Block>, canon: seq<Block>)
    requires HashIdentifies(stack, canon) && ReadyIdentified(ready, canon)
    requires forall i :: 0 <= i < |updates| ==> updates[i].number in ready && ready[updates[i].number] == updates[i]
    ensures HashIdentifies(stack + updates, canon)
  {
    var all := stack + updates;
    forall i, j | 0 <= i < |all| && 0 <= j < |canon| && all[i].hash == canon[j].hash ensures all[i] == canon[j] {
      if i >= |stack| {
        assert all[i] == ready[updates[i - |stack|].number];
      }
    }
  }

  lemma LessIdentified(ready: map<nat, Block>, keys: set<nat>, canon: seq<Block>)
    requires ReadyIdentified(ready, canon)
    ensures ReadyIdentified(ready - keys, canon)
  {
  }

  /** A rollback, or a search that finds nothing: no loaded block is left, and the window can be rejoined as before. */
  lemma ResolvedKeeps(s: State, canon: seq<Block>, stack: seq<Block>, depth: nat, value: Block, ready: map<nat, Block>, next: State,
                      outcome: Outcome) returns (left: seq<Block>, deep: nat)
    requires Sane(s, canon, stack, depth) && stack != [] && Last(stack).number <= Top(canon)
    requires (next, outcome) == Step(s, Stable(canon)) == Resolve(s, ready, value, Stable(canon).headers)
    ensures left != [] && Sane(next, canon, left, deep) && next.ready == map[]
    ensures Rejoinable(next, canon) <==> Rejoinable(s, canon)
  {
    hide Agrees, Step, Stable, Linked, Replay, AllSound, Depth, HashIdentifies, ReadyIdentified, HighestCanonical, DropFrom, FindAncestor;
    left, deep := AttemptAgrees(s, canon, stack, depth);
    SearchFinds(s, canon, stack, depth);
    StackTop(s, stack, depth);
    CanonicalTop(canon);
    ResolveIs(s, ready, value, Stable(canon).headers);
    var found := FindAncestor(s.retained, Stable(canon).headers);
    NothingIdentified(canon);
    NoUpdates(stack);
    AgreesLinked(s, stack, depth);
    if outcome.Failed? { SameWindow(s, next, canon); }
    if found.Found? && outcome.Emitted? {
      var (number, held) := s.retained[found.index];
      RevertedStack(stack, number + 1, held, canon);
      StackTop(next, left, deep);
      HighestIs(s, canon, found.index);
      TopIsHighest(next, canon, left, deep);
    }
  }

  lemma ResolveIs(s: State, ready: map<nat, Block>, value: Block, headers: map<nat, Hash>)
    requires s.cursor.Some? && !FindAncestor(s.retained, headers).Unavailable?
    ensures var (next, outcome) := Resolve(s, ready, value, headers);
            var found := FindAncestor(s.retained, headers);
            && next.ready == map[] && (outcome.Failed? || (found.Found? && outcome.Emitted?))
            && (outcome.Failed? ==> next == s.(ready := map[]))
            && (outcome.Emitted? ==> var (number, held) := s.retained[found.index];
                  next.cursor == Some(held) && outcome == Emitted([Revert(number + 1, held)]))
            && (found.Exhausted? ==> outcome.Failed?)
  {
  }

  lemma AgreesLinked(s: State, stack: seq<Block>, depth: nat)
    requires Agrees(s, stack, depth)
    ensures Linked(stack)
  {
  }

  /** The loaded blocks do not matter for what the window holds. */
  lemma SameWindow(s: State, next: State, canon: seq<Block>)
    requires next.retained == s.retained && next.cursor == s.cursor
    ensures Rejoinable(next, canon) <==> Rejoinable(s, canon)
  {
    forall at: nat ensures HighestCanonical(next, canon, at) <==> HighestCanonical(s, canon, at) {
    }
  }

  lemma NothingIdentified(canon: seq<Block>)
    ensures ReadyIdentified(map[], canon)
  {
  }

  lemma NoUpdates(stack: seq<Block>)
    ensures Replay(stack, []) == stack
  {
  }

  lemma RevertedStack(stack: seq<Block>, from: nat, held: Block, canon: seq<Block>)
    requires Linked(stack) && HashIdentifies(stack, canon)
    ensures HashIdentifies(Replay(stack, [Revert(from, held)]), canon)
  {
    PopLinked(stack, from);
    assert [Revert(from, held)][1..] == [];
    var left := Pop(stack, from);
    assert forall i :: 0 <= i < |left| ==> left[i] == stack[i];
  }

  lemma HighestIs(s: State, canon: seq<Block>, at: nat)
    requires HighestCanonical(s, canon, at) && Canonical(canon)
    ensures at < |s.retained| && s.retained[at].1 == canon[s.retained[at].0] && s.retained[at].0 < |canon|
    ensures s.retained[at].1.number == s.retained[at].0
  {
    StableAnswers(canon);
  }

  /** Dropping the loaded head leaves cursor and window as they were. */
  lemma DropKeeps(s: State, canon: seq<Block>, stack: seq<Block>, depth: nat, next: State)
    requires Sane(s, canon, stack, depth) && Top(canon) in s.ready && next == s.(ready := s.ready - {Top(canon)})
    ensures Sane(next, canon, stack, depth) && |next.ready| < |s.ready|
    ensures Rejoinable(next, canon) <==> Rejoinable(s, canon)
  {
    hide HashIdentifies, Linked, Held, Suffix, Rejoinable, ReadyIdentified, Canonical;
    SameWindow(s, next, canon);
    LessIdentified(s.ready, {Top(canon)}, canon);
    FewerReady(s.ready, Top(canon));
  }

  lemma FewerReady(ready: map<nat, Block>, n: nat)
    requires n in ready
    ensures |ready - {n}| < |ready|
  {
    assert (ready - {n}).Keys == ready.Keys - {n};
  }

  // ------------------------------------------------------------------------------------------ reaching the head

  /** Off the head, what one attempt leads to reaches it exactly when the state does. */
  lemma ReachesNext(s: State, canon: seq<Block>)
    requires canon != [] && s.cursor != Some(Last(canon))
    ensures Reaches(s, canon) <==> Reaches(Step(s, Stable(canon)).0, canon)
  {
    hide Follow, Step, Stable;
    var next := Step(s, Stable(canon)).0;
    FollowNone(s, canon);
    if Reaches(s, canon) {
      var steps: nat :| Follow(s, canon, steps).0.cursor == Some(Last(canon));
      FollowStep(s, canon, steps);
      assert Follow(next, canon, steps - 1).0.cursor == Some(Last(canon));
    }
    if Reaches(next, canon) {
      var steps: nat :| Follow(next, canon, steps).0.cursor == Some(Last(canon));
      FollowStep(s, canon, steps + 1);
      assert Follow(s, canon, steps + 1).0.cursor == Some(Last(canon));
    }
  }

  lemma {:induction false} IdleForever(s: State, canon: seq<Block>, steps: nat)
    requires canon != [] && Step(s, Stable(canon)).0 == s
    ensures Follow(s, canon, steps).0 == s
  {
    hide Follow, Step, Stable;
    if steps == 0 {
      FollowNone(s, canon);
    } else {
      FollowStep(s, canon, steps);
      IdleForever(s, canon, steps - 1);
    }
  }

  /** A state whose attempts change nothing is at the head, or above it for ever. */
  lemma IdleDecides(s: State, canon: seq<Block>, stack: seq<Block>, depth: nat)
    requires Sane(s, canon, stack, depth) && stack != [] && Step(s, Stable(canon)).0 == s
    requires Last(stack).number > Top(canon) || (Last(stack).number == Top(canon) && Last(stack).hash == Last(canon).hash)
    ensures Reaches(s, canon) <==> Rejoinable(s, canon)
  {
    hide Follow, Step, Stable, HighestCanonical, Linked, ReadyIdentified;
    StackTop(s, stack, depth);
    CanonicalTop(canon);
    if Last(stack).number > Top(canon) {
      forall steps: nat ensures Follow(s, canon, steps).0.cursor != Some(Last(canon)) {
        IdleForever(s, canon, steps);
      }
    } else {
      assert stack[|stack| - 1].hash == canon[|canon| - 1].hash;
      TopIsHighest(s, canon, stack, depth);
      FollowNone(s, canon);
    }
  }

  /** Where no burst is applied any more, the window decides. */
  lemma {:induction false} SettledDecides(s: State, canon: seq<Block>, stack: seq<Block>, depth: nat)
    requires Sane(s, canon, stack, depth) && stack != []
    requires var (next, outcome) := Step(s, Stable(canon)); !Extends(s, canon, next, outcome)
    ensures Reaches(s, canon) <==> Rejoinable(s, canon)
    decreases |s.ready|
  {
    hide Follow, Step, Stable, Rejoinable, Resolve, Conflict, Linked, HashIdentifies, ReadyIdentified, Agrees;
    SaneParts(s, canon, stack, depth);
    var (next, outcome) := Step(s, Stable(canon));
    var kind := StepKind(s, canon);
    if kind.Idle? {
      IdleDecides(s, canon, stack, depth);
    } else if kind.Drop? {
      DropKeeps(s, canon, stack, depth, next);
      ReachesNext(s, canon);
      RestStays(s, next, canon);
      SettledDecides(next, canon, stack, depth);
    } else {
      ReachesNext(s, canon);
      var left, deep := ResolvedKeeps(s, canon, stack, depth, kind.value, kind.ready, next, outcome);
      ConvergesFrom(next, canon, left, deep);
    }
  }

  lemma SaneParts(s: State, canon: seq<Block>, stack: seq<Block>, depth: nat)
    requires Sane(s, canon, stack, depth)
    ensures Canonical(canon) && Answers(s.ready) && (stack != [] ==> s.cursor == Some(Last(stack))) && (stack == [] ==> s.cursor == None)
  {
    StackTop(s, stack, depth);
  }

  /** At the head's height no attempt applies anything. */
  lemma RestStays(s: State, next: State, canon: seq<Block>)
    requires canon != [] && s.cursor.Some? && s.cursor.value.number == Top(canon) && next.cursor == s.cursor
    ensures var (after, outcome) := Step(next, Stable(canon)); !Extends(next, canon, after, outcome)
  {
    hide Step, Stable;
  }

  lemma ConvergesFrom(s: State, canon: seq<Block>, stack: seq<Block>, depth: nat)
    requires Sane(s, canon, stack, depth) && stack != [] && s.ready == map[]
    ensures Reaches(s, canon) <==> Rejoinable(s, canon)
  {
    hide Follow, Rejoinable, Agrees, HashIdentifies;
    ConvergesExactly(s, canon, stack, depth);
  }

  /**
   From every state the worker can be in, whatever blocks are loaded: on a stable chain it reaches the head if and only
   if, once the loaded blocks that link have been applied, the cursor is not above the head and the window still holds a
   canonical block.
   */
  lemma {:induction false} ConvergesFromAnywhere(s: State, canon: seq<Block>, stack: seq<Block>, depth: nat)
    requires Sane(s, canon, stack, depth)
    ensures Reaches(s, canon) <==> Rejoinable(Clean(s, canon), canon)
    decreases Rest(s, canon)
  {
    hide Follow, Step, Stable, Rejoinable, Resolve, Conflict, Linked, HashIdentifies, ReadyIdentified, Agrees;
    SaneParts(s, canon, stack, depth);
    var (next, outcome) := Step(s, Stable(canon));
    var kind := StepKind(s, canon);
    if Extends(s, canon, next, outcome) {
      var grown, deeper := AppliedKeeps(s, canon, stack, depth, kind.updates, kind.ready, next, outcome);
      CanonicalTop(canon);
      ReachesNext(s, canon);
      ConvergesFromAnywhere(next, canon, grown, deeper);
    } else {
      assert s.cursor.Some?;
      SettledDecides(s, canon, stack, depth);
    }
  }

  // ------------------------------------------------------------------------------------------ a block too many

  /** The old branch and the stable chain: they share block 0 only. */
  function OldBlock(n: nat): Block { Block(n, 2 * n, 2 * n - 2, 0, []) }

  function NewBlock(n: nat): Block { if n == 0 then OldBlock(0) else Block(n, 2 * n + 1, if n == 1 then 0 else 2 * n - 1, 0, []) }

  function OldStack(): seq<Block> { seq(128, i requires 0 <= i < 128 => OldBlock(i)) }

  function NewChain(): seq<Block> { seq(129, i requires 0 <= i < 129 => NewBlock(i)) }

  /** The window is full, its oldest block is the only common one, and block 128 of the old branch is still loaded. */
  function CrowdedState(): State { State(Held(OldStack()), map[128 := OldBlock(128)], Some(OldBlock(127))) }

  lemma BranchFacts()
    ensures forall n: nat :: OldBlock(n).number == n && OldBlock(n).hash == 2 * n && NewBlock(n).number == n
    ensures forall n: nat :: n > 0 ==> NewBlock(n).hash == 2 * n + 1
    ensures NewBlock(0) == OldBlock(0)
    ensures forall n: nat :: n > 0 ==> Follows(OldBlock(n - 1), OldBlock(n)) && Follows(NewBlock(n - 1), NewBlock(n))
  {
  }

  lemma CrowdedIsSane()
    ensures Sane(CrowdedState(), NewChain(), OldStack(), 128) && Rejoinable(CrowdedState(), NewChain())
    ensures Sane(CrowdedState().(ready := map[]), NewChain(), OldStack(), 128)
  {
    BranchFacts();
    hide OldBlock, NewBlock;
    var s, canon, stack := CrowdedState(), NewChain(), OldStack();
    assert Suffix(stack, 128) == stack;
    assert stack[127] == OldBlock(127) && s.retained[0] == (0, OldBlock(0));
    assert HighestCanonical(s, canon, 0) by {
      forall j | 0 < j < |s.retained| && s.retained[j].0 < |canon| ensures s.retained[j].1 != canon[s.retained[j].0] {
        assert s.retained[j] == (j, OldBlock(j)) && canon[j] == NewBlock(j);
      }
    }
    assert Last(canon) == NewBlock(128);
  }

  /** The next attempt applies the loaded block, and the common one leaves the window. */
  lemma CrowdedSteps()
    ensures var next := State(Held((OldStack() + [OldBlock(128)])[1..]), map[], Some(OldBlock(128)));
            Step(CrowdedState(), Stable(NewChain())) == (next, Emitted([Apply(OldBlock(128))]))
  {
    BranchFacts();
    hide OldBlock, NewBlock, PutAll, Evict, Held, Linked;
    var s, canon, updates := CrowdedState(), NewChain(), [OldBlock(128)];
    assert Last(canon) == NewBlock(128) && Wanted(s.cursor, 128) == [128];
    var ready := Fill(s.ready, [128], Stable(canon).loads);
    assert ready == s.ready;
    assert Collect([128], ready) == updates && updates[1..] == [];
    assert Conflict(s.cursor, updates) == 1 + Conflict(Some(OldBlock(128)), []);
    assert Numbers(updates) == {128} by { assert updates[0].number == 128; }
    assert ready - {128} == map[] && Applies(updates) == [Apply(OldBlock(128))];
    OldLinked();
    assert Suffix(OldStack(), 128) == OldStack();
    ExtendWindow(OldStack(), 128, updates);
    assert Suffix(OldStack() + updates, 128) == (OldStack() + updates)[1..];
  }

  lemma OldLinked()
    ensures Linked(OldStack() + [OldBlock(128)])
  {
    BranchFacts();
    hide OldBlock;
    var all := OldStack() + [OldBlock(128)];
    forall i | 0 < i < |all| ensures LinkedAt(all, i) {
      assert all[i] == OldBlock(i) && all[i - 1] == OldBlock(i - 1);
    }
  }

  /** A window with a common block, one loaded block of the old branch left over: with it the worker is lost, without it not. */
  lemma LeftoverLosesTheWay()
    ensures Rejoinable(CrowdedState(), NewChain())
    ensures !Reaches(CrowdedState(), NewChain()) && Reaches(CrowdedState().(ready := map[]), NewChain())
  {
    hide Step, Follow, Stable, Held, Sane, Rejoinable;
    CrowdedIsSane();
    CrowdedSteps();
    var s, canon := CrowdedState(), NewChain();
    var next := Step(s, Stable(canon)).0;
    AtTheTop(next, canon);
    ConvergesFromAnywhere(s, canon, OldStack(), 128);
    NothingCommon();
    SameWindow(s, s.(ready := map[]), canon);
    ConvergesFrom(s.(ready := map[]), canon, OldStack(), 128);
  }

  lemma AtTheTop(s: State, canon: seq<Block>)
    requires canon != [] && s.cursor.Some? && s.cursor.value.number >= Top(canon)
    ensures Clean(s, canon) == s && Rest(s, canon) == 0
  {
    hide Step, Stable;
  }

  lemma NothingCommon()
    ensures !Rejoinable(State(Held((OldStack() + [OldBlock(128)])[1..]), map[], Some(OldBlock(128))), NewChain())
  {
    BranchFacts();
    hide OldBlock, NewBlock;
    var s := State(Held((OldStack() + [OldBlock(128)])[1..]), map[], Some(OldBlock(128)));
    forall at: nat ensures !HighestCanonical(s, NewChain(), at) {
      if at < |s.retained| {
        assert s.retained[at] == (at + 1, OldBlock(at + 1)) && NewChain()[at + 1] == NewBlock(at + 1);
      }
    }
  }
}
