/**
 Two bounded windows that follow the live chain downstream: the client's completed blocks, and the logs a
 viem subscription keeps so that it can send them again as removed.
 */
module ChainConsumers {
  import opened Blocks
  import opened OrderedMap
  import opened LiveChain
  import opened LiveChainRuns

  type Filter = Log -> bool

  function Complete(held: Entries<nat, Block>, update: Update): Entries<nat, Block> {
    match update
    case Apply(value) => Evict(Put(held, value.number, value), WINDOW)
    case Revert(from, _) => DropFrom(held, from)
  }

  function CompleteAll(held: Entries<nat, Block>, updates: seq<Update>): Entries<nat, Block>
    decreases |updates|
  {
    if updates == [] then held else CompleteAll(Complete(held, updates[0]), updates[1..])
  }

  function Matching(logs: seq<Log>, matches: Filter): seq<Log> {
    if logs == [] then []
    else (if matches(logs[0]) then [logs[0]] else []) + Matching(logs[1..], matches)
  }

  function Removed(logs: seq<Log>): seq<Log> {
    seq(|logs|, i requires 0 <= i < |logs| => logs[i].(removed := true))
  }

  /** The logs of the entries at or above `from`, in the map's order. */
  function LogsFrom(retained: Entries<nat, seq<Log>>, from: nat): seq<Log> {
    if retained == [] then []
    else (if retained[0].0 >= from then retained[0].1 else []) + LogsFrom(retained[1..], from)
  }

  /** What a subscription keeps and sends on one update. */
  function Deliver(retained: Entries<nat, seq<Log>>, update: Update, matches: Filter):
    (Entries<nat, seq<Log>>, seq<Log>)
  {
    match update
    case Apply(value) =>
      var logs := Matching(value.logs, matches);
      (Evict(Put(retained, value.number, logs), WINDOW), logs)
    case Revert(from, _) => (DropFrom(retained, from), Removed(LogsFrom(retained, from)))
  }

  function DeliverAll(retained: Entries<nat, seq<Log>>, updates: seq<Update>, matches: Filter):
    (Entries<nat, seq<Log>>, seq<Log>)
    decreases |updates|
  {
    if updates == [] then (retained, [])
    else
      var (next, sent) := Deliver(retained, updates[0], matches);
      var (end, rest) := DeliverAll(next, updates[1..], matches);
      (end, sent + rest)
  }

  /** The map of completed blocks, updated in place. */
  class CompletedBlocks {
    var held: Entries<nat, Block>

    constructor ()
      ensures held == []
    {
      held := [];
    }

    method Record(value: Block)
      requires DistinctKeys(held)
      modifies this
      ensures held == Evict(Put(old(held), value.number, value), WINDOW)
      ensures DistinctKeys(held)
    {
      hide Put;
      PutDistinct(held, value.number, value);
      held := Put(held, value.number, value);
      ghost var full := held;
      while |held| > WINDOW
        invariant Evict(held, WINDOW) == Evict(full, WINDOW)
        invariant DistinctKeys(held)
      {
        held := held[1..];
      }
    }

    method Discard(from: nat)
      requires DistinctKeys(held)
      modifies this
      ensures held == DropFrom(old(held), from)
      ensures DistinctKeys(held)
    {
      hide DropFrom, Delete, DistinctKeys;
      var entries := held;
      DropNothing(entries, from);
      for i := 0 to |entries|
        invariant held == DropFrom(entries[..i], from) + entries[i..]
        invariant DistinctKeys(held)
      {
        DropTurn(entries, from, i);
        if entries[i].0 >= from {
          held := Delete(held, entries[i].0);
        }
      }
      assert entries[..|entries|] == entries;
    }

    method OnUpdate(update: Update)
      requires DistinctKeys(held)
      modifies this
      ensures held == Complete(old(held), update)
      ensures DistinctKeys(held)
    {
      match update
      case Apply(value) => Record(value);
      case Revert(from, _) => Discard(from);
    }
  }

  /** One log subscription: the matching logs of each retained block. */
  class LogSubscription {
    var retained: Entries<nat, seq<Log>>
    const matches: Filter

    constructor (filter: Filter)
      ensures retained == [] && matches == filter
    {
      retained, matches := [], filter;
    }

    method Record(value: Block) returns (sent: seq<Log>)
      requires DistinctKeys(retained)
      modifies this
      ensures sent == Matching(value.logs, matches)
      ensures retained == Evict(Put(old(retained), value.number, sent), WINDOW)
      ensures DistinctKeys(retained)
    {
      hide Put;
      sent := Matching(value.logs, matches);
      PutDistinct(retained, value.number, sent);
      retained := Put(retained, value.number, sent);
      ghost var full := retained;
      while |retained| > WINDOW
        invariant Evict(retained, WINDOW) == Evict(full, WINDOW)
        invariant DistinctKeys(retained)
      {
        retained := retained[1..];
      }
    }

    method Discard(from: nat) returns (sent: seq<Log>)
      requires DistinctKeys(retained)
      modifies this
      ensures sent == Removed(LogsFrom(old(retained), from))
      ensures retained == DropFrom(old(retained), from)
      ensures DistinctKeys(retained)
    {
      hide DropFrom, Delete, DistinctKeys, LogsFrom, Removed;
      var entries := retained;
      NoLogs(from);
      sent := [];
      DropNothing(entries, from);
      for i := 0 to |entries|
        invariant retained == DropFrom(entries[..i], from) + entries[i..]
        invariant sent == Removed(LogsFrom(entries[..i], from))
        invariant DistinctKeys(retained)
      {
        DropTurn(entries, from, i);
        LogsFromNext(entries, from, i);
        if entries[i].0 >= from {
          sent := sent + Removed(entries[i].1);
          retained := Delete(retained, entries[i].0);
        }
      }
      assert entries[..|entries|] == entries;
    }

    method OnUpdate(update: Update) returns (sent: seq<Log>)
      requires DistinctKeys(retained)
      modifies this
      ensures (retained, sent) == Deliver(old(retained), update, matches)
      ensures DistinctKeys(retained)
    {
      match update
      case Apply(value) => sent := Record(value);
      case Revert(from, _) => sent := Discard(from);
    }
  }

  lemma NoLogs(from: nat)
    ensures Removed(LogsFrom([], from)) == []
  {
  }

  lemma {:induction false} LogsFromConcat(a: Entries<nat, seq<Log>>, b: Entries<nat, seq<Log>>, from: nat)
    ensures LogsFrom(a + b, from) == LogsFrom(a, from) + LogsFrom(b, from)
  {
    if a == [] {
      assert a + b == b;
    } else {
      assert (a + b)[1..] == a[1..] + b;
      LogsFromConcat(a[1..], b, from);
    }
  }

  lemma LogsFromNext(entries: Entries<nat, seq<Log>>, from: nat, i: nat)
    requires i < |entries|
    ensures LogsFrom(entries[..i + 1], from)
         == LogsFrom(entries[..i], from) + (if entries[i].0 >= from then entries[i].1 else [])
    ensures Removed(LogsFrom(entries[..i + 1], from))
         == Removed(LogsFrom(entries[..i], from)) + (if entries[i].0 >= from then Removed(entries[i].1) else [])
  {
    assert entries[..i + 1] == entries[..i] + [entries[i]];
    LogsFromConcat(entries[..i], [entries[i]], from);
    assert LogsFrom([entries[i]], from) == (if entries[i].0 >= from then entries[i].1 else []) + LogsFrom([], from);
  }

  // ---------------------------------------------------------------- the completed blocks are the chain's window

  lemma AppliedWindow(stack: seq<Block>, depth: nat, value: Block)
    requires Linked(stack) && depth <= |stack| && (stack == [] || Follows(Last(stack), value))
    ensures Linked(stack + [value])
    ensures Evict(Put(Held(Suffix(stack, depth)), value.number, value), WINDOW)
         == Held(Suffix(stack + [value], Min(depth + 1, WINDOW)))
  {
    hide Held, Suffix, Put, Evict;
    AppendLinked(stack, [value]);
    ExtendWindow(stack, depth, [value]);
    PutAllOne(Held(Suffix(stack, depth)), value);
  }

  lemma PutAllOne(retained: Entries<nat, Block>, value: Block)
    ensures PutAll(retained, [value]) == Put(retained, value.number, value)
  {
    assert [value][..0] == [];
  }

  /** A sound revert cuts the stack at its ancestor, inside the newest `depth` blocks. */
  lemma RevertCuts(stack: seq<Block>, depth: nat, update: Update)
    requires Linked(stack) && depth <= |stack| && Sound(stack, depth, update) && update.Revert?
    ensures var kept := Advance(stack, update);
            && kept != [] && |stack| - depth < |kept| <= |stack| && kept == stack[..|kept|] && Linked(kept)
            && update.from == stack[|kept| - 1].number + 1
            && NextDepth(stack, depth, update) == depth - (|stack| - |kept|)
  {
    PopLinked(stack, update.from);
  }

  lemma CompleteStep(stack: seq<Block>, depth: nat, update: Update)
    requires Linked(stack) && depth <= |stack| && Sound(stack, depth, update)
    ensures Linked(Advance(stack, update)) && 0 <= NextDepth(stack, depth, update) <= |Advance(stack, update)|
    ensures Complete(Held(Suffix(stack, depth)), update)
         == Held(Suffix(Advance(stack, update), NextDepth(stack, depth, update)))
  {
    hide Held, Suffix, Put, Evict, DropFrom, Linked, Pop;
    match update
    case Apply(value) =>
      AppliedWindow(stack, depth, value);
    case Revert(from, ancestor) =>
      RevertCuts(stack, depth, update);
      RevertWindow(stack, depth, depth - (|stack| - (|Advance(stack, update)| - 1)));
  }

  lemma {:induction false} CompletedTracks(stack: seq<Block>, depth: nat, updates: seq<Update>)
    requires Linked(stack) && depth <= |stack| && AllSound(stack, depth, updates)
    ensures Depth(stack, depth, updates) <= |Replay(stack, updates)|
    ensures CompleteAll(Held(Suffix(stack, depth)), updates)
         == Held(Suffix(Replay(stack, updates), Depth(stack, depth, updates)))
    decreases |updates|
  {
    if updates != [] {
      hide Complete, Held, Linked, Sound, NextDepth, Advance;
      CompleteStep(stack, depth, updates[0]);
      CompletedTracks(Advance(stack, updates[0]), NextDepth(stack, depth, updates[0]), updates[1..]);
    }
  }

  /** In every run the completed blocks are exactly the live chain's retained window, in the same order. */
  lemma CompletedIsWindow(inputs: seq<Input>)
    requires forall k :: 0 <= k < |inputs| ==> Answers(inputs[k].loads)
    ensures var (end, updates) := Run(INITIAL, inputs);
            CompleteAll([], updates) == end.retained
  {
    hide Run, AllSound, CompleteAll, Replay, Depth, Held;
    var (end, updates) := Run(INITIAL, inputs);
    InitialAgrees();
    RunKeeps(INITIAL, inputs, [], 0);
    CompletedTracks([], 0, updates);
    AgreesWindow(end, Replay([], updates), Depth([], 0, updates));
    assert Held(Suffix([], 0)) == [] by { NothingHeld(); }
  }

  lemma InitialAgrees()
    ensures Agrees(INITIAL, [], 0)
  {
  }

  lemma NothingHeld()
    ensures Held(Suffix([], 0)) == []
  {
  }

  lemma AgreesWindow(s: State, stack: seq<Block>, depth: nat)
    requires Agrees(s, stack, depth)
    ensures depth <= |stack| && s.retained == Held(Suffix(stack, depth))
  {
  }

  // ------------------------------------------------- a log subscription sends back exactly what a reorg takes away

  function Kept(blocks: seq<Block>, matches: Filter): Entries<nat, seq<Log>> {
    seq(|blocks|, i requires 0 <= i < |blocks| => (blocks[i].number, Matching(blocks[i].logs, matches)))
  }

  /** The matching logs of some blocks, in order. */
  function Flat(blocks: seq<Block>, matches: Filter): seq<Log> {
    if blocks == [] then []
    else Matching(blocks[0].logs, matches) + Flat(blocks[1..], matches)
  }

  /** The logs sent as new, and those sent back as removed, each as it was first sent. */
  function Added(sent: seq<Log>): seq<Log> {
    if sent == [] then []
    else (if sent[0].removed then [] else [sent[0]]) + Added(sent[1..])
  }

  function TakenBack(sent: seq<Log>): seq<Log> {
    if sent == [] then []
    else (if sent[0].removed then [sent[0].(removed := false)] else []) + TakenBack(sent[1..])
  }

  /** Loaded logs are not marked removed. */
  predicate Clean(logs: seq<Log>) {
    forall i :: 0 <= i < |logs| ==> !logs[i].removed
  }

  predicate CleanUpdates(updates: seq<Update>) {
    forall k :: 0 <= k < |updates| && updates[k].Apply? ==> Clean(updates[k].value.logs)
  }

  predicate CleanBlocks(blocks: seq<Block>) {
    forall k :: 0 <= k < |blocks| ==> Clean(blocks[k].logs)
  }

  lemma {:induction false} MatchingClean(logs: seq<Log>, matches: Filter)
    requires Clean(logs)
    ensures Clean(Matching(logs, matches))
  {
    if logs != [] {
      MatchingClean(logs[1..], matches);
    }
  }

  lemma {:induction false} FlatClean(blocks: seq<Block>, matches: Filter)
    requires CleanBlocks(blocks)
    ensures Clean(Flat(blocks, matches))
  {
    if blocks != [] {
      MatchingClean(blocks[0].logs, matches);
      FlatClean(blocks[1..], matches);
    }
  }

  lemma {:induction false} FlatConcat(a: seq<Block>, b: seq<Block>, matches: Filter)
    ensures Flat(a + b, matches) == Flat(a, matches) + Flat(b, matches)
  {
    if a == [] {
      assert a + b == b;
    } else {
      assert (a + b)[1..] == a[1..] + b;
      FlatConcat(a[1..], b, matches);
    }
  }

  lemma {:induction false} AddedConcat(a: seq<Log>, b: seq<Log>)
    ensures Added(a + b) == Added(a) + Added(b)
  {
    if a == [] {
      assert a + b == b;
    } else {
      assert (a + b)[0] == a[0] && (a + b)[1..] == a[1..] + b;
      AddedConcat(a[1..], b);
      var head := if a[0].removed then [] else [a[0]];
      assert head + (Added(a[1..]) + Added(b)) == (head + Added(a[1..])) + Added(b);
    }
  }

  lemma {:induction false} TakenBackConcat(a: seq<Log>, b: seq<Log>)
    ensures TakenBack(a + b) == TakenBack(a) + TakenBack(b)
  {
    if a == [] {
      assert a + b == b;
    } else {
      assert (a + b)[0] == a[0] && (a + b)[1..] == a[1..] + b;
      TakenBackConcat(a[1..], b);
      var head := if a[0].removed then [a[0].(removed := false)] else [];
      assert head + (TakenBack(a[1..]) + TakenBack(b)) == (head + TakenBack(a[1..])) + TakenBack(b);
    }
  }

  lemma {:induction false} CleanCounts(logs: seq<Log>)
    requires Clean(logs)
    ensures Added(logs) == logs && TakenBack(logs) == []
    ensures Added(Removed(logs)) == [] && TakenBack(Removed(logs)) == logs
  {
    if logs != [] {
      CleanCounts(logs[1..]);
      assert Removed(logs)[1..] == Removed(logs[1..]);
      assert logs[0].(removed := true).(removed := false) == logs[0];
      assert logs == [logs[0]] + logs[1..];
    }
  }

  lemma KeptSlice(blocks: seq<Block>, matches: Filter, lo: nat, hi: nat)
    requires lo <= hi <= |blocks|
    ensures Kept(blocks, matches)[lo..hi] == Kept(blocks[lo..hi], matches)
  {
  }

  lemma {:induction false} LogsFromKept(blocks: seq<Block>, matches: Filter, from: nat, cut: nat)
    requires cut <= |blocks|
    requires forall i :: 0 <= i < |blocks| ==> (blocks[i].number >= from <==> i >= cut)
    ensures LogsFrom(Kept(blocks, matches), from) == Flat(blocks[cut..], matches)
  {
    if blocks != [] {
      var tail := blocks[1..];
      assert Kept(blocks, matches)[1..] == Kept(tail, matches);
      LogsFromKept(tail, matches, from, if cut == 0 then 0 else cut - 1);
      if cut == 0 {
        assert blocks[0..] == blocks && tail[0..] == tail;
      } else {
        assert blocks[cut..] == tail[cut - 1..];
      }
    }
  }

  /** An apply appends the block's logs and lets go of the oldest entry past 128. */
  lemma KeepsApplied(joined: seq<Block>, n: nat, value: Block, matches: Filter)
    requires n <= |joined| && Linked(joined + [value])
    ensures Evict(Put(Kept(Suffix(joined, n), matches), value.number, Matching(value.logs, matches)), WINDOW)
         == Kept(Suffix(joined + [value], Min(n + 1, WINDOW)), matches)
  {
    hide Put, Matching;
    var part := Suffix(joined, n);
    var kept := Kept(part, matches);
    AllLinkedNumbers(joined + [value]);
    forall i | 0 <= i < |kept| ensures kept[i].0 != value.number {
      assert part[i] == (joined + [value])[|joined| - n + i] && value == (joined + [value])[|joined|];
    }
    PutFresh(kept, value.number, Matching(value.logs, matches));
    var grown := part + [value];
    assert kept + [(value.number, Matching(value.logs, matches))] == Kept(grown, matches);
    var m := Min(n + 1, WINDOW);
    KeptSlice(grown, matches, n + 1 - m, n + 1);
    assert grown[n + 1 - m..n + 1] == Suffix(joined + [value], m);
  }

  /** The newest `popped` of the kept heights are those at or above `from`. */
  lemma CutHeights(joined: seq<Block>, n: nat, from: nat, popped: nat)
    requires Linked(joined) && popped <= n <= |joined|
    requires joined == [] || popped == |joined| || from == joined[|joined| - 1 - popped].number + 1
    requires joined != [] && popped == |joined| ==> from <= joined[0].number
    ensures var part := Suffix(joined, n);
            forall i :: 0 <= i < |part| ==> (part[i].number >= from <==> i >= n - popped)
  {
    AllLinkedNumbers(joined);
    var part := Suffix(joined, n);
    forall i | 0 <= i < |part| ensures part[i].number >= from <==> i >= n - popped {
      assert part[i] == joined[|joined| - n + i];
    }
  }

  /** A revert drops the newest `popped` entries and returns their logs. */
  lemma KeepsReverted(joined: seq<Block>, n: nat, from: nat, popped: nat, matches: Filter)
    requires popped <= n <= |joined|
    requires var part := Suffix(joined, n);
             forall i :: 0 <= i < |part| ==> (part[i].number >= from <==> i >= n - popped)
    ensures var kept := Kept(Suffix(joined, n), matches);
            && DropFrom(kept, from) == Kept(Suffix(joined[..|joined| - popped], n - popped), matches)
            && LogsFrom(kept, from) == Flat(joined[|joined| - popped..], matches)
  {
    hide Matching, Flat, LogsFrom, DropFrom;
    var part := Suffix(joined, n);
    var cut := n - popped;
    DropFromAscending(Kept(part, matches), from, cut);
    KeptSlice(part, matches, 0, cut);
    assert part[0..cut] == Suffix(joined[..|joined| - popped], cut);
    LogsFromKept(part, matches, from, cut);
    assert part[cut..] == joined[|joined| - popped..];
  }

  /** The subscriber's blocks are the newest of the whole stack, and its map their newest `depth`. */
  ghost predicate Follower(stack: seq<Block>, depth: nat, joined: seq<Block>,
                           retained: Entries<nat, seq<Log>>, matches: Filter)
  {
    && Linked(stack) && depth <= |stack| && depth <= WINDOW
    && |joined| <= |stack| && joined == Suffix(stack, |joined|)
    && retained == Kept(Suffix(joined, Min(|joined|, depth)), matches)
  }

  /** One update keeps the subscriber in step and sends the logs of the blocks it gains or loses. */
  ghost predicate Delivers(joined: seq<Block>, update: Update, sent: seq<Log>, matches: Filter) {
    match update
    case Apply(value) => sent == Matching(value.logs, matches) && Advance(joined, update) == joined + [value]
    case Revert(_, _) =>
      var left := Advance(joined, update);
      |left| <= |joined| && left == joined[..|left|] && sent == Removed(Flat(joined[|left|..], matches))
  }

  lemma DeliverStep(stack: seq<Block>, depth: nat, joined: seq<Block>, retained: Entries<nat, seq<Log>>,
                    update: Update, matches: Filter)
    requires Follower(stack, depth, joined, retained, matches) && Sound(stack, depth, update)
    ensures var (next, sent) := Deliver(retained, update, matches);
            && 0 <= NextDepth(stack, depth, update)
            && Follower(Advance(stack, update), NextDepth(stack, depth, update), Advance(joined, update), next, matches)
            && Delivers(joined, update, sent, matches)
  {
    hide *;
    match update
    case Apply(_) => DeliverApply(stack, depth, joined, retained, update, matches);
    case Revert(_, _) => DeliverRevert(stack, depth, joined, retained, update, matches);
  }

  lemma FollowerFacts(stack: seq<Block>, depth: nat, joined: seq<Block>, retained: Entries<nat, seq<Log>>, matches: Filter)
    requires Follower(stack, depth, joined, retained, matches)
    ensures Linked(stack) && depth <= |stack| && depth <= WINDOW
    ensures |joined| <= |stack| && joined == Suffix(stack, |joined|) && Linked(joined)
    ensures Min(|joined|, depth) <= |joined| && retained == Kept(Suffix(joined, Min(|joined|, depth)), matches)
  {
    SliceLinked(stack, |stack| - |joined|, |stack|);
    assert stack[|stack| - |joined|..|stack|] == joined;
  }

  lemma DeliverApply(stack: seq<Block>, depth: nat, joined: seq<Block>, retained: Entries<nat, seq<Log>>,
                     update: Update, matches: Filter)
    requires Follower(stack, depth, joined, retained, matches) && Sound(stack, depth, update) && update.Apply?
    ensures var (next, sent) := Deliver(retained, update, matches);
            && 0 <= NextDepth(stack, depth, update)
            && Follower(Advance(stack, update), NextDepth(stack, depth, update), Advance(joined, update), next, matches)
            && Delivers(joined, update, sent, matches)
  {
    hide Put, Evict, Matching, Kept, Linked, Follower;
    var value := update.value;
    FollowerFacts(stack, depth, joined, retained, matches);
    AppendLinked(stack, [value]);
    assert joined != [] ==> Last(joined) == Last(stack);
    AppendLinked(joined, [value]);
    KeepsApplied(joined, Min(|joined|, depth), value, matches);
    FollowerApplied(stack, depth, joined, value, Deliver(retained, update, matches).0, matches);
  }

  lemma FollowerApplied(stack: seq<Block>, depth: nat, joined: seq<Block>, value: Block,
                        next: Entries<nat, seq<Log>>, matches: Filter)
    requires Linked(stack + [value]) && depth <= |stack| && depth <= WINDOW
    requires |joined| <= |stack| && joined == Suffix(stack, |joined|)
    requires next == Kept(Suffix(joined + [value], Min(Min(|joined|, depth) + 1, WINDOW)), matches)
    ensures Follower(stack + [value], Min(depth + 1, WINDOW), joined + [value], next, matches)
  {
    hide Kept, Linked;
    assert Min(Min(|joined|, depth) + 1, WINDOW) == Min(|joined| + 1, Min(depth + 1, WINDOW));
  }

  lemma DeliverRevert(stack: seq<Block>, depth: nat, joined: seq<Block>, retained: Entries<nat, seq<Log>>,
                      update: Update, matches: Filter)
    requires Follower(stack, depth, joined, retained, matches) && Sound(stack, depth, update) && update.Revert?
    ensures var (next, sent) := Deliver(retained, update, matches);
            && 0 <= NextDepth(stack, depth, update)
            && Follower(Advance(stack, update), NextDepth(stack, depth, update), Advance(joined, update), next, matches)
            && Delivers(joined, update, sent, matches)
  {
    hide *;
    FollowerFacts(stack, depth, joined, retained, matches);
    RevertCuts(stack, depth, update);
    RevertJoined(stack, depth, joined, update);
    var n := Min(|joined|, depth);
    var left := Advance(joined, update);
    var popped := |joined| - |left|;
    CutHeights(joined, n, update.from, popped);
    KeepsReverted(joined, n, update.from, popped, matches);
    DeliverUnfold(retained, joined, update, matches);
    FollowerReverted(Advance(stack, update), |stack| - |Advance(stack, update)|, depth, joined, left,
                     Deliver(retained, update, matches).0, matches);
  }

  lemma DeliverUnfold(retained: Entries<nat, seq<Log>>, joined: seq<Block>, update: Update, matches: Filter)
    requires update.Revert?
    ensures Deliver(retained, update, matches) == (DropFrom(retained, update.from), Removed(LogsFrom(retained, update.from)))
    ensures forall sent :: Delivers(joined, update, sent, matches) <==>
              var left := Advance(joined, update);
              |left| <= |joined| && left == joined[..|left|] && sent == Removed(Flat(joined[|left|..], matches))
  {
  }

  lemma FollowerReverted(kept: seq<Block>, lost: nat, depth: nat, joined: seq<Block>, left: seq<Block>,
                         next: Entries<nat, seq<Log>>, matches: Filter)
    requires Linked(kept) && lost < depth <= WINDOW && depth - lost <= |kept|
    requires |left| == (if lost < |joined| then |joined| - lost else 0) && |left| <= |kept| && left == Suffix(kept, |left|)
    requires |joined| - |left| <= Min(|joined|, depth)
    requires Min(|joined|, depth) - (|joined| - |left|) <= |left|
    requires next == Kept(Suffix(left, Min(|joined|, depth) - (|joined| - |left|)), matches)
    ensures Follower(kept, depth - lost, left, next, matches)
  {
    hide Kept, Linked;
    assert Min(|joined|, depth) - (|joined| - |left|) == Min(|left|, depth - lost);
  }

  /** The revert pops as many of the subscriber's blocks as of the stack's, or all of them. */
  lemma RevertJoined(stack: seq<Block>, depth: nat, joined: seq<Block>, update: Update)
    requires Linked(stack) && depth <= |stack| && |joined| <= |stack| && joined == Suffix(stack, |joined|)
    requires Sound(stack, depth, update) && update.Revert?
    ensures var left := Advance(joined, update);
            var popped := |stack| - |Advance(stack, update)|;
            && |left| == (if popped < |joined| then |joined| - popped else 0)
            && |left| <= |joined| && left == joined[..|left|]
            && |joined| - |left| <= Min(|joined|, depth)
            && (left != [] ==> update.from == joined[|left| - 1].number + 1)
            && (joined != [] && left == [] ==> update.from <= joined[0].number)
            && left == Suffix(Advance(stack, update), |left|)
  {
    hide Pop;
    RevertCuts(stack, depth, update);
    AllLinkedNumbers(stack);
    SliceLinked(stack, |stack| - |joined|, |stack|);
    assert stack[|stack| - |joined|..|stack|] == joined;
    PopLinked(joined, update.from);
  }

  /** Between two sets of blocks: the logs added, less those taken back, account for the difference. */
  ghost predicate Balanced(before: seq<Block>, sent: seq<Log>, after: seq<Block>, matches: Filter) {
    multiset(Added(sent)) + multiset(Flat(before, matches)) == multiset(TakenBack(sent)) + multiset(Flat(after, matches))
  }

  lemma BalancedEmpty(blocks: seq<Block>, matches: Filter)
    ensures Balanced(blocks, [], blocks, matches)
  {
  }

  lemma AddBalances(a: multiset<Log>, b: multiset<Log>, c: multiset<Log>, in1: multiset<Log>, out1: multiset<Log>,
                    in2: multiset<Log>, out2: multiset<Log>)
    requires in1 + a == out1 + b && in2 + b == out2 + c
    ensures (in1 + in2) + a == (out1 + out2) + c
  {
    forall log ensures ((in1 + in2) + a)[log] == ((out1 + out2) + c)[log] {
      assert (in1 + a)[log] == (out1 + b)[log] && (in2 + b)[log] == (out2 + c)[log];
    }
  }

  lemma BalancedConcat(a: seq<Block>, b: seq<Block>, c: seq<Block>, sent: seq<Log>, rest: seq<Log>, matches: Filter)
    requires Balanced(a, sent, b, matches) && Balanced(b, rest, c, matches)
    ensures Balanced(a, sent + rest, c, matches)
  {
    hide Added, TakenBack, Flat;
    AddedConcat(sent, rest);
    TakenBackConcat(sent, rest);
    AddBalances(multiset(Flat(a, matches)), multiset(Flat(b, matches)), multiset(Flat(c, matches)),
                multiset(Added(sent)), multiset(TakenBack(sent)), multiset(Added(rest)), multiset(TakenBack(rest)));
  }

  lemma {:induction false} Conserves(stack: seq<Block>, depth: nat, joined: seq<Block>,
                                     retained: Entries<nat, seq<Log>>, updates: seq<Update>, matches: Filter)
    requires Follower(stack, depth, joined, retained, matches) && AllSound(stack, depth, updates)
    requires CleanUpdates(updates) && CleanBlocks(joined)
    ensures Balanced(joined, DeliverAll(retained, updates, matches).1, Replay(joined, updates), matches)
    ensures |Replay(joined, updates)| <= |Replay(stack, updates)|
    ensures Replay(joined, updates) == Suffix(Replay(stack, updates), |Replay(joined, updates)|)
    decreases |updates|
  {
    hide *;
    UnfoldDelivery(joined, retained, stack, depth, updates, matches);
    if updates == [] {
      FollowerSuffix(stack, depth, joined, retained, matches);
      BalancedEmpty(joined, matches);
    } else {
      var (next, sent) := Deliver(retained, updates[0], matches);
      DeliverStep(stack, depth, joined, retained, updates[0], matches);
      StepConserves(joined, updates, sent, matches);
      var after := Advance(joined, updates[0]);
      Conserves(Advance(stack, updates[0]), NextDepth(stack, depth, updates[0]), after, next, updates[1..], matches);
      BalancedConcat(joined, after, Replay(after, updates[1..]), sent, DeliverAll(next, updates[1..], matches).1, matches);
    }
  }

  lemma UnfoldDelivery(joined: seq<Block>, retained: Entries<nat, seq<Log>>, stack: seq<Block>, depth: nat,
                       updates: seq<Update>, matches: Filter)
    requires AllSound(stack, depth, updates)
    ensures updates == [] ==> DeliverAll(retained, updates, matches) == (retained, [])
                              && Replay(joined, updates) == joined && Replay(stack, updates) == stack
    ensures updates != [] ==>
              var (next, sent) := Deliver(retained, updates[0], matches);
              var (end, rest) := DeliverAll(next, updates[1..], matches);
              && DeliverAll(retained, updates, matches) == (end, sent + rest)
              && Replay(joined, updates) == Replay(Advance(joined, updates[0]), updates[1..])
              && Replay(stack, updates) == Replay(Advance(stack, updates[0]), updates[1..])
              && Sound(stack, depth, updates[0]) && NextDepth(stack, depth, updates[0]) >= 0
              && AllSound(Advance(stack, updates[0]), NextDepth(stack, depth, updates[0]), updates[1..])
  {
    hide Deliver, Advance, NextDepth, Sound;
  }

  lemma FollowerSuffix(stack: seq<Block>, depth: nat, joined: seq<Block>, retained: Entries<nat, seq<Log>>, matches: Filter)
    requires Follower(stack, depth, joined, retained, matches)
    ensures |joined| <= |stack| && joined == Suffix(stack, |joined|)
  {
  }

  lemma StepConserves(joined: seq<Block>, updates: seq<Update>, sent: seq<Log>, matches: Filter)
    requires updates != [] && Delivers(joined, updates[0], sent, matches)
    requires CleanUpdates(updates) && CleanBlocks(joined)
    ensures Balanced(joined, sent, Advance(joined, updates[0]), matches)
    ensures CleanUpdates(updates[1..]) && CleanBlocks(Advance(joined, updates[0]))
  {
    hide Pop, Flat, Matching, Added, TakenBack, Clean;
    match updates[0]
    case Apply(value) =>
      MatchingClean(value.logs, matches);
      CleanCounts(sent);
      FlatConcat(joined, [value], matches);
      FlatOne(value, matches);
    case Revert(_, _) =>
      var left := Advance(joined, updates[0]);
      var lost := joined[|left|..];
      assert joined == left + lost;
      FlatConcat(left, lost, matches);
      FlatClean(lost, matches);
      CleanCounts(Flat(lost, matches));
  }

  lemma FlatOne(value: Block, matches: Filter)
    ensures Flat([value], matches) == Matching(value.logs, matches)
  {
    assert Flat([value], matches) == Matching(value.logs, matches) + Flat([], matches);
  }

  /**
   A subscriber that joins any run at any point: the logs it was sent, less those sent back as removed, are the
   matching logs of the blocks applied since it joined and not reverted; those blocks are the newest of the
   chain's stack. Its map holds 128 blocks, and no reverted log is ever missing from it.
   */
  lemma SubscriberInStep(inputs: seq<Input>, join: nat, matches: Filter)
    requires forall k :: 0 <= k < |inputs| ==> Answers(inputs[k].loads)
    requires join <= |Run(INITIAL, inputs).1| && CleanUpdates(Run(INITIAL, inputs).1)
    ensures var updates := Run(INITIAL, inputs).1;
            var seen := updates[join..];
            var sent := DeliverAll([], seen, matches).1;
            var blocks := Replay([], seen);
            && multiset(Added(sent)) == multiset(TakenBack(sent)) + multiset(Flat(blocks, matches))
            && |blocks| <= |Replay([], updates)| && blocks == Suffix(Replay([], updates), |blocks|)
  {
    hide *;
    var updates := Run(INITIAL, inputs).1;
    var seen := updates[join..];
    RunIsSound(inputs);
    assert AllSound([], 0, updates);
    StartSmall();
    SoundSplit([], 0, updates, join);
    var stack := Replay([], updates[..join]);
    var depth := Depth([], 0, updates[..join]);
    JoinFollows(stack, depth, matches);
    CleanSuffix(updates, join);
    FlatNone(matches);
    Conserves(stack, depth, [], [], seen, matches);
    BalancedFromNothing(DeliverAll([], seen, matches).1, Replay([], seen), matches);
  }

  lemma BalancedFromNothing(sent: seq<Log>, after: seq<Block>, matches: Filter)
    requires Balanced([], sent, after, matches)
    ensures multiset(Added(sent)) == multiset(TakenBack(sent)) + multiset(Flat(after, matches))
  {
    FlatNone(matches);
  }

  lemma StartSmall()
    ensures Linked([]) && 0 <= WINDOW
  {
  }

  lemma CleanSuffix(updates: seq<Update>, join: nat)
    requires CleanUpdates(updates) && join <= |updates|
    ensures CleanUpdates(updates[join..])
  {
  }

  lemma RunIsSound(inputs: seq<Input>)
    requires forall k :: 0 <= k < |inputs| ==> Answers(inputs[k].loads)
    ensures AllSound([], 0, Run(INITIAL, inputs).1)
  {
    hide Run, AllSound, Agrees, Answers;
    InitialAgrees();
    RunKeeps(INITIAL, inputs, [], 0);
  }

  lemma FlatNone(matches: Filter)
    ensures Flat([], matches) == [] && CleanBlocks([])
  {
  }

  lemma JoinFollows(stack: seq<Block>, depth: nat, matches: Filter)
    requires Linked(stack) && depth <= |stack| && depth <= WINDOW
    ensures Follower(stack, depth, [], [], matches)
  {
    assert Suffix<Block>([], 0) == [];
  }

  lemma {:induction false} SoundSplit(stack: seq<Block>, depth: nat, updates: seq<Update>, k: nat)
    requires Linked(stack) && depth <= |stack| && depth <= WINDOW && AllSound(stack, depth, updates) && k <= |updates|
    ensures AllSound(stack, depth, updates[..k])
    ensures var mid := Replay(stack, updates[..k]);
            var left := Depth(stack, depth, updates[..k]);
            && Linked(mid) && left <= |mid| && left <= WINDOW && AllSound(mid, left, updates[k..])
            && Replay(mid, updates[k..]) == Replay(stack, updates)
    decreases |updates|
  {
    hide Linked, Sound, Advance, NextDepth;
    if k == 0 {
      assert updates[0..] == updates;
    } else {
      DepthStep(stack, depth, updates[0]);
      SoundSplit(Advance(stack, updates[0]), NextDepth(stack, depth, updates[0]), updates[1..], k - 1);
      assert updates[..k][1..] == updates[1..][..k - 1];
      assert updates[1..][k - 1..] == updates[k..];
    }
  }

  lemma DepthStep(stack: seq<Block>, depth: nat, update: Update)
    requires Linked(stack) && depth <= |stack| && depth <= WINDOW && Sound(stack, depth, update)
    ensures Linked(Advance(stack, update))
    ensures 0 <= NextDepth(stack, depth, update) <= |Advance(stack, update)|
    ensures NextDepth(stack, depth, update) <= WINDOW
  {
    match update
    case Apply(value) => AppendLinked(stack, [value]);
    case Revert(from, _) => RevertCuts(stack, depth, update);
  }
}
