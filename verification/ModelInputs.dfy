/**
 What the checks before a commit say about the batches: of a group only the blocks that are not named as parent by the
 next one need be canonical. A live group has one such block; a group of history can have one in every gap.
 */
module ModelInputs {
  import opened Blocks
  import opened Coverage
  import opened ModelTypes
  import opened ModelStore
  import opened Partitions
  import opened Branches
  import opened ModelCommit
  import opened ModelSafety

  predicate Canonical(chain: seq<Batch>, batch: Batch) {
    batch.block.number < |chain| && batch == chain[batch.block.number]
  }

  ghost predicate AllCanonical(chain: seq<Batch>, batches: seq<Batch>) {
    forall i :: 0 <= i < |batches| ==> Canonical(chain, batches[i])
  }

  /** The next batch is not its child. */
  predicate EndsRun(batches: seq<Batch>, i: nat)
    requires i < |batches|
  {
    i + 1 < |batches| ==>
      !(batches[i + 1].block.number == batches[i].block.number + 1 && batches[i + 1].block.parentHash == batches[i].block.hash)
  }

  ghost predicate EndsCanonical(chain: seq<Batch>, batches: seq<Batch>) {
    forall i :: 0 <= i < |batches| && EndsRun(batches, i) ==> Canonical(chain, batches[i])
  }

  lemma {:induction false} RunIsCanonical(chain: seq<Batch>, batches: seq<Batch>, i: nat)
    requires IsChain(chain) && HashLinked(chain) && OneBlockPerHash(batches, chain) && EndsCanonical(chain, batches) && i < |batches|
    ensures Canonical(chain, batches[i])
    decreases |batches| - i
  {
    hide IsChain;
    if !EndsRun(batches, i) {
      RunIsCanonical(chain, batches, i + 1);
      assert JoinedAt(chain, batches[i].block.number);
      assert batches[i] == chain[batches[i].block.number];
    }
  }

  /** A group is canonical exactly when the last block of each of its linked runs is. */
  lemma EndsDecide(chain: seq<Batch>, batches: seq<Batch>)
    requires IsChain(chain) && HashLinked(chain) && OneBlockPerHash(batches, chain)
    ensures AllCanonical(chain, batches) <==> EndsCanonical(chain, batches)
  {
    hide IsChain, HashLinked, OneBlockPerHash, Canonical;
    if EndsCanonical(chain, batches) {
      forall i | 0 <= i < |batches| ensures Canonical(chain, batches[i]) {
        RunIsCanonical(chain, batches, i);
      }
    }
  }

  lemma OnlyLastEnds(batches: seq<Batch>)
    requires Contiguous(batches) && forall i :: 0 <= i < |batches| ==> batches[i].block.number == batches[0].block.number + i
    ensures forall i :: 0 <= i < |batches| && EndsRun(batches, i) ==> i == |batches| - 1
  {
    forall i | 0 <= i < |batches| - 1 ensures !EndsRun(batches, i) {
      assert batches[i + 1].block.parentHash == batches[i].block.hash;
    }
  }

  /** A live group: the parent checks make it what the safety theorems take, once its last block is canonical. */
  lemma LiveIsGoodInput(chain: seq<Batch>, s: State, batches: seq<Batch>)
    requires IsChain(chain) && HashLinked(chain) && OneBlockPerHash(batches, chain) && batches != [] && s.applied.Some?
    requires Contiguous(batches) && forall i :: 0 <= i < |batches| ==> batches[i].block.number == s.applied.value.number + 1 + i
    ensures GoodInput(chain, s, batches, true, []) <==> Canonical(chain, batches[|batches| - 1])
  {
    hide IsChain, HashLinked, OneBlockPerHash;
    assert forall n :: !Covers([], n);
    if Canonical(chain, batches[|batches| - 1]) {
      OnlyLastEnds(batches);
      EndsDecide(chain, batches);
      forall i | 0 <= i < |batches| ensures batches[i].block.number < |chain| && batches[i] == chain[batches[i].block.number] {
        assert Canonical(chain, batches[i]);
      }
    }
  }

  function Straight(i: nat): Batch { Batch(Header(i, 10 + i, 9 + i, i), []) }

  const STRAY := Batch(Header(1, 21, 10, 1), [7])

  function StraightChain(): seq<Batch> { seq(3, i requires 0 <= i < 3 => Straight(i)) }

  function GenesisStored(): State {
    State(Store([Range(0, 0)], map[0 := Straight(0)], map[]), Some(Straight(2).block), [Range(0, 0)], 0, map[], {}, map[], map[], None)
  }

  /**
   A group of history read from providers that disagree: it joins the stored block below it and its last block is
   canonical, so it is accepted, and its first block is of another branch.
   */
  lemma HistoryLetsStrayThrough()
    ensures var chain, s, batches := StraightChain(), GenesisStored(), [STRAY, Straight(2)];
            && IsChain(chain) && HashLinked(chain) && OneBlockPerHash(batches, chain) && StoredOnChain(chain, s.store.batches)
            && Accepted(s, batches, false, 0) && Canonical(chain, batches[1]) && !Canonical(chain, batches[0]) && EndsRun(batches, 0)
  {
    hide Ascending, LastAtMost, FirstAtLeast;
    var chain, s, batches := StraightChain(), GenesisStored(), [STRAY, Straight(2)];
    assert JoinedAt(chain, 0) && JoinedAt(chain, 1);
    OnlyGenesis();
  }

  lemma OnlyGenesis()
    ensures var stored := Ascending(GenesisStored().store.batches);
            LastAtMost(stored, 0) == Some(Straight(0)) && FirstAtLeast(stored, 3) == None
  {
    var m: map<nat, Batch> := GenesisStored().store.batches;
    AscendingMax(m, 0);
    assert m - {0} == map[];
    var stored := Ascending(m);
    assert stored == [Straight(0)];
    assert stored[1..] == [];
  }
}
