/**
 The checkpointed indexer: recover to the newest stored block that is still canonical, then commit block by block. The
 store always holds one linked chain and its rows; on a chain that no longer changes a sync leaves a fresh index.
 */
module Indexer {
  import opened Blocks
  import opened IndexStore

  /** How a read of a block ends: found, not there, or failed on the way. */
  datatype Reply = Found(block: Block) | Missing | Broken

  // ------------------------------------------------------------------------------------------ the environment

  /** Reads by height, the block to sync to, and the finalized block, each at the k-th read. */
  datatype Client = Client(byNumber: (nat, nat) -> Reply, target: nat -> Reply, finalized: nat -> Option<Anchor>)

  /** A block is returned only for its own height, and its hash identifies it. */
  ghost predicate Trusted(client: Client, world: Hash -> Block) {
    forall t, n :: TrustedAt(client, world, t, n)
  }

  ghost predicate TrustedAt(client: Client, world: Hash -> Block, t: nat, n: nat) {
    client.byNumber(t, n).Found? ==> client.byNumber(t, n).block.number == n && world(client.byNumber(t, n).block.hash) == client.byNumber(t, n).block
  }

  /** A canonical chain that no longer changes, with a fixed block to sync to. */
  ghost predicate Stable(client: Client, canon: seq<Block>, target: nat) {
    && Linked(canon) && target < |canon| && canon[0].number == 0
    && (forall t, n :: StableAt(client, canon, t, n))
    && (forall t :: TargetAt(client, canon, target, t))
  }

  ghost predicate StableAt(client: Client, canon: seq<Block>, t: nat, n: nat) {
    client.byNumber(t, n) == if n < |canon| then Found(canon[n]) else Missing
  }

  ghost predicate TargetAt(client: Client, canon: seq<Block>, target: nat, t: nat) {
    target < |canon| && client.target(t) == Found(canon[target])
  }

  predicate SameHash(canon: seq<Block>, block: Block) {
    block.number < |canon| && canon[block.number].hash == block.hash
  }

  /** How many of the first blocks of an index are canonical. */
  function Common(chain: seq<Block>, canon: seq<Block>): nat {
    if chain == [] then 0
    else if SameHash(canon, Last(chain)) then |chain|
    else Common(chain[..|chain| - 1], canon)
  }

  lemma {:induction false} CommonBounds(chain: seq<Block>, canon: seq<Block>, n: nat)
    requires n <= |chain| && (n > 0 ==> SameHash(canon, chain[n - 1]))
    requires forall i :: n <= i < |chain| ==> !SameHash(canon, chain[i])
    ensures Common(chain, canon) == n
    decreases |chain|
  {
    if chain != [] && n < |chain| {
      var front := chain[..|chain| - 1];
      assert forall i :: 0 <= i < |front| ==> front[i] == chain[i];
      CommonBounds(front, canon, n);
    }
  }

  /** One canonical block makes everything below it canonical. */
  lemma {:induction false} CanonicalBelow(world: Hash -> Block, chain: seq<Block>, canon: seq<Block>, n: nat)
    requires Linked(chain) && Linked(canon) && Identified(world, chain) && Identified(world, canon)
    requires canon != [] && canon[0].number == 0 && 0 < n <= |chain| && SameHash(canon, chain[n - 1])
    ensures chain[0].number + n <= |canon| && chain[..n] == canon[chain[0].number..chain[0].number + n]
    decreases n
  {
    var start := chain[0].number;
    LinkedNumbers(chain, n - 1);
    assert canon[chain[n - 1].number] == chain[n - 1];
    if n > 1 {
      LinkedNumbers(chain, n - 2);
      assert LinkedAt(chain, n - 1);
      LinkedNumbers(canon, chain[n - 1].number);
      assert LinkedAt(canon, chain[n - 1].number);
      CanonicalBelow(world, chain, canon, n - 1);
      assert chain[..n] == chain[..n - 1] + [chain[n - 1]];
      assert canon[start..start + n] == canon[start..start + n - 1] + [canon[start + n - 1]];
    }
  }

  /** What the index must hold in the end: the canonical chain to the target, or to the last block still canonical. */
  ghost function Expected(chain: seq<Block>, canon: seq<Block>, start: nat, target: nat): seq<Block> {
    var kept := start + Common(chain, canon);
    var end := if kept > target + 1 then kept else target + 1;
    if start <= end <= |canon| then canon[start..end] else []
  }

  /** The index is a stretch of the canonical chain. */
  ghost predicate Canonical(chain: seq<Block>, canon: seq<Block>, start: nat) {
    chain == [] || (start + |chain| <= |canon| && chain == canon[start..start + |chain|])
  }

  /** No block of the index from place n on is canonical. */
  ghost predicate NoneAbove(chain: seq<Block>, canon: seq<Block>, n: int) {
    forall k :: n <= k < |chain| && k >= 0 ==> !SameHash(canon, chain[k])
  }

  predicate Anchors(block: Block, anchor: Anchor) {
    block.number == anchor.number && block.hash == anchor.hash
  }

  ghost predicate NotHeldAbove(chain: seq<Block>, anchor: Anchor, n: int) {
    forall k :: n <= k < |chain| && k >= 0 ==> !Anchors(chain[k], anchor)
  }

  /** The finalized block never changes. */
  ghost predicate Fixed(client: Client, anchor: Anchor) {
    forall t :: FixedAt(client, anchor, t)
  }

  ghost predicate FixedAt(client: Client, anchor: Anchor, t: nat) {
    client.byNumber(t, anchor.number).Found? && client.byNumber(t, anchor.number).block.hash == anchor.hash
  }

  /** If the finalized block never changes and the index had it, no block at or below it is taken back. */
  ghost predicate KeepsAnchor(client: Client, anchor: Anchor, before: seq<Block>, after: seq<Block>) {
    Fixed(client, anchor) && Holds(before, anchor) ==> Holds(after, anchor)
  }

  ghost predicate KeepsAnchors(client: Client, before: seq<Block>, after: seq<Block>) {
    forall anchor :: KeepsAnchor(client, anchor, before, after)
  }

  ghost predicate Holds(chain: seq<Block>, anchor: Anchor) {
    exists i :: 0 <= i < |chain| && Anchors(chain[i], anchor)
  }

  predicate IsNewest(blocks: map<Hash, Block>, left: set<Hash>, h: Hash) {
    forall k :: k in left ==> k in blocks && h in blocks && blocks[k].number <= blocks[h].number
  }

  function FinalizedOf(checkpoint: Option<Checkpoint>): Option<Anchor> {
    if checkpoint.Some? then checkpoint.value.finalized else None
  }

  /** The finalized block stored is the one stored before, or one that the client gave. */
  ghost predicate FinalizedGiven(client: Client, before: Option<Checkpoint>, after: Option<Checkpoint>) {
    FinalizedOf(after) == None || FinalizedOf(after) == FinalizedOf(before) || exists t :: client.finalized(t) == FinalizedOf(after)
  }

  /** The stored finalized block, if there is one, is on the chain. */
  predicate FinalizedHeld(checkpoint: Option<Checkpoint>, canon: seq<Block>) {
    checkpoint.Some? && checkpoint.value.finalized.Some? ==>
      var anchor := checkpoint.value.finalized.value;
      anchor.number < |canon| && canon[anchor.number].hash == anchor.hash
  }

  /** None of the newest `depth` blocks is canonical, and there are older ones. */
  predicate TooDeep(chain: seq<Block>, canon: seq<Block>, depth: nat) {
    Common(chain, canon) + depth <= |chain| && depth < |chain|
  }

  class Index {
    var blocks: map<Hash, Block>
    var rows: map<RowKey, Row>
    var checkpoint: Option<Checkpoint>
    var clock: nat
    const client: Client
    const transform: Transform
    const startBlock: nat
    const depth: nat
    const concurrency: nat
    ghost const world: Hash -> Block
    ghost var chain: seq<Block>

    /** The store holds one linked chain from the start block, and its rows. */
    ghost predicate Valid()
      reads this
    {
      && Trusted(client, world) && depth >= 1 && concurrency >= 1
      && Linked(chain) && Identified(world, chain) && AllTransform(transform, chain)
      && (chain != [] ==> chain[0].number == startBlock)
      && blocks == ChainBlocks(chain) && rows == ChainRows(transform, chain)
      && (checkpoint.None? <==> chain == []) && (checkpoint.Some? ==> checkpoint.value.block == Last(chain))
    }

    constructor (client: Client, transform: Transform, startBlock: nat, depth: nat, concurrency: nat, ghost world: Hash -> Block)
      requires Trusted(client, world) && depth >= 1 && concurrency >= 1
      ensures Valid() && chain == []
      ensures this.client == client && this.transform == transform && this.startBlock == startBlock && this.depth == depth && this.world == world
      ensures checkpoint == None
    {
      blocks, rows, checkpoint, clock, chain := map[], map[], None, 0, [];
      this.client, this.transform, this.startBlock, this.depth, this.concurrency, this.world :=
        client, transform, startBlock, depth, concurrency, world;
    }

    /** An index over what a store already holds. */
    constructor Open(blocks: map<Hash, Block>, rows: map<RowKey, Row>, checkpoint: Option<Checkpoint>, client: Client, transform: Transform,
                     startBlock: nat, depth: nat, concurrency: nat, ghost world: Hash -> Block, ghost chain: seq<Block>)
      requires Trusted(client, world) && depth >= 1 && concurrency >= 1
      requires Linked(chain) && Identified(world, chain) && AllTransform(transform, chain) && (chain != [] ==> chain[0].number == startBlock)
      requires blocks == ChainBlocks(chain) && rows == ChainRows(transform, chain)
      requires (checkpoint.None? <==> chain == []) && (checkpoint.Some? ==> checkpoint.value.block == Last(chain))
      ensures Valid() && this.chain == chain && this.checkpoint == checkpoint
      ensures this.client == client && this.transform == transform && this.startBlock == startBlock && this.depth == depth && this.world == world
    {
      this.blocks, this.rows, this.checkpoint, clock, this.chain := blocks, rows, checkpoint, 0, chain;
      this.client, this.transform, this.startBlock, this.depth, this.concurrency, this.world :=
        client, transform, startBlock, depth, concurrency, world;
    }

    method Read(n: nat) returns (reply: Reply)
      modifies this`clock
      ensures reply == client.byNumber(old(clock), n)
    {
      reply := client.byNumber(clock, n);
      clock := clock + 1;
    }

    /** The newest stored blocks, newest first, `depth` at most. */
    method Recent() returns (recent: seq<Block>)
      requires Valid()
      ensures |recent| == if depth < |chain| then depth else |chain|
      ensures forall i :: 0 <= i < |recent| ==> recent[i] == chain[|chain| - 1 - i]
    {
      hide ChainRows, Linked, Trusted, ChainBlocks, AllTransform, Hashes, Identified, IsNewest;
      recent := [];
      BlockKeys(world, chain);
      assert chain[..|chain|] == chain;
      var left := blocks.Keys;
      while |recent| < depth && left != {}
        invariant |recent| <= |chain| && |recent| <= depth && left == Hashes(chain[..|chain| - |recent|])
        invariant forall i :: 0 <= i < |recent| ==> recent[i] == chain[|chain| - 1 - i]
        decreases left
      {
        NewestOf(world, chain, |chain| - |recent|, left);
        var h :| h in left && IsNewest(blocks, left, h);
        NewestIs(world, chain, |chain| - |recent|, h);
        WithoutNewest(world, chain, |chain| - |recent|);
        recent := recent + [blocks[h]];
        left := left - {h};
      }
      NoneLeft(chain, |chain| - |recent|);
    }

    method Commit(next: Checkpoint, added: seq<Row>)
      requires Valid() && Transforms(transform, next.block) && added == RowsFor(next.block, transform(next.block).value)
      requires world(next.block.hash) == next.block
      requires if chain == [] then next.block.number == startBlock else Follows(Last(chain), next.block)
      modifies this`blocks, this`rows, this`checkpoint, this`chain
      ensures Valid() && chain == old(chain) + [next.block] && checkpoint == Some(next)
    {
      hide ChainRows, Linked, Trusted, ChainBlocks, AllTransform, Identified, Follows, Transforms, RowsFor, PutRows;
      NoRowsPut(rows);
      assert added[..0] == [];
      Appended(transform, world, chain, next.block);
      for i := 0 to |added|
        invariant rows == PutRows(old(rows), added[..i])
        invariant blocks == old(blocks) && chain == old(chain)
      {
        MoreRowsPut(old(rows), added, i);
        rows := rows[(added[i].key, added[i].hash) := added[i]];
      }
      assert added[..|added|] == added;
      blocks := blocks[next.block.hash := next.block];
      checkpoint := Some(next);
      chain := chain + [next.block];
    }

    /** Takes back the blocks above the first n. */
    method Rollback(orphaned: seq<Block>, next: Option<Checkpoint>, ghost n: nat)
      requires Valid() && n <= |chain| && Hashes(orphaned) == Hashes(chain[n..])
      requires if n == 0 then next.None? else next.Some? && next.value.block == chain[n - 1]
      modifies this`blocks, this`rows, this`checkpoint, this`chain
      ensures Valid() && chain == old(chain)[..n] && checkpoint == next
    {
      hide ChainRows, Linked, Trusted, ChainBlocks, AllTransform, Identified, Hashes;
      RolledBack(transform, world, chain, n);
      NoHashes();
      NothingWithout(rows);
      assert orphaned[..0] == [];
      for i := 0 to |orphaned|
        invariant rows == WithoutRows(old(rows), Hashes(orphaned[..i]))
        invariant blocks == old(blocks) - Hashes(orphaned[..i])
        invariant chain == old(chain)
      {
        HashesMore(orphaned, i);
        WithoutBoth(old(rows), Hashes(orphaned[..i]), {orphaned[i].hash});
        assert old(blocks) - Hashes(orphaned[..i]) - {orphaned[i].hash} == old(blocks) - (Hashes(orphaned[..i]) + {orphaned[i].hash});
        rows := WithoutRows(rows, {orphaned[i].hash});
        blocks := blocks - {orphaned[i].hash};
      }
      assert orphaned[..|orphaned|] == orphaned;
      checkpoint := next;
      chain := chain[..n];
    }

    /** The first of the recent blocks that is still canonical: at index i, or none when i is past the end. */
    method FindAncestor(recent: seq<Block>, ghost canon: seq<Block>, ghost target: nat) returns (r: Result, i: nat)
      requires |recent| <= |chain| && forall k :: 0 <= k < |recent| ==> recent[k] == chain[|chain| - 1 - k]
      modifies this`clock
      ensures r == Done || r == Unavailable
      ensures Stable(client, canon, target) ==> r.Done?
      ensures r.Done? ==> i <= |recent|
      ensures r.Done? && Stable(client, canon, target) ==>
                NoneAbove(chain, canon, |chain| - i) && (i < |recent| ==> SameHash(canon, recent[i]))
      ensures r.Done? ==> forall anchor :: Fixed(client, anchor) ==> NotHeldAbove(chain, anchor, |chain| - i)
    {
      hide Stable, Fixed, SameHash, Anchors;
      i := 0;
      NoneAboveTop(chain, canon);
      while i < |recent|
        invariant i <= |recent|
        invariant Stable(client, canon, target) ==> NoneAbove(chain, canon, |chain| - i)
        invariant forall anchor :: Fixed(client, anchor) ==> NotHeldAbove(chain, anchor, |chain| - i)
      {
        ghost var t := clock;
        var canonical := Read(recent[i].number);
        StableRead(client, canon, target, chain, |chain| - 1 - i, t);
        if canonical.Broken? { return Unavailable, i; }
        FixedRead(client, chain, |chain| - 1 - i, t);
        if canonical.Found? && canonical.block.hash == recent[i].hash { return Done, i; }
        i := i + 1;
      }
      r := Done;
    }

    /** Whether the newest block needs no recovery; fails when the chain contradicts the finalized block. */
    method StillCanonical(force: bool, ghost canon: seq<Block>, ghost target: nat) returns (r: Result, kept: bool)
      requires Valid() && checkpoint.Some?
      modifies this`clock
      ensures r == Done || r == Unavailable || r == FinalizedConflict
      ensures r.Done? && kept && Stable(client, canon, target) ==> Common(chain, canon) == |chain|
      ensures Stable(client, canon, target) ==> (r.Done? <==> FinalizedHeld(checkpoint, canon))
    {
      hide ChainRows, Linked, Trusted, ChainBlocks, AllTransform, Identified, Stable, Common, SameHash;
      var current := checkpoint.value;
      if current.finalized.Some? {
        FinalizedRead(client, canon, target, current.finalized.value, clock);
        var finalized := Read(current.finalized.value.number);
        if !finalized.Found? { return Unavailable, false; }
        if finalized.block.hash != current.finalized.value.hash { return FinalizedConflict, false; }
      }
      if force { return Done, false; }
      ghost var t := clock;
      var top := Read(current.block.number);
      StableRead(client, canon, target, chain, |chain| - 1, t);
      if top.Broken? { return Unavailable, false; }
      TopCommon(chain, canon);
      r, kept := Done, top.Found? && top.block.hash == current.block.hash;
    }

    /** Takes back what is not canonical any more; fails when none of the recent blocks is and older ones exist. */
    method GoBack(ghost canon: seq<Block>, ghost target: nat) returns (r: Result)
      requires Valid() && checkpoint.Some?
      modifies this
      ensures Valid()
      ensures r == Done || r == Unavailable || r == ReorgTooDeep
      ensures !r.Done? ==> unchanged(`blocks) && unchanged(`rows) && unchanged(`checkpoint) && chain == old(chain)
      ensures r.Done? ==> chain <= old(chain) && KeepsAnchors(client, old(chain), chain)
      ensures FinalizedGiven(client, old(checkpoint), checkpoint)
      ensures Stable(client, canon, target) && r.Done? ==> |chain| == Common(old(chain), canon)
      ensures Stable(client, canon, target) ==> r == if TooDeep(old(chain), canon, depth) then ReorgTooDeep else Done
    {
      hide ChainRows, Linked, Trusted, ChainBlocks, AllTransform, Hashes, Identified, Stable, Fixed, Common, SameHash, KeepsAnchors,
        NoneAbove, NotHeldAbove;
      var current := checkpoint.value;
      var recent := Recent();
      var i;
      r, i := FindAncestor(recent, canon, target);
      if !r.Done? { return; }
      StartsAt(chain, startBlock);
      var canRestart := |recent| > 0 && recent[|recent| - 1].number == startBlock;
      if i == |recent| && !canRestart {
        if Stable(client, canon, target) { CommonAtMost(chain, canon, |chain| - i); }
        return ReorgTooDeep;
      }
      ghost var n := |chain| - i;
      AnchorKept(client, chain, n);
      if Stable(client, canon, target) { CommonIs(chain, canon, n); }
      OrphansAre(chain, recent[..i], n);
      var next := if i < |recent| then Some(Checkpoint(recent[i], current.finalized)) else None;
      Rollback(recent[..i], next, n);
    }

    /** Goes back to the newest stored block that is still canonical, or fails and leaves the store as it was. */
    method Recover(force: bool, ghost canon: seq<Block>, ghost target: nat) returns (r: Result)
      requires Valid()
      modifies this
      ensures Valid()
      ensures r == Done || r == Unavailable || r == ReorgTooDeep || r == FinalizedConflict
      ensures !r.Done? ==> unchanged(`blocks) && unchanged(`rows) && unchanged(`checkpoint) && chain == old(chain)
      ensures r.Done? ==> chain <= old(chain) && KeepsAnchors(client, old(chain), chain)
      ensures FinalizedGiven(client, old(checkpoint), checkpoint)
      ensures Stable(client, canon, target) && r.Done? ==> |chain| == Common(old(chain), canon)
      ensures Stable(client, canon, target) ==> (r.Done? <==> FinalizedHeld(old(checkpoint), canon) && !TooDeep(old(chain), canon, depth))
    {
      hide ChainRows, Linked, Trusted, ChainBlocks, AllTransform, Identified, Stable, Common, KeepsAnchors;
      NoCommon(canon);
      NothingTakenBack(client, chain);
      if checkpoint.None? { return Done; }
      var kept;
      r, kept := StillCanonical(force, canon, target);
      if !r.Done? || kept { return; }
      r := GoBack(canon, target);
    }

    /** Fetches and transforms the blocks of a window. */
    method Fetch(from: nat, count: nat, ghost canon: seq<Block>, ghost target: nat) returns (r: Result, window: seq<(Block, seq<Row>)>)
      requires Trusted(client, world)
      modifies this`clock
      ensures r == Done || r == Unavailable || r == TransformFailed || r == DuplicateRow
      ensures r.Done? ==> |window| == count && forall k :: 0 <= k < count ==> Fetched(from + k, window[k])
      ensures Stable(client, canon, target) && r.Done? ==> forall k :: 0 <= k < count ==> InCanon(canon, window[k].0)
      ensures Stable(client, canon, target) && AllTransform(transform, canon) && from + count <= |canon| ==> r.Done?
    {
      hide Trusted, Stable, Transforms, RowsFor, AllTransform;
      window := [];
      while |window| < count
        invariant |window| <= count && forall k :: 0 <= k < |window| ==> Fetched(from + k, window[k])
        invariant Stable(client, canon, target) ==> forall k :: 0 <= k < |window| ==> InCanon(canon, window[k].0)
      {
        ghost var t := clock;
        var reply := Read(from + |window|);
        StableFound(client, canon, target, t, from + |window|, transform);
        if !reply.Found? { return Unavailable, []; }
        FoundIs(client, world, canon, target, t, from + |window|);
        var rows;
        r, rows := TransformBlock(reply.block, transform);
        TransformIs(transform, reply.block);
        if !r.Done? { return r, []; }
        window := window + [(reply.block, rows)];
      }
      r := Done;
    }

    ghost predicate Fetched(n: nat, item: (Block, seq<Row>)) {
      && item.0.number == n && world(item.0.hash) == item.0
      && Transforms(transform, item.0) && item.1 == RowsFor(item.0, transform(item.0).value)
    }

    function NextNumber(): nat
      reads this
    {
      if checkpoint.None? then startBlock else checkpoint.value.block.number + 1
    }

    /**
     Commits a window block by block. When a block does not extend the checkpoint, recovers and leaves the rest of the
     window; the window is then taken from the new checkpoint.
     */
    method CommitWindow(window: seq<(Block, seq<Row>)>, ghost canon: seq<Block>, ghost target: nat) returns (r: Result)
      requires Valid() && forall k :: 0 <= k < |window| ==> Fetched(NextNumber() + k, window[k])
      requires Stable(client, canon, target) ==> forall k :: 0 <= k < |window| ==> InCanon(canon, window[k].0)
      modifies this
      ensures Valid() && !r.OutOfFuel?
      ensures KeepsAnchors(client, old(chain), chain)
      ensures FinalizedGiven(client, old(checkpoint), checkpoint)
      ensures Stable(client, canon, target) && Canonical(old(chain), canon, startBlock) && r.Done? ==>
                Canonical(chain, canon, startBlock) && |chain| == |old(chain)| + |window|
      ensures Stable(client, canon, target) && Canonical(old(chain), canon, startBlock) ==> r.Done?
    {
      hide ChainRows, Linked, Trusted, ChainBlocks, AllTransform, Identified, Stable, Common, KeepsAnchors, Canonical, InCanon, Transforms,
        RowsFor;
      NothingTakenBack(client, chain);
      for k := 0 to |window|
        invariant Valid() && NextNumber() == old(NextNumber()) + k
        invariant KeepsAnchors(client, old(chain), chain)
        invariant FinalizedGiven(client, old(checkpoint), checkpoint)
        invariant Stable(client, canon, target) && Canonical(old(chain), canon, startBlock) ==>
                    Canonical(chain, canon, startBlock) && |chain| == |old(chain)| + k
      {
        var (block, rows) := window[k];
        assert Fetched(old(NextNumber()) + k, window[k]);
        CanonicalNext(client, chain, canon, target, startBlock, block);
        if checkpoint.Some? && block.parentHash != checkpoint.value.block.hash {
          ghost var before := chain;
          r := Recover(true, canon, target);
          NothingTakenBack(client, before);
          AnchorsStay(client, old(chain), before, chain);
          return;
        }
        AnchorsAppended(client, old(chain), chain, block);
        var anchor := client.finalized(clock);
        clock := clock + 1;
        var finalized := if anchor.Some? && anchor.value.number <= block.number then anchor
                         else if checkpoint.Some? then checkpoint.value.finalized else None;
        Commit(Checkpoint(block, finalized), rows);
      }
      r := Done;
    }

    /** One window from the checkpoint on, of `concurrency` blocks or up to `to`. */
    method NextWindow(to: nat, ghost canon: seq<Block>, ghost target: nat) returns (r: Result)
      requires Valid() && NextNumber() <= to
      modifies this
      ensures Valid() && !r.OutOfFuel?
      ensures KeepsAnchors(client, old(chain), chain)
      ensures FinalizedGiven(client, old(checkpoint), checkpoint)
      ensures Stable(client, canon, target) && Canonical(old(chain), canon, startBlock) && r.Done? ==>
                Canonical(chain, canon, startBlock) && |old(chain)| < |chain| && |chain| + old(NextNumber()) <= |old(chain)| + to + 1
      ensures Stable(client, canon, target) && Canonical(old(chain), canon, startBlock) ==> !r.ReorgTooDeep? && !r.FinalizedConflict?
      ensures Stable(client, canon, target) && Canonical(old(chain), canon, startBlock) && AllTransform(transform, canon) && to < |canon| ==> r.Done?
    {
      hide ChainRows, Linked, Trusted, ChainBlocks, AllTransform, Identified, Stable, Common, KeepsAnchors, Canonical, InCanon;
      NothingTakenBack(client, chain);
      var number := NextNumber();
      var end := if number + (concurrency - 1) < to then number + (concurrency - 1) else to;
      var window;
      r, window := Fetch(number, end - number + 1, canon, target);
      if !r.Done? { return; }
      r := CommitWindow(window, canon, target);
    }

    /**
     Recover, then window by window up to the target. On a chain that no longer changes a successful sync leaves exactly
     the expected stretch of it, whatever forks the index held before and whatever the concurrency; and it succeeds
     exactly when the stored finalized block is on the chain and a recent block, or nothing older, is left to go on from.
     A finalized block that the index had never loses a block at or below it.
     */
    method Sync(fuel: nat, ghost canon: seq<Block>, ghost target: nat) returns (r: Result)
      requires Valid()
      modifies this
      ensures Valid()
      ensures KeepsAnchors(client, old(chain), chain)
      ensures FinalizedGiven(client, old(checkpoint), checkpoint)
      ensures Stable(client, canon, target) && Identified(world, canon) && r.Done? ==> chain == Expected(old(chain), canon, startBlock, target)
      ensures Stable(client, canon, target) && Identified(world, canon) && (r.ReorgTooDeep? || r.FinalizedConflict?) ==>
                unchanged(`blocks) && unchanged(`rows) && unchanged(`checkpoint) && chain == old(chain)
      ensures Stable(client, canon, target) && Identified(world, canon) && fuel > target + 1 ==> !r.OutOfFuel?
      ensures Stable(client, canon, target) && Identified(world, canon) && AllTransform(transform, canon) && fuel > target + 1 ==>
                (r.Done? <==> FinalizedHeld(old(checkpoint), canon) && !TooDeep(old(chain), canon, depth))
    {
      hide ChainRows, Linked, Trusted, ChainBlocks, AllTransform, Identified, Stable, Common, KeepsAnchors, Canonical, InCanon, Expected;
      NothingTakenBack(client, chain);
      r := Recover(false, canon, target);
      if !r.Done? { return; }
      ghost var common := |chain|;
      RecoveredCanonical(client, world, old(chain), chain, canon, target, startBlock);
      ghost var t := clock;
      var reply := client.target(clock);
      clock := clock + 1;
      TargetIs(client, canon, target, t);
      if !reply.Found? { return Unavailable; }
      var to := reply.block.number;
      var number := NextNumber();
      NumberIs(chain, startBlock);
      var left: nat := fuel;
      ghost var stable := Stable(client, canon, target) && Identified(world, canon);
      while number <= to
        invariant Valid() && number == NextNumber() == startBlock + |chain|
        invariant KeepsAnchors(client, old(chain), chain)
        invariant FinalizedGiven(client, old(checkpoint), checkpoint)
        invariant stable ==> to == target && Canonical(chain, canon, startBlock) && common == Common(old(chain), canon)
        invariant stable ==> |chain| == common || (|chain| > common && number <= target + 1)
        invariant stable && fuel > target + 1 ==> left + number > target + 1
        decreases left
      {
        if left == 0 { return OutOfFuel; }
        left := left - 1;
        ghost var before := chain;
        r := NextWindow(to, canon, target);
        AnchorsStay(client, old(chain), before, chain);
        if !r.Done? { return; }
        NumberIs(chain, startBlock);
        number := NextNumber();
      }
      if stable { ExpectedIs(old(chain), chain, canon, startBlock, target); }
      r := Done;
    }
  }

  lemma RecoveredCanonical(client: Client, world: Hash -> Block, before: seq<Block>, chain: seq<Block>, canon: seq<Block>, target: nat, start: nat)
    requires Linked(before) && Identified(world, before) && (before != [] ==> before[0].number == start) && chain <= before
    requires Stable(client, canon, target) ==> |chain| == Common(before, canon)
    ensures Stable(client, canon, target) && Identified(world, canon) ==> Canonical(chain, canon, start)
  {
    if Stable(client, canon, target) && Identified(world, canon) && chain != [] {
      CommonIsCanonical(before, canon);
      assert chain == before[..|chain|];
      CanonicalBelow(world, before, canon, |chain|);
    }
  }

  lemma {:induction false} CommonIsCanonical(chain: seq<Block>, canon: seq<Block>)
    ensures Common(chain, canon) <= |chain|
    ensures Common(chain, canon) > 0 ==> SameHash(canon, chain[Common(chain, canon) - 1])
  {
    if chain != [] {
      CommonIsCanonical(chain[..|chain| - 1], canon);
    }
  }

  lemma TargetIs(client: Client, canon: seq<Block>, target: nat, t: nat)
    ensures Stable(client, canon, target) ==> client.target(t).Found? && client.target(t).block.number == target < |canon|
  {
    if Stable(client, canon, target) {
      assert TargetAt(client, canon, target, t);
      LinkedNumbers(canon, target);
    }
  }

  lemma NumberIs(chain: seq<Block>, start: nat)
    requires Linked(chain) && (chain != [] ==> chain[0].number == start)
    ensures chain != [] ==> Last(chain).number + 1 == start + |chain|
  {
    if chain != [] {
      LinkedNumbers(chain, |chain| - 1);
    }
  }

  lemma ExpectedIs(before: seq<Block>, chain: seq<Block>, canon: seq<Block>, start: nat, target: nat)
    requires Canonical(chain, canon, start) && start + |chain| > target && target < |canon|
    requires |chain| == Common(before, canon) || (|chain| > Common(before, canon) && start + |chain| <= target + 1)
    ensures chain == Expected(before, canon, start, target)
  {
    hide Common;
  }

  lemma ResumedStretch(chain: seq<Block>, canon: seq<Block>, start: nat, target: nat)
    requires target < |canon| && (Common(chain, canon) > 0 ==> start + Common(chain, canon) <= |canon|)
    ensures Expected(chain, canon, start, target) == Expected([], canon, start, target)
            <==> Common(chain, canon) == 0 || start + Common(chain, canon) <= target + 1
  {
    hide Common;
    NoCommon(canon);
    var resumed, anew := Expected(chain, canon, start, target), Expected([], canon, start, target);
    if Common(chain, canon) > 0 && start + Common(chain, canon) > target + 1 {
      assert |resumed| == Common(chain, canon);
      assert |anew| < |resumed|;
    }
  }

  /**
   After a sync, a resumed index and a fresh one hold the same blocks, unless the resumed one already had canonical
   blocks above the target; and then the same rows and the same newest block.
   */
  lemma ResumeIsFresh(resumed: Index, anew: Index, before: seq<Block>, canon: seq<Block>, target: nat)
    requires resumed.Valid() && anew.Valid() && resumed.transform == anew.transform && resumed.startBlock == anew.startBlock
    requires Linked(canon) && Identified(resumed.world, canon) && target < |canon|
    requires Common(before, canon) > 0 ==> resumed.startBlock + Common(before, canon) <= |canon|
    requires resumed.chain == Expected(before, canon, resumed.startBlock, target)
    requires anew.chain == Expected([], canon, anew.startBlock, target)
    ensures resumed.blocks == anew.blocks <==> Common(before, canon) == 0 || resumed.startBlock + Common(before, canon) <= target + 1
    ensures resumed.blocks == anew.blocks ==> resumed.rows == anew.rows
    ensures resumed.blocks == anew.blocks ==> resumed.checkpoint.None? == anew.checkpoint.None?
    ensures resumed.blocks == anew.blocks && anew.checkpoint.Some? ==> resumed.checkpoint.value.block == anew.checkpoint.value.block
  {
    hide Common, Trusted, Linked, ChainRows, ChainBlocks;
    ResumedStretch(before, canon, resumed.startBlock, target);
    NoCommon(canon);
    if resumed.chain != anew.chain {
      assert anew.chain == resumed.chain[..|anew.chain|] && |anew.chain| < |resumed.chain|;
      LongerDiffers(resumed.world, resumed.chain, |anew.chain|);
    }
  }

  /**
   One sync of an index that may hold blocks of any fork, and one of an index that starts empty: on a chain that no longer
   changes they leave the same blocks, rows and newest block, unless the first held canonical blocks above the target.
   */
  method SyncBoth(resumed: Index, depth: nat, concurrency: nat, fuel: nat, ghost canon: seq<Block>, ghost target: nat)
      returns (anew: Index, first: Result, second: Result)
    requires resumed.Valid() && depth >= 1 && concurrency >= 1
    modifies resumed
    ensures fresh(anew) && resumed.Valid() && anew.Valid()
    ensures Stable(resumed.client, canon, target) && Identified(resumed.world, canon) && first.Done? && second.Done? ==>
              (resumed.blocks == anew.blocks <==>
                 Common(old(resumed.chain), canon) == 0 || resumed.startBlock + Common(old(resumed.chain), canon) <= target + 1)
              && (resumed.blocks == anew.blocks ==> resumed.rows == anew.rows && resumed.checkpoint.None? == anew.checkpoint.None?)
              && (resumed.blocks == anew.blocks && anew.checkpoint.Some? ==> resumed.checkpoint.value.block == anew.checkpoint.value.block)
    ensures Stable(resumed.client, canon, target) && Identified(resumed.world, canon) && AllTransform(resumed.transform, canon) && fuel > target + 1 ==>
              second.Done? && (first.Done? <==> FinalizedHeld(old(resumed.checkpoint), canon) && !TooDeep(old(resumed.chain), canon, resumed.depth))
  {
    hide ChainRows, Linked, Trusted, ChainBlocks, AllTransform, Identified, Stable, Common, KeepsAnchors, Expected, SameHash;
    ghost var before := resumed.chain;
    CommonFitsCanon(resumed.client, resumed.world, before, canon, target, resumed.startBlock);
    NoCommon(canon);
    anew := new Index(resumed.client, resumed.transform, resumed.startBlock, depth, concurrency, resumed.world);
    first := resumed.Sync(fuel, canon, target);
    second := anew.Sync(fuel, canon, target);
    if Stable(resumed.client, canon, target) && Identified(resumed.world, canon) && first.Done? && second.Done? {
      StableParts(resumed.client, canon, target);
      ResumeIsFresh(resumed, anew, before, canon, target);
    }
  }

  lemma StableParts(client: Client, canon: seq<Block>, target: nat)
    requires Stable(client, canon, target)
    ensures Linked(canon) && target < |canon| && canon[0].number == 0
  {
  }

  /** What an index has in common with the chain fits into it. */
  lemma CommonFitsCanon(client: Client, world: Hash -> Block, chain: seq<Block>, canon: seq<Block>, target: nat, start: nat)
    requires Linked(chain) && Identified(world, chain) && (chain != [] ==> chain[0].number == start)
    ensures Stable(client, canon, target) && Identified(world, canon) && Common(chain, canon) > 0 ==> start + Common(chain, canon) <= |canon|
  {
    if Stable(client, canon, target) && Identified(world, canon) && Common(chain, canon) > 0 {
      CommonIsCanonical(chain, canon);
      CanonicalBelow(world, chain, canon, Common(chain, canon));
    }
  }

  function TwoBlocks(): (blocks: seq<Block>)
    ensures |blocks| == 2
  {
    [Block(0, 10, 9, 0, []), Block(1, 11, 10, 0, [])]
  }

  function TwoWorld(h: Hash): Block { if h == 11 then TwoBlocks()[1] else TwoBlocks()[0] }

  function NoRows(block: Block): Option<seq<(string, int)>> { Some([]) }

  /** A client of the two blocks that asks for syncs to the given height and knows no finalized block. */
  function TwoClient(top: nat): Client
    requires top < 2
  {
    Client((t: nat, n: nat) => if n < 2 then Found(TwoBlocks()[n]) else Missing, (t: nat) => Found(TwoBlocks()[top]), (t: nat) => None)
  }

  lemma TwoBlocksStable(top: nat)
    requires top < 2
    ensures Stable(TwoClient(top), TwoBlocks(), top) && Trusted(TwoClient(top), TwoWorld)
    ensures Identified(TwoWorld, TwoBlocks()) && AllTransform(NoRows, TwoBlocks())
  {
    assert LinkedAt(TwoBlocks(), 1);
    forall t, n ensures TrustedAt(TwoClient(top), TwoWorld, t, n) && StableAt(TwoClient(top), TwoBlocks(), t, n) {
    }
  }

  lemma TwoExpected()
    ensures Common([], TwoBlocks()) == 0 && Common(TwoBlocks(), TwoBlocks()) == 2
    ensures Expected([], TwoBlocks(), 0, 1) == TwoBlocks() && Expected(TwoBlocks(), TwoBlocks(), 0, 0) == TwoBlocks()
    ensures Expected([], TwoBlocks(), 0, 0) == [TwoBlocks()[0]]
  {
    NoCommon(TwoBlocks());
    TopCommon(TwoBlocks(), TwoBlocks());
  }

  /** An index synced to height 1, opened again and synced to height 0: it keeps block 1, which a fresh index has not. */
  method SyncDown() returns (resumed: Index, anew: Index)
    ensures fresh(resumed) && fresh(anew) && resumed.Valid() && anew.Valid()
    ensures resumed.chain == TwoBlocks() && anew.chain == [TwoBlocks()[0]]
  {
    hide ChainRows, Linked, Trusted, ChainBlocks, AllTransform, Identified, Stable, Common, KeepsAnchors, Expected, TwoBlocks, TwoClient;
    TwoBlocksStable(0);
    TwoBlocksStable(1);
    TwoExpected();
    var first := new Index(TwoClient(1), NoRows, 0, 1, 1, TwoWorld);
    var r := first.Sync(3, TwoBlocks(), 1);
    NothingFinalized(1, None, first.checkpoint);
    resumed := new Index.Open(first.blocks, first.rows, first.checkpoint, TwoClient(0), NoRows, 0, 1, 1, TwoWorld, first.chain);
    r := resumed.Sync(2, TwoBlocks(), 0);
    anew := new Index(TwoClient(0), NoRows, 0, 1, 1, TwoWorld);
    r := anew.Sync(2, TwoBlocks(), 0);
  }

  lemma NothingFinalized(top: nat, before: Option<Checkpoint>, after: Option<Checkpoint>)
    requires top < 2 && FinalizedOf(before) == None && FinalizedGiven(TwoClient(top), before, after)
    ensures FinalizedOf(after) == None
  {
  }

  lemma LongerDiffers(world: Hash -> Block, chain: seq<Block>, n: nat)
    requires Linked(chain) && Identified(world, chain) && n < |chain|
    ensures ChainBlocks(chain[..n]) != ChainBlocks(chain)
  {
    hide ChainBlocks, Linked;
    HashesDiffer(world, chain);
    IdentifiedFront(world, chain, n);
    BlocksMembers(world, chain);
    BlocksMembers(world, chain[..n]);
    var h := chain[|chain| - 1].hash;
    assert h in Hashes(chain) && h !in Hashes(chain[..n]);
  }

  ghost predicate InCanon(canon: seq<Block>, block: Block) {
    block.number < |canon| && canon[block.number] == block
  }

  lemma FoundIs(client: Client, world: Hash -> Block, canon: seq<Block>, target: nat, t: nat, n: nat)
    requires Trusted(client, world) && client.byNumber(t, n).Found?
    ensures client.byNumber(t, n).block.number == n && world(client.byNumber(t, n).block.hash) == client.byNumber(t, n).block
    ensures Stable(client, canon, target) ==> InCanon(canon, client.byNumber(t, n).block)
  {
    assert TrustedAt(client, world, t, n);
    if Stable(client, canon, target) {
      assert StableAt(client, canon, t, n);
    }
  }

  lemma TransformIs(transform: Transform, block: Block)
    ensures Transforms(transform, block) <==> transform(block).Some? && DistinctKeys(transform(block).value)
  {
  }

  /** On a canonical index the next canonical block extends the checkpoint. */
  lemma CanonicalNext(client: Client, chain: seq<Block>, canon: seq<Block>, target: nat, start: nat, block: Block)
    requires block.number == if chain == [] then start else Last(chain).number + 1
    ensures Stable(client, canon, target) && Canonical(chain, canon, start) && InCanon(canon, block) ==>
              && (chain != [] ==> Follows(Last(chain), block)) && Canonical(chain + [block], canon, start)
  {
    if Stable(client, canon, target) && Canonical(chain, canon, start) && InCanon(canon, block) {
      AllLinkedNumbers(canon);
      if chain == [] {
        assert canon[start..start + 1] == [block];
      } else {
        var top := start + |chain| - 1;
        assert Last(chain) == canon[top];
        assert LinkedAt(canon, top + 1);
        assert canon[start..top + 2] == canon[start..top + 1] + [canon[top + 1]];
      }
    }
  }

  lemma StableRead(client: Client, canon: seq<Block>, target: nat, chain: seq<Block>, k: nat, t: nat)
    requires k < |chain|
    ensures Stable(client, canon, target) ==>
              var reply := client.byNumber(t, chain[k].number);
              !reply.Broken? && (reply.Found? && reply.block.hash == chain[k].hash <==> SameHash(canon, chain[k]))
  {
    if Stable(client, canon, target) {
      assert StableAt(client, canon, t, chain[k].number);
    }
  }

  lemma FinalizedRead(client: Client, canon: seq<Block>, target: nat, anchor: Anchor, t: nat)
    ensures Stable(client, canon, target) ==>
              var reply := client.byNumber(t, anchor.number);
              (reply.Found? && reply.block.hash == anchor.hash <==> anchor.number < |canon| && canon[anchor.number].hash == anchor.hash)
  {
    if Stable(client, canon, target) {
      assert StableAt(client, canon, t, anchor.number);
    }
  }

  /** A block below the head is found, and transforms if all blocks do. */
  lemma StableFound(client: Client, canon: seq<Block>, target: nat, t: nat, n: nat, transform: Transform)
    ensures Stable(client, canon, target) && n < |canon| ==> client.byNumber(t, n) == Found(canon[n])
    ensures AllTransform(transform, canon) && n < |canon| ==> Transforms(transform, canon[n])
  {
    if Stable(client, canon, target) {
      assert StableAt(client, canon, t, n);
    }
  }

  lemma FixedRead(client: Client, chain: seq<Block>, k: nat, t: nat)
    requires k < |chain|
    ensures forall anchor :: Fixed(client, anchor) && Anchors(chain[k], anchor) ==>
              client.byNumber(t, chain[k].number).Found? && client.byNumber(t, chain[k].number).block.hash == chain[k].hash
  {
    forall anchor | Fixed(client, anchor) && Anchors(chain[k], anchor)
      ensures client.byNumber(t, chain[k].number).Found? && client.byNumber(t, chain[k].number).block.hash == chain[k].hash
    {
      assert FixedAt(client, anchor, t);
    }
  }

  lemma NoneAboveTop(chain: seq<Block>, canon: seq<Block>)
    ensures NoneAbove(chain, canon, |chain|) && forall anchor :: NotHeldAbove(chain, anchor, |chain|)
  {
  }

  lemma NothingTakenBack(client: Client, chain: seq<Block>)
    ensures KeepsAnchors(client, chain, chain)
  {
  }

  lemma AnchorsStay(client: Client, first: seq<Block>, before: seq<Block>, after: seq<Block>)
    requires KeepsAnchors(client, first, before)
    requires KeepsAnchors(client, before, after)
    ensures KeepsAnchors(client, first, after)
  {
    hide Fixed, Holds;
    forall anchor ensures KeepsAnchor(client, anchor, first, after) {
      assert KeepsAnchor(client, anchor, first, before) && KeepsAnchor(client, anchor, before, after);
    }
  }

  lemma AnchorsAppended(client: Client, first: seq<Block>, before: seq<Block>, block: Block)
    requires KeepsAnchors(client, first, before)
    ensures KeepsAnchors(client, first, before + [block])
  {
    hide Fixed;
    forall anchor ensures KeepsAnchor(client, anchor, first, before + [block]) {
      assert KeepsAnchor(client, anchor, first, before);
      if Holds(before, anchor) {
        var i :| 0 <= i < |before| && Anchors(before[i], anchor);
        assert (before + [block])[i] == before[i];
      }
    }
  }

  lemma AnchorKept(client: Client, chain: seq<Block>, n: nat)
    requires n <= |chain| && forall anchor :: Fixed(client, anchor) ==> NotHeldAbove(chain, anchor, n)
    ensures KeepsAnchors(client, chain, chain[..n])
  {
    hide Fixed;
    forall anchor | Fixed(client, anchor) && Holds(chain, anchor) ensures Holds(chain[..n], anchor) {
      var i :| 0 <= i < |chain| && Anchors(chain[i], anchor);
      assert chain[..n][i] == chain[i];
    }
  }

  lemma NoCommon(canon: seq<Block>)
    ensures Common([], canon) == 0
  {
  }

  lemma TopCommon(chain: seq<Block>, canon: seq<Block>)
    ensures chain != [] && SameHash(canon, Last(chain)) ==> Common(chain, canon) == |chain|
  {
  }

  lemma {:induction false} CommonAtMost(chain: seq<Block>, canon: seq<Block>, n: nat)
    requires n <= |chain| && NoneAbove(chain, canon, n)
    ensures Common(chain, canon) <= n
    decreases |chain|
  {
    if n < |chain| {
      var front := chain[..|chain| - 1];
      assert forall k :: 0 <= k < |front| ==> front[k] == chain[k];
      assert !SameHash(canon, chain[|chain| - 1]);
      CommonAtMost(front, canon, n);
    } else {
      CommonFits(chain, canon);
    }
  }

  lemma {:induction false} CommonFits(chain: seq<Block>, canon: seq<Block>)
    ensures Common(chain, canon) <= |chain|
  {
    if chain != [] {
      CommonFits(chain[..|chain| - 1], canon);
    }
  }

  lemma CommonIs(chain: seq<Block>, canon: seq<Block>, n: nat)
    requires n <= |chain| && NoneAbove(chain, canon, n) && (n > 0 ==> SameHash(canon, chain[n - 1]))
    ensures Common(chain, canon) == n
  {
    CommonBounds(chain, canon, n);
  }

  /** Only the first block of an index has the start block's number. */
  lemma StartsAt(chain: seq<Block>, startBlock: nat)
    requires Linked(chain) && (chain != [] ==> chain[0].number == startBlock)
    ensures forall k :: 0 <= k < |chain| ==> (chain[k].number == startBlock <==> k == 0)
  {
    AllLinkedNumbers(chain);
  }

  lemma OrphansAre(chain: seq<Block>, orphaned: seq<Block>, n: nat)
    requires n <= |chain| && |orphaned| == |chain| - n && forall i :: 0 <= i < |orphaned| ==> orphaned[i] == chain[|chain| - 1 - i]
    ensures Hashes(orphaned) == Hashes(chain[n..])
  {
    var tail := chain[n..];
    forall h ensures h in Hashes(orphaned) <==> h in Hashes(tail) {
      if h in Hashes(orphaned) {
        var i :| 0 <= i < |orphaned| && orphaned[i].hash == h;
        assert tail[|tail| - 1 - i].hash == h;
      }
      if h in Hashes(tail) {
        var i :| 0 <= i < |tail| && tail[i].hash == h;
        assert orphaned[|tail| - 1 - i].hash == h;
      }
    }
  }

  lemma NewestOf(world: Hash -> Block, chain: seq<Block>, m: nat, left: set<Hash>)
    requires m <= |chain| && Linked(chain) && Identified(world, chain) && left == Hashes(chain[..m]) && left != {}
    ensures exists h :: h in left && IsNewest(ChainBlocks(chain), left, h)
  {
    hide ChainBlocks;
    BlocksMembers(world, chain);
    AllLinkedNumbers(chain);
    var x :| x in left;
    var h := chain[m - 1].hash;
    assert chain[..m][m - 1].hash == h;
    forall k | k in left ensures k in ChainBlocks(chain) && ChainBlocks(chain)[k].number <= ChainBlocks(chain)[h].number {
      var i :| 0 <= i < m && chain[..m][i].hash == k;
      assert chain[i].hash == k && chain[m - 1].hash == h;
    }
    assert IsNewest(ChainBlocks(chain), left, h);
  }

  lemma BlockKeys(world: Hash -> Block, chain: seq<Block>)
    requires Identified(world, chain)
    ensures ChainBlocks(chain).Keys == Hashes(chain)
  {
    hide ChainBlocks, Hashes;
    BlocksMembers(world, chain);
    var m := ChainBlocks(chain);
    assert forall h :: h in m.Keys <==> h in m;
    assert forall h :: h in m <==> h in Hashes(chain);
    assert m.Keys == Hashes(chain);
  }

  lemma NoneLeft(chain: seq<Block>, m: nat)
    requires m <= |chain|
    ensures Hashes(chain[..m]) == {} ==> m == 0
  {
    if m > 0 {
      assert chain[..m][0].hash in Hashes(chain[..m]);
    }
  }

  lemma NewestIs(world: Hash -> Block, chain: seq<Block>, m: nat, h: Hash)
    requires m <= |chain| && Linked(chain) && Identified(world, chain) && h in Hashes(chain[..m])
    requires IsNewest(ChainBlocks(chain), Hashes(chain[..m]), h)
    ensures m > 0 && h in ChainBlocks(chain) && ChainBlocks(chain)[h] == chain[m - 1] && h == chain[m - 1].hash
  {
    hide ChainBlocks, Linked;
    BlocksMembers(world, chain);
    AllLinkedNumbers(chain);
    var i :| 0 <= i < m && chain[..m][i].hash == h;
    assert chain[..m][m - 1].hash in Hashes(chain[..m]);
    assert chain[i].hash == h;
  }

  lemma WithoutNewest(world: Hash -> Block, chain: seq<Block>, m: nat)
    requires 0 < m <= |chain| && Linked(chain) && Identified(world, chain)
    ensures Hashes(chain[..m]) - {chain[m - 1].hash} == Hashes(chain[..m - 1])
  {
    HashesDiffer(world, chain);
    hide Hashes, Linked;
    HashesMore(chain[..m], m - 1);
    assert chain[..m][..m] == chain[..m] && chain[..m][..m - 1] == chain[..m - 1];
    NotAmong(chain, m - 1);
  }

  lemma NotAmong(chain: seq<Block>, m: nat)
    requires m < |chain| && forall i, j :: 0 <= i < j < |chain| ==> chain[i].hash != chain[j].hash
    ensures chain[m].hash !in Hashes(chain[..m])
  {
  }

  lemma Appended(transform: Transform, world: Hash -> Block, chain: seq<Block>, block: Block)
    requires Linked(chain) && Identified(world, chain) && AllTransform(transform, chain) && Transforms(transform, block)
    requires world(block.hash) == block && (chain != [] ==> Follows(Last(chain), block))
    ensures var next := chain + [block];
            && Linked(next) && Identified(world, next) && AllTransform(transform, next)
            && ChainBlocks(next) == ChainBlocks(chain)[block.hash := block]
            && ChainRows(transform, next) == PutRows(ChainRows(transform, chain), RowsFor(block, transform(block).value))
  {
    AppendLinked(chain, [block]);
    var next := chain + [block];
    assert next[..|next| - 1] == chain;
  }

  lemma RolledBack(transform: Transform, world: Hash -> Block, chain: seq<Block>, n: nat)
    requires n <= |chain| && Linked(chain) && Identified(world, chain) && AllTransform(transform, chain)
    ensures Linked(chain[..n]) && Identified(world, chain[..n]) && AllTransform(transform, chain[..n])
    ensures ChainBlocks(chain) - Hashes(chain[n..]) == ChainBlocks(chain[..n])
    ensures WithoutRows(ChainRows(transform, chain), Hashes(chain[n..])) == ChainRows(transform, chain[..n])
  {
    hide ChainBlocks, ChainRows, Hashes, WithoutRows;
    SliceLinked(chain, 0, n);
    BlocksCut(world, chain, n);
    RowsCut(transform, world, chain, n);
  }

  lemma NoRowsPut(rows: map<RowKey, Row>)
    ensures PutRows(rows, []) == rows
  {
  }

  lemma MoreRowsPut(rows: map<RowKey, Row>, added: seq<Row>, i: nat)
    requires i < |added|
    ensures PutRows(rows, added[..i + 1]) == PutRows(rows, added[..i])[(added[i].key, added[i].hash) := added[i]]
  {
    assert added[..i + 1][..i] == added[..i];
  }

  lemma NoHashes()
    ensures Hashes([]) == {}
  {
  }

  lemma NothingWithout(rows: map<RowKey, Row>)
    ensures WithoutRows(rows, {}) == rows
  {
  }

  lemma HashesMore(orphaned: seq<Block>, i: nat)
    requires i < |orphaned|
    ensures Hashes(orphaned[..i + 1]) == Hashes(orphaned[..i]) + {orphaned[i].hash}
  {
    var more := orphaned[..i + 1];
    forall h ensures h in Hashes(more) <==> h in Hashes(orphaned[..i]) + {orphaned[i].hash} {
      if h in Hashes(orphaned[..i]) {
        var j :| 0 <= j < i && orphaned[..i][j].hash == h;
        assert more[j].hash == h;
      }
      if h == orphaned[i].hash { assert more[i].hash == h; }
    }
  }
}
