/**
 The raw log feed: blocks published one by one, gaps filled from the provider, and a recursive rollback when a block
 does not extend the last one. Replaying what it publishes always gives a hash-linked chain.
 */
module RawFeed {
  import opened Blocks
  import opened OrderedMap
  import opened LiveChain
  import opened LiveChainRuns
  import opened ChainConsumers

  datatype RawUpdate = Published(block: Block) | Withdrawn(from: nat)

  datatype Result = Ok | SourceFailed | ChainFailed | OutOfFuel

  const GROUP: nat := 32

  function After(chain: seq<Block>, update: RawUpdate): seq<Block> {
    match update
    case Published(block) => chain + [block]
    case Withdrawn(from) => Pop(chain, from)
  }

  /** What a subscriber that replays the updates has: a withdrawal drops every block at or above its height. */
  function Replayed(chain: seq<Block>, updates: seq<RawUpdate>): seq<Block> {
    if updates == [] then chain else After(Replayed(chain, updates[..|updates| - 1]), Last(updates))
  }

  lemma ReplayedMore(chain: seq<Block>, updates: seq<RawUpdate>, update: RawUpdate)
    ensures Replayed(chain, updates + [update]) == After(Replayed(chain, updates), update)
  {
    assert (updates + [update])[..|updates|] == updates;
  }

  /** After each of the updates the replayed chain is linked. */
  ghost predicate AlwaysLinked(chain: seq<Block>, updates: seq<RawUpdate>) {
    forall k :: 0 <= k <= |updates| ==> LinkedAfter(chain, updates, k)
  }

  ghost predicate LinkedAfter(chain: seq<Block>, updates: seq<RawUpdate>, k: nat)
    requires k <= |updates|
  {
    Linked(Replayed(chain, updates[..k]))
  }

  lemma AlwaysLinkedMore(chain: seq<Block>, updates: seq<RawUpdate>, update: RawUpdate)
    requires AlwaysLinked(chain, updates) && Linked(Replayed(chain, updates + [update]))
    ensures AlwaysLinked(chain, updates + [update])
  {
    hide Linked, Replayed;
    var all := updates + [update];
    forall k | 0 <= k <= |all| ensures LinkedAfter(chain, all, k) {
      if k <= |updates| {
        assert all[..k] == updates[..k];
        assert LinkedAfter(chain, updates, k);
      } else {
        assert all[..k] == all;
      }
    }
  }

  function Lookup(m: Entries<nat, Block>, n: int): Option<Block> {
    if m == [] then None else if m[0].0 == n then Some(m[0].1) else Lookup(m[1..], n)
  }

  lemma {:induction false} LookupMember(m: Entries<nat, Block>, n: int)
    ensures Lookup(m, n).Some? ==> exists i :: 0 <= i < |m| && m[i].0 == n && m[i].1 == Lookup(m, n).value
  {
    if m != [] && m[0].0 != n {
      LookupMember(m[1..], n);
      if Lookup(m[1..], n).Some? {
        var i :| 0 <= i < |m[1..]| && m[1..][i].0 == n && m[1..][i].1 == Lookup(m[1..], n).value;
        assert m[i + 1] == m[1..][i];
      }
    }
  }

  /** The block is one of the chain's newest `depth`. */
  ghost predicate Newest(chain: seq<Block>, depth: nat, i: nat, block: Block) {
    i < |chain| <= i + depth && chain[i] == block
  }

  /** A retained block at a height is the replayed block at that height. */
  lemma Retained(chain: seq<Block>, depth: nat, n: int)
    requires depth <= |chain|
    ensures Lookup(Held(Suffix(chain, depth)), n).Some? ==>
              exists i: nat :: Newest(chain, depth, i, Lookup(Held(Suffix(chain, depth)), n).value) && chain[i].number == n
  {
    hide Lookup;
    var held := Held(Suffix(chain, depth));
    LookupMember(held, n);
    if Lookup(held, n).Some? {
      var i :| 0 <= i < |held| && held[i].0 == n && held[i].1 == Lookup(held, n).value;
      assert Newest(chain, depth, |chain| - depth + i, Lookup(held, n).value);
    }
  }

  /** The provider: what a read of a height gives at the k-th read; None when the read fails. */
  type Provider = (nat, nat) -> Option<Block>

  /** A block is returned only for its own height. */
  ghost predicate Numbered(provider: Provider) {
    forall t, n :: NumberedAt(provider, t, n)
  }

  ghost predicate NumberedAt(provider: Provider, t: nat, n: nat) {
    provider(t, n).Some? ==> provider(t, n).value.number == n
  }

  /** A canonical chain that no longer changes. */
  ghost predicate Stable(provider: Provider, chain: seq<Block>) {
    && Linked(chain) && (chain != [] ==> chain[0].number == 0)
    && forall t, n :: StableAt(provider, chain, t, n)
  }

  ghost predicate StableAt(provider: Provider, chain: seq<Block>, t: nat, n: nat) {
    provider(t, n) == if n < |chain| then Some(chain[n]) else None
  }

  ghost predicate InCanon(canon: seq<Block>, block: Block) {
    block.number < |canon| && canon[block.number] == block
  }

  ghost predicate OnCanon(chain: seq<Block>, block: Block) {
    block.number < |chain| && chain[block.number].hash == block.hash
  }

  /** The rollbacks a block can need on a stable chain. */
  ghost function Needed(chain: seq<Block>, applied: Block, block: Block): nat {
    if OnCanon(chain, applied) then
      if block.number == applied.number + 1 && block.number < |chain| && block == chain[block.number] then 1 else 2
    else if block.number <= applied.number + 1 then 3 else 4
  }

  class Feed {
    var applied: Block
    var recent: Entries<nat, Block>
    var clock: nat
    const provider: Provider
    ghost const start: seq<Block>
    ghost var updates: seq<RawUpdate>
    ghost var depth: nat

    ghost function Chain(): seq<Block>
      reads this
    {
      Replayed(start, updates)
    }

    /** Whatever part of the updates is replayed, the chain is linked; it ends in the applied block,
        and its newest blocks are the retained ones. */
    ghost predicate Valid()
      reads this
    {
      var chain := Chain();
      && Numbered(provider) && AlwaysLinked(start, updates) && Linked(chain) && (chain != [] ==> Last(chain) == applied)
      && depth <= WINDOW && depth <= |chain| && recent == Held(Suffix(chain, depth))
    }

    /** The feed starts from the newest block at startup. */
    constructor (head: Block, provider: Provider)
      requires Numbered(provider)
      ensures Valid() && Chain() == [head] && applied == head && updates == []
      ensures this.provider == provider
    {
      applied, recent, clock, this.provider := head, [(head.number, head)], 0, provider;
      start, updates, depth := [head], [], 1;
      new;
      hide *;
      Starts(head);
    }

    method Read(n: nat) returns (block: Option<Block>)
      requires Numbered(provider)
      modifies this`clock
      ensures block == provider(old(clock), n)
    {
      block := provider(clock, n);
      clock := clock + 1;
    }

    method Publish(block: Block)
      requires Valid() && Follows(applied, block)
      modifies this`applied, this`recent, this`updates, this`depth
      ensures Valid() && applied == block && updates == old(updates) + [Published(block)]
    {
      hide Linked, Put, Replayed, Held, Suffix, Follows, Numbered, AlwaysLinked;
      AppliedWindow(Chain(), depth, block);
      ReplayedMore(start, updates, Published(block));
      AlwaysLinkedMore(start, updates, Published(block));
      applied := block;
      recent := Put(recent, block.number, block);
      ghost var full := recent;
      while |recent| > WINDOW
        invariant Evict(recent, WINDOW) == Evict(full, WINDOW)
        invariant applied == block && unchanged(`updates) && unchanged(`depth)
      {
        recent := recent[1..];
      }
      updates, depth := updates + [Published(block)], Min(depth + 1, WINDOW);
    }

    /** Takes back every block above a retained one. */
    method Withdraw(ancestor: Block)
      requires Valid() && Lookup(recent, ancestor.number) == Some(ancestor)
      modifies this`applied, this`recent, this`updates, this`depth
      ensures Valid() && applied == ancestor && updates == old(updates) + [Withdrawn(ancestor.number + 1)]
    {
      hide Linked, DropFrom, Replayed, Held, Suffix, Numbered, Lookup, AlwaysLinked;
      Retained(Chain(), depth, ancestor.number);
      ghost var at: nat :| Newest(Chain(), depth, at, ancestor);
      WithdrawnTo(Chain(), depth, at);
      ReplayedMore(start, updates, Withdrawn(ancestor.number + 1));
      AlwaysLinkedMore(start, updates, Withdrawn(ancestor.number + 1));
      recent := DropFrom(recent, ancestor.number + 1);
      applied := ancestor;
      updates, depth := updates + [Withdrawn(ancestor.number + 1)], depth - (|Chain()| - (at + 1));
    }

    /**
     A rollback reported by the live chain. The feed takes its word: it stays replayable exactly when the ancestor lies
     below everything replayed, or is the replayed block of its height.
     */
    method Rollback(ancestor: Block)
      requires Valid()
      modifies this`applied, this`recent, this`updates, this`depth
      ensures applied == ancestor && recent == DropFrom(old(recent), ancestor.number + 1)
      ensures updates == old(updates) + [Withdrawn(ancestor.number + 1)]
      ensures Valid() <==> Rejoins(old(Chain()), ancestor)
    {
      hide Linked, DropFrom, Replayed, Held, Suffix, Numbered, AlwaysLinked;
      ReplayedMore(start, updates, Withdrawn(ancestor.number + 1));
      RolledBack(Chain(), depth, ancestor);
      AlwaysLinkedMore(start, updates, Withdrawn(ancestor.number + 1));
      ghost var lost := |Chain()| - |Pop(Chain(), ancestor.number + 1)|;
      applied := ancestor;
      recent := DropFrom(recent, ancestor.number + 1);
      updates, depth := updates + [Withdrawn(ancestor.number + 1)], if lost < depth then depth - lost else 0;
    }

    /** Reads a group of missing heights; None when one of the reads fails. */
    method ReadGroup(from: nat, count: nat) returns (group: Option<seq<Block>>)
      requires Numbered(provider)
      modifies this`clock
      ensures group.Some? ==> |group.value| == count && forall k :: 0 <= k < count ==> group.value[k].number == from + k
      ensures forall canon :: Stable(provider, canon) && group.Some? ==> forall k :: 0 <= k < count ==> InCanon(canon, group.value[k])
    {
      hide Numbered, Stable;
      var blocks: seq<Block> := [];
      while |blocks| < count
        invariant |blocks| <= count && forall k :: 0 <= k < |blocks| ==> blocks[k].number == from + k
        invariant forall canon :: Stable(provider, canon) ==> forall k :: 0 <= k < |blocks| ==> InCanon(canon, blocks[k])
      {
        ghost var t := clock;
        var block := Read(from + |blocks|);
        if block.None? { return None; }
        ReadIs(provider, t, from + |blocks|);
        blocks := blocks + [block.value];
      }
      group := Some(blocks);
    }

    /** The newest retained block that is still canonical; None in the first place when a read fails. */
    method FindAncestor() returns (found: Option<Option<Block>>)
      requires Valid()
      modifies this`clock
      ensures Valid()
      ensures found.Some? && found.value.Some? ==> Lookup(recent, found.value.value.number) == found.value
      ensures forall canon :: Stable(provider, canon) && found.Some? && found.value.Some? ==> OnCanon(canon, found.value.value)
      ensures forall canon :: Stable(provider, canon) && OnCanon(canon, applied) && found.Some? && found.value.Some? ==>
                found.value.value.number == applied.number
    {
      hide Linked, AlwaysLinked, Stable, Lookup, Replayed, Held, Suffix, Numbered;
      RecentLength(Chain(), depth);
      var i := |recent|;
      while i > 0
        invariant 0 <= i <= |recent| == depth && Valid() && unchanged(`recent) && unchanged(`depth) && unchanged(`applied) && unchanged(`updates)
        invariant forall canon :: Stable(provider, canon) && OnCanon(canon, applied) ==> i == |recent|
      {
        i := i - 1;
        var retained := recent[i].1;
        ghost var t := clock;
        var block := Read(retained.number);
        if block.None? { return None; }
        ReadIs(provider, t, retained.number);
        RecentAt(Chain(), depth, i);
        if block.value.hash == retained.hash { return Some(Some(retained)); }
      }
      found := Some(None);
    }

    /** Reads and accepts the blocks between the applied one and `block`, 32 at a time. */
    method FillGap(block: Block, fuel: nat, ghost canon: seq<Block>) returns (r: Result)
      requires Valid() && fuel > 0 && applied.number < block.number
      modifies this
      ensures Valid() && old(updates) <= updates
      ensures r.Ok? ==> applied.number + 1 == block.number
      ensures r.Ok? && Stable(provider, canon) && applied != old(applied) ==> OnCanon(canon, applied)
      ensures Stable(provider, canon) && fuel >= Needed(canon, old(applied), block) ==> !r.OutOfFuel?
      decreases fuel, 0
    {
      hide Linked, AlwaysLinked, Stable, Lookup, Replayed, Held, Suffix, Numbered, InCanon, OnCanon, Needed;
      ghost var parent := applied;
      var start := applied.number + 1;
      while start < block.number
        invariant Valid() && old(updates) <= updates
        invariant applied.number + 1 == if start < block.number then start else block.number
        invariant Stable(provider, canon) && applied != parent ==> OnCanon(canon, applied)
        invariant start < block.number ==> block.number > parent.number + 1
      {
        var count := if block.number - start < GROUP then block.number - start else GROUP;
        var missing := ReadGroup(start, count);
        if missing.None? { return SourceFailed; }
        for k := 0 to count
          invariant Valid() && old(updates) <= updates && applied.number + 1 == start + k
          invariant Stable(provider, canon) && applied != parent ==> OnCanon(canon, applied)
        {
          GapNeeds(provider, canon, parent, applied, block, missing.value[k]);
          r := Accept(missing.value[k], fuel - 1, canon);
          if !r.Ok? { return; }
        }
        start := start + GROUP;
      }
      r := Ok;
    }

    /**
     A block of the live stream, or one read to fill a gap. After success the feed ends in that block, unless it was
     an old block that is already there or does not attach: then nothing has changed. On a chain that no longer
     changes, four levels of recursion are enough.
     */
    method Accept(block: Block, fuel: nat, ghost canon: seq<Block>) returns (r: Result)
      requires Valid()
      modifies this
      ensures Valid() && old(updates) <= updates
      ensures r.Ok? ==> applied == block || (block.number <= old(applied).number && applied == old(applied)
                                             && updates == old(updates) && recent == old(recent))
      ensures Stable(provider, canon) && fuel >= Needed(canon, old(applied), block) ==> !r.OutOfFuel?
      decreases fuel, 1
    {
      hide Linked, AlwaysLinked, Stable, Lookup, Replayed, Held, Suffix, Numbered, InCanon, OnCanon, Needed;
      NeededSome(canon, applied, block);
      if fuel == 0 { return OutOfFuel; }
      if block.number <= applied.number {
        var held := Lookup(recent, block.number);
        if held.Some? && held.value.hash == block.hash { return Ok; }
        var ancestor := Lookup(recent, block.number - 1);
        if ancestor.None? || ancestor.value.hash != block.parentHash { return Ok; }
        LookupNumber(Chain(), depth, block.number - 1);
        Withdraw(ancestor.value);
      }
      ghost var parent := applied;
      if block.number > applied.number + 1 {
        r := FillGap(block, fuel, canon);
        if !r.Ok? { return; }
      }
      // The gap is filled: the branch for a block at the applied height and the guard after it are never taken.
      if block.number == applied.number {
        assert false;
      } else if block.number != applied.number + 1 {
        assert false;
      }
      if block.parentHash != applied.hash {
        ghost var top := applied;
        var found := FindAncestor();
        if found.None? { return SourceFailed; }
        if found.value.None? { return ChainFailed; }
        var ancestor := found.value.value;
        if ancestor.number == applied.number { return ChainFailed; }
        RecentBelow(Chain(), depth, ancestor.number);
        LookupNumber(Chain(), depth, ancestor.number);
        Withdraw(ancestor);
        MismatchNeeds(provider, canon, parent, top, block, ancestor);
        r := Accept(block, fuel - 1, canon);
        return;
      }
      Publish(block);
      r := Ok;
    }
  }

  ghost predicate Rejoins(chain: seq<Block>, ancestor: Block) {
    chain == [] || ancestor.number < chain[0].number || ancestor in chain
  }

  lemma RolledBack(chain: seq<Block>, depth: nat, ancestor: Block)
    requires Linked(chain) && depth <= |chain|
    ensures var kept := Pop(chain, ancestor.number + 1);
            var lost := |chain| - |kept|;
            var left := if lost < depth then depth - lost else 0;
            && |kept| <= |chain| && Linked(kept) && left <= |kept|
            && DropFrom(Held(Suffix(chain, depth)), ancestor.number + 1) == Held(Suffix(kept, left))
            && ((kept == [] || Last(kept) == ancestor) <==> Rejoins(chain, ancestor))
  {
    hide DropFrom, Pop, Held, Suffix, Linked, Rejoins;
    PopBounds(chain, ancestor.number + 1);
    assert chain[..|Pop(chain, ancestor.number + 1)|] == Pop(chain, ancestor.number + 1);
    RolledBackWindow(chain, depth, ancestor.number + 1, |Pop(chain, ancestor.number + 1)|);
    RolledBackTop(chain, ancestor);
  }

  lemma RolledBackWindow(chain: seq<Block>, depth: nat, from: nat, n: nat)
    requires depth <= |chain| && n <= |chain|
    requires forall i :: 0 <= i < n ==> chain[i].number < from
    requires forall i :: n <= i < |chain| ==> chain[i].number >= from
    ensures var lost := |chain| - n;
            var left := if lost < depth then depth - lost else 0;
            left <= n && DropFrom(Held(Suffix(chain, depth)), from) == Held(Suffix(chain[..n], left))
  {
    hide DropFrom;
    var lost := |chain| - n;
    var left := if lost < depth then depth - lost else 0;
    DropFromAscending(Held(Suffix(chain, depth)), from, left);
    HeldSlice(Suffix(chain, depth), 0, left);
    assert Suffix(chain, depth)[..left] == Suffix(chain[..n], left);
  }

  lemma RolledBackTop(chain: seq<Block>, ancestor: Block)
    requires Linked(chain)
    ensures var kept := Pop(chain, ancestor.number + 1); (kept == [] || Last(kept) == ancestor) <==> Rejoins(chain, ancestor)
  {
    hide Pop;
    AllLinkedNumbers(chain);
    PopBounds(chain, ancestor.number + 1);
    var kept := Pop(chain, ancestor.number + 1);
    if ancestor in chain {
      var i :| 0 <= i < |chain| && chain[i] == ancestor;
      assert i < |kept| && chain[|kept| - 1].number < ancestor.number + 1;
      assert i == |kept| - 1;
    }
  }

  lemma PopBounds(chain: seq<Block>, from: nat)
    requires Linked(chain)
    ensures var kept := Pop(chain, from);
            && kept <= chain && Linked(kept) && (forall i :: 0 <= i < |kept| ==> chain[i].number < from)
            && (forall i :: |kept| <= i < |chain| ==> chain[i].number >= from)
  {
    hide Pop;
    AllLinkedNumbers(chain);
    PopLinked(chain, from);
  }

  /** Where the feed does not rejoin, the next block of the live chain breaks the replayed chain. */
  lemma RollbackBreaks(chain: seq<Block>, ancestor: Block, block: Block)
    requires Linked(chain) && HashIdentifies(chain, [ancestor]) && !Rejoins(chain, ancestor) && Follows(ancestor, block)
    ensures !Linked(Pop(chain, ancestor.number + 1) + [block])
  {
    hide Pop;
    AllLinkedNumbers(chain);
    PopBounds(chain, ancestor.number + 1);
    var kept := Pop(chain, ancestor.number + 1);
    var all := kept + [block];
    OneHash(chain, ancestor, |kept| - 1);
    if Linked(all) {
      LinkedLast(kept, block);
    }
  }

  function BlockA(n: nat): Block { Block(n, 10 + n, 9 + n, 0, []) }

  function BlockB(n: nat): Block { Block(n, 20 + n, if n == 5 then 14 else 19 + n, 0, []) }

  /**
   A feed that replays blocks 4 and 5 of one branch is told of block 5 of another, as the ancestor from which the live
   chain goes on with block 6: both branches are linked, and what the feed has published is not.
   */
  lemma RollbackMisleads()
    ensures Linked([BlockA(4), BlockA(5)]) && Linked([BlockA(4), BlockB(5), BlockB(6)])
    ensures Replayed([BlockA(4)], [Published(BlockA(5))]) == [BlockA(4), BlockA(5)] && !Rejoins([BlockA(4), BlockA(5)], BlockB(5))
    ensures !Linked(Replayed([BlockA(4)], [Published(BlockA(5)), Withdrawn(6), Published(BlockB(6))]))
  {
    hide Pop;
    var chain := [BlockA(4), BlockA(5)];
    assert LinkedAt(chain, 1);
    assert LinkedAt([BlockA(4), BlockB(5), BlockB(6)], 1) && LinkedAt([BlockA(4), BlockB(5), BlockB(6)], 2);
    ReplayedMore([BlockA(4)], [], Published(BlockA(5)));
    assert [] + [Published(BlockA(5))] == [Published(BlockA(5))];
    var two := [Published(BlockA(5))] + [Withdrawn(6)];
    ReplayedMore([BlockA(4)], [Published(BlockA(5))], Withdrawn(6));
    ReplayedMore([BlockA(4)], two, Published(BlockB(6)));
    assert two + [Published(BlockB(6))] == [Published(BlockA(5)), Withdrawn(6), Published(BlockB(6))];
    RollbackBreaks(chain, BlockB(5), BlockB(6));
  }

  lemma NoUpdates(chain: seq<Block>)
    ensures Replayed(chain, []) == chain
  {
  }

  /** The same on a feed. */
  method Misled(provider: Provider) returns (feed: Feed)
    requires Numbered(provider)
    ensures fresh(feed) && feed.Chain() == [BlockA(4), BlockA(5)] && feed.applied == BlockB(5) && !feed.Valid()
  {
    hide Replayed, Linked, Numbered, Held, Suffix, AlwaysLinked;
    RollbackMisleads();
    feed := new Feed(BlockA(4), provider);
    NoUpdates(feed.start);
    assert Follows(BlockA(4), BlockA(5));
    feed.Publish(BlockA(5));
    assert feed.updates == [Published(BlockA(5))];
    assert feed.Chain() == [BlockA(4), BlockA(5)];
    feed.Rollback(BlockB(5));
    ReplayedMore(feed.start, [Published(BlockA(5))], Withdrawn(6));
    assert Last([BlockA(4), BlockA(5)]).number < 6;
  }

  lemma OneHash(chain: seq<Block>, ancestor: Block, i: nat)
    requires HashIdentifies(chain, [ancestor]) && i < |chain|
    ensures chain[i].hash == ancestor.hash ==> chain[i] == ancestor
  {
    assert [ancestor][0] == ancestor;
  }

  lemma LinkedLast(kept: seq<Block>, block: Block)
    requires kept != [] && Linked(kept + [block])
    ensures Follows(Last(kept), block)
  {
    assert LinkedAt(kept + [block], |kept|);
  }

  lemma Starts(head: Block)
    ensures Replayed([head], []) == [head] && Linked([head]) && AlwaysLinked([head], []) && [(head.number, head)] == Held(Suffix([head], 1))
  {
    assert Suffix([head], 1) == [head];
    assert LinkedAfter([head], [], 0);
  }

  lemma WithdrawnTo(chain: seq<Block>, depth: nat, at: nat)
    requires Linked(chain) && depth <= |chain| && |chain| - depth <= at < |chain|
    ensures var kept := Pop(chain, chain[at].number + 1);
            && kept == chain[..at + 1] && Linked(kept)
            && DropFrom(Held(Suffix(chain, depth)), chain[at].number + 1) == Held(Suffix(kept, depth - (|chain| - (at + 1))))
  {
    hide Held, Suffix, DropFrom;
    AllLinkedNumbers(chain);
    PopLinked(chain, chain[at].number + 1);
    RevertWindow(chain, depth, at - (|chain| - depth));
  }

  lemma ReadIs(provider: Provider, t: nat, n: nat)
    requires Numbered(provider)
    ensures provider(t, n).Some? ==> provider(t, n).value.number == n
    ensures forall canon :: Stable(provider, canon) && provider(t, n).Some? ==> InCanon(canon, provider(t, n).value)
    ensures forall canon, b: Block :: Stable(provider, canon) && OnCanon(canon, b) && b.number == n ==>
              provider(t, n).Some? && provider(t, n).value.hash == b.hash
  {
    assert NumberedAt(provider, t, n);
    forall canon | Stable(provider, canon) ensures StableAt(provider, canon, t, n) {
    }
  }

  lemma RecentLength(chain: seq<Block>, depth: nat)
    requires depth <= |chain|
    ensures |Held(Suffix(chain, depth))| == depth
  {
  }

  lemma RecentAt(chain: seq<Block>, depth: nat, i: nat)
    requires Linked(chain) && depth <= |chain| && i < depth
    ensures var recent := Held(Suffix(chain, depth));
            && |recent| == depth && Lookup(recent, recent[i].1.number) == Some(recent[i].1)
            && (i == depth - 1 ==> recent[i].1 == Last(chain))
  {
    AllLinkedNumbers(chain);
    FoundAt(Held(Suffix(chain, depth)), i);
  }

  lemma {:induction false} FoundAt(m: Entries<nat, Block>, i: nat)
    requires i < |m| && forall j :: 0 <= j < i ==> m[j].0 != m[i].0
    ensures Lookup(m, m[i].0) == Some(m[i].1)
  {
    if i > 0 {
      assert m[0].0 != m[i].0;
      FoundAt(m[1..], i - 1);
    }
  }

  lemma LookupNumber(chain: seq<Block>, depth: nat, n: int)
    requires depth <= |chain|
    ensures var r := Lookup(Held(Suffix(chain, depth)), n); r.Some? ==> r.value.number == n
  {
    hide Lookup, Held, Suffix;
    Retained(chain, depth, n);
  }

  lemma RecentBelow(chain: seq<Block>, depth: nat, n: int)
    requires Linked(chain) && depth <= |chain|
    ensures Lookup(Held(Suffix(chain, depth)), n).Some? ==> chain != [] && n <= Last(chain).number
  {
    hide Lookup, Held, Suffix;
    Retained(chain, depth, n);
    AllLinkedNumbers(chain);
  }

  /** The recursion that a block of a gap needs is less than that of the block above the gap. */
  lemma GapNeeds(provider: Provider, canon: seq<Block>, parent: Block, applied: Block, block: Block, missing: Block)
    requires Numbered(provider) && missing.number == applied.number + 1
    requires Stable(provider, canon) && applied != parent ==> OnCanon(canon, applied)
    requires Stable(provider, canon) ==> InCanon(canon, missing)
    requires block.number > parent.number + 1
    ensures Stable(provider, canon) ==> Needed(canon, applied, missing) < Needed(canon, parent, block)
    ensures Stable(provider, canon) ==> OnCanon(canon, missing)
  {
    hide Numbered;
  }

  lemma NeededSome(canon: seq<Block>, applied: Block, block: Block)
    ensures Needed(canon, applied, block) >= 1
  {
  }

  lemma MismatchNeeds(provider: Provider, canon: seq<Block>, parent: Block, top: Block, block: Block, ancestor: Block)
    requires Stable(provider, canon) ==> OnCanon(canon, ancestor)
    requires Stable(provider, canon) && OnCanon(canon, top) ==> ancestor.number == top.number
    requires ancestor.number != top.number && (Stable(provider, canon) && top != parent ==> OnCanon(canon, top))
    ensures Stable(provider, canon) ==> Needed(canon, ancestor, block) < Needed(canon, parent, block)
  {
  }
}
