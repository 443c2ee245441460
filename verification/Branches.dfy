/**
 Two branches of one chain.

 A block that both have makes everything below it common. What is known of one branch, and a header of the other, settle
 in this way where the two agree. Where they do not, there are branches that fit all that is known and differ: the first
 branch scrubbed of every hash that is not known, and beside it a branch made through the header, grafted at it, or
 forked from a height on.
 */
module Branches {
  import opened Blocks
  import opened ModelTypes
  import opened Partitions

  ghost predicate JoinedAt(chain: seq<Batch>, i: nat)
    requires i + 1 < |chain|
  {
    chain[i + 1].block.parentHash == chain[i].block.hash
  }

  /** Each block names the one below it as its parent. */
  ghost predicate HashLinked(chain: seq<Batch>) {
    forall i: nat :: i + 1 < |chain| ==> JoinedAt(chain, i)
  }

  ghost predicate OneBlockPerHash(chain: seq<Batch>, after: seq<Batch>) {
    forall i, j :: 0 <= i < |chain| && 0 <= j < |after| && chain[i].block.hash == after[j].block.hash ==> chain[i] == after[j]
  }

  /** Two branches: a hash identifies a block, its events included, wherever it is met. */
  ghost predicate Branch(chain: seq<Batch>, after: seq<Batch>) {
    && IsChain(chain) && IsChain(after) && HashLinked(chain) && HashLinked(after)
    && OneBlockPerHash(chain, chain) && OneBlockPerHash(chain, after) && OneBlockPerHash(after, after)
  }

  /** The second branch shares every block of the first below `from`. */
  ghost predicate SameBelow(chain: seq<Batch>, after: seq<Batch>, from: nat) {
    forall n :: 0 <= n < from && n < |chain| ==> n < |after| && after[n] == chain[n]
  }

  /** Two branches that share a block share everything below it. */
  lemma {:induction false} SharedBelow(chain: seq<Batch>, after: seq<Batch>, a: nat)
    requires Branch(chain, after) && a < |chain| && a < |after| && chain[a].block.hash == after[a].block.hash
    ensures SameBelow(chain, after, a + 1)
  {
    hide IsChain;
    assert chain[a] == after[a];
    if a > 0 {
      assert JoinedAt(chain, a - 1) && JoinedAt(after, a - 1);
      SharedBelow(chain, after, a - 1);
    }
  }

  /** Blocks that share a hash stand at one height. */
  lemma SameHeight(chain: seq<Batch>, after: seq<Batch>, i: nat, j: nat)
    requires IsChain(chain) && IsChain(after) && OneBlockPerHash(chain, after)
    requires i < |chain| && j < |after| && chain[i].block.hash == after[j].block.hash
    ensures i == j && chain[i] == after[j]
  {
  }

  // ------------------------------------------------------------------------------------------ what is known

  ghost predicate AllOnChain(chain: seq<Batch>, known: set<Header>) {
    forall h :: h in known ==> OnChain(chain, h)
  }

  /** A known header tells the hash of the block at height n: its own, or the one it names as its parent. */
  ghost predicate KnownAt(known: set<Header>, n: int, hash: Hash) {
    exists h :: h in known && ((h.number == n && h.hash == hash) || (h.number == n + 1 && h.parentHash == hash))
  }

  lemma KnownIsThere(chain: seq<Batch>, known: set<Header>, n: nat, hash: Hash)
    requires IsChain(chain) && HashLinked(chain) && AllOnChain(chain, known) && KnownAt(known, n, hash)
    ensures n < |chain| && chain[n].block.hash == hash
  {
    var h :| h in known && ((h.number == n && h.hash == hash) || (h.number == n + 1 && h.parentHash == hash));
    assert OnChain(chain, h);
    if h.number == n + 1 {
      assert JoinedAt(chain, n);
    }
  }

  /** A known block that the other branch has too. */
  lemma RejoinsAt(chain: seq<Batch>, after: seq<Batch>, known: set<Header>, h: Header)
    requires Branch(chain, after) && AllOnChain(chain, known) && OnChain(after, h)
    ensures KnownAt(known, h.number, h.hash) ==> h.number < |chain| && SameBelow(chain, after, h.number + 1)
    ensures h.number > 0 && KnownAt(known, h.number - 1, h.parentHash) ==> h.number <= |chain| && SameBelow(chain, after, h.number)
  {
    hide KnownAt, IsChain, OneBlockPerHash, AllOnChain;
    if KnownAt(known, h.number, h.hash) {
      KnownIsThere(chain, known, h.number, h.hash);
      SharedBelow(chain, after, h.number);
    }
    if h.number > 0 && KnownAt(known, h.number - 1, h.parentHash) {
      KnownIsThere(chain, known, h.number - 1, h.parentHash);
      assert JoinedAt(after, h.number - 1);
      SharedBelow(chain, after, h.number - 1);
    }
  }

  // ------------------------------------------------------------------------------------------ the first branch, scrubbed

  /** A known header fixes the hash at this height. */
  ghost predicate Fixed(chain: seq<Batch>, known: set<Header>, k: nat)
    requires k < |chain|
  {
    chain[k].block in known || (k + 1 < |chain| && chain[k + 1].block in known)
  }

  ghost function ScrubbedHash(chain: seq<Batch>, known: set<Header>, unused: int, k: nat): Hash
    requires k < |chain|
  {
    if Fixed(chain, known, k) then chain[k].block.hash else unused + 2 * k + 1
  }

  ghost function ScrubbedAt(chain: seq<Batch>, known: set<Header>, unused: int, k: nat): Batch
    requires k < |chain|
  {
    var b := chain[k].block;
    if b in known then chain[k]
    else Batch(b.(hash := ScrubbedHash(chain, known, unused, k),
                  parentHash := if k == 0 then b.parentHash else ScrubbedHash(chain, known, unused, k - 1)), chain[k].events)
  }

  /** The same chain with a hash of its own at every height whose hash is not known. */
  ghost function Scrubbed(chain: seq<Batch>, known: set<Header>, unused: int): seq<Batch> {
    seq(|chain|, k requires 0 <= k < |chain| => ScrubbedAt(chain, known, unused, k))
  }

  lemma FixedIsKnown(chain: seq<Batch>, known: set<Header>, k: nat)
    requires IsChain(chain) && HashLinked(chain) && k < |chain| && Fixed(chain, known, k)
    ensures KnownAt(known, k, chain[k].block.hash)
  {
    if chain[k].block !in known {
      assert JoinedAt(chain, k);
    }
  }

  /** The same chain as far as heights, times, events and known headers tell. */
  ghost predicate Like(chain: seq<Batch>, to: seq<Batch>, known: set<Header>) {
    |to| == |chain| && forall k :: 0 <= k < |chain| ==> LikeAt(chain[k], to[k], known)
  }

  ghost predicate LikeAt(a: Batch, b: Batch, known: set<Header>) {
    && a.block.number == b.block.number && a.block.timestamp == b.block.timestamp && a.events == b.events
    && (a.block in known ==> a == b)
  }

  /** Heights, times and events stay, and so does every known block. */
  lemma ScrubbedKeeps(chain: seq<Batch>, known: set<Header>, unused: int)
    ensures var to := Scrubbed(chain, known, unused);
            Like(chain, to, known) && forall k :: 0 <= k < |chain| ==> to[k].block.hash == ScrubbedHash(chain, known, unused, k)
  {
  }

  lemma LikeIsChain(chain: seq<Batch>, to: seq<Batch>, known: set<Header>)
    requires Like(chain, to, known)
    ensures IsChain(chain) ==> IsChain(to)
    ensures AllOnChain(chain, known) ==> AllOnChain(to, known)
  {
    if IsChain(chain) {
      forall i, j | 0 <= i <= j < |to| ensures to[i].block.timestamp <= to[j].block.timestamp {
        assert LikeAt(chain[i], to[i], known) && LikeAt(chain[j], to[j], known);
      }
    }
  }

  lemma ScrubbedJoins(chain: seq<Batch>, known: set<Header>, unused: int, i: nat)
    requires i + 1 < |chain| && JoinedAt(chain, i)
    ensures JoinedAt(Scrubbed(chain, known, unused), i)
  {
  }

  lemma ScrubbedIsChain(chain: seq<Batch>, known: set<Header>, unused: int)
    requires IsChain(chain) && HashLinked(chain)
    ensures IsChain(Scrubbed(chain, known, unused)) && HashLinked(Scrubbed(chain, known, unused))
    ensures AllOnChain(chain, known) ==> AllOnChain(Scrubbed(chain, known, unused), known)
  {
    hide Scrubbed, Like, IsChain, AllOnChain, JoinedAt;
    var to := Scrubbed(chain, known, unused);
    ScrubbedKeeps(chain, known, unused);
    LikeIsChain(chain, to, known);
    forall i: nat | i + 1 < |to| ensures JoinedAt(to, i) {
      ScrubbedJoins(chain, known, unused, i);
    }
  }

  ghost predicate HashesBelow(chain: seq<Batch>, bound: int) {
    forall k :: 0 <= k < |chain| ==> chain[k].block.hash < bound
  }

  /** A bound above all hashes of a chain. */
  ghost function Bound(chain: seq<Batch>, floor: int): (bound: int)
    ensures bound >= floor && HashesBelow(chain, bound)
  {
    if chain == [] then floor
    else
      var rest := Bound(chain[..|chain| - 1], floor);
      var top := Last(chain).block.hash;
      assert forall k :: 0 <= k < |chain| - 1 ==> chain[k] == chain[..|chain| - 1][k];
      if top >= rest then top + 1 else rest
  }

  /** The scrubbed hashes are different at different heights. */
  lemma ScrubbedDistinct(chain: seq<Batch>, known: set<Header>, unused: int, i: nat, j: nat)
    requires IsChain(chain) && OneBlockPerHash(chain, chain) && HashesBelow(chain, unused) && i < |chain| && j < |chain|
    requires ScrubbedHash(chain, known, unused, i) == ScrubbedHash(chain, known, unused, j)
    ensures i == j
  {
    hide Fixed;
    if Fixed(chain, known, i) && Fixed(chain, known, j) {
      SameHeight(chain, chain, i, j);
    }
  }

  lemma ScrubbedOneBlock(chain: seq<Batch>, known: set<Header>, unused: int)
    requires IsChain(chain) && OneBlockPerHash(chain, chain) && HashesBelow(chain, unused)
    ensures OneBlockPerHash(Scrubbed(chain, known, unused), Scrubbed(chain, known, unused))
  {
    hide ScrubbedHash, IsChain, HashesBelow;
    var to := Scrubbed(chain, known, unused);
    ScrubbedKeeps(chain, known, unused);
    forall i, j | 0 <= i < |to| && 0 <= j < |to| && to[i].block.hash == to[j].block.hash ensures to[i] == to[j] {
      ScrubbedDistinct(chain, known, unused, i, j);
    }
  }

  /** A scrubbed hash that a block of the other branch has is that of a known block at the same height. */
  lemma ScrubbedMeets(chain: seq<Batch>, after: seq<Batch>, known: set<Header>, unused: int, i: nat, j: nat)
    requires Branch(chain, after) && HashesBelow(after, unused) && i < |chain| && j < |after|
    requires ScrubbedHash(chain, known, unused, i) == after[j].block.hash
    ensures i == j && chain[i] == after[j] && KnownAt(known, j, after[j].block.hash)
  {
    hide KnownAt, Fixed, IsChain, HashLinked;
    assert Fixed(chain, known, i);
    assert chain[i].block.hash == after[j].block.hash;
    SameHeight(chain, after, i, j);
    FixedIsKnown(chain, known, i);
  }

  // ------------------------------------------------------------------------------------------ a branch made to measure

  /** The hashes of a branch through a header and, if asked for, one more block; all others are its own. */
  ghost function MadeHash(head: Header, more: Option<(nat, Hash)>, unused: int, k: nat): Hash {
    if k == head.number then head.hash
    else if k + 1 == head.number then head.parentHash
    else if more.Some? && more.value.0 == k then more.value.1
    else unused + 2 * k
  }

  /** Below `head` every block has one time, above it `head`'s; block `e` has the only events. */
  ghost function MadeAt(head: Header, more: Option<(nat, Hash)>, unused: int, time: nat, e: nat, events: seq<Event>, k: nat): Batch {
    Batch(Header(k, MadeHash(head, more, unused, k),
                 if k == head.number then head.parentHash else if k == 0 then 0 else MadeHash(head, more, unused, k - 1),
                 if k < head.number then time else head.timestamp),
          if k == e then events else [])
  }

  ghost function Made(head: Header, more: Option<(nat, Hash)>, unused: int, length: nat, time: nat, e: nat, events: seq<Event>): seq<Batch> {
    seq(length, k requires 0 <= k < length => MadeAt(head, more, unused, time, e, events, k))
  }

  /** The header and the other block are taken from one branch. */
  ghost predicate TakenFrom(after: seq<Batch>, head: Header, more: Option<(nat, Hash)>) {
    && OnChain(after, head)
    && (more.Some? ==> more.value.0 < |after| && after[more.value.0].block.hash == more.value.1)
  }

  lemma MadeIsChain(head: Header, more: Option<(nat, Hash)>, unused: int, length: nat, time: nat, e: nat, events: seq<Event>)
    requires time <= head.timestamp
    ensures var made := Made(head, more, unused, length, time, e, events);
            && |made| == length && IsChain(made) && HashLinked(made) && (head.number < length ==> OnChain(made, head))
            && forall k :: 0 <= k < length ==> made[k] == MadeAt(head, more, unused, time, e, events, k)
  {
    var made := Made(head, more, unused, length, time, e, events);
    forall i: nat | i + 1 < |made| ensures JoinedAt(made, i) {
    }
  }

  /** What a made hash can be: one of the blocks taken from the branch, at its height, or one that is not in use. */
  lemma MadeMeets(after: seq<Batch>, head: Header, more: Option<(nat, Hash)>, unused: int, k: nat)
    requires IsChain(after) && HashLinked(after) && TakenFrom(after, head, more) && HashesBelow(after, unused)
    ensures var hash := MadeHash(head, more, unused, k);
            || hash == unused + 2 * k
            || (k < |after| && after[k].block.hash == hash
                && (k == head.number || k + 1 == head.number || (more.Some? && more.value == (k, hash))))
  {
    if k + 1 == head.number {
      assert JoinedAt(after, k);
    }
  }

  lemma MadeDistinct(after: seq<Batch>, head: Header, more: Option<(nat, Hash)>, unused: int, i: nat, j: nat)
    requires IsChain(after) && HashLinked(after) && OneBlockPerHash(after, after) && TakenFrom(after, head, more) && HashesBelow(after, unused)
    requires MadeHash(head, more, unused, i) == MadeHash(head, more, unused, j)
    ensures i == j
  {
    hide MadeHash, IsChain, HashLinked, OneBlockPerHash, TakenFrom;
    MadeMeets(after, head, more, unused, i);
    MadeMeets(after, head, more, unused, j);
    if i < |after| && j < |after| && after[i].block.hash == after[j].block.hash {
      SameHeight(after, after, i, j);
    }
  }

  /** None of the taken blocks is known to be on the first branch. */
  ghost predicate Apart(known: set<Header>, head: Header, more: Option<(nat, Hash)>) {
    && !KnownAt(known, head.number, head.hash)
    && (head.number > 0 ==> !KnownAt(known, head.number - 1, head.parentHash))
    && (more.Some? ==> !KnownAt(known, more.value.0, more.value.1))
  }

  /** A scrubbed branch and one made from blocks that it is not known to have: no hash in common. */
  lemma ScrubbedMade(chain: seq<Batch>, after: seq<Batch>, known: set<Header>, head: Header, more: Option<(nat, Hash)>, unused: int, i: nat, j: nat)
    requires Branch(chain, after) && TakenFrom(after, head, more) && Apart(known, head, more)
    requires HashesBelow(chain, unused) && HashesBelow(after, unused) && i < |chain|
    ensures ScrubbedHash(chain, known, unused, i) != MadeHash(head, more, unused, j)
  {
    hide KnownAt, Fixed, IsChain, HashLinked, OneBlockPerHash, MadeHash;
    MadeMeets(after, head, more, unused, j);
    if ScrubbedHash(chain, known, unused, i) == MadeHash(head, more, unused, j) {
      if MadeHash(head, more, unused, j) != unused + 2 * j {
        ScrubbedMeets(chain, after, known, unused, i, j);
        TakenParent(after, head);
      }
    }
  }

  lemma TakenParent(after: seq<Batch>, head: Header)
    requires IsChain(after) && HashLinked(after) && OnChain(after, head)
    ensures after[head.number].block == head
    ensures head.number > 0 ==> after[head.number - 1].block.hash == head.parentHash
  {
    if head.number > 0 {
      assert JoinedAt(after, head.number - 1);
    }
  }

  /** Two branches that fit all that is known, and share no block. */
  lemma MadeBranch(chain: seq<Batch>, after: seq<Batch>, known: set<Header>, head: Header, more: Option<(nat, Hash)>, unused: int,
                   length: nat, time: nat, e: nat, events: seq<Event>)
    requires Branch(chain, after) && TakenFrom(after, head, more) && Apart(known, head, more) && time <= head.timestamp
    requires HashesBelow(chain, unused) && HashesBelow(after, unused)
    ensures Branch(Scrubbed(chain, known, unused), Made(head, more, unused, length, time, e, events))
  {
    hide ScrubbedHash, MadeHash, Scrubbed, Made, IsChain, HashLinked, HashesBelow, TakenFrom, Apart;
    var from, made := Scrubbed(chain, known, unused), Made(head, more, unused, length, time, e, events);
    ScrubbedKeeps(chain, known, unused);
    ScrubbedIsChain(chain, known, unused);
    ScrubbedOneBlock(chain, known, unused);
    MadeIsChain(head, more, unused, length, time, e, events);
    forall i, j | 0 <= i < |made| && 0 <= j < |made| && made[i].block.hash == made[j].block.hash ensures made[i] == made[j] {
      MadeDistinct(after, head, more, unused, i, j);
    }
    forall i, j | 0 <= i < |from| && 0 <= j < |made| ensures from[i].block.hash != made[j].block.hash {
      ScrubbedMade(chain, after, known, head, more, unused, i, j);
    }
  }

  /** The scrubbed branch up to the parent of a header, then the header. */
  ghost function Grafted(chain: seq<Batch>, known: set<Header>, unused: int, head: Header, events: seq<Event>): seq<Batch>
    requires head.number <= |chain|
  {
    Scrubbed(chain, known, unused)[..head.number] + [Batch(head, events)]
  }

  /** Two branches that part at a header whose parent is known to be on the first and which itself is not. */
  lemma GraftedBranch(chain: seq<Batch>, after: seq<Batch>, known: set<Header>, head: Header, unused: int, events: seq<Event>)
    requires Branch(chain, after) && OnChain(after, head) && AllOnChain(chain, known) && head.number > 0
    requires KnownAt(known, head.number - 1, head.parentHash) && !KnownAt(known, head.number, head.hash)
    requires HashesBelow(chain, unused) && HashesBelow(after, unused)
    ensures head.number <= |chain| && SameBelow(chain, after, head.number)
    ensures Branch(Scrubbed(chain, known, unused), Grafted(chain, known, unused, head, events))
    ensures OnChain(Grafted(chain, known, unused, head, events), head)
  {
    hide ScrubbedHash, Scrubbed, IsChain, HashLinked, HashesBelow, KnownAt, OneBlockPerHash, AllOnChain, Grafted;
    RejoinsAt(chain, after, known, head);
    ScrubbedIsChain(chain, known, unused);
    ScrubbedOneBlock(chain, known, unused);
    GraftedIsChain(chain, after, known, head, unused, events);
    GraftedOneBlock(chain, after, known, head, unused, events);
  }

  lemma GraftedIsChain(chain: seq<Batch>, after: seq<Batch>, known: set<Header>, head: Header, unused: int, events: seq<Event>)
    requires Branch(chain, after) && OnChain(after, head) && AllOnChain(chain, known) && 0 < head.number <= |chain|
    requires KnownAt(known, head.number - 1, head.parentHash) && SameBelow(chain, after, head.number)
    ensures var to := Grafted(chain, known, unused, head, events); IsChain(to) && HashLinked(to) && OnChain(to, head)
  {
    hide KnownAt, OneBlockPerHash, ScrubbedHash, Scrubbed;
    var from, to := Scrubbed(chain, known, unused), Grafted(chain, known, unused, head, events);
    ScrubbedKeeps(chain, known, unused);
    ScrubbedIsChain(chain, known, unused);
    KnownIsFixed(chain, known, head.number - 1, head.parentHash);
    forall i: nat | i + 1 < |to| ensures JoinedAt(to, i) {
      if i + 1 < head.number {
        assert JoinedAt(from, i);
      }
    }
    assert forall i :: 0 <= i < head.number ==> to[i].block.timestamp == after[i].block.timestamp;
  }

  lemma KnownIsFixed(chain: seq<Batch>, known: set<Header>, n: nat, hash: Hash)
    requires IsChain(chain) && HashLinked(chain) && AllOnChain(chain, known) && KnownAt(known, n, hash)
    ensures n < |chain| && forall unused :: ScrubbedHash(chain, known, unused, n) == hash
  {
    KnownIsThere(chain, known, n, hash);
    var h :| h in known && ((h.number == n && h.hash == hash) || (h.number == n + 1 && h.parentHash == hash));
    assert OnChain(chain, h);
  }

  lemma GraftedOneBlock(chain: seq<Batch>, after: seq<Batch>, known: set<Header>, head: Header, unused: int, events: seq<Event>)
    requires Branch(chain, after) && OnChain(after, head) && 0 < head.number <= |chain|
    requires !KnownAt(known, head.number, head.hash) && HashesBelow(chain, unused) && HashesBelow(after, unused)
    ensures var from, to := Scrubbed(chain, known, unused), Grafted(chain, known, unused, head, events);
            OneBlockPerHash(from, to) && OneBlockPerHash(to, to)
  {
    hide KnownAt, ScrubbedHash, Scrubbed, HashLinked;
    var from, to := Scrubbed(chain, known, unused), Grafted(chain, known, unused, head, events);
    ScrubbedKeeps(chain, known, unused);
    forall i | 0 <= i < |from| ensures from[i].block.hash != head.hash {
      if from[i].block.hash == head.hash {
        ScrubbedMeets(chain, after, known, unused, i, head.number);
      }
    }
    forall i, j | 0 <= i < |from| && 0 <= j < |to| && from[i].block.hash == to[j].block.hash ensures from[i] == to[j] {
      if j < head.number {
        ScrubbedDistinct(chain, known, unused, i, j);
      }
    }
  }

  // ------------------------------------------------------------------------------------------ a branch that parts

  ghost function ForkedAt(chain: seq<Batch>, known: set<Header>, unused: int, from: nat, time: nat, e: nat, events: seq<Event>, k: nat): Batch
    requires k < |chain|
  {
    if k < from then ScrubbedAt(chain, known, unused, k)
    else Batch(Header(k, unused + 2 * k,
                      if k == 0 then 0 else if k == from then ScrubbedHash(chain, known, unused, k - 1) else unused + 2 * (k - 1), time),
               if k == e then events else [])
  }

  /** The scrubbed branch below `from`, then blocks of its own, all at one time; block `e` has the only events of these. */
  ghost function Forked(chain: seq<Batch>, known: set<Header>, unused: int, from: nat, time: nat, e: nat, events: seq<Event>): seq<Batch> {
    seq(|chain|, k requires 0 <= k < |chain| => ForkedAt(chain, known, unused, from, time, e, events, k))
  }

  lemma ForkedKeeps(chain: seq<Batch>, known: set<Header>, unused: int, from: nat, time: nat, e: nat, events: seq<Event>)
    ensures var to := Forked(chain, known, unused, from, time, e, events);
            && |to| == |chain|
            && (forall k :: 0 <= k < |chain| && k < from ==> to[k] == Scrubbed(chain, known, unused)[k])
            && forall k :: from <= k < |chain| ==> to[k].block.hash == unused + 2 * k && to[k].events == if k == e then events else []
  {
    hide ScrubbedAt;
  }

  lemma ForkedIsChain(chain: seq<Batch>, known: set<Header>, unused: int, from: nat, time: nat, e: nat, events: seq<Event>)
    requires IsChain(chain) && HashLinked(chain) && from < |chain| && forall k :: 0 <= k < |chain| ==> chain[k].block.timestamp <= time
    ensures var to := Forked(chain, known, unused, from, time, e, events); IsChain(to) && HashLinked(to)
  {
    hide ScrubbedHash, Scrubbed, HashLinked;
    var other, to := Scrubbed(chain, known, unused), Forked(chain, known, unused, from, time, e, events);
    ScrubbedIsChain(chain, known, unused);
    ScrubbedKeeps(chain, known, unused);
    ForkedKeeps(chain, known, unused, from, time, e, events);
    ForkedJoins(chain, known, unused, from, time, e, events);
  }

  lemma ForkedJoins(chain: seq<Batch>, known: set<Header>, unused: int, from: nat, time: nat, e: nat, events: seq<Event>)
    requires IsChain(chain) && HashLinked(chain)
    ensures HashLinked(Forked(chain, known, unused, from, time, e, events))
  {
    hide Scrubbed, IsChain;
    var to := Forked(chain, known, unused, from, time, e, events);
    ScrubbedKeeps(chain, known, unused);
    ForkedKeeps(chain, known, unused, from, time, e, events);
    forall i: nat | i + 1 < |to| ensures JoinedAt(to, i) {
      if i + 1 < from {
        ScrubbedJoinsAt(chain, known, unused, i);
      }
    }
  }

  lemma ScrubbedJoinsAt(chain: seq<Batch>, known: set<Header>, unused: int, i: nat)
    requires IsChain(chain) && HashLinked(chain) && i + 1 < |chain|
    ensures JoinedAt(Scrubbed(chain, known, unused), i)
  {
    hide Scrubbed;
    ScrubbedIsChain(chain, known, unused);
    ScrubbedKeeps(chain, known, unused);
  }

  /** Two branches that part at a height, and fit all that is known. */
  lemma ForkedBranch(chain: seq<Batch>, known: set<Header>, unused: int, from: nat, time: nat, e: nat, events: seq<Event>)
    requires Branch(chain, chain) && HashesBelow(chain, unused) && from < |chain|
    requires forall k :: 0 <= k < |chain| ==> chain[k].block.timestamp <= time
    ensures Branch(Scrubbed(chain, known, unused), Forked(chain, known, unused, from, time, e, events))
  {
    hide ScrubbedHash, Scrubbed, Forked, HashLinked, IsChain;
    var other, to := Scrubbed(chain, known, unused), Forked(chain, known, unused, from, time, e, events);
    ScrubbedIsChain(chain, known, unused);
    ScrubbedOneBlock(chain, known, unused);
    ScrubbedKeeps(chain, known, unused);
    ForkedIsChain(chain, known, unused, from, time, e, events);
    ForkedKeeps(chain, known, unused, from, time, e, events);
    forall i, j | 0 <= i < |other| && 0 <= j < |to| && other[i].block.hash == to[j].block.hash ensures other[i] == to[j] {
      if j < from {
        ScrubbedDistinct(chain, known, unused, i, j);
      } else {
        ScrubbedIsOdd(chain, known, unused, i, j);
      }
    }
    forall i, j | 0 <= i < |to| && 0 <= j < |to| && to[i].block.hash == to[j].block.hash ensures to[i] == to[j] {
      if i < from && j < from {
        ScrubbedDistinct(chain, known, unused, i, j);
      } else if i < from {
        ScrubbedIsOdd(chain, known, unused, i, j);
      } else if j < from {
        ScrubbedIsOdd(chain, known, unused, j, i);
      }
    }
  }

  lemma ScrubbedIsOdd(chain: seq<Batch>, known: set<Header>, unused: int, i: nat, k: nat)
    requires HashesBelow(chain, unused) && i < |chain|
    ensures ScrubbedHash(chain, known, unused, i) != unused + 2 * k
  {
    hide Fixed;
  }

  // ------------------------------------------------------------------------------------------ a branch that goes on

  ghost function OnwardAt(chain: seq<Batch>, unused: int, from: nat, time: nat, length: nat, events: seq<Event>, k: nat): Batch
    requires from <= |chain|
  {
    if k < from then chain[k]
    else Batch(Header(k, unused + k, if k == 0 then 0 else if k == from then chain[k - 1].block.hash else unused + (k - 1), time),
               if k + 1 == length then events else [])
  }

  /** The chain below `from`, then blocks of its own at one time; the last one has the only events of these. */
  ghost function Onward(chain: seq<Batch>, unused: int, from: nat, time: nat, length: nat, events: seq<Event>): seq<Batch>
    requires from <= |chain|
  {
    seq(length, k requires 0 <= k < length => OnwardAt(chain, unused, from, time, length, events, k))
  }

  lemma OnwardIsChain(chain: seq<Batch>, unused: int, from: nat, time: nat, length: nat, events: seq<Event>)
    requires IsChain(chain) && HashLinked(chain) && from <= |chain| && from < length
    requires from > 0 ==> chain[from - 1].block.timestamp <= time
    ensures var to := Onward(chain, unused, from, time, length, events); IsChain(to) && HashLinked(to) && SameBelow(chain, to, from)
  {
    hide HashLinked;
    var to := Onward(chain, unused, from, time, length, events);
    forall i: nat | i + 1 < |to| ensures JoinedAt(to, i) {
      if i + 1 < from {
        LinkAt(chain, i);
      }
    }
    assert HashLinked(to) by { AllJoined(to); }
  }

  lemma LinkAt(chain: seq<Batch>, i: nat)
    requires HashLinked(chain) && i + 1 < |chain|
    ensures JoinedAt(chain, i)
  {
  }

  lemma AllJoined(chain: seq<Batch>)
    requires forall i: nat :: i + 1 < |chain| ==> JoinedAt(chain, i)
    ensures HashLinked(chain)
  {
  }

  lemma OnwardBranch(chain: seq<Batch>, unused: int, from: nat, time: nat, length: nat, events: seq<Event>)
    requires Branch(chain, chain) && HashesBelow(chain, unused) && from <= |chain| && from < length
    requires from > 0 ==> chain[from - 1].block.timestamp <= time
    ensures Branch(chain, Onward(chain, unused, from, time, length, events))
  {
    hide IsChain, HashLinked, SameBelow;
    var to := Onward(chain, unused, from, time, length, events);
    OnwardIsChain(chain, unused, from, time, length, events);
    forall i, j | 0 <= i < |chain| && 0 <= j < |to| && chain[i].block.hash == to[j].block.hash ensures chain[i] == to[j] {
    }
    forall i, j | 0 <= i < |to| && 0 <= j < |to| && to[i].block.hash == to[j].block.hash ensures to[i] == to[j] {
    }
  }
}
