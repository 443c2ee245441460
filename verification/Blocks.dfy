/**
 Blocks as the client and the indexer see them.

 A block has a height, a hash, its parent's hash, a time and its logs. A sequence of blocks is linked when each names
 the one before it as its parent and is one higher; the chains of the other modules are linked sequences, and heights
 in them are positions.
 */
module Blocks {
  datatype Option<+T> = None | Some(value: T)

  type Hash = int

  /** A log; `removed` is set on the copy that a subscription sends when a reorg takes the log back. */
  datatype Log = Log(data: int, removed: bool)

  datatype Block = Block(number: nat, hash: Hash, parentHash: Hash, timestamp: nat, logs: seq<Log>)

  predicate Follows(parent: Block, child: Block) {
    child.number == parent.number + 1 && child.parentHash == parent.hash
  }

  ghost predicate LinkedAt(chain: seq<Block>, i: nat)
    requires 0 < i < |chain|
  {
    Follows(chain[i - 1], chain[i])
  }

  /** A contiguous chain: each block names the one before it as its parent. */
  ghost predicate Linked(chain: seq<Block>) {
    forall i :: 0 < i < |chain| ==> LinkedAt(chain, i)
  }

  function Last<T>(s: seq<T>): T
    requires s != []
  {
    s[|s| - 1]
  }

  /** A hash identifies a block, its parent hash included: two of the given blocks with one hash are one block. */
  ghost predicate HashIdentifies(a: seq<Block>, b: seq<Block>) {
    forall i, j :: 0 <= i < |a| && 0 <= j < |b| && a[i].hash == b[j].hash ==> a[i] == b[j]
  }

  lemma {:induction false} LinkedNumbers(chain: seq<Block>, i: nat)
    requires Linked(chain) && i < |chain|
    ensures chain[i].number == chain[0].number + i
  {
    if i > 0 {
      LinkedNumbers(chain, i - 1);
      assert LinkedAt(chain, i);
    }
  }

  lemma AllLinkedNumbers(chain: seq<Block>)
    requires Linked(chain)
    ensures forall i :: 0 <= i < |chain| ==> chain[i].number == chain[0].number + i
  {
    forall i | 0 <= i < |chain| ensures chain[i].number == chain[0].number + i {
      LinkedNumbers(chain, i);
    }
  }

  lemma AppendLinked(chain: seq<Block>, more: seq<Block>)
    requires Linked(chain) && Linked(more)
    requires chain != [] && more != [] ==> Follows(Last(chain), more[0])
    ensures Linked(chain + more)
  {
    var all := chain + more;
    forall i | 0 < i < |all| ensures LinkedAt(all, i) {
      if i < |chain| {
        assert LinkedAt(chain, i);
      } else if i > |chain| {
        assert LinkedAt(more, i - |chain|);
      }
    }
  }

  lemma SliceLinked(chain: seq<Block>, lo: nat, hi: nat)
    requires Linked(chain) && lo <= hi <= |chain|
    ensures Linked(chain[lo..hi])
  {
    var part := chain[lo..hi];
    forall i | 0 < i < |part| ensures LinkedAt(part, i) {
      assert LinkedAt(chain, lo + i);
    }
  }
}
