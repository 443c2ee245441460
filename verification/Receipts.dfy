/**
 Receipts of a block.

 A provider may return them in any order and with anything in them. They are accepted only as a reordering that matches
 the block's transactions one to one, and only when the log indices count up from zero through the whole block, across
 the receipts.
 */
module Receipts {
  import opened Blocks

  /** `whole` stands for the address, data and topics being present. */
  datatype ReceiptLog = ReceiptLog(removed: bool, blockHash: Option<Hash>, blockNumber: Option<nat>, transactionHash: Option<Hash>,
                                   transactionIndex: Option<nat>, logIndex: Option<nat>, whole: bool)

  datatype Receipt = Receipt(transactionHash: Hash, blockHash: Hash, blockNumber: nat, transactionIndex: nat, logs: seq<ReceiptLog>)

  datatype TransactionBlock = TransactionBlock(hash: Hash, number: nat, transactions: seq<Hash>)

  /** The log names this block and transaction. */
  predicate Belongs(log: ReceiptLog, block: TransactionBlock, index: nat)
    requires index < |block.transactions|
  {
    && !log.removed && log.blockHash == Some(block.hash) && log.blockNumber == Some(block.number)
    && log.transactionHash == Some(block.transactions[index]) && log.transactionIndex == Some(index) && log.logIndex.Some? && log.whole
  }

  predicate Fits(receipt: Receipt, block: TransactionBlock, index: nat)
    requires index < |block.transactions|
  {
    && receipt.transactionHash == block.transactions[index]
    && receipt.blockHash == block.hash && receipt.blockNumber == block.number && receipt.transactionIndex == index
    && forall k :: 0 <= k < |receipt.logs| ==> Belongs(receipt.logs[k], block, index)
  }

  function LogCount(receipts: seq<Receipt>): nat {
    if receipts == [] then 0 else LogCount(receipts[..|receipts| - 1]) + |Last(receipts).logs|
  }

  /** The receipt's logs are numbered on from `first`. */
  predicate Numbered(receipt: Receipt, first: nat) {
    forall k :: 0 <= k < |receipt.logs| ==> receipt.logs[k].logIndex == Some(first + k)
  }

  ghost predicate DistinctHashes(receipts: seq<Receipt>) {
    forall i, j :: 0 <= i < j < |receipts| ==> receipts[i].transactionHash != receipts[j].transactionHash
  }

  ghost predicate InPlace(ordered: seq<Receipt>, block: TransactionBlock, i: nat)
    requires i < |ordered| <= |block.transactions|
  {
    Fits(ordered[i], block, i) && Numbered(ordered[i], LogCount(ordered[..i]))
  }

  /** A reordering of the receipts, one for each transaction, whose log indices count up from zero through the block. */
  ghost predicate Ordered(block: TransactionBlock, receipts: seq<Receipt>, ordered: seq<Receipt>) {
    && DistinctHashes(receipts) && |ordered| == |block.transactions| == |receipts|
    && (forall receipt :: receipt in ordered <==> receipt in receipts)
    && forall i :: 0 <= i < |ordered| ==> InPlace(ordered, block, i)
  }

  /** The receipt of a transaction hash; later receipts replace earlier ones. */
  function ByHash(receipts: seq<Receipt>): map<Hash, Receipt> {
    if receipts == [] then map[] else ByHash(receipts[..|receipts| - 1])[Last(receipts).transactionHash := Last(receipts)]
  }

  lemma {:induction false} ByHashMembers(receipts: seq<Receipt>)
    ensures |ByHash(receipts)| <= |receipts|
    ensures forall h :: h in ByHash(receipts) ==> ByHash(receipts)[h] in receipts && ByHash(receipts)[h].transactionHash == h
    ensures forall i :: 0 <= i < |receipts| ==> receipts[i].transactionHash in ByHash(receipts)
    ensures |ByHash(receipts)| == |receipts| <==> DistinctHashes(receipts)
  {
    if receipts != [] {
      var front, last := receipts[..|receipts| - 1], Last(receipts);
      ByHashMembers(front);
      var m, n := ByHash(front), ByHash(receipts);
      assert receipts == front + [last];
      assert n.Keys == m.Keys + {last.transactionHash};
      DistinctSnoc(front, last);
      HashIsKnown(front, last.transactionHash);
    }
  }

  lemma DistinctSnoc(front: seq<Receipt>, last: Receipt)
    ensures DistinctHashes(front + [last]) <==>
              DistinctHashes(front) && forall i :: 0 <= i < |front| ==> front[i].transactionHash != last.transactionHash
  {
    var all := front + [last];
    if DistinctHashes(all) {
      forall i | 0 <= i < |front| ensures front[i].transactionHash != last.transactionHash {
        assert all[i] == front[i] && all[|front|] == last;
      }
      forall i, j | 0 <= i < j < |front| ensures front[i].transactionHash != front[j].transactionHash {
        assert all[i] == front[i] && all[j] == front[j];
      }
    }
  }

  lemma {:induction false} HashIsKnown(receipts: seq<Receipt>, h: Hash)
    ensures h in ByHash(receipts) <==> exists i :: 0 <= i < |receipts| && receipts[i].transactionHash == h
  {
    if receipts != [] {
      var front := receipts[..|receipts| - 1];
      HashIsKnown(front, h);
      if h in ByHash(front) {
        var i :| 0 <= i < |front| && front[i].transactionHash == h;
        assert receipts[i].transactionHash == h;
      }
      assert receipts[|receipts| - 1] == Last(receipts);
    }
  }

  /** An ordering, if there is one, takes each transaction's receipt from the map. */
  lemma OrderingIsForced(block: TransactionBlock, receipts: seq<Receipt>, ordered: seq<Receipt>, i: nat)
    requires Ordered(block, receipts, ordered) && i < |ordered|
    ensures block.transactions[i] in ByHash(receipts) && ByHash(receipts)[block.transactions[i]] == ordered[i]
  {
    ByHashMembers(receipts);
    assert InPlace(ordered, block, i);
    assert ordered[i] in receipts;
    var k :| 0 <= k < |receipts| && receipts[k] == ordered[i];
    var found := ByHash(receipts)[receipts[k].transactionHash];
    var j :| 0 <= j < |receipts| && receipts[j] == found;
  }

  /** The receipts in transaction order exactly when there is such an order. */
  method OrderedReceipts(block: TransactionBlock, receipts: seq<Receipt>) returns (r: Option<seq<Receipt>>)
    ensures r.Some? ==> Ordered(block, receipts, r.value)
    ensures forall ordered :: Ordered(block, receipts, ordered) ==> r == Some(ordered)
  {
    hide Ordered, ByHash, Fits, Numbered, LogCount, DistinctHashes;
    Needs(block, receipts);
    if |receipts| != |block.transactions| { return None; }
    var byHash := ByHash(receipts);
    ByHashMembers(receipts);
    if |byHash| != |receipts| { return None; }
    var ordered: seq<Receipt> := [];
    var nextLogIndex := 0;
    NoLogs();
    forall other | Ordered(block, receipts, other) ensures ordered <= other {
    }
    for index := 0 to |block.transactions|
      invariant |ordered| == index && nextLogIndex == LogCount(ordered)
      invariant forall i :: 0 <= i < index ==> ordered[i] in receipts && InPlace(ordered, block, i)
      invariant forall other :: Ordered(block, receipts, other) ==> ordered <= other
    {
      var hash := block.transactions[index];
      NextForced(block, receipts, ordered, index);
      if hash !in byHash || !Fits(byHash[hash], block, index) || !Numbered(byHash[hash], nextLogIndex) { return None; }
      var receipt := byHash[hash];
      Placed(block, ordered, receipt);
      ordered := ordered + [receipt];
      nextLogIndex := nextLogIndex + |receipt.logs|;
    }
    AllThere(block, receipts, ordered);
    forall other | Ordered(block, receipts, other) ensures other == ordered {
      SameLength(block, receipts, other);
      assert other[..|ordered|] == ordered;
    }
    r := Some(ordered);
  }

  lemma Needs(block: TransactionBlock, receipts: seq<Receipt>)
    ensures forall ordered :: Ordered(block, receipts, ordered) ==> |receipts| == |block.transactions| && DistinctHashes(receipts)
  {
  }

  lemma NoLogs()
    ensures LogCount([]) == 0
  {
  }

  lemma SameLength(block: TransactionBlock, receipts: seq<Receipt>, ordered: seq<Receipt>)
    requires Ordered(block, receipts, ordered)
    ensures |ordered| == |block.transactions|
  {
  }

  lemma NextForced(block: TransactionBlock, receipts: seq<Receipt>, ordered: seq<Receipt>, index: nat)
    requires |ordered| == index < |block.transactions|
    requires forall other :: Ordered(block, receipts, other) ==> ordered <= other
    ensures forall other :: Ordered(block, receipts, other) ==>
              && block.transactions[index] in ByHash(receipts)
              && var receipt := ByHash(receipts)[block.transactions[index]];
                 Fits(receipt, block, index) && Numbered(receipt, LogCount(ordered)) && ordered + [receipt] <= other
  {
    forall other | Ordered(block, receipts, other)
      ensures && block.transactions[index] in ByHash(receipts)
              && var receipt := ByHash(receipts)[block.transactions[index]];
                 Fits(receipt, block, index) && Numbered(receipt, LogCount(ordered)) && ordered + [receipt] <= other
    {
      OrderingIsForced(block, receipts, other, index);
      assert InPlace(other, block, index);
      assert other[..index] == ordered;
    }
  }

  lemma Placed(block: TransactionBlock, ordered: seq<Receipt>, receipt: Receipt)
    requires |ordered| < |block.transactions| && (forall i :: 0 <= i < |ordered| ==> InPlace(ordered, block, i))
    requires Fits(receipt, block, |ordered|) && Numbered(receipt, LogCount(ordered))
    ensures forall i :: 0 <= i <= |ordered| ==> InPlace(ordered + [receipt], block, i)
    ensures LogCount(ordered + [receipt]) == LogCount(ordered) + |receipt.logs|
  {
    hide Fits, Numbered;
    var more := ordered + [receipt];
    assert more[..|ordered|] == ordered;
    forall i | 0 <= i <= |ordered| ensures InPlace(more, block, i) {
      if i < |ordered| {
        assert InPlace(ordered, block, i);
        assert more[..i] == ordered[..i];
      }
    }
  }

  /** As many distinct receipts as there are: all of them. */
  lemma AllThere(block: TransactionBlock, receipts: seq<Receipt>, ordered: seq<Receipt>)
    requires DistinctHashes(receipts) && |ordered| == |block.transactions| == |receipts|
    requires forall i :: 0 <= i < |ordered| ==> ordered[i] in receipts && InPlace(ordered, block, i)
    ensures Ordered(block, receipts, ordered)
  {
    hide Numbered, LogCount;
    forall i, j | 0 <= i < j < |ordered| ensures ordered[i] != ordered[j] {
      assert InPlace(ordered, block, i) && InPlace(ordered, block, j);
    }
    DistinctSetSize(receipts);
    DistinctSetSize(ordered);
    var a, b := Elements(ordered), Elements(receipts);
    forall x | x in a ensures x in b {
    }
    SubsetOfSameSize(a, b);
    forall receipt | receipt in receipts ensures receipt in ordered {
      assert receipt in b;
    }
  }

  function Elements(s: seq<Receipt>): set<Receipt> { set x | x in s }

  lemma {:induction false} DistinctSetSize(s: seq<Receipt>)
    requires forall i, j :: 0 <= i < j < |s| ==> s[i] != s[j]
    ensures |Elements(s)| == |s|
  {
    if s != [] {
      var front := s[..|s| - 1];
      DistinctSetSize(front);
      assert s == front + [Last(s)];
      assert Last(s) !in front;
      assert Elements(s) == Elements(front) + {Last(s)};
    }
  }

  lemma SubsetOfSameSize(a: set<Receipt>, b: set<Receipt>)
    requires a <= b && |a| == |b|
    ensures a == b
  {
    assert b == a + (b - a) && |b| == |a| + |b - a|;
  }
}
