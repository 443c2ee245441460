/**
 The indexer's tables: blocks by hash, and rows by key and block hash.

 They stand for one chain of blocks, each with the rows its transform gave. The checkpoint is the newest block, a
 rollback removes the blocks above a height together with their rows, and the newest blocks are what recovery reads
 first.
 */
module IndexStore {
  import opened Blocks

  datatype Row = Row(key: string, value: int, number: nat, hash: Hash, timestamp: nat)

  type RowKey = (string, Hash)

  datatype Anchor = Anchor(number: nat, hash: Hash)

  datatype Checkpoint = Checkpoint(block: Block, finalized: Option<Anchor>)

  datatype Result = Done | Unavailable | TransformFailed | DuplicateRow | ReorgTooDeep | FinalizedConflict | OutOfFuel

  /** The values of a block: the user's transform of the block's bundle. None when it fails. */
  type Transform = Block -> Option<seq<(string, int)>>

  // ------------------------------------------------------------------------------------------ rows

  ghost predicate DistinctKeys(values: seq<(string, int)>) {
    forall i, j :: 0 <= i < j < |values| ==> values[i].0 != values[j].0
  }

  function RowOf(block: Block, value: (string, int)): Row {
    Row(value.0, value.1, block.number, block.hash, block.timestamp)
  }

  function RowsFor(block: Block, values: seq<(string, int)>): seq<Row> {
    seq(|values|, i requires 0 <= i < |values| => RowOf(block, values[i]))
  }

  /** The block's values, one row each; fails on a key that comes twice. */
  method TransformBlock(block: Block, transform: Transform) returns (r: Result, rows: seq<Row>)
    ensures r == if transform(block).None? then TransformFailed else if DistinctKeys(transform(block).value) then Done else DuplicateRow
    ensures r.Done? ==> rows == RowsFor(block, transform(block).value)
  {
    rows := [];
    if transform(block).None? { return TransformFailed, []; }
    var values := transform(block).value;
    var keys: set<string> := {};
    for i := 0 to |values|
      invariant keys == set j | 0 <= j < i :: values[j].0
      invariant forall j, k :: 0 <= j < k < i ==> values[j].0 != values[k].0
      invariant |rows| == i && forall j :: 0 <= j < i ==> rows[j] == RowOf(block, values[j])
    {
      if values[i].0 in keys { return DuplicateRow, []; }
      keys := keys + {values[i].0};
      rows := rows + [RowOf(block, values[i])];
    }
    assert rows == RowsFor(block, values);
    r := Done;
  }

  function PutRows(stored: map<RowKey, Row>, rows: seq<Row>): map<RowKey, Row> {
    if rows == [] then stored
    else PutRows(stored, rows[..|rows| - 1])[(Last(rows).key, Last(rows).hash) := Last(rows)]
  }

  ghost predicate Transforms(transform: Transform, block: Block) {
    transform(block).Some? && DistinctKeys(transform(block).value)
  }

  ghost predicate AllTransform(transform: Transform, chain: seq<Block>) {
    forall i :: 0 <= i < |chain| ==> Transforms(transform, chain[i])
  }

  /** The rows of a chain: each block's rows, in order. */
  ghost function ChainRows(transform: Transform, chain: seq<Block>): map<RowKey, Row>
    requires AllTransform(transform, chain)
  {
    if chain == [] then map[]
    else PutRows(ChainRows(transform, chain[..|chain| - 1]), RowsFor(Last(chain), transform(Last(chain)).value))
  }

  ghost function ChainBlocks(chain: seq<Block>): map<Hash, Block> {
    if chain == [] then map[] else ChainBlocks(chain[..|chain| - 1])[Last(chain).hash := Last(chain)]
  }

  lemma {:induction false} PutRowsMembers(stored: map<RowKey, Row>, rows: seq<Row>, h: Hash)
    requires forall i :: 0 <= i < |rows| ==> rows[i].hash == h
    ensures forall k: RowKey :: k.1 != h ==> (k in PutRows(stored, rows) <==> k in stored)
    ensures forall k: RowKey :: k.1 != h && k in stored ==> PutRows(stored, rows)[k] == stored[k]
    ensures forall k: RowKey :: k.1 == h && k in PutRows(stored, rows) ==>
              k in stored || exists i :: 0 <= i < |rows| && rows[i].key == k.0 && rows[i] == PutRows(stored, rows)[k]
  {
    if rows != [] {
      var front := rows[..|rows| - 1];
      PutRowsMembers(stored, front, h);
      assert forall i :: 0 <= i < |front| ==> front[i] == rows[i];
    }
  }

  /** A hash identifies a block. */
  ghost predicate Identified(world: Hash -> Block, chain: seq<Block>) {
    forall i :: 0 <= i < |chain| ==> world(chain[i].hash) == chain[i]
  }

  lemma HashesDiffer(world: Hash -> Block, chain: seq<Block>)
    requires Linked(chain) && Identified(world, chain)
    ensures forall i, j :: 0 <= i < j < |chain| ==> chain[i].hash != chain[j].hash
  {
    AllLinkedNumbers(chain);
  }

  function Hashes(chain: seq<Block>): set<Hash> {
    set i | 0 <= i < |chain| :: chain[i].hash
  }

  lemma {:induction false} ChainRowsHashes(transform: Transform, chain: seq<Block>)
    requires AllTransform(transform, chain)
    ensures forall k :: k in ChainRows(transform, chain) ==> k.1 in Hashes(chain)
  {
    if chain != [] {
      var front := chain[..|chain| - 1];
      ChainRowsHashes(transform, front);
      PutRowsMembers(ChainRows(transform, front), RowsFor(Last(chain), transform(Last(chain)).value), Last(chain).hash);
      assert chain[|chain| - 1].hash in Hashes(chain);
      forall h | h in Hashes(front) ensures h in Hashes(chain) {
        var i :| 0 <= i < |front| && front[i].hash == h;
        assert chain[i].hash == h;
      }
    }
  }

  /** Deletes the rows and the blocks of some hashes. */
  function WithoutRows(rows: map<RowKey, Row>, hashes: set<Hash>): map<RowKey, Row> {
    map k | k in rows && k.1 !in hashes :: rows[k]
  }

  /** Taking back the last block's rows leaves those of the chain before it. */
  lemma RowsTakenBack(transform: Transform, world: Hash -> Block, chain: seq<Block>)
    requires chain != [] && AllTransform(transform, chain) && Linked(chain) && Identified(world, chain)
    ensures WithoutRows(ChainRows(transform, chain), {Last(chain).hash}) == ChainRows(transform, chain[..|chain| - 1])
  {
    var front := chain[..|chain| - 1];
    HashesDiffer(world, chain);
    ChainRowsHashes(transform, front);
    FrontHashes(chain);
    LastRowsGone(ChainRows(transform, front), RowsFor(Last(chain), transform(Last(chain)).value), Last(chain).hash);
  }

  lemma FrontHashes(chain: seq<Block>)
    requires chain != [] && forall i, j :: 0 <= i < j < |chain| ==> chain[i].hash != chain[j].hash
    ensures Last(chain).hash !in Hashes(chain[..|chain| - 1])
  {
  }

  lemma LastRowsGone(stored: map<RowKey, Row>, rows: seq<Row>, h: Hash)
    requires (forall i :: 0 <= i < |rows| ==> rows[i].hash == h) && forall k :: k in stored ==> k.1 != h
    ensures WithoutRows(PutRows(stored, rows), {h}) == stored
  {
    hide PutRows;
    PutRowsMembers(stored, rows, h);
  }

  lemma WithoutBoth(rows: map<RowKey, Row>, a: set<Hash>, b: set<Hash>)
    ensures WithoutRows(WithoutRows(rows, a), b) == WithoutRows(rows, a + b)
  {
  }

  lemma {:induction false} RowsCut(transform: Transform, world: Hash -> Block, chain: seq<Block>, n: nat)
    requires n <= |chain| && AllTransform(transform, chain) && Linked(chain) && Identified(world, chain)
    ensures WithoutRows(ChainRows(transform, chain), Hashes(chain[n..])) == ChainRows(transform, chain[..n])
    decreases |chain|
  {
    hide ChainRows;
    if n == |chain| {
      assert chain[..n] == chain && Hashes(chain[n..]) == {};
      assert WithoutRows(ChainRows(transform, chain), {}) == ChainRows(transform, chain);
    } else {
      var front := chain[..|chain| - 1];
      RowsTakenBack(transform, world, chain);
      SliceLinked(chain, 0, |chain| - 1);
      RowsCut(transform, world, front, n);
      WithoutBoth(ChainRows(transform, chain), {Last(chain).hash}, Hashes(front[n..]));
      HashesSnoc(chain, n);
      assert front[..n] == chain[..n];
    }
  }

  lemma HashesSnoc(chain: seq<Block>, n: nat)
    requires n < |chain|
    ensures Hashes(chain[n..]) == {Last(chain).hash} + Hashes(chain[..|chain| - 1][n..])
  {
    var front, tail := chain[..|chain| - 1][n..], chain[n..];
    forall h ensures h in Hashes(tail) <==> h in {Last(chain).hash} + Hashes(front) {
      if h in Hashes(front) {
        var i :| 0 <= i < |front| && front[i].hash == h;
        assert tail[i].hash == h;
      }
      if h == Last(chain).hash { assert tail[|tail| - 1].hash == h; }
      if h in Hashes(tail) && h !in Hashes(front) {
        var i :| 0 <= i < |tail| && tail[i].hash == h;
        assert i < |front| ==> front[i].hash == h;
      }
    }
  }

  lemma {:induction false} BlocksMembers(world: Hash -> Block, chain: seq<Block>)
    requires Identified(world, chain)
    ensures forall h :: h in ChainBlocks(chain) <==> h in Hashes(chain)
    ensures forall h :: h in ChainBlocks(chain) ==> ChainBlocks(chain)[h] == world(h)
  {
    if chain != [] {
      var front := chain[..|chain| - 1];
      BlocksMembers(world, front);
      assert chain[0..] == chain;
      HashesSnoc(chain, 0);
      assert front[0..] == front;
      assert world(chain[|chain| - 1].hash) == Last(chain);
    }
  }

  lemma HashesCut(world: Hash -> Block, chain: seq<Block>, n: nat)
    requires n <= |chain| && Linked(chain) && Identified(world, chain)
    ensures forall h :: h in Hashes(chain[..n]) <==> h in Hashes(chain) && h !in Hashes(chain[n..])
  {
    HashesDiffer(world, chain);
    forall h ensures h in Hashes(chain[..n]) <==> h in Hashes(chain) && h !in Hashes(chain[n..]) {
      if h in Hashes(chain[..n]) {
        var i :| 0 <= i < n && chain[..n][i].hash == h;
        assert chain[i].hash == h;
        forall j | 0 <= j < |chain[n..]| ensures chain[n..][j].hash != h {
          assert chain[n..][j] == chain[n + j];
        }
      }
      if h in Hashes(chain) && h !in Hashes(chain[n..]) {
        var i :| 0 <= i < |chain| && chain[i].hash == h;
        TailHashes(chain, n);
        assert chain[..n][i].hash == h;
      }
    }
  }

  lemma TailHashes(chain: seq<Block>, n: nat)
    requires n <= |chain|
    ensures forall i :: n <= i < |chain| ==> chain[i].hash in Hashes(chain[n..])
  {
    forall i | n <= i < |chain| ensures chain[i].hash in Hashes(chain[n..]) {
      assert chain[n..][i - n] == chain[i];
    }
  }

  lemma BlocksCut(world: Hash -> Block, chain: seq<Block>, n: nat)
    requires n <= |chain| && Linked(chain) && Identified(world, chain)
    ensures ChainBlocks(chain) - Hashes(chain[n..]) == ChainBlocks(chain[..n])
  {
    hide ChainBlocks, Hashes;
    BlocksMembers(world, chain);
    IdentifiedFront(world, chain, n);
    BlocksMembers(world, chain[..n]);
    HashesCut(world, chain, n);
    var left := ChainBlocks(chain) - Hashes(chain[n..]);
    var kept := ChainBlocks(chain[..n]);
    assert forall h :: h in left <==> h in kept;
    assert forall h :: h in left ==> left[h] == kept[h];
    assert left == kept;
  }

  lemma IdentifiedFront(world: Hash -> Block, chain: seq<Block>, n: nat)
    requires n <= |chain| && Identified(world, chain)
    ensures Identified(world, chain[..n])
  {
  }

  /** Row by row: what an index of the chain holds. */
  lemma {:induction false} ChainRowsExact(transform: Transform, world: Hash -> Block, chain: seq<Block>)
    requires AllTransform(transform, chain) && Linked(chain) && Identified(world, chain)
    ensures forall i, j :: 0 <= i < |chain| && 0 <= j < |transform(chain[i]).value| ==>
              var row := RowOf(chain[i], transform(chain[i]).value[j]);
              (row.key, row.hash) in ChainRows(transform, chain) && ChainRows(transform, chain)[(row.key, row.hash)] == row
    ensures forall k :: k in ChainRows(transform, chain) ==> k.1 in Hashes(chain)
  {
    hide RowOf;
    ChainRowsHashes(transform, chain);
    if chain != [] {
      var front, last := chain[..|chain| - 1], Last(chain);
      SliceLinked(chain, 0, |chain| - 1);
      ChainRowsExact(transform, world, front);
      HashesDiffer(world, chain);
      RowsOfHash(last, transform(last).value);
      PutRowsMembers(ChainRows(transform, front), RowsFor(last, transform(last).value), last.hash);
      PutRowsPresent(ChainRows(transform, front), RowsFor(last, transform(last).value));
      forall i, j | 0 <= i < |chain| && 0 <= j < |transform(chain[i]).value|
        ensures var row := RowOf(chain[i], transform(chain[i]).value[j]);
                (row.key, row.hash) in ChainRows(transform, chain) && ChainRows(transform, chain)[(row.key, row.hash)] == row
      {
        RowFields(chain[i], transform(chain[i]).value[j]);
        if i < |front| {
          assert front[i] == chain[i] && chain[i].hash != last.hash;
        } else {
          assert RowsFor(last, transform(last).value)[j] == RowOf(last, transform(last).value[j]);
        }
      }
    }
  }

  lemma RowFields(block: Block, value: (string, int))
    ensures RowOf(block, value).hash == block.hash && RowOf(block, value).key == value.0
  {
  }

  lemma RowsOfHash(block: Block, values: seq<(string, int)>)
    requires DistinctKeys(values)
    ensures var rows := RowsFor(block, values);
            && (forall i :: 0 <= i < |rows| ==> rows[i].hash == block.hash)
            && (forall i, j :: 0 <= i < j < |rows| ==> rows[i].key != rows[j].key)
  {
  }

  lemma {:induction false} PutRowsPresent(stored: map<RowKey, Row>, rows: seq<Row>)
    requires forall i, j :: 0 <= i < j < |rows| ==> rows[i].key != rows[j].key
    ensures forall i :: 0 <= i < |rows| ==>
              (rows[i].key, rows[i].hash) in PutRows(stored, rows) && PutRows(stored, rows)[(rows[i].key, rows[i].hash)] == rows[i]
  {
    if rows != [] {
      PutRowsPresent(stored, rows[..|rows| - 1]);
      assert forall i :: 0 <= i < |rows| - 1 ==> rows[..|rows| - 1][i] == rows[i];
    }
  }
}
