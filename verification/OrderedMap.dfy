/**
 A JavaScript Map: entries in insertion order.

 Setting a present key keeps its place; deleting and setting again moves it to the end. Eviction deletes the first key
 until the size fits, so a map filled in ascending order keeps its newest keys, and a map whose keys are moved to the
 end when they are touched keeps the most recently touched ones.
 */
module OrderedMap {
  type Entries<K, V> = seq<(K, V)>

  predicate Has<K(==), V>(m: Entries<K, V>, k: K) {
    exists i :: 0 <= i < |m| && m[i].0 == k
  }

  ghost predicate DistinctKeys<K, V>(m: Entries<K, V>) {
    forall i, j :: 0 <= i < j < |m| ==> m[i].0 != m[j].0
  }

  function Put<K(==), V>(m: Entries<K, V>, k: K, v: V): Entries<K, V> {
    if m == [] then [(k, v)]
    else if m[0].0 == k then [(k, v)] + m[1..]
    else [m[0]] + Put(m[1..], k, v)
  }

  function Delete<K(==), V>(m: Entries<K, V>, k: K): Entries<K, V> {
    if m == [] then []
    else if m[0].0 == k then m[1..]
    else [m[0]] + Delete(m[1..], k)
  }

  function Evict<K, V>(m: Entries<K, V>, size: nat): Entries<K, V> {
    if |m| > size then m[|m| - size..] else m
  }

  /** Deletes every height at or above `from` of a map keyed by height. */
  function DropFrom<V>(m: Entries<nat, V>, from: nat): Entries<nat, V> {
    if m == [] then []
    else if m[0].0 >= from then DropFrom(m[1..], from)
    else [m[0]] + DropFrom(m[1..], from)
  }

  lemma {:induction false} PutFresh<K, V>(m: Entries<K, V>, k: K, v: V)
    requires !Has(m, k)
    ensures Put(m, k, v) == m + [(k, v)]
  {
    if m != [] {
      forall i | 0 <= i < |m[1..]| ensures m[1..][i].0 != k {
        assert m[i + 1].0 != k;
      }
      PutFresh(m[1..], k, v);
      assert m == [m[0]] + m[1..];
    }
  }

  /** On ascending heights the deletion cuts the map at the first height it reaches. */
  lemma {:induction false} DropFromAscending<V>(m: Entries<nat, V>, from: nat, cut: nat)
    requires cut <= |m|
    requires forall i :: 0 <= i < cut ==> m[i].0 < from
    requires forall i :: cut <= i < |m| ==> m[i].0 >= from
    ensures DropFrom(m, from) == m[..cut]
  {
    if m != [] {
      if m[0].0 >= from {
        DropFromAscending(m[1..], from, 0);
      } else {
        DropFromAscending(m[1..], from, cut - 1);
        assert m[..cut] == [m[0]] + m[1..][..cut - 1];
      }
    }
  }

  lemma {:induction false} DropFromConcat<V>(a: Entries<nat, V>, b: Entries<nat, V>, from: nat)
    ensures DropFrom(a + b, from) == DropFrom(a, from) + DropFrom(b, from)
  {
    if a == [] {
      assert a + b == b;
    } else {
      assert (a + b)[1..] == a[1..] + b;
      DropFromConcat(a[1..], b, from);
    }
  }

  lemma DropFromNext<V>(m: Entries<nat, V>, from: nat, i: nat)
    requires i < |m|
    ensures DropFrom(m[..i + 1], from) == DropFrom(m[..i], from) + (if m[i].0 >= from then [] else [m[i]])
  {
    assert m[..i + 1] == m[..i] + [m[i]];
    DropFromConcat(m[..i], [m[i]], from);
    assert DropFrom([m[i]], from) == (if m[i].0 >= from then [] else [m[i]] + DropFrom([], from));
  }

  lemma {:induction false} PutKeys<K, V>(m: Entries<K, V>, k: K, v: V)
    ensures Has(m, k) ==> |Put(m, k, v)| == |m| && forall i :: 0 <= i < |m| ==> Put(m, k, v)[i].0 == m[i].0
    ensures !Has(m, k) ==> Put(m, k, v) == m + [(k, v)]
  {
    if !Has(m, k) {
      PutFresh(m, k, v);
    } else if m[0].0 != k {
      var i :| 0 <= i < |m| && m[i].0 == k;
      assert m[1..][i - 1].0 == k;
      PutKeys(m[1..], k, v);
    }
  }

  lemma PutDistinct<K, V>(m: Entries<K, V>, k: K, v: V)
    requires DistinctKeys(m)
    ensures DistinctKeys(Put(m, k, v))
  {
    PutKeys(m, k, v);
  }

  lemma RemoveKeepsDistinct<K, V>(m: Entries<K, V>, i: nat)
    requires DistinctKeys(m) && i < |m|
    ensures DistinctKeys(m[..i] + m[i + 1..])
  {
  }

  /** Deleting a key takes out its first entry. */
  lemma {:induction false} DeleteAt<K, V>(m: Entries<K, V>, k: K, i: nat)
    requires i < |m| && m[i].0 == k
    requires forall j :: 0 <= j < i ==> m[j].0 != k
    ensures Delete(m, k) == m[..i] + m[i + 1..]
  {
    if i == 0 {
      assert m[..0] + m[1..] == m[1..];
    } else {
      var tail := m[1..];
      forall j | 0 <= j < i - 1 ensures tail[j].0 != k {
        assert m[j + 1].0 != k;
      }
      DeleteAt(tail, k, i - 1);
      assert m[..i] + m[i + 1..] == [m[0]] + (tail[..i - 1] + tail[i..]);
    }
  }

  lemma KeyBefore<K, V>(m: Entries<K, V>, i: nat)
    requires DistinctKeys(m) && i < |m|
    ensures forall j :: 0 <= j < i ==> m[j].0 != m[i].0
  {
  }

  /** One turn of the loop that deletes the keys at or above `from` while it walks the map. */
  lemma DropTurn<V>(m: Entries<nat, V>, from: nat, i: nat)
    requires i < |m|
    requires DistinctKeys(DropFrom(m[..i], from) + m[i..])
    ensures var left := DropFrom(m[..i], from) + m[i..];
            var next := if m[i].0 >= from then Delete(left, m[i].0) else left;
            next == DropFrom(m[..i + 1], from) + m[i + 1..] && DistinctKeys(next)
  {
    hide DropFrom, Delete, DistinctKeys;
    DropFromNext(m, from, i);
    var done := DropFrom(m[..i], from);
    var left := done + m[i..];
    assert left[|done|] == m[i] && left[..|done|] == done && left[|done| + 1..] == m[i + 1..];
    if m[i].0 >= from {
      KeyBefore(left, |done|);
      DeleteAt(left, m[i].0, |done|);
      RemoveKeepsDistinct(left, |done|);
      assert DropFrom(m[..i + 1], from) == done + [] == done;
    } else {
      assert left == (done + [m[i]]) + m[i + 1..];
    }
  }

  lemma DropNothing<V>(m: Entries<nat, V>, from: nat)
    ensures DropFrom(m[..0], from) + m[0..] == m
  {
  }
}
