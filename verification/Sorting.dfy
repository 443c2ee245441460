/**
 The runtime's sort, by a key of up to three integers compared in order.

 It is stable: what compares equal keeps its order. The result is a permutation of the input, and for keys that are
 all different it is the only sorted one, so that a caller may replace it by any sequence it has shown sorted with the
 same members.
 */
module Sorting {
  datatype Key = Key(first: int, second: int, third: int)

  predicate Less(a: Key, b: Key) {
    a.first < b.first || (a.first == b.first && (a.second < b.second || (a.second == b.second && a.third < b.third)))
  }

  ghost predicate Sorted<T>(s: seq<T>, key: T -> Key) {
    forall i, j :: 0 <= i < j < |s| ==> !Less(key(s[j]), key(s[i]))
  }

  ghost predicate StrictlySorted<T>(s: seq<T>, key: T -> Key) {
    forall i, j :: 0 <= i < j < |s| ==> Less(key(s[i]), key(s[j]))
  }

  /** Places a later element after every element that is not greater. */
  function Insert<T>(s: seq<T>, x: T, key: T -> Key): seq<T> {
    if s == [] || !Less(key(x), key(s[|s| - 1])) then s + [x]
    else Insert(s[..|s| - 1], x, key) + [s[|s| - 1]]
  }

  function Sort<T>(s: seq<T>, key: T -> Key): seq<T> {
    if s == [] then [] else Insert(Sort(s[..|s| - 1], key), s[|s| - 1], key)
  }

  lemma {:induction false} InsertKeeps<T>(s: seq<T>, x: T, key: T -> Key)
    ensures multiset(Insert(s, x, key)) == multiset(s) + multiset{x}
    ensures |Insert(s, x, key)| == |s| + 1
    ensures Sorted(s, key) ==> Sorted(Insert(s, x, key), key)
  {
    if s == [] || !Less(key(x), key(s[|s| - 1])) {
    } else {
      var front := s[..|s| - 1];
      InsertKeeps(front, x, key);
      assert s == front + [s[|s| - 1]];
      if Sorted(s, key) {
        var placed := Insert(front, x, key);
        forall i | 0 <= i < |placed| ensures !Less(key(s[|s| - 1]), key(placed[i])) {
          assert placed[i] in multiset(placed);
          assert placed[i] in front || placed[i] == x;
        }
      }
    }
  }

  lemma {:induction false} SortKeeps<T>(s: seq<T>, key: T -> Key)
    ensures multiset(Sort(s, key)) == multiset(s)
    ensures |Sort(s, key)| == |s|
    ensures Sorted(Sort(s, key), key)
  {
    if s != [] {
      var front := s[..|s| - 1];
      SortKeeps(front, key);
      InsertKeeps(Sort(front, key), s[|s| - 1], key);
      assert s == front + [s[|s| - 1]];
    }
  }

  lemma SameElements<T>(s: seq<T>, key: T -> Key)
    ensures forall x :: x in Sort(s, key) <==> x in s
  {
    SortKeeps(s, key);
    forall x ensures x in Sort(s, key) <==> x in s {
      assert x in s <==> x in multiset(s);
      assert x in Sort(s, key) <==> x in multiset(Sort(s, key));
    }
  }

  lemma HeadMember<T>(s: seq<T>)
    ensures s == [] || s[0] in s
  {
  }

  /** Two strictly sorted lists of the same elements are the same list. */
  lemma {:induction false} StrictlySortedUnique<T>(a: seq<T>, b: seq<T>, key: T -> Key)
    requires StrictlySorted(a, key) && StrictlySorted(b, key)
    requires forall x :: x in a <==> x in b
    ensures a == b
    decreases |a|
  {
    if a == [] {
      HeadMember(b);
    } else {
      assert a[0] in b;
      var i :| 0 <= i < |b| && b[i] == a[0];
      assert b[0] in a;
      var j :| 0 <= j < |a| && a[j] == b[0];
      assert i == 0;
      forall x ensures x in a[1..] <==> x in b[1..] {
        TailMembers(a, x, key);
        TailMembers(b, x, key);
      }
      StrictlySortedUnique(a[1..], b[1..], key);
    }
  }

  lemma TailMembers<T>(a: seq<T>, x: T, key: T -> Key)
    requires StrictlySorted(a, key) && a != []
    ensures x in a[1..] <==> x in a && x != a[0]
  {
    if x in a && x != a[0] {
      var k :| 0 <= k < |a| && a[k] == x;
      assert a[1..][k - 1] == x;
    }
  }
}
