/**
 Single-flight queries with a cache of completed answers.

 Methods are the atomic steps, between two points where the original may be interrupted; any sequence of calls is a
 run.
 */
module Queries {
  import opened Blocks
  import opened OrderedMap

  type Key = string
  type Value = int

  /** A query is running until its load ends or its last user leaves. */
  datatype Status = Running | Ended | Cancelled

  datatype Query = Query(key: Key, users: nat, status: Status)

  datatype Action = Completed(value: Value) | Join(query: nat) | Start(query: nat)

  // ------------------------------------------------------------------------------------------ the cache

  function Drop(keys: seq<Key>, k: Key): seq<Key> {
    if keys == [] then [] else if keys[0] == k then keys[1..] else [keys[0]] + Drop(keys[1..], k)
  }

  /** The keys touched so far, each once, the latest touched last. */
  function Recency(touches: seq<Key>): seq<Key> {
    if touches == [] then [] else Drop(Recency(touches[..|touches| - 1]), Last(touches)) + [Last(touches)]
  }

  function Keys(m: Entries<Key, Value>): seq<Key> { seq(|m|, i requires 0 <= i < |m| => m[i].0) }

  ghost predicate NoRepeat(keys: seq<Key>) {
    forall i, j :: 0 <= i < j < |keys| ==> keys[i] != keys[j]
  }

  /** The cache holds exactly the most recently touched keys, `capacity` at most. */
  ghost predicate MostRecent(m: Entries<Key, Value>, touches: seq<Key>, capacity: nat) {
    Keys(m) == Newest(Recency(touches), capacity)
  }

  lemma {:induction false} DropAbsent(keys: seq<Key>, k: Key)
    requires k !in keys
    ensures Drop(keys, k) == keys
  {
    if keys != [] {
      DropAbsent(keys[1..], k);
      assert keys == [keys[0]] + keys[1..];
    }
  }

  lemma {:induction false} DropAt(a: seq<Key>, k: Key, b: seq<Key>)
    requires k !in a
    ensures Drop(a + [k] + b, k) == a + b
  {
    var all := a + [k] + b;
    if a == [] {
      assert all[1..] == b && a + b == b;
    } else {
      assert all[1..] == a[1..] + [k] + b;
      DropAt(a[1..], k, b);
      assert [a[0]] + (a[1..] + b) == a + b;
    }
  }

  lemma OnceOnly(keys: seq<Key>, i: nat)
    requires i < |keys| && NoRepeat(keys)
    ensures keys[i] !in keys[..i] && keys[i] !in keys[i + 1..]
  {
  }

  lemma WithoutOne(keys: seq<Key>, i: nat, less: seq<Key>)
    requires i < |keys| && NoRepeat(keys) && less == keys[..i] + keys[i + 1..]
    ensures NoRepeat(less)
  {
    forall x, y | 0 <= x < y < |less| ensures less[x] != less[y] {
      var a, b := if x < i then x else x + 1, if y < i then y else y + 1;
      assert less[x] == keys[a] && less[y] == keys[b];
    }
  }

  /** A key that is there, and there once, splits the keys. */
  lemma SplitAt(keys: seq<Key>, i: nat)
    requires i < |keys| && NoRepeat(keys)
    ensures keys == keys[..i] + [keys[i]] + keys[i + 1..]
    ensures keys[i] !in keys[..i] && keys[i] !in keys[i + 1..] && NoRepeat(keys[..i] + keys[i + 1..])
    ensures Drop(keys, keys[i]) == keys[..i] + keys[i + 1..]
  {
    hide Drop, NoRepeat;
    OnceOnly(keys, i);
    WithoutOne(keys, i, keys[..i] + keys[i + 1..]);
    assert keys == keys[..i] + [keys[i]] + keys[i + 1..];
    DropAt(keys[..i], keys[i], keys[i + 1..]);
  }

  lemma DropSplits(keys: seq<Key>, k: Key)
    requires NoRepeat(keys)
    ensures NoRepeat(Drop(keys, k)) && k !in Drop(keys, k)
    ensures |Drop(keys, k)| == |keys| - (if k in keys then 1 else 0)
  {
    hide Drop, NoRepeat;
    if k in keys {
      var i :| 0 <= i < |keys| && keys[i] == k;
      SplitAt(keys, i);
    } else {
      DropAbsent(keys, k);
    }
  }

  lemma {:induction false} RecencyNoRepeat(touches: seq<Key>)
    ensures NoRepeat(Recency(touches))
  {
    if touches != [] {
      RecencyNoRepeat(touches[..|touches| - 1]);
      DropSplits(Recency(touches[..|touches| - 1]), Last(touches));
    }
  }

  lemma RecencyMore(touches: seq<Key>, k: Key)
    ensures Recency(touches + [k]) == Drop(Recency(touches), k) + [k]
  {
    assert (touches + [k])[..|touches|] == touches;
  }

  lemma TailNoRepeat(front: seq<Key>, tail: seq<Key>)
    requires NoRepeat(front + tail)
    ensures NoRepeat(tail)
  {
    forall i, j | 0 <= i < j < |tail| ensures tail[i] != tail[j] {
      assert (front + tail)[|front| + i] == tail[i] && (front + tail)[|front| + j] == tail[j];
    }
  }

  /** Dropping a key of the tail drops it from the tail; dropping an earlier one leaves the tail. */
  lemma DropTail(front: seq<Key>, tail: seq<Key>, k: Key)
    requires NoRepeat(front + tail)
    ensures k in tail ==> Drop(front + tail, k) == front + Drop(tail, k)
    ensures k !in tail ==> exists rest :: Drop(front + tail, k) == rest + tail
    ensures NoRepeat(tail)
  {
    hide Drop, NoRepeat;
    TailNoRepeat(front, tail);
    if k in tail {
      DropInTail(front, tail, k);
    } else if k in front {
      DropInFront(front, tail, k);
    } else {
      DropAbsent(front + tail, k);
    }
  }

  lemma Regroup(a: seq<Key>, b: seq<Key>, k: Key, c: seq<Key>)
    ensures a + (b + [k] + c) == (a + b) + [k] + c && a + (b + c) == (a + b) + c
    ensures (a + [k] + b) + c == a + [k] + (b + c)
  {
  }

  lemma NotBefore(keys: seq<Key>, a: seq<Key>, k: Key, c: seq<Key>)
    requires NoRepeat(keys) && keys == a + [k] + c
    ensures k !in a
  {
    hide NoRepeat;
    OnceOnly(keys, |a|);
    assert keys[..|a|] == a && keys[|a|] == k;
  }

  lemma DropInTail(front: seq<Key>, tail: seq<Key>, k: Key)
    requires NoRepeat(front + tail) && NoRepeat(tail) && k in tail
    ensures Drop(front + tail, k) == front + Drop(tail, k)
  {
    hide Drop, NoRepeat;
    var j :| 0 <= j < |tail| && tail[j] == k;
    var a, b := tail[..j], tail[j + 1..];
    assert tail == a + [k] + b;
    Regroup(front, a, k, b);
    NotBefore(tail, a, k, b);
    NotBefore(front + tail, front + a, k, b);
    DropAt(a, k, b);
    DropAt(front + a, k, b);
  }

  lemma DropInFront(front: seq<Key>, tail: seq<Key>, k: Key)
    requires NoRepeat(front + tail) && k in front
    ensures exists rest :: Drop(front + tail, k) == rest + tail
  {
    hide Drop, NoRepeat;
    var i :| 0 <= i < |front| && front[i] == k;
    var a, b := front[..i], front[i + 1..];
    assert front == a + [k] + b;
    Regroup(a, b, k, tail);
    NotBefore(front + tail, a, k, b + tail);
    DropAt(a, k, b + tail);
    assert (a + b) + tail == a + (b + tail);
  }

  lemma {:induction false} DeleteKeys(m: Entries<Key, Value>, k: Key)
    ensures Keys(Delete(m, k)) == Drop(Keys(m), k)
  {
    if m != [] {
      assert Keys(m)[1..] == Keys(m[1..]);
      DeleteKeys(m[1..], k);
      assert Keys([m[0]] + Delete(m[1..], k)) == [m[0].0] + Keys(Delete(m[1..], k));
    }
  }

  function Newest(keys: seq<Key>, n: nat): seq<Key> {
    if |keys| > n then keys[|keys| - n..] else keys
  }

  /** Moving a key to the end of a list, seen from the list's newest keys. */
  lemma TouchNewest(recent: seq<Key>, capacity: nat, k: Key)
    requires NoRepeat(recent) && capacity > 0
    ensures Newest(Drop(recent, k) + [k], capacity) == Newest(Drop(Newest(recent, capacity), k) + [k], capacity)
    ensures k in Newest(recent, capacity) ==> |Drop(Newest(recent, capacity), k) + [k]| <= capacity
  {
    hide Drop, NoRepeat;
    var tail := Newest(recent, capacity);
    var front := recent[..|recent| - |tail|];
    assert recent == front + tail;
    DropTail(front, tail, k);
    DropSplits(tail, k);
    if k in tail {
      LastOf(front, Drop(tail, k), k, capacity);
    } else {
      DropAbsent(tail, k);
      if |recent| > capacity {
        var rest :| Drop(recent, k) == rest + tail;
        LastOf(rest, tail, k, capacity);
      }
    }
  }

  lemma LastOf(front: seq<Key>, tail: seq<Key>, k: Key, capacity: nat)
    requires |tail| + 1 >= capacity || front == []
    ensures Newest(front + tail + [k], capacity) == Newest(tail + [k], capacity)
  {
    if front == [] {
      assert front + tail == tail;
    }
  }

  /** Deleting and setting a key again moves it to the end; the oldest key goes when the cache is full. */
  lemma TouchKeeps(m: Entries<Key, Value>, touches: seq<Key>, capacity: nat, k: Key, v: Value)
    requires MostRecent(m, touches, capacity) && capacity > 0
    ensures MostRecent(Evict(Delete(m, k) + [(k, v)], capacity), touches + [k], capacity)
    ensures k in Keys(m) ==> |Delete(m, k) + [(k, v)]| <= capacity
  {
    hide Drop, Recency, Delete, NoRepeat, Newest, Evict;
    RecencyNoRepeat(touches);
    RecencyMore(touches, k);
    DeleteKeys(m, k);
    TouchNewest(Recency(touches), capacity, k);
    var moved := Delete(m, k) + [(k, v)];
    assert Keys(moved) == Keys(Delete(m, k)) + [k];
    EvictKeys(moved, capacity);
  }

  lemma EvictKeys(m: Entries<Key, Value>, capacity: nat)
    ensures Keys(Evict(m, capacity)) == Newest(Keys(m), capacity)
  {
  }

  // ------------------------------------------------------------------------------------------ single flight

  /** The callers that wait on a query. */
  ghost function WaitersOf(waiting: map<nat, nat>, q: nat): set<nat> {
    set w | w in waiting && waiting[w] == q
  }

  /** Each query's users are its live waiters; it runs exactly while it is the one in flight for its key. */
  ghost predicate Flights(inFlight: map<Key, nat>, queries: map<nat, Query>, waiting: map<nat, nat>) {
    && (forall w :: w in waiting ==> waiting[w] in queries)
    && (forall k :: k in inFlight ==> inFlight[k] in queries && queries[inFlight[k]].key == k)
    && (forall q :: q in queries ==> QueryHolds(inFlight, queries, waiting, q))
  }

  ghost predicate QueryHolds(inFlight: map<Key, nat>, queries: map<nat, Query>, waiting: map<nat, nat>, q: nat)
    requires q in queries
  {
    var query := queries[q];
    && query.users == |WaitersOf(waiting, q)|
    && (query.status.Running? <==> query.key in inFlight && inFlight[query.key] == q)
    && (query.status.Running? ==> query.users > 0)
    && (query.status.Cancelled? ==> query.users == 0)
  }

  lemma WaiterComes(waiting: map<nat, nat>, w: nat, q: nat)
    requires w !in waiting
    ensures |WaitersOf(waiting[w := q], q)| == |WaitersOf(waiting, q)| + 1
    ensures forall p :: p != q ==> WaitersOf(waiting[w := q], p) == WaitersOf(waiting, p)
  {
    assert WaitersOf(waiting[w := q], q) == WaitersOf(waiting, q) + {w};
  }

  lemma WaiterGoes(waiting: map<nat, nat>, w: nat)
    requires w in waiting
    ensures |WaitersOf(waiting - {w}, waiting[w])| == |WaitersOf(waiting, waiting[w])| - 1
    ensures forall p :: p != waiting[w] ==> WaitersOf(waiting - {w}, p) == WaitersOf(waiting, p)
  {
    assert WaitersOf(waiting - {w}, waiting[w]) == WaitersOf(waiting, waiting[w]) - {w};
  }

  /** Each cached answer was loaded for its key. */
  ghost predicate FromLoads(m: Entries<Key, Value>, loaded: map<Key, Value>) {
    forall e :: e in m ==> e.0 in loaded && loaded[e.0] == e.1
  }

  class Coordinator {
    const capacity: nat
    var inFlight: map<Key, nat>
    var completed: Entries<Key, Value>
    var queries: map<nat, Query>
    var nextQuery: nat
    ghost var waiting: map<nat, nat>
    ghost var touches: seq<Key>
    ghost var loaded: map<Key, Value>

    constructor (capacity: nat)
      ensures Valid() && queries == map[] && touches == [] && this.capacity == capacity
    {
      this.capacity := capacity;
      inFlight, completed, queries, nextQuery := map[], [], map[], 0;
      waiting, touches, loaded := map[], [], map[];
    }

    /** The cache holds the most recently touched keys, each with the value last loaded for it. */
    ghost predicate Valid()
      reads this
    {
      && Flights(inFlight, queries, waiting) && (forall q :: q in queries ==> q < nextQuery)
      && MostRecent(completed, touches, capacity) && (capacity == 0 ==> touches == [])
      && FromLoads(completed, loaded)
    }

    /** A caller asks for a key: a cached answer, the query in flight, or a new one. `w` is the caller. */
    method Get(key: Key, ghost w: nat) returns (action: Action)
      requires Valid() && w !in waiting
      modifies this
      ensures Valid() && loaded == old(loaded)
      ensures action.Completed? <==> key in Keys(old(completed))
      ensures action.Completed? ==> key in loaded && action.value == loaded[key] && touches == old(touches) + [key]
                                    && inFlight == old(inFlight) && waiting == old(waiting)
      ensures action.Join? ==> key in old(inFlight) && action.query == old(inFlight)[key] && waiting == old(waiting)[w := action.query]
                               && inFlight == old(inFlight) && completed == old(completed)
      ensures action.Start? ==> key !in old(inFlight) && action.query !in old(queries) && waiting == old(waiting)[w := action.query]
                                && inFlight == old(inFlight)[key := action.query] && completed == old(completed)
    {
      hide Flights, MostRecent, Delete, FromLoads, Evict, Keys;
      var i := FindKey(completed, key);
      if i < |completed| {
        var value := completed[i].1;
        CachedMeansCapacity(completed, touches, capacity);
        TouchKeeps(completed, touches, capacity, key, value);
        EvictNone(Delete(completed, key) + [(key, value)], capacity);
        Moved(completed, i, loaded);
        completed := Delete(completed, key) + [(key, value)];
        touches := touches + [key];
        return Completed(value);
      }
      if key in inFlight {
        var running := inFlight[key];
        Joins(inFlight, queries, waiting, key, w);
        queries := queries[running := queries[running].(users := queries[running].users + 1)];
        waiting := waiting[w := running];
        return Join(running);
      }
      var candidate := nextQuery;
      Starts(inFlight, queries, waiting, key, w, candidate);
      nextQuery := nextQuery + 1;
      queries := queries[candidate := Query(key, 1, Running)];
      inFlight := inFlight[key := candidate];
      waiting := waiting[w := candidate];
      action := Start(candidate);
    }

    /** A load that ended well stores its answer, before the query is taken out of flight. */
    method Store(q: nat, value: Value)
      requires Valid() && q in queries && !queries[q].status.Ended?
      modifies this`completed, this`touches, this`loaded
      ensures Valid()
      ensures touches == if capacity == 0 then old(touches) else old(touches) + [queries[q].key]
      ensures loaded == if capacity == 0 then old(loaded) else old(loaded)[queries[q].key := value]
    {
      hide Flights, MostRecent, Delete, Evict, FromLoads;
      if capacity == 0 { return; }
      var key := queries[q].key;
      TouchKeeps(completed, touches, capacity, key, value);
      Stored(completed, touches, capacity, key, value, loaded);
      completed := Delete(completed, key) + [(key, value)];
      ghost var full := completed;
      while |completed| > capacity
        invariant Evict(completed, capacity) == Evict(full, capacity)
        invariant unchanged(`touches) && unchanged(`loaded)
      {
        EvictOne(completed, capacity);
        completed := completed[1..];
      }
      EvictNone(completed, capacity);
      touches := touches + [key];
      loaded := loaded[key := value];
    }

    /** The load of a query ends. The query leaves its place only if the place is still its own. */
    method End(q: nat)
      requires Valid() && q in queries && !queries[q].status.Ended?
      modifies this`inFlight, this`queries
      ensures Valid() && q in queries && queries[q].status == Ended && queries[q].users == old(queries)[q].users
      ensures forall k :: k in old(inFlight) && old(inFlight)[k] != q ==> k in inFlight && inFlight[k] == old(inFlight)[k]
      ensures forall k :: k in inFlight ==> k in old(inFlight) && inFlight[k] != q
    {
      hide Flights, MostRecent, FromLoads, WaitersOf;
      Ends(inFlight, queries, waiting, q);
      var key := queries[q].key;
      if key in inFlight && inFlight[key] == q { inFlight := inFlight - {key}; }
      queries := queries[q := queries[q].(status := Ended)];
    }

    /** A caller stops waiting, with its answer or without. The last one takes the query out of flight and cancels it. */
    method Leave(w: nat, q: nat) returns (cancelled: bool)
      requires Valid() && w in waiting && waiting[w] == q && q in queries
      modifies this`inFlight, this`queries, this`waiting
      ensures Valid() && waiting == old(waiting) - {w} && q in queries
      ensures cancelled <==> old(queries)[q].status.Running? && WaitersOf(old(waiting), q) == {w}
      ensures cancelled ==> queries[q].status == Cancelled && inFlight == old(inFlight) - {old(queries)[q].key}
      ensures !cancelled ==> inFlight == old(inFlight) && queries[q].status == old(queries)[q].status
    {
      hide Flights, MostRecent, FromLoads, WaitersOf;
      Waits(inFlight, queries, waiting, w);
      LastWaiter(waiting, w);
      var left := queries[q].users - 1;
      var key := queries[q].key;
      cancelled := left == 0 && key in inFlight && inFlight[key] == q;
      Goes(inFlight, queries, waiting, w, cancelled);
      if cancelled { inFlight := inFlight - {key}; }
      queries := queries[q := queries[q].(users := left, status := if cancelled then Cancelled else queries[q].status)];
      waiting := waiting - {w};
    }

    /** Single flight: no two running queries have the same key. */
    lemma OneFlight(p: nat, q: nat)
      requires Valid() && p in queries && q in queries && queries[p].status.Running? && queries[q].status.Running?
      requires queries[p].key == queries[q].key
      ensures p == q
    {
      assert QueryHolds(inFlight, queries, waiting, p) && QueryHolds(inFlight, queries, waiting, q);
    }
  }

  method FindKey(m: Entries<Key, Value>, key: Key) returns (i: nat)
    ensures i <= |m| && (i < |m| ==> m[i].0 == key) && (i == |m| ==> key !in Keys(m)) && (i < |m| ==> key in Keys(m))
  {
    i := 0;
    while i < |m| && m[i].0 != key
      invariant i <= |m| && forall j :: 0 <= j < i ==> m[j].0 != key
    {
      i := i + 1;
    }
    if i < |m| { assert Keys(m)[i] == key; }
  }

  lemma CachedMeansCapacity(m: Entries<Key, Value>, touches: seq<Key>, capacity: nat)
    requires MostRecent(m, touches, capacity) && m != []
    ensures capacity > 0
  {
    assert |Keys(m)| == |m|;
  }

  lemma {:induction false} DeleteMembers(m: Entries<Key, Value>, key: Key)
    ensures forall e :: e in Delete(m, key) ==> e in m
    ensures NoRepeat(Keys(m)) ==> forall e :: e in Delete(m, key) ==> e.0 != key
  {
    if m != [] {
      assert m == [m[0]] + m[1..];
      assert Keys(m) == [m[0].0] + Keys(m[1..]);
      DeleteMembers(m[1..], key);
      if NoRepeat(Keys(m)) {
        TailNoRepeat([m[0].0], Keys(m[1..]));
        if m[0].0 == key {
          forall e | e in m[1..] ensures e.0 != key {
            var i :| 0 <= i < |m[1..]| && m[1..][i] == e;
            assert Keys(m)[i + 1] == e.0 && Keys(m)[0] == key;
          }
        }
      }
    }
  }

  lemma Moved(m: Entries<Key, Value>, i: nat, loaded: map<Key, Value>)
    requires FromLoads(m, loaded) && i < |m|
    ensures FromLoads(Delete(m, m[i].0) + [(m[i].0, m[i].1)], loaded) && m[i].0 in loaded && loaded[m[i].0] == m[i].1
  {
    hide Delete;
    assert m[i] in m;
    DeleteMembers(m, m[i].0);
  }

  lemma NewestNoRepeat(keys: seq<Key>, n: nat)
    requires NoRepeat(keys)
    ensures NoRepeat(Newest(keys, n))
  {
    if |keys| > n {
      assert keys == keys[..|keys| - n] + keys[|keys| - n..];
      TailNoRepeat(keys[..|keys| - n], keys[|keys| - n..]);
    }
  }

  lemma Stored(m: Entries<Key, Value>, touches: seq<Key>, capacity: nat, key: Key, value: Value, loaded: map<Key, Value>)
    requires MostRecent(m, touches, capacity) && FromLoads(m, loaded)
    ensures FromLoads(Evict(Delete(m, key) + [(key, value)], capacity), loaded[key := value])
  {
    hide Delete, NoRepeat, Newest, Recency;
    RecencyNoRepeat(touches);
    NewestNoRepeat(Recency(touches), capacity);
    DeleteMembers(m, key);
    var moved := Delete(m, key) + [(key, value)];
    assert forall e :: e in Evict(moved, capacity) ==> e in moved;
  }

  lemma EvictOne(m: Entries<Key, Value>, capacity: nat)
    requires |m| > capacity
    ensures Evict(m[1..], capacity) == Evict(m, capacity)
  {
  }

  lemma EvictNone(m: Entries<Key, Value>, capacity: nat)
    ensures |m| <= capacity ==> Evict(m, capacity) == m
  {
  }

  lemma Joins(inFlight: map<Key, nat>, queries: map<nat, Query>, waiting: map<nat, nat>, key: Key, w: nat)
    requires Flights(inFlight, queries, waiting) && key in inFlight && w !in waiting
    ensures var q := inFlight[key];
            q in queries && Flights(inFlight, queries[q := queries[q].(users := queries[q].users + 1)], waiting[w := q])
  {
    hide WaitersOf;
    var q := inFlight[key];
    WaiterComes(waiting, w, q);
    var more := queries[q := queries[q].(users := queries[q].users + 1)];
    forall p | p in more ensures QueryHolds(inFlight, more, waiting[w := q], p) {
      assert QueryHolds(inFlight, queries, waiting, p);
    }
  }

  lemma NoWaiters(queries: map<nat, Query>, waiting: map<nat, nat>, q: nat)
    requires q !in queries && forall w :: w in waiting ==> waiting[w] in queries
    ensures WaitersOf(waiting, q) == {}
  {
  }

  lemma Starts(inFlight: map<Key, nat>, queries: map<nat, Query>, waiting: map<nat, nat>, key: Key, w: nat, q: nat)
    requires Flights(inFlight, queries, waiting) && key !in inFlight && w !in waiting && q !in queries
    ensures Flights(inFlight[key := q], queries[q := Query(key, 1, Running)], waiting[w := q])
  {
    hide WaitersOf;
    NoWaiters(queries, waiting, q);
    WaiterComes(waiting, w, q);
    var more := queries[q := Query(key, 1, Running)];
    forall p | p in more ensures QueryHolds(inFlight[key := q], more, waiting[w := q], p) {
      if p != q {
        assert QueryHolds(inFlight, queries, waiting, p);
      }
    }
  }

  lemma Ends(inFlight: map<Key, nat>, queries: map<nat, Query>, waiting: map<nat, nat>, q: nat)
    requires Flights(inFlight, queries, waiting) && q in queries
    ensures var key := queries[q].key;
            && (forall k :: k in inFlight && inFlight[k] == q ==> k == key)
            && Flights(if key in inFlight && inFlight[key] == q then inFlight - {key} else inFlight,
                       queries[q := queries[q].(status := Ended)], waiting)
  {
    hide WaitersOf;
    var key := queries[q].key;
    var next := if key in inFlight && inFlight[key] == q then inFlight - {key} else inFlight;
    var less := queries[q := queries[q].(status := Ended)];
    assert QueryHolds(inFlight, queries, waiting, q);
    forall p | p in less ensures QueryHolds(next, less, waiting, p) {
      assert QueryHolds(inFlight, queries, waiting, p);
    }
  }

  lemma Waits(inFlight: map<Key, nat>, queries: map<nat, Query>, waiting: map<nat, nat>, w: nat)
    requires Flights(inFlight, queries, waiting) && w in waiting
    ensures waiting[w] in queries && QueryHolds(inFlight, queries, waiting, waiting[w])
    ensures queries[waiting[w]].users == |WaitersOf(waiting, waiting[w])|
  {
    hide WaitersOf;
  }

  lemma LastWaiter(waiting: map<nat, nat>, w: nat)
    requires w in waiting
    ensures var waiters := WaitersOf(waiting, waiting[w]); |waiters| >= 1 && (|waiters| == 1 <==> waiters == {w})
  {
    var waiters := WaitersOf(waiting, waiting[w]);
    assert w in waiters && waiters == {w} + (waiters - {w});
    if |waiters| == 1 {
      assert |waiters - {w}| == 0;
    }
  }

  lemma Goes(inFlight: map<Key, nat>, queries: map<nat, Query>, waiting: map<nat, nat>, w: nat, cancelled: bool)
    requires Flights(inFlight, queries, waiting) && w in waiting && waiting[w] in queries && queries[waiting[w]].users >= 1
    requires var query := queries[waiting[w]];
             cancelled <==> query.users == 1 && query.key in inFlight && inFlight[query.key] == waiting[w]
    ensures var q := waiting[w];
            Flights(if cancelled then inFlight - {queries[q].key} else inFlight,
                    queries[q := queries[q].(users := queries[q].users - 1, status := if cancelled then Cancelled else queries[q].status)],
                    waiting - {w})
  {
    hide WaitersOf;
    var q := waiting[w];
    WaiterGoes(waiting, w);
    var next := if cancelled then inFlight - {queries[q].key} else inFlight;
    var less := queries[q := queries[q].(users := queries[q].users - 1, status := if cancelled then Cancelled else queries[q].status)];
    forall p | p in less ensures QueryHolds(next, less, waiting - {w}, p) {
      assert QueryHolds(inFlight, queries, waiting, p);
    }
  }
}
