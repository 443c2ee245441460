/**
 What a restart publishes: the batches between two cuts in time are those of the period, and with coverage joining
 their stored neighbours they are all of it.
 */
module ModelRestore {
  import opened Blocks
  import opened Coverage
  import opened ModelTypes
  import opened ModelStore
  import opened Partitions
  import opened ModelCommit
  import opened ModelSafety

  lemma CutOfFront(batches: seq<Batch>, time: nat, k: nat)
    requires batches != [] && IsCut(batches, time, k)
    ensures IsCut(batches[..|batches| - 1], time, if k == |batches| then k - 1 else k)
  {
  }

  /** The batches of a period, in order, are the slice between its two cuts. */
  lemma {:induction false} SliceOfPeriod(m: map<nat, Batch>, start: nat, end: nat, first: nat, last: nat)
    requires InTimeOrder(m) && start <= end
    requires IsCut(Ascending(m), start, first) && IsCut(Ascending(m), end, last) && first <= last
    ensures Ascending(InTime(m, start, end)) == Ascending(m)[first..last]
    decreases |m|
  {
    var part := InTime(m, start, end);
    if m == map[] {
      assert part == map[];
    } else {
      hide *;
      NotEmptyKeys(m);
      var k := MaxKey(m);
      var rest := m - {k};
      assert rest.Keys == m.Keys - {k};
      AscendingMax(m, k);
      var front := Ascending(rest);
      var all := Ascending(m);
      assert all[..|all| - 1] == front;
      CutsAtTop(all, start, end, first, last);
      CutOfFront(all, start, first);
      CutOfFront(all, end, last);
      PeriodStep(m, start, end, k);
      var i := if first == |all| then first - 1 else first;
      var j := if last == |all| then last - 1 else last;
      SliceOfPeriod(rest, start, end, i, j);
      SliceOfFront(front, m[k], first, last);
      if InPeriod(m[k].block, start, end) {
        AscendingMax(part, k);
      }
    }
  }

  lemma SliceOfFront<T>(front: seq<T>, x: T, first: nat, last: nat)
    requires first <= last <= |front| + 1
    ensures var all := front + [x];
            all[first..last] == front[if first == |all| then first - 1 else first..if last == |all| then last - 1 else last]
                                + (if first < last == |all| then [x] else [])
  {
  }

  lemma NotEmptyKeys(m: map<nat, Batch>)
    requires m != map[]
    ensures MaxKey(m) in m && forall j :: j in m ==> j <= MaxKey(m)
  {
  }

  /** Whether the newest batch lies in the period, and where the cuts are in each case. */
  lemma CutsAtTop(all: seq<Batch>, start: nat, end: nat, first: nat, last: nat)
    requires all != [] && IsCut(all, start, first) && IsCut(all, end, last) && first <= last && start <= end
    ensures var t := all[|all| - 1].block.timestamp;
            && (t < start <==> first == |all|) && (t < end <==> last == |all|) && last <= |all|
            && (InPeriod(all[|all| - 1].block, start, end) <==> first < last == |all|)
  {
  }

  lemma PeriodStep(m: map<nat, Batch>, start: nat, end: nat, k: nat)
    requires k in m && forall j :: j in m ==> j <= k
    ensures var rest := m - {k};
            && (InTimeOrder(m) ==> InTimeOrder(rest))
            && if InPeriod(m[k].block, start, end) then
                 && k in InTime(m, start, end) && InTime(m, start, end)[k] == m[k] && InTime(m, start, end) - {k} == InTime(rest, start, end)
                 && forall j :: j in InTime(m, start, end) ==> j <= k
               else InTime(m, start, end) == InTime(rest, start, end)
  {
  }

  lemma {:induction false} StoredByTime(m: map<nat, Batch>)
    requires InTimeOrder(m)
    ensures ByTime(Ascending(m))
    decreases |m|
  {
    if m != map[] {
      hide Ascending;
      var k := MaxKey(m);
      var rest := m - {k};
      assert rest.Keys == m.Keys - {k};
      AscendingMax(m, k);
      StoredByTime(rest);
      var all := Ascending(m);
      forall i, j | 0 <= i <= j < |all| ensures all[i].block.timestamp <= all[j].block.timestamp {
        if i < j == |all| - 1 {
          AscendingMembers(rest, Ascending(rest)[i]);
        }
      }
    }
  }

  /** Every event block of a restorable period is stored. */
  lemma RestorableIsStored(chain: seq<Batch>, s: State, start: nat, end: nat, first: nat, last: nat)
    requires IsChain(chain) && StoredOnChain(chain, s.store.batches) && CoveredStored(chain, s.coverage, s.store.batches)
    requires IsCut(Ascending(s.store.batches), start, first) && IsCut(Ascending(s.store.batches), end, last)
    requires Restorable(Ascending(s.store.batches), s.coverage, first, last)
    ensures forall n :: Eventful(chain, n, start, end) ==> n in s.store.batches
  {
    hide Ascending, IsCut, Spans, Covers, IsChain;
    var stored := Ascending(s.store.batches);
    NeighboursOnChain(chain, s.store.batches, start, end, first, last);
    var low := if first > 0 then stored[first - 1].block.number else 0;
    var after := stored[last].block;
    SpanCovers(s.coverage, low, after.number);
    forall n | Eventful(chain, n, start, end) ensures n in s.store.batches {
      InOrder(chain, after, n);
      if first > 0 { InOrder(chain, stored[first - 1].block, n); }
    }
  }

  /** The restored batches are all of the period's event blocks. */
  lemma RestorableIsExact(chain: seq<Batch>, s: State, start: nat, end: nat, first: nat, last: nat)
    requires IsChain(chain) && StoredOnChain(chain, s.store.batches) && CoveredStored(chain, s.coverage, s.store.batches)
    requires IsCut(Ascending(s.store.batches), start, first) && IsCut(Ascending(s.store.batches), end, last)
    requires first <= last && start <= end && Restorable(Ascending(s.store.batches), s.coverage, first, last)
    ensures Flat(Ascending(s.store.batches)[first..last]) == EventsIn(chain, start, end)
  {
    hide Ascending, IsCut, InTime, Spans, Covers, Flat, EventsIn, IsChain, Restorable;
    OrderOnChain(chain, s.store.batches);
    RestorableLast(Ascending(s.store.batches), s.coverage, first, last);
    SliceOfPeriod(s.store.batches, start, end, first, last);
    var known := InTime(s.store.batches, start, end);
    InTimePart(chain, s.store.batches, start, end);
    RestorableIsStored(chain, s, start, end, first, last);
    forall n | Eventful(chain, n, start, end) ensures n in known {
      assert s.store.batches[n] == chain[n];
    }
    ExactWhenNoneMissing(chain, known, start, end);
  }

  lemma RestorableLast(stored: seq<Batch>, coverage: seq<Range>, first: nat, last: nat)
    requires Restorable(stored, coverage, first, last)
    ensures last < |stored|
  {
  }

  lemma OrderOnChain(chain: seq<Batch>, stored: map<nat, Batch>)
    requires IsChain(chain) && StoredOnChain(chain, stored)
    ensures InTimeOrder(stored)
  {
  }

  lemma InTimePart(chain: seq<Batch>, stored: map<nat, Batch>, start: nat, end: nat)
    requires StoredOnChain(chain, stored)
    ensures PartOf(chain, InTime(stored, start, end), start, end)
    ensures forall n :: n in stored && InPeriod(stored[n].block, start, end) ==> n in InTime(stored, start, end)
  {
  }

  lemma NeighboursOnChain(chain: seq<Batch>, m: map<nat, Batch>, start: nat, end: nat, first: nat, last: nat)
    requires IsChain(chain) && StoredOnChain(chain, m)
    requires IsCut(Ascending(m), start, first) && IsCut(Ascending(m), end, last) && last < |Ascending(m)|
    ensures OnChain(chain, Ascending(m)[last].block) && Ascending(m)[last].block.timestamp >= end
    ensures 0 < first <= |Ascending(m)| ==> OnChain(chain, Ascending(m)[first - 1].block) && Ascending(m)[first - 1].block.timestamp < start
  {
    hide Ascending;
    AscendingMembers(m, Ascending(m)[last]);
    if 0 < first <= |Ascending(m)| {
      AscendingMembers(m, Ascending(m)[first - 1]);
    }
  }

  /** Every row a restart publishes holds exactly its period's events on the chain the store was written from. */
  lemma RestoredRowExact(chain: seq<Batch>, s: State, plan: Plan, progress: Header, slot: Slot, row: Row)
    requires WrittenFrom(chain, s, plan) && Restored(s, plan, progress, slot, row)
    ensures row.projection == slot.0 && row.key == Decimal(slot.1) && row.period == Closed && row.complete
    ensures slot.0 in plan.projections && row.endTime == Some(SlotEnd(plan, slot)) && row.events == EventsIn(chain, slot.1, SlotEnd(plan, slot))
  {
    hide Ascending, IsCut, Restorable, RestoreSlots, Flat, EventsIn, IsChain, WellKept, CoveredStored, StoredOnChain, Decimal;
    var end := slot.1 + plan.projections[slot.0];
    var first: nat, last: nat :| RestoredBetween(s, plan, progress, slot, first, last, row);
    RestorableIsExact(chain, s, slot.1, end, first, last);
  }
}
