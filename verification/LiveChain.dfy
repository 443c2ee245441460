/**
 The shared live chain: a cursor that follows the provider's heads, a window of 128 blocks for finding an ancestor, and
 a cache of loaded blocks. A step is one attempt; the head, loads and hashes are inputs, a missing one a failed request.
 */
module LiveChain {
  import opened Blocks
  import opened OrderedMap

  const WINDOW: nat := 128
  const BURST: nat := 8

  datatype Head = Head(number: nat, hash: Option<Hash>)

  datatype Update = Apply(value: Block) | Revert(from: nat, ancestor: Block)

  datatype State = State(retained: Entries<nat, Block>, ready: map<nat, Block>, cursor: Option<Block>)

  datatype Input = Input(head: Head, loads: map<nat, Block>, headers: map<nat, Hash>)

  /** `Waiting`: no head to act on. `Failed`: the attempt is retried with the next head. */
  datatype Outcome = Waiting | Failed | Emitted(updates: seq<Update>)

  datatype Search = Found(index: nat) | Unavailable | Exhausted

  const INITIAL := State([], map[], None)

  /** A load for a height returns a block of that height. */
  predicate Answers(loads: map<nat, Block>) {
    forall n :: n in loads ==> loads[n].number == n
  }

  predicate Accepts(cursor: Option<Block>, head: Head) {
    && head.hash.Some?
    && (cursor.None? || head.number > cursor.value.number
        || (head.number == cursor.value.number && head.hash.value != cursor.value.hash))
  }

  /** The heights to load: the head's own on a tie or at the start, else up to eight after the cursor. */
  function Wanted(cursor: Option<Block>, head: nat): (ns: seq<nat>) {
    if cursor.None? || head <= cursor.value.number then [head]
    else
      var from := cursor.value.number + 1;
      var through := if head < from + (BURST - 1) then head else from + (BURST - 1);
      seq(through - from + 1, i => from + i)
  }

  function Fill(ready: map<nat, Block>, wanted: seq<nat>, loads: map<nat, Block>): map<nat, Block> {
    map n | n in ready.Keys + loads.Keys && (n in ready || n in wanted) ::
      if n in ready then ready[n] else loads[n]
  }

  predicate AllReady(wanted: seq<nat>, ready: map<nat, Block>) {
    forall i :: 0 <= i < |wanted| ==> wanted[i] in ready
  }

  function Collect(wanted: seq<nat>, ready: map<nat, Block>): seq<Block>
    requires AllReady(wanted, ready)
  {
    seq(|wanted|, i requires 0 <= i < |wanted| => ready[wanted[i]])
  }

  predicate Fits(parent: Option<Block>, child: Block) {
    parent.None? || Follows(parent.value, child)
  }

  /** The first update that does not follow its predecessor; |updates| when all do. */
  function Conflict(parent: Option<Block>, updates: seq<Block>): (k: nat)
    ensures k <= |updates|
    decreases |updates|
  {
    if updates == [] then 0
    else if !Fits(parent, updates[0]) then 0
    else 1 + Conflict(Some(updates[0]), updates[1..])
  }

  /** Newest first: the first retained block whose hash is canonical. */
  function FindAncestor(retained: Entries<nat, Block>, headers: map<nat, Hash>): (r: Search)
    ensures r.Found? ==> r.index < |retained|
  {
    if retained == [] then Exhausted
    else
      var (number, held) := Last(retained);
      if number !in headers then Unavailable
      else if headers[number] == held.hash then Found(|retained| - 1)
      else FindAncestor(retained[..|retained| - 1], headers)
  }

  function PutAll(retained: Entries<nat, Block>, updates: seq<Block>): Entries<nat, Block> {
    if updates == [] then retained
    else
      var front := PutAll(retained, updates[..|updates| - 1]);
      Put(front, Last(updates).number, Last(updates))
  }

  function Applies(updates: seq<Block>): seq<Update> {
    seq(|updates|, i requires 0 <= i < |updates| => Apply(updates[i]))
  }

  function Numbers(updates: seq<Block>): set<nat> {
    set i | 0 <= i < |updates| :: updates[i].number
  }

  /** What a conflict at `value` does once the ancestor search is over. */
  function Resolve(s: State, ready: map<nat, Block>, value: Block, headers: map<nat, Hash>): (State, Outcome) {
    match FindAncestor(s.retained, headers)
    case Unavailable => (s.(ready := ready), Failed)
    case Exhausted => (s.(ready := map[]), Failed)
    case Found(index) =>
      var (number, held) := s.retained[index];
      if s.cursor.Some? && number == s.cursor.value.number && value.number > number then
        (s.(ready := map[]), Failed)
      else
        (State(DropFrom(s.retained, number + 1), map[], Some(held)), Emitted([Revert(number + 1, held)]))
  }

  function Step(s: State, i: Input): (State, Outcome) {
    if !Accepts(s.cursor, i.head) then (s, Waiting)
    else
      var wanted := Wanted(s.cursor, i.head.number);
      var ready := Fill(s.ready, wanted, i.loads);
      if !AllReady(wanted, ready) then (s.(ready := ready), Failed)
      else
        var updates := Collect(wanted, ready);
        if s.cursor.Some? && |updates| == 1 && updates[0].number == s.cursor.value.number
           && updates[0].hash == s.cursor.value.hash then
          (s.(ready := ready - {s.cursor.value.number}), Emitted([]))
        else
          var k := Conflict(s.cursor, updates);
          if k < |updates| then Resolve(s, ready, updates[k], i.headers)
          else (State(Evict(PutAll(s.retained, updates), WINDOW), ready - Numbers(updates), Some(Last(updates))),
                Emitted(Applies(updates)))
  }

  /** The acquisition worker with its three variables, updated in place by every attempt. */
  class Worker {
    var retained: Entries<nat, Block>
    var ready: map<nat, Block>
    var cursor: Option<Block>

    function Abstract(): State
      reads this
    {
      State(retained, ready, cursor)
    }

    constructor ()
      ensures Abstract() == INITIAL
    {
      retained, ready, cursor := [], map[], None;
    }

    method Load(wanted: seq<nat>, loads: map<nat, Block>) returns (complete: bool)
      modifies this`ready
      ensures ready == Fill(old(ready), wanted, loads)
      ensures complete == AllReady(wanted, ready)
    {
      complete := true;
      for k := 0 to |wanted|
        invariant ready == Fill(old(ready), wanted[..k], loads)
        invariant complete == AllReady(wanted[..k], ready)
      {
        assert wanted[..k + 1] == wanted[..k] + [wanted[k]];
        if wanted[k] !in ready {
          if wanted[k] in loads {
            ready := ready[wanted[k] := loads[wanted[k]]];
          } else {
            complete := false;
          }
        }
      }
      assert wanted[..|wanted|] == wanted;
    }

    method Ancestor(headers: map<nat, Hash>) returns (r: Search)
      ensures r == FindAncestor(retained, headers)
    {
      var i := |retained|;
      assert retained[..i] == retained;
      while i > 0
        invariant 0 <= i <= |retained|
        invariant FindAncestor(retained, headers) == FindAncestor(retained[..i], headers)
      {
        i := i - 1;
        var (number, held) := retained[i];
        if number !in headers { return Unavailable; }
        if headers[number] == held.hash { return Found(i); }
        assert retained[..i + 1][..i] == retained[..i];
      }
      r := Exhausted;
    }

    method FirstConflict(updates: seq<Block>) returns (k: nat)
      ensures k == Conflict(cursor, updates)
    {
      var parent := cursor;
      k := 0;
      while k < |updates| && Fits(parent, updates[k])
        invariant k <= |updates|
        invariant Conflict(cursor, updates) == k + Conflict(parent, updates[k..])
      {
        parent, k := Some(updates[k]), k + 1;
        assert updates[k - 1..][1..] == updates[k..];
      }
    }

    /** Rolls back to the retained ancestor of `value`, or fails and drops the loaded blocks. */
    method Recover(value: Block, headers: map<nat, Hash>) returns (outcome: Outcome)
      modifies this
      ensures (Abstract(), outcome) == Resolve(old(Abstract()), old(ready), value, headers)
    {
      var found := Ancestor(headers);
      if found.Unavailable? { return Failed; }
      ready := map[];
      if found.Exhausted? { return Failed; }
      var (number, ancestor) := retained[found.index];
      if cursor.Some? && number == cursor.value.number && value.number > number { return Failed; }
      retained := DropFrom(retained, number + 1);
      cursor := Some(ancestor);
      outcome := Emitted([Revert(number + 1, ancestor)]);
    }

    method Extend(updates: seq<Block>)
      requires updates != []
      modifies this
      ensures retained == Evict(PutAll(old(retained), updates), WINDOW)
      ensures ready == old(ready) - Numbers(updates)
      ensures cursor == Some(Last(updates))
    {
      var k := 0;
      while k < |updates|
        invariant 0 <= k <= |updates|
        invariant retained == PutAll(old(retained), updates[..k])
        invariant ready == old(ready) - Numbers(updates[..k])
        invariant k > 0 ==> cursor == Some(updates[k - 1])
      {
        assert updates[..k + 1][..k] == updates[..k];
        assert Numbers(updates[..k + 1]) == Numbers(updates[..k]) + {updates[k].number};
        retained := Put(retained, updates[k].number, updates[k]);
        ready := ready - {updates[k].number};
        cursor := Some(updates[k]);
        k := k + 1;
      }
      assert updates[..k] == updates;
      ghost var full := retained;
      while |retained| > WINDOW
        invariant Evict(retained, WINDOW) == Evict(full, WINDOW)
        invariant ready == old(ready) - Numbers(updates) && cursor == Some(Last(updates))
      {
        retained := retained[1..];
      }
    }

    method Attempt(input: Input) returns (outcome: Outcome)
      modifies this
      ensures (Abstract(), outcome) == Step(old(Abstract()), input)
    {
      if !Accepts(cursor, input.head) { return Waiting; }
      var wanted := Wanted(cursor, input.head.number);
      var complete := Load(wanted, input.loads);
      if !complete { return Failed; }
      var updates := Collect(wanted, ready);
      if cursor.Some? && |updates| == 1 && updates[0].number == cursor.value.number && updates[0].hash == cursor.value.hash {
        ready := ready - {cursor.value.number};
        return Emitted([]);
      }
      var k := FirstConflict(updates);
      if k < |updates| {
        outcome := Recover(updates[k], input.headers);
      } else {
        Extend(updates);
        outcome := Emitted(Applies(updates));
      }
    }
  }
}
