/**
 Recovery of the model after a reorg: the search for a stored block that is still canonical, the ancestor that the live
 chain reports and the model takes on trust, and when the state that is left follows the new chain.
 */
module ModelRecovery {
  import opened Blocks
  import opened Coverage
  import opened ModelTypes
  import opened ModelStore
  import opened Partitions
  import opened Branches
  import opened ModelCommit
  import opened ModelSafety

  const RECENT: nat := 128

  datatype Search = Ancestor(block: Header) | NothingRecent | TooDeep | Unavailable

  function Floor0(ceiling: nat): nat { if ceiling > RECENT then ceiling - RECENT else 0 }

  /** Stored in the window that recovery looks at. */
  predicate Recent(stored: map<nat, Batch>, ceiling: nat, n: nat) {
    n in stored && Floor0(ceiling) <= n <= ceiling
  }

  /** A stored block that recovery compares and finds canonical. */
  predicate StillCanonical(stored: map<nat, Batch>, latest: nat, hashes: map<nat, Hash>, n: nat) {
    n in stored && n <= latest && n in hashes && hashes[n] == stored[n].block.hash
  }

  /** What the search answers: the highest recent block that is still canonical, or why there is none. */
  ghost predicate Searched(stored: map<nat, Batch>, ceiling: nat, latest: nat, hashes: map<nat, Hash>, r: Search) {
    && (r.Ancestor? ==> var n := r.block.number;
          && Recent(stored, ceiling, n) && stored[n].block == r.block && StillCanonical(stored, latest, hashes, n)
          && forall m: nat :: Recent(stored, ceiling, m) && m > n && m <= latest ==> !StillCanonical(stored, latest, hashes, m))
    && (r.NothingRecent? <==> forall n: nat :: !Recent(stored, ceiling, n))
    && (r.TooDeep? ==> forall n: nat :: Recent(stored, ceiling, n) ==> !StillCanonical(stored, latest, hashes, n))
    && (r.Unavailable? ==> exists n: nat :: Recent(stored, ceiling, n) && n <= latest && n !in hashes)
  }

  /** `hashes` are the canonical hashes that can be read; a read that fails fails the search. */
  method FindAncestor(stored: map<nat, Batch>, ceiling: nat, latest: nat, hashes: map<nat, Hash>) returns (r: Search)
    requires forall n :: n in stored ==> stored[n].block.number == n
    ensures Searched(stored, ceiling, latest, hashes, r)
  {
    var any := false;
    var n: int := ceiling;
    while n >= Floor0(ceiling)
      invariant n <= ceiling && n >= Floor0(ceiling) - 1
      invariant any <==> exists m: nat :: Recent(stored, ceiling, m) && m > n
      invariant forall m: nat :: Recent(stored, ceiling, m) && m > n ==> !StillCanonical(stored, latest, hashes, m)
      decreases n
    {
      if n in stored {
        assert Recent(stored, ceiling, n);
        any := true;
        if n <= latest {
          if n !in hashes { return Unavailable; }
          if hashes[n] == stored[n].block.hash { return Ancestor(stored[n].block); }
        }
      }
      n := n - 1;
    }
    r := if any then TooDeep else NothingRecent;
  }

  /** Where the cut is made: above the ancestor, or everything when nothing recent is stored. */
  function CutAt(r: Search): nat { if r.Ancestor? then r.block.number + 1 else 0 }

  /**
   Recovery step by step. A reported ancestor is taken as it is; otherwise `head` is what the read of the newest block
   gives (None when it fails), and the ancestor is searched from the conflict, the applied block or the head down.
   */
  method Recover(model: Model, conflictAt: Option<nat>, reported: Option<Header>, head: Option<Header>, hashes: map<nat, Hash>)
      returns (r: Search, ghost forkTime: nat)
    requires forall n :: n in model.state.store.batches ==> model.state.store.batches[n].block.number == n
    modifies model
    ensures reported.Some? ==> r == Ancestor(reported.value)
    ensures reported.None? && head.None? ==> r.Unavailable?
    ensures reported.None? && head.Some? ==>
              Searched(old(model.state).store.batches, Ceiling(old(model.state), conflictAt, head.value), head.value.number, hashes, r)
    ensures r.TooDeep? || r.Unavailable? ==> model.state == old(model.state)
    ensures r.Ancestor? || r.NothingRecent? ==>
              && IsForkTime(old(model.state).store.batches, CutAt(r), forkTime)
              && model.state == Reorganized(old(model.state), CutAt(r), forkTime, if reported.Some? then reported.value else head.value)
  {
    hide IsForkTime, Searched, Below, Surviving;
    forkTime := 0;
    var latest := Either(reported, head);
    if latest.None? { return Unavailable, forkTime; }
    if reported.Some? {
      r := Ancestor(reported.value);
    } else {
      r := FindAncestor(model.state.store.batches, Ceiling(model.state, conflictAt, latest.value), latest.value.number, hashes);
      if r.TooDeep? || r.Unavailable? { return; }
    }
    model.state := model.state.(revision := model.state.revision + 1);
    var time := ForkTimeOf(model.state.store.batches, CutAt(r));
    forkTime := time;
    model.state := model.state.(store := Invalidated(model.state.store, CutAt(r), time));
    model.state := model.state.(coverage := model.state.store.coverage);
    model.state := model.state.(cache := map[], completed := {});
    model.state := model.state.(liveFrom := map[], liveBoundary := map[]);
    model.state := model.state.(applied := latest);
  }

  function Ceiling(s: State, conflictAt: Option<nat>, latest: Header): nat {
    if conflictAt.Some? then conflictAt.value else if s.applied.Some? then s.applied.value.number else latest.number
  }

  // ------------------------------------------------------------------------------------------ what a cut leaves

  /** What is stored and covered below the cut is the new chain's. */
  ghost predicate KeptOn(after: seq<Batch>, s: State, from: nat) {
    && (forall n :: n in s.store.batches && n < from ==> n < |after| && after[n] == s.store.batches[n])
    && (forall n :: Covers(s.coverage, n) && n < from ==> 0 <= n < |after| && (after[n].events != [] ==> n in s.store.batches))
  }

  /** Nothing is remembered beside the store, and the applied block is on the chain. */
  ghost predicate Bare(chain: seq<Batch>, s: State) {
    s.cache == map[] && s.liveFrom == map[] && s.liveBoundary == map[] && s.coverage == s.store.coverage && MaybeOnChain(chain, s.applied)
  }

  /** A state that remembers nothing tracks a chain exactly when its store fits the chain. */
  lemma BareTracks(after: seq<Batch>, s: State, plan: Plan)
    requires IsChain(after) && ValidPlan(plan) && WellKept(s.store) && Bare(after, s) && OriginQuiet(after, s, plan)
    ensures Tracks(after, s, plan) <==> StoredOnChain(after, s.store.batches) && CoveredStored(after, s.coverage, s.store.batches)
  {
    hide Covers, Normal, IsChain, CoveredStored, StoredOnChain;
  }

  lemma StoredInTimeOrder(chain: seq<Batch>, batches: map<nat, Batch>)
    requires IsChain(chain) && StoredOnChain(chain, batches)
    ensures InTimeOrder(batches)
  {
  }

  /** After a cut the state tracks the new chain exactly when all that was kept is the new chain's. */
  lemma CutTracks(chain: seq<Batch>, s: State, plan: Plan, from: nat, forkTime: nat, after: seq<Batch>, next: State)
    requires WrittenFrom(chain, s, plan) && IsForkTime(s.store.batches, from, forkTime)
    requires IsChain(after) && OriginQuiet(after, next, plan) && next.store == Invalidated(s.store, from, forkTime) && Bare(after, next)
    ensures Tracks(after, next, plan) <==> KeptOn(after, s, from)
    ensures WellKept(next.store)
  {
    hide Covers, Normal, IsForkTime, Below, Surviving, OriginQuiet, Bare, IsChain, Tracks;
    StoredInTimeOrder(chain, s.store.batches);
    InvalidateKeeps(s.store, from, forkTime);
    BareFacts(after, next);
    BareTracks(after, next, plan);
  }

  lemma BareFacts(after: seq<Batch>, s: State)
    requires Bare(after, s)
    ensures s.coverage == s.store.coverage
  {
  }

  lemma SharedIsKept(chain: seq<Batch>, s: State, plan: Plan, from: nat, after: seq<Batch>)
    requires WrittenFrom(chain, s, plan) && SameBelow(chain, after, from)
    ensures KeptOn(after, s, from)
  {
    hide Covers, IsChain, WellKept;
  }

  // ------------------------------------------------------------------------------------------ a searched ancestor

  /** The canonical hashes read during the search are those of the new chain. */
  ghost predicate ReadsOf(after: seq<Batch>, hashes: map<nat, Hash>) {
    forall n :: n in hashes ==> n < |after| && hashes[n] == after[n].block.hash
  }

  /** The searched ancestor is on both chains, and so is everything below it. */
  lemma SearchedIsShared(chain: seq<Batch>, s: State, plan: Plan, after: seq<Batch>, latest: nat, hashes: map<nat, Hash>, ceiling: nat, r: Search)
    requires WrittenFrom(chain, s, plan) && Branch(chain, after) && ReadsOf(after, hashes)
    requires Searched(s.store.batches, ceiling, latest, hashes, r) && (r.Ancestor? || r.NothingRecent?)
    ensures SameBelow(chain, after, CutAt(r))
  {
    hide IsChain, WellKept, CoveredStored, Recent, HashLinked, OneBlockPerHash;
    if r.Ancestor? {
      SharedBelow(chain, after, r.block.number);
    }
  }

  /**
   Whatever the search answers short of failing, the state that is left tracks the chain that is canonical now: every
   block it kept is on that chain.
   */
  lemma RecoveryRejoins(chain: seq<Batch>, s: State, plan: Plan, after: seq<Batch>, latest: Header, forkTime: nat, hashes: map<nat, Hash>,
                        ceiling: nat, r: Search)
    requires Agrees(chain, s, plan) && Branch(chain, after) && ReadsOf(after, hashes) && OnChain(after, latest) && OriginQuiet(after, s, plan)
    requires Searched(s.store.batches, ceiling, latest.number, hashes, r) && (r.Ancestor? || r.NothingRecent?)
    requires IsForkTime(s.store.batches, CutAt(r), forkTime)
    ensures Tracks(after, Reorganized(s, CutAt(r), forkTime, latest), plan)
  {
    hide IsForkTime, CoveredStored, CacheSound, WellKept, BoundariesOnChain, Searched, Invalidated, Branch, ReadsOf, StoredOnChain, Tracks,
      KeptOn, SameBelow;
    SearchedIsShared(chain, s, plan, after, latest.number, hashes, ceiling, r);
    SharedIsKept(chain, s, plan, CutAt(r), after);
    assert IsChain(after) by { BranchParts(chain, after); }
    CutTracks(chain, s, plan, CutAt(r), forkTime, after, Reorganized(s, CutAt(r), forkTime, latest));
  }

  lemma BranchParts(chain: seq<Batch>, after: seq<Batch>)
    requires Branch(chain, after)
    ensures IsChain(chain) && IsChain(after) && HashLinked(chain) && HashLinked(after)
  {
  }

  // ------------------------------------------------------------------------------------------ a reported ancestor

  /** Every header the model has in hand. */
  ghost function KnownHeaders(s: State): set<Header> {
    (set n | n in s.store.batches :: s.store.batches[n].block)
    + (if s.applied.Some? then {s.applied.value} else {})
    + (set name | name in s.liveBoundary :: s.liveBoundary[name])
    + (set slot, n | slot in s.cache && n in s.cache[slot] :: s.cache[slot][n].block)
  }

  predicate BeforeTheOrigin(s: State, plan: Plan, n: int) {
    plan.fromOrigin && s.origin.Some? && n < s.origin.value
  }

  /** Something would be kept at this height that another chain may not have. */
  ghost predicate AtRisk(s: State, plan: Plan, n: int) {
    Covers(s.coverage, n) && (n in s.store.batches || !BeforeTheOrigin(s, plan, n))
  }

  /**
   What a caller could check of a reported ancestor: a known header shows that it is on the chain the state follows; or
   only its parent is, and nothing is kept at its own height; or nothing is kept at all.
   */
  ghost predicate Anchored(s: State, plan: Plan, ancestor: Header) {
    || KnownAt(KnownHeaders(s), ancestor.number, ancestor.hash)
    || if ancestor.number > 0 && KnownAt(KnownHeaders(s), ancestor.number - 1, ancestor.parentHash) then !AtRisk(s, plan, ancestor.number)
       else forall n: nat :: n <= ancestor.number ==> !AtRisk(s, plan, n)
  }

  /** The chain the state follows and the one the reported ancestor is on, as far as the model can tell. */
  ghost predicate Revertible(chain: seq<Batch>, after: seq<Batch>, s: State, plan: Plan, ancestor: Header) {
    Agrees(chain, s, plan) && Branch(chain, after) && OnChain(after, ancestor) && OriginQuiet(after, s, plan)
  }

  lemma KnownOnChain(chain: seq<Batch>, s: State, plan: Plan)
    requires Agrees(chain, s, plan)
    ensures AllOnChain(chain, KnownHeaders(s))
  {
    hide WellKept, CoveredStored, OriginQuiet, Aligned;
    forall h | h in KnownHeaders(s) ensures OnChain(chain, h) {
      if slot, n :| slot in s.cache && n in s.cache[slot] && s.cache[slot][n].block == h {
        assert EntrySound(chain, s, plan, slot);
      }
    }
  }

  lemma AnchoredKeeps(chain: seq<Batch>, after: seq<Batch>, s: State, plan: Plan, ancestor: Header)
    requires Revertible(chain, after, s, plan, ancestor) && Anchored(s, plan, ancestor)
    ensures KeptOn(after, s, ancestor.number + 1)
  {
    hide KnownAt, KnownHeaders, CacheSound, BoundariesOnChain, Covers, Normal, HashLinked, OneBlockPerHash, IsChain;
    var a := ancestor.number;
    KnownOnChain(chain, s, plan);
    RejoinsAt(chain, after, KnownHeaders(s), ancestor);
    if KnownAt(KnownHeaders(s), a, ancestor.hash) {
      SharedIsKept(chain, s, plan, a + 1, after);
    } else {
      var from := if a > 0 && KnownAt(KnownHeaders(s), a - 1, ancestor.parentHash) then a else 0;
      SharedIsKept(chain, s, plan, from, after);
      forall n: nat | from <= n <= a ensures !AtRisk(s, plan, n) {
      }
      NoRiskKeeps(chain, after, s, plan, from, a);
    }
  }

  /** Heights that are not at risk: nothing is stored there, and what is covered lies before the origin. */
  lemma NoRiskKeeps(chain: seq<Batch>, after: seq<Batch>, s: State, plan: Plan, from: nat, a: nat)
    requires WrittenFrom(chain, s, plan) && OriginQuiet(after, s, plan) && KeptOn(after, s, from) && a < |after|
    requires forall n: nat :: from <= n <= a ==> !AtRisk(s, plan, n)
    ensures KeptOn(after, s, a + 1)
  {
    hide Covers, Normal, IsChain;
    forall n | n in s.store.batches && n <= a ensures n < |after| && after[n] == s.store.batches[n] {
      assert Covers(s.coverage, n);
      assert n < from || AtRisk(s, plan, n);
    }
    forall n | Covers(s.coverage, n) && n <= a ensures 0 <= n < |after| && (after[n].events != [] ==> n in s.store.batches) {
      CoveredHeight(chain, s, plan, n);
      assert n < from || !AtRisk(s, plan, n);
    }
  }

  lemma CoveredHeight(chain: seq<Batch>, s: State, plan: Plan, n: int)
    requires WrittenFrom(chain, s, plan) && Covers(s.coverage, n)
    ensures 0 <= n < |chain|
  {
  }

  ghost predicate StoredKnownTo(s: State, known: set<Header>) {
    forall n :: n in s.store.batches ==> s.store.batches[n].block in known
  }

  /** A chain that is the same as far as the stored headers tell could have been the one the store was written from. */
  lemma WrittenLike(chain: seq<Batch>, to: seq<Batch>, s: State, plan: Plan, known: set<Header>)
    requires WrittenFrom(chain, s, plan) && Like(chain, to, known) && StoredKnownTo(s, known)
    ensures WrittenFrom(to, s, plan)
  {
    hide Covers, Normal, WellKept, IsChain;
    LikeIsChain(chain, to, known);
    forall n | n in s.store.batches ensures n < |to| && s.store.batches[n] == to[n] {
      assert LikeAt(chain[n], to[n], known);
    }
    forall n | Covers(s.coverage, n) ensures 0 <= n < |to| && (to[n].events != [] ==> n in s.store.batches) {
      assert LikeAt(chain[n], to[n], known);
    }
    forall n | plan.fromOrigin && s.origin.Some? && 0 <= n < |to| && n < s.origin.value ensures to[n].events == [] {
      assert LikeAt(chain[n], to[n], known);
    }
  }

  lemma EntryLike(chain: seq<Batch>, to: seq<Batch>, s: State, plan: Plan, slot: Slot)
    requires Like(chain, to, KnownHeaders(s)) && slot in s.cache && EntrySound(chain, s, plan, slot)
    ensures EntrySound(to, s, plan, slot)
  {
    hide Aligned;
    forall n | n in s.cache[slot] ensures n < |to| && s.cache[slot][n] == to[n] && InPeriod(to[n].block, slot.1, SlotEnd(plan, slot)) {
      assert s.cache[slot][n].block in KnownHeaders(s);
      assert LikeAt(chain[n], to[n], KnownHeaders(s));
    }
  }

  /** Scrubbing the chain of what the model does not know leaves a chain that the state agrees with. */
  lemma AgreesScrubbed(chain: seq<Batch>, s: State, plan: Plan, unused: int)
    requires Agrees(chain, s, plan) && HashLinked(chain)
    ensures Agrees(Scrubbed(chain, KnownHeaders(s), unused), s, plan)
  {
    hide WellKept, CoveredStored, OriginQuiet, StoredOnChain, EntrySound, Scrubbed, HashLinked, IsChain, Like, AllOnChain;
    var known := KnownHeaders(s);
    var to := Scrubbed(chain, known, unused);
    ScrubbedKeeps(chain, known, unused);
    LikeIsChain(chain, to, known);
    KnownOnChain(chain, s, plan);
    WrittenLike(chain, to, s, plan, known);
    forall slot | slot in s.cache ensures EntrySound(to, s, plan, slot) {
      EntryLike(chain, to, s, plan, slot);
    }
    HeadsLike(to, s);
  }

  lemma HeadsLike(to: seq<Batch>, s: State)
    requires AllOnChain(to, KnownHeaders(s))
    ensures MaybeOnChain(to, s.applied) && forall name :: name in s.liveBoundary ==> OnChain(to, s.liveBoundary[name])
  {
    hide OnChain;
    if s.applied.Some? {
      assert s.applied.value in KnownHeaders(s);
    }
    forall name | name in s.liveBoundary ensures OnChain(to, s.liveBoundary[name]) {
      assert s.liveBoundary[name] in KnownHeaders(s);
    }
  }

  /** A height at risk: the new chain has another block there, or events that are not stored. */
  lemma RiskRefutes(after: seq<Batch>, s: State, plan: Plan, n: nat, from: nat)
    requires AtRisk(s, plan, n) && n < from
    requires n in s.store.batches ==> n >= |after| || after[n].block.hash != s.store.batches[n].block.hash
    requires n !in s.store.batches ==> n >= |after| || after[n].events != []
    ensures !KeptOn(after, s, from)
  {
    hide Covers;
  }

  /** The ancestor's parent is known, the ancestor is not, and something is kept at its height. */
  lemma GraftRefutes(chain: seq<Batch>, after: seq<Batch>, s: State, plan: Plan, ancestor: Header)
    requires Revertible(chain, after, s, plan, ancestor) && ancestor.number > 0
    requires !KnownAt(KnownHeaders(s), ancestor.number, ancestor.hash)
    requires KnownAt(KnownHeaders(s), ancestor.number - 1, ancestor.parentHash) && AtRisk(s, plan, ancestor.number)
    ensures exists other, fork :: Revertible(other, fork, s, plan, ancestor) && !KeptOn(fork, s, ancestor.number + 1)
  {
    hide KnownAt, CacheSound, BoundariesOnChain, Covers, Normal, HashLinked, OneBlockPerHash, IsChain, WellKept, KeptOn, Scrubbed,
      StoredOnChain, KnownHeaders, CoveredStored;
    var a := ancestor.number;
    var known := KnownHeaders(s);
    var unused := Bound(after, Bound(chain, 0));
    BoundBoth(chain, after);
    KnownOnChain(chain, s, plan);
    var events := if a in s.store.batches then [] else [0];
    var other := Scrubbed(chain, known, unused);
    AgreesScrubbed(chain, s, plan, unused);
    GraftedBranch(chain, after, known, ancestor, unused, events);
    var fork := Grafted(chain, known, unused, ancestor, events);
    ScrubbedKeeps(chain, known, unused);
    assert OriginQuiet(fork, s, plan) by {
      forall n | plan.fromOrigin && s.origin.Some? && 0 <= n < |fork| && n < s.origin.value ensures fork[n].events == [] {
        if n < a { assert fork[n] == other[n]; }
      }
    }
    if a in s.store.batches {
      StoredKnown(s, a);
      StoredNumber(chain, s, plan, a);
      NotTheSame(known, s.store.batches[a].block, ancestor);
    }
    RiskRefutes(fork, s, plan, a, a + 1);
    assert Revertible(other, fork, s, plan, ancestor);
  }

  lemma BoundBoth(chain: seq<Batch>, after: seq<Batch>)
    ensures var unused := Bound(after, Bound(chain, 0)); HashesBelow(chain, unused) && HashesBelow(after, unused)
  {
  }

  lemma StoredKnown(s: State, n: nat)
    requires n in s.store.batches
    ensures s.store.batches[n].block in KnownHeaders(s)
  {
  }

  lemma StoredNumber(chain: seq<Batch>, s: State, plan: Plan, n: nat)
    requires WrittenFrom(chain, s, plan) && n in s.store.batches
    ensures s.store.batches[n].block.number == n
  {
  }

  lemma NotTheSame(known: set<Header>, h: Header, ancestor: Header)
    requires h in known && h.number == ancestor.number && !KnownAt(known, ancestor.number, ancestor.hash)
    ensures h.hash != ancestor.hash
  {
  }

  lemma NotTheParent(known: set<Header>, h: Header, ancestor: Header)
    requires h in known && h.number + 1 == ancestor.number && !KnownAt(known, ancestor.number - 1, ancestor.parentHash)
    ensures h.hash != ancestor.parentHash
  {
  }

  /** Nothing is known to be shared, and something is kept. */
  lemma MadeRefutes(chain: seq<Batch>, after: seq<Batch>, s: State, plan: Plan, ancestor: Header, n: nat)
    requires Revertible(chain, after, s, plan, ancestor) && Apart(KnownHeaders(s), ancestor, None)
    requires n <= ancestor.number && AtRisk(s, plan, n)
    ensures exists other, fork :: Revertible(other, fork, s, plan, ancestor) && !KeptOn(fork, s, ancestor.number + 1)
  {
    hide KnownAt, CacheSound, BoundariesOnChain, Covers, Normal, HashLinked, OneBlockPerHash, IsChain, WellKept, KeptOn, Scrubbed,
      StoredOnChain, KnownHeaders, CoveredStored, Made, MadeHash;
    var a := ancestor.number;
    var known := KnownHeaders(s);
    var unused := Bound(after, Bound(chain, 0));
    BoundBoth(chain, after);
    var events := if n in s.store.batches then [] else [0];
    var other := Scrubbed(chain, known, unused);
    AgreesScrubbed(chain, s, plan, unused);
    MadeBranch(chain, after, known, ancestor, None, unused, a + 1, 0, n, events);
    MadeIsChain(ancestor, None, unused, a + 1, 0, n, events);
    var fork := Made(ancestor, None, unused, a + 1, 0, n, events);
    if n in s.store.batches {
      StoredKnown(s, n);
      StoredNumber(chain, s, plan, n);
      MadeIsNew(chain, s, plan, ancestor, unused, n);
    }
    RiskRefutes(fork, s, plan, n, a + 1);
    assert Revertible(other, fork, s, plan, ancestor);
  }

  lemma MadeIsNew(chain: seq<Batch>, s: State, plan: Plan, ancestor: Header, unused: int, n: nat)
    requires Agrees(chain, s, plan) && HashesBelow(chain, unused) && n in s.store.batches && n <= ancestor.number
    requires Apart(KnownHeaders(s), ancestor, None)
    ensures MadeHash(ancestor, None, unused, n) != s.store.batches[n].block.hash
  {
    hide KnownAt, KnownHeaders, CacheSound, BoundariesOnChain, Covers, Normal, CoveredStored;
    StoredKnown(s, n);
    var h := s.store.batches[n].block;
    assert h.number == n && chain[n].block == h;
    if n == ancestor.number {
      NotTheSame(KnownHeaders(s), h, ancestor);
    } else if n + 1 == ancestor.number {
      NotTheParent(KnownHeaders(s), h, ancestor);
    }
  }

  /**
   Recovery with a reported ancestor leaves a state that tracks the ancestor's chain, whatever the two chains are, if and
   only if the ancestor is anchored in what the model knows.
   */
  lemma RevertIffAnchored(chain: seq<Batch>, after: seq<Batch>, s: State, plan: Plan, ancestor: Header, forkTime: nat)
    requires Revertible(chain, after, s, plan, ancestor) && IsForkTime(s.store.batches, ancestor.number + 1, forkTime)
    ensures (forall other, fork :: Revertible(other, fork, s, plan, ancestor) ==>
               Tracks(fork, Reorganized(s, ancestor.number + 1, forkTime, ancestor), plan))
            <==> Anchored(s, plan, ancestor)
  {
    hide *;
    var next := Reorganized(s, ancestor.number + 1, forkTime, ancestor);
    forall other, fork | Revertible(other, fork, s, plan, ancestor)
      ensures Tracks(fork, next, plan) <==> KeptOn(fork, s, ancestor.number + 1)
    {
      RevertTracks(other, fork, s, plan, ancestor, forkTime);
    }
    if Anchored(s, plan, ancestor) {
      forall other, fork | Revertible(other, fork, s, plan, ancestor) ensures Tracks(fork, next, plan) {
        AnchoredKeeps(other, fork, s, plan, ancestor);
      }
    } else {
      NotAnchored(chain, after, s, plan, ancestor);
    }
  }

  lemma NotAnchored(chain: seq<Batch>, after: seq<Batch>, s: State, plan: Plan, ancestor: Header)
    requires Revertible(chain, after, s, plan, ancestor) && !Anchored(s, plan, ancestor)
    ensures exists other, fork :: Revertible(other, fork, s, plan, ancestor) && !KeptOn(fork, s, ancestor.number + 1)
  {
    hide KnownAt, KnownHeaders, Revertible, KeptOn, AtRisk;
    if ancestor.number > 0 && KnownAt(KnownHeaders(s), ancestor.number - 1, ancestor.parentHash) {
      GraftRefutes(chain, after, s, plan, ancestor);
    } else {
      var n: nat :| n <= ancestor.number && AtRisk(s, plan, n);
      MadeRefutes(chain, after, s, plan, ancestor, n);
    }
  }

  /** Chain by chain: the state tracks the new chain exactly when all that was kept is the new chain's. */
  lemma RevertTracks(chain: seq<Batch>, after: seq<Batch>, s: State, plan: Plan, ancestor: Header, forkTime: nat)
    requires Revertible(chain, after, s, plan, ancestor) && IsForkTime(s.store.batches, ancestor.number + 1, forkTime)
    ensures Tracks(after, Reorganized(s, ancestor.number + 1, forkTime, ancestor), plan) <==> KeptOn(after, s, ancestor.number + 1)
  {
    hide IsForkTime, CacheSound, BoundariesOnChain, WellKept, CoveredStored, StoredOnChain, Tracks, KeptOn, Invalidated, HashLinked, OneBlockPerHash,
      IsChain;
    CutTracks(chain, s, plan, ancestor.number + 1, forkTime, after, Reorganized(s, ancestor.number + 1, forkTime, ancestor));
  }

  /** Where a block is stored at the ancestor's height, its hash decides. */
  lemma StoredAncestorDecides(chain: seq<Batch>, s: State, plan: Plan, ancestor: Header)
    requires Agrees(chain, s, plan) && HashLinked(chain) && ancestor.number in s.store.batches
    ensures Anchored(s, plan, ancestor) <==> s.store.batches[ancestor.number].block.hash == ancestor.hash
  {
    hide KnownAt, KnownHeaders, CacheSound, BoundariesOnChain, Normal, Covers, HashLinked;
    var a := ancestor.number;
    StoredKnown(s, a);
    assert chain[a] == s.store.batches[a] && chain[a].block.number == a;
    assert AtRisk(s, plan, a);
    if KnownAt(KnownHeaders(s), a, ancestor.hash) {
      KnownOnChain(chain, s, plan);
      KnownIsThere(chain, KnownHeaders(s), a, ancestor.hash);
    }
    if s.store.batches[a].block.hash == ancestor.hash {
      OwnHash(KnownHeaders(s), s.store.batches[a].block);
    }
  }

  lemma OwnHash(known: set<Header>, h: Header)
    requires h in known
    ensures KnownAt(known, h.number, h.hash)
  {
  }

  // ------------------------------------------------------------------------------------------ a report that misses

  const GENESIS := Batch(Header(0, 10, 9, 0), [])
  const OLD_ONE := Batch(Header(1, 11, 10, 70), [])
  const NEW_ONE := Batch(Header(1, 12, 10, 70), [])

  /** Block 1 of the old branch is stored; the report names block 1 of the fork branch. */
  function MissedState(): State {
    State(Store([Range(0, 1)], map[0 := GENESIS, 1 := OLD_ONE], map[]), Some(OLD_ONE.block), [Range(0, 1)], 0, map[], {}, map[], map[], None)
  }

  lemma MissedCovers(n: int)
    ensures Covers([Range(0, 1)], n) <==> 0 <= n <= 1
  {
    CoversOne(Range(0, 1), n);
  }

  lemma MissedIsRevertible(plan: Plan)
    requires ValidPlan(plan)
    ensures Revertible([GENESIS, OLD_ONE], [GENESIS, NEW_ONE], MissedState(), plan, NEW_ONE.block)
    ensures Tracks([GENESIS, OLD_ONE], MissedState(), plan)
  {
    hide Covers;
    forall n ensures Covers([Range(0, 1)], n) <==> 0 <= n <= 1 { MissedCovers(n); }
    assert JoinedAt([GENESIS, OLD_ONE], 0) && JoinedAt([GENESIS, NEW_ONE], 0);
  }

  /** Two linked chains that share a hash rule, and a reported ancestor after which the old branch's block 1 is still stored. */
  lemma RevertMisses(plan: Plan)
    requires ValidPlan(plan)
    ensures var chain, after, s := [GENESIS, OLD_ONE], [GENESIS, NEW_ONE], MissedState();
            && Tracks(chain, s, plan) && Revertible(chain, after, s, plan, NEW_ONE.block) && IsForkTime(s.store.batches, 2, 70)
            && var next := Reorganized(s, 2, 70, NEW_ONE.block);
               next.store.batches[1] == OLD_ONE && after[1] == NEW_ONE && !Tracks(after, next, plan)
  {
    hide Covers, Below, Surviving, Tracks, Revertible;
    MissedIsRevertible(plan);
    var s := MissedState();
    assert 1 in s.store.batches && s.store.batches[1].block.timestamp == 70;
    assert IsForkTime(s.store.batches, 2, 70);
    RevertTracks([GENESIS, OLD_ONE], [GENESIS, NEW_ONE], s, plan, NEW_ONE.block, 70);
  }
}
