/**
 The hedged read: two lanes pick endpoints from shared sets until one succeeds or both give up. An interleaving is a
 sequence of the steps below; which of the eligible endpoints a lane picks is left open.
 */
module TwoLane {
  import opened Blocks

  type Endpoint = nat

  /** What a failure says about its endpoint: try again, give the whole read up, or never use the endpoint again. */
  datatype Policy = Retry | Stop | Exclude

  datatype Lane = Asleep | AtHead | Trying(endpoint: Endpoint) | Settling(endpoint: Endpoint, policy: Policy) | GaveUp | Succeeded

  datatype State = State(attempts: nat, maxAttempts: nat, stopped: bool, tried: set<Endpoint>, excluded: set<Endpoint>,
                         busy: set<Endpoint>, first: Lane, second: Lane)

  /** The delayed lane starts; a lane takes a turn at the head of its loop; an attempt ends; its failure is dealt with. */
  datatype Action = Wake | Turn(second: bool, choice: Endpoint) | Succeed(second: bool) | Fail(second: bool, policy: Policy) | Settle(second: bool)

  const INITIAL := State(0, 4, false, {}, {}, {}, AtHead, Asleep)

  function LaneOf(s: State, second: bool): Lane { if second then s.second else s.first }

  function SetLane(s: State, second: bool, lane: Lane): State {
    if second then s.(second := lane) else s.(first := lane)
  }

  function Max(a: nat, b: nat): nat { if a > b then a else b }

  /** The endpoints a turn may pick from: untried ones if there are any. */
  function Pool(s: State, candidates: set<Endpoint>): set<Endpoint> {
    var available := candidates - s.excluded - s.busy;
    var untried := available - s.tried;
    if untried != {} then untried else available
  }

  /** A turn at the head of the loop; None when the lane cannot pick this endpoint. */
  function TakeTurn(s: State, second: bool, choice: Endpoint, candidates: set<Endpoint>): Option<State> {
    if s.stopped then Some(SetLane(s, second, GaveUp))
    else
      var t := s.(maxAttempts := Max(s.maxAttempts, |candidates + s.excluded|));
      if t.attempts >= t.maxAttempts || Pool(t, candidates) == {} then Some(SetLane(t, second, GaveUp))
      else if choice !in Pool(t, candidates) then None
      else Some(SetLane(t.(attempts := t.attempts + 1, tried := t.tried + {choice}, busy := t.busy + {choice}), second, Trying(choice)))
  }

  function Over(s: State): bool { s.first.Succeeded? || s.second.Succeeded? }

  /** One step; None when it cannot happen. */
  function Step(s: State, a: Action, candidates: set<Endpoint>): Option<State> {
    if Over(s) then None
    else
      match a
      case Wake => if s.second.Asleep? then Some(s.(second := AtHead)) else None
      case Turn(second, choice) => if LaneOf(s, second).AtHead? then TakeTurn(s, second, choice, candidates) else None
      case Succeed(second) =>
        var lane := LaneOf(s, second);
        if lane.Trying? then Some(SetLane(s.(busy := s.busy - {lane.endpoint}), second, Succeeded)) else None
      case Fail(second, policy) =>
        var lane := LaneOf(s, second);
        if lane.Trying? then Some(SetLane(s.(busy := s.busy - {lane.endpoint}), second, Settling(lane.endpoint, policy))) else None
      case Settle(second) =>
        var lane := LaneOf(s, second);
        if !lane.Settling? then None
        else Some(SetLane(s.(stopped := s.stopped || lane.policy.Stop?,
                             excluded := if lane.policy.Exclude? then s.excluded + {lane.endpoint} else s.excluded), second, AtHead))
  }

  /** The read as the source keeps it: counters and sets shared by both lanes. */
  class Read {
    var attempts: nat
    var maxAttempts: nat
    var stopped: bool
    var tried: set<Endpoint>
    var excluded: set<Endpoint>
    var busy: set<Endpoint>
    var first: Lane
    var second: Lane

    function Abstract(): State
      reads this
    {
      State(attempts, maxAttempts, stopped, tried, excluded, busy, first, second)
    }

    constructor ()
      ensures Abstract() == INITIAL
    {
      attempts, maxAttempts, stopped, tried, excluded, busy, first, second := 0, 4, false, {}, {}, {}, AtHead, Asleep;
    }

    method Put(isSecond: bool, lane: Lane)
      modifies this`first, this`second
      ensures Abstract() == SetLane(old(Abstract()), isSecond, lane)
    {
      if isSecond { second := lane; } else { first := lane; }
    }

    /** One turn of a lane's loop: gives up, or starts an attempt at an endpoint that the scores put first. */
    method TakeTurn(isSecond: bool, candidates: set<Endpoint>, scores: Endpoint -> int) returns (ghost choice: Endpoint)
      requires LaneOf(Abstract(), isSecond).AtHead? && !Over(Abstract())
      modifies this
      ensures Step(old(Abstract()), Turn(isSecond, choice), candidates) == Some(Abstract())
    {
      hide Step, Over, LaneOf, SetLane, Pool;
      ghost var s := Abstract();
      choice := 0;
      StepTurns(s, isSecond, candidates);
      if stopped {
        Put(isSecond, GaveUp);
        return;
      }
      maxAttempts := Max(maxAttempts, |candidates + excluded|);
      PoolIs(Abstract(), candidates);
      if attempts >= maxAttempts {
        Put(isSecond, GaveUp);
        return;
      }
      var available := candidates - excluded - busy;
      var untried := available - tried;
      var endpoints := if untried != {} then untried else available;
      if endpoints == {} {
        Put(isSecond, GaveUp);
        return;
      }
      var source := Best(endpoints, scores);
      choice := source;
      tried := tried + {source};
      busy := busy + {source};
      attempts := attempts + 1;
      Put(isSecond, Trying(source));
    }

    /** The attempt of a lane ends. */
    method Finish(isSecond: bool, failure: Option<Policy>)
      requires LaneOf(Abstract(), isSecond).Trying? && !Over(Abstract())
      modifies this
      ensures failure.None? ==> Step(old(Abstract()), Succeed(isSecond), {}) == Some(Abstract())
      ensures failure.Some? ==> exists middle :: Step(old(Abstract()), Fail(isSecond, failure.value), {}) == Some(middle)
                                                 && Step(middle, Settle(isSecond), {}) == Some(Abstract())
    {
      var endpoint := (if isSecond then second else first).endpoint;
      busy := busy - {endpoint};
      if failure.None? {
        Put(isSecond, Succeeded);
        return;
      }
      ghost var middle := SetLane(Abstract(), isSecond, Settling(endpoint, failure.value));
      if failure.value.Stop? { stopped := true; }
      if failure.value.Exclude? { excluded := excluded + {endpoint}; }
      Put(isSecond, AtHead);
      assert Step(old(Abstract()), Fail(isSecond, failure.value), {}) == Some(middle);
    }
  }

  /** An endpoint with the least score. */
  method Best(endpoints: set<Endpoint>, scores: Endpoint -> int) returns (best: Endpoint)
    requires endpoints != {}
    ensures best in endpoints && forall e :: e in endpoints ==> scores(best) <= scores(e)
  {
    best :| best in endpoints;
    var left := endpoints - {best};
    while left != {}
      invariant left <= endpoints && best in endpoints
      invariant forall e :: e in endpoints && e !in left ==> scores(best) <= scores(e)
      decreases left
    {
      var e :| e in left;
      if scores(e) < scores(best) { best := e; }
      left := left - {e};
    }
  }

  // ------------------------------------------------------------------------------------------ what every run keeps

  ghost predicate Holds(lane: Lane, s: State) {
    match lane
    case Trying(e) => e in s.busy && e in s.tried
    case Settling(e, _) => e in s.tried
    case _ => true
  }

  ghost predicate Valid(s: State, candidates: set<Endpoint>) {
    && Holds(s.first, s) && Holds(s.second, s)
    && (s.first.Trying? && s.second.Trying? ==> s.first.endpoint != s.second.endpoint)
    && (forall e :: e in s.busy ==> s.first == Trying(e) || s.second == Trying(e))
    && s.excluded <= s.tried <= candidates && s.busy <= s.tried
    && s.attempts <= s.maxAttempts <= Max(4, |candidates|)
    && s.attempts >= |s.tried| && (s.tried != candidates ==> s.attempts == |s.tried|)
    && ((s.first.GaveUp? || s.second.GaveUp?) && !s.stopped ==> s.tried == candidates)
  }

  lemma SubsetSize(a: set<Endpoint>, b: set<Endpoint>)
    requires a <= b
    ensures |a| <= |b| && (a != b ==> |a| < |b|)
  {
    assert b == a + (b - a);
    assert |b| == |a| + |b - a|;
  }

  lemma StepTurns(s: State, second: bool, candidates: set<Endpoint>)
    requires LaneOf(s, second).AtHead? && !Over(s)
    ensures forall choice :: Step(s, Turn(second, choice), candidates) == TakeTurn(s, second, choice, candidates)
  {
    hide TakeTurn;
  }

  lemma PoolIs(s: State, candidates: set<Endpoint>)
    ensures var available := candidates - s.excluded - s.busy;
            Pool(s, candidates) == if available - s.tried != {} then available - s.tried else available
  {
  }

  /** While a candidate is untried the pool is exactly the untried ones. */
  lemma UntriedFirst(s: State, candidates: set<Endpoint>)
    requires s.excluded <= s.tried && s.busy <= s.tried <= candidates
    ensures s.tried != candidates ==> Pool(s, candidates) == candidates - s.tried && Pool(s, candidates) != {}
    ensures Pool(s, candidates) <= candidates - s.busy
  {
    assert candidates - s.excluded - s.busy - s.tried == candidates - s.tried;
    if s.tried != candidates {
      var e :| e in candidates && e !in s.tried;
      assert e in candidates - s.tried;
    }
  }

  lemma GiveUpKeeps(s: State, second: bool, candidates: set<Endpoint>)
    requires Valid(s, candidates) && LaneOf(s, second).AtHead? && (s.stopped || s.tried == candidates)
    ensures Valid(SetLane(s, second, GaveUp), candidates)
  {
  }

  lemma PickKeeps(s: State, second: bool, choice: Endpoint, candidates: set<Endpoint>)
    requires Valid(s, candidates) && LaneOf(s, second).AtHead? && s.attempts < s.maxAttempts
    requires choice in candidates - s.busy && (s.tried != candidates ==> choice !in s.tried)
    ensures Valid(SetLane(s.(attempts := s.attempts + 1, tried := s.tried + {choice}, busy := s.busy + {choice}), second, Trying(choice)), candidates)
  {
    SubsetSize(s.tried + {choice}, candidates);
    if choice in s.tried {
      assert s.tried + {choice} == s.tried;
    }
  }

  /** A lane that finds all attempts used, or nothing to pick, has seen every candidate tried. */
  lemma RaiseKeeps(s: State, t: State, candidates: set<Endpoint>)
    requires Valid(s, candidates) && t == s.(maxAttempts := Max(s.maxAttempts, |candidates + s.excluded|))
    ensures Valid(t, candidates) && t.excluded <= t.tried && t.busy <= t.tried <= candidates
    ensures t.attempts >= t.maxAttempts ==> t.tried == candidates
  {
    assert candidates + s.excluded == candidates;
    SubsetSize(s.tried, candidates);
  }

  lemma TurnKeeps(s: State, second: bool, choice: Endpoint, candidates: set<Endpoint>)
    requires Valid(s, candidates) && LaneOf(s, second).AtHead? && TakeTurn(s, second, choice, candidates).Some?
    ensures Valid(TakeTurn(s, second, choice, candidates).value, candidates)
  {
    hide SetLane, Pool, Valid;
    if s.stopped {
      GiveUpKeeps(s, second, candidates);
    } else {
      var t := s.(maxAttempts := Max(s.maxAttempts, |candidates + s.excluded|));
      RaiseKeeps(s, t, candidates);
      UntriedFirst(t, candidates);
      if t.attempts >= t.maxAttempts || Pool(t, candidates) == {} {
        GiveUpKeeps(t, second, candidates);
      } else {
        PickKeeps(t, second, choice, candidates);
      }
    }
  }

  lemma StepKeeps(s: State, a: Action, candidates: set<Endpoint>)
    requires Valid(s, candidates) && Step(s, a, candidates).Some?
    ensures Valid(Step(s, a, candidates).value, candidates)
  {
    hide TakeTurn;
    if a.Turn? {
      TurnKeeps(s, a.second, a.choice, candidates);
    }
  }

  function Run(s: State, actions: seq<Action>, candidates: set<Endpoint>): Option<State> {
    if actions == [] then Some(s)
    else
      var before := Run(s, actions[..|actions| - 1], candidates);
      if before.None? then None else Step(before.value, actions[|actions| - 1], candidates)
  }

  function Weight(lane: Lane): nat {
    match lane
    case Asleep => 2
    case AtHead => 1
    case Trying(_) => 4
    case Settling(_, _) => 3
    case GaveUp => 0
    case Succeeded => 0
  }

  /** What is left of a read: it shrinks with every step. */
  function Left(s: State, candidates: set<Endpoint>): int {
    4 * (Max(4, |candidates|) - s.attempts) + Weight(s.first) + Weight(s.second)
  }

  lemma TurnShrinks(s: State, second: bool, choice: Endpoint, candidates: set<Endpoint>)
    requires LaneOf(s, second).AtHead? && TakeTurn(s, second, choice, candidates).Some?
    ensures Left(TakeTurn(s, second, choice, candidates).value, candidates) < Left(s, candidates)
  {
    hide Pool, Max;
  }

  lemma StepShrinks(s: State, a: Action, candidates: set<Endpoint>)
    requires Valid(s, candidates) && Step(s, a, candidates).Some?
    ensures Left(Step(s, a, candidates).value, candidates) < Left(s, candidates)
  {
    hide TakeTurn, Valid, Max;
    if a.Turn? {
      TurnShrinks(s, a.second, a.choice, candidates);
    }
  }

  /**
   Every interleaving, for a fixed set of candidates: at most two attempts in flight and never two at one endpoint; at
   most max(4, candidates) attempts; when a lane gives up although nothing stopped the read, every candidate was tried;
   and the run is short.
   */
  lemma {:induction false} RunsAreSafe(actions: seq<Action>, candidates: set<Endpoint>, s: State)
    requires Run(INITIAL, actions, candidates) == Some(s)
    ensures Valid(s, candidates)
    ensures |s.busy| <= 2 && (s.first.Trying? && s.second.Trying? ==> s.first.endpoint != s.second.endpoint)
    ensures s.attempts <= Max(4, |candidates|)
    ensures s.first.GaveUp? && s.second.GaveUp? && !s.stopped ==> s.tried == candidates
    ensures |actions| + Left(s, candidates) <= 4 * Max(4, |candidates|) + 3
  {
    if actions != [] {
      hide Step, Left;
      var before := Run(INITIAL, actions[..|actions| - 1], candidates).value;
      RunsAreSafe(actions[..|actions| - 1], candidates, before);
      StepKeeps(before, actions[|actions| - 1], candidates);
      StepShrinks(before, actions[|actions| - 1], candidates);
    } else {
      assert INITIAL.tried <= candidates;
    }
    BusySmall(s, candidates);
  }

  /** In every run an attempt goes to an endpoint a second time only when every candidate has been tried. */
  lemma NoEarlyRepeat(actions: seq<Action>, candidates: set<Endpoint>, s: State, second: bool, choice: Endpoint, next: State)
    requires Run(INITIAL, actions, candidates) == Some(s) && Step(s, Turn(second, choice), candidates) == Some(next)
    requires next.attempts > s.attempts && choice in s.tried
    ensures s.tried == candidates
  {
    hide Run;
    RunsAreSafe(actions, candidates, s);
    UntriedFirst(s.(maxAttempts := Max(s.maxAttempts, |candidates + s.excluded|)), candidates);
  }

  lemma BusySmall(s: State, candidates: set<Endpoint>)
    requires Valid(s, candidates)
    ensures |s.busy| <= 2
  {
    var flying := (if s.first.Trying? then {s.first.endpoint} else {}) + (if s.second.Trying? then {s.second.endpoint} else {});
    assert s.busy <= flying;
    SubsetSize(s.busy, flying);
  }

  // ------------------------------------------------------------------------------------------ candidates that change

  /** What holds whatever the candidates are at each turn. */
  ghost predicate InFlight(s: State, universe: set<Endpoint>) {
    && Holds(s.first, s) && Holds(s.second, s)
    && (s.first.Trying? && s.second.Trying? ==> s.first.endpoint != s.second.endpoint)
    && (forall e :: e in s.busy ==> s.first == Trying(e) || s.second == Trying(e))
    && s.excluded <= s.tried <= universe && s.busy <= s.tried
    && s.attempts <= s.maxAttempts <= Max(4, |universe|) && s.maxAttempts >= 4
  }

  lemma TurnInFlight(s: State, second: bool, choice: Endpoint, candidates: set<Endpoint>, universe: set<Endpoint>)
    requires InFlight(s, universe) && candidates <= universe && LaneOf(s, second).AtHead? && TakeTurn(s, second, choice, candidates).Some?
    ensures InFlight(TakeTurn(s, second, choice, candidates).value, universe)
  {
    SubsetSize(candidates + s.excluded, universe);
  }

  lemma StepInFlight(s: State, a: Action, candidates: set<Endpoint>, universe: set<Endpoint>)
    requires InFlight(s, universe) && candidates <= universe && Step(s, a, candidates).Some?
    ensures InFlight(Step(s, a, candidates).value, universe)
    ensures Left(Step(s, a, candidates).value, universe) < Left(s, universe)
  {
    hide TakeTurn, Max;
    if a.Turn? {
      TurnInFlight(s, a.second, a.choice, candidates, universe);
      TurnShrinksIn(s, a.second, a.choice, candidates, universe);
    }
  }

  lemma TurnShrinksIn(s: State, second: bool, choice: Endpoint, candidates: set<Endpoint>, universe: set<Endpoint>)
    requires LaneOf(s, second).AtHead? && TakeTurn(s, second, choice, candidates).Some?
    ensures Left(TakeTurn(s, second, choice, candidates).value, universe) < Left(s, universe)
  {
    hide Pool, Max;
  }

  /** A run in which every step sees the candidates of its own moment. */
  function RunOver(s: State, steps: seq<(Action, set<Endpoint>)>): Option<State> {
    if steps == [] then Some(s)
    else
      var before := RunOver(s, steps[..|steps| - 1]);
      var (action, candidates) := steps[|steps| - 1];
      if before.None? then None else Step(before.value, action, candidates)
  }

  ghost predicate Within(steps: seq<(Action, set<Endpoint>)>, universe: set<Endpoint>) {
    forall i :: 0 <= i < |steps| ==> steps[i].1 <= universe
  }

  /**
   Every interleaving, whatever the candidates are at each turn: at most two attempts in flight and never two at one
   endpoint, at most as many attempts as there ever were candidates, and four, and the run is short.
   */
  lemma {:induction false} AnyRunIsSafe(steps: seq<(Action, set<Endpoint>)>, universe: set<Endpoint>, s: State)
    requires Within(steps, universe) && RunOver(INITIAL, steps) == Some(s)
    ensures InFlight(s, universe)
    ensures |s.busy| <= 2 && (s.first.Trying? && s.second.Trying? ==> s.first.endpoint != s.second.endpoint)
    ensures s.attempts <= Max(4, |universe|)
    ensures |steps| + Left(s, universe) <= 4 * Max(4, |universe|) + 3
  {
    if steps != [] {
      hide Step, Left;
      var front := steps[..|steps| - 1];
      var before := RunOver(INITIAL, front).value;
      assert Within(front, universe);
      AnyRunIsSafe(front, universe, before);
      StepInFlight(before, steps[|steps| - 1].0, steps[|steps| - 1].1, universe);
    } else {
      assert INITIAL.tried <= universe;
    }
    FewBusy(s, universe);
  }

  lemma FewBusy(s: State, universe: set<Endpoint>)
    requires InFlight(s, universe)
    ensures |s.busy| <= 2
  {
    var flying := (if s.first.Trying? then {s.first.endpoint} else {}) + (if s.second.Trying? then {s.second.endpoint} else {});
    assert s.busy <= flying;
    SubsetSize(s.busy, flying);
  }

  /** A turn starts an attempt at an endpoint that may be used, or gives up. */
  lemma TurnDecides(s: State, second: bool, choice: Endpoint, candidates: set<Endpoint>, next: State)
    requires Step(s, Turn(second, choice), candidates) == Some(next)
    ensures LaneOf(next, second).GaveUp? <==>
              s.stopped || candidates <= s.excluded + s.busy || s.attempts >= Max(s.maxAttempts, |candidates + s.excluded|)
    ensures !LaneOf(next, second).GaveUp? ==> next.attempts == s.attempts + 1 && choice in candidates - s.excluded - s.busy
    ensures !LaneOf(next, second).GaveUp? && choice in s.tried ==> candidates - s.excluded - s.busy <= s.tried
  {
    var available := candidates - s.excluded - s.busy;
    PoolIs(s.(maxAttempts := Max(s.maxAttempts, |candidates + s.excluded|)), candidates);
    assert available == {} <==> candidates <= s.excluded + s.busy;
  }

  /**
   In every run, whatever the candidates of a turn are: an endpoint is tried again only when every candidate has
   been tried; and a lane gives up unstopped only then, or when the attempts have reached four and the number of
   candidates and excluded endpoints.
   */
  lemma TurnsAreFair(steps: seq<(Action, set<Endpoint>)>, universe: set<Endpoint>, s: State, second: bool, choice: Endpoint,
                     candidates: set<Endpoint>, next: State)
    requires Within(steps, universe) && RunOver(INITIAL, steps) == Some(s) && Step(s, Turn(second, choice), candidates) == Some(next)
    ensures !LaneOf(next, second).GaveUp? && choice in s.tried ==> candidates <= s.tried
    ensures LaneOf(next, second).GaveUp? && !s.stopped ==> candidates <= s.tried || s.attempts >= Max(4, |candidates + s.excluded|)
  {
    hide Step, RunOver, LaneOf;
    AnyRunIsSafe(steps, universe, s);
    TurnDecides(s, second, choice, candidates, next);
  }
}
