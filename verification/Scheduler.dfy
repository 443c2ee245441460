/**
 The request scheduler: admission to an endpoint's sliding one-second window, an adaptive limit, and counts of what is
 queued.

 Methods are the steps between two waits; any sequence of calls with a clock that does not go back is a run. What
 it may admit is stated over the whole history of its admissions.
 */
module Scheduler {
  import opened Blocks

  type Endpoint = string

  const SECOND: nat := 1000
  const COOLDOWN: nat := 5000

  /** The share of a limit that background work may use. */
  function Share(limit: nat): (n: nat)
    ensures n >= 1 && (limit >= 1 ==> n <= limit)
  {
    if limit * 4 / 5 > 1 then limit * 4 / 5 else 1
  }

  lemma ShareGrows(a: nat, b: nat)
    requires a <= b
    ensures Share(a) <= Share(b)
  {
  }

  // ------------------------------------------------------------------------------------------ windows

  ghost predicate Ascending(times: seq<int>) {
    forall i, j :: 0 <= i <= j < |times| ==> times[i] <= times[j]
  }

  /** Any n + 1 admissions in a row take at least a second. */
  ghost predicate Spaced(times: seq<int>, n: nat) {
    forall i, j :: 0 <= i && j == i + n < |times| ==> times[j] >= times[i] + SECOND
  }

  /** The admissions in the second up to and including t. */
  function During(times: seq<int>, t: int): nat {
    if times == [] then 0
    else During(times[..|times| - 1], t) + (if t - SECOND < times[|times| - 1] <= t then 1 else 0)
  }

  lemma {:induction false} DuringNone(times: seq<int>, t: int)
    requires forall i :: 0 <= i < |times| ==> times[i] <= t - SECOND
    ensures During(times, t) == 0
  {
    if times != [] {
      DuringNone(times[..|times| - 1], t);
    }
  }

  lemma {:induction false} DuringAtMost(times: seq<int>, t: int, k: nat)
    requires k <= |times| && forall i :: 0 <= i < |times| - k ==> times[i] <= t - SECOND
    ensures During(times, t) <= k
    decreases |times|
  {
    if k == 0 {
      DuringNone(times, t);
    } else {
      var front := times[..|times| - 1];
      assert forall i :: 0 <= i < |front| - (k - 1) ==> front[i] == times[i];
      DuringAtMost(front, t, k - 1);
    }
  }

  /** Spaced admissions: no second holds more than n of them. */
  lemma {:induction false} AnySecond(times: seq<int>, n: nat, t: int)
    requires Ascending(times) && Spaced(times, n)
    ensures During(times, t) <= n
    decreases |times|
  {
    if times != [] {
      var last := |times| - 1;
      var front := times[..last];
      if times[last] > t {
        AnySecond(front, n, t);
      } else if |times| > n {
        forall i | 0 <= i < |times| - n ensures times[i] <= t - SECOND {
          assert times[i + n] >= times[i] + SECOND;
        }
        DuringAtMost(times, t, n);
      } else {
        DuringAtMost(times, t, |times|);
      }
    }
  }

  /** What is remembered is the end of the history, and what was forgotten is a second old. */
  ghost predicate Remembers(sent: seq<int>, history: seq<int>, clock: int) {
    && |sent| <= |history| && sent == history[|history| - |sent|..]
    && forall i :: 0 <= i < |history| - |sent| ==> history[i] <= clock - SECOND
  }

  ghost predicate Up(history: seq<int>, clock: int) {
    Ascending(history) && forall i :: 0 <= i < |history| ==> history[i] <= clock
  }

  /** Forgets what is a second old. */
  method Shift(sent: seq<int>, now: int, ghost history: seq<int>, ghost clock: int) returns (left: seq<int>)
    requires Remembers(sent, history, clock) && Up(history, clock) && clock <= now
    ensures Remembers(left, history, now) && (left != [] ==> left[0] > now - SECOND)
  {
    left := sent;
    while left != [] && left[0] <= now - SECOND
      invariant Remembers(left, history, now)
      decreases |left|
    {
      left := left[1..];
    }
  }

  lemma Admitted(sent: seq<int>, history: seq<int>, now: int, limit: nat, n: nat)
    requires Remembers(sent, history, now) && Up(history, now) && Spaced(history, n) && |sent| < limit <= n
    ensures Remembers(sent + [now], history + [now], now) && Up(history + [now], now) && Spaced(history + [now], n)
  {
    var more := history + [now];
    forall i, j | 0 <= i && j == i + n < |more| ensures more[j] >= more[i] + SECOND {
      if j == |history| {
        assert history[i] <= now - SECOND;
      }
    }
  }

  lemma {:induction false} DuringAll(times: seq<int>, t: int, k: nat)
    requires k <= |times| && (forall i :: 0 <= i < |times| - k ==> times[i] <= t - SECOND)
    requires forall i :: |times| - k <= i < |times| ==> t - SECOND < times[i] <= t
    ensures During(times, t) == k
    decreases |times|
  {
    if k == 0 {
      DuringNone(times, t);
    } else {
      var front := times[..|times| - 1];
      assert forall i :: 0 <= i < |front| ==> front[i] == times[i];
      DuringAll(front, t, k - 1);
    }
  }

  /** What is remembered after the shift is exactly the admissions of the last second. */
  lemma RememberedCount(sent: seq<int>, history: seq<int>, now: int)
    requires Remembers(sent, history, now) && Up(history, now) && (sent != [] ==> sent[0] > now - SECOND)
    ensures During(history, now) == |sent| && (sent != [] ==> sent[0] <= now)
  {
    var dropped := |history| - |sent|;
    if sent != [] {
      assert history[dropped] == sent[0];
    }
    DuringAll(history, now, |sent|);
  }

  /** What the scheduler keeps of an endpoint. */
  datatype Budget = Budget(sent: seq<int>, backgroundSent: seq<int>, limit: nat, recoverAt: int, active: nat)

  /** Every admission to an endpoint so far, and the background ones. */
  datatype History = History(all: seq<int>, background: seq<int>)

  /** The limit is within bounds, and no second has more admissions than rps, or background ones than their share. */
  ghost predicate Within(b: Budget, h: History, clock: int, rps: nat) {
    && 1 <= b.limit <= rps
    && Remembers(b.sent, h.all, clock) && Up(h.all, clock) && Spaced(h.all, rps)
    && Remembers(b.backgroundSent, h.background, clock) && Up(h.background, clock) && Spaced(h.background, Share(rps))
  }

  lemma Later(history: seq<int>, sent: seq<int>, clock: int, now: int)
    requires Up(history, clock) && Remembers(sent, history, clock) && clock <= now
    ensures Up(history, now) && Remembers(sent, history, now)
  {
  }

  lemma WithinLater(b: Budget, h: History, clock: int, now: int, rps: nat)
    requires Within(b, h, clock, rps) && clock <= now
    ensures Within(b, h, now, rps)
  {
    hide Up, Remembers, Spaced;
    Later(h.all, b.sent, clock, now);
    Later(h.background, b.backgroundSent, clock, now);
  }

  /** One try to send: admitted now, or how long to wait before the next try. */
  method TryAcquire(b: Budget, background: bool, now: int, ghost h: History, ghost clock: int, ghost rps: nat)
    returns (wait: nat, next: Budget, ghost after: History)
    requires Within(b, h, clock, rps) && clock <= now
    ensures Within(next, after, now, rps) && next.limit == b.limit && next.active == b.active
    ensures after == if wait == 0 then History(h.all + [now], if background then h.background + [now] else h.background) else h
    ensures wait == 0 <==> During(h.all, now) < b.limit && (background ==> During(h.background, now) < Share(b.limit))
    ensures wait <= SECOND
  {
    hide Remembers, Up, Spaced, Share, During;
    var sent := Shift(b.sent, now, h.all, clock);
    var backgroundSent := Shift(b.backgroundSent, now, h.background, clock);
    WithinLater(b, h, clock, now, rps);
    RememberedCount(sent, h.all, now);
    RememberedCount(backgroundSent, h.background, now);
    ShareGrows(b.limit, rps);
    after := h;
    next := b.(sent := sent, backgroundSent := backgroundSent);
    if background && |backgroundSent| >= Share(b.limit) {
      wait := if |backgroundSent| > 0 && backgroundSent[0] + SECOND - now > 1 then backgroundSent[0] + SECOND - now else 1;
      return;
    }
    if |sent| >= b.limit {
      wait := if sent[0] + SECOND - now > 1 then sent[0] + SECOND - now else 1;
      return;
    }
    Admitted(sent, h.all, now, b.limit, rps);
    next, after := next.(sent := sent + [now]), after.(all := h.all + [now]);
    if background {
      Admitted(backgroundSent, h.background, now, Share(b.limit), Share(rps));
      next, after := next.(backgroundSent := backgroundSent + [now]), after.(background := h.background + [now]);
    }
    wait := 0;
  }

  // ------------------------------------------------------------------------------------------ the scheduler

  ghost function With(m: multiset<Endpoint>, e: Endpoint, yes: bool): multiset<Endpoint> {
    if yes then m + multiset{e} else m
  }

  ghost function Without(m: multiset<Endpoint>, e: Endpoint, yes: bool): multiset<Endpoint> {
    if yes then m - multiset{e} else m
  }

  /** Each endpoint's active count is that of its requests inside. */
  ghost predicate Counted(endpoints: map<Endpoint, Budget>, foreground: multiset<Endpoint>, background: multiset<Endpoint>) {
    && (forall e :: foreground[e] + background[e] > 0 ==> e in endpoints)
    && (forall e :: e in endpoints ==> endpoints[e].active == foreground[e] + background[e])
  }

  ghost predicate AllWithin(endpoints: map<Endpoint, Budget>, histories: map<Endpoint, History>, clock: int, rps: nat) {
    endpoints.Keys == histories.Keys && forall e :: e in endpoints ==> Within(endpoints[e], histories[e], clock, rps)
  }

  class RequestScheduler {
    var endpoints: map<Endpoint, Budget>
    var queued: nat
    var backgroundQueued: nat
    const rps: nat
    const capacity: nat
    ghost var histories: map<Endpoint, History>
    ghost var clock: int
    ghost var foreground: multiset<Endpoint>
    ghost var background: multiset<Endpoint>

    constructor (rps: nat, capacity: nat, ghost now: int)
      requires rps >= 1
      ensures Valid() && foreground == background == multiset{} && endpoints == map[] && clock == now
      ensures this.rps == rps && this.capacity == capacity
    {
      endpoints, queued, backgroundQueued, this.rps, this.capacity := map[], 0, 0, rps, capacity;
      histories, clock, foreground, background := map[], now, multiset{}, multiset{};
    }

    /** The counters are those of the requests inside, and every endpoint is within its limits. */
    ghost predicate Valid()
      reads this
    {
      && rps >= 1 && queued == |foreground| + |background| <= capacity && backgroundQueued == |background| <= Share(capacity)
      && Counted(endpoints, foreground, background) && AllWithin(endpoints, histories, clock, rps)
    }

    /** An endpoint has its budget from its first request on. */
    method Prepare(endpoint: Endpoint)
      requires Valid()
      modifies this`endpoints, this`histories
      ensures Valid() && endpoint in endpoints && (endpoint in old(histories) ==> histories == old(histories))
    {
      hide Counted, AllWithin, Share;
      SameKeys(endpoints, histories, clock, rps);
      if endpoint !in endpoints {
        NewEndpoint(endpoints, histories, clock, rps, foreground, background, endpoint);
        endpoints := endpoints[endpoint := Budget([], [], rps, 0, 0)];
        histories := histories[endpoint := History([], [])];
      }
    }

    /** A request asks to come in. False when the queue is full for its kind. */
    method Enter(endpoint: Endpoint, isBackground: bool) returns (ok: bool)
      requires Valid()
      modifies this
      ensures Valid() && clock == old(clock) && (endpoint in old(histories) ==> histories == old(histories))
      ensures ok <==> old(queued) < capacity && (isBackground ==> old(backgroundQueued) < Share(capacity))
      ensures foreground == With(old(foreground), endpoint, ok && !isBackground)
      ensures background == With(old(background), endpoint, ok && isBackground)
      ensures ok ==> endpoint in endpoints
    {
      hide Counted, AllWithin, Share, With;
      WithNone(foreground, endpoint);
      WithNone(background, endpoint);
      if queued >= capacity || (isBackground && backgroundQueued >= Share(capacity)) { return false; }
      Prepare(endpoint);
      EntryCounted(endpoints, histories, clock, rps, foreground, background, endpoint, isBackground);
      queued := queued + 1;
      if isBackground { backgroundQueued := backgroundQueued + 1; }
      foreground := With(foreground, endpoint, !isBackground);
      background := With(background, endpoint, isBackground);
      endpoints := endpoints[endpoint := endpoints[endpoint].(active := endpoints[endpoint].active + 1)];
      assert Counted(endpoints, foreground, background) && AllWithin(endpoints, histories, clock, rps);
      ok := true;
    }

    /** A request that is inside leaves, however it ended. */
    method Leave(endpoint: Endpoint, isBackground: bool)
      requires Valid() && endpoint in if isBackground then background else foreground
      modifies this
      ensures Valid() && clock == old(clock) && histories == old(histories)
      ensures foreground == Without(old(foreground), endpoint, !isBackground)
      ensures background == Without(old(background), endpoint, isBackground)
    {
      hide Counted, AllWithin, Share, Without;
      LeavingCounted(endpoints, histories, clock, rps, foreground, background, endpoint, isBackground);
      queued := queued - 1;
      if isBackground { backgroundQueued := backgroundQueued - 1; }
      foreground := Without(foreground, endpoint, !isBackground);
      background := Without(background, endpoint, isBackground);
      endpoints := endpoints[endpoint := endpoints[endpoint].(active := endpoints[endpoint].active - 1)];
    }

    /** A request that is inside tries to send. */
    method Acquire(endpoint: Endpoint, isBackground: bool, now: int) returns (wait: nat)
      requires Valid() && endpoint in endpoints && clock <= now
      modifies this`endpoints, this`histories, this`clock
      ensures Valid() && clock == now && histories.Keys == old(histories.Keys) && wait <= SECOND
      ensures forall e :: e in histories && e != endpoint ==> histories[e] == old(histories)[e]
      ensures var h := old(histories)[endpoint];
              && (wait == 0 <==> During(h.all, now) < old(endpoints)[endpoint].limit
                                 && (isBackground ==> During(h.background, now) < Share(old(endpoints)[endpoint].limit)))
              && histories[endpoint] == if wait == 0 then History(h.all + [now], if isBackground then h.background + [now] else h.background) else h
    {
      hide Counted, AllWithin, Within, Share, During;
      SameKeys(endpoints, histories, clock, rps);
      var next;
      ghost var after;
      wait, next, after := TryAcquire(endpoints[endpoint], isBackground, now, histories[endpoint], clock, rps);
      Replaced(endpoints, histories, clock, now, rps, foreground, background, endpoint, next, after);
      endpoints := endpoints[endpoint := next];
      histories := histories[endpoint := after];
      clock := now;
    }

    method Throttle(endpoint: Endpoint, now: int)
      requires Valid()
      modifies this`endpoints
      ensures Valid()
      ensures endpoint in endpoints ==> endpoints[endpoint].limit <= old(endpoints)[endpoint].limit
    {
      if endpoint in endpoints {
        var b := endpoints[endpoint];
        var limit := if b.limit * 3 / 4 > 1 then b.limit * 3 / 4 else 1;
        hide Counted, AllWithin, Within, Share;
        SameKeys(endpoints, histories, clock, rps);
        LimitApart(b, histories[endpoint], clock, rps, limit, now + COOLDOWN);
        Replaced(endpoints, histories, clock, clock, rps, foreground, background, endpoint,
                 b.(limit := limit, recoverAt := now + COOLDOWN), histories[endpoint]);
        Unchanged(histories, endpoint);
        endpoints := endpoints[endpoint := b.(limit := limit, recoverAt := now + COOLDOWN)];
      }
    }

    method Recover(endpoint: Endpoint, now: int)
      requires Valid()
      modifies this`endpoints
      ensures Valid()
      ensures endpoint in endpoints ==>
                var b := old(endpoints)[endpoint];
                endpoints[endpoint].limit == if now >= b.recoverAt && b.limit < rps then b.limit + 1 else b.limit
    {
      if endpoint in endpoints && now >= endpoints[endpoint].recoverAt {
        var b := endpoints[endpoint];
        var limit := if rps < b.limit + 1 then rps else b.limit + 1;
        hide Counted, AllWithin, Within, Share;
        SameKeys(endpoints, histories, clock, rps);
        LimitApart(b, histories[endpoint], clock, rps, limit, now + COOLDOWN);
        Replaced(endpoints, histories, clock, clock, rps, foreground, background, endpoint,
                 b.(limit := limit, recoverAt := now + COOLDOWN), histories[endpoint]);
        Unchanged(histories, endpoint);
        endpoints := endpoints[endpoint := b.(limit := limit, recoverAt := now + COOLDOWN)];
      }
    }

    /** No second, in any run, holds more than rps admissions to an endpoint, or more background ones than their share. */
    lemma NoBusySecond(endpoint: Endpoint, t: int)
      requires Valid() && endpoint in histories
      ensures During(histories[endpoint].all, t) <= rps && During(histories[endpoint].background, t) <= Share(rps)
    {
      SameKeys(endpoints, histories, clock, rps);
      AnySecond(histories[endpoint].all, rps, t);
      AnySecond(histories[endpoint].background, Share(rps), t);
    }
  }

  lemma SameKeys(endpoints: map<Endpoint, Budget>, histories: map<Endpoint, History>, clock: int, rps: nat)
    requires AllWithin(endpoints, histories, clock, rps)
    ensures endpoints.Keys == histories.Keys
    ensures forall e :: e in endpoints ==> Within(endpoints[e], histories[e], clock, rps)
  {
  }

  lemma Unchanged(histories: map<Endpoint, History>, endpoint: Endpoint)
    requires endpoint in histories
    ensures histories[endpoint := histories[endpoint]] == histories
  {
  }

  lemma NewEndpoint(endpoints: map<Endpoint, Budget>, histories: map<Endpoint, History>, clock: int, rps: nat,
                    foreground: multiset<Endpoint>, background: multiset<Endpoint>, endpoint: Endpoint)
    requires rps >= 1 && endpoint !in endpoints
    requires Counted(endpoints, foreground, background) && AllWithin(endpoints, histories, clock, rps)
    ensures var more := endpoints[endpoint := Budget([], [], rps, 0, 0)];
            Counted(more, foreground, background) && AllWithin(more, histories[endpoint := History([], [])], clock, rps)
  {
    hide Remembers, Up, Spaced;
    NewWithin(clock, rps);
  }

  lemma Replaced(endpoints: map<Endpoint, Budget>, histories: map<Endpoint, History>, clock: int, now: int, rps: nat,
                 foreground: multiset<Endpoint>, background: multiset<Endpoint>, endpoint: Endpoint, next: Budget, after: History)
    requires Counted(endpoints, foreground, background) && AllWithin(endpoints, histories, clock, rps) && clock <= now
    requires endpoint in endpoints && next.active == endpoints[endpoint].active && Within(next, after, now, rps)
    ensures Counted(endpoints[endpoint := next], foreground, background)
    ensures AllWithin(endpoints[endpoint := next], histories[endpoint := after], now, rps)
  {
    hide Within;
    forall e | e in endpoints ensures Within(endpoints[e], histories[e], now, rps) {
      WithinLater(endpoints[e], histories[e], clock, now, rps);
    }
  }

  lemma EntryCounted(endpoints: map<Endpoint, Budget>, histories: map<Endpoint, History>, clock: int, rps: nat,
                     foreground: multiset<Endpoint>, background: multiset<Endpoint>, endpoint: Endpoint, isBackground: bool)
    requires Counted(endpoints, foreground, background) && AllWithin(endpoints, histories, clock, rps) && endpoint in endpoints
    ensures var more := endpoints[endpoint := endpoints[endpoint].(active := endpoints[endpoint].active + 1)];
            Counted(more, With(foreground, endpoint, !isBackground), With(background, endpoint, isBackground))
            && AllWithin(more, histories, clock, rps)
    ensures |With(foreground, endpoint, !isBackground)| == |foreground| + (if isBackground then 0 else 1)
    ensures |With(background, endpoint, isBackground)| == |background| + (if isBackground then 1 else 0)
  {
    hide AllWithin;
    ActiveWithin(endpoints, histories, clock, rps, endpoint, endpoints[endpoint].active + 1);
  }

  lemma LeavingCounted(endpoints: map<Endpoint, Budget>, histories: map<Endpoint, History>, clock: int, rps: nat,
                       foreground: multiset<Endpoint>, background: multiset<Endpoint>, endpoint: Endpoint, isBackground: bool)
    requires Counted(endpoints, foreground, background) && AllWithin(endpoints, histories, clock, rps)
    requires endpoint in if isBackground then background else foreground
    ensures endpoint in endpoints && endpoints[endpoint].active > 0
    ensures var less := endpoints[endpoint := endpoints[endpoint].(active := endpoints[endpoint].active - 1)];
            Counted(less, Without(foreground, endpoint, !isBackground), Without(background, endpoint, isBackground))
            && AllWithin(less, histories, clock, rps)
    ensures |Without(foreground, endpoint, !isBackground)| == |foreground| - (if isBackground then 0 else 1)
    ensures |Without(background, endpoint, isBackground)| == |background| - (if isBackground then 1 else 0)
  {
    hide AllWithin, Without;
    WithoutCounts(foreground, endpoint, !isBackground);
    WithoutCounts(background, endpoint, isBackground);
    assert foreground[endpoint] + background[endpoint] > 0;
    ActiveWithin(endpoints, histories, clock, rps, endpoint, endpoints[endpoint].active - 1);
  }

  lemma ActiveWithin(endpoints: map<Endpoint, Budget>, histories: map<Endpoint, History>, clock: int, rps: nat, endpoint: Endpoint, active: nat)
    requires AllWithin(endpoints, histories, clock, rps) && endpoint in endpoints
    ensures AllWithin(endpoints[endpoint := endpoints[endpoint].(active := active)], histories, clock, rps)
  {
    hide Within;
    ActiveApart(endpoints[endpoint], histories[endpoint], clock, rps, active);
  }

  lemma WithoutCounts(m: multiset<Endpoint>, e: Endpoint, yes: bool)
    requires yes ==> e in m
    ensures |Without(m, e, yes)| == |m| - (if yes then 1 else 0)
    ensures forall f :: Without(m, e, yes)[f] == if yes && f == e then m[f] - 1 else m[f]
  {
  }

  lemma WithNone(m: multiset<Endpoint>, e: Endpoint)
    ensures With(m, e, false) == m
  {
  }

  lemma NewWithin(clock: int, rps: nat)
    requires rps >= 1
    ensures Within(Budget([], [], rps, 0, 0), History([], []), clock, rps)
  {
  }

  lemma ActiveApart(b: Budget, h: History, clock: int, rps: nat, active: nat)
    requires Within(b, h, clock, rps)
    ensures Within(b.(active := active), h, clock, rps)
  {
  }

  lemma LimitApart(b: Budget, h: History, clock: int, rps: nat, limit: nat, recoverAt: int)
    requires Within(b, h, clock, rps)
    ensures 1 <= limit <= rps ==> Within(b.(limit := limit, recoverAt := recoverAt), h, clock, rps)
    ensures 1 <= b.limit <= rps
  {
  }
}
