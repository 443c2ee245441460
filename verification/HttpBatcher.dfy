/**
 Adaptive JSON-RPC batching over HTTP: a batch that is refused is split or sent one by one, an answer is matched to its
 request by id, and a request without a unique answer is sent again on its own. JSON-RPC 2.0, section 6, "Batch".
 */
module HttpBatcher {
  import opened Blocks

  datatype Request = Request(id: nat, call: string)

  datatype Response = Response(id: Option<int>, payload: string)

  /**
   What a POST gives: a transport failure, whether with status 413 or not; one object, perhaps an error that names a
   maximum or a code; a list that is not one of responses; or a list of responses.
   */
  datatype Answer =
    | Failure(tooLarge: bool)
    | Object(response: Response, maximum: Option<nat>, code: Option<int>)
    | Malformed
    | Batch(responses: seq<Response>)

  /** A request's exit: the response matched to it, or the answer to its own POST. */
  datatype Exit = Matched(response: Response) | Own(answer: Answer)

  datatype Result = Exits(exits: seq<Exit>) | Failed(tooLarge: bool)

  /** One POST on the wire. */
  datatype Exchange = Exchange(body: seq<Request>, answer: Answer)

  /** What the server answers to the k-th POST. */
  type Server = (nat, seq<Request>) -> Answer

  const UNSUPPORTED_FOR: nat := 60000

  /** The server names a maximum that this batch exceeds. */
  predicate Names(maximum: Option<nat>, n: nat) { maximum.Some? && 0 < maximum.value < n }

  function Half(n: nat): nat { if n / 2 > 1 then n / 2 else 1 }

  predicate NotSupported(code: Option<int>) { code == Some(-32600) || code == Some(-32601) }

  ghost predicate DistinctIds(requests: seq<Request>) {
    forall i, j :: 0 <= i < j < |requests| ==> requests[i].id != requests[j].id
  }

  /** The only response with this id is the one at index k. */
  ghost predicate OnlyMatch(responses: seq<Response>, id: nat, k: nat) {
    && k < |responses| && responses[k].id == Some(id)
    && forall j :: 0 <= j < |responses| && responses[j].id == Some(id) ==> j == k
  }

  /** The exit comes from an exchange that carried the request: its own POST, or a batch with one response of its id. */
  ghost predicate Justified(log: seq<Exchange>, from: nat, request: Request, exit: Exit) {
    exists k :: from <= k < |log| && JustifiedBy(log[k], request, exit)
  }

  ghost predicate JustifiedBy(exchange: Exchange, request: Request, exit: Exit) {
    match exit
    case Own(answer) => exchange.body == [request] && exchange.answer == answer
    case Matched(response) =>
      && request in exchange.body && |exchange.body| > 1 && exchange.answer.Batch?
      && exists k: nat :: OnlyMatch(exchange.answer.responses, request.id, k) && exchange.answer.responses[k] == response
  }

  ghost predicate AllJustified(log: seq<Exchange>, from: nat, requests: seq<Request>, exits: seq<Exit>) {
    |exits| == |requests| && forall i :: 0 <= i < |requests| ==> Justified(log, from, requests[i], exits[i])
  }

  lemma OneLater(log: seq<Exchange>, more: seq<Exchange>, from: nat, earlier: nat, request: Request, exit: Exit)
    requires Justified(log, from, request, exit) && log <= more && earlier <= from
    ensures Justified(more, earlier, request, exit)
  {
    hide JustifiedBy;
    var k :| from <= k < |log| && JustifiedBy(log[k], request, exit);
    assert more[k] == log[k];
  }

  lemma JustifiedLater(log: seq<Exchange>, more: seq<Exchange>, from: nat, requests: seq<Request>, exits: seq<Exit>)
    requires AllJustified(log, from, requests, exits) && log <= more
    ensures AllJustified(more, from, requests, exits)
  {
    hide Justified;
    forall i | 0 <= i < |requests| ensures Justified(more, from, requests[i], exits[i]) {
      OneLater(log, more, from, from, requests[i], exits[i]);
    }
  }

  lemma JustifiedMore(log: seq<Exchange>, from: nat, a: seq<Request>, x: seq<Exit>, b: seq<Request>, y: seq<Exit>)
    requires AllJustified(log, from, a, x) && AllJustified(log, from, b, y)
    ensures AllJustified(log, from, a + b, x + y)
  {
    hide Justified;
  }

  lemma JustifiedEarlier(log: seq<Exchange>, from: nat, earlier: nat, requests: seq<Request>, exits: seq<Exit>)
    requires AllJustified(log, from, requests, exits) && earlier <= from
    ensures AllJustified(log, earlier, requests, exits)
  {
    hide Justified;
    forall i | 0 <= i < |requests| ensures Justified(log, earlier, requests[i], exits[i]) {
      OneLater(log, log, from, earlier, requests[i], exits[i]);
    }
  }

  lemma NoneJustified(log: seq<Exchange>, from: nat)
    ensures AllJustified(log, from, [], [])
  {
  }

  lemma OneJustified(log: seq<Exchange>, from: nat, request: Request, exit: Exit)
    requires from < |log| && JustifiedBy(log[|log| - 1], request, exit)
    ensures AllJustified(log, from, [request], [exit])
  {
  }

  /** A request with one response of its id is not sent again. */
  ghost predicate MatchedIf(request: Request, responses: seq<Response>, exit: Exit) {
    (exists k: nat :: OnlyMatch(responses, request.id, k)) ==> exit.Matched?
  }

  ghost predicate AllMatched(requests: seq<Request>, responses: seq<Response>, exits: seq<Exit>) {
    |exits| == |requests| && forall i :: 0 <= i < |requests| ==> MatchedIf(requests[i], responses, exits[i])
  }

  lemma MatchesAre(request: Request, responses: seq<Response>, matches: seq<nat>, exit: Exit)
    requires forall k: nat :: k < |responses| && responses[k].id == Some(request.id) <==> k in matches
    requires forall i, j :: 0 <= i < j < |matches| ==> matches[i] < matches[j]
    requires |matches| == 1 ==> exit.Matched?
    ensures MatchedIf(request, responses, exit)
  {
    if exists k: nat :: OnlyMatch(responses, request.id, k) {
      var k: nat :| OnlyMatch(responses, request.id, k);
      assert k in matches;
      forall i | 0 <= i < |matches| ensures matches[i] == k {
        assert matches[i] in matches;
      }
      OnlyOneLeft(matches, k);
    }
  }

  lemma OnlyOneLeft(matches: seq<nat>, k: nat)
    requires k in matches && (forall i :: 0 <= i < |matches| ==> matches[i] == k)
    requires forall i, j :: 0 <= i < j < |matches| ==> matches[i] < matches[j]
    ensures |matches| == 1
  {
    FirstTwo(matches);
  }

  lemma FirstTwo(matches: seq<nat>)
    requires forall i, j :: 0 <= i < j < |matches| ==> matches[i] < matches[j]
    ensures |matches| <= 1 || matches[0] < matches[1]
  {
  }

  class Batcher {
    var limit: nat
    var unsupportedUntil: int
    var posts: nat
    ghost var log: seq<Exchange>
    const server: Server
    const time: nat -> int

    constructor (size: nat, server: Server, time: nat -> int)
      requires size >= 1
      ensures limit == size && log == [] && posts == 0
    {
      limit, unsupportedUntil, posts, log, this.server, this.time := size, 0, 0, [], server, time;
    }

    method Execute(body: seq<Request>) returns (answer: Answer)
      modifies this`posts, this`log
      ensures log == old(log) + [Exchange(body, answer)]
    {
      answer := server(posts, body);
      posts := posts + 1;
      log := log + [Exchange(body, answer)];
    }

    /** Each request in a POST of its own. */
    method SendSingly(requests: seq<Request>) returns (exits: seq<Exit>)
      modifies this`posts, this`log
      ensures old(log) <= log && AllJustified(log, |old(log)|, requests, exits)
    {
      hide AllJustified;
      exits := [];
      NoneJustified(log, |log|);
      assert requests[..0] == [];
      for i := 0 to |requests|
        invariant old(log) <= log && AllJustified(log, |old(log)|, requests[..i], exits)
      {
        ghost var before := log;
        var answer := Execute([requests[i]]);
        JustifiedLater(before, log, |old(log)|, requests[..i], exits);
        OneJustified(log, |old(log)|, requests[i], Own(answer));
        JustifiedMore(log, |old(log)|, requests[..i], exits, [requests[i]], [Own(answer)]);
        assert requests[..i + 1] == requests[..i] + [requests[i]];
        exits := exits + [Own(answer)];
      }
      assert requests[..|requests|] == requests;
    }

    /** The indexes of the responses with this id. */
    method Matches(responses: seq<Response>, id: nat) returns (matches: seq<nat>)
      ensures forall k: nat :: k < |responses| && responses[k].id == Some(id) <==> k in matches
      ensures forall i, j :: 0 <= i < j < |matches| ==> matches[i] < matches[j]
    {
      matches := [];
      for k := 0 to |responses|
        invariant forall j: nat :: j < k && responses[j].id == Some(id) <==> j in matches
        invariant forall i :: 0 <= i < |matches| ==> matches[i] < k
        invariant forall i, j :: 0 <= i < j < |matches| ==> matches[i] < matches[j]
      {
        if responses[k].id == Some(id) { matches := matches + [k]; }
      }
    }

    /** Gives each request the one response with its id, or sends it again. */
    method MatchUp(requests: seq<Request>, responses: seq<Response>, ghost from: nat) returns (exits: seq<Exit>)
      requires |requests| > 1 && from < |log| && log[|log| - 1] == Exchange(requests, Batch(responses))
      modifies this`posts, this`log
      ensures old(log) <= log && AllJustified(log, from, requests, exits)
      ensures AllMatched(requests, responses, exits)
    {
      hide AllJustified, JustifiedBy, OnlyMatch;
      exits := [];
      NoneJustified(log, from);
      assert requests[..0] == [];
      for i := 0 to |requests|
        invariant old(log) <= log && AllJustified(log, from, requests[..i], exits)
        invariant |exits| == i && forall j :: 0 <= j < i ==> MatchedIf(requests[j], responses, exits[j])
      {
        var matches := Matches(responses, requests[i].id);
        ghost var before := log;
        var exit;
        if |matches| == 1 {
          assert matches[0] in matches;
          exit := Matched(responses[matches[0]]);
          MatchJustified(old(log), log, from, requests, responses, i, matches);
        } else {
          var answer := Execute([requests[i]]);
          exit := Own(answer);
          OwnJustified(log[|log| - 1], requests[i], answer);
          OneJustified(log, from, requests[i], exit);
        }
        MatchesAre(requests[i], responses, matches, exit);
        JustifiedLater(before, log, from, requests[..i], exits);
        JustifiedMore(log, from, requests[..i], exits, [requests[i]], [exit]);
        assert requests[..i + 1] == requests[..i] + [requests[i]];
        exits := exits + [exit];
      }
      assert requests[..|requests|] == requests;
    }

    /** How far a batch is from its last form: sent singly, split, or posted as it is. */
    function Rank(requests: seq<Request>, now: int): nat
      reads this
    {
      if now < unsupportedUntil || |requests| <= 1 then 0 else if |requests| > limit then 1 else 2
    }

    /**
     Sends a batch. It ends whatever the server does; the limit never grows and stays positive; either each request
     has one justified exit, in order, or the batch fails as a whole, and then never for being too large.
     */
    method Send(requests: seq<Request>, now: int) returns (r: Result)
      requires limit >= 1
      modifies this
      ensures 1 <= limit <= old(limit) && old(log) <= log
      ensures r.Exits? ==> AllJustified(log, |old(log)|, requests, r.exits)
      ensures r.Failed? ==> !r.tooLarge
      ensures now >= old(unsupportedUntil) && 1 < |requests| <= old(limit) ==>
                && |log| > |old(log)| && log[|old(log)|].body == requests
                && match log[|old(log)|].answer
                   case Batch(responses) => r.Exits? && limit == old(limit) && AllMatched(requests, responses, r.exits)
                   case Failure(tooLarge) => if tooLarge then limit <= Half(|requests|) else r.Failed? && limit == old(limit)
                   case Object(_, maximum, code) => Names(maximum, |requests|) ==> limit <= maximum.value
                   case Malformed => r.Failed? && limit == old(limit)
      decreases |requests|, Rank(requests, now)
    {
      hide AllJustified;
      NoneJustified(log, |log|);
      if |requests| == 0 { return Exits([]); }
      if now < unsupportedUntil || |requests| == 1 {
        var exits := SendSingly(requests);
        return Exits(exits);
      }
      if |requests| > limit {
        r := SendChunks(requests, limit);
        return;
      }
      var answer := Execute(requests);
      var later := time(posts);
      match answer
      case Batch(responses) =>
        var exits := MatchUp(requests, responses, |old(log)|);
        r := Exits(exits);
      case Malformed => r := Failed(false);
      case Object(_, maximum, code) =>
        if Names(maximum, |requests|) {
          limit := maximum.value;
          r := Again(requests, later, |old(log)|);
        } else if NotSupported(code) {
          unsupportedUntil := later + UNSUPPORTED_FOR;
          r := Again(requests, later, |old(log)|);
        } else {
          r := Failed(false);
        }
      case Failure(tooLarge) =>
        if tooLarge {
          limit := Half(|requests|);
          r := Again(requests, later, |old(log)|);
        } else {
          r := Failed(false);
        }
    }

    /** The same batch once more, when it will not be posted as it is. */
    method Again(requests: seq<Request>, now: int, ghost from: nat) returns (r: Result)
      requires limit >= 1 && |requests| > 1 && Rank(requests, now) < 2 && from <= |log|
      modifies this
      ensures 1 <= limit <= old(limit) && old(log) <= log
      ensures r.Exits? ==> AllJustified(log, from, requests, r.exits)
      ensures r.Failed? ==> !r.tooLarge
      decreases |requests|, 2, 0
    {
      hide AllJustified;
      ghost var start := |log|;
      r := Send(requests, now);
      if r.Exits? { JustifiedEarlier(log, start, from, requests, r.exits); }
    }

    /** The batch in slices of `size`, one after the other; the first that fails ends it. */
    method SendChunks(requests: seq<Request>, size: nat) returns (r: Result)
      requires 1 <= limit == size < |requests|
      modifies this
      ensures 1 <= limit <= old(limit) && old(log) <= log
      ensures r.Exits? ==> AllJustified(log, |old(log)|, requests, r.exits)
      ensures r.Failed? ==> !r.tooLarge
      decreases |requests|, 0
    {
      hide AllJustified;
      var exits: seq<Exit> := [];
      NoneJustified(log, |log|);
      assert requests[..0] == [];
      var done := 0;
      while done < |requests|
        invariant done <= |requests| && 1 <= limit <= old(limit) && old(log) <= log
        invariant AllJustified(log, |old(log)|, requests[..done], exits)
      {
        var end := if done + size < |requests| then done + size else |requests|;
        ghost var before := log;
        var part := Send(requests[done..end], time(posts));
        if part.Failed? { return part; }
        JustifiedLater(before, log, |old(log)|, requests[..done], exits);
        JustifiedEarlier(log, |before|, |old(log)|, requests[done..end], part.exits);
        JustifiedMore(log, |old(log)|, requests[..done], exits, requests[done..end], part.exits);
        assert requests[..done] + requests[done..end] == requests[..end];
        exits := exits + part.exits;
        done := end;
      }
      assert requests[..|requests|] == requests;
      r := Exits(exits);
    }
  }

  /** What a caller gets of its exit: a response that carries the id of its own request, or an error. */
  function Delivered(request: Request, exit: Exit): Option<Response> {
    match exit
    case Matched(response) => if response.id == Some(request.id) then Some(response) else None
    case Own(answer) => if answer.Object? && answer.response.id == Some(request.id) then Some(answer.response) else None
  }

  /** A matched response is always delivered, and no caller is given the response of another request. */
  lemma DeliveredIsOwn(log: seq<Exchange>, from: nat, requests: seq<Request>, exits: seq<Exit>, i: nat, j: nat)
    requires AllJustified(log, from, requests, exits) && DistinctIds(requests) && i < |requests| && j < |requests| && i != j
    ensures exits[i].Matched? ==> Delivered(requests[i], exits[i]) == Some(exits[i].response)
    ensures Delivered(requests[i], exits[i]).Some? ==> Delivered(requests[i], exits[i]) != Delivered(requests[j], exits[j])
  {
    assert Justified(log, from, requests[i], exits[i]);
    var k :| from <= k < |log| && JustifiedBy(log[k], requests[i], exits[i]);
    assert requests[i].id != requests[j].id;
  }

  lemma OwnJustified(exchange: Exchange, request: Request, answer: Answer)
    requires exchange == Exchange([request], answer)
    ensures JustifiedBy(exchange, request, Own(answer))
  {
  }

  lemma MatchJustified(posted: seq<Exchange>, log: seq<Exchange>, from: nat, requests: seq<Request>, responses: seq<Response>, i: nat, matches: seq<nat>)
    requires posted <= log && from < |posted| && posted[|posted| - 1] == Exchange(requests, Batch(responses)) && |requests| > 1
    requires i < |requests| && |matches| == 1 && matches[0] < |responses|
    requires forall k: nat :: k < |responses| && responses[k].id == Some(requests[i].id) <==> k in matches
    ensures AllJustified(log, from, [requests[i]], [Matched(responses[matches[0]])])
  {
    var exchange := posted[|posted| - 1];
    assert matches[0] in matches;
    assert OnlyMatch(responses, requests[i].id, matches[0]);
    assert JustifiedBy(exchange, requests[i], Matched(responses[matches[0]]));
    assert log[|posted| - 1] == exchange;
  }
}
