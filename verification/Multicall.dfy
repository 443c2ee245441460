/**
 Batched contract reads: equal requests are asked once, the rest go through one call of the aggregate contract, and
 when that cannot be trusted each is asked on its own. What a caller receives does not depend on the batching.
 */
module Multicall {
  import opened Blocks
  import opened Abi

  datatype Request = Request(target: Bytes, data: Bytes)

  datatype Exit = Success(data: Bytes) | Reverted(data: Bytes)

  /** What the call of the aggregate contract gives: its return data, a revert, or another failure. */
  datatype Reply = Returned(data: Bytes) | ContractReverted | Broken

  predicate IsRequest(request: Request) { |request.target| == 20 }

  ghost predicate AllRequests(calls: seq<Request>) {
    forall i :: 0 <= i < |calls| ==> IsRequest(calls[i])
  }

  // ------------------------------------------------------------------------------------------ one request once

  /** The distinct requests in order of first appearance, and for each request its place among them. */
  method Deduplicate(calls: seq<Request>) returns (unique: seq<Request>, indexes: seq<nat>)
    ensures |indexes| == |calls| && forall i :: 0 <= i < |calls| ==> indexes[i] < |unique| && unique[indexes[i]] == calls[i]
    ensures forall i, j :: 0 <= i < j < |unique| ==> unique[i] != unique[j]
    ensures forall k :: 0 <= k < |unique| ==> unique[k] in calls
  {
    var positions: map<Request, nat> := map[];
    unique, indexes := [], [];
    for i := 0 to |calls|
      invariant |indexes| == i && forall j :: 0 <= j < i ==> indexes[j] < |unique| && unique[indexes[j]] == calls[j]
      invariant forall call :: call in positions <==> call in unique
      invariant forall call :: call in positions ==> positions[call] < |unique| && unique[positions[call]] == call
      invariant forall j, k :: 0 <= j < k < |unique| ==> unique[j] != unique[k]
      invariant forall k :: 0 <= k < |unique| ==> unique[k] in calls
    {
      var call := calls[i];
      if call in positions {
        indexes := indexes + [positions[call]];
      } else {
        indexes := indexes + [|unique|];
        positions := positions[call := |unique|];
        unique := unique + [call];
      }
    }
  }

  // ------------------------------------------------------------------------------------------ the aggregate call

  const MULTICALL: Bytes := [0xca, 0x11, 0xbd, 0xe0, 0x59, 0x77, 0xb3, 0x63, 0x11, 0x67, 0x02, 0x88, 0x62, 0xbe, 0x2a, 0x17, 0x39, 0x76, 0xca, 0x11]

  const GET_BLOCK_NUMBER: Bytes := [0x42, 0xcb, 0xb1, 0x5c]

  function CallOf(request: Request): Call { Call(request.target, true, request.data) }

  /** The calls of a batch, and last the contract's own block number. */
  function BatchOf(calls: seq<Request>): seq<Call> {
    seq(|calls|, i requires 0 <= i < |calls| => CallOf(calls[i])) + [Call(MULTICALL, false, GET_BLOCK_NUMBER)]
  }

  function ExitOf(result: (bool, Bytes)): Exit { if result.0 then Success(result.1) else Reverted(result.1) }

  /** One result for each call, and the block number that was asked for. */
  predicate Verified(results: seq<(bool, Bytes)>, n: nat, blockNumber: nat) {
    && |results| == n + 1 && results[n].0 && |results[n].1| == WORD && Value(results[n].1) == blockNumber
  }

  /** The aggregate contract has code. */
  predicate Deployed(code: Reply) { code.Returned? && code.data != [] }

  class Reads {
    var blockVerificationSupported: bool

    constructor ()
      ensures blockVerificationSupported
    {
      blockVerificationSupported := true;
    }

    /**
     The distinct requests of a batch; `code` is what the read of the aggregate contract's code gives, empty where there
     is none. None when that read or the aggregate call fails for another reason than the contract. An accepted
     aggregate answer has one result per request and the right block number; every other answer is ignored and the
     requests are asked one by one.
     */
    method RunUnique(calls: seq<Request>, code: Reply, aggregate: Bytes -> Reply, single: Request -> Exit, blockNumber: nat)
      returns (r: Option<seq<Exit>>)
      modifies this
      ensures r.Some? ==> |r.value| == |calls|
      ensures r.None? <==> |calls| != 1 && (code.Broken? || (Deployed(code) && aggregate(EncodedCalls(BatchOf(calls))).Broken?))
      ensures r.Some? && (|calls| == 1 || !Deployed(code) || !Accepted(calls, aggregate, blockNumber)) ==>
                forall i :: 0 <= i < |calls| ==> r.value[i] == single(calls[i])
      ensures |calls| != 1 && Deployed(code) && Accepted(calls, aggregate, blockNumber) ==>
                r.Some? && forall i :: 0 <= i < |calls| ==> r.value[i] == ExitOf(Decoded(aggregate(EncodedCalls(BatchOf(calls))).data).value[i])
      ensures !blockVerificationSupported && old(blockVerificationSupported) ==>
                |calls| != 1 && Deployed(code) && aggregate(EncodedCalls(BatchOf(calls))).Returned?
                && !Accepted(calls, aggregate, blockNumber)
    {
      hide EncodedCalls, Decoded, BatchOf, Value;
      var singles := seq(|calls|, i requires 0 <= i < |calls| => single(calls[i]));
      if |calls| == 1 { return Some(singles); }
      if code.Broken? { return None; }
      if !Deployed(code) { return Some(singles); }
      var data := EncodeAggregate3(BatchOf(calls));
      var raw := aggregate(data);
      if raw.Broken? { return None; }
      if raw.ContractReverted? { return Some(singles); }
      var decoded := DecodeAggregate3(raw.data);
      if decoded.None? { return Some(singles); }
      if !Verified(decoded.value, |calls|, blockNumber) {
        blockVerificationSupported := false;
        return Some(singles);
      }
      r := Some(seq(|calls|, i requires 0 <= i < |calls| => ExitOf(decoded.value[i])));
    }

    /**
     The requests of a batch as they were queued, with repetitions; `asked` are the distinct ones. Behind an honest
     provider each caller receives exactly what its request gives on its own, and no batch fails as a whole unless the
     contract's code cannot be read.
     */
    method Run(calls: seq<Request>, code: Reply, aggregate: Bytes -> Reply, single: Request -> Exit, blockNumber: nat)
      returns (r: Option<seq<Exit>>, ghost asked: seq<Request>)
      modifies this
      ensures r.Some? ==> |r.value| == |calls|
      ensures forall k :: 0 <= k < |asked| ==> asked[k] in calls
      ensures AllRequests(calls) && Honest(aggregate, single, blockNumber) && FitsMemory(asked, single, blockNumber) && !code.Broken? ==> r.Some?
      ensures AllRequests(calls) && Honest(aggregate, single, blockNumber) && FitsMemory(asked, single, blockNumber) && r.Some? ==>
                forall i :: 0 <= i < |calls| ==> r.value[i] == single(calls[i])
    {
      hide Honest, Accepted, FitsMemory, EncodedCalls, Decoded, BatchOf, ExitOf;
      var unique, indexes := Deduplicate(calls);
      asked := unique;
      var results := RunUnique(unique, code, aggregate, single, blockNumber);
      if AllRequests(calls) && Honest(aggregate, single, blockNumber) && FitsMemory(asked, single, blockNumber) {
        forall k | 0 <= k < |unique| ensures IsRequest(unique[k]) {
          assert unique[k] in calls;
        }
        HonestAnswers(unique, aggregate, single, blockNumber);
      }
      if results.None? { return None, asked; }
      r := Some(seq(|calls|, i requires 0 <= i < |calls| => results.value[indexes[i]]));
    }
  }

  /** An honest provider's answer is accepted, and gives each request its own result. */
  lemma HonestAnswers(calls: seq<Request>, aggregate: Bytes -> Reply, single: Request -> Exit, blockNumber: nat)
    requires AllRequests(calls) && Honest(aggregate, single, blockNumber) && FitsMemory(calls, single, blockNumber)
    ensures Accepted(calls, aggregate, blockNumber)
    ensures forall i :: 0 <= i < |calls| ==> ExitOf(Decoded(aggregate(EncodedCalls(BatchOf(calls))).data).value[i]) == single(calls[i])
  {
    hide EncodedCalls, EncodedResults, Decoded, DecodedCalls, Value, Pow, Word, Array;
    var batch := BatchOf(calls);
    var results := ExecutedAll(batch, single, blockNumber);
    EncodedIsDecodable(batch);
    assert HonestAt(aggregate, single, blockNumber, EncodedCalls(batch));
    assert aggregate(EncodedCalls(batch)) == Returned(EncodedResults(results));
    DecodedIsEncoded(results);
    assert Decoded(aggregate(EncodedCalls(batch)).data) == Some(results);
    WordValue(blockNumber);
    assert results[|calls|] == (true, Word(blockNumber));
    assert Verified(results, |calls|, blockNumber);
    forall i | 0 <= i < |calls| ensures ExitOf(results[i]) == single(calls[i]) {
      assert batch[i] == CallOf(calls[i]);
    }
  }

  predicate Accepted(calls: seq<Request>, aggregate: Bytes -> Reply, blockNumber: nat) {
    var raw := aggregate(EncodedCalls(BatchOf(calls)));
    raw.Returned? && Decoded(raw.data).Some? && Verified(Decoded(raw.data).value, |calls|, blockNumber)
  }

  /** What the contract does with a call: its own block number, or what the request gives on its own. */
  function Executed(call: Call, single: Request -> Exit, blockNumber: nat): (bool, Bytes) {
    if call.target == MULTICALL && call.data == GET_BLOCK_NUMBER then (true, Word(blockNumber))
    else
      match single(Request(call.target, call.data))
      case Success(data) => (true, data)
      case Reverted(data) => (false, data)
  }

  function ExecutedAll(calls: seq<Call>, single: Request -> Exit, blockNumber: nat): seq<(bool, Bytes)> {
    seq(|calls|, i requires 0 <= i < |calls| => Executed(calls[i], single, blockNumber))
  }

  /**
   A provider that runs the deployed contract: it decodes the calls as the specification says, executes each, and
   returns their results in the reference encoding.
   */
  ghost predicate Honest(aggregate: Bytes -> Reply, single: Request -> Exit, blockNumber: nat) {
    && blockNumber < Pow(WORD)
    && (forall data: Bytes :: HonestAt(aggregate, single, blockNumber, data))
    && single(Request(MULTICALL, GET_BLOCK_NUMBER)) == Success(Word(blockNumber))
  }

  ghost predicate HonestAt(aggregate: Bytes -> Reply, single: Request -> Exit, blockNumber: nat, data: Bytes) {
    |data| >= 4 && data[..4] == SELECTOR && DecodedCalls(data[4..]).Some? ==>
      aggregate(data) == Returned(EncodedResults(ExecutedAll(DecodedCalls(data[4..]).value, single, blockNumber)))
  }

  /** Neither the calls of a batch nor their results exceed what an array can hold. */
  ghost predicate FitsMemory(calls: seq<Request>, single: Request -> Exit, blockNumber: nat) {
    && |Array(CallParts(BatchOf(calls)))| < Pow(WORD)
    && |EncodedResults(ExecutedAll(BatchOf(calls), single, blockNumber))| <= MAX_SAFE
  }
}
