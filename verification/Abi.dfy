/**
 The hand-written codec for Multicall3: the encoder of (address,bool,bytes)[] calls and the decoder of (bool,bytes)[]
 results, on bytes, with the layout of the Solidity Contract ABI Specification, "Formal Specification of the Encoding".
 */
module Abi {
  import opened Blocks

  type Byte = b: nat | b < 256

  type Bytes = seq<Byte>

  const WORD: nat := 32

  const MAX_SAFE: nat := 9007199254740991

  // ------------------------------------------------------------------------------------------ words

  function Pow(n: nat): nat { if n == 0 then 1 else 256 * Pow(n - 1) }

  /** The low n bytes of a number, most significant first. */
  function BigEndian(v: nat, n: nat): (b: Bytes)
    ensures |b| == n
  {
    if n == 0 then [] else BigEndian(v / 256, n - 1) + [v % 256]
  }

  /** A number in one word; the source throws on one that does not fit. */
  function Word(v: nat): (b: Bytes)
    ensures |b| == WORD
  {
    BigEndian(v, WORD)
  }

  function Value(b: Bytes): nat { if b == [] then 0 else Value(b[..|b| - 1]) * 256 + b[|b| - 1] }

  lemma {:induction false} ValueOfBigEndian(v: nat, n: nat)
    requires v < Pow(n)
    ensures Value(BigEndian(v, n)) == v
  {
    if n > 0 {
      ValueOfBigEndian(v / 256, n - 1);
      var b := BigEndian(v, n);
      assert b[..|b| - 1] == BigEndian(v / 256, n - 1);
    }
  }

  lemma {:induction false} PowGrows(n: nat, m: nat)
    requires n <= m
    ensures Pow(n) <= Pow(m)
    decreases m
  {
    if n < m {
      PowGrows(n, m - 1);
    }
  }

  lemma SafeFits()
    ensures MAX_SAFE < Pow(WORD)
  {
    hide Pow;
    PowSeven();
    PowGrows(7, WORD);
  }

  lemma PowSeven()
    ensures Pow(7) == 72057594037927936
  {
    assert Pow(1) == 256 * Pow(0);
    assert Pow(2) == 65536;
    assert Pow(3) == 256 * Pow(2);
    assert Pow(4) == 256 * Pow(3);
    assert Pow(5) == 256 * Pow(4);
    assert Pow(6) == 256 * Pow(5);
  }

  lemma WordValue(v: nat)
    requires v < Pow(WORD)
    ensures Value(Word(v)) == v
  {
    ValueOfBigEndian(v, WORD);
  }

  // ------------------------------------------------------------------------------------------ encoding

  datatype Call = Call(target: Bytes, allowFailure: bool, data: Bytes)

  predicate IsCall(call: Call) { |call.target| == 20 }

  function Zeros(n: nat): Bytes { seq(n, _ => 0) }

  function Padding(n: nat): nat { (WORD - n % WORD) % WORD }

  function EncodeBytes(data: Bytes): Bytes { Word(|data|) + data + Zeros(Padding(|data|)) }

  function EncodeCall(call: Call): Bytes {
    Zeros(12) + call.target + Word(if call.allowFailure then 1 else 0) + Word(96) + EncodeBytes(call.data)
  }

  function EncodeResult(result: (bool, Bytes)): Bytes {
    Word(if result.0 then 1 else 0) + Word(64) + EncodeBytes(result.1)
  }

  function Joined(parts: seq<Bytes>): Bytes {
    if parts == [] then [] else Joined(parts[..|parts| - 1]) + parts[|parts| - 1]
  }

  /** The offsets of the parts, the first at `start`. */
  function Offsets(parts: seq<Bytes>, start: nat): Bytes {
    if parts == [] then [] else Offsets(parts[..|parts| - 1], start) + Word(start + |Joined(parts[..|parts| - 1])|)
  }

  /** An array of dynamic tuples, behind the one offset of the argument list. */
  function Array(parts: seq<Bytes>): Bytes {
    Word(WORD) + Word(|parts|) + Offsets(parts, WORD * |parts|) + Joined(parts)
  }

  function CallParts(calls: seq<Call>): seq<Bytes> { seq(|calls|, i requires 0 <= i < |calls| => EncodeCall(calls[i])) }

  function ResultParts(results: seq<(bool, Bytes)>): seq<Bytes> {
    seq(|results|, i requires 0 <= i < |results| => EncodeResult(results[i]))
  }

  const SELECTOR: Bytes := [0x82, 0xad, 0x56, 0xcb]

  function EncodedCalls(calls: seq<Call>): Bytes { SELECTOR + Array(CallParts(calls)) }

  /** The reference encoding of what the contract returns. */
  function EncodedResults(results: seq<(bool, Bytes)>): Bytes { Array(ResultParts(results)) }

  /** The encoder, with its running offset. */
  method EncodeAggregate3(calls: seq<Call>) returns (data: Bytes)
    ensures data == EncodedCalls(calls)
  {
    hide Word, EncodeCall, Offsets, Joined;
    var tuples := CallParts(calls);
    var offset := |calls| * WORD;
    var offsets: Bytes := [];
    NoParts(WORD * |calls|);
    assert tuples[..0] == [];
    for i := 0 to |tuples|
      invariant offset == WORD * |calls| + |Joined(tuples[..i])|
      invariant offsets == Offsets(tuples[..i], WORD * |calls|)
    {
      MoreParts(tuples, i, WORD * |calls|);
      offsets := offsets + Word(offset);
      offset := offset + |tuples[i]|;
    }
    assert tuples[..|tuples|] == tuples;
    data := SELECTOR + Word(WORD) + Word(|calls|) + offsets + Joined(tuples);
    assert data == SELECTOR + (Word(WORD) + Word(|calls|) + offsets + Joined(tuples));
  }

  lemma NoParts(start: nat)
    ensures Offsets([], start) == [] && Joined([]) == []
  {
  }

  lemma MoreParts(parts: seq<Bytes>, i: nat, start: nat)
    requires i < |parts|
    ensures Joined(parts[..i + 1]) == Joined(parts[..i]) + parts[i]
    ensures Offsets(parts[..i + 1], start) == Offsets(parts[..i], start) + Word(start + |Joined(parts[..i])|)
  {
    assert parts[..i + 1][..i] == parts[..i];
  }

  // ------------------------------------------------------------------------------------------ decoding

  /** None when the word does not lie inside the data. */
  function ReadWord(data: Bytes, offset: nat): Option<nat> {
    if offset > MAX_SAFE || offset + WORD > |data| then None else Some(Value(data[offset..offset + WORD]))
  }

  function SafeNumber(value: nat): Option<nat> { if value > MAX_SAFE then None else Some(value) }

  function ReadSafe(data: Bytes, offset: nat): Option<nat> {
    var value := ReadWord(data, offset);
    if value.None? then None else SafeNumber(value.value)
  }

  function AddOffset(a: nat, b: nat): Option<nat> { SafeNumber(a + b) }

  function ReadBytes(data: Bytes, offset: nat): Option<Bytes> {
    var length := ReadSafe(data, offset);
    if length.None? then None
    else
      var start := AddOffset(offset, WORD);
      if start.None? then None
      else
        var end := AddOffset(start.value, length.value);
        if end.None? || end.value > |data| then None else Some(data[start.value..end.value])
  }

  function DecodeResult(data: Bytes, heads: nat, index: nat): Option<(bool, Bytes)> {
    var head := ReadSafe(data, heads + index * WORD);
    if head.None? then None
    else
      var tuple := AddOffset(heads, head.value);
      if tuple.None? then None
      else
        var success := ReadWord(data, tuple.value);
        if success.None? || success.value > 1 then None
        else
          var at := ReadSafe(data, tuple.value + WORD);
          if at.None? then None
          else
            var output := AddOffset(tuple.value, at.value);
            if output.None? then None
            else
              var bytes := ReadBytes(data, output.value);
              if bytes.None? then None else Some((success.value == 1, bytes.value))
  }

  function DecodeFrom(data: Bytes, heads: nat, n: nat): Option<seq<(bool, Bytes)>> {
    if n == 0 then Some([])
    else
      var front := DecodeFrom(data, heads, n - 1);
      var last := DecodeResult(data, heads, n - 1);
      if front.None? || last.None? then None else Some(front.value + [last.value])
  }

  /** Where the array's heads start and how many elements it has. */
  function Decoded(data: Bytes): Option<seq<(bool, Bytes)>> {
    var base := ReadSafe(data, 0);
    if base.None? then None
    else
      var length := ReadSafe(data, base.value);
      var heads := AddOffset(base.value, WORD);
      if length.None? || heads.None? then None
      else
        var end := AddOffset(heads.value, length.value * WORD);
        if end.None? || end.value > |data| then None else DecodeFrom(data, heads.value, length.value)
  }

  /** Reads a word byte by byte, never outside the data. */
  method ReadWordAt(data: Bytes, offset: nat) returns (word: Option<nat>)
    ensures word == ReadWord(data, offset)
  {
    if offset > MAX_SAFE || offset + WORD > |data| { return None; }
    var value: nat := 0;
    for index := 0 to WORD
      invariant value == Value(data[offset..offset + index])
    {
      var more := data[offset..offset + index + 1];
      assert more[..|more| - 1] == data[offset..offset + index];
      value := value * 256 + data[offset + index];
    }
    word := Some(value);
  }

  /** The decoder: rejects, or reads only inside the data. */
  method DecodeAggregate3(data: Bytes) returns (results: Option<seq<(bool, Bytes)>>)
    ensures results == Decoded(data)
  {
    hide Value, DecodeResult, ReadWord;
    var first := ReadWordAt(data, 0);
    if first.None? || first.value > MAX_SAFE { return None; }
    var base := first.value;
    var count := ReadWordAt(data, base);
    if count.None? || count.value > MAX_SAFE { return None; }
    var length := count.value;
    var heads := base + WORD;
    if heads > MAX_SAFE || heads + length * WORD > MAX_SAFE || heads + length * WORD > |data| { return None; }
    var decoded: seq<(bool, Bytes)> := [];
    for index := 0 to length
      invariant DecodeFrom(data, heads, index) == Some(decoded)
    {
      var result := DecodeResult(data, heads, index);
      if result.None? {
        RejectsAll(data, heads, index + 1, length);
        return None;
      }
      decoded := decoded + [result.value];
    }
    results := Some(decoded);
  }

  lemma {:induction false} RejectsAll(data: Bytes, heads: nat, n: nat, length: nat)
    requires n <= length && DecodeFrom(data, heads, n).None?
    ensures DecodeFrom(data, heads, length).None?
    decreases length - n
  {
    hide DecodeResult;
    if n < length {
      assert DecodeFrom(data, heads, n + 1).None?;
      RejectsAll(data, heads, n + 1, length);
    }
  }

  // ------------------------------------------------------------------------------------------ the layout

  lemma {:induction false} OffsetsLength(parts: seq<Bytes>, start: nat)
    ensures |Offsets(parts, start)| == WORD * |parts|
  {
    if parts != [] {
      OffsetsLength(parts[..|parts| - 1], start);
    }
  }

  lemma {:induction false} OffsetsAt(parts: seq<Bytes>, start: nat, i: nat)
    requires i < |parts|
    ensures |Offsets(parts, start)| == WORD * |parts|
    ensures Offsets(parts, start)[WORD * i..WORD * i + WORD] == Word(start + |Joined(parts[..i])|)
    decreases |parts|
  {
    hide Word, Joined;
    OffsetsLength(parts, start);
    var front := parts[..|parts| - 1];
    OffsetsLength(front, start);
    if i < |front| {
      OffsetsAt(front, start, i);
      assert front[..i] == parts[..i];
      assert Offsets(parts, start)[WORD * i..WORD * i + WORD] == Offsets(front, start)[WORD * i..WORD * i + WORD];
    }
  }

  lemma {:induction false} JoinedAt(parts: seq<Bytes>, i: nat)
    requires i < |parts|
    ensures |Joined(parts[..i])| + |parts[i]| <= |Joined(parts)|
    ensures Joined(parts)[|Joined(parts[..i])|..|Joined(parts[..i])| + |parts[i]|] == parts[i]
    decreases |parts|
  {
    var front := parts[..|parts| - 1];
    if i < |front| {
      JoinedAt(front, i);
      assert front[..i] == parts[..i];
      var lo := |Joined(parts[..i])|;
      assert Joined(parts)[lo..lo + |parts[i]|] == Joined(front)[lo..lo + |parts[i]|];
    }
  }

  /** Where part i of an array starts. */
  function PartAt(parts: seq<Bytes>, i: nat): nat
    requires i <= |parts|
  {
    2 * WORD + WORD * |parts| + |Joined(parts[..i])|
  }

  lemma SliceOfConcat(a: Bytes, b: Bytes, c: Bytes, lo: nat, hi: nat)
    requires lo <= hi <= |b|
    ensures (a + b + c)[|a| + lo..|a| + hi] == b[lo..hi]
  {
  }

  lemma Regroup(a: Bytes, b: Bytes, c: Bytes)
    ensures a + b + c == a + (b + c)
  {
  }

  /** Head i holds the distance from the heads to part i, and the part is there. */
  lemma ArrayLayout(parts: seq<Bytes>, i: nat)
    requires i < |parts|
    ensures var data := Array(parts);
            && PartAt(parts, i) + |parts[i]| <= |data|
            && 2 * WORD + WORD * i + WORD <= |data|
            && data[2 * WORD + WORD * i..2 * WORD + WORD * i + WORD] == Word(PartAt(parts, i) - 2 * WORD)
            && data[PartAt(parts, i)..PartAt(parts, i) + |parts[i]|] == parts[i]
  {
    hide Word, Joined, Offsets;
    OffsetsAt(parts, WORD * |parts|, i);
    JoinedAt(parts, i);
    var prefix, offsets, joined := Word(WORD) + Word(|parts|), Offsets(parts, WORD * |parts|), Joined(parts);
    SliceOfConcat(prefix, offsets, joined, WORD * i, WORD * i + WORD);
    SliceOfConcat(prefix + offsets, joined, [], |Joined(parts[..i])|, |Joined(parts[..i])| + |parts[i]|);
    assert prefix + offsets + joined + [] == prefix + offsets + joined;
  }

  lemma ArrayHeader(parts: seq<Bytes>)
    ensures |Array(parts)| == 2 * WORD + WORD * |parts| + |Joined(parts)|
    ensures Array(parts)[0..WORD] == Word(WORD) && Array(parts)[WORD..2 * WORD] == Word(|parts|)
  {
    hide Word, Joined, Offsets;
    OffsetsLength(parts, WORD * |parts|);
    var rest := Offsets(parts, WORD * |parts|) + Joined(parts);
    Regroup(Word(WORD) + Word(|parts|), Offsets(parts, WORD * |parts|), Joined(parts));
    SliceOfConcat([], Word(WORD), Word(|parts|) + rest, 0, WORD);
    Regroup(Word(WORD), Word(|parts|), rest);
    assert [] + Word(WORD) + (Word(|parts|) + rest) == Word(WORD) + (Word(|parts|) + rest);
    SliceOfConcat(Word(WORD), Word(|parts|), rest, 0, WORD);
  }

  lemma SliceOfSlice(data: Bytes, base: nat, n: nat, lo: nat, hi: nat)
    requires base + n <= |data| && lo <= hi <= n
    ensures data[base..base + n][lo..hi] == data[base + lo..base + hi]
  {
    var part := data[base..base + n];
    var a, b := part[lo..hi], data[base + lo..base + hi];
    assert |a| == |b| && forall i :: 0 <= i < |a| ==> a[i] == part[lo + i] == data[base + lo + i] == b[i];
  }

  /** A word of a part is read from the whole data at the part's place. */
  lemma ReadInPart(data: Bytes, base: nat, part: Bytes, k: nat)
    requires base + |part| <= |data| <= MAX_SAFE && data[base..base + |part|] == part && k + WORD <= |part|
    ensures ReadWord(data, base + k) == Some(Value(part[k..k + WORD]))
  {
    hide Value;
    SliceOfSlice(data, base, |part|, k, k + WORD);
  }

  lemma EncodedBytesParts(head: Bytes, data: Bytes)
    ensures var part := head + EncodeBytes(data);
            && |head| + WORD + |data| <= |part|
            && part[|head|..|head| + WORD] == Word(|data|)
            && part[|head| + WORD..|head| + WORD + |data|] == data
  {
    hide Word, Zeros, Padding;
    var pad := Zeros(Padding(|data|));
    SliceOfConcat(head, Word(|data|), data + pad, 0, WORD);
    assert head + EncodeBytes(data) == head + Word(|data|) + (data + pad);
    SliceOfConcat(head + Word(|data|), data, pad, 0, |data|);
    assert head + EncodeBytes(data) == head + Word(|data|) + data + pad;
  }

  lemma ResultLayout(result: (bool, Bytes))
    ensures var part := EncodeResult(result);
            && 3 * WORD + |result.1| <= |part|
            && part[0..WORD] == Word(if result.0 then 1 else 0) && part[WORD..2 * WORD] == Word(2 * WORD)
            && part[2 * WORD..3 * WORD] == Word(|result.1|) && part[3 * WORD..3 * WORD + |result.1|] == result.1
  {
    hide Word, EncodeBytes;
    var flag := Word(if result.0 then 1 else 0);
    EncodedBytesParts(flag + Word(64), result.1);
    SliceOfConcat([], flag, Word(64) + EncodeBytes(result.1), 0, WORD);
    assert [] + flag + (Word(64) + EncodeBytes(result.1)) == EncodeResult(result);
    SliceOfConcat(flag, Word(64), EncodeBytes(result.1), 0, WORD);
  }

  lemma ResultDecodes(results: seq<(bool, Bytes)>, i: nat)
    requires i < |results| && |EncodedResults(results)| <= MAX_SAFE
    ensures DecodeResult(EncodedResults(results), 2 * WORD, i) == Some(results[i])
  {
    hide Word, Value, Array, EncodeResult, Pow, ReadWord;
    var parts, data := ResultParts(results), EncodedResults(results);
    var part := parts[i];
    var tuple := PartAt(parts, i);
    ArrayLayout(parts, i);
    ResultLayout(results[i]);
    SafeFits();
    WordValue(tuple - 2 * WORD);
    WordValue(if results[i].0 then 1 else 0);
    WordValue(2 * WORD);
    WordValue(|results[i].1|);
    HeadReads(data, i, tuple - 2 * WORD);
    ReadInPart(data, tuple, part, 0);
    ReadInPart(data, tuple, part, WORD);
    ReadInPart(data, tuple, part, 2 * WORD);
    SliceOfSlice(data, tuple, |part|, 3 * WORD, 3 * WORD + |results[i].1|);
  }

  lemma HeadReads(data: Bytes, i: nat, v: nat)
    requires 2 * WORD + WORD * i + WORD <= |data| <= MAX_SAFE && Value(Word(v)) == v
    requires data[2 * WORD + WORD * i..2 * WORD + WORD * i + WORD] == Word(v)
    ensures ReadWord(data, 2 * WORD + i * WORD) == Some(v)
  {
    hide Word, Value;
  }

  lemma {:induction false} ResultsDecode(results: seq<(bool, Bytes)>, n: nat)
    requires n <= |results| && |EncodedResults(results)| <= MAX_SAFE
    ensures DecodeFrom(EncodedResults(results), 2 * WORD, n) == Some(results[..n])
  {
    hide DecodeResult, EncodedResults;
    if n > 0 {
      ResultsDecode(results, n - 1);
      ResultDecodes(results, n - 1);
      assert results[..n - 1] + [results[n - 1]] == results[..n];
    }
  }

  /** The decoder recovers every list of results from its reference encoding. */
  lemma DecodedIsEncoded(results: seq<(bool, Bytes)>)
    requires |EncodedResults(results)| <= MAX_SAFE
    ensures Decoded(EncodedResults(results)) == Some(results)
  {
    hide Word, Value, Array, EncodeResult, Pow, DecodeFrom, Joined;
    var parts, data := ResultParts(results), EncodedResults(results);
    ArrayHeader(parts);
    SafeFits();
    WordValue(WORD);
    WordValue(|results|);
    ReadInPart(data, 0, data, 0);
    ReadInPart(data, 0, data, WORD);
    assert data[0..|data|] == data;
    ResultsDecode(results, |results|);
    assert results[..|results|] == results;
  }

  // ------------------------------------------------------------------------------------------ a reference decoder

  /** A decoder of (address,bool,bytes)[] that follows the specification: offsets count from the start of their tuple. */
  function Big(data: Bytes, at: nat): Option<nat> {
    if at + WORD <= |data| then Some(Value(data[at..at + WORD])) else None
  }

  function Stretch(data: Bytes, at: nat, n: nat): Option<Bytes> {
    if at + n <= |data| then Some(data[at..at + n]) else None
  }

  function DynamicBytes(data: Bytes, at: nat): Option<Bytes> {
    var n := Big(data, at);
    if n.None? then None else Stretch(data, at + WORD, n.value)
  }

  function CallAt(data: Bytes, heads: nat, i: nat): Option<Call> {
    var head := Big(data, heads + WORD * i);
    if head.None? then None
    else
      var t := heads + head.value;
      var target, flag, tail := Stretch(data, t + 12, 20), Big(data, t + WORD), Big(data, t + 2 * WORD);
      if target.None? || flag.None? || tail.None? || flag.value > 1 then None
      else
        var bytes := DynamicBytes(data, t + tail.value);
        if bytes.None? then None else Some(Call(target.value, flag.value == 1, bytes.value))
  }

  function CallsFrom(data: Bytes, heads: nat, n: nat): Option<seq<Call>> {
    if n == 0 then Some([])
    else
      var front, last := CallsFrom(data, heads, n - 1), CallAt(data, heads, n - 1);
      if front.None? || last.None? then None else Some(front.value + [last.value])
  }

  function DecodedCalls(data: Bytes): Option<seq<Call>> {
    var base := Big(data, 0);
    if base.None? then None
    else
      var length := Big(data, base.value);
      if length.None? then None else CallsFrom(data, base.value + WORD, length.value)
  }

  lemma CallLayout(call: Call)
    requires IsCall(call)
    ensures var part := EncodeCall(call);
            && 4 * WORD + |call.data| <= |part|
            && part[12..WORD] == call.target && part[WORD..2 * WORD] == Word(if call.allowFailure then 1 else 0)
            && part[2 * WORD..3 * WORD] == Word(3 * WORD) && part[3 * WORD..4 * WORD] == Word(|call.data|)
            && part[4 * WORD..4 * WORD + |call.data|] == call.data
  {
    hide Word, EncodeBytes;
    var flag, zeros := Word(if call.allowFailure then 1 else 0), Zeros(12);
    var tail := EncodeBytes(call.data);
    EncodedBytesParts(zeros + call.target + flag + Word(96), call.data);
    SliceOfConcat(zeros, call.target, flag + Word(96) + tail, 0, 20);
    assert zeros + call.target + (flag + Word(96) + tail) == EncodeCall(call);
    SliceOfConcat(zeros + call.target, flag, Word(96) + tail, 0, WORD);
    assert zeros + call.target + flag + (Word(96) + tail) == EncodeCall(call);
    SliceOfConcat(zeros + call.target + flag, Word(96), tail, 0, WORD);
  }

  lemma BigInPart(data: Bytes, base: nat, part: Bytes, k: nat)
    requires base + |part| <= |data| && data[base..base + |part|] == part && k + WORD <= |part|
    ensures Big(data, base + k) == Some(Value(part[k..k + WORD]))
  {
    hide Value;
    SliceOfSlice(data, base, |part|, k, k + WORD);
  }

  lemma StretchInPart(data: Bytes, base: nat, part: Bytes, k: nat, n: nat)
    requires base + |part| <= |data| && data[base..base + |part|] == part && k + n <= |part|
    ensures Stretch(data, base + k, n) == Some(part[k..k + n])
  {
    SliceOfSlice(data, base, |part|, k, k + n);
  }

  lemma SmallFits()
    ensures 3 * WORD < Pow(WORD) && 1 < Pow(WORD)
  {
    SafeFits();
  }

  lemma BigHead(data: Bytes, i: nat, v: nat)
    requires 2 * WORD + WORD * i + WORD <= |data| && Value(Word(v)) == v
    requires data[2 * WORD + WORD * i..2 * WORD + WORD * i + WORD] == Word(v)
    ensures Big(data, 2 * WORD + WORD * i) == Some(v)
  {
    hide Word, Value;
  }

  lemma CallDecodes(calls: seq<Call>, i: nat)
    requires i < |calls| && IsCall(calls[i]) && |Array(CallParts(calls))| < Pow(WORD)
    ensures CallAt(Array(CallParts(calls)), 2 * WORD, i) == Some(calls[i])
  {
    hide Word, Value, Array, EncodeCall, Pow, Big, Stretch;
    var parts, data, call := CallParts(calls), Array(CallParts(calls)), calls[i];
    var part := parts[i];
    var t := PartAt(parts, i);
    ArrayLayout(parts, i);
    CallLayout(call);
    SmallFits();
    WordValue(t - 2 * WORD);
    WordValue(if call.allowFailure then 1 else 0);
    WordValue(3 * WORD);
    WordValue(|call.data|);
    BigHead(data, i, t - 2 * WORD);
    StretchInPart(data, t, part, 12, 20);
    BigInPart(data, t, part, WORD);
    BigInPart(data, t, part, 2 * WORD);
    BigInPart(data, t, part, 3 * WORD);
    StretchInPart(data, t, part, 4 * WORD, |call.data|);
  }

  lemma {:induction false} CallsDecode(calls: seq<Call>, n: nat)
    requires n <= |calls| && |Array(CallParts(calls))| < Pow(WORD) && forall i :: 0 <= i < |calls| ==> IsCall(calls[i])
    ensures CallsFrom(Array(CallParts(calls)), 2 * WORD, n) == Some(calls[..n])
  {
    hide CallAt, Array, Pow;
    if n > 0 {
      CallsDecode(calls, n - 1);
      CallDecodes(calls, n - 1);
      assert calls[..n - 1] + [calls[n - 1]] == calls[..n];
    }
  }

  /** The reference decoder recovers the calls from what follows the selector. */
  lemma EncodedIsDecodable(calls: seq<Call>)
    requires |Array(CallParts(calls))| < Pow(WORD) && forall i :: 0 <= i < |calls| ==> IsCall(calls[i])
    ensures |EncodedCalls(calls)| >= 4 && EncodedCalls(calls)[..4] == SELECTOR && DecodedCalls(EncodedCalls(calls)[4..]) == Some(calls)
  {
    hide Word, Value, Array, EncodeCall, Pow, CallsFrom, Joined, Big;
    var parts, data := CallParts(calls), Array(CallParts(calls));
    assert EncodedCalls(calls)[4..] == data;
    ArrayHeader(parts);
    SmallFits();
    WordValue(WORD);
    WordValue(|calls|);
    BigInPart(data, 0, data, 0);
    BigInPart(data, 0, data, WORD);
    CallsDecode(calls, |calls|);
    assert calls[..|calls|] == calls;
  }
}
