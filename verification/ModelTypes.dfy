/**
 What the reusable indexer stores.

 A header is a block without its logs; a batch is a header with the events captured in that block. A projection row
 belongs to one period of one projection and says whether it is final. The key of a period is its start written in
 decimal, which can be read back.
 */
module ModelTypes {
  import opened Blocks

  datatype Header = Header(number: nat, hash: Hash, parentHash: Hash, timestamp: nat)

  type Event = int

  datatype Batch = Batch(block: Header, events: seq<Event>)

  datatype Period = Open | Closed | Current

  /**
   A row of one projection. A projection is a deterministic function of the events it is given, so the row
   records those events in place of the value computed from them.
   */
  datatype Row = Row(projection: string, key: string, events: seq<Event>, block: Header, endTime: Option<nat>,
                     period: Period, complete: bool)

  function NumbersOf(batches: seq<Batch>): seq<nat> {
    seq(|batches|, i requires 0 <= i < |batches| => batches[i].block.number)
  }

  const DIGITS := "0123456789"

  /** A partition's key is its start time in decimal. */
  function Decimal(n: nat): string {
    if n < 10 then [DIGITS[n]] else Decimal(n / 10) + [DIGITS[n % 10]]
  }

  function Digit(c: char): nat {
    if '0' <= c <= '9' then c as nat - '0' as nat else 0
  }

  function Parse(text: string): nat {
    if text == "" then 0 else 10 * Parse(text[..|text| - 1]) + Digit(text[|text| - 1])
  }

  predicate ColonFree(key: string) {
    forall i :: 0 <= i < |key| ==> key[i] != ':'
  }

  lemma {:induction false} ParseDecimal(n: nat)
    ensures Parse(Decimal(n)) == n && ColonFree(Decimal(n)) && Decimal(n) != ""
  {
    if n < 10 {
      assert Decimal(n)[..0] == "";
      assert Digit(DIGITS[n]) == n;
    } else {
      ParseDecimal(n / 10);
      var text := Decimal(n);
      assert text[..|text| - 1] == Decimal(n / 10);
      assert Digit(DIGITS[n % 10]) == n % 10;
    }
  }
}
