/**
 The outcome of one operation and its compact form (internal/replaycompare/compare.go,
 result, toResult and outcome).
 */
module Outcomes {
  import opened Wrappers

  const COUNTS: nat := 6

  /** counts holds returned, inserted, matched, modified, upserted and deleted, each absent or a number. */
  datatype Outcome = Outcome(
    latency: int, ok: bool, errorCode: int, errorName: string,
    counts: seq<Option<int>>, checksum: string, transaction: string)

  predicate ValidOutcome(o: Outcome) { |o.counts| == COUNTS }

  datatype Sum = NoSum | SumOk(nibbles: seq<nat>) | SumUnavailable

  datatype Compact = Compact(
    latency: int, ok: bool, errCode: int, errName: string,
    has: nat, counts: seq<int>, sum: Sum, txn: string)

  /** Go's int32 conversion: the value modulo 2^32 in two's complement. */
  function Int32(x: int): (r: int)
    ensures -0x8000_0000 <= r < 0x8000_0000
    ensures -0x8000_0000 <= x < 0x8000_0000 ==> r == x
  {
    (x + 0x8000_0000) % 0x1_0000_0000 - 0x8000_0000
  }

  function Nibble(c: char): Option<nat>
  {
    if '0' <= c <= '9' then Some((c - '0') as nat)
    else if 'a' <= c <= 'f' then Some((c - 'a') as nat + 10)
    else if 'A' <= c <= 'F' then Some((c - 'A') as nat + 10)
    else None
  }

  predicate IsHex(s: string) { forall i :: 0 <= i < |s| ==> Nibble(s[i]).Some? }

  function HexDecode(s: string): seq<nat>
    requires IsHex(s)
  {
    seq(|s|, i requires 0 <= i < |s| => Nibble(s[i]).value)
  }

  function HexDigit(n: nat): char
    requires n < 16
  {
    if n < 10 then '0' + n as char else 'a' + (n - 10) as char
  }

  function HexEncode(ns: seq<nat>): string
    requires forall i :: 0 <= i < |ns| ==> ns[i] < 16
  {
    seq(|ns|, i requires 0 <= i < |ns| => HexDigit(ns[i]))
  }

  function ToSum(checksum: string): Sum
  {
    if checksum == "" then NoSum
    else if |checksum| == 64 && IsHex(checksum) then SumOk(HexDecode(checksum))
    else SumUnavailable
  }

  // ------------------------------------------------------- which counts are present

  /** has & (1 << i) != 0 */
  predicate HasBit(has: nat, i: nat) { if i == 0 then has % 2 == 1 else HasBit(has / 2, i - 1) }

  /** has | (1 << i) */
  function SetBit(has: nat, i: nat): nat
  {
    if i == 0 then has - has % 2 + 1 else 2 * SetBit(has / 2, i - 1) + has % 2
  }

  /** The mask in which bit i is set exactly when the i-th count is present. */
  function MaskOf(counts: seq<Option<int>>): nat
  {
    if counts == [] then 0 else 2 * MaskOf(counts[1..]) + if counts[0].Some? then 1 else 0
  }

  function ValuesOf(counts: seq<Option<int>>): (r: seq<int>)
    ensures |r| == |counts|
  {
    seq(|counts|, i requires 0 <= i < |counts| => if counts[i].Some? then counts[i].value else 0)
  }

  /** Setting a bit sets that bit and no other. */
  lemma {:induction false} SetBitSets(has: nat, i: nat, j: nat)
    ensures HasBit(SetBit(has, i), j) <==> i == j || HasBit(has, j)
  {
    if i > 0 && j > 0 {
      SetBitSets(has / 2, i - 1, j - 1);
    }
  }

  /** Bit i of the mask is set exactly when the i-th count is present, and no further bit is. */
  lemma {:induction false} MaskBits(counts: seq<Option<int>>, i: nat)
    ensures HasBit(MaskOf(counts), i) <==> i < |counts| && counts[i].Some?
  {
    if counts == [] {
      if i > 0 {
        MaskBits([], i - 1);
      }
    } else if i > 0 {
      MaskBits(counts[1..], i - 1);
    }
  }

  lemma {:induction false} MaskNext(counts: seq<Option<int>>, x: Option<int>)
    ensures MaskOf(counts + [x]) == if x.Some? then SetBit(MaskOf(counts), |counts|) else MaskOf(counts)
  {
    if counts == [] {
      assert [] + [x] == [x];
    } else {
      assert (counts + [x])[1..] == counts[1..] + [x];
      MaskNext(counts[1..], x);
    }
  }

  /** The mask of six counts fits its byte. */
  lemma MaskFits(counts: seq<Option<int>>)
    requires |counts| == COUNTS
    ensures MaskOf(counts) < 64
  {
    MaskBound(counts);
    assert Pow2(6) == 64;
  }

  function Pow2(n: nat): nat { if n == 0 then 1 else 2 * Pow2(n - 1) }

  lemma {:induction false} MaskBound(counts: seq<Option<int>>)
    ensures MaskOf(counts) < Pow2(|counts|)
  {
    if counts != [] {
      MaskBound(counts[1..]);
    }
  }

  /** The loop of toResult over the six counts. */
  method CompactCounts(counts: seq<Option<int>>) returns (has: nat, values: seq<int>)
    requires |counts| == COUNTS
    ensures has == MaskOf(counts) < 64 && values == ValuesOf(counts)
  {
    has, values := 0, [0, 0, 0, 0, 0, 0];
    for i := 0 to COUNTS
      invariant has == MaskOf(counts[..i]) && |values| == COUNTS
      invariant forall j :: 0 <= j < COUNTS ==> values[j] == if j < i then ValuesOf(counts)[j] else 0
    {
      assert counts[..i + 1] == counts[..i] + [counts[i]];
      MaskNext(counts[..i], counts[i]);
      if counts[i].Some? {
        has, values := SetBit(has, i), values[i := counts[i].value];
      }
    }
    assert counts[..COUNTS] == counts;
    MaskFits(counts);
  }

  function ToResult(o: Outcome): Compact
  {
    Compact(o.latency, o.ok, Int32(o.errorCode), o.errorName, MaskOf(o.counts), ValuesOf(o.counts), ToSum(o.checksum),
            o.transaction)
  }

  ghost predicate ValidResult(r: Compact)
  {
    && |r.counts| == COUNTS
    && (r.sum.SumOk? ==> forall i :: 0 <= i < |r.sum.nibbles| ==> r.sum.nibbles[i] < 16)
  }

  function ToOutcome(r: Compact): Outcome
    requires ValidResult(r)
  {
    Outcome(r.latency, r.ok, r.errCode, r.errName,
            seq(COUNTS, i requires 0 <= i < COUNTS => if HasBit(r.has, i) then Some(r.counts[i]) else None),
            (match r.sum case NoSum => "" case SumOk(ns) => HexEncode(ns) case SumUnavailable => "unavailable"),
            r.txn)
  }

  /** Two compact results agree on their counts exactly when the outcomes do, absent counts included. */
  lemma CountsFaithful(a: Outcome, b: Outcome)
    requires ValidOutcome(a) && ValidOutcome(b)
    ensures (ToResult(a).has == ToResult(b).has && ToResult(a).counts == ToResult(b).counts) <==> a.counts == b.counts
  {
    var ra, rb := ToResult(a), ToResult(b);
    if ra.has == rb.has && ra.counts == rb.counts {
      forall i | 0 <= i < COUNTS
        ensures a.counts[i] == b.counts[i]
      {
        MaskBits(a.counts, i);
        MaskBits(b.counts, i);
        assert ra.counts[i] == rb.counts[i];
      }
    }
  }

  /** The outcome shown in a report carries everything the comparison looked at. */
  lemma OutcomeRoundTrip(o: Outcome)
    requires ValidOutcome(o)
    ensures ValidResult(ToResult(o)) && ToResult(ToOutcome(ToResult(o))) == ToResult(o)
    ensures ToOutcome(ToResult(o)).counts == o.counts
  {
    var r := ToResult(o);
    var shown := ToOutcome(r);
    forall i | 0 <= i < COUNTS
      ensures shown.counts[i] == o.counts[i]
    {
      MaskBits(o.counts, i);
    }
    assert shown.counts == o.counts;
    if r.sum.SumOk? {
      forall i | 0 <= i < |r.sum.nibbles|
        ensures Nibble(HexEncode(r.sum.nibbles)[i]) == Some(r.sum.nibbles[i])
      {
      }
      assert HexDecode(shown.checksum) == r.sum.nibbles;
    }
  }
}
