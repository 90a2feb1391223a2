/**
 The byte layout of BSON documents (BSON specification version 1.1: document, e_list,
 element), as far as the raw builders of internal/mongo/runner.go need it: elements with
 their kind, key and value bytes. Values keep their bytes; only their lengths are read.
 */
module Bson {
  import opened Wrappers

  type Byte = b: int | 0 <= b < 256

  const STRING: Byte := 0x02
  const DOCUMENT: Byte := 0x03
  const ARRAY: Byte := 0x04
  const BOOLEAN: Byte := 0x08
  const REGEX: Byte := 0x0B
  const INT64: Byte := 0x12

  const WORD32: nat := 0x1_0000_0000
  const WORD64: nat := 0x1_0000_0000_0000_0000

  // --------------------------------------------------------- little-endian numbers

  /** The width lowest bytes of a number, lowest first. */
  function LittleEndian(n: nat, width: nat): (r: seq<Byte>)
    ensures |r| == width
  {
    if width == 0 then [] else [n % 256] + LittleEndian(n / 256, width - 1)
  }

  function Number(bs: seq<Byte>): nat { if bs == [] then 0 else bs[0] + 256 * Number(bs[1..]) }

  function Power(width: nat): (p: nat)
    ensures p > 0
  {
    if width == 0 then 1 else 256 * Power(width - 1)
  }

  lemma {:induction false} NumberOfLittleEndian(n: nat, width: nat)
    requires n < Power(width)
    ensures Number(LittleEndian(n, width)) == n
  {
    if width > 0 {
      NumberOfLittleEndian(n / 256, width - 1);
      assert LittleEndian(n, width)[1..] == LittleEndian(n / 256, width - 1);
    }
  }

  lemma {:induction false} LittleEndianOfNumber(bs: seq<Byte>)
    ensures LittleEndian(Number(bs), |bs|) == bs && Number(bs) < Power(|bs|)
  {
    if bs != [] {
      LittleEndianOfNumber(bs[1..]);
      assert Number(bs) / 256 == Number(bs[1..]) && Number(bs) % 256 == bs[0];
      assert bs == [bs[0]] + bs[1..];
    }
  }

  function Signed32(n: nat): int { if n < 0x8000_0000 then n else n - WORD32 }

  function Signed64(n: nat): int { if n < 0x8000_0000_0000_0000 then n else n - WORD64 }

  /** binary.LittleEndian.PutUint64 of uint64(v). */
  function Int64Bytes(v: int): (r: seq<Byte>)
    ensures |r| == 8
  {
    LittleEndian(v % WORD64, 8)
  }

  /** The eight bytes of an int64 give it back. */
  lemma Int64RoundTrip(v: int)
    ensures Signed64(Number(Int64Bytes(v))) == v <==> -0x8000_0000_0000_0000 <= v < 0x8000_0000_0000_0000
  {
    NumberOfLittleEndian(v % WORD64, 8);
  }

  // ---------------------------------------------------------------------- elements

  /** The length of the zero-terminated string at the start. */
  function StringLength(bs: seq<Byte>): (r: Option<nat>)
    ensures r.Some? ==> r.value < |bs|
  {
    if bs == [] then None
    else if bs[0] == 0 then Some(0)
    else
      var rest := StringLength(bs[1..]);
      if rest.Some? then Some(rest.value + 1) else None
  }

  /** Kinds whose values have one size. */
  function FixedSize(kind: Byte): Option<nat>
  {
    match kind
    case 0x01 | 0x09 | 0x11 | 0x12 => Some(8)
    case 0x06 | 0x0A | 0x7F | 0xFF => Some(0)
    case 0x07 => Some(12)
    case 0x08 => Some(1)
    case 0x10 => Some(4)
    case 0x13 => Some(16)
    case _ => None
  }

  /** Kinds whose values start with a length: what has to be added to it. */
  function LengthExtra(kind: Byte): Option<nat>
  {
    match kind
    case 0x02 | 0x0D | 0x0E => Some(4)
    case 0x03 | 0x04 | 0x0F => Some(0)
    case 0x05 => Some(5)
    case 0x0C => Some(16)
    case _ => None
  }

  /** The length that the first four bytes announce. */
  function Announced(bs: seq<Byte>): int
    requires |bs| >= 4
  {
    Signed32(Number(bs[..4]))
  }

  /** The size of the value at the start of the bytes. */
  function ValueSize(kind: Byte, bs: seq<Byte>): (r: Option<nat>)
  {
    if FixedSize(kind).Some? then FixedSize(kind)
    else if LengthExtra(kind).Some? then
      if |bs| >= 4 && Announced(bs) + LengthExtra(kind).value >= 4 then Some(Announced(bs) + LengthExtra(kind).value)
      else None
    else if kind == REGEX then
      var pattern := StringLength(bs);
      if pattern.None? then None
      else
        var options := StringLength(bs[pattern.value + 1..]);
        if options.None? then None else Some(pattern.value + options.value + 2)
    else None
  }

  datatype Element = Element(kind: Byte, key: seq<Byte>, value: seq<Byte>)

  predicate WellFormed(e: Element)
  {
    e.kind != 0 && 0 !in e.key && ValueSize(e.kind, e.value) == Some(|e.value|)
  }

  function ElementBytes(e: Element): (r: seq<Byte>)
    ensures |r| == 2 + |e.key| + |e.value|
  {
    [e.kind] + e.key + [0] + e.value
  }

  function ElementsBytes(es: seq<Element>): seq<Byte>
  {
    if es == [] then [] else ElementBytes(es[0]) + ElementsBytes(es[1..])
  }

  /** A document; its length is cut to 32 bits, as in uint32(int32(n)). */
  function Document(es: seq<Element>): (r: seq<Byte>)
    ensures |r| == |ElementsBytes(es)| + 5
  {
    var content := ElementsBytes(es) + [0];
    LittleEndian((4 + |content|) % WORD32, 4) + content
  }

  // ----------------------------------------------------------------------- parsing

  function ParseElement(bs: seq<Byte>): (r: Option<Element>)
    requires bs != []
    ensures r.Some? ==> |ElementBytes(r.value)| <= |bs|
  {
    var key := StringLength(bs[1..]);
    if key.None? then None
    else
      var rest := bs[key.value + 2..];
      var size := ValueSize(bs[0], rest);
      if size.Some? && size.value <= |rest| then Some(Element(bs[0], bs[1..1 + key.value], rest[..size.value]))
      else None
  }

  function ParseElements(bs: seq<Byte>): Option<seq<Element>>
    decreases |bs|
  {
    if bs == [] then None
    else if bs[0] == 0 then (if |bs| == 1 then Some([]) else None)
    else
      var e := ParseElement(bs);
      if e.None? then None
      else
        var rest := ParseElements(bs[|ElementBytes(e.value)|..]);
        if rest.None? then None else Some([e.value] + rest.value)
  }

  function ParseDocument(bs: seq<Byte>): Option<seq<Element>>
  {
    if |bs| >= 5 && Announced(bs) == |bs| then ParseElements(bs[4..]) else None
  }

  lemma {:induction false} StringLengthLocal(a: seq<Byte>, rest: seq<Byte>)
    ensures StringLength(a).Some? ==> StringLength(a + rest) == StringLength(a)
    ensures StringLength(a).None? && StringLength(a + rest).Some? ==> StringLength(a + rest).value >= |a|
  {
    if a == [] {
      assert a + rest == rest;
    } else {
      assert (a + rest)[1..] == a[1..] + rest;
      StringLengthLocal(a[1..], rest);
    }
  }

  /** The size of a value depends on its own bytes only. */
  lemma ValueSizeLocal(kind: Byte, value: seq<Byte>, rest: seq<Byte>)
    ensures ValueSize(kind, value + rest) == Some(|value|) <==> ValueSize(kind, value) == Some(|value|)
  {
    if FixedSize(kind).None? {
      if LengthExtra(kind).Some? {
        AnnouncedLocal(value, rest);
      } else if kind == REGEX {
        RegexLocal(value, rest);
      }
    }
  }

  lemma AnnouncedLocal(value: seq<Byte>, rest: seq<Byte>)
    ensures |value| >= 4 ==> (value + rest)[..4] == value[..4]
  {
  }

  lemma RegexLocal(value: seq<Byte>, rest: seq<Byte>)
    ensures ValueSize(REGEX, value + rest) == Some(|value|) <==> ValueSize(REGEX, value) == Some(|value|)
  {
    StringLengthLocal(value, rest);
    var pattern := StringLength(value);
    if pattern.Some? {
      var options := value[pattern.value + 1..];
      assert (value + rest)[pattern.value + 1..] == options + rest;
      StringLengthLocal(options, rest);
    }
  }

  lemma {:induction false} StringLengthOfKey(key: seq<Byte>, rest: seq<Byte>)
    ensures StringLength(key + [0] + rest) == Some(|key|) <==> 0 !in key
  {
    var s := key + [0] + rest;
    if key == [] {
      assert s[0] == 0;
    } else {
      assert s[1..] == key[1..] + [0] + rest;
      StringLengthOfKey(key[1..], rest);
      assert key == [key[0]] + key[1..];
    }
  }

  lemma {:induction false} StringLengthFirst(bs: seq<Byte>)
    requires StringLength(bs).Some?
    ensures var n := StringLength(bs).value;
            bs[n] == 0 && 0 !in bs[..n]
  {
    if bs[0] != 0 {
      var n := StringLength(bs).value;
      StringLengthFirst(bs[1..]);
      assert bs[..n] == [bs[0]] + bs[1..][..n - 1];
    }
  }

  lemma ParseElementBytes(e: Element, rest: seq<Byte>)
    requires WellFormed(e)
    ensures ParseElement(ElementBytes(e) + rest) == Some(e)
  {
    var bs := ElementBytes(e) + rest;
    assert bs[1..] == e.key + [0] + (e.value + rest);
    StringLengthOfKey(e.key, e.value + rest);
    assert bs[|e.key| + 2..] == e.value + rest;
    ValueSizeLocal(e.kind, e.value, rest);
    assert bs[1..1 + |e.key|] == e.key && (e.value + rest)[..|e.value|] == e.value;
  }

  lemma ParsedElement(bs: seq<Byte>)
    requires bs != [] && ParseElement(bs).Some? && bs[0] != 0
    ensures var e := ParseElement(bs).value;
            WellFormed(e) && bs == ElementBytes(e) + bs[|ElementBytes(e)|..]
  {
    var e := ParseElement(bs).value;
    var n := StringLength(bs[1..]).value;
    StringLengthFirst(bs[1..]);
    assert bs[1..][..n] == e.key;
    var rest := bs[n + 2..];
    assert rest == e.value + rest[|e.value|..];
    ValueSizeLocal(e.kind, e.value, rest[|e.value|..]);
    assert bs == [bs[0]] + bs[1..1 + n] + [bs[1 + n]] + rest;
    assert rest[|e.value|..] == bs[|ElementBytes(e)|..];
  }

  ghost predicate AllWellFormed(es: seq<Element>) { forall i :: 0 <= i < |es| ==> WellFormed(es[i]) }

  lemma {:induction false} ParseWellFormed(es: seq<Element>)
    requires AllWellFormed(es)
    ensures ParseElements(ElementsBytes(es) + [0]) == Some(es)
  {
    var bs := ElementsBytes(es) + [0];
    if es != [] {
      var e, rest := es[0], ElementsBytes(es[1..]) + [0];
      assert bs == ElementBytes(e) + rest;
      ParseElementBytes(e, rest);
      ParseWellFormed(es[1..]);
      assert bs[|ElementBytes(e)|..] == rest;
      assert es == [e] + es[1..];
    }
  }

  lemma {:induction false} ParsedWellFormed(bs: seq<Byte>)
    requires ParseElements(bs).Some?
    ensures AllWellFormed(ParseElements(bs).value) && bs == ElementsBytes(ParseElements(bs).value) + [0]
    decreases |bs|
  {
    if bs[0] != 0 {
      var e := ParseElement(bs).value;
      var rest := bs[|ElementBytes(e)|..];
      ParsedElement(bs);
      ParsedWellFormed(rest);
      var es := ParseElements(rest).value;
      assert ([e] + es)[1..] == es;
    }
  }

  lemma FourBytes(bs: seq<Byte>)
    requires |bs| == 4
    ensures Number(bs) < WORD32 && LittleEndian(Number(bs), 4) == bs
  {
    LittleEndianOfNumber(bs);
  }

  lemma NumberOfFourBytes(n: nat)
    requires n < WORD32
    ensures Number(LittleEndian(n, 4)) == n
  {
    NumberOfLittleEndian(n, 4);
  }

  lemma AnnouncedBytes(bs: seq<Byte>)
    requires |bs| >= 4
    ensures Announced(bs) == |bs| <==> bs[..4] == LittleEndian(|bs| % WORD32, 4) && |bs| < 0x8000_0000
  {
    var low := |bs| % WORD32;
    FourBytes(bs[..4]);
    NumberOfFourBytes(low);
    assert bs[..4] == LittleEndian(low, 4) <==> Number(bs[..4]) == low;
    AnnouncedNumber(Number(bs[..4]), |bs|);
  }

  lemma AnnouncedNumber(n: nat, size: nat)
    requires n < WORD32
    ensures Signed32(n) == size <==> n == size % WORD32 && size < 0x8000_0000
  {
    assert size < WORD32 ==> size % WORD32 == size;
  }

  lemma DocumentParts(es: seq<Element>)
    ensures var bs := Document(es);
            bs[..4] == LittleEndian(|bs| % WORD32, 4) && bs[4..] == ElementsBytes(es) + [0]
  {
  }

  lemma ParsedDocument(bs: seq<Byte>)
    requires ParseDocument(bs).Some?
    ensures AllWellFormed(ParseDocument(bs).value) && bs == Document(ParseDocument(bs).value) && |bs| < 0x8000_0000
  {
    AnnouncedBytes(bs);
    ParsedWellFormed(bs[4..]);
    assert bs == bs[..4] + bs[4..];
  }

  lemma PrintedDocument(es: seq<Element>)
    requires AllWellFormed(es) && |Document(es)| < 0x8000_0000
    ensures ParseDocument(Document(es)) == Some(es)
  {
    DocumentParts(es);
    AnnouncedBytes(Document(es));
    ParseWellFormed(es);
  }

  /** Parsing succeeds exactly on the bytes of well-formed elements that stay below 2^31, and gives them back. */
  lemma ParseExact(bs: seq<Byte>, es: seq<Element>)
    ensures ParseDocument(bs) == Some(es) <==> AllWellFormed(es) && bs == Document(es) && |bs| < 0x8000_0000
  {
    if ParseDocument(bs) == Some(es) {
      ParsedDocument(bs);
    } else if AllWellFormed(es) && bs == Document(es) && |bs| < 0x8000_0000 {
      PrintedDocument(es);
    }
  }

  // ---------------------------------------------------------------------- patching

  /** Eight bytes written at an offset. */
  function PatchAt(bs: seq<Byte>, offset: nat, eight: seq<Byte>): (r: seq<Byte>)
    requires offset + 8 <= |bs| && |eight| == 8
    ensures |r| == |bs|
  {
    bs[..offset] + eight + bs[offset + 8..]
  }

  /** Where the value of an element starts in its document. */
  function ValueOffset(es: seq<Element>, k: nat): nat
    requires k < |es|
  {
    4 + |ElementsBytes(es[..k])| + 2 + |es[k].key|
  }

  lemma {:induction false} SplitElements(es: seq<Element>, k: nat)
    requires k <= |es|
    ensures ElementsBytes(es) == ElementsBytes(es[..k]) + ElementsBytes(es[k..])
  {
    if k > 0 {
      SplitElements(es[1..], k - 1);
      assert es[..k][1..] == es[1..][..k - 1] && es[k..] == es[1..][k - 1..];
    } else {
      assert es[..0] == [] && es[0..] == es;
    }
  }

  /** The bytes of a document before the value of an element. */
  function Head(es: seq<Element>, k: nat): (r: seq<Byte>)
    requires k < |es|
    ensures |r| == ValueOffset(es, k)
  {
    LittleEndian(|Document(es)| % WORD32, 4) + ElementsBytes(es[..k]) + [es[k].kind] + es[k].key + [0]
  }

  function Tail(es: seq<Element>, k: nat): seq<Byte>
    requires k < |es|
  {
    ElementsBytes(es[k + 1..]) + [0]
  }

  lemma SplitDocument(es: seq<Element>, k: nat)
    requires k < |es|
    ensures Document(es) == Head(es, k) + es[k].value + Tail(es, k)
  {
    SplitElements(es, k);
    assert es[k..][0] == es[k] && es[k..][1..] == es[k + 1..];
    Regroup(LittleEndian(|Document(es)| % WORD32, 4), ElementsBytes(es[..k]), [es[k].kind], es[k].key, es[k].value,
      ElementsBytes(es[k + 1..]));
  }

  lemma Regroup(size: seq<Byte>, before: seq<Byte>, kind: seq<Byte>, key: seq<Byte>, value: seq<Byte>, after: seq<Byte>)
    ensures size + (before + ((kind + key + [0] + value) + after) + [0])
        == (size + before + kind + key + [0]) + value + (after + [0])
  {
  }

  function WithValue(es: seq<Element>, k: nat, value: seq<Byte>): (r: seq<Element>)
    requires k < |es|
    ensures |r| == |es|
  {
    es[k := es[k].(value := value)]
  }

  lemma SameFrame(es: seq<Element>, k: nat, value: seq<Byte>)
    requires k < |es| && |value| == |es[k].value|
    ensures var r := WithValue(es, k, value);
            |Document(r)| == |Document(es)| && Head(r, k) == Head(es, k) && Tail(r, k) == Tail(es, k)
  {
    var r := WithValue(es, k, value);
    SplitElements(es, k);
    SplitElements(r, k);
    assert r[..k] == es[..k] && r[k + 1..] == es[k + 1..];
    assert r[k..][1..] == r[k + 1..] && es[k..][1..] == es[k + 1..];
  }

  lemma PatchInside(head: seq<Byte>, value: seq<Byte>, tail: seq<Byte>, offset: nat, eight: seq<Byte>)
    requires offset + 8 <= |value| && |eight| == 8
    ensures PatchAt(head + value + tail, |head| + offset, eight) == head + PatchAt(value, offset, eight) + tail
  {
    var bs := head + value + tail;
    assert bs[..|head| + offset] == head + value[..offset];
    assert bs[|head| + offset + 8..] == value[offset + 8..] + tail;
  }

  /** Patching inside the value of an element gives the document whose value is patched. */
  lemma PatchNested(es: seq<Element>, k: nat, offset: nat, eight: seq<Byte>)
    requires k < |es| && offset + 8 <= |es[k].value| && |eight| == 8
    ensures ValueOffset(es, k) + offset + 8 <= |Document(es)|
    ensures PatchAt(Document(es), ValueOffset(es, k) + offset, eight)
        == Document(WithValue(es, k, PatchAt(es[k].value, offset, eight)))
  {
    var patched := PatchAt(es[k].value, offset, eight);
    SplitDocument(es, k);
    SameFrame(es, k, patched);
    SplitDocument(WithValue(es, k, patched), k);
    PatchInside(Head(es, k), es[k].value, Tail(es, k), offset, eight);
  }
}
