/**
 The prebuilt insert batches and raw id arrays of internal/mongo/runner.go: bytes are
 appended to a buffer, the length is written over its first four bytes, and workers write
 each document's id over a marker. Documents come encoded from the caller.
 */
module BsonBatch {
  import opened Wrappers
  import opened Bson
  import Text

  // ------------------------------------------------------------------ array elements

  function Ascii(s: string): (r: seq<Byte>)
    requires forall i :: 0 <= i < |s| ==> Text.IsDigit(s[i])
    ensures |r| == |s| && forall i :: 0 <= i < |s| ==> r[i] == s[i] as int
  {
    if s == "" then []
    else
      assert Text.IsDigit(s[0]);
      var digit: Byte := s[0] as int;
      [digit] + Ascii(s[1..])
  }

  /** The decimal digits of an index, the key of an array element. */
  function Key(i: nat): (r: seq<Byte>)
    ensures r != [] && 0 !in r
  {
    Text.ItoaDigits(i);
    Ascii(Text.Itoa(i))
  }

  function Int64Elements(ids: seq<int>): (es: seq<Element>)
    ensures |es| == |ids|
  {
    seq(|ids|, i requires 0 <= i < |ids| => Element(INT64, Key(i), Int64Bytes(ids[i])))
  }

  function BatchElements(docs: seq<seq<Byte>>): (es: seq<Element>)
    ensures |es| == |docs|
  {
    seq(|docs|, i requires 0 <= i < |docs| => Element(DOCUMENT, Key(i), docs[i]))
  }

  lemma {:induction false} AppendElement(es: seq<Element>, e: Element)
    ensures ElementsBytes(es + [e]) == ElementsBytes(es) + ElementBytes(e)
  {
    if es == [] {
      assert es + [e] == [e];
      assert ElementsBytes([e]) == ElementBytes(e) + ElementsBytes([]);
    } else {
      assert (es + [e])[1..] == es[1..] + [e];
      AppendElement(es[1..], e);
    }
  }

  /** The buffer before its length is known: four free bytes and what was appended. */
  function Buffer(es: seq<Element>): seq<Byte> { [0, 0, 0, 0] + ElementsBytes(es) }

  lemma AppendToBuffer(es: seq<Element>, n: nat)
    requires n < |es|
    ensures Buffer(es[..n + 1]) == Buffer(es[..n]) + [es[n].kind] + es[n].key + [0] + es[n].value
    ensures |Buffer(es[..n]) + [es[n].kind] + es[n].key + [0]| == ValueOffset(es, n)
  {
    assert es[..n + 1] == es[..n] + [es[n]];
    AppendElement(es[..n], es[n]);
  }

  /** The terminator and the length, written over the first four bytes. */
  function Finished(buf: seq<Byte>): seq<Byte>
    requires |buf| >= 4
  {
    var all := buf + [0];
    LittleEndian(|all| % WORD32, 4) + all[4..]
  }

  method BuildRawInt64Array(ids: seq<int>) returns (bytes: seq<Byte>)
    ensures bytes == Document(Int64Elements(ids))
  {
    ghost var es := Int64Elements(ids);
    var buf: seq<Byte> := [0, 0, 0, 0];
    for i := 0 to |ids|
      invariant buf == Buffer(es[..i])
    {
      AppendToBuffer(es, i);
      buf := buf + [INT64];
      buf := buf + Key(i) + [0];
      buf := buf + Int64Bytes(ids[i]);
    }
    assert es[..|ids|] == es;
    bytes := Finished(buf);
  }

  /** The ids of an array of int64 values with the keys "0", "1", ... */
  function DecodeIds(bytes: seq<Byte>): Option<seq<int>>
  {
    var es := ParseDocument(bytes);
    if es.Some? && forall i :: 0 <= i < |es.value| ==> es.value[i].kind == INT64 && es.value[i].key == Key(i)
    then Some(seq(|es.value|, i requires 0 <= i < |es.value| => Signed64(Number(es.value[i].value))))
    else None
  }

  /**
   The bytes of the raw array parse back to exactly the ids as long as their length fits
   the 31 bits BSON has for it.
   */
  lemma IdsRoundTrip(ids: seq<int>)
    requires forall i :: 0 <= i < |ids| ==> -0x8000_0000_0000_0000 <= ids[i] < 0x8000_0000_0000_0000
    ensures DecodeIds(Document(Int64Elements(ids))) == Some(ids) <==> |Document(Int64Elements(ids))| < 0x8000_0000
  {
    var es := Int64Elements(ids);
    assert AllWellFormed(es);
    ParseExact(Document(es), es);
    if |Document(es)| < 0x8000_0000 {
      forall i | 0 <= i < |ids|
        ensures Signed64(Number(es[i].value)) == ids[i]
      {
        Int64RoundTrip(ids[i]);
      }
      assert DecodeIds(Document(es)).value == ids;
    } else if ParseDocument(Document(es)).Some? {
      ParseExact(Document(es), ParseDocument(Document(es)).value);
    }
  }

  // ------------------------------------------------------------------------ markers

  predicate At(bs: seq<Byte>, part: seq<Byte>, i: nat) { i + |part| <= |bs| && bs[i..i + |part|] == part }

  /** bytes.Index: the first place of a part, from i on. */
  function Index(bs: seq<Byte>, part: seq<Byte>, i: nat): (r: Option<nat>)
    requires i <= |bs|
    ensures r.Some? ==> i <= r.value && At(bs, part, r.value)
    decreases |bs| - i
  {
    if At(bs, part, i) then Some(i) else if i == |bs| then None else Index(bs, part, i + 1)
  }

  lemma {:induction false} IndexIsFirst(bs: seq<Byte>, part: seq<Byte>, i: nat, j: nat)
    requires i <= j && At(bs, part, j)
    ensures Index(bs, part, i).Some? && Index(bs, part, i).value <= j
    decreases j - i
  {
    if i < j && !At(bs, part, i) {
      IndexIsFirst(bs, part, i + 1, j);
    }
  }

  lemma OnlyPlace(bs: seq<Byte>, part: seq<Byte>, j: nat)
    requires At(bs, part, j) && forall i: nat :: i < j ==> !At(bs, part, i)
    ensures Index(bs, part, 0) == Some(j)
  {
    IndexIsFirst(bs, part, 0, j);
  }

  lemma AtByte(bs: seq<Byte>, part: seq<Byte>, i: nat, k: nat)
    ensures At(bs, part, i) && k < |part| ==> i + k < |bs| && bs[i + k] == part[k]
  {
    if At(bs, part, i) && k < |part| {
      assert bs[i..i + |part|][k] == bs[i + k];
    }
  }

  /** The bytes of the marker 0x1122334455667788. */
  const MARKER: seq<Byte> := [0x88, 0x77, 0x66, 0x55, 0x44, 0x33, 0x22, 0x11]

  lemma NextByte(low: Byte, high: nat, width: nat)
    ensures LittleEndian(low + 256 * high, width + 1) == [low] + LittleEndian(high, width)
  {
    assert (low + 256 * high) % 256 == low && (low + 256 * high) / 256 == high;
  }

  /** The marker is the little-endian form of its number. */
  lemma MarkerBytes(magic: int)
    requires magic == 0x1122334455667788
    ensures Int64Bytes(magic) == MARKER
  {
    var b, c, d: nat := 0x11, 0x1122, 0x112233;
    var e, f, g, h: nat := 0x11223344, 0x1122334455, 0x112233445566, 0x11223344556677;
    NextByte(0x11, 0, 0);
    NextByte(0x22, b, 1);
    NextByte(0x33, c, 2);
    NextByte(0x44, d, 3);
    NextByte(0x55, e, 4);
    NextByte(0x66, f, 5);
    NextByte(0x77, g, 6);
    NextByte(0x88, h, 7);
    assert magic % WORD64 == 0x88 + 256 * h;
  }

  /** A document with the place of its patch key among its elements. */
  datatype Template = Template(fields: seq<Element>, at: nat)

  ghost predicate Holds(t: Template)
  {
    AllWellFormed(t.fields) && t.at < |t.fields| && t.fields[t.at].kind == INT64
  }

  /** The fields with a given value of the patch key. */
  function Fields(t: Template, value: seq<Byte>): (r: seq<Element>)
    requires t.at < |t.fields|
    ensures |r| == |t.fields|
  {
    WithValue(t.fields, t.at, value)
  }

  function Raw(t: Template, value: seq<Byte>): seq<Byte>
    requires t.at < |t.fields|
  {
    Document(Fields(t, value))
  }

  lemma RawFrame(t: Template, value: seq<Byte>)
    requires Holds(t) && |value| == 8
    ensures AllWellFormed(Fields(t, value)) && |Raw(t, value)| == |Document(t.fields)|
    ensures ValueOffset(Fields(t, value), t.at) == ValueOffset(t.fields, t.at)
    ensures ValueOffset(t.fields, t.at) + 8 <= |Raw(t, value)|
    ensures At(Raw(t, value), value, ValueOffset(t.fields, t.at))
  {
    assert WellFormed(t.fields[t.at]);
    SameFrame(t.fields, t.at, value);
    var fields := Fields(t, value);
    assert fields[..t.at] == t.fields[..t.at];
    SplitDocument(fields, t.at);
  }

  lemma PatchRaw(t: Template, value: seq<Byte>, eight: seq<Byte>)
    requires Holds(t) && |value| == |eight| == 8
    ensures ValueOffset(t.fields, t.at) + 8 <= |Raw(t, value)|
    ensures PatchAt(Raw(t, value), ValueOffset(t.fields, t.at), eight) == Raw(t, eight)
  {
    RawFrame(t, value);
    PatchNested(Fields(t, value), t.at, 0, eight);
    assert PatchAt(value, 0, eight) == eight;
    assert WithValue(Fields(t, value), t.at, eight) == Fields(t, eight);
  }

  lemma MarkerFound(t: Template)
    requires Holds(t)
    ensures Index(Raw(t, MARKER), MARKER, 0).Some?
    ensures Index(Raw(t, MARKER), MARKER, 0).value <= ValueOffset(t.fields, t.at)
  {
    RawFrame(t, MARKER);
    IndexIsFirst(Raw(t, MARKER), MARKER, 0, ValueOffset(t.fields, t.at));
  }

  /** Writing at an earlier place leaves the last byte of the marker, so zero is not written over it. */
  lemma EarlierKeepsMarker(bs: seq<Byte>, early: nat, late: nat, zero: seq<Byte>)
    requires early < late && late + 8 <= |bs| && At(bs, MARKER, late) && |zero| == 8 && zero[7] == 0
    ensures PatchAt(bs, early, zero) != PatchAt(bs, late, zero)
  {
    assert bs[late + 7] == bs[late..late + 8][7] == 0x11;
    assert PatchAt(bs, early, zero)[late + 7] == 0x11;
    assert PatchAt(bs, late, zero)[late + 7] == 0;
  }

  /**
   A template's document, patched at the first marker, parses to its fields with only the
   patch key changed, for every id, exactly when the first marker is the patch key's value.
   */
  lemma PatchExact(t: Template)
    requires Holds(t) && |Raw(t, MARKER)| < 0x8000_0000
    ensures var offset := Index(Raw(t, MARKER), MARKER, 0);
            offset.Some?
            && ((forall id: int ::
              ParseDocument(PatchAt(Raw(t, MARKER), offset.value, Int64Bytes(id))) == Some(Fields(t, Int64Bytes(id))))
                <==> offset.value == ValueOffset(t.fields, t.at))
  {
    MarkerFound(t);
    RawFrame(t, MARKER);
    var bs, offset, place := Raw(t, MARKER), Index(Raw(t, MARKER), MARKER, 0).value, ValueOffset(t.fields, t.at);
    if offset == place {
      forall id: int
        ensures ParseDocument(PatchAt(bs, offset, Int64Bytes(id))) == Some(Fields(t, Int64Bytes(id)))
      {
        PatchRaw(t, MARKER, Int64Bytes(id));
        RawFrame(t, Int64Bytes(id));
        ParseExact(Raw(t, Int64Bytes(id)), Fields(t, Int64Bytes(id)));
      }
    } else {
      var zero := Int64Bytes(0);
      EarlierKeepsMarker(bs, offset, place, zero);
      PatchRaw(t, MARKER, zero);
      ParseExact(PatchAt(bs, offset, zero), Fields(t, zero));
    }
  }

  /** An earlier field that holds the marker's bytes is patched instead of the patch key. */
  lemma EarlierMarker(t: Template, j: nat)
    requires Holds(t) && |Raw(t, MARKER)| < 0x8000_0000 && j < t.at && t.fields[j].value == MARKER
    ensures var offset := Index(Raw(t, MARKER), MARKER, 0);
            offset.Some? && exists id: int ::
              ParseDocument(PatchAt(Raw(t, MARKER), offset.value, Int64Bytes(id))) != Some(Fields(t, Int64Bytes(id)))
  {
    PatchExact(t);
    RawFrame(t, MARKER);
    var fields := Fields(t, MARKER);
    assert fields[j] == t.fields[j] && fields[j..t.at][0] == fields[j];
    SplitDocument(fields, j);
    SplitElements(fields[..t.at], j);
    assert fields[..t.at][..j] == fields[..j] && fields[..t.at][j..] == fields[j..t.at];
    assert At(Raw(t, MARKER), MARKER, |Head(fields, j)|);
    IndexIsFirst(Raw(t, MARKER), MARKER, 0, |Head(fields, j)|);
  }

  // ---------------------------------------------------------------- insert commands

  const INSERT: seq<Byte> := [105, 110, 115, 101, 114, 116]
  const DOCUMENTS: seq<Byte> := [100, 111, 99, 117, 109, 101, 110, 116, 115]
  const ORDERED: seq<Byte> := [111, 114, 100, 101, 114, 101, 100]

  function StringBytes(s: seq<Byte>): seq<Byte> { LittleEndian((|s| + 1) % WORD32, 4) + s + [0] }

  /** { insert: name, documents: list, ordered: false } */
  function CommandElements(name: seq<Byte>, list: seq<Byte>): (es: seq<Element>)
    ensures |es| == 3
  {
    [Element(STRING, INSERT, StringBytes(name)), Element(ARRAY, DOCUMENTS, list), Element(BOOLEAN, ORDERED, [0])]
  }

  function Command(name: seq<Byte>, docs: seq<seq<Byte>>): seq<Byte>
  {
    Document(CommandElements(name, Document(BatchElements(docs))))
  }

  /** Where the bytes of the array start in the command. */
  function ArrayStart(name: seq<Byte>): nat { |name| + 28 }

  lemma HeadOfSecond(first: Element, second: Element, third: Element)
    ensures ValueOffset([first, second, third], 1) == 6 + |ElementBytes(first)| + |second.key|
    ensures Head([first, second, third], 1)[4..] == ElementBytes(first) + ([second.kind] + second.key + [0])
  {
    var es := [first, second, third];
    assert es[..1] == [first];
    assert ElementsBytes([first]) == ElementBytes(first) + ElementsBytes([]);
  }

  /** The command's bytes after its length and before the array. */
  function Opening(name: seq<Byte>): (r: seq<Byte>)
    ensures |r| + 4 == ArrayStart(name)
  {
    [STRING] + INSERT + [0] + StringBytes(name) + ([ARRAY] + DOCUMENTS + [0])
  }

  lemma CommandHead(name: seq<Byte>, list: seq<Byte>)
    ensures ValueOffset(CommandElements(name, list), 1) == ArrayStart(name)
    ensures Head(CommandElements(name, list), 1)[4..] == Opening(name)
  {
    var es := CommandElements(name, list);
    HeadOfSecond(es[0], es[1], es[2]);
  }

  lemma ArrayFound(name: seq<Byte>, list: seq<Byte>)
    ensures var command := Document(CommandElements(name, list));
            At(command, list, ArrayStart(name)) && Index(command, list, 0).Some?
              && Index(command, list, 0).value <= ArrayStart(name)
  {
    CommandHead(name, list);
    SplitDocument(CommandElements(name, list), 1);
    IndexIsFirst(Document(CommandElements(name, list)), list, 0, ArrayStart(name));
  }

  /** The command's bytes up to the array, one by one. */
  lemma CommandBytes(name: seq<Byte>, list: seq<Byte>, q: nat)
    requires 4 <= q < ArrayStart(name)
    ensures var bs, n := Document(CommandElements(name, list)), |name|;
            |bs| > ArrayStart(name) + |list|
            && bs[q] == if q == 4 then STRING
                        else if q < 11 then INSERT[q - 5]
                        else if q == 11 then 0
                        else if q < 16 + n then StringBytes(name)[q - 12]
                        else if q == 16 + n then 0
                        else if q == 17 + n then ARRAY
                        else if q < 27 + n then DOCUMENTS[q - 18 - n]
                        else 0
  {
    CommandHead(name, list);
    SplitDocument(CommandElements(name, list), 1);
    var head := Head(CommandElements(name, list), 1);
    assert Document(CommandElements(name, list))[q] == head[q] == Opening(name)[q - 4];
  }

  /** Before the array a byte 3 is never followed by the digit 0. */
  lemma NoElementStart(name: seq<Byte>, list: seq<Byte>, q: nat)
    requires |name| < 255 && DOCUMENT !in name && 4 <= q < ArrayStart(name)
    ensures var bs := Document(CommandElements(name, list));
            q + 1 < |bs| && (bs[q] == DOCUMENT ==> bs[q + 1] != 48)
  {
    CommandBytes(name, list, q);
    if q + 1 < ArrayStart(name) {
      CommandBytes(name, list, q + 1);
    }
    NameBytes(name);
  }

  lemma NameBytes(name: seq<Byte>)
    requires |name| < 255
    ensures var s := StringBytes(name);
            |s| == |name| + 5 && s[0] == |name| + 1 && s[1] == s[2] == s[3] == 0
            && forall i :: 4 <= i < 4 + |name| ==> s[i] == name[i - 4]
  {
    var n := |name| + 1;
    assert LittleEndian(0, 3) == [0, 0, 0];
    assert n % 256 == n && n / 256 == 0 && n % WORD32 == n;
    assert LittleEndian(n, 4) == [n] + LittleEndian(0, 3);
  }

  /** A place one to four bytes before a list that follows "nts" and a zero does not hold that list. */
  lemma NotOverlapping(bs: seq<Byte>, list: seq<Byte>, start: nat, d: nat)
    requires At(bs, list, start) && 1 <= d <= 4 <= start && |list| > 6 && list[4] == DOCUMENT
    requires bs[start - 4..start] == [110, 116, 115, 0]
    ensures !At(bs, list, start - d)
  {
    AtByte(bs, list, start - d, 4);
    AtByte(bs, list, start, 4 - d);
    AtByte(bs, list, start - d, 4 - d);
    AtByte(bs, list, start - d, d - 1);
    if d == 1 {
      AtByte(bs, list, start, 0);
      AtByte(bs, list, start, 1);
      AtByte(bs, list, start, 2);
      AtByte(bs, list, start - 1, 1);
      AtByte(bs, list, start - 1, 2);
    }
    assert bs[start - 4] == 110 && bs[start - 3] == 116 && bs[start - 2] == 115 && bs[start - 1] == 0 by {
      var last := bs[start - 4..start];
      assert last[0] == bs[start - 4] && last[1] == bs[start - 3] && last[2] == bs[start - 2]
        && last[3] == bs[start - 1];
    }
    AtByte(bs, list, start - d, 0);
  }

  lemma BytesBeforeArray(name: seq<Byte>, list: seq<Byte>)
    ensures var bs, start := Document(CommandElements(name, list)), ArrayStart(name);
            |bs| > start && bs[start - 4..start] == [110, 116, 115, 0]
  {
    CommandBytes(name, list, ArrayStart(name) - 1);
    CommandBytes(name, list, ArrayStart(name) - 2);
    CommandBytes(name, list, ArrayStart(name) - 3);
    CommandBytes(name, list, ArrayStart(name) - 4);
  }

  /** No place before the array can be taken for it when the name is short and free of the byte 3. */
  lemma NotEarlier(name: seq<Byte>, list: seq<Byte>, j: nat)
    requires |list| > 6 && list[4] == DOCUMENT && list[5] == 48
    requires |name| < 255 && DOCUMENT !in name && j < ArrayStart(name)
    ensures !At(Document(CommandElements(name, list)), list, j)
  {
    var bs, start := Document(CommandElements(name, list)), ArrayStart(name);
    if j + 4 < start {
      NoElementStart(name, list, j + 4);
      AtByte(bs, list, j, 4);
      AtByte(bs, list, j, 5);
    } else {
      ArrayFound(name, list);
      BytesBeforeArray(name, list);
      NotOverlapping(bs, list, start, start - j);
    }
  }

  /** The first occurrence of the array in the command is the array itself. */
  lemma ArrayInPlace(name: seq<Byte>, docs: seq<seq<Byte>>)
    requires docs != [] && |name| < 255 && DOCUMENT !in name
    ensures Index(Command(name, docs), Document(BatchElements(docs)), 0) == Some(ArrayStart(name))
  {
    var list := Document(BatchElements(docs));
    ArrayFound(name, list);
    forall i: nat | i < ArrayStart(name)
      ensures !At(Document(CommandElements(name, list)), list, i)
    {
      NotEarlier(name, list, i);
    }
    OnlyPlace(Document(CommandElements(name, list)), list, ArrayStart(name));
  }

  /** Each offset is where the first marker of its document is, in an array that begins at start. */
  ghost predicate MarkersAt(docs: seq<seq<Byte>>, offsets: seq<nat>, start: nat)
  {
    |offsets| == |docs| && forall i :: 0 <= i < |docs| ==> MarkerAt(docs, i, offsets[i], start)
  }

  ghost predicate MarkerAt(docs: seq<seq<Byte>>, i: nat, offset: nat, start: nat)
    requires i < |docs|
  {
    Index(docs[i], MARKER, 0).Some?
      && offset == start + ValueOffset(BatchElements(docs), i) + Index(docs[i], MARKER, 0).value
  }

  ghost predicate MarkersUpTo(docs: seq<seq<Byte>>, offsets: seq<nat>, n: nat)
  {
    |offsets| == n <= |docs| && forall i :: 0 <= i < n ==> MarkerAt(docs, i, offsets[i], 0)
  }

  lemma MarkersNext(docs: seq<seq<Byte>>, offsets: seq<nat>, n: nat, offset: nat)
    requires MarkersUpTo(docs, offsets, n) && n < |docs| && MarkerAt(docs, n, offset, 0)
    ensures MarkersUpTo(docs, offsets + [offset], n + 1)
  {
  }

  lemma AllMarked(docs: seq<seq<Byte>>, offsets: seq<nat>)
    requires MarkersUpTo(docs, offsets, |docs|)
    ensures MarkersAt(docs, offsets, 0) && forall i :: 0 <= i < |docs| ==> Index(docs[i], MARKER, 0).Some?
  {
    forall i | 0 <= i < |docs|
      ensures Index(docs[i], MARKER, 0).Some?
    {
      assert MarkerAt(docs, i, offsets[i], 0);
    }
  }

  /** Where the first markers of a batch's documents are in its array. */
  method MarkerOffsets(docs: seq<seq<Byte>>) returns (r: Result<(seq<Byte>, seq<nat>)>)
    ensures r.Ok? <==> forall i :: 0 <= i < |docs| ==> Index(docs[i], MARKER, 0).Some?
    ensures r.Ok? ==> r.value.0 == Document(BatchElements(docs)) && |r.value.1| == |docs|
    ensures r.Ok? ==> MarkersAt(docs, r.value.1, 0)
  {
    var buf: seq<Byte>, offsets: seq<nat> := [0, 0, 0, 0], [];
    for i := 0 to |docs|
      invariant BuiltTo(docs, buf, offsets, i)
    {
      var found;
      found, buf, offsets := AppendDocument(docs, i, buf, offsets);
      if !found {
        return Err;
      }
    }
    AllBuilt(docs, buf, offsets);
    r := Ok((Finished(buf), offsets));
  }

  /** The buffer holds the first n documents, and the offsets are those of their markers. */
  ghost predicate BuiltTo(docs: seq<seq<Byte>>, buf: seq<Byte>, offsets: seq<nat>, n: nat)
  {
    n <= |docs| && buf == Buffer(BatchElements(docs)[..n]) && MarkersUpTo(docs, offsets, n)
  }

  method AppendDocument(docs: seq<seq<Byte>>, i: nat, before: seq<Byte>, places: seq<nat>)
    returns (found: bool, buf: seq<Byte>, offsets: seq<nat>)
    requires i < |docs| && BuiltTo(docs, before, places, i)
    ensures found <==> Index(docs[i], MARKER, 0).Some?
    ensures found ==> BuiltTo(docs, buf, offsets, i + 1)
  {
    AppendToBuffer(BatchElements(docs), i);
    buf := before + [DOCUMENT];
    buf := buf + Key(i) + [0];
    var marker := Index(docs[i], MARKER, 0);
    if marker.None? {
      return false, buf, places;
    }
    MarkersNext(docs, places, i, |buf| + marker.value);
    offsets := places + [|buf| + marker.value];
    buf := buf + docs[i];
    found := true;
  }

  lemma AllBuilt(docs: seq<seq<Byte>>, buf: seq<Byte>, offsets: seq<nat>)
    requires BuiltTo(docs, buf, offsets, |docs|)
    ensures Finished(buf) == Document(BatchElements(docs)) && MarkersAt(docs, offsets, 0)
    ensures forall i :: 0 <= i < |docs| ==> Index(docs[i], MARKER, 0).Some?
  {
    assert BatchElements(docs)[..|docs|] == BatchElements(docs);
    AllMarked(docs, offsets);
  }

  /**
   An insert command for encoded documents with the offsets of their markers, or an error
   when a document has none.
   */
  method PrepareBatch(name: seq<Byte>, docs: seq<seq<Byte>>) returns (r: Result<(seq<Byte>, seq<nat>)>)
    ensures r.Ok? <==> forall i :: 0 <= i < |docs| ==> Index(docs[i], MARKER, 0).Some?
    ensures r.Ok? ==> r.value.0 == Command(name, docs) && |r.value.1| == |docs|
    ensures r.Ok? ==> var start := Index(Command(name, docs), Document(BatchElements(docs)), 0);
                      start.Some? && MarkersAt(docs, r.value.1, start.value)
  {
    var batch := MarkerOffsets(docs);
    if batch.Err? {
      return Err;
    }
    var (list, offsets) := batch.value;
    var command := Document(CommandElements(name, list));
    ArrayFound(name, list);
    var start := Index(command, list, 0).value;
    var final: seq<nat> := [];
    for i := 0 to |docs|
      invariant |final| == i && forall j :: 0 <= j < i ==> MarkerAt(docs, j, final[j], start)
    {
      assert MarkerAt(docs, i, offsets[i], 0);
      final := final + [start + offsets[i]];
    }
    r := Ok((command, final));
  }

  // ---------------------------------------------------------------- patching batches

  /** The ids that a worker writes: consecutive numbers. */
  function Consecutive(first: int, n: nat): (r: seq<seq<Byte>>)
    ensures |r| == n && forall i :: 0 <= i < n ==> r[i] == Int64Bytes(first + i)
  {
    if n == 0 then [] else Consecutive(first, n - 1) + [Int64Bytes(first + n - 1)]
  }

  ghost predicate Eights(values: seq<seq<Byte>>) { forall i :: 0 <= i < |values| ==> |values[i]| == 8 }

  ghost predicate Fits(bs: seq<Byte>, offsets: seq<nat>) { forall i :: 0 <= i < |offsets| ==> offsets[i] + 8 <= |bs| }

  /** The first n values written one after the other. */
  ghost function PatchAll(bs: seq<Byte>, offsets: seq<nat>, values: seq<seq<Byte>>, n: nat): (r: seq<Byte>)
    requires n <= |offsets| == |values| && Eights(values) && Fits(bs, offsets)
    ensures |r| == |bs|
  {
    if n == 0 then bs else PatchAt(PatchAll(bs, offsets, values, n - 1), offsets[n - 1], values[n - 1])
  }

  method PutUint64(a: array<Byte>, offset: nat, eight: seq<Byte>)
    requires offset + 8 <= a.Length && |eight| == 8
    modifies a
    ensures a[..] == PatchAt(old(a[..]), offset, eight)
  {
    for i := 0 to 8
      invariant forall k :: 0 <= k < a.Length ==> a[k] == if offset <= k < offset + i then eight[k - offset]
          else old(a[k])
    {
      a[offset + i] := eight[i];
    }
  }

  /** The patch loop of a worker: consecutive ids written in place. */
  method PatchBatch(a: array<Byte>, offsets: seq<nat>, first: int) returns (next: int)
    requires Fits(a[..], offsets)
    modifies a
    ensures a[..] == PatchAll(old(a[..]), offsets, Consecutive(first, |offsets|), |offsets|)
    ensures next == first + |offsets|
  {
    next := first;
    for i := 0 to |offsets|
      invariant next == first + i
      invariant a[..] == PatchAll(old(a[..]), offsets, Consecutive(first, |offsets|), i)
    {
      PutUint64(a, offsets[i], Int64Bytes(next));
      next := next + 1;
    }
  }

  ghost predicate AllHold(ts: seq<Template>) { forall i :: 0 <= i < |ts| ==> Holds(ts[i]) }

  /** The encoded documents whose patch keys have the given values. */
  ghost function Raws(ts: seq<Template>, values: seq<seq<Byte>>): (r: seq<seq<Byte>>)
    requires AllHold(ts) && |values| == |ts|
    ensures |r| == |ts|
  {
    seq(|ts|, i requires 0 <= i < |ts| => Raw(ts[i], values[i]))
  }

  /** Where the value of the i-th patch key is in the command. */
  ghost function Place(ts: seq<Template>, name: seq<Byte>, values: seq<seq<Byte>>, i: nat): nat
    requires AllHold(ts) && |values| == |ts| && i < |ts|
  {
    ArrayStart(name) + ValueOffset(BatchElements(Raws(ts, values)), i) + ValueOffset(ts[i].fields, ts[i].at)
  }

  lemma {:induction false} SameSizes(es: seq<Element>, fs: seq<Element>)
    requires |es| == |fs| && forall i :: 0 <= i < |es| ==> |ElementBytes(es[i])| == |ElementBytes(fs[i])|
    ensures |ElementsBytes(es)| == |ElementsBytes(fs)|
  {
    if es != [] {
      SameSizes(es[1..], fs[1..]);
    }
  }

  lemma RawsSameSize(ts: seq<Template>, u: seq<seq<Byte>>, v: seq<seq<Byte>>, i: nat)
    requires AllHold(ts) && |u| == |v| == |ts| && Eights(u) && Eights(v) && i < |ts|
    ensures |Raws(ts, u)[i]| == |Raws(ts, v)[i]| == |Document(ts[i].fields)|
  {
    RawFrame(ts[i], u[i]);
    RawFrame(ts[i], v[i]);
  }

  /** Where the patch keys are does not depend on their values. */
  lemma PlaceFixed(ts: seq<Template>, name: seq<Byte>, u: seq<seq<Byte>>, v: seq<seq<Byte>>, i: nat)
    requires AllHold(ts) && |u| == |v| == |ts| && Eights(u) && Eights(v) && i < |ts|
    ensures Place(ts, name, u, i) == Place(ts, name, v, i)
  {
    var es, fs := BatchElements(Raws(ts, u)), BatchElements(Raws(ts, v));
    forall k | 0 <= k < i
      ensures |ElementBytes(es[..i][k])| == |ElementBytes(fs[..i][k])|
    {
      RawsSameSize(ts, u, v, k);
    }
    SameSizes(es[..i], fs[..i]);
  }

  lemma PatchList(name: seq<Byte>, list: seq<Byte>, offset: nat, eight: seq<Byte>)
    requires offset + 8 <= |list| && |eight| == 8
    ensures ArrayStart(name) + offset + 8 <= |Document(CommandElements(name, list))|
    ensures PatchAt(Document(CommandElements(name, list)), ArrayStart(name) + offset, eight)
            == Document(CommandElements(name, PatchAt(list, offset, eight)))
  {
    CommandHead(name, list);
    PatchNested(CommandElements(name, list), 1, offset, eight);
    assert WithValue(CommandElements(name, list), 1, PatchAt(list, offset, eight))
      == CommandElements(name, PatchAt(list, offset, eight));
  }

  lemma PatchDocument(ts: seq<Template>, values: seq<seq<Byte>>, i: nat, eight: seq<Byte>)
    requires AllHold(ts) && |values| == |ts| && Eights(values) && i < |ts| && |eight| == 8
    ensures var es, offset := BatchElements(Raws(ts, values)), ValueOffset(ts[i].fields, ts[i].at);
            ValueOffset(es, i) + offset + 8 <= |Document(es)|
            && PatchAt(Document(es), ValueOffset(es, i) + offset, eight)
              == Document(BatchElements(Raws(ts, values[i := eight])))
  {
    var raws := Raws(ts, values);
    PatchRaw(ts[i], values[i], eight);
    PatchNested(BatchElements(raws), i, ValueOffset(ts[i].fields, ts[i].at), eight);
    assert Raws(ts, values[i := eight]) == raws[i := Raw(ts[i], eight)];
    assert WithValue(BatchElements(raws), i, Raw(ts[i], eight)) == BatchElements(raws[i := Raw(ts[i], eight)]);
  }

  /** One value written at its place changes only that document. */
  lemma PatchOne(ts: seq<Template>, name: seq<Byte>, values: seq<seq<Byte>>, i: nat, eight: seq<Byte>)
    requires AllHold(ts) && |values| == |ts| && Eights(values) && i < |ts| && |eight| == 8
    ensures Place(ts, name, values, i) + 8 <= |Command(name, Raws(ts, values))|
    ensures PatchAt(Command(name, Raws(ts, values)), Place(ts, name, values, i), eight)
        == Command(name, Raws(ts, values[i := eight]))
  {
    var es, offset := BatchElements(Raws(ts, values)), ValueOffset(ts[i].fields, ts[i].at);
    PatchDocument(ts, values, i, eight);
    PatchList(name, Document(es), ValueOffset(es, i) + offset, eight);
  }

  ghost predicate InPlace(ts: seq<Template>, name: seq<Byte>, values: seq<seq<Byte>>, offsets: seq<nat>)
    requires AllHold(ts) && |values| == |ts|
  {
    |offsets| == |ts| && forall i :: 0 <= i < |ts| ==> offsets[i] == Place(ts, name, values, i)
  }

  lemma InPlaceFits(ts: seq<Template>, name: seq<Byte>, values: seq<seq<Byte>>, offsets: seq<nat>)
    requires AllHold(ts) && |values| == |ts| && Eights(values) && InPlace(ts, name, values, offsets)
    ensures Fits(Command(name, Raws(ts, values)), offsets)
  {
    forall i | 0 <= i < |ts|
      ensures offsets[i] + 8 <= |Command(name, Raws(ts, values))|
    {
      PatchOne(ts, name, values, i, values[i]);
    }
  }

  lemma OneMoreValue(before: seq<seq<Byte>>, after: seq<seq<Byte>>, n: nat)
    requires |before| == |after| && Eights(before) && Eights(after) && 0 < n <= |before|
    ensures var mixed := after[..n - 1] + before[n - 1..];
            |mixed| == |before| && Eights(mixed) && mixed[n - 1 := after[n - 1]] == after[..n] + before[n..]
  {
  }

  lemma PatchNext(ts: seq<Template>, name: seq<Byte>, before: seq<seq<Byte>>, mixed: seq<seq<Byte>>,
        offsets: seq<nat>, i: nat, eight: seq<Byte>)
    requires AllHold(ts) && |before| == |mixed| == |ts| && Eights(before) && Eights(mixed) && i < |ts| && |eight| == 8
    requires InPlace(ts, name, before, offsets)
    ensures offsets[i] + 8 <= |Command(name, Raws(ts, mixed))|
    ensures PatchAt(Command(name, Raws(ts, mixed)), offsets[i], eight) == Command(name, Raws(ts, mixed[i := eight]))
  {
    PlaceFixed(ts, name, before, mixed, i);
    PatchOne(ts, name, mixed, i, eight);
  }

  lemma {:induction false} PatchSteps(ts: seq<Template>, name: seq<Byte>, before: seq<seq<Byte>>,
        after: seq<seq<Byte>>, offsets: seq<nat>, n: nat)
    requires AllHold(ts) && |before| == |after| == |ts| && Eights(before) && Eights(after) && n <= |ts|
    requires InPlace(ts, name, before, offsets) && Fits(Command(name, Raws(ts, before)), offsets)
    ensures |after[..n] + before[n..]| == |ts|
    ensures PatchAll(Command(name, Raws(ts, before)), offsets, after, n)
        == Command(name, Raws(ts, after[..n] + before[n..]))
  {
    if n > 0 {
      PatchSteps(ts, name, before, after, offsets, n - 1);
      OneMoreValue(before, after, n);
      PatchNext(ts, name, before, after[..n - 1] + before[n - 1..], offsets, n - 1, after[n - 1]);
    } else {
      assert after[..0] + before[0..] == before;
    }
  }

  /** What the server reads: the command, its array with the keys "0", "1", ..., and every document's fields. */
  ghost predicate Reads(bs: seq<Byte>, name: seq<Byte>, ts: seq<Template>, values: seq<seq<Byte>>)
    requires AllHold(ts) && |values| == |ts|
  {
    var docs := Raws(ts, values);
    && ParseDocument(bs) == Some(CommandElements(name, Document(BatchElements(docs))))
    && ParseDocument(Document(BatchElements(docs))) == Some(BatchElements(docs))
    && forall i :: 0 <= i < |ts| ==> ParseDocument(docs[i]) == Some(Fields(ts[i], values[i]))
  }

  lemma DocumentValue(es: seq<Element>, kind: Byte)
    requires |Document(es)| < 0x8000_0000 && (kind == DOCUMENT || kind == ARRAY)
    ensures ValueSize(kind, Document(es)) == Some(|Document(es)|)
  {
    DocumentParts(es);
    AnnouncedBytes(Document(es));
  }

  lemma StringValue(s: seq<Byte>)
    requires |s| + 1 < 0x8000_0000
    ensures ValueSize(STRING, StringBytes(s)) == Some(|StringBytes(s)|)
  {
    StringHeader(s);
    NumberOfFourBytes(|s| + 1);
    assert Announced(StringBytes(s)) == |s| + 1;
  }

  lemma StringHeader(s: seq<Byte>)
    requires |s| + 1 < 0x8000_0000
    ensures |StringBytes(s)| == |s| + 5 && StringBytes(s)[..4] == LittleEndian(|s| + 1, 4)
  {
    assert (|s| + 1) % WORD32 == |s| + 1;
  }

  lemma ElementInside(es: seq<Element>, k: nat)
    requires k < |es|
    ensures ValueOffset(es, k) + |es[k].value| < |Document(es)|
  {
    SplitDocument(es, k);
  }

  lemma CommandParses(name: seq<Byte>, es: seq<Element>)
    requires |Document(CommandElements(name, Document(es)))| < 0x8000_0000
    ensures AllWellFormed(CommandElements(name, Document(es))) && |Document(es)| < 0x8000_0000
    ensures ParseDocument(Document(CommandElements(name, Document(es)))) == Some(CommandElements(name, Document(es)))
  {
    var command := CommandElements(name, Document(es));
    ElementInside(command, 0);
    ElementInside(command, 1);
    StringValue(name);
    DocumentValue(es, ARRAY);
    assert AllWellFormed(command);
    PrintedDocument(command);
  }

  lemma BatchParses(ts: seq<Template>, values: seq<seq<Byte>>)
    requires AllHold(ts) && |values| == |ts| && Eights(values)
    requires |Document(BatchElements(Raws(ts, values)))| < 0x8000_0000
    ensures ParseDocument(Document(BatchElements(Raws(ts, values)))) == Some(BatchElements(Raws(ts, values)))
    ensures forall i :: 0 <= i < |ts| ==> ParseDocument(Raws(ts, values)[i]) == Some(Fields(ts[i], values[i]))
  {
    var es := BatchElements(Raws(ts, values));
    forall i | 0 <= i < |ts|
      ensures WellFormed(es[i]) && ParseDocument(Raws(ts, values)[i]) == Some(Fields(ts[i], values[i]))
    {
      ElementInside(es, i);
      DocumentValue(Fields(ts[i], values[i]), DOCUMENT);
      RawFrame(ts[i], values[i]);
      PrintedDocument(Fields(ts[i], values[i]));
    }
    PrintedDocument(es);
  }

  /** With every first marker in its patch key's value, the prepared offsets are the places of the patch keys. */
  lemma PreparedInPlace(ts: seq<Template>, name: seq<Byte>, markers: seq<seq<Byte>>, offsets: seq<nat>)
    requires AllHold(ts) && ts != [] && |markers| == |ts| && forall i :: 0 <= i < |ts| ==> markers[i] == MARKER
    requires forall i :: 0 <= i < |ts| ==>
        Index(Raw(ts[i], MARKER), MARKER, 0) == Some(ValueOffset(ts[i].fields, ts[i].at))
    requires |name| < 255 && DOCUMENT !in name
    requires var start := Index(Command(name, Raws(ts, markers)), Document(BatchElements(Raws(ts, markers))), 0);
             start.Some? && MarkersAt(Raws(ts, markers), offsets, start.value)
    ensures InPlace(ts, name, markers, offsets)
  {
    ArrayInPlace(name, Raws(ts, markers));
    forall i | 0 <= i < |ts|
      ensures offsets[i] == Place(ts, name, markers, i)
    {
      assert MarkerAt(Raws(ts, markers), i, offsets[i], ArrayStart(name));
    }
  }

  /**
   A worker's patched command holds exactly the same documents with its ids, whatever ids
   the command held before: nothing of an earlier round is left and nothing else changes.
   */
  lemma PatchedCommand(ts: seq<Template>, name: seq<Byte>, before: seq<seq<Byte>>, ids: seq<seq<Byte>>,
        offsets: seq<nat>)
    requires AllHold(ts) && |before| == |ids| == |ts| && Eights(before) && Eights(ids)
        && InPlace(ts, name, before, offsets)
    requires |Command(name, Raws(ts, before))| < 0x8000_0000
    ensures Fits(Command(name, Raws(ts, before)), offsets)
    ensures var patched := PatchAll(Command(name, Raws(ts, before)), offsets, ids, |ts|);
            patched == Command(name, Raws(ts, ids)) && Reads(patched, name, ts, ids)
  {
    InPlaceFits(ts, name, before, offsets);
    PatchSteps(ts, name, before, ids, offsets, |ts|);
    assert ids[..|ts|] + before[|ts|..] == ids;
    CommandParses(name, BatchElements(Raws(ts, ids)));
    BatchParses(ts, ids);
  }

  /** Writing a second round of ids gives what writing it on the first command would have given. */
  lemma PatchTwice(ts: seq<Template>, name: seq<Byte>, before: seq<seq<Byte>>, first: seq<seq<Byte>>,
        second: seq<seq<Byte>>, offsets: seq<nat>)
    requires AllHold(ts) && |before| == |first| == |second| == |ts| && Eights(before) && Eights(first) && Eights(second)
    requires InPlace(ts, name, before, offsets) && |Command(name, Raws(ts, before))| < 0x8000_0000
    ensures Fits(Command(name, Raws(ts, before)), offsets)
    ensures var command := Command(name, Raws(ts, before));
            PatchAll(PatchAll(command, offsets, first, |ts|), offsets, second, |ts|)
              == PatchAll(command, offsets, second, |ts|)
  {
    PatchedCommand(ts, name, before, first, offsets);
    PatchedCommand(ts, name, before, second, offsets);
    forall i | 0 <= i < |ts|
      ensures offsets[i] == Place(ts, name, first, i)
    {
      PlaceFixed(ts, name, before, first, i);
    }
    PatchedCommand(ts, name, first, second, offsets);
  }

  lemma LaterElement(es: seq<Element>, i: nat, j: nat)
    requires i < j < |es|
    ensures ValueOffset(es, i) + |es[i].value| < ValueOffset(es, j)
  {
    var head := es[..j];
    SplitElements(head, i + 1);
    assert head[..i + 1] == es[..i] + [es[i]];
    AppendElement(es[..i], es[i]);
  }

  /** The patches of one command do not overlap. */
  lemma PatchesApart(ts: seq<Template>, name: seq<Byte>, values: seq<seq<Byte>>, i: nat, j: nat)
    requires AllHold(ts) && |values| == |ts| && Eights(values) && i < j < |ts|
    ensures Place(ts, name, values, i) + 8 <= Place(ts, name, values, j)
  {
    LaterElement(BatchElements(Raws(ts, values)), i, j);
    RawFrame(ts[i], values[i]);
  }
}
