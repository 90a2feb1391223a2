/**
 Index key patterns and the order in which an index visits documents
 (internal/stats/index_advice.go).
 */
module IndexKeys {
  import opened Text

  datatype Role = NoRole | Equality | SortRole | RangeRole

  datatype KeySpec = KeySpec(field: string, direction: int, kind: string, role: Role)

  predicate BtreeKind(kind: string) { kind == "asc" || kind == "desc" || kind == "" }

  function FlipKey(k: KeySpec): KeySpec
  {
    if k.direction > 0 then k.(direction := -1, kind := "desc")
    else if k.direction < 0 then k.(direction := 1, kind := "asc")
    else k
  }

  function FlipKeys(keys: seq<KeySpec>): (r: seq<KeySpec>)
    ensures |r| == |keys| && forall i :: 0 <= i < |keys| ==> r[i] == FlipKey(keys[i])
  {
    seq(|keys|, i requires 0 <= i < |keys| => FlipKey(keys[i]))
  }

  function FieldNames(keys: seq<KeySpec>): (r: seq<string>)
    ensures |r| == |keys| && forall i :: 0 <= i < |keys| ==> r[i] == keys[i].field
  {
    seq(|keys|, i requires 0 <= i < |keys| => keys[i].field)
  }

  predicate SameFieldNames(keys: seq<KeySpec>, fields: seq<string>)
  {
    && |keys| == |fields|
    && (forall i :: 0 <= i < |keys| ==> BtreeKind(keys[i].kind))
    && SortStrings(FieldNames(keys)) == SortStrings(fields)
  }

  /** The number of leading keys with the equality role. */
  function LeadingEquality(keys: seq<KeySpec>): (n: nat)
    ensures n <= |keys| && (forall i :: 0 <= i < n ==> keys[i].role == Equality)
    ensures n < |keys| ==> keys[n].role != Equality
  {
    if keys == [] || keys[0].role != Equality then 0 else 1 + LeadingEquality(keys[1..])
  }

  predicate TailServes(index: seq<KeySpec>, candidate: seq<KeySpec>, from: nat)
    requires |candidate| <= |index|
  {
    forall i :: from <= i < |candidate| ==>
      && index[i].field == candidate[i].field && index[i].direction == candidate[i].direction
      && BtreeKind(index[i].kind) && BtreeKind(candidate[i].kind)
  }

  predicate ServeForward(index: seq<KeySpec>, candidate: seq<KeySpec>)
    requires |candidate| <= |index|
  {
    var eq := LeadingEquality(candidate);
    && (eq > 0 ==> SameFieldNames(index[..eq], FieldNames(candidate[..eq])))
    && TailServes(index, candidate, eq)
  }

  predicate KeysServe(index: seq<KeySpec>, candidate: seq<KeySpec>)
  {
    && candidate != [] && |index| >= |candidate|
    && (ServeForward(index, candidate) || ServeForward(FlipKeys(index), candidate))
  }

  predicate SameTail(index: seq<KeySpec>, n: nat, tail: seq<KeySpec>)
    requires n + |tail| <= |index|
  {
    forall i :: 0 <= i < |tail| ==>
      && index[n + i].field == tail[i].field && index[n + i].direction == tail[i].direction
      && BtreeKind(index[n + i].kind)
  }

  predicate LeadingSetAndTail(index: seq<KeySpec>, eq: seq<string>, tail: seq<KeySpec>)
  {
    |index| >= |eq| + |tail| && SameFieldNames(index[..|eq|], eq) && SameTail(index, |eq|, tail)
  }

  // ------------------------------------------------------------ what an index does

  /** A document, as the place of each field's value in the server's value order. */
  type Doc = string -> int

  /** How a key without a numeric direction (hashed, text, ...) places a value; nothing is known about it. */
  type Special = (string, int) -> int

  /** The place a key gives a document. Only the sign of a numeric direction counts. */
  function Rank(sp: Special, k: KeySpec, d: Doc): int
  {
    if k.direction > 0 then d(k.field) else if k.direction < 0 then -d(k.field) else sp(k.kind, d(k.field))
  }

  /** d is not after e in the order of a list of keys. */
  predicate LexLe(sp: Special, keys: seq<KeySpec>, d: Doc, e: Doc)
  {
    keys == []
    || Rank(sp, keys[0], d) < Rank(sp, keys[0], e)
    || (Rank(sp, keys[0], d) == Rank(sp, keys[0], e) && LexLe(sp, keys[1..], d, e))
  }

  ghost predicate Ordered(sp: Special, keys: seq<KeySpec>, docs: seq<Doc>)
  {
    forall i, j :: 0 <= i < j < |docs| ==> LexLe(sp, keys, docs[i], docs[j])
  }

  /** A forward walk visits documents in key order, a backward walk in the opposite order. */
  ghost predicate Walk(sp: Special, keys: seq<KeySpec>, docs: seq<Doc>, forward: bool)
  {
    forall i, j :: 0 <= i < j < |docs| ==>
      if forward then LexLe(sp, keys, docs[i], docs[j]) else LexLe(sp, keys, docs[j], docs[i])
  }

  predicate AgreeOn(d: Doc, e: Doc, fields: seq<string>) { forall f :: f in fields ==> d(f) == e(f) }

  ghost predicate AllAgree(docs: seq<Doc>, fields: seq<string>) {
    forall i, j :: 0 <= i < |docs| && 0 <= j < |docs| ==> AgreeOn(docs[i], docs[j], fields)
  }

  /** A key order restricted to a prefix of its keys. */
  lemma {:induction false} LexPrefix(sp: Special, keys: seq<KeySpec>, n: nat, d: Doc, e: Doc)
    requires n <= |keys| && LexLe(sp, keys, d, e)
    ensures LexLe(sp, keys[..n], d, e)
  {
    if n > 0 && Rank(sp, keys[0], d) == Rank(sp, keys[0], e) {
      LexPrefix(sp, keys[1..], n - 1, d, e);
      assert keys[..n][1..] == keys[1..][..n - 1];
    }
  }

  /** Keys on which two documents have the same place can be skipped. */
  lemma {:induction false} LexSkip(sp: Special, keys: seq<KeySpec>, n: nat, d: Doc, e: Doc)
    requires n <= |keys| && forall i :: 0 <= i < n ==> Rank(sp, keys[i], d) == Rank(sp, keys[i], e)
    ensures LexLe(sp, keys, d, e) <==> LexLe(sp, keys[n..], d, e)
  {
    if n > 0 {
      assert keys[1..][n - 1..] == keys[n..];
      LexSkip(sp, keys[1..], n - 1, d, e);
    }
  }

  /** Keys that place both documents alike order them alike. */
  lemma {:induction false} LexSameRanks(sp: Special, a: seq<KeySpec>, b: seq<KeySpec>, d: Doc, e: Doc)
    requires |a| == |b| && LexLe(sp, a, d, e)
    requires forall i :: 0 <= i < |a| ==>
        Rank(sp, a[i], d) == Rank(sp, b[i], d) && Rank(sp, a[i], e) == Rank(sp, b[i], e)
    ensures LexLe(sp, b, d, e)
  {
    if a != [] && Rank(sp, a[0], d) == Rank(sp, a[0], e) {
      LexSameRanks(sp, a[1..], b[1..], d, e);
    }
  }

  /** Where every key has a direction, the opposite order is the order of the flipped keys. */
  lemma {:induction false} LexOpposite(sp: Special, a: seq<KeySpec>, b: seq<KeySpec>, d: Doc, e: Doc)
    requires |a| == |b| && LexLe(sp, a, e, d)
    requires forall i :: 0 <= i < |a| ==>
        Rank(sp, a[i], d) == -Rank(sp, b[i], d) && Rank(sp, a[i], e) == -Rank(sp, b[i], e)
    ensures LexLe(sp, b, d, e)
  {
    if a != [] && Rank(sp, a[0], d) == Rank(sp, a[0], e) {
      LexOpposite(sp, a[1..], b[1..], d, e);
    }
  }

  lemma SortedMembers(a: seq<string>, b: seq<string>)
    requires SortStrings(a) == SortStrings(b)
    ensures multiset(a) == multiset(b) && forall f :: f in a <==> f in b
  {
    SortStringsElements(a);
    SortStringsElements(b);
    forall f
      ensures f in a <==> f in b
    {
      assert (f in a <==> f in multiset(a)) && (f in b <==> f in multiset(b));
    }
  }

  /** Every key of an equality prefix is on an equality field. */
  lemma PrefixFields(keys: seq<KeySpec>, fields: seq<string>)
    requires SameFieldNames(keys, fields)
    ensures forall i :: 0 <= i < |keys| ==> keys[i].field in fields
    ensures forall f :: f in fields ==> exists i :: 0 <= i < |keys| && keys[i].field == f
  {
    SortedMembers(FieldNames(keys), fields);
    forall i | 0 <= i < |keys|
      ensures keys[i].field in fields
    {
      assert FieldNames(keys)[i] == keys[i].field;
    }
    forall f | f in fields
      ensures exists i :: 0 <= i < |keys| && keys[i].field == f
    {
      var i :| 0 <= i < |FieldNames(keys)| && FieldNames(keys)[i] == f;
      assert keys[i].field == f;
    }
  }
}
