/**
 Order-preserving sort specifications (internal/config/sort.go): decoding objects at sort
 positions in written order, validating and normalizing them, printing them back, and
 listing those with several keys. JSON text is an ordered tree.
 */
module SortSpec {
  import opened Wrappers
  import opened Text

  datatype NumKind = F64 | F32 | GoInt | I32 | I64 | JSONNumber

  /** A Go value: Map is map[string]interface{}, M is bson.M, D is bson.D. */
  datatype Value =
    | Null | Bool(b: bool) | Str(s: string) | Num(kind: NumKind, r: real) | Other(id: int)
    | Map(m: map<string, Value>) | M(m: map<string, Value>) | D(fields: seq<Elem>) | Arr(items: seq<Value>)

  datatype Elem = Elem(key: string, value: Value)

  const SORT_BY_OWNERS: set<string> :=
    {"$setWindowFields", "$fill", "$top", "$bottom", "$topN", "$bottomN", "$sortArray"}
  const META_VALUES: set<string> := {"textScore", "searchScore"}

  predicate IsSortPosition(owner: string, key: string)
  {
    key == "$sort" || (key == "sortBy" && owner in SORT_BY_OWNERS)
  }

  /** A bare 1 or -1 is allowed for the $push modifier and for $sortArray, not for a $sort stage. */
  predicate ScalarSortAllowed(owner: string, key: string)
  {
    (key == "$sort" && owner != "") || (key == "sortBy" && owner == "$sortArray")
  }

  // ----------------------------------------------------------------- normalizing

  function SortDirection(v: Value): Option<Value>
  {
    if v.Num? && (v.r == 1.0 || v.r == -1.0) then Some(Num(I32, v.r)) else None
  }

  function MetaOf(v: Value): Value
  {
    if v.Map? && |v.m| == 1 && "$meta" in v.m then v.m["$meta"]
    else if v.D? && |v.fields| == 1 && v.fields[0].key == "$meta" then v.fields[0].value
    else Null
  }

  function NormalizeSortValue(v: Value): Result<Value>
  {
    if SortDirection(v).Some? then Ok(SortDirection(v).value)
    else if MetaOf(v).Str? && MetaOf(v).s in META_VALUES then Ok(D([Elem("$meta", MetaOf(v))]))
    else Err
  }

  predicate SortKeyOk(k: string) { TrimSpace(k) != "" && (k == "" || k[0] != '$') }

  predicate UniqueKeys(d: seq<Elem>) { forall i, j :: 0 <= i < j < |d| ==> d[i].key != d[j].key }

  predicate SpecOk(d: seq<Elem>)
  {
    d != [] && UniqueKeys(d) && forall i :: 0 <= i < |d| ==> SortKeyOk(d[i].key) && NormalizeSortValue(d[i].value).Ok?
  }

  function SpecOf(d: seq<Elem>): (r: seq<Elem>)
    requires SpecOk(d)
    ensures |r| == |d| && forall i :: 0 <= i < |r| ==> r[i] == Elem(d[i].key, NormalizeSortValue(d[i].value).value)
  {
    seq(|d|, i requires 0 <= i < |d| => Elem(d[i].key, NormalizeSortValue(d[i].value).value))
  }

  method ValidateSortSpec(d: seq<Elem>) returns (r: Result<seq<Elem>>)
    ensures r == if SpecOk(d) then Ok(SpecOf(d)) else Err
  {
    if |d| == 0 {
      return Err;
    }
    var out: seq<Elem>, seen: set<string> := [], {};
    for i := 0 to |d|
      invariant i > 0 ==> SpecOk(d[..i]) && out == SpecOf(d[..i])
      invariant i == 0 ==> out == []
      invariant seen == set j | 0 <= j < i :: d[j].key
    {
      var e := d[i];
      assert forall j :: 0 <= j <= i ==> d[..i + 1][j] == d[j];
      if !SortKeyOk(e.key) || e.key in seen {
        return Err;
      }
      seen := seen + {e.key};
      match NormalizeSortValue(e.value)
      case Err => return Err;
      case Ok(val) => out := out + [Elem(e.key, val)];
    }
    assert d[..|d|] == d;
    return Ok(out);
  }

  /** The fields of a map that has at most one. */
  ghost function SingleField(m: map<string, Value>): seq<Elem>
    requires |m| <= 1
  {
    if m == map[] then [] else var k :| k in m; [Elem(k, m[k])]
  }

  ghost function NormalizeSpec(v: Value, allowScalar: bool): Result<Value>
  {
    match v
    case D(d) => if SpecOk(d) then Ok(D(SpecOf(d))) else Err
    case Map(m) => if |m| <= 1 && SpecOk(SingleField(m)) then Ok(D(SpecOf(SingleField(m)))) else Err
    case M(m) => if |m| <= 1 && SpecOk(SingleField(m)) then Ok(D(SpecOf(SingleField(m)))) else Err
    case _ => if allowScalar && SortDirection(v).Some? then Ok(SortDirection(v).value) else Err
  }

  /** One member of an object: a sort position or an ordinary value. */
  ghost function NormalizeMember(owner: string, k: string, v: Value): Result<Value>
    decreases v, 1
  {
    if IsSortPosition(owner, k) then NormalizeSpec(v, ScalarSortAllowed(owner, k)) else NormalizeSpecs(v, k)
  }

  ghost function NormalizeSpecs(v: Value, owner: string): Result<Value>
    decreases v, 0
  {
    match v
    case Map(m) =>
      if forall k :: k in m ==> NormalizeMember(owner, k, m[k]).Ok?
        then Ok(Map(map k | k in m :: NormalizeMember(owner, k, m[k]).value)) else Err
    case M(m) =>
      if forall k :: k in m ==> NormalizeMember(owner, k, m[k]).Ok?
        then Ok(M(map k | k in m :: NormalizeMember(owner, k, m[k]).value)) else Err
    case D(d) =>
      if forall i :: 0 <= i < |d| ==> NormalizeMember(owner, d[i].key, d[i].value).Ok?
      then Ok(D(seq(|d|, i requires 0 <= i < |d| =>
        Elem(d[i].key, NormalizeMember(owner, d[i].key, d[i].value).value))))
      else Err
    case Arr(items) =>
      if forall i :: 0 <= i < |items| ==> NormalizeSpecs(items[i], "").Ok?
      then Ok(Arr(seq(|items|, i requires 0 <= i < |items| => NormalizeSpecs(items[i], "").value)))
      else Err
    case _ => Ok(v)
  }

  // ------------------------------------------------------------- what is accepted

  /** A number 1 or -1 of any Go type. */
  predicate Direction(v: Value) { v.Num? && (v.r == 1.0 || v.r == -1.0) }

  /** A document or map with the single member $meta, of this text. */
  predicate MetaDocument(v: Value, text: string)
  {
    v == D([Elem("$meta", Str(text))]) || v == Map(map["$meta" := Str(text)])
  }

  predicate OrderTerm(e: Elem)
  {
    && TrimSpace(e.key) != "" && !("$" <= e.key)
    && (Direction(e.value) || MetaDocument(e.value, "textScore") || MetaDocument(e.value, "searchScore"))
  }

  /** The normalized term orders by the same key in the same way: 1 and -1 are int32, $meta is an ordered document. */
  ghost predicate SameTerm(e: Elem, n: Elem)
  {
    && n.key == e.key
    && (Direction(e.value) ==> n.value.Num? && n.value.kind == I32 && n.value.r == e.value.r)
    && (!Direction(e.value) ==> exists text :: MetaDocument(e.value, text) && n.value == D([Elem("$meta", Str(text))]))
  }

  lemma MetaExact(v: Value, text: string)
    ensures MetaOf(v) == Str(text) <==> MetaDocument(v, text)
  {
    if v.Map? && |v.m| == 1 && "$meta" in v.m {
      SingleMember(v.m, "$meta");
    }
    if v.D? && |v.fields| == 1 {
      assert v.fields == [v.fields[0]];
    }
  }

  lemma SingleMember(m: map<string, Value>, k: string)
    requires |m| == 1 && k in m
    ensures m == map[k := m[k]]
  {
    var rest := m.Keys - {k};
    assert |m.Keys| == 1 && |rest| == 0;
    assert m.Keys == {k} + rest == {k};
  }

  lemma TermExact(e: Elem)
    ensures SortKeyOk(e.key) && NormalizeSortValue(e.value).Ok? <==> OrderTerm(e)
    ensures OrderTerm(e) ==> SameTerm(e, Elem(e.key, NormalizeSortValue(e.value).value))
  {
    MetaExact(e.value, "textScore");
    MetaExact(e.value, "searchScore");
  }

  /**
   An ordered specification is accepted exactly when it has terms, all on different keys,
   and each orders by a named key; it comes out with the same terms in the same order.
   */
  lemma SpecExact(d: seq<Elem>, allowScalar: bool)
    ensures NormalizeSpec(D(d), allowScalar).Ok? <==>
              && d != [] && (forall i, j :: 0 <= i < j < |d| ==> d[i].key != d[j].key)
              && forall i :: 0 <= i < |d| ==> OrderTerm(d[i])
    ensures NormalizeSpec(D(d), allowScalar).Ok? ==>
              var n := NormalizeSpec(D(d), allowScalar).value;
              n.D? && |n.fields| == |d| && forall i :: 0 <= i < |d| ==> SameTerm(d[i], n.fields[i])
  {
    forall i | 0 <= i < |d|
      ensures SortKeyOk(d[i].key) && NormalizeSortValue(d[i].value).Ok? <==> OrderTerm(d[i])
      ensures OrderTerm(d[i]) ==> SameTerm(d[i], Elem(d[i].key, NormalizeSortValue(d[i].value).value))
    {
      TermExact(d[i]);
    }
  }

  // ------------------------------------------------------------------ idempotence

  lemma SpecAgain(d: seq<Elem>)
    requires SpecOk(d)
    ensures SpecOk(SpecOf(d)) && SpecOf(SpecOf(d)) == SpecOf(d)
  {
    forall i | 0 <= i < |d|
      ensures NormalizeSortValue(SpecOf(d)[i].value) == Ok(SpecOf(d)[i].value)
    {
    }
  }

  lemma SpecPositionAgain(v: Value, allow: bool)
    requires NormalizeSpec(v, allow).Ok?
    ensures NormalizeSpec(NormalizeSpec(v, allow).value, allow) == NormalizeSpec(v, allow)
  {
    match v
    case D(d) => SpecAgain(d);
    case Map(m) => SpecAgain(SingleField(m));
    case M(m) => SpecAgain(SingleField(m));
    case _ =>
  }

  lemma {:induction false} MemberAgain(owner: string, k: string, v: Value)
    requires NormalizeMember(owner, k, v).Ok?
    ensures NormalizeMember(owner, k, NormalizeMember(owner, k, v).value) == NormalizeMember(owner, k, v)
    decreases v, 1
  {
    if IsSortPosition(owner, k) {
      SpecPositionAgain(v, ScalarSortAllowed(owner, k));
    } else {
      NormalizeTwice(v, k);
    }
  }

  /** Normalizing an accepted value again changes nothing. */
  lemma {:induction false} NormalizeTwice(v: Value, owner: string)
    requires NormalizeSpecs(v, owner).Ok?
    ensures NormalizeSpecs(NormalizeSpecs(v, owner).value, owner) == NormalizeSpecs(v, owner)
    decreases v, 0
  {
    var n := NormalizeSpecs(v, owner).value;
    match v
    case Map(m) =>
      forall k | k in m
        ensures NormalizeMember(owner, k, n.m[k]) == Ok(n.m[k])
      {
        MemberAgain(owner, k, m[k]);
      }
      assert (map k | k in n.m :: NormalizeMember(owner, k, n.m[k]).value) == n.m;
    case M(m) =>
      forall k | k in m
        ensures NormalizeMember(owner, k, n.m[k]) == Ok(n.m[k])
      {
        MemberAgain(owner, k, m[k]);
      }
      assert (map k | k in n.m :: NormalizeMember(owner, k, n.m[k]).value) == n.m;
    case D(d) =>
      forall i | 0 <= i < |d|
        ensures NormalizeMember(owner, n.fields[i].key, n.fields[i].value) == Ok(n.fields[i].value)
      {
        MemberAgain(owner, d[i].key, d[i].value);
      }
      assert NormalizeSpecs(n, owner).value.fields == n.fields;
    case Arr(items) =>
      forall i | 0 <= i < |items|
        ensures NormalizeSpecs(n.items[i], "") == Ok(n.items[i])
      {
        NormalizeTwice(items[i], "");
      }
      assert NormalizeSpecs(n, owner).value.items == n.items;
    case _ =>
  }

  // ---------------------------------------------------------------------- decoding

  /** JSON text as a tree; objects keep the written order and may repeat a key. */
  datatype JSON = JNull | JBool(b: bool) | JStr(s: string) | JNum(r: real) | JArr(items: seq<JSON>)
        | JObj(fields: seq<JField>)

  datatype JField = JField(key: string, value: JSON)

  predicate UniqueFields(fs: seq<JField>) { forall i, j :: 0 <= i < j < |fs| ==> fs[i].key != fs[j].key }

  /** The members of an ordinary object; a repeated key takes its last value. */
  ghost function DecodeFields(fs: seq<JField>, owner: string): Result<map<string, Value>>
    decreases fs
  {
    if fs == [] then Ok(map[])
    else
      var last := fs[|fs| - 1];
      var before, v := DecodeFields(fs[..|fs| - 1], owner),
        Decode(last.value, last.key, IsSortPosition(owner, last.key));
      if before.Ok? && v.Ok? then Ok(before.value[last.key := v.value]) else Err
  }

  ghost function Decode(j: JSON, owner: string, sortPos: bool): Result<Value>
    decreases j
  {
    match j
    case JObj(fs) =>
      if sortPos then
        if UniqueFields(fs) && forall i :: 0 <= i < |fs| ==> Decode(fs[i].value, fs[i].key, false).Ok? then
          Ok(D(seq(|fs|, i requires 0 <= i < |fs| => Elem(fs[i].key, Decode(fs[i].value, fs[i].key, false).value))))
        else Err
      else
        (match DecodeFields(fs, owner)
         case Ok(m) => Ok(Map(m))
         case Err => Err)
    case JArr(items) =>
      if forall i :: 0 <= i < |items| ==> Decode(items[i], "", false).Ok?
      then Ok(Arr(seq(|items|, i requires 0 <= i < |items| => Decode(items[i], "", false).value)))
      else Err
    case JNum(r) => Ok(Num(F64, r))
    case JStr(s) => Ok(Str(s))
    case JBool(b) => Ok(Bool(b))
    case JNull => Ok(Null)
  }

  /** What a decoded value looks like: ordered documents exactly at sort positions, plain maps elsewhere. */
  ghost predicate DecodedForm(v: Value, owner: string, sortPos: bool)
    decreases v
  {
    match v
    case Map(m) => !sortPos && forall k :: k in m ==> DecodedForm(m[k], k, IsSortPosition(owner, k))
    case D(d) => sortPos && UniqueKeys(d) && forall i :: 0 <= i < |d| ==> DecodedForm(d[i].value, d[i].key, false)
    case Arr(items) => forall i :: 0 <= i < |items| ==> DecodedForm(items[i], "", false)
    case Num(kind, _) => kind == F64
    case M(_) => false
    case Other(_) => false
    case _ => true
  }

  lemma {:induction false} FieldsHaveForm(fs: seq<JField>, owner: string)
    requires DecodeFields(fs, owner).Ok?
    ensures forall k :: k in DecodeFields(fs, owner).value ==>
        DecodedForm(DecodeFields(fs, owner).value[k], k, IsSortPosition(owner, k))
    decreases fs
  {
    if fs != [] {
      var last := fs[|fs| - 1];
      FieldsHaveForm(fs[..|fs| - 1], owner);
      DecodedHasForm(last.value, last.key, IsSortPosition(owner, last.key));
    }
  }

  lemma {:induction false} DecodedHasForm(j: JSON, owner: string, sortPos: bool)
    requires Decode(j, owner, sortPos).Ok?
    ensures DecodedForm(Decode(j, owner, sortPos).value, owner, sortPos)
    decreases j
  {
    match j
    case JObj(fs) =>
      if sortPos {
        forall i | 0 <= i < |fs|
          ensures DecodedForm(Decode(fs[i].value, fs[i].key, false).value, fs[i].key, false)
        {
          DecodedHasForm(fs[i].value, fs[i].key, false);
        }
      } else {
        FieldsHaveForm(fs, owner);
      }
    case JArr(items) =>
      forall i | 0 <= i < |items|
        ensures DecodedForm(Decode(items[i], "", false).value, "", false)
      {
        DecodedHasForm(items[i], "", false);
      }
    case _ =>
  }

  // ---------------------------------------------------------------------- printing

  /** The keys of a map, alphabetically. */
  ghost function SortedKeys(s: set<string>): (r: seq<string>)
    ensures forall i :: 0 <= i < |r| ==> r[i] in s
  {
    var keys := KeyList(s);
    SortedOnce(keys, s);
    SortStrings(keys)
  }

  lemma SortedKeysOnce(s: set<string>)
    ensures var r := SortedKeys(s);
        (forall k :: k in r <==> k in s) && |r| == |s| && forall i, j :: 0 <= i < j < |r| ==> r[i] != r[j]
  {
    SortedOnce(KeyList(s), s);
  }

  ghost function KeyList(s: set<string>): (r: seq<string>)
    ensures multiset(r) == multiset(s)
  {
    if s == {} then [] else var k :| k in s; [k] + KeyList(s - {k})
  }

  lemma SortedOnce(keys: seq<string>, s: set<string>)
    requires multiset(keys) == multiset(s)
    ensures var r := SortStrings(keys);
        (forall k :: k in r <==> k in s) && |r| == |s| && forall i, j :: 0 <= i < j < |r| ==> r[i] != r[j]
  {
    var r := SortStrings(keys);
    SortStringsElements(keys);
    assert |multiset(r)| == |r| && |multiset(s)| == |s|;
    forall k
      ensures k in r <==> k in s
    {
      assert (k in r <==> k in multiset(r)) && (k in s <==> k in multiset(s));
    }
    forall i, j | 0 <= i < j < |r|
      ensures r[i] != r[j]
    {
      assert r == r[..j] + [r[j]] + r[j + 1..];
      assert multiset(r) == multiset(r[..j]) + multiset{r[j]} + multiset(r[j + 1..]);
      assert r[i] in r[..j];
      assert multiset(s)[r[i]] <= 1;
    }
  }

  /** orderedForJSON and encoding/json: maps alphabetically, ordered documents in their order. */
  ghost function Print(v: Value): JSON
    decreases v
  {
    match v
    case Map(m) =>
      var keys := SortedKeys(m.Keys);
      JObj(seq(|keys|, i requires 0 <= i < |keys| => (assert keys[i] in m; JField(keys[i], Print(m[keys[i]])))))
    case D(d) => JObj(seq(|d|, i requires 0 <= i < |d| => JField(d[i].key, Print(d[i].value))))
    case Arr(items) => JArr(seq(|items|, i requires 0 <= i < |items| => Print(items[i])))
    case Num(_, r) => JNum(r)
    case Str(s) => JStr(s)
    case Bool(b) => JBool(b)
    case _ => JNull
  }

  // ------------------------------------------------------------------- round trip

  ghost predicate Accepted(v: Value, owner: string, k: string) { NormalizeMember(owner, k, v).Ok? }

  /** Printed and decoded again, a normalized member is accepted and normalizes to itself. */
  ghost predicate Returns(n: Value, owner: string, k: string)
  {
    var back := Decode(Print(n), k, IsSortPosition(owner, k));
    back.Ok? && NormalizeMember(owner, k, back.value) == Ok(n)
  }

  ghost predicate ReturnsPlain(n: Value, owner: string)
  {
    var back := Decode(Print(n), owner, false);
    back.Ok? && NormalizeSpecs(back.value, owner) == Ok(n)
  }

  ghost predicate HasField(fs: seq<JField>, k: string) { exists i :: 0 <= i < |fs| && fs[i].key == k }

  lemma HasFieldLast(fs: seq<JField>, k: string)
    requires fs != []
    ensures HasField(fs, k) <==> HasField(fs[..|fs| - 1], k) || fs[|fs| - 1].key == k
  {
    var init := fs[..|fs| - 1];
    if i :| 0 <= i < |fs| && fs[i].key == k {
      assert i < |init| ==> init[i].key == k;
    }
    if i :| 0 <= i < |init| && init[i].key == k {
      assert fs[i].key == k;
    }
  }

  /** Decoding an object's fields one by one. */
  lemma {:induction false} FieldsDecode(fs: seq<JField>, owner: string, n: map<string, Value>)
    requires forall i :: 0 <= i < |fs| ==>
        fs[i].key in n && Decode(fs[i].value, fs[i].key, IsSortPosition(owner, fs[i].key)) == Ok(n[fs[i].key])
    ensures DecodeFields(fs, owner).Ok?
    ensures forall k {:trigger HasField(fs, k)} :: HasField(fs, k) <==> k in DecodeFields(fs, owner).value
    ensures forall k :: k in DecodeFields(fs, owner).value ==> k in n && DecodeFields(fs, owner).value[k] == n[k]
    decreases fs
  {
    if fs != [] {
      FieldsDecode(fs[..|fs| - 1], owner, n);
      var before := DecodeFields(fs[..|fs| - 1], owner).value;
      var last := fs[|fs| - 1];
      forall k
        ensures HasField(fs, k) <==> k in before[last.key := n[last.key]]
      {
        HasFieldLast(fs, k);
      }
    }
  }

  lemma PrintedSortValue(v: Value, key: string)
    requires NormalizeSortValue(v).Ok?
    ensures var n := NormalizeSortValue(v).value;
            var back := Decode(Print(n), key, false);
            back.Ok? && NormalizeSortValue(back.value) == Ok(n)
  {
    var n := NormalizeSortValue(v).value;
    if n.D? {
      var fs := Print(n).fields;
      assert Print(n.fields[0].value) == JStr(n.fields[0].value.s);
      assert fs[0] == JField("$meta", Print(n.fields[0].value));
      assert fs == [JField("$meta", JStr(n.fields[0].value.s))];
      assert fs[..0] == [];
      assert DecodeFields(fs, key) == Ok(map["$meta" := Str(n.fields[0].value.s)]);
    }
  }

  /** The printed fields of a normalized specification. */
  lemma PrintedSpec(d: seq<Elem>, k: string)
    requires SpecOk(d) && SpecOf(d) == d
    ensures var back := Decode(Print(D(d)), k, true);
            && back.Ok? && back.value.D? && SpecOk(back.value.fields) && SpecOf(back.value.fields) == d
  {
    var fs := Print(D(d)).fields;
    forall i | 0 <= i < |d|
      ensures var back := Decode(fs[i].value, fs[i].key, false);
          back.Ok? && NormalizeSortValue(back.value) == Ok(d[i].value)
    {
      PrintedSortValue(d[i].value, d[i].key);
    }
    assert UniqueFields(fs);
    var back := Decode(Print(D(d)), k, true).value.fields;
    assert SpecOf(back) == d;
  }

  /** A normalized sort specification. */
  lemma SpecReturns(v: Value, owner: string, k: string)
    requires IsSortPosition(owner, k) && Accepted(v, owner, k)
    ensures Returns(NormalizeMember(owner, k, v).value, owner, k)
  {
    var n := NormalizeMember(owner, k, v).value;
    SpecPositionAgain(v, ScalarSortAllowed(owner, k));
    if n.D? {
      PrintedSpec(n.fields, k);
    }
  }

  lemma {:induction false} MemberReturns(v: Value, owner: string, k: string)
    requires DecodedForm(v, k, IsSortPosition(owner, k)) && Accepted(v, owner, k)
    ensures Returns(NormalizeMember(owner, k, v).value, owner, k)
    decreases v, 1
  {
    if IsSortPosition(owner, k) {
      SpecReturns(v, owner, k);
    } else {
      PlainReturns(v, k);
    }
  }

  lemma {:induction false} PlainReturns(v: Value, owner: string)
    requires DecodedForm(v, owner, false) && NormalizeSpecs(v, owner).Ok?
    ensures ReturnsPlain(NormalizeSpecs(v, owner).value, owner)
    decreases v, 0
  {
    var n := NormalizeSpecs(v, owner).value;
    match v
    case Map(m) =>
      forall k | k in m
        ensures Returns(n.m[k], owner, k)
      {
        MemberReturns(m[k], owner, k);
      }
      MapReturns(n.m, owner);
    case Arr(items) =>
      forall i | 0 <= i < |items|
        ensures ReturnsPlain(n.items[i], "")
      {
        PlainReturns(items[i], "");
      }
      ArrReturns(n.items, owner);
    case _ =>
  }

  lemma ArrReturns(items: seq<Value>, owner: string)
    requires forall i :: 0 <= i < |items| ==> ReturnsPlain(items[i], "")
    ensures ReturnsPlain(Arr(items), owner)
  {
    var printed := Print(Arr(items));
    assert forall i :: 0 <= i < |items| ==> printed.items[i] == Print(items[i]);
    var back := Decode(printed, owner, false);
    assert NormalizeSpecs(back.value, owner).value.items == items;
  }

  lemma PrintedFields(n: map<string, Value>)
    ensures var fs, keys := Print(Map(n)).fields, SortedKeys(n.Keys);
            && |fs| == |keys|
            && (forall i :: 0 <= i < |fs| ==> keys[i] in n && fs[i] == JField(keys[i], Print(n[keys[i]])))
            && (forall k {:trigger HasField(fs, k)} :: HasField(fs, k) <==> k in n)
  {
    var fs, keys := Print(Map(n)).fields, SortedKeys(n.Keys);
    SortedKeysOnce(n.Keys);
    forall k
      ensures HasField(fs, k) <==> k in n
    {
      if k in n {
        var i :| 0 <= i < |keys| && keys[i] == k;
        assert fs[i].key == k;
      }
    }
  }

  lemma DecodedMap(fs: seq<JField>, owner: string, back: map<string, Value>)
    requires forall i :: 0 <= i < |fs| ==>
        fs[i].key in back && Decode(fs[i].value, fs[i].key, IsSortPosition(owner, fs[i].key)) == Ok(back[fs[i].key])
    requires forall k {:trigger HasField(fs, k)} :: HasField(fs, k) <==> k in back
    ensures Decode(JObj(fs), owner, false) == Ok(Map(back))
  {
    FieldsDecode(fs, owner, back);
    var m := DecodeFields(fs, owner).value;
    forall k
      ensures k in m <==> k in back
    {
      assert HasField(fs, k) <==> k in back;
    }
    assert m == back;
  }

  /** The printed members of a map are read back as the map of what each reads back as. */
  lemma MapDecodes(n: map<string, Value>, owner: string, back: map<string, Value>)
    requires back.Keys == n.Keys
        && forall k :: k in n ==> Decode(Print(n[k]), k, IsSortPosition(owner, k)) == Ok(back[k])
    ensures Decode(Print(Map(n)), owner, false) == Ok(Map(back))
  {
    PrintedFields(n);
    var fs, keys := Print(Map(n)).fields, SortedKeys(n.Keys);
    forall i | 0 <= i < |fs|
      ensures fs[i].key in back
          && Decode(fs[i].value, fs[i].key, IsSortPosition(owner, fs[i].key)) == Ok(back[fs[i].key])
    {
      assert keys[i] in n && fs[i] == JField(keys[i], Print(n[keys[i]]));
    }
    DecodedMap(fs, owner, back);
  }

  lemma NormalizedMap(back: map<string, Value>, n: map<string, Value>, owner: string)
    requires back.Keys == n.Keys && forall k :: k in back ==> NormalizeMember(owner, k, back[k]) == Ok(n[k])
    ensures NormalizeSpecs(Map(back), owner) == Ok(Map(n))
  {
    assert (map k | k in back :: NormalizeMember(owner, k, back[k]).value) == n;
  }

  lemma MapReturns(n: map<string, Value>, owner: string)
    requires forall k :: k in n ==> Returns(n[k], owner, k)
    ensures ReturnsPlain(Map(n), owner)
  {
    var back := map k | k in n :: Decode(Print(n[k]), k, IsSortPosition(owner, k)).value;
    forall k | k in n
      ensures Decode(Print(n[k]), k, IsSortPosition(owner, k)) == Ok(back[k])
          && NormalizeMember(owner, k, back[k]) == Ok(n[k])
    {
      assert Returns(n[k], owner, k);
    }
    MapDecodes(n, owner, back);
    NormalizedMap(back, n, owner);
  }

  /** For every decoded value that is accepted: printing, decoding and normalizing again returns the same value. */
  lemma PrintDecodeNormalize(j: JSON)
    requires Decode(j, "", false).Ok? && NormalizeSpecs(Decode(j, "", false).value, "").Ok?
    ensures var n := NormalizeSpecs(Decode(j, "", false).value, "").value;
            && Decode(Print(n), "", false).Ok?
            && NormalizeSpecs(Decode(Print(n), "", false).value, "") == Ok(n)
  {
    DecodedHasForm(j, "", false);
    PlainReturns(Decode(j, "", false).value, "");
  }
}
