/**
 When a partial index is taken to include a query (partialProven in
 internal/stats/index_advice.go, over what decodePartialFilter in internal/webui/indexes.go keeps).
 */
module PartialFilter {
  import opened Wrappers
  import opened Predicates
  import opened DocumentTrees

  const NULL: Value := Opaque(0)

  /** What a document has at each dotted field. */
  type Doc = string -> Option<Value>

  function View(root: Value): Doc { f => Lookup(root, Split(f)) }

  /** The value that equality sees: a missing field is null. */
  function At(d: Doc, f: string): Value { if d(f).Some? then d(f).value else NULL }

  predicate Numeric(v: Value) { v.Int? || v.Double? }

  function NumberOf(v: Value): real
    requires Numeric(v)
  {
    if v.Int? then v.n as real else v.r
  }

  /** The server's equality: numbers compare by value whatever their type. */
  predicate Same(x: Value, y: Value) { x == y || (Numeric(x) && Numeric(y) && NumberOf(x) == NumberOf(y)) }

  predicate OpAllows(x: Value, op: string, operand: Value)
  {
    if op == "$eq" then Same(x, operand)
    else if op == "$in" && operand.List? then exists i :: 0 <= i < |operand.items| && Same(x, operand.items[i])
    else true
  }

  predicate FieldAllows(x: Value, val: Value)
  {
    if !val.Document? then Same(x, val)
    else OperatorDoc(val.m) ==> forall op :: op in val.m ==> OpAllows(x, op, val.m[op])
  }

  /** What every matching document satisfies. Range operators narrow it further, which no result needs. */
  ghost predicate Matches(d: Doc, v: Value)
    decreases v
  {
    v.Document? ==>
      && ("$and" in v.m && v.m["$and"].List? ==>
            forall i :: 0 <= i < |v.m["$and"].items| ==> Matches(d, v.m["$and"].items[i]))
      && forall k :: k in v.m && !IsOperator(k) ==> FieldAllows(At(d, k), v.m[k])
  }

  /** x is a value that some literal with this token equals. */
  ghost predicate HasToken(x: Value, t: Token) { exists w :: CanonicalPredicateValue(w) == Some(t) && Same(x, w) }

  // ------------------------------------------- what classification gets right

  /** The literal that a field's condition compares with. */
  lemma FieldLiteral(field: string, val: Value) returns (w: Value)
    requires field in FieldFacts(field, val).values
    ensures CanonicalPredicateValue(w) == Some(FieldFacts(field, val).values[field])
    ensures forall x :: FieldAllows(x, val) ==> Same(x, w)
  {
    if val.Document? {
      var parts := OpParts(field, val.m);
      OpPartsApart(field, val.m);
      assert field in AllValued(parts);
      var op :| op in parts && field in parts[op].values;
      ValueOfPart(parts, op, field);
      assert op == "$eq";
      w := val.m[op];
      assert forall x :: FieldAllows(x, val) ==> OpAllows(x, op, val.m[op]);
    } else {
      w := val;
    }
  }

  ghost predicate TopMatches(d: Doc, m: map<string, Value>)
  {
    forall k :: k in m && !IsOperator(k) ==> FieldAllows(At(d, k), m[k])
  }

  lemma TopLiteral(m: map<string, Value>, f: string) returns (w: Value)
    requires f in Gather(TopParts(m)).values
    ensures CanonicalPredicateValue(w) == Some(Gather(TopParts(m)).values[f])
    ensures forall d: Doc :: TopMatches(d, m) ==> Same(At(d, f), w)
  {
    var parts := TopParts(m);
    TopPartsApart(m);
    assert f in AllValued(parts);
    var k :| k in parts && f in parts[k].values;
    ValueOfPart(parts, k, f);
    FieldValues(k, m[k]);
    w := FieldLiteral(k, m[k]);
  }

  /** Of every field classified as an equality with a value there is a literal that all matching documents equal. */
  lemma {:induction false} MatchedLiteral(v: Value, f: string) returns (w: Value)
    requires f in FilterFacts(v).values
    ensures CanonicalPredicateValue(w) == Some(FilterFacts(v).values[f])
    ensures forall d: Doc :: Matches(d, v) ==> Same(At(d, f), w)
    decreases v
  {
    if f in Gather(TopParts(v.m)).values {
      w := TopLiteral(v.m, f);
      assert forall d: Doc :: Matches(d, v) ==> TopMatches(d, v.m);
    } else {
      w := ListLiteral(v.m["$and"].items, f);
      assert forall d: Doc :: Matches(d, v) ==> ListMatches(d, v.m["$and"].items);
    }
  }

  ghost predicate ListMatches(d: Doc, items: seq<Value>) { forall i :: 0 <= i < |items| ==> Matches(d, items[i]) }

  lemma {:induction false} ListLiteral(items: seq<Value>, f: string) returns (w: Value)
    requires f in ListFacts(items).values
    ensures CanonicalPredicateValue(w) == Some(ListFacts(items).values[f])
    ensures forall d: Doc :: ListMatches(d, items) ==> Same(At(d, f), w)
    decreases items
  {
    var n := |items| - 1;
    if f in FilterFacts(items[n]).values {
      w := MatchedLiteral(items[n], f);
    } else {
      w := ListLiteral(items[..n], f);
      assert forall d: Doc :: ListMatches(d, items) ==> ListMatches(d, items[..n]);
    }
  }

  /** A matching document has, on every field classified as an equality with a value, that value. */
  lemma MatchedToken(d: Doc, v: Value, f: string)
    requires Matches(d, v) && f in FilterFacts(v).values
    ensures HasToken(At(d, f), FilterFacts(v).values[f])
  {
    var w := MatchedLiteral(v, f);
  }

  // ------------------------------------------------------------ partial filters

  /** An element of a partial filter. A document inside a list is the And of its elements. */
  datatype Clause = Field(field: string, value: Value) | And(items: seq<Clause>) | Or(items: seq<Clause>)

  datatype Pred = Pred(field: string, op: string, value: Option<Token>)

  /** The constraints kept of one top-level element: $and and $or are skipped. */
  function Decoded(c: Clause): set<Pred>
  {
    match c
    case Field(f, v) =>
      if v.Document? then set op | op in v.m && IsOperator(op) :: Pred(f, op, CanonicalPredicateValue(v.m[op]))
      else if CanonicalPredicateValue(v).Some? then {Pred(f, "eq", CanonicalPredicateValue(v))}
      else {}
    case _ => {}
  }

  function Decode(p: seq<Clause>): set<Pred> { set i, pp | 0 <= i < |p| && pp in Decoded(p[i]) :: pp }

  predicate EqualityOp(pp: Pred) { pp.op == "eq" || pp.op == "$eq" }

  predicate PartialProven(partial: bool, preds: set<Pred>, values: map<string, Token>)
  {
    !partial
    || (preds != {}
        && forall pp :: pp in preds ==> EqualityOp(pp) && pp.field in values && pp.value == Some(values[pp.field]))
  }

  // ---------------------------------------------------- what the index includes

  /** The meaning of operators other than equality, on what a document has at the field. */
  type Operators = (Option<Value>, string, Value) -> bool

  predicate Satisfies(d: Doc, c: Clause, other: Operators)
  {
    match c
    case And(items) => forall i :: 0 <= i < |items| ==> Satisfies(d, items[i], other)
    case Or(items) => exists i :: 0 <= i < |items| && Satisfies(d, items[i], other)
    case Field(f, v) =>
      if v.Document? && OperatorDoc(v.m) then
        forall op :: op in v.m ==> if op == "$eq" then Same(At(d, f), v.m[op]) else other(d(f), op, v.m[op])
      else Same(At(d, f), v)
  }

  predicate Included(d: Doc, p: seq<Clause>, other: Operators)
  {
    forall i :: 0 <= i < |p| ==> Satisfies(d, p[i], other)
  }

  predicate WellFormed(p: seq<Clause>) { forall i :: 0 <= i < |p| && p[i].Field? ==> !IsOperator(p[i].field) }

  /** d matches a query q that is taken to be included. */
  ghost predicate Covered(d: Doc, q: Value, p: seq<Clause>)
  {
    FilterFacts(q).unsupported == {} && PartialProven(true, Decode(p), FilterFacts(q).values) && Matches(d, q)
  }

  /** Every matching document of every query that is taken to be included is included. */
  ghost predicate Sound(p: seq<Clause>, other: Operators)
  {
    forall q: Value, root: Value :: root.Document? && ArrayFree(root) && Covered(View(root), q, p) ==>
      Included(View(root), p, other)
  }

  // ------------------------------------------------------- when that is reliable

  /** Some query is taken to be included: only equalities were kept, and they agree. */
  ghost predicate Provable(p: seq<Clause>)
  {
    && Decode(p) != {}
    && (forall pp :: pp in Decode(p) ==> EqualityOp(pp) && pp.value.Some?)
    && (forall pp, qq :: pp in Decode(p) && qq in Decode(p) && pp.field == qq.field ==> pp.value == qq.value)
  }

  function ValueWith(t: Token): Value
  {
    match t
    case StrToken(s) => Str(s)
    case BoolToken(b) => Bool(b)
    case IntToken(n) => Int(n)
  }

  ghost predicate Keeps(p: seq<Clause>, f: string, pp: Pred) { pp in Decode(p) && pp.field == f && pp.value.Some? }

  ghost function TokenFor(p: seq<Clause>, f: string): Token
    requires exists pp :: Keeps(p, f, pp)
  {
    var pp :| Keeps(p, f, pp);
    pp.value.value
  }

  /** The plain values of the kept constraints. */
  ghost function KeptValues(p: seq<Clause>): map<string, Value>
    requires Provable(p)
  {
    map pp | pp in Decode(p) :: pp.field := (assert Keeps(p, pp.field, pp); ValueWith(TokenFor(p, pp.field)))
  }

  /** A kept field leads to another one, so that no document can have a plain value at both. */
  ghost predicate Overlap(kept: map<string, Value>)
  {
    exists f, g :: f in kept && g in kept && Above(Split(f), Split(g))
  }

  ghost predicate BelowKept(kept: map<string, Value>, f: string) { exists g :: g in kept && Above(Split(g), Split(f)) }

  /** Whether the kept values force field f to equal v: it is kept with v, or it must be missing and v is null. */
  ghost predicate LeafForced(kept: map<string, Value>, f: string, v: Value)
  {
    if f in kept then Same(kept[f], v) else BelowKept(kept, f) && v == NULL
  }

  /** Whether the kept values force an element, without using operators other than equality. */
  ghost predicate Forced(kept: map<string, Value>, c: Clause)
  {
    match c
    case And(items) => forall i :: 0 <= i < |items| ==> Forced(kept, items[i])
    case Or(items) => exists i :: 0 <= i < |items| && Forced(kept, items[i])
    case Field(f, v) =>
      if v.Document? && OperatorDoc(v.m) then forall op :: op in v.m ==> op == "$eq" && LeafForced(kept, f, v.m[op])
      else LeafForced(kept, f, v)
  }

  /** No kept number is one that out-of-range floats share. */
  ghost predicate NoneShared(p: seq<Clause>) { forall pp :: pp in Decode(p) ==> pp.value != Some(IntToken(MIN_INT64)) }

  ghost predicate AllForced(p: seq<Clause>)
    requires Provable(p)
  {
    forall i :: 0 <= i < |p| ==> Forced(KeptValues(p), p[i])
  }

  /** What can be computed from the filter: nothing is ever proven, or what is kept forces all of it. */
  ghost predicate Reliable(p: seq<Clause>)
  {
    Provable(p) && !Overlap(KeptValues(p)) ==> NoneShared(p) && AllForced(p)
  }

  // ----------------------------------------------------------------- tokens and values

  /** Outside the shared token, a token determines its value up to the server's equality. */
  lemma TokenValue(v: Value, t: Token)
    requires CanonicalPredicateValue(v) == Some(t) && t != IntToken(MIN_INT64)
    ensures Same(v, ValueWith(t))
  {
  }

  lemma TokensAgree(x: Value, v: Value, t: Token)
    requires HasToken(x, t) && CanonicalPredicateValue(v) == Some(t) && t != IntToken(MIN_INT64)
    ensures Same(x, v)
  {
    var w :| CanonicalPredicateValue(w) == Some(t) && Same(x, w);
    TokenValue(v, t);
    TokenValue(w, t);
  }

  /** A value with a token is neither null nor a document nor a list. */
  lemma TokenIsPlain(x: Value, t: Token)
    requires HasToken(x, t)
    ensures !x.Document? && !x.List? && !x.Opaque?
  {
    var w :| CanonicalPredicateValue(w) == Some(t) && Same(x, w);
  }

  lemma ValueHasToken(t: Token)
    ensures CanonicalPredicateValue(ValueWith(t)) == Some(t)
  {
  }

  lemma TokenIsKept(p: seq<Clause>, pp: Pred)
    requires Provable(p) && pp in Decode(p)
    ensures Keeps(p, pp.field, pp) && pp.value == Some(TokenFor(p, pp.field))
    ensures pp.field in KeptValues(p) && KeptValues(p)[pp.field] == ValueWith(pp.value.value)
  {
    assert Keeps(p, pp.field, pp);
    assert pp.field in KeptValues(p);
  }

  /** Where a kept value comes from. */
  lemma KeptFrom(p: seq<Clause>, f: string) returns (pp: Pred)
    requires Provable(p) && f in KeptValues(p)
    ensures pp in Decode(p) && pp.field == f && pp.value.Some? && KeptValues(p)[f] == ValueWith(pp.value.value)
  {
    pp :| pp in Decode(p) && pp.field == f;
    TokenIsKept(p, pp);
  }

  // ------------------------------------------------- what is forced holds everywhere

  /** A document has the kept values. */
  ghost predicate Holds(d: Doc, kept: map<string, Value>) {
    forall f :: f in kept ==> Same(At(d, f), kept[f]) && d(f).Some? && !d(f).value.Document?
  }

  lemma CoveredToken(p: seq<Clause>, q: Value, d: Doc, f: string) returns (t: Token)
    requires Provable(p) && Covered(d, q, p) && f in KeptValues(p)
    ensures KeptValues(p)[f] == ValueWith(t) && HasToken(At(d, f), t) && d(f).Some? && !d(f).value.Document?
    ensures NoneShared(p) ==> t != IntToken(MIN_INT64)
  {
    var pp := KeptFrom(p, f);
    t := pp.value.value;
    MatchedToken(d, q, f);
    TokenIsPlain(At(d, f), t);
  }

  lemma CoveredHolds(p: seq<Clause>, q: Value, d: Doc)
    requires Provable(p) && NoneShared(p) && Covered(d, q, p)
    ensures Holds(d, KeptValues(p))
  {
    forall f | f in KeptValues(p)
      ensures Same(At(d, f), KeptValues(p)[f]) && d(f).Some? && !d(f).value.Document?
    {
      var t := CoveredToken(p, q, d, f);
      ValueHasToken(t);
      TokensAgree(At(d, f), KeptValues(p)[f], t);
    }
  }

  lemma LeafHolds(root: Value, kept: map<string, Value>, f: string, v: Value)
    requires Holds(View(root), kept) && LeafForced(kept, f, v)
    ensures Same(At(View(root), f), v)
  {
    if f !in kept {
      var g :| g in kept && Above(Split(g), Split(f));
      assert View(root)(g).Some? && !View(root)(g).value.Document?;
      NothingBelow(root, Split(g), Split(f));
    }
  }

  /** A document with the kept values satisfies what they force, whatever the other operators mean. */
  lemma {:induction false} ForcedHolds(root: Value, kept: map<string, Value>, c: Clause, other: Operators)
    requires Holds(View(root), kept) && Forced(kept, c)
    ensures Satisfies(View(root), c, other)
    decreases c
  {
    match c
    case And(items) =>
      forall i | 0 <= i < |items|
        ensures Satisfies(View(root), items[i], other)
      {
        ForcedHolds(root, kept, items[i], other);
      }
    case Or(items) =>
      var i :| 0 <= i < |items| && Forced(kept, items[i]);
      ForcedHolds(root, kept, items[i], other);
    case Field(f, v) =>
      if v.Document? && OperatorDoc(v.m) {
        forall op | op in v.m
          ensures op == "$eq" && Same(At(View(root), f), v.m[op])
        {
          LeafHolds(root, kept, f, v.m[op]);
        }
      } else {
        LeafHolds(root, kept, f, v);
      }
  }

  lemma OverlapIsEmpty(p: seq<Clause>, q: Value, root: Value, f: string, g: string)
    requires Provable(p) && f in KeptValues(p) && g in KeptValues(p) && Above(Split(f), Split(g))
    ensures !Covered(View(root), q, p)
  {
    if Covered(View(root), q, p) {
      var t := CoveredToken(p, q, View(root), f);
      var u := CoveredToken(p, q, View(root), g);
      NothingBelow(root, Split(f), Split(g));
    }
  }

  /** No document is covered when a kept field leads to another one. */
  lemma OverlapCoversNothing(p: seq<Clause>, q: Value, root: Value)
    requires Provable(p) && Overlap(KeptValues(p))
    ensures !Covered(View(root), q, p)
  {
    var f, g :| f in KeptValues(p) && g in KeptValues(p) && Above(Split(f), Split(g));
    OverlapIsEmpty(p, q, root, f, g);
  }

  lemma UnprovableCoversNothing(p: seq<Clause>, q: Value, d: Doc)
    requires !Provable(p)
    ensures !Covered(d, q, p)
  {
  }

  lemma ReliableIncludes(p: seq<Clause>, q: Value, root: Value, other: Operators)
    requires Reliable(p) && Covered(View(root), q, p)
    ensures Included(View(root), p, other)
  {
    if !Provable(p) {
      UnprovableCoversNothing(p, q, View(root));
    } else if Overlap(KeptValues(p)) {
      OverlapCoversNothing(p, q, root);
    } else {
      CoveredHolds(p, q, View(root));
      forall i | 0 <= i < |p|
        ensures Satisfies(View(root), p[i], other)
      {
        ForcedHolds(root, KeptValues(p), p[i], other);
      }
    }
  }

  /** A filter that passes the computable test is never wrongly taken to include a query. */
  lemma ReliableIsSound(p: seq<Clause>, other: Operators)
    requires Reliable(p)
    ensures Sound(p, other)
  {
    forall q: Value, root: Value | root.Document? && ArrayFree(root) && Covered(View(root), q, p)
      ensures Included(View(root), p, other)
    {
      ReliableIncludes(p, q, root, other);
    }
  }
}
