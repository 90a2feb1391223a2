/**
 What is known of a filter once it is classified (classifyFilter and classifyField in
 internal/stats/index_advice.go), said of the clauses anywhere in its $and lists.
 */
module ClassifiedFilter {
  import opened Wrappers
  import opened Predicates

  /** The filter, or a document in its $and lists however deep, has this member. */
  ghost predicate Has(v: Value, k: string, x: Value)
    decreases v
  {
    v.Document?
    && ((k in v.m && v.m[k] == x)
        || ("$and" in v.m && v.m["$and"].List? && exists i ::
          0 <= i < |v.m["$and"].items| && Has(v.m["$and"].items[i], k, x)))
  }

  // ------------------------------------------------------------ a fact of some clause

  /** A fact that holds of merged facts when it holds of one of them. */
  type Fact = Facts -> bool

  ghost predicate Joins(q: Fact, a: Facts, b: Facts) { q(Merge(a, b)) <==> q(a) || q(b) }

  ghost predicate OfParts(q: Fact) { !q(NONE) && forall a, b :: Joins(q, a, b) }

  ghost predicate SomePart(parts: map<string, Facts>, q: Fact) { exists k :: k in parts && q(parts[k]) }

  lemma {:induction false} GatherHas(parts: map<string, Facts>, q: Fact)
    requires OfParts(q) && Apart(parts)
    ensures q(Gather(parts)) <==> SomePart(parts, q)
    decreases |parts|
  {
    if parts == map[] {
      assert Gather(parts) == NONE;
    } else {
      var k :| k in parts;
      var rest := parts - {k};
      TakePart(parts, k);
      GatherHas(rest, q);
      assert Joins(q, Gather(rest), parts[k]);
      OtherPart(parts, k, q);
    }
  }

  lemma OtherPart(parts: map<string, Facts>, k: string, q: Fact)
    requires k in parts
    ensures SomePart(parts, q) <==> SomePart(parts - {k}, q) || q(parts[k])
  {
    var rest := parts - {k};
    if SomePart(rest, q) {
      var j :| j in rest && q(rest[j]);
      assert parts[j] == rest[j];
    }
    if j :| j in parts && q(parts[j]) {
      assert j != k ==> j in rest && rest[j] == parts[j];
    }
  }

  lemma TakePart(parts: map<string, Facts>, k: string)
    requires Apart(parts) && k in parts
    ensures Apart(parts - {k}) && Gather(parts) == Merge(Gather(parts - {k}), parts[k])
  {
    var rest := parts - {k};
    assert parts == rest[k := parts[k]];
    ApartLess(rest, k, parts[k]);
    GatherAdd(rest, k, parts[k]);
  }

  /** What one member says; a list under $and speaks through its documents. */
  ghost function MemberFacts(k: string, x: Value): Facts
  {
    if k == "$and" then (if x.List? then NONE else NONE.(unsupported := {"$and"})) else KeyFacts(k, x)
  }

  ghost predicate SomeMember(v: Value, q: Fact) { exists k, x :: Has(v, k, x) && q(MemberFacts(k, x)) }

  ghost predicate OwnMember(m: map<string, Value>, q: Fact) { exists k :: k in m && q(MemberFacts(k, m[k])) }

  ghost predicate ListMember(items: seq<Value>, q: Fact) { exists i :: 0 <= i < |items| && SomeMember(items[i], q) }

  /** The members of a filter are its own and those of its $and list. */
  lemma MembersSplit(v: Value, q: Fact)
    requires v.Document?
    ensures SomeMember(v, q) <==>
              OwnMember(v.m, q) || ("$and" in v.m && v.m["$and"].List? && ListMember(v.m["$and"].items, q))
  {
    if OwnMember(v.m, q) {
      var k :| k in v.m && q(MemberFacts(k, v.m[k]));
      assert Has(v, k, v.m[k]);
    }
    if "$and" in v.m && v.m["$and"].List? {
      var items := v.m["$and"].items;
      if ListMember(items, q) {
        var i :| 0 <= i < |items| && SomeMember(items[i], q);
        var k, x :| Has(items[i], k, x) && q(MemberFacts(k, x));
        assert Has(v, k, x);
      }
    }
    if SomeMember(v, q) {
      var k, x :| Has(v, k, x) && q(MemberFacts(k, x));
      if !(k in v.m && v.m[k] == x) {
        var items := v.m["$and"].items;
        var i :| 0 <= i < |items| && Has(items[i], k, x);
        assert SomeMember(items[i], q);
      }
    }
  }

  lemma OwnHas(m: map<string, Value>, q: Fact)
    requires OfParts(q)
    ensures q(Gather(TopParts(m))) || ("$and" in m && !m["$and"].List? && q(NONE.(unsupported := {"$and"})))
        <==> OwnMember(m, q)
  {
    TopPartsApart(m);
    GatherHas(TopParts(m), q);
    assert forall k :: k in m ==> TopParts(m)[k] == KeyFacts(k, m[k]);
    assert KeyFacts("$and", Bool(true)) == NONE;
  }

  lemma {:induction false} ListHas(items: seq<Value>, q: Fact)
    requires OfParts(q)
    ensures q(ListFacts(items)) <==> ListMember(items, q)
    decreases items
  {
    if items != [] {
      var n := |items| - 1;
      ListHas(items[..n], q);
      FilterHas(items[n], q);
      assert Joins(q, ListFacts(items[..n]), FilterFacts(items[n]));
      LastItem(items, q);
    }
  }

  lemma LastItem(items: seq<Value>, q: Fact)
    requires items != []
    ensures var n := |items| - 1; ListMember(items, q) <==> ListMember(items[..n], q) || SomeMember(items[n], q)
  {
    var n := |items| - 1;
    if ListMember(items[..n], q) {
      var i :| 0 <= i < n && SomeMember(items[..n][i], q);
      assert SomeMember(items[i], q);
    }
    if ListMember(items, q) {
      var i :| 0 <= i < |items| && SomeMember(items[i], q);
      assert i < n ==> items[..n][i] == items[i];
    }
  }

  /** A fact holds of a filter exactly when it holds of one of its members. */
  lemma {:induction false} FilterHas(v: Value, q: Fact)
    requires OfParts(q)
    ensures q(FilterFacts(v)) <==> SomeMember(v, q)
    decreases v
  {
    if v.Document? {
      MembersSplit(v, q);
      OwnHas(v.m, q);
      assert Joins(q, NestedFacts(v), Gather(TopParts(v.m)));
      if "$and" in v.m && v.m["$and"].List? {
        ListHas(v.m["$and"].items, q);
      }
    }
  }

  // ------------------------------------------------------------------- one member

  /** A literal that is compared: a string, a boolean or a whole number. */
  predicate Literal(x: Value) { x.Str? || x.Bool? || x.Int? || (x.Double? && x.r.Floor as real == x.r) }

  predicate Operators(x: Value) { x.Document? && x.m != map[] && forall k :: k in x.m ==> k != "" && k[0] == '$' }

  predicate EqualityClause(x: Value) { Literal(x) || (Operators(x) && "$eq" in x.m && Literal(x.m["$eq"])) }

  predicate InClause(x: Value) { Operators(x) && "$in" in x.m }

  predicate RangeClause(x: Value)
  {
    Operators(x) && ("$gt" in x.m || "$gte" in x.m || "$lt" in x.m || "$lte" in x.m)
  }

  predicate SupportedClause(x: Value)
  {
    Literal(x)
    || (Operators(x) && forall op :: op in x.m ==>
          op in {"$comment", "$in", "$gt", "$gte", "$lt", "$lte"} || (op == "$eq" && Literal(x.m[op])))
  }

  lemma LiteralExact(x: Value)
    ensures Literal(x) <==> CanonicalPredicateValue(x).Some?
  {
  }

  lemma FieldHas(f: string, x: Value, q: Fact)
    requires OfParts(q) && x.Document? && OperatorDoc(x.m)
    ensures q(FieldFacts(f, x)) <==> exists op :: op in x.m && q(OpFacts(f, op, x.m[op]))
  {
    OpPartsApart(f, x.m);
    GatherHas(OpParts(f, x.m), q);
    assert forall op :: op in x.m ==> OpParts(f, x.m)[op] == OpFacts(f, op, x.m[op]);
  }

  ghost function RangeOn(f: string): Fact { (a: Facts) => f in a.rangeSet }

  ghost function EqualityOn(f: string): Fact { (a: Facts) => f in a.eqSet }

  ghost function ValueOn(f: string): Fact { (a: Facts) => f in a.values }

  ghost function SomeIn(): Fact { (a: Facts) => a.inPredicate }

  ghost function Refused(): Fact { (a: Facts) => a.unsupported != {} }

  lemma FactsOfParts(f: string)
    ensures OfParts(RangeOn(f)) && OfParts(EqualityOn(f)) && OfParts(ValueOn(f)) && OfParts(SomeIn())
        && OfParts(Refused())
  {
    forall a, b
      ensures Joins(Refused(), a, b)
    {
      assert a.unsupported + b.unsupported == {} <==> a.unsupported == {} && b.unsupported == {};
    }
  }

  lemma OpExact(f: string, g: string, op: string, y: Value)
    ensures var a := OpFacts(g, op, y);
            && (f in a.rangeSet <==> f == g && op in {"$gt", "$gte", "$lt", "$lte"})
            && (f in a.eqSet <==> f == g && (op == "$in" || (op == "$eq" && Literal(y))))
            && (f in a.values <==> f == g && op == "$eq" && Literal(y)) && (a.inPredicate <==> op == "$in")
            && (a.unsupported == {} <==>
                  op in {"$comment", "$in", "$gt", "$gte", "$lt", "$lte"} || (op == "$eq" && Literal(y)))
  {
    LiteralExact(y);
  }

  lemma FieldRange(f: string, g: string, x: Value)
    ensures RangeOn(f)(FieldFacts(g, x)) <==> f == g && RangeClause(x)
  {
    if Operators(x) {
      FactsOfParts(f);
      FieldHas(g, x, RangeOn(f));
      forall op | op in x.m
        ensures f in OpFacts(g, op, x.m[op]).rangeSet <==> f == g && op in {"$gt", "$gte", "$lt", "$lte"}
      {
        OpExact(f, g, op, x.m[op]);
      }
    }
  }

  lemma FieldEquality(f: string, g: string, x: Value)
    ensures EqualityOn(f)(FieldFacts(g, x)) <==> f == g && (EqualityClause(x) || InClause(x))
  {
    LiteralExact(x);
    if Operators(x) {
      FactsOfParts(f);
      FieldHas(g, x, EqualityOn(f));
      forall op | op in x.m
        ensures f in OpFacts(g, op, x.m[op]).eqSet <==> f == g && (op == "$in" || (op == "$eq" && Literal(x.m[op])))
      {
        OpExact(f, g, op, x.m[op]);
      }
    }
  }

  lemma FieldValue(f: string, g: string, x: Value)
    ensures ValueOn(f)(FieldFacts(g, x)) <==> f == g && EqualityClause(x)
  {
    LiteralExact(x);
    if Operators(x) {
      FactsOfParts(f);
      FieldHas(g, x, ValueOn(f));
      forall op | op in x.m
        ensures f in OpFacts(g, op, x.m[op]).values <==> f == g && op == "$eq" && Literal(x.m[op])
      {
        OpExact(f, g, op, x.m[op]);
      }
    }
  }

  lemma FieldIn(g: string, x: Value)
    ensures SomeIn()(FieldFacts(g, x)) <==> InClause(x)
  {
    if Operators(x) {
      FactsOfParts(g);
      FieldHas(g, x, SomeIn());
      forall op | op in x.m
        ensures OpFacts(g, op, x.m[op]).inPredicate <==> op == "$in"
      {
        OpExact(g, g, op, x.m[op]);
      }
    }
  }

  lemma FieldRefused(g: string, x: Value)
    ensures Refused()(FieldFacts(g, x)) <==> !SupportedClause(x)
  {
    LiteralExact(x);
    if Operators(x) {
      FactsOfParts(g);
      FieldHas(g, x, Refused());
      forall op | op in x.m
        ensures OpFacts(g, op, x.m[op]).unsupported == {} <==>
                  op in {"$comment", "$in", "$gt", "$gte", "$lt", "$lte"} || (op == "$eq" && Literal(x.m[op]))
      {
        OpExact(g, g, op, x.m[op]);
      }
    }
  }

  // ------------------------------------------------------------------ whole filters

  /** A fact that only members on some fields can state, as far as their clause does. */
  lemma FilterExact(v: Value, q: Fact, says: (string, Value) -> bool)
    requires OfParts(q) && forall k, x :: q(MemberFacts(k, x)) <==> says(k, x)
    ensures q(FilterFacts(v)) <==> exists k, x :: Has(v, k, x) && says(k, x)
  {
    FilterHas(v, q);
    if SomeMember(v, q) {
      var k, x :| Has(v, k, x) && q(MemberFacts(k, x));
      assert says(k, x);
    }
    if k, x :| Has(v, k, x) && says(k, x) {
      assert q(MemberFacts(k, x));
    }
  }

  /** A field is a range field exactly when some clause on it has a range operator. */
  lemma RangeExact(v: Value, f: string)
    ensures f in FilterFacts(v).rangeSet <==> !IsOperator(f) && exists x :: Has(v, f, x) && RangeClause(x)
  {
    var says := (k: string, x: Value) => f == k && !IsOperator(f) && RangeClause(x);
    FactsOfParts(f);
    forall k, x
      ensures RangeOn(f)(MemberFacts(k, x)) <==> says(k, x)
    {
      FieldRange(f, k, x);
    }
    FilterExact(v, RangeOn(f), says);
  }

  /** An equality field: some clause on it compares with a literal or lists values. */
  lemma EqualityExact(v: Value, f: string)
    ensures f in FilterFacts(v).eqSet <==>
              !IsOperator(f) && exists x :: Has(v, f, x) && (EqualityClause(x) || InClause(x))
  {
    var says := (k: string, x: Value) => f == k && !IsOperator(f) && (EqualityClause(x) || InClause(x));
    FactsOfParts(f);
    forall k, x
      ensures EqualityOn(f)(MemberFacts(k, x)) <==> says(k, x)
    {
      FieldEquality(f, k, x);
    }
    FilterExact(v, EqualityOn(f), says);
  }

  /** A field has a value exactly when some clause on it compares with a literal. */
  lemma ValueExact(v: Value, f: string)
    ensures f in FilterFacts(v).values <==> !IsOperator(f) && exists x :: Has(v, f, x) && EqualityClause(x)
  {
    var says := (k: string, x: Value) => f == k && !IsOperator(f) && EqualityClause(x);
    FactsOfParts(f);
    forall k, x
      ensures ValueOn(f)(MemberFacts(k, x)) <==> says(k, x)
    {
      FieldValue(f, k, x);
    }
    FilterExact(v, ValueOn(f), says);
  }

  lemma InExact(v: Value)
    ensures FilterFacts(v).inPredicate <==> exists f, x :: Has(v, f, x) && !IsOperator(f) && InClause(x)
  {
    var says := (k: string, x: Value) => !IsOperator(k) && InClause(x);
    FactsOfParts("");
    forall k, x
      ensures SomeIn()(MemberFacts(k, x)) <==> says(k, x)
    {
      FieldIn(k, x);
    }
    FilterExact(v, SomeIn(), says);
  }

  /** A comment, a list under $and, or a field with a supported clause. */
  predicate SupportedMember(k: string, x: Value)
  {
    k == "$comment" || (k == "$and" && x.List?) || (!IsOperator(k) && SupportedClause(x))
  }

  /** A filter is supported exactly when each of its members is. */
  lemma SupportedExact(v: Value)
    ensures FilterFacts(v).unsupported == {} <==> forall k, x :: Has(v, k, x) ==> SupportedMember(k, x)
  {
    var says := (k: string, x: Value) => !SupportedMember(k, x);
    FactsOfParts("");
    forall k, x
      ensures Refused()(MemberFacts(k, x)) <==> says(k, x)
    {
      FieldRefused(k, x);
    }
    FilterExact(v, Refused(), says);
  }
}
