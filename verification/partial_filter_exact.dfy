/**
 When partialProven (internal/stats/index_advice.go) is right for all queries and documents:
 for a filter that fails the computable test, a query and a document that go wrong.
 */
module PartialFilterExact {
  import opened Wrappers
  import opened Text
  import opened Predicates
  import opened DocumentTrees
  import opened PartialFilter

  // ------------------------------------------------ queries made of plain equalities

  ghost predicate Plain(vals: map<string, Value>) {
    forall f :: f in vals ==> !IsOperator(f) && CanonicalPredicateValue(vals[f]).Some?
  }

  lemma PlainPart(vals: map<string, Value>, k: string)
    requires Plain(vals) && k in vals
    ensures !vals[k].Document?
    ensures TopParts(vals)[k] == Facts({k}, {}, map[k := CanonicalPredicateValue(vals[k]).value], {}, false)
  {
  }

  lemma PlainParts(vals: map<string, Value>)
    requires Plain(vals)
    ensures Gather(TopParts(vals)).unsupported == {}
    ensures Gather(TopParts(vals)).values.Keys == vals.Keys
    ensures forall f :: f in vals ==> Gather(TopParts(vals)).values[f] == CanonicalPredicateValue(vals[f]).value
  {
    PlainSupported(vals);
    PlainKeys(vals);
    forall f | f in vals
      ensures Gather(TopParts(vals)).values[f] == CanonicalPredicateValue(vals[f]).value
    {
      PlainGathered(vals, f);
    }
  }

  lemma PlainKeys(vals: map<string, Value>)
    requires Plain(vals)
    ensures Gather(TopParts(vals)).values.Keys == vals.Keys
  {
    PlainValued(vals);
  }

  lemma PlainGathered(vals: map<string, Value>, f: string)
    requires Plain(vals) && f in vals
    ensures f in Gather(TopParts(vals)).values
    ensures Gather(TopParts(vals)).values[f] == CanonicalPredicateValue(vals[f]).value
  {
    PlainValue(vals, f);
  }

  lemma PlainSupported(vals: map<string, Value>)
    requires Plain(vals)
    ensures Gather(TopParts(vals)).unsupported == {}
  {
    var parts := TopParts(vals);
    forall k | k in parts
      ensures parts[k].unsupported == {}
    {
      PlainPart(vals, k);
    }
  }

  lemma PlainValued(vals: map<string, Value>)
    requires Plain(vals)
    ensures AllValued(TopParts(vals)) == vals.Keys
  {
    var parts := TopParts(vals);
    forall k | k in vals
      ensures k in parts && parts[k].values.Keys == {k}
    {
      PlainPart(vals, k);
      assert k in parts[k].values.Keys;
    }
    forall k
      ensures k in AllValued(parts) <==> k in vals
    {
      if k in vals {
        assert k in parts[k].values.Keys;
        assert k in parts && k in parts[k].values;
      }
      if k in AllValued(parts) {
        var j :| j in parts && k in parts[j].values;
        assert k in parts[j].values.Keys;
      }
    }
  }

  lemma PlainValue(vals: map<string, Value>, k: string)
    requires Plain(vals) && k in vals
    ensures k in ValuesOf(TopParts(vals))
    ensures ValuesOf(TopParts(vals))[k] == CanonicalPredicateValue(vals[k]).value
  {
    TopPartsApart(vals);
    PlainPart(vals, k);
    ValueOfPart(TopParts(vals), k, k);
  }

  /** A query with one equality per field of vals. */
  lemma EqualityQuery(vals: map<string, Value>)
    requires Plain(vals)
    ensures FilterFacts(Document(vals)) == Gather(TopParts(vals))
  {
    assert "$and" !in vals;
    MergeAssociative(Gather(TopParts(vals)), NONE, NONE);
    assert NestedFacts(Document(vals)) == NONE;
  }

  /** vals gives every kept constraint's field a value with its token. */
  ghost predicate Fits(vals: map<string, Value>, p: seq<Clause>)
  {
    && (forall pp :: pp in Decode(p) ==> pp.field in vals && CanonicalPredicateValue(vals[pp.field]) == pp.value)
    && Plain(vals)
  }

  lemma FittingMatches(vals: map<string, Value>, d: Doc)
    requires Plain(vals) && forall f :: f in vals ==> Same(At(d, f), vals[f])
    ensures Matches(d, Document(vals))
  {
    forall k | k in vals
      ensures FieldAllows(At(d, k), vals[k])
    {
      PlainPart(vals, k);
    }
    assert "$and" !in vals;
  }

  lemma ProvenByValues(preds: set<Pred>, vals: map<string, Value>, tokens: map<string, Token>)
    requires preds != {} && forall pp :: pp in preds ==> EqualityOp(pp) && pp.value.Some?
    requires forall pp :: pp in preds ==> pp.field in vals && CanonicalPredicateValue(vals[pp.field]) == pp.value
    requires tokens.Keys == vals.Keys
    requires forall f :: f in vals && CanonicalPredicateValue(vals[f]).Some? ==>
        tokens[f] == CanonicalPredicateValue(vals[f]).value
    ensures PartialProven(true, preds, tokens)
  {
  }

  lemma QueryTokens(vals: map<string, Value>) returns (tokens: map<string, Token>)
    requires Plain(vals)
    ensures FilterFacts(Document(vals)).values == tokens && FilterFacts(Document(vals)).unsupported == {}
    ensures tokens.Keys == vals.Keys && forall f :: f in vals ==> tokens[f] == CanonicalPredicateValue(vals[f]).value
  {
    EqualityQuery(vals);
    PlainParts(vals);
    tokens := Gather(TopParts(vals)).values;
  }

  lemma FittingProven(p: seq<Clause>, vals: map<string, Value>)
    requires Provable(p) && Fits(vals, p)
    ensures PartialProven(true, Decode(p), FilterFacts(Document(vals)).values)
        && FilterFacts(Document(vals)).unsupported == {}
  {
    var tokens := QueryTokens(vals);
    ProvenByValues(Decode(p), vals, tokens);
  }

  /** A document with such values is taken to be included. */
  lemma FittingDocument(p: seq<Clause>, vals: map<string, Value>, d: Doc)
    requires Provable(p) && Fits(vals, p) && forall f :: f in vals ==> Same(At(d, f), vals[f])
    ensures Covered(d, Document(vals), p)
  {
    FittingMatches(vals, d);
    FittingProven(p, vals);
  }

  lemma KeptValueIsPlain(p: seq<Clause>, f: string)
    requires Provable(p) && WellFormed(p) && f in KeptValues(p)
    ensures !IsOperator(f) && exists t :: KeptValues(p)[f] == ValueWith(t)
  {
    var pp := KeptFrom(p, f);
  }

  lemma KeptValuesFit(p: seq<Clause>)
    requires Provable(p) && WellFormed(p)
    ensures Fits(KeptValues(p), p)
  {
    var vals := KeptValues(p);
    forall pp | pp in Decode(p)
      ensures pp.field in vals && CanonicalPredicateValue(vals[pp.field]) == pp.value
    {
      TokenIsKept(p, pp);
      ValueHasToken(pp.value.value);
    }
    forall f | f in vals
      ensures !IsOperator(f) && CanonicalPredicateValue(vals[f]).Some?
    {
      KeptValueIsPlain(p, f);
    }
  }

  /** A document that is taken to be included although an element does not hold of it. */
  lemma Excluded(p: seq<Clause>, other: Operators, q: Value, root: Value, i: nat)
    requires i < |p| && root.Document? && ArrayFree(root)
    requires Covered(View(root), q, p) && !Satisfies(View(root), p[i], other)
    ensures !Sound(p, other)
  {
    assert !Included(View(root), p, other);
  }

  // ------------------------------------------------------- documents that go wrong

  /** An equality at the bottom of an element: its field and its literal. */
  datatype Leaf = Leaf(field: string, value: Value)

  ghost function Leaves(c: Clause): set<Leaf>
  {
    match c
    case And(items) => set i, l | 0 <= i < |items| && l in Leaves(items[i]) :: l
    case Or(items) => set i, l | 0 <= i < |items| && l in Leaves(items[i]) :: l
    case Field(f, v) =>
      if v.Document? && OperatorDoc(v.m) then (if "$eq" in v.m then {Leaf(f, v.m["$eq"])} else {}) else {Leaf(f, v)}
  }

  /** The fields that nothing kept says anything about. */
  ghost function Free(vals: map<string, Value>, leaves: set<Leaf>): set<string>
  {
    set l | l in leaves && l.field !in vals && !BelowKept(vals, l.field) :: l.field
  }

  /** Names and strings that the leaves and the values mention. */
  ghost function Mentioned(vals: map<string, Value>, leaves: set<Leaf>): set<string>
  {
    (set f, n | f in vals && n in Split(f) :: n) + (set l, n | l in leaves && n in Split(l.field) :: n)
    + (set l | l in leaves && l.value.Str? :: l.value.s)
      + (set l, k | l in leaves && l.value.Document? && k in l.value.m :: k)
  }

  /** The kept values, and a strange one at every free field. */
  ghost function Chosen(vals: map<string, Value>, leaves: set<Leaf>, strange: string): map<string, Value>
  {
    (map f | f in Free(vals, leaves) :: Str(strange)) + vals
  }

  /** A document has the kept values, and none of the equalities that these do not force. */
  ghost predicate Adverse(d: Doc, vals: map<string, Value>, leaves: set<Leaf>)
  {
    && (forall f :: f in vals ==> d(f) == Some(vals[f]))
    && (forall l :: l in leaves && !LeafForced(vals, l.field, l.value) ==> !Same(At(d, l.field), l.value))
  }

  ghost predicate Scalars(vals: map<string, Value>) { forall f :: f in vals ==> Scalar(vals[f]) }

  lemma ChosenPaths(vals: map<string, Value>, leaves: set<Leaf>, strange: string)
    requires Scalars(vals) && strange !in Mentioned(vals, leaves)
    ensures var w := PathsOf(Chosen(vals, leaves, strange));
            Unused(w, strange) && forall p :: p in w ==> Scalar(w[p])
  {
    var chosen := Chosen(vals, leaves, strange);
    var w := PathsOf(chosen);
    forall p | p in w
      ensures strange !in p && Scalar(w[p])
    {
      var f :| f in chosen && Split(f) == p;
      if f !in vals {
        var l :| l in leaves && l.field == f;
      }
    }
  }

  lemma KeptEnds(vals: map<string, Value>, leaves: set<Leaf>, strange: string, f: string)
    requires !Overlap(vals) && f in vals
    ensures Ends(PathsOf(Chosen(vals, leaves, strange)), Split(f))
  {
    var chosen := Chosen(vals, leaves, strange);
    forall q | q in PathsOf(chosen)
      ensures !Above(Split(f), q)
    {
      var g :| g in chosen && Split(g) == q;
      if g !in vals {
        var l :| l in leaves && l.field == g && !BelowKept(vals, l.field);
      }
    }
  }

  lemma StrangeString(vals: map<string, Value>, leaves: set<Leaf>, strange: string, l: Leaf)
    requires l in leaves && strange !in Mentioned(vals, leaves)
    ensures !Same(Str(strange), l.value)
  {
    assert l.value.Str? ==> l.value.s in Mentioned(vals, leaves);
  }

  lemma StrangeDocument(vals: map<string, Value>, leaves: set<Leaf>, strange: string, l: Leaf, x: Option<Value>)
    requires l in leaves && strange !in Mentioned(vals, leaves) && InnerDocument(x, strange)
    ensures !Same(x.value, l.value)
  {
    assert l.value.Document? && strange in l.value.m ==> strange in Mentioned(vals, leaves);
  }

  lemma FreeIsChosen(vals: map<string, Value>, leaves: set<Leaf>, strange: string, f: string)
    requires f in Free(vals, leaves)
    ensures var w := PathsOf(Chosen(vals, leaves, strange)); Split(f) in w && w[Split(f)] == Str(strange)
  {
    var chosen := Chosen(vals, leaves, strange);
    assert f in chosen && chosen[f] == Str(strange);
  }

  /** At a free field the document has the strange string, or a document with the strange field. */
  lemma FreeIsStrange(vals: map<string, Value>, leaves: set<Leaf>, strange: string, root: Value, l: Leaf)
    requires l in leaves && l.field in Free(vals, leaves)
    requires strange !in Mentioned(vals, leaves) && Fulfils(root, PathsOf(Chosen(vals, leaves, strange)), strange)
    ensures !Same(At(View(root), l.field), l.value)
  {
    var w, p := PathsOf(Chosen(vals, leaves, strange)), Split(l.field);
    FreeIsChosen(vals, leaves, strange, l.field);
    if Ends(w, p) {
      StrangeString(vals, leaves, strange, l);
    } else {
      var q :| q in w && Above(p, q);
      StrangeDocument(vals, leaves, strange, l, Lookup(root, p));
    }
  }

  lemma BelowIsMissing(root: Value, vals: map<string, Value>, f: string)
    requires BelowKept(vals, f) && forall g :: g in vals ==> View(root)(g).Some? && !View(root)(g).value.Document?
    ensures At(View(root), f) == NULL
  {
    var g :| g in vals && Above(Split(g), Split(f));
    assert View(root)(g).Some?;
    NothingBelow(root, Split(g), Split(f));
  }

  lemma KeptIsThere(vals: map<string, Value>, leaves: set<Leaf>, strange: string, root: Value, f: string)
    requires !Overlap(vals) && f in vals && Fulfils(root, PathsOf(Chosen(vals, leaves, strange)), strange)
    ensures View(root)(f) == Some(vals[f])
  {
    KeptEnds(vals, leaves, strange, f);
    var chosen := Chosen(vals, leaves, strange);
    assert f in chosen && chosen[f] == vals[f];
  }

  lemma KeptUnforcedFails(vals: map<string, Value>, d: Doc, l: Leaf)
    requires l.field in vals && d(l.field) == Some(vals[l.field]) && !LeafForced(vals, l.field, l.value)
    ensures !Same(At(d, l.field), l.value)
  {
  }

  lemma BelowUnforcedFails(vals: map<string, Value>, root: Value, l: Leaf)
    requires Scalars(vals) && forall f :: f in vals ==> View(root)(f) == Some(vals[f])
    requires l.field !in vals && BelowKept(vals, l.field) && !LeafForced(vals, l.field, l.value)
    ensures !Same(At(View(root), l.field), l.value)
  {
    BelowIsMissing(root, vals, l.field);
  }

  lemma UnforcedFails(vals: map<string, Value>, leaves: set<Leaf>, strange: string, root: Value, l: Leaf)
    requires strange !in Mentioned(vals, leaves) && Fulfils(root, PathsOf(Chosen(vals, leaves, strange)), strange)
    requires Scalars(vals) && forall f :: f in vals ==> View(root)(f) == Some(vals[f])
    requires l in leaves && !LeafForced(vals, l.field, l.value)
    ensures !Same(At(View(root), l.field), l.value)
  {
    if l.field in vals {
      KeptUnforcedFails(vals, View(root), l);
    } else if BelowKept(vals, l.field) {
      BelowUnforcedFails(vals, root, l);
    } else {
      FreeIsStrange(vals, leaves, strange, root, l);
    }
  }

  lemma StrangeIsAdverse(vals: map<string, Value>, leaves: set<Leaf>, strange: string, root: Value)
    requires Scalars(vals) && !Overlap(vals) && strange !in Mentioned(vals, leaves)
    requires Fulfils(root, PathsOf(Chosen(vals, leaves, strange)), strange)
    ensures Adverse(View(root), vals, leaves)
  {
    forall f | f in vals
      ensures View(root)(f) == Some(vals[f])
    {
      KeptIsThere(vals, leaves, strange, root, f);
    }
    forall l | l in leaves && !LeafForced(vals, l.field, l.value)
      ensures !Same(At(View(root), l.field), l.value)
    {
      UnforcedFails(vals, leaves, strange, root, l);
    }
  }

  /** There is such a document, whatever the plain values, as long as none of their fields leads to another one. */
  lemma AdverseDocument(vals: map<string, Value>, leaves: set<Leaf>) returns (root: Value)
    requires Scalars(vals) && !Overlap(vals) && vals != map[]
    ensures root.Document? && ArrayFree(root) && Adverse(View(root), vals, leaves)
  {
    var strange := FreshString(Mentioned(vals, leaves));
    var w := PathsOf(Chosen(vals, leaves, strange));
    ChosenPaths(vals, leaves, strange);
    var n := Bounded(w.Keys);
    root := DocumentFor(w, strange, n);
    StrangeIsAdverse(vals, leaves, strange, root);
    var f :| f in vals;
    assert f in Chosen(vals, leaves, strange);
    HeadOf(w, Split(f));
  }

  // ------------------------------------------------------------------- exactness

  /** Only equalities at the bottom of an element. */
  predicate EqualityLeaves(c: Clause)
  {
    match c
    case And(items) => forall i :: 0 <= i < |items| ==> EqualityLeaves(items[i])
    case Or(items) => forall i :: 0 <= i < |items| ==> EqualityLeaves(items[i])
    case Field(_, v) => v.Document? && OperatorDoc(v.m) ==> v.m.Keys == {"$eq"}
  }

  /** The other operators never hold. */
  ghost predicate Never(other: Operators) { forall x, op, y :: !other(x, op, y) }

  lemma {:induction false} NotForcedFails(d: Doc, vals: map<string, Value>, c: Clause, other: Operators)
    requires Adverse(d, vals, Leaves(c)) && (EqualityLeaves(c) || Never(other)) && !Forced(vals, c)
    ensures !Satisfies(d, c, other)
    decreases c
  {
    match c
    case And(items) =>
      var i :| 0 <= i < |items| && !Forced(vals, items[i]);
      NotForcedFails(d, vals, items[i], other);
    case Or(items) =>
      forall i | 0 <= i < |items|
        ensures !Satisfies(d, items[i], other)
      {
        NotForcedFails(d, vals, items[i], other);
      }
    case Field(f, v) =>
      if v.Document? && OperatorDoc(v.m) {
        var op :| op in v.m && !(op == "$eq" && LeafForced(vals, f, v.m[op]));
        if op == "$eq" {
          assert Leaf(f, v.m[op]) in Leaves(c);
        }
      } else {
        assert Leaf(f, v) in Leaves(c);
      }
  }

  lemma KeptScalars(p: seq<Clause>)
    requires Provable(p)
    ensures Scalars(KeptValues(p)) && KeptValues(p) != map[]
  {
    var vals := KeptValues(p);
    forall f | f in vals
      ensures Scalar(vals[f])
    {
      var pp := KeptFrom(p, f);
    }
    var pp :| pp in Decode(p);
    TokenIsKept(p, pp);
  }

  lemma NotForcedIsUnsound(p: seq<Clause>, other: Operators, i: nat)
    requires Provable(p) && WellFormed(p) && !Overlap(KeptValues(p))
    requires i < |p| && !Forced(KeptValues(p), p[i]) && (EqualityLeaves(p[i]) || Never(other))
    ensures !Sound(p, other)
  {
    var vals := KeptValues(p);
    KeptScalars(p);
    var root := AdverseDocument(vals, Leaves(p[i]));
    KeptValuesFit(p);
    FittingDocument(p, vals, View(root));
    NotForcedFails(View(root), vals, p[i], other);
    Excluded(p, other, Document(vals), root, i);
  }

  /** A float above all 64-bit integers, which has the token of the lowest one. */
  const HUGE: Value := Double(9223372036854775808.0)

  lemma FitsInstead(vals: map<string, Value>, p: seq<Clause>, f: string, x: Value)
    requires Fits(vals, p) && f in vals && CanonicalPredicateValue(x) == CanonicalPredicateValue(vals[f])
    ensures Fits(vals[f := x], p)
  {
  }

  lemma HugeFits(p: seq<Clause>, pp: Pred)
    requires Provable(p) && WellFormed(p) && pp in Decode(p) && pp.value == Some(IntToken(MIN_INT64))
    ensures Fits(KeptValues(p)[pp.field := HUGE], p)
  {
    KeptValuesFit(p);
    TokenIsKept(p, pp);
    FitsInstead(KeptValues(p), p, pp.field, HUGE);
  }

  lemma HugeDiffers(v: Value)
    requires Same(Int(MIN_INT64), v)
    ensures !Same(HUGE, v)
  {
  }

  /** An equality that the lowest integer forces does not hold of the huge number. */
  lemma HugeFailsField(kept: map<string, Value>, other: Operators, c: Clause, op: string, d: Doc)
    requires c.Field? && c.field in kept && kept[c.field] == Int(MIN_INT64) && d(c.field) == Some(HUGE)
    requires Forced(kept, c) && (c.value.Document? && OperatorDoc(c.value.m) ==> op in c.value.m)
    ensures !Satisfies(d, c, other)
  {
    if c.value.Document? && OperatorDoc(c.value.m) {
      assert op == "$eq" && LeafForced(kept, c.field, c.value.m[op]);
      HugeDiffers(c.value.m[op]);
    } else {
      assert LeafForced(kept, c.field, c.value);
      HugeDiffers(c.value);
    }
  }

  lemma KeptClause(c: Clause, pp: Pred)
    requires pp in Decoded(c)
    ensures c.Field? && c.field == pp.field && (c.value.Document? && OperatorDoc(c.value.m) ==> pp.op in c.value.m)
  {
  }

  lemma HugeFails(p: seq<Clause>, other: Operators, i: nat, pp: Pred, d: Doc)
    requires Provable(p) && i < |p| && pp in Decoded(p[i]) && pp.value == Some(IntToken(MIN_INT64))
    requires Forced(KeptValues(p), p[i]) && d(pp.field) == Some(HUGE)
    ensures !Satisfies(d, p[i], other)
  {
    assert pp in Decode(p);
    TokenIsKept(p, pp);
    KeptClause(p[i], pp);
    HugeFailsField(KeptValues(p), other, p[i], pp.op, d);
  }

  lemma SharedIsUnsound(p: seq<Clause>, other: Operators, pp: Pred)
    requires Provable(p) && WellFormed(p) && !Overlap(KeptValues(p)) && AllForced(p)
    requires pp in Decode(p) && pp.value == Some(IntToken(MIN_INT64))
    ensures !Sound(p, other)
  {
    var i :| 0 <= i < |p| && pp in Decoded(p[i]);
    TokenIsKept(p, pp);
    var vals := KeptValues(p)[pp.field := HUGE];
    HugeFits(p, pp);
    var root := HugeDocument(p, pp);
    FittingDocument(p, vals, View(root));
    HugeFails(p, other, i, pp, View(root));
    Excluded(p, other, Document(vals), root, i);
  }

  /** A document with the kept values, apart from the huge number at one field. */
  lemma HugeDocument(p: seq<Clause>, pp: Pred) returns (root: Value)
    requires Provable(p) && !Overlap(KeptValues(p)) && pp in Decode(p)
    ensures root.Document? && ArrayFree(root)
    ensures var vals := KeptValues(p)[pp.field := HUGE];
            (forall f :: f in vals ==> Same(At(View(root), f), vals[f])) && View(root)(pp.field) == Some(HUGE)
  {
    KeptScalars(p);
    TokenIsKept(p, pp);
    var vals := KeptValues(p)[pp.field := HUGE];
    root := AdverseDocument(vals, {});
  }

  lemma UnreliableIsUnsound(p: seq<Clause>, other: Operators)
    requires WellFormed(p) && !Reliable(p)
    requires (forall i :: 0 <= i < |p| ==> EqualityLeaves(p[i])) || Never(other)
    ensures !Sound(p, other)
  {
    if AllForced(p) {
      var pp :| pp in Decode(p) && pp.value == Some(IntToken(MIN_INT64));
      SharedIsUnsound(p, other, pp);
    } else {
      var i :| 0 <= i < |p| && !Forced(KeptValues(p), p[i]);
      NotForcedIsUnsound(p, other, i);
    }
  }

  /**
   For a partial filter of equalities, nested in $and and $or as it may be, partialProven
   includes only documents of the filter exactly when nothing can be proven, or a kept field
   leads to another one, or no kept number is the lowest 64-bit integer and the kept values
   force every element.
   */
  lemma PartialProvenExact(p: seq<Clause>, other: Operators)
    requires WellFormed(p) && (Provable(p) ==> forall i :: 0 <= i < |p| ==> EqualityLeaves(p[i]))
    ensures Sound(p, other) <==> Reliable(p)
  {
    if Reliable(p) {
      ReliableIsSound(p, other);
    } else {
      UnreliableIsUnsound(p, other);
    }
  }

  lemma SoundForAll(p: seq<Clause>)
    requires Reliable(p)
    ensures forall other :: Sound(p, other)
  {
    forall other: Operators
      ensures Sound(p, other)
    {
      ReliableIsSound(p, other);
    }
  }

  lemma UnsoundForSome(p: seq<Clause>) returns (other: Operators)
    requires WellFormed(p) && !Reliable(p)
    ensures !Sound(p, other)
  {
    other := (x: Option<Value>, op: string, y: Value) => false;
    UnreliableIsUnsound(p, other);
  }

  /** With other operators it is right whatever they mean exactly under the same condition. */
  lemma AnyOperatorsExact(p: seq<Clause>)
    requires WellFormed(p)
    ensures (forall other :: Sound(p, other)) <==> Reliable(p)
  {
    if Reliable(p) {
      SoundForAll(p);
    } else {
      var other := UnsoundForSome(p);
    }
  }

  // --------------------------------------------------------------------- examples

  /** A filter of which only an equality on the field a with the number n is kept. */
  lemma KeptOfFirst(p: seq<Clause>, n: int)
    requires p != [] && p[0] == Field("a", Int(n)) && forall i :: 1 <= i < |p| ==> Decoded(p[i]) == {}
    ensures Provable(p) && KeptValues(p) == map["a" := Int(n)] && Split("a") == ["a"]
  {
    var pp := Pred("a", "eq", Some(IntToken(n)));
    assert Decoded(p[0]) == {pp};
    assert Decode(p) == {pp};
    TokenIsKept(p, pp);
  }

  lemma NothingForces(kept: map<string, Value>, f: string)
    requires kept.Keys == {"a"} && Split("a") == ["a"] && Split(f) == [f] && f != "a"
    ensures !LeafForced(kept, f, NULL)
  {
  }

  /** An input that goes wrong: {a: 1, b: null} keeps only a = 1, which does not force b. */
  lemma NullIsDropped(other: Operators)
    ensures !Sound([Field("a", Int(1)), Field("b", NULL)], other)
  {
    var p := [Field("a", Int(1)), Field("b", NULL)];
    KeptOfFirst(p, 1);
    assert Split("b") == ["b"];
    NothingForces(KeptValues(p), "b");
    assert !Forced(KeptValues(p), p[1]);
    PartialProvenExact(p, other);
  }

  lemma OneIsUnshared(p: seq<Clause>)
    requires p != [] && p[0] == Field("a", Int(1)) && forall i :: 1 <= i < |p| ==> Decoded(p[i]) == {}
    ensures NoneShared(p)
  {
    var pp := Pred("a", "eq", Some(IntToken(1)));
    assert Decoded(p[0]) == {pp};
    assert Decode(p) == {pp};
  }

  lemma BelowForces(kept: map<string, Value>, f: string)
    requires kept == map["a" := Int(1)] && Split("a") == ["a"] && Above(["a"], Split(f))
    ensures Forced(kept, Field("a", Int(1))) && Forced(kept, Field(f, NULL))
  {
    assert f != "a";
    assert BelowKept(kept, f);
  }

  /** A null below the one kept field is forced. */
  lemma BelowIsReliable(p: seq<Clause>, f: string)
    requires |p| == 2 && p[0] == Field("a", Int(1)) && p[1] == Field(f, NULL) && Above(["a"], Split(f))
    ensures Reliable(p)
  {
    var kept: map<string, Value> := map["a" := Int(1)];
    KeptOfFirst(p, 1);
    OneIsUnshared(p);
    BelowForces(kept, f);
    ForcedByKept(p, kept);
  }

  lemma ForcedByKept(p: seq<Clause>, kept: map<string, Value>)
    requires Provable(p) && KeptValues(p) == kept && |p| == 2 && Forced(kept, p[0]) && Forced(kept, p[1])
    ensures AllForced(p)
  {
  }

  /** One that does not: with a = 1 there is no a.b, so all of {a: 1, "a.b": null} is included. */
  lemma NullBelowIsForced(other: Operators)
    ensures Sound([Field("a", Int(1)), Field("a.b", NULL)], other)
  {
    assert Split("a.b") == ["a", "b"] by {
      CutJoined("a", "b");
      assert "a" + "." + "b" == "a.b";
      assert Split("b") == ["b"];
    }
    BelowIsReliable([Field("a", Int(1)), Field("a.b", NULL)], "a.b");
    ReliableIsSound([Field("a", Int(1)), Field("a.b", NULL)], other);
  }
}
