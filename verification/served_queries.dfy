/**
 What a suitable index means for a captured query: from the classified filter over the
 derived plan and the accepted index to the documents delivered and their order
 (adviseShape and the functions it calls in internal/stats/index_advice.go).
 */
module ServedQueries {
  import opened Predicates
  import opened IndexKeys
  import opened IndexAdvice
  import opened IndexSuitability
  import PF = PartialFilter

  // ------------------------------------------------------- what a filter pins down

  /** Without $in every equality field has a value. */
  ghost predicate Pinned(f: Facts) { !f.inPredicate ==> f.eqSet == f.values.Keys }

  lemma MergePinned(a: Facts, b: Facts)
    requires Pinned(a) && Pinned(b)
    ensures Pinned(Merge(a, b))
  {
  }

  lemma GatherPinned(parts: map<string, Facts>)
    requires forall k :: k in parts ==> Pinned(parts[k])
    ensures Pinned(Gather(parts))
  {
    var g := Gather(parts);
    if !g.inPredicate {
      forall f
        ensures f in g.eqSet <==> f in g.values
      {
        assert f in g.values <==> f in AllValued(parts);
      }
    }
  }

  lemma FieldPinned(field: string, val: Value)
    ensures Pinned(FieldFacts(field, val))
  {
    if val.Document? && OperatorDoc(val.m) {
      GatherPinned(OpParts(field, val.m));
    }
  }

  lemma TopPinned(m: map<string, Value>)
    ensures Pinned(Gather(TopParts(m)))
  {
    forall k | k in TopParts(m)
      ensures Pinned(TopParts(m)[k])
    {
      FieldPinned(k, m[k]);
    }
    GatherPinned(TopParts(m));
  }

  lemma {:induction false} FilterPinned(v: Value)
    ensures Pinned(FilterFacts(v))
    decreases v, 1
  {
    if v.Document? {
      if "$and" in v.m && v.m["$and"].List? {
        ListPinned(v.m["$and"].items);
      }
      TopPinned(v.m);
      MergePinned(NestedFacts(v), Gather(TopParts(v.m)));
    }
  }

  lemma {:induction false} ListPinned(items: seq<Value>)
    ensures Pinned(ListFacts(items))
    decreases items
  {
    if items != [] {
      var n := |items| - 1;
      ListPinned(items[..n]);
      FilterPinned(items[n]);
      MergePinned(ListFacts(items[..n]), FilterFacts(items[n]));
    }
  }

  // ------------------------------------------------------------ documents and places

  /** The place of a value in the server's value order; equal values have the same one. */
  ghost predicate Placing(place: Value -> int) { forall x, y :: PF.Same(x, y) ==> place(x) == place(y) }

  function PlaceOf(place: Value -> int, root: Value): IndexKeys.Doc { f => place(PF.At(PF.View(root), f)) }

  function PlacesOf(place: Value -> int, roots: seq<Value>): (docs: seq<IndexKeys.Doc>)
    ensures |docs| == |roots| && forall i :: 0 <= i < |roots| ==> docs[i] == PlaceOf(place, roots[i])
  {
    seq(|roots|, i requires 0 <= i < |roots| => PlaceOf(place, roots[i]))
  }

  /** The profile that classifying the filter q gives, up to the order of its lists. */
  ghost predicate Captured(p: Profile, q: Value)
  {
    var facts := FilterFacts(q);
    && Members(p.equalityFields) == facts.eqSet && Members(p.rangeFields) == facts.rangeSet
    && Members(p.unsupported) == facts.unsupported && p.inPredicate == facts.inPredicate
      && p.equalityValue == facts.values
  }

  /** Matching documents have the same places on all equality fields. */
  lemma MatchingAgree(place: Value -> int, p: Profile, q: Value, a: Value, b: Value)
    requires Placing(place) && Captured(p, q) && !p.inPredicate
    requires PF.Matches(PF.View(a), q) && PF.Matches(PF.View(b), q)
    ensures AgreeOn(PlaceOf(place, a), PlaceOf(place, b), p.equalityFields)
  {
    FilterPinned(q);
    forall f | f in p.equalityFields
      ensures PlaceOf(place, a)(f) == PlaceOf(place, b)(f)
    {
      assert f in Members(p.equalityFields);
      var w := PF.MatchedLiteral(q, f);
      assert PF.Same(PF.At(PF.View(a), f), w) && PF.Same(PF.At(PF.View(b), f), w);
    }
  }

  // ----------------------------------------------------------------- served queries

  ghost predicate AllMatch(roots: seq<Value>, q: Value) { forall r :: r in roots ==> PF.Matches(PF.View(r), q) }

  /** Walked in this direction, the index visits the query's documents in the order of the sort keys. */
  ghost predicate Delivers(sp: Special, place: Value -> int, keys: seq<KeySpec>, q: Value, sortKeys: seq<KeySpec>,
        forward: bool)
  {
    forall roots: seq<Value> :: AllMatch(roots, q) && Walk(sp, keys, PlacesOf(place, roots), forward) ==>
      IndexKeys.Ordered(sp, sortKeys, PlacesOf(place, roots))
  }

  lemma SortsDelivers(sp: Special, place: Value -> int, keys: seq<KeySpec>, p: Profile, q: Value, forward: bool)
    requires Placing(place) && Captured(p, q) && !p.inPredicate
    requires Sorts(sp, keys, p.equalityFields, p.sortKeys, forward)
    ensures Delivers(sp, place, keys, q, p.sortKeys, forward)
  {
    forall roots: seq<Value> | AllMatch(roots, q) && Walk(sp, keys, PlacesOf(place, roots), forward)
      ensures IndexKeys.Ordered(sp, p.sortKeys, PlacesOf(place, roots))
    {
      var docs := PlacesOf(place, roots);
      forall i, j | 0 <= i < |docs| && 0 <= j < |docs|
        ensures AgreeOn(docs[i], docs[j], p.equalityFields)
      {
        MatchingAgree(place, p, q, roots[i], roots[j]);
      }
      assert AllAgree(docs, p.equalityFields);
    }
  }

  /** An index can only be suitable for a filter that was classified completely. */
  lemma SuitableIsSupported(idx: DeployedIndex, p: Profile, q: Value)
    requires Captured(p, q) && DerivePlan(p, []).Ok? && EvaluateIndex(idx, DerivePlan(p, []).value, p).0
    ensures FilterFacts(q).unsupported == {}
    ensures PF.PartialProven(idx.isPartial, idx.partialPredicates, FilterFacts(q).values)
  {
    assert p.unsupported == [];
  }

  lemma PartialHasMatches(idx: DeployedIndex, p: Profile, q: Value, filter: seq<PF.Clause>, other: PF.Operators,
        root: Value)
    requires Captured(p, q) && DerivePlan(p, []).Ok? && EvaluateIndex(idx, DerivePlan(p, []).value, p).0
    requires idx.isPartial && idx.partialPredicates == PF.Decode(filter) && PF.Reliable(filter)
    requires PF.Matches(PF.View(root), q)
    ensures PF.Included(PF.View(root), filter, other)
  {
    SuitableIsSupported(idx, p, q);
    PF.ReliableIncludes(filter, q, root, other);
  }

  /**
   A captured query without $in is served by every index called suitable for it. A partial
   index whose filter passes the computable test holds every matching document, and in one of
   its two directions the index visits the matching documents in the captured sort order.
   */
  lemma CapturedQueryIsServed(
      sp: Special, place: Value -> int, idx: DeployedIndex, p: Profile, q: Value, filter: seq<PF.Clause>,
        other: PF.Operators)
    requires Placing(place) && Captured(p, q) && !p.inPredicate && ValidSort(p.sortKeys)
    requires DerivePlan(p, []).Ok? && EvaluateIndex(idx, DerivePlan(p, []).value, p).0
    requires idx.isPartial ==> idx.partialPredicates == PF.Decode(filter) && PF.Reliable(filter)
    ensures idx.isPartial ==> forall root :: PF.Matches(PF.View(root), q) ==> PF.Included(PF.View(root), filter, other)
    ensures Delivers(sp, place, idx.keys, q, p.sortKeys, true) || Delivers(sp, place, idx.keys, q, p.sortKeys, false)
  {
    if idx.isPartial {
      forall root | PF.Matches(PF.View(root), q)
        ensures PF.Included(PF.View(root), filter, other)
      {
        PartialHasMatches(idx, p, q, filter, other, root);
      }
    }
    SuitableIndexSorts(sp, idx, p, []);
    SortsDelivers(sp, place, idx.keys, p, q, Sorts(sp, idx.keys, p.equalityFields, p.sortKeys, true));
  }
}
