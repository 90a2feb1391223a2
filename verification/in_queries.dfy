/**
 Where a suitable index does not deliver the captured order: a query with $in
 (the case the note at internal/stats/index_advice.go:1279 is about).
 */
module InQueries {
  import opened Wrappers
  import opened Predicates
  import opened DocumentTrees
  import opened IndexKeys
  import opened IndexAdvice
  import opened IndexSuitability
  import opened ServedQueries
  import opened Text
  import PF = PartialFilter

  const IN_ONE_TWO: map<string, Value> := map["$in" := List([Int(1), Int(2)])]

  /** {a: {$in: [1, 2]}}, sorted by b. */
  const QUERY: Value := Document(map["a" := Document(IN_ONE_TWO)])

  const BY_B: KeySpec := KeySpec("b", 1, "asc", NoRole)

  const PROFILE: Profile := Profile(["a"], [], [BY_B], true, [], true, map[])

  /** The index on a and b, both ascending. */
  const INDEX: DeployedIndex :=
    DeployedIndex([KeySpec("a", 1, "asc", NoRole), BY_B], "", false, false, "", Some(false), {})

  lemma InFacts()
    ensures FieldFacts("a", Document(IN_ONE_TWO)) == Facts({"a"}, {}, map[], {}, true)
  {
    var parts := OpParts("a", IN_ONE_TWO);
    assert parts == map["$in" := Facts({"a"}, {}, map[], {}, true)];
    assert parts["$in"].inPredicate;
    assert Gather(parts).eqSet == {"a"} && Gather(parts).rangeSet == {} && Gather(parts).unsupported == {};
    assert AllValued(parts) == {};
  }

  lemma InCaptured()
    ensures Captured(PROFILE, QUERY)
  {
    InFacts();
    var parts := TopParts(QUERY.m);
    assert parts == map["a" := Facts({"a"}, {}, map[], {}, true)];
    assert parts["a"].inPredicate;
    assert Gather(parts).eqSet == {"a"} && Gather(parts).rangeSet == {} && Gather(parts).unsupported == {};
    assert AllValued(parts) == {};
  }

  function Row(a: int, b: int): Value { Document(map["a" := Int(a), "b" := Int(b)]) }

  lemma LookupField(v: Value, k: string)
    requires v.Document? && k in v.m
    ensures Lookup(v, [k]) == Some(v.m[k])
  {
    assert [k][1..] == [];
  }

  lemma RowFields(a: int, b: int)
    ensures PF.At(PF.View(Row(a, b)), "a") == Int(a) && PF.At(PF.View(Row(a, b)), "b") == Int(b)
  {
    assert Split("a") == ["a"] && Split("b") == ["b"];
    LookupField(Row(a, b), "a");
    LookupField(Row(a, b), "b");
  }

  lemma RowMatches(a: int, b: int)
    requires a == 1 || a == 2
    ensures PF.Matches(PF.View(Row(a, b)), QUERY)
  {
    RowFields(a, b);
    var items := [Int(1), Int(2)];
    assert PF.Same(Int(a), items[a - 1]);
    assert PF.OpAllows(Int(a), "$in", List(items));
    assert PF.FieldAllows(Int(a), Document(IN_ONE_TWO));
  }

  lemma InPlan()
    ensures DerivePlan(PROFILE, []).Ok?
    ensures var plan := DerivePlan(PROFILE, []).value;
            plan.determined && plan.keys == [EqualityKey("a"), BY_B.(role := SortRole)]
  {
    assert SortStrings(["a"]) == ["a"];
    assert EqualityKeys(["a"]) == [EqualityKey("a")];
    assert NewSortKeys([BY_B][1..], Members(["a"]) + {"b"}) == [];
    assert NewSortKeys([BY_B], Members(["a"])) == [BY_B.(role := SortRole)];
    assert RangeKeys("", Members(["a"]) + FieldSet([BY_B])) == [];
  }

  lemma InAccepted()
    ensures DerivePlan(PROFILE, []).Ok? && EvaluateIndex(INDEX, DerivePlan(PROFILE, []).value, PROFILE).0
  {
    InPlan();
    var candidate := DerivePlan(PROFILE, []).value.keys;
    assert candidate[1..][0].role != Equality;
    assert LeadingEquality(candidate) == 1 + LeadingEquality(candidate[1..]) == 1;
    assert FieldNames(INDEX.keys[..1]) == ["a"] == FieldNames(candidate[..1]);
    assert ServeForward(INDEX.keys, candidate);
    assert TrimSpace("") == "" && Lower("") == "";
  }

  /** Two rows as the index on a and b places them. */
  lemma RowOrder(sp: Special, place: Value -> int, x: int, y: int)
    requires place(Int(1)) < place(Int(2))
    ensures LexLe(sp, INDEX.keys, PlaceOf(place, Row(1, x)), PlaceOf(place, Row(2, y)))
    ensures LexLe(sp, [BY_B], PlaceOf(place, Row(1, x)), PlaceOf(place, Row(2, y))) <==> place(Int(x)) <= place(Int(y))
    ensures LexLe(sp, [BY_B], PlaceOf(place, Row(2, y)), PlaceOf(place, Row(1, x))) <==> place(Int(y)) <= place(Int(x))
  {
    RowFields(1, x);
    RowFields(2, y);
    assert [BY_B][1..] == [];
  }

  lemma Visits(sp: Special, place: Value -> int, a: Value, b: Value, forward: bool)
    requires PF.Matches(PF.View(a), QUERY) && PF.Matches(PF.View(b), QUERY)
    requires if forward then LexLe(sp, INDEX.keys, PlaceOf(place, a), PlaceOf(place, b))
             else LexLe(sp, INDEX.keys, PlaceOf(place, b), PlaceOf(place, a))
    requires !LexLe(sp, [BY_B], PlaceOf(place, a), PlaceOf(place, b))
    ensures !Delivers(sp, place, INDEX.keys, QUERY, [BY_B], forward)
  {
    var roots := [a, b];
    var docs := PlacesOf(place, roots);
    assert AllMatch(roots, QUERY) && Walk(sp, INDEX.keys, docs, forward);
    assert !LexLe(sp, [BY_B], docs[0], docs[1]);
  }

  lemma BreaksForward(sp: Special, place: Value -> int)
    requires place(Int(1)) < place(Int(2))
    ensures !Delivers(sp, place, INDEX.keys, QUERY, [BY_B], true)
  {
    RowMatches(1, 2);
    RowMatches(2, 1);
    RowOrder(sp, place, 2, 1);
    Visits(sp, place, Row(1, 2), Row(2, 1), true);
  }

  lemma BreaksBackward(sp: Special, place: Value -> int)
    requires place(Int(1)) < place(Int(2))
    ensures !Delivers(sp, place, INDEX.keys, QUERY, [BY_B], false)
  {
    RowMatches(1, 1);
    RowMatches(2, 2);
    RowOrder(sp, place, 1, 2);
    Visits(sp, place, Row(2, 2), Row(1, 1), false);
  }

  /**
   The index on a and b is called suitable for {a: {$in: [1, 2]}} sorted by b, and delivers
   the order in neither direction: forwards a = 1, b = 2 comes before a = 2, b = 1, and
   backwards a = 2, b = 2 before a = 1, b = 1.
   */
  lemma InBreaksOrder(sp: Special, place: Value -> int)
    requires place(Int(1)) < place(Int(2))
    ensures Captured(PROFILE, QUERY) && ValidSort(PROFILE.sortKeys)
    ensures DerivePlan(PROFILE, []).Ok? && EvaluateIndex(INDEX, DerivePlan(PROFILE, []).value, PROFILE).0
    ensures !Delivers(sp, place, INDEX.keys, QUERY, PROFILE.sortKeys, true)
    ensures !Delivers(sp, place, INDEX.keys, QUERY, PROFILE.sortKeys, false)
  {
    InCaptured();
    InAccepted();
    BreaksForward(sp, place);
    BreaksBackward(sp, place);
  }
}
