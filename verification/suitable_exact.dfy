/**
 Exactly which indexes are called suitable (keysServe, leadingSetAndTail and evaluateIndex
 in internal/stats/index_advice.go), said of fields and directions.
 */
module SuitableExact {
  import opened Wrappers
  import opened Text
  import opened IndexKeys
  import opened IndexAdvice
  import opened IndexSuitability
  import PartialFilter

  // --------------------------------------------------------- exactly what is served

  /** The first keys are on these fields, in any order. */
  predicate LeadsOn(index: seq<KeySpec>, fields: seq<string>)
  {
    |fields| <= |index| && multiset(FieldNames(index[..|fields|])) == multiset(fields)
  }

  function Sign(n: int): int { if n > 0 then 1 else if n < 0 then -1 else 0 }

  /** Walked backward, a key with any numeric direction counts, by the sign of its direction. */
  predicate Counts(k: KeySpec, forward: bool) { BtreeKind(k.kind) || (!forward && k.direction != 0) }

  function Direction(k: KeySpec, forward: bool): int { if forward then k.direction else -Sign(k.direction) }

  /** From a place on, the index has these fields, with these directions. */
  predicate Follows(index: seq<KeySpec>, from: nat, tail: seq<KeySpec>, forward: bool)
  {
    from + |tail| <= |index|
    && forall i :: 0 <= i < |tail| ==>
         index[from + i].field == tail[i].field && Direction(index[from + i], forward) == tail[i].direction
  }

  /** An index on the equality fields first and on the tail next. */
  predicate Serves(index: seq<KeySpec>, fields: seq<string>, tail: seq<KeySpec>, forward: bool)
  {
    && LeadsOn(index, fields) && Follows(index, |fields|, tail, forward)
    && forall i :: 0 <= i < |fields| + |tail| ==> Counts(index[i], forward)
  }

  lemma NamesExact(index: seq<KeySpec>, fields: seq<string>)
    requires |fields| <= |index|
    ensures SameFieldNames(index[..|fields|], fields) <==>
              LeadsOn(index, fields) && forall i :: 0 <= i < |fields| ==> Counts(index[i], true)
  {
    var lead := index[..|fields|];
    SortedExact(FieldNames(lead), fields);
    assert forall i :: 0 <= i < |fields| ==> lead[i] == index[i];
  }

  lemma TailExact(index: seq<KeySpec>, n: nat, tail: seq<KeySpec>)
    requires n + |tail| <= |index|
    ensures SameTail(index, n, tail) <==>
              Follows(index, n, tail, true) && forall i :: n <= i < n + |tail| ==> Counts(index[i], true)
  {
    if SameTail(index, n, tail) {
      forall i | n <= i < n + |tail|
        ensures Counts(index[i], true)
      {
        assert index[n + (i - n)].field == tail[i - n].field;
      }
    }
    if Follows(index, n, tail, true) && forall i :: n <= i < n + |tail| ==> Counts(index[i], true) {
      forall i | 0 <= i < |tail|
        ensures index[n + i].field == tail[i].field && index[n + i].direction == tail[i].direction
        ensures BtreeKind(index[n + i].kind)
      {
        assert Counts(index[n + i], true);
      }
    }
  }

  /** leadingSetAndTail, said of fields and directions. */
  lemma SetExact(index: seq<KeySpec>, fields: seq<string>, tail: seq<KeySpec>)
    ensures LeadingSetAndTail(index, fields, tail) <==> Serves(index, fields, tail, true)
  {
    if |fields| + |tail| <= |index| {
      NamesExact(index, fields);
      TailExact(index, |fields|, tail);
    }
  }

  /** The keys from a place on are ascending or descending. */
  predicate BtreeFrom(keys: seq<KeySpec>, n: nat) { forall i :: n <= i < |keys| ==> BtreeKind(keys[i].kind) }

  /** n is the number of leading equality keys. */
  predicate EqualityKeysTo(candidate: seq<KeySpec>, n: nat)
  {
    && n <= |candidate| && (forall i :: 0 <= i < n ==> candidate[i].role == Equality)
    && (n < |candidate| ==> candidate[n].role != Equality)
  }

  lemma TailServesExact(index: seq<KeySpec>, candidate: seq<KeySpec>, n: nat)
    requires n <= |candidate| <= |index|
    ensures TailServes(index, candidate, n) <==>
              && BtreeFrom(candidate, n) && Follows(index, n, candidate[n..], true)
              && forall i :: n <= i < |candidate| ==> Counts(index[i], true)
  {
    var tail := candidate[n..];
    forall i | n <= i < |candidate|
      ensures candidate[i] == tail[i - n] && index[i] == index[n + (i - n)]
    {
    }
    TailExact(index, n, tail);
    if Follows(index, n, tail, true) {
      forall i | n <= i < |candidate|
        ensures index[i].field == candidate[i].field && index[i].direction == candidate[i].direction
      {
        assert index[n + (i - n)].field == tail[i - n].field;
      }
    }
    if TailServes(index, candidate, n) {
      forall i | 0 <= i < |tail|
        ensures index[n + i].field == tail[i].field && index[n + i].direction == tail[i].direction
      {
        assert tail[i] == candidate[n + i];
      }
    }
  }

  lemma ForwardExact(index: seq<KeySpec>, candidate: seq<KeySpec>, n: nat)
    requires EqualityKeysTo(candidate, n) && |candidate| <= |index|
    ensures ServeForward(index, candidate) <==>
              BtreeFrom(candidate, n) && Serves(index, FieldNames(candidate[..n]), candidate[n..], true)
  {
    LeadingCount(candidate, n);
    NamesExact(index, FieldNames(candidate[..n]));
    TailServesExact(index, candidate, n);
    if n == 0 {
      assert FieldNames(index[..0]) == FieldNames(candidate[..0]);
    }
  }

  lemma FlippedKey(k: KeySpec)
    ensures FlipKey(k).field == k.field && FlipKey(k).direction == Direction(k, false)
    ensures Counts(FlipKey(k), true) <==> Counts(k, false)
  {
  }

  /** Serving with the flipped keys is serving backward. */
  lemma FlippedServes(index: seq<KeySpec>, fields: seq<string>, tail: seq<KeySpec>)
    ensures Serves(FlipKeys(index), fields, tail, true) <==> Serves(index, fields, tail, false)
  {
    var n, flipped := |fields|, FlipKeys(index);
    forall i | 0 <= i < |index|
      ensures flipped[i].field == index[i].field && Direction(flipped[i], true) == Direction(index[i], false)
      ensures Counts(flipped[i], true) <==> Counts(index[i], false)
    {
      FlippedKey(index[i]);
    }
    if n <= |index| {
      assert FieldNames(flipped[..n]) == FieldNames(index[..n]);
    }
  }

  /**
   An index serves a candidate exactly when its first keys are on the candidate's equality
   fields, in any order, and its next keys are on the candidate's other fields in their
   order, with all directions equal or all directions opposite.
   */
  lemma KeysServeExact(index: seq<KeySpec>, candidate: seq<KeySpec>, n: nat)
    requires EqualityKeysTo(candidate, n)
    ensures var fields, tail := FieldNames(candidate[..n]), candidate[n..];
            KeysServe(index, candidate) <==>
              && candidate != [] && BtreeFrom(candidate, n)
              && (Serves(index, fields, tail, true) || Serves(index, fields, tail, false))
  {
    if |candidate| <= |index| {
      ForwardExact(index, candidate, n);
      ForwardExact(FlipKeys(index), candidate, n);
      FlippedServes(index, FieldNames(candidate[..n]), candidate[n..]);
    }
  }

  /** With an undetermined equality order. */
  lemma LeadingSetExact(index: seq<KeySpec>, fields: seq<string>, tail: seq<KeySpec>)
    ensures LeadingSetAndTail(index, fields, tail) || LeadingSetAndTail(FlipKeys(index), fields, tail) <==>
              Serves(index, fields, tail, true) || Serves(index, fields, tail, false)
  {
    SetExact(index, fields, tail);
    SetExact(FlipKeys(index), fields, tail);
    FlippedServes(index, fields, tail);
  }

  /** An ordinary key is ascending or descending. */
  predicate Ordinary(k: KeySpec) { (k.direction == 1 || k.direction == -1) && BtreeKind(k.kind) }

  /** The same ordinary keys with every direction negated. */
  predicate Mirror(index: seq<KeySpec>, other: seq<KeySpec>)
  {
    |other| == |index|
    && forall i :: 0 <= i < |index| ==>
         && Ordinary(index[i]) && Ordinary(other[i])
         && other[i].field == index[i].field && other[i].direction == -index[i].direction
  }

  lemma MirrorTurns(index: seq<KeySpec>, other: seq<KeySpec>, fields: seq<string>, tail: seq<KeySpec>, forward: bool)
    requires Mirror(index, other)
    ensures Serves(other, fields, tail, forward) <==> Serves(index, fields, tail, !forward)
  {
    forall i | 0 <= i < |index|
      ensures Direction(other[i], forward) == Direction(index[i], !forward) && other[i].field == index[i].field
      ensures Counts(other[i], forward) && Counts(index[i], !forward)
    {
      assert Ordinary(index[i]) && Ordinary(other[i]);
    }
    if |fields| <= |index| {
      assert FieldNames(other[..|fields|]) == FieldNames(index[..|fields|]);
    }
  }

  /** An index of ordinary keys and its mirror serve the same candidates. */
  lemma MirrorServes(index: seq<KeySpec>, other: seq<KeySpec>, candidate: seq<KeySpec>)
    requires Mirror(index, other)
    ensures KeysServe(index, candidate) <==> KeysServe(other, candidate)
  {
    var n := LeadingEquality(candidate);
    KeysServeExact(index, candidate, n);
    KeysServeExact(other, candidate, n);
    MirrorTurns(index, other, FieldNames(candidate[..n]), candidate[n..], true);
    MirrorTurns(index, other, FieldNames(candidate[..n]), candidate[n..], false);
  }

  // --------------------------------------------------------- the keys of a plan

  /** Sort key k is on a field that is no equality field and that no earlier sort key is on. */
  predicate Fresh(sortKeys: seq<KeySpec>, order: seq<string>, k: nat)
    requires k < |sortKeys|
  {
    sortKeys[k].field !in order && forall j :: 0 <= j < k ==> sortKeys[j].field != sortKeys[k].field
  }

  /** The fresh sort keys, in their order and with their directions. */
  ghost predicate FreshKeys(keys: seq<KeySpec>, sortKeys: seq<KeySpec>, order: seq<string>, places: seq<nat>)
  {
    && |keys| == |places| && (forall i, j :: 0 <= i < j < |places| ==> places[i] < places[j])
    && (forall k: nat :: k in places <==> k < |sortKeys| && Fresh(sortKeys, order, k))
    && forall i :: 0 <= i < |keys| ==> places[i] < |sortKeys| && keys[i] == sortKeys[places[i]].(role := SortRole)
  }

  /** New sort keys, by their places from the first on. */
  lemma {:induction false} NewKeysFrom(sortKeys: seq<KeySpec>, from: nat, order: seq<string>, seen: set<string>)
    returns (places: seq<nat>)
    requires from <= |sortKeys|
    requires forall f :: f in seen <==> f in order || exists j :: 0 <= j < from && sortKeys[j].field == f
    ensures |places| == |NewSortKeys(sortKeys[from..], seen)|
    ensures forall i, j :: 0 <= i < j < |places| ==> places[i] < places[j]
    ensures forall k: nat :: k in places <==> from <= k < |sortKeys| && Fresh(sortKeys, order, k)
    ensures forall i :: 0 <= i < |places| ==>
              places[i] < |sortKeys| && NewSortKeys(sortKeys[from..], seen)[i] == sortKeys[places[i]].(role := SortRole)
    decreases |sortKeys| - from
  {
    if from == |sortKeys| {
      places := [];
    } else {
      var k := sortKeys[from];
      assert sortKeys[from..][0] == k && sortKeys[from..][1..] == sortKeys[from + 1..];
      assert k.field !in seen <==> Fresh(sortKeys, order, from);
      if k.field in seen {
        places := NewKeysFrom(sortKeys, from + 1, order, seen);
      } else {
        var rest := NewKeysFrom(sortKeys, from + 1, order, seen + {k.field});
        places := [from] + rest;
        assert forall i :: 0 <= i < |rest| ==> rest[i] in rest;
      }
    }
  }

  /** After the equality keys a plan has the fresh sort keys, then the range field unless it was there. */
  lemma PlanRest(order: seq<string>, sortKeys: seq<KeySpec>, rangeField: string) returns (places: seq<nat>)
    ensures var keys, n, m := PlanKeys(order, sortKeys, rangeField), |order|, |order| + |places|;
            && m <= |keys| && FieldNames(keys[..n]) == order && EqualityKeysTo(keys, n)
            && FreshKeys(keys[n..m], sortKeys, order, places)
            && keys[m..] == if rangeField == "" || rangeField in order || exists k ::
              k in sortKeys && k.field == rangeField
                            then [] else [KeySpec(rangeField, 1, "asc", RangeRole)]
  {
    assert sortKeys[0..] == sortKeys;
    places := NewKeysFrom(sortKeys, 0, order, Members(order));
    var keys, n := PlanKeys(order, sortKeys, rangeField), |order|;
    var unseen := NewSortKeys(sortKeys, Members(order));
    assert keys[n..n + |places|] == unseen;
    assert keys[..n] == EqualityKeys(order);
    assert FieldNames(EqualityKeys(order)) == order;
    RangePresent(order, sortKeys, rangeField);
    assert keys[n + |places|..] == RangeKeys(rangeField, Members(order) + FieldSet(sortKeys));
  }

  lemma RangePresent(order: seq<string>, sortKeys: seq<KeySpec>, rangeField: string)
    ensures rangeField in Members(order) + FieldSet(sortKeys) <==>
              rangeField in order || exists k :: k in sortKeys && k.field == rangeField
  {
  }

  // --------------------------------------------------------- suitable indexes

  predicate ServesBothWays(index: seq<KeySpec>, fields: seq<string>, tail: seq<KeySpec>)
  {
    Serves(index, fields, tail, true) || Serves(index, fields, tail, false)
  }

  lemma SameFieldsServe(index: seq<KeySpec>, fields: seq<string>, other: seq<string>, tail: seq<KeySpec>)
    requires multiset(fields) == multiset(other)
    ensures ServesBothWays(index, fields, tail) <==> ServesBothWays(index, other, tail)
  {
    assert |fields| == |multiset(fields)| == |multiset(other)| == |other|;
  }

  /** A hashed index on the only field of the plan. */
  predicate HashedOn(idx: DeployedIndex, p: Profile, plan: Plan)
  {
    |plan.keys| == 1 && |p.equalityFields| == 1 && |idx.keys| == 1
    && idx.keys[0].kind == "hashed" && idx.keys[0].field == p.equalityFields[0]
  }

  /** The index holds the documents of a query together, and in its order, one way or the other. */
  predicate ServesProfile(idx: DeployedIndex, p: Profile, plan: Plan)
  {
    if plan.determined then
      HashedOn(idx, p, plan)
      || (plan.keys != [] && |p.equalityFields| <= |plan.keys| && BtreeFrom(plan.keys, |p.equalityFields|)
          && ServesBothWays(idx.keys, p.equalityFields, plan.keys[|p.equalityFields|..]))
    else
      && plan.reason == "equality_order_undetermined" && p.equalityFields != []
      && ServesBothWays(idx.keys, p.equalityFields, p.sortKeys)
  }

  /** The keys of a determined plan. */
  lemma DerivedKeys(p: Profile, sel: seq<Evidence>) returns (order: seq<string>, rangeField: string)
    requires DerivePlan(p, sel).Ok? && DerivePlan(p, sel).value.determined
    ensures multiset(order) == multiset(p.equalityFields) && |order| == |p.equalityFields|
    ensures DerivePlan(p, sel).value.keys == PlanKeys(order, p.sortKeys, rangeField)
  {
    var eq := SortStrings(p.equalityFields);
    SortStringsElements(p.equalityFields);
    OrderedByEvidence(eq, sel);
    order, rangeField := OrderOf(eq, sel).fields, ChooseRange(SortStrings(p.rangeFields), FieldSet(p.sortKeys)).field;
    assert |order| == |multiset(order)| == |multiset(eq)| == |eq|;
  }

  lemma DeterminedServes(idx: DeployedIndex, p: Profile, sel: seq<Evidence>)
    requires DerivePlan(p, sel).Ok? && DerivePlan(p, sel).value.determined
    ensures var plan := DerivePlan(p, sel).value; IndexCouldServe(idx, plan, p) <==> ServesProfile(idx, p, plan)
  {
    var order, rangeField := DerivedKeys(p, sel);
    var places := PlanRest(order, p.sortKeys, rangeField);
    PlanServes(idx, p, DerivePlan(p, sel).value, order);
  }

  lemma PlanServes(idx: DeployedIndex, p: Profile, plan: Plan, order: seq<string>)
    requires plan.determined && multiset(order) == multiset(p.equalityFields) && |order| == |p.equalityFields|
    requires EqualityKeysTo(plan.keys, |order|) && FieldNames(plan.keys[..|order|]) == order
    ensures IndexCouldServe(idx, plan, p) <==> ServesProfile(idx, p, plan)
  {
    KeysServeExact(idx.keys, plan.keys, |order|);
    SameFieldsServe(idx.keys, order, p.equalityFields, plan.keys[|order|..]);
    if |plan.keys| == 1 {
      HashedExact(idx, p, plan, order);
    }
  }

  lemma HashedExact(idx: DeployedIndex, p: Profile, plan: Plan, order: seq<string>)
    requires plan.determined && |plan.keys| == 1 && multiset(order) == multiset(p.equalityFields)
    requires |order| == |p.equalityFields| <= 1 && EqualityKeysTo(plan.keys, |order|)
    requires FieldNames(plan.keys[..|order|]) == order
    ensures HashedServes(idx, plan) <==> HashedOn(idx, p, plan)
  {
    if |order| == 1 {
      assert plan.keys[..1][0] == plan.keys[0] && order[0] == plan.keys[0].field;
      assert order[0] in multiset(p.equalityFields);
    }
  }

  lemma UndeterminedServes(idx: DeployedIndex, p: Profile, plan: Plan)
    requires !plan.determined && plan.equalityFields == SortStrings(p.equalityFields)
    ensures IndexCouldServe(idx, plan, p) <==> ServesProfile(idx, p, plan)
  {
    var eq, tail := plan.equalityFields, PlanTail(plan, p.sortKeys);
    SortStringsElements(p.equalityFields);
    SameFieldsServe(idx.keys, eq, p.equalityFields, p.sortKeys);
    LeadingSetExact(idx.keys, eq, tail);
    RolesDoNotServe(idx.keys, eq, tail, p.sortKeys);
  }

  lemma UndeterminedPlan(p: Profile, sel: seq<Evidence>)
    requires DerivePlan(p, sel).Ok? && !DerivePlan(p, sel).value.determined
    ensures var plan := DerivePlan(p, sel).value;
        plan.keys == [] && plan.equalityFields == SortStrings(p.equalityFields)
  {
  }

  lemma RolesDoNotServe(index: seq<KeySpec>, fields: seq<string>, tail: seq<KeySpec>, sortKeys: seq<KeySpec>)
    requires OnlyRolesDiffer(tail, sortKeys)
    ensures ServesBothWays(index, fields, tail) <==> ServesBothWays(index, fields, sortKeys)
  {
    FollowsAlike(index, |fields|, tail, sortKeys, true);
    FollowsAlike(index, |fields|, tail, sortKeys, false);
  }

  lemma FollowsAlike(index: seq<KeySpec>, n: nat, tail: seq<KeySpec>, other: seq<KeySpec>, forward: bool)
    requires |tail| == |other|
    requires forall i :: 0 <= i < |tail| ==> tail[i].field == other[i].field && tail[i].direction == other[i].direction
    ensures Follows(index, n, tail, forward) <==> Follows(index, n, other, forward)
  {
  }

  /** Some key of the index is on a field of the query's equalities or of the plan. */
  predicate Shares(idx: DeployedIndex, plan: Plan)
  {
    exists i :: 0 <= i < |idx.keys| && SharesKey(idx.keys[i].field, plan)
  }

  predicate SharesKey(f: string, plan: Plan)
  {
    f in plan.equalityFields || exists j :: 0 <= j < |plan.keys| && plan.keys[j].field == f
  }

  lemma SharesExact(idx: DeployedIndex, plan: Plan)
    ensures SharesField(idx, plan) <==> Shares(idx, plan)
  {
    if k :| k in idx.keys && (k.field in plan.equalityFields || k.field in FieldSet(plan.keys)) {
      var i :| 0 <= i < |idx.keys| && idx.keys[i] == k;
      if k.field !in plan.equalityFields {
        var c :| c in plan.keys && c.field == k.field;
        var j :| 0 <= j < |plan.keys| && plan.keys[j] == c;
        assert plan.keys[j].field == idx.keys[i].field;
      }
    }
    if i :| 0 <= i < |idx.keys| && SharesKey(idx.keys[i].field, plan) {
      assert idx.keys[i] in idx.keys;
      if j :| 0 <= j < |plan.keys| && plan.keys[j].field == idx.keys[i].field {
        assert plan.keys[j] in plan.keys;
      }
    }
  }

  lemma CouldServeExact(idx: DeployedIndex, p: Profile, sel: seq<Evidence>)
    requires DerivePlan(p, sel).Ok?
    ensures var plan := DerivePlan(p, sel).value; IndexCouldServe(idx, plan, p) <==> ServesProfile(idx, p, plan)
  {
    if DerivePlan(p, sel).value.determined {
      DeterminedServes(idx, p, sel);
    } else {
      UndeterminedPlan(p, sel);
      UndeterminedServes(idx, p, DerivePlan(p, sel).value);
    }
  }

  lemma RefusedReason(idx: DeployedIndex, plan: Plan, p: Profile)
    requires !IndexCouldServe(idx, plan, p)
    ensures EvaluateIndex(idx, plan, p).1
            == if !Shares(idx, plan) then "not_a_prefix" else if SpecialType(idx) then "unsupported_type"
              else "shared_field_only"
  {
    SharesExact(idx, plan);
  }

  lemma ServingReason(idx: DeployedIndex, plan: Plan, p: Profile)
    requires IndexCouldServe(idx, plan, p)
    ensures var reason := EvaluateIndex(idx, plan, p).1;
            && reason !in ["not_a_prefix", "unsupported_type", "shared_field_only"]
            && (reason == "hidden" <==> idx.hidden)
            && (reason == "collation" <==> !idx.hidden && !CollationOK(idx.collation))
  {
  }

  /** The reason of a refusal: what an index that does not serve shares with the plan, or what hides one that does. */
  lemma ReasonsExact(idx: DeployedIndex, p: Profile, sel: seq<Evidence>)
    requires DerivePlan(p, sel).Ok?
    ensures var plan := DerivePlan(p, sel).value;
            var reason, serves := EvaluateIndex(idx, plan, p).1, ServesProfile(idx, p, plan);
            && (reason == "not_a_prefix" <==> !serves && !Shares(idx, plan))
            && (reason == "unsupported_type" <==> !serves && Shares(idx, plan) && SpecialType(idx))
            && (reason == "shared_field_only" <==> !serves && Shares(idx, plan) && !SpecialType(idx))
            && (reason == "hidden" <==> serves && idx.hidden)
            && (reason == "collation" <==> serves && !idx.hidden && !CollationOK(idx.collation))
  {
    var plan := DerivePlan(p, sel).value;
    CouldServeExact(idx, p, sel);
    if IndexCouldServe(idx, plan, p) {
      ServingReason(idx, plan, p);
    } else {
      RefusedReason(idx, plan, p);
    }
  }

  /** A collation compares strings simply when its locale is blank or the word simple, in any case. */
  lemma CollationExact(locale: string)
    ensures var t := TrimSpace(locale);
            CollationOK(locale) <==>
              t == "" || (|t| == 6 && forall i :: 0 <= i < 6 ==>
                            t[i] == "simple"[i] || t[i] == "SIMPLE"[i] || (i == 1 && t[i] as int == 0x130))
  {
    var t := TrimSpace(locale);
    if |t| == 6 {
      forall i | 0 <= i < 6
        ensures LowerChar(t[i]) == "simple"[i] <==>
                  t[i] == "simple"[i] || t[i] == "SIMPLE"[i] || (i == 1 && t[i] as int == 0x130)
      {
        assert i in {0, 1, 2, 3, 4, 5};
      }
      assert Lower(t) == "simple" <==> forall i :: 0 <= i < 6 ==> Lower(t)[i] == "simple"[i];
    }
  }

  /** A plan has a sort or range key exactly when it has more keys than equality fields. */
  lemma PlanOrders(order: seq<string>, sortKeys: seq<KeySpec>, rangeField: string)
    ensures var keys := PlanKeys(order, sortKeys, rangeField);
            (exists k :: k in keys && (k.role == SortRole || k.role == RangeRole)) <==> |keys| > |order|
  {
    var places := PlanRest(order, sortKeys, rangeField);
    var keys, n, m := PlanKeys(order, sortKeys, rangeField), |order|, |order| + |places|;
    if |keys| > n {
      assert m > n ==> keys[n..m][0] == keys[n];
      assert m == n ==> keys[m..][0] == keys[n];
      assert keys[n] in keys;
    } else {
      assert forall k :: k in keys ==> k.role == Equality;
    }
  }

  lemma MultikeyExact(idx: DeployedIndex, p: Profile, sel: seq<Evidence>)
    requires DerivePlan(p, sel).Ok?
    ensures var plan := DerivePlan(p, sel).value;
            MultikeyBlocks(idx, plan) == "" <==>
              (idx.multikey == Some(true) ==> |idx.keys| <= 1 && |plan.keys| <= |p.equalityFields|)
  {
    if DerivePlan(p, sel).value.determined {
      var order, rangeField := DerivedKeys(p, sel);
      PlanOrders(order, p.sortKeys, rangeField);
    } else {
      UndeterminedPlan(p, sel);
    }
  }

  /**
   Exactly when a deployed index is called suitable for the plan derived from a profile: it
   is visible, compares strings simply, is proven to hold every match, leads on all
   equality fields and goes on with the rest of the plan in one direction or the other;
   and when it has several keys for a document, it has a single field and the plan orders nothing.
   */
  lemma SuitableIndexExact(idx: DeployedIndex, p: Profile, sel: seq<Evidence>)
    requires DerivePlan(p, sel).Ok?
    ensures var plan := DerivePlan(p, sel).value;
            EvaluateIndex(idx, plan, p).0 <==>
              && !idx.hidden && CollationOK(idx.collation) && ServesProfile(idx, p, plan)
              && PartialFilter.PartialProven(idx.isPartial, idx.partialPredicates, p.equalityValue)
              && (idx.multikey == Some(true) ==> |idx.keys| <= 1 && |plan.keys| <= |p.equalityFields|)
  {
    MultikeyExact(idx, p, sel);
    CouldServeExact(idx, p, sel);
  }
}
