/**
 When a deployed index is called suitable (indexCouldServe and evaluateIndex in
 internal/stats/index_advice.go), and what that means for the documents it visits.
 */
module IndexSuitability {
  import opened Wrappers
  import opened Text
  import opened IndexKeys
  import opened IndexAdvice
  import PartialFilter

  datatype DeployedIndex = DeployedIndex(
    keys: seq<KeySpec>, typ: string, hidden: bool, isPartial: bool, collation: string, multikey: Option<bool>,
    partialPredicates: set<PartialFilter.Pred>)

  function PlanTail(plan: Plan, sortKeys: seq<KeySpec>): seq<KeySpec>
  {
    if plan.determined then NotEquality(plan.keys)
      else seq(|sortKeys|, i requires 0 <= i < |sortKeys| => sortKeys[i].(role := SortRole))
  }

  function NotEquality(keys: seq<KeySpec>): seq<KeySpec>
  {
    if keys == [] then []
    else (if keys[0].role != Equality then [keys[0]] else []) + NotEquality(keys[1..])
  }

  predicate HashedServes(idx: DeployedIndex, plan: Plan)
  {
    && plan.determined && |plan.keys| == 1 && plan.keys[0].role == Equality
    && |idx.keys| == 1 && idx.keys[0].kind == "hashed" && idx.keys[0].field == plan.keys[0].field
  }

  predicate IndexCouldServe(idx: DeployedIndex, plan: Plan, p: Profile)
  {
    if HashedServes(idx, plan) then true
    else if plan.determined then KeysServe(idx.keys, plan.keys)
    else if plan.reason != "equality_order_undetermined" || plan.equalityFields == [] then false
    else
      var tail := PlanTail(plan, p.sortKeys);
      LeadingSetAndTail(idx.keys, plan.equalityFields, tail)
        || LeadingSetAndTail(FlipKeys(idx.keys), plan.equalityFields, tail)
  }

  predicate SharesField(idx: DeployedIndex, plan: Plan)
  {
    exists k :: k in idx.keys && (k.field in plan.equalityFields || k.field in FieldSet(plan.keys))
  }

  predicate SpecialType(idx: DeployedIndex)
  {
    || (exists k :: k in idx.keys && !BtreeKind(k.kind) && k.kind != "hashed")
    || (idx.typ != "" && idx.typ != "btree" && idx.typ != "hashed")
  }

  /** unicode.ToLower on the characters that can end up in the word "simple". */
  function LowerChar(c: char): char
  {
    if 'A' <= c <= 'Z' then (c as int + 32) as char else if c as int == 0x130 then 'i' else c
  }

  function Lower(s: string): string { seq(|s|, i requires 0 <= i < |s| => LowerChar(s[i])) }

  predicate CollationOK(locale: string) { Lower(TrimSpace(locale)) == "" || Lower(TrimSpace(locale)) == "simple" }

  function MultikeyBlocks(idx: DeployedIndex, plan: Plan): string
  {
    var hasSort := exists k :: k in plan.keys && (k.role == SortRole || k.role == RangeRole);
    if idx.multikey != Some(true) then ""
    else if hasSort then "multikey_sort"
    else if |idx.keys| > 1 then "multikey_compound"
    else ""
  }

  function EvaluateIndex(idx: DeployedIndex, plan: Plan, p: Profile): (r: (bool, string))
    ensures r.0 <==> r.1 == "suitable"
  {
    if !IndexCouldServe(idx, plan, p) then
      (false, if SharesField(idx, plan) then (if SpecialType(idx) then "unsupported_type" else "shared_field_only")
        else "not_a_prefix")
    else if idx.hidden then (false, "hidden")
    else if !CollationOK(idx.collation) then (false, "collation")
    else if !PartialFilter.PartialProven(idx.isPartial, idx.partialPredicates, p.equalityValue)
      then (false, "partial_not_proven")
    else if MultikeyBlocks(idx, plan) != "" then (false, MultikeyBlocks(idx, plan))
    else (true, "suitable")
  }

  // --------------------------------------------------------- order of the documents

  /** Captured sort directions are 1 or -1. */
  predicate ValidSort(keys: seq<KeySpec>)
  {
    forall i :: 0 <= i < |keys| ==> keys[i].direction == 1 || keys[i].direction == -1
  }

  predicate SameRanks(sp: Special, keys: seq<KeySpec>, n: nat, d: Doc, e: Doc)
    requires n <= |keys|
  {
    forall i :: 0 <= i < n ==> Rank(sp, keys[i], d) == Rank(sp, keys[i], e)
  }

  /** The index keys from position from on have the fields and directions of the tail. */
  predicate Matching(index: seq<KeySpec>, from: nat, tail: seq<KeySpec>)
  {
    && from + |tail| <= |index|
    && forall i :: 0 <= i < |tail| ==>
      index[from + i].field == tail[i].field && index[from + i].direction == tail[i].direction
  }

  lemma ForwardTail(sp: Special, index: seq<KeySpec>, from: nat, tail: seq<KeySpec>, d: Doc, e: Doc)
    requires Matching(index, from, tail) && ValidSort(tail) && SameRanks(sp, index, from, d, e)
        && LexLe(sp, index, d, e)
    ensures LexLe(sp, tail, d, e)
  {
    LexSkip(sp, index, from, d, e);
    LexPrefix(sp, index[from..], |tail|, d, e);
    var part := index[from..][..|tail|];
    assert forall i :: 0 <= i < |tail| ==> part[i] == index[from + i];
    LexSameRanks(sp, part, tail, d, e);
  }

  lemma BackwardTail(sp: Special, index: seq<KeySpec>, from: nat, tail: seq<KeySpec>, d: Doc, e: Doc)
    requires Matching(FlipKeys(index), from, tail) && ValidSort(tail) && SameRanks(sp, index, from, d, e)
        && LexLe(sp, index, e, d)
    ensures LexLe(sp, tail, d, e)
  {
    LexSkip(sp, index, from, e, d);
    LexPrefix(sp, index[from..], |tail|, e, d);
    var part := index[from..][..|tail|];
    forall i | 0 <= i < |tail|
      ensures Rank(sp, part[i], d) == -Rank(sp, tail[i], d) && Rank(sp, part[i], e) == -Rank(sp, tail[i], e)
    {
      assert part[i] == index[from + i] && FlipKeys(index)[from + i] == FlipKey(index[from + i]);
    }
    LexOpposite(sp, part, tail, d, e);
  }

  /** Sort keys on fields that are equal, or that an earlier sort key decides, can be left out. */
  lemma {:induction false} SeenKeysRedundant(sp: Special, keys: seq<KeySpec>, seen: set<string>, d: Doc, e: Doc)
    requires ValidSort(keys) && forall f :: f in seen ==> d(f) == e(f)
    ensures LexLe(sp, NewSortKeys(keys, seen), d, e) <==> LexLe(sp, keys, d, e)
  {
    if keys != [] {
      var k := keys[0];
      if k.field in seen {
        SeenKeysRedundant(sp, keys[1..], seen, d, e);
      } else {
        var rest := NewSortKeys(keys[1..], seen + {k.field});
        assert NewSortKeys(keys, seen)[1..] == rest;
        if d(k.field) == e(k.field) {
          SeenKeysRedundant(sp, keys[1..], seen + {k.field}, d, e);
        }
      }
    }
  }

  lemma {:induction false} NewKeysValid(keys: seq<KeySpec>, seen: set<string>)
    requires ValidSort(keys)
    ensures ValidSort(NewSortKeys(keys, seen))
    ensures forall i :: 0 <= i < |NewSortKeys(keys, seen)| ==> NewSortKeys(keys, seen)[i].role == SortRole
  {
    if keys != [] {
      NewKeysValid(keys[1..], seen);
      NewKeysValid(keys[1..], seen + {keys[0].field});
    }
  }

  /** A walk in this direction visits documents that agree on the fields in the order of the sort keys. */
  ghost predicate Sorts(sp: Special, index: seq<KeySpec>, fields: seq<string>, sortKeys: seq<KeySpec>, forward: bool)
  {
    forall docs: seq<Doc> :: AllAgree(docs, fields) && Walk(sp, index, docs, forward) ==>
      IndexKeys.Ordered(sp, sortKeys, docs)
  }

  /** An index whose first keys are the equality fields and whose next keys are the tail. */
  predicate LeadsWith(index: seq<KeySpec>, fields: seq<string>, tail: seq<KeySpec>)
  {
    |fields| <= |index| && (forall i :: 0 <= i < |fields| ==> index[i].field in fields)
      && Matching(index, |fields|, tail)
  }

  /** The tail decides the order of the captured sort keys on documents that agree on the fields. */
  ghost predicate Decides(sp: Special, tail: seq<KeySpec>, fields: seq<string>, sortKeys: seq<KeySpec>)
  {
    forall d: Doc, e: Doc :: AgreeOn(d, e, fields) && LexLe(sp, tail, d, e) ==> LexLe(sp, sortKeys, d, e)
  }

  lemma LeadingForward(sp: Special, index: seq<KeySpec>, fields: seq<string>, tail: seq<KeySpec>, d: Doc, e: Doc)
    requires ValidSort(tail) && LeadsWith(index, fields, tail) && AgreeOn(d, e, fields) && LexLe(sp, index, d, e)
    ensures LexLe(sp, tail, d, e)
  {
    ForwardTail(sp, index, |fields|, tail, d, e);
  }

  lemma LeadingBackward(sp: Special, index: seq<KeySpec>, fields: seq<string>, tail: seq<KeySpec>, d: Doc, e: Doc)
    requires ValidSort(tail) && LeadsWith(FlipKeys(index), fields, tail) && AgreeOn(d, e, fields)
        && LexLe(sp, index, e, d)
    ensures LexLe(sp, tail, d, e)
  {
    assert forall i :: 0 <= i < |fields| ==> FlipKeys(index)[i].field == index[i].field;
    BackwardTail(sp, index, |fields|, tail, d, e);
  }

  lemma LeadingSorts(sp: Special, index: seq<KeySpec>, fields: seq<string>, tail: seq<KeySpec>,
        sortKeys: seq<KeySpec>, forward: bool)
    requires ValidSort(tail) && Decides(sp, tail, fields, sortKeys)
    requires LeadsWith(if forward then index else FlipKeys(index), fields, tail)
    ensures Sorts(sp, index, fields, sortKeys, forward)
  {
    forall docs: seq<Doc> | AllAgree(docs, fields) && Walk(sp, index, docs, forward)
      ensures IndexKeys.Ordered(sp, sortKeys, docs)
    {
      forall i, j | 0 <= i < j < |docs|
        ensures LexLe(sp, sortKeys, docs[i], docs[j])
      {
        if forward {
          LeadingForward(sp, index, fields, tail, docs[i], docs[j]);
        } else {
          LeadingBackward(sp, index, fields, tail, docs[i], docs[j]);
        }
      }
    }
  }

  // ------------------------------------------------------ what acceptance establishes

  lemma {:induction false} LeadingCount(keys: seq<KeySpec>, n: nat)
    requires n <= |keys| && forall i :: 0 <= i < n ==> keys[i].role == Equality
    requires n < |keys| ==> keys[n].role != Equality
    ensures LeadingEquality(keys) == n
  {
    if n > 0 {
      LeadingCount(keys[1..], n - 1);
    }
  }

  /** The parts of a determined plan's keys. */
  lemma PlanParts(order: seq<string>, sortKeys: seq<KeySpec>, rangeField: string)
    requires ValidSort(sortKeys)
    ensures var keys, unseen := PlanKeys(order, sortKeys, rangeField), NewSortKeys(sortKeys, Members(order));
            && LeadingEquality(keys) == |order| && FieldNames(keys[..|order|]) == order
            && |order| + |unseen| <= |keys| && forall i :: 0 <= i < |unseen| ==> keys[|order| + i] == unseen[i]
  {
    NewKeysValid(sortKeys, Members(order));
    LeadingCount(PlanKeys(order, sortKeys, rangeField), |order|);
  }

  /** The leading keys of an index, forward or flipped, that name the fields. */
  lemma PrefixNames(index: seq<KeySpec>, keys: seq<KeySpec>, fields: seq<string>)
    requires keys == index || keys == FlipKeys(index)
    requires |fields| <= |keys| && (fields != [] ==> SameFieldNames(keys[..|fields|], fields))
    ensures forall i :: 0 <= i < |fields| ==>
        index[i].field in fields && keys[i].field in fields && BtreeKind(keys[i].kind)
    ensures forall f :: f in fields ==> exists i :: 0 <= i < |fields| && index[i].field == f
  {
    if fields != [] {
      var lead := keys[..|fields|];
      PrefixFields(lead, fields);
      forall i | 0 <= i < |fields|
        ensures index[i].field in fields && keys[i].field in fields && BtreeKind(keys[i].kind)
      {
        assert lead[i] == keys[i];
      }
      forall f | f in fields
        ensures exists i :: 0 <= i < |fields| && index[i].field == f
      {
        var i :| 0 <= i < |lead| && lead[i].field == f;
        assert index[i].field == f;
      }
    }
  }

  lemma ServesLeads(index: seq<KeySpec>, order: seq<string>, sortKeys: seq<KeySpec>, rangeField: string)
    requires ValidSort(sortKeys) && |PlanKeys(order, sortKeys, rangeField)| <= |index|
    requires ServeForward(index, PlanKeys(order, sortKeys, rangeField))
    ensures LeadsWith(index, order, NewSortKeys(sortKeys, Members(order)))
  {
    PlanParts(order, sortKeys, rangeField);
    PrefixNames(index, index, order);
  }

  lemma FreshKeysDecide(sp: Special, order: seq<string>, sortKeys: seq<KeySpec>)
    requires ValidSort(sortKeys)
    ensures ValidSort(NewSortKeys(sortKeys, Members(order)))
    ensures Decides(sp, NewSortKeys(sortKeys, Members(order)), order, sortKeys)
  {
    NewKeysValid(sortKeys, Members(order));
    forall d: Doc, e: Doc | AgreeOn(d, e, order) && LexLe(sp, NewSortKeys(sortKeys, Members(order)), d, e)
      ensures LexLe(sp, sortKeys, d, e)
    {
      SeenKeysRedundant(sp, sortKeys, Members(order), d, e);
    }
  }

  /** keysServe on a determined plan. */
  lemma KeysServeSorts(sp: Special, index: seq<KeySpec>, order: seq<string>, sortKeys: seq<KeySpec>, rangeField: string)
    requires ValidSort(sortKeys) && KeysServe(index, PlanKeys(order, sortKeys, rangeField))
    ensures Sorts(sp, index, order, sortKeys, true) || Sorts(sp, index, order, sortKeys, false)
  {
    var candidate, tail := PlanKeys(order, sortKeys, rangeField), NewSortKeys(sortKeys, Members(order));
    var forward := ServeForward(index, candidate);
    ServesLeads(if forward then index else FlipKeys(index), order, sortKeys, rangeField);
    FreshKeysDecide(sp, order, sortKeys);
    LeadingSorts(sp, index, order, tail, sortKeys, forward);
  }

  lemma SetLeads(index: seq<KeySpec>, keys: seq<KeySpec>, fields: seq<string>, tail: seq<KeySpec>)
    requires (keys == index || keys == FlipKeys(index)) && LeadingSetAndTail(keys, fields, tail)
    ensures LeadsWith(keys, fields, tail)
  {
    PrefixNames(index, keys, fields);
  }

  predicate OnlyRolesDiffer(tail: seq<KeySpec>, sortKeys: seq<KeySpec>)
  {
    |tail| == |sortKeys| && forall i :: 0 <= i < |tail| ==> tail[i] == sortKeys[i].(role := SortRole)
  }

  lemma RolesDecide(sp: Special, fields: seq<string>, sortKeys: seq<KeySpec>, tail: seq<KeySpec>)
    requires ValidSort(sortKeys) && OnlyRolesDiffer(tail, sortKeys)
    ensures ValidSort(tail) && Decides(sp, tail, fields, sortKeys)
  {
    forall d: Doc, e: Doc | LexLe(sp, tail, d, e)
      ensures LexLe(sp, sortKeys, d, e)
    {
      LexSameRanks(sp, tail, sortKeys, d, e);
    }
  }

  /** leadingSetAndTail when the order of the equality fields is undetermined. */
  lemma LeadingSetSorts(sp: Special, index: seq<KeySpec>, fields: seq<string>, sortKeys: seq<KeySpec>,
        tail: seq<KeySpec>)
    requires ValidSort(sortKeys) && OnlyRolesDiffer(tail, sortKeys)
    requires LeadingSetAndTail(index, fields, tail) || LeadingSetAndTail(FlipKeys(index), fields, tail)
    ensures Sorts(sp, index, fields, sortKeys, true) || Sorts(sp, index, fields, sortKeys, false)
  {
    var forward := LeadingSetAndTail(index, fields, tail);
    SetLeads(index, if forward then index else FlipKeys(index), fields, tail);
    RolesDecide(sp, fields, sortKeys, tail);
    LeadingSorts(sp, index, fields, tail, sortKeys, forward);
  }

  lemma SortsSameFields(sp: Special, index: seq<KeySpec>, fields: seq<string>, other: seq<string>,
        sortKeys: seq<KeySpec>, forward: bool)
    requires Sorts(sp, index, fields, sortKeys, forward) && multiset(fields) == multiset(other)
    ensures Sorts(sp, index, other, sortKeys, forward)
  {
    forall docs: seq<Doc> | AllAgree(docs, other) && Walk(sp, index, docs, forward)
      ensures IndexKeys.Ordered(sp, sortKeys, docs)
    {
      forall i, j | 0 <= i < |docs| && 0 <= j < |docs|
        ensures AgreeOn(docs[i], docs[j], fields)
      {
        assert AgreeOn(docs[i], docs[j], other);
        assert forall f :: f in fields ==> f in multiset(fields) && f in multiset(other) && f in other;
      }
    }
  }

  /** A hashed index is accepted only where there is nothing left to order. */
  lemma HashedSorts(sp: Special, index: seq<KeySpec>, order: seq<string>, sortKeys: seq<KeySpec>, rangeField: string)
    requires ValidSort(sortKeys) && |PlanKeys(order, sortKeys, rangeField)| == 1
    requires PlanKeys(order, sortKeys, rangeField)[0].role == Equality
    ensures Sorts(sp, index, order, sortKeys, true)
  {
    PlanParts(order, sortKeys, rangeField);
    FreshKeysDecide(sp, order, sortKeys);
    assert NewSortKeys(sortKeys, Members(order)) == [];
    forall docs: seq<Doc> | AllAgree(docs, order)
      ensures IndexKeys.Ordered(sp, sortKeys, docs)
    {
    }
  }

  /**
   If an index is called suitable for the plan derived from a profile, walking it forward
   or walking it backward visits documents that agree on all equality fields in the order
   of the captured sort keys.
   */
  lemma SuitableIndexSorts(sp: Special, idx: DeployedIndex, p: Profile, sel: seq<Evidence>)
    requires ValidSort(p.sortKeys) && DerivePlan(p, sel).Ok? && EvaluateIndex(idx, DerivePlan(p, sel).value, p).0
    ensures Sorts(sp, idx.keys, p.equalityFields, p.sortKeys, true)
        || Sorts(sp, idx.keys, p.equalityFields, p.sortKeys, false)
  {
    var plan, eq := DerivePlan(p, sel).value, SortStrings(p.equalityFields);
    SortStringsElements(p.equalityFields);
    var fields := eq;
    if plan.determined {
      OrderedByEvidence(eq, sel);
      fields := OrderOf(eq, sel).fields;
      var rangeField := ChooseRange(SortStrings(p.rangeFields), FieldSet(p.sortKeys)).field;
      if HashedServes(idx, plan) {
        HashedSorts(sp, idx.keys, fields, p.sortKeys, rangeField);
      } else {
        KeysServeSorts(sp, idx.keys, fields, p.sortKeys, rangeField);
      }
    } else {
      LeadingSetSorts(sp, idx.keys, eq, p.sortKeys, PlanTail(plan, p.sortKeys));
    }
    var forward := Sorts(sp, idx.keys, fields, p.sortKeys, true);
    SortsSameFields(sp, idx.keys, fields, p.equalityFields, p.sortKeys, forward);
  }

  // ------------------------------------------------------------- equality as one range

  /** Between two documents with the same leading places there are only such documents. */
  lemma {:induction false} PrefixBetween(sp: Special, keys: seq<KeySpec>, n: nat, d: Doc, m: Doc, e: Doc)
    requires n <= |keys| && LexLe(sp, keys, d, m) && LexLe(sp, keys, m, e) && SameRanks(sp, keys, n, d, e)
    ensures SameRanks(sp, keys, n, d, m)
  {
    if n > 0 {
      assert SameRanks(sp, keys[1..], n - 1, d, e) by {
        assert forall i :: 0 <= i < n - 1 ==> keys[1..][i] == keys[i + 1];
      }
      assert Rank(sp, keys[0], d) == Rank(sp, keys[0], m);
      PrefixBetween(sp, keys[1..], n - 1, d, m, e);
      forall i | 0 <= i < n
        ensures Rank(sp, keys[i], d) == Rank(sp, keys[i], m)
      {
        assert i > 0 ==> keys[1..][i - 1] == keys[i];
      }
    }
  }

  /** Keys of an ordinary kind have a direction, as the server requires. */
  predicate ValidKeys(keys: seq<KeySpec>)
  {
    forall i :: 0 <= i < |keys| && BtreeKind(keys[i].kind) ==> keys[i].direction != 0
  }

  /** The equality fields in the order an accepted index was checked against. */
  lemma AcceptedOrder(idx: DeployedIndex, p: Profile, sel: seq<Evidence>)
    returns (fields: seq<string>, keys: seq<KeySpec>)
    requires ValidSort(p.sortKeys) && DerivePlan(p, sel).Ok? && IndexCouldServe(idx, DerivePlan(p, sel).value, p)
    requires |idx.keys| > 0 ==> idx.keys[0].kind != "hashed"
    ensures multiset(fields) == multiset(p.equalityFields) && (keys == idx.keys || keys == FlipKeys(idx.keys))
    ensures |fields| <= |keys| && (fields != [] ==> SameFieldNames(keys[..|fields|], fields))
  {
    var plan, eq := DerivePlan(p, sel).value, SortStrings(p.equalityFields);
    SortStringsElements(p.equalityFields);
    if plan.determined {
      OrderedByEvidence(eq, sel);
      fields := OrderOf(eq, sel).fields;
      PlanParts(fields, p.sortKeys, ChooseRange(SortStrings(p.rangeFields), FieldSet(p.sortKeys)).field);
      keys := if ServeForward(idx.keys, plan.keys) then idx.keys else FlipKeys(idx.keys);
    } else {
      fields := eq;
      keys := if LeadingSetAndTail(idx.keys, eq, PlanTail(plan, p.sortKeys)) then idx.keys else FlipKeys(idx.keys);
    }
  }

  lemma SameMembers(a: seq<string>, b: seq<string>)
    requires multiset(a) == multiset(b)
    ensures forall f :: f in a <==> f in b
  {
    forall f
      ensures f in a <==> f in b
    {
      assert (f in a <==> f in multiset(a)) && (f in b <==> f in multiset(b));
    }
  }

  /** The first n keys have a direction and are on exactly these fields. */
  ghost predicate CoversFields(index: seq<KeySpec>, n: nat, fields: seq<string>)
  {
    && n <= |index|
    && (forall i :: 0 <= i < n ==> index[i].direction != 0 && index[i].field in fields)
    && (forall f :: f in fields ==> exists i :: 0 <= i < n && index[i].field == f)
  }

  lemma PrefixCovers(index: seq<KeySpec>, keys: seq<KeySpec>, order: seq<string>, fields: seq<string>)
    requires ValidKeys(index) && multiset(order) == multiset(fields)
    requires keys == index || keys == FlipKeys(index)
    requires |order| <= |keys| && (order != [] ==> SameFieldNames(keys[..|order|], order))
    ensures CoversFields(index, |order|, fields)
  {
    PrefixNames(index, keys, order);
    SameMembers(order, fields);
    forall i | 0 <= i < |order|
      ensures index[i].direction != 0 && index[i].field in fields
    {
      assert BtreeKind(keys[i].kind);
    }
  }

  /** The first keys are on the equality fields, and have a direction. */
  lemma AcceptedPrefix(idx: DeployedIndex, p: Profile, sel: seq<Evidence>) returns (n: nat)
    requires ValidSort(p.sortKeys) && DerivePlan(p, sel).Ok? && IndexCouldServe(idx, DerivePlan(p, sel).value, p)
    requires ValidKeys(idx.keys) && (|idx.keys| > 0 ==> idx.keys[0].kind != "hashed")
    ensures CoversFields(idx.keys, n, p.equalityFields)
  {
    var fields, keys := AcceptedOrder(idx, p, sel);
    PrefixCovers(idx.keys, keys, fields, p.equalityFields);
    n := |fields|;
  }

  /**
   An accepted index, other than a hashed one, keeps the documents with given values of the
   equality fields together: whatever it visits between two of them has these values too.
   */
  lemma EqualityIsOneRange(sp: Special, idx: DeployedIndex, p: Profile, sel: seq<Evidence>, docs: seq<Doc>, i: nat,
        j: nat, k: nat)
    requires ValidSort(p.sortKeys) && DerivePlan(p, sel).Ok? && EvaluateIndex(idx, DerivePlan(p, sel).value, p).0
    requires ValidKeys(idx.keys) && (|idx.keys| > 0 ==> idx.keys[0].kind != "hashed")
    requires i < j < k < |docs| && Walk(sp, idx.keys, docs, true) && AgreeOn(docs[i], docs[k], p.equalityFields)
    ensures AgreeOn(docs[i], docs[j], p.equalityFields)
  {
    var n := AcceptedPrefix(idx, p, sel);
    PrefixBetween(sp, idx.keys, n, docs[i], docs[j], docs[k]);
    forall f | f in p.equalityFields
      ensures docs[i](f) == docs[j](f)
    {
      var x :| 0 <= x < n && idx.keys[x].field == f;
      assert Rank(sp, idx.keys[x], docs[i]) == Rank(sp, idx.keys[x], docs[j]);
    }
  }
}
