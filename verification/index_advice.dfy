/**
 The candidate plan derived from a query profile and the claim that a deployed index
 serves it (internal/stats/index_advice.go). The claim is proved against the order in
 which an index visits documents.
 */
module IndexAdvice {
  import opened Wrappers
  import opened Text
  import opened Predicates
  import opened IndexKeys

  datatype Profile = Profile(
    equalityFields: seq<string>, rangeFields: seq<string>, sortKeys: seq<KeySpec>, sortOrderKnown: bool,
    unsupported: seq<string>, inPredicate: bool, equalityValue: map<string, Token>)

  datatype Evidence = Evidence(field: string, distinct: Option<int>, source: string)

  datatype Plan = Plan(
    determined: bool, reason: string, keys: seq<KeySpec>, equalityFields: seq<string>, residualRanges: seq<string>,
    unsupported: seq<string>, source: string)

  // ------------------------------------------------------ ordering the equality fields

  predicate Usable(e: Evidence) { e.distinct.Some? && TrimSpace(e.source) != "" }

  function UsableOf(sel: seq<Evidence>): seq<Evidence>
  {
    if sel == [] then []
    else
      var before := UsableOf(sel[..|sel| - 1]);
      if Usable(sel[|sel| - 1]) then before + [sel[|sel| - 1]] else before
  }

  /** The last usable count of every field. */
  function CountsOf(used: seq<Evidence>): map<string, int>
    requires forall i :: 0 <= i < |used| ==> Usable(used[i])
  {
    if used == [] then map[]
    else
      var last := used[|used| - 1];
      assert Usable(last);
      CountsOf(used[..|used| - 1])[last.field := last.distinct.value]
  }

  predicate OneSource(used: seq<Evidence>) { forall i :: 0 <= i < |used| ==> used[i].source == used[0].source }

  /** The outcome of ordering; reading the count of a field without evidence dereferences nil. */
  datatype EqualityOrder = Ordered(fields: seq<string>, source: string) | Undetermined | Panics

  /** The first n fields have counts, all different. */
  predicate CountedApart(fields: seq<string>, counts: map<string, int>, n: nat)
    requires n <= |fields|
  {
    && (forall i :: 0 <= i < n ==> fields[i] in counts)
    && (forall i, j :: 0 <= i < j < n ==> counts[fields[i]] != counts[fields[j]])
  }

  function InsertByCount(f: string, s: seq<string>, counts: map<string, int>): seq<string>
    requires f in counts && forall g :: g in s ==> g in counts
  {
    if s == [] || counts[f] < counts[s[0]] then [f] + s else [s[0]] + InsertByCount(f, s[1..], counts)
  }

  lemma {:induction false} InsertByCountElements(f: string, s: seq<string>, counts: map<string, int>)
    requires f in counts && forall g :: g in s ==> g in counts
    ensures multiset(InsertByCount(f, s, counts)) == multiset(s) + multiset{f}
    ensures forall g :: g in InsertByCount(f, s, counts) <==> g == f || g in s
  {
    if s == [] || counts[f] < counts[s[0]] {
      assert multiset([f] + s) == multiset{f} + multiset(s);
    } else {
      InsertByCountElements(f, s[1..], counts);
      assert s == [s[0]] + s[1..];
    }
  }

  /** The stable sort of the fields by count: later fields go behind equal ones. */
  function SortedByCount(s: seq<string>, counts: map<string, int>): (r: seq<string>)
    requires forall g :: g in s ==> g in counts
    ensures forall g :: g in r <==> g in s
  {
    if s == [] then []
    else
      var t := SortedByCount(s[..|s| - 1], counts);
      InsertByCountElements(s[|s| - 1], t, counts);
      InsertByCount(s[|s| - 1], t, counts)
  }

  /** Counts strictly increase along the list. */
  ghost predicate ByCount(s: seq<string>, counts: map<string, int>)
  {
    (forall g :: g in s ==> g in counts) && forall i, j :: 0 <= i < j < |s| ==> counts[s[i]] < counts[s[j]]
  }

  lemma ByCountCons(f: string, s: seq<string>, counts: map<string, int>)
    requires f in counts && ByCount(s, counts) && forall g :: g in s ==> counts[f] < counts[g]
    ensures ByCount([f] + s, counts)
  {
    var r := [f] + s;
    forall i, j | 0 <= i < j < |r|
      ensures r[i] in counts && r[j] in counts && counts[r[i]] < counts[r[j]]
    {
      assert r[j] == s[j - 1];
      assert i > 0 ==> r[i] == s[i - 1];
    }
  }

  lemma ByCountTail(s: seq<string>, counts: map<string, int>)
    requires ByCount(s, counts) && s != []
    ensures ByCount(s[1..], counts) && s[0] in counts
        && forall g :: g in s[1..] ==> g in counts && counts[s[0]] < counts[g]
  {
    var t := s[1..];
    forall g | g in t
      ensures g in counts && counts[s[0]] < counts[g]
    {
      var i :| 0 <= i < |t| && t[i] == g;
      assert s[i + 1] == g;
    }
    forall i, j | 0 <= i < j < |t|
      ensures t[i] in counts && t[j] in counts && counts[t[i]] < counts[t[j]]
    {
      assert t[i] == s[i + 1] && t[j] == s[j + 1];
    }
  }

  lemma {:induction false} InsertKeepsOrder(f: string, s: seq<string>, counts: map<string, int>)
    requires f in counts && ByCount(s, counts) && forall g :: g in s ==> counts[g] != counts[f]
    ensures ByCount(InsertByCount(f, s, counts), counts)
  {
    if s == [] {
    } else {
      ByCountTail(s, counts);
      if counts[f] < counts[s[0]] {
        ByCountCons(f, s, counts);
      } else {
        InsertKeepsOrder(f, s[1..], counts);
        InsertByCountElements(f, s[1..], counts);
        ByCountCons(s[0], InsertByCount(f, s[1..], counts), counts);
      }
    }
  }

  lemma {:induction false} SortedByCountElements(s: seq<string>, counts: map<string, int>)
    requires forall g :: g in s ==> g in counts
    ensures multiset(SortedByCount(s, counts)) == multiset(s)
  {
    if s != [] {
      var n := |s| - 1;
      SortedByCountElements(s[..n], counts);
      InsertByCountElements(s[n], SortedByCount(s[..n], counts), counts);
      assert s == s[..n] + [s[n]];
    }
  }

  lemma PrefixApart(s: seq<string>, counts: map<string, int>)
    requires s != [] && CountedApart(s, counts, |s|)
    ensures CountedApart(s[..|s| - 1], counts, |s| - 1)
  {
  }

  lemma OthersDiffer(s: seq<string>, counts: map<string, int>, g: string)
    requires s != [] && CountedApart(s, counts, |s|) && g in s[..|s| - 1]
    ensures g in counts && counts[g] != counts[s[|s| - 1]]
  {
    var i :| 0 <= i < |s| - 1 && s[..|s| - 1][i] == g;
    assert s[i] == g;
  }

  lemma {:induction false} SortedByCountRises(s: seq<string>, counts: map<string, int>)
    requires CountedApart(s, counts, |s|) && forall g :: g in s ==> g in counts
    ensures ByCount(SortedByCount(s, counts), counts)
  {
    if s != [] {
      var before, last := s[..|s| - 1], s[|s| - 1];
      PrefixApart(s, counts);
      SortedByCountRises(before, counts);
      forall g | g in SortedByCount(before, counts)
        ensures counts[g] != counts[last]
      {
        OthersDiffer(s, counts, g);
      }
      InsertKeepsOrder(last, SortedByCount(before, counts), counts);
    }
  }

  /** With different counts the result is the fields in increasing order of count. */
  lemma SortedByCountOrders(s: seq<string>, counts: map<string, int>)
    requires CountedApart(s, counts, |s|) && forall g :: g in s ==> g in counts
    ensures ByCount(SortedByCount(s, counts), counts) && multiset(SortedByCount(s, counts)) == multiset(s)
  {
    SortedByCountRises(s, counts);
    SortedByCountElements(s, counts);
  }

  lemma {:induction false} UsableAll(sel: seq<Evidence>)
    ensures forall i :: 0 <= i < |UsableOf(sel)| ==> Usable(UsableOf(sel)[i])
  {
    if sel != [] {
      UsableAll(sel[..|sel| - 1]);
    }
  }

  function EvidenceOf(sel: seq<Evidence>): map<string, int>
  {
    UsableAll(sel);
    CountsOf(UsableOf(sel))
  }

  lemma {:induction false} UsablePrefix(sel: seq<Evidence>, n: nat)
    requires n <= |sel|
    ensures UsableOf(sel[..n]) <= UsableOf(sel)
  {
    if n < |sel| {
      UsablePrefix(sel[..|sel| - 1], n);
      assert sel[..|sel| - 1][..n] == sel[..n];
    } else {
      assert sel[..n] == sel;
    }
  }

  lemma SourcesDiffer(sel: seq<Evidence>, i: nat)
    requires i < |sel| && Usable(sel[i]) && UsableOf(sel[..i]) != [] && sel[i].source != UsableOf(sel[..i])[0].source
    ensures !OneSource(UsableOf(sel))
  {
    UsablePrefix(sel, i + 1);
    assert sel[..i + 1][..i] == sel[..i];
    var used := UsableOf(sel[..i + 1]);
    assert used[|used| - 1] == sel[i] && used[0] == UsableOf(sel[..i])[0];
  }

  function OrderOf(fields: seq<string>, sel: seq<Evidence>): EqualityOrder
  {
    var used, counts := UsableOf(sel), EvidenceOf(sel);
    if |fields| <= 1 then Ordered(fields, "")
    else if !OneSource(used) || |counts| != |fields| then Undetermined
    else if CountedApart(fields, counts, |fields|) then
      Ordered(SortedByCount(fields, counts), if used == [] then "" else used[0].source)
    else if exists n: nat :: n < |fields| && fields[n] !in counts && CountedApart(fields, counts, n) then Panics
    else Undetermined
  }

  /** A determined order rearranges the fields by strictly increasing count, all counted by one source. */
  lemma OrderedByEvidence(fields: seq<string>, sel: seq<Evidence>)
    requires OrderOf(fields, sel).Ordered?
    ensures multiset(OrderOf(fields, sel).fields) == multiset(fields)
    ensures |fields| > 1 ==> ByCount(OrderOf(fields, sel).fields, EvidenceOf(sel)) && OneSource(UsableOf(sel))
  {
    if |fields| > 1 {
      SortedByCountOrders(fields, EvidenceOf(sel));
    }
  }

  lemma TwoCounts(x: Evidence, y: Evidence)
    requires Usable(x) && Usable(y)
    ensures UsableOf([x, y]) == [x, y]
        && EvidenceOf([x, y]) == map[x.field := x.distinct.value][y.field := y.distinct.value]
  {
    assert [x, y][..1] == [x] && [x][..0] == [];
    assert UsableOf([x]) == [x];
    assert CountsOf([x]) == map[x.field := x.distinct.value] by {
      var none: seq<Evidence> := [];
      assert CountsOf(none) == map[];
    }
  }

  /** The place of the first field without a count, or the number of fields. */
  function FirstUncounted(fields: seq<string>, counts: map<string, int>): (n: nat)
    ensures n <= |fields| && (forall i :: 0 <= i < n ==> fields[i] in counts)
    ensures n < |fields| ==> fields[n] !in counts
  {
    if fields == [] || fields[0] !in counts then 0 else 1 + FirstUncounted(fields[1..], counts)
  }

  predicate Distinct(fields: seq<string>) { forall i, j :: 0 <= i < j < |fields| ==> fields[i] != fields[j] }

  function Members(s: seq<string>): set<string> { set f | f in s }

  lemma {:induction false} DistinctMembers(fields: seq<string>)
    requires Distinct(fields)
    ensures |Members(fields)| == |fields|
  {
    if fields != [] {
      var n := |fields| - 1;
      DistinctMembers(fields[..n]);
      assert Members(fields) == Members(fields[..n]) + {fields[n]};
    }
  }

  lemma SubsetOfSameSize(a: set<string>, b: set<string>)
    requires a <= b && |a| == |b|
    ensures a == b
  {
    assert b == a + (b - a);
  }

  /** All of as many different fields as were counted are counted exactly when no other field was counted. */
  lemma AllCounted(fields: seq<string>, counts: map<string, int>)
    requires Distinct(fields) && |counts| == |fields|
    ensures FirstUncounted(fields, counts) == |fields| <==> counts.Keys == Members(fields)
  {
    DistinctMembers(fields);
    var n := FirstUncounted(fields, counts);
    if n == |fields| {
      SubsetOfSameSize(Members(fields), counts.Keys);
    } else {
      assert fields[n] in Members(fields);
    }
  }

  /**
   Ordering different fields dereferences nil exactly when one source counted as many
   fields, but not the same ones, and the counts before the first missing one differ.
   */
  lemma PanicsExact(fields: seq<string>, sel: seq<Evidence>)
    requires Distinct(fields)
    ensures OrderOf(fields, sel).Panics? <==>
              && |fields| > 1 && OneSource(UsableOf(sel)) && |EvidenceOf(sel)| == |fields|
              && EvidenceOf(sel).Keys != Members(fields)
              && CountedApart(fields, EvidenceOf(sel), FirstUncounted(fields, EvidenceOf(sel)))
  {
    var counts := EvidenceOf(sel);
    if |counts| == |fields| {
      AllCounted(fields, counts);
      if n: nat :| n < |fields| && fields[n] !in counts && CountedApart(fields, counts, n) {
        assert FirstUncounted(fields, counts) == n;
      }
    }
  }

  /** An input that does: fields a and b, with counts of one source for a and c. */
  lemma MissingEvidencePanics(x: Evidence, y: Evidence)
    requires Usable(x) && Usable(y) && x.source == y.source && x.field == "a" && y.field == "c"
    ensures OrderOf(["a", "b"], [x, y]) == Panics
  {
    TwoCounts(x, y);
    var counts := EvidenceOf([x, y]);
    assert |counts| == 2 by { assert counts.Keys == {"a", "c"}; }
    assert ["a", "b"][1] !in counts && CountedApart(["a", "b"], counts, 1);
  }

  /** What the loop over the evidence has gathered. */
  ghost predicate Gathered(sel: seq<Evidence>, byField: map<string, int>, source: string)
  {
    var used := UsableOf(sel);
    && OneSource(used) && byField == EvidenceOf(sel)
    && (if used == [] then source == "" else source == used[0].source && source != "")
  }

  lemma GatherSkips(sel: seq<Evidence>, i: nat, byField: map<string, int>, source: string)
    requires i < |sel| && Gathered(sel[..i], byField, source) && !Usable(sel[i])
    ensures Gathered(sel[..i + 1], byField, source)
  {
    assert sel[..i + 1][..i] == sel[..i];
  }

  lemma GatherNext(sel: seq<Evidence>, i: nat, byField: map<string, int>, source: string)
    requires i < |sel| && Gathered(sel[..i], byField, source) && Usable(sel[i])
        && (source == "" || sel[i].source == source)
    ensures Gathered(sel[..i + 1], byField[sel[i].field := sel[i].distinct.value], sel[i].source)
  {
    assert sel[..i + 1][..i] == sel[..i];
    var used := UsableOf(sel[..i + 1]);
    assert used[..|used| - 1] == UsableOf(sel[..i]);
  }

  method OrderEquality(fields: seq<string>, sel: seq<Evidence>) returns (r: EqualityOrder)
    ensures r == OrderOf(fields, sel)
  {
    if |fields| <= 1 {
      return Ordered(fields, "");
    }
    var byField: map<string, int>, source := map[], "";
    assert Gathered(sel[..0], byField, source);
    for i := 0 to |sel|
      invariant Gathered(sel[..i], byField, source)
    {
      var e := sel[i];
      if e.distinct.None? || TrimSpace(e.source) == "" {
        GatherSkips(sel, i, byField, source);
        continue;
      }
      if source == "" {
        source := e.source;
      }
      if e.source != source {
        SourcesDiffer(sel, i);
        return Undetermined;
      }
      GatherNext(sel, i, byField, if UsableOf(sel[..i]) == [] then "" else source);
      byField := byField[e.field := e.distinct.value];
    }
    assert sel[..|sel|] == sel;
    if |byField| != |fields| {
      return Undetermined;
    }
    r := ByUniqueCount(fields, byField, source);
  }

  /** The fields by count, unless two counts are equal or one is missing. */
  method ByUniqueCount(fields: seq<string>, byField: map<string, int>, source: string) returns (r: EqualityOrder)
    ensures r.Ordered? <==> CountedApart(fields, byField, |fields|)
    ensures r.Ordered? ==> r == Ordered(SortedByCount(fields, byField), source)
    ensures r.Panics? <==> exists n: nat :: n < |fields| && fields[n] !in byField && CountedApart(fields, byField, n)
  {
    var counts: set<int> := {};
    for i := 0 to |fields|
      invariant CountedApart(fields, byField, i)
      invariant counts == set j | 0 <= j < i :: byField[fields[j]]
    {
      if fields[i] !in byField {
        return Panics;
      }
      if byField[fields[i]] in counts {
        return Undetermined;
      }
      counts := counts + {byField[fields[i]]};
    }
    return Ordered(SortedByCount(fields, byField), source);
  }

  // ----------------------------------------------------------- the candidate plan

  /** The range field that is also a sort field; None when there are two of them. */
  function SortedRange(ranges: seq<string>, sortFields: set<string>, found: string): Option<string>
  {
    if ranges == [] then Some(found)
    else if ranges[0] !in sortFields then SortedRange(ranges[1..], sortFields, found)
    else if found != "" then None
    else SortedRange(ranges[1..], sortFields, ranges[0])
  }

  function Others(ranges: seq<string>, f: string): seq<string>
  {
    if ranges == [] then []
    else (if ranges[0] != f then [ranges[0]] else []) + Others(ranges[1..], f)
  }

  /** The range field to index and the ranges left over, or the reason there is none. */
  datatype RangeChoice = Chosen(field: string, residual: seq<string>) | TooMany(residual: seq<string>)

  function ChooseRange(ranges: seq<string>, sortFields: set<string>): RangeChoice
  {
    if |ranges| == 0 then Chosen("", [])
    else if |ranges| == 1 then Chosen(ranges[0], [])
    else
      match SortedRange(ranges, sortFields, "")
      case None => TooMany([])
      case Some(f) => if f == "" then TooMany(ranges) else Chosen(f, Others(ranges, f))
  }

  function FieldSet(keys: seq<KeySpec>): set<string> { set k | k in keys :: k.field }

  function EqualityKey(f: string): KeySpec { KeySpec(f, 1, "asc", Equality) }

  function EqualityKeys(order: seq<string>): (r: seq<KeySpec>)
    ensures |r| == |order| && forall i :: 0 <= i < |r| ==> r[i] == EqualityKey(order[i])
  {
    seq(|order|, i requires 0 <= i < |order| => EqualityKey(order[i]))
  }

  /** The sort keys on fields not seen before, as candidate keys. */
  function NewSortKeys(keys: seq<KeySpec>, seen: set<string>): seq<KeySpec>
  {
    if keys == [] then []
    else if keys[0].field in seen then NewSortKeys(keys[1..], seen)
    else [keys[0].(role := SortRole)] + NewSortKeys(keys[1..], seen + {keys[0].field})
  }

  function RangeKeys(rangeField: string, seen: set<string>): seq<KeySpec>
  {
    if rangeField != "" && rangeField !in seen then [KeySpec(rangeField, 1, "asc", RangeRole)] else []
  }

  function PlanKeys(order: seq<string>, sortKeys: seq<KeySpec>, rangeField: string): seq<KeySpec>
  {
    EqualityKeys(order) + NewSortKeys(sortKeys, Members(order))
      + RangeKeys(rangeField, Members(order) + FieldSet(sortKeys))
  }

  /** The plan; Err is the nil dereference of orderEquality. */
  function DerivePlan(p: Profile, sel: seq<Evidence>): Result<Plan>
  {
    var eq := SortStrings(p.equalityFields);
    var none := Plan(false, "", [], eq, [], p.unsupported, "");
    if p.unsupported != [] then Ok(none.(reason := "unsupported_pattern"))
    else if p.sortKeys != [] && !p.sortOrderKnown then
      Ok(none.(reason := "sort_key_order_undefined", unsupported := ["sort_key_order_undefined"]))
    else
      match ChooseRange(SortStrings(p.rangeFields), FieldSet(p.sortKeys))
      case TooMany(residual) => Ok(none.(reason := "multiple_ranges", residualRanges := residual))
      case Chosen(rangeField, residual) =>
        match OrderOf(eq, sel)
        case Panics => Err
        case Undetermined => Ok(none.(reason := "equality_order_undetermined", residualRanges := residual))
        case Ordered(order, source) =>
          Ok(none.(determined := true, reason := if source != "" then "selectivity" else "equality_sort_range",
                   keys := PlanKeys(order, p.sortKeys, rangeField), residualRanges := residual, source := source))
  }

  method ChooseRangeField(ranges: seq<string>, sortFields: set<string>) returns (r: RangeChoice)
    ensures r == ChooseRange(ranges, sortFields)
  {
    if |ranges| == 0 {
      return Chosen("", []);
    } else if |ranges| == 1 {
      return Chosen(ranges[0], []);
    }
    var sortedRange := "";
    for i := 0 to |ranges|
      invariant SortedRange(ranges, sortFields, "") == SortedRange(ranges[i..], sortFields, sortedRange)
    {
      if ranges[i] in sortFields {
        if sortedRange != "" {
          return TooMany([]);
        }
        sortedRange := ranges[i];
      }
    }
    if sortedRange == "" {
      return TooMany(ranges);
    }
    var residual: seq<string> := [];
    for i := 0 to |ranges|
      invariant residual + Others(ranges[i..], sortedRange) == Others(ranges, sortedRange)
    {
      if ranges[i] != sortedRange {
        residual := residual + [ranges[i]];
      }
    }
    return Chosen(sortedRange, residual);
  }

  /** The keys appended after i sort keys: what the rest adds completes the plan. */
  ghost predicate Appended(keys: seq<KeySpec>, seen: set<string>, order: seq<string>, sortKeys: seq<KeySpec>, i: nat)
    requires i <= |sortKeys|
  {
    && keys + NewSortKeys(sortKeys[i..], seen) == EqualityKeys(order) + NewSortKeys(sortKeys, Members(order))
    && seen == Members(order) + FieldSet(sortKeys[..i])
  }

  lemma AppendedNext(keys: seq<KeySpec>, seen: set<string>, order: seq<string>, sortKeys: seq<KeySpec>, i: nat)
    requires i < |sortKeys| && Appended(keys, seen, order, sortKeys, i)
    ensures var k := sortKeys[i];
            if k.field in seen then Appended(keys, seen, order, sortKeys, i + 1)
            else Appended(keys + [k.(role := SortRole)], seen + {k.field}, order, sortKeys, i + 1)
  {
    var k := sortKeys[i];
    assert sortKeys[..i + 1] == sortKeys[..i] + [k];
    assert FieldSet(sortKeys[..i + 1]) == FieldSet(sortKeys[..i]) + {k.field};
    assert sortKeys[i..][1..] == sortKeys[i + 1..];
    if k.field !in seen {
      var rest := NewSortKeys(sortKeys[i + 1..], seen + {k.field});
      assert keys + ([k.(role := SortRole)] + rest) == keys + [k.(role := SortRole)] + rest;
    }
  }

  lemma MembersNext(order: seq<string>, i: nat)
    requires i < |order|
    ensures Members(order[..i + 1]) == Members(order[..i]) + {order[i]}
  {
    assert order[..i + 1] == order[..i] + [order[i]];
  }

  method BuildKeys(order: seq<string>, sortKeys: seq<KeySpec>, rangeField: string) returns (keys: seq<KeySpec>)
    ensures keys == PlanKeys(order, sortKeys, rangeField)
  {
    var seen: set<string>;
    keys, seen := [], {};
    for i := 0 to |order|
      invariant keys == EqualityKeys(order)[..i] && seen == Members(order[..i])
    {
      MembersNext(order, i);
      keys, seen := keys + [EqualityKey(order[i])], seen + {order[i]};
    }
    assert order[..|order|] == order;
    for i := 0 to |sortKeys|
      invariant Appended(keys, seen, order, sortKeys, i)
    {
      var k := sortKeys[i];
      AppendedNext(keys, seen, order, sortKeys, i);
      if k.field in seen {
        continue;
      }
      keys, seen := keys + [k.(role := SortRole)], seen + {k.field};
    }
    assert sortKeys[..|sortKeys|] == sortKeys;
    if rangeField != "" && rangeField !in seen {
      keys := keys + [KeySpec(rangeField, 1, "asc", RangeRole)];
    }
  }

  method DeriveCandidate(p: Profile, sel: seq<Evidence>) returns (r: Result<Plan>)
    ensures r == DerivePlan(p, sel)
  {
    var plan := Plan(false, "", [], SortStrings(p.equalityFields), [], p.unsupported, "");
    if |plan.unsupported| > 0 {
      return Ok(plan.(reason := "unsupported_pattern"));
    }
    if |p.sortKeys| > 0 && !p.sortOrderKnown {
      assert plan.unsupported + ["sort_key_order_undefined"] == ["sort_key_order_undefined"];
      return Ok(plan.(reason := "sort_key_order_undefined",
        unsupported := plan.unsupported + ["sort_key_order_undefined"]));
    }
    var choice := ChooseRangeField(SortStrings(p.rangeFields), FieldSet(p.sortKeys));
    plan := plan.(residualRanges := choice.residual);
    if choice.TooMany? {
      return Ok(plan.(reason := "multiple_ranges"));
    }
    var order := OrderEquality(plan.equalityFields, sel);
    if order.Panics? {
      return Err;
    }
    if order.Undetermined? {
      return Ok(plan.(reason := "equality_order_undetermined"));
    }
    var keys := BuildKeys(order.fields, p.sortKeys, choice.field);
    return Ok(plan.(determined := true, keys := keys, source := order.source,
                    reason := if order.source != "" then "selectivity" else "equality_sort_range"));
  }

  /** The program itself passes no evidence, and then never dereferences nil. */
  lemma NoEvidenceNeverPanics(p: Profile)
    ensures DerivePlan(p, []).Ok?
    ensures DerivePlan(p, []).value.determined ==> |p.equalityFields| <= 1
  {
    var eq := SortStrings(p.equalityFields);
    SortStringsElements(p.equalityFields);
    assert EvidenceOf([]) == map[];
  }
}
