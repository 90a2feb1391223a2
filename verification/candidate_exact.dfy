/**
 Exactly when a profile has a determined candidate plan (orderEquality and deriveCandidate
 in internal/stats/index_advice.go), said of the evidence and the profile's fields.
 */
module CandidateExact {
  import opened Wrappers
  import opened Text
  import opened IndexAdvice

  // ---------------------------------------------------------------- the evidence

  /** The count of a field is that of the last usable evidence for it. */
  ghost predicate LastCount(sel: seq<Evidence>, f: string, i: nat)
  {
    && i < |sel| && Usable(sel[i]) && sel[i].field == f
    && forall j :: i < j < |sel| && sel[j].field == f ==> !Usable(sel[j])
  }

  lemma EvidenceNext(sel: seq<Evidence>)
    requires sel != []
    ensures var n := |sel| - 1;
            EvidenceOf(sel) == if Usable(sel[n]) then EvidenceOf(sel[..n])[sel[n].field := sel[n].distinct.value]
                               else EvidenceOf(sel[..n])
  {
    var n := |sel| - 1;
    if Usable(sel[n]) {
      assert UsableOf(sel)[..|UsableOf(sel)| - 1] == UsableOf(sel[..n]);
    }
  }

  /** The evidence counts the field as at i, or has nothing usable for it. */
  ghost predicate Counted(sel: seq<Evidence>, f: string, i: nat)
  {
    if f in EvidenceOf(sel) then LastCount(sel, f, i) && EvidenceOf(sel)[f] == sel[i].distinct.value
    else forall j :: 0 <= j < |sel| && sel[j].field == f ==> !Usable(sel[j])
  }

  lemma CountedNext(sel: seq<Evidence>, f: string, i: nat)
    requires sel != [] && Counted(sel[..|sel| - 1], f, i)
    ensures var n := |sel| - 1; Counted(sel, f, if Usable(sel[n]) && sel[n].field == f then n else i)
  {
    var n := |sel| - 1;
    EvidenceNext(sel);
    assert forall j :: 0 <= j < n ==> sel[..n][j] == sel[j];
  }

  lemma {:induction false} EvidenceExact(sel: seq<Evidence>, f: string) returns (i: nat)
    ensures Counted(sel, f, i)
  {
    if sel == [] {
      i := 0;
      assert EvidenceOf(sel) == map[];
    } else {
      var n := |sel| - 1;
      i := EvidenceExact(sel[..n], f);
      CountedNext(sel, f, i);
      if Usable(sel[n]) && sel[n].field == f {
        i := n;
      }
    }
  }

  /** All usable evidence has one source. */
  ghost predicate SingleSource(sel: seq<Evidence>)
  {
    forall i, j :: 0 <= i < |sel| && 0 <= j < |sel| && Usable(sel[i]) && Usable(sel[j]) ==>
      sel[i].source == sel[j].source
  }

  lemma {:induction false} UsableMembers(sel: seq<Evidence>, x: Evidence)
    ensures x in UsableOf(sel) <==> x in sel && Usable(x)
  {
    if sel != [] {
      UsableMembers(sel[..|sel| - 1], x);
      assert sel == sel[..|sel| - 1] + [sel[|sel| - 1]];
    }
  }

  lemma SourcesExact(sel: seq<Evidence>)
    ensures OneSource(UsableOf(sel)) <==> SingleSource(sel)
  {
    var used := UsableOf(sel);
    if OneSource(used) {
      forall i, j | 0 <= i < |sel| && 0 <= j < |sel| && Usable(sel[i]) && Usable(sel[j])
        ensures sel[i].source == sel[j].source
      {
        UsableMembers(sel, sel[i]);
        UsableMembers(sel, sel[j]);
      }
    }
    if SingleSource(sel) {
      forall i | 0 <= i < |used|
        ensures used[i].source == used[0].source
      {
        UsableMembers(sel, used[i]);
        UsableMembers(sel, used[0]);
      }
    }
  }

  /** One source counted exactly these fields, all differently. */
  ghost predicate Separates(sel: seq<Evidence>, fields: seq<string>)
  {
    && SingleSource(sel) && EvidenceOf(sel).Keys == Members(fields)
    && forall f, g :: f in fields && g in fields && f != g ==> EvidenceOf(sel)[f] != EvidenceOf(sel)[g]
  }

  lemma ApartExact(fields: seq<string>, counts: map<string, int>)
    requires Distinct(fields) && counts.Keys == Members(fields)
    ensures CountedApart(fields, counts, |fields|) <==>
              forall f, g :: f in fields && g in fields && f != g ==> counts[f] != counts[g]
  {
    assert forall f :: f in fields ==> f in counts;
  }

  /** Different fields have an order exactly when there is at most one or one source separates them. */
  lemma OrderedExact(fields: seq<string>, sel: seq<Evidence>)
    requires Distinct(fields)
    ensures OrderOf(fields, sel).Ordered? <==> |fields| <= 1 || Separates(sel, fields)
  {
    var counts := EvidenceOf(sel);
    SourcesExact(sel);
    DistinctMembers(fields);
    if counts.Keys == Members(fields) {
      assert |counts| == |counts.Keys|;
      ApartExact(fields, counts);
    }
    if |counts| == |fields| && CountedApart(fields, counts, |fields|) {
      SubsetOfSameSize(Members(fields), counts.Keys);
    }
  }

  // -------------------------------------------------------------------- the range

  ghost predicate SortedOn(sortFields: set<string>, ranges: seq<string>, f: string)
  {
    f in ranges && f in sortFields && f != ""
  }

  /** f is the only range field that is sorted on. */
  ghost predicate OnlySorted(sortFields: set<string>, ranges: seq<string>, f: string)
  {
    SortedOn(sortFields, ranges, f) && forall g :: SortedOn(sortFields, ranges, g) ==> g == f
  }

  /** Once a range field is found, another one is one too many. */
  lemma {:induction false} AnotherSorted(ranges: seq<string>, sortFields: set<string>, found: string)
    requires "" !in ranges && found != ""
    ensures SortedRange(ranges, sortFields, found)
            == if exists g :: SortedOn(sortFields, ranges, g) then None else Some(found)
  {
    if ranges != [] {
      var rest := ranges[1..];
      assert ranges == [ranges[0]] + rest;
      if ranges[0] in sortFields {
        assert SortedOn(sortFields, ranges, ranges[0]);
      } else {
        AnotherSorted(rest, sortFields, found);
        assert forall g :: SortedOn(sortFields, ranges, g) <==> SortedOn(sortFields, rest, g);
      }
    }
  }

  /** The range field that is found, when looking for the only one that is sorted on. */
  lemma {:induction false} SortedRangeExact(ranges: seq<string>, sortFields: set<string>, f: string)
    requires Distinct(ranges) && "" !in ranges
    ensures SortedRange(ranges, sortFields, "") == Some(f) <==>
              if f == "" then forall g :: !SortedOn(sortFields, ranges, g) else OnlySorted(sortFields, ranges, f)
  {
    if ranges != [] {
      var head, rest := ranges[0], ranges[1..];
      assert ranges == [head] + rest;
      if head in sortFields {
        HeadSorted(head, rest, sortFields, f);
      } else {
        SortedRangeExact(rest, sortFields, f);
        assert forall g :: SortedOn(sortFields, ranges, g) <==> SortedOn(sortFields, rest, g);
      }
    }
  }

  lemma HeadSorted(head: string, rest: seq<string>, sortFields: set<string>, f: string)
    requires head in sortFields && head != "" && "" !in rest && head !in rest
    ensures SortedRange(rest, sortFields, head) == Some(f) <==> f != "" && OnlySorted(sortFields, [head] + rest, f)
    ensures SortedOn(sortFields, [head] + rest, head)
  {
    var all := [head] + rest;
    AnotherSorted(rest, sortFields, head);
    assert forall g :: SortedOn(sortFields, all, g) <==> g == head || SortedOn(sortFields, rest, g);
    if g :| SortedOn(sortFields, rest, g) {
      assert SortedOn(sortFields, all, g) && SortedOn(sortFields, all, head) && g != head;
    }
  }

  lemma {:induction false} OthersExact(ranges: seq<string>, f: string, g: string)
    ensures g in Others(ranges, f) <==> g in ranges && g != f
  {
    if ranges != [] {
      OthersExact(ranges[1..], f, g);
      assert ranges == [ranges[0]] + ranges[1..];
    }
  }

  lemma EmptyFirst(rest: seq<string>, sortFields: set<string>, f: string)
    ensures SortedRange([""] + rest, sortFields, "") == SortedRange(rest, sortFields, "")
    ensures SortedOn(sortFields, [""] + rest, f) <==> SortedOn(sortFields, rest, f)
  {
    assert ([""] + rest)[1..] == rest;
  }

  /** With the empty field, if there is one, in the first place. */
  lemma SortedRangeFound(ranges: seq<string>, sortFields: set<string>, f: string)
    requires Distinct(ranges) && (ranges != [] ==> "" !in ranges[1..])
    ensures SortedRange(ranges, sortFields, "") == Some(f) <==>
              if f == "" then forall g :: !SortedOn(sortFields, ranges, g) else OnlySorted(sortFields, ranges, f)
  {
    if ranges != [] && ranges[0] == "" {
      SortedRangeExact(ranges[1..], sortFields, f);
      assert ranges == [""] + ranges[1..];
      forall g
        ensures SortedOn(sortFields, ranges, g) <==> SortedOn(sortFields, ranges[1..], g)
      {
        EmptyFirst(ranges[1..], sortFields, g);
      }
      EmptyFirst(ranges[1..], sortFields, f);
    } else {
      assert ranges != [] ==> ranges == [ranges[0]] + ranges[1..];
      SortedRangeExact(ranges, sortFields, f);
    }
  }

  /**
   A range field is chosen exactly when there is at most one or one only is sorted on, and
   it is that one; the other range fields are left over.
   */
  lemma ChooseRangeExact(ranges: seq<string>, sortFields: set<string>, f: string, g: string)
    requires Distinct(ranges) && (ranges != [] ==> "" !in ranges[1..])
    ensures var r := ChooseRange(ranges, sortFields);
            && (r.Chosen? && r.field == f <==>
                  if |ranges| == 0 then f == ""
                    else ranges == [f] || (|ranges| > 1 && OnlySorted(sortFields, ranges, f)))
            && (r.Chosen? ==> (g in r.residual <==> g in ranges && g != r.field))
  {
    SortedRangeFound(ranges, sortFields, f);
    if |ranges| > 1 {
      if SortedRange(ranges, sortFields, "").Some? {
        OthersExact(ranges, SortedRange(ranges, sortFields, "").value, g);
      }
    } else if |ranges| == 1 {
      assert ranges == [ranges[0]];
    }
  }

  // --------------------------------------------------------------------- the plan

  lemma DistinctExact(s: seq<string>)
    ensures Distinct(s) <==> forall f :: multiset(s)[f] <= 1
  {
    if !Distinct(s) {
      var i, j :| 0 <= i < j < |s| && s[i] == s[j];
      Twice(s, i, j);
    } else {
      forall f
        ensures multiset(s)[f] <= 1
      {
        OnceOnly(s, f);
      }
    }
  }

  lemma Twice(s: seq<string>, i: nat, j: nat)
    requires i < j < |s| && s[i] == s[j]
    ensures multiset(s)[s[i]] >= 2
  {
    assert s == s[..j] + s[j..];
    assert s[i] in s[..j] && s[j] in s[j..];
  }

  lemma {:induction false} OnceOnly(s: seq<string>, f: string)
    requires Distinct(s)
    ensures multiset(s)[f] <= 1
  {
    if s != [] {
      OnceOnly(s[1..], f);
      assert s == [s[0]] + s[1..];
      if f == s[0] {
        assert f !in s[1..] && f !in multiset(s[1..]);
      }
    }
  }

  /** The first of sorted strings is the least. */
  lemma {:induction false} InsertedFirst(x: string, s: seq<string>)
    requires forall y :: y in s ==> StringLe(s[0], y)
    ensures forall y :: y in InsertString(x, s) ==> StringLe(InsertString(x, s)[0], y)
  {
    StringLeTotal(x, x);
    if s != [] && StringLe(x, s[0]) {
      forall y | y in s
        ensures StringLe(x, y)
      {
        StringLeTransitive(x, s[0], y);
      }
    } else if s != [] {
      StringLeTotal(x, s[0]);
      InsertStringElements(x, s[1..]);
      forall y | y in InsertString(x, s)
        ensures StringLe(s[0], y)
      {
        InsertedMember(x, s, y);
      }
    }
  }

  lemma InsertedMember(x: string, s: seq<string>, y: string)
    ensures y in InsertString(x, s) <==> y == x || y in s
  {
    InsertStringElements(x, s);
    assert y in InsertString(x, s) <==> y in multiset(InsertString(x, s));
  }

  lemma {:induction false} SortedFirst(s: seq<string>)
    ensures forall y :: y in SortStrings(s) ==> StringLe(SortStrings(s)[0], y)
  {
    if s != [] {
      SortedFirst(s[1..]);
      InsertedFirst(s[0], SortStrings(s[1..]));
    }
  }

  /** Sorted different strings are different, with the empty one in the first place. */
  lemma SortedDistinct(s: seq<string>)
    requires Distinct(s)
    ensures var t := SortStrings(s); Distinct(t) && |t| == |s| && (t != [] ==> "" !in t[1..])
  {
    var t := SortStrings(s);
    SortStringsElements(s);
    DistinctExact(s);
    DistinctExact(t);
    SortedFirst(s);
    forall j | 1 <= j < |t|
      ensures t[j] != ""
    {
      assert t[j] in t && t[0] != t[j];
      StringLeTotal(t[0], t[j]);
    }
  }

  /** At most one range field, or only one that is sorted on. */
  ghost predicate OneRange(p: Profile)
  {
    |p.rangeFields| <= 1 || exists f :: OnlySorted(FieldSet(p.sortKeys), p.rangeFields, f)
  }

  /** At most one equality field, or one source of evidence that separates them. */
  ghost predicate OneOrder(p: Profile, sel: seq<Evidence>)
  {
    |p.equalityFields| <= 1 || Separates(sel, p.equalityFields)
  }

  lemma SeparatesSame(sel: seq<Evidence>, a: seq<string>, b: seq<string>)
    requires forall f :: f in a <==> f in b
    ensures Separates(sel, a) <==> Separates(sel, b)
  {
    assert Members(a) == Members(b);
  }

  lemma SortedSame(s: seq<string>)
    ensures forall f :: f in SortStrings(s) <==> f in s
  {
    SortStringsElements(s);
    forall f
      ensures f in SortStrings(s) <==> f in s
    {
      assert (f in s <==> f in multiset(s)) && (f in SortStrings(s) <==> f in multiset(SortStrings(s)));
    }
  }

  lemma RangeExact(p: Profile)
    requires Distinct(p.rangeFields)
    ensures ChooseRange(SortStrings(p.rangeFields), FieldSet(p.sortKeys)).Chosen? <==> OneRange(p)
  {
    var ranges, sortFields := SortStrings(p.rangeFields), FieldSet(p.sortKeys);
    SortedDistinct(p.rangeFields);
    SortedSame(p.rangeFields);
    assert forall f :: SortedOn(sortFields, ranges, f) <==> SortedOn(sortFields, p.rangeFields, f);
    assert forall f :: OnlySorted(sortFields, ranges, f) <==> OnlySorted(sortFields, p.rangeFields, f);
    var r := ChooseRange(ranges, sortFields);
    if r.Chosen? {
      ChooseRangeExact(ranges, sortFields, r.field, "");
    }
    if f :| OnlySorted(sortFields, ranges, f) {
      ChooseRangeExact(ranges, sortFields, f, "");
    }
  }

  /**
   A plan is determined exactly when every clause is supported, the sort order is known, at
   most one range field remains to be chosen and the equality fields have one order. With
   everything but the order it is undetermined for that reason.
   */
  lemma DeterminedExact(p: Profile, sel: seq<Evidence>)
    requires Distinct(p.equalityFields) && Distinct(p.rangeFields) && DerivePlan(p, sel).Ok?
    ensures var plan := DerivePlan(p, sel).value;
            var clear := p.unsupported == [] && (p.sortKeys == [] || p.sortOrderKnown) && OneRange(p);
            && (plan.determined <==> clear && OneOrder(p, sel))
            && (!plan.determined && plan.reason == "equality_order_undetermined" <==> clear && !OneOrder(p, sel))
  {
    var eq := SortStrings(p.equalityFields);
    RangeExact(p);
    SortedDistinct(p.equalityFields);
    SortedSame(p.equalityFields);
    OrderedExact(eq, sel);
    SeparatesSame(sel, eq, p.equalityFields);
  }

  /** Several fields are ordered by evidence, which has a source. */
  lemma SourceNamed(fields: seq<string>, sel: seq<Evidence>)
    requires OrderOf(fields, sel).Ordered?
    ensures OrderOf(fields, sel).source != "" <==> |fields| > 1
  {
    if |fields| > 1 {
      UsableAll(sel);
      var used := UsableOf(sel);
      assert used != [] by {
        assert CountsOf([]) == map[];
      }
      assert Usable(used[0]);
      assert TrimSpace("") == "";
    }
  }

  /** A determined plan is put down to selectivity exactly when there were several equality fields to order. */
  lemma SelectivityExact(p: Profile, sel: seq<Evidence>)
    requires DerivePlan(p, sel).Ok? && DerivePlan(p, sel).value.determined
    ensures DerivePlan(p, sel).value.reason == "selectivity" <==> |p.equalityFields| > 1
  {
    SortStringsElements(p.equalityFields);
    SourceNamed(SortStrings(p.equalityFields), sel);
  }
}
