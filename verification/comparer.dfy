/**
 The streaming comparison of two outcome files (internal/replaycompare/compare.go):
 a hash join over operation keys with per-shape accumulators and a bounded buffer of
 differing operations. CompareFiles is proved to compute what CompareSpec defines.
 */
module Comparer {
  import opened Wrappers
  import opened Outcomes
  import opened MapTotals
  import opened CompareSpec

  // ------------------------------------------------- the bounded diff buffer

  function BufferLimit(topN: nat): nat { 4 * topN + 64 }

  /** sort.Slice by key; the keys of a buffer are distinct, so the result is determined. */
  function Insert(x: KeyedDiff, s: seq<KeyedDiff>): seq<KeyedDiff>
  {
    if s == [] || Less(x.key, s[0].key) then [x] + s else [s[0]] + Insert(x, s[1..])
  }

  function Sorted(s: seq<KeyedDiff>): seq<KeyedDiff>
  {
    if s == [] then [] else Insert(s[0], Sorted(s[1..]))
  }

  function TrimmedDiffs(s: seq<KeyedDiff>, topN: nat): seq<KeyedDiff>
  {
    var t := Sorted(s);
    if |t| > topN then t[..topN] else t
  }

  ghost predicate DistinctKeys(s: seq<KeyedDiff>) { forall i, j :: 0 <= i < j < |s| ==> s[i].key != s[j].key }

  lemma {:induction false} InsertElements(x: KeyedDiff, s: seq<KeyedDiff>)
    ensures multiset(Insert(x, s)) == multiset(s) + multiset{x} && |Insert(x, s)| == |s| + 1
  {
    if s == [] || Less(x.key, s[0].key) {
      assert multiset([x] + s) == multiset{x} + multiset(s);
    } else {
      InsertElements(x, s[1..]);
      assert s == [s[0]] + s[1..];
    }
  }

  lemma {:induction false} InsertSorted(x: KeyedDiff, s: seq<KeyedDiff>)
    requires Increasing(s) && forall i :: 0 <= i < |s| ==> s[i].key != x.key
    ensures Increasing(Insert(x, s))
    ensures |Insert(x, s)| == |s| + 1
    ensures multiset(Insert(x, s)) == multiset(s) + multiset{x}
  {
    InsertElements(x, s);
    if s != [] && !Less(x.key, s[0].key) {
      InsertSorted(x, s[1..]);
      InsertedAfter(x, s);
    }
  }

  /** What is behind the first element of an insertion into the rest comes after it. */
  lemma InsertedAfter(x: KeyedDiff, s: seq<KeyedDiff>)
    requires s != [] && Increasing(s) && Less(s[0].key, x.key)
    ensures forall i :: 0 <= i < |Insert(x, s[1..])| ==> Less(s[0].key, Insert(x, s[1..])[i].key)
  {
    var t := Insert(x, s[1..]);
    InsertElements(x, s[1..]);
    forall i | 0 <= i < |t|
      ensures Less(s[0].key, t[i].key)
    {
      assert t[i] in multiset(t);
      assert t[i] in s[1..] || t[i] == x;
    }
  }

  lemma {:induction false} SortedIsSorted(s: seq<KeyedDiff>)
    requires DistinctKeys(s)
    ensures Increasing(Sorted(s)) && |Sorted(s)| == |s| && multiset(Sorted(s)) == multiset(s)
  {
    if s != [] {
      var t := Sorted(s[1..]);
      SortedIsSorted(s[1..]);
      assert s == [s[0]] + s[1..];
      forall i | 0 <= i < |t|
        ensures t[i].key != s[0].key
      {
        assert t[i] in multiset(s[1..]);
      }
      InsertSorted(s[0], t);
    }
  }

  lemma SameElements(s: seq<KeyedDiff>, t: seq<KeyedDiff>)
    requires multiset(s) == multiset(t)
    ensures KeysOf(s) == KeysOf(t) && forall x :: x in s <==> x in t
  {
    forall x
      ensures x in s <==> x in t
    {
      assert (x in s <==> x in multiset(s)) && (x in t <==> x in multiset(t));
    }
    forall k
      ensures k in KeysOf(s) <==> k in KeysOf(t)
    {
      if k in KeysOf(s) {
        var i :| 0 <= i < |s| && s[i].key == k;
        assert s[i] in t;
      }
      if k in KeysOf(t) {
        var i :| 0 <= i < |t| && t[i].key == k;
        assert t[i] in s;
      }
    }
  }

  /**
   The buffer lost nothing that matters: either nothing was dropped from all, or kept are
   topN keys still in the buffer, each below every dropped key.
   */
  ghost predicate Retains(buf: seq<KeyedDiff>, all: map<Key, OpDiff>, kept: set<Key>, topN: nat)
  {
    && DistinctKeys(buf)
    && (forall x :: x in buf ==> x.key in all && all[x.key] == x.diff)
    && kept <= KeysOf(buf)
    && (forall d :: d in all && d !in KeysOf(buf) ==> |kept| == topN)
    && (forall d, k :: d in all && d !in KeysOf(buf) && k in kept ==> Less(k, d))
  }

  lemma AppendRetains(buf: seq<KeyedDiff>, all: map<Key, OpDiff>, kept: set<Key>, topN: nat, x: KeyedDiff)
    requires Retains(buf, all, kept, topN) && x.key !in all
    ensures Retains(buf + [x], all[x.key := x.diff], kept, topN)
  {
    var b := buf + [x];
    assert KeysOf(b) == KeysOf(buf) + {x.key} by {
      assert b[|buf|] == x;
      assert forall i :: 0 <= i < |buf| ==> b[i] == buf[i];
    }
    assert forall i :: 0 <= i < |buf| ==> buf[i] in buf;
  }

  /** Of two sets of one size, an element of the first that the second lacks has a counterpart. */
  lemma Counterpart(a: set<Key>, b: set<Key>, x: Key) returns (y: Key)
    requires |a| == |b| && x in a && x !in b
    ensures y in b && y !in a
  {
    if b <= a {
      SameSize(a, b);
      assert false;
    }
    y :| y in b && y !in a;
  }

  lemma TrimmedElements(buf: seq<KeyedDiff>, topN: nat)
    requires DistinctKeys(buf)
    ensures Increasing(TrimmedDiffs(buf, topN)) && forall x :: x in TrimmedDiffs(buf, topN) ==> x in buf
  {
    SortedIsSorted(buf);
    SameElements(Sorted(buf), buf);
    assert forall x :: x in TrimmedDiffs(buf, topN) ==> x in Sorted(buf);
  }

  /** Trimming keeps the topN smallest keys of everything ever added. */
  lemma TrimRetains(buf: seq<KeyedDiff>, all: map<Key, OpDiff>, kept: set<Key>, topN: nat)
    requires Retains(buf, all, kept, topN)
    ensures IsTop(TrimmedDiffs(buf, topN), all, topN)
    ensures Retains(TrimmedDiffs(buf, topN), all, KeysOf(TrimmedDiffs(buf, topN)), topN)
  {
    var t := TrimmedDiffs(buf, topN);
    TrimmedElements(buf, topN);
    CountKept(buf, all, kept, topN);
    DistinctSize(t);
    forall d, k | d in all && d !in KeysOf(t) && k in KeysOf(t)
      ensures Less(k, d)
    {
      TrimmedBelow(buf, all, kept, topN, k, d);
    }
    forall i | 0 <= i < |t|
      ensures t[i].key in all && all[t[i].key] == t[i].diff && t[i].key in KeysOf(t)
    {
      assert t[i] in t;
    }
    if d :| d in all && d !in KeysOf(t) {
      ProperSubset(KeysOf(t), all.Keys, d);
    }
  }

  lemma ProperSubset(a: set<Key>, b: set<Key>, d: Key)
    requires a <= b && d in b && d !in a
    ensures |a| < |b|
  {
    assert b == a + (b - a) && d in b - a;
  }

  /** A key of the buffer that was trimmed away is above every key that was kept. */
  lemma TrimmedAbove(buf: seq<KeyedDiff>, topN: nat, k: Key, d: Key)
    requires DistinctKeys(buf) && d in KeysOf(buf)
    requires d !in KeysOf(TrimmedDiffs(buf, topN)) && k in KeysOf(TrimmedDiffs(buf, topN))
    ensures Less(k, d) && k in KeysOf(buf)
  {
    var s, t := Sorted(buf), TrimmedDiffs(buf, topN);
    SortedIsSorted(buf);
    SameElements(s, buf);
    var i :| 0 <= i < |t| && t[i].key == k;
    assert forall j :: 0 <= j < |t| ==> s[j] == t[j] && s[j].key in KeysOf(t);
    var j :| 0 <= j < |s| && s[j].key == d;
    assert k in KeysOf(s);
  }

  lemma TrimmedBelow(buf: seq<KeyedDiff>, all: map<Key, OpDiff>, kept: set<Key>, topN: nat, k: Key, d: Key)
    requires Retains(buf, all, kept, topN)
    requires d in all && d !in KeysOf(TrimmedDiffs(buf, topN)) && k in KeysOf(TrimmedDiffs(buf, topN))
    ensures Less(k, d)
  {
    var t := TrimmedDiffs(buf, topN);
    if d in KeysOf(buf) {
      TrimmedAbove(buf, topN, k, d);
    } else if k !in kept {
      SubsetSize(kept, KeysOf(buf));
      CountKept(buf, all, kept, topN);
      TrimmedElements(buf, topN);
      DistinctSize(t);
      SubsetSize(KeysOf(buf), all.Keys);
      var y := Counterpart(KeysOf(t), kept, k);
      TrimmedAbove(buf, topN, k, y);
      assert Less(y, d);
    }
  }

  lemma SubsetSize(a: set<Key>, b: set<Key>)
    requires a <= b
    ensures |a| <= |b|
  {
    assert b == a + (b - a);
  }

  /** The trimmed list is as long as it should be. */
  lemma CountKept(buf: seq<KeyedDiff>, all: map<Key, OpDiff>, kept: set<Key>, topN: nat)
    requires Retains(buf, all, kept, topN)
    ensures |TrimmedDiffs(buf, topN)| == if |all| < topN then |all| else topN
  {
    SortedIsSorted(buf);
    DistinctSize(buf);
    assert KeysOf(buf) <= all.Keys;
    SubsetSize(KeysOf(buf), all.Keys);
    SubsetSize(kept, KeysOf(buf));
    if all.Keys <= KeysOf(buf) {
      assert all.Keys == KeysOf(buf);
    } else {
      var d :| d in all && d !in KeysOf(buf);
      assert |kept| == topN;
    }
  }

  // ------------------------------------------------------- shape accumulators

  type ShapeAcc = Acc<ShapeRef, Counts>

  /** An operation of A kept until B's line for it arrives; shape is an index. */
  datatype Kept = Kept(line: Line, shape: nat)

  const COUNT_A: Counts := ZERO.(opsA := 1)

  lemma NoEntries(m: Entries, r: ShapeRef)
    requires forall k :: k in m ==> m[k].shape != r
    ensures ShapeTotal(m, r) == ZERO
  {
    assert OfShape(m, r) == map[];
  }

  const COUNT_B: Counts := ZERO.(opsB := 1)
  const MISSED_IN_B: Counts := ZERO.(missingInB := 1, differing := 1)

  ghost predicate HoldsTotal(acc: ShapeAcc, m: Entries) { acc.t == ShapeTotal(m, acc.cls) }

  ghost predicate CountedIn(shapes: seq<ShapeAcc>, m: Entries) {
    forall i {:trigger HoldsTotal(shapes[i], m)} :: 0 <= i < |shapes| ==> HoldsTotal(shapes[i], m)
  }

  lemma CountedIsAccumulated(shapes: seq<ShapeAcc>, m: Entries)
    ensures CountedIn(shapes, m) <==> Accumulates(shapes, m, ShapeOf, CountsOf, SUM)
  {
    forall i | 0 <= i < |shapes|
      ensures HoldsTotal(shapes[i], m) <==> shapes[i].t == ClassTotal(m, ShapeOf, shapes[i].cls, CountsOf, SUM)
    {
      ShapeTotalIsTotal(m, shapes[i].cls);
    }
  }

  /** Accumulator i is increased by c. */
  function Bump(shapes: seq<ShapeAcc>, i: nat, c: Counts): seq<ShapeAcc>
    requires i < |shapes|
  {
    shapes[i := shapes[i].(t := Add(shapes[i].t, c))]
  }

  lemma CountedNew(shapes: seq<ShapeAcc>, m: Entries, k: Key, i: nat, c: Counts)
    requires i < |shapes| && k !in m && CountedIn(shapes, m) && DistinctAccs(shapes)
    ensures CountedIn(Bump(shapes, i, c), m[k := Entry(shapes[i].cls, c)])
  {
    AddIsLawful();
    CountedIsAccumulated(shapes, m);
    CountedIsAccumulated(Bump(shapes, i, c), m[k := Entry(shapes[i].cls, c)]);
    AccumulateNew(shapes, i, m, k, Entry(shapes[i].cls, c), ShapeOf, CountsOf, SUM);
  }

  /** The number of A's operations in an accumulator covers the operation about to leave it. */
  lemma HasA(shapes: seq<ShapeAcc>, m: Entries, k: Key, i: nat)
    requires i < |shapes| && CountedIn(shapes, m) && k in m && m[k] == Entry(shapes[i].cls, COUNT_A)
    ensures shapes[i].t == Add(COUNT_A, ShapeTotal(m - {k}, shapes[i].cls))
  {
    assert HoldsTotal(shapes[i], m);
    AddIsLawful();
    ShapeTotalIsTotal(m, shapes[i].cls);
    ShapeTotalIsTotal(m - {k}, shapes[i].cls);
    ClassTotalRemove(m, k, ShapeOf, shapes[i].cls, CountsOf, SUM);
  }

  lemma HasOps(shapes: seq<ShapeAcc>, m: Entries, k: Key, i: nat)
    requires i < |shapes| && CountedIn(shapes, m) && k in m && m[k] == Entry(shapes[i].cls, COUNT_A)
    ensures shapes[i].t.opsA >= 1
  {
    HasA(shapes, m, k, i);
  }

  lemma CountedMatched(shapes: seq<ShapeAcc>, after: seq<ShapeAcc>, m: Entries, k: Key, i: nat, j: nat, c: Counts)
    requires i < |shapes| && j < |shapes| == |after| && CountedIn(shapes, m) && DistinctAccs(shapes)
    requires k in m && m[k] == Entry(shapes[i].cls, COUNT_A)
    requires forall x :: 0 <= x < |shapes| ==> after[x].cls == shapes[x].cls
    requires forall x :: 0 <= x < |shapes| && x != i && x != j ==> after[x].t == shapes[x].t
    requires i != j ==> Add(COUNT_A, after[i].t) == shapes[i].t
    requires after[j].t == if i == j then Add(Add(shapes[j].t, COUNT_B), c)
        else Add(Add(Add(shapes[j].t, COUNT_B), COUNT_A), c)
    ensures CountedIn(after, m[k := Entry(shapes[j].cls, Add(BOTH, c))])
  {
    var e := Entry(shapes[j].cls, Add(BOTH, c));
    AddIsLawful();
    HasA(shapes, m, k, i);
    ShapeTotalIsTotal(m, shapes[j].cls);
    ShapeTotalIsTotal(m - {k}, shapes[j].cls);
    ShapeTotalIsTotal(m - {k}, shapes[i].cls);
    CountedIsAccumulated(shapes, m);
    CountedIsAccumulated(after, m[k := e]);
    ClassTotalRemove(m, k, ShapeOf, shapes[j].cls, CountsOf, SUM);
    var rest := ShapeTotal(m - {k}, shapes[j].cls);
    if i == j {
      MatchedInPlace(rest, c);
    } else {
      MatchedMoved(rest, c);
      AddInjective(after[i].t, ShapeTotal(m - {k}, shapes[i].cls));
    }
    AccumulateChanged(shapes, after, i, j, m, k, e, ShapeOf, CountsOf, SUM);
  }

  lemma AddInjective(x: Counts, y: Counts)
    requires Add(COUNT_A, x) == Add(COUNT_A, y)
    ensures x == y
  {
    var ax, ay := Add(COUNT_A, x), Add(COUNT_A, y);
    assert ax.errorsOnlyA == x.errorsOnlyA && ay.errorsOnlyA == y.errorsOnlyA;
    assert ax.errorsOnlyB == x.errorsOnlyB && ay.errorsOnlyB == y.errorsOnlyB;
    assert ax.latA == x.latA && ay.latA == y.latA && ax.latB == x.latB && ay.latB == y.latB;
  }

  lemma MatchedInPlace(rest: Counts, c: Counts)
    ensures Add(Add(Add(COUNT_A, rest), COUNT_B), c) == Add(Add(BOTH, c), rest)
  {
    assert Add(Add(COUNT_A, rest), COUNT_B) == Add(BOTH, rest) by { assert rest.latA + multiset{} == rest.latA; }
    AddLaws(BOTH, rest, c);
    AddLaws(BOTH, c, rest);
    AddCommutes(rest, c);
  }

  lemma MatchedMoved(rest: Counts, c: Counts)
    ensures Add(Add(Add(rest, COUNT_B), COUNT_A), c) == Add(Add(BOTH, c), rest)
  {
    assert Add(Add(rest, COUNT_B), COUNT_A) == Add(BOTH, rest) by { assert rest.latA + multiset{} == rest.latA; }
    AddLaws(BOTH, rest, c);
    AddLaws(BOTH, c, rest);
    AddCommutes(rest, c);
  }

  lemma AddCommutes(x: Counts, y: Counts)
    ensures Add(x, y) == Add(y, x)
  {
  }

  ghost predicate Points(shapes: seq<ShapeAcc>, idx: map<ShapeRef, nat>, r: ShapeRef) {
    r in idx ==> idx[r] < |shapes| && shapes[idx[r]].cls == r
  }

  /** idx maps every accumulator's shape to its index, and nothing else. */
  ghost predicate IndexedIn(shapes: seq<ShapeAcc>, idx: map<ShapeRef, nat>) {
    && (forall i :: 0 <= i < |shapes| ==> shapes[i].cls in idx && idx[shapes[i].cls] == i)
    && (forall r :: Points(shapes, idx, r))
  }

  lemma IndexedDistinct(shapes: seq<ShapeAcc>, idx: map<ShapeRef, nat>)
    requires IndexedIn(shapes, idx)
    ensures DistinctAccs(shapes)
  {
  }

  lemma BumpIndexed(shapes: seq<ShapeAcc>, idx: map<ShapeRef, nat>, i: nat, c: Counts)
    requires IndexedIn(shapes, idx) && i < |shapes|
    ensures IndexedIn(Bump(shapes, i, c), idx) && SamePlaces(shapes, Bump(shapes, i, c))
  {
    forall r
      ensures Points(Bump(shapes, i, c), idx, r)
    {
      assert Points(shapes, idx, r);
    }
  }

  ghost predicate Covered(m: Entries, idx: map<ShapeRef, nat>) { forall k :: k in m ==> m[k].shape in idx }

  /** A new shape's accumulator starts at zero: no entry belongs to it yet. */
  lemma NewShape(shapes: seq<ShapeAcc>, idx: map<ShapeRef, nat>, m: Entries, r: ShapeRef)
    requires IndexedIn(shapes, idx) && CountedIn(shapes, m) && Covered(m, idx) && r !in idx
    ensures var after, jdx := shapes + [Acc(r, ZERO)], idx[r := |shapes|];
            IndexedIn(after, jdx) && CountedIn(after, m) && Covered(m, jdx) && SamePlaces(shapes, after)
  {
    NoEntries(m, r);
    var after, jdx := shapes + [Acc(r, ZERO)], idx[r := |shapes|];
    forall i | 0 <= i < |after|
      ensures HoldsTotal(after[i], m)
    {
      assert i < |shapes| ==> after[i] == shapes[i] && HoldsTotal(shapes[i], m);
    }
    forall s
      ensures Points(after, jdx, s)
    {
      assert Points(shapes, idx, s);
    }
  }

  /** A key seen for the first time contributes c to accumulator i. */
  lemma NewEntry(shapes: seq<ShapeAcc>, idx: map<ShapeRef, nat>, m: Entries, k: Key, i: nat, c: Counts)
    requires IndexedIn(shapes, idx) && CountedIn(shapes, m) && Covered(m, idx) && i < |shapes| && k !in m
    ensures var after, n := Bump(shapes, i, c), m[k := Entry(shapes[i].cls, c)];
            IndexedIn(after, idx) && CountedIn(after, n) && Covered(n, idx) && SamePlaces(shapes, after)
  {
    IndexedDistinct(shapes, idx);
    CountedNew(shapes, m, k, i, c);
    BumpIndexed(shapes, idx, i, c);
  }

  /** Accumulators keep their index; new ones are only appended. */
  ghost predicate SamePlaces(before: seq<ShapeAcc>, after: seq<ShapeAcc>) {
    |before| <= |after| && forall i :: 0 <= i < |before| ==> after[i].cls == before[i].cls
  }

  /** An operation that failed on at least one side: its kinds and what it adds to its shape. */
  method CountErrors(a: Compact, b: Compact) returns (kinds: seq<Kind>, c: Counts)
    requires !a.ok || !b.ok
    ensures kinds == PairKinds(a, b) && c == PairCounts(a, b)
  {
    kinds, c := [], ZERO.(matched := 1);
    if a.ok && !b.ok {
      kinds, c := [ErrorOnlyB], c.(errorsOnlyB := multiset{LabelOf(b)});
    } else if !a.ok && b.ok {
      kinds, c := [ErrorOnlyA], c.(errorsOnlyA := multiset{LabelOf(a)});
    } else if a.errCode != b.errCode || a.errName != b.errName {
      kinds, c := [ErrorCodeDiffers], c.(errorCodes := 1);
    }
    if |kinds| > 0 {
      c := c.(differing := 1);
    }
  }

  /** An operation that succeeded on both sides: results are compared and latencies kept. */
  method CountResults(a: Compact, b: Compact) returns (kinds: seq<Kind>, c: Counts)
    requires a.ok && b.ok
    ensures kinds == PairKinds(a, b) && c == PairCounts(a, b)
  {
    kinds, c := [], ZERO.(matched := 1, latA := multiset{a.latency}, latB := multiset{b.latency});
    if a.has != b.has || a.counts != b.counts || a.txn != b.txn {
      kinds, c := kinds + [CountMismatch], c.(countMismatches := 1);
    }
    if a.sum.SumOk? && b.sum.SumOk? {
      c := c.(checksumsCompared := 1);
      if a.sum != b.sum {
        kinds, c := kinds + [ChecksumMismatch], c.(checksumMismatches := 1);
      }
    }
    if |kinds| > 0 {
      c := c.(differing := 1);
    }
  }

  function OnlyBDiff(l: Line): OpDiff
    requires l.outcome.Some? && ValidOutcome(l.outcome.value)
  {
    OutcomeRoundTrip(l.outcome.value);
    DiffOf(l, l.shape, [MissingInA], None, Some(Seen(l)))
  }

  function OnlyADiff(l: Line): OpDiff
    requires l.outcome.Some? && ValidOutcome(l.outcome.value)
  {
    OutcomeRoundTrip(l.outcome.value);
    DiffOf(l, l.shape, [MissingInB], Some(Seen(l)), None)
  }

  function MatchedEntry(a: Line, b: Line, preferB: bool): Entry
    requires a.outcome.Some? && b.outcome.Some?
  {
    Entry(SharedShape(a, b, preferB), Add(BOTH, PairCounts(Seen(a), Seen(b))))
  }

  /** The differences after a matched operation, which adds one when the outcomes differ. */
  ghost function PairDiffs(all: map<Key, OpDiff>, k: Key, a: Line, b: Line, shape: ShapeRef): map<Key, OpDiff>
    requires a.outcome.Some? && ValidOutcome(a.outcome.value) && b.outcome.Some? && ValidOutcome(b.outcome.value)
  {
    OutcomeRoundTrip(a.outcome.value);
    OutcomeRoundTrip(b.outcome.value);
    if PairKinds(Seen(a), Seen(b)) == [] then all
    else all[k := DiffOf(a, shape, PairKinds(Seen(a), Seen(b)), Some(Seen(a)), Some(Seen(b)))]
  }

  /** OpsA--; the accumulator still counts the operation that leaves. */
  function LessOneA(c: Counts): Counts
    requires c.opsA >= 1
  {
    c.(opsA := c.opsA - 1)
  }

  /** OpsB counts for accumulator j, and OpsA moves there when i is another one. */
  function Attributed(shapes: seq<ShapeAcc>, i: nat, j: nat): (after: seq<ShapeAcc>)
    requires i < |shapes| && j < |shapes| && shapes[i].t.opsA >= 1
    ensures |after| == |shapes|
  {
    var bumped := Bump(shapes, j, COUNT_B);
    if i == j then bumped
    else Bump(bumped[i := bumped[i].(t := LessOneA(bumped[i].t))], j, COUNT_A)
  }

  lemma LessOneAdds(c: Counts)
    requires c.opsA >= 1
    ensures Add(COUNT_A, LessOneA(c)) == c
  {
  }

  lemma CountedMissed(shapes: seq<ShapeAcc>, m: Entries, k: Key, i: nat)
    requires i < |shapes| && CountedIn(shapes, m) && DistinctAccs(shapes)
    requires k in m && m[k] == Entry(shapes[i].cls, COUNT_A)
    ensures CountedIn(Bump(shapes, i, MISSED_IN_B), m[k := Entry(shapes[i].cls, ONLY_A)])
  {
    var e, after := Entry(shapes[i].cls, ONLY_A), Bump(shapes, i, MISSED_IN_B);
    HasA(shapes, m, k, i);
    MissedSum(ShapeTotal(m - {k}, shapes[i].cls));
    ShapeTotalIsTotal(m - {k}, shapes[i].cls);
    CountedIsAccumulated(shapes, m);
    CountedIsAccumulated(after, m[k := e]);
    AddIsLawful();
    AccumulateGrown(shapes, i, Add(shapes[i].t, MISSED_IN_B), m, k, e, ShapeOf, CountsOf, SUM);
  }

  lemma MissedEntry(shapes: seq<ShapeAcc>, idx: map<ShapeRef, nat>, m: Entries, k: Key, i: nat)
    requires IndexedIn(shapes, idx) && CountedIn(shapes, m) && Covered(m, idx) && i < |shapes|
    requires k in m && m[k] == Entry(shapes[i].cls, COUNT_A)
    ensures var after, n := Bump(shapes, i, MISSED_IN_B), m[k := Entry(shapes[i].cls, ONLY_A)];
            IndexedIn(after, idx) && CountedIn(after, n) && Covered(n, idx) && SamePlaces(shapes, after)
  {
    IndexedDistinct(shapes, idx);
    CountedMissed(shapes, m, k, i);
    BumpIndexed(shapes, idx, i, MISSED_IN_B);
  }

  lemma MissedSum(rest: Counts)
    ensures Add(Add(COUNT_A, rest), MISSED_IN_B) == Add(ONLY_A, rest)
  {
  }

  /** The whole effect of a matched line on the accumulators. */
  lemma ChangedEntry(before: seq<ShapeAcc>, after: seq<ShapeAcc>, idx: map<ShapeRef, nat>, m: Entries, k: Key, i: nat,
        j: nat, c: Counts)
    requires i < |before| && j < |before| && IndexedIn(before, idx) && CountedIn(before, m) && Covered(m, idx)
    requires k in m && m[k] == Entry(before[i].cls, COUNT_A) && before[i].t.opsA >= 1
    requires after == Bump(Attributed(before, i, j), j, c)
    ensures var n := m[k := Entry(before[j].cls, Add(BOTH, c))];
            IndexedIn(after, idx) && CountedIn(after, n) && Covered(n, idx) && SamePlaces(before, after)
  {
    IndexedDistinct(before, idx);
    LessOneAdds(before[i].t);
    CountedMatched(before, after, m, k, i, j, c);
    forall r
      ensures Points(after, idx, r)
    {
      assert Points(before, idx, r);
    }
  }

  /**
   The comparer's state. What has been counted so far (entries), every difference added
   so far (all) and the keys the last trim kept are passed to its methods as ghosts.
   */
  class Comparer {
    const topN: nat
    var shapes: seq<ShapeAcc>
    var shapeIdx: map<ShapeRef, nat>
    var diffs: seq<KeyedDiff>

    constructor (topN: nat)
      requires topN > 0
      ensures this.topN == topN && Counted(map[]) && Buffered(map[], {})
    {
      this.topN, shapes, shapeIdx, diffs := topN, [], map[], [];
    }

    /** The accumulators hold the per-shape totals of the entries. */
    ghost predicate Counted(entries: Entries)
      reads this
    {
      IndexedIn(shapes, shapeIdx) && CountedIn(shapes, entries) && Covered(entries, shapeIdx)
    }

    ghost predicate Buffered(all: map<Key, OpDiff>, kept: set<Key>)
      reads this
    {
      topN > 0 && Retains(diffs, all, kept, topN) && |diffs| < BufferLimit(topN)
    }

    /** The index of a shape, which is created when it is new. */
    method Shape(ref: ShapeRef, ghost entries: Entries) returns (i: nat)
      requires Counted(entries)
      modifies `shapes, `shapeIdx
      ensures Counted(entries) && SamePlaces(old(shapes), shapes)
      ensures i < |shapes| && shapes[i].cls == ref
    {
      assert Points(shapes, shapeIdx, ref);
      if ref in shapeIdx {
        return shapeIdx[ref];
      }
      NewShape(shapes, shapeIdx, entries, ref);
      i := |shapes|;
      shapes := shapes + [Acc(ref, ZERO)];
      shapeIdx := shapeIdx[ref := i];
    }

    /** Adds one differing operation, trimming the buffer when it reaches its limit. */
    method AddDiff(k: Key, d: OpDiff, ghost all: map<Key, OpDiff>, ghost kept: set<Key>) returns (ghost kept': set<Key>)
      requires Buffered(all, kept) && k !in all
      modifies `diffs
      ensures Buffered(all[k := d], kept')
    {
      AppendRetains(diffs, all, kept, topN, KeyedDiff(k, d));
      diffs, kept' := diffs + [KeyedDiff(k, d)], kept;
      if |diffs| >= BufferLimit(topN) {
        kept' := TrimDiffs(all[k := d], kept);
      }
    }

    /** Leaves the topN smallest keys of every difference ever added, in key order. */
    method TrimDiffs(ghost all: map<Key, OpDiff>, ghost kept: set<Key>) returns (ghost kept': set<Key>)
      requires topN > 0 && Retains(diffs, all, kept, topN) && |diffs| <= BufferLimit(topN)
      modifies `diffs
      ensures Buffered(all, kept') && IsTop(diffs, all, topN)
    {
      TrimRetains(diffs, all, kept, topN);
      kept' := KeysOf(TrimmedDiffs(diffs, topN));
      diffs := TrimmedDiffs(diffs, topN);
    }

    /** Compares an operation that both files ran, on the accumulator of its shape. */
    method Pair(k: Key, a: Line, b: Line, i: nat, ghost all: map<Key, OpDiff>, ghost kept: set<Key>)
      returns (ghost kept': set<Key>)
      requires a.outcome.Some? && ValidOutcome(a.outcome.value) && b.outcome.Some? && ValidOutcome(b.outcome.value)
      requires i < |shapes| && Buffered(all, kept) && k !in all
      modifies `shapes, `diffs
      ensures shapes == Bump(old(shapes), i, PairCounts(Seen(a), Seen(b)))
      ensures Buffered(PairDiffs(all, k, a, b, old(shapes)[i].cls), kept')
    {
      var kinds, c;
      OutcomeRoundTrip(a.outcome.value);
      OutcomeRoundTrip(b.outcome.value);
      if Seen(a).ok && Seen(b).ok {
        kinds, c := CountResults(Seen(a), Seen(b));
      } else {
        kinds, c := CountErrors(Seen(a), Seen(b));
      }
      kept' := kept;
      if |kinds| > 0 {
        kept' := AddDiff(k, DiffOf(a, shapes[i].cls, kinds, Some(Seen(a)), Some(Seen(b))), all, kept);
      }
      shapes := Bump(shapes, i, c);
    }

    /** One line of A with a new key. */
    method ReadA(k: Key, l: Line, ghost entries: Entries) returns (held: Kept)
      requires Counted(entries) && k !in entries
      modifies `shapes, `shapeIdx
      ensures Counted(entries[k := Entry(l.shape, COUNT_A)]) && SamePlaces(old(shapes), shapes)
      ensures held.line == l && held.shape < |shapes| && shapes[held.shape].cls == l.shape
    {
      var i := Shape(l.shape, entries);
      held := Kept(l, i);
      NewEntry(shapes, shapeIdx, entries, k, i, COUNT_A);
      shapes := Bump(shapes, i, COUNT_A);
    }

    /** One line of B whose key A never ran. */
    method OnlyInB(k: Key, l: Line, ghost entries: Entries, ghost all: map<Key, OpDiff>, ghost kept: set<Key>)
      returns (ghost kept': set<Key>)
      requires l.outcome.Some? && ValidOutcome(l.outcome.value)
      requires Counted(entries) && Buffered(all, kept) && k !in entries && k !in all
      modifies this
      ensures Counted(entries[k := Entry(l.shape, ONLY_B)]) && SamePlaces(old(shapes), shapes)
      ensures Buffered(all[k := OnlyBDiff(l)], kept')
    {
      var i := Shape(l.shape, entries);
      NewEntry(shapes, shapeIdx, entries, k, i, ONLY_B);
      shapes := Bump(shapes, i, ONLY_B);
      kept' := AddDiff(k, OnlyBDiff(l), all, kept);
    }

    /** An operation of A that B never ran, found after both files were read. */
    method OnlyInA(k: Key, a: Kept, ghost entries: Entries, ghost all: map<Key, OpDiff>, ghost kept: set<Key>)
      returns (ghost kept': set<Key>)
      requires a.line.outcome.Some? && ValidOutcome(a.line.outcome.value)
      requires a.shape < |shapes| && shapes[a.shape].cls == a.line.shape
      requires Counted(entries) && Buffered(all, kept) && k !in all
      requires k in entries && entries[k] == Entry(a.line.shape, COUNT_A)
      modifies this
      ensures Counted(entries[k := Entry(a.line.shape, ONLY_A)]) && SamePlaces(old(shapes), shapes)
      ensures Buffered(all[k := OnlyADiff(a.line)], kept')
    {
      MissedEntry(shapes, shapeIdx, entries, k, a.shape);
      shapes := Bump(shapes, a.shape, MISSED_IN_B);
      kept' := AddDiff(k, OnlyADiff(a.line), all, kept);
    }

    /** Counts a matched operation for accumulator j, taking A's count from accumulator i. */
    method Attribute(k: Key, a: Line, b: Line, i: nat, j: nat, ghost entries: Entries, ghost all: map<Key, OpDiff>,
          ghost kept: set<Key>)
      returns (ghost kept': set<Key>)
      requires a.outcome.Some? && ValidOutcome(a.outcome.value) && b.outcome.Some? && ValidOutcome(b.outcome.value)
      requires i < |shapes| && j < |shapes| && Counted(entries) && Buffered(all, kept) && k !in all
      requires k in entries && entries[k] == Entry(shapes[i].cls, COUNT_A)
      modifies `shapes, `diffs
      ensures SamePlaces(old(shapes), shapes)
      ensures Counted(entries[k := Entry(old(shapes)[j].cls, Add(BOTH, PairCounts(Seen(a), Seen(b))))])
      ensures Buffered(PairDiffs(all, k, a, b, old(shapes)[j].cls), kept')
    {
      ghost var before := shapes;
      HasOps(before, entries, k, i);
      shapes := Attributed(shapes, i, j);
      assert shapes[j].cls == before[j].cls;
      kept' := Pair(k, a, b, j, all, kept);
      ChangedEntry(before, shapes, shapeIdx, entries, k, i, j, PairCounts(Seen(a), Seen(b)));
    }

    /**
     One line of B whose operation A ran too: it counts for the attributed shape, to which
     A's count moves when that is another one.
     */
    method Match(k: Key, a: Kept, l: Line, preferB: bool, ghost entries: Entries, ghost all: map<Key, OpDiff>,
          ghost kept: set<Key>)
      returns (ghost kept': set<Key>)
      requires l.outcome.Some? && ValidOutcome(l.outcome.value) && a.line.outcome.Some?
          && ValidOutcome(a.line.outcome.value)
      requires a.shape < |shapes| && shapes[a.shape].cls == a.line.shape
      requires Counted(entries) && Buffered(all, kept) && k !in all
      requires k in entries && entries[k] == Entry(a.line.shape, COUNT_A)
      modifies this
      ensures Counted(entries[k := MatchedEntry(a.line, l, preferB)]) && SamePlaces(old(shapes), shapes)
      ensures Buffered(PairDiffs(all, k, a.line, l, SharedShape(a.line, l, preferB)), kept')
    {
      var j := Shape(l.shape, entries);
      if !preferB {
        j := a.shape;
      }
      kept' := Attribute(k, a.line, l, a.shape, j, entries, all, kept);
    }
  }
}
