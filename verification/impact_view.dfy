/**
 The ranked view of the full-run aggregates (buildImpactView in internal/stats/impact.go):
 the groups are sorted by time, twenty of them are shown and the rest is summed up. Times
 are nanoseconds. sort.Slice may arrange ties in any way.
 */
module ImpactView {
  import Loops
  import opened CollectorState
  import opened Text

  const VIEW_LIMIT: nat := 20

  /** The stable id of a group. */
  type IDs = Key -> string

  datatype Row = Row(key: Key, count: nat, sumNs: int, id: string)

  function RowOf(groups: Groups, ids: IDs, k: Key): Row
    requires k in groups
  {
    Row(k, groups[k].count, groups[k].sumNs, ids(k))
  }

  /** Whether a is ranked before b: more time, then more operations, then the smaller id. */
  predicate Less(a: Row, b: Row)
  {
    if a.sumNs != b.sumNs then a.sumNs > b.sumNs
    else if a.count != b.count then a.count > b.count
    else a.id != b.id && StringLe(a.id, b.id)
  }

  predicate Ranked(rows: seq<Row>) { forall i, j :: 0 <= i < j < |rows| ==> !Less(rows[j], rows[i]) }

  predicate Arranged(sorted: seq<Row>, rows: seq<Row>) { multiset(sorted) == multiset(rows) && Ranked(sorted) }

  ghost predicate Sorter(sort: seq<Row> -> seq<Row>) { forall rows :: Arranged(sort(rows), rows) }

  // ------------------------------------------------------------- sums over rows

  function Work(rows: seq<Row>): Pair
  {
    if rows == [] then Pair(0, 0) else AddPair(Work(rows[..|rows| - 1]), PairOf(rows[|rows| - 1]))
  }

  lemma {:induction false} WorkSplit(a: seq<Row>, b: seq<Row>)
    ensures Work(a + b) == AddPair(Work(a), Work(b))
  {
    if b == [] {
      assert a + b == a;
    } else {
      assert (a + b)[..|a + b| - 1] == a + b[..|b| - 1];
      WorkSplit(a, b[..|b| - 1]);
    }
  }

  function PairOf(r: Row): Pair { Pair(r.count, r.sumNs) }

  lemma WorkMiddle(a: seq<Row>, x: Row, b: seq<Row>)
    ensures Work(a + [x] + b) == AddPair(Work(a + b), PairOf(x))
  {
    WorkSplit(a + [x], b);
    WorkSplit(a, b);
    assert (a + [x])[..|a|] == a;
  }

  lemma ElementsMiddle(a: seq<Row>, x: Row, b: seq<Row>)
    ensures multiset(a + [x] + b) == multiset(a + b) + multiset{x}
  {
  }

  lemma CancelOne(m: multiset<Row>, n: multiset<Row>, x: Row)
    requires m + multiset{x} == n + multiset{x}
    ensures m == n
  {
    forall r: Row
      ensures m[r] == n[r]
    {
      assert (m + multiset{x})[r] == (n + multiset{x})[r];
    }
  }

  /** Taking the same row out of two rearrangements leaves rearrangements. */
  lemma TakeOut(a: seq<Row>, x: Row, b: seq<Row>, c: seq<Row>, d: seq<Row>)
    requires multiset(a + [x] + b) == multiset(c + [x] + d)
    ensures multiset(a + b) == multiset(c + d)
  {
    ElementsMiddle(a, x, b);
    ElementsMiddle(c, x, d);
    CancelOne(multiset(a + b), multiset(c + d), x);
  }

  lemma FindRow(b: seq<Row>, x: Row) returns (i: nat)
    requires x in multiset(b)
    ensures i < |b| && b == b[..i] + [x] + b[i + 1..]
  {
    i :| 0 <= i < |b| && b[i] == x;
  }

  /** Rearranged rows have the same sums. */
  lemma {:induction false} WorkRearranged(a: seq<Row>, b: seq<Row>)
    requires multiset(a) == multiset(b)
    ensures Work(a) == Work(b)
    decreases |a|
  {
    SameLength(a, b);
    if a != [] {
      var n := |a| - 1;
      var last := a[n];
      assert a == a[..n] + [last] + [] && a[..n] + [] == a[..n];
      assert last in multiset(a);
      var i := FindRow(b, last);
      TakeOut(a[..n], last, [], b[..i], b[i + 1..]);
      WorkMiddle(b[..i], last, b[i + 1..]);
      WorkRearranged(a[..n], b[..i] + b[i + 1..]);
    }
  }

  lemma SameLength(a: seq<Row>, b: seq<Row>)
    requires multiset(a) == multiset(b)
    ensures |a| == |b|
  {
    assert |multiset(a)| == |a| && |multiset(b)| == |b|;
  }

  lemma SameMember(a: seq<Row>, b: seq<Row>, r: Row)
    requires multiset(a) == multiset(b)
    ensures r in a <==> r in b
  {
    assert (r in a <==> r in multiset(a)) && (r in b <==> r in multiset(b));
  }

  // --------------------------------------------------------------- listing groups

  ghost predicate OneEach(rows: seq<Row>) { forall i, j :: 0 <= i < j < |rows| ==> rows[i].key != rows[j].key }

  ghost predicate Only(rows: seq<Row>, groups: Groups, ids: IDs, done: set<Key>)
  {
    forall r :: r in rows ==> r.key in done && r.key in groups && r == RowOf(groups, ids, r.key)
  }

  ghost predicate Every(rows: seq<Row>, groups: Groups, ids: IDs, done: set<Key>)
    requires done <= groups.Keys
  {
    forall k :: k in done ==> RowOf(groups, ids, k) in rows
  }

  /** The rows of the groups in done, one each. */
  ghost predicate Lists(rows: seq<Row>, groups: Groups, ids: IDs, done: set<Key>)
  {
    done <= groups.Keys && |rows| == |done| && Every(rows, groups, ids, done) && Only(rows, groups, ids, done)
      && OneEach(rows)
  }

  ghost function WorkOf(groups: Groups, done: set<Key>): Pair
  {
    GroupsTotal(map k | k in groups && k in done :: groups[k]).work
  }

  lemma OneMoreGroup(groups: Groups, done: set<Key>, k: Key)
    requires k in groups && k !in done
    ensures WorkOf(groups, done + {k}) == AddPair(WorkOf(groups, done), Pair(groups[k].count, groups[k].sumNs))
  {
    var before := map j | j in groups && j in done :: groups[j];
    assert before[k := groups[k]] == map j | j in groups && j in done + {k} :: groups[j];
    SetGroup(before, k, groups[k]);
  }

  lemma NextRow(rows: seq<Row>, groups: Groups, ids: IDs, done: set<Key>, k: Key)
    requires Lists(rows, groups, ids, done) && k in groups && k !in done
    ensures Lists(rows + [RowOf(groups, ids, k)], groups, ids, done + {k})
  {
    var after := rows + [RowOf(groups, ids, k)];
    forall j | j in done + {k}
      ensures RowOf(groups, ids, j) in after
    {
      if j == k {
        assert after[|rows|] == RowOf(groups, ids, k);
      } else {
        assert RowOf(groups, ids, j) in rows;
      }
    }
  }

  lemma OnlyRearranged(rows: seq<Row>, sorted: seq<Row>, groups: Groups, ids: IDs, done: set<Key>)
    requires Only(rows, groups, ids, done) && multiset(sorted) == multiset(rows)
    ensures Only(sorted, groups, ids, done)
  {
    forall r | r in sorted
      ensures r.key in done && r.key in groups && r == RowOf(groups, ids, r.key)
    {
      SameMember(rows, sorted, r);
    }
  }

  lemma EveryRearranged(rows: seq<Row>, sorted: seq<Row>, groups: Groups, ids: IDs, done: set<Key>)
    requires done <= groups.Keys && Every(rows, groups, ids, done) && multiset(sorted) == multiset(rows)
    ensures Every(sorted, groups, ids, done)
  {
    forall k | k in done
      ensures RowOf(groups, ids, k) in sorted
    {
      SameMember(rows, sorted, RowOf(groups, ids, k));
    }
  }

  /** A rearrangement lists the same groups, still once each. */
  lemma ListsRearranged(rows: seq<Row>, sorted: seq<Row>, groups: Groups, ids: IDs, done: set<Key>)
    requires Lists(rows, groups, ids, done) && multiset(sorted) == multiset(rows)
    ensures Lists(sorted, groups, ids, done)
  {
    SameLength(rows, sorted);
    EveryRearranged(rows, sorted, groups, ids, done);
    OnlyRearranged(rows, sorted, groups, ids, done);
    forall i, j | 0 <= i < j < |sorted|
      ensures sorted[i].key != sorted[j].key
    {
      NotTwice(rows, sorted, i, j);
      assert sorted[i] in sorted && sorted[j] in sorted;
    }
  }

  lemma {:induction false} AtMostOnce(rows: seq<Row>, r: Row)
    requires OneEach(rows)
    ensures multiset(rows)[r] <= 1
  {
    if rows != [] {
      var n := |rows| - 1;
      assert rows == rows[..n] + [rows[n]];
      AtMostOnce(rows[..n], r);
      if r == rows[n] {
        assert r !in rows[..n];
      }
    }
  }

  lemma NotTwice(rows: seq<Row>, sorted: seq<Row>, i: nat, j: nat)
    requires OneEach(rows) && multiset(sorted) == multiset(rows) && i < j < |sorted|
    ensures sorted[i] != sorted[j]
  {
    AtMostOnce(rows, sorted[i]);
    assert sorted == sorted[..j] + sorted[j..];
    assert sorted[i] in sorted[..j] && sorted[j] in sorted[j..];
    assert multiset(sorted)[sorted[i]] == multiset(sorted[..j])[sorted[i]] + multiset(sorted[j..])[sorted[i]];
  }

  // --------------------------------------------------------------------- the view

  /** Observed, overflowing and not shown operations with their times, and the shown groups. */
  datatype View = View(observed: Pair, overflow: Pair, tracked: nat, shown: seq<Row>, notShownGroups: nat,
        notShown: Pair)

  /** The shown groups are the first of a ranking of all groups, and the rest is summed up. */
  ghost predicate Shows(v: View, groups: Groups, ids: IDs, sorted: seq<Row>)
  {
    Ranked(sorted) && Lists(sorted, groups, ids, groups.Keys) && Cut(v, sorted, |groups|, GroupsTotal(groups).work)
  }

  ghost predicate Cut(v: View, sorted: seq<Row>, tracked: nat, work: Pair)
  {
    var n := if |sorted| > VIEW_LIMIT then VIEW_LIMIT else |sorted|;
    && v.shown == sorted[..n] && v.tracked == tracked == |v.shown| + v.notShownGroups
    && AddPair(Work(v.shown), v.notShown) == work
  }

  method BuildImpactView(groups: Groups, t: Totals, ids: IDs, sort: seq<Row> -> seq<Row>) returns (v: View)
    requires Sorter(sort)
    ensures v.observed == Pair(t.ops, t.ns) && v.overflow == Pair(t.overflowOps, t.overflowNs)
    ensures t.ops == 0 ==> v.shown == [] && v.notShownGroups == 0 && v.notShown == Pair(0, 0)
    ensures t.ops > 0 ==> exists sorted :: Shows(v, groups, ids, sorted)
  {
    v := View(Pair(t.ops, t.ns), Pair(t.overflowOps, t.overflowNs), |groups|, [], 0, Pair(0, 0));
    if t.ops == 0 {
      return;
    }
    var all := ListGroups(groups, ids);
    var sorted := sort(all);
    assert Arranged(sorted, all);
    ListsRearranged(all, sorted, groups, ids, groups.Keys);
    WorkRearranged(all, sorted);
    var n := if |sorted| > VIEW_LIMIT then VIEW_LIMIT else |sorted|;
    var notShown := SumRest(sorted, n);
    v := v.(shown := sorted[..n], notShownGroups := |sorted| - n, notShown := notShown);
    assert |groups| == |groups.Keys|;
    assert Shows(v, groups, ids, sorted);
  }

  /** The rows of the groups visited so far, with their sums; left are the others. */
  ghost predicate Listed(rows: seq<Row>, groups: Groups, ids: IDs, left: set<Key>, done: set<Key>)
  {
    left !! done && left + done == groups.Keys && Lists(rows, groups, ids, done) && Work(rows) == WorkOf(groups, done)
  }

  lemma ListNext(rows: seq<Row>, groups: Groups, ids: IDs, left: set<Key>, done: set<Key>, k: Key)
    requires Listed(rows, groups, ids, left, done) && k in left
    ensures k in groups && Listed(rows + [RowOf(groups, ids, k)], groups, ids, left - {k}, done + {k})
  {
    OneMoreGroup(groups, done, k);
    NextRow(rows, groups, ids, done, k);
    WorkAppend(rows, RowOf(groups, ids, k));
    Loops.Move(left, done, k);
  }

  lemma WorkAppend(rows: seq<Row>, r: Row)
    ensures Work(rows + [r]) == AddPair(Work(rows), PairOf(r))
  {
    assert (rows + [r])[..|rows|] == rows;
  }

  lemma ListedAll(rows: seq<Row>, groups: Groups, ids: IDs, done: set<Key>)
    requires Listed(rows, groups, ids, {}, done)
    ensures Lists(rows, groups, ids, groups.Keys) && Work(rows) == GroupsTotal(groups).work
  {
    assert done == groups.Keys;
    assert (map k | k in groups && k in done :: groups[k]) == groups;
  }

  /** All groups, in whatever order the map gives them. */
  method ListGroups(groups: Groups, ids: IDs) returns (rows: seq<Row>)
    ensures Lists(rows, groups, ids, groups.Keys) && Work(rows) == GroupsTotal(groups).work
  {
    rows := [];
    var left := groups.Keys;
    ghost var done: set<Key> := {};
    assert (map k | k in groups && k in done :: groups[k]) == map[];
    while left != {}
      invariant Listed(rows, groups, ids, left, done)
      decreases |left|
    {
      var k :| k in left;
      ListNext(rows, groups, ids, left, done, k);
      rows := rows + [RowOf(groups, ids, k)];
      left, done := left - {k}, done + {k};
    }
    ListedAll(rows, groups, ids, done);
  }

  method SumRest(sorted: seq<Row>, n: nat) returns (sum: Pair)
    requires n <= |sorted|
    ensures AddPair(Work(sorted[..n]), sum) == Work(sorted)
  {
    sum := Pair(0, 0);
    for i := n to |sorted|
      invariant AddPair(Work(sorted[..n]), sum) == Work(sorted[..i])
    {
      assert sorted[..i + 1] == sorted[..i] + [sorted[i]];
      WorkSplit(sorted[..i], [sorted[i]]);
      sum := AddPair(sum, Pair(sorted[i].count, sorted[i].sumNs));
    }
    assert sorted[..|sorted|] == sorted;
  }

  /** Nothing is lost: shown, not shown and overflowing operations and times add up to what was observed. */
  lemma ViewConserves(v: View, groups: Groups, hist: History, next: nat, t: Totals, c: Classes, a: Admission,
        maxGroups: nat, ids: IDs, sorted: seq<Row>)
    requires Accounted(groups, hist, next, NumbersOf(t, c, a), maxGroups)
    requires v.overflow == Pair(t.overflowOps, t.overflowNs) && Shows(v, groups, ids, sorted)
    ensures AddPair(AddPair(Work(v.shown), v.notShown), v.overflow) == Pair(t.ops, t.ns)
  {
    AccountedFacts(groups, hist, next, t, c, a, maxGroups, Key("", "", "", ""));
  }

  lemma NotAmong(sorted: seq<Row>, n: nat, j: nat)
    requires n <= |sorted| && j < |sorted|
    ensures j < n ==> sorted[j] in sorted[..n]
  {
    if j < n {
      assert sorted[..n][j] == sorted[j];
    }
  }

  /** k has less total time than j, or as much of it and fewer operations, or as many and no smaller id. */
  predicate NotAbove(groups: Groups, ids: IDs, k: Key, j: Key)
    requires j in groups && k in groups
  {
    var a, b := groups[k], groups[j];
    a.sumNs < b.sumNs
    || (a.sumNs == b.sumNs && (a.count < b.count || (a.count == b.count && StringLe(ids(j), ids(k)))))
  }

  /** No group that is left out ranks before a shown one, and every group is shown or counted as not shown. */
  lemma ShownAreFirst(v: View, groups: Groups, ids: IDs, sorted: seq<Row>, k: Key, i: nat)
    requires Shows(v, groups, ids, sorted) && k in groups && RowOf(groups, ids, k) !in v.shown && i < |v.shown|
    ensures v.shown[i].key in groups && v.shown[i] == RowOf(groups, ids, v.shown[i].key)
    ensures NotAbove(groups, ids, k, v.shown[i].key) && |v.shown| == VIEW_LIMIT == 20 && v.notShownGroups > 0
  {
    StringLeTotal(ids(k), v.shown[i].id);
    var j :| 0 <= j < |sorted| && sorted[j] == RowOf(groups, ids, k);
    NotAmong(sorted, |v.shown|, j);
  }

  // ------------------------------------------------------------------ ties

  /** Groups with equal times and counts have different ids. */
  ghost predicate TieFree(groups: Groups, ids: IDs)
  {
    forall j, k :: j in groups && k in groups && j != k ==>
      ids(j) != ids(k) || groups[j].sumNs != groups[k].sumNs || groups[j].count != groups[k].count
  }

  /** Different rows are ranked one way or the other. */
  ghost predicate Comparable(rows: seq<Row>)
  {
    forall x, y :: x in rows && y in rows && x != y ==> Less(x, y) || Less(y, x)
  }

  lemma SameFirst(a: seq<Row>, b: seq<Row>)
    requires Ranked(a) && Ranked(b) && multiset(a) == multiset(b) && Comparable(a) && a != [] && b != []
    ensures a[0] == b[0]
  {
    SameMember(a, b, a[0]);
    SameMember(a, b, b[0]);
    var i :| 0 <= i < |b| && b[i] == a[0];
    var j :| 0 <= j < |a| && a[j] == b[0];
  }

  lemma TailElements(a: seq<Row>, b: seq<Row>)
    requires a != [] && b != [] && a[0] == b[0] && multiset(a) == multiset(b)
    ensures multiset(a[1..]) == multiset(b[1..])
  {
    assert a == [] + [a[0]] + a[1..] && b == [] + [a[0]] + b[1..] && [] + a[1..] == a[1..] && [] + b[1..] == b[1..];
    TakeOut([], a[0], a[1..], [], b[1..]);
  }

  lemma TailRanked(a: seq<Row>)
    requires a != [] && Ranked(a)
    ensures Ranked(a[1..])
  {
  }

  lemma TailComparable(a: seq<Row>)
    requires a != [] && Comparable(a)
    ensures Comparable(a[1..])
  {
    forall x, y | x in a[1..] && y in a[1..] && x != y
      ensures Less(x, y) || Less(y, x)
    {
      assert x in a && y in a;
    }
  }

  lemma {:induction false} RankingUnique(a: seq<Row>, b: seq<Row>)
    requires Ranked(a) && Ranked(b) && multiset(a) == multiset(b) && Comparable(a)
    ensures a == b
    decreases |a|
  {
    SameLength(a, b);
    if a != [] {
      SameFirst(a, b);
      TailElements(a, b);
      TailRanked(a);
      TailRanked(b);
      TailComparable(a);
      RankingUnique(a[1..], b[1..]);
      assert a == [a[0]] + a[1..] && b == [b[0]] + b[1..];
    }
  }

  lemma RowsDiffer(groups: Groups, ids: IDs, j: Key, k: Key)
    requires TieFree(groups, ids) && j in groups && k in groups && j != k
    ensures Less(RowOf(groups, ids, j), RowOf(groups, ids, k)) || Less(RowOf(groups, ids, k), RowOf(groups, ids, j))
  {
    StringLeTotal(ids(j), ids(k));
  }

  /** Without ties the shown groups and their order do not depend on the map order or on the sorting algorithm. */
  lemma ViewIsDetermined(v: View, w: View, groups: Groups, ids: IDs, a: seq<Row>, b: seq<Row>)
    requires TieFree(groups, ids) && Shows(v, groups, ids, a) && Shows(w, groups, ids, b)
    ensures v.shown == w.shown && v.notShown == w.notShown && v.notShownGroups == w.notShownGroups
  {
    SameRows(a, b, groups, ids);
    TieFreeComparable(a, groups, ids);
    RankingUnique(a, b);
    SameShown(v, w, a, |groups|, GroupsTotal(groups).work);
  }

  lemma SameShown(v: View, w: View, sorted: seq<Row>, tracked: nat, work: Pair)
    requires Cut(v, sorted, tracked, work) && Cut(w, sorted, tracked, work)
    ensures v.shown == w.shown && v.notShown == w.notShown && v.notShownGroups == w.notShownGroups
  {
  }

  lemma TieFreeComparable(rows: seq<Row>, groups: Groups, ids: IDs)
    requires TieFree(groups, ids) && Only(rows, groups, ids, groups.Keys)
    ensures Comparable(rows)
  {
    forall x, y | x in rows && y in rows && x != y
      ensures Less(x, y) || Less(y, x)
    {
      RowsDiffer(groups, ids, x.key, y.key);
    }
  }

  lemma SameRows(a: seq<Row>, b: seq<Row>, groups: Groups, ids: IDs)
    requires Lists(a, groups, ids, groups.Keys) && Lists(b, groups, ids, groups.Keys)
    ensures multiset(a) == multiset(b)
  {
    forall r: Row
      ensures multiset(a)[r] == multiset(b)[r]
    {
      AtMostOnce(a, r);
      AtMostOnce(b, r);
      assert r in a <==> r in multiset(a);
      assert r in b <==> r in multiset(b);
    }
  }
}
