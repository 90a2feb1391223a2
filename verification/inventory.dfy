/**
 The explain inventory: groups that share a shape id are merged, and each merged shape says
 which population its samples represent (SnapshotExplainInventory in
 internal/stats/explain_coverage.go).
 */
module Inventory {
  import Loops
  import opened MapTotals
  import opened Capture
  import opened CollectorState

  datatype Group = Group(key: Key, agg: Agg)

  /** The groups, each with its key. */
  function Keyed(groups: Groups): map<Key, Group> { map k | k in groups :: Group(k, groups[k]) }

  /** Operations, errors, time, the slowest operation and the eligible operations of merged groups. */
  datatype Work = Work(ops: nat, errors: nat, sumNs: int, maxNs: nat, eligible: nat)

  /** Their samples: the reservoir entries counted, whether any sample was dropped, and the samples. */
  datatype Merged = Merged(work: Work, inReservoir: nat, drops: bool, samples: multiset<Sample>)

  function AddWork(x: Work, y: Work): Work
  {
    Work(x.ops + y.ops, x.errors + y.errors, x.sumNs + y.sumNs, if x.maxNs >= y.maxNs then x.maxNs
      else y.maxNs, x.eligible + y.eligible)
  }

  function AddMerged(x: Merged, y: Merged): Merged
  {
    Merged(AddWork(x.work, y.work), x.inReservoir + y.inReservoir, x.drops || y.drops, x.samples + y.samples)
  }

  const NOTHING: Merged := Merged(Work(0, 0, 0, 0, 0), 0, false, multiset{})

  const MERGE: Monoid<Merged> := Monoid(NOTHING, AddMerged)

  lemma MergeLawful()
    ensures Lawful(MERGE)
  {
    forall x: Merged, y: Merged, z: Merged
      ensures Laws(MERGE, x, y, z)
    {
    }
  }

  /** What a group contributes to its shape. Its capture state exists once an operation was eligible. */
  function PartOf(g: Group): Merged
  {
    var s := g.agg.capture;
    var work := Work(g.agg.count, g.agg.errors, g.agg.sumNs, g.agg.maxNs, s.eligible);
    var samples := RetainedOf(s);
    Merged(work, if samples == [] then 0 else |s.reservoir|, Drops(s), multiset(samples))
  }

  datatype Scope = NoSamples | ReservoirDropped | AllOperations | UniformReservoir

  function ScopeOf(m: Merged): Scope
  {
    if m.samples == multiset{} then NoSamples
    else if m.drops then ReservoirDropped
    else if m.work.eligible <= m.inReservoir then AllOperations
    else UniformReservoir
  }

  type ShapeID = string

  /** The shape id of a key: the same operation, collection and shape in another database has the same one. */
  type IDs = Key -> ShapeID

  function IDOf(ids: IDs): Group -> ShapeID { (g: Group) => ids(g.key) }

  /** The merged groups of one shape id. */
  ghost function MergedOf(m: map<Key, Group>, ids: IDs, id: ShapeID): Merged
  {
    ClassTotal(m, IDOf(ids), id, PartOf, MERGE)
  }

  /** byID holds the merged groups of every shape id in m. */
  ghost predicate MergedByID(byID: map<ShapeID, Merged>, m: map<Key, Group>, ids: IDs)
  {
    && (forall k :: k in m ==> ids(k) in byID)
    && (forall id :: id in byID ==> exists k :: k in m && ids(k) == id)
    && (forall id {:trigger HoldsMerged(byID, m, ids, id)} :: id in byID ==> HoldsMerged(byID, m, ids, id))
  }

  ghost predicate HoldsMerged(byID: map<ShapeID, Merged>, m: map<Key, Group>, ids: IDs, id: ShapeID)
    requires id in byID
  {
    byID[id] == MergedOf(m, ids, id)
  }

  ghost predicate OwnKeys(m: map<Key, Group>) { forall k :: k in m ==> m[k].key == k }

  /** One more group is added to its shape and leaves the other shapes alone. */
  lemma MergeGroup(byID: map<ShapeID, Merged>, m: map<Key, Group>, ids: IDs, g: Group)
    requires MergedByID(byID, m, ids) && OwnKeys(m) && g.key !in m
    ensures var id := ids(g.key);
            var before := if id in byID then byID[id] else NOTHING;
            MergedByID(byID[id := AddMerged(before, PartOf(g))], m[g.key := g], ids)
  {
    var id := ids(g.key);
    var before := if id in byID then byID[id] else NOTHING;
    var after, n := byID[id := AddMerged(before, PartOf(g))], m[g.key := g];
    forall i | i in after
      ensures HoldsMerged(after, n, ids, i)
      ensures exists k :: k in n && ids(k) == i
    {
      MergeOne(m, ids, g, i);
      if i == id {
        assert g.key in n;
        if id in byID {
          assert HoldsMerged(byID, m, ids, id);
        }
      } else {
        assert HoldsMerged(byID, m, ids, i);
        var k :| k in m && ids(k) == i;
        assert k in n;
      }
    }
  }

  lemma MergeOne(m: map<Key, Group>, ids: IDs, g: Group, id: ShapeID)
    requires g.key !in m
    ensures MergedOf(m[g.key := g], ids, id) ==
            if ids(g.key) == id then AddMerged(MergedOf(m, ids, id), PartOf(g)) else MergedOf(m, ids, id)
  {
    MergeLawful();
    ClassTotalSet(m, g.key, g, IDOf(ids), id, PartOf, MERGE);
    assert m - {g.key} == m;
    MergeCommutes(MergedOf(m, ids, id), PartOf(g));
  }

  lemma MergeCommutes(x: Merged, y: Merged)
    ensures AddMerged(x, y) == AddMerged(y, x)
  {
  }

  function Visited(groups: Groups, done: set<Key>): map<Key, Group>
  {
    map k | k in groups && k in done :: Group(k, groups[k])
  }

  lemma Visit(groups: Groups, done: set<Key>, k: Key)
    requires k in groups && k !in done
    ensures Visited(groups, done + {k}) == Visited(groups, done)[k := Group(k, groups[k])]
    ensures k !in Visited(groups, done) && OwnKeys(Visited(groups, done))
  {
  }

  lemma VisitedAll(groups: Groups, done: set<Key>)
    requires done == groups.Keys
    ensures Visited(groups, done) == Keyed(groups)
  {
  }

  /** The groups are merged in whatever order the map gives them. */
  method SnapshotInventory(groups: Groups, ids: IDs) returns (byID: map<ShapeID, Merged>)
    ensures MergedByID(byID, Keyed(groups), ids)
  {
    byID := map[];
    var left := groups.Keys;
    ghost var done: set<Key> := {};
    while left != {}
      invariant left !! done && left + done == groups.Keys
      invariant MergedByID(byID, Visited(groups, done), ids)
      decreases |left|
    {
      var k :| k in left;
      byID := MergeNext(groups, ids, byID, k, done);
      Loops.Move(left, done, k);
      left, done := left - {k}, done + {k};
    }
    VisitedAll(groups, done);
  }

  method MergeNext(groups: Groups, ids: IDs, before: map<ShapeID, Merged>, k: Key, ghost done: set<Key>)
    returns (byID: map<ShapeID, Merged>)
    requires k in groups && k !in done && MergedByID(before, Visited(groups, done), ids)
    ensures MergedByID(byID, Visited(groups, done + {k}), ids)
  {
    Visit(groups, done, k);
    MergeGroup(before, Visited(groups, done), ids, Group(k, groups[k]));
    var merged := if ids(k) in before then before[ids(k)] else NOTHING;
    byID := before[ids(k) := AddMerged(merged, PartOf(Group(k, groups[k])))];
  }

  // ------------------------------------------------------------- the work of a shape

  function OpsOf(g: Group): int { g.agg.count }

  function ErrorsOf(g: Group): int { g.agg.errors }

  function TimeOf(g: Group): int { g.agg.sumNs }

  function EligibleOf(g: Group): int { g.agg.capture.eligible }

  /** The sum of a number over the groups of a shape id. */
  ghost function SumOf(groups: Groups, ids: IDs, id: ShapeID, f: Group -> int): int
  {
    ClassTotal(Keyed(groups), IDOf(ids), id, f, PLUS)
  }

  lemma MergedField(groups: Groups, ids: IDs, id: ShapeID, p: Merged -> int, f: Group -> int)
    requires p(NOTHING) == 0 && forall x, y :: p(AddMerged(x, y)) == p(x) + p(y)
    requires forall g :: f(g) == p(PartOf(g))
    ensures p(MergedOf(Keyed(groups), ids, id)) == SumOf(groups, ids, id, f)
  {
    MergeLawful();
    forall x, y
      ensures Additive(p, MERGE, PLUS, x, y)
    {
      assert p(AddMerged(x, y)) == p(x) + p(y);
    }
    var part := OfClass(Keyed(groups), IDOf(ids), id);
    TotalMaps(part, part, PartOf, MERGE, f, PLUS, p);
  }

  /** The operations, errors, time and eligible operations of a shape are the sums over its groups. */
  lemma MergedWork(groups: Groups, ids: IDs, id: ShapeID)
    ensures var w := MergedOf(Keyed(groups), ids, id).work;
            && w.ops == SumOf(groups, ids, id, OpsOf) && w.errors == SumOf(groups, ids, id, ErrorsOf)
            && w.sumNs == SumOf(groups, ids, id, TimeOf) && w.eligible == SumOf(groups, ids, id, EligibleOf)
  {
    MergedField(groups, ids, id, (t: Merged) => t.work.ops, OpsOf);
    MergedField(groups, ids, id, (t: Merged) => t.work.errors, ErrorsOf);
    MergedField(groups, ids, id, (t: Merged) => t.work.sumNs, TimeOf);
    MergedField(groups, ids, id, (t: Merged) => t.work.eligible, EligibleOf);
  }

  /** The slowest operation of a shape is the slowest of its groups. */
  lemma {:induction false} MergedSlowest(m: map<Key, Group>, ids: IDs, id: ShapeID)
    requires OwnKeys(m)
    ensures forall k :: InShape(m, ids, id, k) ==> m[k].agg.maxNs <= MergedOf(m, ids, id).work.maxNs
    ensures MergedOf(m, ids, id).work.maxNs > 0 ==>
              exists k :: InShape(m, ids, id, k) && m[k].agg.maxNs == MergedOf(m, ids, id).work.maxNs
    decreases |m|
  {
    if m != map[] {
      var k :| k in m;
      var rest := m - {k};
      MergedTake(m, ids, id, k);
      MergedSlowest(rest, ids, id);
      var most := MergedOf(m, ids, id).work.maxNs;
      forall j | InShape(m, ids, id, j)
        ensures m[j].agg.maxNs <= most
      {
        assert j == k || InShape(rest, ids, id, j);
      }
      if most > 0 {
        if ids(k) == id && m[k].agg.maxNs == most {
          assert InShape(m, ids, id, k);
        } else {
          var j :| InShape(rest, ids, id, j) && rest[j].agg.maxNs == most;
          assert InShape(m, ids, id, j);
        }
      }
    }
  }

  // --------------------------------------------------- which population the samples are

  /** The groups of one shape id. */
  ghost predicate InShape(m: map<Key, Group>, ids: IDs, id: ShapeID, k: Key) { k in m && ids(k) == id }

  /** Every eligible operation observed for the group is among its retained samples. */
  ghost predicate Complete(g: Agg, seen: seq<Seen>) { g.capture.reservoir == SamplesOf(seen) }

  /** All the eligible operations of the shape's groups were retained, without drops. */
  ghost predicate AllRetained(m: map<Key, Group>, hist: History, ids: IDs, id: ShapeID)
  {
    forall k {:trigger InShape(m, ids, id, k)} :: InShape(m, ids, id, k) ==>
      !Drops(m[k].agg.capture) && Complete(m[k].agg, HistoryOf(hist, k))
  }

  ghost predicate SamplesOk(m: map<Key, Group>, hist: History)
  {
    OwnKeys(m) && forall k {:trigger SampleOk(m, hist, k)} :: k in m ==> SampleOk(m, hist, k)
  }

  ghost predicate SampleOk(m: map<Key, Group>, hist: History, k: Key)
    requires k in m
  {
    ShapeOk(m[k].agg.capture, HistoryOf(hist, k))
  }

  /** Drops of a shape are drops of one of its groups; without drops its samples never outnumber its operations. */
  lemma {:induction false} MergedSamples(m: map<Key, Group>, hist: History, ids: IDs, id: ShapeID)
    requires SamplesOk(m, hist)
    ensures var t := MergedOf(m, ids, id);
            && (t.drops <==> exists k :: InShape(m, ids, id, k) && Drops(m[k].agg.capture))
            && t.inReservoir <= t.work.eligible
            && (!t.drops ==> (t.inReservoir == t.work.eligible <==> AllRetained(m, hist, ids, id)))
    decreases |m|
  {
    if m == map[] {
    } else {
      var k :| k in m;
      var rest := m - {k};
      RestOk(m, hist, k);
      MergedSamples(rest, hist, ids, id);
      MergedTake(m, ids, id, k);
      PartSamples(m, hist, k);
      MergedStep(m, hist, ids, id, k);
    }
  }

  lemma RestOk(m: map<Key, Group>, hist: History, k: Key)
    requires SamplesOk(m, hist) && k in m
    ensures SamplesOk(m - {k}, hist) && |m - {k}| < |m|
  {
    var rest := m - {k};
    forall j | j in rest
      ensures SampleOk(rest, hist, j)
    {
      assert SampleOk(m, hist, j);
    }
  }

  lemma MergedTake(m: map<Key, Group>, ids: IDs, id: ShapeID, k: Key)
    requires k in m && m[k].key == k
    ensures MergedOf(m, ids, id) == if ids(k) == id then AddMerged(PartOf(m[k]), MergedOf(m - {k}, ids, id))
        else MergedOf(m - {k}, ids, id)
  {
    MergeLawful();
    ClassTotalRemove(m, k, IDOf(ids), id, PartOf, MERGE);
  }

  lemma PartSamples(m: map<Key, Group>, hist: History, k: Key)
    requires SamplesOk(m, hist) && k in m
    ensures var p, g := PartOf(m[k]), m[k].agg;
            && p.inReservoir <= p.work.eligible && p.drops == Drops(g.capture)
            && (!p.drops ==> (p.inReservoir == p.work.eligible <==> Complete(g, HistoryOf(hist, k))))
  {
    assert SampleOk(m, hist, k);
    NothingLost(m[k].agg.capture, HistoryOf(hist, k));
  }

  lemma MergedStep(m: map<Key, Group>, hist: History, ids: IDs, id: ShapeID, k: Key)
    requires k in m
    ensures (exists j :: InShape(m, ids, id, j) && Drops(m[j].agg.capture)) <==>
              (ids(k) == id && Drops(m[k].agg.capture))
                || (exists j :: InShape(m - {k}, ids, id, j) && Drops((m - {k})[j].agg.capture))
    ensures AllRetained(m, hist, ids, id) <==>
              (ids(k) == id ==> !Drops(m[k].agg.capture) && Complete(m[k].agg, HistoryOf(hist, k)))
                && AllRetained(m - {k}, hist, ids, id)
  {
    var rest := m - {k};
    assert ids(k) == id ==> InShape(m, ids, id, k);
    forall j
      ensures InShape(m, ids, id, j) <==> InShape(rest, ids, id, j) || (j == k && ids(k) == id)
      ensures InShape(rest, ids, id, j) ==> rest[j] == m[j]
    {
    }
    if AllRetained(m, hist, ids, id) {
      forall j | InShape(rest, ids, id, j)
        ensures !Drops(rest[j].agg.capture) && Complete(rest[j].agg, HistoryOf(hist, j))
      {
        assert InShape(m, ids, id, j);
      }
    }
  }

  /**
   A shape is reported with scope all_operations exactly when it has samples and every
   eligible operation observed for any of its groups, in every database, is among them.
   */
  lemma AllOperationsExact(groups: Groups, hist: History, next: nat, ids: IDs, id: ShapeID)
    requires Faithful(groups, hist, next)
    ensures var t := MergedOf(Keyed(groups), ids, id);
            && (ScopeOf(t) == AllOperations <==> t.samples != multiset{} && AllRetained(Keyed(groups), hist, ids, id))
            && (ScopeOf(t) == NoSamples <==> t.samples == multiset{})
            && (ScopeOf(t) == ReservoirDropped <==>
                  t.samples != multiset{}
                  && exists k :: InShape(Keyed(groups), ids, id, k) && Drops(groups[k].capture))
  {
    var m := Keyed(groups);
    forall k | k in m
      ensures SampleOk(m, hist, k)
    {
      assert GroupOk(groups, hist, next, k);
    }
    MergedSamples(m, hist, ids, id);
  }

  /** The samples of a shape include those of each of its groups. */
  lemma SamplesIncluded(groups: Groups, ids: IDs, k: Key)
    requires k in groups
    ensures multiset(RetainedOf(groups[k].capture)) <= MergedOf(Keyed(groups), ids, ids(k)).samples
  {
    MergedTake(Keyed(groups), ids, ids(k), k);
  }
}
