/**
 Full-run impact accounting and bounded sample capture over all shapes
 (impactState.record in internal/stats/impact.go, captureState in internal/stats/capture.go,
 RecordOperationEvent and ResetInsights in internal/stats/insights.go).
 */
module CollectorState {
  import opened Wrappers
  import opened MapTotals
  import opened Capture

  datatype Key = Key(op: string, database: string, collection: string, shape: string)

  datatype Agg = Agg(summary: string, queryLabel: string, count: nat, errors: nat, sumNs: int, maxNs: nat,
        capture: Shape)

  // ------------------------------------------------------------ sums over the groups

  datatype Pair = Pair(x: int, y: int)

  function AddPair(p: Pair, q: Pair): Pair { Pair(p.x + q.x, p.y + q.y) }

  /** What one group contributes to the full-run counters: operations and time, samples, drops. */
  datatype Tally = Tally(work: Pair, samples: Pair, drops: Pair)

  const NO_TALLY: Tally := Tally(Pair(0, 0), Pair(0, 0), Pair(0, 0))

  const TALLIES: Monoid<Tally> := Monoid(NO_TALLY, AddTally)

  function AddTally(t: Tally, u: Tally): Tally
  {
    Tally(AddPair(t.work, u.work), AddPair(t.samples, u.samples), AddPair(t.drops, u.drops))
  }

  function TallyOf(g: Agg): Tally
  {
    var s := g.capture;
    Tally(Pair(g.count, g.sumNs), Pair(s.eligible, s.admitted), Pair(s.dropped.oversized, s.dropped.byteBudget))
  }

  function BytesOf(g: Agg): int { RetainedBytes(g.capture) }

  type Groups = map<Key, Agg>

  ghost function GroupsTotal(groups: Groups): Tally { Total(groups, TallyOf, TALLIES) }

  /** The bytes of every reservoir entry and slowest slot of every group. */
  ghost function GroupsBytes(groups: Groups): int { Total(groups, BytesOf, PLUS) }

  /** The contribution of a key before it is set. */
  ghost function Before(groups: Groups, k: Key): Tally { Contribution(groups, k, TallyOf, TALLIES) }

  ghost function BytesBefore(groups: Groups, k: Key): int { Contribution(groups, k, BytesOf, PLUS) }

  /** Setting one group changes the totals by the difference of its contributions. */
  lemma SetGroup(groups: Groups, k: Key, g: Agg)
    ensures AddTally(Before(groups, k), GroupsTotal(groups[k := g])) == AddTally(TallyOf(g), GroupsTotal(groups))
  {
    TotalChange(groups, k, g, TallyOf, TALLIES);
  }

  lemma SetBytes(groups: Groups, k: Key, g: Agg)
    ensures BytesBefore(groups, k) + GroupsBytes(groups[k := g]) == BytesOf(g) + GroupsBytes(groups)
  {
    TotalChange(groups, k, g, BytesOf, PLUS);
  }

  // ----------------------------------------------------------------------- impact

  /** The group after one more operation. */
  function Recorded(g: Agg, ns: nat, success: bool): Agg
  {
    g.(count := g.count + 1, errors := if success then g.errors else g.errors + 1, sumNs := g.sumNs + ns,
       maxNs := if ns > g.maxNs then ns else g.maxNs)
  }

  predicate NewGroup(g: Agg, summary: string, queryLabel: string)
  {
    g.summary == summary && g.queryLabel == queryLabel && g.count == 0 && g.errors == 0 && g.sumNs == 0
      && g.maxNs == 0 && Blank(g.capture)
  }

  /** An operation of a group: its time, and whether it succeeded. */
  datatype Ran = Ran(ns: nat, success: bool)

  function RecordedAll(g: Agg, ops: seq<Ran>): Agg
  {
    if ops == [] then g
    else Recorded(RecordedAll(g, ops[..|ops| - 1]), ops[|ops| - 1].ns, ops[|ops| - 1].success)
  }

  /** The places of the operations that failed. */
  function FailedAt(ops: seq<Ran>): set<nat> { set i: nat | i < |ops| && !ops[i].success }

  lemma FailedNext(ops: seq<Ran>, r: Ran)
    ensures |FailedAt(ops + [r])| == |FailedAt(ops)| + if r.success then 0 else 1
  {
    assert FailedAt(ops + [r]) == FailedAt(ops) + if r.success then {} else {|ops|};
  }

  function SumNs(ops: seq<Ran>): nat { if ops == [] then 0 else ops[0].ns + SumNs(ops[1..]) }

  lemma {:induction false} SumNsNext(ops: seq<Ran>, r: Ran)
    ensures SumNs(ops + [r]) == SumNs(ops) + r.ns
  {
    if ops != [] {
      assert (ops + [r])[1..] == ops[1..] + [r];
      SumNsNext(ops[1..], r);
    }
  }

  /** The slowest time. */
  ghost predicate IsMax(ops: seq<Ran>, most: nat)
  {
    (forall i :: 0 <= i < |ops| ==> ops[i].ns <= most)
      && (ops != [] ==> exists i :: 0 <= i < |ops| && ops[i].ns == most)
  }

  lemma MaxNext(ops: seq<Ran>, most: nat, r: Ran)
    requires IsMax(ops, most) && (ops == [] ==> most == 0)
    ensures IsMax(ops + [r], if r.ns > most then r.ns else most)
  {
    var all := ops + [r];
    assert all[|ops|] == r;
    if r.ns <= most && ops != [] {
      var i :| 0 <= i < |ops| && ops[i].ns == most;
      assert all[i].ns == most;
    }
  }

  /** The group counts these operations and their failures, adds up their times and keeps the longest. */
  ghost predicate Describes(r: Agg, g: Agg, ops: seq<Ran>)
  {
    && r.count == |ops| && r.errors == |FailedAt(ops)| && r.sumNs == SumNs(ops) && IsMax(ops, r.maxNs)
    && (ops == [] ==> r.maxNs == 0)
    && r.summary == g.summary && r.queryLabel == g.queryLabel && r.capture == g.capture
  }

  lemma DescribesNext(r: Agg, g: Agg, ops: seq<Ran>, x: Ran)
    requires Describes(r, g, ops)
    ensures Describes(Recorded(r, x.ns, x.success), g, ops + [x])
  {
    FailedNext(ops, x);
    SumNsNext(ops, x);
    MaxNext(ops, r.maxNs, x);
  }

  lemma {:induction false} RecordedRun(g: Agg, summary: string, queryLabel: string, ops: seq<Ran>)
    requires NewGroup(g, summary, queryLabel)
    ensures Describes(RecordedAll(g, ops), g, ops)
  {
    if ops == [] {
      assert FailedAt(ops) == {};
    } else {
      var before, last := ops[..|ops| - 1], ops[|ops| - 1];
      RecordedRun(g, summary, queryLabel, before);
      DescribesNext(RecordedAll(g, before), g, before, last);
      assert ops == before + [last];
    }
  }

  const EXPLAINABLE: set<string> := {"find", "aggregate", "updateOne", "updateMany", "deleteOne", "deleteMany"}

  type History = map<Key, seq<Seen>>

  function HistoryOf(hist: History, k: Key): seq<Seen> { if k in hist then hist[k] else [] }

  /** A group's samples fit what was observed for it; sample ids are below next. */
  ghost predicate GroupOk(groups: Groups, hist: History, next: nat, k: Key)
    requires k in groups
  {
    && ShapeOk(groups[k].capture, HistoryOf(hist, k))
    && (forall x :: x in HistoryOf(hist, k) ==> x.sample.id < next)
  }

  ghost predicate Faithful(groups: Groups, hist: History, next: nat)
  {
    hist.Keys <= groups.Keys && forall k {:trigger GroupOk(groups, hist, next, k)} :: k in groups ==>
      GroupOk(groups, hist, next, k)
  }

  /** The full-run numbers: operations and time outside overflow, samples, drops, bytes. */
  datatype Numbers = Numbers(work: Pair, samples: Pair, drops: Pair, retained: nat)

  ghost predicate Tallied(groups: Groups, n: Numbers)
  {
    GroupsTotal(groups) == Tally(n.work, n.samples, n.drops) && GroupsBytes(groups) == n.retained
  }

  /** If a group's contribution changes as the full-run numbers do, they still fit. */
  lemma Replaced(groups: Groups, k: Key, g: Agg, n: Numbers, n': Numbers)
    requires Tallied(groups, n)
    requires AddTally(Before(groups, k), Tally(n'.work, n'.samples, n'.drops))
        == AddTally(TallyOf(g), Tally(n.work, n.samples, n.drops))
    requires BytesBefore(groups, k) + n'.retained == BytesOf(g) + n.retained
    ensures Tallied(groups[k := g], n')
  {
    SetGroup(groups, k, g);
    SetBytes(groups, k, g);
  }

  /** One more operation of a group. */
  lemma RecordedTallied(groups: Groups, k: Key, g: Agg, ns: nat, success: bool, n: Numbers)
    requires Tallied(groups, n)
    requires TallyOf(g) == Before(groups, k) && BytesOf(g) == BytesBefore(groups, k)
    ensures Tallied(groups[k := Recorded(g, ns, success)], n.(work := Pair(n.work.x + 1, n.work.y + ns)))
  {
    Replaced(groups, k, Recorded(g, ns, success), n, n.(work := Pair(n.work.x + 1, n.work.y + ns)));
  }

  /** A change to one group and its history leaves the other groups' samples as they were. */
  lemma OtherGroups(groups: Groups, hist: History, next: nat, k: Key, g: Agg, h: seq<Seen>, next': nat)
    requires Faithful(groups, hist, next) && next <= next'
    requires GroupOk(groups[k := g], hist[k := h], next', k)
    ensures Faithful(groups[k := g], hist[k := h], next')
  {
    var after := groups[k := g];
    forall j | j in after
      ensures GroupOk(groups[k := g], hist[k := h], next', j)
    {
      if j != k {
        assert GroupOk(groups, hist, next, j);
      }
    }
  }

  lemma RecordedFaithful(groups: Groups, hist: History, next: nat, k: Key, g: Agg, ns: nat, success: bool)
    requires Faithful(groups, hist, next)
    requires if k in groups then g == groups[k] else Blank(g.capture)
    ensures Faithful(groups[k := Recorded(g, ns, success)], hist, next)
  {
    var after := groups[k := Recorded(g, ns, success)];
    forall j | j in after
      ensures GroupOk(after, hist, next, j)
    {
      if j in groups {
        assert GroupOk(groups, hist, next, j);
      }
    }
  }

  /** The numbers after an eligible operation of a shape. */
  function Counted(n: Numbers, s: Shape, x: Sample, draw: nat): Numbers
    requires n.retained >= Freed(s, x, SlotFor(s, draw))
  {
    var slot := SlotFor(s, draw);
    var c := n.(samples := Pair(n.samples.x + 1, n.samples.y));
    match FateOf(s, x, draw, n.retained)
    case PassedOver => c
    case Oversized => c.(drops := Pair(n.drops.x + 1, n.drops.y))
    case NoBudget => c.(drops := Pair(n.drops.x, n.drops.y + 1))
    case Admitted =>
      c.(samples := Pair(n.samples.x + 1, n.samples.y + 1),
        retained := n.retained + Added(s, x, slot) - Freed(s, x, slot))
  }

  /** The bytes of one group are part of all bytes. */
  lemma GroupBytes(groups: Groups, k: Key)
    requires k in groups
    ensures GroupsBytes(groups) >= BytesOf(groups[k])
  {
    TotalRemove(groups, k, BytesOf, PLUS);
    BytesNonNegative(groups - {k});
  }

  lemma {:induction false} BytesNonNegative(groups: Groups)
    ensures GroupsBytes(groups) >= 0
    decreases |groups|
  {
    if groups != map[] {
      var k :| k in groups;
      TotalRemove(groups, k, BytesOf, PLUS);
      BytesNonNegative(groups - {k});
    }
  }

  /** Freed bytes are among the shape's bytes. */
  lemma FreedWithin(s: Shape, x: Sample, draw: nat)
    ensures Freed(s, x, SlotFor(s, draw)) <= RetainedBytes(s)
  {
    var slot := SlotFor(s, draw);
    if slot.Some? && slot.value < |s.reservoir| {
      SumBytesUpdate(s.reservoir, slot.value, Sample(0, 0, 0));
    }
  }

  lemma RoomToFree(groups: Groups, k: Key, n: Numbers, x: Sample, draw: nat)
    requires Tallied(groups, n) && k in groups
    ensures var s := groups[k].capture; n.retained >= Freed(s, x, SlotFor(s, draw))
  {
    GroupBytes(groups, k);
    FreedWithin(groups[k].capture, x, draw);
  }

  lemma ObservedTallied(groups: Groups, k: Key, n: Numbers, x: Sample, draw: nat)
    requires Tallied(groups, n) && k in groups
    requires n.retained >= Freed(groups[k].capture, x, SlotFor(groups[k].capture, draw))
    ensures var s := groups[k].capture;
            Tallied(groups[k := groups[k].(capture := Observed(s, x, draw, n.retained))], Counted(n, s, x, draw))
  {
    var s := groups[k].capture;
    var g := groups[k].(capture := Observed(s, x, draw, n.retained));
    SetGroup(groups, k, g);
    SetBytes(groups, k, g);
    ObservedBytes(s, x, draw, n.retained);
  }

  lemma ObservedFaithful(groups: Groups, hist: History, next: nat, k: Key, x: Sample, draw: nat, retained: nat)
    requires Faithful(groups, hist, next) && k in groups && x.id == next
    ensures var s := groups[k].capture;
            Faithful(groups[k := groups[k].(capture := Observed(s, x, draw, retained))],
                     hist[k := Remembered(s, HistoryOf(hist, k), x, draw, retained)], next + 1)
  {
    var s, seen := groups[k].capture, HistoryOf(hist, k);
    assert GroupOk(groups, hist, next, k);
    assert Unseen(seen, x) by {
      assert forall i :: 0 <= i < |seen| ==> seen[i] in seen;
    }
    ObservedOk(s, seen, x, draw, retained);
    OtherGroups(groups, hist, next, k, groups[k].(capture := Observed(s, x, draw, retained)),
      Remembered(s, seen, x, draw, retained), next + 1);
  }

  // -------------------------------------------------------------------- the collector

  /** The numbers of impactState. */
  datatype Totals = Totals(ops: nat, ns: int, overflowOps: nat, overflowNs: int)

  /** How captureState classified the recorded operations. */
  datatype Classes = Classes(eligible: nat, failed: nat, notExplainable: nat, noQuery: nat, untracked: nat)

  /** What captureState did with the samples. */
  datatype Admission = Admission(admitted: nat, evicted: nat, oversized: nat, byteBudget: nat, retained: nat)

  function ClassSum(c: Classes): nat { c.eligible + c.failed + c.notExplainable + c.noQuery + c.untracked }

  function NumbersOf(t: Totals, c: Classes, a: Admission): Numbers
  {
    Numbers(Pair(t.ops - t.overflowOps, t.ns - t.overflowNs), Pair(c.eligible, a.admitted),
      Pair(a.oversized, a.byteBudget), a.retained)
  }

  /** Why an operation was not captured, or that it was eligible. */
  datatype Class = Eligible | Failed | NotExplainable | NoQuery | Untracked

  /** What cannot be explained comes first, then a failure, a missing query and a missing group. */
  function ClassOf(k: Key, success: bool, bytes: Option<nat>, tracked: bool): (c: Class)
    ensures c == Eligible <==> k.op in EXPLAINABLE && success && bytes.Some? && tracked
    ensures c == NotExplainable <==> k.op !in EXPLAINABLE
    ensures c == Failed <==> k.op in EXPLAINABLE && !success
    ensures c == NoQuery <==> k.op in EXPLAINABLE && success && bytes.None?
  {
    if k.op !in EXPLAINABLE then NotExplainable
    else if !success then Failed
    else if bytes.None? then NoQuery
    else if !tracked then Untracked
    else Eligible
  }

  function Classified(n: Classes, c: Class): (r: Classes)
    ensures ClassSum(r) == ClassSum(n) + 1
  {
    match c
    case Eligible => n.(eligible := n.eligible + 1)
    case Failed => n.(failed := n.failed + 1)
    case NotExplainable => n.(notExplainable := n.notExplainable + 1)
    case NoQuery => n.(noQuery := n.noQuery + 1)
    case Untracked => n.(untracked := n.untracked + 1)
  }

  predicate NothingRecorded(t: Totals, c: Classes, a: Admission)
  {
    && t.ops == 0 && t.ns == 0 && t.overflowOps == 0 && t.overflowNs == 0 && ClassSum(c) == 0
    && a.admitted == 0 && a.evicted == 0 && a.oversized == 0 && a.byteBudget == 0 && a.retained == 0
  }

  method ZeroCounters() returns (t: Totals, c: Classes, a: Admission)
    ensures NothingRecorded(t, c, a)
  {
    t, c, a := Totals(0, 0, 0, 0), Classes(0, 0, 0, 0, 0), Admission(0, 0, 0, 0, 0);
  }

  /** The full-run numbers and samples fit the groups, whatever classes the operations were put in. */
  ghost predicate Accounted(groups: Groups, hist: History, next: nat, n: Numbers, maxGroups: nat)
  {
    Tallied(groups, n) && Faithful(groups, hist, next) && |groups| <= maxGroups && n.retained <= MAX_RETAINED_BYTES
  }

  lemma EmptyAccounted(groups: Groups, hist: History, next: nat, t: Totals, c: Classes, a: Admission, maxGroups: nat)
    ensures groups == map[] && hist == map[] && NothingRecorded(t, c, a) ==>
        Accounted(groups, hist, next, NumbersOf(t, c, a), maxGroups)
  {
  }

  /**
   What holds after every run of recorded operations and resets: bytes are exactly those of
   the retained samples and bounded, counters are the sums over the groups, and each shape's
   samples are bounded, with the slowest at least as slow as everything ever admitted.
   */
  lemma AccountedFacts(groups: Groups, hist: History, next: nat, t: Totals, c: Classes, a: Admission, maxGroups: nat,
        k: Key)
    requires Accounted(groups, hist, next, NumbersOf(t, c, a), maxGroups)
    ensures GroupsBytes(groups) == a.retained <= MAX_RETAINED_BYTES
    ensures GroupsTotal(groups)
        == Tally(Pair(t.ops - t.overflowOps, t.ns - t.overflowNs), Pair(c.eligible, a.admitted),
        Pair(a.oversized, a.byteBudget))
    ensures k in groups ==>
              var s := groups[k].capture;
              && |s.reservoir| <= SAMPLES_PER_SHAPE && s.eligible == |HistoryOf(hist, k)|
              && forall x :: Seen(x, true) in HistoryOf(hist, k) ==>
                s.slowest.Some? && x.durationNs <= s.slowest.value.durationNs
  {
    if k in groups {
      assert GroupOk(groups, hist, next, k);
    }
  }

  class Collector {
    const maxGroups: nat
    const captures: bool
    var groups: Groups
    var totals: Totals
    var classes: Classes
    var admission: Admission
    /** The identity of the next copied query. */
    var next: nat
    /** The eligible operations observed for each shape since the last reset. */
    ghost var hist: History

    constructor (maxGroups: nat, captures: bool)
      ensures this.maxGroups == maxGroups && this.captures == captures && Valid() && groups == map[]
    {
      this.maxGroups, this.captures := maxGroups, captures;
      groups, next, hist := map[], 0, map[];
      new;
      totals, classes, admission := ZeroCounters();
      EmptyAccounted(groups, hist, next, totals, classes, admission, maxGroups);
    }

    ghost predicate Valid()
      reads this
    {
      && Accounted(groups, hist, next, NumbersOf(totals, classes, admission), maxGroups)
      && ClassSum(classes) == if captures then totals.ops else 0
    }

    /** ResetInsights: impact and capture start over together. */
    method Reset()
      modifies this
      ensures Valid() && groups == map[] && hist == map[] && NothingRecorded(totals, classes, admission)
    {
      totals, classes, admission := ZeroCounters();
      groups, hist := map[], map[];
      EmptyAccounted(groups, hist, next, totals, classes, admission, maxGroups);
    }

    /** impactState.record: whether the shape's group is tracked. */
    method Record(k: Key, summary: string, queryLabel: string, ns: nat, success: bool) returns (tracked: bool)
      requires Valid()
      modifies `groups, `totals
      ensures tracked <==> k in old(groups) || |old(groups)| < maxGroups
      ensures totals.ops == old(totals).ops + 1 && totals.ns == old(totals).ns + ns
      ensures !tracked ==> groups == old(groups)
      ensures tracked && k in old(groups) ==> groups == old(groups)[k := Recorded(old(groups)[k], ns, success)]
      ensures tracked && k !in old(groups) ==>
                exists g :: NewGroup(g, summary, queryLabel) && groups == old(groups)[k := Recorded(g, ns, success)]
      ensures Accounted(groups, hist, next, NumbersOf(totals, classes, admission), maxGroups)
    {
      totals := totals.(ops := totals.ops + 1, ns := totals.ns + ns);
      var blank := NewShape();
      var g := Agg(summary, queryLabel, 0, 0, 0, 0, blank);
      if k in groups {
        g := groups[k];
      } else if |groups| >= maxGroups {
        totals := totals.(overflowOps := totals.overflowOps + 1, overflowNs := totals.overflowNs + ns);
        return false;
      } else {
        assert NewGroup(g, summary, queryLabel);
      }
      RecordedTallied(groups, k, g, ns, success, NumbersOf(old(totals), classes, admission));
      RecordedFaithful(groups, hist, next, k, g, ns, success);
      groups := groups[k := Recorded(g, ns, success)];
      tracked := true;
    }

    /** captureState.observe for an eligible operation of a tracked shape. */
    method ObserveEligible(k: Key, ns: nat, bytes: nat, draw: nat)
      requires Accounted(groups, hist, next, NumbersOf(totals, classes, admission), maxGroups) && k in groups
      modifies `groups, `classes, `admission, `next, `hist
      ensures Accounted(groups, hist, next, NumbersOf(totals, classes, admission), maxGroups)
      ensures classes == old(classes).(eligible := old(classes).eligible + 1)
      ensures var s, x := old(groups)[k].capture, Sample(old(next), ns, bytes);
              && groups == old(groups)[k := old(groups)[k].(capture := Observed(s, x, draw, old(admission).retained))]
              && hist == old(hist)[k := Remembered(s, HistoryOf(old(hist), k), x, draw, old(admission).retained)]
    {
      var s, x := groups[k].capture, Sample(next, ns, bytes);
      ghost var n := NumbersOf(totals, classes, admission);
      RoomToFree(groups, k, n, x, draw);
      ObservedTallied(groups, k, n, x, draw);
      ObservedFaithful(groups, hist, next, k, x, draw, n.retained);
      hist := hist[k := Remembered(s, HistoryOf(hist, k), x, draw, n.retained)];
      var after;
      after, admission := Sampled(s, x, draw, admission);
      classes := classes.(eligible := classes.eligible + 1);
      groups := groups[k := groups[k].(capture := after)];
      next := next + 1;
    }

    /** Counts an operation that is not eligible for what it is. */
    method Classify(k: Key, success: bool, bytes: Option<nat>, tracked: bool) returns (eligible: bool)
      modifies `classes
      ensures eligible <==> ClassOf(k, success, bytes, tracked) == Eligible
      ensures classes == if eligible then old(classes)
          else Classified(old(classes), ClassOf(k, success, bytes, tracked))
    {
      eligible := false;
      if k.op !in EXPLAINABLE {
        classes := classes.(notExplainable := classes.notExplainable + 1);
      } else if !success {
        classes := classes.(failed := classes.failed + 1);
      } else if bytes.None? {
        classes := classes.(noQuery := classes.noQuery + 1);
      } else if !tracked {
        classes := classes.(untracked := classes.untracked + 1);
      } else {
        eligible := true;
      }
    }

    /** RecordOperationEvent without its event buffer; bytes is None without an executable query. */
    method RecordOperation(k: Key, summary: string, queryLabel: string, ns: nat, success: bool, bytes: Option<nat>,
          draw: nat)
      requires Valid()
      modifies this
      ensures Valid() && totals.ops == old(totals).ops + 1 && totals.ns == old(totals).ns + ns
      ensures |HistoryOf(hist, k)| == |HistoryOf(old(hist), k)|
              + if captures && k.op in EXPLAINABLE && success && bytes.Some? && k in groups then 1 else 0
      ensures forall j :: j != k ==> HistoryOf(hist, j) == HistoryOf(old(hist), j)
      ensures forall j :: j != k ==> (j in groups <==> j in old(groups))
      ensures classes == if captures then Classified(old(classes), ClassOf(k, success, bytes, k in groups))
          else old(classes)
    {
      var tracked := Record(k, summary, queryLabel, ns, success);
      if !captures {
        return;
      }
      var eligible := Classify(k, success, bytes, tracked);
      if eligible {
        ObserveEligible(k, ns, bytes.value, draw);
      }
    }
  }

  /** The admission counters after an eligible operation. */
  predicate AdmissionChanges(a: Admission, b: Admission, s: Shape, x: Sample, draw: nat)
    requires a.retained >= Freed(s, x, SlotFor(s, draw))
  {
    var slot, fate := SlotFor(s, draw), FateOf(s, x, draw, a.retained);
    && b.admitted == a.admitted + (if fate.Admitted? then 1 else 0)
    && b.oversized == a.oversized + (if fate.Oversized? then 1 else 0)
    && b.byteBudget == a.byteBudget + (if fate.NoBudget? then 1 else 0)
    && b.retained == (if fate.Admitted? then a.retained + Added(s, x, slot) - Freed(s, x, slot) else a.retained)
    && b.evicted == a.evicted + (if fate.Admitted? then Evictions(s, x, slot) else 0)
  }

  /** The samples a new one replaces. */
  function Evictions(s: Shape, x: Sample, slot: Option<nat>): nat
  {
    (if slot.Some? && slot.value < |s.reservoir| then 1 else 0) + (if NewSlowest(s, x) && s.slowest.Some? then 1 else 0)
  }

  /** The places that hold a sample: the entries of the reservoir and the slowest. */
  function Places(s: Shape): nat { |s.reservoir| + if s.slowest.Some? then 1 else 0 }

  /** An admitted sample takes one or two places, and what it evicts gave as many back. */
  lemma EvictionsExact(s: Shape, x: Sample, draw: nat, retained: nat)
    requires FateOf(s, x, draw, retained).Admitted?
    ensures var after, slot := Observed(s, x, draw, retained), SlotFor(s, draw);
            Places(after) + Evictions(s, x, slot)
              == Places(s) + (if slot.Some? then 1 else 0) + (if NewSlowest(s, x) then 1 else 0)
  {
  }

  /** Places the sample and updates the counters. */
  method Sampled(s: Shape, x: Sample, draw: nat, a: Admission) returns (after: Shape, b: Admission)
    requires a.retained >= Freed(s, x, SlotFor(s, draw)) && a.retained <= MAX_RETAINED_BYTES
    ensures after == Observed(s, x, draw, a.retained) && AdmissionChanges(a, b, s, x, draw)
        && b.retained <= MAX_RETAINED_BYTES
  {
    after, b := s.(eligible := s.eligible + 1), a;
    var slot := SlotFor(s, draw);
    var slower := NewSlowest(s, x);
    if slot.None? && !slower {
      return;
    }
    if x.bytes > MAX_SAMPLE_BYTES {
      after := after.(dropped := s.dropped.(oversized := s.dropped.oversized + 1));
      b := b.(oversized := b.oversized + 1);
      return;
    }
    var freed, added, evictions := 0, 0, 0;
    if slot.Some? {
      added := added + x.bytes;
      if slot.value < |s.reservoir| {
        freed, evictions := freed + s.reservoir[slot.value].bytes, evictions + 1;
      }
    }
    if slower {
      added := added + x.bytes;
      if s.slowest.Some? {
        freed, evictions := freed + s.slowest.value.bytes, evictions + 1;
      }
    }
    if a.retained - freed + added > MAX_RETAINED_BYTES {
      after := after.(dropped := s.dropped.(byteBudget := s.dropped.byteBudget + 1));
      b := b.(byteBudget := b.byteBudget + 1);
      return;
    }
    if slot.Some? {
      after := after.(reservoir := if slot.value < |s.reservoir| then s.reservoir[slot.value := x]
        else s.reservoir + [x]);
    }
    if slower {
      after := after.(slowest := Some(x));
    }
    after := after.(admitted := s.admitted + 1);
    b := b.(retained := a.retained + added - freed, evicted := a.evicted + evictions, admitted := a.admitted + 1);
  }
}
