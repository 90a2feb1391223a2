/**
 The latency histogram of internal/stats/collector.go: whole-millisecond buckets, an
 overflow counter and percentiles read off the buckets. Milliseconds are exact; the
 conversion of a float64 that does not fit an int64 gives the smallest int64, as on amd64.
 The largest float64 is a parameter.
 */
module Histogram {
  const MAX_LATENCY_BIN: nat := 10000
  const INT64_LIMIT: int := 0x8000_0000_0000_0000

  // ---------------------------------------------------------------------- buckets

  /** math.Round: halves are rounded away from zero. */
  function Round(x: real): int { if x >= 0.0 then (x + 0.5).Floor else -((0.5 - x).Floor) }

  /** The conversion of a whole float64 to int. */
  function AsInt(n: int): int { if -INT64_LIMIT <= n < INT64_LIMIT then n else -INT64_LIMIT }

  function Clamp(n: int): (c: nat)
    ensures c <= MAX_LATENCY_BIN
  {
    if n < 0 then 0 else if n >= MAX_LATENCY_BIN then MAX_LATENCY_BIN else n
  }

  /** The bucket of a latency; MAX_LATENCY_BIN stands for the overflow counter. */
  function Bin(ms: real): (b: nat)
    ensures b <= MAX_LATENCY_BIN
  {
    Clamp(AsInt(Round(ms)))
  }

  /** The bucket is the rounded and clamped latency exactly when the rounded latency is below 2^63. */
  lemma BinExact(ms: real)
    ensures Bin(ms) == Clamp(Round(ms)) <==> Round(ms) < INT64_LIMIT
  {
  }

  /** Latencies in order have their buckets in order, as long as they are below 2^63. */
  lemma BinMonotone(a: real, b: real)
    requires a <= b && Round(b) < INT64_LIMIT
    ensures Bin(a) <= Bin(b)
  {
    if a >= 0.0 {
      assert (a + 0.5).Floor <= (b + 0.5).Floor;
    } else {
      assert (0.5 - a).Floor >= 0;
      BinExact(b);
    }
  }

  // ------------------------------------------------------------------- the state

  datatype State = State(buckets: seq<int>, overflow: int, count: int, sum: real, min: real, max: real)

  ghost predicate Shaped(st: State) { |st.buckets| == MAX_LATENCY_BIN }

  ghost function Empty(maxFloat: real): State
  {
    State(seq(MAX_LATENCY_BIN, _ => 0), 0, 0, 0.0, maxFloat, 0.0)
  }

  /** The state after count operations of ms each. */
  ghost function After(st: State, ms: real, count: int): (r: State)
    requires Shaped(st)
    ensures Shaped(r)
  {
    var b := Bin(ms);
    State(if b < MAX_LATENCY_BIN then st.buckets[b := st.buckets[b] + count] else st.buckets,
          if b < MAX_LATENCY_BIN then st.overflow else st.overflow + count,
          st.count + count, st.sum + ms * count as real,
          if ms < st.min then ms else st.min, if ms > st.max then ms else st.max)
  }

  /** A window that saw nothing is not cleared. */
  ghost function Cleared(st: State, maxFloat: real): State { if st.count == 0 then st else Empty(maxFloat) }

  ghost function Repeated(st: State, ms: real, n: nat): (r: State)
    requires Shaped(st)
    ensures Shaped(r)
  {
    if n == 0 then st else After(Repeated(st, ms, n - 1), ms, 1)
  }

  lemma OneMoreTerm(sum: real, ms: real, n: nat)
    ensures sum + ms * n as real + ms * 1 as real == sum + ms * (n + 1) as real
  {
    assert (n + 1) as real == n as real + 1.0;
  }

  lemma OneMore(st: State, ms: real, n: nat)
    requires Shaped(st) && n > 0
    ensures After(After(st, ms, n), ms, 1) == After(st, ms, n + 1)
  {
    OneMoreTerm(st.sum, ms, n);
    var b := Bin(ms);
    if b < MAX_LATENCY_BIN {
      var once := st.buckets[b := st.buckets[b] + n];
      assert once[b := once[b] + 1] == st.buckets[b := st.buckets[b] + (n + 1)];
    }
  }

  lemma {:induction false} BatchSteps(st: State, ms: real, n: nat)
    requires Shaped(st) && n > 0
    ensures Repeated(st, ms, n) == After(st, ms, n)
  {
    if n > 1 {
      BatchSteps(st, ms, n - 1);
      OneMore(st, ms, n - 1);
    } else {
      assert Repeated(st, ms, 1) == After(Repeated(st, ms, 0), ms, 1);
    }
  }

  /** A batch is as many single records, except that an empty batch still lowers min or raises max. */
  lemma BatchIsSingles(st: State, ms: real, n: nat)
    requires Shaped(st)
    ensures After(st, ms, n) == Repeated(st, ms, n) <==> n > 0 || st.min <= ms <= st.max
  {
    if n > 0 {
      BatchSteps(st, ms, n);
    } else {
      assert ms * 0.0 == 0.0;
      assert After(st, ms, 0).buckets == st.buckets;
    }
  }

  /** An empty batch is no record at all, yet gives a fresh histogram a minimum. */
  lemma EmptyBatchHasMinimum(maxFloat: real)
    requires maxFloat > 1.0
    ensures After(Empty(maxFloat), 1.0, 0) != Repeated(Empty(maxFloat), 1.0, 0)
  {
    BatchIsSingles(Empty(maxFloat), 1.0, 0);
  }

  // ------------------------------------------------------------------ percentiles

  function Prefix(buckets: seq<int>, n: nat): int
    requires n <= |buckets|
  {
    if n == 0 then 0 else Prefix(buckets, n - 1) + buckets[n - 1]
  }

  /** The first bucket from i on with which the running count reaches the target. */
  function FirstReaching(buckets: seq<int>, target: int, i: nat): (r: nat)
    requires i <= |buckets|
    ensures i <= r <= |buckets|
    decreases |buckets| - i
  {
    if i == |buckets| || Prefix(buckets, i + 1) >= target then i else FirstReaching(buckets, target, i + 1)
  }

  function Ceil(x: real): int { -((-x).Floor) }

  function Target(p: real, count: int): int { Ceil(p / 100.0 * count as real) }

  ghost function Percentile(st: State, p: real): nat
  {
    if st.count == 0 then 0 else FirstReaching(st.buckets, Target(p, st.count), 0)
  }

  lemma {:induction false} ReachingFacts(buckets: seq<int>, target: int, i: nat)
    requires i <= |buckets| && (i == 0 || Prefix(buckets, i) < target)
    ensures var r := FirstReaching(buckets, target, i);
            (r == 0 || Prefix(buckets, r) < target) && (r < |buckets| ==> Prefix(buckets, r + 1) >= target)
    decreases |buckets| - i
  {
    if i < |buckets| && Prefix(buckets, i + 1) < target {
      ReachingFacts(buckets, target, i + 1);
    }
  }

  lemma {:induction false} ReachingMonotone(buckets: seq<int>, low: int, high: int, i: nat)
    requires i <= |buckets| && low <= high
    ensures FirstReaching(buckets, low, i) <= FirstReaching(buckets, high, i)
    decreases |buckets| - i
  {
    if i < |buckets| && Prefix(buckets, i + 1) < low {
      ReachingMonotone(buckets, low, high, i + 1);
    }
  }

  lemma TargetMonotone(p: real, q: real, count: nat)
    requires p <= q
    ensures Target(p, count) <= Target(q, count)
  {
    var n := count as real;
    assert (q / 100.0 - p / 100.0) * n >= 0.0;
    assert p / 100.0 * n <= q / 100.0 * n;
  }

  /** A higher percentile is no smaller, whatever was counted. */
  lemma PercentileMonotone(st: State, p: real, q: real)
    requires p <= q && st.count >= 0
    ensures Percentile(st, p) <= Percentile(st, q)
  {
    if st.count > 0 {
      TargetMonotone(p, q, st.count);
      ReachingMonotone(st.buckets, Target(p, st.count), Target(q, st.count), 0);
    }
  }

  lemma TargetInRange(p: real, count: nat)
    requires 0.0 < p <= 100.0 && count > 0
    ensures 1 <= Target(p, count) <= count
  {
    var n := count as real;
    assert p / 100.0 * n > 0.0;
    assert (1.0 - p / 100.0) * n >= 0.0;
    assert p / 100.0 * n <= n;
  }

  // ------------------------------------------------------------------ whole runs

  datatype Event = Record(ms: real) | RecordBatch(ms: real, count: nat) | Reset

  ghost function Step(st: State, e: Event, maxFloat: real): (r: State)
    requires Shaped(st)
    ensures Shaped(r)
  {
    match e
    case Record(ms) => After(st, ms, 1)
    case RecordBatch(ms, count) => After(st, ms, count)
    case Reset => Cleared(st, maxFloat)
  }

  ghost function Run(es: seq<Event>, maxFloat: real): (r: State)
    ensures Shaped(r)
  {
    if es == [] then Empty(maxFloat) else Step(Run(es[..|es| - 1], maxFloat), es[|es| - 1], maxFloat)
  }

  ghost function Copies(b: nat, n: nat): seq<nat> { seq(n, _ => b) }

  /** What was recorded since the last reset: the bucket of every single operation, in order. */
  ghost function Recorded(es: seq<Event>): seq<nat>
  {
    if es == [] then []
    else
      var before := Recorded(es[..|es| - 1]);
      match es[|es| - 1]
      case Record(ms) => before + Copies(Bin(ms), 1)
      case RecordBatch(ms, count) => before + Copies(Bin(ms), count)
      case Reset => []
  }

  /** How often a value occurs. */
  function Occurrences(s: seq<nat>, v: nat): (n: nat)
    ensures n == multiset(s)[v]
  {
    if s == [] then 0
    else
      assert s == s[..|s| - 1] + [s[|s| - 1]];
      Occurrences(s[..|s| - 1], v) + if s[|s| - 1] == v then 1 else 0
  }

  lemma {:induction false} OccurrencesOfCopies(s: seq<nat>, b: nat, n: nat, v: nat)
    ensures Occurrences(s + Copies(b, n), v) == Occurrences(s, v) + if v == b then n else 0
  {
    var t := s + Copies(b, n);
    if n == 0 {
      assert t == s;
    } else {
      assert t[..|t| - 1] == s + Copies(b, n - 1);
      OccurrencesOfCopies(s, b, n - 1, v);
    }
  }

  ghost predicate Counts(st: State, values: seq<nat>)
    requires Shaped(st)
  {
    && (forall v :: 0 <= v < MAX_LATENCY_BIN ==> st.buckets[v] == Occurrences(values, v))
    && st.overflow == Occurrences(values, MAX_LATENCY_BIN)
    && st.count == |values|
    && (forall i :: 0 <= i < |values| ==> values[i] <= MAX_LATENCY_BIN)
  }

  lemma AfterCounts(st: State, values: seq<nat>, ms: real, n: nat)
    requires Shaped(st) && Counts(st, values)
    ensures Counts(After(st, ms, n), values + Copies(Bin(ms), n))
  {
    forall v: nat
      ensures Occurrences(values + Copies(Bin(ms), n), v) == Occurrences(values, v) + if v == Bin(ms) then n else 0
    {
      OccurrencesOfCopies(values, Bin(ms), n, v);
    }
  }

  /**
   In every run each bucket counts exactly the operations recorded since the last reset
   that round and clamp to it.
   */
  lemma {:induction false} RunCounts(es: seq<Event>, maxFloat: real)
    ensures Counts(Run(es, maxFloat), Recorded(es))
  {
    if es != [] {
      var before := es[..|es| - 1];
      RunCounts(before, maxFloat);
      var st := Run(before, maxFloat);
      match es[|es| - 1] {
        case Record(ms) => AfterCounts(st, Recorded(before), ms, 1);
        case RecordBatch(ms, count) => AfterCounts(st, Recorded(before), ms, count);
        case Reset =>
          if st.count == 0 {
            assert Recorded(before) == [];
          }
      }
    }
  }

  /** How many values are below v. */
  function Below(s: seq<nat>, v: nat): (n: nat)
    ensures n <= |s|
  {
    if s == [] then 0 else Below(s[..|s| - 1], v) + if s[|s| - 1] < v then 1 else 0
  }

  lemma {:induction false} BelowNext(s: seq<nat>, v: nat)
    ensures Below(s, v + 1) == Below(s, v) + Occurrences(s, v)
  {
    if s != [] {
      BelowNext(s[..|s| - 1], v);
    }
  }

  lemma {:induction false} BelowZero(s: seq<nat>)
    ensures Below(s, 0) == 0
  {
    if s != [] {
      BelowZero(s[..|s| - 1]);
    }
  }

  lemma {:induction false} PrefixIsBelow(st: State, values: seq<nat>, n: nat)
    requires Shaped(st) && Counts(st, values) && n <= MAX_LATENCY_BIN
    ensures Prefix(st.buckets, n) == Below(values, n)
  {
    if n == 0 {
      BelowZero(values);
    } else {
      PrefixIsBelow(st, values, n - 1);
      BelowNext(values, n - 1);
    }
  }

  lemma {:induction false} BelowAll(s: seq<nat>, v: nat)
    requires forall i :: 0 <= i < |s| ==> s[i] < v
    ensures Below(s, v) == |s|
  {
    if s != [] {
      BelowAll(s[..|s| - 1], v);
    }
  }

  /** In every run the buckets and the overflow add up to the count. */
  lemma BucketsSum(es: seq<Event>, maxFloat: real)
    ensures var st := Run(es, maxFloat);
            Prefix(st.buckets, MAX_LATENCY_BIN) + st.overflow == st.count
  {
    var st, values := Run(es, maxFloat), Recorded(es);
    RunCounts(es, maxFloat);
    PrefixIsBelow(st, values, MAX_LATENCY_BIN);
    BelowNext(values, MAX_LATENCY_BIN);
    BelowAll(values, MAX_LATENCY_BIN + 1);
  }

  /** v is the k-th smallest: fewer than k values are below it, and at least k are no larger. */
  ghost predicate IsKth(values: seq<nat>, k: int, v: nat) { Below(values, v) < k <= Below(values, v + 1) }

  ghost predicate Sorted(s: seq<nat>) { forall i, j :: 0 <= i < j < |s| ==> s[i] <= s[j] }

  lemma {:induction false} SortedBelow(s: seq<nat>, v: nat, i: nat)
    requires Sorted(s) && i < |s|
    ensures s[i] < v <==> i < Below(s, v)
  {
    var last := |s| - 1;
    if i < last {
      SortedBelow(s[..last], v, i);
    } else if s[last] < v {
      BelowAll(s, v);
    }
  }

  lemma {:induction false} BelowOfRearranged(s: seq<nat>, t: seq<nat>, v: nat)
    requires multiset(s) == multiset(t)
    ensures Below(s, v) == Below(t, v)
  {
    if v == 0 {
      BelowZero(s);
      BelowZero(t);
    } else {
      BelowOfRearranged(s, t, v - 1);
      BelowNext(s, v - 1);
      BelowNext(t, v - 1);
    }
  }

  /** The k-th smallest is the one at place k of the values in order. */
  lemma KthOfSorted(values: seq<nat>, sorted: seq<nat>, k: nat, v: nat)
    requires Sorted(sorted) && multiset(sorted) == multiset(values) && 1 <= k <= |sorted|
    ensures IsKth(values, k, v) <==> sorted[k - 1] == v
  {
    BelowOfRearranged(values, sorted, v);
    BelowOfRearranged(values, sorted, v + 1);
    SortedBelow(sorted, v, k - 1);
    SortedBelow(sorted, v + 1, k - 1);
  }

  lemma ReachedIsKth(st: State, values: seq<nat>, k: int)
    requires Shaped(st) && Counts(st, values) && 1 <= k <= st.count
    ensures IsKth(values, k, FirstReaching(st.buckets, k, 0))
  {
    ReachingFacts(st.buckets, k, 0);
    var r := FirstReaching(st.buckets, k, 0);
    PrefixIsBelow(st, values, r);
    if r < MAX_LATENCY_BIN {
      PrefixIsBelow(st, values, r + 1);
    } else {
      BelowAll(values, r + 1);
    }
  }

  /** The percentile is the ceil(p * count / 100)-th smallest of the rounded and clamped latencies. */
  lemma PercentileIsKth(es: seq<Event>, maxFloat: real, p: real)
    requires 0.0 < p <= 100.0 && Recorded(es) != []
    ensures var st := Run(es, maxFloat);
            st.count == |Recorded(es)| && IsKth(Recorded(es), Target(p, st.count), Percentile(st, p))
  {
    var st := Run(es, maxFloat);
    RunCounts(es, maxFloat);
    TargetInRange(p, st.count);
    ReachedIsKth(st, Recorded(es), Target(p, st.count));
  }

  // --------------------------------------------------------------------- extremes

  /** The latencies given since the last reset that cleared something, empty batches included. */
  ghost function Given(es: seq<Event>): seq<real>
  {
    if es == [] then []
    else
      var before := es[..|es| - 1];
      match es[|es| - 1]
      case Record(ms) => Given(before) + [ms]
      case RecordBatch(ms, _) => Given(before) + [ms]
      case Reset => if Recorded(before) == [] then Given(before) else []
  }

  ghost predicate Spans(st: State, given: seq<real>, maxFloat: real)
  {
    && (forall i :: 0 <= i < |given| ==> st.min <= given[i] <= st.max)
    && st.min <= maxFloat && st.max >= 0.0
    && (st.min == maxFloat || st.min in given)
    && (st.max == 0.0 || st.max in given)
  }

  lemma AfterSpans(st: State, given: seq<real>, ms: real, n: nat, maxFloat: real)
    requires Shaped(st) && Spans(st, given, maxFloat)
    ensures Spans(After(st, ms, n), given + [ms], maxFloat)
  {
    var r, all := After(st, ms, n), given + [ms];
    assert all[|given|] == ms;
    assert forall i :: 0 <= i < |given| ==> all[i] == given[i];
  }

  /** In every run min and max are the extremes of what was given, with the start values maxFloat and 0. */
  lemma {:induction false} RunSpans(es: seq<Event>, maxFloat: real)
    requires maxFloat >= 0.0
    ensures Spans(Run(es, maxFloat), Given(es), maxFloat)
  {
    if es != [] {
      var before := es[..|es| - 1];
      RunSpans(before, maxFloat);
      RunCounts(before, maxFloat);
      var st := Run(before, maxFloat);
      match es[|es| - 1] {
        case Record(ms) => AfterSpans(st, Given(before), ms, 1, maxFloat);
        case RecordBatch(ms, count) => AfterSpans(st, Given(before), ms, count, maxFloat);
        case Reset =>
      }
    }
  }

  // -------------------------------------------------------------------- the class

  class LatencyHistogram {
    const buckets: array<int>
    const maxFloat: real
    var overflow: int
    var count: int
    var sum: real
    var min: real
    var max: real

    ghost function Contents(): State
      reads this, buckets
    {
      State(buckets[..], overflow, count, sum, min, max)
    }

    ghost predicate Valid()
      reads this, buckets
    {
      Shaped(Contents())
    }

    constructor (maxFloat: real)
      ensures Valid() && fresh(buckets) && this.maxFloat == maxFloat
      ensures Contents() == Empty(maxFloat)
    {
      this.maxFloat := maxFloat;
      buckets := new int[MAX_LATENCY_BIN](_ => 0);
      overflow, count, sum, min, max := 0, 0, 0.0, maxFloat, 0.0;
      new;
      assert buckets[..] == Empty(maxFloat).buckets;
    }

    method Record(ms: real)
      requires Valid()
      modifies this, buckets
      ensures Contents() == After(old(Contents()), ms, 1)
    {
      count := count + 1;
      sum := sum + ms;
      if ms < min {
        min := ms;
      }
      if ms > max {
        max := ms;
      }
      var bucket := AsInt(Round(ms));
      if bucket < 0 {
        bucket := 0;
      }
      if bucket >= MAX_LATENCY_BIN {
        overflow := overflow + 1;
      } else {
        buckets[bucket] := buckets[bucket] + 1;
      }
    }

    method RecordBatch(ms: real, n: nat)
      requires Valid()
      modifies this, buckets
      ensures Contents() == After(old(Contents()), ms, n)
    {
      count := count + n;
      sum := sum + ms * n as real;
      if ms < min {
        min := ms;
      }
      if ms > max {
        max := ms;
      }
      var bucket := AsInt(Round(ms));
      if bucket < 0 {
        bucket := 0;
      }
      if bucket >= MAX_LATENCY_BIN {
        overflow := overflow + n;
      } else {
        buckets[bucket] := buckets[bucket] + n;
      }
    }

    method GetPercentile(p: real) returns (ms: nat)
      requires Valid()
      ensures ms == Percentile(Contents(), p)
    {
      if count == 0 {
        return 0;
      }
      var target, current := Target(p, count), 0;
      for i := 0 to MAX_LATENCY_BIN
        invariant current == Prefix(buckets[..], i)
        invariant FirstReaching(buckets[..], target, 0) == FirstReaching(buckets[..], target, i)
      {
        current := current + buckets[i];
        if current >= target {
          return i;
        }
      }
      return MAX_LATENCY_BIN;
    }

    method SnapshotAndReset() returns (n: int, p50: nat, p95: nat, p99: nat, highest: real)
      requires Valid()
      modifies this, buckets
      ensures n == old(count)
      ensures p50 == Percentile(old(Contents()), 50.0) && p95 == Percentile(old(Contents()), 95.0)
      ensures p99 == Percentile(old(Contents()), 99.0)
      ensures highest == if n == 0 then 0.0 else old(max)
      ensures Contents() == Cleared(old(Contents()), maxFloat)
    {
      if count == 0 {
        return 0, 0, 0, 0, 0.0;
      }
      n, highest := count, max;
      p50 := GetPercentile(50.0);
      p95 := GetPercentile(95.0);
      p99 := GetPercentile(99.0);
      forall i | 0 <= i < buckets.Length {
        buckets[i] := 0;
      }
      overflow, count, sum, min, max := 0, 0, 0.0, maxFloat, 0.0;
      assert buckets[..] == Empty(maxFloat).buckets;
    }
  }
}
