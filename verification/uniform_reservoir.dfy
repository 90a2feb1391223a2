/**
 The reservoir of a shape is a uniform sample of its eligible operations (shapeCapture and
 captureState.observe in internal/stats/capture.go): of all ways in which the random draws
 can fall, each operation is kept in the same number of them.
 */
module UniformReservoir {
  import opened Capture

  /**
   Samples of up to most bytes are small enough, and there is always room for one in the
   reservoir and as the slowest; retained(s) is what all shapes retain when the next
   operation of this one arrives.
   */
  ghost predicate Room(retained: Shape -> nat, most: nat)
  {
    most <= MAX_SAMPLE_BYTES && forall s :: retained(s) + 2 * most <= MAX_RETAINED_BYTES
  }

  ghost predicate AllSmall(arrivals: seq<Sample>, most: nat)
  {
    forall i :: 0 <= i < |arrivals| ==> arrivals[i].bytes <= most
  }

  // ------------------------------------------------------------------ sums over draws

  ghost function SumTo(f: nat -> nat, n: nat): nat { if n == 0 then 0 else SumTo(f, n - 1) + f(n - 1) }

  ghost function CountTo(p: nat -> bool, n: nat): nat
  {
    if n == 0 then 0 else CountTo(p, n - 1) + if p(n - 1) then 1 else 0
  }

  lemma {:induction false} SumScaled(f: nat -> nat, n: nat, c: nat, p: nat -> bool, v: nat)
    requires forall d: nat :: d < n ==> f(d) * c == if p(d) then v else 0
    ensures SumTo(f, n) * c == CountTo(p, n) * v
  {
    if n > 0 {
      SumScaled(f, n - 1, c, p, v);
      Distribute(SumTo(f, n - 1), f(n - 1), c);
      Distribute(CountTo(p, n - 1), if p(n - 1) then 1 else 0, v);
    }
  }

  lemma Distribute(a: nat, b: nat, c: nat)
    ensures (a + b) * c == a * c + b * c
  {
  }

  lemma {:induction false} CountBelow(p: nat -> bool, n: nat, k: nat)
    requires forall d: nat :: d < n ==> (p(d) <==> d < k)
    ensures CountTo(p, n) == if n < k then n else k
  {
    if n > 0 {
      CountBelow(p, n - 1, k);
    }
  }

  lemma {:induction false} CountBut(p: nat -> bool, n: nat, k: nat)
    requires forall d: nat :: d < n ==> (p(d) <==> d != k)
    ensures CountTo(p, n) == if k < n then n - 1 else n
  {
    if n > 0 {
      CountBut(p, n - 1, k);
    }
  }

  // ------------------------------------------------------------- sequences of draws

  /** In how many ways the draws of r operations can fall, after m: the k-th operation has k of them. */
  ghost function AllDraws(m: nat, r: nat): nat
    decreases r
  {
    if r == 0 then 1 else (m + 1) * AllDraws(m + 1, r - 1)
  }

  predicate Keeps(s: Shape, id: nat) { exists i :: 0 <= i < |s.reservoir| && s.reservoir[i].id == id }

  /** The shape after an arrival, for what was drawn. */
  type Next = (Shape, Sample, nat) -> Shape

  /** In how many of them the operation is in the reservoir in the end. */
  ghost function Keeping(next: Next, s: Shape, arrivals: seq<Sample>, id: nat): nat
    decreases |arrivals|
  {
    if arrivals == [] then (if Keeps(s, id) then 1 else 0)
    else SumTo((d: nat) => Keeping(next, next(s, arrivals[0], d), arrivals[1..], id), s.eligible + 1)
  }

  ghost function KeepingNext(next: Next, s: Shape, arrivals: seq<Sample>, id: nat): nat -> nat
    requires arrivals != []
  {
    (d: nat) => Keeping(next, next(s, arrivals[0], d), arrivals[1..], id)
  }

  lemma KeepingIs(next: Next, s: Shape, arrivals: seq<Sample>, id: nat)
    requires arrivals != []
    ensures Keeping(next, s, arrivals, id) == SumTo(KeepingNext(next, s, arrivals, id), s.eligible + 1)
  {
  }

  /** The reservoir holds as much as it can. */
  predicate Full(s: Shape) { |s.reservoir| == if s.eligible < SAMPLES_PER_SHAPE then s.eligible else SAMPLES_PER_SHAPE }

  /** With room for it, an operation takes the slot that was drawn. */
  ghost predicate TakesSlot(next: Next, most: nat, s: Shape, x: Sample, draw: nat)
  {
    Full(s) && x.bytes <= most && draw <= s.eligible ==>
      var t := next(s, x, draw);
      && t.eligible == s.eligible + 1
      && t.reservoir == if s.eligible < SAMPLES_PER_SHAPE then s.reservoir + [x]
           else if draw < SAMPLES_PER_SHAPE then s.reservoir[draw := x] else s.reservoir
  }

  ghost predicate TakesSlots(next: Next, most: nat)
  {
    forall s, x, draw {:trigger TakesSlot(next, most, s, x, draw)} :: TakesSlot(next, most, s, x, draw)
  }

  /** The operation is in slot i and in no other. */
  ghost predicate OnlyAt(s: Shape, id: nat, i: nat)
  {
    i < |s.reservoir| && forall j :: 0 <= j < |s.reservoir| ==> (s.reservoir[j].id == id <==> j == i)
  }

  ghost predicate NotAmong(arrivals: seq<Sample>, id: nat)
  {
    forall i :: 0 <= i < |arrivals| ==> arrivals[i].id != id
  }

  lemma StillAbsent(next: Next, most: nat, s: Shape, x: Sample, id: nat, d: nat)
    requires TakesSlots(next, most) && Full(s) && x.bytes <= most && d <= s.eligible && !Keeps(s, id) && x.id != id
    ensures Full(next(s, x, d)) && next(s, x, d).eligible == s.eligible + 1 && !Keeps(next(s, x, d), id)
  {
    assert TakesSlot(next, most, s, x, d);
  }

  /** Draw d replaces the operation exactly when the reservoir is full and d is its slot. */
  lemma StillThere(next: Next, most: nat, s: Shape, x: Sample, id: nat, i: nat, d: nat)
    requires TakesSlots(next, most) && Full(s) && x.bytes <= most && d <= s.eligible && OnlyAt(s, id, i) && x.id != id
    ensures Full(next(s, x, d)) && next(s, x, d).eligible == s.eligible + 1
    ensures if s.eligible < SAMPLES_PER_SHAPE || d != i then OnlyAt(next(s, x, d), id, i) else !Keeps(next(s, x, d), id)
  {
    assert TakesSlot(next, most, s, x, d);
  }

  lemma TakenIn(next: Next, most: nat, s: Shape, x: Sample, d: nat)
    requires TakesSlots(next, most) && Full(s) && x.bytes <= most && d <= s.eligible && !Keeps(s, x.id)
    ensures Full(next(s, x, d)) && next(s, x, d).eligible == s.eligible + 1
    ensures s.eligible < SAMPLES_PER_SHAPE ==> OnlyAt(next(s, x, d), x.id, s.eligible)
    ensures SAMPLES_PER_SHAPE <= s.eligible && d < SAMPLES_PER_SHAPE ==> OnlyAt(next(s, x, d), x.id, d)
    ensures SAMPLES_PER_SHAPE <= s.eligible && SAMPLES_PER_SHAPE <= d ==> !Keeps(next(s, x, d), x.id)
  {
    assert TakesSlot(next, most, s, x, d);
  }

  lemma {:induction false} NeverKept(next: Next, most: nat, s: Shape, arrivals: seq<Sample>, id: nat)
    requires TakesSlots(next, most) && Full(s) && AllSmall(arrivals, most) && !Keeps(s, id) && NotAmong(arrivals, id)
    ensures Keeping(next, s, arrivals, id) == 0
    decreases |arrivals|
  {
    if arrivals != [] {
      var f := KeepingNext(next, s, arrivals, id);
      forall d: nat | d < s.eligible + 1
        ensures f(d) * 1 == 0
      {
        StillAbsent(next, most, s, arrivals[0], id, d);
        NeverKept(next, most, next(s, arrivals[0], d), arrivals[1..], id);
      }
      SumScaled(f, s.eligible + 1, 1, (d: nat) => false, 0);
      KeepingIs(next, s, arrivals, id);
    }
  }

  function Size(n: nat): nat { if n < SAMPLES_PER_SHAPE then SAMPLES_PER_SHAPE else n }

  lemma Associate(a: nat, b: nat, c: nat)
    ensures a * (b * c) == a * b * c
  {
  }

  lemma Swap(a: nat, b: nat, c: nat)
    ensures a * (b * c) == b * (a * c)
  {
  }

  /** What remains of an operation in slot i after one more draw. */
  lemma {:induction false} OneStays(next: Next, most: nat, s: Shape, arrivals: seq<Sample>, id: nat, i: nat, d: nat)
    requires TakesSlots(next, most) && arrivals != [] && d <= s.eligible
    requires Full(s) && AllSmall(arrivals, most) && OnlyAt(s, id, i) && NotAmong(arrivals, id)
    ensures var m, n := s.eligible, s.eligible + |arrivals|;
            KeepingNext(next, s, arrivals, id)(d) * Size(n)
            == if m < SAMPLES_PER_SHAPE || d != i then Size(m + 1) * AllDraws(m + 1, |arrivals| - 1) else 0
    decreases |arrivals|, 0
  {
    StillThere(next, most, s, arrivals[0], id, i, d);
    if s.eligible < SAMPLES_PER_SHAPE || d != i {
      KeptStays(next, most, next(s, arrivals[0], d), arrivals[1..], id, i);
    } else {
      NeverKept(next, most, next(s, arrivals[0], d), arrivals[1..], id);
    }
  }

  lemma StaysSum(f: nat -> nat, m: nat, i: nat, size: nat, rest: nat)
    requires i < SAMPLES_PER_SHAPE
    requires forall d: nat :: d < m + 1 ==> f(d) * size == if m < SAMPLES_PER_SHAPE || d != i then Size(m + 1) * rest
        else 0
    ensures SumTo(f, m + 1) * size == Size(m) * ((m + 1) * rest)
  {
    var stays := (d: nat) => m < SAMPLES_PER_SHAPE || d != i;
    SumScaled(f, m + 1, size, stays, Size(m + 1) * rest);
    if m < SAMPLES_PER_SHAPE {
      CountBelow(stays, m + 1, m + 1);
      Swap(m + 1, SAMPLES_PER_SHAPE, rest);
    } else {
      CountBut(stays, m + 1, i);
    }
  }

  /** An operation in the reservoir of m stays there in m of n ways, and in all while the reservoir fills. */
  lemma {:induction false} KeptStays(next: Next, most: nat, s: Shape, arrivals: seq<Sample>, id: nat, i: nat)
    requires TakesSlots(next, most) && Full(s) && AllSmall(arrivals, most) && OnlyAt(s, id, i) && NotAmong(arrivals, id)
    ensures Keeping(next, s, arrivals, id) * Size(s.eligible + |arrivals|)
         == Size(s.eligible) * AllDraws(s.eligible, |arrivals|)
    decreases |arrivals|, 1
  {
    if arrivals == [] {
      assert s.reservoir[i].id == id;
    } else {
      forall d: nat | d < s.eligible + 1
        ensures var m, n := s.eligible, s.eligible + |arrivals|;
                KeepingNext(next, s, arrivals, id)(d) * Size(n)
                == if m < SAMPLES_PER_SHAPE || d != i then Size(m + 1) * AllDraws(m + 1, |arrivals| - 1) else 0
      {
        OneStays(next, most, s, arrivals, id, i, d);
      }
      KeepingIs(next, s, arrivals, id);
      StaysSum(KeepingNext(next, s, arrivals, id), s.eligible, i, Size(s.eligible + |arrivals|),
        AllDraws(s.eligible + 1, |arrivals| - 1));
    }
  }

  /** The operations that arrive are different ones. */
  ghost predicate Different(arrivals: seq<Sample>)
  {
    forall i, j :: 0 <= i < j < |arrivals| ==> arrivals[i].id != arrivals[j].id
  }

  lemma DifferentRest(arrivals: seq<Sample>)
    requires arrivals != [] && Different(arrivals)
    ensures NotAmong(arrivals[1..], arrivals[0].id) && Different(arrivals[1..])
  {
  }

  lemma FirstComesIn(next: Next, most: nat, s: Shape, arrivals: seq<Sample>, d: nat)
    requires TakesSlots(next, most) && Full(s) && AllSmall(arrivals, most) && Different(arrivals)
    requires arrivals != [] && d <= s.eligible && !Keeps(s, arrivals[0].id)
    ensures var m, n, id := s.eligible, s.eligible + |arrivals|, arrivals[0].id;
            KeepingNext(next, s, arrivals, id)(d) * Size(n)
            == if m < SAMPLES_PER_SHAPE || d < SAMPLES_PER_SHAPE then Size(m + 1) * AllDraws(m + 1, |arrivals| - 1)
              else 0
  {
    var id, t, rest := arrivals[0].id, next(s, arrivals[0], d), arrivals[1..];
    TakenIn(next, most, s, arrivals[0], d);
    DifferentRest(arrivals);
    if s.eligible < SAMPLES_PER_SHAPE || d < SAMPLES_PER_SHAPE {
      KeptStays(next, most, t, rest, id, if s.eligible < SAMPLES_PER_SHAPE then s.eligible else d);
    } else {
      NeverKept(next, most, t, rest, id);
    }
  }

  lemma FirstSum(f: nat -> nat, m: nat, size: nat, rest: nat)
    requires forall d: nat :: d < m + 1 ==>
        f(d) * size == if m < SAMPLES_PER_SHAPE || d < SAMPLES_PER_SHAPE then Size(m + 1) * rest else 0
    ensures SumTo(f, m + 1) * size == SAMPLES_PER_SHAPE * ((m + 1) * rest)
  {
    var taken := (d: nat) => m < SAMPLES_PER_SHAPE || d < SAMPLES_PER_SHAPE;
    SumScaled(f, m + 1, size, taken, Size(m + 1) * rest);
    if m < SAMPLES_PER_SHAPE {
      CountBelow(taken, m + 1, m + 1);
      Swap(m + 1, SAMPLES_PER_SHAPE, rest);
    } else {
      CountBelow(taken, m + 1, SAMPLES_PER_SHAPE);
    }
  }

  lemma LaterSum(f: nat -> nat, m: nat, size: nat, v: nat)
    requires forall d: nat :: d < m + 1 ==> f(d) * size == v
    ensures SumTo(f, m + 1) * size == (m + 1) * v
  {
    var all := (d: nat) => true;
    SumScaled(f, m + 1, size, all, v);
    CountBelow(all, m + 1, m + 1);
  }

  /** An operation that is to arrive is kept in 8 of n ways, and in all if there are no more than 8. */
  lemma {:induction false} ComesIn(next: Next, most: nat, s: Shape, arrivals: seq<Sample>, j: nat)
    requires TakesSlots(next, most) && Full(s) && AllSmall(arrivals, most) && Different(arrivals)
    requires j < |arrivals| && !Keeps(s, arrivals[j].id)
    ensures Keeping(next, s, arrivals, arrivals[j].id) * Size(s.eligible + |arrivals|)
         == SAMPLES_PER_SHAPE * AllDraws(s.eligible, |arrivals|)
    decreases |arrivals|
  {
    var id, m, size := arrivals[j].id, s.eligible, Size(s.eligible + |arrivals|);
    var f, rest := KeepingNext(next, s, arrivals, id), AllDraws(m + 1, |arrivals| - 1);
    KeepingIs(next, s, arrivals, id);
    if j == 0 {
      forall d: nat | d < m + 1
        ensures f(d) * size == if m < SAMPLES_PER_SHAPE || d < SAMPLES_PER_SHAPE then Size(m + 1) * rest else 0
      {
        FirstComesIn(next, most, s, arrivals, d);
      }
      FirstSum(f, m, size, rest);
    } else {
      forall d: nat | d < m + 1
        ensures f(d) * size == SAMPLES_PER_SHAPE * rest
      {
        StillAbsent(next, most, s, arrivals[0], id, d);
        DifferentRest(arrivals);
        ComesIn(next, most, next(s, arrivals[0], d), arrivals[1..], j - 1);
      }
      LaterSum(f, m, size, SAMPLES_PER_SHAPE * rest);
      Swap(m + 1, SAMPLES_PER_SHAPE, rest);
    }
  }

  function After(retained: Shape -> nat): Next
  {
    (s: Shape, x: Sample, draw: nat) => Observed(s, x, draw, retained(s))
  }

  lemma ObservedTakes(s: Shape, x: Sample, draw: nat, retained: nat)
    requires Full(s) && draw <= s.eligible
    requires x.bytes <= MAX_SAMPLE_BYTES && retained + 2 * x.bytes <= MAX_RETAINED_BYTES
    ensures Observed(s, x, draw, retained).eligible == s.eligible + 1
    ensures Observed(s, x, draw, retained).reservoir
            == if s.eligible < SAMPLES_PER_SHAPE then s.reservoir + [x]
               else if draw < SAMPLES_PER_SHAPE then s.reservoir[draw := x] else s.reservoir
  {
    assert s.eligible >= SAMPLES_PER_SHAPE ==> draw % (s.eligible + 1) == draw;
    var slot := SlotFor(s, draw);
    assert Added(s, x, slot) <= 2 * x.bytes;
    assert FateOf(s, x, draw, retained).Admitted? || FateOf(s, x, draw, retained).PassedOver?;
  }

  lemma AfterTakes(retained: Shape -> nat, most: nat)
    requires Room(retained, most)
    ensures TakesSlots(After(retained), most)
  {
    var next := After(retained);
    forall s, x, draw: nat
      ensures TakesSlot(next, most, s, x, draw)
    {
      if Full(s) && x.bytes <= most && draw <= s.eligible {
        ObservedTakes(s, x, draw, retained(s));
      }
    }
  }

  /**
   While there is room for every sample, each of n operations is in the reservoir after 8
   of n ways in which the draws can fall, the first as often as the last; up to 8
   operations are all there.
   */
  lemma ReservoirIsUniform(s: Shape, arrivals: seq<Sample>, j: nat, retained: Shape -> nat, most: nat)
    requires Capture.Blank(s) && Room(retained, most) && AllSmall(arrivals, most)
    requires Different(arrivals) && j < |arrivals|
    ensures var kept, ways := Keeping(After(retained), s, arrivals, arrivals[j].id), AllDraws(0, |arrivals|);
            if |arrivals| <= 8 then kept == ways else kept * |arrivals| == 8 * ways
  {
    AfterTakes(retained, most);
    ComesIn(After(retained), most, s, arrivals, j);
    if |arrivals| <= 8 {
      assert Size(|arrivals|) == 8;
    }
  }
}
