/**
 The retained samples of one shape: a reservoir and a slowest slot
 (captureState.observe and shapeCapture.retained in internal/stats/capture.go).
 */
module Capture {
  import opened Wrappers

  const SAMPLES_PER_SHAPE: nat := 8
  const MAX_SAMPLE_BYTES: nat := 16 * 1024
  const MAX_RETAINED_BYTES: nat := 8 * 1024 * 1024

  /** id stands for the identity of the copied query. */
  datatype Sample = Sample(id: nat, durationNs: int, bytes: nat)

  datatype Dropped = Dropped(oversized: nat, byteBudget: nat)

  datatype Shape = Shape(eligible: nat, admitted: nat, dropped: Dropped, reservoir: seq<Sample>,
        slowest: Option<Sample>)

  /** A shape for which nothing was observed: in the source it has no capture state yet. */
  predicate Blank(s: Shape)
  {
    s.eligible == 0 && s.admitted == 0 && s.dropped.oversized == 0 && s.dropped.byteBudget == 0 && s.reservoir == []
      && s.slowest.None?
  }

  method NewShape() returns (s: Shape)
    ensures Blank(s)
  {
    s := Shape(0, 0, Dropped(0, 0), [], None);
  }

  function SumBytes(samples: seq<Sample>): nat
  {
    if samples == [] then 0 else samples[0].bytes + SumBytes(samples[1..])
  }

  function SlowestBytes(s: Shape): nat { if s.slowest.Some? then s.slowest.value.bytes else 0 }

  /** What a shape's samples are accounted for; a query in both places counts twice. */
  function RetainedBytes(s: Shape): nat { SumBytes(s.reservoir) + SlowestBytes(s) }

  /** The reservoir slot of the next eligible operation: a new one, one to replace, or none. */
  function SlotFor(s: Shape, draw: nat): Option<nat>
  {
    if |s.reservoir| < SAMPLES_PER_SHAPE then Some(|s.reservoir|)
    else if draw % (s.eligible + 1) < SAMPLES_PER_SHAPE then Some(draw % (s.eligible + 1))
    else None
  }

  predicate NewSlowest(s: Shape, x: Sample) { s.slowest.None? || x.durationNs > s.slowest.value.durationNs }

  /** The bytes the replaced samples free, and those the new sample takes. */
  function Freed(s: Shape, x: Sample, slot: Option<nat>): nat
  {
    (if slot.Some? && slot.value < |s.reservoir| then s.reservoir[slot.value].bytes else 0)
    + (if NewSlowest(s, x) then SlowestBytes(s) else 0)
  }

  function Added(s: Shape, x: Sample, slot: Option<nat>): nat
  {
    (if slot.Some? then x.bytes else 0) + (if NewSlowest(s, x) then x.bytes else 0)
  }

  function Place(samples: seq<Sample>, slot: nat, x: Sample): seq<Sample>
  {
    if slot < |samples| then samples[slot := x] else samples + [x]
  }

  /** What became of an eligible operation. */
  datatype Fate = PassedOver | Oversized | NoBudget | Admitted

  function FateOf(s: Shape, x: Sample, draw: nat, retained: nat): Fate
  {
    var slot := SlotFor(s, draw);
    if slot.None? && !NewSlowest(s, x) then PassedOver
    else if x.bytes > MAX_SAMPLE_BYTES then Oversized
    else if retained - Freed(s, x, slot) + Added(s, x, slot) > MAX_RETAINED_BYTES then NoBudget
    else Admitted
  }

  /** The shape after an eligible operation. */
  function Observed(s: Shape, x: Sample, draw: nat, retained: nat): Shape
  {
    var seen := s.(eligible := s.eligible + 1);
    match FateOf(s, x, draw, retained)
    case PassedOver => seen
    case Oversized => seen.(dropped := Dropped(s.dropped.oversized + 1, s.dropped.byteBudget))
    case NoBudget => seen.(dropped := Dropped(s.dropped.oversized, s.dropped.byteBudget + 1))
    case Admitted =>
      seen.(admitted := s.admitted + 1,
            reservoir := if SlotFor(s, draw).Some? then Place(s.reservoir, SlotFor(s, draw).value, x) else s.reservoir,
            slowest := if NewSlowest(s, x) then Some(x) else s.slowest)
  }

  lemma {:induction false} SumBytesAppend(samples: seq<Sample>, x: Sample)
    ensures SumBytes(samples + [x]) == SumBytes(samples) + x.bytes
  {
    if samples != [] {
      assert (samples + [x])[1..] == samples[1..] + [x];
      SumBytesAppend(samples[1..], x);
    }
  }

  lemma {:induction false} SumBytesUpdate(samples: seq<Sample>, i: nat, x: Sample)
    requires i < |samples|
    ensures SumBytes(samples[i := x]) + samples[i].bytes == SumBytes(samples) + x.bytes
  {
    if i > 0 {
      assert samples[i := x][1..] == samples[1..][i - 1 := x];
      SumBytesUpdate(samples[1..], i - 1, x);
    } else {
      assert samples[i := x][1..] == samples[1..];
    }
  }

  /** The bytes accounted for change by what is added and freed. */
  lemma ObservedBytes(s: Shape, x: Sample, draw: nat, retained: nat)
    ensures var after := Observed(s, x, draw, retained);
            if FateOf(s, x, draw, retained).Admitted?
            then RetainedBytes(after) + Freed(s, x, SlotFor(s, draw))
              == RetainedBytes(s) + Added(s, x, SlotFor(s, draw))
            else RetainedBytes(after) == RetainedBytes(s)
  {
    var slot := SlotFor(s, draw);
    if slot.Some? {
      if slot.value < |s.reservoir| {
        SumBytesUpdate(s.reservoir, slot.value, x);
      } else {
        SumBytesAppend(s.reservoir, x);
      }
    }
  }

  /** There is a place for the operation: a free or drawn slot, or that of the slowest. */
  predicate Wanted(s: Shape, x: Sample, draw: nat)
  {
    |s.reservoir| < 8 || draw % (s.eligible + 1) < 8 || s.slowest.None? || x.durationNs > s.slowest.value.durationNs
  }

  /**
   A wanted operation is admitted exactly when its sample has at most 16 KiB and all
   samples, with it in its places, have at most 8 MiB; the first limit is tried first.
   */
  lemma FateExact(s: Shape, x: Sample, draw: nat, retained: nat)
    requires retained >= RetainedBytes(s)
    ensures var fate, small := FateOf(s, x, draw, retained), x.bytes <= 16 * 1024;
            var bytes := retained - RetainedBytes(s) + RetainedBytes(Observed(s, x, draw, 0));
            && (fate.PassedOver? <==> !Wanted(s, x, draw)) && (fate.Oversized? <==> Wanted(s, x, draw) && !small)
            && (fate.NoBudget? <==> Wanted(s, x, draw) && small && bytes > 8 * 1024 * 1024)
            && (fate.Admitted? <==> Wanted(s, x, draw) && small && bytes <= 8 * 1024 * 1024)
  {
    ObservedBytes(s, x, draw, 0);
  }

  // ------------------------------------------------------------ what a shape's samples are

  /** An eligible operation of the shape, and whether its sample was admitted. */
  datatype Seen = Seen(sample: Sample, admitted: bool)

  function SamplesOf(hist: seq<Seen>): (r: seq<Sample>)
    ensures |r| == |hist| && forall i :: 0 <= i < |r| ==> r[i] == hist[i].sample
  {
    seq(|hist|, i requires 0 <= i < |hist| => hist[i].sample)
  }

  function AdmittedCount(hist: seq<Seen>): nat
  {
    if hist == [] then 0 else AdmittedCount(hist[..|hist| - 1]) + if hist[|hist| - 1].admitted then 1 else 0
  }

  predicate Drops(s: Shape) { s.dropped.oversized > 0 || s.dropped.byteBudget > 0 }

  /** Every retained sample is one of the shape's admitted operations, in one place of the reservoir. */
  ghost predicate Retained(s: Shape, hist: seq<Seen>)
  {
    && (forall i :: 0 <= i < |s.reservoir| ==> Seen(s.reservoir[i], true) in hist)
    && (s.slowest.Some? ==> Seen(s.slowest.value, true) in hist)
    && (forall i, j :: 0 <= i < j < |s.reservoir| ==> s.reservoir[i].id != s.reservoir[j].id)
  }

  /** The slowest sample is at least as slow as everything ever admitted. */
  ghost predicate SlowestBounds(s: Shape, hist: seq<Seen>)
  {
    forall x :: x in hist && x.admitted ==> s.slowest.Some? && x.sample.durationNs <= s.slowest.value.durationNs
  }

  /** Up to the reservoir's size, a shape without drops retains exactly what was observed, in order. */
  ghost predicate Filled(s: Shape, hist: seq<Seen>)
  {
    && |s.reservoir| <= SAMPLES_PER_SHAPE && |s.reservoir| <= s.eligible
    && (!Drops(s) ==> if s.eligible <= SAMPLES_PER_SHAPE then s.reservoir == SamplesOf(hist)
      else |s.reservoir| == SAMPLES_PER_SHAPE)
  }

  ghost predicate FreshIDs(hist: seq<Seen>)
  {
    forall i, j :: 0 <= i < j < |hist| ==> hist[i].sample.id != hist[j].sample.id
  }

  ghost predicate ShapeOk(s: Shape, hist: seq<Seen>)
  {
    && s.eligible == |hist| && s.admitted == AdmittedCount(hist)
      && s.admitted + s.dropped.oversized + s.dropped.byteBudget <= s.eligible
    && FreshIDs(hist) && Retained(s, hist) && SlowestBounds(s, hist) && Filled(s, hist)
  }

  /** The history after an eligible operation. */
  function Remembered(s: Shape, hist: seq<Seen>, x: Sample, draw: nat, retained: nat): seq<Seen>
  {
    hist + [Seen(x, FateOf(s, x, draw, retained).Admitted?)]
  }

  ghost predicate Unseen(hist: seq<Seen>, x: Sample) { forall i :: 0 <= i < |hist| ==> hist[i].sample.id != x.id }

  lemma ObservedRetained(s: Shape, hist: seq<Seen>, x: Sample, draw: nat, retained: nat)
    requires ShapeOk(s, hist) && Unseen(hist, x)
    ensures Retained(Observed(s, x, draw, retained), Remembered(s, hist, x, draw, retained))
  {
    var after, h := Observed(s, x, draw, retained), Remembered(s, hist, x, draw, retained);
    assert h[|hist|] == Seen(x, FateOf(s, x, draw, retained).Admitted?);
    assert forall y :: y in hist ==> y in h;
    forall i, j | 0 <= i < j < |after.reservoir|
      ensures after.reservoir[i].id != after.reservoir[j].id
    {
      assert i < |s.reservoir| ==> Seen(s.reservoir[i], true) in hist;
      assert j < |s.reservoir| ==> Seen(s.reservoir[j], true) in hist;
    }
  }

  lemma ObservedFilled(s: Shape, hist: seq<Seen>, x: Sample, draw: nat, retained: nat)
    requires ShapeOk(s, hist)
    ensures Filled(Observed(s, x, draw, retained), Remembered(s, hist, x, draw, retained))
  {
    var after, h := Observed(s, x, draw, retained), Remembered(s, hist, x, draw, retained);
    if !Drops(after) && s.eligible < SAMPLES_PER_SHAPE {
      assert s.reservoir == SamplesOf(hist);
      assert SlotFor(s, draw) == Some(|hist|);
      assert SamplesOf(h) == SamplesOf(hist) + [x];
    }
  }

  /** Observing an eligible operation keeps everything that is known of a shape. */
  lemma ObservedOk(s: Shape, hist: seq<Seen>, x: Sample, draw: nat, retained: nat)
    requires ShapeOk(s, hist) && Unseen(hist, x)
    ensures ShapeOk(Observed(s, x, draw, retained), Remembered(s, hist, x, draw, retained))
  {
    var after, h := Observed(s, x, draw, retained), Remembered(s, hist, x, draw, retained);
    ObservedRetained(s, hist, x, draw, retained);
    ObservedFilled(s, hist, x, draw, retained);
    assert h[..|hist|] == hist;
    assert FreshIDs(h);
  }

  /** Without drops, as many samples as eligible operations means that they are the operations. */
  lemma NothingLost(s: Shape, hist: seq<Seen>)
    requires ShapeOk(s, hist)
    ensures !Drops(s) && s.eligible <= |s.reservoir| <==> s.reservoir == SamplesOf(hist) && !Drops(s)
    ensures !Drops(s) && s.eligible > 0 ==> s.reservoir != []
  {
  }

  // ----------------------------------------------------------------------- retained

  /** retained: the distinct samples, and where the slowest is among them. */
  method RetainedSamples(s: Shape) returns (samples: seq<Sample>, slowest: int)
    ensures s.slowest.None? ==> samples == s.reservoir && slowest == -1
    ensures s.slowest.Some? ==>
              && 0 <= slowest < |samples| && samples[slowest].id == s.slowest.value.id
              && (slowest == |s.reservoir| ==> samples == s.reservoir + [s.slowest.value])
              && (slowest != |s.reservoir| ==> samples == s.reservoir)
              && forall i :: 0 <= i < slowest ==> samples[i].id != s.slowest.value.id
    ensures samples == RetainedOf(s)
  {
    samples, slowest := s.reservoir, -1;
    if s.slowest.None? {
      return;
    }
    for i := 0 to |samples|
      invariant forall j :: 0 <= j < i ==> samples[j].id != s.slowest.value.id
    {
      if samples[i].id == s.slowest.value.id {
        return samples, i;
      }
    }
    return samples + [s.slowest.value], |samples|;
  }

  function RetainedOf(s: Shape): seq<Sample>
  {
    if s.slowest.None? || (exists i :: 0 <= i < |s.reservoir| && s.reservoir[i].id == s.slowest.value.id)
      then s.reservoir
    else s.reservoir + [s.slowest.value]
  }

  /** The retained samples are different operations, and hold the reservoir and the slowest sample. */
  lemma RetainedOfShape(s: Shape, hist: seq<Seen>)
    requires ShapeOk(s, hist)
    ensures forall i, j :: 0 <= i < j < |RetainedOf(s)| ==> RetainedOf(s)[i].id != RetainedOf(s)[j].id
    ensures s.reservoir <= RetainedOf(s) && (s.slowest.Some? ==> s.slowest.value in RetainedOf(s))
    ensures forall x :: x in RetainedOf(s) ==> Seen(x, true) in hist
  {
    if i :| s.slowest.Some? && 0 <= i < |s.reservoir| && s.reservoir[i].id == s.slowest.value.id {
    }
  }

}
