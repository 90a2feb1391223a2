/**
 The seeding pipeline (internal/mongo/setup.go): one producer builds batches of
 generated documents in index order and hands each to one of several writers over
 an unbuffered channel; the first failed insert, or a stop from outside, cancels
 the work context. Every interleaving is a trace of the step system below.
 */
module Seeding {
  import opened Sums
  import opened Wrappers

  /** The documents start .. start + size. */
  datatype Batch = Batch(start: nat, size: nat)

  datatype Config = Config(count: nat, batchSize: nat, writers: nat)

  const DEFAULT_BATCH_SIZE: int := 1000

  function Min(a: int, b: int): int { if a < b then a else b }

  /** The effective sizes for a positive count; the settings may be any integers. */
  function PlanOf(count: nat, seedBatchSize: int, seedConcurrency: int): (c: Config)
    requires count > 0
    ensures ValidConfig(c) && c.count == count
    ensures 0 < seedBatchSize <= count ==> c.batchSize == seedBatchSize
    ensures seedBatchSize > count ==> c.batchSize == count
    ensures seedBatchSize <= 0 ==> c.batchSize == if count < 1000 then count else 1000
    ensures c.writers == 1 || (c.writers - 1) * c.batchSize < count
    ensures c.writers == (if seedConcurrency > 0 then seedConcurrency else 1) || c.writers * c.batchSize >= count
    ensures c.writers <= (if seedConcurrency > 0 then seedConcurrency else 1)
  {
    var batch := Min(if seedBatchSize <= 0 then DEFAULT_BATCH_SIZE else seedBatchSize, count);
    var batches := 1 + (count - 1) / batch;
    var writers := Min(if seedConcurrency <= 0 then 1 else seedConcurrency, batches);
    FewerBatches(count - 1, batch, writers - 1);
    EnoughBatches(count - 1, batch);
    Config(count, batch, writers)
  }

  lemma FewerBatches(n: nat, batch: nat, k: nat)
    requires batch > 0 && k <= n / batch
    ensures k * batch <= n
  {
    assert n == batch * (n / batch) + n % batch;
    assert k * batch <= n / batch * batch;
  }

  lemma EnoughBatches(n: nat, batch: nat)
    requires batch > 0
    ensures (1 + n / batch) * batch > n
  {
    assert n == batch * (n / batch) + n % batch;
    assert (1 + n / batch) * batch == batch + n / batch * batch;
  }

  ghost predicate ValidConfig(c: Config) { 1 <= c.batchSize <= c.count && c.writers >= 1 }

  datatype Writer =
    | Receiving
    | Got(batch: Batch)
    | Inserting(batch: Batch)
    | Failing(batch: Batch)
    | Inserted(batch: Batch)
    | Returned

  datatype Producer = Building | Offering(batch: Batch) | Closed

  /**
   done and lost are history: batches whose insert succeeded, and batches dropped
   unsent or failed. reported is every value passed to the progress callback.
   */
  datatype State = State(
    producer: Producer, generated: nat, writers: seq<Writer>, cancelled: bool, stopped: bool,
    totalInserted: nat, reported: seq<nat>, done: seq<Batch>, lost: seq<Batch>)

  datatype Action =
    | StopRun
    | Build
    | Break
    | Close
    | Send(w: nat)
    | Check(w: nat)
    | Insert(w: nat, ok: bool)
    | CancelOnError(w: nat)
    | Progress(w: nat)
    | Return(w: nat)

  function Init(c: Config): State {
    State(Building, 0, seq(c.writers, _ => Receiving), false, false, 0, [], [], [])
  }

  predicate Enabled(c: Config, s: State, a: Action)
  {
    match a
    case StopRun => !s.stopped
    case Build => s.producer.Building? && s.generated < c.count
    case Break => !s.producer.Closed? && s.cancelled
    case Close => s.producer.Building? && s.generated >= c.count
    case Send(w) => s.producer.Offering? && w < |s.writers| && s.writers[w].Receiving?
    case Check(w) => w < |s.writers| && s.writers[w].Got?
    case Insert(w, _) => w < |s.writers| && s.writers[w].Inserting?
    case CancelOnError(w) => w < |s.writers| && s.writers[w].Failing?
    case Progress(w) => w < |s.writers| && s.writers[w].Inserted?
    case Return(w) => w < |s.writers| && s.writers[w].Receiving? && s.producer.Closed?
  }

  function Apply(c: Config, s: State, a: Action): State
    requires Enabled(c, s, a)
  {
    match a
    case StopRun => s.(stopped := true, cancelled := true)
    case Build => s.(producer := Offering(Batch(s.generated, Min(c.batchSize, c.count - s.generated))))
    case Break => s.(producer := Closed)
    case Close => s.(producer := Closed)
    case Send(w) =>
      var b := s.producer.batch;
      s.(producer := Building, generated := s.generated + b.size, writers := s.writers[w := Got(b)])
    case Check(w) =>
      var b := s.writers[w].batch;
      if s.cancelled then s.(writers := s.writers[w := Returned], lost := s.lost + [b])
      else s.(writers := s.writers[w := Inserting(b)])
    case Insert(w, ok) =>
      var b := s.writers[w].batch;
      if ok then s.(writers := s.writers[w := Inserted(b)], done := s.done + [b])
      else s.(writers := s.writers[w := Failing(b)])
    case CancelOnError(w) =>
      s.(writers := s.writers[w := Returned], lost := s.lost + [s.writers[w].batch], cancelled := true)
    case Progress(w) =>
      var total := s.totalInserted + s.writers[w].batch.size;
      s.(writers := s.writers[w := Receiving], totalInserted := total, reported := s.reported + [total])
    case Return(w) => s.(writers := s.writers[w := Returned])
  }

  function Run(c: Config, s: State, trace: seq<Action>): Option<State>
    decreases |trace|
  {
    if trace == [] then Some(s)
    else if Enabled(c, s, trace[0]) then Run(c, Apply(c, s, trace[0]), trace[1..])
    else None
  }

  predicate Finished(s: State) {
    s.producer.Closed? && forall i :: 0 <= i < |s.writers| ==> s.writers[i].Returned?
  }

  /** insertRandomDocuments returns nil exactly when the work context has no cause. */
  predicate ReturnsNil(s: State) { !s.cancelled }

  // -------------------------------------------------------------- invariant

  predicate Contains(b: Batch, i: nat) { b.start <= i < b.start + b.size }

  function Covers(i: nat): Batch -> nat { (b: Batch) => if Contains(b, i) then 1 else 0 }

  /** The batch a writer has taken and not yet inserted or lost. */
  predicate Holds(w: Writer) { w.Got? || w.Inserting? || w.Failing? }

  function HoldsDoc(i: nat): Writer -> nat {
    (w: Writer) => if Holds(w) && Contains(w.batch, i) then 1 else 0
  }

  function Size(b: Batch): nat { b.size }

  function HeldSize(w: Writer): nat { if Holds(w) then w.batch.size else 0 }

  function Unreported(w: Writer): nat { if w.Inserted? then w.batch.size else 0 }

  /** How often document i was inserted, lost, or is being held by a writer. */
  function Fate(s: State, i: nat): nat {
    Sum(s.done, Covers(i)) + Sum(s.lost, Covers(i)) + Sum(s.writers, HoldsDoc(i))
  }

  ghost predicate Sizes(s: State) {
    && Sum(s.done, Size) + Sum(s.lost, Size) + Sum(s.writers, HeldSize) == s.generated
    && s.totalInserted + Sum(s.writers, Unreported) == Sum(s.done, Size)
  }

  /** Where producer and writers can be. */
  ghost predicate Control(c: Config, s: State)
  {
    && |s.writers| == c.writers
    && s.generated <= c.count
    && (s.producer.Offering? ==>
          s.producer.batch == Batch(s.generated, Min(c.batchSize, c.count - s.generated)) && s.generated < c.count)
    && (s.producer.Closed? ==> s.generated == c.count || s.cancelled)
    && (s.lost != [] ==> s.cancelled)
    && (forall w :: 0 <= w < |s.writers| && s.writers[w].Returned? ==> s.cancelled || s.producer.Closed?)
  }

  ghost predicate Reported(s: State) { forall k :: 0 <= k < |s.reported| ==> s.reported[k] <= s.totalInserted }

  /** Document i is in exactly one batch once it was dispatched. */
  ghost predicate Fates(s: State) { forall i: nat :: Fate(s, i) == if i < s.generated then 1 else 0 }

  ghost predicate Inv(c: Config, s: State) { Control(c, s) && Reported(s) && Fates(s) && Sizes(s) }

  lemma InitInv(c: Config)
    requires ValidConfig(c)
    ensures Inv(c, Init(c))
  {
    var s := Init(c);
    SumZero(s.writers, HeldSize);
    SumZero(s.writers, Unreported);
    forall i: nat
      ensures Fate(s, i) == 0
    {
      SumZero(s.writers, HoldsDoc(i));
    }
  }

  /** Replacing writer w and appending to done and lost shifts the count of document i accordingly. */
  lemma FateOfChange(s: State, t: State, w: nat, v: Writer, i: nat)
    requires w < |s.writers| && t.writers == s.writers[w := v]
    requires t.done == s.done || (Holds(s.writers[w]) && t.done == s.done + [s.writers[w].batch])
    requires t.lost == s.lost || (Holds(s.writers[w]) && t.lost == s.lost + [s.writers[w].batch])
    ensures Fate(t, i) + HoldsDoc(i)(s.writers[w]) ==
            Fate(s, i) + HoldsDoc(i)(v)
            + (if t.done == s.done then 0 else HoldsDoc(i)(s.writers[w]))
            + (if t.lost == s.lost then 0 else HoldsDoc(i)(s.writers[w]))
  {
    SumUpdate(s.writers, w, v, HoldsDoc(i));
    if Holds(s.writers[w]) {
      SumAppend(s.done, s.writers[w].batch, Covers(i));
      SumAppend(s.lost, s.writers[w].batch, Covers(i));
    }
  }

  /** The document count of one step: only a Send adds a document, and only the batch's own. */
  lemma StepFate(c: Config, s: State, a: Action, i: nat)
    requires Enabled(c, s, a)
    ensures Fate(Apply(c, s, a), i) == Fate(s, i) + if a.Send? && Contains(s.producer.batch, i) then 1 else 0
  {
    var t := Apply(c, s, a);
    match a
    case Send(w) => FateOfChange(s, t, w, Got(s.producer.batch), i);
    case Check(w) => FateOfChange(s, t, w, if s.cancelled then Returned else Inserting(s.writers[w].batch), i);
    case Insert(w, ok) =>
      FateOfChange(s, t, w, if ok then Inserted(s.writers[w].batch) else Failing(s.writers[w].batch), i);
    case CancelOnError(w) => FateOfChange(s, t, w, Returned, i);
    case Progress(w) => FateOfChange(s, t, w, Receiving, i);
    case Return(w) => FateOfChange(s, t, w, Returned, i);
    case _ =>
  }

  lemma SizesOfChange(s: State, t: State, w: nat, v: Writer)
    requires Sizes(s) && w < |s.writers| && t.writers == s.writers[w := v]
    requires t.done == s.done || (Holds(s.writers[w]) && t.done == s.done + [s.writers[w].batch])
    requires t.lost == s.lost || (Holds(s.writers[w]) && t.lost == s.lost + [s.writers[w].batch])
    requires t.generated + HeldSize(s.writers[w]) == s.generated + HeldSize(v)
             + (if t.done == s.done then 0 else HeldSize(s.writers[w]))
               + (if t.lost == s.lost then 0 else HeldSize(s.writers[w]))
    requires t.totalInserted + Unreported(v) == s.totalInserted + Unreported(s.writers[w])
             + (if t.done == s.done then 0 else HeldSize(s.writers[w]))
    ensures Sizes(t)
  {
    SumUpdate(s.writers, w, v, HeldSize);
    SumUpdate(s.writers, w, v, Unreported);
    if Holds(s.writers[w]) {
      SumAppend(s.done, s.writers[w].batch, Size);
      SumAppend(s.lost, s.writers[w].batch, Size);
    }
  }

  lemma StepSizes(c: Config, s: State, a: Action)
    requires Enabled(c, s, a) && Sizes(s)
    ensures Sizes(Apply(c, s, a))
  {
    var t := Apply(c, s, a);
    match a
    case Send(w) => SizesOfChange(s, t, w, Got(s.producer.batch));
    case Check(w) => SizesOfChange(s, t, w, if s.cancelled then Returned else Inserting(s.writers[w].batch));
    case Insert(w, ok) =>
      SizesOfChange(s, t, w, if ok then Inserted(s.writers[w].batch) else Failing(s.writers[w].batch));
    case CancelOnError(w) => SizesOfChange(s, t, w, Returned);
    case Progress(w) => SizesOfChange(s, t, w, Receiving);
    case Return(w) => SizesOfChange(s, t, w, Returned);
    case _ =>
  }

  lemma StepControl(c: Config, s: State, a: Action)
    requires ValidConfig(c) && Control(c, s) && Reported(s) && Enabled(c, s, a)
    ensures Control(c, Apply(c, s, a)) && Reported(Apply(c, s, a))
  {
  }

  lemma StepFates(c: Config, s: State, a: Action)
    requires ValidConfig(c) && Control(c, s) && Fates(s) && Enabled(c, s, a)
    ensures Fates(Apply(c, s, a))
  {
    var t := Apply(c, s, a);
    forall i: nat
      ensures Fate(t, i) == if i < t.generated then 1 else 0
    {
      StepFate(c, s, a, i);
      assert Fate(s, i) == if i < s.generated then 1 else 0;
    }
  }

  lemma StepInv(c: Config, s: State, a: Action)
    requires ValidConfig(c) && Inv(c, s) && Enabled(c, s, a)
    ensures Inv(c, Apply(c, s, a))
  {
    StepControl(c, s, a);
    StepFates(c, s, a);
    StepSizes(c, s, a);
  }

  lemma {:induction false} RunInv(c: Config, s: State, trace: seq<Action>)
    requires ValidConfig(c) && Inv(c, s) && Run(c, s, trace).Some?
    ensures Inv(c, Run(c, s, trace).value)
    decreases |trace|
  {
    if trace != [] {
      StepInv(c, s, trace[0]);
      RunInv(c, Apply(c, s, trace[0]), trace[1..]);
    }
  }

  ghost predicate Reachable(c: Config, s: State) {
    exists trace :: Run(c, Init(c), trace) == Some(s)
  }

  lemma ReachableInv(c: Config, s: State)
    requires ValidConfig(c) && Reachable(c, s)
    ensures Inv(c, s)
  {
    var trace :| Run(c, Init(c), trace) == Some(s);
    InitInv(c);
    RunInv(c, Init(c), trace);
  }

  // ----------------------------------------------------------- main results

  /** At every moment a dispatched document is in exactly one batch, and an undispatched one in none. */
  lemma ExactlyOneBatch(c: Config, s: State, i: nat)
    requires ValidConfig(c) && Reachable(c, s)
    ensures Sum(s.done, Covers(i)) + Sum(s.lost, Covers(i)) + Sum(s.writers, HoldsDoc(i)) == if i < s.generated then 1
        else 0
    ensures i >= c.count ==> Fate(s, i) == 0
  {
    ReachableInv(c, s);
    assert Fate(s, i) == if i < s.generated then 1 else 0;
  }

  /** A nil result means every document was inserted exactly once and the progress total is the count. */
  lemma NilMeansAllInserted(c: Config, s: State)
    requires ValidConfig(c) && Reachable(c, s) && Finished(s) && ReturnsNil(s)
    ensures forall i: nat :: Sum(s.done, Covers(i)) == if i < c.count then 1 else 0
    ensures s.totalInserted == c.count
  {
    ReachableInv(c, s);
    SumZero(s.writers, HeldSize);
    SumZero(s.writers, Unreported);
    forall i: nat
      ensures Sum(s.done, Covers(i)) == if i < c.count then 1 else 0
    {
      SumZero(s.writers, HoldsDoc(i));
      assert Fate(s, i) == if i < s.generated then 1 else 0;
    }
  }

  /** No progress report ever exceeds the number of documents asked for. */
  lemma ProgressWithinCount(c: Config, s: State, k: nat)
    requires ValidConfig(c) && Reachable(c, s) && k < |s.reported|
    ensures s.reported[k] <= s.totalInserted <= c.count
  {
    ReachableInv(c, s);
  }

  /** The producer is left without a receiver only when the work context is cancelled. */
  lemma ProducerHasReceiver(c: Config, s: State)
    requires ValidConfig(c) && Reachable(c, s) && s.producer.Offering?
    requires forall i :: 0 <= i < |s.writers| ==> s.writers[i].Returned?
    ensures s.cancelled && Enabled(c, s, Break)
  {
    ReachableInv(c, s);
    assert s.writers[0].Returned?;
  }

  function WriterWork(w: Writer): nat
  {
    match w
    case Returned => 0
    case Receiving => 1
    case Failing(_) => 2
    case Inserted(_) => 2
    case Inserting(_) => 3
    case Got(_) => 4
  }

  /** What is left outside the writers. */
  function Upstream(c: Config, s: State): nat
  {
    (if s.generated <= c.count then 6 * (c.count - s.generated) else 0)
    + (match s.producer case Building => 2 case Offering(_) => 1 case Closed => 0)
    + if s.stopped then 0 else 1
  }

  function Remaining(c: Config, s: State): nat { Upstream(c, s) + Sum(s.writers, WriterWork) }

  function WriterAfter(s: State, a: Action): Writer
    requires a.Send? || a.Check? || a.Insert? || a.CancelOnError? || a.Progress? || a.Return?
    requires a.w < |s.writers|
    requires a.Send? ==> s.producer.Offering?
    requires a.Check? || a.Insert? ==> Holds(s.writers[a.w])
  {
    match a
    case Send(_) => Got(s.producer.batch)
    case Check(w) => if s.cancelled then Returned else Inserting(s.writers[w].batch)
    case Insert(w, ok) => if ok then Inserted(s.writers[w].batch) else Failing(s.writers[w].batch)
    case Progress(_) => Receiving
    case _ => Returned
  }

  predicate OfWriter(a: Action) { a.Send? || a.Check? || a.Insert? || a.CancelOnError? || a.Progress? || a.Return? }

  lemma WriterStep(c: Config, s: State, a: Action)
    requires ValidConfig(c) && Control(c, s) && Enabled(c, s, a) && OfWriter(a)
    ensures Apply(c, s, a).writers == s.writers[a.w := WriterAfter(s, a)]
    ensures Upstream(c, Apply(c, s, a)) + WriterWork(WriterAfter(s, a)) < Upstream(c, s) + WriterWork(s.writers[a.w])
  {
  }

  lemma OtherStep(c: Config, s: State, a: Action)
    requires Control(c, s) && Enabled(c, s, a) && !OfWriter(a)
    ensures Apply(c, s, a).writers == s.writers
    ensures Upstream(c, Apply(c, s, a)) < Upstream(c, s)
  {
  }

  lemma StepDecreases(c: Config, s: State, a: Action)
    requires ValidConfig(c) && Inv(c, s) && Enabled(c, s, a)
    ensures Remaining(c, Apply(c, s, a)) < Remaining(c, s)
  {
    if OfWriter(a) {
      WriterStep(c, s, a);
      SumUpdate(s.writers, a.w, WriterAfter(s, a), WriterWork);
    } else {
      OtherStep(c, s, a);
    }
  }

  /** Until the pipeline has finished, some action other than a stop from outside can be taken. */
  lemma NeverStuck(c: Config, s: State) returns (a: Action)
    requires ValidConfig(c) && Inv(c, s) && !Finished(s)
    ensures !a.StopRun? && Enabled(c, s, a)
  {
    if s.producer.Building? {
      a := if s.generated < c.count then Build else Close;
    } else if s.producer.Offering? && s.writers[0].Returned? {
      a := Break;
    } else {
      var i := if s.producer.Offering? then 0 else var j :| 0 <= j < |s.writers| && !s.writers[j].Returned?; j;
      a := match s.writers[i]
        case Receiving => if s.producer.Closed? then Return(i) else Send(i)
        case Got(_) => Check(i)
        case Inserting(_) => Insert(i, true)
        case Failing(_) => CancelOnError(i)
        case Inserted(_) => Progress(i);
    }
  }

  lemma {:induction false} RunBounded(c: Config, s: State, trace: seq<Action>)
    requires ValidConfig(c) && Inv(c, s) && Run(c, s, trace).Some?
    ensures |trace| + Remaining(c, Run(c, s, trace).value) <= Remaining(c, s)
    decreases |trace|
  {
    if trace != [] {
      StepInv(c, s, trace[0]);
      StepDecreases(c, s, trace[0]);
      RunBounded(c, Apply(c, s, trace[0]), trace[1..]);
    }
  }

  /** Every run ends, and one that no own action extends has finished: no state deadlocks. */
  lemma EveryRunFinishes(c: Config, trace: seq<Action>)
    requires ValidConfig(c) && Run(c, Init(c), trace).Some?
    ensures |trace| <= Remaining(c, Init(c))
    ensures (forall a: Action :: !a.StopRun? ==> !Enabled(c, Run(c, Init(c), trace).value, a)) ==>
              Finished(Run(c, Init(c), trace).value)
  {
    InitInv(c);
    RunInv(c, Init(c), trace);
    RunBounded(c, Init(c), trace);
    var s := Run(c, Init(c), trace).value;
    if !Finished(s) {
      var a := NeverStuck(c, s);
    }
  }

  // ------------------------------------------------------------- seeded ids

  const ID_RANGE: nat := 0x1_0000_0000

  /** The 12 bytes of a seeded _id as three 32-bit words; the index is truncated to 32 bits. */
  function SeededDocumentId(time: bv32, nsHash: bv32, index: nat): (bv32, bv32, nat) {
    (time, nsHash, index % ID_RANGE)
  }

  /** Seeded _ids of one namespace are pairwise distinct exactly up to 2^32 documents. */
  lemma SeededIdsDistinct(time: bv32, nsHash: bv32, count: nat)
    ensures (forall i: nat, j: nat :: i < j < count ==>
        SeededDocumentId(time, nsHash, i) != SeededDocumentId(time, nsHash, j))
            <==> count <= ID_RANGE
  {
    if count <= ID_RANGE {
      forall i: nat, j: nat | i < j < count
        ensures SeededDocumentId(time, nsHash, i) != SeededDocumentId(time, nsHash, j)
      {
        assert i % ID_RANGE == i && j % ID_RANGE == j;
      }
    } else {
      assert SeededDocumentId(time, nsHash, 0) == SeededDocumentId(time, nsHash, ID_RANGE);
    }
  }
}
