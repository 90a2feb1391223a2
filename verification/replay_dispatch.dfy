/**
 The replay dispatcher (internal/mongo/workload_replay.go): one reader hands
 recorded operations to bounded per-worker queues, a pending counter is the
 barrier between iterations, and a stop of the run, a failed execution or a
 panic can strike between any two steps. The program is a step system; a run is
 any sequence of enabled actions, so every interleaving is covered.
 */
module ReplayDispatch {
  import opened Sums
  import opened Wrappers

  const QUEUE_SIZE: nat := 1024

  /** One recorded line: its worker (at least 1), iteration and command. */
  datatype Op = Op(worker: nat, iteration: int, write: bool, command: nat)

  datatype Config = Config(workers: nat, readsOnly: bool, timed: bool, ops: seq<Op>)

  ghost predicate ValidConfig(c: Config) {
    c.workers >= 1 && forall i :: 0 <= i < |c.ops| ==> c.ops[i].worker >= 1
  }

  predicate Skipped(c: Config, op: Op) { c.readsOnly && op.write }

  /** Where a worker goroutine is. From Fetched to Panicking it holds an operation that counts as pending. */
  datatype Phase =
    | Idle
    | Fetched(op: Op)
    | Waiting(op: Op)
    | Executing(op: Op)
    | Failing(op: Op)
    | Finishing(op: Op)
    | Panicking(op: Op)
    | Recovered
    | Reported
    | Draining
    | Exited

  /** handed is a history variable: what the reader has put into this queue so far. */
  datatype Worker = Worker(queue: seq<Op>, phase: Phase, hashed: seq<Op>, handed: seq<Op>)

  datatype StreamResult = Exhausted | UnknownWorker | StreamCancelled

  datatype Reader =
    | Reading
    | Barrier(op: Op)
    | Handing(op: Op)
    | Aborting(op: Op)
    | Stopped(result: StreamResult)

  /** The collector's monitor goroutine, which can panic on its own. */
  datatype Monitor = Monitoring | MonitorPanicked | MonitorReported | MonitorOff

  datatype State = State(
    reader: Reader, next: nat, iteration: int, pending: int, workers: seq<Worker>,
    cancelled: bool, stopped: bool, monitor: Monitor,
    panicErr: bool, execErr: bool, skipped: nat, replayed: nat, failed: nat)

  datatype WorkerStep =
    | Take
    | SkipCancelled
    | Proceed
    | StartTimer
    | TimerFires
    | TimerStopped
    | Sent(ok: bool)
    | SendFails
    | CancelOnError
    | Panic
    | Done
    | Recover
    | CancelOnPanic
    | Drain
    | Exit

  datatype Action =
    | StopRun
    | MonitorStep
    | Read
    | ReadCancelled
    | PassBarrier
    | Hand
    | HandCancelled
    | AbortDone
    | Work(w: nat, step: WorkerStep)

  function Init(c: Config): State
  {
    State(Reading, 0, 0, 0, seq(c.workers, _ => Worker([], Idle, [], [])), false, false, Monitoring, false, false, 0,
      0, 0)
  }

  // ---------------------------------------------------------------- workers

  predicate WorkerEnabled(c: Config, s: State, w: Worker, k: WorkerStep)
  {
    match k
    case Take => w.phase.Idle? && w.queue != []
    case SkipCancelled => w.phase.Fetched? && s.cancelled
    case Proceed => w.phase.Fetched? && !s.cancelled
    case StartTimer => w.phase.Fetched? && !s.cancelled && c.timed
    case TimerFires => w.phase.Waiting?
    case TimerStopped => w.phase.Waiting? && s.cancelled
    case Sent(_) => w.phase.Executing?
    case SendFails => w.phase.Executing?
    case CancelOnError => w.phase.Failing?
    case Panic => w.phase.Executing?
    case Done => w.phase.Finishing? || w.phase.Panicking?
    case Recover => w.phase.Recovered?
    case CancelOnPanic => w.phase.Reported?
    case Drain => w.phase.Draining? && w.queue != []
    case Exit => (w.phase.Idle? || w.phase.Draining?) && w.queue == [] && s.reader.Stopped?
  }

  function StepWorker(c: Config, s: State, w: Worker, k: WorkerStep): Worker
    requires WorkerEnabled(c, s, w, k)
  {
    match k
    case Take => w.(queue := w.queue[1..], phase := Fetched(w.queue[0]))
    case SkipCancelled => w.(phase := Finishing(w.phase.op))
    case Proceed => w.(phase := Executing(w.phase.op))
    case StartTimer => w.(phase := Waiting(w.phase.op))
    case TimerFires => w.(phase := Executing(w.phase.op))
    case TimerStopped => w.(phase := Finishing(w.phase.op))
    case Sent(_) => w.(phase := Finishing(w.phase.op), hashed := w.hashed + [w.phase.op])
    case SendFails => w.(phase := Failing(w.phase.op))
    case CancelOnError => w.(phase := Finishing(w.phase.op))
    case Panic => w.(phase := Panicking(w.phase.op))
    case Done => w.(phase := if w.phase.Finishing? then Idle else Recovered)
    case Recover => w.(phase := Reported)
    case CancelOnPanic => w.(phase := Draining)
    case Drain => w.(queue := w.queue[1..])
    case Exit => w.(phase := Exited)
  }

  /** Everything a worker step changes outside the worker itself. */
  function StepShared(s: State, k: WorkerStep): State
  {
    match k
    case Sent(ok) => s.(replayed := s.replayed + 1, failed := if ok then s.failed else s.failed + 1)
    case SendFails => s.(execErr := true, failed := s.failed + 1)
    case CancelOnError => s.(cancelled := true)
    case Recover => s.(panicErr := true)
    case CancelOnPanic => s.(cancelled := true)
    case Done => s.(pending := s.pending - 1)
    case Drain => s.(pending := s.pending - 1)
    case _ => s
  }

  // ----------------------------------------------------------------- reader

  /** The stream callback for the next recorded line. */
  function ReadLine(c: Config, s: State): State
    requires s.next <= |c.ops|
  {
    if s.next == |c.ops| then s.(reader := Stopped(Exhausted))
    else
      var op := c.ops[s.next];
      if op.worker > c.workers then s.(reader := Stopped(UnknownWorker))
      else if Skipped(c, op) then s.(next := s.next + 1, skipped := s.skipped + 1)
      else if op.iteration != s.iteration then s.(reader := Barrier(op))
      else s.(pending := s.pending + 1, reader := Handing(op))
  }

  function HandOver(s: State): State
    requires s.reader.Handing? && 1 <= s.reader.op.worker <= |s.workers|
  {
    var op := s.reader.op;
    var w := s.workers[op.worker - 1];
    s.(reader := Reading, next := s.next + 1,
       workers := s.workers[op.worker - 1 := w.(queue := w.queue + [op], handed := w.handed + [op])])
  }

  predicate Enabled(c: Config, s: State, a: Action)
  {
    match a
    case StopRun => !s.stopped
    case MonitorStep => !s.monitor.MonitorOff?
    case Read => s.reader.Reading? && s.next <= |c.ops|
    case ReadCancelled => s.reader.Reading? && s.cancelled
    case PassBarrier => s.reader.Barrier? && s.pending == 0
    case Hand =>
      && s.reader.Handing? && 1 <= s.reader.op.worker <= |s.workers|
      && |s.workers[s.reader.op.worker - 1].queue| < QUEUE_SIZE
    case HandCancelled => s.reader.Handing? && s.cancelled
    case AbortDone => s.reader.Aborting?
    case Work(w, k) => w < |s.workers| && WorkerEnabled(c, s, s.workers[w], k)
  }

  function Apply(c: Config, s: State, a: Action): State
    requires Enabled(c, s, a)
  {
    match a
    case StopRun => s.(stopped := true, cancelled := true)
    case MonitorStep =>
      (match s.monitor
       case Monitoring => s.(monitor := MonitorPanicked)
       case MonitorPanicked => s.(monitor := MonitorReported, panicErr := true)
       case _ => s.(monitor := MonitorOff, cancelled := true))
    case Read => ReadLine(c, s)
    case ReadCancelled => s.(reader := Stopped(StreamCancelled))
    case PassBarrier => s.(iteration := s.reader.op.iteration, pending := s.pending + 1, reader := Handing(s.reader.op))
    case Hand => HandOver(s)
    case HandCancelled => s.(reader := Aborting(s.reader.op))
    case AbortDone => s.(pending := s.pending - 1, reader := Stopped(StreamCancelled))
    case Work(w, k) => StepShared(s, k).(workers := s.workers[w := StepWorker(c, s, s.workers[w], k)])
  }

  /** The state after a trace of actions, or None when some action of it was not enabled. */
  function Run(c: Config, s: State, trace: seq<Action>): Option<State>
    decreases |trace|
  {
    if trace == [] then Some(s)
    else if Enabled(c, s, trace[0]) then Run(c, Apply(c, s, trace[0]), trace[1..])
    else None
  }

  /** The reader closed the queues and every worker goroutine returned. */
  predicate Finished(s: State) {
    s.reader.Stopped? && forall i :: 0 <= i < |s.workers| ==> s.workers[i].phase.Exited?
  }

  datatype Status = StatusComplete | StatusFailed | StatusCancelled

  /** The status decision; contextDone is ctx.Err() != nil when it is taken. */
  function StatusOf(c: Config, s: State, contextDone: bool): Status
    requires s.reader.Stopped?
  {
    if s.panicErr then StatusFailed
    else if s.execErr then StatusFailed
    else if !s.reader.result.Exhausted? && contextDone then StatusCancelled
    else if !s.reader.result.Exhausted? then StatusFailed
    else if contextDone && s.replayed + s.skipped < |c.ops| then StatusCancelled
    else StatusComplete
  }

  // -------------------------------------------------------------- invariant

  /** Worker w's share of the first n recorded lines: its non-skipped lines, in file order. */
  function Share(c: Config, n: nat, w: nat): seq<Op>
    requires n <= |c.ops|
  {
    if n == 0 then []
    else
      var op := c.ops[n - 1];
      Share(c, n - 1, w) + if op.worker == w && !Skipped(c, op) then [op] else []
  }

  ghost predicate IsPrefix(a: seq<Op>, b: seq<Op>) { |a| <= |b| && a == b[..|a|] }

  /** The operation a worker has not called Done for yet. */
  function Held(p: Phase): seq<Op> {
    if p.Fetched? || p.Waiting? || p.Executing? || p.Failing? || p.Finishing? || p.Panicking? then [p.op] else []
  }

  function Load(w: Worker): nat { |w.queue| + |Held(w.phase)| }

  function HashedCount(w: Worker): nat { |w.hashed| }

  function HandedCount(w: Worker): nat { |w.handed| }

  /** The operation the reader counted and has not handed over. */
  function ReaderHolds(r: Reader): seq<Op> { if r.Handing? || r.Aborting? then [r.op] else [] }

  function Unsent(p: Phase): seq<Op> {
    if p.Fetched? || p.Waiting? || p.Executing? then [p.op] else []
  }

  /** Nothing handed to this worker has been dropped. */
  ghost predicate Aligned(w: Worker) {
    w.handed == w.hashed + Unsent(w.phase) + w.queue
  }

  /** Something was dropped; from here on this worker sends nothing more. */
  ghost predicate Silenced(s: State, w: Worker) {
    && IsPrefix(w.hashed, w.handed)
    && (w.phase.Failing? || w.phase.Panicking? || w.phase.Recovered? || w.phase.Reported? || w.phase.Draining?
        || (s.cancelled && (w.phase.Idle? || w.phase.Fetched? || w.phase.Finishing? || w.phase.Exited?)))
  }

  /** The queue is bounded and everything waiting or held belongs to the current iteration. */
  ghost predicate OfIteration(s: State, w: Worker) {
    && |w.queue| <= QUEUE_SIZE
    && (forall j :: 0 <= j < |w.queue| ==> w.queue[j].iteration == s.iteration)
    && (forall j :: 0 <= j < |Held(w.phase)| ==> Held(w.phase)[j].iteration == s.iteration)
  }

  ghost predicate Flags(s: State, w: Worker) {
    && (w.phase.Failing? ==> s.execErr)
    && (w.phase.Reported? ==> s.panicErr)
    && (w.phase.Draining? ==> s.cancelled)
    && (w.phase.Exited? ==> s.reader.Stopped? && w.queue == [])
  }

  ghost predicate WorkerInv(c: Config, s: State, i: nat)
    requires i < |s.workers| && s.next <= |c.ops|
  {
    var w := s.workers[i];
    && OfIteration(s, w)
    && Flags(s, w)
    && w.handed == Share(c, s.next, i + 1)
    && (Aligned(w) || Silenced(s, w))
  }

  ghost predicate ReaderInv(c: Config, s: State)
  {
    && s.next <= |c.ops|
    && (s.reader.Barrier? || s.reader.Handing? ==>
          s.next < |c.ops| && s.reader.op == c.ops[s.next] && s.reader.op.worker <= c.workers
            && !Skipped(c, s.reader.op))
    && (s.reader.Handing? || s.reader.Aborting? ==> s.reader.op.iteration == s.iteration)
    && (s.reader.Stopped? && s.reader.result.Exhausted? ==> s.next == |c.ops|)
  }

  ghost predicate Counts(s: State)
  {
    && s.pending == Sum(s.workers, Load) + |ReaderHolds(s.reader)|
    && s.replayed == Sum(s.workers, HashedCount)
    && s.next == Sum(s.workers, HandedCount) + s.skipped
  }

  /** The run context is cancelled only for a reason the report will name. */
  ghost predicate Reasons(s: State)
  {
    && (s.cancelled ==> s.stopped || s.panicErr || s.execErr)
    && (s.stopped ==> s.cancelled)
    && (s.monitor.MonitorReported? ==> s.panicErr)
  }

  ghost predicate WorkersInv(c: Config, s: State)
    requires s.next <= |c.ops|
  {
    && |s.workers| == c.workers
    && forall i :: 0 <= i < |s.workers| ==> WorkerInv(c, s, i)
  }

  ghost predicate Inv(c: Config, s: State)
  {
    ReaderInv(c, s) && WorkersInv(c, s) && Counts(s) && Reasons(s)
  }

  lemma InitInv(c: Config)
    requires ValidConfig(c)
    ensures Inv(c, Init(c))
  {
    var s := Init(c);
    SumZero(s.workers, Load);
    SumZero(s.workers, HashedCount);
    SumZero(s.workers, HandedCount);
  }

  lemma WorkKeepsIteration(c: Config, s: State, w: Worker, k: WorkerStep)
    requires WorkerEnabled(c, s, w, k) && OfIteration(s, w)
    ensures OfIteration(StepShared(s, k), StepWorker(c, s, w, k))
  {
    var v := StepWorker(c, s, w, k);
    forall j | 0 <= j < |Held(v.phase)|
      ensures Held(v.phase)[j].iteration == s.iteration
    {
      if Held(w.phase) != [] {
        assert Held(w.phase)[0].iteration == s.iteration;
      }
    }
  }

  lemma WorkKeepsFlags(c: Config, s: State, w: Worker, k: WorkerStep)
    requires WorkerEnabled(c, s, w, k) && Flags(s, w)
    ensures Flags(StepShared(s, k), StepWorker(c, s, w, k))
  {
  }

  lemma AlignedStep(c: Config, s: State, w: Worker, k: WorkerStep)
    requires WorkerEnabled(c, s, w, k) && Aligned(w)
    ensures var t, v := StepShared(s, k), StepWorker(c, s, w, k); Aligned(v) || Silenced(t, v)
  {
    var v := StepWorker(c, s, w, k);
    if k.Take? {
      assert w.queue == [w.queue[0]] + w.queue[1..];
      assert Aligned(v);
    } else if k.Sent? {
      assert Aligned(v);
    } else {
      assert v.hashed == w.hashed && v.handed == w.handed;
      assert IsPrefix(v.hashed, v.handed);
    }
  }

  lemma SilencedStep(c: Config, s: State, w: Worker, k: WorkerStep)
    requires WorkerEnabled(c, s, w, k) && Flags(s, w) && Silenced(s, w)
    ensures Silenced(StepShared(s, k), StepWorker(c, s, w, k))
  {
  }

  lemma WorkKeepsHistory(c: Config, s: State, w: Worker, k: WorkerStep)
    requires WorkerEnabled(c, s, w, k) && Flags(s, w) && (Aligned(w) || Silenced(s, w))
    ensures var t, v := StepShared(s, k), StepWorker(c, s, w, k);
            v.handed == w.handed && Flags(t, v) && (Aligned(v) || Silenced(t, v))
  {
    WorkKeepsFlags(c, s, w, k);
    if Aligned(w) {
      AlignedStep(c, s, w, k);
    } else {
      SilencedStep(c, s, w, k);
    }
  }

  /** A worker that does not step keeps its invariant: flags are only ever raised. */
  lemma UntouchedWorker(c: Config, s: State, t: State, j: nat)
    requires s.next <= |c.ops| && j < |s.workers| && WorkerInv(c, s, j)
    requires |t.workers| == |s.workers| && t.workers[j] == s.workers[j]
    requires s.next <= t.next <= |c.ops| && t.iteration == s.iteration
    requires t.next > s.next ==> t.next == s.next + 1 && Skipped(c, c.ops[s.next])
    requires (s.cancelled ==> t.cancelled) && (s.execErr ==> t.execErr) && (s.panicErr ==> t.panicErr)
    requires s.reader.Stopped? ==> t.reader.Stopped?
    ensures WorkerInv(c, t, j)
  {
  }

  lemma SteppedWorker(c: Config, s: State, i: nat, k: WorkerStep)
    requires s.next <= |c.ops| && i < |s.workers| && WorkerInv(c, s, i) && WorkerEnabled(c, s, s.workers[i], k)
    ensures WorkerInv(c, Apply(c, s, Work(i, k)), i)
  {
    WorkKeepsIteration(c, s, s.workers[i], k);
    WorkKeepsHistory(c, s, s.workers[i], k);
  }

  lemma WorkMoves(c: Config, s: State, i: nat, k: WorkerStep)
    requires i < |s.workers| && WorkerEnabled(c, s, s.workers[i], k)
    ensures var t, w, v := Apply(c, s, Work(i, k)), s.workers[i], StepWorker(c, s, s.workers[i], k);
            && t.workers == s.workers[i := v] && t.reader == s.reader && t.next == s.next && t.skipped == s.skipped
            && t.pending - s.pending == Load(v) - Load(w) && HandedCount(v) == HandedCount(w)
            && t.replayed - s.replayed == HashedCount(v) - HashedCount(w)
  {
  }

  lemma WorkKeepsWorker(c: Config, s: State, i: nat, k: WorkerStep, j: nat)
    requires s.next <= |c.ops| && i < |s.workers| && j < |s.workers| && WorkerInv(c, s, i) && WorkerInv(c, s, j)
    requires WorkerEnabled(c, s, s.workers[i], k)
    ensures WorkerInv(c, Apply(c, s, Work(i, k)), j)
  {
    if j == i {
      SteppedWorker(c, s, i, k);
    } else {
      UntouchedWorker(c, s, Apply(c, s, Work(i, k)), j);
    }
  }

  lemma WorkKeepsWorkers(c: Config, s: State, i: nat, k: WorkerStep)
    requires ReaderInv(c, s) && WorkersInv(c, s) && i < |s.workers| && WorkerEnabled(c, s, s.workers[i], k)
    ensures WorkersInv(c, Apply(c, s, Work(i, k)))
  {
    WorkMoves(c, s, i, k);
    forall j | 0 <= j < |s.workers|
      ensures WorkerInv(c, Apply(c, s, Work(i, k)), j)
    {
      assert WorkerInv(c, s, i) && WorkerInv(c, s, j);
      WorkKeepsWorker(c, s, i, k, j);
    }
  }

  /** Counting stays exact when one worker changes as the counters do. */
  lemma CountsStepped(s: State, t: State, i: nat, v: Worker)
    requires Counts(s) && i < |s.workers| && t.workers == s.workers[i := v]
    requires t.pending - |ReaderHolds(t.reader)| - s.pending + |ReaderHolds(s.reader)| == Load(v) - Load(s.workers[i])
    requires t.replayed - s.replayed == HashedCount(v) - HashedCount(s.workers[i])
    requires t.next - t.skipped - s.next + s.skipped == HandedCount(v) - HandedCount(s.workers[i])
    ensures Counts(t)
  {
    SumUpdate(s.workers, i, v, Load);
    SumUpdate(s.workers, i, v, HashedCount);
    SumUpdate(s.workers, i, v, HandedCount);
  }

  lemma CountsMoved(s: State, t: State)
    requires Counts(s) && t.workers == s.workers && t.replayed == s.replayed
    requires t.pending - |ReaderHolds(t.reader)| == s.pending - |ReaderHolds(s.reader)|
    requires t.next - t.skipped == s.next - s.skipped
    ensures Counts(t)
  {
  }

  lemma WorkKeepsCounts(c: Config, s: State, i: nat, k: WorkerStep)
    requires Counts(s) && i < |s.workers| && WorkerEnabled(c, s, s.workers[i], k)
    ensures Counts(Apply(c, s, Work(i, k)))
  {
    WorkMoves(c, s, i, k);
    CountsStepped(s, Apply(c, s, Work(i, k)), i, StepWorker(c, s, s.workers[i], k));
  }

  lemma WorkKeepsReasons(c: Config, s: State, i: nat, k: WorkerStep)
    requires Reasons(s) && i < |s.workers| && WorkerEnabled(c, s, s.workers[i], k) && Flags(s, s.workers[i])
    ensures Reasons(Apply(c, s, Work(i, k)))
  {
  }

  lemma WorkKeepsReader(c: Config, s: State, i: nat, k: WorkerStep)
    requires ReaderInv(c, s) && i < |s.workers| && WorkerEnabled(c, s, s.workers[i], k)
    ensures ReaderInv(c, Apply(c, s, Work(i, k)))
  {
  }

  lemma WorkInv(c: Config, s: State, i: nat, k: WorkerStep)
    requires Inv(c, s) && i < |s.workers| && WorkerEnabled(c, s, s.workers[i], k)
    ensures Inv(c, Apply(c, s, Work(i, k)))
  {
    assert Flags(s, s.workers[i]) by { assert WorkerInv(c, s, i); }
    WorkKeepsReader(c, s, i, k);
    WorkKeepsWorkers(c, s, i, k);
    WorkKeepsCounts(c, s, i, k);
    WorkKeepsReasons(c, s, i, k);
  }

  lemma HandKeepsWorker(c: Config, s: State, j: nat)
    requires ReaderInv(c, s) && s.reader.Handing? && 1 <= s.reader.op.worker <= |s.workers|
    requires j < |s.workers| && WorkerInv(c, s, j)
    requires j == s.reader.op.worker - 1 ==> |s.workers[j].queue| < QUEUE_SIZE && s.workers[j].phase.Exited? == false
    ensures WorkerInv(c, HandOver(s), j)
  {
    var w, op := s.workers[j], s.reader.op;
    if j == op.worker - 1 && Aligned(w) {
      assert w.handed + [op] == w.hashed + Unsent(w.phase) + (w.queue + [op]);
    }
  }

  lemma HandMoves(s: State)
    requires s.reader.Handing? && 1 <= s.reader.op.worker <= |s.workers|
    ensures var t, i := HandOver(s), s.reader.op.worker - 1;
            && t.workers == s.workers[i := t.workers[i]] && t.reader == Reading && t.pending == s.pending
            && t.replayed == s.replayed && t.next == s.next + 1 && t.skipped == s.skipped
            && Load(t.workers[i]) == Load(s.workers[i]) + 1 && HashedCount(t.workers[i]) == HashedCount(s.workers[i])
            && HandedCount(t.workers[i]) == HandedCount(s.workers[i]) + 1
            && WorkerWork(t.workers[i]) == WorkerWork(s.workers[i]) + 6
  {
  }

  lemma HandKeepsCounts(c: Config, s: State)
    requires Counts(s) && s.reader.Handing? && 1 <= s.reader.op.worker <= |s.workers|
    ensures Counts(HandOver(s))
  {
    var i := s.reader.op.worker - 1;
    HandMoves(s);
    CountsStepped(s, HandOver(s), i, HandOver(s).workers[i]);
  }

  lemma HandInv(c: Config, s: State)
    requires Inv(c, s) && Enabled(c, s, Hand)
    ensures Inv(c, HandOver(s))
  {
    HandKeepsCounts(c, s);
    forall j | 0 <= j < |s.workers|
      ensures WorkerInv(c, HandOver(s), j)
    {
      assert WorkerInv(c, s, j);
      HandKeepsWorker(c, s, j);
    }
  }

  /** A step that leaves every worker alone keeps the workers' invariants. */
  lemma SameWorkers(c: Config, s: State, t: State)
    requires ReaderInv(c, s) && WorkersInv(c, s)
    requires t.workers == s.workers && s.next <= t.next <= |c.ops| && t.iteration == s.iteration
    requires t.next > s.next ==> t.next == s.next + 1 && Skipped(c, c.ops[s.next])
    requires (s.cancelled ==> t.cancelled) && (s.execErr ==> t.execErr) && (s.panicErr ==> t.panicErr)
    requires s.reader.Stopped? ==> t.reader.Stopped?
    ensures WorkersInv(c, t)
  {
    forall j | 0 <= j < |t.workers|
      ensures WorkerInv(c, t, j)
    {
      assert WorkerInv(c, s, j);
      UntouchedWorker(c, s, t, j);
    }
  }

  /** The barrier: with nothing pending no queue or worker holds an operation of the old iteration. */
  lemma BarrierInv(c: Config, s: State)
    requires ValidConfig(c) && Inv(c, s) && Enabled(c, s, PassBarrier)
    ensures Inv(c, Apply(c, s, PassBarrier))
  {
    var t := Apply(c, s, PassBarrier);
    forall j | 0 <= j < |t.workers|
      ensures WorkerInv(c, t, j)
    {
      assert WorkerInv(c, s, j);
      SumAtLeast(s.workers, j, Load);
      assert s.workers[j].queue == [] && Held(s.workers[j].phase) == [];
    }
  }

  lemma ReadMoves(c: Config, s: State)
    requires s.reader.Reading? && s.next <= |c.ops|
    ensures var t := ReadLine(c, s);
            && t.workers == s.workers && t.replayed == s.replayed && t.next - t.skipped == s.next - s.skipped
            && t.pending - |ReaderHolds(t.reader)| == s.pending - |ReaderHolds(s.reader)|
  {
  }

  lemma ReadKeepsReader(c: Config, s: State)
    requires ValidConfig(c) && ReaderInv(c, s) && s.reader.Reading?
    ensures ReaderInv(c, ReadLine(c, s))
  {
  }

  lemma ReadKeepsWorkers(c: Config, s: State)
    requires ReaderInv(c, s) && WorkersInv(c, s) && s.reader.Reading?
    ensures ReadLine(c, s).next <= |c.ops| && WorkersInv(c, ReadLine(c, s))
  {
    SameWorkers(c, s, ReadLine(c, s));
  }

  lemma ReadKeepsReasons(c: Config, s: State)
    requires Reasons(s) && s.next <= |c.ops|
    ensures Reasons(ReadLine(c, s))
  {
  }

  lemma ReadInv(c: Config, s: State)
    requires ValidConfig(c) && Inv(c, s) && s.reader.Reading?
    ensures Inv(c, ReadLine(c, s))
  {
    ReadMoves(c, s);
    CountsMoved(s, ReadLine(c, s));
    ReadKeepsReader(c, s);
    ReadKeepsWorkers(c, s);
    ReadKeepsReasons(c, s);
  }

  /** The stop, monitor, abort and cancel actions touch no worker and no line. */
  predicate TouchesNoWorker(a: Action) {
    a.StopRun? || a.MonitorStep? || a.ReadCancelled? || a.HandCancelled? || a.AbortDone?
  }

  lemma OtherMoves(c: Config, s: State, a: Action)
    requires Enabled(c, s, a) && TouchesNoWorker(a)
    ensures var t := Apply(c, s, a);
            && t.workers == s.workers && t.replayed == s.replayed && t.next - t.skipped == s.next - s.skipped
            && t.pending - |ReaderHolds(t.reader)| == s.pending - |ReaderHolds(s.reader)|
  {
  }

  lemma OtherKeepsReasons(c: Config, s: State, a: Action)
    requires Reasons(s) && Enabled(c, s, a) && TouchesNoWorker(a)
    ensures Reasons(Apply(c, s, a))
  {
  }

  lemma OtherKeepsCounts(c: Config, s: State, a: Action)
    requires Counts(s) && Reasons(s) && Enabled(c, s, a) && TouchesNoWorker(a)
    ensures Counts(Apply(c, s, a)) && Reasons(Apply(c, s, a))
  {
    OtherMoves(c, s, a);
    OtherKeepsReasons(c, s, a);
    CountsMoved(s, Apply(c, s, a));
  }

  lemma OtherInv(c: Config, s: State, a: Action)
    requires ReaderInv(c, s) && WorkersInv(c, s) && Counts(s) && Reasons(s) && Enabled(c, s, a) && TouchesNoWorker(a)
    ensures Inv(c, Apply(c, s, a))
  {
    OtherKeepsReader(c, s, a);
    OtherKeepsWorkers(c, s, a);
    OtherKeepsCounts(c, s, a);
  }

  lemma OtherKeepsReader(c: Config, s: State, a: Action)
    requires ReaderInv(c, s) && Enabled(c, s, a) && TouchesNoWorker(a)
    ensures ReaderInv(c, Apply(c, s, a))
  {
  }

  lemma OtherKeepsWorkers(c: Config, s: State, a: Action)
    requires ReaderInv(c, s) && WorkersInv(c, s) && Enabled(c, s, a) && TouchesNoWorker(a)
    ensures WorkersInv(c, Apply(c, s, a))
  {
    SameWorkers(c, s, Apply(c, s, a));
  }

  lemma StepInv(c: Config, s: State, a: Action)
    requires ValidConfig(c) && Inv(c, s) && Enabled(c, s, a)
    ensures Inv(c, Apply(c, s, a))
  {
    match a
    case Work(w, k) => WorkInv(c, s, w, k);
    case Hand => HandInv(c, s);
    case PassBarrier => BarrierInv(c, s);
    case Read => ReadInv(c, s);
    case _ => OtherInv(c, s, a);
  }

  /** The invariant holds in every state any trace reaches. */
  lemma {:induction false} RunInv(c: Config, s: State, trace: seq<Action>)
    requires ValidConfig(c) && Inv(c, s) && Run(c, s, trace).Some?
    ensures Inv(c, Run(c, s, trace).value)
    decreases |trace|
  {
    if trace != [] {
      StepInv(c, s, trace[0]);
      RunInv(c, Apply(c, s, trace[0]), trace[1..]);
    }
  }

  // ----------------------------------------------------------- main results

  ghost predicate Reachable(c: Config, s: State) {
    exists trace :: Run(c, Init(c), trace) == Some(s)
  }

  lemma ReachableInv(c: Config, s: State)
    requires ValidConfig(c) && Reachable(c, s)
    ensures Inv(c, s)
  {
    var trace :| Run(c, Init(c), trace) == Some(s);
    InitInv(c);
    RunInv(c, Init(c), trace);
  }

  /** pending is exactly what is queued, in flight or being handed over, and all of it is of this iteration. */
  lemma PendingExact(c: Config, s: State)
    requires ValidConfig(c) && Reachable(c, s)
    ensures s.pending == Sum(s.workers, Load) + |ReaderHolds(s.reader)|
    ensures forall i, j :: 0 <= i < |s.workers| && 0 <= j < |s.workers[i].queue| ==>
        s.workers[i].queue[j].iteration == s.iteration
    ensures forall i, op :: 0 <= i < |s.workers| && op in Held(s.workers[i].phase) ==> op.iteration == s.iteration
    ensures forall op :: op in ReaderHolds(s.reader) ==> op.iteration == s.iteration
  {
    ReachableInv(c, s);
    forall i, op | 0 <= i < |s.workers| && op in Held(s.workers[i].phase)
      ensures op.iteration == s.iteration
    {
      assert WorkerInv(c, s, i);
      assert Held(s.workers[i].phase)[0] == op;
    }
    forall i, j | 0 <= i < |s.workers| && 0 <= j < |s.workers[i].queue|
      ensures s.workers[i].queue[j].iteration == s.iteration
    {
      assert WorkerInv(c, s, i);
    }
  }

  lemma {:induction false} SharePrefix(c: Config, n: nat, m: nat, w: nat)
    requires n <= m <= |c.ops|
    ensures IsPrefix(Share(c, n, w), Share(c, m, w))
    decreases m
  {
    if n < m {
      SharePrefix(c, n, m - 1, w);
    }
  }

  /** In every run the commands hashed for a worker are a prefix of its recorded non-skipped commands. */
  lemma HashedIsPrefix(c: Config, s: State, i: nat)
    requires ValidConfig(c) && Reachable(c, s) && i < |s.workers|
    ensures IsPrefix(s.workers[i].hashed, Share(c, |c.ops|, i + 1))
  {
    ReachableInv(c, s);
    assert WorkerInv(c, s, i);
    SharePrefix(c, s.next, |c.ops|, i + 1);
  }

  lemma {:induction false} EqualSums(ws: seq<Worker>)
    requires forall i :: 0 <= i < |ws| ==> IsPrefix(ws[i].hashed, ws[i].handed)
    ensures Sum(ws, HashedCount) <= Sum(ws, HandedCount)
    ensures Sum(ws, HashedCount) == Sum(ws, HandedCount) ==>
              forall i :: 0 <= i < |ws| ==> ws[i].hashed == ws[i].handed
  {
    if ws != [] {
      assert forall i :: 0 <= i < |ws[1..]| ==> ws[1..][i] == ws[i + 1];
      EqualSums(ws[1..]);
      if Sum(ws, HashedCount) == Sum(ws, HandedCount) {
        forall i | 0 <= i < |ws|
          ensures ws[i].hashed == ws[i].handed
        {
          if i > 0 {
            assert ws[1..][i - 1] == ws[i];
          }
        }
      }
    }
  }

  /**
   The report of a finished replay is honest. Status complete means every worker sent
   exactly its recorded non-skipped commands, in order, and no recorded line is
   unaccounted for; and it is reported exactly when nothing failed, the recording was
   exhausted and the counters add up.
   */
  lemma CompleteIsComplete(c: Config, s: State, contextDone: bool)
    requires ValidConfig(c) && Reachable(c, s) && Finished(s)
    requires s.stopped ==> contextDone
    ensures StatusOf(c, s, contextDone).StatusComplete? <==>
              !s.panicErr && !s.execErr && s.reader.result.Exhausted? && s.replayed + s.skipped == |c.ops|
    ensures |s.workers| == c.workers
    ensures StatusOf(c, s, contextDone).StatusComplete? ==>
              forall i :: 0 <= i < c.workers ==> s.workers[i].hashed == Share(c, |c.ops|, i + 1)
  {
    ReachableInv(c, s);
    var ws := s.workers;
    forall i | 0 <= i < |ws|
      ensures IsPrefix(ws[i].hashed, ws[i].handed)
      ensures ws[i].hashed == ws[i].handed || s.cancelled
      ensures ws[i].handed == Share(c, s.next, i + 1)
    {
      assert WorkerInv(c, s, i);
    }
    EqualSums(ws);
    if !s.panicErr && !s.execErr && s.reader.result.Exhausted? && !s.cancelled {
      SameSums(ws);
    }
  }

  lemma {:induction false} SameSums(ws: seq<Worker>)
    requires forall i :: 0 <= i < |ws| ==> ws[i].hashed == ws[i].handed
    ensures Sum(ws, HashedCount) == Sum(ws, HandedCount)
  {
    if ws != [] {
      assert forall i :: 0 <= i < |ws[1..]| ==> ws[1..][i] == ws[i + 1];
      SameSums(ws[1..]);
    }
  }

  // ------------------------------------------------------ which lines are left out

  /**
   The lines of a worker that a replay sends, by their places in the recording: in file
   order, and of a reads-only replay those that are not writes.
   */
  ghost predicate Picks(places: seq<nat>, c: Config, n: nat, w: nat)
  {
    && (forall i, j :: 0 <= i < j < |places| ==> places[i] < places[j])
    && (forall k: nat :: k in places <==>
          k < n && k < |c.ops| && c.ops[k].worker == w && !(c.readsOnly && c.ops[k].write))
  }

  ghost predicate AtPlaces(sent: seq<Op>, ops: seq<Op>, places: seq<nat>)
  {
    |sent| == |places| && forall j :: 0 <= j < |sent| ==> places[j] < |ops| && sent[j] == ops[places[j]]
  }

  lemma NextPick(places: seq<nat>, c: Config, n: nat, w: nat)
    requires n < |c.ops| && Picks(places, c, n, w)
    ensures Picks(places + if c.ops[n].worker == w && !(c.readsOnly && c.ops[n].write) then [n] else [], c, n + 1, w)
  {
    var all := places + if c.ops[n].worker == w && !(c.readsOnly && c.ops[n].write) then [n] else [];
    forall i, j | 0 <= i < j < |all|
      ensures all[i] < all[j]
    {
      assert places[i] in places;
    }
  }

  lemma {:induction false} SharePicks(c: Config, n: nat, w: nat) returns (places: seq<nat>)
    requires n <= |c.ops|
    ensures Picks(places, c, n, w) && AtPlaces(Share(c, n, w), c.ops, places)
  {
    places := [];
    if n > 0 {
      var before := SharePicks(c, n - 1, w);
      var own := if c.ops[n - 1].worker == w && !(c.readsOnly && c.ops[n - 1].write) then [n - 1] else [];
      NextPick(before, c, n - 1, w);
      places := before + own;
      ShareAtPlaces(c, n, w, before, own);
    }
  }

  lemma ShareAtPlaces(c: Config, n: nat, w: nat, before: seq<nat>, own: seq<nat>)
    requires 0 < n <= |c.ops| && AtPlaces(Share(c, n - 1, w), c.ops, before)
    requires own == if c.ops[n - 1].worker == w && !(c.readsOnly && c.ops[n - 1].write) then [n - 1] else []
    ensures AtPlaces(Share(c, n, w), c.ops, before + own)
  {
    assert Share(c, n, w) == Share(c, n - 1, w) + if own != [] then [c.ops[n - 1]] else [];
  }

  /** At no moment has a reads-only replay sent a write. */
  lemma ReadsOnlySendsNoWrite(c: Config, s: State, i: nat, j: nat)
    requires ValidConfig(c) && Reachable(c, s) && c.readsOnly && i < |s.workers| && j < |s.workers[i].hashed|
    ensures !s.workers[i].hashed[j].write
  {
    HashedIsPrefix(c, s, i);
    var places := SharePicks(c, |c.ops|, i + 1);
    assert s.workers[i].hashed[j] == Share(c, |c.ops|, i + 1)[j] == c.ops[places[j]];
    assert places[j] in places;
  }

  /**
   A complete replay sent, worker by worker and in file order, every recorded line that is
   not a write left out by reads-only, and nothing else.
   */
  lemma CompleteSends(c: Config, s: State, contextDone: bool, i: nat) returns (places: seq<nat>)
    requires ValidConfig(c) && Reachable(c, s) && Finished(s) && (s.stopped ==> contextDone)
    requires StatusOf(c, s, contextDone).StatusComplete? && i < |s.workers|
    ensures Picks(places, c, |c.ops|, i + 1) && AtPlaces(s.workers[i].hashed, c.ops, places)
  {
    CompleteIsComplete(c, s, contextDone);
    places := SharePicks(c, |c.ops|, i + 1);
  }

  /** The writes among the first n lines that a reads-only replay leaves out. */
  ghost function LeftOut(c: Config, n: nat): set<nat>
  {
    set k | 0 <= k < n && k < |c.ops| && c.readsOnly && c.ops[k].write
  }

  lemma LeftOutNext(c: Config, n: nat)
    requires n < |c.ops|
    ensures |LeftOut(c, n + 1)| == |LeftOut(c, n)| + if c.readsOnly && c.ops[n].write then 1 else 0
  {
    assert LeftOut(c, n + 1) == LeftOut(c, n) + if c.readsOnly && c.ops[n].write then {n} else {};
  }

  /** A step reads past no line, or past one that is skipped, or past one that is not left out. */
  ghost predicate ReadsPast(c: Config, s: State, t: State)
  {
    || (t.next == s.next && t.skipped == s.skipped)
    || (s.next < |c.ops| && t.next == s.next + 1
        && t.skipped == s.skipped + if c.readsOnly && c.ops[s.next].write then 1 else 0)
  }

  lemma StepReadsPast(c: Config, s: State, a: Action)
    requires ReaderInv(c, s) && Enabled(c, s, a)
    ensures ReadsPast(c, s, Apply(c, s, a))
  {
    match a
    case Hand => HandMoves(s);
    case Work(w, k) => WorkMoves(c, s, w, k);
    case _ =>
  }

  lemma StepLeavesOut(c: Config, s: State, a: Action)
    requires ValidConfig(c) && Inv(c, s) && Enabled(c, s, a) && s.skipped == |LeftOut(c, s.next)|
    ensures Apply(c, s, a).skipped == |LeftOut(c, Apply(c, s, a).next)|
  {
    StepReadsPast(c, s, a);
    if s.next < |c.ops| {
      LeftOutNext(c, s.next);
    }
  }

  lemma {:induction false} RunLeavesOut(c: Config, s: State, trace: seq<Action>)
    requires ValidConfig(c) && Inv(c, s) && Run(c, s, trace).Some? && s.skipped == |LeftOut(c, s.next)|
    ensures var t := Run(c, s, trace).value; t.skipped == |LeftOut(c, t.next)|
    decreases |trace|
  {
    if trace != [] {
      StepInv(c, s, trace[0]);
      StepLeavesOut(c, s, trace[0]);
      RunLeavesOut(c, Apply(c, s, trace[0]), trace[1..]);
    }
  }

  /** The skipped lines are counted exactly: the writes among the lines read, if only reads are replayed. */
  lemma SkippedExact(c: Config, s: State)
    requires ValidConfig(c) && Reachable(c, s)
    ensures s.skipped == |LeftOut(c, s.next)|
    ensures s.reader.Stopped? && s.reader.result.Exhausted? ==> s.next == |c.ops|
  {
    var trace :| Run(c, Init(c), trace) == Some(s);
    InitInv(c);
    RunLeavesOut(c, Init(c), trace);
    ReachableInv(c, s);
  }

  /** How many executions of a trace did not succeed. */
  function Failures(trace: seq<Action>): nat
  {
    if trace == [] then 0 else (if Fails(trace[0]) then 1 else 0) + Failures(trace[1..])
  }

  predicate Fails(a: Action) { a.Work? && (a.step == Sent(false) || a.step.SendFails?) }

  lemma SharedFails(s: State, k: WorkerStep)
    ensures StepShared(s, k).failed == s.failed + if k == Sent(false) || k.SendFails? then 1 else 0
  {
  }

  lemma OtherFails(c: Config, s: State, a: Action)
    requires Enabled(c, s, a) && !a.Work?
    ensures Apply(c, s, a).failed == s.failed
  {
  }

  lemma StepFails(c: Config, s: State, a: Action)
    requires Enabled(c, s, a)
    ensures Apply(c, s, a).failed == s.failed + if Fails(a) then 1 else 0
  {
    if a.Work? {
      SharedFails(s, a.step);
    } else {
      OtherFails(c, s, a);
    }
  }

  /** The reported failures are the executions that failed or were answered with an error. */
  lemma {:induction false} FailedExact(c: Config, s: State, trace: seq<Action>)
    requires Run(c, s, trace).Some?
    ensures Run(c, s, trace).value.failed == s.failed + Failures(trace)
    decreases |trace|
  {
    if trace != [] {
      StepFails(c, s, trace[0]);
      FailedExact(c, Apply(c, s, trace[0]), trace[1..]);
    }
  }

  // --------------------------------------------------------------- progress

  function PhaseWork(p: Phase): nat
  {
    match p
    case Exited => 0
    case Draining => 1
    case Reported => 2
    case Recovered => 3
    case Panicking(_) => 4
    case Idle => 4
    case Finishing(_) => 5
    case Failing(_) => 6
    case Executing(_) => 7
    case Waiting(_) => 8
    case Fetched(_) => 9
  }

  function WorkerWork(w: Worker): nat { 6 * |w.queue| + PhaseWork(w.phase) }

  function ReaderWork(r: Reader): nat
  {
    match r
    case Reading => 6
    case Barrier(_) => 5
    case Handing(_) => 4
    case Aborting(_) => 3
    case Stopped(_) => 0
  }

  /** A bound on the actions still to come outside the workers. */
  function Elsewhere(c: Config, s: State): nat
  {
    (if s.next <= |c.ops| then 10 * (|c.ops| - s.next) else 0) + ReaderWork(s.reader) + (if s.stopped then 0 else 1)
    + match s.monitor case Monitoring => 3 case MonitorPanicked => 2 case MonitorReported => 1 case MonitorOff => 0
  }

  /** A bound on the actions still to come. */
  function Remaining(c: Config, s: State): nat { Elsewhere(c, s) + Sum(s.workers, WorkerWork) }

  lemma ReadDecreases(c: Config, s: State)
    requires s.next <= |c.ops| && s.reader.Reading?
    ensures Remaining(c, ReadLine(c, s)) < Remaining(c, s)
  {
    ReadMoves(c, s);
    ReadComesNearer(c, s);
  }

  lemma ReadComesNearer(c: Config, s: State)
    requires s.next <= |c.ops| && s.reader.Reading?
    ensures Elsewhere(c, ReadLine(c, s)) < Elsewhere(c, s)
  {
  }

  lemma WorkStaysInside(c: Config, s: State, i: nat, k: WorkerStep)
    requires i < |s.workers| && WorkerEnabled(c, s, s.workers[i], k)
    ensures Elsewhere(c, Apply(c, s, Work(i, k))) == Elsewhere(c, s)
    ensures Apply(c, s, Work(i, k)).workers == s.workers[i := StepWorker(c, s, s.workers[i], k)]
  {
  }

  lemma WorkDecreases(c: Config, s: State, i: nat, k: WorkerStep)
    requires i < |s.workers| && WorkerEnabled(c, s, s.workers[i], k)
    ensures Remaining(c, Apply(c, s, Work(i, k))) < Remaining(c, s)
  {
    WorkStaysInside(c, s, i, k);
    WorkerDecreases(c, s, s.workers[i], k);
    SumUpdate(s.workers, i, StepWorker(c, s, s.workers[i], k), WorkerWork);
  }

  lemma HandComesNearer(c: Config, s: State)
    requires ReaderInv(c, s) && s.reader.Handing? && 1 <= s.reader.op.worker <= |s.workers|
    ensures Elsewhere(c, HandOver(s)) + 8 == Elsewhere(c, s)
  {
  }

  lemma HandDecreases(c: Config, s: State)
    requires ReaderInv(c, s) && Enabled(c, s, Hand)
    ensures Remaining(c, HandOver(s)) < Remaining(c, s)
  {
    var i := s.reader.op.worker - 1;
    HandMoves(s);
    HandComesNearer(c, s);
    SumUpdate(s.workers, i, HandOver(s).workers[i], WorkerWork);
  }

  lemma WorkerDecreases(c: Config, s: State, w: Worker, k: WorkerStep)
    requires WorkerEnabled(c, s, w, k)
    ensures WorkerWork(StepWorker(c, s, w, k)) < WorkerWork(w)
  {
  }

  /** Every action, whatever it is, brings the run closer to its end. */
  lemma StepDecreases(c: Config, s: State, a: Action)
    requires ReaderInv(c, s) && Enabled(c, s, a)
    ensures Remaining(c, Apply(c, s, a)) < Remaining(c, s)
  {
    match a
    case Work(w, k) => WorkDecreases(c, s, w, k);
    case Hand => HandDecreases(c, s);
    case Read => ReadDecreases(c, s);
    case _ =>
  }

  /** The actions of the dispatcher itself, as opposed to a stop from outside or a monitor panic. */
  predicate Own(a: Action) { !a.StopRun? && !a.MonitorStep? }

  function NextStep(c: Config, s: State, w: Worker): WorkerStep
  {
    match w.phase
    case Idle => if w.queue != [] then Take else Exit
    case Fetched(_) => if s.cancelled then SkipCancelled else Proceed
    case Waiting(_) => TimerFires
    case Executing(_) => Sent(true)
    case Failing(_) => CancelOnError
    case Finishing(_) => Done
    case Panicking(_) => Done
    case Recovered => Recover
    case Reported => CancelOnPanic
    case Draining => if w.queue != [] then Drain else Exit
    case Exited => Exit
  }

  /** The dispatcher is never stuck: until it has finished, one of its own actions can be taken. */
  lemma NeverStuck(c: Config, s: State) returns (a: Action)
    requires ValidConfig(c) && Inv(c, s) && !Finished(s)
    ensures Own(a) && Enabled(c, s, a)
  {
    match s.reader
    case Reading => a := Read;
    case Aborting(_) => a := AbortDone;
    case Barrier(_) =>
      if s.pending == 0 {
        a := PassBarrier;
      } else {
        var i := SumPositive(s.workers, Load);
        assert WorkerInv(c, s, i);
        a := Work(i, NextStep(c, s, s.workers[i]));
      }
    case Handing(op) =>
      var i := op.worker - 1;
      assert WorkerInv(c, s, i);
      if |s.workers[i].queue| < QUEUE_SIZE {
        a := Hand;
      } else {
        a := Work(i, NextStep(c, s, s.workers[i]));
      }
    case Stopped(_) =>
      var i :| 0 <= i < |s.workers| && !s.workers[i].phase.Exited?;
      a := Work(i, NextStep(c, s, s.workers[i]));
  }

  lemma {:induction false} RunBounded(c: Config, s: State, trace: seq<Action>)
    requires ValidConfig(c) && Inv(c, s) && Run(c, s, trace).Some?
    ensures |trace| + Remaining(c, Run(c, s, trace).value) <= Remaining(c, s)
    decreases |trace|
  {
    if trace != [] {
      StepInv(c, s, trace[0]);
      StepDecreases(c, s, trace[0]);
      RunBounded(c, Apply(c, s, trace[0]), trace[1..]);
    }
  }

  /**
   Every run ends: no trace is longer than the initial bound, and a trace that no own
   action extends has finished. So the reader is never blocked for good, not even after
   a cancel, an execution error or a panic.
   */
  lemma EveryRunFinishes(c: Config, trace: seq<Action>)
    requires ValidConfig(c) && Run(c, Init(c), trace).Some?
    ensures |trace| <= Remaining(c, Init(c))
    ensures (forall a :: Own(a) ==> !Enabled(c, Run(c, Init(c), trace).value, a)) ==>
        Finished(Run(c, Init(c), trace).value)
  {
    InitInv(c);
    RunInv(c, Init(c), trace);
    RunBounded(c, Init(c), trace);
    var s := Run(c, Init(c), trace).value;
    if !Finished(s) {
      var a := NeverStuck(c, s);
    }
  }
}
