/**
 What a replay sends (executeReplayOp in internal/mongo/workload_replay.go): every line of
 a recording is decoded, executed and encoded again, and what was sent is hashed per worker.
 This joins the dispatcher's runs to the command decoders.
 */
module ReplayCommands {
  import opened CommandCodec
  import opened ReplayDispatch
  import opened Sums
  import opened Text
  import opened Transactions
  import opened Wrappers

  datatype Path = FastInsertBatch | FastFindPath | StandardPath

  /** A recorded line, as far as its execution depends on it. */
  datatype Line = Line(path: Path, op: string, ns: string, cmd: CommandCodec.Fields)

  /** The database of the run and its configured collections. */
  datatype Target = Target(db: Database, cols: ReplayCollections)

  /** The command that is hashed for a line, as it is read back; an error fails the run. */
  function SentOf(t: Target, line: Line): Result<Fields>
  {
    match line.path
    case FastInsertBatch => Ok(StoredFields(line.cmd))
    case FastFindPath =>
      (match FastFindOf(line.cmd)
       case Err => Err
       case Ok(f) => Ok(StoredFields(FastFindRecord(Lookup(t.cols, line.ns).name, f.key, f.ids, f.limit))))
    case StandardPath =>
      if line.op == "transaction" then
        match TxOpsOf(line.cmd, t.cols)
        case Err => Err
        case Ok(ops) => Ok(StoredFields(TransactionCommand(t.db, ops)))
      else
        match DecodeStandard(line.op, line.cmd)
        case Err => Err
        case Ok(req) => Ok(StoredFields(StandardCommand(req)))
  }

  /** The replay of the line sends the command that was recorded. */
  predicate Reproduced(t: Target, line: Line) { SentOf(t, line) == Ok(line.cmd) }

  // ------------------------------------------------------------- single lines

  /** An operation of the recorded run. */
  datatype Entry =
    | BatchEntry(batchCol: Col, command: Fields)
    | FindEntry(findCol: Col, key: string, ids: seq<Int64>, batchSize: Int64)
    | TransactionEntry(ns: string, ops: seq<TxOp>)
    | StandardEntry(col: Col, request: Request)

  /** The line that is written for an operation, as it is read back. */
  function LineOf(t: Target, e: Entry): Line
  {
    match e
    case BatchEntry(col, command) =>
      Line(FastInsertBatch, "insertMany", CollectionNamespace(t.db, col), StoredFields(command))
    case FindEntry(col, key, ids, batchSize) =>
      Line(FastFindPath, "find", CollectionNamespace(t.db, col),
        StoredFields(FastFindRecord(col.name, key, ids, batchSize)))
    case TransactionEntry(ns, ops) => Line(StandardPath, "transaction", ns, StoredFields(TransactionCommand(t.db, ops)))
    case StandardEntry(col, request) =>
      Line(StandardPath, request.op, CollectionNamespace(t.db, col), StoredFields(StandardCommand(request)))
  }

  /** The recorded lines of numbered operations. */
  function LinesOf(t: Target, entries: nat -> Entry): nat -> Line { (n: nat) => LineOf(t, entries(n)) }

  /** What an operation needs to be sent again as it was recorded. */
  ghost predicate Survives(t: Target, e: Entry)
  {
    match e
    case BatchEntry(_, _) => true
    case FindEntry(col, _, _, _) => Lookup(t.cols, CollectionNamespace(t.db, col)).name == col.name
    case TransactionEntry(_, ops) => AllWellFormed(t.db, t.cols, ops)
    case StandardEntry(_, request) => WellFormed(request)
  }

  lemma FindNameStored(name: string, key: string, ids: seq<Int64>, batchSize: Int64)
    ensures DocValue(StoredFields(FastFindRecord(name, key, ids, batchSize)), "find") == Str(name)
  {
    var filter := FastFilter(key, ids);
    ShortAccess("find", Str(name), "filter", Some(filter), "limit", Some(GoInt(batchSize)));
    ShortAccess("find", Str(name), "filter", Some(Stored(filter)), "limit", Some(Stored(GoInt(batchSize))));
  }

  /** A recorded line is sent again as recorded exactly when its operation survives recording. */
  lemma LineReproduced(t: Target, e: Entry)
    ensures Reproduced(t, LineOf(t, e)) <==> Survives(t, e)
  {
    match e
    case BatchEntry(_, command) => StoredFieldsTwice(command);
    case FindEntry(col, key, ids, batchSize) =>
      var found := Lookup(t.cols, CollectionNamespace(t.db, col)).name;
      FastFindRoundTrip(col.name, key, ids, batchSize);
      FindNameStored(col.name, key, ids, batchSize);
      FindNameStored(found, key, ids, batchSize);
    case TransactionEntry(_, ops) => TransactionRoundTrip(t.db, t.cols, ops);
    case StandardEntry(_, request) =>
      RoundTripExact(request);
      if request.op == "transaction" {
        assert StandardCommand(request) == [];
      }
  }

  // ------------------------------------------------------------------ streams

  /** The commands sent for operations; lines gives the recorded line of a command number. */
  function SentCommands(t: Target, lines: nat -> Line, ops: seq<Op>): (r: seq<Result<Fields>>)
    ensures |r| == |ops| && forall i :: 0 <= i < |r| ==> r[i] == SentOf(t, lines(ops[i].command))
  {
    seq(|ops|, i requires 0 <= i < |ops| => SentOf(t, lines(ops[i].command)))
  }

  function RecordedCommands(lines: nat -> Line, ops: seq<Op>): (r: seq<Result<Fields>>)
    ensures |r| == |ops| && forall i :: 0 <= i < |r| ==> r[i] == Ok(lines(ops[i].command).cmd)
  {
    seq(|ops|, i requires 0 <= i < |ops| => Ok(lines(ops[i].command).cmd))
  }

  ghost predicate AllReproduced(t: Target, lines: nat -> Line, ops: seq<Op>) {
    forall op :: op in ops ==> Reproduced(t, lines(op.command))
  }

  lemma SameCommands(t: Target, lines: nat -> Line, ops: seq<Op>)
    ensures SentCommands(t, lines, ops) == RecordedCommands(lines, ops) <==> AllReproduced(t, lines, ops)
  {
    var sent, recorded := SentCommands(t, lines, ops), RecordedCommands(lines, ops);
    if sent == recorded {
      forall op | op in ops
        ensures Reproduced(t, lines(op.command))
      {
        var i :| 0 <= i < |ops| && ops[i] == op;
        assert sent[i] == recorded[i];
      }
    }
    if AllReproduced(t, lines, ops) {
      assert forall i :: 0 <= i < |ops| ==> ops[i] in ops && sent[i] == recorded[i];
    }
  }

  /** Everything the recording holds for a worker, also what a replay of reads skips. */
  function RecordedFor(c: Config, w: nat): seq<Op> { Share(c.(readsOnly := false), |c.ops|, w) }

  /** What a worker number sent; nothing was sent for numbers above the last worker. */
  function HashedFor(s: State, w: nat): seq<Op> { if 1 <= w <= |s.workers| then s.workers[w - 1].hashed else [] }

  /** The hash of a replay is that of the recording: every worker number has the same commands. */
  ghost predicate HashesMatch(c: Config, s: State, t: Target, lines: nat -> Line) {
    forall w: nat :: w >= 1 ==> SentCommands(t, lines, HashedFor(s, w)) == RecordedCommands(lines, RecordedFor(c, w))
  }

  lemma {:induction false} InShare(c: Config, n: nat, w: nat, op: Op)
    requires n <= |c.ops|
    ensures op in Share(c, n, w) <==> op in c.ops[..n] && op.worker == w && !Skipped(c, op)
  {
    if n > 0 {
      InShare(c, n - 1, w, op);
      assert c.ops[..n] == c.ops[..n - 1] + [c.ops[n - 1]];
    }
  }

  // -------------------------------------------------------- counting the lines

  /** How many of the first n lines go to the first k workers. */
  function Dealt(c: Config, n: nat, k: nat): nat
    requires n <= |c.ops|
  {
    if k == 0 then 0 else Dealt(c, n, k - 1) + |Share(c, n, k)|
  }

  function Goes(c: Config, op: Op, k: nat): nat { if 1 <= op.worker <= k && !Skipped(c, op) then 1 else 0 }

  lemma {:induction false} DealtNext(c: Config, n: nat, k: nat)
    requires n < |c.ops|
    ensures Dealt(c, n + 1, k) == Dealt(c, n, k) + Goes(c, c.ops[n], k)
  {
    if k > 0 {
      DealtNext(c, n, k - 1);
    }
  }

  predicate AllGo(c: Config, n: nat, k: nat)
    requires n <= |c.ops|
  {
    n == 0 || (AllGo(c, n - 1, k) && Goes(c, c.ops[n - 1], k) == 1)
  }

  lemma {:induction false} EachGoes(c: Config, n: nat, k: nat, i: nat)
    requires i < n <= |c.ops| && AllGo(c, n, k)
    ensures 1 <= c.ops[i].worker <= k && !Skipped(c, c.ops[i])
  {
    if i < n - 1 {
      EachGoes(c, n - 1, k, i);
    }
  }

  /** The same number, counted line by line. */
  function Gone(c: Config, n: nat, k: nat): nat
    requires n <= |c.ops|
  {
    if n == 0 then 0 else Gone(c, n - 1, k) + Goes(c, c.ops[n - 1], k)
  }

  lemma {:induction false} DealtIsGone(c: Config, n: nat, k: nat)
    requires n <= |c.ops|
    ensures Dealt(c, n, k) == Gone(c, n, k)
  {
    if n == 0 {
      NoneDealt(c, k);
    } else {
      DealtIsGone(c, n - 1, k);
      DealtNext(c, n - 1, k);
    }
  }

  lemma {:induction false} AllGone(c: Config, n: nat, k: nat)
    requires n <= |c.ops|
    ensures Gone(c, n, k) <= n
    ensures Gone(c, n, k) == n ==> AllGo(c, n, k)
  {
    if n > 0 {
      AllGone(c, n - 1, k);
    }
  }

  lemma {:induction false} NoneDealt(c: Config, k: nat)
    ensures Dealt(c, 0, k) == 0
  {
    if k > 0 {
      NoneDealt(c, k - 1);
    }
  }

  lemma {:induction false} HashedIsDealt(c: Config, ws: seq<Worker>)
    requires forall i :: 0 <= i < |ws| ==> ws[i].hashed == Share(c, |c.ops|, i + 1)
    ensures Sum(ws, HashedCount) == Dealt(c, |c.ops|, |ws|)
  {
    if ws != [] {
      var n := |ws| - 1;
      HashedIsDealt(c, ws[..n]);
      assert ws == ws[..n] + [ws[n]];
      SumAppend(ws[..n], ws[n], HashedCount);
    }
  }

  lemma {:induction false} NothingSkipped(c: Config, n: nat, w: nat)
    requires n <= |c.ops| && forall i :: 0 <= i < n ==> !Skipped(c, c.ops[i])
    ensures Share(c, n, w) == Share(c.(readsOnly := false), n, w)
  {
    if n > 0 {
      NothingSkipped(c, n - 1, w);
    }
  }

  // ----------------------------------------------------------- main results

  /** A complete replay that skipped nothing sent every line of the recording. */
  lemma CompleteSentAll(c: Config, s: State, contextDone: bool)
    requires ValidConfig(c) && Reachable(c, s) && Finished(s) && (s.stopped ==> contextDone)
    requires StatusOf(c, s, contextDone).StatusComplete? && s.skipped == 0
    ensures |s.workers| == c.workers
    ensures forall i :: 0 <= i < |c.ops| ==> 1 <= c.ops[i].worker <= c.workers && !Skipped(c, c.ops[i])
    ensures forall i :: 0 <= i < c.workers ==> s.workers[i].hashed == Share(c, |c.ops|, i + 1)
  {
    CompleteIsComplete(c, s, contextDone);
    ReachableInv(c, s);
    HashedIsDealt(c, s.workers);
    DealtIsGone(c, |c.ops|, c.workers);
    AllGone(c, |c.ops|, c.workers);
    forall i | 0 <= i < |c.ops|
      ensures 1 <= c.ops[i].worker <= c.workers && !Skipped(c, c.ops[i])
    {
      EachGoes(c, |c.ops|, c.workers, i);
    }
  }

  lemma CompleteSentRecorded(c: Config, s: State, contextDone: bool, w: nat)
    requires ValidConfig(c) && Reachable(c, s) && Finished(s) && (s.stopped ==> contextDone)
    requires StatusOf(c, s, contextDone).StatusComplete? && s.skipped == 0 && w >= 1
    ensures HashedFor(s, w) == RecordedFor(c, w)
  {
    CompleteSentAll(c, s, contextDone);
    NothingSkipped(c, |c.ops|, w);
    if w > c.workers && RecordedFor(c, w) != [] {
      InShare(c, |c.ops|, w, Share(c, |c.ops|, w)[0]);
    }
  }

  /** Every line belongs to the commands of its worker. */
  lemma EveryLineRecorded(c: Config, i: nat)
    requires i < |c.ops|
    ensures c.ops[i] in RecordedFor(c, c.ops[i].worker)
  {
    var all := c.(readsOnly := false);
    assert c.ops[i] in c.ops[..|c.ops|];
    InShare(all, |all.ops|, c.ops[i].worker, c.ops[i]);
  }

  lemma RecordedIsLine(c: Config, w: nat, op: Op)
    requires op in RecordedFor(c, w)
    ensures op in c.ops
  {
    var all := c.(readsOnly := false);
    InShare(all, |all.ops|, w, op);
  }

  ghost predicate WorkersReproduced(c: Config, t: Target, lines: nat -> Line) {
    forall w: nat :: w >= 1 ==> AllReproduced(t, lines, RecordedFor(c, w))
  }

  ghost predicate AllSurvive(c: Config, t: Target, entries: nat -> Entry) {
    forall i :: 0 <= i < |c.ops| ==> Survives(t, entries(c.ops[i].command))
  }

  lemma WorkersReproduce(c: Config, t: Target, entries: nat -> Entry)
    requires ValidConfig(c) && AllSurvive(c, t, entries)
    ensures WorkersReproduced(c, t, LinesOf(t, entries))
  {
    forall w: nat, op | w >= 1 && op in RecordedFor(c, w)
      ensures Reproduced(t, LinesOf(t, entries)(op.command))
    {
      RecordedIsLine(c, w, op);
      var i :| 0 <= i < |c.ops| && c.ops[i] == op;
      LineReproduced(t, entries(op.command));
    }
  }

  lemma LinesSurvive(c: Config, t: Target, entries: nat -> Entry)
    requires ValidConfig(c) && WorkersReproduced(c, t, LinesOf(t, entries))
    ensures AllSurvive(c, t, entries)
  {
    forall i | 0 <= i < |c.ops|
      ensures Survives(t, entries(c.ops[i].command))
    {
      EveryLineRecorded(c, i);
      assert AllReproduced(t, LinesOf(t, entries), RecordedFor(c, c.ops[i].worker));
      LineReproduced(t, entries(c.ops[i].command));
    }
  }

  lemma MatchMeansReproduced(c: Config, s: State, contextDone: bool, t: Target, lines: nat -> Line)
    requires ValidConfig(c) && Reachable(c, s) && Finished(s) && (s.stopped ==> contextDone)
    requires StatusOf(c, s, contextDone).StatusComplete? && s.skipped == 0
    ensures HashesMatch(c, s, t, lines) <==> WorkersReproduced(c, t, lines)
  {
    forall w: nat | w >= 1
      ensures SentCommands(t, lines, HashedFor(s, w)) == RecordedCommands(lines, RecordedFor(c, w)) <==>
              AllReproduced(t, lines, RecordedFor(c, w))
    {
      CompleteSentRecorded(c, s, contextDone, w);
      SameCommands(t, lines, RecordedFor(c, w));
    }
  }

  /**
   A complete replay that skipped nothing reports the hash of the recording exactly when
   every recorded operation survives recording: every fast find's namespace leads back to a
   collection of its name, and every request and transaction operation is well formed.
   */
  lemma HashMatchExact(c: Config, s: State, contextDone: bool, t: Target, entries: nat -> Entry)
    requires ValidConfig(c) && Reachable(c, s) && Finished(s) && (s.stopped ==> contextDone)
    requires StatusOf(c, s, contextDone).StatusComplete? && s.skipped == 0
    ensures HashesMatch(c, s, t, LinesOf(t, entries)) <==> AllSurvive(c, t, entries)
  {
    MatchMeansReproduced(c, s, contextDone, t, LinesOf(t, entries));
    if AllSurvive(c, t, entries) {
      WorkersReproduce(c, t, entries);
    } else if WorkersReproduced(c, t, LinesOf(t, entries)) {
      LinesSurvive(c, t, entries);
    }
  }

  /** At any moment of any run, what was sent for a worker is how the recording of its non-skipped commands begins. */
  lemma SentIsPrefix(c: Config, s: State, i: nat, t: Target, entries: nat -> Entry)
    requires ValidConfig(c) && Reachable(c, s) && i < |s.workers|
    requires AllSurvive(c, t, entries)
    ensures var lines := LinesOf(t, entries);
            var recorded := Share(c, |c.ops|, i + 1);
            var n := |s.workers[i].hashed|;
            n <= |recorded| && SentCommands(t, lines, s.workers[i].hashed) == RecordedCommands(lines, recorded)[..n]
  {
    var lines := LinesOf(t, entries);
    var hashed, recorded := s.workers[i].hashed, Share(c, |c.ops|, i + 1);
    HashedIsPrefix(c, s, i);
    forall op | op in hashed
      ensures Reproduced(t, lines(op.command))
    {
      assert op in recorded;
      InShare(c, |c.ops|, i + 1, op);
      var k :| 0 <= k < |c.ops| && c.ops[k] == op;
      LineReproduced(t, entries(op.command));
    }
    SameCommands(t, lines, hashed);
  }

  // -------------------------------------------------- namespaces of fast finds

  /** A database name, or the one used for a missing one, is without a dot. */
  predicate Dotless(db: Database, col: Col) { !HasDot(NameFor(db, col.database)) }

  lemma NameOfNamespace(db: Database, col: Col)
    requires Dotless(db, col)
    ensures Cut(CollectionNamespace(db, col)).1 == col.name
  {
    CutJoined(NameFor(db, col.database), col.name);
  }

  /** When no database name has a dot, every fast find is sent to a collection of the recorded name. */
  lemma DotlessFindSurvives(db: Database, cols: seq<Col>, col: Col, key: string, ids: seq<Int64>, batchSize: Int64)
    requires Dotless(db, col) && forall i :: 0 <= i < |cols| ==> Dotless(db, cols[i])
    ensures Survives(Target(db, NewReplayCollections(db, cols)), FindEntry(col, key, ids, batchSize))
  {
    var configured, ns := NewReplayCollections(db, cols), CollectionNamespace(db, col);
    NameOfNamespace(db, col);
    if ns in configured {
      ConfiguredNamespace(db, cols, ns);
      ConfiguredMember(db, cols, ns);
      NameOfNamespace(db, configured[ns]);
    }
  }

  lemma {:induction false} ConfiguredMember(db: Database, cols: seq<Col>, ns: string)
    requires ns in NewReplayCollections(db, cols)
    ensures NewReplayCollections(db, cols)[ns] in cols
  {
    var last := cols[|cols| - 1];
    if ns != CollectionNamespace(db, last) {
      ConfiguredMember(db, cols[..|cols| - 1], ns);
    }
  }

  lemma SameNamespaceTwice(db: Database)
    ensures CollectionNamespace(db, Col("a", "b.c")) == "a.b.c" == CollectionNamespace(db, Col("a.b", "c"))
  {
    assert TrimSpace("a") == "a" && TrimSpace("a.b") == "a.b";
  }

  /**
   Databases "a" and "a.b" can give one namespace to collections "b.c" and "c", and the
   fast find goes to the later one.
   */
  lemma DottedFindIsMoved(db: Database)
    ensures var cols := NewReplayCollections(db, [Col("a", "b.c"), Col("a.b", "c")]);
            !Survives(Target(db, cols), FindEntry(Col("a", "b.c"), "key", [1], 1))
  {
    SameNamespaceTwice(db);
    assert NewReplayCollections(db, [Col("a", "b.c"), Col("a.b", "c")])["a.b.c"] == Col("a.b", "c");
  }
}
