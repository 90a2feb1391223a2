/**
 Which recorded lines a reads-only replay takes for writes (isReplayWrite in
 internal/mongo/workload_targets.go), and that nothing it sends changes data.
 */
module ReadsOnly {
  import opened CommandCodec
  import opened ReplayCommands
  import opened ReplayDispatch
  import opened Transactions
  import opened Wrappers

  predicate WritingStage(v: Value) { v.Doc? && (HasKey(v.fields, "$out") || HasKey(v.fields, "$merge")) }

  predicate SomeStageWrites(pipeline: Value) { pipeline.Arr? && exists st :: st in pipeline.items && WritingStage(st) }

  /** An operation in a transaction's list that is not a find, as far as it can be read. */
  predicate NotFind(v: Value) { StringOf(DocValue(FieldsOf(v), "op")) != "find" }

  predicate SomeOpWrites(ops: Value) { ops.Arr? && exists x :: x in ops.items && NotFind(x) }

  /**
   A line is taken for a write. mentions says whether the text of the command has "$out" or
   "$merge" in quotes; the command is Err when its text cannot be decoded.
   */
  predicate TakenForWrite(path: Path, op: string, mentions: bool, cmd: Result<Fields>)
  {
    path == FastInsertBatch
    || match op
       case "find" => false
       case "aggregate" => mentions && (cmd.Err? || SomeStageWrites(DocValue(cmd.value, "pipeline")))
       case "transaction" => cmd.Err? || SomeOpWrites(DocValue(cmd.value, "ops"))
       case _ => true
  }

  method SomeWriting(items: seq<Value>) returns (found: bool)
    ensures found <==> exists st :: st in items && WritingStage(st)
  {
    for i := 0 to |items|
      invariant forall j :: 0 <= j < i ==> !WritingStage(items[j])
    {
      if items[i].Doc? && (HasKey(items[i].fields, "$out") || HasKey(items[i].fields, "$merge")) {
        assert items[i] in items;
        return true;
      }
    }
    return false;
  }

  method SomeNotFind(items: seq<Value>) returns (found: bool)
    ensures found <==> exists x :: x in items && NotFind(x)
  {
    for i := 0 to |items|
      invariant forall j :: 0 <= j < i ==> !NotFind(items[j])
    {
      if StringOf(DocValue(FieldsOf(items[i]), "op")) != "find" {
        assert items[i] in items;
        return true;
      }
    }
    return false;
  }

  method IsReplayWrite(path: Path, op: string, mentions: bool, cmd: Result<Fields>) returns (write: bool)
    ensures write <==> TakenForWrite(path, op, mentions, cmd)
  {
    if path == FastInsertBatch {
      return true;
    }
    match op
    case "find" => return false;
    case "aggregate" =>
      if !mentions {
        return false;
      }
      if cmd.Err? {
        return true;
      }
      var pipeline := DocValue(cmd.value, "pipeline");
      write := SomeWriting(if pipeline.Arr? then pipeline.items else []);
    case "transaction" =>
      if cmd.Err? {
        return true;
      }
      var ops := DocValue(cmd.value, "ops");
      write := SomeNotFind(if ops.Arr? then ops.items else []);
    case _ => return true;
  }

  // ------------------------------------------------------------- what changes data

  /** A request that changes data: anything but a find or an aggregate without a writing stage. */
  predicate Changes(r: Request)
  {
    r.op != "find" && (r.op == "aggregate" ==> SomeStageWrites(r.pipeline))
  }

  /** What the replay of a line executes changes data; a line that cannot be read executes nothing. */
  predicate LineChanges(t: Target, line: Line)
  {
    match line.path
    case FastInsertBatch => true
    case FastFindPath => false
    case StandardPath =>
      if line.op == "transaction" then
        var ops := TxOpsOf(line.cmd, t.cols);
        ops.Ok? && exists x :: x in ops.value && x.op != "find"
      else DecodeStandard(line.op, line.cmd).Ok? && Changes(DecodeStandard(line.op, line.cmd).value)
  }

  /** The text of a command mentions the keys of its stages. */
  ghost predicate TextTells(line: Line, mentions: bool) { SomeStageWrites(DocValue(line.cmd, "pipeline")) ==> mentions }

  predicate LineIsWrite(line: Line, mentions: bool) { TakenForWrite(line.path, line.op, mentions, Ok(line.cmd)) }

  lemma DecodedOp(v: Value, cols: ReplayCollections)
    requires DecodeTxOp(v, cols).Ok?
    ensures DecodeTxOp(v, cols).value.op == StringOf(DocValue(FieldsOf(v), "op"))
  {
  }

  lemma CollectedOps(items: seq<Value>, cols: ReplayCollections, ops: seq<TxOp>)
    requires Collect(DecodeEach(items, cols)) == Ok(ops)
    ensures |ops| == |items|
    ensures forall i :: 0 <= i < |ops| ==> ops[i].op == StringOf(DocValue(FieldsOf(items[i]), "op"))
  {
    var rs := DecodeEach(items, cols);
    CollectAll(rs);
    forall i | 0 <= i < |ops|
      ensures ops[i].op == StringOf(DocValue(FieldsOf(items[i]), "op"))
    {
      assert rs[i] == DecodeTxOp(items[i], cols) == Ok(ops[i]);
      DecodedOp(items[i], cols);
    }
  }

  lemma TransactionWrites(line: Line, t: Target)
    requires TxOpsOf(line.cmd, t.cols).Ok?
    ensures SomeOpWrites(DocValue(line.cmd, "ops"))
        <==> exists x :: x in TxOpsOf(line.cmd, t.cols).value && x.op != "find"
  {
    var items, ops := DocValue(line.cmd, "ops").items, TxOpsOf(line.cmd, t.cols).value;
    CollectedOps(items, t.cols, ops);
    if x :| x in items && NotFind(x) {
      var i :| 0 <= i < |items| && items[i] == x;
      assert ops[i] in ops;
    }
    if x :| x in ops && x.op != "find" {
      var i :| 0 <= i < |ops| && ops[i] == x;
      assert items[i] in items && NotFind(items[i]);
    }
  }

  /** A line that is not taken for a write changes nothing. */
  lemma ReadsChangeNothing(t: Target, line: Line, mentions: bool)
    requires TextTells(line, mentions) && !LineIsWrite(line, mentions)
    ensures !LineChanges(t, line)
  {
    if line.path == StandardPath && line.op == "transaction" && TxOpsOf(line.cmd, t.cols).Ok? {
      TransactionWrites(line, t);
    }
  }

  /** Of standard lines that can be read, exactly those that change data are taken for writes. */
  lemma WritesExact(t: Target, line: Line, mentions: bool)
    requires TextTells(line, mentions) && line.path == StandardPath
    requires if line.op == "transaction" then TxOpsOf(line.cmd, t.cols).Ok? else DecodeStandard(line.op, line.cmd).Ok?
    ensures LineIsWrite(line, mentions) <==> LineChanges(t, line)
  {
    if line.op == "transaction" {
      TransactionWrites(line, t);
    }
  }

  /** The lines of the recording are marked as the replay takes them. */
  ghost predicate Marked(c: Config, lines: nat -> Line, mentions: nat -> bool)
  {
    forall i :: 0 <= i < |c.ops| ==>
      var op := c.ops[i];
      op.write == LineIsWrite(lines(op.command), mentions(op.command))
      && TextTells(lines(op.command), mentions(op.command))
  }

  /** At no moment has a reads-only replay executed anything that changes data. */
  lemma ReadsOnlyChangesNothing(c: Config, s: State, t: Target, lines: nat -> Line, mentions: nat -> bool, i: nat,
        j: nat)
    requires ValidConfig(c) && Reachable(c, s) && c.readsOnly && Marked(c, lines, mentions)
    requires i < |s.workers| && j < |s.workers[i].hashed|
    ensures !LineChanges(t, lines(s.workers[i].hashed[j].command))
  {
    ReadsOnlySendsNoWrite(c, s, i, j);
    HashedIsPrefix(c, s, i);
    var places := SharePicks(c, |c.ops|, i + 1);
    var op := s.workers[i].hashed[j];
    assert op == Share(c, |c.ops|, i + 1)[j] == c.ops[places[j]] && places[j] in places;
    ReadsChangeNothing(t, lines(op.command), mentions(op.command));
  }
}
