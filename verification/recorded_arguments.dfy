/**
 What a recorded command holds: for every type of operation, reading it back gives the
 request's own arguments (standardCommand and txArgs in internal/mongo/workload_exec.go,
 decodeStandard and decodeTxArgs in workload_replay.go, and imports in traffic_import.go).
 */
module RecordedArguments {
  import opened Wrappers
  import opened CommandCodec
  import opened Transactions

  // -------------------------------------------------------- what storing changes

  /** Without Go's own types anywhere inside. */
  predicate Plain(v: Value)
  {
    match v
    case NilMap => false
    case GoInt(_) => false
    case Doc(fields) => forall i :: 0 <= i < |fields| ==> Plain(fields[i].value)
    case Arr(items) => forall i :: 0 <= i < |items| ==> Plain(items[i])
    case _ => true
  }

  lemma {:induction false} StoredPlain(v: Value)
    requires Plain(v)
    ensures Stored(v) == v
  {
    match v
    case Doc(fields) =>
      forall i | 0 <= i < |fields|
        ensures Stored(fields[i].value) == fields[i].value
      {
        StoredPlain(fields[i].value);
      }
      assert StoredFields(fields) == fields;
    case Arr(items) =>
      forall i | 0 <= i < |items|
        ensures Stored(items[i]) == items[i]
      {
        StoredPlain(items[i]);
      }
      assert StoredItems(items) == items;
    case _ =>
  }

  lemma {:induction false} StoredIsPlain(v: Value)
    ensures Plain(Stored(v))
  {
    match v
    case Doc(fields) =>
      forall i | 0 <= i < |fields|
        ensures Plain(StoredFields(fields)[i].value)
      {
        StoredIsPlain(fields[i].value);
      }
    case Arr(items) =>
      forall i | 0 <= i < |items|
        ensures Plain(StoredItems(items)[i])
      {
        StoredIsPlain(items[i]);
      }
    case _ =>
  }

  /** Only a plain int and a typed nil map are read back differently. */
  lemma StoredExact(v: Value)
    ensures Stored(v) == v <==> Plain(v)
  {
    StoredIsPlain(v);
    if Plain(v) {
      StoredPlain(v);
    }
  }

  /** A plain int keeps its number, and a typed nil map becomes null. */
  lemma StoredOwnTypes(n: Int64)
    ensures !Stored(GoInt(n)).GoInt? && IntValue(Stored(GoInt(n))) == Some(n) && Stored(NilMap) == Nil
  {
  }

  // ----------------------------------------------------------- standard operations

  /** A filter is read back as it was, and an empty document for none. */
  function FilterRead(v: Value): Value { if v == Nil || v == NilMap then Doc([]) else Stored(v) }

  function ProjectionRead(v: Value): Value { if v == Nil || v == NilMap then NilMap else Stored(v) }

  /** What every request should be read back as: its own arguments and nothing else. */
  function Expected(r: Request): Result<Request>
  {
    match r.op
    case "find" =>
      Ok(Blank(r.op).(filter := FilterRead(r.filter), projection := ProjectionRead(r.projection), limit := r.limit,
                      batch := r.batch, skip := if r.skip > 0 then r.skip else 0, sort := Stored(r.sort),
                      hint := Stored(r.hint)))
    case "aggregate" =>
      if r.pipeline == Nil then Ok(Blank(r.op).(pipeline := Arr([]), hint := Stored(r.hint)))
      else if r.pipeline.Arr? then Ok(Blank(r.op).(pipeline := Stored(r.pipeline), hint := Stored(r.hint)))
      else Err
    case "updateOne" =>
      Ok(Blank(r.op).(filter := FilterRead(r.filter), update := Stored(r.update), upsert := r.upsert))
    case "updateMany" =>
      Ok(Blank(r.op).(filter := FilterRead(r.filter), update := Stored(r.update), upsert := r.upsert))
    case "deleteOne" => Ok(Blank(r.op).(filter := FilterRead(r.filter)))
    case "deleteMany" => Ok(Blank(r.op).(filter := FilterRead(r.filter)))
    case "insert" => if r.doc == Nil || r.doc == NilMap then Err else Ok(Blank(r.op).(doc := Stored(r.doc)))
    case "insertMany" =>
      if r.docs.None? then Err else Ok(Blank(r.op).(docs := Some(StoredItems(r.docs.value))))
    case _ => Err
  }

  lemma FindExpected(r: Request)
    requires r.op == "find"
    ensures DecodeStandard(r.op, StoredFields(StandardCommand(r))) == Expected(r)
  {
    FindDecoded(r);
    StoredNil(r.sort);
    StoredNil(r.hint);
  }

  lemma AggregateExpected(r: Request)
    requires r.op == "aggregate"
    ensures DecodeStandard(r.op, StoredFields(StandardCommand(r))) == Expected(r)
  {
    var p, h := if r.pipeline.Nil? then Arr([]) else r.pipeline, Unless(r.hint.Nil?, r.hint);
    ShortAccess("pipeline", p, "hint", h, "", None);
    ShortAccess("pipeline", Stored(p), "hint", StoredPart(h), "", None);
    assert StoredItems([]) == [];
  }

  lemma FilterReadExact(v: Value)
    ensures Stored(EmptyDocIfNil(v)) == FilterRead(v)
  {
    assert StoredFields([]) == [];
  }

  /** Filter, update and upsert as they are read back from an update's command. */
  lemma UpdateParts(filter: Value, update: Value, upsert: bool)
    ensures var cmd := StoredFields(
              Part("filter", Some(EmptyDocIfNil(filter)),
                Part("update", Some(update), Part("upsert", Some(Bool(upsert)), []))));
            && DocValue(cmd, "filter") == FilterRead(filter) && DocValue(cmd, "update") == Stored(update)
            && DocValue(cmd, "upsert") == Bool(upsert)
  {
    var f, u, b := EmptyDocIfNil(filter), update, Bool(upsert);
    FilterReadExact(filter);
    ShortAccess("filter", f, "update", Some(u), "upsert", Some(b));
    ShortAccess("filter", Stored(f), "update", Some(Stored(u)), "upsert", Some(b));
  }

  lemma UpdateExpected(r: Request)
    requires r.op == "updateOne" || r.op == "updateMany"
    ensures DecodeStandard(r.op, StoredFields(StandardCommand(r))) == Expected(r)
  {
    UpdateParts(r.filter, r.update, r.upsert);
    assert StandardCommand(r) == UpdateCommand(r);
    assert DecodeStandard(r.op, StoredFields(UpdateCommand(r)))
      == Ok(DecodeUpdate(r.op, StoredFields(UpdateCommand(r))));
  }

  lemma OneExpected(r: Request)
    requires r.op in {"deleteOne", "deleteMany", "insert", "insertMany"}
    ensures DecodeStandard(r.op, StoredFields(StandardCommand(r))) == Expected(r)
  {
    var key := if r.op == "insert" then "document" else if r.op == "insertMany" then "documents" else "filter";
    var v := if r.op == "insert" then r.doc else if r.op == "insertMany" then DocsValueOf(r.docs)
      else EmptyDocIfNil(r.filter);
    assert StoredFields([]) == [];
    PartStored(key, Some(v), []);
    PartAccess(key, Some(Stored(v)), [], key);
    StoredNil(v);
  }

  /** Whatever the operation, decoding the stored command gives back the request's own arguments, or fails. */
  lemma DecodedArguments(r: Request)
    ensures DecodeStandard(r.op, StoredFields(StandardCommand(r))) == Expected(r)
  {
    if r.op == "find" {
      FindExpected(r);
    } else if r.op == "aggregate" {
      AggregateExpected(r);
    } else if r.op == "updateOne" || r.op == "updateMany" {
      UpdateExpected(r);
    } else if r.op in KNOWN_OPS {
      OneExpected(r);
    }
  }

  // ------------------------------------------------------------------ transactions

  function ExpectedTx(t: TxOp, col: Col): Result<TxOp>
  {
    var blank := TxOp(t.op, col, Nil, Nil, false, Nil, None);
    match t.op
    case "find" => Ok(blank.(filter := FilterRead(t.filter)))
    case "deleteOne" => Ok(blank.(filter := FilterRead(t.filter)))
    case "deleteMany" => Ok(blank.(filter := FilterRead(t.filter)))
    case "updateOne" => Ok(blank.(filter := FilterRead(t.filter), update := Stored(t.update), upsert := t.upsert))
    case "updateMany" => Ok(blank.(filter := FilterRead(t.filter), update := Stored(t.update), upsert := t.upsert))
    case "insert" => Ok(blank.(doc := Stored(t.doc)))
    case "insertMany" => if t.docs.None? then Err else Ok(blank.(docs := Some(StoredItems(t.docs.value))))
    case _ => Err
  }

  lemma OneRead(key: string, v: Value)
    ensures StoredFields(One(key, v)) == One(key, Stored(v)) && DocValue(One(key, Stored(v)), key) == Stored(v)
  {
    PartStored(key, Some(v), []);
    PartAccess(key, Some(Stored(v)), [], key);
  }

  /** The same for the arguments of an operation inside a transaction. */
  lemma DecodedTxArguments(t: TxOp, col: Col)
    ensures DecodeTxArgs(t.op, col, StoredFields(TxArgs(t))) == ExpectedTx(t, col)
  {
    if t.op in UPDATE_OPS {
      UpdateParts(t.filter, t.update, t.upsert);
    } else if t.op in FILTER_OPS {
      FilterReadExact(t.filter);
      OneRead("filter", EmptyDocIfNil(t.filter));
    } else if t.op == "insert" {
      OneRead("document", t.doc);
    } else if t.op == "insertMany" {
      OneRead("documents", DocsValueOf(t.docs));
    }
  }

  ghost predicate AllExpected(cols: ReplayCollections, db: Database, ops: seq<TxOp>, back: seq<TxOp>)
  {
    |back| == |ops|
    && forall i :: 0 <= i < |ops| ==>
         ExpectedTx(ops[i], Lookup(cols, CollectionNamespace(db, ops[i].col))) == Ok(back[i])
  }

  lemma DecodedTxOp(db: Database, cols: ReplayCollections, t: TxOp)
    ensures DecodeTxOp(Stored(TxInnerCommand(db, t)), cols)
        == ExpectedTx(t, Lookup(cols, CollectionNamespace(db, t.col)))
  {
    OpDecoded(db, cols, t);
    DecodedTxArguments(t, Lookup(cols, CollectionNamespace(db, t.col)));
  }

  lemma AnyCollection(t: TxOp, c: Col, d: Col)
    ensures ExpectedTx(t, c).Ok? <==> ExpectedTx(t, d).Ok?
  {
  }

  /** A recorded transaction is read back operation by operation, each with its own arguments. */
  lemma DecodedTransaction(db: Database, cols: ReplayCollections, ops: seq<TxOp>)
    ensures var r := TxOpsOf(StoredFields(TransactionCommand(db, ops)), cols);
            && (r.Ok? ==> AllExpected(cols, db, ops, r.value))
            && (r.Ok? <==> forall i :: 0 <= i < |ops| ==> ExpectedTx(ops[i], ops[i].col).Ok?)
  {
    var items := StoredItems(InnerCommands(db, ops));
    TxStored(db, ops);
    var rs := DecodeEach(items, cols);
    CollectAll(rs);
    forall i | 0 <= i < |ops|
      ensures rs[i] == ExpectedTx(ops[i], Lookup(cols, CollectionNamespace(db, ops[i].col)))
      ensures rs[i].Ok? <==> ExpectedTx(ops[i], ops[i].col).Ok?
    {
      assert rs[i] == DecodeTxOp(Stored(TxInnerCommand(db, ops[i])), cols);
      DecodedTxOp(db, cols, ops[i]);
      AnyCollection(ops[i], ops[i].col, Lookup(cols, CollectionNamespace(db, ops[i].col)));
    }
  }

  // ----------------------------------------------------------------------- imports

  const FILTERED: set<string> := {"find", "updateOne", "updateMany", "deleteOne", "deleteMany"}

  /** The limit is equal, and the batch size modulo 2^32. */
  ghost predicate LimitsKept(args: Fields, cmd: Fields)
  {
    && IntValue(DocValue(args, "limit")).Some? && DocValue(cmd, "limit") == I64(IntValue(DocValue(args, "limit")).value)
    && IntValue(DocValue(args, "batchSize")).Some? && DocValue(cmd, "batchSize").I32?
    && (DocValue(cmd, "batchSize").i32 as int - IntValue(DocValue(args, "batchSize")).value as int) % 0x1_0000_0000 == 0
  }

  /** The skip is equal, and not recorded when it is zero. */
  ghost predicate SkipKept(args: Fields, cmd: Fields)
  {
    if HasKey(args, "skip") && IntValue(DocValue(args, "skip")) != Some(0)
    then IntValue(DocValue(args, "skip")).Some? && DocValue(cmd, "skip") == I64(IntValue(DocValue(args, "skip")).value)
    else !HasKey(cmd, "skip")
  }

  /** Each argument the operation has is recorded under its key. */
  ghost predicate ArgumentsKept(op: string, args: Fields, cmd: Fields)
  {
    && (op in FILTERED ==>
          DocValue(cmd, "filter") == if DocValue(args, "filter") == Nil then Doc([]) else DocValue(args, "filter"))
    && (op in {"updateOne", "updateMany"} ==>
          DocValue(cmd, "update") == DocValue(args, "update")
          && DocValue(cmd, "upsert") == Bool(DocValue(args, "upsert") == Bool(true)))
    && (op == "find" ==>
          LimitsKept(args, cmd) && SkipKept(args, cmd) && DocValue(cmd, "projection") == DocValue(args, "projection")
          && DocValue(cmd, "sort") == DocValue(args, "sort"))
    && (op in {"find", "aggregate"} ==> DocValue(cmd, "hint") == DocValue(args, "hint"))
    && (op == "aggregate" ==> DocValue(cmd, "pipeline") == DocValue(args, "pipeline"))
    && (op == "insert" ==> DocValue(cmd, "document") == DocValue(args, "document"))
    && (op == "insertMany" ==> DocValue(cmd, "documents") == DocValue(args, "documents"))
  }

  lemma {:induction false} ReadAlready(args: Fields, key: string)
    requires ReadBack(args)
    ensures Stored(DocValue(args, key)) == DocValue(args, key)
  {
    if args != [] {
      assert StoredFields(args)[0] == args[0];
      assert StoredFields(args[1..]) == args[1..] by {
        assert forall i :: 0 <= i < |args| - 1 ==> args[1..][i] == args[i + 1] == StoredFields(args)[i + 1];
      }
      ReadAlready(args[1..], key);
    }
  }

  lemma WrappedInt32(n: Int64)
    ensures (ToInt32(n) as int - n as int) % 0x1_0000_0000 == 0
  {
    var x := n as int + 0x8000_0000;
    assert x == x / 0x1_0000_0000 * 0x1_0000_0000 + x % 0x1_0000_0000;
  }

  lemma {:induction false} NoKey(d: Fields, key: string)
    requires !HasKey(d, key)
    ensures DocValue(d, key) == Nil
  {
    if d != [] {
      NoKey(d[1..], key);
    }
  }

  /** The numbers that are written for a decoded find. */
  lemma FindNumbers(args: Fields)
    requires DecodeFind(args).Ok?
    ensures SkipOf(args).Some? && IntValue(DocValue(args, "limit")).Some? && IntValue(DocValue(args, "batchSize")).Some?
    ensures var a, n := StoredArgs(FindArgsOf(DecodeFind(args).value)), SkipOf(args).value;
            && a.limit == I64(IntValue(DocValue(args, "limit")).value)
            && a.batch == I32(ToInt32(IntValue(DocValue(args, "batchSize")).value))
            && a.skip == if n > 0 then Some(I64(n)) else None
  {
  }

  lemma LimitsAt(args: Fields, a: FindArgs)
    requires IntValue(DocValue(args, "limit")).Some? && IntValue(DocValue(args, "batchSize")).Some?
    requires a.limit == I64(IntValue(DocValue(args, "limit")).value)
    requires a.batch == I32(ToInt32(IntValue(DocValue(args, "batchSize")).value))
    ensures LimitsKept(args, FindWith(a))
  {
    FindAt(a, "limit");
    FindAt(a, "batchSize");
    WrappedInt32(IntValue(DocValue(args, "batchSize")).value);
  }

  lemma SkipAt(args: Fields, a: FindArgs)
    requires SkipOf(args).Some? && a.skip == if SkipOf(args).value > 0 then Some(I64(SkipOf(args).value)) else None
    ensures SkipKept(args, FindWith(a))
  {
    FindAt(a, "skip");
  }

  lemma FindLimitsKept(args: Fields)
    requires DecodeFind(args).Ok?
    ensures LimitsKept(args, FindWith(StoredArgs(FindArgsOf(DecodeFind(args).value))))
  {
    FindNumbers(args);
    LimitsAt(args, StoredArgs(FindArgsOf(DecodeFind(args).value)));
  }

  lemma FindSkipKept(args: Fields)
    requires DecodeFind(args).Ok?
    ensures SkipKept(args, FindWith(StoredArgs(FindArgsOf(DecodeFind(args).value))))
  {
    FindNumbers(args);
    SkipAt(args, StoredArgs(FindArgsOf(DecodeFind(args).value)));
  }

  lemma FindValuesKept(args: Fields)
    requires ReadBack(args) && DecodeFind(args).Ok?
    ensures var cmd := FindWith(StoredArgs(FindArgsOf(DecodeFind(args).value)));
            && DocValue(cmd, "filter")
              == (if DocValue(args, "filter") == Nil then Doc([]) else DocValue(args, "filter"))
            && DocValue(cmd, "projection") == DocValue(args, "projection")
            && DocValue(cmd, "sort") == DocValue(args, "sort") && DocValue(cmd, "hint") == DocValue(args, "hint")
  {
    var r := DecodeFind(args).value;
    var a := StoredArgs(FindArgsOf(r));
    FindAt(a, "filter");
    FindAt(a, "projection");
    FindAt(a, "sort");
    FindAt(a, "hint");
    FilterReadExact(r.filter);
    ReadAlready(args, "filter");
    ReadAlready(args, "projection");
    ReadAlready(args, "sort");
    ReadAlready(args, "hint");
    ReadValue(args, "filter");
    ReadValue(args, "projection");
    if !HasKey(args, "projection") {
      NoKey(args, "projection");
    }
  }

  /** The recorded command of a find with these arguments. */
  lemma FindKept(args: Fields)
    requires ReadBack(args) && DecodeFind(args).Ok?
    ensures ArgumentsKept("find", args, StoredFields(StandardCommand(DecodeFind(args).value)))
  {
    var r := DecodeFind(args).value;
    FindStored(FindArgsOf(r));
    assert StandardCommand(r) == FindWith(FindArgsOf(r));
    FindLimitsKept(args);
    FindSkipKept(args);
    FindValuesKept(args);
  }

  lemma UpdateKept(op: string, args: Fields)
    requires op in {"updateOne", "updateMany"} && ReadBack(args)
    ensures ArgumentsKept(op, args, StoredFields(StandardCommand(DecodeUpdate(op, args))))
  {
    UpdateParts(DocValue(args, "filter"), DocValue(args, "update"), UpsertOf(args));
    ReadAlready(args, "filter");
    ReadAlready(args, "update");
    ReadValue(args, "filter");
  }

  lemma AggregateKept(args: Fields)
    requires ReadBack(args) && DocValue(args, "pipeline").Arr?
    ensures ArgumentsKept("aggregate", args,
                          StoredFields(StandardCommand(DecodeStandard("aggregate", args).value)))
  {
    var p, h := DocValue(args, "pipeline"), Unless(DocValue(args, "hint").Nil?, DocValue(args, "hint"));
    ShortAccess("pipeline", p, "hint", h, "", None);
    ShortAccess("pipeline", Stored(p), "hint", StoredPart(h), "", None);
    ReadAlready(args, "pipeline");
    ReadAlready(args, "hint");
  }

  lemma OneKept(op: string, args: Fields)
    requires op in {"deleteOne", "deleteMany", "insert", "insertMany"} && ReadBack(args) && DecodeStandard(op, args).Ok?
    ensures ArgumentsKept(op, args, StoredFields(StandardCommand(DecodeStandard(op, args).value)))
  {
    var key := if op == "insert" then "document" else if op == "insertMany" then "documents" else "filter";
    ReadAlready(args, key);
    ReadValue(args, key);
    FilterReadExact(DocValue(args, key));
    OneRead(key, DocValue(args, key));
    OneRead(key, EmptyDocIfNil(DocValue(args, key)));
  }

  /** An import records every argument of the operation under its key, with the value it was given. */
  lemma ImportKeepsArguments(op: string, args: Fields)
    requires ReadBack(args) && ImportedOperation(op, args).Ok?
    ensures ArgumentsKept(op, args, StoredFields(ImportedOperation(op, args).value))
  {
    if op == "find" {
      FindKept(args);
    } else if op == "aggregate" {
      AggregateKept(args);
    } else if op == "updateOne" || op == "updateMany" {
      UpdateKept(op, args);
    } else if op in KNOWN_OPS {
      OneKept(op, args);
    }
  }
}
