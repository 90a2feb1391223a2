/**
 Namespaces of recorded operations and the recorded form of a transaction
 (internal/mongo/workload_exec.go, workload_replay.go and recordpool.go).
 */
module Transactions {
  import opened Wrappers
  import opened Text
  import opened CommandCodec

  datatype Col = Col(database: string, name: string)

  /** The name of the run's database; None without a database handle. */
  type Database = Option<string>

  function FallbackName(db: Database): string
  {
    if db.Some? && db.value != "" then db.value else "unknown"
  }

  function CollectionNamespace(db: Database, col: Col): string
  {
    var name := TrimSpace(col.database);
    (if name == "" then FallbackName(db) else name) + "." + col.name
  }

  type ReplayCollections = map<string, Col>

  /** The configured collections by namespace; a later one replaces an earlier one. */
  function NewReplayCollections(db: Database, cols: seq<Col>): ReplayCollections
  {
    if cols == [] then map[]
    else
      var last := cols[|cols| - 1];
      NewReplayCollections(db, cols[..|cols| - 1])[CollectionNamespace(db, last) := last]
  }

  function Lookup(c: ReplayCollections, ns: string): Col
  {
    if ns in c then c[ns] else Col(Cut(ns).0, Cut(ns).1)
  }

  lemma {:induction false} ConfiguredNamespace(db: Database, cols: seq<Col>, ns: string)
    requires ns in NewReplayCollections(db, cols)
    ensures CollectionNamespace(db, NewReplayCollections(db, cols)[ns]) == ns
  {
    var last := cols[|cols| - 1];
    if ns != CollectionNamespace(db, last) {
      ConfiguredNamespace(db, cols[..|cols| - 1], ns);
    }
  }

  /** The collection of a namespace has this namespace again. */
  predicate Stable(db: Database, c: ReplayCollections, ns: string) { CollectionNamespace(db, Lookup(c, ns)) == ns }

  lemma SameSuffix(a: string, b: string, rest: string)
    ensures a + rest == b + rest <==> a == b
  {
    if a + rest == b + rest {
      assert |a| == |b|;
      assert (a + rest)[..|a|] == a && (b + rest)[..|b|] == b;
    }
  }

  lemma JoinWithDot(name: string, part: string, rest: string)
    ensures name + "." + rest == part + "." + rest <==> name == part
  {
    assert name + "." + rest == name + ("." + rest) && part + "." + rest == part + ("." + rest);
    SameSuffix(name, part, "." + rest);
  }

  /** The database part of the namespace an unconfigured collection gets. */
  function NameFor(db: Database, part: string): string
  {
    if TrimSpace(part) == "" then FallbackName(db) else TrimSpace(part)
  }

  lemma UnconfiguredNamespace(db: Database, ns: string)
    ensures CollectionNamespace(db, Col(Cut(ns).0, Cut(ns).1)) == ns
        <==> HasDot(ns) && NameFor(db, Cut(ns).0) == Cut(ns).0
  {
    var part, rest := Cut(ns).0, Cut(ns).1;
    var name := NameFor(db, part);
    assert CollectionNamespace(db, Col(part, rest)) == name + "." + rest;
    JoinWithDot(name, part, rest);
  }

  /**
   lookup and collectionNamespace are inverse on a namespace exactly when it is configured,
   or it has a database part that is neither blank nor surrounded by spaces (or is, when
   blank, the very name used for a missing one).
   */
  lemma LookupExact(db: Database, cols: seq<Col>, ns: string)
    ensures Stable(db, NewReplayCollections(db, cols), ns) <==>
              || ns in NewReplayCollections(db, cols)
              || (HasDot(ns) && NameFor(db, Cut(ns).0) == Cut(ns).0)
  {
    if ns in NewReplayCollections(db, cols) {
      ConfiguredNamespace(db, cols, ns);
    } else {
      UnconfiguredNamespace(db, ns);
    }
  }

  /** A namespace without a database part, as imported traffic may name it, comes back with the run's database. */
  lemma NamelessIsMoved(db: Database, name: string)
    ensures !Stable(db, NewReplayCollections(db, []), "." + name)
  {
    var ns := "." + name;
    assert Cut(ns).0 == "" && FallbackName(db) != "";
    LookupExact(db, [], ns);
  }

  /** A recorded namespace of a configured collection is always stable. */
  lemma {:induction false} ConfiguredIsStable(db: Database, cols: seq<Col>, i: nat)
    requires i < |cols|
    ensures CollectionNamespace(db, cols[i]) in NewReplayCollections(db, cols)
    ensures Stable(db, NewReplayCollections(db, cols), CollectionNamespace(db, cols[i]))
  {
    if i < |cols| - 1 {
      ConfiguredIsStable(db, cols[..|cols| - 1], i);
    }
    LookupExact(db, cols, CollectionNamespace(db, cols[i]));
  }

  // ---------------------------------------------------------------- transactions

  datatype TxOp = TxOp(op: string, col: Col, filter: Value, update: Value, upsert: bool, doc: Value,
        docs: Option<seq<Value>>)

  const FILTER_OPS: set<string> := {"find", "deleteOne", "deleteMany"}
  const UPDATE_OPS: set<string> := {"updateOne", "updateMany"}

  function TxArgs(t: TxOp): Fields
  {
    if t.op in FILTER_OPS then One("filter", EmptyDocIfNil(t.filter))
    else if t.op in UPDATE_OPS then
      Part("filter", Some(EmptyDocIfNil(t.filter)),
        Part("update", Some(t.update), Part("upsert", Some(Bool(t.upsert)), [])))
    else if t.op == "insert" then One("document", t.doc)
    else if t.op == "insertMany" then One("documents", DocsValueOf(t.docs))
    else []
  }

  function TxInnerFields(op: string, ns: string, args: Value): Fields
  {
    Part("op", Some(Str(op)), Part("ns", Some(Str(ns)), Part("args", Some(args), [])))
  }

  function TxInnerCommand(db: Database, t: TxOp): Value
  {
    Doc(TxInnerFields(t.op, CollectionNamespace(db, t.col), Doc(TxArgs(t))))
  }

  function TransactionCommand(db: Database, ops: seq<TxOp>): Fields { One("ops", Arr(InnerCommands(db, ops))) }

  function InnerCommands(db: Database, ops: seq<TxOp>): (r: seq<Value>)
    ensures |r| == |ops| && forall i :: 0 <= i < |r| ==> r[i] == TxInnerCommand(db, ops[i])
  {
    seq(|ops|, i requires 0 <= i < |ops| => TxInnerCommand(db, ops[i]))
  }

  function StringOf(v: Value): string { if v.Str? then v.s else "" }

  function FieldsOf(v: Value): Fields { if v.Doc? then v.fields else [] }

  function DecodeTxArgs(op: string, col: Col, args: Fields): Result<TxOp>
  {
    var t := TxOp(op, col, Nil, Nil, false, Nil, None);
    if op in FILTER_OPS then Ok(t.(filter := DocValue(args, "filter")))
    else if op in UPDATE_OPS then
      Ok(t.(filter := DocValue(args, "filter"), update := DocValue(args, "update"), upsert := UpsertOf(args)))
    else if op == "insert" then Ok(t.(doc := DocValue(args, "document")))
    else if op == "insertMany" && DocValue(args, "documents").Arr?
      then Ok(t.(docs := Some(DocValue(args, "documents").items)))
    else Err
  }

  function DecodeTxOp(v: Value, cols: ReplayCollections): Result<TxOp>
  {
    if !v.Doc? then Err
    else
      var ns := StringOf(DocValue(v.fields, "ns"));
      DecodeTxArgs(StringOf(DocValue(v.fields, "op")), Lookup(cols, ns), FieldsOf(DocValue(v.fields, "args")))
  }

  /** All results, or the error of one. */
  function Collect<T>(rs: seq<Result<T>>): Result<seq<T>>
  {
    if rs == [] then Ok([])
    else
      var before, last := Collect(rs[..|rs| - 1]), rs[|rs| - 1];
      if before.Ok? && last.Ok? then Ok(before.value + [last.value]) else Err
  }

  function DecodeEach(items: seq<Value>, cols: ReplayCollections): (r: seq<Result<TxOp>>)
    ensures |r| == |items| && forall i :: 0 <= i < |r| ==> r[i] == DecodeTxOp(items[i], cols)
  {
    seq(|items|, i requires 0 <= i < |items| => DecodeTxOp(items[i], cols))
  }

  function TxOpsOf(cmd: Fields, cols: ReplayCollections): Result<seq<TxOp>>
  {
    if DocValue(cmd, "ops").Arr? then Collect(DecodeEach(DocValue(cmd, "ops").items, cols)) else Err
  }

  lemma {:induction false} CollectFails<T>(rs: seq<Result<T>>, n: nat)
    requires n < |rs| && rs[n].Err?
    ensures Collect(rs).Err?
  {
    if n < |rs| - 1 {
      CollectFails(rs[..|rs| - 1], n);
    }
  }

  method DecodeTxOps(cmd: Fields, cols: ReplayCollections) returns (r: Result<seq<TxOp>>)
    ensures r == TxOpsOf(cmd, cols)
  {
    var arr := DocValue(cmd, "ops");
    if !arr.Arr? {
      return Err;
    }
    var out: seq<TxOp> := [];
    ghost var rs := DecodeEach(arr.items, cols);
    for i := 0 to |arr.items|
      invariant Collect(rs[..i]) == Ok(out)
    {
      assert rs[..i + 1][..i] == rs[..i];
      match DecodeTxOp(arr.items[i], cols)
      case Err =>
        CollectFails(rs, i);
        return Err;
      case Ok(t) => out := out + [t];
    }
    assert rs[..|arr.items|] == rs;
    return Ok(out);
  }

  // ----------------------------------------------------------------- round trips

  predicate KnownTxOp(t: TxOp)
  {
    t.op in FILTER_OPS || t.op in UPDATE_OPS || t.op == "insert" || (t.op == "insertMany" && t.docs.Some?)
  }

  predicate ArgsSurvive(t: TxOp, col: Col)
  {
    var args := StoredFields(TxArgs(t));
    && (DecodeTxArgs(t.op, col, args).Ok? <==> KnownTxOp(t))
    && (KnownTxOp(t) ==>
          var back := DecodeTxArgs(t.op, col, args).value;
          back.op == t.op && back.col == col && StoredFields(TxArgs(back)) == args)
  }

  lemma UpdateArgsRoundTrip(t: TxOp, col: Col)
    requires t.op in UPDATE_OPS
    ensures ArgsSurvive(t, col)
  {
    var f, u, b := EmptyDocIfNil(t.filter), t.update, Bool(t.upsert);
    ShortAccess("filter", f, "update", Some(u), "upsert", Some(b));
    ShortAccess("filter", Stored(f), "update", Some(Stored(u)), "upsert", Some(b));
    StoredTwice(f);
    StoredTwice(u);
    StoredNil(f);
  }

  /** The arguments survive recording exactly when the operation is known. */
  lemma ArgsRoundTrip(t: TxOp, col: Col)
    ensures ArgsSurvive(t, col)
  {
    if t.op in UPDATE_OPS {
      UpdateArgsRoundTrip(t, col);
    } else {
      var key := if t.op == "insert" then "document" else if t.op == "insertMany" then "documents" else "filter";
      var v := if t.op == "insert" then t.doc else if t.op == "insertMany" then DocsValueOf(t.docs)
        else EmptyDocIfNil(t.filter);
      PartStored(key, Some(v), []);
      PartStored(key, Some(Stored(v)), []);
      PartAccess(key, Some(Stored(v)), [], key);
      StoredTwice(v);
      StoredNil(v);
    }
  }

  lemma InnerAccess(op: string, ns: string, args: Value)
    ensures var d := TxInnerFields(op, ns, args);
            && DocValue(d, "op") == Str(op) && DocValue(d, "ns") == Str(ns) && DocValue(d, "args") == args
    ensures StoredFields(TxInnerFields(op, ns, args)) == TxInnerFields(op, ns, Stored(args))
  {
    ShortAccess("op", Str(op), "ns", Some(Str(ns)), "args", Some(args));
  }

  lemma InnerInjective(op: string, ns: string, args: Value, op2: string, ns2: string, args2: Value)
    ensures TxInnerFields(op, ns, args) == TxInnerFields(op2, ns2, args2) <==> op == op2 && ns == ns2 && args == args2
  {
    InnerAccess(op, ns, args);
    InnerAccess(op2, ns2, args2);
  }

  predicate OpRoundTrips(db: Database, cols: ReplayCollections, t: TxOp)
  {
    var v := Stored(TxInnerCommand(db, t));
    DecodeTxOp(v, cols).Ok? && Stored(TxInnerCommand(db, DecodeTxOp(v, cols).value)) == v
  }

  predicate TxWellFormed(db: Database, cols: ReplayCollections, t: TxOp)
  {
    KnownTxOp(t) && Stable(db, cols, CollectionNamespace(db, t.col))
  }

  lemma OpDecoded(db: Database, cols: ReplayCollections, t: TxOp)
    ensures DecodeTxOp(Stored(TxInnerCommand(db, t)), cols)
         == DecodeTxArgs(t.op, Lookup(cols, CollectionNamespace(db, t.col)), StoredFields(TxArgs(t)))
    ensures Stored(TxInnerCommand(db, t))
        == Doc(TxInnerFields(t.op, CollectionNamespace(db, t.col), Doc(StoredFields(TxArgs(t)))))
  {
    InnerAccess(t.op, CollectionNamespace(db, t.col), Doc(TxArgs(t)));
    InnerAccess(t.op, CollectionNamespace(db, t.col), Doc(StoredFields(TxArgs(t))));
  }

  lemma OpRoundTripExact(db: Database, cols: ReplayCollections, t: TxOp)
    ensures OpRoundTrips(db, cols, t) <==> TxWellFormed(db, cols, t)
  {
    var ns := CollectionNamespace(db, t.col);
    OpDecoded(db, cols, t);
    ArgsRoundTrip(t, Lookup(cols, ns));
    if KnownTxOp(t) {
      var back := DecodeTxArgs(t.op, Lookup(cols, ns), StoredFields(TxArgs(t))).value;
      OpDecoded(db, cols, back);
      InnerInjective(t.op, ns, Doc(StoredFields(TxArgs(t))), back.op, CollectionNamespace(db, back.col),
        Doc(StoredFields(TxArgs(back))));
    }
  }

  lemma {:induction false} CollectAll<T>(rs: seq<Result<T>>)
    ensures Collect(rs).Ok? <==> forall i :: 0 <= i < |rs| ==> rs[i].Ok?
    ensures Collect(rs).Ok? ==>
              |Collect(rs).value| == |rs| && forall i :: 0 <= i < |rs| ==> rs[i] == Ok(Collect(rs).value[i])
  {
    if rs != [] {
      CollectAll(rs[..|rs| - 1]);
      assert forall i :: 0 <= i < |rs| - 1 ==> rs[..|rs| - 1][i] == rs[i];
    }
  }

  predicate TxRoundTrips(db: Database, cols: ReplayCollections, ops: seq<TxOp>)
  {
    var cmd := StoredFields(TransactionCommand(db, ops));
    TxOpsOf(cmd, cols).Ok? && StoredFields(TransactionCommand(db, TxOpsOf(cmd, cols).value)) == cmd
  }

  lemma TxStored(db: Database, ops: seq<TxOp>)
    ensures var cmd := StoredFields(TransactionCommand(db, ops));
            cmd == One("ops", Arr(StoredItems(InnerCommands(db, ops))))
              && DocValue(cmd, "ops") == Arr(StoredItems(InnerCommands(db, ops)))
  {
    PartStored("ops", Some(Arr(InnerCommands(db, ops))), []);
    PartAccess("ops", Some(Arr(StoredItems(InnerCommands(db, ops)))), [], "ops");
  }

  ghost predicate AllWellFormed(db: Database, cols: ReplayCollections, ops: seq<TxOp>) {
    forall i :: 0 <= i < |ops| ==> TxWellFormed(db, cols, ops[i])
  }

  ghost predicate AllRoundTrip(db: Database, cols: ReplayCollections, ops: seq<TxOp>) {
    forall i :: 0 <= i < |ops| ==> OpRoundTrips(db, cols, ops[i])
  }

  lemma OpsRoundTrip(db: Database, cols: ReplayCollections, ops: seq<TxOp>)
    ensures TxRoundTrips(db, cols, ops) <==> AllRoundTrip(db, cols, ops)
  {
    var items := StoredItems(InnerCommands(db, ops));
    var rs := DecodeEach(items, cols);
    TxStored(db, ops);
    CollectAll(rs);
    assert forall i :: 0 <= i < |ops| ==>
      items[i] == Stored(TxInnerCommand(db, ops[i])) && rs[i] == DecodeTxOp(items[i], cols);
    if Collect(rs).Ok? {
      SameItems(db, cols, ops, Collect(rs).value);
    } else {
      var i :| 0 <= i < |rs| && !rs[i].Ok?;
      assert !OpRoundTrips(db, cols, ops[i]);
    }
  }

  /**
   A recorded transaction is decoded and recorded the same way again exactly when each of
   its operations is known and its namespace leads back to itself.
   */
  lemma TransactionRoundTrip(db: Database, cols: ReplayCollections, ops: seq<TxOp>)
    ensures TxRoundTrips(db, cols, ops) <==> AllWellFormed(db, cols, ops)
  {
    OpsRoundTrip(db, cols, ops);
    forall i | 0 <= i < |ops|
      ensures OpRoundTrips(db, cols, ops[i]) <==> TxWellFormed(db, cols, ops[i])
    {
      OpRoundTripExact(db, cols, ops[i]);
    }
  }

  lemma SameItems(db: Database, cols: ReplayCollections, ops: seq<TxOp>, back: seq<TxOp>)
    requires |back| == |ops|
    ensures StoredFields(TransactionCommand(db, back)) == StoredFields(TransactionCommand(db, ops)) <==>
            forall i :: 0 <= i < |ops| ==> Stored(TxInnerCommand(db, back[i])) == Stored(TxInnerCommand(db, ops[i]))
  {
    TxStored(db, ops);
    TxStored(db, back);
    var a, b := StoredItems(InnerCommands(db, ops)), StoredItems(InnerCommands(db, back));
    assert a == b <==> forall i :: 0 <= i < |ops| ==> b[i] == a[i];
  }
}
