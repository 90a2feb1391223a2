/**
 The recorded form of an operation and its inverse: the printers of
 internal/mongo/workload_exec.go and the decoders of internal/mongo/workload_replay.go.
 */
module CommandCodec {
  import opened Wrappers

  newtype Int64 = n: int | -0x8000_0000_0000_0000 <= n < 0x8000_0000_0000_0000
  newtype Int32 = n: int | -0x8000_0000 <= n < 0x8000_0000

  /**
   A command value. GoInt is a plain int and NilMap a typed nil map; both exist only before
   a command is written. Opaque stands for every other BSON type.
   */
  datatype Value =
    | Nil | NilMap | Str(s: string) | Bool(b: bool) | GoInt(i: Int64) | I32(i32: Int32) | I64(i64: Int64)
      | Float(r: real)
    | Doc(fields: Fields) | Arr(items: seq<Value>) | Opaque(id: int)

  datatype Elem = Elem(key: string, value: Value)

  type Fields = seq<Elem>

  // ------------------------------------------------ writing and reading a command

  /** What reading back a written value gives: the pair is faithful except for Go's own types. */
  function Stored(v: Value): Value
  {
    match v
    case NilMap => Nil
    case GoInt(i) => if -0x8000_0000 <= i < 0x8000_0000 then I32(i as Int32) else I64(i)
    case Doc(fields) => Doc(StoredFields(fields))
    case Arr(items) => Arr(StoredItems(items))
    case _ => v
  }

  function StoredFields(fields: Fields): (r: Fields)
    ensures |r| == |fields| && forall i :: 0 <= i < |r| ==> r[i] == Elem(fields[i].key, Stored(fields[i].value))
  {
    seq(|fields|, i requires 0 <= i < |fields| => Elem(fields[i].key, Stored(fields[i].value)))
  }

  function StoredItems(items: seq<Value>): (r: seq<Value>)
    ensures |r| == |items| && forall i :: 0 <= i < |r| ==> r[i] == Stored(items[i])
  {
    seq(|items|, i requires 0 <= i < |items| => Stored(items[i]))
  }

  /** Reading back what was read back changes nothing. */
  lemma {:induction false} StoredTwice(v: Value)
    ensures Stored(Stored(v)) == Stored(v)
  {
    match v
    case Doc(fields) =>
      forall i | 0 <= i < |fields|
        ensures Stored(Stored(fields[i].value)) == Stored(fields[i].value)
      {
        StoredTwice(fields[i].value);
      }
      assert StoredFields(StoredFields(fields)) == StoredFields(fields);
    case Arr(items) =>
      forall i | 0 <= i < |items|
        ensures Stored(Stored(items[i])) == Stored(items[i])
      {
        StoredTwice(items[i]);
      }
      assert StoredItems(StoredItems(items)) == StoredItems(items);
    case _ =>
  }

  // ------------------------------------------------------------------- accessors

  /** The value of the first field with this key, or nil. */
  function DocValue(d: Fields, key: string): Value
  {
    if d == [] then Nil else if d[0].key == key then d[0].value else DocValue(d[1..], key)
  }

  predicate HasKey(d: Fields, key: string) { d != [] && (d[0].key == key || HasKey(d[1..], key)) }

  function IntValue(v: Value): Option<Int64>
  {
    match v
    case I32(n) => Some(n as Int64)
    case I64(n) => Some(n)
    case GoInt(n) => Some(n)
    case Float(r) =>
      if r.Floor as real == r && -0x8000_0000_0000_0000 <= r.Floor < 0x8000_0000_0000_0000 then Some(r.Floor as Int64)
        else None
    case _ => None
  }

  /** int32(n): the low 32 bits. */
  function ToInt32(n: Int64): Int32
  {
    (((n as int) + 0x8000_0000) % 0x1_0000_0000 - 0x8000_0000) as Int32
  }

  predicate IsNilDoc(v: Value) { v.Nil? || v.NilMap? }

  function EmptyDocIfNil(v: Value): Value { if IsNilDoc(v) then Doc([]) else v }

  // ---------------------------------------------------------- standard operations

  /** The arguments of a driver call; docs is None for a nil slice. */
  datatype Request = Request(
    op: string, filter: Value, pipeline: Value, update: Value, projection: Value, upsert: bool, doc: Value,
    docs: Option<seq<Value>>, limit: Int64, batch: Int32, sort: Value, skip: Int64, hint: Value)

  /** An optional field before the rest. */
  function Part(key: string, v: Option<Value>, rest: Fields): Fields
  {
    if v.Some? then [Elem(key, v.value)] + rest else rest
  }

  function DocsValueOf(docs: Option<seq<Value>>): Value { if docs.Some? then Arr(docs.value) else Nil }

  function Unless(absent: bool, v: Value): Option<Value> { if absent then None else Some(v) }

  /** The values of a find command; absent ones are not written. */
  datatype FindArgs = FindArgs(
    filter: Value, projection: Option<Value>, sort: Option<Value>, skip: Option<Value>, hint: Option<Value>,
      limit: Value, batch: Value)

  function FindWith(a: FindArgs): Fields
  {
    Part("filter", Some(a.filter),
      Part("projection", a.projection,
        Part("sort", a.sort,
          Part("skip", a.skip,
            Part("hint", a.hint,
              Part("limit", Some(a.limit),
                Part("batchSize", Some(a.batch), [])))))))
  }

  function FindArgsOf(r: Request): FindArgs
  {
    FindArgs(EmptyDocIfNil(r.filter), Unless(IsNilDoc(r.projection), r.projection), Unless(r.sort.Nil?, r.sort),
             Unless(r.skip <= 0, I64(r.skip)), Unless(r.hint.Nil?, r.hint), I64(r.limit), I32(r.batch))
  }

  function FindCommand(r: Request): Fields { FindWith(FindArgsOf(r)) }

  function AggregateCommand(r: Request): Fields
  {
    Part("pipeline", Some(if r.pipeline.Nil? then Arr([]) else r.pipeline),
      Part("hint", Unless(r.hint.Nil?, r.hint), []))
  }

  function UpdateCommand(r: Request): Fields
  {
    Part("filter", Some(EmptyDocIfNil(r.filter)),
      Part("update", Some(r.update), Part("upsert", Some(Bool(r.upsert)), [])))
  }

  function One(key: string, v: Value): Fields { Part(key, Some(v), []) }

  function StandardCommand(r: Request): Fields
  {
    match r.op
    case "find" => FindCommand(r)
    case "aggregate" => AggregateCommand(r)
    case "updateOne" => UpdateCommand(r)
    case "updateMany" => UpdateCommand(r)
    case "deleteOne" => One("filter", EmptyDocIfNil(r.filter))
    case "deleteMany" => One("filter", EmptyDocIfNil(r.filter))
    case "insert" => One("document", r.doc)
    case "insertMany" => One("documents", DocsValueOf(r.docs))
    case _ => []
  }

  /** A request without arguments. */
  function Blank(op: string): Request { Request(op, Nil, Nil, Nil, Nil, false, Nil, None, 0, 0, Nil, 0, Nil) }

  function UpsertOf(d: Fields): bool { DocValue(d, "upsert") == Bool(true) }

  function SkipOf(cmd: Fields): Option<Int64>
  {
    if !HasKey(cmd, "skip") then Some(0)
    else
      match IntValue(DocValue(cmd, "skip"))
      case Some(n) => if n < 0 then None else Some(n)
      case None => None
  }

  function DecodeFind(cmd: Fields): Result<Request>
  {
    var limit, batch, skip := IntValue(DocValue(cmd, "limit")), IntValue(DocValue(cmd, "batchSize")), SkipOf(cmd);
    if limit.None? || batch.None? || skip.None? then Err
    else
      Ok(Blank("find").(filter := DocValue(cmd, "filter"),
                        projection := if HasKey(cmd, "projection") then DocValue(cmd, "projection") else NilMap,
                        limit := limit.value, batch := ToInt32(batch.value), skip := skip.value,
                        sort := DocValue(cmd, "sort"), hint := DocValue(cmd, "hint")))
  }

  function DecodeStandard(op: string, cmd: Fields): Result<Request>
  {
    match op
    case "find" => DecodeFind(cmd)
    case "aggregate" =>
      if !DocValue(cmd, "pipeline").Arr? then Err
      else Ok(Blank(op).(pipeline := DocValue(cmd, "pipeline"), hint := DocValue(cmd, "hint")))
    case "updateOne" => Ok(DecodeUpdate(op, cmd))
    case "updateMany" => Ok(DecodeUpdate(op, cmd))
    case "deleteOne" => Ok(Blank(op).(filter := DocValue(cmd, "filter")))
    case "deleteMany" => Ok(Blank(op).(filter := DocValue(cmd, "filter")))
    case "insert" => if DocValue(cmd, "document").Nil? then Err else Ok(Blank(op).(doc := DocValue(cmd, "document")))
    case "insertMany" =>
      if !DocValue(cmd, "documents").Arr? then Err
      else Ok(Blank(op).(docs := Some(DocValue(cmd, "documents").items)))
    case _ => Err
  }

  function DecodeUpdate(op: string, cmd: Fields): Request
  {
    Blank(op).(filter := DocValue(cmd, "filter"), update := DocValue(cmd, "update"), upsert := UpsertOf(cmd))
  }

  const KNOWN_OPS: set<string> :=
    {"find", "aggregate", "updateOne", "updateMany", "deleteOne", "deleteMany", "insert", "insertMany"}

  /** What a request needs to survive recording. */
  predicate WellFormed(r: Request)
  {
    && r.op in KNOWN_OPS
    && (r.op == "find" ==> !r.sort.NilMap? && !r.hint.NilMap?)
    && (r.op == "aggregate" ==> (r.pipeline.Nil? || r.pipeline.Arr?) && !r.hint.NilMap?)
    && (r.op == "insert" ==> !IsNilDoc(r.doc))
    && (r.op == "insertMany" ==> r.docs.Some?)
  }

  /** Reading the recorded command succeeds and gives a request that is recorded the same way. */
  predicate RoundTrips(r: Request)
  {
    var cmd := StoredFields(StandardCommand(r));
    DecodeStandard(r.op, cmd).Ok? && StoredFields(StandardCommand(DecodeStandard(r.op, cmd).value)) == cmd
  }

  // --------------------------------------------------------------- round trips

  function StoredPart(v: Option<Value>): Option<Value> { if v.Some? then Some(Stored(v.value)) else None }

  lemma PartStored(key: string, v: Option<Value>, rest: Fields)
    ensures StoredFields(Part(key, v, rest)) == Part(key, StoredPart(v), StoredFields(rest))
  {
  }

  lemma PartAccess(key: string, v: Option<Value>, rest: Fields, k: string)
    ensures DocValue(Part(key, v, rest), k) == if v.Some? && k == key then v.value else DocValue(rest, k)
    ensures HasKey(Part(key, v, rest), k) <==> (v.Some? && k == key) || HasKey(rest, k)
  {
    if v.Some? {
      assert Part(key, v, rest)[1..] == rest;
    }
  }

  function StoredArgs(a: FindArgs): FindArgs
  {
    FindArgs(Stored(a.filter), StoredPart(a.projection), StoredPart(a.sort), StoredPart(a.skip), StoredPart(a.hint),
             Stored(a.limit), Stored(a.batch))
  }

  /** A find with optional fields is stored field by field. */
  lemma FindStored(a: FindArgs)
    ensures StoredFields(FindWith(a)) == FindWith(StoredArgs(a))
  {
    var b1 := Part("batchSize", Some(a.batch), []);
    var l1 := Part("limit", Some(a.limit), b1);
    var h1 := Part("hint", a.hint, l1);
    var k1 := Part("skip", a.skip, h1);
    var s1 := Part("sort", a.sort, k1);
    PartStored("batchSize", Some(a.batch), []);
    PartStored("limit", Some(a.limit), b1);
    PartStored("hint", a.hint, l1);
    PartStored("skip", a.skip, h1);
    PartStored("sort", a.sort, k1);
    PartStored("projection", a.projection, s1);
    PartStored("filter", Some(a.filter), Part("projection", a.projection, s1));
  }

  function OrNil(v: Option<Value>): Value { if v.Some? then v.value else Nil }

  function ArgAt(a: FindArgs, key: string): Option<Value>
  {
    match key
    case "filter" => Some(a.filter)
    case "projection" => a.projection
    case "sort" => a.sort
    case "skip" => a.skip
    case "hint" => a.hint
    case "limit" => Some(a.limit)
    case "batchSize" => Some(a.batch)
    case _ => None
  }

  /** The fields of a find are found under their keys, and no others are there. */
  lemma FindAt(a: FindArgs, key: string)
    ensures DocValue(FindWith(a), key) == OrNil(ArgAt(a, key))
    ensures HasKey(FindWith(a), key) <==> ArgAt(a, key).Some?
  {
    var b1 := Part("batchSize", Some(a.batch), []);
    var l1 := Part("limit", Some(a.limit), b1);
    var h1 := Part("hint", a.hint, l1);
    var k1 := Part("skip", a.skip, h1);
    var s1 := Part("sort", a.sort, k1);
    PartAccess("batchSize", Some(a.batch), [], key);
    PartAccess("limit", Some(a.limit), b1, key);
    PartAccess("hint", a.hint, l1, key);
    PartAccess("skip", a.skip, h1, key);
    PartAccess("sort", a.sort, k1, key);
    PartAccess("projection", a.projection, s1, key);
    PartAccess("filter", Some(a.filter), Part("projection", a.projection, s1), key);
  }

  lemma WholeInt32(n: Int32)
    ensures ToInt32(n as Int64) == n
  {
  }

  /** The request a find with these fields is decoded to. */
  function FindRequest(a: FindArgs): Request
    requires a.limit.I64? && a.batch.I32? && (a.skip.Some? ==> a.skip.value.I64?)
  {
    Blank("find").(filter := a.filter, projection := if a.projection.Some? then a.projection.value else NilMap,
                   limit := a.limit.i64, batch := a.batch.i32, skip := if a.skip.Some? then a.skip.value.i64 else 0,
                   sort := OrNil(a.sort), hint := OrNil(a.hint))
  }

  lemma FindDecodes(a: FindArgs)
    requires a.limit.I64? && a.batch.I32? && (a.skip.Some? ==> a.skip.value.I64? && a.skip.value.i64 > 0)
    ensures DecodeFind(FindWith(a)) == Ok(FindRequest(a))
  {
    FindAt(a, "filter");
    FindAt(a, "projection");
    FindAt(a, "sort");
    FindAt(a, "skip");
    FindAt(a, "hint");
    FindAt(a, "limit");
    FindAt(a, "batchSize");
    WholeInt32(a.batch.i32);
  }

  /** A stored value is nil only when the value was nil, typed or not, and never a nil map. */
  lemma StoredNil(v: Value)
    ensures Stored(v).Nil? <==> IsNilDoc(v)
    ensures !Stored(v).NilMap?
  {
  }

  /** What a recorded find is read back as. */
  lemma FindDecoded(r: Request)
    requires r.op == "find"
    ensures DecodeStandard("find", StoredFields(StandardCommand(r))) == Ok(FindRequest(StoredArgs(FindArgsOf(r))))
  {
    FindStored(FindArgsOf(r));
    FindDecodes(StoredArgs(FindArgsOf(r)));
  }

  /** The fields the decoded request is written with. */
  lemma FindArgsAgain(r: Request)
    requires r.op == "find"
    ensures var back := FindRequest(StoredArgs(FindArgsOf(r)));
            StoredArgs(FindArgsOf(back))
              == StoredArgs(FindArgsOf(r)).(sort := Unless(IsNilDoc(r.sort), Stored(r.sort)),
              hint := Unless(IsNilDoc(r.hint), Stored(r.hint)))
  {
    StoredTwice(EmptyDocIfNil(r.filter));
    StoredTwice(r.projection);
    StoredTwice(r.sort);
    StoredTwice(r.hint);
    StoredNil(EmptyDocIfNil(r.filter));
    StoredNil(r.projection);
    StoredNil(r.sort);
    StoredNil(r.hint);
  }

  /** A find with other optional fields is another command. */
  lemma FindInjective(a: FindArgs, b: FindArgs)
    ensures FindWith(a) == FindWith(b) ==> (a.sort.Some? <==> b.sort.Some?) && (a.hint.Some? <==> b.hint.Some?)
  {
    FindAt(a, "sort");
    FindAt(b, "sort");
    FindAt(a, "hint");
    FindAt(b, "hint");
  }

  lemma FindRoundTrip(r: Request)
    requires r.op == "find"
    ensures RoundTrips(r) <==> WellFormed(r)
  {
    var args, back := StoredArgs(FindArgsOf(r)), FindRequest(StoredArgs(FindArgsOf(r)));
    FindDecoded(r);
    FindStored(FindArgsOf(r));
    FindStored(FindArgsOf(back));
    FindArgsAgain(r);
    FindInjective(args, StoredArgs(FindArgsOf(back)));
    if WellFormed(r) {
      assert args == StoredArgs(FindArgsOf(back));
    }
  }

  /** A command of one to three fields that are always or sometimes there. */
  lemma ShortAccess(k1: string, v1: Value, k2: string, v2: Option<Value>, k3: string, v3: Option<Value>)
    requires k1 != k2 && k1 != k3 && k2 != k3
    ensures var cmd := Part(k1, Some(v1), Part(k2, v2, Part(k3, v3, [])));
            && DocValue(cmd, k1) == v1 && DocValue(cmd, k2) == OrNil(v2) && DocValue(cmd, k3) == OrNil(v3)
    ensures StoredFields(Part(k1, Some(v1), Part(k2, v2, Part(k3, v3, []))))
         == Part(k1, Some(Stored(v1)), Part(k2, StoredPart(v2), Part(k3, StoredPart(v3), [])))
  {
    var c := Part(k3, v3, []);
    var b := Part(k2, v2, c);
    PartStored(k3, v3, []);
    PartStored(k2, v2, c);
    PartStored(k1, Some(v1), b);
    forall k | k in [k1, k2, k3]
      ensures DocValue(Part(k1, Some(v1), b), k) == if k == k1 then v1 else if k == k2 then OrNil(v2) else OrNil(v3)
    {
      PartAccess(k3, v3, [], k);
      PartAccess(k2, v2, c, k);
      PartAccess(k1, Some(v1), b, k);
    }
    assert k1 in [k1, k2, k3] && k2 in [k1, k2, k3] && k3 in [k1, k2, k3];
  }

  lemma AggregateRoundTrip(r: Request)
    requires r.op == "aggregate"
    ensures RoundTrips(r) <==> WellFormed(r)
  {
    var p, h := if r.pipeline.Nil? then Arr([]) else r.pipeline, Unless(r.hint.Nil?, r.hint);
    ShortAccess("pipeline", p, "hint", h, "", None);
    ShortAccess("pipeline", Stored(p), "hint", StoredPart(h), "", None);
    StoredTwice(p);
    StoredTwice(r.hint);
    StoredNil(r.hint);
    StoredNil(p);
    if Stored(p).Arr? {
      var h2 := Unless(Stored(r.hint).Nil?, Stored(r.hint));
      ShortAccess("pipeline", Stored(p), "hint", h2, "", None);
    }
  }

  lemma UpdateRoundTrip(r: Request)
    requires r.op == "updateOne" || r.op == "updateMany"
    ensures RoundTrips(r)
  {
    var f, u := EmptyDocIfNil(r.filter), r.update;
    ShortAccess("filter", f, "update", Some(u), "upsert", Some(Bool(r.upsert)));
    ShortAccess("filter", Stored(f), "update", Some(Stored(u)), "upsert", Some(Bool(r.upsert)));
    StoredTwice(f);
    StoredTwice(u);
    StoredNil(f);
  }

  lemma OneRoundTrip(r: Request)
    requires r.op in {"deleteOne", "deleteMany", "insert", "insertMany"}
    ensures RoundTrips(r) <==> WellFormed(r)
  {
    var key := if r.op == "insert" then "document" else if r.op == "insertMany" then "documents" else "filter";
    var v := if r.op == "insert" then r.doc else if r.op == "insertMany" then DocsValueOf(r.docs)
      else EmptyDocIfNil(r.filter);
    PartStored(key, Some(v), []);
    PartStored(key, Some(Stored(v)), []);
    PartAccess(key, Some(Stored(v)), [], key);
    StoredTwice(v);
    StoredNil(v);
  }

  /** A request survives recording exactly when it is well formed. */
  lemma RoundTripExact(r: Request)
    ensures RoundTrips(r) <==> WellFormed(r)
  {
    if r.op == "find" {
      FindRoundTrip(r);
    } else if r.op == "aggregate" {
      AggregateRoundTrip(r);
    } else if r.op == "updateOne" || r.op == "updateMany" {
      UpdateRoundTrip(r);
    } else if r.op in KNOWN_OPS {
      OneRoundTrip(r);
    }
  }

  // ---------------------------------------------------------- imported operations

  /** Arguments as they are read from a file: nothing of Go's own. */
  predicate ReadBack(args: Fields) { StoredFields(args) == args }

  lemma {:induction false} ReadValue(args: Fields, key: string)
    requires ReadBack(args)
    ensures !DocValue(args, key).NilMap?
  {
    if args != [] {
      assert StoredFields(args)[0] == args[0];
      StoredNil(args[0].value);
      assert StoredFields(args[1..]) == args[1..] by {
        assert forall i :: 0 <= i < |args| - 1 ==> args[1..][i] == args[i + 1] == StoredFields(args)[i + 1];
      }
      ReadValue(args[1..], key);
    }
  }

  lemma DecodedIsWellFormed(op: string, args: Fields)
    requires ReadBack(args) && DecodeStandard(op, args).Ok?
    ensures DecodeStandard(op, args).value.op == op && WellFormed(DecodeStandard(op, args).value)
  {
    ReadValue(args, "sort");
    ReadValue(args, "hint");
    ReadValue(args, "document");
  }

  /** ImportedOperation: the command a replay sends for imported arguments. */
  function ImportedOperation(op: string, args: Fields): Result<Fields>
  {
    match DecodeStandard(op, args)
    case Err => Err
    case Ok(req) =>
      if DecodeStandard(op, StoredFields(StandardCommand(req))).Ok? then Ok(StandardCommand(req)) else Err
  }

  /**
   Importing fails only on arguments that cannot be decoded. What it records is what a
   replay, and any import of the result, sends again.
   */
  lemma ImportIsStable(op: string, args: Fields)
    requires ReadBack(args)
    ensures ImportedOperation(op, args).Ok? <==> DecodeStandard(op, args).Ok?
    ensures ImportedOperation(op, args).Ok? ==>
              var cmd := StoredFields(ImportedOperation(op, args).value);
              && DecodeStandard(op, cmd).Ok? && StoredFields(StandardCommand(DecodeStandard(op, cmd).value)) == cmd
              && ReadBack(cmd) && ImportedOperation(op, cmd).Ok?
                && StoredFields(ImportedOperation(op, cmd).value) == cmd
  {
    if DecodeStandard(op, args).Ok? {
      var req := DecodeStandard(op, args).value;
      DecodedIsWellFormed(op, args);
      RoundTripExact(req);
      var cmd := StoredFields(StandardCommand(req));
      StoredFieldsTwice(StandardCommand(req));
      DecodedIsWellFormed(op, cmd);
      RoundTripExact(DecodeStandard(op, cmd).value);
    }
  }

  lemma StoredFieldsTwice(d: Fields)
    ensures ReadBack(StoredFields(d))
  {
    StoredTwice(Doc(d));
  }

  // ------------------------------------------------------------------- fast finds

  function IdItems(ids: seq<Int64>): (r: seq<Value>)
    ensures |r| == |ids| && forall i :: 0 <= i < |r| ==> r[i] == I64(ids[i])
  {
    seq(|ids|, i requires 0 <= i < |ids| => I64(ids[i]))
  }

  function FastFilter(patchKey: string, ids: seq<Int64>): Value
  {
    Doc([Elem(patchKey, Doc([Elem("$in", Arr(IdItems(ids)))]))])
  }

  lemma FastFilterStored(patchKey: string, ids: seq<Int64>)
    ensures Stored(FastFilter(patchKey, ids)) == FastFilter(patchKey, ids)
  {
    var inDoc := [Elem("$in", Arr(IdItems(ids)))];
    assert StoredItems(IdItems(ids)) == IdItems(ids);
    assert StoredFields(inDoc) == inDoc;
    assert StoredFields([Elem(patchKey, Doc(inDoc))]) == [Elem(patchKey, Doc(inDoc))];
  }

  function FastFindRecord(name: string, patchKey: string, ids: seq<Int64>, batchSize: Int64): Fields
  {
    Part("find", Some(Str(name)),
      Part("filter", Some(FastFilter(patchKey, ids)),
        Part("limit", Some(GoInt(batchSize)), [])))
  }

  datatype FastFind = FastFind(key: string, ids: seq<Int64>, limit: Int64)

  /** The ids of an array that holds nothing else. */
  function IdsOf(items: seq<Value>): Option<seq<Int64>>
  {
    if items == [] then Some([])
    else
      var before, last := IdsOf(items[..|items| - 1]), items[|items| - 1];
      if before.Some? && last.I64? then Some(before.value + [last.i64]) else None
  }

  function FastFindOf(cmd: Fields): Result<FastFind>
  {
    var filter, limit := DocValue(cmd, "filter"), IntValue(DocValue(cmd, "limit"));
    if !filter.Doc? || |filter.fields| != 1 || !filter.fields[0].value.Doc? then Err
    else
      var arr := DocValue(filter.fields[0].value.fields, "$in");
      if !arr.Arr? || IdsOf(arr.items).None? || limit.None? then Err
      else Ok(FastFind(filter.fields[0].key, IdsOf(arr.items).value, limit.value))
  }

  lemma {:induction false} NoIdsAfter(items: seq<Value>, n: nat)
    requires n < |items| && !items[n].I64?
    ensures IdsOf(items).None?
  {
    if n < |items| - 1 {
      NoIdsAfter(items[..|items| - 1], n);
    }
  }

  method DecodeFastFind(cmd: Fields) returns (r: Result<FastFind>)
    ensures r == FastFindOf(cmd)
  {
    var filter := DocValue(cmd, "filter");
    if !filter.Doc? || |filter.fields| != 1 {
      return Err;
    }
    var inDoc := filter.fields[0].value;
    if !inDoc.Doc? {
      return Err;
    }
    var arr := DocValue(inDoc.fields, "$in");
    if !arr.Arr? {
      return Err;
    }
    var ids: seq<Int64> := [];
    for i := 0 to |arr.items|
      invariant IdsOf(arr.items[..i]) == Some(ids)
    {
      if !arr.items[i].I64? {
        NoIdsAfter(arr.items, i);
        return Err;
      }
      assert arr.items[..i + 1][..i] == arr.items[..i];
      ids := ids + [arr.items[i].i64];
    }
    assert arr.items[..|arr.items|] == arr.items;
    match IntValue(DocValue(cmd, "limit"))
    case None => return Err;
    case Some(limit) => return Ok(FastFind(filter.fields[0].key, ids, limit));
  }

  lemma {:induction false} IdsDecode(ids: seq<Int64>)
    ensures IdsOf(IdItems(ids)) == Some(ids)
  {
    if ids != [] {
      var n := |ids| - 1;
      IdsDecode(ids[..n]);
      assert IdItems(ids)[..n] == IdItems(ids[..n]);
      assert ids == ids[..n] + [ids[n]];
    }
  }

  lemma {:induction false} IdsExact(items: seq<Value>, ids: seq<Int64>)
    ensures IdsOf(items) == Some(ids) <==> items == IdItems(ids)
  {
    if IdsOf(items) == Some(ids) {
      if items == [] {
        assert IdItems(ids) == [];
      } else {
        var n := |items| - 1;
        IdsExact(items[..n], ids[..|ids| - 1]);
        assert items == items[..n] + [items[n]] && ids == ids[..|ids| - 1] + [ids[|ids| - 1]];
        assert IdItems(ids) == IdItems(ids[..|ids| - 1]) + [I64(ids[|ids| - 1])];
      }
    }
    if items == IdItems(ids) {
      IdsDecode(ids);
    }
  }

  /** The filter asks for these ids under the key, whatever else it asks for in the same document. */
  ghost predicate AsksFor(filter: Value, key: string, ids: seq<Int64>)
  {
    exists inner :: filter == Doc([Elem(key, Doc(inner))]) && DocValue(inner, "$in") == Arr(IdItems(ids))
  }

  /** A fast find is read exactly when its filter has a single field that asks for 64-bit ids, and it has a limit. */
  lemma FastFindExact(cmd: Fields, f: FastFind)
    ensures FastFindOf(cmd) == Ok(f) <==>
              AsksFor(DocValue(cmd, "filter"), f.key, f.ids) && IntValue(DocValue(cmd, "limit")) == Some(f.limit)
  {
    var filter := DocValue(cmd, "filter");
    if filter.Doc? && |filter.fields| == 1 && filter.fields[0].value.Doc? {
      var e := filter.fields[0];
      var inner := e.value.fields;
      assert filter == Doc([Elem(e.key, Doc(inner))]);
      if DocValue(inner, "$in").Arr? {
        IdsExact(DocValue(inner, "$in").items, f.ids);
      }
    }
  }

  /** A recorded fast find is read back with its key, ids and limit. */
  lemma FastFindRoundTrip(name: string, key: string, ids: seq<Int64>, batchSize: Int64)
    ensures FastFindOf(StoredFields(FastFindRecord(name, key, ids, batchSize))) == Ok(FastFind(key, ids, batchSize))
  {
    FastFindStored(name, key, ids, batchSize);
    FastFindDecodes(StoredFields(FastFindRecord(name, key, ids, batchSize)), key, ids, batchSize);
  }

  lemma FastFindStored(name: string, key: string, ids: seq<Int64>, batchSize: Int64)
    ensures var cmd := StoredFields(FastFindRecord(name, key, ids, batchSize));
            DocValue(cmd, "filter") == FastFilter(key, ids) && DocValue(cmd, "limit") == Stored(GoInt(batchSize))
  {
    var filter := FastFilter(key, ids);
    FastFilterStored(key, ids);
    ShortAccess("find", Str(name), "filter", Some(filter), "limit", Some(GoInt(batchSize)));
    ShortAccess("find", Str(name), "filter", Some(filter), "limit", Some(Stored(GoInt(batchSize))));
  }

  lemma StoredInt(n: Int64)
    ensures IntValue(Stored(GoInt(n))) == Some(n)
  {
  }

  lemma FilterParts(key: string, ids: seq<Int64>)
    ensures var filter := FastFilter(key, ids);
            && |filter.fields| == 1 && filter.fields[0].key == key && filter.fields[0].value.Doc?
            && DocValue(filter.fields[0].value.fields, "$in") == Arr(IdItems(ids))
  {
  }

  lemma FastFindDecodes(cmd: Fields, key: string, ids: seq<Int64>, batchSize: Int64)
    requires DocValue(cmd, "filter") == FastFilter(key, ids) && DocValue(cmd, "limit") == Stored(GoInt(batchSize))
    ensures FastFindOf(cmd) == Ok(FastFind(key, ids, batchSize))
  {
    StoredInt(batchSize);
    FilterParts(key, ids);
    IdsDecode(ids);
  }
}
