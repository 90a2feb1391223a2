/**
 The operations of a deterministic worker, defined without a cache
 (detWorker in internal/mongo/workload_deterministic.go). Every function takes the random
 stream's state and returns the next one; the library's generators are arguments.
 */
module TrafficSpec {
  import opened Wrappers
  import opened CommandCodec
  import opened Transactions
  import opened SeededCache
  import opened Mix64

  datatype Query = Query(filter: Value, pipeline: Option<Value>, update: Value, projection: Value, upsert: bool,
        limit: Int64)

  /** A batch of documents prepared for fast inserts, each with the marker as the value of the key. */
  datatype Prebuilt = Prebuilt(key: string, docs: seq<Record>)

  /**
   The configuration of a run and the library functions it draws from; setup(p, i) is the
   document that the worker's setup stream gives for place i of batch p. What the worker prepares for its fast paths
   follows from these and the order of a map (PatchKeys): patchKey, pool and optimized.
   */
  datatype Env = Env(
    seed: Word, iteration: Word, worker: Word, opSeed: Word -> Word, ids: (Word, nat) -> Value, budget: nat,
    db: Database, cols: seq<Definition>, seeding: Seeding, seeded: nat, maxOwn: nat,
    jitter: nat, useTransactions: bool, maxTxOps: nat, insertBatch: nat, fastBatch: int, findLimit: Int64,
      findBatch: Int32,
    hitRate: nat, concurrency: nat, optimized: bool, patchKey: string, pool: seq<Prebuilt>,
    lower: char -> char, setup: (nat, nat) -> Record, encodes: Record -> bool,
    draw: (nat, Word) -> (nat, Word), index: (nat, Word) -> (int, Word), pickOp: Word -> (string, Word),
    generate: (Definition, Word) -> (Record, Word), query: (string, Definition, Word) -> (Option<Query>, Word),
    fill: (Value, Option<Record>, Word) -> (Value, Word), canonical: Value -> Value, ofRecord: Record -> Value)

  function IDValue(w: Word): Value { Opaque(w) }

  /** The seed of an operation and the _id of its document j are derived from seed, iteration and worker. */
  ghost predicate SeededAt(e: Env, op: Word, j: nat)
  {
    e.opSeed(op) == OpSeed(e.seed, e.iteration, e.worker, op) && e.ids(op, j) == IDValue(DocumentID(e.opSeed(op), j))
  }

  ghost predicate ValidEnv(e: Env)
  {
    && e.cols != [] && e.maxOwn > 0 && e.concurrency > 0 && (e.optimized ==> e.pool != [])
    && forall op, j {:trigger SeededAt(e, op, j)} :: SeededAt(e, op, j)
  }

  type Own = map<string, seq<Record>>

  /** What an operation's generation starts from and leaves behind. */
  datatype Gen = Gen(src: Word, own: Own)

  function Namespace(e: Env, col: Definition): string { CollectionNamespace(e.db, Col(col.database, col.name)) }

  function OwnOf(own: Own, ns: string): seq<Record> { if ns in own then own[ns] else [] }

  /** rng.Intn(n) */
  function Draw(e: Env, n: nat, src: Word): (r: (nat, Word))
    requires n > 0
    ensures r.0 < n
  {
    (e.draw(n, src).0 % n, e.draw(n, src).1)
  }

  /** The index of an existing record; one out of range is drawn again. */
  function PickIndex(e: Env, n: nat, src: Word): (r: (nat, Word))
    requires n > 0
    ensures r.0 < n
  {
    var (i, s) := e.index(n, src);
    if 0 <= i < n then (i, s) else Draw(e, n, s)
  }

  function PickExisting(e: Env, g: Gen, col: Definition, ns: string): (Option<Record>, Word)
  {
    var own := OwnOf(g.own, ns);
    if e.seeded + |own| == 0 then (None, g.src)
    else
      var (i, s) := PickIndex(e, e.seeded + |own|, g.src);
      (Some(if i < e.seeded then Seeded(e.seeding, col, i) else own[i - e.seeded]), s)
  }

  function AddOwn(own: Own, ns: string, doc: Record, maxOwn: nat): Own
  {
    var list := OwnOf(own, ns) + [doc];
    own[ns := if |list| > maxOwn then list[|list| - maxOwn..] else list]
  }

  function FillPlaceholders(e: Env, g: Gen, v: Value, col: Definition, ns: string): (Value, Word)
  {
    if e.hitRate == 0 then e.fill(v, None, g.src)
    else
      var (roll, s) := Draw(e, 100, g.src);
      if roll >= e.hitRate then e.fill(v, None, s)
      else
        var (rec, t) := PickExisting(e, g.(src := s), col, ns);
        e.fill(v, rec, t)
  }

  function NewDocument(e: Env, src: Word, col: Definition, op: Word, j: nat): (Record, Word)
  {
    var (doc, s) := e.generate(col, src);
    (if HasID(col) then doc else doc["_id" := e.ids(op, j)], s)
  }

  /** Document j of an operation, remembered as one of the worker's own. */
  function InsertOne(e: Env, g: Gen, col: Definition, ns: string, op: Word, j: nat): (Record, Gen)
  {
    var (doc, s) := NewDocument(e, g.src, col, op, j);
    (doc, Gen(s, AddOwn(g.own, ns, doc, e.maxOwn)))
  }

  /** Documents j to n - 1. */
  function InsertDocs(e: Env, g: Gen, col: Definition, ns: string, op: Word, j: nat, n: nat): (seq<Record>, Gen)
    decreases n - j
  {
    if j >= n then ([], g)
    else
      var (doc, g') := InsertOne(e, g, col, ns, op, j);
      var (rest, g'') := InsertDocs(e, g', col, ns, op, j + 1, n);
      ([doc] + rest, g'')
  }

  lemma {:induction false} InsertedIDs(e: Env, g: Gen, col: Definition, ns: string, op: Word, j: nat, n: nat, i: nat)
    requires j <= i < n && !HasID(col)
    ensures var docs := InsertDocs(e, g, col, ns, op, j, n).0;
            |docs| == n - j && "_id" in docs[i - j] && docs[i - j]["_id"] == e.ids(op, i)
    decreases n - j
  {
    var (doc, g') := InsertOne(e, g, col, ns, op, j);
    if i > j {
      InsertedIDs(e, g', col, ns, op, j + 1, n, i);
    } else if n > j + 1 {
      InsertedIDs(e, g', col, ns, op, j + 1, n, j + 1);
    }
  }

  lemma DerivedIDs(e: Env, op: Word, op': Word, i: nat, k: nat)
    requires ValidEnv(e) && i < WORD && k < WORD
    ensures e.ids(op, i) == e.ids(op, k) <==> i == k
    ensures e.ids(op, i) == e.ids(op', i) <==> op == op'
  {
    assert SeededAt(e, op, i) && SeededAt(e, op, k) && SeededAt(e, op', i);
    SameOperationIDs(e.seed, e.iteration, e.worker, op, i, k);
    OtherOperationIDs(e.seed, e.iteration, e.worker, op, op', i);
  }

  /** The documents of one insert get pairwise distinct _ids, unless the definition has its own. */
  lemma InsertedIDsDistinct(e: Env, g: Gen, col: Definition, ns: string, op: Word, n: nat, i: nat, k: nat)
    requires ValidEnv(e) && i < k < n <= WORD && !HasID(col)
    ensures var docs := InsertDocs(e, g, col, ns, op, 0, n).0;
            |docs| == n && "_id" in docs[i] && "_id" in docs[k] && docs[i]["_id"] != docs[k]["_id"]
  {
    InsertedIDs(e, g, col, ns, op, 0, n, i);
    InsertedIDs(e, g, col, ns, op, 0, n, k);
    DerivedIDs(e, op, op, i, k);
  }

  function Values(e: Env, docs: seq<Record>): (r: seq<Value>)
    ensures |r| == |docs| && forall i :: 0 <= i < |r| ==> r[i] == e.ofRecord(docs[i])
  {
    seq(|docs|, i requires 0 <= i < |docs| => e.ofRecord(docs[i]))
  }

  /** canonicalValue: nil stays nil. */
  function Canonical(e: Env, v: Value): Value { if IsNilDoc(v) then Nil else e.canonical(v) }

  // --------------------------------------------------------- operations as recorded

  /** A recorded command, or a prebuilt batch with the first of the ids its key is patched with. */
  datatype Command = Args(fields: Fields) | Batch(batch: Prebuilt, base: Word, withIDs: bool)

  datatype Op = Skip | Op(ns: string, opType: string, command: Command)

  const QUERY_OPS: set<string> := {"find", "updateOne", "updateMany", "deleteOne", "deleteMany", "aggregate"}

  function RequestOf(e: Env, opType: string, q: Query): Request
  {
    Blank(opType).(
      update := Canonical(e, q.update), projection := Canonical(e, q.projection), upsert := q.upsert,
      limit := if q.limit <= 0 then e.findLimit else q.limit, batch := if e.findBatch <= 0 then 10 else e.findBatch)
  }

  function QueryOp(e: Env, g: Gen, col: Definition, ns: string, opType: string): (Op, Gen)
  {
    var (found, s) := e.query(opType, col, g.src);
    if found.None? then (Skip, g.(src := s))
    else
      var q := found.value;
      if opType != "aggregate" then
        var (filter, t) := FillPlaceholders(e, g.(src := s), q.filter, col, ns);
        (Op(ns, opType, Args(StandardCommand(RequestOf(e, opType, q).(filter := Canonical(e, filter))))), g.(src := t))
      else if q.pipeline.None? then
        (Op(ns, opType, Args(StandardCommand(RequestOf(e, opType, q)))), g.(src := s))
      else
        var (p, t) := FillPlaceholders(e, g.(src := s), q.pipeline.value, col, ns);
        (Op(ns, opType, Args(StandardCommand(RequestOf(e, opType, q).(pipeline := e.canonical(p))))), g.(src := t))
  }

  function StandardOp(e: Env, g: Gen, col: Definition, ns: string, opType: string, op: Word): (Op, Gen)
  {
    if opType == "insert" then
      var (doc, g') := InsertOne(e, g, col, ns, op, 0);
      (Op(ns, opType, Args(StandardCommand(Blank(opType).(doc := e.ofRecord(doc))))), g')
    else if opType == "insertMany" then
      var (docs, g') := InsertDocs(e, g, col, ns, op, 0, e.insertBatch);
      (Op(ns, opType, Args(StandardCommand(Blank(opType).(docs := Some(Values(e, docs)))))), g')
    else if opType in QUERY_OPS then QueryOp(e, g, col, ns, opType)
    else (Skip, g)
  }

  // -------------------------------------------------------------------- fast paths

  /** A word read as a signed 64-bit integer. */
  function Signed(w: Word): Int64 { if w < 0x8000_0000_0000_0000 then w as Int64 else (w - WORD) as Int64 }

  function PatchedID(base: Word, j: nat): Value { I64(Signed((base + j) % WORD)) }

  function AddPatched(e: Env, own: Own, ns: string, base: Word, j: nat, n: nat): Own
    decreases n - j
  {
    if j >= n then own else AddPatched(e, AddOwn(own, ns, map[e.patchKey := PatchedID(base, j)], e.maxOwn), ns, base,
      j + 1, n)
  }

  function BatchBase(e: Env, op: Word, n: nat): Word
  {
    (e.worker * 100000000 + (e.iteration - 1) * e.budget * n + (op - 1) * n) % WORD
  }

  /** Numbers below 2^64 stay different when the same offset is added and the sum wraps. */
  lemma WrapInjective(c: int, x: Word, y: Word)
    ensures (c + x) % WORD == (c + y) % WORD <==> x == y
  {
    assert c + x == (c + x) / WORD * WORD + (c + x) % WORD && c + y == (c + y) / WORD * WORD + (c + y) % WORD;
  }

  lemma WrapTwice(c: int, x: int, j: nat)
    ensures ((c + x) % WORD + j) % WORD == (c + (x + j)) % WORD
  {
    var q, r := (c + x) / WORD, (c + x) % WORD;
    assert c + (x + j) == q * WORD + (r + j);
  }

  lemma SlotAbove(m: nat, d: nat, n: nat, j: nat, k: nat)
    requires j < n
    ensures m * n + j < (m + 1 + d) * n + k
  {
    assert (m + 1 + d) * n == m * n + n + d * n;
  }

  lemma SlotInjective(a: nat, b: nat, n: nat, j: nat, k: nat)
    requires j < n && k < n
    ensures a * n + j == b * n + k <==> a == b && j == k
  {
    if a < b {
      SlotAbove(a, b - a - 1, n, j, k);
    } else if b < a {
      SlotAbove(b, a - b - 1, n, k, j);
    }
  }

  lemma SlotBound(a: nat, n: nat, j: nat)
    requires j < n && (a + 1) * n <= WORD
    ensures a * n + j < WORD
  {
    assert (a + 1) * n == a * n + n;
  }

  lemma WrappedPlaces(c: int, x: nat, y: nat, j: nat, k: nat)
    requires x + j < WORD && y + k < WORD
    ensures ((c + x) % WORD + j) % WORD == ((c + y) % WORD + k) % WORD <==> x + j == y + k
  {
    WrapTwice(c, x, j);
    WrapTwice(c, y, k);
    WrapInjective(c, x + j, y + k);
  }

  lemma WrappedSlots(c: int, a: nat, b: nat, n: nat, j: nat, k: nat)
    requires j < n && k < n && (a + 1) * n <= WORD && (b + 1) * n <= WORD
    ensures ((c + a * n) % WORD + j) % WORD == ((c + b * n) % WORD + k) % WORD <==> a == b && j == k
  {
    var x, y := a * n, b * n;
    SlotBound(a, n, j);
    SlotBound(b, n, k);
    SlotInjective(a, b, n, j, k);
    WrappedPlaces(c, x, y, j, k);
  }

  lemma SignedInjective(x: Word, y: Word)
    ensures Signed(x) == Signed(y) <==> x == y
  {
  }

  lemma PatchedInjective(base: Word, base': Word, j: nat, k: nat)
    ensures PatchedID(base, j) == PatchedID(base', k) <==> (base + j) % WORD == (base' + k) % WORD
  {
    SignedInjective((base + j) % WORD, (base' + k) % WORD);
  }

  /** The first id of the iteration. */
  function FirstID(e: Env, n: nat): int { e.worker * 100000000 + (e.iteration - 1) * e.budget * n }

  lemma BaseOf(e: Env, op: Word, n: nat)
    requires op > 0
    ensures BatchBase(e, op, n) == (FirstID(e, n) + (op - 1) * n) % WORD
  {
  }

  lemma SlotsDistinct(c: int, a: nat, b: nat, n: nat, j: nat, k: nat, base: Word, base': Word)
    requires j < n && k < n && (a + 1) * n <= WORD && (b + 1) * n <= WORD
    requires base == (c + a * n) % WORD && base' == (c + b * n) % WORD
    ensures PatchedID(base, j) == PatchedID(base', k) <==> a == b && j == k
  {
    PatchedInjective(base, base', j, k);
    WrappedSlots(c, a, b, n, j, k);
  }

  /**
   The ids that a worker's fast inserts write in one iteration are pairwise distinct, over
   all passes, as long as 2^64 suffice for them.
   */
  lemma FastIDsDistinct(e: Env, op: Word, op': Word, n: nat, j: nat, k: nat)
    requires op > 0 && op' > 0 && j < n && k < n && op * n <= WORD && op' * n <= WORD
    ensures PatchedID(BatchBase(e, op, n), j) == PatchedID(BatchBase(e, op', n), k) <==> op == op' && j == k
  {
    BaseOf(e, op, n);
    BaseOf(e, op', n);
    SlotsDistinct(FirstID(e, n), op - 1, op' - 1, n, j, k, BatchBase(e, op, n), BatchBase(e, op', n));
  }

  function FastInsertOp(e: Env, g: Gen, col: Definition, ns: string, op: Word): (Op, Gen)
    requires e.pool != []
  {
    var (b, s) := Draw(e, |e.pool|, g.src);
    var n := |e.pool[b].docs|;
    var base := BatchBase(e, op, n);
    (Op(ns, "insertMany", Batch(e.pool[b], base, e.patchKey != "_id" && !HasID(col))),
     Gen(s, AddPatched(e, g.own, ns, base, 0, n)))
  }

  function RecordedID(rec: Record, key: string): Option<Int64>
  {
    if key !in rec then None
    else
      match rec[key]
      case GoInt(n) => Some(n)
      case I32(n) => Some(n as Int64)
      case I64(n) => Some(n)
      case _ => None
  }

  /** Ids of existing records, in at most 2 * batch tries. */
  function PickIDs(e: Env, g: Gen, col: Definition, ns: string, ids: seq<Int64>, batch: nat, tries: nat): (seq<Int64>,
        Word)
    decreases 2 * batch - tries
  {
    if |ids| >= batch || tries >= 2 * batch then (ids, g.src)
    else
      var (rec, s) := PickExisting(e, g, col, ns);
      if rec.None? then (ids, s)
      else
        match RecordedID(rec.value, e.patchKey)
        case Some(id) => PickIDs(e, g.(src := s), col, ns, ids + [id], batch, tries + 1)
        case None => PickIDs(e, g.(src := s), col, ns, ids, batch, tries + 1)
  }

  function RandomIDs(e: Env, src: Word, ids: seq<Int64>, batch: nat): (seq<Int64>, Word)
    requires e.concurrency > 0
    decreases batch - |ids|
  {
    if |ids| >= batch then (ids, src)
    else
      var (w, s) := Draw(e, e.concurrency, src);
      var (n, t) := Draw(e, 10000000, s);
      RandomIDs(e, t, ids + [Signed((w * 100000000 + n) % WORD)], batch)
  }

  function FastBatchSize(e: Env): nat { if e.fastBatch <= 1 then 10 else e.fastBatch }

  /** Ids of existing records when the hit rate says so. */
  function PooledIDs(e: Env, g: Gen, col: Definition, ns: string): (seq<Int64>, Word)
  {
    if e.seeded + |OwnOf(g.own, ns)| == 0 then ([], g.src)
    else
      var (roll, s) := Draw(e, 100, g.src);
      if roll < e.hitRate then PickIDs(e, g.(src := s), col, ns, [], FastBatchSize(e), 0) else ([], s)
  }

  function FastFindOp(e: Env, g: Gen, col: Definition, ns: string): (Op, Gen)
    requires e.concurrency > 0
  {
    var batch := FastBatchSize(e);
    var (pooled, s) := PooledIDs(e, g, col, ns);
    var (ids, t) := RandomIDs(e, s, pooled, batch);
    (Op(ns, "find", Args(FastFindRecord(col.name, e.patchKey, ids, Signed(batch % WORD)))), g.(src := t))
  }

  // ------------------------------------------------------------------ transactions

  function TxBlank(opType: string, col: Definition): TxOp
  {
    TxOp(opType, Col(col.database, col.name), Nil, Nil, false, Nil, None)
  }

  function TxQuery(e: Env, g: Gen, col: Definition, ns: string, inner: string): (Option<TxOp>, Gen)
  {
    var (found, s) := e.query(inner, col, g.src);
    if found.None? then (None, g.(src := s))
    else
      var q := found.value;
      var (filter, t) := FillPlaceholders(e, g.(src := s), q.filter, col, ns);
      (Some(TxBlank(inner, col).(filter := Canonical(e, filter), update := Canonical(e, q.update),
        upsert := q.upsert)), g.(src := t))
  }

  /** One inner operation, or none when no query is found; documents are numbered through the transaction. */
  function TxOne(e: Env, g: Gen, op: Word, docIndex: nat): (Option<TxOp>, Gen, nat)
    requires e.cols != []
  {
    var (c, s) := Draw(e, |e.cols|, g.src);
    var (drawn, t) := e.pickOp(s);
    var col, inner := e.cols[c], if drawn == "aggregate" || drawn == "transaction" then "find" else drawn;
    var ns := Namespace(e, col);
    if inner == "insert" then
      var (doc, g') := InsertOne(e, g.(src := t), col, ns, op, docIndex);
      (Some(TxBlank(inner, col).(doc := e.ofRecord(doc))), g', docIndex + 1)
    else if inner == "insertMany" then
      var (docs, g') := InsertDocs(e, g.(src := t), col, ns, op, docIndex, docIndex + e.insertBatch);
      (Some(TxBlank(inner, col).(docs := Some(Values(e, docs)))), g', docIndex + e.insertBatch)
    else
      var (found, g') := TxQuery(e, g.(src := t), col, ns, inner);
      (found, g', docIndex)
  }

  function TypeInside(drawn: string): string
  {
    if drawn == "aggregate" || drawn == "transaction" then "find" else drawn
  }

  /** What an inner operation is once its collection and type are drawn. */
  function TxDrawn(e: Env, g: Gen, op: Word, docIndex: nat, col: Definition, drawn: string): (Option<TxOp>, Gen, nat)
  {
    var ns := Namespace(e, col);
    if drawn == "insert" then
      var (doc, g') := InsertOne(e, g, col, ns, op, docIndex);
      (Some(TxBlank(drawn, col).(doc := e.ofRecord(doc))), g', docIndex + 1)
    else if drawn == "insertMany" then
      var (docs, g') := InsertDocs(e, g, col, ns, op, docIndex, docIndex + e.insertBatch);
      (Some(TxBlank(drawn, col).(docs := Some(Values(e, docs)))), g', docIndex + e.insertBatch)
    else
      var (found, g') := TxQuery(e, g, col, ns, TypeInside(drawn));
      (found, g', docIndex)
  }

  lemma TxOneDrawn(e: Env, g: Gen, op: Word, docIndex: nat)
    requires e.cols != []
    ensures var (c, s) := Draw(e, |e.cols|, g.src);
            var (drawn, t) := e.pickOp(s);
            TxOne(e, g, op, docIndex) == TxDrawn(e, g.(src := t), op, docIndex, e.cols[c], drawn)
  {
  }

  function TxOps(e: Env, g: Gen, op: Word, docIndex: nat, left: nat): (seq<TxOp>, Gen)
    requires e.cols != []
    decreases left
  {
    if left == 0 then ([], g)
    else
      var (t, g', j) := TxOne(e, g, op, docIndex);
      var (rest, g'') := TxOps(e, g', op, j, left - 1);
      ((if t.Some? then [t.value] else []) + rest, g'')
  }

  // ------------------------------------------------ the documents of a transaction

  /** A document of a transaction, and whether its definition has an _id of its own. */
  datatype Written = Written(doc: Record, ownID: bool)

  function WrittenBy(docs: seq<Record>, ownID: bool): (r: seq<Written>)
    ensures |r| == |docs| && forall i :: 0 <= i < |r| ==> r[i] == Written(docs[i], ownID)
  {
    seq(|docs|, i requires 0 <= i < |docs| => Written(docs[i], ownID))
  }

  /** The documents an inner operation inserts. */
  function TxWritten(e: Env, g: Gen, op: Word, docIndex: nat): seq<Written>
    requires e.cols != []
  {
    var (c, s) := Draw(e, |e.cols|, g.src);
    var (drawn, t) := e.pickOp(s);
    var col := e.cols[c];
    var ns := Namespace(e, col);
    if drawn == "insert" then [Written(InsertOne(e, g.(src := t), col, ns, op, docIndex).0, HasID(col))]
    else if drawn == "insertMany" then
      WrittenBy(InsertDocs(e, g.(src := t), col, ns, op, docIndex, docIndex + e.insertBatch).0, HasID(col))
    else []
  }

  type TxStep = (Gen, nat) -> (Option<TxOp>, Gen, nat)

  function StepOf(e: Env, op: Word): TxStep
    requires e.cols != []
  {
    (g: Gen, docIndex: nat) => TxOne(e, g, op, docIndex)
  }

  function WritesOf(e: Env, op: Word): (Gen, nat) -> seq<Written>
    requires e.cols != []
  {
    (g: Gen, docIndex: nat) => TxWritten(e, g, op, docIndex)
  }

  /** The operations of so many steps. */
  function StepOps(step: TxStep, g: Gen, docIndex: nat, left: nat): seq<TxOp>
    decreases left
  {
    if left == 0 then []
    else
      var (t, g', j) := step(g, docIndex);
      (if t.Some? then [t.value] else []) + StepOps(step, g', j, left - 1)
  }

  /** The documents written by so many steps. */
  function AllWritten(step: TxStep, writes: (Gen, nat) -> seq<Written>, g: Gen, docIndex: nat, left: nat): seq<Written>
    decreases left
  {
    if left == 0 then []
    else
      var (_, g', j) := step(g, docIndex);
      writes(g, docIndex) + AllWritten(step, writes, g', j, left - 1)
  }

  lemma {:induction false} TxOpsAreSteps(e: Env, g: Gen, op: Word, docIndex: nat, left: nat)
    requires e.cols != []
    ensures TxOps(e, g, op, docIndex, left).0 == StepOps(StepOf(e, op), g, docIndex, left)
    decreases left
  {
    if left > 0 {
      var (t, g', j) := TxOne(e, g, op, docIndex);
      TxOpsAreSteps(e, g', op, j, left - 1);
      TxOpsUnfold(e, g, op, docIndex, left, t, g', j);
    }
  }

  lemma TxOpsUnfold(e: Env, g: Gen, op: Word, docIndex: nat, left: nat, t: Option<TxOp>, g': Gen, j: nat)
    requires e.cols != [] && left > 0 && (t, g', j) == TxOne(e, g, op, docIndex)
    ensures var rest := TxOps(e, g', op, j, left - 1);
            TxOps(e, g, op, docIndex, left) == ((if t.Some? then [t.value] else []) + rest.0, rest.1)
  {
  }

  function ValuesIn(t: Option<TxOp>): seq<Value>
  {
    if t.None? then []
    else if t.value.op == "insert" then [t.value.doc]
    else if t.value.docs.Some? then t.value.docs.value
    else []
  }

  /** The documents in the operations of a transaction. */
  function InsertedValues(ops: seq<TxOp>): seq<Value>
  {
    if ops == [] then [] else InsertedValues(ops[..|ops| - 1]) + ValuesIn(Some(ops[|ops| - 1]))
  }

  function WrittenValues(ofRecord: Record -> Value, ws: seq<Written>): (r: seq<Value>)
    ensures |r| == |ws| && forall i :: 0 <= i < |r| ==> r[i] == ofRecord(ws[i].doc)
  {
    seq(|ws|, i requires 0 <= i < |ws| => ofRecord(ws[i].doc))
  }

  /** Documents without an _id of their own have the one derived from their number. */
  ghost predicate Numbered(ids: (Word, nat) -> Value, op: Word, docIndex: nat, ws: seq<Written>)
  {
    forall i :: 0 <= i < |ws| && !ws[i].ownID ==> "_id" in ws[i].doc && ws[i].doc["_id"] == ids(op, docIndex + i)
  }

  /** The operations hold these documents, in this order. */
  ghost predicate Holding(ofRecord: Record -> Value, ops: seq<TxOp>, ws: seq<Written>)
  {
    InsertedValues(ops) == WrittenValues(ofRecord, ws)
  }

  /** A step writes the documents of its operation, numbered from its index on. */
  ghost predicate StepWrites(
      step: TxStep, writes: (Gen, nat) -> seq<Written>, ofRecord: Record -> Value, ids: (Word, nat) -> Value, op: Word,
      g: Gen, docIndex: nat)
  {
    var (t, _, j) := step(g, docIndex);
    var ws := writes(g, docIndex);
    j == docIndex + |ws| && ValuesIn(t) == WrittenValues(ofRecord, ws) && Numbered(ids, op, docIndex, ws)
  }

  lemma NumberedJoined(ids: (Word, nat) -> Value, op: Word, docIndex: nat, a: seq<Written>, b: seq<Written>)
    requires Numbered(ids, op, docIndex, a) && Numbered(ids, op, docIndex + |a|, b)
    ensures Numbered(ids, op, docIndex, a + b)
  {
    forall i | 0 <= i < |a + b| && !(a + b)[i].ownID
      ensures "_id" in (a + b)[i].doc && (a + b)[i].doc["_id"] == ids(op, docIndex + i)
    {
      assert i >= |a| ==> (a + b)[i] == b[i - |a|] && docIndex + i == docIndex + |a| + (i - |a|);
    }
  }

  lemma {:induction false} InsertedJoined(a: seq<TxOp>, b: seq<TxOp>)
    ensures InsertedValues(a + b) == InsertedValues(a) + InsertedValues(b)
  {
    if b == [] {
      assert a + b == a;
    } else {
      assert (a + b)[..|a + b| - 1] == a + b[..|b| - 1];
      InsertedJoined(a, b[..|b| - 1]);
    }
  }

  lemma InsertedFirst(t: Option<TxOp>, rest: seq<TxOp>)
    ensures InsertedValues((if t.Some? then [t.value] else []) + rest) == ValuesIn(t) + InsertedValues(rest)
  {
    if t.Some? {
      assert [t.value][..0] == [];
      assert InsertedValues([t.value]) == InsertedValues([]) + ValuesIn(t);
      InsertedJoined([t.value], rest);
    } else {
      assert [] + rest == rest;
    }
  }

  lemma HoldingNext(
      ofRecord: Record -> Value, t: Option<TxOp>, rest: seq<TxOp>, ws: seq<Written>, more: seq<Written>)
    requires ValuesIn(t) == WrittenValues(ofRecord, ws) && Holding(ofRecord, rest, more)
    ensures Holding(ofRecord, (if t.Some? then [t.value] else []) + rest, ws + more)
  {
    InsertedFirst(t, rest);
    assert WrittenValues(ofRecord, ws + more) == WrittenValues(ofRecord, ws) + WrittenValues(ofRecord, more);
  }

  /** Steps that each write and number their documents do so together. */
  lemma {:induction false} StepsWrite(
      step: TxStep, writes: (Gen, nat) -> seq<Written>, ofRecord: Record -> Value, ids: (Word, nat) -> Value, op: Word,
      g: Gen, docIndex: nat, left: nat)
    requires forall h, i :: StepWrites(step, writes, ofRecord, ids, op, h, i)
    ensures Holding(ofRecord, StepOps(step, g, docIndex, left), AllWritten(step, writes, g, docIndex, left))
    ensures Numbered(ids, op, docIndex, AllWritten(step, writes, g, docIndex, left))
    decreases left
  {
    if left > 0 {
      assert StepWrites(step, writes, ofRecord, ids, op, g, docIndex);
      var (t, g', j) := step(g, docIndex);
      StepsWrite(step, writes, ofRecord, ids, op, g', j, left - 1);
      var more := AllWritten(step, writes, g', j, left - 1);
      HoldingNext(ofRecord, t, StepOps(step, g', j, left - 1), writes(g, docIndex), more);
      NumberedJoined(ids, op, docIndex, writes(g, docIndex), more);
    }
  }

  lemma {:induction false} InsertedLength(e: Env, g: Gen, col: Definition, ns: string, op: Word, j: nat, n: nat)
    requires j <= n
    ensures |InsertDocs(e, g, col, ns, op, j, n).0| == n - j
    decreases n - j
  {
    if j < n {
      InsertedLength(e, InsertOne(e, g, col, ns, op, j).1, col, ns, op, j + 1, n);
    }
  }

  lemma DocsNumbered(e: Env, g: Gen, col: Definition, ns: string, op: Word, j: nat, n: nat)
    requires j <= n
    ensures Numbered(e.ids, op, j, WrittenBy(InsertDocs(e, g, col, ns, op, j, n).0, HasID(col)))
  {
    InsertedLength(e, g, col, ns, op, j, n);
    if !HasID(col) {
      forall i | 0 <= i < n - j
        ensures var docs := InsertDocs(e, g, col, ns, op, j, n).0;
            "_id" in docs[i] && docs[i]["_id"] == e.ids(op, j + i)
      {
        InsertedIDs(e, g, col, ns, op, j, n, j + i);
      }
    }
  }

  lemma WrittenSame(e: Env, docs: seq<Record>, ownID: bool)
    ensures WrittenValues(e.ofRecord, WrittenBy(docs, ownID)) == Values(e, docs)
  {
  }

  lemma ManyWritten(e: Env, g: Gen, col: Definition, ns: string, op: Word, docIndex: nat)
    ensures var docs := InsertDocs(e, g, col, ns, op, docIndex, docIndex + e.insertBatch).0;
            var ws := WrittenBy(docs, HasID(col));
            && |ws| == e.insertBatch && WrittenValues(e.ofRecord, ws) == Values(e, docs)
            && Numbered(e.ids, op, docIndex, ws)
  {
    InsertedLength(e, g, col, ns, op, docIndex, docIndex + e.insertBatch);
    DocsNumbered(e, g, col, ns, op, docIndex, docIndex + e.insertBatch);
    WrittenSame(e, InsertDocs(e, g, col, ns, op, docIndex, docIndex + e.insertBatch).0, HasID(col));
  }

  lemma SingleWritten(e: Env, g: Gen, col: Definition, ns: string, op: Word, docIndex: nat)
    ensures var doc := InsertOne(e, g, col, ns, op, docIndex).0;
            var ws := [Written(doc, HasID(col))];
            WrittenValues(e.ofRecord, ws) == [e.ofRecord(doc)] && Numbered(e.ids, op, docIndex, ws)
  {
  }

  lemma NoneWritten(e: Env, g: Gen, col: Definition, ns: string, inner: string)
    requires inner != "insert"
    ensures ValuesIn(TxQuery(e, g, col, ns, inner).0) == []
  {
  }

  /** One step, for what was drawn. */
  lemma DrawnWritten(e: Env, g: Gen, op: Word, docIndex: nat, c: nat, drawn: string, t: Word)
    requires c < |e.cols| && e.cols != [] && c == Draw(e, |e.cols|, g.src).0
    requires (drawn, t) == e.pickOp(Draw(e, |e.cols|, g.src).1)
    ensures var (found, _, j) := TxOne(e, g, op, docIndex);
            var ws := TxWritten(e, g, op, docIndex);
            && j == docIndex + |ws| && ValuesIn(found) == WrittenValues(e.ofRecord, ws)
            && Numbered(e.ids, op, docIndex, ws)
  {
    var col, ns, h := e.cols[c], Namespace(e, e.cols[c]), g.(src := t);
    if drawn == "insert" {
      SingleWritten(e, h, col, ns, op, docIndex);
    } else if drawn == "insertMany" {
      ManyWritten(e, h, col, ns, op, docIndex);
    } else {
      NoneWritten(e, h, col, ns, if drawn == "aggregate" || drawn == "transaction" then "find" else drawn);
    }
  }

  lemma OneWritten(e: Env, g: Gen, op: Word, docIndex: nat)
    requires e.cols != []
    ensures StepWrites(StepOf(e, op), WritesOf(e, op), e.ofRecord, e.ids, op, g, docIndex)
  {
    var (c, s) := Draw(e, |e.cols|, g.src);
    var (drawn, t) := e.pickOp(s);
    DrawnWritten(e, g, op, docIndex, c, drawn, t);
  }

  /** The documents of a transaction of n operations. */
  function TransactionDocs(e: Env, g: Gen, op: Word, n: nat): seq<Written>
    requires e.cols != []
  {
    AllWritten(StepOf(e, op), WritesOf(e, op), g, 0, n)
  }

  lemma TransactionNumbered(e: Env, g: Gen, op: Word, n: nat)
    requires e.cols != []
    ensures Holding(e.ofRecord, TxOps(e, g, op, 0, n).0, TransactionDocs(e, g, op, n))
    ensures Numbered(e.ids, op, 0, TransactionDocs(e, g, op, n))
  {
    forall h, i
      ensures StepWrites(StepOf(e, op), WritesOf(e, op), e.ofRecord, e.ids, op, h, i)
    {
      OneWritten(e, h, op, i);
    }
    TxOpsAreSteps(e, g, op, 0, n);
    StepsWrite(StepOf(e, op), WritesOf(e, op), e.ofRecord, e.ids, op, g, 0, n);
  }

  /**
   The operations of a transaction hold its documents in order, and all of these, in
   whatever collections, have pairwise distinct _ids, apart from those whose definition has
   its own.
   */
  lemma TransactionIDsDistinct(e: Env, g: Gen, op: Word, n: nat, i: nat, k: nat)
    requires ValidEnv(e)
    ensures var ws := TransactionDocs(e, g, op, n);
            && Holding(e.ofRecord, TxOps(e, g, op, 0, n).0, ws)
            && (i < k < |ws| <= WORD && !ws[i].ownID && !ws[k].ownID ==>
                  "_id" in ws[i].doc && "_id" in ws[k].doc && ws[i].doc["_id"] != ws[k].doc["_id"])
  {
    TransactionNumbered(e, g, op, n);
    if i < k < WORD {
      DerivedIDs(e, op, op, i, k);
    }
  }

  function MultipleNamespace(e: Env): string
    requires e.cols != []
  {
    (if e.db.Some? then e.db.value else e.cols[0].database) + ".(multiple)"
  }

  function TransactionOp(e: Env, g: Gen, op: Word): (Op, Gen)
    requires e.cols != []
  {
    var (n, s) := Draw(e, if e.maxTxOps > 1 then e.maxTxOps else 1, g.src);
    var (ops, g') := TxOps(e, g.(src := s), op, 0, n + 1);
    (Op(MultipleNamespace(e), "transaction", Args(TransactionCommand(e.db, ops))), g')
  }

  // -------------------------------------------------------------------- operations

  function Jitter(e: Env, src: Word): Word { if e.jitter > 0 then Draw(e, e.jitter + 1, src).1 else src }

  function ChosenOp(e: Env, g: Gen, col: Definition, opType: string, op: Word): (Op, Gen)
    requires ValidEnv(e)
  {
    var ns, first := Namespace(e, col), e.optimized && col.name == e.cols[0].name;
    if first && (opType == "insert" || opType == "insertMany") then FastInsertOp(e, g, col, ns, op)
    else if first && opType == "find" then FastFindOp(e, g, col, ns)
    else StandardOp(e, g, col, ns, opType, op)
  }

  /** The collection and type an operation draws first, and the stream after it. */
  function DrawOp(e: Env, op: Word): (r: (nat, string, Word))
    requires e.cols != []
    ensures r.0 < |e.cols|
  {
    var (c, s) := Draw(e, |e.cols|, Jitter(e, e.opSeed(op)));
    var (opType, t) := e.pickOp(s);
    (c, opType, t)
  }

  /** Operation number op after the worker's own documents so far. */
  function Generate(e: Env, own: Own, op: Word): (Op, Gen)
    requires ValidEnv(e)
  {
    var (c, opType, s) := DrawOp(e, op);
    if opType == "transaction" && e.useTransactions then TransactionOp(e, Gen(s, own), op)
    else ChosenOp(e, Gen(s, own), e.cols[c], if opType == "transaction" then "find" else opType, op)
  }

  /** The next operation and the documents owned then, from those owned so far and the operation number. */
  type Generator = (Own, Word) -> (Op, Own)

  function GeneratorOf(e: Env): Generator
    requires ValidEnv(e)
  {
    (own: Own, op: Word) => (Generate(e, own, op).0, Generate(e, own, op).1.own)
  }

  /** The first n operations of a worker and the documents it then owns. */
  function Traffic(gen: Generator, n: nat): (seq<Op>, Own)
  {
    if n == 0 then ([], map[])
    else
      var (ops, own) := Traffic(gen, n - 1);
      var (op, next) := gen(own, n % WORD);
      (ops + [op], next)
  }

  /** The operations that are sent. */
  function Sent(ops: seq<Op>): seq<Op>
  {
    if ops == [] then []
    else Sent(ops[..|ops| - 1]) + if ops[|ops| - 1].Skip? then [] else [ops[|ops| - 1]]
  }
}
