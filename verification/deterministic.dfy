/**
 The deterministic worker itself (detWorker and deterministicWorker in
 internal/mongo/workload_deterministic.go), with its random stream, its own documents and
 its cache, proved to generate the operations of TrafficSpec.
 */
module Deterministic {
  import opened Wrappers
  import opened CommandCodec
  import opened Transactions
  import opened SeededCache
  import opened Mix64
  import opened TrafficSpec

  // ------------------------------------------------------- loops one step at a time

  /** What was done so far and what is left make up the whole. */
  ghost predicate Joins<T>(done: seq<T>, rest: (seq<T>, Gen), whole: (seq<T>, Gen))
  {
    done + rest.0 == whole.0 && rest.1 == whole.1
  }

  lemma InsertDocsNext(e: Env, g: Gen, col: Definition, ns: string, op: Word, j: nat, n: nat, docs: seq<Record>,
        whole: (seq<Record>, Gen))
    requires j < n && Joins(docs, InsertDocs(e, g, col, ns, op, j, n), whole)
    ensures var (doc, g') := InsertOne(e, g, col, ns, op, j);
        Joins(docs + [doc], InsertDocs(e, g', col, ns, op, j + 1, n), whole)
  {
    var (doc, g') := InsertOne(e, g, col, ns, op, j);
    var (rest, g'') := InsertDocs(e, g', col, ns, op, j + 1, n);
    assert docs + ([doc] + rest) == docs + [doc] + rest;
  }

  lemma PickIDsNext(e: Env, g: Gen, col: Definition, ns: string, ids: seq<Int64>, batch: nat, tries: nat,
        rec: Option<Record>, s: Word)
    requires |ids| < batch && tries < 2 * batch && (rec, s) == PickExisting(e, g, col, ns)
    ensures PickIDs(e, g, col, ns, ids, batch, tries) ==
            if rec.None? then (ids, s)
            else
              var id := RecordedID(rec.value, e.patchKey);
              PickIDs(e, g.(src := s), col, ns, if id.Some? then ids + [id.value] else ids, batch, tries + 1)
  {
  }

  lemma PickIDsDone(e: Env, g: Gen, col: Definition, ns: string, ids: seq<Int64>, batch: nat, tries: nat)
    requires |ids| >= batch || tries >= 2 * batch
    ensures PickIDs(e, g, col, ns, ids, batch, tries) == (ids, g.src)
  {
  }

  lemma TxOpsNext(e: Env, g: Gen, op: Word, docIndex: nat, left: nat, ops: seq<TxOp>, whole: (seq<TxOp>, Gen),
        t: Option<TxOp>, g': Gen, next: nat)
    requires e.cols != [] && left > 0 && Joins(ops, TxOps(e, g, op, docIndex, left), whole)
    requires (t, g', next) == TxOne(e, g, op, docIndex)
    ensures Joins(if t.Some? then ops + [t.value] else ops, TxOps(e, g', op, next, left - 1), whole)
  {
    TxOpsUnfold(e, g, op, docIndex, left, t, g', next);
    JoinsNext(ops, if t.Some? then [t.value] else [], TxOps(e, g', op, next, left - 1), whole);
  }

  lemma JoinsNext<T>(done: seq<T>, own: seq<T>, rest: (seq<T>, Gen), whole: (seq<T>, Gen))
    requires Joins(done, (own + rest.0, rest.1), whole)
    ensures Joins(done + own, rest, whole)
  {
    assert done + (own + rest.0) == done + own + rest.0;
  }

  lemma InsertDocsDone(e: Env, g: Gen, col: Definition, ns: string, op: Word, n: nat, docs: seq<Record>,
        whole: (seq<Record>, Gen))
    requires Joins(docs, InsertDocs(e, g, col, ns, op, n, n), whole)
    ensures (docs, g) == whole
  {
    assert docs + [] == docs;
  }

  lemma TxOpsDone(e: Env, g: Gen, op: Word, docIndex: nat, ops: seq<TxOp>, whole: (seq<TxOp>, Gen))
    requires e.cols != [] && Joins(ops, TxOps(e, g, op, docIndex, 0), whole)
    ensures (ops, g) == whole
  {
    assert ops + [] == ops;
  }

  class DetWorker {
    const e: Env
    var src: Word
    var own: Own
    var cache: Cache

    constructor (e: Env)
      requires ValidEnv(e) && Agree(e.seeding, e.cols, e.seeded)
      ensures this.e == e && Cached() && own == map[]
    {
      this.e, src, own, cache := e, 0, map[], map[];
    }

    /** The cache holds what would be generated, and no more than its bound. */
    ghost predicate Cached()
      reads `cache
    {
      Agree(e.seeding, e.cols, e.seeded) && Faithful(e.seeding, e.cols, e.seeded, cache) && |cache| <= CACHE_MAX
    }

    ghost function State(): Gen
      reads this
    {
      Gen(src, own)
    }

    method Roll(n: nat) returns (r: nat)
      requires ValidEnv(e) && n > 0
      modifies `src
      ensures (r, src) == Draw(e, n, old(src)) && r < n
    {
      r, src := Draw(e, n, src).0, Draw(e, n, src).1;
    }

    /** The k-th seeded document, from the cache when it is there. */
    method SeededDoc(col: Definition, k: nat) returns (doc: Record)
      requires ValidEnv(e) && Cached() && col in e.cols && k < e.seeded
      modifies `cache
      ensures Cached() && doc == Seeded(e.seeding, col, k)
    {
      LookupFaithful(e.seeding, e.cols, e.seeded, cache, col, k);
      var key := CacheKey(col, k);
      if key in cache {
        return cache[key];
      }
      doc := e.seeding.generate(col, k);
      if e.seeding.ids {
        if "_id" !in doc {
          doc := doc["_id" := e.seeding.idOf(SeedNamespace(col), k)];
        }
      }
      if |cache| >= CACHE_MAX {
        cache := map[];
      }
      cache := cache[key := doc];
    }

    /** The access pattern's index, or a uniform one when that is out of range. */
    method ChooseIndex(n: nat) returns (i: nat)
      requires ValidEnv(e) && n > 0
      modifies `src
      ensures (i, src) == PickIndex(e, n, old(src)) && i < n
    {
      var r := e.index(n, src);
      src := r.1;
      if r.0 < 0 || r.0 >= n {
        i := Roll(n);
      } else {
        i := r.0;
      }
    }

    method Pick(col: Definition, ns: string) returns (rec: Option<Record>)
      requires ValidEnv(e) && Cached() && col in e.cols
      modifies `src, `cache
      ensures Cached() && (rec, src) == PickExisting(e, old(State()), col, ns)
    {
      var mine := OwnOf(own, ns);
      var n := e.seeded + |mine|;
      if n == 0 {
        return None;
      }
      var i := ChooseIndex(n);
      if i < e.seeded {
        var doc := SeededDoc(col, i);
        return Some(doc);
      }
      return Some(mine[i - e.seeded]);
    }

    method Remember(ns: string, doc: Record)
      requires ValidEnv(e)
      modifies `own
      ensures own == AddOwn(old(own), ns, doc, e.maxOwn)
    {
      var list := OwnOf(own, ns) + [doc];
      var over := |list| - e.maxOwn;
      if over > 0 {
        list := list[over..];
      }
      own := own[ns := list];
    }

    method Fill(v: Value, col: Definition, ns: string) returns (filled: Value)
      requires ValidEnv(e) && Cached() && col in e.cols
      modifies `src, `cache
      ensures Cached() && (filled, src) == FillPlaceholders(e, old(State()), v, col, ns)
    {
      var rec := None;
      if e.hitRate > 0 {
        var roll := Roll(100);
        if roll < e.hitRate {
          rec := Pick(col, ns);
        }
      }
      filled, src := e.fill(v, rec, src).0, e.fill(v, rec, src).1;
    }

    method Insert(col: Definition, ns: string, op: Word, j: nat) returns (doc: Record)
      requires ValidEnv(e)
      modifies `src, `own
      ensures (doc, State()) == InsertOne(e, old(State()), col, ns, op, j)
    {
      doc, src := e.generate(col, src).0, e.generate(col, src).1;
      if !HasID(col) {
        doc := doc["_id" := e.ids(op, j)];
      }
      Remember(ns, doc);
    }

    /** One more document; whole is what inserting from here on adds to. */
    method InsertNext(col: Definition, ns: string, op: Word, j: nat, to: nat, before: seq<Record>,
          ghost whole: (seq<Record>, Gen))
      returns (docs: seq<Record>)
      requires ValidEnv(e) && j < to && Joins(before, InsertDocs(e, State(), col, ns, op, j, to), whole)
      modifies `src, `own
      ensures Joins(docs, InsertDocs(e, State(), col, ns, op, j + 1, to), whole)
    {
      InsertDocsNext(e, State(), col, ns, op, j, to, before, whole);
      var doc := Insert(col, ns, op, j);
      docs := before + [doc];
    }

    method InsertMany(col: Definition, ns: string, op: Word, from: nat, to: nat) returns (docs: seq<Record>)
      requires ValidEnv(e) && from <= to
      modifies `src, `own
      ensures (docs, State()) == InsertDocs(e, old(State()), col, ns, op, from, to)
    {
      docs := [];
      ghost var whole := InsertDocs(e, State(), col, ns, op, from, to);
      for j := from to to
        invariant Joins(docs, InsertDocs(e, State(), col, ns, op, j, to), whole)
      {
        docs := InsertNext(col, ns, op, j, to, docs, whole);
      }
      InsertDocsDone(e, State(), col, ns, op, to, docs, whole);
    }

    /** A query operation; it is skipped when no query is found. */
    method GenerateQuery(col: Definition, ns: string, opType: string) returns (r: Op)
      requires ValidEnv(e) && Cached() && col in e.cols
      modifies `src, `cache
      ensures Cached() && (r, State()) == QueryOp(e, old(State()), col, ns, opType)
    {
      var found := e.query(opType, col, src);
      src := found.1;
      if found.0.None? {
        return Skip;
      }
      var q := found.0.value;
      var req := RequestOf(e, opType, q);
      if opType != "aggregate" {
        var filter := Fill(q.filter, col, ns);
        req := req.(filter := Canonical(e, filter));
      } else if q.pipeline.Some? {
        var p := Fill(q.pipeline.value, col, ns);
        req := req.(pipeline := e.canonical(p));
      }
      return Op(ns, opType, Args(StandardCommand(req)));
    }

    method GenerateStandard(col: Definition, ns: string, opType: string, op: Word) returns (r: Op)
      requires ValidEnv(e) && Cached() && col in e.cols
      modifies this
      ensures Cached() && (r, State()) == StandardOp(e, old(State()), col, ns, opType, op)
    {
      if opType == "insert" {
        var doc := Insert(col, ns, op, 0);
        return Op(ns, opType, Args(StandardCommand(Blank(opType).(doc := e.ofRecord(doc)))));
      } else if opType == "insertMany" {
        var docs := InsertMany(col, ns, op, 0, e.insertBatch);
        return Op(ns, opType, Args(StandardCommand(Blank(opType).(docs := Some(Values(e, docs))))));
      } else if opType in QUERY_OPS {
        r := GenerateQuery(col, ns, opType);
      } else {
        return Skip;
      }
    }

    method GenerateFastInsert(col: Definition, ns: string, op: Word) returns (r: Op)
      requires ValidEnv(e) && e.optimized
      modifies `src, `own
      ensures (r, State()) == FastInsertOp(e, old(State()), col, ns, op)
    {
      var b := Roll(|e.pool|);
      var n := |e.pool[b].docs|;
      var base := BatchBase(e, op, n);
      ghost var whole := AddPatched(e, own, ns, base, 0, n);
      for j := 0 to n
        invariant src == Draw(e, |e.pool|, old(src)).1
        invariant AddPatched(e, own, ns, base, j, n) == whole
      {
        Remember(ns, map[e.patchKey := PatchedID(base, j)]);
      }
      return Op(ns, "insertMany", Batch(e.pool[b], base, e.patchKey != "_id" && !HasID(col)));
    }

    /** One try: whole is what all tries from here on give. */
    method PickOneID(col: Definition, ns: string, before: seq<Int64>, batch: nat, tries: nat,
          ghost whole: (seq<Int64>, Word))
      returns (ids: seq<Int64>, done: bool)
      requires ValidEnv(e) && Cached() && col in e.cols && |before| < batch && tries < 2 * batch
      requires PickIDs(e, State(), col, ns, before, batch, tries) == whole
      modifies `src, `cache
      ensures Cached()
      ensures if done then (ids, src) == whole else PickIDs(e, State(), col, ns, ids, batch, tries + 1) == whole
    {
      ghost var g := State();
      var rec := Pick(col, ns);
      PickIDsNext(e, g, col, ns, before, batch, tries, rec, src);
      if rec.None? {
        return before, true;
      }
      var id := RecordedID(rec.value, e.patchKey);
      return if id.Some? then before + [id.value] else before, false;
    }

    method PickRecordedIDs(col: Definition, ns: string, batch: nat) returns (ids: seq<Int64>)
      requires ValidEnv(e) && Cached() && col in e.cols
      modifies `src, `cache
      ensures Cached() && (ids, src) == PickIDs(e, old(State()), col, ns, [], batch, 0)
    {
      ids := [];
      var tries := 0;
      ghost var whole := PickIDs(e, State(), col, ns, [], batch, 0);
      while |ids| < batch && tries < 2 * batch
        invariant Cached() && tries <= 2 * batch
        invariant PickIDs(e, State(), col, ns, ids, batch, tries) == whole
        decreases 2 * batch - tries
      {
        var done;
        ids, done := PickOneID(col, ns, ids, batch, tries, whole);
        if done {
          return;
        }
        tries := tries + 1;
      }
      PickIDsDone(e, State(), col, ns, ids, batch, tries);
    }

    method GenerateFastFind(col: Definition, ns: string) returns (r: Op)
      requires ValidEnv(e) && Cached() && col in e.cols
      modifies `src, `cache
      ensures Cached() && (r, State()) == FastFindOp(e, old(State()), col, ns)
    {
      var batch := FastBatchSize(e);
      var ids: seq<Int64> := [];
      if e.seeded + |OwnOf(own, ns)| > 0 {
        var roll := Roll(100);
        if roll < e.hitRate {
          ids := PickRecordedIDs(col, ns, batch);
        }
      }
      assert (ids, src) == PooledIDs(e, old(State()), col, ns);
      ghost var whole := RandomIDs(e, src, ids, batch);
      while |ids| < batch
        invariant Cached() && own == old(own)
        invariant RandomIDs(e, src, ids, batch) == whole
        decreases batch - |ids|
      {
        var w := Roll(e.concurrency);
        var n := Roll(10000000);
        ids := ids + [Signed((w * 100000000 + n) % WORD)];
      }
      return Op(ns, "find", Args(FastFindRecord(col.name, e.patchKey, ids, Signed(batch % WORD))));
    }

    method GenerateInnerQuery(col: Definition, ns: string, inner: string) returns (t: Option<TxOp>)
      requires ValidEnv(e) && Cached() && col in e.cols
      modifies `src, `cache
      ensures Cached() && (t, State()) == TxQuery(e, old(State()), col, ns, inner)
    {
      var found := e.query(inner, col, src);
      src := found.1;
      if found.0.None? {
        return None;
      }
      var q := found.0.value;
      var filter := Fill(q.filter, col, ns);
      return Some(TxBlank(inner, col).(filter := Canonical(e, filter), update := Canonical(e, q.update),
        upsert := q.upsert));
    }

    /** One operation inside a transaction. */
    method GenerateInner(op: Word, docIndex: nat) returns (t: Option<TxOp>, next: nat)
      requires ValidEnv(e) && Cached()
      modifies this
      ensures Cached() && (t, State(), next) == TxOne(e, old(State()), op, docIndex)
    {
      var c := Roll(|e.cols|);
      var col := e.cols[c];
      var drawn := e.pickOp(src);
      src := drawn.1;
      var inner := drawn.0;
      if inner == "aggregate" || inner == "transaction" {
        inner := "find";
      }
      var ns := Namespace(e, col);
      next := docIndex;
      if inner == "insert" {
        var doc := Insert(col, ns, op, docIndex);
        return Some(TxBlank(inner, col).(doc := e.ofRecord(doc))), docIndex + 1;
      } else if inner == "insertMany" {
        var docs := InsertMany(col, ns, op, docIndex, docIndex + e.insertBatch);
        return Some(TxBlank(inner, col).(docs := Some(Values(e, docs)))), docIndex + e.insertBatch;
      }
      t := GenerateInnerQuery(col, ns, inner);
    }

    method GenerateInners(op: Word, count: nat) returns (ops: seq<TxOp>)
      requires ValidEnv(e) && Cached()
      modifies this
      ensures Cached() && (ops, State()) == TxOps(e, old(State()), op, 0, count)
    {
      var docIndex := 0;
      ops := [];
      ghost var g, whole := State(), TxOps(e, State(), op, 0, count);
      for i := 0 to count
        invariant Cached() && g == State() && Joins(ops, TxOps(e, g, op, docIndex, count - i), whole)
      {
        var t, next := GenerateInner(op, docIndex);
        TxOpsNext(e, g, op, docIndex, count - i, ops, whole, t, State(), next);
        g := State();
        docIndex := next;
        if t.Some? {
          ops := ops + [t.value];
        }
      }
      TxOpsDone(e, g, op, docIndex, ops, whole);
    }

    method GenerateTransaction(op: Word) returns (r: Op)
      requires ValidEnv(e) && Cached()
      modifies this
      ensures Cached() && (r, State()) == TransactionOp(e, old(State()), op)
    {
      var n := Roll(if e.maxTxOps > 1 then e.maxTxOps else 1);
      var ops := GenerateInners(op, n + 1);
      return Op(MultipleNamespace(e), "transaction", Args(TransactionCommand(e.db, ops)));
    }

    /** Reseeds the stream and draws the operation's collection and type. */
    method Choose(op: Word) returns (c: nat, opType: string)
      requires ValidEnv(e)
      modifies `src
      ensures (c, opType, src) == DrawOp(e, op) && c < |e.cols|
    {
      src := e.opSeed(op);
      if e.jitter > 0 {
        var pause := Roll(e.jitter + 1);
      }
      c := Roll(|e.cols|);
      opType, src := e.pickOp(src).0, e.pickOp(src).1;
    }

    /** Operation number op, from its derived random stream alone. */
    method GenerateOp(op: Word) returns (r: Op)
      requires ValidEnv(e) && Cached()
      modifies this
      ensures Cached() && r == Generate(e, old(own), op).0 && own == Generate(e, old(own), op).1.own
    {
      var c, opType := Choose(op);
      if opType == "transaction" {
        if e.useTransactions {
          r := GenerateTransaction(op);
          return;
        }
        opType := "find";
      }
      r := GenerateChosen(e.cols[c], opType, op);
    }

    method GenerateChosen(col: Definition, opType: string, op: Word) returns (r: Op)
      requires ValidEnv(e) && Cached() && col in e.cols
      modifies this
      ensures Cached() && (r, State()) == ChosenOp(e, old(State()), col, opType, op)
    {
      var ns := Namespace(e, col);
      if e.optimized && col.name == e.cols[0].name && (opType == "insert" || opType == "insertMany") {
        r := GenerateFastInsert(col, ns, op);
      } else if e.optimized && col.name == e.cols[0].name && opType == "find" {
        r := GenerateFastFind(col, ns);
      } else {
        r := GenerateStandard(col, ns, opType, op);
      }
    }
  }

  // ------------------------------------------------------------------ whole runs

  /**
   A worker's part of the traffic fingerprint, everything it sent, and the outcome of each
   operation that was sent. There is no record pool in this mode (internal/mongo/runner.go:1372),
   so an execution changes nothing but what is reported.
   */
  datatype Stream = Stream(generated: nat, sent: seq<Op>, answers: seq<bool>, hashed: seq<Op>, completed: bool)

  /** The operations sent among the first n. */
  function SentOf(gen: Generator, n: nat): seq<Op> { Sent(Traffic(gen, n).0) }

  /** What was sent and hashed, whenever and however the run ended; the last generated operation may be unsent. */
  ghost predicate StreamOf(gen: Generator, budget: nat, st: Stream)
  {
    && (st.sent == SentOf(gen, st.generated) || (st.generated > 0 && st.sent == SentOf(gen, st.generated - 1)))
    && st.hashed <= SentOf(gen, budget) && st.hashed <= st.sent
    && (st.completed ==> st.hashed == SentOf(gen, budget))
    && |st.answers| == |st.sent|
  }

  lemma SentNext(gen: Generator, n: nat)
    requires n > 0
    ensures var op := gen(Traffic(gen, n - 1).1, n % WORD).0;
            SentOf(gen, n) == SentOf(gen, n - 1) + if op.Skip? then [] else [op]
  {
    var ops, op := Traffic(gen, n - 1).0, gen(Traffic(gen, n - 1).1, n % WORD).0;
    assert Traffic(gen, n).0 == ops + [op];
    assert (ops + [op])[..|ops|] == ops;
  }

  lemma {:induction false} SentPrefix(gen: Generator, m: nat, n: nat)
    requires m <= n
    ensures SentOf(gen, m) <= SentOf(gen, n)
  {
    if m < n {
      SentPrefix(gen, m, n - 1);
      SentNext(gen, n);
    }
  }

  /** Where a pass stands: everything generated so far was sent or skipped. */
  ghost predicate Running(gen: Generator, budget: nat, own: Own, st: Stream, passed: nat)
  {
    && own == Traffic(gen, st.generated).1
    && st.sent == SentOf(gen, st.generated) && |st.answers| == |st.sent|
    && (if passed == 0 then st.hashed == st.sent && !st.completed && st.generated <= budget
        else st.hashed == SentOf(gen, budget) && st.completed && st.generated >= budget)
  }

  lemma RunningStream(gen: Generator, budget: nat, own: Own, st: Stream, passed: nat)
    requires Running(gen, budget, own, st, passed)
    ensures StreamOf(gen, budget, st)
  {
    if passed == 0 {
      SentPrefix(gen, st.generated, budget);
    } else {
      SentPrefix(gen, budget, st.generated);
    }
  }

  /** gen is how this configuration generates. */
  ghost predicate Generates(gen: Generator, e: Env) {
    ValidEnv(e) && forall own, op {:trigger GeneratesAt(gen, e, own, op)} :: GeneratesAt(gen, e, own, op)
  }

  ghost predicate GeneratesAt(gen: Generator, e: Env, own: Own, op: Word)
    requires ValidEnv(e)
  {
    gen(own, op) == (Generate(e, own, op).0, Generate(e, own, op).1.own)
  }

  method NextOp(w: DetWorker, op: Word, ghost gen: Generator) returns (r: Op)
    requires Generates(gen, w.e) && w.Cached()
    modifies w
    ensures w.Cached() && (r, w.own) == gen(old(w.own), op)
  {
    assert GeneratesAt(gen, w.e, w.own, op);
    r := w.GenerateOp(op);
  }

  /** A worker between two operations. */
  ghost predicate Going(w: DetWorker, gen: Generator, st: Stream, passed: nat)
    reads w
  {
    w.Cached() && Running(gen, w.e.budget, w.own, st, passed)
  }

  /** The stream once op was sent and answered. */
  function AfterSending(st: Stream, passed: nat, op: Op, ok: bool): Stream
  {
    st.(hashed := if passed == 0 then st.hashed + [op]
      else st.hashed, sent := st.sent + [op], answers := st.answers + [ok])
  }

  /** The next operation of a running worker, skipped, sent or left unsent. */
  lemma NextStream(gen: Generator, budget: nat, own: Own, st: Stream, passed: nat, op: Op, after: Own, ok: bool)
    requires Running(gen, budget, own, st, passed) && (passed == 0 ==> st.generated < budget)
    requires (op, after) == gen(own, (st.generated + 1) % WORD)
    ensures var next := st.(generated := st.generated + 1);
            && StreamOf(gen, budget, next)
            && Running(gen, budget, after, if op.Skip? then next else AfterSending(next, passed, op, ok), passed)
  {
    RunningStream(gen, budget, own, st, passed);
    SentNext(gen, st.generated + 1);
  }

  datatype Progress = Ended | SkippedOp | SentOp

  /** Generates the next operation, and sends it unless it is skipped or the run ends first. */
  method Step(w: DetWorker, st: Stream, passed: nat, pauseEnds: bool, sendEnds: bool, ok: bool, ghost gen: Generator)
    returns (next: Stream, progress: Progress)
    requires Generates(gen, w.e) && Going(w, gen, st, passed)
    requires passed == 0 ==> st.generated < w.e.budget
    modifies w
    ensures next.generated == st.generated + 1 && (progress.SentOp? ==> !sendEnds)
    ensures next.answers == if progress.SentOp? then st.answers + [ok] else st.answers
    ensures if progress.Ended? then StreamOf(gen, w.e.budget, next) else Going(w, gen, next, passed)
  {
    ghost var before := w.own;
    var op := NextOp(w, (st.generated + 1) % WORD, gen);
    NextStream(gen, w.e.budget, before, st, passed, op, w.own, ok);
    next := st.(generated := st.generated + 1);
    if pauseEnds || (!op.Skip? && sendEnds) {
      return next, Ended;
    }
    if op.Skip? {
      return next, SkippedOp;
    }
    return AfterSending(next, passed, op, ok), SentOp;
  }

  /**
   One pass over the worker's operations: left is how often the run's context will still be
   found live, pauses says in which pauses it ends, outcomes what the server answered.
   */
  method RunPass(w: DetWorker, before: Stream, passed: nat, checks: nat, pauses: nat -> bool, outcomes: nat -> bool,
        ghost gen: Generator)
    returns (st: Stream, left: nat, ended: bool)
    requires Generates(gen, w.e) && Going(w, gen, before, passed) && before.generated == passed * w.e.budget
    modifies w
    ensures left <= checks
    ensures if ended then StreamOf(gen, w.e.budget, st)
        else Going(w, gen, st, passed) && st.generated == (passed + 1) * w.e.budget
  {
    st, left, ended := before, checks, true;
    for s := 0 to w.e.budget
      invariant Going(w, gen, st, passed) && st.generated == passed * w.e.budget + s && left <= checks
    {
      if left == 0 {
        RunningStream(gen, w.e.budget, w.own, st, passed);
        return;
      }
      left := left - 1;
      var progress;
      st, progress := Step(w, st, passed, pauses(st.generated), left == 0, outcomes(st.generated), gen);
      if progress.Ended? {
        return;
      }
      if progress.SentOp? {
        left := left - 1;
      }
    }
    ended := false;
  }

  /** deterministicWorker: passes over the same workload until the run's context ends. */
  method RunPasses(w: DetWorker, checks: nat, pauses: nat -> bool, outcomes: nat -> bool, ghost gen: Generator)
    returns (st: Stream)
    requires Generates(gen, w.e) && w.Cached() && w.own == map[]
    modifies w
    ensures StreamOf(gen, w.e.budget, st)
  {
    st := Stream(0, [], [], [], false);
    if w.e.budget == 0 {
      return;
    }
    var passed, left, ended := 0, checks, false;
    while left > 0
      invariant Going(w, gen, st, passed) && st.generated == passed * w.e.budget
      decreases left
    {
      st, left, ended := RunPass(w, st, passed, left - 1, pauses, outcomes, gen);
      if ended {
        return;
      }
      st := st.(completed := true);
      passed := passed + 1;
    }
    RunningStream(gen, w.e.budget, w.own, st, passed);
  }

  /** Whatever the server answers and whenever the run ends, a prepared worker sends the traffic of its environment. */
  method RunWorker(w: DetWorker, checks: nat, pauses: nat -> bool, outcomes: nat -> bool) returns (st: Stream)
    requires ValidEnv(w.e) && w.Cached() && w.own == map[]
    modifies w
    ensures StreamOf(GeneratorOf(w.e), w.e.budget, st)
  {
    ghost var gen := GeneratorOf(w.e);
    forall own, op
      ensures GeneratesAt(gen, w.e, own, op)
    {
    }
    st := RunPasses(w, checks, pauses, outcomes, gen);
  }

  /** Two runs of one generator send the same commands as far as both got, and hash the same when complete. */
  lemma StreamsAgree(gen: Generator, budget: nat, s: Stream, t: Stream)
    requires StreamOf(gen, budget, s) && StreamOf(gen, budget, t)
    ensures s.sent <= t.sent || t.sent <= s.sent
    ensures s.completed && t.completed ==> s.hashed == t.hashed
  {
    var m := if s.sent == SentOf(gen, s.generated) then s.generated else s.generated - 1;
    var n := if t.sent == SentOf(gen, t.generated) then t.generated else t.generated - 1;
    if m <= n {
      SentPrefix(gen, m, n);
    } else {
      SentPrefix(gen, n, m);
    }
  }
}
