/**
 What a generated operation sends (generate, generateFastInsert, generateFastFind and
 addOwn in internal/mongo/workload_deterministic.go), said of the command itself: the
 documents it holds and the worker remembers, and the parts of the query that was found.
 */
module GeneratedOperations {
  import opened Wrappers
  import opened CommandCodec
  import opened Transactions
  import opened SeededCache
  import opened Mix64
  import opened TrafficSpec

  // ------------------------------------------------------ what a worker remembers

  /** How many elements of a list are too many. */
  function Over(size: nat, n: nat): (k: nat)
    ensures k <= size
  {
    if size > n then size - n else 0
  }

  function LastOf<T>(s: seq<T>, n: nat): seq<T> { s[Over(|s|, n)..] }

  /** The documents are the last of their namespace, of which maxOwn are kept; others stay as they were. */
  ghost predicate Remembered(before: Own, after: Own, ns: string, docs: seq<Record>, maxOwn: nat)
  {
    && OwnOf(after, ns) == LastOf(OwnOf(before, ns) + docs, maxOwn)
    && forall o :: o != ns ==> OwnOf(after, o) == OwnOf(before, o)
  }

  ghost predicate Bounded(own: Own, maxOwn: nat) { forall ns :: |OwnOf(own, ns)| <= maxOwn }

  lemma RememberedBounded(before: Own, after: Own, ns: string, docs: seq<Record>, maxOwn: nat)
    requires Bounded(before, maxOwn) && Remembered(before, after, ns, docs, maxOwn)
    ensures Bounded(after, maxOwn)
  {
    forall o
      ensures |OwnOf(after, o)| <= maxOwn
    {
      assert |OwnOf(before, o)| <= maxOwn;
    }
  }

  lemma DropTwice<T>(s: seq<T>, i: nat, j: nat)
    requires i + j <= |s|
    ensures s[i..][j..] == s[i + j..]
  {
  }

  lemma DropJoined<T>(t: seq<T>, b: seq<T>, i: nat)
    requires i <= |t|
    ensures t[i..] + b == (t + b)[i..]
  {
  }

  lemma LastAgain<T>(t: seq<T>, b: seq<T>, n: nat)
    ensures LastOf(LastOf(t, n) + b, n) == LastOf(t + b, n)
  {
    var k := Over(|t|, n);
    DropJoined(t, b, k);
    DropTwice(t + b, k, Over(|t| - k + |b|, n));
  }

  lemma LastTwice<T>(s: seq<T>, a: seq<T>, b: seq<T>, n: nat)
    ensures LastOf(LastOf(s + a, n) + b, n) == LastOf(s + (a + b), n)
  {
    LastAgain(s + a, b, n);
    assert s + a + b == s + (a + b);
  }

  lemma RememberedOne(own: Own, ns: string, doc: Record, maxOwn: nat)
    ensures Remembered(own, AddOwn(own, ns, doc, maxOwn), ns, [doc], maxOwn)
  {
  }

  lemma RememberedNone(own: Own, ns: string, maxOwn: nat)
    requires Bounded(own, maxOwn)
    ensures Remembered(own, own, ns, [], maxOwn)
  {
    assert OwnOf(own, ns) + [] == OwnOf(own, ns);
  }

  lemma RememberedBoth(a: Own, b: Own, c: Own, ns: string, docs: seq<Record>, more: seq<Record>, maxOwn: nat)
    requires Remembered(a, b, ns, docs, maxOwn) && Remembered(b, c, ns, more, maxOwn)
    ensures Remembered(a, c, ns, docs + more, maxOwn)
  {
    LastTwice(OwnOf(a, ns), docs, more, maxOwn);
  }

  // -------------------------------------------------------------- inserted documents

  /** Document j is what the generator gives at this place of the stream, with an _id derived from its number. */
  ghost predicate DrawnAt(e: Env, col: Definition, op: Word, first: nat, docs: seq<Record>, srcs: seq<Word>, j: nat)
    requires j < |docs| && |srcs| == |docs| + 1
  {
    var (doc, s) := e.generate(col, srcs[j]);
    srcs[j + 1] == s && docs[j] == if "_id" in col.fields then doc else doc["_id" := e.ids(op, first + j)]
  }

  /** The documents are drawn one after the other; srcs are the states of the stream in between. */
  ghost predicate Drawn(e: Env, col: Definition, op: Word, first: nat, src: Word, docs: seq<Record>, srcs: seq<Word>,
        after: Word)
  {
    && |srcs| == |docs| + 1 && srcs[0] == src && srcs[|docs|] == after
    && forall j :: 0 <= j < |docs| ==> DrawnAt(e, col, op, first, docs, srcs, j)
  }

  lemma DrawnNext(e: Env, col: Definition, op: Word, first: nat, src: Word, doc: Record, next: Word, docs: seq<Record>,
        srcs: seq<Word>, after: Word)
    requires Drawn(e, col, op, first + 1, next, docs, srcs, after)
    requires DrawnAt(e, col, op, first, [doc], [src, next], 0)
    ensures Drawn(e, col, op, first, src, [doc] + docs, [src] + srcs, after)
  {
    var all, states := [doc] + docs, [src] + srcs;
    forall j | 0 <= j < |all|
      ensures DrawnAt(e, col, op, first, all, states, j)
    {
      if j > 0 {
        assert all[j] == docs[j - 1] && states[j] == srcs[j - 1] && states[j + 1] == srcs[j];
        assert DrawnAt(e, col, op, first + 1, docs, srcs, j - 1);
        assert first + 1 + (j - 1) == first + j;
      }
    }
  }

  lemma {:induction false} DocsDrawn(e: Env, g: Gen, col: Definition, ns: string, op: Word, j: nat, n: nat)
    returns (srcs: seq<Word>)
    requires j <= n && Bounded(g.own, e.maxOwn)
    ensures var (docs, after) := InsertDocs(e, g, col, ns, op, j, n);
            && |docs| == n - j && Drawn(e, col, op, j, g.src, docs, srcs, after.src)
            && Remembered(g.own, after.own, ns, docs, e.maxOwn)
    decreases n - j
  {
    if j == n {
      srcs := [g.src];
      RememberedNone(g.own, ns, e.maxOwn);
    } else {
      var (doc, next) := InsertOne(e, g, col, ns, op, j);
      RememberedOne(g.own, ns, doc, e.maxOwn);
      RememberedBounded(g.own, next.own, ns, [doc], e.maxOwn);
      var rest := DocsDrawn(e, next, col, ns, op, j + 1, n);
      var (docs, after) := InsertDocs(e, next, col, ns, op, j + 1, n);
      DrawnNext(e, col, op, j, g.src, doc, next.src, docs, rest, after.src);
      RememberedBoth(g.own, next.own, after.own, ns, [doc], docs, e.maxOwn);
      srcs := [g.src] + rest;
    }
  }

  predicate IDsDiffer(d: Record, e: Record) { "_id" in d && "_id" in e && d["_id"] != e["_id"] }

  ghost predicate DistinctIDs(docs: seq<Record>)
  {
    forall i, k :: 0 <= i < k < |docs| ==> IDsDiffer(docs[i], docs[k])
  }

  lemma DrawnID(e: Env, col: Definition, op: Word, first: nat, docs: seq<Record>, srcs: seq<Word>, j: nat)
    requires j < |docs| && |srcs| == |docs| + 1 && DrawnAt(e, col, op, first, docs, srcs, j) && "_id" !in col.fields
    ensures "_id" in docs[j] && docs[j]["_id"] == e.ids(op, first + j)
  {
  }

  lemma DrawnDistinct(e: Env, col: Definition, op: Word, first: nat, src: Word, docs: seq<Record>, srcs: seq<Word>,
        after: Word)
    requires ValidEnv(e) && Drawn(e, col, op, first, src, docs, srcs, after) && "_id" !in col.fields
    requires first + |docs| <= WORD
    ensures DistinctIDs(docs)
  {
    forall i, k | 0 <= i < k < |docs|
      ensures IDsDiffer(docs[i], docs[k])
    {
      DrawnID(e, col, op, first, docs, srcs, i);
      DrawnID(e, col, op, first, docs, srcs, k);
      DerivedIDs(e, op, op, first + i, first + k);
    }
  }

  /** n documents are drawn and remembered; without an _id of their own they have different ones. */
  ghost predicate Inserted(e: Env, g: Gen, col: Definition, ns: string, op: Word, first: nat, n: nat, docs: seq<Record>,
        after: Gen)
  {
    && |docs| == n && (exists srcs :: Drawn(e, col, op, first, g.src, docs, srcs, after.src))
    && Remembered(g.own, after.own, ns, docs, e.maxOwn)
    && ("_id" !in col.fields && first + n <= WORD ==> DistinctIDs(docs))
  }

  lemma DocsInserted(e: Env, g: Gen, col: Definition, ns: string, op: Word, j: nat, n: nat)
    requires ValidEnv(e) && Bounded(g.own, e.maxOwn)
    ensures var (docs, after) := InsertDocs(e, g, col, ns, op, j, j + n);
            Inserted(e, g, col, ns, op, j, n, docs, after)
  {
    var (docs, after) := InsertDocs(e, g, col, ns, op, j, j + n);
    var srcs := DocsDrawn(e, g, col, ns, op, j, j + n);
    if "_id" !in col.fields && j + n <= WORD {
      DrawnDistinct(e, col, op, j, g.src, docs, srcs, after.src);
    }
  }

  lemma OneInserted(e: Env, g: Gen, col: Definition, ns: string, op: Word, j: nat)
    requires ValidEnv(e) && Bounded(g.own, e.maxOwn)
    ensures var (doc, after) := InsertOne(e, g, col, ns, op, j); Inserted(e, g, col, ns, op, j, 1, [doc], after)
  {
    var (doc, after) := InsertOne(e, g, col, ns, op, j);
    RememberedOne(g.own, ns, doc, e.maxOwn);
    var srcs := [g.src, after.src];
    assert Drawn(e, col, op, j, g.src, [doc], srcs, after.src);
  }

  /** The array holds the documents in their order. */
  ghost predicate Holds(e: Env, v: Value, docs: seq<Record>)
  {
    v.Arr? && |v.items| == |docs| && forall i :: 0 <= i < |docs| ==> v.items[i] == e.ofRecord(docs[i])
  }

  ghost predicate InsertSent(e: Env, g: Gen, col: Definition, ns: string, op: Word, r: Op, after: Gen)
  {
    exists docs {:trigger Inserted(e, g, col, ns, op, 0, 1, docs, after)} ::
      Inserted(e, g, col, ns, op, 0, 1, docs, after)
      && r == Op(ns, "insert", Args([Elem("document", e.ofRecord(docs[0]))]))
  }

  ghost predicate InsertManySent(e: Env, g: Gen, col: Definition, ns: string, op: Word, r: Op, after: Gen)
  {
    exists docs, v {:trigger Inserted(e, g, col, ns, op, 0, e.insertBatch, docs, after), Holds(e, v, docs)} ::
      Inserted(e, g, col, ns, op, 0, e.insertBatch, docs, after) && Holds(e, v, docs)
      && r == Op(ns, "insertMany", Args([Elem("documents", v)]))
  }

  lemma InsertCommands(doc: Value, docs: seq<Value>)
    ensures StandardCommand(Blank("insert").(doc := doc)) == [Elem("document", doc)]
    ensures StandardCommand(Blank("insertMany").(docs := Some(docs))) == [Elem("documents", Arr(docs))]
  {
  }

  lemma InsertOp(e: Env, g: Gen, col: Definition, ns: string, op: Word)
    ensures var (doc, after) := InsertOne(e, g, col, ns, op, 0);
            StandardOp(e, g, col, ns, "insert", op)
              == (Op(ns, "insert", Args([Elem("document", e.ofRecord(doc))])), after)
  {
    InsertCommands(e.ofRecord(InsertOne(e, g, col, ns, op, 0).0), []);
  }

  lemma InsertManyOp(e: Env, g: Gen, col: Definition, ns: string, op: Word)
    ensures var (docs, after) := InsertDocs(e, g, col, ns, op, 0, e.insertBatch);
            StandardOp(e, g, col, ns, "insertMany", op)
            == (Op(ns, "insertMany", Args([Elem("documents", Arr(Values(e, docs)))])), after)
  {
    InsertCommands(Nil, Values(e, InsertDocs(e, g, col, ns, op, 0, e.insertBatch).0));
  }

  lemma ManySent(e: Env, g: Gen, col: Definition, ns: string, op: Word, docs: seq<Record>, after: Gen, v: Value)
    requires Inserted(e, g, col, ns, op, 0, e.insertBatch, docs, after) && Holds(e, v, docs)
    ensures InsertManySent(e, g, col, ns, op, Op(ns, "insertMany", Args([Elem("documents", v)])), after)
  {
  }

  lemma OneSent(e: Env, g: Gen, col: Definition, ns: string, op: Word, doc: Record, after: Gen)
    requires Inserted(e, g, col, ns, op, 0, 1, [doc], after)
    ensures InsertSent(e, g, col, ns, op, Op(ns, "insert", Args([Elem("document", e.ofRecord(doc))])), after)
  {
  }

  /** The document of a generated insert is the one that is remembered. */
  lemma GeneratedInsert(e: Env, g: Gen, col: Definition, ns: string, op: Word)
    requires ValidEnv(e) && Bounded(g.own, e.maxOwn)
    ensures var (r, after) := StandardOp(e, g, col, ns, "insert", op); InsertSent(e, g, col, ns, op, r, after)
  {
    OneInserted(e, g, col, ns, op, 0);
    var (doc, after) := InsertOne(e, g, col, ns, op, 0);
    OneSent(e, g, col, ns, op, doc, after);
    InsertOp(e, g, col, ns, op);
  }

  /** The documents of a generated insertMany are, in order, those that are remembered, insertBatch of them. */
  lemma GeneratedInsertMany(e: Env, g: Gen, col: Definition, ns: string, op: Word)
    requires ValidEnv(e) && Bounded(g.own, e.maxOwn)
    ensures var (r, after) := StandardOp(e, g, col, ns, "insertMany", op); InsertManySent(e, g, col, ns, op, r, after)
  {
    DocsInserted(e, g, col, ns, op, 0, e.insertBatch);
    var (docs, after) := InsertDocs(e, g, col, ns, op, 0, e.insertBatch);
    var values := Arr(Values(e, docs));
    assert Holds(e, values, docs);
    InsertManyOp(e, g, col, ns, op);
    ManySent(e, g, col, ns, op, docs, after, values);
  }

  // ---------------------------------------------------------------- query operations

  /** A seeded document of the collection or one the worker remembers. */
  ghost predicate Existing(e: Env, own: Own, col: Definition, ns: string, rec: Record)
  {
    (exists k: nat :: k < e.seeded && rec == Seeded(e.seeding, col, k)) || rec in OwnOf(own, ns)
  }

  /** Record i of those that exist: the seeded ones, then the worker's own. */
  function RecordAt(e: Env, own: Own, col: Definition, ns: string, i: nat): Record
    requires i < e.seeded + |OwnOf(own, ns)|
  {
    if i < e.seeded then Seeded(e.seeding, col, i) else OwnOf(own, ns)[i - e.seeded]
  }

  /** The place that the access pattern gives, or a uniform one if that is none of the n. */
  ghost predicate Pattern(e: Env, n: nat, src: Word, i: nat, after: Word)
    requires n > 0
  {
    var (x, t) := e.index(n, src);
    if 0 <= x < n then (i, after) == (x, t) else (i, after) == (e.draw(n, t).0 % n, e.draw(n, t).1)
  }

  /** An existing record, if there is any, as often as the hit rate says; s is the stream after choosing. */
  ghost predicate Chosen(e: Env, g: Gen, col: Definition, ns: string, rec: Option<Record>, s: Word)
  {
    if e.hitRate == 0 then rec.None? && s == g.src
    else
      var (roll, t) := e.draw(100, g.src);
      var n := e.seeded + |OwnOf(g.own, ns)|;
      if roll % 100 >= e.hitRate || n == 0 then rec.None? && s == t
      else exists i: nat :: i < n && Pattern(e, n, t, i, s) && rec == Some(RecordAt(e, g.own, col, ns, i))
  }

  ghost predicate Filled(e: Env, g: Gen, col: Definition, ns: string, v: Value, filled: Value, after: Word)
  {
    exists rec, s {:trigger Chosen(e, g, col, ns, rec, s)} ::
      Chosen(e, g, col, ns, rec, s) && (filled, after) == e.fill(v, rec, s)
  }

  lemma PickedExists(e: Env, g: Gen, col: Definition, ns: string)
    ensures var (rec, _) := PickExisting(e, g, col, ns);
            && (rec.Some? <==> e.seeded + |OwnOf(g.own, ns)| > 0)
            && (rec.Some? ==> Existing(e, g.own, col, ns, rec.value))
  {
  }

  lemma PickedAt(e: Env, g: Gen, col: Definition, ns: string)
    requires e.seeded + |OwnOf(g.own, ns)| > 0
    ensures var (rec, s) := PickExisting(e, g, col, ns);
            var n := e.seeded + |OwnOf(g.own, ns)|;
            exists i: nat :: i < n && Pattern(e, n, g.src, i, s) && rec == Some(RecordAt(e, g.own, col, ns, i))
  {
    var n := e.seeded + |OwnOf(g.own, ns)|;
    var (i, s) := PickIndex(e, n, g.src);
    assert PickExisting(e, g, col, ns) == (Some(RecordAt(e, g.own, col, ns, i)), s);
    assert Pattern(e, n, g.src, i, s);
  }

  lemma FilledExact(e: Env, g: Gen, v: Value, col: Definition, ns: string)
    ensures var (filled, after) := FillPlaceholders(e, g, v, col, ns); Filled(e, g, col, ns, v, filled, after)
  {
    if e.hitRate == 0 {
      assert Chosen(e, g, col, ns, None, g.src);
    } else {
      var (roll, s) := Draw(e, 100, g.src);
      if roll >= e.hitRate {
        assert Chosen(e, g, col, ns, None, s);
      } else {
        var (rec, t) := PickExisting(e, g.(src := s), col, ns);
        if e.seeded + |OwnOf(g.own, ns)| > 0 {
          PickedAt(e, g.(src := s), col, ns);
        }
        assert Chosen(e, g, col, ns, rec, t);
      }
    }
  }

  /** Nil, or the value in canonical form. */
  function SortedValue(e: Env, v: Value): Value { if v == Nil || v == NilMap then Nil else e.canonical(v) }

  function OrEmpty(v: Value): Value { if v == Nil || v == NilMap then Doc([]) else v }

  /** The command of a find, update or delete with this filter, and the other parts of the query. */
  function QueryFields(e: Env, opType: string, q: Query, filter: Value): Fields
  {
    var head := [Elem("filter", OrEmpty(SortedValue(e, filter)))];
    if opType == "find" then
      var projection := SortedValue(e, q.projection);
      head + (if projection == Nil || projection == NilMap then [] else [Elem("projection", projection)])
        + [Elem("limit", I64(if q.limit > 0 then q.limit else e.findLimit)),
           Elem("batchSize", I32(if e.findBatch > 0 then e.findBatch else 10))]
    else if opType == "updateOne" || opType == "updateMany" then
      head + [Elem("update", SortedValue(e, q.update)), Elem("upsert", Bool(q.upsert))]
    else head
  }

  function PipelineFields(v: Value): Fields { [Elem("pipeline", if v == Nil then Arr([]) else v)] }

  ghost predicate FilteredSent(e: Env, g: Gen, col: Definition, ns: string, opType: string, q: Query, r: Op,
        after: Word)
  {
    exists filter {:trigger Filled(e, g, col, ns, q.filter, filter, after)} ::
      Filled(e, g, col, ns, q.filter, filter, after) && r == Op(ns, opType, Args(QueryFields(e, opType, q, filter)))
  }

  ghost predicate PipelineSent(e: Env, g: Gen, col: Definition, ns: string, p: Value, r: Op, after: Word)
  {
    exists filled {:trigger Filled(e, g, col, ns, p, filled, after)} ::
      Filled(e, g, col, ns, p, filled, after) && r == Op(ns, "aggregate", Args(PipelineFields(e.canonical(filled))))
  }

  /** The parts of the query that was found, with existing values for its placeholders; skipped if there is none. */
  ghost predicate QuerySent(e: Env, g: Gen, col: Definition, ns: string, opType: string, r: Op, after: Gen)
  {
    var (found, s) := e.query(opType, col, g.src);
    after.own == g.own
    && match found
       case None => r == Skip && after.src == s
       case Some(q) =>
         if opType != "aggregate" then FilteredSent(e, g.(src := s), col, ns, opType, q, r, after.src)
         else if q.pipeline.None? then r == Op(ns, opType, Args(PipelineFields(Nil))) && after.src == s
         else PipelineSent(e, g.(src := s), col, ns, q.pipeline.value, r, after.src)
  }

  lemma QueryCommand(e: Env, opType: string, q: Query, filter: Value)
    requires opType in QUERY_OPS && opType != "aggregate"
    ensures StandardCommand(RequestOf(e, opType, q).(filter := Canonical(e, filter)))
        == QueryFields(e, opType, q, filter)
  {
    var r := RequestOf(e, opType, q).(filter := Canonical(e, filter));
    if opType == "find" {
      FindFields(r);
    }
  }

  lemma FindFields(r: Request)
    requires r.op == "find" && r.sort == Nil && r.hint == Nil && r.skip == 0
    ensures StandardCommand(r) == [Elem("filter", EmptyDocIfNil(r.filter))]
              + (if IsNilDoc(r.projection) then [] else [Elem("projection", r.projection)])
              + [Elem("limit", I64(r.limit)), Elem("batchSize", I32(r.batch))]
  {
  }

  lemma PipelineCommand(e: Env, q: Query, v: Value)
    ensures StandardCommand(RequestOf(e, "aggregate", q).(pipeline := v)) == PipelineFields(v)
  {
  }

  lemma GeneratedFilter(e: Env, g: Gen, col: Definition, ns: string, opType: string)
    requires opType in QUERY_OPS && opType != "aggregate"
    ensures var (r, after) := QueryOp(e, g, col, ns, opType); QuerySent(e, g, col, ns, opType, r, after)
  {
    var (found, s) := e.query(opType, col, g.src);
    if found.Some? {
      FilledExact(e, g.(src := s), found.value.filter, col, ns);
      var (filter, t) := FillPlaceholders(e, g.(src := s), found.value.filter, col, ns);
      QueryCommand(e, opType, found.value, filter);
      assert Filled(e, g.(src := s), col, ns, found.value.filter, filter, t);
    }
  }

  lemma GeneratedPipeline(e: Env, g: Gen, col: Definition, ns: string)
    ensures var (r, after) := QueryOp(e, g, col, ns, "aggregate"); QuerySent(e, g, col, ns, "aggregate", r, after)
  {
    var (found, s) := e.query("aggregate", col, g.src);
    if found.Some? {
      var q := found.value;
      PipelineCommand(e, q, Nil);
      if q.pipeline.Some? {
        FilledExact(e, g.(src := s), q.pipeline.value, col, ns);
        var (p, t) := FillPlaceholders(e, g.(src := s), q.pipeline.value, col, ns);
        PipelineCommand(e, q, e.canonical(p));
        assert Filled(e, g.(src := s), col, ns, q.pipeline.value, p, t);
      }
    }
  }

  /** A query operation sends the parts of the query found for it. */
  lemma GeneratedQuery(e: Env, g: Gen, col: Definition, ns: string, opType: string, op: Word)
    requires opType in QUERY_OPS
    ensures var (r, after) := StandardOp(e, g, col, ns, opType, op); QuerySent(e, g, col, ns, opType, r, after)
  {
    if opType == "aggregate" {
      GeneratedPipeline(e, g, col, ns);
    } else {
      GeneratedFilter(e, g, col, ns, opType);
    }
  }

  // -------------------------------------------------------------------- fast paths

  /** The id of an existing record with an integer under the key. */
  ghost predicate RecordedBefore(e: Env, own: Own, col: Definition, ns: string, id: Int64)
  {
    exists rec :: Existing(e, own, col, ns, rec) && RecordedID(rec, e.patchKey) == Some(id)
  }

  /** The n-th id of a worker's range. */
  function RangeID(w: nat, n: nat): Int64 { Signed((w * 100000000 + n) % WORD) }

  ghost predicate SomeWorkers(e: Env, id: Int64)
  {
    exists w: nat, n: nat :: w < e.concurrency && n < 10000000 && id == RangeID(w, n)
  }

  /** Some ids of existing records, then ids of any worker. */
  ghost predicate FoundIDs(e: Env, own: Own, col: Definition, ns: string, ids: seq<Int64>, n: nat)
  {
    n <= |ids|
    && forall i :: 0 <= i < |ids| ==> if i < n then RecordedBefore(e, own, col, ns, ids[i]) else SomeWorkers(e, ids[i])
  }

  lemma {:induction false} PickedIDs(e: Env, g: Gen, col: Definition, ns: string, ids: seq<Int64>, batch: nat,
        tries: nat)
    requires FoundIDs(e, g.own, col, ns, ids, |ids|) && |ids| <= batch
    ensures var r := PickIDs(e, g, col, ns, ids, batch, tries).0;
            FoundIDs(e, g.own, col, ns, r, |r|) && |r| <= batch
    decreases 2 * batch - tries
  {
    if |ids| < batch && tries < 2 * batch {
      var (rec, s) := PickExisting(e, g, col, ns);
      PickedExists(e, g, col, ns);
      if rec.Some? {
        var id := RecordedID(rec.value, e.patchKey);
        if id.Some? {
          assert RecordedBefore(e, g.own, col, ns, id.value);
          PickedIDs(e, g.(src := s), col, ns, ids + [id.value], batch, tries + 1);
        } else {
          PickedIDs(e, g.(src := s), col, ns, ids, batch, tries + 1);
        }
      }
    }
  }

  lemma {:induction false} RandomFound(e: Env, own: Own, col: Definition, ns: string, src: Word, ids: seq<Int64>,
        n: nat,
        batch: nat)
    requires e.concurrency > 0 && FoundIDs(e, own, col, ns, ids, n) && |ids| <= batch
    ensures var r := RandomIDs(e, src, ids, batch).0; FoundIDs(e, own, col, ns, r, n) && |r| == batch
    decreases batch - |ids|
  {
    if |ids| < batch {
      var (w, s) := Draw(e, e.concurrency, src);
      var (m, t) := Draw(e, 10000000, s);
      var id := RangeID(w, m);
      assert SomeWorkers(e, id);
      RandomFound(e, own, col, ns, t, ids + [id], n, batch);
    }
  }

  /** A fast find asks for a full batch of ids under the key, and its command is read back with them. */
  ghost predicate FastFindSent(e: Env, g: Gen, col: Definition, ns: string, r: Op, after: Gen)
  {
    && r.Op? && r.ns == ns && r.opType == "find" && r.command.Args? && after.own == g.own
    && var back := FastFindOf(StoredFields(r.command.fields));
       var batch := if e.fastBatch > 1 then e.fastBatch else 10;
       back.Ok? && back.value.key == e.patchKey && |back.value.ids| == batch && back.value.limit == Signed(batch % WORD)
       && exists n: nat :: FoundIDs(e, g.own, col, ns, back.value.ids, n)
  }

  lemma GeneratedFastFind(e: Env, g: Gen, col: Definition, ns: string)
    requires ValidEnv(e)
    ensures var (r, after) := FastFindOp(e, g, col, ns); FastFindSent(e, g, col, ns, r, after)
  {
    var batch := FastBatchSize(e);
    var (pooled, s) := PooledIDs(e, g, col, ns);
    PooledFound(e, g, col, ns);
    RandomFound(e, g.own, col, ns, s, pooled, |pooled|, batch);
    var ids := RandomIDs(e, s, pooled, batch).0;
    FastFindRoundTrip(col.name, e.patchKey, ids, Signed(batch % WORD));
  }

  lemma PooledFound(e: Env, g: Gen, col: Definition, ns: string)
    ensures var pooled := PooledIDs(e, g, col, ns).0;
            FoundIDs(e, g.own, col, ns, pooled, |pooled|) && |pooled| <= FastBatchSize(e)
  {
    if e.seeded + |OwnOf(g.own, ns)| > 0 {
      var (roll, s) := Draw(e, 100, g.src);
      PickedIDs(e, g.(src := s), col, ns, [], FastBatchSize(e), 0);
    }
  }

  /** The documents a fast insert sends, as far as they are remembered: each has its own id under the key. */
  function PatchedDocs(e: Env, base: Word, n: nat): (r: seq<Record>)
    ensures |r| == n && forall j :: 0 <= j < n ==> r[j] == map[e.patchKey := PatchedID(base, j)]
  {
    seq(n, j requires 0 <= j < n => map[e.patchKey := PatchedID(base, j)])
  }

  lemma HeadAndRest<T>(s: seq<T>, j: nat)
    requires j < |s|
    ensures s[j..] == [s[j]] + s[j + 1..]
  {
  }

  lemma {:induction false} PatchedRemembered(e: Env, own: Own, ns: string, base: Word, j: nat, n: nat)
    requires j <= n && Bounded(own, e.maxOwn)
    ensures Remembered(own, AddPatched(e, own, ns, base, j, n), ns, PatchedDocs(e, base, n)[j..], e.maxOwn)
    decreases n - j
  {
    var docs := PatchedDocs(e, base, n);
    if j == n {
      RememberedNone(own, ns, e.maxOwn);
      assert docs[n..] == [];
    } else {
      var doc: Record := map[e.patchKey := PatchedID(base, j)];
      var next := AddOwn(own, ns, doc, e.maxOwn);
      RememberedOne(own, ns, doc, e.maxOwn);
      RememberedBounded(own, next, ns, [doc], e.maxOwn);
      PatchedRemembered(e, next, ns, base, j + 1, n);
      HeadAndRest(docs, j);
      RememberedBoth(own, next, AddPatched(e, next, ns, base, j + 1, n), ns, [doc], docs[j + 1..], e.maxOwn);
    }
  }

  /** One of the prepared batches, with ids from the operation's own range; the same ids are remembered. */
  ghost predicate FastInsertSent(e: Env, g: Gen, col: Definition, ns: string, op: Word, r: Op, after: Gen)
  {
    && r.Op? && r.ns == ns && r.opType == "insertMany" && r.command.Batch? && r.command.batch in e.pool
    && (r.command.withIDs <==> e.patchKey != "_id" && "_id" !in col.fields)
    && var n := |r.command.batch.docs|;
       (r.command.base - (e.worker * 100000000 + (e.iteration - 1) * e.budget * n + (op - 1) * n)) % WORD == 0
       && Remembered(g.own, after.own, ns, PatchedDocs(e, r.command.base, n), e.maxOwn)
  }

  lemma WrapExact(x: int)
    ensures (x % WORD - x) % WORD == 0
  {
    assert x % WORD - x == -(x / WORD) * WORD;
    ModZero(-(x / WORD));
  }

  lemma ModZero(k: int)
    ensures (k * WORD) % WORD == 0
  {
  }

  lemma BaseExact(e: Env, op: Word, n: nat)
    ensures (BatchBase(e, op, n) - (e.worker * 100000000 + (e.iteration - 1) * e.budget * n + (op - 1) * n)) % WORD == 0
  {
    WrapExact(e.worker * 100000000 + (e.iteration - 1) * e.budget * n + (op - 1) * n);
  }

  lemma GeneratedFastInsert(e: Env, g: Gen, col: Definition, ns: string, op: Word)
    requires ValidEnv(e) && e.optimized && Bounded(g.own, e.maxOwn)
    ensures var (r, after) := FastInsertOp(e, g, col, ns, op); FastInsertSent(e, g, col, ns, op, r, after)
  {
    var b := Draw(e, |e.pool|, g.src).0;
    var n := |e.pool[b].docs|;
    var base := BatchBase(e, op, n);
    PatchedRemembered(e, g.own, ns, base, 0, n);
    assert PatchedDocs(e, base, n)[0..] == PatchedDocs(e, base, n);
    BaseExact(e, op, n);
  }

  // ------------------------------------------------------------------ transactions

  ghost predicate TxInsertSent(e: Env, g: Gen, col: Definition, ns: string, op: Word, docIndex: nat, t: Option<TxOp>,
        after: Gen)
  {
    exists docs {:trigger Inserted(e, g, col, ns, op, docIndex, 1, docs, after)} ::
      Inserted(e, g, col, ns, op, docIndex, 1, docs, after)
      && t == Some(TxOp("insert", Col(col.database, col.name), Nil, Nil, false, e.ofRecord(docs[0]), None))
  }

  ghost predicate TxInsertManySent(e: Env, g: Gen, col: Definition, ns: string, op: Word, docIndex: nat,
        t: Option<TxOp>, after: Gen)
  {
    exists docs, values {:trigger Inserted(e, g, col, ns, op, docIndex, e.insertBatch, docs, after),
        Holds(e, Arr(values), docs)} ::
      Inserted(e, g, col, ns, op, docIndex, e.insertBatch, docs, after) && Holds(e, Arr(values), docs)
      && t == Some(TxOp("insertMany", Col(col.database, col.name), Nil, Nil, false, Nil, Some(values)))
  }

  ghost predicate TxFilteredSent(e: Env, g: Gen, col: Definition, ns: string, inner: string, q: Query, t: Option<TxOp>,
        after: Word)
  {
    exists filter {:trigger Filled(e, g, col, ns, q.filter, filter, after)} ::
      Filled(e, g, col, ns, q.filter, filter, after)
      && t == Some(TxOp(inner, Col(col.database, col.name), SortedValue(e, filter), SortedValue(e, q.update), q.upsert,
                        Nil, None))
  }

  ghost predicate TxQuerySent(e: Env, g: Gen, col: Definition, ns: string, inner: string, t: Option<TxOp>, after: Gen)
  {
    var (found, s) := e.query(inner, col, g.src);
    after.own == g.own
    && match found
       case None => t == None && after.src == s
       case Some(q) => TxFilteredSent(e, g.(src := s), col, ns, inner, q, t, after.src)
  }

  /** An operation of this type in a transaction, and the number of the next document. */
  ghost predicate TxDrawnSent(e: Env, g: Gen, col: Definition, op: Word, docIndex: nat, drawn: string, t: Option<TxOp>,
        after: Gen, next: nat)
  {
    var ns := Namespace(e, col);
    if drawn == "insert" then TxInsertSent(e, g, col, ns, op, docIndex, t, after) && next == docIndex + 1
    else if drawn == "insertMany" then
      TxInsertManySent(e, g, col, ns, op, docIndex, t, after) && next == docIndex + e.insertBatch
    else
      next == docIndex
      && TxQuerySent(e, g, col, ns, if drawn == "aggregate" || drawn == "transaction" then "find" else drawn, t, after)
  }

  ghost predicate TxSent(e: Env, g: Gen, op: Word, docIndex: nat, t: Option<TxOp>, after: Gen, next: nat)
    requires e.cols != []
  {
    var (c, s) := e.draw(|e.cols|, g.src);
    var (drawn, src) := e.pickOp(s);
    TxDrawnSent(e, g.(src := src), e.cols[c % |e.cols|], op, docIndex, drawn, t, after, next)
  }

  lemma TxQueryExact(e: Env, g: Gen, col: Definition, ns: string, inner: string)
    ensures var (t, after) := TxQuery(e, g, col, ns, inner); TxQuerySent(e, g, col, ns, inner, t, after)
  {
    var (found, s) := e.query(inner, col, g.src);
    if found.Some? {
      FilledExact(e, g.(src := s), found.value.filter, col, ns);
      var (filter, t) := FillPlaceholders(e, g.(src := s), found.value.filter, col, ns);
      assert Filled(e, g.(src := s), col, ns, found.value.filter, filter, t);
    }
  }

  lemma TxInsertExact(e: Env, g: Gen, col: Definition, op: Word, docIndex: nat)
    requires ValidEnv(e) && Bounded(g.own, e.maxOwn)
    ensures var (t, after, next) := TxDrawn(e, g, op, docIndex, col, "insert");
            TxDrawnSent(e, g, col, op, docIndex, "insert", t, after, next) && Bounded(after.own, e.maxOwn)
  {
    var ns := Namespace(e, col);
    OneInserted(e, g, col, ns, op, docIndex);
    var (doc, after) := InsertOne(e, g, col, ns, op, docIndex);
    RememberedBounded(g.own, after.own, ns, [doc], e.maxOwn);
    assert Inserted(e, g, col, ns, op, docIndex, 1, [doc], after);
  }

  lemma TxInsertManyExact(e: Env, g: Gen, col: Definition, op: Word, docIndex: nat)
    requires ValidEnv(e) && Bounded(g.own, e.maxOwn)
    ensures var (t, after, next) := TxDrawn(e, g, op, docIndex, col, "insertMany");
            TxDrawnSent(e, g, col, op, docIndex, "insertMany", t, after, next) && Bounded(after.own, e.maxOwn)
  {
    var ns := Namespace(e, col);
    DocsInserted(e, g, col, ns, op, docIndex, e.insertBatch);
    var (docs, after) := InsertDocs(e, g, col, ns, op, docIndex, docIndex + e.insertBatch);
    RememberedBounded(g.own, after.own, ns, docs, e.maxOwn);
    var values := Values(e, docs);
    assert Holds(e, Arr(values), docs);
    TxManySent(e, g, col, ns, op, docIndex, docs, values, after);
  }

  lemma TxManySent(e: Env, g: Gen, col: Definition, ns: string, op: Word, docIndex: nat, docs: seq<Record>,
        values: seq<Value>, after: Gen)
    requires Inserted(e, g, col, ns, op, docIndex, e.insertBatch, docs, after) && Holds(e, Arr(values), docs)
    ensures TxInsertManySent(e, g, col, ns, op, docIndex, Some(TxBlank("insertMany", col).(docs := Some(values))),
        after)
  {
  }

  lemma TxOtherExact(e: Env, g: Gen, col: Definition, op: Word, docIndex: nat, drawn: string)
    requires Bounded(g.own, e.maxOwn) && drawn != "insert" && drawn != "insertMany"
    ensures var (t, after, next) := TxDrawn(e, g, op, docIndex, col, drawn);
            TxDrawnSent(e, g, col, op, docIndex, drawn, t, after, next) && Bounded(after.own, e.maxOwn)
  {
    TxQueryExact(e, g, col, Namespace(e, col), TypeInside(drawn));
  }

  /** Each operation of a transaction sends the documents it remembers, or the parts of the query found for it. */
  lemma GeneratedTxOp(e: Env, g: Gen, op: Word, docIndex: nat)
    requires ValidEnv(e) && Bounded(g.own, e.maxOwn)
    ensures var (t, after, next) := TxOne(e, g, op, docIndex);
            TxSent(e, g, op, docIndex, t, after, next) && Bounded(after.own, e.maxOwn)
  {
    TxOneDrawn(e, g, op, docIndex);
    var (c, s) := Draw(e, |e.cols|, g.src);
    var (drawn, src) := e.pickOp(s);
    var h, col := g.(src := src), e.cols[c];
    if drawn == "insert" {
      TxInsertExact(e, h, col, op, docIndex);
    } else if drawn == "insertMany" {
      TxInsertManyExact(e, h, col, op, docIndex);
    } else {
      TxOtherExact(e, h, col, op, docIndex, drawn);
    }
  }

  /** Between two operations of a transaction. */
  datatype TxState = TxState(gen: Gen, docIndex: nat)

  /** An operation leads from one state to the next. */
  ghost predicate TxLeads(e: Env, op: Word, before: TxState, t: Option<TxOp>, after: TxState)
    requires e.cols != []
  {
    TxSent(e, before.gen, op, before.docIndex, t, after.gen, after.docIndex)
  }

  ghost predicate TxSteps(e: Env, op: Word, states: seq<TxState>, ts: seq<Option<TxOp>>)
    requires e.cols != []
  {
    |states| == |ts| + 1 && forall i :: 0 <= i < |ts| ==> TxLeads(e, op, states[i], ts[i], states[i + 1])
  }

  /** The operations for which there was a query. */
  function Somes(ts: seq<Option<TxOp>>): seq<TxOp>
  {
    if ts == [] then [] else (if ts[0].Some? then [ts[0].value] else []) + Somes(ts[1..])
  }

  lemma TxStepsNext(e: Env, op: Word, first: TxState, t: Option<TxOp>, states: seq<TxState>, ts: seq<Option<TxOp>>)
    requires e.cols != [] && TxSteps(e, op, states, ts) && TxLeads(e, op, first, t, states[0])
    ensures TxSteps(e, op, [first] + states, [t] + ts)
  {
    var all, ops := [first] + states, [t] + ts;
    forall i | 0 <= i < |ops|
      ensures TxLeads(e, op, all[i], ops[i], all[i + 1])
    {
      if i > 0 {
        assert TxLeads(e, op, states[i - 1], ts[i - 1], states[i]);
      }
    }
  }

  lemma {:induction false} TxOpsSent(e: Env, g: Gen, op: Word, docIndex: nat, left: nat)
    returns (states: seq<TxState>, ts: seq<Option<TxOp>>)
    requires ValidEnv(e) && Bounded(g.own, e.maxOwn)
    ensures |ts| == left && TxSteps(e, op, states, ts) && states[0] == TxState(g, docIndex)
    ensures var (ops, after) := TxOps(e, g, op, docIndex, left);
            ops == Somes(ts) && states[left].gen == after && Bounded(after.own, e.maxOwn)
    decreases left
  {
    if left == 0 {
      states, ts := [TxState(g, docIndex)], [];
    } else {
      GeneratedTxOp(e, g, op, docIndex);
      var (t, next, j) := TxOne(e, g, op, docIndex);
      var rest, more := TxOpsSent(e, next, op, j, left - 1);
      TxOpsUnfold(e, g, op, docIndex, left, t, next, j);
      TxStepsNext(e, op, TxState(g, docIndex), t, rest, more);
      states, ts := [TxState(g, docIndex)] + rest, [t] + more;
    }
  }

  /** As many operations as drawn, less those without a query, one after the other. */
  ghost predicate TransactionSent(e: Env, g: Gen, op: Word, r: Op, after: Gen)
    requires e.cols != []
  {
    var most := if e.maxTxOps > 1 then e.maxTxOps else 1;
    var (n, s) := e.draw(most, g.src);
    exists states: seq<TxState>, ts {:trigger TxSteps(e, op, states, ts)} ::
      TxSteps(e, op, states, ts) && |ts| == n % most + 1
      && states[0] == TxState(g.(src := s), 0) && states[|ts|].gen == after
      && r == Op(MultipleNamespace(e), "transaction", Args(TransactionCommand(e.db, Somes(ts))))
  }

  lemma GeneratedTransaction(e: Env, g: Gen, op: Word)
    requires ValidEnv(e) && Bounded(g.own, e.maxOwn)
    ensures var (r, after) := TransactionOp(e, g, op);
            TransactionSent(e, g, op, r, after) && Bounded(after.own, e.maxOwn)
  {
    var (n, s) := Draw(e, if e.maxTxOps > 1 then e.maxTxOps else 1, g.src);
    var states, ts := TxOpsSent(e, g.(src := s), op, 0, n + 1);
    assert TxSteps(e, op, states, ts);
  }

  // --------------------------------------------------------------------- whole runs

  /** What an operation of a type sends, by the path it takes. */
  ghost predicate Sends(e: Env, g: Gen, col: Definition, opType: string, op: Word, r: Op, after: Gen)
    requires e.cols != []
  {
    var ns, first := Namespace(e, col), e.optimized && col.name == e.cols[0].name;
    if first && opType in {"insert", "insertMany"} then FastInsertSent(e, g, col, ns, op, r, after)
    else if first && opType == "find" then FastFindSent(e, g, col, ns, r, after)
    else if opType == "insert" then InsertSent(e, g, col, ns, op, r, after)
    else if opType == "insertMany" then InsertManySent(e, g, col, ns, op, r, after)
    else if opType in QUERY_OPS then QuerySent(e, g, col, ns, opType, r, after)
    else r == Skip && after == g
  }

  lemma FastSends(e: Env, g: Gen, col: Definition, opType: string, op: Word)
    requires ValidEnv(e) && Bounded(g.own, e.maxOwn) && e.optimized && col.name == e.cols[0].name
    requires opType in {"insert", "insertMany", "find"}
    ensures var (r, after) := ChosenOp(e, g, col, opType, op);
            Sends(e, g, col, opType, op, r, after) && Bounded(after.own, e.maxOwn)
  {
    var ns := Namespace(e, col);
    if opType == "find" {
      GeneratedFastFind(e, g, col, ns);
    } else {
      GeneratedFastInsert(e, g, col, ns, op);
      var (r, after) := FastInsertOp(e, g, col, ns, op);
      RememberedBounded(g.own, after.own, ns, PatchedDocs(e, r.command.base, |r.command.batch.docs|), e.maxOwn);
    }
  }

  lemma InsertSends(e: Env, g: Gen, col: Definition, ns: string, op: Word)
    requires ValidEnv(e) && Bounded(g.own, e.maxOwn)
    ensures var (r, after) := StandardOp(e, g, col, ns, "insert", op);
            InsertSent(e, g, col, ns, op, r, after) && Bounded(after.own, e.maxOwn)
  {
    GeneratedInsert(e, g, col, ns, op);
    OneInserted(e, g, col, ns, op, 0);
    var (doc, after) := InsertOne(e, g, col, ns, op, 0);
    RememberedBounded(g.own, after.own, ns, [doc], e.maxOwn);
    InsertOp(e, g, col, ns, op);
  }

  lemma InsertManySends(e: Env, g: Gen, col: Definition, ns: string, op: Word)
    requires ValidEnv(e) && Bounded(g.own, e.maxOwn)
    ensures var (r, after) := StandardOp(e, g, col, ns, "insertMany", op);
            InsertManySent(e, g, col, ns, op, r, after) && Bounded(after.own, e.maxOwn)
  {
    GeneratedInsertMany(e, g, col, ns, op);
    DocsInserted(e, g, col, ns, op, 0, e.insertBatch);
    var (docs, after) := InsertDocs(e, g, col, ns, op, 0, e.insertBatch);
    RememberedBounded(g.own, after.own, ns, docs, e.maxOwn);
    InsertManyOp(e, g, col, ns, op);
  }

  lemma ChosenSends(e: Env, g: Gen, col: Definition, opType: string, op: Word)
    requires ValidEnv(e) && Bounded(g.own, e.maxOwn)
    ensures var (r, after) := ChosenOp(e, g, col, opType, op);
            Sends(e, g, col, opType, op, r, after) && Bounded(after.own, e.maxOwn)
  {
    var ns := Namespace(e, col);
    if e.optimized && col.name == e.cols[0].name && opType in {"insert", "insertMany", "find"} {
      FastSends(e, g, col, opType, op);
    } else if opType == "insert" {
      InsertSends(e, g, col, ns, op);
    } else if opType == "insertMany" {
      InsertManySends(e, g, col, ns, op);
    } else if opType in QUERY_OPS {
      GeneratedQuery(e, g, col, ns, opType, op);
    }
  }

  /** Operation number op of a worker that remembers these documents. */
  ghost predicate OperationSent(e: Env, own: Own, op: Word, r: Op, after: Gen)
    requires e.cols != []
  {
    var (c, opType, s) := DrawOp(e, op);
    if opType == "transaction" && e.useTransactions then TransactionSent(e, Gen(s, own), op, r, after)
    else Sends(e, Gen(s, own), e.cols[c], if opType == "transaction" then "find" else opType, op, r, after)
  }

  lemma GeneratedOperation(e: Env, own: Own, op: Word)
    requires ValidEnv(e) && Bounded(own, e.maxOwn)
    ensures var (r, after) := Generate(e, own, op); OperationSent(e, own, op, r, after) && Bounded(after.own, e.maxOwn)
  {
    var (c, opType, s) := DrawOp(e, op);
    if opType == "transaction" && e.useTransactions {
      GeneratedTransaction(e, Gen(s, own), op);
    } else {
      ChosenSends(e, Gen(s, own), e.cols[c], if opType == "transaction" then "find" else opType, op);
    }
  }

  /** No run remembers more than maxOwn documents of a namespace. */
  lemma {:induction false} OwnBounded(e: Env, n: nat)
    requires ValidEnv(e)
    ensures Bounded(Traffic(GeneratorOf(e), n).1, e.maxOwn)
  {
    if n > 0 {
      OwnBounded(e, n - 1);
      GeneratedOperation(e, Traffic(GeneratorOf(e), n - 1).1, n % WORD);
    }
  }

  lemma {:induction false} TrafficAt(gen: Generator, n: nat, k: nat)
    requires k < n
    ensures |Traffic(gen, n).0| == n
    ensures Traffic(gen, n).0[k] == gen(Traffic(gen, k).1, (k + 1) % WORD).0
  {
    if n > 1 {
      TrafficAt(gen, n - 1, if k < n - 1 then k else 0);
    }
  }

  ghost predicate SentBetween(e: Env, own: Own, op: Word, r: Op, next: Own)
    requires e.cols != []
  {
    exists after: Gen :: OperationSent(e, own, op, r, after) && after.own == next
  }

  /**
   Every operation of a worker's traffic, whatever came before: an insert sends the
   documents that are remembered from then on, in order and under different _ids, a query
   the parts of the query found for it.
   */
  lemma TrafficSends(e: Env, n: nat, k: nat)
    requires ValidEnv(e) && k < n
    ensures |Traffic(GeneratorOf(e), n).0| == n
    ensures var own, next := Traffic(GeneratorOf(e), k).1, Traffic(GeneratorOf(e), k + 1).1;
            SentBetween(e, own, (k + 1) % WORD, Traffic(GeneratorOf(e), n).0[k], next)
  {
    var gen := GeneratorOf(e);
    TrafficAt(gen, n, k);
    OwnBounded(e, k);
    GeneratedOperation(e, Traffic(gen, k).1, (k + 1) % WORD);
  }
}
