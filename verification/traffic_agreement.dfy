/**
 When two runs with one configuration send the same traffic: the key of the fast paths is
 the only thing a worker prepares that the configuration need not determine.
 */
module TrafficAgreement {
  import opened Wrappers
  import opened CommandCodec
  import opened SeededCache
  import opened Mix64
  import opened TrafficSpec
  import opened PatchKeys
  import opened Deterministic

  // ------------------------------------- environments that differ in the fast paths

  ghost predicate Alike(e: Env, f: Env) { Unoptimized(e) == Unoptimized(f) }

  lemma SamePick(e: Env, f: Env, g: Gen, col: Definition, ns: string)
    requires Alike(e, f)
    ensures PickExisting(e, g, col, ns) == PickExisting(f, g, col, ns)
  {
  }

  lemma SameFill(e: Env, f: Env, g: Gen, v: Value, col: Definition, ns: string)
    requires Alike(e, f)
    ensures FillPlaceholders(e, g, v, col, ns) == FillPlaceholders(f, g, v, col, ns)
  {
    if e.hitRate > 0 {
      SamePick(e, f, g.(src := Draw(e, 100, g.src).1), col, ns);
    }
  }

  lemma SameInsert(e: Env, f: Env, g: Gen, col: Definition, ns: string, op: Word, j: nat)
    requires Alike(e, f)
    ensures InsertOne(e, g, col, ns, op, j) == InsertOne(f, g, col, ns, op, j)
  {
  }

  lemma {:induction false} SameInserts(e: Env, f: Env, g: Gen, col: Definition, ns: string, op: Word, j: nat, n: nat)
    requires Alike(e, f)
    ensures InsertDocs(e, g, col, ns, op, j, n) == InsertDocs(f, g, col, ns, op, j, n)
    decreases n - j
  {
    if j < n {
      SameInsert(e, f, g, col, ns, op, j);
      SameInserts(e, f, InsertOne(e, g, col, ns, op, j).1, col, ns, op, j + 1, n);
    }
  }

  lemma SameValues(e: Env, f: Env, docs: seq<Record>)
    requires Alike(e, f)
    ensures Values(e, docs) == Values(f, docs)
  {
  }

  lemma SameQuery(e: Env, f: Env, g: Gen, col: Definition, ns: string, opType: string)
    requires Alike(e, f)
    ensures QueryOp(e, g, col, ns, opType) == QueryOp(f, g, col, ns, opType)
  {
    var (found, s) := e.query(opType, col, g.src);
    if found.Some? {
      SameFill(e, f, g.(src := s), found.value.filter, col, ns);
      if found.value.pipeline.Some? {
        SameFill(e, f, g.(src := s), found.value.pipeline.value, col, ns);
      }
    }
  }

  lemma SameStandard(e: Env, f: Env, g: Gen, col: Definition, ns: string, opType: string, op: Word)
    requires Alike(e, f)
    ensures StandardOp(e, g, col, ns, opType, op) == StandardOp(f, g, col, ns, opType, op)
  {
    SameInsert(e, f, g, col, ns, op, 0);
    SameInserts(e, f, g, col, ns, op, 0, e.insertBatch);
    SameValues(e, f, InsertDocs(e, g, col, ns, op, 0, e.insertBatch).0);
    SameQuery(e, f, g, col, ns, opType);
  }

  lemma SameTxQuery(e: Env, f: Env, g: Gen, col: Definition, ns: string, inner: string)
    requires Alike(e, f)
    ensures TxQuery(e, g, col, ns, inner) == TxQuery(f, g, col, ns, inner)
  {
    var (found, s) := e.query(inner, col, g.src);
    if found.Some? {
      SameFill(e, f, g.(src := s), found.value.filter, col, ns);
    }
  }

  lemma SameDrawn(e: Env, f: Env, g: Gen, op: Word, docIndex: nat, col: Definition, drawn: string)
    requires Alike(e, f)
    ensures TxDrawn(e, g, op, docIndex, col, drawn) == TxDrawn(f, g, op, docIndex, col, drawn)
  {
    var ns := Namespace(e, col);
    if drawn == "insert" {
      SameInsert(e, f, g, col, ns, op, docIndex);
    } else if drawn == "insertMany" {
      SameInserts(e, f, g, col, ns, op, docIndex, docIndex + e.insertBatch);
      SameValues(e, f, InsertDocs(e, g, col, ns, op, docIndex, docIndex + e.insertBatch).0);
    } else {
      SameTxQuery(e, f, g, col, ns, TypeInside(drawn));
    }
  }

  lemma SameTxOne(e: Env, f: Env, g: Gen, op: Word, docIndex: nat)
    requires Alike(e, f) && e.cols != []
    ensures TxOne(e, g, op, docIndex) == TxOne(f, g, op, docIndex)
  {
    var (c, s) := Draw(e, |e.cols|, g.src);
    var (drawn, t) := e.pickOp(s);
    TxOneDrawn(e, g, op, docIndex);
    TxOneDrawn(f, g, op, docIndex);
    SameDrawn(e, f, g.(src := t), op, docIndex, e.cols[c], drawn);
  }

  lemma {:induction false} SameTxOps(e: Env, f: Env, g: Gen, op: Word, docIndex: nat, left: nat)
    requires Alike(e, f) && e.cols != []
    ensures TxOps(e, g, op, docIndex, left) == TxOps(f, g, op, docIndex, left)
    decreases left
  {
    if left > 0 {
      SameTxOne(e, f, g, op, docIndex);
      var (t, g', j) := TxOne(e, g, op, docIndex);
      SameTxOps(e, f, g', op, j, left - 1);
      TxOpsUnfold(e, g, op, docIndex, left, t, g', j);
      TxOpsUnfold(f, g, op, docIndex, left, t, g', j);
    }
  }

  lemma SameTransaction(e: Env, f: Env, g: Gen, op: Word)
    requires Alike(e, f) && e.cols != []
    ensures TransactionOp(e, g, op) == TransactionOp(f, g, op)
  {
    var (n, s) := Draw(e, if e.maxTxOps > 1 then e.maxTxOps else 1, g.src);
    SameTxOps(e, f, g.(src := s), op, 0, n + 1);
  }

  // ----------------------------------------------------------------- the fast paths

  function TypeOf(drawn: string): string { if drawn == "transaction" then "find" else drawn }

  /** Operation number op is one a worker with a pool sends on a fast path. */
  predicate FastPath(e: Env, op: Word)
    requires e.cols != []
  {
    var (c, drawn, _) := DrawOp(e, op);
    && !(drawn == "transaction" && e.useTransactions)
    && e.cols[c].name == e.cols[0].name && TypeOf(drawn) in {"insert", "insertMany", "find"}
  }

  /** Off the fast paths an operation does not depend on what was prepared for them. */
  lemma SameOffPath(e: Env, f: Env, own: Own, op: Word)
    requires Alike(e, f) && ValidEnv(e) && ValidEnv(f)
    requires FastPath(e, op) ==> !e.optimized && !f.optimized
    ensures Generate(e, own, op) == Generate(f, own, op)
  {
    var (c, drawn, s) := DrawOp(e, op);
    assert DrawOp(f, op) == (c, drawn, s);
    SameTransaction(e, f, Gen(s, own), op);
    SameStandard(e, f, Gen(s, own), e.cols[c], Namespace(e, e.cols[c]), TypeOf(drawn), op);
  }

  /** The key a fast operation uses; None for every other operation. */
  function FastKey(op: Op): Option<string>
  {
    match op
    case Skip => None
    case Op(_, _, Batch(batch, _, _)) => Some(batch.key)
    case Op(_, _, Args(fields)) =>
      if fields == [] || fields[0].key != "find" then None
      else
        match DocValue(fields, "filter")
        case Doc(filter) => if filter == [] then None else Some(filter[0].key)
        case _ => None
  }

  lemma StandardIsNotFast(r: Request)
    ensures StandardCommand(r) == [] || StandardCommand(r)[0].key != "find"
  {
  }

  lemma QueryOpIsNotFast(e: Env, g: Gen, col: Definition, ns: string, opType: string)
    ensures FastKey(QueryOp(e, g, col, ns, opType).0) == None
  {
    var (found, s) := e.query(opType, col, g.src);
    if found.Some? {
      var q := found.value;
      var r := RequestOf(e, opType, q);
      if opType != "aggregate" {
        StandardIsNotFast(r.(filter := Canonical(e, FillPlaceholders(e, g.(src := s), q.filter, col, ns).0)));
      } else if q.pipeline.None? {
        StandardIsNotFast(r);
      } else {
        StandardIsNotFast(r.(pipeline := e.canonical(FillPlaceholders(e, g.(src := s), q.pipeline.value, col, ns).0)));
      }
    }
  }

  lemma StandardOpIsNotFast(e: Env, g: Gen, col: Definition, ns: string, opType: string, op: Word)
    ensures FastKey(StandardOp(e, g, col, ns, opType, op).0) == None
  {
    if opType == "insert" {
      StandardIsNotFast(Blank(opType).(doc := e.ofRecord(InsertOne(e, g, col, ns, op, 0).0)));
    } else if opType == "insertMany" {
      StandardIsNotFast(Blank(opType).(docs := Some(Values(e, InsertDocs(e, g, col, ns, op, 0, e.insertBatch).0))));
    } else {
      QueryOpIsNotFast(e, g, col, ns, opType);
    }
  }

  lemma FastFindKey(name: string, key: string, ids: seq<Int64>, batch: Int64)
    ensures var fields := FastFindRecord(name, key, ids, batch);
            fields != [] && fields[0].key == "find" && DocValue(fields, "filter") == FastFilter(key, ids)
  {
    ShortAccess("find", Str(name), "filter", Some(FastFilter(key, ids)), "limit", Some(GoInt(batch)));
  }

  lemma FastFindOpKey(e: Env, g: Gen, col: Definition, ns: string)
    requires e.concurrency > 0
    ensures FastKey(FastFindOp(e, g, col, ns).0) == Some(e.patchKey)
  {
    var batch := FastBatchSize(e);
    var (pooled, s) := PooledIDs(e, g, col, ns);
    var (ids, t) := RandomIDs(e, s, pooled, batch);
    FastFindKey(col.name, e.patchKey, ids, Signed(batch % WORD));
  }

  lemma FastInsertOpKey(e: Env, g: Gen, col: Definition, ns: string, op: Word)
    requires e.pool != [] && forall b :: b in e.pool ==> b.key == e.patchKey
    ensures FastKey(FastInsertOp(e, g, col, ns, op).0) == Some(e.patchKey)
  {
    assert e.pool[Draw(e, |e.pool|, g.src).0] in e.pool;
  }

  lemma FastOpKey(e: Env, g: Gen, col: Definition, ns: string, op: Word, opType: string)
    requires ValidEnv(e) && e.optimized && col.name == e.cols[0].name && opType in {"insert", "insertMany", "find"}
    requires ns == Namespace(e, col) && forall b :: b in e.pool ==> b.key == e.patchKey
    ensures FastKey(ChosenOp(e, g, col, opType, op).0) == Some(e.patchKey)
  {
    if opType == "find" {
      FastFindOpKey(e, g, col, ns);
    } else {
      FastInsertOpKey(e, g, col, ns, op);
    }
  }

  // -------------------------------------------------------------------- prepared runs

  /** The keys a prepared worker can use: none or its own. */
  lemma GeneratedKey(e: Env, key: string, own: Own, op: Word)
    requires ValidEnv(e)
    ensures ValidEnv(PreparedWith(e, key))
    ensures FastKey(Generate(PreparedWith(e, key), own, op).0) ==
            if FastPath(e, op) && Builds(e, key) then Some(key) else None
  {
    PreparedValid(e, key);
    var f := PreparedWith(e, key);
    var (c, drawn, s) := DrawOp(e, op);
    assert DrawOp(f, op) == (c, drawn, s);
    var col, g := e.cols[c], Gen(s, own);
    if FastPath(e, op) && Builds(e, key) {
      FastOpKey(f, g, col, Namespace(f, col), op, TypeOf(drawn));
    } else if drawn != "transaction" || !e.useTransactions {
      StandardOpIsNotFast(f, g, col, Namespace(f, col), TypeOf(drawn), op);
    }
  }

  lemma PreparedValid(e: Env, key: string)
    requires ValidEnv(e)
    ensures ValidEnv(PreparedWith(e, key)) && Alike(e, PreparedWith(e, key))
    ensures PreparedWith(e, key).optimized <==> Builds(e, key)
    ensures Builds(e, key) ==> PreparedWith(e, key).patchKey == key && forall b :: b in PreparedWith(e, key).pool ==>
        b.key == key
  {
    forall op, j
      ensures SeededAt(PreparedWith(e, key), op, j)
    {
      assert SeededAt(e, op, j);
    }
  }

  ghost function RunWith(e: Env, key: string): Generator
    requires ValidEnv(e)
  {
    PreparedValid(e, key);
    GeneratorOf(PreparedWith(e, key))
  }

  /** Some of the first n operations takes a fast path. */
  ghost predicate AnyFast(e: Env, n: nat)
    requires e.cols != []
  {
    exists i :: 0 < i <= n && FastPath(e, i % WORD)
  }

  lemma SameStep(e: Env, j: string, k: string, own: Own, op: Word)
    requires ValidEnv(e) && (!FastPath(e, op) || (!Builds(e, j) && !Builds(e, k)))
    ensures RunWith(e, j)(own, op) == RunWith(e, k)(own, op)
  {
    PreparedValid(e, j);
    PreparedValid(e, k);
    SameOffPath(PreparedWith(e, j), PreparedWith(e, k), own, op);
  }

  ghost predicate SameAt(gen: Generator, gen': Generator, op: Word) { forall own :: gen(own, op) == gen'(own, op) }

  lemma {:induction false} SameTraffic(gen: Generator, gen': Generator, n: nat)
    requires forall i :: 0 < i <= n ==> SameAt(gen, gen', i % WORD)
    ensures Traffic(gen, n) == Traffic(gen', n)
  {
    if n > 0 {
      SameTraffic(gen, gen', n - 1);
      assert SameAt(gen, gen', n % WORD);
    }
  }

  /** Without fast operations, or without a pool, the traffic does not depend on the key. */
  lemma KeyUnused(e: Env, j: string, k: string, n: nat)
    requires ValidEnv(e) && (!AnyFast(e, n) || (!Builds(e, j) && !Builds(e, k)))
    ensures Traffic(RunWith(e, j), n) == Traffic(RunWith(e, k), n)
  {
    forall i | 0 < i <= n
      ensures SameAt(RunWith(e, j), RunWith(e, k), i % WORD)
    {
      assert FastPath(e, i % WORD) ==> AnyFast(e, n);
      forall own
        ensures RunWith(e, j)(own, i % WORD) == RunWith(e, k)(own, i % WORD)
      {
        SameStep(e, j, k, own, i % WORD);
      }
    }
    SameTraffic(RunWith(e, j), RunWith(e, k), n);
  }

  ghost predicate Uses(ops: seq<Op>, key: string) { exists op :: op in ops && FastKey(op) == Some(key) }

  lemma StepKey(e: Env, key: string, own: Own, op: Word, k: string)
    requires ValidEnv(e)
    ensures FastKey(RunWith(e, key)(own, op).0) == Some(k) <==> k == key && Builds(e, key) && FastPath(e, op)
  {
    GeneratedKey(e, key, own, op);
  }

  lemma UsesNext(ops: seq<Op>, op: Op, k: string)
    ensures Uses(ops + if op.Skip? then [] else [op], k) <==> Uses(ops, k) || FastKey(op) == Some(k)
  {
    var all := ops + if op.Skip? then [] else [op];
    if !op.Skip? {
      assert all[|ops|] == op;
    }
    assert forall o :: o in all <==> o in ops || (o == op && !op.Skip?);
  }

  /** Whether operation op uses the key k depends on its number only. */
  ghost predicate KeyAt(gen: Generator, k: string, op: Word, uses: bool)
  {
    forall own {:trigger gen(own, op)} :: FastKey(gen(own, op).0) == Some(k) <==> uses
  }

  lemma {:induction false} SentUses(gen: Generator, k: string, n: nat, uses: nat -> bool)
    requires forall i :: 0 < i <= n ==> KeyAt(gen, k, i % WORD, uses(i))
    ensures Uses(SentOf(gen, n), k) <==> exists i :: 0 < i <= n && uses(i)
  {
    if n > 0 {
      var own := Traffic(gen, n - 1).1;
      SentUses(gen, k, n - 1, uses);
      SentNext(gen, n);
      assert KeyAt(gen, k, n % WORD, uses(n));
      UsesNext(SentOf(gen, n - 1), gen(own, n % WORD).0, k);
    }
  }

  /** A run uses no key but its own, and that one exactly when it has a pool and some fast operation. */
  lemma SentKeys(e: Env, key: string, n: nat, k: string)
    requires ValidEnv(e)
    ensures Uses(SentOf(RunWith(e, key), n), k) <==> k == key && Builds(e, key) && AnyFast(e, n)
  {
    var uses := (i: nat) => k == key && Builds(e, key) && FastPath(e, i % WORD);
    forall i | 0 < i <= n
      ensures KeyAt(RunWith(e, key), k, i % WORD, uses(i))
    {
      forall own
        ensures FastKey(RunWith(e, key)(own, i % WORD).0) == Some(k) <==> uses(i)
      {
        StepKey(e, key, own, i % WORD, k);
      }
    }
    SentUses(RunWith(e, key), k, n, uses);
    if AnyFast(e, n) {
      var i :| 0 < i <= n && FastPath(e, i % WORD);
      assert uses(i) <==> k == key && Builds(e, key);
    }
  }

  // --------------------------------------------------------------- main results

  /** The worker's generator when the map gives the fields of the first definition in this order. */
  ghost function RunOf(e: Env, order: seq<string>): Generator
    requires ValidEnv(e)
  {
    RunWith(e, PatchKeyOf(e.lower, e.cols[0], order))
  }

  /** The map's order has no effect on the first n operations: a condition on definitions and drawn operations. */
  ghost predicate Settled(e: Env, n: nat)
    requires e.cols != []
  {
    || KeyDetermined(e.lower, e.cols[0]) || !AnyFast(e, n)
    || forall key :: key in PossibleKeys(e.lower, e.cols[0]) ==> !Builds(e, key)
  }

  ghost predicate SendSame(e: Env, n: nat)
    requires ValidEnv(e)
  {
    forall o, o' :: Ranges(o, e.cols[0]) && Ranges(o', e.cols[0]) ==>
      SentOf(RunOf(e, o), n) == SentOf(RunOf(e, o'), n)
  }

  lemma SettledSame(e: Env, n: nat, o: seq<string>, o': seq<string>)
    requires ValidEnv(e) && Settled(e, n) && Ranges(o, e.cols[0]) && Ranges(o', e.cols[0])
    ensures SentOf(RunOf(e, o), n) == SentOf(RunOf(e, o'), n)
  {
    var col := e.cols[0];
    PossibleKey(e.lower, col, o);
    PossibleKey(e.lower, col, o');
    if KeyDetermined(e.lower, col) {
      DeterminedKeys(e.lower, col);
    } else {
      KeyUnused(e, PatchKeyOf(e.lower, col, o), PatchKeyOf(e.lower, col, o'), n);
    }
  }

  lemma UnsettledDiffers(e: Env, n: nat) returns (o: seq<string>, o': seq<string>)
    requires ValidEnv(e) && !Settled(e, n)
    ensures Ranges(o, e.cols[0]) && Ranges(o', e.cols[0]) && SentOf(RunOf(e, o), n) != SentOf(RunOf(e, o'), n)
  {
    var col := e.cols[0];
    var j :| j in PossibleKeys(e.lower, col) && Builds(e, j);
    var k := OtherKey(e.lower, col, j);
    PossibleExact(e.lower, col, j);
    PossibleExact(e.lower, col, k);
    o :| Ranges(o, col) && PatchKeyOf(e.lower, col, o) == j;
    o' :| Ranges(o', col) && PatchKeyOf(e.lower, col, o') == k;
    SentKeys(e, j, n, j);
    SentKeys(e, k, n, j);
  }

  /**
   Whatever order the map has, the first n operations of a worker are the same exactly when
   the first definition determines the key, or no order gives a pool, or none of these
   operations takes a fast path.
   */
  lemma SendSameExact(e: Env, n: nat)
    requires ValidEnv(e)
    ensures SendSame(e, n) <==> Settled(e, n)
  {
    if Settled(e, n) {
      forall o, o' | Ranges(o, e.cols[0]) && Ranges(o', e.cols[0])
        ensures SentOf(RunOf(e, o), n) == SentOf(RunOf(e, o'), n)
      {
        SettledSame(e, n, o, o');
      }
    } else {
      var o, o' := UnsettledDiffers(e, n);
    }
  }

  /** newDetWorker and deterministicWorker: a worker prepares its key and pool, and then sends. */
  method RunDeterministic(e: Env, order: seq<string>, checks: nat, pauses: nat -> bool, outcomes: nat -> bool)
    returns (st: Stream)
    requires ValidEnv(e) && Agree(e.seeding, e.cols, e.seeded) && Ranges(order, e.cols[0])
    ensures StreamOf(RunOf(e, order), e.budget, st)
  {
    PreparedValid(e, PatchKeyOf(e.lower, e.cols[0], order));
    var prepared := PrepareWorker(e, order);
    var w := new DetWorker(prepared);
    st := RunWorker(w, checks, pauses, outcomes);
  }

  ghost predicate SameSents(gen: Generator, gen': Generator, n: nat)
  {
    forall m: nat :: m <= n ==> SentOf(gen, m) == SentOf(gen', m)
  }

  lemma SettledSents(e: Env, n: nat, o: seq<string>, o': seq<string>)
    requires ValidEnv(e) && Settled(e, n) && Ranges(o, e.cols[0]) && Ranges(o', e.cols[0])
    ensures SameSents(RunOf(e, o), RunOf(e, o'), n)
  {
    forall m: nat | m <= n
      ensures SentOf(RunOf(e, o), m) == SentOf(RunOf(e, o'), m)
    {
      assert Settled(e, m);
      SettledSame(e, m, o, o');
    }
  }

  lemma SameStreamsAgree(gen: Generator, gen': Generator, budget: nat, n: nat, s: Stream, t: Stream)
    requires SameSents(gen, gen', n) && n >= t.generated && n >= budget
    requires StreamOf(gen, budget, s) && StreamOf(gen', budget, t)
    ensures s.sent <= t.sent || t.sent <= s.sent
    ensures s.completed && t.completed ==> s.hashed == t.hashed
  {
    assert SentOf(gen, budget) == SentOf(gen', budget) && SentOf(gen, t.generated) == SentOf(gen', t.generated);
    assert t.generated > 0 ==> SentOf(gen, t.generated - 1) == SentOf(gen', t.generated - 1);
    assert StreamOf(gen, budget, t);
    StreamsAgree(gen, budget, s, t);
  }

  /**
   Two runs with one configuration, whatever the order of the map in each, send the same
   commands as far as both got and hash the same when complete, if the order has no effect
   on the operations they generated.
   */
  lemma RunsAgree(e: Env, n: nat, o: seq<string>, o': seq<string>, s: Stream, t: Stream)
    requires ValidEnv(e) && Settled(e, n) && Ranges(o, e.cols[0]) && Ranges(o', e.cols[0])
    requires n >= t.generated && n >= e.budget
    requires StreamOf(RunOf(e, o), e.budget, s) && StreamOf(RunOf(e, o'), e.budget, t)
    ensures s.sent <= t.sent || t.sent <= s.sent
    ensures s.completed && t.completed ==> s.hashed == t.hashed
  {
    SettledSents(e, n, o, o');
    SameStreamsAgree(RunOf(e, o), RunOf(e, o'), e.budget, n, s, t);
  }

  /** Complete runs of two generators never hash the same. */
  ghost predicate NeverMatch(gen: Generator, gen': Generator, budget: nat)
  {
    forall s, t :: StreamOf(gen, budget, s) && StreamOf(gen', budget, t) && s.completed && t.completed ==>
      s.hashed != t.hashed
  }

  /** Otherwise there are two orders with which complete runs never hash the same. */
  lemma RunsDiffer(e: Env) returns (o: seq<string>, o': seq<string>)
    requires ValidEnv(e) && !Settled(e, e.budget)
    ensures Ranges(o, e.cols[0]) && Ranges(o', e.cols[0])
    ensures NeverMatch(RunOf(e, o), RunOf(e, o'), e.budget)
  {
    o, o' := UnsettledDiffers(e, e.budget);
  }

  /** So do complete runs that start with the orders of the example and send a fast operation. */
  lemma OrdersDiffer(e: Env) returns (o: seq<string>, o': seq<string>)
    requires ValidEnv(e) && e.lower('i') == 'i' && e.lower('d') == 'd'
    requires e.cols[0].fields == ORDER_FIELDS && e.cols[0].shardKey == []
    requires Builds(e, "order_id") && AnyFast(e, e.budget)
    ensures Ranges(o, e.cols[0]) && Ranges(o', e.cols[0])
    ensures NeverMatch(RunOf(e, o), RunOf(e, o'), e.budget)
  {
    OrdersUndetermined(e.lower, e.cols[0]);
    PossibleExact(e.lower, e.cols[0], "order_id");
    o, o' := RunsDiffer(e);
  }
}
