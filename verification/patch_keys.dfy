/**
 The integer key of the prebuilt batches (identifyPatchKey in internal/mongo/runner.go) and
 what a worker prepares with it (newDetWorker in internal/mongo/workload_deterministic.go).
 The key can be found by ranging over a map, so it may depend on the map's order.
 */
module PatchKeys {
  import opened SeededCache
  import opened TrafficSpec
  import opened CommandCodec

  const MAGIC: Int64 := 0x1122334455667788
  const POOL_SIZE: nat := 20

  predicate IntegerType(t: string) { t == "int" || t == "long" }

  predicate ContainsID(s: string) { exists i :: 0 <= i < |s| - 1 && s[i] == 'i' && s[i + 1] == 'd' }

  /** An int or long field with "id" in its lower-case name. */
  predicate Suitable(lower: char -> char, col: Definition, k: string)
  {
    k in col.fields && IntegerType(col.fields[k]) && ContainsID(LowerAll(lower, k))
  }

  function FirstSuitable(lower: char -> char, col: Definition, order: seq<string>): string
  {
    if order == [] then "" else if Suitable(lower, col, order[0]) then order[0]
      else FirstSuitable(lower, col, order[1..])
  }

  predicate IntegerID(col: Definition) { HasID(col) && IntegerType(col.fields["_id"]) }

  /** The key when ranging over the fields gives them in this order. */
  function PatchKeyOf(lower: char -> char, col: Definition, order: seq<string>): string
  {
    if col.shardKey != [] then col.shardKey[0]
    else if IntegerID(col) then "_id"
    else FirstSuitable(lower, col, order)
  }

  /** An order in which a range over the map can give its keys. */
  ghost predicate Ranges(order: seq<string>, col: Definition)
  {
    && (forall k :: k in order <==> k in col.fields)
    && (forall i, j :: 0 <= i < j < |order| ==> order[i] != order[j])
  }

  method IdentifyPatchKey(lower: char -> char, col: Definition, order: seq<string>) returns (key: string)
    requires Ranges(order, col)
    ensures key == PatchKeyOf(lower, col, order)
  {
    if |col.shardKey| > 0 {
      return col.shardKey[0];
    }
    if "_id" in col.fields && (col.fields["_id"] == "int" || col.fields["_id"] == "long") {
      return "_id";
    }
    for i := 0 to |order|
      invariant FirstSuitable(lower, col, order) == FirstSuitable(lower, col, order[i..])
    {
      var k := order[i];
      if (col.fields[k] == "int" || col.fields[k] == "long") && ContainsID(LowerAll(lower, k)) {
        return k;
      }
    }
    return "";
  }

  // -------------------------------------------------------------- the possible keys

  function SuitableKeys(lower: char -> char, col: Definition): set<string>
  {
    set k | k in col.fields && Suitable(lower, col, k)
  }

  /** Every key that some order of the map gives. */
  function PossibleKeys(lower: char -> char, col: Definition): set<string>
  {
    if col.shardKey != [] then {col.shardKey[0]}
    else if IntegerID(col) then {"_id"}
    else if SuitableKeys(lower, col) == {} then {""}
    else SuitableKeys(lower, col)
  }

  lemma {:induction false} SuitableIsFound(lower: char -> char, col: Definition, order: seq<string>)
    ensures FirstSuitable(lower, col, order) != "" ==> FirstSuitable(lower, col, order) in SuitableKeys(lower, col)
    ensures FirstSuitable(lower, col, order) == "" ==> forall k :: k in order ==> !Suitable(lower, col, k)
  {
    if order != [] {
      SuitableIsFound(lower, col, order[1..]);
      assert order == [order[0]] + order[1..];
    }
  }

  lemma SomeOrder(keys: set<string>) returns (order: seq<string>)
    ensures forall k :: k in order <==> k in keys
    ensures forall i, j :: 0 <= i < j < |order| ==> order[i] != order[j]
    decreases keys
  {
    order := [];
    if k :| k in keys {
      order := SomeOrder(keys - {k});
      order := [k] + order;
    }
  }

  /** A range that starts with a given field. */
  lemma OrderFrom(col: Definition, k: string) returns (order: seq<string>)
    requires k in col.fields
    ensures Ranges(order, col) && order[0] == k
  {
    var rest := SomeOrder(col.fields.Keys - {k});
    order := [k] + rest;
  }

  /** A key is possible exactly when ranging over the fields in some order gives it. */
  lemma PossibleExact(lower: char -> char, col: Definition, k: string)
    ensures k in PossibleKeys(lower, col) <==> exists order :: Ranges(order, col) && PatchKeyOf(lower, col, order) == k
  {
    if order :| Ranges(order, col) && PatchKeyOf(lower, col, order) == k {
      PossibleKey(lower, col, order);
    }
    if k in PossibleKeys(lower, col) {
      var order;
      if col.shardKey == [] && !IntegerID(col) && k in SuitableKeys(lower, col) {
        order := OrderFrom(col, k);
      } else {
        order := SomeOrder(col.fields.Keys);
        SuitableIsFound(lower, col, order);
      }
      assert Ranges(order, col) && PatchKeyOf(lower, col, order) == k;
    }
  }

  lemma PossibleKey(lower: char -> char, col: Definition, order: seq<string>)
    requires Ranges(order, col)
    ensures PatchKeyOf(lower, col, order) in PossibleKeys(lower, col)
  {
    SuitableIsFound(lower, col, order);
    assert forall k :: k in SuitableKeys(lower, col) ==> k in order;
  }

  /** The definition alone determines the key: a shard key, an integer _id or at most one suitable field. */
  ghost predicate KeyDetermined(lower: char -> char, col: Definition)
  {
    || col.shardKey != [] || IntegerID(col)
    || forall j, k :: Suitable(lower, col, j) && Suitable(lower, col, k) ==> j == k
  }

  ghost predicate SameKeys(lower: char -> char, col: Definition)
  {
    forall o, o' :: Ranges(o, col) && Ranges(o', col) ==> PatchKeyOf(lower, col, o) == PatchKeyOf(lower, col, o')
  }

  lemma OtherKey(lower: char -> char, col: Definition, key: string) returns (other: string)
    requires !KeyDetermined(lower, col)
    ensures other in PossibleKeys(lower, col) && other != key && other != ""
  {
    var j, k :| Suitable(lower, col, j) && Suitable(lower, col, k) && j != k;
    assert j in SuitableKeys(lower, col) && k in SuitableKeys(lower, col);
    other := if j != key then j else k;
  }

  lemma DeterminedKeys(lower: char -> char, col: Definition)
    requires KeyDetermined(lower, col)
    ensures SameKeys(lower, col)
  {
    forall o, o' | Ranges(o, col) && Ranges(o', col)
      ensures PatchKeyOf(lower, col, o) == PatchKeyOf(lower, col, o')
    {
      PossibleKey(lower, col, o);
      PossibleKey(lower, col, o');
    }
  }

  /** Every order of the map gives the same key exactly when the definition determines it. */
  lemma KeyDeterminedExact(lower: char -> char, col: Definition)
    ensures SameKeys(lower, col) <==> KeyDetermined(lower, col)
  {
    if KeyDetermined(lower, col) {
      DeterminedKeys(lower, col);
    } else {
      var j := OtherKey(lower, col, "");
      var k := OtherKey(lower, col, j);
      PossibleExact(lower, col, j);
      PossibleExact(lower, col, k);
    }
  }

  // ------------------------------------------------------------------- an example

  /** The fields of the orders of resources/collections/multi_collections.json. */
  const ORDER_FIELDS: map<string, string> :=
    map["order_id" := "int", "customer_id" := "int", "status" := "string", "total_amount" := "int",
        "shipping_city" := "string", "is_expedited_shipping" := "bool", "items_count" := "int"]

  lemma EndsWithID(lower: char -> char, before: string)
    requires lower('i') == 'i' && lower('d') == 'd'
    ensures ContainsID(LowerAll(lower, before + "id"))
  {
    var s := LowerAll(lower, before + "id");
    assert s[|before|] == 'i' && s[|before| + 1] == 'd';
  }

  /** order_id and customer_id: one definition, two possible keys. */
  lemma OrdersUndetermined(lower: char -> char, col: Definition)
    requires lower('i') == 'i' && lower('d') == 'd' && col.fields == ORDER_FIELDS && col.shardKey == []
    ensures !KeyDetermined(lower, col)
    ensures exists o, o' :: Ranges(o, col) && Ranges(o', col) && PatchKeyOf(lower, col, o) == "order_id"
                         && PatchKeyOf(lower, col, o') == "customer_id"
  {
    EndsWithID(lower, "order_");
    EndsWithID(lower, "customer_");
    assert "order_" + "id" == "order_id" && "customer_" + "id" == "customer_id";
    assert Suitable(lower, col, "order_id") && Suitable(lower, col, "customer_id");
    assert "order_id" != "customer_id" && !HasID(col);
    assert {"order_id", "customer_id"} <= SuitableKeys(lower, col);
    PossibleExact(lower, col, "order_id");
    PossibleExact(lower, col, "customer_id");
  }

  // ------------------------------------------------------------- what a worker prepares

  function Marked(e: Env, key: string, p: nat, i: nat): Record { e.setup(p, i)[key := I64(MAGIC)] }

  function BatchDocs(e: Env, key: string, p: nat): (docs: seq<Record>)
    ensures |docs| == e.insertBatch && forall i :: 0 <= i < |docs| ==> docs[i] == Marked(e, key, p, i)
  {
    seq(e.insertBatch, i requires 0 <= i < e.insertBatch => Marked(e, key, p, i))
  }

  function PoolOf(e: Env, key: string): (pool: seq<Prebuilt>)
    ensures |pool| == POOL_SIZE && forall p :: 0 <= p < |pool| ==> pool[p] == Prebuilt(key, BatchDocs(e, key, p))
  {
    seq(POOL_SIZE, p requires 0 <= p < POOL_SIZE => Prebuilt(key, BatchDocs(e, key, p)))
  }

  ghost predicate Encodes(e: Env, key: string, p: nat)
  {
    forall i :: 0 <= i < e.insertBatch ==> e.encodes(Marked(e, key, p, i))
  }

  /** There is a key and every document of the pool can be encoded; an encoded document has its marker. */
  ghost predicate Builds(e: Env, key: string) { key != "" && forall p :: 0 <= p < POOL_SIZE ==> Encodes(e, key, p) }

  function Optimized(e: Env, key: string): Env { e.(optimized := true, patchKey := key, pool := PoolOf(e, key)) }

  function Unoptimized(e: Env): Env { e.(optimized := false, patchKey := "", pool := []) }

  ghost function PreparedWith(e: Env, key: string): Env { if Builds(e, key) then Optimized(e, key) else Unoptimized(e) }

  /** The worker's environment when ranging over the first definition's fields gives them in this order. */
  ghost function Prepared(e: Env, order: seq<string>): Env
    requires e.cols != []
  {
    PreparedWith(e, PatchKeyOf(e.lower, e.cols[0], order))
  }

  method PrepareBatch(e: Env, key: string, p: nat) returns (docs: seq<Record>, ok: bool)
    ensures ok <==> Encodes(e, key, p)
    ensures ok ==> docs == BatchDocs(e, key, p)
  {
    docs := [];
    for i := 0 to e.insertBatch
      invariant docs == BatchDocs(e, key, p)[..i]
      invariant forall j :: 0 <= j < i ==> e.encodes(Marked(e, key, p, j))
    {
      var doc := e.setup(p, i)[key := I64(MAGIC)];
      assert doc == Marked(e, key, p, i);
      if !e.encodes(doc) {
        return docs, false;
      }
      docs := docs + [doc];
    }
    return docs, true;
  }

  /** prepareGenericBatchPoolWith and the three fields newDetWorker sets. */
  method PrepareWorker(e: Env, order: seq<string>) returns (w: Env)
    requires e.cols != [] && Ranges(order, e.cols[0])
    ensures w == Prepared(e, order)
  {
    var key := IdentifyPatchKey(e.lower, e.cols[0], order);
    if key == "" {
      return Unoptimized(e);
    }
    var pool := [];
    for p := 0 to POOL_SIZE
      invariant pool == PoolOf(e, key)[..p]
      invariant forall b :: 0 <= b < p ==> Encodes(e, key, b)
    {
      var docs, ok := PrepareBatch(e, key, p);
      if !ok {
        return Unoptimized(e);
      }
      pool := pool + [Prebuilt(key, docs)];
    }
    return e.(optimized := true, patchKey := key, pool := pool);
  }
}
