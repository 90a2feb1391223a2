/**
 The cache of regenerated seeded documents of a deterministic worker
 (detWorker.seededDoc in internal/mongo/workload_deterministic.go).
 */
module SeededCache {
  import opened Text
  import opened CommandCodec

  /** A collection definition: the type of each field and the fields of a shard key; content stands for the rest. */
  datatype Definition = Definition(
    database: string, name: string, fields: map<string, string>, shardKey: seq<string>, content: int)

  predicate HasID(col: Definition) { "_id" in col.fields }

  type Record = map<string, Value>

  const CACHE_MAX: nat := 4096

  /** How the k-th document is generated, and its _id when seeded documents got one. */
  datatype Seeding = Seeding(generate: (Definition, nat) -> Record, ids: bool, idOf: (string, nat) -> Value)

  function SeedNamespace(col: Definition): string { col.database + "." + col.name }

  function CacheKey(col: Definition, k: nat): string { SeedNamespace(col) + ['\0'] + Itoa(k) }

  /** The k-th seeded document, generated afresh. */
  function Seeded(s: Seeding, col: Definition, k: nat): Record
  {
    var doc := s.generate(col, k);
    if s.ids && "_id" !in doc then doc["_id" := s.idOf(SeedNamespace(col), k)] else doc
  }

  type Cache = map<string, Record>

  /** The document seededDoc returns and the cache it leaves. */
  function Lookup(s: Seeding, cache: Cache, col: Definition, k: nat): (Record, Cache)
  {
    var key := CacheKey(col, k);
    if key in cache then (cache[key], cache)
    else
      var doc := Seeded(s, col, k);
      (doc, (if |cache| >= CACHE_MAX then map[] else cache)[key := doc])
  }

  lemma KeyInjective(c: Definition, k: nat, d: Definition, j: nat)
    ensures CacheKey(c, k) == CacheKey(d, j) <==> SeedNamespace(c) == SeedNamespace(d) && k == j
  {
    if CacheKey(c, k) == CacheKey(d, j) {
      ItoaDigits(k);
      ItoaDigits(j);
      LastSeparator(SeedNamespace(c), Itoa(k), SeedNamespace(d), Itoa(j), '\0');
      ItoaInjective(k, j);
    }
  }

  /** Definitions that share a namespace string generate the same first n documents. */
  ghost predicate Agree(s: Seeding, cols: seq<Definition>, n: nat)
  {
    forall c, d, k: nat :: c in cols && d in cols && k < n && SeedNamespace(c) == SeedNamespace(d) ==>
      Seeded(s, c, k) == Seeded(s, d, k)
  }

  /** What is cached for a document of these collections is that document. */
  ghost predicate Faithful(s: Seeding, cols: seq<Definition>, n: nat, cache: Cache)
  {
    forall c, k: nat :: c in cols && k < n && CacheKey(c, k) in cache ==> cache[CacheKey(c, k)] == Seeded(s, c, k)
  }

  /** With a faithful cache the lookup returns the document, and the cache stays faithful and bounded. */
  lemma LookupFaithful(s: Seeding, cols: seq<Definition>, n: nat, cache: Cache, col: Definition, k: nat)
    requires Agree(s, cols, n) && Faithful(s, cols, n, cache) && col in cols && k < n
    ensures Lookup(s, cache, col, k).0 == Seeded(s, col, k)
    ensures Faithful(s, cols, n, Lookup(s, cache, col, k).1)
    ensures |cache| <= CACHE_MAX ==> |Lookup(s, cache, col, k).1| <= CACHE_MAX
  {
    var after := Lookup(s, cache, col, k).1;
    forall c, j: nat | c in cols && j < n && CacheKey(c, j) in after
      ensures after[CacheKey(c, j)] == Seeded(s, c, j)
    {
      KeyInjective(c, j, col, k);
    }
  }

  datatype Ask = Ask(col: Definition, k: nat)

  /** The documents a sequence of lookups returns. */
  function Answers(s: Seeding, cache: Cache, asks: seq<Ask>): seq<Record>
    decreases |asks|
  {
    if asks == [] then []
    else
      var r := Lookup(s, cache, asks[0].col, asks[0].k);
      [r.0] + Answers(s, r.1, asks[1..])
  }

  predicate AsksOf(asks: seq<Ask>, cols: seq<Definition>, n: nat) { forall a :: a in asks ==> a.col in cols && a.k < n }

  /** No sequence of lookups shows that there is a cache. */
  ghost predicate Invisible(s: Seeding, cols: seq<Definition>, n: nat)
  {
    forall asks: seq<Ask> :: AsksOf(asks, cols, n) ==>
      |Answers(s, map[], asks)| == |asks|
      && forall i :: 0 <= i < |asks| ==> Answers(s, map[], asks)[i] == Seeded(s, asks[i].col, asks[i].k)
  }

  lemma {:induction false} AnswersFaithful(s: Seeding, cols: seq<Definition>, n: nat, cache: Cache, asks: seq<Ask>)
    requires Agree(s, cols, n) && Faithful(s, cols, n, cache) && AsksOf(asks, cols, n)
    ensures |Answers(s, cache, asks)| == |asks|
    ensures forall i :: 0 <= i < |asks| ==> Answers(s, cache, asks)[i] == Seeded(s, asks[i].col, asks[i].k)
    decreases |asks|
  {
    if asks != [] {
      assert asks[0] in asks;
      LookupFaithful(s, cols, n, cache, asks[0].col, asks[0].k);
      AnswersFaithful(s, cols, n, Lookup(s, cache, asks[0].col, asks[0].k).1, asks[1..]);
    }
  }

  lemma Disagreement(s: Seeding, cols: seq<Definition>, n: nat, c: Definition, d: Definition, k: nat)
    requires c in cols && d in cols && k < n && SeedNamespace(c) == SeedNamespace(d)
        && Seeded(s, c, k) != Seeded(s, d, k)
    ensures !Invisible(s, cols, n)
  {
    var asks := [Ask(c, k), Ask(d, k)];
    KeyInjective(c, k, d, k);
    var cache := Lookup(s, map[], c, k).1;
    assert asks[1..] == [Ask(d, k)];
    assert Answers(s, cache, [Ask(d, k)])[0] == Seeded(s, c, k);
    assert Answers(s, map[], asks)[1] == Seeded(s, c, k);
    assert AsksOf(asks, cols, n);
  }

  /** The cache is invisible exactly when definitions with the same namespace string generate the same documents. */
  lemma InvisibleExact(s: Seeding, cols: seq<Definition>, n: nat)
    ensures Invisible(s, cols, n) <==> Agree(s, cols, n)
  {
    if Agree(s, cols, n) {
      forall asks: seq<Ask> | AsksOf(asks, cols, n)
        ensures |Answers(s, map[], asks)| == |asks|
        ensures forall i :: 0 <= i < |asks| ==> Answers(s, map[], asks)[i] == Seeded(s, asks[i].col, asks[i].k)
      {
        AnswersFaithful(s, cols, n, map[], asks);
      }
    } else {
      var c, d, k: nat :| c in cols && d in cols && k < n && SeedNamespace(c) == SeedNamespace(d)
        && Seeded(s, c, k) != Seeded(s, d, k);
      Disagreement(s, cols, n, c, d, k);
    }
  }

  // ------------------------------------------------- definitions that passed validation

  function LowerAll(lower: char -> char, s: string): string { seq(|s|, i requires 0 <= i < |s| => lower(s[i])) }

  /** The key ValidateCollectionDefinitions checks for duplicates. */
  function DuplicateKey(lower: char -> char, c: Definition): string
  {
    LowerAll(lower, TrimSpace(c.database)) + "." + LowerAll(lower, TrimSpace(c.name))
  }

  ghost predicate Validated(lower: char -> char, cols: seq<Definition>)
  {
    forall i, j :: 0 <= i < j < |cols| ==> DuplicateKey(lower, cols[i]) != DuplicateKey(lower, cols[j])
  }

  predicate Unpadded(c: Definition) { TrimSpace(c.database) == c.database && TrimSpace(c.name) == c.name }

  lemma UnpaddedKey(lower: char -> char, c: Definition)
    requires Unpadded(c) && lower('.') == '.'
    ensures DuplicateKey(lower, c) == LowerAll(lower, SeedNamespace(c))
  {
  }

  lemma SameNamespace(lower: char -> char, cols: seq<Definition>, c: Definition, d: Definition)
    requires lower('.') == '.' && Validated(lower, cols) && c in cols && d in cols && Unpadded(c) && Unpadded(d)
    requires SeedNamespace(c) == SeedNamespace(d)
    ensures c == d
  {
    var i :| 0 <= i < |cols| && cols[i] == c;
    var j :| 0 <= j < |cols| && cols[j] == d;
    assert DuplicateKey(lower, cols[i]) == DuplicateKey(lower, cols[j]) by {
      UnpaddedKey(lower, c);
      UnpaddedKey(lower, d);
    }
    assert i == j;
  }

  /** Validated definitions without padded names never share a namespace string, so the cache is invisible. */
  lemma ValidatedIsInvisible(lower: char -> char, s: Seeding, cols: seq<Definition>, n: nat)
    requires lower('.') == '.' && Validated(lower, cols) && forall c :: c in cols ==> Unpadded(c)
    ensures Agree(s, cols, n) && Invisible(s, cols, n)
  {
    forall c, d, k: nat | c in cols && d in cols && k < n && SeedNamespace(c) == SeedNamespace(d)
      ensures Seeded(s, c, k) == Seeded(s, d, k)
    {
      SameNamespace(lower, cols, c, d);
    }
    InvisibleExact(s, cols, n);
  }

  /** Without a dot in a database name, as the server requires, validated definitions make the cache invisible. */
  lemma DotlessIsInvisible(lower: char -> char, s: Seeding, cols: seq<Definition>, n: nat)
    requires Validated(lower, cols) && forall c :: c in cols ==> '.' !in c.database
    ensures Agree(s, cols, n) && Invisible(s, cols, n)
  {
    forall c, d, k: nat | c in cols && d in cols && k < n && SeedNamespace(c) == SeedNamespace(d)
      ensures Seeded(s, c, k) == Seeded(s, d, k)
    {
      CutJoined(c.database, c.name);
      CutJoined(d.database, d.name);
      var i :| 0 <= i < |cols| && cols[i] == c;
      var j :| 0 <= j < |cols| && cols[j] == d;
      assert DuplicateKey(lower, cols[i]) == DuplicateKey(lower, cols[j]);
    }
    InvisibleExact(s, cols, n);
  }

  /** Documents that tell in which database they were generated. */
  function TellDatabase(c: Definition, k: nat): Record { map["database" := Str(c.database)] }

  lemma PaddedKeys(lower: char -> char, c: Definition, d: Definition)
    requires c.database == "a" && c.name == " b.c" && d.database == "a. b" && d.name == "c"
    ensures SeedNamespace(c) == SeedNamespace(d) && DuplicateKey(lower, c) != DuplicateKey(lower, d)
  {
    assert SeedNamespace(c) == "a. b.c" == SeedNamespace(d);
    assert TrimLeft(" b.c") == "b.c" by { assert " b.c"[1..] == "b.c"; }
    assert TrimSpace(c.database) == "a" && TrimSpace(c.name) == "b.c";
    assert TrimSpace(d.database) == "a. b" && TrimSpace(d.name) == "c";
    assert |DuplicateKey(lower, c)| == 5 && |DuplicateKey(lower, d)| == 6;
  }

  function TellSeeding(): Seeding { Seeding(TellDatabase, false, (ns: string, k: nat) => Nil) }

  lemma ToldApart(c: Definition, d: Definition)
    requires c.database != d.database
    ensures Seeded(TellSeeding(), c, 0) != Seeded(TellSeeding(), d, 0)
  {
    assert Seeded(TellSeeding(), c, 0)["database"] == Str(c.database);
    assert Seeded(TellSeeding(), d, 0)["database"] == Str(d.database);
  }

  lemma ToldMixed(c: Definition, d: Definition)
    requires SeedNamespace(c) == SeedNamespace(d) && c.database != d.database
    ensures exists s :: !Invisible(s, [c, d], 1)
  {
    ToldApart(c, d);
    Disagreement(TellSeeding(), [c, d], 1, c, d, 0);
  }

  /**
   A database name with a dot can pass validation and show the cache: "a" and " b.c" next to
   "a. b" and "c".
   */
  lemma DottedShowsCache(lower: char -> char, c: Definition, d: Definition)
    requires c.database == "a" && c.name == " b.c" && d.database == "a. b" && d.name == "c"
    ensures Validated(lower, [c, d]) && exists s :: !Invisible(s, [c, d], 1)
  {
    PaddedKeys(lower, c, d);
    ToldMixed(c, d);
  }
}
