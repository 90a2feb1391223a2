/**
 Classification of a captured filter into equality and range fields
 (classifyFilter and classifyField in internal/stats/index_advice.go).
 */
module Predicates {
  import Loops
  import opened Wrappers

  /** A captured literal or filter. Opaque stands for null, dates, object ids and other scalars. */
  datatype Value =
    | Str(s: string) | Bool(b: bool) | Int(n: int) | Double(r: real) | Opaque(id: int)
    | Document(m: map<string, Value>) | List(items: seq<Value>)

  /** The comparable form of a scalar: its type letter and its printed value. */
  datatype Token = StrToken(s: string) | BoolToken(b: bool) | IntToken(n: int)

  const MIN_INT64: int := -0x8000_0000_0000_0000

  /** int64(x) of a whole float64, on a platform that gives the lowest integer out of range. */
  function ToInt64(r: real): int
  {
    var n := r.Floor;
    if MIN_INT64 <= n < -MIN_INT64 then n else MIN_INT64
  }

  function CanonicalPredicateValue(v: Value): Option<Token>
  {
    match v
    case Str(s) => Some(StrToken(s))
    case Bool(b) => Some(BoolToken(b))
    case Int(n) => Some(IntToken(n))
    case Double(r) => if r.Floor as real == r then Some(IntToken(ToInt64(r))) else None
    case _ => None
  }

  predicate IsOperator(k: string) { k != "" && k[0] == '$' }

  predicate OperatorDoc(m: map<string, Value>) { m != map[] && forall k :: k in m ==> IsOperator(k) }

  const RANGE_OPS: set<string> := {"$gt", "$gte", "$lt", "$lte"}

  // ------------------------------------------------------- what is classified

  datatype Facts = Facts(eqSet: set<string>, rangeSet: set<string>, values: map<string, Token>,
        unsupported: set<string>, inPredicate: bool)

  const NONE: Facts := Facts({}, {}, map[], {}, false)

  ghost function Items(s: seq<string>): set<string> { set u | u in s }

  /** Later values win. */
  function Merge(a: Facts, b: Facts): Facts
  {
    Facts(a.eqSet + b.eqSet, a.rangeSet + b.rangeSet, a.values + b.values, a.unsupported + b.unsupported,
      a.inPredicate || b.inPredicate)
  }

  lemma MergeAssociative(a: Facts, b: Facts, c: Facts)
    ensures Merge(Merge(a, b), c) == Merge(a, Merge(b, c)) && Merge(a, NONE) == a && Merge(NONE, a) == a
  {
    assert a.values + b.values + c.values == a.values + (b.values + c.values);
    assert map[] + a.values == a.values;
  }

  function OpFacts(field: string, op: string, operand: Value): Facts
  {
    if op == "$comment" then NONE
    else if op == "$eq" then
      match CanonicalPredicateValue(operand)
      case Some(t) => Facts({field}, {}, map[field := t], {}, false)
      case None => NONE.(unsupported := {"$eq"})
    else if op in RANGE_OPS then NONE.(rangeSet := {field})
    else if op == "$in" then NONE.(eqSet := {field}, inPredicate := true)
    else NONE.(unsupported := {op})
  }

  /** The parts of a document are classified in map order; no two parts give a field a value. */
  ghost predicate Apart(parts: map<string, Facts>)
  {
    forall j, k, f :: j in parts && k in parts && f in parts[j].values && f in parts[k].values ==> j == k
  }

  ghost function ValuesOf(parts: map<string, Facts>): map<string, Token>
  {
    map f | f in AllValued(parts) :: (var k :| k in parts && f in parts[k].values; parts[k].values[f])
  }

  function AllValued(parts: map<string, Facts>): set<string> { set k, f | k in parts && f in parts[k].values :: f }

  ghost function Gather(parts: map<string, Facts>): Facts
  {
    Facts(set k, f | k in parts && f in parts[k].eqSet :: f,
          set k, f | k in parts && f in parts[k].rangeSet :: f,
          ValuesOf(parts),
          set k, u | k in parts && u in parts[k].unsupported :: u,
          exists k :: k in parts && parts[k].inPredicate)
  }

  lemma ValueOfPart(parts: map<string, Facts>, k: string, f: string)
    requires Apart(parts) && k in parts && f in parts[k].values
    ensures f in ValuesOf(parts) && ValuesOf(parts)[f] == parts[k].values[f]
  {
    assert f in AllValued(parts);
  }

  lemma ApartLess(parts: map<string, Facts>, k: string, p: Facts)
    requires k !in parts && Apart(parts[k := p])
    ensures Apart(parts) && forall j :: j in parts ==> parts[j].values.Keys !! p.values.Keys
  {
    var all := parts[k := p];
    assert all[k] == p && forall j :: j in parts ==> all[j] == parts[j];
    forall j | j in parts
      ensures parts[j].values.Keys !! p.values.Keys
    {
      assert forall f :: f in all[j].values && f in all[k].values ==> j == k;
    }
    forall i, j, f | i in parts && j in parts && f in parts[i].values && f in parts[j].values
      ensures i == j
    {
      assert f in all[i].values && f in all[j].values;
    }
  }

  lemma ValuedAdd(parts: map<string, Facts>, k: string, p: Facts)
    requires k !in parts
    ensures AllValued(parts[k := p]) == AllValued(parts) + p.values.Keys
  {
    var all := parts[k := p];
    assert all[k] == p && forall j :: j in parts ==> all[j] == parts[j];
  }

  lemma OtherValue(parts: map<string, Facts>, k: string, p: Facts, f: string)
    requires k !in parts && Apart(parts[k := p]) && f in AllValued(parts)
    ensures f !in p.values && f in ValuesOf(parts[k := p]) && ValuesOf(parts[k := p])[f] == ValuesOf(parts)[f]
  {
    var j :| j in parts && f in parts[j].values;
    ApartLess(parts, k, p);
    ValueOfPart(parts, j, f);
    assert parts[k := p][j] == parts[j];
    ValueOfPart(parts[k := p], j, f);
  }

  lemma GatherValues(parts: map<string, Facts>, k: string, p: Facts)
    requires k !in parts && Apart(parts[k := p])
    ensures ValuesOf(parts[k := p]) == ValuesOf(parts) + p.values
  {
    var all := parts[k := p];
    ValuedAdd(parts, k, p);
    forall f | f in AllValued(parts)
      ensures f !in p.values && ValuesOf(all)[f] == ValuesOf(parts)[f]
    {
      OtherValue(parts, k, p, f);
    }
    forall f | f in p.values
      ensures ValuesOf(all)[f] == p.values[f]
    {
      ValueOfPart(all, k, f);
    }
  }

  /** Gathering one more part merges it. */
  lemma GatherAdd(parts: map<string, Facts>, k: string, p: Facts)
    requires k !in parts && Apart(parts[k := p])
    ensures Gather(parts[k := p]) == Merge(Gather(parts), p)
  {
    GatherValues(parts, k, p);
    var all := parts[k := p];
    assert all[k] == p && forall j :: j in parts ==> all[j] == parts[j];
    var g, h := Gather(all), Merge(Gather(parts), p);
    assert g.eqSet == h.eqSet;
    assert g.rangeSet == h.rangeSet;
    assert g.unsupported == h.unsupported;
  }

  function OpParts(field: string, m: map<string, Value>): map<string, Facts>
  {
    map op | op in m :: OpFacts(field, op, m[op])
  }

  ghost function FieldFacts(field: string, val: Value): Facts
  {
    if val.Document? then
      if OperatorDoc(val.m) then Gather(OpParts(field, val.m)) else NONE.(unsupported := {"embedded_document"})
    else
      match CanonicalPredicateValue(val)
      case Some(t) => Facts({field}, {}, map[field := t], {}, false)
      case None => NONE.(unsupported := {"unsupported_value"})
  }

  ghost function KeyFacts(k: string, val: Value): Facts
  {
    if k == "$and" || k == "$comment" then NONE
    else if IsOperator(k) then NONE.(unsupported := {k})
    else FieldFacts(k, val)
  }

  ghost function TopParts(m: map<string, Value>): map<string, Facts> { map k | k in m :: KeyFacts(k, m[k]) }

  ghost function NestedFacts(v: Value): Facts
    requires v.Document?
    decreases v, 0
  {
    if "$and" !in v.m then NONE
    else if v.m["$and"].List? then ListFacts(v.m["$and"].items)
    else NONE.(unsupported := {"$and"})
  }

  ghost function FilterFacts(v: Value): Facts
    decreases v, 1
  {
    if v.Document? then Merge(NestedFacts(v), Gather(TopParts(v.m))) else NONE
  }

  ghost function ListFacts(items: seq<Value>): Facts
    decreases items
  {
    if items == [] then NONE else Merge(ListFacts(items[..|items| - 1]), FilterFacts(items[|items| - 1]))
  }

  lemma FieldValues(field: string, val: Value)
    ensures FieldFacts(field, val).values.Keys <= {field}
  {
  }

  lemma OpPartsApart(field: string, m: map<string, Value>)
    ensures Apart(OpParts(field, m))
  {
  }

  lemma TopPartsApart(m: map<string, Value>)
    ensures Apart(TopParts(m))
  {
    forall k | k in m
      ensures KeyFacts(k, m[k]).values.Keys <= {k}
    {
      FieldValues(k, m[k]);
    }
  }

  /** The keys of m that were visited. */
  function Visited(m: map<string, Value>, done: set<string>): map<string, Value> { map k | k in m && k in done :: m[k] }

  lemma VisitedAll(m: map<string, Value>, done: set<string>)
    requires done == m.Keys
    ensures Visited(m, done) == m
  {
  }

  lemma NoOps(field: string, m: map<string, Value>)
    ensures Gather(OpParts(field, Visited(m, {}))) == NONE
  {
    assert OpParts(field, Visited(m, {})) == map[];
  }

  lemma NoKeys(m: map<string, Value>)
    ensures Gather(TopParts(Visited(m, {}))) == NONE
  {
    assert TopParts(Visited(m, {})) == map[];
  }

  lemma VisitOp(field: string, m: map<string, Value>, done: set<string>, op: string)
    requires op in m && op !in done
    ensures Gather(OpParts(field, Visited(m, done + {op})))
        == Merge(Gather(OpParts(field, Visited(m, done))), OpFacts(field, op, m[op]))
  {
    var before, after := OpParts(field, Visited(m, done)), OpParts(field, Visited(m, done + {op}));
    assert after == before[op := OpFacts(field, op, m[op])];
    OpPartsApart(field, Visited(m, done + {op}));
    GatherAdd(before, op, OpFacts(field, op, m[op]));
  }

  lemma VisitKey(m: map<string, Value>, done: set<string>, k: string)
    requires k in m && k !in done
    ensures Gather(TopParts(Visited(m, done + {k}))) == Merge(Gather(TopParts(Visited(m, done))), KeyFacts(k, m[k]))
  {
    var before, after := TopParts(Visited(m, done)), TopParts(Visited(m, done + {k}));
    assert after == before[k := KeyFacts(k, m[k])];
    TopPartsApart(Visited(m, done + {k}));
    GatherAdd(before, k, KeyFacts(k, m[k]));
  }

  // -------------------------------------------------------------- the classifier

  /** The fields of a PredicateProfile that classification fills. */
  class Classifier {
    var eqSet: set<string>
    var rangeSet: set<string>
    var equalityValue: map<string, Token>
    var unsupported: seq<string>
    var inPredicate: bool

    constructor ()
      ensures State() == NONE
    {
      eqSet, rangeSet, equalityValue, unsupported, inPredicate := {}, {}, map[], [], false;
    }

    ghost function State(): Facts
      reads this
    {
      Facts(eqSet, rangeSet, equalityValue, Items(unsupported), inPredicate)
    }

    method Equal(field: string, t: Token)
      modifies this
      ensures State() == Merge(old(State()), Facts({field}, {}, map[field := t], {}, false))
    {
      eqSet := eqSet + {field};
      equalityValue := equalityValue[field := t];
    }

    method Unsupported(what: string)
      modifies this
      ensures State() == Merge(old(State()), NONE.(unsupported := {what}))
    {
      unsupported := unsupported + [what];
      assert old(equalityValue) + map[] == equalityValue;
    }

    method ClassifyOp(field: string, op: string, operand: Value)
      modifies this
      ensures State() == Merge(old(State()), OpFacts(field, op, operand))
    {
      MergeAssociative(State(), NONE, NONE);
      if op == "$comment" {
      } else if op == "$eq" {
        match CanonicalPredicateValue(operand)
        case Some(t) => Equal(field, t);
        case None => Unsupported("$eq");
      } else if op in RANGE_OPS {
        rangeSet := rangeSet + {field};
      } else if op == "$in" {
        eqSet, inPredicate := eqSet + {field}, true;
      } else {
        Unsupported(op);
      }
    }

    method ClassifyOps(field: string, m: map<string, Value>)
      modifies this
      ensures State() == Merge(old(State()), Gather(OpParts(field, m)))
    {
      ghost var before, gathered := State(), NONE;
      var left := m.Keys;
      ghost var done: set<string> := {};
      NoOps(field, m);
      MergeAssociative(before, NONE, NONE);
      while left != {}
        invariant left !! done && left + done == m.Keys
        invariant gathered == Gather(OpParts(field, Visited(m, done)))
        invariant State() == Merge(before, gathered)
        decreases |left|
      {
        var op :| op in left;
        VisitOp(field, m, done, op);
        MergeAssociative(before, gathered, OpFacts(field, op, m[op]));
        ClassifyOp(field, op, m[op]);
        gathered := Merge(gathered, OpFacts(field, op, m[op]));
        Loops.Move(left, done, op);
        left, done := left - {op}, done + {op};
      }
      VisitedAll(m, done);
    }

    method ClassifyField(field: string, val: Value)
      modifies this
      ensures State() == Merge(old(State()), FieldFacts(field, val))
    {
      if !val.Document? {
        match CanonicalPredicateValue(val) {
          case None => Unsupported("unsupported_value");
          case Some(t) => Equal(field, t);
        }
        return;
      }
      if !OperatorDoc(val.m) {
        Unsupported("embedded_document");
        return;
      }
      ClassifyOps(field, val.m);
    }

    method ClassifyKey(k: string, val: Value)
      modifies this
      ensures State() == Merge(old(State()), KeyFacts(k, val))
    {
      MergeAssociative(State(), NONE, NONE);
      if k == "$and" || k == "$comment" {
      } else if IsOperator(k) {
        Unsupported(k);
      } else {
        ClassifyField(k, val);
      }
    }

    method ClassifyItems(items: seq<Value>)
      modifies this
      ensures State() == Merge(old(State()), ListFacts(items))
      decreases items, 0
    {
      ghost var before := State();
      MergeAssociative(before, NONE, NONE);
      for i := 0 to |items|
        invariant State() == Merge(before, ListFacts(items[..i]))
      {
        assert items[..i + 1][..i] == items[..i];
        MergeAssociative(before, ListFacts(items[..i]), FilterFacts(items[i]));
        ClassifyFilter(items[i]);
      }
      assert items[..|items|] == items;
    }

    method ClassifyFilter(v: Value)
      modifies this
      ensures State() == Merge(old(State()), FilterFacts(v))
      decreases v, 1
    {
      ghost var start := State();
      MergeAssociative(start, NONE, NONE);
      if !v.Document? {
        return;
      }
      if "$and" in v.m {
        if v.m["$and"].List? {
          ClassifyItems(v.m["$and"].items);
        } else {
          Unsupported("$and");
        }
      }
      MergeAssociative(start, NestedFacts(v), Gather(TopParts(v.m)));
      ClassifyKeys(v.m);
    }

    method ClassifyKeys(m: map<string, Value>)
      modifies this
      ensures State() == Merge(old(State()), Gather(TopParts(m)))
    {
      ghost var before, gathered := State(), NONE;
      var left := m.Keys;
      ghost var done: set<string> := {};
      NoKeys(m);
      MergeAssociative(before, NONE, NONE);
      while left != {}
        invariant left !! done && left + done == m.Keys
        invariant gathered == Gather(TopParts(Visited(m, done)))
        invariant State() == Merge(before, gathered)
        decreases |left|
      {
        var k :| k in left;
        VisitKey(m, done, k);
        MergeAssociative(before, gathered, KeyFacts(k, m[k]));
        ClassifyKey(k, m[k]);
        gathered := Merge(gathered, KeyFacts(k, m[k]));
        Loops.Move(left, done, k);
        left, done := left - {k}, done + {k};
      }
      VisitedAll(m, done);
    }
  }
}
