/**
 Documents as trees of named values, the dotted paths that queries and partial filters use,
 and documents built to have given values at given paths. Documents have no arrays.
 */
module DocumentTrees {
  import opened Wrappers
  import opened Text
  import opened Predicates

  type Path = seq<string>

  // ------------------------------------------------------------------------ paths

  /** The names in a dotted path. */
  function Split(f: string): (p: Path)
    ensures p != []
    decreases |f|
  {
    if HasDot(f) then [Cut(f).0] + Split(Cut(f).1) else [f]
  }

  lemma {:induction false} SplitInjective(f: string, g: string)
    requires Split(f) == Split(g)
    ensures f == g
    decreases |f|
  {
    if HasDot(f) {
      assert HasDot(g);
      var a, b := Split(Cut(f).1), Split(Cut(g).1);
      assert ([Cut(f).0] + a)[1..] == a && ([Cut(g).0] + b)[1..] == b;
      assert ([Cut(f).0] + a)[0] == Cut(f).0 && ([Cut(g).0] + b)[0] == Cut(g).0;
      SplitInjective(Cut(f).1, Cut(g).1);
    }
  }

  /** p leads strictly into q. */
  predicate Above(p: Path, q: Path) { |p| < |q| && p == q[..|p|] }

  // -------------------------------------------------------------------- documents

  /** What a document has at a path. */
  function Lookup(v: Value, p: Path): Option<Value>
    decreases |p|
  {
    if p == [] then Some(v)
    else if v.Document? && p[0] in v.m then Lookup(v.m[p[0]], p[1..])
    else None
  }

  predicate ArrayFree(v: Value)
  {
    match v
    case List(_) => false
    case Document(m) => forall k :: k in m ==> ArrayFree(m[k])
    case _ => true
  }

  predicate Scalar(v: Value) { !v.Document? && !v.List? }

  /** Below a value that is not a document there is nothing. */
  lemma {:induction false} NothingBelow(v: Value, p: Path, q: Path)
    requires Above(p, q) && Lookup(v, p).Some? && !Lookup(v, p).value.Document?
    ensures Lookup(v, q) == None
    decreases |p|
  {
    if p != [] {
      assert q[0] == p[0] && q[1..][..|p| - 1] == p[1..];
      NothingBelow(v.m[p[0]], p[1..], q[1..]);
    }
  }

  // ---------------------------------------------------------- documents made to order

  /** The values to be had, by path. */
  type Wanted = map<Path, Value>

  ghost function Heads(w: Wanted): set<string> { set p | p in w && p != [] :: p[0] }

  ghost function Tails(w: Wanted, k: string): set<Path> { set p | p in w && p != [] && p[0] == k :: p[1..] }

  ghost function Under(w: Wanted, k: string): Wanted { map t | t in Tails(w, k) && [k] + t in w :: w[[k] + t] }

  lemma UnderFacts(w: Wanted, k: string, t: Path)
    ensures t in Under(w, k) <==> [k] + t in w
    ensures t in Under(w, k) ==> Under(w, k)[t] == w[[k] + t]
  {
    if [k] + t in w {
      assert ([k] + t)[0] == k && ([k] + t)[1..] == t;
      assert t in Tails(w, k);
    }
  }

  ghost predicate Within(w: Wanted, n: nat) { forall p :: p in w ==> |p| <= n }

  lemma UnderWithin(w: Wanted, k: string, n: nat)
    requires Within(w, n) && k in Heads(w)
    ensures n > 0 && Within(Under(w, k), n - 1)
  {
    forall t | t in Under(w, k)
      ensures |t| <= n - 1
    {
      assert |[k] + t| <= n;
    }
  }

  /** No path goes on from p. */
  ghost predicate Ends(w: Wanted, p: Path) { forall q :: q in w ==> !Above(p, q) }

  /** The field extra is on no wanted path. */
  ghost predicate Unused(w: Wanted, extra: string) { forall p :: p in w ==> extra !in p }

  ghost predicate InnerDocument(v: Option<Value>, extra: string) { v.Some? && v.value.Document? && extra in v.value.m }

  /** The wanted value is found at every path that ends. */
  ghost predicate HasValues(v: Value, w: Wanted) { forall p :: p in w && Ends(w, p) ==> Lookup(v, p) == Some(w[p]) }

  /** At a path that leads on there is a document with the field extra. */
  ghost predicate HasInner(v: Value, w: Wanted, extra: string)
  {
    forall p, q :: q in w && Above(p, q) ==> InnerDocument(Lookup(v, p), extra)
  }

  ghost predicate Fulfils(v: Value, w: Wanted, extra: string)
  {
    HasValues(v, w) && HasInner(v, w, extra) && ArrayFree(v)
  }

  lemma UnderUnused(w: Wanted, extra: string, k: string)
    requires Unused(w, extra)
    ensures Unused(Under(w, k), extra) && extra !in Heads(w)
  {
    forall t | t in Under(w, k)
      ensures extra !in t
    {
      assert [k] + t in w;
      assert extra in t ==> extra in [k] + t;
    }
    forall h | h in Heads(w)
      ensures h != extra
    {
      var p :| p in w && p != [] && p[0] == h;
      assert h in p;
    }
  }

  lemma AboveCons(k: string, p: Path, q: Path)
    ensures Above([k] + p, [k] + q) <==> Above(p, q)
  {
    var kp, kq := [k] + p, [k] + q;
    if |p| < |q| {
      assert kq[..|kp|] == [k] + q[..|p|];
      assert kp[1..] == p && ([k] + q[..|p|])[1..] == q[..|p|];
    }
  }

  lemma UnderEnds(w: Wanted, p: Path)
    requires p != [] && Ends(w, p)
    ensures Ends(Under(w, p[0]), p[1..])
  {
    forall t | t in Under(w, p[0])
      ensures !Above(p[1..], t)
    {
      assert [p[0]] + t in w && p == [p[0]] + p[1..];
      AboveCons(p[0], p[1..], t);
    }
  }

  lemma EndsHere(w: Wanted)
    requires Ends(w, [])
    ensures Heads(w) == {}
  {
    forall q | q in w
      ensures q == []
    {
      assert [] == q[..0];
    }
  }

  lemma ChildPath(w: Wanted, p: Path)
    requires p in w && p != []
    ensures p[0] in Heads(w) && p[1..] in Under(w, p[0]) && Under(w, p[0])[p[1..]] == w[p]
  {
    assert p == [p[0]] + p[1..];
    UnderFacts(w, p[0], p[1..]);
  }

  lemma AboveChild(p: Path, q: Path)
    requires Above(p, q) && p != []
    ensures p[0] == q[0] && Above(p[1..], q[1..])
  {
    assert p == [p[0]] + p[1..] && q == [q[0]] + q[1..];
    AboveCons(p[0], p[1..], q[1..]);
  }

  /** The children of a document are made for what is wanted under them. */
  ghost predicate Nested(children: map<string, Value>, w: Wanted, extra: string)
  {
    children.Keys == Heads(w) && forall k :: k in children ==> Fulfils(children[k], Under(w, k), extra)
  }

  lemma NestedValues(children: map<string, Value>, w: Wanted, extra: string)
    requires Nested(children, w, extra) && Heads(w) != {} && extra !in Heads(w)
    ensures HasValues(Document(children[extra := Bool(true)]), w)
  {
    var v := Document(children[extra := Bool(true)]);
    forall p | p in w && Ends(w, p)
      ensures Lookup(v, p) == Some(w[p])
    {
      if p != [] {
        ChildPath(w, p);
        UnderEnds(w, p);
        assert Fulfils(children[p[0]], Under(w, p[0]), extra);
      } else {
        EndsHere(w);
      }
    }
  }

  lemma NestedInner(children: map<string, Value>, w: Wanted, extra: string)
    requires Nested(children, w, extra) && extra !in Heads(w)
    ensures HasInner(Document(children[extra := Bool(true)]), w, extra)
  {
    var v := Document(children[extra := Bool(true)]);
    forall p, q | q in w && Above(p, q)
      ensures InnerDocument(Lookup(v, p), extra)
    {
      ChildPath(w, q);
      if p != [] {
        AboveChild(p, q);
        assert Fulfils(children[p[0]], Under(w, p[0]), extra);
      }
    }
  }

  lemma LeafFulfils(w: Wanted, extra: string) returns (v: Value)
    requires Heads(w) == {} && forall p :: p in w ==> Scalar(w[p])
    ensures Fulfils(v, w, extra)
  {
    v := if [] in w then w[[]] else Bool(true);
    forall p | p in w
      ensures p == []
    {
      HeadOf(w, p);
    }
  }

  lemma HeadOf(w: Wanted, p: Path)
    requires p in w
    ensures p != [] ==> p[0] in Heads(w)
  {
  }

  /** There is a document with scalar values of choice at paths of choice. */
  lemma {:induction false} DocumentFor(w: Wanted, extra: string, n: nat) returns (v: Value)
    requires Within(w, n) && Unused(w, extra) && forall p :: p in w ==> Scalar(w[p])
    ensures Fulfils(v, w, extra) && (Heads(w) != {} ==> v.Document?)
    decreases n
  {
    if Heads(w) == {} {
      v := LeafFulfils(w, extra);
    } else {
      forall k | k in Heads(w)
        ensures exists c :: Fulfils(c, Under(w, k), extra)
      {
        UnderWithin(w, k, n);
        UnderUnused(w, extra, k);
        forall t | t in Under(w, k)
          ensures Scalar(Under(w, k)[t])
        {
          UnderFacts(w, k, t);
        }
        var c := DocumentFor(Under(w, k), extra, n - 1);
      }
      v := Assemble(w, extra);
    }
  }

  lemma Assemble(w: Wanted, extra: string) returns (v: Value)
    requires Heads(w) != {} && Unused(w, extra)
    requires forall k :: k in Heads(w) ==> exists c :: Fulfils(c, Under(w, k), extra)
    ensures Fulfils(v, w, extra) && v.Document?
  {
    var children := map k | k in Heads(w) :: (var c :| Fulfils(c, Under(w, k), extra); c);
    assert Nested(children, w, extra);
    var h :| h in Heads(w);
    UnderUnused(w, extra, h);
    NestedValues(children, w, extra);
    NestedInner(children, w, extra);
    v := Document(children[extra := Bool(true)]);
  }

  // -------------------------------------------------------------- by dotted field name

  ghost function PathsOf(vals: map<string, Value>): Wanted
    ensures forall f :: f in vals ==> Split(f) in PathsOf(vals) && PathsOf(vals)[Split(f)] == vals[f]
    ensures forall p :: p in PathsOf(vals) ==> exists f :: f in vals && Split(f) == p
  {
    var paths := set f | f in vals :: Split(f);
    var w := map p | p in paths :: (var f :| f in vals && Split(f) == p; vals[f]);
    assert forall f :: f in vals ==> Split(f) in w && w[Split(f)] == vals[f] by {
      forall f | f in vals
        ensures Split(f) in w && w[Split(f)] == vals[f]
      {
        assert Split(f) in paths;
        forall g | g in vals && Split(g) == Split(f)
          ensures g == f
        {
          SplitInjective(g, f);
        }
      }
    }
    w
  }

  /** A string that is in no given set. */
  lemma {:induction false} FreshString(avoid: set<string>) returns (s: string)
    ensures s !in avoid && forall t :: t in avoid ==> |t| < |s|
    decreases |avoid|
  {
    if avoid == {} {
      s := "";
    } else {
      var t :| t in avoid;
      var r := FreshString(avoid - {t});
      s := r + t + "x";
    }
  }

  lemma {:induction false} Bounded(ps: set<Path>) returns (n: nat)
    ensures forall p :: p in ps ==> |p| <= n
    decreases |ps|
  {
    if ps == {} {
      n := 0;
    } else {
      var p :| p in ps;
      n := Bounded(ps - {p});
      n := n + |p|;
    }
  }
}
