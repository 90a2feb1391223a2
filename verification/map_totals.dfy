/**
 Totals over the values of a map. The operation is a commutative monoid passed as a
 value, so every result holds for plain numbers and for records of counters alike.
 */
module MapTotals {
  datatype Monoid<!T> = Monoid(zero: T, add: (T, T) -> T)

  ghost predicate Laws<T>(n: Monoid<T>, x: T, y: T, z: T)
  {
    && n.add(x, n.add(y, z)) == n.add(y, n.add(x, z))
    && n.add(n.add(x, y), z) == n.add(x, n.add(y, z))
    && n.add(x, n.zero) == x
  }

  /** Zero is neutral, and additions can be regrouped and taken in any order. */
  ghost predicate Lawful<T(!new)>(n: Monoid<T>) { forall x, y, z :: Laws(n, x, y, z) }

  ghost predicate Additive<T, U>(h: T -> U, n: Monoid<T>, o: Monoid<U>, x: T, y: T)
  {
    h(n.add(x, y)) == o.add(h(x), h(y))
  }

  ghost predicate Homomorphism<T(!new), U>(h: T -> U, n: Monoid<T>, o: Monoid<U>)
  {
    h(n.zero) == o.zero && forall x, y :: Additive(h, n, o, x, y)
  }

  ghost function Total<K(!new), V(!new), T(!new)>(m: map<K, V>, f: V -> T, n: Monoid<T>): T
    decreases |m|
  {
    if m == map[] then n.zero
    else
      var k :| k in m;
      n.add(f(m[k]), Total(m - {k}, f, n))
  }

  /** The order of summation does not matter: any key can be taken out first. */
  lemma {:induction false} TotalRemove<K(!new), V(!new), T(!new)>(m: map<K, V>, k: K, f: V -> T, n: Monoid<T>)
    requires Lawful(n) && k in m
    ensures Total(m, f, n) == n.add(f(m[k]), Total(m - {k}, f, n))
    decreases |m|
  {
    var j :| j in m && Total(m, f, n) == n.add(f(m[j]), Total(m - {j}, f, n));
    if j != k {
      TotalRemove(m - {j}, k, f, n);
      TotalRemove(m - {k}, j, f, n);
      var rest := m - {j} - {k};
      assert rest == m - {k} - {j};
      assert Laws(n, f(m[j]), f(m[k]), Total(rest, f, n));
    }
  }

  /** The total of the values in one class. */
  ghost function OfClass<K, V, S>(m: map<K, V>, cls: V -> S, s: S): map<K, V>
  {
    map k | k in m && cls(m[k]) == s :: m[k]
  }

  ghost function ClassTotal<K(!new), V(!new), S, T(!new)>(m: map<K, V>, cls: V -> S, s: S, f: V -> T, n: Monoid<T>): T
  {
    Total(OfClass(m, cls, s), f, n)
  }

  lemma ClassTotalRemove<K(!new), V(!new), S, T(!new)>(m: map<K, V>, k: K, cls: V -> S, s: S, f: V -> T, n: Monoid<T>)
    requires Lawful(n)
    ensures k in m && cls(m[k]) == s ==>
        ClassTotal(m, cls, s, f, n) == n.add(f(m[k]), ClassTotal(m - {k}, cls, s, f, n))
    ensures !(k in m && cls(m[k]) == s) ==> ClassTotal(m, cls, s, f, n) == ClassTotal(m - {k}, cls, s, f, n)
  {
    if k in m && cls(m[k]) == s {
      TotalRemove(OfClass(m, cls, s), k, f, n);
      assert OfClass(m, cls, s) - {k} == OfClass(m - {k}, cls, s);
    } else {
      assert OfClass(m, cls, s) == OfClass(m - {k}, cls, s);
    }
  }

  /** The class totals of a list of classes, added up in list order. */
  ghost function SumClasses<K(!new), V(!new), S, T(!new)>(m: map<K, V>, cls: V -> S, list: seq<S>, f: V -> T,
        n: Monoid<T>): T
  {
    if list == [] then n.zero
    else n.add(ClassTotal(m, cls, list[0], f, n), SumClasses(m, cls, list[1..], f, n))
  }

  ghost predicate Distinct<S>(list: seq<S>) { forall i, j :: 0 <= i < j < |list| ==> list[i] != list[j] }

  lemma {:induction false} SumClassesRemove<K(!new), V(!new), S, T(!new)>(m: map<K, V>, k: K, cls: V -> S,
        list: seq<S>, f: V -> T, n: Monoid<T>)
    requires Lawful(n) && k in m && Distinct(list)
    ensures cls(m[k]) in list ==> SumClasses(m, cls, list, f, n) == n.add(f(m[k]), SumClasses(m - {k}, cls, list, f, n))
    ensures cls(m[k]) !in list ==> SumClasses(m, cls, list, f, n) == SumClasses(m - {k}, cls, list, f, n)
  {
    if list != [] {
      SumClassesRemove(m, k, cls, list[1..], f, n);
      ClassTotalRemove(m, k, cls, list[0], f, n);
      var head, tail := ClassTotal(m - {k}, cls, list[0], f, n), SumClasses(m - {k}, cls, list[1..], f, n);
      assert Laws(n, f(m[k]), head, tail) && Laws(n, head, f(m[k]), tail);
    }
  }

  lemma {:induction false} SumClassesEmpty<K(!new), V(!new), S, T(!new)>(m: map<K, V>, cls: V -> S, list: seq<S>,
        f: V -> T, n: Monoid<T>)
    requires Lawful(n) && m == map[]
    ensures SumClasses(m, cls, list, f, n) == n.zero
  {
    if list != [] {
      SumClassesEmpty(m, cls, list[1..], f, n);
      assert OfClass(m, cls, list[0]) == map[];
      assert Laws(n, n.zero, n.zero, n.zero);
    }
  }

  /** The totals of distinct classes that cover the map add up to the total of the map. */
  lemma {:induction false} ClassesSumToTotal<K(!new), V(!new), S, T(!new)>(m: map<K, V>, cls: V -> S, list: seq<S>,
        f: V -> T, n: Monoid<T>)
    requires Lawful(n) && Distinct(list)
    requires forall k :: k in m ==> cls(m[k]) in list
    ensures SumClasses(m, cls, list, f, n) == Total(m, f, n)
    decreases |m|
  {
    if m == map[] {
      SumClassesEmpty(m, cls, list, f, n);
    } else {
      var k :| k in m;
      SumClassesRemove(m, k, cls, list, f, n);
      ClassesSumToTotal(m - {k}, cls, list, f, n);
      TotalRemove(m, k, f, n);
    }
  }

  /** A homomorphism maps totals to totals, key by key. */
  lemma {:induction false} TotalMaps<K(!new), V(!new), T(!new), U(!new)>(
    m: map<K, V>, w: map<K, V>, f: V -> T, n: Monoid<T>, g: V -> U, o: Monoid<U>, h: T -> U)
    requires Lawful(n) && Lawful(o)
    requires Homomorphism(h, n, o)
    requires m.Keys == w.Keys && forall k :: k in m ==> g(w[k]) == h(f(m[k]))
    ensures Total(w, g, o) == h(Total(m, f, n))
    decreases |m|
  {
    if m != map[] {
      var k :| k in m;
      TotalRemove(m, k, f, n);
      TotalRemove(w, k, g, o);
      assert (m - {k}).Keys == (w - {k}).Keys;
      assert Additive(h, n, o, f(m[k]), Total(m - {k}, f, n));
      TotalMaps(m - {k}, w - {k}, f, n, g, o, h);
    } else {
      assert w == map[];
    }
  }

  // ----------------------------------------------------------------- numbers

  const PLUS: Monoid<int> := Monoid(0, (x: int, y: int) => x + y)

  /** The total of an indicator counts the keys it indicates. */
  lemma {:induction false} TotalCounts<K(!new), V(!new)>(m: map<K, V>, f: V -> int, s: set<K>)
    requires s <= m.Keys && forall k :: k in m ==> f(m[k]) == if k in s then 1 else 0
    ensures Total(m, f, PLUS) == |s|
    decreases |m|
  {
    if m == map[] {
      assert s == {};
    } else {
      var k :| k in m;
      TotalRemove(m, k, f, PLUS);
      TotalCounts(m - {k}, f, s - {k});
    }
  }

  /** The total after the value of one key is set. */
  lemma TotalSet<K(!new), V(!new), T(!new)>(m: map<K, V>, k: K, v: V, f: V -> T, n: Monoid<T>)
    requires Lawful(n)
    ensures Total(m[k := v], f, n) == n.add(f(v), Total(m - {k}, f, n))
    ensures k in m ==> Total(m, f, n) == n.add(f(m[k]), Total(m - {k}, f, n))
    ensures k !in m ==> Total(m, f, n) == Total(m - {k}, f, n)
  {
    TotalRemove(m[k := v], k, f, n);
    assert m[k := v] - {k} == m - {k};
    if k in m {
      TotalRemove(m, k, f, n);
    } else {
      assert m - {k} == m;
    }
  }

  /** What a key contributes. */
  ghost function Contribution<K, V, T>(m: map<K, V>, k: K, f: V -> T, n: Monoid<T>): T
  {
    if k in m then f(m[k]) else n.zero
  }

  /** Setting a key changes the total by the difference of its contributions. */
  lemma TotalChange<K(!new), V(!new), T(!new)>(m: map<K, V>, k: K, v: V, f: V -> T, n: Monoid<T>)
    requires Lawful(n)
    ensures n.add(Contribution(m, k, f, n), Total(m[k := v], f, n)) == n.add(f(v), Total(m, f, n))
  {
    TotalSet(m, k, v, f, n);
    var rest := Total(m - {k}, f, n);
    assert Laws(n, Contribution(m, k, f, n), f(v), rest);
    if k !in m {
      assert Laws(n, n.zero, f(v), rest) && Laws(n, f(v), n.zero, rest) && Laws(n, n.add(f(v), rest), n.zero, n.zero);
      assert Laws(n, f(v), rest, n.zero) && Laws(n, n.zero, f(v), n.zero) && Laws(n, rest, n.zero, n.zero);
    }
  }

  // ---------------------------------------------------- running accumulators

  /** One accumulator per class; it holds the class total of a map that is still changing. */
  datatype Acc<S, T> = Acc(cls: S, t: T)

  ghost predicate Accumulates<K(!new), V(!new), S, T(!new)>(accs: seq<Acc<S, T>>, m: map<K, V>, cls: V -> S,
        f: V -> T, n: Monoid<T>)
  {
    forall i :: 0 <= i < |accs| ==> accs[i].t == ClassTotal(m, cls, accs[i].cls, f, n)
  }

  ghost predicate DistinctAccs<S, T>(accs: seq<Acc<S, T>>)
  {
    forall i, j :: 0 <= i < j < |accs| ==> accs[i].cls != accs[j].cls
  }

  /** A class's total after one key's value was set, from what the other keys contribute. */
  lemma ClassTotalSet<K(!new), V(!new), S, T(!new)>(m: map<K, V>, k: K, v: V, cls: V -> S, s: S, f: V -> T,
        n: Monoid<T>)
    requires Lawful(n)
    ensures var rest := ClassTotal(m - {k}, cls, s, f, n);
            && ClassTotal(m[k := v], cls, s, f, n) == (if cls(v) == s then n.add(f(v), rest) else rest)
            && ClassTotal(m, cls, s, f, n) == (if k in m && cls(m[k]) == s then n.add(f(m[k]), rest) else rest)
  {
    ClassTotalRemove(m[k := v], k, cls, s, f, n);
    ClassTotalRemove(m, k, cls, s, f, n);
    assert m[k := v] - {k} == m - {k};
  }

  /** A new key: only the accumulator of its class grows. */
  lemma AccumulateNew<K(!new), V(!new), S, T(!new)>(
    accs: seq<Acc<S, T>>, i: nat, m: map<K, V>, k: K, v: V, cls: V -> S, f: V -> T, n: Monoid<T>)
    requires Lawful(n) && i < |accs| && DistinctAccs(accs) && Accumulates(accs, m, cls, f, n)
    requires k !in m && cls(v) == accs[i].cls
    ensures Accumulates(accs[i := accs[i].(t := n.add(accs[i].t, f(v)))], m[k := v], cls, f, n)
  {
    forall j | 0 <= j < |accs|
      ensures accs[i := accs[i].(t := n.add(accs[i].t, f(v)))][j].t == ClassTotal(m[k := v], cls, accs[j].cls, f, n)
    {
      ClassTotalSet(m, k, v, cls, accs[j].cls, f, n);
      assert Laws(n, f(v), accs[j].t, n.zero) && Laws(n, accs[j].t, f(v), n.zero);
    }
  }

  /** A key whose value changes: its old class keeps the rest, its new class gets the new value. */
  lemma AccumulateChanged<K(!new), V(!new), S, T(!new)>(
    accs: seq<Acc<S, T>>, after: seq<Acc<S, T>>, i: nat, j: nat, m: map<K, V>, k: K, v: V, cls: V -> S, f: V -> T,
      n: Monoid<T>)
    requires Lawful(n) && i < |accs| == |after| && j < |accs| && DistinctAccs(accs) && Accumulates(accs, m, cls, f, n)
    requires k in m && cls(m[k]) == accs[i].cls && cls(v) == accs[j].cls
    requires forall x :: 0 <= x < |accs| ==> after[x].cls == accs[x].cls
    requires forall x :: 0 <= x < |accs| && x != i && x != j ==> after[x].t == accs[x].t
    requires i != j ==> after[i].t == ClassTotal(m - {k}, cls, accs[i].cls, f, n)
    requires after[j].t == n.add(f(v), ClassTotal(m - {k}, cls, accs[j].cls, f, n))
    ensures Accumulates(after, m[k := v], cls, f, n)
  {
    forall x | 0 <= x < |accs|
      ensures after[x].t == ClassTotal(m[k := v], cls, after[x].cls, f, n)
    {
      ClassTotalSet(m, k, v, cls, accs[x].cls, f, n);
    }
  }

  /** A key whose value changes within its class: only that class's accumulator changes. */
  lemma AccumulateGrown<K(!new), V(!new), S, T(!new)>(
    accs: seq<Acc<S, T>>, i: nat, x: T, m: map<K, V>, k: K, v: V, cls: V -> S, f: V -> T, n: Monoid<T>)
    requires Lawful(n) && i < |accs| && DistinctAccs(accs) && Accumulates(accs, m, cls, f, n)
    requires k in m && cls(m[k]) == cls(v) == accs[i].cls
    requires x == n.add(f(v), ClassTotal(m - {k}, cls, accs[i].cls, f, n))
    ensures Accumulates(accs[i := accs[i].(t := x)], m[k := v], cls, f, n)
  {
    AccumulateChanged(accs, accs[i := accs[i].(t := x)], i, i, m, k, v, cls, f, n);
  }
}
