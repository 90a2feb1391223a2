/** A loop over the keys of a Go map takes them one by one, in any order. */
module Loops {
  /** One key goes from those that are left to those that are done. */
  lemma Move<K>(left: set<K>, done: set<K>, k: K)
    requires left !! done && k in left
    ensures k !in done && left - {k} !! done + {k} && left - {k} + (done + {k}) == left + done
    ensures |left - {k}| < |left|
  {
  }

  /** At j, after is before with the value v at k. */
  ghost predicate ExtendedAt<K, V>(after: map<K, V>, before: map<K, V>, k: K, v: V, j: K)
  {
    if j == k then j in after && after[j] == v
      else (j in after <==> j in before) && (j in before ==> after[j] == before[j])
  }

  /** A map that is another one with the value v at k. */
  lemma Extended<K(!new), V>(after: map<K, V>, before: map<K, V>, k: K, v: V)
    requires forall j :: ExtendedAt(after, before, k, v, j)
    ensures after == before[k := v]
  {
    assert forall j :: ExtendedAt(after, before, k, v, j) ==> (j in after <==> j in before[k := v]);
    assert forall j :: ExtendedAt(after, before, k, v, j) && j in after ==> after[j] == before[k := v][j];
  }
}
