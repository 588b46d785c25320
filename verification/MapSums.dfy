/** Sums over the values of a finite map, independent of any order of its keys. */
module MapSums {

  ghost function Sum<K(!new)>(w: map<K, real>): real
    decreases w.Keys
  {
    if w.Keys == {} then 0.0
    else
      var k :| k in w;
      w[k] + Sum(w - {k})
  }

  /** Any key may be taken out first. */
  lemma {:induction false} SumRemove<K(!new)>(w: map<K, real>, k: K)
    requires k in w
    ensures Sum(w) == w[k] + Sum(w - {k})
    decreases w.Keys
  {
    var first :| first in w && Sum(w) == w[first] + Sum(w - {first});
    if first != k {
      SumRemove(w - {first}, k);
      SumRemove(w - {k}, first);
      assert w - {first} - {k} == w - {k} - {first};
    }
  }

  lemma SumInsert<K(!new)>(w: map<K, real>, k: K, v: real)
    requires k !in w
    ensures Sum(w[k := v]) == Sum(w) + v
  {
    SumRemove(w[k := v], k);
    assert w[k := v] - {k} == w;
  }

  lemma SumUpdate<K(!new)>(w: map<K, real>, k: K, v: real)
    requires k in w
    ensures Sum(w[k := v]) == Sum(w) - w[k] + v
  {
    SumRemove(w, k);
    SumRemove(w[k := v], k);
    assert w[k := v] - {k} == w - {k};
  }

  /** More keys with non-negative weights, or larger weights, never lower the sum. */
  lemma {:induction false} SumMonotone<K(!new)>(u: map<K, real>, w: map<K, real>)
    requires forall k :: k in u ==> k in w && u[k] <= w[k]
    requires forall k :: k in w && k !in u ==> 0.0 <= w[k]
    ensures Sum(u) <= Sum(w)
    decreases w.Keys
  {
    if w.Keys == {} {
      assert u.Keys == {};
    } else {
      var k :| k in w;
      SumRemove(w, k);
      if k in u {
        SumRemove(u, k);
        SumMonotone(u - {k}, w - {k});
      } else {
        SumMonotone(u, w - {k});
      }
    }
  }
}
