/** Sums over a finite set. */
module Sums {

  ghost function Sum<K(!new)>(keys: set<K>, f: K -> nat): nat
    decreases |keys|
  {
    if keys == {} then 0 else
      var k :| k in keys;
      f(k) + Sum(keys - {k}, f)
  }

  /** Any element can be taken out first. */
  lemma {:induction false} SumWithout<K(!new)>(keys: set<K>, f: K -> nat, k: K)
    requires k in keys
    ensures Sum(keys, f) == f(k) + Sum(keys - {k}, f)
    decreases |keys|
  {
    var j :| j in keys && Sum(keys, f) == f(j) + Sum(keys - {j}, f);
    if j != k {
      SumWithout(keys - {j}, f, k);
      SumWithout(keys - {k}, f, j);
      assert keys - {j} - {k} == keys - {k} - {j};
    }
  }

  /** A sum looks only at the elements of its set. */
  lemma {:induction false} SumSame<K(!new)>(keys: set<K>, f: K -> nat, g: K -> nat)
    requires forall k | k in keys :: f(k) == g(k)
    ensures Sum(keys, f) == Sum(keys, g)
    decreases |keys|
  {
    if keys != {} {
      var k :| k in keys;
      SumSame(keys - {k}, f, g);
      SumWithout(keys, f, k);
      SumWithout(keys, g, k);
    }
  }

  /** Setting one summand, of an element that is there or is added. */
  lemma SumUpdate<K(!new)>(keys: set<K>, f: K -> nat, k: K, g: K -> nat)
    requires forall j | j in keys && j != k :: f(j) == g(j)
    ensures Sum(keys + {k}, g) == Sum(keys, f) + g(k) - (if k in keys then f(k) else 0)
  {
    SumWithout(keys + {k}, g, k);
    assert keys + {k} - {k} == keys - {k};
    SumSame(keys - {k}, f, g);
    if k in keys {
      SumWithout(keys, f, k);
    } else {
      assert keys - {k} == keys;
    }
  }
}
