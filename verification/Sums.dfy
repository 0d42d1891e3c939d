// Sums over the keys of a map, and their relation to counting.
module Sums {
  ghost function Sum<K(!new)>(m: map<K, nat>, keys: set<K>): nat
    requires keys <= m.Keys
    decreases |keys|
  {
    if keys == {} then 0
    else
      var k :| k in keys;
      m[k] + Sum(m, keys - {k})
  }

  // The sum does not depend on the order in which the keys are taken.
  lemma {:induction false} SumWithout<K(!new)>(m: map<K, nat>, keys: set<K>, k: K)
    requires keys <= m.Keys && k in keys
    ensures Sum(m, keys) == m[k] + Sum(m, keys - {k})
    decreases |keys|
  {
    var first :| first in keys && Sum(m, keys) == m[first] + Sum(m, keys - {first});
    if first != k {
      SumWithout(m, keys - {first}, k);
      SumWithout(m, keys - {k}, first);
      assert keys - {first} - {k} == keys - {k} - {first};
    }
  }

  ghost function Fiber<K(!new), C(!new)>(items: set<C>, key: C -> K, k: K): set<C> {
    set c | c in items && key(c) == k
  }

  ghost function Fibers<K(!new), C(!new)>(items: set<C>, key: C -> K, keys: set<K>): set<C> {
    set c | c in items && key(c) in keys
  }

  // Adding up the sizes of the fibers counts the items.
  lemma {:induction false} SumOfFibers<K(!new), C(!new)>(m: map<K, nat>, keys: set<K>, items: set<C>, key: C -> K)
    requires keys <= m.Keys && forall k | k in keys :: m[k] == |Fiber(items, key, k)|
    ensures Sum(m, keys) == |Fibers(items, key, keys)|
    decreases |keys|
  {
    if keys == {} {
      assert Fibers(items, key, keys) == {};
    } else {
      var k :| k in keys && Sum(m, keys) == m[k] + Sum(m, keys - {k});
      SumOfFibers(m, keys - {k}, items, key);
      assert Fibers(items, key, keys) == Fiber(items, key, k) + Fibers(items, key, keys - {k});
      assert Fiber(items, key, k) !! Fibers(items, key, keys - {k});
    }
  }

  lemma {:induction false} SumSame<K(!new)>(a: map<K, nat>, b: map<K, nat>, keys: set<K>)
    requires keys <= a.Keys && keys <= b.Keys && forall k | k in keys :: a[k] == b[k]
    ensures Sum(a, keys) == Sum(b, keys)
    decreases |keys|
  {
    if keys != {} {
      var k :| k in keys && Sum(a, keys) == a[k] + Sum(a, keys - {k});
      SumWithout(b, keys, k);
      SumSame(a, b, keys - {k});
    }
  }
}
