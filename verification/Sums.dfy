/** Sums over the values of a map. */
module Sums {

  ghost function SumOver<K, V>(m: map<K, V>, weight: V -> nat, keys: set<K>): nat
    requires keys <= m.Keys
    decreases keys
  {
    if keys == {} then 0
    else
      var key :| key in keys;
      weight(m[key]) + SumOver(m, weight, keys - {key})
  }

  lemma {:induction false} SumTakesOut<K, V>(m: map<K, V>, weight: V -> nat, keys: set<K>, key: K)
    requires keys <= m.Keys && key in keys
    ensures SumOver(m, weight, keys) == weight(m[key]) + SumOver(m, weight, keys - {key})
    decreases keys
  {
    var k :| k in keys && SumOver(m, weight, keys) == weight(m[k]) + SumOver(m, weight, keys - {k});
    if k != key {
      SumTakesOut(m, weight, keys - {k}, key);
      SumTakesOut(m, weight, keys - {key}, k);
      assert keys - {k} - {key} == keys - {key} - {k};
    }
  }

  lemma {:induction false} SumSame<K, V>(a: map<K, V>, b: map<K, V>, weight: V -> nat, keys: set<K>)
    requires keys <= a.Keys && keys <= b.Keys
    requires forall k :: k in keys ==> weight(a[k]) == weight(b[k])
    ensures SumOver(a, weight, keys) == SumOver(b, weight, keys)
    decreases keys
  {
    if keys != {} {
      var key :| key in keys;
      SumTakesOut(a, weight, keys, key);
      SumTakesOut(b, weight, keys, key);
      SumSame(a, b, weight, keys - {key});
    }
  }
}
