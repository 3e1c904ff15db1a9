/** Looking a key up, and emptying a map one key after another. */
module Maps {
  import opened Wrappers

  function Find<K, V>(m: map<K, V>, k: K): Option<V> { if k in m then Some(m[k]) else None }

  method TakeValues<K, V(==)>(m: map<K, V>) returns (values: set<V>)
    ensures values == m.Values
  {
    values := {};
    var rest := m;
    while rest != map[]
      invariant values + rest.Values == m.Values
      decreases |rest|
    {
      var k :| k in rest;
      RemovingOne(rest, k);
      values := values + {rest[k]};
      rest := rest - {k};
    }
  }

  lemma RemovingOne<K, V>(m: map<K, V>, k: K)
    requires k in m
    ensures |m - {k}| < |m| && m.Values == (m - {k}).Values + {m[k]}
  {
    forall v | v in m.Values
      ensures v in (m - {k}).Values + {m[k]}
    {
      var x :| x in m && m[x] == v;
      if x != k { assert (m - {k})[x] == v; }
    }
    assert (m - {k}).Keys == m.Keys - {k};
  }
}
