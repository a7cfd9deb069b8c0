/** Maps in two levels (address, then slot) and their flat form. */
module NestedMaps {
  import opened Protocol

  type Nested<V> = map<Address, map<Slot, V>>

  function Inner<V>(m: Nested<V>, a: Address): map<Slot, V> {
    if a in m then m[a] else map[]
  }

  /** f is the nested map m with the two levels of keys put together. */
  ghost predicate Flattens<V>(m: Nested<V>, f: map<SlotKey, V>) {
    forall k :: (k in f <==> k.slot in Inner(m, k.addr)) && (k in f ==> f[k] == Inner(m, k.addr)[k.slot])
  }

  ghost predicate NoEmpty<V>(m: Nested<V>) {
    forall a :: a in m ==> m[a] != map[]
  }

  function PutNested<V>(m: Nested<V>, k: SlotKey, v: V): Nested<V> {
    m[k.addr := Inner(m, k.addr)[k.slot := v]]
  }

  lemma FlattensPut<V>(m: Nested<V>, f: map<SlotKey, V>, k: SlotKey, v: V)
    requires Flattens(m, f)
    ensures Flattens(PutNested(m, k, v), f[k := v])
    ensures NoEmpty(m) ==> NoEmpty(PutNested(m, k, v))
  {
    var m', f' := PutNested(m, k, v), f[k := v];
    forall q ensures (q in f' <==> q.slot in Inner(m', q.addr)) && (q in f' ==> f'[q] == Inner(m', q.addr)[q.slot]) {
      assert q in f <==> q.slot in Inner(m, q.addr);
      if q.addr == k.addr && q.slot == k.slot { assert q == k; }
    }
    assert k.slot in m'[k.addr];
  }

  /** Add an inner map if there is none, then store into it. */
  method StoreNested<V>(m: Nested<V>, k: SlotKey, v: V) returns (m': Nested<V>)
    ensures m' == PutNested(m, k, v)
  {
    m' := m;
    if k.addr !in m' {
      m' := m'[k.addr := map[]];
    }
    var slots: map<Slot, V> := m'[k.addr][k.slot := v];
    m' := m'[k.addr := slots];
  }
}
