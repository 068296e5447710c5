/**
 * A JavaScript `Map<number, V>`: a keyed collection that remembers the order in
 * which keys were first inserted, and whose `values()` iterate in that order.
 */
module IdMaps {
  import opened Wrappers

  /** `order` lists the keys by first insertion; `entries` holds the current value of each. */
  datatype IdMap<V> = IdMap(order: seq<int>, entries: map<int, V>)

  /** Every key appears once in `order`, and `order` lists exactly the keys of `entries`. */
  ghost predicate Valid<V>(m: IdMap<V>) {
    && (forall i, j :: 0 <= i < j < |m.order| ==> m.order[i] != m.order[j])
    && (forall k :: k in m.entries <==> k in m.order)
    && (forall i :: 0 <= i < |m.order| ==> m.order[i] in m.entries)
  }

  /** `new Map()` */
  function Empty<V>(): (m: IdMap<V>)
    ensures Valid(m) && m.entries == map[]
  {
    IdMap([], map[])
  }

  /** `m.get(k)` */
  function Get<V>(m: IdMap<V>, k: int): (r: Option<V>)
    ensures r.Some? <==> k in m.entries
    ensures r.Some? ==> r.value == m.entries[k]
  {
    if k in m.entries then Some(m.entries[k]) else None
  }

  /** `m.set(k, v)`: a new key goes to the end of the order; an existing key keeps its place. */
  function Set<V>(m: IdMap<V>, k: int, v: V): (r: IdMap<V>)
    requires Valid(m)
    ensures Valid(r)
    ensures r.entries == m.entries[k := v]
    ensures k in m.entries ==> r.order == m.order
    ensures k !in m.entries ==> r.order == m.order + [k]
  {
    if k in m.entries then IdMap(m.order, m.entries[k := v]) else IdMap(m.order + [k], m.entries[k := v])
  }

  /** `Array.from(m.values())`: the values, in insertion order of their keys. */
  function Values<V>(m: IdMap<V>): (vs: seq<V>)
    requires Valid(m)
    ensures |vs| == |m.order|
    ensures forall i :: 0 <= i < |vs| ==> vs[i] == m.entries[m.order[i]]
  {
    seq(|m.order|, i requires 0 <= i < |m.order| => m.entries[m.order[i]])
  }

  /** Reading back a key just set gives its new value, and every other key reads as before. */
  lemma GetAfterSet<V>(m: IdMap<V>, k: int, v: V, k': int)
    requires Valid(m)
    ensures Get(Set(m, k, v), k) == Some(v)
    ensures k' != k ==> Get(Set(m, k, v), k') == Get(m, k')
  {
  }

  /** Setting a fresh key appends its value to the values and leaves the earlier values in place. */
  lemma ValuesAfterSetFresh<V>(m: IdMap<V>, k: int, v: V)
    requires Valid(m) && k !in m.entries
    ensures Values(Set(m, k, v)) == Values(m) + [v]
  {
    var r := Set(m, k, v);
    assert forall i :: 0 <= i < |m.order| ==> m.order[i] != k;
    assert forall i :: 0 <= i < |Values(r)| ==> Values(r)[i] == (Values(m) + [v])[i];
  }
}
