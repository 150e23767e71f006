/** Python's insertion-ordered `dict`: the keys in first-insertion order beside the mapping. */
module OrderedMaps {

  datatype OrderedMap<K, V> = OrderedMap(keys: seq<K>, entries: map<K, V>)

  /** The keys are distinct and are exactly the keys of the mapping. */
  predicate Valid<K, V>(m: OrderedMap<K, V>) {
    && (forall i, j :: 0 <= i < j < |m.keys| ==> m.keys[i] != m.keys[j])
    && (forall k :: k in m.keys ==> k in m.entries)
    && (forall k :: k in m.entries ==> k in m.keys)
  }

  function Empty<K, V>(): (m: OrderedMap<K, V>)
    ensures Valid(m) && |m.keys| == 0
  {
    OrderedMap([], map[])
  }

  /** `d[k] = v`: a new key goes last, an existing key keeps its place and takes the new value. */
  function Put<K, V>(m: OrderedMap<K, V>, k: K, v: V): (r: OrderedMap<K, V>)
    ensures Valid(m) ==> Valid(r)
    ensures r.entries == m.entries[k := v]
    ensures m.keys <= r.keys && |r.keys| <= |m.keys| + 1
    ensures Valid(m) && k in m.entries ==> r.keys == m.keys
  {
    if k in m.entries then OrderedMap(m.keys, m.entries[k := v])
    else OrderedMap(m.keys + [k], m.entries[k := v])
  }

  /** `d.get(k, default)`. */
  function Get<K, V>(m: OrderedMap<K, V>, k: K, default: V): V {
    if k in m.entries then m.entries[k] else default
  }
}
