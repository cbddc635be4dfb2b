/** An insertion-ordered dictionary, the way Python's `dict` behaves: assignment to a
    new key appends it, assignment to an existing key keeps its place, `del` removes it,
    and `values()` follows the key order. */
module OrderedMaps {

  predicate Distinct<K(==)>(xs: seq<K>) {
    forall i, j :: 0 <= i < j < |xs| ==> xs[i] != xs[j]
  }

  datatype OMap<K(==,!new), V> = OMap(keys: seq<K>, items: map<K, V>)
  {
    /** The key order lists every key once. */
    ghost predicate Valid() {
      Distinct(keys) && forall k :: k in items <==> k in keys
    }
  }

  function Empty<K(==,!new), V>(): (m: OMap<K, V>)
    ensures m.Valid() && m.items == map[] && m.keys == []
  {
    OMap([], map[])
  }

  /** `d[k] = v`. */
  function Put<K(==,!new), V>(m: OMap<K, V>, k: K, v: V): (r: OMap<K, V>)
    requires m.Valid()
    ensures r.Valid() && r.items == m.items[k := v]
    ensures k in m.items ==> r.keys == m.keys
    ensures k !in m.items ==> r.keys == m.keys + [k]
  {
    if k in m.items then OMap(m.keys, m.items[k := v]) else OMap(m.keys + [k], m.items[k := v])
  }

  /** The keys other than `k`, in their order. */
  function Without<K(==,!new)>(xs: seq<K>, k: K): (r: seq<K>)
    ensures forall x :: x in r <==> x in xs && x != k
    ensures Distinct(xs) ==> Distinct(r)
  {
    if xs == [] then []
    else
      var rest := Without(xs[1..], k);
      if xs[0] == k then rest
      else
        assert Distinct(xs) ==> xs[0] !in xs[1..];
        [xs[0]] + rest
  }

  /** `del d[k]`. */
  function Remove<K(==,!new), V>(m: OMap<K, V>, k: K): (r: OMap<K, V>)
    requires m.Valid()
    ensures r.Valid() && r.items == m.items - {k} && r.keys == Without(m.keys, k)
  {
    OMap(Without(m.keys, k), m.items - {k})
  }

  /** `list(d.values())`. */
  function Values<K(==,!new), V>(m: OMap<K, V>): seq<V>
    requires m.Valid()
  {
    seq(|m.keys|, i requires 0 <= i < |m.keys| => m.items[m.keys[i]])
  }

  lemma {:induction false} DistinctCard<K>(xs: seq<K>)
    requires Distinct(xs)
    ensures |set x | x in xs| == |xs|
  {
    if xs != [] {
      DistinctCard(xs[1..]);
      assert (set x | x in xs) == {xs[0]} + (set x | x in xs[1..]);
      assert xs[0] !in (set x | x in xs[1..]);
    }
  }

  /** The listed values are exactly the dictionary's values, one per key. */
  lemma ValuesExact<K(!new), V>(m: OMap<K, V>)
    requires m.Valid()
    ensures |Values(m)| == |m.items|
    ensures forall v :: v in Values(m) <==> v in m.items.Values
  {
    DistinctCard(m.keys);
    assert (set x | x in m.keys) == m.items.Keys;
    var vs := Values(m);
    forall v | v in m.items.Values ensures v in vs {
      var k :| k in m.items && m.items[k] == v;
      var i :| 0 <= i < |m.keys| && m.keys[i] == k;
      assert vs[i] == v;
    }
  }
}
