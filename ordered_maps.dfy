/**
 * JavaScript `Map` objects and plain-object records, as the source uses them:
 * finite maps that remember the order in which keys were first inserted.
 * Setting a key that is already present replaces its value and keeps its place;
 * iteration (`for ... of`, `Object.entries`) follows `keys`.
 */
module OrderedMaps {
  import opened Wrappers

  datatype Entries<K(==), V> = Entries(keys: seq<K>, vals: map<K, V>)

  predicate Distinct<K(==)>(s: seq<K>) {
    forall i, j | 0 <= i < j < |s| :: s[i] != s[j]
  }

  predicate WellFormed<K(==), V>(m: Entries<K, V>) {
    Distinct(m.keys) && m.vals.Keys == set k | k in m.keys
  }

  type OrderedMap<K(==), V> = m: Entries<K, V> | WellFormed(m) witness Entries([], map[])

  function Empty<K(==), V>(): (m: OrderedMap<K, V>)
    ensures m.keys == [] && m.vals == map[]
  {
    Entries([], map[])
  }

  /** `m.get(k)`: the value stored under `k`, if any. */
  function Get<K(==), V>(m: OrderedMap<K, V>, k: K): (r: Option<V>)
    ensures r.Some? <==> k in m.keys
    ensures r.Some? ==> r.value == m.vals[k]
  {
    if k in m.vals then Some(m.vals[k]) else None
  }

  /** `m.set(k, v)`: a new key goes to the end, an existing key keeps its place. */
  function Set<K(==), V>(m: OrderedMap<K, V>, k: K, v: V): (r: OrderedMap<K, V>)
    ensures r.vals == m.vals[k := v]
    ensures k in m.keys ==> r.keys == m.keys
    ensures k !in m.keys ==> r.keys == m.keys + [k]
  {
    if k in m.vals then Entries(m.keys, m.vals[k := v])
    else
      assert m.vals[k := v].Keys == set x | x in m.keys + [k];
      Entries(m.keys + [k], m.vals[k := v])
  }

  /** The key sequence without `k`, order otherwise kept. */
  function Without<K(==)>(s: seq<K>, k: K): (r: seq<K>)
    ensures forall x | x in r :: x in s && x != k
    ensures forall x | x in s && x != k :: x in r
    ensures Distinct(s) ==> Distinct(r)
    ensures k !in s ==> r == s
    ensures |s| == 1 ==> r == if s[0] == k then [] else s
  {
    if s == [] then []
    else if s[|s| - 1] == k then Without(s[..|s| - 1], k)
    else
      assert Distinct(s) ==> s[|s| - 1] !in s[..|s| - 1];
      Without(s[..|s| - 1], k) + [s[|s| - 1]]
  }

  /** Filtering distributes over concatenation, so the kept elements stay in their order. */
  lemma {:induction false} WithoutAppend<K>(a: seq<K>, b: seq<K>, k: K)
    ensures Without(a + b, k) == Without(a, k) + Without(b, k)
    decreases |b|
  {
    if b == [] {
      assert a + b == a;
    } else {
      var init, last := b[..|b| - 1], b[|b| - 1];
      assert (a + b)[..|a + b| - 1] == a + init;
      assert (a + b)[|a + b| - 1] == last;
      WithoutAppend(a, init, k);
      assert b[..|b| - 1] == init;
    }
  }

  /** `delete m[k]` / `m.delete(k)`. */
  function Remove<K(==), V>(m: OrderedMap<K, V>, k: K): (r: OrderedMap<K, V>)
    ensures r.keys == Without(m.keys, k)
    ensures r.vals == m.vals - {k}
  {
    Entries(Without(m.keys, k), m.vals - {k})
  }

  /** Removing a key forgets what was last set under it. */
  lemma RemoveAfterSet<K, V>(m: OrderedMap<K, V>, k: K, v: V)
    requires k in m.vals
    ensures Remove(Set(m, k, v), k) == Remove(m, k)
  {
    assert m.vals[k := v] - {k} == m.vals - {k};
  }

  /** `Object.entries(m)` / `Array.from(m.entries())`. */
  function EntryList<K(==), V>(m: OrderedMap<K, V>): (r: seq<(K, V)>)
    ensures |r| == |m.keys|
    ensures forall i | 0 <= i < |r| :: r[i] == (m.keys[i], m.vals[m.keys[i]])
  {
    seq(|m.keys|, i requires 0 <= i < |m.keys| => (m.keys[i], m.vals[m.keys[i]]))
  }

  /** `Object.values(m)`. */
  function Values<K(==), V>(m: OrderedMap<K, V>): (r: seq<V>)
    ensures |r| == |m.keys|
    ensures forall i | 0 <= i < |r| :: r[i] == m.vals[m.keys[i]]
  {
    seq(|m.keys|, i requires 0 <= i < |m.keys| => m.vals[m.keys[i]])
  }

  /** The number of entries equals the size of the key set. */
  lemma {:induction false} SizeIsKeyCount<K, V>(m: OrderedMap<K, V>)
    ensures |m.vals| == |m.keys|
  {
    DistinctCard(m.keys);
  }

  lemma {:induction false} DistinctCard<K>(s: seq<K>)
    requires Distinct(s)
    ensures |set k | k in s| == |s|
  {
    if s != [] {
      var init := s[..|s| - 1];
      DistinctCard(init);
      assert (set k | k in s) == (set k | k in init) + {s[|s| - 1]};
      assert s[|s| - 1] !in init;
    }
  }
}
