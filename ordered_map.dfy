/**
 * A JavaScript `Map` with string keys, as the viewer uses it: `set`,
 * `delete` and iteration over `values()`. A JavaScript Map iterates in
 * insertion order: `set` on a present key keeps its place, and a key set
 * again after `delete` goes last.
 */
module OrderedMaps {
  import opened Sequences

  /** `entries` is what the map holds; `keys` is its iteration order. */
  datatype OrderedMap<V(==)> = OrderedMap(keys: seq<string>, entries: map<string, V>)
  {
    /** Every key is listed exactly once in the iteration order. */
    predicate Valid()
    {
      NoDuplicates(keys) && entries.Keys == Elements(keys)
    }

    /** The number of entries; used to state how `set` changes the map. */
    function Size(): (n: nat)
      requires Valid()
      ensures n == |entries| == |keys|
    {
      NoDuplicatesCardinality(keys);
      |entries|
    }

    /** `map.set(k, v)`: maps `k` to `v`, inserting or overwriting. */
    function Set(k: string, v: V): (r: OrderedMap<V>)
      requires Valid()
      ensures r.Valid()
      ensures k in r.entries && r.entries[k] == v
      ensures forall j :: j != k ==> (j in r.entries <==> j in entries)
      ensures forall j :: j != k && j in entries ==> r.entries[j] == entries[j]
      ensures k in entries ==> r.keys == keys
      ensures k !in entries ==> r.keys == keys + [k]
    {
      if k in entries then
        OrderedMap(keys, entries[k := v])
      else
        assert NoDuplicates(keys + [k]) by { AppendFreshKeepsNoDuplicates(keys, k); }
        OrderedMap(keys + [k], entries[k := v])
    }

    /** `map.delete(k)`: drops `k` if present; does nothing otherwise. */
    function Delete(k: string): (r: OrderedMap<V>)
      requires Valid()
      ensures r.Valid()
      ensures k !in r.entries
      ensures forall j :: j != k ==> (j in r.entries <==> j in entries)
      ensures forall j :: j in r.entries ==> r.entries[j] == entries[j]
      ensures IsSubsequence(r.keys, keys)
      ensures k !in entries ==> r == this
    {
      OrderedMap(Filter(keys, j => j != k), entries - {k})
    }

    /** `map.values()`: one value per key, in iteration order. */
    function Values(): (r: seq<V>)
      requires Valid()
      ensures |r| == |entries| == |keys|
      ensures forall i :: 0 <= i < |r| ==> r[i] == entries[keys[i]]
      ensures forall v :: v in r ==> v in entries.Values
      ensures forall v :: v in entries.Values ==> v in r
    {
      var r := seq(|keys|, i requires 0 <= i < |keys| => entries[keys[i]]);
      assert |r| == Size();
      assert forall v :: v in entries.Values ==> v in r by {
        forall v | v in entries.Values ensures v in r {
          var k :| k in entries && entries[k] == v;
          var i :| 0 <= i < |keys| && keys[i] == k;
          assert r[i] == v;
        }
      }
      r
    }
  }

  /** `new Map()` */
  function EmptyMap<V(==)>(): (m: OrderedMap<V>)
    ensures m.Valid() && m.entries == map[] && m.keys == []
  {
    OrderedMap([], map[])
  }

  lemma {:induction false} AppendFreshKeepsNoDuplicates(s: seq<string>, k: string)
    requires NoDuplicates(s) && k !in s
    ensures NoDuplicates(s + [k])
  {
    if |s| > 0 {
      assert (s + [k])[1..] == s[1..] + [k];
      AppendFreshKeepsNoDuplicates(s[1..], k);
    }
  }

  /** Setting a key that is present changes neither the size nor the iteration order. */
  lemma OverwriteKeepsShape<V>(m: OrderedMap<V>, k: string, v: V)
    requires m.Valid() && k in m.entries
    ensures m.Set(k, v).Size() == m.Size()
    ensures m.Set(k, v).keys == m.keys
  {
  }

  /** Setting a new key grows the map by one and puts the key last. */
  lemma InsertGrows<V>(m: OrderedMap<V>, k: string, v: V)
    requires m.Valid() && k !in m.entries
    ensures m.Set(k, v).Size() == m.Size() + 1
    ensures m.Set(k, v).keys[m.Size()] == k
  {
  }

  /** Deleting the same key twice is deleting it once. */
  lemma DeleteIdempotent<V>(m: OrderedMap<V>, k: string)
    requires m.Valid()
    ensures m.Delete(k).Delete(k) == m.Delete(k)
  {
  }

  /** A key deleted and then set again moves to the end of the iteration order. */
  lemma DeleteThenSetGoesLast<V>(m: OrderedMap<V>, k: string, v: V)
    requires m.Valid()
    ensures m.Delete(k).Set(k, v).keys == Filter(m.keys, j => j != k) + [k]
    ensures m.Delete(k).Set(k, v).keys[m.Delete(k).Size()] == k
  {
  }
}
