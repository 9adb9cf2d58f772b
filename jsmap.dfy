/**
 * An insertion-ordered dictionary with the semantics of a JavaScript `Map`: `set` of a new key
 * appends it, `set` of a present key keeps its position, `delete` removes it, and iteration
 * follows insertion order.
 */
module JsMaps {
  import opened Wrappers

  /** The elements of `s` other than `x`, in their order. */
  function Without<K(==,!new)>(s: seq<K>, x: K): (r: seq<K>)
    ensures forall y :: y in r <==> y in s && y != x
    ensures |r| <= |s|
    ensures x !in s ==> r == s
    ensures Distinct(s) ==> Distinct(r)
  {
    if s == [] then []
    else if s[0] == x then Without(s[1..], x)
    else
      var rest := Without(s[1..], x);
      assert Distinct(s) ==> forall j :: 1 <= j < |s| ==> s[0] != s[j];
      assert Distinct(s) ==> s[0] !in rest;
      [s[0]] + rest
  }

  ghost predicate Distinct<K>(s: seq<K>) {
    forall i, j :: 0 <= i < j < |s| ==> s[i] != s[j]
  }

  datatype JsMap<K(==,!new), V> = JsMap(order: seq<K>, entries: map<K, V>) {

    /** The key order lists each key of the map exactly once. */
    ghost predicate Valid() {
      Distinct(order) && forall k :: k in entries <==> k in order
    }

    static function Empty(): (m: JsMap<K, V>)
      ensures m.Valid() && m.Size() == 0
      ensures forall k :: m.Get(k) == None
    {
      JsMap([], map[])
    }

    /** `map.get(k)`, with `undefined` as `None`. */
    function Get(k: K): Option<V> {
      if k in entries then Some(entries[k]) else None
    }

    /** `map.has(k)`. */
    predicate Has(k: K) {
      k in entries
    }

    /** `map.size`. */
    function Size(): nat {
      |order|
    }

    /** `map.set(k, v)`: the new value for `k`; a present key keeps its place, a new one goes last. */
    function Set(k: K, v: V): (m: JsMap<K, V>)
      ensures Valid() ==> m.Valid()
      ensures m.Get(k) == Some(v)
      ensures forall j :: j != k ==> m.Get(j) == Get(j)
      ensures Valid() && Has(k) ==> m.order == order
      ensures !Has(k) ==> m.order == order + [k]
    {
      if k in entries then JsMap(order, entries[k := v]) else JsMap(order + [k], entries[k := v])
    }

    /** `map.delete(k)`: `k` is gone, every other key keeps its value and its place. */
    function Delete(k: K): (m: JsMap<K, V>)
      ensures Valid() ==> m.Valid()
      ensures m.Get(k) == None
      ensures forall j :: j != k ==> m.Get(j) == Get(j)
      ensures m.order == Without(order, k)
    {
      JsMap(Without(order, k), entries - {k})
    }
  }

  /** For a valid map, `size` is the number of keys that read back a value. */
  lemma {:induction false} SizeCountsKeys<K(!new), V>(m: JsMap<K, V>)
    requires m.Valid()
    ensures m.Size() == |m.entries.Keys|
  {
    DistinctCard(m.order);
    assert m.entries.Keys == set k | k in m.order;
  }

  /** A sequence without repetitions has as many elements as its set of elements. */
  lemma {:induction false} DistinctCard<K(!new)>(s: seq<K>)
    requires Distinct(s)
    ensures |set k | k in s| == |s|
  {
    if s != [] {
      DistinctCard(s[1..]);
      assert (set k | k in s) == (set k | k in s[1..]) + {s[0]};
      assert s[0] !in s[1..];
    }
  }
}
