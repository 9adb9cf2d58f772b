/** The in-memory engine (src/engines/memory.ts) and the batch defaults it shares with the other engines. */
module MemoryEngine {
  import opened Wrappers
  import opened JsMaps

  type Store = JsMap<string, string>

  /** The store after `set` of each key of `ks`, in order, to its value in `vals`. */
  function SetEach(m: Store, ks: seq<string>, vals: map<string, string>): (r: Store)
    requires forall k :: k in ks ==> k in vals
    ensures m.Valid() ==> r.Valid()
    ensures forall k :: r.Get(k) == (if k in ks then Some(vals[k]) else m.Get(k))
    decreases |ks|
  {
    if ks == [] then m
    else
      var r := SetEach(m.Set(ks[0], vals[ks[0]]), ks[1..], vals);
      assert forall k :: k in ks <==> k == ks[0] || k in ks[1..] by {
        assert ks == [ks[0]] + ks[1..];
      }
      r
  }

  /** The store after `delete` of each key of `ks`, in order. */
  function DeleteEach(m: Store, ks: seq<string>): (r: Store)
    ensures m.Valid() ==> r.Valid()
    ensures forall k :: r.Get(k) == (if k in ks then None else m.Get(k))
    decreases |ks|
  {
    if ks == [] then m
    else
      var r := DeleteEach(m.Delete(ks[0]), ks[1..]);
      assert forall k :: k in ks <==> k == ks[0] || k in ks[1..] by {
        assert ks == [ks[0]] + ks[1..];
      }
      r
  }

  /** The `Map` that `getMany(ks)` fills: each requested key, in first-request order, with its value or null. */
  function GetEach(m: Store, ks: seq<string>): (r: JsMap<string, Option<string>>)
    ensures r.Valid()
    ensures forall k :: r.Get(k) == (if k in ks then Some(m.Get(k)) else None)
  {
    if ks == [] then JsMap.Empty()
    else
      var n := |ks| - 1;
      var r := GetEach(m, ks[..n]).Set(ks[n], m.Get(ks[n]));
      assert forall k :: k in ks <==> k in ks[..n] || k == ks[n] by {
        assert ks == ks[..n] + [ks[n]];
      }
      r
  }

  /** Two bytes per character of every listed key and of its value. */
  function PairsSize(ks: seq<string>, entries: map<string, string>): nat
    requires forall k :: k in ks ==> k in entries
  {
    if ks == [] then 0
    else
      var n := |ks| - 1;
      PairsSize(ks[..n], entries) + (|ks[n]| + |entries[ks[n]]|) * 2
  }

  /** The approximate byte size `getSize()` reports for a store. */
  function StoreSize(m: Store): nat
    requires m.Valid()
  {
    PairsSize(m.order, m.entries)
  }

  class MemoryStorageEngine {
    const name: string
    var store: Store

    ghost predicate Valid()
      reads this
    {
      store.Valid()
    }

    constructor()
      ensures Valid() && name == "memory" && store == JsMap.Empty()
    {
      name := "memory";
      store := JsMap.Empty();
    }

    /** `isAvailable()`: the in-memory engine is always available. */
    method IsAvailable() returns (r: bool)
      ensures r
    {
      r := true;
    }

    /** `getItem(key)`: the value last set for the key, or null. */
    method GetItem(key: string) returns (r: Option<string>)
      ensures r == store.Get(key)
    {
      r := if key in store.entries then Some(store.entries[key]) else None;
    }

    method SetItem(key: string, value: string)
      requires Valid()
      modifies this
      ensures Valid() && store == old(store).Set(key, value)
    {
      store := store.Set(key, value);
    }

    method RemoveItem(key: string)
      requires Valid()
      modifies this
      ensures Valid() && store == old(store).Delete(key)
    {
      store := store.Delete(key);
    }

    method Clear()
      modifies this
      ensures Valid() && store == JsMap.Empty()
    {
      store := JsMap.Empty();
    }

    /** `keys()`: every stored key once, in insertion order. */
    method Keys() returns (r: seq<string>)
      requires Valid()
      ensures r == store.order
      ensures Distinct(r) && forall k :: k in r <==> store.Get(k).Some?
    {
      r := store.order;
    }

    /** `length()`: the number of stored keys. */
    method Length() returns (r: nat)
      requires Valid()
      ensures r == |store.entries.Keys|
    {
      SizeCountsKeys(store);
      r := store.Size();
    }

    /** `has(key)`, inherited from the base engine: the key reads a value. */
    method Has(key: string) returns (r: bool)
      ensures r <==> store.Get(key) != None
    {
      var v := GetItem(key);
      r := v != None;
    }

    /** `getMany(keys)`: one entry per requested key, holding its value or null. */
    method GetMany(keys: seq<string>) returns (r: JsMap<string, Option<string>>)
      ensures r == GetEach(store, keys)
    {
      r := JsMap.Empty();
      for i := 0 to |keys|
        invariant r == GetEach(store, keys[..i])
      {
        assert keys[..i + 1][..i] == keys[..i];
        var v := GetItem(keys[i]);
        r := r.Set(keys[i], v);
      }
      assert keys[..|keys|] == keys;
    }

    /** `setMany(entries)`: every entry is written, in the entries' order. */
    method SetMany(entries: JsMap<string, string>)
      requires Valid() && entries.Valid()
      modifies this
      ensures Valid() && store == SetEach(old(store), entries.order, entries.entries)
    {
      ghost var s0 := store;
      var ks := entries.order;
      assert ks[0..] == ks;
      for i := 0 to |ks|
        invariant Valid()
        invariant SetEach(store, ks[i..], entries.entries) == SetEach(s0, ks, entries.entries)
      {
        assert ks[i..][1..] == ks[i + 1..];
        var k := ks[i];
        SetItem(k, entries.entries[k]);
      }
      assert ks[|ks|..] == [];
    }

    /** `removeMany(keys)`: every listed key is deleted. */
    method RemoveMany(keys: seq<string>)
      requires Valid()
      modifies this
      ensures Valid() && store == DeleteEach(old(store), keys)
    {
      ghost var s0 := store;
      assert keys[0..] == keys;
      for i := 0 to |keys|
        invariant Valid()
        invariant DeleteEach(store, keys[i..]) == DeleteEach(s0, keys)
      {
        assert keys[i..][1..] == keys[i + 1..];
        RemoveItem(keys[i]);
      }
      assert keys[|keys|..] == [];
    }

    /**
     * `getStore()`: a copy of the store. The copy is a value, so later changes to the engine
     * and to the copy cannot reach each other.
     */
    method GetStore() returns (r: Store)
      ensures r == store
    {
      r := store;
    }

    /** `getSize()`: two bytes per character of every key and value. */
    method GetSize() returns (size: nat)
      requires Valid()
      ensures size == StoreSize(store)
    {
      size := 0;
      var ks := store.order;
      for i := 0 to |ks|
        invariant size == PairsSize(ks[..i], store.entries)
      {
        assert ks[..i + 1][..i] == ks[..i];
        var k := ks[i];
        size := size + (|k| + |store.entries[k]|) * 2;
      }
      assert ks[..|ks|] == ks;
    }
  }

  /** An empty store has size 0; adding a new key grows the size by two bytes per character of the pair. */
  lemma {:induction false} StoreSizeGrows(m: Store, k: string, v: string)
    requires m.Valid() && !m.Has(k)
    ensures StoreSize(JsMap.Empty()) == 0
    ensures StoreSize(m.Set(k, v)) == StoreSize(m) + (|k| + |v|) * 2
  {
    var m' := m.Set(k, v);
    assert m'.order[..|m.order|] == m.order;
    PairsSizeFrame(m.order, m.entries, m'.entries);
  }

  /** The size of a list of keys depends only on the values of those keys. */
  lemma {:induction false} PairsSizeFrame(ks: seq<string>, e1: map<string, string>, e2: map<string, string>)
    requires forall k :: k in ks ==> k in e1 && k in e2 && e1[k] == e2[k]
    ensures PairsSize(ks, e1) == PairsSize(ks, e2)
  {
    if ks != [] {
      PairsSizeFrame(ks[..|ks| - 1], e1, e2);
    }
  }
}
