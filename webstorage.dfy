/**
 * The `localStorage` and `sessionStorage` adapters (src/engines/localStorage.ts and
 * src/engines/sessionStorage.ts). The two files differ only in the backend they reach and the
 * engine name in their messages, so one class with two named constructors models both. The
 * browser's Storage object is a backend map whose calls may throw.
 */
module WebStorage {
  import opened Wrappers
  import opened JsMaps
  import opened Text
  import opened StorageErrors
  import MemoryEngine

  type Store = JsMap<string, string>

  /** One call on the browser's Storage object. */
  datatype AreaCall =
    | GetCall(key: string)
    | SetCall(key: string, value: string)
    | RemoveCall(key: string)
    | ClearCall
    | KeyCall(index: nat)
    | LengthCall

  /**
   * The browser's `Storage` object: its entries in key order, and which calls throw what
   * (a full quota, a disabled store, a private-mode browser).
   */
  class WebStorageArea {
    var data: Store
    const fault: AreaCall -> Option<Thrown>

    ghost predicate Valid()
      reads this
    {
      data.Valid()
    }

    constructor(data0: Store, fault0: AreaCall -> Option<Thrown>)
      requires data0.Valid()
      ensures Valid() && data == data0 && fault == fault0
    {
      data := data0;
      fault := fault0;
    }

    method GetItem(key: string) returns (r: Result<Option<string>, Thrown>)
      ensures r == if fault(GetCall(key)).Some? then Failure(fault(GetCall(key)).value) else Success(data.Get(key))
    {
      var f := fault(GetCall(key));
      if f.Some? {
        return Failure(f.value);
      }
      r := Success(data.Get(key));
    }

    method SetItem(key: string, value: string) returns (r: Outcome<Thrown>)
      requires Valid()
      modifies this
      ensures Valid()
      ensures r == (if fault(SetCall(key, value)).Some? then Fail(fault(SetCall(key, value)).value) else Pass)
      ensures data == if r.Fail? then old(data) else old(data).Set(key, value)
    {
      var f := fault(SetCall(key, value));
      if f.Some? {
        return Fail(f.value);
      }
      data := data.Set(key, value);
      r := Pass;
    }

    method RemoveItem(key: string) returns (r: Outcome<Thrown>)
      requires Valid()
      modifies this
      ensures Valid()
      ensures r == (if fault(RemoveCall(key)).Some? then Fail(fault(RemoveCall(key)).value) else Pass)
      ensures data == if r.Fail? then old(data) else old(data).Delete(key)
    {
      var f := fault(RemoveCall(key));
      if f.Some? {
        return Fail(f.value);
      }
      data := data.Delete(key);
      r := Pass;
    }

    method Clear() returns (r: Outcome<Thrown>)
      modifies this
      ensures Valid() || r.Fail?
      ensures r == (if fault(ClearCall).Some? then Fail(fault(ClearCall).value) else Pass)
      ensures data == if r.Fail? then old(data) else JsMap.Empty()
    {
      var f := fault(ClearCall);
      if f.Some? {
        return Fail(f.value);
      }
      data := JsMap.Empty();
      r := Pass;
    }

    method Key(i: nat) returns (r: Result<Option<string>, Thrown>)
      ensures r == if fault(KeyCall(i)).Some? then Failure(fault(KeyCall(i)).value)
                   else Success(if i < |data.order| then Some(data.order[i]) else None)
    {
      var f := fault(KeyCall(i));
      if f.Some? {
        return Failure(f.value);
      }
      r := Success(if i < |data.order| then Some(data.order[i]) else None);
    }

    method Length() returns (r: Result<nat, Thrown>)
      ensures r == if fault(LengthCall).Some? then Failure(fault(LengthCall).value) else Success(|data.order|)
    {
      var f := fault(LengthCall);
      if f.Some? {
        return Failure(f.value);
      }
      r := Success(|data.order|);
    }
  }

  /** What reaching a member of an absent backend (`window.localStorage` undefined) throws. */
  const MissingBackend: Thrown := ErrorObject("TypeError", "Cannot read properties of undefined")

  /** The key the availability probe writes and removes. */
  const TestKey: string := "__storage_test__"

  /**
   * `isQuotaExceededError(error)`: false for anything that is not an `Error`; for an `Error`, true
   * iff its name is one of the two quota names or its message mentions `quota`.
   */
  predicate IsQuotaExceededError(t: Thrown) {
    t.IsError() &&
    (t.ErrorName() == "QuotaExceededError" ||
     t.ErrorName() == "NS_ERROR_DOM_QUOTA_REACHED" ||
     (t.ErrorMessage() != "" && Includes(t.ErrorMessage(), "quota")))
  }

  /** The `StorageError` a failing `getItem` is rethrown as. */
  function GetFailed(name: string, key: string, t: Thrown): (e: StorageError)
    ensures e.Is(ErrorCode.OperationFailed) && e.originalError == Some(t)
  {
    StorageError("Failed to get item \"" + key + "\" from " + name, ErrorCode.OperationFailed, Some(t))
  }

  /** The `StorageError` a failing `setItem` is rethrown as: a quota error, or a generic failure. */
  function SetFailed(name: string, key: string, t: Thrown): (e: StorageError)
    ensures e.Is(ErrorCode.QuotaExceeded) <==> IsQuotaExceededError(t)
    ensures e.Is(ErrorCode.OperationFailed) <==> !IsQuotaExceededError(t)
    ensures e.originalError == Some(t)
  {
    if IsQuotaExceededError(t) then StorageError.QuotaExceededFor(key, Some(t))
    else StorageError("Failed to set item \"" + key + "\" in " + name, ErrorCode.OperationFailed, Some(t))
  }

  function RemoveFailed(name: string, key: string, t: Thrown): (e: StorageError)
    ensures e.Is(ErrorCode.OperationFailed) && e.originalError == Some(t)
  {
    StorageError("Failed to remove item \"" + key + "\" from " + name, ErrorCode.OperationFailed, Some(t))
  }

  function ClearFailed(name: string, t: Thrown): (e: StorageError)
    ensures e.Is(ErrorCode.OperationFailed) && e.originalError == Some(t)
  {
    StorageError("Failed to clear " + name, ErrorCode.OperationFailed, Some(t))
  }

  function KeysFailed(name: string, t: Thrown): (e: StorageError)
    ensures e.Is(ErrorCode.OperationFailed) && e.originalError == Some(t)
  {
    StorageError("Failed to get keys from " + name, ErrorCode.OperationFailed, Some(t))
  }

  function LengthFailed(name: string, t: Thrown): (e: StorageError)
    ensures e.Is(ErrorCode.OperationFailed) && e.originalError == Some(t)
  {
    StorageError("Failed to get " + name + " length", ErrorCode.OperationFailed, Some(t))
  }

  /** The non-empty keys of `order`, in order. */
  function NonEmptyKeys(order: seq<string>): (r: seq<string>)
    ensures forall k :: k in r <==> k in order && k != ""
  {
    if order == [] then []
    else (if order[0] != "" then [order[0]] else []) + NonEmptyKeys(order[1..])
  }

  /**
   * The index loop of `keys()` from index `i` on: each round reads `length`, then `key(i)`, and
   * keeps the key when it is not empty; the first throwing call ends the loop.
   */
  function KeysFrom(order: seq<string>, fault: AreaCall -> Option<Thrown>, i: nat): (r: Result<seq<string>, Thrown>)
    decreases |order| - i
  {
    if fault(LengthCall).Some? then Failure(fault(LengthCall).value)
    else if i >= |order| then Success([])
    else if fault(KeyCall(i)).Some? then Failure(fault(KeyCall(i)).value)
    else Prepend(if order[i] != "" then [order[i]] else [], KeysFrom(order, fault, i + 1))
  }

  function Prepend(ks: seq<string>, r: Result<seq<string>, Thrown>): Result<seq<string>, Thrown> {
    match r
    case Success(rest) => Success(ks + rest)
    case Failure(t) => Failure(t)
  }

  lemma PrependAppend(a: seq<string>, b: seq<string>, r: Result<seq<string>, Thrown>)
    ensures Prepend([], r) == r
    ensures Prepend(a, Prepend(b, r)) == Prepend(a + b, r)
  {
    if r.Success? {
      assert [] + r.value == r.value;
      assert a + (b + r.value) == (a + b) + r.value;
    }
  }

  /** With no throwing call, `keys()` lists exactly the non-empty backend keys, in backend order. */
  lemma {:induction false} KeysWithoutFaults(order: seq<string>, fault: AreaCall -> Option<Thrown>, i: nat)
    requires i <= |order|
    requires fault(LengthCall) == None && forall j :: 0 <= j < |order| ==> fault(KeyCall(j)) == None
    ensures KeysFrom(order, fault, i) == Success(NonEmptyKeys(order[i..]))
    decreases |order| - i
  {
    if i < |order| {
      KeysWithoutFaults(order, fault, i + 1);
      assert order[i..][1..] == order[i + 1..];
    }
  }

  /** The probe on a backend that accepts both calls: `__storage_test__` is gone and every other key is untouched. */
  function ProbeEffect(data: Store): (r: Store)
    ensures data.Valid() ==> r.Valid()
    ensures r.Get(TestKey) == None
    ensures forall k :: k != TestKey ==> r.Get(k) == data.Get(k)
  {
    data.Set(TestKey, "test").Delete(TestKey)
  }

  /** On a backend without a `__storage_test__` key the successful probe leaves the backend exactly as it was. */
  lemma {:induction false} ProbeRestores(data: Store)
    requires data.Valid() && !data.Has(TestKey)
    ensures ProbeEffect(data) == data
  {
    var s := data.Set(TestKey, "test");
    assert s.order == data.order + [TestKey];
    WithoutLast(data.order, TestKey);
    assert s.entries - {TestKey} == data.entries;
  }

  lemma {:induction false} WithoutLast<K(!new)>(s: seq<K>, x: K)
    requires x !in s
    ensures Without(s + [x], x) == s
  {
    if s != [] {
      assert (s + [x])[1..] == s[1..] + [x];
      WithoutLast(s[1..], x);
    }
  }

  /**
   * A `localStorage` or `sessionStorage` adapter. `area` is the browser's Storage object, null
   * when the browser has none.
   */
  class WebStorageEngine {
    const name: string
    const area: WebStorageArea?

    ghost predicate Valid()
      reads this, area
    {
      area != null ==> area.Valid()
    }

    /** `new LocalStorageEngine()` over `window.localStorage`. */
    constructor Local(backend: WebStorageArea?)
      ensures name == "localStorage" && area == backend
    {
      name := "localStorage";
      area := backend;
    }

    /** `new SessionStorageEngine()` over `window.sessionStorage`. */
    constructor Session(backend: WebStorageArea?)
      ensures name == "sessionStorage" && area == backend
    {
      name := "sessionStorage";
      area := backend;
    }

    /**
     * `isAvailable()`: never throws; false without a backend or when either probe call throws,
     * true when it could write and remove `__storage_test__`.
     */
    method IsAvailable() returns (r: bool)
      requires Valid()
      modifies area
      ensures Valid()
      ensures area == null ==> !r
      ensures area != null ==> r == (area.fault(SetCall(TestKey, "test")).None? && area.fault(RemoveCall(TestKey)).None?)
      ensures area != null && r ==> area.data == ProbeEffect(old(area.data))
      ensures area != null && old(area.fault(SetCall(TestKey, "test")).Some?) ==> area.data == old(area.data)
      ensures area != null && area.fault(SetCall(TestKey, "test")).None? && area.fault(RemoveCall(TestKey)).Some? ==>
                area.data == old(area.data).Set(TestKey, "test")
    {
      if area == null {
        return false;
      }
      var w := area.SetItem(TestKey, "test");
      if w.Fail? {
        return false;
      }
      var d := area.RemoveItem(TestKey);
      if d.Fail? {
        return false;
      }
      r := true;
    }

    /** `getItem(key)`: the backend's value, or an `OPERATION_FAILED` error wrapping what the backend threw. */
    method GetItem(key: string) returns (r: Result<Option<string>, StorageError>)
      ensures area == null ==> r == Failure(GetFailed(name, key, MissingBackend))
      ensures area != null ==> r == match area.fault(GetCall(key))
                                    case Some(t) => Failure(GetFailed(name, key, t))
                                    case None => Success(area.data.Get(key))
    {
      if area == null {
        return Failure(GetFailed(name, key, MissingBackend));
      }
      var g := area.GetItem(key);
      match g
      case Failure(t) => r := Failure(GetFailed(name, key, t));
      case Success(v) => r := Success(v);
    }

    /** `setItem(key, value)`: a backend failure becomes `QUOTA_EXCEEDED` or `OPERATION_FAILED`. */
    method SetItem(key: string, value: string) returns (r: Outcome<StorageError>)
      requires Valid()
      modifies area
      ensures Valid()
      ensures area == null ==> r == Fail(SetFailed(name, key, MissingBackend))
      ensures area != null ==> r == match area.fault(SetCall(key, value))
                                    case Some(t) => Fail(SetFailed(name, key, t))
                                    case None => Pass
      ensures area != null ==> area.data == if r.Fail? then old(area.data) else old(area.data).Set(key, value)
    {
      if area == null {
        return Fail(SetFailed(name, key, MissingBackend));
      }
      var s := area.SetItem(key, value);
      match s
      case Fail(t) => r := Fail(SetFailed(name, key, t));
      case Pass => r := Pass;
    }

    method RemoveItem(key: string) returns (r: Outcome<StorageError>)
      requires Valid()
      modifies area
      ensures Valid()
      ensures area == null ==> r == Fail(RemoveFailed(name, key, MissingBackend))
      ensures area != null ==> r == match area.fault(RemoveCall(key))
                                    case Some(t) => Fail(RemoveFailed(name, key, t))
                                    case None => Pass
      ensures area != null ==> area.data == if r.Fail? then old(area.data) else old(area.data).Delete(key)
    {
      if area == null {
        return Fail(RemoveFailed(name, key, MissingBackend));
      }
      var s := area.RemoveItem(key);
      match s
      case Fail(t) => r := Fail(RemoveFailed(name, key, t));
      case Pass => r := Pass;
    }

    method Clear() returns (r: Outcome<StorageError>)
      requires Valid()
      modifies area
      ensures Valid()
      ensures area == null ==> r == Fail(ClearFailed(name, MissingBackend))
      ensures area != null ==> r == match area.fault(ClearCall)
                                    case Some(t) => Fail(ClearFailed(name, t))
                                    case None => Pass
      ensures area != null ==> area.data == if r.Fail? then old(area.data) else JsMap.Empty()
    {
      if area == null {
        return Fail(ClearFailed(name, MissingBackend));
      }
      var s := area.Clear();
      match s
      case Fail(t) => r := Fail(ClearFailed(name, t));
      case Pass => r := Pass;
    }

    /** `keys()`: the index loop over the backend, skipping empty keys. */
    method Keys() returns (r: Result<seq<string>, StorageError>)
      ensures area == null ==> r == Failure(KeysFailed(name, MissingBackend))
      ensures area != null ==> r == match KeysFrom(area.data.order, area.fault, 0)
                                    case Success(ks) => Success(ks)
                                    case Failure(t) => Failure(KeysFailed(name, t))
    {
      if area == null {
        return Failure(KeysFailed(name, MissingBackend));
      }
      var keys: seq<string> := [];
      var i: nat := 0;
      PrependAppend([], [], KeysFrom(area.data.order, area.fault, 0));
      while true
        invariant i <= |area.data.order|
        invariant KeysFrom(area.data.order, area.fault, 0) == Prepend(keys, KeysFrom(area.data.order, area.fault, i))
        decreases |area.data.order| - i
      {
        var len := area.Length();
        if len.Failure? {
          return Failure(KeysFailed(name, len.error));
        }
        if i >= len.value {
          break;
        }
        var key := area.Key(i);
        if key.Failure? {
          return Failure(KeysFailed(name, key.error));
        }
        var k := key.value.value;
        PrependAppend(keys, if k != "" then [k] else [], KeysFrom(area.data.order, area.fault, i + 1));
        if k != "" {
          keys := keys + [k];
        } else {
          assert keys + [] == keys;
        }
        i := i + 1;
      }
      assert keys + [] == keys;
      r := Success(keys);
    }

    method Length() returns (r: Result<nat, StorageError>)
      ensures area == null ==> r == Failure(LengthFailed(name, MissingBackend))
      ensures area != null ==> r == match area.fault(LengthCall)
                                    case Some(t) => Failure(LengthFailed(name, t))
                                    case None => Success(|area.data.order|)
    {
      if area == null {
        return Failure(LengthFailed(name, MissingBackend));
      }
      var n := area.Length();
      match n
      case Failure(t) => r := Failure(LengthFailed(name, t));
      case Success(v) => r := Success(v);
    }

    /** `has(key)`, inherited from the base engine: the key reads a non-null value; a read failure propagates. */
    method Has(key: string) returns (r: Result<bool, StorageError>)
      ensures forall v :: ReadResult(key) == Success(v) ==> r == Success(v.Some?)
      ensures forall e :: ReadResult(key) == Failure(e) ==> r == Failure(e)
    {
      var g := GetItem(key);
      match g
      case Success(v) => r := Success(v != None);
      case Failure(e) => r := Failure(e);
    }

    /** What `getItem(key)` returns in the current state. */
    function ReadResult(key: string): Result<Option<string>, StorageError>
      reads this, area
    {
      if area == null then Failure(GetFailed(name, key, MissingBackend))
      else match area.fault(GetCall(key))
           case Some(t) => Failure(GetFailed(name, key, t))
           case None => Success(area.data.Get(key))
    }

    /**
     * `getMany(keys)`, the base default: every read is started; the batch fails with the
     * first failing read's error, and otherwise holds one entry per requested key.
     */
    method GetMany(keys: seq<string>) returns (r: Result<JsMap<string, Option<string>>, StorageError>)
      ensures area == null ==> r == (if keys == [] then Success(JsMap.Empty()) else Failure(GetFailed(name, keys[0], MissingBackend)))
      ensures area != null ==> r == GetManySpec(area.data, area.fault, name, keys)
    {
      var results: JsMap<string, Option<string>> := JsMap.Empty();
      var firstError: Option<StorageError> := None;
      for i := 0 to |keys|
        invariant area != null ==> firstError == FirstReadFailure(area.fault, name, keys[..i])
        invariant area != null && firstError.None? ==> results == MemoryEngine.GetEach(area.data, keys[..i])
        invariant area == null ==> results == JsMap.Empty()
        invariant area == null ==> firstError == if i == 0 then None else Some(GetFailed(name, keys[0], MissingBackend))
      {
        assert keys[..i + 1][..i] == keys[..i];
        var g := GetItem(keys[i]);
        match g
        case Failure(e) =>
          if firstError.None? {
            firstError := Some(e);
          }
        case Success(v) =>
          results := results.Set(keys[i], v);
      }
      assert keys[..|keys|] == keys;
      if firstError.Some? {
        return Failure(firstError.value);
      }
      r := Success(results);
    }

    /** `setMany(entries)`, the base default: entries are written in order until one write throws. */
    method SetMany(entries: JsMap<string, string>) returns (r: Outcome<StorageError>)
      requires Valid() && entries.Valid()
      modifies area
      ensures Valid()
      ensures area == null ==> r == if entries.order == [] then Pass else Fail(SetFailed(name, entries.order[0], MissingBackend))
      ensures area != null ==> (area.data, r) == SetManySpec(old(area.data), area.fault, name, entries.order, entries.entries)
    {
      ghost var d0 := if area != null then area.data else JsMap.Empty();
      for i := 0 to |entries.order|
        invariant Valid()
        invariant area == null ==> i == 0
        invariant area != null ==> SetManySpec(d0, area.fault, name, entries.order, entries.entries) ==
                                   SetManySpec(area.data, area.fault, name, entries.order[i..], entries.entries)
      {
        assert entries.order[i..][1..] == entries.order[i + 1..];
        var k := entries.order[i];
        var s := SetItem(k, entries.entries[k]);
        if s.Fail? {
          return s;
        }
      }
      r := Pass;
    }

    /** `removeMany(keys)`, the base default: keys are removed in order until one removal throws. */
    method RemoveMany(keys: seq<string>) returns (r: Outcome<StorageError>)
      requires Valid()
      modifies area
      ensures Valid()
      ensures area == null ==> r == if keys == [] then Pass else Fail(RemoveFailed(name, keys[0], MissingBackend))
      ensures area != null ==> (area.data, r) == RemoveManySpec(old(area.data), area.fault, name, keys)
    {
      ghost var d0 := if area != null then area.data else JsMap.Empty();
      for i := 0 to |keys|
        invariant Valid()
        invariant area == null ==> i == 0
        invariant area != null ==> RemoveManySpec(d0, area.fault, name, keys) == RemoveManySpec(area.data, area.fault, name, keys[i..])
      {
        assert keys[i..][1..] == keys[i + 1..];
        var s := RemoveItem(keys[i]);
        if s.Fail? {
          return s;
        }
      }
      r := Pass;
    }
  }

  /** The error of the first key in `keys` whose read throws, if any. */
  function FirstReadFailure(fault: AreaCall -> Option<Thrown>, name: string, keys: seq<string>): Option<StorageError> {
    if keys == [] then None
    else
      var n := |keys| - 1;
      var before := FirstReadFailure(fault, name, keys[..n]);
      if before.Some? then before
      else if fault(GetCall(keys[n])).Some? then Some(GetFailed(name, keys[n], fault(GetCall(keys[n])).value))
      else None
  }

  function GetManySpec(data: Store, fault: AreaCall -> Option<Thrown>, name: string, keys: seq<string>):
    (r: Result<JsMap<string, Option<string>>, StorageError>)
    ensures r.Success? <==> forall k :: k in keys ==> fault(GetCall(k)).None?
    ensures r.Success? ==> forall k :: r.value.Get(k) == (if k in keys then Some(data.Get(k)) else None)
  {
    FirstFailureIff(fault, name, keys);
    match FirstReadFailure(fault, name, keys)
    case Some(e) => Failure(e)
    case None => Success(MemoryEngine.GetEach(data, keys))
  }

  lemma {:induction false} FirstFailureIff(fault: AreaCall -> Option<Thrown>, name: string, keys: seq<string>)
    ensures FirstReadFailure(fault, name, keys).None? <==> forall k :: k in keys ==> fault(GetCall(k)).None?
  {
    if keys != [] {
      var n := |keys| - 1;
      FirstFailureIff(fault, name, keys[..n]);
      assert keys == keys[..n] + [keys[n]];
    }
  }

  /** Entries written in order; the first throwing write stops the batch with its translated error. */
  function SetManySpec(data: Store, fault: AreaCall -> Option<Thrown>, name: string, ks: seq<string>, vals: map<string, string>):
    (r: (Store, Outcome<StorageError>))
    requires forall k :: k in ks ==> k in vals
    decreases |ks|
    ensures data.Valid() ==> r.0.Valid()
    ensures (forall k :: k in ks ==> fault(SetCall(k, vals[k])).None?) ==> r == (MemoryEngine.SetEach(data, ks, vals), Pass)
    ensures ks != [] && fault(SetCall(ks[0], vals[ks[0]])).Some? ==> r.0 == data
  {
    if ks == [] then (data, Pass)
    else match fault(SetCall(ks[0], vals[ks[0]]))
      case Some(t) => (data, Fail(SetFailed(name, ks[0], t)))
      case None =>
        var r := SetManySpec(data.Set(ks[0], vals[ks[0]]), fault, name, ks[1..], vals);
        r
  }

  /** Keys removed in order; the first throwing removal stops the batch with its translated error. */
  function RemoveManySpec(data: Store, fault: AreaCall -> Option<Thrown>, name: string, ks: seq<string>):
    (r: (Store, Outcome<StorageError>))
    decreases |ks|
    ensures data.Valid() ==> r.0.Valid()
    ensures (forall k :: k in ks ==> fault(RemoveCall(k)).None?) ==> r == (MemoryEngine.DeleteEach(data, ks), Pass)
    ensures ks != [] && fault(RemoveCall(ks[0])).Some? ==> r.0 == data
  {
    if ks == [] then (data, Pass)
    else match fault(RemoveCall(ks[0]))
      case Some(t) => (data, Fail(RemoveFailed(name, ks[0], t)))
      case None =>
        var r := RemoveManySpec(data.Delete(ks[0]), fault, name, ks[1..]);
        r
  }
}
