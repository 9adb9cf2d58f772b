/**
 * The `Storage` class (src/core/storage.ts). Its engine is a memory engine handed to it; the
 * clock is the `now` argument, one instant per call. Each method is proved to act as the
 * matching function of the specification module.
 */
module Core {
  import opened Wrappers
  import opened JsMaps
  import opened StorageErrors
  import opened Types
  import opened StorageSpec
  import opened MemoryEngine

  class Storage {
    const config: Config
    const engine: MemoryStorageEngine
    var listeners: map<string, seq<HandlerId>>
    var middleware: seq<Middleware>
    /** The calls made so far to subscribers and to `onChange` / `onError`. */
    var trace: seq<Call>

    ghost predicate Valid()
      reads this, engine
    {
      engine.Valid() && ListenersValid(listeners)
    }

    function Ctx(): Ctx
      reads this
    {
      StorageSpec.Ctx(config, listeners, middleware)
    }

    function World(): World
      reads this, engine
    {
      StorageSpec.World(engine.store, trace)
    }

    /** `new Storage(config)`: normalised configuration, no listeners, no middleware. */
    constructor(c: StorageConfig, json: Serializer, e: MemoryStorageEngine)
      requires e.Valid()
      ensures Valid()
      ensures config == NormalizeConfig(c, json) && engine == e
      ensures listeners == map[] && middleware == [] && trace == []
    {
      config := NormalizeConfig(c, json);
      engine := e;
      listeners := map[];
      middleware := [];
      trace := [];
    }

    /** Calls each handler of `hs` with `event`, in order. */
    method Notify(hs: seq<HandlerId>, event: ChangeEvent)
      modifies this`trace
      ensures trace == old(trace) + Deliveries(hs, event)
    {
      var t0 := trace;
      for i := 0 to |hs|
        invariant trace == t0 + Deliveries(hs[..i], event)
      {
        assert hs[..i + 1][..i] == hs[..i];
        trace := trace + [Deliver(hs[i], event)];
      }
      assert hs[..|hs|] == hs;
    }

    /** `emit(type, event)`: exact-key handlers, then wildcard handlers, then `onChange`. */
    method Emit(kind: EventType, key: string, oldValue: Value, newValue: Value, now: int)
      modifies this`trace
      ensures trace == old(trace) + StorageSpec.Emit(Ctx(), kind, key, oldValue, newValue, now)
    {
      var event := ChangeEvent(kind, key, oldValue, newValue, now);
      Notify(HandlersOf(listeners, key), event);
      Notify(HandlersOf(listeners, "*"), event);
      trace := trace + [OnChange(config.onChange, event)];
    }

    /** `handleError(operation, key, error)`. */
    method HandleError(operation: string, key: string, error: Thrown, now: int)
      modifies this`trace
      ensures trace == old(trace) + StorageSpec.HandleError(Ctx(), operation, key, error, now)
    {
      var storageError := StorageError.OperationFailedFor(operation, key, Some(error));
      Emit(ErrorEvent, key, Undefined, Undefined, now);
      trace := trace + [OnError(config.onError, storageError)];
    }

    /** `get(key, defaultValue)`: never throws. */
    method Get(key: string, defaultValue: Value, now: int) returns (v: Value)
      requires Valid()
      modifies this`trace, engine
      ensures Valid()
      ensures (World(), v) == GetSpec(Ctx(), old(World()), key, defaultValue, now)
    {
      var fallback := Coalesce(defaultValue, Null);
      var raw := engine.GetItem(FullKey(config, key));
      if raw.None? {
        return fallback;
      }
      var item := config.serializer.deserialize(raw.value);
      if item.Failure? {
        HandleError("get", key, item.error, now);
        return fallback;
      }
      if IsExpired(item.value, now) {
        var out := RemoveAfterRead(key, Null, now);
        if out.Fail? {
          HandleError("get", key, out.error, now);
        }
        return fallback;
      }
      var value := item.value.value;
      for i := 0 to |middleware|
        invariant AfterGetPipeline(middleware, key, item.value.value) == AfterGetPipeline(middleware[i..], key, value)
      {
        assert middleware[i..][1..] == middleware[i + 1..];
        var mw := middleware[i];
        if mw.afterGet.Some? {
          var r := mw.afterGet.value(key, value);
          if r.Failure? {
            HandleError("get", key, r.error, now);
            return fallback;
          }
          value := r.value;
        }
      }
      v := value;
    }

    /** The `beforeRemove` hooks, the engine removal and the `remove` event, once the old value is known. */
    method RemoveAfterRead(key: string, oldValue: Value, now: int) returns (out: Outcome<Thrown>)
      requires Valid()
      modifies this`trace, engine
      ensures Valid()
      ensures (World(), out) == StorageSpec.RemoveAfterRead(Ctx(), old(World()), key, oldValue, now)
    {
      for i := 0 to |middleware|
        invariant BeforeRemoveHooks(middleware, key) == BeforeRemoveHooks(middleware[i..], key)
      {
        assert middleware[i..][1..] == middleware[i + 1..];
        var mw := middleware[i];
        if mw.beforeRemove.Some? {
          var r := mw.beforeRemove.value(key);
          if r.Fail? {
            HandleError("remove", key, r.error, now);
            return r;
          }
        }
      }
      engine.RemoveItem(FullKey(config, key));
      Emit(RemoveEvent, key, oldValue, Undefined, now);
      out := Pass;
    }

    /** `remove(key)`: rethrows after `handleError`. */
    method Remove(key: string, now: int) returns (out: Outcome<Thrown>)
      requires Valid()
      modifies this`trace, engine
      ensures Valid()
      ensures (World(), out) == RemoveSpec(Ctx(), old(World()), key, now)
    {
      var oldValue := Get(key, Undefined, now);
      out := RemoveAfterRead(key, oldValue, now);
    }

    /** `set(key, value, options)`: rethrows after `handleError`. */
    method Set(key: string, value: Value, options: Option<StorageOptions>, now: int) returns (out: Outcome<Thrown>)
      requires Valid()
      modifies this`trace, engine
      ensures Valid()
      ensures (World(), out) == SetSpec(Ctx(), old(World()), key, value, options, now)
    {
      var fullKey := FullKey(config, key);
      var oldValue := Get(key, Undefined, now);
      var processed := value;
      for i := 0 to |middleware|
        invariant BeforeSetPipeline(middleware, key, value, options) == BeforeSetPipeline(middleware[i..], key, processed, options)
      {
        assert middleware[i..][1..] == middleware[i + 1..];
        var mw := middleware[i];
        if mw.beforeSet.Some? {
          var r := mw.beforeSet.value(key, processed, options);
          if r.Failure? {
            HandleError("set", key, r.error, now);
            return Fail(r.error);
          }
          processed := r.value;
        }
      }
      var item := StorageItem(processed, now, CalculateExpiration(config, TtlOf(options), now));
      var serialized := config.serializer.serialize(item);
      if serialized.Failure? {
        HandleError("set", key, serialized.error, now);
        return Fail(serialized.error);
      }
      engine.SetItem(fullKey, serialized.value);
      Emit(SetEvent, key, oldValue, value, now);
      out := Pass;
    }

    /** `keys()`: the namespace's keys, undecorated. */
    method Keys() returns (r: seq<string>)
      requires Valid()
      ensures r == NamespaceKeys(config, engine.store.order)
    {
      var all := engine.Keys();
      r := NamespaceKeys(config, all);
    }

    /** `clear()`: removes every namespace key (all removals run), then one `clear` event; rethrows the first failure. */
    method Clear(now: int) returns (out: Outcome<Thrown>)
      requires Valid()
      modifies this`trace, engine
      ensures Valid()
      ensures (World(), out) == ClearSpec(Ctx(), old(World()), now)
    {
      var keys := Keys();
      var failure: Option<Thrown> := None;
      for i := 0 to |keys|
        invariant Valid()
        invariant RemoveEach(Ctx(), old(World()), keys, now) ==
                  (var (w, later) := RemoveEach(Ctx(), World(), keys[i..], now);
                   (w, if failure.Some? then failure else later))
      {
        assert keys[i..][1..] == keys[i + 1..];
        var r := Remove(keys[i], now);
        if r.Fail? && failure.None? {
          failure := Some(r.error);
        }
      }
      if failure.Some? {
        HandleError("clear", "*", failure.value, now);
        return Fail(failure.value);
      }
      Emit(ClearEvent, "*", Undefined, Undefined, now);
      out := Pass;
    }

    /** `has(key)`: `get(key) !== null`. */
    method Has(key: string, now: int) returns (r: bool)
      requires Valid()
      modifies this`trace, engine
      ensures Valid()
      ensures (World(), r) == HasSpec(Ctx(), old(World()), key, now)
    {
      var v := Get(key, Undefined, now);
      r := v != Null;
    }

    /** `size()`: two bytes per code unit of every non-empty stored text in the namespace. */
    method Size() returns (total: nat)
      requires Valid()
      ensures total == SizeSpec(config, engine.store)
    {
      var keys := Keys();
      total := 0;
      for i := 0 to |keys|
        invariant total == KeysSize(config, engine.store, keys[..i])
      {
        var value := engine.GetItem(FullKey(config, keys[i]));
        assert KeysSize(config, engine.store, keys[..i + 1]) == KeysSize(config, engine.store, keys[..i]) + EntrySize(value) by {
          assert keys[..i + 1][..i] == keys[..i];
        }
        if value.Some? && value.value != "" {
          total := total + |value.value| * 2;
        }
      }
      assert keys[..|keys|] == keys;
    }

    /** `use(middleware)`: appended, so hooks run in registration order. */
    method Use(mw: Middleware)
      modifies this`middleware
      ensures middleware == old(middleware) + [mw]
    {
      middleware := middleware + [mw];
    }

    /** `subscribe(keyOrCallback, callback)`: registers the handler and returns its unsubscribe closure. */
    method Subscribe(target: KeyOrCallback, callback: Option<HandlerId>) returns (s: Subscription)
      requires target.ForKey? ==> callback.Some?
      requires ListenersValid(listeners)
      modifies this`listeners
      ensures ListenersValid(listeners)
      ensures s == SubscriptionOf(target, callback)
      ensures listeners == StorageSpec.Subscribe(old(listeners), s)
    {
      var key := if target.ForKey? then target.key else "*";
      var handler := if target.ForAll? then target.handler else callback.value;
      if key !in listeners {
        listeners := listeners[key := []];
      }
      listeners := listeners[key := AddHandler(listeners[key], handler)];
      s := Subscription(key, handler);
    }

    /** Calling the closure `subscribe` returned. */
    method Unsubscribe(s: Subscription)
      requires ListenersValid(listeners)
      modifies this`listeners
      ensures ListenersValid(listeners)
      ensures listeners == StorageSpec.Unsubscribe(old(listeners), s)
    {
      if s.key in listeners {
        listeners := listeners[s.key := Without(listeners[s.key], s.handler)];
      }
    }
  }
}
