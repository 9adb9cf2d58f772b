/**
 * The module-level API (src/core/index.ts): `createStorage`, the lazily created default instance
 * and the functions that forward to it. The module's state is one object holding the
 * `defaultInstance` variable; the engine the default instance is built over is fixed up front.
 */
module StorageApi {
  import opened Wrappers
  import opened Types
  import opened StorageSpec
  import opened MemoryEngine
  import opened Core
  import opened StorageErrors

  class StorageModule {
    var defaultInstance: Storage?
    /** The engine `new Storage()` ends up with. */
    const defaultEngine: MemoryStorageEngine
    /** `JSON.stringify` / `JSON.parse` for envelopes. */
    const json: Serializer

    ghost predicate Valid()
      reads this, defaultEngine, defaultInstance
    {
      defaultEngine.Valid() &&
      (defaultInstance != null ==>
         defaultInstance.engine == defaultEngine && defaultInstance.Valid() &&
         defaultInstance.config == NormalizeConfig(EmptyConfig, json))
    }

    /** The state of the default instance, or of the one the next call creates. */
    function PendingCtx(): Ctx
      reads this, defaultInstance
    {
      if defaultInstance == null then Ctx(NormalizeConfig(EmptyConfig, json), map[], [])
      else defaultInstance.Ctx()
    }

    function PendingWorld(): World
      requires Valid()
      reads this, defaultEngine, defaultInstance
    {
      if defaultInstance == null then World(defaultEngine.store, [])
      else defaultInstance.World()
    }

    constructor(engine: MemoryStorageEngine, json0: Serializer)
      requires engine.Valid()
      ensures Valid() && defaultInstance == null && defaultEngine == engine && json == json0
    {
      defaultInstance := null;
      defaultEngine := engine;
      json := json0;
    }

    /** `createStorage(config)`: a new instance on every call, never the default one. */
    method CreateStorage(c: StorageConfig, engine: MemoryStorageEngine) returns (s: Storage)
      requires engine.Valid()
      ensures fresh(s) && s != defaultInstance && s.Valid()
      ensures s.config == NormalizeConfig(c, json) && s.engine == engine
      ensures s.listeners == map[] && s.middleware == [] && s.trace == []
    {
      s := new Storage(c, json, engine);
    }

    /** `getDefaultStorage()`: created on the first call with the default configuration, the same instance afterwards. */
    method GetDefaultStorage() returns (s: Storage)
      requires Valid()
      modifies this`defaultInstance
      ensures Valid() && s == defaultInstance
      ensures old(defaultInstance) != null ==> s == old(defaultInstance)
      ensures old(defaultInstance) == null ==> fresh(s)
      ensures s.Ctx() == old(PendingCtx()) && s.World() == old(PendingWorld())
    {
      if defaultInstance == null {
        defaultInstance := new Storage(EmptyConfig, json, defaultEngine);
      }
      s := defaultInstance;
    }

    /** `get(key, defaultValue)` on the default instance. */
    method Get(key: string, defaultValue: Value, now: int) returns (v: Value)
      requires Valid()
      modifies this`defaultInstance, defaultInstance, defaultEngine
      ensures Valid() && defaultInstance != null
      ensures (defaultInstance.World(), v) == GetSpec(old(PendingCtx()), old(PendingWorld()), key, defaultValue, now)
      ensures defaultInstance.Ctx() == old(PendingCtx())
    {
      var s := GetDefaultStorage();
      v := s.Get(key, defaultValue, now);
    }

    /** `set(key, value, options)` on the default instance. */
    method Set(key: string, value: Value, options: Option<StorageOptions>, now: int) returns (out: Outcome<Thrown>)
      requires Valid()
      modifies this`defaultInstance, defaultInstance, defaultEngine
      ensures Valid() && defaultInstance != null
      ensures (defaultInstance.World(), out) == SetSpec(old(PendingCtx()), old(PendingWorld()), key, value, options, now)
      ensures defaultInstance.Ctx() == old(PendingCtx())
    {
      var s := GetDefaultStorage();
      out := s.Set(key, value, options, now);
    }

    /** `remove(key)` on the default instance. */
    method Remove(key: string, now: int) returns (out: Outcome<Thrown>)
      requires Valid()
      modifies this`defaultInstance, defaultInstance, defaultEngine
      ensures Valid() && defaultInstance != null
      ensures (defaultInstance.World(), out) == RemoveSpec(old(PendingCtx()), old(PendingWorld()), key, now)
      ensures defaultInstance.Ctx() == old(PendingCtx())
    {
      var s := GetDefaultStorage();
      out := s.Remove(key, now);
    }

    /** `clear()` on the default instance. */
    method Clear(now: int) returns (out: Outcome<Thrown>)
      requires Valid()
      modifies this`defaultInstance, defaultInstance, defaultEngine
      ensures Valid() && defaultInstance != null
      ensures (defaultInstance.World(), out) == ClearSpec(old(PendingCtx()), old(PendingWorld()), now)
      ensures defaultInstance.Ctx() == old(PendingCtx())
    {
      var s := GetDefaultStorage();
      out := s.Clear(now);
    }

    /** `keys()` on the default instance. */
    method Keys() returns (r: seq<string>)
      requires Valid()
      modifies this`defaultInstance
      ensures Valid() && defaultInstance != null
      ensures r == NamespaceKeys(old(PendingCtx()).config, defaultEngine.store.order)
      ensures defaultInstance.Ctx() == old(PendingCtx()) && defaultInstance.World() == old(PendingWorld())
    {
      var s := GetDefaultStorage();
      r := s.Keys();
    }

    /** `has(key)` on the default instance. */
    method Has(key: string, now: int) returns (r: bool)
      requires Valid()
      modifies this`defaultInstance, defaultInstance, defaultEngine
      ensures Valid() && defaultInstance != null
      ensures (defaultInstance.World(), r) == HasSpec(old(PendingCtx()), old(PendingWorld()), key, now)
      ensures defaultInstance.Ctx() == old(PendingCtx())
    {
      var s := GetDefaultStorage();
      r := s.Has(key, now);
    }

    /** `subscribe(keyOrCallback, callback)` on the default instance: a callback alone lands on `'*'`. */
    method Subscribe(target: KeyOrCallback, callback: Option<HandlerId>) returns (sub: Subscription)
      requires Valid()
      requires target.ForKey? ==> callback.Some?
      modifies this`defaultInstance, defaultInstance
      ensures Valid() && defaultInstance != null
      ensures sub == SubscriptionOf(target, callback)
      ensures target.ForAll? ==> sub.key == "*"
      ensures defaultInstance.listeners == StorageSpec.Subscribe(old(PendingCtx()).listeners, sub)
      ensures defaultInstance.config == old(PendingCtx()).config && defaultInstance.middleware == old(PendingCtx()).middleware
      ensures defaultInstance.World() == old(PendingWorld())
    {
      var s := GetDefaultStorage();
      sub := s.Subscribe(target, callback);
    }
  }
}
