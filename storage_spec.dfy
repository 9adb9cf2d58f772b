/**
 * What one call on a `Storage` instance (src/core/storage.ts) does, as functions of the instance's
 * configuration, listeners and middleware and of the world it acts on: the engine's entries and
 * the calls made so far to subscribers and to the configured callbacks.
 */
module StorageSpec {
  import opened Wrappers
  import opened JsMaps
  import opened Text
  import opened StorageErrors
  import opened Types

  type Store = JsMap<string, string>

  /** A subscriber callback, known by its identity (a `Set` holds each function object once). */
  type HandlerId = nat

  /** One call the store makes into code outside it. */
  datatype Call =
    | Deliver(handler: HandlerId, event: ChangeEvent)
    | OnChange(callback: Callback, event: ChangeEvent)
    | OnError(callback: Callback, error: StorageError)

  /** What the operations change: the engine's entries and the calls made so far. */
  datatype World = World(store: Store, trace: seq<Call>) {
    function Log(calls: seq<Call>): World {
      World(store, trace + calls)
    }
  }

  /** What the operations read of the instance: its configuration, `listeners` and `middleware`. */
  datatype Ctx = Ctx(config: Config, listeners: map<string, seq<HandlerId>>, middleware: seq<Middleware>)

  // ---------------------------------------------------------------------------------------------
  // Namespacing

  /** `getFullKey(key)`: the physical key. */
  function FullKey(c: Config, key: string): string {
    c.prefix + key + c.suffix
  }

  /** A relative `slice` bound resolved against a length, as `String.prototype.slice` does. */
  function SliceBound(i: int, len: nat): (r: nat)
    ensures r <= len
  {
    if i < 0 then (if len + i < 0 then 0 else len + i) else if i > len then len else i
  }

  /** `s.slice(start, end)`. */
  function Slice(s: string, start: int, end: int): (r: string)
    ensures |r| <= |s|
  {
    var from, to := SliceBound(start, |s|), SliceBound(end, |s|);
    if from >= to then [] else s[from..to]
  }

  /** `stripNamespace(fullKey)`: drop the prefix's length from the front and the suffix's from the back. */
  function StripNamespace(c: Config, fullKey: string): string {
    var key := if c.prefix != "" then Slice(fullKey, |c.prefix|, |fullKey|) else fullKey;
    if c.suffix != "" then Slice(key, 0, -|c.suffix|) else key
  }

  /** `matchesNamespace(fullKey)` as written: it starts with the prefix and ends with the suffix. */
  predicate MatchesNamespaceAsWritten(c: Config, fullKey: string) {
    (c.prefix == "" || StartsWith(fullKey, c.prefix)) && (c.suffix == "" || EndsWith(fullKey, c.suffix))
  }

  /**
   * The namespace test the rest of the model uses: as written, and also long enough to hold the
   * prefix and the suffix without overlap, so that it holds exactly of the keys `getFullKey` builds.
   */
  predicate MatchesNamespace(c: Config, fullKey: string) {
    MatchesNamespaceAsWritten(c, fullKey) && |fullKey| >= |c.prefix| + |c.suffix|
  }

  /** `keys()`: the engine keys in the namespace, undecorated, in engine order. */
  function NamespaceKeys(c: Config, order: seq<string>): (r: seq<string>)
    ensures |r| <= |order|
  {
    if order == [] then []
    else (if MatchesNamespace(c, order[0]) then [StripNamespace(c, order[0])] else []) + NamespaceKeys(c, order[1..])
  }

  // ---------------------------------------------------------------------------------------------
  // Expiry

  /** `isExpired(item)`: an item with no (or a zero) `expiresAt` never expires; otherwise strictly after it. */
  predicate IsExpired(item: StorageItem, now: int) {
    item.expiresAt.Some? && item.expiresAt.value != 0 && now > item.expiresAt.value
  }

  /** `calculateExpiration(ttl)`: the per-call TTL, or else the configured one; 0 means no expiry. */
  function CalculateExpiration(c: Config, ttl: Option<int>, now: int): Option<int> {
    var seconds := ttl.GetOr(c.ttl);
    if seconds == 0 then None else Some(now + seconds * 1000)
  }

  // ---------------------------------------------------------------------------------------------
  // Notification

  /** The handlers registered under `key`, in registration order. */
  function HandlersOf(listeners: map<string, seq<HandlerId>>, key: string): seq<HandlerId> {
    if key in listeners then listeners[key] else []
  }

  /** One delivery of `event` per handler, in order. */
  function Deliveries(hs: seq<HandlerId>, event: ChangeEvent): (r: seq<Call>)
    ensures |r| == |hs|
    ensures forall i :: 0 <= i < |hs| ==> r[i] == Deliver(hs[i], event)
  {
    if hs == [] then [] else Deliveries(hs[..|hs| - 1], event) + [Deliver(hs[|hs| - 1], event)]
  }

  /** `emit(type, event)`: the key's handlers, then the wildcard handlers, then `onChange`. */
  function Emit(ctx: Ctx, kind: EventType, key: string, oldValue: Value, newValue: Value, now: int): seq<Call> {
    var event := ChangeEvent(kind, key, oldValue, newValue, now);
    Deliveries(HandlersOf(ctx.listeners, key), event) +
    Deliveries(HandlersOf(ctx.listeners, "*"), event) +
    [OnChange(ctx.config.onChange, event)]
  }

  /** `handleError(operation, key, error)`: an `error` event for the key, then `onError` with the wrapped error. */
  function HandleError(ctx: Ctx, operation: string, key: string, error: Thrown, now: int): seq<Call> {
    Emit(ctx, ErrorEvent, key, Undefined, Undefined, now) +
    [OnError(ctx.config.onError, StorageError.OperationFailedFor(operation, key, Some(error)))]
  }

  // ---------------------------------------------------------------------------------------------
  // Middleware

  /** The `afterGet` hooks in registration order, each taking the previous one's output; the first throw ends it. */
  function AfterGetPipeline(mws: seq<Middleware>, key: string, value: Value): Result<Value, Thrown> {
    if mws == [] then Success(value)
    else match mws[0].afterGet
      case None => AfterGetPipeline(mws[1..], key, value)
      case Some(hook) =>
        match hook(key, value)
        case Failure(e) => Failure(e)
        case Success(v) => AfterGetPipeline(mws[1..], key, v)
  }

  /** The `beforeSet` hooks in registration order, each taking the previous one's output; the first throw ends it. */
  function BeforeSetPipeline(mws: seq<Middleware>, key: string, value: Value, options: Option<StorageOptions>): Result<Value, Thrown> {
    if mws == [] then Success(value)
    else match mws[0].beforeSet
      case None => BeforeSetPipeline(mws[1..], key, value, options)
      case Some(hook) =>
        match hook(key, value, options)
        case Failure(e) => Failure(e)
        case Success(v) => BeforeSetPipeline(mws[1..], key, v, options)
  }

  /** The `beforeRemove` hooks in registration order; the first throw ends it. */
  function BeforeRemoveHooks(mws: seq<Middleware>, key: string): Outcome<Thrown> {
    if mws == [] then Pass
    else match mws[0].beforeRemove
      case None => BeforeRemoveHooks(mws[1..], key)
      case Some(hook) =>
        match hook(key)
        case Fail(e) => Fail(e)
        case Pass => BeforeRemoveHooks(mws[1..], key)
  }

  // ---------------------------------------------------------------------------------------------
  // Operations

  /** `defaultValue ?? null`. */
  function DefaultOrNull(defaultValue: Value): Value {
    Coalesce(defaultValue, Null)
  }

  /**
   * `get(key, defaultValue)`: a missing key or any failure yields the default (failures after
   * `handleError`); an expired item is removed and yields the default; otherwise the stored value
   * after the `afterGet` hooks.
   */
  function GetSpec(ctx: Ctx, w: World, key: string, defaultValue: Value, now: int): (World, Value) {
    var fallback := DefaultOrNull(defaultValue);
    match w.store.Get(FullKey(ctx.config, key))
    case None => (w, fallback)
    case Some(raw) =>
      match ctx.config.serializer.deserialize(raw)
      case Failure(e) => (w.Log(HandleError(ctx, "get", key, e, now)), fallback)
      case Success(item) =>
        if IsExpired(item, now) then
          var (w1, out) := RemoveAfterRead(ctx, w, key, Null, now);
          if out.Fail? then (w1.Log(HandleError(ctx, "get", key, out.error, now)), fallback) else (w1, fallback)
        else
          match AfterGetPipeline(ctx.middleware, key, item.value)
          case Failure(e) => (w.Log(HandleError(ctx, "get", key, e, now)), fallback)
          case Success(v) => (w, v)
  }

  /**
   * The part of `remove(key)` after it has read the old value: the `beforeRemove` hooks, the engine
   * removal and the `remove` event; a throwing hook is handled and rethrown.
   */
  function RemoveAfterRead(ctx: Ctx, w: World, key: string, oldValue: Value, now: int): (World, Outcome<Thrown>) {
    match BeforeRemoveHooks(ctx.middleware, key)
    case Fail(e) => (w.Log(HandleError(ctx, "remove", key, e, now)), Fail(e))
    case Pass =>
      (World(w.store.Delete(FullKey(ctx.config, key)), w.trace + Emit(ctx, RemoveEvent, key, oldValue, Undefined, now)), Pass)
  }

  /** `remove(key)`: read the old value with `get`, then the rest of the removal. */
  function RemoveSpec(ctx: Ctx, w: World, key: string, now: int): (World, Outcome<Thrown>) {
    var (w1, oldValue) := GetSpec(ctx, w, key, Undefined, now);
    RemoveAfterRead(ctx, w1, key, oldValue, now)
  }

  /**
   * `set(key, value, options)`: read the old value with `get`, run the `beforeSet` hooks, write the
   * serialised envelope and emit `set` with the caller's value; a failure is handled and rethrown.
   */
  function SetSpec(ctx: Ctx, w: World, key: string, value: Value, options: Option<StorageOptions>, now: int): (World, Outcome<Thrown>) {
    var (w1, oldValue) := GetSpec(ctx, w, key, Undefined, now);
    match BeforeSetPipeline(ctx.middleware, key, value, options)
    case Failure(e) => (w1.Log(HandleError(ctx, "set", key, e, now)), Fail(e))
    case Success(processed) =>
      var item := StorageItem(processed, now, CalculateExpiration(ctx.config, TtlOf(options), now));
      match ctx.config.serializer.serialize(item)
      case Failure(e) => (w1.Log(HandleError(ctx, "set", key, e, now)), Fail(e))
      case Success(raw) =>
        (World(w1.store.Set(FullKey(ctx.config, key), raw), w1.trace + Emit(ctx, SetEvent, key, oldValue, value, now)), Pass)
  }

  /** `remove` of each key in turn; every removal runs, and the first failure is kept. */
  function RemoveEach(ctx: Ctx, w: World, keys: seq<string>, now: int): (World, Option<Thrown>)
    decreases |keys|
  {
    if keys == [] then (w, None)
    else
      var (w1, out) := RemoveSpec(ctx, w, keys[0], now);
      var (w2, later) := RemoveEach(ctx, w1, keys[1..], now);
      (w2, if out.Fail? then Some(out.error) else later)
  }

  /** `clear()`: remove every key of the namespace, then emit one `clear` event for `'*'`; a failure is handled and rethrown. */
  function ClearSpec(ctx: Ctx, w: World, now: int): (World, Outcome<Thrown>) {
    var (w1, failure) := RemoveEach(ctx, w, NamespaceKeys(ctx.config, w.store.order), now);
    match failure
    case Some(e) => (w1.Log(HandleError(ctx, "clear", "*", e, now)), Fail(e))
    case None => (w1.Log(Emit(ctx, ClearEvent, "*", Undefined, Undefined, now)), Pass)
  }

  /** `has(key)`: whether `get(key)` answers something other than null. */
  function HasSpec(ctx: Ctx, w: World, key: string, now: int): (World, bool) {
    var (w1, v) := GetSpec(ctx, w, key, Undefined, now);
    (w1, v != Null)
  }

  /** Two bytes per code unit of each non-empty raw value stored under a namespace key. */
  function KeysSize(c: Config, store: Store, keys: seq<string>): nat {
    if keys == [] then 0
    else
      var n := |keys| - 1;
      KeysSize(c, store, keys[..n]) + EntrySize(store.Get(FullKey(c, keys[n])))
  }

  /** Two bytes per code unit of a non-empty stored text; nothing for a missing or empty one. */
  function EntrySize(raw: Option<string>): nat {
    if raw.Some? && raw.value != "" then |raw.value| * 2 else 0
  }

  /** `size()`. */
  function SizeSpec(c: Config, store: Store): nat {
    KeysSize(c, store, NamespaceKeys(c, store.order))
  }

  // ---------------------------------------------------------------------------------------------
  // Subscription

  /** A `Set`'s `add`: a handler already present keeps its place. */
  function AddHandler(hs: seq<HandlerId>, h: HandlerId): (r: seq<HandlerId>)
    ensures Distinct(hs) ==> Distinct(r)
    ensures forall x :: x in r <==> x in hs || x == h
  {
    if h in hs then hs else hs + [h]
  }

  /** What `subscribe` is given first: a key, or the callback itself. */
  datatype KeyOrCallback = ForKey(key: string) | ForAll(handler: HandlerId)

  /** The unsubscribe closure `subscribe` returns: the key and handler it removes. */
  datatype Subscription = Subscription(key: string, handler: HandlerId)

  /** Where `subscribe(keyOrCallback, callback)` registers: `'*'` when given only a callback. */
  function SubscriptionOf(target: KeyOrCallback, callback: Option<HandlerId>): (s: Subscription)
    requires target.ForKey? ==> callback.Some?
    ensures target.ForAll? ==> s == Subscription("*", target.handler)
    ensures target.ForKey? ==> s == Subscription(target.key, callback.value)
  {
    match target
    case ForKey(k) => Subscription(k, callback.value)
    case ForAll(h) => Subscription("*", h)
  }

  /** The listener table after `subscribe`. */
  function Subscribe(listeners: map<string, seq<HandlerId>>, s: Subscription): map<string, seq<HandlerId>> {
    listeners[s.key := AddHandler(HandlersOf(listeners, s.key), s.handler)]
  }

  /** The listener table after calling the unsubscribe closure: the handler leaves its key's set, which stays in the table. */
  function Unsubscribe(listeners: map<string, seq<HandlerId>>, s: Subscription): map<string, seq<HandlerId>> {
    if s.key in listeners then listeners[s.key := Without(listeners[s.key], s.handler)] else listeners
  }

  /** Each key's handlers are distinct, as in a `Set`. */
  ghost predicate ListenersValid(listeners: map<string, seq<HandlerId>>) {
    forall k :: k in listeners ==> Distinct(listeners[k])
  }
}
