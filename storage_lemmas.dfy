/** Properties of the `Storage` operations, stated over the specification functions the class is proved to follow. */
module StorageProperties {
  import opened Wrappers
  import opened JsMaps
  import opened Text
  import opened StorageErrors
  import opened Types
  import opened StorageSpec

  // ---------------------------------------------------------------------------------------------
  // Namespacing

  /** The physical key of a logical key is in the namespace and strips back to the logical key. */
  lemma NamespaceRoundTrip(c: Config, key: string)
    ensures FullKey(c, key) == c.prefix + key + c.suffix
    ensures MatchesNamespace(c, FullKey(c, key))
    ensures StripNamespace(c, FullKey(c, key)) == key
  {
    var p, s := c.prefix, c.suffix;
    var fk := FullKey(c, key);
    assert fk[..|p|] == p;
    assert fk[|fk| - |s|..] == s;
    var key1 := if p != "" then Slice(fk, |p|, |fk|) else fk;
    assert key1 == key + s by {
      if p != "" {
        assert fk[|p|..|fk|] == key + s;
      }
    }
    if s != "" {
      assert SliceBound(-|s|, |key1|) == |key|;
      if |key| > 0 {
        assert key1[0..|key|] == key;
      }
    }
  }

  /** A key is in the namespace exactly when it is the physical key of the key it strips to. */
  lemma MatchesIffBuilt(c: Config, fullKey: string)
    ensures MatchesNamespace(c, fullKey) <==> FullKey(c, StripNamespace(c, fullKey)) == fullKey
  {
    var p, s := c.prefix, c.suffix;
    if MatchesNamespace(c, fullKey) {
      var mid := fullKey[|p|..|fullKey| - |s|];
      assert fullKey == p + mid + s by {
        assert fullKey[..|p|] == p;
        assert fullKey[|fullKey| - |s|..] == s;
        assert fullKey == fullKey[..|p|] + fullKey[|p|..|fullKey| - |s|] + fullKey[|fullKey| - |s|..];
      }
      NamespaceRoundTrip(c, mid);
    } else if FullKey(c, StripNamespace(c, fullKey)) == fullKey {
      NamespaceRoundTrip(c, StripNamespace(c, fullKey));
    }
  }

  /** `keys()` lists exactly the logical keys whose physical key the engine holds. */
  lemma {:induction false} KeysExactly(c: Config, order: seq<string>, key: string)
    ensures key in NamespaceKeys(c, order) <==> FullKey(c, key) in order
  {
    if order != [] {
      KeysExactly(c, order[1..], key);
      MatchesIffBuilt(c, order[0]);
      NamespaceRoundTrip(c, key);
      assert FullKey(c, key) in order <==> FullKey(c, key) == order[0] || FullKey(c, key) in order[1..];
    }
  }

  /**
   * A key written by an instance whose non-empty prefix is not a prefix of this instance's prefix,
   * nor the other way round, is never in this instance's namespace.
   */
  lemma ForeignPrefixInvisible(mine: Config, theirs: Config, key: string)
    requires mine.prefix != ""
    requires !StartsWith(mine.prefix, theirs.prefix) && !StartsWith(theirs.prefix, mine.prefix)
    ensures !MatchesNamespace(mine, FullKey(theirs, key))
  {
    var fk := FullKey(theirs, key);
    var p, q := mine.prefix, theirs.prefix;
    assert fk[..|q|] == q;
    if |p| <= |q| {
      assert fk[..|p|] == q[..|p|];
    } else if |p| <= |fk| {
      assert fk[..|p|][..|q|] == q;
    }
  }

  // ---------------------------------------------------------------------------------------------
  // Expiry

  /**
   * The effective TTL is the per-call one when given (even 0), else the configured one. A TTL of 0
   * stores no `expiresAt` and the item never expires; otherwise the item expires strictly after
   * `ttl * 1000` milliseconds.
   */
  lemma ExpiryRule(c: Config, ttl: Option<int>, created: int, now: int, v: Value)
    ensures var seconds := if ttl.Some? then ttl.value else c.ttl;
            var item := StorageItem(v, created, CalculateExpiration(c, ttl, created));
            (seconds == 0 ==> item.expiresAt == None && !IsExpired(item, now)) &&
            (seconds != 0 ==> item.expiresAt == Some(created + seconds * 1000)) &&
            (seconds != 0 && created + seconds * 1000 != 0 ==> (IsExpired(item, now) <==> now > created + seconds * 1000))
  {
  }

  /** Reading an expired item removes it (when no `beforeRemove` hook throws) and answers the default. */
  lemma ExpiredReadRemoves(ctx: Ctx, w: World, key: string, defaultValue: Value, now: int, item: StorageItem)
    requires w.store.Get(FullKey(ctx.config, key)).Some?
    requires ctx.config.serializer.deserialize(w.store.Get(FullKey(ctx.config, key)).value) == Success(item)
    requires IsExpired(item, now)
    requires BeforeRemoveHooks(ctx.middleware, key) == Pass
    ensures GetSpec(ctx, w, key, defaultValue, now).1 == Coalesce(defaultValue, Null)
    ensures GetSpec(ctx, w, key, defaultValue, now).0.store == w.store.Delete(FullKey(ctx.config, key))
    ensures GetSpec(ctx, w, key, defaultValue, now).0.store.Get(FullKey(ctx.config, key)) == None
  {
  }

  // ---------------------------------------------------------------------------------------------
  // Reads

  /** A missing key reads as `defaultValue ?? null`, changes nothing, and `has` answers false. */
  lemma GetMissing(ctx: Ctx, w: World, key: string, defaultValue: Value, now: int)
    requires w.store.Get(FullKey(ctx.config, key)) == None
    ensures GetSpec(ctx, w, key, defaultValue, now) == (w, Coalesce(defaultValue, Null))
    ensures HasSpec(ctx, w, key, now) == (w, false)
  {
  }

  /** A stored `null` reads back as `null`, so `has` cannot tell it from a missing key. */
  lemma StoredNullReadsAbsent(ctx: Ctx, w: World, key: string, now: int, item: StorageItem)
    requires ctx.middleware == []
    requires w.store.Get(FullKey(ctx.config, key)).Some?
    requires ctx.config.serializer.deserialize(w.store.Get(FullKey(ctx.config, key)).value) == Success(item)
    requires item.value == Null && !IsExpired(item, now)
    ensures !HasSpec(ctx, w, key, now).1
  {
  }

  /**
   * `get` never throws: it answers the pipeline's value, or the default after reporting the failure
   * through `handleError('get', …)`, whose last call is `onError` with an `OPERATION_FAILED` error.
   */
  lemma GetReportsFailures(ctx: Ctx, w: World, key: string, defaultValue: Value, now: int, e: Thrown)
    requires w.store.Get(FullKey(ctx.config, key)).Some?
    requires var raw := w.store.Get(FullKey(ctx.config, key)).value;
             ctx.config.serializer.deserialize(raw) == Failure(e) ||
             (ctx.config.serializer.deserialize(raw).Success? &&
              !IsExpired(ctx.config.serializer.deserialize(raw).value, now) &&
              AfterGetPipeline(ctx.middleware, key, ctx.config.serializer.deserialize(raw).value.value) == Failure(e))
    ensures GetSpec(ctx, w, key, defaultValue, now) == (w.Log(HandleError(ctx, "get", key, e, now)), Coalesce(defaultValue, Null))
    ensures var t := GetSpec(ctx, w, key, defaultValue, now).0.trace;
            t[|t| - 1] == OnError(ctx.config.onError, StorageError.OperationFailedFor("get", key, Some(e)))
  {
  }

  /** `get` only ever changes the entry of its own key, and never adds one. */
  lemma GetFrame(ctx: Ctx, w: World, key: string, defaultValue: Value, now: int, fk: string)
    ensures fk != FullKey(ctx.config, key) ==> GetSpec(ctx, w, key, defaultValue, now).0.store.Get(fk) == w.store.Get(fk)
    ensures w.store.Get(fk) == None ==> GetSpec(ctx, w, key, defaultValue, now).0.store.Get(fk) == None
    ensures w.store.Valid() ==> GetSpec(ctx, w, key, defaultValue, now).0.store.Valid()
  {
  }

  // ---------------------------------------------------------------------------------------------
  // Middleware order

  /** Hooks registered later run on the output of the earlier ones: the pipeline over `a + b` is `a`'s, then `b`'s. */
  lemma {:induction false} BeforeSetPipelineAppend(a: seq<Middleware>, b: seq<Middleware>, key: string, v: Value, options: Option<StorageOptions>)
    ensures BeforeSetPipeline(a + b, key, v, options) ==
              match BeforeSetPipeline(a, key, v, options)
              case Failure(e) => Failure(e)
              case Success(v1) => BeforeSetPipeline(b, key, v1, options)
  {
    if a == [] {
      assert a + b == b;
    } else {
      assert (a + b)[0] == a[0] && (a + b)[1..] == a[1..] + b;
      match a[0].beforeSet
      case None => BeforeSetPipelineAppend(a[1..], b, key, v, options);
      case Some(hook) =>
        match hook(key, v, options)
        case Failure(_) =>
        case Success(v1) => BeforeSetPipelineAppend(a[1..], b, key, v1, options);
    }
  }

  /** The same composition for the `afterGet` hooks. */
  lemma {:induction false} AfterGetPipelineAppend(a: seq<Middleware>, b: seq<Middleware>, key: string, v: Value)
    ensures AfterGetPipeline(a + b, key, v) ==
              match AfterGetPipeline(a, key, v)
              case Failure(e) => Failure(e)
              case Success(v1) => AfterGetPipeline(b, key, v1)
  {
    if a == [] {
      assert a + b == b;
    } else {
      assert (a + b)[0] == a[0] && (a + b)[1..] == a[1..] + b;
      match a[0].afterGet
      case None => AfterGetPipelineAppend(a[1..], b, key, v);
      case Some(hook) =>
        match hook(key, v)
        case Failure(_) =>
        case Success(v1) => AfterGetPipelineAppend(a[1..], b, key, v1);
    }
  }

  /** The `beforeRemove` hooks of `a + b`: all of `a`'s, then all of `b`'s, up to the first throw. */
  lemma {:induction false} BeforeRemoveHooksAppend(a: seq<Middleware>, b: seq<Middleware>, key: string)
    ensures BeforeRemoveHooks(a + b, key) ==
              match BeforeRemoveHooks(a, key)
              case Fail(e) => Fail(e)
              case Pass => BeforeRemoveHooks(b, key)
  {
    if a == [] {
      assert a + b == b;
    } else {
      assert (a + b)[0] == a[0] && (a + b)[1..] == a[1..] + b;
      BeforeRemoveHooksAppend(a[1..], b, key);
    }
  }

  /** After `use(mw)`, `mw`'s `beforeSet` runs last, on the value every earlier hook produced. */
  lemma UsedMiddlewareRunsLast(mws: seq<Middleware>, mw: Middleware, key: string, v: Value, options: Option<StorageOptions>)
    ensures BeforeSetPipeline(mws + [mw], key, v, options) ==
              match BeforeSetPipeline(mws, key, v, options)
              case Failure(e) => Failure(e)
              case Success(v1) => if mw.beforeSet.Some? then mw.beforeSet.value(key, v1, options) else Success(v1)
  {
    BeforeSetPipelineAppend(mws, [mw], key, v, options);
    assert [mw][1..] == [];
  }

  // ---------------------------------------------------------------------------------------------
  // Writes

  /**
   * `set` succeeds exactly when the hooks and the serializer do. On success the key holds the
   * serialised envelope of the processed value, stamped now, and the `set` event carries the value
   * `get` read before and the caller's own value; on failure nothing is written and the last call is
   * `onError` with an `OPERATION_FAILED` error for `set`.
   */
  lemma SetOutcome(ctx: Ctx, w: World, key: string, value: Value, options: Option<StorageOptions>, now: int)
    ensures var (w1, oldValue) := GetSpec(ctx, w, key, Undefined, now);
            var (w2, out) := SetSpec(ctx, w, key, value, options, now);
            var processed := BeforeSetPipeline(ctx.middleware, key, value, options);
            (processed.Failure? ==> out == Fail(processed.error)) &&
            (processed.Success? ==>
               var item := StorageItem(processed.value, now, CalculateExpiration(ctx.config, TtlOf(options), now));
               (out.Pass? <==> ctx.config.serializer.serialize(item).Success?) &&
               (out.Pass? ==>
                  w2.store == w1.store.Set(FullKey(ctx.config, key), ctx.config.serializer.serialize(item).value) &&
                  w2.trace == w1.trace + Emit(ctx, SetEvent, key, oldValue, value, now))) &&
            (out.Fail? ==>
               w2.store == w1.store &&
               w2.trace[|w2.trace| - 1] == OnError(ctx.config.onError, StorageError.OperationFailedFor("set", key, Some(out.error))))
  {
  }

  /** With no middleware and a serializer that reads back what it wrote, `get` after `set` answers the value set. */
  lemma SetThenGet(ctx: Ctx, w: World, key: string, value: Value, options: Option<StorageOptions>, now: int, later: int, defaultValue: Value)
    requires ctx.middleware == []
    requires var item := StorageItem(value, now, CalculateExpiration(ctx.config, TtlOf(options), now));
             ctx.config.serializer.serialize(item).Success? &&
             ctx.config.serializer.deserialize(ctx.config.serializer.serialize(item).value) == Success(item) &&
             !IsExpired(item, later)
    ensures SetSpec(ctx, w, key, value, options, now).1 == Pass
    ensures var w2 := SetSpec(ctx, w, key, value, options, now).0;
            GetSpec(ctx, w2, key, defaultValue, later) == (w2, value)
  {
  }

  /**
   * `remove` succeeds exactly when every `beforeRemove` hook does; it then deletes its key and emits
   * `remove` with the value `get` read before; on failure nothing is deleted. No other key changes.
   */
  lemma RemoveOutcome(ctx: Ctx, w: World, key: string, now: int, fk: string)
    ensures var (w1, oldValue) := GetSpec(ctx, w, key, Undefined, now);
            var (w2, out) := RemoveSpec(ctx, w, key, now);
            (out.Pass? <==> BeforeRemoveHooks(ctx.middleware, key).Pass?) &&
            (out.Pass? ==>
               w2.store == w1.store.Delete(FullKey(ctx.config, key)) &&
               w2.trace == w1.trace + Emit(ctx, RemoveEvent, key, oldValue, Undefined, now)) &&
            (out.Fail? ==>
               w2.store == w1.store &&
               w2.trace[|w2.trace| - 1] == OnError(ctx.config.onError, StorageError.OperationFailedFor("remove", key, Some(out.error)))) &&
            (fk != FullKey(ctx.config, key) ==> w2.store.Get(fk) == w.store.Get(fk)) &&
            (w.store.Get(fk) == None ==> w2.store.Get(fk) == None) &&
            (w.store.Valid() ==> w2.store.Valid())
  {
    GetFrame(ctx, w, key, Undefined, now, fk);
  }

  // ---------------------------------------------------------------------------------------------
  // Clearing

  /** Removing keys whose physical keys all differ from `fk` leaves `fk`'s entry as it was. */
  lemma {:induction false} RemoveEachFrame(ctx: Ctx, w: World, keys: seq<string>, now: int, fk: string)
    requires forall k :: k in keys ==> FullKey(ctx.config, k) != fk
    ensures RemoveEach(ctx, w, keys, now).0.store.Get(fk) == w.store.Get(fk)
    decreases |keys|
  {
    if keys != [] {
      RemoveOutcome(ctx, w, keys[0], now, fk);
      RemoveEachFrame(ctx, RemoveSpec(ctx, w, keys[0], now).0, keys[1..], now, fk);
    }
  }

  /**
   * When no `beforeRemove` hook throws, removing `keys` succeeds and leaves no entry under any
   * of their physical keys, nor under a key that was already absent.
   */
  lemma {:induction false} RemoveEachDeletes(ctx: Ctx, w: World, keys: seq<string>, now: int, fk: string)
    requires forall k :: k in keys ==> BeforeRemoveHooks(ctx.middleware, k).Pass?
    requires w.store.Get(fk) == None || exists i :: 0 <= i < |keys| && FullKey(ctx.config, keys[i]) == fk
    ensures RemoveEach(ctx, w, keys, now).0.store.Get(fk) == None
    ensures RemoveEach(ctx, w, keys, now).1 == None
    decreases |keys|
  {
    if keys != [] {
      RemoveOutcome(ctx, w, keys[0], now, fk);
      var w1 := RemoveSpec(ctx, w, keys[0], now).0;
      if w1.store.Get(fk) != None {
        var i :| 0 <= i < |keys| && FullKey(ctx.config, keys[i]) == fk;
        assert i != 0;
        assert keys[1..][i - 1] == keys[i];
      }
      RemoveEachDeletes(ctx, w1, keys[1..], now, fk);
    }
  }

  /** `clear()` never touches an engine key outside the namespace. */
  lemma ClearKeepsOtherKeys(ctx: Ctx, w: World, now: int, fk: string)
    requires !MatchesNamespace(ctx.config, fk)
    ensures ClearSpec(ctx, w, now).0.store.Get(fk) == w.store.Get(fk)
  {
    var keys := NamespaceKeys(ctx.config, w.store.order);
    forall k | k in keys
      ensures FullKey(ctx.config, k) != fk
    {
      NamespaceRoundTrip(ctx.config, k);
    }
    RemoveEachFrame(ctx, w, keys, now, fk);
  }

  /**
   * When no `beforeRemove` hook throws, `clear()` succeeds, leaves no key of the namespace behind
   * and ends with a single `clear` event for `'*'`.
   */
  lemma ClearEmptiesNamespace(ctx: Ctx, w: World, now: int, fk: string)
    requires forall k :: BeforeRemoveHooks(ctx.middleware, k).Pass?
    requires w.store.Valid()
    requires MatchesNamespace(ctx.config, fk)
    ensures ClearSpec(ctx, w, now).1 == Pass
    ensures ClearSpec(ctx, w, now).0.store.Get(fk) == None
    ensures var w1 := RemoveEach(ctx, w, NamespaceKeys(ctx.config, w.store.order), now).0;
            ClearSpec(ctx, w, now).0.trace == w1.trace + Emit(ctx, ClearEvent, "*", Undefined, Undefined, now)
  {
    var keys := NamespaceKeys(ctx.config, w.store.order);
    if w.store.Get(fk) != None {
      var k := StripNamespace(ctx.config, fk);
      MatchesIffBuilt(ctx.config, fk);
      KeysExactly(ctx.config, w.store.order, k);
      var i :| 0 <= i < |keys| && keys[i] == k;
    }
    RemoveEachDeletes(ctx, w, keys, now, fk);
  }

  // ---------------------------------------------------------------------------------------------
  // Size

  /** A list of keys counts nothing exactly when each of its keys stores no text, or an empty one. */
  lemma {:induction false} KeysSizeZeroIff(c: Config, store: Store, keys: seq<string>)
    ensures KeysSize(c, store, keys) == 0 <==> forall k :: k in keys ==> EntrySize(store.Get(FullKey(c, k))) == 0
  {
    if keys != [] {
      var n := |keys| - 1;
      KeysSizeZeroIff(c, store, keys[..n]);
      assert forall k :: k in keys <==> k in keys[..n] || k == keys[n] by {
        assert keys == keys[..n] + [keys[n]];
      }
    }
  }

  /** `size()` is 0 exactly when no physical key of the namespace holds a non-empty text. */
  lemma SizeZeroIff(c: Config, store: Store)
    ensures SizeSpec(c, store) == 0 <==>
            forall k :: FullKey(c, k) in store.order ==> EntrySize(store.Get(FullKey(c, k))) == 0
  {
    var keys := NamespaceKeys(c, store.order);
    KeysSizeZeroIff(c, store, keys);
    forall k ensures k in keys <==> FullKey(c, k) in store.order {
      KeysExactly(c, store.order, k);
    }
  }

  // ---------------------------------------------------------------------------------------------
  // Subscription

  /** A delivery made by `emit` goes to a handler of the event's key or of `'*'`, and carries that event. */
  lemma DeliveredOnlyToSubscribers(ctx: Ctx, kind: EventType, key: string, oldValue: Value, newValue: Value, now: int, h: HandlerId, event: ChangeEvent)
    requires Deliver(h, event) in Emit(ctx, kind, key, oldValue, newValue, now)
    ensures h in HandlersOf(ctx.listeners, key) || h in HandlersOf(ctx.listeners, "*")
    ensures event == ChangeEvent(kind, key, oldValue, newValue, now)
  {
    var e := ChangeEvent(kind, key, oldValue, newValue, now);
    var a := Deliveries(HandlersOf(ctx.listeners, key), e);
    var b := Deliveries(HandlersOf(ctx.listeners, "*"), e);
    assert Emit(ctx, kind, key, oldValue, newValue, now) == a + b + [OnChange(ctx.config.onChange, e)];
    if Deliver(h, event) in a {
      var i :| 0 <= i < |a| && a[i] == Deliver(h, event);
    } else {
      assert Deliver(h, event) in b;
      var i :| 0 <= i < |b| && b[i] == Deliver(h, event);
    }
  }

  /**
   * `emit` calls the key's handlers in order, then the wildcard handlers in order, and `onChange` last;
   * an event for `'*'` itself reaches each wildcard handler twice.
   */
  lemma EmitOrder(ctx: Ctx, kind: EventType, key: string, oldValue: Value, newValue: Value, now: int)
    ensures |Emit(ctx, kind, key, oldValue, newValue, now)| ==
              |HandlersOf(ctx.listeners, key)| + |HandlersOf(ctx.listeners, "*")| + 1
    ensures forall i :: 0 <= i < |HandlersOf(ctx.listeners, key)| ==>
              Emit(ctx, kind, key, oldValue, newValue, now)[i] ==
              Deliver(HandlersOf(ctx.listeners, key)[i], ChangeEvent(kind, key, oldValue, newValue, now))
    ensures forall i :: 0 <= i < |HandlersOf(ctx.listeners, "*")| ==>
              Emit(ctx, kind, key, oldValue, newValue, now)[|HandlersOf(ctx.listeners, key)| + i] ==
              Deliver(HandlersOf(ctx.listeners, "*")[i], ChangeEvent(kind, key, oldValue, newValue, now))
    ensures Emit(ctx, kind, key, oldValue, newValue, now)[|Emit(ctx, kind, key, oldValue, newValue, now)| - 1] ==
              OnChange(ctx.config.onChange, ChangeEvent(kind, key, oldValue, newValue, now))
  {
    var e := ChangeEvent(kind, key, oldValue, newValue, now);
    var a := Deliveries(HandlersOf(ctx.listeners, key), e);
    var b := Deliveries(HandlersOf(ctx.listeners, "*"), e);
    var calls := Emit(ctx, kind, key, oldValue, newValue, now);
    assert calls == a + b + [OnChange(ctx.config.onChange, e)];
  }

  /** An event for the key `'*'` reaches each wildcard handler twice: once as its key's handler, once as a wildcard handler. */
  lemma WildcardEventDeliveredTwice(ctx: Ctx, kind: EventType, oldValue: Value, newValue: Value, now: int, i: nat)
    requires i < |HandlersOf(ctx.listeners, "*")|
    ensures var calls := Emit(ctx, kind, "*", oldValue, newValue, now);
            var n := |HandlersOf(ctx.listeners, "*")|;
            n + i < |calls| && calls[i] == calls[n + i] &&
            calls[i] == Deliver(HandlersOf(ctx.listeners, "*")[i], ChangeEvent(kind, "*", oldValue, newValue, now))
  {
    EmitOrder(ctx, kind, "*", oldValue, newValue, now);
  }

  /** `subscribe(fn)` registers under `'*'`, `subscribe(k, fn)` under `k`; the handler then hears every event for that key. */
  lemma SubscribedHandlerNotified(config: Config, listeners: map<string, seq<HandlerId>>, mws: seq<Middleware>,
                                  target: KeyOrCallback, callback: Option<HandlerId>,
                                  kind: EventType, oldValue: Value, newValue: Value, now: int)
    requires target.ForKey? ==> callback.Some?
    ensures var s := SubscriptionOf(target, callback);
            var ctx := Ctx(config, Subscribe(listeners, s), mws);
            Deliver(s.handler, ChangeEvent(kind, s.key, oldValue, newValue, now)) in Emit(ctx, kind, s.key, oldValue, newValue, now)
  {
    var s := SubscriptionOf(target, callback);
    var hs := HandlersOf(Subscribe(listeners, s), s.key);
    var e := ChangeEvent(kind, s.key, oldValue, newValue, now);
    assert s.handler in hs;
    var i :| 0 <= i < |hs| && hs[i] == s.handler;
    assert Deliveries(hs, e)[i] == Deliver(s.handler, e);
  }

  /** A handler subscribed with a callback alone hears the events of every key. */
  lemma WildcardHandlerHearsAll(config: Config, listeners: map<string, seq<HandlerId>>, mws: seq<Middleware>, h: HandlerId,
                                key: string, kind: EventType, oldValue: Value, newValue: Value, now: int)
    ensures var ctx := Ctx(config, Subscribe(listeners, SubscriptionOf(ForAll(h), None)), mws);
            Deliver(h, ChangeEvent(kind, key, oldValue, newValue, now)) in Emit(ctx, kind, key, oldValue, newValue, now)
  {
    var l := Subscribe(listeners, Subscription("*", h));
    var e := ChangeEvent(kind, key, oldValue, newValue, now);
    HandlerDelivered(HandlersOf(l, "*"), h, e);
    var calls := Emit(Ctx(config, l, mws), kind, key, oldValue, newValue, now);
    assert calls == Deliveries(HandlersOf(l, key), e) + Deliveries(HandlersOf(l, "*"), e) + [OnChange(config.onChange, e)];
  }

  lemma HandlerDelivered(hs: seq<HandlerId>, h: HandlerId, e: ChangeEvent)
    requires h in hs
    ensures Deliver(h, e) in Deliveries(hs, e)
  {
    var i :| 0 <= i < |hs| && hs[i] == h;
    assert Deliveries(hs, e)[i] == Deliver(h, e);
  }

  /**
   * After the unsubscribe closure runs, a handler that was registered only under that key is
   * called by no later event.
   */
  lemma UnsubscribedHandlerSilent(config: Config, listeners: map<string, seq<HandlerId>>, mws: seq<Middleware>, s: Subscription,
                                  kind: EventType, key: string, oldValue: Value, newValue: Value, now: int, event: ChangeEvent)
    requires forall k :: k in listeners && k != s.key ==> s.handler !in listeners[k]
    ensures Deliver(s.handler, event) !in Emit(Ctx(config, Unsubscribe(listeners, s), mws), kind, key, oldValue, newValue, now)
  {
    var ctx := Ctx(config, Unsubscribe(listeners, s), mws);
    if Deliver(s.handler, event) in Emit(ctx, kind, key, oldValue, newValue, now) {
      DeliveredOnlyToSubscribers(ctx, kind, key, oldValue, newValue, now, s.handler, event);
      assert false;
    }
  }
}
