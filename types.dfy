/**
 * The shapes the core passes around (src/types/index.ts): stored values, the stored envelope,
 * serializers, per-call options, middleware, change events and the storage configuration.
 */
module Types {
  import opened Wrappers
  import opened Text
  import opened StorageErrors

  /** A JavaScript value as far as the core looks into it. String values are UTF-16 code units. */
  datatype Value =
    | Undefined
    | Null
    | Bool(b: bool)
    | Num(n: int)
    | Str(s: JsString)
    | Arr(items: seq<Value>)
    | Obj(fields: seq<(string, Value)>)
  {
    /** `value == null`: the values `??` replaces. */
    predicate Nullish() {
      Undefined? || Null?
    }
  }

  /** `a ?? b` on values. */
  function Coalesce(a: Value, b: Value): (r: Value)
    ensures a.Nullish() ==> r == b
    ensures !a.Nullish() ==> r == a
  {
    if a.Nullish() then b else a
  }

  /** `StorageItem`: the envelope written to the engine (the optional `version` is never set by the core). */
  datatype StorageItem = StorageItem(value: Value, createdAt: int, expiresAt: Option<int>)

  /** A `Serializer` for envelopes: either call may throw (a circular value, malformed text). */
  datatype Serializer = Serializer(
    serialize: StorageItem -> Result<string, Thrown>,
    deserialize: string -> Result<StorageItem, Thrown>)

  /** `JSON.stringify` / `JSON.parse` on values, as the middleware use them: stringifying may throw
    * (a circular value, or `undefined`, whose result has no `length`), parsing may reject the text. */
  datatype ValueJson = ValueJson(
    stringify: Value -> Result<JsString, Thrown>,
    parse: JsString -> Result<Value, Thrown>)

  /** `StorageOptions`, each field absent or given. */
  datatype StorageOptions = StorageOptions(ttl: Option<int>, encrypt: Option<bool>, compress: Option<bool>, silent: Option<bool>)

  /** `options?.ttl`. */
  function TtlOf(options: Option<StorageOptions>): Option<int> {
    if options.Some? then options.value.ttl else None
  }

  /** The hooks of a `Middleware`, each absent or a function that returns a value or throws. */
  type BeforeSetHook = (string, Value, Option<StorageOptions>) -> Result<Value, Thrown>
  type AfterGetHook = (string, Value) -> Result<Value, Thrown>
  type BeforeRemoveHook = string -> Outcome<Thrown>

  datatype Middleware = Middleware(
    name: string,
    beforeSet: Option<BeforeSetHook>,
    afterGet: Option<AfterGetHook>,
    beforeRemove: Option<BeforeRemoveHook>)

  /** `StorageEventType`. */
  datatype EventType = SetEvent | GetEvent | RemoveEvent | ClearEvent | ErrorEvent

  /** `StorageChangeEvent`; an omitted `oldValue` or `newValue` is `Undefined`. */
  datatype ChangeEvent = ChangeEvent(kind: EventType, key: string, oldValue: Value, newValue: Value, timestamp: int)

  /** A configured callback: the library's no-op default, or one the caller supplied (known by identity). */
  datatype Callback = NoOp | Supplied(id: nat)

  /** `fallback`: one engine name or a list of them. */
  datatype Fallback = One(name: string) | Many(names: seq<string>)

  /** `StorageConfig` as the caller writes it: every field may be left out. */
  datatype StorageConfig = StorageConfig(
    engine: Option<string>,
    prefix: Option<string>,
    suffix: Option<string>,
    ttl: Option<int>,
    fallback: Option<Fallback>,
    serializer: Option<Serializer>,
    encrypt: Option<bool>,
    encryptionKey: Option<string>,
    compression: Option<bool>,
    onError: Option<Callback>,
    onChange: Option<Callback>,
    debug: Option<bool>)

  /** `Required<StorageConfig>`: the configuration after defaults are filled in. */
  datatype Config = Config(
    engine: string,
    prefix: string,
    suffix: string,
    ttl: int,
    fallback: Fallback,
    serializer: Serializer,
    encrypt: bool,
    encryptionKey: string,
    compression: bool,
    onError: Callback,
    onChange: Callback,
    debug: bool)

  /** The configuration with nothing given: `{}`. */
  const EmptyConfig: StorageConfig :=
    StorageConfig(None, None, None, None, None, None, None, None, None, None, None, None)

  /**
   * `normalizeConfig(config)`: each field that is given (`??` keeps every given value, also
   * `''`, `0` and `false`) is kept, every other one takes its default. `json` is the
   * `JSON.stringify`/`JSON.parse` pair.
   */
  function NormalizeConfig(c: StorageConfig, json: Serializer): (n: Config)
    ensures c.engine.Some? ==> n.engine == c.engine.value
    ensures c.prefix.Some? ==> n.prefix == c.prefix.value
    ensures c.suffix.Some? ==> n.suffix == c.suffix.value
    ensures c.ttl.Some? ==> n.ttl == c.ttl.value
    ensures c.fallback.Some? ==> n.fallback == c.fallback.value
    ensures c.serializer.Some? ==> n.serializer == c.serializer.value
    ensures c.encrypt.Some? ==> n.encrypt == c.encrypt.value
    ensures c.encryptionKey.Some? ==> n.encryptionKey == c.encryptionKey.value
    ensures c.compression.Some? ==> n.compression == c.compression.value
    ensures c.onError.Some? ==> n.onError == c.onError.value
    ensures c.onChange.Some? ==> n.onChange == c.onChange.value
    ensures c.debug.Some? ==> n.debug == c.debug.value
    ensures c.serializer.None? ==> n.serializer == json
  {
    Config(
      c.engine.GetOr("localStorage"),
      c.prefix.GetOr(""),
      c.suffix.GetOr(""),
      c.ttl.GetOr(0),
      c.fallback.GetOr(Many(["memory"])),
      c.serializer.GetOr(json),
      c.encrypt.GetOr(false),
      c.encryptionKey.GetOr(""),
      c.compression.GetOr(false),
      c.onError.GetOr(NoOp),
      c.onChange.GetOr(NoOp),
      c.debug.GetOr(false))
  }

  /** A normalised configuration given back as a full `StorageConfig`. */
  function AsInput(n: Config): StorageConfig {
    StorageConfig(Some(n.engine), Some(n.prefix), Some(n.suffix), Some(n.ttl), Some(n.fallback),
      Some(n.serializer), Some(n.encrypt), Some(n.encryptionKey), Some(n.compression),
      Some(n.onError), Some(n.onChange), Some(n.debug))
  }

  /** The defaults: `localStorage`, no namespace, no TTL, fallback to memory, JSON, no encryption or compression, no-op callbacks. */
  lemma DefaultConfig(json: Serializer)
    ensures NormalizeConfig(EmptyConfig, json) ==
      Config("localStorage", "", "", 0, Many(["memory"]), json, false, "", false, NoOp, NoOp, false)
  {
  }

  /** Normalising a normalised configuration changes nothing, whatever JSON pair is given. */
  lemma NormalizeIdempotent(n: Config, json: Serializer)
    ensures NormalizeConfig(AsInput(n), json) == n
  {
  }
}
