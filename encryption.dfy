/**
 * The encryption middleware (src/middleware/encryption.ts): a key check when it is built, the
 * `simple-xor` cipher over UTF-16 code units, `base64` through the browser's `btoa`/`atob`, and
 * the two hooks that apply them to values.
 */
module Encryption {
  import opened Wrappers
  import opened Text
  import opened StorageErrors
  import opened Types

  /** `algorithm`: defaults to `base64`; any other name leaves text as it is. */
  datatype Algorithm = Base64 | SimpleXor | Unrecognised(name: string)

  /** `window.btoa` / `window.atob`: either may throw (a code unit above 0xFF, text that is not base64,
    * no `window`). */
  datatype Base64Codec = Base64Codec(btoa: JsString -> Result<JsString, Thrown>, atob: JsString -> Result<JsString, Thrown>)

  /** A built middleware's settings; `key` is never empty. */
  datatype Cipher = Cipher(key: JsString, algorithm: Algorithm, codec: Base64Codec)

  /** `text.split('').map((char, i) => char ^ key[i % key.length]).join('')`. */
  function XorWith(text: JsString, key: JsString): (r: JsString)
    requires key != []
    ensures |r| == |text|
    ensures forall i | 0 <= i < |text| :: r[i] == text[i] ^ key[i % |key|]
  {
    seq(|text|, i requires 0 <= i < |text| => text[i] ^ key[i % |key|])
  }

  /** XOR with the same key undoes itself. */
  lemma XorInvolution(text: JsString, key: JsString)
    requires key != []
    ensures XorWith(XorWith(text, key), key) == text
  {
    var once := XorWith(text, key);
    var twice := XorWith(once, key);
    forall i | 0 <= i < |text| ensures twice[i] == text[i] {
      assert twice[i] == (text[i] ^ key[i % |key|]) ^ key[i % |key|];
    }
  }

  /** `encrypt(text)`. */
  function Encrypt(c: Cipher, text: JsString): (r: Result<JsString, Thrown>)
    requires c.key != []
    ensures c.algorithm.Base64? && c.codec.btoa(text).Failure? ==>
      r == Failure(Raised(StorageError.EncryptionFailedWith(Some(c.codec.btoa(text).error))))
    ensures c.algorithm.Base64? && c.codec.btoa(text).Success? ==> r == c.codec.btoa(text)
    ensures c.algorithm.SimpleXor? ==> r == Success(XorWith(text, c.key))
    ensures c.algorithm.Unrecognised? ==> r == Success(text)
  {
    match c.algorithm
    case Base64 =>
      (match c.codec.btoa(text)
       case Success(t) => Success(t)
       case Failure(e) => Failure(Raised(StorageError.EncryptionFailedWith(Some(e)))))
    case SimpleXor => Success(XorWith(text, c.key))
    case Unrecognised(_) => Success(text)
  }

  /** `decrypt(text)`. */
  function Decrypt(c: Cipher, text: JsString): (r: Result<JsString, Thrown>)
    requires c.key != []
    ensures c.algorithm.Base64? && c.codec.atob(text).Failure? ==>
      r == Failure(Raised(StorageError.DecryptionFailedWith(Some(c.codec.atob(text).error))))
    ensures c.algorithm.Base64? && c.codec.atob(text).Success? ==> r == c.codec.atob(text)
    ensures c.algorithm.SimpleXor? ==> r == Success(XorWith(text, c.key))
    ensures c.algorithm.Unrecognised? ==> r == Success(text)
  {
    match c.algorithm
    case Base64 =>
      (match c.codec.atob(text)
       case Success(t) => Success(t)
       case Failure(e) => Failure(Raised(StorageError.DecryptionFailedWith(Some(e)))))
    case SimpleXor => Success(XorWith(text, c.key))
    case Unrecognised(_) => Success(text)
  }

  /** The decoder undoes the encoder: every text `btoa` accepts comes back from `atob`. */
  ghost predicate CodecRoundTrips(codec: Base64Codec) {
    forall t :: codec.btoa(t).Success? ==> codec.atob(codec.btoa(t).value) == Success(t)
  }

  /** `decrypt(encrypt(s)) == s` whenever encryption succeeds; `simple-xor` and unknown algorithms never fail. */
  lemma DecryptUndoesEncrypt(c: Cipher, text: JsString)
    requires c.key != []
    requires c.algorithm.Base64? ==> CodecRoundTrips(c.codec)
    ensures !c.algorithm.Base64? ==> Encrypt(c, text).Success?
    ensures Encrypt(c, text).Success? ==> Decrypt(c, Encrypt(c, text).value) == Success(text)
  {
    if c.algorithm.SimpleXor? {
      XorInvolution(text, c.key);
    }
  }

  /** `simple-xor` is its own inverse in either order. */
  lemma EncryptUndoesDecrypt(c: Cipher, text: JsString)
    requires c.key != [] && c.algorithm.SimpleXor?
    ensures Encrypt(c, Decrypt(c, text).value) == Success(text)
  {
    XorInvolution(text, c.key);
  }

  /** `beforeSet(_, value)`: a string is encrypted; any other value through its JSON text, parsed back. */
  function BeforeSet(c: Cipher, json: ValueJson, value: Value): (r: Result<Value, Thrown>)
    requires c.key != []
    ensures value.Str? ==> r == (match Encrypt(c, value.s) case Success(t) => Success(Str(t)) case Failure(e) => Failure(e))
    ensures !value.Str? && json.stringify(value).Failure? ==> r == Failure(json.stringify(value).error)
    ensures !value.Str? && json.stringify(value).Success? && Encrypt(c, json.stringify(value).value).Failure? ==>
      r == Failure(Encrypt(c, json.stringify(value).value).error)
    ensures !value.Str? && json.stringify(value).Success? && Encrypt(c, json.stringify(value).value).Success? ==>
      r == json.parse(Encrypt(c, json.stringify(value).value).value)
  {
    if value.Str? then
      match Encrypt(c, value.s)
      case Success(t) => Success(Str(t))
      case Failure(e) => Failure(e)
    else
      match json.stringify(value)
      case Failure(e) => Failure(e)
      case Success(text) =>
        match Encrypt(c, text)
        case Failure(e) => Failure(e)
        case Success(t) => json.parse(t)
  }

  /** `afterGet(_, value)`: never throws; a failure anywhere hands back the value as read. */
  function AfterGet(c: Cipher, json: ValueJson, value: Value): (r: Value)
    requires c.key != []
    ensures value == Null ==> r == Null
    ensures value.Str? && Decrypt(c, value.s).Failure? ==> r == value
    ensures value.Str? && Decrypt(c, value.s).Success? ==> r == Str(Decrypt(c, value.s).value)
    ensures !value.Str? && value != Null && json.stringify(value).Failure? ==> r == value
    ensures !value.Str? && value != Null && json.stringify(value).Success? ==>
      r == (match Decrypt(c, json.stringify(value).value)
            case Failure(_) => value
            case Success(t) => (match json.parse(t) case Success(v) => v case Failure(_) => value))
  {
    if value == Null then value
    else if value.Str? then
      match Decrypt(c, value.s)
      case Success(t) => Str(t)
      case Failure(_) => value
    else
      match json.stringify(value)
      case Failure(_) => value
      case Success(text) =>
        match Decrypt(c, text)
        case Failure(_) => value
        case Success(t) =>
          match json.parse(t)
          case Success(v) => v
          case Failure(_) => value
  }

  /** The error building the middleware with an empty key throws. */
  const MissingKey: Thrown := Raised(StorageError("Encryption key is required", InvalidConfig, None))

  /** `encryptionMiddleware({ key, algorithm })`; an omitted algorithm is `Base64`. */
  function EncryptionMiddleware(key: JsString, algorithm: Option<Algorithm>, codec: Base64Codec, json: ValueJson)
    : (r: Result<Middleware, Thrown>)
    ensures key == [] <==> r.Failure?
    ensures r.Failure? ==> r.error == MissingKey
    ensures r.Success? ==>
      var c := Cipher(key, algorithm.GetOr(Base64), codec);
      r.value.name == "encryption" && r.value.beforeRemove.None? &&
      r.value.beforeSet.Some? && r.value.afterGet.Some? &&
      (forall k, v, o :: r.value.beforeSet.value(k, v, o) == BeforeSet(c, json, v)) &&
      (forall k, v :: r.value.afterGet.value(k, v) == Success(AfterGet(c, json, v)))
  {
    if key == [] then Failure(MissingKey)
    else
      var c := Cipher(key, algorithm.GetOr(Base64), codec);
      Success(Middleware("encryption",
        Some((k, v, o) => BeforeSet(c, json, v)),
        Some((k, v) => Success(AfterGet(c, json, v))),
        None))
  }

  /** A string written and read back through the hooks is unchanged, whenever the write succeeds. */
  lemma StringRoundTrip(c: Cipher, json: ValueJson, s: JsString)
    requires c.key != []
    requires c.algorithm.Base64? ==> CodecRoundTrips(c.codec)
    ensures !c.algorithm.Base64? ==> BeforeSet(c, json, Str(s)).Success?
    ensures BeforeSet(c, json, Str(s)).Success? ==> AfterGet(c, json, BeforeSet(c, json, Str(s)).value) == Str(s)
  {
    DecryptUndoesEncrypt(c, s);
  }
}
