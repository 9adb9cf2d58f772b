# react-storage-persist: the key-value persistence core in Dafny

This project models the core of react-storage-persist, a TypeScript library. The library stores
JavaScript values under string keys in a browser storage engine. The model covers these parts:

- **`Storage`**: a namespaced key-value store over an engine. Keys get a prefix and a suffix. Each
  stored value sits in an envelope with `createdAt` and `expiresAt`. Middleware hooks transform
  values on write, read and removal. Change events go to the key's subscribers, then to wildcard
  (`'*'`) subscribers, then to the `onChange` callback. Failures go to `onError`.
- **The module-level API**: `createStorage`, the lazily created default instance, and the functions
  that forward to that instance.
- **The engines**:
  - the in-memory engine;
  - the `localStorage` and `sessionStorage` adapters, over a backend whose calls may throw;
  - the default batch operations of the base engine;
  - the engine factory.
- **`StorageError`**: the error class and its code taxonomy.
- **Three middleware**: validation rules, run-length compression, and XOR or base64 "encryption".

How the model represents the library:

- The clock is a `now` argument, one instant per public operation.
- Calls to subscribers and to `onChange`/`onError` are appended to a `trace` of calls.
- Asynchronous code runs sequentially.
- Each `Storage` method is proved to act as a specification function on the store and the trace.
  The properties of the library are then proved about those functions (module `StorageProperties`).
- JavaScript strings that the middleware inspect code unit by code unit are sequences of UTF-16 code
  units (`bv16`). Keys and engine text are Dafny strings.
- A JavaScript `Map` becomes a `JsMap`: its insertion order plus its entries.

## Model

| member | source | states |
|---|---|---|
| StorageErrors.StorageError.Name | src/types/errors.ts:19-23 | every `StorageError` is named `"StorageError"` |
| StorageErrors.StorageError.ToJson | src/types/errors.ts:30-44 | the JSON form carries name, message and the code's text; the `originalError` summary is present iff an original error was given (and is truthy), with that error's name and message |
| StorageErrors.ToJsonCodeIdentifies | src/types/errors.ts:30-48 | the `code` string in `toJSON()` reads back as exactly the code that `is` accepts |
| StorageErrors.StorageError.QuotaExceededFor | src/types/errors.ts:50-56 | code QUOTA_EXCEEDED, the original error kept, message `Storage quota exceeded when setting "<key>"` |
| StorageErrors.StorageError.NotAvailableFor | src/types/errors.ts:58-63 | code NOT_AVAILABLE, no original error, message naming the engine |
| StorageErrors.StorageError.SerializationFailedWith | src/types/errors.ts:65-71 | code SERIALIZATION_FAILED with its fixed message |
| StorageErrors.StorageError.DeserializationFailedWith | src/types/errors.ts:73-79 | code DESERIALIZATION_FAILED with its fixed message |
| StorageErrors.StorageError.EncryptionFailedWith | src/types/errors.ts:81-87 | code ENCRYPTION_FAILED with its fixed message |
| StorageErrors.StorageError.DecryptionFailedWith | src/types/errors.ts:89-95 | code DECRYPTION_FAILED with its fixed message |
| StorageErrors.StorageError.InvalidKeyFor | src/types/errors.ts:97-99 | code INVALID_KEY, message `Invalid key: "<key>"` |
| StorageErrors.StorageError.OperationFailedFor | src/types/errors.ts:101-107 | code OPERATION_FAILED, message `Storage <op> failed for key "<key>"`, the same text `handleError` builds |
| StorageErrors.CodeFromText | src/types/errors.ts:1-13 | reading a code back from its string value gives a code with that string |
| StorageErrors.CodeTextRoundTrip | src/types/errors.ts:1-13 | every code is read back from its own string value |
| StorageErrors.CodeTextInjective | src/types/errors.ts:1-13 | no two codes share a string value |
| JsMaps.Without | src/engines/memory.ts:20-22 | deleting a key from an insertion order removes exactly that key and keeps the order distinct |
| JsMaps.JsMap.Empty | src/engines/memory.ts:6 | a new map is valid, has size 0 and holds no key |
| JsMaps.JsMap.Set | src/engines/memory.ts:16-18 | `Map.set`: the key now maps to the value and other keys are untouched; a present key keeps its place in the order, a new key goes last |
| JsMaps.JsMap.Delete | src/engines/memory.ts:20-22 | `Map.delete`: the key is gone, other keys are untouched, and the order loses only that key |
| JsMaps.SizeCountsKeys | src/engines/memory.ts:32-34 | the size of a map is the number of its keys |
| MemoryEngine.SetEach | src/engines/memory.ts:44-49 | setting each entry in turn leaves each listed key with its value and every other key unchanged |
| MemoryEngine.DeleteEach | src/engines/memory.ts:51-56 | deleting each key in turn leaves every listed key absent and every other key unchanged |
| MemoryEngine.GetEach | src/engines/memory.ts:36-42 | the result map holds each requested key with its value or null, and nothing else |
| MemoryEngine.MemoryStorageEngine.constructor | src/engines/memory.ts:4-6 | the engine is named `memory` and starts empty |
| MemoryEngine.MemoryStorageEngine.IsAvailable | src/engines/memory.ts:8-10 | always available |
| MemoryEngine.MemoryStorageEngine.GetItem | src/engines/memory.ts:12-14 | the stored value, or none for a missing key |
| MemoryEngine.MemoryStorageEngine.SetItem | src/engines/memory.ts:16-18 | the store becomes the old store with the key set |
| MemoryEngine.MemoryStorageEngine.RemoveItem | src/engines/memory.ts:20-22 | the store becomes the old store without the key |
| MemoryEngine.MemoryStorageEngine.Clear | src/engines/memory.ts:24-26 | the store becomes empty |
| MemoryEngine.MemoryStorageEngine.Keys | src/engines/memory.ts:28-30 | the keys in insertion order, each once, exactly the keys that hold a value |
| MemoryEngine.MemoryStorageEngine.Length | src/engines/memory.ts:32-34 | the number of stored keys |
| MemoryEngine.MemoryStorageEngine.Has | src/engines/base.ts:20-23 | true iff the key holds a value |
| MemoryEngine.MemoryStorageEngine.GetMany | src/engines/memory.ts:36-42 | the loop builds the map `GetEach` describes |
| MemoryEngine.MemoryStorageEngine.SetMany | src/engines/memory.ts:44-49 | the loop leaves the store that `SetEach` describes |
| MemoryEngine.MemoryStorageEngine.RemoveMany | src/engines/memory.ts:51-56 | the loop leaves the store that `DeleteEach` describes |
| MemoryEngine.MemoryStorageEngine.GetStore | src/engines/memory.ts:58-60 | a copy of the whole store, order included |
| MemoryEngine.MemoryStorageEngine.GetSize | src/engines/memory.ts:62-68 | the loop computes twice the total length of keys and values |
| MemoryEngine.StoreSizeGrows | src/engines/memory.ts:62-68 | an empty store has size 0; adding a new key adds twice the lengths of key and value |
| WebStorage.WebStorageArea.GetItem | src/engines/localStorage.ts:25 | the backend's `getItem`: the stored value, or the error this call throws |
| WebStorage.WebStorageArea.SetItem | src/engines/localStorage.ts:37 | the backend's `setItem`: on success the key is set, on a throw nothing changes |
| WebStorage.WebStorageArea.RemoveItem | src/engines/localStorage.ts:57 | the backend's `removeItem`: on success the key is deleted, on a throw nothing changes |
| WebStorage.WebStorageArea.Clear | src/engines/localStorage.ts:69 | the backend's `clear`: on success the area is empty |
| WebStorage.WebStorageArea.Key | src/engines/localStorage.ts:83 | the backend's `key(i)`: the i-th key in order, null past the end, or the error thrown |
| WebStorage.WebStorageArea.Length | src/engines/localStorage.ts:98 | the backend's `length`: the number of keys, or the error thrown |
| WebStorage.GetFailed | src/engines/localStorage.ts:26-32 | a failed read becomes OPERATION_FAILED and keeps the backend's error |
| WebStorage.SetFailed | src/engines/localStorage.ts:38-52 | a failed write becomes QUOTA_EXCEEDED iff the backend's error is a quota error, and OPERATION_FAILED otherwise; both keep the backend's error |
| WebStorage.RemoveFailed | src/engines/localStorage.ts:58-64 | a failed removal becomes OPERATION_FAILED and keeps the backend's error |
| WebStorage.ClearFailed | src/engines/localStorage.ts:70-76 | a failed clear becomes OPERATION_FAILED and keeps the backend's error |
| WebStorage.KeysFailed | src/engines/localStorage.ts:87-93 | a failed enumeration becomes OPERATION_FAILED and keeps the backend's error |
| WebStorage.LengthFailed | src/engines/localStorage.ts:99-105 | a failed length read becomes OPERATION_FAILED and keeps the backend's error |
| WebStorage.NonEmptyKeys | src/engines/localStorage.ts:84 | the listed keys are exactly the stored keys other than the empty string |
| WebStorage.KeysWithoutFaults | src/engines/localStorage.ts:79-86 | when no backend call throws, the enumeration lists the stored non-empty keys in order |
| WebStorage.ProbeEffect | src/engines/localStorage.ts:14-16 | the availability probe deletes its test key and touches no other key |
| WebStorage.ProbeRestores | src/engines/localStorage.ts:14-16 | on an area that did not hold the test key, the probe leaves the area exactly as it was |
| WebStorage.WebStorageEngine.Local | src/engines/localStorage.ts:5-6 | the adapter is named `localStorage` and is bound to the local backend, which may be missing |
| WebStorage.WebStorageEngine.Session | src/engines/sessionStorage.ts:5-6 | the adapter is named `sessionStorage` and is bound to the session backend, which may be missing |
| WebStorage.WebStorageEngine.IsAvailable | src/engines/localStorage.ts:8-21 | false without a backend; otherwise true iff the probe's set and remove both succeed; a passing probe leaves the data as `ProbeEffect` says; a failing set leaves it unchanged; a passing set with a throwing remove leaves `__storage_test__` written |
| WebStorage.WebStorageEngine.GetItem | src/engines/localStorage.ts:23-33 | the backend's answer, or the translated failure; a missing backend fails too |
| WebStorage.WebStorageEngine.SetItem | src/engines/localStorage.ts:35-53 | the backend's write, or the quota or generic failure; the data changes only on success |
| WebStorage.WebStorageEngine.RemoveItem | src/engines/localStorage.ts:55-65 | the backend's removal, or the translated failure |
| WebStorage.WebStorageEngine.Clear | src/engines/localStorage.ts:67-77 | the backend's clear, or the translated failure |
| WebStorage.WebStorageEngine.Keys | src/engines/localStorage.ts:79-94 | the loop reads `length` on every round and `key(i)` for each index; it returns what `KeysFrom` describes, with the first failure translated |
| WebStorage.WebStorageEngine.Length | src/engines/localStorage.ts:96-106 | the backend's `length`, or the translated failure |
| WebStorage.WebStorageEngine.Has | src/engines/base.ts:20-23 | true iff the read gives a value; a failed read fails `has` |
| WebStorage.WebStorageEngine.GetMany | src/engines/base.ts:25-34 | the loop gives the result `GetManySpec` describes; without a backend, an empty Map for no keys and otherwise the first key's OPERATION_FAILED |
| WebStorage.GetManySpec | src/engines/base.ts:25-34 | the batch read succeeds iff no single read throws; it then maps each requested key to its value or null |
| WebStorage.FirstFailureIff | src/engines/base.ts:27-32 | there is no failing read iff no requested key's read throws |
| WebStorage.WebStorageEngine.SetMany | src/engines/base.ts:36-40 | the loop leaves the data and result that `SetManySpec` describes; without a backend, it succeeds on no entries and otherwise fails at the first entry |
| WebStorage.SetManySpec | src/engines/base.ts:36-40 | without failures, every entry is written; a failing first write changes nothing |
| WebStorage.WebStorageEngine.RemoveMany | src/engines/base.ts:42-44 | the loop leaves the data and result that `RemoveManySpec` describes; without a backend, it succeeds on no keys and otherwise fails at the first key |
| WebStorage.RemoveManySpec | src/engines/base.ts:42-44 | without failures, every listed key is removed; a failing first removal changes nothing |
| EngineFactory.UnknownEngine | src/engines/factory.ts:18-19 | an unknown engine name gives INVALID_KEY with no original error |
| EngineFactory.CreateEngine | src/engines/factory.ts:8-21 | succeeds iff the name is one of the four engines; the result is a new engine of that name, bound to the matching backend; otherwise the unknown-engine error |
| EngineFactory.IndexedDBEngine.IsAvailable | src/engines/indexedDB.ts:15-21 | the IndexedDB engine is available iff the browser has IndexedDB |
| EngineFactory.IsAvailable | src/engines/factory.ts:26 | each kind of engine answers its own availability test |
| EngineFactory.FirstAvailable | src/engines/factory.ts:23-31 | the first available engine of the list is in the list and available; there is none iff every listed name is a known engine that is unavailable |
| EngineFactory.GetAvailableEngine | src/engines/factory.ts:23-31 | the loop returns a new engine for the name `FirstAvailable` picks, none when it picks none, and the factory's error for an unknown name met first |
| EngineFactory.AvailableAmong | src/engines/factory.ts:36-39 | the filter keeps exactly the available names |
| EngineFactory.FilterAvailable | src/engines/factory.ts:36-39 | the loop computes `AvailableAmong` |
| EngineFactory.GetAvailableEngines | src/engines/factory.ts:33-40 | the available engines among the four, in order; `memory` is always among them |
| EngineFactory.TestEngine | src/engines/factory.ts:42-55 | true iff the test value reads back; after a passing test the engine's data is as the probe leaves it |
| Types.Coalesce | src/core/storage.ts:40 | `a ?? b`: `b` exactly when `a` is null or undefined |
| Types.NormalizeConfig | src/core/storage.ts:209-227 | each of the twelve options the caller gives is kept as given, and a missing serializer becomes JSON |
| Types.DefaultConfig | src/core/storage.ts:209-227 | an empty configuration normalises to the defaults: `localStorage`, empty prefix and suffix, TTL 0, fallback `['memory']`, and so on |
| Types.NormalizeIdempotent | src/core/storage.ts:209-227 | normalising a normalised configuration changes nothing |
| StorageSpec.Slice | src/core/storage.ts:242-245 | `String.prototype.slice` never lengthens a string |
| StorageSpec.NamespaceKeys | src/core/storage.ts:146-151 | filtering and stripping never lists more keys than the engine holds |
| StorageSpec.Deliveries | src/core/storage.ts:289-292 | one delivery per handler, in registration order |
| StorageSpec.AddHandler | src/core/storage.ts:199 | `Set.add`: the handler is present afterwards, nothing else is added, and no handler appears twice |
| StorageSpec.SubscriptionOf | src/core/storage.ts:192-193 | a callback alone subscribes under `'*'`; a key with a callback subscribes under that key |
| Core.Storage.constructor | src/core/storage.ts:18-23 | the configuration is normalised, and there are no listeners, no middleware and no calls yet |
| Core.Storage.Get | src/core/storage.ts:34-65 | the store, the trace and the answer are those of `GetSpec` |
| Core.Storage.RemoveAfterRead | src/core/storage.ts:111-124 | the tail of `remove` after its read: the hooks, the deletion, the event or the error report |
| Core.Storage.Remove | src/core/storage.ts:105-125 | the store, the trace and the outcome are those of `RemoveSpec` |
| Core.Storage.Set | src/core/storage.ts:70-100 | the store, the trace and the outcome are those of `SetSpec` |
| Core.Storage.Keys | src/core/storage.ts:146-151 | the engine keys that match the namespace, stripped, in engine order |
| Core.Storage.Clear | src/core/storage.ts:130-141 | the store, the trace and the outcome are those of `ClearSpec` |
| Core.Storage.Has | src/core/storage.ts:156-159 | the store, the trace and the answer are those of `HasSpec` |
| Core.Storage.Size | src/core/storage.ts:164-176 | the loop computes `SizeSpec`: twice the length of each namespaced raw value |
| Core.Storage.Use | src/core/storage.ts:181-183 | the middleware is appended to the list |
| Core.Storage.Subscribe | src/core/storage.ts:188-200 | the handler is registered under the subscription's key and the subscription is returned |
| Core.Storage.Unsubscribe | src/core/storage.ts:202-204 | the handler is removed from its key's set, which is left in place |
| StorageProperties.NamespaceRoundTrip | src/core/storage.ts:235-258 | the physical key is `prefix + key + suffix`; it matches the namespace and strips back to the key |
| StorageProperties.MatchesIffBuilt | src/core/storage.ts:239-258 | an engine key is in the namespace iff it is the physical key of the key it strips to |
| StorageProperties.KeysExactly | src/core/storage.ts:146-151 | `keys()` lists a key iff the engine holds that key's physical key |
| StorageProperties.ForeignPrefixInvisible | src/core/storage.ts:250-253 | with a non-empty prefix, a key written under another prefix, where neither prefix starts the other, is never in the namespace |
| StorageProperties.ExpiryRule | src/core/storage.ts:268-277 | the per-call TTL wins over the configured one; a TTL of 0 means no expiry; otherwise the item expires at `now + ttl*1000`, strictly after which it is expired (an expiry time of 0 counts as none) |
| StorageProperties.ExpiredReadRemoves | src/core/storage.ts:46-49 | reading an expired item answers the default or null and deletes the item |
| StorageProperties.GetMissing | src/core/storage.ts:39-41 | a missing key answers `defaultValue ?? null`, changes nothing, and `has` answers false |
| StorageProperties.StoredNullReadsAbsent | src/core/storage.ts:156-159 | a stored null makes `has` answer false |
| StorageProperties.GetReportsFailures | src/core/storage.ts:61-64 | a failing read or afterGet hook reports a `get` error and answers the default; it never throws |
| StorageProperties.GetFrame | src/core/storage.ts:34-65 | `get` touches only its own key and never adds an entry |
| StorageProperties.BeforeSetPipelineAppend | src/core/storage.ts:76-81 | the beforeSet hooks run in registration order, each on the previous hook's output |
| StorageProperties.AfterGetPipelineAppend | src/core/storage.ts:52-57 | the afterGet hooks run in registration order, each on the previous hook's output |
| StorageProperties.BeforeRemoveHooksAppend | src/core/storage.ts:111-115 | the beforeRemove hooks run in registration order and stop at the first throw |
| StorageProperties.UsedMiddlewareRunsLast | src/core/storage.ts:181-183 | a middleware added by `use` runs its beforeSet hook after all earlier ones |
| StorageProperties.SetOutcome | src/core/storage.ts:70-100 | `set` reads the old value first; it stores the processed value in an envelope created now, with the computed expiry; it emits `set` with the old value and the caller's original value; a failing hook or serializer is reported and rethrown, with the store unchanged |
| StorageProperties.SetThenGet | src/core/storage.ts:70-100 | with no middleware and a faithful serializer, `get` after `set` answers the value set until it expires |
| StorageProperties.RemoveOutcome | src/core/storage.ts:105-125 | `remove` reads the old value, runs the hooks, deletes only its own key and emits `remove` with the old value; a failing hook is reported and rethrown |
| StorageProperties.RemoveEachFrame | src/core/storage.ts:133 | removing a list of keys leaves every other physical key as it was |
| StorageProperties.RemoveEachDeletes | src/core/storage.ts:133 | with no failing hook, every listed key ends up absent and nothing fails |
| StorageProperties.ClearKeepsOtherKeys | src/core/storage.ts:130-141 | `clear()` never touches a key outside the namespace |
| StorageProperties.ClearEmptiesNamespace | src/core/storage.ts:130-141 | with no failing hook, `clear()` succeeds, leaves no key of the namespace, and ends with one `clear` event for `'*'` |
| StorageProperties.KeysSizeZeroIff | src/core/storage.ts:164-176 | the per-key sum is 0 exactly when each listed key stores no text, or an empty one |
| StorageProperties.SizeZeroIff | src/core/storage.ts:164-176 | `size()` is 0 exactly when no physical key of the namespace holds a non-empty text |
| StorageProperties.DeliveredOnlyToSubscribers | src/core/storage.ts:279-296 | every delivery goes to a handler of the event's key or of `'*'`, and carries the event |
| StorageProperties.EmitOrder | src/core/storage.ts:279-296 | the key's handlers come first, then the wildcard handlers, each in registration order, then `onChange` |
| StorageProperties.WildcardEventDeliveredTwice | src/core/storage.ts:289-292 | an event for the key `'*'` reaches each wildcard handler twice |
| StorageProperties.SubscribedHandlerNotified | src/core/storage.ts:188-205 | after subscribing, the handler receives every event emitted for its subscription key |
| StorageProperties.WildcardHandlerHearsAll | src/core/storage.ts:188-205 | a handler subscribed with a callback alone receives the events of every key |
| StorageProperties.UnsubscribedHandlerSilent | src/core/storage.ts:202-204 | after unsubscribing, a handler registered under no other key receives nothing |
| StorageFindings.ExpiredGetNeverReturns | src/core/storage.ts:46-49 | as written, `get` and `remove` on an expired item call each other without end, whatever the nesting allowed |
| StorageFindings.GetAsWrittenAgreesUnlessExpired | src/core/storage.ts:34-65 | on items that are not expired, `get` as written answers what the model's `get` does |
| StorageFindings.OverlappingNamespaceAccepted | src/core/storage.ts:250-258 | with prefix `ab` and suffix `bc`, the key `abc` is accepted as written, though no key builds it; the corrected test rejects it |
| StorageApi.StorageModule.CreateStorage | src/core/index.ts:6-8 | a new instance over the given configuration, never the default one |
| StorageApi.StorageModule.GetDefaultStorage | src/core/index.ts:10-15 | the first call creates the instance with the default configuration; later calls return the same instance |
| StorageApi.StorageModule.Get | src/core/index.ts:17-18 | `get` on the default instance, created first if needed; its configuration, listeners and middleware stay as they were |
| StorageApi.StorageModule.Set | src/core/index.ts:20-21 | `set` on the default instance; its configuration, listeners and middleware stay as they were |
| StorageApi.StorageModule.Remove | src/core/index.ts:23 | `remove` on the default instance; its configuration, listeners and middleware stay as they were |
| StorageApi.StorageModule.Clear | src/core/index.ts:25 | `clear` on the default instance; its configuration, listeners and middleware stay as they were |
| StorageApi.StorageModule.Keys | src/core/index.ts:27 | `keys` on the default instance, which changes nothing else |
| StorageApi.StorageModule.Has | src/core/index.ts:29 | `has` on the default instance; its configuration, listeners and middleware stay as they were |
| StorageApi.StorageModule.Subscribe | src/core/index.ts:31-34 | `subscribe` on the default instance; a callback alone lands on `'*'`; only the listeners change |
| Validation.Complaint | src/middleware/validation.ts:21-26 | `false` adds `Validation failed`, a string adds itself, `true` adds nothing |
| Validation.KeyRules | src/middleware/validation.ts:17 | the key's own rule list, or none |
| Validation.KeyRulesAsWritten | src/middleware/validation.ts:17-20 | as written: an own list is used; an inherited member name throws a TypeError; any other name has no rules |
| Validation.Validate | src/middleware/validation.ts:16-30 | the loop collects the complaints of the key's rules, in rule order |
| Validation.ErrorsAppend | src/middleware/validation.ts:20-27 | the messages of two rule lists are the first list's messages followed by the second's |
| Validation.RuleOrder | src/middleware/validation.ts:20-27 | rule i's message sits after those of the rules before it |
| Validation.ErrorsEmptyIff | src/middleware/validation.ts:20-27 | no message iff every rule returns `true` |
| Validation.Rejection | src/middleware/validation.ts:41-44 | OPERATION_FAILED with message `Validation failed for key "<key>": ` and the messages joined by `, ` |
| Validation.BeforeSet | src/middleware/validation.ts:34-48 | the value passes unchanged iff there is no message; otherwise `onValidationError` gets the key and the messages, and the rejection is thrown |
| Validation.BeforeSetPassesIff | src/middleware/validation.ts:34-48 | a write passes iff every rule of its key returns `true` |
| Validation.KeyWithoutRulesValidates | src/middleware/validation.ts:17 | a key with no rules of its own passes whatever the value |
| Validation.InheritedKeyRejected | src/middleware/validation.ts:17 | with no rules at all, the key `toString` fails as written but passes the corrected lookup |
| Validation.ValidationMiddleware | src/middleware/validation.ts:32-49 | a middleware named `validation` with only a beforeSet hook |
| Validation.OrDefault | src/middleware/validation.ts:65 | the given message, or the default when it is missing or empty |
| Validation.Required | src/middleware/validation.ts:53-60 | rejects exactly null, undefined and `''`, with the given message or `Value is required` |
| Validation.MinLength | src/middleware/validation.ts:62-69 | passes exactly the strings of length at least `min`; the boundary passes |
| Validation.MaxLength | src/middleware/validation.ts:71-78 | passes exactly the strings of length at most `max`; the boundary passes |
| Validation.Pattern | src/middleware/validation.ts:80-87 | passes exactly the strings the pattern accepts |
| Validation.Min | src/middleware/validation.ts:89-96 | passes exactly the numbers at least `min`; the boundary passes |
| Validation.Max | src/middleware/validation.ts:98-105 | passes exactly the numbers at most `max`; the boundary passes |
| Validation.Email | src/middleware/validation.ts:107-115 | passes exactly the strings the address pattern accepts, else `Invalid email address` or the given message |
| Validation.Custom | src/middleware/validation.ts:117-124 | passes iff `fn(value)` holds, else fails with the given message |
| Compression.OptionsOf | src/middleware/compression.ts:12 | threshold 1024 and `simple-rle` unless given |
| Compression.RunLength | src/middleware/compression.ts:17 | the run at the front is as long as possible and made of one character |
| Compression.EncodeRun | src/middleware/compression.ts:18 | a run's replacement is never longer than the run and starts with its character |
| Compression.RunLengthEncode | src/middleware/compression.ts:17-19 | compression never lengthens the text and keeps its first character |
| Compression.DigitPrefix | src/middleware/compression.ts:34 | `\d+` takes every leading digit |
| Compression.Compress | src/middleware/compression.ts:14-29 | never longer than the input; another algorithm returns the text unchanged |
| Compression.Decompress | src/middleware/compression.ts:31-46 | the expansion, or DECOMPRESSION_FAILED when it exceeds the engine's string length; another algorithm returns the text unchanged |
| Compression.DecodeSkipsPlain | src/middleware/compression.ts:34-36 | text without `*` passes through decompression unchanged |
| Compression.DecodeToken | src/middleware/compression.ts:34-36 | `c*N` expands to N copies of c |
| Compression.RoundTrip | src/middleware/compression.ts:17-36 | `decompress(compress(s)) == s` for text with no `*` and no digit |
| Compression.PlainDecodesToItself | src/middleware/compression.ts:34-36 | text with no `*` and no digit decompresses to itself |
| Compression.BeforeSet | src/middleware/compression.ts:50-59 | a value whose text is shorter than the threshold passes unchanged; otherwise a string is compressed, and another value goes through JSON |
| Compression.AfterGet | src/middleware/compression.ts:60-70 | null passes unchanged; a string is decompressed; any other value goes through its JSON text, decompression and parsing; any failure hands back the value read |
| Compression.StringRoundTrip | src/middleware/compression.ts:50-70 | a string with no `*` and no digit reads back as written, below or above the threshold |
| Compression.StarDigitTextAltered | src/middleware/compression.ts:34-36 | the round trip needs its condition: `x*3` written below the threshold reads back as `xxx` |
| Compression.CompressionMiddleware | src/middleware/compression.ts:48-71 | a middleware named `compression` with the two hooks |
| Encryption.XorWith | src/middleware/encryption.ts:22-30 | same length; code unit i is the input's unit XOR the key's unit at i modulo the key length |
| Encryption.XorInvolution | src/middleware/encryption.ts:22-30 | XOR with the same key twice gives the text back |
| Encryption.Encrypt | src/middleware/encryption.ts:16-36 | base64 through `btoa`, with a failure wrapped as ENCRYPTION_FAILED; XOR; another algorithm returns the text unchanged |
| Encryption.Decrypt | src/middleware/encryption.ts:38-58 | base64 through `atob`, with a failure wrapped as DECRYPTION_FAILED; XOR; another algorithm returns the text unchanged |
| Encryption.DecryptUndoesEncrypt | src/middleware/encryption.ts:16-58 | `decrypt(encrypt(s)) == s` whenever encryption succeeds; XOR and other algorithms never fail |
| Encryption.EncryptUndoesDecrypt | src/middleware/encryption.ts:22-30 | XOR also undoes itself in the other order |
| Encryption.BeforeSet | src/middleware/encryption.ts:62-68 | a string is encrypted; another value is encrypted through its JSON text and parsed back |
| Encryption.AfterGet | src/middleware/encryption.ts:69-86 | null passes unchanged; any failure hands back the value read |
| Encryption.EncryptionMiddleware | src/middleware/encryption.ts:9-14 | an empty key throws INVALID_CONFIG `Encryption key is required`; otherwise a middleware named `encryption` with the two hooks |
| Encryption.StringRoundTrip | src/middleware/encryption.ts:62-86 | a string written and read back through the hooks is unchanged |

## Left out

- The storage engine of `Storage` is a memory engine passed in. `initializeEngine` has an empty body
  (src/core/storage.ts:229-233), so how an engine is chosen is not modelled. Engine failures therefore
  never reach `Storage`. `keys()` and `size()` have no failure path in the model; the code has no
  `try` there, so an engine failure would escape them.
- The `onError`/`onChange` callbacks and subscriber handlers are recorded calls. Their effects, and an
  exception a handler throws, are not modelled.
- The periodic cleanup and cross-tab sync stubs (`setupCleanup`, `setupSync`) and debug logging are
  not modelled.
- `destroy`, `length`, `resetDefaultStorage` and the module-level `size` are not modelled. The tests
  call them but the source does not define them.
- `Core.Storage.Set`: emits the `set` event even when the `silent` option is given. The code never
  reads `silent`, so the model follows the code.
- `Core.Storage.Unsubscribe`: leaves an empty handler set in place. The code never prunes it, so the
  model follows the code.
- `StorageProperties.GetReportsFailures`: a throwing afterGet hook makes `get` answer the default. The
  model follows the code.
- `EngineFactory.UnknownEngine`: an unknown engine name gives INVALID_KEY, as the code does, not an
  invalid-configuration code.
- `EngineFactory.TestEngine`: takes no IndexedDB engine. The IndexedDB engine is asynchronous I/O and
  is not modelled beyond its availability. src/engines/indexedDB.ts is not part of this model.
- `WebStorage.WebStorageEngine.GetMany`, `SetMany`, `RemoveMany`: `Promise.all` is modelled as
  running the calls in order and stopping at the first failure. The interleaving of the calls is not
  modelled.
- `Core.Storage.Clear`: the removals run one after another. The interleaving of `Promise.all` is not
  modelled.
- A missing `window` throws a ReferenceError in the browser. The model raises a TypeError-like
  constant instead. Only its presence matters, since every adapter wraps it.
- The backend's faults are a fixed function of the call. A backend whose failures change over time is
  not modelled.
- `Core.Storage.Subscribe`: `subscribe(key)` without a callback is excluded by a precondition. The code
  would register `undefined`.
- The serializer, `JSON.stringify`/`JSON.parse`, `btoa`/`atob`, and the regular expressions of
  `pattern`/`email` are given as functions. Their internals are not modelled. JSON text of
  `undefined` counts as a stringify failure.
- TTLs are whole seconds, since fractional TTLs need floating point.
- Key and value lengths in `getSize`/`size` count Dafny characters, not UTF-16 code units.
- `Validation.BeforeSet`: the `onValidationError` call is part of the hook's result. It is not threaded
  into the `Storage` trace when the hook runs inside the pipeline.
- `Compression.Decompress`: every way `repeat` can fail is one error. These are a count of
  `Infinity` and a result longer than the engine's string length. The original error inside it is
  never observed, since `afterGet` swallows it.
- `Compression.Compress`: the COMPRESSION_FAILED path cannot be taken, since the result is never
  longer than the input.
- `Core.Storage.Keys`: uses the corrected namespace test `MatchesNamespace` (Findings row 3), not the
  one written in src/core/storage.ts:250-258. When the prefix and suffix overlap in an engine key
  (prefix `ab`, suffix `bc`, key `abc`), the source lists `""` and the model lists nothing.
- `Core.Storage.Clear`: through `keys()`, uses the corrected namespace test. On the overlapping key
  above, the source also runs `remove("")`, which deletes the physical key `abbc` and emits a
  `remove` event for `""`. The model does neither.
- `Core.Storage.Size`: through `keys()`, uses the corrected namespace test. On the overlapping key
  above, the source also counts the value stored under `abbc`. The model does not.
- `Types.Value`: JavaScript numbers are modelled as integers. Fractional values, `NaN` and the
  infinities are not represented.
- `Validation.Min`: does not model `NaN`, which the source lets pass because `NaN < min` is false. It
  also does not model fractional values or fractional bounds, which appear in the `${min}` message.
- `Validation.Max`: does not model `NaN`, which the source lets pass because `NaN > max` is false. It
  also does not model fractional values or fractional bounds.
- src/core/storage.ts uses `StorageError`, `StorageErrorCode` and `StorageEventType` without
  importing them. Its only import is a type-only import of other names. The model assumes these
  names resolve to the `StorageError` class and `StorageErrorCode` enum of src/types/errors.ts and
  the event-type union of src/types/index.ts. As written, the file does not type-check. Emitted unchecked, `handleError` would throw a ReferenceError before
  `emit` or `onError` run.

## Findings

| source | as written | input that shows it | evidently intended | confidence | as-written member | corrected member |
|---|---|---|---|---|---|---|
| src/core/storage.ts:46-49 | `get` on an expired item calls `remove(key)`, and `remove` begins with `get(key)` (line 108) on the same still-expired item, so the two call each other without end | any stored item whose `expiresAt` is non-zero and in the past | the expired item is deleted once and `get` answers `defaultValue ?? null` | high, not executed | StorageFindings.ExpiredGetNeverReturns | StorageProperties.ExpiredReadRemoves |
| src/middleware/validation.ts:17 | the lookup `rules[key]`, with `[]` as fallback, also finds members inherited from `Object.prototype`; `for..of` over such a function throws a TypeError | `set('toString', v)` with rules that do not mention `toString` | a key with no rules of its own always validates | high, not executed | Validation.InheritedKeyRejected | Validation.KeyWithoutRulesValidates |
| src/core/storage.ts:250-258 | the prefix and suffix are tested separately, so a key where they overlap is accepted and strips to a key that does not build it | prefix `ab`, suffix `bc`, engine key `abc` (accepted, strips to `""`, whose physical key is `abbc`) | a key is in the namespace iff it is `prefix + k + suffix` for some `k` | medium, not executed | StorageFindings.OverlappingNamespaceAccepted | StorageProperties.MatchesIffBuilt |
