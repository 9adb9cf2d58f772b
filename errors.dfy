/** The library's error taxonomy: `StorageErrorCode` and the `StorageError` class (src/types/errors.ts). */
module StorageErrors {
  import opened Wrappers

  /** The members of the `StorageErrorCode` enum. */
  datatype ErrorCode =
    | NotAvailable
    | QuotaExceeded
    | SerializationFailed
    | DeserializationFailed
    | EncryptionFailed
    | DecryptionFailed
    | CompressionFailed
    | DecompressionFailed
    | InvalidKey
    | OperationFailed
    | InvalidConfig
  {
    /** The enum member's string value. */
    function Text(): string {
      match this
      case NotAvailable => "NOT_AVAILABLE"
      case QuotaExceeded => "QUOTA_EXCEEDED"
      case SerializationFailed => "SERIALIZATION_FAILED"
      case DeserializationFailed => "DESERIALIZATION_FAILED"
      case EncryptionFailed => "ENCRYPTION_FAILED"
      case DecryptionFailed => "DECRYPTION_FAILED"
      case CompressionFailed => "COMPRESSION_FAILED"
      case DecompressionFailed => "DECOMPRESSION_FAILED"
      case InvalidKey => "INVALID_KEY"
      case OperationFailed => "OPERATION_FAILED"
      case InvalidConfig => "INVALID_CONFIG"
    }
  }

  /**
   * A value thrown by JavaScript code: an `Error` object (any built-in or DOM error),
   * a `StorageError`, or a thrown value that is not an `Error` at all (only its truthiness matters).
   */
  datatype Thrown =
    | ErrorObject(name: string, message: string)
    | Raised(error: StorageError)
    | NonError(truthy: bool)
  {
    /** `value instanceof Error`. */
    predicate IsError() {
      !NonError?
    }

    /** `value.name` of an `Error`. */
    function ErrorName(): string
      requires IsError()
    {
      match this
      case ErrorObject(n, _) => n
      case Raised(_) => StorageErrorName
    }

    /** `value.message` of an `Error`. */
    function ErrorMessage(): string
      requires IsError()
    {
      match this
      case ErrorObject(_, m) => m
      case Raised(e) => e.message
    }

    predicate Truthy() {
      !NonError? || truthy
    }
  }

  const StorageErrorName: string := "StorageError"

  /** The `name`/`message` summary of the original error that `toJSON` embeds. */
  datatype ErrorSummary = ErrorSummary(name: Option<string>, message: Option<string>)

  /** What `toJSON()` returns (the `stack` fields are left out of the model). */
  datatype ErrorJson = ErrorJson(name: string, message: string, code: string, originalError: Option<ErrorSummary>)

  /** A `StorageError`: its message, its code and the error it wraps, if one was given. */
  datatype StorageError = StorageError(message: string, code: ErrorCode, originalError: Option<Thrown>) {

    /** The `name` field the constructor sets. */
    function Name(): (n: string)
      ensures n == "StorageError"
    {
      StorageErrorName
    }

    /** `error.is(code)`. */
    predicate Is(c: ErrorCode) {
      code == c
    }

    /** `error.toJSON()`. */
    function ToJson(): (j: ErrorJson)
      ensures j.name == Name() && j.message == message && j.code == code.Text()
      ensures j.originalError.Some? <==> originalError.Some? && originalError.value.Truthy()
      ensures originalError.Some? && originalError.value.IsError() ==>
                j.originalError == Some(ErrorSummary(Some(originalError.value.ErrorName()),
                                                     Some(originalError.value.ErrorMessage())))
    {
      ErrorJson(Name(), message, code.Text(),
        match originalError
        case Some(t) =>
          if !t.Truthy() then None
          else if t.IsError() then Some(ErrorSummary(Some(t.ErrorName()), Some(t.ErrorMessage())))
          else Some(ErrorSummary(None, None))
        case None => None)
    }

    /** `StorageError.quotaExceeded(key, originalError)`. */
    static function QuotaExceededFor(key: string, originalError: Option<Thrown>): (e: StorageError)
      ensures e.Is(ErrorCode.QuotaExceeded) && e.originalError == originalError
      ensures e.message == "Storage quota exceeded when setting \"" + key + "\""
    {
      StorageError("Storage quota exceeded when setting \"" + key + "\"", ErrorCode.QuotaExceeded, originalError)
    }

    /** `StorageError.notAvailable(engine)`. */
    static function NotAvailableFor(engine: string): (e: StorageError)
      ensures e.Is(ErrorCode.NotAvailable) && e.originalError == None
      ensures e.message == "Storage engine \"" + engine + "\" is not available"
    {
      StorageError("Storage engine \"" + engine + "\" is not available", ErrorCode.NotAvailable, None)
    }

    /** `StorageError.serializationFailed(originalError)`. */
    static function SerializationFailedWith(originalError: Option<Thrown>): (e: StorageError)
      ensures e.Is(ErrorCode.SerializationFailed) && e.originalError == originalError
      ensures e.message == "Failed to serialize value"
    {
      StorageError("Failed to serialize value", ErrorCode.SerializationFailed, originalError)
    }

    /** `StorageError.deserializationFailed(originalError)`. */
    static function DeserializationFailedWith(originalError: Option<Thrown>): (e: StorageError)
      ensures e.Is(ErrorCode.DeserializationFailed) && e.originalError == originalError
      ensures e.message == "Failed to deserialize value"
    {
      StorageError("Failed to deserialize value", ErrorCode.DeserializationFailed, originalError)
    }

    /** `StorageError.encryptionFailed(originalError)`. */
    static function EncryptionFailedWith(originalError: Option<Thrown>): (e: StorageError)
      ensures e.Is(ErrorCode.EncryptionFailed) && e.originalError == originalError
      ensures e.message == "Failed to encrypt value"
    {
      StorageError("Failed to encrypt value", ErrorCode.EncryptionFailed, originalError)
    }

    /** `StorageError.decryptionFailed(originalError)`. */
    static function DecryptionFailedWith(originalError: Option<Thrown>): (e: StorageError)
      ensures e.Is(ErrorCode.DecryptionFailed) && e.originalError == originalError
      ensures e.message == "Failed to decrypt value"
    {
      StorageError("Failed to decrypt value", ErrorCode.DecryptionFailed, originalError)
    }

    /** `StorageError.invalidKey(key)`. */
    static function InvalidKeyFor(key: string): (e: StorageError)
      ensures e.Is(ErrorCode.InvalidKey) && e.originalError == None
      ensures e.message == "Invalid key: \"" + key + "\""
    {
      StorageError("Invalid key: \"" + key + "\"", ErrorCode.InvalidKey, None)
    }

    /** `StorageError.operationFailed(operation, key, originalError)`. */
    static function OperationFailedFor(operation: string, key: string, originalError: Option<Thrown>): (e: StorageError)
      ensures e.Is(ErrorCode.OperationFailed) && e.originalError == originalError
      ensures e.message == OperationFailedMessage(operation, key)
    {
      StorageError(OperationFailedMessage(operation, key), ErrorCode.OperationFailed, originalError)
    }
  }

  /** `Storage <operation> failed for key "<key>"`. */
  function OperationFailedMessage(operation: string, key: string): string {
    "Storage " + operation + " failed for key \"" + key + "\""
  }

  /** Reads an enum member back from its string value (the inverse of `Text`). */
  function CodeFromText(s: string): (r: Option<ErrorCode>)
    ensures r.Some? ==> r.value.Text() == s
  {
    if s == "NOT_AVAILABLE" then Some(NotAvailable)
    else if s == "QUOTA_EXCEEDED" then Some(QuotaExceeded)
    else if s == "SERIALIZATION_FAILED" then Some(SerializationFailed)
    else if s == "DESERIALIZATION_FAILED" then Some(DeserializationFailed)
    else if s == "ENCRYPTION_FAILED" then Some(EncryptionFailed)
    else if s == "DECRYPTION_FAILED" then Some(DecryptionFailed)
    else if s == "COMPRESSION_FAILED" then Some(CompressionFailed)
    else if s == "DECOMPRESSION_FAILED" then Some(DecompressionFailed)
    else if s == "INVALID_KEY" then Some(InvalidKey)
    else if s == "OPERATION_FAILED" then Some(OperationFailed)
    else if s == "INVALID_CONFIG" then Some(InvalidConfig)
    else None
  }

  /** Every code's string value reads back as that code. */
  lemma CodeTextRoundTrip(c: ErrorCode)
    ensures CodeFromText(c.Text()) == Some(c)
  {
  }

  /** Distinct codes have distinct string values, so the `code` field of `toJSON` identifies the code. */
  lemma CodeTextInjective(c: ErrorCode, d: ErrorCode)
    requires c.Text() == d.Text()
    ensures c == d
  {
    CodeTextRoundTrip(c);
    CodeTextRoundTrip(d);
  }

  /** The `code` string `toJSON` writes names exactly the code `is` accepts. */
  lemma ToJsonCodeIdentifies(e: StorageError, c: ErrorCode)
    ensures CodeFromText(e.ToJson().code) == Some(c) <==> e.Is(c)
  {
    CodeTextRoundTrip(e.code);
  }
}
