/**
 * The compression middleware (src/middleware/compression.ts): the `simple-rle` run-length
 * encoding, its decoding, and the two hooks that apply them to values at or above a threshold.
 */
module Compression {
  import opened Wrappers
  import opened Text
  import opened StorageErrors
  import opened Types

  /** `algorithm`: the one scheme the middleware knows, or any other name (then text passes through). */
  datatype Algorithm = SimpleRle | OtherAlgorithm(name: string)

  datatype CompressionOptions = CompressionOptions(threshold: int, algorithm: Algorithm)

  const DefaultThreshold: int := 1024

  /** `const { threshold = 1024, algorithm = 'simple-rle' } = options`. */
  function OptionsOf(threshold: Option<int>, algorithm: Option<Algorithm>): (o: CompressionOptions)
    ensures threshold.None? ==> o.threshold == DefaultThreshold
    ensures threshold.Some? ==> o.threshold == threshold.value
    ensures algorithm.None? ==> o.algorithm == SimpleRle
    ensures algorithm.Some? ==> o.algorithm == algorithm.value
  {
    CompressionOptions(threshold.GetOr(DefaultThreshold), algorithm.GetOr(SimpleRle))
  }

  /** `c.repeat(n)`. */
  function Repeat(c: CodeUnit, n: nat): (r: JsString)
    ensures |r| == n && forall i | 0 <= i < n :: r[i] == c
  {
    seq(n, _ => c)
  }

  /** The length of the run of `s[0]` that starts `s`. */
  function RunLength(s: JsString): (n: nat)
    requires s != []
    ensures 1 <= n <= |s|
    ensures forall j | 0 <= j < n :: s[j] == s[0]
    ensures n < |s| ==> s[n] != s[0]
  {
    if |s| == 1 || s[1] != s[0] then 1 else 1 + RunLength(s[1..])
  }

  /** What a run of `n` copies of `c` becomes: `c*n` when it is longer than 3 and `.` matches `c`. */
  function EncodeRun(c: CodeUnit, n: nat): (r: JsString)
    requires n >= 1
    ensures 1 <= |r| <= n && r[0] == c
  {
    if n > 3 && !IsLineTerminator(c) then
      DecimalShort(n);
      [c, Asterisk] + Decimal(n)
    else Repeat(c, n)
  }

  /** `text.replace(/(.)\1+/g, ...)`: each maximal run, left to right, through `EncodeRun`. */
  function RunLengthEncode(s: JsString): (r: JsString)
    ensures |r| <= |s|
    ensures s != [] ==> r != [] && r[0] == s[0]
    decreases |s|
  {
    if s == [] then []
    else
      var n := RunLength(s);
      EncodeRun(s[0], n) + RunLengthEncode(s[n..])
  }

  /** The number of decimal digits that start `t` (`\d+` is greedy). */
  function DigitPrefix(t: JsString): (d: nat)
    ensures d <= |t| && forall j | 0 <= j < d :: IsDigit(t[j])
    ensures d < |t| ==> !IsDigit(t[d])
  {
    if t == [] || !IsDigit(t[0]) then 0 else 1 + DigitPrefix(t[1..])
  }

  /** `s` starts with a match of `/(.)\*(\d+)/`. */
  predicate StartsToken(s: JsString) {
    |s| >= 3 && !IsLineTerminator(s[0]) && s[1] == Asterisk && IsDigit(s[2])
  }

  /** `text.replace(/(.)\*(\d+)/g, ...)`: each `c*N`, left to right, becomes N copies of `c`. */
  function RunLengthDecode(s: JsString): JsString
    decreases |s|
  {
    if s == [] then []
    else if StartsToken(s) then
      var d := DigitPrefix(s[2..]);
      Repeat(s[0], DigitsValue(s[2..2 + d])) + RunLengthDecode(s[2 + d..])
    else [s[0]] + RunLengthDecode(s[1..])
  }

  /** `compress(text)`. The `COMPRESSION_FAILED` path cannot be taken: the result is never longer. */
  function Compress(o: CompressionOptions, text: JsString): (r: JsString)
    ensures |r| <= |text|
    ensures o.algorithm.OtherAlgorithm? ==> r == text
  {
    if o.algorithm == SimpleRle then RunLengthEncode(text) else text
  }

  /** The error `decompress` throws when the expansion is longer than the engine allows a string to be. */
  const DecompressionError: Thrown :=
    Raised(StorageError("Decompression failed", DecompressionFailed, Some(ErrorObject("RangeError", "Invalid string length"))))

  /** `decompress(text)`; `limit` is the engine's maximum string length. */
  function Decompress(o: CompressionOptions, text: JsString, limit: nat): (r: Result<JsString, Thrown>)
    ensures o.algorithm.OtherAlgorithm? ==> r == Success(text)
    ensures o.algorithm == SimpleRle ==>
      r == (if |RunLengthDecode(text)| <= limit then Success(RunLengthDecode(text)) else Failure(DecompressionError))
  {
    if o.algorithm == SimpleRle then
      var out := RunLengthDecode(text);
      if |out| <= limit then Success(out) else Failure(DecompressionError)
    else Success(text)
  }

  /** `beforeSet(key, value)`: strings are compressed directly, other values through their JSON text. */
  function BeforeSet(o: CompressionOptions, json: ValueJson, value: Value): (r: Result<Value, Thrown>)
    ensures value.Str? && |value.s| < o.threshold ==> r == Success(value)
    ensures value.Str? && |value.s| >= o.threshold ==> r == Success(Str(Compress(o, value.s)))
    ensures !value.Str? && json.stringify(value).Failure? ==> r == Failure(json.stringify(value).error)
    ensures !value.Str? && json.stringify(value).Success? && |json.stringify(value).value| < o.threshold ==> r == Success(value)
    ensures !value.Str? && json.stringify(value).Success? && |json.stringify(value).value| >= o.threshold ==>
      r == json.parse(Compress(o, json.stringify(value).value))
  {
    if value.Str? then
      if |value.s| < o.threshold then Success(value) else Success(Str(Compress(o, value.s)))
    else
      match json.stringify(value)
      case Failure(e) => Failure(e)
      case Success(text) => if |text| < o.threshold then Success(value) else json.parse(Compress(o, text))
  }

  /** `afterGet(key, value)`: never throws; any failure inside hands back the value as read. */
  function AfterGet(o: CompressionOptions, json: ValueJson, limit: nat, value: Value): (r: Value)
    ensures value == Null ==> r == Null
    ensures value.Str? && Decompress(o, value.s, limit).Failure? ==> r == value
    ensures value.Str? && Decompress(o, value.s, limit).Success? ==> r == Str(Decompress(o, value.s, limit).value)
    ensures !value.Str? && value != Null && json.stringify(value).Failure? ==> r == value
    ensures !value.Str? && value != Null && json.stringify(value).Success? ==>
      r == (match Decompress(o, json.stringify(value).value, limit)
            case Failure(_) => value
            case Success(t) => (match json.parse(t) case Success(v) => v case Failure(_) => value))
  {
    if value == Null then value
    else if value.Str? then
      match Decompress(o, value.s, limit)
      case Success(t) => Str(t)
      case Failure(_) => value
    else
      match json.stringify(value)
      case Failure(_) => value
      case Success(text) =>
        match Decompress(o, text, limit)
        case Failure(_) => value
        case Success(t) =>
          match json.parse(t)
          case Success(v) => v
          case Failure(_) => value
  }

  /** `compressionMiddleware(options)`: a `beforeSet` and an `afterGet` hook. */
  function CompressionMiddleware(o: CompressionOptions, json: ValueJson, limit: nat): (m: Middleware)
    ensures m.name == "compression" && m.beforeRemove.None? && m.beforeSet.Some? && m.afterGet.Some?
    ensures forall key, value, opts :: m.beforeSet.value(key, value, opts) == BeforeSet(o, json, value)
    ensures forall key, value :: m.afterGet.value(key, value) == Success(AfterGet(o, json, limit, value))
  {
    Middleware("compression",
      Some((key, value, opts) => BeforeSet(o, json, value)),
      Some((key, value) => Success(AfterGet(o, json, limit, value))),
      None)
  }

  // Properties of the encoding.

  /** A run of four or more is never lengthened by its `c*n` form. */
  lemma {:induction false} DecimalShort(n: nat)
    requires n >= 4
    ensures |Decimal(n)| + 2 <= n
  {
    if n >= 10 {
      if n / 10 >= 4 {
        DecimalShort(n / 10);
      }
    }
  }

  /** Text with no `'*'` and no digit: such text never holds a token. */
  predicate Plain(s: JsString) {
    forall i | 0 <= i < |s| :: s[i] != Asterisk && !IsDigit(s[i])
  }

  /** A code unit not followed by `'*'` is copied as it is. */
  lemma DecodeBeforeNonStar(c: CodeUnit, t: JsString)
    requires t == [] || t[0] != Asterisk
    ensures RunLengthDecode([c] + t) == [c] + RunLengthDecode(t)
  {
    var s := [c] + t;
    assert s[0] == c && s[1..] == t;
    assert !StartsToken(s) by {
      if |s| >= 3 {
        assert s[1] == t[0];
      }
    }
  }

  /** Decoding passes over a stretch without `'*'` when what follows does not start with `'*'`. */
  lemma {:induction false} DecodeSkipsPlain(p: JsString, rest: JsString)
    requires forall i | 0 <= i < |p| :: p[i] != Asterisk
    requires rest == [] || rest[0] != Asterisk
    ensures RunLengthDecode(p + rest) == p + RunLengthDecode(rest)
    decreases |p|
  {
    if p == [] {
      assert p + rest == rest;
    } else {
      var tail := p[1..] + rest;
      assert p + rest == [p[0]] + tail;
      assert RunLengthDecode([p[0]] + tail) == [p[0]] + RunLengthDecode(tail) by {
        assert tail == [] || tail[0] != Asterisk by {
          if |p| > 1 {
            assert tail[0] == p[1];
          }
        }
        DecodeBeforeNonStar(p[0], tail);
      }
      assert RunLengthDecode(tail) == p[1..] + RunLengthDecode(rest) by {
        DecodeSkipsPlain(p[1..], rest);
      }
      assert [p[0]] + (p[1..] + RunLengthDecode(rest)) == p + RunLengthDecode(rest) by {
        assert [p[0]] + p[1..] == p;
      }
    }
  }

  lemma {:induction false} DigitPrefixOfDigits(ds: JsString, rest: JsString)
    requires forall i | 0 <= i < |ds| :: IsDigit(ds[i])
    requires rest == [] || !IsDigit(rest[0])
    ensures DigitPrefix(ds + rest) == |ds|
    decreases |ds|
  {
    if ds != [] {
      assert (ds + rest)[1..] == ds[1..] + rest;
      DigitPrefixOfDigits(ds[1..], rest);
    }
  }

  /** Decoding turns one `c*n` token back into its run. */
  lemma DecodeToken(c: CodeUnit, n: nat, rest: JsString)
    requires !IsLineTerminator(c)
    requires rest == [] || !IsDigit(rest[0])
    ensures RunLengthDecode([c, Asterisk] + Decimal(n) + rest) == Repeat(c, n) + RunLengthDecode(rest)
  {
    var ds := Decimal(n);
    var s := [c, Asterisk] + ds + rest;
    assert s[2..] == ds + rest;
    assert StartsToken(s);
    DigitPrefixOfDigits(ds, rest);
    assert s[2..2 + |ds|] == ds;
    assert s[2 + |ds|..] == rest;
    DigitsValueOfDecimal(n);
  }

  lemma SplitAt(s: JsString, n: nat)
    requires n <= |s|
    ensures s[..n] + s[n..] == s
  {
  }

  /** A suffix of plain text is plain. */
  lemma PlainSuffix(s: JsString, n: nat)
    requires Plain(s) && n <= |s|
    ensures Plain(s[n..])
  {
    forall i | 0 <= i < |s| - n ensures s[n..][i] != Asterisk && !IsDigit(s[n..][i]) {
      assert s[n..][i] == s[n + i];
    }
  }

  /** Encoding takes the leading run, then encodes the rest. */
  lemma EncodeStep(s: JsString)
    requires s != []
    ensures RunLength(s) <= |s|
    ensures RunLengthEncode(s) == EncodeRun(s[0], RunLength(s)) + RunLengthEncode(s[RunLength(s)..])
  {
  }

  /** The leading run is `s[0]` repeated. */
  lemma RunIsRepeat(s: JsString)
    requires s != []
    ensures Repeat(s[0], RunLength(s)) == s[..RunLength(s)]
  {
  }

  /** Decoding the encoded form of one run of a plain code unit gives the run back. */
  lemma DecodeRun(c: CodeUnit, n: nat, tail: JsString)
    requires n >= 1 && c != Asterisk && !IsDigit(c)
    requires tail == [] || (tail[0] != Asterisk && !IsDigit(tail[0]))
    ensures RunLengthDecode(EncodeRun(c, n) + tail) == Repeat(c, n) + RunLengthDecode(tail)
  {
    if n > 3 && !IsLineTerminator(c) {
      DecodeToken(c, n, tail);
    } else {
      DecodeSkipsPlain(Repeat(c, n), tail);
    }
  }

  /** Decoding the encoded text gives back the leading run, then the decoding of the rest's encoding. */
  lemma DecodeLeadingRun(s: JsString)
    requires Plain(s) && s != []
    ensures RunLength(s) <= |s|
    ensures RunLengthDecode(RunLengthEncode(s)) ==
      s[..RunLength(s)] + RunLengthDecode(RunLengthEncode(s[RunLength(s)..]))
  {
    var n := RunLength(s);
    var tail := RunLengthEncode(s[n..]);
    var run := EncodeRun(s[0], n);
    assert RunLengthEncode(s) == run + tail by {
      EncodeStep(s);
    }
    assert s[0] != Asterisk && !IsDigit(s[0]);
    assert tail == [] || (tail[0] != Asterisk && !IsDigit(tail[0])) by {
      PlainSuffix(s, n);
    }
    DecodeRun(s[0], n, tail);
    RunIsRepeat(s);
  }

  /** `decompress(compress(s)) == s` for text with no `'*'` and no digit. */
  lemma {:induction false} RoundTrip(s: JsString)
    requires Plain(s)
    ensures RunLengthDecode(RunLengthEncode(s)) == s
    decreases |s|
  {
    if s != [] {
      var n := RunLength(s);
      var rest := s[n..];
      assert RunLengthDecode(RunLengthEncode(rest)) == rest by {
        PlainSuffix(s, n);
        RoundTrip(rest);
      }
      assert RunLengthDecode(RunLengthEncode(s)) == s[..n] + RunLengthDecode(RunLengthEncode(rest)) by {
        DecodeLeadingRun(s);
      }
      SplitAt(s, n);
    }
  }

  /** Text with no `'*'` decodes to itself. */
  lemma PlainDecodesToItself(s: JsString)
    requires Plain(s)
    ensures RunLengthDecode(s) == s
  {
    DecodeSkipsPlain(s, []);
    assert s + [] == s;
  }

  /** A string written and read back through the hooks is unchanged, below or above the threshold,
    * when it has no `'*'` and no digit and fits the engine's string length. */
  lemma StringRoundTrip(o: CompressionOptions, json: ValueJson, limit: nat, s: JsString)
    requires o.algorithm == SimpleRle && Plain(s) && |s| <= limit
    ensures BeforeSet(o, json, Str(s)).Success?
    ensures AfterGet(o, json, limit, BeforeSet(o, json, Str(s)).value) == Str(s)
  {
    if |s| < o.threshold {
      PlainDecodesToItself(s);
    } else {
      RoundTrip(s);
    }
  }

  /** The round trip needs its precondition: a short string holding `x*3` reads back as `xxx`. */
  lemma StarDigitTextAltered(o: CompressionOptions, json: ValueJson, limit: nat)
    requires o.algorithm == SimpleRle && o.threshold > 3 && limit >= 3
    ensures BeforeSet(o, json, Str([0x78, Asterisk, 0x33])) == Success(Str([0x78, Asterisk, 0x33]))
    ensures AfterGet(o, json, limit, Str([0x78, Asterisk, 0x33])) == Str([0x78, 0x78, 0x78])
  {
    var s: JsString := [0x78, Asterisk, 0x33];
    assert StartsToken(s);
    assert DigitPrefix(s[2..]) == 1;
    assert s[2..3] == [] + [0x33 as bv16];
    DigitsValueSnoc([], 0x33);
    assert DigitOf(0x33) == 3;
    assert DigitsValue(s[2..3]) == 3;
    assert s[3..] == [];
    assert Repeat(0x78, 3) == [0x78, 0x78, 0x78];
    assert RunLengthDecode(s) == Repeat(0x78, 3) + RunLengthDecode([]);
  }
}
