/**
 * The validation middleware (src/middleware/validation.ts): per-key rule lists run before a
 * write, and the stock rule constructors of `validators`.
 */
module Validation {
  import opened Wrappers
  import opened Text
  import opened StorageErrors
  import opened Types

  /** What a rule returns: `true`/`false`, or a message string. */
  datatype RuleResult = Verdict(ok: bool) | Message(text: string)

  type Rule = Value -> RuleResult

  /** The `rules` record: the key's own properties, each a list of rules. */
  datatype Rules = Rules(own: map<string, seq<Rule>>)

  /** The options object; `onValidationError` is an opaque callback that is present or not. */
  datatype ValidationOptions = ValidationOptions(rules: Rules, onValidationError: bool)

  /** The messages one rule result contributes. */
  function Complaint(r: RuleResult): (errs: seq<string>)
    ensures r == Verdict(true) <==> errs == []
    ensures |errs| <= 1
  {
    match r
    case Verdict(ok) => if ok then [] else ["Validation failed"]
    case Message(text) => [text]
  }

  /** The messages of a rule list, in rule order. */
  function Errors(rs: seq<Rule>, value: Value): seq<string>
  {
    if rs == [] then [] else Errors(rs[..|rs| - 1], value) + Complaint(rs[|rs| - 1](value))
  }

  /** The rules of `key`, looked up among the record's own properties only. */
  function KeyRules(rules: Rules, key: string): (rs: seq<Rule>)
    ensures key !in rules.own ==> rs == []
    ensures key in rules.own ==> rs == rules.own[key]
  {
    if key in rules.own then rules.own[key] else []
  }

  /** The members every object literal inherits from `Object.prototype`. */
  const InheritedMembers: set<string> := {
    "constructor", "hasOwnProperty", "isPrototypeOf", "propertyIsEnumerable", "toLocaleString",
    "toString", "valueOf", "__defineGetter__", "__defineSetter__", "__lookupGetter__",
    "__lookupSetter__", "__proto__"}

  /** `rules[key] || []` followed by `for..of`: an inherited member is a function (or, for
    * `__proto__`, a plain object), which is truthy and not iterable. */
  function KeyRulesAsWritten(rules: Rules, key: string): (r: Result<seq<Rule>, Thrown>)
    ensures key in rules.own ==> r == Success(rules.own[key])
    ensures key !in rules.own && key !in InheritedMembers ==> r == Success([])
    ensures key !in rules.own && key in InheritedMembers ==> r.Failure? && r.error.ErrorObject? && r.error.name == "TypeError"
  {
    if key in rules.own then Success(rules.own[key])
    else if key in InheritedMembers then Failure(ErrorObject("TypeError", "keyRules is not iterable"))
    else Success([])
  }

  /** `validate(key, value)`: one message per failing rule, in rule order. */
  method Validate(rules: Rules, key: string, value: Value) returns (errors: seq<string>)
    ensures errors == Errors(KeyRules(rules, key), value)
  {
    var keyRules := KeyRules(rules, key);
    errors := [];
    for i := 0 to |keyRules|
      invariant errors == Errors(keyRules[..i], value)
    {
      var result := keyRules[i](value);
      if result == Verdict(false) {
        errors := errors + ["Validation failed"];
      } else if result.Message? {
        errors := errors + [result.text];
      }
      assert keyRules[..i + 1][..i] == keyRules[..i];
    }
    assert keyRules[..|keyRules|] == keyRules;
  }

  /** The error `beforeSet` throws for a rejected write. */
  function Rejection(key: string, errors: seq<string>): (t: Thrown)
    ensures t.Raised? && t.error.code == OperationFailed && t.error.originalError.None?
    ensures t.error.message == "Validation failed for key \"" + key + "\": " + Join(errors, ", ")
  {
    Raised(StorageError("Validation failed for key \"" + key + "\": " + Join(errors, ", "), OperationFailed, None))
  }

  /** One run of `beforeSet`: the `onValidationError(key, errors)` call it makes, if any, then its result. */
  datatype HookRun = HookRun(notified: Option<(string, seq<string>)>, result: Result<Value, Thrown>)

  /** `beforeSet(key, value)` of the validation middleware. */
  function BeforeSet(opts: ValidationOptions, key: string, value: Value): (run: HookRun)
    ensures run.result.Success? <==> Errors(KeyRules(opts.rules, key), value) == []
    ensures run.result.Success? ==> run.result.value == value && run.notified.None?
    ensures run.result.Failure? ==>
      run.result.error == Rejection(key, Errors(KeyRules(opts.rules, key), value)) &&
      run.notified == (if opts.onValidationError then Some((key, Errors(KeyRules(opts.rules, key), value))) else None)
  {
    var errors := Errors(KeyRules(opts.rules, key), value);
    if |errors| > 0 then
      HookRun(if opts.onValidationError then Some((key, errors)) else None, Failure(Rejection(key, errors)))
    else HookRun(None, Success(value))
  }

  /** `validationMiddleware(options)` as the storage pipeline sees it: only `beforeSet` is set.
    * The `onValidationError` call is not part of the hook's result. */
  function ValidationMiddleware(opts: ValidationOptions): (m: Middleware)
    ensures m.name == "validation" && m.afterGet.None? && m.beforeRemove.None? && m.beforeSet.Some?
    ensures forall key, value, o :: m.beforeSet.value(key, value, o) == BeforeSet(opts, key, value).result
  {
    Middleware("validation", Some((key, value, o) => BeforeSet(opts, key, value).result), None, None)
  }

  lemma {:induction false} ErrorsAppend(a: seq<Rule>, b: seq<Rule>, value: Value)
    ensures Errors(a + b, value) == Errors(a, value) + Errors(b, value)
    decreases |b|
  {
    if b == [] {
      assert a + b == a;
    } else {
      var b' := b[..|b| - 1];
      assert (a + b)[..|a + b| - 1] == a + b';
      assert (a + b)[|a + b| - 1] == b[|b| - 1];
      ErrorsAppend(a, b', value);
    }
  }

  /** A rule list reports nothing exactly when every rule returns `true`. */
  lemma {:induction false} ErrorsEmptyIff(rs: seq<Rule>, value: Value)
    ensures Errors(rs, value) == [] <==> forall i | 0 <= i < |rs| :: rs[i](value) == Verdict(true)
  {
    if rs != [] {
      var n := |rs| - 1;
      var init := rs[..n];
      var last := Complaint(rs[n](value));
      assert Errors(rs, value) == [] <==> Errors(init, value) == [] && last == [] by {
        assert Errors(rs, value) == Errors(init, value) + last;
        assert |Errors(rs, value)| == |Errors(init, value)| + |last|;
      }
      assert Errors(init, value) == [] <==> forall i | 0 <= i < n :: rs[i](value) == Verdict(true) by {
        ErrorsEmptyIff(init, value);
        assert forall i | 0 <= i < n :: init[i] == rs[i];
      }
      assert last == [] <==> rs[n](value) == Verdict(true);
      if Errors(rs, value) == [] {
        forall i | 0 <= i < |rs| ensures rs[i](value) == Verdict(true) {
          if i < n {
            assert rs[i](value) == Verdict(true);
          }
        }
      }
    }
  }

  /** The messages line up with the rules: rule i's complaint sits after those of rules 0..i-1. */
  lemma RuleOrder(rs: seq<Rule>, i: nat, value: Value)
    requires i < |rs|
    ensures Errors(rs, value) == Errors(rs[..i], value) + Complaint(rs[i](value)) + Errors(rs[i + 1..], value)
  {
    assert rs == rs[..i] + [rs[i]] + rs[i + 1..];
    ErrorsAppend(rs[..i] + [rs[i]], rs[i + 1..], value);
    ErrorsAppend(rs[..i], [rs[i]], value);
    assert [rs[i]][..0] == [];
  }

  /** A key with no rules of its own validates whatever the value. */
  lemma KeyWithoutRulesValidates(opts: ValidationOptions, key: string, value: Value)
    requires key !in opts.rules.own
    ensures BeforeSet(opts, key, value) == HookRun(None, Success(value))
  {
  }

  /** As written, a key named like an inherited member fails even though no rule mentions it. */
  lemma InheritedKeyRejected(value: Value)
    ensures KeyRulesAsWritten(Rules(map[]), "toString").Failure?
    ensures KeyRules(Rules(map[]), "toString") == []
    ensures BeforeSet(ValidationOptions(Rules(map[]), false), "toString", value).result == Success(value)
  {
  }

  /** A write passes validation exactly when every rule of its key returns `true`. */
  lemma BeforeSetPassesIff(opts: ValidationOptions, key: string, value: Value)
    ensures BeforeSet(opts, key, value).result.Success? <==>
      forall i | 0 <= i < |KeyRules(opts.rules, key)| :: KeyRules(opts.rules, key)[i](value) == Verdict(true)
  {
    ErrorsEmptyIff(KeyRules(opts.rules, key), value);
  }

  // The stock rules of `validators`. A `message` that is `undefined` is None.

  /** `message || fallback`: the empty string falls back too. */
  function OrDefault(message: Option<string>, fallback: string): (m: string)
    ensures message.Some? && message.value != "" ==> m == message.value
    ensures message.None? || message.value == "" ==> m == fallback
  {
    if message.Some? && message.value != "" then message.value else fallback
  }

  /** `required(message = 'Value is required')`. */
  function Required(message: Option<string>): (rule: Rule)
    ensures forall v :: rule(v) == Verdict(true) <==> !(v == Null || v == Undefined || v == Str([]))
    ensures forall v :: rule(v) != Verdict(true) ==> rule(v) == Message(message.GetOr("Value is required"))
  {
    var m := message.GetOr("Value is required");
    (v: Value) => if v == Null || v == Undefined || v == Str([]) then Message(m) else Verdict(true)
  }

  /** `minLength(min, message)`: lengths count UTF-16 code units. */
  function MinLength(min: int, message: Option<string>): (rule: Rule)
    ensures forall v :: rule(v) == Verdict(true) <==> v.Str? && |v.s| >= min
    ensures forall v :: rule(v) != Verdict(true) ==>
      rule(v) == Message(OrDefault(message, "Value must be at least " + IntToString(min) + " characters"))
  {
    var m := OrDefault(message, "Value must be at least " + IntToString(min) + " characters");
    (v: Value) => if !v.Str? || |v.s| < min then Message(m) else Verdict(true)
  }

  /** `maxLength(max, message)`. */
  function MaxLength(max: int, message: Option<string>): (rule: Rule)
    ensures forall v :: rule(v) == Verdict(true) <==> v.Str? && |v.s| <= max
    ensures forall v :: rule(v) != Verdict(true) ==>
      rule(v) == Message(OrDefault(message, "Value must be at most " + IntToString(max) + " characters"))
  {
    var m := OrDefault(message, "Value must be at most " + IntToString(max) + " characters");
    (v: Value) => if !v.Str? || |v.s| > max then Message(m) else Verdict(true)
  }

  /** `pattern(regex, message)`; the regular expression is an opaque test. */
  function Pattern(test: JsString -> bool, message: Option<string>): (rule: Rule)
    ensures forall v :: rule(v) == Verdict(true) <==> v.Str? && test(v.s)
    ensures forall v :: rule(v) != Verdict(true) ==> rule(v) == Message(OrDefault(message, "Value does not match pattern"))
  {
    var m := OrDefault(message, "Value does not match pattern");
    (v: Value) => if !v.Str? || !test(v.s) then Message(m) else Verdict(true)
  }

  /** `min(min, message)`. */
  function Min(min: int, message: Option<string>): (rule: Rule)
    ensures forall v :: rule(v) == Verdict(true) <==> v.Num? && v.n >= min
    ensures forall v :: rule(v) != Verdict(true) ==> rule(v) == Message(OrDefault(message, "Value must be at least " + IntToString(min)))
  {
    var m := OrDefault(message, "Value must be at least " + IntToString(min));
    (v: Value) => if !v.Num? || v.n < min then Message(m) else Verdict(true)
  }

  /** `max(max, message)`. */
  function Max(max: int, message: Option<string>): (rule: Rule)
    ensures forall v :: rule(v) == Verdict(true) <==> v.Num? && v.n <= max
    ensures forall v :: rule(v) != Verdict(true) ==> rule(v) == Message(OrDefault(message, "Value must be at most " + IntToString(max)))
  {
    var m := OrDefault(message, "Value must be at most " + IntToString(max));
    (v: Value) => if !v.Num? || v.n > max then Message(m) else Verdict(true)
  }

  /** `email(message = 'Invalid email address')`; the address pattern is an opaque test. */
  function Email(isAddress: JsString -> bool, message: Option<string>): (rule: Rule)
    ensures forall v :: rule(v) == Verdict(true) <==> v.Str? && isAddress(v.s)
    ensures forall v :: rule(v) != Verdict(true) ==> rule(v) == Message(message.GetOr("Invalid email address"))
  {
    var m := message.GetOr("Invalid email address");
    (v: Value) => if !v.Str? || !isAddress(v.s) then Message(m) else Verdict(true)
  }

  /** `custom(fn, message)`. */
  function Custom(fn: Value -> bool, message: string): (rule: Rule)
    ensures forall v :: rule(v) == Verdict(true) <==> fn(v)
    ensures forall v :: !fn(v) ==> rule(v) == Message(message)
  {
    (v: Value) => if !fn(v) then Message(message) else Verdict(true)
  }
}
