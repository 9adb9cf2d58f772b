/** Strings as the JavaScript runtime sees them, and the few string helpers the core uses. */
module Text {

  /** A UTF-16 code unit: what `charCodeAt` returns and `String.fromCharCode` takes. */
  type CodeUnit = bv16

  /** A JavaScript string value, as its sequence of UTF-16 code units. */
  type JsString = seq<CodeUnit>

  const Asterisk: CodeUnit := 0x2A
  const Zero: CodeUnit := 0x30

  /** `\d` in a regular expression without the `u` flag: an ASCII digit. */
  predicate IsDigit(u: CodeUnit) {
    0x30 <= u <= 0x39
  }

  /** The code units that `.` does not match in a regular expression without the `s` flag. */
  predicate IsLineTerminator(u: CodeUnit) {
    u == 0x0A || u == 0x0D || u == 0x2028 || u == 0x2029
  }

  /** The code unit of decimal digit `d`. */
  function DigitUnit(d: nat): (u: CodeUnit)
    requires d < 10
  {
    Zero + d as bv16
  }

  /** The numeric value of a digit code unit. */
  function DigitOf(u: CodeUnit): (d: nat)
    requires IsDigit(u)
  {
    (u - Zero) as int
  }

  lemma DigitRoundTrip(d: nat)
    requires d < 10
    ensures IsDigit(DigitUnit(d)) && DigitOf(DigitUnit(d)) == d
  {
  }

  /** Decimal rendering of a natural number as code units, as template literals produce it. */
  function Decimal(n: nat): (r: JsString)
    ensures |r| >= 1 && forall i | 0 <= i < |r| :: IsDigit(r[i])
  {
    DigitRoundTrip(n % 10);
    if n < 10 then [DigitUnit(n)]
    else Decimal(n / 10) + [DigitUnit(n % 10)]
  }

  /** The value of a run of decimal digits, as `parseInt(digits, 10)` computes it. */
  function DigitsValue(ds: JsString): nat
    requires forall i | 0 <= i < |ds| :: IsDigit(ds[i])
  {
    if ds == [] then 0
    else DigitsValue(ds[..|ds| - 1]) * 10 + DigitOf(ds[|ds| - 1])
  }

  lemma DigitsValueSnoc(ds: JsString, u: CodeUnit)
    requires forall i | 0 <= i < |ds| :: IsDigit(ds[i])
    requires IsDigit(u)
    ensures DigitsValue(ds + [u]) == DigitsValue(ds) * 10 + DigitOf(u)
  {
    assert (ds + [u])[..|ds|] == ds;
  }

  lemma {:induction false} DigitsValueOfDecimal(n: nat)
    ensures DigitsValue(Decimal(n)) == n
  {
    var q, r := n / 10, n % 10;
    assert n == q * 10 + r;
    assert n < 10 ==> q == 0;
    var u := DigitUnit(r);
    assert IsDigit(u) && DigitOf(u) == r by {
      DigitRoundTrip(r);
    }
    var front: JsString := if n < 10 then [] else Decimal(q);
    var v: nat := if n < 10 then 0 else q;
    assert DigitsValue(front) == v by {
      if n >= 10 {
        DigitsValueOfDecimal(q);
      }
    }
    assert Decimal(n) == front + [u];
    assert v == q;
    assert DigitsValue(front + [u]) == q * 10 + r by {
      DigitsValueSnoc(front, u);
    }
  }

  /** A number never needs more decimal digits than its own value (from 1 on). */
  lemma {:induction false} DecimalLength(n: nat)
    requires n >= 1
    ensures |Decimal(n)| <= n
  {
    if n >= 10 {
      DecimalLength(n / 10);
    }
  }

  /** Decimal rendering of an integer as a Dafny string, as `${n}` produces it. */
  function IntToString(n: int): (r: string)
    ensures |r| >= 1
  {
    if n < 0 then "-" + NatToString(-n) else NatToString(n)
  }

  function NatToString(n: nat): (r: string)
    ensures |r| >= 1 && forall i | 0 <= i < |r| :: '0' <= r[i] <= '9'
  {
    if n < 10 then [(48 + n) as char]
    else NatToString(n / 10) + [(48 + n % 10) as char]
  }

  /** `parts.join(sep)`. */
  function Join(parts: seq<string>, sep: string): (r: string)
    ensures parts == [] ==> r == ""
    ensures |parts| == 1 ==> r == parts[0]
  {
    if parts == [] then ""
    else if |parts| == 1 then parts[0]
    else parts[0] + sep + Join(parts[1..], sep)
  }

  /** `s.includes(sub)`. */
  predicate Includes(s: string, sub: string)
    decreases |s|
  {
    StartsWith(s, sub) || (s != [] && Includes(s[1..], sub))
  }

  /** `s.startsWith(p)`. */
  predicate StartsWith(s: string, p: string) {
    |p| <= |s| && s[..|p|] == p
  }

  /** `s.endsWith(p)`. */
  predicate EndsWith(s: string, p: string) {
    |p| <= |s| && s[|s| - |p|..] == p
  }
}
