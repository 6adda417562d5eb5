/**
 * The parts of JavaScript's number semantics the core relies on:
 * `parseInt` on a string, `Number.prototype.toString` on a natural number,
 * `Math.ceil(a / d)` and the `a || b || ... || 0` chain over numbers.
 */
module JsNumber {

  import opened JsText

  /** What `parseInt` can produce: NaN or an integer. */
  datatype JsInt = NaN | Int(value: int)

  predicate IsDecimalDigit(c: char) {
    '0' <= c <= '9'
  }

  /** The value of `c` as a digit in radix 36 (the digit alphabet of `parseInt`); 36 when `c` is no digit. */
  function DigitValue(c: char): (v: nat)
    ensures v <= 36
    ensures IsDecimalDigit(c) <==> v < 10
  {
    if '0' <= c <= '9' then c as int - '0' as int
    else if 'a' <= c <= 'z' then c as int - 'a' as int + 10
    else if 'A' <= c <= 'Z' then c as int - 'A' as int + 10
    else 36
  }

  function DigitChar(d: nat): (c: char)
    requires d < 10
    ensures IsDecimalDigit(c) && DigitValue(c) == d
  {
    ('0' as int + d) as char
  }

  /** The decimal text of `n`, as `String(n)` / a template literal writes it. */
  function NatToString(n: nat): (s: string)
    ensures |s| >= 1
    ensures forall i :: 0 <= i < |s| ==> IsDecimalDigit(s[i])
    ensures s[0] == '0' ==> n == 0
    decreases n
  {
    if n < 10 then [DigitChar(n)] else NatToString(n / 10) + [DigitChar(n % 10)]
  }

  /** The value of a digit string in `radix`, most significant digit first. */
  function DigitsValue(ds: string, radix: nat): nat
    decreases |ds|
  {
    if ds == [] then 0
    else DigitsValue(ds[..|ds| - 1], radix) * radix + DigitValue(ds[|ds| - 1])
  }

  /** The longest prefix of `s` made of digits of `radix`. */
  function LeadingDigits(s: string, radix: nat): (ds: string)
    ensures ds <= s
    ensures forall i :: 0 <= i < |ds| ==> DigitValue(ds[i]) < radix
    ensures |ds| < |s| ==> DigitValue(s[|ds|]) >= radix
  {
    if s == [] || DigitValue(s[0]) >= radix then []
    else [s[0]] + LeadingDigits(s[1..], radix)
  }

  /**
   * `parseInt(s)` with no radix argument: skip leading white space, take an
   * optional sign, read hexadecimal after a `0x`/`0X` prefix and decimal
   * otherwise, stop at the first character that is no digit, and give NaN
   * when no digit was read.
   */
  function ParseInt(s: string): JsInt {
    var t := TrimStart(s);
    if t != [] && t[0] == '-' then Negate(ParseUnsigned(t[1..]))
    else if t != [] && t[0] == '+' then ParseUnsigned(t[1..])
    else ParseUnsigned(t)
  }

  /** The unsigned part of `parseInt`: hexadecimal after `0x`/`0X`, decimal otherwise. */
  function ParseUnsigned(u: string): JsInt {
    if |u| >= 2 && u[0] == '0' && (u[1] == 'x' || u[1] == 'X') then FromDigits(LeadingDigits(u[2..], 16), 16)
    else FromDigits(LeadingDigits(u, 10), 10)
  }

  function FromDigits(ds: string, radix: nat): JsInt {
    if ds == [] then NaN else Int(DigitsValue(ds, radix))
  }

  function Negate(x: JsInt): JsInt {
    match x
    case NaN => NaN
    case Int(v) => Int(-v)
  }

  lemma {:induction false} DecimalValueOfNatToString(n: nat)
    ensures DigitsValue(NatToString(n), 10) == n
    decreases n
  {
    var s := NatToString(n);
    if n >= 10 {
      assert s[..|s| - 1] == NatToString(n / 10);
      DecimalValueOfNatToString(n / 10);
    }
  }

  lemma {:induction false} LeadingDigitsOfDigits(ds: string, rest: string)
    requires forall i :: 0 <= i < |ds| ==> IsDecimalDigit(ds[i])
    requires rest == [] || !IsDecimalDigit(rest[0])
    ensures LeadingDigits(ds + rest, 10) == ds
  {
    if ds != [] {
      assert (ds + rest)[1..] == ds[1..] + rest;
      LeadingDigitsOfDigits(ds[1..], rest);
    } else if rest != [] {
      assert DigitValue(rest[0]) >= 10;
    }
  }

  lemma TrimStartOfDigit(s: string)
    requires s != [] && IsDecimalDigit(s[0])
    ensures TrimStart(s) == s
  {
    assert !IsWhiteSpace(s[0]);
  }

  /** A string that starts with a decimal digit and has no `0x` prefix is read as a decimal number. */
  lemma ParseIntDecimal(s: string)
    requires s != [] && IsDecimalDigit(s[0])
    requires |s| >= 2 && s[0] == '0' ==> s[1] != 'x' && s[1] != 'X'
    ensures ParseInt(s) == Int(DigitsValue(LeadingDigits(s, 10), 10))
  {
    TrimStartOfDigit(s);
    assert ParseInt(s) == ParseUnsigned(s);
    assert LeadingDigits(s, 10) != [];
  }

  /**
   * `parseInt` reads back the number written by `NatToString`, also when text
   * that does not continue the number follows it.
   */
  lemma ParseIntOfNatToString(n: nat, rest: string)
    requires rest == [] || (!IsDecimalDigit(rest[0]) && rest[0] != 'x' && rest[0] != 'X')
    ensures ParseInt(NatToString(n) + rest) == Int(n)
  {
    var d := NatToString(n);
    var s := d + rest;
    assert s[0] == d[0];
    if |s| >= 2 && s[0] == '0' {
      assert n == 0 && |d| == 1;
      assert s[1] == rest[0];
    }
    ParseIntDecimal(s);
    LeadingDigitsOfDigits(d, rest);
    DecimalValueOfNatToString(n);
  }

  /** Distinct numbers are written differently. */
  lemma NatToStringInjective(a: nat, b: nat)
    ensures NatToString(a) == NatToString(b) <==> a == b
  {
    if NatToString(a) == NatToString(b) {
      ParseIntOfNatToString(a, []);
      ParseIntOfNatToString(b, []);
      assert NatToString(a) + [] == NatToString(b) + [];
    }
  }

  /** `Math.min(a, b)` on integers. */
  function Min(a: int, b: int): int {
    if a < b then a else b
  }

  /** `Math.max(a, b)` on integers. */
  function Max(a: int, b: int): int {
    if a < b then b else a
  }

  /** `Math.ceil(a / d)` for an integer `a` and a positive divisor. */
  function CeilDiv(a: int, d: int): (q: int)
    requires d > 0
    ensures (q - 1) * d < a <= q * d
  {
    -((-a) / d)
  }

  /**
   * `xs[0] || xs[1] || ... || 0` over numbers, where a missing value has been
   * written as 0: the first non-zero value, or 0 when every value is 0.
   */
  function FirstTruthy(xs: seq<int>): (r: int)
    ensures r == 0 <==> forall i :: 0 <= i < |xs| ==> xs[i] == 0
    ensures forall i :: 0 <= i < |xs| && xs[i] != 0 && (forall j :: 0 <= j < i ==> xs[j] == 0) ==> r == xs[i]
  {
    if xs == [] then 0
    else if xs[0] != 0 then xs[0]
    else
      var r := FirstTruthy(xs[1..]);
      assert forall i :: 1 <= i < |xs| ==> xs[i] == xs[1..][i - 1];
      r
  }
}
