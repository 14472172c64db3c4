/**
 * The configuration values a channel translator receives, and the PHP conversions it
 * applies to them: conversion to bool (`$v ? … : …`), `intval`, the number used in
 * clamping, and the string stored in a text slot.
 */
module PhpValues {

  /** A value under one key of a configuration array. */
  datatype Value = Null | Bool(b: bool) | Int(i: int) | Float(r: real) | Str(s: string)

  /** A configuration array: field name to value. */
  type Config = map<string, Value>

  /** PHP's conversion to bool. */
  predicate Truthy(v: Value)
  {
    match v
    case Null => false
    case Bool(b) => b
    case Int(i) => i != 0
    case Float(r) => r != 0.0
    case Str(s) => s != "" && s != "0"
  }

  /** `intval` of a float: truncation toward zero. */
  function Trunc(r: real): (t: int)
    ensures 0.0 <= r ==> t as real <= r < t as real + 1.0
    ensures r <= 0.0 ==> t as real - 1.0 < r <= t as real
  {
    if r >= 0.0 then r.Floor else -((-r).Floor)
  }

  /** `intval($v)`: integers as they are, booleans as 0 or 1, floats truncated toward zero. */
  function IntVal(v: Value): (n: int)
    ensures v.Int? ==> n == v.i
    ensures v.Bool? ==> n == if v.b then 1 else 0
    ensures v.Float? && v.r >= 0.0 ==> 0 <= n && n as real <= v.r < n as real + 1.0
    ensures v.Float? && v.r <= 0.0 ==> n <= 0 && n as real - 1.0 < v.r <= n as real
  {
    match v
    case Null => 0
    case Bool(b) => if b then 1 else 0
    case Int(i) => i
    case Float(r) => Trunc(r)
    case Str(s) => StrToInt(s)
  }

  /**
   * The number the model takes for a value when it is clamped and scaled: a float as itself,
   * anything else by `intval`. PHP differs for decimal strings with a fraction or exponent,
   * which it reads as floats, and for null and booleans, which it compares with numbers as
   * booleans; see the README.
   */
  function ToNumber(v: Value): real
  {
    match v
    case Float(r) => r
    case _ => IntVal(v) as real
  }

  // ---------------------------------------------------------------------------------------
  // Strings and integers

  predicate IsSpace(c: char)
  {
    c == ' ' || c == '\t' || c == '\n' || c == '\r' || c == '\U{000B}' || c == '\U{000C}'
  }

  predicate IsDigit(c: char)
  {
    '0' <= c <= '9'
  }

  function SkipSpace(s: string): (t: string)
    ensures |t| <= |s| && t == s[|s| - |t|..]
    ensures t != [] ==> !IsSpace(t[0])
  {
    if s != [] && IsSpace(s[0]) then SkipSpace(s[1..]) else s
  }

  /** The value of the run of decimal digits that starts s, read after `acc`. */
  function DigitsFrom(s: string, acc: nat): nat
  {
    if s != [] && IsDigit(s[0]) then DigitsFrom(s[1..], 10 * acc + (s[0] as int - '0' as int)) else acc
  }

  /** `intval` of a string: leading white space, an optional sign, then decimal digits. */
  function StrToInt(s: string): int
  {
    var t := SkipSpace(s);
    if t != [] && t[0] == '-' then -(DigitsFrom(t[1..], 0) as int)
    else if t != [] && t[0] == '+' then DigitsFrom(t[1..], 0)
    else DigitsFrom(t, 0)
  }

  function DigitChar(d: nat): char
    requires d < 10
  {
    "0123456789"[d]
  }

  function NatToText(n: nat): (t: string)
    ensures |t| >= 1
  {
    if n < 10 then [DigitChar(n)] else NatToText(n / 10) + [DigitChar(n % 10)]
  }

  /** The decimal text PHP gives an integer. */
  function IntToText(i: int): string
  {
    if i < 0 then "-" + NatToText(-i) else NatToText(i)
  }

  /** The string PHP stores when a value is passed where a string is expected (null as ""). */
  function TextOf(v: Value): string
  {
    match v
    case Null => ""
    case Bool(b) => if b then "1" else ""
    case Int(i) => IntToText(i)
    case Float(r) => IntToText(Trunc(r))
    case Str(s) => s
  }

  function Pow10(k: nat): (r: nat)
    ensures r >= 1
  {
    if k == 0 then 1 else 10 * Pow10(k - 1)
  }

  /** The decimal text of n has at most k digits exactly when n is below 10^k. */
  lemma {:induction false} NatToTextLength(n: nat, k: nat)
    requires k >= 1
    ensures |NatToText(n)| <= k <==> n < Pow10(k)
    decreases n
  {
    if n >= 10 {
      assert |NatToText(n)| == |NatToText(n / 10)| + 1;
      if k == 1 {
        assert Pow10(1) == 10;
      } else {
        NatToTextLength(n / 10, k - 1);
      }
    } else {
      Pow10AtLeast10(k);
    }
  }

  lemma Pow10AtLeast10(k: nat)
    requires k >= 1
    ensures Pow10(k) >= 10
  {
    if k > 1 {
      Pow10AtLeast10(k - 1);
    }
  }

  /** An integer's text fits in four characters exactly when the integer is in -999..9999. */
  lemma IntTextFitsFour(i: int)
    ensures |IntToText(i)| <= 4 <==> -999 <= i <= 9999
  {
    assert Pow10(3) == 1000 && Pow10(4) == 10000;
    if i < 0 {
      NatToTextLength(-i, 3);
    } else {
      NatToTextLength(i, 4);
    }
  }
}
