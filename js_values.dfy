/**
 * The slice of JavaScript's value semantics that the modelled code relies on:
 * truthiness, the `||` operator, indexing past the end of an array, and the
 * conversion of a value to a string inside a template literal.
 */
module JsValues {
  import opened Wrappers

  /**
   * A JavaScript value. Numbers are integers, with NaN kept apart. Every
   * object, arrays included, is an `Obj` carrying the string its `toString()`
   * produces (`"[object Object]"` for a plain object, `""` for `[]`).
   */
  datatype JsVal =
    | Undefined
    | Null
    | Bool(b: bool)
    | Num(n: int)
    | NaN
    | Str(s: string)
    | Obj(repr: string)

  /** false, 0, NaN, "", null and undefined are falsy; every other value is truthy. */
  predicate Truthy(v: JsVal) {
    match v
    case Undefined => false
    case Null => false
    case Bool(b) => b
    case Num(n) => n != 0
    case NaN => false
    case Str(s) => s != ""
    case Obj(_) => true
  }

  /** `args[i]`: an index past the end of the array reads `undefined`. */
  function At(args: seq<JsVal>, i: nat): (r: JsVal)
    ensures i < |args| ==> r == args[i]
    ensures |args| <= i ==> r == Undefined
  {
    if i < |args| then args[i] else Undefined
  }

  /** `a || b`, and equally `a ? a : b`: the first operand when it is truthy, else the second. */
  function Or(a: JsVal, b: JsVal): (r: JsVal)
    ensures r == a || r == b
    ensures Truthy(r) <==> Truthy(a) || Truthy(b)
    ensures Truthy(a) ==> r == a
    ensures !Truthy(a) ==> r == b
  {
    if Truthy(a) then a else b
  }

  // ---------------------------------------------------------------------------
  // Decimal rendering of integers and its inverse
  // ---------------------------------------------------------------------------

  predicate IsDigit(c: char) {
    '0' <= c <= '9'
  }

  function DigitChar(d: nat): (c: char)
    requires d < 10
    ensures IsDigit(c)
  {
    "0123456789"[d]
  }

  function DigitValue(c: char): (d: nat)
    requires IsDigit(c)
    ensures d < 10
  {
    (c as int - '0' as int) as nat
  }

  /** The code of the d-th digit is the code of '0' plus d. */
  lemma DigitCharCode(d: nat)
    requires d < 10
    ensures DigitChar(d) as int == '0' as int + d
  {
    assert "0123456789"[0] == '0' && "0123456789"[1] == '1' && "0123456789"[2] == '2';
    assert "0123456789"[3] == '3' && "0123456789"[4] == '4' && "0123456789"[5] == '5';
    assert "0123456789"[6] == '6' && "0123456789"[7] == '7' && "0123456789"[8] == '8';
    assert "0123456789"[9] == '9';
  }

  lemma DigitRoundTrip(d: nat)
    requires d < 10
    ensures DigitValue(DigitChar(d)) == d
  {
    DigitCharCode(d);
  }

  lemma DigitValueRoundTrip(c: char)
    requires IsDigit(c)
    ensures DigitChar(DigitValue(c)) == c
  {
    DigitCharCode(DigitValue(c));
  }

  /** The decimal digits of `n`, most significant first, without leading zeros. */
  function NatToString(n: nat): (r: string)
    ensures |r| > 0
    ensures forall k :: 0 <= k < |r| ==> IsDigit(r[k])
    decreases n
  {
    if n < 10 then [DigitChar(n)] else NatToString(n / 10) + [DigitChar(n % 10)]
  }

  /** A number inside a template literal: an optional minus sign and the decimal digits. */
  function IntToString(n: int): (r: string)
    ensures |r| > 0
    ensures forall k :: 0 <= k < |r| ==> IsDigit(r[k]) || (k == 0 && r[k] == '-')
  {
    if n < 0 then "-" + NatToString(-n) else NatToString(n)
  }

  /** The value of a non-empty string of decimal digits. */
  function DigitsValue(s: string): (n: nat)
    requires forall k :: 0 <= k < |s| ==> IsDigit(s[k])
    decreases |s|
  {
    if |s| == 0 then 0 else DigitsValue(s[..|s| - 1]) * 10 + DigitValue(s[|s| - 1])
  }

  /** A non-empty string of decimal digits. */
  predicate Digits(s: string) {
    |s| > 0 && forall k :: 0 <= k < |s| ==> IsDigit(s[k])
  }

  /** Digits as JavaScript prints a number: no leading zero except in "0" itself. */
  predicate Canonical(s: string) {
    Digits(s) && (s[0] == '0' ==> |s| == 1)
  }

  /** Reads back an integer exactly as IntToString writes it; leading zeros and "-0" are rejected. */
  function ParseInt(s: string): (r: Option<int>)
  {
    if |s| > 0 && s[0] == '-' then
      var t := s[1..];
      if Canonical(t) && t[0] != '0' then Some(-(DigitsValue(t) as int)) else None
    else if Canonical(s) then Some(DigitsValue(s) as int)
    else None
  }

  lemma {:induction false} NatToStringRoundTrip(n: nat)
    ensures DigitsValue(NatToString(n)) == n
    decreases n
  {
    if n < 10 {
      DigitRoundTrip(n);
      assert NatToString(n)[..0] == [];
    } else {
      var r := NatToString(n);
      assert r[..|r| - 1] == NatToString(n / 10);
      NatToStringRoundTrip(n / 10);
      DigitRoundTrip(n % 10);
    }
  }

  /** NatToString writes canonical digits, starting with '0' only for zero. */
  lemma {:induction false} NatToStringCanonical(n: nat)
    ensures Canonical(NatToString(n))
    ensures NatToString(n)[0] == '0' <==> n == 0
    decreases n
  {
    if n < 10 {
      DigitRoundTrip(n);
    } else {
      NatToStringCanonical(n / 10);
    }
  }

  /** Digits whose first one is not '0' have a positive value. */
  lemma {:induction false} LeadingNonZeroPositive(s: string)
    requires Digits(s) && s[0] != '0'
    ensures DigitsValue(s) >= 1
    decreases |s|
  {
    if |s| == 1 {
      DigitValueRoundTrip(s[0]);
      assert DigitChar(0) == '0';
    } else {
      LeadingNonZeroPositive(s[..|s| - 1]);
    }
  }

  /** Canonical digits are exactly what NatToString writes for their value. */
  lemma {:induction false} CanonicalDigitsRoundTrip(s: string)
    requires Canonical(s)
    ensures NatToString(DigitsValue(s)) == s
    decreases |s|
  {
    var d := DigitValue(s[|s| - 1]);
    DigitValueRoundTrip(s[|s| - 1]);
    if |s| == 1 {
      assert s[..0] == [];
      assert s == [s[0]];
    } else {
      var p := s[..|s| - 1];
      assert p[0] == s[0];
      LeadingNonZeroPositive(p);
      CanonicalDigitsRoundTrip(p);
      var v := DigitsValue(s);
      assert v == DigitsValue(p) * 10 + d;
      assert v / 10 == DigitsValue(p) && v % 10 == d;
      assert s == p + [s[|s| - 1]];
    }
  }

  /** Canonical digits of a value read back as that value. */
  lemma ParseNatToString(m: nat)
    ensures ParseInt(NatToString(m)) == Some(m)
  {
    var t := NatToString(m);
    NatToStringRoundTrip(m);
    NatToStringCanonical(m);
    assert t[0] != '-';
  }

  /** A minus sign before the digits of a positive value reads back as its negation. */
  lemma ParseNegatedNatToString(m: nat)
    requires m > 0
    ensures ParseInt("-" + NatToString(m)) == Some(-(m as int))
  {
    var t := NatToString(m);
    var s := "-" + t;
    assert s[1..] == t;
    NatToStringRoundTrip(m);
    NatToStringCanonical(m);
  }

  /** Rendering an integer in decimal loses nothing: ParseInt reads it back. */
  lemma IntToStringRoundTrip(n: int)
    ensures ParseInt(IntToString(n)) == Some(n)
  {
    if n < 0 {
      ParseNegatedNatToString(-n);
    } else {
      ParseNatToString(n);
    }
  }

  /** ParseInt accepts only what IntToString writes: each integer has one accepted spelling. */
  lemma ParseIntOnlyOfIntToString(s: string)
    requires ParseInt(s).Some?
    ensures IntToString(ParseInt(s).value) == s
  {
    if |s| > 0 && s[0] == '-' {
      var t := s[1..];
      LeadingNonZeroPositive(t);
      CanonicalDigitsRoundTrip(t);
      assert s == "-" + t;
    } else {
      CanonicalDigitsRoundTrip(s);
    }
  }

  /** `${v}`: the string a template literal puts in place of `v`. */
  function ToStr(v: JsVal): (r: string)
    ensures v.Str? ==> r == v.s
  {
    match v
    case Undefined => "undefined"
    case Null => "null"
    case Bool(b) => if b then "true" else "false"
    case Num(n) => IntToString(n)
    case NaN => "NaN"
    case Str(s) => s
    case Obj(repr) => repr
  }
}
