/**
 * ECMAScript's global parseInt with no radix argument (ECMA-262, "parseInt (string,
 * radix)"). deleteNotification reads its index query parameter with it. Results are
 * mathematical integers; None stands for NaN.
 */
module JsParseInt {
  import opened Wrappers

  /** StrWhiteSpaceChar: the white space and line terminators parseInt skips. */
  predicate IsJsWhitespace(c: char) {
    var cp := c as int;
    // TAB, VT, FF, SP, NBSP, ZWNBSP and the other Zs space separators
    cp == 0x09 || cp == 0x0B || cp == 0x0C || cp == 0x20 || cp == 0xA0 || cp == 0xFEFF
    || cp == 0x1680 || (0x2000 <= cp <= 0x200A) || cp == 0x202F || cp == 0x205F || cp == 0x3000
    // LF, CR, LS, PS
    || cp == 0x0A || cp == 0x0D || cp == 0x2028 || cp == 0x2029
  }

  function TrimStart(s: string): (r: string)
    ensures |r| <= |s| && r == s[|s| - |r|..]
    ensures r == [] || !IsJsWhitespace(r[0])
    ensures forall i :: 0 <= i < |s| - |r| ==> IsJsWhitespace(s[i])
  {
    if s != [] && IsJsWhitespace(s[0]) then TrimStart(s[1..]) else s
  }

  /** The value of c as a digit in the given radix (10 or 16), letters of either case. */
  function DigitValue(c: char, radix: nat): (r: Option<nat>)
    requires radix == 10 || radix == 16
    ensures r.Some? ==> r.value < radix
  {
    var v: int :=
      if '0' <= c <= '9' then c as int - '0' as int
      else if 'a' <= c <= 'z' then c as int - 'a' as int + 10
      else if 'A' <= c <= 'Z' then c as int - 'A' as int + 10
      else radix;
    if v < radix then Some(v) else None
  }

  /** The length of the longest prefix of s made of radix digits. */
  function DigitPrefixLength(s: string, radix: nat): (k: nat)
    requires radix == 10 || radix == 16
    ensures k <= |s|
    ensures forall i :: 0 <= i < k ==> DigitValue(s[i], radix).Some?
    ensures k < |s| ==> DigitValue(s[k], radix).None?
  {
    if s != [] && DigitValue(s[0], radix).Some? then 1 + DigitPrefixLength(s[1..], radix) else 0
  }

  /** The number a string of radix digits denotes, most significant digit first. */
  function DigitsValue(s: string, radix: nat): (v: nat)
    requires radix == 10 || radix == 16
    requires forall i :: 0 <= i < |s| ==> DigitValue(s[i], radix).Some?
  {
    if s == [] then 0
    else DigitsValue(s[..|s| - 1], radix) * radix + DigitValue(s[|s| - 1], radix).value
  }

  predicate HasHexPrefix(s: string) {
    |s| >= 2 && s[0] == '0' && (s[1] == 'x' || s[1] == 'X')
  }

  /** The digits after the sign: a 0x/0X prefix selects radix 16; None when no digit follows. */
  function ParseUnsigned(u: string): (r: Option<nat>)
  {
    var radix := if HasHexPrefix(u) then 16 else 10;
    var digits := if HasHexPrefix(u) then u[2..] else u;
    var k := DigitPrefixLength(digits, radix);
    if k == 0 then None else Some(DigitsValue(digits[..k], radix))
  }

  /** parseInt(s): skip white space, read a sign, then the digits. */
  function ParseInt(s: string): (r: Option<int>)
  {
    var t := TrimStart(s);
    var negative := t != [] && t[0] == '-';
    var u := if t != [] && (t[0] == '-' || t[0] == '+') then t[1..] else t;
    var magnitude := ParseUnsigned(u);
    if magnitude.None? then None
    else Some(if negative then -(magnitude.value as int) else magnitude.value)
  }

  /** The decimal numeral of n, as String(n) writes it for a safe integer. */
  function NatToDecimal(n: nat): (s: string)
    ensures |s| >= 1
    ensures forall i :: 0 <= i < |s| ==> '0' <= s[i] <= '9'
    ensures s[0] == '0' ==> n == 0 && |s| == 1
  {
    if n < 10 then ["0123456789"[n]] else NatToDecimal(n / 10) + ["0123456789"[n % 10]]
  }

  function IntToDecimal(i: int): (s: string)
    ensures |s| >= 1
  {
    if i < 0 then "-" + NatToDecimal(-i) else NatToDecimal(i)
  }

  lemma DecimalDigitsAreDigits(s: string)
    requires forall i :: 0 <= i < |s| ==> '0' <= s[i] <= '9'
    ensures forall i :: 0 <= i < |s| ==> DigitValue(s[i], 10).Some?
  {
  }

  lemma DecimalDigitValue(d: nat)
    requires d < 10
    ensures DigitValue("0123456789"[d], 10) == Some(d)
  {
    assert "0123456789"[d] as int == '0' as int + d;
  }

  lemma {:induction false} DigitsValueOfDecimal(n: nat)
    ensures forall i :: 0 <= i < |NatToDecimal(n)| ==> DigitValue(NatToDecimal(n)[i], 10).Some?
    ensures DigitsValue(NatToDecimal(n), 10) == n
  {
    var s := NatToDecimal(n);
    DecimalDigitsAreDigits(s);
    if n < 10 {
      DecimalDigitValue(n);
      assert s[..0] == [];
    } else {
      DigitsValueOfDecimal(n / 10);
      DecimalDigitValue(n % 10);
      assert s[..|s| - 1] == NatToDecimal(n / 10);
      assert s[|s| - 1] == "0123456789"[n % 10];
    }
  }

  lemma {:induction false} DigitPrefixOfDigits(d: string)
    requires forall i :: 0 <= i < |d| ==> DigitValue(d[i], 10).Some?
    ensures DigitPrefixLength(d, 10) == |d|
  {
    if d != [] {
      DigitPrefixOfDigits(d[1..]);
    }
  }

  /** A numeral is read whole, in decimal, by the digit reader. */
  lemma UnsignedOfNumeral(d: string)
    requires |d| >= 1 && forall i :: 0 <= i < |d| ==> '0' <= d[i] <= '9'
    ensures forall i :: 0 <= i < |d| ==> DigitValue(d[i], 10).Some?
    ensures ParseUnsigned(d) == Some(DigitsValue(d, 10))
  {
    DecimalDigitsAreDigits(d);
    DigitPrefixOfDigits(d);
    assert d[..|d|] == d;
    assert !HasHexPrefix(d);
  }

  /** A numeral with no white space or sign in front is read whole, in decimal. */
  lemma ParseIntOfNumeral(d: string)
    requires |d| >= 1 && forall i :: 0 <= i < |d| ==> '0' <= d[i] <= '9'
    ensures forall i :: 0 <= i < |d| ==> DigitValue(d[i], 10).Some?
    ensures ParseInt(d) == Some(DigitsValue(d, 10))
  {
    UnsignedOfNumeral(d);
    assert !IsJsWhitespace(d[0]);
    assert TrimStart(d) == d;
  }

  /** A leading minus sign negates what the digit reader makes of the rest. */
  lemma ParseIntAfterMinus(u: string)
    ensures ParseInt("-" + u) == if ParseUnsigned(u).None? then None else Some(-(ParseUnsigned(u).value as int))
  {
    var s := "-" + u;
    assert !IsJsWhitespace(s[0]);
    assert TrimStart(s) == s;
    assert s[1..] == u;
  }

  /** The digit reader reads the decimal numeral of n back as n. */
  lemma UnsignedOfDecimal(n: nat)
    ensures ParseUnsigned(NatToDecimal(n)) == Some(n)
  {
    DigitsValueOfDecimal(n);
    UnsignedOfNumeral(NatToDecimal(n));
  }

  /** String(i) of a non-negative i is read back as i. */
  lemma ParseIntOfDecimal(i: int)
    requires i >= 0
    ensures ParseInt(IntToDecimal(i)) == Some(i)
  {
    DigitsValueOfDecimal(i);
    ParseIntOfNumeral(NatToDecimal(i));
  }

  /** String(i) of a negative i, a minus sign before the numeral of -i, is read back as i. */
  lemma ParseIntOfNegativeDecimal(i: int)
    requires i < 0
    ensures ParseInt(IntToDecimal(i)) == Some(i)
  {
    var n: nat := -i;
    var d := NatToDecimal(n);
    UnsignedOfDecimal(n);
    ParseIntOfNegated(d, n);
    assert IntToDecimal(i) == "-" + d;
  }

  /** Digits the digit reader reads as m, after a minus sign, are read as -m. */
  lemma ParseIntOfNegated(u: string, m: nat)
    requires ParseUnsigned(u) == Some(m)
    ensures ParseInt("-" + u) == Some(-(m as int))
  {
    ParseIntAfterMinus(u);
  }

  /** parseInt(String(i)) === i for every integer i (within the model's unbounded ints). */
  lemma ParseIntDecimal(i: int)
    ensures ParseInt(IntToDecimal(i)) == Some(i)
  {
    if i < 0 {
      ParseIntOfNegativeDecimal(i);
    } else {
      ParseIntOfDecimal(i);
    }
  }

  /** When the first character after white space is neither a sign nor a digit, the result is NaN. */
  lemma ParseIntNotANumber(s: string)
    requires var t := TrimStart(s); t == [] || (t[0] != '-' && t[0] != '+' && !('0' <= t[0] <= '9'))
    ensures ParseInt(s).None?
  {
    var t := TrimStart(s);
    if t != [] {
      assert !HasHexPrefix(t);
      assert DigitValue(t[0], 10).None?;
      assert DigitPrefixLength(t, 10) == 0;
    }
  }
}
