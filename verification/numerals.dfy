/**
  Numbers as the recorder's languages print and read them: decimal rendering
  (`Long.toString`, `Number.prototype.toString` on integers), JavaScript's
  `parseInt` without a radix, and the truncating `/` and `%` of Kotlin and
  Java on `Long`.
 */
module Numerals {
  import opened Common

  // ---------------------------------------------------------------------------
  // Digits
  // ---------------------------------------------------------------------------

  predicate IsDigit(c: char) {
    '0' <= c <= '9'
  }

  predicate IsHexDigit(c: char) {
    IsDigit(c) || 'a' <= c <= 'f' || 'A' <= c <= 'F'
  }

  /** A digit of the given radix (10 or 16). */
  predicate IsRadixDigit(c: char, radix: nat) {
    if radix == 16 then IsHexDigit(c) else IsDigit(c)
  }

  predicate AllRadixDigits(s: string, radix: nat) {
    forall i :: 0 <= i < |s| ==> IsRadixDigit(s[i], radix)
  }

  function DigitValue(c: char, radix: nat): (d: nat)
    requires IsRadixDigit(c, radix)
    ensures d < (if radix == 16 then 16 else 10)
  {
    if IsDigit(c) then c as int - '0' as int
    else if 'a' <= c <= 'f' then c as int - 'a' as int + 10
    else c as int - 'A' as int + 10
  }

  function DigitChar(d: nat): (c: char)
    requires d < 10
    ensures IsDigit(c) && DigitValue(c, 10) == d
  {
    ('0' as int + d) as char
  }

  /** The value of a digit string read most significant digit first. */
  function ValueIn(s: string, radix: nat): nat
    requires AllRadixDigits(s, radix)
  {
    if s == [] then 0
    else ValueIn(s[..|s| - 1], radix) * (if radix == 16 then 16 else 10) + DigitValue(s[|s| - 1], radix)
  }

  // ---------------------------------------------------------------------------
  // Rendering
  // ---------------------------------------------------------------------------

  /** Decimal rendering of a natural number, without leading zeros. */
  function NatToString(n: nat): (s: string)
    ensures |s| >= 1 && AllRadixDigits(s, 10)
    ensures s[0] == '0' <==> n == 0
    ensures n == 0 ==> s == "0"
    decreases n
  {
    if n < 10 then [DigitChar(n)] else NatToString(n / 10) + [DigitChar(n % 10)]
  }

  /** Decimal rendering of an integer, with a leading `-` when negative. */
  function IntToString(i: int): (s: string)
    ensures |s| >= 1
    ensures i >= 0 ==> AllRadixDigits(s, 10)
    ensures i < 0 ==> s[0] == '-' && |s| >= 2 && AllRadixDigits(s[1..], 10)
  {
    if i < 0 then "-" + NatToString(-i) else NatToString(i)
  }

  /** Reading back a rendered natural number yields the number. */
  lemma {:induction false} NatToStringRoundTrip(n: nat)
    ensures ValueIn(NatToString(n), 10) == n
    decreases n
  {
    if n >= 10 {
      var s := NatToString(n);
      NatToStringRoundTrip(n / 10);
      assert s[..|s| - 1] == NatToString(n / 10);
    }
  }

  /** Distinct numbers render differently, so a rendering identifies its number. */
  lemma NatToStringInjective(m: nat, n: nat)
    requires NatToString(m) == NatToString(n)
    ensures m == n
  {
    NatToStringRoundTrip(m);
    NatToStringRoundTrip(n);
  }

  // ---------------------------------------------------------------------------
  // JavaScript parseInt(string) without a radix argument
  // ---------------------------------------------------------------------------

  /** The longest prefix of `s` made of digits of the radix. */
  function DigitPrefix(s: string, radix: nat): (p: string)
    ensures |p| <= |s| && p == s[..|p|]
    ensures AllRadixDigits(p, radix)
    ensures |p| == |s| || !IsRadixDigit(s[|p|], radix)
  {
    if s != [] && IsRadixDigit(s[0], radix) then
      var rest := DigitPrefix(s[1..], radix);
      assert [s[0]] + rest == s[..1 + |rest|];
      [s[0]] + rest
    else
      []
  }

  predicate HasHexPrefix(s: string) {
    |s| >= 2 && s[0] == '0' && (s[1] == 'x' || s[1] == 'X')
  }

  /** `parseInt(s)`: skip leading white space, read an optional sign, switch
      to radix 16 after `0x`/`0X`, then read the longest run of digits;
      `None` is `NaN`, returned when that run is empty. */
  function ParseInt(s: string): (r: Option<int>)
    ensures r.Some? ==> exists i :: 0 <= i < |s| && IsHexDigit(s[i])
  {
    var t := TrimStart(s);
    var sign := if t != [] && t[0] == '-' then -1 else 1;
    var u := if t != [] && (t[0] == '-' || t[0] == '+') then t[1..] else t;
    var radix := if HasHexPrefix(u) then 16 else 10;
    var v := if radix == 16 then u[2..] else u;
    var z := DigitPrefix(v, radix);
    if z == [] then None
    else
      assert s[|s| - |t| + (|t| - |u|) + (|u| - |v|)] == z[0];
      Some(sign * ValueIn(z, radix))
  }

  /** `parseInt` reads back every rendered natural number. */
  lemma ParseIntNatToString(n: nat)
    ensures ParseInt(NatToString(n)) == Some(n)
  {
    var s := NatToString(n);
    assert TrimStart(s) == s by {
      assert !IsWhitespace(s[0]);
    }
    assert !HasHexPrefix(s);
    assert DigitPrefix(s, 10) == s;
    NatToStringRoundTrip(n);
  }

  /** The digit run of a string that starts with digits and then a non-digit is
      exactly those digits. */
  lemma {:induction false} DigitPrefixOfDigits(digits: string, tail: string)
    requires AllRadixDigits(digits, 10)
    requires tail == [] || !IsDigit(tail[0])
    ensures DigitPrefix(digits + tail, 10) == digits
    decreases |digits|
  {
    if digits != [] {
      assert (digits + tail)[1..] == digits[1..] + tail;
      DigitPrefixOfDigits(digits[1..], tail);
      assert [digits[0]] + digits[1..] == digits;
    }
  }

  /** Digits not followed by more digits are read completely, whatever follows:
      `parseInt("12abc")` is 12. */
  lemma ParseIntStopsAtNonDigit(digits: string, tail: string)
    requires |digits| >= 1 && AllRadixDigits(digits, 10) && digits[0] != '0'
    requires tail == [] || !IsDigit(tail[0])
    ensures ParseInt(digits + tail) == Some(ValueIn(digits, 10))
  {
    var s := digits + tail;
    assert s[0] == digits[0];
    assert !IsWhitespace(s[0]);
    assert TrimStart(s) == s;
    assert !(s[0] == '-' || s[0] == '+');
    assert !HasHexPrefix(s) by {
      if |digits| >= 2 { assert s[1] == digits[1]; }
    }
    DigitPrefixOfDigits(digits, tail);
  }

  // ---------------------------------------------------------------------------
  // Kotlin / Java `Long` division, which truncates toward zero
  // ---------------------------------------------------------------------------

  /** `a / b` on `Long` for a positive divisor. */
  function TruncDiv(a: int, b: int): (q: int)
    requires b > 0
    ensures a >= 0 ==> q >= 0 && q * b <= a < q * b + b
    ensures a < 0 ==> q <= 0 && q * b - b < a <= q * b
  {
    if a >= 0 then a / b else -((-a) / b)
  }

  /** `a % b` on `Long` for a positive divisor: the remainder takes the sign of `a`. */
  function TruncRem(a: int, b: int): (r: int)
    requires b > 0
    ensures a == TruncDiv(a, b) * b + r
    ensures a >= 0 ==> 0 <= r < b
    ensures a < 0 ==> -b < r <= 0
  {
    a - TruncDiv(a, b) * b
  }

  /** Truncating division by a positive divisor is monotone. */
  lemma TruncDivMonotone(a1: int, a2: int, b: int)
    requires b > 0 && a1 <= a2
    ensures TruncDiv(a1, b) <= TruncDiv(a2, b)
  {
    var q1, q2 := TruncDiv(a1, b), TruncDiv(a2, b);
    assert (q1 - q2) * b == q1 * b - q2 * b;
    if a1 >= 0 {
      MultipleBelow(q1 - q2, b, a2 - q2 * b);
    } else if a2 < 0 {
      MultipleBelow(q1 - q2, b, b - 1);
    }
  }

  /** If `d` copies of `b` fit below `c < b`, then `d` is at most zero. */
  lemma MultipleBelow(d: int, b: int, c: int)
    requires b > 0 && d * b <= c < b
    ensures d <= 0
  {
  }
}
