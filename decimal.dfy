/** Decimal digit strings as the backend handles a CIK: Python's
    `str.isdigit`, `str.zfill`, `int()` on a digit string and `str()` of a
    non-negative integer. */
module Decimal {

  predicate IsDigit(c: char) {
    '0' <= c <= '9'
  }

  predicate AllDigits(s: string) {
    forall i :: 0 <= i < |s| ==> IsDigit(s[i])
  }

  /** Python's `str.isdigit()` on ASCII text: false for the empty string. */
  predicate IsDigitString(s: string) {
    |s| > 0 && AllDigits(s)
  }

  function DigitValue(c: char): (d: nat)
    requires IsDigit(c)
    ensures d < 10
  {
    c as int - '0' as int
  }

  function DigitChar(d: nat): (c: char)
    requires d < 10
    ensures IsDigit(c) && DigitValue(c) == d
  {
    ('0' as int + d) as char
  }

  lemma DigitCharOfValue(c: char)
    requires IsDigit(c)
    ensures DigitChar(DigitValue(c)) == c
  {
  }

  /** A run of n characters '0'. */
  function Zeros(n: nat): (z: string)
    ensures |z| == n && AllDigits(z)
    ensures forall i :: 0 <= i < n ==> z[i] == '0'
  {
    seq(n, _ => '0')
  }

  /** Python's `int(s)` on a digit string: the number the digits denote,
      most significant digit first. */
  function Value(s: string): nat
    requires AllDigits(s)
    decreases |s|
  {
    if |s| == 0 then 0 else 10 * Value(s[..|s| - 1]) + DigitValue(s[|s| - 1])
  }

  /** Python's `str(n)` for a non-negative integer: decimal digits with no
      leading zero, except for 0 itself, which is "0". */
  function NatToDecimal(n: nat): (r: string)
    ensures IsDigitString(r)
    ensures r[0] == '0' ==> n == 0 && r == "0"
    decreases n
  {
    if n < 10 then [DigitChar(n)] else NatToDecimal(n / 10) + [DigitChar(n % 10)]
  }

  /** Python's `s.zfill(width)`: pad on the left with '0' up to `width`
      characters, keeping a leading sign in front of the padding; a string
      already that long is returned unchanged. */
  function ZFill(s: string, width: nat): (r: string)
    ensures |r| == if |s| >= width then |s| else width
    ensures |s| >= width ==> r == s
    ensures |s| > 0 && (s[0] == '+' || s[0] == '-') ==> r[0] == s[0]
  {
    if |s| >= width then s
    else if |s| > 0 && (s[0] == '+' || s[0] == '-') then [s[0]] + Zeros(width - |s|) + s[1..]
    else Zeros(width - |s|) + s
  }

  /** The digit string with its leading '0' characters removed. */
  function StripLeadingZeros(s: string): (r: string)
    ensures |r| <= |s| && s == Zeros(|s| - |r|) + r
    ensures r == [] || r[0] != '0'
  {
    if |s| > 0 && s[0] == '0' then StripLeadingZeros(s[1..]) else s
  }

  /** Appending a digit multiplies by ten and adds the digit. */
  lemma ValueAppend(s: string, c: char)
    requires AllDigits(s) && IsDigit(c)
    ensures AllDigits(s + [c]) && Value(s + [c]) == 10 * Value(s) + DigitValue(c)
  {
    assert (s + [c])[..|s|] == s;
  }

  lemma {:induction false} ZerosValue(n: nat)
    ensures Value(Zeros(n)) == 0
  {
    if n > 0 {
      assert Zeros(n)[..n - 1] == Zeros(n - 1);
      ZerosValue(n - 1);
    }
  }

  /** Leading zeros do not change the value of a digit string. */
  lemma {:induction false} LeadingZerosValue(k: nat, s: string)
    requires AllDigits(s)
    ensures AllDigits(Zeros(k) + s) && Value(Zeros(k) + s) == Value(s)
  {
    var t := Zeros(k) + s;
    if |s| == 0 {
      assert t == Zeros(k);
      ZerosValue(k);
    } else {
      assert t[..|t| - 1] == Zeros(k) + s[..|s| - 1];
      LeadingZerosValue(k, s[..|s| - 1]);
    }
  }

  /** `int(str(n)) == n`. */
  lemma {:induction false} ValueOfDecimal(n: nat)
    ensures Value(NatToDecimal(n)) == n
  {
    if n >= 10 {
      ValueOfDecimal(n / 10);
      ValueAppend(NatToDecimal(n / 10), DigitChar(n % 10));
    } else {
      assert NatToDecimal(n)[..0] == [];
    }
  }

  /** A digit string whose first digit is not '0' denotes a positive number. */
  lemma {:induction false} PositiveValue(s: string)
    requires IsDigitString(s) && s[0] != '0'
    ensures Value(s) >= 1
  {
    if |s| > 1 {
      PositiveValue(s[..|s| - 1]);
    } else {
      assert s[..0] == [];
    }
  }

  /** `str(int(t)) == t` for a digit string with no leading zero. */
  lemma {:induction false} DecimalOfValue(t: string)
    requires IsDigitString(t) && t[0] != '0'
    ensures NatToDecimal(Value(t)) == t
  {
    var u, c := t[..|t| - 1], t[|t| - 1];
    assert t == u + [c];
    DigitCharOfValue(c);
    if |u| == 0 {
      assert Value(t) == DigitValue(c);
    } else {
      PositiveValue(u);
      DecimalOfValue(u);
      var v := Value(t);
      assert v == 10 * Value(u) + DigitValue(c);
      assert v / 10 == Value(u) && v % 10 == DigitValue(c);
    }
  }

  /** `str(int(s))` is `s` without its leading zeros, or "0" when `s` is all
      zeros. */
  lemma CanonicalDecimal(s: string)
    requires IsDigitString(s)
    ensures var stripped := StripLeadingZeros(s);
      NatToDecimal(Value(s)) == if stripped == [] then "0" else stripped
  {
    var r := StripLeadingZeros(s);
    var k := |s| - |r|;
    assert AllDigits(r) by {
      forall i | 0 <= i < |r| ensures IsDigit(r[i]) {
        assert r[i] == s[k + i];
      }
    }
    LeadingZerosValue(k, r);
    assert Value(s) == Value(r);
    if r != [] {
      DecimalOfValue(r);
    }
  }

  /** Two digit strings of the same width denoting the same number are equal:
      fixed-width decimal notation is unique. */
  lemma {:induction false} SameWidthSameValue(a: string, b: string)
    requires AllDigits(a) && AllDigits(b) && |a| == |b|
    requires Value(a) == Value(b)
    ensures a == b
  {
    if |a| > 0 {
      var n := |a| - 1;
      assert DigitValue(a[n]) == DigitValue(b[n]);
      SameWidthSameValue(a[..n], b[..n]);
      assert a == a[..n] + [a[n]] && b == b[..n] + [b[n]];
    }
  }

  /** zfill on a digit string: the result is the string behind enough zeros
      to reach the width, still all digits, with the same value, and padding
      it again changes nothing. */
  lemma ZFillDigits(s: string, width: nat)
    requires AllDigits(s)
    ensures var r := ZFill(s, width);
      && r == Zeros(|r| - |s|) + s
      && AllDigits(r)
      && Value(r) == Value(s)
      && ZFill(r, width) == r
  {
    var r := ZFill(s, width);
    if |s| >= width {
      assert r == Zeros(0) + s;
    } else {
      assert r == Zeros(width - |s|) + s;
    }
    LeadingZerosValue(|r| - |s|, s);
  }
}
