/**
  Decimal digit strings: the text form of natural numbers that both
  `Number.prototype.toLocaleString` and `Number.prototype.toFixed` build on,
  with the reverse reading of a digit string back into its value.
 */
module Decimal {

  predicate IsDigit(c: char) {
    '0' <= c <= '9'
  }

  predicate AllDigits(s: string) {
    forall i :: 0 <= i < |s| ==> IsDigit(s[i])
  }

  function DigitChar(d: nat): (c: char)
    requires d < 10
    ensures IsDigit(c) && DigitValue(c) == d
  {
    ('0' as int + d) as char
  }

  function DigitValue(c: char): (d: nat)
    requires IsDigit(c)
    ensures d < 10
  {
    c as int - '0' as int
  }

  function Pow10(k: nat): (p: nat)
    ensures p >= 1
  {
    if k == 0 then 1 else 10 * Pow10(k - 1)
  }

  /** A digit string as numbers are written: at least one digit, no leading zero unless it is "0". */
  predicate Canonical(s: string) {
    1 <= |s| && AllDigits(s) && (s[0] == '0' ==> |s| == 1)
  }

  /** The decimal digits of `n`, most significant first, with no leading zero. */
  function NatToString(n: nat): (s: string)
    ensures Canonical(s)
    ensures s[0] == '0' ==> n == 0
    decreases n
  {
    if n < 10 then [DigitChar(n)] else NatToString(n / 10) + [DigitChar(n % 10)]
  }

  /** The value of a digit string, read most significant digit first. */
  function StringToNat(s: string): (n: nat)
    requires AllDigits(s)
    ensures n < Pow10(|s|)
    decreases |s|
  {
    if s == [] then 0 else StringToNat(s[..|s| - 1]) * 10 + DigitValue(s[|s| - 1])
  }

  /** A run of `k` zero digits. */
  function Zeros(k: nat): (z: string)
    ensures |z| == k && AllDigits(z) && StringToNat(z) == 0
  {
    if k == 0 then []
    else
      var z := Zeros(k - 1) + "0";
      assert z[..|z| - 1] == Zeros(k - 1);
      z
  }

  lemma {:induction false} StringToNatOfNatToString(n: nat)
    ensures StringToNat(NatToString(n)) == n
    decreases n
  {
    if n >= 10 {
      var s := NatToString(n);
      assert s[..|s| - 1] == NatToString(n / 10);
      StringToNatOfNatToString(n / 10);
    }
  }

  lemma AllDigitsAppend(a: string, b: string)
    requires AllDigits(a) && AllDigits(b)
    ensures AllDigits(a + b)
  {
  }

  /** Reading a concatenation: the left part is shifted by the length of the right part. */
  lemma {:induction false} StringToNatAppend(a: string, b: string)
    requires AllDigits(a) && AllDigits(b)
    ensures AllDigits(a + b)
    ensures StringToNat(a + b) == StringToNat(a) * Pow10(|b|) + StringToNat(b)
    decreases |b|
  {
    AllDigitsAppend(a, b);
    if b == [] {
      assert a + b == a;
    } else {
      var ab, b' := a + b, b[..|b| - 1];
      AllDigitsAppend(a, b');
      assert ab[..|ab| - 1] == a + b';
      assert ab[|ab| - 1] == b[|b| - 1];
      var d := DigitValue(b[|b| - 1]);
      assert StringToNat(ab) == StringToNat(a + b') * 10 + d;
      assert StringToNat(b) == StringToNat(b') * 10 + d;
      StringToNatAppend(a, b');
      var x, p, y := StringToNat(a), Pow10(|b'|), StringToNat(b');
      assert Pow10(|b|) == p * 10;
      ShiftByTen(x, p, y, d);
    }
  }

  lemma ShiftByTen(x: nat, p: nat, y: nat, d: nat)
    ensures (x * p + y) * 10 + d == x * (p * 10) + (y * 10 + d)
  {
  }

  /** Leading zeros do not change the value of a digit string. */
  lemma ZeroPaddingKeepsValue(k: nat, m: string)
    requires AllDigits(m)
    ensures AllDigits(Zeros(k) + m) && StringToNat(Zeros(k) + m) == StringToNat(m)
  {
    StringToNatAppend(Zeros(k), m);
  }

  /** A number below `10^k` takes at most `k` digits. */
  lemma {:induction false} NatToStringLength(n: nat, k: nat)
    requires 1 <= k && n < Pow10(k)
    ensures |NatToString(n)| <= k
    decreases k
  {
    if n >= 10 {
      assert k >= 2;
      assert n / 10 < Pow10(k - 1);
      NatToStringLength(n / 10, k - 1);
    }
  }

  lemma {:induction false} Pow10Monotone(i: nat, j: nat)
    ensures i <= j ==> Pow10(i) <= Pow10(j)
    decreases j
  {
    if i < j {
      Pow10Monotone(i, j - 1);
    }
  }

  /** A digit string whose leading digit is not zero is at least `10^(|s| - 1)`. */
  lemma {:induction false} LeadingDigitBound(s: string)
    requires 1 <= |s| && AllDigits(s)
    ensures s[0] != '0' ==> Pow10(|s| - 1) <= StringToNat(s)
    decreases |s|
  {
    if |s| == 1 {
      assert s[..0] == [];
    } else {
      var s' := s[..|s| - 1];
      assert s'[0] == s[0];
      LeadingDigitBound(s');
    }
  }

  /** The last digit of a digit string is its value modulo 10; the rest is its value divided by 10. */
  lemma LastDigit(a: string)
    requires AllDigits(a) && a != []
    ensures StringToNat(a[..|a| - 1]) == StringToNat(a) / 10
    ensures DigitValue(a[|a| - 1]) == StringToNat(a) % 10
  {
  }

  /** Two digit strings of the same length with the same value are the same string. */
  lemma {:induction false} DigitsInjective(a: string, b: string)
    requires AllDigits(a) && AllDigits(b) && |a| == |b|
    requires StringToNat(a) == StringToNat(b)
    ensures a == b
    decreases |a|
  {
    if a != [] {
      var a', b' := a[..|a| - 1], b[..|b| - 1];
      LastDigit(a);
      LastDigit(b);
      DigitsInjective(a', b');
      assert a[|a| - 1] == b[|b| - 1];
      assert a == a' + [a[|a| - 1]] && b == b' + [b[|b| - 1]];
    }
  }

  /** Canonical digit strings with the same value are the same string. */
  lemma CanonicalIsUnique(a: string, b: string)
    requires Canonical(a) && Canonical(b) && StringToNat(a) == StringToNat(b)
    ensures a == b
  {
    LeadingDigitBound(a);
    LeadingDigitBound(b);
    Pow10Monotone(|a|, |b| - 1);
    Pow10Monotone(|b|, |a| - 1);
    assert |a| == |b|;
    DigitsInjective(a, b);
  }

  /** A non-zero multiple of `p` is at least `p` away from zero. */
  lemma MultipleBound(d: int, p: nat)
    ensures d >= 1 ==> d * p >= p
    ensures d <= -1 ==> d * p + p <= 0
  {
    if d >= 1 {
      assert d * p == (d - 1) * p + p;
    } else if d <= -1 {
      assert d * p == (d + 1) * p - p;
    }
  }

  /** Quotient and remainder by `p` are determined by the dividend. */
  lemma DivisionIsUnique(q1: nat, r1: nat, q2: nat, r2: nat, p: nat)
    requires r1 < p && r2 < p && q1 * p + r1 == q2 * p + r2
    ensures q1 == q2 && r1 == r2
  {
    var d := q1 - q2;
    assert d * p == r2 - r1;
    MultipleBound(d, p);
  }
}
