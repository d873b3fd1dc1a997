/**
  The two JavaScript number-to-text conversions the calculator relies on,
  each paired with a reader that takes its output back to a number:

  - `Number.prototype.toFixed(f)` (ECMAScript, section 21.1.3.3): the integer
    `n` nearest to `|x| * 10^f` (the larger one on a tie), written with a decimal
    point `f` digits from the right and a leading "-" when `x < 0`;
  - `Number.prototype.toLocaleString()` in the en-US locale, for integers:
    digits grouped in threes by commas, a leading "-" for negative values.
 */
module NumberFormat {
  import opened Wrappers
  import opened Decimal

  // ---------------------------------------------------------------------------
  // toFixed
  // ---------------------------------------------------------------------------

  /** `10^f` as a real number. */
  function Scale(f: nat): (p: real)
    ensures p >= 1.0
  {
    Pow10(f) as real
  }

  /** The integer nearest to `y`, the larger one when two are equally near. */
  function RoundHalfUp(y: real): (n: nat)
    requires y >= 0.0
    ensures n as real - 0.5 <= y < n as real + 0.5
  {
    (y + 0.5).Floor
  }

  /**
    Reads an unsigned decimal with exactly `f` digits after the point (and no
    point at all when `f == 0`) and at least one digit before it. The result is
    the number of units of `10^-f` the text denotes: "66.67" read with `f == 2`
    gives 6667.
   */
  function ParseUnsignedFixed(s: string, f: nat): Option<nat> {
    if f == 0 then
      if 1 <= |s| && AllDigits(s) then Some(StringToNat(s)) else None
    else if |s| >= f + 2 && s[|s| - f - 1] == '.' && AllDigits(WithoutPoint(s, f)) then
      Some(StringToNat(WithoutPoint(s, f)))
    else
      None
  }

  /** `s` without the character `f + 1` places from its end. */
  function WithoutPoint(s: string, f: nat): string
    requires |s| >= f + 1
  {
    s[..|s| - f - 1] + s[|s| - f..]
  }

  /** As `ParseUnsignedFixed`, with an optional leading minus sign. */
  function ParseFixed(s: string, f: nat): Option<int> {
    if 1 <= |s| && s[0] == '-' then
      match ParseUnsignedFixed(s[1..], f)
      case Some(m) => Some(0 - m as int)
      case None => None
    else
      match ParseUnsignedFixed(s, f)
      case Some(m) => Some(m as int)
      case None => None
  }

  function Abs(x: real): real {
    if x < 0.0 then -x else x
  }

  /**
    `n` units of `10^-f` is what `x.toFixed(f)` denotes: `|n|` is the integer
    nearest to `|x| * 10^f` (the larger one on a tie) and `n` has the sign of `x`.
   */
  predicate NearestFixed(n: int, x: real, f: nat) {
    && Abs(n as real) - 0.5 <= Abs(x) * Scale(f) < Abs(n as real) + 0.5
    && (x >= 0.0 ==> n >= 0)
    && (x < 0.0 ==> n <= 0)
  }

  /**
    The unsigned text `toFixed` writes: an integer part with no leading zero
    unless it is "0", then, when `f > 0`, a point and exactly `f` digits.
   */
  predicate FixedForm(s: string, f: nat) {
    if f == 0 then Canonical(s)
    else |s| >= f + 2 && s[|s| - f - 1] == '.' && Canonical(s[..|s| - f - 1]) && AllDigits(s[|s| - f..])
  }

  /** `FixedForm` after an optional leading minus sign. */
  predicate SignedFixedForm(s: string, f: nat) {
    if 1 <= |s| && s[0] == '-' then FixedForm(s[1..], f) else FixedForm(s, f)
  }

  /** Left-pads a digit string with zeros up to `width` characters. */
  function PadLeft(m: string, width: nat): (r: string)
    requires AllDigits(m)
    ensures |r| >= width && |r| >= |m| && AllDigits(r)
    ensures |m| < width ==> |r| == width
    ensures |m| >= width ==> r == m
    ensures StringToNat(r) == StringToNat(m)
    ensures |m| >= 1 && IsDigit(m[0]) ==> IsDigit(r[0])
  {
    if |m| >= width then m
    else
      ZeroPaddingKeepsValue(width - |m|, m);
      Zeros(width - |m|) + m
  }

  /**
    Steps 10.b-10.c of `toFixed`: the digits of an integer with a decimal point
    inserted `f` digits from the right, zero-padded so that a digit precedes it.
   */
  function PlaceDecimalPoint(m: string, f: nat): (s: string)
    requires Canonical(m)
    ensures 1 <= |s| && IsDigit(s[0])
    ensures FixedForm(s, f)
    ensures ParseUnsignedFixed(s, f) == Some(StringToNat(m))
  {
    if f == 0 then m
    else
      var padded := PadLeft(m, f + 1);
      var a, b := padded[..|padded| - f], padded[|padded| - f..];
      assert a + b == padded;
      PaddedHeadIsCanonical(m, f);
      PointSplitParses(a, b);
      a + "." + b
  }

  /** After padding to `f + 1` digits, what precedes the last `f` digits has no leading zero. */
  lemma PaddedHeadIsCanonical(m: string, f: nat)
    requires Canonical(m)
    ensures var padded := PadLeft(m, f + 1); Canonical(padded[..|padded| - f])
  {
    var padded := PadLeft(m, f + 1);
    if |m| >= f + 1 {
      assert padded[..|padded| - f][0] == m[0];
    }
  }

  lemma PointSplitParses(a: string, b: string)
    requires Canonical(a) && 1 <= |b| && AllDigits(b)
    ensures FixedForm(a + "." + b, |b|)
    ensures ParseUnsignedFixed(a + "." + b, |b|) == Some(StringToNat(a + b))
  {
    var s := a + "." + b;
    assert s[..|a|] == a && s[|a|] == '.' && s[|a| + 1..] == b;
    SplitParses(a, b, s);
  }

  lemma SplitParses(a: string, b: string, s: string)
    requires 1 <= |a| && AllDigits(a) && 1 <= |b| && AllDigits(b)
    requires |s| == |a| + |b| + 1 && s[..|a|] == a && s[|a|] == '.' && s[|a| + 1..] == b
    ensures ParseUnsignedFixed(s, |b|) == Some(StringToNat(a + b))
  {
    assert WithoutPoint(s, |b|) == a + b;
    AllDigitsAppend(a, b);
  }

  lemma SignedParses(body: string, f: nat)
    requires 1 <= |body| && IsDigit(body[0]) && ParseUnsignedFixed(body, f).Some?
    ensures ParseFixed(body, f) == Some(ParseUnsignedFixed(body, f).value as int)
    ensures ParseFixed("-" + body, f) == Some(0 - ParseUnsignedFixed(body, f).value as int)
  {
    assert ("-" + body)[1..] == body;
  }

  /** `x.toFixed(f)` for `|x| < 10^21`. */
  function ToFixed(x: real, f: nat): (s: string)
    ensures 1 <= |s| && (s[0] == '-' <==> x < 0.0)
    ensures SignedFixedForm(s, f)
    ensures ParseFixed(s, f).Some? && NearestFixed(ParseFixed(s, f).value, x, f)
  {
    var n := RoundHalfUp(Abs(x) * Scale(f));
    StringToNatOfNatToString(n);
    var body := PlaceDecimalPoint(NatToString(n), f);
    SignedParses(body, f);
    assert ("-" + body)[1..] == body;
    if x < 0.0 then "-" + body else body
  }

  /** The text `x.toFixed(f)` is within half a unit in its last place of `x`. */
  lemma FixedError(n: int, x: real, f: nat)
    requires NearestFixed(n, x, f)
    ensures Abs(n as real - x * Scale(f)) <= 0.5
  {
    var p := Scale(f);
    if x < 0.0 {
      assert Abs(x) * p == -(x * p);
    } else {
      assert Abs(x) * p == x * p;
    }
  }

  /** At most one integer is the `toFixed` reading of `x`. */
  lemma NearestIsUnique(n1: int, n2: int, x: real, f: nat)
    requires NearestFixed(n1, x, f) && NearestFixed(n2, x, f)
    ensures n1 == n2
  {
    var a1, a2 := if n1 < 0 then -n1 else n1, if n2 < 0 then -n2 else n2;
    assert Abs(n1 as real) == a1 as real && Abs(n2 as real) == a2 as real;
    assert a1 == a2;
  }

  /** Two texts in `FixedForm` that read as the same number are the same text. */
  lemma FixedFormIsUnique(s1: string, s2: string, f: nat)
    requires FixedForm(s1, f) && FixedForm(s2, f)
    requires ParseUnsignedFixed(s1, f).Some? && ParseUnsignedFixed(s1, f) == ParseUnsignedFixed(s2, f)
    ensures s1 == s2
  {
    if f == 0 {
      CanonicalIsUnique(s1, s2);
    } else {
      var i1, r1 := s1[..|s1| - f - 1], s1[|s1| - f..];
      var i2, r2 := s2[..|s2| - f - 1], s2[|s2| - f..];
      assert WithoutPoint(s1, f) == i1 + r1 && WithoutPoint(s2, f) == i2 + r2;
      StringToNatAppend(i1, r1);
      StringToNatAppend(i2, r2);
      DivisionIsUnique(StringToNat(i1), StringToNat(r1), StringToNat(i2), StringToNat(r2), Pow10(f));
      CanonicalIsUnique(i1, i2);
      DigitsInjective(r1, r2);
      assert s1 == i1 + "." + r1 && s2 == i2 + "." + r2;
    }
  }

  /**
    The contract of `ToFixed` admits exactly one text: a text in signed fixed
    form, signed as `x` is, that reads as the integer nearest to `x * 10^f` is
    the one `ToFixed` returns.
   */
  lemma ToFixedIsDetermined(s: string, x: real, f: nat)
    requires 1 <= |s| && (s[0] == '-' <==> x < 0.0) && SignedFixedForm(s, f)
    requires ParseFixed(s, f).Some? && NearestFixed(ParseFixed(s, f).value, x, f)
    ensures s == ToFixed(x, f)
  {
    var t := ToFixed(x, f);
    NearestIsUnique(ParseFixed(s, f).value, ParseFixed(t, f).value, x, f);
    if x < 0.0 {
      FixedFormIsUnique(s[1..], t[1..], f);
      assert s == [s[0]] + s[1..] && t == [t[0]] + t[1..];
    } else {
      FixedFormIsUnique(s, t, f);
    }
  }

  // ---------------------------------------------------------------------------
  // toLocaleString (en-US, integers)
  // ---------------------------------------------------------------------------

  /** A group of exactly three digits, zero-padded. */
  function ThreeDigits(k: nat): (s: string)
    requires k < 1000
    ensures |s| == 3 && AllDigits(s) && StringToNat(s) == k
  {
    var s := [DigitChar(k / 100), DigitChar(k / 10 % 10), DigitChar(k % 10)];
    assert s[..2][..1] == [DigitChar(k / 100)];
    assert s[..2] == [DigitChar(k / 100), DigitChar(k / 10 % 10)];
    assert StringToNat([DigitChar(k / 100)]) == k / 100;
    assert StringToNat(s[..2]) == k / 100 * 10 + k / 10 % 10 == k / 10;
    s
  }

  /** Comma grouping: a leading group of one to three digits, then groups of exactly three. */
  predicate WellGrouped(s: string)
    decreases |s|
  {
    if |s| <= 3 then 1 <= |s| && AllDigits(s)
    else 5 <= |s| && s[|s| - 4] == ',' && AllDigits(s[|s| - 3..]) && WellGrouped(s[..|s| - 4])
  }

  /** Comma-grouped digits as en-US writes them: no leading zero unless the text is "0". */
  predicate GroupedForm(s: string) {
    WellGrouped(s) && 1 <= |s| && (s[0] == '0' ==> s == "0")
  }

  /** The en-US text of a natural number. */
  function GroupThousands(n: nat): (s: string)
    ensures WellGrouped(s) && IsDigit(s[0])
    ensures GroupedForm(s)
    ensures s[0] == '0' ==> n == 0
    decreases n
  {
    if n < 1000 then
      NatToStringLength(n, 3);
      var s := NatToString(n);
      assert |s| == 1 ==> s == [s[0]];
      s
    else
      var s := GroupThousands(n / 1000) + "," + ThreeDigits(n % 1000);
      assert s[..|s| - 4] == GroupThousands(n / 1000);
      assert s[|s| - 3..] == ThreeDigits(n % 1000);
      s
  }

  /** Reads comma-grouped digits; defined exactly on the well-grouped strings. */
  function ParseGrouped(s: string): (r: Option<nat>)
    ensures r.Some? <==> WellGrouped(s)
    decreases |s|
  {
    if |s| <= 3 then
      if 1 <= |s| && AllDigits(s) then Some(StringToNat(s)) else None
    else if 5 <= |s| && s[|s| - 4] == ',' && AllDigits(s[|s| - 3..]) then
      match ParseGrouped(s[..|s| - 4])
      case Some(high) => Some(high * 1000 + StringToNat(s[|s| - 3..]))
      case None => None
    else
      None
  }

  lemma {:induction false} ParseGroupedOfGroupThousands(n: nat)
    ensures ParseGrouped(GroupThousands(n)) == Some(n)
    decreases n
  {
    if n < 1000 {
      StringToNatOfNatToString(n);
    } else {
      var s := GroupThousands(n);
      assert s[..|s| - 4] == GroupThousands(n / 1000);
      assert s[|s| - 3..] == ThreeDigits(n % 1000);
      ParseGroupedOfGroupThousands(n / 1000);
    }
  }

  /** An integer's en-US text: grouped digits, after a minus sign exactly when the value is negative. */
  predicate LocaleForm(s: string) {
    if 1 <= |s| && s[0] == '-' then GroupedForm(s[1..]) && s[1..] != "0" else GroupedForm(s)
  }

  /** `v.toLocaleString()` in the en-US locale, for an integer `v`. */
  function IntToLocaleString(v: int): (s: string)
    ensures 1 <= |s| && (s[0] == '-' <==> v < 0)
    ensures LocaleForm(s)
    ensures ParseLocaleInt(s) == Some(v)
  {
    ParseGroupedOfGroupThousands(if v < 0 then -v else v);
    if v < 0 then
      var s := "-" + GroupThousands(-v);
      assert s[1..] == GroupThousands(-v);
      s
    else
      GroupThousands(v)
  }

  /** Reads an optionally negative comma-grouped integer. */
  function ParseLocaleInt(s: string): Option<int> {
    if 1 <= |s| && s[0] == '-' then
      match ParseGrouped(s[1..])
      case Some(m) => Some(0 - m as int)
      case None => None
    else
      match ParseGrouped(s)
      case Some(m) => Some(m)
      case None => None
  }

  /** A text in `GroupedForm` is the grouped text of the number it reads as. */
  lemma {:induction false} GroupedIsDetermined(s: string, n: nat)
    requires GroupedForm(s) && ParseGrouped(s) == Some(n)
    ensures s == GroupThousands(n)
    decreases |s|
  {
    if |s| <= 3 {
      OneGroupIsDetermined(s, n);
    } else {
      var hi, g := s[..|s| - 4], s[|s| - 3..];
      var high := ParseGrouped(hi).value;
      assert hi[0] == s[0];
      GroupedIsDetermined(hi, high);
      assert GroupThousands(0) == "0";
      assert n == high * 1000 + StringToNat(g);
      LastGroupIsDetermined(hi, g, high);
      assert s == hi + "," + g;
    }
  }

  /** The base case of `GroupedIsDetermined`: a single group of at most three digits. */
  lemma OneGroupIsDetermined(s: string, n: nat)
    requires |s| <= 3 && GroupedForm(s) && ParseGrouped(s) == Some(n)
    ensures s == GroupThousands(n)
  {
    Pow10Monotone(|s|, 3);
    StringToNatOfNatToString(n);
    CanonicalIsUnique(s, NatToString(n));
  }

  /** The step of `GroupedIsDetermined`: leading groups of a positive number, then any three digits. */
  lemma LastGroupIsDetermined(hi: string, g: string, high: nat)
    requires hi == GroupThousands(high) && high >= 1 && |g| == 3 && AllDigits(g)
    ensures hi + "," + g == GroupThousands(high * 1000 + StringToNat(g))
  {
    var n := high * 1000 + StringToNat(g);
    assert Pow10(3) == 1000;
    assert n / 1000 == high && n % 1000 == StringToNat(g);
    DigitsInjective(g, ThreeDigits(n % 1000));
  }

  /**
    The contract of `IntToLocaleString` admits exactly one text: a text in
    `LocaleForm` that reads as `v` is the one `IntToLocaleString` returns.
   */
  lemma LocaleIsDetermined(s: string, v: int)
    requires LocaleForm(s) && ParseLocaleInt(s) == Some(v)
    ensures s == IntToLocaleString(v)
  {
    if 1 <= |s| && s[0] == '-' {
      var m := ParseGrouped(s[1..]).value;
      GroupedIsDetermined(s[1..], m);
      assert GroupThousands(0) == "0";
      assert s == "-" + s[1..];
    } else {
      GroupedIsDetermined(s, v);
    }
  }
}
