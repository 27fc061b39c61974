/** Decimal spellings of integers and of `numeric` values, and their inverses. */
module DecimalText {
  import opened Text

  function Digit(d: nat): (c: char)
    requires d < 10
    ensures IsDigit(c) && DigitValue(c) == d
  {
    '0' + d as char
  }

  function DigitValue(c: char): (d: nat)
    requires IsDigit(c)
    ensures d < 10
  {
    (c - '0') as nat
  }

  /** `bigint.toString()`, `bigint::text` */
  function NatText(n: nat): string {
    if n < 10 then [Digit(n)] else NatText(n / 10) + [Digit(n % 10)]
  }

  function NatValue(s: string): nat
    requires AllDigits(s)
  {
    if s == "" then 0 else NatValue(s[..|s| - 1]) * 10 + DigitValue(s[|s| - 1])
  }

  /** A non-empty string of digits without a superfluous leading zero: `0|[1-9]\d*`. */
  predicate CanonicalNat(s: string) {
    s != "" && AllDigits(s) && (s[0] == '0' ==> |s| == 1)
  }

  lemma {:induction false} NatTextIsCanonical(n: nat)
    ensures CanonicalNat(NatText(n)) && (n > 0 ==> NatText(n)[0] != '0')
    ensures NatValue(NatText(n)) == n
  {
    if n >= 10 {
      NatTextIsCanonical(n / 10);
      var s := NatText(n);
      assert s[..|s| - 1] == NatText(n / 10);
    }
  }

  lemma {:induction false} CanonicalIsNatText(s: string)
    requires CanonicalNat(s)
    ensures NatText(NatValue(s)) == s
    ensures |s| > 1 ==> NatValue(s) >= 10
    decreases |s|
  {
    if |s| == 1 {
      assert s == [Digit(DigitValue(s[0]))];
    } else {
      var t := s[..|s| - 1];
      assert CanonicalNat(t);
      CanonicalIsNatText(t);
      assert |t| == 1 ==> NatValue(t) >= 1 by {
        if |t| == 1 { assert t[..0] == "" && t[0] != '0'; }
      }
      assert s == t + [s[|s| - 1]];
    }
  }

  /** At least w digits, padded with zeros: `%0*d`, `padStart(w, "0")`. */
  function Padded(n: nat, w: nat): string
    decreases n + w
  {
    if n < 10 && w <= 1 then [Digit(n)] else Padded(n / 10, if w > 0 then w - 1 else 0) + [Digit(n % 10)]
  }

  lemma {:induction false} PaddedValue(n: nat, w: nat)
    ensures AllDigits(Padded(n, w)) && Padded(n, w) != "" && NatValue(Padded(n, w)) == n
    decreases n + w
  {
    var s := Padded(n, w);
    if n < 10 && w <= 1 {
      assert s[..|s| - 1] == "";
    } else {
      PaddedValue(n / 10, if w > 0 then w - 1 else 0);
      assert s[..|s| - 1] == Padded(n / 10, if w > 0 then w - 1 else 0);
    }
  }

  lemma PaddedIsInjective(m: nat, n: nat, w: nat)
    requires Padded(m, w) == Padded(n, w)
    ensures m == n
  {
    PaddedValue(m, w);
    PaddedValue(n, w);
  }

  /** The text of a signed integer. */
  function IntText(n: int): string {
    if n < 0 then "-" + NatText(-n) else NatText(n)
  }

  lemma IntTextIsInjective(m: int, n: int)
    requires IntText(m) == IntText(n)
    ensures m == n
  {
    NatTextIsCanonical(if m < 0 then -m else m);
    NatTextIsCanonical(if n < 0 then -n else n);
    assert (m < 0) == (IntText(m)[0] == '-') && (n < 0) == (IntText(n)[0] == '-');
    if m < 0 { assert IntText(m)[1..] == NatText(-m) && IntText(n)[1..] == NatText(-n); }
  }

  // ---- numeric ----

  /** A `numeric` without declared scale: unscaled / 10^scale, printed with exactly `scale` decimals. */
  datatype Decimal = Decimal(unscaled: int, scale: nat)

  function TenToThe(n: nat): (p: nat)
    ensures p > 0
  {
    if n == 0 then 1 else 10 * TenToThe(n - 1)
  }

  function Value(d: Decimal): real {
    d.unscaled as real / TenToThe(d.scale) as real
  }

  function WithPoint(n: nat, scale: nat): string
    decreases scale
  {
    if scale == 0 then NatText(n) + "." else WithPoint(n / 10, scale - 1) + [Digit(n % 10)]
  }

  lemma {:induction false} WithPointIsInjective(m: nat, a: nat, n: nat, b: nat)
    requires WithPoint(m, a) == WithPoint(n, b)
    ensures m == n && a == b
    decreases a
  {
    var s := WithPoint(m, a);
    assert s[|s| - 1] == if a == 0 then '.' else Digit(m % 10);
    assert s[|s| - 1] == if b == 0 then '.' else Digit(n % 10);
    if a == 0 {
      NatTextIsCanonical(m);
      NatTextIsCanonical(n);
      assert s[..|s| - 1] == NatText(m) == NatText(n);
    } else {
      assert s[..|s| - 1] == WithPoint(m / 10, a - 1) == WithPoint(n / 10, b - 1);
      WithPointIsInjective(m / 10, a - 1, n / 10, b - 1);
    }
  }

  lemma {:induction false} WithPointShape(n: nat, scale: nat)
    ensures WithPoint(n, scale) != "" && WithPoint(n, scale)[0] != '-' && '.' in WithPoint(n, scale)
    decreases scale
  {
    if scale == 0 {
      NatTextIsCanonical(n);
      assert WithPoint(n, scale)[|NatText(n)|] == '.';
    } else {
      WithPointShape(n / 10, scale - 1);
    }
  }

  function UnsignedText(n: nat, scale: nat): string {
    if scale == 0 then NatText(n) else WithPoint(n, scale)
  }

  lemma UnsignedTextIsInjective(m: nat, a: nat, n: nat, b: nat)
    requires UnsignedText(m, a) == UnsignedText(n, b)
    ensures m == n && a == b
  {
    NatTextIsCanonical(m);
    NatTextIsCanonical(n);
    WithPointShape(m, a);
    WithPointShape(n, b);
    if a > 0 && b > 0 { WithPointIsInjective(m, a, n, b); }
  }

  lemma UnsignedTextHasNoSign(n: nat, scale: nat)
    ensures UnsignedText(n, scale) != "" && UnsignedText(n, scale)[0] != '-'
  {
    NatTextIsCanonical(n);
    WithPointShape(n, scale);
  }

  function Magnitude(n: int): nat {
    if n < 0 then -n else n
  }

  /** `numeric::text` */
  function NumericText(d: Decimal): string {
    if d.unscaled < 0 then "-" + UnsignedText(Magnitude(d.unscaled), d.scale)
    else UnsignedText(Magnitude(d.unscaled), d.scale)
  }

  lemma NumericTextIsInjective(d: Decimal, e: Decimal)
    requires NumericText(d) == NumericText(e)
    ensures d == e
  {
    var m, n := Magnitude(d.unscaled), Magnitude(e.unscaled);
    UnsignedTextHasNoSign(m, d.scale);
    UnsignedTextHasNoSign(n, e.scale);
    var s, t := UnsignedText(m, d.scale), UnsignedText(n, e.scale);
    assert ("-" + s)[0] == '-' && ("-" + s)[1..] == s && ("-" + t)[0] == '-' && ("-" + t)[1..] == t;
    UnsignedTextIsInjective(m, d.scale, n, e.scale);
  }

  // ---- The number that a text spells ----

  lemma DigitsAreDecimal(d: nat)
    requires d < 10
    ensures Digit(d) == "0123456789"[d] && DigitValue("0123456789"[d]) == d
  {
  }

  /** One decimal more divides by ten; without decimals the value is the number itself. */
  lemma ValueByScale(u: int, s: nat)
    ensures Value(Decimal(u, 0)) == u as real
    ensures Value(Decimal(u, s + 1)) * 10.0 == Value(Decimal(u, s))
  {
    assert TenToThe(0) == 1 && TenToThe(s + 1) == 10 * TenToThe(s);
    ShiftDivision(u as real, TenToThe(s) as real);
  }

  lemma ShiftDivision(u: real, t: real)
    requires t > 0.0
    ensures u / (10.0 * t) * 10.0 == u / t
  {
    var q := u / t;
    assert q * t == u;
    assert u / (10.0 * t) == q / 10.0 by {
      assert (q / 10.0) * (10.0 * t) == u;
    }
  }

  /** The number of a run of digits, and 0 of anything else. */
  function Digits(s: string): nat {
    if AllDigits(s) then NatValue(s) else 0
  }

  /** The index of the decimal point, or the length of a text without one. */
  function PointAt(s: string): (k: nat)
    ensures k <= |s| && (k < |s| ==> s[k] == '.') && '.' !in s[..k]
  {
    if s == "" || s[0] == '.' then 0 else
      var k := PointAt(s[1..]);
      assert s[..k + 1] == [s[0]] + s[1..][..k];
      k + 1
  }

  function SpelledUnsigned(s: string): real {
    var k := PointAt(s);
    Digits(s[..k]) as real +
    if k < |s| then Digits(s[k + 1..]) as real / TenToThe(|s| - k - 1) as real else 0.0
  }

  /** A sign, digits, and after a point as many decimals as there are: the number that this text denotes. */
  function Spelled(s: string): real {
    if s != "" && s[0] == '-' then -SpelledUnsigned(s[1..]) else SpelledUnsigned(s)
  }

  /** The digits before and after the point are those of n / 10^scale and of n % 10^scale. */
  lemma {:induction false} PointSplits(n: nat, scale: nat) returns (whole: string, fraction: string)
    ensures WithPoint(n, scale) == whole + "." + fraction && |fraction| == scale
    ensures AllDigits(whole) && AllDigits(fraction)
    ensures NatValue(whole) * TenToThe(scale) + NatValue(fraction) == n
    decreases scale
  {
    if scale == 0 {
      NatTextIsCanonical(n);
      whole, fraction := NatText(n), "";
      assert whole + "." + fraction == NatText(n) + ".";
    } else {
      var w, f := PointSplits(n / 10, scale - 1);
      var last := Digit(n % 10);
      whole, fraction := w, f + [last];
      assert WithPoint(n, scale) == w + "." + f + [last];
      assert w + "." + f + [last] == whole + "." + fraction;
      assert fraction[..|f|] == f && fraction[|f|] == last;
      assert NatValue(fraction) == NatValue(f) * 10 + n % 10;
      ShiftProduct(NatValue(w), TenToThe(scale - 1));
    }
  }

  lemma ShiftProduct(w: nat, t: nat)
    ensures w * (10 * t) == 10 * (w * t)
  {
  }

  lemma {:induction false} PointIsFound(whole: string, fraction: string)
    requires AllDigits(whole)
    ensures PointAt(whole + "." + fraction) == |whole|
    decreases |whole|
  {
    var s := whole + "." + fraction;
    if whole != "" {
      assert s[0] == whole[0] && IsDigit(whole[0]);
      assert s[1..] == whole[1..] + "." + fraction;
      PointIsFound(whole[1..], fraction);
    }
  }

  lemma {:induction false} NoPointInDigits(s: string)
    requires AllDigits(s)
    ensures PointAt(s) == |s|
    decreases |s|
  {
    if s != "" {
      assert IsDigit(s[0]);
      NoPointInDigits(s[1..]);
    }
  }

  lemma SplitDivision(n: nat, w: nat, f: nat, t: nat)
    requires t > 0 && n == w * t + f
    ensures n as real / t as real == w as real + f as real / t as real
  {
    var q := f as real / t as real;
    assert q * t as real == f as real;
    assert (w as real + q) * t as real == (w * t + f) as real;
  }

  lemma PointedIsSpelled(s: string, n: nat, t: nat, whole: string, fraction: string)
    requires s == whole + "." + fraction && AllDigits(whole) && AllDigits(fraction)
    requires t == TenToThe(|fraction|) && n == NatValue(whole) * t + NatValue(fraction)
    ensures SpelledUnsigned(s) == n as real / t as real
  {
    PointIsFound(whole, fraction);
    assert s[..|whole|] == whole && s[|whole| + 1..] == fraction;
    SplitDivision(n, NatValue(whole), NatValue(fraction), t);
  }

  lemma UnsignedIsSpelled(n: nat, scale: nat)
    ensures SpelledUnsigned(UnsignedText(n, scale)) == n as real / TenToThe(scale) as real
  {
    var s := UnsignedText(n, scale);
    if scale == 0 {
      NatTextIsCanonical(n);
      NoPointInDigits(s);
      assert s[..|s|] == s;
    } else {
      var whole, fraction := PointSplits(n, scale);
      PointedIsSpelled(s, n, TenToThe(scale), whole, fraction);
    }
  }

  /** The value of a numeric is the number that its text spells. */
  lemma ValueIsSpelled(d: Decimal)
    ensures Value(d) == Spelled(NumericText(d))
  {
    var m := Magnitude(d.unscaled);
    var s := UnsignedText(m, d.scale);
    UnsignedTextHasNoSign(m, d.scale);
    UnsignedIsSpelled(m, d.scale);
    assert ("-" + s)[0] == '-' && ("-" + s)[1..] == s;
    if d.unscaled < 0 { NegatedDivision(m, TenToThe(d.scale)); }
  }

  lemma NegatedDivision(m: int, t: int)
    requires t > 0
    ensures (-m) as real / t as real == -(m as real / t as real)
  {
    var q := m as real / t as real;
    assert q * t as real == m as real;
    assert (-q) * t as real == (-m) as real;
  }
}
