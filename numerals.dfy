/**
 * Integer numerals as Python writes and reads them: `format(n, "0{w}d")`
 * (the `{n:02d}` and `{i:03d}` fields of the file names), the lowercase
 * hexadecimal of `uuid.hex`, and `int(text)` for a decimal numeral.
 */
module Numerals {
  import opened Wrappers

  predicate IsBase(base: nat) { 2 <= base <= 16 }

  function Pow(base: nat, k: nat): (p: nat)
    ensures base >= 1 ==> p >= 1
  {
    if k == 0 then 1 else base * Pow(base, k - 1)
  }

  /** The lowercase digit for `d`: '0'..'9', then 'a'..'f'. */
  function DigitChar(d: nat): (c: char)
    requires d < 16
    ensures DigitValue(c) == d
  {
    if d < 10 then (48 + d) as char else (97 + d - 10) as char
  }

  /** The value of a lowercase digit character; 16 for any other character. */
  function DigitValue(c: char): nat
  {
    if '0' <= c <= '9' then c as nat - 48
    else if 'a' <= c <= 'f' then c as nat - 97 + 10
    else 16
  }

  predicate AllDigits(s: string, base: nat)
  {
    forall k | 0 <= k < |s| :: DigitValue(s[k]) < base
  }

  /** A decimal numeral: one or more ASCII digits. */
  predicate IsNumeral(s: string)
  {
    |s| > 0 && AllDigits(s, 10)
  }

  /** The number a digit string denotes (most significant digit first). */
  function Value(s: string, base: nat): (v: nat)
    requires IsBase(base) && AllDigits(s, base)
    ensures v < Pow(base, |s|)
  {
    if s == [] then 0
    else
      var init := s[..|s| - 1];
      assert AllDigits(init, base) by {
        forall k | 0 <= k < |init| ensures DigitValue(init[k]) < base {
          assert init[k] == s[k];
        }
      }
      var d := DigitValue(s[|s| - 1]);
      var p := Value(init, base);
      ValueStep(p, d, base, |init|);
      p * base + d
  }

  lemma ValueStep(p: nat, d: nat, base: nat, k: nat)
    requires p < Pow(base, k) && d < base
    ensures 0 <= p * base + d < Pow(base, k + 1)
  {
    MulLeft(0, p, base);
    MulLeft(p + 1, Pow(base, k), base);
    assert (p + 1) * base == p * base + base;
    assert Pow(base, k + 1) == base * Pow(base, k);
  }

  lemma MulLeft(a: nat, b: nat, c: nat)
    requires a <= b
    ensures a * c <= b * c
  {
  }

  /** The shortest numeral of `n` in `base` (no leading zeros; "0" for zero). */
  function Digits(n: nat, base: nat): (s: string)
    requires IsBase(base)
    ensures |s| >= 1 && AllDigits(s, base)
    ensures Value(s, base) == n
    decreases n
  {
    DivMod(n, base);
    if n < base then
      AppendDigit([], n, base);
      [DigitChar(n)]
    else
      var high := Digits(n / base, base);
      AppendDigit(high, n % base, base);
      high + [DigitChar(n % base)]
  }

  /** Appending a digit multiplies the value by the base and adds the digit. */
  lemma AppendDigit(high: string, d: nat, base: nat)
    requires IsBase(base) && AllDigits(high, base) && d < base
    ensures AllDigits(high + [DigitChar(d)], base)
    ensures Value(high + [DigitChar(d)], base) == Value(high, base) * base + d
  {
    var s := high + [DigitChar(d)];
    assert s[..|s| - 1] == high;
  }

  lemma DivMod(n: nat, base: nat)
    requires base >= 2
    ensures (n / base) * base + n % base == n && n % base < base
    ensures n >= base ==> n / base < n
  {
  }

  /** A run of `k` zero digits. */
  function Zeros(k: nat): (z: string)
    ensures |z| == k && forall j | 0 <= j < k :: z[j] == '0'
  {
    seq(k, _ => '0')
  }

  /** `s` left-filled with '0' up to `width` characters; never truncated. */
  function ZeroPad(s: string, width: nat): (r: string)
    ensures |r| == if |s| < width then width else |s|
    ensures r[|r| - |s|..] == s
    ensures forall j | 0 <= j < |r| - |s| :: r[j] == '0'
  {
    if |s| < width then Zeros(width - |s|) + s else s
  }

  /**
   * Python's `format(n, "0{width}d")`: decimal digits, zero-filled after the
   * sign so that sign and digits together take at least `width` characters.
   */
  function FormatInt(n: int, width: nat): string
  {
    if n < 0 then "-" + ZeroPad(Digits(-n, 10), if width == 0 then 0 else width - 1)
    else ZeroPad(Digits(n, 10), width)
  }

  /** The whitespace that Python's `int()` strips from both ends (ASCII part). */
  predicate IsSpace(c: char)
  {
    c == ' ' || '\t' <= c <= '\r'
  }

  function StripLeft(s: string): (r: string)
    ensures |r| <= |s|
  {
    if s != [] && IsSpace(s[0]) then StripLeft(s[1..]) else s
  }

  function StripRight(s: string): (r: string)
    ensures |r| <= |s|
  {
    if s != [] && IsSpace(s[|s| - 1]) then StripRight(s[..|s| - 1]) else s
  }

  /**
   * Python's `int(text)` on a decimal numeral: surrounding whitespace, an
   * optional sign, then one or more ASCII digits. `None` stands for the
   * `ValueError` that `int()` raises on anything else.
   */
  function ParseInt(text: string): Option<int>
  {
    var t := StripRight(StripLeft(text));
    if |t| > 0 && (t[0] == '-' || t[0] == '+') then
      if IsNumeral(t[1..]) then
        var v: int := Value(t[1..], 10);
        Some(if t[0] == '-' then -v else v)
      else None
    else if IsNumeral(t) then Some(Value(t, 10))
    else None
  }

  // ---------------------------------------------------------------------
  // Lemmas

  lemma {:induction false} ValueOfZeros(k: nat, base: nat)
    requires IsBase(base)
    ensures AllDigits(Zeros(k), base) && Value(Zeros(k), base) == 0
  {
    if k > 0 {
      assert Zeros(k)[..k - 1] == Zeros(k - 1);
      ValueOfZeros(k - 1, base);
    }
  }

  /** Leading zeros do not change the value of a numeral. */
  lemma {:induction false} ValueLeadingZeros(k: nat, s: string, base: nat)
    requires IsBase(base) && AllDigits(s, base)
    ensures AllDigits(Zeros(k) + s, base)
    ensures Value(Zeros(k) + s, base) == Value(s, base)
  {
    ValueOfZeros(k, base);
    var z := Zeros(k) + s;
    if s == [] {
      assert z == Zeros(k);
    } else {
      var init := s[..|s| - 1];
      ValueLeadingZeros(k, init, base);
      assert z[..|z| - 1] == Zeros(k) + init;
      assert z[|z| - 1] == s[|s| - 1];
    }
  }

  /** Zero padding keeps a numeral a numeral of the same value. */
  lemma ZeroPadValue(s: string, width: nat, base: nat)
    requires IsBase(base) && AllDigits(s, base)
    ensures AllDigits(ZeroPad(s, width), base)
    ensures Value(ZeroPad(s, width), base) == Value(s, base)
  {
    if |s| < width {
      ValueLeadingZeros(width - |s|, s, base);
    }
  }

  /** The numeral of `n` needs at most `k` digits exactly when `n < base^k`. */
  lemma {:induction false} DigitsLength(n: nat, base: nat, k: nat)
    requires IsBase(base) && k >= 1
    ensures |Digits(n, base)| <= k <==> n < Pow(base, k)
    decreases k
  {
    var s := Digits(n, base);
    if |s| <= k {
      PowMonotone(base, |s|, k);
    }
    if n < Pow(base, k) && n >= base {
      assert Pow(base, 1) == base by { assert Pow(base, 0) == 1; }
      assert k >= 2;
      DivBelow(n, base, Pow(base, k - 1));
      DigitsLength(n / base, base, k - 1);
    }
  }

  lemma {:induction false} PowMonotone(base: nat, j: nat, k: nat)
    requires base >= 1 && j <= k
    ensures Pow(base, j) <= Pow(base, k)
    decreases k
  {
    if j < k {
      PowMonotone(base, j, k - 1);
      MulLeft(1, base, Pow(base, k - 1));
    }
  }

  lemma {:induction false} PowAdd(base: nat, j: nat, k: nat)
    ensures Pow(base, j + k) == Pow(base, j) * Pow(base, k)
    decreases k
  {
    if k > 0 {
      PowAdd(base, j, k - 1);
      MulRotate(base, Pow(base, j), Pow(base, k - 1));
      assert Pow(base, j + k) == base * Pow(base, j + k - 1);
    }
  }

  lemma MulRotate(x: nat, y: nat, z: nat)
    ensures x * (y * z) == y * (x * z)
  {
  }

  lemma DivBelow(n: nat, b: nat, p: nat)
    requires b > 0 && n < b * p
    ensures n / b < p
  {
    if n / b >= p {
      MulLeft(p, n / b, b);
    }
  }

  lemma StripNoSpace(s: string)
    requires s != [] && !IsSpace(s[0]) && !IsSpace(s[|s| - 1])
    ensures StripRight(StripLeft(s)) == s
  {
  }

  /** `int()` reads an unsigned numeral as its value. */
  lemma ParseUnsigned(t: string)
    requires IsNumeral(t)
    ensures ParseInt(t) == Some(Value(t, 10) as int)
  {
    assert DigitValue(t[0]) < 10 && DigitValue(t[|t| - 1]) < 10;
    StripNoSpace(t);
  }

  /** `int()` reads a minus sign followed by a numeral as the negated value. */
  lemma ParseNegative(t: string)
    requires IsNumeral(t)
    ensures ParseInt("-" + t) == Some(-(Value(t, 10) as int))
  {
    var s := "-" + t;
    assert s[1..] == t;
    assert DigitValue(t[|t| - 1]) < 10;
    assert s[|s| - 1] == t[|t| - 1];
    StripNoSpace(s);
  }

  /** `int()` reads back what `format(n, "0{width}d")` writes. */
  lemma ParseFormatInt(n: int, width: nat)
    ensures ParseInt(FormatInt(n, width)) == Some(n)
  {
    var m := if n < 0 then -n else n;
    var w := if n < 0 then (if width == 0 then 0 else width - 1) else width;
    ZeroPadValue(Digits(m, 10), w, 10);
    if n < 0 {
      ParseNegative(ZeroPad(Digits(m, 10), w));
    } else {
      ParseUnsigned(ZeroPad(Digits(m, 10), w));
    }
  }

  /** Distinct integers are formatted differently, whatever the width. */
  lemma FormatIntInjective(a: int, b: int, width: nat)
    requires FormatInt(a, width) == FormatInt(b, width)
    ensures a == b
  {
    ParseFormatInt(a, width);
    ParseFormatInt(b, width);
  }

  /** The length of a formatted non-negative number: the width, unless the digits need more. */
  lemma FormatIntLength(n: nat, width: nat)
    requires width >= 1
    ensures n < Pow(10, width) ==> |FormatInt(n, width)| == width
    ensures n >= Pow(10, width) ==> |FormatInt(n, width)| > width
  {
    DigitsLength(n, 10, width);
  }
}
