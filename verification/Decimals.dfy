/** Decimal texts and the numbers they stand for. */
module Decimals {

  function Pow10(n: nat): (power: nat)
    ensures power > 0
  {
    if n == 0 then 1 else 10 * Pow10(n - 1)
  }

  /** A number shifted by so many decimal places. */
  function Scale(n: nat, places: nat): nat {
    n * Pow10(places)
  }

  predicate IsDigit(c: char) {
    '0' <= c <= '9'
  }

  predicate AllDigits(s: string) {
    forall i | 0 <= i < |s| :: IsDigit(s[i])
  }

  function DigitOf(c: char): nat
    requires IsDigit(c)
  {
    c as int - '0' as int
  }

  function ToDigit(d: nat): char
    requires d < 10
  {
    (d + '0' as int) as char
  }

  function Value(s: string): nat
    requires AllDigits(s)
  {
    if s == [] then 0 else Value(s[..|s| - 1]) * 10 + DigitOf(s[|s| - 1])
  }

  function Zeros(n: nat): string {
    if n == 0 then "" else Zeros(n - 1) + "0"
  }

  /** A number without leading zeros, as the source's formatter prints it. */
  function Decimal(n: nat): (s: string)
    ensures s != "" && AllDigits(s)
  {
    if n < 10 then [ToDigit(n)] else Decimal(n / 10) + [ToDigit(n % 10)]
  }

  /** A number padded with zeros on the left to at least `width` characters. */
  function Padded(n: nat, width: nat): string {
    if |Decimal(n)| < width then Zeros(width - |Decimal(n)|) + Decimal(n) else Decimal(n)
  }

  /** The digits and what they count. */
  lemma DigitsCount(c: char, d: nat)
    ensures IsDigit(c) <==> c in "0123456789"
    ensures d < 10 ==> ToDigit(d) == "0123456789"[d] && IsDigit(ToDigit(d)) && DigitOf(ToDigit(d)) == d
  {
    assert "0123456789"[0] == '0';
  }

  // ----- values

  lemma {:induction false} ZerosAre(n: nat)
    ensures |Zeros(n)| == n && AllDigits(Zeros(n))
    ensures forall i | 0 <= i < n :: Zeros(n)[i] == '0'
    ensures Value(Zeros(n)) == 0
  {
    if n > 0 {
      ZerosAre(n - 1);
      assert Zeros(n)[..n - 1] == Zeros(n - 1);
    }
  }

  lemma {:induction false} Pow10Sum(a: nat, b: nat)
    ensures Pow10(a + b) == Pow10(a) * Pow10(b)
  {
    if b > 0 {
      Pow10Sum(a, b - 1);
      assert Pow10(a) * Pow10(b) == Pow10(a) * (10 * Pow10(b - 1)) == 10 * (Pow10(a) * Pow10(b - 1));
    } else {
      assert Pow10(b) == 1;
    }
  }

  lemma {:induction false} ValueOfConcat(a: string, b: string)
    requires AllDigits(a) && AllDigits(b)
    ensures AllDigits(a + b)
    ensures Value(a + b) == Value(a) * Pow10(|b|) + Value(b)
  {
    if b == [] {
      assert a + b == a;
      assert Pow10(|b|) == 1;
    } else {
      var b', last := b[..|b| - 1], DigitOf(b[|b| - 1]);
      ValueOfConcat(a, b');
      assert (a + b)[..|a + b| - 1] == a + b';
      Shift(Value(a), Pow10(|b'|), Value(b'), last);
    }
  }

  lemma Shift(a: nat, power: nat, b: nat, digit: nat)
    ensures (a * power + b) * 10 + digit == a * (10 * power) + (b * 10 + digit)
  {
  }

  lemma {:induction false} ValueBelow(s: string)
    requires AllDigits(s)
    ensures Value(s) < Pow10(|s|)
  {
    if s != [] {
      ValueBelow(s[..|s| - 1]);
    }
  }

  lemma {:induction false} DecimalValue(n: nat)
    ensures Value(Decimal(n)) == n
  {
    if n < 10 {
      assert Decimal(n)[..0] == "";
    } else {
      DecimalValue(n / 10);
      assert Decimal(n)[..|Decimal(n)| - 1] == Decimal(n / 10);
    }
  }

  /** The last digit of a text is the last digit of its value. */
  lemma LastOff(s: string)
    requires AllDigits(s) && s != ""
    ensures Value(s) / 10 == Value(s[..|s| - 1]) && ToDigit(Value(s) % 10) == s[|s| - 1]
  {
    var last := DigitOf(s[|s| - 1]);
    assert last < 10 && Value(s) == 10 * Value(s[..|s| - 1]) + last;
  }

  predicate NoLeadingZero(s: string) {
    s != "" && (|s| == 1 || s[0] != '0')
  }

  lemma {:induction false} DecimalHasNoLeadingZero(n: nat)
    ensures NoLeadingZero(Decimal(n))
    ensures n > 0 ==> Decimal(n)[0] != '0'
  {
    if n >= 10 {
      DecimalHasNoLeadingZero(n / 10);
    }
  }

  /** `Decimal` finds the one text without leading zeros that has a given value. */
  lemma {:induction false} DecimalIsUnique(s: string)
    requires AllDigits(s) && NoLeadingZero(s)
    ensures Decimal(Value(s)) == s
    ensures s[0] != '0' ==> Value(s) > 0
  {
    var s', last := s[..|s| - 1], s[|s| - 1];
    assert s == s' + [last];
    LastOff(s);
    if |s| > 1 {
      DecimalIsUnique(s');
    } else {
      assert s' == "" && Value(s) == DigitOf(last);
    }
  }

  // ----- fixed width

  /** The last `width` digits of a number. */
  function FixedWidth(n: nat, width: nat): string {
    if width == 0 then "" else FixedWidth(n / 10, width - 1) + [ToDigit(n % 10)]
  }

  lemma {:induction false} FixedWidthZero(width: nat)
    ensures FixedWidth(0, width) == Zeros(width)
  {
    if width > 0 {
      FixedWidthZero(width - 1);
    }
  }

  lemma {:induction false} ZerosThenDecimal(n: nat, zeros: nat)
    ensures FixedWidth(n, zeros + |Decimal(n)|) == Zeros(zeros) + Decimal(n)
  {
    if n < 10 {
      FixedWidthZero(zeros);
    } else {
      ZerosThenDecimal(n / 10, zeros);
      var all := zeros + |Decimal(n)|;
      assert FixedWidth(n, all) == FixedWidth(n / 10, all - 1) + [ToDigit(n % 10)];
    }
  }

  lemma {:induction false} DecimalLength(n: nat, width: nat)
    requires n < Pow10(width) && width > 0
    ensures |Decimal(n)| <= width
  {
    if n >= 10 {
      assert width > 1 by {
        assert Pow10(0) == 1 && Pow10(1) == 10 * Pow10(0);
      }
      DecimalLength(n / 10, width - 1);
    }
  }

  lemma PaddedIsFixedWidth(n: nat, width: nat)
    requires n < Pow10(width) && width > 0
    ensures Padded(n, width) == FixedWidth(n, width)
  {
    DecimalLength(n, width);
    ZerosThenDecimal(n, width - |Decimal(n)|);
    assert Zeros(0) + Decimal(n) == Decimal(n);
  }

  lemma {:induction false} FixedWidthValue(n: nat, width: nat)
    requires n < Pow10(width)
    ensures |FixedWidth(n, width)| == width && AllDigits(FixedWidth(n, width))
    ensures Value(FixedWidth(n, width)) == n
  {
    if width > 0 {
      assert n / 10 < Pow10(width - 1);
      FixedWidthValue(n / 10, width - 1);
      assert FixedWidth(n, width)[..width - 1] == FixedWidth(n / 10, width - 1);
    }
  }

  lemma {:induction false} FixedWidthIsUnique(s: string)
    requires AllDigits(s)
    ensures FixedWidth(Value(s), |s|) == s
  {
    if s != [] {
      FixedWidthIsUnique(s[..|s| - 1]);
      LastOff(s);
      assert FixedWidth(Value(s), |s|) == s[..|s| - 1] + [s[|s| - 1]];
    }
  }

  // ----- trailing zeros

  /** The source's `trim_end_matches('0')`. */
  function TrimZeros(s: string): (t: string)
    ensures |t| <= |s|
  {
    if s != [] && s[|s| - 1] == '0' then TrimZeros(s[..|s| - 1]) else s
  }

  lemma {:induction false} TrimmedZeros(s: string)
    ensures s == TrimZeros(s) + Zeros(|s| - |TrimZeros(s)|)
    ensures TrimZeros(s) == "" || TrimZeros(s)[|TrimZeros(s)| - 1] != '0'
  {
    if s != [] && s[|s| - 1] == '0' {
      var s' := s[..|s| - 1];
      TrimmedZeros(s');
      var n := |s'| - |TrimZeros(s')|;
      assert s == s' + "0" == TrimZeros(s') + (Zeros(n) + "0");
      assert Zeros(n + 1) == Zeros(n) + "0";
    } else {
      assert Zeros(0) == "";
      assert s + "" == s;
    }
  }

  lemma {:induction false} TrimIgnoresZeros(s: string, n: nat)
    ensures TrimZeros(s + Zeros(n)) == TrimZeros(s)
  {
    if n == 0 {
      assert s + "" == s;
    } else {
      TrimIgnoresZeros(s, n - 1);
      assert s + Zeros(n) == (s + Zeros(n - 1)) + "0";
      assert (s + Zeros(n))[..|s + Zeros(n)| - 1] == s + Zeros(n - 1);
    }
  }

  /** Trimming a fraction and scaling it back up loses nothing. */
  lemma TrimKeepsValue(s: string)
    requires AllDigits(s)
    ensures AllDigits(TrimZeros(s))
    ensures Value(s) == Value(TrimZeros(s)) * Pow10(|s| - |TrimZeros(s)|)
  {
    TrimmedZeros(s);
    var t, n := TrimZeros(s), |s| - |TrimZeros(s)|;
    forall i | 0 <= i < |t| ensures IsDigit(t[i]) {
      assert t[i] == s[i];
    }
    ZerosAre(n);
    ValueOfConcat(t, Zeros(n));
  }
}
