/** What the parser of money means, for every text, and where the source's unchecked arithmetic shows. */
module MoneyProperties {
  import opened Common
  import opened Decimals
  import opened Money

  // ----- exactness

  /** The largest number of whole units, and the nanos that still fit beside it. */
  const MAX_UNITS: nat := 18_446_744_073

  const MAX_UNITS_NANOS: nat := 709_551_615

  /** The nanos that digits around a dot stand for, if nine places are enough to write them. */
  function Nanos(units: string, fraction: string): nat
    requires AllDigits(units) && AllDigits(fraction) && AllDigits(TrimZeros(fraction)) && |TrimZeros(fraction)| <= 9
  {
    Value(units) * MONEY_TO_RAW_CONVERSION + Value(TrimZeros(fraction)) * Pow10(9 - |TrimZeros(fraction)|)
  }

  /** `Nanos` is the decimal number written, times 10^9. */
  lemma NanosAreExact(units: string, fraction: string)
    requires AllDigits(units) && AllDigits(fraction) && AllDigits(TrimZeros(fraction)) && |TrimZeros(fraction)| <= 9
    ensures AllDigits(units + fraction)
    ensures Nanos(units, fraction) * Pow10(|fraction|) == Value(units + fraction) * MONEY_TO_RAW_CONVERSION
  {
    var t := TrimZeros(fraction);
    var u, v, places, zeros := Value(units), Value(t), |t|, |fraction| - |t|;
    ValueOfConcat(units, fraction);
    TrimKeepsValue(fraction);
    TenToTheNine();
    Pow10Sum(places, 9 - places);
    Pow10Sum(zeros, places);
    Rearrange(u, v, Pow10(places), Pow10(9 - places), Pow10(zeros));
  }

  lemma Rearrange(u: nat, v: nat, a: nat, b: nat, c: nat)
    ensures (u * (a * b) + v * b) * (c * a) == (u * (c * a) + v * c) * (a * b)
  {
    calc {
      (u * (a * b) + v * b) * (c * a);
      (u * (a * b)) * (c * a) + (v * b) * (c * a);
      { assert (u * (a * b)) * (c * a) == (u * (c * a)) * (a * b); }
      { assert (v * b) * (c * a) == (v * c) * (a * b); }
      (u * (c * a)) * (a * b) + (v * c) * (a * b);
      (u * (c * a) + v * c) * (a * b);
    }
  }

  /** The number of nanos is the decimal number written in these parts, times 10^9. */
  predicate StandsFor(nano: nat, units: string, fraction: string)
    requires AllDigits(units + fraction)
  {
    nano * Pow10(|fraction|) == Value(units + fraction) * MONEY_TO_RAW_CONVERSION
  }

  /** Texts of digits with at most nine places that matter: those with units within range are accepted, as
      the nanos written, reduced to 64 bits. */
  lemma ShortDigits(text: string)
    requires AllDigits(Units(text)) && Units(text) != "" && AllDigits(Fraction(text))
    requires |TrimZeros(Fraction(text))| <= 9
    ensures AllDigits(TrimZeros(Fraction(text)))
    ensures FromStr(text).Ok? <==> Value(Units(text)) <= MAX_UNITS
    ensures FromStr(text).Ok? ==> FromStr(text).value.nano == Wrap(Nanos(Units(text), Fraction(text)))
    ensures FromStr(text).Ok? ==> (Nanos(Units(text), Fraction(text)) < U64_SIZE <==> WithinRange(text))
  {
    var t := TrimZeros(Fraction(text));
    TrimKeepsValue(Fraction(text));
    ParseDigits(Units(text));
    RemainderOfDigits(t);
    if Value(Units(text)) < U64_SIZE {
      FromParts(text, Value(Units(text)), Value(t) * Pow10(9 - |t|));
    }
  }

  /** An amount of this many units and nanos does not exceed the largest one. */
  predicate WithinRange(text: string)
    requires AllDigits(Units(text)) && AllDigits(TrimZeros(Fraction(text))) && |TrimZeros(Fraction(text))| <= 9
  {
    Value(Units(text)) < MAX_UNITS
    || Value(TrimZeros(Fraction(text))) * Pow10(9 - |TrimZeros(Fraction(text))|) <= MAX_UNITS_NANOS
  }

  /** Parsing is exact: of all accepted texts whose parts are digits, what they are accepted as is the
      number written exactly if at most nine places matter and the largest amount is not exceeded. */
  lemma DigitsParseExactly(text: string)
    requires AllDigits(Units(text)) && AllDigits(Fraction(text))
    requires FromStr(text).Ok?
    ensures AllDigits(Units(text) + Fraction(text)) && AllDigits(TrimZeros(Fraction(text)))
    ensures StandsFor(FromStr(text).value.nano, Units(text), Fraction(text)) <==>
        |TrimZeros(Fraction(text))| <= 9 && WithinRange(text)
  {
    var units, fraction, nano := Units(text), Fraction(text), FromStr(text).value.nano;
    assert AllDigits(TrimZeros(fraction)) && AllDigits(units + fraction) by {
      TrimKeepsValue(fraction);
      ValueOfConcat(units, fraction);
    }
    if |TrimZeros(fraction)| <= 9 {
      assert nano == Wrap(Nanos(units, fraction)) && (Nanos(units, fraction) < U64_SIZE <==> WithinRange(text)) by {
        assert units != "";
        ShortDigits(text);
      }
      NanosStandFor(nano, units, fraction);
    } else {
      NoNanosForLong(nano, units, fraction);
    }
  }

  lemma NanosStandFor(nano: U64, units: string, fraction: string)
    requires AllDigits(units) && AllDigits(fraction) && AllDigits(units + fraction)
    requires AllDigits(TrimZeros(fraction)) && |TrimZeros(fraction)| <= 9
    requires nano == Wrap(Nanos(units, fraction))
    ensures StandsFor(nano, units, fraction) <==> Nanos(units, fraction) < U64_SIZE
  {
    var exact, factor := Nanos(units, fraction), Pow10(|fraction|);
    NanosAreExact(units, fraction);
    OneNano(nano, exact, factor);
    if exact < U64_SIZE {
      WrapSmall(exact);
    }
  }

  lemma OneNano(a: nat, b: nat, factor: nat)
    requires factor > 0
    ensures a * factor == b * factor <==> a == b
  {
  }

  /** More than nine places that matter do not stand for any number of nanos. */
  lemma NoNanosForLong(nano: nat, units: string, fraction: string)
    requires AllDigits(units) && AllDigits(fraction) && AllDigits(units + fraction)
    requires |TrimZeros(fraction)| > 9
    ensures !StandsFor(nano, units, fraction)
  {
    var t := TrimZeros(fraction);
    LongParts(units, fraction);
    LastDigit(units + t);
    NoSolution(nano, Pow10(|t| - 10), Value(units), Value(t), Pow10(|t|), Pow10(|fraction| - |t|), Pow10(9));
  }

  /** Cancelling the zeros and the nine places would leave a multiple of ten, which does not end in the
      digit the text ends in. */
  lemma NoSolution(nano: nat, tenth: nat, u: nat, v: nat, places: nat, zeros: nat, nine: nat)
    requires places == (10 * tenth) * nine && zeros > 0 && nine > 0
    requires (u * places + v) % 10 != 0
    ensures nano * (zeros * places) != (u * (zeros * places) + v * zeros) * nine
  {
    assert nano * (10 * tenth) == 10 * (nano * tenth);
    if nano * (zeros * places) == (u * (zeros * places) + v * zeros) * nine {
      Cancel(nano, 10 * tenth, u, v, places, zeros, nine);
    }
  }

  /** The numbers that a fraction of more than nine places is made of. */
  lemma LongParts(units: string, fraction: string)
    requires AllDigits(units) && AllDigits(fraction) && AllDigits(units + fraction)
    requires |TrimZeros(fraction)| > 9
    ensures var t := TrimZeros(fraction);
            var places, zeros, nine := Pow10(|t|), Pow10(|fraction| - |t|), Pow10(9);
            && AllDigits(t) && AllDigits(units + t) && t[|t| - 1] != '0'
            && places == (10 * Pow10(|t| - 10)) * nine && zeros > 0 && nine == MONEY_TO_RAW_CONVERSION
            && Pow10(|fraction|) == zeros * places
            && Value(units + t) == Value(units) * places + Value(t)
            && Value(units + fraction) == Value(units) * (zeros * places) + Value(t) * zeros
  {
    var t := TrimZeros(fraction);
    TrimmedZeros(fraction);
    TrimKeepsValue(fraction);
    ValueOfConcat(units, t);
    ValueOfConcat(units, fraction);
    TenToTheNine();
    Pow10Sum(|fraction| - |t|, |t|);
    Pow10Sum(|t| - 9, 9);
  }

  lemma Cancel(nano: nat, tail: nat, u: nat, v: nat, places: nat, zeros: nat, nine: nat)
    requires places == tail * nine && zeros > 0 && nine > 0
    requires nano * (zeros * places) == (u * (zeros * places) + v * zeros) * nine
    ensures nano * tail == u * places + v
  {
    calc {
      (nano * tail) * (zeros * nine);
      { assert (nano * tail) * (zeros * nine) == nano * (zeros * (tail * nine)); }
      nano * (zeros * places);
      (u * (zeros * places) + v * zeros) * nine;
      { assert u * (zeros * places) == (u * places) * zeros; }
      ((u * places) * zeros + v * zeros) * nine;
      { assert (u * places) * zeros + v * zeros == (u * places + v) * zeros; }
      ((u * places + v) * zeros) * nine;
      (u * places + v) * (zeros * nine);
    }
    assert zeros * nine > 0;
    OneNano(nano * tail, u * places + v, zeros * nine);
  }

  lemma LastDigit(s: string)
    requires AllDigits(s) && s != "" && s[|s| - 1] != '0'
    ensures Value(s) % 10 != 0
  {
    assert 0 < DigitOf(s[|s| - 1]) < 10;
  }

  // ----- every text

  /** A number as it may be written: digits, with or without a plus sign in front. */
  predicate IsNumeral(s: string) {
    && s != "" && s != "+" && (s[0] == '+' || '0' <= s[0] <= '9')
    && forall i | 0 < i < |s| :: '0' <= s[i] <= '9'
  }

  /** Its digits. */
  function DigitsOf(s: string): (digits: string)
    requires IsNumeral(s)
    ensures AllDigits(digits)
  {
    if s[0] == '+' then s[1..] else s
  }

  predicate IsU64(s: string) {
    IsNumeral(s) && Value(DigitsOf(s)) < U64_SIZE
  }

  lemma ParsesNumerals(s: string)
    ensures ParseU64(s) == if IsU64(s) then Some(Value(DigitsOf(s))) else None
  {
    var digits := if s != "" && s[0] == '+' then s[1..] else s;
    if digits != "" && AllDigits(digits) {
      assert IsNumeral(s) && digits == DigitsOf(s);
    }
  }

  /** The units and the fraction of a text, which may have no dot. */
  predicate IsText(text: string, units: string, fraction: string) {
    '.' !in units && (text == units + "." + fraction || (text == units && fraction == ""))
  }

  lemma EveryText(text: string)
    ensures IsText(text, Units(text), Fraction(text))
    ensures forall units, fraction | IsText(text, units, fraction) :: units == Units(text) && fraction == Fraction(text)
  {
    var dot := FirstDot(text);
    if dot < |text| {
      assert text == text[..dot] + [text[dot]] + text[dot + 1..];
    }
    forall units, fraction | IsText(text, units, fraction)
      ensures units == Units(text) && fraction == Fraction(text)
    {
      if text == units + "." + fraction {
        FirstDotAt(units, fraction);
      }
    }
  }

  /** Units that an amount can have, and a fraction that can follow them once its last zeros are gone. */
  predicate UnitsFit(units: string) {
    IsNumeral(units) && Value(DigitsOf(units)) <= MAX_UNITS
  }

  predicate FractionFits(trimmed: string) {
    trimmed == "" || (IsU64(trimmed) && AsU32(|trimmed|) <= 9)
  }

  /** What the digits that matter of a fraction add. */
  function FractionNanos(trimmed: string): U64
    requires FractionFits(trimmed)
  {
    if trimmed == "" then 0 else Wrap(Value(DigitsOf(trimmed)) * Pow10(9 - AsU32(|trimmed|)))
  }

  lemma RemainderParses(t: string)
    ensures ParseRemainder(t) ==
        if FractionFits(t) then Ok(FractionNanos(t))
        else Err(if IsU64(t) then LossOfPrecision else FailedToParse("Can't parse Money remainder"))
  {
    ParsesNumerals(t);
  }

  lemma UnitsBound(units: nat)
    ensures units * 1_000_000_000 >= U64_SIZE <==> units > MAX_UNITS
  {
  }

  /** What becomes of every text there is: when it is accepted and as how much, and which of the four
      errors it is refused with otherwise. */
  lemma EveryTextParses(text: string, units: string, fraction: string)
    requires IsText(text, units, fraction)
    ensures var t := TrimZeros(fraction);
            FromStr(text) ==
            if !IsU64(units) then Err(FailedToParse("Can't parse Money units"))
            else if !UnitsFit(units) then Err(ExcessiveValue)
            else if t != "" && !IsU64(t) then Err(FailedToParse("Can't parse Money remainder"))
            else if !FractionFits(t) then Err(LossOfPrecision)
            else Ok(Money(Wrap(Value(DigitsOf(units)) * 1_000_000_000 + FractionNanos(t))))
  {
    EveryText(text);
    ParsesNumerals(units);
    RemainderParses(TrimZeros(fraction));
    if IsU64(units) {
      UnitsBound(Value(DigitsOf(units)));
    }
  }

  // ----- where the unchecked arithmetic shows

  /** The exact product behind an accepted remainder. */
  function ScaledRemainder(t: string): nat
    requires ParseRemainder(t).Ok?
  {
    if t == "" then 0 else Scale(ParseU64(t).value, 9 - AsU32(|t|))
  }

  /** The product stays below one unit exactly if the number parsed has no more digits than the length of
      the text, cut to 32 bits, allows for. It always does for fewer than 2^32 places, plus sign or
      not. */
  lemma RemainderBelowOneUnit(t: string)
    requires ParseRemainder(t).Ok?
    ensures ScaledRemainder(t) < MONEY_TO_RAW_CONVERSION <==> t == "" || ParseU64(t).value < Pow10(AsU32(|t|))
    ensures ScaledRemainder(t) < MONEY_TO_RAW_CONVERSION ==> ParseRemainder(t).value == ScaledRemainder(t)
    ensures |t| < U32_SIZE ==> ScaledRemainder(t) < MONEY_TO_RAW_CONVERSION
  {
    if t != "" {
      var parsed, places := ParseU64(t).value, AsU32(|t|);
      OneUnit(parsed, places);
      if |t| < U32_SIZE {
        assert places == |t|;
        ParsedBelow(t);
      }
      if ScaledRemainder(t) < MONEY_TO_RAW_CONVERSION {
        ProductIfSmall(t);
      }
    }
  }

  lemma OneUnit(parsed: nat, places: nat)
    requires places <= 9
    ensures Scale(parsed, 9 - places) < MONEY_TO_RAW_CONVERSION <==> parsed < Pow10(places)
  {
    if parsed < Pow10(places) {
      ScaledBelow(parsed, places);
    } else {
      TenToTheNine();
      Pow10Sum(places, 9 - places);
      MulAtLeast(parsed, Pow10(places), Pow10(9 - places));
    }
  }

  /** The largest number that can be shifted by so many places within 64 bits: the largest of all, without
      its last digits. */
  function Room(places: nat): nat {
    if places == 0 then U64_MAX else Room(places - 1) / 10
  }

  lemma {:induction false} RoomIsExact(n: nat, places: nat)
    ensures Scale(n, places) < U64_SIZE <==> n <= Room(places)
    decreases places
  {
    if places > 0 {
      RoomIsExact(n * 10, places - 1);
      assert (n * 10) * Pow10(places - 1) == n * Pow10(places);
    }
  }

  /** An accepted remainder is worth the product, and the product fits in 64 bits, exactly up to a bound on
      the number parsed. */
  lemma ScaledRemainderFits(t: string, parsed: U64, length: nat)
    requires t != "" && ParseU64(t) == Some(parsed) && AsU32(|t|) == length <= 9
    ensures ParseRemainder(t).Ok?
    ensures ParseRemainder(t).value == Scale(parsed, 9 - length) <==> parsed <= Room(9 - length)
    ensures Scale(parsed, 9 - length) < U64_SIZE <==> parsed <= Room(9 - length)
  {
    var product := Scale(parsed, 9 - length);
    assert ParseRemainder(t) == Ok(Wrap(product));
    RoomIsExact(parsed, 9 - length);
    if product < U64_SIZE {
      WrapSmall(product);
    }
  }

  lemma ProductIfSmall(t: string)
    requires ParseRemainder(t).Ok? && ScaledRemainder(t) < U64_SIZE
    ensures ParseRemainder(t).value == ScaledRemainder(t)
  {
    WrapSmall(ScaledRemainder(t));
  }

  lemma MulAtLeast(a: nat, b: nat, factor: nat)
    requires a >= b
    ensures a * factor >= b * factor
  {
  }

  lemma ParsedBelow(t: string)
    requires ParseU64(t).Some?
    ensures ParseU64(t).value < Pow10(|t|)
  {
    var digits := if t[0] == '+' then t[1..] else t;
    ValueBelow(digits);
    Pow10Grows(|digits|, |t|);
  }

  lemma {:induction false} Pow10Grows(a: nat, b: nat)
    requires a <= b
    ensures Pow10(a) <= Pow10(b)
  {
    if a < b {
      Pow10Grows(a, b - 1);
    }
  }

  /** The last, unchecked addition, for every accepted text: the sum of units and remainder fits in 64 bits
      exactly if the units, with the whole units that a misread remainder brings along, stay below the
      largest possible, or reach it with nanos that still fit beside it. Fewer than 2^32 places bring no
      whole units. */
  lemma SumFits(text: string)
    requires FromStr(text).Ok?
    ensures var t := TrimZeros(Fraction(text));
            var units, remainder := ParseU64(Units(text)).value, ParseRemainder(t).value;
            var carried, nanos := remainder / MONEY_TO_RAW_CONVERSION, remainder % MONEY_TO_RAW_CONVERSION;
            var sum := units * MONEY_TO_RAW_CONVERSION + remainder;
            && units <= MAX_UNITS
            && (|t| < U32_SIZE ==> carried == 0)
            && (sum < U64_SIZE <==>
                  units + carried < MAX_UNITS || (units + carried == MAX_UNITS && nanos <= MAX_UNITS_NANOS))
            && (sum < U64_SIZE <==> FromStr(text).value.nano == sum)
  {
    var t := TrimZeros(Fraction(text));
    var units, remainder := ParseU64(Units(text)).value, ParseRemainder(t).value;
    FromParts(text, units, remainder);
    RemainderBelowOneUnit(t);
    if units * MONEY_TO_RAW_CONVERSION + remainder < U64_SIZE {
      WrapSmall(units * MONEY_TO_RAW_CONVERSION + remainder);
    }
  }

  /** One nano more than the largest amount is accepted, as nothing, instead of being refused as
      excessive. */
  lemma LargestAmountWraps()
    ensures FromStr(FixedForm(MAX_UNITS, MAX_UNITS_NANOS + 1)) == Ok(Money(0))
  {
    FixedFormParses(MAX_UNITS, MAX_UNITS_NANOS + 1);
  }

  /** Units of zero and a fraction of digits that does not end in zero. */
  lemma ZeroUnits(fraction: string, remainder: U64)
    requires AllDigits(fraction) && fraction != "" && fraction[|fraction| - 1] != '0'
    requires ParseRemainder(fraction) == Ok(remainder)
    ensures FromStr("0." + fraction) == Ok(Money(remainder))
  {
    assert "0." + fraction == "0" + "." + fraction;
    FirstDotAt("0", fraction);
    assert Value("0") == 0 by { assert "0"[..0] == ""; }
    assert ParseU64("0") == Some(0);
    assert TrimZeros(fraction) == fraction;
    FromParts("0." + fraction, 0, remainder);
    WrapSmall(remainder);
  }

  /** Leading zeros: the number stays, the length grows. */
  lemma LeadingZeros(zeros: nat, n: nat)
    ensures var t := Zeros(zeros) + Decimal(n);
            AllDigits(t) && t != "" && Value(t) == n && |t| == zeros + |Decimal(n)|
            && t[|t| - 1] == Decimal(n)[|Decimal(n)| - 1]
  {
    ZerosAre(zeros);
    DecimalValue(n);
    ValueOfConcat(Zeros(zeros), Decimal(n));
  }

  /** The length of a remainder is cut to 32 bits, so that a nought, a dot, 2^32 zeros and a one, far below
      a nano, are read as a tenth of a unit. */
  lemma HugeRemainderMisread()
    ensures FromStr("0." + Zeros(U32_SIZE) + "1") == Ok(Money(100_000_000))
  {
    var t := Zeros(U32_SIZE) + Decimal(1);
    LeadingZeros(U32_SIZE, 1);
    assert Decimal(1) == "1";
    assert AsU32(|t|) == 1;
    assert ParseRemainder(t) == Ok(100_000_000) by {
      ParseDigits(t);
      TenToTheNine();
      assert Pow10(9) == 10 * Pow10(8);
      WrapSmall(1 * Pow10(8));
    }
    ZeroUnits(t, 100_000_000);
    assert "0." + t == "0." + Zeros(U32_SIZE) + "1";
  }

  /** A number with so many zeros in front that its length is cut to one place. */
  function HugeRemainder(n: U64): string
    requires |Decimal(n)| <= U32_SIZE
  {
    Zeros(U32_SIZE + 1 - |Decimal(n)|) + Decimal(n)
  }

  /** The product itself can leave 64 bits: such a text is accepted for every number that does not end in
      zero, and its product is 10^8 times that number, which is out of range exactly from 184467440738 on. */
  lemma HugeRemainderOverflows(n: U64)
    requires n % 10 != 0
    ensures |Decimal(n)| <= U32_SIZE
    ensures var t := HugeRemainder(n);
            && ParseRemainder(t).Ok? && ScaledRemainder(t) == n * 100_000_000
            && FromStr("0." + t) == Ok(Money(Wrap(n * 100_000_000)))
    ensures ScaledRemainder(HugeRemainder(n)) >= U64_SIZE <==> n >= 184_467_440_738
  {
    AtMostTwentyDigits(n);
    var t := HugeRemainder(n);
    LeadingZeros(U32_SIZE + 1 - |Decimal(n)|, n);
    assert AsU32(|t|) == 1;
    assert ParseU64(t) == Some(n) by {
      ParseDigits(t);
    }
    assert Pow10(8) == 100_000_000 by {
      TenToTheNine();
      assert Pow10(9) == 10 * Pow10(8);
    }
    ZeroUnits(t, ParseRemainder(t).value);
  }

  lemma AtMostTwentyDigits(n: U64)
    ensures |Decimal(n)| <= 20
    ensures n % 10 != 0 ==> Decimal(n)[|Decimal(n)| - 1] != '0'
  {
    assert n < Pow10(20) by {
      TenToTheNine();
      Pow10Sum(9, 9);
      Pow10Sum(18, 2);
      assert Pow10(2) == 10 * Pow10(1) == 100;
    }
    DecimalLength(n, 20);
  }

  // ----- a plus sign after the dot

  lemma {:induction false} TrimBehind(a: string, d: string)
    ensures TrimZeros(a + d) == if TrimZeros(d) == "" then TrimZeros(a) else a + TrimZeros(d)
  {
    if d == "" {
      assert a + d == a;
    } else {
      var d' := d[..|d| - 1];
      assert a + d == (a + d') + [d[|d| - 1]];
      if d[|d| - 1] == '0' {
        TrimBehind(a, d');
        assert (a + d)[..|a + d| - 1] == a + d';
      }
    }
  }

  lemma PlusParsesAsZero(t: string)
    requires t != ""
    ensures ParseU64("+" + t) == ParseU64("0" + t)
  {
    assert ("+" + t)[1..] == t;
    assert ("0" + t)[1..] == t;
    if AllDigits(t) {
      ValueOfConcat("0", t);
      assert "0"[..0] == "";
    } else {
      var i :| 0 <= i < |t| && !IsDigit(t[i]);
      assert ("0" + t)[i + 1] == t[i];
    }
  }

  /** Right after the dot a plus sign is accepted, and stands for a zero: the rest of the fraction moves one
      place back. It is refused if only zeros follow, or nothing. */
  lemma PlusIsZero(units: string, rest: string)
    requires '.' !in units
    ensures TrimZeros(rest) != "" ==> FromStr(units + "." + ("+" + rest)) == FromStr(units + "." + ("0" + rest))
    ensures TrimZeros(rest) == "" ==>
        && FromStr(units + "." + ("+" + rest)).Err?
        && (FromStr(units).Ok? ==>
              FromStr(units + "." + ("+" + rest)) == Err(FailedToParse(REMAINDER_MESSAGE)))
  {
    FirstDotAt(units, "+" + rest);
    FirstDotAt(units, "0" + rest);
    TrimBehind("+", rest);
    TrimBehind("0", rest);
    if TrimZeros(rest) != "" {
      PlusParsesAsZero(TrimZeros(rest));
      SameParse(units, "+" + TrimZeros(rest), "0" + TrimZeros(rest));
    } else {
      assert ParseU64("+") == None;
      assert FirstDot(units) == |units| && units[..|units|] == units;
    }
  }

  lemma SameParse(units: string, s: string, t: string)
    requires s != "" && |s| == |t| && ParseU64(s) == ParseU64(t)
    ensures FromPieces(units, s) == FromPieces(units, t)
  {
  }

  /** So 0.+5 is read as 0.05. */
  lemma PlusInFraction()
    ensures FromStr("0.+5") == Ok(Money(50_000_000))
  {
    var plus, zero := "0" + "." + ("+" + "5"), "0" + "." + ("0" + "5");
    assert plus == "0.+5";
    FiveHundredths(zero);
    PlusIsZero("0", "5");
  }

  lemma FiveHundredths(text: string)
    requires text == "0.05"
    ensures FromStr(text) == Ok(Money(50_000_000))
  {
    assert ParseRemainder("05") == Ok(50_000_000) by {
      assert Value("05") == 5 by {
        assert "05"[..1] == "0" && "0"[..0] == "";
      }
      RemainderOfDigits("05");
      assert Pow10(7) == 10_000_000 by {
        TenToTheNine();
        Pow10Sum(7, 2);
        assert Pow10(2) == 10 * Pow10(1) == 100;
      }
    }
    ZeroUnits("05", 50_000_000);
    assert text == "0." + "05";
  }

  // ----- trailing zeros and canonical form

  /** Appending zeros to a text that has a dot does not change how it parses, errors included. */
  lemma AppendedZerosIgnored(text: string, zeros: nat)
    requires '.' in text
    ensures FromStr(text + Zeros(zeros)) == FromStr(text)
  {
    var more := text + Zeros(zeros);
    assert Units(more) == Units(text) && TrimZeros(Fraction(more)) == TrimZeros(Fraction(text)) by {
      SplitWithZeros(text, zeros);
      TrimIgnoresZeros(Fraction(text), zeros);
    }
  }

  lemma SplitWithZeros(text: string, zeros: nat)
    requires '.' in text
    ensures Units(text + Zeros(zeros)) == Units(text)
    ensures Fraction(text + Zeros(zeros)) == Fraction(text) + Zeros(zeros)
  {
    var units, fraction, more := Units(text), Fraction(text), Zeros(zeros);
    assert text == units + "." + fraction;
    assert text + more == units + "." + (fraction + more);
    FirstDotAt(units, fraction + more);
  }

  /** Digits without a leading zero, a dot, nine digits. */
  predicate IsCanonical(text: string) {
    && AllDigits(Units(text)) && NoLeadingZero(Units(text))
    && FirstDot(text) < |text|
    && AllDigits(Fraction(text)) && |Fraction(text)| == 9
  }

  /** A canonical text is the fixed form of the numbers it shows. */
  lemma CanonicalIsFixedForm(text: string)
    requires IsCanonical(text)
    ensures Value(Fraction(text)) < MONEY_TO_RAW_CONVERSION
    ensures text == FixedForm(Value(Units(text)), Value(Fraction(text)))
  {
    var units, fraction := Units(text), Fraction(text);
    assert text == units + "." + fraction by {
      assert text == text[..FirstDot(text)] + [text[FirstDot(text)]] + text[FirstDot(text) + 1..];
    }
    assert Value(fraction) < MONEY_TO_RAW_CONVERSION by {
      NineDigits(fraction);
    }
    assert Decimal(Value(units)) == units by {
      DecimalIsUnique(units);
    }
    assert FixedWidth(Value(fraction), 9) == fraction by {
      FixedWidthIsUnique(fraction);
    }
  }

  /** Printing gives the one canonical text of an amount. So any accepted text, printed again, parses to
      the same amount, and a canonical text that stands for an amount is what that amount prints as. */
  lemma PrintIsCanonical(m: Money, text: string)
    ensures IsCanonical(Display(m)) && FromStr(Display(m)) == Ok(m)
    ensures text == Display(m) <==>
        IsCanonical(text) && Value(Units(text)) * MONEY_TO_RAW_CONVERSION + Value(Fraction(text)) == m.nano
  {
    var units, nanos := m.nano / MONEY_TO_RAW_CONVERSION, m.nano % MONEY_TO_RAW_CONVERSION;
    PrintThenParse(m);
    DisplayIsFixedForm(m);
    FixedFormParts(units, nanos);
    DecimalHasNoLeadingZero(units);
    if IsCanonical(text) && Value(Units(text)) * MONEY_TO_RAW_CONVERSION + Value(Fraction(text)) == m.nano {
      CanonicalIsFixedForm(text);
      assert Value(Units(text)) == units && Value(Fraction(text)) == nanos;
    }
  }
}
