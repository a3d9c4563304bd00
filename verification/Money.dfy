/** Amounts of money in nanos, their parser and their printer (src/money.rs). */
module Money {
  import opened Common
  import opened Decimals

  const MONEY_TO_RAW_POWER_OF_10_CONVERSION: nat := 9

  const MONEY_TO_RAW_CONVERSION: nat := 1_000_000_000

  const UNITS_MESSAGE := "Can't parse Money units"

  const REMAINDER_MESSAGE := "Can't parse Money remainder"

  datatype Money = Money(nano: U64)

  /** The source's `parse::<u64>`: an optional plus sign, then at least one digit. */
  function ParseU64(s: string): Option<U64> {
    var digits := if s != "" && s[0] == '+' then s[1..] else s;
    if digits == "" || !AllDigits(digits) || Value(digits) >= U64_SIZE then None else Some(Value(digits))
  }

  /** The place of the first dot, or the length of a text without one. */
  function FirstDot(s: string): (dot: nat)
    ensures dot <= |s|
    ensures forall i | 0 <= i < dot :: s[i] != '.'
    ensures dot < |s| ==> s[dot] == '.'
  {
    if s == "" || s[0] == '.' then 0 else 1 + FirstDot(s[1..])
  }

  /** What comes before the first dot. */
  function Units(text: string): string {
    text[..FirstDot(text)]
  }

  /** What comes after the first dot, if there is one. */
  function Fraction(text: string): string {
    if FirstDot(text) < |text| then text[FirstDot(text) + 1..] else ""
  }

  /** The nanos of a fraction that has lost its trailing zeros. The length of the text goes through a
      32-bit number, and the product is not checked. */
  function ParseRemainder(trimmed: string): Result<U64> {
    if trimmed == "" then Ok(0)
    else
      match ParseU64(trimmed)
      case None => Err(FailedToParse(REMAINDER_MESSAGE))
      case Some(parsed) =>
        var length := AsU32(|trimmed|);
        if length > MONEY_TO_RAW_POWER_OF_10_CONVERSION then Err(LossOfPrecision)
        else Ok(Wrap(Scale(parsed, MONEY_TO_RAW_POWER_OF_10_CONVERSION - length)))
  }

  function FromStr(text: string): Result<Money> {
    FromPieces(Units(text), TrimZeros(Fraction(text)))
  }

  /** Puts together the text of the units and that of the fraction without its trailing zeros. */
  function FromPieces(unitsText: string, trimmed: string): Result<Money> {
    match ParseU64(unitsText)
    case None => Err(FailedToParse(UNITS_MESSAGE))
    case Some(units) =>
      var convertedUnits := units * MONEY_TO_RAW_CONVERSION;
      if convertedUnits >= U64_SIZE then Err(ExcessiveValue)
      else
        match ParseRemainder(trimmed)
        case Err(error) => Err(error)
        case Ok(remainder) => Ok(Money(Wrap(convertedUnits + remainder)))
  }

  function Display(m: Money): string {
    Decimal(m.nano / MONEY_TO_RAW_CONVERSION) + "."
    + Padded(m.nano % MONEY_TO_RAW_CONVERSION, MONEY_TO_RAW_POWER_OF_10_CONVERSION)
  }

  // ----- splitting at the dot

  lemma {:induction false} FirstDotAt(units: string, fraction: string)
    requires '.' !in units
    ensures FirstDot(units + "." + fraction) == |units|
    ensures Units(units + "." + fraction) == units
    ensures Fraction(units + "." + fraction) == fraction
  {
    var text := units + "." + fraction;
    if units != "" {
      FirstDotAt(units[1..], fraction);
      assert text[1..] == units[1..] + "." + fraction;
    }
  }

  lemma DigitsHaveNoDot(s: string)
    requires AllDigits(s)
    ensures '.' !in s && '+' !in s
  {
  }

  lemma TenToTheNine()
    ensures Pow10(9) == MONEY_TO_RAW_CONVERSION
  {
    assert Pow10(4) == 10_000;
    Pow10Sum(4, 4);
    assert Pow10(9) == 10 * Pow10(8);
  }

  // ----- arithmetic of scaling

  lemma MulMonotone(a: nat, b: nat, factor: nat)
    requires a < b && factor > 0
    ensures a <= a * factor < b * factor
  {
  }

  /** A number of at most nine places, scaled to nanos, stays below one unit. */
  lemma ScaledBelow(value: nat, places: nat)
    requires places <= 9 && value < Pow10(places)
    ensures value <= value * Pow10(9 - places) < MONEY_TO_RAW_CONVERSION
  {
    TenToTheNine();
    Pow10Sum(places, 9 - places);
    MulMonotone(value, Pow10(places), Pow10(9 - places));
  }

  // ----- round trips

  lemma WrapSmall(n: nat)
    requires n < U64_SIZE
    ensures Wrap(n) == n
  {
  }

  lemma ParseDigits(s: string)
    requires AllDigits(s) && s != ""
    ensures ParseU64(s) == if Value(s) < U64_SIZE then Some(Value(s)) else None
  {
    DigitsHaveNoDot(s);
    assert s[0] in s;
  }

  /** A fraction of digits and at most nine places, trimmed, is worth its value scaled to nanos. */
  lemma RemainderOfDigits(t: string)
    requires AllDigits(t) && |t| <= 9
    ensures Value(t) * Pow10(9 - |t|) < MONEY_TO_RAW_CONVERSION
    ensures ParseRemainder(t) == Ok(Value(t) * Pow10(9 - |t|))
  {
    ValueBelow(t);
    ScaledBelow(Value(t), |t|);
    if t != "" {
      ParseDigits(t);
      RemainderOf(t, Value(t));
      WrapSmall(Value(t) * Pow10(9 - |t|));
    }
  }

  /** A remainder text that parses and is short enough is worth its scaled number. */
  lemma RemainderOf(t: string, parsed: U64)
    requires t != "" && |t| <= 9
    requires ParseU64(t) == Some(parsed)
    ensures ParseRemainder(t) == Ok(Wrap(parsed * Pow10(9 - |t|)))
  {
  }

  lemma FromParts(text: string, units: U64, remainder: U64)
    requires ParseU64(Units(text)) == Some(units)
    requires ParseRemainder(TrimZeros(Fraction(text))) == Ok(remainder)
    ensures FromStr(text) == if units * MONEY_TO_RAW_CONVERSION >= U64_SIZE then Err(ExcessiveValue)
                             else Ok(Money(Wrap(units * MONEY_TO_RAW_CONVERSION + remainder)))
  {
  }

  /** Units, a dot and nine digits: the form in which amounts are printed. */
  function FixedForm(units: nat, nanos: nat): string {
    Decimal(units) + "." + FixedWidth(nanos, 9)
  }

  lemma FixedFormParts(units: nat, nanos: nat)
    requires nanos < MONEY_TO_RAW_CONVERSION
    ensures Units(FixedForm(units, nanos)) == Decimal(units) && Value(Decimal(units)) == units
    ensures Fraction(FixedForm(units, nanos)) == FixedWidth(nanos, 9)
    ensures |FixedWidth(nanos, 9)| == 9 && AllDigits(FixedWidth(nanos, 9)) && Value(FixedWidth(nanos, 9)) == nanos
  {
    TenToTheNine();
    FixedWidthValue(nanos, 9);
    DecimalValue(units);
    DigitsHaveNoDot(Decimal(units));
    FirstDotAt(Decimal(units), FixedWidth(nanos, 9));
  }

  /** Nine digits, trimmed and parsed, give their value. */
  lemma NineDigits(fraction: string)
    requires |fraction| == 9 && AllDigits(fraction)
    ensures Value(fraction) < MONEY_TO_RAW_CONVERSION
    ensures ParseRemainder(TrimZeros(fraction)) == Ok(Value(fraction))
  {
    TenToTheNine();
    ValueBelow(fraction);
    TrimKeepsValue(fraction);
    RemainderOfDigits(TrimZeros(fraction));
  }

  lemma FixedFormParses(units: U64, nanos: nat)
    requires nanos < MONEY_TO_RAW_CONVERSION
    ensures FromStr(FixedForm(units, nanos)) ==
        if units * MONEY_TO_RAW_CONVERSION >= U64_SIZE then Err(ExcessiveValue)
        else Ok(Money(Wrap(units * MONEY_TO_RAW_CONVERSION + nanos)))
  {
    var text := FixedForm(units, nanos);
    assert ParseU64(Units(text)) == Some(units) by {
      FixedFormParts(units, nanos);
      ParseDigits(Decimal(units));
    }
    assert ParseRemainder(TrimZeros(Fraction(text))) == Ok(nanos) by {
      FixedFormParts(units, nanos);
      NineDigits(FixedWidth(nanos, 9));
    }
    FromParts(text, units, nanos);
  }

  lemma AmountParses(m: Money, units: nat, nanos: nat)
    requires m.nano == units * MONEY_TO_RAW_CONVERSION + nanos && nanos < MONEY_TO_RAW_CONVERSION
    ensures FromStr(FixedForm(units, nanos)) == Ok(m)
  {
    FixedFormParses(units, nanos);
    WrapSmall(m.nano);
  }

  lemma DisplayIsFixedForm(m: Money)
    ensures Display(m) == FixedForm(m.nano / MONEY_TO_RAW_CONVERSION, m.nano % MONEY_TO_RAW_CONVERSION)
  {
    TenToTheNine();
    PaddedIsFixedWidth(m.nano % MONEY_TO_RAW_CONVERSION, 9);
  }

  /** Parsing what was printed gives back the amount, for every amount. */
  lemma PrintThenParse(m: Money)
    ensures FromStr(Display(m)) == Ok(m)
  {
    DisplayIsFixedForm(m);
    AmountParses(m, m.nano / MONEY_TO_RAW_CONVERSION, m.nano % MONEY_TO_RAW_CONVERSION);
  }
}
