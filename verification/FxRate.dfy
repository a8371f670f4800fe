/** Exchange rates: exact decimals, division by a nominal, and conversion of dollars to tetri. */
module FxRate {
  import opened Wrappers
  import opened DecimalText
  import opened CashRefundMath
  import opened MoneyText

  datatype FxError = DecimalInvalid | DecimalNotPositive | NominalInvalid | UsdPrecision | RatePrecision | ChargeOverflow | TetriInvalid

  /** The number unscaled / 10^scale. */
  datatype Decimal = Decimal(unscaled: nat, scale: nat)

  function ParsePositiveDecimal(text: string): Result<Decimal, FxError> {
    match Split(text, None)
    case None => Err(DecimalInvalid)
    case Some(p) =>
      ValueConcat(StripZeros(p.whole), p.frac);
      var unscaled := Value(StripZeros(p.whole) + p.frac);
      if unscaled <= 0 then Err(DecimalNotPositive) else Ok(Decimal(unscaled, |p.frac|))
  }

  /**
   * Exactly the texts of a positive number are read: as all their digits, and as many decimals as
   * there are digits after the point.
   */
  lemma ParsesExactly(text: string)
    ensures var d, p := ParsePositiveDecimal(text), Split(text, None);
      if p.None? then d == Err(DecimalInvalid)
      else
        var number := Value(p.value.whole) * Pow10(|p.value.frac|) + Value(p.value.frac);
        d == if number == 0 then Err(DecimalNotPositive) else Ok(Decimal(number, |p.value.frac|))
  {
    if Split(text, None).Some? {
      var p := Split(text, None).value;
      StripZerosValue(p.whole);
      ValueConcat(StripZeros(p.whole), p.frac);
    }
  }

  function FormatUnscaledDecimal(unscaled: nat, scale: nat): string {
    var padded := PadStart(Print(unscaled), scale + 1);
    if scale == 0 then StripZeros(padded)
    else if |padded| <= scale then padded
    else
      var cut := |padded| - scale;
      var whole, frac := StripZeros(padded[..cut]), TrimZeros(padded[cut..]);
      if |frac| == 0 then whole else whole + "." + frac
  }

  // ----- printing keeps the number -----

  /** The same number, with no trailing zero after the point. */
  ghost predicate Reduced(d: Decimal, unscaled: nat, scale: nat) {
    d.scale <= scale && d.unscaled * Pow10(scale - d.scale) == unscaled && (d.scale > 0 ==> d.unscaled % 10 != 0)
  }

  /** A positive decimal printed and read back is the same number in lowest scale. */
  lemma FormattedReadsBack(unscaled: nat, scale: nat)
    requires unscaled > 0
    ensures ParsePositiveDecimal(FormatUnscaledDecimal(unscaled, scale)).Ok?
    ensures Reduced(ParsePositiveDecimal(FormatUnscaledDecimal(unscaled, scale)).value, unscaled, scale)
  {
    hide Value;
    hide Pow10;
    var p := FormattedParts(unscaled, scale);
    hide FormatUnscaledDecimal;
    SplitJoin(p, None);
  }

  /** The two parts of a formatted decimal, and the number they make up. */
  lemma FormattedParts(unscaled: nat, scale: nat) returns (p: Parts)
    ensures PartsOk(p) && |p.frac| <= scale && FormatUnscaledDecimal(unscaled, scale) == Join(p)
    ensures AllDigits(StripZeros(p.whole) + p.frac)
    ensures Value(StripZeros(p.whole) + p.frac) * Pow10(scale - |p.frac|) == unscaled
    ensures |p.frac| > 0 ==> Value(StripZeros(p.whole) + p.frac) % 10 != 0
  {
    hide Value;
    hide Pow10;
    var w, f := Halves(unscaled, scale);
    StripZerosValue(w);
    TrimZerosValue(f);
    p := Parts(StripZeros(w), TrimZeros(f));
    hide FormatUnscaledDecimal;
    hide StripZeros;
    hide TrimZeros;
    JoinedValue(w, p, scale);
    LastDigit(StripZeros(p.whole), p.frac);
  }

  /** The padded digits before and after the point. */
  lemma Halves(unscaled: nat, scale: nat) returns (w: string, f: string)
    ensures AllDigits(w) && AllDigits(f) && |w| > 0 && |f| == scale
    ensures Value(w) * Pow10(scale) + Value(f) == unscaled
    ensures FormatUnscaledDecimal(unscaled, scale) == Join(Parts(StripZeros(w), TrimZeros(f)))
  {
    hide Value;
    hide Pow10;
    hide StripZeros;
    hide TrimZeros;
    hide Print;
    var padded := PadStart(Print(unscaled), scale + 1);
    PrintValue(unscaled);
    PadStartValue(Print(unscaled), scale + 1);
    var cut := |padded| - scale;
    w, f := padded[..cut], padded[cut..];
    assert padded == w + f;
    ValueConcat(w, f);
    if scale == 0 { assert w == padded && f == ""; }
  }

  /** Whole part and trimmed fraction, read as one number. */
  lemma JoinedValue(w: string, p: Parts, scale: nat)
    requires AllDigits(w) && PartsOk(p) && Value(p.whole) == Value(w) && |p.frac| <= scale
    ensures AllDigits(StripZeros(p.whole) + p.frac)
    ensures Value(StripZeros(p.whole) + p.frac) * Pow10(scale - |p.frac|)
         == Value(w) * Pow10(scale) + Value(p.frac) * Pow10(scale - |p.frac|)
  {
    hide Value;
    hide Pow10;
    StripZerosValue(p.whole);
    ValueConcat(StripZeros(p.whole), p.frac);
    Pow10Sum(|p.frac|, scale - |p.frac|);
    Spread(Value(w), Pow10(|p.frac|), Value(p.frac), Pow10(scale - |p.frac|));
  }

  lemma LastDigit(whole: string, frac: string)
    requires AllDigits(whole) && AllDigits(frac) && AllDigits(whole + frac)
    ensures |frac| > 0 && frac[|frac| - 1] != '0' ==> Value(whole + frac) % 10 != 0
  {
  }

  lemma Spread(w: int, a: int, f: int, b: int)
    ensures (w * a + f) * b == w * (a * b) + f * b
  {
  }

  // ----- division by a nominal -----

  function ScaleUntilExact(unscaled: nat, scale: nat, divisor: nat): Decimal
    requires divisor > 0
    decreases if scale < FX_RATE_MAX_SCALE then FX_RATE_MAX_SCALE - scale else 0
  {
    if unscaled % divisor != 0 && scale < FX_RATE_MAX_SCALE then ScaleUntilExact(unscaled * 10, scale + 1, divisor)
    else Decimal(unscaled, scale)
  }

  function Quotient(scaled: Decimal, divisor: nat): nat
    requires divisor > 0
  {
    if scaled.unscaled % divisor == 0 then scaled.unscaled / divisor else HalfUp(scaled.unscaled, divisor)
  }

  function DivideDecimal(value: string, divisor: int): Result<string, FxError> {
    if divisor <= 0 then Err(NominalInvalid)
    else
      match ParsePositiveDecimal(value)
      case Err(e) => Err(e)
      case Ok(d) =>
        var scaled := ScaleUntilExact(d.unscaled, d.scale, divisor);
        var q := Quotient(scaled, divisor);
        if q <= 0 then Err(DecimalNotPositive) else Ok(FormatUnscaledDecimal(q, scaled.scale))
  }

  /** The division as it runs: add decimals until it comes out even or the scale is used up. */
  method DividePositiveDecimalByInteger(value: string, divisor: int) returns (r: Result<string, FxError>)
    ensures r == DivideDecimal(value, divisor)
  {
    if divisor <= 0 {
      return Err(NominalInvalid);
    }
    var parsed := ParsePositiveDecimal(value);
    if parsed.Err? {
      return Err(parsed.error);
    }
    var unscaled: nat := parsed.value.unscaled;
    var scale: nat := parsed.value.scale;
    while unscaled % divisor != 0 && scale < FX_RATE_MAX_SCALE
      invariant ScaleUntilExact(unscaled, scale, divisor) == ScaleUntilExact(parsed.value.unscaled, parsed.value.scale, divisor)
      decreases FX_RATE_MAX_SCALE - scale
    {
      unscaled := unscaled * 10;
      scale := scale + 1;
    }
    var quotient := if unscaled % divisor == 0 then unscaled / divisor else HalfUp(unscaled, divisor);
    if quotient <= 0 {
      return Err(DecimalNotPositive);
    }
    return Ok(FormatUnscaledDecimal(quotient, scale));
  }

  /** Adding k decimals makes the division come out even. */
  predicate EvenAfter(unscaled: nat, k: nat, divisor: nat)
    requires divisor > 0
  {
    (unscaled * Pow10(k)) % divisor == 0
  }

  lemma EvenShift(unscaled: nat, k: nat, divisor: nat)
    requires divisor > 0 && k > 0
    ensures EvenAfter(unscaled, k, divisor) == EvenAfter(unscaled * 10, k - 1, divisor)
  {
  }

  function Room(scale: nat): nat { if scale < FX_RATE_MAX_SCALE then FX_RATE_MAX_SCALE - scale else 0 }

  /** The loop stops at the first scale where the division is even, or at the largest scale allowed. */
  lemma {:induction false} ScaledExactly(unscaled: nat, scale: nat, divisor: nat)
    requires divisor > 0
    ensures var r := ScaleUntilExact(unscaled, scale, divisor);
      && scale <= r.scale <= scale + Room(scale)
      && r.unscaled == unscaled * Pow10(r.scale - scale)
      && (forall k: nat :: k < r.scale - scale ==> !EvenAfter(unscaled, k, divisor))
      && (r.unscaled % divisor == 0 || r.scale == scale + Room(scale))
    decreases Room(scale)
  {
    assert unscaled * Pow10(0) == unscaled;
    if unscaled % divisor != 0 && scale < FX_RATE_MAX_SCALE {
      ScaledExactly(unscaled * 10, scale + 1, divisor);
      var r := ScaleUntilExact(unscaled, scale, divisor);
      Reorder(unscaled, 10, Pow10(r.scale - scale - 1));
      forall k: nat | k < r.scale - scale ensures !EvenAfter(unscaled, k, divisor) {
        if k > 0 { EvenShift(unscaled, k, divisor); }
      }
    }
  }

  /** What a division yields: the number q / 10^scale. */
  ghost predicate Divides(d: Decimal, divisor: nat, q: nat, scale: nat)
    requires divisor > 0
  {
    && d.scale <= scale <= d.scale + Room(d.scale)
    && var exact := d.unscaled * Pow10(scale - d.scale);
      if exists k: nat :: k <= Room(d.scale) && EvenAfter(d.unscaled, k, divisor)
      then q * divisor == exact && forall k: nat :: k < scale - d.scale ==> !EvenAfter(d.unscaled, k, divisor)
      else scale == d.scale + Room(d.scale) && 2 * exact - divisor < 2 * (q * divisor) <= 2 * exact + divisor
  }

  lemma QuotientNearest(scaled: Decimal, divisor: nat)
    requires divisor > 0
    ensures scaled.unscaled % divisor == 0 ==> Quotient(scaled, divisor) * divisor == scaled.unscaled
    ensures scaled.unscaled % divisor != 0 ==>
      var twice := 2 * (Quotient(scaled, divisor) * divisor);
      2 * scaled.unscaled - divisor < twice <= 2 * scaled.unscaled + divisor
  {
  }

  lemma QuotientDivides(d: Decimal, divisor: nat)
    requires divisor > 0
    ensures var scaled := ScaleUntilExact(d.unscaled, d.scale, divisor);
      Divides(d, divisor, Quotient(scaled, divisor), scaled.scale)
  {
    hide Pow10;
    var scaled := ScaleUntilExact(d.unscaled, d.scale, divisor);
    ScaledExactly(d.unscaled, d.scale, divisor);
    QuotientNearest(scaled, divisor);
    hide ScaleUntilExact;
    hide Quotient;
    if scaled.unscaled % divisor == 0 {
      assert EvenAfter(d.unscaled, scaled.scale - d.scale, divisor);
    } else {
      forall k: nat | k <= Room(d.scale) ensures !EvenAfter(d.unscaled, k, divisor) {
        if k == Room(d.scale) { assert scaled.unscaled == d.unscaled * Pow10(k); }
      }
    }
  }

  /**
   * Dividing a rate by its nominal: exact, at the smallest possible scale, whenever eight decimals
   * suffice, and otherwise off by at most half of the last place. The text that comes out denotes
   * exactly that number; only a quotient that rounds to zero is refused.
   */
  lemma DivisionIsExactOrHalfUp(value: string, divisor: int)
    requires divisor > 0 && ParsePositiveDecimal(value).Ok?
    ensures var d := ParsePositiveDecimal(value).value;
      exists q: nat, scale: nat :: Divides(d, divisor, q, scale)
        && (DivideDecimal(value, divisor).Ok? <==> q > 0)
        && (DivideDecimal(value, divisor).Ok? ==> ReadsAs(DivideDecimal(value, divisor).value, q, scale))
  {
    var d := ParsePositiveDecimal(value).value;
    var scaled := ScaleUntilExact(d.unscaled, d.scale, divisor);
    var q := Quotient(scaled, divisor);
    QuotientDivides(d, divisor);
    if q > 0 { FormattedReadsBack(q, scaled.scale); }
    assert Divides(d, divisor, q, scaled.scale);
  }

  ghost predicate ReadsAs(text: string, unscaled: nat, scale: nat) {
    ParsePositiveDecimal(text).Ok? && Reduced(ParsePositiveDecimal(text).value, unscaled, scale)
  }

  // ----- dollars to lari -----

  datatype Charge = Charge(gelMajor: string, gelTetri: nat)

  function GelTetriToMajorString(tetri: int): Result<string, FxError> {
    if tetri <= 0 then Err(TetriInvalid) else Ok(MinorToMajor(tetri))
  }

  function Product(a: nat, b: nat): nat { a * b }

  /** The same number with more decimals, without its point. */
  function ScaleUp(d: Decimal, scale: nat): nat
    requires d.scale <= scale
  {
    Product(d.unscaled, Pow10(scale - d.scale))
  }

  function ConvertUsdMajorToGel(usdMajor: string, rate: string): Result<Charge, FxError> {
    match ParsePositiveDecimal(usdMajor)
    case Err(e) => Err(e)
    case Ok(usd) =>
      if usd.scale > MONEY_MINOR_EXPONENT then Err(UsdPrecision)
      else
        match ParsePositiveDecimal(rate)
        case Err(e) => Err(e)
        case Ok(fx) =>
          if fx.scale > FX_RATE_MAX_SCALE then Err(RatePrecision)
          else
            var tetri := HalfUp(Product(ScaleUp(usd, MONEY_MINOR_EXPONENT), fx.unscaled), Pow10(fx.scale));
            if tetri > MAX_SAFE_INTEGER then Err(ChargeOverflow)
            else
              match GelTetriToMajorString(tetri)
              case Err(e) => Err(e)
              case Ok(major) => Ok(Charge(major, tetri))
  }

  /** Both numbers are readable and precise enough. */
  predicate Convertible(usdMajor: string, rate: string) {
    && ParsePositiveDecimal(usdMajor).Ok? && ParsePositiveDecimal(usdMajor).value.scale <= MONEY_MINOR_EXPONENT
    && ParsePositiveDecimal(rate).Ok? && ParsePositiveDecimal(rate).value.scale <= FX_RATE_MAX_SCALE
  }

  /** An amount of at most two decimals, in hundredths. */
  ghost function Cents(d: Decimal): nat { if d.scale == 0 then d.unscaled * 100 else if d.scale == 1 then d.unscaled * 10 else d.unscaled }

  lemma CentsAreScaledUp(d: Decimal)
    requires d.scale <= MONEY_MINOR_EXPONENT
    ensures ScaleUp(d, MONEY_MINOR_EXPONENT) == Cents(d)
  {
    assert Pow10(0) == 1 && Pow10(1) == 10 * Pow10(0) && Pow10(2) == 10 * Pow10(1);
  }

  /** The exact product in tetri, times 10 to the rate's scale. */
  ghost function ExactTetri(usdMajor: string, rate: string): nat
    requires Convertible(usdMajor, rate)
  {
    Product(Cents(ParsePositiveDecimal(usdMajor).value), ParsePositiveDecimal(rate).value.unscaled)
  }

  ghost predicate NearestTetri(exact: nat, unit: nat, tetri: nat) {
    2 * exact - unit < 2 * (tetri * unit) <= 2 * exact + unit
  }

  /**
   * The charge is the one tetri amount within half a tetri of the exact product, ties going up;
   * conversion fails exactly on unreadable or too precise input and on amounts that round to zero
   * or exceed the largest safe integer. The printed amount reads back as the same tetri.
   */
  lemma ConversionWithinHalfTetri(usdMajor: string, rate: string, tetri: nat)
    ensures ConvertUsdMajorToGel(usdMajor, rate).Ok? ==> Convertible(usdMajor, rate)
    ensures Convertible(usdMajor, rate) && NearestTetri(ExactTetri(usdMajor, rate), Pow10(ParsePositiveDecimal(rate).value.scale), tetri) ==>
      && (ConvertUsdMajorToGel(usdMajor, rate).Ok? <==> 0 < tetri <= MAX_SAFE_INTEGER)
      && (ConvertUsdMajorToGel(usdMajor, rate).Ok? ==> Charged(ConvertUsdMajorToGel(usdMajor, rate).value, tetri))
    ensures Convertible(usdMajor, rate) ==>
      var unit := Pow10(ParsePositiveDecimal(rate).value.scale);
      NearestTetri(ExactTetri(usdMajor, rate), unit, HalfUp(ExactTetri(usdMajor, rate), unit))
  {
    if Convertible(usdMajor, rate) {
      CentsAreScaledUp(ParsePositiveDecimal(usdMajor).value);
      var exact, unit := ExactTetri(usdMajor, rate), Pow10(ParsePositiveDecimal(rate).value.scale);
      HalfUpIsNearest(exact, unit, tetri);
      HalfUpIsNearest(exact, unit, HalfUp(exact, unit));
      PrintedAmountReadsBack(tetri);
    }
  }

  predicate Charged(charge: Charge, tetri: nat) {
    charge.gelTetri == tetri && MajorDecimalStringToMinorUnits(charge.gelMajor) == Ok(tetri)
  }
}
