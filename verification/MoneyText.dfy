/** Money as text and exchange rates: parsing, printing, scaling and half-up conversion. */
module MoneyText {
  import opened Wrappers
  import opened DecimalText
  import opened CashRefundMath

  const MONEY_MINOR_EXPONENT: nat := 2
  const FX_RATE_MAX_SCALE: nat := 8
  const MAX_SAFE_INTEGER: nat := 0x1F_FFFF_FFFF_FFFF

  // ----- minor units -----

  datatype AmountError = AmountInvalid | AmountOverflow | NegativeAmount

  /** Two decimals, always. */
  function MinorToMajor(minor: nat): string { Print(minor / 100) + "." + PadStart(Print(minor % 100), 2) }

  function MinorUnitsToMajorDecimalString(minor: int): Result<string, AmountError> {
    if minor < 0 then Err(NegativeAmount) else Ok(MinorToMajor(minor))
  }

  function MinorOf(p: Parts): nat
    requires AllDigits(p.whole) && AllDigits(p.frac) && |p.frac| <= 2
  {
    PadEndValue(p.frac, 2);
    Value(p.whole) * 100 + Value(PadEnd(p.frac, 2))
  }

  function MajorDecimalStringToMinorUnits(major: string): Result<nat, AmountError> {
    match Split(major, Some(2))
    case None => Err(AmountInvalid)
    case Some(p) => Ok(MinorOf(p))
  }

  /** The same reading for the provider, which only takes positive amounts it can represent. */
  function MajorStringToFlittMinorUnits(major: string): Result<nat, AmountError> {
    match Split(major, Some(2))
    case None => Err(AmountInvalid)
    case Some(p) =>
      var minor := MinorOf(p);
      if minor <= 0 then Err(AmountInvalid) else if minor > MAX_SAFE_INTEGER then Err(AmountOverflow) else Ok(minor)
  }

  /** An amount is read as whole units and hundredths: one digit after the point counts tenths. */
  lemma AmountReadExactly(major: string)
    ensures var p := Split(major, Some(2));
      MajorDecimalStringToMinorUnits(major)
        == if p.None? then Err(AmountInvalid)
           else Ok(Value(p.value.whole) * 100 + (if |p.value.frac| == 1 then Value(p.value.frac) * 10 else Value(p.value.frac)))
  {
    var p := Split(major, Some(2));
    if p.Some? {
      PadEndValue(p.value.frac, 2);
      assert Pow10(0) == 1 && Pow10(1) == 10 * Pow10(0);
    }
  }

  lemma FracPrinted(m: nat)
    requires m < 100
    ensures var f := PadStart(Print(m), 2); AllDigits(f) && |f| == 2 && Value(f) == m
  {
    PrintValue(m);
    PadStartValue(Print(m), 2);
    if |Print(m)| > 2 { TwoDigits(m); }
  }

  lemma TwoDigits(m: nat)
    requires m < 100
    ensures |Print(m)| <= 2
  {
  }

  /** Printing minor units and reading them back is the identity. */
  lemma PrintedAmountReadsBack(minor: nat)
    ensures MinorUnitsToMajorDecimalString(minor) == Ok(MinorToMajor(minor))
    ensures MajorDecimalStringToMinorUnits(MinorToMajor(minor)) == Ok(minor)
  {
    FracPrinted(minor % 100);
    PrintValue(minor / 100);
    var p := Parts(Print(minor / 100), PadStart(Print(minor % 100), 2));
    SplitJoin(p, Some(2));
    assert PadEnd(p.frac, 2) == p.frac;
  }

  /** The provider's reading agrees on every positive amount it can represent, and on no other. */
  lemma FlittReadsExactlyPositiveSafeAmounts(major: string)
    ensures MajorStringToFlittMinorUnits(major).Ok? <==>
      MajorDecimalStringToMinorUnits(major).Ok? && 0 < MajorDecimalStringToMinorUnits(major).value <= MAX_SAFE_INTEGER
    ensures MajorStringToFlittMinorUnits(major).Ok? ==> MajorStringToFlittMinorUnits(major) == MajorDecimalStringToMinorUnits(major)
  {
  }

  lemma FlittReadsPrintedAmounts(minor: nat)
    ensures MajorStringToFlittMinorUnits(MinorToMajor(minor)).Ok? <==> 0 < minor <= MAX_SAFE_INTEGER
  {
    PrintedAmountReadsBack(minor);
    FlittReadsExactlyPositiveSafeAmounts(MinorToMajor(minor));
  }

  /** The form printing produces: no leading zeros, a point, two decimals, nothing around. */
  predicate Canonical(s: string) {
    |s| >= 4 && s[|s| - 3] == '.' && AllDigits(s[..|s| - 3]) && AllDigits(s[|s| - 2..]) && NoLeadingZero(s[..|s| - 3])
  }

  /** Reading and printing again gives the text back exactly when it was canonical. */
  lemma ReadAmountPrintsBack(s: string)
    requires MajorDecimalStringToMinorUnits(s).Ok?
    ensures MinorToMajor(MajorDecimalStringToMinorUnits(s).value) == s <==> Canonical(s)
  {
    var p := Split(s, Some(2)).value;
    var minor := MinorOf(p);
    if MinorToMajor(minor) == s {
      PrintedIsCanonical(minor);
    }
    if Canonical(s) {
      CanonicalParts(s);
      PadEndValue(p.frac, 2);
      assert PadEnd(p.frac, 2) == p.frac;
      ValueBound(p.frac);
      assert Pow10(2) == 100 by { assert Pow10(1) == 10 * Pow10(0); }
      assert minor / 100 == Value(p.whole) && minor % 100 == Value(p.frac);
      PrintOfValue(p.whole);
      FracPrintsBack(p.frac);
    }
  }

  lemma PrintedIsCanonical(minor: nat)
    ensures Canonical(MinorToMajor(minor))
  {
    FracPrinted(minor % 100);
    PrintNoLeadingZero(minor / 100);
    var s := MinorToMajor(minor);
    assert s[..|s| - 3] == Print(minor / 100);
    assert s[|s| - 2..] == PadStart(Print(minor % 100), 2);
  }

  lemma CanonicalParts(s: string)
    requires Canonical(s)
    ensures Split(s, Some(2)) == Some(Parts(s[..|s| - 3], s[|s| - 2..])) && s == s[..|s| - 3] + "." + s[|s| - 2..]
  {
  }

  lemma FracPrintsBack(f: string)
    requires AllDigits(f) && |f| == 2
    ensures PadStart(Print(Value(f)), 2) == f
  {
    assert f == [f[0]] + [f[1]];
    if f[0] != '0' {
      PrintOfValue(f);
    } else {
      ValueConcat([f[0]], [f[1]]);
      PrintOfValue([f[1]]);
      assert Value([f[0]]) == 0 by { assert [f[0]][..0] == ""; }
      assert Zeros(1) == "0" by { assert Zeros(0) == ""; }
    }
  }
}
