/**
 * parseUsdToUsdcUnits: a decimal USD string to USDC base units (6 decimals),
 * with exact integer arithmetic and no rounding.
 */
module AmountCodec {
  import opened Results
  import opened JsText

  const USDC_DECIMALS: nat := 6

  /** 10^6 base units make one USDC. */
  const UNITS_PER_USDC: nat := 1000000

  datatype AmountError =
    | EmptyAmount      // "Enter an amount."
    | NotANumber       // "Amount must be a number."
    | TooManyDecimals  // "USDC supports up to 6 decimal places."
    | NotPositive      // "Amount must be greater than 0."

  /** The meaning of /^\d+(\.\d+)?$/: digits, optionally a dot and more digits. */
  ghost predicate IsPlainDecimal(s: string) {
    (s != [] && AllDigits(s))
    || exists k :: 0 < k < |s| - 1 && s[k] == '.' && AllDigits(s[..k]) && AllDigits(s[k + 1..])
  }

  /** The source's regular-expression test, decided by one scan for the dot. */
  predicate MatchesAmountPattern(s: string) {
    var k := IndexOf(s, '.');
    if k == |s| then s != [] && AllDigits(s)
    else 0 < k < |s| - 1 && AllDigits(s[..k]) && AllDigits(s[k + 1..])
  }

  lemma MatchesAmountPatternIsPlainDecimal(s: string)
    ensures MatchesAmountPattern(s) <==> IsPlainDecimal(s)
  {
    if MatchesAmountPattern(s) {
      MatchedIsPlainDecimal(s);
    }
    if IsPlainDecimal(s) {
      PlainDecimalMatches(s);
    }
  }

  lemma MatchedIsPlainDecimal(s: string)
    requires MatchesAmountPattern(s)
    ensures IsPlainDecimal(s)
  {
    var k := IndexOf(s, '.');
    if k < |s| {
      assert 0 < k < |s| - 1 && s[k] == '.' && AllDigits(s[..k]) && AllDigits(s[k + 1..]);
    }
  }

  lemma PlainDecimalMatches(s: string)
    requires IsPlainDecimal(s)
    ensures MatchesAmountPattern(s)
  {
    if s != [] && AllDigits(s) {
      FirstDotAt(s, |s|);
    } else {
      var j :| 0 < j < |s| - 1 && s[j] == '.' && AllDigits(s[..j]) && AllDigits(s[j + 1..]);
      forall i | 0 <= i < j
        ensures s[i] != '.'
      {
        assert s[..j][i] == s[i];
      }
      FirstDotAt(s, j);
    }
  }

  /** The part after the first dot (the source's `frac`, "" without a dot). */
  function FractionPart(s: string): string {
    var k := IndexOf(s, '.');
    if k < |s| then s[k + 1..] else []
  }

  /** whole * 10^6 plus the fraction right-padded with '0' to six digits. */
  function WholeAndFractionUnits(whole: string, frac: string): nat
    requires AllDigits(whole) && AllDigits(frac) && |frac| <= USDC_DECIMALS
  {
    var fracPadded := PadEnd(frac, USDC_DECIMALS, '0');
    ValueOf(whole, 10) * UNITS_PER_USDC + ValueOf(fracPadded, 10)
  }

  /** The checks after trimming, in the source's order. */
  function ParseTrimmed(s: string): (r: Result<nat, AmountError>)
    ensures r.Ok? ==> r.value >= 1
  {
    if s == [] then Err(EmptyAmount)
    else if !MatchesAmountPattern(s) then Err(NotANumber)
    else
      var whole := s[..IndexOf(s, '.')];
      var frac := FractionPart(s);
      if |frac| > USDC_DECIMALS then Err(TooManyDecimals)
      else
        var units := WholeAndFractionUnits(whole, frac);
        if units <= 0 then Err(NotPositive) else Ok(units)
  }

  function ParseUsdToUsdcUnits(usdString: string): (r: Result<nat, AmountError>)
    ensures r.Ok? ==> r.value >= 1
  {
    ParseTrimmed(Trim(usdString))
  }

  /** The first two checks: empty after trimming, then the regular expression. */
  lemma ParseRejectsEmptyAndNonNumeric(usdString: string)
    ensures ParseUsdToUsdcUnits(usdString) == Err(EmptyAmount) <==> Trim(usdString) == []
    ensures ParseUsdToUsdcUnits(usdString) == Err(NotANumber)
        <==> Trim(usdString) != [] && !IsPlainDecimal(Trim(usdString))
  {
    MatchesAmountPatternIsPlainDecimal(Trim(usdString));
  }

  /** Only the trimmed text matters. */
  lemma ParseOfTrimmed(usdString: string)
    ensures ParseUsdToUsdcUnits(Trim(usdString)) == ParseUsdToUsdcUnits(usdString)
  {
    TrimIdempotent(usdString);
  }

  lemma {:induction false} TrailingZerosValue(s: string, k: nat)
    requires AllDigits(s)
    ensures AllHex(s + Repeat('0', k))
    ensures ValueOf(s + Repeat('0', k), 10) == ValueOf(s, 10) * Pow(10, k)
  {
    ValueOfZeros(k, 10);
    ValueOfAppend(s, Repeat('0', k), 10);
  }

  /** Right-padding the fraction scales it: whole * 10^6 + f * 10^(6 - |f|), with no rounding. */
  lemma WholeAndFractionValue(whole: string, frac: string)
    requires AllDigits(whole) && AllDigits(frac) && |frac| <= USDC_DECIMALS
    ensures WholeAndFractionUnits(whole, frac)
      == ValueOf(whole, 10) * UNITS_PER_USDC + ValueOf(frac, 10) * Pow(10, USDC_DECIMALS - |frac|)
  {
    var z := USDC_DECIMALS - |frac|;
    var padded := PadEnd(frac, USDC_DECIMALS, '0');
    assert padded == frac + Repeat('0', z);
    TrailingZerosValue(frac, z);
    assert ValueOf(padded, 10) == ValueOf(frac, 10) * Pow(10, z);
  }

  lemma FirstDotAt(s: string, j: nat)
    requires j <= |s| && (j < |s| ==> s[j] == '.') && forall i :: 0 <= i < j ==> s[i] != '.'
    ensures IndexOf(s, '.') == j
  {
  }

  /** How the source splits a text that has one dot between two digit runs. */
  lemma SplitAtDot(whole: string, frac: string)
    requires whole != [] && AllDigits(whole) && frac != [] && AllDigits(frac)
    ensures var s := whole + "." + frac;
      MatchesAmountPattern(s) && s[..IndexOf(s, '.')] == whole && FractionPart(s) == frac
  {
    var s := whole + "." + frac;
    FirstDotAt(s, |whole|);
    assert s[..|whole|] == whole && s[|whole| + 1..] == frac;
  }

  lemma ParseAsTrimmed(s: string)
    requires s != [] ==> !IsJsWhitespace(s[0]) && !IsJsWhitespace(s[|s| - 1])
    ensures ParseUsdToUsdcUnits(s) == ParseTrimmed(s)
  {
    TrimOfTrimmed(s);
  }

  /** A text that does not open with a digit is not a number. */
  lemma ParseLeadingNonDigit(s: string)
    requires s != [] && !IsDigit(s[0]) && !IsJsWhitespace(s[0]) && !IsJsWhitespace(s[|s| - 1])
    ensures ParseUsdToUsdcUnits(s) == Err(NotANumber)
  {
    ParseAsTrimmed(s);
    var k := IndexOf(s, '.');
    if 0 < k < |s| {
      assert s[..k][0] == s[0];
    }
  }

  /** "w.f" with more than six fraction digits is refused. */
  lemma ParseTooManyDecimals(whole: string, frac: string)
    requires whole != [] && AllDigits(whole) && frac != [] && AllDigits(frac)
    requires |frac| > USDC_DECIMALS
    ensures ParseUsdToUsdcUnits(whole + "." + frac) == Err(TooManyDecimals)
  {
    var s := whole + "." + frac;
    ParseAsTrimmed(s);
    SplitAtDot(whole, frac);
  }

  /** "w.f": whole * 10^6 plus f right-padded to six digits, exactly; zero is refused. */
  lemma ParseDecimal(whole: string, frac: string)
    requires whole != [] && AllDigits(whole) && frac != [] && AllDigits(frac)
    requires |frac| <= USDC_DECIMALS
    ensures var units := WholeAndFractionUnits(whole, frac);
      ParseUsdToUsdcUnits(whole + "." + frac) == if units == 0 then Err(NotPositive) else Ok(units)
  {
    var s := whole + "." + frac;
    ParseAsTrimmed(s);
    SplitAtDot(whole, frac);
  }

  lemma WholeUnits(whole: string)
    requires AllDigits(whole)
    ensures WholeAndFractionUnits(whole, []) == ValueOf(whole, 10) * UNITS_PER_USDC
  {
    ValueOfZeros(USDC_DECIMALS, 10);
    assert PadEnd([], USDC_DECIMALS, '0') == Repeat('0', USDC_DECIMALS);
  }

  /** A whole number of dollars: whole * 10^6, or NotPositive for zero. */
  lemma ParseWhole(whole: string)
    requires whole != [] && AllDigits(whole)
    ensures var units := ValueOf(whole, 10) * UNITS_PER_USDC;
      ParseUsdToUsdcUnits(whole) == if units == 0 then Err(NotPositive) else Ok(units)
  {
    var u := WholeAndFractionUnits(whole, []);
    assert ParseUsdToUsdcUnits(whole) == if u == 0 then Err(NotPositive) else Ok(u) by {
      ParseAsTrimmed(whole);
      FirstDotAt(whole, |whole|);
      assert whole[..|whole|] == whole;
    }
    WholeUnits(whole);
  }

  lemma PowTen6()
    ensures Pow(10, 6) == UNITS_PER_USDC
  {
  }

  // ------------------------------------------------------------ the inverse

  /** Base units as a decimal string with all six decimal places; ParseUsdToUsdcUnits inverts it (FormatThenParse). */
  function FormatUsdcUnits(units: nat): string {
    NatToString(units / UNITS_PER_USDC, 10) + "." + PadStart(NatToString(units % UNITS_PER_USDC, 10), USDC_DECIMALS, '0')
  }

  lemma DecimalDigits(n: nat)
    ensures AllDigits(NatToString(n, 10)) && ValueOf(NatToString(n, 10), 10) == n
  {
    NatToStringValue(n, 10);
  }

  /** The six-place fraction of Format: all digits, worth the remainder. */
  lemma FractionDigits(m: nat)
    requires m < UNITS_PER_USDC
    ensures var frac := PadStart(NatToString(m, 10), USDC_DECIMALS, '0');
      |frac| == USDC_DECIMALS && AllDigits(frac) && ValueOf(frac, 10) == m
  {
    var low := NatToString(m, 10);
    var frac := PadStart(low, USDC_DECIMALS, '0');
    DecimalDigits(m);
    PowTen6();
    NatToStringLength(m, 10, USDC_DECIMALS);
    PadStartValue(low, USDC_DECIMALS, 10);
    forall i | 0 <= i < |frac| ensures IsDigit(frac[i]) {
      if i >= |frac| - |low| { assert frac[i] == frac[|frac| - |low|..][i - (|frac| - |low|)]; }
    }
  }

  lemma FormattedUnits(units: nat, frac: string)
    requires |frac| == USDC_DECIMALS && AllDigits(frac) && ValueOf(frac, 10) == units % UNITS_PER_USDC
    ensures var whole := NatToString(units / UNITS_PER_USDC, 10);
      AllDigits(whole) && WholeAndFractionUnits(whole, frac) == units
  {
    DecimalDigits(units / UNITS_PER_USDC);
    assert PadEnd(frac, USDC_DECIMALS, '0') == frac;
    DivMod(units, UNITS_PER_USDC);
  }

  /** Formatting six decimal places and parsing back gives the same number of base units. */
  lemma FormatThenParse(units: nat)
    requires units >= 1
    ensures ParseUsdToUsdcUnits(FormatUsdcUnits(units)) == Ok(units)
  {
    var q, m := units / UNITS_PER_USDC, units % UNITS_PER_USDC;
    var whole, frac := NatToString(q, 10), PadStart(NatToString(m, 10), USDC_DECIMALS, '0');
    DecimalDigits(q);
    FractionDigits(m);
    FormattedUnits(units, frac);
    ParseDecimal(whole, frac);
  }

  // ------------------------------------------------------------ examples

  /** A decimal text whose units are known and positive parses to them. */
  lemma ParseDecimalValue(whole: string, frac: string, units: nat)
    requires whole != [] && AllDigits(whole) && frac != [] && AllDigits(frac) && |frac| <= USDC_DECIMALS
    requires units == WholeAndFractionUnits(whole, frac) && units >= 1
    ensures ParseUsdToUsdcUnits(whole + "." + frac) == Ok(units)
  {
    ParseDecimal(whole, frac);
  }

  lemma FractionUnits(whole: string, frac: string, w: nat, f: nat, scale: nat)
    requires AllDigits(whole) && AllDigits(frac) && |frac| <= USDC_DECIMALS
    requires ValueOf(whole, 10) == w && ValueOf(frac, 10) == f && Pow(10, USDC_DECIMALS - |frac|) == scale
    ensures WholeAndFractionUnits(whole, frac) == w * UNITS_PER_USDC + f * scale
  {
    WholeAndFractionValue(whole, frac);
  }

  lemma ThreeAndAHalfUnits()
    ensures WholeAndFractionUnits("3", "5") == 3500000
  {
    assert ValueOf("3", 10) == 3 && ValueOf("5", 10) == 5;
    assert Pow(10, 5) == 100000;
    FractionUnits("3", "5", 3, 5, 100000);
  }

  /** A literal split at its dot. */
  lemma JoinedText(whole: string, frac: string, s: string)
    requires |s| == |whole| + 1 + |frac| && s[..|whole|] == whole && s[|whole|] == '.' && s[|whole| + 1..] == frac
    ensures whole + "." + frac == s
  {
    assert s == s[..|whole|] + [s[|whole|]] + s[|whole| + 1..];
  }

  /** "3.5" is 3.5 USDC. */
  lemma ParseThreeAndAHalf()
    ensures ParseUsdToUsdcUnits("3.5") == Ok(3500000)
  {
    ThreeAndAHalfUnits();
    JoinedText("3", "5", "3.5");
    ParseDecimalValue("3", "5", 3500000);
  }

  lemma OneUnitUnits()
    ensures WholeAndFractionUnits("0", "000001") == 1
  {
    assert Repeat('0', 5) + "1" == "000001";
    LeadingZerosValue(5, "1", 10);
    assert ValueOf("0", 10) == 0 && ValueOf("1", 10) == 1;
    FractionUnits("0", "000001", 0, 1, 1);
  }

  /** "0.000001" is the smallest amount, one base unit. */
  lemma ParseOneUnit()
    ensures ParseUsdToUsdcUnits("0.000001") == Ok(1)
  {
    OneUnitUnits();
    JoinedText("0", "000001", "0.000001");
    ParseDecimalValue("0", "000001", 1);
  }

  /** "10" is a digit string denoting ten. */
  lemma TenDigits()
    ensures AllDigits("10") && ValueOf("10", 10) == 10
  {
    assert "10"[..1] == "1";
    assert "1"[..0] == [];
  }

  /** "10" is ten dollars. */
  lemma ParseTen()
    ensures ParseUsdToUsdcUnits("10") == Ok(10000000)
  {
    TenDigits();
    ParseWhole("10");
  }

  /** Zero, written either way, is refused. */
  lemma ParseZero()
    ensures ParseUsdToUsdcUnits("0") == Err(NotPositive)
  {
    ParseWhole("0");
    assert ValueOf("0", 10) == 0;
  }

  lemma ParseZeroDecimals()
    ensures ParseUsdToUsdcUnits("0.000000") == Err(NotPositive)
  {
    assert "0.000000" == "0" + "." + Repeat('0', 6);
    ParseDecimal("0", Repeat('0', 6));
    WholeAndFractionValue("0", Repeat('0', 6));
    ValueOfZeros(6, 10);
    assert ValueOf("0", 10) == 0;
  }

  /** Texts that are not plain decimals: letters, no whole part, no fraction after the dot, a sign. */
  lemma ParseLetters()
    ensures ParseUsdToUsdcUnits("abc") == Err(NotANumber)
  {
    ParseLeadingNonDigit("abc");
  }

  lemma ParseNoWholePart()
    ensures ParseUsdToUsdcUnits(".5") == Err(NotANumber)
  {
    ParseLeadingNonDigit(".5");
  }

  lemma ParseNoFraction()
    ensures ParseUsdToUsdcUnits("1.") == Err(NotANumber)
  {
    ParseAsTrimmed("1.");
    assert IndexOf("1.", '.') == 1;
  }

  lemma ParseNegative()
    ensures ParseUsdToUsdcUnits("-1") == Err(NotANumber)
  {
    ParseLeadingNonDigit("-1");
  }

  /** A text of white space only, the empty text included, is an empty amount. */
  lemma ParseBlank(s: string)
    requires forall i :: 0 <= i < |s| ==> IsJsWhitespace(s[i])
    ensures ParseUsdToUsdcUnits(s) == Err(EmptyAmount)
  {
    ParseRejectsEmptyAndNonNumeric(s);
  }

  /** Seven decimal places are too many. */
  lemma ParseSevenDecimals()
    ensures ParseUsdToUsdcUnits("1.1234567") == Err(TooManyDecimals)
  {
    assert "1.1234567" == "1" + "." + "1234567";
    ParseTooManyDecimals("1", "1234567");
  }
}
