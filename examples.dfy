/**
  The concrete inputs of the repository's test suite, stated as lemmas about
  the model. Each takes the input as a parameter fixed by its precondition.
*/
module Examples {
  import opened Js
  import opened Util
  import opened Shapes
  import opened Checks
  import opened Combinators
  import opened Identify

  /** The weighted sum of the digits of `d` from weight `w`, one step of unfolding at a time. */
  lemma WeightedStep(d: string, w: nat)
    requires IsDigits(d) && d != []
    ensures IsDigits(d[1..])
    ensures WeightedFrom(d, w) == DigitValue(d[0]) * w + WeightedFrom(d[1..], w + 1)
  {
    assert forall i :: 0 <= i < |d[1..]| ==> d[1..][i] == d[i + 1];
  }

  /** The weighted digit sum of five digits, written out. */
  lemma {:induction false} WeightedFive(d: string)
    requires |d| == 5 && IsDigits(d)
    ensures WeightedDigitSum(d) ==
              DigitValue(d[0]) + 2 * DigitValue(d[1]) + 3 * DigitValue(d[2]) + 4 * DigitValue(d[3]) + 5 * DigitValue(d[4])
  {
    WeightedStep(d, 1);
    WeightedStep(d[1..], 2);
    WeightedStep(d[2..], 3);
    WeightedStep(d[3..], 4);
    WeightedStep(d[4..], 5);
    assert d[1..][1..] == d[2..] && d[2..][1..] == d[3..] && d[3..][1..] == d[4..] && d[4..][1..] == [];
  }

  /** The weighted digit sum of six digits, written out. */
  lemma {:induction false} WeightedSix(d: string)
    requires |d| == 6 && IsDigits(d)
    ensures WeightedDigitSum(d) ==
              DigitValue(d[0]) + 2 * DigitValue(d[1]) + 3 * DigitValue(d[2]) + 4 * DigitValue(d[3])
              + 5 * DigitValue(d[4]) + 6 * DigitValue(d[5])
  {
    WeightedStep(d, 1);
    WeightedStep(d[1..], 2);
    WeightedStep(d[2..], 3);
    WeightedStep(d[3..], 4);
    WeightedStep(d[4..], 5);
    WeightedStep(d[5..], 6);
    assert d[1..][1..] == d[2..] && d[2..][1..] == d[3..] && d[3..][1..] == d[4..];
    assert d[4..][1..] == d[5..] && d[5..][1..] == [];
  }

  /** The value of four decimal digits, written out. */
  lemma DecimalFour(d: string)
    requires |d| == 4 && IsDigits(d)
    ensures DecimalValue(d) == 1000 * DigitValue(d[0]) + 100 * DigitValue(d[1]) + 10 * DigitValue(d[2]) + DigitValue(d[3])
  {
    var d3, d2, d1 := d[..3], d[..2], d[..1];
    assert d3[..2] == d2 && d2[..1] == d1 && d1[..0] == [];
    assert DecimalValue(d1) == DigitValue(d[0]);
    assert DecimalValue(d2) == DecimalValue(d1) * 10 + DigitValue(d[1]);
    assert DecimalValue(d3) == DecimalValue(d2) * 10 + DigitValue(d[2]);
    assert DecimalValue(d) == DecimalValue(d3) * 10 + DigitValue(d[3]);
  }

  /** "7732-18-5" (water) is a valid CAS number: "812377" weighs 105, and 105 mod 10 is 5. */
  lemma CasWater(s: string, currentYear: int)
    requires s == "7732-18-5"
    ensures CasShape(s)
    ensures IsValidCAS(s) == Returned(Check(true, s + " is a valid CAS number", s))
    ensures IsFormattedCorrectlyAndIsValidCAS(s).success
    ensures IdentifyChemicalNumber(s, currentYear) == IsFormattedCorrectlyAndIsValidCAS(s)
  {
    var p0, p1, p2 := s[..4], s[5..7], s[8..];
    assert p0[0] == '7' && p0[1] == '7' && p0[2] == '3' && p0[3] == '2';
    assert p1[0] == '1' && p1[1] == '8' && p2 == ['5'];
    assert IsDigits(p0) && IsDigits(p1) && IsDigits(p2);
    CasWeightFourTwo(p0, p1);
    assert DigitValue(p0[0]) == 7 && DigitValue(p0[1]) == 7 && DigitValue(p0[2]) == 3 && DigitValue(p0[3]) == 2;
    assert DigitValue(p1[0]) == 1 && DigitValue(p1[1]) == 8;
    assert WeightedDigitSum(Reverse(p1) + Reverse(p0)) == 105;
    DecimalOne(p2);
    assert DecimalValue(p2) == 5;
    assert s == p0 + "-" + p1 + "-" + p2;
    CasOnDigitPieces(s, p0, p1, p2);
    assert CasShape(s);
    CasShapeSegments(s);
    IdentifyByShape(s, currentYear);
  }

  /** "7732-18-50" has a two-digit check digit: a 'format' failure. */
  lemma CasLongCheckDigit(s: string)
    requires s == "7732-18-50"
    ensures IsFormattedCorrectlyAndIsValidCAS(s).error == Some(Format)
    ensures IsFormattedCorrectlyAndIsValidCAS(s).message == s + " is not formatted correctly"
  {
    assert s[|s| - 2] == '5';
  }

  /** "200-003-9" is a valid EC number: "200003" weighs 20, and 20 mod 11 is 9. */
  lemma EcValid(s: string)
    requires s == "200-003-9"
    ensures IsValidEC(s) == Check(true, s + " is a valid EC number", s)
    ensures IsFormattedCorrectlyAndIsValidEC(s).success
  {
    assert IsDigits(s[..3]) && IsDigits(s[4..7]);
    assert EcShape(s);
    EcSplit(s);
    EcShapeSegments(s);
    var p := Split(s);
    assert DigitRun(p[0], Run(3, 3)) && DigitRun(p[1], Run(3, 3)) && DigitRun(p[2], Run(1, 1));
    var d := p[0] + p[1];
    DigitsAppend(p[0], p[1]);
    assert d[0] == '2' && d[1] == '0' && d[2] == '0' && d[3] == '0' && d[4] == '0' && d[5] == '3';
    WeightedSix(d);
    assert EcRule(p);
  }

  /** "200-003-99" has a two-digit check digit: a 'format' failure. */
  lemma EcLongCheckDigit(s: string)
    requires s == "200-003-99"
    ensures IsFormattedCorrectlyAndIsValidEC(s).error == Some(Format)
    ensures IsFormattedCorrectlyAndIsValidEC(s).message == s + " is not formatted correctly"
  {
  }

  /**
    "123-456-7" is EC-formatted but "123456" weighs 91 and 91 mod 11 is 3:
    the EC report 'invalid' is what identifyChemicalNumber returns.
  */
  lemma EcInvalid(s: string, currentYear: int)
    requires s == "123-456-7"
    ensures IdentifyChemicalNumber(s, currentYear) == IsFormattedCorrectlyAndIsValidEC(s)
    ensures IdentifyChemicalNumber(s, currentYear).error == Some(Invalid)
    ensures IdentifyChemicalNumber(s, currentYear).message == s + " is not a valid EC number"
  {
    assert IsDigits(s[..3]) && IsDigits(s[4..7]);
    assert EcShape(s);
    EcSplit(s);
    var p := Split(s);
    assert DigitRun(p[0], Run(3, 3)) && DigitRun(p[1], Run(3, 3)) && DigitRun(p[2], Run(1, 1));
    var d := p[0] + p[1];
    DigitsAppend(p[0], p[1]);
    assert d[0] == '1' && d[1] == '2' && d[2] == '3' && d[3] == '4' && d[4] == '5' && d[5] == '6';
    WeightedSix(d);
    assert !EcRule(p);
    IdentifyByShape(s, currentYear);
  }

  /** "KE-12345" is a valid Annex 1 number, and identified as one. */
  lemma AnnexOneValid(s: string, currentYear: int)
    requires s == "KE-12345"
    ensures IsFormattedCorrectlyAndIsValidAnnexOneKE(s).success
    ensures IsFormattedCorrectlyKE(s).message == s + " matches KE Annex 1 numbers"
    ensures IsValidKE(s, currentYear).message == s + " is a valid Annex 1 KE number"
    ensures IdentifyChemicalNumber(s, currentYear) == IsFormattedCorrectlyAndIsValidAnnexOneKE(s)
  {
    assert s[..3] == AnnexOnePrefix && IsDigits(s[3..]);
    assert AnnexOneShape(s);
    IdentifyByShape(s, currentYear);
  }

  /** "KE-123456" has six digits: a 'format' failure, and 9 characters fail the length test. */
  lemma AnnexOneTooLong(s: string)
    requires s == "KE-123456"
    ensures IsFormattedCorrectlyAndIsValidAnnexOneKE(s).error == Some(Format)
    ensures !IsValidAnnexOneKE(s).success
  {
  }

  /** "2017-2-13" is a valid Annex 2 number once the current year is 2017 or later. */
  lemma AnnexTwoValid(s: string, currentYear: int)
    requires s == "2017-2-13" && currentYear >= 2017
    ensures IsValidAnnexTwoKE(s, currentYear) == Check(true, s + " is a valid Annex 2 KE number", s)
    ensures IsFormattedCorrectlyAndIsValidAnnexTwoKE(s, currentYear).success
    ensures IsValidKE(s, currentYear) == Check(true, s + " is a valid Annex 2 KE number", s)
    ensures IdentifyChemicalNumber(s, currentYear).success
  {
    assert IsDigits(s[..4]) && IsDigits(s[7..]);
    assert AnnexTwoShape(s);
    AnnexTwoSplit(s);
    AnnexTwoShapeSegments(s);
    DecimalFour(s[..4]);
    IdentifyByShape(s, currentYear);
  }

  /** "1990-1-1" is Annex 2-formatted, but 1990 is before 1991: 'invalid'. */
  lemma AnnexTwoBeforeIntroduction(s: string, currentYear: int)
    requires s == "1990-1-1"
    ensures IsFormattedCorrectlyAndIsValidAnnexTwoKE(s, currentYear).error == Some(Invalid)
    ensures IsFormattedCorrectlyAndIsValidAnnexTwoKE(s, currentYear).message == s + " is not a valid Annex 2 KE number"
  {
    assert IsDigits(s[..4]) && IsDigits(s[7..]);
    assert AnnexTwoShape(s);
    DecimalFour(s[..4]);
  }

  /** "K-12" is not Annex 2-formatted, and its year "K" does not parse. */
  lemma AnnexTwoNoYear(s: string, currentYear: int)
    requires s == "K-12"
    ensures IsFormattedCorrectlyAndIsValidAnnexTwoKE(s, currentYear).error == Some(Format)
    ensures IsFormattedCorrectlyAndIsValidAnnexTwoKE(s, currentYear).message == s + " is not formatted correctly"
    ensures IsValidAnnexTwoKE(s, currentYear) == Check(false, s + " is not a valid Annex 2 KE number", s)
  {
    assert s == "K" + "-12";
    SplitPrefix("K", "-12");
    assert Split("-12")[0] == [];
    assert Split(s)[0] == "K";
  }

  /** "123-45-6" is CAS-formatted, but "54321" weighs 35 and 35 mod 10 is 5: the CAS report 'invalid' is returned. */
  lemma IdentifyCasInvalid(s: string, currentYear: int)
    requires s == "123-45-6"
    ensures IdentifyChemicalNumber(s, currentYear) == IsFormattedCorrectlyAndIsValidCAS(s)
    ensures IdentifyChemicalNumber(s, currentYear).error == Some(Invalid)
    ensures IdentifyChemicalNumber(s, currentYear).message == s + " is not a valid CAS number"
  {
    var p0, p1, p2 := s[..3], s[4..6], s[7..];
    assert p0[0] == '1' && p0[1] == '2' && p0[2] == '3';
    assert p1[0] == '4' && p1[1] == '5' && p2 == ['6'];
    assert IsDigits(p0) && IsDigits(p1) && IsDigits(p2);
    CasWeightThreeTwo(p0, p1);
    assert DigitValue(p0[0]) == 1 && DigitValue(p0[1]) == 2 && DigitValue(p0[2]) == 3;
    assert DigitValue(p1[0]) == 4 && DigitValue(p1[1]) == 5;
    assert WeightedDigitSum(Reverse(p1) + Reverse(p0)) == 35;
    DecimalOne(p2);
    assert DecimalValue(p2) == 6;
    assert s == p0 + "-" + p1 + "-" + p2;
    CasOnDigitPieces(s, p0, p1, p2);
    assert CasShape(s);
    CasShapeSegments(s);
    IdentifyByShape(s, currentYear);
  }

  /** "hello" matches no shape: the fallback record. */
  lemma IdentifyHello(s: string, currentYear: int)
    requires s == "hello"
    ensures IdentifyChemicalNumber(s, currentYear) == NoMatch(false, "No Chemical Identifiers were matched", Some(Format), s)
  {
    assert !CasShape(s) && !EcShape(s) && !AnnexOneShape(s) && !AnnexTwoShape(s);
    IdentifyByShape(s, currentYear);
  }

  /** "123-45-67" has a two-digit check digit and a three-digit first piece: no shape matches. */
  lemma IdentifyLongCheckDigit(s: string, currentYear: int)
    requires s == "123-45-67"
    ensures IdentifyChemicalNumber(s, currentYear) == NoMatch(false, "No Chemical Identifiers were matched", Some(Format), s)
  {
    assert s[|s| - 2] == '6' && s[4] == '4' && s[0] == '1';
    assert !CasShape(s) && !EcShape(s) && !AnnexOneShape(s) && !AnnexTwoShape(s);
    IdentifyByShape(s, currentYear);
  }

  /** "123-456-78", "KE-123456" and "2022-1-12901" each miss every shape by one character: the fallback record. */
  lemma IdentifyNearMisses(ec: string, ke: string, annexTwo: string, currentYear: int)
    requires ec == "123-456-78" && ke == "KE-123456" && annexTwo == "2022-1-12901"
    ensures !IdentifyChemicalNumber(ec, currentYear).success
    ensures IdentifyChemicalNumber(ec, currentYear) == NoMatchReport(ec)
    ensures IdentifyChemicalNumber(ke, currentYear) == NoMatchReport(ke)
    ensures IdentifyChemicalNumber(annexTwo, currentYear) == NoMatchReport(annexTwo)
  {
    assert ec[|ec| - 5] == '5' && ec[4] == '4' && ec[0] == '1';
    assert !CasShape(ec) && !EcShape(ec) && !AnnexOneShape(ec) && !AnnexTwoShape(ec);
    IdentifyByShape(ec, currentYear);
    assert ke[|ke| - 5] == '2' && ke[0] == 'K';
    assert !CasShape(ke) && !EcShape(ke) && !AnnexOneShape(ke) && !AnnexTwoShape(ke);
    IdentifyByShape(ke, currentYear);
    assert annexTwo[|annexTwo| - 5] == '1' && annexTwo[0] == '2';
    assert !CasShape(annexTwo) && !EcShape(annexTwo) && !AnnexOneShape(annexTwo) && !AnnexTwoShape(annexTwo);
    IdentifyByShape(annexTwo, currentYear);
  }

  /** isValidKE on "KE-12": 5 characters, and the first piece "KE" holds no year. */
  lemma KeShortNumber(s: string, currentYear: int)
    requires s == "KE-12"
    ensures IsValidKE(s, currentYear) == Check(false, s + " is not a valid KE number for Annex 1 or Annex 2", s)
  {
    var p0 := s[..2];
    assert p0 == ['K', 'E'] && '-' !in p0;
    assert s == p0 + s[2..];
    SplitPrefix(p0, s[2..]);
    assert s[2..][0] == '-';
    assert Split(s)[0] == p0;
  }

  /** isValidKE on "Ke-12": 5 characters, and the first piece "Ke" holds no year. */
  lemma KeLowerCase(s: string, currentYear: int)
    requires s == "Ke-12"
    ensures IsValidKE(s, currentYear) == Check(false, s + " is not a valid KE number for Annex 1 or Annex 2", s)
  {
    var p0 := s[..2];
    assert p0 == ['K', 'e'] && '-' !in p0;
    assert s == p0 + s[2..];
    SplitPrefix(p0, s[2..]);
    assert s[2..][0] == '-';
    assert Split(s)[0] == p0;
  }

  /** isValidKE on "KE12": 4 characters, and parseInt of "KE12" is NaN. */
  lemma KeNoDash(s: string, currentYear: int)
    requires s == "KE12"
    ensures IsValidKE(s, currentYear) == Check(false, s + " is not a valid KE number for Annex 1 or Annex 2", s)
  {
    assert '-' !in s;
    SplitJoin([s]);
    assert Split(s)[0] == s;
    assert TrimStart(s) == s;
    assert ParseInt(s).NaN?;
  }

  /** "2022-1-1290" is identified as an Annex 2 number once the current year is 2022 or later. */
  lemma IdentifyAnnexTwo(s: string, currentYear: int)
    requires s == "2022-1-1290" && currentYear >= 2022
    ensures IdentifyChemicalNumber(s, currentYear).success
    ensures IdentifyChemicalNumber(s, currentYear).scheme == AnnexTwo
  {
    var year := s[..4];
    assert year[0] == '2' && year[1] == '0' && year[2] == '2' && year[3] == '2';
    assert IsDigits(year) && IsDigits(s[7..]);
    assert AnnexTwoShape(s);
    DecimalFour(year);
    assert DecimalValue(year) == 2022;
    IdentifyByShape(s, currentYear);
  }

  /** identifyChemicalNumbers keeps one report per input, in order. */
  lemma BatchExample(inputs: seq<string>, currentYear: int)
    requires inputs == ["KE-12345", "hello", "7732-18-5"]
    ensures |IdentifyChemicalNumbers(inputs, currentYear)| == 3
    ensures IdentifyChemicalNumbers(inputs, currentYear)[0].success
    ensures IdentifyChemicalNumbers(inputs, currentYear)[0].scheme == AnnexOne
    ensures IdentifyChemicalNumbers(inputs, currentYear)[1] == NoMatch(false, NoMatchMessage, Some(Format), "hello")
    ensures IdentifyChemicalNumbers(inputs, currentYear)[2].success
    ensures IdentifyChemicalNumbers(inputs, currentYear)[2].scheme == Cas
  {
    AnnexOneValid(inputs[0], currentYear);
    IdentifyHello(inputs[1], currentYear);
    CasWater(inputs[2], currentYear);
  }

  /**
    isValidCAS on any three pieces of digits, whatever their lengths: it
    returns, and succeeds exactly when the reversed weighted sum mod 10 is the
    value of the third piece.
  */
  lemma CasOnDigitPieces(s: string, p0: string, p1: string, p2: string)
    requires IsDigits(p0) && IsDigits(p1) && IsDigits(p2) && p0 != [] && p1 != [] && p2 != []
    requires s == p0 + "-" + p1 + "-" + p2
    ensures IsDigits(Reverse(p1) + Reverse(p0))
    ensures IsValidCAS(s).Returned?
    ensures IsValidCAS(s).value.success <==> WeightedDigitSum(Reverse(p1) + Reverse(p0)) % 10 == DecimalValue(p2)
  {
    DigitsHaveNoDash(p0);
    DigitsHaveNoDash(p1);
    DigitsHaveNoDash(p2);
    SplitThree(p0, p1, p2);
    DigitsNotBlank(p0);
    DigitsNotBlank(p1);
    ReverseDigits(p1);
    ReverseDigits(p0);
    DigitsAppend(Reverse(p1), Reverse(p0));
    TotalOfDigits(Reverse(p1) + Reverse(p0));
  }

  lemma DecimalOne(d: string)
    requires |d| == 1 && IsDigits(d)
    ensures DecimalValue(d) == DigitValue(d[0])
  {
    assert d[..0] == [];
  }

  lemma DecimalTwo(d: string)
    requires |d| == 2 && IsDigits(d)
    ensures DecimalValue(d) == 10 * DigitValue(d[0]) + DigitValue(d[1])
  {
    var d1 := d[..1];
    assert d1[..0] == [];
    assert DecimalValue(d1) == DigitValue(d[0]);
    assert DecimalValue(d) == DecimalValue(d1) * 10 + DigitValue(d[1]);
  }

  /** The digits isValidCAS weighs for a 4-digit first and 2-digit second piece. */
  lemma CasWeightFourTwo(p0: string, p1: string)
    requires |p0| == 4 && |p1| == 2 && IsDigits(p0) && IsDigits(p1)
    ensures IsDigits(Reverse(p1) + Reverse(p0))
    ensures WeightedDigitSum(Reverse(p1) + Reverse(p0)) ==
              DigitValue(p1[1]) + 2 * DigitValue(p1[0]) + 3 * DigitValue(p0[3]) + 4 * DigitValue(p0[2])
              + 5 * DigitValue(p0[1]) + 6 * DigitValue(p0[0])
  {
    ReverseDigits(p1);
    ReverseDigits(p0);
    DigitsAppend(Reverse(p1), Reverse(p0));
    var d := Reverse(p1) + Reverse(p0);
    assert d[0] == p1[1] && d[1] == p1[0] && d[2] == p0[3] && d[3] == p0[2] && d[4] == p0[1] && d[5] == p0[0];
    WeightedSix(d);
  }

  /** The digits isValidCAS weighs for a 4-digit first and 1-digit second piece. */
  lemma CasWeightFourOne(p0: string, p1: string)
    requires |p0| == 4 && |p1| == 1 && IsDigits(p0) && IsDigits(p1)
    ensures IsDigits(Reverse(p1) + Reverse(p0))
    ensures WeightedDigitSum(Reverse(p1) + Reverse(p0)) ==
              DigitValue(p1[0]) + 2 * DigitValue(p0[3]) + 3 * DigitValue(p0[2]) + 4 * DigitValue(p0[1])
              + 5 * DigitValue(p0[0])
  {
    ReverseDigits(p1);
    ReverseDigits(p0);
    DigitsAppend(Reverse(p1), Reverse(p0));
    var d := Reverse(p1) + Reverse(p0);
    assert d[0] == p1[0] && d[1] == p0[3] && d[2] == p0[2] && d[3] == p0[1] && d[4] == p0[0];
    WeightedFive(d);
  }

  /** The digits isValidCAS weighs for a 3-digit first and 2-digit second piece. */
  lemma CasWeightThreeTwo(p0: string, p1: string)
    requires |p0| == 3 && |p1| == 2 && IsDigits(p0) && IsDigits(p1)
    ensures IsDigits(Reverse(p1) + Reverse(p0))
    ensures WeightedDigitSum(Reverse(p1) + Reverse(p0)) ==
              DigitValue(p1[1]) + 2 * DigitValue(p1[0]) + 3 * DigitValue(p0[2]) + 4 * DigitValue(p0[1])
              + 5 * DigitValue(p0[0])
  {
    ReverseDigits(p1);
    ReverseDigits(p0);
    DigitsAppend(Reverse(p1), Reverse(p0));
    var d := Reverse(p1) + Reverse(p0);
    assert d[0] == p1[1] && d[1] == p1[0] && d[2] == p0[2] && d[3] == p0[1] && d[4] == p0[0];
    WeightedFive(d);
  }

  /** The digits isValidCAS weighs for two 1-digit pieces. */
  lemma CasWeightOneOne(p0: string, p1: string)
    requires |p0| == 1 && |p1| == 1 && IsDigits(p0) && IsDigits(p1)
    ensures IsDigits(Reverse(p1) + Reverse(p0))
    ensures WeightedDigitSum(Reverse(p1) + Reverse(p0)) == DigitValue(p1[0]) + 2 * DigitValue(p0[0])
  {
    ReverseDigits(p1);
    ReverseDigits(p0);
    DigitsAppend(Reverse(p1), Reverse(p0));
    var d := Reverse(p1) + Reverse(p0);
    assert d[0] == p1[0] && d[1] == p0[0];
    WeightedStep(d, 1);
    WeightedStep(d[1..], 2);
    assert d[1..][1..] == [];
  }

  /** isValidCAS on "7732-18-50": 105 mod 10 is 5, not 50. */
  lemma CasCheckDigitTooLarge(s: string)
    requires s == "7732-18-50"
    ensures IsValidCAS(s) == Returned(Check(false, s + " is not a valid CAS number", s))
  {
    var p0, p1, p2 := s[..4], s[5..7], s[8..];
    assert p0[0] == '7' && p0[1] == '7' && p0[2] == '3' && p0[3] == '2';
    assert p1[0] == '1' && p1[1] == '8' && p2[0] == '5' && p2[1] == '0';
    assert IsDigits(p0) && IsDigits(p1) && IsDigits(p2);
    CasWeightFourTwo(p0, p1);
    assert DigitValue(p0[0]) == 7 && DigitValue(p0[1]) == 7 && DigitValue(p0[2]) == 3 && DigitValue(p0[3]) == 2;
    assert DigitValue(p1[0]) == 1 && DigitValue(p1[1]) == 8;
    assert WeightedDigitSum(Reverse(p1) + Reverse(p0)) == 105;
    DecimalTwo(p2);
    assert DecimalValue(p2) == 50;
    assert s == p0 + "-" + p1 + "-" + p2;
    CasOnDigitPieces(s, p0, p1, p2);
  }

  /** isValidCAS on "7732-1-5": "12377" weighs 77, and 77 mod 10 is 7, not 5. */
  lemma CasShortMiddle(s: string)
    requires s == "7732-1-5"
    ensures IsValidCAS(s) == Returned(Check(false, s + " is not a valid CAS number", s))
  {
    var p0, p1, p2 := s[..4], s[5..6], s[7..];
    assert p0[0] == '7' && p0[1] == '7' && p0[2] == '3' && p0[3] == '2';
    assert p1 == ['1'] && p2 == ['5'];
    assert IsDigits(p0) && IsDigits(p1) && IsDigits(p2);
    CasWeightFourOne(p0, p1);
    assert DigitValue(p0[0]) == 7 && DigitValue(p0[1]) == 7 && DigitValue(p0[2]) == 3 && DigitValue(p0[3]) == 2;
    assert DigitValue(p1[0]) == 1;
    assert WeightedDigitSum(Reverse(p1) + Reverse(p0)) == 77;
    DecimalOne(p2);
    assert DecimalValue(p2) == 5;
    assert s == p0 + "-" + p1 + "-" + p2;
    CasOnDigitPieces(s, p0, p1, p2);
  }

  /** isValidCAS on "7-1-50": "17" weighs 15, and 15 mod 10 is 5, not 50. */
  lemma CasShortPieces(s: string)
    requires s == "7-1-50"
    ensures IsValidCAS(s) == Returned(Check(false, s + " is not a valid CAS number", s))
  {
    var p0, p1, p2 := s[..1], s[2..3], s[4..];
    assert p0 == ['7'] && p1 == ['1'] && p2[0] == '5' && p2[1] == '0';
    assert IsDigits(p0) && IsDigits(p1) && IsDigits(p2);
    CasWeightOneOne(p0, p1);
    assert DigitValue(p0[0]) == 7 && DigitValue(p1[0]) == 1;
    assert WeightedDigitSum(Reverse(p1) + Reverse(p0)) == 15;
    DecimalTwo(p2);
    assert DecimalValue(p2) == 50;
    assert s == p0 + "-" + p1 + "-" + p2;
    CasOnDigitPieces(s, p0, p1, p2);
  }

  /**
    isValidCAS on three dash-free pieces whose first two are not blank, when
    the check digit or the weighted total is NaN: it returns, and the test fails.
  */
  lemma CasOnNaN(s: string, p0: string, p1: string, p2: string)
    requires '-' !in p0 && '-' !in p1 && '-' !in p2 && !IsBlank(p0) && !IsBlank(p1)
    requires s == p0 + "-" + p1 + "-" + p2
    requires ParseInt(p2).NaN? || TotalDigitValue(Reverse(p1) + Reverse(p0)).NaN?
    ensures IsValidCAS(s) == Returned(Check(false, s + " is not a valid CAS number", s))
  {
    SplitThree(p0, p1, p2);
  }

  /** isValidCAS on "7732-18-XX": the third piece does not parse, so the test fails. */
  lemma CasCheckDigitNotANumber(s: string)
    requires s == "7732-18-XX"
    ensures IsValidCAS(s) == Returned(Check(false, s + " is not a valid CAS number", s))
  {
    var p0, p1, p2 := s[..4], s[5..7], s[8..];
    assert p2 == ['X', 'X'];
    assert IsDigits(p0) && IsDigits(p1);
    DigitsHaveNoDash(p0);
    DigitsHaveNoDash(p1);
    DigitsNotBlank(p0);
    DigitsNotBlank(p1);
    assert forall i :: 0 <= i < |p2| ==> !IsDigit(p2[i]);
    assert s == p0 + "-" + p1 + "-" + p2;
    CasOnNaN(s, p0, p1, p2);
  }

  /** isValidCAS on "7732-XX-50": a letter makes the total NaN, so the test fails. */
  lemma CasLettersInDigits(s: string)
    requires s == "7732-XX-50"
    ensures IsValidCAS(s) == Returned(Check(false, s + " is not a valid CAS number", s))
  {
    var p0, p1, p2 := s[..4], s[5..7], s[8..];
    assert p1 == ['X', 'X'];
    assert IsDigits(p0) && IsDigits(p2);
    DigitsHaveNoDash(p0);
    DigitsHaveNoDash(p2);
    DigitsNotBlank(p0);
    assert !IsWhitespace(p1[0]);
    var d := Reverse(p1) + Reverse(p0);
    assert d[0] == 'X';
    assert CharToNumber(d[0]).NaN?;
    assert s == p0 + "-" + p1 + "-" + p2;
    CasOnNaN(s, p0, p1, p2);
  }

  /**
    isValidEC on any three pieces of digits, whatever their lengths: it
    succeeds exactly when the weighted sum of the first two pieces, mod 11, is
    the value of the third piece, or is 10 with a third piece worth 1.
  */
  lemma EcOnDigitPieces(s: string, p0: string, p1: string, p2: string)
    requires IsDigits(p0) && IsDigits(p1) && IsDigits(p2) && p2 != []
    requires s == p0 + "-" + p1 + "-" + p2
    ensures IsDigits(p0 + p1)
    ensures IsValidEC(s).success <==>
              || WeightedDigitSum(p0 + p1) % 11 == DecimalValue(p2)
              || (WeightedDigitSum(p0 + p1) % 11 == 10 && DecimalValue(p2) == 1)
  {
    DigitsHaveNoDash(p0);
    DigitsHaveNoDash(p1);
    DigitsHaveNoDash(p2);
    SplitThree(p0, p1, p2);
    DigitsAppend(p0, p1);
    TotalOfDigits(p0 + p1);
  }

  /**
    isValidEC on three dash-free pieces when the check digit or the weighted
    total is NaN: the test fails.
  */
  lemma EcOnNaN(s: string, p0: string, p1: string, p2: string)
    requires '-' !in p0 && '-' !in p1 && '-' !in p2
    requires s == p0 + "-" + p1 + "-" + p2
    requires ParseInt(p2).NaN? || TotalDigitValue(p0 + p1).NaN?
    ensures IsValidEC(s) == Check(false, s + " is not a valid EC number", s)
  {
    SplitThree(p0, p1, p2);
  }

  /** isValidEC on "200-003-99": "200003" weighs 20, and 20 mod 11 is 9, not 99. */
  lemma EcCheckDigitTooLarge(s: string)
    requires s == "200-003-99"
    ensures IsValidEC(s) == Check(false, s + " is not a valid EC number", s)
  {
    var p0, p1, p2 := s[..3], s[4..7], s[8..];
    assert p0[0] == '2' && p0[1] == '0' && p0[2] == '0';
    assert p1[0] == '0' && p1[1] == '0' && p1[2] == '3' && p2[0] == '9' && p2[1] == '9';
    assert IsDigits(p0) && IsDigits(p1) && IsDigits(p2);
    var d := p0 + p1;
    DigitsAppend(p0, p1);
    assert d[0] == '2' && d[1] == '0' && d[2] == '0' && d[3] == '0' && d[4] == '0' && d[5] == '3';
    WeightedSix(d);
    assert WeightedDigitSum(d) == 20;
    DecimalTwo(p2);
    assert DecimalValue(p2) == 99;
    assert s == p0 + "-" + p1 + "-" + p2;
    EcOnDigitPieces(s, p0, p1, p2);
  }

  /** isValidEC on "200-03-9": "20003" weighs 17, and 17 mod 11 is 6, not 9. */
  lemma EcShortMiddle(s: string)
    requires s == "200-03-9"
    ensures IsValidEC(s) == Check(false, s + " is not a valid EC number", s)
  {
    var p0, p1, p2 := s[..3], s[4..6], s[7..];
    assert p0[0] == '2' && p0[1] == '0' && p0[2] == '0';
    assert p1[0] == '0' && p1[1] == '3' && p2 == ['9'];
    assert IsDigits(p0) && IsDigits(p1) && IsDigits(p2);
    var d := p0 + p1;
    DigitsAppend(p0, p1);
    assert d[0] == '2' && d[1] == '0' && d[2] == '0' && d[3] == '0' && d[4] == '3';
    WeightedFive(d);
    assert WeightedDigitSum(d) == 17;
    DecimalOne(p2);
    assert DecimalValue(p2) == 9;
    assert s == p0 + "-" + p1 + "-" + p2;
    EcOnDigitPieces(s, p0, p1, p2);
  }

  /** isValidEC on "20-003-9": again "20003", which weighs 17, and 17 mod 11 is 6, not 9. */
  lemma EcShortFirst(s: string)
    requires s == "20-003-9"
    ensures IsValidEC(s) == Check(false, s + " is not a valid EC number", s)
  {
    var p0, p1, p2 := s[..2], s[3..6], s[7..];
    assert p0[0] == '2' && p0[1] == '0';
    assert p1[0] == '0' && p1[1] == '0' && p1[2] == '3' && p2 == ['9'];
    assert IsDigits(p0) && IsDigits(p1) && IsDigits(p2);
    var d := p0 + p1;
    DigitsAppend(p0, p1);
    assert d[0] == '2' && d[1] == '0' && d[2] == '0' && d[3] == '0' && d[4] == '3';
    WeightedFive(d);
    assert WeightedDigitSum(d) == 17;
    DecimalOne(p2);
    assert DecimalValue(p2) == 9;
    assert s == p0 + "-" + p1 + "-" + p2;
    EcOnDigitPieces(s, p0, p1, p2);
  }

  /** isValidEC on "20X-003-9": the letter makes the total NaN. */
  lemma EcLetterInFirstPiece(s: string)
    requires s == "20X-003-9"
    ensures IsValidEC(s) == Check(false, s + " is not a valid EC number", s)
  {
    var p0, p1, p2 := s[..3], s[4..7], s[8..];
    assert p0 == ['2', '0', 'X'];
    assert IsDigits(p1) && IsDigits(p2);
    DigitsHaveNoDash(p1);
    DigitsHaveNoDash(p2);
    var d := p0 + p1;
    assert d[2] == 'X' && CharToNumber(d[2]).NaN?;
    assert s == p0 + "-" + p1 + "-" + p2;
    EcOnNaN(s, p0, p1, p2);
  }

  /** isValidEC on "200-X03-9": the letter makes the total NaN. */
  lemma EcLetterInSecondPiece(s: string)
    requires s == "200-X03-9"
    ensures IsValidEC(s) == Check(false, s + " is not a valid EC number", s)
  {
    var p0, p1, p2 := s[..3], s[4..7], s[8..];
    assert p1 == ['X', '0', '3'];
    assert IsDigits(p0) && IsDigits(p2);
    DigitsHaveNoDash(p0);
    DigitsHaveNoDash(p2);
    var d := p0 + p1;
    assert d[3] == 'X' && CharToNumber(d[3]).NaN?;
    assert s == p0 + "-" + p1 + "-" + p2;
    EcOnNaN(s, p0, p1, p2);
  }

  /** isValidEC on "200-003-X": the check digit does not parse. */
  lemma EcCheckDigitNotANumber(s: string)
    requires s == "200-003-X"
    ensures IsValidEC(s) == Check(false, s + " is not a valid EC number", s)
  {
    var p0, p1, p2 := s[..3], s[4..7], s[8..];
    assert p2 == ['X'];
    assert IsDigits(p0) && IsDigits(p1);
    DigitsHaveNoDash(p0);
    DigitsHaveNoDash(p1);
    assert forall i :: 0 <= i < |p2| ==> !IsDigit(p2[i]);
    assert s == p0 + "-" + p1 + "-" + p2;
    EcOnNaN(s, p0, p1, p2);
  }

  /** isValidCAS on "hello": there is no second piece to reverse, so it throws. */
  lemma CasNoSecondPiece(s: string)
    requires s == "hello"
    ensures IsValidCAS(s).TypeError?
  {
    assert '-' !in s;
    SplitJoin([s]);
  }
}
