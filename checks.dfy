/**
  The format checkers and check-digit validators of index.js, and the two KE
  functions that try Annex 1 before Annex 2. Each returns the record
  `{ success, message, originalInput }`.
*/
module Checks {
  import opened Js
  import opened Util
  import opened Shapes

  datatype Check = Check(success: bool, message: string, originalInput: string)

  /** The year the KE Annex 2 numbering was introduced. */
  const AnnexTwoYearOfIntroduction: int := 1991

  function FormatCheck(s: string, matched: bool): (r: Check)
    ensures r.success == matched && r.originalInput == s
    ensures r.message == s + (if matched then " is formatted correctly" else " is not formatted correctly")
  {
    Check(matched, s + (if matched then " is formatted correctly" else " is not formatted correctly"), s)
  }

  // ---------------------------------------------------------------------
  // Format checkers

  /**
    isFormattedCorrectlyCAS: succeeds exactly when `split('-')` cuts the input
    into a run of 2 to 7 digits, a run of 2 digits and one digit.
  */
  function IsFormattedCorrectlyCAS(s: string): (r: Check)
    ensures r.originalInput == s
    ensures r.success <==> SegmentsFit(Split(s), CasRuns)
    ensures r.message == s + (if r.success then " is formatted correctly" else " is not formatted correctly")
  {
    CasShapeSegments(s);
    FormatCheck(s, CasShape(s))
  }

  /**
    isFormattedCorrectlyEC: succeeds exactly when `split('-')` cuts the input
    into two runs of 3 digits and one digit.
  */
  function IsFormattedCorrectlyEC(s: string): (r: Check)
    ensures r.originalInput == s
    ensures r.success <==> SegmentsFit(Split(s), EcRuns)
    ensures r.message == s + (if r.success then " is formatted correctly" else " is not formatted correctly")
  {
    EcShapeSegments(s);
    FormatCheck(s, EcShape(s))
  }

  /**
    isFormattedCorrectlyAnnexOneKE: succeeds exactly when the input is "KE-"
    followed by a single run of 5 digits.
  */
  function IsFormattedCorrectlyAnnexOneKE(s: string): (r: Check)
    ensures r.originalInput == s
    ensures r.success <==> |s| >= 3 && s[..3] == AnnexOnePrefix && SegmentsFit(Split(s[3..]), AnnexOneRuns)
    ensures r.message == s + (if r.success then " is formatted correctly" else " is not formatted correctly")
  {
    AnnexOneShapeSegments(s);
    FormatCheck(s, AnnexOneShape(s))
  }

  /**
    isFormattedCorrectlyAnnexTwoKE: succeeds exactly when `split('-')` cuts
    the input into a run of 4 digits, one digit and a run of 1 to 4 digits.
  */
  function IsFormattedCorrectlyAnnexTwoKE(s: string): (r: Check)
    ensures r.originalInput == s
    ensures r.success <==> SegmentsFit(Split(s), AnnexTwoRuns)
    ensures r.message == s + (if r.success then " is formatted correctly" else " is not formatted correctly")
  {
    AnnexTwoShapeSegments(s);
    FormatCheck(s, AnnexTwoShape(s))
  }

  /**
    isFormattedCorrectlyKE: tests Annex 1 first, then Annex 2, and names the
    annex that matched. The shapes being disjoint, an Annex 2 number is never
    reported as Annex 1.
  */
  function IsFormattedCorrectlyKE(s: string): (r: Check)
    ensures r.originalInput == s
    ensures r.success <==> AnnexOneShape(s) || AnnexTwoShape(s)
    ensures AnnexOneShape(s) ==> r.message == s + " matches KE Annex 1 numbers"
    ensures AnnexTwoShape(s) ==> r.message == s + " matches KE Annex 2 numbers"
    ensures !r.success ==> r.message == s + " did not match either Annex numbers"
  {
    ShapesDisjoint(s);
    if AnnexOneShape(s) then Check(true, s + " matches KE Annex 1 numbers", s)
    else if AnnexTwoShape(s) then Check(true, s + " matches KE Annex 2 numbers", s)
    else Check(false, s + " did not match either Annex numbers", s)
  }

  // ---------------------------------------------------------------------
  // Check-digit rules, on the pieces of a well-formatted number

  /**
    The CAS Registry Number rule, on the three pieces of a CAS-formatted
    number: the digits before the check digit, read from the right, weighted
    1, 2, 3, ..., summed and taken mod 10, give the check digit.
  */
  ghost predicate CasRule(parts: seq<string>) {
    && SegmentsFit(parts, CasRuns)
    && (DigitRunsAreDigits(parts, CasRuns);
        ReverseDigits(parts[1]);
        ReverseDigits(parts[0]);
        DigitsAppend(Reverse(parts[1]), Reverse(parts[0]));
        WeightedDigitSum(Reverse(parts[1]) + Reverse(parts[0])) % 10 == DigitValue(parts[2][0]))
  }

  /**
    The EC number rule, on the three pieces of an EC-formatted number: the six
    digits read from the left, weighted 1 to 6, summed and taken mod 11, give
    the check digit; a remainder of 10 is written as check digit 1.
  */
  ghost predicate EcRule(parts: seq<string>) {
    && SegmentsFit(parts, EcRuns)
    && (DigitRunsAreDigits(parts, EcRuns);
        DigitsAppend(parts[0], parts[1]);
        var remainder := WeightedDigitSum(parts[0] + parts[1]) % 11;
        var check := DigitValue(parts[2][0]);
        remainder == check || (remainder == 10 && check == 1))
  }

  lemma DigitRunsAreDigits(parts: seq<string>, runs: seq<Run>)
    requires SegmentsFit(parts, runs)
    ensures forall i :: 0 <= i < |parts| ==> IsDigits(parts[i]) && runs[i].min <= |parts[i]| <= runs[i].max
  {
    forall i | 0 <= i < |parts| ensures IsDigits(parts[i]) && runs[i].min <= |parts[i]| <= runs[i].max {
      assert DigitRun(parts[i], runs[i]);
    }
  }

  lemma DigitsAppend(a: string, b: string)
    requires IsDigits(a) && IsDigits(b)
    ensures IsDigits(a + b)
  {
    forall i | 0 <= i < |a + b| ensures IsDigit((a + b)[i]) {
      if i < |a| { assert (a + b)[i] == a[i]; } else { assert (a + b)[i] == b[i - |a|]; }
    }
  }

  lemma DigitsNotBlank(p: string)
    requires IsDigits(p) && p != []
    ensures !IsBlank(p)
  {
    assert IsDigit(p[0]);
  }

  // ---------------------------------------------------------------------
  // Validators

  /**
    isValidCAS: splits on '-', reverses the second and then the first piece
    and tests their weighted digit total mod 10 against parseInt of the third
    piece. reverseString throws when the first or second piece is missing,
    empty or blank; a character that is not a number, or a third piece that
    does not parse, makes the test fail. On a CAS-formatted input it never
    throws and succeeds exactly when the CAS rule holds.
  */
  function IsValidCAS(s: string): (r: Result<Check>)
    ensures r.TypeError? <==> |Split(s)| < 2 || IsBlank(Split(s)[0]) || IsBlank(Split(s)[1])
    ensures r.Returned? ==> r.value.originalInput == s
    ensures r.Returned? ==>
              r.value.message == s + (if r.value.success then " is a valid CAS number" else " is not a valid CAS number")
    ensures SegmentsFit(Split(s), CasRuns) ==> r.Returned? && (r.value.success <==> CasRule(Split(s)))
  {
    var parts := Split(s);
    var checkSum := ParseInt(PartOrUndefined(parts, 2));
    if |parts| < 2 then TypeError
    else
      match (ReverseString(parts[1]), ReverseString(parts[0]))
      case (Returned(r1), Returned(r0)) =>
        var total := TotalDigitValue(r1 + r0);
        var isValid := IsModuloValid(total, Int(10), checkSum);
        CasUnderFormat(parts, r1, r0, total, checkSum, isValid);
        Returned(Check(isValid, s + (if isValid then " is a valid CAS number" else " is not a valid CAS number"), s))
      case _ =>
        CasFormatNeverThrows(parts);
        TypeError
  }

  lemma CasFormatNeverThrows(parts: seq<string>)
    ensures SegmentsFit(parts, CasRuns) ==> !IsBlank(parts[0]) && !IsBlank(parts[1])
  {
    if SegmentsFit(parts, CasRuns) {
      assert DigitRun(parts[0], CasRuns[0]) && DigitRun(parts[1], CasRuns[1]);
      DigitsNotBlank(parts[0]);
      DigitsNotBlank(parts[1]);
    }
  }

  lemma CasUnderFormat(parts: seq<string>, r1: string, r0: string, total: Num, checkSum: Num, isValid: bool)
    requires |parts| >= 2 && r1 == Reverse(parts[1]) && r0 == Reverse(parts[0])
    requires total == TotalDigitValue(r1 + r0)
    requires checkSum == ParseInt(PartOrUndefined(parts, 2))
    requires isValid == IsModuloValid(total, Int(10), checkSum)
    ensures SegmentsFit(parts, CasRuns) ==> (isValid <==> CasRule(parts))
  {
    if SegmentsFit(parts, CasRuns) {
      assert DigitRun(parts[0], CasRuns[0]) && DigitRun(parts[1], CasRuns[1]) && DigitRun(parts[2], CasRuns[2]);
      ReverseDigits(parts[1]);
      ReverseDigits(parts[0]);
      DigitsAppend(r1, r0);
      TotalOfDigits(r1 + r0);
      assert parts[2] == [parts[2][0]];
      assert DecimalValue(parts[2]) == DigitValue(parts[2][0]) by {
        assert parts[2][..0] == [];
      }
    }
  }

  /**
    isValidEC: splits on '-', joins the first two pieces and tests their
    weighted digit total mod 11 against parseInt of the third piece, falling
    back to the remainder-10 rule. It never throws; a missing second piece
    reads as the text "undefined", whose letters make the total NaN. On an
    EC-formatted input it succeeds exactly when the EC rule holds.
  */
  function IsValidEC(s: string): (r: Check)
    ensures r.originalInput == s
    ensures r.message == s + (if r.success then " is a valid EC number" else " is not a valid EC number")
    ensures SegmentsFit(Split(s), EcRuns) ==> (r.success <==> EcRule(Split(s)))
  {
    var parts := Split(s);
    var checkSum := ParseInt(PartOrUndefined(parts, 2));
    var checkDigits := parts[0] + PartOrUndefined(parts, 1);
    var total := TotalDigitValue(checkDigits);
    var moduloValueEC := Int(11);
    var isValid :=
      if IsModuloValid(total, moduloValueEC, checkSum) then IsModuloValid(total, moduloValueEC, checkSum)
      else IsModuloValidExceptionEC(total, moduloValueEC, checkSum);
    EcUnderFormat(parts, total, checkSum, isValid);
    Check(isValid, s + (if isValid then " is a valid EC number" else " is not a valid EC number"), s)
  }

  lemma EcUnderFormat(parts: seq<string>, total: Num, checkSum: Num, isValid: bool)
    requires |parts| >= 1
    requires total == TotalDigitValue(parts[0] + PartOrUndefined(parts, 1))
    requires checkSum == ParseInt(PartOrUndefined(parts, 2))
    requires isValid == (IsModuloValid(total, Int(11), checkSum) || IsModuloValidExceptionEC(total, Int(11), checkSum))
    ensures SegmentsFit(parts, EcRuns) ==> (isValid <==> EcRule(parts))
  {
    if SegmentsFit(parts, EcRuns) {
      assert DigitRun(parts[0], EcRuns[0]) && DigitRun(parts[1], EcRuns[1]) && DigitRun(parts[2], EcRuns[2]);
      DigitsAppend(parts[0], parts[1]);
      TotalOfDigits(parts[0] + parts[1]);
      assert parts[2] == [parts[2][0]];
      assert DecimalValue(parts[2]) == DigitValue(parts[2][0]) by {
        assert parts[2][..0] == [];
      }
    }
  }

  /**
    isValidAnnexOneKE: the only test is the length, 8 characters (the "KE-"
    prefix and 5 digits).
  */
  function IsValidAnnexOneKE(s: string): (r: Check)
    ensures r.originalInput == s
    ensures r.success <==> |s| == 8
    ensures r.message == s + (if r.success then " is a valid Annex 1 KE number" else " is not a valid Annex 1 KE number")
  {
    var isValid := |s| == 8;
    Check(isValid, s + (if isValid then " is a valid Annex 1 KE number" else " is not a valid Annex 1 KE number"), s)
  }

  /**
    isValidAnnexTwoKE: parseInt of the first '-' piece is a year between 1991
    and the current year, both included; the current year is a parameter.
    A first piece without a digit is never valid. On an Annex 2-formatted
    input the year is the value of the first four digits.
  */
  function IsValidAnnexTwoKE(s: string, currentYear: int): (r: Check)
    ensures r.originalInput == s
    ensures r.message == s + (if r.success then " is a valid Annex 2 KE number" else " is not a valid Annex 2 KE number")
    ensures (forall i :: 0 <= i < |Split(s)[0]| ==> !IsDigit(Split(s)[0][i])) ==> !r.success
    ensures r.success ==> currentYear >= AnnexTwoYearOfIntroduction
    ensures SegmentsFit(Split(s), AnnexTwoRuns) ==>
              (r.success <==> AnnexTwoYearOfIntroduction <= DecimalValue(Split(s)[0]) <= currentYear)
  {
    var parts := Split(s);
    var year := ParseInt(parts[0]);
    var isValid := !(
      (year.Int? && year.n > currentYear) ||
      (year.Int? && year.n < AnnexTwoYearOfIntroduction) ||
      year.NaN?);
    assert SegmentsFit(parts, AnnexTwoRuns) ==> DigitRun(parts[0], AnnexTwoRuns[0]);
    Check(isValid, s + (if isValid then " is a valid Annex 2 KE number" else " is not a valid Annex 2 KE number"), s)
  }

  /**
    isValidKE: tries the Annex 1 validator, then the Annex 2 validator. Since
    Annex 1 validity is a length test, any 8-character input is reported as a
    valid Annex 1 number before its year is looked at.
  */
  function IsValidKE(s: string, currentYear: int): (r: Check)
    ensures r.originalInput == s
    ensures r.success <==> |s| == 8 || IsValidAnnexTwoKE(s, currentYear).success
    ensures |s| == 8 ==> r.message == s + " is a valid Annex 1 KE number"
    ensures |s| != 8 && r.success ==> r.message == s + " is a valid Annex 2 KE number"
    ensures !r.success ==> r.message == s + " is not a valid KE number for Annex 1 or Annex 2"
  {
    if IsValidAnnexOneKE(s).success then Check(true, s + " is a valid Annex 1 KE number", s)
    else if IsValidAnnexTwoKE(s, currentYear).success then Check(true, s + " is a valid Annex 2 KE number", s)
    else Check(false, s + " is not a valid KE number for Annex 1 or Annex 2", s)
  }

  /** Every Annex 1-formatted string passes the Annex 1 validator. */
  lemma AnnexOneFormattedIsValid(s: string)
    requires IsFormattedCorrectlyAnnexOneKE(s).success
    ensures IsValidAnnexOneKE(s).success
  {
  }

  /**
    isValidKE answers "valid Annex 1" for an 8-character Annex 2 number whose
    year lies after the current year, one the Annex 2 validator rejects.
  */
  lemma EightCharactersShadowAnnexTwo(s: string, currentYear: int)
    requires s == "3000-1-1" && currentYear < 3000
    ensures AnnexTwoShape(s)
    ensures !IsValidAnnexTwoKE(s, currentYear).success
    ensures IsValidKE(s, currentYear).success
    ensures IsValidKE(s, currentYear).message == s + " is a valid Annex 1 KE number"
  {
    assert s[..4] == "3000" && s[7..] == "1";
    assert AnnexTwoShape(s);
    AnnexTwoShapeSegments(s);
    AnnexTwoSplit(s);
    YearValue();
  }

  lemma YearValue()
    ensures IsDigits("3000") && DecimalValue("3000") == 3000
  {
    assert "3000"[..3] == "300" && "300"[..2] == "30" && "30"[..1] == "3" && "3"[..0] == "";
  }
}
