/**
  The four isFormattedCorrectlyAndIsValid* combinators of index.js: run the
  format checker, then (only on a well-formatted input) the validator, and
  report one of three outcomes.
*/
module Combinators {
  import opened Js
  import opened Shapes
  import opened Checks

  datatype Scheme = Cas | Ec | AnnexOne | AnnexTwo

  /** The `type` field of a scheme's report; each scheme has its own. */
  function TypeName(k: Scheme): (r: string)
    ensures r == "CAS Number" <==> k == Cas
    ensures r == "EC Number" <==> k == Ec
    ensures r == "KE Annex 1" <==> k == AnnexOne
    ensures r == "KE Annex 2" <==> k == AnnexTwo
  {
    match k
    case Cas => "CAS Number"
    case Ec => "EC Number"
    case AnnexOne => "KE Annex 1"
    case AnnexTwo => "KE Annex 2"
  }

  /** The `numberFormat` field of a scheme's report; each scheme has its own. */
  function NumberFormat(k: Scheme): (r: string)
    ensures r == "XX-YY-Z - XXXXXXX-YY-Z" <==> k == Cas
    ensures r == "XXX-YYY-Z" <==> k == Ec
    ensures r == "KE-XXXXX" <==> k == AnnexOne
    ensures r == "YYYY-X-ZZZZ" <==> k == AnnexTwo
  {
    match k
    case Cas => "XX-YY-Z - XXXXXXX-YY-Z"
    case Ec => "XXX-YYY-Z"
    case AnnexOne => "KE-XXXXX"
    case AnnexTwo => "YYYY-X-ZZZZ"
  }

  /** The `error` field: 'format' or 'invalid' (null is `None`). */
  datatype ErrorKind = Format | Invalid

  const NoMatchMessage: string := "No Chemical Identifiers were matched"

  /**
    A result record. A scheme report carries the scheme (from which `type`
    and `numberFormat` follow) and the `formatted` and `valid` flags; the
    dispatcher's fallback record has none of these.
  */
  datatype Report =
    | SchemeReport(success: bool, message: string, scheme: Scheme, error: Option<ErrorKind>,
                   formatted: bool, valid: bool, originalInput: string)
    | NoMatch(success: bool, message: string, error: Option<ErrorKind>, originalInput: string)

  /**
    The three outcomes and the fallback: success with no error; error
    'format' with nothing matched; error 'invalid' with the format matched
    but not the check.
  */
  predicate WellFormed(r: Report) {
    match r
    case SchemeReport(success, _, _, error, formatted, valid, _) =>
      || (error == None && success && formatted && valid)
      || (error == Some(Format) && !success && !formatted && !valid)
      || (error == Some(Invalid) && !success && formatted && !valid)
    case NoMatch(success, message, error, _) =>
      !success && error == Some(Format) && message == NoMatchMessage
  }

  function FormatFailure(k: Scheme, s: string, format: Check): Report {
    SchemeReport(false, format.message, k, Some(Format), false, false, s)
  }

  function InvalidFailure(k: Scheme, s: string, validity: Check): Report {
    SchemeReport(false, validity.message, k, Some(Invalid), true, false, s)
  }

  function Valid(k: Scheme, s: string): Report {
    SchemeReport(true, s + " is formatted correctly and is valid", k, None, true, true, s)
  }

  /**
    isFormattedCorrectlyAndIsValidCAS: 'format' when the input is not
    CAS-shaped, 'invalid' when it is but the CAS rule fails, success when both
    hold; the validator, which may throw on other inputs, only runs on a
    CAS-shaped one.
  */
  function IsFormattedCorrectlyAndIsValidCAS(s: string): (r: Report)
    ensures r.SchemeReport? && r.scheme == Cas && r.originalInput == s && WellFormed(r)
    ensures r.formatted <==> CasShape(s)
    ensures r.success <==> CasShape(s) && CasRule(Split(s))
    ensures r.error == Some(Format) ==> r.message == s + " is not formatted correctly"
    ensures r.error == Some(Invalid) ==> r.message == s + " is not a valid CAS number"
    ensures r.success ==> r.message == s + " is formatted correctly and is valid"
  {
    var format := IsFormattedCorrectlyCAS(s);
    CasShapeSegments(s);
    if !format.success then FormatFailure(Cas, s, format)
    else
      var validity := IsValidCAS(s).value;
      if !validity.success then InvalidFailure(Cas, s, validity)
      else Valid(Cas, s)
  }

  /**
    isFormattedCorrectlyAndIsValidEC: 'format' when the input is not
    EC-shaped, 'invalid' when it is but the EC rule fails, success when both
    hold.
  */
  function IsFormattedCorrectlyAndIsValidEC(s: string): (r: Report)
    ensures r.SchemeReport? && r.scheme == Ec && r.originalInput == s && WellFormed(r)
    ensures r.formatted <==> EcShape(s)
    ensures r.success <==> EcShape(s) && EcRule(Split(s))
    ensures r.error == Some(Format) ==> r.message == s + " is not formatted correctly"
    ensures r.error == Some(Invalid) ==> r.message == s + " is not a valid EC number"
    ensures r.success ==> r.message == s + " is formatted correctly and is valid"
  {
    var format := IsFormattedCorrectlyEC(s);
    EcShapeSegments(s);
    if !format.success then FormatFailure(Ec, s, format)
    else
      var validity := IsValidEC(s);
      if !validity.success then InvalidFailure(Ec, s, validity)
      else Valid(Ec, s)
  }

  /**
    isFormattedCorrectlyAndIsValidAnnexOneKE: an Annex 1-shaped input always
    has 8 characters, so this combinator never reports 'invalid'; it succeeds
    exactly on the Annex 1 shape.
  */
  function IsFormattedCorrectlyAndIsValidAnnexOneKE(s: string): (r: Report)
    ensures r.SchemeReport? && r.scheme == AnnexOne && r.originalInput == s && WellFormed(r)
    ensures r.success <==> AnnexOneShape(s)
    ensures r.error != Some(Invalid)
    ensures r.error == Some(Format) ==> r.message == s + " is not formatted correctly"
    ensures r.success ==> r.message == s + " is formatted correctly and is valid"
  {
    var format := IsFormattedCorrectlyAnnexOneKE(s);
    AnnexOneShapeSegments(s);
    if !format.success then FormatFailure(AnnexOne, s, format)
    else
      var validity := IsValidAnnexOneKE(s);
      if !validity.success then InvalidFailure(AnnexOne, s, validity)
      else Valid(AnnexOne, s)
  }

  /**
    isFormattedCorrectlyAndIsValidAnnexTwoKE: 'format' when the input is not
    Annex 2-shaped, 'invalid' when its four-digit year lies outside 1991 to the
    current year, success otherwise.
  */
  function IsFormattedCorrectlyAndIsValidAnnexTwoKE(s: string, currentYear: int): (r: Report)
    ensures r.SchemeReport? && r.scheme == AnnexTwo && r.originalInput == s && WellFormed(r)
    ensures r.formatted <==> AnnexTwoShape(s)
    ensures r.success <==> AnnexTwoShape(s) && AnnexTwoYearOfIntroduction <= DecimalValue(s[..4]) <= currentYear
    ensures r.error == Some(Format) ==> r.message == s + " is not formatted correctly"
    ensures r.error == Some(Invalid) ==> r.message == s + " is not a valid Annex 2 KE number"
    ensures r.success ==> r.message == s + " is formatted correctly and is valid"
  {
    var format := IsFormattedCorrectlyAnnexTwoKE(s);
    AnnexTwoShapeSegments(s);
    if !format.success then FormatFailure(AnnexTwo, s, format)
    else
      AnnexTwoSplit(s);
      var validity := IsValidAnnexTwoKE(s, currentYear);
      if !validity.success then InvalidFailure(AnnexTwo, s, validity)
      else Valid(AnnexTwo, s)
  }

  /**
    The `type` and `numberFormat` every outcome of each combinator carries:
    they name the combinator's scheme, whether the report is a success, a
    'format' failure or an 'invalid' one.
  */
  lemma ReportFields(s: string, currentYear: int)
    ensures TypeName(IsFormattedCorrectlyAndIsValidCAS(s).scheme) == "CAS Number"
    ensures NumberFormat(IsFormattedCorrectlyAndIsValidCAS(s).scheme) == "XX-YY-Z - XXXXXXX-YY-Z"
    ensures TypeName(IsFormattedCorrectlyAndIsValidEC(s).scheme) == "EC Number"
    ensures NumberFormat(IsFormattedCorrectlyAndIsValidEC(s).scheme) == "XXX-YYY-Z"
    ensures TypeName(IsFormattedCorrectlyAndIsValidAnnexOneKE(s).scheme) == "KE Annex 1"
    ensures NumberFormat(IsFormattedCorrectlyAndIsValidAnnexOneKE(s).scheme) == "KE-XXXXX"
    ensures TypeName(IsFormattedCorrectlyAndIsValidAnnexTwoKE(s, currentYear).scheme) == "KE Annex 2"
    ensures NumberFormat(IsFormattedCorrectlyAndIsValidAnnexTwoKE(s, currentYear).scheme) == "YYYY-X-ZZZZ"
  {
  }
}
