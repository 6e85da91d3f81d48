/**
  identifyChemicalNumber and identifyChemicalNumbers of index.js: run every
  combinator in a fixed order and pick the first success, else the first
  'invalid' (a format that matched with a check that failed), else a fallback.
*/
module Identify {
  import opened Js
  import opened Shapes
  import opened Checks
  import opened Combinators

  /** The order of the entries of identificationObject. */
  const Order: seq<Scheme> := [Cas, Ec, AnnexOne, AnnexTwo]

  /** The combinator of scheme `k`, applied to `s`. */
  function Attempt(k: Scheme, s: string, currentYear: int): (r: Report)
    ensures r.SchemeReport? && r.scheme == k && r.originalInput == s && WellFormed(r)
  {
    match k
    case Cas => IsFormattedCorrectlyAndIsValidCAS(s)
    case Ec => IsFormattedCorrectlyAndIsValidEC(s)
    case AnnexOne => IsFormattedCorrectlyAndIsValidAnnexOneKE(s)
    case AnnexTwo => IsFormattedCorrectlyAndIsValidAnnexTwoKE(s, currentYear)
  }

  /** Every combinator's report, in `Order`. */
  function Attempts(s: string, currentYear: int): (rs: seq<Report>)
    ensures |rs| == |Order|
    ensures forall i :: 0 <= i < |Order| ==>
              rs[i].SchemeReport? && rs[i].scheme == Order[i] && rs[i].originalInput == s && WellFormed(rs[i])
  {
    seq(|Order|, i requires 0 <= i < |Order| => Attempt(Order[i], s, currentYear))
  }

  /** Array.prototype.find, giving the position of the first element that satisfies `p`. */
  function Find<T>(xs: seq<T>, p: T -> bool): (r: Option<nat>)
    ensures r.Some? ==> r.value < |xs| && p(xs[r.value]) && forall j :: 0 <= j < r.value ==> !p(xs[j])
    ensures r.None? ==> forall j :: 0 <= j < |xs| ==> !p(xs[j])
  {
    if xs == [] then None
    else if p(xs[0]) then Some(0)
    else match Find(xs[1..], p)
      case None => None
      case Some(i) => Some(i + 1)
  }

  /** Exactly one element satisfies `p`: `find` gives its position. */
  lemma FindOnly<T>(xs: seq<T>, p: T -> bool, k: nat)
    requires k < |xs| && p(xs[k])
    requires forall j :: 0 <= j < |xs| && j != k ==> !p(xs[j])
    ensures Find(xs, p) == Some(k)
  {
  }

  /** The predicates identifyChemicalNumber searches with. */
  predicate Succeeded(a: Report) {
    a.success
  }

  predicate ReportedInvalid(a: Report) {
    a.error == Some(Invalid)
  }

  /** The fallback record: a well-formed 'format' failure that keeps the input. */
  function NoMatchReport(s: string): (r: Report)
    ensures r.NoMatch? && WellFormed(r) && r.originalInput == s
  {
    NoMatch(false, NoMatchMessage, Some(Format), s)
  }

  /**
    The choice identifyChemicalNumber makes among the combinators' reports on
    `s`: the first successful report; failing that, the first report with
    error 'invalid'; failing that, the fallback "No Chemical Identifiers were
    matched" with error 'format'.
  */
  function Decide(results: seq<Report>, s: string): (r: Report)
    requires forall i :: 0 <= i < |results| ==> WellFormed(results[i]) && results[i].originalInput == s
    ensures r.originalInput == s && WellFormed(r)
    ensures r.success ==>
              exists i :: 0 <= i < |results| && r == results[i] && forall j :: 0 <= j < i ==> !results[j].success
    ensures !r.success && r.SchemeReport? ==>
              (forall j :: 0 <= j < |results| ==> !results[j].success) &&
              exists i :: 0 <= i < |results| && r == results[i] && r.error == Some(Invalid) &&
                forall j :: 0 <= j < i ==> results[j].error != Some(Invalid)
    ensures r.NoMatch? <==>
              forall j :: 0 <= j < |results| ==> !results[j].success && results[j].error != Some(Invalid)
  {
    match Find(results, Succeeded)
    case Some(i) => results[i]
    case None =>
      match Find(results, ReportedInvalid)
      case Some(i) => results[i]
      case None => NoMatchReport(s)
  }

  /** identifyChemicalNumber: every combinator's report, in `Order`, then the choice among them. */
  function IdentifyChemicalNumber(s: string, currentYear: int): (r: Report)
    ensures r.originalInput == s && WellFormed(r)
  {
    Decide(Attempts(s, currentYear), s)
  }

  /** When only the report at `k` got past its format check, it is the one chosen. */
  lemma DecideOnlyFormatted(results: seq<Report>, s: string, k: nat)
    requires forall i :: 0 <= i < |results| ==> WellFormed(results[i]) && results[i].originalInput == s
    requires k < |results| && results[k].SchemeReport? && results[k].formatted
    requires forall j :: 0 <= j < |results| && j != k ==> results[j].SchemeReport? && !results[j].formatted
    ensures Decide(results, s) == results[k]
  {
    assert WellFormed(results[k]);
    forall j | 0 <= j < |results| && j != k
      ensures !results[j].success && results[j].error == Some(Format)
    {
      assert WellFormed(results[j]);
    }
    if results[k].success {
      FindOnly(results, Succeeded, k);
    } else {
      assert Find(results, Succeeded) == None;
      assert ReportedInvalid(results[k]);
      FindOnly(results, ReportedInvalid, k);
    }
  }

  /** When no report got past its format check, the fallback is chosen. */
  lemma DecideNoneFormatted(results: seq<Report>, s: string)
    requires forall i :: 0 <= i < |results| ==> WellFormed(results[i]) && results[i].originalInput == s
    requires forall j :: 0 <= j < |results| ==> results[j].SchemeReport? && !results[j].formatted
    ensures Decide(results, s) == NoMatchReport(s)
  {
    forall j | 0 <= j < |results|
      ensures !results[j].success && results[j].error == Some(Format)
    {
      assert WellFormed(results[j]);
    }
  }

  /**
    The four shapes being disjoint, at most one combinator gets past its
    format check, so the order of `Order` never decides the answer: a string of
    one scheme's shape gets that scheme's report, and any other string gets
    the fallback.
  */
  lemma IdentifyByShape(s: string, currentYear: int)
    ensures CasShape(s) ==> IdentifyChemicalNumber(s, currentYear) == IsFormattedCorrectlyAndIsValidCAS(s)
    ensures EcShape(s) ==> IdentifyChemicalNumber(s, currentYear) == IsFormattedCorrectlyAndIsValidEC(s)
    ensures AnnexOneShape(s) ==> IdentifyChemicalNumber(s, currentYear) == IsFormattedCorrectlyAndIsValidAnnexOneKE(s)
    ensures AnnexTwoShape(s) ==>
              IdentifyChemicalNumber(s, currentYear) == IsFormattedCorrectlyAndIsValidAnnexTwoKE(s, currentYear)
    ensures !CasShape(s) && !EcShape(s) && !AnnexOneShape(s) && !AnnexTwoShape(s) ==>
              IdentifyChemicalNumber(s, currentYear) == NoMatchReport(s)
  {
    FormattedByShape(s, currentYear);
    if CasShape(s) {
      IdentifyWithOneShape(s, currentYear, 0);
    } else if EcShape(s) {
      IdentifyWithOneShape(s, currentYear, 1);
    } else if AnnexOneShape(s) {
      IdentifyWithOneShape(s, currentYear, 2);
    } else if AnnexTwoShape(s) {
      IdentifyWithOneShape(s, currentYear, 3);
    } else {
      DecideNoneFormatted(Attempts(s, currentYear), s);
    }
  }

  /** A string whose only format match is scheme `k` gets that scheme's report. */
  lemma IdentifyWithOneShape(s: string, currentYear: int, k: nat)
    requires k < |Order| && Attempts(s, currentYear)[k].formatted
    ensures IdentifyChemicalNumber(s, currentYear) == Attempts(s, currentYear)[k]
  {
    ShapesDisjoint(s);
    FormattedByShape(s, currentYear);
    var rs := Attempts(s, currentYear);
    forall j | 0 <= j < |rs| && j != k
      ensures rs[j].SchemeReport? && !rs[j].formatted
    {
      if j == 0 {
      } else if j == 1 {
      } else if j == 2 {
      } else {
      }
    }
    DecideOnlyFormatted(rs, s, k);
  }

  /** Which attempt gets past its format check, by shape. */
  lemma FormattedByShape(s: string, currentYear: int)
    ensures |Attempts(s, currentYear)| == 4
    ensures forall i :: 0 <= i < 4 ==>
              Attempts(s, currentYear)[i].SchemeReport? && WellFormed(Attempts(s, currentYear)[i]) &&
              Attempts(s, currentYear)[i].originalInput == s
    ensures Attempts(s, currentYear)[0] == IsFormattedCorrectlyAndIsValidCAS(s)
    ensures Attempts(s, currentYear)[1] == IsFormattedCorrectlyAndIsValidEC(s)
    ensures Attempts(s, currentYear)[2] == IsFormattedCorrectlyAndIsValidAnnexOneKE(s)
    ensures Attempts(s, currentYear)[3] == IsFormattedCorrectlyAndIsValidAnnexTwoKE(s, currentYear)
    ensures Attempts(s, currentYear)[0].formatted <==> CasShape(s)
    ensures Attempts(s, currentYear)[1].formatted <==> EcShape(s)
    ensures Attempts(s, currentYear)[2].formatted <==> AnnexOneShape(s)
    ensures Attempts(s, currentYear)[3].formatted <==> AnnexTwoShape(s)
  {
    var r := IsFormattedCorrectlyAndIsValidAnnexOneKE(s);
    assert WellFormed(r);
  }

  /**
    A string is identified successfully exactly when it has one of the four
    shapes and passes that scheme's check.
  */
  lemma IdentifySucceedsIff(s: string, currentYear: int)
    ensures IdentifyChemicalNumber(s, currentYear).success <==>
              || (CasShape(s) && CasRule(Split(s)))
              || (EcShape(s) && EcRule(Split(s)))
              || AnnexOneShape(s)
              || (AnnexTwoShape(s) && AnnexTwoYearOfIntroduction <= DecimalValue(s[..4]) <= currentYear)
  {
    IdentifyByShape(s, currentYear);
  }

  /** identifyChemicalNumbers: one report per input, in the same order. */
  function IdentifyChemicalNumbers(inputs: seq<string>, currentYear: int): (rs: seq<Report>)
    ensures |rs| == |inputs|
    ensures forall i :: 0 <= i < |inputs| ==> rs[i] == IdentifyChemicalNumber(inputs[i], currentYear)
  {
    if inputs == [] then []
    else [IdentifyChemicalNumber(inputs[0], currentYear)] + IdentifyChemicalNumbers(inputs[1..], currentYear)
  }
}
