/**
  The four identifier shapes of index.js, each an anchored regular expression
  made of runs of `\d` separated by a literal '-':

    CAS          /^\d{2,7}-\d{2}-\d{1}$/
    EC           /^\d{3}-\d{3}-\d{1}$/
    KE Annex 1   /^KE-\d{5}$/
    KE Annex 2   /^\d{4}-\d{1}-\d{1,4}$/

  Each shape is written as a fixed layout (where the dashes sit, counted from
  the start or the end) and, equivalently, as the pieces `split('-')` yields.
*/
module Shapes {
  import opened Js

  /** A run `\d{min,max}`. */
  datatype Run = Run(min: nat, max: nat)

  predicate DigitRun(p: string, r: Run) {
    r.min <= |p| <= r.max && IsDigits(p)
  }

  /** The pieces are exactly one digit run each, in the order of `runs`. */
  predicate SegmentsFit(parts: seq<string>, runs: seq<Run>) {
    |parts| == |runs| && forall i :: 0 <= i < |parts| ==> DigitRun(parts[i], runs[i])
  }

  const CasRuns: seq<Run> := [Run(2, 7), Run(2, 2), Run(1, 1)]
  const EcRuns: seq<Run> := [Run(3, 3), Run(3, 3), Run(1, 1)]
  const AnnexOneRuns: seq<Run> := [Run(5, 5)]
  const AnnexTwoRuns: seq<Run> := [Run(4, 4), Run(1, 1), Run(1, 4)]
  const AnnexOnePrefix: string := "KE-"

  /** CAS_REGEX: 2 to 7 digits, '-', 2 digits, '-', 1 digit. */
  predicate CasShape(s: string) {
    && 7 <= |s| <= 12
    && IsDigits(s[..|s| - 5]) && s[|s| - 5] == '-'
    && IsDigits(s[|s| - 4..|s| - 2]) && s[|s| - 2] == '-'
    && IsDigit(s[|s| - 1])
  }

  /** EC_REGEX: 3 digits, '-', 3 digits, '-', 1 digit. */
  predicate EcShape(s: string) {
    && |s| == 9
    && IsDigits(s[..3]) && s[3] == '-'
    && IsDigits(s[4..7]) && s[7] == '-'
    && IsDigit(s[8])
  }

  /** KE_ANNEX_ONE_REGEX: "KE-" and 5 digits. */
  predicate AnnexOneShape(s: string) {
    |s| == 8 && s[..3] == AnnexOnePrefix && IsDigits(s[3..])
  }

  /** KE_ANNEX_TWO_REGEX: 4 digits, '-', 1 digit, '-', 1 to 4 digits. */
  predicate AnnexTwoShape(s: string) {
    && 8 <= |s| <= 11
    && IsDigits(s[..4]) && s[4] == '-'
    && IsDigit(s[5]) && s[6] == '-'
    && IsDigits(s[7..])
  }

  lemma DigitsHaveNoDash(p: string)
    requires IsDigits(p)
    ensures '-' !in p
  {
    forall i | 0 <= i < |p| ensures p[i] != '-' {
      assert IsDigit(p[i]);
    }
  }

  lemma JoinThree(a: string, b: string, c: string)
    ensures Join([a, b, c]) == a + "-" + b + "-" + c
  {
    assert [a, b, c][1..] == [b, c];
    assert [b, c][1..] == [c];
    assert Join([c]) == c;
    assert Join([b, c]) == b + "-" + c;
    assert Join([a, b, c]) == a + "-" + (b + "-" + c);
  }

  /** The three pieces of `a-b-c` when none of them holds a dash. */
  lemma SplitThree(a: string, b: string, c: string)
    requires '-' !in a && '-' !in b && '-' !in c
    ensures Split(a + "-" + b + "-" + c) == [a, b, c]
  {
    JoinThree(a, b, c);
    SplitJoin([a, b, c]);
  }

  /** A string that splits into three pieces is the pieces joined by dashes. */
  lemma ThreePieces(s: string)
    requires |Split(s)| == 3
    ensures s == Split(s)[0] + "-" + Split(s)[1] + "-" + Split(s)[2]
  {
    var p := Split(s);
    JoinSplit(s);
    assert p == [p[0], p[1], p[2]];
    JoinThree(p[0], p[1], p[2]);
  }

  /** A string with dashes at `i` and `j` is the three stretches around them joined by dashes. */
  lemma DashesAt(s: string, i: int, j: int)
    requires 0 <= i < j < |s| && s[i] == '-' && s[j] == '-'
    ensures s == s[..i] + "-" + s[i + 1..j] + "-" + s[j + 1..]
  {
    var t := s[..i] + "-" + s[i + 1..j] + "-" + s[j + 1..];
    assert |t| == |s|;
    forall k | 0 <= k < |s| ensures t[k] == s[k] {
      if k < i {
      } else if k == i {
      } else if k < j {
        assert t[k] == s[i + 1..j][k - i - 1];
      } else if k == j {
      } else {
        assert t[k] == s[j + 1..][k - j - 1];
      }
    }
  }

  /** Where the dashes of a CAS-shaped string fall, and the pieces split gives. */
  lemma CasSplit(s: string)
    requires CasShape(s)
    ensures Split(s) == [s[..|s| - 5], s[|s| - 4..|s| - 2], s[|s| - 1..]]
  {
    var n := |s|;
    var a, b, c := s[..n - 5], s[n - 4..n - 2], s[n - 1..];
    assert IsDigits(c);
    DigitsHaveNoDash(a);
    DigitsHaveNoDash(b);
    DigitsHaveNoDash(c);
    DashesAt(s, n - 5, n - 2);
    SplitThree(a, b, c);
  }

  lemma EcSplit(s: string)
    requires EcShape(s)
    ensures Split(s) == [s[..3], s[4..7], s[8..]]
  {
    var a, b, c := s[..3], s[4..7], s[8..];
    assert IsDigits(c);
    DigitsHaveNoDash(a);
    DigitsHaveNoDash(b);
    DigitsHaveNoDash(c);
    DashesAt(s, 3, 7);
    SplitThree(a, b, c);
  }

  lemma AnnexTwoSplit(s: string)
    requires AnnexTwoShape(s)
    ensures Split(s) == [s[..4], s[5..6], s[7..]]
  {
    var a, b, c := s[..4], s[5..6], s[7..];
    assert IsDigits(b);
    DigitsHaveNoDash(a);
    DigitsHaveNoDash(b);
    DigitsHaveNoDash(c);
    DashesAt(s, 4, 6);
    SplitThree(a, b, c);
  }

  /**
    A string has the CAS shape exactly when `split('-')` cuts it into a run of
    2 to 7 digits, a run of 2 digits and a single digit.
  */
  lemma CasShapeSegments(s: string)
    ensures CasShape(s) <==> SegmentsFit(Split(s), CasRuns)
  {
    if CasShape(s) {
      CasSplit(s);
    }
    if SegmentsFit(Split(s), CasRuns) {
      var p := Split(s);
      ThreePieces(s);
      assert DigitRun(p[0], Run(2, 7)) && DigitRun(p[1], Run(2, 2)) && DigitRun(p[2], Run(1, 1));
      var n := |s|;
      assert n == |p[0]| + |p[1]| + |p[2]| + 2;
      assert s[..n - 5] == p[0];
      assert s[n - 4..n - 2] == p[1];
      assert s[n - 1] == p[2][0];
    }
  }

  /**
    A string has the EC shape exactly when `split('-')` cuts it into two runs
    of 3 digits and a single digit.
  */
  lemma EcShapeSegments(s: string)
    ensures EcShape(s) <==> SegmentsFit(Split(s), EcRuns)
  {
    if EcShape(s) {
      EcSplit(s);
    }
    if SegmentsFit(Split(s), EcRuns) {
      var p := Split(s);
      ThreePieces(s);
      assert DigitRun(p[0], Run(3, 3)) && DigitRun(p[1], Run(3, 3)) && DigitRun(p[2], Run(1, 1));
      assert s[..3] == p[0];
      assert s[4..7] == p[1];
      assert s[8] == p[2][0];
    }
  }

  /**
    A string has the KE Annex 1 shape exactly when it starts with "KE-" and
    `split('-')` leaves the rest as one run of 5 digits.
  */
  lemma AnnexOneShapeSegments(s: string)
    ensures AnnexOneShape(s) <==>
              |s| >= 3 && s[..3] == AnnexOnePrefix && SegmentsFit(Split(s[3..]), AnnexOneRuns)
  {
    if |s| >= 3 && IsDigits(s[3..]) {
      DigitsHaveNoDash(s[3..]);
      SplitJoin([s[3..]]);
    }
    if |s| >= 3 && SegmentsFit(Split(s[3..]), AnnexOneRuns) {
      JoinSplit(s[3..]);
      assert Split(s[3..]) == [Split(s[3..])[0]];
    }
  }

  /**
    A string has the KE Annex 2 shape exactly when `split('-')` cuts it into a
    run of 4 digits, a single digit and a run of 1 to 4 digits.
  */
  lemma AnnexTwoShapeSegments(s: string)
    ensures AnnexTwoShape(s) <==> SegmentsFit(Split(s), AnnexTwoRuns)
  {
    if AnnexTwoShape(s) {
      AnnexTwoSplit(s);
    }
    if SegmentsFit(Split(s), AnnexTwoRuns) {
      var p := Split(s);
      ThreePieces(s);
      assert DigitRun(p[0], Run(4, 4)) && DigitRun(p[1], Run(1, 1)) && DigitRun(p[2], Run(1, 4));
      assert s[..4] == p[0];
      assert s[5] == p[1][0];
      assert s[7..] == p[2];
    }
  }

  /**
    Every choice of digit runs, joined by dashes, has the shape: the shape
    accepts the whole language of its regular expression and nothing else
    (with the lemmas above).
  */
  lemma JoinedRunsFit(parts: seq<string>, runs: seq<Run>)
    requires |runs| >= 1 && SegmentsFit(parts, runs)
    ensures Split(Join(parts)) == parts
  {
    forall i | 0 <= i < |parts| ensures '-' !in parts[i] {
      DigitsHaveNoDash(parts[i]);
    }
    SplitJoin(parts);
  }

  /**
    No string has two of the four shapes: the middle piece has 2 digits for
    CAS, 3 for EC and 1 for Annex 2, the first piece is 3 digits for EC and 4
    for Annex 2, and only Annex 1 starts with 'K'.
  */
  lemma ShapesDisjoint(s: string)
    ensures !(CasShape(s) && EcShape(s))
    ensures !(CasShape(s) && AnnexOneShape(s))
    ensures !(CasShape(s) && AnnexTwoShape(s))
    ensures !(EcShape(s) && AnnexOneShape(s))
    ensures !(EcShape(s) && AnnexTwoShape(s))
    ensures !(AnnexOneShape(s) && AnnexTwoShape(s))
  {
    var n := |s|;
    if CasShape(s) {
      assert IsDigit(s[..n - 5][0]);
      assert n == 9 ==> IsDigit(s[..n - 5][3]);
    }
    if EcShape(s) {
      assert IsDigit(s[..3][0]);
    }
    if AnnexOneShape(s) {
      assert s[0] == s[..3][0] == 'K';
    }
    if AnnexTwoShape(s) {
      assert IsDigit(s[..4][0]) && IsDigit(s[..4][3]);
      assert n >= 9 ==> IsDigit(s[7..][n - 2 - 7]);
    }
  }
}
