/**
  The digit arithmetic helpers of util.js: string reversal, the positional
  weighted digit total, and the two check-digit tests.
*/
module Util {
  import opened Js

  // ---------------------------------------------------------------------
  // reverseString

  /** The characters of `s` in reverse order. */
  function Reverse(s: string): (r: string)
    ensures |r| == |s|
    ensures forall i :: 0 <= i < |s| ==> r[i] == s[|s| - 1 - i]
  {
    if s == [] then [] else Reverse(s[1..]) + [s[0]]
  }

  /** Reversing twice gives back the input. */
  lemma ReverseReverse(s: string)
    ensures Reverse(Reverse(s)) == s
  {
    var r := Reverse(s);
    forall i | 0 <= i < |s|
      ensures Reverse(r)[i] == s[i]
    {
      assert Reverse(r)[i] == r[|s| - 1 - i];
    }
  }

  /** Reversal keeps a string of digits a string of digits. */
  lemma ReverseDigits(s: string)
    requires IsDigits(s)
    ensures IsDigits(Reverse(s))
  {
    var r := Reverse(s);
    forall i | 0 <= i < |r|
      ensures IsDigit(r[i])
    {
      assert r[i] == s[|s| - 1 - i];
    }
  }

  /**
    `reverseString(s)`: throws a TypeError when `s` trims to the empty string
    (it is empty or only whitespace) and otherwise returns `s` reversed
    character by character.
  */
  function ReverseString(s: string): (r: Result<string>)
    ensures r.TypeError? <==> IsBlank(s)
    ensures r.Returned? ==> |r.value| == |s| && forall i :: 0 <= i < |s| ==> r.value[i] == s[|s| - 1 - i]
  {
    if IsBlank(s) then TypeError else Returned(Reverse(s))
  }

  // ---------------------------------------------------------------------
  // calculateTotalDigitValueCAS / calculateTotalDigitValueEC

  /**
    The total that both calculateTotalDigitValue helpers accumulate: the
    character at 1-based position i, converted to a number, times i, summed
    from the left. One character that is neither a digit nor whitespace
    makes the total NaN.
  */
  function TotalDigitValue(s: string): (r: Num)
    ensures r.NaN? <==> exists i :: 0 <= i < |s| && CharToNumber(s[i]).NaN?
    ensures r.Int? ==> r.n >= 0
  {
    if s == [] then Int(0)
    else
      var prefix := s[..|s| - 1];
      var r := Add(TotalDigitValue(prefix), Mul(CharToNumber(s[|s| - 1]), Int(|s|)));
      assert forall i :: 0 <= i < |prefix| ==> prefix[i] == s[i];
      r
  }

  /**
    Reference definition of the weighted digit sum of a digit string,
    digit(s[0]) * w + digit(s[1]) * (w + 1) + ..., read from the left.
  */
  function WeightedFrom(s: string, w: nat): nat
    requires IsDigits(s)
  {
    if s == [] then 0 else DigitValue(s[0]) * w + WeightedFrom(s[1..], w + 1)
  }

  /** The sum of digit(s[i]) * (i + 1) over the digit string `s`. */
  function WeightedDigitSum(s: string): nat
    requires IsDigits(s)
  {
    WeightedFrom(s, 1)
  }

  lemma {:induction false} WeightedFromSnoc(s: string, c: char, w: nat)
    requires IsDigits(s) && IsDigit(c)
    ensures IsDigits(s + [c])
    ensures WeightedFrom(s + [c], w) == WeightedFrom(s, w) + DigitValue(c) * (w + |s|)
  {
    assert IsDigits(s + [c]) by {
      forall i | 0 <= i < |s + [c]| ensures IsDigit((s + [c])[i]) {
        if i < |s| { assert (s + [c])[i] == s[i]; }
      }
    }
    if s != [] {
      assert (s + [c])[1..] == s[1..] + [c];
      WeightedFromSnoc(s[1..], c, w + 1);
    } else {
      assert s + [c] == [c];
    }
  }

  /**
    On a digit string the accumulated total is never NaN and equals the
    weighted digit sum Σ digit(s[i]) * (i + 1).
  */
  lemma {:induction false} TotalOfDigits(s: string)
    requires IsDigits(s)
    ensures TotalDigitValue(s) == Int(WeightedDigitSum(s))
  {
    if s != [] {
      var prefix := s[..|s| - 1];
      var c := s[|s| - 1];
      assert IsDigits(prefix) by {
        forall i | 0 <= i < |prefix| ensures IsDigit(prefix[i]) { assert prefix[i] == s[i]; }
      }
      TotalOfDigits(prefix);
      WeightedFromSnoc(prefix, c, 1);
      assert prefix + [c] == s;
    }
  }

  /**
    calculateTotalDigitValueCAS: a `total` accumulator that the loop over the
    1-based position i extends by `digitsAsString[i - 1] * i`.
  */
  method CalculateTotalDigitValueCAS(digitsAsString: string) returns (total: Num)
    ensures total == TotalDigitValue(digitsAsString)
  {
    total := Int(0);
    for i := 1 to |digitsAsString| + 1
      invariant total == TotalDigitValue(digitsAsString[..i - 1])
    {
      assert digitsAsString[..i][..i - 1] == digitsAsString[..i - 1];
      total := Add(total, Mul(CharToNumber(digitsAsString[i - 1]), Int(i)));
    }
    assert digitsAsString[..|digitsAsString|] == digitsAsString;
  }

  /**
    calculateTotalDigitValueEC: the same loop as calculateTotalDigitValueCAS,
    written out a second time in the source; it computes the same total.
  */
  method CalculateTotalDigitValueEC(digitsAsString: string) returns (total: Num)
    ensures total == TotalDigitValue(digitsAsString)
  {
    total := Int(0);
    for i := 1 to |digitsAsString| + 1
      invariant total == TotalDigitValue(digitsAsString[..i - 1])
    {
      assert digitsAsString[..i][..i - 1] == digitsAsString[..i - 1];
      total := Add(total, Mul(CharToNumber(digitsAsString[i - 1]), Int(i)));
    }
    assert digitsAsString[..|digitsAsString|] == digitsAsString;
  }

  // ---------------------------------------------------------------------
  // isModuloValid / isModuloValidExceptionEC

  /** isModuloValid: `(checkDigit % mod) === checkSum`. */
  function IsModuloValid(checkDigit: Num, mod: Num, checkSum: Num): (r: bool)
    ensures r ==> checkDigit.Int? && mod.Int? && checkSum.Int? && mod.n != 0
    ensures r ==> Abs(checkSum.n) < Abs(mod.n)
    ensures checkDigit.Int? && checkDigit.n >= 0 && mod.Int? && mod.n > 0 ==>
              (r <==> checkSum == Int(checkDigit.n % mod.n))
  {
    StrictEquals(Rem(checkDigit, mod), checkSum)
  }

  /**
    isModuloValidExceptionEC: the remainder is 10 and the check digit is 1,
    the EC-number convention for a remainder that has no single digit.
  */
  function IsModuloValidExceptionEC(checkDigit: Num, mod: Num, checkSum: Num): (r: bool)
    ensures r ==> checkSum == Int(1) && checkDigit.Int? && mod.Int? && Abs(mod.n) > 10
    ensures checkDigit.Int? && checkDigit.n >= 0 && mod.Int? && mod.n > 0 ==>
              (r <==> checkDigit.n % mod.n == 10 && checkSum == Int(1))
  {
    StrictEquals(Rem(checkDigit, mod), Int(10)) && StrictEquals(checkSum, Int(1))
  }

  /** The plain mod-11 test and the EC exception never hold together. */
  lemma ExceptionExcludesPlain(checkDigit: Num, checkSum: Num)
    ensures !(IsModuloValid(checkDigit, Int(11), checkSum) && IsModuloValidExceptionEC(checkDigit, Int(11), checkSum))
  {
    if IsModuloValidExceptionEC(checkDigit, Int(11), checkSum) {
      assert Rem(checkDigit, Int(11)) == Int(10);
    }
  }

  /** The worked example of the doc comment: "812377" weighs 105, and 105 mod 10 is 5. */
  lemma WorkedExample()
    ensures IsDigits("812377")
    ensures WeightedDigitSum("812377") == 105
    ensures TotalDigitValue("812377") == Int(105)
    ensures IsModuloValid(Int(105), Int(10), Int(5))
  {
    var s := "812377";
    assert IsDigits(s);
    assert s[1..] == "12377" && s[2..] == "2377" && s[3..] == "377" && s[4..] == "77" && s[5..] == "7" && s[6..] == "";
    TotalOfDigits(s);
  }
}
