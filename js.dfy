/**
  The few pieces of the JavaScript runtime that the identifier checks rely on,
  modelled as values: numbers that may be NaN, a call that throws a TypeError,
  String.prototype.split and Array.prototype.join on "-", String.prototype.trim
  (through its whitespace class), the global parseInt, and the conversion of a
  one-character string to a number that `*` performs.
*/
module Js {

  /** A JavaScript number as it occurs in this library: NaN or an integer. */
  datatype Num = NaN | Int(n: int)

  datatype Option<T> = None | Some(value: T)

  /** The outcome of a call that either returns a value or throws a TypeError. */
  datatype Result<T> = Returned(value: T) | TypeError

  function Abs(x: int): nat {
    if x < 0 then -x else x
  }

  /** `a + b`: NaN is absorbing. */
  function Add(a: Num, b: Num): (r: Num)
    ensures r.Int? <==> a.Int? && b.Int?
    ensures r.Int? ==> r.n == a.n + b.n
  {
    if a.NaN? || b.NaN? then NaN else Int(a.n + b.n)
  }

  /** `a * b`: NaN is absorbing. */
  function Mul(a: Num, b: Num): (r: Num)
    ensures r.Int? <==> a.Int? && b.Int?
    ensures r.Int? ==> r.n == a.n * b.n
  {
    if a.NaN? || b.NaN? then NaN else Int(a.n * b.n)
  }

  /**
    `a % b`: the remainder truncates toward zero, so it takes the sign of the
    dividend; a zero divisor gives NaN.
  */
  function Rem(a: Num, b: Num): (r: Num)
    ensures r.Int? <==> a.Int? && b.Int? && b.n != 0
    ensures r.Int? ==> Abs(r.n) < Abs(b.n)
    ensures r.Int? && r.n != 0 ==> (r.n < 0 <==> a.n < 0)
    ensures r.Int? ==> (a.n - r.n) % b.n == 0
    ensures r.Int? && 0 <= a.n && 0 < b.n ==> r.n == a.n % b.n
  {
    if a.NaN? || b.NaN? || b.n == 0 then NaN
    else
      var m := Abs(a.n) % Abs(b.n);
      TruncatedQuotient(a.n, b.n);
      Int(if a.n < 0 then -m else m)
  }

  /**
    The truncated remainder leaves a multiple of the divisor: the dividend
    minus it is the divisor times the quotient rounded toward zero.
  */
  lemma TruncatedQuotient(x: int, y: int)
    requires y != 0
    ensures (x - (if x < 0 then -(Abs(x) % Abs(y)) else Abs(x) % Abs(y))) % y == 0
  {
    var q, m := Abs(x) / Abs(y), Abs(x) % Abs(y);
    assert Abs(x) == q * Abs(y) + m;
    var k := if (x < 0) == (y < 0) then q else -q;
    assert x - (if x < 0 then -m else m) == k * y;
    MultipleRem(k, y);
  }

  /** A multiple of `y` leaves no remainder. */
  lemma MultipleRem(k: int, y: int)
    requires y != 0
    ensures (k * y) % y == 0
  {
    var p := k * y;
    var q, m := p / y, p % y;
    assert p == q * y + m;
    var d := k - q;
    SubTimes(k, q, y);
    assert m == d * y;
    if d != 0 {
      AtLeastDivisor(d, y);
    }
  }

  lemma SubTimes(a: int, b: int, c: int)
    ensures (a - b) * c == a * c - b * c
  {
  }

  /** A non-zero multiple of `y` is at least `y` in magnitude. */
  lemma AtLeastDivisor(d: int, y: int)
    requires d != 0 && y != 0
    ensures Abs(d * y) >= Abs(y)
  {
    var e, z := Abs(d), Abs(y);
    assert Abs(d * y) == e * z by {
      if d < 0 && y < 0 {
        assert d * y == (-d) * (-y);
      } else if d < 0 {
        assert d * y == -((-d) * y);
      } else if y < 0 {
        assert d * y == -(d * (-y));
      }
    }
    SubTimes(e, 1, z);
    MulNonNegative(e - 1, z);
  }

  lemma MulNonNegative(a: int, b: int)
    requires 0 <= a && 0 <= b
    ensures 0 <= a * b
  {
  }

  /**
    The conditions on `Rem` pin its value: the only integer smaller than the
    divisor in magnitude, of the dividend's sign, that leaves a multiple of
    the divisor, is the truncated remainder (so -7 % 3 is -1, not 2 or -2).
  */
  lemma RemDetermined(a: int, b: int, x: int)
    requires b != 0 && Abs(x) < Abs(b) && (x != 0 ==> (x < 0 <==> a < 0)) && (a - x) % b == 0
    ensures Rem(Int(a), Int(b)) == Int(x)
  {
    var r := Rem(Int(a), Int(b)).n;
    var qx, qr := (a - x) / b, (a - r) / b;
    assert a - x == qx * b;
    assert a - r == qr * b;
    SubTimes(qx, qr, b);
    assert r - x == (qx - qr) * b;
    if qx != qr {
      AtLeastDivisor(qx - qr, b);
      assert false;
    }
  }

  /** `a === b` on numbers: NaN is equal to nothing, itself included. */
  predicate StrictEquals(a: Num, b: Num) {
    a.Int? && b.Int? && a.n == b.n
  }

  // ---------------------------------------------------------------------
  // Characters

  /**
    The characters String.prototype.trim strips and Number() ignores
    (ECMAScript WhiteSpace and LineTerminator).
  */
  predicate IsWhitespace(c: char) {
    || c == '\t' || c == '\n' || c == '\U{000B}' || c == '\U{000C}' || c == '\r'
    || c == ' ' || c == '\U{00A0}' || c == '\U{1680}'
    || ('\U{2000}' <= c <= '\U{200A}')
    || c == '\U{2028}' || c == '\U{2029}' || c == '\U{202F}' || c == '\U{205F}'
    || c == '\U{3000}' || c == '\U{FEFF}'
  }

  /** `!s.trim()`: the string is empty or made of whitespace only. */
  predicate IsBlank(s: string) {
    forall i :: 0 <= i < |s| ==> IsWhitespace(s[i])
  }

  /** The regular-expression class `\d`. */
  predicate IsDigit(c: char) {
    '0' <= c <= '9'
  }

  predicate IsDigits(s: string) {
    forall i :: 0 <= i < |s| ==> IsDigit(s[i])
  }

  function DigitValue(c: char): (d: nat)
    requires IsDigit(c)
    ensures d <= 9
  {
    c as int - '0' as int
  }

  /**
    `Number(c)` for a one-character string `c`, the coercion that
    `digitsAsString[i - 1] * i` performs: a digit gives its value, whitespace
    trims to the empty string and gives 0, anything else gives NaN.
  */
  function CharToNumber(c: char): (r: Num)
    ensures IsDigit(c) ==> r == Int(DigitValue(c))
    ensures IsWhitespace(c) ==> r == Int(0)
    ensures r.NaN? <==> !IsDigit(c) && !IsWhitespace(c)
    ensures r.Int? ==> 0 <= r.n <= 9
  {
    if IsDigit(c) then Int(DigitValue(c))
    else if IsWhitespace(c) then Int(0)
    else NaN
  }

  // ---------------------------------------------------------------------
  // split('-') and join('-')

  /**
    `s.split('-')`: the maximal pieces between dashes, in order; there is
    always at least one piece, and none contains a dash.
  */
  function Split(s: string): (parts: seq<string>)
    ensures |parts| >= 1
    ensures forall i :: 0 <= i < |parts| ==> '-' !in parts[i]
  {
    if s == [] then [[]]
    else
      var rest := Split(s[1..]);
      if s[0] == '-' then [[]] + rest
      else [[s[0]] + rest[0]] + rest[1..]
  }

  /** `parts.join('-')`. */
  function Join(parts: seq<string>): string {
    if parts == [] then []
    else if |parts| == 1 then parts[0]
    else parts[0] + "-" + Join(parts[1..])
  }

  /**
    `parts[k]` used where a string is expected: an index past the end reads
    `undefined`, which converts to the text "undefined".
  */
  function PartOrUndefined(parts: seq<string>, k: nat): string {
    if k < |parts| then parts[k] else "undefined"
  }

  /** Splitting and joining again gives back the original string. */
  lemma {:induction false} JoinSplit(s: string)
    ensures Join(Split(s)) == s
  {
    if s != [] {
      JoinSplit(s[1..]);
      var rest := Split(s[1..]);
      if s[0] == '-' {
        assert Split(s) == [[]] + rest;
        assert s == [s[0]] + s[1..];
      } else {
        var parts := Split(s);
        assert parts == [[s[0]] + rest[0]] + rest[1..];
        if |rest| == 1 {
          assert s == [s[0]] + rest[0];
        } else {
          assert Join(rest) == rest[0] + "-" + Join(rest[1..]);
          assert parts[1..] == rest[1..];
          assert Join(parts) == [s[0]] + rest[0] + "-" + Join(rest[1..]);
          assert s == [s[0]] + s[1..];
        }
      }
    }
  }

  lemma {:induction false} SplitPrefix(p: string, t: string)
    requires '-' !in p
    ensures Split(p + t) == [p + Split(t)[0]] + Split(t)[1..]
  {
    if p != [] {
      SplitPrefix(p[1..], t);
      var rest := Split(p[1..] + t);
      assert (p + t)[1..] == p[1..] + t;
      assert (p + t)[0] == p[0] && p[0] != '-';
      assert Split(p + t) == [[p[0]] + rest[0]] + rest[1..];
      assert rest[0] == p[1..] + Split(t)[0];
      assert rest[1..] == Split(t)[1..];
      assert [p[0]] + (p[1..] + Split(t)[0]) == p + Split(t)[0];
    } else {
      assert p + t == t;
      assert p + Split(t)[0] == Split(t)[0];
      assert Split(t) == [Split(t)[0]] + Split(t)[1..];
    }
  }

  /** Joining dash-free pieces and splitting again gives back the pieces. */
  lemma {:induction false} SplitJoin(parts: seq<string>)
    requires |parts| >= 1
    requires forall i :: 0 <= i < |parts| ==> '-' !in parts[i]
    ensures Split(Join(parts)) == parts
  {
    if |parts| == 1 {
      SplitPrefix(parts[0], []);
      assert parts[0] + [] == parts[0];
    } else {
      var tail := Join(parts[1..]);
      SplitJoin(parts[1..]);
      SplitPrefix(parts[0], "-" + tail);
      assert parts[0] + "-" + tail == parts[0] + ("-" + tail);
      assert ("-" + tail)[1..] == tail;
      assert Split("-" + tail) == [[]] + parts[1..];
      assert Join(parts) == parts[0] + ("-" + tail);
      assert Split(Join(parts)) == [parts[0] + []] + parts[1..];
      assert parts[0] + [] == parts[0];
      assert parts == [parts[0]] + parts[1..];
    }
  }

  // ---------------------------------------------------------------------
  // parseInt

  function TrimStart(s: string): (t: string)
    ensures |t| <= |s|
    ensures t == s[|s| - |t|..]
    ensures t != [] ==> !IsWhitespace(t[0])
  {
    if s != [] && IsWhitespace(s[0]) then TrimStart(s[1..]) else s
  }

  /** The longest prefix of `s` made of decimal digits. */
  function LeadingDigits(s: string): (d: string)
    ensures IsDigits(d) && d <= s
    ensures |d| < |s| ==> !IsDigit(s[|d|])
  {
    if s != [] && IsDigit(s[0]) then [s[0]] + LeadingDigits(s[1..]) else []
  }

  /** The value of a string of decimal digits, most significant first. */
  function DecimalValue(d: string): nat
    requires IsDigits(d)
  {
    if d == [] then 0 else DecimalValue(d[..|d| - 1]) * 10 + DigitValue(d[|d| - 1])
  }

  predicate IsHexDigit(c: char) {
    IsDigit(c) || 'a' <= c <= 'f' || 'A' <= c <= 'F'
  }

  function HexDigitValue(c: char): nat
    requires IsHexDigit(c)
  {
    if IsDigit(c) then DigitValue(c)
    else if 'a' <= c <= 'f' then c as int - 'a' as int + 10
    else c as int - 'A' as int + 10
  }

  function LeadingHexDigits(s: string): (d: string)
    ensures forall i :: 0 <= i < |d| ==> IsHexDigit(d[i])
  {
    if s != [] && IsHexDigit(s[0]) then [s[0]] + LeadingHexDigits(s[1..]) else []
  }

  function HexValue(d: string): nat
    requires forall i :: 0 <= i < |d| ==> IsHexDigit(d[i])
  {
    if d == [] then 0 else HexValue(d[..|d| - 1]) * 16 + HexDigitValue(d[|d| - 1])
  }

  /**
    `parseInt(s)` with no radix: skip leading whitespace, take an optional
    sign, read radix 16 after a "0x" or "0X" prefix and radix 10 otherwise,
    and convert the longest run of digits; no digit at all gives NaN.
  */
  function ParseInt(s: string): (r: Num)
    ensures s != [] && IsDigits(s) ==> r == Int(DecimalValue(s))
    ensures (forall i :: 0 <= i < |s| ==> !IsDigit(s[i])) ==> r.NaN?
  {
    var t := TrimStart(s);
    var negative := t != [] && t[0] == '-';
    var u := if t != [] && (t[0] == '-' || t[0] == '+') then t[1..] else t;
    var magnitude :=
      if |u| >= 2 && u[0] == '0' && (u[1] == 'x' || u[1] == 'X') then
        var h := LeadingHexDigits(u[2..]);
        if h == [] then NaN else Int(HexValue(h))
      else
        var d := LeadingDigits(u);
        if d == [] then NaN else Int(DecimalValue(d));
    assert s != [] && IsDigits(s) ==> t == s && u == s && LeadingDigits(u) == s by {
      if s != [] && IsDigits(s) {
        DigitsAreLeading(s);
      }
    }
    if magnitude.NaN? then NaN
    else if negative then Int(-magnitude.n) else magnitude
  }

  lemma {:induction false} DigitsAreLeading(s: string)
    requires IsDigits(s)
    ensures LeadingDigits(s) == s
  {
    if s != [] {
      DigitsAreLeading(s[1..]);
    }
  }
}
