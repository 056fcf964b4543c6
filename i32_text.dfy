/**
 * The two conversions between `i32` and decimal text that the input list relies on:
 * `i32::from_str` (radix 10) and the `Display` rendering of an `i32`. Both belong to
 * Rust's standard library; they are written here as specification functions.
 */
module I32Text {
  import opened Results

  const I32_MIN: int := -0x8000_0000
  const I32_MAX: int := 0x7fff_ffff

  predicate InI32(x: int) { I32_MIN <= x <= I32_MAX }

  /** Rust's `i32`. */
  type Int32 = x: int | I32_MIN <= x <= I32_MAX

  /** `std::num::IntErrorKind` as the 2019 releases named it: why a conversion failed. */
  datatype IntErrorKind = Empty | InvalidDigit | Overflow | Underflow

  /** `std::num::ParseIntError`. */
  datatype ParseIntError = ParseIntError(kind: IntErrorKind)

  predicate IsDigit(c: char) { '0' <= c <= '9' }

  predicate AllDigits(s: string) { forall i :: 0 <= i < |s| ==> IsDigit(s[i]) }

  function DigitValue(c: char): (d: nat)
    requires IsDigit(c)
    ensures d < 10
  {
    (c as int) - ('0' as int)
  }

  function DigitChar(d: nat): (c: char)
    requires d < 10
    ensures IsDigit(c) && DigitValue(c) == d
  {
    ('0' as int + d) as char
  }

  function Pow10(n: nat): (p: nat)
    ensures p >= 1
  {
    if n == 0 then 1 else 10 * Pow10(n - 1)
  }

  /** The positional value of a digit string: the sum of each digit times ten to its place. */
  function DecimalValue(digits: string): nat
    requires AllDigits(digits)
  {
    if digits == [] then 0
    else DigitValue(digits[0]) * Pow10(|digits| - 1) + DecimalValue(digits[1..])
  }

  /** The digits that follow an optional leading `+` or `-`. */
  function Unsigned(s: string): string
    requires s != []
  {
    if s[0] == '+' || s[0] == '-' then s[1..] else s
  }

  /** The grammar `i32::from_str` accepts: an optional sign, then one or more ASCII digits. */
  predicate WellFormed(s: string) {
    s != [] && Unsigned(s) != [] && AllDigits(Unsigned(s))
  }

  /** The mathematical value a well-formed decimal literal denotes. */
  function SignedValue(s: string): int
    requires WellFormed(s)
  {
    var magnitude: int := DecimalValue(Unsigned(s));
    if s[0] == '-' then -magnitude else magnitude
  }

  /**
   * `i32::from_str`: an empty string, or a sign with nothing after it, is `Empty`;
   * otherwise the digits are folded in from the left with checked arithmetic.
   */
  function ParseI32(s: string): Result<Int32, ParseIntError>
  {
    if s == [] then Err(ParseIntError(Empty))
    else
      var positive := s[0] != '-';
      var digits := Unsigned(s);
      if digits == [] then Err(ParseIntError(Empty))
      else Accumulate(digits, 0, positive)
  }

  /**
   * The digit loop of `i32::from_str`: `acc * 10` then `+ d` (or `- d` for a negative
   * literal), failing at the first character that is not a digit and at the first step
   * that leaves the `i32` range.
   */
  function Accumulate(digits: string, acc: Int32, positive: bool): Result<Int32, ParseIntError>
    requires if positive then acc >= 0 else acc <= 0
    decreases |digits|
  {
    if digits == [] then Ok(acc)
    else if !IsDigit(digits[0]) then Err(ParseIntError(InvalidDigit))
    else
      var overflow := ParseIntError(if positive then Overflow else Underflow);
      var shifted := acc * 10;
      if !InI32(shifted) then Err(overflow)
      else
        var d := DigitValue(digits[0]);
        var next := if positive then shifted + d else shifted - d;
        if !InI32(next) then Err(overflow)
        else Accumulate(digits[1..], next, positive)
  }

  /** The value the digit loop would reach, started at `acc`, if it never had to stop. */
  function Target(digits: string, acc: int, positive: bool): int
    requires AllDigits(digits)
  {
    if positive then acc * Pow10(|digits|) + DecimalValue(digits)
    else acc * Pow10(|digits|) - DecimalValue(digits)
  }

  /** One step of the digit loop: the remaining target is unchanged by consuming a digit. */
  lemma TargetStep(digits: string, acc: int, positive: bool)
    requires digits != [] && AllDigits(digits)
    ensures AllDigits(digits[1..])
    ensures var d: int := DigitValue(digits[0]);
      Target(digits, acc, positive) == Target(digits[1..], acc * 10 + (if positive then d else -d), positive)
  {
    var p := Pow10(|digits| - 1);
    assert Pow10(|digits|) == 10 * p;
    ShiftDigit(acc, DigitValue(digits[0]), p);
  }

  /** The arithmetic step of `TargetStep`: moving one digit from the tail into the running value. */
  lemma ShiftDigit(acc: int, d: int, p: int)
    ensures acc * (10 * p) + d * p == (acc * 10 + d) * p
    ensures acc * (10 * p) - d * p == (acc * 10 - d) * p
  {
  }

  /** Consuming more digits moves the running value away from zero, never back. */
  lemma TargetBound(digits: string, acc: int, positive: bool)
    requires AllDigits(digits)
    ensures positive && acc >= 0 ==> Target(digits, acc, positive) >= acc
    ensures !positive && acc <= 0 ==> Target(digits, acc, positive) <= acc
  {
  }

  /**
   * The digit loop fails on any non-digit, and on digits it succeeds exactly when the
   * value it aims at fits in `i32`, yielding that value.
   */
  lemma {:induction false} AccumulateSpec(digits: string, acc: Int32, positive: bool)
    requires if positive then acc >= 0 else acc <= 0
    ensures !AllDigits(digits) ==> Accumulate(digits, acc, positive).Err?
    ensures AllDigits(digits) ==>
      (Accumulate(digits, acc, positive).Ok? <==> InI32(Target(digits, acc, positive)))
    ensures AllDigits(digits) && Accumulate(digits, acc, positive).Ok? ==>
      Accumulate(digits, acc, positive).value == Target(digits, acc, positive)
    decreases |digits|
  {
    if digits != [] && IsDigit(digits[0]) {
      var rest := digits[1..];
      var d := DigitValue(digits[0]);
      var shifted := acc * 10;
      var next := if positive then shifted + d else shifted - d;
      if AllDigits(digits) {
        TargetStep(digits, acc, positive);
        TargetBound(rest, next, positive);
      } else {
        assert !AllDigits(rest) by {
          var i :| 0 <= i < |digits| && !IsDigit(digits[i]);
          assert rest[i - 1] == digits[i];
        }
      }
      if InI32(shifted) && InI32(next) {
        AccumulateSpec(rest, next, positive);
      }
    }
  }

  /** `i32::from_str` succeeds exactly on the well-formed literals whose value fits, and yields that value. */
  lemma ParseI32Spec(s: string)
    ensures ParseI32(s).Ok? <==> WellFormed(s) && InI32(SignedValue(s))
    ensures ParseI32(s).Ok? ==> WellFormed(s) && ParseI32(s).value == SignedValue(s)
  {
    if s != [] && Unsigned(s) != [] {
      var digits := Unsigned(s);
      AccumulateSpec(digits, 0, s[0] != '-');
    }
  }

  /** Appending a digit multiplies the value so far by ten and adds the digit. */
  lemma {:induction false} DecimalValueSnoc(s: string, c: char)
    requires AllDigits(s) && IsDigit(c)
    ensures AllDigits(s + [c])
    ensures DecimalValue(s + [c]) == 10 * DecimalValue(s) + DigitValue(c)
    decreases |s|
  {
    AllDigitsSnoc(s, c);
    var t := s + [c];
    if s == [] {
      assert t == [c] && t[1..] == [];
    } else {
      assert t[0] == s[0] && t[1..] == s[1..] + [c];
      DecimalValueSnoc(s[1..], c);
      DecimalValueHead(s[0], Pow10(|s| - 1), DecimalValue(s[1..]), DigitValue(c));
    }
  }

  lemma AllDigitsSnoc(s: string, c: char)
    requires AllDigits(s) && IsDigit(c)
    ensures AllDigits(s + [c])
  {
    var t := s + [c];
    forall i | 0 <= i < |t| ensures IsDigit(t[i]) {
      if i < |s| { assert t[i] == s[i]; }
    }
  }

  /** The arithmetic step of `DecimalValueSnoc`: a leading digit moves up one place. */
  lemma DecimalValueHead(first: char, p: nat, rest: nat, last: nat)
    requires IsDigit(first)
    ensures DigitValue(first) * (10 * p) + (10 * rest + last)
      == 10 * (DigitValue(first) * p + rest) + last
  {
  }

  /** The decimal digits of a natural number, most significant first, without leading zeros. */
  function NatDigits(n: nat): (s: string)
    ensures s != [] && AllDigits(s) && DecimalValue(s) == n
    ensures s[0] == '0' ==> n == 0
    decreases n
  {
    if n < 10 then [DigitChar(n)]
    else
      var prefix := NatDigits(n / 10);
      var last := DigitChar(n % 10);
      DecimalValueSnoc(prefix, last);
      prefix + [last]
  }

  /** `i32`'s `Display`: a `-` for negative values, never a `+`, then the digits of the magnitude. */
  function ToDecimal(n: Int32): (s: string)
    ensures WellFormed(s) && SignedValue(s) == n
    ensures s[0] != '+' && (s[0] == '-' <==> n < 0)
  {
    if n < 0 then "-" + NatDigits(-(n as int)) else NatDigits(n)
  }

  /** Parsing the rendering of any `i32` gives back that `i32`. */
  lemma ParseToDecimal(n: Int32)
    ensures ParseI32(ToDecimal(n)) == Ok(n)
  {
    ParseI32Spec(ToDecimal(n));
  }
}
