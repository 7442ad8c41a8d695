/**
 * The pieces of Rust's integer machinery that the tracker relies on:
 * the fixed-width unsigned types, the `as` truncating casts, `str::parse`
 * for unsigned types, and the decimal and zero-padded formatting of `{}`
 * and `{:0>2}`.
 */
module Numeric {

  import opened Results

  type u8 = x: int | 0 <= x < 0x100
  type u16 = x: int | 0 <= x < 0x1_0000
  type i32 = x: int | -0x8000_0000 <= x < 0x8000_0000

  const MaxU8: nat := 0xFF
  const MaxU16: nat := 0xFFFF

  /** `v as u8`: keeps the low 8 bits of the two's complement value. */
  function AsU8(v: i32): (r: u8)
    ensures (v - r) % 0x100 == 0
    ensures 0 <= v < 0x100 ==> r == v
  {
    v % 0x100
  }

  /** `v as u16`: keeps the low 16 bits of the two's complement value. */
  function AsU16(v: i32): (r: u16)
    ensures (v - r) % 0x1_0000 == 0
    ensures 0 <= v < 0x1_0000 ==> r == v
  {
    v % 0x1_0000
  }

  predicate IsDigit(c: char) {
    '0' <= c <= '9'
  }

  predicate AllDigits(s: string) {
    forall c :: c in s ==> IsDigit(c)
  }

  function DigitValue(c: char): (d: nat)
    requires IsDigit(c)
    ensures d < 10
  {
    c as int - '0' as int
  }

  function DigitChar(d: nat): (c: char)
    requires d < 10
    ensures IsDigit(c) && DigitValue(c) == d
  {
    ('0' as int + d) as char
  }

  /** The value of `digits` read left to right, starting from `acc`. */
  function Accumulate(digits: string, acc: nat): (v: nat)
    requires AllDigits(digits)
    ensures v >= acc
    decreases |digits|
  {
    if digits == [] then acc
    else
      assert forall c :: c in digits[1..] ==> c in digits;
      Accumulate(digits[1..], acc * 10 + DigitValue(digits[0]))
  }

  lemma {:induction false} AccumulateAppend(a: string, b: string, acc: nat)
    requires AllDigits(a) && AllDigits(b)
    ensures AllDigits(a + b)
    ensures Accumulate(a + b, acc) == Accumulate(b, Accumulate(a, acc))
    decreases |a|
  {
    if a != [] {
      assert (a + b)[1..] == a[1..] + b;
      assert forall c :: c in a[1..] ==> c in a;
      AccumulateAppend(a[1..], b, acc * 10 + DigitValue(a[0]));
    } else {
      assert a + b == b;
    }
  }

  /** `{}` on an unsigned integer: its decimal digits, without padding. */
  function Decimal(n: nat): (s: string)
    ensures |s| >= 1 && AllDigits(s)
    ensures Accumulate(s, 0) == n
    ensures |s| == 1 <==> n < 10
    ensures s[0] == '0' <==> n == 0
    decreases n
  {
    if n < 10 then [DigitChar(n)]
    else
      var high := Decimal(n / 10);
      var low := [DigitChar(n % 10)];
      AccumulateAppend(high, low, 0);
      high + low
  }

  /** `{:0>2}` on an unsigned integer: its decimal digits, left-padded with '0' to width 2. */
  function ZeroPad2(n: nat): (s: string)
    ensures |s| >= 2 && AllDigits(s)
    ensures Accumulate(s, 0) == n
    ensures n < 100 ==> |s| == 2
  {
    var digits := Decimal(n);
    if |digits| < 2 then
      AccumulateAppend("0", digits, 0);
      "0" + digits
    else digits
  }

  /** The kinds of `std::num::ParseIntError` that parsing an unsigned integer can produce. */
  datatype IntErrorKind = Empty | InvalidDigit | PosOverflow

  datatype ParseIntError = ParseIntError(kind: IntErrorKind)

  /** The text `ParseIntError` displays (Rust's standard library wording). */
  function Describe(e: ParseIntError): (text: string)
    ensures |text| > 0
  {
    match e.kind
    case Empty => "cannot parse integer from empty string"
    case InvalidDigit => "invalid digit found in string"
    case PosOverflow => "number too large to fit in target type"
  }

  lemma DescribeIsInjective(e1: ParseIntError, e2: ParseIntError)
    ensures Describe(e1) == Describe(e2) ==> e1 == e2
  {
    if Describe(e1) == Describe(e2) {
      assert Describe(e1)[0] == Describe(e2)[0];
    }
  }

  /** The digits an unsigned parse reads: the text after one optional leading '+'. */
  function Magnitude(s: string): string {
    if s != [] && s[0] == '+' then s[1..] else s
  }

  /** Text that `str::parse` accepts as some unsigned number (ignoring the width). */
  predicate IsUnsignedText(s: string) {
    Magnitude(s) != [] && AllDigits(Magnitude(s))
  }

  /** The digit loop of `from_str_radix`: each character is checked to be a digit before the accumulated value is checked for overflow. */
  function ScanDigits(digits: string, acc: nat, max: nat): (r: Result<nat, ParseIntError>)
    requires acc <= max
    ensures r.Ok? <==> AllDigits(digits) && Accumulate(digits, acc) <= max
    ensures r.Ok? ==> r.value == Accumulate(digits, acc)
    ensures r.Err? ==> r.error.kind != Empty
    decreases |digits|
  {
    if digits == [] then Ok(acc)
    else if !IsDigit(digits[0]) then Err(ParseIntError(InvalidDigit))
    else
      var next := acc * 10 + DigitValue(digits[0]);
      assert AllDigits(digits) ==> AllDigits(digits[1..]) by {
        assert forall c :: c in digits[1..] ==> c in digits;
      }
      if next > max then Err(ParseIntError(PosOverflow))
      else ScanDigits(digits[1..], next, max)
  }

  /**
   * `s.parse::<uN>()` where `max` is the largest value of `uN`: fails with
   * `Empty` on "", accepts one leading '+', and otherwise fails on a
   * non-digit or a value above `max`.
   */
  function ParseUnsigned(s: string, max: nat): (r: Result<nat, ParseIntError>)
    ensures s == [] ==> r == Err(ParseIntError(Empty))
    ensures r.Ok? <==> IsUnsignedText(s) && Accumulate(Magnitude(s), 0) <= max
    ensures r.Ok? ==> r.value == Accumulate(Magnitude(s), 0) && r.value <= max
  {
    if s == [] then Err(ParseIntError(Empty))
    else if s == "+" then Err(ParseIntError(InvalidDigit))
    else ScanDigits(Magnitude(s), 0, max)
  }

  /** Parsing the decimal text of any value that fits gives that value back. */
  lemma ParseDecimal(n: nat, max: nat)
    requires n <= max
    ensures ParseUnsigned(Decimal(n), max) == Ok(n)
  {
    var s := Decimal(n);
    assert s[0] in s;
  }

  /** Parsing the zero-padded text of any value that fits gives that value back. */
  lemma ParseZeroPad2(n: nat, max: nat)
    requires n <= max
    ensures ParseUnsigned(ZeroPad2(n), max) == Ok(n)
  {
    var s := ZeroPad2(n);
    assert s[0] in s;
  }

  /** A leading '+' is accepted and ignored, so parsing accepts text the formatters never produce. */
  lemma ParseIgnoresLeadingPlus(s: string, max: nat)
    requires s != [] && s[0] != '+'
    ensures ParseUnsigned("+" + s, max) == ParseUnsigned(s, max)
  {
    assert ("+" + s)[1..] == s;
  }

}
