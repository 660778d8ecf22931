/** The `crypto_rates` entity: its stored value, its validation constraints and the
    mutable entity object with its getters and setters. */
module CryptoRateEntity {
  import opened Strings
  import opened Calendar
  import opened Digits

  const MaxPairLength: int := 10

  /** What a stored row carries: pair name, close price as an exact decimal string, and the
      observed instant in Unix seconds. */
  datatype RateRow = RateRow(pair: string, rate: string, timestamp: int)

  /** Symfony's `NotBlank` (no normaliser) on a string: only the empty string is blank. */
  predicate NotBlank(s: string) {
    s != ""
  }

  /** `NotBlank` and `Length(max: 10)` on `pair`: one to ten characters. */
  predicate ValidPair(pair: string): (r: bool)
    ensures r <==> 1 <= |pair| <= MaxPairLength
  {
    NotBlank(pair) && |pair| <= MaxPairLength
  }

  // ---- PHP 8 numeric strings ------------------------------------------------------

  /** The number a PHP 8 numeric string denotes: its sign, the digits of its mantissa read as
      one integer, and the power of ten they are scaled by; "-12.5e3" is `Numeral(true, 125, 2)`. */
  datatype Numeral = Numeral(negative: bool, mantissa: nat, scale: int)

  /** An optional leading sign: whether it is '-', and the text after it. */
  function SplitSign(s: string): (r: (bool, string))
    ensures r.0 ==> s != [] && s[0] == '-'
    ensures r.1 == s || (s != [] && r.1 == s[1..] && (s[0] == '+' || s[0] == '-'))
  {
    if s != [] && (s[0] == '+' || s[0] == '-') then (s[0] == '-', s[1..]) else (false, s)
  }

  /** The exponent after 'e' or 'E': an optional sign and at least one digit, and nothing else. */
  function ExponentValue(s: string): Option<int> {
    var (negative, digits) := SplitSign(s);
    if digits != [] && AllDigits(digits) then
      var v: int := ParseDigits(digits);
      Some(if negative then -v else v)
    else None
  }

  /** An unsigned number without surrounding whitespace: digits with at most one decimal point
      and at least one digit, then optionally an exponent. */
  function ParseUnsigned(negative: bool, body: string): Option<Numeral> {
    var whole := LeadingDigits(body);
    var rest := body[|whole|..];
    var point := rest != [] && rest[0] == '.';
    var fraction := if point then LeadingDigits(rest[1..]) else [];
    var tail := if point then rest[1 + |fraction|..] else rest;
    if whole == [] && fraction == [] then None
    else match ExponentPart(tail)
      case Some(e) => Some(Numeral(negative, DecimalMantissa(whole, fraction), e - |fraction|))
      case None => None
  }

  /** The digits before and after the point read as one integer. */
  function DecimalMantissa(whole: string, fraction: string): nat
    requires AllDigits(whole) && AllDigits(fraction)
  {
    ParseDigits(whole) * Pow10(|fraction|) + ParseDigits(fraction)
  }

  /** What may follow the digits: nothing (a power of 0), or 'e' or 'E' and an exponent. */
  function ExponentPart(tail: string): Option<int> {
    if tail == [] then Some(0)
    else if tail[0] == 'e' || tail[0] == 'E' then ExponentValue(tail[1..])
    else None
  }

  /** PHP 8's reading of a string as a number (`is_numeric`): optional whitespace, an optional
      sign, an unsigned number, optional whitespace, and nothing else; `None` for every other
      string, including leading-numeric ones such as "5 apples". */
  function NumericValue(s: string): Option<Numeral> {
    var (negative, body) := SplitSign(SkipSpaceEnd(SkipSpace(s)));
    ParseUnsigned(negative, body)
  }

  function Pow2(n: nat): (r: nat)
    ensures r >= 1
  {
    if n == 0 then 1 else 2 * Pow2(n - 1)
  }

  /** A positive decimal at or below 2^-1075 becomes 0.0 when PHP converts it to a double:
      2^-1075 is half the smallest subnormal and rounds to even, that is to zero. */
  const UnderflowExponent: nat := 1075

  /** PHP 8 `$x > 0` for the number a numeric string denotes: an integer compares exactly, and
      a fraction compares as the double it rounds to. */
  predicate NumeralPositive(n: Numeral) {
    !n.negative && n.mantissa > 0
    && (n.scale >= 0 || n.mantissa * Pow2(UnderflowExponent) > Pow10(-n.scale))
  }

  /** PHP 8 `$s > "0"` when `$s` is not numeric: byte-wise string comparison. */
  predicate GreaterThanZeroText(s: string) {
    |s| > 0 && (s[0] > '0' || (s[0] == '0' && |s| > 1))
  }

  /** Symfony's `Positive` on a string, i.e. PHP 8 `$rate > 0`: a numeric comparison when the
      string is numeric, and otherwise a comparison of the string with "0". The empty string
      is not positive, and neither is a number written with a minus sign. */
  predicate IsPositive(rate: string): (r: bool)
    ensures r ==> rate != []
    ensures r && NumericValue(rate).Some? ==> !NumericValue(rate).value.negative
  {
    match NumericValue(rate)
    case Some(n) => NumeralPositive(n)
    case None => GreaterThanZeroText(rate)
  }

  /** `NotBlank` and `Positive` on `rate`; a positive rate is never blank, so `Positive`
      alone decides. */
  predicate ValidRate(rate: string): (r: bool)
    ensures r <==> IsPositive(rate)
  {
    NotBlank(rate) && IsPositive(rate)
  }

  predicate HasNonzeroDigit(s: string) {
    exists i :: 0 <= i < |s| && '1' <= s[i] <= '9'
  }

  predicate AllNumericSpace(s: string) {
    forall i :: 0 <= i < |s| ==> IsNumericSpace(s[i])
  }

  // ---- what the numeric reading gives ---------------------------------------------------

  /** Digits, or digits, a point and digits, read as the decimal they spell. */
  lemma {:induction false} ParseDecimalText(negative: bool, whole: string, fraction: string)
    requires whole != [] && AllDigits(whole) && AllDigits(fraction)
    ensures ParseUnsigned(negative, whole) == Some(Numeral(negative, ParseDigits(whole), 0))
    ensures ParseUnsigned(negative, whole + "." + fraction)
         == Some(Numeral(negative, DecimalMantissa(whole, fraction), -|fraction|))
  {
    IntegerReading(negative, whole);
    PointDecimalReading(negative, whole, fraction);
  }

  lemma {:induction false} IntegerReading(negative: bool, whole: string)
    requires whole != [] && AllDigits(whole)
    ensures ParseUnsigned(negative, whole) == Some(Numeral(negative, ParseDigits(whole), 0))
  {
    LeadingDigitsOfDigits(whole);
    assert whole[|whole|..] == [];
    NoPointReading(negative, whole);
  }

  lemma {:induction false} PointDecimalReading(negative: bool, whole: string, fraction: string)
    requires whole != [] && AllDigits(whole) && AllDigits(fraction)
    ensures ParseUnsigned(negative, whole + "." + fraction)
         == Some(Numeral(negative, DecimalMantissa(whole, fraction), -|fraction|))
  {
    var body := whole + "." + fraction;
    LeadingDigitsThenPoint(whole, fraction);
    assert body[|whole|] == '.' && body[|whole| + 1..] == fraction;
    LeadingDigitsOfDigits(fraction);
    PointReading(negative, body, whole, fraction);
  }

  /** The reading of a body made of leading digits, a point and digits. */
  lemma {:induction false} PointReading(negative: bool, body: string, whole: string, fraction: string)
    requires whole != [] && LeadingDigits(body) == whole && LeadingDigits(fraction) == fraction
    requires |whole| < |body| && body[|whole|] == '.' && body[|whole| + 1..] == fraction
    ensures ParseUnsigned(negative, body) == Some(Numeral(negative, DecimalMantissa(whole, fraction), -|fraction|))
  {
    var rest := body[|whole|..];
    assert rest[1..] == fraction;
  }

  lemma {:induction false} LeadingDigitsThen(whole: string, rest: string)
    requires AllDigits(whole) && (rest == [] || !IsDigit(rest[0]))
    ensures LeadingDigits(whole + rest) == whole
    decreases |whole|
  {
    var body := whole + rest;
    if whole == [] {
      assert body == rest;
    } else {
      assert body[0] == whole[0] && body[1..] == whole[1..] + rest;
      LeadingDigitsThen(whole[1..], rest);
      assert LeadingDigits(body) == [whole[0]] + whole[1..];
      assert whole == [whole[0]] + whole[1..];
    }
  }

  lemma {:induction false} LeadingDigitsThenPoint(whole: string, fraction: string)
    requires AllDigits(whole)
    ensures LeadingDigits(whole + "." + fraction) == whole
  {
    AppendAssoc(whole, ".", fraction);
    LeadingDigitsThen(whole, "." + fraction);
  }

  /** Digits without a decimal point: what follows them decides. */
  lemma {:induction false} ParseInteger(negative: bool, whole: string, rest: string)
    requires whole != [] && AllDigits(whole)
    requires rest == [] || (!IsDigit(rest[0]) && rest[0] != '.')
    ensures ParseUnsigned(negative, whole + rest)
         == match ExponentPart(rest)
            case Some(e) => Some(Numeral(negative, ParseDigits(whole), e))
            case None => None
  {
    var body := whole + rest;
    LeadingDigitsThen(whole, rest);
    assert body[|whole|..] == rest;
    NoPointReading(negative, body);
  }

  /** The reading of a body whose leading digits are not followed by a point. */
  lemma {:induction false} NoPointReading(negative: bool, body: string)
    requires var whole := LeadingDigits(body); whole != [] && (body[|whole|..] == [] || body[|whole|] != '.')
    ensures ParseUnsigned(negative, body)
         == match ExponentPart(body[|LeadingDigits(body)|..])
            case Some(e) => Some(Numeral(negative, ParseDigits(LeadingDigits(body)), e))
            case None => None
  {
    var whole := LeadingDigits(body);
    assert DecimalMantissa(whole, []) == ParseDigits(whole);
  }

  /** Digits followed by an exponent: the exponent scales the integer. */
  lemma {:induction false} ParseWithExponent(negative: bool, whole: string, exponent: string)
    requires whole != [] && AllDigits(whole) && ExponentValue(exponent).Some?
    ensures ParseUnsigned(negative, whole + "e" + exponent)
         == Some(Numeral(negative, ParseDigits(whole), ExponentValue(exponent).value))
  {
    AppendAssoc(whole, "e", exponent);
    var rest := "e" + exponent;
    assert rest[1..] == exponent;
    assert ExponentPart(rest) == ExponentValue(exponent);
    ParseInteger(negative, whole, rest);
  }

  /** Digits, 'e' and an exponent, with nothing around them, are a numeric string:
      "1e400" is 1 scaled by 10^400. */
  lemma {:induction false} ExponentNumeral(whole: string, exponent: string)
    requires whole != [] && AllDigits(whole) && ExponentValue(exponent).Some?
    ensures NumericValue(whole + "e" + exponent)
         == Some(Numeral(false, ParseDigits(whole), ExponentValue(exponent).value))
  {
    var s := whole + "e" + exponent;
    var digits := SplitSign(exponent).1;
    assert IsDigit(digits[|digits| - 1]);
    assert exponent[|exponent| - 1] == digits[|digits| - 1];
    assert s[|s| - 1] == exponent[|exponent| - 1];
    assert s[0] == whole[0];
    ParseWithExponent(false, whole, exponent);
    UnsignedReading(s);
  }

  /** Digits followed by anything but a digit, a point, an exponent or the end: not numeric,
      although PHP's `(int)` would read the digits ("5 apples"). */
  lemma {:induction false} ParseTrailingText(negative: bool, whole: string, rest: string)
    requires whole != [] && AllDigits(whole)
    requires rest != [] && !IsDigit(rest[0]) && rest[0] != '.' && rest[0] != 'e' && rest[0] != 'E'
    ensures ParseUnsigned(negative, whole + rest) == None
  {
    ParseInteger(negative, whole, rest);
  }

  /** A string without whitespace at either end and without a sign is read as an unsigned
      number. */
  lemma {:induction false} UnsignedReading(s: string)
    requires s != [] && !IsNumericSpace(s[0]) && !IsNumericSpace(s[|s| - 1])
    requires s[0] != '+' && s[0] != '-'
    ensures NumericValue(s) == ParseUnsigned(false, s)
  {
    SkipSpaceStops(s);
  }

  /** The same after a minus sign: the number is negative. */
  lemma {:induction false} NegativeReading(s: string)
    requires s != [] && !IsNumericSpace(s[|s| - 1])
    ensures NumericValue("-" + s) == ParseUnsigned(true, s)
  {
    var t := "-" + s;
    SkipSpaceStops(t);
    assert t[|t| - 1] == s[|s| - 1];
    assert SkipSpaceEnd(t) == t;
    assert t[1..] == s;
  }

  lemma {:induction false} DecimalEnd(whole: string, fraction: string)
    requires whole != [] && AllDigits(whole) && AllDigits(fraction)
    ensures var t := whole + "." + fraction; t[0] == whole[0] && !IsNumericSpace(t[|t| - 1])
  {
    var t := whole + "." + fraction;
    if fraction != [] {
      assert t[|t| - 1] == fraction[|fraction| - 1];
    }
  }

  /** A plain decimal such as "98606.12345678" or "42" is read as its exact value: a
      positive number, scaled by its count of fraction digits. */
  lemma {:induction false} DecimalNumeral(whole: string, fraction: string)
    requires whole != [] && AllDigits(whole) && AllDigits(fraction)
    ensures NumericValue(whole) == Some(Numeral(false, ParseDigits(whole), 0))
    ensures NumericValue(whole + "." + fraction) == Some(Numeral(false, DecimalMantissa(whole, fraction), -|fraction|))
  {
    IntegerNumeral(whole);
    DecimalEnd(whole, fraction);
    UnsignedReading(whole + "." + fraction);
    ParseDecimalText(false, whole, fraction);
  }

  lemma {:induction false} IntegerNumeral(whole: string)
    requires whole != [] && AllDigits(whole)
    ensures NumericValue(whole) == Some(Numeral(false, ParseDigits(whole), 0))
  {
    assert IsDigit(whole[0]) && IsDigit(whole[|whole| - 1]);
    UnsignedReading(whole);
    ParseDecimalText(false, whole, "");
  }

  /** The same decimal after a minus sign is read as its negation. */
  lemma {:induction false} NegativeDecimalNumeral(whole: string, fraction: string)
    requires whole != [] && AllDigits(whole) && AllDigits(fraction)
    ensures NumericValue("-" + whole) == Some(Numeral(true, ParseDigits(whole), 0))
    ensures NumericValue("-" + whole + "." + fraction) == Some(Numeral(true, DecimalMantissa(whole, fraction), -|fraction|))
  {
    assert IsDigit(whole[|whole| - 1]);
    NegativeReading(whole);
    DecimalEnd(whole, fraction);
    NegativeReading(whole + "." + fraction);
    AppendAssoc("-", whole, ".");
    AppendAssoc("-", whole + ".", fraction);
    ParseDecimalText(true, whole, fraction);
  }
  // ---- which rates are positive ----------------------------------------------------------

  lemma {:induction false} ParseDigitsPositive(s: string)
    requires AllDigits(s)
    ensures ParseDigits(s) > 0 <==> HasNonzeroDigit(s)
    decreases |s|
  {
    if s != [] {
      var init := s[..|s| - 1];
      ParseDigitsPositive(init);
      if HasNonzeroDigit(init) {
        var i :| 0 <= i < |init| && '1' <= init[i] <= '9';
        assert s[i] == init[i];
      }
      if HasNonzeroDigit(s) && !('1' <= s[|s| - 1] <= '9') {
        var i :| 0 <= i < |s| && '1' <= s[i] <= '9';
        assert init[i] == s[i];
      }
    }
  }

  lemma {:induction false} Pow2Monotone(a: nat, b: nat)
    requires a <= b
    ensures Pow2(a) <= Pow2(b)
    decreases b
  {
    if a < b {
      Pow2Monotone(a, b - 1);
    }
  }

  lemma {:induction false} Pow2Add(a: nat, b: nat)
    ensures Pow2(a + b) == Pow2(a) * Pow2(b)
    decreases a
  {
    if a > 0 {
      Pow2Add(a - 1, b);
      assert Pow2(a + b) == 2 * Pow2(a - 1 + b);
    }
  }

  /** 10^k <= 16^k. */
  lemma {:induction false} Pow10AtMostPow2(k: nat)
    ensures Pow10(k) <= Pow2(4 * k)
  {
    if k > 0 {
      Pow10AtMostPow2(k - 1);
      Pow2Add(4, 4 * (k - 1));
      assert Pow2(4) == 16;
    }
  }

  /** 8^k <= 10^k. */
  lemma {:induction false} Pow2AtMostPow10(k: nat)
    ensures Pow2(3 * k) <= Pow10(k)
  {
    if k > 0 {
      Pow2AtMostPow10(k - 1);
      Pow2Add(3, 3 * (k - 1));
      assert Pow2(3) == 8;
    }
  }

  /** A nonzero mantissa with at most 268 fraction digits stays above the double's rounding
      threshold: 10^268 <= 2^1072. */
  lemma {:induction false} NoUnderflow(m: nat, k: nat)
    requires m >= 1 && k <= 268
    ensures m * Pow2(UnderflowExponent) > Pow10(k)
  {
    var t := Pow2(UnderflowExponent);
    Pow10AtMostPow2(k);
    Pow2Monotone(4 * k, UnderflowExponent - 1);
    assert t == 2 * Pow2(UnderflowExponent - 1);
    assert Pow10(k) < t;
    MulAtLeastOne(m, t);
  }

  lemma {:induction false} MulAtLeastOne(m: nat, t: nat)
    requires m >= 1
    ensures m * t >= t
  {
    assert m * t == (m - 1) * t + t;
  }

  /** For numeric text, `NotBlank` and `Positive` together come down to the number. */
  lemma {:induction false} ValidRateOfNumeral(s: string, n: Numeral)
    requires NumericValue(s) == Some(n)
    ensures ValidRate(s) <==> NumeralPositive(n)
  {
  }

  /** A decimal with at most 268 fraction digits is positive exactly when it is not zero. */
  lemma {:induction false} ShortDecimalPositive(m: nat, k: nat)
    requires k <= 268
    ensures NumeralPositive(Numeral(false, m, -(k as int))) <==> m > 0
  {
    if m > 0 && k > 0 {
      NoUnderflow(m, k);
    }
  }

  /** A plain decimal text (the form the application stores, with 8 fraction digits) is a valid
      rate exactly when one of its digits is nonzero. */
  lemma {:induction false} DecimalRatePositive(whole: string, fraction: string)
    requires whole != [] && AllDigits(whole) && AllDigits(fraction) && |fraction| <= 268
    ensures ValidRate(whole) <==> HasNonzeroDigit(whole)
    ensures ValidRate(whole + "." + fraction) <==> HasNonzeroDigit(whole) || HasNonzeroDigit(fraction)
  {
    DecimalNumeral(whole, fraction);
    var m, m' := ParseDigits(whole), DecimalMantissa(whole, fraction);
    ValidRateOfNumeral(whole, Numeral(false, m, 0));
    ValidRateOfNumeral(whole + "." + fraction, Numeral(false, m', -|fraction|));
    ShortDecimalPositive(m, 0);
    ShortDecimalPositive(m', |fraction|);
    ParseDigitsPositive(whole);
    ParseDigitsPositive(fraction);
    MantissaPositive(ParseDigits(whole), Pow10(|fraction|), ParseDigits(fraction));
  }

  lemma {:induction false} MantissaPositive(w: nat, p: nat, f: nat)
    requires p >= 1
    ensures w * p + f > 0 <==> w > 0 || f > 0
  {
    if w > 0 {
      assert w * p >= p by {
        assert w * p == (w - 1) * p + p;
      }
    }
  }

  /** A rate written with a minus sign before a decimal is never valid. */
  lemma {:induction false} NegativeRateInvalid(whole: string, fraction: string)
    requires whole != [] && AllDigits(whole) && AllDigits(fraction)
    ensures !ValidRate("-" + whole) && !ValidRate("-" + whole + "." + fraction)
  {
    NegativeDecimalNumeral(whole, fraction);
    ValidRateOfNumeral("-" + whole, Numeral(true, ParseDigits(whole), 0));
    ValidRateOfNumeral("-" + whole + "." + fraction, Numeral(true, DecimalMantissa(whole, fraction), -|fraction|));
  }

  /** A mantissa of 1 scaled by 10^-359 or less is below 2^-1075 and rounds to 0.0. */
  lemma {:induction false} TinyNotPositive(n: Numeral)
    requires n.mantissa == 1 && n.scale <= -359
    ensures !NumeralPositive(n)
  {
    var k: nat := -n.scale;
    Pow2AtMostPow10(k);
    Pow2Monotone(UnderflowExponent, 3 * k);
    assert n.mantissa * Pow2(UnderflowExponent) == Pow2(UnderflowExponent);
  }

  /** Such a rate is not valid, although it is positive as a decimal: PHP compares the double
      it rounds to. */
  lemma {:induction false} UnderflowInvalid(s: string)
    requires NumericValue(s).Some? && NumericValue(s).value.mantissa == 1 && NumericValue(s).value.scale <= -359
    ensures !ValidRate(s)
  {
    var n := NumericValue(s).value;
    ValidRateOfNumeral(s, n);
    TinyNotPositive(n);
  }

  lemma {:induction false} SkipSpaceOfSpace(pre: string, s: string)
    requires AllNumericSpace(pre)
    ensures SkipSpace(pre + s) == SkipSpace(s)
    decreases |pre|
  {
    if pre != [] {
      assert (pre + s)[1..] == pre[1..] + s;
      SkipSpaceOfSpace(pre[1..], s);
    } else {
      assert pre + s == s;
    }
  }

  lemma {:induction false} SkipSpaceEndOfSpace(s: string, post: string)
    requires AllNumericSpace(post)
    ensures SkipSpaceEnd(s + post) == SkipSpaceEnd(s)
    decreases |post|
  {
    if post != [] {
      var t := s + post;
      assert t[..|t| - 1] == s + post[..|post| - 1];
      SkipSpaceEndOfSpace(s, post[..|post| - 1]);
    } else {
      assert s + post == s;
    }
  }

  /** Whitespace after the text is dropped whether or not the text starts with whitespace. */
  lemma {:induction false} TrimOfSpaceAfter(s: string, post: string)
    requires AllNumericSpace(post)
    ensures SkipSpaceEnd(SkipSpace(s + post)) == SkipSpaceEnd(SkipSpace(s))
    decreases |s|
  {
    if s == [] {
      assert s + post == post;
    } else if IsNumericSpace(s[0]) {
      assert (s + post)[1..] == s[1..] + post;
      TrimOfSpaceAfter(s[1..], post);
    } else {
      SkipSpaceStops(s);
      SkipSpaceStops(s + post);
      SkipSpaceEndOfSpace(s, post);
    }
  }

  /** PHP 8 reads a number the same with or without whitespace around it (" 5", "0.0 "), so
      for numeric text the `Positive` outcome does not depend on that whitespace. */
  lemma {:induction false} NumericIgnoresSpace(pre: string, s: string, post: string)
    requires AllNumericSpace(pre) && AllNumericSpace(post)
    ensures NumericValue(pre + s + post) == NumericValue(s)
    ensures NumericValue(s).Some? ==> IsPositive(pre + s + post) == IsPositive(s)
  {
    AppendAssoc(pre, s, post);
    SkipSpaceOfSpace(pre, s + post);
    TrimOfSpaceAfter(s, post);
  }

  /** For text that is not numeric, `Positive` is the string comparison with "0". */
  lemma {:induction false} ValidRateOfText(s: string)
    requires NumericValue(s) == None
    ensures ValidRate(s) <==> GreaterThanZeroText(s)
  {
  }

  /** Whitespace around a number is ignored: " 5" is positive. */
  lemma {:induction false} SpacedNumberExample()
    ensures ValidRate(" 5")
  {
    var space, five := " ", "5";
    assert space + five + "" == " 5";
    assert five[..0] == "";
    assert ParseDigits(five) == 5;
    IntegerNumeral(five);
    NumericIgnoresSpace(space, five, "");
    ValidRateOfNumeral(" 5", Numeral(false, 5, 0));
  }

  /** A zero mantissa is zero whatever its exponent or trailing blank. */
  lemma {:induction false} ZeroRateExamples()
    ensures !ValidRate("0e5") && !ValidRate("0.0 ")
  {
    assert "0" + "e" + "5" == "0e5";
    ZeroPointZero();
    ValidRateOfNumeral("0.0 ", Numeral(false, 0, -1));
    ZeroExponent();
    ValidRateOfNumeral("0e5", Numeral(false, 0, 5));
  }

  /** An exponent that underflows the double gives zero, one that overflows it gives infinity,
      which is positive. */
  lemma {:induction false} ExponentRateExamples()
    ensures !ValidRate("1e-400") && ValidRate("1e400")
  {
    assert "1" + "e" + "-400" == "1e-400" && "1" + "e" + "400" == "1e400";
    NegativeExponent();
    UnderflowInvalid("1e-400");
    PositiveExponent();
    ValidRateOfNumeral("1e400", Numeral(false, 1, 400));
  }

  /** Text that is not numeric is compared with "0" as a string, so "abc" and "5 apples" pass
      `Positive` and " abc" does not. */
  lemma {:induction false} TextRateExamples()
    ensures ValidRate("abc") && ValidRate("5 apples") && !ValidRate(" abc")
  {
    NotNumeric();
    ValidRateOfText("abc");
    ValidRateOfText("5 apples");
    ValidRateOfText(" abc");
  }

  lemma {:induction false} ZeroPointZero()
    ensures NumericValue("0.0 ") == Some(Numeral(false, 0, -1))
  {
    var s := "0.0 ";
    var t := "0.0";
    SkipSpaceStops(s);
    assert SkipSpaceEnd(s) == t by {
      assert s[..3] == t;
    }
    assert LeadingDigits(t) == "0" by {
      assert t[1..] == ".0";
    }
    assert t[1..] == ".0" && ".0"[1..] == "0" && "0"[1..] == "";
    assert LeadingDigits("0") == "0";
    assert "0" + "0" == "00" && "00"[..1] == "0" && "0"[..0] == "";
    assert ParseDigits("00") == 0;
  }

  lemma {:induction false} ZeroExponent()
    ensures NumericValue("0" + "e" + "5") == Some(Numeral(false, 0, 5))
  {
    var z, five := "0", "5";
    assert five[..0] == "" && z[..0] == "";
    assert ExponentValue(five) == Some(5);
    ExponentNumeral(z, five);
  }

  lemma {:induction false} NegativeExponent()
    ensures NumericValue("1" + "e" + "-400") == Some(Numeral(false, 1, -400))
  {
    var one, exponent := "1", "-400";
    assert one[..0] == "";
    assert exponent[1..] == "400" && "400"[..2] == "40" && "40"[..1] == "4" && "4"[..0] == "";
    assert ParseDigits("400") == 400;
    ExponentNumeral(one, exponent);
  }

  lemma {:induction false} PositiveExponent()
    ensures NumericValue("1" + "e" + "400") == Some(Numeral(false, 1, 400))
  {
    var one, exponent := "1", "400";
    assert one[..0] == "";
    assert exponent[..2] == "40" && "40"[..1] == "4" && "4"[..0] == "";
    assert ParseDigits(exponent) == 400;
    ExponentNumeral(one, exponent);
  }

  lemma {:induction false} NotNumeric()
    ensures NumericValue("abc") == None && NumericValue("5 apples") == None && NumericValue(" abc") == None
  {
    LettersNotNumeric();
    TrailingTextNotNumeric();
    var b := " abc";
    assert SkipSpace(b) == "abc" by {
      assert b[1..] == "abc";
      SkipSpaceStops("abc");
    }
  }

  lemma {:induction false} LettersNotNumeric()
    ensures NumericValue("abc") == None
  {
    UnsignedReading("abc");
  }

  lemma {:induction false} TrailingTextNotNumeric()
    ensures NumericValue("5 apples") == None
  {
    var five, rest := "5", " apples";
    var s := five + rest;
    assert s == "5 apples";
    ParseTrailingText(false, five, rest);
    assert s[|s| - 1] == 's';
    UnsignedReading(s);
  }

  /** The constraint cases exercised for the entity: '' and an eleven-plus character pair are
      rejected, and so are '' and a negative rate; a positive eight-digit decimal is accepted. */
  lemma {:induction false} ConstraintExamples()
    ensures !ValidPair("") && !ValidPair("VERYLONGPAIRNAME") && ValidPair("EUR/BTC")
    ensures !ValidRate("") && !ValidRate("-100.00000000")
    ensures ValidRate("98606.12345678")
  {
    NegativeRateExample();
    PositiveRateExample();
  }

  lemma {:induction false} NegativeRateExample()
    ensures !ValidRate("-100.00000000")
  {
    var hundred, zeros := "100", "00000000";
    assert "-" + hundred + "." + zeros == "-100.00000000";
    NegativeRateInvalid(hundred, zeros);
  }

  lemma {:induction false} PositiveRateExample()
    ensures ValidRate("98606.12345678")
  {
    var whole, fraction := "98606", "12345678";
    assert whole + "." + fraction == "98606.12345678";
    assert whole[0] == '9';
    DecimalRatePositive(whole, fraction);
  }

  /** The mutable entity. `createdAt` is set by the constructor from the clock reading `now`. */
  class CryptoRate {
    var id: Option<int>
    var pair: string
    var rate: string
    var timestamp: int
    var createdAt: int

    constructor (now: int)
      ensures id == None && createdAt == now
      ensures pair == "" && rate == "" && timestamp == 0
    {
      id := None;
      pair, rate, timestamp := "", "", 0;
      createdAt := now;
    }

    function GetPair(): string reads this { pair }
    function GetRate(): string reads this { rate }
    function GetTimestamp(): int reads this { timestamp }
    function GetCreatedAt(): int reads this { createdAt }

    /** The value the persistence layer writes. */
    function Row(): RateRow reads this {
      RateRow(pair, rate, timestamp)
    }

    /** Symfony validation of the entity: the pair and rate constraints hold. */
    predicate IsValid() reads this {
      ValidPair(pair) && ValidRate(rate)
    }

    method SetPair(p: string) returns (self: CryptoRate)
      modifies this
      ensures pair == p && self == this
      ensures rate == old(rate) && timestamp == old(timestamp) && createdAt == old(createdAt) && id == old(id)
    {
      pair := p;
      self := this;
    }

    method SetRate(r: string) returns (self: CryptoRate)
      modifies this
      ensures rate == r && self == this
      ensures pair == old(pair) && timestamp == old(timestamp) && createdAt == old(createdAt) && id == old(id)
    {
      rate := r;
      self := this;
    }

    method SetTimestamp(t: int) returns (self: CryptoRate)
      modifies this
      ensures timestamp == t && self == this
      ensures pair == old(pair) && rate == old(rate) && createdAt == old(createdAt) && id == old(id)
    {
      timestamp := t;
      self := this;
    }

    method SetCreatedAt(t: int) returns (self: CryptoRate)
      modifies this
      ensures createdAt == t && self == this
      ensures pair == old(pair) && rate == old(rate) && timestamp == old(timestamp) && id == old(id)
    {
      createdAt := t;
      self := this;
    }
  }

  /** A fresh entity, filled through its setters, reports through its getters exactly the values
      it was given (the rate string unchanged), and its creation time is the clock reading taken
      at construction, which no setter call changes. */
  method BuildEntity(now: int, p: string, r: string, t: int)
    returns (gotPair: string, gotRate: string, gotTimestamp: int, gotCreatedAt: int)
    ensures gotPair == p && gotRate == r && gotTimestamp == t
    ensures gotCreatedAt == now
  {
    var e := new CryptoRate(now);
    var _ := e.SetPair(p);
    var _ := e.SetRate(r);
    var _ := e.SetTimestamp(t);
    gotPair, gotRate, gotTimestamp, gotCreatedAt := e.GetPair(), e.GetRate(), e.GetTimestamp(), e.GetCreatedAt();
  }
}
