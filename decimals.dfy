/**
 * Amounts: the text of a number read as an exact Python `Decimal` and
 * rounded to an integer with `ROUND_HALF_UP` (ties go away from zero).
 */
module Decimals {
  import opened Wrappers
  import opened Digits
  import opened Values
  import opened Whitespace

  /** A finite decimal: (-1)^negative * coefficient * 10^exponent. */
  datatype Decimal = Decimal(negative: bool, coefficient: nat, exponent: int)

  predicate AllDigits(s: string) {
    forall i :: 0 <= i < |s| ==> IsDigit(s[i])
  }

  lemma {:induction false} DigitsValueNat(s: string)
    requires AllDigits(s)
    ensures DigitsValue(s) >= 0
    decreases |s|
  {
    if s != [] {
      DigitsValueNat(s[..|s| - 1]);
    }
  }

  /** The value of a digit string. */
  function Coefficient(s: string): nat
    requires AllDigits(s)
  {
    DigitsValueNat(s);
    DigitsValue(s)
  }

  /** The position of the first character of s satisfying `stop`, or |s|. */
  function FindFirst(s: string, stop: char -> bool): (i: nat)
    ensures i <= |s| && (i < |s| ==> stop(s[i]))
    ensures forall j :: 0 <= j < i ==> !stop(s[j])
  {
    if s == [] then 0
    else if stop(s[0]) then 0
    else 1 + FindFirst(s[1..], stop)
  }

  predicate IsExponentMark(c: char) {
    c == 'e' || c == 'E'
  }

  predicate IsPoint(c: char) {
    c == '.'
  }

  lemma {:induction false} FindFirstAt(s: string, stop: char -> bool, i: nat)
    requires i <= |s| && (i < |s| ==> stop(s[i]))
    requires forall j :: 0 <= j < i ==> !stop(s[j])
    ensures FindFirst(s, stop) == i
  {
    if s != [] && i > 0 {
      FindFirstAt(s[1..], stop, i - 1);
    }
  }

  /** An optional sign and the remaining text. */
  function SplitSign(s: string): (bool, string) {
    if s != [] && (s[0] == '+' || s[0] == '-') then (s[0] == '-', s[1..]) else (false, s)
  }

  /** The exponent part after 'e' or 'E': an optional sign and at least one digit. */
  function ReadExponent(s: string): Option<int> {
    var (negative, digits) := SplitSign(s);
    if digits != [] && AllDigits(digits) then
      Some(if negative then -DigitsValue(digits) else DigitsValue(digits))
    else None
  }

  /**
   * `Decimal(text)` for finite decimal text: an optional sign, digits with at
   * most one '.', at least one digit, and an optional exponent part. None
   * stands for every other text; `Decimal` raises on most of it, and the
   * infinities and NaNs it does accept make `int()` raise in the same place.
   */
  function ParseDecimal(text: string): (r: Option<Decimal>)
    ensures r.Some? ==> exists i :: 0 <= i < |text| && IsDigit(text[i])
  {
    var (negative, body) := SplitSign(text);
    var e := FindFirst(body, IsExponentMark);
    var mantissa := body[..e];
    var exponent := if e < |body| then ReadExponent(body[e + 1..]) else Some(0);
    var dot := FindFirst(mantissa, IsPoint);
    var whole := mantissa[..dot];
    var fraction := if dot < |mantissa| then mantissa[dot + 1..] else [];
    if exponent.Some? && AllDigits(whole) && AllDigits(fraction) && |whole| + |fraction| > 0 then
      var k := if whole != [] then 0 else dot + 1;
      assert IsDigit(mantissa[k]);
      assert text[|text| - |body| + k] == body[k];
      Some(Decimal(negative, Coefficient(whole + fraction), exponent.value - |fraction|))
    else None
  }

  /** The value of a decimal as a fraction numerator / denominator with a positive denominator. */
  function Numerator(d: Decimal): int {
    var magnitude := if d.exponent >= 0 then d.coefficient * Pow10(d.exponent) else d.coefficient;
    if d.negative then -magnitude else magnitude
  }

  function Denominator(d: Decimal): (den: int)
    ensures den >= 1
  {
    if d.exponent >= 0 then 1 else Pow10Positive(-d.exponent); Pow10(-d.exponent)
  }

  lemma {:induction false} Pow10Positive(w: nat)
    ensures Pow10(w) >= 1
  {
    if w > 0 {
      Pow10Positive(w - 1);
    }
  }

  /**
   * r is num/den rounded to the nearest integer, a tie going to the integer
   * farther from zero.
   */
  predicate IsHalfUpRounding(num: int, den: int, r: int) {
    var diff := num - r * den;
    0 < den && -den <= 2 * diff <= den
    && (2 * diff == den ==> num < 0)
    && (2 * diff == -den ==> num > 0)
  }

  /** `Decimal.to_integral_value(ROUND_HALF_UP)` read as an int. */
  function RoundHalfUp(d: Decimal): (r: int)
    ensures IsHalfUpRounding(Numerator(d), Denominator(d), r)
  {
    if d.exponent >= 0 then Numerator(d)
    else
      var q := Denominator(d);
      var m := (2 * d.coefficient + q) / (2 * q);
      HalfUpMagnitude(d.coefficient, q, m);
      if d.negative then -m else m
  }

  /** Rounding the magnitude half up: the integer part of c/q + 1/2. */
  lemma HalfUpMagnitude(c: nat, q: int, m: int)
    requires q >= 1 && m == (2 * c + q) / (2 * q)
    ensures -q <= 2 * (c - m * q) < q
    ensures 2 * (c - m * q) == -q ==> c > 0
  {
    var rem := (2 * c + q) % (2 * q);
    assert 2 * c + q == 2 * q * m + rem && 0 <= rem < 2 * q;
    assert 2 * (c - m * q) == rem - q;
  }

  /** At most one integer rounds num/den half up, so IsHalfUpRounding defines the rounding. */
  lemma HalfUpRoundingUnique(num: int, den: int, r1: int, r2: int)
    requires IsHalfUpRounding(num, den, r1) && IsHalfUpRounding(num, den, r2)
    ensures r1 == r2
  {
    var k := r2 - r1;
    assert (num - r1 * den) - (num - r2 * den) == k * den;
    MulBounds(k, den);
  }

  lemma MulBounds(k: int, den: int)
    ensures den > 0 && k >= 1 ==> k * den >= den
    ensures den > 0 && k <= -1 ==> k * den <= -den
    ensures den > 0 && k >= 2 ==> k * den >= 2 * den
    ensures den > 0 && k <= -2 ==> k * den <= -2 * den
  {
  }

  /**
   * The text branch of `parse_int`: normalise the text, read it as a
   * Decimal and round it half up; None where either step raises.
   */
  function AmountText(text: string): (r: Option<int>)
    ensures r.Some? <==> NonSpace(text) != [] && ParseDecimal(Normalized(text)).Some?
  {
    match NormalizeString(text)
    case Failure(_) => None
    case Success(normal) =>
      match ParseDecimal(normal)
      case None => None
      case Some(d) => Some(RoundHalfUp(d))
  }

  /** The amount of a text is the half-up rounding of the decimal its normal form denotes, and no other integer is. */
  lemma AmountTextRounds(text: string, n: int)
    requires AmountText(text).Some?
    ensures var d := ParseDecimal(Normalized(text)).value;
      IsHalfUpRounding(Numerator(d), Denominator(d), AmountText(text).value)
    ensures var d := ParseDecimal(Normalized(text)).value;
      IsHalfUpRounding(Numerator(d), Denominator(d), n) ==> n == AmountText(text).value
  {
    var d := ParseDecimal(Normalized(text)).value;
    assert AmountText(text).value == RoundHalfUp(d);
    if IsHalfUpRounding(Numerator(d), Denominator(d), n) {
      HalfUpRoundingUnique(Numerator(d), Denominator(d), n, AmountText(text).value);
    }
  }

  /**
   * `parse_int`: an int is returned as it is; any other value is written
   * with `str()` and read by the text branch; every failure raises
   * `ValueError(value)` with the original value.
   */
  function ParseInt(v: Value): (r: Result<int, Error>)
    ensures v.IntValue? ==> r == Success(v.i)
    ensures r.Failure? ==> r.error == ValueError(v)
    ensures !v.IntValue? ==> (r.Success? <==> AmountText(Str(v)).Some?)
    ensures !v.IntValue? && r.Success? ==> r.value == AmountText(Str(v)).value
  {
    if v.IntValue? then Success(v.i)
    else
      match AmountText(Str(v))
      case None => Failure(ValueError(v))
      case Some(n) => Success(n)
  }

  /** parse_int on anything but an int is the text branch on its `str()`. */
  lemma ParseIntOfText(v: Value, n: Option<int>)
    requires !v.IntValue? && AmountText(Str(v)) == n
    ensures ParseInt(v) == if n.Some? then Success(n.value) else Failure(ValueError(v))
  {
  }

  /** parse_int on a str is the text branch on that very str. */
  lemma ParseIntOfStr(text: string, n: Option<int>)
    requires AmountText(text) == n
    ensures ParseInt(StrValue(text)) == if n.Some? then Success(n.value) else Failure(ValueError(StrValue(text)))
  {
    assert Str(StrValue(text)) == text;
    ParseIntOfText(StrValue(text), n);
  }

  /** How "W.F" splits: no exponent mark, and the point right after W. */
  lemma PointedParts(body: string, whole: string, fraction: string)
    requires AllDigits(whole) && AllDigits(fraction)
    requires body == whole + "." + fraction
    ensures FindFirst(body, IsExponentMark) == |body| && body[..|body|] == body
    ensures FindFirst(body, IsPoint) == |whole|
    ensures body[..|whole|] == whole && body[|whole| + 1..] == fraction
  {
    FindFirstAt(body, IsExponentMark, |body|);
    FindFirstAt(body, IsPoint, |whole|);
  }

  /** A leading '-' is the sign; a leading digit means there is none. */
  lemma SignOf(text: string, negative: bool, body: string)
    requires body != [] && IsDigit(body[0])
    requires text == (if negative then "-" else []) + body
    ensures SplitSign(text) == (negative, body)
  {
    if negative {
      assert text[0] == '-' && text[1..] == body;
    } else {
      assert text == body;
    }
  }

  /** ParseDecimal of a text whose sign, point and digit runs are known and that has no exponent part. */
  lemma ParseDecimalOf(text: string, negative: bool, body: string, whole: string, fraction: string)
    requires SplitSign(text) == (negative, body)
    requires FindFirst(body, IsExponentMark) == |body|
    requires FindFirst(body, IsPoint) == |whole| < |body|
    requires body[..|whole|] == whole && body[|whole| + 1..] == fraction
    requires AllDigits(whole) && AllDigits(fraction) && |whole| + |fraction| > 0
    ensures ParseDecimal(text) == Some(Decimal(negative, Coefficient(whole + fraction), -|fraction|))
  {
    assert body[..|body|] == body;
  }

  /** Plain decimal text "W.F", signed or not, reads as the coefficient WF scaled by 10^-|F|. */
  lemma ParsePointed(text: string, negative: bool, whole: string, fraction: string, c: nat)
    requires AllDigits(whole) && AllDigits(fraction) && whole != []
    requires text == (if negative then "-" else []) + whole + "." + fraction
    requires DigitsValue(whole + fraction) == c
    ensures ParseDecimal(text) == Some(Decimal(negative, c, -|fraction|))
  {
    var body := whole + "." + fraction;
    SignOf(text, negative, body);
    PointedParts(body, whole, fraction);
    ParseDecimalOf(text, negative, body, whole, fraction);
  }

  /** A text without whitespace normalises to itself. */
  lemma PlainTextNormal(text: string)
    requires text != [] && forall i :: 0 <= i < |text| ==> !IsSpace(text[i])
    ensures NormalizeString(text) == Success(text)
  {
    assert SingleSpaced(text);
    NormalizeStringIdempotent(text);
  }

  /** One leading space is stripped. */
  lemma LeadingSpaceNormal(text: string)
    requires text != [] && forall i :: 0 <= i < |text| ==> !IsSpace(text[i])
    ensures NormalizeString(" " + text) == Success(text)
  {
    assert SingleSpaced(text);
    var s := " " + text;
    assert s[1..] == text;
    assert SkipSpaces(text) == text;
    assert SkipSpaces(s) == text;
    CollapseFixed(text);
    assert Collapse(s) == s;
    assert StripEnd(text) == text;
  }

  /** The text branch: normalise, then read and round the decimal. */
  lemma AmountOfText(text: string, normal: string, d: Decimal)
    requires NormalizeString(text) == Success(normal) && ParseDecimal(normal) == Some(d)
    ensures AmountText(text) == Some(RoundHalfUp(d))
  {
  }

  /** Signs, digits and points are not whitespace. */
  lemma PointedNoSpace(text: string, negative: bool, whole: string, fraction: string)
    requires AllDigits(whole) && AllDigits(fraction)
    requires text == (if negative then "-" else []) + whole + "." + fraction
    ensures forall i :: 0 <= i < |text| ==> !IsSpace(text[i])
  {
    forall i | 0 <= i < |text|
      ensures !IsSpace(text[i])
    {
      var k := if negative then i - 1 else i;
      if k >= 0 {
        assert text[i] == (whole + "." + fraction)[k];
        assert IsDigit(text[i]) || text[i] == '.';
      } else {
        assert text[i] == '-';
      }
    }
  }

  /** Unsigned or negative "W.F" text reads as WF * 10^-|F| rounded half up. */
  lemma PointedAmount(text: string, negative: bool, whole: string, fraction: string, c: nat)
    requires AllDigits(whole) && AllDigits(fraction) && whole != []
    requires text == (if negative then "-" else []) + whole + "." + fraction
    requires DigitsValue(whole + fraction) == c
    ensures AmountText(text) == Some(RoundHalfUp(Decimal(negative, c, -|fraction|)))
  {
    PointedNoSpace(text, negative, whole, fraction);
    PlainTextNormal(text);
    ParsePointed(text, negative, whole, fraction, c);
    AmountOfText(text, text, Decimal(negative, c, -|fraction|));
  }

  lemma DecimalCoefficient(whole: string, fraction: string, c: nat)
    requires NatText(c) == whole + fraction
    ensures DigitsValue(whole + fraction) == c
  {
    NatTextValue(c);
  }

  /** RoundHalfUp is the rounding IsHalfUpRounding describes. */
  lemma RoundsTo(d: Decimal, num: int, den: int, r: int)
    requires num == Numerator(d) && den == Denominator(d)
    requires IsHalfUpRounding(num, den, r)
    ensures RoundHalfUp(d) == r
  {
    HalfUpRoundingUnique(num, den, RoundHalfUp(d), r);
  }

  /** "23.4950" is below the tie and rounds down. */
  lemma CoefficientBelowTie()
    ensures DigitsValue("23" + "4950") == 234950
  {
    assert NatText(234950) == "23" + "4950";
    DecimalCoefficient("23", "4950", 234950);
  }

  lemma AmountBelowTie()
    ensures AmountText("23.4950") == Some(RoundHalfUp(Decimal(false, 234950, -4)))
  {
    CoefficientBelowTie();
    assert AllDigits("23") && AllDigits("4950");
    assert "23.4950" == [] + "23" + "." + "4950";
    PointedAmount("23.4950", false, "23", "4950", 234950);
  }

  lemma ParseIntBelowTie()
    ensures ParseInt(StrValue("23.4950")) == Success(23)
  {
    AmountBelowTie();
    assert Pow10(4) == 10000;
    RoundsTo(Decimal(false, 234950, -4), 234950, 10000, 23);
    ParseIntOfStr("23.4950", Some(23));
  }

  /** "23.50" is a tie and rounds up, away from zero. */
  lemma ParseIntTie()
    ensures ParseInt(StrValue("23.50")) == Success(24)
  {
    DecimalCoefficient("23", "50", 2350);
    PointedAmount("23.50", false, "23", "50", 2350);
    assert Pow10(2) == 100;
    RoundsTo(Decimal(false, 2350, -2), 2350, 100, 24);
    ParseIntOfStr("23.50", Some(24));
  }

  /** A leading space does not change the amount. */
  lemma LeadingSpaceAmount(spaced: string, text: string, d: Decimal)
    requires text != [] && forall i :: 0 <= i < |text| ==> !IsSpace(text[i])
    requires spaced == " " + text && ParseDecimal(text) == Some(d)
    ensures AmountText(spaced) == Some(RoundHalfUp(d))
  {
    LeadingSpaceNormal(text);
    AmountOfText(spaced, text, d);
  }

  lemma PointedDecimal(text: string, whole: string, fraction: string, c: nat)
    requires AllDigits(whole) && AllDigits(fraction) && whole != []
    requires text == whole + "." + fraction && NatText(c) == whole + fraction
    ensures ParseDecimal(text) == Some(Decimal(false, c, -|fraction|))
  {
    DecimalCoefficient(whole, fraction, c);
    ParsePointed(text, false, whole, fraction, c);
  }

  lemma Decimal235()
    ensures ParseDecimal("23.5") == Some(Decimal(false, 235, -1))
  {
    PointedDecimal("23.5", "23", "5", 235);
  }

  lemma Round235()
    ensures RoundHalfUp(Decimal(false, 235, -1)) == 24
  {
    assert Pow10(1) == 10;
    RoundsTo(Decimal(false, 235, -1), 235, 10, 24);
  }

  lemma Plain235()
    ensures forall i :: 0 <= i < |"23.5"| ==> !IsSpace("23.5"[i])
  {
    forall i | 0 <= i < |"23.5"|
      ensures !IsSpace("23.5"[i])
    {
      assert "23.5"[i] in {'2', '3', '.', '5'};
    }
  }

  /** " 23.5" is stripped, then rounds up as a tie. */
  lemma LeadingSpaceAmountExample()
    ensures AmountText(" 23.5") == Some(24)
  {
    Decimal235();
    Round235();
    Plain235();
    assert " 23.5" == " " + "23.5";
    LeadingSpaceAmount(" 23.5", "23.5", Decimal(false, 235, -1));
  }

  lemma ParseIntLeadingSpaceExample()
    ensures ParseInt(StrValue(" 23.5")) == Success(24)
  {
    LeadingSpaceAmountExample();
    ParseIntOfStr(" 23.5", Some(24));
  }

  /** "-2.5" is a negative tie and rounds down, away from zero. */
  lemma ParseIntNegativeTie()
    ensures ParseInt(StrValue("-2.5")) == Success(-3)
  {
    DecimalCoefficient("2", "5", 25);
    PointedAmount("-2.5", true, "2", "5", 25);
    assert Pow10(1) == 10;
    RoundsTo(Decimal(true, 25, -1), -25, 10, -3);
    ParseIntOfStr("-2.5", Some(-3));
  }

  /** "1.495" rounds to 1: one rounding step, not a cascade of them. */
  lemma ParseIntNoCascade()
    ensures ParseInt(StrValue("1.495")) == Success(1)
  {
    DecimalCoefficient("1", "495", 1495);
    PointedAmount("1.495", false, "1", "495", 1495);
    assert Pow10(3) == 1000;
    RoundsTo(Decimal(false, 1495, -3), 1495, 1000, 1);
    ParseIntOfStr("1.495", Some(1));
  }

  /** Text without a digit is not an amount. */
  lemma NoDigitNoAmount(text: string)
    requires text != [] && forall i :: 0 <= i < |text| ==> !IsSpace(text[i]) && !IsDigit(text[i])
    ensures AmountText(text) == None
  {
    PlainTextNormal(text);
  }

  /** Words are not amounts. */
  lemma ParseIntRefusesWords()
    ensures ParseInt(StrValue("abc")) == Failure(ValueError(StrValue("abc")))
  {
    NoDigitNoAmount("abc");
    ParseIntOfStr("abc", None);
  }

  /** Blank text is refused by the normalisation, and the error carries the original value. */
  lemma ParseIntRefusesBlank()
    ensures ParseInt(StrValue("  ")) == Failure(ValueError(StrValue("  ")))
  {
    assert "  "[1..] == " " && " "[1..] == [];
    assert NonSpace(" ") == [];
    assert NonSpace("  ") == [];
    assert NormalizeString("  ").Failure?;
    assert AmountText("  ") == None;
    ParseIntOfStr("  ", None);
  }

  /** None is written as "None", which is not a number. */
  lemma ParseIntRefusesNone()
    ensures ParseInt(NoneValue) == Failure(ValueError(NoneValue))
  {
    NoDigitNoAmount("None");
    assert Str(NoneValue) == "None";
    ParseIntOfText(NoneValue, None);
  }
}
