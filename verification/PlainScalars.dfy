/** What a plain scalar is read as: the spellings of null and of the truth values, the grammar of numbers, and
    otherwise text. */
module PlainScalars {
  import opened Text
  import opened YamlSubset

  predicate AllDigits(s: string) {
    forall i | 0 <= i < |s| :: IsDigit(s[i])
  }

  /** The parts of a number; `tail` is what follows the digits before the point. */
  datatype Numeral = Numeral(sign: string, whole: string, tail: Tail)
  datatype Tail = NoPoint | Point(fraction: string, exponent: Exponent)
  datatype Exponent = NoExponent | Exponent(letter: char, sign: string, digits: string)

  predicate IsSign(s: string) {
    s == "" || s == "+" || s == "-"
  }

  function ExponentText(e: Exponent): string {
    if e.NoExponent? then "" else [e.letter] + (e.sign + e.digits)
  }

  function TailText(t: Tail): string {
    if t.NoPoint? then "" else "." + (t.fraction + ExponentText(t.exponent))
  }

  function NumeralText(n: Numeral): string {
    n.sign + (n.whole + TailText(n.tail))
  }

  predicate ValidExponent(e: Exponent) {
    e.Exponent? ==> (e.letter == 'e' || e.letter == 'E') && IsSign(e.sign) && e.digits != "" && AllDigits(e.digits)
  }

  /** Digits, or digits on one side of a point at least, with an exponent only after a point. */
  predicate ValidNumeral(n: Numeral) {
    && IsSign(n.sign) && AllDigits(n.whole)
    && match n.tail
       case NoPoint => n.whole != ""
       case Point(fraction, exponent) => AllDigits(fraction) && (n.whole != "" || fraction != "") && ValidExponent(exponent)
  }

  ghost predicate IsNumeral(text: string) {
    exists n :: ValidNumeral(n) && NumeralText(n) == text
  }

  ghost function Typed(text: string): Value {
    if text == "true" || text == "True" || text == "TRUE" then Bool(true)
    else if text == "false" || text == "False" || text == "FALSE" then Bool(false)
    else if text == "" || text == "~" || text == "null" || text == "Null" || text == "NULL" then Null
    else if IsNumeral(text) then Number(text)
    else Str(text)
  }

  lemma {:induction false} DigitsBefore(digits: string, rest: string)
    requires AllDigits(digits) && (rest != "" ==> !IsDigit(rest[0]))
    ensures Digits(digits + rest) == |digits|
  {
    if digits == "" {
      NothingBefore(rest);
    } else {
      TailOfConcat(digits, rest);
      DigitsBefore(digits[1..], rest);
    }
  }

  lemma {:induction false} DigitsSplitOff(s: string) returns (digits: string, rest: string)
    ensures AllDigits(digits) && |digits| == Digits(s) && rest == s[Digits(s)..] && s == digits + rest
  {
    if s != "" && IsDigit(s[0]) {
      digits, rest := DigitsSplitOff(s[1..]);
      digits := [s[0]] + digits;
    } else {
      digits, rest := "", s;
    }
  }

  lemma UnsignedAfter(sign: string, rest: string)
    requires IsSign(sign) && (rest != "" ==> rest[0] != '+' && rest[0] != '-')
    ensures Unsigned(sign + rest) == rest
  {
    if sign == "" {
      NothingBefore(rest);
    } else {
      TailOfConcat(sign, rest);
      NothingBefore(rest);
    }
  }

  lemma SignedInteger(sign: string, digits: string)
    requires IsSign(sign) && digits != "" && AllDigits(digits)
    ensures IsInteger(sign + digits)
  {
    UnsignedAfter(sign, digits);
    DigitsBefore(digits, "");
    assert digits + "" == digits;
  }

  lemma IntegerIsSigned(s: string) returns (sign: string, digits: string)
    requires IsInteger(s)
    ensures IsSign(sign) && digits != "" && AllDigits(digits) && s == sign + digits
  {
    digits := Unsigned(s);
    sign := if digits == s then "" else [s[0]];
    var all, rest := DigitsSplitOff(digits);
    assert all + rest == all;
    assert s == sign + digits;
  }

  lemma ExponentIsRead(e: Exponent)
    requires ValidExponent(e)
    ensures IsExponent(ExponentText(e))
  {
    if e.Exponent? {
      SignedInteger(e.sign, e.digits);
      TailOfConcat([e.letter], e.sign + e.digits);
      NothingBefore(e.sign + e.digits);
    }
  }

  lemma ExponentIsWritten(s: string) returns (e: Exponent)
    requires IsExponent(s)
    ensures ValidExponent(e) && ExponentText(e) == s
  {
    e := NoExponent;
    if s != "" {
      var sign, digits := IntegerIsSigned(s[1..]);
      e := Exponent(s[0], sign, digits);
      HeadAndTail(s);
    }
  }

  /** What the grammar of numbers writes is recognized as a number. */
  lemma NumeralIsRead(n: Numeral)
    requires ValidNumeral(n)
    ensures IsInteger(NumeralText(n)) || IsDecimal(NumeralText(n))
  {
    match n.tail
    case NoPoint =>
      assert n.whole + "" == n.whole;
      SignedInteger(n.sign, n.whole);
    case Point(fraction, exponent) => DecimalIsRead(n.sign, n.whole, fraction, exponent);
  }

  lemma FractionIsRead(fraction: string, e: Exponent, whole: nat)
    requires AllDigits(fraction) && ValidExponent(e) && (whole > 0 || fraction != "")
    ensures IsFraction(fraction + ExponentText(e), whole)
  {
    ExponentIsRead(e);
    DigitsBefore(fraction, ExponentText(e));
    assert (fraction + ExponentText(e))[|fraction|..] == ExponentText(e);
  }

  lemma PointIsFound(whole: string, after: string)
    requires AllDigits(whole)
    ensures var u := whole + ("." + after);
            Digits(u) == |whole| < |u| && u[|whole|] == '.' && u[|whole| + 1..] == after
  {
    DigitsBefore(whole, "." + after);
  }

  lemma DecimalFrom(s: string, u: string, whole: string, after: string)
    requires Unsigned(s) == u && Digits(u) == |whole| < |u| && u[|whole|] == '.' && u[|whole| + 1..] == after
    requires IsFraction(after, |whole|)
    ensures IsDecimal(s)
  {
  }

  lemma DecimalIsRead(sign: string, whole: string, fraction: string, exponent: Exponent)
    requires ValidNumeral(Numeral(sign, whole, Point(fraction, exponent)))
    ensures IsDecimal(NumeralText(Numeral(sign, whole, Point(fraction, exponent))))
  {
    var after := fraction + ExponentText(exponent);
    var u := whole + ("." + after);
    FractionIsRead(fraction, exponent, |whole|);
    PointIsFound(whole, after);
    UnsignedAfter(sign, u);
    DecimalFrom(sign + u, u, whole, after);
  }

  /** And whatever is recognized as a number is written by it. */
  lemma ReadNumeralIsWritten(s: string) returns (n: Numeral)
    requires IsInteger(s) || IsDecimal(s)
    ensures ValidNumeral(n) && NumeralText(n) == s
  {
    if IsInteger(s) {
      var sign, digits := IntegerIsSigned(s);
      n := Numeral(sign, digits, NoPoint);
      assert digits + "" == digits;
    } else {
      n := ReadDecimalIsWritten(s);
    }
  }

  lemma ReadFractionIsWritten(after: string, whole: nat) returns (fraction: string, e: Exponent)
    requires IsFraction(after, whole)
    ensures AllDigits(fraction) && ValidExponent(e) && (whole > 0 || fraction != "") && after == fraction + ExponentText(e)
  {
    var rest;
    fraction, rest := DigitsSplitOff(after);
    e := ExponentIsWritten(rest);
  }

  lemma PointAfter(u: string, whole: string, rest: string)
    requires u == whole + rest && Digits(u) == |whole| < |u| && u[|whole|] == '.'
    ensures rest != "" && rest[0] == '.' && u[|whole| + 1..] == rest[1..]
  {
  }

  lemma SignAndRest(s: string) returns (sign: string)
    ensures IsSign(sign) && s == sign + Unsigned(s)
  {
    var u := Unsigned(s);
    sign := if u == s then "" else [s[0]];
    assert s == sign + u;
  }

  lemma ReadDecimalIsWritten(s: string) returns (n: Numeral)
    requires IsDecimal(s)
    ensures ValidNumeral(n) && NumeralText(n) == s
  {
    var sign := SignAndRest(s);
    var whole, rest := DigitsSplitOff(Unsigned(s));
    PointAfter(Unsigned(s), whole, rest);
    var fraction, e := ReadFractionIsWritten(rest[1..], |whole|);
    n := Numeral(sign, whole, Point(fraction, e));
    HeadAndTail(rest);
  }

  /** The parser's recognizer and the grammar of numbers agree. */
  lemma NumberIff(text: string)
    ensures IsInteger(text) || IsDecimal(text) <==> IsNumeral(text)
  {
    if IsNumeral(text) {
      var n :| ValidNumeral(n) && NumeralText(n) == text;
      NumeralIsRead(n);
    } else if IsInteger(text) || IsDecimal(text) {
      var n := ReadNumeralIsWritten(text);
    }
  }

  /** The parser types a plain scalar as the grammar says. */
  lemma PlainScalarIsTyped(text: string)
    ensures TypeOf(text) == Typed(text)
  {
    NumberIff(text);
  }

  lemma {:induction false} TrimEndStays(s: string)
    requires s != "" && !Blank(s[|s| - 1])
    ensures TrimEnd(s) == s
  {
    if |s| > 1 {
      TrimEndStays(s[1..]);
    }
  }

  lemma StripStays(s: string)
    requires s != "" && !Blank(s[0]) && !Blank(s[|s| - 1])
    ensures Strip(s) == s
  {
    TrimEndStays(s);
  }
}
