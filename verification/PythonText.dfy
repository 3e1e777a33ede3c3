/**
 * The text functions of the language that the configuration reader leans on: strip(), lower(), and the
 * literals that int() and float() accept, with a printer whose output they read back.
 */
module PythonText {
  import opened Common

  // ----- strings -----

  function LowerChar(c: char): char {
    if 'A' <= c <= 'Z' then (c as int + 32) as char else c
  }

  function Lower(s: string): (r: string)
    ensures |r| == |s|
    ensures forall i | 0 <= i < |s| :: r[i] == LowerChar(s[i])
  {
    if s == "" then "" else [LowerChar(s[0])] + Lower(s[1..])
  }

  predicate IsSpace(c: char) {
    var code := c as int;
    || 0x09 <= code <= 0x0D || 0x1C <= code <= 0x20 || code == 0x85 || code == 0xA0 || code == 0x1680
    || 0x2000 <= code <= 0x200A || code == 0x2028 || code == 0x2029 || code == 0x202F || code == 0x205F
    || code == 0x3000
  }

  function LStrip(s: string): string {
    if s != "" && IsSpace(s[0]) then LStrip(s[1..]) else s
  }

  function RStrip(s: string): string {
    if s != "" && IsSpace(s[|s| - 1]) then RStrip(s[..|s| - 1]) else s
  }

  function Strip(s: string): string {
    LStrip(RStrip(s))
  }

  /** Nothing to strip. */
  predicate Trimmed(s: string) {
    s != "" && !IsSpace(s[0]) && !IsSpace(s[|s| - 1])
  }

  /** The first position of one of `chars`, or the length if there is none. */
  function FindAny(s: string, chars: set<char>): (k: nat)
    ensures k <= |s|
    ensures k < |s| ==> s[k] in chars
    ensures forall i | 0 <= i < k :: s[i] !in chars
  {
    if s == "" || s[0] in chars then 0 else 1 + FindAny(s[1..], chars)
  }

  // ----- digits -----

  predicate IsDigit(c: char) {
    '0' <= c <= '9'
  }

  /** A run of digits, in which single underscores may separate digits. */
  predicate DigitPart(s: string) {
    && s != "" && IsDigit(s[0]) && IsDigit(s[|s| - 1])
    && (forall i | 0 <= i < |s| :: IsDigit(s[i]) || s[i] == '_')
    && (forall i | 0 <= i < |s| - 1 :: !(s[i] == '_' && s[i + 1] == '_'))
  }

  function DigitOf(c: char): nat {
    if IsDigit(c) then c as int - '0' as int else 0
  }

  /** The number that the digits of `s` make, whatever stands between them. */
  function ValueOf(s: string): nat {
    if s == "" then 0
    else
      var n := |s| - 1;
      if IsDigit(s[n]) then ValueOf(s[..n]) * 10 + DigitOf(s[n]) else ValueOf(s[..n])
  }

  function CountDigits(s: string): nat {
    if s == "" then 0 else CountDigits(s[..|s| - 1]) + (if IsDigit(s[|s| - 1]) then 1 else 0)
  }

  // ----- int() and float() -----

  /** `Decimal(units, places)` is units / 10^places. */
  datatype Number = Whole(n: int) | Decimal(units: int, places: nat) | Infinite(negative: bool) | NotANumber

  /** Lowest terms, so that equal values are equal. */
  predicate Canonical(number: Number) {
    number.Decimal? ==> number.places == 0 || number.units % 10 != 0
  }

  function Reduce(units: int, places: nat): (r: Number)
    ensures r.Decimal? && Canonical(r)
    ensures r.units * Pow10(places) == units * Pow10(r.places)
    decreases places
  {
    if places > 0 && units % 10 == 0 then
      assert units == units / 10 * 10;
      var r := Reduce(units / 10, places - 1);
      assert r.units * (10 * Pow10(places - 1)) == 10 * (units / 10 * Pow10(r.places));
      r
    else Decimal(units, places)
  }

  predicate Negative(s: string) {
    "-" <= s
  }

  function Unsigned(s: string): string {
    if "-" <= s || "+" <= s then s[1..] else s
  }

  function Signed(negative: bool, n: nat): int {
    if negative then 0 - n else n
  }

  function ParseDigits(s: string): Option<int> {
    if DigitPart(Unsigned(s)) then Some(Signed(Negative(s), ValueOf(Unsigned(s)))) else None
  }

  datatype Mantissa = NoMantissa | Mantissa(units: nat, places: nat)

  function ParseMantissa(s: string): Mantissa {
    var k := FindAny(s, {'.'});
    if k == |s| then if DigitPart(s) then Mantissa(ValueOf(s), 0) else NoMantissa
    else
      var whole, part := s[..k], s[k + 1..];
      if (whole == "" && part == "") || (whole != "" && !DigitPart(whole)) || (part != "" && !DigitPart(part))
      then NoMantissa
      else Mantissa(ValueOf(whole + part), CountDigits(part))
  }

  function NamedNumber(s: string, negative: bool): (r: Option<Number>)
    ensures r.Some? ==> r.value.Infinite? || r.value.NotANumber?
  {
    var word := Lower(s);
    if word == "inf" || word == "infinity" then Some(Infinite(negative))
    else if word == "nan" then Some(NotANumber)
    else None
  }

  function FloatLiteral(s: string, negative: bool): (r: Option<Number>)
    ensures r.Some? ==> Canonical(r.value) && r.value.Decimal?
  {
    var k := FindAny(s, {'e', 'E'});
    var exponent := if k == |s| then Some(0) else ParseDigits(s[k + 1..]);
    var mantissa := ParseMantissa(s[..k]);
    if exponent.None? || mantissa.NoMantissa? then None
    else
      var units, places := Signed(negative, mantissa.units), mantissa.places - exponent.value;
      Some(if places < 0 then Reduce(units * Pow10(-places), 0) else Reduce(units, places))
  }

  function ParseUnsignedFloat(s: string, negative: bool): (r: Option<Number>)
    ensures r.Some? ==> Canonical(r.value) && !r.value.Whole?
  {
    var named := NamedNumber(s, negative);
    if named.Some? then named else FloatLiteral(s, negative)
  }

  /** What int() makes of a text, and failing that float(). */
  function ParseNumber(raw: string): (r: Option<Number>)
    ensures r.Some? ==> Canonical(r.value)
  {
    var text := Strip(raw);
    match ParseDigits(text)
    case Some(n) => Some(Whole(n))
    case None => ParseUnsignedFloat(Unsigned(text), Negative(text))
  }

  // ----- printing -----

  function Digit(d: nat): char
    requires d < 10
  {
    ('0' as int + d) as char
  }

  function Digits(n: nat): (s: string)
    ensures AllDigits(s)
  {
    if n < 10 then [Digit(n)] else Digits(n / 10) + [Digit(n % 10)]
  }

  /** At least `width` digits. */
  function Padded(s: string, width: nat): (r: string)
    requires AllDigits(s)
    ensures AllDigits(r) && |r| >= width
    decreases width - |s|
  {
    if |s| >= width then s else Padded("0" + s, width)
  }

  function ShowNumber(number: Number): string {
    match number
    case Whole(n) => Minus(n < 0) + Digits(Magnitude(n))
    case Decimal(units, places) => Minus(units < 0) + ShowDecimal(Magnitude(units), places)
    case Infinite(negative) => Minus(negative) + "inf"
    case NotANumber => "nan"
  }

  function ShowDecimal(units: nat, places: nat): string {
    if places == 0 then Digits(units) + ".0"
    else
      var digits := Padded(Digits(units), places + 1);
      digits[..|digits| - places] + "." + digits[|digits| - places..]
  }

  function Minus(negative: bool): string {
    if negative then "-" else ""
  }

  function Magnitude(n: int): nat {
    if n < 0 then -n else n
  }

  predicate AllDigits(s: string) {
    s != "" && forall i | 0 <= i < |s| :: IsDigit(s[i])
  }

  // ----- what is printed is read back -----

  lemma DigitsAreParts(s: string)
    requires AllDigits(s)
    ensures DigitPart(s) && CountDigits(s) == |s|
  {
    CountAll(s);
  }

  lemma {:induction false} CountAll(s: string)
    requires forall i | 0 <= i < |s| :: IsDigit(s[i])
    ensures CountDigits(s) == |s|
  {
    if s != "" {
      CountAll(s[..|s| - 1]);
    }
  }

  lemma {:induction false} ValueOfDigits(n: nat)
    ensures ValueOf(Digits(n)) == n
  {
    var s := Digits(n);
    if n < 10 {
      assert s[..0] == "";
    } else {
      ValueOfDigits(n / 10);
      assert s[..|s| - 1] == Digits(n / 10);
    }
  }

  lemma {:induction false} LeadingZero(s: string)
    ensures ValueOf("0" + s) == ValueOf(s)
  {
    var z := "0" + s;
    if s == "" {
      assert z[..0] == "";
    } else {
      LeadingZero(s[..|s| - 1]);
      assert z[..|z| - 1] == "0" + s[..|s| - 1];
      assert z[|z| - 1] == s[|s| - 1];
    }
  }

  lemma {:induction false} PaddedValue(s: string, width: nat)
    requires AllDigits(s)
    ensures ValueOf(Padded(s, width)) == ValueOf(s)
    decreases width - |s|
  {
    if |s| < width {
      LeadingZero(s);
      PaddedValue("0" + s, width);
    }
  }

  /** The digits before and after the point of a printed decimal. */
  lemma DecimalParts(units: nat, places: nat) returns (whole: string, part: string)
    ensures ShowDecimal(units, places) == whole + "." + part
    ensures AllDigits(whole) && AllDigits(part)
    ensures places == 0 ==> |part| == 1 && ValueOf(whole + part) == 10 * units
    ensures places > 0 ==> |part| == places && ValueOf(whole + part) == units
  {
    ValueOfDigits(units);
    if places == 0 {
      whole, part := Digits(units), "0";
      assert (whole + part)[..|whole|] == whole;
    } else {
      var digits := Padded(Digits(units), places + 1);
      PaddedValue(Digits(units), places + 1);
      whole, part := digits[..|digits| - places], digits[|digits| - places..];
      assert whole + part == digits;
    }
  }

  /** No character of a printed number is a blank or a hash. */
  predicate Solid(s: string) {
    s != "" && forall i | 0 <= i < |s| :: !IsSpace(s[i]) && s[i] != '#'
  }

  lemma StripSolid(s: string)
    requires Trimmed(s)
    ensures Strip(s) == s
  {
    hide IsSpace;
    assert RStrip(s) == s && LStrip(s) == s;
  }

  /** The sign of a text that starts with a digit, point or letter. */
  lemma SignOf(negative: bool, s: string)
    requires s != "" && s[0] != '-' && s[0] != '+'
    ensures var text := Minus(negative) + s; Negative(text) == negative && Unsigned(text) == s
  {
    var text := Minus(negative) + s;
    assert negative ==> text[0] == '-' && text[1..] == s;
    assert !negative ==> text == s;
  }

  lemma SolidParts(s: string, t: string)
    requires Solid(s) && Solid(t)
    ensures Solid(s + t)
  {
    hide IsSpace;
  }

  lemma SolidDigits(s: string)
    requires AllDigits(s)
    ensures Solid(s) && Solid("-") && Solid(".") && Solid("inf") && Solid("nan")
  {
  }

  lemma SolidNumber(number: Number)
    ensures Solid(ShowNumber(number))
  {
    SolidDigits("0");
    match number
    case Whole(n) =>
      SolidDigits(Digits(Magnitude(n)));
      hide Solid;
      SolidParts("-", Digits(Magnitude(n)));
      assert "" + Digits(Magnitude(n)) == Digits(Magnitude(n));
    case Decimal(units, places) =>
      var whole, part := DecimalParts(Magnitude(units), places);
      SolidDigits(whole);
      SolidDigits(part);
      hide Solid, ShowDecimal;
      SolidParts(whole, ".");
      SolidParts(whole + ".", part);
      SolidParts("-", whole + "." + part);
      assert "" + (whole + "." + part) == whole + "." + part;
    case Infinite(_) =>
      hide Solid;
      SolidParts("-", "inf");
      assert "" + "inf" == "inf";
    case NotANumber =>
  }

  lemma NumberEnd(number: Number)
    ensures var text := ShowNumber(number);
      text != "" && (IsDigit(text[|text| - 1]) || text[|text| - 1] == 'f' || text[|text| - 1] == 'n')
  {
    if number.Decimal? {
      var whole, part := DecimalParts(Magnitude(number.units), number.places);
      hide ShowDecimal;
    }
  }

  lemma {:induction false} FindAnyIs(s: string, chars: set<char>, k: nat)
    requires k <= |s| && (k < |s| ==> s[k] in chars)
    requires forall i | 0 <= i < k :: s[i] !in chars
    ensures FindAny(s, chars) == k
  {
    if k > 0 {
      FindAnyIs(s[1..], chars, k - 1);
    }
  }

  lemma WholeReadsBack(n: int)
    ensures ParseDigits(ShowNumber(Whole(n))) == Some(n)
  {
    var digits := Digits(Magnitude(n));
    DigitsAreParts(digits);
    ValueOfDigits(Magnitude(n));
    SignOf(n < 0, digits);
  }

  lemma PointIsNoDigit(negative: bool, whole: string, part: string)
    requires AllDigits(whole)
    ensures var text := Minus(negative) + (whole + "." + part);
      ParseDigits(text) == None && Negative(text) == negative && Unsigned(text) == whole + "." + part
  {
    var s := whole + "." + part;
    SignOf(negative, s);
    assert s[|whole|] == '.';
  }

  lemma MantissaOf(whole: string, part: string)
    requires AllDigits(whole) && AllDigits(part)
    ensures ParseMantissa(whole + "." + part) == Mantissa(ValueOf(whole + part), |part|)
    ensures FindAny(whole + "." + part, {'e', 'E'}) == |whole + "." + part|
  {
    hide FindAny, DigitPart, CountDigits, ValueOf;
    var s := whole + "." + part;
    DigitsAreParts(whole);
    DigitsAreParts(part);
    assert forall i | 0 <= i < |s| ::
        s[i] == if i < |whole| then whole[i] else if i == |whole| then '.' else part[i - |whole| - 1];
    assert s[..|whole|] == whole && s[|whole| + 1..] == part;
    FindAnyIs(s, {'.'}, |whole|);
    FindAnyIs(s, {'e', 'E'}, |s|);
  }

  /** A text that starts with neither a letter nor a sign is not one of the named numbers. */
  lemma NotNamed(s: string)
    requires s != "" && s[0] != 'i' && s[0] != 'I' && s[0] != 'n' && s[0] != 'N'
    ensures NamedNumber(s, true) == None && NamedNumber(s, false) == None
  {
    assert Lower(s)[0] == LowerChar(s[0]);
  }

  lemma ReduceTenfold(units: int)
    ensures Reduce(10 * units, 1) == Decimal(units, 0)
  {
  }

  lemma PlainLiteral(s: string, negative: bool, mantissa: Mantissa)
    requires FindAny(s, {'e', 'E'}) == |s| && mantissa.Mantissa? && ParseMantissa(s) == mantissa
    ensures FloatLiteral(s, negative) == Some(Reduce(Signed(negative, mantissa.units), mantissa.places))
  {
    hide FindAny, ParseMantissa, Reduce, Signed, ParseDigits, Pow10, Canonical;
    assert s[..|s|] == s;
  }

  lemma PlainFloat(s: string, negative: bool, mantissa: Mantissa)
    requires s != "" && IsDigit(s[0]) && FindAny(s, {'e', 'E'}) == |s|
    requires mantissa.Mantissa? && ParseMantissa(s) == mantissa
    ensures ParseUnsignedFloat(s, negative) == Some(Reduce(Signed(negative, mantissa.units), mantissa.places))
  {
    NotNamed(s);
    hide FindAny, ParseMantissa, NamedNumber, FloatLiteral, Reduce, Signed, Canonical, IsDigit;
    PlainLiteral(s, negative, mantissa);
  }

  lemma DecimalReadsBack(units: int, places: nat)
    requires Canonical(Decimal(units, places))
    ensures var text := ShowNumber(Decimal(units, places));
      ParseDigits(text) == None && ParseUnsignedFloat(Unsigned(text), Negative(text)) == Some(Decimal(units, places))
  {
    hide ParseMantissa, FindAny, ValueOf, ParseDigits, ShowDecimal, Negative, Unsigned, ParseUnsignedFloat;
    var size := Magnitude(units);
    var whole, part := DecimalParts(size, places);
    var s := whole + "." + part;
    PointIsNoDigit(units < 0, whole, part);
    MantissaOf(whole, part);
    assert s[0] == whole[0];
    PlainFloat(s, units < 0, Mantissa(ValueOf(whole + part), |part|));
    ReduceTenfold(units);
    assert Reduce(units, places) == Decimal(units, places);
    hide Reduce, IsDigit;
  }

  lemma NamedReadsBack(negative: bool)
    ensures ParseDigits(Minus(negative) + "inf") == None
    ensures ParseUnsignedFloat(Unsigned(Minus(negative) + "inf"), Negative(Minus(negative) + "inf"))
         == Some(Infinite(negative))
    ensures ParseDigits("nan") == None && ParseUnsignedFloat("nan", false) == Some(NotANumber)
    ensures Unsigned("nan") == "nan" && !Negative("nan")
  {
    SignOf(negative, "inf");
    SignOf(false, "nan");
    assert Lower("inf") == "inf" && Lower("nan") == "nan";
  }

  /** Every number that int() or float() can return is read back from its printed form. */
  lemma NumberReadsBack(number: Number)
    requires Canonical(number)
    ensures ParseNumber(ShowNumber(number)) == Some(number)
  {
    hide IsSpace, ParseUnsignedFloat, ParseDigits, Strip, Unsigned, Negative;
    SolidNumber(number);
    StripSolid(ShowNumber(number));
    match number
    case Whole(n) => WholeReadsBack(n);
    case Decimal(units, places) => DecimalReadsBack(units, places);
    case Infinite(negative) => NamedReadsBack(negative);
    case NotANumber => NamedReadsBack(false);
  }

  /** No number starts with a quote. */
  lemma QuotesAreNoNumbers(raw: string)
    requires Trimmed(raw) && (raw[0] == '\'' || raw[0] == '"')
    ensures ParseNumber(raw) == None
  {
    StripSolid(raw);
    NotNamed(raw);
    var k := FindAny(raw, {'e', 'E'});
    assert Unsigned(raw) == raw && ParseDigits(raw) == None;
    hide Strip, IsSpace, FindAny, NamedNumber, Reduce;
    assert raw[..k] != "" && raw[..k][0] == raw[0];
    QuoteIsNoMantissa(raw[..k]);
  }

  lemma QuoteIsNoMantissa(s: string)
    requires s != "" && (s[0] == '\'' || s[0] == '"')
    ensures ParseMantissa(s).NoMantissa?
  {
    hide FindAny, ValueOf, CountDigits;
    var k := FindAny(s, {'.'});
    if k < |s| {
      assert k > 0 && s[..k][0] == s[0];
    }
  }
}
