/**
 * `convertToShortText` of src/helper/common.ts: an amount in VND shown as millions
 * with the suffix "tr" ("60tr", "1.5tr"). The argument is a JavaScript number or a
 * string that goes through `parseFloat`; numbers are exact rationals here.
 */
module Common {
  import opened Text

  /** A JavaScript number: NaN or a finite value. */
  datatype JsNumber = NaN | Finite(value: real)

  /** The `number | string` argument. */
  datatype PriceArg = Num(n: JsNumber) | Str(s: string)

  /** The first position from i on that holds no decimal digit. */
  function DigitRun(s: string, i: nat): (j: nat)
    requires i <= |s|
    ensures i <= j <= |s|
    ensures forall k :: i <= k < j ==> IsDigit(s[k])
    ensures j < |s| ==> !IsDigit(s[j])
    decreases |s| - i
  {
    if i < |s| && IsDigit(s[i]) then DigitRun(s, i + 1) else i
  }

  /** The longest prefix of s made of decimal digits. */
  function LeadingDigits(s: string): (d: string)
    ensures AllDigits(d)
  {
    s[..DigitRun(s, 0)]
  }

  /** The value of a fraction's digits: "25" is 0.25. */
  function Fraction(d: string): real
    requires AllDigits(d)
  {
    DigitsValue(d) as real / Pow10(|d|) as real
  }

  /** The number at the start of an unsigned text: digits, and an optional "." with
      more digits; NaN when neither part has a digit. */
  function ParseUnsigned(body: string): JsNumber
  {
    var whole := LeadingDigits(body);
    var rest := body[|whole|..];
    var frac := if rest != [] && rest[0] == '.' then LeadingDigits(rest[1..]) else [];
    if whole == [] && frac == [] then NaN
    else Finite(DigitsValue(whole) as real + Fraction(frac))
  }

  function Negate(n: JsNumber): JsNumber
  {
    match n
    case NaN => NaN
    case Finite(v) => Finite(-v)
  }

  /** `parseFloat(s)`: skips leading whitespace and reads an optional sign, then the
      number that follows. */
  function ParseFloat(s: string): JsNumber
  {
    var t := TrimStart(s);
    if t != [] && t[0] == '-' then Negate(ParseUnsigned(t[1..]))
    else if t != [] && t[0] == '+' then ParseUnsigned(t[1..])
    else ParseUnsigned(t)
  }

  /** `x.toFixed(1)` for a non-negative x: the nearest tenth, the larger on a tie. */
  function Fixed1NonNegative(x: real): string
    requires x >= 0.0
  {
    var t := (x * 10.0 + 0.5).Floor;
    NatToString(t / 10) + "." + [DigitChar(t % 10)]
  }

  /** `x.toFixed(1)`: a negative x is printed as "-" and the text of -x. */
  function Fixed1(x: real): string
  {
    if x < 0.0 then "-" + Fixed1NonNegative(-x) else Fixed1NonNegative(x)
  }

  /** The text for a parsed amount. */
  function MillionsText(x: real): (r: string)
    ensures |r| >= 2 && r[|r| - 2..] == "tr"
  {
    var million := x / 1_000_000.0;
    var rounded := if million.Floor as real == million then IntToString(million.Floor) else Fixed1(million);
    rounded + "tr"
  }

  function ConvertToShortText(price: PriceArg): (r: string)
    ensures |r| >= 2 && r[|r| - 2..] == "tr"
  {
    var numeric := match price
      case Num(n) => n
      case Str(s) => ParseFloat(s);
    match numeric
    case NaN => "0tr"
    case Finite(x) => MillionsText(x)
  }

  // ---------------------------------------------------------------------------
  // Properties
  // ---------------------------------------------------------------------------

  /** NaN, the empty string and a lone sign are all shown as "0tr". */
  lemma NotANumberIsZero()
    ensures ConvertToShortText(Num(NaN)) == "0tr"
    ensures ConvertToShortText(Str("")) == "0tr"
    ensures ConvertToShortText(Str("-")) == "0tr"
  {
    assert TrimStart("-") == "-";
    assert "-"[1..] == "";
  }

  /** A string that starts with a letter is not a number. */
  lemma LetterIsZero(s: string)
    requires s != [] && 'a' <= s[0] <= 'z'
    ensures ParseFloat(s) == NaN && ConvertToShortText(Str(s)) == "0tr"
  {
    assert !IsWhitespace(s[0]) && !IsDigit(s[0]);
    assert TrimStart(s) == s;
    assert LeadingDigits(s) == [];
    assert s[0] != '-' && s[0] != '+' && s[0] != '.';
    assert ParseUnsigned(s) == NaN;
  }

  /** Leading whitespace before a number is skipped. */
  lemma LeadingSpaceSkipped(d: string)
    requires AllDigits(d) && d != []
    ensures ParseFloat(" " + d) == ParseFloat(d) == Finite(DigitsValue(d) as real)
  {
    assert (" " + d)[1..] == d;
    assert TrimStart(" " + d) == TrimStart(d) == d;
    assert LeadingDigits(d) == d by { LeadingDigitsAll(d); }
    assert d[|d|..] == [];
  }

  lemma LeadingDigitsAll(d: string)
    requires AllDigits(d)
    ensures LeadingDigits(d) == d
  {
    assert DigitRun(d, 0) == |d|;
  }

  /** A whole number of millions prints its quotient, with no decimal point. */
  lemma WholeMillions(q: int)
    ensures ConvertToShortText(Num(Finite((q * 1_000_000) as real))) == IntToString(q) + "tr"
  {
    var x := (q * 1_000_000) as real;
    assert x / 1_000_000.0 == q as real;
  }

  /** (u + 50000) / 100000 is the nearest number of tenths of a million, rounding up
      on a tie, as toFixed(1) does. */
  lemma TenthsOfMillion(u: nat)
    ensures ((u as real / 1_000_000.0) * 10.0 + 0.5).Floor == (u + 50000) / 100000
  {
    var q := (u + 50000) / 100000;
    var r := (u + 50000) % 100000;
    assert u + 50000 == q * 100000 + r && 0 <= r < 100000;
    var x := (u as real / 1_000_000.0) * 10.0 + 0.5;
    assert x == (u + 50000) as real / 100000.0;
    assert x == q as real + r as real / 100000.0;
    assert q as real <= x < q as real + 1.0;
  }

  /** Any other integer amount prints exactly one digit after the point: the nearest
      tenth of a million, half away from zero. */
  lemma OneDecimal(n: int)
    requires n % 1_000_000 != 0
    ensures var u := if n < 0 then -n else n;
            var t := (u + 50000) / 100000;
            ConvertToShortText(Num(Finite(n as real))) ==
              (if n < 0 then "-" else "") + (NatToString(t / 10) + "." + [DigitChar(t % 10)]) + "tr"
  {
    if n < 0 {
      OneDecimalBelowZero(n);
    } else {
      OneDecimalAboveZero(n);
    }
  }

  lemma OneDecimalBelowZero(n: int)
    requires n % 1_000_000 != 0 && n < 0
    ensures var t := (-n + 50000) / 100000;
            ConvertToShortText(Num(Finite(n as real))) ==
              "-" + (NatToString(t / 10) + "." + [DigitChar(t % 10)]) + "tr"
  {
    NonWholeMillions(n);
    Fixed1Sign(n as real / 1_000_000.0, (-n) as real / 1_000_000.0);
    Fixed1OfMillionths(-n);
  }

  lemma OneDecimalAboveZero(n: int)
    requires n % 1_000_000 != 0 && n > 0
    ensures var t := (n + 50000) / 100000;
            ConvertToShortText(Num(Finite(n as real))) ==
              NatToString(t / 10) + "." + [DigitChar(t % 10)] + "tr"
  {
    NonWholeMillions(n);
    Fixed1Sign(n as real / 1_000_000.0, n as real / 1_000_000.0);
    Fixed1OfMillionths(n);
  }

  lemma NonWholeMillions(n: int)
    requires n % 1_000_000 != 0
    ensures MillionsText(n as real) == Fixed1(n as real / 1_000_000.0) + "tr"
  {
    NotWholeMillion(n);
  }

  lemma Fixed1Sign(m: real, x: real)
    requires x == if m < 0.0 then -m else m
    ensures Fixed1(m) == (if m < 0.0 then "-" else "") + Fixed1NonNegative(x)
  {
  }

  lemma Fixed1OfMillionths(u: nat)
    ensures var t := (u + 50000) / 100000;
            Fixed1NonNegative(u as real / 1_000_000.0) == NatToString(t / 10) + "." + [DigitChar(t % 10)]
  {
    TenthsOfMillion(u);
  }

  lemma NotWholeMillion(n: int)
    requires n % 1_000_000 != 0
    ensures (n as real / 1_000_000.0).Floor as real != n as real / 1_000_000.0
  {
  }

  /** Worked cases: 60,000,000 is "60tr" and 0 is "0tr". */
  lemma WholeExamples()
    ensures ConvertToShortText(Num(Finite(60_000_000.0))) == "60tr"
    ensures ConvertToShortText(Num(Finite(0.0))) == "0tr"
  {
    WholeMillions(60);
    assert IntToString(60) == NatToString(6) + [DigitChar(0)] == "60";
    WholeMillions(0);
  }

  /** 1,500,000 is "1.5tr". */
  lemma TenthExample()
    ensures ConvertToShortText(Num(Finite(1_500_000.0))) == "1.5tr"
  {
    OneDecimalAboveZero(1_500_000);
    assert (1_500_000 + 50000) / 100000 == 15;
    assert NatToString(1) + "." + [DigitChar(5)] == "1.5";
  }

  /** A non-multiple that rounds to a whole tenth still shows ".0": 5,000,001 is
      "5.0tr". */
  lemma RoundedTenthExample()
    ensures ConvertToShortText(Num(Finite(5_000_001.0))) == "5.0tr"
  {
    OneDecimalAboveZero(5_000_001);
    assert (5_000_001 + 50000) / 100000 == 50;
    assert NatToString(5) + "." + [DigitChar(0)] == "5.0";
  }

  /** Just under a million rounds up to "1.0tr". */
  lemma RoundedUpExample()
    ensures ConvertToShortText(Num(Finite(999_999.0))) == "1.0tr"
  {
    OneDecimalAboveZero(999_999);
    assert (999_999 + 50000) / 100000 == 10;
    assert NatToString(1) + "." + [DigitChar(0)] == "1.0";
  }

  // ---------------------------------------------------------------------------
  // The callers pass `Number(price).toFixed(2)`; for an integer that is its decimal
  // text followed by ".00", and parsing it back gives the same number.
  // ---------------------------------------------------------------------------

  function Fixed2OfInt(n: int): string
  {
    IntToString(n) + ".00"
  }

  lemma LeadingDigitsOfConcat(d: string, rest: string)
    requires AllDigits(d) && rest != [] && !IsDigit(rest[0])
    ensures LeadingDigits(d + rest) == d
  {
    var s := d + rest;
    assert s[|d|] == rest[0];
    assert forall k :: 0 <= k < |d| ==> s[k] == d[k];
    assert DigitRun(s, 0) == |d|;
    assert s[..|d|] == d;
  }

  lemma ParseUnsignedFixed2(d: string)
    requires AllDigits(d) && d != []
    ensures ParseUnsigned(d + ".00") == Finite(DigitsValue(d) as real)
  {
    var body := d + ".00";
    LeadingDigitsOfConcat(d, ".00");
    assert body[|d|..] == ".00";
    ZeroCents();
  }

  /** The fraction ".00" reads as two zero digits worth nothing. */
  lemma ZeroCents()
    ensures ".00"[1..] == "00" && LeadingDigits("00") == "00" && Fraction("00") == 0.0
  {
    LeadingDigitsAll("00");
    assert DigitsValue("00") == 0 by {
      assert "00"[..1] == "0" && "0"[..0] == [];
    }
  }

  lemma ParseFixed2(n: int)
    ensures ParseFloat(Fixed2OfInt(n)) == Finite(n as real)
  {
    if n < 0 {
      var u: nat := -n;
      var body := NatToString(u) + ".00";
      calc {
        ParseFloat(Fixed2OfInt(n));
        { assert Fixed2OfInt(n) == "-" + body; }
        ParseFloat("-" + body);
        { ParseSignedDigits(body); }
        Negate(ParseUnsigned(body));
        { ParseCents(u); }
        Negate(Finite(u as real));
        Finite(n as real);
      }
    } else {
      ParseCents(n);
      ParseSignedDigits(NatToString(n) + ".00");
    }
  }

  lemma ParseCents(u: nat)
    ensures ParseUnsigned(NatToString(u) + ".00") == Finite(u as real)
  {
    DigitsValueOfNatToString(u);
    ParseUnsignedFixed2(NatToString(u));
  }

  /** A text that starts with a digit parses as its unsigned reading, and with a "-"
      in front as the negation of that. */
  lemma ParseSignedDigits(body: string)
    requires body != [] && IsDigit(body[0])
    ensures ParseFloat(body) == ParseUnsigned(body)
    ensures ParseFloat("-" + body) == Negate(ParseUnsigned(body))
  {
    TrimStartOfDigit(body);
    var s := "-" + body;
    assert SkipWhitespace(s, 0) == 0;
    assert s[1..] == body;
  }

  lemma TrimStartOfDigit(s: string)
    requires s != [] && IsDigit(s[0])
    ensures TrimStart(s) == s
  {
    assert !IsWhitespace(s[0]);
  }

  lemma ParseUnsignedDigits(d: string)
    requires AllDigits(d) && d != []
    ensures ParseUnsigned(d) == Finite(DigitsValue(d) as real)
  {
    LeadingDigitsAll(d);
    assert d[|d|..] == [];
    assert Fraction([]) == 0.0;
  }

  /** `parseFloat` on a string of digits: NaN exactly for the empty string, otherwise
      its integer value, leading zeros and 0 included. */
  lemma ParseDigits(d: string)
    requires AllDigits(d)
    ensures d == "" <==> ParseFloat(d) == NaN
    ensures d != "" ==> ParseFloat(d) == Finite(DigitsValue(d) as real)
  {
    if d != "" {
      TrimStartOfDigit(d);
      ParseUnsignedDigits(d);
    }
  }

  /** The string the callers pass shows the same text as the number itself. */
  lemma Fixed2TextAgrees(n: int)
    ensures ConvertToShortText(Str(Fixed2OfInt(n))) == ConvertToShortText(Num(Finite(n as real)))
  {
    ParseFixed2(n);
  }
}
