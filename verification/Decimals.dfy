// Decimal text: plain counters, and the fixed-point environment decimal whose
// display has to parse back to itself.
module Decimals {
  import opened Common
  import opened Geometry

  const MAX_DECIMAL_TEXT_BYTES: nat := 27

  // ---------------------------------------------------------------- digits

  predicate IsDigit(c: char) { '0' <= c <= '9' }

  predicate AllDigits(s: string) { forall i :: 0 <= i < |s| ==> IsDigit(s[i]) }

  function DigitChar(d: nat): (c: char)
    requires d < 10
    ensures IsDigit(c) && DigitValue(c) == d
  {
    '0' + d as char
  }

  function DigitValue(c: char): (d: nat)
    requires IsDigit(c)
    ensures d < 10
  {
    (c - '0') as nat
  }

  lemma DigitCharOfValue(c: char)
    requires IsDigit(c)
    ensures DigitChar(DigitValue(c)) == c
  {
  }

  /** Value of a digit string, leading zeros allowed; the empty string is zero. */
  function Value(s: string): nat
    requires AllDigits(s)
  {
    if s == "" then 0 else 10 * Value(s[..|s| - 1]) + DigitValue(s[|s| - 1])
  }

  /** Plain rendering without leading zeros. */
  function Plain(n: nat): (s: string)
    ensures AllDigits(s) && s != ""
  {
    if n < 10 then [DigitChar(n)] else Plain(n / 10) + [DigitChar(n % 10)]
  }

  /** Rendering in exactly `width` digits. */
  function Padded(n: nat, width: nat): (s: string)
    ensures AllDigits(s) && |s| == width
  {
    if width == 0 then "" else Padded(n / 10, width - 1) + [DigitChar(n % 10)]
  }

  function Pow10(k: nat): (p: nat)
    ensures p >= 1
  {
    if k == 0 then 1 else 10 * Pow10(k - 1)
  }

  lemma {:induction false} PlainHasValue(n: nat)
    ensures Value(Plain(n)) == n
    ensures |Plain(n)| > 1 ==> Plain(n)[0] != '0'
  {
    if n >= 10 {
      PlainHasValue(n / 10);
      PlainOfPositive(n / 10);
      assert Plain(n)[..|Plain(n)| - 1] == Plain(n / 10);
    }
  }

  lemma {:induction false} PlainOfPositive(n: nat)
    requires n > 0
    ensures Plain(n)[0] != '0'
  {
    if n >= 10 {
      PlainOfPositive(n / 10);
    }
  }

  /** A digit string without an idle leading zero is the rendering of its value. */
  lemma {:induction false} PlainOfValue(s: string)
    requires AllDigits(s) && s != "" && (|s| > 1 ==> s[0] != '0')
    ensures Plain(Value(s)) == s
    ensures s[0] != '0' ==> Value(s) > 0
  {
    DigitCharOfValue(s[|s| - 1]);
    if |s| > 1 {
      PlainOfValue(s[..|s| - 1]);
    }
  }

  lemma {:induction false} PaddedHasValue(n: nat, width: nat)
    requires n < Pow10(width)
    ensures Value(Padded(n, width)) == n
    decreases width
  {
    if width > 0 {
      PaddedHasValue(n / 10, width - 1);
      assert Padded(n, width)[..width - 1] == Padded(n / 10, width - 1);
    }
  }

  lemma {:induction false} PlainLength(n: nat, width: nat)
    requires n < Pow10(width) && width > 0
    ensures |Plain(n)| <= width
    decreases width
  {
    if n >= 10 {
      assert width > 1 by { assert Pow10(1) == 10 * Pow10(0); }
      PlainLength(n / 10, width - 1);
    }
  }

  // ---------------------------------------------------------------- parsing

  datatype DecimalFault = TooLong | Notation | TooPrecise | Overflow

  datatype Parsed = Units(units: nat) | Refused(fault: DecimalFault)

  /** Place of the first separator. */
  function FirstIndex(s: string, c: char): (r: Option<nat>)
    ensures r.Some? ==> r.value < |s| && s[r.value] == c && forall i :: 0 <= i < r.value ==> s[i] != c
    ensures r.None? ==> forall i :: 0 <= i < |s| ==> s[i] != c
  {
    if s == "" then None
    else if s[0] == c then Some(0)
    else match FirstIndex(s[1..], c) case None => None case Some(i) => Some(i + 1)
  }

  lemma FirstIndexOf(before: string, c: char, after: string)
    requires forall i :: 0 <= i < |before| ==> before[i] != c
    ensures FirstIndex(before + [c] + after, c) == Some(|before|)
  {
    var s := before + [c] + after;
    assert s[|before|] == c;
    assert forall i :: 0 <= i < |before| ==> s[i] == before[i];
  }

  function Combine(whole: string, fraction: string): Parsed
    requires AllDigits(whole) && AllDigits(fraction) && |fraction| <= 6
  {
    if Value(whole) >= U64_LIMIT then Refused(Overflow)
    else
      var units := Value(whole) * SCALE + Value(fraction) * Pow10(6 - |fraction|);
      if units >= U64_LIMIT then Refused(Overflow) else Units(units)
  }

  /** Unsigned plain notation with at most six fractional digits and no trailing point. */
  function ParseDecimal(text: string): Parsed {
    if |text| > MAX_DECIMAL_TEXT_BYTES then Refused(TooLong)
    else
      var point := FirstIndex(text, '.');
      if point.Some? && point.value + 1 == |text| then Refused(Notation)
      else
        var whole := if point.Some? then text[..point.value] else text;
        var fraction := if point.Some? then text[point.value + 1..] else "";
        if (whole == "" && fraction == "") || !AllDigits(whole) || !AllDigits(fraction) then Refused(Notation)
        else if |fraction| > 6 then Refused(TooPrecise)
        else Combine(whole, fraction)
  }

  // ---------------------------------------------------------------- display

  /** Whole part, and the fraction without trailing zeros. */
  function DisplayDecimal(units: nat): string {
    if units % SCALE == 0 then Plain(units / SCALE)
    else
      var (fraction, precision) := Trimmed(units % SCALE, 6);
      Plain(units / SCALE) + "." + Padded(fraction, precision)
  }

  /** Drops trailing zero digits, keeping at least one digit. */
  function Trimmed(fraction: nat, precision: nat): (r: (nat, nat))
    requires precision >= 1
    ensures 1 <= r.1 <= precision
    ensures fraction == r.0 * Pow10(precision - r.1)
    ensures r.0 % 10 != 0 || r.1 == 1
    ensures fraction < Pow10(precision) ==> r.0 < Pow10(r.1)
  {
    if fraction % 10 == 0 && precision > 1 then
      var r := Trimmed(fraction / 10, precision - 1);
      assert fraction == 10 * (fraction / 10);
      assert 10 * (r.0 * Pow10(precision - 1 - r.1)) == r.0 * Pow10(precision - r.1);
      r
    else (fraction, precision)
  }

  /** The display loop: at most five zeros are dropped. */
  method Display(units: nat) returns (text: string)
    requires units < U64_LIMIT
    ensures text == DisplayDecimal(units)
  {
    var whole := units / SCALE;
    var fraction: nat := units % SCALE;
    if fraction == 0 {
      return Plain(whole);
    }
    var precision := 6;
    for dropped := 0 to 5
      invariant precision == 6 - dropped
      invariant Trimmed(units % SCALE, 6) == Trimmed(fraction, precision)
    {
      if fraction % 10 != 0 {
        break;
      }
      fraction := fraction / 10;
      precision := precision - 1;
    }
    text := Plain(whole) + "." + Padded(fraction, precision);
  }

  lemma DigitsHaveNoPoint(s: string)
    requires AllDigits(s)
    ensures FirstIndex(s, '.').None?
  {
  }

  lemma WholeFits(units: nat)
    requires units < U64_LIMIT
    ensures |Plain(units / SCALE)| <= 20
  {
    assert Pow10(5) == 100_000 by { assert Pow10(2) == 100; }
    assert Pow10(10) == 10_000_000_000 by { assert Pow10(7) == 10_000_000; }
    assert Pow10(15) == 1_000_000_000_000_000 by { assert Pow10(12) == 1_000_000_000_000; }
    assert Pow10(20) == 100_000_000_000_000_000_000 by { assert Pow10(17) == 100_000_000_000_000_000; }
    PlainLength(units / SCALE, 20);
  }

  /** Parsing a displayed decimal returns it. */
  lemma DecimalRoundTrip(units: nat)
    requires units < U64_LIMIT
    ensures ParseDecimal(DisplayDecimal(units)) == Units(units)
  {
    var whole, fraction := Plain(units / SCALE), units % SCALE;
    WholeFits(units);
    PlainHasValue(units / SCALE);
    if fraction == 0 {
      DigitsHaveNoPoint(whole);
      assert Value("") == 0;
    } else {
      SixDigits();
      var (digits, precision) := Trimmed(fraction, 6);
      var tail := Padded(digits, precision);
      PaddedHasValue(digits, precision);
      ParsePointed(whole, tail);
      hide Combine, ParseDecimal, Plain, Padded, Trimmed;
      assert Value(tail) * Pow10(6 - |tail|) == fraction;
      CombineIs(whole, tail, units);
    }
  }

  lemma CombineIs(whole: string, fraction: string, units: nat)
    requires AllDigits(whole) && AllDigits(fraction) && |fraction| <= 6 && units < U64_LIMIT
    requires Value(whole) == units / SCALE && Value(fraction) * Pow10(6 - |fraction|) == units % SCALE
    ensures Combine(whole, fraction) == Units(units)
  {
  }

  /** The point splits the text into its two parts. */
  lemma ParsePointed(whole: string, fraction: string)
    requires AllDigits(whole) && AllDigits(fraction) && 1 <= |fraction| <= 6 && |whole| <= 20
    ensures ParseDecimal(whole + "." + fraction) == Combine(whole, fraction)
  {
    hide Combine, Value;
    var text := whole + "." + fraction;
    FirstIndexOf(whole, '.', fraction);
    assert text == whole + ['.'] + fraction;
    assert text[..|whole|] == whole && text[|whole| + 1..] == fraction;
  }

  /** Different decimals never display alike. */
  lemma DisplayIsInjective(a: nat, b: nat)
    requires a < U64_LIMIT && b < U64_LIMIT && DisplayDecimal(a) == DisplayDecimal(b)
    ensures a == b
  {
    DecimalRoundTrip(a);
    DecimalRoundTrip(b);
  }

  // ---------------------------------------------------------------- no rendering is shorter

  lemma {:induction false} ValueFits(s: string)
    requires AllDigits(s)
    ensures Value(s) < Pow10(|s|)
  {
    if s != "" { ValueFits(s[..|s| - 1]); }
  }

  lemma {:induction false} PowersAdd(a: nat, b: nat)
    ensures Pow10(a + b) == Pow10(a) * Pow10(b)
  {
    if a > 0 { PowersAdd(a - 1, b); }
  }

  /** A fraction spelled with fewer digits ends in a zero when spelled with more. */
  lemma FewerDigitsEndInZero(n: nat, long: nat, m: nat, short: nat)
    requires short < long <= 6 && n * Pow10(6 - long) == m * Pow10(6 - short)
    ensures n % 10 == 0
  {
    PowersAdd(long - short, 6 - long);
    TenDivides(n, m, Pow10(long - short - 1), Pow10(6 - long));
  }

  lemma TenDivides(n: nat, m: nat, k: nat, unit: nat)
    requires unit >= 1 && n * unit == m * ((10 * k) * unit)
    ensures n % 10 == 0
  {
    var t := m * k;
    assert m * ((10 * k) * unit) == (10 * t) * unit;
    SameFactor(n, 10 * t, unit);
  }

  lemma SameFactor(a: nat, b: nat, unit: nat)
    requires unit >= 1 && a * unit == b * unit
    ensures a == b
  {
    assert (a - b) * unit == 0;
  }

  /** What a text with a leading digit was parsed from. */
  lemma ParsedParts(text: string, units: nat) returns (whole: string, fraction: string)
    requires ParseDecimal(text) == Units(units) && text[0] != '.'
    ensures whole != "" && AllDigits(whole) && AllDigits(fraction) && |fraction| <= 6
    ensures |text| == |whole| + (if fraction == "" then 0 else 1 + |fraction|)
    ensures units == Value(whole) * SCALE + Value(fraction) * Pow10(6 - |fraction|)
  {
    hide Value, Pow10;
    var point := FirstIndex(text, '.');
    whole := if point.Some? then text[..point.value] else text;
    fraction := if point.Some? then text[point.value + 1..] else "";
  }

  /** No other text that starts with a digit and parses to the same value is shorter. */
  lemma DisplayIsShortest(text: string, units: nat)
    requires ParseDecimal(text) == Units(units) && text[0] != '.'
    ensures |DisplayDecimal(units)| <= |text|
  {
    hide ParseDecimal, Plain, Padded, Trimmed;
    var whole, fraction := ParsedParts(text, units);
    PartsOf(whole, fraction, units);
    ValueFits(whole);
    PlainLength(Value(whole), |whole|);
    if units % SCALE != 0 {
      var (digits, precision) := Trimmed(units % SCALE, 6);
      if |fraction| < precision {
        FewerDigitsEndInZero(digits, precision, Value(fraction), |fraction|);
      }
    }
  }

  lemma PartsOf(whole: string, fraction: string, units: nat)
    requires AllDigits(whole) && AllDigits(fraction) && |fraction| <= 6
    requires units == Value(whole) * SCALE + Value(fraction) * Pow10(6 - |fraction|)
    ensures units / SCALE == Value(whole) && units % SCALE == Value(fraction) * Pow10(6 - |fraction|)
    ensures fraction == "" ==> units % SCALE == 0
  {
    hide Value, Pow10;
    ValueFits(fraction);
    PowersAdd(|fraction|, 6 - |fraction|);
    SixDigits();
    Scaled(Value(fraction), Pow10(|fraction|), Pow10(6 - |fraction|));
    if fraction == "" { NoDigits(); }
    WholeAndRest(Value(whole), Value(fraction) * Pow10(6 - |fraction|));
  }

  lemma SixDigits()
    ensures Pow10(6) == SCALE
  {
    assert Pow10(3) == 1000;
  }

  lemma NoDigits()
    ensures Value("") == 0
  {
  }

  lemma WholeAndRest(whole: nat, rest: nat)
    requires rest < SCALE
    ensures (whole * SCALE + rest) / SCALE == whole && (whole * SCALE + rest) % SCALE == rest
  {
  }

  lemma Scaled(v: nat, limit: nat, unit: nat)
    requires v < limit && unit >= 1
    ensures v * unit < limit * unit
  {
  }

  // ---------------------------------------------------------------- what is parsed

  /** Plain notation: digits, or digits, a point and at most six more; the digits before a point may be missing. */
  ghost predicate Spells(text: string, whole: string, fraction: string) {
    && AllDigits(whole) && AllDigits(fraction) && |fraction| <= 6
    && if fraction == "" then whole != "" && text == whole else text == whole + "." + fraction
  }

  ghost function Millionths(whole: string, fraction: string): nat
    requires AllDigits(whole) && AllDigits(fraction) && |fraction| <= 6
  {
    Value(whole) * 1_000_000 + Value(fraction) * Pow10(6 - |fraction|)
  }

  lemma SpelledParts(text: string, whole: string, fraction: string)
    requires Spells(text, whole, fraction) && |text| <= 27
    ensures ParseDecimal(text) == Combine(whole, fraction)
  {
    hide Combine, Value;
    if fraction == "" {
      DigitsHaveNoPoint(whole);
    } else {
      FirstIndexOf(whole, '.', fraction);
      assert text == whole + ['.'] + fraction;
      assert text[..|whole|] == whole && text[|whole| + 1..] == fraction;
    }
  }

  /** A text parses exactly when it is plain notation of at most 27 bytes whose millionths fit 64 bits. */
  lemma ParsesExactly(text: string, units: nat)
    ensures ParseDecimal(text) == Units(units) <==>
      && |text| <= 27 && units < 0x1_0000_0000_0000_0000
      && exists whole, fraction :: Spells(text, whole, fraction) && units == Millionths(whole, fraction)
  {
    hide Value, Pow10;
    if ParseDecimal(text) == Units(units) {
      var point := FirstIndex(text, '.');
      var whole := if point.Some? then text[..point.value] else text;
      var fraction := if point.Some? then text[point.value + 1..] else "";
      if point.Some? {
        assert text == whole + "." + fraction;
      }
      assert Spells(text, whole, fraction) && units == Millionths(whole, fraction);
    } else if |text| <= 27 && units < 0x1_0000_0000_0000_0000 {
      forall whole, fraction | Spells(text, whole, fraction) ensures units != Millionths(whole, fraction) {
        SpelledParts(text, whole, fraction);
      }
    }
  }
}
