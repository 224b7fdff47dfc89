/**
 * Formatting of non-negative integers with ASCII digits, as the client uses
 * it (only the amount's format names the invariant culture; the others use
 * the current one, which prints the same digits): `int.ToString()`, the custom format `"000"` and, for an amount held as
 * integer cents, the custom format `"0.00"`.  Each formatter has a parser
 * beside it and a lemma that parsing undoes formatting.
 */
module Numbers {
  import opened Wrappers
  import opened Text

  predicate IsDigit(c: char) {
    '0' <= c <= '9'
  }

  predicate AllDigits(s: string) {
    forall i :: 0 <= i < |s| ==> IsDigit(s[i])
  }

  function DigitChar(d: nat): (c: char)
    requires d < 10
    ensures IsDigit(c) && c as int - '0' as int == d
  {
    ('0' as int + d) as char
  }

  /** The value of a string of decimal digits (leading zeros allowed; "" is 0). */
  function DigitsValue(s: string): nat
    requires AllDigits(s)
  {
    if |s| == 0 then 0
    else DigitsValue(s[..|s| - 1]) * 10 + (s[|s| - 1] as int - '0' as int)
  }

  /** Reads a non-empty string of decimal digits; anything else is rejected. */
  function ParseNat(s: string): Option<nat>
  {
    if |s| > 0 && AllDigits(s) then Some(DigitsValue(s)) else None
  }

  /** `int.ToString()` of a non-negative value: decimal, no sign, no leading zero. */
  function NatToString(n: nat): (s: AsciiString)
    ensures |s| > 0 && AllDigits(s)
    ensures |s| > 1 ==> s[0] != '0'
  {
    if n < 10 then [DigitChar(n)] else NatToString(n / 10) + [DigitChar(n % 10)]
  }

  /** Left-pads with '0' up to `width` characters (never truncates). */
  function ZeroPad(s: AsciiString, width: nat): (r: AsciiString)
    ensures |r| == if |s| < width then width else |s|
    ensures r[|r| - |s|..] == s
    ensures |r| > |s| ==> r[0] == '0'
    decreases width - |s|
  {
    if |s| < width then ZeroPad(['0'] + s, width) else s
  }

  /** Custom numeric format `"000"` of a non-negative value. */
  function FormatThreeDigits(n: nat): AsciiString
  {
    ZeroPad(NatToString(n), 3)
  }

  /** Custom numeric format `"0.00"` applied to `cents / 100`: the whole
      units, a '.', then exactly two digits of cents. */
  function FormatCents(cents: nat): AsciiString
  {
    var units := NatToString(cents / 100);
    var fraction := ZeroPad(NatToString(cents % 100), 2);
    AsciiAppend(units, ".");
    AsciiAppend(units + ".", fraction);
    units + "." + fraction
  }

  /** Reads `<digits>.<two digits>` back into cents. */
  function ParseCents(s: string): Option<nat>
  {
    if |s| >= 4 && s[|s| - 3] == '.' then
      match (ParseNat(s[..|s| - 3]), ParseNat(s[|s| - 2..]))
      case (Some(units), Some(fraction)) => Some(units * 100 + fraction)
      case _ => None
    else None
  }

  // ---------------------------------------------------------------------------
  // Properties
  // ---------------------------------------------------------------------------

  /** Reading back what `NatToString` wrote gives the number. */
  lemma {:induction false} ParseNatToString(n: nat)
    ensures ParseNat(NatToString(n)) == Some(n)
  {
    var s := NatToString(n);
    if n >= 10 {
      ParseNatToString(n / 10);
      assert s[..|s| - 1] == NatToString(n / 10);
      assert DigitsValue(s) == (n / 10) * 10 + n % 10;
    } else {
      assert s[..|s| - 1] == "";
    }
  }

  /** A leading zero does not change the value of a digit string. */
  lemma {:induction false} DigitsValueLeadingZero(s: string)
    requires AllDigits(s)
    ensures AllDigits(['0'] + s) && DigitsValue(['0'] + s) == DigitsValue(s)
  {
    var z := ['0'] + s;
    if |s| > 0 {
      assert z[..|z| - 1] == ['0'] + s[..|s| - 1];
      DigitsValueLeadingZero(s[..|s| - 1]);
    }
  }

  lemma {:induction false} ZeroPadValue(s: AsciiString, width: nat)
    requires AllDigits(s)
    ensures AllDigits(ZeroPad(s, width)) && DigitsValue(ZeroPad(s, width)) == DigitsValue(s)
    decreases width - |s|
  {
    if |s| < width {
      DigitsValueLeadingZero(s);
      ZeroPadValue(['0'] + s, width);
    }
  }

  lemma NatToStringShort(n: nat)
    ensures n < 10 ==> |NatToString(n)| == 1
    ensures n < 100 ==> |NatToString(n)| <= 2
    ensures n < 1000 ==> |NatToString(n)| <= 3
  {
    if n >= 10 {
      assert |NatToString(n)| == |NatToString(n / 10)| + 1;
      if n >= 100 {
        assert |NatToString(n / 10)| == |NatToString(n / 100)| + 1;
      }
    }
  }

  /** `"000"` of a currency code in 1..999 is exactly three digits that read back as the code. */
  lemma ThreeDigitsRoundTrip(n: nat)
    requires 0 < n <= 999
    ensures |FormatThreeDigits(n)| == 3 && AllDigits(FormatThreeDigits(n))
    ensures ParseNat(FormatThreeDigits(n)) == Some(n)
  {
    NatToStringShort(n);
    ParseNatToString(n);
    ZeroPadValue(NatToString(n), 3);
  }

  /** Digits, '.', two digits: one '.', three characters from the end. */
  lemma UnitsFractionShape(units: string, fraction: string)
    requires |units| > 0 && AllDigits(units) && |fraction| == 2 && AllDigits(fraction)
    ensures var s := units + "." + fraction;
      Count(s, '.') == 1 && |s| >= 4 && s[|s| - 3] == '.'
      && s[..|s| - 3] == units && s[|s| - 2..] == fraction
  {
    var s := units + "." + fraction;
    assert '.' !in units && '.' !in fraction;
    assert s == units + ("." + fraction);
    CountAppend(units, "." + fraction, '.');
    CountAppend(".", fraction, '.');
    assert "."[1..] == "";
    assert s[..|s| - 3] == units;
    assert s[|s| - 2..] == fraction;
  }

  /** `"0.00"` output: digits, exactly one '.', exactly two digits after it. */
  lemma FormatCentsShape(cents: nat)
    ensures var s := FormatCents(cents);
      Count(s, '.') == 1 && |s| >= 4 && s[|s| - 3] == '.'
      && AllDigits(s[..|s| - 3]) && AllDigits(s[|s| - 2..])
  {
    var units := NatToString(cents / 100);
    var fraction := ZeroPad(NatToString(cents % 100), 2);
    FractionRoundTrip(cents % 100);
    assert FormatCents(cents) == units + "." + fraction;
    UnitsFractionShape(units, fraction);
  }

  /** The two-digit cents part: exactly two digits reading back as the value. */
  lemma FractionRoundTrip(n: nat)
    requires n < 100
    ensures var f := ZeroPad(NatToString(n), 2);
      |f| == 2 && AllDigits(f) && ParseNat(f) == Some(n)
  {
    NatToStringShort(n);
    ParseNatToString(n);
    ZeroPadValue(NatToString(n), 2);
  }

  /** `ParseCents` of units, '.', and two digits reads the two parts. */
  lemma ParseCentsOf(units: string, fraction: string, u: nat, f: nat)
    requires |fraction| == 2 && ParseNat(units) == Some(u) && ParseNat(fraction) == Some(f)
    ensures ParseCents(units + "." + fraction) == Some(u * 100 + f)
  {
    var s := units + "." + fraction;
    assert s[..|s| - 3] == units;
    assert s[|s| - 2..] == fraction;
  }

  lemma DivMod100(n: nat)
    ensures (n / 100) * 100 + n % 100 == n
  {
  }

  /** Units and a two-digit fraction, written as `FormatCents` writes them, read back. */
  lemma UnitsFractionRoundTrip(units: nat, fraction: nat)
    requires fraction < 100
    ensures ParseCents(NatToString(units) + "." + ZeroPad(NatToString(fraction), 2)) == Some(units * 100 + fraction)
  {
    ParseNatToString(units);
    FractionRoundTrip(fraction);
    ParseCentsOf(NatToString(units), ZeroPad(NatToString(fraction), 2), units, fraction);
  }

  /** Reading back what `FormatCents` wrote gives the amount. */
  lemma FormatCentsRoundTrip(cents: nat)
    ensures ParseCents(FormatCents(cents)) == Some(cents)
  {
    assert FormatCents(cents) == NatToString(cents / 100) + "." + ZeroPad(NatToString(cents % 100), 2);
    UnitsFractionRoundTrip(cents / 100, cents % 100);
    DivMod100(cents);
  }
}
