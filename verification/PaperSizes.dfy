/** Writing paper sizes as text: sizes are whole hundredths of a millimetre. */
module PaperSizes {
  import opened Outcomes
  import Text

  predicate IsDigit(c: char) {
    '0' <= c <= '9'
  }

  predicate IsNumeric(c: char) {
    IsDigit(c) || c == '.'
  }

  function DigitChar(d: nat): (c: char)
    requires d < 10
    ensures IsDigit(c) && c as int - '0' as int == d
  {
    ('0' as int + d) as char
  }

  function Digits(n: nat): (s: string)
    ensures s != "" && forall c :: c in s ==> IsDigit(c)
  {
    if n < 10 then [DigitChar(n)] else Digits(n / 10) + [DigitChar(n % 10)]
  }

  /** Millimetres with at most two decimals and no needless zeros. */
  function FormatMm(hundredths: int): string {
    if hundredths < 0 then "-" + FormatSize(-hundredths) else FormatSize(hundredths)
  }

  function FormatSize(hundredths: nat): string {
    if hundredths % 100 == 0 then Digits(hundredths / 100)
    else
      var twoDecimals := Digits(hundredths / 100) + "." + [DigitChar(hundredths % 100 / 10), DigitChar(hundredths % 10)];
      Text.TrimEnd(Text.TrimEnd(twoDecimals, c => c == '0'), c => c == '.')
  }

  function PaperName(width: int, height: int): string {
    FormatMm(width) + " x " + FormatMm(height) + " mm"
  }

  // -------------------------------------------------------------------------
  // Reading numbers back
  // -------------------------------------------------------------------------

  predicate AllDigits(s: string) {
    forall i :: 0 <= i < |s| ==> IsDigit(s[i])
  }

  function NatOf(s: string): nat
    requires AllDigits(s)
  {
    if s == "" then 0 else 10 * NatOf(s[..|s| - 1]) + (s[|s| - 1] as int - '0' as int)
  }

  function Pow10(k: nat): (p: real)
    ensures p > 0.0
  {
    if k == 0 then 1.0 else 10.0 * Pow10(k - 1)
  }

  /** The value of a decimal without sign or exponent: digits on at least one side of at most one point. */
  function ParseDecimal(s: string): (r: Option<real>)
    ensures r.Some? ==> r.value >= 0.0
  {
    var parts := Text.Split(s, '.');
    if |parts| == 1 then DecimalValue(parts[0], "")
    else if |parts| == 2 then DecimalValue(parts[0], parts[1])
    else None
  }

  function DecimalValue(whole: string, fraction: string): (r: Option<real>)
    ensures r.Some? ==> r.value >= 0.0
  {
    if (whole == "" && fraction == "") || !AllDigits(whole) || !AllDigits(fraction) then None
    else
      FractionIsNonNegative(fraction);
      Some(NatOf(whole) as real + NatOf(fraction) as real / Pow10(|fraction|))
  }

  lemma FractionIsNonNegative(fraction: string)
    requires AllDigits(fraction)
    ensures NatOf(fraction) as real / Pow10(|fraction|) >= 0.0
  {
    assert Pow10(|fraction|) > 0.0;
    QuotientIsNonNegative(NatOf(fraction) as real, Pow10(|fraction|));
  }

  lemma QuotientIsNonNegative(a: real, b: real)
    requires a >= 0.0 && b > 0.0
    ensures a / b >= 0.0
  {
    assert (a / b) * b == a;
  }

  lemma {:induction false} NatOfDigits(n: nat)
    ensures AllDigits(Digits(n)) && NatOf(Digits(n)) == n
  {
    assert forall i :: 0 <= i < |Digits(n)| ==> Digits(n)[i] in Digits(n);
    if n >= 10 {
      NatOfDigits(n / 10);
      assert Digits(n)[..|Digits(n)| - 1] == Digits(n / 10);
    }
  }

  /** The decimals of a formatted size: both, or the first when the second is a zero. */
  function Fraction(hundredths: nat): string
    requires hundredths % 100 != 0
  {
    var tens, ones := hundredths % 100 / 10, hundredths % 10;
    if ones == 0 then [DigitChar(tens)] else [DigitChar(tens), DigitChar(ones)]
  }

  /** Trimming removes at most one zero of the fraction and never reaches the integer digits. */
  lemma TrimmingKeepsInteger(hundredths: nat)
    requires hundredths % 100 != 0
    ensures FormatSize(hundredths) == Digits(hundredths / 100) + "." + Fraction(hundredths)
  {
    var zero, point := (c: char) => c == '0', (c: char) => c == '.';
    var tens, ones := hundredths % 100 / 10, hundredths % 10;
    var stem := Digits(hundredths / 100) + ".";
    var full := stem + [DigitChar(tens), DigitChar(ones)];
    if ones == 0 {
      assert full[..|full| - 1] == stem + [DigitChar(tens)];
    }
    var kept := stem + Fraction(hundredths);
    assert Text.TrimEnd(full, zero) == kept;
    assert Text.TrimEnd(kept, point) == kept;
  }

  ghost predicate Numeric(s: string) {
    forall i :: 0 <= i < |s| ==> IsNumeric(s[i])
  }

  /** The text of a size has no sign, no unit and no separator: digits and at most one point. */
  lemma FormatIsNumeric(hundredths: nat)
    ensures FormatSize(hundredths) != "" && Numeric(FormatSize(hundredths))
  {
    NatOfDigits(hundredths / 100);
    if hundredths % 100 != 0 { TrimmingKeepsInteger(hundredths); }
  }

  lemma DigitsOnly(s: string)
    requires AllDigits(s)
    ensures '.' !in s
  {
  }

  lemma WholeNumberParses(s: string)
    requires AllDigits(s) && s != ""
    ensures ParseDecimal(s) == Some(NatOf(s) as real)
  {
    DigitsOnly(s);
    Text.SplitWhole(s, '.');
    assert NatOf("") == 0 && Pow10(0) == 1.0;
  }

  lemma DecimalParses(whole: string, fraction: string)
    requires AllDigits(whole) && whole != "" && AllDigits(fraction)
    ensures ParseDecimal(whole + "." + fraction) == DecimalValue(whole, fraction)
  {
    DigitsOnly(whole);
    DigitsOnly(fraction);
    SplitAtPoint(whole, fraction);
  }

  lemma SplitAtPoint(whole: string, fraction: string)
    requires '.' !in whole && '.' !in fraction
    ensures Text.Split(whole + "." + fraction, '.') == [whole, fraction]
  {
    Text.SplitConcat(whole, fraction, '.');
    Text.SplitWhole(whole, '.');
    Text.SplitWhole(fraction, '.');
  }

  /** Reading the text of a size gives the size. */
  lemma FormatParses(hundredths: nat)
    ensures ParseDecimal(FormatSize(hundredths)) == Some(hundredths as real / 100.0)
  {
    var whole := Digits(hundredths / 100);
    NatOfDigits(hundredths / 100);
    if hundredths % 100 == 0 {
      WholeNumberParses(whole);
    } else {
      TrimmingKeepsInteger(hundredths);
      FractionValue(hundredths);
      DecimalParses(whole, Fraction(hundredths));
    }
  }

  lemma OneDigit(tens: nat)
    requires tens < 10
    ensures AllDigits([DigitChar(tens)]) && NatOf([DigitChar(tens)]) == tens
  {
    assert [DigitChar(tens)][..0] == "";
  }

  lemma TwoDigits(tens: nat, ones: nat)
    requires tens < 10 && ones < 10
    ensures var f := [DigitChar(tens), DigitChar(ones)];
            AllDigits(f) && NatOf(f) == 10 * tens + ones
  {
    var f := [DigitChar(tens), DigitChar(ones)];
    OneDigit(tens);
    assert f[..1] == [DigitChar(tens)];
  }

  lemma FractionValue(hundredths: nat)
    requires hundredths % 100 != 0
    ensures var f := Fraction(hundredths);
            AllDigits(f) && NatOf(f) as real / Pow10(|f|) == (hundredths % 100) as real / 100.0
  {
    var tens, ones := hundredths % 100 / 10, hundredths % 10;
    assert hundredths % 100 == 10 * tens + ones;
    assert Pow10(1) == 10.0 && Pow10(2) == 100.0;
    if ones == 0 { OneDigit(tens); } else { TwoDigits(tens, ones); }
  }
}
