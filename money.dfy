/**
 * Decimal text for integers and for prices kept as integer hundredths.
 * A price column is a decimal with two decimal places; the database layer
 * hands it back quantized to two places, so its text form always ends in
 * a point and two digits ("10.99", "10.00", "-0.50").
 */
module Money {
  import opened Options

  predicate IsDigit(c: char) {
    '0' <= c <= '9'
  }

  predicate AllDigits(s: string) {
    forall i :: 0 <= i < |s| ==> IsDigit(s[i])
  }

  function DigitChar(d: int): (c: char)
    requires 0 <= d < 10
    ensures IsDigit(c)
  {
    (48 + d) as char
  }

  function DigitValue(c: char): (d: nat)
    requires IsDigit(c)
    ensures d < 10
  {
    c as int - 48
  }

  /** The decimal text of a non-negative integer, as Python's str(int) gives it. */
  function NatToString(n: nat): (s: string)
    ensures |s| >= 1 && AllDigits(s)
    ensures |s| == 1 || s[0] != '0'
    decreases n
  {
    if n < 10 then [DigitChar(n)] else NatToString(n / 10) + [DigitChar(n % 10)]
  }

  /** The value of a string of decimal digits (the empty string reads as 0). */
  function DigitsValue(s: string): nat
    requires AllDigits(s)
    decreases |s|
  {
    if s == [] then 0 else DigitsValue(s[..|s| - 1]) * 10 + DigitValue(s[|s| - 1])
  }

  lemma {:induction false} DigitsRoundTrip(n: nat)
    ensures DigitsValue(NatToString(n)) == n
    decreases n
  {
    if n >= 10 {
      DigitsRoundTrip(n / 10);
      var s := NatToString(n);
      assert s[..|s| - 1] == NatToString(n / 10);
    }
  }

  /** Text of a non-negative two-place decimal given in hundredths: the whole
      part, a point, exactly two fraction digits. */
  function RenderUnsignedCents(m: nat): string {
    NatToString(m / 100) + "." + [DigitChar(m % 100 / 10), DigitChar(m % 10)]
  }

  /** Text of a two-place decimal given in hundredths, with a leading minus
      sign when it is negative. */
  function RenderCents(c: int): string {
    if c < 0 then "-" + RenderUnsignedCents(-c) else RenderUnsignedCents(c)
  }

  /** A price's text has at least four characters, a point before exactly two
      digits, and a leading minus sign exactly when the price is negative. */
  lemma RenderCentsShape(c: int)
    ensures var r := RenderCents(c);
            && |r| >= 4
            && r[|r| - 3] == '.' && IsDigit(r[|r| - 2]) && IsDigit(r[|r| - 1])
            && (r[0] == '-' <==> c < 0)
  {
    var m := if c < 0 then -c else c;
    assert IsDigit(NatToString(m / 100)[0]);
  }

  /** Reads "<digits>", "<digits>.<d>" or "<digits>.<d><d>" as hundredths. */
  function ParseUnsignedCents(s: string): Option<nat> {
    if |s| >= 4 && s[|s| - 3] == '.' && AllDigits(s[..|s| - 3]) && AllDigits(s[|s| - 2..]) then
      Some(DigitsValue(s[..|s| - 3]) * 100 + DigitsValue(s[|s| - 2..]))
    else if |s| >= 3 && s[|s| - 2] == '.' && AllDigits(s[..|s| - 2]) && IsDigit(s[|s| - 1]) then
      Some(DigitsValue(s[..|s| - 2]) * 100 + DigitValue(s[|s| - 1]) * 10)
    else if |s| >= 1 && AllDigits(s) then
      Some(DigitsValue(s) * 100)
    else
      None
  }

  /** Reads a decimal string with at most two fraction digits, with an optional
      leading minus sign, as hundredths. */
  function ParseCents(s: string): Option<int> {
    var negative := |s| >= 1 && s[0] == '-';
    var magnitude := ParseUnsignedCents(if negative then s[1..] else s);
    if magnitude.None? then None
    else if negative then Some(0 - magnitude.value)
    else Some(magnitude.value)
  }

  lemma TwoDigitsValue(m: nat)
    ensures DigitsValue([DigitChar(m % 100 / 10), DigitChar(m % 10)]) == m % 100
  {
    var frac := [DigitChar(m % 100 / 10), DigitChar(m % 10)];
    assert frac[..1] == [frac[0]] && [frac[0]][..0] == [];
    assert DigitsValue(frac[..1]) == m % 100 / 10;
  }

  lemma UnsignedRoundTrip(m: nat)
    ensures ParseUnsignedCents(RenderUnsignedCents(m)) == Some(m)
  {
    var whole := NatToString(m / 100);
    var frac := [DigitChar(m % 100 / 10), DigitChar(m % 10)];
    var body := whole + "." + frac;
    DigitsRoundTrip(m / 100);
    TwoDigitsValue(m);
    assert body[..|body| - 3] == whole;
    assert body[|body| - 2..] == frac;
  }

  /** Reading back the text of a price gives the price. */
  lemma RenderParseRoundTrip(c: int)
    ensures ParseCents(RenderCents(c)) == Some(c)
  {
    if c < 0 {
      UnsignedRoundTrip(-c);
      assert ("-" + RenderUnsignedCents(-c))[1..] == RenderUnsignedCents(-c);
    } else {
      UnsignedRoundTrip(c);
      assert IsDigit(NatToString(c / 100)[0]);
      assert RenderUnsignedCents(c)[0] == NatToString(c / 100)[0];
    }
  }
}
