/** Decimal digit strings: the `[0-9]+` captures read by `parseResult`
    and the `%d` rendering used to build the `ir_send` command. */
module Decimal {

  predicate IsDigit(c: char) {
    '0' <= c <= '9'
  }

  predicate AllDigits(s: string) {
    forall i :: 0 <= i < |s| ==> IsDigit(s[i])
  }

  /** A digit string without a superfluous leading zero. */
  predicate Canonical(s: string) {
    |s| >= 1 && AllDigits(s) && (s[0] != '0' || |s| == 1)
  }

  function DigitValue(c: char): (d: nat)
    requires IsDigit(c)
    ensures d < 10
  {
    (c as int) - ('0' as int)
  }

  function DigitChar(d: nat): (c: char)
    requires d < 10
    ensures IsDigit(c) && DigitValue(c) == d
  {
    (('0' as int) + d) as char
  }

  /** The number a digit string denotes, read most significant digit first. */
  function DecimalValue(s: string): nat
    requires AllDigits(s)
  {
    if |s| == 0 then 0
    else DecimalValue(s[..|s| - 1]) * 10 + DigitValue(s[|s| - 1])
  }

  /** The shortest decimal rendering of `n`, as Go's `%d` writes a
      non-negative integer. */
  function NatToDecimal(n: nat): (s: string)
    ensures Canonical(s)
  {
    if n < 10 then [DigitChar(n)]
    else NatToDecimal(n / 10) + [DigitChar(n % 10)]
  }

  /** Go's `%d` for a signed integer: a minus sign before the magnitude
      when negative. */
  function FormatInt(i: int): (s: string)
    ensures |s| >= 1
    ensures i < 0 ==> s[0] == '-' && AllDigits(s[1..])
    ensures i >= 0 ==> AllDigits(s)
  {
    if i < 0 then "-" + NatToDecimal(-i) else NatToDecimal(i)
  }

  /** Reading back a rendered number gives the number. */
  lemma {:induction false} DecimalOfRendering(n: nat)
    ensures DecimalValue(NatToDecimal(n)) == n
  {
    if n >= 10 {
      DecimalOfRendering(n / 10);
      var s := NatToDecimal(n);
      assert s[..|s| - 1] == NatToDecimal(n / 10);
    }
  }

  /** A digit string is at least as large as its leading digit. */
  lemma {:induction false} LeadingDigitBound(s: string)
    requires |s| >= 1 && AllDigits(s)
    ensures DecimalValue(s) >= DigitValue(s[0])
    decreases |s|
  {
    if |s| > 1 {
      LeadingDigitBound(s[..|s| - 1]);
    }
  }

  /** Rendering the value of a canonical digit string gives the string back. */
  lemma {:induction false} RenderingOfDecimal(s: string)
    requires Canonical(s)
    ensures NatToDecimal(DecimalValue(s)) == s
    decreases |s|
  {
    if |s| > 1 {
      var init := s[..|s| - 1];
      assert Canonical(init);
      LeadingDigitBound(init);
      RenderingOfDecimal(init);
      var n := DecimalValue(s);
      assert n / 10 == DecimalValue(init) && n % 10 == DigitValue(s[|s| - 1]);
      assert s == init + [s[|s| - 1]];
    }
  }

  /** `%d` writes a sign exactly for negative numbers, followed by a
      canonical rendering of the magnitude. */
  lemma FormatIntRoundTrip(i: int)
    ensures var s := FormatInt(i);
      && |s| >= 1
      && (s[0] == '-' <==> i < 0)
      && var digits := if i < 0 then s[1..] else s;
      && Canonical(digits)
      && DecimalValue(digits) == (if i < 0 then -i else i)
  {
    var s := FormatInt(i);
    if i < 0 {
      assert s[1..] == NatToDecimal(-i);
      DecimalOfRendering(-i);
    } else {
      assert IsDigit(s[0]);
      DecimalOfRendering(i);
    }
  }
}
