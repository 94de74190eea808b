/** The decimal text JavaScript produces when a whole number below 10^21 in
    magnitude is joined to a string (`"Nenhum produto foi encontrado com o
    ID: " + id_product`), and the parse that undoes it, so that an error
    message is known to name exactly the id it was built from. From 10^21 on
    JavaScript switches to exponent form, which is not modelled. */
module Decimal {

  /** The character of one decimal digit. */
  function DigitChar(d: nat): (c: char)
    requires d < 10
    ensures '0' <= c <= '9'
  {
    ('0' as int + d) as char
  }

  /** The digit a character stands for. */
  function CharDigit(c: char): (d: nat)
    requires '0' <= c <= '9'
    ensures d < 10
    ensures DigitChar(d) == c
  {
    c as int - '0' as int
  }

  predicate IsDigits(s: string)
  {
    forall i :: 0 <= i < |s| ==> '0' <= s[i] <= '9'
  }

  /** Decimal digits of `n`, most significant first, with no leading zero. */
  function NatToDecimal(n: nat): (s: string)
    ensures |s| >= 1 && IsDigits(s)
    ensures |s| > 1 ==> s[0] != '0'
    decreases n
  {
    if n < 10 then [DigitChar(n)]
    else NatToDecimal(n / 10) + [DigitChar(n % 10)]
  }

  /** `String(n)` for a whole number `n`: a minus sign before negatives. */
  function IntToDecimal(n: int): (s: string)
    ensures |s| >= 1
    ensures n < 0 <==> s[0] == '-'
  {
    if n < 0 then "-" + NatToDecimal(-n) else NatToDecimal(n)
  }

  /** The value of a string of decimal digits. */
  function DigitsValue(s: string): (n: nat)
    requires IsDigits(s)
    decreases |s|
  {
    if |s| == 0 then 0
    else DigitsValue(s[..|s| - 1]) * 10 + CharDigit(s[|s| - 1])
  }

  /** The value of the text `IntToDecimal` writes. */
  function DecimalValue(s: string): int
  {
    if |s| >= 1 && s[0] == '-' && IsDigits(s[1..]) then -(DigitsValue(s[1..]) as int)
    else if IsDigits(s) then DigitsValue(s)
    else 0
  }

  lemma {:induction false} NatRoundTrip(n: nat)
    ensures DigitsValue(NatToDecimal(n)) == n
    decreases n
  {
    var s := NatToDecimal(n);
    if n >= 10 {
      NatRoundTrip(n / 10);
      assert s[..|s| - 1] == NatToDecimal(n / 10);
      assert CharDigit(s[|s| - 1]) == n % 10;
    } else {
      assert CharDigit(s[0]) == n;
    }
  }

  /** Reading the text back gives the number it was written from. */
  lemma IntRoundTrip(n: int)
    ensures DecimalValue(IntToDecimal(n)) == n
  {
    var s := IntToDecimal(n);
    if n < 0 {
      NatRoundTrip(-n);
      assert s[1..] == NatToDecimal(-n);
    } else {
      NatRoundTrip(n);
    }
  }

  /** Different numbers are written as different texts. */
  lemma IntToDecimalInjective(a: int, b: int)
    requires IntToDecimal(a) == IntToDecimal(b)
    ensures a == b
  {
    IntRoundTrip(a);
    IntRoundTrip(b);
  }

  /** A message ending in a number names exactly that number: two messages
      built from one prefix and two numbers are equal only when the numbers
      are. */
  lemma SuffixDeterminesNumber(prefix: string, a: int, b: int)
    requires prefix + IntToDecimal(a) == prefix + IntToDecimal(b)
    ensures a == b
  {
    assert IntToDecimal(a) == (prefix + IntToDecimal(a))[|prefix|..];
    assert IntToDecimal(b) == (prefix + IntToDecimal(b))[|prefix|..];
    IntToDecimalInjective(a, b);
  }
}
