/** Go's `%d` rendering of an integer (used for the millisecond timestamp of
    every exposition line), with the parser that reads it back. */
module Decimal {

  predicate IsDigit(c: char) {
    '0' <= c <= '9'
  }

  predicate AllDigits(s: string) {
    forall i :: 0 <= i < |s| ==> IsDigit(s[i])
  }

  function DigitChar(d: nat): (c: char)
    requires d < 10
    ensures IsDigit(c) && c as int - '0' as int == d
  {
    ('0' as int + d) as char
  }

  /** Base-10 digits of `n`, most significant first, without leading zeros. */
  function NatDigits(n: nat): (s: string)
    ensures |s| > 0 && AllDigits(s)
    ensures |s| > 1 ==> s[0] != '0'
    decreases n
  {
    if n < 10 then [DigitChar(n)] else NatDigits(n / 10) + [DigitChar(n % 10)]
  }

  /** `fmt.Sprintf("%d", n)`: a minus sign for negative numbers, then the digits. */
  function DecimalString(n: int): (s: string)
    ensures |s| > 0 && '\n' !in s && ' ' !in s
  {
    if n < 0 then "-" + NatDigits(-n) else NatDigits(n)
  }

  /** Value of a string of digits. */
  function ParseNat(s: string): nat
    requires AllDigits(s)
    decreases |s|
  {
    if s == [] then 0
    else ParseNat(s[..|s| - 1]) * 10 + (s[|s| - 1] as int - '0' as int)
  }

  /** Reads an optionally signed decimal integer back. */
  function ParseDecimal(s: string): int
    requires |s| > 0
    requires AllDigits(if s[0] == '-' then s[1..] else s)
  {
    if s[0] == '-' then -(ParseNat(s[1..]) as int) else ParseNat(s)
  }

  lemma {:induction false} ParseNatDigits(n: nat)
    ensures ParseNat(NatDigits(n)) == n
    decreases n
  {
    if n >= 10 {
      var s := NatDigits(n);
      assert s[..|s| - 1] == NatDigits(n / 10);
      ParseNatDigits(n / 10);
    }
  }

  /** Rendering then parsing gives the number back: distinct timestamps render
      to distinct texts. */
  lemma DecimalRoundTrip(n: int)
    ensures var s := DecimalString(n);
      AllDigits(if s[0] == '-' then s[1..] else s) && ParseDecimal(s) == n
  {
    var s := DecimalString(n);
    if n < 0 {
      assert s[1..] == NatDigits(-n);
      ParseNatDigits(-n);
    } else {
      ParseNatDigits(n);
    }
  }
}
