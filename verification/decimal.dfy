/** Decimal text of integers, as a JavaScript template literal renders a
    whole number (`${n}`): an optional minus sign followed by the digits,
    without leading zeros. */
module Decimal {

  predicate IsDigit(c: char) {
    '0' <= c <= '9'
  }

  function DigitChar(d: nat): (c: char)
    requires d < 10
    ensures IsDigit(c)
    ensures DigitValue(c) == d
  {
    ['0', '1', '2', '3', '4', '5', '6', '7', '8', '9'][d]
  }

  function DigitValue(c: char): nat
    requires IsDigit(c)
  {
    (c as int - '0' as int) as nat
  }

  /** The digits of a natural number, most significant first. */
  function NatText(n: nat): (s: string)
    ensures |s| >= 1
    ensures forall i | 0 <= i < |s| :: IsDigit(s[i])
    ensures s[0] == '0' ==> n == 0 && |s| == 1
    decreases n
  {
    if n < 10 then [DigitChar(n)] else NatText(n / 10) + [DigitChar(n % 10)]
  }

  /** `${n}` for a whole number n. */
  function IntText(n: int): (s: string)
    ensures |s| >= 1
    ensures s[0] == '-' <==> n < 0
  {
    if n < 0 then "-" + NatText(-n) else NatText(n)
  }

  /** Reads back a string of digits, most significant first. */
  function ParseNat(s: string): nat
    requires forall i | 0 <= i < |s| :: IsDigit(s[i])
    decreases |s|
  {
    if s == [] then 0 else ParseNat(s[..|s| - 1]) * 10 + DigitValue(s[|s| - 1])
  }

  /** Reads back an optionally signed string of digits. */
  function ParseInt(s: string): int
    requires |s| >= 1
    requires s[0] == '-' ==> |s| >= 2
    requires forall i | (if s[0] == '-' then 1 else 0) <= i < |s| :: IsDigit(s[i])
  {
    if s[0] == '-' then -(ParseNat(s[1..]) as int) else ParseNat(s)
  }

  lemma {:induction false} NatTextRoundTrip(n: nat)
    ensures ParseNat(NatText(n)) == n
    decreases n
  {
    if n >= 10 {
      var s := NatText(n);
      NatTextRoundTrip(n / 10);
      assert s[..|s| - 1] == NatText(n / 10);
    }
  }

  /** The rendered text of a whole number determines the number. */
  lemma {:induction false} IntTextRoundTrip(n: int)
    ensures var s := IntText(n);
      (s[0] == '-' ==> |s| >= 2) &&
      (forall i | (if s[0] == '-' then 1 else 0) <= i < |s| :: IsDigit(s[i])) &&
      ParseInt(s) == n
  {
    var s := IntText(n);
    if n < 0 {
      NatTextRoundTrip(-n);
      assert s[1..] == NatText(-n);
    } else {
      NatTextRoundTrip(n);
    }
  }

  /** Distinct numbers never render to the same text. */
  lemma IntTextInjective(a: int, b: int)
    ensures IntText(a) == IntText(b) ==> a == b
  {
    IntTextRoundTrip(a);
    IntTextRoundTrip(b);
  }
}
