/**
 Long.toString, which the service uses when it puts a song or melody id into
 a not-found message, and its inverse: the message text identifies the id.
 */
module Decimal {

  predicate IsDigit(c: char) {
    '0' <= c <= '9'
  }

  function DigitChar(d: int): (c: char)
    requires 0 <= d < 10
    ensures IsDigit(c) && c as int - '0' as int == d
  {
    ('0' as int + d) as char
  }

  function DigitValue(c: char): (d: nat)
    requires IsDigit(c)
    ensures d < 10 && DigitChar(d) == c
  {
    c as int - '0' as int
  }

  /** The decimal digits of n, most significant first, without leading zeros. */
  function Digits(n: nat): (r: string)
    ensures |r| >= 1
    ensures forall i :: 0 <= i < |r| ==> IsDigit(r[i])
    ensures r[0] == '0' ==> n == 0
  {
    if n < 10 then [DigitChar(n)] else Digits(n / 10) + [DigitChar(n % 10)]
  }

  /** The value of a string of decimal digits. */
  function ParseDigits(s: string): nat
    requires forall i :: 0 <= i < |s| ==> IsDigit(s[i])
  {
    if s == [] then 0
    else 10 * ParseDigits(s[..|s| - 1]) + DigitValue(s[|s| - 1])
  }

  lemma {:induction false} DigitsRoundTrip(n: nat)
    ensures ParseDigits(Digits(n)) == n
  {
    if n >= 10 {
      var r := Digits(n);
      assert r[..|r| - 1] == Digits(n / 10);
      DigitsRoundTrip(n / 10);
    }
  }

  /** The shape Long.toString produces: an optional minus sign, then digits. */
  predicate IsLongText(s: string) {
    && |s| >= 1
    && (s[0] == '-' || IsDigit(s[0]))
    && (forall i :: 0 < i < |s| ==> IsDigit(s[i]))
  }

  /** Long.toString: a minus sign before the digits of a negative value. */
  function LongToString(n: int): (r: string)
    ensures IsLongText(r)
    ensures r[0] == '-' <==> n < 0
    ensures n >= 0 ==> |r| >= 1 && IsDigit(r[0]) && (r[0] == '0' ==> r == "0")
  {
    if n < 0 then "-" + Digits(-n) else Digits(n)
  }

  function ParseLong(s: string): int
    requires IsLongText(s)
  {
    if s[0] == '-' then -(ParseDigits(s[1..]) as int) else ParseDigits(s)
  }

  lemma LongToStringRoundTrip(n: int)
    ensures IsLongText(LongToString(n)) && ParseLong(LongToString(n)) == n
  {
    var s := LongToString(n);
    if n < 0 {
      assert s[1..] == Digits(-n);
      DigitsRoundTrip(-n);
    } else {
      DigitsRoundTrip(n);
    }
  }

  /** Distinct ids never print alike. */
  lemma LongToStringInjective(a: int, b: int)
    ensures LongToString(a) == LongToString(b) ==> a == b
  {
    LongToStringRoundTrip(a);
    LongToStringRoundTrip(b);
  }
}
