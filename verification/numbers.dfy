/** Integer helpers: Python's round() on a rational and Python's str() on an int. */
module Numbers {

  function Abs(x: int): nat { if x < 0 then -x else x }

  /** `r` is a nearest integer to num / den (den > 0), and an even one on a tie. */
  ghost predicate NearestHalfEven(num: int, den: int, r: int)
    requires den > 0
  {
    2 * (r * den - num) <= den && 2 * (num - r * den) <= den &&
    (Abs(2 * (num - r * den)) == den ==> r % 2 == 0)
  }

  /** Rounding num / d for d > 0 from the floor quotient and the remainder. */
  function RoundPositive(num: int, d: int): int
    requires d > 0
  {
    var q, rem := num / d, num % d;
    if 2 * rem < d then q
    else if 2 * rem > d then q + 1
    else if q % 2 == 0 then q
    else q + 1
  }

  lemma RoundPositiveNearest(num: int, d: int)
    requires d > 0
    ensures NearestHalfEven(num, d, RoundPositive(num, d))
  {
    var q, rem := num / d, num % d;
    var m := q * d;
    assert num == m + rem;
    assert (q + 1) * d == m + d;
  }

  /** Python's round(num / den) on the exact rational: nearest integer, ties to even. */
  function RoundHalfEven(num: int, den: int): (r: int)
    requires den != 0
    ensures den > 0 ==> NearestHalfEven(num, den, r)
    ensures den < 0 ==> NearestHalfEven(-num, -den, r)
  {
    var n, d := if den > 0 then num else -num, Abs(den);
    RoundPositiveNearest(n, d);
    RoundPositive(n, d)
  }

  predicate IsDigit(c: char) { '0' <= c <= '9' }

  predicate AllDigits(s: string) { forall i :: 0 <= i < |s| ==> IsDigit(s[i]) }

  function DigitChar(d: int): (c: char)
    requires 0 <= d <= 9
    ensures IsDigit(c)
  {
    (d + '0' as int) as char
  }

  function DigitValue(c: char): (d: int)
    requires IsDigit(c)
    ensures 0 <= d <= 9 && DigitChar(d) == c
  {
    c as int - '0' as int
  }

  /** The decimal digits of n, most significant first, without leading zeros. */
  function Digits(n: nat): (s: string)
    ensures |s| >= 1 && AllDigits(s)
    ensures s[0] == '0' ==> n == 0
    decreases n
  {
    if n < 10 then [DigitChar(n)] else Digits(n / 10) + [DigitChar(n % 10)]
  }

  /** The number a string of decimal digits denotes (Python's int() on ASCII digits). */
  function ValueOf(s: string): nat
    requires AllDigits(s)
    decreases |s|
  {
    if s == [] then 0 else ValueOf(s[..|s| - 1]) * 10 + DigitValue(s[|s| - 1])
  }

  /** Python's str() on an int: an optional minus sign and the digits. */
  function DecimalString(n: int): (s: string)
    ensures |s| >= 1
    ensures n >= 0 <==> AllDigits(s)
    ensures n < 0 <==> s[0] == '-'
    ensures forall i :: 1 <= i < |s| ==> IsDigit(s[i])
  {
    if n < 0 then
      var s := "-" + Digits(-n);
      assert !IsDigit(s[0]);
      s
    else Digits(n)
  }

  /** Reading back the digits that Digits wrote gives the number again. */
  lemma {:induction false} ValueOfDigits(n: nat)
    ensures ValueOf(Digits(n)) == n
    decreases n
  {
    if n >= 10 {
      var s := Digits(n);
      assert s[..|s| - 1] == Digits(n / 10);
      ValueOfDigits(n / 10);
    }
  }

  /** Distinct natural numbers have distinct digits. */
  lemma DigitsInjective(a: nat, b: nat)
    requires Digits(a) == Digits(b)
    ensures a == b
  {
    ValueOfDigits(a);
    ValueOfDigits(b);
  }

  /** str() is injective on int: distinct numbers print differently. */
  lemma DecimalStringInjective(a: int, b: int)
    requires DecimalString(a) == DecimalString(b)
    ensures a == b
  {
    if a >= 0 && b >= 0 {
      DigitsInjective(a, b);
    } else if a < 0 && b < 0 {
      assert Digits(-a) == DecimalString(a)[1..];
      assert Digits(-b) == DecimalString(b)[1..];
      DigitsInjective(-a, -b);
    }
  }
}
