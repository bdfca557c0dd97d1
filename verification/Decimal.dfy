/** Decimal rendering of natural numbers, as Python's f-strings and JavaScript's templates do it. */
module Decimal {

  function Digit(d: nat): (c: char)
    requires d < 10
    ensures '0' <= c <= '9'
  {
    ('0' as int + d) as char
  }

  function Digits(n: nat): (s: string)
    ensures |s| > 0 && '0' <= s[0] <= '9'
  {
    if n < 10 then [Digit(n)] else Digits(n / 10) + [Digit(n % 10)]
  }

  /** Different numbers are written differently. */
  lemma {:induction false} DigitsInjective(m: nat, n: nat)
    requires Digits(m) == Digits(n)
    ensures m == n
  {
    if m < 10 || n < 10 {
      assert |Digits(m)| == |Digits(n)|;
    } else {
      assert Digits(m)[..|Digits(m)| - 1] == Digits(m / 10);
      assert Digits(n)[..|Digits(n)| - 1] == Digits(n / 10);
      DigitsInjective(m / 10, n / 10);
      assert Digits(m)[|Digits(m)| - 1] == Digit(m % 10);
      assert Digits(n)[|Digits(n)| - 1] == Digit(n % 10);
    }
  }
}
