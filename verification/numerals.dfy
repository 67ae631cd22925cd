/** Decimal rendering of the non-negative integers that the dashboard
    interpolates into activity ids and messages (`${n}` in a template literal). */
module Numerals {

  /** The character of one decimal digit. */
  function DigitChar(d: nat): (c: char)
    requires d < 10
    ensures '0' <= c <= '9'
    ensures c as int - '0' as int == d
  {
    ('0' as int + d) as char
  }

  /** The shortest decimal numeral of `n`, most significant digit first. */
  function Decimal(n: nat): (s: string)
    ensures |s| >= 1
    ensures forall i :: 0 <= i < |s| ==> '0' <= s[i] <= '9'
  {
    if n < 10 then [DigitChar(n)] else Decimal(n / 10) + [DigitChar(n % 10)]
  }

  /** Different numbers render differently: the numeral determines the number. */
  lemma {:induction false} DecimalInjective(a: nat, b: nat)
    ensures Decimal(a) == Decimal(b) <==> a == b
  {
    if a >= 10 && b >= 10 {
      DecimalInjective(a / 10, b / 10);
      assert Decimal(a)[..|Decimal(a)| - 1] == Decimal(a / 10);
      assert Decimal(b)[..|Decimal(b)| - 1] == Decimal(b / 10);
      assert Decimal(a)[|Decimal(a)| - 1] == DigitChar(a % 10);
      assert Decimal(b)[|Decimal(b)| - 1] == DigitChar(b % 10);
    } else if a >= 10 {
      assert |Decimal(a)| > 1;
    } else if b >= 10 {
      assert |Decimal(b)| > 1;
    }
  }
}
