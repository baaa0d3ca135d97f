/** Numbers as text. */
module Decimals {

  const DIGITS := "0123456789"

  function Decimal(n: nat): string {
    if n < 10 then [DIGITS[n]] else Decimal(n / 10) + [DIGITS[n % 10]]
  }

  function ToString(n: int): string {
    if n < 0 then "-" + Decimal(-n) else Decimal(n)
  }

  lemma {:induction false} DecimalShape(n: nat)
    ensures Decimal(n) != [] && Decimal(n)[|Decimal(n)| - 1] == DIGITS[n % 10] && '0' <= Decimal(n)[0] <= '9'
    ensures n >= 10 ==> |Decimal(n)| > 1 && Decimal(n)[..|Decimal(n)| - 1] == Decimal(n / 10)
  {
    if n >= 10 {
      DecimalShape(n / 10);
    }
  }

  lemma {:induction false} DecimalInjective(n: nat, m: nat)
    requires Decimal(n) == Decimal(m)
    ensures n == m
  {
    DecimalShape(n);
    DecimalShape(m);
    assert |Decimal(n)| == |Decimal(m)|;
    assert n % 10 == m % 10;
    if n >= 10 && m >= 10 {
      DecimalInjective(n / 10, m / 10);
    }
  }

  /** Different numbers have different texts. */
  lemma ToStringInjective(n: int, m: int)
    requires ToString(n) == ToString(m)
    ensures n == m
  {
    hide Decimal;
    DecimalShape(if n < 0 then -n else n);
    DecimalShape(if m < 0 then -m else m);
    assert n < 0 <==> ToString(n)[0] == '-';
    assert m < 0 <==> ToString(m)[0] == '-';
    if n < 0 && m < 0 {
      assert ToString(n)[1..] == Decimal(-n) && ToString(m)[1..] == Decimal(-m);
      DecimalInjective(-n, -m);
    } else if n >= 0 && m >= 0 {
      DecimalInjective(n, m);
    }
  }
}
