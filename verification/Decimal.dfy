/** Decimal numerals, as the programs print and read them. */
module Decimal {
  import opened CodeUnits

  /** The shortest numeral of `n`. */
  function Digits(n: nat): (t: Text)
    ensures t != [] && AllDigits(t)
  {
    if n < 10 then [ZERO + n] else Digits(n / 10) + [ZERO + n % 10]
  }

  function ValueOf(t: Text): nat
    requires AllDigits(t)
  {
    if t == [] then 0 else ValueOf(t[..|t| - 1]) * 10 + (t[|t| - 1] - ZERO)
  }

  /** Reading inverts printing. */
  lemma {:induction false} ValueOfDigits(n: nat)
    ensures ValueOf(Digits(n)) == n
  {
    if n >= 10 {
      ValueOfDigits(n / 10);
      var t := Digits(n);
      assert t[..|t| - 1] == Digits(n / 10);
    } else {
      assert Digits(n)[..0] == [];
    }
  }

  lemma {:induction false} DigitsInjective(m: nat, n: nat)
    requires Digits(m) == Digits(n)
    ensures m == n
  {
    ValueOfDigits(m);
    ValueOfDigits(n);
  }

  function IntText(n: int): (t: Text)
    ensures t != []
  {
    if n < 0 then [MINUS] + Digits(-n) else Digits(n)
  }

  lemma {:induction false} IntTextInjective(m: int, n: int)
    requires IntText(m) == IntText(n)
    ensures m == n
  {
    assert m < 0 <==> IntText(m)[0] == MINUS;
    assert n < 0 <==> IntText(n)[0] == MINUS;
    if m < 0 {
      assert IntText(m)[1..] == Digits(-m) && IntText(n)[1..] == Digits(-n);
      DigitsInjective(-m, -n);
    } else {
      DigitsInjective(m, n);
    }
  }
}
