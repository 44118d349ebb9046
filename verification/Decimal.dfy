/** Decimal numerals. */
module Decimal {

  type Digit = d: int | 0 <= d < 10

  function Digits(n: nat): (ds: seq<Digit>)
    ensures ds != [] && (|ds| > 1 ==> ds[0] != 0)
  {
    if n < 10 then [n] else Digits(n / 10) + [n % 10]
  }

  /** Leading zeros do not change the value. */
  function Value(ds: seq<Digit>): nat {
    if ds == [] then 0 else Value(ds[..|ds| - 1]) * 10 + ds[|ds| - 1]
  }

  lemma {:induction false} ValueOfDigits(n: nat)
    ensures Value(Digits(n)) == n
  {
    if n < 10 {
      assert [n][..0] == [];
    } else {
      ValueOfDigits(n / 10);
      assert Digits(n)[..|Digits(n)| - 1] == Digits(n / 10);
    }
  }

  /** No numeral of a number is shorter than its own. */
  lemma {:induction false} DigitsAreShortest(ds: seq<Digit>)
    requires ds != []
    ensures |Digits(Value(ds))| <= |ds|
  {
    var init := ds[..|ds| - 1];
    if init == [] {
      assert Value(init) == 0;
    } else {
      DigitsAreShortest(init);
    }
  }

  function Power(k: nat): nat { if k == 0 then 1 else 10 * Power(k - 1) }

  lemma {:induction false} FewDigits(n: nat, k: nat)
    requires n < Power(k) && k > 0
    ensures |Digits(n)| <= k
  {
    if n >= 10 { FewDigits(n / 10, k - 1); }
  }
}
