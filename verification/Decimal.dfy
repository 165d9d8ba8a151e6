/** Decimal numerals: the digits of a natural number, most significant first. */
module Decimal {

  type Digit = d: nat | d < 10

  function Digits(n: nat): (ds: seq<Digit>)
    ensures ds != [] && (ds[0] == 0 ==> n == 0 && ds == [0])
  {
    if n < 10 then [n] else Digits(n / 10) + [n % 10]
  }

  function Value(ds: seq<Digit>): nat {
    if ds == [] then 0 else Value(ds[..|ds| - 1]) * 10 + ds[|ds| - 1]
  }

  /** Writing and reading a numeral gives the number back. */
  lemma {:induction false} ValueOfDigits(n: nat)
    ensures Value(Digits(n)) == n
  {
    if n >= 10 {
      ValueOfDigits(n / 10);
      assert (Digits(n / 10) + [n % 10])[..|Digits(n)| - 1] == Digits(n / 10);
    }
  }

  function Text(n: nat): string {
    var ds := Digits(n);
    seq(|ds|, i requires 0 <= i < |ds| => '0' + ds[i] as char)
  }

  lemma TextIsInjective(m: nat, n: nat)
    requires Text(m) == Text(n)
    ensures m == n
  {
    var ds, es := Digits(m), Digits(n);
    assert |Text(m)| == |ds| && |Text(n)| == |es|;
    forall i | 0 <= i < |ds| ensures ds[i] == es[i] {
      assert Text(m)[i] == Text(n)[i];
    }
    assert ds == es;
    ValueOfDigits(m);
    ValueOfDigits(n);
  }
}
