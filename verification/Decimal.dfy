/** Decimal numerals. */
module Decimal {

  predicate IsDigit(c: char) { '0' <= c <= '9' }

  ghost predicate AllDigits(s: string) {
    forall i :: 0 <= i < |s| ==> IsDigit(s[i])
  }

  function Digit(d: nat): char
    requires d < 10
  {
    '0' + d as char
  }

  function DigitValue(c: char): nat
    requires IsDigit(c)
  {
    (c as int) - ('0' as int)
  }

  /** std::to_string for a number without a sign. */
  function ToDigits(n: nat): (s: string)
    ensures s != "" && AllDigits(s)
  {
    if n < 10 then [Digit(n)] else ToDigits(n / 10) + [Digit(n % 10)]
  }

  function Value(s: string): nat
    requires AllDigits(s)
  {
    if s == "" then 0 else Value(s[..|s| - 1]) * 10 + DigitValue(s[|s| - 1])
  }

  lemma {:induction false} ValueOfDigits(n: nat)
    ensures Value(ToDigits(n)) == n
    ensures ToDigits(n)[0] == '0' ==> n == 0 && ToDigits(n) == "0"
  {
    var s := ToDigits(n);
    if n < 10 {
      assert s[..0] == "" && Value(s[..0]) == 0;
    } else {
      ValueOfDigits(n / 10);
      assert s[..|s| - 1] == ToDigits(n / 10);
    }
  }

  /** The digits by their places. */
  lemma DigitsExample()
    ensures ToDigits(907) == "907"
  {
    assert ToDigits(9) == "9";
    assert ToDigits(90) == "9" + "0";
  }

  lemma DigitsInjective(m: nat, n: nat)
    requires ToDigits(m) == ToDigits(n)
    ensures m == n
  {
    ValueOfDigits(m);
    ValueOfDigits(n);
  }
}
