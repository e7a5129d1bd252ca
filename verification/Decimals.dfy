/**
 Decimal numerals: reading digits and writing numbers out.
 */
module Decimals {

  predicate Digit(c: char) {
    '0' <= c <= '9'
  }

  predicate AllDigits(s: string) {
    forall i :: 0 <= i < |s| ==> Digit(s[i])
  }

  function Decimal(s: string): nat
    requires AllDigits(s)
  {
    if s == "" then 0
    else
      assert Digit(s[|s| - 1]);
      10 * Decimal(s[..|s| - 1]) + (s[|s| - 1] as int - '0' as int)
  }

  function Shown(n: nat): (s: string)
    ensures s != "" && AllDigits(s)
  {
    var last := [('0' as nat + n % 10) as char];
    if n < 10 then last else Shown(n / 10) + last
  }

  lemma {:induction false} DecimalOfShown(n: nat)
    ensures Decimal(Shown(n)) == n
  {
    var s := Shown(n);
    assert s[|s| - 1] == ('0' as nat + n % 10) as char;
    if n >= 10 {
      DecimalOfShown(n / 10);
      assert s[..|s| - 1] == Shown(n / 10);
    }
  }

  lemma ShownIsShort(n: nat)
    requires n < 1000
    ensures |Shown(n)| <= 3
  {
    assert |Shown(n / 10 / 10)| == 1;
    assert |Shown(n / 10)| <= 2;
  }
}
