/**
 Integer division by a positive number that is not a constant.
 */
module Division {

  lemma NonNegativeProduct(d: nat, n: nat)
    ensures d * n >= 0
  {
  }

  lemma MultiplesApart(d: nat, a: int, b: int)
    ensures a < b ==> d * a + d <= d * b
  {
    if a < b {
      NonNegativeProduct(d, b - a - 1);
      assert d * (a + 1) == d * a + d;
      assert d * b == d * ((a + 1) + (b - a - 1)) == d * (a + 1) + d * (b - a - 1);
    }
  }

  lemma QuotientIs(x: int, d: nat, q: int, r: nat)
    requires x == d * q + r && r < d
    ensures x / d == q
  {
    assert x == d * (x / d) + x % d;
    MultiplesApart(d, x / d, q);
    MultiplesApart(d, q, x / d);
  }

  lemma DivideMonotone(x: nat, y: nat, d: nat)
    requires x <= y && d > 0
    ensures x / d <= y / d
  {
    assert x == d * (x / d) + x % d && y == d * (y / d) + y % d;
    MultiplesApart(d, y / d, x / d);
  }
}
