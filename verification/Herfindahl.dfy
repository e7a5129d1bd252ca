/**
 The concentration index of a portfolio: the sum of the squared shares, between one over the number of
 shares and one, with equality exactly at an even spread and at full concentration.
 */
module Herfindahl {

  function SumOf(xs: seq<real>): real {
    if xs == [] then 0.0 else SumOf(xs[..|xs| - 1]) + xs[|xs| - 1]
  }

  function Product(x: real, y: real): real {
    x * y
  }

  function Square(x: real): real {
    Product(x, x)
  }

  function SquareSum(xs: seq<real>): real {
    if xs == [] then 0.0 else SquareSum(xs[..|xs| - 1]) + Square(xs[|xs| - 1])
  }

  ghost predicate NonNegative(xs: seq<real>) {
    forall i :: 0 <= i < |xs| ==> xs[i] >= 0.0
  }

  /** One share is everything, the others nothing. */
  ghost predicate Concentrated(xs: seq<real>, i: int) {
    0 <= i < |xs| && xs[i] == 1.0 && forall j :: 0 <= j < |xs| && j != i ==> xs[j] == 0.0
  }

  ghost predicate Even(xs: seq<real>, c: real) {
    forall i :: 0 <= i < |xs| ==> xs[i] == c
  }

  /** The sum of the squared distances from c. */
  function Spread(xs: seq<real>, c: real): real {
    if xs == [] then 0.0 else Spread(xs[..|xs| - 1], c) + Square(xs[|xs| - 1] - c)
  }

  lemma ProductSign(x: real, y: real)
    requires (x > 0.0 && y > 0.0) || (x < 0.0 && y < 0.0)
    ensures Product(x, y) > 0.0
  {
  }

  lemma ProductNonNegative(x: real, y: real)
    requires x >= 0.0 && y >= 0.0
    ensures Product(x, y) >= 0.0
  {
    if x > 0.0 && y > 0.0 {
      ProductSign(x, y);
    }
  }

  lemma SquareSign(x: real)
    ensures x != 0.0 ==> Square(x) > 0.0
    ensures Square(0.0) == 0.0
  {
    if x != 0.0 {
      ProductSign(x, x);
    }
  }

  lemma SquareOfDifference(x: real, c: real)
    ensures Square(x - c) == Square(x) - 2.0 * Product(c, x) + Square(c)
  {
    assert (x - c) * (x - c) == x * (x - c) - c * (x - c);
    assert x * (x - c) == x * x - x * c;
    assert c * (x - c) == c * x - c * c;
  }

  lemma Distribute(c: real, a: real, b: real)
    ensures c * (a + b) == c * a + c * b
    ensures Product(c, a + b) == Product(c, a) + Product(c, b)
    ensures Product(a + b, c) == Product(a, c) + Product(b, c)
  {
  }

  lemma TimesZero(x: real)
    ensures Product(x, 0.0) == 0.0 && Product(0.0, x) == 0.0
  {
  }

  lemma TimesOne(x: real)
    ensures Product(1.0, x) == x
  {
  }

  lemma {:induction false} SpreadExpands(xs: seq<real>, c: real)
    ensures Spread(xs, c) == SquareSum(xs) - 2.0 * Product(c, SumOf(xs)) + Product(|xs| as real, Square(c))
    decreases |xs|
  {
    hide Square, Product;
    if xs == [] {
      TimesZero(c);
      TimesZero(Square(c));
    } else {
      var n := |xs| - 1;
      SpreadExpands(xs[..n], c);
      SquareOfDifference(xs[n], c);
      Distribute(c, SumOf(xs[..n]), xs[n]);
      Distribute(Square(c), n as real, 1.0);
      TimesOne(Square(c));
      assert |xs| as real == n as real + 1.0;
    }
  }

  lemma {:induction false} SpreadZero(xs: seq<real>, c: real)
    ensures Spread(xs, c) >= 0.0
    ensures Spread(xs, c) == 0.0 <==> Even(xs, c)
    decreases |xs|
  {
    hide Square;
    if xs != [] {
      var n := |xs| - 1;
      SpreadZero(xs[..n], c);
      SquareSign(xs[n] - c);
      assert Even(xs, c) <==> Even(xs[..n], c) && xs[n] == c;
    }
  }

  /** No index is below an even spread's, and only an even spread's reaches it. */
  lemma EvenIsLeast(xs: seq<real>, c: real)
    requires SumOf(xs) == 1.0 && (|xs| as real) * c == 1.0
    ensures SquareSum(xs) >= c
    ensures SquareSum(xs) == c <==> Even(xs, c)
  {
    SpreadExpands(xs, c);
    SpreadZero(xs, c);
    TimesOne(c);
    assert Product(c, 1.0) == c;
    assert Product(|xs| as real, Square(c)) == ((|xs| as real) * c) * c;
  }

  lemma {:induction false} SumIsZeroIff(xs: seq<real>)
    requires NonNegative(xs)
    ensures SumOf(xs) >= 0.0
    ensures SumOf(xs) == 0.0 <==> Even(xs, 0.0)
    decreases |xs|
  {
    if xs != [] {
      var n := |xs| - 1;
      SumIsZeroIff(xs[..n]);
      assert Even(xs, 0.0) <==> Even(xs[..n], 0.0) && xs[n] == 0.0;
    }
  }

  lemma SquareOfSum(a: real, b: real)
    requires a >= 0.0 && b >= 0.0
    ensures Square(a + b) == Square(a) + 2.0 * (a * b) + Square(b)
    ensures a * b >= 0.0
    ensures a * b == 0.0 ==> a == 0.0 || b == 0.0
  {
    assert (a + b) * (a + b) == a * (a + b) + b * (a + b);
  }

  /** The squared shares sum to at most the square of the sum, with equality when at most one is not zero. */
  lemma {:induction false} SquareSumAtMost(xs: seq<real>)
    requires NonNegative(xs)
    ensures SquareSum(xs) <= Square(SumOf(xs))
    ensures SquareSum(xs) == Square(SumOf(xs)) ==> forall i, j :: 0 <= i < j < |xs| ==> xs[i] == 0.0 || xs[j] == 0.0
    decreases |xs|
  {
    if xs != [] {
      var n := |xs| - 1;
      SquareSumAtMost(xs[..n]);
      SumIsZeroIff(xs[..n]);
      SquareOfSum(SumOf(xs[..n]), xs[n]);
    }
  }

  lemma {:induction false} SumOfConcentrated(xs: seq<real>, i: nat)
    requires i < |xs| && forall j :: 0 <= j < |xs| && j != i ==> xs[j] == 0.0
    ensures SumOf(xs) == xs[i] && SquareSum(xs) == Square(xs[i])
    decreases |xs|
  {
    var n := |xs| - 1;
    if i == n {
      assert Even(xs[..n], 0.0);
      ZeroSums(xs[..n]);
    } else {
      SumOfConcentrated(xs[..n], i);
    }
  }

  lemma {:induction false} ZeroSums(xs: seq<real>)
    requires Even(xs, 0.0)
    ensures SumOf(xs) == 0.0 && SquareSum(xs) == 0.0
    decreases |xs|
  {
    if xs != [] {
      ZeroSums(xs[..|xs| - 1]);
    }
  }

  lemma SomeNonZero(xs: seq<real>) returns (i: nat)
    requires NonNegative(xs) && SumOf(xs) == 1.0
    ensures i < |xs| && xs[i] != 0.0
  {
    SumIsZeroIff(xs);
    i :| 0 <= i < |xs| && xs[i] != 0.0;
  }

  /** No index is above one, and only full concentration reaches it. */
  lemma ConcentratedIsGreatest(xs: seq<real>)
    requires NonNegative(xs) && SumOf(xs) == 1.0
    ensures SquareSum(xs) <= 1.0
    ensures SquareSum(xs) == 1.0 <==> exists i :: Concentrated(xs, i)
  {
    SquareSumAtMost(xs);
    if SquareSum(xs) == 1.0 {
      var i := SomeNonZero(xs);
      forall j | 0 <= j < |xs| && j != i ensures xs[j] == 0.0 {
        assert xs[if i < j then i else j] == 0.0 || xs[if i < j then j else i] == 0.0;
      }
      SumOfConcentrated(xs, i);
      assert Concentrated(xs, i);
    }
    if i :| Concentrated(xs, i) {
      SumOfConcentrated(xs, i);
    }
  }
}
