// Minimum, maximum, sums, and quotients and remainders of nonlinear terms.
module Arithmetic {

  function Min(a: int, b: int): int {
    if a < b then a else b
  }

  function Max(a: int, b: int): int {
    if a < b then b else a
  }

  function Sum(xs: seq<int>): (sum: int)
    ensures (forall x :: x in xs ==> x >= 0) ==> sum >= 0
  {
    if xs == [] then 0
    else
      var front, last := xs[..|xs|-1], xs[|xs|-1];
      assert last in xs && forall x :: x in front ==> x in xs;
      Sum(front) + last
  }

  lemma SumPrefix(xs: seq<int>, n: nat)
    requires 0 < n <= |xs|
    ensures Sum(xs[..n]) == Sum(xs[..n-1]) + xs[n-1]
  {
    assert xs[..n][..n-1] == xs[..n-1];
  }

  lemma ProductAtLeast(b: int, d: int)
    requires b > 0
    ensures d >= 1 ==> b * d >= b
    ensures d <= -1 ==> b * d <= -b
  {
  }

  // Quotient and remainder are unique.
  lemma QuotientRemainder(y: int, b: int, k: int, r: int)
    requires b > 0 && 0 <= r < b && y == b * k + r
    ensures y / b == k && y % b == r
  {
    var q, m := y / b, y % b;
    assert y == b * q + m;
    assert b * (k - q) == b * k - b * q;
    ProductAtLeast(b, k - q);
  }
}
