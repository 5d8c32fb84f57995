/** Remainders by a divisor that is not a literal. */
module Arithmetic {

  lemma Remainder(x: int, q: int, m: int, r: int)
    requires m > 0 && 0 <= r < m && x == q * m + r
    ensures x % m == r && x / m == q
  {
    var d := x / m - q;
    assert d * m == r - x % m;
    assert d >= 1 ==> d * m >= m;
    assert d <= -1 ==> d * m <= -m;
  }

  lemma MultipleSum(x: int, y: int, m: int)
    requires m > 0 && x % m == 0 && y % m == 0
    ensures (x + y) % m == 0 && (x - y) % m == 0
  {
    var a, b := x / m, y / m;
    assert x == a * m && y == b * m;
    Remainder(x + y, a + b, m, 0);
    Remainder(x - y, a - b, m, 0);
  }

  lemma MultipleOf(x: int, n: int, m: int)
    requires m > 0 && n > 0 && n % m == 0 && x % n == 0
    ensures x % m == 0
  {
    var a, b := x / n, n / m;
    assert x == a * n && n == b * m;
    assert x == (a * b) * m;
    Remainder(x, a * b, m, 0);
  }

  /** Two numbers leave the same remainder exactly when their difference is a multiple. */
  lemma SameRemainder(x: int, y: int, m: int)
    requires m > 0
    ensures (x - y) % m == 0 <==> x % m == y % m
  {
    var a, b := x / m, y / m;
    assert x == a * m + x % m && y == b * m + y % m;
    if x % m == y % m {
      Remainder(x - y, a - b, m, 0);
    } else if (x - y) % m == 0 {
      var c := (x - y) / m;
      assert x == (b + c) * m + y % m;
      Remainder(x, b + c, m, y % m);
    }
  }

  function Pow2(k: nat): (p: nat)
    ensures p > 0
  {
    if k == 0 then 1 else 2 * Pow2(k - 1)
  }

  lemma {:induction false} Pow2Divides(j: nat, k: nat)
    requires j <= k
    ensures Pow2(k) % Pow2(j) == 0
  {
    if j < k {
      Pow2Divides(j, k - 1);
      MultipleSum(Pow2(k - 1), Pow2(k - 1), Pow2(j));
    } else {
      Remainder(Pow2(k), 1, Pow2(j), 0);
    }
  }
}
