/** Small facts about / and % shared by the other modules. */
module Arithmetic {

  lemma MulBound(n: int, d: int)
    requires n > 0
    ensures d >= 1 ==> n * d >= n
    ensures d <= -1 ==> n * d <= -n
  {
    if d >= 1 {
      assert n * d == n + n * (d - 1);
    } else if d <= -1 {
      assert n * d == -n + n * (d + 1);
    }
  }

  /** Quotient and remainder are determined by a == n * q + r. */
  lemma DivModUnique(a: int, n: int, q: int, r: int)
    requires n > 0 && 0 <= r < n && a == n * q + r
    ensures a / n == q && a % n == r
  {
    var d := a / n - q;
    assert n * (a / n) == n * q + n * d;
    MulBound(n, d);
  }

}
