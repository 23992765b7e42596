/** Facts about products and quotients that the other modules share. */
module Arithmetic {

  lemma OneMore(w: nat, a: int, b: int)
    requires a > b
    ensures w * a >= w * b + w
  {
    assert w * a == w * (b + 1) + w * (a - (b + 1));
  }

  lemma NoMore(n: nat, a: int, b: int)
    requires n * a < n * b + n
    ensures a <= b
  {
    if a > b {
      OneMore(n, a, b);
    }
  }

  lemma ModIs(x: nat, q: nat, r: nat, m: nat)
    requires x == q * m + r && r < m
    ensures x / m == q && x % m == r
  {
    var d := x / m;
    assert x == m * d + x % m;
    assert q * m == m * q;
    NoMore(m, d, q);
    NoMore(m, q, d);
  }

  lemma ExactDivision(w: nat, n: nat)
    requires n > 0
    ensures (w * n) / n == w
  {
    ModIs(w * n, w, 0, n);
  }
}
