/** Division and remainder by a positive number. */
module Modular {

  lemma Scale(d: int, a: int, b: int)
    requires d > 0 && a <= b
    ensures d * a <= d * b
  {
    assert d * b - d * a == d * (b - a);
  }

  lemma DivisionIs(x: int, d: int, q: int)
    requires d > 0
    ensures x / d == q <==> d * q <= x < d * (q + 1)
  {
    var p := x / d;
    assert d * p <= x < d * (p + 1) by { assert x == d * p + x % d; assert d * (p + 1) == d * p + d; }
    if d * q <= x < d * (q + 1) {
      if p < q { Scale(d, p + 1, q); }
      if q < p { Scale(d, q + 1, p); }
    }
  }

  /** Reducing a summand first changes nothing. */
  lemma ReduceFirst(a: int, b: int, n: int)
    requires n > 0
    ensures (a % n + b) % n == (a + b) % n && (a % n - b) % n == (a - b) % n
  {
    assert a == n * (a / n) + a % n;
    Shifted(a % n + b, a / n, n);
    Shifted(a % n - b, a / n, n);
  }

  lemma Shifted(x: int, k: int, n: int)
    requires n > 0
    ensures (x + n * k) % n == x % n
  {
    var q := x / n;
    assert x == n * q + x % n;
    assert n * (q + k) == n * q + n * k && n * (q + k + 1) == n * q + n * k + n;
    DivisionIs(x + n * k, n, q + k);
    assert x + n * k == n * ((x + n * k) / n) + (x + n * k) % n;
  }
}
