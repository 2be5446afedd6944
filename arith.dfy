/** Facts about multiplication and Euclidean division by a variable divisor,
    proved from the defining equation n == d * (n / d) + n % d. */
module Arith {

  lemma {:induction false} MulMonotone(d: nat, a: int, b: int)
    ensures a <= b ==> d * a <= d * b
    decreases d
  {
    if d > 0 {
      MulMonotone(d - 1, a, b);
      assert d * a == (d - 1) * a + a;
      assert d * b == (d - 1) * b + b;
    }
  }

  /** Quotient and remainder are the only ones satisfying the defining equation. */
  lemma DivModUnique(n: int, d: int, q: int, r: int)
    requires d >= 1 && n == d * q + r && 0 <= r < d
    ensures n / d == q && n % d == r
  {
    var q', r' := n / d, n % d;
    assert n == d * q' + r' && 0 <= r' < d;
    MulMonotone(d, q + 1, q');
    MulMonotone(d, q' + 1, q);
    assert d * (q + 1) == d * q + d;
    assert d * (q' + 1) == d * q' + d;
  }

  lemma DivMonotone(x: int, y: int, d: int)
    requires d >= 1 && x <= y
    ensures x / d <= y / d
  {
    var qx, qy := x / d, y / d;
    assert x == d * qx + x % d && y == d * qy + y % d;
    MulMonotone(d, qy + 1, qx);
    assert d * (qy + 1) == d * qy + d;
  }

  lemma DivPlusDivisor(a: int, d: int)
    requires d >= 1
    ensures (a + d) / d == a / d + 1 && (a + d) % d == a % d
  {
    var q, r := a / d, a % d;
    assert a == d * q + r;
    assert a + d == d * (q + 1) + r;
    DivModUnique(a + d, d, q + 1, r);
  }

  lemma MulDivCancel(d: int, t: int)
    requires d >= 1
    ensures d * t / d == t
  {
    DivModUnique(d * t, d, t, 0);
  }

  lemma DivOfSmall(n: int, d: int)
    requires 0 <= n < d
    ensures n / d == 0 && n % d == n
  {
    DivModUnique(n, d, 0, n);
  }

  lemma MulStep(k: int, t: int, n: int)
    requires 0 <= k < n && t >= 0
    ensures 0 <= k * t && (k + 1) * t == k * t + t && (k + 1) * t <= n * t
  {
    MulMonotone(t, 0, k);
    MulMonotone(t, k + 1, n);
    assert t * k == k * t && t * (k + 1) == (k + 1) * t && t * n == n * t;
  }
}
