/** The few non-linear facts the money arithmetic needs, and powers of two. */
module Arithmetic {
  lemma MulMonotone(a: int, b: int, c: int)
    requires a <= b && c >= 0
    ensures a * c <= b * c
  {
  }

  /** Division is the largest multiple that fits. */
  lemma DivAtLeast(x: int, d: int, k: int)
    requires d > 0
    ensures k <= x / d <==> k * d <= x
  {
    var q := x / d;
    assert x == q * d + x % d;
    if k <= q {
      MulMonotone(k, q, d);
    } else {
      MulMonotone(q + 1, k, d);
      assert (q + 1) * d == q * d + d;
    }
  }

  lemma DivAtMost(x: int, d: int, k: int)
    requires d > 0
    ensures x / d <= k <==> x < (k + 1) * d
  {
    DivAtLeast(x, d, k + 1);
  }

  lemma DivMonotone(x: int, y: int, d: int)
    requires d > 0 && x <= y
    ensures x / d <= y / d
  {
    DivAtLeast(x, d, x / d);
    DivAtLeast(y, d, x / d);
  }

  function Power2(n: nat): nat { if n == 0 then 1 else 2 * Power2(n - 1) }

  lemma {:induction false} Power2Grows(m: nat, n: nat)
    requires m <= n
    ensures 1 <= Power2(m) <= Power2(n)
    decreases n
  {
    if m < n { Power2Grows(m, n - 1); } else if n > 0 { Power2Grows(m - 1, n - 1); }
  }
}
