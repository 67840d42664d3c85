/** Integer division facts shared by the batch and grid arithmetic. */
module Arith {

  function Min(a: int, b: int): int {
    if a < b then a else b
  }

  /** `ceil(a / b)` for a positive divisor. */
  function CeilDiv(a: nat, b: nat): nat
    requires b > 0
  {
    (a + b - 1) / b
  }

  lemma DivSmall(x: int, d: int)
    requires 0 <= x < d
    ensures x / d == 0
  {
  }

  lemma DivStep(x: int, d: int)
    requires 0 <= x && 0 < d
    ensures (x + d) / d == x / d + 1
  {
    var q := x / d;
    var r := x % d;
    assert x + d == d * (q + 1) + r;
    DivUnique(x + d, d, q + 1, r);
  }

  /** Euclidean division has one quotient. */
  lemma DivUnique(n: int, d: int, q: int, r: int)
    requires 0 < d && 0 <= r < d && n == d * q + r
    ensures n / d == q
  {
    var q' := n / d;
    var r' := n % d;
    assert d * (q - q') == r' - r;
    if q' < q {
      MulAtLeast(d, q - q');
    } else if q < q' {
      MulAtLeast(d, q' - q);
    }
  }

  lemma {:induction false} MulAtLeast(d: int, k: int)
    requires 0 < d && 1 <= k
    ensures d * k >= d
    decreases k
  {
    if k > 1 {
      MulAtLeast(d, k - 1);
      assert d * k == d * (k - 1) + d;
    }
  }

  /** Multiplication by a non-negative factor keeps the order. */
  lemma MulMonotone(a: int, b: int, d: int)
    requires a <= b && 0 <= d
    ensures a * d <= b * d
  {
    if a < b && d > 0 {
      MulAtLeast(d, b - a);
      assert b * d - a * d == d * (b - a);
    }
  }

  /** The quotient bounds its dividend: `d * q <= x < d * q + d` for `q = x / d`. */
  lemma DivBounds(x: int, d: int)
    requires 0 < d
    ensures d * (x / d) <= x < d * (x / d) + d
  {
  }

  /** Slot `i` of the `len / period` whole slots, `width <= period` long, lies in `0 .. len`. */
  lemma SlotInside(len: nat, period: int, width: int, i: nat)
    requires 0 <= width <= period && 0 < period
    requires i < len / period
    ensures 0 <= i * period && i * period + width <= len
  {
    var n := len / period;
    DivBounds(len, period);
    MulMonotone(0, i, period);
    MulMonotone(i, n - 1, period);
    assert (n - 1) * period == n * period - period;
  }

  /** `c = ceil(a / b)` is the least count of `b`-sized slices that covers `a`:
      `b * (c - 1) < a <= b * c`, and it is zero only for zero. */
  lemma CeilDivSpec(a: nat, b: nat)
    requires b > 0
    ensures a <= b * CeilDiv(a, b)
    ensures a > 0 ==> CeilDiv(a, b) >= 1 && b * (CeilDiv(a, b) - 1) < a
    ensures CeilDiv(a, b) == 0 <==> a == 0
  {
    var c := CeilDiv(a, b);
    DivBounds(a + b - 1, b);
    if a == 0 {
      DivSmall(b - 1, b);
    } else {
      DivStep(a - 1, b);
      assert c == (a - 1) / b + 1;
      assert (a - 1) / b >= 0;
    }
  }
}
