/** Products and quotients of unknowns, in steps small enough for the solver. */
module Arithmetic {
  lemma Distribute(x: int, k: int)
    ensures (x + 1) * k == x * k + k
  {
  }

  lemma {:induction false} MulMonotone(x: int, y: int, k: nat)
    requires x <= y
    ensures x * k <= y * k
    decreases y - x
  {
    if x < y {
      MulMonotone(x, y - 1, k);
      Distribute(y - 1, k);
    }
  }

  lemma DivMod(x: int, n: nat)
    requires n > 0
    ensures x == x / n * n + x % n && 0 <= x % n < n
  {
  }

  /** A quotient is known by any remainder in range. */
  lemma QuotientIs(x: int, n: nat, d: int, r: int)
    requires n > 0 && x == d * n + r && 0 <= r < n
    ensures x / n == d && x % n == r
  {
    DivMod(x, n);
    var q, m := x / n, x % n;
    if q < d {
      MulMonotone(q + 1, d, n);
      Distribute(q, n);
    } else if q > d {
      MulMonotone(d + 1, q, n);
      Distribute(d, n);
    }
  }

  lemma QuotientBounds(x: nat, p: nat, n: nat)
    requires p > 0
    ensures n * p <= x ==> n <= x / p
    ensures n * p > x ==> n > x / p
  {
    DivMod(x, p);
    var q := x / p;
    if n <= q {
      MulMonotone(n, q, p);
    } else {
      MulMonotone(q + 1, n, p);
      Distribute(q, p);
    }
  }
}
