/** Facts about products that the solver does not find by itself. */
module Arithmetic {
  lemma MulDistributes(a: int, b: int, c: int)
    ensures (a + b) * c == a * c + b * c
    ensures (a - b) * c == a * c - b * c
  {
  }

  lemma MulMonotone(a: int, b: int, c: int)
    requires a <= b && c >= 0
    ensures a * c <= b * c
  {
  }

  lemma MulNonNegative(a: int, b: int)
    requires a >= 0 && b >= 0
    ensures a * b >= 0
  {
  }

  /** A positive factor can be cancelled. */
  lemma CancelFactor(a: int, b: int, c: int)
    requires c > 0 && a * c <= b * c
    ensures a <= b
  {
    if a > b { MulMonotone(b + 1, a, c); MulDistributes(b, 1, c); }
  }

  /** A floor is the greatest integer whose multiple fits. */
  lemma FloorBounds(a: int, b: int)
    requires b > 0
    ensures (a / b) * b <= a < (a / b) * b + b
  {
  }

  lemma FloorAtMost(a: int, b: int, q: int)
    requires b > 0 && a <= q * b
    ensures a / b <= q
  {
    FloorBounds(a, b);
    CancelFactor(a / b, q, b);
  }

  lemma FloorAtLeast(a: int, b: int, q: int)
    requires b > 0 && q * b <= a
    ensures q <= a / b
  {
    FloorBounds(a, b);
    if a / b < q { MulMonotone(a / b + 1, q, b); MulDistributes(a / b, 1, b); }
  }
}
