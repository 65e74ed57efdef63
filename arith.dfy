/**
 * Integer division facts shared by the batch count and the clock arithmetic:
 * Dafny leaves products of two variables to these lemmas.
 */
module Arith {
  lemma {:induction false} MultipleAtLeast(b: int, d: int)
    requires b > 0 && d >= 1
    ensures b * d >= b
    decreases d
  {
    if d > 1 {
      MultipleAtLeast(b, d - 1);
      assert b * d == b * (d - 1) + b;
    }
  }

  /** A non-zero multiple of a positive `b` is at least `b` away from zero. */
  lemma MultipleAwayFromZero(b: int, d: int)
    requires b > 0 && d != 0
    ensures b * d >= b || b * d <= -b
  {
    if d > 0 {
      MultipleAtLeast(b, d);
    } else {
      MultipleAtLeast(b, -d);
      assert b * d == -(b * -d);
    }
  }

  /** Quotient and remainder are unique. */
  lemma DivUnique(x: int, b: int, q: int, r: int)
    requires b > 0 && 0 <= r < b && x == b * q + r
    ensures x / b == q && x % b == r
  {
    var q0, r0 := x / b, x % b;
    assert b * q0 + r0 == x;
    assert b * (q - q0) == r0 - r;
    if q != q0 {
      MultipleAwayFromZero(b, q - q0);
      assert false;
    }
  }

}
