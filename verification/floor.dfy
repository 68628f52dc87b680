/** Floor division on whole numbers. index.js floors the quotient of two
    integers (`Math.floor(x / 1000)`, `Math.floor(seconds / 60)`); for a
    positive divisor Dafny's `/` is that floor, including for negative
    dividends, and these lemmas say so. */
module Floor {

  /** q is the floor of x / d: the largest whole number of d's not above x. */
  predicate IsFloorDiv(x: int, d: int, q: int) {
    d * q <= x < d * q + d
  }

  /** Dafny's division by a positive divisor rounds towards minus infinity.
      JavaScript's `/` divides in doubles, but for integers below 2^53 the
      floor of that quotient is this exact floor. */
  lemma FloorDivUnique(x: int, d: int, q: int)
    requires d > 0
    requires IsFloorDiv(x, d, q)
    ensures x / d == q
  {
    var q' := x / d;
    assert d * q' <= x < d * q' + d;
    if q' < q {
      MulMonotone(d, q' + 1, q);
    } else if q' > q {
      MulMonotone(d, q + 1, q');
    }
  }

  lemma MulMonotone(d: int, a: int, b: int)
    requires d > 0 && a <= b
    ensures d * a <= d * b
  {
    assert d * b - d * a == d * (b - a);
  }

  /** Flooring twice is flooring once by the product of the divisors. */
  lemma {:induction false} NestedFloorDiv(x: int, b: int, c: int)
    requires b > 0 && c > 0
    ensures (x / b) / c == x / (b * c)
  {
    var q1 := x / b;
    var r1 := x % b;
    var q2 := q1 / c;
    var r2 := q1 % c;
    assert x == b * q1 + r1 && 0 <= r1 < b;
    assert q1 == c * q2 + r2 && 0 <= r2 < c;
    assert b * q1 == (b * c) * q2 + b * r2 by {
      assert b * (c * q2 + r2) == b * (c * q2) + b * r2;
      assert b * (c * q2) == (b * c) * q2;
    }
    MulMonotone(b, r2, c - 1);
    assert b * (c - 1) == b * c - b;
    assert 0 <= b * r2;
    FloorDivUnique(x, b * c, q2);
  }
}
