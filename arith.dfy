/** Exact integer stand-ins for the source's `Math.floor` of a quotient. */
module Arith {

  /** `Math.floor(x / d)` for a positive divisor; Dafny's Euclidean `/` rounds down there. */
  function FloorDiv(x: int, d: int): (q: int)
    requires d > 0
    ensures d * q <= x < d * q + d
  {
    x / d
  }

  lemma MulLeMonotone(d: int, a: int, b: int)
    requires d >= 0 && a <= b
    ensures d * a <= d * b
  {
    assert d * b - d * a == d * (b - a);
  }

  /** The floor is the only integer between the two bounds. */
  lemma FloorDivUnique(x: int, d: int, q: int)
    requires d > 0
    requires d * q <= x < d * q + d
    ensures FloorDiv(x, d) == q
  {
    var r := FloorDiv(x, d);
    if r > q {
      MulLeMonotone(d, q + 1, r);
    } else if r < q {
      MulLeMonotone(d, r + 1, q);
    }
  }

  lemma FloorDivMonotone(x: int, y: int, d: int)
    requires d > 0 && x <= y
    ensures FloorDiv(x, d) <= FloorDiv(y, d)
  {
    var qx, qy := FloorDiv(x, d), FloorDiv(y, d);
    if qx > qy {
      MulLeMonotone(d, qy + 1, qx);
    }
  }

  /** Scaling numerator and divisor by the same positive factor keeps the floor. */
  lemma FloorDivScale(x: int, d: int, k: int)
    requires d > 0 && k > 0
    ensures FloorDiv(k * x, k * d) == FloorDiv(x, d)
  {
    var q := FloorDiv(x, d);
    MulLeMonotone(k, d * q, x);
    MulLeMonotone(k, x + 1, d * q + d);
    assert k * (d * q) == (k * d) * q;
    assert k * (d * q + d) == (k * d) * q + k * d;
    FloorDivUnique(k * x, k * d, q);
  }
}
