/**
 * Integer floor and ceiling division and clamping, the exact counterparts
 * of `floor(x * bin_size)`, `ceil(x * bin_size)` and `min(max(x, 0), hi)`
 * in the ROI pooling kernels.
 */
module IntArith {

  /** floor(a / b) for a positive divisor; Dafny's `/` on int already rounds down when b > 0. */
  function FloorDiv(a: int, b: int): int
    requires b > 0
  {
    a / b
  }

  /** ceil(a / b) for a positive divisor. */
  function CeilDiv(a: int, b: int): int
    requires b > 0
  {
    -((-a) / b)
  }

  /** `min(max(x, 0), hi)`. */
  function Clip(x: int, hi: int): (r: int)
    requires hi >= 0
    ensures 0 <= r <= hi
    ensures 0 <= x <= hi ==> r == x
  {
    if x < 0 then 0 else if x > hi then hi else x
  }

  /** The two sides of floor division: d <= floor(a / b) exactly when d * b <= a. */
  lemma FloorDivBounds(a: int, b: int, d: int)
    requires b > 0
    ensures d <= FloorDiv(a, b) <==> d * b <= a
    ensures FloorDiv(a, b) < d <==> a < d * b
  {
    var q, r := a / b, a % b;
    assert a == q * b + r && 0 <= r < b;
    if d <= q {
      MulMonoRight(d, q, b);
    } else {
      MulMonoRight(q + 1, d, b);
    }
  }

  /** The two sides of ceiling division: ceil(a / b) <= d exactly when a <= d * b. */
  lemma CeilDivBounds(a: int, b: int, d: int)
    requires b > 0
    ensures CeilDiv(a, b) <= d <==> a <= d * b
    ensures d < CeilDiv(a, b) <==> d * b < a
  {
    FloorDivBounds(-a, b, -d);
    assert (-d) * b == -(d * b);
  }

  lemma MulMonoRight(x: int, y: int, b: int)
    requires x <= y && b >= 0
    ensures x * b <= y * b
  {
  }

  /** Floor division of a non-negative number stays non-negative. */
  lemma FloorDivNonNeg(a: int, b: int)
    requires a >= 0 && b > 0
    ensures FloorDiv(a, b) >= 0
  {
  }

  /** The remainder and quotient of q * b + r recover q and r. */
  lemma DivModCompose(q: int, r: int, b: int)
    requires b > 0 && 0 <= r < b
    ensures (q * b + r) / b == q && (q * b + r) % b == r
  {
    var a := q * b + r;
    var q', r' := a / b, a % b;
    assert a == q' * b + r' && 0 <= r' < b;
    if q' < q {
      MulMonoRight(q' + 1, q, b);
    } else if q' > q {
      MulMonoRight(q + 1, q', b);
    }
  }

  /** A number below b * c has a quotient by b below c. */
  lemma DivBelow(a: int, b: int, c: int)
    requires b > 0 && 0 <= a < b * c
    ensures 0 <= a / b < c
  {
    var q := a / b;
    assert a == q * b + a % b;
    if q >= c {
      MulMonoRight(c, q, b);
    }
  }
}
