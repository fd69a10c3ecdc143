/** JavaScript's `Math.round` and `Math.ceil` applied to a quotient of integers, computed exactly. */
module Numbers {

  /**
   * `Math.round(a / b)`: the integer nearest to a/b, halves rounded up
   * (towards +infinity, so -2.5 becomes -2).
   */
  function RoundDiv(a: int, b: int): (r: int)
    requires b > 0
    ensures 2 * b * r <= 2 * a + b < 2 * b * (r + 1)
  {
    (2 * a + b) / (2 * b)
  }

  /** `Math.ceil(a / b)`: the least integer not below a/b. */
  function CeilDiv(a: int, b: int): (r: int)
    requires b > 0
    ensures b * (r - 1) < a <= b * r
  {
    -((-a) / b)
  }

  /** Multiplying by a positive factor preserves order, and so does cancelling it. */
  lemma MulOrder(c: int, x: int, y: int)
    requires c > 0
    ensures x <= y <==> c * x <= c * y
  {
  }

  /** One more copy of a factor. */
  lemma MulSucc(s: int, n: int)
    ensures s * (n + 1) == s * n + s
  {
  }

  /** A quotient between two bounds rounds to an integer between them. */
  lemma RoundDivBounds(a: int, b: int, lo: int, hi: int)
    requires b > 0 && lo * b <= a <= hi * b
    ensures lo <= RoundDiv(a, b) <= hi
  {
    var r, m := RoundDiv(a, b), 2 * b;
    assert m * r <= 2 * a + b < m * (r + 1);
    assert m * (r + 1) == m * r + m;
    assert m * (hi + 1) == 2 * (hi * b) + m;
    assert m * lo == 2 * (lo * b);
    MulOrder(m, hi + 1, r);
    MulOrder(m, r + 1, lo);
  }

  /** A quotient of a non-negative dividend does not round below zero. */
  lemma RoundDivNonNegative(a: int, b: int)
    requires b > 0 && a >= 0
    ensures RoundDiv(a, b) >= 0
  {
    var r, m := RoundDiv(a, b), 2 * b;
    assert 0 < 2 * a + b < m * (r + 1);
    MulOrder(m, r + 1, 0);
  }

  /** An exact quotient rounds to itself. */
  lemma RoundDivExact(q: int, b: int)
    requires b > 0
    ensures RoundDiv(q * b, b) == q
  {
    RoundDivBounds(q * b, b, q, q);
  }

  /** The rounded quotient grows with the dividend. */
  lemma RoundDivMonotone(a: int, a': int, b: int)
    requires b > 0 && a <= a'
    ensures RoundDiv(a, b) <= RoundDiv(a', b)
  {
    var r, r', m := RoundDiv(a, b), RoundDiv(a', b), 2 * b;
    assert m * r <= 2 * a + b && 2 * a' + b < m * (r' + 1);
    MulOrder(m, r' + 1, r);
  }

  /** `Math.ceil(a / b) <= 1` exactly when `a <= b`. */
  lemma CeilDivAtMostOne(a: int, b: int)
    requires b > 0
    ensures CeilDiv(a, b) <= 1 <==> a <= b
  {
    var r := CeilDiv(a, b);
    MulOrder(b, r, 1);
    MulOrder(b, r - 1, 0);
  }
}
