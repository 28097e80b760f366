/** Small facts of real arithmetic that the solver does not find on its own. */
module RealArith {

  /** A positive width scaled by a unit draw in [0, 1) stays below the width. */
  lemma MulBelow(w: real, u: real)
    ensures 0.0 < w && 0.0 <= u < 1.0 ==> 0.0 <= w * u < w
  {
    if 0.0 < w && 0.0 <= u < 1.0 {
      assert w * (1.0 - u) > 0.0;
    }
  }

  /** Scaling by a factor in [0, 1] does not enlarge a non-negative value. */
  lemma ScaleDown(a: real, f: real)
    requires 0.0 <= a && 0.0 <= f <= 1.0
    ensures 0.0 <= a * f <= a
  {
    assert a * (1.0 - f) >= 0.0;
  }

  /** r = m (1 - f) lies in [0, m] for f in [0, 1]. */
  lemma ScaleComplement(m: real, f: real, r: real)
    requires 0.0 <= m && 0.0 <= f <= 1.0 && r == m * (1.0 - f)
    ensures 0.0 <= r <= m
  {
    ScaleDown(m, f);
  }

  /** r = m (1 - 0.3 d^2), d in [0, 1], lies between 70% and all of m. */
  lemma BulgeFactor(m: real, d: real, r: real)
    requires 0.0 <= m && 0.0 <= d <= 1.0 && r == m * (1.0 - d * d * 0.3)
    ensures 0.7 * m <= r <= m
  {
    ScaleDown(d, d);
    ScaleDown(m, d * d);
  }

  lemma MulNonneg(a: real, b: real)
    requires 0.0 <= a && 0.0 <= b
    ensures 0.0 <= a * b
  {
  }

  /** The point a fraction t in [0, 1] of the way from start to stop lies between them. */
  lemma Lerp(start: real, stop: real, t: real)
    requires 0.0 <= t <= 1.0
    ensures start <= stop ==> start <= start + t * (stop - start) <= stop
    ensures stop <= start ==> stop <= start + t * (stop - start) <= start
  {
    var u := 1.0 - t;
    var w := stop - start;
    assert t * (stop - start) == t * w;
    assert t * w + u * w == w;
    if start <= stop {
      MulNonneg(t, w);
      MulNonneg(u, w);
    } else {
      MulNonneg(t, -w);
      MulNonneg(u, -w);
      assert t * (-w) == -(t * w);
      assert u * (-w) == -(u * w);
    }
  }

  lemma SquareMono(a: real, b: real)
    requires 0.0 <= a <= b
    ensures a * a <= b * b
  {
    assert a * a <= a * b <= b * b;
  }

  /** A square root of a value in [0, 1] is itself in [0, 1]. */
  lemma RootUnit(root: real)
    requires 0.0 <= root && root * root <= 1.0
    ensures root <= 1.0
  {
  }

  /** Shrinking a radius by a square root of a unit value keeps it, squared, within a bound. */
  lemma ShrinkSquare(r: real, base: real, root: real, bound: real)
    requires r == base * root
    requires 0.0 <= base <= bound && 0.0 <= root && root * root <= 1.0
    ensures 0.0 <= r <= base
    ensures r * r <= base * base <= bound * bound
  {
    RootUnit(root);
    ScaleDown(base, root);
    SquareMono(r, base);
    SquareMono(base, bound);
  }

  /** The point (x, z) = (r c, r s) with c^2 + s^2 = 1 is at squared distance r^2 from the origin. */
  lemma OnCircle(x: real, z: real, r: real, c: real, s: real)
    requires x == r * c && z == r * s && c * c + s * s == 1.0
    ensures x * x + z * z == r * r
  {
    assert x * x == r * r * (c * c);
    assert z * z == r * r * (s * s);
    assert r * r * (c * c) + r * r * (s * s) == r * r * (c * c + s * s);
  }
}
