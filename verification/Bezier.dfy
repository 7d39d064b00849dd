/** Cubic Bézier pieces over the reals: when one coordinate of a piece runs monotonically between its ends. */
module Bezier {

  /** The cubic with control values c0..c3 at parameter u. */
  function Cubic(c0: real, c1: real, c2: real, c3: real, u: real): real {
    var v := 1.0 - u;
    v * v * v * c0 + 3.0 * (v * v * u) * c1 + 3.0 * (v * u * u) * c2 + u * u * u * c3
  }

  /** A third of the derivative of the cubic whose control values rise by p, q and r. */
  function Slope(p: real, q: real, r: real, u: real): real {
    (1.0 - u) * (1.0 - u) * p + 2.0 * (u * (1.0 - u)) * q + u * u * r
  }

  /** The same cubic, and a third of its derivative, by powers of u. */
  function Power(c0: real, a: real, b: real, c: real, u: real): real {
    c0 + 3.0 * a * u + 3.0 * b * (u * u) + c * (u * u * u)
  }

  function PowerSlope(a: real, b: real, c: real, u: real): real {
    a + 2.0 * b * u + c * (u * u)
  }

  lemma CubicExpanded(c0: real, p: real, q: real, r: real, u: real)
    ensures Cubic(c0, c0 + p, c0 + p + q, c0 + p + q + r, u) == Power(c0, p, q - p, p - 2.0 * q + r, u)
  {
  }

  lemma SlopeExpanded(p: real, q: real, r: real, u: real)
    ensures Slope(p, q, r, u) == PowerSlope(p, q - p, p - 2.0 * q + r, u)
  {
  }

  /** Three times the integral from u to v of a function by its values at u, halfway and at v. */
  function Simpson(u: real, v: real, s0: real, s1: real, s2: real): real {
    (v - u) / 2.0 * (s0 + 4.0 * s1 + s2)
  }

  /** Simpson's rule is exact here: the rise of the cubic from u to v, by its slope at u, v and halfway. */
  lemma Rise(c0: real, p: real, q: real, r: real, u: real, v: real)
    ensures Cubic(c0, c0 + p, c0 + p + q, c0 + p + q + r, v) - Cubic(c0, c0 + p, c0 + p + q, c0 + p + q + r, u)
         == Simpson(u, v, Slope(p, q, r, u), Slope(p, q, r, (u + v) / 2.0), Slope(p, q, r, v))
  {
    hide Cubic, Slope, Power, PowerSlope, Simpson;
    CubicExpanded(c0, p, q, r, u);
    CubicExpanded(c0, p, q, r, v);
    SlopeExpanded(p, q, r, u);
    SlopeExpanded(p, q, r, v);
    SlopeExpanded(p, q, r, (u + v) / 2.0);
    RiseExpanded(c0, p, q - p, p - 2.0 * q + r, u, v);
  }

  lemma RiseExpanded(c0: real, a: real, b: real, c: real, u: real, v: real)
    ensures Power(c0, a, b, c, v) - Power(c0, a, b, c, u)
         == Simpson(u, v, PowerSlope(a, b, c, u), PowerSlope(a, b, c, (u + v) / 2.0), PowerSlope(a, b, c, v))
  {
    assert ((u + v) / 2.0) * ((u + v) / 2.0) == (u * u + 2.0 * u * v + v * v) / 4.0;
  }

  /**
   The limit of Fritsch and Carlson: end slopes a and b, measured against the chord, whose squares
   sum to at most 9 leave the slope between them nonnegative.
   */
  ghost predicate WithinLimit(a: real, b: real) {
    a >= 0.0 && b >= 0.0 && a * a + b * b <= 9.0
  }

  lemma SlopeIs(p: real, q: real, r: real, u: real, v: real)
    requires v == 1.0 - u
    ensures Slope(p, q, r, u) == v * v * p + 2.0 * (u * v) * q + u * u * r
  {
  }

  lemma SlopeNonnegative(a: real, b: real, u: real)
    requires WithinLimit(a, b) && 0.0 <= u <= 1.0
    ensures Slope(a, 3.0 - a - b, b, u) >= 0.0
  {
    hide Slope;
    SlopeIs(a, 3.0 - a - b, b, u, 1.0 - u);
    if a + b <= 3.0 {
      Blend(a, b, 3.0 - a - b, 1.0 - u, u);
    } else {
      Discriminant(a, b);
      CompleteSquare(a, b, 3.0 - a - b, 1.0 - u, u);
    }
  }

  lemma Blend(a: real, b: real, q: real, v: real, u: real)
    requires a >= 0.0 && b >= 0.0 && q >= 0.0 && v >= 0.0 && u >= 0.0
    ensures v * v * a + 2.0 * (u * v) * q + u * u * b >= 0.0
  {
    Product(u, v);
    Product(v, v);
    Product(u, u);
    Product(v * v, a);
    Product(u * u, b);
    Product(u * v, q);
  }

  lemma Product(x: real, y: real)
    ensures x >= 0.0 && y >= 0.0 ==> x * y >= 0.0
    ensures x > 0.0 && y > 0.0 ==> x * y > 0.0
  {
  }

  lemma Square(x: real)
    ensures x * x >= 0.0
  {
  }

  lemma Discriminant(a: real, b: real)
    requires WithinLimit(a, b) && a + b > 3.0
    ensures (3.0 - a - b) * (3.0 - a - b) <= a * b
    ensures a > 0.0
  {
    var s := a + b;
    assert s * s == a * a + b * b + 2.0 * (a * b);
    Square(a - b);
    assert (a - b) * (a - b) == a * a + b * b - 2.0 * (a * b);
    if s > 9.0 {
      Product(s - 9.0, s);
      assert (s - 9.0) * s == s * s - 9.0 * s;
    }
    Product(s - 3.0, 9.0 - s);
    assert (s - 3.0) * (9.0 - s) == 12.0 * s - s * s - 27.0;
    assert (3.0 - s) * (3.0 - s) == s * s - 6.0 * s + 9.0 && 3.0 - a - b == 3.0 - s;
    if a == 0.0 {
      Product(b - 3.0, b + 3.0);
    }
  }

  lemma CompleteSquare(a: real, b: real, q: real, v: real, u: real)
    requires a > 0.0 && q * q <= a * b
    ensures v * v * a + 2.0 * (u * v) * q + u * u * b >= 0.0
  {
    var g := v * v * a + 2.0 * (u * v) * q + u * u * b;
    assert a * g == (a * v + q * u) * (a * v + q * u) + (a * b - q * q) * (u * u);
    Square(a * v + q * u);
    Square(u);
    Product(a * b - q * q, u * u);
    assert a * -g == -(a * g);
    Product(a, -g);
  }

  /** A piece whose first and last control rises are a/3 and b/3 of its whole rise `d`. */
  lemma SlopeScaled(a: real, b: real, d: real, u: real)
    ensures Slope(a * d / 3.0, d - a * d / 3.0 - b * d / 3.0, b * d / 3.0, u) == d / 3.0 * Slope(a, 3.0 - a - b, b, u)
  {
    var e := d / 3.0;
    assert a * d / 3.0 == a * e && b * d / 3.0 == b * e;
    assert d - a * e - b * e == (3.0 - a - b) * e;
    SlopeTimes(a, 3.0 - a - b, b, e, u);
  }

  lemma SlopeTimes(p: real, q: real, r: real, e: real, u: real)
    ensures Slope(p * e, q * e, r * e, u) == e * Slope(p, q, r, u)
  {
    var v := 1.0 - u;
    assert v * v * (p * e) == e * (v * v * p);
    assert 2.0 * (u * v) * (q * e) == e * (2.0 * (u * v) * q);
    assert u * u * (r * e) == e * (u * u * r);
  }

  /** The rise from u to v is the piece's whole rise times a factor that is the same for every rise. */
  lemma RiseScaled(y0: real, y3: real, a: real, b: real, u: real, v: real)
    ensures Scaled(y0, y3, a, b, v) - Scaled(y0, y3, a, b, u)
         == (y3 - y0) / 3.0 * Simpson(u, v, Slope(a, 3.0 - a - b, b, u), Slope(a, 3.0 - a - b, b, (u + v) / 2.0),
                                      Slope(a, 3.0 - a - b, b, v))
  {
    hide Cubic, Slope, Scaled, Simpson;
    var d := y3 - y0;
    var p, r := a * d / 3.0, b * d / 3.0;
    var q := d - p - r;
    var w := (u + v) / 2.0;
    var s0, s1, s2 := Slope(a, 3.0 - a - b, b, u), Slope(a, 3.0 - a - b, b, w), Slope(a, 3.0 - a - b, b, v);
    Rise(y0, p, q, r, u, v);
    SlopeScaled(a, b, d, u);
    SlopeScaled(a, b, d, w);
    SlopeScaled(a, b, d, v);
    SameControls(y0, y3, a, b, p, q, r, u);
    SameControls(y0, y3, a, b, p, q, r, v);
    SimpsonTimes(u, v, d / 3.0, s0, s1, s2, Slope(p, q, r, u), Slope(p, q, r, w), Slope(p, q, r, v));
  }

  lemma SameControls(y0: real, y3: real, a: real, b: real, p: real, q: real, r: real, u: real)
    requires p == a * (y3 - y0) / 3.0 && r == b * (y3 - y0) / 3.0 && q == y3 - y0 - p - r
    ensures Scaled(y0, y3, a, b, u) == Cubic(y0, y0 + p, y0 + p + q, y0 + p + q + r, u)
  {
    hide Cubic;
    assert y0 + p + q == y3 - r && y0 + p + q + r == y3;
  }

  lemma SimpsonTimes(u: real, v: real, e: real, s0: real, s1: real, s2: real, t0: real, t1: real, t2: real)
    requires t0 == e * s0 && t1 == e * s1 && t2 == e * s2
    ensures Simpson(u, v, t0, t1, t2) == e * Simpson(u, v, s0, s1, s2)
  {
  }

  lemma SimpsonNonnegative(u: real, v: real, s0: real, s1: real, s2: real)
    requires u <= v && s0 >= 0.0 && s1 >= 0.0 && s2 >= 0.0
    ensures Simpson(u, v, s0, s1, s2) >= 0.0
  {
    Product((v - u) / 2.0, s0 + 4.0 * s1 + s2);
  }

  /** The value at u of the piece from y0 to y3 with end slopes a and b against the chord. */
  function Scaled(y0: real, y3: real, a: real, b: real, u: real): real {
    Cubic(y0, y0 + a * (y3 - y0) / 3.0, y3 - b * (y3 - y0) / 3.0, y3, u)
  }

  lemma SlopeAt(a: real, b: real, u: real) returns (s: real)
    requires WithinLimit(a, b) && 0.0 <= u <= 1.0
    ensures s == Slope(a, 3.0 - a - b, b, u) && s >= 0.0
  {
    SlopeNonnegative(a, b, u);
    s := Slope(a, 3.0 - a - b, b, u);
  }

  lemma RiseFactor(y0: real, y3: real, a: real, b: real, u: real, v: real) returns (k: real)
    requires WithinLimit(a, b) && 0.0 <= u <= v <= 1.0
    ensures k >= 0.0
    ensures Scaled(y0, y3, a, b, v) - Scaled(y0, y3, a, b, u) == (y3 - y0) / 3.0 * k
  {
    hide Slope, Scaled, Simpson;
    var s0 := SlopeAt(a, b, u);
    var s1 := SlopeAt(a, b, (u + v) / 2.0);
    var s2 := SlopeAt(a, b, v);
    RiseScaled(y0, y3, a, b, u, v);
    k := Simpson(u, v, s0, s1, s2);
    SimpsonNonnegative(u, v, s0, s1, s2);
  }

  /** Within the limit the piece runs from its first value to its last without turning back. */
  lemma CubicMonotone(y0: real, y3: real, a: real, b: real, u: real, v: real)
    requires WithinLimit(a, b) && 0.0 <= u <= v <= 1.0
    ensures y0 <= y3 ==> Scaled(y0, y3, a, b, u) <= Scaled(y0, y3, a, b, v)
    ensures y0 >= y3 ==> Scaled(y0, y3, a, b, u) >= Scaled(y0, y3, a, b, v)
  {
    hide Scaled;
    var k := RiseFactor(y0, y3, a, b, u, v);
    SameSign(Scaled(y0, y3, a, b, u), Scaled(y0, y3, a, b, v), y3 - y0, k);
  }

  /** The same of a piece given by its control values. */
  lemma ControlsMonotone(c0: real, c1: real, c2: real, c3: real, a: real, b: real, u: real, v: real)
    requires WithinLimit(a, b) && 0.0 <= u <= v <= 1.0
    requires c1 == c0 + a * (c3 - c0) / 3.0 && c2 == c3 - b * (c3 - c0) / 3.0
    ensures c0 <= c3 ==> Cubic(c0, c1, c2, c3, u) <= Cubic(c0, c1, c2, c3, v)
    ensures c0 >= c3 ==> Cubic(c0, c1, c2, c3, u) >= Cubic(c0, c1, c2, c3, v)
  {
    CubicMonotone(c0, c3, a, b, u, v);
  }

  lemma SameSign(lo: real, hi: real, d: real, k: real)
    requires k >= 0.0 && hi - lo == d / 3.0 * k
    ensures (d >= 0.0 ==> lo <= hi) && (d <= 0.0 ==> lo >= hi)
  {
    if d >= 0.0 {
      Product(d / 3.0, k);
    } else {
      Product(-d / 3.0, k);
      assert -d / 3.0 * k == -(d / 3.0 * k);
    }
  }

  lemma CubicEnds(c0: real, c1: real, c2: real, c3: real)
    ensures Cubic(c0, c1, c2, c3, 0.0) == c0 && Cubic(c0, c1, c2, c3, 1.0) == c3
  {
  }

  /** With its inner controls at the thirds the piece advances at constant speed. */
  lemma CubicLinear(x0: real, x3: real, u: real)
    ensures Cubic(x0, x0 + (x3 - x0) / 3.0, x3 - (x3 - x0) / 3.0, x3, u) == x0 + u * (x3 - x0)
  {
    var h := (x3 - x0) / 3.0;
    assert x0 + h + h == x3 - h && x0 + h + h + h == x3;
    CubicExpanded(x0, h, h, h, u);
    assert 3.0 * h * u == u * (x3 - x0);
  }
}
