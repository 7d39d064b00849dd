/**
 Which curve the smooth path is, told from the points alone: the slopes it starts from, what one sweep over
 the intervals makes of them, and that it draws a straight line through points on a line.
 */
module CurveShape {
  import opened Bezier
  import opened SmoothPath

  // ---------------------------------------------------------------- the curve from the points alone

  /** `m` is the slope from one point to another, 0 between points one above the other. */
  ghost predicate IsSlope(p: Point, q: Point, m: real) {
    if q.x == p.x then m == 0.0 else m * (q.x - p.x) == q.y - p.y
  }

  /** The slopes between neighbouring points. */
  ghost predicate Slopes(pts: seq<Point>, m: seq<real>) {
    |m| + 1 == |pts| && forall i | 0 <= i < |m| :: IsSlope(pts[i], pts[i + 1], m[i])
  }

  ghost predicate SameSign(a: real, b: real) {
    (a > 0.0 && b > 0.0) || (a < 0.0 && b < 0.0)
  }

  /** `t` are the end slopes at the ends, and inside the mean of both neighbours where they share a sign, else 0. */
  ghost predicate Means(m: seq<real>, t: seq<real>) {
    && |m| >= 1 && |t| == |m| + 1
    && t[0] == m[0] && t[|m|] == m[|m| - 1]
    && forall i | 0 < i < |m| ::
         if SameSign(m[i - 1], m[i]) then 2.0 * t[i] == m[i - 1] + m[i] else t[i] == 0.0
  }

  /**
   What an interval of slope `m` makes of its tangents a0, a1: flat if it is flat, nothing if they are within
   the limit, else the same direction pulled in onto the circle of radius 3.
   */
  ghost predicate LimitsTo(m: real, a0: real, a1: real, b0: real, b1: real) {
    if m == 0.0 then b0 == 0.0 && b1 == 0.0
    else if (a0 / m) * (a0 / m) + (a1 / m) * (a1 / m) <= 9.0 then b0 == a0 && b1 == a1
    else
      && (b0 / m) * (b0 / m) + (b1 / m) * (b1 / m) == 9.0
      && b0 * a1 == b1 * a0 && Shrunk(a0, b0) && Shrunk(a1, b1)
  }

  /**
   One sweep from left to right: each interval finds its left tangent as the interval before it left it
   (`left`) and its right one untouched, and what it makes of the left one stays.
   */
  ghost predicate Swept(m: seq<real>, t: seq<real>, left: seq<real>, r: seq<real>) {
    && |m| >= 1 && |t| == |left| == |r| == |m| + 1
    && left[0] == t[0] && r[|m|] == left[|m|]
    && forall i | 0 <= i < |m| :: LimitsTo(m[i], left[i], t[i + 1], r[i], left[i + 1])
  }

  /** The piece leaves its first point with slope t0 and reaches its last with slope t1, its controls a third of the way in. */
  ghost predicate Leads(c: Piece, t0: real, t1: real) {
    var w := c.p3.x - c.p0.x;
    && 3.0 * (c.p1.x - c.p0.x) == w && 3.0 * (c.p3.x - c.p2.x) == w
    && 3.0 * (c.p1.y - c.p0.y) == t0 * w && 3.0 * (c.p3.y - c.p2.y) == t1 * w
  }

  // ---------------------------------------------------------------- it is that curve

  lemma SlopesAreSecants(pts: seq<Point>, m: seq<real>)
    requires Slopes(pts, m) && |pts| >= 1
    ensures m == Secants(pts)
  {
    hide IsSlope, Secant;
    forall i | 0 <= i < |m| ensures m[i] == Secants(pts)[i] {
      SlopeIsSecant(pts[i], pts[i + 1], m[i]);
    }
  }

  lemma SlopeIsSecant(p: Point, q: Point, m: real)
    requires IsSlope(p, q, m)
    ensures m == Secant(p, q)
  {
    if p.x != q.x {
      Quotient(m, q.x - p.x, q.y - p.y);
    }
  }

  lemma Quotient(q: real, d: real, n: real)
    requires d != 0.0 && q * d == n
    ensures n / d == q
  {
    var p := n / d;
    assert p * d == n;
    assert (p - q) * d == 0.0;
    if p > q { NotZero(p - q, d); }
    if p < q { NotZero(p - q, d); }
  }

  lemma NotZero(a: real, b: real)
    requires a != 0.0 && b != 0.0
    ensures a * b != 0.0
  {
  }

  lemma SignOfProduct(a: real, b: real)
    ensures a * b > 0.0 <==> SameSign(a, b)
  {
  }

  lemma MeansAreFirst(m: seq<real>, t: seq<real>)
    requires Means(m, t)
    ensures t == FirstTangents(m)
  {
    forall i | 0 <= i < |t| ensures t[i] == FirstTangents(m)[i] {
      if 0 < i < |m| {
        SignOfProduct(m[i - 1], m[i]);
      }
    }
  }

  lemma PairLimitsTo(m: real, t0: real, t1: real, sqrt: real -> real)
    requires IsSqrt(sqrt) && Aligned(m, t0) && Aligned(m, t1)
    ensures var p := LimitPair(m, t0, t1, sqrt); LimitsTo(m, t0, t1, p.0, p.1)
  {
    LimitPairWorks(m, t0, t1, sqrt);
    if m != 0.0 {
      var a, b := t0 / m, t1 / m;
      if SumOfSquares(a, b) > 9.0 {
        var r := Root(sqrt, SumOfSquares(a, b));
        RootNonzero(SumOfSquares(a, b), sqrt);
        CircleFactor(a, b, r);
        var k := 3.0 / r;
        ScaleShrinks(k, t0, m);
        ScaleShrinks(k, t1, m);
        ScaleDirection(k, m, t0, t1);
      }
    }
  }

  lemma ScaleDirection(k: real, m: real, t0: real, t1: real)
    requires m != 0.0
    ensures Scale(k, t0 / m, m) * t1 == Scale(k, t1 / m, m) * t0
  {
    var a, b := t0 / m, t1 / m;
    assert a * m == t0 && b * m == t1;
    assert Scale(k, a, m) == k * (a * m) && Scale(k, b, m) == k * (b * m);
    assert (k * t0) * t1 == (k * t1) * t0;
  }

  /** Interval `n` of the sweep touches its own two tangents only. */
  lemma {:induction false} LimitedFrame(m: seq<real>, t: seq<real>, n: nat, i: nat, sqrt: real -> real)
    requires |t| == |m| + 1 && n <= |m| && i < |t|
    ensures n < i ==> Limited(m, t, n, sqrt)[i] == t[i]
    ensures i < n ==> Limited(m, t, n, sqrt)[i] == Limited(m, t, i + 1, sqrt)[i]
  {
    hide LimitPair;
    if n > 0 {
      LimitedFrame(m, t, n - 1, i, sqrt);
    }
  }

  lemma SweepStep(m: seq<real>, t: seq<real>, i: nat, sqrt: real -> real)
    requires IsSqrt(sqrt) && Means(m, t) && i < |m|
    ensures LimitsTo(m[i], Limited(m, t, i, sqrt)[i], t[i + 1], Limited(m, t, |m|, sqrt)[i], Limited(m, t, i + 1, sqrt)[i + 1])
  {
    hide LimitPair, LimitsTo, Limited;
    var before, after := Limited(m, t, i, sqrt), Limited(m, t, i + 1, sqrt);
    MeansAligned(m, t);
    LimitedWorks(m, t, i, sqrt);
    LimitedFrame(m, t, i, i + 1, sqrt);
    LimitedFrame(m, t, |m|, i, sqrt);
    NextLimited(m, t, i, sqrt);
    PairLimitsTo(m[i], before[i], before[i + 1], sqrt);
  }

  lemma NextLimited(m: seq<real>, t: seq<real>, i: nat, sqrt: real -> real)
    requires |t| == |m| + 1 && i < |m|
    ensures Limited(m, t, i + 1, sqrt) == LimitAt(m, Limited(m, t, i, sqrt), i, sqrt)
  {
  }

  lemma MeansAligned(m: seq<real>, t: seq<real>)
    requires Means(m, t)
    ensures forall i | 0 <= i < |m| :: Aligned(m[i], t[i]) && Aligned(m[i], t[i + 1])
  {
    MeansAreFirst(m, t);
    forall i | 0 <= i < |m| ensures Aligned(m[i], t[i]) && Aligned(m[i], t[i + 1]) {
      FirstAligned(m, i);
    }
  }

  lemma TangentsSwept(pts: seq<Point>, m: seq<real>, t: seq<real>, sqrt: real -> real) returns (left: seq<real>)
    requires IsSqrt(sqrt) && |pts| >= 2 && Slopes(pts, m) && Means(m, t)
    ensures Swept(m, t, left, Tangents(pts, sqrt))
  {
    hide Limited, LimitsTo;
    SlopesAreSecants(pts, m);
    MeansAreFirst(m, t);
    left := seq(|t|, i requires 0 <= i < |t| => Limited(m, t, i, sqrt)[i]);
    forall i | 0 <= i < |m|
      ensures LimitsTo(m[i], left[i], t[i + 1], Tangents(pts, sqrt)[i], left[i + 1])
    {
      SweepStep(m, t, i, sqrt);
    }
    LimitedNothing(m, t, sqrt);
  }

  lemma LimitedNothing(m: seq<real>, t: seq<real>, sqrt: real -> real)
    requires |t| == |m| + 1
    ensures Limited(m, t, 0, sqrt) == t
  {
  }

  /**
   Which curve is drawn, from the points alone: its slope at each point is what one sweep makes of the means
   of the neighbouring slopes.
   */
  lemma DrawnCurve(pts: seq<Point>, m: seq<real>, t: seq<real>, sqrt: real -> real)
    returns (left: seq<real>, r: seq<real>)
    requires IsSqrt(sqrt) && |pts| >= 3 && Slopes(pts, m) && Means(m, t)
    ensures Swept(m, t, left, r)
    ensures var path := PathOf(pts, sqrt);
            && path.Curve? && |path.pieces| == |m|
            && forall i | 0 <= i < |m| ::
                 path.pieces[i].p0 == pts[i] && path.pieces[i].p3 == pts[i + 1] && Leads(path.pieces[i], r[i], r[i + 1])
  {
    hide Tangents, Swept;
    left := TangentsSwept(pts, m, t, sqrt);
    r := Tangents(pts, sqrt);
    assert |r| == |pts|;
    forall i | 0 <= i < |m| ensures Leads(PieceOf(pts[i], pts[i + 1], r[i], r[i + 1]), r[i], r[i + 1]) {
      PieceLeads(pts[i], pts[i + 1], r[i], r[i + 1]);
    }
  }

  lemma PieceLeads(p: Point, q: Point, t0: real, t1: real)
    ensures Leads(PieceOf(p, q, t0, t1), t0, t1)
  {
    var w := q.x - p.x;
    assert 3.0 * (t0 * (w / 3.0)) == t0 * w && 3.0 * (t1 * (w / 3.0)) == t1 * w;
  }

  // ---------------------------------------------------------------- what follows for particular points

  /** Where the means are within the limit on every interval, they are the slopes of the curve. */
  lemma MeansKept(pts: seq<Point>, m: seq<real>, t: seq<real>, sqrt: real -> real)
    requires IsSqrt(sqrt) && |pts| >= 2 && Slopes(pts, m) && Means(m, t)
    requires forall i | 0 <= i < |m| :: LimitMet(m[i], t[i], t[i + 1])
    ensures Tangents(pts, sqrt) == t
  {
    hide Limited, LimitMet;
    SlopesAreSecants(pts, m);
    MeansAreFirst(m, t);
    forall i | 0 <= i < |m| ensures LimitMet(m[i], FirstTangent(m, i), FirstTangent(m, i + 1)) {
      assert t[i] == FirstTangents(m)[i] && t[i + 1] == FirstTangents(m)[i + 1];
    }
    LimitLeavesGood(m, |m|, sqrt);
  }

  /** The slope of the curve is that mean pulled towards zero; where the line turns or goes level, the curve is level. */
  lemma MeansShrink(pts: seq<Point>, m: seq<real>, t: seq<real>, sqrt: real -> real, i: nat)
    requires IsSqrt(sqrt) && |pts| >= 2 && Slopes(pts, m) && Means(m, t) && i < |pts|
    ensures Shrunk(t[i], Tangents(pts, sqrt)[i])
    ensures 0 < i < |m| && !SameSign(m[i - 1], m[i]) ==> Tangents(pts, sqrt)[i] == 0.0
  {
    SlopesAreSecants(pts, m);
    MeansAreFirst(m, t);
    TangentsWork(pts, sqrt);
  }

  /** Points on a line are drawn as that line. */
  lemma StraightLine(pts: seq<Point>, a: real, b: real, sqrt: real -> real, i: nat, u: real)
    requires IsSqrt(sqrt) && |pts| >= 3 && i + 1 < |pts|
    requires forall k | 0 <= k < |pts| :: pts[k].y == a + b * pts[k].x
    requires forall k | 0 <= k < |pts| - 1 :: pts[k].x != pts[k + 1].x
    ensures var p := PieceAt(PathOf(pts, sqrt).pieces[i], u);
            p.x == pts[i].x + u * (pts[i + 1].x - pts[i].x) && p.y == a + b * p.x
  {
    hide Slopes, Means, LimitMet, Tangents, PathOf, PieceOf, PieceAt;
    var m, t := seq(|pts| - 1, _ => b), seq(|pts|, _ => b);
    LineSlopes(pts, m, t, a, b);
    LineMet(b);
    MeansKept(pts, m, t, sqrt);
    var t0, t1 := PieceIs(pts, sqrt, i);
    LinePiece(pts[i], pts[i + 1], a, b, u);
  }

  lemma LineSlopes(pts: seq<Point>, m: seq<real>, t: seq<real>, a: real, b: real)
    requires |pts| >= 2 && |t| == |pts| == |m| + 1
    requires (forall k | 0 <= k < |m| :: m[k] == b) && (forall k | 0 <= k < |t| :: t[k] == b)
    requires forall k | 0 <= k < |pts| :: pts[k].y == a + b * pts[k].x
    requires forall k | 0 <= k < |pts| - 1 :: pts[k].x != pts[k + 1].x
    ensures Slopes(pts, m) && Means(m, t)
  {
    forall k | 0 <= k < |m| ensures IsSlope(pts[k], pts[k + 1], m[k]) {
      LineRise(pts[k], pts[k + 1], a, b);
    }
  }

  lemma LineMet(b: real)
    ensures LimitMet(b, b, b)
  {
    if b != 0.0 {
      Quotient(1.0, b, b);
    }
  }

  lemma LineRise(p: Point, q: Point, a: real, b: real)
    requires p.y == a + b * p.x && q.y == a + b * q.x
    ensures b * (q.x - p.x) == q.y - p.y
  {
  }

  lemma LinePiece(p: Point, q: Point, a: real, b: real, u: real)
    requires p.y == a + b * p.x && q.y == a + b * q.x
    ensures var r := PieceAt(PieceOf(p, q, b, b), u); r.x == p.x + u * (q.x - p.x) && r.y == a + b * r.x
  {
    hide Cubic;
    var w, c := q.x - p.x, PieceOf(p, q, b, b);
    LineRise(p, q, a, b);
    assert b * (w / 3.0) == (q.y - p.y) / 3.0;
    CubicLinear(p.x, q.x, u);
    CubicLinear(p.y, q.y, u);
    assert c.p1.y == p.y + (q.y - p.y) / 3.0 && c.p2.y == q.y - (q.y - p.y) / 3.0;
    assert PieceAt(c, u).y == p.y + u * (q.y - p.y);
    assert b * (p.x + u * w) == b * p.x + u * (b * w);
  }
}
