/** The small line charts (panel/public/assets/charts.js, sparkline): values mapped into a padded box and drawn smoothly. */
module Sparkline {
  import opened Basics
  import opened Bezier
  import opened SmoothPath

  /** Too few values draw a dashed line at 70% of the height. */
  datatype Spark = Dashed(y: real) | Line(path: Path)

  const PAD: real := 4.0

  /** The values that are there. */
  function Present(values: seq<Option<real>>): seq<real> {
    if values == [] then []
    else (if values[0].Some? then [values[0].value] else []) + Present(values[1..])
  }

  function Least(v: seq<real>): (m: real)
    requires v != []
    ensures m in v && forall x | x in v :: m <= x
  {
    if |v| == 1 then v[0]
    else
      var m := Least(v[1..]);
      assert v == [v[0]] + v[1..];
      if v[0] < m then v[0] else m
  }

  function Greatest(v: seq<real>): (m: real)
    requires v != []
    ensures m in v && forall x | x in v :: x <= m
  {
    if |v| == 1 then v[0]
    else
      var m := Greatest(v[1..]);
      assert v == [v[0]] + v[1..];
      if v[0] > m then v[0] else m
  }

  function HeightOf(x: real, min: real, max: real, h: real): real
    requires max != min
  {
    PAD + (1.0 - (x - min) / (max - min)) * (h - PAD * 2.0)
  }

  function AcrossOf(i: nat, n: nat, w: real): real
    requires n >= 2
  {
    i as real / (n - 1) as real * w
  }

  function Points(v: seq<real>, min: real, max: real, w: real, h: real): (pts: seq<Point>)
    requires |v| >= 2 && max != min
    ensures |pts| == |v|
  {
    seq(|v|, i requires 0 <= i < |v| => Point(AcrossOf(i, |v|, w), HeightOf(v[i], min, max, h)))
  }

  /** The range shown: least to greatest value, one each way around a constant. */
  function Range(v: seq<real>): (r: (real, real))
    requires v != []
    ensures r.0 < r.1 && forall x | x in v :: r.0 <= x <= r.1
  {
    if Greatest(v) == Least(v) then (Least(v) - 1.0, Greatest(v) + 1.0) else (Least(v), Greatest(v))
  }

  method DrawSparkline(values: seq<Option<real>>, w: real, h: real, sqrt: real -> real) returns (spark: Spark)
    requires IsSqrt(sqrt)
    ensures spark == if |Present(values)| < 2 then Dashed(h * 0.7)
                     else
                       var v := Present(values);
                       Line(PathOf(Points(v, Range(v).0, Range(v).1, w, h), sqrt))
  {
    var v := Present(values);
    if |v| < 2 {
      return Dashed(h * 0.7);
    }
    var min, max := Least(v), Greatest(v);
    if max == min {
      max := max + 1.0;
      min := min - 1.0;
    }
    var pts := Points(v, min, max, w, h);
    var d := DrawSmoothPath(pts, sqrt);
    return Line(d);
  }

  // ---------------------------------------------------------------- the box

  ghost predicate Between(x: real, a: real, b: real) {
    a <= x <= b || b <= x <= a
  }

  lemma BlendBetween(f: real, a: real, b: real)
    requires 0.0 <= f <= 1.0
    ensures Between(a + f * (b - a), a, b)
  {
    if a <= b {
      Product(f, b - a);
      Product(1.0 - f, b - a);
    } else {
      Product(f, a - b);
      Product(1.0 - f, a - b);
      assert f * (b - a) == -(f * (a - b));
    }
  }

  lemma Fraction(n: real, d: real)
    requires d > 0.0 && 0.0 <= n <= d
    ensures 0.0 <= n / d <= 1.0
    ensures n == 0.0 ==> n / d == 0.0
    ensures n == d ==> n / d == 1.0
  {
    var f := n / d;
    assert f * d == n;
    assert -f * d == -n && (f - 1.0) * d == n - d;
    Product(-f, d);
    Product(f - 1.0, d);
  }

  /** Every mapped value is in the padded box; the least touches its bottom and the greatest its top. */
  lemma PointInBox(v: seq<real>, w: real, h: real, i: nat)
    requires |v| >= 2 && i < |v|
    ensures var p := Points(v, Range(v).0, Range(v).1, w, h)[i];
            && Between(p.x, 0.0, w) && Between(p.y, PAD, h - PAD)
            && (v[i] == Range(v).0 ==> p.y == h - PAD)
            && (v[i] == Range(v).1 ==> p.y == PAD)
            && (i == 0 ==> p.x == 0.0) && (i == |v| - 1 ==> p.x == w)
  {
    var (min, max) := Range(v);
    assert v[i] in v;
    Fraction(v[i] - min, max - min);
    var f := (v[i] - min) / (max - min);
    BlendBetween(1.0 - f, PAD, h - PAD);
    assert h - PAD - PAD == h - PAD * 2.0;
    Fraction(i as real, (|v| - 1) as real);
    BlendBetween(i as real / (|v| - 1) as real, 0.0, w);
  }

  /** A point of a drawn line: on piece `i` of a curve, or on the one segment, at parameter `u`. */
  function LineAt(path: Path, i: nat, u: real): Point
    requires path.Segment? || (path.Curve? && i < |path.pieces|)
  {
    if path.Curve? then PieceAt(path.pieces[i], u)
    else Point(path.p.x + u * (path.q.x - path.p.x), path.p.y + u * (path.q.y - path.p.y))
  }

  ghost predicate PointBetween(x: Point, p: Point, q: Point) {
    Between(x.x, p.x, q.x) && Between(x.y, p.y, q.y)
  }

  lemma BetweenBoth(x: Point, p: Point, q: Point, a: Point, b: Point)
    requires PointBetween(x, p, q) && PointBetween(p, a, b) && PointBetween(q, a, b)
    ensures PointBetween(x, a, b)
  {
  }

  lemma ForwardBetween(c: Piece, u: real)
    requires 0.0 <= u <= 1.0 && RunsForward(c, 0.0, u) && RunsForward(c, u, 1.0)
    ensures PointBetween(PieceAt(c, u), c.p0, c.p3)
  {
    BlendBetween(u, c.p0.x, c.p3.x);
  }

  /** A drawn piece stays in the rectangle of its two points. */
  lemma PieceInBox(pts: seq<Point>, sqrt: real -> real, i: nat, u: real)
    requires IsSqrt(sqrt) && |pts| >= 3 && i + 1 < |pts| && 0.0 <= u <= 1.0
    ensures PointBetween(PieceAt(PathOf(pts, sqrt).pieces[i], u), pts[i], pts[i + 1])
  {
    PieceMonotone(pts, sqrt, i, 0.0, u);
    PieceMonotone(pts, sqrt, i, u, 1.0);
    ForwardBetween(PathOf(pts, sqrt).pieces[i], u);
  }

  lemma SegmentInBox(p: Point, q: Point, u: real)
    requires 0.0 <= u <= 1.0
    ensures PointBetween(Point(p.x + u * (q.x - p.x), p.y + u * (q.y - p.y)), p, q)
  {
    BlendBetween(u, p.x, q.x);
    BlendBetween(u, p.y, q.y);
  }

  lemma LineBetween(pts: seq<Point>, sqrt: real -> real, i: nat, u: real)
    requires IsSqrt(sqrt) && |pts| >= 2 && i + 1 < |pts| && 0.0 <= u <= 1.0
    ensures var path := PathOf(pts, sqrt);
            && (path.Segment? || (path.Curve? && |path.pieces| == |pts| - 1))
            && PointBetween(LineAt(path, i, u), pts[i], pts[i + 1])
  {
    if |pts| == 2 {
      SegmentInBox(pts[0], pts[1], u);
    } else {
      PieceInBox(pts, sqrt, i, u);
    }
  }

  /** No point of a drawn sparkline leaves the padded box, whatever the values and the size of the box. */
  lemma SparklineInBox(v: seq<real>, w: real, h: real, sqrt: real -> real, i: nat, u: real)
    requires IsSqrt(sqrt) && 0.0 <= u <= 1.0 && |v| >= 2 && i + 1 < |v|
    ensures var path := PathOf(Points(v, Range(v).0, Range(v).1, w, h), sqrt);
            && (path.Segment? || (path.Curve? && |path.pieces| == |v| - 1))
            && PointBetween(LineAt(path, i, u), Point(0.0, PAD), Point(w, h - PAD))
  {
    hide PathOf, LineAt, HeightOf, AcrossOf, Range;
    var pts := Points(v, Range(v).0, Range(v).1, w, h);
    PointInBox(v, w, h, i);
    PointInBox(v, w, h, i + 1);
    LineBetween(pts, sqrt, i, u);
    BetweenBoth(LineAt(PathOf(pts, sqrt), i, u), pts[i], pts[i + 1], Point(0.0, PAD), Point(w, h - PAD));
  }

  // ---------------------------------------------------------------- the scale

  /** The mapped points are evenly spaced, a greater value is higher, and heights differ as the values do. */
  lemma PointsToScale(v: seq<real>, w: real, h: real, i: nat, j: nat)
    requires |v| >= 2 && i < |v| && j < |v|
    ensures var pts, r := Points(v, Range(v).0, Range(v).1, w, h), Range(v);
            && (pts[i].y - pts[j].y) * (r.1 - r.0) == (v[j] - v[i]) * (h - 8.0)
            && (pts[i].x - pts[j].x) * (|v| - 1) as real == (i - j) as real * w
            && (h > 8.0 ==> (pts[i].y < pts[j].y <==> v[i] > v[j]))
  {
    hide Range, HeightOf, AcrossOf;
    var (min, max) := Range(v);
    var pts := Points(v, min, max, w, h);
    HeightsToScale(v[i], v[j], min, max, h);
    AcrossToScale(i, j, |v|, w);
    if h > 8.0 {
      SameSigns(pts[i].y - pts[j].y, max - min, v[j] - v[i], h - 8.0);
    }
  }

  lemma HeightsToScale(x: real, y: real, min: real, max: real, h: real)
    requires max != min
    ensures (HeightOf(x, min, max, h) - HeightOf(y, min, max, h)) * (max - min) == (y - x) * (h - 8.0)
  {
    var d, k := max - min, h - 8.0;
    var f, g := (x - min) / d, (y - min) / d;
    assert f * d == x - min && g * d == y - min;
    assert HeightOf(x, min, max, h) - HeightOf(y, min, max, h) == (g - f) * k;
    assert (g - f) * k * d == (g * d - f * d) * k;
  }

  lemma AcrossToScale(i: nat, j: nat, n: nat, w: real)
    requires n >= 2
    ensures (AcrossOf(i, n, w) - AcrossOf(j, n, w)) * (n - 1) as real == (i - j) as real * w
  {
    var d := (n - 1) as real;
    var f, g := i as real / d, j as real / d;
    assert f * d == i as real && g * d == j as real;
    assert (f * w - g * w) * d == (f * d - g * d) * w;
  }

  /** With a, b > 0, p * a == q * b makes p and q alike in sign. */
  lemma SameSigns(p: real, a: real, q: real, b: real)
    requires a > 0.0 && b > 0.0 && p * a == q * b
    ensures p < 0.0 <==> q < 0.0
  {
    if p < 0.0 && q >= 0.0 {
      Product(q, b);
    }
    if q < 0.0 && p >= 0.0 {
      Product(p, a);
    }
  }

  /** Values that are all there are kept in order. */
  lemma {:induction false} PresentKept(v: seq<real>)
    ensures Present(seq(|v|, i requires 0 <= i < |v| => Some(v[i]))) == v
  {
    if v != [] {
      PresentKept(v[1..]);
      var all, rest := seq(|v|, i requires 0 <= i < |v| => Some(v[i])), seq(|v| - 1, i requires 0 <= i < |v| - 1 => Some(v[1..][i]));
      assert all[1..] == rest;
    }
  }

  /** A value that is not there makes no difference to the others. */
  lemma {:induction false} AbsentSkipped(before: seq<Option<real>>, after: seq<Option<real>>)
    ensures Present(before + [None] + after) == Present(before + after)
  {
    if before == [] {
      assert ([] + [None] + after)[1..] == after && [] + after == after;
    } else {
      AbsentSkipped(before[1..], after);
      assert (before + [None] + after)[1..] == before[1..] + [None] + after;
      assert (before + after)[1..] == before[1..] + after;
    }
  }

  /** Values that are all the same are drawn across the middle. */
  lemma ConstantInTheMiddle(v: seq<real>, w: real, h: real, i: nat)
    requires |v| >= 2 && i < |v| && forall k | 0 <= k < |v| :: v[k] == v[0]
    ensures Points(v, Range(v).0, Range(v).1, w, h)[i].y == h / 2.0
  {
    var x := v[0];
    assert Least(v) == x && Greatest(v) == x;
    assert (v[i] - (x - 1.0)) / ((x + 1.0) - (x - 1.0)) == 0.5;
  }
}
