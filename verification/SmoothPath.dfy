/**
 The smooth line of the charts (panel/public/assets/charts.js): tangents from the secants, a second
 pass over them in place, and one cubic piece per pair of points, before output rounding. Numbers are
 reals and the square root is a parameter.
 */
module SmoothPath {
  import opened Bezier

  datatype Point = Point(x: real, y: real)
  datatype Piece = Piece(p0: Point, p1: Point, p2: Point, p3: Point)
  datatype Path = NoPath | Dot(p: Point) | Segment(p: Point, q: Point) | Curve(pieces: seq<Piece>)

  /** Math.sqrt, given as a parameter. */
  function Root(sqrt: real -> real, s: real): real {
    sqrt(s)
  }

  ghost predicate IsSqrt(sqrt: real -> real) {
    forall s: real :: s >= 0.0 ==> Root(sqrt, s) >= 0.0 && Root(sqrt, s) * Root(sqrt, s) == s
  }

  // ---------------------------------------------------------------- what is computed

  /** dx ? dy / dx : 0 */
  function Ratio(dy: real, dx: real): real {
    if dx != 0.0 then dy / dx else 0.0
  }

  function Secant(p: Point, q: Point): real {
    Ratio(q.y - p.y, q.x - p.x)
  }

  function Secants(pts: seq<Point>): (m: seq<real>)
    requires |pts| > 0
    ensures |m| == |pts| - 1
  {
    seq(|pts| - 1, i requires 0 <= i < |pts| - 1 => Secant(pts[i], pts[i + 1]))
  }

  /** The mean of the neighbouring secants, flat where they disagree in sign; the end secants at the ends. */
  function FirstTangent(m: seq<real>, i: nat): real
    requires |m| >= 1 && i <= |m|
  {
    if i == 0 then m[0]
    else if i == |m| then m[|m| - 1]
    else if m[i - 1] * m[i] <= 0.0 then 0.0
    else (m[i - 1] + m[i]) / 2.0
  }

  function FirstTangents(m: seq<real>): (t: seq<real>)
    requires |m| >= 1
    ensures |t| == |m| + 1
  {
    seq(|m| + 1, i requires 0 <= i <= |m| => FirstTangent(m, i))
  }

  function SumOfSquares(a: real, b: real): real {
    a * a + b * b
  }

  function Scale(k: real, a: real, m: real): real {
    k * a * m
  }

  /** What an interval with secant `m` makes of its two tangents. */
  function LimitPair(m: real, t0: real, t1: real, sqrt: real -> real): (real, real) {
    if m == 0.0 then (0.0, 0.0)
    else
      var a, b := t0 / m, t1 / m;
      var s := SumOfSquares(a, b);
      if s > 9.0 && Root(sqrt, s) != 0.0 then
        var k := 3.0 / Root(sqrt, s);
        (Scale(k, a, m), Scale(k, b, m))
      else (t0, t1)
  }

  /** One step of the limiting pass: interval `i` rescales its two tangents. */
  function LimitAt(m: seq<real>, t: seq<real>, i: nat, sqrt: real -> real): (r: seq<real>)
    requires |t| == |m| + 1 && i < |m|
    ensures |r| == |t|
  {
    var p := LimitPair(m[i], t[i], t[i + 1], sqrt);
    t[i := p.0][i + 1 := p.1]
  }

  function Limited(m: seq<real>, t: seq<real>, n: nat, sqrt: real -> real): (r: seq<real>)
    requires |t| == |m| + 1 && n <= |m|
    ensures |r| == |t|
  {
    if n == 0 then t else LimitAt(m, Limited(m, t, n - 1, sqrt), n - 1, sqrt)
  }

  function PieceOf(p: Point, q: Point, t0: real, t1: real): Piece {
    var h := (q.x - p.x) / 3.0;
    Piece(p, Point(p.x + h, p.y + t0 * h), Point(q.x - h, q.y - t1 * h), q)
  }

  function Pieces(pts: seq<Point>, t: seq<real>): (r: seq<Piece>)
    requires |pts| == |t| >= 1
    ensures |r| == |pts| - 1
  {
    seq(|pts| - 1, i requires 0 <= i < |pts| - 1 => PieceOf(pts[i], pts[i + 1], t[i], t[i + 1]))
  }

  function Tangents(pts: seq<Point>, sqrt: real -> real): (t: seq<real>)
    requires |pts| >= 2
    ensures |t| == |pts|
  {
    var m := Secants(pts);
    Limited(m, FirstTangents(m), |m|, sqrt)
  }

  function PathOf(pts: seq<Point>, sqrt: real -> real): Path {
    if |pts| == 0 then NoPath
    else if |pts| == 1 then Dot(pts[0])
    else if |pts| == 2 then Segment(pts[0], pts[1])
    else
      Curve(Pieces(pts, Tangents(pts, sqrt)))
  }

  // ---------------------------------------------------------------- how it is computed

  method FillSecants(pts: seq<Point>, dx: array<real>, dy: array<real>, m: array<real>)
    requires |pts| >= 1 && dx.Length == dy.Length == m.Length == |pts| - 1
    requires dx != dy && dy != m && m != dx
    modifies dx, dy, m
    ensures m[..] == Secants(pts)
    ensures forall k | 0 <= k < |pts| - 1 :: dx[k] == pts[k + 1].x - pts[k].x
  {
    hide Ratio;
    for i := 0 to |pts| - 1
      invariant forall k | 0 <= k < i :: dx[k] == pts[k + 1].x - pts[k].x
      invariant forall k | 0 <= k < i :: m[k] == Secant(pts[k], pts[k + 1])
    {
      dx[i] := pts[i + 1].x - pts[i].x;
      dy[i] := pts[i + 1].y - pts[i].y;
      m[i] := Ratio(dy[i], dx[i]);
    }
  }

  method FillTangents(m: array<real>, t: array<real>)
    requires m != t && m.Length >= 2 && t.Length == m.Length + 1
    modifies t
    ensures t[..] == FirstTangents(m[..])
  {
    var n := t.Length;
    t[0], t[n - 1] := m[0], m[n - 2];
    for i := 1 to n - 1
      invariant t[0] == FirstTangents(m[..])[0] && t[n - 1] == FirstTangents(m[..])[n - 1]
      invariant forall k | 1 <= k < i :: t[k] == FirstTangents(m[..])[k]
    {
      t[i] := if m[i - 1] * m[i] <= 0.0 then 0.0 else (m[i - 1] + m[i]) / 2.0;
    }
  }

  method LimitInterval(m: array<real>, t: array<real>, i: nat, sqrt: real -> real)
    requires IsSqrt(sqrt) && m != t && t.Length == m.Length + 1 && i < m.Length
    modifies t
    ensures t[..] == LimitAt(m[..], old(t[..]), i, sqrt)
  {
    t[i], t[i + 1] := LimitTwo(m[i], t[i], t[i + 1], sqrt);
  }

  method LimitTwo(m: real, t0: real, t1: real, sqrt: real -> real) returns (r0: real, r1: real)
    requires IsSqrt(sqrt)
    ensures (r0, r1) == LimitPair(m, t0, t1, sqrt)
  {
    if m == 0.0 {
      return 0.0, 0.0;
    }
    var a, b := t0 / m, t1 / m;
    var s := SumOfSquares(a, b);
    if s > 9.0 {
      RootNonzero(s, sqrt);
      var k := 3.0 / Root(sqrt, s);
      return Scale(k, a, m), Scale(k, b, m);
    }
    return t0, t1;
  }

  lemma RootNonzero(s: real, sqrt: real -> real)
    requires IsSqrt(sqrt) && s > 9.0
    ensures Root(sqrt, s) > 3.0
  {
    var r := Root(sqrt, s);
    assert r >= 0.0 && r * r == s;
    assert (3.0 - r) * (3.0 + r) == 9.0 - r * r;
    Product(3.0 - r, 3.0 + r);
  }

  method EmitPieces(pts: seq<Point>, dx: array<real>, t: array<real>) returns (pieces: seq<Piece>)
    requires |pts| >= 1 && dx.Length == |pts| - 1 && t.Length == |pts|
    requires forall k | 0 <= k < |pts| - 1 :: dx[k] == pts[k + 1].x - pts[k].x
    ensures pieces == Pieces(pts, t[..])
  {
    pieces := [];
    for i := 0 to |pts| - 1
      invariant |pieces| == i
      invariant forall k | 0 <= k < i :: pieces[k] == PieceOf(pts[k], pts[k + 1], t[k], t[k + 1])
    {
      var h := dx[i] / 3.0;
      pieces := pieces + [Piece(pts[i], Point(pts[i].x + h, pts[i].y + t[i] * h),
                                Point(pts[i + 1].x - h, pts[i + 1].y - t[i + 1] * h), pts[i + 1])];
    }
  }

  method LimitTangents(m: array<real>, t: array<real>, sqrt: real -> real)
    requires IsSqrt(sqrt) && m != t && t.Length == m.Length + 1
    modifies t
    ensures t[..] == Limited(m[..], old(t[..]), m.Length, sqrt)
  {
    for i := 0 to m.Length
      invariant t[..] == Limited(m[..], old(t[..]), i, sqrt)
    {
      LimitInterval(m, t, i, sqrt);
    }
  }

  method DrawSmoothPath(pts: seq<Point>, sqrt: real -> real) returns (path: Path)
    requires IsSqrt(sqrt)
    ensures path == PathOf(pts, sqrt)
    ensures |pts| == 0 ==> path == NoPath
    ensures |pts| == 1 ==> path == Dot(pts[0])
    ensures |pts| == 2 ==> path == Segment(pts[0], pts[1])
  {
    var n := |pts|;
    if n == 0 {
      return NoPath;
    }
    if n == 1 {
      return Dot(pts[0]);
    }
    if n == 2 {
      return Segment(pts[0], pts[1]);
    }
    var dx, dy, m, t := new real[n - 1], new real[n - 1], new real[n - 1], new real[n];
    FillSecants(pts, dx, dy, m);
    FillTangents(m, t);
    LimitTangents(m, t, sqrt);
    assert m[..] == Secants(pts) && t[..] == Tangents(pts, sqrt);
    var pieces := EmitPieces(pts, dx, t);
    return Curve(pieces);
  }

  // ---------------------------------------------------------------- what it promises

  /** A tangent does not point against the secant of an interval it belongs to, and is flat where that is flat. */
  ghost predicate Aligned(m: real, t: real) {
    t * m >= 0.0 && (m == 0.0 ==> t == 0.0)
  }

  /** The tangents of an interval respect the limit measured against its secant. */
  ghost predicate LimitMet(m: real, t0: real, t1: real) {
    if m == 0.0 then t0 == 0.0 && t1 == 0.0 else WithinLimit(t0 / m, t1 / m)
  }

  lemma AlignedRatio(m: real, t: real)
    requires m != 0.0 && Aligned(m, t)
    ensures t / m >= 0.0
  {
    var a := t / m;
    assert a * m == t;
    if a < 0.0 {
      Square(m);
      Product(m * m, -a);
      assert a * (m * m) == t * m;
      assert m * m > 0.0;
    }
  }

  lemma FirstAligned(m: seq<real>, i: nat)
    requires i < |m|
    ensures Aligned(m[i], FirstTangent(m, i)) && Aligned(m[i], FirstTangent(m, i + 1))
  {
    Square(m[i]);
    if i > 0 {
      MeanAligned(m[i - 1], m[i]);
    }
    if i + 1 < |m| {
      MeanAligned(m[i], m[i + 1]);
    }
  }

  lemma MeanAligned(p: real, q: real)
    ensures var t := if p * q <= 0.0 then 0.0 else (p + q) / 2.0;
            Aligned(p, t) && Aligned(q, t)
  {
    if p * q > 0.0 {
      Square(p);
      Square(q);
      assert (p + q) / 2.0 * p == (p * p + p * q) / 2.0;
      assert (p + q) / 2.0 * q == (q * q + p * q) / 2.0;
    }
  }

  /** `r` is `t` pulled towards zero. */
  ghost predicate Shrunk(t: real, r: real) {
    if t >= 0.0 then 0.0 <= r <= t else t <= r <= 0.0
  }

  lemma ShrunkAligned(m: real, t: real, r: real)
    requires Aligned(m, t) && Shrunk(t, r)
    ensures Aligned(m, r)
  {
    if t > 0.0 {
      if m < 0.0 {
        Product(t, -m);
        assert t * -m == -(t * m);
      }
      Product(r, m);
    } else if t < 0.0 {
      if m > 0.0 {
        Product(-t, m);
        assert -t * m == -(t * m);
      }
      Product(-r, -m);
      assert -r * -m == r * m;
    }
  }

  lemma ShrunkRatio(m: real, t: real, r: real)
    requires m != 0.0 && t / m >= 0.0 && Shrunk(t, r)
    ensures 0.0 <= r / m <= t / m
  {
    var a, b := t / m, r / m;
    assert a * m == t && b * m == r;
    if m > 0.0 {
      Product(a, m);
      Product(-b, m);
      Product(b - a, m);
    } else {
      Product(a, -m);
      assert a * -m == -(a * m);
      Product(-b, -m);
      Product(b - a, -m);
      assert -b * -m == b * m && (b - a) * -m == a * m - b * m;
    }
  }

  lemma SquareOrder(b: real, a: real)
    requires 0.0 <= b <= a
    ensures b * b <= a * a
  {
    Product(a - b, a + b);
    assert (a - b) * (a + b) == a * a - b * b;
  }

  /** The limit of one interval survives the next interval's rescaling of the tangent they share. */
  lemma ShrunkLimitMet(m: real, t0: real, t1: real, r0: real, r1: real)
    requires LimitMet(m, t0, t1) && Shrunk(t0, r0) && Shrunk(t1, r1)
    ensures LimitMet(m, r0, r1)
  {
    if m != 0.0 {
      ShrunkRatio(m, t0, r0);
      ShrunkRatio(m, t1, r1);
      SquareOrder(r0 / m, t0 / m);
      SquareOrder(r1 / m, t1 / m);
    }
  }

  /** The factor 3 / sqrt(s) pulls both tangents in, onto the circle of radius 3. */
  lemma CircleFactor(a: real, b: real, r: real)
    requires r > 3.0 && r * r == SumOfSquares(a, b)
    ensures var k := 3.0 / r; 0.0 < k < 1.0 && (k * a) * (k * a) + (k * b) * (k * b) == 9.0
  {
    var k := 3.0 / r;
    assert k * r == 3.0;
    assert -k * r == -3.0 && (k - 1.0) * r == 3.0 - r;
    Product(-k, r);
    Product(k - 1.0, r);
    assert (k * a) * (k * a) + (k * b) * (k * b) == (k * k) * SumOfSquares(a, b);
    assert (k * k) * (r * r) == (k * r) * (k * r);
  }

  lemma ScaleShrinks(k: real, t: real, m: real)
    requires 0.0 < k < 1.0 && m != 0.0
    ensures Shrunk(t, Scale(k, t / m, m))
    ensures Scale(k, t / m, m) / m == k * (t / m)
  {
    var a := t / m;
    assert a * m == t;
    assert Scale(k, a, m) == k * t;
    assert Scale(k, a, m) == (k * a) * m;
    if t >= 0.0 {
      Product(k, t);
      Product(1.0 - k, t);
    } else {
      Product(k, -t);
      Product(1.0 - k, -t);
    }
  }

  lemma LimitPairWorks(m: real, t0: real, t1: real, sqrt: real -> real)
    requires IsSqrt(sqrt) && Aligned(m, t0) && Aligned(m, t1)
    ensures var p := LimitPair(m, t0, t1, sqrt);
            LimitMet(m, p.0, p.1) && Shrunk(t0, p.0) && Shrunk(t1, p.1)
    ensures LimitMet(m, t0, t1) ==> LimitPair(m, t0, t1, sqrt) == (t0, t1)
  {
    if m != 0.0 {
      AlignedRatio(m, t0);
      AlignedRatio(m, t1);
      var a, b := t0 / m, t1 / m;
      if SumOfSquares(a, b) > 9.0 {
        var r := Root(sqrt, SumOfSquares(a, b));
        RootNonzero(SumOfSquares(a, b), sqrt);
        CircleFactor(a, b, r);
        ScaleShrinks(3.0 / r, t0, m);
        ScaleShrinks(3.0 / r, t1, m);
        Product(3.0 / r, a);
        Product(3.0 / r, b);
      }
    }
  }

  /** After the limiting pass has done `n` intervals. */
  ghost predicate LimitedTo(m: seq<real>, t: seq<real>, r: seq<real>, n: nat)
    requires |t| == |r| == |m| + 1 && n <= |m|
  {
    && (forall i | 0 <= i < |m| :: Aligned(m[i], r[i]) && Aligned(m[i], r[i + 1]))
    && (forall i | 0 <= i < n :: LimitMet(m[i], r[i], r[i + 1]))
    && (forall i | 0 <= i < |r| :: Shrunk(t[i], r[i]))
  }

  lemma LimitStep(m: seq<real>, t: seq<real>, r: seq<real>, n: nat, sqrt: real -> real)
    requires IsSqrt(sqrt) && |t| == |r| == |m| + 1 && n < |m| && LimitedTo(m, t, r, n)
    ensures LimitedTo(m, t, LimitAt(m, r, n, sqrt), n + 1)
  {
    var q := LimitAt(m, r, n, sqrt);
    LimitPairWorks(m[n], r[n], r[n + 1], sqrt);
    assert forall i | 0 <= i < |r| :: Shrunk(r[i], q[i]);
    forall i | 0 <= i < |m| ensures Aligned(m[i], q[i]) && Aligned(m[i], q[i + 1]) {
      ShrunkAligned(m[i], r[i], q[i]);
      ShrunkAligned(m[i], r[i + 1], q[i + 1]);
    }
    forall i | 0 <= i < n ensures LimitMet(m[i], q[i], q[i + 1]) {
      ShrunkLimitMet(m[i], r[i], r[i + 1], q[i], q[i + 1]);
    }
  }

  lemma {:induction false} LimitedWorks(m: seq<real>, t: seq<real>, n: nat, sqrt: real -> real)
    requires IsSqrt(sqrt) && |t| == |m| + 1 && n <= |m|
    requires forall i | 0 <= i < |m| :: Aligned(m[i], t[i]) && Aligned(m[i], t[i + 1])
    ensures LimitedTo(m, t, Limited(m, t, n, sqrt), n)
  {
    if n > 0 {
      LimitedWorks(m, t, n - 1, sqrt);
      LimitStep(m, t, Limited(m, t, n - 1, sqrt), n - 1, sqrt);
    }
  }

  /**
   The finished tangents: every interval within the limit, each tangent the first one pulled towards
   zero and none of them turned round.
   */
  lemma TangentsWork(pts: seq<Point>, sqrt: real -> real)
    requires IsSqrt(sqrt) && |pts| >= 2
    ensures LimitedTo(Secants(pts), FirstTangents(Secants(pts)), Tangents(pts, sqrt), |pts| - 1)
  {
    var m := Secants(pts);
    forall i | 0 <= i < |m| ensures Aligned(m[i], FirstTangents(m)[i]) && Aligned(m[i], FirstTangents(m)[i + 1]) {
      FirstAligned(m, i);
    }
    LimitedWorks(m, FirstTangents(m), |m|, sqrt);
  }

  /** The pass moves nothing when every interval is within the limit already. */
  lemma {:induction false} LimitLeavesGood(m: seq<real>, n: nat, sqrt: real -> real)
    requires IsSqrt(sqrt) && |m| >= 1 && n <= |m|
    requires forall i | 0 <= i < |m| :: LimitMet(m[i], FirstTangent(m, i), FirstTangent(m, i + 1))
    ensures Limited(m, FirstTangents(m), n, sqrt) == FirstTangents(m)
  {
    if n > 0 {
      LimitLeavesGood(m, n - 1, sqrt);
      FirstAligned(m, n - 1);
      LimitPairWorks(m[n - 1], FirstTangent(m, n - 1), FirstTangent(m, n), sqrt);
    }
  }

  // ---------------------------------------------------------------- the curve

  function PieceAt(c: Piece, u: real): Point {
    Point(Cubic(c.p0.x, c.p1.x, c.p2.x, c.p3.x, u), Cubic(c.p0.y, c.p1.y, c.p2.y, c.p3.y, u))
  }

  /** A piece whose tangents meet the limit is the scaled cubic of its two heights. */
  lemma PieceIsScaled(p: Point, q: Point, t0: real, t1: real) returns (a: real, b: real)
    requires LimitMet(Secant(p, q), t0, t1)
    ensures WithinLimit(a, b)
    ensures var c := PieceOf(p, q, t0, t1);
            c.p1.y == p.y + a * (q.y - p.y) / 3.0 && c.p2.y == q.y - b * (q.y - p.y) / 3.0
  {
    var m, w := Secant(p, q), q.x - p.x;
    if m == 0.0 {
      a, b := 0.0, 0.0;
    } else {
      a, b := t0 / m, t1 / m;
      RatioTimes(t0, m, q.y - p.y, w);
      RatioTimes(t1, m, q.y - p.y, w);
    }
  }

  lemma RatioTimes(t: real, m: real, d: real, w: real)
    requires m != 0.0 && w != 0.0 && m == d / w
    ensures t * (w / 3.0) == (t / m) * d / 3.0
  {
    var a := t / m;
    assert a * m == t && m * w == d;
    assert a * d == a * (m * w) == t * w;
  }

  /**
   Between u and v the piece runs from its first point towards its last: monotonically in height, and
   at constant speed from left to right.
   */
  ghost predicate RunsForward(c: Piece, u: real, v: real) {
    && PieceAt(c, 0.0) == c.p0 && PieceAt(c, 1.0) == c.p3
    && PieceAt(c, u).x == c.p0.x + u * (c.p3.x - c.p0.x)
    && (c.p0.y <= c.p3.y ==> PieceAt(c, u).y <= PieceAt(c, v).y)
    && (c.p0.y >= c.p3.y ==> PieceAt(c, u).y >= PieceAt(c, v).y)
  }

  lemma PieceHeights(p: Point, q: Point, t0: real, t1: real, u: real, v: real)
    requires LimitMet(Secant(p, q), t0, t1) && 0.0 <= u <= v <= 1.0
    ensures var c := PieceOf(p, q, t0, t1);
            && (p.y <= q.y ==> PieceAt(c, u).y <= PieceAt(c, v).y)
            && (p.y >= q.y ==> PieceAt(c, u).y >= PieceAt(c, v).y)
  {
    var a, b := PieceIsScaled(p, q, t0, t1);
    var c := PieceOf(p, q, t0, t1);
    ControlsMonotone(p.y, c.p1.y, c.p2.y, q.y, a, b, u, v);
  }

  lemma PieceEnds(p: Point, q: Point, t0: real, t1: real, u: real)
    ensures var c := PieceOf(p, q, t0, t1);
            && PieceAt(c, 0.0) == p && PieceAt(c, 1.0) == q
            && PieceAt(c, u).x == p.x + u * (q.x - p.x)
  {
    var c := PieceOf(p, q, t0, t1);
    CubicLinear(p.x, q.x, u);
    CubicEnds(p.x, c.p1.x, c.p2.x, q.x);
    CubicEnds(p.y, c.p1.y, c.p2.y, q.y);
  }

  lemma PieceRuns(p: Point, q: Point, t0: real, t1: real, u: real, v: real)
    requires LimitMet(Secant(p, q), t0, t1) && 0.0 <= u <= v <= 1.0
    ensures RunsForward(PieceOf(p, q, t0, t1), u, v)
  {
    hide Cubic, LimitMet, Secant;
    PieceHeights(p, q, t0, t1, u, v);
    PieceEnds(p, q, t0, t1, u);
  }

  lemma IntervalMet(m: seq<real>, t: seq<real>, r: seq<real>, i: nat)
    requires |t| == |r| == |m| + 1 && LimitedTo(m, t, r, |m|) && i < |m|
    ensures LimitMet(m[i], r[i], r[i + 1])
  {
  }

  lemma TangentsMeetLimit(pts: seq<Point>, sqrt: real -> real, i: nat)
    requires IsSqrt(sqrt) && |pts| >= 2 && i + 1 < |pts|
    ensures LimitMet(Secants(pts)[i], Tangents(pts, sqrt)[i], Tangents(pts, sqrt)[i + 1])
  {
    TangentsWork(pts, sqrt);
    IntervalMet(Secants(pts), FirstTangents(Secants(pts)), Tangents(pts, sqrt), i);
  }

  lemma PieceIs(pts: seq<Point>, sqrt: real -> real, i: nat) returns (t0: real, t1: real)
    requires |pts| >= 3 && i + 1 < |pts|
    ensures PathOf(pts, sqrt).pieces[i] == PieceOf(pts[i], pts[i + 1], t0, t1)
    ensures t0 == Tangents(pts, sqrt)[i] && t1 == Tangents(pts, sqrt)[i + 1]
  {
    t0, t1 := Tangents(pts, sqrt)[i], Tangents(pts, sqrt)[i + 1];
  }

  lemma PieceMeetsLimit(pts: seq<Point>, sqrt: real -> real, i: nat) returns (t0: real, t1: real)
    requires IsSqrt(sqrt) && |pts| >= 3 && i + 1 < |pts|
    ensures LimitMet(Secant(pts[i], pts[i + 1]), t0, t1)
    ensures PathOf(pts, sqrt).pieces[i] == PieceOf(pts[i], pts[i + 1], t0, t1)
  {
    TangentsMeetLimit(pts, sqrt, i);
    t0, t1 := PieceIs(pts, sqrt, i);
  }

  /**
   Every piece of a drawn curve runs forward from one point to the next. Nothing is asked of the
   points: they may repeat an x or go back.
   */
  lemma PieceMonotone(pts: seq<Point>, sqrt: real -> real, i: nat, u: real, v: real)
    requires IsSqrt(sqrt) && |pts| >= 3 && i + 1 < |pts| && 0.0 <= u <= v <= 1.0
    ensures var c := PathOf(pts, sqrt).pieces[i];
            c.p0 == pts[i] && c.p3 == pts[i + 1] && RunsForward(c, u, v)
  {
    var t0, t1 := PieceMeetsLimit(pts, sqrt, i);
    PieceRuns(pts[i], pts[i + 1], t0, t1, u, v);
  }

  /** The curve never overshoots: on a piece every height is between the heights of its two points. */
  lemma NoOvershoot(pts: seq<Point>, sqrt: real -> real, i: nat, u: real)
    requires IsSqrt(sqrt) && |pts| >= 3 && i + 1 < |pts| && 0.0 <= u <= 1.0
    ensures var y := PieceAt(PathOf(pts, sqrt).pieces[i], u).y;
            pts[i].y <= y <= pts[i + 1].y || pts[i + 1].y <= y <= pts[i].y
  {
    PieceMonotone(pts, sqrt, i, 0.0, u);
    PieceMonotone(pts, sqrt, i, u, 1.0);
  }

  /** Two pieces meet in a point and their inner controls are in line with it: no kink. */
  ghost predicate JoinSmoothly(c: Piece, d: Piece) {
    c.p3 == d.p0 && (c.p3.y - c.p2.y) * (d.p1.x - d.p0.x) == (d.p1.y - d.p0.y) * (c.p3.x - c.p2.x)
  }

  lemma PiecesJoinSmoothly(pts: seq<Point>, sqrt: real -> real, i: nat)
    requires |pts| >= 3 && i + 2 < |pts|
    ensures JoinSmoothly(PathOf(pts, sqrt).pieces[i], PathOf(pts, sqrt).pieces[i + 1])
  {
    var t0, t1 := PieceIs(pts, sqrt, i);
    var t1', t2 := PieceIs(pts, sqrt, i + 1);
    InLine(pts[i], pts[i + 1], pts[i + 2], t0, t1, t2);
  }

  lemma InLine(p: Point, q: Point, r: Point, t0: real, t1: real, t2: real)
    ensures JoinSmoothly(PieceOf(p, q, t0, t1), PieceOf(q, r, t1, t2))
  {
    var h, g := (q.x - p.x) / 3.0, (r.x - q.x) / 3.0;
    assert (t1 * h) * g == (t1 * g) * h;
  }
}
