/** The geometry kernel of the partial-path renderer: path elements, cubic
    Bezier curves, and the restriction of a curve to a parameter range. */
module Geometry {

  import opened Bernstein

  /** One element of a path: a plain vertex (a straight segment ending at
      (x, y)), or a Bezier vertex (two control points and an anchor). */
  datatype PathVertex =
    | Vertex(x: real, y: real)
    | BezierVertex(x2: real, y2: real, x3: real, y3: real, x4: real, y4: real)

  /** A cubic Bezier curve: first anchor, two control points, second anchor. */
  datatype BezierCurve =
    BezierCurve(x1: real, y1: real, x2: real, y2: real, x3: real, y3: real, x4: real, y4: real)

  /** The x-coordinate of the point B(t) of curve c. */
  function CurveX(c: BezierCurve, t: real): real
  {
    Cubic(c.x1, c.x2, c.x3, c.x4, t)
  }

  /** The y-coordinate of the point B(t) of curve c. */
  function CurveY(c: BezierCurve, t: real): real
  {
    Cubic(c.y1, c.y2, c.y3, c.y4, t)
  }

  /** The curve that starts at the plain vertex `start` and continues with the
      two control points and the anchor of `b`. */
  function FromVertices(start: PathVertex, b: PathVertex): (c: BezierCurve)
    requires start.Vertex? && b.BezierVertex?
    ensures c.x1 == start.x && c.y1 == start.y
    ensures c.x2 == b.x2 && c.y2 == b.y2 && c.x3 == b.x3 && c.y3 == b.y3
    ensures c.x4 == b.x4 && c.y4 == b.y4
  {
    BezierCurve(start.x, start.y, b.x2, b.y2, b.x3, b.y3, b.x4, b.y4)
  }

  /** The point where a path element ends, as a plain vertex. */
  function EndPoint(v: PathVertex): (r: PathVertex)
    ensures r.Vertex?
    ensures v.Vertex? ==> r == v
    ensures v.BezierVertex? ==> r.x == v.x4 && r.y == v.y4
  {
    match v
    case Vertex(x, y) => Vertex(x, y)
    case BezierVertex(_, _, _, _, x4, y4) => Vertex(x4, y4)
  }

  /** One coordinate axis of the split: the four values of that axis of the
      part between t0 and t1 of the cubic with coefficients p0..p3, from the
      quadratic De Casteljau values at t0 and t1. */
  function SplitAxis(p0: real, p1: real, p2: real, p3: real, t0: real, t1: real): (real, real, real, real)
  {
    var u0 := 1.0 - t0;
    var u1 := 1.0 - t1;
    var qa := QuadraticAt(p0, p1, p2, t0);
    var qb := QuadraticAt(p0, p1, p2, t1);
    var qc := QuadraticAt(p1, p2, p3, t0);
    var qd := QuadraticAt(p1, p2, p3, t1);
    (qa * u0 + qc * t0, qa * u1 + qc * t1, qb * u0 + qd * t0, qb * u1 + qd * t1)
  }

  /** The part of curve c between parameters t0 and t1, computed with the
      closed-form De Casteljau polynomials, the same way on each axis. */
  function PartialBezierCurve(c: BezierCurve, t0: real, t1: real): BezierCurve
  {
    var (xa, xb, xc, xd) := SplitAxis(c.x1, c.x2, c.x3, c.x4, t0, t1);
    var (ya, yb, yc, yd) := SplitAxis(c.y1, c.y2, c.y3, c.y4, t0, t1);
    BezierCurve(xa, ya, xb, yb, xc, yc, xd, yd)
  }

  /** The polar form of the x-coordinates of c. */
  function PolarX(c: BezierCurve, a: real, b: real, d: real): real
  {
    Blossom(c.x1, c.x2, c.x3, c.x4, a, b, d)
  }

  /** The polar form of the y-coordinates of c. */
  function PolarY(c: BezierCurve, a: real, b: real, d: real): real
  {
    Blossom(c.y1, c.y2, c.y3, c.y4, a, b, d)
  }

  /** One axis of the split yields the polar values at (t0,t0,t0),
      (t0,t0,t1), (t1,t1,t0) and (t1,t1,t1). */
  lemma SplitAxisIsPolar(p0: real, p1: real, p2: real, p3: real, t0: real, t1: real)
    ensures SplitAxis(p0, p1, p2, p3, t0, t1)
         == (Blossom(p0, p1, p2, p3, t0, t0, t0), Blossom(p0, p1, p2, p3, t0, t0, t1),
             Blossom(p0, p1, p2, p3, t1, t1, t0), Blossom(p0, p1, p2, p3, t1, t1, t1))
  {
    QuadraticDiagonal(p0, p1, p2, t0);
    QuadraticDiagonal(p0, p1, p2, t1);
    QuadraticDiagonal(p1, p2, p3, t0);
    QuadraticDiagonal(p1, p2, p3, t1);
  }

  /** The four points of the split curve are the polar values of c at
      (t0,t0,t0), (t0,t0,t1), (t1,t1,t0) and (t1,t1,t1). */
  lemma PartialIsPolar(c: BezierCurve, t0: real, t1: real)
    ensures var r := PartialBezierCurve(c, t0, t1);
      && r.x1 == PolarX(c, t0, t0, t0) && r.y1 == PolarY(c, t0, t0, t0)
      && r.x2 == PolarX(c, t0, t0, t1) && r.y2 == PolarY(c, t0, t0, t1)
      && r.x3 == PolarX(c, t1, t1, t0) && r.y3 == PolarY(c, t1, t1, t0)
      && r.x4 == PolarX(c, t1, t1, t1) && r.y4 == PolarY(c, t1, t1, t1)
  {
    SplitAxisIsPolar(c.x1, c.x2, c.x3, c.x4, t0, t1);
    SplitAxisIsPolar(c.y1, c.y2, c.y3, c.y4, t0, t1);
  }

  /** The split curve starts at B(t0) and ends at B(t1) of the original. */
  lemma PartialEndpoints(c: BezierCurve, t0: real, t1: real)
    ensures var r := PartialBezierCurve(c, t0, t1);
      && r.x1 == CurveX(c, t0) && r.y1 == CurveY(c, t0)
      && r.x4 == CurveX(c, t1) && r.y4 == CurveY(c, t1)
  {
    PartialIsPolar(c, t0, t1);
    BlossomDiagonal(c.x1, c.x2, c.x3, c.x4, t0);
    BlossomDiagonal(c.y1, c.y2, c.y3, c.y4, t0);
    BlossomDiagonal(c.x1, c.x2, c.x3, c.x4, t1);
    BlossomDiagonal(c.y1, c.y2, c.y3, c.y4, t1);
  }

  /** A split from t0 = 0 keeps the start anchor of the original. */
  lemma PartialFromStart(c: BezierCurve, t1: real)
    ensures var r := PartialBezierCurve(c, 0.0, t1);
      r.x1 == c.x1 && r.y1 == c.y1 && r.x4 == CurveX(c, t1) && r.y4 == CurveY(c, t1)
  {
    PartialEndpoints(c, 0.0, t1);
  }

  /** The split curve traces exactly the original between t0 and t1: its
      point at s is the original's point at t0 + (t1 - t0)·s. */
  lemma PartialTraces(c: BezierCurve, t0: real, t1: real, s: real)
    ensures var r := PartialBezierCurve(c, t0, t1);
      && CurveX(r, s) == CurveX(c, t0 + (t1 - t0) * s)
      && CurveY(r, s) == CurveY(c, t0 + (t1 - t0) * s)
  {
    var r := PartialBezierCurve(c, t0, t1);
    var m := Lerp(t0, t1, s);
    assert m == t0 + (t1 - t0) * s;
    PartialIsPolar(c, t0, t1);
    BlossomDiagonal(r.x1, r.x2, r.x3, r.x4, s);
    BlossomDiagonal(r.y1, r.y2, r.y3, r.y4, s);
    BlossomReparam(c.x1, c.x2, c.x3, c.x4, t0, t1, s, s, s);
    BlossomReparam(c.y1, c.y2, c.y3, c.y4, t0, t1, s, s, s);
    BlossomDiagonal(c.x1, c.x2, c.x3, c.x4, m);
    BlossomDiagonal(c.y1, c.y2, c.y3, c.y4, m);
  }

  /** Splitting a split curve is one split of the original, over the
      corresponding sub-range of [t0, t1]. */
  lemma PartialCompose(c: BezierCurve, t0: real, t1: real, s0: real, s1: real)
    ensures PartialBezierCurve(PartialBezierCurve(c, t0, t1), s0, s1)
         == PartialBezierCurve(c, t0 + (t1 - t0) * s0, t0 + (t1 - t0) * s1)
  {
    var r := PartialBezierCurve(c, t0, t1);
    var m0, m1 := Lerp(t0, t1, s0), Lerp(t0, t1, s1);
    assert m0 == t0 + (t1 - t0) * s0 && m1 == t0 + (t1 - t0) * s1;
    PartialIsPolar(c, t0, t1);
    PartialIsPolar(r, s0, s1);
    PartialIsPolar(c, m0, m1);
    BlossomReparam(c.x1, c.x2, c.x3, c.x4, t0, t1, s0, s0, s0);
    BlossomReparam(c.y1, c.y2, c.y3, c.y4, t0, t1, s0, s0, s0);
    BlossomReparam(c.x1, c.x2, c.x3, c.x4, t0, t1, s0, s0, s1);
    BlossomReparam(c.y1, c.y2, c.y3, c.y4, t0, t1, s0, s0, s1);
    BlossomReparam(c.x1, c.x2, c.x3, c.x4, t0, t1, s1, s1, s0);
    BlossomReparam(c.y1, c.y2, c.y3, c.y4, t0, t1, s1, s1, s0);
    BlossomReparam(c.x1, c.x2, c.x3, c.x4, t0, t1, s1, s1, s1);
    BlossomReparam(c.y1, c.y2, c.y3, c.y4, t0, t1, s1, s1, s1);
  }

  /** The full range [0, 1] gives back the original curve. */
  lemma PartialFullRange(c: BezierCurve)
    ensures PartialBezierCurve(c, 0.0, 1.0) == c
  {
  }

  /** An empty range collapses all four points onto B(t). */
  lemma PartialCollapse(c: BezierCurve, t: real)
    ensures var r := PartialBezierCurve(c, t, t);
      && r.x1 == r.x2 == r.x3 == r.x4 == CurveX(c, t)
      && r.y1 == r.y2 == r.y3 == r.y4 == CurveY(c, t)
  {
    PartialIsPolar(c, t, t);
    BlossomDiagonal(c.x1, c.x2, c.x3, c.x4, t);
    BlossomDiagonal(c.y1, c.y2, c.y3, c.y4, t);
  }

  /** The range [0, 0] collapses all four points onto the start anchor. */
  lemma PartialCollapseAtStart(c: BezierCurve)
    ensures PartialBezierCurve(c, 0.0, 0.0) == BezierCurve(c.x1, c.y1, c.x1, c.y1, c.x1, c.y1, c.x1, c.y1)
  {
    PartialCollapse(c, 0.0);
  }

  /** The x outputs depend only on the x inputs and the y outputs only on
      the y inputs: replacing the y inputs of c by those of d leaves the x
      outputs unchanged, and replacing the x inputs leaves the y outputs. */
  lemma PartialAxesSeparate(c: BezierCurve, d: BezierCurve, t0: real, t1: real)
    ensures var r := PartialBezierCurve(c, t0, t1);
      var rx := PartialBezierCurve(BezierCurve(c.x1, d.y1, c.x2, d.y2, c.x3, d.y3, c.x4, d.y4), t0, t1);
      var ry := PartialBezierCurve(BezierCurve(d.x1, c.y1, d.x2, c.y2, d.x3, c.y3, d.x4, c.y4), t0, t1);
      && rx.x1 == r.x1 && rx.x2 == r.x2 && rx.x3 == r.x3 && rx.x4 == r.x4
      && ry.y1 == r.y1 && ry.y2 == r.y2 && ry.y3 == r.y3 && ry.y4 == r.y4
  {
    PartialIsPolar(c, t0, t1);
    PartialIsPolar(BezierCurve(c.x1, d.y1, c.x2, d.y2, c.x3, d.y3, c.x4, d.y4), t0, t1);
    PartialIsPolar(BezierCurve(d.x1, c.y1, d.x2, c.y2, d.x3, c.y3, d.x4, c.y4), t0, t1);
  }

  /** The fixture of the kernel's unit test holds exactly over the reals. */
  lemma PartialFixture()
    ensures PartialBezierCurve(BezierCurve(10.0, 10.0, 5.0, 20.0, 25.0, 80.0, 10.0, 70.0), 0.3, 0.7)
         == BezierCurve(10.63, 29.26, 12.47, 40.94, 15.43, 54.86, 15.67, 63.34)
  {
  }

  /** The end point fixtures of the kernel's unit test. */
  lemma EndPointFixture()
    ensures EndPoint(Vertex(1.0, 2.0)) == Vertex(1.0, 2.0)
    ensures EndPoint(BezierVertex(1.0, 2.0, 3.0, 4.0, 5.0, 6.0)) == Vertex(5.0, 6.0)
  {
  }

  /** The curve built from a start vertex and a Bezier vertex runs from the
      start vertex (t = 0) to the end point of the Bezier vertex (t = 1), so
      consecutive path elements join without a gap. */
  lemma FromVerticesJoins(start: PathVertex, b: PathVertex)
    requires start.Vertex? && b.BezierVertex?
    ensures var c := FromVertices(start, b);
      && CurveX(c, 0.0) == start.x && CurveY(c, 0.0) == start.y
      && CurveX(c, 1.0) == EndPoint(b).x && CurveY(c, 1.0) == EndPoint(b).y
  {
  }
}
