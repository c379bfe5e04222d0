/** The partial-path renderer: a shape made of path elements that, on each
    frame, draws the part of its outline that the elapsed time calls for.
    The drawing surface is modelled as the sequence of drawing calls it has
    received. */
module Render {

  import opened Bernstein
  import opened Geometry

  /** The drawing calls the renderer makes: beginShape(), vertex(x, y),
      bezierVertex(x2, y2, x3, y3, x4, y4), and endShape() or
      endShape(CLOSE). */
  datatype Command =
    | Begin
    | Point(x: real, y: real)
    | Bezier(x2: real, y2: real, x3: real, y3: real, x4: real, y4: real)
    | End(closed: bool)

  /** Why a shape cannot be constructed. */
  datatype ShapeError = EmptyVertices | BezierStart

  datatype Result<T> = Ok(value: T) | Err(error: ShapeError)

  /** The drawing surface: it records every call in order. */
  class Surface {
    var trace: seq<Command>

    constructor ()
      ensures trace == []
    {
      trace := [];
    }

    method BeginShape()
      modifies this
      ensures trace == old(trace) + [Begin]
    {
      trace := trace + [Begin];
    }

    /** p5's `vertex`. */
    method AddVertex(x: real, y: real)
      modifies this
      ensures trace == old(trace) + [Point(x, y)]
    {
      trace := trace + [Point(x, y)];
    }

    /** p5's `bezierVertex`. */
    method AddBezierVertex(x2: real, y2: real, x3: real, y3: real, x4: real, y4: real)
      modifies this
      ensures trace == old(trace) + [Bezier(x2, y2, x3, y3, x4, y4)]
    {
      trace := trace + [Bezier(x2, y2, x3, y3, x4, y4)];
    }

    method EndShape(closed: bool)
      modifies this
      ensures trace == old(trace) + [End(closed)]
    {
      trace := trace + [End(closed)];
    }
  }

  /** A path the renderer accepts: not empty, and starting with a plain
      vertex. */
  predicate ValidPath(vertices: seq<PathVertex>)
  {
    |vertices| > 0 && vertices[0].Vertex?
  }

  /** The construction-time check of a path: the error it raises, if any. */
  function CheckVertices(vertices: seq<PathVertex>): (r: Result<()>)
    ensures r.Ok? <==> ValidPath(vertices)
    ensures r == Err(EmptyVertices) <==> |vertices| == 0
    ensures r == Err(BezierStart) <==> |vertices| > 0 && vertices[0].BezierVertex?
  {
    if |vertices| <= 0 then Err(EmptyVertices)
    else if !vertices[0].Vertex? then Err(BezierStart)
    else Ok(())
  }

  /** The fraction of the animation that has elapsed at frameCount, clamped
      to [0, 1]. */
  function Progress(startFrame: int, duration: real, frameCount: int): (p: real)
    requires duration > 0.0
    ensures 0.0 <= p <= 1.0
    ensures frameCount <= startFrame ==> p == 0.0
    ensures (frameCount - startFrame) as real >= duration ==> p == 1.0
    ensures startFrame <= frameCount && (frameCount - startFrame) as real <= duration ==>
      p * duration == (frameCount - startFrame) as real
  {
    var progress := (frameCount - startFrame) as real / duration;
    if progress < 0.0 then 0.0
    else if progress > 1.0 then 1.0
    else progress
  }

  /** The number of path elements after the first that are drawn in full at
      the given progress, out of numCurves. */
  function CurveNo(numCurves: nat, progress: real): (k: nat)
    requires 0.0 <= progress <= 1.0
    ensures k <= numCurves
    ensures k as real <= numCurves as real * progress < k as real + 1.0
    ensures k == numCurves <==> numCurves == 0 || progress == 1.0
  {
    ScaledProgressBounds(numCurves, progress);
    WholePart(numCurves as real * progress, numCurves)
  }

  /** The whole part of a number in [0, n]. */
  function WholePart(x: real, n: nat): (k: nat)
    requires 0.0 <= x <= n as real
    ensures k <= n
    ensures k as real <= x < k as real + 1.0
    ensures k == n <==> x == n as real
  {
    x.Floor
  }

  /** How far into the element after the fully drawn ones the drawing has
      got, as a fraction of that element. */
  function CurveFraction(numCurves: nat, progress: real): (f: real)
    requires 0.0 <= progress <= 1.0
    ensures 0.0 <= f < 1.0
    ensures CurveNo(numCurves, progress) as real + f == numCurves as real * progress
  {
    var progressOverCurves := numCurves as real * progress;
    progressOverCurves - progressOverCurves.Floor as real
  }

  lemma ScaledProgressBounds(numCurves: nat, progress: real)
    requires 0.0 <= progress <= 1.0
    ensures 0.0 <= numCurves as real * progress <= numCurves as real
    ensures numCurves as real * progress == numCurves as real <==> numCurves == 0 || progress == 1.0
  {
    var n := numCurves as real;
    assert n - n * progress == n * (1.0 - progress);
  }

  /** The drawing call for a path element drawn in full: the element's own
      numbers, as a vertex call or a Bezier vertex call. */
  function FullCurve(v: PathVertex): (cmd: Command)
    ensures cmd.Point? <==> v.Vertex?
    ensures cmd.Bezier? <==> v.BezierVertex?
    ensures v.Vertex? ==> cmd.x == v.x && cmd.y == v.y
    ensures v.BezierVertex? ==>
      (cmd.x2, cmd.y2, cmd.x3, cmd.y3, cmd.x4, cmd.y4) == (v.x2, v.y2, v.x3, v.y3, v.x4, v.y4)
  {
    match v
    case Vertex(x, y) => Point(x, y)
    case BezierVertex(x2, y2, x3, y3, x4, y4) => Bezier(x2, y2, x3, y3, x4, y4)
  }

  /** The drawing calls for the first k elements after the start vertex. */
  function FullCurves(vertices: seq<PathVertex>, k: nat): (cmds: seq<Command>)
    requires k < |vertices|
    ensures |cmds| == k
    ensures forall i :: 0 <= i < k ==> cmds[i] == FullCurve(vertices[i + 1])
  {
    seq(k, i requires 0 <= i < k => FullCurve(vertices[i + 1]))
  }

  /** The drawing call for the element v drawn up to the fraction f, starting
      from lastPoint: a point on the straight segment, or the first part of
      the Bezier curve. */
  function PartialCurve(lastPoint: PathVertex, v: PathVertex, f: real): Command
    requires lastPoint.Vertex?
  {
    if v.Vertex? then
      Point(lastPoint.x + (v.x - lastPoint.x) * f, lastPoint.y + (v.y - lastPoint.y) * f)
    else
      var partial := PartialBezierCurve(FromVertices(lastPoint, v), 0.0, f);
      Bezier(partial.x2, partial.y2, partial.x3, partial.y3, partial.x4, partial.y4)
  }

  /** The drawing call for the partially drawn element at the given
      progress, if there is one. */
  function PartialCurves(vertices: seq<PathVertex>, progress: real): seq<Command>
    requires ValidPath(vertices) && 0.0 <= progress <= 1.0
  {
    var numCurves := |vertices| - 1;
    var k := CurveNo(numCurves, progress);
    if k < numCurves then
      [PartialCurve(EndPoint(vertices[k]), vertices[k + 1], CurveFraction(numCurves, progress))]
    else
      []
  }

  /** Whether the path is closed when finalised. */
  function Closes(vertices: seq<PathVertex>, progress: real): bool
    requires ValidPath(vertices)
  {
    var last := vertices[|vertices| - 1];
    progress >= 1.0 && |vertices| > 1 && last.Vertex? &&
    vertices[0].x == last.x && vertices[0].y == last.y
  }

  /** The number of elements after the start vertex drawn in full at
      frameCount. */
  function CompletedCurves(vertices: seq<PathVertex>, startFrame: int, duration: real, frameCount: int): nat
    requires ValidPath(vertices) && duration > 0.0
  {
    CurveNo(|vertices| - 1, Progress(startFrame, duration, frameCount))
  }

  /** The drawing calls of one frame: begin, the start vertex, the elements
      drawn in full, the partially drawn element if any, and end. */
  function Frame(vertices: seq<PathVertex>, startFrame: int, duration: real, frameCount: int): seq<Command>
    requires ValidPath(vertices) && duration > 0.0
  {
    var progress := Progress(startFrame, duration, frameCount);
    [Begin, Point(vertices[0].x, vertices[0].y)]
      + FullCurves(vertices, CurveNo(|vertices| - 1, progress))
      + PartialCurves(vertices, progress)
      + [End(Closes(vertices, progress))]
  }

  lemma ProductPositive(a: real, b: real)
    requires b > 0.0
    ensures a * b > 0.0 <==> a > 0.0
    ensures a * b >= 0.0 <==> a >= 0.0
  {
  }

  lemma ProductNonNegative(a: real, b: real)
    requires a >= 0.0 && b >= 0.0
    ensures a * b >= 0.0
  {
  }

  /** Progress reaches 1 exactly when `duration` frames have elapsed. */
  lemma ProgressComplete(startFrame: int, duration: real, frameCount: int)
    requires duration > 0.0
    ensures Progress(startFrame, duration, frameCount) >= 1.0 <==> (frameCount - startFrame) as real >= duration
  {
    var p := Progress(startFrame, duration, frameCount);
    var elapsed := (frameCount - startFrame) as real;
    if 0.0 <= elapsed < duration {
      assert p * duration == elapsed;
      assert (1.0 - p) * duration == duration - elapsed;
      ProductPositive(1.0 - p, duration);
    }
  }

  /** Progress never decreases as frames advance. */
  lemma ProgressMonotone(startFrame: int, duration: real, frameCount: int, laterFrame: int)
    requires duration > 0.0 && frameCount <= laterFrame
    ensures Progress(startFrame, duration, frameCount) <= Progress(startFrame, duration, laterFrame)
  {
    var q := (frameCount - startFrame) as real / duration;
    var q' := (laterFrame - startFrame) as real / duration;
    assert q * duration == (frameCount - startFrame) as real;
    assert q' * duration == (laterFrame - startFrame) as real;
    assert (q' - q) * duration == (laterFrame - frameCount) as real;
    ProductPositive(q' - q, duration);
  }

  /** More progress never draws fewer elements in full. */
  lemma CurveNoMonotone(numCurves: nat, progress: real, laterProgress: real)
    requires 0.0 <= progress <= laterProgress <= 1.0
    ensures CurveNo(numCurves, progress) <= CurveNo(numCurves, laterProgress)
  {
    var n := numCurves as real;
    assert n * laterProgress - n * progress == n * (laterProgress - progress);
    ProductNonNegative(n, laterProgress - progress);
  }

  /** A frame is bracketed by one Begin and one End: it starts with Begin and
      the start vertex, ends with End, and holds no other Begin or End. */
  lemma FrameBracketed(vertices: seq<PathVertex>, startFrame: int, duration: real, frameCount: int)
    requires ValidPath(vertices) && duration > 0.0
    ensures var frame := Frame(vertices, startFrame, duration, frameCount);
      && |frame| >= 3
      && frame[0] == Begin
      && frame[1] == Point(vertices[0].x, vertices[0].y)
      && frame[|frame| - 1] == End(Closes(vertices, Progress(startFrame, duration, frameCount)))
      && (forall j :: 0 < j < |frame| ==> !frame[j].Begin?)
      && (forall j :: 0 <= j < |frame| - 1 ==> !frame[j].End?)
  {
    var progress := Progress(startFrame, duration, frameCount);
    var frame := Frame(vertices, startFrame, duration, frameCount);
    var k := CurveNo(|vertices| - 1, progress);
    var middle := FullCurves(vertices, k) + PartialCurves(vertices, progress);
    assert frame == [Begin, Point(vertices[0].x, vertices[0].y)] + middle + [End(Closes(vertices, progress))];
    forall j | 0 <= j < |middle|
      ensures !middle[j].Begin? && !middle[j].End?
    {
      if j >= k {
        var v := vertices[k + 1];
        if v.BezierVertex? {
          assert middle[j] == PartialCurve(EndPoint(vertices[k]), v, CurveFraction(|vertices| - 1, progress));
        }
      }
    }
    forall j | 0 < j < |frame|
      ensures !frame[j].Begin?
    {
      if 2 <= j < |frame| - 1 {
        assert frame[j] == middle[j - 2];
      }
    }
    forall j | 0 <= j < |frame| - 1
      ensures !frame[j].End?
    {
      if 2 <= j {
        assert frame[j] == middle[j - 2];
      }
    }
  }

  /** The first CompletedCurves elements after the start vertex are drawn
      verbatim and in order, right after the start vertex. */
  lemma FrameVerbatim(vertices: seq<PathVertex>, startFrame: int, duration: real, frameCount: int)
    requires ValidPath(vertices) && duration > 0.0
    ensures var frame := Frame(vertices, startFrame, duration, frameCount);
      var k := CompletedCurves(vertices, startFrame, duration, frameCount);
      && |frame| >= k + 3
      && forall j :: 2 <= j < k + 2 ==> frame[j] == FullCurve(vertices[j - 1])
  {
    var progress := Progress(startFrame, duration, frameCount);
    var frame := Frame(vertices, startFrame, duration, frameCount);
    var k := CompletedCurves(vertices, startFrame, duration, frameCount);
    var head := [Begin, Point(vertices[0].x, vertices[0].y)] + FullCurves(vertices, k);
    assert frame == head + PartialCurves(vertices, progress) + [End(Closes(vertices, progress))];
    forall j | 2 <= j < k + 2
      ensures frame[j] == FullCurve(vertices[j - 1])
    {
      assert frame[j] == head[j];
    }
  }

  /** Exactly one partially drawn element follows the verbatim ones if and
      only if not every element is drawn in full; it is the next element,
      drawn from the end point of the previous one up to the fraction
      CurveFraction. */
  lemma FramePartial(vertices: seq<PathVertex>, startFrame: int, duration: real, frameCount: int)
    requires ValidPath(vertices) && duration > 0.0
    ensures var frame := Frame(vertices, startFrame, duration, frameCount);
      var progress := Progress(startFrame, duration, frameCount);
      var numCurves := |vertices| - 1;
      var k := CompletedCurves(vertices, startFrame, duration, frameCount);
      && (|frame| == k + 4 <==> k < numCurves)
      && (|frame| == k + 3 <==> k == numCurves)
      && (k < numCurves ==>
            frame[k + 2] == PartialCurve(EndPoint(vertices[k]), vertices[k + 1], CurveFraction(numCurves, progress)))
  {
    var progress := Progress(startFrame, duration, frameCount);
    var frame := Frame(vertices, startFrame, duration, frameCount);
    var k := CompletedCurves(vertices, startFrame, duration, frameCount);
    var head := [Begin, Point(vertices[0].x, vertices[0].y)] + FullCurves(vertices, k);
    var tail := PartialCurves(vertices, progress) + [End(Closes(vertices, progress))];
    assert frame == head + tail;
    assert |head| == k + 2;
    if k < |vertices| - 1 {
      assert frame[k + 2] == tail[0];
    }
  }

  /** Once `duration` frames have elapsed every element is drawn verbatim and
      nothing partial follows. */
  lemma FrameComplete(vertices: seq<PathVertex>, startFrame: int, duration: real, frameCount: int)
    requires ValidPath(vertices) && duration > 0.0
    requires (frameCount - startFrame) as real >= duration
    ensures CompletedCurves(vertices, startFrame, duration, frameCount) == |vertices| - 1
    ensures Frame(vertices, startFrame, duration, frameCount)
         == [Begin, Point(vertices[0].x, vertices[0].y)]
            + FullCurves(vertices, |vertices| - 1)
            + [End(Closes(vertices, 1.0))]
  {
    var progress := Progress(startFrame, duration, frameCount);
    assert progress == 1.0;
    assert PartialCurves(vertices, progress) == [];
  }

  /** The path is closed if and only if `duration` frames have elapsed, the
      path has more than one element, its last element is a plain vertex,
      and that vertex equals the start vertex on both coordinates. */
  lemma FrameClosed(vertices: seq<PathVertex>, startFrame: int, duration: real, frameCount: int)
    requires ValidPath(vertices) && duration > 0.0
    ensures var frame := Frame(vertices, startFrame, duration, frameCount);
      var last := vertices[|vertices| - 1];
      frame[|frame| - 1] == End(true) <==>
        && (frameCount - startFrame) as real >= duration
        && |vertices| > 1
        && last.Vertex?
        && vertices[0].x == last.x && vertices[0].y == last.y
  {
    FrameBracketed(vertices, startFrame, duration, frameCount);
    ProgressComplete(startFrame, duration, frameCount);
  }

  /** Before the animation has started, a path of one vertex draws only the
      start vertex, and a longer path also draws a degenerate first element
      that sits on the start vertex: a vertex call at the start vertex, or a
      Bezier vertex call whose three points are all the start vertex. */
  lemma FrameAtStart(vertices: seq<PathVertex>, startFrame: int, duration: real, frameCount: int)
    requires ValidPath(vertices) && duration > 0.0
    requires frameCount <= startFrame
    ensures var frame := Frame(vertices, startFrame, duration, frameCount);
      var x, y := vertices[0].x, vertices[0].y;
      && (|vertices| == 1 ==> frame == [Begin, Point(x, y), End(false)])
      && (|vertices| > 1 && vertices[1].Vertex? ==> frame == [Begin, Point(x, y), Point(x, y), End(false)])
      && (|vertices| > 1 && vertices[1].BezierVertex? ==>
            frame == [Begin, Point(x, y), Bezier(x, y, x, y, x, y), End(false)])
  {
    var frame := Frame(vertices, startFrame, duration, frameCount);
    var progress := Progress(startFrame, duration, frameCount);
    assert progress == 0.0;
    assert FullCurves(vertices, 0) == [];
    if |vertices| > 1 {
      assert CurveNo(|vertices| - 1, progress) == 0;
      assert CurveFraction(|vertices| - 1, progress) == 0.0;
      if vertices[1].BezierVertex? {
        PartialCollapseAtStart(FromVertices(vertices[0], vertices[1]));
      }
    }
  }

  /** As frames advance, the number of elements drawn in full never shrinks,
      and the verbatim part drawn earlier is a prefix of the frame drawn
      later. */
  lemma FrameGrows(vertices: seq<PathVertex>, startFrame: int, duration: real, frameCount: int, laterFrame: int)
    requires ValidPath(vertices) && duration > 0.0 && frameCount <= laterFrame
    ensures var k := CompletedCurves(vertices, startFrame, duration, frameCount);
      && k <= CompletedCurves(vertices, startFrame, duration, laterFrame)
      && Frame(vertices, startFrame, duration, frameCount)[..k + 2]
         == Frame(vertices, startFrame, duration, laterFrame)[..k + 2]
  {
    var k := CompletedCurves(vertices, startFrame, duration, frameCount);
    var k' := CompletedCurves(vertices, startFrame, duration, laterFrame);
    ProgressMonotone(startFrame, duration, frameCount, laterFrame);
    CurveNoMonotone(|vertices| - 1, Progress(startFrame, duration, frameCount), Progress(startFrame, duration, laterFrame));
    FrameVerbatim(vertices, startFrame, duration, frameCount);
    FrameVerbatim(vertices, startFrame, duration, laterFrame);
    FrameBracketed(vertices, startFrame, duration, frameCount);
    FrameBracketed(vertices, startFrame, duration, laterFrame);
    var early := Frame(vertices, startFrame, duration, frameCount);
    var late := Frame(vertices, startFrame, duration, laterFrame);
    forall j | 0 <= j < k + 2
      ensures early[j] == late[j]
    {
      if j >= 2 {
        assert early[j] == FullCurve(vertices[j - 1]);
        assert late[j] == FullCurve(vertices[j - 1]);
      }
    }
  }

  /** A partially drawn straight segment ends at the point the fraction f of
      the way from lastPoint to the segment's vertex. */
  lemma PartialLine(lastPoint: PathVertex, v: PathVertex, f: real)
    requires lastPoint.Vertex? && v.Vertex?
    ensures PartialCurve(lastPoint, v, f) == Point(Lerp(lastPoint.x, v.x, f), Lerp(lastPoint.y, v.y, f))
    ensures f == 0.0 ==> PartialCurve(lastPoint, v, f) == Point(lastPoint.x, lastPoint.y)
  {
    var cmd := PartialCurve(lastPoint, v, f);
    assert cmd.x == lastPoint.x + (v.x - lastPoint.x) * f;
    assert cmd.y == lastPoint.y + (v.y - lastPoint.y) * f;
  }

  /** A partially drawn Bezier element, drawn from lastPoint, is exactly the
      first fraction f of the curve from lastPoint through the element: its
      point at s is that curve's point at f·s, so it ends at B(f). */
  lemma PartialBezier(lastPoint: PathVertex, v: PathVertex, f: real, s: real)
    requires lastPoint.Vertex? && v.BezierVertex?
    ensures var cmd := PartialCurve(lastPoint, v, f);
      var whole := FromVertices(lastPoint, v);
      var drawn := BezierCurve(lastPoint.x, lastPoint.y, cmd.x2, cmd.y2, cmd.x3, cmd.y3, cmd.x4, cmd.y4);
      && cmd.Bezier?
      && cmd.x4 == CurveX(whole, f) && cmd.y4 == CurveY(whole, f)
      && CurveX(drawn, s) == CurveX(whole, f * s) && CurveY(drawn, s) == CurveY(whole, f * s)
  {
    var whole := FromVertices(lastPoint, v);
    var partial := PartialBezierCurve(whole, 0.0, f);
    PartialFromStart(whole, f);
    PartialTraces(whole, 0.0, f, s);
    assert 0.0 + (f - 0.0) * s == f * s;
  }

  /** A closed square is closed once drawn in full; a straight line ends
      open, and halfway through it has reached its midpoint. */
  lemma FrameExamples()
    ensures Frame([Vertex(0.0, 0.0), Vertex(1.0, 0.0), Vertex(1.0, 1.0), Vertex(0.0, 1.0), Vertex(0.0, 0.0)], 0, 10.0, 10)
         == [Begin, Point(0.0, 0.0), Point(1.0, 0.0), Point(1.0, 1.0), Point(0.0, 1.0), Point(0.0, 0.0), End(true)]
    ensures Frame([Vertex(0.0, 0.0), Vertex(4.0, 2.0)], 0, 10.0, 10)
         == [Begin, Point(0.0, 0.0), Point(4.0, 2.0), End(false)]
    ensures Frame([Vertex(0.0, 0.0), Vertex(4.0, 2.0)], 0, 10.0, 5)
         == [Begin, Point(0.0, 0.0), Point(2.0, 1.0), End(false)]
  {
    var square := [Vertex(0.0, 0.0), Vertex(1.0, 0.0), Vertex(1.0, 1.0), Vertex(0.0, 1.0), Vertex(0.0, 0.0)];
    var line := [Vertex(0.0, 0.0), Vertex(4.0, 2.0)];
    FrameComplete(square, 0, 10.0, 10);
    assert FullCurves(square, 4) == [Point(1.0, 0.0), Point(1.0, 1.0), Point(0.0, 1.0), Point(0.0, 0.0)];
    FrameComplete(line, 0, 10.0, 10);
    assert FullCurves(line, 1) == [Point(4.0, 2.0)];
    assert Progress(0, 10.0, 5) == 0.5;
    assert CurveNo(1, 0.5) == 0 && CurveFraction(1, 0.5) == 0.5;
    assert FullCurves(line, 0) == [];
  }

  /** A path of one element after the start vertex, not yet complete, draws
      the start point and the partial element, and ends open. */
  lemma FrameOneElement(vertices: seq<PathVertex>, startFrame: int, duration: real, frameCount: int)
    requires ValidPath(vertices) && duration > 0.0 && |vertices| == 2
    requires (frameCount - startFrame) as real < duration
    ensures var progress := Progress(startFrame, duration, frameCount);
      Frame(vertices, startFrame, duration, frameCount)
        == [Begin, Point(vertices[0].x, vertices[0].y),
            PartialCurve(vertices[0], vertices[1], CurveFraction(1, progress)), End(false)]
  {
    var progress := Progress(startFrame, duration, frameCount);
    ProgressComplete(startFrame, duration, frameCount);
    assert CurveNo(1, progress) == 0;
    assert FullCurves(vertices, 0) == [];
    assert !Closes(vertices, progress);
  }

  /** The first half of the arch from (0, 0) through the controls (0, 1),
      (1, 1) to (1, 0). */
  lemma ArchFirstHalf()
    ensures PartialCurve(Vertex(0.0, 0.0), BezierVertex(0.0, 1.0, 1.0, 1.0, 1.0, 0.0), 0.5)
         == Bezier(0.0, 0.5, 0.25, 0.75, 0.5, 0.75)
  {
  }

  /** Halfway through, a path of one Bezier element draws the first half of
      its curve, split by De Casteljau's construction at 1/2. */
  lemma FrameBezierExample()
    ensures Frame([Vertex(0.0, 0.0), BezierVertex(0.0, 1.0, 1.0, 1.0, 1.0, 0.0)], 0, 10.0, 5)
         == [Begin, Point(0.0, 0.0), Bezier(0.0, 0.5, 0.25, 0.75, 0.5, 0.75), End(false)]
  {
    var arch := [Vertex(0.0, 0.0), BezierVertex(0.0, 1.0, 1.0, 1.0, 1.0, 0.0)];
    assert Progress(0, 10.0, 5) == 0.5;
    assert CurveNo(1, 0.5) == 0 && CurveFraction(1, 0.5) == 0.5;
    FrameOneElement(arch, 0, 10.0, 5);
    ArchFirstHalf();
  }

  /** A shape whose outline is drawn in over `duration` frames from
      `startFrame` on. */
  class Shape {
    const p5obj: Surface
    const vertices: seq<PathVertex>
    const startFrame: int
    const duration: real

    ghost predicate Valid()
    {
      ValidPath(vertices)
    }

    constructor (p5obj: Surface, vertices: seq<PathVertex>, startFrame: int, duration: real)
      requires ValidPath(vertices)
      ensures Valid()
      ensures this.p5obj == p5obj && this.vertices == vertices
      ensures this.startFrame == startFrame && this.duration == duration
    {
      this.p5obj := p5obj;
      this.vertices := vertices;
      this.startFrame := startFrame;
      this.duration := duration;
    }

    /** Construction with the checks of the path: an empty path and a path
        starting with a Bezier vertex are refused. */
    static method Create(p5obj: Surface, vertices: seq<PathVertex>, startFrame: int, duration: real)
      returns (r: Result<Shape>)
      ensures r.Err? ==> CheckVertices(vertices) == Err(r.error)
      ensures r.Ok? <==> ValidPath(vertices)
      ensures r.Ok? ==> fresh(r.value) && r.value.Valid()
      ensures r.Ok? ==> r.value.p5obj == p5obj && r.value.vertices == vertices
      ensures r.Ok? ==> r.value.startFrame == startFrame && r.value.duration == duration
    {
      if |vertices| <= 0 {
        return Err(EmptyVertices);
      }
      if !vertices[0].Vertex? {
        return Err(BezierStart);
      }
      var shape := new Shape(p5obj, vertices, startFrame, duration);
      return Ok(shape);
    }

    /** Draws the element v, which starts at lastPoint, up to the fraction
        f of its length: a straight segment is cut at f, a Bezier element is
        replaced by the first f of its curve. */
    method DrawPartial(lastPoint: PathVertex, v: PathVertex, f: real)
      requires lastPoint.Vertex?
      modifies p5obj
      ensures p5obj.trace == old(p5obj.trace) + [PartialCurve(lastPoint, v, f)]
    {
      if v.Vertex? {
        var x1 := lastPoint.x + (v.x - lastPoint.x) * f;
        var y1 := lastPoint.y + (v.y - lastPoint.y) * f;
        assert PartialCurve(lastPoint, v, f) == Point(x1, y1);
        p5obj.AddVertex(x1, y1);
      } else {
        var currentCurve := FromVertices(lastPoint, v);
        var partial := PartialBezierCurve(currentCurve, 0.0, f);
        assert PartialCurve(lastPoint, v, f)
            == Bezier(partial.x2, partial.y2, partial.x3, partial.y3, partial.x4, partial.y4);
        p5obj.AddBezierVertex(partial.x2, partial.y2, partial.x3, partial.y3, partial.x4, partial.y4);
      }
    }

    /** Draws the shape as it stands at frameCount. */
    method Update(frameCount: int)
      requires Valid() && duration > 0.0
      modifies p5obj
      ensures p5obj.trace == old(p5obj.trace) + Frame(vertices, startFrame, duration, frameCount)
    {
      var progress := Progress(startFrame, duration, frameCount);
      var numCurves := |vertices| - 1;
      var currentCurveNo := CurveNo(numCurves, progress);
      var currentCurveProgress := CurveFraction(numCurves, progress);

      p5obj.BeginShape();
      // The start point.
      p5obj.AddVertex(vertices[0].x, vertices[0].y);
      var lastPoint := EndPoint(vertices[0]);
      ghost var prefix := old(p5obj.trace) + [Begin, Point(vertices[0].x, vertices[0].y)];
      // All the elements drawn in full.
      for i := 0 to currentCurveNo
        invariant p5obj.trace == prefix + FullCurves(vertices, i)
        invariant lastPoint == EndPoint(vertices[i])
      {
        var v := vertices[i + 1];
        if v.Vertex? {
          p5obj.AddVertex(v.x, v.y);
        } else {
          p5obj.AddBezierVertex(v.x2, v.y2, v.x3, v.y3, v.x4, v.y4);
        }
        assert FullCurves(vertices, i + 1) == FullCurves(vertices, i) + [FullCurve(v)];
        lastPoint := EndPoint(v);
      }
      ghost var full := p5obj.trace;
      // The partially drawn element.
      if currentCurveNo < numCurves {
        DrawPartial(lastPoint, vertices[currentCurveNo + 1], currentCurveProgress);
      }
      assert p5obj.trace == full + PartialCurves(vertices, progress);
      ghost var closes := Closes(vertices, progress);
      if progress >= 1.0 && |vertices| > 1 &&
         vertices[|vertices| - 1].Vertex? &&
         vertices[0].x == vertices[|vertices| - 1].x &&
         vertices[0].y == vertices[|vertices| - 1].y {
        assert closes;
        p5obj.EndShape(true);
      } else {
        assert !closes;
        p5obj.EndShape(false);
      }
    }
  }
}
