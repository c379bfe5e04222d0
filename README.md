# p5.animS partial-path rendering, in Dafny

p5.animS draws 2D vector shapes so that they appear to draw themselves in over
a number of frames. A shape is a path: a start vertex followed by straight
segments (plain vertices) and cubic Bezier segments (Bezier vertices: two
control points and an anchor). On every frame the shape works out how far the
animation has progressed. It then emits to the p5 drawing surface the segments
that are already complete, followed by the one segment that is only partly
drawn.

The project models the two pieces that do this:

- `bernstein.dfy`, module `Bernstein`: scalar facts about cubic polynomials in
  Bernstein form and their polar form (blossom). One member models source
  code: `QuadraticAt` is the expanded quadratic that `partialBezierCurve`
  writes out for each of qxa..qyd (src/utils.js:117-125), and `SplitAxis`
  computes with it. The other members are proof tools and model no source
  line.
- `geometry.dfy`, module `Geometry`: the geometry kernel of `src/utils.js`.
  - `PathVertex` is a two-variant datatype, `Vertex` or `BezierVertex`.
  - `BezierCurve` is the eight-number curve record.
  - `FromVertices` models `BezierCurve.fromVetices`.
  - `EndPoint` models `getEndPoint`.
  - `PartialBezierCurve` models `partialBezierCurve`. It uses the closed-form
    De Casteljau polynomials of the source. The source repeats the same code
    for x and for y; the model writes it once, as `SplitAxis`, and applies it
    to each axis.
  - Coordinates are `real`, so the lemmas state exact identities.
- `render.dfy`, module `Render`: the `Shape` class of `src/shape.js`.
  - The p5 drawing surface is the class `Surface`. It records every call in
    the sequence `trace`: `Begin` for `beginShape`, `Point(x, y)` for
    `vertex` (method `AddVertex`), `Bezier(...)` for `bezierVertex` (method
    `AddBezierVertex`), and `End(closed)` for `endShape`.
  - The constructor stores the surface, the vertices, the start frame and the
    duration. `Shape.Create` performs the two construction-time checks and
    returns an error value instead of throwing.
  - `Shape.Update(frameCount)` has the same steps as `update()`: the clamped
    progress, the whole and fractional curve counts, the start point, the loop
    over the completed elements, the partial element and the close decision.
    Its postcondition says that it appends exactly `Frame(...)` to the trace.
    `Frame` is the specification of one frame. The lemmas `Frame*` prove what
    the renderer promises about it.
  - The drawing of the partial element (src/shape.js:54-63) is its own
    method, `Shape.DrawPartial`. `Update` calls it where the source has that
    code inline.

Behaviour worth knowing, taken from the code:

- At progress 0, a path of two or more vertices still emits one degenerate
  partial element that sits on the start vertex (`FrameAtStart`). This is
  because `currentCurveNo = 0 < numCurves` (src/shape.js:53). It is not the
  case that only the start point is drawn.
- `update()` divides by `duration` (src/shape.js:31). With a duration of 0,
  JavaScript gives three cases:
  - after the start frame the quotient is +Infinity, which the clamp at
    src/shape.js:33 turns into 1, so the shape is drawn in full (and closed
    when the closing conditions hold);
  - before the start frame it is −Infinity, which src/shape.js:32 turns into
    0;
  - on the start frame itself it is NaN, which passes both clamps. The
    completed count is then NaN, the loop and the partial element are
    skipped, and `NaN >= 1` is false, so that frame draws only begin, the
    start vertex and an open end.

  `Update` and `Frame` require `duration > 0` and do not cover these cases.
- The fields are `const`: `update()` never reassigns `vertices`, `startFrame`
  or `duration`. `Update` modifies only the drawing surface.

## Model

| member | source | states |
|---|---|---|
| Geometry.EndPoint | src/utils.js:93-98 | the end point is always a plain vertex: for a plain vertex it is that vertex, for a Bezier vertex it is its anchor (x4, y4) |
| Geometry.EndPointFixture | test/utils.test.js:5-12 | the end point of Vertex(1, 2) is (1, 2); that of BezierVertex(1, 2, 3, 4, 5, 6) is (5, 6) |
| Geometry.FromVertices | src/utils.js:73-83 | the curve is (start.x, start.y, x2, y2, x3, y3, x4, y4), in that order |
| Geometry.FromVerticesJoins | src/utils.js:73-98 | the curve built from a start vertex and a Bezier vertex passes through the start vertex at t = 0 and the Bezier vertex's end point at t = 1 |
| Bernstein.QuadraticAt | src/utils.js:117-125 | no contract of its own; it is the source's expanded quadratic p0·u² + p1·2·t·u + p2·t², and `QuadraticDiagonal` proves it equals the two-level interpolation `Quadratic(p0, p1, p2, t, t)` |
| Bernstein.QuadraticDiagonal | src/utils.js:117-125 | the expanded quadratic of each of qxa..qyd is the polar form of the quadratic on the diagonal (t, t) |
| Geometry.SplitAxis | src/utils.js:114-135 | no contract of its own; models one axis of the split (u0, u1, the four quadratics and the four results); stated by `SplitAxisIsPolar` and `PartialAxesSeparate` |
| Geometry.PartialBezierCurve | src/utils.js:113-137 | no contract of its own; models `partialBezierCurve` as `SplitAxis` on x and on y, returned in the record order (xa, ya, xb, yb, xc, yc, xd, yd); stated by `PartialIsPolar`, `PartialEndpoints`, `PartialFromStart`, `PartialTraces`, `PartialCompose`, `PartialFullRange`, `PartialCollapse`, `PartialCollapseAtStart`, `PartialAxesSeparate` and `PartialFixture` |
| Geometry.SplitAxisIsPolar | src/utils.js:114-130 | the four values one axis of the split computes are the polar values of that axis's cubic at (t0,t0,t0), (t0,t0,t1), (t1,t1,t0), (t1,t1,t1) |
| Geometry.PartialIsPolar | src/utils.js:113-137 | the eight outputs of the split are the polar values of the curve's x and y cubics, in the order the result record lists them |
| Geometry.PartialEndpoints | src/utils.js:113-137 | the split curve's first anchor is B(t0) and its last anchor is B(t1), with B the Bernstein polynomial of each axis |
| Geometry.PartialFromStart | src/utils.js:113-137 | a split from t0 = 0 keeps the start anchor (x1, y1) and ends at B(t1) |
| Geometry.PartialTraces | src/utils.js:113-137 | the split curve's point at s is the original curve's point at t0 + (t1 - t0)·s, on both axes |
| Geometry.PartialCompose | src/utils.js:113-137 | splitting the split curve over [s0, s1] is the single split of the original over the corresponding sub-range of [t0, t1] |
| Geometry.PartialFullRange | src/utils.js:113-137 | the range [0, 1] returns a curve equal to the input |
| Geometry.PartialCollapse | src/utils.js:113-137 | the range [t, t] collapses all four points onto B(t) |
| Geometry.PartialCollapseAtStart | src/utils.js:113-137 | the range [0, 0] collapses all four points onto (x1, y1) |
| Geometry.PartialAxesSeparate | src/utils.js:117-135 | changing the y inputs leaves the x outputs unchanged, and changing the x inputs leaves the y outputs unchanged |
| Geometry.PartialFixture | test/utils.test.js:26-37 | splitting (10,10,5,20,25,80,10,70) over [0.3, 0.7] gives exactly (10.63, 29.26, 12.47, 40.94, 15.43, 54.86, 15.67, 63.34) |
| Render.ValidPath | src/shape.js:17-20 | no contract of its own; a path the constructor accepts: not empty, starting with a plain vertex; stated by `CheckVertices` and `Shape.Create` |
| Render.CheckVertices | src/shape.js:17-20 | an empty vertex list fails with EmptyVertices, a list starting with a Bezier vertex fails with BezierStart, and any other list passes |
| Render.Shape.Create | src/shape.js:16-25 | construction fails exactly when the check fails, with the check's error; on success the new shape stores the given surface, vertices, start frame and duration |
| Render.Shape.constructor | src/shape.js:21-24 | the fields hold the given surface, vertices, start frame and duration |
| Render.Progress | src/shape.js:31-33 | progress lies in [0, 1]; it is 0 up to the start frame, 1 once duration frames have elapsed, and elapsed/duration in between |
| Render.CurveNo | src/shape.js:34-36 | the number of completed curves lies in [0, numCurves]; it is the floor of numCurves·progress; it equals numCurves exactly when numCurves = 0 or progress = 1 |
| Render.CurveFraction | src/shape.js:35-37 | the fraction lies in [0, 1), and the completed count plus the fraction is numCurves·progress |
| Render.FullCurve | src/shape.js:45-49 | a plain vertex becomes a vertex call with its x and y; a Bezier vertex becomes a Bezier vertex call with the same six numbers |
| Render.FullCurves | src/shape.js:44-51 | k calls, the i-th being the verbatim call for element i + 1 |
| Render.ProgressComplete | src/shape.js:31-33 | progress reaches 1 if and only if at least duration frames have elapsed |
| Render.ProgressMonotone | src/shape.js:31-33 | a later frame never has less progress |
| Render.CurveNoMonotone | src/shape.js:34-36 | more progress never gives fewer completed curves |
| Render.PartialCurve | src/shape.js:55-62 | no contract of its own; the one call that draws element v from lastPoint up to the fraction f; stated by `PartialLine`, `PartialBezier` and `Shape.DrawPartial` |
| Render.PartialCurves | src/shape.js:53-64 | no contract of its own; the partial call when fewer than numCurves elements are complete, and nothing otherwise; stated by `FramePartial` and `FrameComplete` |
| Render.Closes | src/shape.js:65-68 | no contract of its own; the close condition of `endShape`; stated by `FrameClosed` |
| Render.Frame | src/shape.js:30-73 | no contract of its own; the calls of one `update()`: begin, the start vertex, the completed elements, the partial element, end; stated by the `Frame*` lemmas and by `Shape.Update` |
| Render.CompletedCurves | src/shape.js:31-36 | no contract of its own; `currentCurveNo` at frameCount, that is `CurveNo` of `Progress`; the k of `FrameVerbatim`, `FramePartial` and `FrameGrows` |
| Render.FrameBracketed | src/shape.js:39-72 | a frame starts with Begin and the start vertex, ends with End, and has no other Begin or End |
| Render.FrameVerbatim | src/shape.js:44-51 | the completed elements vertices[1..k] follow the start vertex verbatim and in order |
| Render.FramePartial | src/shape.js:53-64 | exactly one partial call follows the verbatim ones if and only if k < numCurves; it is element k + 1, drawn from the end point of element k up to the fraction |
| Render.FrameComplete | src/shape.js:53-72 | once duration frames have elapsed every element is drawn verbatim and nothing partial follows |
| Render.FrameClosed | src/shape.js:65-72 | the path is closed if and only if duration frames have elapsed, there is more than one vertex, the last element is a plain vertex, and it equals the start vertex on both coordinates |
| Render.FrameAtStart | src/shape.js:31-64 | before the start frame, one vertex draws only the start point; more vertices add one degenerate element on the start vertex (a vertex call or a Bezier call whose three points are the start vertex); the path ends open |
| Render.FrameGrows | src/shape.js:30-51 | at a later frame the completed count is no smaller, and the start point and verbatim elements drawn earlier are a prefix of the later frame |
| Render.PartialLine | src/shape.js:55-58 | a partial straight segment is the point lastPoint + (v - lastPoint)·f; at f = 0 it is lastPoint |
| Render.PartialBezier | src/shape.js:59-62 | a partial Bezier element drawn from lastPoint is exactly the first fraction f of the curve from lastPoint through the element: its point at s is that curve's point at f·s, and its anchor is B(f) |
| Render.FrameExamples | src/shape.js:30-73 | a closed square drawn in full is closed; a line drawn in full ends open; halfway through, the line has reached its midpoint |
| Render.FrameOneElement | src/shape.js:30-73 | a path of one element after the start vertex, before duration frames have elapsed, draws exactly begin, the start vertex, the partial element from the start vertex, and an open end |
| Render.ArchFirstHalf | src/shape.js:59-62 | the partial Bezier call for the arch (0,0), (0,1), (1,1), (1,0) at fraction 1/2 is Bezier(0, 0.5, 0.25, 0.75, 0.5, 0.75) |
| Render.FrameBezierExample | src/shape.js:30-73 | at frame 5 of 10, the one-element Bezier arch draws begin, (0, 0), Bezier(0, 0.5, 0.25, 0.75, 0.5, 0.75) and an open end |
| Render.Shape.DrawPartial | src/shape.js:54-63 | the surface's trace grows by exactly the one partial call for element v from lastPoint at fraction f: a vertex call for a straight segment, a Bezier vertex call for the first f of a Bezier element |
| Render.Shape.Update | src/shape.js:30-73 | the surface's trace grows by exactly Frame(vertices, startFrame, duration, frameCount), and nothing else changes |

## Left out

- `arcToBezier` (src/utils.js:146-166) is not modelled. It uses floating-point cosine, sine and tangent. It also passes every coordinate through `toFixed(7)`, so the curve's fields are decimal strings, not numbers.
- The registry (src/anims.js, src/main.js) is not modelled. `AnimShapes` only builds an empty `Map`, and `AnimShapesAdapter` only wraps it. The sources contain no get-or-create, reset or shape factories to model.
- The generated bundle, the build configuration and the example sketches are not modelled: they are packaging and host UI.
- The p5 drawing surface is modelled only as a recorded trace of calls. Its frame counter is the parameter `frameCount` of `Update`.
- Floating-point rounding is not modelled: coordinates and the duration are `real`. The test's expected values such as 10.629999999999999 are what the same formulas give when evaluated in doubles. Rounding error puts them off from the exact values that `PartialFixture` proves.
- Render.Shape.Update: requires `duration > 0`. With duration 0, the source draws the whole shape after the start frame (+Infinity clamped to 1) and the progress-0 frame before it (−Infinity clamped to 0). On the start frame itself it draws only begin, the start vertex and an open end (NaN passes both clamps at src/shape.js:32-33). The model covers none of these three cases. The same requires also rules out a negative duration, which the source handles without error: with duration −10 and 5 frames before the start frame, progress is 0.5 at src/shape.js:31-33 and a partial frame is drawn. The model leaves that case out because the duration is documented as a number of frames (src/shape.js:13-14). The same applies to `Progress`, `CompletedCurves` and `Frame`.
- The vertex list is stored as a value (`seq`). The source stores the caller's array by reference, so a caller mutating that array later would change what is drawn. The model does not capture that aliasing.
- Render.Progress: frames are integers and the duration is a real number. The source accepts any JavaScript number for all three.
