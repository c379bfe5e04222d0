/** Scalar facts about cubic Bezier polynomials, one coordinate axis at a
    time. The polar form (blossom) of a cubic is the tool that proves what
    the closed-form curve split of the geometry kernel computes. */
module Bernstein {

  /** The point a fraction t of the way from a to b. */
  function Lerp(a: real, b: real, t: real): real
  {
    a * (1.0 - t) + b * t
  }

  /** The Bernstein form of a cubic with coefficients p0..p3 at parameter t:
      p0·u³ + 3·p1·t·u² + 3·p2·t²·u + p3·t³ with u = 1 − t. */
  function Cubic(p0: real, p1: real, p2: real, p3: real, t: real): real
  {
    var u := 1.0 - t;
    p0 * u * u * u + 3.0 * p1 * t * u * u + 3.0 * p2 * t * t * u + p3 * t * t * t
  }

  /** The polar form of the quadratic with coefficients p0..p2. */
  function Quadratic(p0: real, p1: real, p2: real, a: real, b: real): real
  {
    Lerp(Lerp(p0, p1, a), Lerp(p1, p2, a), b)
  }

  /** The quadratic with coefficients p0..p2 at t, in the expanded form
      p0·u² + 2·p1·t·u + p2·t² with u = 1 − t. */
  function QuadraticAt(p0: real, p1: real, p2: real, t: real): real
  {
    var u := 1.0 - t;
    p0 * u * u + p1 * 2.0 * t * u + p2 * t * t
  }

  /** The polar form of the cubic with coefficients p0..p3: De Casteljau's
      construction with the three levels taken at a, b and c. */
  function Blossom(p0: real, p1: real, p2: real, p3: real, a: real, b: real, c: real): real
  {
    Lerp(Quadratic(p0, p1, p2, a, b), Quadratic(p1, p2, p3, a, b), c)
  }

  /** Interpolation is affine in its parameter. */
  lemma LerpAffine(p: real, q: real, c: real, d: real, s: real)
    ensures Lerp(p, q, Lerp(c, d, s)) == Lerp(Lerp(p, q, c), Lerp(p, q, d), s)
  {
  }

  /** On the diagonal the polar form is the cubic itself. */
  lemma BlossomDiagonal(p0: real, p1: real, p2: real, p3: real, t: real)
    ensures Blossom(p0, p1, p2, p3, t, t, t) == Cubic(p0, p1, p2, p3, t)
  {
  }

  lemma QuadraticDiagonal(p0: real, p1: real, p2: real, t: real)
    ensures Quadratic(p0, p1, p2, t, t) == QuadraticAt(p0, p1, p2, t)
  {
  }

  lemma QuadraticSymmetric(p0: real, p1: real, p2: real, a: real, b: real)
    ensures Quadratic(p0, p1, p2, a, b) == Quadratic(p0, p1, p2, b, a)
  {
  }

  lemma BlossomSwapFirst(p0: real, p1: real, p2: real, p3: real, a: real, b: real, c: real)
    ensures Blossom(p0, p1, p2, p3, a, b, c) == Blossom(p0, p1, p2, p3, b, a, c)
  {
    QuadraticSymmetric(p0, p1, p2, a, b);
    QuadraticSymmetric(p1, p2, p3, a, b);
  }

  lemma BlossomSwapLast(p0: real, p1: real, p2: real, p3: real, a: real, b: real, c: real)
    ensures Blossom(p0, p1, p2, p3, a, b, c) == Blossom(p0, p1, p2, p3, a, c, b)
  {
  }

  /** The polar form is affine in its last argument. */
  lemma BlossomAffineLast(p0: real, p1: real, p2: real, p3: real, a: real, b: real, c: real, d: real, s: real)
    ensures Blossom(p0, p1, p2, p3, a, b, Lerp(c, d, s))
         == Lerp(Blossom(p0, p1, p2, p3, a, b, c), Blossom(p0, p1, p2, p3, a, b, d), s)
  {
    LerpAffine(Quadratic(p0, p1, p2, a, b), Quadratic(p1, p2, p3, a, b), c, d, s);
  }

  /** The cubic whose coefficients are the polar values at (a,a,a), (a,a,b),
      (b,b,a), (b,b,b) is the original cubic reparametrised from [0, 1] to
      [a, b]: its polar form at (x, y, z) is the original's at the
      corresponding points of [a, b]. */
  lemma {:induction false} BlossomReparam(p0: real, p1: real, p2: real, p3: real, a: real, b: real, x: real, y: real, z: real)
    ensures
      var q0 := Blossom(p0, p1, p2, p3, a, a, a);
      var q1 := Blossom(p0, p1, p2, p3, a, a, b);
      var q2 := Blossom(p0, p1, p2, p3, b, b, a);
      var q3 := Blossom(p0, p1, p2, p3, b, b, b);
      Blossom(q0, q1, q2, q3, x, y, z)
        == Blossom(p0, p1, p2, p3, Lerp(a, b, x), Lerp(a, b, y), Lerp(a, b, z))
  {
    var X, Y, Z := Lerp(a, b, x), Lerp(a, b, y), Lerp(a, b, z);
    var q0 := Blossom(p0, p1, p2, p3, a, a, a);
    var q1 := Blossom(p0, p1, p2, p3, a, a, b);
    var q2 := Blossom(p0, p1, p2, p3, b, b, a);
    var q3 := Blossom(p0, p1, p2, p3, b, b, b);
    // First level of De Casteljau's construction, taken at x.
    BlossomAffineLast(p0, p1, p2, p3, a, a, a, b, x);
    var l0 := Blossom(p0, p1, p2, p3, a, a, X);
    BlossomSwapLast(p0, p1, p2, p3, a, a, b);
    BlossomSwapLast(p0, p1, p2, p3, b, b, a);
    BlossomSwapFirst(p0, p1, p2, p3, b, a, b);
    BlossomAffineLast(p0, p1, p2, p3, a, b, a, b, x);
    var l1 := Blossom(p0, p1, p2, p3, a, b, X);
    BlossomAffineLast(p0, p1, p2, p3, b, b, a, b, x);
    var l2 := Blossom(p0, p1, p2, p3, b, b, X);
    assert Lerp(q0, q1, x) == l0;
    assert Lerp(q1, q2, x) == l1;
    assert Lerp(q2, q3, x) == l2;
    // Second level, taken at y.
    BlossomSwapLast(p0, p1, p2, p3, a, a, X);
    BlossomSwapLast(p0, p1, p2, p3, a, b, X);
    BlossomAffineLast(p0, p1, p2, p3, a, X, a, b, y);
    var m0 := Blossom(p0, p1, p2, p3, a, X, Y);
    assert Lerp(l0, l1, y) == m0;
    BlossomSwapFirst(p0, p1, p2, p3, a, b, X);
    BlossomSwapLast(p0, p1, p2, p3, b, a, X);
    BlossomSwapLast(p0, p1, p2, p3, b, b, X);
    BlossomAffineLast(p0, p1, p2, p3, b, X, a, b, y);
    var m1 := Blossom(p0, p1, p2, p3, b, X, Y);
    assert Lerp(l1, l2, y) == m1;
    // Third level, taken at z.
    BlossomSwapFirst(p0, p1, p2, p3, a, X, Y);
    BlossomSwapLast(p0, p1, p2, p3, X, a, Y);
    BlossomSwapFirst(p0, p1, p2, p3, b, X, Y);
    BlossomSwapLast(p0, p1, p2, p3, X, b, Y);
    BlossomAffineLast(p0, p1, p2, p3, X, Y, a, b, z);
    assert Lerp(m0, m1, z) == Blossom(p0, p1, p2, p3, X, Y, Z);
  }
}
