/**
 * The face operators of the fractional-step integrator: the five-point
 * diffusion term and the staggered convection terms of the x-face and
 * y-face velocities. Each takes the field(s) as the caller indexes them,
 * axis 0 along x, and returns a fresh array over the interior points
 * `[1:-1, 1:-1]`; nothing is written.
 */
module Operators {
  import opened Fields

  // ---------------------------------------------------------------------------
  // Field arithmetic used to state the properties

  /** `f + g`. */
  function Add(f: Field, g: Field, n: nat, m: nat): (h: Field)
    requires IsShape(f, n, m) && IsShape(g, n, m)
    ensures IsShape(h, n, m)
    ensures forall i, j :: 0 <= i < n && 0 <= j < m ==> h[i][j] == f[i][j] + g[i][j]
  {
    seq(n, i requires 0 <= i < n => seq(m, j requires 0 <= j < m => f[i][j] + g[i][j]))
  }

  /** `c f`. */
  function Scale(f: Field, c: real, n: nat, m: nat): (h: Field)
    requires IsShape(f, n, m)
    ensures IsShape(h, n, m)
    ensures forall i, j :: 0 <= i < n && 0 <= j < m ==> h[i][j] == c * f[i][j]
  {
    seq(n, i requires 0 <= i < n => seq(m, j requires 0 <= j < m => c * f[i][j]))
  }

  /** A field affine in the indices: `f[i, j] = c0 + cx * i + cy * j`. */
  predicate Affine(f: Field, n: nat, m: nat, c0: real, cx: real, cy: real)
    requires IsShape(f, n, m)
  {
    forall i, j :: 0 <= i < n && 0 <= j < m ==> f[i][j] == c0 + cx * i as real + cy * j as real
  }

  // ---------------------------------------------------------------------------
  // Real-number facts the stencils need

  lemma DivAdd(x: real, y: real, d: real)
    requires d != 0.0
    ensures (x + y) / d == x / d + y / d
  {
    assert (x / d) * d == x && (y / d) * d == y;
    assert (x / d + y / d) * d == x + y;
  }

  /** `(a x) / d == a (x / d)`. */
  lemma MulDivAssoc(a: real, x: real, d: real)
    requires d != 0.0
    ensures (a * x) / d == a * (x / d)
  {
    var q := x / d;
    assert q * d == x;
    assert (a * q) * d == a * x;
  }

  // ---------------------------------------------------------------------------
  // diffusion

  /** `(a - 2 b + c) / d**2`: the second difference along one axis. */
  function SecondDiff(a: real, b: real, c: real, d: real): real
    requires d != 0.0
  {
    (a - 2.0 * b + c) / d / d
  }

  /** The five values the Laplacian reads: a point and its west, east, south and north neighbours. */
  datatype Cross = Cross(c: real, w: real, e: real, s: real, nn: real)

  function AddCross(x: Cross, y: Cross): Cross {
    Cross(x.c + y.c, x.w + y.w, x.e + y.e, x.s + y.s, x.nn + y.nn)
  }

  function CrossAt(f: Field, n: nat, m: nat, i: int, j: int): Cross
    requires IsShape(f, n, m) && Interior(i, j, n, m)
  {
    Cross(f[i][j], f[i - 1][j], f[i + 1][j], f[i][j - 1], f[i][j + 1])
  }

  function LaplacianOf(x: Cross, dx: real, dy: real): real
    requires dx != 0.0 && dy != 0.0
  {
    SecondDiff(x.e, x.c, x.w, dx) + SecondDiff(x.nn, x.c, x.s, dy)
  }

  /** The five-point Laplacian at the point (i, j) of `f`. */
  function Laplacian(f: Field, n: nat, m: nat, dx: real, dy: real, i: int, j: int): real
    requires IsShape(f, n, m) && Interior(i, j, n, m) && dx != 0.0 && dy != 0.0
  {
    LaplacianOf(CrossAt(f, n, m, i, j), dx, dy)
  }

  /** `diffusion(grid, ivar, alpha)`: entry (i, j) belongs to the point (i + 1, j + 1) of `f`. */
  function Diffusion(f: Field, alpha: real, dx: real, dy: real, n: nat, m: nat): (r: Field)
    requires n >= 2 && m >= 2 && IsShape(f, n, m) && dx != 0.0 && dy != 0.0
    ensures IsShape(r, n - 2, m - 2)
  {
    seq(n - 2, i requires 0 <= i < n - 2 => seq(m - 2, j requires 0 <= j < m - 2 =>
      alpha * Laplacian(f, n, m, dx, dy, i + 1, j + 1)))
  }

  /** The second difference of an affine sequence of values vanishes. */
  lemma SecondDiffAffine(c0: real, c: real, k: int, d: real)
    requires d != 0.0
    ensures SecondDiff(c0 + c * (k + 1) as real, c0 + c * k as real, c0 + c * (k - 1) as real, d) == 0.0
  {
    assert c * (k + 1) as real == c * k as real + c;
    assert c * (k - 1) as real == c * k as real - c;
    assert (c0 + c * (k + 1) as real) - 2.0 * (c0 + c * k as real) + (c0 + c * (k - 1) as real) == 0.0;
  }

  /** The diffusion term is zero on a field affine in the indices (so in particular on a constant field). */
  lemma DiffusionOfAffine(f: Field, alpha: real, dx: real, dy: real, n: nat, m: nat, c0: real, cx: real, cy: real)
    requires n >= 2 && m >= 2 && IsShape(f, n, m) && dx != 0.0 && dy != 0.0
    requires Affine(f, n, m, c0, cx, cy)
    ensures Diffusion(f, alpha, dx, dy, n, m) == Const(n - 2, m - 2, 0.0)
  {
    var r := Diffusion(f, alpha, dx, dy, n, m);
    forall i, j | 0 <= i < n - 2 && 0 <= j < m - 2 ensures r[i][j] == 0.0 {
      var p, q := i + 1, j + 1;
      SecondDiffAffine(c0 + cy * q as real, cx, p, dx);
      SecondDiffAffine(c0 + cx * p as real, cy, q, dy);
      assert f[p + 1][q] == (c0 + cy * q as real) + cx * (p + 1) as real;
      assert f[p][q] == (c0 + cy * q as real) + cx * p as real;
      assert f[p - 1][q] == (c0 + cy * q as real) + cx * (p - 1) as real;
      assert f[p][q + 1] == (c0 + cx * p as real) + cy * (q + 1) as real;
      assert f[p][q] == (c0 + cx * p as real) + cy * q as real;
      assert f[p][q - 1] == (c0 + cx * p as real) + cy * (q - 1) as real;
      assert Laplacian(f, n, m, dx, dy, p, q) == 0.0;
    }
    FieldExt(r, Const(n - 2, m - 2, 0.0), n - 2, m - 2);
  }

  /** The Laplacian of a sum of stencils is the sum of their Laplacians. */
  lemma LaplacianAdditive(x: Cross, y: Cross, dx: real, dy: real)
    requires dx != 0.0 && dy != 0.0
    ensures LaplacianOf(AddCross(x, y), dx, dy) == LaplacianOf(x, dx, dy) + LaplacianOf(y, dx, dy)
  {
    var z := AddCross(x, y);
    DivAdd(x.e - 2.0 * x.c + x.w, y.e - 2.0 * y.c + y.w, dx);
    DivAdd((x.e - 2.0 * x.c + x.w) / dx, (y.e - 2.0 * y.c + y.w) / dx, dx);
    DivAdd(x.nn - 2.0 * x.c + x.s, y.nn - 2.0 * y.c + y.s, dy);
    DivAdd((x.nn - 2.0 * x.c + x.s) / dy, (y.nn - 2.0 * y.c + y.s) / dy, dy);
    assert z.e - 2.0 * z.c + z.w == (x.e - 2.0 * x.c + x.w) + (y.e - 2.0 * y.c + y.w);
    assert z.nn - 2.0 * z.c + z.s == (x.nn - 2.0 * x.c + x.s) + (y.nn - 2.0 * y.c + y.s);
  }

  /** `a * (x + y) == a * x + a * y`, with the sum named. */
  lemma MulAdd(a: real, x: real, y: real, z: real)
    requires z == x + y
    ensures a * z == a * x + a * y
  {
  }

  /** One entry of the diffusion term of `f + g`. */
  lemma DiffusionAdditiveAt(f: Field, g: Field, h: Field, alpha: real, dx: real, dy: real, n: nat, m: nat, i: int, j: int)
    requires n >= 2 && m >= 2 && IsShape(f, n, m) && IsShape(g, n, m) && h == Add(f, g, n, m) && dx != 0.0 && dy != 0.0
    requires 0 <= i < n - 2 && 0 <= j < m - 2
    ensures Diffusion(h, alpha, dx, dy, n, m)[i][j] == Diffusion(f, alpha, dx, dy, n, m)[i][j] + Diffusion(g, alpha, dx, dy, n, m)[i][j]
  {
    var x, y := CrossAt(f, n, m, i + 1, j + 1), CrossAt(g, n, m, i + 1, j + 1);
    assert CrossAt(h, n, m, i + 1, j + 1) == AddCross(x, y);
    LaplacianAdditive(x, y, dx, dy);
    MulAdd(alpha, LaplacianOf(x, dx, dy), LaplacianOf(y, dx, dy), LaplacianOf(AddCross(x, y), dx, dy));
  }

  /** The diffusion term is additive in the field. */
  lemma DiffusionAdditive(f: Field, g: Field, alpha: real, dx: real, dy: real, n: nat, m: nat)
    requires n >= 2 && m >= 2 && IsShape(f, n, m) && IsShape(g, n, m) && dx != 0.0 && dy != 0.0
    ensures Diffusion(Add(f, g, n, m), alpha, dx, dy, n, m)
         == Add(Diffusion(f, alpha, dx, dy, n, m), Diffusion(g, alpha, dx, dy, n, m), n - 2, m - 2)
  {
    var h := Add(f, g, n, m);
    var l := Diffusion(h, alpha, dx, dy, n, m);
    var r := Add(Diffusion(f, alpha, dx, dy, n, m), Diffusion(g, alpha, dx, dy, n, m), n - 2, m - 2);
    forall i, j | 0 <= i < n - 2 && 0 <= j < m - 2 ensures l[i][j] == r[i][j] {
      DiffusionAdditiveAt(f, g, h, alpha, dx, dy, n, m, i, j);
    }
    FieldExt(l, r, n - 2, m - 2);
  }

  /** The diffusion term is additive in the diffusion coefficient. */
  lemma DiffusionAdditiveInCoefficient(f: Field, alpha: real, beta: real, dx: real, dy: real, n: nat, m: nat)
    requires n >= 2 && m >= 2 && IsShape(f, n, m) && dx != 0.0 && dy != 0.0
    ensures Diffusion(f, alpha + beta, dx, dy, n, m)
         == Add(Diffusion(f, alpha, dx, dy, n, m), Diffusion(f, beta, dx, dy, n, m), n - 2, m - 2)
  {
    var l := Diffusion(f, alpha + beta, dx, dy, n, m);
    var r := Add(Diffusion(f, alpha, dx, dy, n, m), Diffusion(f, beta, dx, dy, n, m), n - 2, m - 2);
    forall i, j | 0 <= i < n - 2 && 0 <= j < m - 2 ensures l[i][j] == r[i][j] {
      var lf := Laplacian(f, n, m, dx, dy, i + 1, j + 1);
      assert (alpha + beta) * lf == alpha * lf + beta * lf;
    }
    FieldExt(l, r, n - 2, m - 2);
  }

  /** Dividing `y = a x` twice by `d` is `a` times `x` divided twice. */
  lemma DivTwiceScale(a: real, x: real, y: real, d: real)
    requires d != 0.0 && y == a * x
    ensures y / d / d == a * (x / d / d)
  {
    MulDivAssoc(a, x, d);
    MulDivAssoc(a, x / d, d);
  }

  /** Two second differences scale together: the shape `y1 / d1^2 + y2 / d2^2` of the Laplacian is homogeneous. */
  lemma SumScale(a: real, x1: real, x2: real, y1: real, y2: real, d1: real, d2: real)
    requires d1 != 0.0 && d2 != 0.0 && y1 == a * x1 && y2 == a * x2
    ensures y1 / d1 / d1 + y2 / d2 / d2 == a * (x1 / d1 / d1 + x2 / d2 / d2)
  {
    DivTwiceScale(a, x1, y1, d1);
    DivTwiceScale(a, x2, y2, d2);
  }

  /** `a y`, point by point of a stencil. */
  function ScaleCross(a: real, y: Cross): Cross {
    Cross(a * y.c, a * y.w, a * y.e, a * y.s, a * y.nn)
  }

  /** The Laplacian of a stencil, written out. */
  lemma LaplacianOfUnfold(x: Cross, dx: real, dy: real)
    requires dx != 0.0 && dy != 0.0
    ensures LaplacianOf(x, dx, dy) == (x.e - 2.0 * x.c + x.w) / dx / dx + (x.nn - 2.0 * x.c + x.s) / dy / dy
  {
  }

  /** The five-point Laplacian is homogeneous: `L(a y) = a L(y)`. */
  lemma LaplacianScale(a: real, y: Cross, dx: real, dy: real)
    requires dx != 0.0 && dy != 0.0
    ensures LaplacianOf(ScaleCross(a, y), dx, dy) == a * LaplacianOf(y, dx, dy)
  {
    var z := ScaleCross(a, y);
    LaplacianOfUnfold(z, dx, dy);
    LaplacianOfUnfold(y, dx, dy);
    SumScale(a, y.e - 2.0 * y.c + y.w, y.nn - 2.0 * y.c + y.s, z.e - 2.0 * z.c + z.w, z.nn - 2.0 * z.c + z.s, dx, dy);
  }

  /** The diffusion term is homogeneous in the field: `diffusion(c f) == c diffusion(f)`. */
  lemma DiffusionHomogeneous(f: Field, c: real, alpha: real, dx: real, dy: real, n: nat, m: nat)
    requires n >= 2 && m >= 2 && IsShape(f, n, m) && dx != 0.0 && dy != 0.0
    ensures Diffusion(Scale(f, c, n, m), alpha, dx, dy, n, m) == Scale(Diffusion(f, alpha, dx, dy, n, m), c, n - 2, m - 2)
  {
    var g := Scale(f, c, n, m);
    var l, r := Diffusion(g, alpha, dx, dy, n, m), Scale(Diffusion(f, alpha, dx, dy, n, m), c, n - 2, m - 2);
    forall i, j | 0 <= i < n - 2 && 0 <= j < m - 2 ensures l[i][j] == r[i][j] {
      DiffusionHomogeneousAt(f, c, alpha, dx, dy, n, m, i, j);
    }
    FieldExt(l, r, n - 2, m - 2);
  }

  /** One entry of `DiffusionHomogeneous`. */
  lemma DiffusionHomogeneousAt(f: Field, c: real, alpha: real, dx: real, dy: real, n: nat, m: nat, i: nat, j: nat)
    requires n >= 2 && m >= 2 && IsShape(f, n, m) && dx != 0.0 && dy != 0.0 && i < n - 2 && j < m - 2
    ensures Diffusion(Scale(f, c, n, m), alpha, dx, dy, n, m)[i][j] == c * Diffusion(f, alpha, dx, dy, n, m)[i][j]
  {
    var x, g := CrossAt(f, n, m, i + 1, j + 1), Scale(f, c, n, m);
    assert CrossAt(g, n, m, i + 1, j + 1) == ScaleCross(c, x);
    LaplacianScale(c, x, dx, dy);
    var lf, lg := Laplacian(f, n, m, dx, dy, i + 1, j + 1), Laplacian(g, n, m, dx, dy, i + 1, j + 1);
    assert Diffusion(f, alpha, dx, dy, n, m)[i][j] == alpha * lf && Diffusion(g, alpha, dx, dy, n, m)[i][j] == alpha * lg;
    MulEq(alpha, lg, c * LaplacianOf(x, dx, dy));
    MulEq(alpha, lf, LaplacianOf(x, dx, dy));
    MulEq(c, alpha * lf, alpha * LaplacianOf(x, dx, dy));
    MulComm(alpha, c, LaplacianOf(x, dx, dy));
  }

  /** `a (c l) == c (a l)`. */
  lemma MulComm(a: real, c: real, l: real)
    ensures a * (c * l) == c * (a * l)
  {
  }

  // ---------------------------------------------------------------------------
  // convective_facex / convective_facey

  /**
   * The nine velocities the convection term at one face reads: the
   * velocity component of the face (p) at the face and at its west, east,
   * south and north neighbours, and the other component at the four
   * corners around it (south-west, south-east, north-west, north-east).
   */
  datatype Stencil = Stencil(p: real, w: real, e: real, s: real, nn: real, sw: real, se: real, nw: real, ne: real)

  /** The convection term at one x-face: `-(d(uu)/dx + d(uv)/dy)` on the staggered stencil. */
  function ConvX(t: Stencil, dx: real, dy: real): real
    requires dx != 0.0 && dy != 0.0
  {
    -(((t.p + t.e) * (t.p + t.e) - (t.w + t.p) * (t.w + t.p)) / (4.0 * dx)
      + ((t.p + t.nn) * (t.nw + t.ne) - (t.s + t.p) * (t.sw + t.se)) / (4.0 * dy))
  }

  /** The convection term at one y-face: `-(d(uv)/dx + d(vv)/dy)` on the staggered stencil. */
  function ConvY(t: Stencil, dx: real, dy: real): real
    requires dx != 0.0 && dy != 0.0
  {
    -(((t.se + t.ne) * (t.p + t.e) - (t.sw + t.nw) * (t.w + t.p)) / (4.0 * dx)
      + ((t.p + t.nn) * (t.p + t.nn) - (t.s + t.p) * (t.s + t.p)) / (4.0 * dy))
  }

  /** The shapes of the face grids: x-velocities `n` by `m`, y-velocities `n + 1` by `m - 1`. */
  predicate FaceXShapes(u: Field, v: Field, n: nat, m: nat) {
    n >= 2 && m >= 2 && IsShape(u, n, m) && IsShape(v, n + 1, m - 1)
  }

  /** The shapes seen from the y-face grid: y-velocities `n` by `m`, x-velocities `n - 1` by `m + 1`. */
  predicate FaceYShapes(u: Field, v: Field, n: nat, m: nat) {
    n >= 2 && m >= 2 && IsShape(v, n, m) && IsShape(u, n - 1, m + 1)
  }

  /** The stencil of the x-face (i + 1, j + 1). */
  function StencilX(u: Field, v: Field, n: nat, m: nat, i: int, j: int): Stencil
    requires FaceXShapes(u, v, n, m) && 0 <= i < n - 2 && 0 <= j < m - 2
  {
    Stencil(u[i + 1][j + 1], u[i][j + 1], u[i + 2][j + 1], u[i + 1][j], u[i + 1][j + 2],
            v[i + 1][j], v[i + 2][j], v[i + 1][j + 1], v[i + 2][j + 1])
  }

  /** The stencil of the y-face (i + 1, j + 1). */
  function StencilY(u: Field, v: Field, n: nat, m: nat, i: int, j: int): Stencil
    requires FaceYShapes(u, v, n, m) && 0 <= i < n - 2 && 0 <= j < m - 2
  {
    Stencil(v[i + 1][j + 1], v[i][j + 1], v[i + 2][j + 1], v[i + 1][j], v[i + 1][j + 2],
            u[i][j + 1], u[i + 1][j + 1], u[i][j + 2], u[i + 1][j + 2])
  }

  /** `convective_facex(gridx, gridy, ivar)`: entry (i, j) belongs to the x-face (i + 1, j + 1). */
  function ConvectiveFaceX(u: Field, v: Field, dx: real, dy: real, n: nat, m: nat): (r: Field)
    requires FaceXShapes(u, v, n, m) && dx != 0.0 && dy != 0.0
    ensures IsShape(r, n - 2, m - 2)
  {
    seq(n - 2, i requires 0 <= i < n - 2 => seq(m - 2, j requires 0 <= j < m - 2 =>
      ConvX(StencilX(u, v, n, m, i, j), dx, dy)))
  }

  /** `convective_facey(gridx, gridy, ivar)`: entry (i, j) belongs to the y-face (i + 1, j + 1). */
  function ConvectiveFaceY(u: Field, v: Field, dx: real, dy: real, n: nat, m: nat): (r: Field)
    requires FaceYShapes(u, v, n, m) && dx != 0.0 && dy != 0.0
    ensures IsShape(r, n - 2, m - 2)
  {
    seq(n - 2, i requires 0 <= i < n - 2 => seq(m - 2, j requires 0 <= j < m - 2 =>
      ConvY(StencilY(u, v, n, m, i, j), dx, dy)))
  }

  /** A stream with uniform velocities has no convective acceleration at a face. */
  lemma ConvUniform(a: real, b: real, dx: real, dy: real)
    requires dx != 0.0 && dy != 0.0
    ensures ConvX(Stencil(a, a, a, a, a, b, b, b, b), dx, dy) == 0.0
    ensures ConvY(Stencil(a, a, a, a, a, b, b, b, b), dx, dy) == 0.0
  {
    assert (a + a) * (a + a) - (a + a) * (a + a) == 0.0;
    assert (a + a) * (b + b) - (a + a) * (b + b) == 0.0;
    assert (b + b) * (a + a) - (b + b) * (a + a) == 0.0;
  }

  /** The x-face term of a uniform stream (u = a, v = b everywhere) is zero. */
  lemma ConvectiveFaceXUniform(a: real, b: real, dx: real, dy: real, n: nat, m: nat)
    requires n >= 2 && m >= 2 && dx != 0.0 && dy != 0.0
    ensures ConvectiveFaceX(Const(n, m, a), Const(n + 1, m - 1, b), dx, dy, n, m) == Const(n - 2, m - 2, 0.0)
  {
    var u, v := Const(n, m, a), Const(n + 1, m - 1, b);
    var l := ConvectiveFaceX(u, v, dx, dy, n, m);
    forall i, j | 0 <= i < n - 2 && 0 <= j < m - 2 ensures l[i][j] == 0.0 {
      assert StencilX(u, v, n, m, i, j) == Stencil(a, a, a, a, a, b, b, b, b);
      ConvUniform(a, b, dx, dy);
    }
    FieldExt(l, Const(n - 2, m - 2, 0.0), n - 2, m - 2);
  }

  /** The y-face term of a uniform stream is zero. */
  lemma ConvectiveFaceYUniform(a: real, b: real, dx: real, dy: real, n: nat, m: nat)
    requires n >= 2 && m >= 2 && dx != 0.0 && dy != 0.0
    ensures ConvectiveFaceY(Const(n - 1, m + 1, a), Const(n, m, b), dx, dy, n, m) == Const(n - 2, m - 2, 0.0)
  {
    var u, v := Const(n - 1, m + 1, a), Const(n, m, b);
    var l := ConvectiveFaceY(u, v, dx, dy, n, m);
    forall i, j | 0 <= i < n - 2 && 0 <= j < m - 2 ensures l[i][j] == 0.0 {
      assert StencilY(u, v, n, m, i, j) == Stencil(b, b, b, b, b, a, a, a, a);
      ConvUniform(b, a, dx, dy);
    }
    FieldExt(l, Const(n - 2, m - 2, 0.0), n - 2, m - 2);
  }

  /** `c t`, every velocity of a stencil scaled. */
  function ScaleStencil(c: real, t: Stencil): Stencil {
    Stencil(c * t.p, c * t.w, c * t.e, c * t.s, c * t.nn, c * t.sw, c * t.se, c * t.nw, c * t.ne)
  }

  /** `(c p) (c q) == c^2 (p q)`. */
  lemma MulScale(c: real, p: real, q: real, sp: real, sq: real)
    requires sp == c * p && sq == c * q
    ensures sp * sq == (c * c) * (p * q)
  {
  }

  /** `(k p1 - k p2) / d == k ((p1 - p2) / d)`. */
  lemma DiffScale(k: real, p1: real, p2: real, q1: real, q2: real, d: real)
    requires d != 0.0 && q1 == k * p1 && q2 == k * p2
    ensures (q1 - q2) / d == k * ((p1 - p2) / d)
  {
    assert q1 - q2 == k * (p1 - p2);
    MulDivAssoc(k, p1 - p2, d);
  }

  /** `((a + b) (x + y) - (a2 + b2) (x2 + y2)) / d`, the shape of every difference in the convection terms. */
  function ProductDiff(a: real, b: real, x: real, y: real, a2: real, b2: real, x2: real, y2: real, d: real): real
    requires d != 0.0
  {
    ((a + b) * (x + y) - (a2 + b2) * (x2 + y2)) / d
  }

  /** A difference of two products of sums over `d`, with every velocity scaled by `c`, scales by `c^2`. */
  lemma FluxScale(c: real, a: real, b: real, x: real, y: real, a2: real, b2: real, x2: real, y2: real, d: real,
                  sa: real, sb: real, sx: real, sy: real, sa2: real, sb2: real, sx2: real, sy2: real)
    requires d != 0.0
    requires sa == c * a && sb == c * b && sx == c * x && sy == c * y
    requires sa2 == c * a2 && sb2 == c * b2 && sx2 == c * x2 && sy2 == c * y2
    ensures ProductDiff(sa, sb, sx, sy, sa2, sb2, sx2, sy2, d) == (c * c) * ProductDiff(a, b, x, y, a2, b2, x2, y2, d)
  {
    var p, q, p2, q2 := a + b, x + y, a2 + b2, x2 + y2;
    var sp, sq, sp2, sq2 := sa + sb, sx + sy, sa2 + sb2, sx2 + sy2;
    assert sp == c * p && sq == c * q && sp2 == c * p2 && sq2 == c * q2;
    MulScale(c, p, q, sp, sq);
    MulScale(c, p2, q2, sp2, sq2);
    DiffScale(c * c, p * q, p2 * q2, sp * sq, sp2 * sq2, d);
  }

  /** `-(k x1 + k x2) == k (-(x1 + x2))`. */
  lemma NegSumScale(k: real, x1: real, x2: real, y1: real, y2: real)
    requires y1 == k * x1 && y2 == k * x2
    ensures -(y1 + y2) == k * -(x1 + x2)
  {
  }

  /** The two differences the x-face convection term adds up: `d(uu)/dx` and `d(uv)/dy`. */
  function DuuDx(t: Stencil, dx: real): real
    requires dx != 0.0
  {
    ((t.p + t.e) * (t.p + t.e) - (t.w + t.p) * (t.w + t.p)) / (4.0 * dx)
  }

  function DuvDy(t: Stencil, dy: real): real
    requires dy != 0.0
  {
    ((t.p + t.nn) * (t.nw + t.ne) - (t.s + t.p) * (t.sw + t.se)) / (4.0 * dy)
  }

  /** Each difference scales by `c^2` when every velocity does. */
  lemma DuuDxScale(c: real, t: Stencil, dx: real)
    requires dx != 0.0
    ensures DuuDx(ScaleStencil(c, t), dx) == (c * c) * DuuDx(t, dx)
  {
    var s := ScaleStencil(c, t);
    FluxScale(c, t.p, t.e, t.p, t.e, t.w, t.p, t.w, t.p, 4.0 * dx, s.p, s.e, s.p, s.e, s.w, s.p, s.w, s.p);
    MulEq(c * c, ProductDiff(t.p, t.e, t.p, t.e, t.w, t.p, t.w, t.p, 4.0 * dx), DuuDx(t, dx));
  }

  lemma DuvDyScale(c: real, t: Stencil, dy: real)
    requires dy != 0.0
    ensures DuvDy(ScaleStencil(c, t), dy) == (c * c) * DuvDy(t, dy)
  {
    var s := ScaleStencil(c, t);
    FluxScale(c, t.p, t.nn, t.nw, t.ne, t.s, t.p, t.sw, t.se, 4.0 * dy, s.p, s.nn, s.nw, s.ne, s.s, s.p, s.sw, s.se);
    MulEq(c * c, ProductDiff(t.p, t.nn, t.nw, t.ne, t.s, t.p, t.sw, t.se, 4.0 * dy), DuvDy(t, dy));
  }



  /** The x-face term is quadratic in the velocities: scaling every velocity of a stencil by `c` scales it by `c^2`. */
  lemma ConvXScale(c: real, t: Stencil, dx: real, dy: real)
    requires dx != 0.0 && dy != 0.0
    ensures ConvX(ScaleStencil(c, t), dx, dy) == (c * c) * ConvX(t, dx, dy)
  {
    var s := ScaleStencil(c, t);
    assert ConvX(t, dx, dy) == -(DuuDx(t, dx) + DuvDy(t, dy)) && ConvX(s, dx, dy) == -(DuuDx(s, dx) + DuvDy(s, dy));
    DuuDxScale(c, t, dx);
    DuvDyScale(c, t, dy);
    NegSumScale(c * c, DuuDx(t, dx), DuvDy(t, dy), DuuDx(s, dx), DuvDy(s, dy));
  }

  /** The x-face term of the velocities scaled by `c` is `c^2` times the term. */
  lemma ConvectiveFaceXQuadratic(u: Field, v: Field, c: real, dx: real, dy: real, n: nat, m: nat)
    requires FaceXShapes(u, v, n, m) && dx != 0.0 && dy != 0.0
    ensures ConvectiveFaceX(Scale(u, c, n, m), Scale(v, c, n + 1, m - 1), dx, dy, n, m)
         == Scale(ConvectiveFaceX(u, v, dx, dy, n, m), c * c, n - 2, m - 2)
  {
    var su, sv := Scale(u, c, n, m), Scale(v, c, n + 1, m - 1);
    var l, r := ConvectiveFaceX(su, sv, dx, dy, n, m), Scale(ConvectiveFaceX(u, v, dx, dy, n, m), c * c, n - 2, m - 2);
    forall i, j | 0 <= i < n - 2 && 0 <= j < m - 2 ensures l[i][j] == r[i][j] {
      ConvectiveFaceXQuadraticAt(u, v, c, dx, dy, n, m, i, j);
    }
    FieldExt(l, r, n - 2, m - 2);
  }

  /** One entry of `ConvectiveFaceXQuadratic`. */
  lemma ConvectiveFaceXQuadraticAt(u: Field, v: Field, c: real, dx: real, dy: real, n: nat, m: nat, i: nat, j: nat)
    requires FaceXShapes(u, v, n, m) && dx != 0.0 && dy != 0.0 && i < n - 2 && j < m - 2
    ensures ConvectiveFaceX(Scale(u, c, n, m), Scale(v, c, n + 1, m - 1), dx, dy, n, m)[i][j]
         == (c * c) * ConvectiveFaceX(u, v, dx, dy, n, m)[i][j]
  {
    var t := StencilX(u, v, n, m, i, j);
    assert StencilX(Scale(u, c, n, m), Scale(v, c, n + 1, m - 1), n, m, i, j) == ScaleStencil(c, t);
    ConvXScale(c, t, dx, dy);
  }


  /** `f.T`. */
  function Transpose(f: Field, n: nat, m: nat): (g: Field)
    requires IsShape(f, n, m)
    ensures IsShape(g, m, n)
    ensures forall i, j :: 0 <= i < m && 0 <= j < n ==> g[i][j] == f[j][i]
  {
    seq(m, i requires 0 <= i < m => seq(n, j requires 0 <= j < n => f[j][i]))
  }

  /** The stencil seen with the axes exchanged: west/east become south/north, and two corners trade places. */
  function SwapAxes(t: Stencil): Stencil {
    Stencil(t.p, t.s, t.nn, t.w, t.e, t.sw, t.nw, t.se, t.ne)
  }

  lemma ConvYIsSwappedConvX(t: Stencil, dx: real, dy: real)
    requires dx != 0.0 && dy != 0.0
    ensures ConvY(t, dx, dy) == ConvX(SwapAxes(t), dy, dx)
  {
    assert (t.se + t.ne) * (t.p + t.e) == (t.p + t.e) * (t.se + t.ne);
    assert (t.sw + t.nw) * (t.w + t.p) == (t.w + t.p) * (t.sw + t.nw);
  }

  /**
   * The y-face operator is the x-face operator with the axes exchanged:
   * transpose both grids, swap their roles and the spacings, and transpose
   * the result back.
   */
  lemma ConvectiveFaceYIsTransposedX(u: Field, v: Field, dx: real, dy: real, n: nat, m: nat)
    requires FaceYShapes(u, v, n, m) && dx != 0.0 && dy != 0.0
    ensures ConvectiveFaceY(u, v, dx, dy, n, m)
         == Transpose(ConvectiveFaceX(Transpose(v, n, m), Transpose(u, n - 1, m + 1), dy, dx, m, n), m - 2, n - 2)
  {
    var tv, tu := Transpose(v, n, m), Transpose(u, n - 1, m + 1);
    var l, r := ConvectiveFaceY(u, v, dx, dy, n, m), Transpose(ConvectiveFaceX(tv, tu, dy, dx, m, n), m - 2, n - 2);
    forall i, j | 0 <= i < n - 2 && 0 <= j < m - 2 ensures l[i][j] == r[i][j] {
      assert StencilX(tv, tu, m, n, j, i) == SwapAxes(StencilY(u, v, n, m, i, j));
      ConvYIsSwappedConvX(StencilY(u, v, n, m, i, j), dx, dy);
    }
    FieldExt(l, r, n - 2, m - 2);
  }

  /** Transposing commutes with scaling. */
  lemma TransposeScale(f: Field, c: real, n: nat, m: nat)
    requires IsShape(f, n, m)
    ensures Transpose(Scale(f, c, n, m), n, m) == Scale(Transpose(f, n, m), c, m, n)
  {
    var sf, tf := Scale(f, c, n, m), Transpose(f, n, m);
    var l, r := Transpose(sf, n, m), Scale(tf, c, m, n);
    forall i, j | 0 <= i < m && 0 <= j < n ensures l[i][j] == r[i][j] {
      assert l[i][j] == sf[j][i] == c * f[j][i];
      assert r[i][j] == c * tf[i][j];
    }
    FieldExt(l, r, m, n);
  }

  /** The y-face term of the velocities scaled by `c` is `c^2` times the term. */
  lemma ConvectiveFaceYQuadratic(u: Field, v: Field, c: real, dx: real, dy: real, n: nat, m: nat)
    requires FaceYShapes(u, v, n, m) && dx != 0.0 && dy != 0.0
    ensures ConvectiveFaceY(Scale(u, c, n - 1, m + 1), Scale(v, c, n, m), dx, dy, n, m)
         == Scale(ConvectiveFaceY(u, v, dx, dy, n, m), c * c, n - 2, m - 2)
  {
    var su, sv := Scale(u, c, n - 1, m + 1), Scale(v, c, n, m);
    var tv, tu := Transpose(v, n, m), Transpose(u, n - 1, m + 1);
    var x := ConvectiveFaceX(tv, tu, dy, dx, m, n);
    ConvectiveFaceYIsTransposedX(su, sv, dx, dy, n, m);
    ConvectiveFaceYIsTransposedX(u, v, dx, dy, n, m);
    TransposeScale(v, c, n, m);
    TransposeScale(u, c, n - 1, m + 1);
    ConvectiveFaceXQuadratic(tv, tu, c, dy, dx, m, n);
    TransposeScale(x, c * c, m - 2, n - 2);
  }

  /** The diffusion term is likewise symmetric in the axes. */
  lemma DiffusionTransposed(f: Field, alpha: real, dx: real, dy: real, n: nat, m: nat)
    requires n >= 2 && m >= 2 && IsShape(f, n, m) && dx != 0.0 && dy != 0.0
    ensures Diffusion(Transpose(f, n, m), alpha, dy, dx, m, n) == Transpose(Diffusion(f, alpha, dx, dy, n, m), n - 2, m - 2)
  {
    var tf := Transpose(f, n, m);
    var l, r := Diffusion(tf, alpha, dy, dx, m, n), Transpose(Diffusion(f, alpha, dx, dy, n, m), n - 2, m - 2);
    forall i, j | 0 <= i < m - 2 && 0 <= j < n - 2 ensures l[i][j] == r[i][j] {
      assert Laplacian(tf, m, n, dy, dx, i + 1, j + 1) == Laplacian(f, n, m, dx, dy, j + 1, i + 1);
    }
    FieldExt(l, r, m - 2, n - 2);
  }
}
