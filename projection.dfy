/**
 * The fractional-step projection routines on the staggered grid: the
 * velocity predictors (explicit Euler and second-order Adams-Bashforth),
 * the cell-centre divergence and the velocity/pressure corrector.
 *
 * Shapes: the cell-centre grid (pressure, divergence, pressure increment)
 * is `n` by `m`, the x-face grid `n - 1` by `m`, the y-face grid `n` by
 * `m - 1`. As in the source, the convective terms and the pressure
 * gradients read `dx` of the x-face grid and `dy` of the y-face grid, each
 * diffusion term reads the spacings of its own face grid (`dx`, `xdy` on
 * the x-face grid, `ydx`, `dy` on the y-face grid), and the divergence
 * reads those of the cell-centre grid. The operators are the
 * ones of module Operators; each routine evaluates its right-hand sides in
 * full before the slice assignment writes them, as numpy does.
 */
module Projection {
  import opened Fields
  import opened Operators

  /** The face velocities of an `n` by `m` cell-centre grid. */
  predicate Faces(u: Field, v: Field, n: nat, m: nat) {
    n >= 1 && m >= 1 && IsShape(u, n - 1, m) && IsShape(v, n, m - 1)
  }

  /** The face velocities and a cell-centre field, on a grid with at least one interior cell per direction. */
  predicate Staggered(p: Field, u: Field, v: Field, n: nat, m: nat) {
    n >= 3 && m >= 3 && Faces(u, v, n, m) && IsShape(p, n, m)
  }

  // ---------------------------------------------------------------------------
  // The explicit terms of the momentum equation

  /**
   * `convective_facex(gridx, gridy, ivar) + diffusion(gridx, ivar, 1 / Re)`:
   * one entry per interior x-face. The convection reads `gridx.dx` (`dx`) and
   * `gridy.dy` (`dy`); the diffusion reads `gridx.dx` and `gridx.dy` (`xdy`).
   */
  function HX(u: Field, v: Field, re: real, dx: real, dy: real, xdy: real, n: nat, m: nat): (h: Field)
    requires n >= 3 && m >= 3 && Faces(u, v, n, m) && re != 0.0 && dx != 0.0 && dy != 0.0 && xdy != 0.0
    ensures IsShape(h, n - 3, m - 2)
  {
    Add(ConvectiveFaceX(u, v, dx, dy, n - 1, m), Diffusion(u, 1.0 / re, dx, xdy, n - 1, m), n - 3, m - 2)
  }

  /**
   * `convective_facey(gridx, gridy, ivar) + diffusion(gridy, ivar, 1 / Re)`:
   * one entry per interior y-face. The convection reads `gridx.dx` and
   * `gridy.dy`; the diffusion reads `gridy.dx` (`ydx`) and `gridy.dy`.
   */
  function HY(u: Field, v: Field, re: real, dx: real, dy: real, ydx: real, n: nat, m: nat): (h: Field)
    requires n >= 3 && m >= 3 && Faces(u, v, n, m) && re != 0.0 && dx != 0.0 && dy != 0.0 && ydx != 0.0
    ensures IsShape(h, n - 2, m - 3)
  {
    Add(ConvectiveFaceY(u, v, dx, dy, n, m - 1), Diffusion(v, 1.0 / re, ydx, dy, n, m - 1), n - 2, m - 3)
  }

  /** `f[1:-1, 1:-1] = g`: `g` has one entry per interior point of `f`. */
  function Embed(f: Field, g: Field, n: nat, m: nat): (h: Field)
    requires n >= 2 && m >= 2 && IsShape(f, n, m) && IsShape(g, n - 2, m - 2)
    ensures IsShape(h, n, m)
    ensures forall i, j :: 0 <= i < n && 0 <= j < m ==> h[i][j] == if Interior(i, j, n, m) then g[i - 1][j - 1] else f[i][j]
  {
    seq(n, i requires 0 <= i < n => seq(m, j requires 0 <= j < m =>
      if Interior(i, j, n, m) then g[i - 1][j - 1] else f[i][j]))
  }

  /** `1.5 * hnew - 0.5 * hold[1:-1, 1:-1]`: the Adams-Bashforth extrapolation of the explicit terms. */
  function AB2Term(hnew: Field, hold: Field, n: nat, m: nat): (h: Field)
    requires n >= 2 && m >= 2 && IsShape(hnew, n - 2, m - 2) && IsShape(hold, n, m)
    ensures IsShape(h, n - 2, m - 2)
  {
    seq(n - 2, i requires 0 <= i < n - 2 => seq(m - 2, j requires 0 <= j < m - 2 =>
      1.5 * hnew[i][j] - 0.5 * hold[i + 1][j + 1]))
  }

  // ---------------------------------------------------------------------------
  // Predictor

  /**
   * The predicted x-velocity: at an interior face, `u + ifac * h - ifac *
   * ipres * (p[2:-1, 1:-1] - p[1:-2, 1:-1]) / dx`; the ring is kept.
   */
  function PredictU(u: Field, h: Field, p: Field, ifac: real, ipres: bool, dx: real, n: nat, m: nat): (r: Field)
    requires n >= 3 && m >= 3 && IsShape(u, n - 1, m) && IsShape(p, n, m) && IsShape(h, n - 3, m - 2) && dx != 0.0
    ensures IsShape(r, n - 1, m)
  {
    seq(n - 1, a requires 0 <= a < n - 1 => seq(m, b requires 0 <= b < m =>
      if Interior(a, b, n - 1, m)
      then u[a][b] + ifac * h[a - 1][b - 1] - ifac * Ind(ipres) * (p[a + 1][b] - p[a][b]) / dx
      else u[a][b]))
  }

  /** The predicted y-velocity, with the pressure difference `(p[1:-1, 2:-1] - p[1:-1, 1:-2]) / dy`. */
  function PredictV(v: Field, h: Field, p: Field, ifac: real, ipres: bool, dy: real, n: nat, m: nat): (r: Field)
    requires n >= 3 && m >= 3 && IsShape(v, n, m - 1) && IsShape(p, n, m) && IsShape(h, n - 2, m - 3) && dy != 0.0
    ensures IsShape(r, n, m - 1)
  {
    seq(n, a requires 0 <= a < n => seq(m - 1, b requires 0 <= b < m - 1 =>
      if Interior(a, b, n, m - 1)
      then v[a][b] + ifac * h[a - 1][b - 1] - ifac * Ind(ipres) * (p[a][b + 1] - p[a][b]) / dy
      else v[a][b]))
  }

  /** The arrays a predictor reads and writes, distinct and of the staggered shapes. */
  predicate PredictorArrays(p: array2<real>, u: array2<real>, v: array2<real>, hx: array2<real>, hy: array2<real>) {
    p.Length0 >= 3 && p.Length1 >= 3
    && u.Length0 == p.Length0 - 1 && u.Length1 == p.Length1
    && v.Length0 == p.Length0 && v.Length1 == p.Length1 - 1
    && hx.Length0 == u.Length0 && hx.Length1 == u.Length1
    && hy.Length0 == v.Length0 && hy.Length1 == v.Length1
    && p != u && p != v && p != hx && p != hy
    && u != v && u != hx && u != hy && v != hx && v != hy && hx != hy
  }

  /** The x-velocity after an explicit Euler step. */
  function EulerU(u: Field, v: Field, p: Field, re: real, ifac: real, ipres: bool, dx: real, dy: real, xdy: real, n: nat, m: nat): (r: Field)
    requires Staggered(p, u, v, n, m) && re != 0.0 && dx != 0.0 && dy != 0.0 && xdy != 0.0
    ensures IsShape(r, n - 1, m)
  {
    PredictU(u, HX(u, v, re, dx, dy, xdy, n, m), p, ifac, ipres, dx, n, m)
  }

  /** The y-velocity after an explicit Euler step. */
  function EulerV(u: Field, v: Field, p: Field, re: real, ifac: real, ipres: bool, dx: real, dy: real, ydx: real, n: nat, m: nat): (r: Field)
    requires Staggered(p, u, v, n, m) && re != 0.0 && dx != 0.0 && dy != 0.0 && ydx != 0.0
    ensures IsShape(r, n, m - 1)
  {
    PredictV(v, HY(u, v, re, dx, dy, ydx, n, m), p, ifac, ipres, dy, n, m)
  }

  /** The x-velocity after an Adams-Bashforth step with the stored x-terms `hx`. */
  function AB2U(u: Field, v: Field, hx: Field, p: Field, re: real, ifac: real, ipres: bool, dx: real, dy: real, xdy: real, n: nat, m: nat): (r: Field)
    requires Staggered(p, u, v, n, m) && IsShape(hx, n - 1, m) && re != 0.0 && dx != 0.0 && dy != 0.0 && xdy != 0.0
    ensures IsShape(r, n - 1, m)
  {
    PredictU(u, AB2Term(HX(u, v, re, dx, dy, xdy, n, m), hx, n - 1, m), p, ifac, ipres, dx, n, m)
  }

  /** The y-velocity after an Adams-Bashforth step with the stored y-terms `hy`. */
  function AB2V(u: Field, v: Field, hy: Field, p: Field, re: real, ifac: real, ipres: bool, dx: real, dy: real, ydx: real, n: nat, m: nat): (r: Field)
    requires Staggered(p, u, v, n, m) && IsShape(hy, n, m - 1) && re != 0.0 && dx != 0.0 && dy != 0.0 && ydx != 0.0
    ensures IsShape(r, n, m - 1)
  {
    PredictV(v, AB2Term(HY(u, v, re, dx, dy, ydx, n, m), hy, n, m - 1), p, ifac, ipres, dy, n, m)
  }

  /** The `hvar` x-grid after a predictor step: its interior holds the new explicit terms. */
  function StoredHX(u: Field, v: Field, hx: Field, re: real, dx: real, dy: real, xdy: real, n: nat, m: nat): (r: Field)
    requires n >= 3 && m >= 3 && Faces(u, v, n, m) && IsShape(hx, n - 1, m) && re != 0.0 && dx != 0.0 && dy != 0.0 && xdy != 0.0
    ensures IsShape(r, n - 1, m)
  {
    Embed(hx, HX(u, v, re, dx, dy, xdy, n, m), n - 1, m)
  }

  /** The `hvar` y-grid after a predictor step. */
  function StoredHY(u: Field, v: Field, hy: Field, re: real, dx: real, dy: real, ydx: real, n: nat, m: nat): (r: Field)
    requires n >= 3 && m >= 3 && Faces(u, v, n, m) && IsShape(hy, n, m - 1) && re != 0.0 && dx != 0.0 && dy != 0.0 && ydx != 0.0
    ensures IsShape(r, n, m - 1)
  {
    Embed(hy, HY(u, v, re, dx, dy, ydx, n, m), n, m - 1)
  }

  /**
   * `predictor_euler`: the explicit terms are stored in the interior of the
   * `hvar` grids, then each velocity advances by `ifac` times its term minus
   * the pressure gradient switched on by `ipres`.
   */
  method PredictorEuler(p: array2<real>, u: array2<real>, v: array2<real>, hx: array2<real>, hy: array2<real>,
                        re: real, ifac: real, ipres: bool, dx: real, dy: real, xdy: real, ydx: real)
    requires PredictorArrays(p, u, v, hx, hy) && re != 0.0 && dx != 0.0 && dy != 0.0 && xdy != 0.0 && ydx != 0.0
    modifies u, v, hx, hy
    ensures Snapshot(hx) == StoredHX(old(Snapshot(u)), old(Snapshot(v)), old(Snapshot(hx)), re, dx, dy, xdy, p.Length0, p.Length1)
    ensures Snapshot(hy) == StoredHY(old(Snapshot(u)), old(Snapshot(v)), old(Snapshot(hy)), re, dx, dy, ydx, p.Length0, p.Length1)
    ensures Snapshot(u) == EulerU(old(Snapshot(u)), old(Snapshot(v)), old(Snapshot(p)), re, ifac, ipres, dx, dy, xdy, p.Length0, p.Length1)
    ensures Snapshot(v) == EulerV(old(Snapshot(u)), old(Snapshot(v)), old(Snapshot(p)), re, ifac, ipres, dx, dy, ydx, p.Length0, p.Length1)
  {
    var n, m := p.Length0, p.Length1;
    var pf, uf, vf, hxf, hyf := Snapshot(p), Snapshot(u), Snapshot(v), Snapshot(hx), Snapshot(hy);
    var un, vn := EulerU(uf, vf, pf, re, ifac, ipres, dx, dy, xdy, n, m), EulerV(uf, vf, pf, re, ifac, ipres, dx, dy, ydx, n, m);
    var hxs, hys := StoredHX(uf, vf, hxf, re, dx, dy, xdy, n, m), StoredHY(uf, vf, hyf, re, dx, dy, ydx, n, m);
    Store(hx, hxs);
    Store(hy, hys);
    Store(u, un);
    Store(v, vn);
  }

  /**
   * `predictor_ab2`: the velocities advance with the Adams-Bashforth
   * combination of the new explicit terms and the ones stored in the `hvar`
   * grids, whose interiors then receive the new terms.
   */
  method PredictorAB2(p: array2<real>, u: array2<real>, v: array2<real>, hx: array2<real>, hy: array2<real>,
                      re: real, ifac: real, ipres: bool, dx: real, dy: real, xdy: real, ydx: real)
    requires PredictorArrays(p, u, v, hx, hy) && re != 0.0 && dx != 0.0 && dy != 0.0 && xdy != 0.0 && ydx != 0.0
    modifies u, v, hx, hy
    ensures Snapshot(hx) == StoredHX(old(Snapshot(u)), old(Snapshot(v)), old(Snapshot(hx)), re, dx, dy, xdy, p.Length0, p.Length1)
    ensures Snapshot(hy) == StoredHY(old(Snapshot(u)), old(Snapshot(v)), old(Snapshot(hy)), re, dx, dy, ydx, p.Length0, p.Length1)
    ensures Snapshot(u) == AB2U(old(Snapshot(u)), old(Snapshot(v)), old(Snapshot(hx)), old(Snapshot(p)), re, ifac, ipres, dx, dy, xdy, p.Length0, p.Length1)
    ensures Snapshot(v) == AB2V(old(Snapshot(u)), old(Snapshot(v)), old(Snapshot(hy)), old(Snapshot(p)), re, ifac, ipres, dx, dy, ydx, p.Length0, p.Length1)
  {
    var n, m := p.Length0, p.Length1;
    var pf, uf, vf, hxf, hyf := Snapshot(p), Snapshot(u), Snapshot(v), Snapshot(hx), Snapshot(hy);
    var un, vn := AB2U(uf, vf, hxf, pf, re, ifac, ipres, dx, dy, xdy, n, m), AB2V(uf, vf, hyf, pf, re, ifac, ipres, dx, dy, ydx, n, m);
    var hxs, hys := StoredHX(uf, vf, hxf, re, dx, dy, xdy, n, m), StoredHY(uf, vf, hyf, re, dx, dy, ydx, n, m);
    Store(hx, hxs);
    Store(hy, hys);
    Store(u, un);
    Store(v, vn);
  }

  // ---------------------------------------------------------------------------
  // Divergence

  /** The x-part of the net outflow of cell (a, b): `(u[a] - u[a - 1]) / dx`. */
  function FluxX(u: Field, dx: real, n: nat, m: nat, a: int, b: int): real
    requires n >= 1 && IsShape(u, n - 1, m) && Interior(a, b, n, m) && dx != 0.0
  {
    (u[a][b] - u[a - 1][b]) / dx
  }

  /** The y-part of the net outflow of cell (a, b): `(v[b] - v[b - 1]) / dy`. */
  function FluxY(v: Field, dy: real, n: nat, m: nat, a: int, b: int): real
    requires m >= 1 && IsShape(v, n, m - 1) && Interior(a, b, n, m) && dy != 0.0
  {
    (v[a][b] - v[a][b - 1]) / dy
  }

  /** The net outflow of cell (a, b) per unit area. */
  function DivAt(u: Field, v: Field, dx: real, dy: real, n: nat, m: nat, a: int, b: int): real
    requires Faces(u, v, n, m) && Interior(a, b, n, m) && dx != 0.0 && dy != 0.0
  {
    FluxX(u, dx, n, m, a, b) + FluxY(v, dy, n, m, a, b)
  }

  /** `div[1:-1, 1:-1] = (...) / ifac`; the ring of `div` is kept. */
  function Divergence(u: Field, v: Field, div: Field, ifac: real, dx: real, dy: real, n: nat, m: nat): (r: Field)
    requires Faces(u, v, n, m) && IsShape(div, n, m) && ifac != 0.0 && dx != 0.0 && dy != 0.0
    ensures IsShape(r, n, m)
  {
    seq(n, a requires 0 <= a < n => seq(m, b requires 0 <= b < m =>
      if Interior(a, b, n, m) then DivAt(u, v, dx, dy, n, m, a, b) / ifac else div[a][b]))
  }

  /** `divergence(gridc, gridx, gridy, ivar, dvar, ifac)`. */
  method DivergenceInPlace(u: array2<real>, v: array2<real>, div: array2<real>, ifac: real, dx: real, dy: real)
    requires div.Length0 >= 1 && div.Length1 >= 1
    requires u.Length0 == div.Length0 - 1 && u.Length1 == div.Length1
    requires v.Length0 == div.Length0 && v.Length1 == div.Length1 - 1
    requires div != u && div != v
    requires ifac != 0.0 && dx != 0.0 && dy != 0.0
    modifies div
    ensures Snapshot(div) == Divergence(old(Snapshot(u)), old(Snapshot(v)), old(Snapshot(div)), ifac, dx, dy, div.Length0, div.Length1)
  {
    var uf := Snapshot(u);
    var vf := Snapshot(v);
    var df := Snapshot(div);
    Store(div, Divergence(uf, vf, df, ifac, dx, dy, div.Length0, div.Length1));
  }

  // ---------------------------------------------------------------------------
  // Corrector

  /** `u - ifac * (dp[1:, :] - dp[:-1, :]) / dx`, over every x-face. */
  function CorrectU(u: Field, dp: Field, ifac: real, dx: real, n: nat, m: nat): (r: Field)
    requires n >= 1 && IsShape(u, n - 1, m) && IsShape(dp, n, m) && dx != 0.0
    ensures IsShape(r, n - 1, m)
  {
    seq(n - 1, a requires 0 <= a < n - 1 => seq(m, b requires 0 <= b < m =>
      u[a][b] - ifac * (dp[a + 1][b] - dp[a][b]) / dx))
  }

  /** `v - ifac * (dp[:, 1:] - dp[:, :-1]) / dy`, over every y-face. */
  function CorrectV(v: Field, dp: Field, ifac: real, dy: real, n: nat, m: nat): (r: Field)
    requires m >= 1 && IsShape(v, n, m - 1) && IsShape(dp, n, m) && dy != 0.0
    ensures IsShape(r, n, m - 1)
  {
    seq(n, a requires 0 <= a < n => seq(m - 1, b requires 0 <= b < m - 1 =>
      v[a][b] - ifac * (dp[a][b + 1] - dp[a][b]) / dy))
  }

  /** `ipres * p + dp`: the increment is accumulated, or replaces the pressure. */
  function CorrectP(p: Field, dp: Field, ipres: bool, n: nat, m: nat): (r: Field)
    requires IsShape(p, n, m) && IsShape(dp, n, m)
    ensures IsShape(r, n, m)
  {
    seq(n, a requires 0 <= a < n => seq(m, b requires 0 <= b < m => Ind(ipres) * p[a][b] + dp[a][b]))
  }

  /** `corrector(gridc, gridx, gridy, ivar, pvar, delp, ifac, ipres)`. */
  method Corrector(u: array2<real>, v: array2<real>, p: array2<real>, dp: array2<real>,
                   ifac: real, ipres: bool, dx: real, dy: real)
    requires p.Length0 >= 1 && p.Length1 >= 1
    requires u.Length0 == p.Length0 - 1 && u.Length1 == p.Length1
    requires v.Length0 == p.Length0 && v.Length1 == p.Length1 - 1
    requires dp.Length0 == p.Length0 && dp.Length1 == p.Length1
    requires u != v && u != p && u != dp && v != p && v != dp && p != dp
    requires dx != 0.0 && dy != 0.0
    modifies u, v, p
    ensures Snapshot(u) == CorrectU(old(Snapshot(u)), old(Snapshot(dp)), ifac, dx, p.Length0, p.Length1)
    ensures Snapshot(v) == CorrectV(old(Snapshot(v)), old(Snapshot(dp)), ifac, dy, p.Length0, p.Length1)
    ensures Snapshot(p) == CorrectP(old(Snapshot(p)), old(Snapshot(dp)), ipres, p.Length0, p.Length1)
  {
    var n, m := p.Length0, p.Length1;
    var uf := Snapshot(u);
    var vf := Snapshot(v);
    var pf := Snapshot(p);
    var df := Snapshot(dp);
    Store(u, CorrectU(uf, df, ifac, dx, n, m));
    Store(v, CorrectV(vf, df, ifac, dy, n, m));
    Store(p, CorrectP(pf, df, ipres, n, m));
  }

  // ---------------------------------------------------------------------------
  // The projection property

  /** `k * x / d == k * (x / d)`. */
  lemma MulDiv(k: real, x: real, d: real)
    requires d != 0.0
    ensures k * x / d == k * (x / d)
  {
    assert x == (x / d) * d;
    assert k * x == (k * (x / d)) * d;
  }

  /** A backward difference of `x - k * y` is that of `x` minus `k` times that of `y` (named `s`). */
  lemma BackDiffLinear(x1: real, x0: real, y1: real, y0: real, k: real, d: real, z1: real, z0: real, s: real)
    requires d != 0.0 && z1 == x1 - k * y1 && z0 == x0 - k * y0 && s == (y1 - y0) / d
    ensures (z1 - z0) / d == (x1 - x0) / d - k * s
  {
    var a, b := (x1 - x0) / d, (y1 - y0) / d;
    assert x1 - x0 == a * d && y1 - y0 == b * d;
    assert z1 - z0 == (a - k * b) * d;
  }

  /** The second difference is the difference of two first differences. */
  lemma SecondDiffNested(e: real, c: real, w: real, d: real)
    requires d != 0.0
    ensures SecondDiff(e, c, w, d) == ((e - c) / d - (c - w) / d) / d
  {
    var a, b := (e - c) / d, (c - w) / d;
    assert e - c == a * d && c - w == b * d;
    assert e - 2.0 * c + w == (a - b) * d;
    assert (e - 2.0 * c + w) / d == a - b;
  }

  /** Correcting two neighbouring faces by the gradient of `dp` changes their difference by the second difference of `dp`. */
  lemma CorrectedDifference(hi: real, lo: real, e: real, c: real, w: real, k: real, d: real, hi2: real, lo2: real)
    requires d != 0.0
    requires hi2 == hi - k * (e - c) / d && lo2 == lo - k * (c - w) / d
    ensures (hi2 - lo2) / d == (hi - lo) / d - k * SecondDiff(e, c, w, d)
  {
    MulDiv(k, e - c, d);
    MulDiv(k, c - w, d);
    SecondDiffNested(e, c, w, d);
    BackDiffLinear(hi, lo, (e - c) / d, (c - w) / d, k, d, hi2, lo2, SecondDiff(e, c, w, d));
  }

  /** The second difference of `dp` along x at cell (a, b). */
  function SecondDiffX(dp: Field, dx: real, n: nat, m: nat, a: int, b: int): real
    requires IsShape(dp, n, m) && Interior(a, b, n, m) && dx != 0.0
  {
    SecondDiff(dp[a + 1][b], dp[a][b], dp[a - 1][b], dx)
  }

  /** The second difference of `dp` along y at cell (a, b). */
  function SecondDiffY(dp: Field, dy: real, n: nat, m: nat, a: int, b: int): real
    requires IsShape(dp, n, m) && Interior(a, b, n, m) && dy != 0.0
  {
    SecondDiff(dp[a][b + 1], dp[a][b], dp[a][b - 1], dy)
  }

  /** Along x: the outflow of a cell through its corrected x-faces. */
  lemma CorrectedDifferenceX(u: Field, dp: Field, ifac: real, dx: real, n: nat, m: nat, a: int, b: int)
    requires n >= 1 && IsShape(u, n - 1, m) && IsShape(dp, n, m) && dx != 0.0 && Interior(a, b, n, m)
    ensures FluxX(CorrectU(u, dp, ifac, dx, n, m), dx, n, m, a, b) == FluxX(u, dx, n, m, a, b) - ifac * SecondDiffX(dp, dx, n, m, a, b)
  {
    var u2 := CorrectU(u, dp, ifac, dx, n, m);
    CorrectedDifference(u[a][b], u[a - 1][b], dp[a + 1][b], dp[a][b], dp[a - 1][b], ifac, dx, u2[a][b], u2[a - 1][b]);
  }

  /** Along y: the outflow of a cell through its corrected y-faces. */
  lemma CorrectedDifferenceY(v: Field, dp: Field, ifac: real, dy: real, n: nat, m: nat, a: int, b: int)
    requires m >= 1 && IsShape(v, n, m - 1) && IsShape(dp, n, m) && dy != 0.0 && Interior(a, b, n, m)
    ensures FluxY(CorrectV(v, dp, ifac, dy, n, m), dy, n, m, a, b) == FluxY(v, dy, n, m, a, b) - ifac * SecondDiffY(dp, dy, n, m, a, b)
  {
    var v2 := CorrectV(v, dp, ifac, dy, n, m);
    CorrectedDifference(v[a][b], v[a][b - 1], dp[a][b + 1], dp[a][b], dp[a][b - 1], ifac, dy, v2[a][b], v2[a][b - 1]);
  }

  /** The Laplacian splits into its two second differences, each scaled by `k`. */
  lemma LaplacianSplit(dp: Field, k: real, dx: real, dy: real, n: nat, m: nat, a: int, b: int)
    requires IsShape(dp, n, m) && Interior(a, b, n, m) && dx != 0.0 && dy != 0.0
    ensures k * Laplacian(dp, n, m, dx, dy, a, b) == k * SecondDiffX(dp, dx, n, m, a, b) + k * SecondDiffY(dp, dy, n, m, a, b)
  {
    MulAdd(k, SecondDiffX(dp, dx, n, m, a, b), SecondDiffY(dp, dy, n, m, a, b), Laplacian(dp, n, m, dx, dy, a, b));
  }

  /** At a cell, the corrector lowers the divergence by `ifac` times the Laplacian of the pressure increment. */
  lemma CorrectorDivergenceAt(u: Field, v: Field, dp: Field, ifac: real, dx: real, dy: real, n: nat, m: nat, a: int, b: int)
    requires Faces(u, v, n, m) && IsShape(dp, n, m) && dx != 0.0 && dy != 0.0 && Interior(a, b, n, m)
    ensures DivAt(CorrectU(u, dp, ifac, dx, n, m), CorrectV(v, dp, ifac, dy, n, m), dx, dy, n, m, a, b)
         == DivAt(u, v, dx, dy, n, m, a, b) - ifac * Laplacian(dp, n, m, dx, dy, a, b)
  {
    CorrectedDifferenceX(u, dp, ifac, dx, n, m, a, b);
    CorrectedDifferenceY(v, dp, ifac, dy, n, m, a, b);
    LaplacianSplit(dp, ifac, dx, dy, n, m, a, b);
  }

  /** `d - k * (d / k) == 0`. */
  lemma CancelScale(d: real, k: real, l: real, r: real)
    requires k != 0.0 && l == d / k && r == d - k * l
    ensures r == 0.0
  {
  }

  /**
   * The projection: when the pressure increment solves the Poisson equation
   * whose right-hand side is the divergence of the predicted velocity over
   * `ifac`, the corrected velocity is divergence-free at every interior cell.
   */
  lemma ProjectionSolenoidal(u: Field, v: Field, div: Field, dp: Field, d2: Field, ifac: real, dx: real, dy: real, n: nat, m: nat)
    requires Faces(u, v, n, m) && IsShape(div, n, m) && IsShape(dp, n, m) && IsShape(d2, n, m)
    requires ifac != 0.0 && dx != 0.0 && dy != 0.0
    requires forall a, b :: Interior(a, b, n, m) ==>
      Laplacian(dp, n, m, dx, dy, a, b) == Divergence(u, v, div, ifac, dx, dy, n, m)[a][b]
    ensures forall a, b :: Interior(a, b, n, m) ==>
      Divergence(CorrectU(u, dp, ifac, dx, n, m), CorrectV(v, dp, ifac, dy, n, m), d2, 1.0, dx, dy, n, m)[a][b] == 0.0
  {
    var u2, v2 := CorrectU(u, dp, ifac, dx, n, m), CorrectV(v, dp, ifac, dy, n, m);
    forall a, b | Interior(a, b, n, m)
      ensures Divergence(u2, v2, d2, 1.0, dx, dy, n, m)[a][b] == 0.0
    {
      CorrectorDivergenceAt(u, v, dp, ifac, dx, dy, n, m, a, b);
      CancelScale(DivAt(u, v, dx, dy, n, m, a, b), ifac, Laplacian(dp, n, m, dx, dy, a, b), DivAt(u2, v2, dx, dy, n, m, a, b));
    }
  }

  // ---------------------------------------------------------------------------
  // Partner properties of the predictor, divergence and corrector

  /** A constant field is affine in the indices, with no slope. */
  lemma ConstAffine(n: nat, m: nat, c: real)
    ensures Affine(Const(n, m, c), n, m, c, 0.0, 0.0)
  {
  }

  /** A uniform stream (u = a, v = b) has no explicit convection or diffusion at any x-face. */
  lemma HXUniform(a: real, b: real, re: real, dx: real, dy: real, xdy: real, n: nat, m: nat)
    requires n >= 3 && m >= 3 && re != 0.0 && dx != 0.0 && dy != 0.0 && xdy != 0.0
    ensures HX(Const(n - 1, m, a), Const(n, m - 1, b), re, dx, dy, xdy, n, m) == Const(n - 3, m - 2, 0.0)
  {
    ConvectiveFaceXUniform(a, b, dx, dy, n - 1, m);
    ConstAffine(n - 1, m, a);
    DiffusionOfAffine(Const(n - 1, m, a), 1.0 / re, dx, xdy, n - 1, m, a, 0.0, 0.0);
    FieldExt(Add(Const(n - 3, m - 2, 0.0), Const(n - 3, m - 2, 0.0), n - 3, m - 2), Const(n - 3, m - 2, 0.0), n - 3, m - 2);
  }

  /** Nor at any y-face. */
  lemma HYUniform(a: real, b: real, re: real, dx: real, dy: real, ydx: real, n: nat, m: nat)
    requires n >= 3 && m >= 3 && re != 0.0 && dx != 0.0 && dy != 0.0 && ydx != 0.0
    ensures HY(Const(n - 1, m, a), Const(n, m - 1, b), re, dx, dy, ydx, n, m) == Const(n - 2, m - 3, 0.0)
  {
    ConvectiveFaceYUniform(a, b, dx, dy, n, m - 1);
    ConstAffine(n, m - 1, b);
    DiffusionOfAffine(Const(n, m - 1, b), 1.0 / re, ydx, dy, n, m - 1, b, 0.0, 0.0);
    FieldExt(Add(Const(n - 2, m - 3, 0.0), Const(n - 2, m - 3, 0.0), n - 2, m - 3), Const(n - 2, m - 3, 0.0), n - 2, m - 3);
  }

  /** With no explicit term and a uniform pressure the predictor leaves the x-velocity as it is. */
  lemma PredictUAtRest(u: Field, p: Field, c: real, ifac: real, ipres: bool, dx: real, n: nat, m: nat)
    requires n >= 3 && m >= 3 && IsShape(u, n - 1, m) && p == Const(n, m, c) && dx != 0.0
    ensures PredictU(u, Const(n - 3, m - 2, 0.0), p, ifac, ipres, dx, n, m) == u
  {
    var r := PredictU(u, Const(n - 3, m - 2, 0.0), p, ifac, ipres, dx, n, m);
    forall a, b | 0 <= a < n - 1 && 0 <= b < m ensures r[a][b] == u[a][b] {
      if Interior(a, b, n - 1, m) {
        assert p[a + 1][b] - p[a][b] == 0.0;
      }
    }
    FieldExt(r, u, n - 1, m);
  }

  /** The same for the y-velocity. */
  lemma PredictVAtRest(v: Field, p: Field, c: real, ifac: real, ipres: bool, dy: real, n: nat, m: nat)
    requires n >= 3 && m >= 3 && IsShape(v, n, m - 1) && p == Const(n, m, c) && dy != 0.0
    ensures PredictV(v, Const(n - 2, m - 3, 0.0), p, ifac, ipres, dy, n, m) == v
  {
    var r := PredictV(v, Const(n - 2, m - 3, 0.0), p, ifac, ipres, dy, n, m);
    forall a, b | 0 <= a < n && 0 <= b < m - 1 ensures r[a][b] == v[a][b] {
      if Interior(a, b, n, m - 1) {
        assert p[a][b + 1] - p[a][b] == 0.0;
      }
    }
    FieldExt(r, v, n, m - 1);
  }

  /**
   * A uniform stream under a uniform pressure is a steady state of the
   * explicit Euler predictor: both velocities come out unchanged and the
   * stored explicit terms are zero.
   */
  lemma EulerKeepsUniformStream(a: real, b: real, c: real, hx: Field, hy: Field,
                                re: real, ifac: real, ipres: bool, dx: real, dy: real, xdy: real, ydx: real, n: nat, m: nat)
    requires n >= 3 && m >= 3 && re != 0.0 && dx != 0.0 && dy != 0.0 && xdy != 0.0 && ydx != 0.0
    requires IsShape(hx, n - 1, m) && IsShape(hy, n, m - 1)
    ensures var u, v, p := Const(n - 1, m, a), Const(n, m - 1, b), Const(n, m, c);
      EulerU(u, v, p, re, ifac, ipres, dx, dy, xdy, n, m) == u && EulerV(u, v, p, re, ifac, ipres, dx, dy, ydx, n, m) == v
      && StoredHX(u, v, hx, re, dx, dy, xdy, n, m) == Embed(hx, Const(n - 3, m - 2, 0.0), n - 1, m)
      && StoredHY(u, v, hy, re, dx, dy, ydx, n, m) == Embed(hy, Const(n - 2, m - 3, 0.0), n, m - 1)
  {
    HXUniform(a, b, re, dx, dy, xdy, n, m);
    HYUniform(a, b, re, dx, dy, ydx, n, m);
    PredictUAtRest(Const(n - 1, m, a), Const(n, m, c), c, ifac, ipres, dx, n, m);
    PredictVAtRest(Const(n, m - 1, b), Const(n, m, c), c, ifac, ipres, dy, n, m);
  }

  /** The Adams-Bashforth extrapolation of a term equal to the stored one is that term. */
  lemma AB2OfSteadyTerm(h: Field, f: Field, n: nat, m: nat)
    requires n >= 2 && m >= 2 && IsShape(h, n - 2, m - 2) && IsShape(f, n, m)
    ensures AB2Term(h, Embed(f, h, n, m), n, m) == h
  {
    var r := AB2Term(h, Embed(f, h, n, m), n, m);
    forall i, j | 0 <= i < n - 2 && 0 <= j < m - 2 ensures r[i][j] == h[i][j] {
      assert Embed(f, h, n, m)[i + 1][j + 1] == h[i][j];
    }
    FieldExt(r, h, n - 2, m - 2);
  }

  /**
   * An Adams-Bashforth step whose stored terms are the ones the current
   * velocities produce (as after a step that left the velocities as they
   * were) is exactly the explicit Euler step.
   */
  lemma AB2WithCurrentTermsIsEuler(u: Field, v: Field, p: Field, hx: Field, hy: Field,
                                   re: real, ifac: real, ipres: bool, dx: real, dy: real, xdy: real, ydx: real, n: nat, m: nat)
    requires Staggered(p, u, v, n, m) && IsShape(hx, n - 1, m) && IsShape(hy, n, m - 1) && re != 0.0 && dx != 0.0 && dy != 0.0 && xdy != 0.0 && ydx != 0.0
    ensures AB2U(u, v, StoredHX(u, v, hx, re, dx, dy, xdy, n, m), p, re, ifac, ipres, dx, dy, xdy, n, m) == EulerU(u, v, p, re, ifac, ipres, dx, dy, xdy, n, m)
    ensures AB2V(u, v, StoredHY(u, v, hy, re, dx, dy, ydx, n, m), p, re, ifac, ipres, dx, dy, ydx, n, m) == EulerV(u, v, p, re, ifac, ipres, dx, dy, ydx, n, m)
  {
    AB2OfSteadyTerm(HX(u, v, re, dx, dy, xdy, n, m), hx, n - 1, m);
    AB2OfSteadyTerm(HY(u, v, re, dx, dy, ydx, n, m), hy, n, m - 1);
  }

  /**
   * A uniform stream is also a steady state of the Adams-Bashforth
   * predictor once the stored terms are those of the stream (zero in the
   * interior): velocities and stored terms both come out unchanged.
   */
  lemma AB2KeepsUniformStream(a: real, b: real, c: real, hx: Field, hy: Field,
                              re: real, ifac: real, ipres: bool, dx: real, dy: real, xdy: real, ydx: real, n: nat, m: nat)
    requires n >= 3 && m >= 3 && re != 0.0 && dx != 0.0 && dy != 0.0 && xdy != 0.0 && ydx != 0.0
    requires IsShape(hx, n - 1, m) && IsShape(hy, n, m - 1)
    requires hx == Embed(hx, Const(n - 3, m - 2, 0.0), n - 1, m) && hy == Embed(hy, Const(n - 2, m - 3, 0.0), n, m - 1)
    ensures var u, v, p := Const(n - 1, m, a), Const(n, m - 1, b), Const(n, m, c);
      AB2U(u, v, hx, p, re, ifac, ipres, dx, dy, xdy, n, m) == u && AB2V(u, v, hy, p, re, ifac, ipres, dx, dy, ydx, n, m) == v
      && StoredHX(u, v, hx, re, dx, dy, xdy, n, m) == hx && StoredHY(u, v, hy, re, dx, dy, ydx, n, m) == hy
  {
    HXUniform(a, b, re, dx, dy, xdy, n, m);
    HYUniform(a, b, re, dx, dy, ydx, n, m);
    AB2OfSteadyTerm(Const(n - 3, m - 2, 0.0), hx, n - 1, m);
    AB2OfSteadyTerm(Const(n - 2, m - 3, 0.0), hy, n, m - 1);
    PredictUAtRest(Const(n - 1, m, a), Const(n, m, c), c, ifac, ipres, dx, n, m);
    PredictVAtRest(Const(n, m - 1, b), Const(n, m, c), c, ifac, ipres, dy, n, m);
  }

  /** A uniform stream has no divergence at any interior cell. */
  lemma DivergenceOfUniform(a: real, b: real, div: Field, ifac: real, dx: real, dy: real, n: nat, m: nat)
    requires n >= 1 && m >= 1 && IsShape(div, n, m) && ifac != 0.0 && dx != 0.0 && dy != 0.0
    ensures forall i, j :: Interior(i, j, n, m) ==> Divergence(Const(n - 1, m, a), Const(n, m - 1, b), div, ifac, dx, dy, n, m)[i][j] == 0.0
  {
  }

  /** `k * x / d == k * y / d` when `x == y`. */
  lemma ScaledEqual(k: real, x: real, y: real, d: real)
    requires d != 0.0 && x == y
    ensures k * x / d == k * y / d
  {
  }

  /**
   * The corrector sees only the gradient of the pressure increment: adding
   * a constant to `dp` does not change the corrected x-velocity ...
   */
  lemma CorrectUGaugeInvariant(u: Field, dp: Field, c: real, ifac: real, dx: real, n: nat, m: nat)
    requires n >= 1 && IsShape(u, n - 1, m) && IsShape(dp, n, m) && dx != 0.0
    ensures CorrectU(u, Add(dp, Const(n, m, c), n, m), ifac, dx, n, m) == CorrectU(u, dp, ifac, dx, n, m)
  {
    var q := Add(dp, Const(n, m, c), n, m);
    var l, r := CorrectU(u, q, ifac, dx, n, m), CorrectU(u, dp, ifac, dx, n, m);
    forall a, b | 0 <= a < n - 1 && 0 <= b < m ensures l[a][b] == r[a][b] {
      ScaledEqual(ifac, q[a + 1][b] - q[a][b], dp[a + 1][b] - dp[a][b], dx);
    }
    FieldExt(l, r, n - 1, m);
  }

  /** ... nor the corrected y-velocity. */
  lemma CorrectVGaugeInvariant(v: Field, dp: Field, c: real, ifac: real, dy: real, n: nat, m: nat)
    requires m >= 1 && IsShape(v, n, m - 1) && IsShape(dp, n, m) && dy != 0.0
    ensures CorrectV(v, Add(dp, Const(n, m, c), n, m), ifac, dy, n, m) == CorrectV(v, dp, ifac, dy, n, m)
  {
    var q := Add(dp, Const(n, m, c), n, m);
    var l, r := CorrectV(v, q, ifac, dy, n, m), CorrectV(v, dp, ifac, dy, n, m);
    forall a, b | 0 <= a < n && 0 <= b < m - 1 ensures l[a][b] == r[a][b] {
      ScaledEqual(ifac, q[a][b + 1] - q[a][b], dp[a][b + 1] - dp[a][b], dy);
    }
    FieldExt(l, r, n, m - 1);
  }

  /** In particular a uniform increment leaves both velocities unchanged. */
  lemma CorrectorOfUniformIncrement(u: Field, v: Field, c: real, ifac: real, dx: real, dy: real, n: nat, m: nat)
    requires Faces(u, v, n, m) && dx != 0.0 && dy != 0.0
    ensures CorrectU(u, Const(n, m, c), ifac, dx, n, m) == u
    ensures CorrectV(v, Const(n, m, c), ifac, dy, n, m) == v
  {
    var l := CorrectU(u, Const(n, m, c), ifac, dx, n, m);
    forall a, b | 0 <= a < n - 1 && 0 <= b < m ensures l[a][b] == u[a][b] {
      ScaledEqual(ifac, c - c, 0.0, dx);
    }
    FieldExt(l, u, n - 1, m);
    var l2 := CorrectV(v, Const(n, m, c), ifac, dy, n, m);
    forall a, b | 0 <= a < n && 0 <= b < m - 1 ensures l2[a][b] == v[a][b] {
      ScaledEqual(ifac, c - c, 0.0, dy);
    }
    FieldExt(l2, v, n, m - 1);
  }

  /** With `pressure_correct` the increment is added to the pressure; without it, it becomes the pressure. */
  lemma CorrectPModes(p: Field, dp: Field, n: nat, m: nat)
    requires IsShape(p, n, m) && IsShape(dp, n, m)
    ensures CorrectP(p, dp, true, n, m) == Add(p, dp, n, m)
    ensures CorrectP(p, dp, false, n, m) == dp
  {
    var t, f := CorrectP(p, dp, true, n, m), CorrectP(p, dp, false, n, m);
    forall a, b | 0 <= a < n && 0 <= b < m ensures t[a][b] == p[a][b] + dp[a][b] && f[a][b] == dp[a][b] {
      assert Ind(true) == 1.0 && Ind(false) == 0.0;
    }
    FieldExt(t, Add(p, dp, n, m), n, m);
    FieldExt(f, dp, n, m);
  }
}
