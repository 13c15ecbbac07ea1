/**
 * The conjugate-gradient Poisson solver of one cell-centred grid block
 * (`solve_cg`).  The solution `p` and the right-hand side `b` are the views
 * `grid[ivar][0, 0, :, :]` and `grid[rvar][0, 0, :, :]`, indexed [y, x], so
 * the operator `A` differences axis 1 over dx^2 and axis 0 over dy^2.  The
 * residual `r` and the product `A(d)` have one entry per interior point:
 * entry (i, j) belongs to the point (i + 1, j + 1) of the block.
 *
 * numpy's float division is the parameter `quot`: it is real division
 * whenever the divisor is nonzero (`QuotLaw`); the infinities and NaNs a
 * zero divisor produces are not reals, so the model leaves them to `quot`.
 */
module PoissonCg {
  import opened Fields
  import opened Grid
  import opened Operators
  import PoissonSolvers

  /** What the model assumes of numpy's float division. */
  ghost predicate QuotLaw(quot: (real, real) -> real) {
    forall a, b :: b != 0.0 ==> quot(a, b) == a / b
  }

  // ---------------------------------------------------------------------------
  // Field arithmetic on the interior

  /** `f[1:-1, 1:-1]`. */
  function Slice(f: Field, n: nat, m: nat): (g: Field)
    requires n >= 2 && m >= 2 && IsShape(f, n, m)
    ensures IsShape(g, n - 2, m - 2)
  {
    seq(n - 2, i requires 0 <= i < n - 2 => seq(m - 2, j requires 0 <= j < m - 2 => f[i + 1][j + 1]))
  }

  /** `A(p)`: the five-point Laplacian of `p` at every interior point, dx^2 along axis 1 and dy^2 along axis 0. */
  function Apply(f: Field, n: nat, m: nat, dx: real, dy: real): (a: Field)
    requires n >= 2 && m >= 2 && IsShape(f, n, m) && dx != 0.0 && dy != 0.0
    ensures IsShape(a, n - 2, m - 2)
  {
    seq(n - 2, i requires 0 <= i < n - 2 => seq(m - 2, j requires 0 <= j < m - 2 => Laplacian(f, n, m, dy, dx, i + 1, j + 1)))
  }

  /**
   * `A` puts dx^2 on axis 1, the Laplacian of the projection on axis 0: the
   * two agree on every stencil exactly when dx^2 == dy^2.
   */
  lemma SwappedAxesAgree(dx: real, dy: real)
    requires dx != 0.0 && dy != 0.0
    ensures (forall x: Cross :: LaplacianOf(x, dy, dx) == LaplacianOf(x, dx, dy)) <==> dx * dx == dy * dy
  {
    if dx * dx == dy * dy {
      forall x: Cross ensures LaplacianOf(x, dy, dx) == LaplacianOf(x, dx, dy) {
        var p, q := x.e - 2.0 * x.c + x.w, x.nn - 2.0 * x.c + x.s;
        PoissonSolvers.DivTwice(p, dx);
        PoissonSolvers.DivTwice(p, dy);
        PoissonSolvers.DivTwice(q, dx);
        PoissonSolvers.DivTwice(q, dy);
      }
    } else {
      var x := Cross(0.0, 1.0, 1.0, 0.0, 0.0);
      PoissonSolvers.DivTwice(2.0, dx);
      PoissonSolvers.DivTwice(2.0, dy);
      assert LaplacianOf(x, dy, dx) == 2.0 / Sq(dy) && LaplacianOf(x, dx, dy) == 2.0 / Sq(dx);
    }
  }

  /** `f + c * g`, entry by entry. */
  function Axpy(f: Field, c: real, g: Field, n: nat, m: nat): (h: Field)
    requires IsShape(f, n, m) && IsShape(g, n, m)
    ensures IsShape(h, n, m)
  {
    seq(n, i requires 0 <= i < n => seq(m, j requires 0 <= j < m => f[i][j] + c * g[i][j]))
  }

  /** `f - c * g`, entry by entry. */
  function Axmy(f: Field, c: real, g: Field, n: nat, m: nat): (h: Field)
    requires IsShape(f, n, m) && IsShape(g, n, m)
    ensures IsShape(h, n, m)
  {
    seq(n, i requires 0 <= i < n => seq(m, j requires 0 <= j < m => f[i][j] - c * g[i][j]))
  }

  /** The products of the first `k` entries of row `i`, summed. */
  function RowProducts(f: Field, g: Field, n: nat, m: nat, i: nat, k: nat): real
    requires IsShape(f, n, m) && IsShape(g, n, m) && i < n && k <= m
  {
    if k == 0 then 0.0 else RowProducts(f, g, n, m, i, k - 1) + f[i][k - 1] * g[i][k - 1]
  }

  /** The products of the entries of the first `k` rows, summed. */
  function Products(f: Field, g: Field, n: nat, m: nat, k: nat): real
    requires IsShape(f, n, m) && IsShape(g, n, m) && k <= n
  {
    if k == 0 then 0.0 else Products(f, g, n, m, k - 1) + RowProducts(f, g, n, m, k - 1, m)
  }

  /** `numpy.sum(f * g)`. */
  function Inner(f: Field, g: Field, n: nat, m: nat): real
    requires IsShape(f, n, m) && IsShape(g, n, m)
  {
    Products(f, g, n, m, n)
  }

  // ---------------------------------------------------------------------------
  // The search direction's guard cells

  // `fill_guard_cells_neumann(d, bc_val, dx, dy)` of `solve_cg` uses the xlow
  // value `bc_val` of the solution variable on all four sides: column 0, then
  // column -1 (offset `cx = bc_val * dx`), then row 0, then row -1 (offset
  // `cy = bc_val * dy`), each read after the writes before it, so the rows
  // write the corners.  The four functions below give an entry after each
  // of the four assignments.

  function AfterColLow(d: Field, n: nat, m: nat, cx: real, i: int, j: int): real
    requires n >= 2 && m >= 2 && IsShape(d, n, m) && 0 <= i < n && 0 <= j < m
  {
    if j == 0 then cx + d[i][1] else d[i][j]
  }

  function AfterColHigh(d: Field, n: nat, m: nat, cx: real, i: int, j: int): real
    requires n >= 2 && m >= 2 && IsShape(d, n, m) && 0 <= i < n && 0 <= j < m
  {
    if j == m - 1 then cx + AfterColLow(d, n, m, cx, i, m - 2) else AfterColLow(d, n, m, cx, i, j)
  }

  function AfterRowLow(d: Field, n: nat, m: nat, cx: real, cy: real, i: int, j: int): real
    requires n >= 2 && m >= 2 && IsShape(d, n, m) && 0 <= i < n && 0 <= j < m
  {
    if i == 0 then cy + AfterColHigh(d, n, m, cx, 1, j) else AfterColHigh(d, n, m, cx, i, j)
  }

  function AfterRowHigh(d: Field, n: nat, m: nat, cx: real, cy: real, i: int, j: int): real
    requires n >= 2 && m >= 2 && IsShape(d, n, m) && 0 <= i < n && 0 <= j < m
  {
    if i == n - 1 then cy + AfterRowLow(d, n, m, cx, cy, n - 2, j) else AfterRowLow(d, n, m, cx, cy, i, j)
  }

  /** The search direction after `fill_guard_cells_neumann`. */
  function NeumannDirection(d: Field, n: nat, m: nat, bcv: real, dx: real, dy: real): (g: Field)
    requires n >= 2 && m >= 2 && IsShape(d, n, m)
    ensures IsShape(g, n, m)
  {
    seq(n, i requires 0 <= i < n => seq(m, j requires 0 <= j < m => AfterRowHigh(d, n, m, bcv * dx, bcv * dy, i, j)))
  }

  /** The four assignments are `Grid`'s Neumann side fills (offset rule), applied columns first. */
  lemma NeumannDirectionIsSideFills(d: Field, n: nat, m: nat, bcv: real, dx: real, dy: real)
    requires n >= 2 && m >= 2 && IsShape(d, n, m)
    ensures NeumannDirection(d, n, m, bcv, dx, dy) ==
      var c0 := FillSide(d, n, m, Side(false, true), Offset(bcv * dx));
      var c1 := FillSide(c0, n, m, Side(false, false), Offset(bcv * dx));
      var r0 := FillSide(c1, n, m, Side(true, true), Offset(bcv * dy));
      FillSide(r0, n, m, Side(true, false), Offset(bcv * dy))
  {
    var c0 := FillSide(d, n, m, Side(false, true), Offset(bcv * dx));
    var c1 := FillSide(c0, n, m, Side(false, false), Offset(bcv * dx));
    var r0 := FillSide(c1, n, m, Side(true, true), Offset(bcv * dy));
    var g := FillSide(r0, n, m, Side(true, false), Offset(bcv * dy));
    var h := NeumannDirection(d, n, m, bcv, dx, dy);
    forall i, j | 0 <= i < n && 0 <= j < m ensures c0[i][j] == AfterColLow(d, n, m, bcv * dx, i, j) { }
    forall i, j | 0 <= i < n && 0 <= j < m ensures c1[i][j] == AfterColHigh(d, n, m, bcv * dx, i, j) { }
    forall i, j | 0 <= i < n && 0 <= j < m ensures r0[i][j] == AfterRowLow(d, n, m, bcv * dx, bcv * dy, i, j) { }
    forall i, j | 0 <= i < n && 0 <= j < m ensures g[i][j] == h[i][j] { }
    FieldExt(g, h, n, m);
  }

  /** The direction after its update: its guard cells filled when the solution's xlow type is `'neumann'`, kept otherwise. */
  function Direction(neumann: bool, d: Field, n: nat, m: nat, bcv: real, dx: real, dy: real): (g: Field)
    requires n >= 2 && m >= 2 && IsShape(d, n, m)
    ensures IsShape(g, n, m)
  {
    if neumann then NeumannDirection(d, n, m, bcv, dx, dy) else d
  }

  /** The Neumann direction fill makes the guard line of every side equal to the line inside it plus the side's offset, and keeps the interior. */
  lemma NeumannDirectionSides(d: Field, n: nat, m: nat, bcv: real, dx: real, dy: real, i: int, j: int)
    requires n >= 3 && m >= 3 && IsShape(d, n, m) && 0 <= i < n && 0 <= j < m
    ensures var g := NeumannDirection(d, n, m, bcv, dx, dy);
      (i == 0 ==> g[0][j] == bcv * dy + g[1][j]) &&
      (i == n - 1 ==> g[n - 1][j] == bcv * dy + g[n - 2][j]) &&
      (0 < i < n - 1 && j == 0 ==> g[i][0] == bcv * dx + g[i][1]) &&
      (0 < i < n - 1 && j == m - 1 ==> g[i][m - 1] == bcv * dx + g[i][m - 2]) &&
      (0 < i < n - 1 && 0 < j < m - 1 ==> g[i][j] == d[i][j])
  {
  }

  // ---------------------------------------------------------------------------
  // The iteration as a state machine

  /** The arrays and the scalar the loop carries: solution, residual, search direction and `rk_norm`. */
  datatype CgState = CgState(p: Field, r: Field, d: Field, rk: real)

  predicate Shaped(s: CgState, n: nat, m: nat) {
    n >= 2 && m >= 2 && IsShape(s.p, n, m) && IsShape(s.r, n - 2, m - 2) && IsShape(s.d, n, m)
  }

  /** `d = zeros_like(p); d[1:-1, 1:-1] = r`. */
  function Seeded(r: Field, n: nat, m: nat): (d: Field)
    requires n >= 2 && m >= 2 && IsShape(r, n - 2, m - 2)
    ensures IsShape(d, n, m)
  {
    seq(n, i requires 0 <= i < n => seq(m, j requires 0 <= j < m =>
      if Interior(i, j, n, m) then r[i - 1][j - 1] else 0.0))
  }

  /** `d[1:-1, 1:-1] = r + beta * d[1:-1, 1:-1]`. */
  function Redirected(d: Field, r: Field, beta: real, n: nat, m: nat): (e: Field)
    requires n >= 2 && m >= 2 && IsShape(d, n, m) && IsShape(r, n - 2, m - 2)
    ensures IsShape(e, n, m)
  {
    seq(n, i requires 0 <= i < n => seq(m, j requires 0 <= j < m =>
      if Interior(i, j, n, m) then r[i - 1][j - 1] + beta * d[i][j] else d[i][j]))
  }

  /**
   * The state before the loop: `r = b[1:-1, 1:-1] - A(p)`, `rk_norm = sum(r * r)`,
   * and `d` zero with its interior set to `r` (then its guards filled under Neumann).
   */
  function CgStart(f: Field, bf: Field, n: nat, m: nat, dx: real, dy: real, neumann: bool, bcv: real): (s: CgState)
    requires n >= 2 && m >= 2 && IsShape(f, n, m) && IsShape(bf, n, m) && dx != 0.0 && dy != 0.0
    ensures Shaped(s, n, m) && s.p == f && s.rk >= 0.0
  {
    var r := PoissonSolvers.Sub(Slice(bf, n, m), Apply(f, n, m, dx, dy), n - 2, m - 2);
    CgState(f, r, Direction(neumann, Seeded(r, n, m), n, m, bcv, dx, dy),
            PoissonSolvers.SumSquares(r, n - 2, m - 2))
  }

  /** The step size `alpha = rk_norm / sum(d[1:-1, 1:-1] * A(d))`. */
  function Alpha(quot: (real, real) -> real, s: CgState, n: nat, m: nat, dx: real, dy: real): real
    requires Shaped(s, n, m) && dx != 0.0 && dy != 0.0
  {
    quot(s.rk, Inner(Slice(s.d, n, m), Apply(s.d, n, m, dx, dy), n - 2, m - 2))
  }

  /** `p[1:-1, 1:-1] += alpha * d[1:-1, 1:-1]`. */
  function Advanced(s: CgState, alpha: real, n: nat, m: nat): (p: Field)
    requires Shaped(s, n, m)
    ensures IsShape(p, n, m)
  {
    seq(n, i requires 0 <= i < n => seq(m, j requires 0 <= j < m =>
      if Interior(i, j, n, m) then s.p[i][j] + alpha * s.d[i][j] else s.p[i][j]))
  }

  /**
   * One pass of the loop body: the solution and residual moved by `alpha`,
   * the new `rk_norm`, and the direction `r + beta d` with `beta = r_norm / rk_norm`.
   */
  function CgStep(quot: (real, real) -> real, s: CgState, n: nat, m: nat, dx: real, dy: real, neumann: bool, bcv: real): (t: CgState)
    requires Shaped(s, n, m) && dx != 0.0 && dy != 0.0
    ensures Shaped(t, n, m) && t.rk >= 0.0
  {
    var alpha := Alpha(quot, s, n, m, dx, dy);
    var r := Axmy(s.r, alpha, Apply(s.d, n, m, dx, dy), n - 2, m - 2);
    var rn := PoissonSolvers.SumSquares(r, n - 2, m - 2);
    assert rn >= 0.0 by { PoissonSolvers.SumSquaresZero(r, n - 2, m - 2); }
    var beta := quot(rn, s.rk);
    var d := Redirected(s.d, r, beta, n, m);
    CgState(Advanced(s, alpha, n, m), r, Direction(neumann, d, n, m, bcv, dx, dy), rn)
  }

  /**
   * The loop from state `s` after `ites` passes: it runs while `ites < maxiter`
   * and `rk_norm > tol`, so it stops with the exit condition met, after at
   * most `maxiter` passes in all, with a residual that is a sum of squares.
   */
  function CgLoop(quot: (real, real) -> real, s: CgState, n: nat, m: nat, dx: real, dy: real, neumann: bool, bcv: real,
                  maxiter: int, tol: real, ites: nat): (r: (CgState, nat))
    requires Shaped(s, n, m) && dx != 0.0 && dy != 0.0
    ensures Shaped(r.0, n, m) && r.1 >= ites
    ensures (r.1 >= maxiter || r.0.rk <= tol) && (r.1 <= maxiter || r.1 == ites)
    ensures s.rk >= 0.0 ==> r.0.rk >= 0.0
    decreases if ites < maxiter then maxiter - ites else 0
  {
    if ites < maxiter && s.rk > tol then CgLoop(quot, CgStep(quot, s, n, m, dx, dy, neumann, bcv), n, m, dx, dy, neumann, bcv, maxiter, tol, ites + 1)
    else (s, ites)
  }

  /** What `solve_cg` hands back: the solution after the closing fill with its outcome, `ites` and the residual `res`. */
  datatype CgResult = CgResult(fill: Filled, ites: nat, res: real)

  /** The solution variable's xlow type and value, which `solve_cg` reads before it starts; None when either read fails. */
  function XLowRecord(grid: Grid, key: string): (r: Option<(Option<string>, real)>)
    reads grid
  {
    if key in grid.bcType && key in grid.bcVal && |grid.bcType[key]| >= 1 && |grid.bcVal[key]| >= 1
    then Some((grid.bcType[key][0], grid.bcVal[key][0]))
    else None
  }

  /**
   * How the reads `grid.bc_type[ivar][0], grid.bc_val[ivar][0]` end, in
   * their order: KeyError for a missing entry, IndexError for an empty list.
   */
  function XLowOutcome(grid: Grid, key: string): (r: Outcome)
    reads grid
    ensures r == Done <==> XLowRecord(grid, key).Some?
    ensures r == Done || r == KeyError || r == IndexError
  {
    if key !in grid.bcType then KeyError
    else if |grid.bcType[key]| == 0 then IndexError
    else if key !in grid.bcVal then KeyError
    else if |grid.bcVal[key]| == 0 then IndexError
    else Done
  }

  /** An entry of the type record whose list is empty makes the read fail with IndexError, not KeyError. */
  lemma EmptyTypeListIsIndexError(grid: Grid, key: string)
    requires key in grid.bcType && grid.bcType[key] == []
    ensures XLowOutcome(grid, key) == IndexError
  {
  }

  /**
   * `solve_cg` on the block values: the loop from the start state, then
   * `grid.fill_guard_cells(ivar)`; the residual handed back is the last
   * `rk_norm`, so `sum(r * r)` of the start when no pass ran.
   */
  function CgSolve(quot: (real, real) -> real, grid: Grid, key: string, f: Field, bf: Field, n: nat, m: nat,
                   maxiter: int, tol: real, xlow: (Option<string>, real)): CgResult
    requires n >= 2 && m >= 2 && IsShape(f, n, m) && IsShape(bf, n, m) && grid.dx != 0.0 && grid.dy != 0.0
    reads grid
  {
    var neumann := xlow.0 == Some("neumann");
    var start := CgStart(f, bf, n, m, grid.dx, grid.dy, neumann, xlow.1);
    var end := CgLoop(quot, start, n, m, grid.dx, grid.dy, neumann, xlow.1, maxiter, tol, 0);
    CgResult(PoissonSolvers.Refill(grid, key, end.0.p, n, m), end.1, end.0.rk)
  }

  // ---------------------------------------------------------------------------
  // Properties of the loop

  /** The loop only writes the interior of the solution: its outer ring is the one it started with. */
  lemma {:induction false} CgLoopKeepsRing(quot: (real, real) -> real, s: CgState, n: nat, m: nat, dx: real, dy: real, neumann: bool,
                                           bcv: real, maxiter: int, tol: real, ites: nat, i: int, j: int)
    requires Shaped(s, n, m) && dx != 0.0 && dy != 0.0 && 0 <= i < n && 0 <= j < m && !Interior(i, j, n, m)
    ensures CgLoop(quot, s, n, m, dx, dy, neumann, bcv, maxiter, tol, ites).0.p[i][j] == s.p[i][j]
    decreases if ites < maxiter then maxiter - ites else 0
  {
    if ites < maxiter && s.rk > tol {
      CgLoopKeepsRing(quot, CgStep(quot, s, n, m, dx, dy, neumann, bcv), n, m, dx, dy, neumann, bcv, maxiter, tol, ites + 1, i, j);
    }
  }

  /**
   * `solve_cg` returns with `ites == maxiter` or `res <= tol` (and never more
   * passes than `maxiter`); no pass runs when `maxiter <= 0` or the start
   * residual is already within `tol`, and then the solution is only refilled.
   * Before the closing fill the loop has changed interior points only.
   */
  lemma CgSolveSpec(quot: (real, real) -> real, grid: Grid, key: string, f: Field, bf: Field, n: nat, m: nat,
                    maxiter: int, tol: real, xlow: (Option<string>, real))
    requires n >= 2 && m >= 2 && IsShape(f, n, m) && IsShape(bf, n, m) && grid.dx != 0.0 && grid.dy != 0.0
    ensures var r := CgSolve(quot, grid, key, f, bf, n, m, maxiter, tol, xlow);
      (r.ites >= maxiter || r.res <= tol) && (r.ites <= maxiter || r.ites == 0) && r.res >= 0.0
    ensures var start := CgStart(f, bf, n, m, grid.dx, grid.dy, xlow.0 == Some("neumann"), xlow.1);
      maxiter <= 0 || start.rk <= tol ==>
        CgSolve(quot, grid, key, f, bf, n, m, maxiter, tol, xlow) == CgResult(PoissonSolvers.Refill(grid, key, f, n, m), 0, start.rk)
    ensures var neumann := xlow.0 == Some("neumann");
      var end := CgLoop(quot, CgStart(f, bf, n, m, grid.dx, grid.dy, neumann, xlow.1), n, m, grid.dx, grid.dy, neumann, xlow.1, maxiter, tol, 0);
      forall i, j :: 0 <= i < n && 0 <= j < m && !Interior(i, j, n, m) ==> end.0.p[i][j] == f[i][j]
  {
    var neumann := xlow.0 == Some("neumann");
    var start := CgStart(f, bf, n, m, grid.dx, grid.dy, neumann, xlow.1);
    forall i, j | 0 <= i < n && 0 <= j < m && !Interior(i, j, n, m)
      ensures CgLoop(quot, start, n, m, grid.dx, grid.dy, neumann, xlow.1, maxiter, tol, 0).0.p[i][j] == f[i][j]
    {
      CgLoopKeepsRing(quot, start, n, m, grid.dx, grid.dy, neumann, xlow.1, maxiter, tol, 0, i, j);
    }
  }

  // ---------------------------------------------------------------------------
  // The residual the loop carries is the true residual when d has no guard values

  /** `a x + y`, point by point of a stencil. */
  function Combine(x: Cross, a: real, y: Cross): Cross {
    Cross(x.c + a * y.c, x.w + a * y.w, x.e + a * y.e, x.s + a * y.s, x.nn + a * y.nn)
  }

  /** The five-point Laplacian is linear: `L(x + a y) = L(x) + a L(y)`. */
  lemma LaplacianCombine(x: Cross, a: real, y: Cross, dx: real, dy: real)
    requires dx != 0.0 && dy != 0.0
    ensures LaplacianOf(Combine(x, a, y), dx, dy) == LaplacianOf(x, dx, dy) + a * LaplacianOf(y, dx, dy)
  {
    assert Combine(x, a, y) == AddCross(x, ScaleCross(a, y));
    LaplacianAdditive(x, ScaleCross(a, y), dx, dy);
    LaplacianScale(a, y, dx, dy);
  }

  /** A field whose outer ring is zero. */
  predicate RingZero(d: Field, n: nat, m: nat)
    requires IsShape(d, n, m)
  {
    forall i, j :: 0 <= i < n && 0 <= j < m && !Interior(i, j, n, m) ==> d[i][j] == 0.0
  }

  /** With a zero ring in `d`, writing `p + alpha d` into the interior of `p` moves every point of `p` by `alpha d`. */
  lemma AdvancedAt(s: CgState, alpha: real, n: nat, m: nat, i: int, j: int)
    requires Shaped(s, n, m) && RingZero(s.d, n, m) && 0 <= i < n && 0 <= j < m
    ensures Advanced(s, alpha, n, m)[i][j] == s.p[i][j] + alpha * s.d[i][j]
  {
    if !Interior(i, j, n, m) {
      assert s.d[i][j] == 0.0;
    }
  }

  /** The pieces of one pass, named. */
  lemma CgStepParts(quot: (real, real) -> real, s: CgState, n: nat, m: nat, dx: real, dy: real, neumann: bool, bcv: real)
    requires Shaped(s, n, m) && dx != 0.0 && dy != 0.0
    ensures var t := CgStep(quot, s, n, m, dx, dy, neumann, bcv);
      var alpha := Alpha(quot, s, n, m, dx, dy);
      t.p == Advanced(s, alpha, n, m) && t.r == Axmy(s.r, alpha, Apply(s.d, n, m, dx, dy), n - 2, m - 2) &&
      (!neumann ==> t.d == Redirected(s.d, t.r, quot(t.rk, s.rk), n, m))
  {
  }

  /** At a point whose five stencil values are those of `p + alpha d`, the Laplacian is that of `p` plus `alpha` times that of `d`. */
  lemma LaplacianMovedAt(q: Field, p: Field, alpha: real, d: Field, n: nat, m: nat, dx: real, dy: real, i: int, j: int)
    requires IsShape(q, n, m) && IsShape(p, n, m) && IsShape(d, n, m) && dx != 0.0 && dy != 0.0 && Interior(i, j, n, m)
    requires q[i][j] == p[i][j] + alpha * d[i][j]
    requires q[i - 1][j] == p[i - 1][j] + alpha * d[i - 1][j] && q[i + 1][j] == p[i + 1][j] + alpha * d[i + 1][j]
    requires q[i][j - 1] == p[i][j - 1] + alpha * d[i][j - 1] && q[i][j + 1] == p[i][j + 1] + alpha * d[i][j + 1]
    ensures Laplacian(q, n, m, dx, dy, i, j) == Laplacian(p, n, m, dx, dy, i, j) + alpha * Laplacian(d, n, m, dx, dy, i, j)
  {
    var x, y := CrossAt(p, n, m, i, j), CrossAt(d, n, m, i, j);
    assert CrossAt(q, n, m, i, j) == Combine(x, alpha, y);
    LaplacianCombine(x, alpha, y, dx, dy);
  }

  /** At one interior point, the Laplacian of the moved solution is that of `p` plus `alpha` times that of `d`. */
  lemma ApplyAdvancedAt(s: CgState, alpha: real, n: nat, m: nat, dx: real, dy: real, i: int, j: int)
    requires Shaped(s, n, m) && RingZero(s.d, n, m) && dx != 0.0 && dy != 0.0 && Interior(i, j, n, m)
    ensures Laplacian(Advanced(s, alpha, n, m), n, m, dx, dy, i, j) ==
      Laplacian(s.p, n, m, dx, dy, i, j) + alpha * Laplacian(s.d, n, m, dx, dy, i, j)
  {
    AdvancedAt(s, alpha, n, m, i, j);
    AdvancedAt(s, alpha, n, m, i - 1, j);
    AdvancedAt(s, alpha, n, m, i + 1, j);
    AdvancedAt(s, alpha, n, m, i, j - 1);
    AdvancedAt(s, alpha, n, m, i, j + 1);
    LaplacianMovedAt(Advanced(s, alpha, n, m), s.p, alpha, s.d, n, m, dx, dy, i, j);
  }

  /** The operator is linear in the solution: moving `p` by `alpha d` moves `A(p)` by `alpha A(d)`. */
  lemma ApplyAdvanced(s: CgState, alpha: real, n: nat, m: nat, dx: real, dy: real)
    requires Shaped(s, n, m) && RingZero(s.d, n, m) && dx != 0.0 && dy != 0.0
    ensures Apply(Advanced(s, alpha, n, m), n, m, dx, dy) == Axpy(Apply(s.p, n, m, dx, dy), alpha, Apply(s.d, n, m, dx, dy), n - 2, m - 2)
  {
    var lhs, rhs := Apply(Advanced(s, alpha, n, m), n, m, dx, dy), Axpy(Apply(s.p, n, m, dx, dy), alpha, Apply(s.d, n, m, dx, dy), n - 2, m - 2);
    forall i, j | 0 <= i < n - 2 && 0 <= j < m - 2 ensures lhs[i][j] == rhs[i][j] {
      ApplyAdvancedAt(s, alpha, n, m, dy, dx, i + 1, j + 1);
    }
    FieldExt(lhs, rhs, n - 2, m - 2);
  }

  /** The loop state's residual is `b[1:-1, 1:-1] - A(p)` and its direction has no guard values. */
  predicate Tracks(s: CgState, bf: Field, n: nat, m: nat, dx: real, dy: real)
    requires Shaped(s, n, m) && IsShape(bf, n, m) && dx != 0.0 && dy != 0.0
  {
    RingZero(s.d, n, m) && s.r == PoissonSolvers.Sub(Slice(bf, n, m), Apply(s.p, n, m, dx, dy), n - 2, m - 2)
  }

  /** Moving a tracking state's solution by `alpha d` and its residual by `-alpha A(d)` keeps the residual true. */
  lemma TracksMoved(s: CgState, alpha: real, bf: Field, n: nat, m: nat, dx: real, dy: real)
    requires Shaped(s, n, m) && IsShape(bf, n, m) && dx != 0.0 && dy != 0.0 && Tracks(s, bf, n, m, dx, dy)
    ensures Axmy(s.r, alpha, Apply(s.d, n, m, dx, dy), n - 2, m - 2) ==
      PoissonSolvers.Sub(Slice(bf, n, m), Apply(Advanced(s, alpha, n, m), n, m, dx, dy), n - 2, m - 2)
  {
    ApplyAdvanced(s, alpha, n, m, dx, dy);
    var ap, ad, b := Apply(s.p, n, m, dx, dy), Apply(s.d, n, m, dx, dy), Slice(bf, n, m);
    var moved := Axmy(s.r, alpha, ad, n - 2, m - 2);
    var goal := PoissonSolvers.Sub(b, Apply(Advanced(s, alpha, n, m), n, m, dx, dy), n - 2, m - 2);
    forall i, j | 0 <= i < n - 2 && 0 <= j < m - 2 ensures moved[i][j] == goal[i][j] {
      assert moved[i][j] == s.r[i][j] - alpha * ad[i][j];
      assert s.r[i][j] == b[i][j] - ap[i][j];
      assert goal[i][j] == b[i][j] - (ap[i][j] + alpha * ad[i][j]);
    }
    FieldExt(moved, goal, n - 2, m - 2);
  }

  /** Updating the interior of a direction keeps its zero ring. */
  lemma RedirectedRingZero(d: Field, r: Field, beta: real, n: nat, m: nat)
    requires n >= 2 && m >= 2 && IsShape(d, n, m) && IsShape(r, n - 2, m - 2) && RingZero(d, n, m)
    ensures RingZero(Redirected(d, r, beta, n, m), n, m)
  {
  }

  /** Without the Neumann fill, a pass keeps the residual equal to the true residual of the moved solution. */
  lemma CgStepTracks(quot: (real, real) -> real, s: CgState, bf: Field, n: nat, m: nat, dx: real, dy: real, bcv: real)
    requires Shaped(s, n, m) && IsShape(bf, n, m) && dx != 0.0 && dy != 0.0 && Tracks(s, bf, n, m, dx, dy)
    ensures Tracks(CgStep(quot, s, n, m, dx, dy, false, bcv), bf, n, m, dx, dy)
  {
    var t := CgStep(quot, s, n, m, dx, dy, false, bcv);
    CgStepParts(quot, s, n, m, dx, dy, false, bcv);
    TracksMoved(s, Alpha(quot, s, n, m, dx, dy), bf, n, m, dx, dy);
    RedirectedRingZero(s.d, t.r, quot(t.rk, s.rk), n, m);
  }

  lemma {:induction false} CgLoopTracks(quot: (real, real) -> real, s: CgState, bf: Field, n: nat, m: nat, dx: real, dy: real,
                                        bcv: real, maxiter: int, tol: real, ites: nat)
    requires Shaped(s, n, m) && IsShape(bf, n, m) && dx != 0.0 && dy != 0.0 && Tracks(s, bf, n, m, dx, dy)
    ensures Tracks(CgLoop(quot, s, n, m, dx, dy, false, bcv, maxiter, tol, ites).0, bf, n, m, dx, dy)
    decreases if ites < maxiter then maxiter - ites else 0
  {
    if ites < maxiter && s.rk > tol {
      CgStepTracks(quot, s, bf, n, m, dx, dy, bcv);
      CgLoopTracks(quot, CgStep(quot, s, n, m, dx, dy, false, bcv), bf, n, m, dx, dy, bcv, maxiter, tol, ites + 1);
    }
  }

  /**
   * When the solution's xlow type is not `'neumann'`, the residual `r` the
   * loop updates by `r -= alpha A(d)` stays the true residual `b - A(p)` of
   * the solution it has reached, whatever the step sizes; so a returned
   * residual of zero means the interior solves `A(p) = b` exactly.
   */
  lemma CgResidualIsTrue(quot: (real, real) -> real, f: Field, bf: Field, n: nat, m: nat, dx: real, dy: real,
                         bcv: real, maxiter: int, tol: real)
    requires n >= 2 && m >= 2 && IsShape(f, n, m) && IsShape(bf, n, m) && dx != 0.0 && dy != 0.0
    ensures var end := CgLoop(quot, CgStart(f, bf, n, m, dx, dy, false, bcv), n, m, dx, dy, false, bcv, maxiter, tol, 0).0;
      end.r == PoissonSolvers.Sub(Slice(bf, n, m), Apply(end.p, n, m, dx, dy), n - 2, m - 2) &&
      (end.rk == 0.0 ==> Apply(end.p, n, m, dx, dy) == Slice(bf, n, m))
  {
    var start := CgStart(f, bf, n, m, dx, dy, false, bcv);
    CgLoopTracks(quot, start, bf, n, m, dx, dy, bcv, maxiter, tol, 0);
    var end := CgLoop(quot, start, n, m, dx, dy, false, bcv, maxiter, tol, 0).0;
    CgLoopRk(quot, start, n, m, dx, dy, false, bcv, maxiter, tol, 0);
    if end.rk == 0.0 {
      PoissonSolvers.SumSquaresOfDifference(Slice(bf, n, m), Apply(end.p, n, m, dx, dy), n - 2, m - 2);
    }
  }

  /** Every state the loop reaches carries `rk_norm = sum(r * r)`. */
  lemma {:induction false} CgLoopRk(quot: (real, real) -> real, s: CgState, n: nat, m: nat, dx: real, dy: real, neumann: bool,
                                    bcv: real, maxiter: int, tol: real, ites: nat)
    requires Shaped(s, n, m) && dx != 0.0 && dy != 0.0 && s.rk == PoissonSolvers.SumSquares(s.r, n - 2, m - 2)
    ensures var e := CgLoop(quot, s, n, m, dx, dy, neumann, bcv, maxiter, tol, ites).0;
      e.rk == PoissonSolvers.SumSquares(e.r, n - 2, m - 2)
    decreases if ites < maxiter then maxiter - ites else 0
  {
    if ites < maxiter && s.rk > tol {
      CgLoopRk(quot, CgStep(quot, s, n, m, dx, dy, neumann, bcv), n, m, dx, dy, neumann, bcv, maxiter, tol, ites + 1);
    }
  }

  // ---------------------------------------------------------------------------
  // The routine on arrays

  /** The start state evaluated into fresh residual and direction arrays. */
  method Start(p: array2<real>, b: array2<real>, dx: real, dy: real, neumann: bool, bcv: real)
    returns (r: array2<real>, d: array2<real>, rk: real)
    requires p.Length0 >= 2 && p.Length1 >= 2 && b.Length0 == p.Length0 && b.Length1 == p.Length1 && dx != 0.0 && dy != 0.0
    ensures fresh(r) && fresh(d) && r.Length0 == p.Length0 - 2 && r.Length1 == p.Length1 - 2
    ensures d.Length0 == p.Length0 && d.Length1 == p.Length1
    ensures CgState(Snapshot(p), Snapshot(r), Snapshot(d), rk) == CgStart(Snapshot(p), Snapshot(b), p.Length0, p.Length1, dx, dy, neumann, bcv)
  {
    var n, m := p.Length0, p.Length1;
    var s := CgStart(Snapshot(p), Snapshot(b), n, m, dx, dy, neumann, bcv);
    r := new real[n - 2, m - 2];
    d := new real[n, m];
    Store(r, s.r);
    Store(d, s.d);
    rk := s.rk;
  }

  /** One pass of the loop body on the arrays. */
  method Step(quot: (real, real) -> real, p: array2<real>, r: array2<real>, d: array2<real>, rk: real,
              dx: real, dy: real, neumann: bool, bcv: real) returns (rn: real)
    requires p.Length0 >= 2 && p.Length1 >= 2 && r.Length0 == p.Length0 - 2 && r.Length1 == p.Length1 - 2
    requires d.Length0 == p.Length0 && d.Length1 == p.Length1 && dx != 0.0 && dy != 0.0
    requires p != d
    modifies p, r, d
    ensures CgState(Snapshot(p), Snapshot(r), Snapshot(d), rn) ==
      CgStep(quot, CgState(old(Snapshot(p)), old(Snapshot(r)), old(Snapshot(d)), rk), p.Length0, p.Length1, dx, dy, neumann, bcv)
  {
    var n, m := p.Length0, p.Length1;
    var t := CgStep(quot, CgState(Snapshot(p), Snapshot(r), Snapshot(d), rk), n, m, dx, dy, neumann, bcv);
    Store(p, t.p);
    Store(r, t.r);
    Store(d, t.d);
    rn := t.rk;
  }

  /** The loop of `solve_cg`. */
  method Loop(quot: (real, real) -> real, p: array2<real>, r: array2<real>, d: array2<real>, rk: real,
              dx: real, dy: real, neumann: bool, bcv: real, maxiter: int, tol: real) returns (ites: nat, res: real)
    requires p.Length0 >= 2 && p.Length1 >= 2 && r.Length0 == p.Length0 - 2 && r.Length1 == p.Length1 - 2
    requires d.Length0 == p.Length0 && d.Length1 == p.Length1 && dx != 0.0 && dy != 0.0
    requires p != d
    modifies p, r, d
    ensures (CgState(Snapshot(p), Snapshot(r), Snapshot(d), res), ites) ==
      CgLoop(quot, CgState(old(Snapshot(p)), old(Snapshot(r)), old(Snapshot(d)), rk), p.Length0, p.Length1, dx, dy, neumann, bcv, maxiter, tol, 0)
  {
    var n, m := p.Length0, p.Length1;
    ghost var goal := CgLoop(quot, CgState(Snapshot(p), Snapshot(r), Snapshot(d), rk), n, m, dx, dy, neumann, bcv, maxiter, tol, 0);
    ites := 0;
    res := rk;
    var rkNorm := rk;
    while ites < maxiter && res > tol
      invariant res == rkNorm
      invariant CgLoop(quot, CgState(Snapshot(p), Snapshot(r), Snapshot(d), rkNorm), n, m, dx, dy, neumann, bcv, maxiter, tol, ites) == goal
      decreases maxiter - ites
    {
      rkNorm := Step(quot, p, r, d, rkNorm, dx, dy, neumann, bcv);
      res := rkNorm;
      ites := ites + 1;
    }
  }

  /**
   * `solve_cg`: the xlow record of the solution variable (KeyError or
   * IndexError when it cannot be read), the start state, the loop, and the closing fill.
   */
  method SolveCg(quot: (real, real) -> real, grid: Grid, ivar: string, p: array2<real>, b: array2<real>, maxiter: int, tol: real)
    returns (out: Outcome, ites: nat, res: real)
    requires QuotLaw(quot)
    requires p.Length0 >= 2 && p.Length1 >= 2 && b.Length0 == p.Length0 && b.Length1 == p.Length1
    requires grid.dx != 0.0 && grid.dy != 0.0 && p != b
    modifies p
    ensures XLowRecord(grid, ivar).None? ==> out == XLowOutcome(grid, ivar) && Snapshot(p) == old(Snapshot(p))
    ensures XLowRecord(grid, ivar).Some? ==>
      CgResult(Filled(Snapshot(p), out), ites, res) ==
      CgSolve(quot, grid, ivar, old(Snapshot(p)), Snapshot(b), p.Length0, p.Length1, maxiter, tol, XLowRecord(grid, ivar).value)
  {
    var n, m := p.Length0, p.Length1;
    var rec := XLowRecord(grid, ivar);
    if rec.None? {
      return XLowOutcome(grid, ivar), 0, 0.0;
    }
    var neumann := rec.value.0 == Some("neumann");
    var bcv := rec.value.1;
    ghost var F, B := Snapshot(p), Snapshot(b);
    var r, d, rk := Start(p, b, grid.dx, grid.dy, neumann, bcv);
    ghost var start := CgState(Snapshot(p), Snapshot(r), Snapshot(d), rk);
    assert start == CgStart(F, B, n, m, grid.dx, grid.dy, neumann, bcv);
    ites, res := Loop(quot, p, r, d, rk, grid.dx, grid.dy, neumann, bcv, maxiter, tol);
    assert Snapshot(b) == B;
    out := grid.FillGuardCells(ivar, p, Alone, false);
  }
}
