/**
 * The iterative Poisson solvers of one cell-centred grid block: the stub and
 * the Jacobi method (conjugate gradients is in PoissonCg).  The solution
 * `phi` and the right-hand side `b` are the views `grid[ivar][0, 0, :, :]`
 * and `grid[rvar][0, 0, :, :]` of the block data, indexed [y, x], so axis 0
 * runs along y.  `numpy.sqrt` is a parameter, bound by `SqrtLaw` in the
 * lemmas that need it.
 */
module PoissonSolvers {
  import opened Fields
  import opened Grid
  import opened Operators

  // ---------------------------------------------------------------------------
  // solve_stub

  /** `solve_stub`: no iterations and no residual, and the grid is left as it was. */
  method SolveStub(grid: Grid, ivar: string, rvar: string) returns (ites: Option<int>, residual: Option<real>)
    ensures ites == None && residual == None
  {
    ites, residual := None, None;
  }

  // ---------------------------------------------------------------------------
  // Sums over a field

  /** The squares of the first `k` entries of row `i`, summed. */
  function RowSquares(f: Field, i: nat, k: nat): (r: real)
    requires i < |f| && k <= |f[i]|
    ensures r >= 0.0
  {
    if k == 0 then 0.0 else RowSquares(f, i, k - 1) + Sq(f[i][k - 1])
  }

  /** The squares of the entries of the first `k` rows, summed. */
  function Squares(f: Field, n: nat, m: nat, k: nat): (r: real)
    requires IsShape(f, n, m) && k <= n
    ensures r >= 0.0
  {
    if k == 0 then 0.0 else Squares(f, n, m, k - 1) + RowSquares(f, k - 1, m)
  }

  /** `numpy.sum(f * f)`. */
  function SumSquares(f: Field, n: nat, m: nat): (r: real)
    requires IsShape(f, n, m)
  {
    Squares(f, n, m, n)
  }

  lemma SqZero(x: real)
    ensures Sq(x) == 0.0 <==> x == 0.0
  {
    if x != 0.0 {
      SquarePositive(x);
    }
  }

  lemma {:induction false} RowSquaresZero(f: Field, i: nat, k: nat)
    requires i < |f| && k <= |f[i]|
    ensures RowSquares(f, i, k) == 0.0 <==> forall j :: 0 <= j < k ==> f[i][j] == 0.0
  {
    if k > 0 {
      RowSquaresZero(f, i, k - 1);
      SqZero(f[i][k - 1]);
    }
  }

  lemma {:induction false} SquaresZero(f: Field, n: nat, m: nat, k: nat)
    requires IsShape(f, n, m) && k <= n
    ensures Squares(f, n, m, k) == 0.0 <==> forall i, j :: 0 <= i < k && 0 <= j < m ==> f[i][j] == 0.0
  {
    if k > 0 {
      SquaresZero(f, n, m, k - 1);
      RowSquaresZero(f, k - 1, m);
    }
  }

  /** The squares of a field sum to zero exactly when every entry is zero. */
  lemma SumSquaresZero(f: Field, n: nat, m: nat)
    requires IsShape(f, n, m)
    ensures SumSquares(f, n, m) >= 0.0
    ensures SumSquares(f, n, m) == 0.0 <==> f == Const(n, m, 0.0)
  {
    SquaresZero(f, n, m, n);
    if SumSquares(f, n, m) == 0.0 {
      FieldExt(f, Const(n, m, 0.0), n, m);
    }
  }

  /** `f - g`, entry by entry. */
  function Sub(f: Field, g: Field, n: nat, m: nat): (h: Field)
    requires IsShape(f, n, m) && IsShape(g, n, m)
    ensures IsShape(h, n, m)
  {
    seq(n, i requires 0 <= i < n => seq(m, j requires 0 <= j < m => f[i][j] - g[i][j]))
  }

  /** Two fields are equal exactly when the squares of their difference sum to zero. */
  lemma SumSquaresOfDifference(f: Field, g: Field, n: nat, m: nat)
    requires IsShape(f, n, m) && IsShape(g, n, m)
    ensures SumSquares(Sub(f, g, n, m), n, m) == 0.0 <==> f == g
  {
    var h := Sub(f, g, n, m);
    SquaresZero(h, n, m, n);
    if SumSquares(h, n, m) == 0.0 {
      forall i, j | 0 <= i < n && 0 <= j < m
        ensures f[i][j] == g[i][j]
      {
        assert h[i][j] == 0.0;
      }
      FieldExt(f, g, n, m);
    }
  }

  /** The entries of `a`, squared and summed row by row. */
  method SumSquaresOf(a: array2<real>) returns (s: real)
    ensures s == SumSquares(Snapshot(a), a.Length0, a.Length1)
  {
    var n, m := a.Length0, a.Length1;
    ghost var F := Snapshot(a);
    s := 0.0;
    for i := 0 to n
      invariant s == Squares(F, n, m, i)
    {
      var t := 0.0;
      for j := 0 to m
        invariant t == RowSquares(F, i, j)
      {
        t := t + Sq(a[i, j]);
      }
      s := s + t;
    }
  }

  /** `a - c` evaluated into a fresh array. */
  method SubOf(a: array2<real>, c: array2<real>) returns (d: array2<real>)
    requires c.Length0 == a.Length0 && c.Length1 == a.Length1
    ensures fresh(d) && d.Length0 == a.Length0 && d.Length1 == a.Length1
    ensures Snapshot(d) == Sub(Snapshot(a), Snapshot(c), a.Length0, a.Length1)
  {
    var n, m := a.Length0, a.Length1;
    d := new real[n, m]((i, j) reads a, c => if 0 <= i < n && 0 <= j < m then a[i, j] - c[i, j] else 0.0);
    FieldExt(Snapshot(d), Sub(Snapshot(a), Snapshot(c), n, m), n, m);
  }

  // ---------------------------------------------------------------------------
  // The Jacobi residual

  lemma CellCount(nx: nat, ny: nat)
    ensures (nx + 2) * (ny + 2) >= 4
  {
    assert (nx + 2) * (ny + 2) == nx * ny + 2 * nx + 2 * ny + 4;
  }

  /** `(grid.nx + 2) * (grid.ny + 2)`: the number of entries of the block, guard cells included. */
  function BlockSize(nx: nat, ny: nat): (r: real)
    ensures r >= 4.0
  {
    CellCount(nx, ny);
    ((nx + 2) * (ny + 2)) as real
  }

  /** `numpy.sqrt(numpy.sum((phi - phi_old)**2) / ((grid.nx + 2) * (grid.ny + 2)))`. */
  function Residual(sqrt: real -> real, f: Field, g: Field, n: nat, m: nat, nx: nat, ny: nat): real
    requires IsShape(f, n, m) && IsShape(g, n, m)
  {
    sqrt(SumSquares(Sub(f, g, n, m), n, m) / BlockSize(nx, ny))
  }

  /** A square root is zero exactly at zero. */
  lemma SqrtZero(sqrt: real -> real, x: real)
    requires SqrtLaw(sqrt) && x >= 0.0
    ensures sqrt(x) >= 0.0 && (sqrt(x) == 0.0 <==> x == 0.0)
  {
    var r := sqrt(x);
    assert r * r == x;
    if r != 0.0 {
      var k := 1.0 / r;
      assert r * k == 1.0;
      assert (r * r) * k == r;
    }
  }

  /** The residual is never negative, and it is zero exactly when the sweep changed nothing. */
  lemma ResidualZero(sqrt: real -> real, f: Field, g: Field, n: nat, m: nat, nx: nat, ny: nat)
    requires SqrtLaw(sqrt) && IsShape(f, n, m) && IsShape(g, n, m)
    ensures Residual(sqrt, f, g, n, m, nx, ny) >= 0.0
    ensures Residual(sqrt, f, g, n, m, nx, ny) == 0.0 <==> f == g
  {
    var s := SumSquares(Sub(f, g, n, m), n, m);
    var q := BlockSize(nx, ny);
    SumSquaresZero(Sub(f, g, n, m), n, m);
    SumSquaresOfDifference(f, g, n, m);
    assert s / q >= 0.0;
    assert s / q == 0.0 <==> s == 0.0;
    SqrtZero(sqrt, s / q);
  }

  // ---------------------------------------------------------------------------
  // The Jacobi update

  /** With `x`, `y` for dx^2, dy^2: the weighted mean equals `c` exactly when the scaled second differences sum to `b`. */
  lemma WeightedMeanFixed(w: real, e: real, s: real, nn: real, c: real, b: real, x: real, y: real)
    requires x > 0.0 && y > 0.0
    ensures ((w + e) * y + (s + nn) * x - b * x * y) / (2.0 * (x + y)) == c
        <==> (e - 2.0 * c + w) / x + (nn - 2.0 * c + s) / y == b
  {
    var q := (w + e) * y + (s + nn) * x - b * x * y;
    assert q / (2.0 * (x + y)) == c <==> q == c * (2.0 * (x + y));
    var u, v := e - 2.0 * c + w, nn - 2.0 * c + s;
    assert (u / x + v / y) * (x * y) == u * y + v * x;
    assert u / x + v / y == b <==> u * y + v * x == b * (x * y);
    assert q - c * (2.0 * (x + y)) == u * y + v * x - b * (x * y);
  }

  lemma MulDivCancel(a: real, d: real)
    requires d != 0.0
    ensures (a / d) * d == a
  {
  }

  lemma QuotientUnique(q: real, a: real, d: real)
    requires d != 0.0 && q * d == a
    ensures a / d == q
  {
  }

  /** Dividing twice by `d` is dividing once by its square. */
  lemma DivTwice(a: real, d: real)
    requires d != 0.0
    ensures Sq(d) > 0.0 && a / d / d == a / Sq(d)
  {
    SquarePositive(d);
    var q := a / d / d;
    MulDivCancel(a, d);
    MulDivCancel(a / d, d);
    assert q * Sq(d) == (q * d) * d;
    QuotientUnique(q, a, Sq(d));
  }

  /**
   * The Jacobi value of a point from its neighbours `a0`, `a1` along axis 0,
   * `b0`, `b1` along axis 1 and the right-hand side `rhs`: the axis-0 pair
   * weighted by dy^2, the axis-1 pair by dx^2, less `rhs dx^2 dy^2`, over
   * 2 (dx^2 + dy^2).
   */
  function JacobiValue(a0: real, a1: real, b0: real, b1: real, rhs: real, dx: real, dy: real): real
    requires dx != 0.0 && dy != 0.0
  {
    SquarePositive(dx);
    SquarePositive(dy);
    ((a0 + a1) * Sq(dy) + (b0 + b1) * Sq(dx) - rhs * Sq(dx) * Sq(dy)) / (2.0 * (Sq(dx) + Sq(dy)))
  }

  /**
   * A point is a fixed point of the update exactly when the five-point
   * Laplacian with the axis-0 difference over dx^2 and the axis-1 difference
   * over dy^2 equals the right-hand side there.
   */
  lemma JacobiValueFixed(a0: real, a1: real, b0: real, b1: real, c: real, rhs: real, dx: real, dy: real)
    requires dx != 0.0 && dy != 0.0
    ensures JacobiValue(a0, a1, b0, b1, rhs, dx, dy) == c <==> LaplacianOf(Cross(c, a0, a1, b0, b1), dx, dy) == rhs
  {
    SquarePositive(dx);
    SquarePositive(dy);
    WeightedMeanFixed(a0, a1, b0, b1, c, rhs, Sq(dx), Sq(dy));
    DivTwice(a1 - 2.0 * c + a0, dx);
    DivTwice(b1 - 2.0 * c + b0, dy);
  }

  /** `phi[1:-1, 1:-1] = ...` from the copy `f`: every interior point updated, the outer ring kept. */
  function JacobiSweep(f: Field, bf: Field, n: nat, m: nat, dx: real, dy: real): (g: Field)
    requires IsShape(f, n, m) && IsShape(bf, n, m) && dx != 0.0 && dy != 0.0
    ensures IsShape(g, n, m)
  {
    seq(n, i requires 0 <= i < n => seq(m, j requires 0 <= j < m =>
      if Interior(i, j, n, m) then JacobiValue(f[i - 1][j], f[i + 1][j], f[i][j - 1], f[i][j + 1], bf[i][j], dx, dy)
      else f[i][j]))
  }

  /**
   * A sweep leaves `f` unchanged exactly when `f` solves the discrete Poisson
   * equation at every interior point, with dx on axis 0 and dy on axis 1.
   */
  lemma JacobiSweepFixed(f: Field, bf: Field, n: nat, m: nat, dx: real, dy: real)
    requires IsShape(f, n, m) && IsShape(bf, n, m) && dx != 0.0 && dy != 0.0
    ensures JacobiSweep(f, bf, n, m, dx, dy) == f <==>
      forall i, j :: Interior(i, j, n, m) ==> Laplacian(f, n, m, dx, dy, i, j) == bf[i][j]
  {
    var g := JacobiSweep(f, bf, n, m, dx, dy);
    forall i, j | Interior(i, j, n, m)
      ensures g[i][j] == f[i][j] <==> Laplacian(f, n, m, dx, dy, i, j) == bf[i][j]
    {
      JacobiValueFixed(f[i - 1][j], f[i + 1][j], f[i][j - 1], f[i][j + 1], f[i][j], bf[i][j], dx, dy);
    }
    if forall i, j :: Interior(i, j, n, m) ==> Laplacian(f, n, m, dx, dy, i, j) == bf[i][j] {
      FieldExt(g, f, n, m);
    }
  }

  /** One cell of the evaluated right-hand side of the update, read from the arrays; the ring of `f` is passed through. */
  function JacobiAt(f: array2<real>, b: array2<real>, dx: real, dy: real, i: int, j: int): (r: real)
    requires b.Length0 == f.Length0 && b.Length1 == f.Length1 && dx != 0.0 && dy != 0.0
    reads f, b
    ensures 0 <= i < f.Length0 && 0 <= j < f.Length1 ==>
      r == JacobiSweep(Snapshot(f), Snapshot(b), f.Length0, f.Length1, dx, dy)[i][j]
  {
    if Interior(i, j, f.Length0, f.Length1) then JacobiValue(f[i - 1, j], f[i + 1, j], f[i, j - 1], f[i, j + 1], b[i, j], dx, dy)
    else if 0 <= i < f.Length0 && 0 <= j < f.Length1 then f[i, j]
    else 0.0
  }

  /** Writing the interior of a sweep over the field it was computed from gives the sweep. */
  lemma SweepOverItself(f: Field, bf: Field, n: nat, m: nat, dx: real, dy: real)
    requires IsShape(f, n, m) && IsShape(bf, n, m) && dx != 0.0 && dy != 0.0
    ensures SetInterior(f, JacobiSweep(f, bf, n, m, dx, dy), n, m) == JacobiSweep(f, bf, n, m, dx, dy)
  {
    FieldExt(SetInterior(f, JacobiSweep(f, bf, n, m, dx, dy), n, m), JacobiSweep(f, bf, n, m, dx, dy), n, m);
  }

  /** The sweep of `phi` against its copy `phiOld`: the new interior evaluated, then written over `phi`. */
  method JacobiSweepInPlace(phi: array2<real>, phiOld: array2<real>, b: array2<real>, dx: real, dy: real)
    requires dx != 0.0 && dy != 0.0 && phi != phiOld && phi != b
    requires phiOld.Length0 == phi.Length0 && phiOld.Length1 == phi.Length1
    requires b.Length0 == phi.Length0 && b.Length1 == phi.Length1
    requires Snapshot(phi) == Snapshot(phiOld)
    modifies phi
    ensures Snapshot(phi) == JacobiSweep(Snapshot(phiOld), Snapshot(b), phi.Length0, phi.Length1, dx, dy)
  {
    var n, m := phi.Length0, phi.Length1;
    ghost var F0, B := Snapshot(phiOld), Snapshot(b);
    ghost var G := JacobiSweep(F0, B, n, m, dx, dy);
    var target := new real[n, m]((i, j) reads phiOld, b => JacobiAt(phiOld, b, dx, dy, i, j));
    FieldExt(Snapshot(target), G, n, m);
    WriteInterior(phi, target);
    assert Snapshot(phi) == SetInterior(F0, G, n, m);
    SweepOverItself(F0, B, n, m, dx, dy);
  }

  // ---------------------------------------------------------------------------
  // solve_jacobi

  /** `grid.fill_guard_cells(ivar)` on the [y, x] block values `f`. */
  function Refill(grid: Grid, key: string, f: Field, n: nat, m: nat): (r: Filled)
    requires IsShape(f, n, m)
    reads grid
    ensures IsShape(r.f, n, m)
  {
    VarFill(grid.kind, grid.bcType, grid.bcVal, key, f, n, m, Alone, grid.dx, grid.dy, false)
  }

  /** `phi` after `k` sweeps, each followed by the fill of `key`; an exception ends the rounds. */
  function JacobiRounds(grid: Grid, key: string, f: Field, bf: Field, n: nat, m: nat, k: nat): (r: Filled)
    requires IsShape(f, n, m) && IsShape(bf, n, m) && grid.dx != 0.0 && grid.dy != 0.0
    reads grid
    ensures IsShape(r.f, n, m)
  {
    if k == 0 then Filled(f, Done)
    else
      var r := JacobiRounds(grid, key, f, bf, n, m, k - 1);
      if r.out != Done then r
      else Refill(grid, key, JacobiSweep(r.f, bf, n, m, grid.dx, grid.dy), n, m)
  }

  /** The residual computed in round `k`: the field after the round against the field before it. */
  function ResidualAt(sqrt: real -> real, grid: Grid, key: string, f: Field, bf: Field, n: nat, m: nat, k: nat): real
    requires IsShape(f, n, m) && IsShape(bf, n, m) && grid.dx != 0.0 && grid.dy != 0.0 && k >= 1
    reads grid
  {
    Residual(sqrt, JacobiRounds(grid, key, f, bf, n, m, k).f, JacobiRounds(grid, key, f, bf, n, m, k - 1).f, n, m, grid.nx, grid.ny)
  }

  /**
   * A round that ends without an exception and computes a zero residual
   * started from a solution: the field before it solves the discrete Poisson
   * equation at every interior point, and the round gives it back unchanged.
   */
  lemma JacobiConverged(sqrt: real -> real, grid: Grid, key: string, f: Field, bf: Field, n: nat, m: nat, k: nat)
    requires SqrtLaw(sqrt) && IsShape(f, n, m) && IsShape(bf, n, m) && grid.dx != 0.0 && grid.dy != 0.0 && k >= 1
    requires JacobiRounds(grid, key, f, bf, n, m, k).out == Done && ResidualAt(sqrt, grid, key, f, bf, n, m, k) == 0.0
    ensures var g := JacobiRounds(grid, key, f, bf, n, m, k - 1).f;
      JacobiRounds(grid, key, f, bf, n, m, k).f == g &&
      forall i, j :: Interior(i, j, n, m) ==> Laplacian(g, n, m, grid.dx, grid.dy, i, j) == bf[i][j]
  {
    var prev := JacobiRounds(grid, key, f, bf, n, m, k - 1);
    var g := prev.f;
    assert prev.out == Done;
    ResidualZero(sqrt, JacobiRounds(grid, key, f, bf, n, m, k).f, g, n, m, grid.nx, grid.ny);
    var s := JacobiSweep(g, bf, n, m, grid.dx, grid.dy);
    forall i, j | 0 <= i < n && 0 <= j < m
      ensures s[i][j] == g[i][j]
    {
      if Interior(i, j, n, m) {
        VarFillKeepsInterior(grid.kind, grid.bcType, grid.bcVal, key, s, n, m, Alone, grid.dx, grid.dy, false, i, j);
      }
    }
    FieldExt(s, g, n, m);
    JacobiSweepFixed(g, bf, n, m, grid.dx, grid.dy);
  }

  /** One round of the loop: copy, sweep, fill, and the residual when the fill succeeds. */
  method JacobiRound(sqrt: real -> real, grid: Grid, ivar: string, phi: array2<real>, b: array2<real>)
    returns (out: Outcome, residual: real)
    requires grid.dx != 0.0 && grid.dy != 0.0 && phi != b
    requires b.Length0 == phi.Length0 && b.Length1 == phi.Length1
    modifies phi
    ensures Filled(Snapshot(phi), out) ==
      Refill(grid, ivar, JacobiSweep(old(Snapshot(phi)), Snapshot(b), phi.Length0, phi.Length1, grid.dx, grid.dy), phi.Length0, phi.Length1)
    ensures out == Done ==> residual == Residual(sqrt, Snapshot(phi), old(Snapshot(phi)), phi.Length0, phi.Length1, grid.nx, grid.ny)
  {
    var n, m := phi.Length0, phi.Length1;
    ghost var B, S := Snapshot(b), Snapshot(phi);
    var phiOld := CopyOf(phi);
    JacobiSweepInPlace(phi, phiOld, b, grid.dx, grid.dy);
    ghost var W := Snapshot(phi);
    assert W == JacobiSweep(S, B, n, m, grid.dx, grid.dy);
    out := grid.FillGuardCells(ivar, phi, Alone, false);
    assert Filled(Snapshot(phi), out) == Refill(grid, ivar, W, n, m);
    assert Snapshot(b) == B && Snapshot(phiOld) == S;
    residual := 0.0;
    if out == Done {
      var diff := SubOf(phi, phiOld);
      var s := SumSquaresOf(diff);
      residual := sqrt(s / BlockSize(grid.nx, grid.ny));
    }
  }

  /** What `solve_jacobi` hands back: the final field with the outcome of its last fill, `ites` and `residual`. */
  datatype JacobiResult = JacobiResult(fill: Filled, ites: nat, residual: real)

  /**
   * The loop of `solve_jacobi` from a state with field `f` after `ites`
   * sweeps and last residual `residual`: it sweeps while `ites < maxiter`
   * and `residual > tol`, and an exception from a fill ends it.
   */
  function JacobiLoop(sqrt: real -> real, grid: Grid, key: string, f: Field, bf: Field, n: nat, m: nat,
                      maxiter: int, tol: real, ites: nat, residual: real): (r: JacobiResult)
    requires IsShape(f, n, m) && IsShape(bf, n, m) && grid.dx != 0.0 && grid.dy != 0.0
    reads grid
    ensures IsShape(r.fill.f, n, m) && r.ites >= ites
    decreases if ites < maxiter then maxiter - ites else 0
  {
    if !(ites < maxiter && residual > tol) then JacobiResult(Filled(f, Done), ites, residual)
    else
      var g := Refill(grid, key, JacobiSweep(f, bf, n, m, grid.dx, grid.dy), n, m);
      if g.out != Done then JacobiResult(g, ites, residual)
      else JacobiLoop(sqrt, grid, key, g.f, bf, n, m, maxiter, tol, ites + 1, Residual(sqrt, g.f, f, n, m, grid.nx, grid.ny))
  }

  /** `solve_jacobi` on the block values: no sweep done yet, and the residual starts at `tol + 1`. */
  function JacobiSolve(sqrt: real -> real, grid: Grid, key: string, f: Field, bf: Field, n: nat, m: nat,
                       maxiter: int, tol: real): JacobiResult
    requires IsShape(f, n, m) && IsShape(bf, n, m) && grid.dx != 0.0 && grid.dy != 0.0
    reads grid
  {
    JacobiLoop(sqrt, grid, key, f, bf, n, m, maxiter, tol, 0, tol + 1.0)
  }

  /** A state of the loop that has done `ites` rounds of `JacobiRounds` without an exception. */
  predicate OnTrack(sqrt: real -> real, grid: Grid, key: string, f0: Field, bf: Field, n: nat, m: nat,
                    tol: real, f: Field, ites: nat, residual: real)
    requires IsShape(f0, n, m) && IsShape(bf, n, m) && grid.dx != 0.0 && grid.dy != 0.0
    reads grid
  {
    JacobiRounds(grid, key, f0, bf, n, m, ites) == Filled(f, Done) &&
    (ites == 0 ==> residual == tol + 1.0) &&
    (ites >= 1 ==> residual == ResidualAt(sqrt, grid, key, f0, bf, n, m, ites)) &&
    forall k :: 1 <= k < ites ==> ResidualAt(sqrt, grid, key, f0, bf, n, m, k) > tol
  }

  /** What the loop promises, from any state on track. */
  predicate SolvedFrom(sqrt: real -> real, grid: Grid, key: string, f0: Field, bf: Field, n: nat, m: nat,
                       maxiter: int, tol: real, r: JacobiResult)
    requires IsShape(f0, n, m) && IsShape(bf, n, m) && grid.dx != 0.0 && grid.dy != 0.0
    reads grid
  {
    (r.ites <= maxiter || r.ites == 0) &&
    (r.fill.out == Done ==>
      r.fill == JacobiRounds(grid, key, f0, bf, n, m, r.ites) &&
      (r.ites >= maxiter || r.residual <= tol) &&
      (r.ites == 0 ==> r.residual == tol + 1.0) &&
      (r.ites >= 1 ==> r.residual == ResidualAt(sqrt, grid, key, f0, bf, n, m, r.ites))) &&
    (r.fill.out != Done ==>
      r.ites < maxiter &&
      r.fill == JacobiRounds(grid, key, f0, bf, n, m, r.ites + 1) &&
      (r.ites >= 1 ==> ResidualAt(sqrt, grid, key, f0, bf, n, m, r.ites) > tol)) &&
    forall k :: 1 <= k < r.ites ==> ResidualAt(sqrt, grid, key, f0, bf, n, m, k) > tol
  }

  /** A round that fills without an exception, taken from a state on track whose residual exceeds `tol`, stays on track. */
  lemma OnTrackStep(sqrt: real -> real, grid: Grid, key: string, f0: Field, bf: Field, n: nat, m: nat,
                    tol: real, f: Field, ites: nat, residual: real)
    requires IsShape(f0, n, m) && IsShape(bf, n, m) && IsShape(f, n, m) && grid.dx != 0.0 && grid.dy != 0.0
    requires OnTrack(sqrt, grid, key, f0, bf, n, m, tol, f, ites, residual) && residual > tol
    ensures var g := Refill(grid, key, JacobiSweep(f, bf, n, m, grid.dx, grid.dy), n, m);
      JacobiRounds(grid, key, f0, bf, n, m, ites + 1) == g &&
      (g.out == Done ==> OnTrack(sqrt, grid, key, f0, bf, n, m, tol, g.f, ites + 1, Residual(sqrt, g.f, f, n, m, grid.nx, grid.ny)))
  {
    var g := Refill(grid, key, JacobiSweep(f, bf, n, m, grid.dx, grid.dy), n, m);
    assert JacobiRounds(grid, key, f0, bf, n, m, ites + 1) == g;
    if g.out == Done {
      forall k | 1 <= k < ites + 1
        ensures ResidualAt(sqrt, grid, key, f0, bf, n, m, k) > tol
      {
        if k == ites {
          assert residual > tol;
        }
      }
    }
  }

  lemma {:induction false} JacobiLoopSolves(sqrt: real -> real, grid: Grid, key: string, f0: Field, bf: Field, n: nat, m: nat,
                                            maxiter: int, tol: real, f: Field, ites: nat, residual: real)
    requires IsShape(f0, n, m) && IsShape(bf, n, m) && IsShape(f, n, m) && grid.dx != 0.0 && grid.dy != 0.0
    requires ites <= maxiter || ites == 0
    requires OnTrack(sqrt, grid, key, f0, bf, n, m, tol, f, ites, residual)
    ensures SolvedFrom(sqrt, grid, key, f0, bf, n, m, maxiter, tol, JacobiLoop(sqrt, grid, key, f, bf, n, m, maxiter, tol, ites, residual))
    decreases if ites < maxiter then maxiter - ites else 0
  {
    if ites < maxiter && residual > tol {
      OnTrackStep(sqrt, grid, key, f0, bf, n, m, tol, f, ites, residual);
      var g := Refill(grid, key, JacobiSweep(f, bf, n, m, grid.dx, grid.dy), n, m);
      if g.out == Done {
        JacobiLoopSolves(sqrt, grid, key, f0, bf, n, m, maxiter, tol, g.f, ites + 1, Residual(sqrt, g.f, f, n, m, grid.nx, grid.ny));
      }
    }
    LoopSolvedFrom(sqrt, grid, key, f0, bf, n, m, maxiter, tol, f, ites, residual);
  }

  /** One turn of the loop from a state on track, given what the loop promises from the next state when the round fills without an exception. */
  lemma LoopSolvedFrom(sqrt: real -> real, grid: Grid, key: string, f0: Field, bf: Field, n: nat, m: nat,
                       maxiter: int, tol: real, f: Field, ites: nat, residual: real)
    requires IsShape(f0, n, m) && IsShape(bf, n, m) && IsShape(f, n, m) && grid.dx != 0.0 && grid.dy != 0.0
    requires ites <= maxiter || ites == 0
    requires OnTrack(sqrt, grid, key, f0, bf, n, m, tol, f, ites, residual)
    requires var g := Refill(grid, key, JacobiSweep(f, bf, n, m, grid.dx, grid.dy), n, m);
      ites < maxiter && residual > tol && g.out == Done ==>
      SolvedFrom(sqrt, grid, key, f0, bf, n, m, maxiter, tol,
                 JacobiLoop(sqrt, grid, key, g.f, bf, n, m, maxiter, tol, ites + 1, Residual(sqrt, g.f, f, n, m, grid.nx, grid.ny)))
    ensures SolvedFrom(sqrt, grid, key, f0, bf, n, m, maxiter, tol, JacobiLoop(sqrt, grid, key, f, bf, n, m, maxiter, tol, ites, residual))
  {
    if ites < maxiter && residual > tol {
      OnTrackStep(sqrt, grid, key, f0, bf, n, m, tol, f, ites, residual);
      var g := Refill(grid, key, JacobiSweep(f, bf, n, m, grid.dx, grid.dy), n, m);
      if g.out == Done {
        SweptSolved(sqrt, grid, key, f0, bf, n, m, maxiter, tol, f, ites, residual, g);
      } else {
        FailedRoundSolved(sqrt, grid, key, f0, bf, n, m, maxiter, tol, f, ites, residual, g);
      }
    } else {
      StoppedSolved(sqrt, grid, key, f0, bf, n, m, maxiter, tol, f, ites, residual);
    }
  }

  /** The loop leaves from a state on track: it hands that state back. */
  lemma StoppedSolved(sqrt: real -> real, grid: Grid, key: string, f0: Field, bf: Field, n: nat, m: nat,
                      maxiter: int, tol: real, f: Field, ites: nat, residual: real)
    requires IsShape(f0, n, m) && IsShape(bf, n, m) && IsShape(f, n, m) && grid.dx != 0.0 && grid.dy != 0.0
    requires ites <= maxiter || ites == 0
    requires OnTrack(sqrt, grid, key, f0, bf, n, m, tol, f, ites, residual)
    requires !(ites < maxiter && residual > tol)
    ensures SolvedFrom(sqrt, grid, key, f0, bf, n, m, maxiter, tol, JacobiLoop(sqrt, grid, key, f, bf, n, m, maxiter, tol, ites, residual))
  {
    assert JacobiLoop(sqrt, grid, key, f, bf, n, m, maxiter, tol, ites, residual) == JacobiResult(Filled(f, Done), ites, residual);
  }

  /** A round fills without an exception: the loop hands back what it hands back from the next state. */
  lemma SweptSolved(sqrt: real -> real, grid: Grid, key: string, f0: Field, bf: Field, n: nat, m: nat,
                    maxiter: int, tol: real, f: Field, ites: nat, residual: real, g: Filled)
    requires IsShape(f0, n, m) && IsShape(bf, n, m) && IsShape(f, n, m) && grid.dx != 0.0 && grid.dy != 0.0
    requires ites < maxiter && residual > tol
    requires g == Refill(grid, key, JacobiSweep(f, bf, n, m, grid.dx, grid.dy), n, m) && g.out == Done
    requires SolvedFrom(sqrt, grid, key, f0, bf, n, m, maxiter, tol,
                        JacobiLoop(sqrt, grid, key, g.f, bf, n, m, maxiter, tol, ites + 1, Residual(sqrt, g.f, f, n, m, grid.nx, grid.ny)))
    ensures SolvedFrom(sqrt, grid, key, f0, bf, n, m, maxiter, tol, JacobiLoop(sqrt, grid, key, f, bf, n, m, maxiter, tol, ites, residual))
  {
  }

  /** A round raises from a state on track: the loop hands back that round's fill. */
  lemma FailedRoundSolved(sqrt: real -> real, grid: Grid, key: string, f0: Field, bf: Field, n: nat, m: nat,
                          maxiter: int, tol: real, f: Field, ites: nat, residual: real, g: Filled)
    requires IsShape(f0, n, m) && IsShape(bf, n, m) && IsShape(f, n, m) && grid.dx != 0.0 && grid.dy != 0.0
    requires OnTrack(sqrt, grid, key, f0, bf, n, m, tol, f, ites, residual)
    requires ites < maxiter && residual > tol
    requires g == Refill(grid, key, JacobiSweep(f, bf, n, m, grid.dx, grid.dy), n, m) && g.out != Done
    requires JacobiRounds(grid, key, f0, bf, n, m, ites + 1) == g
    ensures SolvedFrom(sqrt, grid, key, f0, bf, n, m, maxiter, tol, JacobiLoop(sqrt, grid, key, f, bf, n, m, maxiter, tol, ites, residual))
  {
    assert JacobiLoop(sqrt, grid, key, f, bf, n, m, maxiter, tol, ites, residual) == JacobiResult(g, ites, residual);
  }

  /**
   * What `solve_jacobi` hands back: on success the field after `ites` rounds,
   * with the exit condition met and `residual` the one of the last round
   * (`tol + 1` when no round ran); on an exception the field of the failing
   * round `ites + 1`; and every earlier round's residual was above `tol`.
   */
  lemma JacobiSolveSpec(sqrt: real -> real, grid: Grid, key: string, f: Field, bf: Field, n: nat, m: nat, maxiter: int, tol: real)
    requires IsShape(f, n, m) && IsShape(bf, n, m) && grid.dx != 0.0 && grid.dy != 0.0
    ensures SolvedFrom(sqrt, grid, key, f, bf, n, m, maxiter, tol, JacobiSolve(sqrt, grid, key, f, bf, n, m, maxiter, tol))
  {
    JacobiLoopSolves(sqrt, grid, key, f, bf, n, m, maxiter, tol, f, 0, tol + 1.0);
  }

  /** `solve_jacobi`: the sweeps run in place on `phi`; the result is `JacobiSolve` of the initial values. */
  method SolveJacobi(sqrt: real -> real, grid: Grid, ivar: string, phi: array2<real>, b: array2<real>, maxiter: int, tol: real)
    returns (out: Outcome, ites: nat, residual: real)
    requires grid.dx != 0.0 && grid.dy != 0.0 && phi != b
    requires b.Length0 == phi.Length0 && b.Length1 == phi.Length1
    modifies phi
    ensures JacobiResult(Filled(Snapshot(phi), out), ites, residual) ==
      JacobiSolve(sqrt, grid, ivar, old(Snapshot(phi)), Snapshot(b), phi.Length0, phi.Length1, maxiter, tol)
  {
    var n, m := phi.Length0, phi.Length1;
    ghost var F, B := Snapshot(phi), Snapshot(b);
    out := Done;
    ites := 0;
    residual := tol + 1.0;
    while ites < maxiter && residual > tol
      invariant out == Done && Snapshot(b) == B
      invariant JacobiLoop(sqrt, grid, ivar, Snapshot(phi), B, n, m, maxiter, tol, ites, residual) ==
        JacobiSolve(sqrt, grid, ivar, F, B, n, m, maxiter, tol)
      decreases maxiter - ites
    {
      ghost var S := Snapshot(phi);
      var r;
      out, r := JacobiRound(sqrt, grid, ivar, phi, b);
      if out != Done {
        assert JacobiLoop(sqrt, grid, ivar, S, B, n, m, maxiter, tol, ites, residual) == JacobiResult(Filled(Snapshot(phi), out), ites, residual);
        return;
      }
      residual := r;
      ites := ites + 1;
    }
  }
}
