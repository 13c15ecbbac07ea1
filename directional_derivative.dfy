/**
 * `directional_derivative` (archived visco-elastic interface): the upwind
 * derivative of `so` along the normal field (adfx, adfy), written into the
 * interior of `ddsn`, after which the boundary rows and then the boundary
 * columns of `ddsn` are copied from their inner neighbours.  The mask
 * `lmda >= 0` is computed but never used.
 */
module DirectionalDerivative {
  import opened Fields
  import opened Upwind

  /** The shapes the routine works on: every field is `n` by `m`. */
  predicate DdsnShapes(so: Field, adfx: Field, adfy: Field, n: nat, m: nat) {
    n >= 3 && m >= 3 && IsShape(so, n, m) && IsShape(adfx, n, m) && IsShape(adfy, n, m)
  }

  /** The upwind derivative at each interior cell along the normal stored at that cell (0 on the ring). */
  function InteriorDerivative(so: Field, adfx: Field, adfy: Field, dx: real, dy: real, n: nat, m: nat): (r: Field)
    requires DdsnShapes(so, adfx, adfy, n, m) && dx != 0.0 && dy != 0.0
    ensures IsShape(r, n, m)
  {
    seq(n, i requires 0 <= i < n => seq(m, j requires 0 <= j < m =>
      if Interior(i, j, n, m) then Derivative(so, adfx[i][j], adfy[i][j], dx, dy, n, m, i, j) else 0.0))
  }

  /** What `ddsn` holds on return: each cell takes the interior derivative of its clamped cell. */
  function Ddsn(so: Field, adfx: Field, adfy: Field, dx: real, dy: real, n: nat, m: nat): (r: Field)
    requires DdsnShapes(so, adfx, adfy, n, m) && dx != 0.0 && dy != 0.0
    ensures IsShape(r, n, m)
  {
    var d := InteriorDerivative(so, adfx, adfy, dx, dy, n, m);
    seq(n, i requires 0 <= i < n => seq(m, j requires 0 <= j < m => d[Clamp(i, n)][Clamp(j, m)]))
  }

  /** Every cell of `ddsn` is the upwind derivative of `so` at an interior cell: its own, or the nearest one on a diagonal or a line. */
  lemma DdsnAtCell(so: Field, adfx: Field, adfy: Field, dx: real, dy: real, n: nat, m: nat, i: int, j: int)
    requires DdsnShapes(so, adfx, adfy, n, m) && dx != 0.0 && dy != 0.0
    requires 0 <= i < n && 0 <= j < m
    ensures var ci, cj := Clamp(i, n), Clamp(j, m);
      Interior(ci, cj, n, m) &&
      Ddsn(so, adfx, adfy, dx, dy, n, m)[i][j] == Derivative(so, adfx[ci][cj], adfy[ci][cj], dx, dy, n, m, ci, cj)
    ensures Interior(i, j, n, m) ==> Clamp(i, n) == i && Clamp(j, m) == j
  {
  }

  /** The boundary rows and columns repeat their inner neighbours; a corner repeats the diagonal interior cell. */
  lemma DdsnBoundaryCopies(so: Field, adfx: Field, adfy: Field, dx: real, dy: real, n: nat, m: nat)
    requires DdsnShapes(so, adfx, adfy, n, m) && dx != 0.0 && dy != 0.0
    ensures var d := Ddsn(so, adfx, adfy, dx, dy, n, m);
      (forall j :: 1 <= j < m - 1 ==> d[0][j] == d[1][j] && d[n - 1][j] == d[n - 2][j]) &&
      (forall i :: 1 <= i < n - 1 ==> d[i][0] == d[i][1] && d[i][m - 1] == d[i][m - 2]) &&
      d[0][0] == d[1][1] && d[0][m - 1] == d[1][m - 2] && d[n - 1][0] == d[n - 2][1] && d[n - 1][m - 1] == d[n - 2][m - 2]
  {
    assert Clamp(1, n) == 1 && Clamp(n - 2, n) == n - 2 && Clamp(1, m) == 1 && Clamp(m - 2, m) == m - 2;
  }

  /** A constant `so` gives `ddsn` identically 0. */
  lemma {:induction false} DdsnOfConstant(c: real, adfx: Field, adfy: Field, dx: real, dy: real, n: nat, m: nat)
    requires DdsnShapes(Const(n, m, c), adfx, adfy, n, m) && dx != 0.0 && dy != 0.0
    ensures Ddsn(Const(n, m, c), adfx, adfy, dx, dy, n, m) == Const(n, m, 0.0)
  {
    var d := Ddsn(Const(n, m, c), adfx, adfy, dx, dy, n, m);
    forall i, j | 0 <= i < n && 0 <= j < m
      ensures d[i][j] == 0.0
    {
      DdsnAtCell(Const(n, m, c), adfx, adfy, dx, dy, n, m, i, j);
      DerivativeOfConstant(c, adfx[Clamp(i, n)][Clamp(j, m)], adfy[Clamp(i, n)][Clamp(j, m)], dx, dy, n, m, Clamp(i, n), Clamp(j, m));
    }
    FieldExt(d, Const(n, m, 0.0), n, m);
  }

  /** `ddsn` is linear in `so`. */
  lemma {:induction false} DdsnLinear(f: Field, g: Field, alpha: real, beta: real, adfx: Field, adfy: Field,
                                      dx: real, dy: real, n: nat, m: nat)
    requires DdsnShapes(f, adfx, adfy, n, m) && IsShape(g, n, m) && dx != 0.0 && dy != 0.0
    ensures Ddsn(Combine(f, g, alpha, beta, n, m), adfx, adfy, dx, dy, n, m)
         == Combine(Ddsn(f, adfx, adfy, dx, dy, n, m), Ddsn(g, adfx, adfy, dx, dy, n, m), alpha, beta, n, m)
  {
    var h := Combine(f, g, alpha, beta, n, m);
    var dh, df, dg := Ddsn(h, adfx, adfy, dx, dy, n, m), Ddsn(f, adfx, adfy, dx, dy, n, m), Ddsn(g, adfx, adfy, dx, dy, n, m);
    var r := Combine(df, dg, alpha, beta, n, m);
    forall i, j | 0 <= i < n && 0 <= j < m
      ensures dh[i][j] == r[i][j]
    {
      var ci, cj := Clamp(i, n), Clamp(j, m);
      DdsnAtCell(h, adfx, adfy, dx, dy, n, m, i, j);
      DdsnAtCell(f, adfx, adfy, dx, dy, n, m, i, j);
      DdsnAtCell(g, adfx, adfy, dx, dy, n, m, i, j);
      DerivativeLinear(f, g, alpha, beta, adfx[ci][cj], adfy[ci][cj], dx, dy, n, m, ci, cj);
    }
    FieldExt(dh, r, n, m);
  }

  /** One cell of the interior derivative, read from the arrays. */
  function InteriorDerivativeAt(so: array2<real>, adfx: array2<real>, adfy: array2<real>, dx: real, dy: real, i: int, j: int): (r: real)
    requires so.Length0 >= 3 && so.Length1 >= 3 && dx != 0.0 && dy != 0.0
    requires adfx.Length0 == so.Length0 && adfx.Length1 == so.Length1
    requires adfy.Length0 == so.Length0 && adfy.Length1 == so.Length1
    reads so, adfx, adfy
    ensures 0 <= i < so.Length0 && 0 <= j < so.Length1 ==>
      r == InteriorDerivative(Snapshot(so), Snapshot(adfx), Snapshot(adfy), dx, dy, so.Length0, so.Length1)[i][j]
  {
    if Interior(i, j, so.Length0, so.Length1) then
      UpwindAt(so[i, j], so[i - 1, j], so[i + 1, j], so[i, j - 1], so[i, j + 1], adfx[i, j], adfy[i, j], dx, dy)
    else 0.0
  }

  /** `directional_derivative(lmda, so, ddsn, adfx, adfy, dx, dy, nx, ny)` (`nx`, `ny` are not used). */
  method DirectionalDerivativeInPlace(lmda: array2<real>, so: array2<real>, ddsn: array2<real>,
                                      adfx: array2<real>, adfy: array2<real>, dx: real, dy: real)
    requires ddsn.Length0 >= 3 && ddsn.Length1 >= 3 && dx != 0.0 && dy != 0.0
    requires so.Length0 == ddsn.Length0 && so.Length1 == ddsn.Length1
    requires adfx.Length0 == ddsn.Length0 && adfx.Length1 == ddsn.Length1
    requires adfy.Length0 == ddsn.Length0 && adfy.Length1 == ddsn.Length1
    modifies ddsn
    ensures Snapshot(ddsn) == Ddsn(old(Snapshot(so)), old(Snapshot(adfx)), old(Snapshot(adfy)), dx, dy, ddsn.Length0, ddsn.Length1)
  {
    var n, m := ddsn.Length0, ddsn.Length1;
    var rhs := new real[n, m]((i, j) reads so, adfx, adfy => InteriorDerivativeAt(so, adfx, adfy, dx, dy, i, j));
    ghost var S, A, B := Snapshot(so), Snapshot(adfx), Snapshot(adfy);
    FieldExt(Snapshot(rhs), InteriorDerivative(S, A, B, dx, dy, n, m), n, m);
    ghost var R := Snapshot(rhs);
    WriteInterior(ddsn, rhs);
    CopyBoundaryInPlace(ddsn);
    ghost var d0 := old(Snapshot(ddsn));
    forall i, j | 0 <= i < n && 0 <= j < m
      ensures CopyBoundary(SetInterior(d0, R, n, m), n, m)[i][j] == Ddsn(S, A, B, dx, dy, n, m)[i][j]
    {
      CopyBoundaryOfInterior(d0, R, n, m, i, j);
    }
    FieldExt(Snapshot(ddsn), Ddsn(S, A, B, dx, dy, n, m), n, m);
  }
}
