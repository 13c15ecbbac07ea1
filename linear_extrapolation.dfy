/**
 * `linear_extrapolation` of the visco-elastic subroutines: one pseudo-time
 * step of `ds/dt + n . grad s = sn` with step `dx / 2`, applied only at
 * interior cells where `lmda < 0`, reading the pre-step copy `so`.
 */
module LinearExtrapolation {
  import opened Fields
  import opened Upwind
  import opened ConstantExtrapolation

  /** The cell update `so + pfl * dt * (sn - d)` for the upwind derivative `d`. */
  function LinearCell(so: real, sn: real, lmda: real, d: real, dx: real): real {
    so + Ind(lmda < 0.0) * PseudoStep(dx) * (sn - d)
  }

  /** The new interior values `so + pfl * dt * (sn - (upwind derivative))` (0 on the ring, which is not written). */
  function LinearMove(so: Field, sn: Field, lmda: Field, u: Field, v: Field, dx: real, dy: real, n: nat, m: nat): (r: Field)
    requires ExtrapShapes(so, lmda, u, v, n, m) && IsShape(sn, n, m) && dx != 0.0 && dy != 0.0
    ensures IsShape(r, n, m)
  {
    seq(n, i requires 0 <= i < n => seq(m, j requires 0 <= j < m =>
      if Interior(i, j, n, m) then
        LinearCell(so[i][j], sn[i][j], lmda[i][j], Derivative(so, u[i][j], v[i][j], dx, dy, n, m, i, j), dx)
      else 0.0))
  }

  /** `s` after one call: the interior takes the new values, the ring keeps `so`. */
  function LinearStep(so: Field, sn: Field, lmda: Field, u: Field, v: Field, dx: real, dy: real, n: nat, m: nat): (r: Field)
    requires ExtrapShapes(so, lmda, u, v, n, m) && IsShape(sn, n, m) && dx != 0.0 && dy != 0.0
    ensures IsShape(r, n, m)
  {
    SetInterior(so, LinearMove(so, sn, lmda, u, v, dx, dy, n, m), n, m)
  }

  /**
   * Only interior cells with `lmda < 0` change, each by `dx/2` times the
   * difference of `sn` and the upwind derivative; every other cell keeps its value.
   */
  lemma LinearStepCell(so: Field, sn: Field, lmda: Field, u: Field, v: Field, dx: real, dy: real, n: nat, m: nat, i: int, j: int)
    requires ExtrapShapes(so, lmda, u, v, n, m) && IsShape(sn, n, m) && dx != 0.0 && dy != 0.0
    requires 0 <= i < n && 0 <= j < m
    ensures Interior(i, j, n, m) && lmda[i][j] < 0.0 ==>
      LinearStep(so, sn, lmda, u, v, dx, dy, n, m)[i][j] ==
        so[i][j] + dx / 2.0 * (sn[i][j] - Derivative(so, u[i][j], v[i][j], dx, dy, n, m, i, j))
    ensures !(Interior(i, j, n, m) && lmda[i][j] < 0.0) ==> LinearStep(so, sn, lmda, u, v, dx, dy, n, m)[i][j] == so[i][j]
  {
  }

  /** A cell where `sn` equals the upwind derivative of `so` keeps its value. */
  lemma LinearFixedCell(so: Field, sn: Field, lmda: Field, u: Field, v: Field, dx: real, dy: real, n: nat, m: nat, i: int, j: int)
    requires ExtrapShapes(so, lmda, u, v, n, m) && IsShape(sn, n, m) && dx != 0.0 && dy != 0.0
    requires Interior(i, j, n, m) && sn[i][j] == Derivative(so, u[i][j], v[i][j], dx, dy, n, m, i, j)
    ensures LinearStep(so, sn, lmda, u, v, dx, dy, n, m)[i][j] == so[i][j]
  {
  }

  /** With `sn` identically 0 the step is the constant-extrapolation step. */
  lemma {:induction false} LinearWithZeroSlope(so: Field, lmda: Field, u: Field, v: Field, dx: real, dy: real, n: nat, m: nat)
    requires ExtrapShapes(so, lmda, u, v, n, m) && dx != 0.0 && dy != 0.0
    ensures LinearStep(so, Const(n, m, 0.0), lmda, u, v, dx, dy, n, m) == ConstantStep(so, lmda, u, v, dx, dy, n, m)
  {
    var l, c := LinearStep(so, Const(n, m, 0.0), lmda, u, v, dx, dy, n, m), ConstantStep(so, lmda, u, v, dx, dy, n, m);
    forall i, j | 0 <= i < n && 0 <= j < m
      ensures l[i][j] == c[i][j]
    {
      if Interior(i, j, n, m) {
        var d := Derivative(so, u[i][j], v[i][j], dx, dy, n, m, i, j);
        assert 0.0 - d == -d;
      }
    }
    FieldExt(l, c, n, m);
  }

  /** One cell of the new interior values, read from the arrays. */
  function LinearMoveAt(lmda: array2<real>, s: array2<real>, sn: array2<real>, u: array2<real>, v: array2<real>,
                        dx: real, dy: real, i: int, j: int): (r: real)
    requires dx != 0.0 && dy != 0.0
    requires lmda.Length0 == s.Length0 && lmda.Length1 == s.Length1
    requires sn.Length0 == s.Length0 && sn.Length1 == s.Length1
    requires u.Length0 == s.Length0 && u.Length1 == s.Length1
    requires v.Length0 == s.Length0 && v.Length1 == s.Length1
    reads s, sn, lmda, u, v
    ensures 0 <= i < s.Length0 && 0 <= j < s.Length1 ==>
      r == LinearMove(Snapshot(s), Snapshot(sn), Snapshot(lmda), Snapshot(u), Snapshot(v), dx, dy, s.Length0, s.Length1)[i][j]
  {
    if Interior(i, j, s.Length0, s.Length1) then
      LinearCell(s[i, j], sn[i, j], lmda[i, j],
                 UpwindAt(s[i, j], s[i - 1, j], s[i + 1, j], s[i, j - 1], s[i, j + 1], u[i, j], v[i, j], dx, dy), dx)
    else 0.0
  }

  /** `linear_extrapolation(lmda, s, sn, u, v, dx, dy, nx, ny)` (`nx`, `ny` are not used). */
  method LinearExtrapolationInPlace(lmda: array2<real>, s: array2<real>, sn: array2<real>, u: array2<real>, v: array2<real>,
                                    dx: real, dy: real)
    requires dx != 0.0 && dy != 0.0
    requires lmda.Length0 == s.Length0 && lmda.Length1 == s.Length1
    requires sn.Length0 == s.Length0 && sn.Length1 == s.Length1
    requires u.Length0 == s.Length0 && u.Length1 == s.Length1
    requires v.Length0 == s.Length0 && v.Length1 == s.Length1
    modifies s
    ensures Snapshot(s) == LinearStep(old(Snapshot(s)), old(Snapshot(sn)), old(Snapshot(lmda)), old(Snapshot(u)), old(Snapshot(v)),
                                      dx, dy, s.Length0, s.Length1)
  {
    var n, m := s.Length0, s.Length1;
    var target := new real[n, m]((i, j) reads s, sn, lmda, u, v => LinearMoveAt(lmda, s, sn, u, v, dx, dy, i, j));
    FieldExt(Snapshot(target), LinearMove(Snapshot(s), Snapshot(sn), Snapshot(lmda), Snapshot(u), Snapshot(v), dx, dy, n, m), n, m);
    WriteInterior(s, target);
  }
}
