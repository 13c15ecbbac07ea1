/**
 * `constant_extrapolation` of the visco-elastic interface: one pseudo-time
 * step of `ds/dt + n . grad s = 0` with step `dx / 2`, applied only at
 * interior cells where `lmda < 0`, reading the pre-step copy `so`.
 */
module ConstantExtrapolation {
  import opened Fields
  import opened Upwind

  /** The fields the routine reads: `s`, `lmda` and the normal components `u`, `v`, all `n` by `m`. */
  predicate ExtrapShapes(so: Field, lmda: Field, u: Field, v: Field, n: nat, m: nat) {
    IsShape(so, n, m) && IsShape(lmda, n, m) && IsShape(u, n, m) && IsShape(v, n, m)
  }

  /** The pseudo-time step `delta_t = dx / 2`. */
  function PseudoStep(dx: real): real { dx / 2.0 }

  /** The cell update `so + pfl * dt * (-d)` for the upwind derivative `d`. */
  function ConstantCell(so: real, lmda: real, d: real, dx: real): real {
    so + Ind(lmda < 0.0) * PseudoStep(dx) * -d
  }

  /** The new interior values `so + pfl * dt * (-(upwind derivative))` (0 on the ring, which is not written). */
  function ConstantMove(so: Field, lmda: Field, u: Field, v: Field, dx: real, dy: real, n: nat, m: nat): (r: Field)
    requires ExtrapShapes(so, lmda, u, v, n, m) && dx != 0.0 && dy != 0.0
    ensures IsShape(r, n, m)
  {
    seq(n, i requires 0 <= i < n => seq(m, j requires 0 <= j < m =>
      if Interior(i, j, n, m) then
        ConstantCell(so[i][j], lmda[i][j], Derivative(so, u[i][j], v[i][j], dx, dy, n, m, i, j), dx)
      else 0.0))
  }

  /** `s` after one call: the interior takes the new values, the ring keeps `so`. */
  function ConstantStep(so: Field, lmda: Field, u: Field, v: Field, dx: real, dy: real, n: nat, m: nat): (r: Field)
    requires ExtrapShapes(so, lmda, u, v, n, m) && dx != 0.0 && dy != 0.0
    ensures IsShape(r, n, m)
  {
    SetInterior(so, ConstantMove(so, lmda, u, v, dx, dy, n, m), n, m)
  }

  /**
   * Only interior cells with `lmda < 0` change, each by `-(dx/2)` times the
   * upwind derivative along (u, v) there; every other cell, the ring
   * included, keeps its value.
   */
  lemma ConstantStepCell(so: Field, lmda: Field, u: Field, v: Field, dx: real, dy: real, n: nat, m: nat, i: int, j: int)
    requires ExtrapShapes(so, lmda, u, v, n, m) && dx != 0.0 && dy != 0.0
    requires 0 <= i < n && 0 <= j < m
    ensures Interior(i, j, n, m) && lmda[i][j] < 0.0 ==>
      ConstantStep(so, lmda, u, v, dx, dy, n, m)[i][j] == so[i][j] - dx / 2.0 * Derivative(so, u[i][j], v[i][j], dx, dy, n, m, i, j)
    ensures !(Interior(i, j, n, m) && lmda[i][j] < 0.0) ==> ConstantStep(so, lmda, u, v, dx, dy, n, m)[i][j] == so[i][j]
  {
  }

  /** A constant field is a fixed point. */
  lemma {:induction false} ConstantFieldFixed(c: real, lmda: Field, u: Field, v: Field, dx: real, dy: real, n: nat, m: nat)
    requires ExtrapShapes(Const(n, m, c), lmda, u, v, n, m) && dx != 0.0 && dy != 0.0
    ensures ConstantStep(Const(n, m, c), lmda, u, v, dx, dy, n, m) == Const(n, m, c)
  {
    var r := ConstantStep(Const(n, m, c), lmda, u, v, dx, dy, n, m);
    forall i, j | 0 <= i < n && 0 <= j < m
      ensures r[i][j] == c
    {
      if Interior(i, j, n, m) {
        DerivativeOfConstant(c, u[i][j], v[i][j], dx, dy, n, m, i, j);
      }
    }
    FieldExt(r, Const(n, m, c), n, m);
  }

  /** `s` after `k` calls in a row with the same marker and normals (the callers' `extrap_iter` loops). */
  function ConstantRounds(s: Field, lmda: Field, u: Field, v: Field, dx: real, dy: real, n: nat, m: nat, k: nat): (r: Field)
    requires ExtrapShapes(s, lmda, u, v, n, m) && dx != 0.0 && dy != 0.0
    ensures IsShape(r, n, m)
    decreases k
  {
    if k == 0 then s else ConstantStep(ConstantRounds(s, lmda, u, v, dx, dy, n, m, k - 1), lmda, u, v, dx, dy, n, m)
  }

  /** However many rounds run, a ring cell or a cell with `lmda >= 0` keeps its value: only the solid is extrapolated into. */
  lemma {:induction false} ConstantRoundsKeepFluid(s: Field, lmda: Field, u: Field, v: Field, dx: real, dy: real, n: nat, m: nat,
                                                   k: nat, i: int, j: int)
    requires ExtrapShapes(s, lmda, u, v, n, m) && dx != 0.0 && dy != 0.0
    requires 0 <= i < n && 0 <= j < m && !(Interior(i, j, n, m) && lmda[i][j] < 0.0)
    ensures ConstantRounds(s, lmda, u, v, dx, dy, n, m, k)[i][j] == s[i][j]
  {
    if k > 0 {
      ConstantRoundsKeepFluid(s, lmda, u, v, dx, dy, n, m, k - 1, i, j);
      ConstantStepCell(ConstantRounds(s, lmda, u, v, dx, dy, n, m, k - 1), lmda, u, v, dx, dy, n, m, i, j);
    }
  }

  /** A constant field stays constant through any number of rounds. */
  lemma {:induction false} ConstantRoundsOfConstant(c: real, lmda: Field, u: Field, v: Field, dx: real, dy: real, n: nat, m: nat, k: nat)
    requires ExtrapShapes(Const(n, m, c), lmda, u, v, n, m) && dx != 0.0 && dy != 0.0
    ensures ConstantRounds(Const(n, m, c), lmda, u, v, dx, dy, n, m, k) == Const(n, m, c)
  {
    if k > 0 {
      ConstantRoundsOfConstant(c, lmda, u, v, dx, dy, n, m, k - 1);
      ConstantFieldFixed(c, lmda, u, v, dx, dy, n, m);
    }
  }

  /** One cell of the new interior values, read from the arrays. */
  function ConstantMoveAt(lmda: array2<real>, s: array2<real>, u: array2<real>, v: array2<real>, dx: real, dy: real, i: int, j: int): (r: real)
    requires dx != 0.0 && dy != 0.0
    requires lmda.Length0 == s.Length0 && lmda.Length1 == s.Length1
    requires u.Length0 == s.Length0 && u.Length1 == s.Length1
    requires v.Length0 == s.Length0 && v.Length1 == s.Length1
    reads s, lmda, u, v
    ensures 0 <= i < s.Length0 && 0 <= j < s.Length1 ==>
      r == ConstantMove(Snapshot(s), Snapshot(lmda), Snapshot(u), Snapshot(v), dx, dy, s.Length0, s.Length1)[i][j]
  {
    if Interior(i, j, s.Length0, s.Length1) then
      ConstantCell(s[i, j], lmda[i, j],
                   UpwindAt(s[i, j], s[i - 1, j], s[i + 1, j], s[i, j - 1], s[i, j + 1], u[i, j], v[i, j], dx, dy), dx)
    else 0.0
  }

  /** `constant_extrapolation(lmda, s, u, v, dx, dy, nx, ny)` (`nx`, `ny` are not used). */
  method ConstantExtrapolationInPlace(lmda: array2<real>, s: array2<real>, u: array2<real>, v: array2<real>, dx: real, dy: real)
    requires dx != 0.0 && dy != 0.0
    requires lmda.Length0 == s.Length0 && lmda.Length1 == s.Length1
    requires u.Length0 == s.Length0 && u.Length1 == s.Length1
    requires v.Length0 == s.Length0 && v.Length1 == s.Length1
    modifies s
    ensures Snapshot(s) == ConstantStep(old(Snapshot(s)), old(Snapshot(lmda)), old(Snapshot(u)), old(Snapshot(v)), dx, dy, s.Length0, s.Length1)
  {
    var n, m := s.Length0, s.Length1;
    var target := new real[n, m]((i, j) reads s, lmda, u, v => ConstantMoveAt(lmda, s, u, v, dx, dy, i, j));
    FieldExt(Snapshot(target), ConstantMove(Snapshot(s), Snapshot(lmda), Snapshot(u), Snapshot(v), dx, dy, n, m), n, m);
    WriteInterior(s, target);
  }
}
