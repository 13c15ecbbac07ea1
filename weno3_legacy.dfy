/**
 * The older WENO3 advection routines (`advectWENO3`, `jit_advectWENO3`,
 * `advect_dynamic_grid`, `advect_solid` of the visco-elastic subroutines).
 * Padding, loop bounds, stencils, smoothness indicators, weights and `eps`
 * are those of the current kernel; the cell update has no mask factor, and
 * `advect_dynamic_grid` computes `lmda >= 0` and `pfl * s` only into locals,
 * so its effect is that of `advect_solid`.
 */
module Weno3Legacy {
  import opened Fields
  import opened Weno3

  /** One step of the older kernel on the original `n` by `m` field: the current scheme with every mask entry 1. */
  function LegacyAdvect(s: Field, u: Field, v: Field, dt: real, dx: real, dy: real, n: nat, m: nat): (r: Field)
    requires AdvectShapes(s, Ones(n, m), u, v, n, m) && dx != 0.0 && dy != 0.0
    ensures IsShape(r, n, m)
  {
    Advect(Reconstruct, s, Ones(n, m), u, v, dt, dx, dy, n, m)
  }

  /** The cell update of `jit_advectWENO3`: `so - dt*(frx*ur - flx*ul)/dx - dt*(fry*vr - fly*vl)/dy`. */
  function UnmaskedUpdate(c: real, frx: real, flx: real, fry: real, fly: real,
                          ul: real, ur: real, vl: real, vr: real, dt: real, dx: real, dy: real): real
    requires dx != 0.0 && dy != 0.0
  {
    c - dt * (frx * ur - flx * ul) / dx - dt * (fry * vr - fly * vl) / dy
  }

  /** With the factor 1 the masked update is the unmasked one. */
  lemma UnitMaskIsUnmasked(c: real, frx: real, flx: real, fry: real, fly: real,
                           ul: real, ur: real, vl: real, vr: real, dt: real, dx: real, dy: real)
    requires dx != 0.0 && dy != 0.0
    ensures FluxUpdate(c, 1.0, frx, flx, fry, fly, ul, ur, vl, vr, dt, dx, dy)
         == UnmaskedUpdate(c, frx, flx, fry, fly, ul, ur, vl, vr, dt, dx, dy)
  {
  }

  /** Every interior cell receives the unmasked flux update over the padded copy, whatever its neighbours. */
  lemma LegacyInterior(s: Field, u: Field, v: Field, dt: real, dx: real, dy: real, n: nat, m: nat, i: int, j: int)
    requires AdvectShapes(s, Ones(n, m), u, v, n, m) && dx != 0.0 && dy != 0.0
    requires Interior(i, j, n, m)
    ensures var P, N, M := Pad(s, n, m), n + 4, m + 4;
      var ul, ur, vl, vr := u[i - 1][j], u[i][j], v[i][j - 1], v[i][j];
      LegacyAdvect(s, u, v, dt, dx, dy, n, m)[i][j] ==
        UnmaskedUpdate(s[i][j],
                       RightX(Reconstruct, P, N, M, i + 2, j + 2, ur), LeftX(Reconstruct, P, N, M, i + 2, j + 2, ul),
                       RightY(Reconstruct, P, N, M, i + 2, j + 2, vr), LeftY(Reconstruct, P, N, M, i + 2, j + 2, vl),
                       ul, ur, vl, vr, dt, dx, dy)
  {
    var P, N, M := Pad(s, n, m), n + 4, m + 4;
    var ul, ur, vl, vr := u[i - 1][j], u[i][j], v[i][j - 1], v[i][j];
    AdvectInterior(Reconstruct, s, Ones(n, m), u, v, dt, dx, dy, n, m, i, j);
    UnitMaskIsUnmasked(s[i][j],
                       RightX(Reconstruct, P, N, M, i + 2, j + 2, ur), LeftX(Reconstruct, P, N, M, i + 2, j + 2, ul),
                       RightY(Reconstruct, P, N, M, i + 2, j + 2, vr), LeftY(Reconstruct, P, N, M, i + 2, j + 2, vl),
                       ul, ur, vl, vr, dt, dx, dy);
  }

  /** Only the interior is copied back, so the outer ring of `s` is returned unchanged. */
  lemma LegacyKeepsRing(s: Field, u: Field, v: Field, dt: real, dx: real, dy: real, n: nat, m: nat, i: int, j: int)
    requires AdvectShapes(s, Ones(n, m), u, v, n, m) && dx != 0.0 && dy != 0.0
    requires 0 <= i < n && 0 <= j < m && !Interior(i, j, n, m)
    ensures LegacyAdvect(s, u, v, dt, dx, dy, n, m)[i][j] == s[i][j]
  {
    AdvectKeepsRing(Reconstruct, s, Ones(n, m), u, v, dt, dx, dy, n, m, i, j);
  }

  /**
   * Without a mask a nonzero constant field survives a nonzero step at an
   * interior cell exactly when the discrete divergence of the face velocities
   * vanishes there.
   */
  lemma LegacyConstantField(c: real, u: Field, v: Field, dt: real, dx: real, dy: real, n: nat, m: nat, i: int, j: int)
    requires AdvectShapes(Const(n, m, c), Ones(n, m), u, v, n, m) && dx != 0.0 && dy != 0.0
    requires Interior(i, j, n, m) && c != 0.0 && dt != 0.0
    ensures LegacyAdvect(Const(n, m, c), u, v, dt, dx, dy, n, m)[i][j] == c <==>
            (u[i][j] - u[i - 1][j]) / dx + (v[i][j] - v[i][j - 1]) / dy == 0.0
  {
    WenoConstantField(c, Ones(n, m), u, v, dt, dx, dy, n, m, i, j);
  }

  /** `advectWENO3(s, u, v, dt, dx, dy, nx, ny)`. */
  method AdvectWeno3Legacy(s: array2<real>, u: array2<real>, v: array2<real>, dt: real, dx: real, dy: real)
    requires s.Length0 >= 3 && s.Length1 >= 3 && dx != 0.0 && dy != 0.0
    requires u.Length0 == s.Length0 - 1 && u.Length1 == s.Length1
    requires v.Length0 == s.Length0 && v.Length1 == s.Length1 - 1
    modifies s
    ensures Snapshot(s) == LegacyAdvect(old(Snapshot(s)), old(Snapshot(u)), old(Snapshot(v)), dt, dx, dy, s.Length0, s.Length1)
  {
    var n, m := s.Length0, s.Length1;
    var ones := new int[n, m]((i, j) => 1);
    FieldExt(Snapshot(ones), Ones(n, m), n, m);
    AdvectWith(Reconstruct, s, ones, u, v, dt, dx, dy);
  }

  /** `advect_solid` of the older routines. */
  method AdvectSolidLegacy(s: array2<real>, u: array2<real>, v: array2<real>, dt: real, dx: real, dy: real)
    requires s.Length0 >= 3 && s.Length1 >= 3 && dx != 0.0 && dy != 0.0
    requires u.Length0 == s.Length0 - 1 && u.Length1 == s.Length1
    requires v.Length0 == s.Length0 && v.Length1 == s.Length1 - 1
    modifies s
    ensures Snapshot(s) == LegacyAdvect(old(Snapshot(s)), old(Snapshot(u)), old(Snapshot(v)), dt, dx, dy, s.Length0, s.Length1)
  {
    AdvectWeno3Legacy(s, u, v, dt, dx, dy);
  }

  /**
   * `advect_dynamic_grid` of the older routines: the mask `lmda >= 0` and the
   * product `pfl * s` are bound to locals and dropped, so the caller's `s`
   * receives the unmasked advection and `lmda` plays no part.
   */
  method AdvectDynamicGridLegacy(lmda: array2<real>, s: array2<real>, u: array2<real>, v: array2<real>,
                                 dt: real, dx: real, dy: real)
    requires s.Length0 >= 3 && s.Length1 >= 3 && dx != 0.0 && dy != 0.0
    requires lmda.Length0 == s.Length0 && lmda.Length1 == s.Length1
    requires u.Length0 == s.Length0 - 1 && u.Length1 == s.Length1
    requires v.Length0 == s.Length0 && v.Length1 == s.Length1 - 1
    modifies s
    ensures Snapshot(s) == LegacyAdvect(old(Snapshot(s)), old(Snapshot(u)), old(Snapshot(v)), dt, dx, dy, s.Length0, s.Length1)
  {
    AdvectWeno3Legacy(s, u, v, dt, dx, dy);
  }
}
