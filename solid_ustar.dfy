/**
 * `solid_ustar` of the visco-elastic interface: the elastic force of the
 * solid stress is added to the predicted face velocities.  With `N` by `M`
 * cell arrays `xms` (the solid viscosity) and `Tau1..Tau4`, the x-face array
 * `ustr` is `N-1` by `M` and the y-face array `vstr` is `N` by `M-1`; the
 * cells updated are exactly the interiors of these two arrays.  Each
 * increment `dt * B` reads only `xms` and the stress, never a velocity.
 */
module SolidUstar {
  import opened Fields

  /** The face product `(x1 + x2)/2 * (t1 + t2)/2` of an averaged mass and an averaged stress. */
  function FaceProduct(x1: real, x2: real, t1: real, t2: real): real {
    (x1 + x2) / 2.0 * (t1 + t2) / 2.0
  }

  /** `(plus - minus) / d`: the differences over `dx * Re_s`, `2 dy Re_s`, `2 dx Re_s` and `dy * Re_s`. */
  function Quot(plus: real, minus: real, d: real): real
    requires d != 0.0
  {
    (plus - minus) / d
  }

  /** The x-face increment `ustrB` at (i, j). */
  function UForce(xms: Field, t1: Field, t2: Field, re: real, dx: real, dy: real, n: nat, m: nat, i: int, j: int): real
    requires IsShape(xms, n, m) && IsShape(t1, n, m) && IsShape(t2, n, m)
    requires dx * re != 0.0 && dy * re != 0.0 && Interior(i, j, n - 1, m)
  {
    var txplus, txmins := xms[i + 1][j] * t1[i + 1][j], xms[i][j] * t1[i][j];
    var typlus := FaceProduct(xms[i + 1][j + 1], xms[i][j + 1], t2[i + 1][j + 1], t2[i][j + 1]);
    var tymins := FaceProduct(xms[i + 1][j - 1], xms[i][j - 1], t2[i + 1][j - 1], t2[i][j - 1]);
    Quot(txplus, txmins, dx * re) + Quot(typlus, tymins, 2.0 * dy * re)
  }

  /** The y-face increment `vstrB` at (i, j). */
  function VForce(xms: Field, t3: Field, t4: Field, re: real, dx: real, dy: real, n: nat, m: nat, i: int, j: int): real
    requires IsShape(xms, n, m) && IsShape(t3, n, m) && IsShape(t4, n, m)
    requires dx * re != 0.0 && dy * re != 0.0 && Interior(i, j, n, m - 1)
  {
    var txplus := FaceProduct(xms[i + 1][j - 1], xms[i + 1][j], t3[i + 1][j - 1], t3[i + 1][j]);
    var txmins := FaceProduct(xms[i - 1][j - 1], xms[i - 1][j], t3[i - 1][j - 1], t3[i - 1][j]);
    var typlus, tymins := xms[i][j + 1] * t4[i][j + 1], xms[i][j] * t4[i][j];
    Quot(txplus, txmins, 2.0 * dx * re) + Quot(typlus, tymins, dy * re)
  }

  /** `u + B * dt`. */
  function Increment(u: real, b: real, dt: real): real {
    u + b * dt
  }

  /** `ustr` after the first loop nest. */
  function UNext(ustr: Field, xms: Field, t1: Field, t2: Field, re: real, dt: real, dx: real, dy: real, n: nat, m: nat): (r: Field)
    requires n >= 1 && IsShape(ustr, n - 1, m) && IsShape(xms, n, m) && IsShape(t1, n, m) && IsShape(t2, n, m)
    requires dx * re != 0.0 && dy * re != 0.0
    ensures IsShape(r, n - 1, m)
  {
    seq(n - 1, i requires 0 <= i < n - 1 => seq(m, j requires 0 <= j < m =>
      if Interior(i, j, n - 1, m) then Increment(ustr[i][j], UForce(xms, t1, t2, re, dx, dy, n, m, i, j), dt) else ustr[i][j]))
  }

  /** `vstr` after the second loop nest. */
  function VNext(vstr: Field, xms: Field, t3: Field, t4: Field, re: real, dt: real, dx: real, dy: real, n: nat, m: nat): (r: Field)
    requires m >= 1 && IsShape(vstr, n, m - 1) && IsShape(xms, n, m) && IsShape(t3, n, m) && IsShape(t4, n, m)
    requires dx * re != 0.0 && dy * re != 0.0
    ensures IsShape(r, n, m - 1)
  {
    seq(n, i requires 0 <= i < n => seq(m - 1, j requires 0 <= j < m - 1 =>
      if Interior(i, j, n, m - 1) then Increment(vstr[i][j], VForce(xms, t3, t4, re, dx, dy, n, m, i, j), dt) else vstr[i][j]))
  }

  /** Only `ustr[1..nx-3, 1..ny-2]` can change. */
  lemma UNextRegion(ustr: Field, xms: Field, t1: Field, t2: Field, re: real, dt: real, dx: real, dy: real, n: nat, m: nat, i: int, j: int)
    requires n >= 1 && IsShape(ustr, n - 1, m) && IsShape(xms, n, m) && IsShape(t1, n, m) && IsShape(t2, n, m)
    requires dx * re != 0.0 && dy * re != 0.0 && 0 <= i < n - 1 && 0 <= j < m
    requires UNext(ustr, xms, t1, t2, re, dt, dx, dy, n, m)[i][j] != ustr[i][j]
    ensures 1 <= i <= n - 3 && 1 <= j <= m - 2
  {
  }

  /** Only `vstr[1..nx-2, 1..ny-3]` can change. */
  lemma VNextRegion(vstr: Field, xms: Field, t3: Field, t4: Field, re: real, dt: real, dx: real, dy: real, n: nat, m: nat, i: int, j: int)
    requires m >= 1 && IsShape(vstr, n, m - 1) && IsShape(xms, n, m) && IsShape(t3, n, m) && IsShape(t4, n, m)
    requires dx * re != 0.0 && dy * re != 0.0 && 0 <= i < n && 0 <= j < m - 1
    requires VNext(vstr, xms, t3, t4, re, dt, dx, dy, n, m)[i][j] != vstr[i][j]
    ensures 1 <= i <= n - 2 && 1 <= j <= m - 3
  {
  }

  /** Where `xms` is 0 on every cell the x-face stencil reads, the increment is 0. */
  lemma UForceWithoutMass(xms: Field, t1: Field, t2: Field, re: real, dx: real, dy: real, n: nat, m: nat, i: int, j: int)
    requires IsShape(xms, n, m) && IsShape(t1, n, m) && IsShape(t2, n, m)
    requires dx * re != 0.0 && dy * re != 0.0 && Interior(i, j, n - 1, m)
    requires xms[i][j] == 0.0 && xms[i + 1][j] == 0.0
    requires xms[i][j + 1] == 0.0 && xms[i + 1][j + 1] == 0.0 && xms[i][j - 1] == 0.0 && xms[i + 1][j - 1] == 0.0
    ensures UForce(xms, t1, t2, re, dx, dy, n, m, i, j) == 0.0
  {
    assert FaceProduct(0.0, 0.0, t2[i + 1][j + 1], t2[i][j + 1]) == 0.0;
    assert FaceProduct(0.0, 0.0, t2[i + 1][j - 1], t2[i][j - 1]) == 0.0;
  }

  /** Where `xms` is 0 on every cell the y-face stencil reads, the increment is 0. */
  lemma VForceWithoutMass(xms: Field, t3: Field, t4: Field, re: real, dx: real, dy: real, n: nat, m: nat, i: int, j: int)
    requires IsShape(xms, n, m) && IsShape(t3, n, m) && IsShape(t4, n, m)
    requires dx * re != 0.0 && dy * re != 0.0 && Interior(i, j, n, m - 1)
    requires xms[i][j] == 0.0 && xms[i][j + 1] == 0.0
    requires xms[i + 1][j - 1] == 0.0 && xms[i + 1][j] == 0.0 && xms[i - 1][j - 1] == 0.0 && xms[i - 1][j] == 0.0
    ensures VForce(xms, t3, t4, re, dx, dy, n, m, i, j) == 0.0
  {
    assert FaceProduct(0.0, 0.0, t3[i + 1][j - 1], t3[i + 1][j]) == 0.0;
    assert FaceProduct(0.0, 0.0, t3[i - 1][j - 1], t3[i - 1][j]) == 0.0;
  }

  /**
   * Where `xms` and the stress components it multiplies are uniform over the
   * x-face stencil, the increment is 0: a uniform stress exerts no force.
   */
  lemma UForceUniform(xms: Field, t1: Field, t2: Field, re: real, dx: real, dy: real, n: nat, m: nat, i: int, j: int,
                      c: real, a: real, b: real)
    requires IsShape(xms, n, m) && IsShape(t1, n, m) && IsShape(t2, n, m)
    requires dx * re != 0.0 && dy * re != 0.0 && Interior(i, j, n - 1, m)
    requires xms[i][j] == c && xms[i + 1][j] == c
    requires xms[i][j + 1] == c && xms[i + 1][j + 1] == c && xms[i][j - 1] == c && xms[i + 1][j - 1] == c
    requires t1[i][j] == a && t1[i + 1][j] == a
    requires t2[i][j + 1] == b && t2[i + 1][j + 1] == b && t2[i][j - 1] == b && t2[i + 1][j - 1] == b
    ensures UForce(xms, t1, t2, re, dx, dy, n, m, i, j) == 0.0
  {
    assert Quot(c * a, c * a, dx * re) == 0.0;
    assert Quot(FaceProduct(c, c, b, b), FaceProduct(c, c, b, b), 2.0 * dy * re) == 0.0;
  }

  /** Where `xms` and the stress components it multiplies are uniform over the y-face stencil, the increment is 0. */
  lemma VForceUniform(xms: Field, t3: Field, t4: Field, re: real, dx: real, dy: real, n: nat, m: nat, i: int, j: int,
                      c: real, a: real, b: real)
    requires IsShape(xms, n, m) && IsShape(t3, n, m) && IsShape(t4, n, m)
    requires dx * re != 0.0 && dy * re != 0.0 && Interior(i, j, n, m - 1)
    requires xms[i][j] == c && xms[i][j + 1] == c
    requires xms[i + 1][j - 1] == c && xms[i + 1][j] == c && xms[i - 1][j - 1] == c && xms[i - 1][j] == c
    requires t3[i + 1][j - 1] == a && t3[i + 1][j] == a && t3[i - 1][j - 1] == a && t3[i - 1][j] == a
    requires t4[i][j] == b && t4[i][j + 1] == b
    ensures VForce(xms, t3, t4, re, dx, dy, n, m, i, j) == 0.0
  {
    assert Quot(FaceProduct(c, c, a, a), FaceProduct(c, c, a, a), 2.0 * dx * re) == 0.0;
    assert Quot(c * b, c * b, dy * re) == 0.0;
  }

  /** Two increments add up. */
  lemma IncrementAdditive(u: real, b: real, dt1: real, dt2: real)
    ensures Increment(Increment(u, b, dt1), b, dt2) == Increment(u, b, dt1 + dt2)
  {
  }

  /**
   * The increment does not read the velocity, so two calls with steps `dt1`
   * and `dt2` are one call with `dt1 + dt2`.
   */
  lemma {:induction false} UNextAdditive(ustr: Field, xms: Field, t1: Field, t2: Field, re: real, dt1: real, dt2: real,
                                         dx: real, dy: real, n: nat, m: nat)
    requires n >= 1 && IsShape(ustr, n - 1, m) && IsShape(xms, n, m) && IsShape(t1, n, m) && IsShape(t2, n, m)
    requires dx * re != 0.0 && dy * re != 0.0
    ensures UNext(UNext(ustr, xms, t1, t2, re, dt1, dx, dy, n, m), xms, t1, t2, re, dt2, dx, dy, n, m)
         == UNext(ustr, xms, t1, t2, re, dt1 + dt2, dx, dy, n, m)
  {
    var once := UNext(ustr, xms, t1, t2, re, dt1, dx, dy, n, m);
    var twice := UNext(once, xms, t1, t2, re, dt2, dx, dy, n, m);
    var both := UNext(ustr, xms, t1, t2, re, dt1 + dt2, dx, dy, n, m);
    forall i, j | 0 <= i < n - 1 && 0 <= j < m
      ensures twice[i][j] == both[i][j]
    {
      if Interior(i, j, n - 1, m) {
        IncrementAdditive(ustr[i][j], UForce(xms, t1, t2, re, dx, dy, n, m, i, j), dt1, dt2);
      }
    }
    FieldExt(twice, both, n - 1, m);
  }

  /** The same for `vstr`. */
  lemma {:induction false} VNextAdditive(vstr: Field, xms: Field, t3: Field, t4: Field, re: real, dt1: real, dt2: real,
                                         dx: real, dy: real, n: nat, m: nat)
    requires m >= 1 && IsShape(vstr, n, m - 1) && IsShape(xms, n, m) && IsShape(t3, n, m) && IsShape(t4, n, m)
    requires dx * re != 0.0 && dy * re != 0.0
    ensures VNext(VNext(vstr, xms, t3, t4, re, dt1, dx, dy, n, m), xms, t3, t4, re, dt2, dx, dy, n, m)
         == VNext(vstr, xms, t3, t4, re, dt1 + dt2, dx, dy, n, m)
  {
    var once := VNext(vstr, xms, t3, t4, re, dt1, dx, dy, n, m);
    var twice := VNext(once, xms, t3, t4, re, dt2, dx, dy, n, m);
    var both := VNext(vstr, xms, t3, t4, re, dt1 + dt2, dx, dy, n, m);
    forall i, j | 0 <= i < n && 0 <= j < m - 1
      ensures twice[i][j] == both[i][j]
    {
      if Interior(i, j, n, m - 1) {
        IncrementAdditive(vstr[i][j], VForce(xms, t3, t4, re, dx, dy, n, m, i, j), dt1, dt2);
      }
    }
    FieldExt(twice, both, n, m - 1);
  }

  /** A solid with no mass anywhere leaves the velocities as they are. */
  lemma {:induction false} MasslessIsIdentity(ustr: Field, vstr: Field, t1: Field, t2: Field, t3: Field, t4: Field,
                                              re: real, dt: real, dx: real, dy: real, n: nat, m: nat)
    requires n >= 1 && m >= 1 && IsShape(ustr, n - 1, m) && IsShape(vstr, n, m - 1)
    requires IsShape(t1, n, m) && IsShape(t2, n, m) && IsShape(t3, n, m) && IsShape(t4, n, m)
    requires dx * re != 0.0 && dy * re != 0.0
    ensures UNext(ustr, Const(n, m, 0.0), t1, t2, re, dt, dx, dy, n, m) == ustr
    ensures VNext(vstr, Const(n, m, 0.0), t3, t4, re, dt, dx, dy, n, m) == vstr
  {
    var z := Const(n, m, 0.0);
    var u2, v2 := UNext(ustr, z, t1, t2, re, dt, dx, dy, n, m), VNext(vstr, z, t3, t4, re, dt, dx, dy, n, m);
    forall i, j | 0 <= i < n - 1 && 0 <= j < m
      ensures u2[i][j] == ustr[i][j]
    {
      if Interior(i, j, n - 1, m) {
        UForceWithoutMass(z, t1, t2, re, dx, dy, n, m, i, j);
      }
    }
    forall i, j | 0 <= i < n && 0 <= j < m - 1
      ensures v2[i][j] == vstr[i][j]
    {
      if Interior(i, j, n, m - 1) {
        VForceWithoutMass(z, t3, t4, re, dx, dy, n, m, i, j);
      }
    }
    FieldExt(u2, ustr, n - 1, m);
    FieldExt(v2, vstr, n, m - 1);
  }

  /** With every stress buffer 0 the velocities are left as they are, whatever the mass. */
  lemma {:induction false} StresslessIsIdentity(ustr: Field, vstr: Field, xms: Field, re: real, dt: real, dx: real, dy: real,
                                                n: nat, m: nat)
    requires n >= 1 && m >= 1 && IsShape(ustr, n - 1, m) && IsShape(vstr, n, m - 1) && IsShape(xms, n, m)
    requires dx * re != 0.0 && dy * re != 0.0
    ensures UNext(ustr, xms, Const(n, m, 0.0), Const(n, m, 0.0), re, dt, dx, dy, n, m) == ustr
    ensures VNext(vstr, xms, Const(n, m, 0.0), Const(n, m, 0.0), re, dt, dx, dy, n, m) == vstr
  {
    var z := Const(n, m, 0.0);
    var u2, v2 := UNext(ustr, xms, z, z, re, dt, dx, dy, n, m), VNext(vstr, xms, z, z, re, dt, dx, dy, n, m);
    forall i, j | 0 <= i < n - 1 && 0 <= j < m
      ensures u2[i][j] == ustr[i][j]
    {
      if Interior(i, j, n - 1, m) {
        assert FaceProduct(xms[i + 1][j + 1], xms[i][j + 1], 0.0, 0.0) == 0.0;
        assert FaceProduct(xms[i + 1][j - 1], xms[i][j - 1], 0.0, 0.0) == 0.0;
        assert UForce(xms, z, z, re, dx, dy, n, m, i, j) == 0.0;
      }
    }
    forall i, j | 0 <= i < n && 0 <= j < m - 1
      ensures v2[i][j] == vstr[i][j]
    {
      if Interior(i, j, n, m - 1) {
        assert FaceProduct(xms[i + 1][j - 1], xms[i + 1][j], 0.0, 0.0) == 0.0;
        assert FaceProduct(xms[i - 1][j - 1], xms[i - 1][j], 0.0, 0.0) == 0.0;
        assert VForce(xms, z, z, re, dx, dy, n, m, i, j) == 0.0;
      }
    }
    FieldExt(u2, ustr, n - 1, m);
    FieldExt(v2, vstr, n, m - 1);
  }

  /** The arrays of `solid_ustar`: cell arrays `N` by `M`, faces `N-1` by `M` and `N` by `M-1`, the faces distinct from every input. */
  predicate UstarArrays(ustr: array2<real>, vstr: array2<real>, xms: array2<real>, t1: array2<real>, t2: array2<real>,
                        t3: array2<real>, t4: array2<real>, re: real, dx: real, dy: real)
  {
    xms.Length0 >= 3 && xms.Length1 >= 3 && dx * re != 0.0 && dy * re != 0.0 &&
    ustr.Length0 == xms.Length0 - 1 && ustr.Length1 == xms.Length1 &&
    vstr.Length0 == xms.Length0 && vstr.Length1 == xms.Length1 - 1 &&
    t1.Length0 == xms.Length0 && t1.Length1 == xms.Length1 && t2.Length0 == xms.Length0 && t2.Length1 == xms.Length1 &&
    t3.Length0 == xms.Length0 && t3.Length1 == xms.Length1 && t4.Length0 == xms.Length0 && t4.Length1 == xms.Length1 &&
    ustr != vstr && ustr != xms && ustr != t1 && ustr != t2 && ustr != t3 && ustr != t4 &&
    vstr != xms && vstr != t1 && vstr != t2 && vstr != t3 && vstr != t4
  }

  /** `ustrB` at (i, j), read from the arrays. */
  function UForceAt(xms: array2<real>, t1: array2<real>, t2: array2<real>, re: real, dx: real, dy: real, i: int, j: int): (r: real)
    requires xms.Length0 >= 3 && t1.Length0 == xms.Length0 && t1.Length1 == xms.Length1
    requires t2.Length0 == xms.Length0 && t2.Length1 == xms.Length1
    requires dx * re != 0.0 && dy * re != 0.0 && Interior(i, j, xms.Length0 - 1, xms.Length1)
    reads xms, t1, t2
    ensures r == UForce(Snapshot(xms), Snapshot(t1), Snapshot(t2), re, dx, dy, xms.Length0, xms.Length1, i, j)
  {
    var txplus, txmins := xms[i + 1, j] * t1[i + 1, j], xms[i, j] * t1[i, j];
    var typlus := FaceProduct(xms[i + 1, j + 1], xms[i, j + 1], t2[i + 1, j + 1], t2[i, j + 1]);
    var tymins := FaceProduct(xms[i + 1, j - 1], xms[i, j - 1], t2[i + 1, j - 1], t2[i, j - 1]);
    Quot(txplus, txmins, dx * re) + Quot(typlus, tymins, 2.0 * dy * re)
  }

  /** `vstrB` at (i, j), read from the arrays. */
  function VForceAt(xms: array2<real>, t3: array2<real>, t4: array2<real>, re: real, dx: real, dy: real, i: int, j: int): (r: real)
    requires xms.Length1 >= 3 && t3.Length0 == xms.Length0 && t3.Length1 == xms.Length1
    requires t4.Length0 == xms.Length0 && t4.Length1 == xms.Length1
    requires dx * re != 0.0 && dy * re != 0.0 && Interior(i, j, xms.Length0, xms.Length1 - 1)
    reads xms, t3, t4
    ensures r == VForce(Snapshot(xms), Snapshot(t3), Snapshot(t4), re, dx, dy, xms.Length0, xms.Length1, i, j)
  {
    var txplus := FaceProduct(xms[i + 1, j - 1], xms[i + 1, j], t3[i + 1, j - 1], t3[i + 1, j]);
    var txmins := FaceProduct(xms[i - 1, j - 1], xms[i - 1, j], t3[i - 1, j - 1], t3[i - 1, j]);
    var typlus, tymins := xms[i, j + 1] * t4[i, j + 1], xms[i, j] * t4[i, j];
    Quot(txplus, txmins, 2.0 * dx * re) + Quot(typlus, tymins, dy * re)
  }

  /** Cells outside the interior are the same before and after the nest, so the swept result is `UNext`. */
  lemma UNextIsSetInterior(ustr: Field, xms: Field, t1: Field, t2: Field, re: real, dt: real, dx: real, dy: real, n: nat, m: nat)
    requires n >= 1 && IsShape(ustr, n - 1, m) && IsShape(xms, n, m) && IsShape(t1, n, m) && IsShape(t2, n, m)
    requires dx * re != 0.0 && dy * re != 0.0
    ensures SetInterior(ustr, UNext(ustr, xms, t1, t2, re, dt, dx, dy, n, m), n - 1, m) == UNext(ustr, xms, t1, t2, re, dt, dx, dy, n, m)
  {
    FieldExt(SetInterior(ustr, UNext(ustr, xms, t1, t2, re, dt, dx, dy, n, m), n - 1, m), UNext(ustr, xms, t1, t2, re, dt, dx, dy, n, m), n - 1, m);
  }

  lemma VNextIsSetInterior(vstr: Field, xms: Field, t3: Field, t4: Field, re: real, dt: real, dx: real, dy: real, n: nat, m: nat)
    requires m >= 1 && IsShape(vstr, n, m - 1) && IsShape(xms, n, m) && IsShape(t3, n, m) && IsShape(t4, n, m)
    requires dx * re != 0.0 && dy * re != 0.0
    ensures SetInterior(vstr, VNext(vstr, xms, t3, t4, re, dt, dx, dy, n, m), n, m - 1) == VNext(vstr, xms, t3, t4, re, dt, dx, dy, n, m)
  {
    FieldExt(SetInterior(vstr, VNext(vstr, xms, t3, t4, re, dt, dx, dy, n, m), n, m - 1), VNext(vstr, xms, t3, t4, re, dt, dx, dy, n, m), n, m - 1);
  }

  /** One pass of the first loop body: `ustr[i, j] = ustr[i, j] + ustrB * dt`. */
  method UstarCell(ustr: array2<real>, vstr: array2<real>, xms: array2<real>, t1: array2<real>, t2: array2<real>,
                   t3: array2<real>, t4: array2<real>, re: real, dt: real, dx: real, dy: real, i: int, j: int, ghost U0: Field)
    requires UstarArrays(ustr, vstr, xms, t1, t2, t3, t4, re, dx, dy) && Interior(i, j, ustr.Length0, ustr.Length1)
    requires IsShape(U0, ustr.Length0, ustr.Length1)
    requires Snapshot(ustr) == SweptPrefix(U0, UNext(U0, Snapshot(xms), Snapshot(t1), Snapshot(t2), re, dt, dx, dy, xms.Length0, xms.Length1),
                                           ustr.Length0, ustr.Length1, i, j)
    modifies ustr
    ensures Snapshot(ustr) == SweptPrefix(U0, UNext(U0, Snapshot(xms), Snapshot(t1), Snapshot(t2), re, dt, dx, dy, xms.Length0, xms.Length1),
                                          ustr.Length0, ustr.Length1, i, j + 1)
  {
    ghost var G := UNext(U0, Snapshot(xms), Snapshot(t1), Snapshot(t2), re, dt, dx, dy, xms.Length0, xms.Length1);
    assert ustr[i, j] == U0[i][j];
    SetCellInPlace(ustr, i, j, Increment(ustr[i, j], UForceAt(xms, t1, t2, re, dx, dy, i, j), dt));
    SweptStep(U0, G, ustr.Length0, ustr.Length1, i, j);
  }

  /** One pass of the second loop body: `vstr[i, j] = vstr[i, j] + vstrB * dt`. */
  method VstarCell(ustr: array2<real>, vstr: array2<real>, xms: array2<real>, t1: array2<real>, t2: array2<real>,
                   t3: array2<real>, t4: array2<real>, re: real, dt: real, dx: real, dy: real, i: int, j: int, ghost V0: Field)
    requires UstarArrays(ustr, vstr, xms, t1, t2, t3, t4, re, dx, dy) && Interior(i, j, vstr.Length0, vstr.Length1)
    requires IsShape(V0, vstr.Length0, vstr.Length1)
    requires Snapshot(vstr) == SweptPrefix(V0, VNext(V0, Snapshot(xms), Snapshot(t3), Snapshot(t4), re, dt, dx, dy, xms.Length0, xms.Length1),
                                           vstr.Length0, vstr.Length1, i, j)
    modifies vstr
    ensures Snapshot(vstr) == SweptPrefix(V0, VNext(V0, Snapshot(xms), Snapshot(t3), Snapshot(t4), re, dt, dx, dy, xms.Length0, xms.Length1),
                                          vstr.Length0, vstr.Length1, i, j + 1)
  {
    ghost var G := VNext(V0, Snapshot(xms), Snapshot(t3), Snapshot(t4), re, dt, dx, dy, xms.Length0, xms.Length1);
    assert vstr[i, j] == V0[i][j];
    SetCellInPlace(vstr, i, j, Increment(vstr[i, j], VForceAt(xms, t3, t4, re, dx, dy, i, j), dt));
    SweptStep(V0, G, vstr.Length0, vstr.Length1, i, j);
  }

  /** Row `i` of the first loop nest. */
  method UstarRow(ustr: array2<real>, vstr: array2<real>, xms: array2<real>, t1: array2<real>, t2: array2<real>,
                  t3: array2<real>, t4: array2<real>, re: real, dt: real, dx: real, dy: real, i: int, ghost U0: Field)
    requires UstarArrays(ustr, vstr, xms, t1, t2, t3, t4, re, dx, dy) && 1 <= i < ustr.Length0 - 1
    requires IsShape(U0, ustr.Length0, ustr.Length1)
    requires Snapshot(ustr) == SweptPrefix(U0, UNext(U0, Snapshot(xms), Snapshot(t1), Snapshot(t2), re, dt, dx, dy, xms.Length0, xms.Length1),
                                         ustr.Length0, ustr.Length1, i, 1)
    modifies ustr
    ensures Snapshot(ustr) == SweptPrefix(U0, UNext(U0, Snapshot(xms), Snapshot(t1), Snapshot(t2), re, dt, dx, dy, xms.Length0, xms.Length1),
                                        ustr.Length0, ustr.Length1, i + 1, 1)
  {
    ghost var G := UNext(U0, Snapshot(xms), Snapshot(t1), Snapshot(t2), re, dt, dx, dy, xms.Length0, xms.Length1);
    for j := 1 to ustr.Length1 - 1
      invariant Snapshot(ustr) == SweptPrefix(U0, G, ustr.Length0, ustr.Length1, i, j)
    {
      UstarCell(ustr, vstr, xms, t1, t2, t3, t4, re, dt, dx, dy, i, j, U0);
    }
    SweptRow(U0, G, ustr.Length0, ustr.Length1, i);
  }

  /** The first loop nest, over `i in 1..nx-3`, `j in 1..ny-2`. */
  method UstarLoops(ustr: array2<real>, vstr: array2<real>, xms: array2<real>, t1: array2<real>, t2: array2<real>,
                    t3: array2<real>, t4: array2<real>, re: real, dt: real, dx: real, dy: real)
    requires UstarArrays(ustr, vstr, xms, t1, t2, t3, t4, re, dx, dy)
    modifies ustr
    ensures Snapshot(ustr) == UNext(old(Snapshot(ustr)), Snapshot(xms), Snapshot(t1), Snapshot(t2), re, dt, dx, dy, xms.Length0, xms.Length1)
  {
    var n, m := xms.Length0, xms.Length1;
    ghost var U0 := Snapshot(ustr);
    ghost var G := UNext(U0, Snapshot(xms), Snapshot(t1), Snapshot(t2), re, dt, dx, dy, n, m);
    SweptStart(U0, G, n - 1, m);
    for i := 1 to ustr.Length0 - 1
      invariant Snapshot(ustr) == SweptPrefix(U0, G, n - 1, m, i, 1)
    {
      UstarRow(ustr, vstr, xms, t1, t2, t3, t4, re, dt, dx, dy, i, U0);
    }
    SweptAll(U0, G, n - 1, m);
    UNextIsSetInterior(U0, Snapshot(xms), Snapshot(t1), Snapshot(t2), re, dt, dx, dy, n, m);
  }

  /** Row `i` of the second loop nest. */
  method VstarRow(ustr: array2<real>, vstr: array2<real>, xms: array2<real>, t1: array2<real>, t2: array2<real>,
                  t3: array2<real>, t4: array2<real>, re: real, dt: real, dx: real, dy: real, i: int, ghost V0: Field)
    requires UstarArrays(ustr, vstr, xms, t1, t2, t3, t4, re, dx, dy) && 1 <= i < vstr.Length0 - 1
    requires IsShape(V0, vstr.Length0, vstr.Length1)
    requires Snapshot(vstr) == SweptPrefix(V0, VNext(V0, Snapshot(xms), Snapshot(t3), Snapshot(t4), re, dt, dx, dy, xms.Length0, xms.Length1),
                                         vstr.Length0, vstr.Length1, i, 1)
    modifies vstr
    ensures Snapshot(vstr) == SweptPrefix(V0, VNext(V0, Snapshot(xms), Snapshot(t3), Snapshot(t4), re, dt, dx, dy, xms.Length0, xms.Length1),
                                        vstr.Length0, vstr.Length1, i + 1, 1)
  {
    ghost var G := VNext(V0, Snapshot(xms), Snapshot(t3), Snapshot(t4), re, dt, dx, dy, xms.Length0, xms.Length1);
    for j := 1 to vstr.Length1 - 1
      invariant Snapshot(vstr) == SweptPrefix(V0, G, vstr.Length0, vstr.Length1, i, j)
    {
      VstarCell(ustr, vstr, xms, t1, t2, t3, t4, re, dt, dx, dy, i, j, V0);
    }
    SweptRow(V0, G, vstr.Length0, vstr.Length1, i);
  }

  /** The second loop nest, over `i in 1..nx-2`, `j in 1..ny-3`. */
  method VstarLoops(ustr: array2<real>, vstr: array2<real>, xms: array2<real>, t1: array2<real>, t2: array2<real>,
                    t3: array2<real>, t4: array2<real>, re: real, dt: real, dx: real, dy: real)
    requires UstarArrays(ustr, vstr, xms, t1, t2, t3, t4, re, dx, dy)
    modifies vstr
    ensures Snapshot(vstr) == VNext(old(Snapshot(vstr)), Snapshot(xms), Snapshot(t3), Snapshot(t4), re, dt, dx, dy, xms.Length0, xms.Length1)
  {
    var n, m := xms.Length0, xms.Length1;
    ghost var V0 := Snapshot(vstr);
    ghost var G := VNext(V0, Snapshot(xms), Snapshot(t3), Snapshot(t4), re, dt, dx, dy, n, m);
    SweptStart(V0, G, n, m - 1);
    for i := 1 to vstr.Length0 - 1
      invariant Snapshot(vstr) == SweptPrefix(V0, G, n, m - 1, i, 1)
    {
      VstarRow(ustr, vstr, xms, t1, t2, t3, t4, re, dt, dx, dy, i, V0);
    }
    SweptAll(V0, G, n, m - 1);
    VNextIsSetInterior(V0, Snapshot(xms), Snapshot(t3), Snapshot(t4), re, dt, dx, dy, n, m);
  }

  /** `solid_ustar(ustr, vstr, xms, Tau1, Tau2, Tau3, Tau4, Re_s, dt, dx, dy, nx, ny)`. */
  method SolidUstarInPlace(ustr: array2<real>, vstr: array2<real>, xms: array2<real>, t1: array2<real>, t2: array2<real>,
                           t3: array2<real>, t4: array2<real>, re: real, dt: real, dx: real, dy: real)
    requires UstarArrays(ustr, vstr, xms, t1, t2, t3, t4, re, dx, dy)
    modifies ustr, vstr
    ensures Snapshot(ustr) == UNext(old(Snapshot(ustr)), Snapshot(xms), Snapshot(t1), Snapshot(t2), re, dt, dx, dy, xms.Length0, xms.Length1)
    ensures Snapshot(vstr) == VNext(old(Snapshot(vstr)), Snapshot(xms), Snapshot(t3), Snapshot(t4), re, dt, dx, dy, xms.Length0, xms.Length1)
  {
    UstarLoops(ustr, vstr, xms, t1, t2, t3, t4, re, dt, dx, dy);
    VstarLoops(ustr, vstr, xms, t1, t2, t3, t4, re, dt, dx, dy);
  }
}
