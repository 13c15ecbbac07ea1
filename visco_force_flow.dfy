/**
 * The visco-elastic `force_flow` step. The stress of the solid's reference
 * map (lmx, lmy) is computed into four fresh buffers. The buffers are
 * extrapolated into the solid along the interface normals of `phi`. Their
 * divergence, weighted by the solid viscosity `xmus`, is then added to the
 * face velocities `u`, `v`. All arrays are the solver's transposed views,
 * indexed [x, y].
 */
module ViscoForceFlow {
  import opened Fields
  import opened SolidStress
  import opened NormalVector
  import opened ConstantExtrapolation
  import opened SolidUstar

  /** What `force_flow` reads: cell fields `n` by `m` with `n, m >= 3`, faces `n-1` by `m` and `n` by `m-1`, nonzero spacing. */
  predicate Shapes(phi: Field, lmx: Field, lmy: Field, xmus: Field, u: Field, v: Field, re: real, dx: real, dy: real, n: nat, m: nat) {
    n >= 3 && m >= 3 && IsShape(phi, n, m) && IsShape(lmx, n, m) && IsShape(lmy, n, m) && IsShape(xmus, n, m) &&
    IsShape(u, n - 1, m) && IsShape(v, n, m - 1) && dx != 0.0 && dy != 0.0 && dx * re != 0.0 && dy * re != 0.0
  }

  /** Stress buffer `k` after `iter` extrapolation rounds along the normals of `phi`, written into fresh zero arrays. */
  function StressTerm(sqrt: real -> real, phi: Field, lmx: Field, lmy: Field, dx: real, dy: real, n: nat, m: nat,
                      iter: nat, k: int): (r: Field)
    requires n >= 3 && m >= 3 && IsShape(phi, n, m) && IsShape(lmx, n, m) && IsShape(lmy, n, m) && dx != 0.0 && dy != 0.0
    requires NonFlat(sqrt, phi, dx, dy, n, m)
    ensures IsShape(r, n, m)
  {
    var z := Const(n, m, 0.0);
    ConstantRounds(Tau(lmx, lmy, dx, dy, n, m, k), phi, NormalX(sqrt, phi, z, dx, dy, n, m), NormalY(sqrt, phi, z, dx, dy, n, m),
                   dx, dy, n, m, iter)
  }

  /** `u` on return. */
  function ForcedU(sqrt: real -> real, phi: Field, lmx: Field, lmy: Field, xmus: Field, u: Field, v: Field,
                   re: real, dt: real, dx: real, dy: real, n: nat, m: nat, iter: nat): (r: Field)
    requires Shapes(phi, lmx, lmy, xmus, u, v, re, dx, dy, n, m) && NonFlat(sqrt, phi, dx, dy, n, m)
    ensures IsShape(r, n - 1, m)
  {
    UNext(u, xmus, StressTerm(sqrt, phi, lmx, lmy, dx, dy, n, m, iter, 1), StressTerm(sqrt, phi, lmx, lmy, dx, dy, n, m, iter, 2),
          re, dt, dx, dy, n, m)
  }

  /** `v` on return. */
  function ForcedV(sqrt: real -> real, phi: Field, lmx: Field, lmy: Field, xmus: Field, u: Field, v: Field,
                   re: real, dt: real, dx: real, dy: real, n: nat, m: nat, iter: nat): (r: Field)
    requires Shapes(phi, lmx, lmy, xmus, u, v, re, dx, dy, n, m) && NonFlat(sqrt, phi, dx, dy, n, m)
    ensures IsShape(r, n, m - 1)
  {
    VNext(v, xmus, StressTerm(sqrt, phi, lmx, lmy, dx, dy, n, m, iter, 3), StressTerm(sqrt, phi, lmx, lmy, dx, dy, n, m, iter, 4),
          re, dt, dx, dy, n, m)
  }

  /** Outside the solid and on the outer ring, the extrapolated buffers hold the stress of the reference map itself. */
  lemma StressKeptOutsideSolid(sqrt: real -> real, phi: Field, lmx: Field, lmy: Field, dx: real, dy: real, n: nat, m: nat,
                               iter: nat, k: int, i: int, j: int)
    requires n >= 3 && m >= 3 && IsShape(phi, n, m) && IsShape(lmx, n, m) && IsShape(lmy, n, m) && dx != 0.0 && dy != 0.0
    requires NonFlat(sqrt, phi, dx, dy, n, m)
    requires 0 <= i < n && 0 <= j < m && !(Interior(i, j, n, m) && phi[i][j] < 0.0)
    ensures StressTerm(sqrt, phi, lmx, lmy, dx, dy, n, m, iter, k)[i][j] == Tau(lmx, lmy, dx, dy, n, m, k)[i][j]
  {
    var z := Const(n, m, 0.0);
    ConstantRoundsKeepFluid(Tau(lmx, lmy, dx, dy, n, m, k), phi, NormalX(sqrt, phi, z, dx, dy, n, m),
                            NormalY(sqrt, phi, z, dx, dy, n, m), dx, dy, n, m, iter, i, j);
  }

  /** The two off-diagonal buffers are equal before the extrapolation, so they stay equal after it. */
  lemma ShearTermsAgree(sqrt: real -> real, phi: Field, lmx: Field, lmy: Field, dx: real, dy: real, n: nat, m: nat, iter: nat)
    requires n >= 3 && m >= 3 && IsShape(phi, n, m) && IsShape(lmx, n, m) && IsShape(lmy, n, m) && dx != 0.0 && dy != 0.0
    requires NonFlat(sqrt, phi, dx, dy, n, m)
    ensures StressTerm(sqrt, phi, lmx, lmy, dx, dy, n, m, iter, 2) == StressTerm(sqrt, phi, lmx, lmy, dx, dy, n, m, iter, 3)
  {
    TauSymmetric(lmx, lmy, dx, dy, n, m);
  }

  /** With no solid viscosity anywhere, the step leaves both velocities as they are. */
  lemma MasslessSolidExertsNoForce(sqrt: real -> real, phi: Field, lmx: Field, lmy: Field, u: Field, v: Field,
                                   re: real, dt: real, dx: real, dy: real, n: nat, m: nat, iter: nat)
    requires Shapes(phi, lmx, lmy, Const(n, m, 0.0), u, v, re, dx, dy, n, m) && NonFlat(sqrt, phi, dx, dy, n, m)
    ensures ForcedU(sqrt, phi, lmx, lmy, Const(n, m, 0.0), u, v, re, dt, dx, dy, n, m, iter) == u
    ensures ForcedV(sqrt, phi, lmx, lmy, Const(n, m, 0.0), u, v, re, dt, dx, dy, n, m, iter) == v
  {
    MasslessIsIdentity(u, v, StressTerm(sqrt, phi, lmx, lmy, dx, dy, n, m, iter, 1), StressTerm(sqrt, phi, lmx, lmy, dx, dy, n, m, iter, 2),
                       StressTerm(sqrt, phi, lmx, lmy, dx, dy, n, m, iter, 3), StressTerm(sqrt, phi, lmx, lmy, dx, dy, n, m, iter, 4),
                       re, dt, dx, dy, n, m);
  }

  /** An undeformed solid, whose reference map is the identity map of the mesh, exerts no force: both velocities are kept. */
  lemma {:induction false} UndeformedSolidExertsNoForce(sqrt: real -> real, phi: Field, lmx: Field, lmy: Field, xmus: Field,
                                                        u: Field, v: Field, x0: real, y0: real,
                                                        re: real, dt: real, dx: real, dy: real, n: nat, m: nat, iter: nat)
    requires Shapes(phi, lmx, lmy, xmus, u, v, re, dx, dy, n, m) && NonFlat(sqrt, phi, dx, dy, n, m)
    requires IdentityMap(lmx, lmy, x0, y0, dx, dy, n, m)
    ensures ForcedU(sqrt, phi, lmx, lmy, xmus, u, v, re, dt, dx, dy, n, m, iter) == u
    ensures ForcedV(sqrt, phi, lmx, lmy, xmus, u, v, re, dt, dx, dy, n, m, iter) == v
  {
    var z := Const(n, m, 0.0);
    var ax, ay := NormalX(sqrt, phi, z, dx, dy, n, m), NormalY(sqrt, phi, z, dx, dy, n, m);
    IdentityMapStressFree(lmx, lmy, x0, y0, dx, dy, n, m, 1);
    IdentityMapStressFree(lmx, lmy, x0, y0, dx, dy, n, m, 2);
    IdentityMapStressFree(lmx, lmy, x0, y0, dx, dy, n, m, 3);
    IdentityMapStressFree(lmx, lmy, x0, y0, dx, dy, n, m, 4);
    ConstantRoundsOfConstant(0.0, phi, ax, ay, dx, dy, n, m, iter);
    StresslessIsIdentity(u, v, xmus, re, dt, dx, dy, n, m);
  }

  /** The extrapolation loop: each round extrapolates all four buffers in turn. */
  method ExtrapolateStress(phi: array2<real>, t1: array2<real>, t2: array2<real>, t3: array2<real>, t4: array2<real>,
                           adfx: array2<real>, adfy: array2<real>, dx: real, dy: real, iter: nat)
    requires dx != 0.0 && dy != 0.0
    requires t1.Length0 == phi.Length0 && t1.Length1 == phi.Length1 && t2.Length0 == phi.Length0 && t2.Length1 == phi.Length1
    requires t3.Length0 == phi.Length0 && t3.Length1 == phi.Length1 && t4.Length0 == phi.Length0 && t4.Length1 == phi.Length1
    requires adfx.Length0 == phi.Length0 && adfx.Length1 == phi.Length1 && adfy.Length0 == phi.Length0 && adfy.Length1 == phi.Length1
    requires t1 != t2 && t1 != t3 && t1 != t4 && t2 != t3 && t2 != t4 && t3 != t4
    requires t1 != phi && t2 != phi && t3 != phi && t4 != phi
    requires t1 != adfx && t2 != adfx && t3 != adfx && t4 != adfx && t1 != adfy && t2 != adfy && t3 != adfy && t4 != adfy
    modifies t1, t2, t3, t4
    ensures var P, A, B, n, m := Snapshot(phi), Snapshot(adfx), Snapshot(adfy), phi.Length0, phi.Length1;
      Snapshot(t1) == ConstantRounds(old(Snapshot(t1)), P, A, B, dx, dy, n, m, iter) &&
      Snapshot(t2) == ConstantRounds(old(Snapshot(t2)), P, A, B, dx, dy, n, m, iter) &&
      Snapshot(t3) == ConstantRounds(old(Snapshot(t3)), P, A, B, dx, dy, n, m, iter) &&
      Snapshot(t4) == ConstantRounds(old(Snapshot(t4)), P, A, B, dx, dy, n, m, iter)
  {
    var n, m := phi.Length0, phi.Length1;
    ghost var P, A, B := Snapshot(phi), Snapshot(adfx), Snapshot(adfy);
    ghost var T1, T2, T3, T4 := Snapshot(t1), Snapshot(t2), Snapshot(t3), Snapshot(t4);
    for k := 0 to iter
      invariant Snapshot(phi) == P && Snapshot(adfx) == A && Snapshot(adfy) == B
      invariant Snapshot(t1) == ConstantRounds(T1, P, A, B, dx, dy, n, m, k)
      invariant Snapshot(t2) == ConstantRounds(T2, P, A, B, dx, dy, n, m, k)
      invariant Snapshot(t3) == ConstantRounds(T3, P, A, B, dx, dy, n, m, k)
      invariant Snapshot(t4) == ConstantRounds(T4, P, A, B, dx, dy, n, m, k)
    {
      ConstantExtrapolationInPlace(phi, t1, adfx, adfy, dx, dy);
      ConstantExtrapolationInPlace(phi, t2, adfx, adfy, dx, dy);
      ConstantExtrapolationInPlace(phi, t3, adfx, adfy, dx, dy);
      ConstantExtrapolationInPlace(phi, t4, adfx, adfy, dx, dy);
    }
  }

  /** The stress stage: `solid_stress` into four fresh zero buffers. */
  method StressStage(phi: array2<real>, lmx: array2<real>, lmy: array2<real>, dx: real, dy: real)
    returns (t1: array2<real>, t2: array2<real>, t3: array2<real>, t4: array2<real>)
    requires lmx.Length0 >= 3 && lmx.Length1 >= 3 && dx != 0.0 && dy != 0.0
    requires lmy.Length0 == lmx.Length0 && lmy.Length1 == lmx.Length1
    ensures fresh(t1) && fresh(t2) && fresh(t3) && fresh(t4)
    ensures t1 != t2 && t1 != t3 && t1 != t4 && t2 != t3 && t2 != t4 && t3 != t4
    ensures var n, m := lmx.Length0, lmx.Length1;
      t1.Length0 == n && t1.Length1 == m && t2.Length0 == n && t2.Length1 == m &&
      t3.Length0 == n && t3.Length1 == m && t4.Length0 == n && t4.Length1 == m
    ensures var X, Y, n, m := Snapshot(lmx), Snapshot(lmy), lmx.Length0, lmx.Length1;
      Snapshot(t1) == Tau(X, Y, dx, dy, n, m, 1) && Snapshot(t2) == Tau(X, Y, dx, dy, n, m, 2) &&
      Snapshot(t3) == Tau(X, Y, dx, dy, n, m, 3) && Snapshot(t4) == Tau(X, Y, dx, dy, n, m, 4)
  {
    var n, m := lmx.Length0, lmx.Length1;
    t1 := Zeros(n, m);
    t2 := Zeros(n, m);
    t3 := Zeros(n, m);
    t4 := Zeros(n, m);
    SolidStressInPlace(phi, lmx, lmy, t1, t2, t3, t4, dx, dy);
  }

  /** The normal stage: `normal_vector_solid` into two fresh zero arrays. */
  method NormalStage(sqrt: real -> real, phi: array2<real>, dx: real, dy: real) returns (adfx: array2<real>, adfy: array2<real>)
    requires phi.Length0 >= 3 && phi.Length1 >= 3 && dx != 0.0 && dy != 0.0
    requires NonFlat(sqrt, Snapshot(phi), dx, dy, phi.Length0, phi.Length1)
    ensures fresh(adfx) && fresh(adfy) && adfx != adfy
    ensures adfx.Length0 == phi.Length0 && adfx.Length1 == phi.Length1 && adfy.Length0 == phi.Length0 && adfy.Length1 == phi.Length1
    ensures var P, z, n, m := Snapshot(phi), Const(phi.Length0, phi.Length1, 0.0), phi.Length0, phi.Length1;
      Snapshot(adfx) == NormalX(sqrt, P, z, dx, dy, n, m) && Snapshot(adfy) == NormalY(sqrt, P, z, dx, dy, n, m)
  {
    adfx := Zeros(phi.Length0, phi.Length1);
    adfy := Zeros(phi.Length0, phi.Length1);
    NormalVectorSolid(sqrt, phi, adfx, adfy, dx, dy);
  }

  /** The stress, normal and extrapolation stages: four fresh buffers holding the extrapolated stress terms. */
  method StressBuffers(sqrt: real -> real, phi: array2<real>, lmx: array2<real>, lmy: array2<real>, dx: real, dy: real, iter: nat)
    returns (t1: array2<real>, t2: array2<real>, t3: array2<real>, t4: array2<real>)
    requires phi.Length0 >= 3 && phi.Length1 >= 3 && dx != 0.0 && dy != 0.0
    requires lmx.Length0 == phi.Length0 && lmx.Length1 == phi.Length1 && lmy.Length0 == phi.Length0 && lmy.Length1 == phi.Length1
    requires NonFlat(sqrt, Snapshot(phi), dx, dy, phi.Length0, phi.Length1)
    ensures fresh(t1) && fresh(t2) && fresh(t3) && fresh(t4)
    ensures t1 != t2 && t1 != t3 && t1 != t4 && t2 != t3 && t2 != t4 && t3 != t4
    ensures var n, m := phi.Length0, phi.Length1;
      t1.Length0 == n && t1.Length1 == m && t2.Length0 == n && t2.Length1 == m &&
      t3.Length0 == n && t3.Length1 == m && t4.Length0 == n && t4.Length1 == m
    ensures var P, X, Y, n, m := Snapshot(phi), Snapshot(lmx), Snapshot(lmy), phi.Length0, phi.Length1;
      Snapshot(t1) == StressTerm(sqrt, P, X, Y, dx, dy, n, m, iter, 1) && Snapshot(t2) == StressTerm(sqrt, P, X, Y, dx, dy, n, m, iter, 2) &&
      Snapshot(t3) == StressTerm(sqrt, P, X, Y, dx, dy, n, m, iter, 3) && Snapshot(t4) == StressTerm(sqrt, P, X, Y, dx, dy, n, m, iter, 4)
  {
    t1, t2, t3, t4 := StressStage(phi, lmx, lmy, dx, dy);
    var adfx, adfy := NormalStage(sqrt, phi, dx, dy);
    ExtrapolateStress(phi, t1, t2, t3, t4, adfx, adfy, dx, dy, iter);
  }

  /**
   * `force_flow` on the single block: `xmus` holds what `solid_props` wrote,
   * `dx`, `dy` are the cell grid's spacing, `re` is `Re_s` and `iter` is
   * `extrap_solid`. Only `u` and `v` are written.
   */
  method ForceFlow(sqrt: real -> real, u: array2<real>, v: array2<real>, phi: array2<real>, lmx: array2<real>, lmy: array2<real>,
                   xmus: array2<real>, re: real, dt: real, dx: real, dy: real, iter: nat)
    requires phi.Length0 >= 3 && phi.Length1 >= 3 && dx != 0.0 && dy != 0.0 && dx * re != 0.0 && dy * re != 0.0
    requires lmx.Length0 == phi.Length0 && lmx.Length1 == phi.Length1 && lmy.Length0 == phi.Length0 && lmy.Length1 == phi.Length1
    requires xmus.Length0 == phi.Length0 && xmus.Length1 == phi.Length1
    requires u.Length0 == phi.Length0 - 1 && u.Length1 == phi.Length1 && v.Length0 == phi.Length0 && v.Length1 == phi.Length1 - 1
    requires u != v
    requires NonFlat(sqrt, Snapshot(phi), dx, dy, phi.Length0, phi.Length1)
    modifies u, v
    ensures Snapshot(u) == ForcedU(sqrt, Snapshot(phi), Snapshot(lmx), Snapshot(lmy), Snapshot(xmus), old(Snapshot(u)), old(Snapshot(v)),
                                   re, dt, dx, dy, phi.Length0, phi.Length1, iter)
    ensures Snapshot(v) == ForcedV(sqrt, Snapshot(phi), Snapshot(lmx), Snapshot(lmy), Snapshot(xmus), old(Snapshot(u)), old(Snapshot(v)),
                                   re, dt, dx, dy, phi.Length0, phi.Length1, iter)
  {
    var lms1, lms2, lms3, lms4 := StressBuffers(sqrt, phi, lmx, lmy, dx, dy, iter);
    SolidUstarInPlace(u, v, xmus, lms1, lms2, lms3, lms4, re, dt, dx, dy);
  }
}
