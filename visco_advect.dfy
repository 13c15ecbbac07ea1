/**
 * The visco-elastic `advect` step, on the single block of the cell grid.
 * The two reference-map markers lmx, lmy are advected where `phi >= 0`.
 * Each marker is then extrapolated into the solid along the normals of the
 * pre-advection `phi`, with a guard-cell fill after every linear round. The
 * level set `phi` is advected everywhere, filled, and re-distanced against
 * its advected copy, with a fill after every sweep. All arrays are the
 * transposed views [x, y] of the grid's block data. An exception from a fill
 * ends the step and leaves what was written up to then.
 */
module ViscoAdvect {
  import opened Fields
  import opened Grid
  import Weno3
  import opened NormalVector
  import opened DirectionalDerivative
  import opened ConstantExtrapolation
  import opened LinearExtrapolation
  import Redistance

  /** `gridc.fill_guard_cells(key)` on the transposed block values `f`. */
  function Refill(gridc: Grid, key: string, f: Field, n: nat, m: nat): (r: Filled)
    requires IsShape(f, n, m)
    reads gridc
    ensures IsShape(r.f, n, m)
  {
    VarFill(gridc.kind, gridc.bcType, gridc.bcVal, key, f, n, m, Alone, gridc.dx, gridc.dy, true)
  }

  // ---------------------------------------------------------------------------
  // Marker extrapolation

  /** `s` after `k` rounds of `linear_extrapolation` each followed by a fill of `key`; an exception ends the rounds. */
  function LinearRounds(gridc: Grid, key: string, s: Field, sn: Field, lmda: Field, u: Field, v: Field,
                        n: nat, m: nat, k: nat): (r: Filled)
    requires ExtrapShapes(s, lmda, u, v, n, m) && IsShape(sn, n, m) && gridc.dx != 0.0 && gridc.dy != 0.0
    reads gridc
    ensures IsShape(r.f, n, m)
    decreases k
  {
    if k == 0 then Filled(s, Done)
    else
      var r := LinearRounds(gridc, key, s, sn, lmda, u, v, n, m, k - 1);
      if r.out != Done then r
      else Refill(gridc, key, LinearStep(r.f, sn, lmda, u, v, gridc.dx, gridc.dy, n, m), n, m)
  }

  /** Once a round has raised, the later rounds do not run. */
  lemma {:induction false} LinearRoundsStop(gridc: Grid, key: string, s: Field, sn: Field, lmda: Field, u: Field, v: Field,
                                            n: nat, m: nat, k: nat, k2: nat)
    requires ExtrapShapes(s, lmda, u, v, n, m) && IsShape(sn, n, m) && gridc.dx != 0.0 && gridc.dy != 0.0
    requires k <= k2 && LinearRounds(gridc, key, s, sn, lmda, u, v, n, m, k).out != Done
    ensures LinearRounds(gridc, key, s, sn, lmda, u, v, n, m, k2) == LinearRounds(gridc, key, s, sn, lmda, u, v, n, m, k)
    decreases k2 - k
  {
    if k < k2 {
      LinearRoundsStop(gridc, key, s, sn, lmda, u, v, n, m, k, k2 - 1);
    }
  }

  /** Whatever the rounds and the fills do, an interior cell where the marker field `lmda` is not negative keeps its value. */
  lemma {:induction false} LinearRoundsKeepFluid(gridc: Grid, key: string, s: Field, sn: Field, lmda: Field, u: Field, v: Field,
                                                 n: nat, m: nat, k: nat, i: int, j: int)
    requires ExtrapShapes(s, lmda, u, v, n, m) && IsShape(sn, n, m) && gridc.dx != 0.0 && gridc.dy != 0.0
    requires Interior(i, j, n, m) && lmda[i][j] >= 0.0
    ensures LinearRounds(gridc, key, s, sn, lmda, u, v, n, m, k).f[i][j] == s[i][j]
  {
    if k > 0 {
      LinearRoundsKeepFluid(gridc, key, s, sn, lmda, u, v, n, m, k - 1, i, j);
      var r := LinearRounds(gridc, key, s, sn, lmda, u, v, n, m, k - 1);
      if r.out == Done {
        var g := LinearStep(r.f, sn, lmda, u, v, gridc.dx, gridc.dy, n, m);
        LinearStepCell(r.f, sn, lmda, u, v, gridc.dx, gridc.dy, n, m, i, j);
        VarFillKeepsInterior(gridc.kind, gridc.bcType, gridc.bcVal, key, g, n, m, Alone, gridc.dx, gridc.dy, true, i, j);
      }
    }
  }

  /** A variable missing from the boundary record raises `KeyError` at the first fill, with the first round's values kept. */
  lemma {:induction false} LinearRoundsMissingKey(gridc: Grid, key: string, s: Field, sn: Field, lmda: Field, u: Field, v: Field,
                                                  n: nat, m: nat, k: nat)
    requires ExtrapShapes(s, lmda, u, v, n, m) && IsShape(sn, n, m) && gridc.dx != 0.0 && gridc.dy != 0.0
    requires k >= 1 && (key !in gridc.bcType || key !in gridc.bcVal)
    ensures LinearRounds(gridc, key, s, sn, lmda, u, v, n, m, k) ==
      Filled(LinearStep(s, sn, lmda, u, v, gridc.dx, gridc.dy, n, m), KeyError)
  {
    assert LinearRounds(gridc, key, s, sn, lmda, u, v, n, m, 1) == Filled(LinearStep(s, sn, lmda, u, v, gridc.dx, gridc.dy, n, m), KeyError);
    LinearRoundsStop(gridc, key, s, sn, lmda, u, v, n, m, 1, k);
  }

  /** `ddsn` after the directional derivative of the marker `mk` and `iter` constant-extrapolation rounds. */
  function MarkerSlope(phi: Field, mk: Field, ax: Field, ay: Field, dx: real, dy: real, n: nat, m: nat, iter: nat): (r: Field)
    requires n >= 3 && m >= 3 && ExtrapShapes(mk, phi, ax, ay, n, m) && dx != 0.0 && dy != 0.0
    ensures IsShape(r, n, m)
  {
    ConstantRounds(Ddsn(mk, ax, ay, dx, dy, n, m), phi, ax, ay, dx, dy, n, m, iter)
  }

  /** One "Extrapolate grid" block: the advected marker `mk` after its `iter` linear rounds and fills of `key`. */
  function ExtrapolatedMarker(gridc: Grid, key: string, phi: Field, mk: Field, ax: Field, ay: Field,
                              n: nat, m: nat, iter: nat): (r: Filled)
    requires n >= 3 && m >= 3 && ExtrapShapes(mk, phi, ax, ay, n, m) && gridc.dx != 0.0 && gridc.dy != 0.0
    reads gridc
    ensures IsShape(r.f, n, m)
  {
    LinearRounds(gridc, key, mk, MarkerSlope(phi, mk, ax, ay, gridc.dx, gridc.dy, n, m, iter), phi, ax, ay, n, m, iter)
  }

  // ---------------------------------------------------------------------------
  // Level set

  /** `phi` after `advect_solid` and the fill of `key`. */
  function SolidPhi(gridc: Grid, key: string, phi: Field, u: Field, v: Field, dt: real, n: nat, m: nat): (r: Filled)
    requires n >= 3 && m >= 3 && IsShape(phi, n, m) && IsShape(u, n - 1, m) && IsShape(v, n, m - 1)
    requires gridc.dx != 0.0 && gridc.dy != 0.0
    reads gridc
    ensures IsShape(r.f, n, m)
  {
    Refill(gridc, key, Weno3.Advect(Weno3.Reconstruct, phi, Weno3.Ones(n, m), u, v, dt, gridc.dx, gridc.dy, n, m), n, m)
  }

  /** The re-distance pseudo-step `lsDT = sqrt(dx**2 + dy**2) / 2`. */
  function LevelSetStep(sqrt: real -> real, dx: real, dy: real): real {
    sqrt(dx * dx + dy * dy) / 2.0
  }

  /** `lsDT` is non-negative and is half the cell diagonal: `(2 lsDT)**2 = dx**2 + dy**2`. */
  lemma LevelSetStepIsHalfDiagonal(sqrt: real -> real, dx: real, dy: real)
    requires SqrtLaw(sqrt)
    ensures LevelSetStep(sqrt, dx, dy) >= 0.0
    ensures Sq(2.0 * LevelSetStep(sqrt, dx, dy)) == Sq(dx) + Sq(dy)
  {
    var d := dx * dx + dy * dy;
    assert d == Sq(dx) + Sq(dy);
    assert sqrt(d) >= 0.0 && sqrt(d) * sqrt(d) == d;
    assert 2.0 * LevelSetStep(sqrt, dx, dy) == sqrt(d);
  }

  /** `s` after `k` re-distance sweeps against the reference `soo`, each followed by a fill of `key`; an exception ends the sweeps. */
  function RedistanceRounds(sqrt: real -> real, gridc: Grid, key: string, s: Field, soo: Field, dt: real,
                            n: nat, m: nat, k: nat): (r: Filled)
    requires SqrtLaw(sqrt) && gridc.dx != 0.0 && gridc.dy != 0.0
    requires IsShape(s, n, m) && IsShape(soo, n, m) && Redistance.NoPole(soo, n, m)
    reads gridc
    ensures IsShape(r.f, n, m)
    decreases k
  {
    if k == 0 then Filled(s, Done)
    else
      var r := RedistanceRounds(sqrt, gridc, key, s, soo, dt, n, m, k - 1);
      if r.out != Done then r
      else Refill(gridc, key, Redistance.Redistance(sqrt, r.f, soo, dt, gridc.dx, gridc.dy, n, m), n, m)
  }

  /** Once a sweep's fill has raised, the later sweeps do not run. */
  lemma {:induction false} RedistanceRoundsStop(sqrt: real -> real, gridc: Grid, key: string, s: Field, soo: Field, dt: real,
                                                n: nat, m: nat, k: nat, k2: nat)
    requires SqrtLaw(sqrt) && gridc.dx != 0.0 && gridc.dy != 0.0
    requires IsShape(s, n, m) && IsShape(soo, n, m) && Redistance.NoPole(soo, n, m)
    requires k <= k2 && RedistanceRounds(sqrt, gridc, key, s, soo, dt, n, m, k).out != Done
    ensures RedistanceRounds(sqrt, gridc, key, s, soo, dt, n, m, k2) == RedistanceRounds(sqrt, gridc, key, s, soo, dt, n, m, k)
    decreases k2 - k
  {
    if k < k2 {
      RedistanceRoundsStop(sqrt, gridc, key, s, soo, dt, n, m, k, k2 - 1);
    }
  }

  /**
   * After at least one completed sweep, an interior cell where the reference
   * changes sign against a neighbour holds the reference value: re-distancing
   * does not move the interface.
   */
  lemma RedistanceKeepsInterface(sqrt: real -> real, gridc: Grid, key: string, s: Field, soo: Field, dt: real,
                                 n: nat, m: nat, k: nat, i: int, j: int)
    requires SqrtLaw(sqrt) && gridc.dx != 0.0 && gridc.dy != 0.0
    requires IsShape(s, n, m) && IsShape(soo, n, m) && Redistance.NoPole(soo, n, m)
    requires k >= 1 && RedistanceRounds(sqrt, gridc, key, s, soo, dt, n, m, k).out == Done
    requires Interior(i, j, n, m) && Redistance.Frozen(soo, n, m, i, j)
    ensures RedistanceRounds(sqrt, gridc, key, s, soo, dt, n, m, k).f[i][j] == soo[i][j]
  {
    var r := RedistanceRounds(sqrt, gridc, key, s, soo, dt, n, m, k - 1);
    var g := Redistance.Redistance(sqrt, r.f, soo, dt, gridc.dx, gridc.dy, n, m);
    Redistance.RedistanceFrozen(sqrt, r.f, soo, dt, gridc.dx, gridc.dy, n, m, i, j);
    VarFillKeepsInterior(gridc.kind, gridc.bcType, gridc.bcVal, key, g, n, m, Alone, gridc.dx, gridc.dy, true, i, j);
  }

  // ---------------------------------------------------------------------------
  // The whole step

  /** The grid variables the step writes and how the step ended. */
  datatype Advected = Advected(phi: Field, lmx: Field, lmy: Field, out: Outcome)

  /** The fields the step reads: cell fields `n` by `m`, faces `n-1` by `m` and `n` by `m-1`, nonzero spacing. */
  predicate StepShapes(gridc: Grid, phi: Field, lmx: Field, lmy: Field, u: Field, v: Field, n: nat, m: nat) {
    n >= 3 && m >= 3 && IsShape(phi, n, m) && IsShape(lmx, n, m) && IsShape(lmy, n, m) &&
    IsShape(u, n - 1, m) && IsShape(v, n, m - 1) && gridc.dx != 0.0 && gridc.dy != 0.0
  }

  /** The marker `mk` after the masked advection with the mask `phi >= 0`. */
  function AdvectedMarker(gridc: Grid, phi: Field, mk: Field, u: Field, v: Field, dt: real, n: nat, m: nat): (r: Field)
    requires StepShapes(gridc, phi, mk, mk, u, v, n, m)
    ensures IsShape(r, n, m)
  {
    Weno3.Advect(Weno3.Reconstruct, mk, Weno3.MaskNonNegative(phi, n, m), u, v, dt, gridc.dx, gridc.dy, n, m)
  }

  /** `NormalX`, `NormalY` of `phi` written into fresh zero arrays. */
  function FreshNormal(sqrt: real -> real, phi: Field, dx: real, dy: real, n: nat, m: nat, xdir: bool): (r: Field)
    requires n >= 3 && m >= 3 && IsShape(phi, n, m) && dx != 0.0 && dy != 0.0 && NonFlat(sqrt, phi, dx, dy, n, m)
    ensures IsShape(r, n, m)
  {
    if xdir then NormalX(sqrt, phi, Const(n, m, 0.0), dx, dy, n, m) else NormalY(sqrt, phi, Const(n, m, 0.0), dx, dy, n, m)
  }

  /** The sweeps the step ends with are defined: the reference copy admits the smoothed sign when the solid fill succeeds. */
  ghost predicate Redistanceable(gridc: Grid, keyF: string, phi: Field, u: Field, v: Field, dt: real, n: nat, m: nat)
    requires n >= 3 && m >= 3 && IsShape(phi, n, m) && IsShape(u, n - 1, m) && IsShape(v, n, m - 1)
    requires gridc.dx != 0.0 && gridc.dy != 0.0
    reads gridc
  {
    var p := SolidPhi(gridc, keyF, phi, u, v, dt, n, m);
    p.out == Done ==> Redistance.NoPole(p.f, n, m)
  }

  /** What the markers' part of `advect` leaves in lmx and lmy (φ is not yet touched), and how it ends. */
  function MarkersResult(sqrt: real -> real, gridc: Grid, keyX: string, keyY: string,
                         phi: Field, lmx: Field, lmy: Field, u: Field, v: Field, dt: real, n: nat, m: nat,
                         extrapIter: nat): (r: Advected)
    requires StepShapes(gridc, phi, lmx, lmy, u, v, n, m) && NonFlat(sqrt, phi, gridc.dx, gridc.dy, n, m)
    reads gridc
    ensures r.phi == phi && IsShape(r.lmx, n, m) && IsShape(r.lmy, n, m)
  {
    var X, Y := AdvectedMarker(gridc, phi, lmx, u, v, dt, n, m), AdvectedMarker(gridc, phi, lmy, u, v, dt, n, m);
    var ax, ay := FreshNormal(sqrt, phi, gridc.dx, gridc.dy, n, m, true), FreshNormal(sqrt, phi, gridc.dx, gridc.dy, n, m, false);
    var rx := ExtrapolatedMarker(gridc, keyX, phi, X, ax, ay, n, m, extrapIter);
    if rx.out != Done then Advected(phi, rx.f, Y, rx.out)
    else
      var ry := ExtrapolatedMarker(gridc, keyY, phi, Y, ax, ay, n, m, extrapIter);
      Advected(phi, rx.f, ry.f, ry.out)
  }

  /** What the level-set part of `advect` leaves in φ: the solid advection, then the redistancing sweeps against its result. */
  function LevelSetResult(sqrt: real -> real, gridc: Grid, keyF: string, phi: Field, u: Field, v: Field, dt: real,
                          n: nat, m: nat, lsetIter: nat): (r: Filled)
    requires SqrtLaw(sqrt) && n >= 3 && m >= 3 && IsShape(phi, n, m) && IsShape(u, n - 1, m) && IsShape(v, n, m - 1)
    requires gridc.dx != 0.0 && gridc.dy != 0.0 && Redistanceable(gridc, keyF, phi, u, v, dt, n, m)
    reads gridc
    ensures IsShape(r.f, n, m)
  {
    var p := SolidPhi(gridc, keyF, phi, u, v, dt, n, m);
    if p.out != Done then p
    else RedistanceRounds(sqrt, gridc, keyF, p.f, p.f, LevelSetStep(sqrt, gridc.dx, gridc.dy), n, m, lsetIter)
  }

  /** What `advect` leaves in φ, lmx and lmy, and how it ends. */
  function StepResult(sqrt: real -> real, gridc: Grid, keyF: string, keyX: string, keyY: string,
                      phi: Field, lmx: Field, lmy: Field, u: Field, v: Field, dt: real, n: nat, m: nat,
                      lsetIter: nat, extrapIter: nat): (r: Advected)
    requires SqrtLaw(sqrt) && StepShapes(gridc, phi, lmx, lmy, u, v, n, m) && NonFlat(sqrt, phi, gridc.dx, gridc.dy, n, m)
    requires Redistanceable(gridc, keyF, phi, u, v, dt, n, m)
    reads gridc
    ensures IsShape(r.phi, n, m) && IsShape(r.lmx, n, m) && IsShape(r.lmy, n, m)
  {
    var mr := MarkersResult(sqrt, gridc, keyX, keyY, phi, lmx, lmy, u, v, dt, n, m, extrapIter);
    if mr.out != Done then mr
    else
      var p := LevelSetResult(sqrt, gridc, keyF, phi, u, v, dt, n, m, lsetIter);
      Advected(p.f, mr.lmx, mr.lmy, p.out)
  }

  /** Outside the solid the markers end as the masked advection left them: extrapolation and fills never reach those cells. */
  lemma MarkersAdvectedInFluid(sqrt: real -> real, gridc: Grid, keyF: string, keyX: string, keyY: string,
                               phi: Field, lmx: Field, lmy: Field, u: Field, v: Field, dt: real, n: nat, m: nat,
                               lsetIter: nat, extrapIter: nat, i: int, j: int)
    requires SqrtLaw(sqrt) && StepShapes(gridc, phi, lmx, lmy, u, v, n, m) && NonFlat(sqrt, phi, gridc.dx, gridc.dy, n, m)
    requires Redistanceable(gridc, keyF, phi, u, v, dt, n, m)
    requires Interior(i, j, n, m) && phi[i][j] >= 0.0
    ensures var r := StepResult(sqrt, gridc, keyF, keyX, keyY, phi, lmx, lmy, u, v, dt, n, m, lsetIter, extrapIter);
      r.lmx[i][j] == AdvectedMarker(gridc, phi, lmx, u, v, dt, n, m)[i][j] &&
      r.lmy[i][j] == AdvectedMarker(gridc, phi, lmy, u, v, dt, n, m)[i][j]
  {
    var X, Y := AdvectedMarker(gridc, phi, lmx, u, v, dt, n, m), AdvectedMarker(gridc, phi, lmy, u, v, dt, n, m);
    var ax, ay := FreshNormal(sqrt, phi, gridc.dx, gridc.dy, n, m, true), FreshNormal(sqrt, phi, gridc.dx, gridc.dy, n, m, false);
    LinearRoundsKeepFluid(gridc, keyX, X, MarkerSlope(phi, X, ax, ay, gridc.dx, gridc.dy, n, m, extrapIter), phi, ax, ay,
                          n, m, extrapIter, i, j);
    LinearRoundsKeepFluid(gridc, keyY, Y, MarkerSlope(phi, Y, ax, ay, gridc.dx, gridc.dy, n, m, extrapIter), phi, ax, ay,
                          n, m, extrapIter, i, j);
  }

  /**
   * When the step completes with at least one sweep, every interior cell at a
   * sign change of the advected, filled level set keeps that value.
   */
  lemma InterfaceHeldByRedistance(sqrt: real -> real, gridc: Grid, keyF: string, keyX: string, keyY: string,
                                  phi: Field, lmx: Field, lmy: Field, u: Field, v: Field, dt: real, n: nat, m: nat,
                                  lsetIter: nat, extrapIter: nat, i: int, j: int)
    requires SqrtLaw(sqrt) && StepShapes(gridc, phi, lmx, lmy, u, v, n, m) && NonFlat(sqrt, phi, gridc.dx, gridc.dy, n, m)
    requires Redistanceable(gridc, keyF, phi, u, v, dt, n, m)
    requires lsetIter >= 1 && StepResult(sqrt, gridc, keyF, keyX, keyY, phi, lmx, lmy, u, v, dt, n, m, lsetIter, extrapIter).out == Done
    requires Interior(i, j, n, m) && Redistance.Frozen(SolidPhi(gridc, keyF, phi, u, v, dt, n, m).f, n, m, i, j)
    ensures StepResult(sqrt, gridc, keyF, keyX, keyY, phi, lmx, lmy, u, v, dt, n, m, lsetIter, extrapIter).phi[i][j] ==
      SolidPhi(gridc, keyF, phi, u, v, dt, n, m).f[i][j]
  {
    var p := SolidPhi(gridc, keyF, phi, u, v, dt, n, m);
    RedistanceKeepsInterface(sqrt, gridc, keyF, p.f, p.f, LevelSetStep(sqrt, gridc.dx, gridc.dy), n, m, lsetIter, i, j);
  }

  /** With no record for the lmx variable and at least one round, the step raises `KeyError` with φ untouched and lmy only advected. */
  lemma MissingMarkerRecord(sqrt: real -> real, gridc: Grid, keyF: string, keyX: string, keyY: string,
                            phi: Field, lmx: Field, lmy: Field, u: Field, v: Field, dt: real, n: nat, m: nat,
                            lsetIter: nat, extrapIter: nat)
    requires SqrtLaw(sqrt) && StepShapes(gridc, phi, lmx, lmy, u, v, n, m) && NonFlat(sqrt, phi, gridc.dx, gridc.dy, n, m)
    requires Redistanceable(gridc, keyF, phi, u, v, dt, n, m)
    requires extrapIter >= 1 && (keyX !in gridc.bcType || keyX !in gridc.bcVal)
    ensures var r := StepResult(sqrt, gridc, keyF, keyX, keyY, phi, lmx, lmy, u, v, dt, n, m, lsetIter, extrapIter);
      r.out == KeyError && r.phi == phi && r.lmy == AdvectedMarker(gridc, phi, lmy, u, v, dt, n, m)
  {
    var X := AdvectedMarker(gridc, phi, lmx, u, v, dt, n, m);
    var ax, ay := FreshNormal(sqrt, phi, gridc.dx, gridc.dy, n, m, true), FreshNormal(sqrt, phi, gridc.dx, gridc.dy, n, m, false);
    LinearRoundsMissingKey(gridc, keyX, X, MarkerSlope(phi, X, ax, ay, gridc.dx, gridc.dy, n, m, extrapIter), phi, ax, ay,
                           n, m, extrapIter);
  }

  // ---------------------------------------------------------------------------
  // The step on arrays

  /** The constant-extrapolation loop on `ddsn`. */
  method ConstantLoop(phi: array2<real>, ddsn: array2<real>, adfx: array2<real>, adfy: array2<real>, dx: real, dy: real, iter: nat)
    requires dx != 0.0 && dy != 0.0
    requires ddsn.Length0 == phi.Length0 && ddsn.Length1 == phi.Length1
    requires adfx.Length0 == phi.Length0 && adfx.Length1 == phi.Length1 && adfy.Length0 == phi.Length0 && adfy.Length1 == phi.Length1
    requires ddsn != phi && ddsn != adfx && ddsn != adfy
    modifies ddsn
    ensures Snapshot(ddsn) == ConstantRounds(old(Snapshot(ddsn)), Snapshot(phi), Snapshot(adfx), Snapshot(adfy), dx, dy,
                                             phi.Length0, phi.Length1, iter)
  {
    ghost var D, P, A, B := Snapshot(ddsn), Snapshot(phi), Snapshot(adfx), Snapshot(adfy);
    for k := 0 to iter
      invariant Snapshot(phi) == P && Snapshot(adfx) == A && Snapshot(adfy) == B
      invariant Snapshot(ddsn) == ConstantRounds(D, P, A, B, dx, dy, phi.Length0, phi.Length1, k)
    {
      ConstantExtrapolationInPlace(phi, ddsn, adfx, adfy, dx, dy);
    }
  }

  /** One round: `linear_extrapolation` on the marker `mk`, then the fill of `key`; round `k + 1` of `LinearRounds`. */
  method LinearRound(gridc: Grid, key: string, phi: array2<real>, mk: array2<real>, ddsn: array2<real>,
                     adfx: array2<real>, adfy: array2<real>, ghost S: Field, ghost k: nat) returns (out: Outcome)
    requires gridc.dx != 0.0 && gridc.dy != 0.0
    requires mk.Length0 == phi.Length0 && mk.Length1 == phi.Length1 && ddsn.Length0 == phi.Length0 && ddsn.Length1 == phi.Length1
    requires adfx.Length0 == phi.Length0 && adfx.Length1 == phi.Length1 && adfy.Length0 == phi.Length0 && adfy.Length1 == phi.Length1
    requires mk != phi && mk != ddsn && mk != adfx && mk != adfy && IsShape(S, phi.Length0, phi.Length1)
    requires LinearRounds(gridc, key, S, Snapshot(ddsn), Snapshot(phi), Snapshot(adfx), Snapshot(adfy), phi.Length0, phi.Length1, k)
             == Filled(Snapshot(mk), Done)
    modifies mk
    ensures LinearRounds(gridc, key, S, Snapshot(ddsn), Snapshot(phi), Snapshot(adfx), Snapshot(adfy), phi.Length0, phi.Length1, k + 1)
            == Filled(Snapshot(mk), out)
  {
    LinearExtrapolationInPlace(phi, mk, ddsn, adfx, adfy, gridc.dx, gridc.dy);
    out := gridc.FillGuardCells(key, mk, Alone, true);
  }

  /** The linear-extrapolation loop on the marker `mk`, with the fill of `key` after each round; it stops at the first exception. */
  method LinearLoop(gridc: Grid, key: string, phi: array2<real>, mk: array2<real>, ddsn: array2<real>,
                    adfx: array2<real>, adfy: array2<real>, iter: nat) returns (out: Outcome)
    requires gridc.dx != 0.0 && gridc.dy != 0.0
    requires mk.Length0 == phi.Length0 && mk.Length1 == phi.Length1 && ddsn.Length0 == phi.Length0 && ddsn.Length1 == phi.Length1
    requires adfx.Length0 == phi.Length0 && adfx.Length1 == phi.Length1 && adfy.Length0 == phi.Length0 && adfy.Length1 == phi.Length1
    requires mk != phi && mk != ddsn && mk != adfx && mk != adfy
    modifies mk
    ensures Filled(Snapshot(mk), out) == LinearRounds(gridc, key, old(Snapshot(mk)), Snapshot(ddsn), Snapshot(phi), Snapshot(adfx),
                                                      Snapshot(adfy), phi.Length0, phi.Length1, iter)
  {
    var n, m := phi.Length0, phi.Length1;
    ghost var S := Snapshot(mk);
    out := Done;
    var k := 0;
    while k < iter
      invariant 0 <= k <= iter && out == Done
      invariant LinearRounds(gridc, key, S, Snapshot(ddsn), Snapshot(phi), Snapshot(adfx), Snapshot(adfy), n, m, k) == Filled(Snapshot(mk), Done)
    {
      out := LinearRound(gridc, key, phi, mk, ddsn, adfx, adfy, S, k);
      if out != Done {
        LinearRoundsStop(gridc, key, S, Snapshot(ddsn), Snapshot(phi), Snapshot(adfx), Snapshot(adfy), n, m, k + 1, iter);
        return;
      }
      k := k + 1;
    }
  }

  /** One "Extrapolate grid" block on the arrays: `ddsn`, the constant loop, the linear loop with its fills. */
  method MarkerStage(gridc: Grid, key: string, phi: array2<real>, mk: array2<real>, ddsn: array2<real>,
                     adfx: array2<real>, adfy: array2<real>, iter: nat) returns (out: Outcome)
    requires phi.Length0 >= 3 && phi.Length1 >= 3 && gridc.dx != 0.0 && gridc.dy != 0.0
    requires mk.Length0 == phi.Length0 && mk.Length1 == phi.Length1 && ddsn.Length0 == phi.Length0 && ddsn.Length1 == phi.Length1
    requires adfx.Length0 == phi.Length0 && adfx.Length1 == phi.Length1 && adfy.Length0 == phi.Length0 && adfy.Length1 == phi.Length1
    requires mk != phi && mk != ddsn && mk != adfx && mk != adfy && ddsn != phi && ddsn != adfx && ddsn != adfy
    modifies mk, ddsn
    ensures Filled(Snapshot(mk), out) == ExtrapolatedMarker(gridc, key, Snapshot(phi), old(Snapshot(mk)), Snapshot(adfx), Snapshot(adfy),
                                                            phi.Length0, phi.Length1, iter)
  {
    DirectionalDerivativeInPlace(phi, mk, ddsn, adfx, adfy, gridc.dx, gridc.dy);
    ConstantLoop(phi, ddsn, adfx, adfy, gridc.dx, gridc.dy, iter);
    out := LinearLoop(gridc, key, phi, mk, ddsn, adfx, adfy, iter);
  }

  /** `advect_solid` on φ and its fill. */
  method SolidStage(gridc: Grid, key: string, phi: array2<real>, u: array2<real>, v: array2<real>, dt: real) returns (out: Outcome)
    requires phi.Length0 >= 3 && phi.Length1 >= 3 && gridc.dx != 0.0 && gridc.dy != 0.0
    requires u.Length0 == phi.Length0 - 1 && u.Length1 == phi.Length1 && v.Length0 == phi.Length0 && v.Length1 == phi.Length1 - 1
    modifies phi
    ensures Filled(Snapshot(phi), out) == SolidPhi(gridc, key, old(Snapshot(phi)), Snapshot(u), Snapshot(v), dt, phi.Length0, phi.Length1)
  {
    Weno3.AdvectSolid(phi, u, v, dt, gridc.dx, gridc.dy);
    out := gridc.FillGuardCells(key, phi, Alone, true);
  }

  /** One sweep: `redistance_solid` against the frozen copy `phiOld`, then the fill of `key`; round `k + 1` of `RedistanceRounds`. */
  method RedistanceRound(sqrt: real -> real, gridc: Grid, key: string, phi: array2<real>, phiOld: array2<real>, lsDT: real,
                         ghost S: Field, ghost k: nat) returns (out: Outcome)
    requires SqrtLaw(sqrt) && gridc.dx != 0.0 && gridc.dy != 0.0
    requires phiOld.Length0 == phi.Length0 && phiOld.Length1 == phi.Length1 && phi != phiOld && IsShape(S, phi.Length0, phi.Length1)
    requires Redistance.NoPole(Snapshot(phiOld), phi.Length0, phi.Length1)
    requires RedistanceRounds(sqrt, gridc, key, S, Snapshot(phiOld), lsDT, phi.Length0, phi.Length1, k) == Filled(Snapshot(phi), Done)
    modifies phi
    ensures RedistanceRounds(sqrt, gridc, key, S, Snapshot(phiOld), lsDT, phi.Length0, phi.Length1, k + 1) == Filled(Snapshot(phi), out)
  {
    Redistance.RedistanceSolid(sqrt, phi, phiOld, lsDT, gridc.dx, gridc.dy);
    out := gridc.FillGuardCells(key, phi, Alone, true);
  }

  /** `iter` re-distance sweeps against the fixed `phiOld`, each followed by the fill of `key`; the first exception ends them. */
  method Sweeps(sqrt: real -> real, gridc: Grid, key: string, phi: array2<real>, phiOld: array2<real>, lsDT: real,
                iter: nat) returns (out: Outcome)
    requires SqrtLaw(sqrt) && gridc.dx != 0.0 && gridc.dy != 0.0
    requires phiOld.Length0 == phi.Length0 && phiOld.Length1 == phi.Length1 && phi != phiOld
    requires Redistance.NoPole(Snapshot(phiOld), phi.Length0, phi.Length1) && Snapshot(phi) == Snapshot(phiOld)
    modifies phi
    ensures Filled(Snapshot(phi), out)
         == RedistanceRounds(sqrt, gridc, key, old(Snapshot(phi)), Snapshot(phiOld), lsDT, phi.Length0, phi.Length1, iter)
  {
    ghost var S := Snapshot(phi);
    out := Done;
    var k := 0;
    while k < iter
      invariant 0 <= k <= iter && out == Done
      invariant RedistanceRounds(sqrt, gridc, key, S, Snapshot(phiOld), lsDT, phi.Length0, phi.Length1, k) == Filled(Snapshot(phi), Done)
    {
      out := RedistanceRound(sqrt, gridc, key, phi, phiOld, lsDT, S, k);
      if out != Done {
        RedistanceRoundsStop(sqrt, gridc, key, S, Snapshot(phiOld), lsDT, phi.Length0, phi.Length1, k + 1, iter);
        return;
      }
      k := k + 1;
    }
  }

  /** `phi_old`, `lsDT` and the re-distance loop with the fill of `key` after each sweep; it stops at the first exception. */
  method RedistanceLoop(sqrt: real -> real, gridc: Grid, key: string, phi: array2<real>, iter: nat) returns (out: Outcome)
    requires SqrtLaw(sqrt) && gridc.dx != 0.0 && gridc.dy != 0.0
    requires Redistance.NoPole(Snapshot(phi), phi.Length0, phi.Length1)
    modifies phi
    ensures Filled(Snapshot(phi), out) == RedistanceRounds(sqrt, gridc, key, old(Snapshot(phi)), old(Snapshot(phi)),
                                                           LevelSetStep(sqrt, gridc.dx, gridc.dy), phi.Length0, phi.Length1, iter)
  {
    var phiOld := CopyOf(phi);
    var lsDT := sqrt(gridc.dx * gridc.dx + gridc.dy * gridc.dy) / 2.0;
    out := Sweeps(sqrt, gridc, key, phi, phiOld, lsDT, iter);
  }

  /** The masked advection of both markers and the normals of φ into fresh zero arrays. */
  method AdvectMarkers(sqrt: real -> real, gridc: Grid, phi: array2<real>, lmx: array2<real>, lmy: array2<real>,
                       u: array2<real>, v: array2<real>, dt: real) returns (adfx: array2<real>, adfy: array2<real>)
    requires phi.Length0 >= 3 && phi.Length1 >= 3 && gridc.dx != 0.0 && gridc.dy != 0.0
    requires lmx.Length0 == phi.Length0 && lmx.Length1 == phi.Length1 && lmy.Length0 == phi.Length0 && lmy.Length1 == phi.Length1
    requires u.Length0 == phi.Length0 - 1 && u.Length1 == phi.Length1 && v.Length0 == phi.Length0 && v.Length1 == phi.Length1 - 1
    requires phi != lmx && phi != lmy && lmx != lmy
    requires NonFlat(sqrt, Snapshot(phi), gridc.dx, gridc.dy, phi.Length0, phi.Length1)
    modifies lmx, lmy
    ensures fresh(adfx) && fresh(adfy) && adfx != adfy
    ensures adfx.Length0 == phi.Length0 && adfx.Length1 == phi.Length1 && adfy.Length0 == phi.Length0 && adfy.Length1 == phi.Length1
    ensures var P, U, V, n, m := Snapshot(phi), Snapshot(u), Snapshot(v), phi.Length0, phi.Length1;
      Snapshot(lmx) == AdvectedMarker(gridc, P, old(Snapshot(lmx)), U, V, dt, n, m) &&
      Snapshot(lmy) == AdvectedMarker(gridc, P, old(Snapshot(lmy)), U, V, dt, n, m) &&
      Snapshot(adfx) == FreshNormal(sqrt, P, gridc.dx, gridc.dy, n, m, true) &&
      Snapshot(adfy) == FreshNormal(sqrt, P, gridc.dx, gridc.dy, n, m, false)
  {
    var n, m := phi.Length0, phi.Length1;
    adfx := Zeros(n, m);
    adfy := Zeros(n, m);
    Weno3.AdvectDynamicGrid(phi, lmx, u, v, dt, gridc.dx, gridc.dy);
    Weno3.AdvectDynamicGrid(phi, lmy, u, v, dt, gridc.dx, gridc.dy);
    NormalVectorSolid(sqrt, phi, adfx, adfy, gridc.dx, gridc.dy);
  }

  /** The markers' part of `advect`: masked advection, normals, then the two extrapolation blocks. */
  method MarkersStage(sqrt: real -> real, gridc: Grid, keyX: string, keyY: string, phi: array2<real>, lmx: array2<real>,
                      lmy: array2<real>, u: array2<real>, v: array2<real>, dt: real, extrapIter: nat) returns (out: Outcome)
    requires phi.Length0 >= 3 && phi.Length1 >= 3 && gridc.dx != 0.0 && gridc.dy != 0.0
    requires lmx.Length0 == phi.Length0 && lmx.Length1 == phi.Length1 && lmy.Length0 == phi.Length0 && lmy.Length1 == phi.Length1
    requires u.Length0 == phi.Length0 - 1 && u.Length1 == phi.Length1 && v.Length0 == phi.Length0 && v.Length1 == phi.Length1 - 1
    requires phi != lmx && phi != lmy && lmx != lmy
    requires NonFlat(sqrt, Snapshot(phi), gridc.dx, gridc.dy, phi.Length0, phi.Length1)
    modifies lmx, lmy
    ensures Advected(Snapshot(phi), Snapshot(lmx), Snapshot(lmy), out) ==
      MarkersResult(sqrt, gridc, keyX, keyY, Snapshot(phi), old(Snapshot(lmx)), old(Snapshot(lmy)), Snapshot(u), Snapshot(v),
                    dt, phi.Length0, phi.Length1, extrapIter)
  {
    var adfx, adfy := AdvectMarkers(sqrt, gridc, phi, lmx, lmy, u, v, dt);
    var ddsn := Zeros(phi.Length0, phi.Length1);
    out := MarkerStage(gridc, keyX, phi, lmx, ddsn, adfx, adfy, extrapIter);
    if out != Done {
      return;
    }
    out := MarkerStage(gridc, keyY, phi, lmy, ddsn, adfx, adfy, extrapIter);
  }

  /** The level-set part of `advect`: the solid advection of φ, then the redistancing loop. */
  method LevelSetStage(sqrt: real -> real, gridc: Grid, keyF: string, phi: array2<real>, u: array2<real>, v: array2<real>,
                       dt: real, lsetIter: nat) returns (out: Outcome)
    requires SqrtLaw(sqrt) && phi.Length0 >= 3 && phi.Length1 >= 3 && gridc.dx != 0.0 && gridc.dy != 0.0
    requires u.Length0 == phi.Length0 - 1 && u.Length1 == phi.Length1 && v.Length0 == phi.Length0 && v.Length1 == phi.Length1 - 1
    requires Redistanceable(gridc, keyF, Snapshot(phi), Snapshot(u), Snapshot(v), dt, phi.Length0, phi.Length1)
    modifies phi
    ensures Filled(Snapshot(phi), out) ==
      LevelSetResult(sqrt, gridc, keyF, old(Snapshot(phi)), Snapshot(u), Snapshot(v), dt, phi.Length0, phi.Length1, lsetIter)
  {
    out := SolidStage(gridc, keyF, phi, u, v, dt);
    if out != Done {
      return;
    }
    out := RedistanceLoop(sqrt, gridc, keyF, phi, lsetIter);
  }

  /**
   * `advect` on the single block: `keyF`, `keyX`, `keyY` name the grid
   * variables held by `phi`, `lmx`, `lmy`; `lsetIter` and `extrapIter` are
   * the options `lset_redistance` and `extrap_solid`. The velocities are only read.
   */
  method AdvectStep(sqrt: real -> real, gridc: Grid, keyF: string, keyX: string, keyY: string,
                    phi: array2<real>, lmx: array2<real>, lmy: array2<real>, u: array2<real>, v: array2<real>,
                    dt: real, lsetIter: nat, extrapIter: nat) returns (out: Outcome)
    requires SqrtLaw(sqrt) && gridc.dx != 0.0 && gridc.dy != 0.0
    requires phi.Length0 == gridc.nx + 2 && phi.Length1 == gridc.ny + 2 && phi.Length0 >= 3 && phi.Length1 >= 3
    requires lmx.Length0 == phi.Length0 && lmx.Length1 == phi.Length1 && lmy.Length0 == phi.Length0 && lmy.Length1 == phi.Length1
    requires u.Length0 == phi.Length0 - 1 && u.Length1 == phi.Length1 && v.Length0 == phi.Length0 && v.Length1 == phi.Length1 - 1
    requires phi != lmx && phi != lmy && lmx != lmy
    requires NonFlat(sqrt, Snapshot(phi), gridc.dx, gridc.dy, phi.Length0, phi.Length1)
    requires Redistanceable(gridc, keyF, Snapshot(phi), Snapshot(u), Snapshot(v), dt, phi.Length0, phi.Length1)
    modifies phi, lmx, lmy
    ensures Advected(Snapshot(phi), Snapshot(lmx), Snapshot(lmy), out) ==
      StepResult(sqrt, gridc, keyF, keyX, keyY, old(Snapshot(phi)), old(Snapshot(lmx)), old(Snapshot(lmy)), Snapshot(u), Snapshot(v),
                 dt, phi.Length0, phi.Length1, lsetIter, extrapIter)
  {
    out := MarkersStage(sqrt, gridc, keyX, keyY, phi, lmx, lmy, u, v, dt, extrapIter);
    if out != Done {
      return;
    }
    out := LevelSetStage(sqrt, gridc, keyF, phi, u, v, dt, lsetIter);
  }
}
