// The incompressible Navier-Stokes unit: construction (options, stub mode,
// the predictor and corrector boundary-condition lists) and the fractional
// step `_advance`, composed from the projection, mass-balance and grid models.
//
// Arrays are the views the projection routines index, x along the first
// axis, so every guard fill here is the transposed one of the grid model.

module Ins {
  import opened Fields
  import opened Grid
  import Operators
  import Projection
  import MassBalance
  import ImBound

  // ---------------------------------------------------------------------------
  // Options and statistics

  /** A value of the `ins_info` dictionary. */
  datatype Setting = Flag(on: bool) | Name(name: string)

  /** The time-stepping schemes of the predictor table. */
  datatype Scheme = Euler | AB2

  /** A value of `scalars.stats`: an iteration count, a real, or `None` (a stub solver's answer). */
  datatype Stat = Count(n: int) | Num(x: real) | NoValue

  /** The defaults: Adams-Bashforth stepping with pressure correction. */
  const Defaults: map<string, Setting> := map["time_stepping" := Name("ab2"), "pressure_correct" := Flag(true)]

  /** The predictor table: `euler` and `ab2` are the only keys. */
  function SchemeOf(s: Setting): Option<Scheme> {
    if s == Name("euler") then Some(Euler) else if s == Name("ab2") then Some(AB2) else None
  }

  /** Without user entries for them the unit steps with Adams-Bashforth and corrects the pressure. */
  lemma DefaultOptions(user: map<string, Setting>)
    ensures "time_stepping" !in user ==> SchemeOf(Merged(Defaults, user)["time_stepping"]) == Some(AB2)
    ensures "pressure_correct" !in user ==> Merged(Defaults, user)["pressure_correct"] == Flag(true)
    ensures "time_stepping" in user ==> Merged(Defaults, user)["time_stepping"] == user["time_stepping"]
  {
  }

  // ---------------------------------------------------------------------------
  // Boundary-condition lists

  /** The velocity's predictor lists (`ustar`, `vstar`) and corrector lists (`ucorr`, `vcorr`). */
  datatype Sets = Sets(ustar: seq<Option<string>>, vstar: seq<Option<string>>,
                       ucorr: seq<Option<string>>, vcorr: seq<Option<string>>)

  /**
   * The corrector lists are copies of the predictor lists with u's xlow and
   * xhigh and v's ylow and yhigh entries set to None; a list too short for
   * those entries raises IndexError (None here).
   */
  function CorrectorSets(ustar: seq<Option<string>>, vstar: seq<Option<string>>): (r: Option<Sets>)
    ensures r.None? <==> |ustar| < 2 || |vstar| < 4
    ensures r.Some? ==> r.value.ustar == ustar && r.value.vstar == vstar
    ensures r.Some? ==> |r.value.ucorr| == |ustar| && |r.value.vcorr| == |vstar|
    ensures r.Some? ==> r.value.ucorr[0].None? && r.value.ucorr[1].None? && r.value.vcorr[2].None? && r.value.vcorr[3].None?
    ensures r.Some? ==> forall k :: 2 <= k < |ustar| ==> r.value.ucorr[k] == ustar[k]
    ensures r.Some? ==> forall k :: 0 <= k < |vstar| && k != 2 && k != 3 ==> r.value.vcorr[k] == vstar[k]
  {
    if |ustar| < 2 || |vstar| < 4 then None
    else Some(Sets(ustar, vstar, ustar[0 := None][1 := None], vstar[2 := None][3 := None]))
  }

  /** The corrector lists leave the sides the projection's divergence reads without a type. */
  predicate Open(sets: Sets) {
    |sets.ucorr| >= 2 && |sets.vcorr| >= 4
    && sets.ucorr[0].None? && sets.ucorr[1].None? && sets.vcorr[2].None? && sets.vcorr[3].None?
  }

  /** What the constructor settles outside stub mode, or the exception it raises. */
  datatype Prepared = Prepared(scheme: Scheme, sets: Sets, rescaleStub: bool) | Failed(error: Outcome)

  /**
   * The set-up of an active unit: the scheme (KeyError when the table has no
   * such key), the velocity lists of the face grids and the pressure list of
   * the cell grid (KeyError when a variable has none), then the corrector
   * lists.  `rescaleStub` records the assignment of `_rescaleVelocity` when
   * the pressure has a Dirichlet side.
   */
  function Prepare(options: map<string, Setting>, velc: string, pres: string, typesX: map<string, seq<Option<string>>>,
                   typesY: map<string, seq<Option<string>>>, typesC: map<string, seq<Option<string>>>): (r: Prepared)
    requires "time_stepping" in options
    ensures r.Failed? ==> r.error == KeyError || r.error == IndexError
    ensures r == Failed(KeyError) <==>
      SchemeOf(options["time_stepping"]).None? || velc !in typesX || velc !in typesY || pres !in typesC
    ensures r == Failed(IndexError) <==>
      SchemeOf(options["time_stepping"]).Some? && velc in typesX && velc in typesY && pres in typesC &&
      (|typesX[velc]| < 2 || |typesY[velc]| < 4)
    ensures r.Prepared? ==> Some(r.scheme) == SchemeOf(options["time_stepping"]) && velc in typesX && velc in typesY && pres in typesC
    ensures r.Prepared? ==> r.sets.ustar == typesX[velc] && r.sets.vstar == typesY[velc] && Open(r.sets)
    ensures r.Prepared? ==> (r.rescaleStub <==> Some("dirichlet") in typesC[pres])
  {
    var scheme := SchemeOf(options["time_stepping"]);
    if scheme.None? then Failed(KeyError)
    else if velc !in typesX || velc !in typesY || pres !in typesC then Failed(KeyError)
    else
      var sets := CorrectorSets(typesX[velc], typesY[velc]);
      if sets.None? then Failed(IndexError)
      else Prepared(scheme.value, sets.value, Some("dirichlet") in typesC[pres])
  }

  // ---------------------------------------------------------------------------
  // The state a step works on

  /** The fields of one step: velocities, explicit terms, pressure, pressure increment and divergence. */
  datatype Flow = Flow(u: Field, v: Field, hx: Field, hy: Field, p: Field, dp: Field, div: Field)

  /** The arrays of those fields. */
  datatype Arrays = Arrays(u: array2<real>, v: array2<real>, hx: array2<real>, hy: array2<real>,
                           p: array2<real>, dp: array2<real>, div: array2<real>)

  function FlowOf(a: Arrays): Flow
    reads a.u, a.v, a.hx, a.hy, a.p, a.dp, a.div
  {
    Flow(Snapshot(a.u), Snapshot(a.v), Snapshot(a.hx), Snapshot(a.hy), Snapshot(a.p), Snapshot(a.dp), Snapshot(a.div))
  }

  /** The staggered shapes of an `n` by `m` cell grid. */
  predicate Shapes(f: Flow, n: nat, m: nat) {
    Projection.Staggered(f.p, f.u, f.v, n, m) && IsShape(f.hx, n - 1, m) && IsShape(f.hy, n, m - 1)
    && IsShape(f.dp, n, m) && IsShape(f.div, n, m)
  }

  /** Seven distinct arrays of the staggered shapes of the pressure array. */
  predicate Fits(a: Arrays) {
    Projection.PredictorArrays(a.p, a.u, a.v, a.hx, a.hy)
    && a.dp.Length0 == a.p.Length0 && a.dp.Length1 == a.p.Length1
    && a.div.Length0 == a.p.Length0 && a.div.Length1 == a.p.Length1
    && a.dp != a.u && a.dp != a.v && a.dp != a.hx && a.dp != a.hy && a.dp != a.p
    && a.div != a.u && a.div != a.v && a.div != a.hx && a.div != a.hy && a.div != a.p && a.div != a.dp
  }

  /** A grid's kind and spacing. */
  datatype Spacing = Spacing(kind: Kind, dx: real, dy: real)

  function Geo(g: Grid): Spacing {
    Spacing(g.kind, g.dx, g.dy)
  }

  /** The boundary-condition records of the cell grid and the two face grids. */
  datatype Records = Records(tc: map<string, seq<Option<string>>>, tx: map<string, seq<Option<string>>>,
                             ty: map<string, seq<Option<string>>>, vc: map<string, seq<real>>,
                             vx: map<string, seq<real>>, vy: map<string, seq<real>>)

  function RecordsOf(gc: Grid, gx: Grid, gy: Grid): Records
    reads gc, gx, gy
  {
    Records(gc.bcType, gx.bcType, gy.bcType, gc.bcVal, gx.bcVal, gy.bcVal)
  }

  /** What an active unit fixed at construction. */
  datatype Setup = Setup(velc: string, divv: string, scheme: Scheme, ipres: bool, sets: Sets)

  /** The start and end times of the step and of the Poisson solve. */
  datatype Clock = Clock(start: real, poissonBegin: real, poissonEnd: real, end: real)

  /** The Poisson unit's answer: the pressure increment it stores, and its iteration count and residual. */
  datatype Solved = Solved(dp: Field, ites: Stat, res: Stat)

  /**
   * What the step takes from outside the unit: the Reynolds number and time
   * step of `scalars`, the effect of the installed immersed-boundary routine
   * on the velocities, the Poisson unit's solve from the right-hand side and
   * the current increment, the operator statistics of the final fields
   * (u, v, p, div), and the clock.
   */
  datatype Inputs = Inputs(re: real, dt: real, force: (ImBound.Routine, Field, Field) -> (Field, Field),
                           solve: (Field, Field) -> Solved, statsOf: (Field, Field, Field, Field) -> map<string, Stat>,
                           clock: Clock)

  ghost predicate KeepsFaces(force: (ImBound.Routine, Field, Field) -> (Field, Field), n: nat, m: nat) {
    forall r, u, v {:trigger force(r, u, v)} :: Projection.Faces(u, v, n, m) ==> Projection.Faces(force(r, u, v).0, force(r, u, v).1, n, m)
  }

  ghost predicate KeepsShape(solve: (Field, Field) -> Solved, n: nat, m: nat) {
    forall rhs, dp {:trigger solve(rhs, dp)} :: IsShape(rhs, n, m) && IsShape(dp, n, m) ==> IsShape(solve(rhs, dp).dp, n, m)
  }

  /** What every stage needs: shapes, velocity lists of at least four sides, nonzero spacings, Reynolds number and time step. */
  ghost predicate Ready(s: Setup, c: Spacing, x: Spacing, y: Spacing, f: Flow, e: Inputs, n: nat, m: nat) {
    Shapes(f, n, m) && Settled(s, c, x, y, e, n, m)
  }

  /** Everything `Ready` asks but the shapes. */
  ghost predicate Settled(s: Setup, c: Spacing, x: Spacing, y: Spacing, e: Inputs, n: nat, m: nat) {
    |s.sets.ustar| >= 4 && |s.sets.vstar| >= 4
    && c.dx != 0.0 && c.dy != 0.0 && x.dx != 0.0 && x.dy != 0.0 && y.dx != 0.0 && y.dy != 0.0
    && e.re != 0.0 && e.dt != 0.0 && KeepsFaces(e.force, n, m) && KeepsShape(e.solve, n, m)
  }

  // ---------------------------------------------------------------------------
  // The stages of `_advance`

  /** `get_qin` on both face grids, under the predictor lists. */
  function QinOf(s: Setup, x: Spacing, y: Spacing, u: Field, v: Field, n: nat, m: nat): real
    requires n >= 3 && m >= 3 && IsShape(u, n - 1, m) && IsShape(v, n, m - 1) && |s.sets.ustar| >= 4 && |s.sets.vstar| >= 4
  {
    MassBalance.Qin(x.kind, u, s.sets.ustar, x.dx, x.dy, n - 1, m) + MassBalance.Qin(y.kind, v, s.sets.vstar, y.dx, y.dy, n, m - 1)
  }

  /** `get_qout` on both face grids, under the predictor lists. */
  function QoutOf(s: Setup, x: Spacing, y: Spacing, u: Field, v: Field, n: nat, m: nat): real
    requires n >= 3 && m >= 3 && IsShape(u, n - 1, m) && IsShape(v, n, m - 1) && |s.sets.ustar| >= 4 && |s.sets.vstar| >= 4
  {
    MassBalance.Qout(x.kind, u, s.sets.ustar, x.dx, x.dy, n - 1, m) + MassBalance.Qout(y.kind, v, s.sets.vstar, y.dx, y.dy, n, m - 1)
  }

  /**
   * The installed predictor with the time step as `ifac`: the convection and
   * pressure gradients read `x.dx` and `y.dy`, each diffusion term its own
   * face grid's two spacings.
   */
  function Predicted(s: Setup, x: Spacing, y: Spacing, f: Flow, e: Inputs, n: nat, m: nat): (r: Flow)
    requires Shapes(f, n, m) && x.dx != 0.0 && x.dy != 0.0 && y.dx != 0.0 && y.dy != 0.0 && e.re != 0.0
    ensures Shapes(r, n, m)
  {
    match s.scheme
    case Euler =>
      f.(u := Projection.EulerU(f.u, f.v, f.p, e.re, e.dt, s.ipres, x.dx, y.dy, x.dy, n, m),
         v := Projection.EulerV(f.u, f.v, f.p, e.re, e.dt, s.ipres, x.dx, y.dy, y.dx, n, m),
         hx := Projection.StoredHX(f.u, f.v, f.hx, e.re, x.dx, y.dy, x.dy, n, m),
         hy := Projection.StoredHY(f.u, f.v, f.hy, e.re, x.dx, y.dy, y.dx, n, m))
    case AB2 =>
      f.(u := Projection.AB2U(f.u, f.v, f.hx, f.p, e.re, e.dt, s.ipres, x.dx, y.dy, x.dy, n, m),
         v := Projection.AB2V(f.u, f.v, f.hy, f.p, e.re, e.dt, s.ipres, x.dx, y.dy, y.dx, n, m),
         hx := Projection.StoredHX(f.u, f.v, f.hx, e.re, x.dx, y.dy, x.dy, n, m),
         hy := Projection.StoredHY(f.u, f.v, f.hy, e.re, x.dx, y.dy, y.dx, n, m))
  }

  /** `fill_guard_cells(velc)` on one face grid, single block, on the transposed view. */
  function FillOn(g: Spacing, types: map<string, seq<Option<string>>>, vals: map<string, seq<real>>, key: string,
                  w: Field, n: nat, m: nat): (r: Filled)
    requires IsShape(w, n, m)
    ensures IsShape(r.f, n, m)
  {
    VarFill(g.kind, types, vals, key, w, n, m, Alone, g.dx, g.dy, true)
  }

  /** A stage's fields and outcome. */
  datatype Stage = Stage(flow: Flow, out: Outcome)

  /** `fill_guard_cells(velc)` on both face grids; an exception of the first fill ends the stage before the second. */
  function Refilled(s: Setup, x: Spacing, y: Spacing, tx: map<string, seq<Option<string>>>, ty: map<string, seq<Option<string>>>,
                    vx: map<string, seq<real>>, vy: map<string, seq<real>>, g: Flow, n: nat, m: nat): (t: Stage)
    requires Shapes(g, n, m)
    ensures Shapes(t.flow, n, m)
  {
    var fu := FillOn(x, tx, vx, s.velc, g.u, n - 1, m);
    if fu.out != Done then Stage(g.(u := fu.f), fu.out)
    else
      var fv := FillOn(y, ty, vy, s.velc, g.v, n, m - 1);
      Stage(g.(u := fu.f, v := fv.f), fv.out)
  }

  /** Immersed-boundary forcing, then the velocities' guard fills; with no forcing routine installed, AttributeError. */
  function Forced(s: Setup, x: Spacing, y: Spacing, tx: map<string, seq<Option<string>>>, ty: map<string, seq<Option<string>>>,
                  vx: map<string, seq<real>>, vy: map<string, seq<real>>, g: Flow, ran: ImBound.Option<ImBound.Routine>,
                  e: Inputs, n: nat, m: nat): (t: Stage)
    requires Shapes(g, n, m) && KeepsFaces(e.force, n, m)
    ensures Shapes(t.flow, n, m)
  {
    if ran.None? then Stage(g, AttributeError)
    else
      var w := e.force(ran.value, g.u, g.v);
      Refilled(s, x, y, tx, ty, vx, vy, g.(u := w.0, v := w.1), n, m)
  }

  /** `rescale_velocity` on both face grids with the same `(Qin, Qout)`, under the predictor lists. */
  function Balanced(s: Setup, x: Spacing, y: Spacing, g: Flow, qin: real, qout: real, n: nat, m: nat): (r: Flow)
    requires Shapes(g, n, m) && |s.sets.ustar| >= 4 && |s.sets.vstar| >= 4
    ensures Shapes(r, n, m)
  {
    var c := MassBalance.RescaleFactor(qin, qout);
    g.(u := MassBalance.Rescaled(x.kind, g.u, s.sets.ustar, c, n - 1, m),
       v := MassBalance.Rescaled(y.kind, g.v, s.sets.vstar, c, n, m - 1))
  }

  /** The divergence with factor `ifac` on the cell grid, then its guard cells. */
  function DivergenceFill(s: Setup, c: Spacing, tc: map<string, seq<Option<string>>>, vc: map<string, seq<real>>, g: Flow,
                          ifac: real, n: nat, m: nat): (d: Filled)
    requires Shapes(g, n, m) && c.dx != 0.0 && c.dy != 0.0 && ifac != 0.0
    ensures IsShape(d.f, n, m)
  {
    FillOn(c, tc, vc, s.divv, Projection.Divergence(g.u, g.v, g.div, ifac, c.dx, c.dy, n, m), n, m)
  }

  /** The corrector with the time step and the face grids' spacings, then the velocities' guard fills under `tx`, `ty`. */
  function Corrected(s: Setup, x: Spacing, y: Spacing, tx: map<string, seq<Option<string>>>, ty: map<string, seq<Option<string>>>,
                     vx: map<string, seq<real>>, vy: map<string, seq<real>>, g: Flow, e: Inputs, n: nat, m: nat): (t: Stage)
    requires Shapes(g, n, m) && x.dx != 0.0 && y.dy != 0.0
    ensures Shapes(t.flow, n, m)
  {
    Refilled(s, x, y, tx, ty, vx, vy,
             g.(u := Projection.CorrectU(g.u, g.dp, e.dt, x.dx, n, m), v := Projection.CorrectV(g.v, g.dp, e.dt, y.dy, n, m),
                p := Projection.CorrectP(g.p, g.dp, s.ipres, n, m)), n, m)
  }

  /** The whole step: fields, statistics, the face grids' velocity records and the outcome. */
  datatype Run = Run(flow: Flow, stats: map<string, Stat>, tx: map<string, seq<Option<string>>>,
                     ty: map<string, seq<Option<string>>>, out: Outcome)

  /**
   * `_advance`: the predictor lists go into the face grids' records and Qin
   * is recorded; then `Forward`.
   */
  function AdvanceRun(s: Setup, c: Spacing, x: Spacing, y: Spacing, r: Records, f: Flow, stats: map<string, Stat>,
                      ran: ImBound.Option<ImBound.Routine>, e: Inputs, n: nat, m: nat): Run
    requires Ready(s, c, x, y, f, e, n, m)
  {
    var qin := QinOf(s, x, y, f.u, f.v, n, m);
    Forward(s, c, x, y, r.(tx := Merged(r.tx, map[s.velc := s.sets.ustar]), ty := Merged(r.ty, map[s.velc := s.sets.vstar])),
            f, qin, stats["qin" := Num(qin)], ran, e, n, m)
  }

  /**
   * Predictor, forcing and the velocities' guard fills under the records
   * `r`, then `Pressure`.  An exception ends the step with what was written
   * so far.
   */
  function Forward(s: Setup, c: Spacing, x: Spacing, y: Spacing, r: Records, f: Flow, qin: real, st1: map<string, Stat>,
                   ran: ImBound.Option<ImBound.Routine>, e: Inputs, n: nat, m: nat): Run
    requires Ready(s, c, x, y, f, e, n, m)
  {
    var b := Forced(s, x, y, r.tx, r.ty, r.vx, r.vy, Predicted(s, x, y, f, e, n, m), ran, e, n, m);
    if b.out != Done then Run(b.flow, st1, r.tx, r.ty, b.out)
    else Pressure(s, c, x, y, r, r.tx, r.ty, b.flow, qin, st1, e, n, m)
  }

  /**
   * The middle of the step: Qout and rescaling; divergence over the time
   * step and its guard fill; the Poisson solve and its statistics; then
   * `Finish`.
   */
  function Pressure(s: Setup, c: Spacing, x: Spacing, y: Spacing, r: Records, tx: map<string, seq<Option<string>>>,
                    ty: map<string, seq<Option<string>>>, g0: Flow, qin: real, st1: map<string, Stat>, e: Inputs,
                    n: nat, m: nat): Run
    requires Shapes(g0, n, m) && Settled(s, c, x, y, e, n, m)
  {
    var qout := QoutOf(s, x, y, g0.u, g0.v, n, m);
    var st2 := st1["qout" := Num(qout)];
    var g := Balanced(s, x, y, g0, qin, qout, n, m);
    var rhs := DivergenceFill(s, c, r.tc, r.vc, g, e.dt, n, m);
    if rhs.out != Done then Run(g.(div := rhs.f), st2, tx, ty, rhs.out)
    else
      var sol := e.solve(rhs.f, g.dp);
      var st3 := st2["ites" := sol.ites]["res" := sol.res]["poisson_time" := Num(e.clock.poissonEnd - e.clock.poissonBegin)];
      Finish(s, c, x, y, r, tx, ty, g.(div := rhs.f, dp := sol.dp), st3, e, n, m)
  }

  /**
   * The end of the step: corrector lists; corrector and guard fill;
   * divergence and its guard fill; then the timing and the operator
   * statistics of the final fields.
   */
  function Finish(s: Setup, c: Spacing, x: Spacing, y: Spacing, r: Records, tx: map<string, seq<Option<string>>>,
                  ty: map<string, seq<Option<string>>>, g: Flow, st3: map<string, Stat>, e: Inputs, n: nat, m: nat): Run
    requires Shapes(g, n, m) && Settled(s, c, x, y, e, n, m)
  {
    var tx2 := Merged(tx, map[s.velc := s.sets.ucorr]);
    var ty2 := Merged(ty, map[s.velc := s.sets.vcorr]);
    var h := Corrected(s, x, y, tx2, ty2, r.vx, r.vy, g, e, n, m);
    if h.out != Done then Run(h.flow, st3, tx2, ty2, h.out)
    else
      var k := DivergenceFill(s, c, r.tc, r.vc, h.flow, 1.0, n, m);
      var last := h.flow.(div := k.f);
      if k.out != Done then Run(last, st3, tx2, ty2, k.out)
      else
        var st4 := st3["ins_time" := Num(e.clock.end - e.clock.start)];
        Run(last, Merged(st4, e.statsOf(last.u, last.v, last.p, last.div)), tx2, ty2, Done)
  }

  /** `Forward` ends with the forcing stage when that raises. */
  lemma ForwardStops(s: Setup, c: Spacing, x: Spacing, y: Spacing, r: Records, f: Flow, qin: real, st1: map<string, Stat>,
                     ran: ImBound.Option<ImBound.Routine>, e: Inputs, n: nat, m: nat, b: Stage)
    requires Ready(s, c, x, y, f, e, n, m)
    requires b == Forced(s, x, y, r.tx, r.ty, r.vx, r.vy, Predicted(s, x, y, f, e, n, m), ran, e, n, m) && b.out != Done
    ensures Forward(s, c, x, y, r, f, qin, st1, ran, e, n, m) == Run(b.flow, st1, r.tx, r.ty, b.out)
  {
  }

  /** Otherwise `Forward` is `Pressure` on the forced fields. */
  lemma ForwardGoesOn(s: Setup, c: Spacing, x: Spacing, y: Spacing, r: Records, f: Flow, qin: real, st1: map<string, Stat>,
                      ran: ImBound.Option<ImBound.Routine>, e: Inputs, n: nat, m: nat, b: Stage)
    requires Ready(s, c, x, y, f, e, n, m)
    requires b == Forced(s, x, y, r.tx, r.ty, r.vx, r.vy, Predicted(s, x, y, f, e, n, m), ran, e, n, m) && b.out == Done
    ensures Forward(s, c, x, y, r, f, qin, st1, ran, e, n, m) == Pressure(s, c, x, y, r, r.tx, r.ty, b.flow, qin, st1, e, n, m)
  {
  }

  /** `Finish` ends with the corrector's guard fills when they raise. */
  lemma FinishStops(s: Setup, c: Spacing, x: Spacing, y: Spacing, r: Records, tx: map<string, seq<Option<string>>>,
                    ty: map<string, seq<Option<string>>>, g: Flow, st3: map<string, Stat>, e: Inputs, n: nat, m: nat,
                    tx2: map<string, seq<Option<string>>>, ty2: map<string, seq<Option<string>>>, h: Stage)
    requires Shapes(g, n, m) && Settled(s, c, x, y, e, n, m)
    requires tx2 == Merged(tx, map[s.velc := s.sets.ucorr]) && ty2 == Merged(ty, map[s.velc := s.sets.vcorr])
    requires h == Corrected(s, x, y, tx2, ty2, r.vx, r.vy, g, e, n, m) && h.out != Done
    ensures Finish(s, c, x, y, r, tx, ty, g, st3, e, n, m) == Run(h.flow, st3, tx2, ty2, h.out)
  {
  }

  /** Otherwise `Finish` ends with the final divergence and, when its guard fill completes, the statistics. */
  lemma FinishEnds(s: Setup, c: Spacing, x: Spacing, y: Spacing, r: Records, tx: map<string, seq<Option<string>>>,
                   ty: map<string, seq<Option<string>>>, g: Flow, st3: map<string, Stat>, e: Inputs, n: nat, m: nat,
                   tx2: map<string, seq<Option<string>>>, ty2: map<string, seq<Option<string>>>, h: Stage, k: Filled)
    requires Shapes(g, n, m) && Settled(s, c, x, y, e, n, m)
    requires tx2 == Merged(tx, map[s.velc := s.sets.ucorr]) && ty2 == Merged(ty, map[s.velc := s.sets.vcorr])
    requires h == Corrected(s, x, y, tx2, ty2, r.vx, r.vy, g, e, n, m) && h.out == Done
    requires k == DivergenceFill(s, c, r.tc, r.vc, h.flow, 1.0, n, m)
    ensures Finish(s, c, x, y, r, tx, ty, g, st3, e, n, m).flow == h.flow.(div := k.f)
    ensures Finish(s, c, x, y, r, tx, ty, g, st3, e, n, m).tx == tx2 && Finish(s, c, x, y, r, tx, ty, g, st3, e, n, m).ty == ty2
    ensures Finish(s, c, x, y, r, tx, ty, g, st3, e, n, m).out == k.out
    ensures k.out != Done ==> Finish(s, c, x, y, r, tx, ty, g, st3, e, n, m).stats == st3
    ensures k.out == Done ==>
              Finish(s, c, x, y, r, tx, ty, g, st3, e, n, m).stats
                == Merged(st3["ins_time" := Num(e.clock.end - e.clock.start)], e.statsOf(h.flow.u, h.flow.v, h.flow.p, k.f))
  {
  }

  /** `Pressure` ends with the divergence's guard fill when that raises. */
  lemma PressureStops(s: Setup, c: Spacing, x: Spacing, y: Spacing, r: Records, tx: map<string, seq<Option<string>>>,
                      ty: map<string, seq<Option<string>>>, g0: Flow, qin: real, st1: map<string, Stat>, e: Inputs,
                      n: nat, m: nat, qout: real, g: Flow, rhs: Filled)
    requires Shapes(g0, n, m) && Settled(s, c, x, y, e, n, m)
    requires qout == QoutOf(s, x, y, g0.u, g0.v, n, m) && g == Balanced(s, x, y, g0, qin, qout, n, m)
    requires rhs == DivergenceFill(s, c, r.tc, r.vc, g, e.dt, n, m) && rhs.out != Done
    ensures Pressure(s, c, x, y, r, tx, ty, g0, qin, st1, e, n, m) == Run(g.(div := rhs.f), st1["qout" := Num(qout)], tx, ty, rhs.out)
  {
  }

  /** Otherwise `Pressure` is `Finish` after the Poisson solve. */
  lemma PressureGoesOn(s: Setup, c: Spacing, x: Spacing, y: Spacing, r: Records, tx: map<string, seq<Option<string>>>,
                       ty: map<string, seq<Option<string>>>, g0: Flow, qin: real, st1: map<string, Stat>, e: Inputs,
                       n: nat, m: nat, qout: real, g: Flow, rhs: Filled, sol: Solved)
    requires Shapes(g0, n, m) && Settled(s, c, x, y, e, n, m)
    requires qout == QoutOf(s, x, y, g0.u, g0.v, n, m) && g == Balanced(s, x, y, g0, qin, qout, n, m)
    requires rhs == DivergenceFill(s, c, r.tc, r.vc, g, e.dt, n, m) && rhs.out == Done && sol == e.solve(rhs.f, g.dp)
    ensures Pressure(s, c, x, y, r, tx, ty, g0, qin, st1, e, n, m)
         == Finish(s, c, x, y, r, tx, ty, g.(div := rhs.f, dp := sol.dp),
                   st1["qout" := Num(qout)]["ites" := sol.ites]["res" := sol.res]
                      ["poisson_time" := Num(e.clock.poissonEnd - e.clock.poissonBegin)], e, n, m)
  {
  }

  // ---------------------------------------------------------------------------
  // The projection closes: the step ends divergence-free

  /** The Poisson unit solves the pressure equation exactly in the interior, in the projection's convention. */
  ghost predicate Solves(solve: (Field, Field) -> Solved, n: nat, m: nat, dx: real, dy: real)
    requires dx != 0.0 && dy != 0.0
  {
    forall rhs, dp {:trigger solve(rhs, dp)} :: IsShape(rhs, n, m) && IsShape(dp, n, m) ==>
      IsShape(solve(rhs, dp).dp, n, m) &&
      forall a, b :: Interior(a, b, n, m) ==> Operators.Laplacian(solve(rhs, dp).dp, n, m, dx, dy, a, b) == rhs[a][b]
  }

  /** A guard fill on the transposed view never writes a face the divergence reads on an untyped side. */
  lemma FillKeepsUntyped(g: Spacing, types: map<string, seq<Option<string>>>, vals: map<string, seq<real>>, key: string,
                         w: Field, n: nat, m: nat, lo: nat, i: int, j: int)
    requires IsShape(w, n, m) && 0 <= i < n && 0 <= j < m && (lo == 0 || lo == 2)
    requires key in types ==> |types[key]| >= lo + 2 && types[key][lo].None? && types[key][lo + 1].None?
    requires lo == 0 ==> 1 <= j < m - 1
    requires lo == 2 ==> 1 <= i < n - 1
    ensures FillOn(g, types, vals, key, w, n, m).f[i][j] == w[i][j]
  {
    if key in types && key in vals {
      var t, vs := types[key], vals[key];
      var k := SideCount(t, vs);
      forall p | 0 <= p < k && !Alone[p] && t[p].Some?
        ensures !OnGuard(SideOf(LocationAt(p), true), n, m, i, j)
      {
        assert p != lo && p != lo + 1;
      }
      FillToFrame(g.kind, w, n, m, t, vs, Alone, g.dx, g.dy, true, k, i, j);
    }
  }

  /** Off the outer ring the guard fill keeps the field. */
  lemma FillKeepsInterior(g: Spacing, types: map<string, seq<Option<string>>>, vals: map<string, seq<real>>, key: string,
                          w: Field, n: nat, m: nat, i: int, j: int)
    requires IsShape(w, n, m) && Interior(i, j, n, m)
    ensures FillOn(g, types, vals, key, w, n, m).f[i][j] == w[i][j]
  {
    VarFillKeepsInterior(g.kind, types, vals, key, w, n, m, Alone, g.dx, g.dy, true, i, j);
  }

  /** A corrector stage that completes holds the guard-filled corrected velocities. */
  lemma CorrectedFields(s: Setup, x: Spacing, y: Spacing, tx: map<string, seq<Option<string>>>, ty: map<string, seq<Option<string>>>,
                        vx: map<string, seq<real>>, vy: map<string, seq<real>>, g: Flow, e: Inputs, n: nat, m: nat)
    requires Shapes(g, n, m) && x.dx != 0.0 && y.dy != 0.0
    requires Corrected(s, x, y, tx, ty, vx, vy, g, e, n, m).out == Done
    ensures Corrected(s, x, y, tx, ty, vx, vy, g, e, n, m).flow.u
         == FillOn(x, tx, vx, s.velc, Projection.CorrectU(g.u, g.dp, e.dt, x.dx, n, m), n - 1, m).f
    ensures Corrected(s, x, y, tx, ty, vx, vy, g, e, n, m).flow.v
         == FillOn(y, ty, vy, s.velc, Projection.CorrectV(g.v, g.dp, e.dt, y.dy, n, m), n, m - 1).f
  {
  }

  /**
   * Guard-filling the face velocities leaves the divergence of every
   * interior cell as it was, when no type is set on the sides across the
   * faces' own direction (x sides for u, y sides for v).
   */
  lemma FilledDivergence(x: Spacing, y: Spacing, tx: map<string, seq<Option<string>>>, ty: map<string, seq<Option<string>>>,
                         vx: map<string, seq<real>>, vy: map<string, seq<real>>, key: string, u: Field, v: Field,
                         dx: real, dy: real, n: nat, m: nat, a: int, b: int)
    requires Projection.Faces(u, v, n, m) && dx != 0.0 && dy != 0.0 && Interior(a, b, n, m)
    requires key in tx ==> |tx[key]| >= 2 && tx[key][0].None? && tx[key][1].None?
    requires key in ty ==> |ty[key]| >= 4 && ty[key][2].None? && ty[key][3].None?
    ensures Projection.DivAt(FillOn(x, tx, vx, key, u, n - 1, m).f, FillOn(y, ty, vy, key, v, n, m - 1).f, dx, dy, n, m, a, b)
         == Projection.DivAt(u, v, dx, dy, n, m, a, b)
  {
    FillKeepsUntyped(x, tx, vx, key, u, n - 1, m, 0, a, b);
    FillKeepsUntyped(x, tx, vx, key, u, n - 1, m, 0, a - 1, b);
    FillKeepsUntyped(y, ty, vy, key, v, n, m - 1, 2, a, b);
    FillKeepsUntyped(y, ty, vy, key, v, n, m - 1, 2, a, b - 1);
  }

  /**
   * The projection on its own: with an exact Poisson unit and shared
   * spacings, the corrector stage on the solved increment, when it
   * completes, leaves a velocity whose divergence is zero in every interior
   * cell, after the divergence's own guard fill.
   */
  lemma ProjectedSolenoidal(s: Setup, c: Spacing, x: Spacing, y: Spacing, r: Records, tx2: map<string, seq<Option<string>>>,
                            ty2: map<string, seq<Option<string>>>, g: Flow, g2: Flow, e: Inputs, n: nat, m: nat)
    requires Shapes(g, n, m) && Shapes(g2, n, m) && Settled(s, c, x, y, e, n, m) && Open(s.sets)
    requires c.dx == x.dx && c.dy == y.dy && Solves(e.solve, n, m, c.dx, c.dy)
    requires s.velc in tx2 && tx2[s.velc] == s.sets.ucorr && s.velc in ty2 && ty2[s.velc] == s.sets.vcorr
    requires g2.u == g.u && g2.v == g.v && g2.div == DivergenceFill(s, c, r.tc, r.vc, g, e.dt, n, m).f
    requires g2.dp == e.solve(g2.div, g.dp).dp
    requires Corrected(s, x, y, tx2, ty2, r.vx, r.vy, g2, e, n, m).out == Done
    ensures forall a, b :: Interior(a, b, n, m) ==>
      DivergenceFill(s, c, r.tc, r.vc, Corrected(s, x, y, tx2, ty2, r.vx, r.vy, g2, e, n, m).flow, 1.0, n, m).f[a][b] == 0.0
  {
    var d1 := Projection.Divergence(g.u, g.v, g.div, e.dt, c.dx, c.dy, n, m);
    forall a, b | Interior(a, b, n, m)
      ensures Operators.Laplacian(g2.dp, n, m, c.dx, c.dy, a, b) == d1[a][b]
    {
      FillKeepsInterior(c, r.tc, r.vc, s.divv, d1, n, m, a, b);
    }
    var h := Corrected(s, x, y, tx2, ty2, r.vx, r.vy, g2, e, n, m);
    CorrectedFields(s, x, y, tx2, ty2, r.vx, r.vy, g2, e, n, m);
    Projection.ProjectionSolenoidal(g.u, g.v, g.div, g2.dp, h.flow.div, e.dt, c.dx, c.dy, n, m);
    forall a, b | Interior(a, b, n, m)
      ensures DivergenceFill(s, c, r.tc, r.vc, h.flow, 1.0, n, m).f[a][b] == 0.0
    {
      var d2 := Projection.Divergence(h.flow.u, h.flow.v, h.flow.div, 1.0, c.dx, c.dy, n, m);
      FillKeepsInterior(c, r.tc, r.vc, s.divv, d2, n, m, a, b);
      FilledDivergence(x, y, tx2, ty2, r.vx, r.vy, s.velc, Projection.CorrectU(g.u, g2.dp, e.dt, x.dx, n, m),
                       Projection.CorrectV(g.v, g2.dp, e.dt, y.dy, n, m), c.dx, c.dy, n, m, a, b);
    }
  }

  /**
   * When the Poisson unit solves the pressure equation exactly and the
   * grids share their spacing, a step that completes leaves the divergence
   * zero in every interior cell: the corrector's lists leave the faces the
   * divergence reads untouched, and the projection removes the divergence of
   * the predicted, forced and rescaled velocity.
   */
  lemma {:induction false} AdvanceSolenoidal(s: Setup, c: Spacing, x: Spacing, y: Spacing, r: Records, f: Flow,
                                             stats: map<string, Stat>, ran: ImBound.Option<ImBound.Routine>, e: Inputs,
                                             n: nat, m: nat)
    requires Ready(s, c, x, y, f, e, n, m) && Open(s.sets)
    requires c.dx == x.dx && c.dy == y.dy && Solves(e.solve, n, m, c.dx, c.dy)
    requires AdvanceRun(s, c, x, y, r, f, stats, ran, e, n, m).out == Done
    ensures forall a, b :: Interior(a, b, n, m) ==> AdvanceRun(s, c, x, y, r, f, stats, ran, e, n, m).flow.div[a][b] == 0.0
  {
    var tx := Merged(r.tx, map[s.velc := s.sets.ustar]);
    var ty := Merged(r.ty, map[s.velc := s.sets.vstar]);
    var qin := QinOf(s, x, y, f.u, f.v, n, m);
    var b := Forced(s, x, y, tx, ty, r.vx, r.vy, Predicted(s, x, y, f, e, n, m), ran, e, n, m);
    var qout := QoutOf(s, x, y, b.flow.u, b.flow.v, n, m);
    var g := Balanced(s, x, y, b.flow, qin, qout, n, m);
    var rhs := DivergenceFill(s, c, r.tc, r.vc, g, e.dt, n, m);
    var sol := e.solve(rhs.f, g.dp);
    var tx2 := Merged(tx, map[s.velc := s.sets.ucorr]);
    var ty2 := Merged(ty, map[s.velc := s.sets.vcorr]);
    var g2 := g.(div := rhs.f, dp := sol.dp);
    var h := Corrected(s, x, y, tx2, ty2, r.vx, r.vy, g2, e, n, m);
    var k := DivergenceFill(s, c, r.tc, r.vc, h.flow, 1.0, n, m);
    assert b.out == Done && rhs.out == Done && h.out == Done;
    assert AdvanceRun(s, c, x, y, r, f, stats, ran, e, n, m).flow.div == k.f;
    ProjectedSolenoidal(s, c, x, y, r, tx2, ty2, g, g2, e, n, m);
  }

  // ---------------------------------------------------------------------------
  // The unit

  /** The `scalars` object: the statistics dictionary, the time step and the Reynolds number. */
  class Scalars {
    var stats: map<string, Stat>
    const dt: real
    const re: real

    constructor (dt: real, re: real)
      ensures this.dt == dt && this.re == re && stats == map[]
    {
      this.dt := dt;
      this.re := re;
      stats := map[];
    }
  }

  // ---------------------------------------------------------------------------
  // The step on the unit's objects, stage by stage

  /** The predictor lists go into the face grids' records, and Qin is measured and recorded. */
  method MeasureInflow(gx: Grid, gy: Grid, sc: Scalars, s: Setup, a: Arrays) returns (qin: real)
    requires Fits(a) && gx != gy && |s.sets.ustar| >= 4 && |s.sets.vstar| >= 4
    modifies gx, gy, sc
    ensures gx.bcType == Merged(old(gx.bcType), map[s.velc := s.sets.ustar]) && gx.bcVal == old(gx.bcVal)
    ensures gy.bcType == Merged(old(gy.bcType), map[s.velc := s.sets.vstar]) && gy.bcVal == old(gy.bcVal)
    ensures qin == QinOf(s, Geo(gx), Geo(gy), Snapshot(a.u), Snapshot(a.v), a.p.Length0, a.p.Length1)
    ensures sc.stats == old(sc.stats)["qin" := Num(qin)]
  {
    gx.UpdateBcType(map[s.velc := s.sets.ustar]);
    gy.UpdateBcType(map[s.velc := s.sets.vstar]);
    var n, m := a.p.Length0, a.p.Length1;
    qin := MassBalance.Qin(gx.kind, Snapshot(a.u), gx.bcType[s.velc], gx.dx, gx.dy, n - 1, m)
         + MassBalance.Qin(gy.kind, Snapshot(a.v), gy.bcType[s.velc], gy.dx, gy.dy, n, m - 1);
    sc.stats := sc.stats["qin" := Num(qin)];
  }

  /** `_update_outflow_bc` on both face grids under the predictor lists, with the scalars' time step. */
  method AdvanceOutflow(gx: Grid, gy: Grid, s: Setup, a: Arrays, valsX: array<MassBalance.BcValue>,
                        valsY: array<MassBalance.BcValue>, dt: real)
    requires Fits(a) && valsX != valsY && valsX.Length >= 4 && valsY.Length >= 4
    requires |s.sets.ustar| >= 4 && |s.sets.vstar| >= 4 && gx.dx != 0.0 && gx.dy != 0.0 && gy.dx != 0.0 && gy.dy != 0.0
    modifies valsX, valsY
    ensures valsX[..] == MassBalance.OutflowBcVal(gx.kind, Snapshot(a.u), s.sets.ustar, old(valsX[..]), dt, gx.dx, gx.dy,
                                                  a.u.Length0, a.u.Length1)
    ensures valsY[..] == MassBalance.OutflowBcVal(gy.kind, Snapshot(a.v), s.sets.vstar, old(valsY[..]), dt, gy.dx, gy.dy,
                                                  a.v.Length0, a.v.Length1)
  {
    MassBalance.UpdateOutflowBc(gx.kind, a.u, s.sets.ustar, valsX, dt, gx.dx, gx.dy);
    MassBalance.UpdateOutflowBc(gy.kind, a.v, s.sets.vstar, valsY, dt, gy.dx, gy.dy);
  }

  /** The installed predictor, the immersed-boundary forcing and the velocities' guard fills. */
  method PredictForce(gx: Grid, gy: Grid, ib: ImBound.ImBound, s: Setup, a: Arrays, e: Inputs) returns (out: Outcome)
    requires Fits(a) && gx.dx != 0.0 && gx.dy != 0.0 && gy.dx != 0.0 && gy.dy != 0.0 && e.re != 0.0 && KeepsFaces(e.force, a.p.Length0, a.p.Length1)
    modifies a.u, a.v, a.hx, a.hy
    ensures var b := Forced(s, Geo(gx), Geo(gy), gx.bcType, gy.bcType, gx.bcVal, gy.bcVal,
                            Predicted(s, Geo(gx), Geo(gy), old(FlowOf(a)), e, a.p.Length0, a.p.Length1),
                            ib.slots.force, e, a.p.Length0, a.p.Length1);
      FlowOf(a) == b.flow && out == b.out
  {
    Predict(gx, gy, s, a, e);
    out := Force(gx, gy, ib, s, a, e);
  }

  /** The predictor step of the configured time scheme on the face and convective arrays. */
  method Predict(gx: Grid, gy: Grid, s: Setup, a: Arrays, e: Inputs)
    requires Fits(a) && gx.dx != 0.0 && gx.dy != 0.0 && gy.dx != 0.0 && gy.dy != 0.0 && e.re != 0.0
    modifies a.u, a.v, a.hx, a.hy
    ensures FlowOf(a) == Predicted(s, Geo(gx), Geo(gy), old(FlowOf(a)), e, a.p.Length0, a.p.Length1)
  {
    match s.scheme {
      case Euler => Projection.PredictorEuler(a.p, a.u, a.v, a.hx, a.hy, e.re, e.dt, s.ipres, gx.dx, gy.dy, gx.dy, gy.dx);
      case AB2 => Projection.PredictorAB2(a.p, a.u, a.v, a.hx, a.hy, e.re, e.dt, s.ipres, gx.dx, gy.dy, gx.dy, gy.dx);
    }
  }

  /** The immersed-boundary forcing on the face velocities, then their guard cells. */
  method Force(gx: Grid, gy: Grid, ib: ImBound.ImBound, s: Setup, a: Arrays, e: Inputs) returns (out: Outcome)
    requires Fits(a) && KeepsFaces(e.force, a.p.Length0, a.p.Length1)
    modifies a.u, a.v
    ensures var b := Forced(s, Geo(gx), Geo(gy), gx.bcType, gy.bcType, gx.bcVal, gy.bcVal,
                            old(FlowOf(a)), ib.slots.force, e, a.p.Length0, a.p.Length1);
      FlowOf(a) == b.flow && out == b.out
  {
    var forced, ran := ib.ForceFlow();
    if ran.None? {
      return AttributeError;
    }
    var w := e.force(ran.value, Snapshot(a.u), Snapshot(a.v));
    Store(a.u, w.0);
    Store(a.v, w.1);
    out := FillVelocities(gx, gy, s, a);
  }

  /** `fill_guard_cells(key)` on one grid, with no neighbouring block, as `FillOn` says. */
  method FillGrid(gr: Grid, key: string, w: array2<real>, n: nat, m: nat) returns (out: Outcome)
    requires w.Length0 == n && w.Length1 == m
    modifies w
    ensures Filled(Snapshot(w), out) == FillOn(Geo(gr), gr.bcType, gr.bcVal, key, old(Snapshot(w)), n, m)
  {
    out := gr.FillGuardCells(key, w, Alone, true);
  }

  /** `fill_guard_cells(velc)` on the two face grids, as `Refilled` says. */
  method FillVelocities(gx: Grid, gy: Grid, s: Setup, a: Arrays) returns (out: Outcome)
    requires Fits(a)
    modifies a.u, a.v
    ensures Stage(FlowOf(a), out)
         == Refilled(s, Geo(gx), Geo(gy), gx.bcType, gy.bcType, gx.bcVal, gy.bcVal, old(FlowOf(a)), a.p.Length0, a.p.Length1)
  {
    out := FillGrid(gx, s.velc, a.u, a.p.Length0 - 1, a.p.Length1);
    if out == Done {
      out := FillGrid(gy, s.velc, a.v, a.p.Length0, a.p.Length1 - 1);
    }
  }

  /** Qout over the outlet faces of both velocity grids, recorded in the statistics. */
  method MeasureOutflow(gx: Grid, gy: Grid, sc: Scalars, s: Setup, a: Arrays) returns (qout: real)
    requires Fits(a) && |s.sets.ustar| >= 4 && |s.sets.vstar| >= 4
    requires s.velc in gx.bcType && gx.bcType[s.velc] == s.sets.ustar && s.velc in gy.bcType && gy.bcType[s.velc] == s.sets.vstar
    modifies sc
    ensures qout == QoutOf(s, Geo(gx), Geo(gy), Snapshot(a.u), Snapshot(a.v), a.p.Length0, a.p.Length1)
    ensures sc.stats == old(sc.stats)["qout" := Num(qout)]
  {
    var n, m := a.p.Length0, a.p.Length1;
    qout := MassBalance.Qout(gx.kind, Snapshot(a.u), gx.bcType[s.velc], gx.dx, gx.dy, n - 1, m)
          + MassBalance.Qout(gy.kind, Snapshot(a.v), gy.bcType[s.velc], gy.dx, gy.dy, n, m - 1);
    sc.stats := sc.stats["qout" := Num(qout)];
  }

  /** Both velocity grids rescaled on their outlet lines by Qin over Qout. */
  method RescaleBoth(gx: Grid, gy: Grid, s: Setup, a: Arrays, qin: real, qout: real)
    requires Fits(a) && |s.sets.ustar| >= 4 && |s.sets.vstar| >= 4
    requires s.velc in gx.bcType && gx.bcType[s.velc] == s.sets.ustar && s.velc in gy.bcType && gy.bcType[s.velc] == s.sets.vstar
    modifies a.u, a.v
    ensures FlowOf(a) == Balanced(s, Geo(gx), Geo(gy), old(FlowOf(a)), qin, qout, a.p.Length0, a.p.Length1)
  {
    ghost var f, c := FlowOf(a), MassBalance.RescaleFactor(qin, qout);
    MassBalance.RescaleVelocity(gx.kind, a.u, gx.bcType[s.velc], qin, qout);
    assert Snapshot(a.u) == MassBalance.Rescaled(gx.kind, f.u, s.sets.ustar, c, a.u.Length0, a.u.Length1);
    MassBalance.RescaleVelocity(gy.kind, a.v, gy.bcType[s.velc], qin, qout);
    assert Snapshot(a.v) == MassBalance.Rescaled(gy.kind, f.v, s.sets.vstar, c, a.v.Length0, a.v.Length1);
  }

  /**
   * The divergence over the time step and its guard fill; when that fill
   * completes, the Poisson unit's increment and its statistics.
   */
  method SolvePressure(gc: Grid, sc: Scalars, s: Setup, a: Arrays, e: Inputs) returns (out: Outcome)
    requires Fits(a) && gc.dx != 0.0 && gc.dy != 0.0 && e.dt != 0.0 && KeepsShape(e.solve, a.p.Length0, a.p.Length1)
    modifies a.div, a.dp, sc
    ensures var d := DivergenceFill(s, Geo(gc), gc.bcType, gc.bcVal, old(FlowOf(a)), e.dt, a.p.Length0, a.p.Length1);
      out == d.out && Snapshot(a.div) == d.f
    ensures out != Done ==> Snapshot(a.dp) == old(Snapshot(a.dp)) && sc.stats == old(sc.stats)
    ensures out == Done ==>
      var sol := e.solve(Snapshot(a.div), old(Snapshot(a.dp)));
      Snapshot(a.dp) == sol.dp &&
      sc.stats == old(sc.stats)["ites" := sol.ites]["res" := sol.res]["poisson_time" := Num(e.clock.poissonEnd - e.clock.poissonBegin)]
  {
    Projection.DivergenceInPlace(a.u, a.v, a.div, e.dt, gc.dx, gc.dy);
    out := gc.FillGuardCells(s.divv, a.div, Alone, true);
    if out != Done {
      return;
    }
    var sol := e.solve(Snapshot(a.div), Snapshot(a.dp));
    Store(a.dp, sol.dp);
    sc.stats := sc.stats["ites" := sol.ites]["res" := sol.res]["poisson_time" := Num(e.clock.poissonEnd - e.clock.poissonBegin)];
  }

  /** The corrector lists go into the face grids' records; the corrector runs and the velocities' guard cells are filled. */
  method Correct(gx: Grid, gy: Grid, s: Setup, a: Arrays, e: Inputs) returns (out: Outcome)
    requires Fits(a) && gx != gy && gx.dx != 0.0 && gy.dy != 0.0
    modifies gx, gy, a.u, a.v, a.p
    ensures gx.bcType == Merged(old(gx.bcType), map[s.velc := s.sets.ucorr]) && gx.bcVal == old(gx.bcVal)
    ensures gy.bcType == Merged(old(gy.bcType), map[s.velc := s.sets.vcorr]) && gy.bcVal == old(gy.bcVal)
    ensures var h := Corrected(s, Geo(gx), Geo(gy), gx.bcType, gy.bcType, gx.bcVal, gy.bcVal, old(FlowOf(a)), e,
                               a.p.Length0, a.p.Length1);
      FlowOf(a) == h.flow && out == h.out
  {
    gx.UpdateBcType(map[s.velc := s.sets.ucorr]);
    gy.UpdateBcType(map[s.velc := s.sets.vcorr]);
    Projection.Corrector(a.u, a.v, a.p, a.dp, e.dt, s.ipres, gx.dx, gy.dy);
    out := FillVelocities(gx, gy, s, a);
  }

  /** The divergence of the corrected velocity and its guard fill; then the step's time and the operator statistics. */
  method Conclude(gc: Grid, sc: Scalars, s: Setup, a: Arrays, e: Inputs) returns (out: Outcome)
    requires Fits(a) && gc.dx != 0.0 && gc.dy != 0.0
    modifies a.div, sc
    ensures var k := DivergenceFill(s, Geo(gc), gc.bcType, gc.bcVal, old(FlowOf(a)), 1.0, a.p.Length0, a.p.Length1);
      Snapshot(a.div) == k.f && out == k.out
    ensures out != Done ==> sc.stats == old(sc.stats)
    ensures out == Done ==>
      sc.stats == Merged(old(sc.stats)["ins_time" := Num(e.clock.end - e.clock.start)],
                         e.statsOf(Snapshot(a.u), Snapshot(a.v), Snapshot(a.p), Snapshot(a.div)))
  {
    Projection.DivergenceInPlace(a.u, a.v, a.div, 1.0, gc.dx, gc.dy);
    out := gc.FillGuardCells(s.divv, a.div, Alone, true);
    if out != Done {
      return;
    }
    sc.stats := Merged(sc.stats["ins_time" := Num(e.clock.end - e.clock.start)],
                       e.statsOf(Snapshot(a.u), Snapshot(a.v), Snapshot(a.p), Snapshot(a.div)));
  }

  /** The middle of the step on the unit's objects, as `Pressure` says. */
  method PressureStep(gc: Grid, gx: Grid, gy: Grid, sc: Scalars, s: Setup, a: Arrays, e: Inputs, qin: real)
    returns (out: Outcome)
    requires Fits(a) && gc != gx && gc != gy && gx != gy
    requires Settled(s, Geo(gc), Geo(gx), Geo(gy), e, a.p.Length0, a.p.Length1)
    requires s.velc in gx.bcType && gx.bcType[s.velc] == s.sets.ustar && s.velc in gy.bcType && gy.bcType[s.velc] == s.sets.vstar
    modifies gx, gy, sc, a.u, a.v, a.p, a.dp, a.div
    ensures Run(FlowOf(a), sc.stats, gx.bcType, gy.bcType, out)
         == Pressure(s, Geo(gc), Geo(gx), Geo(gy), old(RecordsOf(gc, gx, gy)), old(gx.bcType), old(gy.bcType),
                     old(FlowOf(a)), qin, old(sc.stats), e, a.p.Length0, a.p.Length1)
  {
    ghost var n, m := a.p.Length0, a.p.Length1;
    ghost var r, f0, st1 := RecordsOf(gc, gx, gy), FlowOf(a), sc.stats;
    var qout := MeasureOutflow(gx, gy, sc, s, a);
    RescaleBoth(gx, gy, s, a, qin, qout);
    ghost var g := FlowOf(a);
    out := SolvePressure(gc, sc, s, a, e);
    ghost var rhs := DivergenceFill(s, Geo(gc), r.tc, r.vc, g, e.dt, n, m);
    if out != Done {
      PressureStops(s, Geo(gc), Geo(gx), Geo(gy), r, r.tx, r.ty, f0, qin, st1, e, n, m, qout, g, rhs);
      assert FlowOf(a) == g.(div := rhs.f);
      return;
    }
    PressureGoesOn(s, Geo(gc), Geo(gx), Geo(gy), r, r.tx, r.ty, f0, qin, st1, e, n, m, qout, g, rhs, e.solve(rhs.f, g.dp));
    out := FinishStep(gc, gx, gy, sc, s, a, e);
  }

  /** The end of the step on the unit's objects, as `Finish` says. */
  method FinishStep(gc: Grid, gx: Grid, gy: Grid, sc: Scalars, s: Setup, a: Arrays, e: Inputs) returns (out: Outcome)
    requires Fits(a) && gc != gx && gc != gy && gx != gy
    requires Settled(s, Geo(gc), Geo(gx), Geo(gy), e, a.p.Length0, a.p.Length1)
    modifies gx, gy, sc, a.u, a.v, a.p, a.div
    ensures Run(FlowOf(a), sc.stats, gx.bcType, gy.bcType, out)
         == Finish(s, Geo(gc), Geo(gx), Geo(gy), old(RecordsOf(gc, gx, gy)), old(gx.bcType), old(gy.bcType),
                   old(FlowOf(a)), old(sc.stats), e, a.p.Length0, a.p.Length1)
  {
    ghost var n, m := a.p.Length0, a.p.Length1;
    ghost var r, g, st3 := RecordsOf(gc, gx, gy), FlowOf(a), sc.stats;
    out := Correct(gx, gy, s, a, e);
    ghost var h := Corrected(s, Geo(gx), Geo(gy), gx.bcType, gy.bcType, r.vx, r.vy, g, e, n, m);
    if out != Done {
      FinishStops(s, Geo(gc), Geo(gx), Geo(gy), r, r.tx, r.ty, g, st3, e, n, m, gx.bcType, gy.bcType, h);
      return;
    }
    ghost var h1 := FlowOf(a);
    out := Conclude(gc, sc, s, a, e);
    ghost var k := DivergenceFill(s, Geo(gc), r.tc, r.vc, h1, 1.0, n, m);
    FinishEnds(s, Geo(gc), Geo(gx), Geo(gy), r, r.tx, r.ty, g, st3, e, n, m, gx.bcType, gy.bcType, h, k);
  }

  /** The whole step on the unit's objects, as `AdvanceRun` says, with the outflow values advanced beside it:
      the Qin measurement, the outflow values, then predictor, forcing and guard fills and the rest of the step. */
  method Step(gc: Grid, gx: Grid, gy: Grid, sc: Scalars, ib: ImBound.ImBound, s: Setup, a: Arrays,
              valsX: array<MassBalance.BcValue>, valsY: array<MassBalance.BcValue>, e: Inputs) returns (out: Outcome)
    requires Fits(a) && gc != gx && gc != gy && gx != gy && valsX != valsY && valsX.Length >= 4 && valsY.Length >= 4
    requires Ready(s, Geo(gc), Geo(gx), Geo(gy), FlowOf(a), e, a.p.Length0, a.p.Length1)
    modifies gx, gy, sc, a.u, a.v, a.hx, a.hy, a.p, a.dp, a.div, valsX, valsY
    ensures valsX[..] == MassBalance.OutflowBcVal(gx.kind, old(Snapshot(a.u)), s.sets.ustar, old(valsX[..]), sc.dt, gx.dx, gx.dy,
                                                  a.u.Length0, a.u.Length1)
    ensures valsY[..] == MassBalance.OutflowBcVal(gy.kind, old(Snapshot(a.v)), s.sets.vstar, old(valsY[..]), sc.dt, gy.dx, gy.dy,
                                                  a.v.Length0, a.v.Length1)
    ensures Run(FlowOf(a), sc.stats, gx.bcType, gy.bcType, out)
         == AdvanceRun(s, Geo(gc), Geo(gx), Geo(gy), old(RecordsOf(gc, gx, gy)), old(FlowOf(a)), old(sc.stats),
                       old(ib.slots.force), e, a.p.Length0, a.p.Length1)
  {
    ghost var n, m := a.p.Length0, a.p.Length1;
    ghost var r0, f := RecordsOf(gc, gx, gy), FlowOf(a);
    ghost var x, y := Geo(gx), Geo(gy);
    var qin := MeasureInflow(gx, gy, sc, s, a);
    AdvanceOutflow(gx, gy, s, a, valsX, valsY, sc.dt);
    ghost var r := r0.(tx := Merged(r0.tx, map[s.velc := s.sets.ustar]), ty := Merged(r0.ty, map[s.velc := s.sets.vstar]));
    assert RecordsOf(gc, gx, gy) == r;
    ghost var st1 := sc.stats;
    out := PredictForce(gx, gy, ib, s, a, e);
    ghost var b := Forced(s, x, y, r.tx, r.ty, r.vx, r.vy, Predicted(s, x, y, f, e, n, m), ib.slots.force, e, n, m);
    if out != Done {
      ForwardStops(s, Geo(gc), x, y, r, f, qin, st1, ib.slots.force, e, n, m, b);
      return;
    }
    ForwardGoesOn(s, Geo(gc), x, y, r, f, qin, st1, ib.slots.force, e, n, m, b);
    out := PressureStep(gc, gx, gy, sc, s, a, e, qin);
  }

  /** An entry of the domain list `[gridc, gridx, gridy, scalars, particles]`; `Missing` is None. */
  datatype Entry = GridEntry(grid: Grid) | ScalarsEntry(scalars: Scalars) | ParticlesEntry | Missing

  /** Each present entry is the object its position names. */
  predicate Positional(domain: seq<Entry>) {
    |domain| == 5
    && (domain[0].GridEntry? || domain[0].Missing?) && (domain[1].GridEntry? || domain[1].Missing?)
    && (domain[2].GridEntry? || domain[2].Missing?) && (domain[3].ScalarsEntry? || domain[3].Missing?)
  }

  /** A stub unit, or an active one with its objects, variable names and set-up. */
  datatype Mode =
    | Stub
    | Active(gridc: Grid, gridx: Grid, gridy: Grid, scalars: Scalars, imbound: ImBound.ImBound,
             velc: string, hvar: string, divv: string, pres: string, delp: string,
             ipres: Setting, scheme: Scheme, sets: Sets)

  /** The set-up an active unit steps with. */
  function SetupOf(mode: Mode): Setup
    requires mode.Active? && mode.ipres.Flag?
  {
    Setup(mode.velc, mode.divv, mode.scheme, mode.ipres.on, mode.sets)
  }

  /** The step's outside inputs, with the Reynolds number and time step of the unit's scalars. */
  function InputsOf(mode: Mode, force: (ImBound.Routine, Field, Field) -> (Field, Field), solve: (Field, Field) -> Solved,
                    statsOf: (Field, Field, Field, Field) -> map<string, Stat>, clock: Clock): Inputs
    requires mode.Active?
  {
    Inputs(mode.scalars.re, mode.scalars.dt, force, solve, statsOf, clock)
  }

  /**
   * What an active unit's step needs of its objects: distinct grids and
   * arrays of the staggered shapes, a flag for `pressure_correct`, the two
   * outflow value lists and the conditions of `Ready`.
   */
  ghost predicate Runnable(mode: Mode, a: Arrays, valsX: array<MassBalance.BcValue>, valsY: array<MassBalance.BcValue>, e: Inputs)
    requires mode.Active?
    reads a.u, a.v, a.hx, a.hy, a.p, a.dp, a.div
  {
    Fits(a) && mode.ipres.Flag?
    && mode.gridc != mode.gridx && mode.gridc != mode.gridy && mode.gridx != mode.gridy
    && valsX != valsY && valsX.Length >= 4 && valsY.Length >= 4
    && Ready(SetupOf(mode), Geo(mode.gridc), Geo(mode.gridx), Geo(mode.gridy), FlowOf(a), e, a.p.Length0, a.p.Length1)
  }

  datatype Creation = Created(unit: IncompNS) | Raised(error: Outcome)

  class IncompNS {
    var options: map<string, Setting>
    var mode: Mode
    /** Whether `_rescaleVelocity` was assigned; `_advance` never reads it. */
    var rescaleStub: bool

    constructor (options: map<string, Setting>, mode: Mode, rescaleStub: bool)
      ensures this.options == options && this.mode == mode && this.rescaleStub == rescaleStub
    {
      this.options := options;
      this.mode := mode;
      this.rescaleStub := rescaleStub;
    }

    /**
     * The constructor: the domain list and the five variable names are
     * unpacked (ValueError when a list has another length), the user's
     * entries are merged over the defaults, and the unit is a stub when an
     * object or a name is missing or a grid has more than one block.
     * Otherwise the scheme and the boundary lists are settled by `Prepare`.
     */
    static method Create(poisson: bool, imbound: Option<ImBound.ImBound>, domain: seq<Entry>, vars: seq<Option<string>>,
                         user: map<string, Setting>) returns (r: Creation)
      requires |domain| == 5 ==> Positional(domain)
      ensures |domain| != 5 || |vars| != 5 ==> r == Raised(ValueError)
      ensures |domain| == 5 && |vars| == 5 && (Missing in domain || None in vars || imbound.None? || !poisson) ==>
        r.Created? && fresh(r.unit) && r.unit.mode.Stub? && r.unit.options == Merged(Defaults, user)
      ensures |domain| == 5 && |vars| == 5 && Missing !in domain && None !in vars && imbound.Some? && poisson ==>
        var blocked := domain[0].grid.nblocks > 1 || domain[1].grid.nblocks > 1 || domain[2].grid.nblocks > 1;
        var q := Prepare(Merged(Defaults, user), vars[0].value, vars[3].value, domain[1].grid.bcType,
                         domain[2].grid.bcType, domain[0].grid.bcType);
        (blocked ==> r.Created? && fresh(r.unit) && r.unit.mode.Stub? && r.unit.options == Merged(Defaults, user)) &&
        (!blocked && q.Failed? ==> r == Raised(q.error)) &&
        (!blocked && q.Prepared? ==>
           r.Created? && fresh(r.unit) && r.unit.options == Merged(Defaults, user) && r.unit.rescaleStub == q.rescaleStub &&
           r.unit.mode == Active(domain[0].grid, domain[1].grid, domain[2].grid, domain[3].scalars, imbound.value,
                                 vars[0].value, vars[1].value, vars[2].value, vars[3].value, vars[4].value,
                                 Merged(Defaults, user)["pressure_correct"], q.scheme, q.sets))
    {
      if |domain| != 5 || |vars| != 5 {
        return Raised(ValueError);
      }
      var options := Merged(Defaults, user);
      if Missing in domain || None in vars || imbound.None? || !poisson {
        var unit := new IncompNS(options, Stub, false);
        return Created(unit);
      }
      var gridc, gridx, gridy := domain[0].grid, domain[1].grid, domain[2].grid;
      if gridc.nblocks > 1 || gridx.nblocks > 1 || gridy.nblocks > 1 {
        var unit := new IncompNS(options, Stub, false);
        return Created(unit);
      }
      var q := Prepare(options, vars[0].value, vars[3].value, gridx.bcType, gridy.bcType, gridc.bcType);
      if q.Failed? {
        return Raised(q.error);
      }
      var mode := Active(gridc, gridx, gridy, domain[3].scalars, imbound.value,
                         vars[0].value, vars[1].value, vars[2].value, vars[3].value, vars[4].value,
                         options["pressure_correct"], q.scheme, q.sets);
      var unit := new IncompNS(options, mode, q.rescaleStub);
      return Created(unit);
    }

    /**
     * `advance`: a stub unit does nothing; an active one runs `_advance` on
     * its grids, scalars and immersed boundary, with the outflow value lists
     * `valsX`, `valsY` of the face grids, and ends as `AdvanceRun` says.
     */
    method Advance(a: Arrays, valsX: array<MassBalance.BcValue>, valsY: array<MassBalance.BcValue>,
                   force: (ImBound.Routine, Field, Field) -> (Field, Field), solve: (Field, Field) -> Solved,
                   statsOf: (Field, Field, Field, Field) -> map<string, Stat>, clock: Clock) returns (out: Outcome)
      requires mode.Active? ==> Runnable(mode, a, valsX, valsY, InputsOf(mode, force, solve, statsOf, clock))
      modifies if mode.Active? then {mode.gridx, mode.gridy} else {}
      modifies if mode.Active? then {mode.scalars} else {}
      modifies if mode.Active? then {a.u, a.v, a.hx, a.hy, a.p, a.dp, a.div} else {}
      modifies if mode.Active? then {valsX, valsY} else {}
      ensures mode.Stub? ==> out == Done
      ensures mode.Active? ==>
        valsX[..] == MassBalance.OutflowBcVal(mode.gridx.kind, old(Snapshot(a.u)), mode.sets.ustar, old(valsX[..]),
                                              mode.scalars.dt, mode.gridx.dx, mode.gridx.dy, a.u.Length0, a.u.Length1) &&
        valsY[..] == MassBalance.OutflowBcVal(mode.gridy.kind, old(Snapshot(a.v)), mode.sets.vstar, old(valsY[..]),
                                              mode.scalars.dt, mode.gridy.dx, mode.gridy.dy, a.v.Length0, a.v.Length1)
      ensures mode.Active? ==>
        Run(FlowOf(a), mode.scalars.stats, mode.gridx.bcType, mode.gridy.bcType, out)
          == AdvanceRun(SetupOf(mode), Geo(mode.gridc), Geo(mode.gridx), Geo(mode.gridy),
                        old(RecordsOf(mode.gridc, mode.gridx, mode.gridy)), old(FlowOf(a)), old(mode.scalars.stats),
                        old(mode.imbound.slots.force), InputsOf(mode, force, solve, statsOf, clock), a.p.Length0, a.p.Length1)
    {
      if mode.Stub? {
        return Done;
      }
      out := Step(mode.gridc, mode.gridx, mode.gridy, mode.scalars, mode.imbound, SetupOf(mode), a, valsX, valsY,
                  InputsOf(mode, force, solve, statsOf, clock));
    }
  }
}
