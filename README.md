# FlowX core in Dafny

FlowX is a Python solver for incompressible flow on a staggered Cartesian
grid. It has an immersed-boundary unit for rigid and viscoelastic solids.
This project models the core of FlowX in Dafny and proves properties of
the model. Every field is a two-dimensional block of `real` values. The
routines that update numpy arrays in place are methods over `array2<real>`.
Each method is proved against a pure specification function over
`seq<seq<real>>`; the two are tied by `Fields.Snapshot`.

The modules follow the package layout:

- `Grid`: the boundary-condition record (`set_default_bc`, `set_user_bc`,
  `update_bc_val`, `update_bc_type`), the guard-cell fills of the
  cell-centred, x-face and y-face grids, their storage shapes and
  coordinates, and the constructor's checks.
- `Operators`, `Projection`, `MassBalance`, `Ins`: the fractional-step
  integrator `IncompNS`.
  - the face operators;
  - the Euler and Adams-Bashforth predictors, divergence and corrector;
  - the mass-flux balance and the outflow boundary update;
  - the unit's constructor and the fixed order of `_advance`.
- `PoissonMatrix`, `PoissonSolvers`, `PoissonCg`: assembly of the
  five-point matrix, and the Jacobi, conjugate-gradient and stub solvers.
- `ImBound`, `RigidForcing`, `ClassicalSearch`: the immersed-boundary unit.
  - the option merge and the stub/rigid/visco dispatch;
  - the rigid body forcing;
  - the point-in-polygon signed-distance search (current and older kernel).
- The viscoelastic kernels and the two steps that sequence them (`ViscoAdvect`, `ViscoForceFlow`):
  - `Weno3`, `Weno3Legacy`: WENO3 advection;
  - `Redistance`: Godunov re-distancing;
  - `NormalVector`: normals;
  - `DirectionalDerivative`: directional derivative;
  - `ConstantExtrapolation`, `LinearExtrapolation`: extrapolation;
  - `SolidStress`: reference-map stress;
  - `SolidUstar`: elastic velocity increment.
- `Fields`, `Upwind`: the helpers they share.

A Python exception is modelled as an `Outcome` (`KeyError`, `IndexError`,
`ValueError`, `TypeError`, `AttributeError`, `ZeroDivisionError`). An
exception ends a stage and keeps the writes made before it. `numpy.sqrt`
and the Poisson unit are parameters; the predicates that bind them
(`Fields.SqrtLaw`, `Ins.Solves`) state what the proofs assume.

The properties proved include:

- the discrete projection identity: corrector then divergence removes the
  divergence when the pressure increment solves the Poisson equation;
- with an exact Poisson unit, a completed `_advance` leaves a
  divergence-free velocity;
- the mass balance after rescaling, over the lines the mass-balance code
  reads (see the axis conventions under "## Left out");
- the symmetry and row sums of the Poisson matrix;
- the exit conditions of the Jacobi and CG loops, and that the CG
  residual stays the true residual;
- the fixed points of the Jacobi sweep;
- the convexity of the WENO3 weights and the exactness of WENO3 on constants;
- that the classical search yields the signed distance;
- that the body forcing is idempotent.

Each row below names the member whose contract states the property.

## Model

| member | source | states |
|---|---|---|
| Fields.CopyBoundaryClamp | flowx/archive/imbound/_interface/visco/_directional_derivative.py:23-27 | after `a[0,:] = a[1,:]`, `a[-1,:] = a[-2,:]`, `a[:,0] = a[:,1]`, `a[:,-1] = a[:,-2]` every entry holds the value of its nearest interior entry, corners the diagonal one |
| Fields.CopyBoundaryInPlace | flowx/archive/imbound/_interface/visco/_directional_derivative.py:23-27 | the four boundary-line copies on an array, in their order, give `CopyBoundary` of its old contents |
| Fields.CopyBoundaryOfInterior | flowx/archive/imbound/_interface/visco/_directional_derivative.py:20-27 | writing the interior from `g` and then copying the boundary lines makes every cell the clamped cell of `g` |
| Upwind.UpwindTermSelects | flowx/imbound/_interface/visco/_interface/_constant_extrapolation.py:34-38 | `max(a, 0) * minus + min(a, 0) * plus`: a positive component takes the backward difference, a negative one the forward difference, zero neither |
| Upwind.DerivativeSelects | flowx/imbound/_interface/visco/_interface/_constant_extrapolation.py:12-19 | the upwind derivative at an interior cell reads `so[i] - so[i-1]` for a positive x component and `so[i+1] - so[i]` for a negative one, likewise in y |
| Upwind.UpwindAtFlat | flowx/imbound/_interface/visco/_interface/_constant_extrapolation.py:15-19 | where the four neighbours equal the cell the derivative is 0 in every direction |
| Upwind.DerivativeOfConstant | flowx/imbound/_interface/visco/_interface/_constant_extrapolation.py:15-19 | a constant field has derivative 0 at every interior cell |
| Upwind.DerivativeLinear | flowx/imbound/_interface/visco/_interface/_constant_extrapolation.py:15-19 | the derivative at a cell is linear in the field |
| ClassicalSearch.EdgeOf | flowx/imbound/_interface/utils/_classical_search.py:45-52 | edge `p` starts at point `p` (and ends at the next point, the last one wrapping to the first) |
| ClassicalSearch.PolygonClosed | flowx/imbound/_interface/utils/_classical_search.py:48-52 | edge `p` ends at point `(p + 1) mod np`, where the next edge starts: the polygon is closed |
| ClassicalSearch.DegenerateIff | flowx/imbound/_interface/utils/_classical_search.py:58-61 | the projection's denominator is zero exactly when the edge's two endpoints coincide |
| ClassicalSearch.ParamScaled | flowx/imbound/_interface/utils/_classical_search.py:58-61 | on a proper edge the denominator is positive and `u` times it is the numerator's dot product |
| ClassicalSearch.ClampUnit | flowx/imbound/_interface/utils/_classical_search.py:63-67 | the clamped parameter lies in [0, 1]: unchanged inside, 0 below, 1 above |
| ClassicalSearch.SqDistAlong | flowx/imbound/_interface/utils/_classical_search.py:72 | the squared distance from the mesh point to a point of the edge's line is a quadratic in the line parameter |
| ClassicalSearch.ClampedMinimisesQuad | flowx/imbound/_interface/utils/_classical_search.py:63-67 | over [0, 1] that quadratic is smallest at the clamped vertex |
| ClassicalSearch.ClosestIsNearest | flowx/imbound/_interface/utils/_classical_search.py:58-72 | `P0` is a point of the segment no farther from the mesh point than any other point of the segment |
| ClassicalSearch.EdgeDistanceIsNearest | flowx/imbound/_interface/utils/_classical_search.py:84 | the edge distance `sqrt(v1 . v1)` is non-negative and at most the distance to every point of the segment |
| ClassicalSearch.CrossXOnEdge | flowx/imbound/_interface/utils/_classical_search.py:90-96 | when the mesh point's `y` is strictly between the edge's, `xit` is where the horizontal line meets the edge, strictly inside it and between its endpoints' `x` |
| ClassicalSearch.MinDistBelow | flowx/imbound/_interface/utils/_classical_search.py:40-84 | the running minimum is at most `1e13` and at most every edge distance seen |
| ClassicalSearch.MinDistAttained | flowx/imbound/_interface/utils/_classical_search.py:40-84 | the running minimum is `1e13` or the distance to one of the edges seen |
| ClassicalSearch.MinDistNonNegative | flowx/imbound/_interface/utils/_classical_search.py:40-84 | the running minimum is never negative |
| ClassicalSearch.Level | flowx/imbound/_interface/utils/_classical_search.py:107-109 | `abs(phi)` is the distance, and a positive distance gives `phi > 0` exactly when the crossing count is odd |
| ClassicalSearch.LevelAtIsSignedDistance | flowx/imbound/_interface/utils/_classical_search.py:39-109 | `abs(phi)` at a mesh point is at most `1e13`, no point of any edge is nearer, it is the distance to one of the edges unless it kept `1e13`, and its sign is the crossing count's parity |
| ClassicalSearch.ScanEdges | flowx/imbound/_interface/utils/_classical_search.py:39-105 | the edge loop of one mesh point completes exactly when no edge is degenerate, and then gives the minimum edge distance, the crossing count and one iteration per edge |
| ClassicalSearch.SweepPoint | flowx/imbound/_interface/utils/_classical_search.py:37-109 | one mesh point gets its signed distance and the earlier points keep theirs; a degenerate edge stops before the write |
| ClassicalSearch.SweepRow | flowx/imbound/_interface/utils/_classical_search.py:36-109 | one row of the sweep: every point of the row gets its signed distance, `cols * np` iterations |
| ClassicalSearch.Sweep | flowx/imbound/_interface/utils/_classical_search.py:34-111 | the loop over rows and columns: each window point gets its signed distance and every other entry of `phi` is kept; `iter_count == ny * nx * np`; a zero division leaves `phi` unchanged |
| ClassicalSearch.SearchJit | flowx/imbound/_interface/utils/_classical_search.py:31-111 | `_search_jit`: `phi[j, i]` for `j < ny`, `i < nx` is the signed distance to the polygon of the first `np` points, the rest of `phi` is kept, and `iter_count == nx * ny * np` |
| ClassicalSearch.DropFirst | flowx/imbound/_interface/utils/_classical_search.py:22 | `particle.x[1:, :]`: the points without the first one |
| ClassicalSearch.ClassicalSearchGrid | flowx/imbound/_interface/utils/_classical_search.py:5-28 | `classical_search`: every point of the `(nx + 2)` by `(ny + 2)` cell-centre mesh gets its signed distance to the particle's polygon, guard points included; the count is returned |
| ClassicalSearch.JitClassicalSearchLegacy | flowx/imbound/_interface/_classical_search.py:12-87 | the older kernel, `i` outer: `phi[i, j]` for `i < nx`, `j < ny` is the signed distance, the rest kept, `nx * ny * np` iterations |
| ClassicalSearch.ClassicalSearchLegacy | flowx/imbound/_interface/_classical_search.py:4-10 | the older driver: a fresh `nx` by `ny` field of signed distances, all zero if an edge is degenerate |
| ConstantExtrapolation.ConstantStepCell | flowx/imbound/_interface/visco/_interface/_constant_extrapolation.py:7-39 | after one call only interior cells with `lmda < 0` change, each by `-(dx/2)` times the upwind derivative along `(u, v)`; the ring and the fluid keep their values |
| ConstantExtrapolation.ConstantFieldFixed | flowx/imbound/_interface/visco/_interface/_constant_extrapolation.py:15-39 | a constant field is a fixed point of the step |
| ConstantExtrapolation.ConstantRoundsKeepFluid | flowx/imbound/_interface/visco/_interface/_constant_extrapolation.py:7-39 | however many calls run in a row, a ring cell or a cell with `lmda >= 0` keeps its value |
| ConstantExtrapolation.ConstantRoundsOfConstant | flowx/imbound/_interface/visco/_interface/_constant_extrapolation.py:15-39 | a constant field stays constant through any number of calls |
| ConstantExtrapolation.ConstantExtrapolationInPlace | flowx/imbound/_interface/visco/_interface/_constant_extrapolation.py:5-41 | `constant_extrapolation`: `s` becomes the step of its old contents (read through the copy `so`) under the old `lmda`, `u`, `v` |
| LinearExtrapolation.LinearStepCell | flowx/imbound/solvers/visco_elastic/subroutines/linear_extrapolation.py:6-32 | after one call only interior cells with `lmda < 0` change, each by `dx/2` times `sn` minus the upwind derivative; every other cell keeps its value |
| LinearExtrapolation.LinearFixedCell | flowx/imbound/solvers/visco_elastic/subroutines/linear_extrapolation.py:14-32 | a cell where `sn` equals the upwind derivative of `so` keeps its value |
| LinearExtrapolation.LinearWithZeroSlope | flowx/imbound/solvers/visco_elastic/subroutines/linear_extrapolation.py:30-32 | with `sn` identically 0 the step is the constant-extrapolation step |
| LinearExtrapolation.LinearExtrapolationInPlace | flowx/imbound/solvers/visco_elastic/subroutines/linear_extrapolation.py:4-34 | `linear_extrapolation`: `s` becomes the linear step of its old contents under the old `sn`, `lmda`, `u`, `v` |
| DirectionalDerivative.DdsnAtCell | flowx/archive/imbound/_interface/visco/_directional_derivative.py:8-27 | every cell of `ddsn` is the upwind derivative of `so` along the stored normal at an interior cell: its own, or for a boundary cell the nearest interior one |
| DirectionalDerivative.DdsnBoundaryCopies | flowx/archive/imbound/_interface/visco/_directional_derivative.py:23-27 | boundary rows and columns repeat their inner neighbours, and each corner repeats the diagonal interior cell |
| DirectionalDerivative.DdsnOfConstant | flowx/archive/imbound/_interface/visco/_directional_derivative.py:14-21 | a constant `so` gives `ddsn` identically 0 |
| DirectionalDerivative.DdsnLinear | flowx/archive/imbound/_interface/visco/_directional_derivative.py:14-21 | `ddsn` is linear in `so` |
| DirectionalDerivative.DirectionalDerivativeInPlace | flowx/archive/imbound/_interface/visco/_directional_derivative.py:4-29 | `directional_derivative`: `ddsn` becomes the interior upwind derivative with the boundary copies, from the old `so`, `adfx`, `adfy` |
| NormalVector.UnitScalar | flowx/imbound/solvers/visco_elastic/subroutines/normal_vector_solid.py:11-14 | `(-gx/adf)^2 + (-gy/adf)^2 == 1` whenever `adf = sqrt(gx^2 + gy^2)` is nonzero |
| NormalVector.NormalIsUnit | flowx/imbound/solvers/visco_elastic/subroutines/normal_vector_solid.py:6-14 | at every interior cell the normal has unit length |
| NormalVector.NormalOpposesGradient | flowx/imbound/solvers/visco_elastic/subroutines/normal_vector_solid.py:6-14 | with positive spacings each component is positive exactly when the centred difference of `sd` is negative, and negative exactly when it is positive |
| NormalVector.NormalLines | flowx/imbound/solvers/visco_elastic/subroutines/normal_vector_solid.py:13-20 | interior cells hold the normal; rows 0 and `n-1` of `adfx` and columns 0 and `m-1` of `adfy` repeat their inner neighbours; the other edge cells keep their old values |
| NormalVector.NormalVectorSolid | flowx/imbound/solvers/visco_elastic/subroutines/normal_vector_solid.py:4-22 | `normal_vector_solid`: `adfx` and `adfy` become the normal components with the line copies, `sd` is only read |
| Redistance.Sgn | flowx/imbound/_interface/visco/_redistance_solid.py:13-15 | `soo / abs(soo + eps)` is positive, negative or zero exactly as `soo` is |
| Redistance.SgnOfZero | flowx/imbound/_interface/visco/_redistance_solid.py:13-15 | a zero reference has sign 0, so its cell is not driven |
| Redistance.Agf | flowx/imbound/_interface/visco/_redistance_solid.py:39-59 | `agf` is at least -1, and 0 on the zero level of `so` |
| Redistance.RedistanceRingZero | flowx/imbound/_interface/visco/_redistance_solid.py:18-21 | the outer rows and columns are 0 on return |
| Redistance.RedistanceFrozen | flowx/imbound/_interface/visco/_redistance_solid.py:30-35 | a cell where `soo` changes sign against a 4-neighbour takes the reference value |
| Redistance.RedistanceZeroLevel | flowx/imbound/_interface/visco/_redistance_solid.py:52-63 | a cell off the sign changes lying on the zero level of `so` keeps its value |
| Redistance.RedistanceUnitGradient | flowx/imbound/_interface/visco/_redistance_solid.py:39-63 | a cell off the sign changes whose upwind gradient has magnitude exactly 1 is already a distance and keeps its value |
| Redistance.SweepLoops | flowx/imbound/_interface/visco/_redistance_solid.py:18-63 | the zeroing and the loop nest write exactly the one-sweep field into `s` |
| Redistance.RedistanceSolid | flowx/imbound/_interface/visco/_redistance_solid.py:4-16 | `redistance_solid`: `s` becomes one Godunov sweep of its old contents against `soo` |
| SolidStress.InverseIsInverse | flowx/imbound/_interface/visco/_interface/_solid_stress.py:51-61 | away from the `1e-12` guard, `A` is the inverse of `A_inv`: `A * A_inv = I` |
| SolidStress.GramProperties | flowx/imbound/_interface/visco/_interface/_solid_stress.py:63-71 | `A * A^T` is symmetric with diagonal entries that are sums of squares |
| SolidStress.StressSingular | flowx/imbound/_interface/visco/_interface/_solid_stress.py:41-71 | a near-singular `A_inv` leaves `A = 0`, so the stress is `-I` |
| SolidStress.StressProperties | flowx/imbound/_interface/visco/_interface/_solid_stress.py:63-71 | the stress `A A^T - I` is symmetric and its diagonal is at least -1 |
| SolidStress.IdentityStress | flowx/imbound/_interface/visco/_interface/_solid_stress.py:51-71 | the identity gradient gives `A = I` and so zero stress |
| SolidStress.TauAtCell | flowx/imbound/_interface/visco/_interface/_solid_stress.py:14-32 | each cell of `Tau_k` holds component `k` of the stress at its clamped interior cell |
| SolidStress.TauSymmetric | flowx/imbound/_interface/visco/_interface/_solid_stress.py:69-70 | `Tau2 == Tau3` everywhere |
| SolidStress.TauDiagonalBound | flowx/imbound/_interface/visco/_interface/_solid_stress.py:68-71 | `Tau1` and `Tau4` are at least -1 everywhere |
| SolidStress.IdentityMapStressFree | flowx/imbound/_interface/visco/_interface/_solid_stress.py:51-71 | the identity reference map (`sX = x`, `sY = y` on a uniform mesh) is stress-free: all four buffers are 0 everywhere |
| SolidStress.StressCell | flowx/imbound/_interface/visco/_interface/_solid_stress.py:41-71 | one pass of the loop body writes the four components at cell `(i, j)` and extends the swept region by that cell |
| SolidStress.StressRow | flowx/imbound/_interface/visco/_interface/_solid_stress.py:39-71 | row `i` of the loop nest |
| SolidStress.JitSolidStress | flowx/imbound/_interface/visco/_interface/_solid_stress.py:36-73 | `jit_solid_stress`: each buffer's interior holds its stress component, the ring is left as it was |
| SolidStress.TauFromBuffer | flowx/imbound/_interface/visco/_interface/_solid_stress.py:7-32 | whatever the buffer held, zeroing, writing the interior and copying the boundary lines gives `Tau_k` |
| SolidStress.SolidStressInPlace | flowx/imbound/_interface/visco/_interface/_solid_stress.py:5-32 | `solid_stress`: each `Tau_k` becomes component `k` of `A A^T - I` at the clamped interior cell |
| SolidUstar.UNextRegion | flowx/imbound/_interface/visco/_interface/_solid_ustar.py:15-16 | only `ustr[1..nx-3, 1..ny-2]` can change |
| SolidUstar.VNextRegion | flowx/imbound/_interface/visco/_interface/_solid_ustar.py:44-45 | only `vstr[1..nx-2, 1..ny-3]` can change |
| SolidUstar.UForceWithoutMass | flowx/imbound/_interface/visco/_interface/_solid_ustar.py:18-40 | where `xms` is 0 on every cell the x-face stencil reads, `ustrB` is 0 |
| SolidUstar.VForceWithoutMass | flowx/imbound/_interface/visco/_interface/_solid_ustar.py:47-69 | where `xms` is 0 on every cell the y-face stencil reads, `vstrB` is 0 |
| SolidUstar.UForceUniform | flowx/imbound/_interface/visco/_interface/_solid_ustar.py:18-40 | where `xms` and the stress components it multiplies are uniform over the stencil, `ustrB` is 0: a uniform stress exerts no force |
| SolidUstar.VForceUniform | flowx/imbound/_interface/visco/_interface/_solid_ustar.py:47-69 | the same for `vstrB` |
| SolidUstar.UNextAdditive | flowx/imbound/_interface/visco/_interface/_solid_ustar.py:15-42 | the force does not read the velocity, so two calls with steps `dt1` and `dt2` are one call with `dt1 + dt2` |
| SolidUstar.VNextAdditive | flowx/imbound/_interface/visco/_interface/_solid_ustar.py:44-71 | the same for `vstr` |
| SolidUstar.MasslessIsIdentity | flowx/imbound/_interface/visco/_interface/_solid_ustar.py:15-71 | a solid with no mass anywhere leaves both velocities as they are |
| SolidUstar.StresslessIsIdentity | flowx/imbound/_interface/visco/_interface/_solid_ustar.py:15-71 | with every stress buffer 0 both velocities are left as they are, whatever the mass |
| SolidUstar.UstarCell | flowx/imbound/_interface/visco/_interface/_solid_ustar.py:18-42 | one pass of the first loop body adds `ustrB * dt` at `(i, j)` and extends the swept region by that cell |
| SolidUstar.VstarCell | flowx/imbound/_interface/visco/_interface/_solid_ustar.py:47-71 | one pass of the second loop body adds `vstrB * dt` at `(i, j)` |
| SolidUstar.UstarRow | flowx/imbound/_interface/visco/_interface/_solid_ustar.py:16-42 | row `i` of the first loop nest |
| SolidUstar.VstarRow | flowx/imbound/_interface/visco/_interface/_solid_ustar.py:45-71 | row `i` of the second loop nest |
| SolidUstar.UstarLoops | flowx/imbound/_interface/visco/_interface/_solid_ustar.py:15-42 | the first loop nest leaves `ustr` as `UNext` of its old contents |
| SolidUstar.VstarLoops | flowx/imbound/_interface/visco/_interface/_solid_ustar.py:44-71 | the second loop nest leaves `vstr` as `VNext` of its old contents |
| SolidUstar.SolidUstarInPlace | flowx/imbound/_interface/visco/_interface/_solid_ustar.py:5-13 | `solid_ustar`: both velocities become their updates, the mass and stress fields are only read |
| Weno3.NonlinearWeights | flowx/imbound/_interface/visco/_interface/_advect_weno3.py:98-130 | the three normalised weights `aT/(aT1+aT2+aT3)` of either upwind branch are non-negative and sum to 1 |
| Weno3.ReconstructBetweenCandidates | flowx/imbound/_interface/visco/_interface/_advect_weno3.py:98-232 | every WENO3 face value lies between the smallest and the largest of its three candidate stencil values |
| Weno3.ReconstructLinear | flowx/imbound/_interface/visco/_interface/_advect_weno3.py:98-232 | on data linear in the index the face value is exact: the midpoint of the two cells beside the face, for either sign of the face velocity |
| Weno3.ReconstructConstant | flowx/imbound/_interface/visco/_interface/_advect_weno3.py:98-232 | a constant window reconstructs to the constant |
| Weno3.ReconstructMirror | flowx/imbound/_interface/visco/_interface/_advect_weno3.py:98-162 | the branch for a non-positive velocity is the positive branch applied to the mirrored window |
| Weno3.ReconstructExactOnConstants | flowx/imbound/_interface/visco/_interface/_advect_weno3.py:98-232 | the kernel's face formula returns `c` on every constant window, so it is a valid face formula for the constant-field lemmas |
| Weno3.FaceValuesShared | flowx/imbound/_interface/visco/_interface/_advect_weno3.py:98-370 | the left face of a cell gets the same value as the right face of its neighbour under the same velocity: the update is a flux difference |
| Weno3.RightXWindow | flowx/imbound/_interface/visco/_interface/_advect_weno3.py:98-130 | upwinding: for a positive face velocity the face value reads only rows `i-2..i+2`, otherwise only `i-1..i+3` |
| Weno3.Sweep | flowx/imbound/_interface/visco/_interface/_advect_weno3.py:81-378 | `_jit_advect_weno3`: every update reads the copy `so`, cells `3..nx-4` by `3..ny-4` are updated, the rest keep their value; the result has the input's shape |
| Weno3.FaceRightX | flowx/imbound/_interface/visco/_interface/_advect_weno3.py:98-162 | `frx` read from the array equals the face value of the field |
| Weno3.FaceLeftX | flowx/imbound/_interface/visco/_interface/_advect_weno3.py:164-232 | `flx` read from the array equals the face value of the field |
| Weno3.FaceRightY | flowx/imbound/_interface/visco/_interface/_advect_weno3.py:236-300 | `fry` read from the array equals the face value of the field |
| Weno3.FaceLeftY | flowx/imbound/_interface/visco/_interface/_advect_weno3.py:302-370 | `fly` read from the array equals the face value of the field |
| Weno3.CellValue | flowx/imbound/_interface/visco/_interface/_advect_weno3.py:89-376 | the new value of one swept cell, read from the arrays, is the flux update of the field |
| Weno3.TargetCell | flowx/imbound/_interface/visco/_interface/_advect_weno3.py:89-376 | the same value, stated against the target field of the sweep |
| Weno3.SweepLoops | flowx/imbound/_interface/visco/_interface/_advect_weno3.py:86-376 | the two loops write the target field's value into every swept cell and leave the rest |
| Weno3.SweepInPlace | flowx/imbound/_interface/visco/_interface/_advect_weno3.py:81-378 | the kernel in place leaves `s` equal to `Sweep` of its old contents, the mask and the face velocities |
| Weno3.EmbedLayout | flowx/imbound/_interface/visco/_interface/_advect_weno3.py:37-45 | `numpy.zeros` of two more layers with `f` in `[2:-2, 2:-2]`: `f` sits at offset 2 and zero in the two layers around it |
| Weno3.PadLayersIsPad | flowx/imbound/_interface/visco/_interface/_advect_weno3.py:42-61 | the eight line assignments on the embedded field give the closed-form padded field |
| Weno3.PadInterior | flowx/imbound/_interface/visco/_interface/_advect_weno3.py:42 | the original field sits unchanged at offset 2 of the padded field |
| Weno3.PadIsLinearExtrapolation | flowx/imbound/_interface/visco/_interface/_advect_weno3.py:47-61 | every padding layer is the linear extrapolation `2*a - b` of the two lines inside it, on all four sides and along whole lines, corners included |
| Weno3.PadConstant | flowx/imbound/_interface/visco/_interface/_advect_weno3.py:47-61 | padding a constant field gives the constant everywhere |
| Weno3.SetRowInPlace | flowx/imbound/_interface/visco/_interface/_advect_weno3.py:48-53 | one row assignment `a[d, :] = 2 * a[r1, :] - a[r2, :]` |
| Weno3.SetColInPlace | flowx/imbound/_interface/visco/_interface/_advect_weno3.py:56-61 | one column assignment `a[:, d] = 2 * a[:, c1] - a[:, c2]` |
| Weno3.PadInPlace | flowx/imbound/_interface/visco/_interface/_advect_weno3.py:47-61 | the eight assignments in their order: rows first, then columns |
| Weno3.EmbedArray | flowx/imbound/_interface/visco/_interface/_advect_weno3.py:37-45 | a fresh array of two more layers on each side, zero outside, the input copied into `[2:-2, 2:-2]` |
| Weno3.Unpad | flowx/imbound/_interface/visco/_interface/_advect_weno3.py:75 | `s[:, :] = s_weno[2:-2, 2:-2]` has the shape of `s` |
| Weno3.Advect | flowx/imbound/_interface/visco/_interface/_advect_weno3.py:29-77 | the field `advect_weno3` leaves in `s`, of the shape of `s` |
| Weno3.AdvectInterior | flowx/imbound/_interface/visco/_interface/_advect_weno3.py:86-376 | an original interior cell gets the flux update with its own old value, mask and four face velocities and the WENO3 face values of the padded field |
| Weno3.AdvectKeepsRing | flowx/imbound/_interface/visco/_interface/_advect_weno3.py:86-87 | the outer ring of `s` (one layer) is returned unchanged |
| Weno3.AdvectMaskedCell | flowx/imbound/_interface/visco/_interface/_advect_weno3.py:372-376 | where the mask is 0 the cell keeps its old value |
| Weno3.ConstantUpdate | flowx/imbound/_interface/visco/_interface/_advect_weno3.py:372-376 | with all face values `c` the update is `c - dt*pf*c*div`; for `c, dt != 0` the cell keeps `c` exactly when the mask or the discrete divergence is 0 |
| Weno3.AdvectConstantField | flowx/imbound/_interface/visco/_interface/_advect_weno3.py:29-378 | for any face formula exact on constants, a constant field is advected to `c - dt*pfl*c*div` at each interior cell, and keeps `c` there iff the mask or the divergence vanishes |
| Weno3.WenoConstantField | flowx/imbound/_interface/visco/_interface/_advect_weno3.py:29-378 | the same for the kernel's WENO3 formula |
| Weno3.UnpadInto | flowx/imbound/_interface/visco/_interface/_advect_weno3.py:75 | the copy-back `s[:, :] = s_weno[2:-2, 2:-2]` on arrays |
| Weno3.PaddedCopy | flowx/imbound/_interface/visco/_interface/_advect_weno3.py:37-61 | `s_weno` is the input embedded and padded |
| Weno3.PaddedSweep | flowx/imbound/_interface/visco/_interface/_advect_weno3.py:37-73 | the padded working copies, swept once |
| Weno3.AdvectWith | flowx/imbound/_interface/visco/_interface/_advect_weno3.py:29-77 | padding, sweep and copy-back leave `s` equal to `Advect` of the old inputs |
| Weno3.AdvectWeno3 | flowx/imbound/_interface/visco/_interface/_advect_weno3.py:29-77 | `advect_weno3` leaves `s` equal to `Advect` with the WENO3 face formula |
| Weno3.DynamicGridFreezesNegative | flowx/imbound/_interface/visco/_interface/_advect_weno3.py:5-14 | cells where the marker `lmda` is negative are not advected |
| Weno3.AdvectDynamicGrid | flowx/imbound/_interface/visco/_interface/_advect_weno3.py:5-14 | `advect_dynamic_grid`: advection masked by `lmda >= 0` |
| Weno3.AdvectSolid | flowx/imbound/_interface/visco/_interface/_advect_weno3.py:17-26 | `advect_solid`: advection with the all-ones mask |
| Weno3Legacy.LegacyAdvect | flowx/imbound/solvers/visco_elastic/subroutines/advectWENO3.py:25-310 | the field `advectWENO3` leaves in `s`: the same padding, sweep and copy-back as the current kernel with no mask factor; of the shape of `s` |
| Weno3Legacy.UnitMaskIsUnmasked | flowx/imbound/solvers/visco_elastic/subroutines/advectWENO3.py:308 | the unmasked cell update is the masked one with factor 1 |
| Weno3Legacy.LegacyInterior | flowx/imbound/solvers/visco_elastic/subroutines/advectWENO3.py:64-308 | every interior cell receives the unmasked flux update over the padded copy |
| Weno3Legacy.LegacyKeepsRing | flowx/imbound/solvers/visco_elastic/subroutines/advectWENO3.py:59 | only the interior is copied back, so the outer ring of `s` is unchanged |
| Weno3Legacy.LegacyConstantField | flowx/imbound/solvers/visco_elastic/subroutines/advectWENO3.py:25-310 | a nonzero constant field survives a nonzero step at an interior cell exactly when the discrete divergence of the face velocities vanishes there |
| Weno3Legacy.AdvectWeno3Legacy | flowx/imbound/solvers/visco_elastic/subroutines/advectWENO3.py:25-61 | `advectWENO3` leaves `s` equal to `LegacyAdvect` of its old contents |
| Weno3Legacy.AdvectSolidLegacy | flowx/imbound/solvers/visco_elastic/subroutines/advectWENO3.py:16-23 | `advect_solid` is `advectWENO3` |
| Weno3Legacy.AdvectDynamicGridLegacy | flowx/imbound/solvers/visco_elastic/subroutines/advectWENO3.py:4-14 | `advect_dynamic_grid`: the mask and `pfl*s` are bound to locals only, so the caller's `s` receives the unmasked advection and `lmda` plays no part |
| ViscoAdvect.Refill | flowx/imbound/_interface/visco/_advect.py:47 | `gridc.fill_guard_cells(key)` on the transposed block values, keeping the shape |
| ViscoAdvect.LinearRounds | flowx/imbound/_interface/visco/_advect.py:43-47 | the field after `k` rounds of `linear_extrapolation` each followed by a fill; an exception ends the rounds; the shape is kept |
| ViscoAdvect.LinearRoundsStop | flowx/imbound/_interface/visco/_advect.py:43-47 | once a round's fill has raised, the later rounds do not run |
| ViscoAdvect.LinearRoundsKeepFluid | flowx/imbound/_interface/visco/_advect.py:43-47 | an interior cell where the marker `phi` is not negative keeps its value through all rounds and fills |
| ViscoAdvect.LinearRoundsMissingKey | flowx/imbound/_interface/visco/_advect.py:47 | a variable missing from the boundary record raises `KeyError` at the first fill, with the first round's values kept |
| ViscoAdvect.MarkerSlope | flowx/imbound/_interface/visco/_advect.py:36-41 | `ddsn` after the directional derivative and the constant-extrapolation rounds, of the cell shape |
| ViscoAdvect.ExtrapolatedMarker | flowx/imbound/_interface/visco/_advect.py:35-47 | one "Extrapolate grid" block, of the cell shape |
| ViscoAdvect.SolidPhi | flowx/imbound/_interface/visco/_advect.py:64-65 | `phi` after `advect_solid` and its fill, of the cell shape |
| ViscoAdvect.LevelSetStepIsHalfDiagonal | flowx/imbound/_interface/visco/_advect.py:69 | `lsDT = sqrt(dx**2 + dy**2) / 2` is non-negative and `(2 lsDT)**2 = dx**2 + dy**2` |
| ViscoAdvect.RedistanceRounds | flowx/imbound/_interface/visco/_advect.py:71-73 | the field after `k` re-distance sweeps against the frozen reference, each followed by a fill; an exception ends them; the shape is kept |
| ViscoAdvect.RedistanceRoundsStop | flowx/imbound/_interface/visco/_advect.py:71-73 | once a sweep's fill has raised, the later sweeps do not run |
| ViscoAdvect.RedistanceKeepsInterface | flowx/imbound/_interface/visco/_advect.py:68-73 | after at least one completed sweep, an interior cell where the reference changes sign against a neighbour holds the reference value |
| ViscoAdvect.AdvectedMarker | flowx/imbound/_interface/visco/_advect.py:29-30 | a marker after the advection masked by `phi >= 0`, of the cell shape |
| ViscoAdvect.FreshNormal | flowx/imbound/_interface/visco/_advect.py:24-33 | a normal component of `phi` written into a fresh zero array, of the cell shape |
| ViscoAdvect.MarkersResult | flowx/imbound/_interface/visco/_advect.py:29-61 | the markers' part of `advect` leaves `phi` untouched and both markers of the cell shape |
| ViscoAdvect.LevelSetResult | flowx/imbound/_interface/visco/_advect.py:64-73 | the level-set part of `advect`, of the cell shape |
| ViscoAdvect.StepResult | flowx/imbound/_interface/visco/_advect.py:7-75 | what `advect` leaves in `phi`, `lmx`, `lmy` and how it ends; all of the cell shape |
| ViscoAdvect.MarkersAdvectedInFluid | flowx/imbound/_interface/visco/_advect.py:29-61 | outside the solid the markers end as the masked advection left them: extrapolation and fills never reach those interior cells |
| ViscoAdvect.InterfaceHeldByRedistance | flowx/imbound/_interface/visco/_advect.py:64-73 | when the step completes with at least one sweep, every interior cell at a sign change of the advected, filled level set keeps that value |
| ViscoAdvect.MissingMarkerRecord | flowx/imbound/_interface/visco/_advect.py:29-47 | with no boundary record for the `lmx` variable and at least one round, the step raises `KeyError` with `phi` untouched and `lmy` only advected |
| ViscoAdvect.ConstantLoop | flowx/imbound/_interface/visco/_advect.py:40-41 | the constant-extrapolation loop leaves `ddsn` as `ConstantRounds` of its old contents |
| ViscoAdvect.LinearRound | flowx/imbound/_interface/visco/_advect.py:44-47 | one round on the arrays is round `k + 1` of `LinearRounds` |
| ViscoAdvect.LinearLoop | flowx/imbound/_interface/visco/_advect.py:43-47 | the loop leaves the marker and the outcome as `LinearRounds` of the old marker |
| ViscoAdvect.MarkerStage | flowx/imbound/_interface/visco/_advect.py:35-47 | one "Extrapolate grid" block on the arrays leaves the marker and outcome as `ExtrapolatedMarker` |
| ViscoAdvect.SolidStage | flowx/imbound/_interface/visco/_advect.py:64-65 | `advect_solid` and the fill on the arrays leave `phi` as `SolidPhi` |
| ViscoAdvect.RedistanceRound | flowx/imbound/_interface/visco/_advect.py:72-73 | one sweep on the arrays is round `k + 1` of `RedistanceRounds` |
| ViscoAdvect.Sweeps | flowx/imbound/_interface/visco/_advect.py:71-73 | the sweeps leave `phi` and the outcome as `RedistanceRounds` against the fixed copy |
| ViscoAdvect.RedistanceLoop | flowx/imbound/_interface/visco/_advect.py:68-73 | `phi_old`, `lsDT` and the sweeps: `RedistanceRounds` against the old `phi` with step `LevelSetStep` |
| ViscoAdvect.AdvectMarkers | flowx/imbound/_interface/visco/_advect.py:24-33 | both masked advections and the normals of `phi` into fresh zero arrays |
| ViscoAdvect.MarkersStage | flowx/imbound/_interface/visco/_advect.py:24-61 | the markers' part on the arrays leaves `lmx`, `lmy` and the outcome as `MarkersResult` |
| ViscoAdvect.LevelSetStage | flowx/imbound/_interface/visco/_advect.py:63-73 | the level-set part on the arrays leaves `phi` and the outcome as `LevelSetResult` |
| ViscoAdvect.AdvectStep | flowx/imbound/_interface/visco/_advect.py:7-75 | `advect` leaves `phi`, `lmx`, `lmy` and the outcome as `StepResult` of the old fields |
| ViscoForceFlow.StressTerm | flowx/imbound/_interface/visco/_force_flow.py:47-68 | a stress buffer after `solid_stress` and the extrapolation rounds along the normals of `phi`, of the cell shape |
| ViscoForceFlow.ForcedU | flowx/imbound/_interface/visco/_force_flow.py:5-73 | `u` on return, of the x-face shape |
| ViscoForceFlow.ForcedV | flowx/imbound/_interface/visco/_force_flow.py:5-73 | `v` on return, of the y-face shape |
| ViscoForceFlow.StressKeptOutsideSolid | flowx/imbound/_interface/visco/_force_flow.py:58-68 | outside the solid and on the outer ring the extrapolated buffers hold the stress of the reference map itself |
| ViscoForceFlow.ShearTermsAgree | flowx/imbound/_interface/visco/_force_flow.py:58-68 | the two off-diagonal buffers are equal after `solid_stress`, so they stay equal after the extrapolation |
| ViscoForceFlow.MasslessSolidExertsNoForce | flowx/imbound/_interface/visco/_force_flow.py:55-71 | with no solid viscosity anywhere both velocities are kept |
| ViscoForceFlow.UndeformedSolidExertsNoForce | flowx/imbound/_interface/visco/_force_flow.py:58-71 | an undeformed solid, whose reference map is the identity map of the mesh, exerts no force: both velocities are kept |
| ViscoForceFlow.ExtrapolateStress | flowx/imbound/_interface/visco/_force_flow.py:64-68 | each loop round extrapolates all four buffers in turn: each ends as `ConstantRounds` of its old contents |
| ViscoForceFlow.StressStage | flowx/imbound/_interface/visco/_force_flow.py:47-58 | `solid_stress` into four fresh zero buffers |
| ViscoForceFlow.NormalStage | flowx/imbound/_interface/visco/_force_flow.py:51-61 | `normal_vector_solid` into two fresh zero arrays |
| ViscoForceFlow.StressBuffers | flowx/imbound/_interface/visco/_force_flow.py:47-68 | four fresh, distinct buffers holding the four `StressTerm`s |
| ViscoForceFlow.ForceFlow | flowx/imbound/_interface/visco/_force_flow.py:5-73 | `force_flow` leaves `u` and `v` as `ForcedU` and `ForcedV` of their old values; the other fields are only read |
| RigidForcing.FaceAverageBetween | flowx/imbound/_interface/rigid/_force_flow.py:35-39 | a face level lies between its two cells; it is `>= 0` exactly when their sum is, so a face between two inside cells is inside and one between two outside cells is not |
| RigidForcing.FaceLevels | flowx/imbound/_interface/rigid/_force_flow.py:35-36 | `ibx` has one column fewer and `iby` one row fewer than `ibc`, each entry the average of the two cells beside it |
| RigidForcing.Impose | flowx/imbound/_interface/rigid/_force_flow.py:38-43 | `u[numpy.where(ib >= 0)] = val` keeps the shape of `u` |
| RigidForcing.ImposeCells | flowx/imbound/_interface/rigid/_force_flow.py:38-43 | a face in the body takes exactly `val`; every other entry keeps its value |
| RigidForcing.ImposeOverwrites | flowx/imbound/_interface/rigid/_force_flow.py:41-43 | a second assignment over the same faces overwrites the first: the last particle wins |
| RigidForcing.ImposeIdempotent | flowx/imbound/_interface/rigid/_force_flow.py:42-43 | assigning the same value twice is assigning it once |
| RigidForcing.Forced | flowx/imbound/_interface/rigid/_force_flow.py:41-43 | the particle loop keeps the shape of the face field |
| RigidForcing.ForcedStep | flowx/imbound/_interface/rigid/_force_flow.py:41-43 | one more particle is one more assignment after the loop so far |
| RigidForcing.ForcedIdempotent | flowx/imbound/_interface/rigid/_force_flow.py:41-43 | forcing a forced field again with the same particles changes nothing |
| RigidForcing.FaceAt | flowx/imbound/_interface/rigid/_force_flow.py:35-36 | one face level read from the array equals the entry of `FaceLevels` |
| RigidForcing.FaceLevelsOf | flowx/imbound/_interface/rigid/_force_flow.py:35-36 | `ibx` or `iby` as a fresh array of the face shape holding `FaceLevels` |
| RigidForcing.ImposeInPlace | flowx/imbound/_interface/rigid/_force_flow.py:42 | the masked assignment in place leaves `u` as `Impose` of its old value |
| RigidForcing.ForceFlowRigid | flowx/imbound/_interface/rigid/_force_flow.py:3-45 | `force_flow` leaves `u` and `v` as `Forced` by the particles' first and second velocity components on the faces where the face level is `>= 0` |
| ImBound.Options | flowx/imbound/_imbound.py:53-81 | the options have the default keys plus the user's; a user key overrides, every other default stays |
| ImBound.Padded | flowx/imbound/_imbound.py:48 | `extend([None] * (4 - len))`: a shorter list is padded with `None` to four, a longer one is left as it is, and the original entries come first |
| ImBound.PaddedIdempotent | flowx/imbound/_imbound.py:48 | padding a padded list changes nothing, so the shared default list stays four `None`s however often it is used |
| ImBound.SearchOf | flowx/imbound/_imbound.py:68-107 | only `classical`, `ann` and `shapely` name a search function; any other value is a KeyError |
| ImBound.Dispatch | flowx/imbound/_imbound.py:84-107 | stub mode installs the three stub routines and no search function; otherwise `rigid` installs the rigid force and map routines with the stub advection, `visco` the three viscoelastic routines, any other type none, and an unknown `mapping_type` is a KeyError |
| ImBound.VarList.constructor | flowx/imbound/_imbound.py:10 | the caller's list holds the given items |
| ImBound.Mapped | flowx/imbound/_interface/rigid/_map_to_grid.py:23-29 | the stub returns `None`; the rigid routine returns the search count of the last particle, and with no particles `ites` is unbound (UnboundLocalError) |
| ImBound.ImBound.constructor | flowx/imbound/_imbound.py:40-76 | a unit holding the variables, options and routines, with mapping time and advection time 0 and mapping count 0 |
| ImBound.ImBound.Create | flowx/imbound/_imbound.py:9-109 | a domain list that is not five long or a variable list longer than four raises ValueError at unpacking; the caller's list is padded in place first; the dispatch's KeyError propagates; otherwise a fresh unit with the padded variables, the merged options and the dispatched routines |
| ImBound.ImBound.MapToGrid | flowx/imbound/_imbound.py:111-126 | a missing mapping routine or search function raises AttributeError; otherwise the routine's result becomes the mapping count and `t2 - t1` the mapping time, and nothing else changes |
| ImBound.ImBound.ForceFlow | flowx/imbound/_imbound.py:128-143 | the installed forcing routine runs; with none installed, AttributeError |
| ImBound.ImBound.Advect | flowx/imbound/_imbound.py:145-163 | the installed advection routine runs and `t2 - t1` becomes the advection time; with none installed, AttributeError and nothing changes |
| ImBound.StubNeverMaps | flowx/imbound/_imbound.py:84-124 | in stub mode no search function is set, so `map_to_grid` raises AttributeError before reaching the stub routine |
| ImBound.DefaultIsStub | flowx/imbound/_imbound.py:53-88 | unless the user sets a truthy `with_ib`, the unit is a stub |
| ImBound.ActiveDispatch | flowx/imbound/_imbound.py:53-107 | outside stub mode the default options give the rigid routines and the `ann` search; an unknown `mapping_type` is a KeyError whatever `ib_type` is |
| Grid.ParseLocation | flowx/domain/_grid/_gridBase.py:289-298 | exactly the four names `xlow`, `xhigh`, `ylow`, `yhigh` denote a location; any other name is the ValueError branch |
| Grid.ParseLocationName | flowx/domain/_grid/_gridBase.py:227 | every location the fill loop visits is recognised under its own name |
| Grid.GuardSolves | flowx/domain/_grid/_gridBase.py:289-317 | each rule's guard value is the one value satisfying its condition: `g0 - g1 = bc_val*delta` (Neumann), `(g0 + g1)/2 = bc_val` (mirrored Dirichlet), `g0 = bc_val` (boundary face), `g0 - g1 = g1 - g2` (projection) |
| Grid.FillSide | flowx/domain/_grid/_gridBase.py:289-317 | a side's guard line written by its rule, every other entry kept, the shape unchanged |
| Grid.FillSideSatisfies | flowx/domain/_grid/_gridBase.py:289-317 | after a side is filled its boundary condition holds along the whole guard line, and nothing off that line has changed |
| Grid.FillSideUnique | flowx/domain/_grid/_gridBase.py:289-317 | a field that keeps the old values off the guard line and satisfies the condition on it is the filled field |
| Grid.FillSideIdempotent | flowx/domain/_grid/_gridBase.py:289-317 | filling a side a second time changes nothing |
| Grid.FillSideInPlace | flowx/domain/_grid/_gridBase.py:289-296 | the slice assignment of one guard line, entry by entry, leaves the array as `FillSide` of its old contents |
| Grid.DirichletSetsBoundary | flowx/domain/_grid/_gridX.py:64-71 | every kind's Dirichlet fill puts `bc_val` on the boundary: on the guard face itself for a face grid's own normal sides, at the guard/interior average otherwise (cell-centred: flowx/domain/_grid/_gridC.py:62-69; y-face: flowx/domain/_grid/_gridY.py:62-69) |
| Grid.LocationFillInPlace | flowx/domain/_grid/_gridBase.py:289-296 | one side filled when the axis is long enough for the rule, otherwise IndexError with nothing written |
| Grid.NeumannFillInPlace | flowx/domain/_grid/_gridBase.py:289-298 | `fill_guard_cells_neumann`: guard = `bc_val*delta` + the adjacent entry on low and high sides alike; an unknown location is ValueError |
| Grid.ProjectionFillInPlace | flowx/domain/_grid/_gridBase.py:310-319 | `fill_guard_cells_projection`: guard = `2*a1 - a2`; an unknown location is ValueError |
| Grid.DirichletFillInPlace | flowx/domain/_grid/_gridC.py:62-71 | `fill_guard_cells_dirichlet` of the grid's kind (x-face flowx/domain/_grid/_gridX.py:64-73, y-face flowx/domain/_grid/_gridY.py:62-71); an unknown location is ValueError |
| Grid.SideCount | flowx/domain/_grid/_gridBase.py:241-242 | `zip` over the four locations and the variable's type and value lists stops at the shortest |
| Grid.DispatchTable | flowx/domain/_grid/_gridBase.py:243-255 | `neumann`, `dirichlet`, `outflow` (as Dirichlet) and `projection` fill the side with their rule; `None` writes nothing; any other type raises ValueError and writes nothing |
| Grid.FillTo | flowx/domain/_grid/_gridBase.py:241-255 | the first `k` sides in order; the first exception ends the fill with what was written so far; the shape is kept |
| Grid.SideAfter | flowx/domain/_grid/_gridBase.py:241-255 | side `k` after the sides before it, unless one of those raised; the shape is kept |
| Grid.SideStepShape | flowx/domain/_grid/_gridBase.py:243-255 | one side's step keeps the shape |
| Grid.VarFill | flowx/domain/_grid/_gridBase.py:232-255 | a variable without an entry in `bc_type` or `bc_val` raises KeyError with nothing written; otherwise the side loop |
| Grid.VarFillKeepsInterior | flowx/domain/_grid/_gridBase.py:212-255 | only guard lines are written: a cell off the outer ring keeps its value, whatever the record and the outcome |
| Grid.FillToStops | flowx/domain/_grid/_gridBase.py:241-255 | once a side has raised, the later sides are not visited |
| Grid.SideStepFrame | flowx/domain/_grid/_gridBase.py:243-255 | a side's step writes at most that side's guard line, and nothing when a neighbouring block lies there or the side has no type |
| Grid.FillToFrame | flowx/domain/_grid/_gridBase.py:241-255 | an entry off the guard lines of all visited sides without neighbour and with a type keeps its value, whatever the outcome |
| Grid.InteriorBlockUntouched | flowx/domain/_grid/_gridBase.py:243 | a block with neighbours on all four sides is not touched |
| Grid.LastSideHolds | flowx/domain/_grid/_gridBase.py:227-255 | `yhigh` is written last, so when the whole fill succeeds its condition holds along its entire guard line, corners included |
| Grid.SideStepInPlace | flowx/domain/_grid/_gridBase.py:243-255 | one side's dispatch on the array |
| Grid.GuardFillInPlace | flowx/domain/_grid/_gridBase.py:236-255 | the side loop on one variable's block array leaves it and the outcome as the side-by-side fill |
| Grid.CheckGeometryAccepts | flowx/domain/_grid/_gridBase.py:44-53 | the constructor accepts exactly counts divisible by the block counts, no odd block count unless one of them is 1, and non-empty counts; then `dx*nx = abs(xmax-xmin)`, `dx >= 0`, `nxb*xblocks = nx`, and likewise in y |
| Grid.Linspace | flowx/domain/_grid/_gridC.py:42-47 | `numpy.linspace` returns `num` points |
| Grid.LinspaceSpacing | flowx/domain/_grid/_gridC.py:42-47 | the points start at `a`, end at `b` and are evenly spaced by `(b-a)/(num-1)` |
| Grid.FaceLineSpacing | flowx/domain/_grid/_gridX.py:44-46 | on an increasing axis the `nx+1` face coordinates are `xmin + k*dx` |
| Grid.CellLineSpacing | flowx/domain/_grid/_gridC.py:42-47 | the `nx+2` cell coordinates run from `xmin - dx/2` to `xmax + dx/2` with spacing `dx`, and each inner one is the midpoint of two face coordinates |
| Grid.StorageMatchesGridlines | flowx/domain/_grid/_gridX.py:25-42 | each kind's block storage (cell `(nxb+2)x(nyb+2)`, x-face `(nxb+1)x nyb` with y guard 1, y-face `(nxb+2)x(nyb+1)`) has one stored entry per block gridline point |
| Grid.Merged | flowx/domain/_grid/_gridBase.py:154-156 | `{**bc, **user}`: the user's keys replace whole entries; other keys are kept |
| Grid.WithDefaults | flowx/domain/_grid/_gridBase.py:129-140 | every listed variable gets the default entry, other variables' entries are unchanged |
| Grid.MergedIdempotent | flowx/domain/_grid/_gridBase.py:154-170 | merging the same entries twice is merging them once |
| Grid.DefaultIsZeroGradient | flowx/domain/_grid/_gridBase.py:134-135 | under the default record every side is a Neumann side with value 0: its guard copies its neighbour |
| Grid.Grid.constructor | flowx/domain/_grid/_gridBase.py:52-87 | the spacing, block count, gridlines and the default record, overridden by the user's maps only when both are given |
| Grid.Grid.Create | flowx/domain/_grid/_gridBase.py:13-87 | the checks first (ValueError for divisibility and odd blocks, ZeroDivisionError for a zero count), then a fresh grid with `nblocks = xblocks*yblocks`, its spacing, gridlines and boundary record |
| Grid.Grid.SetDefaultBc | flowx/domain/_grid/_gridBase.py:129-140 | `set_default_bc`: four `neumann` sides of value 0.0 for each listed variable, other entries kept |
| Grid.Grid.SetUserBc | flowx/domain/_grid/_gridBase.py:142-156 | `set_user_bc` replaces whole entries of both maps for the given keys only |
| Grid.Grid.UpdateBcVal | flowx/domain/_grid/_gridBase.py:158-167 | `update_bc_val` replaces value entries for the given keys; the types are kept |
| Grid.Grid.UpdateBcType | flowx/domain/_grid/_gridBase.py:169-170 | `update_bc_type` replaces type entries for the given keys; the values are kept |
| Grid.Grid.FillGuardCells | flowx/domain/_grid/_gridBase.py:212-255 | `fill_guard_cells` of one variable: KeyError with nothing written when it has no record, otherwise the side loop over its types and values with the block's spacing |
| Operators.Add | flowx/ins/_interface/_operators.py:66-68 | the element-wise sum of two fields of one shape |
| Operators.Diffusion | flowx/ins/_interface/_operators.py:6-31 | `diffusion` has one entry per interior point: `alpha` times the 5-point Laplacian |
| Operators.SecondDiffAffine | flowx/ins/_interface/_operators.py:28-29 | the second difference of an affine sequence of values vanishes |
| Operators.DiffusionOfAffine | flowx/ins/_interface/_operators.py:28-29 | the diffusion term is 0 on every field affine in the indices, constants included |
| Operators.LaplacianAdditive | flowx/ins/_interface/_operators.py:28-29 | the Laplacian of a sum of stencils is the sum of their Laplacians |
| Operators.DiffusionAdditive | flowx/ins/_interface/_operators.py:28-29 | the diffusion term of `f + g` is the sum of their diffusion terms |
| Operators.DiffusionAdditiveInCoefficient | flowx/ins/_interface/_operators.py:28-29 | the diffusion term with `alpha + beta` is the sum of the terms with `alpha` and with `beta` |
| Operators.DiffusionHomogeneous | flowx/ins/_interface/_operators.py:28-29 | the diffusion term of `c f` is `c` times the diffusion term of `f`; with DiffusionAdditive, `diffusion` is linear in the field |
| Operators.ConvectiveFaceX | flowx/ins/_interface/_operators.py:33-70 | `convective_facex` has one entry per interior x-face |
| Operators.ConvectiveFaceY | flowx/ins/_interface/_operators.py:72-109 | `convective_facey` has one entry per interior y-face |
| Operators.ConvUniform | flowx/ins/_interface/_operators.py:66-68 | a stencil with uniform velocities has no convective acceleration |
| Operators.ConvectiveFaceXUniform | flowx/ins/_interface/_operators.py:51-70 | the x-face term of a uniform stream (zero velocity included) is 0 |
| Operators.ConvectiveFaceYUniform | flowx/ins/_interface/_operators.py:90-109 | the y-face term of a uniform stream is 0 |
| Operators.ConvectiveFaceXQuadratic | flowx/ins/_interface/_operators.py:51-70 | scaling both velocity grids by `c` scales the x-face convective term by `c^2` |
| Operators.ConvectiveFaceYQuadratic | flowx/ins/_interface/_operators.py:90-109 | scaling both velocity grids by `c` scales the y-face convective term by `c^2` |
| Operators.Transpose | flowx/ins/_interface/_operators.py:90-109 | `f.T`: entry `(i, j)` is `f[j][i]` |
| Operators.ConvectiveFaceYIsTransposedX | flowx/ins/_interface/_operators.py:72-109 | the y-face operator is the x-face operator with the axes exchanged: transposed grids in swapped roles, swapped spacings, transposed result |
| Operators.DiffusionTransposed | flowx/ins/_interface/_operators.py:28-29 | the diffusion term is symmetric in the axes: transposing the field and swapping the spacings transposes the result |
| Projection.HX | flowx/ins/_interface/_projection.py:33-34 | `convective_facex + diffusion(1/Re)` on the x-faces, one entry per interior x-face; the convection reads `gridx.dx`, `gridy.dy`, the diffusion the x-face grid's own `dx`, `dy` |
| Projection.HY | flowx/ins/_interface/_projection.py:35-36 | the same on the y-faces; the diffusion reads the y-face grid's own `dx`, `dy` |
| Projection.Embed | flowx/ins/_interface/_projection.py:33 | `f[1:-1, 1:-1] = g`: the interior takes `g`, the ring keeps `f` |
| Projection.AB2Term | flowx/ins/_interface/_projection.py:80-84 | `1.5*hnew - 0.5*hold[1:-1, 1:-1]`, of the interior shape |
| Projection.PredictU | flowx/ins/_interface/_projection.py:41 | the predicted x-velocity, of the x-face shape |
| Projection.PredictV | flowx/ins/_interface/_projection.py:42 | the predicted y-velocity, of the y-face shape |
| Projection.EulerU | flowx/ins/_interface/_projection.py:33-42 | the x-velocity after `predictor_euler` |
| Projection.EulerV | flowx/ins/_interface/_projection.py:33-42 | the y-velocity after `predictor_euler` |
| Projection.AB2U | flowx/ins/_interface/_projection.py:72-81 | the x-velocity after `predictor_ab2` |
| Projection.AB2V | flowx/ins/_interface/_projection.py:72-84 | the y-velocity after `predictor_ab2` |
| Projection.StoredHX | flowx/ins/_interface/_projection.py:33-34 | the `hvar` x-grid after a predictor: the new explicit terms in its interior, the ring kept |
| Projection.StoredHY | flowx/ins/_interface/_projection.py:35-36 | the `hvar` y-grid after a predictor |
| Projection.PredictorEuler | flowx/ins/_interface/_projection.py:7-44 | `predictor_euler` leaves `hx`, `hy` as the stored new terms and `u`, `v` as the Euler step of their old values, each diffusion term with its own grid's spacings |
| Projection.PredictorAB2 | flowx/ins/_interface/_projection.py:46-89 | `predictor_ab2` advances `u`, `v` with `1.5*h_new - 0.5*h_old`, then overwrites the stored terms with `h_new`, each diffusion term with its own grid's spacings |
| Projection.Divergence | flowx/ins/_interface/_projection.py:152-157 | `div[1:-1, 1:-1] = (...)/ifac`, of the cell shape, the ring kept |
| Projection.DivergenceInPlace | flowx/ins/_interface/_projection.py:130-159 | `divergence` writes `Divergence` of the face velocities into `div`; the velocities are only read |
| Projection.CorrectU | flowx/ins/_interface/_projection.py:187 | the corrected x-velocity, of the x-face shape |
| Projection.CorrectV | flowx/ins/_interface/_projection.py:188 | the corrected y-velocity, of the y-face shape |
| Projection.CorrectP | flowx/ins/_interface/_projection.py:190 | `ipres*p + dp`, of the cell shape |
| Projection.Corrector | flowx/ins/_interface/_projection.py:161-192 | `corrector` leaves `u`, `v`, `p` as `CorrectU`, `CorrectV`, `CorrectP` of their old values; `dp` is only read |
| Projection.CorrectedDifference | flowx/ins/_interface/_projection.py:187-188 | correcting two neighbouring faces by the gradient of `dp` changes their difference by `ifac` times the second difference of `dp` |
| Projection.CorrectorDivergenceAt | flowx/ins/_interface/_projection.py:156-188 | after the corrector the divergence at a cell is the old one minus `ifac` times the 5-point Laplacian of `dp` |
| Projection.ProjectionSolenoidal | flowx/ins/_interface/_projection.py:156-188 | when `dp` solves the Poisson equation whose right-hand side is `divergence(u*)/ifac`, the corrected velocity has zero divergence at every interior cell |
| Projection.HXUniform | flowx/ins/_interface/_projection.py:33-34 | a uniform stream has no explicit term at any x-face |
| Projection.HYUniform | flowx/ins/_interface/_projection.py:35-36 | nor at any y-face |
| Projection.PredictUAtRest | flowx/ins/_interface/_projection.py:41 | with no explicit term and a uniform pressure the x-velocity is left as it is |
| Projection.PredictVAtRest | flowx/ins/_interface/_projection.py:42 | the same for the y-velocity |
| Projection.EulerKeepsUniformStream | flowx/ins/_interface/_projection.py:33-42 | a uniform stream under uniform pressure is a steady state of `predictor_euler`, and the stored terms become 0 in the interior |
| Projection.AB2OfSteadyTerm | flowx/ins/_interface/_projection.py:80-84 | the Adams-Bashforth combination of a term equal to the stored one is that term |
| Projection.AB2WithCurrentTermsIsEuler | flowx/ins/_interface/_projection.py:72-87 | an Adams-Bashforth step whose stored terms are those the current velocities produce is exactly the Euler step |
| Projection.AB2KeepsUniformStream | flowx/ins/_interface/_projection.py:72-87 | a uniform stream is a steady state of `predictor_ab2` once the stored terms are the stream's |
| Projection.DivergenceOfUniform | flowx/ins/_interface/_projection.py:156-157 | a uniform stream has no divergence at any interior cell |
| Projection.CorrectUGaugeInvariant | flowx/ins/_interface/_projection.py:187 | adding a constant to `dp` does not change the corrected x-velocity |
| Projection.CorrectVGaugeInvariant | flowx/ins/_interface/_projection.py:188 | nor the corrected y-velocity |
| Projection.CorrectorOfUniformIncrement | flowx/ins/_interface/_projection.py:187-188 | a uniform increment leaves both velocities unchanged |
| Projection.CorrectPModes | flowx/ins/_interface/_projection.py:190 | with `pressure_correct` the increment is added to the pressure; without it, it becomes the pressure |
| MassBalance.SumBounds | flowx/ins/_interface/_mass_balance.py:30 | a line whose entries lie in `[lo, hi]` sums to between `len*lo` and `len*hi` |
| MassBalance.SumOfEqual | flowx/ins/_interface/_mass_balance.py:30 | a line of equal entries sums to its length times the entry |
| MassBalance.MeanOfEqual | flowx/ins/_interface/_mass_balance.py:157 | `numpy.mean` of a line of equal entries is that entry |
| MassBalance.MeanBounds | flowx/ins/_interface/_mass_balance.py:157 | the mean of a line whose entries lie in `[lo, hi]` lies in `[lo, hi]` |
| MassBalance.OutletsScale | flowx/ins/_interface/_mass_balance.py:66-75 | scaling the outlet sides' fluxes scales the outlet sum |
| MassBalance.InletsKeep | flowx/ins/_interface/_mass_balance.py:28-37 | changing only the outlet sides' fluxes leaves the inlet sum |
| MassBalance.QinBySides | flowx/ins/_interface/_mass_balance.py:3-39 | `get_qin` is the inflow of exactly the sides that are neither `outflow` nor `neumann`, in the grid's own direction |
| MassBalance.QoutBySides | flowx/ins/_interface/_mass_balance.py:41-77 | `get_qout` is the outflow of exactly the `outflow` and `neumann` sides |
| MassBalance.SidePartition | flowx/ins/_interface/_mass_balance.py:28-37 | every side contributes to exactly one of Qin and Qout, and the two parts together are its net inflow |
| MassBalance.NetFlux | flowx/ins/_interface/_mass_balance.py:26-75 | `Qin - Qout` is the net signed boundary flux, whatever the sides' types |
| MassBalance.CellCenteredHasNoFlux | flowx/ins/_interface/_mass_balance.py:28-37 | a grid that is neither x-face nor y-face has no flux: Qin and Qout are 0 |
| MassBalance.RescaleFactor | flowx/ins/_interface/_mass_balance.py:115-117 | `Qinout` satisfies `Qinout*Qout = Qin` when `Qout > 0`, and is 1 otherwise |
| MassBalance.Rescaled | flowx/ins/_interface/_mass_balance.py:119-129 | `rescale_velocity` on a value keeps the shape |
| MassBalance.RescaledTouchesOnlyOutlets | flowx/ins/_interface/_mass_balance.py:119-129 | rescaling multiplies exactly the interior faces of the outlet sides of the grid's own direction by the factor; every other entry is unchanged |
| MassBalance.QinAfterRescale | flowx/ins/_interface/_mass_balance.py:96-131 | rescaling leaves Qin as it was |
| MassBalance.QoutAfterRescale | flowx/ins/_interface/_mass_balance.py:96-131 | rescaling multiplies Qout by the factor |
| MassBalance.RescaleBalances | flowx/ins/_interface/_mass_balance.py:96-131 | rescaling the x-face and y-face grids by one factor multiplies their summed Qout by it |
| MassBalance.FactorBalances | flowx/ins/_interface/_mass_balance.py:115-117 | with a positive summed Qout, the factor times the two grids' Qout is Qin: after rescaling, mass out equals mass in |
| MassBalance.RescaleRestoresBalance | flowx/ins/_interface/_mass_balance.py:96-131 | for any factor c with c times the summed Qout equal to Qin, rescaling the outlet sides of both face grids by c makes the recomputed summed Qout equal Qin |
| MassBalance.RescaleFactorRestoresBalance | flowx/ins/_interface/_mass_balance.py:115-131 | with a positive summed Qout, rescaling both face grids by the computed factor `Qin / Qout` makes the recomputed summed Qout equal Qin |
| MassBalance.ScaleColumnInPlace | flowx/ins/_interface/_mass_balance.py:121 | `vel[1:-1, col] *= c` in place |
| MassBalance.ScaleRowInPlace | flowx/ins/_interface/_mass_balance.py:127 | `vel[row, 1:-1] *= c` in place |
| MassBalance.ScaleLineInPlace | flowx/ins/_interface/_mass_balance.py:121-129 | one side's interior faces scaled in place |
| MassBalance.RescaleVelocity | flowx/ins/_interface/_mass_balance.py:96-131 | `rescale_velocity` leaves `vel` as `Rescaled` by `RescaleFactor(Qin, Qout)` |
| MassBalance.ConvVel | flowx/ins/_interface/_mass_balance.py:133-167 | `get_convvel` is a list of four, 0 on every side that is not an `outflow` side of the grid's direction |
| MassBalance.ConvVelBounded | flowx/ins/_interface/_mass_balance.py:155-165 | the convective velocity of an outflow side lies between the smallest and largest velocity on its full boundary line |
| MassBalance.ConvVelOfUniform | flowx/ins/_interface/_mass_balance.py:155-165 | on a uniform field each outflow side's convective velocity is that velocity |
| MassBalance.OutflowBcVal | flowx/ins/_interface/_mass_balance.py:197-211 | outflow sides get the convective update of their boundary line; every other entry of `bc_val`, including any past the fourth, is kept |
| MassBalance.OutflowOfUniform | flowx/ins/_interface/_mass_balance.py:199-211 | a uniform field is a steady state of the outflow update: each outflow side stores its own boundary line |
| MassBalance.OutflowOfLinearProfile | flowx/ins/_interface/_mass_balance.py:201-211 | with a field varying linearly normal to the side, the update moves the boundary line by `convvel*dt` times that slope |
| MassBalance.UpdateSide | flowx/ins/_interface/_mass_balance.py:199-211 | one side's block: an outflow side's entry is replaced by its updated line, any other is kept |
| MassBalance.UpdateOutflowBc | flowx/ins/_interface/_mass_balance.py:169-213 | `update_outflow_bc` leaves the `bc_val` list as `OutflowBcVal` of its old contents; `vel` is only read |
| PoissonMatrix.CoeffAdd | flowx/poisson/_interface/_helpers.py:35-38 | a side's diagonal correction is 1.0 exactly for `neumann`, -1.0 exactly for `dirichlet`, and absent for every other type |
| PoissonMatrix.Adds | flowx/poisson/_interface/_helpers.py:32-38 | `coeff_add` has four slots; slot k holds the correction of the k-th type when there is one, None otherwise |
| PoissonMatrix.Known | flowx/poisson/_interface/_helpers.py:50-65 | the corrections as values, equal to each present one |
| PoissonMatrix.CoeffAdds | flowx/poisson/_interface/_helpers.py:31-38 | the loop over the types ends with IndexError exactly when a known type sits past the fourth side, and otherwise yields `Adds` |
| PoissonMatrix.CellOfRow | flowx/poisson/_interface/_helpers.py:42-68 | the row `counter` of cell (i, j) names that cell back |
| PoissonMatrix.RowOfCell | flowx/poisson/_interface/_helpers.py:42-68 | every row index below `nx*ny` is the row of exactly one interior cell |
| PoissonMatrix.RowBounds | flowx/poisson/_interface/_helpers.py:47-63 | the neighbour columns `counter-nx`, `counter+nx`, `counter-1`, `counter+1` written under each guard lie inside the matrix |
| PoissonMatrix.AssembleRow | flowx/poisson/_interface/_helpers.py:45-67 | one inner pass writes row `counter` as the five-point stencil of its cell (off-diagonal `1/dx^2` per existing neighbour, diagonal `-4/dx^2` plus the corrections of the missing sides) and no other row; ZeroDivisionError when `dx` is 0, TypeError when a needed correction is None |
| PoissonMatrix.AssembledStep | flowx/poisson/_interface/_helpers.py:67-68 | building row `counter` extends the assembled prefix by one row |
| PoissonMatrix.AssembleLine | flowx/poisson/_interface/_helpers.py:43-68 | the inner loop over i assembles the `nx` rows of line j, or stops with the exception it raised |
| PoissonMatrix.AssembledAll | flowx/poisson/_interface/_helpers.py:47-65 | once every row is built, every side's correction was read, so none was None |
| PoissonMatrix.BuildSparseMatrix | flowx/poisson/_interface/_helpers.py:8-70 | `build_sparse_matrix` ends with KeyError (no types for the variable), IndexError (a known type past the fourth side), ZeroDivisionError or TypeError, or builds the `nx*ny` square matrix whose every entry is the stencil entry of its row and column |
| PoissonMatrix.AdjacentBack | flowx/poisson/_interface/_helpers.py:47-63 | the neighbour relation between rows is symmetric |
| PoissonMatrix.EntrySymmetric | flowx/poisson/_interface/_helpers.py:45-67 | the assembled matrix is symmetric |
| PoissonMatrix.SideOver | flowx/poisson/_interface/_helpers.py:47-65 | each side contributes `1/dx^2` plus its correction minus one, over `dx^2`, whether its neighbour exists or not |
| PoissonMatrix.CellSumWhole | flowx/poisson/_interface/_helpers.py:45-67 | a whole row sums to its diagonal plus `1/dx^2` per existing neighbour |
| PoissonMatrix.RowSumFormula | flowx/poisson/_interface/_helpers.py:45-67 | every row sums to the sum over its missing sides of (correction + 1), over `dx^2` |
| PoissonMatrix.NeumannRowsSumToZero | flowx/poisson/_interface/_helpers.py:35-67 | with four `neumann` sides every row sums to zero (constants are in the kernel) |
| PoissonMatrix.DirichletRowSums | flowx/poisson/_interface/_helpers.py:37-67 | with four `dirichlet` sides every row sum is non-positive, and zero exactly for cells away from the boundary |
| PoissonSolvers.SolveStub | flowx/poisson/_interface/_solvers.py:9-30 | `solve_stub` returns `(None, None)` and leaves the grid as it was |
| PoissonSolvers.SumSquaresZero | flowx/poisson/_interface/_solvers.py:189 | a sum of squares is non-negative and is zero exactly on the zero field |
| PoissonSolvers.SumSquaresOfDifference | flowx/poisson/_interface/_solvers.py:189 | `sum((phi - phi_old)**2)` is zero exactly when the two fields are equal |
| PoissonSolvers.SumSquaresOf | flowx/poisson/_interface/_solvers.py:189 | the in-array sum of squares equals the specified sum |
| PoissonSolvers.SubOf | flowx/poisson/_interface/_solvers.py:189 | `phi - phi_old` evaluated into a fresh array is the entry-wise difference |
| PoissonSolvers.BlockSize | flowx/poisson/_interface/_solvers.py:190 | the divisor `(nx + 2) * (ny + 2)` is at least 4, so the residual's division is defined |
| PoissonSolvers.SqrtZero | flowx/poisson/_interface/_solvers.py:189 | `numpy.sqrt` of a non-negative value is non-negative and zero exactly at zero |
| PoissonSolvers.ResidualZero | flowx/poisson/_interface/_solvers.py:189-190 | the Jacobi residual is never negative, and it is zero exactly when the sweep changed nothing |
| PoissonSolvers.WeightedMeanFixed | flowx/poisson/_interface/_solvers.py:180-185 | the update's weighted mean equals the centre value exactly when the second differences sum to the right-hand side |
| PoissonSolvers.JacobiValueFixed | flowx/poisson/_interface/_solvers.py:180-185 | a point is left unchanged by the update exactly when the five-point Laplacian there equals `b` |
| PoissonSolvers.JacobiSweepFixed | flowx/poisson/_interface/_solvers.py:180-185 | a sweep leaves the field unchanged exactly when it solves the discrete Poisson equation at every interior point |
| PoissonSolvers.JacobiAt | flowx/poisson/_interface/_solvers.py:180-185 | the cell formula read from the arrays is the sweep's value at that cell |
| PoissonSolvers.SweepOverItself | flowx/poisson/_interface/_solvers.py:180 | writing the sweep's interior over the field gives the sweep (the ring is kept) |
| PoissonSolvers.JacobiSweepInPlace | flowx/poisson/_interface/_solvers.py:179-185 | the slice assignment from `phi_old` leaves `phi` as the sweep of the old field |
| PoissonSolvers.JacobiConverged | flowx/poisson/_interface/_solvers.py:178-191 | a round that fills without an exception and computes residual 0 started from a field that solves the discrete Poisson equation, and left it unchanged |
| PoissonSolvers.JacobiRound | flowx/poisson/_interface/_solvers.py:179-190 | one loop pass: `phi` becomes the sweep of its old value followed by `fill_guard_cells`, and on success the residual is that of the two fields |
| PoissonSolvers.OnTrackStep | flowx/poisson/_interface/_solvers.py:178-191 | a pass taken while the residual exceeds `tol` is the next round of the specification and keeps the loop invariant |
| PoissonSolvers.JacobiLoopSolves | flowx/poisson/_interface/_solvers.py:176-191 | from any state on the invariant, the loop ends with at most `maxiter` passes and `ites >= maxiter` or `residual <= tol`, the field after `ites` rounds and the residual of the last round; an exception from a fill ends it after the round that raised it |
| PoissonSolvers.JacobiSolveSpec | flowx/poisson/_interface/_solvers.py:176-191 | what `solve_jacobi` hands back: the loop's exit condition, the field after `ites` rounds, and `tol + 1.0` when no round ran |
| PoissonSolvers.SolveJacobi | flowx/poisson/_interface/_solvers.py:147-200 | `solve_jacobi` runs the sweeps in place on `phi` and returns the outcome, `ites` and `residual` of the specification |
| PoissonCg.NeumannDirectionIsSideFills | flowx/poisson/_interface/_solvers.py:62-66 | `fill_guard_cells_neumann` is the grid's Neumann side fill with offsets `bc_val*dx` and `bc_val*dy`, columns first |
| PoissonCg.NeumannDirectionSides | flowx/poisson/_interface/_solvers.py:62-66 | after the fill every guard line equals the line inside it plus the side's offset, and the interior is kept |
| PoissonCg.CgStart | flowx/poisson/_interface/_solvers.py:72-81 | the start state keeps the guess, and `rk_norm` is non-negative |
| PoissonCg.CgStep | flowx/poisson/_interface/_solvers.py:86-95 | a pass keeps the shapes, and the new `rk_norm` is non-negative |
| PoissonCg.CgLoop | flowx/poisson/_interface/_solvers.py:83-97 | the loop stops with `ites >= maxiter` or `res <= tol`, after no more than `maxiter` passes |
| PoissonCg.CgLoopKeepsRing | flowx/poisson/_interface/_solvers.py:88 | the loop writes only the interior of the solution: its outer ring is the one it started with |
| PoissonCg.CgSolveSpec | flowx/poisson/_interface/_solvers.py:72-99 | `solve_cg` returns with `ites == maxiter` or `res <= tol` and `res >= 0`; with `maxiter <= 0` or a start residual within `tol` it only fills the guess; the solution's ring is untouched until the closing fill |
| Operators.LaplacianScale | flowx/poisson/_interface/_solvers.py:58-60 | the five-point operator `A` is homogeneous |
| PoissonCg.LaplacianCombine | flowx/poisson/_interface/_solvers.py:58-60 | the five-point operator `A` is linear in one stencil |
| PoissonCg.SwappedAxesAgree | flowx/poisson/_interface/_solvers.py:58-60 | the CG operator (dx² on the second axis) and the Laplacian with dx² on the first axis agree on every stencil exactly when dx² = dy² |
| PoissonCg.ApplyAdvanced | flowx/poisson/_interface/_solvers.py:86-89 | moving `p` by `alpha*d` (with a zero ring) moves `A(p)` by `alpha*A(d)` |
| PoissonCg.TracksMoved | flowx/poisson/_interface/_solvers.py:88-89 | `r -= alpha * Ad` keeps `r` equal to `b - A(p)` for the moved `p` |
| PoissonCg.CgStepTracks | flowx/poisson/_interface/_solvers.py:86-97 | without the Neumann fill a pass keeps the residual true |
| PoissonCg.CgResidualIsTrue | flowx/poisson/_interface/_solvers.py:72-97 | when the xlow type is not `neumann`, the loop's `r` is the true residual `b - A(p)` when it ends, so `rk_norm == 0` means `A(p) == b` in the interior |
| PoissonCg.CgLoopRk | flowx/poisson/_interface/_solvers.py:73-92 | every state the loop reaches carries `rk_norm == sum(r * r)` |
| PoissonCg.Start | flowx/poisson/_interface/_solvers.py:68-81 | the start state evaluated into fresh `r` and `d` arrays is `CgStart` |
| PoissonCg.Step | flowx/poisson/_interface/_solvers.py:86-95 | one pass on the arrays is `CgStep` |
| PoissonCg.Loop | flowx/poisson/_interface/_solvers.py:83-97 | the while loop on the arrays is `CgLoop` |
| PoissonCg.XLowOutcome | flowx/poisson/_interface/_solvers.py:78 | reading `bc_type[ivar][0], bc_val[ivar][0]` ends with KeyError for a missing entry or IndexError for an empty list, checked in that order, and succeeds exactly when both xlow values exist |
| PoissonCg.EmptyTypeListIsIndexError | flowx/poisson/_interface/_solvers.py:78 | an existing but empty type list raises IndexError, not KeyError |
| PoissonCg.SolveCg | flowx/poisson/_interface/_solvers.py:32-108 | `solve_cg` raises the read's KeyError or IndexError and leaves `p` when the xlow record cannot be read, and otherwise leaves `p`, `ites` and `res` as the specification, ending with `fill_guard_cells` |
| Ins.DefaultOptions | flowx/ins/_ins.py:60-70 | without user entries the options are `ab2` and `pressure_correct = True`; a user entry overrides its default |
| Ins.CorrectorSets | flowx/ins/_ins.py:108-121 | the corrector lists are copies of the predictor lists with u's xlow, xhigh and v's ylow, yhigh set to None and every other entry kept; IndexError (None) when a list is too short |
| Ins.Prepare | flowx/ins/_ins.py:93-124 | the set-up raises KeyError exactly for an unknown `time_stepping` or a variable without a type list, and IndexError exactly for too short lists; otherwise it installs the scheme and lists, and assigns the rescale stub exactly when the pressure has a `dirichlet` side |
| Ins.Predicted | flowx/ins/_ins.py:161-171 | the predictor stage keeps the fields' shapes |
| Ins.FillOn | flowx/ins/_ins.py:176-177 | a velocity guard fill keeps the field's shape |
| Ins.Refilled | flowx/ins/_ins.py:176-177 | the two velocity fills keep the shapes |
| Ins.Forced | flowx/ins/_ins.py:174-177 | the forcing stage keeps the shapes |
| Ins.Balanced | flowx/ins/_ins.py:186-187 | the rescaling stage keeps the shapes |
| Ins.DivergenceFill | flowx/ins/_ins.py:190-198 | the divergence and its fill keep the cell grid's shape |
| Ins.Corrected | flowx/ins/_ins.py:211-222 | the corrector stage keeps the shapes |
| Ins.ForwardStops | flowx/ins/_ins.py:174-177 | an exception from the forcing or its fills ends the step there, with the fields as they were left |
| Ins.ForwardGoesOn | flowx/ins/_ins.py:174-204 | otherwise the step goes on from the forced fields to measuring Qout, rescaling and the pressure solve |
| Ins.PressureStops | flowx/ins/_ins.py:180-198 | an exception from the divergence's fill ends the step after `qout` was recorded |
| Ins.PressureGoesOn | flowx/ins/_ins.py:180-208 | otherwise the Poisson unit's increment and its `ites`, `res` and `poisson_time` are recorded and the step finishes from there |
| Ins.FinishStops | flowx/ins/_ins.py:207-222 | an exception from the corrector's fills ends the step with the corrector lists installed |
| Ins.FinishEnds | flowx/ins/_ins.py:207-242 | otherwise the step ends with the divergence of the corrected velocity; when its fill completes, `ins_time` and the statistics are recorded, and only then |
| Ins.FillKeepsUntyped | flowx/ins/_ins.py:176-177 | a velocity guard fill does not write the guard faces of an untyped side |
| Ins.FillKeepsInterior | flowx/ins/_ins.py:176-177 | a guard fill keeps every value off the outer ring |
| Ins.CorrectedFields | flowx/ins/_ins.py:211-222 | a completed corrector stage holds the corrected velocities, guard-filled under the corrector lists |
| Ins.FilledDivergence | flowx/ins/_ins.py:221-225 | filling the velocities under the corrector lists leaves the divergence of every interior cell as it was |
| Ins.ProjectedSolenoidal | flowx/ins/_ins.py:190-225 | with a Poisson unit that solves its equation exactly and grids sharing their spacings, the corrected velocity has zero divergence in every interior cell |
| Ins.AdvanceSolenoidal | flowx/ins/_ins.py:140-242 | under the same conditions a step that completes leaves a divergence-free velocity: the `div` field is zero in every interior cell |
| Ins.Scalars.constructor | flowx/domain/_scalars.py:21-27 | a fresh `scalars` object has an empty statistics dictionary |
| Ins.MeasureInflow | flowx/ins/_ins.py:147-154 | the predictor lists are installed in the face grids and `stats["qin"]` is Qin of both face grids |
| Ins.AdvanceOutflow | flowx/ins/_ins.py:157-158 | both face grids' `bc_val` lists are advanced by the outflow update with the scalars' `dt` |
| Ins.PredictForce | flowx/ins/_ins.py:161-177 | the predictor, the forcing and the fills, as the stage functions say |
| Ins.Predict | flowx/ins/_ins.py:161-171 | the installed predictor on the face and convective arrays, with `gridx.dx`, `gridy.dy` for convection and pressure and each face grid's own spacings for its diffusion |
| Ins.Force | flowx/ins/_ins.py:174-177 | the forcing and the velocity fills; AttributeError when no forcing routine is installed |
| Ins.FillGrid | flowx/ins/_ins.py:198 | `fill_guard_cells` of one variable on one grid |
| Ins.FillVelocities | flowx/ins/_ins.py:176-177 | `fill_guard_cells(velc)` on both face grids, stopping at the first exception |
| Ins.MeasureOutflow | flowx/ins/_ins.py:180-183 | `stats["qout"]` is Qout of both face grids |
| Ins.RescaleBoth | flowx/ins/_ins.py:186-187 | both face velocities rescaled with the same Qin and Qout |
| Ins.SolvePressure | flowx/ins/_ins.py:190-204 | the divergence over `dt` and its fill; when the fill completes, the Poisson unit's increment and statistics, else the increment and statistics are unchanged |
| Ins.Correct | flowx/ins/_ins.py:207-222 | the corrector lists are installed, the corrector runs and the velocities are filled |
| Ins.Conclude | flowx/ins/_ins.py:225-242 | the final divergence and its fill; then `ins_time` and the statistics, only when the fill completes |
| Ins.PressureStep | flowx/ins/_ins.py:180-242 | the part of the step after the forcing, on the unit's objects |
| Ins.FinishStep | flowx/ins/_ins.py:207-242 | the part of the step from the corrector on, on the unit's objects |
| Ins.Step | flowx/ins/_ins.py:140-242 | `_advance` on the unit's objects: the flow, statistics and type lists end as the step's specification says, and the outflow values are advanced from the velocities at the start of the step |
| Ins.IncompNS.constructor | flowx/ins/_ins.py:46-60 | the unit holds its options and objects |
| Ins.IncompNS.Create | flowx/ins/_ins.py:46-124 | the constructor: ValueError for a list of the wrong length; a stub when an object or name is missing or a grid has more than one block; otherwise the outcome of the set-up, with the user's options merged over the defaults |
| Ins.IncompNS.Advance | flowx/ins/_ins.py:128-138 | `advance`: a stub unit does nothing; an active unit runs `_advance` as `Step` says |

## Left out

- I/O is not modelled: the `print` warnings (the re-distance sign-change warning, verbose solver and mapping output, the stub warnings of the units), timings and HDF5. Clock readings enter `_advance` and the immersed-boundary unit as parameters.
- Floating point is not modelled; all arithmetic is over `real`. Three division sites are modelled with the `ZeroDivisionError` they raise: the grid constructor's `%` and `/` by a zero block count or cell count (`Grid.CheckGeometry`), the `1.0 / (dx**2)` of the Poisson matrix assembly for `dx == 0` (`PoissonMatrix.AssemblyOutcome`), and the scalar division by a degenerate polygon edge in the classical search. Every other division by zero is excluded by precondition instead of modelled: the plain-Python `1 / Re` of the predictors (`flowx/ins/_interface/_projection.py:34`, 36, 73 and 75) raises `ZeroDivisionError` for `Re == 0`, and the model requires `re != 0.0` (Projection, Ins); inside the numba-jitted kernels a scalar division by zero raises `ZeroDivisionError` for a zero spacing (the `1.0 / (2 * dx)` factors of `flowx/imbound/_interface/visco/_interface/_solid_stress.py:51-54`, the `/dx`, `/dy` of the WENO3 update) and for `Re_s == 0` (the `dx * Re_s`, `2 * dy * Re_s` divisors of `flowx/imbound/_interface/visco/_interface/_solid_ustar.py:38-39` and 67-68), and the model requires `dx != 0.0 && dy != 0.0` on the kernels and `dx * re != 0.0 && dy * re != 0.0` in SolidUstar and ViscoForceFlow; the re-distance sign `soo / abs(soo + eps)` of the jitted re-distance kernel is an array division, which gives `inf`/`nan` where `soo == -eps`, excluded by `Redistance.NoPole`; and the numpy array divisions outside numba (a zero spacing in the extrapolations and elsewhere, the normals of a flat level set) would give `inf`/`nan` and are preconditions too.
- Axis conventions are those of each source file, and the model keeps them rather than reconciling them. Projection, Operators and Ins index a face array with x along the first axis (`u[i][j]`, `i` the x index), as `_projection.py` does, and the guard fills of the grid model are applied to these arrays transposed. MassBalance slices as `_mass_balance.py:28-37` does: the x sides of an x-face array are its first and last columns, `vel[1:-1, 0]` and `vel[1:-1, -1]`. Jacobi weights the first-axis neighbours by `dy²` (`_solvers.py:180-185`), so it puts `dx` on the first axis; CG's operator (`_solvers.py:58-60`) divides the second-axis differences by `dx²`, so it puts `dx` on the second axis. `Ins.Solves` puts `dx` on the first axis. Ins composes these modules as the source does, so two consequences carry over from the source.
- Ins.QinOf, Ins.QoutOf, Ins.Balanced: the flows and the rescaling composed in `_advance` read and scale `u[·][0]` and `u[·][m-1]` of the projection's x-face array, which in the projection's view are its y guard lines, not its x boundary faces; the mass-balance property proved is about these lines.
- Ins.Solves: with `dx² != dy²` the Jacobi and CG units solve different discrete equations. `Ins.Solves` states the one whose first-axis differences are divided by `dx²`, the equation of the Jacobi sweep; the CG operator states it only when `dx² == dy²` (PoissonCg.SwappedAxesAgree). The theorems that assume `Ins.Solves` therefore do not cover the CG unit on a grid with `dx² != dy²`.
- `numpy.sqrt` is a parameter bound by `Fields.SqrtLaw`, because the existence of real square roots is not available to the proofs.
- The kernels take `nx`, `ny` as the array dimensions; callers passing other loop bounds are not modelled.
- ClassicalSearch: the unused vector `v2` of the search kernel is not modelled.
- The outflow values advanced by `update_outflow_bc` are lines, and the model keeps them in their own lists (`valsX`, `valsY`). The grid record the guard fills read holds one scalar per side, so those lines are not fed back into later fills.
- The viscoelastic `map_to_grid` and `solid_props` are not part of this model. The solid viscosity `xmus` enters `force_flow` as a parameter, and the immersed-boundary mapping result is a parameter of `ImBound.ImBound.MapToGrid`.
- The Ann and Shapely searches are not part of this model; the immersed-boundary unit records which search it installs.
- The scipy factorisation (`splu`) in `build_sparse_matrix`, and the direct solvers `solve_direct` and `solve_superlu`, are not modelled.
- The Poisson unit, the immersed-boundary forcing routine and the operator statistics `_stats` are parameters of the integrator step.
- Ins: `pressure_correct` is modelled only as a boolean flag; a non-boolean user value makes the unit unrunnable in the model.
- Only a single block is modelled, with no neighbours. `halo_exchange`, block placement and the bubblebox data container are left out, so a grid with several blocks only matters through the stub decision of `IncompNS`.
- Grid.Grid.Create: the constructor's closing `fill_guard_cells` (flowx/domain/_grid/_gridBase.py:89) is not modelled. It runs after `set_user_bc` (line 87), so a nonzero user Dirichlet, Neumann or outflow value writes nonzero guard cells that the model's new grid does not have, and an unknown user boundary type raises the `ValueError` of `_gridBase.py:254-255` out of the constructor, which the model's constructor does not raise. `Grid.Grid.FillGuardCells` models that fill on its own.
- MassBalance.OutflowBcVal, MassBalance.UpdateOutflowBc: a `bc_val` list shorter than four entries is excluded by precondition. The source accepts one as long as no outflow side lies past its end; there the assignment `bc_val[k] = ...` raises IndexError, which the model does not represent.
- Grid.Grid.FillGuardCells fills one variable; a list of variables is the same call once per name.
- `predictor_rk3` is not part of this model: the predictor table of `IncompNS` holds only `euler` and `ab2`.
- The rescale stub `rescale_velocity_stub` is never called. The constructor assigns it to `_rescaleVelocity` (flowx/ins/_ins.py:124), but `_advance` calls `_rescale_velocity`. The model follows the code: `Ins.Prepare` records the assignment and the step always rescales.
- `get_l2_norm` and `compute_error` are outside the integrator step and are not modelled.
