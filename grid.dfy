/**
 * The grid's boundary-condition record and its guard-cell fill.  A grid keeps,
 * per variable, a list of four boundary types and four values for the sides
 * xlow, xhigh, ylow, yhigh; `fill_guard_cells` writes, on every side without
 * a neighbouring block, the guard line of the variable's block array from the
 * lines next to it.  The three grid kinds (cell-centred, x-face, y-face) differ
 * in their Dirichlet rule, their storage shape and their gridline coordinates.
 *
 * A block array is an `array2<real>` with the leading block and z axes
 * dropped: indexed [y, x] as stored, or [x, y] (`transposed`) when it is the
 * transposed view the level-set routines work on.
 */
module Grid {
  import opened Fields

  datatype Option<T> = None | Some(value: T)

  datatype Kind = CellCentered | FaceX | FaceY

  datatype Location = XLow | XHigh | YLow | YHigh

  /** How a routine ends: success, or the Python exception it raises. */
  datatype Outcome = Done | ValueError | IndexError | KeyError | TypeError | AttributeError | ZeroDivisionError

  /** The name of a boundary location as the fill routines spell it. */
  function LocationName(loc: Location): string {
    match loc
    case XLow => "xlow"
    case XHigh => "xhigh"
    case YLow => "ylow"
    case YHigh => "yhigh"
  }

  /** The location a name denotes; any other name makes a fill raise ValueError. */
  function ParseLocation(loc: string): (r: Option<Location>)
    ensures r.Some? <==> loc in {"xlow", "xhigh", "ylow", "yhigh"}
    ensures r.Some? ==> LocationName(r.value) == loc
  {
    if loc == "xlow" then Some(XLow)
    else if loc == "xhigh" then Some(XHigh)
    else if loc == "ylow" then Some(YLow)
    else if loc == "yhigh" then Some(YHigh)
    else None
  }

  /** Every location is recognised under its own name. */
  lemma ParseLocationName(loc: Location)
    ensures ParseLocation(LocationName(loc)) == Some(loc)
  {
  }

  // ---------------------------------------------------------------------------
  // One side

  /**
   * The guard line of a side: a row (fixed first index) or a column (fixed
   * second index), at the low or the high end of that axis.
   */
  datatype Side = Side(rows: bool, low: bool)

  /** The guard line of a location: x sides are columns of the stored [y, x] array, rows of its transpose. */
  function SideOf(loc: Location, transposed: bool): Side {
    Side((loc.XLow? || loc.XHigh?) == transposed, loc.XLow? || loc.YLow?)
  }

  /** The length of the axis a side's guard line closes. */
  function Extent(side: Side, n: nat, m: nat): nat {
    if side.rows then n else m
  }

  /** The index of the line `k` steps inwards from the guard line (`0`, `1`, `2` or `-1`, `-2`, `-3`). */
  function Line(side: Side, n: nat, m: nat, k: nat): int {
    if side.low then k else Extent(side, n, m) - 1 - k
  }

  predicate OnGuard(side: Side, n: nat, m: nat, i: int, j: int) {
    (if side.rows then i else j) == Line(side, n, m, 0)
  }

  /**
   * How a guard entry is made from the entries `a1`, `a2` one and two lines
   * inwards: `c + a1` (Neumann, `c = bc_val * delta`), `2 v - a1` (Dirichlet
   * mirrored about the boundary), `v` (Dirichlet on a boundary face), and
   * `2 a1 - a2` (projection).
   */
  datatype Rule = Offset(c: real) | Reflect(v: real) | Exact(v: real) | Extrapolate

  function Guard(rule: Rule, a1: real, a2: real): real {
    match rule
    case Offset(c) => c + a1
    case Reflect(v) => 2.0 * v - a1
    case Exact(v) => v
    case Extrapolate => 2.0 * a1 - a2
  }

  /** The boundary condition a rule imposes on a guard entry `g0` and the entries `g1`, `g2` inwards of it. */
  predicate Satisfies(rule: Rule, g0: real, g1: real, g2: real) {
    match rule
    case Offset(c) => g0 - g1 == c
    case Reflect(v) => (g0 + g1) / 2.0 == v
    case Exact(v) => g0 == v
    case Extrapolate => g0 - g1 == g1 - g2
  }

  /** A rule's guard value is the one value that satisfies its condition. */
  lemma GuardSolves(rule: Rule, g0: real, g1: real, g2: real)
    ensures Satisfies(rule, g0, g1, g2) <==> g0 == Guard(rule, g1, g2)
  {
  }

  /** How many lines, counting the guard line, a rule touches. */
  function Reach(rule: Rule): nat {
    match rule
    case Exact(_) => 1
    case Extrapolate => 3
    case _ => 2
  }

  /** The axis is long enough for the rule; otherwise numpy raises IndexError. */
  predicate Fits(side: Side, rule: Rule, n: nat, m: nat) {
    Extent(side, n, m) >= Reach(rule)
  }

  /** The entry `k` lines inwards from the guard line, on the line across the side through (i, j); 0 beyond the rule's reach. */
  function Across(f: Field, n: nat, m: nat, side: Side, rule: Rule, k: nat, i: int, j: int): real
    requires IsShape(f, n, m) && Fits(side, rule, n, m) && 0 <= i < n && 0 <= j < m
  {
    if k >= Reach(rule) then 0.0
    else if side.rows then f[Line(side, n, m, k)][j]
    else f[i][Line(side, n, m, k)]
  }

  function GuardAt(f: Field, n: nat, m: nat, side: Side, rule: Rule, i: int, j: int): real
    requires IsShape(f, n, m) && Fits(side, rule, n, m) && 0 <= i < n && 0 <= j < m
  {
    Guard(rule, Across(f, n, m, side, rule, 1, i, j), Across(f, n, m, side, rule, 2, i, j))
  }

  /** The guard line of one side written by a rule; every other entry is kept. */
  function FillSide(f: Field, n: nat, m: nat, side: Side, rule: Rule): (g: Field)
    requires IsShape(f, n, m) && Fits(side, rule, n, m)
    ensures IsShape(g, n, m)
  {
    seq(n, i requires 0 <= i < n => seq(m, j requires 0 <= j < m =>
      if OnGuard(side, n, m, i, j) then GuardAt(f, n, m, side, rule, i, j) else f[i][j]))
  }

  /**
   * After a side is filled its boundary condition holds along the whole guard
   * line, and nothing off the guard line has changed.
   */
  lemma FillSideSatisfies(f: Field, n: nat, m: nat, side: Side, rule: Rule)
    requires IsShape(f, n, m) && Fits(side, rule, n, m)
    ensures forall i, j :: 0 <= i < n && 0 <= j < m && !OnGuard(side, n, m, i, j) ==> FillSide(f, n, m, side, rule)[i][j] == f[i][j]
    ensures forall i, j :: 0 <= i < n && 0 <= j < m && OnGuard(side, n, m, i, j) ==>
      Satisfies(rule, FillSide(f, n, m, side, rule)[i][j],
                Across(FillSide(f, n, m, side, rule), n, m, side, rule, 1, i, j),
                Across(FillSide(f, n, m, side, rule), n, m, side, rule, 2, i, j))
  {
    var g := FillSide(f, n, m, side, rule);
    forall i, j | 0 <= i < n && 0 <= j < m && OnGuard(side, n, m, i, j)
      ensures Satisfies(rule, g[i][j], Across(g, n, m, side, rule, 1, i, j), Across(g, n, m, side, rule, 2, i, j))
    {
      assert Across(g, n, m, side, rule, 1, i, j) == Across(f, n, m, side, rule, 1, i, j);
      assert Across(g, n, m, side, rule, 2, i, j) == Across(f, n, m, side, rule, 2, i, j);
      GuardSolves(rule, g[i][j], Across(f, n, m, side, rule, 1, i, j), Across(f, n, m, side, rule, 2, i, j));
    }
  }

  /**
   * Conversely, a field that keeps `f` off the guard line and satisfies the
   * side's condition on it is the filled field: the fill is the unique way to
   * impose the condition.
   */
  lemma FillSideUnique(f: Field, g: Field, n: nat, m: nat, side: Side, rule: Rule)
    requires IsShape(f, n, m) && IsShape(g, n, m) && Fits(side, rule, n, m)
    requires forall i, j :: 0 <= i < n && 0 <= j < m && !OnGuard(side, n, m, i, j) ==> g[i][j] == f[i][j]
    requires forall i, j :: 0 <= i < n && 0 <= j < m && OnGuard(side, n, m, i, j) ==>
      Satisfies(rule, g[i][j], Across(g, n, m, side, rule, 1, i, j), Across(g, n, m, side, rule, 2, i, j))
    ensures g == FillSide(f, n, m, side, rule)
  {
    var h := FillSide(f, n, m, side, rule);
    forall i, j | 0 <= i < n && 0 <= j < m
      ensures g[i][j] == h[i][j]
    {
      if OnGuard(side, n, m, i, j) {
        assert Across(g, n, m, side, rule, 1, i, j) == Across(f, n, m, side, rule, 1, i, j);
        assert Across(g, n, m, side, rule, 2, i, j) == Across(f, n, m, side, rule, 2, i, j);
        GuardSolves(rule, g[i][j], Across(f, n, m, side, rule, 1, i, j), Across(f, n, m, side, rule, 2, i, j));
      }
    }
    FieldExt(g, h, n, m);
  }

  /** Filling a side a second time changes nothing. */
  lemma FillSideIdempotent(f: Field, n: nat, m: nat, side: Side, rule: Rule)
    requires IsShape(f, n, m) && Fits(side, rule, n, m)
    ensures FillSide(FillSide(f, n, m, side, rule), n, m, side, rule) == FillSide(f, n, m, side, rule)
  {
    var g := FillSide(f, n, m, side, rule);
    FillSideSatisfies(f, n, m, side, rule);
    FillSideUnique(g, g, n, m, side, rule);
  }

  /** The guard line written entry by entry across the side, each from the unchanged lines inwards of it. */
  method FillSideInPlace(a: array2<real>, side: Side, rule: Rule)
    requires Fits(side, rule, a.Length0, a.Length1)
    modifies a
    ensures Snapshot(a) == FillSide(old(Snapshot(a)), a.Length0, a.Length1, side, rule)
  {
    var n, m := a.Length0, a.Length1;
    ghost var f0 := Snapshot(a);
    var g := Line(side, n, m, 0);
    var across := if side.rows then m else n;
    for t := 0 to across
      invariant forall i, j :: 0 <= i < n && 0 <= j < m ==>
        a[i, j] == if OnGuard(side, n, m, i, j) && (if side.rows then j else i) < t then GuardAt(f0, n, m, side, rule, i, j) else f0[i][j]
    {
      var i, j := if side.rows then g else t, if side.rows then t else g;
      var a1 := if Reach(rule) <= 1 then 0.0 else if side.rows then a[Line(side, n, m, 1), j] else a[i, Line(side, n, m, 1)];
      var a2 := if Reach(rule) <= 2 then 0.0 else if side.rows then a[Line(side, n, m, 2), j] else a[i, Line(side, n, m, 2)];
      assert a1 == Across(f0, n, m, side, rule, 1, i, j);
      assert a2 == Across(f0, n, m, side, rule, 2, i, j);
      a[i, j] := Guard(rule, a1, a2);
    }
    FieldExt(Snapshot(a), FillSide(f0, n, m, side, rule), n, m);
  }

  // ---------------------------------------------------------------------------
  // The fill routines for one location

  /** A block array after a fill routine, and how the routine ended. */
  datatype Filled = Filled(f: Field, out: Outcome)

  /** One side filled, or IndexError (nothing written) when the axis is too short. */
  function LocationFill(f: Field, n: nat, m: nat, side: Side, rule: Rule): Filled
    requires IsShape(f, n, m)
  {
    if Fits(side, rule, n, m) then Filled(FillSide(f, n, m, side, rule), Done) else Filled(f, IndexError)
  }

  /** `fill_guard_cells_neumann`: guard = `bc_val * delta` + the adjacent entry, on low and high sides alike. */
  function NeumannFill(f: Field, n: nat, m: nat, loc: string, bcVal: real, delta: real, transposed: bool): Filled
    requires IsShape(f, n, m)
  {
    match ParseLocation(loc)
    case None => Filled(f, ValueError)
    case Some(l) => LocationFill(f, n, m, SideOf(l, transposed), Offset(bcVal * delta))
  }

  /** `fill_guard_cells_projection`: guard = 2 a1 - a2. */
  function ProjectionFill(f: Field, n: nat, m: nat, loc: string, transposed: bool): Filled
    requires IsShape(f, n, m)
  {
    match ParseLocation(loc)
    case None => Filled(f, ValueError)
    case Some(l) => LocationFill(f, n, m, SideOf(l, transposed), Extrapolate)
  }

  /** The cell-centred Dirichlet rule: every guard mirrors its neighbour about `bc_val`. */
  function CellCenteredDirichlet(loc: Location, bcVal: real): Rule {
    Reflect(bcVal)
  }

  /** The x-face Dirichlet rule: the boundary faces on the x sides take `bc_val`; the y sides mirror. */
  function FaceXDirichlet(loc: Location, bcVal: real): Rule {
    if loc.XLow? || loc.XHigh? then Exact(bcVal) else Reflect(bcVal)
  }

  /** The y-face Dirichlet rule: the boundary faces on the y sides take `bc_val`; the x sides mirror. */
  function FaceYDirichlet(loc: Location, bcVal: real): Rule {
    if loc.YLow? || loc.YHigh? then Exact(bcVal) else Reflect(bcVal)
  }

  function DirichletRule(kind: Kind, loc: Location, bcVal: real): Rule {
    match kind
    case CellCentered => CellCenteredDirichlet(loc, bcVal)
    case FaceX => FaceXDirichlet(loc, bcVal)
    case FaceY => FaceYDirichlet(loc, bcVal)
  }

  /**
   * Where the boundary lies relative to a guard entry `g0` and its neighbour
   * `g1`: on the guard entry itself for a face grid's own normal sides, half
   * way between the two otherwise.
   */
  function BoundaryValue(kind: Kind, loc: Location, g0: real, g1: real): real {
    if (kind.FaceX? && (loc.XLow? || loc.XHigh?)) || (kind.FaceY? && (loc.YLow? || loc.YHigh?)) then g0 else (g0 + g1) / 2.0
  }

  /** A Dirichlet fill puts the value `bc_val` on the boundary, for every grid kind and side. */
  lemma DirichletSetsBoundary(kind: Kind, loc: Location, bcVal: real, g0: real, g1: real, g2: real)
    ensures Satisfies(DirichletRule(kind, loc, bcVal), g0, g1, g2) <==> BoundaryValue(kind, loc, g0, g1) == bcVal
  {
  }

  /** The `fill_guard_cells_dirichlet` of each grid kind. */
  function DirichletFill(kind: Kind, f: Field, n: nat, m: nat, loc: string, bcVal: real, transposed: bool): Filled
    requires IsShape(f, n, m)
  {
    match ParseLocation(loc)
    case None => Filled(f, ValueError)
    case Some(l) => LocationFill(f, n, m, SideOf(l, transposed), DirichletRule(kind, l, bcVal))
  }

  method LocationFillInPlace(a: array2<real>, side: Side, rule: Rule) returns (out: Outcome)
    modifies a
    ensures Filled(Snapshot(a), out) == LocationFill(old(Snapshot(a)), a.Length0, a.Length1, side, rule)
  {
    if Fits(side, rule, a.Length0, a.Length1) {
      FillSideInPlace(a, side, rule);
      out := Done;
    } else {
      out := IndexError;
    }
  }

  method NeumannFillInPlace(a: array2<real>, loc: string, bcVal: real, delta: real, transposed: bool) returns (out: Outcome)
    modifies a
    ensures Filled(Snapshot(a), out) == NeumannFill(old(Snapshot(a)), a.Length0, a.Length1, loc, bcVal, delta, transposed)
  {
    match ParseLocation(loc)
    case None => out := ValueError;
    case Some(l) => out := LocationFillInPlace(a, SideOf(l, transposed), Offset(bcVal * delta));
  }

  method ProjectionFillInPlace(a: array2<real>, loc: string, transposed: bool) returns (out: Outcome)
    modifies a
    ensures Filled(Snapshot(a), out) == ProjectionFill(old(Snapshot(a)), a.Length0, a.Length1, loc, transposed)
  {
    match ParseLocation(loc)
    case None => out := ValueError;
    case Some(l) => out := LocationFillInPlace(a, SideOf(l, transposed), Extrapolate);
  }

  method DirichletFillInPlace(kind: Kind, a: array2<real>, loc: string, bcVal: real, transposed: bool) returns (out: Outcome)
    modifies a
    ensures Filled(Snapshot(a), out) == DirichletFill(kind, old(Snapshot(a)), a.Length0, a.Length1, loc, bcVal, transposed)
  {
    match ParseLocation(loc)
    case None => out := ValueError;
    case Some(l) => out := LocationFillInPlace(a, SideOf(l, transposed), DirichletRule(kind, l, bcVal));
  }

  // ---------------------------------------------------------------------------
  // All four sides

  /** The sides in the order `fill_guard_cells` visits them. */
  const Locations: seq<string> := ["xlow", "xhigh", "ylow", "yhigh"]

  /** The neighbour flags of block 0 of a single-block grid: no side has a neighbouring block. */
  const Alone: seq<bool> := [false, false, false, false]

  function LocationAt(k: nat): Location
    requires k < 4
  {
    [XLow, XHigh, YLow, YHigh][k]
  }

  /** The spacing each side's Neumann value is multiplied by. */
  function Deltas(dx: real, dy: real): seq<real> {
    [dx, dx, dy, dy]
  }

  /** `zip(locations, neighbors, deltas, bc_type_var, bc_val_var)` stops at the shortest list. */
  function SideCount(types: seq<Option<string>>, vals: seq<real>): (r: nat)
    ensures r <= 4 && r <= |types| && r <= |vals|
    ensures r == 4 || r == |types| || r == |vals|
  {
    if |types| <= |vals| && |types| <= 4 then |types| else if |vals| <= 4 then |vals| else 4
  }

  /** The branch on the boundary type of one side: None does nothing, an unknown name raises ValueError. */
  function Dispatch(kind: Kind, f: Field, n: nat, m: nat, loc: string, bcType: Option<string>, bcVal: real, delta: real,
                    transposed: bool): Filled
    requires IsShape(f, n, m)
  {
    match bcType
    case None => Filled(f, Done)
    case Some(t) =>
      if t == "neumann" then NeumannFill(f, n, m, loc, bcVal, delta, transposed)
      else if t == "dirichlet" then DirichletFill(kind, f, n, m, loc, bcVal, transposed)
      else if t == "outflow" then DirichletFill(kind, f, n, m, loc, bcVal, transposed)
      else if t == "projection" then ProjectionFill(f, n, m, loc, transposed)
      else Filled(f, ValueError)
  }

  /** The rule a boundary type name stands for at a location, if it names one. */
  function RuleOf(kind: Kind, loc: Location, t: string, bcVal: real, delta: real): Option<Rule> {
    if t == "neumann" then Some(Offset(bcVal * delta))
    else if t == "dirichlet" || t == "outflow" then Some(DirichletRule(kind, loc, bcVal))
    else if t == "projection" then Some(Extrapolate)
    else None
  }

  /** The dispatch as a table: a known type fills its side with its rule, an unknown one raises ValueError and writes nothing. */
  lemma DispatchTable(kind: Kind, f: Field, n: nat, m: nat, loc: Location, bcType: Option<string>, bcVal: real, delta: real,
                      transposed: bool)
    requires IsShape(f, n, m)
    ensures bcType.None? ==> Dispatch(kind, f, n, m, LocationName(loc), bcType, bcVal, delta, transposed) == Filled(f, Done)
    ensures bcType.Some? && RuleOf(kind, loc, bcType.value, bcVal, delta).None? ==>
      Dispatch(kind, f, n, m, LocationName(loc), bcType, bcVal, delta, transposed) == Filled(f, ValueError)
    ensures bcType.Some? && RuleOf(kind, loc, bcType.value, bcVal, delta).Some? ==>
      Dispatch(kind, f, n, m, LocationName(loc), bcType, bcVal, delta, transposed)
        == LocationFill(f, n, m, SideOf(loc, transposed), RuleOf(kind, loc, bcType.value, bcVal, delta).value)
  {
    ParseLocationName(loc);
  }

  /** Side `k`: skipped when a neighbouring block lies there, dispatched on its boundary type otherwise. */
  function SideStep(kind: Kind, f: Field, n: nat, m: nat, types: seq<Option<string>>, vals: seq<real>, hasNeighbor: seq<bool>,
                    dx: real, dy: real, transposed: bool, k: nat): Filled
    requires IsShape(f, n, m) && |hasNeighbor| == 4 && k < SideCount(types, vals)
  {
    if hasNeighbor[k] then Filled(f, Done)
    else Dispatch(kind, f, n, m, Locations[k], types[k], vals[k], Deltas(dx, dy)[k], transposed)
  }

  /** The first `k` sides processed in order; the first exception ends the fill with what was written so far. */
  function FillTo(kind: Kind, f: Field, n: nat, m: nat, types: seq<Option<string>>, vals: seq<real>, hasNeighbor: seq<bool>,
                  dx: real, dy: real, transposed: bool, k: nat): (r: Filled)
    requires IsShape(f, n, m) && |hasNeighbor| == 4 && k <= SideCount(types, vals)
    ensures IsShape(r.f, n, m)
    decreases k, 0
  {
    if k == 0 then Filled(f, Done) else SideAfter(kind, f, n, m, types, vals, hasNeighbor, dx, dy, transposed, k - 1)
  }

  /** Side `k` after the sides before it, unless one of those raised. */
  function SideAfter(kind: Kind, f: Field, n: nat, m: nat, types: seq<Option<string>>, vals: seq<real>, hasNeighbor: seq<bool>,
                     dx: real, dy: real, transposed: bool, k: nat): (r: Filled)
    requires IsShape(f, n, m) && |hasNeighbor| == 4 && k < SideCount(types, vals)
    ensures IsShape(r.f, n, m)
    decreases k, 1
  {
    var r := FillTo(kind, f, n, m, types, vals, hasNeighbor, dx, dy, transposed, k);
    if r.out != Done then r
    else
      var s := SideStep(kind, r.f, n, m, types, vals, hasNeighbor, dx, dy, transposed, k);
      assert IsShape(s.f, n, m) by { SideStepShape(kind, r.f, n, m, types, vals, hasNeighbor, dx, dy, transposed, k); }
      s
  }

  lemma SideStepShape(kind: Kind, f: Field, n: nat, m: nat, types: seq<Option<string>>, vals: seq<real>, hasNeighbor: seq<bool>,
                      dx: real, dy: real, transposed: bool, k: nat)
    requires IsShape(f, n, m) && |hasNeighbor| == 4 && k < SideCount(types, vals)
    ensures IsShape(SideStep(kind, f, n, m, types, vals, hasNeighbor, dx, dy, transposed, k).f, n, m)
  {
  }

  /** `fill_guard_cells` for one variable on one block. */
  function GuardFill(kind: Kind, f: Field, n: nat, m: nat, types: seq<Option<string>>, vals: seq<real>, hasNeighbor: seq<bool>,
                     dx: real, dy: real, transposed: bool): Filled
    requires IsShape(f, n, m) && |hasNeighbor| == 4
  {
    FillTo(kind, f, n, m, types, vals, hasNeighbor, dx, dy, transposed, SideCount(types, vals))
  }

  /** `fill_guard_cells` of one variable from the record: `KeyError` when the variable has no entry, the side loop otherwise. */
  function VarFill(kind: Kind, bcType: map<string, seq<Option<string>>>, bcVal: map<string, seq<real>>, varkey: string,
                   f: Field, n: nat, m: nat, hasNeighbor: seq<bool>, dx: real, dy: real, transposed: bool): (r: Filled)
    requires IsShape(f, n, m) && |hasNeighbor| == 4
    ensures IsShape(r.f, n, m)
    ensures varkey !in bcType || varkey !in bcVal ==> r == Filled(f, KeyError)
  {
    if varkey !in bcType || varkey !in bcVal then Filled(f, KeyError)
    else GuardFill(kind, f, n, m, bcType[varkey], bcVal[varkey], hasNeighbor, dx, dy, transposed)
  }

  /** Only guard lines are written: a cell off the outer ring keeps its value, whatever the record and the outcome. */
  lemma VarFillKeepsInterior(kind: Kind, bcType: map<string, seq<Option<string>>>, bcVal: map<string, seq<real>>, varkey: string,
                             f: Field, n: nat, m: nat, hasNeighbor: seq<bool>, dx: real, dy: real, transposed: bool, i: int, j: int)
    requires IsShape(f, n, m) && |hasNeighbor| == 4 && Interior(i, j, n, m)
    ensures VarFill(kind, bcType, bcVal, varkey, f, n, m, hasNeighbor, dx, dy, transposed).f[i][j] == f[i][j]
  {
    if varkey in bcType && varkey in bcVal {
      var types, vals := bcType[varkey], bcVal[varkey];
      FillToFrame(kind, f, n, m, types, vals, hasNeighbor, dx, dy, transposed, SideCount(types, vals), i, j);
    }
  }

  /** Once a side has raised, the later sides are not visited. */
  lemma {:induction false} FillToStops(kind: Kind, f: Field, n: nat, m: nat, types: seq<Option<string>>, vals: seq<real>,
                                       hasNeighbor: seq<bool>, dx: real, dy: real, transposed: bool, k: nat, k2: nat)
    requires IsShape(f, n, m) && |hasNeighbor| == 4 && k <= k2 <= SideCount(types, vals)
    requires FillTo(kind, f, n, m, types, vals, hasNeighbor, dx, dy, transposed, k).out != Done
    ensures FillTo(kind, f, n, m, types, vals, hasNeighbor, dx, dy, transposed, k2)
         == FillTo(kind, f, n, m, types, vals, hasNeighbor, dx, dy, transposed, k)
    decreases k2 - k
  {
    if k < k2 {
      FillToStops(kind, f, n, m, types, vals, hasNeighbor, dx, dy, transposed, k, k2 - 1);
    }
  }

  /** A side's step writes at most that side's guard line, and nothing when the side has no type. */
  lemma SideStepFrame(kind: Kind, f: Field, n: nat, m: nat, types: seq<Option<string>>, vals: seq<real>, hasNeighbor: seq<bool>,
                      dx: real, dy: real, transposed: bool, k: nat, i: int, j: int)
    requires IsShape(f, n, m) && |hasNeighbor| == 4 && k < SideCount(types, vals) && 0 <= i < n && 0 <= j < m
    requires hasNeighbor[k] || types[k].None? || !OnGuard(SideOf(LocationAt(k), transposed), n, m, i, j)
    ensures IsShape(SideStep(kind, f, n, m, types, vals, hasNeighbor, dx, dy, transposed, k).f, n, m)
    ensures SideStep(kind, f, n, m, types, vals, hasNeighbor, dx, dy, transposed, k).f[i][j] == f[i][j]
  {
    SideStepShape(kind, f, n, m, types, vals, hasNeighbor, dx, dy, transposed, k);
    if !hasNeighbor[k] {
      assert Locations[k] == LocationName(LocationAt(k));
      DispatchTable(kind, f, n, m, LocationAt(k), types[k], vals[k], Deltas(dx, dy)[k], transposed);
      var side := SideOf(LocationAt(k), transposed);
      if types[k].Some? && RuleOf(kind, LocationAt(k), types[k].value, vals[k], Deltas(dx, dy)[k]).Some? {
        var rule := RuleOf(kind, LocationAt(k), types[k].value, vals[k], Deltas(dx, dy)[k]).value;
        if Fits(side, rule, n, m) {
          FillSideSatisfies(f, n, m, side, rule);
        }
      }
    }
  }

  /**
   * Only guard lines of sides without a neighbouring block and with a
   * boundary type are written: an entry off all of them keeps its value,
   * whether or not the fill raises.
   */
  lemma {:induction false} FillToFrame(kind: Kind, f: Field, n: nat, m: nat, types: seq<Option<string>>, vals: seq<real>,
                                       hasNeighbor: seq<bool>, dx: real, dy: real, transposed: bool, k: nat, i: int, j: int)
    requires IsShape(f, n, m) && |hasNeighbor| == 4 && k <= SideCount(types, vals) && 0 <= i < n && 0 <= j < m
    requires forall p :: 0 <= p < k && !hasNeighbor[p] && types[p].Some? ==> !OnGuard(SideOf(LocationAt(p), transposed), n, m, i, j)
    ensures FillTo(kind, f, n, m, types, vals, hasNeighbor, dx, dy, transposed, k).f[i][j] == f[i][j]
  {
    if k > 0 {
      FillToFrame(kind, f, n, m, types, vals, hasNeighbor, dx, dy, transposed, k - 1, i, j);
      var r := FillTo(kind, f, n, m, types, vals, hasNeighbor, dx, dy, transposed, k - 1);
      if r.out == Done {
        SideStepFrame(kind, r.f, n, m, types, vals, hasNeighbor, dx, dy, transposed, k - 1, i, j);
      }
    }
  }

  /** A block with neighbours on all four sides is not touched. */
  lemma InteriorBlockUntouched(kind: Kind, f: Field, n: nat, m: nat, types: seq<Option<string>>, vals: seq<real>,
                               hasNeighbor: seq<bool>, dx: real, dy: real, transposed: bool)
    requires IsShape(f, n, m) && |hasNeighbor| == 4
    requires forall p :: 0 <= p < 4 ==> hasNeighbor[p]
    ensures GuardFill(kind, f, n, m, types, vals, hasNeighbor, dx, dy, transposed).f == f
  {
    var r := GuardFill(kind, f, n, m, types, vals, hasNeighbor, dx, dy, transposed);
    forall i, j | 0 <= i < n && 0 <= j < m ensures r.f[i][j] == f[i][j] {
      FillToFrame(kind, f, n, m, types, vals, hasNeighbor, dx, dy, transposed, SideCount(types, vals), i, j);
    }
    FieldExt(r.f, f, n, m);
  }

  /**
   * The yhigh side is written last, so when the whole fill succeeds its
   * condition holds along its entire guard line, the two corners included.
   */
  lemma LastSideHolds(kind: Kind, f: Field, n: nat, m: nat, types: seq<Option<string>>, vals: seq<real>,
                      hasNeighbor: seq<bool>, dx: real, dy: real, transposed: bool, rule: Rule)
    requires IsShape(f, n, m) && |hasNeighbor| == 4 && SideCount(types, vals) == 4
    requires !hasNeighbor[3] && types[3].Some? && RuleOf(kind, YHigh, types[3].value, vals[3], dy) == Some(rule)
    requires GuardFill(kind, f, n, m, types, vals, hasNeighbor, dx, dy, transposed).out == Done
    ensures Fits(SideOf(YHigh, transposed), rule, n, m)
    ensures forall i, j :: 0 <= i < n && 0 <= j < m && OnGuard(SideOf(YHigh, transposed), n, m, i, j) ==>
      Satisfies(rule, GuardFill(kind, f, n, m, types, vals, hasNeighbor, dx, dy, transposed).f[i][j],
                Across(GuardFill(kind, f, n, m, types, vals, hasNeighbor, dx, dy, transposed).f, n, m, SideOf(YHigh, transposed), rule, 1, i, j),
                Across(GuardFill(kind, f, n, m, types, vals, hasNeighbor, dx, dy, transposed).f, n, m, SideOf(YHigh, transposed), rule, 2, i, j))
  {
    var r := FillTo(kind, f, n, m, types, vals, hasNeighbor, dx, dy, transposed, 3);
    assert Locations[3] == LocationName(YHigh);
    assert Deltas(dx, dy)[3] == dy;
    DispatchTable(kind, r.f, n, m, YHigh, types[3], vals[3], dy, transposed);
    var side := SideOf(YHigh, transposed);
    if !Fits(side, rule, n, m) {
      assert false;
    }
    FillSideSatisfies(r.f, n, m, side, rule);
  }

  /** Side `k` on an array. */
  method SideStepInPlace(kind: Kind, a: array2<real>, loc: string, bcType: Option<string>, bcVal: real, delta: real,
                         transposed: bool) returns (out: Outcome)
    modifies a
    ensures Filled(Snapshot(a), out) == Dispatch(kind, old(Snapshot(a)), a.Length0, a.Length1, loc, bcType, bcVal, delta, transposed)
  {
    match bcType
    case None => out := Done;
    case Some(t) =>
      if t == "neumann" {
        out := NeumannFillInPlace(a, loc, bcVal, delta, transposed);
      } else if t == "dirichlet" {
        out := DirichletFillInPlace(kind, a, loc, bcVal, transposed);
      } else if t == "outflow" {
        out := DirichletFillInPlace(kind, a, loc, bcVal, transposed);
      } else if t == "projection" {
        out := ProjectionFillInPlace(a, loc, transposed);
      } else {
        out := ValueError;
      }
  }

  /** The side loop of `fill_guard_cells` for one variable's block array. */
  method GuardFillInPlace(kind: Kind, a: array2<real>, types: seq<Option<string>>, vals: seq<real>, hasNeighbor: seq<bool>,
                          dx: real, dy: real, transposed: bool) returns (out: Outcome)
    requires |hasNeighbor| == 4
    modifies a
    ensures Filled(Snapshot(a), out) == GuardFill(kind, old(Snapshot(a)), a.Length0, a.Length1, types, vals, hasNeighbor, dx, dy, transposed)
  {
    var n, m := a.Length0, a.Length1;
    ghost var f0 := Snapshot(a);
    var count := SideCount(types, vals);
    out := Done;
    var k := 0;
    while k < count
      invariant 0 <= k <= count && out == Done
      invariant FillTo(kind, f0, n, m, types, vals, hasNeighbor, dx, dy, transposed, k) == Filled(Snapshot(a), Done)
    {
      if !hasNeighbor[k] {
        out := SideStepInPlace(kind, a, Locations[k], types[k], vals[k], Deltas(dx, dy)[k], transposed);
        if out != Done {
          assert FillTo(kind, f0, n, m, types, vals, hasNeighbor, dx, dy, transposed, k + 1) == Filled(Snapshot(a), out);
          FillToStops(kind, f0, n, m, types, vals, hasNeighbor, dx, dy, transposed, k + 1, count);
          return;
        }
      }
      k := k + 1;
    }
  }

  // ---------------------------------------------------------------------------
  // Construction: checks, spacing, storage and coordinates

  datatype GridError = NotDivisible | OddBlocks | DivisionByZero

  /** The spacing and block size at the coarsest level. */
  datatype Geometry = Geometry(dx: real, dy: real, nxb: nat, nyb: nat)

  datatype Checked = Accepted(geometry: Geometry) | Rejected(error: GridError)

  /**
   * The constructor's checks in order, then `dx = |xmax - xmin| / nx` and
   * `nxb = nx / xblocks` (and likewise in y).  Python's `%` and `/` raise
   * ZeroDivisionError on a zero divisor.
   */
  function CheckGeometry(nx: nat, ny: nat, xmin: real, xmax: real, ymin: real, ymax: real, xblocks: nat, yblocks: nat): Checked {
    if xblocks == 0 then Rejected(DivisionByZero)
    else if nx % xblocks != 0 then Rejected(NotDivisible)
    else if yblocks == 0 then Rejected(DivisionByZero)
    else if ny % yblocks != 0 then Rejected(NotDivisible)
    else if (xblocks % 2 != 0 || yblocks % 2 != 0) && xblocks != 1 && yblocks != 1 then Rejected(OddBlocks)
    else if nx == 0 || ny == 0 then Rejected(DivisionByZero)
    else Accepted(Geometry(Abs(xmax - xmin) / nx as real, Abs(ymax - ymin) / ny as real, nx / xblocks, ny / yblocks))
  }

  /**
   * The accepted inputs are exactly those with both counts divisible by the
   * block counts, no odd block count unless one of them is 1, and non-empty
   * counts; on them the cells tile the domain and the blocks tile the cells.
   */
  lemma CheckGeometryAccepts(nx: nat, ny: nat, xmin: real, xmax: real, ymin: real, ymax: real, xblocks: nat, yblocks: nat)
    ensures CheckGeometry(nx, ny, xmin, xmax, ymin, ymax, xblocks, yblocks).Accepted? <==>
      xblocks > 0 && yblocks > 0 && nx % xblocks == 0 && ny % yblocks == 0 &&
      !((xblocks % 2 != 0 || yblocks % 2 != 0) && xblocks != 1 && yblocks != 1) && nx > 0 && ny > 0
    ensures CheckGeometry(nx, ny, xmin, xmax, ymin, ymax, xblocks, yblocks).Accepted? ==>
      var g := CheckGeometry(nx, ny, xmin, xmax, ymin, ymax, xblocks, yblocks).geometry;
      g.dx * nx as real == Abs(xmax - xmin) && g.dy * ny as real == Abs(ymax - ymin) &&
      g.dx >= 0.0 && g.dy >= 0.0 &&
      g.nxb * xblocks == nx && g.nyb * yblocks == ny
  {
    var c := CheckGeometry(nx, ny, xmin, xmax, ymin, ymax, xblocks, yblocks);
    if c.Accepted? {
      var g := c.geometry;
      assert g.nxb * xblocks == nx by { assert nx == (nx / xblocks) * xblocks + nx % xblocks; }
      assert g.nyb * yblocks == ny by { assert ny == (ny / yblocks) * yblocks + ny % yblocks; }
    }
  }

  /** `numpy.linspace(a, b, num)`: `num` points from `a` with step `(b - a) / (num - 1)`. */
  function Linspace(a: real, b: real, num: nat): (r: seq<real>)
    ensures |r| == num
  {
    if num == 1 then [a]
    else seq(num, k requires 0 <= k < num => a + k as real * ((b - a) / (num - 1) as real))
  }

  /** The points start at `a`, end at `b` and are evenly spaced. */
  lemma LinspaceSpacing(a: real, b: real, num: nat)
    requires num >= 2
    ensures Linspace(a, b, num)[0] == a && Linspace(a, b, num)[num - 1] == b
    ensures forall k :: 0 <= k < num - 1 ==> Linspace(a, b, num)[k + 1] - Linspace(a, b, num)[k] == (b - a) / (num - 1) as real
  {
    var r := Linspace(a, b, num);
    var s := (b - a) / (num - 1) as real;
    assert r[num - 1] == a + (num - 1) as real * s;
    assert (num - 1) as real * s == b - a;
    forall k | 0 <= k < num - 1 ensures r[k + 1] - r[k] == s {
      assert r[k + 1] == a + (k + 1) as real * s;
      assert (k + 1) as real * s == k as real * s + s;
    }
  }

  /** Cell-centred gridlines: `n + 2` points from `lo - d/2` to `hi + d/2`. */
  function CellLine(lo: real, hi: real, d: real, n: nat): seq<real> {
    Linspace(lo - d / 2.0, hi + d / 2.0, n + 2)
  }

  /** Face gridlines: `n + 1` points from `lo` to `hi`. */
  function FaceLine(lo: real, hi: real, n: nat): seq<real> {
    Linspace(lo, hi, n + 1)
  }

  /** The x and y gridlines of a grid of `nx` by `ny` cells (`set_gridline_coordinates`). */
  function Gridlines(kind: Kind, nx: nat, ny: nat, xmin: real, xmax: real, ymin: real, ymax: real, dx: real, dy: real)
    : (seq<real>, seq<real>)
  {
    match kind
    case CellCentered => (CellLine(xmin, xmax, dx, nx), CellLine(ymin, ymax, dy, ny))
    case FaceX => (FaceLine(xmin, xmax, nx), CellLine(ymin, ymax, dy, ny))
    case FaceY => (CellLine(xmin, xmax, dx, nx), FaceLine(ymin, ymax, ny))
  }

  /** On an increasing axis the face lines step by the cell width. */
  lemma FaceLineSpacing(lo: real, hi: real, d: real, n: nat)
    requires n > 0 && lo <= hi && d == Abs(hi - lo) / n as real
    ensures forall k :: 0 <= k <= n ==> FaceLine(lo, hi, n)[k] == lo + k as real * d
  {
    var r := FaceLine(lo, hi, n);
    assert (hi - lo) / n as real == d;
  }

  /**
   * On an increasing axis the cell lines step by the cell width: the first
   * and last are guard points half a cell outside the domain, and point `k`
   * (1 <= k <= n) is the midpoint of faces `k - 1` and `k`.
   */
  lemma CellLineSpacing(lo: real, hi: real, d: real, n: nat)
    requires n > 0 && lo <= hi && d == Abs(hi - lo) / n as real
    ensures CellLine(lo, hi, d, n)[0] == lo - d / 2.0 && CellLine(lo, hi, d, n)[n + 1] == hi + d / 2.0
    ensures forall k :: 0 <= k <= n ==> CellLine(lo, hi, d, n)[k + 1] - CellLine(lo, hi, d, n)[k] == d
    ensures forall k :: 1 <= k <= n ==> CellLine(lo, hi, d, n)[k] == (FaceLine(lo, hi, n)[k - 1] + FaceLine(lo, hi, n)[k]) / 2.0
  {
    var a, b := lo - d / 2.0, hi + d / 2.0;
    assert d * n as real == hi - lo;
    assert (b - a) == d * (n + 1) as real;
    assert (b - a) / (n + 1) as real == d;
    LinspaceSpacing(a, b, n + 2);
    var r := CellLine(lo, hi, d, n);
    FaceLineSpacing(lo, hi, d, n);
    forall k | 0 <= k <= n + 1 ensures r[k] == lo - d / 2.0 + k as real * d {
      assert r[k] == a + k as real * ((b - a) / (n + 1) as real);
    }
    forall k | 1 <= k <= n ensures r[k] == (FaceLine(lo, hi, n)[k - 1] + FaceLine(lo, hi, n)[k]) / 2.0 {
      assert r[k] == lo - d / 2.0 + k as real * d;
      assert FaceLine(lo, hi, n)[k - 1] == lo + (k - 1) as real * d;
      assert (k - 1) as real * d == k as real * d - d;
    }
  }

  /** The block storage a grid kind declares: entry counts along x and y, and guard-layer counts (0 where none is given). */
  datatype Storage = Storage(nblocks: nat, nxb: nat, nyb: nat, xguard: nat, yguard: nat)

  /** `initialize_data_attributes` of each grid kind. */
  function DataAttributes(kind: Kind, nblocks: nat, nxb: nat, nyb: nat): Storage {
    match kind
    case CellCentered => Storage(nblocks, nxb + 2, nyb + 2, 0, 0)
    case FaceX => Storage(nblocks, nxb + 1, nyb, 0, 1)
    case FaceY => Storage(nblocks, nxb + 2, nyb + 1, 0, 0)
  }

  /**
   * A block's gridlines (the same formulas with the block's bounds and the
   * block counts) have one point per stored entry, guard layers included.
   */
  lemma StorageMatchesGridlines(kind: Kind, nblocks: nat, nxb: nat, nyb: nat, xmin: real, xmax: real, ymin: real, ymax: real,
                                dx: real, dy: real)
    ensures |Gridlines(kind, nxb, nyb, xmin, xmax, ymin, ymax, dx, dy).0|
         == DataAttributes(kind, nblocks, nxb, nyb).nxb + 2 * DataAttributes(kind, nblocks, nxb, nyb).xguard
    ensures |Gridlines(kind, nxb, nyb, xmin, xmax, ymin, ymax, dx, dy).1|
         == DataAttributes(kind, nblocks, nxb, nyb).nyb + 2 * DataAttributes(kind, nblocks, nxb, nyb).yguard
  {
  }

  // ---------------------------------------------------------------------------
  // The boundary-condition record

  /** `4 * ['neumann']` and `4 * [0.0]`. */
  const DefaultTypes: seq<Option<string>> := [Some("neumann"), Some("neumann"), Some("neumann"), Some("neumann")]
  const DefaultVals: seq<real> := [0.0, 0.0, 0.0, 0.0]

  /** `{**bc, **user}`: the user's entries replace whole entries; other keys are kept. */
  function Merged<V>(bc: map<string, V>, user: map<string, V>): (r: map<string, V>)
    ensures r.Keys == bc.Keys + user.Keys
    ensures forall v :: v in user ==> r[v] == user[v]
    ensures forall v :: v in bc && v !in user ==> r[v] == bc[v]
  {
    bc + user
  }

  /** The default entry for each listed variable, merged over the record. */
  function WithDefaults<V>(bc: map<string, V>, varlist: seq<string>, d: V): (r: map<string, V>)
    ensures r.Keys == bc.Keys + (set v | v in varlist)
    ensures forall v :: v in varlist ==> r[v] == d
    ensures forall v :: v in bc && v !in varlist ==> r[v] == bc[v]
  {
    Merged(bc, map v | v in varlist :: d)
  }

  /** Merging the same entries twice is merging them once. */
  lemma MergedIdempotent<V>(bc: map<string, V>, user: map<string, V>)
    ensures Merged(Merged(bc, user), user) == Merged(bc, user)
  {
  }

  /** The record a new grid starts with: defaults, then the user's entries when both user maps are given. */
  function InitialBc<V>(varlist: seq<string>, d: V, user: Option<map<string, V>>, both: bool): map<string, V> {
    var r := WithDefaults(map[], varlist, d);
    if both && user.Some? then Merged(r, user.value) else r
  }

  /** Under the default record every side is a Neumann side with zero gradient: its guard copies its neighbour. */
  lemma DefaultIsZeroGradient(kind: Kind, k: nat, delta: real, g0: real, g1: real, g2: real)
    requires k < 4
    ensures DefaultTypes[k].Some?
    ensures RuleOf(kind, LocationAt(k), DefaultTypes[k].value, DefaultVals[k], delta) == Some(Offset(0.0))
    ensures Satisfies(Offset(0.0), g0, g1, g2) <==> g0 == g1
  {
  }

  datatype Construction = Built(grid: Grid) | Refused(error: GridError)

  /**
   * A grid of one kind: its spacing and gridlines, and the boundary-condition
   * record `bc_type` / `bc_val` of its variables.
   */
  class Grid {
    const kind: Kind
    const nx: nat
    const ny: nat
    const dx: real
    const dy: real
    const nblocks: nat
    const x: seq<real>
    const y: seq<real>
    var bcType: map<string, seq<Option<string>>>
    var bcVal: map<string, seq<real>>

    /** The construction that follows accepted checks. */
    constructor (kind: Kind, varlist: seq<string>, nx: nat, ny: nat, xmin: real, xmax: real, ymin: real, ymax: real,
                 nblocks: nat, geometry: Geometry, userType: Option<map<string, seq<Option<string>>>>,
                 userVal: Option<map<string, seq<real>>>)
      ensures this.kind == kind && this.nx == nx && this.ny == ny && dx == geometry.dx && dy == geometry.dy
      ensures this.nblocks == nblocks
      ensures (x, y) == Gridlines(kind, nx, ny, xmin, xmax, ymin, ymax, geometry.dx, geometry.dy)
      ensures bcType == InitialBc(varlist, DefaultTypes, userType, userType.Some? && userVal.Some?)
      ensures bcVal == InitialBc(varlist, DefaultVals, userVal, userType.Some? && userVal.Some?)
    {
      this.kind := kind;
      this.nx := nx;
      this.ny := ny;
      dx := geometry.dx;
      dy := geometry.dy;
      this.nblocks := nblocks;
      var lines := Gridlines(kind, nx, ny, xmin, xmax, ymin, ymax, geometry.dx, geometry.dy);
      x := lines.0;
      y := lines.1;
      var both := userType.Some? && userVal.Some?;
      bcType := InitialBc(varlist, DefaultTypes, userType, both);
      bcVal := InitialBc(varlist, DefaultVals, userVal, both);
    }

    /** `GridBase.__init__`: the checks first, then the grid. */
    static method Create(kind: Kind, varlist: seq<string>, nx: nat, ny: nat, xmin: real, xmax: real, ymin: real, ymax: real,
                         xblocks: nat, yblocks: nat, userType: Option<map<string, seq<Option<string>>>>,
                         userVal: Option<map<string, seq<real>>>) returns (r: Construction)
      ensures r.Refused? <==> CheckGeometry(nx, ny, xmin, xmax, ymin, ymax, xblocks, yblocks).Rejected?
      ensures r.Refused? ==> r.error == CheckGeometry(nx, ny, xmin, xmax, ymin, ymax, xblocks, yblocks).error
      ensures r.Built? ==> fresh(r.grid) && r.grid.kind == kind && r.grid.nx == nx && r.grid.ny == ny
      ensures r.Built? ==> r.grid.nblocks == xblocks * yblocks
      ensures r.Built? ==> r.grid.dx == CheckGeometry(nx, ny, xmin, xmax, ymin, ymax, xblocks, yblocks).geometry.dx
      ensures r.Built? ==> r.grid.dy == CheckGeometry(nx, ny, xmin, xmax, ymin, ymax, xblocks, yblocks).geometry.dy
      ensures r.Built? ==> (r.grid.x, r.grid.y) == Gridlines(kind, nx, ny, xmin, xmax, ymin, ymax, r.grid.dx, r.grid.dy)
      ensures r.Built? ==> r.grid.bcType == InitialBc(varlist, DefaultTypes, userType, userType.Some? && userVal.Some?)
      ensures r.Built? ==> r.grid.bcVal == InitialBc(varlist, DefaultVals, userVal, userType.Some? && userVal.Some?)
    {
      var c := CheckGeometry(nx, ny, xmin, xmax, ymin, ymax, xblocks, yblocks);
      if c.Rejected? {
        return Refused(c.error);
      }
      var g := new Grid(kind, varlist, nx, ny, xmin, xmax, ymin, ymax, xblocks * yblocks, c.geometry, userType, userVal);
      r := Built(g);
    }

    /** `set_default_bc`: four Neumann sides of value 0.0 for each listed variable. */
    method SetDefaultBc(varlist: seq<string>)
      modifies this
      ensures bcType == WithDefaults(old(bcType), varlist, DefaultTypes)
      ensures bcVal == WithDefaults(old(bcVal), varlist, DefaultVals)
    {
      bcType := WithDefaults(bcType, varlist, DefaultTypes);
      bcVal := WithDefaults(bcVal, varlist, DefaultVals);
    }

    /** `set_user_bc`. */
    method SetUserBc(userType: map<string, seq<Option<string>>>, userVal: map<string, seq<real>>)
      modifies this
      ensures bcType == Merged(old(bcType), userType) && bcVal == Merged(old(bcVal), userVal)
    {
      bcType := Merged(bcType, userType);
      bcVal := Merged(bcVal, userVal);
    }

    /** `update_bc_val`: the types are kept. */
    method UpdateBcVal(userVal: map<string, seq<real>>)
      modifies this
      ensures bcVal == Merged(old(bcVal), userVal) && bcType == old(bcType)
    {
      bcVal := Merged(bcVal, userVal);
    }

    /** `update_bc_type`: the values are kept. */
    method UpdateBcType(userType: map<string, seq<Option<string>>>)
      modifies this
      ensures bcType == Merged(old(bcType), userType) && bcVal == old(bcVal)
    {
      bcType := Merged(bcType, userType);
    }

    /** `fill_guard_cells` for one variable: its record entries (KeyError when missing), then the side loop. */
    method FillGuardCells(varkey: string, a: array2<real>, hasNeighbor: seq<bool>, transposed: bool) returns (out: Outcome)
      requires |hasNeighbor| == 4
      modifies a
      ensures varkey !in bcType || varkey !in bcVal ==> out == KeyError && Snapshot(a) == old(Snapshot(a))
      ensures varkey in bcType && varkey in bcVal ==>
        Filled(Snapshot(a), out) == GuardFill(kind, old(Snapshot(a)), a.Length0, a.Length1, bcType[varkey], bcVal[varkey],
                                              hasNeighbor, dx, dy, transposed)
      ensures Filled(Snapshot(a), out) == VarFill(kind, bcType, bcVal, varkey, old(Snapshot(a)), a.Length0, a.Length1,
                                                  hasNeighbor, dx, dy, transposed)
    {
      if varkey !in bcType || varkey !in bcVal {
        return KeyError;
      }
      out := GuardFillInPlace(kind, a, bcType[varkey], bcVal[varkey], hasNeighbor, dx, dy, transposed);
    }
  }
}
