/**
 * Mass-flux bookkeeping on the boundary of a face grid: the mass getting in
 * (`get_qin`) and out (`get_qout`), the rescaling of the outlet faces that
 * makes the two agree (`rescale_velocity`), the mean outlet velocity
 * (`get_convvel`) and the convective outflow boundary values
 * (`update_outflow_bc`).
 *
 * A velocity array of `n` rows and `m` columns is indexed as the routines
 * index it: side 0 (`xlow`) is the column `vel[:, 0]`, side 1 (`xhigh`) the
 * column `vel[:, -1]`, side 2 (`ylow`) the row `vel[0, :]` and side 3
 * (`yhigh`) the row `vel[-1, :]`. Grid arrays hold at least one cell and its
 * guard layer in each direction, so `n >= 2` and `m >= 2`.
 */
module MassBalance {
  import opened Fields
  import opened Grid

  /** The arrays and the `bc_type` list the routines read: its first four entries are the sides. */
  predicate Shaped(vel: Field, types: seq<Option<string>>, n: nat, m: nat) {
    n >= 2 && m >= 2 && IsShape(vel, n, m) && |types| >= 4
  }

  /** An outlet side: its type is `'outflow'` or `'neumann'`. */
  predicate IsOutlet(t: Option<string>) {
    t == Some("outflow") || t == Some("neumann")
  }

  /** The sides a routine looks at: x sides on an x-face grid, y sides on a y-face grid, none otherwise. */
  predicate Applies(kind: Kind, k: nat) {
    (kind == FaceX && k < 2) || (kind == FaceY && 2 <= k < 4)
  }

  // Lines and sums

  /** The full boundary line of side `k`, as the array is sliced there. */
  function BoundaryLine(f: Field, n: nat, m: nat, k: nat): (s: seq<real>)
    requires n >= 1 && m >= 1 && IsShape(f, n, m) && k < 4
    ensures |s| == (if k < 2 then n else m)
    ensures k == 0 ==> forall i :: 0 <= i < n ==> s[i] == f[i][0]
    ensures k == 1 ==> forall i :: 0 <= i < n ==> s[i] == f[i][m - 1]
    ensures k == 2 ==> s == f[0]
    ensures k == 3 ==> s == f[n - 1]
  {
    if k == 0 then seq(n, i requires 0 <= i < n => f[i][0])
    else if k == 1 then seq(n, i requires 0 <= i < n => f[i][m - 1])
    else if k == 2 then f[0]
    else f[n - 1]
  }

  /** `numpy.sum`. */
  function Sum(s: seq<real>): real {
    if |s| == 0 then 0.0 else s[0] + Sum(s[1..])
  }

  /** A line whose entries lie in `[lo, hi]` sums to between `|s| * lo` and `|s| * hi`. */
  lemma {:induction false} SumBounds(s: seq<real>, lo: real, hi: real)
    requires forall i :: 0 <= i < |s| ==> lo <= s[i] <= hi
    ensures (|s| as real) * lo <= Sum(s) <= (|s| as real) * hi
  {
    if s != [] {
      SumBounds(s[1..], lo, hi);
    }
  }

  /** A line of equal entries sums to its length times the entry. */
  lemma SumOfEqual(s: seq<real>, a: real)
    requires forall i :: 0 <= i < |s| ==> s[i] == a
    ensures Sum(s) == (|s| as real) * a
  {
    SumBounds(s, a, a);
  }

  /** `numpy.mean` of a non-empty line. */
  function Mean(s: seq<real>): real
    requires |s| > 0
  {
    Sum(s) / (|s| as real)
  }

  /** A line of equal entries has that entry as its mean. */
  lemma MeanOfEqual(s: seq<real>, a: real)
    requires |s| > 0 && forall i :: 0 <= i < |s| ==> s[i] == a
    ensures Mean(s) == a
  {
    SumOfEqual(s, a);
    DivSelf(|s| as real, a);
  }

  lemma DivSelf(l: real, a: real)
    requires l > 0.0
    ensures l * a / l == a
  {
  }

  /** The mean of a line whose entries lie in `[lo, hi]` lies in `[lo, hi]`. */
  lemma MeanBounds(s: seq<real>, lo: real, hi: real)
    requires |s| > 0
    requires forall i :: 0 <= i < |s| ==> lo <= s[i] <= hi
    ensures lo <= Mean(s) <= hi
  {
    SumBounds(s, lo, hi);
    var len := |s| as real;
    assert len * lo <= Sum(s) <= len * hi;
    assert Sum(s) / len >= lo by { assert (Sum(s) - len * lo) / len >= 0.0; }
    assert Sum(s) / len <= hi by { assert (len * hi - Sum(s)) / len >= 0.0; }
  }

  // Fluxes

  /** The face width of side `k`: `dy` on the x sides, `dx` on the y sides. */
  function Spacing(k: nat, dx: real, dy: real): real {
    if k < 2 then dy else dx
  }

  /** The number of faces along side `k`: the rows of an x side, the columns of a y side. */
  function SideLen(n: nat, m: nat, k: nat): nat {
    if k < 2 then n else m
  }

  /** The row of the `p`-th face along side `k`. */
  function FaceRow(n: nat, k: nat, p: nat): int {
    if k < 2 then p else if k == 2 then 0 else n - 1
  }

  /** The column of the `p`-th face along side `k`. */
  function FaceCol(m: nat, k: nat, p: nat): int {
    if k >= 2 then p else if k == 0 then 0 else m - 1
  }

  /** The faces `p`, `p + 1`, ... of side `k`, up to but not including the last one, summed. */
  function SumFrom(vel: Field, n: nat, m: nat, k: nat, p: nat): real
    requires n >= 1 && m >= 1 && IsShape(vel, n, m) && k < 4
    decreases SideLen(n, m, k) - p
  {
    if p + 1 >= SideLen(n, m, k) then 0.0
    else vel[FaceRow(n, k, p)][FaceCol(m, k, p)] + SumFrom(vel, n, m, k, p + 1)
  }

  /** `numpy.sum(vel[1:-1, 0])` and its siblings: the interior faces of side `k`, summed. */
  function LineSum(vel: Field, n: nat, m: nat, k: nat): real
    requires n >= 1 && m >= 1 && IsShape(vel, n, m) && k < 4
  {
    SumFrom(vel, n, m, k, 1)
  }

  /** `numpy.sum(vel[...]) * width` over the interior faces of side `k`. */
  function Flux(vel: Field, n: nat, m: nat, k: nat, dx: real, dy: real): real
    requires n >= 1 && m >= 1 && IsShape(vel, n, m) && k < 4
  {
    LineSum(vel, n, m, k) * Spacing(k, dx, dy)
  }

  /** `Qin = 0.0`, then `Qin += low` and `Qin -= high` on the sides whose guard holds. */
  function Inlets(bLow: bool, bHigh: bool, low: real, high: real): real {
    var q := if bLow then 0.0 + low else 0.0;
    if bHigh then q - high else q
  }

  /** `Qout = 0.0`, then `Qout -= low` and `Qout += high` on the sides whose guard holds. */
  function Outlets(bLow: bool, bHigh: bool, low: real, high: real): real {
    var q := if bLow then 0.0 - low else 0.0;
    if bHigh then q + high else q
  }

  /** Scaling the guarded sides' fluxes scales the outlet sum. */
  lemma OutletsScale(bLow: bool, bHigh: bool, low: real, high: real, low2: real, high2: real, c: real, q: real, q2: real)
    requires bLow ==> low2 == c * low
    requires !bLow ==> low2 == low
    requires bHigh ==> high2 == c * high
    requires !bHigh ==> high2 == high
    requires q == Outlets(bLow, bHigh, low, high)
    requires q2 == Outlets(bLow, bHigh, low2, high2)
    ensures q2 == c * q
  {
  }

  /** Scaling the fluxes of the sides that are not inlets leaves the inlet sum. */
  lemma InletsKeep(bLow: bool, bHigh: bool, low: real, high: real, low2: real, high2: real)
    requires bLow ==> low2 == low
    requires bHigh ==> high2 == high
    ensures Inlets(bLow, bHigh, low2, high2) == Inlets(bLow, bHigh, low, high)
  {
  }

  /** The low side of the direction a face grid looks at: `xlow` on an x-face grid, `ylow` otherwise. */
  function LowSide(kind: Kind): (k: nat)
    ensures k < 3 && (kind != CellCentered ==> Applies(kind, k) && Applies(kind, k + 1))
  {
    if kind == FaceY then 2 else 0
  }

  /** `get_qin`: the sides that are not outlets add the mass they let in. */
  function Qin(kind: Kind, vel: Field, types: seq<Option<string>>, dx: real, dy: real, n: nat, m: nat): real
    requires Shaped(vel, types, n, m)
  {
    if kind == CellCentered then 0.0
    else
      var lo := LowSide(kind);
      Inlets(!IsOutlet(types[lo]), !IsOutlet(types[lo + 1]), Flux(vel, n, m, lo, dx, dy), Flux(vel, n, m, lo + 1, dx, dy))
  }

  /** `get_qout`: the outlet sides add the mass they let out. */
  function Qout(kind: Kind, vel: Field, types: seq<Option<string>>, dx: real, dy: real, n: nat, m: nat): real
    requires Shaped(vel, types, n, m)
  {
    if kind == CellCentered then 0.0
    else
      var lo := LowSide(kind);
      Outlets(IsOutlet(types[lo]), IsOutlet(types[lo + 1]), Flux(vel, n, m, lo, dx, dy), Flux(vel, n, m, lo + 1, dx, dy))
  }

  /** The mass side `k` lets into the domain: the low sides' flux, the high sides' flux negated. */
  function Inflow(vel: Field, n: nat, m: nat, k: nat, dx: real, dy: real): real
    requires n >= 1 && m >= 1 && IsShape(vel, n, m) && k < 4
  {
    if k % 2 == 0 then Flux(vel, n, m, k, dx, dy) else -Flux(vel, n, m, k, dx, dy)
  }

  /** Side `k`'s inflow when the grid looks at it and its outlet class is `outlet`, 0 otherwise. */
  function Part(kind: Kind, vel: Field, types: seq<Option<string>>, outlet: bool, dx: real, dy: real,
                n: nat, m: nat, k: nat): real
    requires Shaped(vel, types, n, m) && k < 4
  {
    if Applies(kind, k) && IsOutlet(types[k]) == outlet then Inflow(vel, n, m, k, dx, dy) else 0.0
  }

  /** The inflow of the sides of one outlet class, over the four sides. */
  function SideSum(kind: Kind, vel: Field, types: seq<Option<string>>, outlet: bool, dx: real, dy: real,
                   n: nat, m: nat): real
    requires Shaped(vel, types, n, m)
  {
    Part(kind, vel, types, outlet, dx, dy, n, m, 0) + Part(kind, vel, types, outlet, dx, dy, n, m, 1) +
    Part(kind, vel, types, outlet, dx, dy, n, m, 2) + Part(kind, vel, types, outlet, dx, dy, n, m, 3)
  }

  /** Side `k`'s inflow when the grid looks at it, 0 otherwise. */
  function NetPart(kind: Kind, vel: Field, dx: real, dy: real, n: nat, m: nat, k: nat): real
    requires n >= 1 && m >= 1 && IsShape(vel, n, m) && k < 4
  {
    if Applies(kind, k) then Inflow(vel, n, m, k, dx, dy) else 0.0
  }

  /** The inflow of all the sides the grid looks at. */
  function NetInflow(kind: Kind, vel: Field, dx: real, dy: real, n: nat, m: nat): real
    requires n >= 1 && m >= 1 && IsShape(vel, n, m)
  {
    NetPart(kind, vel, dx, dy, n, m, 0) + NetPart(kind, vel, dx, dy, n, m, 1) +
    NetPart(kind, vel, dx, dy, n, m, 2) + NetPart(kind, vel, dx, dy, n, m, 3)
  }

  /** Qin is the inflow of exactly the sides that are not outlets. */
  lemma QinBySides(kind: Kind, vel: Field, types: seq<Option<string>>, dx: real, dy: real, n: nat, m: nat)
    requires Shaped(vel, types, n, m)
    ensures Qin(kind, vel, types, dx, dy, n, m) == SideSum(kind, vel, types, false, dx, dy, n, m)
  {
  }

  /** Qout is the outflow of exactly the outlet sides. */
  lemma QoutBySides(kind: Kind, vel: Field, types: seq<Option<string>>, dx: real, dy: real, n: nat, m: nat)
    requires Shaped(vel, types, n, m)
    ensures Qout(kind, vel, types, dx, dy, n, m) == -SideSum(kind, vel, types, true, dx, dy, n, m)
  {
  }

  /** Every side falls in exactly one class: its part in the two classes together is its net part. */
  lemma SidePartition(kind: Kind, vel: Field, types: seq<Option<string>>, dx: real, dy: real, n: nat, m: nat, k: nat)
    requires Shaped(vel, types, n, m) && k < 4
    ensures Part(kind, vel, types, false, dx, dy, n, m, k) + Part(kind, vel, types, true, dx, dy, n, m, k)
            == NetPart(kind, vel, dx, dy, n, m, k)
    ensures Part(kind, vel, types, false, dx, dy, n, m, k) == 0.0 || Part(kind, vel, types, true, dx, dy, n, m, k) == 0.0
  {
  }

  /** Qin − Qout is the net signed boundary flux, whatever the sides' types. */
  lemma NetFlux(kind: Kind, vel: Field, types: seq<Option<string>>, dx: real, dy: real, n: nat, m: nat)
    requires Shaped(vel, types, n, m)
    ensures Qin(kind, vel, types, dx, dy, n, m) - Qout(kind, vel, types, dx, dy, n, m)
            == NetInflow(kind, vel, dx, dy, n, m)
  {
    QinBySides(kind, vel, types, dx, dy, n, m);
    QoutBySides(kind, vel, types, dx, dy, n, m);
    SidePartition(kind, vel, types, dx, dy, n, m, 0);
    SidePartition(kind, vel, types, dx, dy, n, m, 1);
    SidePartition(kind, vel, types, dx, dy, n, m, 2);
    SidePartition(kind, vel, types, dx, dy, n, m, 3);
  }

  /** The grid never looks at a side of the other direction: a cell-centred grid has no flux at all. */
  lemma CellCenteredHasNoFlux(vel: Field, types: seq<Option<string>>, dx: real, dy: real, n: nat, m: nat)
    requires Shaped(vel, types, n, m)
    ensures Qin(CellCentered, vel, types, dx, dy, n, m) == 0.0 && Qout(CellCentered, vel, types, dx, dy, n, m) == 0.0
    ensures NetInflow(CellCentered, vel, dx, dy, n, m) == 0.0
  {
  }

  // Rescaling

  /** `Qinout`: Qin/Qout when Qout is positive, 1 otherwise. */
  function RescaleFactor(qin: real, qout: real): (c: real)
    ensures qout > 0.0 ==> c * qout == qin
    ensures qout <= 0.0 ==> c == 1.0
  {
    if qout > 0.0 then qin / qout else 1.0
  }

  /** Cell `(i, j)` is an interior face of the line of side `k`. */
  predicate OnTrimmedLine(n: nat, m: nat, k: nat, i: int, j: int) {
    if k == 0 then j == 0 && 1 <= i < n - 1
    else if k == 1 then j == m - 1 && 1 <= i < n - 1
    else if k == 2 then i == 0 && 1 <= j < m - 1
    else i == n - 1 && 1 <= j < m - 1
  }

  /** Entry `(i, j)` after `vel[1:-1, 0] *= c` or one of its three siblings. */
  function ScaledAt(f: Field, n: nat, m: nat, k: nat, c: real, i: nat, j: nat): real
    requires IsShape(f, n, m) && i < n && j < m
  {
    if OnTrimmedLine(n, m, k, i, j) then f[i][j] * c else f[i][j]
  }

  /** `vel[1:-1, 0] *= c` and its three siblings, on a value. */
  function ScaleLine(f: Field, n: nat, m: nat, k: nat, c: real): (g: Field)
    requires IsShape(f, n, m)
    ensures IsShape(g, n, m)
    ensures forall i, j :: 0 <= i < n && 0 <= j < m ==> g[i][j] == ScaledAt(f, n, m, k, c, i, j)
  {
    seq(n, i requires 0 <= i < n => seq(m, j requires 0 <= j < m => ScaledAt(f, n, m, k, c, i, j)))
  }

  /** A side's scaling, applied when its guard holds. */
  function ScaleIf(f: Field, n: nat, m: nat, k: nat, b: bool, c: real): (g: Field)
    requires IsShape(f, n, m)
    ensures IsShape(g, n, m)
  {
    if b then ScaleLine(f, n, m, k, c) else f
  }

  /** `rescale_velocity` on a value: the outlet sides of the grid's own direction, low side first. */
  function Rescaled(kind: Kind, vel: Field, types: seq<Option<string>>, c: real, n: nat, m: nat): (g: Field)
    requires Shaped(vel, types, n, m)
    ensures IsShape(g, n, m)
  {
    match kind
    case FaceX => ScaleIf(ScaleIf(vel, n, m, 0, IsOutlet(types[0]), c), n, m, 1, IsOutlet(types[1]), c)
    case FaceY => ScaleIf(ScaleIf(vel, n, m, 2, IsOutlet(types[2]), c), n, m, 3, IsOutlet(types[3]), c)
    case CellCentered => vel
  }

  /** The faces rescaling touches: interior faces of the outlet sides the grid looks at. */
  predicate Touched(kind: Kind, types: seq<Option<string>>, n: nat, m: nat, i: int, j: int)
    requires |types| >= 4
  {
    exists k :: 0 <= k < 4 && Applies(kind, k) && IsOutlet(types[k]) && OnTrimmedLine(n, m, k, i, j)
  }

  /** Rescaling multiplies exactly the touched faces by the factor and leaves every other entry as it was. */
  lemma RescaledTouchesOnlyOutlets(kind: Kind, vel: Field, types: seq<Option<string>>, c: real, n: nat, m: nat,
                                   i: int, j: int)
    requires Shaped(vel, types, n, m) && 0 <= i < n && 0 <= j < m
    ensures Rescaled(kind, vel, types, c, n, m)[i][j]
            == if Touched(kind, types, n, m, i, j) then vel[i][j] * c else vel[i][j]
  {
    var lo, hi := if kind == FaceY then 2 else 0, if kind == FaceY then 3 else 1;
    assert !(OnTrimmedLine(n, m, lo, i, j) && OnTrimmedLine(n, m, hi, i, j));
    if Touched(kind, types, n, m, i, j) {
      var k :| 0 <= k < 4 && Applies(kind, k) && IsOutlet(types[k]) && OnTrimmedLine(n, m, k, i, j);
      assert k == lo || k == hi;
    } else {
      assert !(Applies(kind, lo) && IsOutlet(types[lo]) && OnTrimmedLine(n, m, lo, i, j));
      assert !(Applies(kind, hi) && IsOutlet(types[hi]) && OnTrimmedLine(n, m, hi, i, j));
    }
  }

  /** An interior face of side `l` lies on the interior of side `l`... */
  lemma FaceOnOwnSide(n: nat, m: nat, l: nat, p: nat)
    requires n >= 2 && m >= 2 && l < 4 && 1 <= p && p + 1 < SideLen(n, m, l)
    ensures 0 <= FaceRow(n, l, p) < n && 0 <= FaceCol(m, l, p) < m
    ensures OnTrimmedLine(n, m, l, FaceRow(n, l, p), FaceCol(m, l, p))
  {
  }

  /** ...and of no other side. */
  lemma FaceOffOtherSides(n: nat, m: nat, k: nat, l: nat, p: nat)
    requires n >= 2 && m >= 2 && k < 4 && l < 4 && k != l && 1 <= p && p + 1 < SideLen(n, m, l)
    ensures 0 <= FaceRow(n, l, p) < n && 0 <= FaceCol(m, l, p) < m
    ensures !OnTrimmedLine(n, m, k, FaceRow(n, l, p), FaceCol(m, l, p))
  {
  }

  /** Scaling the interior faces of side `k` scales their sum. */
  lemma {:induction false} SumFromOfScaleSame(f: Field, n: nat, m: nat, k: nat, p: nat, c: real)
    requires n >= 2 && m >= 2 && IsShape(f, n, m) && k < 4 && p >= 1
    ensures SumFrom(ScaleLine(f, n, m, k, c), n, m, k, p) == c * SumFrom(f, n, m, k, p)
    decreases SideLen(n, m, k) - p
  {
    if p + 1 < SideLen(n, m, k) {
      FaceOnOwnSide(n, m, k, p);
      SumFromOfScaleSame(f, n, m, k, p + 1, c);
      ScaleStep(c, f[FaceRow(n, k, p)][FaceCol(m, k, p)], SumFrom(f, n, m, k, p + 1), SumFrom(f, n, m, k, p));
    }
  }

  lemma ScaleStep(c: real, x: real, y: real, t: real)
    requires t == x + y
    ensures x * c + c * y == c * t
  {
  }

  /** Scaling the interior faces of side `k` leaves the faces of every other side. */
  lemma {:induction false} SumFromOfScaleOther(f: Field, n: nat, m: nat, k: nat, l: nat, p: nat, c: real)
    requires n >= 2 && m >= 2 && IsShape(f, n, m) && k < 4 && l < 4 && k != l && p >= 1
    ensures SumFrom(ScaleLine(f, n, m, k, c), n, m, l, p) == SumFrom(f, n, m, l, p)
    decreases SideLen(n, m, l) - p
  {
    if p + 1 < SideLen(n, m, l) {
      FaceOffOtherSides(n, m, k, l, p);
      SumFromOfScaleOther(f, n, m, k, l, p + 1, c);
    }
  }

  /** The interior sum of side `l` after a side's guarded scaling. */
  lemma LineSumOfScaleIf(f: Field, n: nat, m: nat, k: nat, b: bool, l: nat, c: real)
    requires n >= 2 && m >= 2 && IsShape(f, n, m) && k < 4 && l < 4
    ensures b && k == l ==> LineSum(ScaleIf(f, n, m, k, b, c), n, m, l) == c * LineSum(f, n, m, l)
    ensures !(b && k == l) ==> LineSum(ScaleIf(f, n, m, k, b, c), n, m, l) == LineSum(f, n, m, l)
  {
    if b && k == l {
      SumFromOfScaleSame(f, n, m, k, 1, c);
    } else if b {
      SumFromOfScaleOther(f, n, m, k, l, 1, c);
    }
  }

  /** The interior sums of the rescaled field: the outlet sides' are scaled, every other side's is kept. */
  lemma LineSumOfRescaled(kind: Kind, vel: Field, types: seq<Option<string>>, c: real, n: nat, m: nat, l: nat)
    requires Shaped(vel, types, n, m) && Applies(kind, l)
    ensures IsOutlet(types[l]) ==> LineSum(Rescaled(kind, vel, types, c, n, m), n, m, l) == c * LineSum(vel, n, m, l)
    ensures !IsOutlet(types[l]) ==> LineSum(Rescaled(kind, vel, types, c, n, m), n, m, l) == LineSum(vel, n, m, l)
  {
    var lo := LowSide(kind);
    LineSumOfScaleIf(vel, n, m, lo, IsOutlet(types[lo]), l, c);
    LineSumOfScaleIf(ScaleIf(vel, n, m, lo, IsOutlet(types[lo]), c), n, m, lo + 1, IsOutlet(types[lo + 1]), l, c);
  }

  lemma Assoc(c: real, x: real, y: real)
    ensures (c * x) * y == c * (x * y)
  {
  }

  /** A guarded scaling of a side's interior sum carries over to its flux. */
  lemma FluxFollows(f: Field, g: Field, n: nat, m: nat, l: nat, b: bool, c: real, dx: real, dy: real)
    requires n >= 1 && m >= 1 && IsShape(f, n, m) && IsShape(g, n, m) && l < 4
    requires b ==> LineSum(g, n, m, l) == c * LineSum(f, n, m, l)
    requires !b ==> LineSum(g, n, m, l) == LineSum(f, n, m, l)
    ensures b ==> Flux(g, n, m, l, dx, dy) == c * Flux(f, n, m, l, dx, dy)
    ensures !b ==> Flux(g, n, m, l, dx, dy) == Flux(f, n, m, l, dx, dy)
  {
    Assoc(c, LineSum(f, n, m, l), Spacing(l, dx, dy));
  }

  /** A face grid's Qout, side by side. */
  lemma QoutOfFluxes(kind: Kind, f: Field, types: seq<Option<string>>, dx: real, dy: real, n: nat, m: nat)
    requires Shaped(f, types, n, m) && kind != CellCentered
    ensures Qout(kind, f, types, dx, dy, n, m)
            == Outlets(IsOutlet(types[LowSide(kind)]), IsOutlet(types[LowSide(kind) + 1]),
                       Flux(f, n, m, LowSide(kind), dx, dy), Flux(f, n, m, LowSide(kind) + 1, dx, dy))
  {
  }

  /** A face grid whose outlet sides' interior sums are scaled, and whose other sides' are kept, has its Qout scaled. */
  lemma QoutOfScaledLines(kind: Kind, f: Field, g: Field, types: seq<Option<string>>, c: real, dx: real, dy: real,
                          n: nat, m: nat)
    requires Shaped(f, types, n, m) && Shaped(g, types, n, m) && kind != CellCentered
    requires IsOutlet(types[LowSide(kind)]) ==> LineSum(g, n, m, LowSide(kind)) == c * LineSum(f, n, m, LowSide(kind))
    requires !IsOutlet(types[LowSide(kind)]) ==> LineSum(g, n, m, LowSide(kind)) == LineSum(f, n, m, LowSide(kind))
    requires IsOutlet(types[LowSide(kind) + 1]) ==> LineSum(g, n, m, LowSide(kind) + 1) == c * LineSum(f, n, m, LowSide(kind) + 1)
    requires !IsOutlet(types[LowSide(kind) + 1]) ==> LineSum(g, n, m, LowSide(kind) + 1) == LineSum(f, n, m, LowSide(kind) + 1)
    ensures Qout(kind, g, types, dx, dy, n, m) == c * Qout(kind, f, types, dx, dy, n, m)
  {
    FluxFollows(f, g, n, m, LowSide(kind), IsOutlet(types[LowSide(kind)]), c, dx, dy);
    FluxFollows(f, g, n, m, LowSide(kind) + 1, IsOutlet(types[LowSide(kind) + 1]), c, dx, dy);
    QoutOfFluxes(kind, f, types, dx, dy, n, m);
    QoutOfFluxes(kind, g, types, dx, dy, n, m);
    OutletsScale(IsOutlet(types[LowSide(kind)]), IsOutlet(types[LowSide(kind) + 1]),
                 Flux(f, n, m, LowSide(kind), dx, dy), Flux(f, n, m, LowSide(kind) + 1, dx, dy),
                 Flux(g, n, m, LowSide(kind), dx, dy), Flux(g, n, m, LowSide(kind) + 1, dx, dy), c,
                 Qout(kind, f, types, dx, dy, n, m), Qout(kind, g, types, dx, dy, n, m));
  }

  /** A face grid whose sides that are not outlets keep their interior sums keeps its Qin. */
  lemma QinOfKeptLines(kind: Kind, f: Field, g: Field, types: seq<Option<string>>, dx: real, dy: real, n: nat, m: nat)
    requires Shaped(f, types, n, m) && Shaped(g, types, n, m) && kind != CellCentered
    requires !IsOutlet(types[LowSide(kind)]) ==> LineSum(g, n, m, LowSide(kind)) == LineSum(f, n, m, LowSide(kind))
    requires !IsOutlet(types[LowSide(kind) + 1]) ==> LineSum(g, n, m, LowSide(kind) + 1) == LineSum(f, n, m, LowSide(kind) + 1)
    ensures Qin(kind, g, types, dx, dy, n, m) == Qin(kind, f, types, dx, dy, n, m)
  {
    var lo := LowSide(kind);
    InletsKeep(!IsOutlet(types[lo]), !IsOutlet(types[lo + 1]), Flux(f, n, m, lo, dx, dy), Flux(f, n, m, lo + 1, dx, dy),
               Flux(g, n, m, lo, dx, dy), Flux(g, n, m, lo + 1, dx, dy));
  }

  /** Rescaling leaves the mass getting in as it was. */
  lemma QinAfterRescale(kind: Kind, vel: Field, types: seq<Option<string>>, c: real, dx: real, dy: real, n: nat, m: nat)
    requires Shaped(vel, types, n, m)
    ensures Qin(kind, Rescaled(kind, vel, types, c, n, m), types, dx, dy, n, m) == Qin(kind, vel, types, dx, dy, n, m)
  {
    if kind != CellCentered {
      LineSumOfRescaled(kind, vel, types, c, n, m, LowSide(kind));
      LineSumOfRescaled(kind, vel, types, c, n, m, LowSide(kind) + 1);
      QinOfKeptLines(kind, vel, Rescaled(kind, vel, types, c, n, m), types, dx, dy, n, m);
    }
  }

  /** Rescaling multiplies the mass getting out by the factor. */
  lemma QoutAfterRescale(kind: Kind, vel: Field, types: seq<Option<string>>, c: real, dx: real, dy: real, n: nat, m: nat)
    requires Shaped(vel, types, n, m)
    ensures Qout(kind, Rescaled(kind, vel, types, c, n, m), types, dx, dy, n, m) == c * Qout(kind, vel, types, dx, dy, n, m)
  {
    if kind == CellCentered {
      MulEq(c, Qout(kind, vel, types, dx, dy, n, m), 0.0);
    } else {
      LineSumOfRescaled(kind, vel, types, c, n, m, LowSide(kind));
      LineSumOfRescaled(kind, vel, types, c, n, m, LowSide(kind) + 1);
      QoutOfScaledLines(kind, vel, Rescaled(kind, vel, types, c, n, m), types, c, dx, dy, n, m);
    }
  }

  /**
   * Rescaling the x-face and the y-face grid by one factor multiplies their
   * summed Qout by it. With the factor `RescaleFactor(qin, qout)` that sum
   * becomes Qin (`FactorBalances`), the balance the integrator relies on;
   * Qin itself is kept grid by grid (`QinAfterRescale`).
   */
  lemma RescaleBalances(u: Field, tu: seq<Option<string>>, nu: nat, mu: nat,
                        v: Field, tv: seq<Option<string>>, nv: nat, mv: nat, dx: real, dy: real, c: real)
    requires Shaped(u, tu, nu, mu) && Shaped(v, tv, nv, mv)
    ensures Qout(FaceX, Rescaled(FaceX, u, tu, c, nu, mu), tu, dx, dy, nu, mu) +
            Qout(FaceY, Rescaled(FaceY, v, tv, c, nv, mv), tv, dx, dy, nv, mv)
            == c * Qout(FaceX, u, tu, dx, dy, nu, mu) + c * Qout(FaceY, v, tv, dx, dy, nv, mv)
  {
    QoutAfterRescale(FaceX, u, tu, c, dx, dy, nu, mu);
    QoutAfterRescale(FaceY, v, tv, c, dx, dy, nv, mv);
  }

  /** With a positive summed Qout, the factor times the two grids' Qout is Qin. */
  lemma FactorBalances(qin: real, qout: real, qu: real, qv: real)
    requires qout == qu + qv && qout > 0.0
    ensures RescaleFactor(qin, qout) * qu + RescaleFactor(qin, qout) * qv == qin
  {
    var c := RescaleFactor(qin, qout);
    assert c * qu + c * qv == c * (qu + qv);
  }

  /**
   * The two stages composed: rescaling both face grids by a factor that
   * carries their summed Qout onto Qin makes the recomputed summed Qout
   * equal Qin.
   */
  lemma RescaleRestoresBalance(u: Field, tu: seq<Option<string>>, nu: nat, mu: nat,
                               v: Field, tv: seq<Option<string>>, nv: nat, mv: nat, dx: real, dy: real, qin: real, c: real)
    requires Shaped(u, tu, nu, mu) && Shaped(v, tv, nv, mv)
    requires c * (Qout(FaceX, u, tu, dx, dy, nu, mu) + Qout(FaceY, v, tv, dx, dy, nv, mv)) == qin
    ensures Qout(FaceX, Rescaled(FaceX, u, tu, c, nu, mu), tu, dx, dy, nu, mu) +
            Qout(FaceY, Rescaled(FaceY, v, tv, c, nv, mv), tv, dx, dy, nv, mv) == qin
  {
    RescaleBalances(u, tu, nu, mu, v, tv, nv, mv, dx, dy, c);
    Distribute(c, Qout(FaceX, u, tu, dx, dy, nu, mu), Qout(FaceY, v, tv, dx, dy, nv, mv));
  }

  /** `c a + c b == c (a + b)`. */
  lemma Distribute(c: real, a: real, b: real)
    ensures c * a + c * b == c * (a + b)
  {
  }

  /** The factor `_mass_balance.py` computes, `Qin / Qout`, is one such factor when Qout is positive. */
  lemma RescaleFactorRestoresBalance(u: Field, tu: seq<Option<string>>, nu: nat, mu: nat,
                                     v: Field, tv: seq<Option<string>>, nv: nat, mv: nat, dx: real, dy: real, qin: real, qout: real)
    requires Shaped(u, tu, nu, mu) && Shaped(v, tv, nv, mv)
    requires qout == Qout(FaceX, u, tu, dx, dy, nu, mu) + Qout(FaceY, v, tv, dx, dy, nv, mv) && qout > 0.0
    ensures Qout(FaceX, Rescaled(FaceX, u, tu, RescaleFactor(qin, qout), nu, mu), tu, dx, dy, nu, mu) +
            Qout(FaceY, Rescaled(FaceY, v, tv, RescaleFactor(qin, qout), nv, mv), tv, dx, dy, nv, mv) == qin
  {
    RescaleRestoresBalance(u, tu, nu, mu, v, tv, nv, mv, dx, dy, qin, RescaleFactor(qin, qout));
  }

  /** `vel[1:-1, col] *= c`. */
  method ScaleColumnInPlace(vel: array2<real>, col: nat, c: real)
    requires col < vel.Length1 && vel.Length0 >= 2
    modifies vel
    ensures forall r, q :: 0 <= r < vel.Length0 && 0 <= q < vel.Length1 ==>
      vel[r, q] == if q == col && 1 <= r < vel.Length0 - 1 then old(vel[r, q]) * c else old(vel[r, q])
  {
    for i := 1 to vel.Length0 - 1
      invariant forall r, q :: 0 <= r < vel.Length0 && 0 <= q < vel.Length1 ==>
        vel[r, q] == if q == col && 1 <= r < i then old(vel[r, q]) * c else old(vel[r, q])
    {
      vel[i, col] := vel[i, col] * c;
    }
  }

  /** `vel[row, 1:-1] *= c`. */
  method ScaleRowInPlace(vel: array2<real>, row: nat, c: real)
    requires row < vel.Length0 && vel.Length1 >= 2
    modifies vel
    ensures forall r, q :: 0 <= r < vel.Length0 && 0 <= q < vel.Length1 ==>
      vel[r, q] == if r == row && 1 <= q < vel.Length1 - 1 then old(vel[r, q]) * c else old(vel[r, q])
  {
    for j := 1 to vel.Length1 - 1
      invariant forall r, q :: 0 <= r < vel.Length0 && 0 <= q < vel.Length1 ==>
        vel[r, q] == if r == row && 1 <= q < j then old(vel[r, q]) * c else old(vel[r, q])
    {
      vel[row, j] := vel[row, j] * c;
    }
  }

  /** `vel[1:-1, 0] *= c` (or a sibling side), one face at a time. */
  method ScaleLineInPlace(vel: array2<real>, k: nat, c: real)
    requires k < 4 && vel.Length0 >= 2 && vel.Length1 >= 2
    modifies vel
    ensures Snapshot(vel) == ScaleLine(old(Snapshot(vel)), vel.Length0, vel.Length1, k, c)
  {
    ghost var f := Snapshot(vel);
    var n, m := vel.Length0, vel.Length1;
    if k < 2 {
      ScaleColumnInPlace(vel, if k == 0 then 0 else m - 1, c);
    } else {
      ScaleRowInPlace(vel, if k == 2 then 0 else n - 1, c);
    }
    forall i, j | 0 <= i < n && 0 <= j < m ensures Snapshot(vel)[i][j] == ScaleLine(f, n, m, k, c)[i][j] {
      assert ScaleLine(f, n, m, k, c)[i][j] == ScaledAt(f, n, m, k, c, i, j);
    }
    FieldExt(Snapshot(vel), ScaleLine(f, n, m, k, c), n, m);
  }

  /** `rescale_velocity`: the factor, then the outlet sides of the grid's own direction. */
  method RescaleVelocity(kind: Kind, vel: array2<real>, types: seq<Option<string>>, qin: real, qout: real)
    requires Shaped(Snapshot(vel), types, vel.Length0, vel.Length1)
    modifies vel
    ensures Snapshot(vel) == Rescaled(kind, old(Snapshot(vel)), types, RescaleFactor(qin, qout), vel.Length0, vel.Length1)
  {
    var qinout := 1.0;
    if qout > 0.0 {
      qinout := qin / qout;
    }
    if kind == FaceX {
      if IsOutlet(types[0]) {
        ScaleLineInPlace(vel, 0, qinout);
      }
      if IsOutlet(types[1]) {
        ScaleLineInPlace(vel, 1, qinout);
      }
    }
    if kind == FaceY {
      if IsOutlet(types[2]) {
        ScaleLineInPlace(vel, 2, qinout);
      }
      if IsOutlet(types[3]) {
        ScaleLineInPlace(vel, 3, qinout);
      }
    }
  }

  // Convective outflow

  /** An outflow side the grid looks at. */
  predicate IsOutflow(kind: Kind, types: seq<Option<string>>, k: nat)
    requires |types| >= 4 && k < 4
  {
    Applies(kind, k) && types[k] == Some("outflow")
  }

  /** `get_convvel`: the mean of the full boundary line on outflow sides, 0 on every other side. */
  function ConvVel(kind: Kind, vel: Field, types: seq<Option<string>>, n: nat, m: nat): (r: seq<real>)
    requires Shaped(vel, types, n, m)
    ensures |r| == 4
    ensures forall k :: 0 <= k < 4 && !IsOutflow(kind, types, k) ==> r[k] == 0.0
  {
    [if IsOutflow(kind, types, 0) then Mean(BoundaryLine(vel, n, m, 0)) else 0.0,
     if IsOutflow(kind, types, 1) then Mean(BoundaryLine(vel, n, m, 1)) else 0.0,
     if IsOutflow(kind, types, 2) then Mean(BoundaryLine(vel, n, m, 2)) else 0.0,
     if IsOutflow(kind, types, 3) then Mean(BoundaryLine(vel, n, m, 3)) else 0.0]
  }

  /** The convective velocity of an outflow side lies between the smallest and the largest velocity on its line. */
  lemma ConvVelBounded(kind: Kind, vel: Field, types: seq<Option<string>>, n: nat, m: nat, k: nat, lo: real, hi: real)
    requires Shaped(vel, types, n, m) && k < 4
    requires forall i :: 0 <= i < |BoundaryLine(vel, n, m, k)| ==> lo <= BoundaryLine(vel, n, m, k)[i] <= hi
    ensures IsOutflow(kind, types, k) ==> lo <= ConvVel(kind, vel, types, n, m)[k] <= hi
  {
    MeanBounds(BoundaryLine(vel, n, m, k), lo, hi);
  }

  /** On a uniform velocity field the convective velocity of each outflow side is that velocity. */
  lemma ConvVelOfUniform(kind: Kind, types: seq<Option<string>>, n: nat, m: nat, a: real, k: nat)
    requires Shaped(Const(n, m, a), types, n, m) && k < 4
    ensures ConvVel(kind, Const(n, m, a), types, n, m)[k] == if IsOutflow(kind, types, k) then a else 0.0
  {
    if IsOutflow(kind, types, k) {
      var s := BoundaryLine(Const(n, m, a), n, m, k);
      assert forall i :: 0 <= i < |s| ==> s[i] == a;
      MeanOfEqual(s, a);
    }
  }

  /** A `bc_val` entry: the scalar the record starts with, or the line an outflow update stores. */
  datatype BcValue = Scalar(x: real) | Values(line: seq<real>)

  /** The convective update of one entry of side `k`'s boundary line, upwinded towards the interior neighbour line. */
  function OutflowAt(vel: Field, n: nat, m: nat, k: nat, cv: real, dt: real, dx: real, dy: real, p: nat): real
    requires n >= 2 && m >= 2 && IsShape(vel, n, m) && k < 4 && dx != 0.0 && dy != 0.0 && p < (if k < 2 then n else m)
  {
    BoundaryLine(vel, n, m, k)[p] - cv * dt * NormalDiff(vel, n, m, k, p) / (if k < 2 then dx else dy)
  }

  /** The convective update of side `k`'s boundary line. */
  function OutflowLine(vel: Field, n: nat, m: nat, k: nat, cv: real, dt: real, dx: real, dy: real): (s: seq<real>)
    requires n >= 2 && m >= 2 && IsShape(vel, n, m) && k < 4 && dx != 0.0 && dy != 0.0
    ensures |s| == |BoundaryLine(vel, n, m, k)|
    ensures forall p :: 0 <= p < |s| ==> s[p] == OutflowAt(vel, n, m, k, cv, dt, dx, dy, p)
  {
    seq(if k < 2 then n else m, p requires 0 <= p < (if k < 2 then n else m) => OutflowAt(vel, n, m, k, cv, dt, dx, dy, p))
  }

  /** Entry `k` of the `bc_val` list after `update_outflow_bc`. */
  function OutflowEntry(kind: Kind, vel: Field, types: seq<Option<string>>, vals: seq<BcValue>,
                        dt: real, dx: real, dy: real, n: nat, m: nat, k: nat): BcValue
    requires Shaped(vel, types, n, m) && |vals| >= 4 && dx != 0.0 && dy != 0.0 && k < 4
  {
    if IsOutflow(kind, types, k) then Values(OutflowLine(vel, n, m, k, ConvVel(kind, vel, types, n, m)[k], dt, dx, dy))
    else vals[k]
  }

  /**
   * `update_outflow_bc` on the `bc_val` list: outflow sides get their
   * updated line, every other entry, including any past the fourth, is kept.
   */
  function OutflowBcVal(kind: Kind, vel: Field, types: seq<Option<string>>, vals: seq<BcValue>,
                        dt: real, dx: real, dy: real, n: nat, m: nat): (r: seq<BcValue>)
    requires Shaped(vel, types, n, m) && |vals| >= 4 && dx != 0.0 && dy != 0.0
    ensures |r| == |vals|
    ensures forall k :: 0 <= k < 4 ==> r[k] == OutflowEntry(kind, vel, types, vals, dt, dx, dy, n, m, k)
    ensures forall k :: 0 <= k < |vals| && !(k < 4 && IsOutflow(kind, types, k)) ==> r[k] == vals[k]
  {
    seq(|vals|, k requires 0 <= k < |vals| => if k < 4 then OutflowEntry(kind, vel, types, vals, dt, dx, dy, n, m, k) else vals[k])
  }

  /** A uniform field is a steady state of the outflow update: each outflow side stores its own boundary line. */
  lemma OutflowOfUniform(kind: Kind, types: seq<Option<string>>, vals: seq<BcValue>, dt: real, dx: real, dy: real,
                         n: nat, m: nat, a: real, k: nat)
    requires Shaped(Const(n, m, a), types, n, m) && |vals| >= 4 && dx != 0.0 && dy != 0.0 && k < 4
    ensures OutflowBcVal(kind, Const(n, m, a), types, vals, dt, dx, dy, n, m)[k]
            == if IsOutflow(kind, types, k) then Values(BoundaryLine(Const(n, m, a), n, m, k)) else vals[k]
  {
    var f := Const(n, m, a);
    var cv := ConvVel(kind, f, types, n, m)[k];
    var s, b := OutflowLine(f, n, m, k, cv, dt, dx, dy), BoundaryLine(f, n, m, k);
    forall p | 0 <= p < |s| ensures s[p] == b[p] {
      assert NormalDiff(f, n, m, k, p) == 0.0;
    }
    assert s == b;
  }

  /** With a field that varies linearly normal to side `k`, the update moves the boundary line by `cv * dt` times that slope. */
  lemma OutflowOfLinearProfile(vel: Field, n: nat, m: nat, k: nat, cv: real, dt: real, dx: real, dy: real,
                               slope: real, p: nat)
    requires n >= 2 && m >= 2 && IsShape(vel, n, m) && k < 4 && dx != 0.0 && dy != 0.0
    requires p < |BoundaryLine(vel, n, m, k)|
    requires NormalDiff(vel, n, m, k, p) == slope * (if k < 2 then dx else dy)
    ensures OutflowAt(vel, n, m, k, cv, dt, dx, dy, p) == BoundaryLine(vel, n, m, k)[p] - cv * dt * slope
  {
    Cancel(cv * dt, NormalDiff(vel, n, m, k, p), slope, if k < 2 then dx else dy);
  }

  /** The difference across side `k` at position `p` of its line, in the direction the update reads it. */
  function NormalDiff(vel: Field, n: nat, m: nat, k: nat, p: nat): real
    requires n >= 2 && m >= 2 && IsShape(vel, n, m) && k < 4 && p < (if k < 2 then n else m)
  {
    if k == 0 then vel[p][1] - vel[p][0]
    else if k == 1 then vel[p][m - 1] - vel[p][m - 2]
    else if k == 2 then vel[1][p] - vel[0][p]
    else vel[n - 1][p] - vel[n - 2][p]
  }

  /** A difference of `s * d` over the spacing `d` is the slope `s`. */
  lemma Cancel(w: real, x: real, s: real, d: real)
    requires d != 0.0 && x == s * d
    ensures w * x / d == w * s
  {
  }

  /** One `if grid.type_ == ...: if bc_type[k] == 'outflow': bc_val[k] = ...` block of `update_outflow_bc`. */
  method UpdateSide(kind: Kind, f: Field, types: seq<Option<string>>, vals: array<BcValue>, cv: real, k: nat,
                    dt: real, dx: real, dy: real, n: nat, m: nat)
    requires n >= 2 && m >= 2 && IsShape(f, n, m) && |types| >= 4 && vals.Length >= 4 && k < 4
    requires dx != 0.0 && dy != 0.0
    modifies vals
    ensures vals[..] == old(vals[..])[k := if IsOutflow(kind, types, k) then Values(OutflowLine(f, n, m, k, cv, dt, dx, dy))
                                           else old(vals[k])]
  {
    if IsOutflow(kind, types, k) {
      vals[k] := Values(OutflowLine(f, n, m, k, cv, dt, dx, dy));
    }
  }

  /** `update_outflow_bc`: the convective velocities first, then each outflow side's entry of the list. */
  method UpdateOutflowBc(kind: Kind, vel: array2<real>, types: seq<Option<string>>, vals: array<BcValue>,
                         dt: real, dx: real, dy: real)
    requires Shaped(Snapshot(vel), types, vel.Length0, vel.Length1) && vals.Length >= 4 && dx != 0.0 && dy != 0.0
    modifies vals
    ensures vals[..] == OutflowBcVal(kind, Snapshot(vel), types, old(vals[..]), dt, dx, dy, vel.Length0, vel.Length1)
  {
    var f := Snapshot(vel);
    var n, m := vel.Length0, vel.Length1;
    ghost var v := vals[..];
    var convvel := ConvVel(kind, f, types, n, m);
    UpdateSide(kind, f, types, vals, convvel[0], 0, dt, dx, dy, n, m);
    UpdateSide(kind, f, types, vals, convvel[1], 1, dt, dx, dy, n, m);
    UpdateSide(kind, f, types, vals, convvel[2], 2, dt, dx, dy, n, m);
    UpdateSide(kind, f, types, vals, convvel[3], 3, dt, dx, dy, n, m);
    ghost var r := OutflowBcVal(kind, f, types, v, dt, dx, dy, n, m);
    assert vals[..] == r by {
      forall k | 0 <= k < vals.Length ensures vals[k] == r[k] {
        if k < 4 {
          assert r[k] == OutflowEntry(kind, f, types, v, dt, dx, dy, n, m, k);
        }
      }
    }
  }
}
