/**
 * `build_sparse_matrix`: the five-point Poisson matrix of one variable of a
 * grid. There is one row per interior cell (i, j), 1 <= i <= nx and
 * 1 <= j <= ny, numbered with i varying fastest. A row couples its cell to
 * every neighbour that exists, at column offsets -nx, +nx, -1 and +1. A
 * missing neighbour instead adds the side's correction (+1 for Neumann, -1
 * for Dirichlet) to the diagonal. Every coefficient is divided by dx^2, in
 * both directions: dy is not used.
 */
module PoissonMatrix {
  import opened Fields
  import opened Grid

  // ---------------------------------------------------------------------------
  // Side corrections

  /** The diagonal correction of a side of type `t`; None for any other type. */
  function CoeffAdd(t: Option<string>): (r: Option<real>)
    ensures r == Some(1.0) <==> t == Some("neumann")
    ensures r == Some(-1.0) <==> t == Some("dirichlet")
    ensures r.None? <==> t != Some("neumann") && t != Some("dirichlet")
  {
    if t == Some("neumann") then Some(1.0)
    else if t == Some("dirichlet") then Some(-1.0)
    else None
  }

  /** A side past the fourth has a known type, so its correction is written out of range. */
  predicate Overflows(types: seq<Option<string>>) {
    exists k :: 4 <= k < |types| && CoeffAdd(types[k]).Some?
  }

  /** `coeff_add` after the loop over the types: one correction per side, None where unknown. */
  function Adds(types: seq<Option<string>>): (r: seq<Option<real>>)
    ensures |r| == 4
    ensures forall k :: 0 <= k < 4 ==> r[k] == if k < |types| then CoeffAdd(types[k]) else None
  {
    seq(4, k requires 0 <= k < 4 => if k < |types| then CoeffAdd(types[k]) else None)
  }

  predicate AllKnown(adds: seq<Option<real>>) {
    forall k :: 0 <= k < |adds| ==> adds[k].Some?
  }

  /** The values of the corrections (0.0 stands in for an unknown one, which no built row uses). */
  function Known(adds: seq<Option<real>>): (r: seq<real>)
    ensures |r| == |adds|
    ensures forall k :: 0 <= k < |adds| && adds[k].Some? ==> r[k] == adds[k].value
  {
    seq(|adds|, k requires 0 <= k < |adds| => if adds[k].Some? then adds[k].value else 0.0)
  }

  /** The loop that fills `coeff_add` from the side types. */
  method CoeffAdds(types: seq<Option<string>>) returns (out: Outcome, adds: seq<Option<real>>)
    ensures out == (if Overflows(types) then IndexError else Done)
    ensures out == Done ==> adds == Adds(types)
  {
    adds := [None, None, None, None];
    var k := 0;
    while k < |types|
      invariant 0 <= k <= |types|
      invariant forall q :: 4 <= q < k ==> CoeffAdd(types[q]).None?
      invariant |adds| == 4
      invariant forall q :: 0 <= q < 4 ==> adds[q] == if q < k then CoeffAdd(types[q]) else None
    {
      var c := CoeffAdd(types[k]);
      if c.Some? {
        if k >= 4 {
          return IndexError, adds;
        }
        adds := adds[k := c];
      }
      k := k + 1;
    }
    out := Done;
  }

  // ---------------------------------------------------------------------------
  // Row numbering

  /** The row of cell (i, j). */
  function Row(nx: nat, i: int, j: int): int {
    (j - 1) * nx + (i - 1)
  }

  /** The cell of row `r`. */
  function CellI(nx: nat, r: int): int
    requires nx >= 1
  {
    r % nx + 1
  }

  function CellJ(nx: nat, r: int): int
    requires nx >= 1
  {
    r / nx + 1
  }

  lemma MulStep(a: int, b: int)
    requires a >= 1 && b >= 1
    ensures a * b >= b
  {
    assert a * b == (a - 1) * b + b;
  }

  /** The row of a cell names the cell back. */
  lemma CellOfRow(nx: nat, i: int, j: int)
    requires nx >= 1 && 1 <= i <= nx && 1 <= j
    ensures CellI(nx, Row(nx, i, j)) == i && CellJ(nx, Row(nx, i, j)) == j
  {
    var k := Row(nx, i, j);
    var q, p := k / nx, k % nx;
    assert k == q * nx + p;
    assert (j - 1 - q) * nx == p - (i - 1);
    if q < j - 1 {
      MulStep(j - 1 - q, nx);
    } else if q > j - 1 {
      MulStep(q - (j - 1), nx);
    }
  }

  /** Every non-negative row is the row of its cell. */
  lemma RowOfCell(nx: nat, ny: nat, r: int)
    requires nx >= 1 && 0 <= r < nx * ny
    ensures 1 <= CellI(nx, r) <= nx && 1 <= CellJ(nx, r) <= ny
    ensures Row(nx, CellI(nx, r), CellJ(nx, r)) == r
  {
    var q := r / nx;
    assert r == q * nx + r % nx;
    if q >= ny {
      MulStep(q - ny + 1, nx);
    }
  }

  /** Row ranges: the neighbour rows a cell refers to exist. */
  lemma RowBounds(nx: nat, ny: nat, i: int, j: int)
    requires 1 <= i <= nx && 1 <= j <= ny
    ensures 0 <= Row(nx, i, j) < nx * ny
    ensures j > 1 ==> Row(nx, i, j) >= nx
    ensures j < ny ==> Row(nx, i, j) + nx < nx * ny
    ensures i > 1 ==> Row(nx, i, j) >= 1
    ensures i < nx ==> Row(nx, i, j) + 1 < nx * ny
  {
    assert (j - 1) * nx >= 0;
    assert ny * nx == (j - 1) * nx + (ny - j + 1) * nx;
    MulStep(ny - j + 1, nx);
    if j > 1 {
      MulStep(j - 1, nx);
    }
    if j < ny {
      MulStep(ny - j, nx);
      assert ny * nx == j * nx + (ny - j) * nx;
    }
  }

  // ---------------------------------------------------------------------------
  // Entries

  /** A coefficient divided by dx^2. */
  function Over(a: real, dx: real): real
    requires dx != 0.0
  {
    a / (dx * dx)
  }

  /** The diagonal of cell (i, j): -4/dx^2, plus the correction of each missing side, low y first. */
  function Diagonal(nx: nat, ny: nat, dx: real, vals: seq<real>, i: int, j: int): real
    requires |vals| == 4 && dx != 0.0
  {
    Over(-4.0, dx)
    + (if j > 1 then 0.0 else Over(vals[2], dx))
    + (if j < ny then 0.0 else Over(vals[3], dx))
    + (if i > 1 then 0.0 else Over(vals[0], dx))
    + (if i < nx then 0.0 else Over(vals[1], dx))
  }

  /** Column `c` is an existing neighbour of cell (i, j), whose row is `r`. */
  predicate Adjacent(nx: nat, ny: nat, i: int, j: int, r: int, c: int) {
    (j > 1 && c == r - nx) || (j < ny && c == r + nx) || (i > 1 && c == r - 1) || (i < nx && c == r + 1)
  }

  /** Entry `c` of the row `r` of cell (i, j). */
  function RowEntry(nx: nat, ny: nat, dx: real, vals: seq<real>, i: int, j: int, r: int, c: int): real
    requires |vals| == 4 && dx != 0.0
  {
    if c == r then Diagonal(nx, ny, dx, vals, i, j)
    else if Adjacent(nx, ny, i, j, r, c) then Over(1.0, dx)
    else 0.0
  }

  /** Entry (r, c) of the matrix. */
  function Entry(nx: nat, ny: nat, dx: real, vals: seq<real>, r: int, c: int): real
    requires nx >= 1 && |vals| == 4 && dx != 0.0
  {
    RowEntry(nx, ny, dx, vals, CellI(nx, r), CellJ(nx, r), r, c)
  }

  /** The corrections a row of cell (i, j) reads exist. */
  predicate Needed(nx: nat, ny: nat, adds: seq<Option<real>>, i: int, j: int)
    requires |adds| == 4
  {
    (j > 1 || adds[2].Some?) && (j < ny || adds[3].Some?) && (i > 1 || adds[0].Some?) && (i < nx || adds[1].Some?)
  }

  /**
   * How `build_sparse_matrix` ends: KeyError for a variable without types,
   * IndexError for a known type past the fourth side, and, once there is a row
   * to build, ZeroDivisionError for dx = 0 and TypeError when a side has no
   * correction (dividing None). An empty grid builds the empty matrix.
   */
  function AssemblyOutcome(bcType: map<string, seq<Option<string>>>, ivar: string, nx: nat, ny: nat, dx: real): Outcome {
    if ivar !in bcType then KeyError
    else if Overflows(bcType[ivar]) then IndexError
    else if nx == 0 || ny == 0 then Done
    else if dx == 0.0 then ZeroDivisionError
    else if !AllKnown(Adds(bcType[ivar])) then TypeError
    else Done
  }

  // ---------------------------------------------------------------------------
  // Assembly

  /** One pass of the inner loop: row `counter` of cell (i, j), written into an all-zero row. */
  method AssembleRow(a: array2<real>, nx: nat, ny: nat, dx: real, adds: seq<Option<real>>, i: int, j: int, counter: int)
    returns (out: Outcome)
    requires |adds| == 4 && 1 <= i <= nx && 1 <= j <= ny && counter == Row(nx, i, j)
    requires a.Length0 == nx * ny && a.Length1 == nx * ny && 0 <= counter < a.Length0
    requires forall c :: 0 <= c < a.Length1 ==> a[counter, c] == 0.0
    modifies a
    ensures out == (if dx == 0.0 then ZeroDivisionError else if Needed(nx, ny, adds, i, j) then Done else TypeError)
    ensures forall r, c :: 0 <= r < a.Length0 && 0 <= c < a.Length1 && r != counter ==> a[r, c] == old(a[r, c])
    ensures out == Done ==> forall c :: 0 <= c < a.Length1 ==> a[counter, c] == RowEntry(nx, ny, dx, Known(adds), i, j, counter, c)
  {
    if dx == 0.0 {
      return ZeroDivisionError;
    }
    RowBounds(nx, ny, i, j);
    var coeff := Over(-4.0, dx);
    if j > 1 {
      a[counter, counter - nx] := Over(1.0, dx);
    } else {
      if adds[2].None? {
        return TypeError;
      }
      coeff := coeff + Over(adds[2].value, dx);
    }
    if j < ny {
      a[counter, counter + nx] := Over(1.0, dx);
    } else {
      if adds[3].None? {
        return TypeError;
      }
      coeff := coeff + Over(adds[3].value, dx);
    }
    if i > 1 {
      a[counter, counter - 1] := Over(1.0, dx);
    } else {
      if adds[0].None? {
        return TypeError;
      }
      coeff := coeff + Over(adds[0].value, dx);
    }
    if i < nx {
      a[counter, counter + 1] := Over(1.0, dx);
    } else {
      if adds[1].None? {
        return TypeError;
      }
      coeff := coeff + Over(adds[1].value, dx);
    }
    assert coeff == Diagonal(nx, ny, dx, Known(adds), i, j);
    a[counter, counter] := coeff;
    out := Done;
  }

  /** The loop state: rows before `counter` are built, the rest are still zero. */
  ghost predicate Assembled(a: array2<real>, nx: nat, ny: nat, dx: real, adds: seq<Option<real>>, counter: int)
    reads a
  {
    |adds| == 4 && a.Length0 == nx * ny && a.Length1 == nx * ny && 0 <= counter <= nx * ny
    && (counter > 0 ==> nx >= 1 && dx != 0.0)
    && (forall r, c :: 0 <= r < counter && 0 <= c < nx * ny ==> a[r, c] == Entry(nx, ny, dx, Known(adds), r, c))
    && (forall r, c :: counter <= r < nx * ny && 0 <= c < nx * ny ==> a[r, c] == 0.0)
    && (forall r :: 0 <= r < counter ==> Needed(nx, ny, adds, CellI(nx, r), CellJ(nx, r)))
  }

  /** Building row `counter` of cell (i, j) extends the built prefix by one row. */
  lemma AssembledStep(a: array2<real>, nx: nat, ny: nat, dx: real, adds: seq<Option<real>>, i: int, j: int, counter: int,
                      before: seq<seq<real>>)
    requires |adds| == 4 && 1 <= i <= nx && 1 <= j <= ny && counter == Row(nx, i, j) && dx != 0.0 && 0 <= counter < nx * ny
    requires a.Length0 == nx * ny && a.Length1 == nx * ny && IsShape(before, nx * ny, nx * ny)
    requires forall r, c :: 0 <= r < counter && 0 <= c < nx * ny ==> before[r][c] == Entry(nx, ny, dx, Known(adds), r, c)
    requires forall r, c :: counter <= r < nx * ny && 0 <= c < nx * ny ==> before[r][c] == 0.0
    requires forall r :: 0 <= r < counter ==> Needed(nx, ny, adds, CellI(nx, r), CellJ(nx, r))
    requires Needed(nx, ny, adds, i, j)
    requires forall r, c :: 0 <= r < nx * ny && 0 <= c < nx * ny && r != counter ==> a[r, c] == before[r][c]
    requires forall c :: 0 <= c < nx * ny ==> a[counter, c] == RowEntry(nx, ny, dx, Known(adds), i, j, counter, c)
    ensures Assembled(a, nx, ny, dx, adds, counter + 1)
  {
    CellOfRow(nx, i, j);
  }

  /** The inner loop for one value of j: the rows of cells (1, j) .. (nx, j). */
  method AssembleLine(a: array2<real>, nx: nat, ny: nat, dx: real, adds: seq<Option<real>>, j: int, counter: int)
    returns (out: Outcome)
    requires 1 <= j <= ny && counter == (j - 1) * nx
    requires Assembled(a, nx, ny, dx, adds, counter)
    modifies a
    ensures out != Done ==> nx >= 1 && ((out == ZeroDivisionError && dx == 0.0) || (out == TypeError && dx != 0.0 && !AllKnown(adds)))
    ensures out == Done ==> Assembled(a, nx, ny, dx, adds, counter + nx)
  {
    var i := 1;
    var row := counter;
    while i <= nx
      invariant 1 <= i <= nx + 1 && row == Row(nx, i, j)
      invariant Assembled(a, nx, ny, dx, adds, row)
    {
      RowBounds(nx, ny, i, j);
      ghost var before := Snapshot(a);
      out := AssembleRow(a, nx, ny, dx, adds, i, j, row);
      if out != Done {
        return;
      }
      AssembledStep(a, nx, ny, dx, adds, i, j, row, before);
      row := row + 1;
      i := i + 1;
    }
    out := Done;
  }

  lemma NextLine(nx: nat, j: int)
    ensures (j - 1) * nx + nx == j * nx
  {
  }

  /** With every row built, the first and last rows have read all four corrections. */
  lemma AssembledAll(a: array2<real>, nx: nat, ny: nat, dx: real, adds: seq<Option<real>>)
    requires nx >= 1 && ny >= 1 && Assembled(a, nx, ny, dx, adds, nx * ny)
    ensures AllKnown(adds)
  {
    CellOfRow(nx, 1, 1);
    CellOfRow(nx, nx, ny);
    assert Row(nx, nx, ny) == nx * ny - 1;
    assert Needed(nx, ny, adds, CellI(nx, 0), CellJ(nx, 0));
    assert Needed(nx, ny, adds, CellI(nx, nx * ny - 1), CellJ(nx, nx * ny - 1));
  }

  /**
   * `build_sparse_matrix` without the factorisation: the (nx*ny)^2 matrix
   * whose row `counter` belongs to cell (i, j), built row by row.
   */
  method BuildSparseMatrix(grid: Grid, ivar: string) returns (out: Outcome, a: array2<real>)
    ensures fresh(a)
    ensures out == AssemblyOutcome(grid.bcType, ivar, grid.nx, grid.ny, grid.dx)
    ensures out == Done ==> ivar in grid.bcType && a.Length0 == grid.nx * grid.ny && a.Length1 == grid.nx * grid.ny
    ensures out == Done && grid.nx >= 1 && grid.ny >= 1 ==>
      forall r, c :: 0 <= r < a.Length0 && 0 <= c < a.Length1 ==>
        a[r, c] == Entry(grid.nx, grid.ny, grid.dx, Known(Adds(grid.bcType[ivar])), r, c)
  {
    var nx, ny, dx := grid.nx, grid.ny, grid.dx;
    a := new real[nx * ny, nx * ny]((_, _) => 0.0);
    if ivar !in grid.bcType {
      return KeyError, a;
    }
    var adds;
    out, adds := CoeffAdds(grid.bcType[ivar]);
    if out != Done {
      return;
    }
    var counter := 0;
    var j := 1;
    while j <= ny
      invariant 1 <= j <= ny + 1 && counter == (j - 1) * nx
      invariant Assembled(a, nx, ny, dx, adds, counter)
      invariant adds == Adds(grid.bcType[ivar]) && out == Done
    {
      out := AssembleLine(a, nx, ny, dx, adds, j, counter);
      if out != Done {
        return;
      }
      NextLine(nx, j);
      counter := counter + nx;
      j := j + 1;
    }
    assert counter == nx * ny;
    if nx >= 1 && ny >= 1 {
      AssembledAll(a, nx, ny, dx, adds);
    }
  }

  // ---------------------------------------------------------------------------
  // Symmetry

  /** A neighbour relation between rows runs both ways. */
  lemma AdjacentBack(nx: nat, ny: nat, r: int, c: int)
    requires nx >= 1 && 0 <= r < nx * ny && 0 <= c < nx * ny
    requires Adjacent(nx, ny, CellI(nx, r), CellJ(nx, r), r, c)
    ensures Adjacent(nx, ny, CellI(nx, c), CellJ(nx, c), c, r)
  {
    RowOfCell(nx, ny, r);
    var i, j := CellI(nx, r), CellJ(nx, r);
    if j > 1 && c == r - nx {
      assert c == Row(nx, i, j - 1);
      CellOfRow(nx, i, j - 1);
    } else if j < ny && c == r + nx {
      assert c == Row(nx, i, j + 1);
      CellOfRow(nx, i, j + 1);
    } else if i > 1 && c == r - 1 {
      assert c == Row(nx, i - 1, j);
      CellOfRow(nx, i - 1, j);
    } else {
      assert c == Row(nx, i + 1, j);
      CellOfRow(nx, i + 1, j);
    }
  }

  /** The assembled matrix is symmetric. */
  lemma EntrySymmetric(nx: nat, ny: nat, dx: real, vals: seq<real>, r: int, c: int)
    requires nx >= 1 && |vals| == 4 && dx != 0.0 && 0 <= r < nx * ny && 0 <= c < nx * ny
    ensures Entry(nx, ny, dx, vals, r, c) == Entry(nx, ny, dx, vals, c, r)
  {
    if Adjacent(nx, ny, CellI(nx, r), CellJ(nx, r), r, c) {
      AdjacentBack(nx, ny, r, c);
    }
    if Adjacent(nx, ny, CellI(nx, c), CellJ(nx, c), c, r) {
      AdjacentBack(nx, ny, c, r);
    }
  }

  // ---------------------------------------------------------------------------
  // Row sums

  lemma SquareTermPositive(dx: real)
    requires dx != 0.0
    ensures dx * dx > 0.0
  {
    if dx > 0.0 {
      PositiveProduct(dx, dx);
    } else {
      PositiveProduct(-dx, -dx);
    }
  }

  lemma DivIsMul(a: real, q: real)
    requires q != 0.0
    ensures a / q == a * (1.0 / q)
  {
  }

  /** Dividing by dx^2 is multiplying by 1/dx^2. */
  lemma OverIsScaled(a: real, dx: real)
    requires dx != 0.0
    ensures Over(a, dx) == a * Over(1.0, dx)
  {
    SquareTermPositive(dx);
    DivIsMul(a, dx * dx);
  }

  lemma OverNegative(a: real, dx: real)
    requires dx != 0.0 && a < 0.0
    ensures Over(a, dx) < 0.0
  {
    SquareTermPositive(dx);
  }

  /** Entries c' < c of the row `r` of cell (i, j), summed. */
  function CellSum(nx: nat, ny: nat, dx: real, vals: seq<real>, i: int, j: int, r: int, c: nat): real
    requires |vals| == 4 && dx != 0.0
    decreases c
  {
    if c == 0 then 0.0 else CellSum(nx, ny, dx, vals, i, j, r, c - 1) + RowEntry(nx, ny, dx, vals, i, j, r, c - 1)
  }

  /** The sum of row `r` of the matrix: the entries Entry(r, c) over all columns. */
  function RowSum(nx: nat, ny: nat, dx: real, vals: seq<real>, r: int): real
    requires nx >= 1 && |vals| == 4 && dx != 0.0
  {
    CellSum(nx, ny, dx, vals, CellI(nx, r), CellJ(nx, r), r, nx * ny)
  }

  /** `v` if the point `p` is counted, i.e. present and among the first `c` columns. */
  function Upto(b: bool, p: int, c: int, v: real): real {
    if b && 0 <= p < c then v else 0.0
  }

  /** Extending the counted columns by column `c` adds the point's value if it sits at `c`. */
  lemma UptoStep(b: bool, p: int, c: nat, v: real)
    ensures Upto(b, p, c + 1, v) == Upto(b, p, c, v) + (if b && p == c then v else 0.0)
  {
  }

  /** The five points of a row are distinct, so an entry is the value of the point at its column. */
  lemma RowEntryPoints(nx: nat, ny: nat, dx: real, vals: seq<real>, i: int, j: int, r: int, c: int)
    requires |vals| == 4 && dx != 0.0 && nx >= 1 && 1 <= i <= nx
    ensures RowEntry(nx, ny, dx, vals, i, j, r, c) ==
      (if r == c then Diagonal(nx, ny, dx, vals, i, j) else 0.0) + (if j > 1 && r - nx == c then Over(1.0, dx) else 0.0)
      + (if j < ny && r + nx == c then Over(1.0, dx) else 0.0) + (if i > 1 && r - 1 == c then Over(1.0, dx) else 0.0)
      + (if i < nx && r + 1 == c then Over(1.0, dx) else 0.0)
  {
  }

  /** A prefix of a row sums its points: the diagonal and the existing neighbours before `c`. */
  lemma {:induction false} CellSumPoints(nx: nat, ny: nat, dx: real, vals: seq<real>, i: int, j: int, r: int, c: nat)
    requires |vals| == 4 && dx != 0.0 && nx >= 1 && 1 <= i <= nx
    ensures CellSum(nx, ny, dx, vals, i, j, r, c) ==
      Upto(true, r, c, Diagonal(nx, ny, dx, vals, i, j)) + Upto(j > 1, r - nx, c, Over(1.0, dx))
      + Upto(j < ny, r + nx, c, Over(1.0, dx)) + Upto(i > 1, r - 1, c, Over(1.0, dx)) + Upto(i < nx, r + 1, c, Over(1.0, dx))
  {
    if c > 0 {
      CellSumPoints(nx, ny, dx, vals, i, j, r, c - 1);
      RowEntryPoints(nx, ny, dx, vals, i, j, r, c - 1);
      UptoStep(true, r, c - 1, Diagonal(nx, ny, dx, vals, i, j));
      UptoStep(j > 1, r - nx, c - 1, Over(1.0, dx));
      UptoStep(j < ny, r + nx, c - 1, Over(1.0, dx));
      UptoStep(i > 1, r - 1, c - 1, Over(1.0, dx));
      UptoStep(i < nx, r + 1, c - 1, Over(1.0, dx));
    }
  }

  /** What the missing sides of cell (i, j) leave over: their correction minus one, summed. */
  function Excess(nx: nat, ny: nat, vals: seq<real>, i: int, j: int): real
    requires |vals| == 4
  {
    (if j > 1 then 0.0 else vals[2] - 1.0) + (if j < ny then 0.0 else vals[3] - 1.0)
    + (if i > 1 then 0.0 else vals[0] - 1.0) + (if i < nx then 0.0 else vals[1] - 1.0)
  }

  lemma OverAdd(a: real, b: real, dx: real)
    requires dx != 0.0
    ensures Over(a, dx) + Over(b, dx) == Over(a + b, dx)
  {
    OverIsScaled(a, dx);
    OverIsScaled(b, dx);
    OverIsScaled(a + b, dx);
  }

  /** A side contributes 1/dx^2 when its neighbour exists and its correction otherwise. */
  lemma SideOver(present: bool, a: real, dx: real)
    requires dx != 0.0
    ensures (if present then 0.0 else Over(a, dx)) + (if present then Over(1.0, dx) else 0.0)
            == Over(1.0, dx) + Over(if present then 0.0 else a - 1.0, dx)
  {
    if present {
      OverIsScaled(0.0, dx);
    } else {
      OverAdd(1.0, a - 1.0, dx);
    }
  }

  /** The off-diagonal part of the row of cell (i, j): 1/dx^2 per existing neighbour. */
  function Neighbours(nx: nat, ny: nat, dx: real, i: int, j: int): real
    requires dx != 0.0
  {
    (if j > 1 then Over(1.0, dx) else 0.0) + (if j < ny then Over(1.0, dx) else 0.0)
    + (if i > 1 then Over(1.0, dx) else 0.0) + (if i < nx then Over(1.0, dx) else 0.0)
  }

  /** A whole row holds its diagonal and one 1/dx^2 per existing neighbour. */
  lemma CellSumWhole(nx: nat, ny: nat, dx: real, vals: seq<real>, i: int, j: int)
    requires |vals| == 4 && dx != 0.0 && 1 <= i <= nx && 1 <= j <= ny
    ensures CellSum(nx, ny, dx, vals, i, j, Row(nx, i, j), nx * ny) == Diagonal(nx, ny, dx, vals, i, j) + Neighbours(nx, ny, dx, i, j)
  {
    RowBounds(nx, ny, i, j);
    CellSumPoints(nx, ny, dx, vals, i, j, Row(nx, i, j), nx * ny);
  }

  /** The row-sum identity for the row of cell (i, j). */
  lemma CellSumExcess(nx: nat, ny: nat, dx: real, vals: seq<real>, i: int, j: int)
    requires |vals| == 4 && dx != 0.0
    ensures Diagonal(nx, ny, dx, vals, i, j) + Neighbours(nx, ny, dx, i, j) == Over(Excess(nx, ny, vals, i, j), dx)
  {
    SideOver(j > 1, vals[2], dx);
    SideOver(j < ny, vals[3], dx);
    SideOver(i > 1, vals[0], dx);
    SideOver(i < nx, vals[1], dx);
    OverIsScaled(-4.0, dx);
    OverAdd(if j > 1 then 0.0 else vals[2] - 1.0, if j < ny then 0.0 else vals[3] - 1.0, dx);
    OverAdd(if i > 1 then 0.0 else vals[0] - 1.0, if i < nx then 0.0 else vals[1] - 1.0, dx);
    OverAdd((if j > 1 then 0.0 else vals[2] - 1.0) + (if j < ny then 0.0 else vals[3] - 1.0),
            (if i > 1 then 0.0 else vals[0] - 1.0) + (if i < nx then 0.0 else vals[1] - 1.0), dx);
  }

  /** Every row sums to its excess over dx^2. */
  lemma RowSumFormula(nx: nat, ny: nat, dx: real, vals: seq<real>, r: int)
    requires nx >= 1 && |vals| == 4 && dx != 0.0 && 0 <= r < nx * ny
    ensures RowSum(nx, ny, dx, vals, r) == Over(Excess(nx, ny, vals, CellI(nx, r), CellJ(nx, r)), dx)
  {
    RowOfCell(nx, ny, r);
    CellSumWhole(nx, ny, dx, vals, CellI(nx, r), CellJ(nx, r));
    CellSumExcess(nx, ny, dx, vals, CellI(nx, r), CellJ(nx, r));
  }

  /** With Neumann conditions on all four sides every row sums to zero. */
  lemma NeumannRowsSumToZero(nx: nat, ny: nat, dx: real, types: seq<Option<string>>, r: int)
    requires |types| == 4 && forall k :: 0 <= k < 4 ==> types[k] == Some("neumann")
    requires nx >= 1 && dx != 0.0 && 0 <= r < nx * ny
    ensures RowSum(nx, ny, dx, Known(Adds(types)), r) == 0.0
  {
    var vals := Known(Adds(types));
    assert vals[0] == 1.0 && vals[1] == 1.0 && vals[2] == 1.0 && vals[3] == 1.0;
    RowSumFormula(nx, ny, dx, vals, r);
    assert Excess(nx, ny, vals, CellI(nx, r), CellJ(nx, r)) == 0.0;
    OverIsScaled(0.0, dx);
  }

  /**
   * With Dirichlet conditions on all four sides a row sums to zero exactly
   * when its cell has all four neighbours, and is negative otherwise.
   */
  lemma DirichletRowSums(nx: nat, ny: nat, dx: real, types: seq<Option<string>>, r: int)
    requires |types| == 4 && forall k :: 0 <= k < 4 ==> types[k] == Some("dirichlet")
    requires nx >= 1 && dx != 0.0 && 0 <= r < nx * ny
    ensures RowSum(nx, ny, dx, Known(Adds(types)), r) <= 0.0
    ensures RowSum(nx, ny, dx, Known(Adds(types)), r) == 0.0 <==> 1 < CellI(nx, r) < nx && 1 < CellJ(nx, r) < ny
  {
    var vals := Known(Adds(types));
    assert vals[0] == -1.0 && vals[1] == -1.0 && vals[2] == -1.0 && vals[3] == -1.0;
    RowSumFormula(nx, ny, dx, vals, r);
    if 1 < CellI(nx, r) < nx && 1 < CellJ(nx, r) < ny {
      assert Excess(nx, ny, vals, CellI(nx, r), CellJ(nx, r)) == 0.0;
      OverIsScaled(0.0, dx);
    } else {
      assert Excess(nx, ny, vals, CellI(nx, r), CellJ(nx, r)) < 0.0;
      OverNegative(Excess(nx, ny, vals, CellI(nx, r), CellJ(nx, r)), dx);
    }
  }
}
