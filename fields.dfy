/**
 * Shared vocabulary of the model: a two-dimensional numpy array is an
 * `array2`, its value at a moment is a `Mat` (a sequence of rows), and the
 * elementwise numpy helpers (`maximum`, `minimum`, `abs`, boolean masks used
 * as 0/1 factors, `sqrt`) are small functions.
 */
module Fields {

  type Mat<T> = seq<seq<T>>
  type Field = Mat<real>

  /** `f` holds `n` rows of `m` entries. */
  predicate IsShape<T>(f: Mat<T>, n: nat, m: nat) {
    |f| == n && forall i :: 0 <= i < n ==> |f[i]| == m
  }

  /** The value held by an array, as numpy reads it on the right of an assignment. */
  function Snapshot<T>(a: array2<T>): (f: Mat<T>)
    reads a
    ensures IsShape(f, a.Length0, a.Length1)
    ensures forall i, j :: 0 <= i < a.Length0 && 0 <= j < a.Length1 ==> f[i][j] == a[i, j]
  {
    seq(a.Length0, i requires 0 <= i < a.Length0 reads a =>
      seq(a.Length1, j requires 0 <= j < a.Length1 reads a => a[i, j]))
  }

  /** Multiplying equal reals by one factor gives equal products. */
  lemma MulEq(c: real, x: real, y: real)
    requires x == y
    ensures c * x == c * y
  {
  }

  /** Two fields of one shape that agree entry by entry are equal. */
  lemma FieldExt<T>(f: Mat<T>, g: Mat<T>, n: nat, m: nat)
    requires IsShape(f, n, m) && IsShape(g, n, m)
    requires forall i, j :: 0 <= i < n && 0 <= j < m ==> f[i][j] == g[i][j]
    ensures f == g
  {
    forall i | 0 <= i < n ensures f[i] == g[i] { }
  }

  /** A field of `n` by `m` entries all equal to `c`. */
  function Const(n: nat, m: nat, c: real): (f: Field)
    ensures IsShape(f, n, m)
    ensures forall i, j :: 0 <= i < n && 0 <= j < m ==> f[i][j] == c
  {
    seq(n, i => seq(m, j => c))
  }

  /** A numpy boolean used as a floating-point factor. */
  function Ind(b: bool): real { if b then 1.0 else 0.0 }

  /** numpy.maximum / numpy.minimum / numpy.abs on one element. */
  function Max(a: real, b: real): real { if a >= b then a else b }
  function Min(a: real, b: real): real { if a <= b then a else b }
  function Abs(a: real): real { if a >= 0.0 then a else -a }

  function Sq(x: real): (r: real)
    ensures r >= 0.0
  {
    x * x
  }

  /** A nonzero number has a positive square. */
  lemma SquarePositive(x: real)
    requires x != 0.0
    ensures Sq(x) > 0.0
  {
    var b := 1.0 / x;
    assert x * b == 1.0;
    assert Sq(x) * (b * b) == (x * b) * (x * b);
  }

  /** What the model assumes of `numpy.sqrt` on non-negative arguments. */
  ghost predicate SqrtLaw(sqrt: real -> real) {
    forall x :: x >= 0.0 ==> sqrt(x) >= 0.0 && sqrt(x) * sqrt(x) == x
  }

  lemma PositiveProduct(x: real, y: real)
    requires x > 0.0 && y > 0.0
    ensures x * y > 0.0
  {
  }

  lemma NonNegProduct(x: real, y: real)
    requires x >= 0.0 && y >= 0.0
    ensures x * y >= 0.0
  {
  }

  /** Multiplying by a non-negative factor keeps an inequality. */
  lemma ScaleMonotone(w: real, x: real, y: real)
    requires w >= 0.0 && x <= y
    ensures w * x <= w * y
  {
    NonNegProduct(w, y - x);
    assert w * (y - x) == w * y - w * x;
  }

  /** Squaring is strictly increasing on the non-negative reals. */
  lemma SquareMonotone(r: real, x: real)
    requires r > x >= 0.0
    ensures r * r > x * x
  {
    PositiveProduct(r - x, r + x);
    assert (r - x) * (r + x) == r * r - x * x;
  }

  /** The square root of a square is the non-negative base. */
  lemma SqrtOfSquare(sqrt: real -> real, x: real)
    requires SqrtLaw(sqrt) && x >= 0.0
    ensures sqrt(x * x) == x
  {
    var r := sqrt(x * x);
    assert r >= 0.0 && r * r == x * x;
    if r > x {
      SquareMonotone(r, x);
    } else if r < x {
      SquareMonotone(x, r);
    }
  }

  /** A cell strictly inside the outer ring of an `n` by `m` field. */
  predicate Interior(i: int, j: int, n: int, m: int) {
    1 <= i < n - 1 && 1 <= j < m - 1
  }

  /** The interior index whose value a ring index receives when boundary lines are copied inwards. */
  function Clamp(i: int, n: int): int {
    if i == 0 then 1 else if i == n - 1 then n - 2 else i
  }

  /** `f[d, :] = f[a, :]`. */
  function CopyRow(f: Field, n: nat, m: nat, d: nat, a: nat): (g: Field)
    requires IsShape(f, n, m) && d < n && a < n
    ensures IsShape(g, n, m)
  {
    seq(n, i requires 0 <= i < n => if i == d then f[a] else f[i])
  }

  /** `f[:, d] = f[:, a]`. */
  function CopyCol(f: Field, n: nat, m: nat, d: nat, a: nat): (g: Field)
    requires IsShape(f, n, m) && d < m && a < m
    ensures IsShape(g, n, m)
  {
    seq(n, i requires 0 <= i < n => seq(m, j requires 0 <= j < m => if j == d then f[i][a] else f[i][j]))
  }

  /** `a[0,:] = a[1,:]` followed by `a[-1,:] = a[-2,:]`. */
  function CopyRows(f: Field, n: nat, m: nat): (g: Field)
    requires n >= 3 && IsShape(f, n, m)
    ensures IsShape(g, n, m)
  {
    CopyRow(CopyRow(f, n, m, 0, 1), n, m, n - 1, n - 2)
  }

  /** `a[:,0] = a[:,1]` followed by `a[:,-1] = a[:,-2]`. */
  function CopyCols(f: Field, n: nat, m: nat): (g: Field)
    requires m >= 3 && IsShape(f, n, m)
    ensures IsShape(g, n, m)
  {
    CopyCol(CopyCol(f, n, m, 0, 1), n, m, m - 1, m - 2)
  }

  /** Boundary rows copied inwards first, then boundary columns. */
  function CopyBoundary(f: Field, n: nat, m: nat): (g: Field)
    requires n >= 3 && m >= 3 && IsShape(f, n, m)
    ensures IsShape(g, n, m)
  {
    CopyCols(CopyRows(f, n, m), n, m)
  }

  /**
   * After the two copies every entry holds the value of the nearest interior
   * entry; the corners therefore receive the interior corner values.
   */
  lemma CopyBoundaryClamp(f: Field, n: nat, m: nat, i: int, j: int)
    requires n >= 3 && m >= 3 && IsShape(f, n, m)
    requires 0 <= i < n && 0 <= j < m
    ensures CopyBoundary(f, n, m)[i][j] == f[Clamp(i, n)][Clamp(j, m)]
    ensures Interior(Clamp(i, n), Clamp(j, m), n, m)
  {
  }

  method CopyRowInPlace(a: array2<real>, d: nat, r: nat)
    requires d < a.Length0 && r < a.Length0
    modifies a
    ensures Snapshot(a) == CopyRow(old(Snapshot(a)), a.Length0, a.Length1, d, r)
  {
    ghost var f0 := Snapshot(a);
    ghost var g := CopyRow(f0, a.Length0, a.Length1, d, r);
    for j := 0 to a.Length1
      invariant forall p, q :: 0 <= p < a.Length0 && 0 <= q < a.Length1 ==> a[p, q] == if q < j then g[p][q] else f0[p][q]
    {
      a[d, j] := a[r, j];
    }
    FieldExt(Snapshot(a), g, a.Length0, a.Length1);
  }

  method CopyColInPlace(a: array2<real>, d: nat, c: nat)
    requires d < a.Length1 && c < a.Length1
    modifies a
    ensures Snapshot(a) == CopyCol(old(Snapshot(a)), a.Length0, a.Length1, d, c)
  {
    ghost var f0 := Snapshot(a);
    ghost var g := CopyCol(f0, a.Length0, a.Length1, d, c);
    for i := 0 to a.Length0
      invariant forall p, q :: 0 <= p < a.Length0 && 0 <= q < a.Length1 ==> a[p, q] == if p < i then g[p][q] else f0[p][q]
    {
      a[i, d] := a[i, c];
    }
    FieldExt(Snapshot(a), g, a.Length0, a.Length1);
  }

  /** The four boundary-line copies on an array, in the order they are assigned. */
  method CopyBoundaryInPlace(a: array2<real>)
    requires a.Length0 >= 3 && a.Length1 >= 3
    modifies a
    ensures Snapshot(a) == CopyBoundary(old(Snapshot(a)), a.Length0, a.Length1)
  {
    CopyRowInPlace(a, 0, 1);
    CopyRowInPlace(a, a.Length0 - 1, a.Length0 - 2);
    CopyColInPlace(a, 0, 1);
    CopyColInPlace(a, a.Length1 - 1, a.Length1 - 2);
  }

  /** `a[:, :] = 0.0`. */
  method ZeroFill(a: array2<real>)
    modifies a
    ensures Snapshot(a) == Const(a.Length0, a.Length1, 0.0)
  {
    for i := 0 to a.Length0
      invariant forall p, q :: 0 <= p < a.Length0 && 0 <= q < a.Length1 ==> p < i ==> a[p, q] == 0.0
    {
      for j := 0 to a.Length1
        invariant forall p, q :: 0 <= p < a.Length0 && 0 <= q < a.Length1 ==>
          (p < i || (p == i && q < j)) ==> a[p, q] == 0.0
      {
        a[i, j] := 0.0;
      }
    }
    FieldExt(Snapshot(a), Const(a.Length0, a.Length1, 0.0), a.Length0, a.Length1);
  }

  /** `numpy.copy(a)`. */
  method CopyOf(a: array2<real>) returns (b: array2<real>)
    ensures fresh(b) && b.Length0 == a.Length0 && b.Length1 == a.Length1
    ensures Snapshot(b) == Snapshot(a)
  {
    b := new real[a.Length0, a.Length1]((i, j) reads a => if 0 <= i < a.Length0 && 0 <= j < a.Length1 then a[i, j] else 0.0);
    FieldExt(Snapshot(b), Snapshot(a), a.Length0, a.Length1);
  }

  /** `numpy.zeros((n, m))`. */
  method Zeros(n: nat, m: nat) returns (b: array2<real>)
    ensures fresh(b) && b.Length0 == n && b.Length1 == m
    ensures Snapshot(b) == Const(n, m, 0.0)
  {
    b := new real[n, m]((i, j) => 0.0);
    FieldExt(Snapshot(b), Const(n, m, 0.0), n, m);
  }

  /** `f[1:-1, 1:-1] = g[1:-1, 1:-1]`: the interior of `g` over the ring of `f`. */
  function SetInterior(f: Field, g: Field, n: nat, m: nat): (h: Field)
    requires IsShape(f, n, m) && IsShape(g, n, m)
    ensures IsShape(h, n, m)
  {
    seq(n, i requires 0 <= i < n => seq(m, j requires 0 <= j < m => if Interior(i, j, n, m) then g[i][j] else f[i][j]))
  }

  /** The slice assignment of an evaluated right-hand side into the interior of `s`. */
  method WriteInterior(s: array2<real>, g: array2<real>)
    requires g.Length0 == s.Length0 && g.Length1 == s.Length1 && g != s
    modifies s
    ensures Snapshot(s) == SetInterior(old(Snapshot(s)), Snapshot(g), s.Length0, s.Length1)
  {
    var n, m := s.Length0, s.Length1;
    ghost var f0, g0 := Snapshot(s), Snapshot(g);
    for i := 0 to n
      invariant forall a, b :: 0 <= a < n && 0 <= b < m ==> s[a, b] == if a < i && Interior(a, b, n, m) then g0[a][b] else f0[a][b]
    {
      for j := 0 to m
        invariant forall a, b :: 0 <= a < n && 0 <= b < m ==>
          s[a, b] == if (a < i || (a == i && b < j)) && Interior(a, b, n, m) then g0[a][b] else f0[a][b]
      {
        if Interior(i, j, n, m) {
          s[i, j] := g[i, j];
        }
      }
    }
    FieldExt(Snapshot(s), SetInterior(f0, g0, n, m), n, m);
  }

  /** Writing the interior from `g` and then copying the boundary lines inwards makes every cell the clamped cell of `g`. */
  lemma CopyBoundaryOfInterior(f: Field, g: Field, n: nat, m: nat, i: int, j: int)
    requires n >= 3 && m >= 3 && IsShape(f, n, m) && IsShape(g, n, m)
    requires 0 <= i < n && 0 <= j < m
    ensures CopyBoundary(SetInterior(f, g, n, m), n, m)[i][j] == g[Clamp(i, n)][Clamp(j, m)]
  {
    CopyBoundaryClamp(SetInterior(f, g, n, m), n, m, i, j);
  }

  /** `f[i, j] = v`. */
  function SetCell(f: Field, n: nat, m: nat, i: int, j: int, v: real): (g: Field)
    requires IsShape(f, n, m) && 0 <= i < n && 0 <= j < m
    ensures IsShape(g, n, m)
  {
    f[i := f[i][j := v]]
  }

  method SetCellInPlace(a: array2<real>, i: int, j: int, v: real)
    requires 0 <= i < a.Length0 && 0 <= j < a.Length1
    modifies a
    ensures Snapshot(a) == SetCell(old(Snapshot(a)), a.Length0, a.Length1, i, j, v)
  {
    ghost var f := Snapshot(a);
    a[i, j] := v;
    FieldExt(Snapshot(a), SetCell(f, a.Length0, a.Length1, i, j, v), a.Length0, a.Length1);
  }

  /** The interior cells a row-major sweep of the interior has written before it reaches (i, j). */
  predicate Swept(a: int, b: int, i: int, j: int, n: int, m: int) {
    Interior(a, b, n, m) && (a < i || (a == i && b < j))
  }

  /** `f` with the cells swept before (i, j) taken from `g`. */
  function SweptPrefix(f: Field, g: Field, n: nat, m: nat, i: int, j: int): (h: Field)
    requires IsShape(f, n, m) && IsShape(g, n, m)
    ensures IsShape(h, n, m)
  {
    seq(n, a requires 0 <= a < n => seq(m, b requires 0 <= b < m => if Swept(a, b, i, j, n, m) then g[a][b] else f[a][b]))
  }

  /** Before the sweep nothing is written. */
  lemma SweptStart(f: Field, g: Field, n: nat, m: nat)
    requires IsShape(f, n, m) && IsShape(g, n, m)
    ensures SweptPrefix(f, g, n, m, 1, 1) == f
  {
    FieldExt(SweptPrefix(f, g, n, m, 1, 1), f, n, m);
  }

  /** Writing the cell (i, j) extends the swept region by that one cell. */
  lemma SweptStep(f: Field, g: Field, n: nat, m: nat, i: int, j: int)
    requires IsShape(f, n, m) && IsShape(g, n, m) && Interior(i, j, n, m)
    ensures SweptPrefix(f, g, n, m, i, j + 1) == SetCell(SweptPrefix(f, g, n, m, i, j), n, m, i, j, g[i][j])
  {
    FieldExt(SweptPrefix(f, g, n, m, i, j + 1), SetCell(SweptPrefix(f, g, n, m, i, j), n, m, i, j, g[i][j]), n, m);
  }

  /** The end of row `i` is the start of row `i + 1`. */
  lemma SweptRow(f: Field, g: Field, n: nat, m: nat, i: int)
    requires IsShape(f, n, m) && IsShape(g, n, m)
    ensures SweptPrefix(f, g, n, m, i, m - 1) == SweptPrefix(f, g, n, m, i + 1, 1)
  {
    FieldExt(SweptPrefix(f, g, n, m, i, m - 1), SweptPrefix(f, g, n, m, i + 1, 1), n, m);
  }

  /** The whole sweep writes the interior of `g` over `f`. */
  lemma SweptAll(f: Field, g: Field, n: nat, m: nat)
    requires IsShape(f, n, m) && IsShape(g, n, m)
    ensures SweptPrefix(f, g, n, m, n - 1, 1) == SetInterior(f, g, n, m)
  {
    FieldExt(SweptPrefix(f, g, n, m, n - 1, 1), SetInterior(f, g, n, m), n, m);
  }

  /** `a[:, :] = g`. */
  method Store(a: array2<real>, g: Field)
    requires IsShape(g, a.Length0, a.Length1)
    modifies a
    ensures Snapshot(a) == g
  {
    for i := 0 to a.Length0
      invariant forall p, q :: 0 <= p < a.Length0 && 0 <= q < a.Length1 ==> p < i ==> a[p, q] == g[p][q]
    {
      for j := 0 to a.Length1
        invariant forall p, q :: 0 <= p < a.Length0 && 0 <= q < a.Length1 ==>
          (p < i || (p == i && q < j)) ==> a[p, q] == g[p][q]
      {
        a[i, j] := g[i][j];
      }
    }
    FieldExt(Snapshot(a), g, a.Length0, a.Length1);
  }
}
