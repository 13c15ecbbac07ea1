/**
 * `solid_stress` of the visco-elastic interface: from the reference map
 * (sX, sY) it forms the inverse deformation gradient by centred differences,
 * inverts it when its determinant is clear of zero (A = 0 otherwise), and
 * stores `A * A^T - I` in four buffers, which are zeroed first and whose
 * boundary rows and then columns are copied from their inner neighbours at
 * the end.  The level set `sd` is passed but never read.
 */
module SolidStress {
  import opened Fields

  /** The four entries (row-major) of a 2 by 2 tensor. */
  datatype Tensor = Tensor(t1: real, t2: real, t3: real, t4: real)

  /** The determinant guard `abs(det) > 1e-12`. */
  const DetTol: real := 0.000000000001

  function Det(ai1: real, ai2: real, ai3: real, ai4: real): real {
    ai1 * ai4 - ai2 * ai3
  }

  /** `A`: the inverse of `A_inv` when `abs(det) > 1e-12`, and 0 otherwise. */
  function Inverse(ai1: real, ai2: real, ai3: real, ai4: real): Tensor {
    var d := Det(ai1, ai2, ai3, ai4);
    if Abs(d) > DetTol then Tensor(1.0 / d * ai4, 1.0 / d * -ai2, 1.0 / d * -ai3, 1.0 / d * ai1)
    else Tensor(0.0, 0.0, 0.0, 0.0)
  }

  function Transpose(a: Tensor): Tensor {
    Tensor(a.t1, a.t3, a.t2, a.t4)
  }

  /** The 2 by 2 matrix product, written out as the kernel does. */
  function Mul(a: Tensor, b: Tensor): Tensor {
    Tensor(a.t1 * b.t1 + a.t2 * b.t3, a.t1 * b.t2 + a.t2 * b.t4, a.t3 * b.t1 + a.t4 * b.t3, a.t3 * b.t2 + a.t4 * b.t4)
  }

  /** `A * A^T`. */
  function Gram(a: Tensor): Tensor {
    Mul(a, Transpose(a))
  }

  /** `G - I`. */
  function LessIdentity(g: Tensor): Tensor {
    Tensor(g.t1 - 1.0, g.t2, g.t3, g.t4 - 1.0)
  }

  /** `Tau = A * A^T - I` for `A = Inverse(A_inv)`. */
  function Stress(ai1: real, ai2: real, ai3: real, ai4: real): Tensor {
    LessIdentity(Gram(Inverse(ai1, ai2, ai3, ai4)))
  }

  /** Away from the guard, `A` is the inverse of `A_inv`: `A * A_inv = I`. */
  lemma InverseIsInverse(ai1: real, ai2: real, ai3: real, ai4: real)
    requires Abs(Det(ai1, ai2, ai3, ai4)) > DetTol
    ensures Mul(Inverse(ai1, ai2, ai3, ai4), Tensor(ai1, ai2, ai3, ai4)) == Tensor(1.0, 0.0, 0.0, 1.0)
  {
    var d := Det(ai1, ai2, ai3, ai4);
    var b := 1.0 / d;
    assert d * b == 1.0;
    var a := Inverse(ai1, ai2, ai3, ai4);
    assert a == Tensor(b * ai4, b * -ai2, b * -ai3, b * ai1);
    assert a.t1 * ai1 + a.t2 * ai3 == b * d;
    assert a.t1 * ai2 + a.t2 * ai4 == 0.0;
    assert a.t3 * ai1 + a.t4 * ai3 == 0.0;
    assert a.t3 * ai2 + a.t4 * ai4 == b * d;
  }

  /** `A * A^T` is symmetric with diagonal entries that are sums of squares. */
  lemma GramProperties(a: Tensor)
    ensures Gram(a).t2 == Gram(a).t3
    ensures Gram(a).t1 == Sq(a.t1) + Sq(a.t2) && Gram(a).t4 == Sq(a.t3) + Sq(a.t4)
  {
  }

  lemma StressOfZeroInverse(a: Tensor)
    requires a == Tensor(0.0, 0.0, 0.0, 0.0)
    ensures LessIdentity(Gram(a)) == Tensor(-1.0, 0.0, 0.0, -1.0)
  {
  }

  lemma StressOfUnitInverse(a: Tensor)
    requires a == Tensor(1.0, 0.0, 0.0, 1.0)
    ensures LessIdentity(Gram(a)) == Tensor(0.0, 0.0, 0.0, 0.0)
  {
  }

  lemma InverseSingular(ai1: real, ai2: real, ai3: real, ai4: real)
    requires Abs(Det(ai1, ai2, ai3, ai4)) <= DetTol
    ensures Inverse(ai1, ai2, ai3, ai4) == Tensor(0.0, 0.0, 0.0, 0.0)
  {
  }

  /** A near-singular `A_inv` leaves `A = 0`, so the stress is `-I`. */
  lemma StressSingular(ai1: real, ai2: real, ai3: real, ai4: real)
    requires Abs(Det(ai1, ai2, ai3, ai4)) <= DetTol
    ensures Stress(ai1, ai2, ai3, ai4) == Tensor(-1.0, 0.0, 0.0, -1.0)
  {
    InverseSingular(ai1, ai2, ai3, ai4);
    StressOfZeroInverse(Inverse(ai1, ai2, ai3, ai4));
  }

  /** The stress is symmetric and its diagonal is at least -1 (a sum of squares less 1). */
  lemma StressProperties(ai1: real, ai2: real, ai3: real, ai4: real)
    ensures Stress(ai1, ai2, ai3, ai4).t2 == Stress(ai1, ai2, ai3, ai4).t3
    ensures Stress(ai1, ai2, ai3, ai4).t1 >= -1.0 && Stress(ai1, ai2, ai3, ai4).t4 >= -1.0
  {
    GramProperties(Inverse(ai1, ai2, ai3, ai4));
  }

  /** An entry of `A_inv`: `1/(2d) * (hi - lo)`. */
  function HalfDiff(hi: real, lo: real, d: real): real
    requires d != 0.0
  {
    1.0 / (2.0 * d) * (hi - lo)
  }

  /** `A_inv` at an interior cell: centred differences of sX and sY over `2 dx` and `2 dy`. */
  function StressAt(sX: Field, sY: Field, dx: real, dy: real, n: nat, m: nat, i: int, j: int): Tensor
    requires IsShape(sX, n, m) && IsShape(sY, n, m) && dx != 0.0 && dy != 0.0 && Interior(i, j, n, m)
  {
    Stress(HalfDiff(sX[i + 1][j], sX[i - 1][j], dx), HalfDiff(sX[i][j + 1], sX[i][j - 1], dy),
           HalfDiff(sY[i + 1][j], sY[i - 1][j], dx), HalfDiff(sY[i][j + 1], sY[i][j - 1], dy))
  }

  /** `StressProperties` at an interior cell. */
  lemma StressAtProperties(sX: Field, sY: Field, dx: real, dy: real, n: nat, m: nat, i: int, j: int)
    requires IsShape(sX, n, m) && IsShape(sY, n, m) && dx != 0.0 && dy != 0.0 && Interior(i, j, n, m)
    ensures StressAt(sX, sY, dx, dy, n, m, i, j).t2 == StressAt(sX, sY, dx, dy, n, m, i, j).t3
    ensures StressAt(sX, sY, dx, dy, n, m, i, j).t1 >= -1.0 && StressAt(sX, sY, dx, dy, n, m, i, j).t4 >= -1.0
  {
    StressProperties(HalfDiff(sX[i + 1][j], sX[i - 1][j], dx), HalfDiff(sX[i][j + 1], sX[i][j - 1], dy),
                     HalfDiff(sY[i + 1][j], sY[i - 1][j], dx), HalfDiff(sY[i][j + 1], sY[i][j - 1], dy));
  }

  /** Component `k` (1..4) of a tensor. */
  function Entry(t: Tensor, k: int): real {
    if k == 1 then t.t1 else if k == 2 then t.t2 else if k == 3 then t.t3 else t.t4
  }

  /** Component `k` of the stress at each interior cell (0 on the ring). */
  function TauInterior(sX: Field, sY: Field, dx: real, dy: real, n: nat, m: nat, k: int): (r: Field)
    requires IsShape(sX, n, m) && IsShape(sY, n, m) && dx != 0.0 && dy != 0.0
    ensures IsShape(r, n, m)
  {
    seq(n, i requires 0 <= i < n => seq(m, j requires 0 <= j < m =>
      if Interior(i, j, n, m) then Entry(StressAt(sX, sY, dx, dy, n, m, i, j), k) else 0.0))
  }

  /** Buffer `k` on return: each cell holds the stress of its clamped interior cell. */
  function Tau(sX: Field, sY: Field, dx: real, dy: real, n: nat, m: nat, k: int): (r: Field)
    requires n >= 3 && m >= 3 && IsShape(sX, n, m) && IsShape(sY, n, m) && dx != 0.0 && dy != 0.0
    ensures IsShape(r, n, m)
  {
    var t := TauInterior(sX, sY, dx, dy, n, m, k);
    seq(n, i requires 0 <= i < n => seq(m, j requires 0 <= j < m => t[Clamp(i, n)][Clamp(j, m)]))
  }

  /** Each cell holds component `k` of the stress at its clamped interior cell. */
  lemma TauAtCell(sX: Field, sY: Field, dx: real, dy: real, n: nat, m: nat, k: int, i: int, j: int)
    requires n >= 3 && m >= 3 && IsShape(sX, n, m) && IsShape(sY, n, m) && dx != 0.0 && dy != 0.0
    requires 0 <= i < n && 0 <= j < m
    ensures var ci, cj := Clamp(i, n), Clamp(j, m);
      Interior(ci, cj, n, m) && Tau(sX, sY, dx, dy, n, m, k)[i][j] == Entry(StressAt(sX, sY, dx, dy, n, m, ci, cj), k)
  {
  }

  /** Tau2 == Tau3 everywhere. */
  lemma {:induction false} TauSymmetric(sX: Field, sY: Field, dx: real, dy: real, n: nat, m: nat)
    requires n >= 3 && m >= 3 && IsShape(sX, n, m) && IsShape(sY, n, m) && dx != 0.0 && dy != 0.0
    ensures Tau(sX, sY, dx, dy, n, m, 2) == Tau(sX, sY, dx, dy, n, m, 3)
  {
    var t2, t3 := Tau(sX, sY, dx, dy, n, m, 2), Tau(sX, sY, dx, dy, n, m, 3);
    forall i, j | 0 <= i < n && 0 <= j < m
      ensures t2[i][j] == t3[i][j]
    {
      TauAtCell(sX, sY, dx, dy, n, m, 2, i, j);
      TauAtCell(sX, sY, dx, dy, n, m, 3, i, j);
      StressAtProperties(sX, sY, dx, dy, n, m, Clamp(i, n), Clamp(j, m));
    }
    FieldExt(t2, t3, n, m);
  }

  /** Tau1 and Tau4 are at least -1 everywhere. */
  lemma TauDiagonalBound(sX: Field, sY: Field, dx: real, dy: real, n: nat, m: nat, i: int, j: int)
    requires n >= 3 && m >= 3 && IsShape(sX, n, m) && IsShape(sY, n, m) && dx != 0.0 && dy != 0.0
    requires 0 <= i < n && 0 <= j < m
    ensures Tau(sX, sY, dx, dy, n, m, 1)[i][j] >= -1.0 && Tau(sX, sY, dx, dy, n, m, 4)[i][j] >= -1.0
  {
    TauAtCell(sX, sY, dx, dy, n, m, 1, i, j);
    TauAtCell(sX, sY, dx, dy, n, m, 4, i, j);
    StressAtProperties(sX, sY, dx, dy, n, m, Clamp(i, n), Clamp(j, m));
  }

  /** The identity gradient gives `A = I` and so `Tau = 0`. */
  lemma IdentityStress()
    ensures Stress(1.0, 0.0, 0.0, 1.0) == Tensor(0.0, 0.0, 0.0, 0.0)
  {
    InverseOfIdentity();
    StressOfUnitInverse(Inverse(1.0, 0.0, 0.0, 1.0));
  }

  lemma InverseOfIdentity()
    ensures Inverse(1.0, 0.0, 0.0, 1.0) == Tensor(1.0, 0.0, 0.0, 1.0)
  {
    assert Det(1.0, 0.0, 0.0, 1.0) == 1.0;
  }

  /** The reference map is the identity map `(x0 + i dx, y0 + j dy)`. */
  ghost predicate IdentityMap(sX: Field, sY: Field, x0: real, y0: real, dx: real, dy: real, n: nat, m: nat)
    requires IsShape(sX, n, m) && IsShape(sY, n, m)
  {
    forall i, j :: 0 <= i < n && 0 <= j < m ==> sX[i][j] == x0 + (i as real) * dx && sY[i][j] == y0 + (j as real) * dy
  }

  /** The identity reference map is stress-free: all four buffers are 0 everywhere. */
  lemma {:induction false} IdentityMapStressFree(sX: Field, sY: Field, x0: real, y0: real, dx: real, dy: real, n: nat, m: nat, k: int)
    requires n >= 3 && m >= 3 && IsShape(sX, n, m) && IsShape(sY, n, m) && dx != 0.0 && dy != 0.0
    requires IdentityMap(sX, sY, x0, y0, dx, dy, n, m)
    ensures Tau(sX, sY, dx, dy, n, m, k) == Const(n, m, 0.0)
  {
    var t := Tau(sX, sY, dx, dy, n, m, k);
    forall i, j | 0 <= i < n && 0 <= j < m
      ensures t[i][j] == 0.0
    {
      var ci, cj := Clamp(i, n), Clamp(j, m);
      TauAtCell(sX, sY, dx, dy, n, m, k, i, j);
      IdentityAt(sX, sY, x0, y0, dx, dy, n, m, ci, cj);
    }
    FieldExt(t, Const(n, m, 0.0), n, m);
  }

  /** `HalfDiff` is 1 across a rise of `2d` and 0 across none. */
  lemma HalfDiffValues(hi: real, lo: real, d: real)
    requires d != 0.0 && (hi - lo == 2.0 * d || hi == lo)
    ensures HalfDiff(hi, lo, d) == if hi == lo then 0.0 else 1.0
  {
  }

  /** `Stress` of the identity gradient, whatever terms denote its entries. */
  lemma StressOfIdentity(a1: real, a2: real, a3: real, a4: real)
    requires a1 == 1.0 && a2 == 0.0 && a3 == 0.0 && a4 == 1.0
    ensures Stress(a1, a2, a3, a4) == Tensor(0.0, 0.0, 0.0, 0.0)
  {
    IdentityStress();
  }

  /** Centred differences of `2 dx` along x in sX and of `2 dy` along y in sY, and none across, give no stress. */
  lemma IdentityGradientAt(sX: Field, sY: Field, dx: real, dy: real, n: nat, m: nat, i: int, j: int)
    requires IsShape(sX, n, m) && IsShape(sY, n, m) && dx != 0.0 && dy != 0.0 && Interior(i, j, n, m)
    requires sX[i + 1][j] - sX[i - 1][j] == 2.0 * dx && sY[i][j + 1] - sY[i][j - 1] == 2.0 * dy
    requires sX[i][j + 1] == sX[i][j - 1] && sY[i + 1][j] == sY[i - 1][j]
    ensures StressAt(sX, sY, dx, dy, n, m, i, j) == Tensor(0.0, 0.0, 0.0, 0.0)
  {
    HalfDiffValues(sX[i + 1][j], sX[i - 1][j], dx);
    HalfDiffValues(sX[i][j + 1], sX[i][j - 1], dy);
    HalfDiffValues(sY[i + 1][j], sY[i - 1][j], dx);
    HalfDiffValues(sY[i][j + 1], sY[i][j - 1], dy);
    StressOfIdentity(HalfDiff(sX[i + 1][j], sX[i - 1][j], dx), HalfDiff(sX[i][j + 1], sX[i][j - 1], dy),
                     HalfDiff(sY[i + 1][j], sY[i - 1][j], dx), HalfDiff(sY[i][j + 1], sY[i][j - 1], dy));
  }

  lemma IdentityAt(sX: Field, sY: Field, x0: real, y0: real, dx: real, dy: real, n: nat, m: nat, i: int, j: int)
    requires IsShape(sX, n, m) && IsShape(sY, n, m) && dx != 0.0 && dy != 0.0 && Interior(i, j, n, m)
    requires IdentityMap(sX, sY, x0, y0, dx, dy, n, m)
    ensures StressAt(sX, sY, dx, dy, n, m, i, j) == Tensor(0.0, 0.0, 0.0, 0.0)
  {
    var ir, jr := i as real, j as real;
    assert sX[i + 1][j] - sX[i - 1][j] == 2.0 * dx by {
      assert sX[i + 1][j] == x0 + (ir + 1.0) * dx && sX[i - 1][j] == x0 + (ir - 1.0) * dx;
    }
    assert sY[i][j + 1] - sY[i][j - 1] == 2.0 * dy by {
      assert sY[i][j + 1] == y0 + (jr + 1.0) * dy && sY[i][j - 1] == y0 + (jr - 1.0) * dy;
    }
    assert sX[i][j + 1] == sX[i][j - 1] && sY[i + 1][j] == sY[i - 1][j];
    IdentityGradientAt(sX, sY, dx, dy, n, m, i, j);
  }

  /** Component `k` of the stress at the interior cell (i, j), read from the arrays. */
  function TauCellAt(sX: array2<real>, sY: array2<real>, dx: real, dy: real, k: int, i: int, j: int): (r: real)
    requires sX.Length0 >= 3 && sX.Length1 >= 3 && sY.Length0 == sX.Length0 && sY.Length1 == sX.Length1
    requires dx != 0.0 && dy != 0.0 && Interior(i, j, sX.Length0, sX.Length1)
    reads sX, sY
    ensures r == TauInterior(Snapshot(sX), Snapshot(sY), dx, dy, sX.Length0, sX.Length1, k)[i][j]
  {
    Entry(Stress(HalfDiff(sX[i + 1, j], sX[i - 1, j], dx), HalfDiff(sX[i, j + 1], sX[i, j - 1], dy),
                 HalfDiff(sY[i + 1, j], sY[i - 1, j], dx), HalfDiff(sY[i, j + 1], sY[i, j - 1], dy)), k)
  }

  /** The shapes and distinctness the kernel needs: four distinct buffers, none of them `sX` or `sY`. */
  predicate KernelArrays(sX: array2<real>, sY: array2<real>, tau1: array2<real>, tau2: array2<real>,
                         tau3: array2<real>, tau4: array2<real>, dx: real, dy: real)
  {
    sX.Length0 >= 3 && sX.Length1 >= 3 && sY.Length0 == sX.Length0 && sY.Length1 == sX.Length1 &&
    dx != 0.0 && dy != 0.0 &&
    tau1.Length0 == sX.Length0 && tau1.Length1 == sX.Length1 && tau2.Length0 == sX.Length0 && tau2.Length1 == sX.Length1 &&
    tau3.Length0 == sX.Length0 && tau3.Length1 == sX.Length1 && tau4.Length0 == sX.Length0 && tau4.Length1 == sX.Length1 &&
    tau1 != tau2 && tau1 != tau3 && tau1 != tau4 && tau2 != tau3 && tau2 != tau4 && tau3 != tau4 &&
    tau1 != sX && tau2 != sX && tau3 != sX && tau4 != sX && tau1 != sY && tau2 != sY && tau3 != sY && tau4 != sY
  }

  /** The kernel has reached (i, j): every buffer holds its component over the swept cells and its start value elsewhere. */
  ghost predicate AtSweep(sX: array2<real>, sY: array2<real>, tau1: array2<real>, tau2: array2<real>,
                          tau3: array2<real>, tau4: array2<real>, dx: real, dy: real,
                          F1: Field, F2: Field, F3: Field, F4: Field, i: int, j: int)
    requires KernelArrays(sX, sY, tau1, tau2, tau3, tau4, dx, dy)
    requires IsShape(F1, sX.Length0, sX.Length1) && IsShape(F2, sX.Length0, sX.Length1)
    requires IsShape(F3, sX.Length0, sX.Length1) && IsShape(F4, sX.Length0, sX.Length1)
    reads sX, sY, tau1, tau2, tau3, tau4
  {
    var S, T, n, m := Snapshot(sX), Snapshot(sY), sX.Length0, sX.Length1;
    Snapshot(tau1) == SweptPrefix(F1, TauInterior(S, T, dx, dy, n, m, 1), n, m, i, j) &&
    Snapshot(tau2) == SweptPrefix(F2, TauInterior(S, T, dx, dy, n, m, 2), n, m, i, j) &&
    Snapshot(tau3) == SweptPrefix(F3, TauInterior(S, T, dx, dy, n, m, 3), n, m, i, j) &&
    Snapshot(tau4) == SweptPrefix(F4, TauInterior(S, T, dx, dy, n, m, 4), n, m, i, j)
  }

  /** One pass of the kernel's loop body at the interior cell (i, j). */
  method StressCell(sX: array2<real>, sY: array2<real>, tau1: array2<real>, tau2: array2<real>,
                    tau3: array2<real>, tau4: array2<real>, dx: real, dy: real, i: int, j: int,
                    ghost F1: Field, ghost F2: Field, ghost F3: Field, ghost F4: Field)
    requires KernelArrays(sX, sY, tau1, tau2, tau3, tau4, dx, dy) && Interior(i, j, sX.Length0, sX.Length1)
    requires IsShape(F1, sX.Length0, sX.Length1) && IsShape(F2, sX.Length0, sX.Length1)
    requires IsShape(F3, sX.Length0, sX.Length1) && IsShape(F4, sX.Length0, sX.Length1)
    requires AtSweep(sX, sY, tau1, tau2, tau3, tau4, dx, dy, F1, F2, F3, F4, i, j)
    modifies tau1, tau2, tau3, tau4
    ensures Snapshot(sX) == old(Snapshot(sX)) && Snapshot(sY) == old(Snapshot(sY))
    ensures AtSweep(sX, sY, tau1, tau2, tau3, tau4, dx, dy, F1, F2, F3, F4, i, j + 1)
  {
    var n, m := sX.Length0, sX.Length1;
    ghost var S, T := Snapshot(sX), Snapshot(sY);
    SetCellInPlace(tau1, i, j, TauCellAt(sX, sY, dx, dy, 1, i, j));
    SetCellInPlace(tau2, i, j, TauCellAt(sX, sY, dx, dy, 2, i, j));
    SetCellInPlace(tau3, i, j, TauCellAt(sX, sY, dx, dy, 3, i, j));
    SetCellInPlace(tau4, i, j, TauCellAt(sX, sY, dx, dy, 4, i, j));
    SweptStep(F1, TauInterior(S, T, dx, dy, n, m, 1), n, m, i, j);
    SweptStep(F2, TauInterior(S, T, dx, dy, n, m, 2), n, m, i, j);
    SweptStep(F3, TauInterior(S, T, dx, dy, n, m, 3), n, m, i, j);
    SweptStep(F4, TauInterior(S, T, dx, dy, n, m, 4), n, m, i, j);
  }

  /** The end of row `i` of the sweep is the start of row `i + 1`. */
  lemma AtSweepRow(sX: array2<real>, sY: array2<real>, tau1: array2<real>, tau2: array2<real>,
                   tau3: array2<real>, tau4: array2<real>, dx: real, dy: real,
                   F1: Field, F2: Field, F3: Field, F4: Field, i: int)
    requires KernelArrays(sX, sY, tau1, tau2, tau3, tau4, dx, dy)
    requires IsShape(F1, sX.Length0, sX.Length1) && IsShape(F2, sX.Length0, sX.Length1)
    requires IsShape(F3, sX.Length0, sX.Length1) && IsShape(F4, sX.Length0, sX.Length1)
    requires AtSweep(sX, sY, tau1, tau2, tau3, tau4, dx, dy, F1, F2, F3, F4, i, sX.Length1 - 1)
    ensures AtSweep(sX, sY, tau1, tau2, tau3, tau4, dx, dy, F1, F2, F3, F4, i + 1, 1)
  {
    var S, T, n, m := Snapshot(sX), Snapshot(sY), sX.Length0, sX.Length1;
    SweptRow(F1, TauInterior(S, T, dx, dy, n, m, 1), n, m, i);
    SweptRow(F2, TauInterior(S, T, dx, dy, n, m, 2), n, m, i);
    SweptRow(F3, TauInterior(S, T, dx, dy, n, m, 3), n, m, i);
    SweptRow(F4, TauInterior(S, T, dx, dy, n, m, 4), n, m, i);
  }

  /** Row `i` of the kernel's loop nest. */
  method StressRow(sX: array2<real>, sY: array2<real>, tau1: array2<real>, tau2: array2<real>,
                   tau3: array2<real>, tau4: array2<real>, dx: real, dy: real, i: int,
                   ghost F1: Field, ghost F2: Field, ghost F3: Field, ghost F4: Field)
    requires KernelArrays(sX, sY, tau1, tau2, tau3, tau4, dx, dy) && 1 <= i < sX.Length0 - 1
    requires IsShape(F1, sX.Length0, sX.Length1) && IsShape(F2, sX.Length0, sX.Length1)
    requires IsShape(F3, sX.Length0, sX.Length1) && IsShape(F4, sX.Length0, sX.Length1)
    requires AtSweep(sX, sY, tau1, tau2, tau3, tau4, dx, dy, F1, F2, F3, F4, i, 1)
    modifies tau1, tau2, tau3, tau4
    ensures Snapshot(sX) == old(Snapshot(sX)) && Snapshot(sY) == old(Snapshot(sY))
    ensures AtSweep(sX, sY, tau1, tau2, tau3, tau4, dx, dy, F1, F2, F3, F4, i + 1, 1)
  {
    ghost var S, T := Snapshot(sX), Snapshot(sY);
    for j := 1 to sX.Length1 - 1
      invariant Snapshot(sX) == S && Snapshot(sY) == T
      invariant AtSweep(sX, sY, tau1, tau2, tau3, tau4, dx, dy, F1, F2, F3, F4, i, j)
    {
      StressCell(sX, sY, tau1, tau2, tau3, tau4, dx, dy, i, j, F1, F2, F3, F4);
    }
    AtSweepRow(sX, sY, tau1, tau2, tau3, tau4, dx, dy, F1, F2, F3, F4, i);
  }

  /** `jit_solid_stress`: the four components at every interior cell, the ring left as it was. */
  method JitSolidStress(sX: array2<real>, sY: array2<real>, tau1: array2<real>, tau2: array2<real>,
                        tau3: array2<real>, tau4: array2<real>, dx: real, dy: real)
    requires KernelArrays(sX, sY, tau1, tau2, tau3, tau4, dx, dy)
    modifies tau1, tau2, tau3, tau4
    ensures var S, T, n, m := old(Snapshot(sX)), old(Snapshot(sY)), sX.Length0, sX.Length1;
      Snapshot(tau1) == SetInterior(old(Snapshot(tau1)), TauInterior(S, T, dx, dy, n, m, 1), n, m) &&
      Snapshot(tau2) == SetInterior(old(Snapshot(tau2)), TauInterior(S, T, dx, dy, n, m, 2), n, m) &&
      Snapshot(tau3) == SetInterior(old(Snapshot(tau3)), TauInterior(S, T, dx, dy, n, m, 3), n, m) &&
      Snapshot(tau4) == SetInterior(old(Snapshot(tau4)), TauInterior(S, T, dx, dy, n, m, 4), n, m)
  {
    var n, m := sX.Length0, sX.Length1;
    ghost var S, T := Snapshot(sX), Snapshot(sY);
    ghost var F1, F2, F3, F4 := Snapshot(tau1), Snapshot(tau2), Snapshot(tau3), Snapshot(tau4);
    SweptStart(F1, TauInterior(S, T, dx, dy, n, m, 1), n, m);
    SweptStart(F2, TauInterior(S, T, dx, dy, n, m, 2), n, m);
    SweptStart(F3, TauInterior(S, T, dx, dy, n, m, 3), n, m);
    SweptStart(F4, TauInterior(S, T, dx, dy, n, m, 4), n, m);
    for i := 1 to n - 1
      invariant Snapshot(sX) == S && Snapshot(sY) == T
      invariant AtSweep(sX, sY, tau1, tau2, tau3, tau4, dx, dy, F1, F2, F3, F4, i, 1)
    {
      StressRow(sX, sY, tau1, tau2, tau3, tau4, dx, dy, i, F1, F2, F3, F4);
    }
    SweptAll(F1, TauInterior(S, T, dx, dy, n, m, 1), n, m);
    SweptAll(F2, TauInterior(S, T, dx, dy, n, m, 2), n, m);
    SweptAll(F3, TauInterior(S, T, dx, dy, n, m, 3), n, m);
    SweptAll(F4, TauInterior(S, T, dx, dy, n, m, 4), n, m);
  }

  /** Whatever the buffer held, writing the interior and copying the boundary inwards leaves `Tau`. */
  lemma TauFromBuffer(sX: Field, sY: Field, dx: real, dy: real, n: nat, m: nat, k: int, f: Field)
    requires n >= 3 && m >= 3 && IsShape(sX, n, m) && IsShape(sY, n, m) && IsShape(f, n, m) && dx != 0.0 && dy != 0.0
    ensures CopyBoundary(SetInterior(f, TauInterior(sX, sY, dx, dy, n, m, k), n, m), n, m) == Tau(sX, sY, dx, dy, n, m, k)
  {
    var R := TauInterior(sX, sY, dx, dy, n, m, k);
    forall i, j | 0 <= i < n && 0 <= j < m
      ensures CopyBoundary(SetInterior(f, R, n, m), n, m)[i][j] == Tau(sX, sY, dx, dy, n, m, k)[i][j]
    {
      CopyBoundaryOfInterior(f, R, n, m, i, j);
    }
    FieldExt(CopyBoundary(SetInterior(f, R, n, m), n, m), Tau(sX, sY, dx, dy, n, m, k), n, m);
  }

  /**
   * `solid_stress(sd, sX, sY, Tau1, Tau2, Tau3, Tau4, dx, dy, nx, ny)`: the
   * buffers are zeroed, the kernel fills their interiors, and each buffer's
   * boundary rows and then columns are copied from their inner neighbours.
   */
  method SolidStressInPlace(sd: array2<real>, sX: array2<real>, sY: array2<real>, tau1: array2<real>, tau2: array2<real>,
                            tau3: array2<real>, tau4: array2<real>, dx: real, dy: real)
    requires KernelArrays(sX, sY, tau1, tau2, tau3, tau4, dx, dy)
    modifies tau1, tau2, tau3, tau4
    ensures var S, T, n, m := old(Snapshot(sX)), old(Snapshot(sY)), sX.Length0, sX.Length1;
      Snapshot(tau1) == Tau(S, T, dx, dy, n, m, 1) && Snapshot(tau2) == Tau(S, T, dx, dy, n, m, 2) &&
      Snapshot(tau3) == Tau(S, T, dx, dy, n, m, 3) && Snapshot(tau4) == Tau(S, T, dx, dy, n, m, 4)
  {
    var n, m := sX.Length0, sX.Length1;
    ghost var S, T := Snapshot(sX), Snapshot(sY);
    ZeroFill(tau1);
    ZeroFill(tau2);
    ZeroFill(tau3);
    ZeroFill(tau4);
    JitSolidStress(sX, sY, tau1, tau2, tau3, tau4, dx, dy);
    CopyBoundaryInPlace(tau1);
    CopyBoundaryInPlace(tau2);
    CopyBoundaryInPlace(tau3);
    CopyBoundaryInPlace(tau4);
    TauFromBuffer(S, T, dx, dy, n, m, 1, Const(n, m, 0.0));
    TauFromBuffer(S, T, dx, dy, n, m, 2, Const(n, m, 0.0));
    TauFromBuffer(S, T, dx, dy, n, m, 3, Const(n, m, 0.0));
    TauFromBuffer(S, T, dx, dy, n, m, 4, Const(n, m, 0.0));
  }
}
