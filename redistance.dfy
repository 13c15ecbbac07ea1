/**
 * `redistance_solid` / `_jit_redistance_solid`: one Godunov pseudo-time
 * sweep of the level-set re-distance equation. The field is zeroed, and each
 * interior cell is recomputed from the pre-sweep copy `so`; a cell where the
 * reference level set `soo` changes sign against a 4-neighbour is frozen to
 * the reference value.
 */
module Redistance {
  import opened Fields

  /** The `eps` of `sgn = soo / |soo + eps|`. */
  const Eps: real := 0.00000000000001

  /** The smoothed sign of the reference level set. */
  function Sgn(x: real): (r: real)
    requires x + Eps != 0.0
    ensures r > 0.0 <==> x > 0.0
    ensures r < 0.0 <==> x < 0.0
  {
    var d := Abs(x + Eps);
    assert d > 0.0;
    if x > 0.0 then PositiveQuotient(x, d); x / d
    else if x < 0.0 then PositiveQuotient(-x, d); x / d
    else x / d
  }

  lemma PositiveQuotient(x: real, d: real)
    requires x > 0.0 && d > 0.0
    ensures x / d > 0.0 && -x / d < 0.0
  {
    assert (x / d) * d == x;
    if x / d <= 0.0 {
      ScaleMonotone(d, x / d, 0.0);
    }
  }

  /** A zero reference has sign 0, so the cell is not driven. */
  lemma SgnOfZero()
    ensures Sgn(0.0) == 0.0
  {
  }

  /** Every reference value admits the smoothed sign. */
  ghost predicate NoPole(soo: Field, n: nat, m: nat)
    requires IsShape(soo, n, m)
  {
    forall i, j :: 0 <= i < n && 0 <= j < m ==> soo[i][j] + Eps != 0.0
  }

  /** `soo[i,j]` changes sign strictly against one of its four neighbours. */
  predicate Frozen(soo: Field, n: nat, m: nat, i: int, j: int)
    requires IsShape(soo, n, m) && Interior(i, j, n, m)
  {
    soo[i][j] * soo[i - 1][j] < 0.0 || soo[i][j] * soo[i + 1][j] < 0.0 ||
    soo[i][j] * soo[i][j - 1] < 0.0 || soo[i][j] * soo[i][j + 1] < 0.0
  }

  /** The squared Godunov upwind gradient used where `so > 0`. */
  function GodunovPlus(sm: real, sxl: real, sxr: real, syl: real, syr: real, dx: real, dy: real): (g: real)
    requires dx != 0.0 && dy != 0.0
    ensures g >= 0.0
  {
    var ap, bn := Max(sm - sxl, 0.0) / dx, Min(sxr - sm, 0.0) / dx;
    var cp, dn := Max(sm - syl, 0.0) / dy, Min(syr - sm, 0.0) / dy;
    Max(Sq(ap), Sq(bn)) + Max(Sq(cp), Sq(dn))
  }

  /** The squared Godunov upwind gradient used where `so < 0`. */
  function GodunovMinus(sm: real, sxl: real, sxr: real, syl: real, syr: real, dx: real, dy: real): (g: real)
    requires dx != 0.0 && dy != 0.0
    ensures g >= 0.0
  {
    var an, bp := Min(sm - sxl, 0.0) / dx, Max(sxr - sm, 0.0) / dx;
    var cn, dp := Min(sm - syl, 0.0) / dy, Max(syr - sm, 0.0) / dy;
    Max(Sq(an), Sq(bp)) + Max(Sq(cn), Sq(dp))
  }

  /** `agf`: the upwind gradient magnitude minus one, or 0 on the zero level. */
  function Agf(sqrt: real -> real, sm: real, sxl: real, sxr: real, syl: real, syr: real, dx: real, dy: real): (g: real)
    requires SqrtLaw(sqrt) && dx != 0.0 && dy != 0.0
    ensures g >= -1.0
    ensures sm == 0.0 ==> g == 0.0
  {
    if sm > 0.0 then sqrt(GodunovPlus(sm, sxl, sxr, syl, syr, dx, dy)) - 1.0
    else if sm < 0.0 then sqrt(GodunovMinus(sm, sxl, sxr, syl, syr, dx, dy)) - 1.0
    else 0.0
  }

  /** The new value of an interior cell. */
  function RedistanceCell(sqrt: real -> real, so: Field, soo: Field, dt: real, dx: real, dy: real,
                          n: nat, m: nat, i: int, j: int): real
    requires SqrtLaw(sqrt) && dx != 0.0 && dy != 0.0
    requires IsShape(so, n, m) && IsShape(soo, n, m) && Interior(i, j, n, m) && soo[i][j] + Eps != 0.0
  {
    if Frozen(soo, n, m, i, j) then soo[i][j]
    else so[i][j] - dt * (Sgn(soo[i][j]) * Agf(sqrt, so[i][j], so[i - 1][j], so[i + 1][j], so[i][j - 1], so[i][j + 1], dx, dy))
  }

  /** The field after one sweep: interior cells recomputed, the outer ring 0. */
  function Redistance(sqrt: real -> real, so: Field, soo: Field, dt: real, dx: real, dy: real, n: nat, m: nat): (r: Field)
    requires SqrtLaw(sqrt) && dx != 0.0 && dy != 0.0
    requires IsShape(so, n, m) && IsShape(soo, n, m) && NoPole(soo, n, m)
    ensures IsShape(r, n, m)
  {
    seq(n, i requires 0 <= i < n => seq(m, j requires 0 <= j < m =>
      if Interior(i, j, n, m) then RedistanceCell(sqrt, so, soo, dt, dx, dy, n, m, i, j) else 0.0))
  }

  /** Boundary rows and columns are 0 on return. */
  lemma RedistanceRingZero(sqrt: real -> real, so: Field, soo: Field, dt: real, dx: real, dy: real,
                           n: nat, m: nat, i: int, j: int)
    requires SqrtLaw(sqrt) && dx != 0.0 && dy != 0.0
    requires IsShape(so, n, m) && IsShape(soo, n, m) && NoPole(soo, n, m)
    requires 0 <= i < n && 0 <= j < m && !Interior(i, j, n, m)
    ensures Redistance(sqrt, so, soo, dt, dx, dy, n, m)[i][j] == 0.0
  {
  }

  /** A cell at a sign change of the reference takes the reference value, not the current iterate. */
  lemma RedistanceFrozen(sqrt: real -> real, so: Field, soo: Field, dt: real, dx: real, dy: real,
                         n: nat, m: nat, i: int, j: int)
    requires SqrtLaw(sqrt) && dx != 0.0 && dy != 0.0
    requires IsShape(so, n, m) && IsShape(soo, n, m) && NoPole(soo, n, m)
    requires Interior(i, j, n, m) && Frozen(soo, n, m, i, j)
    ensures Redistance(sqrt, so, soo, dt, dx, dy, n, m)[i][j] == soo[i][j]
  {
  }

  /** A cell off the sign changes that lies on the zero level of the iterate keeps its value. */
  lemma RedistanceZeroLevel(sqrt: real -> real, so: Field, soo: Field, dt: real, dx: real, dy: real,
                            n: nat, m: nat, i: int, j: int)
    requires SqrtLaw(sqrt) && dx != 0.0 && dy != 0.0
    requires IsShape(so, n, m) && IsShape(soo, n, m) && NoPole(soo, n, m)
    requires Interior(i, j, n, m) && !Frozen(soo, n, m, i, j) && so[i][j] == 0.0
    ensures Redistance(sqrt, so, soo, dt, dx, dy, n, m)[i][j] == so[i][j]
  {
  }

  /** The squared upwind gradient the sweep measures at a cell. */
  function GradientSq(so: Field, dx: real, dy: real, n: nat, m: nat, i: int, j: int): real
    requires dx != 0.0 && dy != 0.0 && IsShape(so, n, m) && Interior(i, j, n, m)
  {
    if so[i][j] > 0.0 then GodunovPlus(so[i][j], so[i - 1][j], so[i + 1][j], so[i][j - 1], so[i][j + 1], dx, dy)
    else GodunovMinus(so[i][j], so[i - 1][j], so[i + 1][j], so[i][j - 1], so[i][j + 1], dx, dy)
  }

  /** A cell off the sign changes whose upwind gradient has magnitude exactly 1 is already a distance and keeps its value. */
  lemma RedistanceUnitGradient(sqrt: real -> real, so: Field, soo: Field, dt: real, dx: real, dy: real,
                               n: nat, m: nat, i: int, j: int)
    requires SqrtLaw(sqrt) && dx != 0.0 && dy != 0.0
    requires IsShape(so, n, m) && IsShape(soo, n, m) && NoPole(soo, n, m)
    requires Interior(i, j, n, m) && !Frozen(soo, n, m, i, j) && GradientSq(so, dx, dy, n, m, i, j) == 1.0
    ensures Redistance(sqrt, so, soo, dt, dx, dy, n, m)[i][j] == so[i][j]
  {
    SqrtOfSquare(sqrt, 1.0);
  }

  /** One cell of the kernel's loop, read from the arrays. */
  method CellValue(sqrt: real -> real, so: array2<real>, soo: array2<real>, sgn: array2<real>,
                   dt: real, dx: real, dy: real, i: int, j: int, ghost S0: Field, ghost R0: Field) returns (x: real)
    requires SqrtLaw(sqrt) && dx != 0.0 && dy != 0.0
    requires soo.Length0 == so.Length0 && soo.Length1 == so.Length1
    requires sgn.Length0 == so.Length0 && sgn.Length1 == so.Length1
    requires IsShape(S0, so.Length0, so.Length1) && IsShape(R0, so.Length0, so.Length1)
    requires forall a, b :: 0 <= a < so.Length0 && 0 <= b < so.Length1 ==> so[a, b] == S0[a][b] && soo[a, b] == R0[a][b]
    requires Interior(i, j, so.Length0, so.Length1) && soo[i, j] + Eps != 0.0 && sgn[i, j] == Sgn(soo[i, j])
    ensures x == RedistanceCell(sqrt, S0, R0, dt, dx, dy, so.Length0, so.Length1, i, j)
  {
    if soo[i, j] * soo[i - 1, j] < 0.0 || soo[i, j] * soo[i + 1, j] < 0.0 ||
       soo[i, j] * soo[i, j - 1] < 0.0 || soo[i, j] * soo[i, j + 1] < 0.0 {
      x := soo[i, j];
    } else {
      var agf := Agf(sqrt, so[i, j], so[i - 1, j], so[i + 1, j], so[i, j - 1], so[i, j + 1], dx, dy);
      x := so[i, j] - dt * (sgn[i, j] * agf);
    }
  }

  /**
   * `T` holds the result of one sweep, stated cell by cell; the interior
   * clause is instantiated only where a cell value is computed.
   */
  ghost predicate Target(T: Field, sqrt: real -> real, so: Field, soo: Field, dt: real, dx: real, dy: real, n: nat, m: nat)
    requires SqrtLaw(sqrt) && dx != 0.0 && dy != 0.0
    requires IsShape(so, n, m) && IsShape(soo, n, m) && NoPole(soo, n, m)
  {
    IsShape(T, n, m) &&
    (forall a, b {:trigger RedistanceCell(sqrt, so, soo, dt, dx, dy, n, m, a, b)} ::
       Interior(a, b, n, m) ==> T[a][b] == RedistanceCell(sqrt, so, soo, dt, dx, dy, n, m, a, b)) &&
    (forall a, b :: 0 <= a < n && 0 <= b < m && !Interior(a, b, n, m) ==> T[a][b] == 0.0)
  }

  lemma RedistanceIsTarget(sqrt: real -> real, so: Field, soo: Field, dt: real, dx: real, dy: real, n: nat, m: nat)
    requires SqrtLaw(sqrt) && dx != 0.0 && dy != 0.0
    requires IsShape(so, n, m) && IsShape(soo, n, m) && NoPole(soo, n, m)
    ensures Target(Redistance(sqrt, so, soo, dt, dx, dy, n, m), sqrt, so, soo, dt, dx, dy, n, m)
  {
  }

  /** The zeroing and the interior loops of the kernel, writing the cells of `T` into `s`. */
  method SweepLoops(sqrt: real -> real, s: array2<real>, so: array2<real>, soo: array2<real>, sgn: array2<real>,
                    dt: real, dx: real, dy: real, ghost S0: Field, ghost R0: Field, ghost T: Field)
    requires SqrtLaw(sqrt) && dx != 0.0 && dy != 0.0
    requires so.Length0 == s.Length0 && so.Length1 == s.Length1 && soo.Length0 == s.Length0 && soo.Length1 == s.Length1
    requires sgn.Length0 == s.Length0 && sgn.Length1 == s.Length1
    requires s != so && s != soo && s != sgn
    requires IsShape(S0, s.Length0, s.Length1) && IsShape(R0, s.Length0, s.Length1) && NoPole(R0, s.Length0, s.Length1)
    requires forall a, b :: 0 <= a < s.Length0 && 0 <= b < s.Length1 ==> so[a, b] == S0[a][b] && soo[a, b] == R0[a][b]
    requires forall i, j :: 0 <= i < s.Length0 && 0 <= j < s.Length1 ==> sgn[i, j] == Sgn(soo[i, j])
    requires Target(T, sqrt, S0, R0, dt, dx, dy, s.Length0, s.Length1)
    modifies s
    ensures Snapshot(s) == T
  {
    var n, m := s.Length0, s.Length1;
    ZeroFill(s);
    var i := 1;
    while i < n - 1
      invariant 1 <= i && (n >= 2 ==> i <= n - 1)
      invariant forall a, b :: 0 <= a < n && 0 <= b < m ==>
        s[a, b] == if Interior(a, b, n, m) && a < i then T[a][b] else 0.0
      modifies s
    {
      var j := 1;
      while j < m - 1
        invariant 1 <= j && (m >= 2 ==> j <= m - 1)
        invariant forall a, b :: 0 <= a < n && 0 <= b < m ==>
          s[a, b] == if Interior(a, b, n, m) && (a < i || (a == i && b < j)) then T[a][b] else 0.0
        modifies s
      {
        s[i, j] := CellValue(sqrt, so, soo, sgn, dt, dx, dy, i, j, S0, R0);
        j := j + 1;
      }
      i := i + 1;
    }
    FieldExt(Snapshot(s), T, n, m);
  }

  /** `redistance_solid(s, soo, dt, dx, dy, nx, ny)`. */
  method RedistanceSolid(sqrt: real -> real, s: array2<real>, soo: array2<real>, dt: real, dx: real, dy: real)
    requires SqrtLaw(sqrt) && dx != 0.0 && dy != 0.0
    requires soo.Length0 == s.Length0 && soo.Length1 == s.Length1 && soo != s
    requires forall i, j :: 0 <= i < soo.Length0 && 0 <= j < soo.Length1 ==> soo[i, j] + Eps != 0.0
    modifies s
    ensures Snapshot(s) == Redistance(sqrt, old(Snapshot(s)), Snapshot(soo), dt, dx, dy, s.Length0, s.Length1)
  {
    var n, m := s.Length0, s.Length1;
    var sgn := new real[n, m]((i, j) reads soo =>
      if 0 <= i < soo.Length0 && 0 <= j < soo.Length1 && soo[i, j] + Eps != 0.0 then Sgn(soo[i, j]) else 0.0);
    var so := CopyOf(s);
    RedistanceIsTarget(sqrt, Snapshot(so), Snapshot(soo), dt, dx, dy, n, m);
    SweepLoops(sqrt, s, so, soo, sgn, dt, dx, dy, Snapshot(so), Snapshot(soo), Redistance(sqrt, Snapshot(so), Snapshot(soo), dt, dx, dy, n, m));
  }
}
