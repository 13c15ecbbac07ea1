/**
 * The rigid-body forcing of the immersed boundary: the cell-centred level
 * set `ibc` is averaged onto the x faces (`(ibc[:, :-1] + ibc[:, 1:]) / 2`)
 * and the y faces (`(ibc[:-1, :] + ibc[1:, :]) / 2`); every face whose
 * average is `>= 0` (inside the body) is assigned the particle's velocity
 * component, once per particle.
 */
module RigidForcing {
  import opened Fields

  /** A particle's velocity `(vel[0, 0], vel[0, 1])`. */
  datatype Velocity = Velocity(u: real, v: real)

  /** The number of faces between `k` cells in a line (0 for no cells, as numpy's `[:-1]` of an empty axis). */
  function Faces(k: nat): nat {
    if k == 0 then 0 else k - 1
  }

  /** The level set on the face between two cells. */
  function FaceAverage(a: real, b: real): real {
    (a + b) / 2.0
  }

  /** The face value lies between its two cells, so it is inside when both cells are and outside when neither is. */
  lemma FaceAverageBetween(a: real, b: real)
    ensures Min(a, b) <= FaceAverage(a, b) <= Max(a, b)
    ensures FaceAverage(a, b) >= 0.0 <==> a + b >= 0.0
    ensures a >= 0.0 && b >= 0.0 ==> FaceAverage(a, b) >= 0.0
    ensures a < 0.0 && b < 0.0 ==> FaceAverage(a, b) < 0.0
  {
  }

  /** `ibx` (`xface`) or `iby`: the face averages of the `R` by `C` field `ibc` along axis 1 or axis 0. */
  function FaceLevels(ibc: Field, R: nat, C: nat, xface: bool): (f: Field)
    requires IsShape(ibc, R, C)
    ensures xface ==> IsShape(f, R, Faces(C))
    ensures !xface ==> IsShape(f, Faces(R), C)
    ensures xface ==> forall i, j :: 0 <= i < R && 0 <= j < Faces(C) ==> f[i][j] == FaceAverage(ibc[i][j], ibc[i][j + 1])
    ensures !xface ==> forall i, j :: 0 <= i < Faces(R) && 0 <= j < C ==> f[i][j] == FaceAverage(ibc[i][j], ibc[i + 1][j])
  {
    if xface then
      seq(R, i requires 0 <= i < R => seq(Faces(C), j requires 0 <= j < Faces(C) => FaceAverage(ibc[i][j], ibc[i][j + 1])))
    else
      seq(Faces(R), i requires 0 <= i < Faces(R) => seq(C, j requires 0 <= j < C => FaceAverage(ibc[i][j], ibc[i + 1][j])))
  }

  /** `numpy.where(ib >= 0)`: the faces of the `p` by `q` face field `ib` that lie in the body. */
  predicate InBody(ib: Field, p: nat, q: nat, i: int, j: int)
    requires IsShape(ib, p, q)
  {
    0 <= i < p && 0 <= j < q && ib[i][j] >= 0.0
  }

  /** `u[numpy.where(ib >= 0)] = val` on the `n` by `m` field `u`. */
  function Impose(u: Field, n: nat, m: nat, ib: Field, p: nat, q: nat, val: real): (r: Field)
    requires IsShape(u, n, m) && IsShape(ib, p, q) && p <= n && q <= m
    ensures IsShape(r, n, m)
  {
    seq(n, i requires 0 <= i < n => seq(m, j requires 0 <= j < m => if InBody(ib, p, q, i, j) then val else u[i][j]))
  }

  /** A face in the body takes exactly `val`; every other entry keeps its value. */
  lemma ImposeCells(u: Field, n: nat, m: nat, ib: Field, p: nat, q: nat, val: real, i: int, j: int)
    requires IsShape(u, n, m) && IsShape(ib, p, q) && p <= n && q <= m
    requires 0 <= i < n && 0 <= j < m
    ensures InBody(ib, p, q, i, j) ==> Impose(u, n, m, ib, p, q, val)[i][j] == val
    ensures !InBody(ib, p, q, i, j) ==> Impose(u, n, m, ib, p, q, val)[i][j] == u[i][j]
  {
  }

  /** A second assignment over the same faces overwrites the first: the last particle wins. */
  lemma ImposeOverwrites(u: Field, n: nat, m: nat, ib: Field, p: nat, q: nat, a: real, b: real)
    requires IsShape(u, n, m) && IsShape(ib, p, q) && p <= n && q <= m
    ensures Impose(Impose(u, n, m, ib, p, q, a), n, m, ib, p, q, b) == Impose(u, n, m, ib, p, q, b)
  {
    FieldExt(Impose(Impose(u, n, m, ib, p, q, a), n, m, ib, p, q, b), Impose(u, n, m, ib, p, q, b), n, m);
  }

  /** Assigning the same value twice is assigning it once. */
  lemma ImposeIdempotent(u: Field, n: nat, m: nat, ib: Field, p: nat, q: nat, a: real)
    requires IsShape(u, n, m) && IsShape(ib, p, q) && p <= n && q <= m
    ensures Impose(Impose(u, n, m, ib, p, q, a), n, m, ib, p, q, a) == Impose(u, n, m, ib, p, q, a)
  {
    ImposeOverwrites(u, n, m, ib, p, q, a, a);
  }

  /** What `force_flow` leaves in a face field: the last particle's component on the body faces, or the field itself without particles. */
  function Forced(u: Field, n: nat, m: nat, ib: Field, p: nat, q: nat, vals: seq<real>): (r: Field)
    requires IsShape(u, n, m) && IsShape(ib, p, q) && p <= n && q <= m
    ensures IsShape(r, n, m)
  {
    if |vals| == 0 then u else Impose(u, n, m, ib, p, q, vals[|vals| - 1])
  }

  /** The particle loop: assigning the components one after the other is `Forced`. */
  lemma {:induction false} ForcedStep(u: Field, n: nat, m: nat, ib: Field, p: nat, q: nat, vals: seq<real>, val: real)
    requires IsShape(u, n, m) && IsShape(ib, p, q) && p <= n && q <= m
    ensures Impose(Forced(u, n, m, ib, p, q, vals), n, m, ib, p, q, val) == Forced(u, n, m, ib, p, q, vals + [val])
  {
    if |vals| > 0 {
      ImposeOverwrites(u, n, m, ib, p, q, vals[|vals| - 1], val);
    }
  }

  /** Forcing a forced field again with the same particles changes nothing. */
  lemma ForcedIdempotent(u: Field, n: nat, m: nat, ib: Field, p: nat, q: nat, vals: seq<real>)
    requires IsShape(u, n, m) && IsShape(ib, p, q) && p <= n && q <= m
    ensures Forced(Forced(u, n, m, ib, p, q, vals), n, m, ib, p, q, vals) == Forced(u, n, m, ib, p, q, vals)
  {
    if |vals| > 0 {
      ImposeIdempotent(u, n, m, ib, p, q, vals[|vals| - 1]);
    }
  }

  function UComponents(vels: seq<Velocity>): (r: seq<real>)
    ensures |r| == |vels| && forall k :: 0 <= k < |vels| ==> r[k] == vels[k].u
  {
    seq(|vels|, k requires 0 <= k < |vels| => vels[k].u)
  }

  function VComponents(vels: seq<Velocity>): (r: seq<real>)
    ensures |r| == |vels| && forall k :: 0 <= k < |vels| ==> r[k] == vels[k].v
  {
    seq(|vels|, k requires 0 <= k < |vels| => vels[k].v)
  }

  /** One face average of `ibc`, read from the array. */
  function FaceAt(ibc: array2<real>, xface: bool, i: int, j: int): (r: real)
    requires xface ==> 0 <= i < ibc.Length0 && 0 <= j < Faces(ibc.Length1)
    requires !xface ==> 0 <= i < Faces(ibc.Length0) && 0 <= j < ibc.Length1
    reads ibc
    ensures r == FaceLevels(Snapshot(ibc), ibc.Length0, ibc.Length1, xface)[i][j]
  {
    if xface then FaceAverage(ibc[i, j], ibc[i, j + 1]) else FaceAverage(ibc[i, j], ibc[i + 1, j])
  }

  /** `ibx = (ibc[:, :-1] + ibc[:, 1:]) / 2.0` or `iby = (ibc[:-1, :] + ibc[1:, :]) / 2.0`, a fresh array. */
  method FaceLevelsOf(ibc: array2<real>, xface: bool) returns (ib: array2<real>)
    ensures fresh(ib)
    ensures xface ==> ib.Length0 == ibc.Length0 && ib.Length1 == Faces(ibc.Length1)
    ensures !xface ==> ib.Length0 == Faces(ibc.Length0) && ib.Length1 == ibc.Length1
    ensures Snapshot(ib) == FaceLevels(Snapshot(ibc), ibc.Length0, ibc.Length1, xface)
  {
    var p, q := if xface then ibc.Length0 else Faces(ibc.Length0), if xface then Faces(ibc.Length1) else ibc.Length1;
    ib := new real[p, q]((i, j) reads ibc =>
      if 0 <= i < p && 0 <= j < q then FaceAt(ibc, xface, i, j) else 0.0);
    FieldExt(Snapshot(ib), FaceLevels(Snapshot(ibc), ibc.Length0, ibc.Length1, xface), p, q);
  }

  /** `u[numpy.where(ib >= 0.0)] = val`, in place. */
  method ImposeInPlace(u: array2<real>, ib: array2<real>, val: real)
    requires u != ib && ib.Length0 <= u.Length0 && ib.Length1 <= u.Length1
    modifies u
    ensures Snapshot(u) == Impose(old(Snapshot(u)), u.Length0, u.Length1, Snapshot(ib), ib.Length0, ib.Length1, val)
  {
    ghost var U0 := Snapshot(u);
    ghost var B := Snapshot(ib);
    var p, q := ib.Length0, ib.Length1;
    for i := 0 to u.Length0
      invariant forall a, b :: 0 <= a < u.Length0 && 0 <= b < u.Length1 ==>
        u[a, b] == (if a < i && InBody(B, p, q, a, b) then val else U0[a][b])
    {
      for j := 0 to u.Length1
        invariant forall a, b :: 0 <= a < u.Length0 && 0 <= b < u.Length1 ==>
          u[a, b] == (if (a < i || (a == i && b < j)) && InBody(B, p, q, a, b) then val else U0[a][b])
      {
        if i < p && j < q && ib[i, j] >= 0.0 {
          u[i, j] := val;
        }
      }
    }
    FieldExt(Snapshot(u), Impose(U0, u.Length0, u.Length1, B, p, q, val), u.Length0, u.Length1);
  }

  /**
   * `force_flow` of the rigid bodies: the face levels are taken from `ibc`
   * once, then each particle in turn assigns its velocity components to the
   * faces in the body; `ibc` is only read.
   */
  method ForceFlowRigid(u: array2<real>, v: array2<real>, ibc: array2<real>, vels: seq<Velocity>)
    requires u != v && u != ibc && v != ibc
    requires ibc.Length0 <= u.Length0 && Faces(ibc.Length1) <= u.Length1
    requires Faces(ibc.Length0) <= v.Length0 && ibc.Length1 <= v.Length1
    modifies u, v
    ensures Snapshot(u) == Forced(old(Snapshot(u)), u.Length0, u.Length1,
                                  FaceLevels(Snapshot(ibc), ibc.Length0, ibc.Length1, true), ibc.Length0, Faces(ibc.Length1), UComponents(vels))
    ensures Snapshot(v) == Forced(old(Snapshot(v)), v.Length0, v.Length1,
                                  FaceLevels(Snapshot(ibc), ibc.Length0, ibc.Length1, false), Faces(ibc.Length0), ibc.Length1, VComponents(vels))
  {
    ghost var U0, V0 := Snapshot(u), Snapshot(v);
    var ibx := FaceLevelsOf(ibc, true);
    var iby := FaceLevelsOf(ibc, false);
    ghost var BX, BY := Snapshot(ibx), Snapshot(iby);
    for k := 0 to |vels|
      invariant Snapshot(ibx) == BX && Snapshot(iby) == BY
      invariant Snapshot(u) == Forced(U0, u.Length0, u.Length1, BX, ibx.Length0, ibx.Length1, UComponents(vels[..k]))
      invariant Snapshot(v) == Forced(V0, v.Length0, v.Length1, BY, iby.Length0, iby.Length1, VComponents(vels[..k]))
    {
      ForcedStep(U0, u.Length0, u.Length1, BX, ibx.Length0, ibx.Length1, UComponents(vels[..k]), vels[k].u);
      ForcedStep(V0, v.Length0, v.Length1, BY, iby.Length0, iby.Length1, VComponents(vels[..k]), vels[k].v);
      assert UComponents(vels[..k]) + [vels[k].u] == UComponents(vels[..k + 1]);
      assert VComponents(vels[..k]) + [vels[k].v] == VComponents(vels[..k + 1]);
      ImposeInPlace(u, ibx, vels[k].u);
      ImposeInPlace(v, iby, vels[k].v);
    }
    assert vels[..|vels|] == vels;
  }
}
