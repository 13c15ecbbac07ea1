/**
 * Third-order WENO advection of a level-set field on the cell-centred grid
 * (the current kernel used by the viscoelastic interface).
 *
 * The field is padded with two extra layers on every side by linear
 * extrapolation, the face velocities and the 0/1 mask are padded with zeros,
 * a sweep over the padded interior replaces each cell with its upwind
 * flux-difference update computed from a copy of the padded field taken
 * before the sweep, and the original index range is copied back.
 */
module Weno3 {
  import opened Fields

  /** `eps` of the nonlinear weights. */
  const Eps: real := 0.000000000000001

  // ---------------------------------------------------------------------
  // One face value from a five-point window.

  /** Smoothness indicators of the three three-point sub-stencils of s1..s5. */
  function Beta1(s1: real, s2: real, s3: real): (b: real)
    ensures b >= 0.0
  {
    13.0 / 12.0 * Sq(s1 - 2.0 * s2 + s3) + 1.0 / 4.0 * Sq(s1 - 4.0 * s2 + 3.0 * s3)
  }

  function Beta2(s2: real, s3: real, s4: real): (b: real)
    ensures b >= 0.0
  {
    13.0 / 12.0 * Sq(s2 - 2.0 * s3 + s4) + 1.0 / 4.0 * Sq(s2 - s4)
  }

  function Beta3(s3: real, s4: real, s5: real): (b: real)
    ensures b >= 0.0
  {
    13.0 / 12.0 * Sq(s3 - 2.0 * s4 + s5) + 1.0 / 4.0 * Sq(3.0 * s3 - 4.0 * s4 + s5)
  }

  /** Unnormalised weight `d / (eps + beta)^2` of one sub-stencil. */
  function Alpha(d: real, b: real): (t: real)
    requires d > 0.0 && b >= 0.0
    ensures t > 0.0
  {
    PositiveProduct(Eps + b, Eps + b);
    d / ((Eps + b) * (Eps + b))
  }

  datatype Weights = Weights(w1: real, w2: real, w3: real)

  predicate Convex(w: Weights) {
    w.w1 >= 0.0 && w.w2 >= 0.0 && w.w3 >= 0.0 && w.w1 + w.w2 + w.w3 == 1.0
  }

  /** Each of three positive numbers divided by their sum. */
  function Normalise(t1: real, t2: real, t3: real): (w: Weights)
    requires t1 > 0.0 && t2 > 0.0 && t3 > 0.0
    ensures Convex(w)
  {
    var t := t1 + t2 + t3;
    assert t1 / t + t2 / t + t3 / t == (t1 + t2 + t3) / t;
    Weights(t1 / t, t2 / t, t3 / t)
  }

  /**
   * The normalised nonlinear weights for linear weights (1/10, 6/10, 3/10)
   * when the face velocity is positive and (3/10, 6/10, 1/10) otherwise:
   * they form a convex combination.
   */
  function NonlinearWeights(pos: bool, b1: real, b2: real, b3: real): (w: Weights)
    requires b1 >= 0.0 && b2 >= 0.0 && b3 >= 0.0
    ensures Convex(w)
  {
    if pos then Normalise(Alpha(1.0 / 10.0, b1), Alpha(6.0 / 10.0, b2), Alpha(3.0 / 10.0, b3))
    else Normalise(Alpha(3.0 / 10.0, b1), Alpha(6.0 / 10.0, b2), Alpha(1.0 / 10.0, b3))
  }

  datatype Candidates = Candidates(c1: real, c2: real, c3: real)

  /** The three second-order candidate face values. */
  function CandidateValues(pos: bool, s1: real, s2: real, s3: real, s4: real, s5: real): Candidates {
    if pos then
      Candidates(2.0 / 6.0 * s1 - 7.0 / 6.0 * s2 + 11.0 / 6.0 * s3,
                 -1.0 / 6.0 * s2 + 5.0 / 6.0 * s3 + 2.0 / 6.0 * s4,
                 2.0 / 6.0 * s3 + 5.0 / 6.0 * s4 - 1.0 / 6.0 * s5)
    else
      Candidates(-1.0 / 6.0 * s1 + 5.0 / 6.0 * s2 + 2.0 / 6.0 * s3,
                 2.0 / 6.0 * s2 + 5.0 / 6.0 * s3 - 1.0 / 6.0 * s4,
                 11.0 / 6.0 * s3 - 7.0 / 6.0 * s4 + 2.0 / 6.0 * s5)
  }

  /** `w1 * f1 + w2 * f2 + w3 * f3`. */
  function Blend(w: Weights, c: Candidates): real {
    w.w1 * c.c1 + w.w2 * c.c2 + w.w3 * c.c3
  }

  /** The WENO3 face value of the window s1..s5. */
  function Reconstruct(pos: bool, s1: real, s2: real, s3: real, s4: real, s5: real): real {
    Blend(NonlinearWeights(pos, Beta1(s1, s2, s3), Beta2(s2, s3, s4), Beta3(s3, s4, s5)),
          CandidateValues(pos, s1, s2, s3, s4, s5))
  }

  function Min3(a: real, b: real, c: real): real { Min(a, Min(b, c)) }
  function Max3(a: real, b: real, c: real): real { Max(a, Max(b, c)) }

  lemma WeightedBelow(w1: real, w2: real, w3: real, x1: real, x2: real, x3: real, y1: real, y2: real, y3: real)
    requires w1 >= 0.0 && w2 >= 0.0 && w3 >= 0.0
    requires x1 <= y1 && x2 <= y2 && x3 <= y3
    ensures w1 * x1 + w2 * x2 + w3 * x3 <= w1 * y1 + w2 * y2 + w3 * y3
  {
    ScaleMonotone(w1, x1, y1);
    ScaleMonotone(w2, x2, y2);
    ScaleMonotone(w3, x3, y3);
  }

  lemma WeightedConstant(w1: real, w2: real, w3: real, c: real)
    requires w1 + w2 + w3 == 1.0
    ensures w1 * c + w2 * c + w3 * c == c
  {
    assert w1 * c + w2 * c + w3 * c == (w1 + w2 + w3) * c;
  }

  /** A convex blend lies between the smallest and the largest candidate. */
  lemma BlendBounds(w: Weights, c: Candidates)
    requires Convex(w)
    ensures Min3(c.c1, c.c2, c.c3) <= Blend(w, c) <= Max3(c.c1, c.c2, c.c3)
  {
    var lo, hi := Min3(c.c1, c.c2, c.c3), Max3(c.c1, c.c2, c.c3);
    WeightedBelow(w.w1, w.w2, w.w3, lo, lo, lo, c.c1, c.c2, c.c3);
    WeightedBelow(w.w1, w.w2, w.w3, c.c1, c.c2, c.c3, hi, hi, hi);
    WeightedConstant(w.w1, w.w2, w.w3, lo);
    WeightedConstant(w.w1, w.w2, w.w3, hi);
  }

  /** A convex blend of equal candidates is that candidate. */
  lemma BlendEqual(w: Weights, f: real)
    requires Convex(w)
    ensures Blend(w, Candidates(f, f, f)) == f
  {
    WeightedConstant(w.w1, w.w2, w.w3, f);
  }

  /** Reversing both the weights and the candidates leaves the blend unchanged. */
  lemma BlendReverse(w: Weights, c: Candidates)
    ensures Blend(Weights(w.w3, w.w2, w.w1), Candidates(c.c3, c.c2, c.c1)) == Blend(w, c)
  {
  }

  /** Every face value lies between the smallest and the largest candidate. */
  lemma ReconstructBetweenCandidates(pos: bool, s1: real, s2: real, s3: real, s4: real, s5: real)
    ensures var c := CandidateValues(pos, s1, s2, s3, s4, s5);
      Min3(c.c1, c.c2, c.c3) <= Reconstruct(pos, s1, s2, s3, s4, s5) <= Max3(c.c1, c.c2, c.c3)
  {
    BlendBounds(NonlinearWeights(pos, Beta1(s1, s2, s3), Beta2(s2, s3, s4), Beta3(s3, s4, s5)),
                CandidateValues(pos, s1, s2, s3, s4, s5));
  }

  /**
   * Each candidate is exact for data linear in the index, so the face value
   * of such data is the midpoint of the two cells beside the face: s3 and s4
   * for a positive velocity, s2 and s3 otherwise. Constants are the case h == 0.
   */
  lemma ReconstructLinear(pos: bool, a: real, h: real)
    ensures Reconstruct(pos, a, a + h, a + 2.0 * h, a + 3.0 * h, a + 4.0 * h)
      == if pos then a + 2.5 * h else a + 1.5 * h
  {
    var s1, s2, s3, s4, s5 := a, a + h, a + 2.0 * h, a + 3.0 * h, a + 4.0 * h;
    var f := if pos then a + 2.5 * h else a + 1.5 * h;
    assert CandidateValues(pos, s1, s2, s3, s4, s5) == Candidates(f, f, f);
    BlendEqual(NonlinearWeights(pos, Beta1(s1, s2, s3), Beta2(s2, s3, s4), Beta3(s3, s4, s5)), f);
  }

  /** A constant window reconstructs to the constant. */
  lemma ReconstructConstant(pos: bool, c: real)
    ensures Reconstruct(pos, c, c, c, c, c) == c
  {
    ReconstructLinear(pos, c, 0.0);
  }

  lemma SqNegate(x: real)
    ensures Sq(-x) == Sq(x)
  {
  }

  /** Mirroring the window exchanges the outer smoothness indicators. */
  lemma BetaMirror(s1: real, s2: real, s3: real, s4: real, s5: real)
    ensures Beta1(s5, s4, s3) == Beta3(s3, s4, s5)
    ensures Beta2(s4, s3, s2) == Beta2(s2, s3, s4)
    ensures Beta3(s3, s2, s1) == Beta1(s1, s2, s3)
  {
    assert s5 - 2.0 * s4 + s3 == s3 - 2.0 * s4 + s5;
    assert s5 - 4.0 * s4 + 3.0 * s3 == 3.0 * s3 - 4.0 * s4 + s5;
    assert s4 - 2.0 * s3 + s2 == s2 - 2.0 * s3 + s4;
    SqNegate(s2 - s4);
    assert s4 - s2 == -(s2 - s4);
    assert s3 - 2.0 * s2 + s1 == s1 - 2.0 * s2 + s3;
    assert 3.0 * s3 - 4.0 * s2 + s1 == s1 - 4.0 * s2 + 3.0 * s3;
  }

  /** Normalising in reverse order gives the weights in reverse order. */
  lemma NormaliseReverse(t1: real, t2: real, t3: real)
    requires t1 > 0.0 && t2 > 0.0 && t3 > 0.0
    ensures var w := Normalise(t1, t2, t3); Normalise(t3, t2, t1) == Weights(w.w3, w.w2, w.w1)
  {
    assert t3 + t2 + t1 == t1 + t2 + t3;
  }

  /** The negative-velocity weights are the positive-velocity weights of the mirrored indicators, reversed. */
  lemma WeightsMirror(b1: real, b2: real, b3: real)
    requires b1 >= 0.0 && b2 >= 0.0 && b3 >= 0.0
    ensures var w := NonlinearWeights(false, b1, b2, b3);
      NonlinearWeights(true, b3, b2, b1) == Weights(w.w3, w.w2, w.w1)
  {
    NormaliseReverse(Alpha(3.0 / 10.0, b1), Alpha(6.0 / 10.0, b2), Alpha(1.0 / 10.0, b3));
  }

  /** The negative-velocity branch is the positive branch applied to the mirrored window. */
  lemma ReconstructMirror(s1: real, s2: real, s3: real, s4: real, s5: real)
    ensures Reconstruct(false, s1, s2, s3, s4, s5) == Reconstruct(true, s5, s4, s3, s2, s1)
  {
    BetaMirror(s1, s2, s3, s4, s5);
    var b1, b2, b3 := Beta1(s1, s2, s3), Beta2(s2, s3, s4), Beta3(s3, s4, s5);
    var w := NonlinearWeights(false, b1, b2, b3);
    WeightsMirror(b1, b2, b3);
    var c := CandidateValues(false, s1, s2, s3, s4, s5);
    assert CandidateValues(true, s5, s4, s3, s2, s1) == Candidates(c.c3, c.c2, c.c1);
    BlendReverse(w, c);
  }

  // ---------------------------------------------------------------------
  // Face values of a cell, with the upwind choice of the window.

  /**
   * A face formula: the value at a face for the velocity sign `pos` and the
   * five-point window s1..s5. The kernel uses `Reconstruct`; the structure of
   * the sweep stated below holds whatever the formula.
   */
  type Recon = (bool, real, real, real, real, real) -> real

  /** The formula returns `c` on a constant window. */
  ghost predicate ExactOnConstants(recon: Recon) {
    forall pos, c :: recon(pos, c, c, c, c, c) == c
  }

  lemma ReconstructExactOnConstants()
    ensures ExactOnConstants(Reconstruct)
  {
    forall pos, c ensures Reconstruct(pos, c, c, c, c, c) == c {
      ReconstructConstant(pos, c);
    }
  }

  /** Value at the face between rows i and i+1 (frx) for face velocity `vel`. */
  function RightX(recon: Recon, so: Field, N: nat, M: nat, i: int, j: int, vel: real): real
    requires IsShape(so, N, M) && 2 <= i && i + 3 < N && 0 <= j < M
  {
    if vel > 0.0 then recon(true, so[i - 2][j], so[i - 1][j], so[i][j], so[i + 1][j], so[i + 2][j])
    else recon(false, so[i - 1][j], so[i][j], so[i + 1][j], so[i + 2][j], so[i + 3][j])
  }

  /** Value at the face between rows i-1 and i (flx). */
  function LeftX(recon: Recon, so: Field, N: nat, M: nat, i: int, j: int, vel: real): real
    requires IsShape(so, N, M) && 3 <= i && i + 2 < N && 0 <= j < M
  {
    if vel > 0.0 then recon(true, so[i - 3][j], so[i - 2][j], so[i - 1][j], so[i][j], so[i + 1][j])
    else recon(false, so[i - 2][j], so[i - 1][j], so[i][j], so[i + 1][j], so[i + 2][j])
  }

  /** Value at the face between columns j and j+1 (fry). */
  function RightY(recon: Recon, so: Field, N: nat, M: nat, i: int, j: int, vel: real): real
    requires IsShape(so, N, M) && 0 <= i < N && 2 <= j && j + 3 < M
  {
    if vel > 0.0 then recon(true, so[i][j - 2], so[i][j - 1], so[i][j], so[i][j + 1], so[i][j + 2])
    else recon(false, so[i][j - 1], so[i][j], so[i][j + 1], so[i][j + 2], so[i][j + 3])
  }

  /** Value at the face between columns j-1 and j (fly). */
  function LeftY(recon: Recon, so: Field, N: nat, M: nat, i: int, j: int, vel: real): real
    requires IsShape(so, N, M) && 0 <= i < N && 3 <= j && j + 2 < M
  {
    if vel > 0.0 then recon(true, so[i][j - 3], so[i][j - 2], so[i][j - 1], so[i][j], so[i][j + 1])
    else recon(false, so[i][j - 2], so[i][j - 1], so[i][j], so[i][j + 1], so[i][j + 2])
  }

  /**
   * The left face of a cell gets the same value as the right face of the
   * cell before it under the same face velocity, so the update is in
   * flux-difference form.
   */
  lemma FaceValuesShared(recon: Recon, so: Field, N: nat, M: nat, i: int, j: int, vel: real)
    requires IsShape(so, N, M) && 3 <= i && i + 2 < N && 3 <= j && j + 2 < M
    ensures LeftX(recon, so, N, M, i, j, vel) == RightX(recon, so, N, M, i - 1, j, vel)
    ensures LeftY(recon, so, N, M, i, j, vel) == RightY(recon, so, N, M, i, j - 1, vel)
  {
  }

  /**
   * Upwinding: a positive velocity reads rows i-2..i+2 only, any other
   * velocity (zero included) rows i-1..i+3 only.
   */
  lemma RightXWindow(recon: Recon, f: Field, g: Field, N: nat, M: nat, i: int, j: int, vel: real)
    requires IsShape(f, N, M) && IsShape(g, N, M) && 2 <= i && i + 3 < N && 0 <= j < M
    requires vel > 0.0 ==> forall k :: i - 2 <= k <= i + 2 ==> f[k][j] == g[k][j]
    requires vel <= 0.0 ==> forall k :: i - 1 <= k <= i + 3 ==> f[k][j] == g[k][j]
    ensures RightX(recon, f, N, M, i, j, vel) == RightX(recon, g, N, M, i, j, vel)
  {
    if vel > 0.0 {
      assert f[i - 2][j] == g[i - 2][j] && f[i - 1][j] == g[i - 1][j] && f[i][j] == g[i][j];
      assert f[i + 1][j] == g[i + 1][j] && f[i + 2][j] == g[i + 2][j];
    } else {
      assert f[i - 1][j] == g[i - 1][j] && f[i][j] == g[i][j] && f[i + 1][j] == g[i + 1][j];
      assert f[i + 2][j] == g[i + 2][j] && f[i + 3][j] == g[i + 3][j];
    }
  }

  // ---------------------------------------------------------------------
  // The sweep over the padded field.

  /** Shapes of the padded field, mask and face velocities. */
  predicate PaddedShapes(so: Field, p: Mat<int>, u: Field, v: Field, N: nat, M: nat) {
    N >= 7 && M >= 7 && IsShape(so, N, M) && IsShape(p, N, M) && IsShape(u, N - 1, M) && IsShape(v, N, M - 1)
  }

  /**
   * The conservative update of a cell of value `c` and mask `pf` from its
   * four face values and face velocities.
   */
  function FluxUpdate(c: real, pf: real, frx: real, flx: real, fry: real, fly: real,
                      ul: real, ur: real, vl: real, vr: real, dt: real, dx: real, dy: real): real
    requires dx != 0.0 && dy != 0.0
  {
    c - dt * pf * (frx * ur - flx * ul) / dx - dt * pf * (fry * vr - fly * vl) / dy
  }

  /** The update of one padded interior cell from the pre-sweep copy `so`. */
  function CellUpdate(recon: Recon, so: Field, p: Mat<int>, u: Field, v: Field, dt: real, dx: real, dy: real,
                      N: nat, M: nat, i: int, j: int): real
    requires PaddedShapes(so, p, u, v, N, M) && dx != 0.0 && dy != 0.0
    requires 3 <= i < N - 3 && 3 <= j < M - 3
  {
    var ul, ur, vl, vr := u[i - 1][j], u[i][j], v[i][j - 1], v[i][j];
    FluxUpdate(so[i][j], p[i][j] as real,
               RightX(recon, so, N, M, i, j, ur), LeftX(recon, so, N, M, i, j, ul),
               RightY(recon, so, N, M, i, j, vr), LeftY(recon, so, N, M, i, j, vl),
               ul, ur, vl, vr, dt, dx, dy)
  }

  /** Whether a padded cell is one the sweep updates. */
  predicate Swept(N: nat, M: nat, a: int, b: int) {
    3 <= a < N - 3 && 3 <= b < M - 3
  }

  /** The sweep: cells 3..N-4 by 3..M-4 updated, everything else kept. */
  function Sweep(recon: Recon, so: Field, p: Mat<int>, u: Field, v: Field, dt: real, dx: real, dy: real, N: nat, M: nat): (r: Field)
    requires PaddedShapes(so, p, u, v, N, M) && dx != 0.0 && dy != 0.0
    ensures IsShape(r, N, M)
  {
    seq(N, i requires 0 <= i < N => seq(M, j requires 0 <= j < M =>
      if Swept(N, M, i, j) then CellUpdate(recon, so, p, u, v, dt, dx, dy, N, M, i, j) else so[i][j]))
  }

  /** `frx` computed from the array. */
  method FaceRightX(recon: Recon, so: array2<real>, i: int, j: int, vel: real) returns (f: real)
    requires 2 <= i && i + 3 < so.Length0 && 0 <= j < so.Length1
    ensures f == RightX(recon, Snapshot(so), so.Length0, so.Length1, i, j, vel)
  {
    if vel > 0.0 {
      f := recon(true, so[i - 2, j], so[i - 1, j], so[i, j], so[i + 1, j], so[i + 2, j]);
    } else {
      f := recon(false, so[i - 1, j], so[i, j], so[i + 1, j], so[i + 2, j], so[i + 3, j]);
    }
  }

  /** `flx` computed from the array. */
  method FaceLeftX(recon: Recon, so: array2<real>, i: int, j: int, vel: real) returns (f: real)
    requires 3 <= i && i + 2 < so.Length0 && 0 <= j < so.Length1
    ensures f == LeftX(recon, Snapshot(so), so.Length0, so.Length1, i, j, vel)
  {
    if vel > 0.0 {
      f := recon(true, so[i - 3, j], so[i - 2, j], so[i - 1, j], so[i, j], so[i + 1, j]);
    } else {
      f := recon(false, so[i - 2, j], so[i - 1, j], so[i, j], so[i + 1, j], so[i + 2, j]);
    }
  }

  /** `fry` computed from the array. */
  method FaceRightY(recon: Recon, so: array2<real>, i: int, j: int, vel: real) returns (f: real)
    requires 0 <= i < so.Length0 && 2 <= j && j + 3 < so.Length1
    ensures f == RightY(recon, Snapshot(so), so.Length0, so.Length1, i, j, vel)
  {
    if vel > 0.0 {
      f := recon(true, so[i, j - 2], so[i, j - 1], so[i, j], so[i, j + 1], so[i, j + 2]);
    } else {
      f := recon(false, so[i, j - 1], so[i, j], so[i, j + 1], so[i, j + 2], so[i, j + 3]);
    }
  }

  /** `fly` computed from the array. */
  method FaceLeftY(recon: Recon, so: array2<real>, i: int, j: int, vel: real) returns (f: real)
    requires 0 <= i < so.Length0 && 3 <= j && j + 2 < so.Length1
    ensures f == LeftY(recon, Snapshot(so), so.Length0, so.Length1, i, j, vel)
  {
    if vel > 0.0 {
      f := recon(true, so[i, j - 3], so[i, j - 2], so[i, j - 1], so[i, j], so[i, j + 1]);
    } else {
      f := recon(false, so[i, j - 2], so[i, j - 1], so[i, j], so[i, j + 1], so[i, j + 2]);
    }
  }

  /** The new value of one padded interior cell, read from the arrays. */
  method CellValue(recon: Recon, so: array2<real>, p: array2<int>, u: array2<real>, v: array2<real>,
                   dt: real, dx: real, dy: real, i: int, j: int) returns (x: real)
    requires so.Length0 >= 7 && so.Length1 >= 7 && dx != 0.0 && dy != 0.0
    requires p.Length0 == so.Length0 && p.Length1 == so.Length1
    requires u.Length0 == so.Length0 - 1 && u.Length1 == so.Length1
    requires v.Length0 == so.Length0 && v.Length1 == so.Length1 - 1
    requires Swept(so.Length0, so.Length1, i, j)
    ensures x == CellUpdate(recon, Snapshot(so), Snapshot(p), Snapshot(u), Snapshot(v), dt, dx, dy, so.Length0, so.Length1, i, j)
  {
    var ul, ur, vl, vr := u[i - 1, j], u[i, j], v[i, j - 1], v[i, j];
    var frx := FaceRightX(recon, so, i, j, ur);
    var flx := FaceLeftX(recon, so, i, j, ul);
    var fry := FaceRightY(recon, so, i, j, vr);
    var fly := FaceLeftY(recon, so, i, j, vl);
    x := FluxUpdate(so[i, j], p[i, j] as real, frx, flx, fry, fly, ul, ur, vl, vr, dt, dx, dy);
  }

  /** A target field whose swept entries are the cell updates of the padded data. */
  ghost predicate SweepTarget(recon: Recon, r: Field, so: Field, p: Mat<int>, u: Field, v: Field, dt: real, dx: real, dy: real, N: nat, M: nat)
    requires PaddedShapes(so, p, u, v, N, M) && dx != 0.0 && dy != 0.0
  {
    IsShape(r, N, M) &&
    forall a, b {:trigger CellUpdate(recon, so, p, u, v, dt, dx, dy, N, M, a, b)} :: Swept(N, M, a, b) ==>
      r[a][b] == CellUpdate(recon, so, p, u, v, dt, dx, dy, N, M, a, b)
  }

  /** `CellValue`, stated against a target field. */
  method TargetCell(recon: Recon, so: array2<real>, p: array2<int>, u: array2<real>, v: array2<real>,
                    dt: real, dx: real, dy: real, i: int, j: int,
                    ghost f0: Field, ghost p0: Mat<int>, ghost u0: Field, ghost v0: Field, ghost r: Field) returns (x: real)
    requires so.Length0 >= 7 && so.Length1 >= 7 && dx != 0.0 && dy != 0.0
    requires p.Length0 == so.Length0 && p.Length1 == so.Length1
    requires u.Length0 == so.Length0 - 1 && u.Length1 == so.Length1
    requires v.Length0 == so.Length0 && v.Length1 == so.Length1 - 1
    requires Swept(so.Length0, so.Length1, i, j)
    requires Snapshot(so) == f0 && Snapshot(p) == p0 && Snapshot(u) == u0 && Snapshot(v) == v0
    requires SweepTarget(recon, r, f0, p0, u0, v0, dt, dx, dy, so.Length0, so.Length1)
    ensures x == r[i][j]
  {
    x := CellValue(recon, so, p, u, v, dt, dx, dy, i, j);
  }

  /**
   * The two loops of the sweep, writing into `s` the swept entries of the
   * target `r`; the other entries of `r` are what `s` already holds.
   */
  method SweepLoops(recon: Recon, s: array2<real>, so: array2<real>, p: array2<int>, u: array2<real>, v: array2<real>,
                    dt: real, dx: real, dy: real,
                    ghost f0: Field, ghost p0: Mat<int>, ghost u0: Field, ghost v0: Field, ghost r: Field)
    requires s.Length0 >= 7 && s.Length1 >= 7 && dx != 0.0 && dy != 0.0
    requires so.Length0 == s.Length0 && so.Length1 == s.Length1 && so != s
    requires p.Length0 == s.Length0 && p.Length1 == s.Length1
    requires u.Length0 == s.Length0 - 1 && u.Length1 == s.Length1
    requires v.Length0 == s.Length0 && v.Length1 == s.Length1 - 1
    requires Snapshot(so) == f0 && Snapshot(p) == p0 && Snapshot(u) == u0 && Snapshot(v) == v0
    requires SweepTarget(recon, r, f0, p0, u0, v0, dt, dx, dy, s.Length0, s.Length1)
    requires forall a, b :: 0 <= a < s.Length0 && 0 <= b < s.Length1 && !Swept(s.Length0, s.Length1, a, b) ==> r[a][b] == s[a, b]
    modifies s
    ensures Snapshot(s) == r
  {
    var N, M := s.Length0, s.Length1;
    ghost var s0 := Snapshot(s);
    for i := 3 to N - 3
      invariant Snapshot(so) == f0 && Snapshot(u) == u0 && Snapshot(v) == v0
      invariant forall a, b :: 0 <= a < N && 0 <= b < M ==>
        s[a, b] == if 3 <= a < i && 3 <= b < M - 3 then r[a][b] else s0[a][b]
    {
      for j := 3 to M - 3
        invariant Snapshot(so) == f0 && Snapshot(u) == u0 && Snapshot(v) == v0
        invariant forall a, b :: 0 <= a < N && 0 <= b < M ==>
          s[a, b] == if (3 <= a < i && 3 <= b < M - 3) || (a == i && 3 <= b < j) then r[a][b] else s0[a][b]
      {
        var x := TargetCell(recon, so, p, u, v, dt, dx, dy, i, j, f0, p0, u0, v0, r);
        s[i, j] := x;
      }
    }
    FieldExt(Snapshot(s), r, N, M);
  }

  /** The sweep in place; every update reads the copy taken before it starts. */
  method SweepInPlace(recon: Recon, s: array2<real>, p: array2<int>, u: array2<real>, v: array2<real>, dt: real, dx: real, dy: real)
    requires s.Length0 >= 7 && s.Length1 >= 7 && dx != 0.0 && dy != 0.0
    requires p.Length0 == s.Length0 && p.Length1 == s.Length1
    requires u.Length0 == s.Length0 - 1 && u.Length1 == s.Length1
    requires v.Length0 == s.Length0 && v.Length1 == s.Length1 - 1
    modifies s
    ensures Snapshot(s) == Sweep(recon, old(Snapshot(s)), old(Snapshot(p)), old(Snapshot(u)), old(Snapshot(v)), dt, dx, dy, s.Length0, s.Length1)
  {
    var so := CopyOf(s);
    ghost var f0, p0, u0, v0 := Snapshot(so), Snapshot(p), Snapshot(u), Snapshot(v);
    ghost var r := Sweep(recon, f0, p0, u0, v0, dt, dx, dy, s.Length0, s.Length1);
    SweepLoops(recon, s, so, p, u, v, dt, dx, dy, f0, p0, u0, v0, r);
  }

  // ---------------------------------------------------------------------
  // Padding.

  /** `numpy.zeros((r + 4, c + 4))` with `f` written into `[2:-2, 2:-2]`. */
  function Embed<T>(f: Mat<T>, r: nat, c: nat, zero: T): (g: Mat<T>)
    requires IsShape(f, r, c)
    ensures IsShape(g, r + 4, c + 4)
  {
    seq(r + 4, i requires 0 <= i < r + 4 => seq(c + 4, j requires 0 <= j < c + 4 =>
      if 2 <= i < r + 2 && 2 <= j < c + 2 then f[i - 2][j - 2] else zero))
  }

  /** The embedded array holds `f` at offset 2 and `zero` in the two layers around it. */
  lemma EmbedLayout<T>(f: Mat<T>, r: nat, c: nat, zero: T, i: int, j: int)
    requires IsShape(f, r, c) && 0 <= i < r + 4 && 0 <= j < c + 4
    ensures 2 <= i < r + 2 && 2 <= j < c + 2 ==> Embed(f, r, c, zero)[i][j] == f[i - 2][j - 2]
    ensures !(2 <= i < r + 2 && 2 <= j < c + 2) ==> Embed(f, r, c, zero)[i][j] == zero
  {
  }

  /** `f[d, :] = 2 * f[a, :] - f[b, :]`. */
  function SetRow(f: Field, N: nat, M: nat, d: nat, a: nat, b: nat): (g: Field)
    requires IsShape(f, N, M) && d < N && a < N && b < N
    ensures IsShape(g, N, M)
  {
    seq(N, i requires 0 <= i < N => if i == d then seq(M, j requires 0 <= j < M => 2.0 * f[a][j] - f[b][j]) else f[i])
  }

  /** `f[:, d] = 2 * f[:, a] - f[:, b]`. */
  function SetCol(f: Field, N: nat, M: nat, d: nat, a: nat, b: nat): (g: Field)
    requires IsShape(f, N, M) && d < M && a < M && b < M
    ensures IsShape(g, N, M)
  {
    seq(N, i requires 0 <= i < N => seq(M, j requires 0 <= j < M => if j == d then 2.0 * f[i][a] - f[i][b] else f[i][j]))
  }

  /** The x-low pair of layers, then the x-high pair, in the order they are assigned. */
  function PadRows(f: Field, N: nat, M: nat): (g: Field)
    requires N >= 6 && IsShape(f, N, M)
    ensures IsShape(g, N, M)
  {
    var f1 := SetRow(f, N, M, 1, 2, 3);
    var f2 := SetRow(f1, N, M, 0, 1, 2);
    var f3 := SetRow(f2, N, M, N - 2, N - 3, N - 4);
    SetRow(f3, N, M, N - 1, N - 2, N - 3)
  }

  /** The y-low pair of layers, then the y-high pair, over every row. */
  function PadCols(f: Field, N: nat, M: nat): (g: Field)
    requires M >= 6 && IsShape(f, N, M)
    ensures IsShape(g, N, M)
  {
    var f1 := SetCol(f, N, M, 1, 2, 3);
    var f2 := SetCol(f1, N, M, 0, 1, 2);
    var f3 := SetCol(f2, N, M, M - 2, M - 3, M - 4);
    SetCol(f3, N, M, M - 1, M - 2, M - 3)
  }

  /**
   * Entry (k, c) of the field after the four row assignments, for a row k of
   * the padded range and a column c of `s`: rows 0 and 1 are the second and
   * first linear extrapolations of rows 0 and 1 of `s`, rows n+3 and n+2 the
   * same of its last two rows, and the rows between hold `s` itself.
   */
  function RowPadded(s: Field, n: nat, m: nat, k: int, c: int): real
    requires n >= 2 && IsShape(s, n, m) && 0 <= k < n + 4 && 0 <= c < m
  {
    if k == 0 then 3.0 * s[0][c] - 2.0 * s[1][c]
    else if k == 1 then 2.0 * s[0][c] - s[1][c]
    else if k == n + 2 then 2.0 * s[n - 1][c] - s[n - 2][c]
    else if k == n + 3 then 3.0 * s[n - 1][c] - 2.0 * s[n - 2][c]
    else s[k - 2][c]
  }

  /** Entry (k, l) of the padded field: the same extrapolation applied to columns of `RowPadded`. */
  function PadAt(s: Field, n: nat, m: nat, k: int, l: int): real
    requires n >= 2 && m >= 2 && IsShape(s, n, m) && 0 <= k < n + 4 && 0 <= l < m + 4
  {
    if l == 0 then 3.0 * RowPadded(s, n, m, k, 0) - 2.0 * RowPadded(s, n, m, k, 1)
    else if l == 1 then 2.0 * RowPadded(s, n, m, k, 0) - RowPadded(s, n, m, k, 1)
    else if l == m + 2 then 2.0 * RowPadded(s, n, m, k, m - 1) - RowPadded(s, n, m, k, m - 2)
    else if l == m + 3 then 3.0 * RowPadded(s, n, m, k, m - 1) - 2.0 * RowPadded(s, n, m, k, m - 2)
    else RowPadded(s, n, m, k, l - 2)
  }

  /** The padded field `s_weno`, entry by entry. */
  function Pad(s: Field, n: nat, m: nat): (g: Field)
    requires n >= 3 && m >= 3 && IsShape(s, n, m)
    ensures IsShape(g, n + 4, m + 4)
  {
    seq(n + 4, i requires 0 <= i < n + 4 => seq(m + 4, j requires 0 <= j < m + 4 => PadAt(s, n, m, i, j)))
  }

  /** Entry (i, j) of `PadRows`. */
  lemma PadRowsAt(f: Field, N: nat, M: nat, i: int, j: int)
    requires N >= 7 && IsShape(f, N, M) && 0 <= i < N && 0 <= j < M
    ensures PadRows(f, N, M)[i][j] ==
      if i == 0 then 3.0 * f[2][j] - 2.0 * f[3][j]
      else if i == 1 then 2.0 * f[2][j] - f[3][j]
      else if i == N - 2 then 2.0 * f[N - 3][j] - f[N - 4][j]
      else if i == N - 1 then 3.0 * f[N - 3][j] - 2.0 * f[N - 4][j]
      else f[i][j]
  {
  }

  /** Entry (i, j) of `PadCols`. */
  lemma PadColsAt(f: Field, N: nat, M: nat, i: int, j: int)
    requires M >= 7 && IsShape(f, N, M) && 0 <= i < N && 0 <= j < M
    ensures PadCols(f, N, M)[i][j] ==
      if j == 0 then 3.0 * f[i][2] - 2.0 * f[i][3]
      else if j == 1 then 2.0 * f[i][2] - f[i][3]
      else if j == M - 2 then 2.0 * f[i][M - 3] - f[i][M - 4]
      else if j == M - 1 then 3.0 * f[i][M - 3] - 2.0 * f[i][M - 4]
      else f[i][j]
  {
  }

  /** Column c + 2 of the row-padded embedded field is `RowPadded` at column c. */
  lemma RowsOfEmbedAt(s: Field, n: nat, m: nat, i: int, c: int)
    requires n >= 3 && m >= 3 && IsShape(s, n, m) && 0 <= i < n + 4 && 0 <= c < m
    ensures PadRows(Embed(s, n, m, 0.0), n + 4, m + 4)[i][c + 2] == RowPadded(s, n, m, i, c)
  {
    var E := Embed(s, n, m, 0.0);
    PadRowsAt(E, n + 4, m + 4, i, c + 2);
    EmbedLayout(s, n, m, 0.0, 2, c + 2);
    EmbedLayout(s, n, m, 0.0, 3, c + 2);
    EmbedLayout(s, n, m, 0.0, n + 1, c + 2);
    EmbedLayout(s, n, m, 0.0, n, c + 2);
    EmbedLayout(s, n, m, 0.0, i, c + 2);
  }

  /** Entry (i, j) of the eight line assignments on the embedded field, for a padding column on the left. */
  lemma PadLayersLeft(s: Field, n: nat, m: nat, i: int, j: int)
    requires n >= 3 && m >= 3 && IsShape(s, n, m) && 0 <= i < n + 4 && 0 <= j < 2
    ensures PadCols(PadRows(Embed(s, n, m, 0.0), n + 4, m + 4), n + 4, m + 4)[i][j] == PadAt(s, n, m, i, j)
  {
    PadColsAt(PadRows(Embed(s, n, m, 0.0), n + 4, m + 4), n + 4, m + 4, i, j);
    RowsOfEmbedAt(s, n, m, i, 0);
    RowsOfEmbedAt(s, n, m, i, 1);
  }

  /** The same for a padding column on the right. */
  lemma PadLayersRight(s: Field, n: nat, m: nat, i: int, j: int)
    requires n >= 3 && m >= 3 && IsShape(s, n, m) && 0 <= i < n + 4 && m + 2 <= j < m + 4
    ensures PadCols(PadRows(Embed(s, n, m, 0.0), n + 4, m + 4), n + 4, m + 4)[i][j] == PadAt(s, n, m, i, j)
  {
    PadColsAt(PadRows(Embed(s, n, m, 0.0), n + 4, m + 4), n + 4, m + 4, i, j);
    RowsOfEmbedAt(s, n, m, i, m - 1);
    RowsOfEmbedAt(s, n, m, i, m - 2);
  }

  /** The same for an original column. */
  lemma PadLayersInner(s: Field, n: nat, m: nat, i: int, j: int)
    requires n >= 3 && m >= 3 && IsShape(s, n, m) && 0 <= i < n + 4 && 2 <= j < m + 2
    ensures PadCols(PadRows(Embed(s, n, m, 0.0), n + 4, m + 4), n + 4, m + 4)[i][j] == PadAt(s, n, m, i, j)
  {
    PadColsAt(PadRows(Embed(s, n, m, 0.0), n + 4, m + 4), n + 4, m + 4, i, j);
    RowsOfEmbedAt(s, n, m, i, j - 2);
  }

  /** The eight line assignments on the embedded field produce `Pad`. */
  lemma PadLayersIsPad(s: Field, n: nat, m: nat)
    requires n >= 3 && m >= 3 && IsShape(s, n, m)
    ensures PadCols(PadRows(Embed(s, n, m, 0.0), n + 4, m + 4), n + 4, m + 4) == Pad(s, n, m)
  {
    var N, M := n + 4, m + 4;
    var P := PadCols(PadRows(Embed(s, n, m, 0.0), N, M), N, M);
    forall i, j | 0 <= i < N && 0 <= j < M
      ensures P[i][j] == Pad(s, n, m)[i][j]
    {
      if j < 2 {
        PadLayersLeft(s, n, m, i, j);
      } else if j < m + 2 {
        PadLayersInner(s, n, m, i, j);
      } else {
        PadLayersRight(s, n, m, i, j);
      }
    }
    FieldExt(P, Pad(s, n, m), N, M);
  }

  /** Row `d` is the linear extrapolation of rows `a` and `b` in every column. */
  predicate RowExtrapolated(f: Field, N: nat, M: nat, d: nat, a: nat, b: nat)
    requires IsShape(f, N, M) && d < N && a < N && b < N
  {
    forall j :: 0 <= j < M ==> f[d][j] == 2.0 * f[a][j] - f[b][j]
  }

  /** Column `d` is the linear extrapolation of columns `a` and `b` in every row. */
  predicate ColExtrapolated(f: Field, N: nat, M: nat, d: nat, a: nat, b: nat)
    requires IsShape(f, N, M) && d < M && a < M && b < M
  {
    forall i :: 0 <= i < N ==> f[i][d] == 2.0 * f[i][a] - f[i][b]
  }

  lemma SetRowEstablishes(f: Field, N: nat, M: nat, d: nat, a: nat, b: nat)
    requires IsShape(f, N, M) && d < N && a < N && b < N && d != a && d != b
    ensures RowExtrapolated(SetRow(f, N, M, d, a, b), N, M, d, a, b)
  {
  }

  lemma SetRowKeepsRow(f: Field, N: nat, M: nat, d: nat, a: nat, b: nat, d2: nat, a2: nat, b2: nat)
    requires IsShape(f, N, M) && d < N && a < N && b < N && d2 < N && a2 < N && b2 < N
    requires d2 != d && d2 != a && d2 != b && RowExtrapolated(f, N, M, d, a, b)
    ensures RowExtrapolated(SetRow(f, N, M, d2, a2, b2), N, M, d, a, b)
  {
  }

  lemma SetColEstablishes(f: Field, N: nat, M: nat, d: nat, a: nat, b: nat)
    requires IsShape(f, N, M) && d < M && a < M && b < M && d != a && d != b
    ensures ColExtrapolated(SetCol(f, N, M, d, a, b), N, M, d, a, b)
  {
  }

  lemma SetColKeepsCol(f: Field, N: nat, M: nat, d: nat, a: nat, b: nat, d2: nat, a2: nat, b2: nat)
    requires IsShape(f, N, M) && d < M && a < M && b < M && d2 < M && a2 < M && b2 < M
    requires d2 != d && d2 != a && d2 != b && ColExtrapolated(f, N, M, d, a, b)
    ensures ColExtrapolated(SetCol(f, N, M, d2, a2, b2), N, M, d, a, b)
  {
  }

  /** Extrapolating columns commutes with a row extrapolation: the row relation survives, corners included. */
  lemma SetColKeepsRow(f: Field, N: nat, M: nat, d: nat, a: nat, b: nat, dc: nat, ac: nat, bc: nat)
    requires IsShape(f, N, M) && d < N && a < N && b < N && dc < M && ac < M && bc < M
    requires RowExtrapolated(f, N, M, d, a, b)
    ensures RowExtrapolated(SetCol(f, N, M, dc, ac, bc), N, M, d, a, b)
  {
    var g := SetCol(f, N, M, dc, ac, bc);
    forall j | 0 <= j < M
      ensures g[d][j] == 2.0 * g[a][j] - g[b][j]
    {
      if j == dc {
        assert f[d][ac] == 2.0 * f[a][ac] - f[b][ac];
        assert f[d][bc] == 2.0 * f[a][bc] - f[b][bc];
      }
    }
  }

  /** The four row extrapolations of `PadRows` all hold after it. */
  lemma PadRowsExtrapolates(f: Field, N: nat, M: nat)
    requires N >= 7 && IsShape(f, N, M)
    ensures var g := PadRows(f, N, M);
      RowExtrapolated(g, N, M, 1, 2, 3) && RowExtrapolated(g, N, M, 0, 1, 2) &&
      RowExtrapolated(g, N, M, N - 2, N - 3, N - 4) && RowExtrapolated(g, N, M, N - 1, N - 2, N - 3)
  {
    var f1 := SetRow(f, N, M, 1, 2, 3);
    var f2 := SetRow(f1, N, M, 0, 1, 2);
    var f3 := SetRow(f2, N, M, N - 2, N - 3, N - 4);
    SetRowEstablishes(f, N, M, 1, 2, 3);
    SetRowKeepsRow(f1, N, M, 1, 2, 3, 0, 1, 2);
    SetRowKeepsRow(f2, N, M, 1, 2, 3, N - 2, N - 3, N - 4);
    SetRowKeepsRow(f3, N, M, 1, 2, 3, N - 1, N - 2, N - 3);
    SetRowEstablishes(f1, N, M, 0, 1, 2);
    SetRowKeepsRow(f2, N, M, 0, 1, 2, N - 2, N - 3, N - 4);
    SetRowKeepsRow(f3, N, M, 0, 1, 2, N - 1, N - 2, N - 3);
    SetRowEstablishes(f2, N, M, N - 2, N - 3, N - 4);
    SetRowKeepsRow(f3, N, M, N - 2, N - 3, N - 4, N - 1, N - 2, N - 3);
    SetRowEstablishes(f3, N, M, N - 1, N - 2, N - 3);
  }

  /** A row extrapolation that holds before `PadCols` holds after it. */
  lemma PadColsKeepsRow(f: Field, N: nat, M: nat, d: nat, a: nat, b: nat)
    requires M >= 7 && IsShape(f, N, M) && d < N && a < N && b < N && RowExtrapolated(f, N, M, d, a, b)
    ensures RowExtrapolated(PadCols(f, N, M), N, M, d, a, b)
  {
    var f1 := SetCol(f, N, M, 1, 2, 3);
    var f2 := SetCol(f1, N, M, 0, 1, 2);
    var f3 := SetCol(f2, N, M, M - 2, M - 3, M - 4);
    SetColKeepsRow(f, N, M, d, a, b, 1, 2, 3);
    SetColKeepsRow(f1, N, M, d, a, b, 0, 1, 2);
    SetColKeepsRow(f2, N, M, d, a, b, M - 2, M - 3, M - 4);
    SetColKeepsRow(f3, N, M, d, a, b, M - 1, M - 2, M - 3);
  }

  /** The four column extrapolations of `PadCols` all hold after it. */
  lemma PadColsExtrapolates(f: Field, N: nat, M: nat)
    requires M >= 7 && IsShape(f, N, M)
    ensures var g := PadCols(f, N, M);
      ColExtrapolated(g, N, M, 1, 2, 3) && ColExtrapolated(g, N, M, 0, 1, 2) &&
      ColExtrapolated(g, N, M, M - 2, M - 3, M - 4) && ColExtrapolated(g, N, M, M - 1, M - 2, M - 3)
  {
    var f1 := SetCol(f, N, M, 1, 2, 3);
    var f2 := SetCol(f1, N, M, 0, 1, 2);
    var f3 := SetCol(f2, N, M, M - 2, M - 3, M - 4);
    SetColEstablishes(f, N, M, 1, 2, 3);
    SetColKeepsCol(f1, N, M, 1, 2, 3, 0, 1, 2);
    SetColKeepsCol(f2, N, M, 1, 2, 3, M - 2, M - 3, M - 4);
    SetColKeepsCol(f3, N, M, 1, 2, 3, M - 1, M - 2, M - 3);
    SetColEstablishes(f1, N, M, 0, 1, 2);
    SetColKeepsCol(f2, N, M, 0, 1, 2, M - 2, M - 3, M - 4);
    SetColKeepsCol(f3, N, M, 0, 1, 2, M - 1, M - 2, M - 3);
    SetColEstablishes(f2, N, M, M - 2, M - 3, M - 4);
    SetColKeepsCol(f3, N, M, M - 2, M - 3, M - 4, M - 1, M - 2, M - 3);
    SetColEstablishes(f3, N, M, M - 1, M - 2, M - 3);
  }

  /** `PadRows` changes only the two outer rows on each side. */
  lemma PadRowsKeeps(f: Field, N: nat, M: nat, i: int, j: int)
    requires N >= 7 && IsShape(f, N, M) && 2 <= i < N - 2 && 0 <= j < M
    ensures PadRows(f, N, M)[i][j] == f[i][j]
  {
  }

  /** `PadCols` changes only the two outer columns on each side. */
  lemma PadColsKeeps(f: Field, N: nat, M: nat, i: int, j: int)
    requires M >= 7 && IsShape(f, N, M) && 0 <= i < N && 2 <= j < M - 2
    ensures PadCols(f, N, M)[i][j] == f[i][j]
  {
  }

  /** The original field sits unchanged at offset 2 of the padded field. */
  lemma PadInterior(s: Field, n: nat, m: nat, i: int, j: int)
    requires n >= 3 && m >= 3 && IsShape(s, n, m) && 0 <= i < n && 0 <= j < m
    ensures Pad(s, n, m)[i + 2][j + 2] == s[i][j]
  {
  }

  /**
   * Every padding layer is the linear extrapolation of the two lines inside
   * it, on all four sides and along whole rows and columns (corners
   * included), and the original field sits at offset 2.
   */
  lemma PadIsLinearExtrapolation(s: Field, n: nat, m: nat)
    requires n >= 3 && m >= 3 && IsShape(s, n, m)
    ensures var P, N, M := Pad(s, n, m), n + 4, m + 4;
      (forall i, j :: 0 <= i < n && 0 <= j < m ==> P[i + 2][j + 2] == s[i][j]) &&
      RowExtrapolated(P, N, M, 1, 2, 3) && RowExtrapolated(P, N, M, 0, 1, 2) &&
      RowExtrapolated(P, N, M, N - 2, N - 3, N - 4) && RowExtrapolated(P, N, M, N - 1, N - 2, N - 3) &&
      ColExtrapolated(P, N, M, 1, 2, 3) && ColExtrapolated(P, N, M, 0, 1, 2) &&
      ColExtrapolated(P, N, M, M - 2, M - 3, M - 4) && ColExtrapolated(P, N, M, M - 1, M - 2, M - 3)
  {
    var N, M := n + 4, m + 4;
    var R := PadRows(Embed(s, n, m, 0.0), N, M);
    forall i, j | 0 <= i < n && 0 <= j < m
      ensures Pad(s, n, m)[i + 2][j + 2] == s[i][j]
    {
      PadInterior(s, n, m, i, j);
    }
    PadLayersIsPad(s, n, m);
    PadRowsExtrapolates(Embed(s, n, m, 0.0), N, M);
    PadColsKeepsRow(R, N, M, 1, 2, 3);
    PadColsKeepsRow(R, N, M, 0, 1, 2);
    PadColsKeepsRow(R, N, M, N - 2, N - 3, N - 4);
    PadColsKeepsRow(R, N, M, N - 1, N - 2, N - 3);
    PadColsExtrapolates(R, N, M);
  }

  /** Padding a constant field gives the constant everywhere, the corners included. */
  lemma PadConstant(n: nat, m: nat, c: real)
    requires n >= 3 && m >= 3
    ensures Pad(Const(n, m, c), n, m) == Const(n + 4, m + 4, c)
  {
    var s := Const(n, m, c);
    forall i, j | 0 <= i < n + 4 && 0 <= j < m + 4
      ensures Pad(s, n, m)[i][j] == c
    {
      RowPaddedConstant(n, m, c, i, 0);
      RowPaddedConstant(n, m, c, i, 1);
      RowPaddedConstant(n, m, c, i, m - 1);
      RowPaddedConstant(n, m, c, i, m - 2);
      if 2 <= j < m + 2 {
        RowPaddedConstant(n, m, c, i, j - 2);
      }
    }
    FieldExt(Pad(s, n, m), Const(n + 4, m + 4, c), n + 4, m + 4);
  }

  lemma RowPaddedConstant(n: nat, m: nat, c: real, k: int, l: int)
    requires n >= 3 && 0 <= k < n + 4 && 0 <= l < m
    ensures RowPadded(Const(n, m, c), n, m, k, l) == c
  {
  }

  /** One row assignment `a[d, :] = 2 * a[r1, :] - a[r2, :]`. */
  method SetRowInPlace(a: array2<real>, d: nat, r1: nat, r2: nat)
    requires d < a.Length0 && r1 < a.Length0 && r2 < a.Length0
    modifies a
    ensures Snapshot(a) == SetRow(old(Snapshot(a)), a.Length0, a.Length1, d, r1, r2)
  {
    ghost var f0 := Snapshot(a);
    ghost var g := SetRow(f0, a.Length0, a.Length1, d, r1, r2);
    for j := 0 to a.Length1
      invariant forall p, q :: 0 <= p < a.Length0 && 0 <= q < a.Length1 ==> a[p, q] == if q < j then g[p][q] else f0[p][q]
    {
      a[d, j] := 2.0 * a[r1, j] - a[r2, j];
    }
    FieldExt(Snapshot(a), g, a.Length0, a.Length1);
  }

  /** One column assignment `a[:, d] = 2 * a[:, c1] - a[:, c2]`. */
  method SetColInPlace(a: array2<real>, d: nat, c1: nat, c2: nat)
    requires d < a.Length1 && c1 < a.Length1 && c2 < a.Length1
    modifies a
    ensures Snapshot(a) == SetCol(old(Snapshot(a)), a.Length0, a.Length1, d, c1, c2)
  {
    ghost var f0 := Snapshot(a);
    ghost var g := SetCol(f0, a.Length0, a.Length1, d, c1, c2);
    for i := 0 to a.Length0
      invariant forall p, q :: 0 <= p < a.Length0 && 0 <= q < a.Length1 ==> a[p, q] == if p < i then g[p][q] else f0[p][q]
    {
      a[i, d] := 2.0 * a[i, c1] - a[i, c2];
    }
    FieldExt(Snapshot(a), g, a.Length0, a.Length1);
  }

  /** The eight line assignments that pad `s_weno`. */
  method PadInPlace(a: array2<real>)
    requires a.Length0 >= 6 && a.Length1 >= 6
    modifies a
    ensures Snapshot(a) == PadCols(PadRows(old(Snapshot(a)), a.Length0, a.Length1), a.Length0, a.Length1)
  {
    var N, M := a.Length0, a.Length1;
    SetRowInPlace(a, 1, 2, 3);
    SetRowInPlace(a, 0, 1, 2);
    SetRowInPlace(a, N - 2, N - 3, N - 4);
    SetRowInPlace(a, N - 1, N - 2, N - 3);
    SetColInPlace(a, 1, 2, 3);
    SetColInPlace(a, 0, 1, 2);
    SetColInPlace(a, M - 2, M - 3, M - 4);
    SetColInPlace(a, M - 1, M - 2, M - 3);
  }

  /** `numpy.zeros` of two more layers on each side, with `a` copied into `[2:-2, 2:-2]`. */
  method EmbedArray<T>(a: array2<T>, zero: T) returns (b: array2<T>)
    ensures fresh(b) && b.Length0 == a.Length0 + 4 && b.Length1 == a.Length1 + 4
    ensures Snapshot(b) == Embed(Snapshot(a), a.Length0, a.Length1, zero)
  {
    var n, m := a.Length0, a.Length1;
    b := new T[n + 4, m + 4]((i, j) reads a =>
      if 2 <= i < n + 2 && 2 <= j < m + 2 && i - 2 < a.Length0 && j - 2 < a.Length1 then a[i - 2, j - 2] else zero);
    FieldExt(Snapshot(b), Embed(Snapshot(a), n, m, zero), n + 4, m + 4);
  }

  // ---------------------------------------------------------------------
  // The whole operation.

  /** `s[:, :] = s_weno[2:-2, 2:-2]`. */
  function Unpad(g: Field, n: nat, m: nat): (s: Field)
    requires IsShape(g, n + 4, m + 4)
    ensures IsShape(s, n, m)
  {
    seq(n, i requires 0 <= i < n => seq(m, j requires 0 <= j < m => g[i + 2][j + 2]))
  }

  /** Shapes `advect_weno3` needs of its arguments. */
  predicate AdvectShapes(s: Field, p: Mat<int>, u: Field, v: Field, n: nat, m: nat) {
    n >= 3 && m >= 3 && IsShape(s, n, m) && IsShape(p, n, m) && IsShape(u, n - 1, m) && IsShape(v, n, m - 1)
  }

  /** The field `advect_weno3` leaves in `s`, for the face formula `recon`. */
  function Advect(recon: Recon, s: Field, p: Mat<int>, u: Field, v: Field, dt: real, dx: real, dy: real, n: nat, m: nat): (r: Field)
    requires AdvectShapes(s, p, u, v, n, m) && dx != 0.0 && dy != 0.0
    ensures IsShape(r, n, m)
  {
    Unpad(Sweep(recon, Pad(s, n, m), Embed(p, n, m, 0), Embed(u, n - 1, m, 0.0), Embed(v, n, m - 1, 0.0),
                dt, dx, dy, n + 4, m + 4), n, m)
  }

  /** The swept padded cell behind an original interior cell. */
  lemma AdvectAtSwept(recon: Recon, s: Field, p: Mat<int>, u: Field, v: Field, dt: real, dx: real, dy: real,
                      n: nat, m: nat, i: int, j: int)
    requires AdvectShapes(s, p, u, v, n, m) && dx != 0.0 && dy != 0.0
    requires Interior(i, j, n, m)
    ensures Advect(recon, s, p, u, v, dt, dx, dy, n, m)[i][j] ==
      CellUpdate(recon, Pad(s, n, m), Embed(p, n, m, 0), Embed(u, n - 1, m, 0.0), Embed(v, n, m - 1, 0.0),
                 dt, dx, dy, n + 4, m + 4, i + 2, j + 2)
  {
  }

  /** `CellUpdate` with its inputs named. */
  lemma CellUpdateIs(recon: Recon, so: Field, p: Mat<int>, u: Field, v: Field, dt: real, dx: real, dy: real,
                     N: nat, M: nat, i: int, j: int, c: real, pf: real, ul: real, ur: real, vl: real, vr: real)
    requires PaddedShapes(so, p, u, v, N, M) && dx != 0.0 && dy != 0.0
    requires 3 <= i < N - 3 && 3 <= j < M - 3
    requires so[i][j] == c && p[i][j] as real == pf
    requires u[i - 1][j] == ul && u[i][j] == ur && v[i][j - 1] == vl && v[i][j] == vr
    ensures CellUpdate(recon, so, p, u, v, dt, dx, dy, N, M, i, j) ==
      FluxUpdate(c, pf, RightX(recon, so, N, M, i, j, ur), LeftX(recon, so, N, M, i, j, ul),
                 RightY(recon, so, N, M, i, j, vr), LeftY(recon, so, N, M, i, j, vl), ul, ur, vl, vr, dt, dx, dy)
  {
  }

  /** The swept update of the padded cell behind an original interior cell, in original indices. */
  lemma PaddedCellUpdate(recon: Recon, s: Field, p: Mat<int>, u: Field, v: Field, dt: real, dx: real, dy: real,
                         n: nat, m: nat, i: int, j: int)
    requires AdvectShapes(s, p, u, v, n, m) && dx != 0.0 && dy != 0.0
    requires Interior(i, j, n, m)
    ensures var P, N, M := Pad(s, n, m), n + 4, m + 4;
      var ul, ur, vl, vr := u[i - 1][j], u[i][j], v[i][j - 1], v[i][j];
      CellUpdate(recon, P, Embed(p, n, m, 0), Embed(u, n - 1, m, 0.0), Embed(v, n, m - 1, 0.0),
                 dt, dx, dy, N, M, i + 2, j + 2) ==
        FluxUpdate(s[i][j], p[i][j] as real,
                   RightX(recon, P, N, M, i + 2, j + 2, ur), LeftX(recon, P, N, M, i + 2, j + 2, ul),
                   RightY(recon, P, N, M, i + 2, j + 2, vr), LeftY(recon, P, N, M, i + 2, j + 2, vl),
                   ul, ur, vl, vr, dt, dx, dy)
  {
    var P, pE, uE, vE := Pad(s, n, m), Embed(p, n, m, 0), Embed(u, n - 1, m, 0.0), Embed(v, n, m - 1, 0.0);
    assert P[i + 2][j + 2] == s[i][j] by { PadInterior(s, n, m, i, j); }
    assert pE[i + 2][j + 2] == p[i][j] by { EmbedLayout(p, n, m, 0, i + 2, j + 2); }
    assert uE[i + 1][j + 2] == u[i - 1][j] by { EmbedLayout(u, n - 1, m, 0.0, i + 1, j + 2); }
    assert uE[i + 2][j + 2] == u[i][j] by { EmbedLayout(u, n - 1, m, 0.0, i + 2, j + 2); }
    assert vE[i + 2][j + 1] == v[i][j - 1] by { EmbedLayout(v, n, m - 1, 0.0, i + 2, j + 1); }
    assert vE[i + 2][j + 2] == v[i][j] by { EmbedLayout(v, n, m - 1, 0.0, i + 2, j + 2); }
    CellUpdateIs(recon, P, pE, uE, vE, dt, dx, dy, n + 4, m + 4, i + 2, j + 2,
                 s[i][j], p[i][j] as real, u[i - 1][j], u[i][j], v[i][j - 1], v[i][j]);
  }

  /**
   * The update of an original interior cell, in original indices: the old
   * value, the mask and the four face velocities are those of the cell
   * itself, and the face values come from the padded field.
   */
  lemma AdvectInterior(recon: Recon, s: Field, p: Mat<int>, u: Field, v: Field, dt: real, dx: real, dy: real,
                       n: nat, m: nat, i: int, j: int)
    requires AdvectShapes(s, p, u, v, n, m) && dx != 0.0 && dy != 0.0
    requires Interior(i, j, n, m)
    ensures var P, N, M := Pad(s, n, m), n + 4, m + 4;
      var ul, ur, vl, vr := u[i - 1][j], u[i][j], v[i][j - 1], v[i][j];
      Advect(recon, s, p, u, v, dt, dx, dy, n, m)[i][j] ==
        FluxUpdate(s[i][j], p[i][j] as real,
                   RightX(recon, P, N, M, i + 2, j + 2, ur), LeftX(recon, P, N, M, i + 2, j + 2, ul),
                   RightY(recon, P, N, M, i + 2, j + 2, vr), LeftY(recon, P, N, M, i + 2, j + 2, vl),
                   ul, ur, vl, vr, dt, dx, dy)
  {
    AdvectAtSwept(recon, s, p, u, v, dt, dx, dy, n, m, i, j);
    PaddedCellUpdate(recon, s, p, u, v, dt, dx, dy, n, m, i, j);
  }

  /** The outer ring of `s` is returned unchanged. */
  lemma AdvectKeepsRing(recon: Recon, s: Field, p: Mat<int>, u: Field, v: Field, dt: real, dx: real, dy: real,
                        n: nat, m: nat, i: int, j: int)
    requires AdvectShapes(s, p, u, v, n, m) && dx != 0.0 && dy != 0.0
    requires 0 <= i < n && 0 <= j < m && !Interior(i, j, n, m)
    ensures Advect(recon, s, p, u, v, dt, dx, dy, n, m)[i][j] == s[i][j]
  {
    PadInterior(s, n, m, i, j);
  }

  lemma FluxUpdateUnmasked(c: real, frx: real, flx: real, fry: real, fly: real,
                           ul: real, ur: real, vl: real, vr: real, dt: real, dx: real, dy: real)
    requires dx != 0.0 && dy != 0.0
    ensures FluxUpdate(c, 0.0, frx, flx, fry, fly, ul, ur, vl, vr, dt, dx, dy) == c
  {
  }

  /** Where the mask is 0 the cell keeps its old value. */
  lemma AdvectMaskedCell(recon: Recon, s: Field, p: Mat<int>, u: Field, v: Field, dt: real, dx: real, dy: real,
                         n: nat, m: nat, i: int, j: int)
    requires AdvectShapes(s, p, u, v, n, m) && dx != 0.0 && dy != 0.0
    requires 0 <= i < n && 0 <= j < m && p[i][j] == 0
    ensures Advect(recon, s, p, u, v, dt, dx, dy, n, m)[i][j] == s[i][j]
  {
    if Interior(i, j, n, m) {
      AdvectInterior(recon, s, p, u, v, dt, dx, dy, n, m, i, j);
      var P, N, M := Pad(s, n, m), n + 4, m + 4;
      var ul, ur, vl, vr := u[i - 1][j], u[i][j], v[i][j - 1], v[i][j];
      FluxUpdateUnmasked(s[i][j], RightX(recon, P, N, M, i + 2, j + 2, ur), LeftX(recon, P, N, M, i + 2, j + 2, ul),
                         RightY(recon, P, N, M, i + 2, j + 2, vr), LeftY(recon, P, N, M, i + 2, j + 2, vl),
                         ul, ur, vl, vr, dt, dx, dy);
    } else {
      AdvectKeepsRing(recon, s, p, u, v, dt, dx, dy, n, m, i, j);
    }
  }

  /** With every face value equal to `c` the update is `c` minus `dt * pf * c` times the discrete divergence. */
  lemma FluxOfConstant(c: real, pf: real, ul: real, ur: real, vl: real, vr: real, dt: real, dx: real, dy: real)
    requires dx != 0.0 && dy != 0.0
    ensures FluxUpdate(c, pf, c, c, c, c, ul, ur, vl, vr, dt, dx, dy)
         == c - dt * pf * c * ((ur - ul) / dx + (vr - vl) / dy)
  {
    var X, Y := (ur - ul) / dx, (vr - vl) / dy;
    assert (c * ur - c * ul) / dx == c * X;
    assert (c * vr - c * vl) / dy == c * Y;
    assert dt * pf * (c * ur - c * ul) / dx == dt * pf * c * X;
    assert dt * pf * (c * vr - c * vl) / dy == dt * pf * c * Y;
  }

  /** A product of four factors vanishes only when one of them does. */
  lemma ProductZero(a: real, b: real, c: real, d: real)
    ensures a * b * c * d == 0.0 <==> (a == 0.0 || b == 0.0 || c == 0.0 || d == 0.0)
  {
    if a != 0.0 && b != 0.0 && c != 0.0 && d != 0.0 {
      PositiveProduct(Abs(a), Abs(b));
      PositiveProduct(Abs(c), Abs(d));
      var ab, cd := a * b, c * d;
      assert ab != 0.0 && cd != 0.0;
      PositiveProduct(Abs(ab), Abs(cd));
      assert a * b * c * d == ab * cd;
    }
  }

  /** Every face value of a constant padded field is the constant, for a formula exact on constants. */
  lemma FacesOfConstant(recon: Recon, N: nat, M: nat, c: real, i: int, j: int, ul: real, ur: real, vl: real, vr: real)
    requires ExactOnConstants(recon)
    requires 3 <= i && i + 3 < N && 3 <= j && j + 3 < M
    ensures RightX(recon, Const(N, M, c), N, M, i, j, ur) == c && LeftX(recon, Const(N, M, c), N, M, i, j, ul) == c
    ensures RightY(recon, Const(N, M, c), N, M, i, j, vr) == c && LeftY(recon, Const(N, M, c), N, M, i, j, vl) == c
  {
    assert recon(true, c, c, c, c, c) == c && recon(false, c, c, c, c, c) == c;
  }

  /** A constant field c changes at a cell by `dt * pf * c` times the divergence there; for nonzero c and dt it stays exactly when pf or the divergence vanishes. */
  lemma ConstantUpdate(x: real, c: real, pf: real, ul: real, ur: real, vl: real, vr: real, dt: real, dx: real, dy: real)
    requires dx != 0.0 && dy != 0.0
    requires x == FluxUpdate(c, pf, c, c, c, c, ul, ur, vl, vr, dt, dx, dy)
    ensures x == c - dt * pf * c * ((ur - ul) / dx + (vr - vl) / dy)
    ensures c != 0.0 && dt != 0.0 ==> (x == c <==> (pf == 0.0 || (ur - ul) / dx + (vr - vl) / dy == 0.0))
  {
    FluxOfConstant(c, pf, ul, ur, vl, vr, dt, dx, dy);
    ProductZero(dt, pf, c, (ur - ul) / dx + (vr - vl) / dy);
  }

  /** The padded-level update of an original interior cell of a constant field, whose padding is the constant again. */
  lemma ConstantPaddedUpdate(recon: Recon, c: real, p: Mat<int>, u: Field, v: Field, dt: real, dx: real, dy: real,
                             n: nat, m: nat, i: int, j: int)
    requires ExactOnConstants(recon)
    requires AdvectShapes(Const(n, m, c), p, u, v, n, m) && dx != 0.0 && dy != 0.0
    requires Interior(i, j, n, m)
    ensures var N, M := n + 4, m + 4; var P := Const(N, M, c);
      var ul, ur, vl, vr := u[i - 1][j], u[i][j], v[i][j - 1], v[i][j];
      var x := FluxUpdate(Const(n, m, c)[i][j], p[i][j] as real,
                          RightX(recon, P, N, M, i + 2, j + 2, ur), LeftX(recon, P, N, M, i + 2, j + 2, ul),
                          RightY(recon, P, N, M, i + 2, j + 2, vr), LeftY(recon, P, N, M, i + 2, j + 2, vl),
                          ul, ur, vl, vr, dt, dx, dy);
      var div := (ur - ul) / dx + (vr - vl) / dy;
      x == c - dt * (p[i][j] as real) * c * div &&
      (c != 0.0 && dt != 0.0 ==> (x == c <==> (p[i][j] == 0 || div == 0.0)))
  {
    var ul, ur, vl, vr := u[i - 1][j], u[i][j], v[i][j - 1], v[i][j];
    FacesOfConstant(recon, n + 4, m + 4, c, i + 2, j + 2, ul, ur, vl, vr);
    ConstantUpdate(FluxUpdate(c, p[i][j] as real, c, c, c, c, ul, ur, vl, vr, dt, dx, dy),
                   c, p[i][j] as real, ul, ur, vl, vr, dt, dx, dy);
  }

  /**
   * A constant field c is transported to
   * c - dt * mask * c * ((ur - ul)/dx + (vr - vl)/dy) at each interior cell,
   * so for c != 0 and dt != 0 a cell keeps the constant exactly when its mask
   * is 0 or the discrete divergence of the face velocities vanishes there.
   */
  lemma AdvectConstantField(recon: Recon, c: real, p: Mat<int>, u: Field, v: Field, dt: real, dx: real, dy: real,
                            n: nat, m: nat, i: int, j: int)
    requires ExactOnConstants(recon)
    requires AdvectShapes(Const(n, m, c), p, u, v, n, m) && dx != 0.0 && dy != 0.0
    requires Interior(i, j, n, m)
    ensures var div := (u[i][j] - u[i - 1][j]) / dx + (v[i][j] - v[i][j - 1]) / dy;
      Advect(recon, Const(n, m, c), p, u, v, dt, dx, dy, n, m)[i][j] == c - dt * (p[i][j] as real) * c * div
    ensures c != 0.0 && dt != 0.0 ==>
      (Advect(recon, Const(n, m, c), p, u, v, dt, dx, dy, n, m)[i][j] == c <==>
       (p[i][j] == 0 || (u[i][j] - u[i - 1][j]) / dx + (v[i][j] - v[i][j - 1]) / dy == 0.0))
  {
    AdvectInterior(recon, Const(n, m, c), p, u, v, dt, dx, dy, n, m, i, j);
    PadConstant(n, m, c);
    ConstantPaddedUpdate(recon, c, p, u, v, dt, dx, dy, n, m, i, j);
  }

  /** The same for the kernel's WENO3 formula. */
  lemma WenoConstantField(c: real, p: Mat<int>, u: Field, v: Field, dt: real, dx: real, dy: real,
                          n: nat, m: nat, i: int, j: int)
    requires AdvectShapes(Const(n, m, c), p, u, v, n, m) && dx != 0.0 && dy != 0.0
    requires Interior(i, j, n, m)
    ensures c != 0.0 && dt != 0.0 ==>
      (Advect(Reconstruct, Const(n, m, c), p, u, v, dt, dx, dy, n, m)[i][j] == c <==>
       (p[i][j] == 0 || (u[i][j] - u[i - 1][j]) / dx + (v[i][j] - v[i][j - 1]) / dy == 0.0))
  {
    ReconstructExactOnConstants();
    AdvectConstantField(Reconstruct, c, p, u, v, dt, dx, dy, n, m, i, j);
  }

  // ---------------------------------------------------------------------
  // Methods.

  /** `s[:, :] = s_weno[2:-2, 2:-2]` on arrays. */
  method UnpadInto(s: array2<real>, g: array2<real>)
    requires g.Length0 == s.Length0 + 4 && g.Length1 == s.Length1 + 4 && g != s
    modifies s
    ensures Snapshot(s) == Unpad(Snapshot(g), s.Length0, s.Length1)
  {
    var n, m := s.Length0, s.Length1;
    ghost var s0, g0 := Snapshot(s), Snapshot(g);
    for i := 0 to n
      invariant Snapshot(g) == g0
      invariant forall a, b :: 0 <= a < n && 0 <= b < m ==> s[a, b] == if a < i then g0[a + 2][b + 2] else s0[a][b]
    {
      for j := 0 to m
        invariant Snapshot(g) == g0
        invariant forall a, b :: 0 <= a < n && 0 <= b < m ==>
          s[a, b] == if a < i || (a == i && b < j) then g0[a + 2][b + 2] else s0[a][b]
      {
        s[i, j] := g[i + 2, j + 2];
      }
    }
    FieldExt(Snapshot(s), Unpad(g0, n, m), n, m);
  }

  /** `s_weno`: `s` embedded in two more layers on each side and padded. */
  method PaddedCopy(s: array2<real>) returns (sw: array2<real>)
    requires s.Length0 >= 3 && s.Length1 >= 3
    ensures fresh(sw) && sw.Length0 == s.Length0 + 4 && sw.Length1 == s.Length1 + 4
    ensures Snapshot(sw) == Pad(Snapshot(s), s.Length0, s.Length1)
  {
    sw := EmbedArray(s, 0.0);
    PadInPlace(sw);
    PadLayersIsPad(Snapshot(s), s.Length0, s.Length1);
  }

  /** The padded working copies of `advect_weno3`, swept once with the face formula `recon`. */
  method PaddedSweep(recon: Recon, s: array2<real>, pfl: array2<int>, u: array2<real>, v: array2<real>,
                     dt: real, dx: real, dy: real) returns (sw: array2<real>)
    requires s.Length0 >= 3 && s.Length1 >= 3 && dx != 0.0 && dy != 0.0
    requires pfl.Length0 == s.Length0 && pfl.Length1 == s.Length1
    requires u.Length0 == s.Length0 - 1 && u.Length1 == s.Length1
    requires v.Length0 == s.Length0 && v.Length1 == s.Length1 - 1
    ensures fresh(sw) && sw.Length0 == s.Length0 + 4 && sw.Length1 == s.Length1 + 4
    ensures var n, m := s.Length0, s.Length1;
      Snapshot(sw) == Sweep(recon, Pad(Snapshot(s), n, m), Embed(Snapshot(pfl), n, m, 0),
                            Embed(Snapshot(u), n - 1, m, 0.0), Embed(Snapshot(v), n, m - 1, 0.0), dt, dx, dy, n + 4, m + 4)
  {
    sw := PaddedCopy(s);
    var uw := EmbedArray(u, 0.0);
    var vw := EmbedArray(v, 0.0);
    var pw := EmbedArray(pfl, 0);
    SweepInPlace(recon, sw, pw, uw, vw, dt, dx, dy);
  }

  /** The padding, sweep and copy-back of `advect_weno3`, for the face formula `recon`. */
  method AdvectWith(recon: Recon, s: array2<real>, pfl: array2<int>, u: array2<real>, v: array2<real>,
                    dt: real, dx: real, dy: real)
    requires s.Length0 >= 3 && s.Length1 >= 3 && dx != 0.0 && dy != 0.0
    requires pfl.Length0 == s.Length0 && pfl.Length1 == s.Length1
    requires u.Length0 == s.Length0 - 1 && u.Length1 == s.Length1
    requires v.Length0 == s.Length0 && v.Length1 == s.Length1 - 1
    modifies s
    ensures Snapshot(s) == Advect(recon, old(Snapshot(s)), old(Snapshot(pfl)), old(Snapshot(u)), old(Snapshot(v)),
                                  dt, dx, dy, s.Length0, s.Length1)
  {
    var sw := PaddedSweep(recon, s, pfl, u, v, dt, dx, dy);
    UnpadInto(s, sw);
  }

  /** `advect_weno3(s, pfl, u, v, dt, dx, dy, nx, ny)`, with nx, ny the shape of `s`. */
  method AdvectWeno3(s: array2<real>, pfl: array2<int>, u: array2<real>, v: array2<real>, dt: real, dx: real, dy: real)
    requires s.Length0 >= 3 && s.Length1 >= 3 && dx != 0.0 && dy != 0.0
    requires pfl.Length0 == s.Length0 && pfl.Length1 == s.Length1
    requires u.Length0 == s.Length0 - 1 && u.Length1 == s.Length1
    requires v.Length0 == s.Length0 && v.Length1 == s.Length1 - 1
    modifies s
    ensures Snapshot(s) == Advect(Reconstruct, old(Snapshot(s)), old(Snapshot(pfl)), old(Snapshot(u)), old(Snapshot(v)),
                                  dt, dx, dy, s.Length0, s.Length1)
  {
    AdvectWith(Reconstruct, s, pfl, u, v, dt, dx, dy);
  }

  /** `lmda >= 0` as the 0/1 mask. */
  function MaskNonNegative(lmda: Field, n: nat, m: nat): (p: Mat<int>)
    requires IsShape(lmda, n, m)
    ensures IsShape(p, n, m)
  {
    seq(n, i requires 0 <= i < n => seq(m, j requires 0 <= j < m => if lmda[i][j] >= 0.0 then 1 else 0))
  }

  /** `numpy.ones_like(s, dtype=int)`. */
  function Ones(n: nat, m: nat): (p: Mat<int>)
    ensures IsShape(p, n, m)
  {
    seq(n, i => seq(m, j => 1))
  }

  /** Cells where the marker `lmda` is negative are not advected. */
  lemma DynamicGridFreezesNegative(recon: Recon, lmda: Field, s: Field, u: Field, v: Field, dt: real, dx: real, dy: real,
                                   n: nat, m: nat, i: int, j: int)
    requires IsShape(lmda, n, m) && AdvectShapes(s, MaskNonNegative(lmda, n, m), u, v, n, m) && dx != 0.0 && dy != 0.0
    requires 0 <= i < n && 0 <= j < m && lmda[i][j] < 0.0
    ensures Advect(recon, s, MaskNonNegative(lmda, n, m), u, v, dt, dx, dy, n, m)[i][j] == s[i][j]
  {
    AdvectMaskedCell(recon, s, MaskNonNegative(lmda, n, m), u, v, dt, dx, dy, n, m, i, j);
  }

  /** `advect_dynamic_grid`: advection masked by `lmda >= 0`. */
  method AdvectDynamicGrid(lmda: array2<real>, s: array2<real>, u: array2<real>, v: array2<real>, dt: real, dx: real, dy: real)
    requires s.Length0 >= 3 && s.Length1 >= 3 && dx != 0.0 && dy != 0.0
    requires lmda.Length0 == s.Length0 && lmda.Length1 == s.Length1
    requires u.Length0 == s.Length0 - 1 && u.Length1 == s.Length1
    requires v.Length0 == s.Length0 && v.Length1 == s.Length1 - 1
    modifies s
    ensures Snapshot(s) == Advect(Reconstruct, old(Snapshot(s)), MaskNonNegative(old(Snapshot(lmda)), s.Length0, s.Length1),
                                  old(Snapshot(u)), old(Snapshot(v)), dt, dx, dy, s.Length0, s.Length1)
  {
    var n, m := s.Length0, s.Length1;
    ghost var l0 := Snapshot(lmda);
    var pfl := new int[n, m]((i, j) reads lmda =>
      if 0 <= i < lmda.Length0 && 0 <= j < lmda.Length1 && lmda[i, j] >= 0.0 then 1 else 0);
    FieldExt(Snapshot(pfl), MaskNonNegative(l0, n, m), n, m);
    AdvectWeno3(s, pfl, u, v, dt, dx, dy);
  }

  /** `advect_solid`: advection with the all-ones mask. */
  method AdvectSolid(s: array2<real>, u: array2<real>, v: array2<real>, dt: real, dx: real, dy: real)
    requires s.Length0 >= 3 && s.Length1 >= 3 && dx != 0.0 && dy != 0.0
    requires u.Length0 == s.Length0 - 1 && u.Length1 == s.Length1
    requires v.Length0 == s.Length0 && v.Length1 == s.Length1 - 1
    modifies s
    ensures Snapshot(s) == Advect(Reconstruct, old(Snapshot(s)), Ones(s.Length0, s.Length1), old(Snapshot(u)), old(Snapshot(v)),
                                  dt, dx, dy, s.Length0, s.Length1)
  {
    var n, m := s.Length0, s.Length1;
    var pfl := new int[n, m]((i, j) => 1);
    FieldExt(Snapshot(pfl), Ones(n, m), n, m);
    AdvectWeno3(s, pfl, u, v, dt, dx, dy);
  }
}
