/**
 * `normal_vector_solid` of the visco-elastic subroutines: the unit normal
 * `-(grad sd)/|grad sd|` from centred differences, written into the interior
 * of `adfx` and `adfy`; then the boundary rows of `adfx` and the boundary
 * columns of `adfy` are copied from their inner neighbours.  There is no
 * guard against a vanishing gradient.
 */
module NormalVector {
  import opened Fields

  /** The centred difference `(hi - lo) / 2 / d`. */
  function Centred(hi: real, lo: real, d: real): real
    requires d != 0.0
  {
    (hi - lo) / 2.0 / d
  }

  /** `adf = sqrt(gx**2 + gy**2)`. */
  function Magnitude(sqrt: real -> real, gx: real, gy: real): real {
    sqrt(Sq(gx) + Sq(gy))
  }

  /** The centred x and y differences of `sd` at an interior cell. */
  function GradX(sd: Field, dx: real, n: nat, m: nat, i: int, j: int): real
    requires IsShape(sd, n, m) && Interior(i, j, n, m) && dx != 0.0
  {
    Centred(sd[i + 1][j], sd[i - 1][j], dx)
  }

  function GradY(sd: Field, dy: real, n: nat, m: nat, i: int, j: int): real
    requires IsShape(sd, n, m) && Interior(i, j, n, m) && dy != 0.0
  {
    Centred(sd[i][j + 1], sd[i][j - 1], dy)
  }

  /** The division by `adf` is defined: the gradient magnitude is nonzero at every interior cell. */
  ghost predicate NonFlat(sqrt: real -> real, sd: Field, dx: real, dy: real, n: nat, m: nat)
    requires IsShape(sd, n, m) && dx != 0.0 && dy != 0.0
  {
    forall i, j :: Interior(i, j, n, m) ==> Magnitude(sqrt, GradX(sd, dx, n, m, i, j), GradY(sd, dy, n, m, i, j)) != 0.0
  }

  /** `-g / adf` at an interior cell, for `g` the x (`xdir`) or the y difference. */
  function Component(sqrt: real -> real, sd: Field, dx: real, dy: real, n: nat, m: nat, i: int, j: int, xdir: bool): real
    requires IsShape(sd, n, m) && dx != 0.0 && dy != 0.0 && NonFlat(sqrt, sd, dx, dy, n, m) && Interior(i, j, n, m)
  {
    var gx, gy := GradX(sd, dx, n, m, i, j), GradY(sd, dy, n, m, i, j);
    (if xdir then -gx else -gy) / Magnitude(sqrt, gx, gy)
  }

  /** The interior normal component (0 on the ring, which this field does not supply). */
  function InteriorNormal(sqrt: real -> real, sd: Field, dx: real, dy: real, n: nat, m: nat, xdir: bool): (r: Field)
    requires IsShape(sd, n, m) && dx != 0.0 && dy != 0.0 && NonFlat(sqrt, sd, dx, dy, n, m)
    ensures IsShape(r, n, m)
  {
    seq(n, i requires 0 <= i < n => seq(m, j requires 0 <= j < m =>
      if Interior(i, j, n, m) then Component(sqrt, sd, dx, dy, n, m, i, j, xdir) else 0.0))
  }

  /** `adfx` on return, from its prior contents `ax`: interior written, then rows 0 and n-1 copied inwards. */
  function NormalX(sqrt: real -> real, sd: Field, ax: Field, dx: real, dy: real, n: nat, m: nat): (r: Field)
    requires n >= 3 && m >= 3 && IsShape(sd, n, m) && IsShape(ax, n, m) && dx != 0.0 && dy != 0.0
    requires NonFlat(sqrt, sd, dx, dy, n, m)
    ensures IsShape(r, n, m)
  {
    CopyRows(SetInterior(ax, InteriorNormal(sqrt, sd, dx, dy, n, m, true), n, m), n, m)
  }

  /** `adfy` on return, from its prior contents `ay`: interior written, then columns 0 and m-1 copied inwards. */
  function NormalY(sqrt: real -> real, sd: Field, ay: Field, dx: real, dy: real, n: nat, m: nat): (r: Field)
    requires n >= 3 && m >= 3 && IsShape(sd, n, m) && IsShape(ay, n, m) && dx != 0.0 && dy != 0.0
    requires NonFlat(sqrt, sd, dx, dy, n, m)
    ensures IsShape(r, n, m)
  {
    CopyCols(SetInterior(ay, InteriorNormal(sqrt, sd, dx, dy, n, m, false), n, m), n, m)
  }

  /** `(-gx/adf)**2 + (-gy/adf)**2 == 1` whenever `adf = sqrt(gx**2 + gy**2)` is nonzero. */
  lemma UnitScalar(sqrt: real -> real, gx: real, gy: real)
    requires SqrtLaw(sqrt) && Magnitude(sqrt, gx, gy) != 0.0
    ensures var a := Magnitude(sqrt, gx, gy); Sq(-gx / a) + Sq(-gy / a) == 1.0
  {
    var a := Magnitude(sqrt, gx, gy);
    var b := 1.0 / a;
    assert a * b == 1.0;
    assert a * a == gx * gx + gy * gy;
    assert -gx / a == -gx * b && -gy / a == -gy * b;
    assert Sq(-gx / a) == Sq(-gx * b) == (gx * gx) * (b * b);
    assert Sq(-gy / a) == Sq(-gy * b) == (gy * gy) * (b * b);
    assert (gx * gx + gy * gy) * (b * b) == (a * a) * (b * b) == (a * b) * (a * b);
  }

  /** At every interior cell the normal has unit length. */
  lemma NormalIsUnit(sqrt: real -> real, sd: Field, dx: real, dy: real, n: nat, m: nat, i: int, j: int)
    requires SqrtLaw(sqrt) && IsShape(sd, n, m) && dx != 0.0 && dy != 0.0 && NonFlat(sqrt, sd, dx, dy, n, m)
    requires Interior(i, j, n, m)
    ensures Sq(Component(sqrt, sd, dx, dy, n, m, i, j, true)) + Sq(Component(sqrt, sd, dx, dy, n, m, i, j, false)) == 1.0
  {
    UnitScalar(sqrt, GradX(sd, dx, n, m, i, j), GradY(sd, dy, n, m, i, j));
  }

  /** With positive spacings, each component has the sign opposite to the centred difference of `sd`. */
  lemma NormalOpposesGradient(sqrt: real -> real, sd: Field, dx: real, dy: real, n: nat, m: nat, i: int, j: int)
    requires SqrtLaw(sqrt) && IsShape(sd, n, m) && dx > 0.0 && dy > 0.0 && NonFlat(sqrt, sd, dx, dy, n, m)
    requires Interior(i, j, n, m)
    ensures Component(sqrt, sd, dx, dy, n, m, i, j, true) > 0.0 <==> sd[i + 1][j] < sd[i - 1][j]
    ensures Component(sqrt, sd, dx, dy, n, m, i, j, true) < 0.0 <==> sd[i + 1][j] > sd[i - 1][j]
    ensures Component(sqrt, sd, dx, dy, n, m, i, j, false) > 0.0 <==> sd[i][j + 1] < sd[i][j - 1]
    ensures Component(sqrt, sd, dx, dy, n, m, i, j, false) < 0.0 <==> sd[i][j + 1] > sd[i][j - 1]
  {
    var gx, gy := GradX(sd, dx, n, m, i, j), GradY(sd, dy, n, m, i, j);
    var a := Magnitude(sqrt, gx, gy);
    assert a > 0.0;
    assert gx > 0.0 <==> sd[i + 1][j] > sd[i - 1][j];
    assert gx < 0.0 <==> sd[i + 1][j] < sd[i - 1][j];
    assert gy > 0.0 <==> sd[i][j + 1] > sd[i][j - 1];
    assert gy < 0.0 <==> sd[i][j + 1] < sd[i][j - 1];
  }

  /**
   * Where each line lands: interior cells hold the normal; rows 0 and n-1 of
   * `adfx` repeat rows 1 and n-2 (their end cells included); columns 0 and m-1
   * of `adfx` keep their prior contents on rows 1..n-2.  Symmetrically for
   * `adfy` with rows and columns exchanged.
   */
  lemma NormalLines(sqrt: real -> real, sd: Field, ax: Field, ay: Field, dx: real, dy: real, n: nat, m: nat, i: int, j: int)
    requires n >= 3 && m >= 3 && IsShape(sd, n, m) && IsShape(ax, n, m) && IsShape(ay, n, m) && dx != 0.0 && dy != 0.0
    requires NonFlat(sqrt, sd, dx, dy, n, m)
    requires 0 <= i < n && 0 <= j < m
    ensures var X, Y := NormalX(sqrt, sd, ax, dx, dy, n, m), NormalY(sqrt, sd, ay, dx, dy, n, m);
      (Interior(i, j, n, m) ==> X[i][j] == Component(sqrt, sd, dx, dy, n, m, i, j, true) &&
                                Y[i][j] == Component(sqrt, sd, dx, dy, n, m, i, j, false)) &&
      X[0][j] == X[1][j] && X[n - 1][j] == X[n - 2][j] && Y[i][0] == Y[i][1] && Y[i][m - 1] == Y[i][m - 2] &&
      (1 <= i < n - 1 ==> X[i][0] == ax[i][0] && X[i][m - 1] == ax[i][m - 1]) &&
      (1 <= j < m - 1 ==> Y[0][j] == ay[0][j] && Y[n - 1][j] == ay[n - 1][j])
  {
  }

  /** One interior cell of the normal component, read from the array. */
  function NormalAt(sqrt: real -> real, sd: array2<real>, dx: real, dy: real, xdir: bool, i: int, j: int): (r: real)
    requires dx != 0.0 && dy != 0.0
    reads sd
    ensures 0 <= i < sd.Length0 && 0 <= j < sd.Length1 && NonFlat(sqrt, Snapshot(sd), dx, dy, sd.Length0, sd.Length1) ==>
      r == InteriorNormal(sqrt, Snapshot(sd), dx, dy, sd.Length0, sd.Length1, xdir)[i][j]
  {
    if Interior(i, j, sd.Length0, sd.Length1) then
      var gx, gy := Centred(sd[i + 1, j], sd[i - 1, j], dx), Centred(sd[i, j + 1], sd[i, j - 1], dy);
      var a := Magnitude(sqrt, gx, gy);
      if a != 0.0 then (if xdir then -gx else -gy) / a else 0.0
    else 0.0
  }

  /** `normal_vector_solid(sd, adfx, adfy, dx, dy, nx, ny)` (`nx`, `ny` are not used). */
  method NormalVectorSolid(sqrt: real -> real, sd: array2<real>, adfx: array2<real>, adfy: array2<real>, dx: real, dy: real)
    requires sd.Length0 >= 3 && sd.Length1 >= 3 && dx != 0.0 && dy != 0.0
    requires adfx.Length0 == sd.Length0 && adfx.Length1 == sd.Length1
    requires adfy.Length0 == sd.Length0 && adfy.Length1 == sd.Length1
    requires sd != adfx && sd != adfy && adfx != adfy
    requires NonFlat(sqrt, Snapshot(sd), dx, dy, sd.Length0, sd.Length1)
    modifies adfx, adfy
    ensures Snapshot(adfx) == NormalX(sqrt, Snapshot(sd), old(Snapshot(adfx)), dx, dy, sd.Length0, sd.Length1)
    ensures Snapshot(adfy) == NormalY(sqrt, Snapshot(sd), old(Snapshot(adfy)), dx, dy, sd.Length0, sd.Length1)
  {
    var n, m := sd.Length0, sd.Length1;
    ghost var S, ax, ay := Snapshot(sd), Snapshot(adfx), Snapshot(adfy);
    var nx := new real[n, m]((i, j) reads sd => NormalAt(sqrt, sd, dx, dy, true, i, j));
    var ny := new real[n, m]((i, j) reads sd => NormalAt(sqrt, sd, dx, dy, false, i, j));
    FieldExt(Snapshot(nx), InteriorNormal(sqrt, S, dx, dy, n, m, true), n, m);
    FieldExt(Snapshot(ny), InteriorNormal(sqrt, S, dx, dy, n, m, false), n, m);
    WriteInterior(adfx, nx);
    CopyRowInPlace(adfx, 0, 1);
    CopyRowInPlace(adfx, n - 1, n - 2);
    WriteInterior(adfy, ny);
    CopyColInPlace(adfy, 0, 1);
    CopyColInPlace(adfy, m - 1, m - 2);
  }
}
