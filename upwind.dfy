/**
 * The first-order upwind directional derivative shared by
 * `directional_derivative`, `constant_extrapolation` and
 * `linear_extrapolation`: with one-sided differences
 * `sxmins = (so[i] - so[i-1])/dx`, `sxplus = (so[i+1] - so[i])/dx` (and the
 * same in j with dy), the derivative along (a, b) is
 * `max(a,0)*sxmins + min(a,0)*sxplus + max(b,0)*symins + min(b,0)*syplus`.
 */
module Upwind {
  import opened Fields

  /** `max(a, 0) * minus + min(a, 0) * plus`. */
  function UpwindTerm(a: real, minus: real, plus: real): real {
    Max(a, 0.0) * minus + Min(a, 0.0) * plus
  }

  /** A positive component takes the backward difference, a negative one the forward difference, zero neither. */
  lemma UpwindTermSelects(a: real, minus: real, plus: real)
    ensures a > 0.0 ==> UpwindTerm(a, minus, plus) == a * minus
    ensures a < 0.0 ==> UpwindTerm(a, minus, plus) == a * plus
    ensures a == 0.0 ==> UpwindTerm(a, minus, plus) == 0.0
  {
  }

  /** A one-sided difference `(hi - lo) / d`. */
  function Slope(hi: real, lo: real, d: real): real
    requires d != 0.0
  {
    (hi - lo) / d
  }

  /** The upwind derivative along (a, b) at a cell of value `sm` with neighbours `sxl`, `sxr`, `syl`, `syr`. */
  function UpwindAt(sm: real, sxl: real, sxr: real, syl: real, syr: real, a: real, b: real, dx: real, dy: real): real
    requires dx != 0.0 && dy != 0.0
  {
    UpwindTerm(a, Slope(sm, sxl, dx), Slope(sxr, sm, dx)) + UpwindTerm(b, Slope(sm, syl, dy), Slope(syr, sm, dy))
  }

  /** The upwind derivative of the field `so` along (a, b) at the interior cell (i, j). */
  function Derivative(so: Field, a: real, b: real, dx: real, dy: real, n: nat, m: nat, i: int, j: int): real
    requires dx != 0.0 && dy != 0.0 && IsShape(so, n, m) && Interior(i, j, n, m)
  {
    UpwindAt(so[i][j], so[i - 1][j], so[i + 1][j], so[i][j - 1], so[i][j + 1], a, b, dx, dy)
  }

  /** Where the four neighbours equal the cell, the derivative is 0 in every direction. */
  lemma UpwindAtFlat(c: real, a: real, b: real, dx: real, dy: real)
    requires dx != 0.0 && dy != 0.0
    ensures UpwindAt(c, c, c, c, c, a, b, dx, dy) == 0.0
  {
    assert Slope(c, c, dx) == 0.0 && Slope(c, c, dy) == 0.0;
  }

  /** A constant field has derivative 0 at every interior cell. */
  lemma DerivativeOfConstant(c: real, a: real, b: real, dx: real, dy: real, n: nat, m: nat, i: int, j: int)
    requires dx != 0.0 && dy != 0.0 && Interior(i, j, n, m)
    ensures Derivative(Const(n, m, c), a, b, dx, dy, n, m, i, j) == 0.0
  {
    UpwindAtFlat(c, a, b, dx, dy);
  }

  /**
   * Upwinding by the sign of the direction: a positive x component reads the
   * backward difference `so[i] - so[i-1]`, a negative one the forward
   * difference `so[i+1] - so[i]`, and 0 neither; the same in y.
   */
  lemma DerivativeSelects(so: Field, a: real, b: real, dx: real, dy: real, n: nat, m: nat, i: int, j: int)
    requires dx != 0.0 && dy != 0.0 && IsShape(so, n, m) && Interior(i, j, n, m)
    ensures Derivative(so, a, b, dx, dy, n, m, i, j) ==
      (if a > 0.0 then a * Slope(so[i][j], so[i - 1][j], dx) else if a < 0.0 then a * Slope(so[i + 1][j], so[i][j], dx) else 0.0) +
      (if b > 0.0 then b * Slope(so[i][j], so[i][j - 1], dy) else if b < 0.0 then b * Slope(so[i][j + 1], so[i][j], dy) else 0.0)
  {
    UpwindTermSelects(a, Slope(so[i][j], so[i - 1][j], dx), Slope(so[i + 1][j], so[i][j], dx));
    UpwindTermSelects(b, Slope(so[i][j], so[i][j - 1], dy), Slope(so[i][j + 1], so[i][j], dy));
  }

  /** `alpha * x + beta * y`. */
  function Lin(alpha: real, x: real, beta: real, y: real): real {
    alpha * x + beta * y
  }

  /** `alpha * f + beta * g`, elementwise. */
  function Combine(f: Field, g: Field, alpha: real, beta: real, n: nat, m: nat): (h: Field)
    requires IsShape(f, n, m) && IsShape(g, n, m)
    ensures IsShape(h, n, m)
    ensures forall i, j :: 0 <= i < n && 0 <= j < m ==> h[i][j] == Lin(alpha, f[i][j], beta, g[i][j])
  {
    seq(n, i requires 0 <= i < n => seq(m, j requires 0 <= j < m => Lin(alpha, f[i][j], beta, g[i][j])))
  }

  /** A one-sided difference of a combination is the combination of the differences. */
  lemma SlopeLinear(x1: real, x0: real, y1: real, y0: real, alpha: real, beta: real, d: real)
    requires d != 0.0
    ensures Slope(Lin(alpha, x1, beta, y1), Lin(alpha, x0, beta, y0), d) == Lin(alpha, Slope(x1, x0, d), beta, Slope(y1, y0, d))
  {
    assert (alpha * x1 + beta * y1) - (alpha * x0 + beta * y0) == alpha * (x1 - x0) + beta * (y1 - y0);
  }

  /** The upwind term is linear in the two differences it selects from. */
  lemma UpwindTermLinear(a: real, m1: real, p1: real, m2: real, p2: real, alpha: real, beta: real)
    ensures UpwindTerm(a, Lin(alpha, m1, beta, m2), Lin(alpha, p1, beta, p2))
         == Lin(alpha, UpwindTerm(a, m1, p1), beta, UpwindTerm(a, m2, p2))
  {
    var P, N := Max(a, 0.0), Min(a, 0.0);
    assert P * (alpha * m1 + beta * m2) == alpha * (P * m1) + beta * (P * m2);
    assert N * (alpha * p1 + beta * p2) == alpha * (N * p1) + beta * (N * p2);
  }

  /** The x and y parts of the upwind derivative add up linearly. */
  lemma SumLinear(x1: real, y1: real, x2: real, y2: real, alpha: real, beta: real)
    ensures Lin(alpha, x1, beta, x2) + Lin(alpha, y1, beta, y2) == Lin(alpha, x1 + y1, beta, x2 + y2)
  {
  }

  /** The upwind derivative at a cell is linear in the five values it reads. */
  lemma UpwindAtLinear(sm1: real, sxl1: real, sxr1: real, syl1: real, syr1: real,
                       sm2: real, sxl2: real, sxr2: real, syl2: real, syr2: real,
                       a: real, b: real, alpha: real, beta: real, dx: real, dy: real)
    requires dx != 0.0 && dy != 0.0
    ensures UpwindAt(Lin(alpha, sm1, beta, sm2), Lin(alpha, sxl1, beta, sxl2), Lin(alpha, sxr1, beta, sxr2),
                     Lin(alpha, syl1, beta, syl2), Lin(alpha, syr1, beta, syr2), a, b, dx, dy)
         == Lin(alpha, UpwindAt(sm1, sxl1, sxr1, syl1, syr1, a, b, dx, dy), beta, UpwindAt(sm2, sxl2, sxr2, syl2, syr2, a, b, dx, dy))
  {
    SlopeLinear(sm1, sxl1, sm2, sxl2, alpha, beta, dx);
    SlopeLinear(sxr1, sm1, sxr2, sm2, alpha, beta, dx);
    SlopeLinear(sm1, syl1, sm2, syl2, alpha, beta, dy);
    SlopeLinear(syr1, sm1, syr2, sm2, alpha, beta, dy);
    UpwindTermLinear(a, Slope(sm1, sxl1, dx), Slope(sxr1, sm1, dx), Slope(sm2, sxl2, dx), Slope(sxr2, sm2, dx), alpha, beta);
    UpwindTermLinear(b, Slope(sm1, syl1, dy), Slope(syr1, sm1, dy), Slope(sm2, syl2, dy), Slope(syr2, sm2, dy), alpha, beta);
    SumLinear(UpwindTerm(a, Slope(sm1, sxl1, dx), Slope(sxr1, sm1, dx)), UpwindTerm(b, Slope(sm1, syl1, dy), Slope(syr1, sm1, dy)),
              UpwindTerm(a, Slope(sm2, sxl2, dx), Slope(sxr2, sm2, dx)), UpwindTerm(b, Slope(sm2, syl2, dy), Slope(syr2, sm2, dy)),
              alpha, beta);
  }

  /** The derivative at a cell is linear in the field. */
  lemma DerivativeLinear(f: Field, g: Field, alpha: real, beta: real, a: real, b: real, dx: real, dy: real,
                         n: nat, m: nat, i: int, j: int)
    requires dx != 0.0 && dy != 0.0 && IsShape(f, n, m) && IsShape(g, n, m) && Interior(i, j, n, m)
    ensures Derivative(Combine(f, g, alpha, beta, n, m), a, b, dx, dy, n, m, i, j)
         == Lin(alpha, Derivative(f, a, b, dx, dy, n, m, i, j), beta, Derivative(g, a, b, dx, dy, n, m, i, j))
  {
    var h := Combine(f, g, alpha, beta, n, m);
    assert h[i][j] == Lin(alpha, f[i][j], beta, g[i][j]);
    assert h[i - 1][j] == Lin(alpha, f[i - 1][j], beta, g[i - 1][j]);
    assert h[i + 1][j] == Lin(alpha, f[i + 1][j], beta, g[i + 1][j]);
    assert h[i][j - 1] == Lin(alpha, f[i][j - 1], beta, g[i][j - 1]);
    assert h[i][j + 1] == Lin(alpha, f[i][j + 1], beta, g[i][j + 1]);
    UpwindAtLinear(f[i][j], f[i - 1][j], f[i + 1][j], f[i][j - 1], f[i][j + 1],
                   g[i][j], g[i - 1][j], g[i + 1][j], g[i][j - 1], g[i][j + 1], a, b, alpha, beta, dx, dy);
    assert Derivative(h, a, b, dx, dy, n, m, i, j)
        == UpwindAt(h[i][j], h[i - 1][j], h[i + 1][j], h[i][j - 1], h[i][j + 1], a, b, dx, dy);
  }
}
