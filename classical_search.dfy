/**
 * The classical level-set mapper of the immersed boundary: for every mesh
 * point the signed distance to a closed polygon of particle points, with the
 * magnitude the smallest distance to an edge (projection parameter clamped
 * to [0, 1]) and the sign from the parity of the crossings of the horizontal
 * ray to the right: odd (inside) gives `+dist`, even gives `-dist`.
 * Two entry points share the kernel: `_search_jit` sweeps `phi[j, i]` with
 * `j` outer, and the older `_jit_classical_search` sweeps a fresh `phi[i, j]`
 * with `i` outer; both are a row-major sweep of a window of the arrays.
 */
module ClassicalSearch {
  import opened Fields

  datatype Point = Point(x: real, y: real)

  /** The edge from `a` to `b`. */
  datatype Edge = Edge(a: Point, b: Point)

  /** The distance every mesh point starts from, `1e13`. */
  const FarDistance: real := 10000000000000.0

  /** Edge `p` of the polygon: from point `p` to point `p + 1`, the last one back to the first. */
  function EdgeOf(pts: seq<Point>, p: int): (e: Edge)
    requires 0 <= p < |pts|
    ensures e.a == pts[p]
  {
    Edge(pts[p], if p == |pts| - 1 then pts[0] else pts[p + 1])
  }

  /** The polygon is closed: edge `p` ends where edge `p + 1` (cyclically) starts. */
  lemma PolygonClosed(pts: seq<Point>, p: int)
    requires 0 <= p < |pts|
    ensures EdgeOf(pts, p).b == pts[(p + 1) % |pts|]
    ensures EdgeOf(pts, p).b == EdgeOf(pts, (p + 1) % |pts|).a
  {
    if p == |pts| - 1 {
      assert (p + 1) % |pts| == 0;
    } else {
      assert (p + 1) % |pts| == p + 1;
    }
  }

  function SqDist(p: Point, q: Point): (r: real)
    ensures r >= 0.0
  {
    Sq(p.x - q.x) + Sq(p.y - q.y)
  }

  /** The squared length of an edge, the divisor of the projection parameter. */
  function Denom(e: Edge): real {
    Sq(e.b.x - e.a.x) + Sq(e.b.y - e.a.y)
  }

  predicate Degenerate(e: Edge) {
    Denom(e) == 0.0
  }

  /** The projection divides by zero exactly when the edge has coinciding endpoints. */
  lemma DegenerateIff(e: Edge)
    ensures Degenerate(e) <==> e.a == e.b
  {
    if e.a != e.b {
      if e.b.x - e.a.x != 0.0 {
        SquarePositive(e.b.x - e.a.x);
      } else {
        SquarePositive(e.b.y - e.a.y);
      }
    }
  }

  /** No edge of the polygon has coinciding endpoints. */
  predicate NoDegenerateEdge(pts: seq<Point>) {
    forall p :: 0 <= p < |pts| ==> !Degenerate(EdgeOf(pts, p))
  }

  /** No edge among the first `k` has coinciding endpoints. */
  predicate NoDegeneratePrefix(pts: seq<Point>, k: int)
    requires 0 <= k <= |pts|
  {
    forall p :: 0 <= p < k ==> !Degenerate(EdgeOf(pts, p))
  }

  function Prod(w: real, d: real): real { w * d }

  /** `(q - a) . (b - a)`. */
  function Dot(q: Point, e: Edge): real {
    Prod(q.x - e.a.x, e.b.x - e.a.x) + Prod(q.y - e.a.y, e.b.y - e.a.y)
  }

  /** The unclamped projection parameter of `q` onto the line of `e`. */
  function Param(q: Point, e: Edge): real
    requires !Degenerate(e)
  {
    Dot(q, e) / Denom(e)
  }

  lemma ParamScaled(q: Point, e: Edge)
    requires !Degenerate(e)
    ensures Denom(e) > 0.0 && Dot(q, e) == Prod(Param(q, e), Denom(e))
  {
    var den := Denom(e);
    var k := 1.0 / den;
    assert den * k == 1.0;
    assert Param(q, e) == Dot(q, e) * k;
    assert Param(q, e) * den == Dot(q, e) * (k * den);
  }

  /** `u` moved into [0, 1]. */
  function ClampUnit(u: real): (r: real)
    ensures 0.0 <= r <= 1.0
    ensures 0.0 <= u <= 1.0 ==> r == u
    ensures u < 0.0 ==> r == 0.0
    ensures u > 1.0 ==> r == 1.0
  {
    if u < 0.0 then 0.0 else if u > 1.0 then 1.0 else u
  }

  /** The point `a + (b - a) * t` of the line of `e`. */
  function Lerp(e: Edge, t: real): Point {
    Point(e.a.x + (e.b.x - e.a.x) * t, e.a.y + (e.b.y - e.a.y) * t)
  }

  /** `P0 = PA + (PB - PA) * u` with the clamped parameter. */
  function Closest(q: Point, e: Edge): Point
    requires !Degenerate(e)
  {
    Lerp(e, ClampUnit(Param(q, e)))
  }

  /** The distance from `q` to the clamped closest point of `e`. */
  function EdgeDistance(sqrt: real -> real, q: Point, e: Edge): real
    requires !Degenerate(e)
  {
    sqrt(SqDist(q, Closest(q, e)))
  }

  /** `(w - t d)^2` expanded in `t`. */
  lemma SquareInT(w: real, d: real, t: real)
    ensures Sq(w - t * d) == Sq(w) - 2.0 * t * Prod(w, d) + t * t * Sq(d)
  {
  }

  /** `a - 2 x wd + x^2 den`. */
  function Quad(a: real, wd: real, den: real, x: real): real {
    a - 2.0 * x * wd + x * x * den
  }

  /** The squared distance from `q` to a point of the line, as a quadratic in its parameter. */
  lemma SqDistAlong(q: Point, e: Edge, t: real)
    ensures SqDist(q, Lerp(e, t)) == Quad(SqDist(q, e.a), Dot(q, e), Denom(e), t)
  {
    var wx, wy, dx, dy := q.x - e.a.x, q.y - e.a.y, e.b.x - e.a.x, e.b.y - e.a.y;
    LerpOffset(q, e, t);
    SquareInT(wx, dx, t);
    SquareInT(wy, dy, t);
    QuadSum(Sq(wx), Prod(wx, dx), Sq(dx), Sq(wy), Prod(wy, dy), Sq(dy), t);
  }

  lemma LerpOffset(q: Point, e: Edge, t: real)
    ensures q.x - Lerp(e, t).x == (q.x - e.a.x) - t * (e.b.x - e.a.x)
    ensures q.y - Lerp(e, t).y == (q.y - e.a.y) - t * (e.b.y - e.a.y)
  {
  }

  lemma QuadSum(a1: real, w1: real, d1: real, a2: real, w2: real, d2: real, t: real)
    ensures (a1 - 2.0 * t * w1 + t * t * d1) + (a2 - 2.0 * t * w2 + t * t * d2) == Quad(a1 + a2, w1 + w2, d1 + d2, t)
  {
  }

  /** The quadratic with vertex `s` is no smaller at `t` than at `c` when `(t - c)(t + c - 2s) >= 0`. */
  lemma QuadraticGap(a: real, wd: real, den: real, s: real, t: real, c: real)
    requires den > 0.0 && wd == s * den && (t - c) * (t + c - 2.0 * s) >= 0.0
    ensures Quad(a, wd, den, c) <= Quad(a, wd, den, t)
  {
    var g := (t - c) * (t + c - 2.0 * s);
    NonNegProduct(den, g);
    assert Quad(a, wd, den, t) - Quad(a, wd, den, c) == den * g;
  }

  /** The clamped parameter minimises the quadratic over [0, 1]. */
  lemma ClampedIsMinimum(s: real, t: real)
    requires 0.0 <= t <= 1.0
    ensures (t - ClampUnit(s)) * (t + ClampUnit(s) - 2.0 * s) >= 0.0
  {
    var c := ClampUnit(s);
    if s < 0.0 {
      NonNegProduct(t, t - 2.0 * s);
    } else if s > 1.0 {
      NonNegProduct(1.0 - t, 2.0 * s - t - 1.0);
      assert (1.0 - t) * (2.0 * s - t - 1.0) == (t - 1.0) * (t + 1.0 - 2.0 * s);
    } else {
      assert (t - c) * (t + c - 2.0 * s) == Sq(t - s);
    }
  }

  /** Over [0, 1] the quadratic with vertex `s` is smallest at the clamped vertex. */
  lemma ClampedMinimisesQuad(a: real, wd: real, den: real, s: real, t: real)
    requires den > 0.0 && wd == Prod(s, den) && 0.0 <= t <= 1.0
    ensures Quad(a, wd, den, ClampUnit(s)) <= Quad(a, wd, den, t)
  {
    ClampedIsMinimum(s, t);
    QuadraticGap(a, wd, den, s, t, ClampUnit(s));
  }

  /** The clamped closest point is the point of the segment nearest to `q`. */
  lemma ClosestIsNearest(q: Point, e: Edge, t: real)
    requires !Degenerate(e) && 0.0 <= t <= 1.0
    ensures SqDist(q, Closest(q, e)) <= SqDist(q, Lerp(e, t))
  {
    var s := Param(q, e);
    var c := ClampUnit(s);
    ParamScaled(q, e);
    SqDistAlong(q, e, t);
    SqDistAlong(q, e, c);
    ClampedMinimisesQuad(SqDist(q, e.a), Dot(q, e), Denom(e), s, t);
  }

  lemma SqrtMonotone(sqrt: real -> real, a: real, b: real)
    requires SqrtLaw(sqrt) && 0.0 <= a <= b
    ensures sqrt(a) <= sqrt(b)
  {
    if sqrt(a) > sqrt(b) {
      SquareMonotone(sqrt(a), sqrt(b));
    }
  }

  /** The edge distance is the distance from `q` to the nearest point of the segment. */
  lemma EdgeDistanceIsNearest(sqrt: real -> real, q: Point, e: Edge, t: real)
    requires SqrtLaw(sqrt) && !Degenerate(e) && 0.0 <= t <= 1.0
    ensures 0.0 <= EdgeDistance(sqrt, q, e) <= sqrt(SqDist(q, Lerp(e, t)))
  {
    ClosestIsNearest(q, e, t);
    SqrtMonotone(sqrt, SqDist(q, Closest(q, e)), SqDist(q, Lerp(e, t)));
  }

  /** `miny < y < maxy` for the edge's endpoints. */
  predicate Straddles(yq: real, e: Edge) {
    Min(e.a.y, e.b.y) < yq < Max(e.a.y, e.b.y)
  }

  /** `xit = (mratio * PB.x + nratio * PA.x) / (mratio + nratio)`. */
  function CrossX(yq: real, e: Edge): real
    requires Straddles(yq, e)
  {
    var mratio, nratio := e.a.y - yq, yq - e.b.y;
    (mratio * e.b.x + nratio * e.a.x) / (mratio + nratio)
  }

  /**
   * `xit` is where the horizontal line at `yq` meets the edge: at the
   * parameter `(yq - a.y) / (b.y - a.y)`, strictly inside (0, 1), so it lies
   * between the endpoints' x values.
   */
  lemma CrossXOnEdge(yq: real, e: Edge)
    requires Straddles(yq, e)
    ensures var t := (yq - e.a.y) / (e.b.y - e.a.y);
      0.0 < t < 1.0 && Lerp(e, t) == Point(CrossX(yq, e), yq)
    ensures Min(e.a.x, e.b.x) <= CrossX(yq, e) <= Max(e.a.x, e.b.x)
  {
    var mr, nr := e.a.y - yq, yq - e.b.y;
    var D := mr + nr;
    var k := 1.0 / D;
    assert D * k == 1.0;
    var t := (yq - e.a.y) / (e.b.y - e.a.y);
    assert t == mr * k;
    assert CrossX(yq, e) == (mr * e.b.x + nr * e.a.x) * k;
    assert nr * k == 1.0 - t by {
      assert (mr + nr) * k == 1.0;
    }
    assert e.a.y + (e.b.y - e.a.y) * t == yq by {
      assert (e.b.y - e.a.y) * t == -D * (mr * k);
      assert D * (mr * k) == mr * (D * k);
    }
    assert CrossX(yq, e) == e.a.x + (e.b.x - e.a.x) * t by {
      assert (mr * e.b.x + nr * e.a.x) * k == e.b.x * (mr * k) + e.a.x * (nr * k);
    }
    if D > 0.0 {
      PositiveProduct(mr, k);
      PositiveProduct(nr, k);
    } else {
      PositiveProduct(-mr, -k);
      PositiveProduct(-nr, -k);
      assert (-mr) * (-k) == mr * k && (-nr) * (-k) == nr * k;
    }
    BetweenEnds(e.a.x, e.b.x, t);
  }

  lemma BetweenEnds(a: real, b: real, t: real)
    requires 0.0 < t < 1.0
    ensures Min(a, b) <= a + (b - a) * t <= Max(a, b)
  {
    var d := b - a;
    assert d * t + d * (1.0 - t) == d;
    if d >= 0.0 {
      NonNegProduct(d, t);
      NonNegProduct(d, 1.0 - t);
    } else {
      NonNegProduct(-d, t);
      NonNegProduct(-d, 1.0 - t);
      assert (-d) * t == -(d * t) && (-d) * (1.0 - t) == -(d * (1.0 - t));
    }
  }

  /** The ray from `q` to the right crosses `e`. */
  predicate Crosses(q: Point, e: Edge) {
    Straddles(q.y, e) && CrossX(q.y, e) >= q.x
  }

  /** How many of the first `k` edges the ray from `q` crosses. */
  function CrossCount(q: Point, pts: seq<Point>, k: int): (r: nat)
    requires 0 <= k <= |pts|
    ensures r <= k
  {
    if k == 0 then 0 else CrossCount(q, pts, k - 1) + (if Crosses(q, EdgeOf(pts, k - 1)) then 1 else 0)
  }

  /** `min(dist, ...)` over the first `k` edges, starting from `1e13`. */
  function MinDist(sqrt: real -> real, q: Point, pts: seq<Point>, k: int): real
    requires 0 <= k <= |pts| && NoDegeneratePrefix(pts, k)
  {
    if k == 0 then FarDistance else Min(MinDist(sqrt, q, pts, k - 1), EdgeDistance(sqrt, q, EdgeOf(pts, k - 1)))
  }

  /** The running minimum is below `1e13` and below every edge distance seen. */
  lemma {:induction false} MinDistBelow(sqrt: real -> real, q: Point, pts: seq<Point>, k: int)
    requires 0 <= k <= |pts| && NoDegeneratePrefix(pts, k)
    ensures MinDist(sqrt, q, pts, k) <= FarDistance
    ensures forall p :: 0 <= p < k ==> MinDist(sqrt, q, pts, k) <= EdgeDistance(sqrt, q, EdgeOf(pts, p))
  {
    if k > 0 {
      MinDistBelow(sqrt, q, pts, k - 1);
    }
  }

  /** The running minimum is `1e13` or the distance to one of the edges seen. */
  lemma {:induction false} MinDistAttained(sqrt: real -> real, q: Point, pts: seq<Point>, k: int)
    requires 0 <= k <= |pts| && NoDegeneratePrefix(pts, k)
    ensures MinDist(sqrt, q, pts, k) == FarDistance ||
            exists p :: 0 <= p < k && MinDist(sqrt, q, pts, k) == EdgeDistance(sqrt, q, EdgeOf(pts, p))
  {
    if k > 0 {
      MinDistAttained(sqrt, q, pts, k - 1);
    }
  }

  /** With a square root, the running minimum is never negative. */
  lemma {:induction false} MinDistNonNegative(sqrt: real -> real, q: Point, pts: seq<Point>, k: int)
    requires SqrtLaw(sqrt) && 0 <= k <= |pts| && NoDegeneratePrefix(pts, k)
    ensures MinDist(sqrt, q, pts, k) >= 0.0
  {
    if k > 0 {
      MinDistNonNegative(sqrt, q, pts, k - 1);
      assert EdgeDistance(sqrt, q, EdgeOf(pts, k - 1)) >= 0.0;
    }
  }

  /** `phi = dist`, negated when the crossing count is even. */
  function Level(dist: real, count: nat): (r: real)
    ensures dist >= 0.0 ==> Abs(r) == dist
    ensures dist > 0.0 ==> (r > 0.0 <==> count % 2 == 1)
  {
    if count % 2 == 0 then -dist else dist
  }

  /** The value the search writes for the mesh point `q`. */
  function LevelAt(sqrt: real -> real, q: Point, pts: seq<Point>): real
    requires NoDegenerateEdge(pts)
  {
    Level(MinDist(sqrt, q, pts, |pts|), CrossCount(q, pts, |pts|))
  }

  /**
   * `|phi|` is the distance from `q` to the polygon's edges: no point of any
   * edge is nearer, and it is the distance to one of them unless it kept the
   * starting `1e13`. Its sign is `+` exactly for an odd crossing count.
   */
  lemma LevelAtIsSignedDistance(sqrt: real -> real, q: Point, pts: seq<Point>)
    requires SqrtLaw(sqrt) && NoDegenerateEdge(pts)
    ensures Abs(LevelAt(sqrt, q, pts)) <= FarDistance
    ensures forall p, t :: 0 <= p < |pts| && 0.0 <= t <= 1.0 ==>
      Abs(LevelAt(sqrt, q, pts)) <= sqrt(SqDist(q, Lerp(EdgeOf(pts, p), t)))
    ensures Abs(LevelAt(sqrt, q, pts)) == FarDistance ||
            exists p :: 0 <= p < |pts| && Abs(LevelAt(sqrt, q, pts)) == EdgeDistance(sqrt, q, EdgeOf(pts, p))
    ensures Abs(LevelAt(sqrt, q, pts)) > 0.0 ==>
      (LevelAt(sqrt, q, pts) > 0.0 <==> CrossCount(q, pts, |pts|) % 2 == 1)
  {
    var k := |pts|;
    MinDistNonNegative(sqrt, q, pts, k);
    MinDistBelow(sqrt, q, pts, k);
    MinDistAttained(sqrt, q, pts, k);
    forall p, t | 0 <= p < |pts| && 0.0 <= t <= 1.0
      ensures MinDist(sqrt, q, pts, k) <= sqrt(SqDist(q, Lerp(EdgeOf(pts, p), t)))
    {
      EdgeDistanceIsNearest(sqrt, q, EdgeOf(pts, p), t);
    }
  }

  /** What a search returns: the iteration count, or the `ZeroDivisionError` of a degenerate edge. */
  datatype SearchOutcome = Searched(iterCount: int) | ZeroDivision

  /**
   * The inner loop over the edges for one mesh point: the running minimum,
   * the crossing count and one iteration per edge; `ok` is false when an edge
   * divides by zero.
   */
  method ScanEdges(sqrt: real -> real, q: Point, pts: seq<Point>) returns (ok: bool, dist: real, count: nat, steps: nat)
    ensures ok <==> NoDegenerateEdge(pts)
    ensures ok ==> dist == MinDist(sqrt, q, pts, |pts|) && count == CrossCount(q, pts, |pts|) && steps == |pts|
  {
    dist, count, steps := FarDistance, 0, 0;
    for p := 0 to |pts|
      invariant NoDegeneratePrefix(pts, p)
      invariant dist == MinDist(sqrt, q, pts, p) && count == CrossCount(q, pts, p) && steps == p
    {
      var e := EdgeOf(pts, p);
      if Denom(e) == 0.0 {
        return false, dist, count, steps;
      }
      dist := Min(dist, EdgeDistance(sqrt, q, e));
      if Crosses(q, e) {
        count := count + 1;
      }
      steps := steps + 1;
    }
    ok := true;
  }

  /** `phi[r, c]` after the sweep of a `rows` by `cols` window up to (excluding) point `(r, c)`. */
  ghost predicate SweptWindow(phi: array2<real>, x: array2<real>, y: array2<real>, sqrt: real -> real,
                              pts: seq<Point>, rows: int, cols: int, r: int, c: int, phi0: Mat<real>)
    requires rows <= x.Length0 && cols <= x.Length1 && rows <= y.Length0 && cols <= y.Length1
    requires IsShape(phi0, phi.Length0, phi.Length1)
    requires rows > 0 && cols > 0 && (r > 0 || c > 0) ==> NoDegenerateEdge(pts)
    reads phi, x, y
  {
    forall a, b :: 0 <= a < phi.Length0 && 0 <= b < phi.Length1 ==>
      phi[a, b] == (if a < rows && b < cols && (a < r || (a == r && b < c))
                    then LevelAt(sqrt, Point(x[a, b], y[a, b]), pts) else phi0[a][b])
  }

  /** The end of row `r` is the start of row `r + 1`. */
  lemma SweptWindowRow(phi: array2<real>, x: array2<real>, y: array2<real>, sqrt: real -> real,
                       pts: seq<Point>, rows: int, cols: int, r: int, phi0: Mat<real>)
    requires rows <= x.Length0 && cols <= x.Length1 && rows <= y.Length0 && cols <= y.Length1
    requires IsShape(phi0, phi.Length0, phi.Length1)
    requires 0 <= r && rows > 0 && cols > 0 && NoDegenerateEdge(pts)
    requires SweptWindow(phi, x, y, sqrt, pts, rows, cols, r, cols, phi0)
    ensures SweptWindow(phi, x, y, sqrt, pts, rows, cols, r + 1, 0, phi0)
  {
  }

  /** One mesh point of the sweep: `phi[r, c]` gets its signed distance; a degenerate edge stops before the write. */
  method SweepPoint(x: array2<real>, y: array2<real>, phi: array2<real>, pts: seq<Point>, rows: nat, cols: nat,
                    r: nat, c: nat, sqrt: real -> real, ghost phi0: Mat<real>) returns (ok: bool, steps: nat)
    requires rows <= x.Length0 && cols <= x.Length1 && rows <= y.Length0 && cols <= y.Length1
    requires rows <= phi.Length0 && cols <= phi.Length1 && phi != x && phi != y
    requires IsShape(phi0, phi.Length0, phi.Length1) && r < rows && c < cols
    requires r > 0 || c > 0 ==> NoDegenerateEdge(pts)
    requires SweptWindow(phi, x, y, sqrt, pts, rows, cols, r, c, phi0)
    modifies phi
    ensures ok <==> NoDegenerateEdge(pts)
    ensures ok ==> steps == |pts| && SweptWindow(phi, x, y, sqrt, pts, rows, cols, r, c + 1, phi0)
    ensures !ok ==> Snapshot(phi) == old(Snapshot(phi))
  {
    var dist, count;
    ok, dist, count, steps := ScanEdges(sqrt, Point(x[r, c], y[r, c]), pts);
    if ok {
      phi[r, c] := Level(dist, count);
    }
  }

  /** Row `r` of the sweep. */
  method SweepRow(x: array2<real>, y: array2<real>, phi: array2<real>, pts: seq<Point>, rows: nat, cols: nat,
                  r: nat, sqrt: real -> real, ghost phi0: Mat<real>) returns (ok: bool, steps: nat)
    requires rows <= x.Length0 && cols <= x.Length1 && rows <= y.Length0 && cols <= y.Length1
    requires rows <= phi.Length0 && cols <= phi.Length1 && phi != x && phi != y
    requires IsShape(phi0, phi.Length0, phi.Length1) && r < rows
    requires r > 0 && cols > 0 ==> NoDegenerateEdge(pts)
    requires SweptWindow(phi, x, y, sqrt, pts, rows, cols, r, 0, phi0)
    modifies phi
    ensures ok <==> cols == 0 || NoDegenerateEdge(pts)
    ensures ok ==> steps == cols * |pts| && SweptWindow(phi, x, y, sqrt, pts, rows, cols, r + 1, 0, phi0)
    ensures !ok ==> r == 0 && Snapshot(phi) == old(Snapshot(phi))
  {
    steps := 0;
    for c := 0 to cols
      invariant steps == c * |pts|
      invariant (r > 0 && cols > 0) || c > 0 ==> NoDegenerateEdge(pts)
      invariant SweptWindow(phi, x, y, sqrt, pts, rows, cols, r, c, phi0)
      invariant c == 0 ==> Snapshot(phi) == old(Snapshot(phi))
    {
      var here;
      ok, here := SweepPoint(x, y, phi, pts, rows, cols, r, c, sqrt, phi0);
      if !ok {
        return;
      }
      steps := steps + here;
    }
    ok := true;
    if cols > 0 {
      SweptWindowRow(phi, x, y, sqrt, pts, rows, cols, r, phi0);
    }
  }

  /**
   * The triple loop over a `rows` by `cols` window of the mesh, row by row:
   * each point gets `LevelAt`, every other entry of `phi` is kept, and the
   * count is one per point and edge. A degenerate edge stops the first point
   * before anything is written.
   */
  method Sweep(x: array2<real>, y: array2<real>, phi: array2<real>, pts: seq<Point>, rows: nat, cols: nat, sqrt: real -> real)
    returns (out: SearchOutcome)
    requires rows <= x.Length0 && cols <= x.Length1 && rows <= y.Length0 && cols <= y.Length1
    requires rows <= phi.Length0 && cols <= phi.Length1
    requires phi != x && phi != y
    modifies phi
    ensures out.Searched? <==> rows == 0 || cols == 0 || NoDegenerateEdge(pts)
    ensures out.Searched? ==> out.iterCount == rows * cols * |pts|
    ensures out.Searched? ==> forall a, b :: 0 <= a < phi.Length0 && 0 <= b < phi.Length1 ==>
      phi[a, b] == (if a < rows && b < cols then LevelAt(sqrt, Point(x[a, b], y[a, b]), pts) else old(phi[a, b]))
    ensures out.ZeroDivision? ==> Snapshot(phi) == old(Snapshot(phi))
  {
    ghost var phi0 := Snapshot(phi);
    var iters := 0;
    for r := 0 to rows
      invariant iters == r * cols * |pts|
      invariant r > 0 && cols > 0 ==> NoDegenerateEdge(pts)
      invariant SweptWindow(phi, x, y, sqrt, pts, rows, cols, r, 0, phi0)
      invariant r == 0 ==> Snapshot(phi) == phi0
    {
      var ok, steps := SweepRow(x, y, phi, pts, rows, cols, r, sqrt, phi0);
      if !ok {
        return ZeroDivision;
      }
      iters := iters + steps;
      assert (r + 1) * cols * |pts| == r * cols * |pts| + cols * |pts|;
    }
    out := Searched(iters);
  }

  /**
   * `_search_jit(x, y, phi, points, nx, ny, np)`: `phi[j, i]` for `j < ny`
   * and `i < nx`, against the polygon of the first `np` points.
   */
  method SearchJit(x: array2<real>, y: array2<real>, phi: array2<real>, points: seq<Point>, nx: nat, ny: nat, np: nat,
                   sqrt: real -> real) returns (out: SearchOutcome)
    requires np <= |points|
    requires ny <= x.Length0 && nx <= x.Length1 && ny <= y.Length0 && nx <= y.Length1
    requires ny <= phi.Length0 && nx <= phi.Length1
    requires phi != x && phi != y
    modifies phi
    ensures out.Searched? <==> nx == 0 || ny == 0 || NoDegenerateEdge(points[..np])
    ensures out.Searched? ==> out.iterCount == nx * ny * np
    ensures out.Searched? ==> forall j, i :: 0 <= j < phi.Length0 && 0 <= i < phi.Length1 ==>
      phi[j, i] == (if j < ny && i < nx then LevelAt(sqrt, Point(x[j, i], y[j, i]), points[..np]) else old(phi[j, i]))
    ensures out.ZeroDivision? ==> Snapshot(phi) == old(Snapshot(phi))
  {
    out := Sweep(x, y, phi, points[..np], ny, nx, sqrt);
  }

  /** `particle.x[1:, :]`: the particle's points without the first row. */
  function DropFirst(s: seq<Point>): (r: seq<Point>)
    ensures |s| > 0 ==> r == s[1..]
    ensures |s| == 0 ==> r == []
  {
    if |s| == 0 then [] else s[1..]
  }

  /**
   * `classical_search(grid, particle, ibmf)`: over the mesh `meshgrid(x, y)`
   * of the `nx + 2` by `ny + 2` cell-centre coordinates, guard points
   * included, `phi[j, i]` becomes the signed distance of `(x[i], y[j])` to the
   * particle's polygon. `phi` is the level-set slice of the single block.
   */
  method ClassicalSearchGrid(gx: seq<real>, gy: seq<real>, phi: array2<real>, particleX: seq<Point>, nx: nat, ny: nat,
                             sqrt: real -> real) returns (out: SearchOutcome)
    requires |gx| == nx + 2 && |gy| == ny + 2
    requires phi.Length0 == ny + 2 && phi.Length1 == nx + 2
    modifies phi
    ensures out.Searched? <==> NoDegenerateEdge(DropFirst(particleX))
    ensures out.Searched? ==> out.iterCount == (nx + 2) * (ny + 2) * |DropFirst(particleX)|
    ensures out.Searched? ==> forall j, i :: 0 <= j < ny + 2 && 0 <= i < nx + 2 ==>
      phi[j, i] == LevelAt(sqrt, Point(gx[i], gy[j]), DropFirst(particleX))
    ensures out.ZeroDivision? ==> Snapshot(phi) == old(Snapshot(phi))
  {
    var xmesh := new real[ny + 2, nx + 2]((j, i) requires 0 <= i < |gx| => gx[i]);
    var ymesh := new real[ny + 2, nx + 2]((j, i) requires 0 <= j < |gy| => gy[j]);
    var points := DropFirst(particleX);
    assert points[..|points|] == points;
    out := SearchJit(xmesh, ymesh, phi, points, nx + 2, ny + 2, |points|, sqrt);
  }

  /** The older `_jit_classical_search`: `phi[i, j]` for `i < nx` and `j < ny`, `i` outer. */
  method JitClassicalSearchLegacy(x: array2<real>, y: array2<real>, phi: array2<real>, points: seq<Point>,
                                  nx: nat, ny: nat, np: nat, sqrt: real -> real) returns (out: SearchOutcome)
    requires np <= |points|
    requires nx <= x.Length0 && ny <= x.Length1 && nx <= y.Length0 && ny <= y.Length1
    requires nx <= phi.Length0 && ny <= phi.Length1
    requires phi != x && phi != y
    modifies phi
    ensures out.Searched? <==> nx == 0 || ny == 0 || NoDegenerateEdge(points[..np])
    ensures out.Searched? ==> out.iterCount == nx * ny * np
    ensures out.Searched? ==> forall i, j :: 0 <= i < phi.Length0 && 0 <= j < phi.Length1 ==>
      phi[i, j] == (if i < nx && j < ny then LevelAt(sqrt, Point(x[i, j], y[i, j]), points[..np]) else old(phi[i, j]))
    ensures out.ZeroDivision? ==> Snapshot(phi) == old(Snapshot(phi))
  {
    out := Sweep(x, y, phi, points[..np], nx, ny, sqrt);
  }

  /**
   * The older `classical_search(x, y, points, nx, ny, np)`: a fresh `nx` by
   * `ny` field of signed distances; the inputs are only read.
   */
  method ClassicalSearchLegacy(x: array2<real>, y: array2<real>, points: seq<Point>, nx: nat, ny: nat, np: nat,
                              sqrt: real -> real) returns (out: SearchOutcome, phi: array2<real>)
    requires np <= |points|
    requires nx <= x.Length0 && ny <= x.Length1 && nx <= y.Length0 && ny <= y.Length1
    ensures fresh(phi) && phi.Length0 == nx && phi.Length1 == ny
    ensures out.Searched? <==> nx == 0 || ny == 0 || NoDegenerateEdge(points[..np])
    ensures out.Searched? ==> out.iterCount == nx * ny * np
    ensures out.Searched? ==> forall i, j :: 0 <= i < nx && 0 <= j < ny ==>
      phi[i, j] == LevelAt(sqrt, Point(x[i, j], y[i, j]), points[..np])
    ensures out.ZeroDivision? ==> Snapshot(phi) == Const(nx, ny, 0.0)
  {
    phi := Zeros(nx, ny);
    out := JitClassicalSearchLegacy(x, y, phi, points, nx, ny, np, sqrt);
  }
}
