/** Two-dimensional affine maps as the `affine` package defines them, GDAL
    geotransforms, and numpy's floor and ceil, over exact reals. */
module Affine {
  import opened Base

  datatype Point = Point(x: real, y: real)

  /** The map (x, y) |-> (a*x + b*y + c, d*x + e*y + f). */
  datatype Affine = Affine(a: real, b: real, c: real, d: real, e: real, f: real)

  /** A GDAL geotransform gt[0] .. gt[5]: pixel (col, row) lies at
      x = gt[0] + col*gt[1] + row*gt[2], y = gt[3] + col*gt[4] + row*gt[5]. */
  datatype GeoTransform = GeoTransform(g0: real, g1: real, g2: real, g3: real, g4: real, g5: real)

  /** `Affine.from_gdal(*gt)`. */
  function FromGdal(gt: GeoTransform): Affine {
    Affine(gt.g1, gt.g2, gt.g0, gt.g4, gt.g5, gt.g3)
  }

  /** `m * (x, y)`. */
  function Apply(m: Affine, p: Point): Point {
    Point(p.x * m.a + p.y * m.b + m.c, p.x * m.d + p.y * m.e + m.f)
  }

  function Determinant(m: Affine): real {
    m.a * m.e - m.b * m.d
  }

  /** `~m`: the inverse map; a degenerate map (zero determinant) raises
      TransformNotInvertibleError, here `None`. */
  function Invert(m: Affine): (r: Option<Affine>)
    ensures r.None? <==> Determinant(m) == 0.0
  {
    var det := Determinant(m);
    if det == 0.0 then None
    else
      var idet := 1.0 / det;
      var ra := m.e * idet;
      var rb := -m.b * idet;
      var rd := -m.d * idet;
      var re := m.a * idet;
      Some(Affine(ra, rb, -m.c * ra - m.f * rb, rd, re, -m.c * rd - m.f * re))
  }

  /** Scaling by a non-zero factor and by its reciprocal cancel. */
  lemma ScaleBack(k: real, t: real)
    requires k != 0.0
    ensures (k * t) * (1.0 / k) == t
  {
  }

  /** One row of the inverse, (r*k, s*k) with translation -c*(r*k) - f*(s*k),
      applied to (x, y). */
  lemma InverseRow(r: real, s: real, c: real, f: real, x: real, y: real, k: real)
    ensures x * (r * k) + y * (s * k) + (-c * (r * k) - f * (s * k)) == (r * (x - c) + s * (y - f)) * k
  {
    assert x * (r * k) - c * (r * k) == r * (x - c) * k;
    assert y * (s * k) - f * (s * k) == s * (y - f) * k;
  }

  /** Cramer's rule, forwards: the solution of the 2x2 system. */
  lemma CramerSolves(a: real, b: real, d: real, e: real, det: real, x: real, y: real, u: real, v: real)
    requires det == a * e - b * d && det != 0.0
    requires u == a * x + b * y && v == d * x + e * y
    ensures (e * u - b * v) * (1.0 / det) == x
    ensures (a * v - d * u) * (1.0 / det) == y
  {
    assert e * u - b * v == det * x;
    assert a * v - d * u == det * y;
    ScaleBack(det, x);
    ScaleBack(det, y);
  }

  /** Cramer's rule, backwards: the solution satisfies the system. */
  lemma CramerSatisfies(a: real, b: real, d: real, e: real, det: real, u: real, v: real)
    requires det == a * e - b * d && det != 0.0
    ensures var k := 1.0 / det;
            var x, y := (e * u - b * v) * k, (a * v - d * u) * k;
            x * a + y * b == u && x * d + y * e == v
  {
    var k := 1.0 / det;
    assert det * k == 1.0;
    var x, y := (e * u - b * v) * k, (a * v - d * u) * k;
    assert x * a + y * b == (a * e * u - b * d * u) * k;
    assert x * a + y * b == u * (det * k);
    assert x * d + y * e == (a * e * v - b * d * v) * k;
    assert x * d + y * e == v * (det * k);
  }

  /** The inverse of (a, b, c, d, e, f) applied after the map, over plain
      reals, in the shape `Invert` and `Apply` produce. */
  lemma LeftAlgebra(a: real, b: real, c: real, d: real, e: real, f: real, x: real, y: real)
    requires a * e - b * d != 0.0
    ensures var k := 1.0 / (a * e - b * d);
            var ra, rb, rd, re := e * k, -b * k, -d * k, a * k;
            var qx, qy := x * a + y * b + c, x * d + y * e + f;
            && qx * ra + qy * rb + (-c * ra - f * rb) == x
            && qx * rd + qy * re + (-c * rd - f * re) == y
  {
    var det := a * e - b * d;
    var k := 1.0 / det;
    var qx, qy := x * a + y * b + c, x * d + y * e + f;
    InverseRow(e, -b, c, f, qx, qy, k);
    InverseRow(-d, a, c, f, qx, qy, k);
    CramerSolves(a, b, d, e, det, x, y, qx - c, qy - f);
  }

  /** The map applied after its inverse, over plain reals. */
  lemma RightAlgebra(a: real, b: real, c: real, d: real, e: real, f: real, qx: real, qy: real)
    requires a * e - b * d != 0.0
    ensures var k := 1.0 / (a * e - b * d);
            var ra, rb, rd, re := e * k, -b * k, -d * k, a * k;
            var x, y := qx * ra + qy * rb + (-c * ra - f * rb), qx * rd + qy * re + (-c * rd - f * re);
            && x * a + y * b + c == qx
            && x * d + y * e + f == qy
  {
    var det := a * e - b * d;
    var k := 1.0 / det;
    InverseRow(e, -b, c, f, qx, qy, k);
    InverseRow(-d, a, c, f, qx, qy, k);
    CramerSatisfies(a, b, d, e, det, qx - c, qy - f);
  }

  /** The inverse undoes the map: m * (~m * q) == q. */
  lemma InvertRight(m: Affine, q: Point)
    requires Invert(m).Some?
    ensures Apply(m, Apply(Invert(m).value, q)) == q
  {
    RightAlgebra(m.a, m.b, m.c, m.d, m.e, m.f, q.x, q.y);
    var r := Apply(m, Apply(Invert(m).value, q));
    assert r.x == q.x && r.y == q.y;
  }

  /** The map undoes its inverse: ~m * (m * p) == p. */
  lemma InvertLeft(m: Affine, p: Point)
    requires Invert(m).Some?
    ensures Apply(Invert(m).value, Apply(m, p)) == p
  {
    LeftAlgebra(m.a, m.b, m.c, m.d, m.e, m.f, p.x, p.y);
    var r := Apply(Invert(m).value, Apply(m, p));
    assert r.x == p.x && r.y == p.y;
  }

  /** `np.floor`: the greatest integer not above x. */
  function Floor(x: real): (n: int)
    ensures n as real <= x < n as real + 1.0
  {
    x.Floor
  }

  /** `np.ceil`: the least integer not below x. */
  function Ceil(x: real): (n: int)
    ensures n as real - 1.0 < x <= n as real
  {
    -Floor(-x)
  }

  /** Floor and ceil leave integers where they are. */
  lemma RoundIntegral(x: real, n: int)
    requires x == n as real
    ensures Floor(x) == n && Ceil(x) == n
  {
  }

  function Abs(x: real): (r: real)
    ensures r >= 0.0 && (r == x || r == -x)
  {
    if x < 0.0 then -x else x
  }
}
