/** The `gdal_rasterize` command line built by rasterize_vector.py: the
    burn options, and the target extent and resolution, either padded
    around point data or snapped to a template raster's pixel grid. */
module Rasterize {
  import opened Base
  import opened Affine

  // OGR geometry type codes that count as (multi)points, as the C-level
  // unsigned codes (the Python bindings show the 25D ones as signed 32-bit
  // values, e.g. -2147483647 for wkbPoint25D).
  const WkbPoint: int := 1
  const WkbMultiPoint: int := 4
  const WkbPointM: int := 2001
  const WkbMultiPointM: int := 2004
  const WkbPointZM: int := 3001
  const WkbMultiPointZM: int := 3004
  const WkbPoint25D: int := 0x8000_0001
  const WkbMultiPoint25D: int := 0x8000_0004

  predicate IsPointGeometry(geomType: int) {
    || geomType == WkbPoint || geomType == WkbPoint25D
    || geomType == WkbPointM || geomType == WkbPointZM
    || geomType == WkbMultiPoint || geomType == WkbMultiPoint25D
    || geomType == WkbMultiPointM || geomType == WkbMultiPointZM
  }

  /** A layer extent in OGR's order: (minX, maxX, minY, maxY). */
  datatype Extent = Extent(minX: real, maxX: real, minY: real, maxY: real)

  /** The four values of `-te`, in gdal_rasterize's order. */
  datatype TargetExtent = TargetExtent(xmin: real, ymin: real, xmax: real, ymax: real)

  /** A pixel index of the template grid. */
  datatype Pixel = Pixel(col: int, row: int)

  function PixelPoint(px: Pixel): Point {
    Point(px.col as real, px.row as real)
  }

  function LowerLeft(ext: Extent): Point { Point(ext.minX, ext.minY) }
  function UpperRight(ext: Extent): Point { Point(ext.maxX, ext.maxY) }

  predicate Covers(te: TargetExtent, ext: Extent) {
    te.xmin <= ext.minX && ext.maxX <= te.xmax && te.ymin <= ext.minY && ext.maxY <= te.ymax
  }

  /** Resolution mode on point data (lines 103-107): half a pixel of padding
      on every side, so that the outermost points fall on pixel centres. */
  function PadPointExtent(ext: Extent, res: real): (te: TargetExtent)
    ensures te.xmin + res / 2.0 == ext.minX && te.xmax - res / 2.0 == ext.maxX
    ensures te.ymin + res / 2.0 == ext.minY && te.ymax - res / 2.0 == ext.maxY
    ensures te.xmax - te.xmin == (ext.maxX - ext.minX) + res
    ensures te.ymax - te.ymin == (ext.maxY - ext.minY) + res
    ensures res >= 0.0 ==> Covers(te, ext)
  {
    TargetExtent(ext.minX - 0.5 * res, ext.minY - 0.5 * res,
                 ext.maxX + 0.5 * res, ext.maxY + 0.5 * res)
  }

  /** Where a geographic point falls in the template's pixel space. */
  function PixelCoords(gt: GeoTransform, p: Point): Point
    requires Invert(FromGdal(gt)).Some?
  {
    Apply(Invert(FromGdal(gt)).value, p)
  }

  /** Template-snapped extent: the pixel indices of both corners and the
      resulting `-te` values. */
  datatype Snapped = Snapped(ll: Pixel, ur: Pixel, te: TargetExtent)

  /** Template mode (lines 109-125). The two extent corners are carried into
      the template's reference system by `toRaster`, then into its pixel
      space; the lower-left corner is rounded to (floor, ceil) and the
      upper-right to (ceil, floor), and both are mapped back. A degenerate
      template geotransform cannot be inverted. */
  function SnapToTemplate(gt: GeoTransform, toRaster: Point -> Point, ext: Extent): (r: Option<Snapped>)
    ensures r.None? <==> Determinant(FromGdal(gt)) == 0.0
    ensures r.Some? ==>
      var ll := PixelCoords(gt, toRaster(LowerLeft(ext)));
      var ur := PixelCoords(gt, toRaster(UpperRight(ext)));
      var s := r.value;
      && s.ll.col as real <= ll.x < s.ll.col as real + 1.0
      && s.ll.row as real - 1.0 < ll.y <= s.ll.row as real
      && s.ur.col as real - 1.0 < ur.x <= s.ur.col as real
      && s.ur.row as real <= ur.y < s.ur.row as real + 1.0
    ensures r.Some? ==>
      && Point(r.value.te.xmin, r.value.te.ymin) == Apply(FromGdal(gt), PixelPoint(r.value.ll))
      && Point(r.value.te.xmax, r.value.te.ymax) == Apply(FromGdal(gt), PixelPoint(r.value.ur))
  {
    var fwd := FromGdal(gt);
    match Invert(fwd)
    case None => None
    case Some(inv) =>
      var llImg := Apply(inv, toRaster(LowerLeft(ext)));
      var urImg := Apply(inv, toRaster(UpperRight(ext)));
      var ll := Pixel(Floor(llImg.x), Ceil(llImg.y));
      var ur := Pixel(Ceil(urImg.x), Floor(urImg.y));
      var llGeo := Apply(fwd, PixelPoint(ll));
      var urGeo := Apply(fwd, PixelPoint(ur));
      Some(Snapped(ll, ur, TargetExtent(llGeo.x, llGeo.y, urGeo.x, urGeo.y)))
  }

  /** A template without rotation whose rows run north to south. */
  predicate NorthUp(gt: GeoTransform) {
    gt.g2 == 0.0 && gt.g4 == 0.0 && gt.g1 > 0.0 && gt.g5 < 0.0
  }

  /** One axis of a north-up geotransform: x |-> x * step + origin. */
  function Axis(x: real, step: real, origin: real): real { x * step + origin }

  /** An axis map preserves order for a positive step and reverses it for a
      negative one. */
  lemma AxisOrder(s: real, t: real, step: real, origin: real)
    requires step != 0.0
    ensures step > 0.0 ==>
              (s <= t ==> Axis(s, step, origin) <= Axis(t, step, origin)) &&
              (s < t ==> Axis(s, step, origin) < Axis(t, step, origin))
    ensures step < 0.0 ==>
              (s <= t ==> Axis(t, step, origin) <= Axis(s, step, origin)) &&
              (s < t ==> Axis(t, step, origin) < Axis(s, step, origin))
  {
    assert Axis(t, step, origin) - Axis(s, step, origin) == (t - s) * step;
  }

  /** One pixel further along an axis is one step further. */
  lemma AxisShift(n: real, step: real, origin: real)
    ensures Axis(n + 1.0, step, origin) == Axis(n, step, origin) + step
    ensures Axis(n - 1.0, step, origin) == Axis(n, step, origin) - step
  {
  }

  /** A pixel coordinate `c` rounded down to `n`, mapped back along an axis. */
  lemma SnapDown(c: real, n: real, step: real, origin: real)
    requires n <= c < n + 1.0 && step != 0.0
    ensures step > 0.0 ==> Axis(n, step, origin) <= Axis(c, step, origin) < Axis(n, step, origin) + step
    ensures step < 0.0 ==> Axis(n, step, origin) + step < Axis(c, step, origin) <= Axis(n, step, origin)
  {
    AxisOrder(n, c, step, origin);
    AxisOrder(c, n + 1.0, step, origin);
    AxisShift(n, step, origin);
  }

  /** A pixel coordinate `c` rounded up to `n`, mapped back along an axis. */
  lemma SnapUp(c: real, n: real, step: real, origin: real)
    requires n - 1.0 < c <= n && step != 0.0
    ensures step > 0.0 ==> Axis(n, step, origin) - step < Axis(c, step, origin) <= Axis(n, step, origin)
    ensures step < 0.0 ==> Axis(n, step, origin) <= Axis(c, step, origin) < Axis(n, step, origin) - step
  {
    AxisOrder(c, n, step, origin);
    AxisOrder(n - 1.0, c, step, origin);
    AxisShift(n, step, origin);
  }

  /** On a north-up template each axis maps on its own:
      x = g0 + col*g1 and y = g3 + row*g5. */
  lemma NorthUpAxes(gt: GeoTransform, p: Point)
    requires NorthUp(gt)
    ensures Invert(FromGdal(gt)).Some?
    ensures Axis(PixelCoords(gt, p).x, gt.g1, gt.g0) == p.x
    ensures Axis(PixelCoords(gt, p).y, gt.g5, gt.g3) == p.y
  {
    var fwd := FromGdal(gt);
    assert Determinant(fwd) == gt.g1 * gt.g5;
    InvertRight(fwd, p);
  }

  /** On a north-up template the forward map also works axis by axis. */
  lemma NorthUpForward(gt: GeoTransform, p: Point)
    requires NorthUp(gt)
    ensures Apply(FromGdal(gt), p) == Point(Axis(p.x, gt.g1, gt.g0), Axis(p.y, gt.g5, gt.g3))
  {
  }

  /** The lower-left corner of a north-up snap: the edges lie west and south
      of the transformed corner, by less than one pixel. */
  lemma SnapNorthUpLowerLeft(gt: GeoTransform, toRaster: Point -> Point, ext: Extent)
    requires NorthUp(gt)
    ensures SnapToTemplate(gt, toRaster, ext).Some?
    ensures var te := SnapToTemplate(gt, toRaster, ext).value.te;
            var ll := toRaster(LowerLeft(ext));
            te.xmin <= ll.x < te.xmin + gt.g1 && te.ymin <= ll.y < te.ymin - gt.g5
  {
    var ll := toRaster(LowerLeft(ext));
    NorthUpAxes(gt, ll);
    var s := SnapToTemplate(gt, toRaster, ext).value;
    var img := PixelCoords(gt, ll);
    NorthUpForward(gt, PixelPoint(s.ll));
    SnapDown(img.x, s.ll.col as real, gt.g1, gt.g0);
    SnapUp(img.y, s.ll.row as real, gt.g5, gt.g3);
  }

  /** The upper-right corner of a north-up snap: the edges lie east and
      north of the transformed corner, by less than one pixel. */
  lemma SnapNorthUpUpperRight(gt: GeoTransform, toRaster: Point -> Point, ext: Extent)
    requires NorthUp(gt)
    ensures SnapToTemplate(gt, toRaster, ext).Some?
    ensures var te := SnapToTemplate(gt, toRaster, ext).value.te;
            var ur := toRaster(UpperRight(ext));
            te.xmax - gt.g1 < ur.x <= te.xmax && te.ymax + gt.g5 < ur.y <= te.ymax
  {
    var ur := toRaster(UpperRight(ext));
    NorthUpAxes(gt, ur);
    var s := SnapToTemplate(gt, toRaster, ext).value;
    var img := PixelCoords(gt, ur);
    NorthUpForward(gt, PixelPoint(s.ur));
    SnapUp(img.x, s.ur.col as real, gt.g1, gt.g0);
    SnapDown(img.y, s.ur.row as real, gt.g5, gt.g3);
  }

  /** On a north-up template the snapped extent contains both transformed
      corners, and adds less than one pixel on each side. */
  lemma SnapNorthUpContains(gt: GeoTransform, toRaster: Point -> Point, ext: Extent)
    requires NorthUp(gt)
    ensures SnapToTemplate(gt, toRaster, ext).Some?
    ensures var te := SnapToTemplate(gt, toRaster, ext).value.te;
            var ll, ur := toRaster(LowerLeft(ext)), toRaster(UpperRight(ext));
            && te.xmin <= ll.x < te.xmin + gt.g1
            && te.ymin <= ll.y < te.ymin - gt.g5
            && te.xmax - gt.g1 < ur.x <= te.xmax
            && te.ymax + gt.g5 < ur.y <= te.ymax
  {
    SnapNorthUpLowerLeft(gt, toRaster, ext);
    SnapNorthUpUpperRight(gt, toRaster, ext);
  }

  /** Corners that already sit on template pixel boundaries come back
      unchanged. */
  lemma SnapIdempotent(gt: GeoTransform, toRaster: Point -> Point, ext: Extent, p: Pixel, q: Pixel)
    requires Determinant(FromGdal(gt)) != 0.0
    requires PixelCoords(gt, toRaster(LowerLeft(ext))) == PixelPoint(p)
    requires PixelCoords(gt, toRaster(UpperRight(ext))) == PixelPoint(q)
    ensures SnapToTemplate(gt, toRaster, ext).Some?
    ensures var s := SnapToTemplate(gt, toRaster, ext).value;
            var ll, ur := toRaster(LowerLeft(ext)), toRaster(UpperRight(ext));
            s.ll == p && s.ur == q && s.te == TargetExtent(ll.x, ll.y, ur.x, ur.y)
  {
    var fwd := FromGdal(gt);
    var s := SnapToTemplate(gt, toRaster, ext).value;
    RoundIntegral(p.col as real, p.col);
    RoundIntegral(p.row as real, p.row);
    RoundIntegral(q.col as real, q.col);
    RoundIntegral(q.row as real, q.row);
    InvertRight(fwd, toRaster(LowerLeft(ext)));
    InvertRight(fwd, toRaster(UpperRight(ext)));
  }

  /** The bounds of template pixel (col, row) on a north-up grid. */
  function PixelBounds(gt: GeoTransform, px: Pixel): Extent {
    Extent(Axis(px.col as real, gt.g1, gt.g0), Axis((px.col + 1) as real, gt.g1, gt.g0),
           Axis((px.row + 1) as real, gt.g5, gt.g3), Axis(px.row as real, gt.g5, gt.g3))
  }

  /** Snapping the extent of exactly one template pixel, in the template's
      own reference system, gives back that pixel's bounds. */
  lemma SnapOnePixel(gt: GeoTransform, px: Pixel)
    requires NorthUp(gt)
    ensures var ext := PixelBounds(gt, px);
            var s := SnapToTemplate(gt, p => p, ext);
            s.Some? && s.value.te == TargetExtent(ext.minX, ext.minY, ext.maxX, ext.maxY)
  {
    var ext := PixelBounds(gt, px);
    var fwd := FromGdal(gt);
    var p, q := Pixel(px.col, px.row + 1), Pixel(px.col + 1, px.row);
    assert Determinant(fwd) == gt.g1 * gt.g5;
    NorthUpForward(gt, PixelPoint(p));
    NorthUpForward(gt, PixelPoint(q));
    InvertLeft(fwd, PixelPoint(p));
    InvertLeft(fwd, PixelPoint(q));
    SnapIdempotent(gt, p => p, ext, p, q);
  }

  /** Arguments `-te xmin ymin xmax ymax`. */
  function TeArgs(te: TargetExtent): seq<Arg> {
    [Str("-te"), Num(te.xmin), Num(te.ymin), Num(te.xmax), Num(te.ymax)]
  }

  // ---------------------------------------------------------------------
  // The command line.

  /** `-r RES` or `-t TEMPLATE` (a required, mutually exclusive choice). */
  datatype GridSpec = ByResolution(res: real) | ByTemplate(template: string)

  /** `-a ATTR` or `-b VALUE` (a required, mutually exclusive choice). */
  datatype BurnSpec = ByAttribute(name: string) | ByValue(value: real)

  /** The parsed command line. `format` (-f) is accepted but never passed on. */
  datatype Options = Options(
    grid: GridSpec, burn: BurnSpec, format: string, layer: Option<string>,
    nodata: Option<real>, init: real, outType: string, allTouched: bool,
    input: string, output: string)

  function BurnArgs(burn: BurnSpec): seq<Arg> {
    match burn
    case ByAttribute(name) => [Str("-a"), Str(name)]
    case ByValue(v) => [Str("-burn"), Num(v)]
  }

  /** Lines 68-88: the burn options in the order they are appended. */
  function BurnOptionList(opts: Options, firstLayer: string): seq<Arg> {
    [Str("-l"), Str(opts.layer.GetOr(firstLayer))] +
    (if opts.nodata.Some? then [Str("-a_nodata"), Num(opts.nodata.value)] else []) +
    [Str("-init"), Num(opts.init)] + [Str("-ot"), Str(opts.outType)] +
    BurnArgs(opts.burn) +
    (if opts.allTouched then [Str("-at")] else [])
  }

  /** `-l LAYER` (the first layer's name when none is given), `-a_nodata`
      only with a nodata value, `-init`, `-ot`, exactly one of `-a`/`-burn`,
      and `-at` only when all-touched is set, in this order. */
  lemma BurnOptionLayout(opts: Options, firstLayer: string)
    ensures var options, k := BurnOptionList(opts, firstLayer), if opts.nodata.Some? then 4 else 2;
            && |options| == k + 6 + (if opts.allTouched then 1 else 0)
            && options[..2] == [Str("-l"), Str(opts.layer.GetOr(firstLayer))]
            && (opts.nodata.Some? ==> options[2..4] == [Str("-a_nodata"), Num(opts.nodata.value)])
            && options[k..k + 2] == [Str("-init"), Num(opts.init)]
            && options[k + 2..k + 4] == [Str("-ot"), Str(opts.outType)]
            && options[k + 4..k + 6] == BurnArgs(opts.burn)
            && (opts.allTouched ==> options[k + 6] == Str("-at"))
  {
    var options := BurnOptionList(opts, firstLayer);
    var head := [Str("-l"), Str(opts.layer.GetOr(firstLayer))] +
                (if opts.nodata.Some? then [Str("-a_nodata"), Num(opts.nodata.value)] else []);
    var body := head + [Str("-init"), Num(opts.init)] + [Str("-ot"), Str(opts.outType)] + BurnArgs(opts.burn);
    assert options[..|body|] == body;
    assert body[..|head|] == head;
  }

  /** Lines 68-88, appending one option group at a time. */
  method BurnOptions(opts: Options, firstLayer: string) returns (options: seq<Arg>)
    ensures options == BurnOptionList(opts, firstLayer)
  {
    var layerName := match opts.layer case Some(name) => name case None => firstLayer;
    options := [Str("-l"), Str(layerName)];
    if opts.nodata.Some? {
      options := options + [Str("-a_nodata"), Num(opts.nodata.value)];
    }
    options := options + [Str("-init"), Num(opts.init)];
    options := options + [Str("-ot"), Str(opts.outType)];
    match opts.burn {
      case ByAttribute(name) =>
        options := options + [Str("-a"), Str(name)];
      case ByValue(v) =>
        options := options + [Str("-burn"), Num(v)];
    }
    if opts.allTouched {
      options := options + [Str("-at")];
    }
  }

  /** Lines 91-130: with a resolution, `-tr r r`, followed by the padded
      extent for point layers only; with a template, the snapped extent and
      the template's absolute pixel width and height. `None` when the
      template's geotransform cannot be inverted. */
  method GridOptions(grid: GridSpec, ext: Extent, geomType: int,
                     templateGt: GeoTransform, toRaster: Point -> Point)
    returns (options: Option<seq<Arg>>)
    ensures grid.ByResolution? ==>
              options == Some([Str("-tr"), Num(grid.res), Num(grid.res)] +
                              (if IsPointGeometry(geomType) then TeArgs(PadPointExtent(ext, grid.res)) else []))
    ensures grid.ByTemplate? ==>
              (options.None? <==> Determinant(FromGdal(templateGt)) == 0.0)
    ensures grid.ByTemplate? && options.Some? ==>
              options.value == TeArgs(SnapToTemplate(templateGt, toRaster, ext).value.te) +
                               [Str("-tr"), Num(Abs(templateGt.g1)), Num(Abs(templateGt.g5))]
  {
    var opts: seq<Arg> := [];
    match grid {
      case ByResolution(res) =>
        opts := opts + [Str("-tr"), Num(res), Num(res)];
        if IsPointGeometry(geomType) {
          var te := PadPointExtent(ext, res);
          opts := opts + [Str("-te"), Num(te.xmin), Num(te.ymin), Num(te.xmax), Num(te.ymax)];
        }
        assert opts == [Str("-tr"), Num(res), Num(res)] +
                       (if IsPointGeometry(geomType) then TeArgs(PadPointExtent(ext, res)) else []);
      case ByTemplate(_) =>
        var snapped := SnapToTemplate(templateGt, toRaster, ext);
        if snapped.None? {
          return None;
        }
        var te := snapped.value.te;
        opts := opts + [Str("-te"), Num(te.xmin), Num(te.ymin), Num(te.xmax), Num(te.ymax)];
        opts := opts + [Str("-tr"), Num(Abs(templateGt.g1)), Num(Abs(templateGt.g5))];
    }
    return Some(opts);
  }

  datatype RasterizeError = TransformNotInvertible

  /** The whole script: the command `gdal_rasterize OPTIONS IN OUT`. The
      layer's extent, geometry type and first layer name, the template's
      geotransform and the transformation from the layer's reference system
      to the template's are inputs. */
  method RasterizeCommand(opts: Options, firstLayer: string, ext: Extent, geomType: int,
                          templateGt: GeoTransform, toRaster: Point -> Point)
    returns (r: Result<Command, RasterizeError>)
    ensures r.Failure? <==> opts.grid.ByTemplate? && Determinant(FromGdal(templateGt)) == 0.0
    ensures r.Success? ==>
              var cmd, k := r.value, |BurnOptionList(opts, firstLayer)| + 1;
              && |cmd| >= k + 2
              && cmd[0] == Str("gdal_rasterize")
              && cmd[1..k] == BurnOptionList(opts, firstLayer)
              && cmd[|cmd| - 2..] == [Str(opts.input), Str(opts.output)]
              && (opts.grid.ByResolution? ==>
                    cmd[k..|cmd| - 2] == [Str("-tr"), Num(opts.grid.res), Num(opts.grid.res)] +
                                         (if IsPointGeometry(geomType) then TeArgs(PadPointExtent(ext, opts.grid.res)) else []))
              && (opts.grid.ByTemplate? ==>
                    cmd[k..|cmd| - 2] == TeArgs(SnapToTemplate(templateGt, toRaster, ext).value.te) +
                                         [Str("-tr"), Num(Abs(templateGt.g1)), Num(Abs(templateGt.g5))])
  {
    var options := BurnOptions(opts, firstLayer);
    var grid := GridOptions(opts.grid, ext, geomType, templateGt, toRaster);
    if grid.None? {
      return Failure(TransformNotInvertible);
    }
    var body := options + grid.value;
    var files := [Str(opts.input), Str(opts.output)];
    var cmd := [Str("gdal_rasterize")] + body + files;
    assert cmd[1..|cmd| - 2] == body && cmd[|cmd| - 2..] == files;
    assert body[..|options|] == options && body[|options|..] == grid.value;
    return Success(cmd);
  }
}
