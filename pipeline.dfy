/** The coordinator grid_lvis_l2.py: it checks its options, settles the
    grid resolution and output reference system, derives the names of the
    intermediate files, issues the eight stage commands in a fixed order,
    registers each intermediate file with its kind, and deletes the
    registered files unless asked to keep them. External commands are
    entries appended to a shell's log. */
module Pipeline {
  import opened Base
  import opened Affine
  import opened Paths

  /** `-r RES` or `-t TEMPLATE` (a required, mutually exclusive choice). */
  datatype GridChoice = ByResolution(res: real) | ByTemplate(template: string)

  /** The parsed command line. `shotDiameter` is a number (see BufferRadius). */
  datatype Config = Config(
    grid: GridChoice, outSrs: Option<string>, shotDiameter: real,
    colTypes: Option<string>, col2grid: seq<string>,
    lvisTxt: string, lvisGrd: string, dirInter: Option<string>, keepInter: bool)

  /** What the coordinator reads from its surroundings: its own path
      (`sys.argv[0]`), the template raster's geotransform and projection
      (used only with a template), and the directory `tempfile.mkdtemp`
      creates. */
  datatype Environment = Environment(
    scriptPath: string, templateGt: GeoTransform, templateProjection: string, tmpDir: string)

  datatype ArgError = ResolutionWithoutSrs

  /** Lines 45-46: a resolution needs an explicit output reference system. */
  function CheckArgs(cfg: Config): (err: Option<ArgError>)
    ensures err.Some? <==> cfg.grid.ByResolution? && cfg.outSrs.None?
  {
    if cfg.grid.ByResolution? && cfg.outSrs.None? then Some(ResolutionWithoutSrs) else None
  }

  /** The grid resolution and output reference system in force, and whether
      the "--out_srs is ignored" warning was raised. */
  datatype Settings = Settings(imgRes: real, outSrs: string, warned: bool)

  /** Lines 63-70: a template overrides both the resolution (its absolute
      pixel width) and the reference system (its projection); an explicit
      `--out_srs` is then ignored with a warning. */
  function Effective(cfg: Config, env: Environment): (s: Settings)
    requires CheckArgs(cfg).None?
    ensures cfg.grid.ByTemplate? ==>
              s.imgRes == Abs(env.templateGt.g1) && s.imgRes >= 0.0 &&
              s.outSrs == env.templateProjection && (s.warned <==> cfg.outSrs.Some?)
    ensures cfg.grid.ByResolution? ==>
              s.imgRes == cfg.grid.res && s.outSrs == cfg.outSrs.value && !s.warned
  {
    match cfg.grid
    case ByTemplate(_) => Settings(Abs(env.templateGt.g1), env.templateProjection, cfg.outSrs.Some?)
    case ByResolution(r) => Settings(r, cfg.outSrs.value, false)
  }

  // ---------------------------------------------------------------------
  // File names.

  /** Lines 72-73: the input's base name without its last `.`-suffix. */
  function LvisName(lvisTxt: string): (name: string)
    ensures '/' !in name
    ensures var b := Basename(lvisTxt);
            && ('.' in b ==> name == b[..LastIndexOf(b, '.')])
            && ('.' !in b ==> name == "")
  {
    var b := Basename(lvisTxt);
    StemBeforeLastDot(b);
    Stem(b)
  }

  /** Lines 74-75: the intermediate directory, by default the output's. */
  function InterDir(cfg: Config): (dir: string)
    ensures cfg.dirInter.None? ==> dir == Dirname(cfg.lvisGrd) && dir == cfg.lvisGrd[..|dir|]
    ensures cfg.dirInter.Some? ==> dir == cfg.dirInter.value
  {
    match cfg.dirInter
    case Some(d) => d
    case None => Dirname(cfg.lvisGrd)
  }

  /** The suffixes of the six registered intermediate files, in the order
      they are created, and their kinds. */
  const InterSuffixes: seq<string> :=
    ["_points.shp", "_points_proj.shp", "_shot_circles.shp",
     "_shot_cover.tif", "_shot_cover.shp", "_shot_segments.sqlite"]

  datatype FileKind = Vector | Raster | Regular

  const InterKinds: seq<FileKind> := [Vector, Vector, Vector, Raster, Vector, Vector]

  /** The k-th intermediate file of the input `name` under `dir`. */
  function InterPath(dir: string, name: string, k: nat): string
    requires k < |InterSuffixes|
  {
    Join(dir, name + InterSuffixes[k])
  }

  /** Lines 79-139: every intermediate file. `tmpShp` lives in the temporary
      directory and is never registered. */
  datatype Names = Names(
    points: string, pointsProj: string, tmpShp: string, circles: string,
    coverTif: string, coverShp: string, segments: string)

  function NamesIn(dir: string, name: string, tmpDir: string): Names {
    Names(InterPath(dir, name, 0), InterPath(dir, name, 1), Join(tmpDir, "tmp.shp"),
          InterPath(dir, name, 2), InterPath(dir, name, 3), InterPath(dir, name, 4),
          InterPath(dir, name, 5))
  }

  /** The names the coordinator uses for its command line. */
  function NamesFor(cfg: Config, env: Environment): Names {
    NamesIn(InterDir(cfg), LvisName(cfg.lvisTxt), env.tmpDir)
  }

  /** Joining the same directory with two relative names keeps them apart. */
  lemma JoinInjective(dir: string, b1: string, b2: string)
    requires b1 != [] && b1[0] != '/' && b2 != [] && b2[0] != '/'
    requires Join(dir, b1) == Join(dir, b2)
    ensures b1 == b2
  {
    var p := Join(dir, b1);
    if dir == [] || dir[|dir| - 1] == '/' {
      assert b1 == p[|dir|..] == b2;
    } else {
      assert b1 == p[|dir| + 1..] == b2;
    }
  }

  /** The suffixes differ from each other and all start with `_`. */
  lemma SuffixesDistinct()
    ensures forall k :: 0 <= k < |InterSuffixes| ==> InterSuffixes[k] != [] && InterSuffixes[k][0] == '_'
    ensures forall i, j :: 0 <= i < j < |InterSuffixes| ==> InterSuffixes[i] != InterSuffixes[j]
  {
  }

  /** Two different suffixes on the same slash-free name, joined to the same
      directory, give different paths. */
  lemma SuffixedPathsDiffer(dir: string, name: string, s1: string, s2: string)
    requires '/' !in name
    requires s1 != [] && s1[0] == '_' && s2 != [] && s2[0] == '_' && s1 != s2
    ensures Join(dir, name + s1) != Join(dir, name + s2)
  {
    var b1, b2 := name + s1, name + s2;
    assert b1[0] != '/' && b2[0] != '/' by {
      if name != [] {
        assert b1[0] == name[0] && b2[0] == name[0];
      }
    }
    assert b1 != b2 by {
      assert b1[|name|..] == s1 && b2[|name|..] == s2;
    }
    if Join(dir, b1) == Join(dir, b2) {
      JoinInjective(dir, b1, b2);
    }
  }

  /** The six intermediate paths are pairwise different, whatever the input
      name and directory. */
  lemma InterPathsDistinct(dir: string, name: string)
    requires '/' !in name
    ensures forall i, j :: 0 <= i < j < |InterSuffixes| ==> InterPath(dir, name, i) != InterPath(dir, name, j)
  {
    SuffixesDistinct();
    forall i, j | 0 <= i < j < |InterSuffixes|
      ensures InterPath(dir, name, i) != InterPath(dir, name, j)
    {
      SuffixedPathsDiffer(dir, name, InterSuffixes[i], InterSuffixes[j]);
    }
  }

  // ---------------------------------------------------------------------
  // The registry of intermediate files: an insertion-ordered dictionary.

  datatype Entry = Entry(path: string, kind: FileKind)

  predicate HasPath(entries: seq<Entry>, path: string) {
    exists i :: 0 <= i < |entries| && entries[i].path == path
  }

  /** The kind recorded for `path`, if any. */
  function Lookup(entries: seq<Entry>, path: string): (r: Option<FileKind>)
    ensures r.Some? <==> HasPath(entries, path)
  {
    if entries == [] then None
    else if entries[0].path == path then Some(entries[0].kind)
    else
      assert forall i :: 1 <= i < |entries| ==> entries[i] == entries[1..][i - 1];
      Lookup(entries[1..], path)
  }

  predicate NoRegular(entries: seq<Entry>) {
    forall i :: 0 <= i < |entries| ==> entries[i].kind != Regular
  }

  predicate DistinctPaths(entries: seq<Entry>) {
    forall i, j :: 0 <= i < j < |entries| ==> entries[i].path != entries[j].path
  }

  /** `d[path] = kind`: an existing key keeps its place and takes the new
      value; a new key goes last. */
  function Assign(entries: seq<Entry>, path: string, kind: FileKind): (r: seq<Entry>)
    ensures !HasPath(entries, path) ==> r == entries + [Entry(path, kind)]
    ensures HasPath(entries, path) ==> |r| == |entries|
    ensures HasPath(entries, path) ==> forall i :: 0 <= i < |r| ==> r[i].path == entries[i].path
    ensures HasPath(entries, path) ==> forall i :: 0 <= i < |r| && entries[i].path != path ==> r[i] == entries[i]
  {
    if entries == [] then [Entry(path, kind)]
    else if entries[0].path == path then [Entry(path, kind)] + entries[1..]
    else
      assert forall i :: 1 <= i < |entries| ==> entries[i] == entries[1..][i - 1];
      [entries[0]] + Assign(entries[1..], path, kind)
  }

  /** After `d[path] = kind`, `d[path]` is `kind`. */
  lemma {:induction false} AssignLookup(entries: seq<Entry>, path: string, kind: FileKind)
    ensures Lookup(Assign(entries, path, kind), path) == Some(kind)
  {
    if entries != [] && entries[0].path != path {
      AssignLookup(entries[1..], path, kind);
    }
  }

  /** After `d[path] = kind`, every other key maps to what it did before. */
  lemma {:induction false} AssignLookupOther(entries: seq<Entry>, path: string, kind: FileKind, other: string)
    requires other != path
    ensures Lookup(Assign(entries, path, kind), other) == Lookup(entries, other)
  {
    if entries != [] && entries[0].path != path {
      AssignLookupOther(entries[1..], path, kind, other);
      assert Assign(entries, path, kind)[1..] == Assign(entries[1..], path, kind);
    }
  }

  /** An insertion-ordered dictionary whose keys the coordinator assigns. */
  class Registry {
    var entries: seq<Entry>

    constructor ()
      ensures entries == []
    {
      entries := [];
    }

    method Set(path: string, kind: FileKind)
      modifies this
      ensures entries == Assign(old(entries), path, kind)
    {
      entries := Assign(entries, path, kind);
    }
  }

  /** Lines 79-139: the registry the coordinator builds, entry by entry:
      three vector files, the raster, then two vector files. */
  function Registered(n: Names): (r: seq<Entry>)
    ensures |r| == |InterSuffixes|
    ensures NoRegular(r)
  {
    [Entry(n.points, Vector), Entry(n.pointsProj, Vector), Entry(n.circles, Vector),
     Entry(n.coverTif, Raster), Entry(n.coverShp, Vector), Entry(n.segments, Vector)]
  }

  /** The k-th registered entry is the k-th intermediate file with its kind. */
  lemma RegisteredAt(dir: string, name: string, tmpDir: string, k: nat)
    requires k < |InterSuffixes|
    ensures Registered(NamesIn(dir, name, tmpDir))[k] == Entry(InterPath(dir, name, k), InterKinds[k])
  {
  }

  /** Lines 79-139: no two registered files share a path, whatever the
      input name and directory. */
  lemma RegisteredDistinct(dir: string, name: string, tmpDir: string)
    requires '/' !in name
    ensures DistinctPaths(Registered(NamesIn(dir, name, tmpDir)))
  {
    InterPathsDistinct(dir, name);
    var r := Registered(NamesIn(dir, name, tmpDir));
    forall i, j | 0 <= i < j < |r|
      ensures r[i].path != r[j].path
    {
      RegisteredAt(dir, name, tmpDir, i);
      RegisteredAt(dir, name, tmpDir, j);
    }
  }

  /** Assigning the next entry of a registry with distinct paths to its
      prefix extends the prefix by that entry. */
  lemma AssignNext(r: seq<Entry>, k: nat)
    requires k < |r| && DistinctPaths(r)
    ensures Assign(r[..k], r[k].path, r[k].kind) == r[..k + 1]
  {
    assert !HasPath(r[..k], r[k].path) by {
      forall i | 0 <= i < k
        ensures r[..k][i].path != r[k].path
      {
        assert r[..k][i] == r[i];
      }
    }
    assert r[..k + 1] == r[..k] + [r[k]];
  }

  // ---------------------------------------------------------------------
  // The stage commands.

  /** Line 103 corrected: the buffer radius is half the shot diameter. */
  function BufferRadius(diameter: real): (radius: real)
    ensures 2.0 * radius == diameter
    ensures diameter >= 0.0 ==> 0.0 <= radius <= diameter
  {
    diameter * 0.5
  }

  /** How `--shot_diameter` reaches line 103 as the code is written: the
      default is the integer 20, a value given on the command line is a
      string (the option has no `type=float`). */
  datatype DiameterArg = DefaultDiameter | GivenDiameter(text: string)

  /** Line 103 as written: `shot_diameter*0.5`. An integer gives a number; a
      string times a float raises TypeError (`None`). */
  function BufferRadiusAsWritten(arg: DiameterArg): (radius: Option<real>)
    ensures radius.Some? <==> arg.DefaultDiameter?
  {
    match arg
    case DefaultDiameter => Some(20.0 * 0.5)
    case GivenDiameter(_) => None
  }

  /** The corrected radius agrees with the written one on the default, and
      a diameter given on the command line has no radius as written. */
  lemma GivenDiameterFails(text: string)
    ensures BufferRadiusAsWritten(DefaultDiameter) == Some(BufferRadius(20.0))
    ensures BufferRadiusAsWritten(GivenDiameter(text)).None?
  {
  }

  function Script(env: Environment, file: string): string {
    Join(Dirname(env.scriptPath), file)
  }

  const CoordinatesSql: string :=
    "SELECT *, ST_X(geometry) as geasting, ST_Y(geometry) as gnorthing FROM tmp"

  /** Lines 80-83. */
  function VectorizeCommand(cfg: Config, env: Environment, n: Names): Command {
    [Str("bash"), Str(Script(env, "vectorize_lvis_l2.sh")), Str(cfg.lvisTxt), Str(n.points)] +
    (match cfg.colTypes case Some(t) => [Str(t)] case None => [])
  }

  /** Line 92. */
  function ProjectCommand(s: Settings, n: Names): Command {
    [Str("ogr2ogr"), Str("-overwrite"), Str("-f"), Str("ESRI Shapefile"), Str("-t_srs"), Str(s.outSrs), Str(n.tmpShp), Str(n.points)]
  }

  /** Lines 94-95. */
  function CoordinatesCommand(n: Names): Command {
    [Str("ogr2ogr"), Str("-overwrite"), Str("-f"), Str("ESRI Shapefile"), Str("-dialect"), Str("SQLite"), Str("-sql"), Str(CoordinatesSql), Str(n.pointsProj), Str(n.tmpShp)]
  }

  /** Lines 103-104. */
  function BufferCommand(cfg: Config, name: string, n: Names): Command {
    [Str("ogr2ogr"), Str("-overwrite"), Str("-sql"),
     Fmt("SELECT ST_Buffer(geometry, ", BufferRadius(cfg.shotDiameter), "), * FROM " + name + "_points_proj"),
     Str("-dialect"), Str("SQLITE"), Str(n.circles), Str(n.pointsProj)]
  }

  /** Lines 111-119. */
  function RasterizeStageCommand(cfg: Config, env: Environment, s: Settings, name: string, n: Names): Command {
    [Str("python"), Str(Script(env, "rasterize_vector.py")), Str("--at"), Str("--burn"), Str("1"), Str("-l"), Str(name + "_shot_circles"), Str("-f"), Str("GTiff"), Str("--ot"), Str("Byte"), Str("--init"), Str("0"), Str("--nodata"), Str("0")] +
    (match cfg.grid case ByTemplate(t) => [Str("-t"), Str(t)] case ByResolution(_) => [Str("-r"), Num(s.imgRes)]) +
    [Str(n.circles), Str(n.coverTif)]
  }

  /** Lines 126-127. */
  function PolygonsCommand(env: Environment, n: Names): Command {
    [Str("bash"), Str(Script(env, "raster_to_polygon_grids.sh")), Str(n.coverTif), Str(n.coverShp)]
  }

  /** Lines 135-136. */
  function CutCommand(env: Environment, n: Names): Command {
    [Str("bash"), Str(Script(env, "grids_cut_shots.sh")), Str(n.coverShp), Str(n.circles), Str(n.segments)]
  }

  /** Lines 143-146. */
  function AggregateCommand(cfg: Config, env: Environment, s: Settings, n: Names): Command {
    [Str("bash"), Str(Script(env, "shot_seg_to_point_grids.sh")), Str(n.segments), Str(cfg.lvisGrd)] +
    [Num(s.imgRes)] + Strs(cfg.col2grid)
  }

  /** The eight stage commands in the order they are issued, grouped by
      stage. */
  function StageCommands(cfg: Config, env: Environment, s: Settings, name: string, n: Names): (cmds: seq<Command>)
    ensures |cmds| == 8
  {
    [VectorizeCommand(cfg, env, n)] + [ProjectCommand(s, n), CoordinatesCommand(n)] +
    [BufferCommand(cfg, name, n)] + [RasterizeStageCommand(cfg, env, s, name, n)] +
    [PolygonsCommand(env, n), CutCommand(env, n)] + [AggregateCommand(cfg, env, s, n)]
  }

  function Last(cmd: Command): Arg
    requires cmd != []
  {
    cmd[|cmd| - 1]
  }

  /** The files each command reads and writes, for any names. */
  lemma CommandFiles(cfg: Config, env: Environment, s: Settings, name: string, n: Names)
    ensures var c := VectorizeCommand(cfg, env, n); |c| >= 4 && c[3] == Str(n.points)
    ensures var c := ProjectCommand(s, n); |c| == 8 && c[6] == Str(n.tmpShp) && c[7] == Str(n.points)
    ensures var c := CoordinatesCommand(n); |c| == 10 && c[8] == Str(n.pointsProj) && c[9] == Str(n.tmpShp)
    ensures var c := BufferCommand(cfg, name, n); |c| == 8 && c[6] == Str(n.circles) && c[7] == Str(n.pointsProj)
    ensures var c := RasterizeStageCommand(cfg, env, s, name, n);
            |c| == 19 && c[17] == Str(n.circles) && c[18] == Str(n.coverTif)
    ensures var c := PolygonsCommand(env, n); |c| == 4 && c[2] == Str(n.coverTif) && c[3] == Str(n.coverShp)
    ensures var c := CutCommand(env, n);
            |c| == 5 && c[2] == Str(n.coverShp) && c[3] == Str(n.circles) && c[4] == Str(n.segments)
    ensures var c := AggregateCommand(cfg, env, s, n); |c| >= 4 && c[2] == Str(n.segments) && c[3] == Str(cfg.lvisGrd)
  {
    var a := AggregateCommand(cfg, env, s, n);
    var head := [Str("bash"), Str(Script(env, "shot_seg_to_point_grids.sh")), Str(n.segments), Str(cfg.lvisGrd)];
    assert a[..4] == head;
    var r := RasterizeStageCommand(cfg, env, s, name, n);
    assert r[17..] == [Str(n.circles), Str(n.coverTif)];
  }

  /** Each stage reads the file an earlier stage wrote: the points file, the
      temporary shapefile, the projected points, the shot circles, the cover
      raster, the cover polygons and the shot segments. */
  lemma StageDataFlow(cfg: Config, env: Environment, s: Settings, name: string, n: Names)
    ensures var c := StageCommands(cfg, env, s, name, n);
            && c[0][3] == Str(n.points) && Last(c[1]) == Str(n.points)
            && c[1][6] == Str(n.tmpShp) && Last(c[2]) == Str(n.tmpShp)
            && c[2][8] == Str(n.pointsProj) && Last(c[3]) == Str(n.pointsProj)
            && c[3][6] == Str(n.circles) && c[4][|c[4]| - 2] == Str(n.circles) && c[6][3] == Str(n.circles)
            && Last(c[4]) == Str(n.coverTif) && c[5][2] == Str(n.coverTif)
            && Last(c[5]) == Str(n.coverShp) && c[6][2] == Str(n.coverShp)
            && Last(c[6]) == Str(n.segments) && c[7][2] == Str(n.segments)
            && c[7][3] == Str(cfg.lvisGrd)
  {
    CommandFiles(cfg, env, s, name, n);
  }

  /** Lines 111-119: the shot circles are rasterized all-touched with burn
      value 1, initial value 0 and nodata 0, on the template's grid if there
      is one and at the requested resolution otherwise. */
  lemma RasterizeStageOptions(cfg: Config, env: Environment, name: string, n: Names)
    requires CheckArgs(cfg).None?
    ensures var c := StageCommands(cfg, env, Effective(cfg, env), name, n)[4];
            && |c| == 19
            && c[2..5] == [Str("--at"), Str("--burn"), Str("1")]
            && c[11..15] == [Str("--init"), Str("0"), Str("--nodata"), Str("0")]
            && (cfg.grid.ByTemplate? ==> c[15..17] == [Str("-t"), Str(cfg.grid.template)])
            && (cfg.grid.ByResolution? ==> c[15..17] == [Str("-r"), Num(cfg.grid.res)])
  {
    var s := Effective(cfg, env);
    var c := StageCommands(cfg, env, s, name, n)[4];
    assert c == RasterizeStageCommand(cfg, env, s, name, n);
    var head := [Str("python"), Str(Script(env, "rasterize_vector.py")), Str("--at"), Str("--burn"), Str("1"),
                 Str("-l"), Str(name + "_shot_circles"), Str("-f"), Str("GTiff"), Str("--ot"), Str("Byte"),
                 Str("--init"), Str("0"), Str("--nodata"), Str("0")];
    var grid := match cfg.grid case ByTemplate(t) => [Str("-t"), Str(t)] case ByResolution(_) => [Str("-r"), Num(s.imgRes)];
    assert c == head + grid + [Str(n.circles), Str(n.coverTif)];
    assert c[..15] == head && c[15..17] == grid;
    assert c[2..5] == head[2..5] && c[11..15] == head[11..15];
  }

  /** Lines 143-146: the aggregation command ends with the resolution and
      then the requested columns, in the order given. */
  lemma AggregationTail(cfg: Config, env: Environment, s: Settings, name: string, n: Names)
    ensures var c, m := StageCommands(cfg, env, s, name, n)[7], |cfg.col2grid|;
            && |c| == m + 5
            && c[|c| - m - 1] == Num(s.imgRes)
            && c[|c| - m..] == Strs(cfg.col2grid)
  {
    var c := StageCommands(cfg, env, s, name, n)[7];
    var m := |cfg.col2grid|;
    assert c[|c| - m..] == Strs(cfg.col2grid);
  }

  // ---------------------------------------------------------------------
  // Cleanup.

  /** Lines 152-157: the deletion command for one registered file. */
  function DeleteCommand(e: Entry): Command
    requires e.kind != Regular
  {
    if e.kind == Vector then [Str("fio"), Str("rm"), Str("--yes"), Str(e.path)] else [Str("gdalmanage"), Str("delete"), Str(e.path)]
  }

  /** Lines 150-159: the deletions the cleanup loop issues, in registry
      order. A "regular" entry would call `os.path.remove`, which does not
      exist: the AttributeError ends the loop there. */
  function CleanupCommands(entries: seq<Entry>): seq<Command> {
    if entries == [] || entries[0].kind == Regular then []
    else [DeleteCommand(entries[0])] + CleanupCommands(entries[1..])
  }

  /** The cleanup of a registry whose first part holds no "regular" entry
      is that part's cleanup followed by the rest's. */
  lemma {:induction false} CleanupSplit(front: seq<Entry>, back: seq<Entry>)
    requires NoRegular(front)
    ensures CleanupCommands(front + back) == CleanupCommands(front) + CleanupCommands(back)
  {
    if front != [] {
      var d := DeleteCommand(front[0]);
      assert (front + back)[0] == front[0];
      assert (front + back)[1..] == front[1..] + back;
      calc {
        CleanupCommands(front + back);
        [d] + CleanupCommands(front[1..] + back);
        { CleanupSplit(front[1..], back); }
        [d] + (CleanupCommands(front[1..]) + CleanupCommands(back));
        ([d] + CleanupCommands(front[1..])) + CleanupCommands(back);
      }
    } else {
      assert front + back == back;
    }
  }

  /** Without "regular" entries every registered file is deleted exactly
      once, in registry order, by the command that matches its kind. */
  lemma {:induction false} CleanupDeletesEach(entries: seq<Entry>)
    requires NoRegular(entries)
    ensures |CleanupCommands(entries)| == |entries|
    ensures forall i :: 0 <= i < |entries| ==> CleanupCommands(entries)[i] == DeleteCommand(entries[i])
  {
    if entries != [] {
      CleanupDeletesEach(entries[1..]);
    }
  }

  /** The coordinator's cleanup, written out: `fio rm --yes` for the five
      vector files and `gdalmanage delete` for the raster, in creation
      order. */
  lemma CoordinatorCleanup(n: Names)
    ensures CleanupCommands(Registered(n)) ==
            [[Str("fio"), Str("rm"), Str("--yes"), Str(n.points)],
             [Str("fio"), Str("rm"), Str("--yes"), Str(n.pointsProj)],
             [Str("fio"), Str("rm"), Str("--yes"), Str(n.circles)],
             [Str("gdalmanage"), Str("delete"), Str(n.coverTif)],
             [Str("fio"), Str("rm"), Str("--yes"), Str(n.coverShp)],
             [Str("fio"), Str("rm"), Str("--yes"), Str(n.segments)]]
  {
    CleanupDeletesEach(Registered(n));
  }

  /** A shell that runs commands: each call is appended to the log, and the
      exit status comes from `outcome`; the coordinator never looks at it. */
  class Shell {
    var log: seq<Command>
    const outcome: Command -> int

    constructor (outcome: Command -> int)
      ensures log == [] && this.outcome == outcome
    {
      log := [];
      this.outcome := outcome;
    }

    /** `subprocess.run(cmd)`. */
    method Run(cmd: Command) returns (status: int)
      modifies this
      ensures log == old(log) + [cmd]
      ensures status == outcome(cmd)
    {
      log := log + [cmd];
      status := outcome(cmd);
    }
  }

  /** Lines 151-159: issue the deletions in registry order. `crashed` is set
      when a "regular" entry is reached. */
  method Cleanup(shell: Shell, entries: seq<Entry>) returns (crashed: bool)
    modifies shell
    ensures shell.log == old(shell.log) + CleanupCommands(entries)
    ensures crashed <==> !NoRegular(entries)
  {
    var i := 0;
    while i < |entries|
      invariant 0 <= i <= |entries|
      invariant NoRegular(entries[..i])
      invariant shell.log == old(shell.log) + CleanupCommands(entries[..i])
    {
      var e := entries[i];
      if e.kind == Regular {
        CleanupSplit(entries[..i], entries[i..]);
        assert entries[..i] + entries[i..] == entries;
        return true;
      }
      var _ := shell.Run(DeleteCommand(e));
      CleanupSplit(entries[..i], [e]);
      assert CleanupCommands([e]) == [DeleteCommand(e)];
      assert entries[..i + 1] == entries[..i] + [e];
      i := i + 1;
    }
    assert entries[..i] == entries;
    return false;
  }

  // ---------------------------------------------------------------------
  // The coordinator, one stage at a time.

  /** Regrouping the log, so that each stage's commands append to those
      already issued. */
  lemma AppendAssoc(log: seq<Command>, done: seq<Command>, next: seq<Command>)
    ensures log + done + next == log + (done + next)
  {
  }

  /** Lines 79-86: ASCII table to a point shapefile. */
  method Vectorize(shell: Shell, inter: Registry, cfg: Config, env: Environment, n: Names)
    requires DistinctPaths(Registered(n)) && inter.entries == Registered(n)[..0]
    modifies shell, inter
    ensures shell.log == old(shell.log) + [VectorizeCommand(cfg, env, n)]
    ensures inter.entries == Registered(n)[..1]
  {
    var _ := shell.Run(VectorizeCommand(cfg, env, n));
    AssignNext(Registered(n), 0);
    inter.Set(n.points, Vector);
  }

  /** Lines 89-99: reproject through a temporary shapefile, adding the
      projected coordinates as attributes. */
  method Reproject(shell: Shell, inter: Registry, s: Settings, n: Names)
    requires DistinctPaths(Registered(n)) && inter.entries == Registered(n)[..1]
    modifies shell, inter
    ensures shell.log == old(shell.log) + [ProjectCommand(s, n), CoordinatesCommand(n)]
    ensures inter.entries == Registered(n)[..2]
  {
    var _ := shell.Run(ProjectCommand(s, n));
    var _ := shell.Run(CoordinatesCommand(n));
    AssignNext(Registered(n), 1);
    inter.Set(n.pointsProj, Vector);
  }

  /** Lines 102-107: buffer each shot into a circle. */
  method Buffer(shell: Shell, inter: Registry, cfg: Config, name: string, n: Names)
    requires DistinctPaths(Registered(n)) && inter.entries == Registered(n)[..2]
    modifies shell, inter
    ensures shell.log == old(shell.log) + [BufferCommand(cfg, name, n)]
    ensures inter.entries == Registered(n)[..3]
  {
    var _ := shell.Run(BufferCommand(cfg, name, n));
    AssignNext(Registered(n), 2);
    inter.Set(n.circles, Vector);
  }

  /** Lines 110-122: rasterize the circles onto the grid. */
  method Rasterize(shell: Shell, inter: Registry, cfg: Config, env: Environment, s: Settings,
                   name: string, n: Names)
    requires DistinctPaths(Registered(n)) && inter.entries == Registered(n)[..3]
    modifies shell, inter
    ensures shell.log == old(shell.log) + [RasterizeStageCommand(cfg, env, s, name, n)]
    ensures inter.entries == Registered(n)[..4]
  {
    var _ := shell.Run(RasterizeStageCommand(cfg, env, s, name, n));
    AssignNext(Registered(n), 3);
    inter.Set(n.coverTif, Raster);
  }

  /** Lines 125-139: polygonise the cover raster, then cut the circles by
      the cells. */
  method Polygonize(shell: Shell, inter: Registry, env: Environment, n: Names)
    requires DistinctPaths(Registered(n)) && inter.entries == Registered(n)[..4]
    modifies shell, inter
    ensures shell.log == old(shell.log) + [PolygonsCommand(env, n), CutCommand(env, n)]
    ensures inter.entries == Registered(n)[..6]
  {
    var _ := shell.Run(PolygonsCommand(env, n));
    AssignNext(Registered(n), 4);
    inter.Set(n.coverShp, Vector);
    var _ := shell.Run(CutCommand(env, n));
    AssignNext(Registered(n), 5);
    inter.Set(n.segments, Vector);
  }

  /** Lines 143-148: aggregate the segments into grid-cell points. */
  method Aggregate(shell: Shell, cfg: Config, env: Environment, s: Settings, n: Names)
    modifies shell
    ensures shell.log == old(shell.log) + [AggregateCommand(cfg, env, s, n)]
  {
    var _ := shell.Run(AggregateCommand(cfg, env, s, n));
  }

  /** Lines 63-70: a template grid overrides the resolution and the
      output reference system, with a warning when one was also given. */
  method TemplateOverride(cfg: Config, env: Environment) returns (s: Settings)
    requires CheckArgs(cfg).None?
    ensures s == Effective(cfg, env)
  {
    var w := false;
    var imgRes: real;
    var outSrs: string;
    match cfg.grid {
      case ByTemplate(_) =>
        imgRes := Abs(env.templateGt.g1);
        w := cfg.outSrs.Some?;
        outSrs := env.templateProjection;
      case ByResolution(r) =>
        imgRes := r;
        outSrs := cfg.outSrs.value;
    }
    s := Settings(imgRes, outSrs, w);
  }

  /** Lines 72-75 and the file names of lines 77-143. */
  method IntermediateNames(cfg: Config, env: Environment) returns (name: string, n: Names)
    ensures name == LvisName(cfg.lvisTxt) && n == NamesFor(cfg, env)
  {
    name := Stem(Basename(cfg.lvisTxt));
    var dir := if cfg.dirInter.Some? then cfg.dirInter.value else Dirname(cfg.lvisGrd);
    assert name == LvisName(cfg.lvisTxt) && dir == InterDir(cfg);
    n := Names(Join(dir, name + "_points.shp"), Join(dir, name + "_points_proj.shp"),
               Join(env.tmpDir, "tmp.shp"), Join(dir, name + "_shot_circles.shp"),
               Join(dir, name + "_shot_cover.tif"), Join(dir, name + "_shot_cover.shp"),
               Join(dir, name + "_shot_segments.sqlite"));
  }

  /** Lines 77-148: the eight stages in order whatever their exit
      statuses, each registering the intermediate files it creates. */
  method RunStages(shell: Shell, cfg: Config, env: Environment, s: Settings, name: string, n: Names)
    returns (registered: seq<Entry>)
    requires DistinctPaths(Registered(n))
    modifies shell
    ensures shell.log == old(shell.log) + StageCommands(cfg, env, s, name, n)
    ensures registered == Registered(n)
  {
    ghost var log0 := shell.log;
    assert Registered(n)[..6] == Registered(n);
    var inter := new Registry();

    Vectorize(shell, inter, cfg, env, n);
    ghost var done := [VectorizeCommand(cfg, env, n)];
    Reproject(shell, inter, s, n);
    AppendAssoc(log0, done, [ProjectCommand(s, n), CoordinatesCommand(n)]);
    done := done + [ProjectCommand(s, n), CoordinatesCommand(n)];
    Buffer(shell, inter, cfg, name, n);
    AppendAssoc(log0, done, [BufferCommand(cfg, name, n)]);
    done := done + [BufferCommand(cfg, name, n)];
    Rasterize(shell, inter, cfg, env, s, name, n);
    AppendAssoc(log0, done, [RasterizeStageCommand(cfg, env, s, name, n)]);
    done := done + [RasterizeStageCommand(cfg, env, s, name, n)];
    Polygonize(shell, inter, env, n);
    AppendAssoc(log0, done, [PolygonsCommand(env, n), CutCommand(env, n)]);
    done := done + [PolygonsCommand(env, n), CutCommand(env, n)];
    assert (inter as object) != (shell as object);
    Aggregate(shell, cfg, env, s, n);
    AppendAssoc(log0, done, [AggregateCommand(cfg, env, s, n)]);
    done := done + [AggregateCommand(cfg, env, s, n)];
    assert done == StageCommands(cfg, env, s, name, n);

    registered := inter.entries;
  }

  /** Lines 150-159: unless asked to keep them, delete the registered files,
      none of which is "regular". */
  method RemoveIntermediates(shell: Shell, keep: bool, entries: seq<Entry>)
    requires NoRegular(entries)
    modifies shell
    ensures shell.log == old(shell.log) + (if keep then [] else CleanupCommands(entries))
  {
    if !keep {
      var crashed := Cleanup(shell, entries);
      assert !crashed;
    }
  }

  /** The six files the coordinator registers have distinct paths, for any
      command line. */
  lemma CoordinatorPathsDistinct(cfg: Config, env: Environment)
    ensures DistinctPaths(Registered(NamesFor(cfg, env)))
  {
    RegisteredDistinct(InterDir(cfg), LvisName(cfg.lvisTxt), env.tmpDir);
  }

  /** Lines 45-159. On an inconsistent command line nothing is issued.
      Otherwise the eight stages run in order whatever their exit statuses,
      the registry ends with the six intermediate files, and they are
      deleted unless `keepInter` is set. */
  method GridLvisL2(cfg: Config, env: Environment, shell: Shell)
    returns (err: Option<ArgError>, warned: bool, registered: seq<Entry>)
    modifies shell
    ensures err == CheckArgs(cfg)
    ensures err.Some? ==> shell.log == old(shell.log) && registered == [] && !warned
    ensures err.None? ==> warned == Effective(cfg, env).warned
    ensures err.None? ==> registered == Registered(NamesFor(cfg, env))
    ensures err.None? ==>
              shell.log == old(shell.log) +
                           StageCommands(cfg, env, Effective(cfg, env), LvisName(cfg.lvisTxt), NamesFor(cfg, env)) +
                           (if cfg.keepInter then [] else CleanupCommands(registered))
  {
    err := CheckArgs(cfg);
    warned := false;
    registered := [];
    if err.Some? {
      return;
    }
    var s := TemplateOverride(cfg, env);
    var name, n := IntermediateNames(cfg, env);
    CoordinatorPathsDistinct(cfg, env);
    registered := RunStages(shell, cfg, env, s, name, n);
    warned := s.warned;
    RemoveIntermediates(shell, cfg.keepInter, registered);
  }
}
