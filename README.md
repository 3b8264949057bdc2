# grid-nasa-lvis-l2 in Dafny

A model of the three Python programs at the core of grid-nasa-lvis-l2. Together they grid NASA LVIS L2 laser-altimetry shots onto a raster grid.

- **Canopy cover** (`est_cc_from_lvis2.py`, module `CanopyCover`). Each shot has a relative-height profile RH10 .. RH100. Its canopy cover is 100 minus the percentile of the first profile column whose height is strictly above 1.37 m; with no such column the last column (percentile 100) is used.
  - The module also models numpy's where/cumsum/argmin formulation of that rule.
  - It models the loop that copies the shot table line by line, appending a `CC_PERCENT` label to the header line and a cover value to each data line.
- **Rasterization options** (`rasterize_vector.py`, modules `Rasterize` and `Affine`). This builds the `gdal_rasterize` command line:
  - the burn options, in the order the script appends them;
  - with a resolution, `-tr r r`, and for point layers a target extent padded by half a pixel;
  - with a template raster, the layer extent's two corners carried into the template's pixel space, rounded as (floor, ceil) and (ceil, floor) in pixel space, which is outward on a north-up template, and mapped back, with the template's pixel size as resolution.
- **The coordinator** (`grid_lvis_l2.py`, modules `Pipeline` and `Paths`).
  - It checks the options, lets a template override the resolution and reference system, and derives the base name and the directory of the intermediate files.
  - It issues the eight stage commands in a fixed order and records each intermediate file with its kind in an insertion-ordered registry.
  - Unless asked to keep them, it then deletes the registered files with the command matching their kind.
  - External commands are entries appended to a `Shell` object's log; the registry is a `Registry` object whose `entries` the stages update.

`Base` holds the shared value types: `Option`, `Result`, command-line arguments (`Arg`) and decimal rendering. Numbers on a command line stay numbers: `Num(x)` stands for `str(x)`, and `Fmt(pre, x, post)` for a literal with `x` formatted into it.

## Model

| member | source | states |
|---|---|---|
| Base.Strs | grid_lvis_l2.py:146 | the requested column names are appended as arguments, one each, in the given order |
| Base.Decimal | est_cc_from_lvis2.py:52 | the cover value is written as a non-empty string of decimal digits, without leading zeros |
| Base.DecimalRoundTrip | est_cc_from_lvis2.py:52 | reading the written digits back gives the cover value |
| Affine.Invert | rasterize_vector.py:111-112 | the inverse of a geotransform exists exactly when its determinant is non-zero |
| Affine.InvertRight | rasterize_vector.py:111-112 | applying the inverse and then the forward map is the identity |
| Affine.InvertLeft | rasterize_vector.py:111-112 | applying the forward map and then the inverse is the identity |
| Affine.Floor | rasterize_vector.py:122-123 | `np.floor` gives the greatest integer not above its argument |
| Affine.Ceil | rasterize_vector.py:122-123 | `np.ceil` gives the least integer not below its argument |
| Affine.RoundIntegral | rasterize_vector.py:122-123 | floor and ceil leave whole numbers unchanged |
| Affine.Abs | rasterize_vector.py:130 | `np.fabs` is non-negative and equal to the value or its negation |
| CanopyCover.Range | est_cc_from_lvis2.py:34 | `range(lo, hi)` holds lo, lo + 1, .., hi - 1 |
| CanopyCover.PercentileTable | est_cc_from_lvis2.py:31-34 | 23 strictly increasing percentiles from 10 to 100, one per profile column 9 .. 31 |
| CanopyCover.FirstAbove | est_cc_from_lvis2.py:35-37 | the result is the first height strictly above the threshold, and is absent exactly when no height is above it |
| CanopyCover.CoverIndex | est_cc_from_lvis2.py:36-38 | the chosen column is a valid index into the percentile table |
| CanopyCover.Cover | est_cc_from_lvis2.py:39 | the cover is 100 minus the chosen column's percentile and at most 90 |
| CanopyCover.CoverAtFirstCrossing | est_cc_from_lvis2.py:35-39 | with a crossing, the cover is 100 minus the percentile of the first column above the threshold |
| CanopyCover.CoverWithoutCrossing | est_cc_from_lvis2.py:38-39 | with no crossing, the last column (percentile 100) is chosen and the cover is 0 |
| CanopyCover.ThresholdIsExclusive | est_cc_from_lvis2.py:35 | heights equal to 1.37 are not canopy: such a profile has no crossing and cover 0 |
| CanopyCover.CoverIsTableValue | est_cc_from_lvis2.py:31-39 | the cover is 100 minus some entry of the percentile table |
| CanopyCover.CoverMonotone | est_cc_from_lvis2.py:31-39 | an earlier crossing never gives less cover, and a strictly earlier one gives strictly more |
| CanopyCover.WorkedExample | est_cc_from_lvis2.py:35-39 | a profile first above 1.37 m at RH40 has cover 60 |
| CanopyCover.Flags | est_cc_from_lvis2.py:35 | `in_arr > rh_thresh` marks exactly the canopy heights |
| CanopyCover.CountTrueZero | est_cc_from_lvis2.py:38 | the row sum of the flags is 0 exactly when no flag is set |
| CanopyCover.CumSum | est_cc_from_lvis2.py:36 | the running count has one entry per flag |
| CanopyCover.Where | est_cc_from_lvis2.py:36 | `np.where` takes the running count where the flag is set and the fill value elsewhere |
| CanopyCover.ArgMin | est_cc_from_lvis2.py:37 | `np.argmin` is a minimum's index, and no earlier entry is as small |
| CanopyCover.NumpyMatchesFirstAbove | est_cc_from_lvis2.py:35-38 | the where/cumsum/argmin computation with its fallback picks the same column as the first-crossing rule |
| CanopyCover.Covers | est_cc_from_lvis2.py:34-39 | one cover per parsed row, each that row's cover and at most 90 |
| CanopyCover.CoversAsWritten | est_cc_from_lvis2.py:34-36 | the code as written fails exactly on tables of fewer than two rows, and otherwise gives `Covers` |
| CanopyCover.SingleShotTableFails | est_cc_from_lvis2.py:34-36 | a one-shot table fails as written, where one cover is meant |
| CanopyCover.HeaderLayout | est_cc_from_lvis2.py:34-47 | columns 9 .. 31 are exactly where the header lists RH10 .. RH100 |
| CanopyCover.TrimLeadingNewlines | est_cc_from_lvis2.py:47 | a suffix of the line that does not start with a newline; only newlines were dropped |
| CanopyCover.TrimTrailingNewlines | est_cc_from_lvis2.py:47 | a prefix of the line that does not end with a newline; only newlines were dropped |
| CanopyCover.StripNewlines | est_cc_from_lvis2.py:47-52 | `strip("\n")` neither starts nor ends with a newline |
| CanopyCover.StripNewlinesRuns | est_cc_from_lvis2.py:47-52 | the line is a run of newlines, then the stripped text, then another run of newlines |
| CanopyCover.StripLine | est_cc_from_lvis2.py:47-52 | a line read with its newline strips back to its text |
| CanopyCover.DataLinesMonotone | est_cc_from_lvis2.py:45-53 | the data-line counter never decreases, and grows past each data line |
| CanopyCover.Annotate | est_cc_from_lvis2.py:43-53 | for every line written so far: the exact header gets `\tCC_PERCENT`, other `#` lines are copied, and the k-th data line gets the k-th cover; all lines are written exactly when the covers suffice; otherwise the loop stops at the first data line without a cover |
| CanopyCover.EstimateCanopyCover | est_cc_from_lvis2.py:22-53 | a wrong argument count fails before any output; so does a table of fewer than two rows, as line 36 is written; otherwise the input is annotated with the table's covers, and the output has as many lines as the input unless data lines outnumber rows |
| Rasterize.PadPointExtent | rasterize_vector.py:103-107 | half a pixel of padding on each side: the extent grows by one pixel per axis and contains the data extent |
| Rasterize.SnapToTemplate | rasterize_vector.py:109-125 | fails exactly for a non-invertible template; the corners round as (floor, ceil) and (ceil, floor) in pixel space; the output corners are forward images of those whole pixels |
| Rasterize.NorthUpAxes | rasterize_vector.py:111-121 | a north-up template is invertible, and each pixel coordinate maps back along its own axis |
| Rasterize.NorthUpForward | rasterize_vector.py:124-125 | on a north-up template the forward map works axis by axis |
| Rasterize.SnapNorthUpLowerLeft | rasterize_vector.py:118-125 | the snapped lower-left edges lie west and south of the corner, by less than one pixel |
| Rasterize.SnapNorthUpUpperRight | rasterize_vector.py:118-125 | the snapped upper-right edges lie east and north of the corner, by less than one pixel |
| Rasterize.SnapNorthUpContains | rasterize_vector.py:118-125 | on a north-up template the snapped extent contains both transformed corners, adding less than a pixel per side |
| Rasterize.SnapIdempotent | rasterize_vector.py:120-125 | corners already on pixel boundaries come back unchanged |
| Rasterize.SnapOnePixel | rasterize_vector.py:118-125 | snapping one template pixel's own bounds gives those bounds back |
| Rasterize.BurnOptionLayout | rasterize_vector.py:68-88 | the order is `-l`, then `-a_nodata` only with a nodata value, `-init`, `-ot`, one of `-a`/`-burn`, and `-at` only when all-touched |
| Rasterize.BurnOptions | rasterize_vector.py:68-88 | the list built by appending groups one at a time equals the burn option list |
| Rasterize.GridOptions | rasterize_vector.py:91-130 | resolution mode gives `-tr r r`, plus the padded `-te` for the eight point types only; template mode gives the snapped `-te` and `-tr abs(gt[1]) abs(gt[5])`, and fails exactly for a non-invertible template |
| Rasterize.RasterizeCommand | rasterize_vector.py:68-132 | the command is `gdal_rasterize`, the burn options, the grid options of the chosen mode, then input and output; it fails only for a non-invertible template |
| Paths.LastIndexOf | grid_lvis_l2.py:72-73 | the last position holding the character, or -1 when there is none |
| Paths.Basename | grid_lvis_l2.py:72 | the part of the path after its last slash, with no slash in it |
| Paths.TrimTrailingSlashes | grid_lvis_l2.py:75 | the longest prefix not ending in a slash; only slashes are dropped |
| Paths.Dirname | grid_lvis_l2.py:75 | the path is the directory, then only slashes, then the base name; the directory ends in a slash only when it is all slashes, and is empty when the path has no slash |
| Paths.DirnameExact | grid_lvis_l2.py:75 | the directory is empty exactly when the path has no slash, and a directory part made of slashes only is kept whole (`/x` gives `/`), so the directory is determined uniquely |
| Paths.Join | grid_lvis_l2.py:79 | an absolute second part replaces the first; otherwise a separator is added only when needed |
| Paths.JoinDirnameBasename | grid_lvis_l2.py:72-75 | joining a path's directory and base name gives the path back, unless its last slash is doubled |
| Paths.SplitDots | grid_lvis_l2.py:73 | splitting on dots gives at least one piece, none containing a dot |
| Paths.JoinSplitDots | grid_lvis_l2.py:73 | joining the pieces with dots gives the string back |
| Paths.StemBeforeLastDot | grid_lvis_l2.py:73 | dropping the last piece leaves everything before the last dot, or nothing without a dot |
| Pipeline.CheckArgs | grid_lvis_l2.py:45-46 | an error exactly when a resolution is given without `--out_srs` |
| Pipeline.Effective | grid_lvis_l2.py:63-69 | a template sets the resolution to its absolute pixel width and the reference system to its projection, and warns exactly when `--out_srs` was also given; a resolution keeps both options, without a warning |
| Pipeline.TemplateOverride | grid_lvis_l2.py:63-70 | the settings computed step by step are the effective settings |
| Pipeline.LvisName | grid_lvis_l2.py:72-73 | the base name before its last dot, empty without a dot, and free of slashes |
| Pipeline.InterDir | grid_lvis_l2.py:74-75 | the given intermediate directory, or by default the output's directory, a prefix of the output path |
| Pipeline.IntermediateNames | grid_lvis_l2.py:72-75 | the name and file names computed step by step are the coordinator's |
| Pipeline.InterPathsDistinct | grid_lvis_l2.py:79-134 | the six intermediate paths differ pairwise, whatever the name and directory |
| Pipeline.Lookup | grid_lvis_l2.py:77 | a dictionary lookup finds a kind exactly when the path is a key |
| Pipeline.Assign | grid_lvis_l2.py:86 | a new key goes last; on an existing key every key keeps its position and every entry with another key is unchanged |
| Pipeline.AssignLookup | grid_lvis_l2.py:86 | after `d[path] = kind`, `d[path]` is `kind` |
| Pipeline.AssignLookupOther | grid_lvis_l2.py:86 | after `d[path] = kind`, every other key maps to what it did before |
| Pipeline.Registry.constructor | grid_lvis_l2.py:77 | the registry starts empty |
| Pipeline.Registry.Set | grid_lvis_l2.py:86-139 | the registry becomes the old one with the key assigned |
| Pipeline.Registered | grid_lvis_l2.py:79-139 | six entries, none of kind "regular" |
| Pipeline.RegisteredAt | grid_lvis_l2.py:79-139 | entry k is the k-th intermediate path with its kind (vector, vector, vector, raster, vector, vector) |
| Pipeline.RegisteredDistinct | grid_lvis_l2.py:79-139 | no two registered entries share a path |
| Pipeline.AssignNext | grid_lvis_l2.py:86-139 | registering the next file extends the registry by exactly that entry |
| Pipeline.CoordinatorPathsDistinct | grid_lvis_l2.py:72-139 | for any command line the coordinator's six registered paths are distinct |
| Pipeline.BufferRadius | grid_lvis_l2.py:103 | the buffer radius is half the shot diameter |
| Pipeline.BufferRadiusAsWritten | grid_lvis_l2.py:103 | as written (the option at line 34 has no `type=float`), only the default diameter gives a radius |
| Pipeline.GivenDiameterFails | grid_lvis_l2.py:103 | the written radius agrees with the corrected one on the default and fails for any given diameter |
| Pipeline.StageCommands | grid_lvis_l2.py:80-146 | the coordinator issues eight commands |
| Pipeline.CommandFiles | grid_lvis_l2.py:79-146 | each command names the files it reads and writes at fixed positions |
| Pipeline.StageDataFlow | grid_lvis_l2.py:79-146 | each stage reads the file an earlier stage wrote, and the last writes the output |
| Pipeline.RasterizeStageOptions | grid_lvis_l2.py:111-119 | always `--at --burn 1` and `--init 0 --nodata 0`, then `-t template` with a template or `-r res` otherwise |
| Pipeline.AggregationTail | grid_lvis_l2.py:143-146 | the aggregation command ends with the resolution, then the requested columns in order |
| Pipeline.CleanupSplit | grid_lvis_l2.py:150-159 | the cleanup of a registry splits at any point before its first "regular" entry |
| Pipeline.CleanupDeletesEach | grid_lvis_l2.py:150-157 | without "regular" entries, each entry is deleted exactly once, in order, by the command for its kind |
| Pipeline.CoordinatorCleanup | grid_lvis_l2.py:150-157 | the six deletions: `fio rm --yes` for the vector files and `gdalmanage delete` for the raster, in creation order |
| Pipeline.Shell.Run | grid_lvis_l2.py:85 | running a command appends it to the log; the exit status comes from the shell |
| Pipeline.Cleanup | grid_lvis_l2.py:150-159 | the loop issues the registry's deletions in order, and stops at a "regular" entry exactly when there is one |
| Pipeline.Vectorize | grid_lvis_l2.py:79-86 | issues the vectorize command and registers the points file |
| Pipeline.Reproject | grid_lvis_l2.py:89-99 | issues the two `ogr2ogr` commands and registers the projected points |
| Pipeline.Buffer | grid_lvis_l2.py:102-107 | issues the buffer command and registers the shot circles |
| Pipeline.Rasterize | grid_lvis_l2.py:110-122 | issues the rasterize command and registers the cover raster |
| Pipeline.Polygonize | grid_lvis_l2.py:125-139 | issues the polygonise and cut commands and registers their outputs |
| Pipeline.Aggregate | grid_lvis_l2.py:143-148 | issues the aggregation command and registers nothing |
| Pipeline.RunStages | grid_lvis_l2.py:77-148 | all eight commands are issued in order whatever their exit statuses, and the registry ends with the six files in creation order |
| Pipeline.RemoveIntermediates | grid_lvis_l2.py:150-159 | with `keep_inter` nothing is issued; otherwise the registry's deletions |
| Pipeline.GridLvisL2 | grid_lvis_l2.py:45-159 | an inconsistent command line issues nothing; otherwise the eight stages, then, unless kept, the deletions of the six registered files; the warning follows the template override |

## Left out

- External programs (`ogr2ogr`, `gdal_rasterize`, `fio`, `gdalmanage`, the bash scripts and `rasterize_vector.py` as run from the coordinator) are only entries in the shell's log. What they compute, including the buffering, polygonising, intersection and aggregation done by the shell scripts, is not modelled.
- GDAL, OGR and OSR are inputs, not modelled:
  - the layer's extent, geometry type and first layer name;
  - the template's geotransform and projection;
  - the reference-system transformation, which is a function parameter (`toRaster`).
- `np.genfromtxt` parsing: the parsed RH rows are an input to `EstimateCanopyCover`, beside the file's lines. Reading and writing the files is not modelled.
- Float-to-text conversion (`str(x)`, `{0:f}`) is kept as the `Num`/`Fmt` tokens, not rendered.
- Floating-point rounding: all geometry uses exact reals.
- `argparse`:
  - `Options` and `Config` encode its mutually exclusive choices.
  - The `-f` format of rasterize_vector.py is accepted but never passed on, as in the code.
  - `--init` defaults to 0, so `-init` is always emitted.
- `tempfile.mkdtemp` and `shutil.rmtree` are not modelled: the temporary directory is an input.
- `print` output and warning text: the warning is a flag.
- `Pipeline.GridLvisL2` takes the shot diameter as a number (`Config.shotDiameter`) and uses the corrected `BufferRadius`. The model does not capture that a diameter given on the command line makes line 103 raise, after three commands have been issued (see Findings).
- `Pipeline.Cleanup`: a "regular" entry would call `os.path.remove`, which does not exist. The model ends the loop there (`crashed`); the coordinator never registers such an entry.

## Findings

| source | as written | input that shows it | evidently intended | confidence | as-written member | corrected member |
|---|---|---|---|---|---|---|
| est_cc_from_lvis2.py:34-36 | `np.genfromtxt` returns a one-dimensional array for a table with a single data row, so `np.cumsum(flag_arr, axis=1)` raises | an input file with exactly one shot line | one cover value per shot, for any number of shots | not executed | CanopyCover.SingleShotTableFails | CanopyCover.Covers |
| grid_lvis_l2.py:103 | `--shot_diameter` (line 34) has no `type=float`, so a value given on the command line is a string, and `shot_diameter*0.5` raises TypeError | `--shot_diameter 25` | buffer radius = diameter / 2 for any given diameter | not executed | Pipeline.GivenDiameterFails | Pipeline.BufferRadius |
