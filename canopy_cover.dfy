/** Canopy cover of LVIS L2B shots from their relative-height (RH) profile,
    and the annotation of the shot table with one extra CC_PERCENT column
    (est_cc_from_lvis2.py). */
module CanopyCover {
  import opened Base

  /** Height in metres separating canopy from below-canopy returns. */
  const RhThreshold: real := 1.37

  /** Percentiles of the profile columns RH10 .. RH100. */
  const RhPercentiles: seq<int> :=
    [10, 15, 20, 25, 30, 35, 40, 45, 50, 55, 60, 65, 70, 75, 80, 85,
     90, 95, 96, 97, 98, 99, 100]

  /** The integers lo, lo + 1, .., hi - 1 (Python's `range(lo, hi)`). */
  function Range(lo: int, hi: int): (r: seq<int>)
    decreases hi - lo
    ensures |r| == if lo <= hi then hi - lo else 0
    ensures forall i :: 0 <= i < |r| ==> r[i] == lo + i
  {
    if hi <= lo then [] else [lo] + Range(lo + 1, hi)
  }

  /** Zero-based columns of the shot table read as the profile. */
  function ProfileColumns(): seq<int> { Range(9, 32) }

  predicate StrictlyIncreasing(s: seq<int>) {
    forall i, j :: 0 <= i < j < |s| ==> s[i] < s[j]
  }

  lemma {:induction false} AdjacentIncreasing(s: seq<int>)
    requires forall i :: 0 <= i < |s| - 1 ==> s[i] < s[i + 1]
    ensures StrictlyIncreasing(s)
  {
    if |s| > 1 {
      AdjacentIncreasing(s[1..]);
      forall i, j | 0 <= i < j < |s| ensures s[i] < s[j] {
        if 0 < i {
          assert s[1..][i - 1] < s[1..][j - 1];
        } else if 1 < j {
          assert s[1..][0] < s[1..][j - 1];
        }
      }
    }
  }

  /** Each entry of the percentile table is below the next one. */
  lemma PercentilesAdjacent()
    ensures forall i :: 0 <= i < |RhPercentiles| - 1 ==> RhPercentiles[i] < RhPercentiles[i + 1]
  {
  }

  /** The percentile table has one strictly increasing entry, from 10 to 100,
      per profile column, and the profile columns are 9 .. 31. */
  lemma PercentileTable()
    ensures |RhPercentiles| == |ProfileColumns()| == 23
    ensures RhPercentiles[0] == 10 && RhPercentiles[22] == 100
    ensures StrictlyIncreasing(RhPercentiles)
    ensures ProfileColumns()[0] == 9 && ProfileColumns()[22] == 31
    ensures forall k :: 0 <= k < 23 ==> 10 <= RhPercentiles[k] <= 100
  {
    PercentilesAdjacent();
    AdjacentIncreasing(RhPercentiles);
    forall k | 0 <= k < 23 ensures 10 <= RhPercentiles[k] <= 100 {
      if 0 < k { assert RhPercentiles[0] < RhPercentiles[k]; }
      if k < 22 { assert RhPercentiles[k] < RhPercentiles[22]; }
    }
  }

  /** A return height counts as canopy only when strictly above the threshold. */
  predicate IsCanopy(h: real) { h > RhThreshold }

  /** Index of the first height strictly above the threshold, if there is one. */
  function FirstAbove(heights: seq<real>): (r: Option<nat>)
    ensures r.Some? ==> r.value < |heights| && IsCanopy(heights[r.value])
    ensures r.Some? ==> forall j :: 0 <= j < r.value ==> !IsCanopy(heights[j])
    ensures r.None? <==> forall j :: 0 <= j < |heights| ==> !IsCanopy(heights[j])
  {
    if heights == [] then None
    else if IsCanopy(heights[0]) then Some(0)
    else match FirstAbove(heights[1..])
      case None => None
      case Some(k) => Some(k + 1)
  }

  /** Profile column chosen for one shot: the first crossing of the
      threshold, or the last column (percentile 100) when there is none. */
  function CoverIndex(heights: seq<real>): (k: nat)
    requires |heights| == |RhPercentiles|
    ensures k < |RhPercentiles|
  {
    match FirstAbove(heights)
    case Some(i) => i
    case None => |RhPercentiles| - 1
  }

  /** Canopy cover in percent: 100 minus the percentile of the chosen column. */
  function Cover(heights: seq<real>): (cc: nat)
    requires |heights| == |RhPercentiles|
    ensures cc <= 90
    ensures cc == 100 - RhPercentiles[CoverIndex(heights)]
  {
    PercentileTable();
    100 - RhPercentiles[CoverIndex(heights)]
  }

  /** With a crossing, the cover is 100 minus the percentile of the first
      column whose height is strictly above the threshold. */
  lemma CoverAtFirstCrossing(heights: seq<real>, k: nat)
    requires |heights| == |RhPercentiles|
    requires k < |heights| && IsCanopy(heights[k])
    requires forall j :: 0 <= j < k ==> !IsCanopy(heights[j])
    ensures Cover(heights) == 100 - RhPercentiles[k]
  {
  }

  /** Without a crossing the last column (percentile 100) is chosen, so the
      cover is 0. */
  lemma CoverWithoutCrossing(heights: seq<real>)
    requires |heights| == |RhPercentiles|
    requires forall j :: 0 <= j < |heights| ==> heights[j] <= RhThreshold
    ensures CoverIndex(heights) == |RhPercentiles| - 1
    ensures Cover(heights) == 0
  {
    assert FirstAbove(heights).None?;
  }

  /** A height equal to the threshold is not canopy: a profile at the
      threshold everywhere has no cover. */
  lemma ThresholdIsExclusive(heights: seq<real>)
    requires |heights| == |RhPercentiles|
    requires forall j :: 0 <= j < |heights| ==> heights[j] == RhThreshold
    ensures FirstAbove(heights) == None
    ensures Cover(heights) == 0
  {
    CoverWithoutCrossing(heights);
  }

  /** The cover is one of 100 - p over the percentile table. */
  lemma CoverIsTableValue(heights: seq<real>)
    requires |heights| == |RhPercentiles|
    ensures exists k :: 0 <= k < |RhPercentiles| && Cover(heights) == 100 - RhPercentiles[k]
  {
    var k := CoverIndex(heights);
    assert Cover(heights) == 100 - RhPercentiles[k];
  }

  /** A crossing at an earlier column never gives less cover. */
  lemma {:induction false} CoverMonotone(h1: seq<real>, h2: seq<real>)
    requires |h1| == |h2| == |RhPercentiles|
    requires CoverIndex(h1) <= CoverIndex(h2)
    ensures Cover(h1) >= Cover(h2)
    ensures CoverIndex(h1) < CoverIndex(h2) ==> Cover(h1) > Cover(h2)
  {
    PercentileTable();
    var k1, k2 := CoverIndex(h1), CoverIndex(h2);
    if k1 < k2 {
      assert RhPercentiles[k1] < RhPercentiles[k2];
    }
  }

  /** A worked profile: heights first exceed 1.37 at RH40 (1.4 m), so the
      cover is 60. */
  lemma WorkedExample()
    ensures Cover([0.5, 0.6, 0.9, 1.0, 1.1, 1.2, 1.4, 1.6, 1.8, 2.0, 2.2, 2.4,
                   2.6, 2.8, 3.0, 3.2, 3.4, 3.6, 3.8, 4.0, 4.2, 4.4, 4.6]) == 60
  {
    var h: seq<real> := [0.5, 0.6, 0.9, 1.0, 1.1, 1.2, 1.4, 1.6, 1.8, 2.0, 2.2, 2.4,
                         2.6, 2.8, 3.0, 3.2, 3.4, 3.6, 3.8, 4.0, 4.2, 4.4, 4.6];
    CoverAtFirstCrossing(h, 6);
  }

  // ---------------------------------------------------------------------
  // The vectorised formulation of est_cc_from_lvis2.py:35-38, one row.

  /** `in_arr > rh_thresh` on one row. */
  function Flags(heights: seq<real>): (f: seq<bool>)
    ensures |f| == |heights|
    ensures forall i :: 0 <= i < |f| ==> f[i] == IsCanopy(heights[i])
  {
    seq(|heights|, i requires 0 <= i < |heights| => IsCanopy(heights[i]))
  }

  /** Number of true entries (`np.sum` of a boolean row). */
  function CountTrue(f: seq<bool>): nat {
    if f == [] then 0 else CountTrue(f[..|f| - 1]) + (if f[|f| - 1] then 1 else 0)
  }

  lemma {:induction false} CountTrueZero(f: seq<bool>)
    ensures CountTrue(f) == 0 <==> forall i :: 0 <= i < |f| ==> !f[i]
  {
    if f != [] {
      CountTrueZero(f[..|f| - 1]);
      assert forall i :: 0 <= i < |f| - 1 ==> f[..|f| - 1][i] == f[i];
    }
  }

  /** `np.cumsum` of a boolean row: entry i counts the true entries up to i. */
  function CumSum(f: seq<bool>): (c: seq<nat>)
    ensures |c| == |f|
  {
    seq(|f|, i requires 0 <= i < |f| => CountTrue(f[..i + 1]))
  }

  /** `np.where(f, c, fill)`. */
  function Where(f: seq<bool>, c: seq<nat>, fill: nat): (t: seq<nat>)
    requires |c| == |f|
    ensures |t| == |f|
    ensures forall i :: 0 <= i < |f| ==> t[i] == if f[i] then c[i] else fill
  {
    seq(|f|, i requires 0 <= i < |f| => if f[i] then c[i] else fill)
  }

  /** `np.argmin`: the first index holding the minimum. */
  function ArgMin(s: seq<nat>): (k: nat)
    requires s != []
    ensures k < |s|
    ensures forall j :: 0 <= j < |s| ==> s[k] <= s[j]
    ensures forall j :: 0 <= j < k ==> s[k] < s[j]
  {
    if |s| == 1 then 0
    else
      var k := ArgMin(s[..|s| - 1]);
      assert forall j :: 0 <= j < |s| - 1 ==> s[..|s| - 1][j] == s[j];
      if s[|s| - 1] < s[k] then |s| - 1 else k
  }

  /** Lines 35-38 as written: where/cumsum/argmin, then the fallback column
      `len(rh_pct) - 1` for a row without a crossing. */
  function NumpyCoverIndex(heights: seq<real>): int
    requires |heights| == |RhPercentiles|
  {
    var flags := Flags(heights);
    var tmp := Where(flags, CumSum(flags), |RhPercentiles| + 1);
    var icol := ArgMin(tmp);
    if CountTrue(flags) == 0 then |RhPercentiles| - 1 else icol
  }

  /** The vectorised formulation picks the same column as the first-crossing
      rule: before the first crossing every entry is N + 1, the first
      crossing has running count 1 and every later crossing at least 2. */
  lemma NumpyMatchesFirstAbove(heights: seq<real>)
    requires |heights| == |RhPercentiles|
    ensures NumpyCoverIndex(heights) == CoverIndex(heights)
  {
    var flags := Flags(heights);
    var cs := CumSum(flags);
    var tmp := Where(flags, cs, |RhPercentiles| + 1);
    CountTrueZero(flags);
    match FirstAbove(heights)
    case None =>
    case Some(k) =>
      CountTrueZero(flags[..k]);
      assert flags[..k + 1][..k] == flags[..k];
      assert tmp[k] == 1;
      forall j | 0 <= j < |tmp| && j != k ensures tmp[j] >= 2 {
        if j > k && flags[j] {
          CountTrueZero(flags[..j]);
          assert flags[..j][k];
          assert flags[..j + 1][..j] == flags[..j];
        }
      }
      var icol := ArgMin(tmp);
      assert icol == k;
  }

  // ---------------------------------------------------------------------
  // The whole table.

  predicate WellFormedTable(rows: seq<seq<real>>) {
    forall i :: 0 <= i < |rows| ==> |rows[i]| == |RhPercentiles|
  }

  /** One cover per parsed row, each within [0, 90]. */
  function Covers(rows: seq<seq<real>>): (cc: seq<nat>)
    requires WellFormedTable(rows)
    ensures |cc| == |rows|
    ensures forall i :: 0 <= i < |rows| ==> cc[i] == Cover(rows[i]) && cc[i] <= 90
  {
    seq(|rows|, i requires 0 <= i < |rows| => Cover(rows[i]))
  }

  /** Lines 34-39 as written: `np.genfromtxt` returns a one-dimensional array
      for a table of fewer than two data rows, and `np.cumsum(..., axis=1)`
      then raises, so such a table yields no covers at all. */
  function CoversAsWritten(rows: seq<seq<real>>): (r: Option<seq<nat>>)
    requires WellFormedTable(rows)
    ensures r.None? <==> |rows| < 2
    ensures r.Some? ==> r.value == Covers(rows)
  {
    if |rows| < 2 then None else Some(Covers(rows))
  }

  /** A table with a single shot makes the script fail, where one cover per
      row is meant. */
  lemma SingleShotTableFails(heights: seq<real>)
    requires |heights| == |RhPercentiles|
    ensures CoversAsWritten([heights]) == None
    ensures Covers([heights]) == [Cover(heights)]
  {
  }

  // ---------------------------------------------------------------------
  // Annotating the table, line by line.

  /** Column names of the shot table, in file order: nine shot fields, the
      23 profile columns, seven further fields. */
  const LeadColumns: seq<string> :=
    ["LFID", "SHOTNUMBER", "TIME", "GLON", "GLAT", "ZG", "TLON", "TLAT", "ZT"]
  const RhColumns: seq<string> :=
    ["RH10", "RH15", "RH20", "RH25", "RH30", "RH35", "RH40", "RH45", "RH50",
     "RH55", "RH60", "RH65", "RH70", "RH75", "RH80", "RH85", "RH90", "RH95",
     "RH96", "RH97", "RH98", "RH99", "RH100"]
  const TrailColumns: seq<string> :=
    ["AZIMUTH", "INCIDENTANGLE", "RANGE", "COMPLEXITY", "CHANNEL_ZT", "CHANNEL_ZG",
     "CHANNEL_RH"]
  const HeaderColumns: seq<string> := LeadColumns + RhColumns + TrailColumns

  /** The words of `ws` separated by single spaces. */
  function SpaceJoin(ws: seq<string>): string {
    if ws == [] then "" else if |ws| == 1 then ws[0] else ws[0] + " " + SpaceJoin(ws[1..])
  }

  /** The one header line that receives the new column label. */
  function Header(): string { "# " + SpaceJoin(HeaderColumns) }

  /** The profile columns read (9 .. 31) are exactly where the header lists
      RH10 .. RH100, one per entry of the percentile table. */
  lemma HeaderLayout()
    ensures |HeaderColumns| == 39 && |RhColumns| == |RhPercentiles|
    ensures HeaderColumns[ProfileColumns()[0]..ProfileColumns()[22] + 1] == RhColumns
  {
    assert |LeadColumns| == 9 && |RhColumns| == 23;
  }

  function TrimLeadingNewlines(s: string): (r: string)
    ensures |r| <= |s| && r == s[|s| - |r|..]
    ensures r == [] || r[0] != '\n'
    ensures forall i :: 0 <= i < |s| - |r| ==> s[i] == '\n'
  {
    if s != [] && s[0] == '\n' then TrimLeadingNewlines(s[1..]) else s
  }

  function TrimTrailingNewlines(s: string): (r: string)
    ensures |r| <= |s| && r == s[..|r|]
    ensures r == [] || r[|r| - 1] != '\n'
    ensures forall i :: |r| <= i < |s| ==> s[i] == '\n'
  {
    if s != [] && s[|s| - 1] == '\n' then TrimTrailingNewlines(s[..|s| - 1]) else s
  }

  /** Python's `s.strip("\n")`: drops newlines at both ends. */
  function StripNewlines(s: string): (r: string)
    ensures |r| <= |s|
    ensures r == [] || (r[0] != '\n' && r[|r| - 1] != '\n')
  {
    var t := TrimTrailingNewlines(TrimLeadingNewlines(s));
    assert t != [] ==> t[0] == TrimLeadingNewlines(s)[0];
    t
  }

  /** What `strip("\n")` removes: `s` is a run of newlines, then the
      stripped text, then another run of newlines. */
  lemma StripNewlinesRuns(s: string)
    ensures var r, lead := StripNewlines(s), |s| - |TrimLeadingNewlines(s)|;
            && lead + |r| <= |s|
            && r == s[lead..lead + |r|]
            && (forall i :: 0 <= i < lead ==> s[i] == '\n')
            && (forall i :: lead + |r| <= i < |s| ==> s[i] == '\n')
  {
    var u := TrimLeadingNewlines(s);
    var t := TrimTrailingNewlines(u);
    var lead := |s| - |u|;
    assert u == s[lead..];
    assert t == u[..|t|];
    forall i | lead + |t| <= i < |s| ensures s[i] == '\n' {
      assert s[i] == u[i - lead];
    }
  }

  /** A line as read from a file, with its newline, strips back to its text. */
  lemma StripLine(text: string)
    requires text == [] || (text[0] != '\n' && text[|text| - 1] != '\n')
    ensures StripNewlines(text + "\n") == text
  {
    var s := text + "\n";
    if text == [] {
      assert TrimLeadingNewlines(s) == [];
    } else {
      assert TrimLeadingNewlines(s) == s;
      assert s[..|s| - 1] == text;
      assert TrimTrailingNewlines(s) == TrimTrailingNewlines(text) == text;
    }
  }

  /** A line starting with `#` is a header or comment line; every other line
      is a data line. */
  predicate IsComment(line: string) { line != [] && line[0] == '#' }

  /** Output for a `#` line: the exact header gets the CC_PERCENT label, any
      other `#` line is copied verbatim. */
  function CommentOutput(header: string, line: string): string {
    if StripNewlines(line) == header then StripNewlines(line) + "\tCC_PERCENT\n" else line
  }

  /** Output for a data line: its text, a tab and the cover value. */
  function DataOutput(line: string, cc: nat): string {
    StripNewlines(line) + "\t" + Decimal(cc) + "\n"
  }

  /** Number of data lines among `lines`. */
  function DataLines(lines: seq<string>): nat {
    if lines == [] then 0
    else DataLines(lines[..|lines| - 1]) + (if IsComment(lines[|lines| - 1]) then 0 else 1)
  }

  lemma {:induction false} DataLinesMonotone(lines: seq<string>, j: nat)
    requires j <= |lines|
    ensures DataLines(lines[..j]) <= DataLines(lines)
    ensures j < |lines| && !IsComment(lines[j]) ==> DataLines(lines[..j]) < DataLines(lines)
  {
    if j < |lines| {
      var init := lines[..|lines| - 1];
      assert init[..j] == lines[..j];
      DataLinesMonotone(init, j);
      if j == |lines| - 1 {
        assert init == lines[..j];
      }
    } else {
      assert lines[..j] == lines;
    }
  }

  /** What the annotation writes for line j: a `#` line as above; the k-th
      data line (k counted from 0) gets the k-th cover value. */
  function OutputLine(header: string, lines: seq<string>, covers: seq<nat>, j: nat): string
    requires j < |lines|
    requires !IsComment(lines[j]) ==> DataLines(lines[..j]) < |covers|
  {
    if IsComment(lines[j]) then CommentOutput(header, lines[j])
    else DataOutput(lines[j], covers[DataLines(lines[..j])])
  }

  /** `out` is what the annotation writes for the first |out| lines. */
  predicate Annotated(header: string, lines: seq<string>, covers: seq<nat>, out: seq<string>) {
    |out| <= |lines| &&
    forall j {:trigger out[j]} :: 0 <= j < |out| ==>
      (IsComment(lines[j]) || DataLines(lines[..j]) < |covers|) &&
      out[j] == OutputLine(header, lines, covers, j)
  }

  lemma AnnotatedStep(header: string, lines: seq<string>, covers: seq<nat>, out: seq<string>, x: string)
    requires Annotated(header, lines, covers, out) && |out| < |lines|
    requires IsComment(lines[|out|]) || DataLines(lines[..|out|]) < |covers|
    requires x == OutputLine(header, lines, covers, |out|)
    ensures Annotated(header, lines, covers, out + [x])
  {
    var out' := out + [x];
    forall j | 0 <= j < |out'|
      ensures (IsComment(lines[j]) || DataLines(lines[..j]) < |covers|) &&
              out'[j] == OutputLine(header, lines, covers, j)
    {
      if j < |out| {
        assert out'[j] == out[j];
      }
    }
  }

  /** The output loop of lines 43-53. It stops where the data lines outrun
      the cover values (`cc_arr[i]` raises); `complete` says it did not. */
  method Annotate(header: string, lines: seq<string>, covers: seq<nat>) returns (out: seq<string>, complete: bool)
    requires forall j :: 0 <= j < |lines| ==> lines[j] != []
    ensures Annotated(header, lines, covers, out)
    ensures complete <==> |out| == |lines|
    ensures complete <==> DataLines(lines) <= |covers|
    ensures !complete ==> !IsComment(lines[|out|]) && DataLines(lines[..|out|]) == |covers|
  {
    out := [];
    var i := 0;
    var j := 0;
    while j < |lines|
      invariant j <= |lines| && |out| == j
      invariant i == DataLines(lines[..j]) && i <= |covers|
      invariant Annotated(header, lines, covers, out)
    {
      var line := lines[j];
      assert lines[..j + 1][..j] == lines[..j];
      if line[0] == '#' {
        if StripNewlines(line) == header {
          AnnotatedStep(header, lines, covers, out, StripNewlines(line) + "\tCC_PERCENT\n");
          out := out + [StripNewlines(line) + "\tCC_PERCENT\n"];
        } else {
          AnnotatedStep(header, lines, covers, out, line);
          out := out + [line];
        }
      } else {
        if i >= |covers| {
          DataLinesMonotone(lines, j);
          complete := false;
          return;
        }
        AnnotatedStep(header, lines, covers, out, StripNewlines(line) + "\t" + Decimal(covers[i]) + "\n");
        out := out + [StripNewlines(line) + "\t" + Decimal(covers[i]) + "\n"];
        i := i + 1;
      }
      j := j + 1;
    }
    assert lines[..j] == lines;
    complete := true;
  }

  /** Failures of the script that this model reproduces. */
  datatype CcError =
    | WrongArgumentCount      // lines 22-26, raised before anything is read
    | TableNotTwoDimensional  // line 36: fewer than two rows, before any output
    | MissingCoverValue       // line 52: more data lines than parsed rows

  /** The whole script: argument check, the covers as line 36 computes them,
      then the annotated copy of the input lines. `lines` are the input
      file's lines and `rows` the 23 RH columns parsed from its data lines. */
  method EstimateCanopyCover(argv: seq<string>, lines: seq<string>, rows: seq<seq<real>>)
    returns (out: seq<string>, err: Option<CcError>)
    requires forall j :: 0 <= j < |lines| ==> lines[j] != []
    requires WellFormedTable(rows)
    ensures |argv| != 3 ==> out == [] && err == Some(WrongArgumentCount)
    ensures |argv| == 3 && |rows| < 2 ==> out == [] && err == Some(TableNotTwoDimensional)
    ensures |argv| == 3 && |rows| >= 2 ==>
              && (err == None <==> DataLines(lines) <= |rows|)
              && (err.Some? ==> err == Some(MissingCoverValue))
              && Annotated(Header(), lines, Covers(rows), out)
    ensures |out| <= |lines|
    ensures err == None ==> |out| == |lines|
  {
    if |argv| != 3 {
      return [], Some(WrongArgumentCount);
    }
    var covers := CoversAsWritten(rows);
    if covers.None? {
      return [], Some(TableNotTwoDimensional);
    }
    var complete;
    out, complete := Annotate(Header(), lines, covers.value);
    err := if complete then None else Some(MissingCoverValue);
  }
}
