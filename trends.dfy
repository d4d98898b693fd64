/** Temporal aggregation of a climate cube for the trend features of `fire`:
    per-year maxima or sums (`groupby('time.year')`), trailing 12-step
    windows (`rolling(time=12, min_periods=12)`), spatial means, and the
    tiling that spreads each summary back over the (time, y, x) rows. */
module Trends {
  import opened Values
  import opened Grid
  import opened Rows

  /** How a variable is summarised: tmean by its maximum, ppt by its sum. */
  datatype Reduction = Max | Sum

  /** xarray's NaN-skipping reduction: a maximum of only NaNs is NaN, a sum of
      only NaNs is 0. */
  function Reduce(op: Reduction, s: seq<Value>): Value
  {
    match op
    case Max => NanMax(s)
    case Sum => Some(NanSum(s))
  }


  /** The time coordinate is in chronological order. */
  predicate Chronological(years: seq<int>)
  {
    forall i, j :: 0 <= i <= j < |years| ==> years[i] <= years[j]
  }

  /** Each run of `groupby('time.year')` holds exactly the time steps of its
      year: on a chronological axis, step t belongs to run r if and only if
      it carries run r's year, and the runs come in increasing year order. */
  lemma GroupsAreYears(years: seq<int>, r: nat, t: nat)
    requires Chronological(years)
    requires r < |Runs(years, 0)| && t < |years|
    ensures var run := Runs(years, 0)[r];
      run.lo <= t < run.hi <==> years[t] == years[run.lo]
    ensures r + 1 < |Runs(years, 0)| ==> years[Runs(years, 0)[r].lo] < years[Runs(years, 0)[r + 1].lo]
  {
    var runs := Runs(years, 0);
    var run := runs[r];
    if t < run.lo {
      // t lies in an earlier run, whose year is strictly smaller
      var q := RunOf(years, runs, t);
      if r < q { SpansOrdered(runs, years, r, q); }
      IncreasingYears(years, runs, q, r);
    } else if run.hi <= t {
      var q := RunOf(years, runs, t);
      if q < r { SpansOrdered(runs, years, q, r); }
      IncreasingYears(years, runs, r, q);
    }
    if r + 1 < |runs| {
      IncreasingYears(years, runs, r, r + 1);
    }
  }

  /** On a chronological axis, later runs carry strictly later years. */
  lemma {:induction false} IncreasingYears(years: seq<int>, runs: seq<Span>, p: nat, q: nat)
    requires Chronological(years) && Partition(years, 0, runs)
    requires p < q < |runs|
    ensures years[runs[p].lo] < years[runs[q].lo]
    decreases q - p
  {
    assert years[runs[p].lo] <= years[runs[p + 1].lo];
    if p + 1 < q {
      IncreasingYears(years, runs, p + 1, q);
    }
  }

  /** Values of cell k over the time steps [lo, hi). */
  function Series(c: Cube, cells: nat, k: nat, lo: nat, hi: nat): (s: seq<Value>)
    requires Uniform(c, cells) && k < cells && lo <= hi <= |c|
    ensures |s| == hi - lo && forall i :: 0 <= i < hi - lo ==> s[i] == c[lo + i][k]
  {
    seq(hi - lo, i requires 0 <= i < hi - lo => c[lo + i][k])
  }

  /** `groupby('time.year').max()` (or `.sum()`) for one year: a raster. */
  function YearGrid(c: Cube, cells: nat, run: Span, op: Reduction): (g: Slice)
    requires Uniform(c, cells) && run.lo <= run.hi <= |c|
    ensures |g| == cells
  {
    seq(cells, k requires 0 <= k < cells => Reduce(op, Series(c, cells, k, run.lo, run.hi)))
  }

  /** One yearly raster per year of the axis, in year order. */
  function YearGrids(c: Cube, cells: nat, years: seq<int>, op: Reduction): (gs: seq<Slice>)
    requires Uniform(c, cells) && |years| == |c|
    ensures |gs| == |Runs(years, 0)| && Uniform(gs, cells)
  {
    var runs := Runs(years, 0);
    seq(|runs|, r requires 0 <= r < |runs| => YearGrid(c, cells, runs[r], op))
  }

  /** `np.tile(a, [12, 1, 1])` for each yearly raster a, one after the other:
      every raster stands for the twelve months of its year. */
  function Months(gs: seq<Slice>): Cube
  {
    if gs == [] then [] else Repeat(gs[0], 12) + Months(gs[1..])
  }

  lemma {:induction false} MonthsAt(gs: seq<Slice>, m: nat)
    requires m < 12 * |gs|
    ensures |Months(gs)| == 12 * |gs|
    ensures m / 12 < |gs| && Months(gs)[m] == gs[m / 12]
  {
    if gs != [] {
      if m >= 12 {
        MonthsAt(gs[1..], m - 12);
        assert (m - 12) / 12 == m / 12 - 1;
      } else {
        MonthsLength(gs[1..]);
      }
    }
  }

  lemma {:induction false} MonthsLength(gs: seq<Slice>)
    ensures |Months(gs)| == 12 * |gs|
  {
    if gs != [] {
      MonthsLength(gs[1..]);
    }
  }

  lemma {:induction false} MonthsUniform(gs: seq<Slice>, cells: nat)
    requires Uniform(gs, cells)
    ensures Uniform(Months(gs), cells)
  {
    MonthsLength(gs);
    forall m | 0 <= m < |Months(gs)| ensures |Months(gs)[m]| == cells {
      MonthsAt(gs, m);
    }
  }

  /** The yearly global trend column: the spatial mean of each year's raster,
      tiled over twelve months and the whole grid, flattened. */
  function GlobalYearly(c: Cube, cells: nat, years: seq<int>, op: Reduction): seq<Value>
    requires Uniform(c, cells) && |years| == |c|
  {
    var gs := YearGrids(c, cells, years, op);
    Flatten(Months(seq(|gs|, q requires 0 <= q < |gs| => Fill(NanMean(gs[q]), cells))))
  }

  /** The yearly local trend column: each year's raster (passed through `f`,
      the identity or the Gaussian smoother) tiled over its twelve months. */
  function LocalYearly(c: Cube, cells: nat, years: seq<int>, op: Reduction, f: Slice -> Slice): seq<Value>
    requires Uniform(c, cells) && |years| == |c|
  {
    var gs := YearGrids(c, cells, years, op);
    Flatten(Months(seq(|gs|, q requires 0 <= q < |gs| => f(gs[q]))))
  }

  /** `rolling(time=12, min_periods=12)` then max or sum, at step t and cell k:
      the window is the 12 steps ending at t, and it must hold 12 values. */
  function RollingCell(c: Cube, cells: nat, k: nat, t: nat, op: Reduction): Value
    requires Uniform(c, cells) && k < cells && t < |c|
  {
    if t < 11 then None
    else
      var w := Series(c, cells, k, t - 11, t + 1);
      if Present(w) < 12 then None else Reduce(op, w)
  }

  /** The rolled raster at step t. */
  function RollingGrid(c: Cube, cells: nat, t: nat, op: Reduction): (g: Slice)
    requires Uniform(c, cells) && t < |c|
    ensures |g| == cells
  {
    seq(cells, k requires 0 <= k < cells => RollingCell(c, cells, k, t, op))
  }

  /** The rolling local trend cube: the rolled raster at every step. */
  function RollingLocal(c: Cube, cells: nat, op: Reduction): (r: Cube)
    requires Uniform(c, cells)
    ensures |r| == |c| && Uniform(r, cells)
  {
    seq(|c|, t requires 0 <= t < |c| => RollingGrid(c, cells, t, op))
  }

  /** The rolling global trend cube: the spatial mean of the rolled raster at
      every step, tiled over the grid. */
  function RollingGlobal(c: Cube, cells: nat, op: Reduction): (r: Cube)
    requires Uniform(c, cells)
    ensures |r| == |c| && Uniform(r, cells)
  {
    seq(|c|, t requires 0 <= t < |c| => Fill(NanMean(RollingGrid(c, cells, t, op)), cells))
  }

  /** A rolled cell is defined exactly when t >= 11 and the 12 steps t-11..t
      of that cell all hold a value; it is then their maximum or their sum. */
  lemma RollingCellDefined(c: Cube, cells: nat, k: nat, t: nat, op: Reduction)
    requires Uniform(c, cells) && k < cells && t < |c|
    ensures RollingCell(c, cells, k, t, op).Some? <==>
      t >= 11 && forall s :: t - 11 <= s <= t ==> c[s][k].Some?
    ensures t >= 11 && RollingCell(c, cells, k, t, op).Some? ==>
      RollingCell(c, cells, k, t, op) == Reduce(op, Series(c, cells, k, t - 11, t + 1))
  {
    if t >= 11 {
      var w := Series(c, cells, k, t - 11, t + 1);
      WindowFull(c, cells, k, t);
      if Present(w) == 12 {
        assert w[0].Some?;
        assert Reduce(op, w).Some?;
      }
    }
  }

  /** The 12-step window ending at t holds 12 values exactly when each of its cells does. */
  lemma WindowFull(c: Cube, cells: nat, k: nat, t: nat)
    requires Uniform(c, cells) && k < cells && 11 <= t < |c|
    ensures Present(Series(c, cells, k, t - 11, t + 1)) == 12 <==>
      forall s :: t - 11 <= s <= t ==> c[s][k].Some?
  {
    var w := Series(c, cells, k, t - 11, t + 1);
    PresentAll(w);
    assert forall s :: t - 11 <= s <= t ==> w[s - (t - 11)] == c[s][k];
  }

  lemma {:induction false} PresentAll(s: seq<Value>)
    ensures Present(s) == |s| <==> forall i :: 0 <= i < |s| ==> s[i].Some?
  {
    if s != [] {
      PresentAll(s[1..]);
      assert forall i :: 1 <= i < |s| ==> s[i] == s[1..][i - 1];
    }
  }

  /** Flattened monthly tiles of yearly rasters: month j of year r, cell k
      is row (12*r + j)*cells + k and holds cell k of raster r. */
  lemma TiledAt(gs: seq<Slice>, cells: nat, r: nat, j: nat, k: nat)
    requires Uniform(gs, cells) && r < |gs| && j < 12 && k < cells
    ensures |Flatten(Months(gs))| == 12 * |gs| * cells
    ensures (12 * r + j) * cells + k < 12 * |gs| * cells
    ensures Flatten(Months(gs))[(12 * r + j) * cells + k] == gs[r][k]
  {
    MonthsUniform(gs, cells);
    MonthsAt(gs, 12 * r + j);
    FlattenLength(Months(gs), cells);
    CellInside(12 * |gs|, cells, 12 * r + j, k);
    FlattenAt(Months(gs), cells, 12 * r + j, k);
  }

  /** The yearly global column has 12 rows per year and grid cell, and each
      year's block of 12*cells consecutive rows holds that year's spatial mean:
      row (12*r + j)*cells + k, for month j of year r and cell k. */
  lemma GlobalYearlyRows(c: Cube, cells: nat, years: seq<int>, op: Reduction, r: nat, j: nat, k: nat, row: nat)
    requires Uniform(c, cells) && |years| == |c|
    requires r < |Runs(years, 0)| && j < 12 && k < cells && row == (12 * r + j) * cells + k
    ensures |GlobalYearly(c, cells, years, op)| == 12 * |Runs(years, 0)| * cells
    ensures row < |GlobalYearly(c, cells, years, op)|
    ensures GlobalYearly(c, cells, years, op)[row] == NanMean(YearGrids(c, cells, years, op)[r])
  {
    var gs := YearGrids(c, cells, years, op);
    var means := seq(|gs|, q requires 0 <= q < |gs| => Fill(NanMean(gs[q]), cells));
    assert Uniform(means, cells);
    TiledAt(means, cells, r, j, k);
    assert GlobalYearly(c, cells, years, op) == Flatten(Months(means));
  }

  /** The yearly local column has 12 rows per year and grid cell; row
      (12*r + j)*cells + k holds cell k of year r's (smoothed) raster. */
  lemma LocalYearlyRows(c: Cube, cells: nat, years: seq<int>, op: Reduction, f: Slice -> Slice, r: nat, j: nat, k: nat, row: nat)
    requires Uniform(c, cells) && |years| == |c|
    requires forall g: Slice :: |g| == cells ==> |f(g)| == cells
    requires r < |Runs(years, 0)| && j < 12 && k < cells && row == (12 * r + j) * cells + k
    ensures |LocalYearly(c, cells, years, op, f)| == 12 * |Runs(years, 0)| * cells
    ensures row < |LocalYearly(c, cells, years, op, f)|
    ensures LocalYearly(c, cells, years, op, f)[row] == f(YearGrids(c, cells, years, op)[r])[k]
  {
    var gs := YearGrids(c, cells, years, op);
    var fs := seq(|gs|, q requires 0 <= q < |gs| => f(gs[q]));
    assert Uniform(fs, cells);
    TiledAt(fs, cells, r, j, k);
    assert LocalYearly(c, cells, years, op, f) == Flatten(Months(fs));
  }

  /** The rolling global column has one row per time step and grid cell; row
      t*cells + k holds the spatial mean of the rolled raster at step t, and
      that mean is NaN for the first 11 steps of the axis. */
  lemma RollingGlobalRows(c: Cube, cells: nat, op: Reduction, t: nat, k: nat)
    requires Uniform(c, cells) && t < |c| && k < cells
    ensures |Flatten(RollingGlobal(c, cells, op))| == |c| * cells
    ensures t * cells + k < |c| * cells
    ensures Flatten(RollingGlobal(c, cells, op))[t * cells + k] == NanMean(RollingGrid(c, cells, t, op))
    ensures t < 11 ==> Flatten(RollingGlobal(c, cells, op))[t * cells + k].None?
  {
    FlattenLength(RollingGlobal(c, cells, op), cells);
    FlattenAt(RollingGlobal(c, cells, op), cells, t, k);
    PresentNone(RollingGrid(c, cells, t, op));
  }

  /** The rolling local column has one row per time step and grid cell; row
      t*cells + k holds the rolled value of cell k at step t. */
  lemma RollingLocalRows(c: Cube, cells: nat, op: Reduction, t: nat, k: nat)
    requires Uniform(c, cells) && t < |c| && k < cells
    ensures |Flatten(RollingLocal(c, cells, op))| == |c| * cells
    ensures t * cells + k < |c| * cells
    ensures Flatten(RollingLocal(c, cells, op))[t * cells + k] == RollingCell(c, cells, k, t, op)
  {
    FlattenLength(RollingLocal(c, cells, op), cells);
    FlattenAt(RollingLocal(c, cells, op), cells, t, k);
  }

  /** Both yearly columns have 12 rows per calendar year and grid cell. */
  lemma YearlyLengths(c: Cube, cells: nat, years: seq<int>, op: Reduction, f: Slice -> Slice)
    requires Uniform(c, cells) && |years| == |c|
    requires forall g: Slice :: |g| == cells ==> |f(g)| == cells
    ensures |GlobalYearly(c, cells, years, op)| == 12 * |Runs(years, 0)| * cells
    ensures |LocalYearly(c, cells, years, op, f)| == 12 * |Runs(years, 0)| * cells
  {
    var gs := YearGrids(c, cells, years, op);
    var means := seq(|gs|, q requires 0 <= q < |gs| => Fill(NanMean(gs[q]), cells));
    var fs := seq(|gs|, q requires 0 <= q < |gs| => f(gs[q]));
    assert Uniform(means, cells) && Uniform(fs, cells);
    MonthsUniform(means, cells);
    MonthsUniform(fs, cells);
    MonthsLength(means);
    MonthsLength(fs);
    FlattenLength(Months(means), cells);
    FlattenLength(Months(fs), cells);
  }
}
