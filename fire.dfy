/** `fire`: the design matrix of the fire model. Its columns are, in order,
    the climate variables, the land-type rasters tiled over time, the global
    climate trends and, in one configuration, the local climate trends; its
    rows are the (time, y, x) cells in flattening order. A matrix is kept as
    its list of columns. */
module Fire {
  import opened Values
  import opened Grid
  import opened Scramble
  import opened Trends
  import opened Rows

  /** One data variable of the climate dataset. */
  datatype Variable = Variable(name: string, cube: Cube)

  /** A climate dataset: the calendar year of each time step, the grid
      extent, and the data variables in `data_vars` order. */
  datatype Climate = Climate(years: seq<int>, ny: nat, nx: nat, vars: seq<Variable>) {
    function Cells(): nat { ny * nx }

    /** Every variable has one raster of ny*nx cells per time step. */
    predicate WellShaped()
    {
      forall v :: 0 <= v < |vars| ==> |vars[v].cube| == |years| && Uniform(vars[v].cube, ny * nx)
    }
  }

  /** `rolling_period`: the time steps [lo, hi) of the full axis. */
  datatype Window = Window(lo: nat, hi: nat)

  /** The five switches of `fire`. `kernel` is `gaussian_kernel_size`. */
  datatype Config = Config(
    evalOnly: bool,
    scramble: bool,
    addLocalTrends: bool,
    rollingPeriod: Option<Window>,
    kernel: Option<real>)

  /** Python truthiness of `gaussian_kernel_size`: None and 0 are false. */
  predicate KernelTruthy(kernel: Option<real>)
  {
    kernel.Some? && kernel.value != 0.0
  }

  /** The random draws of a scrambled run: the phase for time step t of
      climate variable v, and the phase for land-type raster j. */
  datatype Noise = Noise(spectral: Spectral, climatePhase: (nat, nat) -> Phase, rasterPhase: nat -> Phase)

  /** `smooth(raster, gaussian_stddev)`: the Gaussian convolution, not modelled. */
  type Smoother = (Slice, real) -> Slice

  ghost predicate SmoothPreserving(smooth: Smoother)
  {
    forall g: Slice, sd: real :: |smooth(g, sd)| == |g|
  }

  lemma SmoothLength(smooth: Smoother, g: Slice, sd: real)
    requires SmoothPreserving(smooth)
    ensures |smooth(g, sd)| == |g|
  {
  }

  /** A matrix as its list of columns. */
  type Block = seq<seq<Value>>

  datatype FireError =
    | KeyError(name: string)   // a climate variable the trends read is absent
    | EmptyAxis                // ValueError: no time step to group by year or roll over
    | ShapeMismatch            // `np.concatenate` refuses the blocks
    | TargetMissing            // `mtbs` is None in fit mode
    | UnboundF3                // `f3` returned but never assigned

  datatype FireOutput =
    | Features(x: Block)                           // eval_only
    | Training(x: Block, y: seq<Value>, f3: Block) // (x, y, f3)

  /** `full_climate.sel(time=rolling_period)`, the window clipped to the axis. */
  function Select(c: Climate, w: Window): (r: Climate)
    requires c.WellShaped()
    ensures r.WellShaped() && r.ny == c.ny && r.nx == c.nx && |r.vars| == |c.vars|
    ensures |r.years| == (if w.lo >= |c.years| || w.hi <= w.lo then 0
                          else (if w.hi <= |c.years| then w.hi else |c.years|) - w.lo)
    ensures forall v :: 0 <= v < |c.vars| ==> r.vars[v].name == c.vars[v].name
    ensures forall v, t :: 0 <= v < |c.vars| && 0 <= t < |r.years| ==>
              r.years[t] == c.years[w.lo + t] && r.vars[v].cube[t] == c.vars[v].cube[w.lo + t]
  {
    var n := |c.years|;
    var lo := if w.lo <= n then w.lo else n;
    var hi := if w.hi < lo then lo else if w.hi <= n then w.hi else n;
    Climate(c.years[lo..hi], c.ny, c.nx,
      seq(|c.vars|, v requires 0 <= v < |c.vars| => Variable(c.vars[v].name, c.vars[v].cube[lo..hi])))
  }

  /** `climate[name]`: the cube of the variable called `name`. */
  function Lookup(vars: seq<Variable>, name: string): (r: Result<Cube, FireError>)
    ensures r.Ok? <==> exists v :: 0 <= v < |vars| && vars[v].name == name
    ensures r.Ok? ==> exists v :: 0 <= v < |vars| && vars[v].name == name && vars[v].cube == r.value
    ensures r.Err? ==> r.error == KeyError(name)
  {
    if vars == [] then Err(KeyError(name))
    else if vars[0].name == name then Ok(vars[0].cube)
    else
      var r := Lookup(vars[1..], name);
      assert forall v :: 1 <= v < |vars| ==> vars[v] == vars[1..][v - 1];
      assert r.Ok? ==> vars[1..][0] == vars[1];
      r
  }

  /** The climate block: each variable's cube (scrambled slice by slice when
      asked) flattened into one column, in `data_vars` order. */
  function ClimateBlock(c: Climate, scramble: bool, noise: Noise): Block
    requires ShapePreserving(noise.spectral)
  {
    seq(|c.vars|, v requires 0 <= v < |c.vars| => Flatten(ClimateCube(c.vars[v].cube, v, scramble, noise)))
  }

  /** Climate variable v as it enters the design matrix. */
  function ClimateCube(cube: Cube, v: nat, scramble: bool, noise: Noise): (r: Cube)
    requires ShapePreserving(noise.spectral)
    ensures |r| == |cube| && forall t :: 0 <= t < |r| ==> |r[t]| == |cube[t]|
  {
    if scramble then Scrambled3D(cube, (t: nat) => noise.climatePhase(v, t), noise.spectral) else cube
  }

  /** The land-type block: each raster (scrambled once when asked) tiled over
      the nt time steps and flattened into one column. */
  function LandBlock(nftd: seq<Slice>, nt: nat, scramble: bool, noise: Noise): Block
    requires ShapePreserving(noise.spectral)
  {
    seq(|nftd|, j requires 0 <= j < |nftd| => Flatten(Repeat(LandRaster(nftd[j], j, scramble, noise), nt)))
  }

  /** Land-type raster j as it enters the design matrix. */
  function LandRaster(raster: Slice, j: nat, scramble: bool, noise: Noise): (r: Slice)
    requires ShapePreserving(noise.spectral)
    ensures |r| == |raster|
  {
    if scramble then Scrambled2D(raster, noise.rasterPhase(j), noise.spectral) else raster
  }

  /** The global trend block `f2`: the tmean maximum and the ppt sum, either
      per calendar year or over trailing 12-step windows, averaged over the grid. */
  function GlobalBlock(tmean: Cube, ppt: Cube, cells: nat, years: seq<int>, rolling: bool): Block
    requires Uniform(tmean, cells) && Uniform(ppt, cells) && |tmean| == |ppt| == |years|
  {
    if rolling then
      // `.sel(time=rolling_period)` after rolling selects every step: the cube is already the window
      [Flatten(RollingGlobal(tmean, cells, Max)), Flatten(RollingGlobal(ppt, cells, Sum))]
    else
      [GlobalYearly(tmean, cells, years, Max), GlobalYearly(ppt, cells, years, Sum)]
  }

  /** The local trend block `f3`: the same summaries at full resolution; the
      yearly rasters are smoothed first when a kernel size is given. */
  function LocalBlock(tmean: Cube, ppt: Cube, cells: nat, years: seq<int>, rolling: bool,
                      kernel: Option<real>, smooth: Smoother): Block
    requires Uniform(tmean, cells) && Uniform(ppt, cells) && |tmean| == |ppt| == |years|
  {
    if rolling then
      [Flatten(RollingLocal(tmean, cells, Max)), Flatten(RollingLocal(ppt, cells, Sum))]
    else if kernel.Some? then
      [LocalYearly(tmean, cells, years, Max, g => smooth(g, kernel.value)),
       LocalYearly(ppt, cells, years, Sum, g => smooth(g, kernel.value))]
    else
      [LocalYearly(tmean, cells, years, Max, g => g), LocalYearly(ppt, cells, years, Sum, g => g)]
  }

  /** The blocks can be put side by side: every block is two-dimensional (a
      block without columns is numpy's one-dimensional empty array) and
      every column has the length of the first. */
  predicate Conformable(blocks: seq<Block>)
  {
    && |blocks| > 0
    && (forall b :: 0 <= b < |blocks| ==> |blocks[b]| > 0)
    && (forall b, j :: 0 <= b < |blocks| && 0 <= j < |blocks[b]| ==> |blocks[b][j]| == |blocks[0][0]|)
  }

  /** The columns of the blocks, in block order. */
  function Columns(blocks: seq<Block>): (r: Block)
    ensures |r| == BlockWidth(blocks)
  {
    if blocks == [] then [] else blocks[0] + Columns(blocks[1..])
  }

  function BlockWidth(blocks: seq<Block>): nat
  {
    if blocks == [] then 0 else |blocks[0]| + BlockWidth(blocks[1..])
  }

  /** `np.concatenate(blocks, axis=1)`. */
  function Concat(blocks: seq<Block>): Result<Block, FireError>
  {
    if Conformable(blocks) then Ok(Columns(blocks)) else Err(ShapeMismatch)
  }

  /** The trend summaries have a time step to work on: `groupby('time.year')`
      finds no group on an empty axis, and a trailing 12-step window cannot
      be laid over one. */
  predicate HasSteps(full: Climate, cfg: Config)
    requires full.WellShaped()
  {
    |Active(full, cfg).years| > 0
  }

  /** Well-formed inputs: a chronological, well-shaped climate dataset. The
      land-type rasters may have any size; one off the climate grid makes
      the concatenation fail. */
  ghost predicate Inputs(full: Climate, noise: Noise, smooth: Smoother)
  {
    && full.WellShaped() && Chronological(full.years)
    && ShapePreserving(noise.spectral) && SmoothPreserving(smooth)
  }

  /** The climate the blocks are built from: the window, or the full axis. */
  function Active(full: Climate, cfg: Config): (c: Climate)
    requires full.WellShaped()
    ensures c.WellShaped() && c.ny == full.ny && c.nx == full.nx && |c.vars| == |full.vars|
  {
    if cfg.rollingPeriod.Some? then Select(full, cfg.rollingPeriod.value) else full
  }

  /** `fire(full_climate, nftd, mtbs, ...)`, with its exceptions as `Err`:
      the blocks are built, the trend variables looked up (tmean, then ppt),
      the blocks concatenated, and the target flattened. A result is the
      matrix alone exactly in eval-only mode; a training triple needs a
      target and local trends, and its y is the flattened target. */
  function Fire(full: Climate, nftd: seq<Slice>, mtbs: Option<Cube>, cfg: Config,
                noise: Noise, smooth: Smoother): (r: Result<FireOutput, FireError>)
    requires Inputs(full, noise, smooth)
    ensures r.Ok? ==> (r.value.Features? <==> cfg.evalOnly)
    ensures r.Ok? && r.value.Training? ==> mtbs.Some? && cfg.addLocalTrends && r.value.y == Flatten(mtbs.value)
    ensures r.Err? && r.error.KeyError? ==> r.error.name == "tmean" || r.error.name == "ppt"
  {
    var climate := Active(full, cfg);
    var nt, cells := |climate.years|, climate.Cells();
    var rolling := cfg.rollingPeriod.Some?;
    var x := ClimateBlock(climate, cfg.scramble, noise);
    var f := LandBlock(nftd, nt, cfg.scramble, noise);
    var tmean :- Lookup(climate.vars, "tmean");
    if nt == 0 then Err(EmptyAxis)
    else
      var ppt :- Lookup(climate.vars, "ppt");
      var f2 := GlobalBlock(tmean, ppt, cells, climate.years, rolling);
      var f3 := if cfg.addLocalTrends
        then Some(LocalBlock(tmean, ppt, cells, climate.years, rolling, cfg.kernel, smooth))
        else None;
      Stack(x, f, f2, f3, cfg, mtbs)
  }

  /** The second half of `fire`: the blocks are concatenated (the global
      trends only without a kernel size, the local trends only with one), then
      the eval-only matrix or the training triple is returned. `f3` is None
      when local trends were not asked for. */
  function Stack(x: Block, f: Block, f2: Block, f3: Option<Block>, cfg: Config, mtbs: Option<Cube>): (r: Result<FireOutput, FireError>)
    ensures r.Ok? ==> (r.value.Features? <==> cfg.evalOnly)
    ensures r.Ok? && r.value.Training? ==> mtbs.Some? && f3.Some? && r.value.y == Flatten(mtbs.value) && r.value.f3 == f3.value
    ensures r.Err? ==> !r.error.KeyError?
  {
    var x1 :- if KernelTruthy(cfg.kernel) then Concat([x, f]) else Concat([x, f, f2]);
    var x2 :- if cfg.addLocalTrends && KernelTruthy(cfg.kernel) && f3.Some? then Concat([x1, f3.value]) else Ok(x1);
    if cfg.evalOnly then Ok(Features(x2))
    else if mtbs.None? then Err(TargetMissing)
    else if f3.None? then Err(UnboundF3)
    else Ok(Training(x2, Flatten(mtbs.value), f3.value))
  }

  // ---------------------------------------------------------------------
  // Shapes of the blocks

  /** Every column of the block has `rows` rows. */
  predicate Rectangular(b: Block, rows: int)
  {
    forall j :: 0 <= j < |b| ==> |b[j]| == rows
  }

  /** Some data variable is called `name`. */
  predicate Declares(vars: seq<Variable>, name: string)
  {
    exists v :: 0 <= v < |vars| && vars[v].name == name
  }

  /** Rows of a trend column: one per step and cell when rolling, otherwise
      twelve per calendar year and cell. */
  function TrendRows(c: Climate, rolling: bool): int
  {
    if rolling then |c.years| * c.Cells() else 12 * |Runs(c.years, 0)| * c.Cells()
  }

  lemma ClimateBlockShape(c: Climate, scramble: bool, noise: Noise)
    requires c.WellShaped() && ShapePreserving(noise.spectral)
    ensures |ClimateBlock(c, scramble, noise)| == |c.vars|
    ensures Rectangular(ClimateBlock(c, scramble, noise), |c.years| * c.Cells())
  {
    var b := ClimateBlock(c, scramble, noise);
    forall v | 0 <= v < |c.vars| ensures |b[v]| == |c.years| * c.Cells() {
      var cube := ClimateCube(c.vars[v].cube, v, scramble, noise);
      FlattenLength(cube, c.Cells());
    }
  }

  /** Every land-type column has the climate columns' row count: nt tiles
      of each raster are as long as nt rasters of the climate grid. */
  predicate OnGrid(nftd: seq<Slice>, nt: nat, cells: nat)
  {
    forall j :: 0 <= j < |nftd| ==> nt * |nftd[j]| == nt * cells
  }

  /** Land column j has nt rows per cell of raster j, so the block has
      nt*cells rows exactly when its rasters are on the grid. */
  lemma LandBlockShape(nftd: seq<Slice>, nt: nat, cells: nat, scramble: bool, noise: Noise)
    requires ShapePreserving(noise.spectral)
    ensures |LandBlock(nftd, nt, scramble, noise)| == |nftd|
    ensures forall j :: 0 <= j < |nftd| ==> |LandBlock(nftd, nt, scramble, noise)[j]| == nt * |nftd[j]|
    ensures Rectangular(LandBlock(nftd, nt, scramble, noise), nt * cells) <==> OnGrid(nftd, nt, cells)
  {
    forall j | 0 <= j < |nftd| ensures |LandBlock(nftd, nt, scramble, noise)[j]| == nt * |nftd[j]| {
      FlattenLength(Repeat(LandRaster(nftd[j], j, scramble, noise), nt), |nftd[j]|);
    }
  }

  lemma GlobalBlockShape(c: Climate, tmean: Cube, ppt: Cube, rolling: bool)
    requires c.WellShaped()
    requires Uniform(tmean, c.Cells()) && Uniform(ppt, c.Cells()) && |tmean| == |ppt| == |c.years|
    ensures |GlobalBlock(tmean, ppt, c.Cells(), c.years, rolling)| == 2
    ensures Rectangular(GlobalBlock(tmean, ppt, c.Cells(), c.years, rolling), TrendRows(c, rolling))
  {
    var cells := c.Cells();
    if rolling {
      FlattenLength(RollingGlobal(tmean, cells, Max), cells);
      FlattenLength(RollingGlobal(ppt, cells, Sum), cells);
    } else {
      YearlyLengths(tmean, cells, c.years, Max, g => g);
      YearlyLengths(ppt, cells, c.years, Sum, g => g);
    }
  }

  lemma LocalBlockShape(c: Climate, tmean: Cube, ppt: Cube, rolling: bool, kernel: Option<real>, smooth: Smoother)
    requires c.WellShaped() && SmoothPreserving(smooth)
    requires Uniform(tmean, c.Cells()) && Uniform(ppt, c.Cells()) && |tmean| == |ppt| == |c.years|
    ensures |LocalBlock(tmean, ppt, c.Cells(), c.years, rolling, kernel, smooth)| == 2
    ensures Rectangular(LocalBlock(tmean, ppt, c.Cells(), c.years, rolling, kernel, smooth), TrendRows(c, rolling))
  {
    var cells := c.Cells();
    if rolling {
      FlattenLength(RollingLocal(tmean, cells, Max), cells);
      FlattenLength(RollingLocal(ppt, cells, Sum), cells);
    } else if kernel.Some? {
      var f: Slice -> Slice := g => smooth(g, kernel.value);
      forall g: Slice | |g| == cells ensures |f(g)| == cells {
        SmoothLength(smooth, g, kernel.value);
        assert f(g) == smooth(g, kernel.value);
      }
      YearlyLengths(tmean, cells, c.years, Max, f);
      YearlyLengths(ppt, cells, c.years, Sum, f);
    } else {
      YearlyLengths(tmean, cells, c.years, Max, g => g);
      YearlyLengths(ppt, cells, c.years, Sum, g => g);
    }
  }

  lemma ColumnsLiteral(a: Block, b: Block, c: Block)
    ensures Columns([a, b]) == a + b
    ensures Columns([a, b, c]) == a + b + c
  {
    assert [a, b][1..] == [b] && [b][1..] == [];
    assert [a, b, c][1..] == [b, c] && [b, c][1..] == [c] && [c][1..] == [];
    assert Columns([c]) == c + Columns([]) == c;
    assert Columns([b, c]) == b + c;
    assert Columns([a, b, c]) == a + (b + c);
  }

  /** Blocks with columns, the first of `rows` rows, concatenate exactly when
      all of them have `rows` rows. */
  lemma ConformableRectangular(blocks: seq<Block>, rows: int)
    requires |blocks| > 0 && forall b :: 0 <= b < |blocks| ==> |blocks[b]| > 0
    requires Rectangular(blocks[0], rows)
    ensures Conformable(blocks) <==> forall b :: 0 <= b < |blocks| ==> Rectangular(blocks[b], rows)
  {
  }

  /** The active climate declares the same variables as the full dataset. */
  lemma ActiveDeclares(full: Climate, cfg: Config, name: string)
    requires full.WellShaped()
    ensures Declares(Active(full, cfg).vars, name) <==> Declares(full.vars, name)
  {
    var c := Active(full, cfg);
    if cfg.rollingPeriod.Some? {
      if Declares(full.vars, name) {
        var v :| 0 <= v < |full.vars| && full.vars[v].name == name;
        assert c.vars[v].name == name;
      }
      if Declares(c.vars, name) {
        var v :| 0 <= v < |c.vars| && c.vars[v].name == name;
        assert full.vars[v].name == name;
      }
    }
  }

  // ---------------------------------------------------------------------
  // What `fire` returns

  /** The cube of variable `name` in the active climate. */
  function ActiveCube(full: Climate, cfg: Config, name: string): (cube: Cube)
    requires full.WellShaped() && Declares(full.vars, name)
    ensures |cube| == |Active(full, cfg).years| && Uniform(cube, full.Cells())
  {
    ActiveDeclares(full, cfg, name);
    var r := Lookup(Active(full, cfg).vars, name);
    assert r.Ok?;
    r.value
  }

  /** The global trend block of the active climate. */
  function GlobalTrends(full: Climate, cfg: Config): Block
    requires full.WellShaped() && Declares(full.vars, "tmean") && Declares(full.vars, "ppt")
  {
    var c := Active(full, cfg);
    GlobalBlock(ActiveCube(full, cfg, "tmean"), ActiveCube(full, cfg, "ppt"), c.Cells(), c.years, cfg.rollingPeriod.Some?)
  }

  /** The local trend block of the active climate. */
  function LocalTrends(full: Climate, cfg: Config, smooth: Smoother): Block
    requires full.WellShaped() && Declares(full.vars, "tmean") && Declares(full.vars, "ppt")
  {
    var c := Active(full, cfg);
    LocalBlock(ActiveCube(full, cfg, "tmean"), ActiveCube(full, cfg, "ppt"), c.Cells(), c.years,
               cfg.rollingPeriod.Some?, cfg.kernel, smooth)
  }

  /** The columns of the design matrix, side by side: climate, land types,
      the global trends unless a kernel size is given, and the local trends
      when a kernel size is given and local trends are asked for. */
  function Design(full: Climate, nftd: seq<Slice>, cfg: Config, noise: Noise, smooth: Smoother): Block
    requires Inputs(full, noise, smooth)
    requires Declares(full.vars, "tmean") && Declares(full.vars, "ppt")
  {
    var c := Active(full, cfg);
    ClimateBlock(c, cfg.scramble, noise)
      + LandBlock(nftd, |c.years|, cfg.scramble, noise)
      + (if KernelTruthy(cfg.kernel) then [] else GlobalTrends(full, cfg))
      + (if cfg.addLocalTrends && KernelTruthy(cfg.kernel) then LocalTrends(full, cfg, smooth) else [])
  }

  /** The blocks `fire` concatenates agree in shape: there is at least one
      climate variable and one land type, the land-type columns have the
      climate columns' length, and whichever trend block is concatenated has
      one row per time step and grid cell. */
  predicate Stackable(full: Climate, nftd: seq<Slice>, cfg: Config)
    requires full.WellShaped()
  {
    var c := Active(full, cfg);
    && |full.vars| > 0 && |nftd| > 0
    && OnGrid(nftd, |c.years|, c.Cells())
    && (TrendRows(c, cfg.rollingPeriod.Some?) == |c.years| * c.Cells()
        || (KernelTruthy(cfg.kernel) && !cfg.addLocalTrends))
  }

  /** The outcomes of the concatenation step for blocks of known shapes:
      it fails exactly when a block lacks columns, a land-type column has
      another length than the climate columns, or a concatenated trend
      block has a different number of rows. */
  lemma StackOutcome(x: Block, f: Block, f2: Block, f3: Option<Block>, cfg: Config, mtbs: Option<Cube>, rows: int, trendRows: int)
    requires Rectangular(x, rows)
    requires |f2| == 2 && Rectangular(f2, trendRows)
    requires f3.Some? <==> cfg.addLocalTrends
    requires f3.Some? ==> |f3.value| == 2 && Rectangular(f3.value, trendRows)
    ensures !(|x| > 0 && |f| > 0 && Rectangular(f, rows) && (trendRows == rows || (KernelTruthy(cfg.kernel) && !cfg.addLocalTrends))) ==>
              Stack(x, f, f2, f3, cfg, mtbs) == Err(ShapeMismatch)
    ensures |x| > 0 && |f| > 0 && Rectangular(f, rows) && (trendRows == rows || (KernelTruthy(cfg.kernel) && !cfg.addLocalTrends)) ==>
              var design := x + f + (if KernelTruthy(cfg.kernel) then [] else f2)
                                  + (if cfg.addLocalTrends && KernelTruthy(cfg.kernel) then f3.value else []);
              Stack(x, f, f2, f3, cfg, mtbs) ==
                if cfg.evalOnly then Ok(Features(design))
                else if mtbs.None? then Err(TargetMissing)
                else if f3.None? then Err(UnboundF3)
                else Ok(Training(design, Flatten(mtbs.value), f3.value))
  {
    var f3v := if f3.Some? then f3.value else [];
    ColumnsLiteral(x, f, f2);
    ColumnsLiteral(x + f, f3v, f3v);
    if |x| > 0 && |f| > 0 && !Rectangular(f, rows) {
      ConformableRectangular([x, f], rows);
      ConformableRectangular([x, f, f2], rows);
      assert !Conformable([x, f]) && !Conformable([x, f, f2]);
    } else if |x| > 0 && |f| > 0 {
      assert Rectangular(x + f, rows);
      ConformableRectangular([x, f], rows);
      ConformableRectangular([x, f, f2], rows);
      if KernelTruthy(cfg.kernel) {
        assert Concat([x, f]) == Ok(x + f);
        if f3.Some? {
          ConformableRectangular([x + f, f3v], rows);
          if trendRows == rows {
            assert Concat([x + f, f3v]) == Ok(x + f + f3v);
            assert x + f + [] + f3v == x + f + f3v;
          } else {
            assert Concat([x + f, f3v]).Err?;
          }
        } else {
          assert x + f + [] + [] == x + f;
        }
      } else if trendRows == rows {
        assert Concat([x, f, f2]) == Ok(x + f + f2);
        assert x + f + f2 + [] == x + f + f2;
      } else {
        assert |[x, f, f2][2][0]| != rows;
        assert Concat([x, f, f2]).Err?;
      }
    } else {
      assert !Conformable([x, f]) && !Conformable([x, f, f2]);
    }
  }

  /** The trends can be computed: tmean and ppt are declared and the active
      axis has a time step. */
  predicate Ready(full: Climate, cfg: Config)
    requires full.WellShaped()
  {
    Declares(full.vars, "tmean") && HasSteps(full, cfg) && Declares(full.vars, "ppt")
  }

  /** Every outcome of `fire`, in the order the source meets them: the
      tmean look-up, the grouping or rolling of an empty axis, the ppt look-up, the concatenations, the eval-only return, the
      missing target, the unassigned local trends, and the training triple. */
  lemma FireOutcome(full: Climate, nftd: seq<Slice>, mtbs: Option<Cube>, cfg: Config, noise: Noise, smooth: Smoother)
    requires Inputs(full, noise, smooth)
    ensures !Declares(full.vars, "tmean") ==> Fire(full, nftd, mtbs, cfg, noise, smooth) == Err(KeyError("tmean"))
    ensures Declares(full.vars, "tmean") && !HasSteps(full, cfg) ==>
              Fire(full, nftd, mtbs, cfg, noise, smooth) == Err(EmptyAxis)
    ensures Declares(full.vars, "tmean") && HasSteps(full, cfg) && !Declares(full.vars, "ppt") ==>
              Fire(full, nftd, mtbs, cfg, noise, smooth) == Err(KeyError("ppt"))
    ensures Ready(full, cfg) && !Stackable(full, nftd, cfg) ==>
              Fire(full, nftd, mtbs, cfg, noise, smooth) == Err(ShapeMismatch)
    ensures Ready(full, cfg) && Stackable(full, nftd, cfg) && cfg.evalOnly ==>
              Fire(full, nftd, mtbs, cfg, noise, smooth) == Ok(Features(Design(full, nftd, cfg, noise, smooth)))
    ensures Ready(full, cfg) && Stackable(full, nftd, cfg) && !cfg.evalOnly ==>
              Fire(full, nftd, mtbs, cfg, noise, smooth) ==
                if mtbs.None? then Err(TargetMissing)
                else if !cfg.addLocalTrends then Err(UnboundF3)
                else Ok(Training(Design(full, nftd, cfg, noise, smooth), Flatten(mtbs.value), LocalTrends(full, cfg, smooth)))
  {
    var c := Active(full, cfg);
    var nt, cells := |c.years|, c.Cells();
    var rolling := cfg.rollingPeriod.Some?;
    ActiveDeclares(full, cfg, "tmean");
    ActiveDeclares(full, cfg, "ppt");
    if Ready(full, cfg) {
      var tmean, ppt := ActiveCube(full, cfg, "tmean"), ActiveCube(full, cfg, "ppt");
      var x := ClimateBlock(c, cfg.scramble, noise);
      var f := LandBlock(nftd, nt, cfg.scramble, noise);
      var f2 := GlobalBlock(tmean, ppt, cells, c.years, rolling);
      var f3 := if cfg.addLocalTrends then Some(LocalBlock(tmean, ppt, cells, c.years, rolling, cfg.kernel, smooth)) else None;
      ClimateBlockShape(c, cfg.scramble, noise);
      LandBlockShape(nftd, nt, cells, cfg.scramble, noise);
      GlobalBlockShape(c, tmean, ppt, rolling);
      LocalBlockShape(c, tmean, ppt, rolling, cfg.kernel, smooth);
      StackOutcome(x, f, f2, f3, cfg, mtbs, nt * cells, TrendRows(c, rolling));
      assert Fire(full, nftd, mtbs, cfg, noise, smooth) == Stack(x, f, f2, f3, cfg, mtbs);
    }
  }

  // ---------------------------------------------------------------------
  // Consequences

  lemma MulCancel(a: int, b: int, c: int)
    requires c > 0 && a * c == b * c
    ensures a == b
  {
  }

  lemma MulLess(a: int, b: int, c: int)
    requires c > 0 && a < b
    ensures a * c < b * c
  {
  }

  /** The design matrix has the climate variables, the land types, two
      global trend columns unless a kernel size is given, and two local trend
      columns when a kernel size is given and local trends are asked for;
      when the blocks are stackable every column has one row per time step
      and grid cell. */
  lemma DesignShape(full: Climate, nftd: seq<Slice>, cfg: Config, noise: Noise, smooth: Smoother)
    requires Inputs(full, noise, smooth)
    requires Declares(full.vars, "tmean") && Declares(full.vars, "ppt")
    ensures |Design(full, nftd, cfg, noise, smooth)| == |full.vars| + |nftd|
              + (if KernelTruthy(cfg.kernel) then 0 else 2)
              + (if cfg.addLocalTrends && KernelTruthy(cfg.kernel) then 2 else 0)
    ensures Stackable(full, nftd, cfg) ==>
              Rectangular(Design(full, nftd, cfg, noise, smooth), |Active(full, cfg).years| * full.Cells())
  {
    var c := Active(full, cfg);
    var rolling := cfg.rollingPeriod.Some?;
    var tmean, ppt := ActiveCube(full, cfg, "tmean"), ActiveCube(full, cfg, "ppt");
    ClimateBlockShape(c, cfg.scramble, noise);
    LandBlockShape(nftd, |c.years|, c.Cells(), cfg.scramble, noise);
    GlobalBlockShape(c, tmean, ppt, rolling);
    LocalBlockShape(c, tmean, ppt, rolling, cfg.kernel, smooth);
    if Stackable(full, nftd, cfg) {
      var rows := |c.years| * c.Cells();
      var x := ClimateBlock(c, cfg.scramble, noise) + LandBlock(nftd, |c.years|, cfg.scramble, noise);
      var g := if KernelTruthy(cfg.kernel) then [] else GlobalTrends(full, cfg);
      var l := if cfg.addLocalTrends && KernelTruthy(cfg.kernel) then LocalTrends(full, cfg, smooth) else [];
      assert Rectangular(x, rows) && Rectangular(g, rows) && Rectangular(l, rows);
      assert Design(full, nftd, cfg, noise, smooth) == x + g + l;
      Rectangular3(x, g, l, rows);
    }
  }

  /** Stacking blocks of one row count keeps that row count. */
  lemma Rectangular3(x: Block, g: Block, l: Block, rows: int)
    requires Rectangular(x, rows) && Rectangular(g, rows) && Rectangular(l, rows)
    ensures Rectangular(x + g + l, rows)
  {
  }

  /** A successful call returns the design matrix, with the shape above. */
  lemma FireShape(full: Climate, nftd: seq<Slice>, mtbs: Option<Cube>, cfg: Config, noise: Noise, smooth: Smoother)
    requires Inputs(full, noise, smooth)
    requires Fire(full, nftd, mtbs, cfg, noise, smooth).Ok?
    ensures Ready(full, cfg) && Stackable(full, nftd, cfg)
    ensures Fire(full, nftd, mtbs, cfg, noise, smooth).value.x == Design(full, nftd, cfg, noise, smooth)
    ensures |Fire(full, nftd, mtbs, cfg, noise, smooth).value.x| == |full.vars| + |nftd|
              + (if KernelTruthy(cfg.kernel) then 0 else 2)
              + (if cfg.addLocalTrends && KernelTruthy(cfg.kernel) then 2 else 0)
    ensures Rectangular(Fire(full, nftd, mtbs, cfg, noise, smooth).value.x, |Active(full, cfg).years| * full.Cells())
  {
    FireOutcome(full, nftd, mtbs, cfg, noise, smooth);
    DesignShape(full, nftd, cfg, noise, smooth);
  }

  /** Fit mode without local trends always fails: `f3` is returned but was
      only ever assigned under `add_local_climate_trends`. */
  lemma FitNeedsLocalTrends(full: Climate, nftd: seq<Slice>, mtbs: Option<Cube>, cfg: Config, noise: Noise, smooth: Smoother)
    requires Inputs(full, noise, smooth)
    requires !cfg.evalOnly && !cfg.addLocalTrends
    ensures Fire(full, nftd, mtbs, cfg, noise, smooth).Err?
  {
    FireOutcome(full, nftd, mtbs, cfg, noise, smooth);
  }

  /** In yearly mode on a non-empty grid, a successful call that
      concatenates a trend block implies the axis covers whole calendar
      years: twelve time steps per year. */
  lemma YearlyNeedsWholeYears(full: Climate, nftd: seq<Slice>, mtbs: Option<Cube>, cfg: Config, noise: Noise, smooth: Smoother)
    requires Inputs(full, noise, smooth)
    requires cfg.rollingPeriod.None? && full.Cells() > 0
    requires !KernelTruthy(cfg.kernel) || cfg.addLocalTrends
    requires Fire(full, nftd, mtbs, cfg, noise, smooth).Ok?
    ensures 12 * |Runs(full.years, 0)| == |full.years|
  {
    FireOutcome(full, nftd, mtbs, cfg, noise, smooth);
    assert Stackable(full, nftd, cfg);
    MulCancel(12 * |Runs(full.years, 0)|, |full.years|, full.Cells());
  }

  /** With a rolling window the trend columns always line up: the blocks
      stack exactly when there is a climate variable and a land type, and
      the land types are on the grid. */
  lemma RollingAlwaysStacks(full: Climate, nftd: seq<Slice>, cfg: Config)
    requires full.WellShaped() && cfg.rollingPeriod.Some?
    ensures Stackable(full, nftd, cfg) <==>
              |full.vars| > 0 && |nftd| > 0 && OnGrid(nftd, |Active(full, cfg).years|, full.Cells())
  {
  }

  /** The target is the whole `mtbs` cube flattened, not its window: in
      rolling mode on a non-empty grid, when `mtbs` spans the full axis and
      the window is shorter, the target and the features differ in length. */
  lemma TargetIgnoresWindow(full: Climate, nftd: seq<Slice>, mtbs: Option<Cube>, cfg: Config, noise: Noise, smooth: Smoother)
    requires Inputs(full, noise, smooth)
    requires Fire(full, nftd, mtbs, cfg, noise, smooth).Ok? && !cfg.evalOnly
    requires full.Cells() > 0
    ensures mtbs.Some? && Fire(full, nftd, mtbs, cfg, noise, smooth).value.Training?
    ensures Fire(full, nftd, mtbs, cfg, noise, smooth).value.y == Flatten(mtbs.value)
    ensures Uniform(mtbs.value, full.Cells()) && |mtbs.value| == |full.years| && |Active(full, cfg).years| < |full.years| ==>
              forall j :: 0 <= j < |Fire(full, nftd, mtbs, cfg, noise, smooth).value.x| ==>
                |Fire(full, nftd, mtbs, cfg, noise, smooth).value.x[j]| != |Fire(full, nftd, mtbs, cfg, noise, smooth).value.y|
  {
    FireOutcome(full, nftd, mtbs, cfg, noise, smooth);
    FireShape(full, nftd, mtbs, cfg, noise, smooth);
    var r := Fire(full, nftd, mtbs, cfg, noise, smooth);
    var nt, cells := |Active(full, cfg).years|, full.Cells();
    if Uniform(mtbs.value, cells) && |mtbs.value| == |full.years| && nt < |full.years| {
      FlattenLength(mtbs.value, cells);
      MulLess(nt, |full.years|, cells);
      forall j | 0 <= j < |r.value.x| ensures |r.value.x[j]| != |r.value.y| {
        assert |r.value.x[j]| == nt * cells;
      }
    }
  }

  // ---------------------------------------------------------------------
  // What the columns hold

  /** The design d starts with the climate block and the land-type block. */
  lemma DesignFront(full: Climate, nftd: seq<Slice>, cfg: Config, noise: Noise, smooth: Smoother, d: Block)
    requires Inputs(full, noise, smooth)
    requires Declares(full.vars, "tmean") && Declares(full.vars, "ppt")
    requires d == Design(full, nftd, cfg, noise, smooth)
    ensures |full.vars| + |nftd| <= |d|
    ensures forall v :: 0 <= v < |full.vars| ==> d[v] == ClimateBlock(Active(full, cfg), cfg.scramble, noise)[v]
    ensures forall j :: 0 <= j < |nftd| ==>
      d[|full.vars| + j] == LandBlock(nftd, |Active(full, cfg).years|, cfg.scramble, noise)[j]
  {
    var c := Active(full, cfg);
    var x := ClimateBlock(c, cfg.scramble, noise);
    var f := LandBlock(nftd, |c.years|, cfg.scramble, noise);
    assert |x| == |full.vars| && |f| == |nftd|;
    var front := x + f;
    assert d[..|front|] == front;
    forall i | 0 <= i < |front| ensures d[i] == front[i] {
      assert d[i] == d[..|front|][i];
    }
    forall j | 0 <= j < |nftd| ensures d[|full.vars| + j] == f[j] {
      assert front[|x| + j] == f[j];
    }
  }

  /** Climate column v of the design d holds the active climate's variable v
      (scrambled when asked) in flattening order: row t*Y*X + y*X + x is cell
      (y, x) of time step t, and without scrambling it is the dataset's own
      value. */
  lemma ClimateColumns(full: Climate, nftd: seq<Slice>, cfg: Config, noise: Noise, smooth: Smoother,
                       d: Block, v: nat, t: nat, y: nat, x: nat)
    requires Inputs(full, noise, smooth)
    requires Declares(full.vars, "tmean") && Declares(full.vars, "ppt")
    requires d == Design(full, nftd, cfg, noise, smooth)
    requires v < |full.vars| && t < |Active(full, cfg).years| && y < full.ny && x < full.nx
    ensures v < |d| && y * full.nx + x < full.Cells()
    ensures Index(full.ny, full.nx, t, y, x) < |d[v]|
    ensures d[v][Index(full.ny, full.nx, t, y, x)]
              == ClimateCube(Active(full, cfg).vars[v].cube, v, cfg.scramble, noise)[t][y * full.nx + x]
    ensures !cfg.scramble ==> d[v][Index(full.ny, full.nx, t, y, x)] == Active(full, cfg).vars[v].cube[t][y * full.nx + x]
  {
    var c := Active(full, cfg);
    var cube := ClimateCube(c.vars[v].cube, v, cfg.scramble, noise);
    DesignFront(full, nftd, cfg, noise, smooth, d);
    assert d[v] == ClimateBlock(c, cfg.scramble, noise)[v] == Flatten(cube);
    FlattenIndex(cube, full.ny, full.nx, t, y, x);
  }

  /** Land-type column j of the design d repeats raster j (scrambled once,
      when asked) at every time step: row t*n + k, for a raster of n cells,
      is cell k of that raster whatever t is. */
  lemma LandColumns(full: Climate, nftd: seq<Slice>, cfg: Config, noise: Noise, smooth: Smoother,
                    d: Block, j: nat, t: nat, k: nat)
    requires Inputs(full, noise, smooth)
    requires Declares(full.vars, "tmean") && Declares(full.vars, "ppt")
    requires d == Design(full, nftd, cfg, noise, smooth)
    requires j < |nftd| && t < |Active(full, cfg).years| && k < |nftd[j]|
    ensures |full.vars| + j < |d|
    ensures t * |nftd[j]| + k < |d[|full.vars| + j]|
    ensures d[|full.vars| + j][t * |nftd[j]| + k] == LandRaster(nftd[j], j, cfg.scramble, noise)[k]
  {
    var c := Active(full, cfg);
    var tiled := Repeat(LandRaster(nftd[j], j, cfg.scramble, noise), |c.years|);
    DesignFront(full, nftd, cfg, noise, smooth, d);
    assert d[|full.vars| + j] == LandBlock(nftd, |c.years|, cfg.scramble, noise)[j] == Flatten(tiled);
    FlattenAt(tiled, |nftd[j]|, t, k);
  }

  /** In rolling mode without a kernel size, the two global trend columns
      of the design d hold at row t*cells + k the grid mean of the rolled
      tmean maximum and of the rolled ppt sum at step t; both are NaN for
      the first 11 steps. */
  lemma RollingTrendColumns(full: Climate, nftd: seq<Slice>, cfg: Config, noise: Noise, smooth: Smoother,
                            d: Block, tmean: Cube, ppt: Cube, t: nat, k: nat, row: nat)
    requires Inputs(full, noise, smooth)
    requires Declares(full.vars, "tmean") && Declares(full.vars, "ppt")
    requires cfg.rollingPeriod.Some? && !KernelTruthy(cfg.kernel)
    requires d == Design(full, nftd, cfg, noise, smooth)
    requires tmean == ActiveCube(full, cfg, "tmean") && ppt == ActiveCube(full, cfg, "ppt")
    requires t < |tmean| && k < full.Cells() && row == t * full.Cells() + k
    ensures var g := |full.vars| + |nftd|;
            && g + 1 < |d| && row < |d[g]| && row < |d[g + 1]|
            && d[g][row] == NanMean(RollingGrid(tmean, full.Cells(), t, Max))
            && d[g + 1][row] == NanMean(RollingGrid(ppt, full.Cells(), t, Sum))
            && (t < 11 ==> d[g][row].None? && d[g + 1][row].None?)
  {
    var cells, g := full.Cells(), |full.vars| + |nftd|;
    GlobalColumns(full, nftd, cfg, noise, smooth, d, tmean, ppt);
    assert d[g] == Flatten(RollingGlobal(tmean, cells, Max));
    assert d[g + 1] == Flatten(RollingGlobal(ppt, cells, Sum));
    RollingGlobalRows(tmean, cells, Max, t, k);
    RollingGlobalRows(ppt, cells, Sum, t, k);
  }

  /** Without a kernel size the two global trend columns of the design d
      follow the climate and land-type columns. */
  lemma GlobalColumns(full: Climate, nftd: seq<Slice>, cfg: Config, noise: Noise, smooth: Smoother,
                      d: Block, tmean: Cube, ppt: Cube)
    requires Inputs(full, noise, smooth)
    requires Declares(full.vars, "tmean") && Declares(full.vars, "ppt")
    requires !KernelTruthy(cfg.kernel)
    requires d == Design(full, nftd, cfg, noise, smooth)
    requires tmean == ActiveCube(full, cfg, "tmean") && ppt == ActiveCube(full, cfg, "ppt")
    ensures var g := |full.vars| + |nftd|;
            var c := Active(full, cfg);
            var f2 := GlobalBlock(tmean, ppt, c.Cells(), c.years, cfg.rollingPeriod.Some?);
            && g + 1 < |d| && d[g] == f2[0] && d[g + 1] == f2[1]
  {
    var c := Active(full, cfg);
    var front := ClimateBlock(c, cfg.scramble, noise) + LandBlock(nftd, |c.years|, cfg.scramble, noise);
    assert |front| == |full.vars| + |nftd|;
    assert d == front + GlobalTrends(full, cfg) + [];
  }

  /** In yearly mode without a kernel size, the two global trend columns of
      the design d hold, at row (12*r + j)*cells + k (month j of the r-th
      year, cell k), the grid mean of that year's tmean maximum and of its
      ppt sum. */
  lemma YearlyTrendColumns(full: Climate, nftd: seq<Slice>, cfg: Config, noise: Noise, smooth: Smoother,
                           d: Block, tmean: Cube, ppt: Cube, r: nat, j: nat, k: nat, row: nat)
    requires Inputs(full, noise, smooth)
    requires Declares(full.vars, "tmean") && Declares(full.vars, "ppt")
    requires cfg.rollingPeriod.None? && !KernelTruthy(cfg.kernel)
    requires d == Design(full, nftd, cfg, noise, smooth)
    requires tmean == ActiveCube(full, cfg, "tmean") && ppt == ActiveCube(full, cfg, "ppt")
    requires r < |Runs(full.years, 0)| && j < 12 && k < full.Cells() && row == (12 * r + j) * full.Cells() + k
    ensures var g := |full.vars| + |nftd|;
            && g + 1 < |d| && row < |d[g]| && row < |d[g + 1]|
            && d[g][row] == NanMean(YearGrids(tmean, full.Cells(), full.years, Max)[r])
            && d[g + 1][row] == NanMean(YearGrids(ppt, full.Cells(), full.years, Sum)[r])
  {
    var cells, g := full.Cells(), |full.vars| + |nftd|;
    GlobalColumns(full, nftd, cfg, noise, smooth, d, tmean, ppt);
    assert d[g] == GlobalYearly(tmean, cells, full.years, Max);
    assert d[g + 1] == GlobalYearly(ppt, cells, full.years, Sum);
    GlobalYearlyRows(tmean, cells, full.years, Max, r, j, k, row);
    GlobalYearlyRows(ppt, cells, full.years, Sum, r, j, k, row);
  }
}
