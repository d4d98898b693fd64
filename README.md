# forest-risks data preparation, modelled in Dafny

This project models the data-preparation core of the forest-risks models:

- **`prepare.py`** builds the model inputs.
  - `fire` builds the design matrix of the fire model. Its columns are, in order:
    - the climate variables of a (time, y, x) dataset, optionally spectrally scrambled;
    - the land-type rasters, tiled over time;
    - the global climate trends: the yearly or rolling tmean maximum and ppt sum, averaged over the grid;
    - optionally, the local climate trends.
  - `fire` also returns the target and the local trends.
  - `drought` and `insects` build the covariate matrix, the mortality target and the plot metadata of the two FIA mortality models. They work from a plot table.
  - `scramble_2d` and `scramble_3d` replace the Fourier phase of rasters and keep their missing-value mask.
- **`fia.py`** loads FIA condition tables.
  - `fia_state` loads one state's long table, optionally cleans it, renames and projects it, and tags it with the state code.
  - `fia_state_grouped` reshapes a state's table: one row per (plot, condition) pair, its repeated inventories spread over numbered columns, and its site attributes reduced to their maximum.
  - `fia` dispatches on the `states` argument. It takes one state, a list of states (concatenated), or `'conus'`.

**How the source is represented:**
- NaN is `None` in `Value = Option<real>`.
- Exceptions are the `Err` side of a `Result`.
- The parquet store is a map from lower-case state codes to long tables.
- The Fourier step, the random phases and the Gaussian smoother are parameters.

**Modules, one per file:**

| module | file | contents |
|---|---|---|
| `Values` | `values.dfy` | NaN-skipping reductions |
| `Grid` | `grid.dfy` | C-order flattening and tiling |
| `Rows` | `rows.dfy` | mask selection and runs of equal keys |
| `Scramble` | `scramble.dfy` | the scrambling functions and their array-based methods |
| `Trends` | `trends.dfy` | yearly and rolling reductions |
| `Fire` | `fire.dfy` | the design matrix |
| `Tabular` | `tabular.dfy` | `drought` and `insects`, with the pandas frame as a class |
| `Tables` | `tables.dfy` | FIA tables and comparisons |
| `FiaState` | `fia_state.dfy` | `fia_state` |
| `FiaGrouped` | `fia_grouped.dfy` | `fia_state_grouped` |
| `Fia` | `fia.dfy` | `fia` |

## Model

| member | source | states |
|---|---|---|
| Values.NanMax | forests/load/fia.py:88-90 | the NaN-skipping maximum is NaN exactly when every cell is NaN; otherwise it is one of the present cells and no present cell exceeds it |
| Values.PresentNone | carbonplan_forests/prepare.py:96 | no cell is counted as present exactly when every cell is NaN |
| Values.NanSumBounds | carbonplan_forests/prepare.py:104 | a NaN-skipping sum of cells in [lo, hi] lies between count*lo and count*hi |
| Values.NanMeanBetween | carbonplan_forests/prepare.py:96 | a grid mean is NaN exactly when every cell is NaN, and otherwise lies between the bounds of the present cells |
| Grid.Repeat | carbonplan_forests/prepare.py:77 | `np.tile` over time gives n time steps that all hold the same raster |
| Grid.Fill | carbonplan_forests/prepare.py:91 | tiling a scalar over the grid gives a raster holding that value in every cell |
| Grid.FlattenLength | carbonplan_forests/prepare.py:76 | a flattened cube of uniform rasters has T*cells rows |
| Grid.FlattenAppend | carbonplan_forests/prepare.py:115-122 | flattening a concatenation of cubes concatenates their flattenings |
| Grid.FlattenAt | carbonplan_forests/prepare.py:76 | row t*cells + k of the flattened cube is cell k of raster t |
| Grid.FlattenRow | carbonplan_forests/prepare.py:76 | conversely, row i of the flattened cube is cell i mod cells of raster i div cells |
| Grid.FlattenIndex | carbonplan_forests/prepare.py:76 | C-order flattening puts cube cell (t, y, x) at row t*Y*X + y*X + x |
| Rows.Filter | carbonplan_forests/prepare.py:236 | boolean-mask indexing never yields more rows than it is given (its meaning is stated by MaskedRows) |
| Rows.Where | forests/load/fia.py:43 | every selected row satisfies the predicate, and there are no more of them than rows |
| Rows.Apply | carbonplan_forests/prepare.py:239 | a computed column has one entry per row, entry i computed from row i |
| Rows.MaskedApply | carbonplan_forests/prepare.py:242-247 | masking a computed column with a mask computed from the same rows equals computing the column on the selected rows |
| Rows.MaskedRows | forests/load/fia.py:29-43 | indexing rows by a mask computed from them selects exactly the rows that satisfy the predicate |
| Rows.WhereWhere | carbonplan_forests/prepare.py:230-246 | two selections in a row equal one selection by the conjunction of their predicates |
| Rows.Positions | forests/load/fia.py:43 | there is one position per selected row, and each lies inside the table |
| Rows.WhereAtPositions | forests/load/fia.py:43 | selected row i is the input row at position i |
| Rows.PositionsIncrease | forests/load/fia.py:43 | the positions strictly increase, so selection keeps the row order |
| Rows.PositionsComplete | forests/load/fia.py:43 | every row that satisfies the predicate is among the positions |
| Rows.RunEnd | forests/load/fia.py:66 | the run starting at i is nonempty, holds one key, and is maximal |
| Rows.Runs | forests/load/fia.py:66 | the runs of a key column partition it in order into nonempty maximal runs of one key each |
| Rows.SpansOrdered | forests/load/fia.py:66 | a later group starts after every earlier group ends |
| Rows.RunOf | carbonplan_forests/prepare.py:120 | every row belongs to some group |
| Scramble.ZeroFilled | carbonplan_forests/prepare.py:12-14 | the raster handed to the Fourier transform has the input's size; a NaN cell reads as 0 and every other cell keeps its value |
| Scramble.Scrambled2D | carbonplan_forests/prepare.py:8-26 | a scrambled raster has the size of its input and a cell is NaN exactly when it was NaN in the input (what the present cells carry is stated by OnlyPresentCellsMatter) |
| Scramble.Scrambled3D | carbonplan_forests/prepare.py:29-37 | a scrambled cube has the shape of its input, slice by slice |
| Scramble.MaskPreserved | carbonplan_forests/prepare.py:13-25 | a cell of the scrambled raster is NaN exactly when it was NaN in the input |
| Scramble.AllMissingStaysMissing | carbonplan_forests/prepare.py:13-25 | an all-NaN raster comes back unchanged |
| Scramble.OnlyPresentCellsMatter | carbonplan_forests/prepare.py:12-25 | two rasters with the same mask and the same present values scramble alike under the same phase |
| Scramble.SlicesIndependent | carbonplan_forests/prepare.py:33-37 | slice t of `scramble_3d` depends only on input slice t and its phase, and the output keeps a uniform raster size |
| Scramble.Scramble2D | carbonplan_forests/prepare.py:8-26 | the array procedure (copy, zero-fill the NaN cells, spectral step, restore NaN) computes `Scrambled2D` |
| Scramble.ZeroNaN | carbonplan_forests/prepare.py:14 | `img[nan_inds] = 0` sets exactly the masked cells to 0 and leaves the others unchanged |
| Scramble.RestoreNaN | carbonplan_forests/prepare.py:25 | `fnew[nan_inds] = np.NaN` sets exactly the masked cells to NaN and leaves the others unchanged |
| Scramble.Scramble3D | carbonplan_forests/prepare.py:29-37 | the slice-by-slice loop over a copy computes `Scrambled3D` |
| Trends.GroupsAreYears | carbonplan_forests/prepare.py:120 | on a chronological axis a group holds exactly the time steps of its year, and groups come in increasing year order |
| Trends.IncreasingYears | carbonplan_forests/prepare.py:120 | later groups carry strictly later years |
| Trends.Series | carbonplan_forests/prepare.py:93 | a cell's time series over [lo, hi) holds that cell at each step |
| Trends.YearGrid | carbonplan_forests/prepare.py:120 | a year's maximum or sum is a full raster |
| Trends.YearGrids | carbonplan_forests/prepare.py:120 | there is one full raster per year of the axis |
| Trends.MonthsAt | carbonplan_forests/prepare.py:119 | tiling each yearly raster over 12 months puts year m div 12 at month m |
| Trends.MonthsLength | carbonplan_forests/prepare.py:119 | the tiling has 12 steps per year |
| Trends.MonthsUniform | carbonplan_forests/prepare.py:119 | the tiling keeps the raster size |
| Trends.TiledAt | carbonplan_forests/prepare.py:119-122 | flattened monthly tiles have 12 rows per raster and cell, and row (12*r + j)*cells + k holds cell k of raster r |
| Trends.RollingGrid | carbonplan_forests/prepare.py:93-94 | the rolled raster at a step is a full raster |
| Trends.RollingLocal | carbonplan_forests/prepare.py:139-142 | the rolled cube has the input's shape |
| Trends.RollingGlobal | carbonplan_forests/prepare.py:89-96 | the rolled-and-averaged cube has the input's shape |
| Trends.RollingCellDefined | carbonplan_forests/prepare.py:93-94 | a rolled cell is defined exactly when the 12 steps ending there all hold a value; it is then their maximum or sum |
| Trends.WindowFull | carbonplan_forests/prepare.py:93 | `min_periods=12` is met exactly when every step of the window holds a value |
| Trends.PresentAll | carbonplan_forests/prepare.py:93 | every cell is counted as present exactly when none is NaN |
| Trends.GlobalYearlyRows | carbonplan_forests/prepare.py:115-130 | the yearly global column has 12 rows per year and cell; each row holds the grid mean of its year's maximum or sum |
| Trends.LocalYearlyRows | carbonplan_forests/prepare.py:150-188 | the yearly local column has 12 rows per year and cell; each row holds its cell of that year's (smoothed) raster |
| Trends.RollingGlobalRows | carbonplan_forests/prepare.py:87-110 | the rolling global column has one row per step and cell; each row holds the grid mean of the rolled raster, which is NaN for the first 11 steps |
| Trends.RollingLocalRows | carbonplan_forests/prepare.py:135-145 | the rolling local column has one row per step and cell; each row holds the rolled value of its cell |
| Trends.YearlyLengths | carbonplan_forests/prepare.py:115-188 | both yearly trend columns have 12 rows per calendar year and grid cell |
| Fire.Select | carbonplan_forests/prepare.py:66-67 | the window keeps the grid and the variables; its length is the window clipped to the axis, and its step t is step lo + t of the full axis |
| Fire.Lookup | carbonplan_forests/prepare.py:92 | `climate[name]` succeeds exactly when a variable has that name, returns that variable's cube, and otherwise raises KeyError(name) |
| Fire.Fire | carbonplan_forests/prepare.py:52-206 | the reference definition of `fire`: a result is the matrix alone exactly in eval-only mode, a training triple needs a target and local trends and carries the flattened target, and the only KeyErrors are those of tmean and ppt (an empty active time axis raises between the two, see FireOutcome) |
| Fire.Stack | carbonplan_forests/prepare.py:189-206 | the concatenation step: a result is the matrix alone exactly in eval-only mode, a training triple carries the flattened target and `f3`, and it raises no KeyError |
| Fire.ClimateCube | carbonplan_forests/prepare.py:72-76 | a climate variable, scrambled or not, keeps its shape |
| Fire.LandRaster | carbonplan_forests/prepare.py:74-77 | a land-type raster, scrambled or not, keeps its size |
| Fire.Columns | carbonplan_forests/prepare.py:192-199 | concatenated blocks have as many columns as the blocks together |
| Fire.Active | carbonplan_forests/prepare.py:66-70 | the climate the blocks are built from keeps the grid and the variables |
| Fire.ClimateBlockShape | carbonplan_forests/prepare.py:72-76 | the climate block has one column per variable and T*cells rows |
| Fire.LandBlockShape | carbonplan_forests/prepare.py:74-77 | the land block has one column per land type; column j has T rows per cell of raster j, so the block has T*cells rows exactly when every raster is on the climate grid |
| Fire.GlobalBlockShape | carbonplan_forests/prepare.py:81-130 | `f2` has two columns, with one row per step and cell when rolling and 12 per year and cell otherwise |
| Fire.LocalBlockShape | carbonplan_forests/prepare.py:132-188 | `f3` has two columns, of the same row counts as `f2` |
| Fire.ConformableRectangular | carbonplan_forests/prepare.py:192-199 | blocks concatenate exactly when every block has the first block's row count |
| Fire.ActiveDeclares | carbonplan_forests/prepare.py:66-67 | the window declares the same variables as the full dataset |
| Fire.ActiveCube | carbonplan_forests/prepare.py:92 | a declared variable's cube has one full raster per active time step |
| Fire.StackOutcome | carbonplan_forests/prepare.py:189-206 | the concatenations fail exactly when a block lacks columns, a land-type column has another length than the climate columns, or a concatenated trend block has another row count; otherwise `fire` returns the stacked columns, or raises for a missing target or an unassigned `f3` |
| Fire.FireOutcome | carbonplan_forests/prepare.py:52-206 | every outcome of `fire`, in source order: KeyError for tmean, then the ValueError of an empty active time axis (yearly grouping finds no year, a rolling window has no step), then KeyError for ppt, a shape mismatch (no variable or land type, a land-type raster off the climate grid, or a trend block of another length), the eval-only matrix, a missing target, an unassigned `f3`, or the training triple |
| Fire.DesignShape | carbonplan_forests/prepare.py:189-199 | the design matrix has the climate variables, the land types, 2 global columns unless a kernel size is given, and 2 local columns when both are given; its columns are all of one length |
| Fire.FireShape | carbonplan_forests/prepare.py:52-206 | a successful call returns the design matrix: tmean and ppt exist, the blocks stack, and every column has T*cells rows |
| Fire.FitNeedsLocalTrends | carbonplan_forests/prepare.py:132-206 | fitting without local trends always fails, because `f3` is returned but never assigned |
| Fire.YearlyNeedsWholeYears | carbonplan_forests/prepare.py:115-130 | in yearly mode, a success that concatenates a trend block implies the axis covers whole calendar years |
| Fire.RollingAlwaysStacks | carbonplan_forests/prepare.py:81-110 | with a rolling window the trend columns always line up: the blocks stack exactly when there is a climate variable and a land type and the land types are on the grid |
| Fire.TargetIgnoresWindow | carbonplan_forests/prepare.py:66-205 | the target is the whole flattened `mtbs` cube; with a window shorter than the axis, every feature column differs from it in length |
| Fire.DesignFront | carbonplan_forests/prepare.py:72-77 | the design matrix starts with the climate columns in variable order, then the land-type columns in raster order |
| Fire.ClimateColumns | carbonplan_forests/prepare.py:72-76 | climate column v of the design matrix holds variable v (scrambled when asked) at row t*Y*X + y*X + x, and holds the dataset's own value when not scrambling |
| Fire.LandColumns | carbonplan_forests/prepare.py:74-77 | land column j of the design matrix holds raster j at every time step: row t*n + k, for a raster of n cells, is its cell k |
| Fire.RollingTrendColumns | carbonplan_forests/prepare.py:87-110 | in rolling mode the global trend columns hold the grid mean of the rolled tmean maximum and ppt sum, NaN for the first 11 steps |
| Fire.GlobalColumns | carbonplan_forests/prepare.py:189-196 | without a kernel size the two global trend columns follow the climate and land-type columns |
| Fire.YearlyTrendColumns | carbonplan_forests/prepare.py:115-130 | in yearly mode the global trend columns hold, for each month of a year, the grid mean of that year's tmean maximum and ppt sum |
| Tabular.Quotient | carbonplan_forests/prepare.py:239 | float division: NaN exactly for a NaN operand or 0/0, finite exactly for a nonzero divisor, and then the product with the divisor is the dividend |
| Tabular.Scale | carbonplan_forests/prepare.py:289 | float product: NaN exactly for a NaN operand or an infinity times zero |
| Tabular.Square | carbonplan_forests/prepare.py:218 | `age ** 2` is present exactly when age is |
| Tabular.Minus | carbonplan_forests/prepare.py:238 | `year_1 - year_0` is present exactly when both years are |
| Tabular.EvalRow | carbonplan_forests/prepare.py:217-221 | an evaluation row has five covariates (their values are stated by EvalKeepsEveryPlot) |
| Tabular.FitRow | carbonplan_forests/prepare.py:227-240 | a fitting row has five covariates (their values are stated by FitAligned and FitRowsClean) |
| Tabular.FirstMask | carbonplan_forests/prepare.py:230-235 | the first mask has one entry per plot (which plots pass is stated by FlagsNeverExclude) |
| Tabular.FlagsNeverExclude | carbonplan_forests/prepare.py:230-235 | the `is True` tests on whole columns never exclude a plot: the first mask is the condition-share test alone |
| Tabular.Prepared | carbonplan_forests/prepare.py:209-299 | the row-by-row reference of `drought` and `insects`: `(x, meta)` exactly in evaluation mode, with one row per plot; in fitting mode x, y and meta of one length, at most one per plot; every x row has five covariates |
| Tabular.Frame.constructor | carbonplan_forests/prepare.py:214 | the copy holds the plots, and its derived columns are NaN |
| Tabular.Frame.DeriveAgeSquared | carbonplan_forests/prepare.py:218 | each row's age_squared becomes the square of its age; nothing else changes |
| Tabular.Frame.SetDuration | carbonplan_forests/prepare.py:219 | every row's duration becomes the argument; nothing else changes |
| Tabular.Frame.DeriveDuration | carbonplan_forests/prepare.py:238 | each row's duration becomes year_1 - year_0; nothing else changes |
| Tabular.Frame.Restrict | carbonplan_forests/prepare.py:236 | every column keeps exactly the rows the mask selects, and the columns stay aligned |
| Tabular.Frame.Covariates | carbonplan_forests/prepare.py:220-240 | the covariate matrix has one row of five values per plot |
| Tabular.Prepare | carbonplan_forests/prepare.py:209-249 | the frame-mutating procedure of both builders returns the row-by-row reference `Prepared` |
| Tabular.PrepareEval | carbonplan_forests/prepare.py:214-224 | the evaluation branch on the frame returns `Prepared` in evaluation mode |
| Tabular.PrepareFit | carbonplan_forests/prepare.py:225-249 | the fitting branch on the frame returns `Prepared` in fitting mode |
| Tabular.FitSelection | carbonplan_forests/prepare.py:230-247 | keeping the complete rows among the plots that pass the condition-share test keeps the kept plots of the whole table, with x, y and meta aligned |
| Tabular.DroughtFrame | carbonplan_forests/prepare.py:209-249 | `drought` is the shared builder with the mortality-fraction target |
| Tabular.InsectsFrame | carbonplan_forests/prepare.py:252-299 | `insects` is the shared builder with the insect-weighted target |
| Tabular.DroughtTargetKept | carbonplan_forests/prepare.py:239-242 | a drought plot keeps its target exactly when mortality and live basal area are present and the ratio is below 1; with zero basal area, exactly when mortality is negative |
| Tabular.InsectsTargetKept | carbonplan_forests/prepare.py:289-292 | an insect plot keeps its target exactly when all three inputs are present and the weighted ratio is below 1, including the negative-infinity case |
| Tabular.FitAligned | carbonplan_forests/prepare.py:242-249 | in fitting mode, entry i of x, y and meta all come from the i-th kept plot, in table order, and no kept plot is missing |
| Tabular.FitRowsClean | carbonplan_forests/prepare.py:242-247 | every fitted row has five present covariates, the fourth the square of the third, and a defined target below 1 |
| Tabular.EvalKeepsEveryPlot | carbonplan_forests/prepare.py:216-224 | evaluation mode keeps every plot in order, with age squared derived and the duration set to the argument |
| Tables.FirstMissing | forests/load/fia.py:29-41 | no column is reported exactly when every needed column exists; a reported column is needed and absent |
| Tables.Lower | forests/load/fia.py:26 | the lower-case file key has the code's length, each letter lowered |
| Tables.Upper | forests/load/fia.py:58 | the state tag has the code's length, each letter raised |
| Tables.CaseForms | forests/load/fia.py:26-58 | upper-casing first changes neither the lower-case nor the upper-case form |
| FiaState.Cleaned | forests/load/fia.py:28-43 | cleaning raises exactly when a mask column is absent; otherwise it keeps the columns and at most the records |
| FiaState.StateNotSelected | forests/load/fia.py:55-58 | the `state` column is not one of the projected columns |
| FiaState.SourceOf | forests/load/fia.py:45-54 | a new name has a source exactly when some parquet column is renamed to it, and the source is such a column |
| FiaState.SourceUnique | forests/load/fia.py:45-56 | when no two columns are renamed to one name, the source of a new name is the one column renamed to it |
| FiaState.Projected | forests/load/fia.py:45-56 | renaming and projecting keeps every record |
| FiaState.Assigned | forests/load/fia.py:58 | assigning a constant column keeps every row |
| FiaState.StateTable | forests/load/fia.py:24-60 | the reference definition of `fia_state`: a missing file raises; an existing one loads exactly when the mask columns are present if cleaning and no two columns are renamed to one name (pandas raises ValueError at `.filter` otherwise); a loaded table keeps at most the file's records |
| FiaState.Source | forests/load/fia.py:24-43 | a loaded frame comes from the file keyed by the lower-cased code and keeps its columns |
| FiaState.CleanedSelects | forests/load/fia.py:28-43 | the cleaned records are those passing the mask: each one passes, none that passes is dropped, and order is kept |
| FiaState.CleanRecordsArePresent | forests/load/fia.py:29-42 | a record that passes the mask has every mask column present, since the NaN test guards the forest-type comparisons |
| FiaState.StateColumns | forests/load/fia.py:45-58 | the columns are the renamed selected names the file provides, in selection order, then `state` |
| FiaState.KeptMembers | forests/load/fia.py:55 | a name is kept exactly when it is selected and some column is renamed to it |
| FiaState.KeptNames | forests/load/fia.py:45-56 | a selected name is kept exactly when some parquet column is renamed to it |
| FiaState.ProjectedRow | forests/load/fia.py:45-56 | a projected row holds its record's value under the new name |
| FiaState.SourceRows | forests/load/fia.py:26-43 | the records loaded are the file's, or those passing the mask |
| FiaState.StateRow | forests/load/fia.py:45-60 | a state-table row holds the renamed values and the upper-cased code |
| FiaState.StateRows | forests/load/fia.py:24-60 | row by row, the state table holds the renamed values of the (cleaned) records in order, tagged with the upper-cased code |
| FiaState.UncleanedKeepsEveryRecord | forests/load/fia.py:24-60 | without cleaning, an existing file loads exactly when no two columns are renamed to one name, and then with every record |
| FiaState.StateCodeCaseInsensitive | forests/load/fia.py:26-58 | any spelling of a state code gives the same result |
| FiaGrouped.KeyOrder | forests/load/fia.py:65 | the sort order is transitive and asymmetric |
| FiaGrouped.PairOrder | forests/load/fia.py:65-66 | the pair order is transitive, and pairs ordered neither way are equal |
| FiaGrouped.Insert | forests/load/fia.py:65 | inserting into a sorted table keeps it sorted and adds exactly that record |
| FiaGrouped.InsertFront | forests/load/fia.py:65 | a record no later than the first of a sorted table can go in front and keep it sorted |
| FiaGrouped.InsertBehind | forests/load/fia.py:65 | the first of a sorted table stays in front of the sorted rest with a later record inserted |
| FiaGrouped.SortRows | forests/load/fia.py:65 | sorting yields the same records ordered by (plot, condition, year) |
| FiaGrouped.SortedPairs | forests/load/fia.py:65-66 | the group keys of a sorted table never decrease |
| FiaGrouped.Groups | forests/load/fia.py:66 | the groups partition the sorted table into maximal runs of one pair |
| FiaGrouped.GroupBounds | forests/load/fia.py:66 | each group is a nonempty range of the sorted records |
| FiaGrouped.GroupIsPair | forests/load/fia.py:66 | in a sorted table a group holds every record of its pair and no other |
| FiaGrouped.GroupsDistinct | forests/load/fia.py:66 | different groups have different pairs |
| FiaGrouped.CumCountIsOffset | forests/load/fia.py:66 | in a sorted table `cumcount` is a record's offset in its group |
| FiaGrouped.CountInGroup | forests/load/fia.py:66 | counting the records of a pair up to a point in its group gives the offset |
| FiaGrouped.Width | forests/load/fia.py:83-85 | the number of numbered columns is the size of the largest group |
| FiaGrouped.PivotOf | forests/load/fia.py:85 | a pivot has a row per group and a column per inventory number |
| FiaGrouped.PivotCells | forests/load/fia.py:66-85 | each record lands in the cell of its group and cumcount, and a cell past the group's end is NaN |
| FiaGrouped.Find | forests/load/fia.py:87 | a found pivot is in the list and has the asked name |
| FiaGrouped.WideLabels | forests/load/fia.py:83-87 | the numbered labels are exactly variable_k for a looped variable and k below the width |
| FiaGrouped.Columns | forests/load/fia.py:87-91 | the output columns are exactly the attributes and the numbered columns |
| FiaGrouped.Joined | forests/load/fia.py:91 | the join has one row per pair |
| FiaGrouped.Pivots | forests/load/fia.py:67-86 | `tmp` holds one pivot per variable, in loop order |
| FiaGrouped.Grouped | forests/load/fia.py:62-91 | the reference definition of `fia_state_grouped`: a missing file raises exactly when the file is absent; a KeyError names a column the loader reads or `INVYR_1`; a result is the reshape of the file's records |
| FiaGrouped.Reshaped | forests/load/fia.py:65-91 | the reshape of the records: its only error is the KeyError of `INVYR_1`; a result has an `INVYR_1` column and no row where it is NaN |
| FiaGrouped.FirstMissingAppend | forests/load/fia.py:65-90 | the first missing column of two lists read in turn is the first list's, else the second's |
| FiaGrouped.PivotLoop | forests/load/fia.py:67-86 | the loop stops at the first variable not in the table; when none is missing it builds every pivot in order |
| FiaGrouped.LoadGrouped | forests/load/fia.py:62-91 | the step-by-step loader returns the reference `Grouped`, including its errors in source order |
| FiaGrouped.FindPivot | forests/load/fia.py:85-87 | a looped variable's pivot is found under its name |
| FiaGrouped.JoinedCell | forests/load/fia.py:88-91 | a joined row holds a cell for every output column |
| FiaGrouped.WideCell | forests/load/fia.py:66-91 | `variable_k` of a pair holds that variable in the pair's k-th inventory, NaN past its last one |
| FiaGrouped.WideColumn | forests/load/fia.py:83-87 | every `variable_k` below the width is an output column |
| FiaGrouped.ObservationIn | forests/load/fia.py:85 | the k-th inventory value of a group is its (lo + k)-th record's, NaN past the end |
| FiaGrouped.PivotCell | forests/load/fia.py:87-91 | a numbered cell reads the pivot found under its variable |
| FiaGrouped.PivotColumn | forests/load/fia.py:85-91 | a numbered cell of a joined row holds the found pivot's observation: the record's value, or NaN past the group's end |
| FiaGrouped.AttrCell | forests/load/fia.py:88-91 | an attribute of a pair holds its largest present value over the pair's records |
| FiaGrouped.RowIndex | forests/load/fia.py:85-91 | a pair's row is indexed by (plt_uid, CONDID) |
| FiaGrouped.KeptPairs | forests/load/fia.py:91 | a pair keeps its row exactly when it has a second inventory with a recorded year |
| FiaGrouped.SecondYear | forests/load/fia.py:91 | `dropna(subset=['INVYR_1'])` keeps a row exactly when its group has a second inventory with a recorded year |
| FiaGrouped.GroupedRows | forests/load/fia.py:62-91 | the result rows are the joined rows of the pairs with a second year, one per pair, in key order, and none is missing |
| FiaGrouped.NoRepeatsRaises | forests/load/fia.py:85-91 | without a pair inventoried twice there is no `INVYR_1`, and `dropna` raises |
| Fia.Collect | forests/load/fia.py:20-22 | a list of loads succeeds exactly when every load does, with the values in order; otherwise it raises the first error |
| Fia.Fia | forests/load/fia.py:5-22 | the reference definition of `fia`: None exactly for a `states` of the third kind (neither a string nor a list of strings, and plainly unequal to `'conus'`); a list loads only when it is not empty and every state on it loads |
| Fia.Loads | forests/load/fia.py:20-22 | the comprehension makes one load per code, in list order |
| Fia.UnionHolds | forests/load/fia.py:20 | the column union holds the columns of both sides and starts with the earlier ones |
| Fia.ConusIsTheList | forests/load/fia.py:8-12 | `'conus'` loads the 48 conterminous states as a list |
| Fia.OneState | forests/load/fia.py:14-22 | any other string loads that one state; a `states` of the third kind (neither a string nor a list of strings, and plainly unequal to `'conus'`) gives None |
| Fia.OnlyTrueGroups | forests/load/fia.py:14 | only the object `True` selects the grouped loader |
| Fia.GroupedIgnoresClean | forests/load/fia.py:62-91 | the grouped loader's result does not depend on `clean` |
| Fia.EmptyListRaises | forests/load/fia.py:19-22 | an empty list raises instead of returning an empty table |
| Fia.ConcatRowAt | forests/load/fia.py:20-22 | the concatenation holds row i of table j at the offset of table j plus i |
| Fia.ConcatColumnsCover | forests/load/fia.py:20-22 | the concatenation's columns are exactly those of the tables |
| Fia.ConcatColumnsFirst | forests/load/fia.py:20-22 | the first table's distinct columns come first, in their order |
| Fia.UnionDistinct | forests/load/fia.py:20-22 | distinct new columns are appended as they are |
| Fia.DistinctTail | forests/load/fia.py:20-22 | the rest of a distinct new column list stays distinct and new |
| Fia.ListRowsTagged | forests/load/fia.py:16-60 | loading a list without grouping holds every state's rows in list order, each tagged with its own upper-cased code |

## Left out

- **Floating point.**
  - Values are unbounded reals with NaN as a separate case.
  - Rounding and float overflow are not modelled.
  - Of the infinities, only those of the mortality target (a division by zero) are modelled.
- **Parameters in place of numerics and randomness.**
  - The Fourier step of `scramble_2d` (FFT, keep magnitudes, set phase, inverse FFT, real part) is a function parameter.
  - The random phases are explicit parameters.
  - The Gaussian smoother `smooth` is a function parameter that keeps the raster's size.
- **Side effects.** Printing and the suppression of RuntimeWarnings are not modelled. Neither changes a result.
- **Storage.**
  - `setup.loading(store)` and `pd.read_parquet` become a map from the lower-cased state code to the file's long table.
  - The `store` argument is dropped.
  - A missing file is the `MissingFile` error.
- **Time coordinates.**
  - `Fire.Fire`: requires a chronological time axis. `groupby('time.year')` is modelled as runs of equal years, which agrees with grouping only on such an axis.
  - `Fire.Select`: `rolling_period` is a window of time-step positions, not a label slice of dates.
  - `Fire.Fire`: a rolling window of one to eleven time steps is modelled as xarray's plain numpy path computes it, with trend columns that are all NaN. Where xarray hands the rolling to bottleneck, a window shorter than its twelve steps raises ValueError instead. A window of no steps raises in both, and the model raises `EmptyAxis` for it.
- **Land-type rasters.**
  - `Fire.Fire`: the land-type rasters are a list of rasters of any size. In the source they are the rows of one array, so they share a size. Rasters of different sizes, which numpy would refuse already when stacking them, give the model's `ShapeMismatch` like any raster off the climate grid.
- **Objects and indexes.**
  - `Fire.Fire`: `mtbs` is modelled as the cube of its `monthly` variable. A missing `mtbs` is the error of subscripting None.
  - `Tabular.Prepare`: only the columns the builders read are modelled. `reset_index` of the metadata is the plain list of metadata rows.
  - `FiaState.StateTable`: the pandas row index of a state table is not modelled. Rows carry an empty index, and concatenation keeps rows in order without their labels.
- **Grouped loading.**
  - `FiaGrouped.Grouped`: when every column the loader reads is present, requires every record to have a plot and a condition. pandas drops records with a NaN group key; that case is not modelled. A table lacking a column is covered whatever its records hold, since the KeyError comes first. `fia` with `group_repeats=True` requires this only of the states it loads.
  - `FiaGrouped.SortRows`: the output is proved sorted and a permutation of the input. Keeping equal keys in their original order is not proved.
  - `FiaGrouped.Columns`: the numbered columns of a variable are ordered by inventory number. pandas orders the pivot's `tmp_idx` labels as strings, so `INVYR_10` comes before `INVYR_2` once there are eleven or more inventories. Which columns exist and what they hold is modelled; their order past ten inventories is not.
  - `FiaGrouped.Grouped`: a missing column is reported as a KeyError naming the first absent one. For the site attributes, pandas' `groupby(...)[[...]]` raises a single KeyError that lists every absent attribute. Only which error is raised is modelled, not the full list.
  - The scratch columns `wide_idx` and `tmp_idx` are not kept in the model. They are never part of the output.
- **Column names.**
  - `Tables.Lower` and `Tables.Upper` change ASCII letters only. Python's Unicode case mapping is not modelled.
- **The `states` argument of `fia`** is modelled as one of three kinds: a string, a list of strings, or an object whose comparison `states == 'conus'` is a plain False and which is neither exactly a `str` nor exactly a `list`. That third kind gives None. Such an object may be a `str` or `list` subclass that `type(...) is` rejects, as long as it is not equal to `'conus'`.
  - `Fia.Fia`: three kinds of argument are not modelled. A numpy array or pandas Series of codes raises ValueError at the `'conus'` comparison, whose elementwise truth value is ambiguous. A `str` subclass equal to `'conus'` is expanded to the 48-state list and loaded. A list holding a non-string raises AttributeError at `state.lower()`.
- **Default arguments** (`duration=10`, `eval_only=False` and the others) are not modelled. Every call passes every argument.
