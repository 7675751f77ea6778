# Fuel trim heatmap engine, in Dafny

This project models the data pipeline of the fuel trim heatmap tool
(`fuel_trims.py`), a single Streamlit script that reads an engine log and a
column-mapping table and draws heatmaps of short-term (STFT), long-term
(LTFT) and total fuel trim over RPM and manifold pressure (MAP) bins.

The model follows the script step by step:

- **Schema** (`schema.dfy`): the mapping table, `dict(zip(original, new))`
  with its last-wins rule, the list of required fields that no mapping
  value names (in `REQUIRED_COLUMNS` order), and the rename of the log's
  headers.
- **Binning** (`binning.dfy`): `(x // size) * size` on a real reading,
  characterised as the unique multiple of `size` in `(x - size, x]`.
- **Records** (`records.dfy`): the log frame as a class whose `Rename`
  updates its header in place, and the method that drops rows with a
  missing required field or a non-positive MAP or RPM and adds `RPM_bin`,
  `MAP_bin` and `TotalTrim`, proved equal to a filter function whose
  survivors are exactly the accepted rows, in order.
- **Aggregation** (`aggregation.dfy`): the pivot of the samples into a
  sparse `map<(MAP_bin, RPM_bin), Cell>` of mean and count, proved against
  an independent "values in this bin" definition.
- **Masks** (`masks.dfy`): the validity mask (count at least
  `min_samples`, mean within the trim range, both ends inclusive; absent
  cells hidden) and the OR of two masks.
- **TimeSeries** (`timeseries.dfy`): the three traces (STFT, LTFT,
  TotalTrim) in filtered-row order.
- **Pipeline** (`pipeline.dfy`): one run of the tool for a view mode, as a
  function and as a method that renames the frame in place, with end-to-end
  statements about what each view shows.
- **Scenarios** (`scenarios.dfy`): worked runs on small logs and mapping
  tables.

Signal values are `real`, so means are exact. Bin keys are the pair
`(MAP_bin, RPM_bin)`: the pivot uses `MAP_bin` as its index and `RPM_bin` as
its columns. The sidebar settings enter as a `Config` whose domains are the
widget ranges (RPM bin 250/500/1000, MAP bin 25/50/100, minimum samples
1-50, trim range within -50..50).

## Model

| member | source | states |
|---|---|---|
| `Binning.BinOf` | fuel_trims.py:60-61 | the bin is a multiple of the bin size and `bin <= x < bin + size` |
| `Binning.BinUnique` | fuel_trims.py:60-61 | any multiple `b` of the size with `b <= x < b + size` is the bin of `x`: floor, not rounding |
| `Binning.BinOnBoundary` | fuel_trims.py:60-61 | a value exactly on a boundary `k * size` falls in bin `k * size` |
| `Binning.BinBelowFirstBoundary` | fuel_trims.py:60-61 | values in `[0, size)` fall in bin 0 |
| `Binning.BinOfPositive` | fuel_trims.py:58-61 | a positive reading never falls in a negative bin |
| `Binning.BinMonotone` | fuel_trims.py:60-61 | a larger reading never falls in a lower bin |
| `Schema.Zip` | fuel_trims.py:50 | `zip(original, new)`: pair i is `(original[i], new[i])`, and the pairs stop at the shorter column |
| `Schema.DictOf` | fuel_trims.py:50 | `dict(pairs)` inserts pairs in order: no pairs give the empty dictionary and the last pair is always in effect; its keys and last-wins rule are stated by `DictOfKeys` and `DictOfLastWins` |
| `Schema.DictOfKeys` | fuel_trims.py:50 | the dictionary's keys are exactly the `original` cells of the zipped rows |
| `Schema.DictOfLastWins` | fuel_trims.py:50 | for a repeated `original` key the value of its last row wins |
| `Schema.DictOfValues` | fuel_trims.py:50 | every dictionary value is a `new` cell of some zipped row |
| `Schema.Absent` | fuel_trims.py:51 | the result holds exactly the fields not present, and keeps the order of the field list |
| `Schema.ColumnMapping` | fuel_trims.py:50 | the rename dictionary `dict(zip(original, new))`: every key is an `original` cell and every value a `new` cell; which keys it holds and which value each gets are stated by `ColumnMappingKeys` and `ColumnMappingLastWins` |
| `Schema.ColumnMappingLastWins` | fuel_trims.py:50 | a header named in row i and in no later paired row is renamed to that row's `new` cell, so for a repeated `original` cell the last row wins |
| `Schema.ColumnMappingKeys` | fuel_trims.py:50 | a header is a key of the dictionary iff it is the `original` cell of a row that `zip` pairs with a `new` cell |
| `Schema.ResolveMapping` | fuel_trims.py:46-54 | fails with `MissingMappingColumns` iff `original` or `new` is missing; on success the dictionary is `dict(zip(original, new))` and covers every required field; otherwise reports exactly the uncovered required fields, non-empty, in `REQUIRED_COLUMNS` order |
| `Schema.ResolveSucceeds` | fuel_trims.py:46-54 | resolution succeeds iff both columns exist and every required field is a mapping value |
| `Schema.RenameColumns` | fuel_trims.py:56 | the header after `rename(columns=...)` (each name through `Renamed`, unmapped names kept) has one name per old header; which names it holds is stated by `RenamedHeaderHas` |
| `Schema.RenamedHeaderHas` | fuel_trims.py:56 | a name is in the renamed header iff some header maps to it, or carries it and is not renamed |
| `Records.LogFrame.constructor` | fuel_trims.py:43 | a frame holds the given header and rows, each row one cell per header |
| `Records.LogFrame.Rename` | fuel_trims.py:56 | renames the header in place, cells unchanged, frame stays rectangular |
| `Records.ColumnIndex` | fuel_trims.py:57-58 | finds the first header of that name, or none iff no header has it |
| `Records.LayoutOf` | fuel_trims.py:57-58 | the four positions hold MAP_mbar, RPM, STFT and LTFT |
| `Records.ToSample` | fuel_trims.py:60-62 | a surviving row (`Keeps`) becomes a sample carrying its four values, TotalTrim = STFT + LTFT, and RPM_bin and MAP_bin that are non-negative multiples of their bin sizes with `bin <= value < bin + size`; for every sample of the frame this is `PreparedSamplesWellFormed` |
| `Records.KeptIndices` | fuel_trims.py:57-58 | the surviving row positions are increasing and are exactly the rows with all four fields present and MAP_mbar > 0 and RPM > 0 |
| `Records.Prepared` | fuel_trims.py:57-62 | the filtered frame is never longer than the log |
| `Records.PreparedFromKeptRows` | fuel_trims.py:57-62 | the k-th sample is built from the k-th surviving row, so survivors keep their order and none is lost |
| `Records.PreparedSamplesWellFormed` | fuel_trims.py:58-62 | every sample has positive MAP and RPM, floor-division bins, and TotalTrim = STFT + LTFT |
| `Records.PrepareSamples` | fuel_trims.py:57-62 | fails iff the renamed header lacks a required column, reporting those in order; otherwise returns the filtered, binned frame |
| `Aggregation.Totals` | fuel_trims.py:133-134 | every accumulated group has at least one sample |
| `Aggregation.PivotGrid` | fuel_trims.py:133-134 | no cell of the grid has count 0 |
| `Aggregation.TotalsMatchBinValues` | fuel_trims.py:133-134 | a group exists iff its bin has values, and its sum and count are the sum and number of those values |
| `Aggregation.BinValuesPresent` | fuel_trims.py:133-134 | a bin has values iff some sample carries its key |
| `Aggregation.BinSizeIndependentOfSignal` | fuel_trims.py:144-146 | how many samples fall in a bin does not depend on the signal |
| `Aggregation.PivotCell` | fuel_trims.py:133-134 | a cell exists iff some sample falls in its bin; its count is the number of those samples and its mean the arithmetic mean of their values |
| `Aggregation.PivotCountsAgree` | fuel_trims.py:144-146 | the STFT and LTFT grids have the same cells with the same counts |
| `Masks.ValidityMask` | fuel_trims.py:73-75 | the mask covers both grids' cells and shows only cells present in both with count at least `min_samples` |
| `Masks.Union` | fuel_trims.py:150 | a cell is shown iff either mask shows it |
| `Masks.MaskOfPivot` | fuel_trims.py:73-75 | a bin is shown iff it has samples, at least `min_samples` of them, and `min_trim <= mean <= max_trim` |
| `Masks.SharedCountGridSameMask` | fuel_trims.py:146-149 | taking the STFT count grid for the LTFT mask gives the same mask as LTFT's own counts |
| `Masks.LooserThresholdsShowMore` | fuel_trims.py:74-75 | a lower `min_samples` or a wider trim range never hides a shown cell |
| `Masks.UnionShowsBoth` | fuel_trims.py:150 | the union shows every cell either mask shows |
| `TimeSeries.Project` | fuel_trims.py:111-118 | the three traces are as long as the filtered frame |
| `TimeSeries.SeriesOfSurvivors` | fuel_trims.py:111-118 | point k of the STFT and LTFT traces is the k-th surviving row's value, and the third trace is their sum |
| `Pipeline.BuildHeatmaps` | fuel_trims.py:130-150 | the STFT, LTFT and combined views (`SignalOf`) give one grid and its mask, with no empty cell and a mask over the grid's cells; the side-by-side view gives two grids and masks, both masks over the STFT count grid's cells, and a combined mask shown iff either is; what each mask shows is stated by `SingleViewShown` and `SideBySideCombinedShown` |
| `Pipeline.Process` | fuel_trims.py:46-161 | a mapping table without `original` or `new` stops the run with `MissingMappingColumns`; a run succeeds only when the mapping is accepted and the renamed header holds every required column; a `ColumnsNotFound` error names at least one column; the output has two grids iff the view is side by side, and its time series is never longer than the log; a refused mapping yields only its error (`RejectedMappingStops`) |
| `Pipeline.Run` | fuel_trims.py:46-150 | equals the run as a function of the old header and rows; leaves the frame untouched when the mapping is refused, otherwise renames it in place |
| `Pipeline.SingleViewShown` | fuel_trims.py:130-136 | in a single-grid view a bin is shown iff it has at least `min_samples` samples and the mean of the selected signal is in range |
| `Pipeline.SideBySideCombinedShown` | fuel_trims.py:143-151 | in the side-by-side view the STFT heatmap shows a bin iff it has at least `min_samples` samples and its mean STFT is in range, the LTFT heatmap likewise for the mean LTFT with the STFT count, and the count heatmap shows a bin iff it has at least `min_samples` samples and the mean STFT or the mean LTFT is in range |
| `Pipeline.RejectedMappingStops` | fuel_trims.py:46-54 | a refused mapping yields only its error: no grid, no mask |
| `Scenarios.FiveSteadyRows` | fuel_trims.py:57-75 | five rows at 1000 RPM and 500 mbar give one cell (500, 1000) with count 5 and mean TotalTrim 3, shown iff `min_samples <= 5` |
| `Scenarios.NoNewColumnRefused` | fuel_trims.py:46-48 | a mapping table without `new` is refused with `MissingMappingColumns` |
| `Scenarios.LtftUnmappedRefused` | fuel_trims.py:50-54 | a mapping covering MAP_mbar, RPM and STFT only is refused with `["LTFT"]` missing |

## Left out

- Page setup, sidebar widgets, file uploaders, the update button, messages and `st.stop()` (lines 1-40, 130-131, 139-141, 153-165): user interface. The widget values enter as `Config`, restricted to the widgets' ranges; the grids are built whether or not the button was pressed.
- `pd.read_csv` and the parsing of cells (lines 43-44): a log cell is modelled as a number or absent. A required column holding text, which makes the `> 0` comparison at line 58, the `STFT + LTFT` sum at line 62 or the mean at line 133 or 144-145 raise, is not modelled.
- Mapping cells are strings; an empty mapping cell (read as NaN) is not modelled.
- Plotly figures and label formatting (lines 77-89, 95-107, 112-127): rendering only.
- `except Exception` (lines 167-168): the core raises KeyError at line 57 when the renamed log lacks a required column (modelled as `ColumnsNotFound`), TypeError on text columns at lines 58, 62 and 133 or 144-145, and ValueError on duplicate required headers in lines 58-62 (at 62 for STFT or LTFT); only the first is modelled.
- Two headers renamed to the same required field: the column lookup takes the first one, where the source fails in lines 58-62; pandas' duplicate-column behaviour is not modelled.
- Floating point: signals and readings are `real`, so means and sums are exact.
- The dense, NaN-padded layout of `pivot_table`: grids and masks are sparse maps, and a key the mask does not hold counts as not shown, as NaN compares false.
