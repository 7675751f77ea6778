/** One run of the tool: resolve the mapping, rename the log in place,
    filter and bin the rows, then build the heatmap grids and masks of the
    selected view and the time series (fuel_trims.py lines 46-62, 64-71 and
    130-161). */
module Pipeline {
  import opened Wrappers
  import opened Schema
  import opened Records
  import opened Aggregation
  import opened Masks
  import opened TimeSeries

  /** The four entries of the heatmap view selector. */
  datatype Mode = ShortTerm | LongTerm | Combined | SideBySide

  /** The sidebar settings. */
  datatype Config = Config(rpmBinSize: int, mapBinSize: int, minSamples: int, trimMin: int, trimMax: int)

  /** The values the sidebar widgets can produce. */
  predicate ValidConfig(c: Config)
  {
    && c.rpmBinSize in {250, 500, 1000}
    && c.mapBinSize in {25, 50, 100}
    && 1 <= c.minSamples <= 50
    && -50 <= c.trimMin <= c.trimMax <= 50
  }

  datatype PipelineError =
    | MappingRejected(reason: SchemaError)      // processing stops before the rename
    | ColumnsNotFound(fields: seq<string>)      // the renamed log lacks required columns

  /** What the update renders: one grid and mask, or the two side-by-side
      grids, their masks and the combined mask of the count heatmap. */
  datatype Heatmaps =
    | Single(grid: Grid, mask: Mask)
    | Pair(stftGrid: Grid, ltftGrid: Grid, stftMask: Mask, ltftMask: Mask, combined: Mask)

  datatype Output = Output(heatmaps: Heatmaps, series: Series)

  /** The column each single-grid view averages. */
  function SignalOf(mode: Mode): Signal
    requires mode != SideBySide
  {
    match mode
    case ShortTerm => STFT
    case LongTerm => LTFT
    case Combined => TotalTrim
  }

  function MaskOf(values: Grid, counts: Grid, cfg: Config): Mask
  {
    ValidityMask(values, counts, cfg.minSamples, cfg.trimMin, cfg.trimMax)
  }

  /** The grids and masks of the selected view. In the side-by-side view
      both masks take their counts from the STFT pivot. */
  function BuildHeatmaps(samples: seq<Sample>, cfg: Config, mode: Mode): (h: Heatmaps)
    ensures h.Pair? <==> mode == SideBySide
    ensures h.Single? ==> h.mask.Keys == h.grid.Keys
    ensures h.Single? ==> forall k :: k in h.grid ==> h.grid[k].count >= 1
    ensures h.Pair? ==> h.stftMask.Keys == h.stftGrid.Keys && h.ltftMask.Keys == h.stftGrid.Keys
    ensures h.Pair? ==> forall k :: Shown(h.combined, k) <==> Shown(h.stftMask, k) || Shown(h.ltftMask, k)
  {
    if mode == SideBySide then
      var gs, gl := PivotGrid(samples, STFT), PivotGrid(samples, LTFT);
      PivotCountsAgree(samples, STFT, LTFT);
      var ms, ml := MaskOf(gs, gs, cfg), MaskOf(gl, gs, cfg);
      Pair(gs, gl, ms, ml, Union(ms, ml))
    else
      var g := PivotGrid(samples, SignalOf(mode));
      Single(g, MaskOf(g, g, cfg))
  }

  /** The whole run as a function of the inputs. */
  function Process(t: MappingTable, cols: seq<string>, rows: seq<Row>, cfg: Config, mode: Mode)
    : (r: Result<Output, PipelineError>)
    requires ValidConfig(cfg)
    ensures !HasMappingColumns(t) ==> r == Failure(MappingRejected(MissingMappingColumns))
    ensures r.Success? ==>
      && ResolveMapping(t).Success?
      && CoversRequired(RenameColumns(cols, ResolveMapping(t).value))
    ensures r.Failure? && r.error.ColumnsNotFound? ==> r.error.fields != []
    ensures r.Success? ==> (r.value.heatmaps.Pair? <==> mode == SideBySide)
    ensures r.Success? ==> |r.value.series.stft| <= |rows|
  {
    match ResolveMapping(t)
    case Failure(e) => Failure(MappingRejected(e))
    case Success(m) =>
      var renamed := RenameColumns(cols, m);
      if !CoversRequired(renamed) then
        Failure(ColumnsNotFound(Absent(RequiredColumns, set c | c in renamed)))
      else
        var samples := Prepared(rows, LayoutOf(renamed), cfg.rpmBinSize, cfg.mapBinSize);
        Success(Output(BuildHeatmaps(samples, cfg, mode), Project(samples)))
  }

  /** Runs the tool on a log frame, renaming its headers in place once the
      mapping is accepted and leaving it untouched otherwise. */
  method Run(frame: LogFrame, t: MappingTable, cfg: Config, mode: Mode)
    returns (r: Result<Output, PipelineError>)
    requires frame.Valid() && ValidConfig(cfg)
    modifies frame
    ensures frame.Valid() && frame.rows == old(frame.rows)
    ensures r == Process(t, old(frame.columns), old(frame.rows), cfg, mode)
    ensures ResolveMapping(t).Failure? ==> frame.columns == old(frame.columns)
    ensures ResolveMapping(t).Success? ==>
      frame.columns == RenameColumns(old(frame.columns), ResolveMapping(t).value)
  {
    var resolved := ResolveMapping(t);
    if resolved.Failure? {
      return Failure(MappingRejected(resolved.error));
    }
    frame.Rename(resolved.value);
    var prepared := PrepareSamples(frame.columns, frame.rows, cfg.rpmBinSize, cfg.mapBinSize);
    if prepared.Failure? {
      return Failure(ColumnsNotFound(prepared.error));
    }
    var samples := prepared.value;
    r := Success(Output(BuildHeatmaps(samples, cfg, mode), Project(samples)));
  }

  /** In a single-grid view a bin is shown iff enough samples fall in it and
      the mean of the selected signal over them is in range. */
  lemma SingleViewShown(samples: seq<Sample>, cfg: Config, mode: Mode, k: BinKey)
    requires mode != SideBySide
    ensures var vs := BinValues(samples, k, SignalOf(mode));
      Shown(BuildHeatmaps(samples, cfg, mode).mask, k) <==>
        |vs| > 0 && |vs| >= cfg.minSamples && cfg.trimMin as real <= Mean(vs) <= cfg.trimMax as real
  {
    MaskOfPivot(samples, SignalOf(mode), cfg.minSamples, cfg.trimMin, cfg.trimMax, k);
  }

  /** In the side-by-side view the STFT and LTFT heatmaps each show a bin iff
      enough samples fall in it and that signal's mean over them is in range;
      the count heatmap shows it iff either of them does. */
  lemma SideBySideCombinedShown(samples: seq<Sample>, cfg: Config, k: BinKey)
    ensures var vs, vl := BinValues(samples, k, STFT), BinValues(samples, k, LTFT);
      var lo, hi := cfg.trimMin as real, cfg.trimMax as real;
      Shown(BuildHeatmaps(samples, cfg, SideBySide).combined, k) <==>
        && |vs| > 0 && |vs| >= cfg.minSamples
        && |vl| == |vs|
        && ((lo <= Mean(vs) <= hi) || (lo <= Mean(vl) <= hi))
    ensures var vs, vl := BinValues(samples, k, STFT), BinValues(samples, k, LTFT);
      var lo, hi := cfg.trimMin as real, cfg.trimMax as real;
      Shown(BuildHeatmaps(samples, cfg, SideBySide).stftMask, k) <==>
        |vs| > 0 && |vs| >= cfg.minSamples && lo <= Mean(vs) <= hi
    ensures var vs, vl := BinValues(samples, k, STFT), BinValues(samples, k, LTFT);
      var lo, hi := cfg.trimMin as real, cfg.trimMax as real;
      Shown(BuildHeatmaps(samples, cfg, SideBySide).ltftMask, k) <==>
        |vl| > 0 && |vs| >= cfg.minSamples && lo <= Mean(vl) <= hi
  {
    var gs := PivotGrid(samples, STFT);
    SharedCountGridSameMask(samples, LTFT, STFT, cfg.minSamples, cfg.trimMin, cfg.trimMax);
    MaskOfPivot(samples, STFT, cfg.minSamples, cfg.trimMin, cfg.trimMax, k);
    MaskOfPivot(samples, LTFT, cfg.minSamples, cfg.trimMin, cfg.trimMax, k);
    BinSizeIndependentOfSignal(samples, k, STFT, LTFT);
  }

  /** A rejected mapping yields an error and neither grid nor mask. */
  lemma RejectedMappingStops(t: MappingTable, cols: seq<string>, rows: seq<Row>, cfg: Config, mode: Mode)
    requires ValidConfig(cfg)
    requires ResolveMapping(t).Failure?
    ensures Process(t, cols, rows, cfg, mode) == Failure(MappingRejected(ResolveMapping(t).error))
  {
  }
}
