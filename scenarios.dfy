/** Worked runs of the pipeline on small logs. */
module Scenarios {
  import opened Wrappers
  import opened Schema
  import opened Binning
  import opened Records
  import opened Aggregation
  import opened Masks
  import opened TimeSeries
  import opened Pipeline

  /** A mapping table that maps each required field onto itself. */
  const IdentityTable := MappingTable(map["original" := RequiredColumns, "new" := RequiredColumns])

  /** A log row with MAP 500 mbar, 1000 RPM, STFT 2 and LTFT 1. */
  const SteadyRow: Row := [Some(500.0), Some(1000.0), Some(2.0), Some(1.0)]

  lemma IdentityResolves()
    ensures ResolveMapping(IdentityTable).Success?
    ensures RenameColumns(RequiredColumns, ResolveMapping(IdentityTable).value) == RequiredColumns
  {
    var req := RequiredColumns;
    var ps := Zip(req, req);
    assert |ps| == 4;
    var m := DictOf(ps);
    assert m == ColumnMapping(IdentityTable);
    forall i | 0 <= i < 4
      ensures req[i] in m && m[req[i]] == req[i]
    {
      assert ps[i] == (req[i], req[i]);
      DictOfLastWins(ps, i);
    }
    forall f | f in req
      ensures f in m.Values
    {
      var i :| 0 <= i < 4 && req[i] == f;
      assert m[req[i]] == f;
    }
    ResolveSucceeds(IdentityTable);
    var renamed := RenameColumns(req, m);
    assert renamed == req;
  }

  /** Five steady rows. */
  const SteadyLog: seq<Row> := [SteadyRow, SteadyRow, SteadyRow, SteadyRow, SteadyRow]

  /** The steady sample every row of the scenario becomes. */
  const SteadySample := Sample(500.0, 1000.0, 2.0, 1.0, 1000, 500, 3.0)

  const SteadySamples: seq<Sample> := [SteadySample, SteadySample, SteadySample, SteadySample, SteadySample]

  lemma FiveRowsPrepared()
    ensures Prepared(SteadyLog, Layout(0, 1, 2, 3), 500, 50) == SteadySamples
  {
    var rows := SteadyLog;
    var l := Layout(0, 1, 2, 3);
    var s := SteadySample;
    BinOnBoundary(2, 500);
    BinOnBoundary(10, 50);
    assert ToSample(SteadyRow, l, 500, 50) == s;
    assert Prepared(rows[..1], l, 500, 50) == [s] by { assert rows[..1][..0] == []; }
    assert Prepared(rows[..2], l, 500, 50) == [s, s] by { assert rows[..2][..1] == rows[..1]; }
    assert Prepared(rows[..3], l, 500, 50) == [s, s, s] by { assert rows[..3][..2] == rows[..2]; }
    assert Prepared(rows[..4], l, 500, 50) == [s, s, s, s] by { assert rows[..4][..3] == rows[..3]; }
    assert Prepared(rows, l, 500, 50) == [s, s, s, s, s] by { assert rows[..4] == rows[..|rows| - 1]; }
  }

  lemma FiveSamplesPivot()
    ensures PivotGrid(SteadySamples, TotalTrim) == map[(500, 1000) := Cell(3.0, 5)]
  {
    var samples := SteadySamples;
    assert Totals(samples[..1], TotalTrim) == map[(500, 1000) := Acc(3.0, 1)] by { assert samples[..1][..0] == []; }
    assert Totals(samples[..2], TotalTrim) == map[(500, 1000) := Acc(6.0, 2)] by { assert samples[..2][..1] == samples[..1]; }
    assert Totals(samples[..3], TotalTrim) == map[(500, 1000) := Acc(9.0, 3)] by { assert samples[..3][..2] == samples[..2]; }
    assert Totals(samples[..4], TotalTrim) == map[(500, 1000) := Acc(12.0, 4)] by { assert samples[..4][..3] == samples[..3]; }
    assert Totals(samples, TotalTrim) == map[(500, 1000) := Acc(15.0, 5)] by { assert samples[..4] == samples[..|samples| - 1]; }
  }

  /** The run on five steady rows reduces to the heatmaps of five steady
      samples. */
  lemma FiveSteadyRowsRun(cfg: Config)
    requires ValidConfig(cfg) && cfg.rpmBinSize == 500 && cfg.mapBinSize == 50
    ensures var samples := SteadySamples;
      Process(IdentityTable, RequiredColumns, SteadyLog, cfg, Combined)
        == Success(Output(BuildHeatmaps(samples, cfg, Combined), Project(samples)))
  {
    IdentityResolves();
    var m := ResolveMapping(IdentityTable).value;
    var renamed := RenameColumns(RequiredColumns, m);
    assert CoversRequired(renamed);
    assert LayoutOf(renamed) == Layout(0, 1, 2, 3);
    FiveRowsPrepared();
  }

  /** Five identical rows at 1000 RPM and 500 mbar with 500 RPM and 50 mbar
      bins in the combined view: one cell at (MAP_bin 500, RPM_bin 1000)
      with five samples and mean TotalTrim 3, shown iff the minimum sample
      count is at most 5. */
  lemma FiveSteadyRows(minSamples: int)
    requires 1 <= minSamples <= 50
    ensures var r := Process(IdentityTable, RequiredColumns, SteadyLog, Config(500, 50, minSamples, -50, 50), Combined);
      && r.Success?
      && r.value.heatmaps.grid == map[(500, 1000) := Cell(3.0, 5)]
      && (Shown(r.value.heatmaps.mask, (500, 1000)) <==> minSamples <= 5)
  {
    var cfg := Config(500, 50, minSamples, -50, 50);
    var r := Process(IdentityTable, RequiredColumns, SteadyLog, cfg, Combined);
    var samples := SteadySamples;
    var h := BuildHeatmaps(samples, cfg, Combined);
    FiveSteadyRowsRun(cfg);
    assert r == Success(Output(h, Project(samples)));
    var g := PivotGrid(samples, TotalTrim);
    CombinedViewHeatmaps(samples, cfg);
    FiveSamplesPivot();
    assert h.grid == map[(500, 1000) := Cell(3.0, 5)];
    SteadyCellMask(cfg);
  }

  /** The combined view pivots TotalTrim and masks it with its own counts. */
  lemma CombinedViewHeatmaps(samples: seq<Sample>, cfg: Config)
    ensures var g := PivotGrid(samples, TotalTrim);
      BuildHeatmaps(samples, cfg, Combined) == Single(g, MaskOf(g, g, cfg))
  {
  }

  /** The mask of the single steady cell. */
  lemma SteadyCellMask(cfg: Config)
    requires cfg.trimMin == -50 && cfg.trimMax == 50
    ensures var g := map[(500, 1000) := Cell(3.0, 5)];
      Shown(MaskOf(g, g, cfg), (500, 1000)) <==> cfg.minSamples <= 5
  {
  }

  /** A mapping table without a `new` column is refused before anything
      else happens. */
  lemma NoNewColumnRefused(original: seq<string>, cols: seq<string>, rows: seq<Row>, cfg: Config, mode: Mode)
    requires ValidConfig(cfg)
    ensures Process(MappingTable(map["original" := original]), cols, rows, cfg, mode)
      == Failure(MappingRejected(MissingMappingColumns))
  {
  }

  /** A mapping table that covers MAP_mbar, RPM and STFT but not LTFT. */
  const LtftlessTable := MappingTable(map[
    "original" := ["Boost", "Engine Speed", "Short Trim"],
    "new" := ["MAP_mbar", "RPM", "STFT"]])

  lemma LtftlessMapping()
    ensures HasMappingColumns(LtftlessTable)
    ensures ColumnMapping(LtftlessTable) == map["Boost" := "MAP_mbar", "Engine Speed" := "RPM", "Short Trim" := "STFT"]
  {
    var t := LtftlessTable;
    var ps := Zip(t.columns["original"], t.columns["new"]);
    assert ps == [("Boost", "MAP_mbar"), ("Engine Speed", "RPM"), ("Short Trim", "STFT")];
    assert DictOf(ps[..1]) == map["Boost" := "MAP_mbar"] by { assert ps[..1][..0] == []; }
    assert DictOf(ps[..2]) == map["Boost" := "MAP_mbar", "Engine Speed" := "RPM"] by { assert ps[..2][..1] == ps[..1]; }
    assert ps[..2] == ps[..|ps| - 1];
  }

  /** That mapping is refused with exactly LTFT reported missing. */
  lemma LtftUnmappedRefused()
    ensures ResolveMapping(LtftlessTable) == Failure(MissingRequiredFields(["LTFT"]))
  {
    LtftlessMapping();
    var m := ColumnMapping(LtftlessTable);
    assert m["Boost"] == "MAP_mbar" && m["Engine Speed"] == "RPM" && m["Short Trim"] == "STFT";
    assert "LTFT" !in m.Values by {
      forall k | k in m
        ensures m[k] != "LTFT"
      {
      }
    }
    var req := RequiredColumns;
    assert Absent(req[3..], m.Values) == ["LTFT"];
    assert Absent(req[2..], m.Values) == ["LTFT"] by { assert req[2..][1..] == req[3..]; }
    assert Absent(req[1..], m.Values) == ["LTFT"] by { assert req[1..][1..] == req[2..]; }
  }
}
