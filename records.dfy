/** The log table, its in-place rename, and the record filter that drops
    incomplete or non-positive rows and adds the bin and TotalTrim columns
    (fuel_trims.py lines 56-62). */
module Records {
  import opened Wrappers
  import opened Schema
  import opened Binning

  /** One log row: a cell per header, `None` where the cell is empty. */
  type Row = seq<Option<real>>

  /** Cell `i` of a row. The frame keeps its rows as wide as its header,
      so the `None` for a position past the end is never reached from it. */
  function At(row: Row, i: nat): Option<real>
  {
    if i < |row| then row[i] else None
  }

  /** The log frame that `rename(..., inplace=True)` updates. */
  class LogFrame {
    var columns: seq<string>
    var rows: seq<Row>

    /** Every row has one cell per header. */
    ghost predicate Valid()
      reads this
    {
      forall i :: 0 <= i < |rows| ==> |rows[i]| == |columns|
    }

    constructor (columns: seq<string>, rows: seq<Row>)
      requires forall i :: 0 <= i < |rows| ==> |rows[i]| == |columns|
      ensures Valid()
      ensures this.columns == columns && this.rows == rows
    {
      this.columns := columns;
      this.rows := rows;
    }

    /** Renames the headers in place; the cells do not move. */
    method Rename(m: map<string, string>)
      requires Valid()
      modifies this
      ensures Valid()
      ensures columns == RenameColumns(old(columns), m)
      ensures rows == old(rows)
    {
      columns := RenameColumns(columns, m);
    }
  }

  /** Position of the first header called `name` (`df[name]`). */
  function ColumnIndex(cols: seq<string>, name: string): (r: Option<nat>)
    ensures r.None? <==> name !in cols
    ensures r.Some? ==> r.value < |cols| && cols[r.value] == name && name !in cols[..r.value]
  {
    if cols == [] then None
    else if cols[0] == name then Some(0)
    else
      match ColumnIndex(cols[1..], name)
      case None => None
      case Some(j) =>
        assert cols[..j + 1] == [cols[0]] + cols[1..][..j];
        Some(j + 1)
  }

  /** Where the four required fields sit in a row. */
  datatype Layout = Layout(mapCol: nat, rpmCol: nat, stftCol: nat, ltftCol: nat)

  /** Every required field names some header. */
  predicate CoversRequired(cols: seq<string>)
  {
    forall f :: f in RequiredColumns ==> f in cols
  }

  function LayoutOf(cols: seq<string>): (l: Layout)
    requires CoversRequired(cols)
    ensures l.mapCol < |cols| && cols[l.mapCol] == "MAP_mbar"
    ensures l.rpmCol < |cols| && cols[l.rpmCol] == "RPM"
    ensures l.stftCol < |cols| && cols[l.stftCol] == "STFT"
    ensures l.ltftCol < |cols| && cols[l.ltftCol] == "LTFT"
  {
    assert "MAP_mbar" == RequiredColumns[0] && "RPM" == RequiredColumns[1];
    assert "STFT" == RequiredColumns[2] && "LTFT" == RequiredColumns[3];
    Layout(ColumnIndex(cols, "MAP_mbar").value, ColumnIndex(cols, "RPM").value,
           ColumnIndex(cols, "STFT").value, ColumnIndex(cols, "LTFT").value)
  }

  /** A filtered row with the columns the pipeline adds to it. */
  datatype Sample = Sample(
    mapMbar: real, rpm: real, stft: real, ltft: real,
    rpmBin: int, mapBin: int, totalTrim: real)

  /** The row survives `dropna(subset=REQUIRED_COLUMNS)` and the
      `MAP_mbar > 0` and `RPM > 0` filter. */
  predicate Keeps(row: Row, l: Layout)
  {
    && At(row, l.mapCol).Some? && At(row, l.rpmCol).Some?
    && At(row, l.stftCol).Some? && At(row, l.ltftCol).Some?
    && At(row, l.mapCol).value > 0.0 && At(row, l.rpmCol).value > 0.0
  }

  /** A surviving row with RPM_bin, MAP_bin and TotalTrim added. */
  function ToSample(row: Row, l: Layout, rpmBinSize: int, mapBinSize: int): (s: Sample)
    requires Keeps(row, l)
    requires rpmBinSize > 0 && mapBinSize > 0
    ensures At(row, l.mapCol) == Some(s.mapMbar) && At(row, l.rpmCol) == Some(s.rpm)
    ensures At(row, l.stftCol) == Some(s.stft) && At(row, l.ltftCol) == Some(s.ltft)
    ensures s.totalTrim == s.stft + s.ltft
    ensures s.rpmBin >= 0 && s.rpmBin % rpmBinSize == 0
    ensures s.rpmBin as real <= s.rpm < (s.rpmBin + rpmBinSize) as real
    ensures s.mapBin >= 0 && s.mapBin % mapBinSize == 0
    ensures s.mapBin as real <= s.mapMbar < (s.mapBin + mapBinSize) as real
  {
    var m, r := At(row, l.mapCol).value, At(row, l.rpmCol).value;
    var s, t := At(row, l.stftCol).value, At(row, l.ltftCol).value;
    BinOfPositive(r, rpmBinSize);
    BinOfPositive(m, mapBinSize);
    Sample(m, r, s, t, BinOf(r, rpmBinSize), BinOf(m, mapBinSize), s + t)
  }

  /** The filtered and extended frame, as a function of the rows. */
  function Prepared(rows: seq<Row>, l: Layout, rpmBinSize: int, mapBinSize: int): (r: seq<Sample>)
    requires rpmBinSize > 0 && mapBinSize > 0
    ensures |r| <= |rows|
  {
    if rows == [] then []
    else
      var init := Prepared(rows[..|rows| - 1], l, rpmBinSize, mapBinSize);
      var last := rows[|rows| - 1];
      if Keeps(last, l) then init + [ToSample(last, l, rpmBinSize, mapBinSize)] else init
  }

  /** The positions of the surviving rows: increasing, and exactly the
      rows that `Keeps` accepts. */
  function KeptIndices(rows: seq<Row>, l: Layout): (r: seq<nat>)
    ensures forall k :: 0 <= k < |r| ==> r[k] < |rows|
    ensures forall k, j :: 0 <= k < j < |r| ==> r[k] < r[j]
    ensures forall i :: 0 <= i < |rows| ==> (i in r <==> Keeps(rows[i], l))
  {
    if rows == [] then []
    else
      var n := |rows| - 1;
      var init := KeptIndices(rows[..n], l);
      assert forall i :: 0 <= i < n ==> rows[..n][i] == rows[i];
      if Keeps(rows[n], l) then init + [n] else init
  }

  /** Filter soundness, completeness and order: the k-th sample comes from
      the k-th surviving row, and every surviving row yields one. */
  lemma {:induction false} PreparedFromKeptRows(rows: seq<Row>, l: Layout, rpmBinSize: int, mapBinSize: int)
    requires rpmBinSize > 0 && mapBinSize > 0
    ensures |Prepared(rows, l, rpmBinSize, mapBinSize)| == |KeptIndices(rows, l)|
    ensures forall k :: 0 <= k < |KeptIndices(rows, l)| ==>
      Keeps(rows[KeptIndices(rows, l)[k]], l) &&
      Prepared(rows, l, rpmBinSize, mapBinSize)[k] ==
        ToSample(rows[KeptIndices(rows, l)[k]], l, rpmBinSize, mapBinSize)
  {
    if rows != [] {
      var n := |rows| - 1;
      var init := rows[..n];
      PreparedFromKeptRows(init, l, rpmBinSize, mapBinSize);
      var ps, ks := Prepared(init, l, rpmBinSize, mapBinSize), KeptIndices(init, l);
      var ps', ks' := Prepared(rows, l, rpmBinSize, mapBinSize), KeptIndices(rows, l);
      forall k | 0 <= k < |ks'|
        ensures Keeps(rows[ks'[k]], l)
        ensures ps'[k] == ToSample(rows[ks'[k]], l, rpmBinSize, mapBinSize)
      {
        if k < |ks| {
          assert ks'[k] == ks[k] && ps'[k] == ps[k];
          assert init[ks[k]] == rows[ks[k]];
        } else {
          assert ks'[k] == n && ps'[k] == ToSample(rows[n], l, rpmBinSize, mapBinSize);
        }
      }
    }
  }

  /** Every sample is a positive-RPM, positive-MAP reading whose bins follow
      the floor-division rule and whose TotalTrim is STFT + LTFT. */
  lemma {:induction false} PreparedSamplesWellFormed(rows: seq<Row>, l: Layout, rpmBinSize: int, mapBinSize: int)
    requires rpmBinSize > 0 && mapBinSize > 0
    ensures forall s :: s in Prepared(rows, l, rpmBinSize, mapBinSize) ==>
      && s.mapMbar > 0.0 && s.rpm > 0.0
      && s.totalTrim == s.stft + s.ltft
      && s.rpmBin == BinOf(s.rpm, rpmBinSize) && s.mapBin == BinOf(s.mapMbar, mapBinSize)
  {
    if rows != [] {
      PreparedSamplesWellFormed(rows[..|rows| - 1], l, rpmBinSize, mapBinSize);
    }
  }

  /** Drops the rows with a missing required field or a non-positive MAP or
      RPM, keeping their order, and adds RPM_bin, MAP_bin and TotalTrim.
      Fails with the required fields the header lacks, in their declared
      order, as `dropna(subset=...)` does. */
  method PrepareSamples(cols: seq<string>, rows: seq<Row>, rpmBinSize: int, mapBinSize: int)
    returns (r: Result<seq<Sample>, seq<string>>)
    requires rpmBinSize > 0 && mapBinSize > 0
    ensures r.Failure? <==> !CoversRequired(cols)
    ensures r.Failure? ==> r.error == Absent(RequiredColumns, set c | c in cols)
    ensures r.Success? ==> r.value == Prepared(rows, LayoutOf(cols), rpmBinSize, mapBinSize)
  {
    var missing := Absent(RequiredColumns, set c | c in cols);
    if missing != [] {
      assert missing[0] in RequiredColumns && missing[0] !in cols;
      return Failure(missing);
    }
    var l := LayoutOf(cols);
    var out: seq<Sample> := [];
    var i := 0;
    while i < |rows|
      invariant 0 <= i <= |rows|
      invariant out == Prepared(rows[..i], l, rpmBinSize, mapBinSize)
    {
      var row := rows[i];
      var m, rpm := At(row, l.mapCol), At(row, l.rpmCol);
      var stft, ltft := At(row, l.stftCol), At(row, l.ltftCol);
      if m.Some? && rpm.Some? && stft.Some? && ltft.Some? && m.value > 0.0 && rpm.value > 0.0 {
        var rpmBin := BinOf(rpm.value, rpmBinSize);
        var mapBin := BinOf(m.value, mapBinSize);
        out := out + [Sample(m.value, rpm.value, stft.value, ltft.value, rpmBin, mapBin, stft.value + ltft.value)];
      }
      assert rows[..i + 1][..i] == rows[..i];
      i := i + 1;
    }
    assert rows[..|rows|] == rows;
    r := Success(out);
  }
}
