/** The time-series projection of the filtered samples
    (fuel_trims.py lines 111-118). */
module TimeSeries {
  import opened Wrappers
  import opened Records

  /** The three traces, indexed by sample position after filtering. */
  datatype Series = Series(stft: seq<real>, ltft: seq<real>, total: seq<real>)

  function Project(samples: seq<Sample>): (ts: Series)
    ensures |ts.stft| == |samples| && |ts.ltft| == |samples| && |ts.total| == |samples|
  {
    Series(seq(|samples|, i requires 0 <= i < |samples| => samples[i].stft),
           seq(|samples|, i requires 0 <= i < |samples| => samples[i].ltft),
           seq(|samples|, i requires 0 <= i < |samples| => samples[i].totalTrim))
  }

  /** Point k of each trace comes from the k-th surviving row of the log,
      and the third trace is the sum of the first two. */
  lemma SeriesOfSurvivors(rows: seq<Row>, l: Layout, rpmBinSize: int, mapBinSize: int)
    requires rpmBinSize > 0 && mapBinSize > 0
    ensures var ts := Project(Prepared(rows, l, rpmBinSize, mapBinSize));
      var ks := KeptIndices(rows, l);
      && |ts.stft| == |ks|
      && forall k :: 0 <= k < |ks| ==>
        && At(rows[ks[k]], l.stftCol) == Some(ts.stft[k])
        && At(rows[ks[k]], l.ltftCol) == Some(ts.ltft[k])
        && ts.total[k] == ts.stft[k] + ts.ltft[k]
  {
    PreparedFromKeptRows(rows, l, rpmBinSize, mapBinSize);
  }
}
