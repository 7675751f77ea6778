/** The pivot of the filtered samples into a sparse (MAP_bin, RPM_bin)
    grid of mean and count of one signal (fuel_trims.py lines 133-134 and
    144-146). */
module Aggregation {
  import opened Records

  /** The column the pivot averages. */
  datatype Signal = STFT | LTFT | TotalTrim

  function Value(s: Sample, sig: Signal): real
  {
    match sig
    case STFT => s.stft
    case LTFT => s.ltft
    case TotalTrim => s.totalTrim
  }

  /** A grid key: (MAP_bin, RPM_bin), the pivot's row index and column. */
  type BinKey = (int, int)

  function KeyOf(s: Sample): BinKey
  {
    (s.mapBin, s.rpmBin)
  }

  /** One present grid cell: `aggfunc='mean'` and `aggfunc='count'`. */
  datatype Cell = Cell(mean: real, count: nat)

  /** The sparse grid: bins without samples have no entry. */
  type Grid = map<BinKey, Cell>

  /** Running sum and count of one group. */
  datatype Acc = Acc(sum: real, count: nat)

  /** Group-by accumulation over the samples in order. */
  function Totals(samples: seq<Sample>, sig: Signal): (t: map<BinKey, Acc>)
    ensures forall k :: k in t ==> t[k].count >= 1
  {
    if samples == [] then map[]
    else
      var t0 := Totals(samples[..|samples| - 1], sig);
      var last := samples[|samples| - 1];
      var k := KeyOf(last);
      var prev := if k in t0 then t0[k] else Acc(0.0, 0);
      t0[k := Acc(prev.sum + Value(last, sig), prev.count + 1)]
  }

  /** `pivot_table(index='MAP_bin', columns='RPM_bin', values=sig)` with
      both aggregations; no cell is ever empty. */
  function PivotGrid(samples: seq<Sample>, sig: Signal): (g: Grid)
    ensures forall k :: k in g ==> g[k].count >= 1
  {
    var t := Totals(samples, sig);
    map k | k in t :: Cell(t[k].sum / t[k].count as real, t[k].count)
  }

  /** The values of `sig` over the samples that fall in bin `k`, in order. */
  function BinValues(samples: seq<Sample>, k: BinKey, sig: Signal): seq<real>
  {
    if samples == [] then []
    else
      var init := BinValues(samples[..|samples| - 1], k, sig);
      var last := samples[|samples| - 1];
      if KeyOf(last) == k then init + [Value(last, sig)] else init
  }

  function Sum(xs: seq<real>): real
  {
    if xs == [] then 0.0 else Sum(xs[..|xs| - 1]) + xs[|xs| - 1]
  }

  /** The arithmetic mean. */
  function Mean(xs: seq<real>): real
    requires |xs| > 0
  {
    Sum(xs) / |xs| as real
  }

  /** The accumulated sum and count of a bin are the sum and number of the
      values that fall in it. */
  lemma {:induction false} TotalsMatchBinValues(samples: seq<Sample>, sig: Signal, k: BinKey)
    ensures k in Totals(samples, sig) <==> |BinValues(samples, k, sig)| > 0
    ensures k in Totals(samples, sig) ==>
      Totals(samples, sig)[k] == Acc(Sum(BinValues(samples, k, sig)), |BinValues(samples, k, sig)|)
  {
    if samples != [] {
      var init := samples[..|samples| - 1];
      var last := samples[|samples| - 1];
      TotalsMatchBinValues(init, sig, k);
      var t0, t := Totals(init, sig), Totals(samples, sig);
      var vs, vs' := BinValues(init, k, sig), BinValues(samples, k, sig);
      if KeyOf(last) == k {
        var prev := if k in t0 then t0[k] else Acc(0.0, 0);
        assert prev == Acc(Sum(vs), |vs|);
        assert t[k] == Acc(prev.sum + Value(last, sig), prev.count + 1);
        assert vs' == vs + [Value(last, sig)];
        assert vs'[..|vs'| - 1] == vs;
        assert Sum(vs') == Sum(vs) + Value(last, sig);
      } else {
        assert t == t0[KeyOf(last) := t[KeyOf(last)]];
        assert vs' == vs;
      }
    }
  }

  /** A bin has samples iff some sample carries its key. */
  lemma {:induction false} BinValuesPresent(samples: seq<Sample>, k: BinKey, sig: Signal)
    ensures |BinValues(samples, k, sig)| > 0 <==> exists i :: 0 <= i < |samples| && KeyOf(samples[i]) == k
  {
    if samples != [] {
      var n := |samples| - 1;
      var init := samples[..n];
      BinValuesPresent(init, k, sig);
      if exists i :: 0 <= i < |samples| && KeyOf(samples[i]) == k {
        var i :| 0 <= i < |samples| && KeyOf(samples[i]) == k;
        if i < n {
          assert KeyOf(init[i]) == k;
        }
      }
      if exists i :: 0 <= i < n && KeyOf(init[i]) == k {
        var i :| 0 <= i < n && KeyOf(init[i]) == k;
        assert KeyOf(samples[i]) == k;
      }
    }
  }

  /** How many samples fall in a bin does not depend on the signal. */
  lemma {:induction false} BinSizeIndependentOfSignal(samples: seq<Sample>, k: BinKey, a: Signal, b: Signal)
    ensures |BinValues(samples, k, a)| == |BinValues(samples, k, b)|
  {
    if samples != [] {
      BinSizeIndependentOfSignal(samples[..|samples| - 1], k, a, b);
    }
  }

  /** A cell exists exactly for the bins some sample falls in; its count is
      the number of those samples and its mean the arithmetic mean of their
      values of the signal. */
  lemma PivotCell(samples: seq<Sample>, sig: Signal, k: BinKey)
    ensures k in PivotGrid(samples, sig) <==> exists i :: 0 <= i < |samples| && KeyOf(samples[i]) == k
    ensures k in PivotGrid(samples, sig) ==>
      && |BinValues(samples, k, sig)| > 0
      && PivotGrid(samples, sig)[k].count == |BinValues(samples, k, sig)|
      && PivotGrid(samples, sig)[k].mean == Mean(BinValues(samples, k, sig))
  {
    TotalsMatchBinValues(samples, sig, k);
    BinValuesPresent(samples, k, sig);
  }

  /** The grids of two signals over the same samples have the same cells
      with the same counts, which is why the side-by-side view may take the
      STFT count grid for both. */
  lemma PivotCountsAgree(samples: seq<Sample>, a: Signal, b: Signal)
    ensures PivotGrid(samples, a).Keys == PivotGrid(samples, b).Keys
    ensures forall k :: k in PivotGrid(samples, a) ==>
      PivotGrid(samples, a)[k].count == PivotGrid(samples, b)[k].count
  {
    forall k
      ensures k in PivotGrid(samples, a) <==> k in PivotGrid(samples, b)
      ensures k in PivotGrid(samples, a) ==>
        PivotGrid(samples, a)[k].count == PivotGrid(samples, b)[k].count
    {
      PivotCell(samples, a, k);
      PivotCell(samples, b, k);
      BinSizeIndependentOfSignal(samples, k, a, b);
    }
  }
}
