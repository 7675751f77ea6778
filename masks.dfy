/** The validity mask of a heatmap and the union of two masks in the
    side-by-side view (fuel_trims.py lines 73-75 and 150). */
module Masks {
  import opened Records
  import opened Aggregation

  /** A boolean grid over bin keys. */
  type Mask = map<BinKey, bool>

  /** The mask shows the cell at `k`. A key the mask does not hold is not
      shown, as a NaN cell of the dense pivot compares false. */
  predicate Shown(m: Mask, k: BinKey)
  {
    k in m && m[k]
  }

  /** `(count_df >= min_samples) & (pivot_df >= min_trim) & (pivot_df <= max_trim)`:
      mean from `values`, count from `counts`, both ends of the range
      inclusive. */
  function ValidityMask(values: Grid, counts: Grid, minSamples: int, trimMin: int, trimMax: int): (m: Mask)
    ensures m.Keys == values.Keys + counts.Keys
    ensures forall k :: Shown(m, k) ==> k in values && k in counts && counts[k].count >= minSamples
  {
    map k | k in values.Keys + counts.Keys ::
      && k in values && k in counts
      && counts[k].count >= minSamples
      && trimMin as real <= values[k].mean <= trimMax as real
  }

  /** `mask_stft | mask_ltft`, cell by cell. */
  function Union(a: Mask, b: Mask): (m: Mask)
    ensures m.Keys == a.Keys + b.Keys
    ensures forall k :: Shown(m, k) <==> Shown(a, k) || Shown(b, k)
  {
    map k | k in a.Keys + b.Keys :: Shown(a, k) || Shown(b, k)
  }

  /** The mask of a signal's own pivot, in terms of the samples: a bin is
      shown iff at least `minSamples` samples fall in it (and at least one)
      and the mean of their values lies in [trimMin, trimMax]. */
  lemma MaskOfPivot(samples: seq<Sample>, sig: Signal, minSamples: int, trimMin: int, trimMax: int, k: BinKey)
    ensures var g := PivotGrid(samples, sig);
      var vs := BinValues(samples, k, sig);
      Shown(ValidityMask(g, g, minSamples, trimMin, trimMax), k) <==>
        |vs| > 0 && |vs| >= minSamples && trimMin as real <= Mean(vs) <= trimMax as real
  {
    PivotCell(samples, sig, k);
    BinValuesPresent(samples, k, sig);
  }

  /** Taking the count grid of another signal over the same samples gives
      the same mask as taking the signal's own counts. */
  lemma SharedCountGridSameMask(samples: seq<Sample>, sig: Signal, other: Signal, minSamples: int, trimMin: int, trimMax: int)
    ensures var g := PivotGrid(samples, sig);
      ValidityMask(g, PivotGrid(samples, other), minSamples, trimMin, trimMax) ==
      ValidityMask(g, g, minSamples, trimMin, trimMax)
  {
    PivotCountsAgree(samples, sig, other);
  }

  /** Loosening the thresholds never hides a shown cell. */
  lemma LooserThresholdsShowMore(values: Grid, counts: Grid, minSamples: int, trimMin: int, trimMax: int,
                                 minSamples': int, trimMin': int, trimMax': int, k: BinKey)
    requires minSamples' <= minSamples && trimMin' <= trimMin && trimMax <= trimMax'
    requires Shown(ValidityMask(values, counts, minSamples, trimMin, trimMax), k)
    ensures Shown(ValidityMask(values, counts, minSamples', trimMin', trimMax'), k)
  {
  }

  /** The union shows everything either mask shows. */
  lemma UnionShowsBoth(a: Mask, b: Mask, k: BinKey)
    ensures Shown(a, k) ==> Shown(Union(a, b), k)
    ensures Shown(b, k) ==> Shown(Union(a, b), k)
  {
  }
}
