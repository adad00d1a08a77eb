/** The first dashboard: one age slider and nothing else. The slider
    defaults to the table's own `(min age, max age)`, the boolean mask keeps
    the rows with an age in the chosen range, and an empty result gives the
    warning instead of the two charts. */
module App20 {
  import opened Seqs
  import opened Frames
  import opened Pipeline

  /** `main` from the slider on: the slider bounds come from `age.max()`
      and `age.min()`, then the mask, then the empty check. */
  function Dashboard(raw: Frame, ages: Option<(int, int)>): Outcome {
    if raw.entries == [] then Raised(NoAgeData)
    else
      var (lo, hi) := SliderRange(raw, ages);
      Report(raw, Ok(AgeMask(raw, lo, hi)))
  }

  /** Without rows there are no slider bounds; otherwise nothing raises before the charts,
      the charts compare the untouched raw table with exactly its rows in
      the inclusive range, in order and with their labels, and the warning
      comes exactly when no row is in range. */
  lemma DashboardSelects(raw: Frame, ages: Option<(int, int)>)
    requires WellFormed(raw)
    ensures raw.entries == [] <==> Dashboard(raw, ages) == Raised(NoAgeData)
    ensures raw.entries != [] ==>
      var (lo, hi) := SliderRange(raw, ages);
      var o := Dashboard(raw, ages);
      && !o.Raised?
      && (o.Warned? <==> forall k :: 0 <= k < |raw.entries| ==> !(lo <= raw.entries[k].row.age <= hi))
      && (o.Shown? ==>
            && o.raw == raw
            && Rows(o.filtered) == Filter(Rows(raw), InAgeRange(lo, hi))
            && IsSubseq(o.filtered.entries, raw.entries)
            && forall k :: 0 <= k < |o.filtered.entries| ==> lo <= o.filtered.entries[k].row.age <= hi)
  {
    if raw.entries != [] {
      var (lo, hi) := SliderRange(raw, ages);
      AgeMaskSelects(raw, lo, hi);
      FilterEmptyIff(raw.entries, OnRow(InAgeRange(lo, hi)));
    }
  }

  /** At the default slider value no row is dropped: the charts compare the
      raw table with itself. */
  lemma DefaultShowsRaw(raw: Frame)
    requires raw.entries != []
    ensures Dashboard(raw, None) == Shown(raw, raw)
  {
    FullAgeRangeKeepsAll(raw);
  }
}
