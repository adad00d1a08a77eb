/** The second dashboard: the age slider and a job multiselect without the
    "all" sentinel. The job list defaults to every distinct job, and the job
    stage is a plain `isin` selection followed by `reset_index(drop=True)`. */
module App21 {
  import opened Seqs
  import opened Frames
  import opened Pipeline

  /** `bank.job.unique().tolist()`: the options, and the default selection. */
  function JobList(f: Frame): (jobs: seq<string>)
    requires WellFormed(f) && "job" in f.columns
    ensures NoDup(jobs)
    ensures forall k :: 0 <= k < |f.entries| ==> f.entries[k].row.cells["job"] in jobs
    ensures forall j :: 0 <= j < |jobs| ==> jobs[j] in Column(f, "job")
  {
    assert forall k :: 0 <= k < |f.entries| ==> Column(f, "job")[k] == f.entries[k].row.cells["job"];
    Unique(Column(f, "job"))
  }

  /** `main` from the slider on: slider bounds, job list, the age mask, the
      job stage, then the empty check. */
  function Dashboard(raw: Frame, ages: Option<(int, int)>, jobs: Option<seq<string>>): Outcome
    requires WellFormed(raw)
  {
    if raw.entries == [] then Raised(NoAgeData)
    else if "job" !in raw.columns then Raised(MissingColumn("job"))
    else
      var (lo, hi) := SliderRange(raw, ages);
      var jobsSelected := Picked(jobs, JobList(raw));
      Report(raw, IsIn(AgeMask(raw, lo, hi), "job", jobsSelected))
  }

  /** A row is kept when its age is in the inclusive range and its job is
      selected. */
  function Keeps(lo: int, hi: int, jobsSelected: seq<string>): Row -> bool {
    And(InAgeRange(lo, hi), ValueIn("job", jobsSelected))
  }

  /** On a table with rows and a job column nothing raises before the charts; they
      compare the untouched raw table with exactly its rows that meet both
      conditions, in order and renumbered from 0; the warning comes exactly
      when no row meets both. */
  lemma DashboardSelects(raw: Frame, ages: Option<(int, int)>, jobs: Option<seq<string>>)
    requires WellFormed(raw) && raw.entries != [] && "job" in raw.columns
    ensures var (lo, hi) := SliderRange(raw, ages);
      var o := Dashboard(raw, ages, jobs);
      var rows := Filter(Rows(raw), Keeps(lo, hi, Picked(jobs, JobList(raw))));
      && !o.Raised?
      && (o.Warned? <==> rows == [])
      && (o.Shown? ==>
            && o.raw == raw
            && Rows(o.filtered) == rows
            && IsSubseq(Rows(o.filtered), Rows(raw))
            && Renumbered(o.filtered))
  {
    var (lo, hi) := SliderRange(raw, ages);
    var sel := Picked(jobs, JobList(raw));
    var a := AgeMask(raw, lo, hi);
    AgeMaskSelects(raw, lo, hi);
    IsInSelects(a, "job", sel);
    FilterFilter(Rows(raw), InAgeRange(lo, hi), ValueIn("job", sel));
    FilterSelects(Rows(raw), Keeps(lo, hi, sel));
    var g := IsIn(a, "job", sel).value;
    assert |Rows(g)| == |g.entries|;
  }

  /** Missing rows and a missing job column raise, in that order. */
  lemma DashboardRaises(raw: Frame, ages: Option<(int, int)>, jobs: Option<seq<string>>)
    requires WellFormed(raw)
    ensures Dashboard(raw, ages, jobs).Raised? <==> raw.entries == [] || "job" !in raw.columns
    ensures raw.entries == [] ==> Dashboard(raw, ages, jobs) == Raised(NoAgeData)
  {
  }

  /** At the defaults (full age range, every job selected) no row is
      dropped; the job stage only renumbers the labels. */
  lemma DefaultsKeepAll(raw: Frame)
    requires WellFormed(raw) && raw.entries != [] && "job" in raw.columns
    ensures Dashboard(raw, None, None) == Shown(raw, ResetIndex(raw))
  {
    FullAgeRangeKeepsAll(raw);
    var p := OnRow(ValueIn("job", JobList(raw)));
    FilterKeepsAll(raw.entries, p);
  }

  /** An empty job selection keeps no row, so the warning is given. */
  lemma EmptySelectionWarns(raw: Frame, ages: Option<(int, int)>)
    requires WellFormed(raw) && raw.entries != [] && "job" in raw.columns
    ensures Dashboard(raw, ages, Some([])) == Warned
  {
    var (lo, hi) := SliderRange(raw, ages);
    FilterEmptyIff(AgeMask(raw, lo, hi).entries, OnRow(ValueIn("job", [])));
  }
}
