/** The third dashboard: the age slider and a job multiselect whose options
    end with the "all" sentinel. The job stage is `multiselect_filter`,
    which may delete the first "all" from the widget's own list. */
module App22 {
  import opened Seqs
  import opened Frames
  import opened Multiselect
  import opened Stages
  import opened Pipeline

  /** What `main` computes: slider bounds, the job option list, the age
      mask, the job stage, then the empty check. */
  function Outcome22(raw: Frame, ages: Option<(int, int)>, jobs: Option<seq<string>>): Outcome
    requires WellFormed(raw)
  {
    if raw.entries == [] then Raised(NoAgeData)
    else if "job" !in raw.columns then Raised(MissingColumn("job"))
    else
      var (lo, hi) := SliderRange(raw, ages);
      Report(raw, RunStages(AgeMask(raw, lo, hi), ["job"], [Picked(jobs, [All])]))
  }

  /** `main` from the slider on. Besides how the run ends it returns the
      widget's list as `multiselect_filter` leaves it, when the run gets
      that far. */
  method Dashboard(raw: Frame, ages: Option<(int, int)>, jobs: Option<seq<string>>)
    returns (o: Outcome, jobsSelected: Option<seq<string>>)
    requires WellFormed(raw)
    ensures o == Outcome22(raw, ages, jobs)
    ensures raw.entries == [] || "job" !in raw.columns <==> jobsSelected == None
    ensures jobsSelected.Some? ==> jobsSelected.value == Normalize(Picked(jobs, [All]))
  {
    jobsSelected := None;
    var bank := raw;
    if bank.entries == [] {
      o := Raised(NoAgeData);
      return;
    }
    var (lo, hi) := SliderRange(bank, ages);
    if "job" !in bank.columns {
      o := Raised(MissingColumn("job"));
      return;
    }
    var selected := MultiselectWidget(bank, "job", jobs);
    bank := AgeMask(bank, lo, hi);
    AgeMaskSelects(raw, lo, hi);
    var r := MultiselectFilter(bank, "job", selected);
    assert RunStages(bank, ["job"], [Picked(jobs, [All])]) == r;
    o := Report(raw, r);
    jobsSelected := Some(selected.items);
  }

  /** On a table with rows and a job column nothing raises before the charts; they
      compare the untouched raw table with exactly its rows whose age is in
      range and that pass the job stage, in order; the warning comes exactly
      when no row does. */
  lemma DashboardSelects(raw: Frame, ages: Option<(int, int)>, jobs: Option<seq<string>>)
    requires WellFormed(raw) && raw.entries != [] && "job" in raw.columns
    ensures var (lo, hi) := SliderRange(raw, ages);
      var o := Outcome22(raw, ages, jobs);
      var rows := Filter(Rows(raw), And(InAgeRange(lo, hi), StagePred("job", Picked(jobs, [All]))));
      && !o.Raised?
      && (o.Warned? <==> rows == [])
      && (o.Shown? ==> o.raw == raw && Rows(o.filtered) == rows && IsSubseq(Rows(o.filtered), Rows(raw)))
  {
    var (lo, hi) := SliderRange(raw, ages);
    var sel := Picked(jobs, [All]);
    var a := AgeMask(raw, lo, hi);
    AgeMaskSelects(raw, lo, hi);
    RunStagesSelects(a, ["job"], [sel]);
    ConjStep(["job"], [sel]);
    var c := Conj(["job"], [sel]);
    assert c == And(Conj([], []), StagePred("job", sel));
    FilterAgree(Rows(a), c, StagePred("job", sel));
    FilterFilter(Rows(raw), InAgeRange(lo, hi), StagePred("job", sel));
    FilterSelects(Rows(raw), And(InAgeRange(lo, hi), StagePred("job", sel)));
    var g := RunStages(a, ["job"], [sel]).value;
    assert |Rows(g)| == |g.entries|;
  }

  /** With the job list at its default `['all']` and the full age range, the
      charts compare the raw table with itself. */
  lemma DefaultsShowRaw(raw: Frame)
    requires WellFormed(raw) && raw.entries != [] && "job" in raw.columns
    ensures Outcome22(raw, None, None) == Shown(raw, raw)
  {
    FullAgeRangeKeepsAll(raw);
    DefaultStagesKeepAll(raw, ["job"], [[All]]);
  }
}
