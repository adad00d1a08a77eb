/** The eight-filter dashboards. app_5.py and app_3.py run the same
    pipeline (they differ only in how the table is loaded): the age slider,
    one multiselect per categorical column with options ending in "all",
    and one chained expression: the age query, then eight
    `.pipe(multiselect_filter, ...)` stages in a fixed order. */
module App5 {
  import opened Frames
  import opened Multiselect
  import opened Stages
  import opened Pipeline

  /** `main` from the slider on: how the run ends. */
  method Dashboard(raw: Frame, ages: Option<(int, int)>, picks: seq<Option<seq<string>>>)
    returns (o: Outcome)
    requires WellFormed(raw) && |picks| == |FilterColumns|
    ensures o == EightFilterOutcome(raw, ages, picks)
  {
    var bank := raw;
    if bank.entries == [] {
      o := Raised(NoAgeData);
      return;
    }
    var (lo, hi) := SliderRange(bank, ages);
    var missing := FirstMissing(bank, FilterColumns);
    if missing.Some? {
      o := Raised(MissingColumn(missing.value));
      return;
    }
    FirstMissingNone(bank);
    assert FilterColumns[0] == "job" && FilterColumns[1] == "marital" && FilterColumns[2] == "default"
        && FilterColumns[3] == "housing" && FilterColumns[4] == "loan" && FilterColumns[5] == "contact"
        && FilterColumns[6] == "month" && FilterColumns[7] == "day_of_week";
    var jobsSelected := MultiselectWidget(bank, "job", picks[0]);
    var maritalSelected := MultiselectWidget(bank, "marital", picks[1]);
    var defaultSelected := MultiselectWidget(bank, "default", picks[2]);
    var housingSelected := MultiselectWidget(bank, "housing", picks[3]);
    var loanSelected := MultiselectWidget(bank, "loan", picks[4]);
    var contactSelected := MultiselectWidget(bank, "contact", picks[5]);
    var monthSelected := MultiselectWidget(bank, "month", picks[6]);
    var dayOfWeekSelected := MultiselectWidget(bank, "day_of_week", picks[7]);
    var a := AgeMask(bank, lo, hi);
    AgeMaskSelects(raw, lo, hi);
    var r := FilterChain(a, jobsSelected, maritalSelected, defaultSelected, housingSelected, loanSelected, contactSelected, monthSelected, dayOfWeekSelected);
    ChainRunsStages(a, Selections(picks));
    o := Report(raw, r);
  }

  /** The chained expression itself: the age-masked table through the
      eight `.pipe(multiselect_filter, ...)` stages, each with its own
      widget's list. On a table with every filtered column each stage runs,
      so each list ends as `multiselect_filter` leaves it. */
  method FilterChain(a: Frame, jobsSelected: SelectionList, maritalSelected: SelectionList, defaultSelected: SelectionList, housingSelected: SelectionList,
                     loanSelected: SelectionList, contactSelected: SelectionList, monthSelected: SelectionList, dayOfWeekSelected: SelectionList)
    returns (r: Result<Frame>)
    requires WellFormed(a) && forall i :: 0 <= i < |FilterColumns| ==> FilterColumns[i] in a.columns
    // the eight widgets are eight different lists
    requires jobsSelected != maritalSelected && jobsSelected != defaultSelected && jobsSelected != housingSelected && jobsSelected != loanSelected
    requires jobsSelected != contactSelected && jobsSelected != monthSelected && jobsSelected != dayOfWeekSelected && maritalSelected != defaultSelected
    requires maritalSelected != housingSelected && maritalSelected != loanSelected && maritalSelected != contactSelected && maritalSelected != monthSelected
    requires maritalSelected != dayOfWeekSelected && defaultSelected != housingSelected && defaultSelected != loanSelected && defaultSelected != contactSelected
    requires defaultSelected != monthSelected && defaultSelected != dayOfWeekSelected && housingSelected != loanSelected && housingSelected != contactSelected
    requires housingSelected != monthSelected && housingSelected != dayOfWeekSelected && loanSelected != contactSelected && loanSelected != monthSelected
    requires loanSelected != dayOfWeekSelected && contactSelected != monthSelected && contactSelected != dayOfWeekSelected && monthSelected != dayOfWeekSelected
    modifies jobsSelected, maritalSelected, defaultSelected, housingSelected, loanSelected, contactSelected, monthSelected, dayOfWeekSelected
    ensures r == Chain(a, [old(jobsSelected.items), old(maritalSelected.items), old(defaultSelected.items), old(housingSelected.items),
                          old(loanSelected.items), old(contactSelected.items), old(monthSelected.items), old(dayOfWeekSelected.items)])
    ensures jobsSelected.items == Normalize(old(jobsSelected.items))
    ensures maritalSelected.items == Normalize(old(maritalSelected.items))
    ensures defaultSelected.items == Normalize(old(defaultSelected.items))
    ensures housingSelected.items == Normalize(old(housingSelected.items))
    ensures loanSelected.items == Normalize(old(loanSelected.items))
    ensures contactSelected.items == Normalize(old(contactSelected.items))
    ensures monthSelected.items == Normalize(old(monthSelected.items))
    ensures dayOfWeekSelected.items == Normalize(old(dayOfWeekSelected.items))
  {
    assert FilterColumns[0] == "job" && FilterColumns[1] == "marital" && FilterColumns[2] == "default" && FilterColumns[3] == "housing"
        && FilterColumns[4] == "loan" && FilterColumns[5] == "contact" && FilterColumns[6] == "month" && FilterColumns[7] == "day_of_week";
    var s0 := jobsSelected.items;
    var r1 := Pipe(Ok(a), "job", jobsSelected);
    StageKeepsSchema(a, "job", s0);
    var s1 := maritalSelected.items;
    var r2 := Pipe(r1, "marital", maritalSelected);
    StageKeepsSchema(r1.value, "marital", s1);
    var s2 := defaultSelected.items;
    var r3 := Pipe(r2, "default", defaultSelected);
    StageKeepsSchema(r2.value, "default", s2);
    var s3 := housingSelected.items;
    var r4 := Pipe(r3, "housing", housingSelected);
    StageKeepsSchema(r3.value, "housing", s3);
    var s4 := loanSelected.items;
    var r5 := Pipe(r4, "loan", loanSelected);
    StageKeepsSchema(r4.value, "loan", s4);
    var s5 := contactSelected.items;
    var r6 := Pipe(r5, "contact", contactSelected);
    StageKeepsSchema(r5.value, "contact", s5);
    var s6 := monthSelected.items;
    var r7 := Pipe(r6, "month", monthSelected);
    StageKeepsSchema(r6.value, "month", s6);
    var s7 := dayOfWeekSelected.items;
    var r8 := Pipe(r7, "day_of_week", dayOfWeekSelected);
    StageKeepsSchema(r7.value, "day_of_week", s7);
    r := r8;
  }

  /** The chained expression of `main`, stage by stage. */
  function Chain(a: Frame, sels: seq<seq<string>>): Result<Frame>
    requires |sels| == |FilterColumns|
  {
    var r1 := Then(Ok(a), "job", sels[0]);
    var r2 := Then(r1, "marital", sels[1]);
    var r3 := Then(r2, "default", sels[2]);
    var r4 := Then(r3, "housing", sels[3]);
    var r5 := Then(r4, "loan", sels[4]);
    var r6 := Then(r5, "contact", sels[5]);
    var r7 := Then(r6, "month", sels[6]);
    Then(r7, "day_of_week", sels[7])
  }

  /** The eight `.pipe` stages of the chain, in their order, are the stages
      of FilterColumns. */
  lemma ChainRunsStages(a: Frame, sels: seq<seq<string>>)
    requires |sels| == |FilterColumns|
    ensures Chain(a, sels) == RunStages(a, FilterColumns, sels)
  {
    var fc := FilterColumns;
    assert fc[0] == "job" && fc[1] == "marital" && fc[2] == "default" && fc[3] == "housing"
        && fc[4] == "loan" && fc[5] == "contact" && fc[6] == "month" && fc[7] == "day_of_week";
    assert RunFirst(a, fc, sels, 1) == Then(Ok(a), fc[0], sels[0]);
    assert RunFirst(a, fc, sels, 2) == Then(RunFirst(a, fc, sels, 1), fc[1], sels[1]);
    assert RunFirst(a, fc, sels, 3) == Then(RunFirst(a, fc, sels, 2), fc[2], sels[2]);
    assert RunFirst(a, fc, sels, 4) == Then(RunFirst(a, fc, sels, 3), fc[3], sels[3]);
    assert RunFirst(a, fc, sels, 5) == Then(RunFirst(a, fc, sels, 4), fc[4], sels[4]);
    assert RunFirst(a, fc, sels, 6) == Then(RunFirst(a, fc, sels, 5), fc[5], sels[5]);
    assert RunFirst(a, fc, sels, 7) == Then(RunFirst(a, fc, sels, 6), fc[6], sels[6]);
    RunFirstIsPrefix(a, fc, sels, 8);
    assert fc[..8] == fc && sels[..8] == sels;
  }
}
