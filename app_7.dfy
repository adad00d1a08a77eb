/** The eight-filter dashboard written with loops: a first loop builds the
    `selected_filters` dictionary (one multiselect per categorical column,
    options ending in "all", default `['all']`), and after the age query a
    second loop runs `multiselect_filter` for each entry of that dictionary,
    in insertion order. */
module App7 {
  import opened Frames
  import opened Multiselect
  import opened Stages
  import opened Pipeline

  /** A dictionary from column to widget list, as its entries in insertion
      order: the only thing `main` does with `selected_filters` besides
      filling it is iterating `.items()`. */
  type Filters = seq<(string, SelectionList)>

  /** The first loop: one widget per column of `filters`, in order, each
      entered in `selected_filters` under a key not yet there, so at the
      end of the dictionary. Building a widget's options reads its column,
      so the loop stops at the first missing column; otherwise every column
      has its own new list, holding the user's pick. */
  method BuildFilters(bank: Frame, picks: seq<Option<seq<string>>>)
    returns (missing: Option<string>, selectedFilters: Filters)
    requires WellFormed(bank) && |picks| == |FilterColumns|
    ensures missing == FirstMissing(bank, FilterColumns)
    ensures missing == None ==> |selectedFilters| == |FilterColumns|
    ensures missing == None ==> forall i :: 0 <= i < |selectedFilters| ==>
      selectedFilters[i].0 == FilterColumns[i] && selectedFilters[i].1.items == Picked(picks[i], [All])
    ensures forall j, k :: 0 <= j < k < |selectedFilters| ==> selectedFilters[j].1 != selectedFilters[k].1
    ensures forall i :: 0 <= i < |selectedFilters| ==> fresh(selectedFilters[i].1)
  {
    selectedFilters := [];
    var i := 0;
    while i < |FilterColumns|
      invariant 0 <= i <= |FilterColumns|
      invariant forall j :: 0 <= j < i ==> FilterColumns[j] in bank.columns
      invariant |selectedFilters| == i
      invariant forall j :: 0 <= j < i ==>
        && selectedFilters[j].0 == FilterColumns[j]
        && fresh(selectedFilters[j].1)
        && selectedFilters[j].1.items == Picked(picks[j], [All])
      invariant forall j, k :: 0 <= j < k < i ==> selectedFilters[j].1 != selectedFilters[k].1
    {
      var column := FilterColumns[i];
      if column !in bank.columns {
        missing := Some(column);
        FirstMissingAt(bank, FilterColumns, i);
        return;
      }
      var selected := MultiselectWidget(bank, column, picks[i]);
      selectedFilters := selectedFilters + [(column, selected)];
      i := i + 1;
    }
    missing := None;
    NoneMissing(bank, FilterColumns);
  }

  /** The second loop: `bank = multiselect_filter(bank, column, selected)`
      for every entry of `selected_filters`, in insertion order. The result
      is the chain of stages over FilterColumns, and each list ends as its
      stage leaves it. */
  method ApplyFilters(aged: Frame, selectedFilters: Filters, sels: seq<seq<string>>)
    returns (bank: Frame)
    requires WellFormed(aged) && |sels| == |FilterColumns|
    requires forall i :: 0 <= i < |FilterColumns| ==> FilterColumns[i] in aged.columns
    requires |selectedFilters| == |FilterColumns|
    requires forall i :: 0 <= i < |selectedFilters| ==>
      selectedFilters[i].0 == FilterColumns[i] && selectedFilters[i].1.items == sels[i]
    requires forall j, k :: 0 <= j < k < |selectedFilters| ==> selectedFilters[j].1 != selectedFilters[k].1
    modifies set i | 0 <= i < |selectedFilters| :: selectedFilters[i].1
    ensures RunStages(aged, FilterColumns, sels) == Ok(bank)
    ensures forall i :: 0 <= i < |selectedFilters| ==> selectedFilters[i].1.items == Normalize(sels[i])
  {
    bank := aged;
    var i := 0;
    while i < |FilterColumns|
      invariant 0 <= i <= |FilterColumns|
      invariant WellFormed(bank) && bank.columns == aged.columns
      invariant RunStages(aged, FilterColumns[..i], sels[..i]) == Ok(bank)
      invariant forall j :: 0 <= j < i ==> selectedFilters[j].1.items == Normalize(sels[j])
      invariant forall j :: i <= j < |selectedFilters| ==> selectedFilters[j].1.items == sels[j]
    {
      var (column, selected) := selectedFilters[i];
      var next := MultiselectFilter(bank, column, selected);
      RunStagesPrefix(aged, FilterColumns, sels, i);
      StageKeepsSchema(bank, column, sels[i]);
      bank := next.value;
      i := i + 1;
    }
    assert FilterColumns[..i] == FilterColumns && sels[..i] == sels;
  }

  /** `main` from the slider on. It returns how the run ends and the
      `selected_filters` dictionary; when the run does not raise, the
      dictionary holds one list per filtered column, in order, each as
      `multiselect_filter` left it. */
  method Dashboard(raw: Frame, ages: Option<(int, int)>, picks: seq<Option<seq<string>>>)
    returns (o: Outcome, selectedFilters: Filters)
    requires WellFormed(raw) && |picks| == |FilterColumns|
    ensures o == EightFilterOutcome(raw, ages, picks)
    ensures !o.Raised? ==> |selectedFilters| == |FilterColumns|
    ensures !o.Raised? ==> forall i :: 0 <= i < |FilterColumns| ==>
      selectedFilters[i].0 == FilterColumns[i] && selectedFilters[i].1.items == Normalize(Selections(picks)[i])
  {
    selectedFilters := [];
    var bank := raw;
    if bank.entries == [] {
      o := Raised(NoAgeData);
      return;
    }
    var (lo, hi) := SliderRange(bank, ages);
    var missing;
    missing, selectedFilters := BuildFilters(bank, picks);
    if missing.Some? {
      o := Raised(MissingColumn(missing.value));
      return;
    }
    FirstMissingNone(bank);
    bank := AgeMask(bank, lo, hi);
    AgeMaskSelects(raw, lo, hi);
    bank := ApplyFilters(bank, selectedFilters, Selections(picks));
    o := Report(raw, Ok(bank));
  }
}
