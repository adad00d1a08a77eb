/** The filter pipeline the later dashboards share: the inclusive age stage
    followed by one `multiselect_filter` stage per categorical column, in a
    fixed order, and the "empty result: warn and stop" branch after it.
    The widgets' answers are inputs: `None` stands for a widget the user
    left at its default. */
module Pipeline {
  import opened Seqs
  import opened Frames
  import opened Multiselect
  import opened Stages

  datatype Option<T> = None | Some(value: T)

  /** How a dashboard run ends: an exception, the warning for an empty
      filtered table (nothing is charted), or the two tables the charts
      compare. */
  datatype Outcome = Raised(error: Error) | Warned | Shown(raw: Frame, filtered: Frame)

  /** The categorical columns filtered by the eight-filter dashboards, in
      the order their stages run. */
  const FilterColumns: seq<string> :=
    ["job", "marital", "default", "housing", "loan", "contact", "month", "day_of_week"]

  /** A multiselect widget's value: the user's choice, else its default. */
  function Picked(pick: Option<seq<string>>, default: seq<string>): seq<string> {
    match pick
    case None => default
    case Some(p) => p
  }

  /** The age slider's value: the user's range, else the default
      `(min age, max age)` of the table. */
  function SliderRange(f: Frame, ages: Option<(int, int)>): (int, int)
    requires f.entries != []
  {
    match ages
    case None => (MinAge(f), MaxAge(f))
    case Some(range) => range
  }

  /** The multiselect value of each of the eight columns, default `['all']`. */
  function Selections(picks: seq<Option<seq<string>>>): seq<seq<string>>
  {
    seq(|picks|, i requires 0 <= i < |picks| => Picked(picks[i], [All]))
  }

  /** `f[col].unique().tolist()` followed by `append('all')`. */
  function OptionList(f: Frame, col: string): (r: seq<string>)
    requires WellFormed(f) && col in f.columns
    ensures |r| >= 1 && r[|r| - 1] == All
    ensures NoDup(r[..|r| - 1])
    ensures forall k :: 0 <= k < |f.entries| ==> f.entries[k].row.cells[col] in r[..|r| - 1]
    ensures forall j :: 0 <= j < |r| - 1 ==> r[j] in Column(f, col)
    ensures forall i, j :: 0 <= i < j < |r| - 1 ==> IndexOf(Column(f, col), r[i]) < IndexOf(Column(f, col), r[j])
  {
    assert forall k :: 0 <= k < |f.entries| ==> Column(f, col)[k] == f.entries[k].row.cells[col];
    var values := Unique(Column(f, col));
    UniqueOrder(Column(f, col));
    assert (values + [All])[..|values|] == values;
    values + [All]
  }

  /** A multiselect widget over the option list of `col` (which reads the
      column, so the column must exist) with default `['all']`: the new
      list the widget returns. */
  method MultiselectWidget(f: Frame, col: string, pick: Option<seq<string>>) returns (selected: SelectionList)
    requires WellFormed(f) && col in f.columns
    ensures fresh(selected) && selected.items == Picked(pick, [All])
  {
    // the options are built, and so the column is read, but only the pick is returned
    var _ := OptionList(f, col);
    selected := new SelectionList(Picked(pick, [All]));
  }

  /** The end of every dashboard: an exception propagates, an empty
      filtered table gives the warning and the early return, anything else
      is charted against the raw table. */
  function Report(raw: Frame, r: Result<Frame>): Outcome {
    match r
    case Err(e) => Raised(e)
    case Ok(g) => if g.entries == [] then Warned else Shown(raw, g)
  }

  /** The first of `cols` that the table lacks, if any. */
  function FirstMissing(f: Frame, cols: seq<string>): Option<string> {
    if cols == [] then None
    else if cols[0] !in f.columns then Some(cols[0])
    else FirstMissing(f, cols[1..])
  }

  lemma {:induction false} FirstMissingAt(f: Frame, cols: seq<string>, k: nat)
    requires k < |cols| && cols[k] !in f.columns
    requires forall j :: 0 <= j < k ==> cols[j] in f.columns
    ensures FirstMissing(f, cols) == Some(cols[k])
  {
    if k > 0 {
      FirstMissingAt(f, cols[1..], k - 1);
    }
  }

  lemma {:induction false} NoneMissing(f: Frame, cols: seq<string>)
    requires forall j :: 0 <= j < |cols| ==> cols[j] in f.columns
    ensures FirstMissing(f, cols) == None
  {
    if cols != [] {
      NoneMissing(f, cols[1..]);
    }
  }

  /** The condition on a raw row for surviving the eight-filter pipeline. */
  function Passes(lo: int, hi: int, sels: seq<seq<string>>): Row -> bool
    requires |sels| == |FilterColumns|
  {
    And(InAgeRange(lo, hi), Conj(FilterColumns, sels))
  }

  /** What the eight-filter dashboards end with: the table must have rows
      for the slider bounds, each filtered column is read to build its
      option list, then the age stage and the eight stages run in order,
      and an empty result gives the warning instead of the charts. */
  function EightFilterOutcome(raw: Frame, ages: Option<(int, int)>, picks: seq<Option<seq<string>>>): Outcome
    requires WellFormed(raw) && |picks| == |FilterColumns|
  {
    if raw.entries == [] then Raised(NoAgeData)
    else match FirstMissing(raw, FilterColumns)
      case Some(c) => Raised(MissingColumn(c))
      case None =>
        var (lo, hi) := SliderRange(raw, ages);
        Report(raw, RunStages(AgeMask(raw, lo, hi), FilterColumns, Selections(picks)))
  }

  /** Every column of FilterColumns is in the table when none is missing. */
  lemma FirstMissingNone(f: Frame)
    requires FirstMissing(f, FilterColumns) == None
    ensures forall i :: 0 <= i < |FilterColumns| ==> FilterColumns[i] in f.columns
  {
    forall i | 0 <= i < |FilterColumns|
      ensures FilterColumns[i] in f.columns
    {
      if FilterColumns[i] !in f.columns {
        var k :| 0 <= k <= i && FilterColumns[k] !in f.columns && forall j :: 0 <= j < k ==> FilterColumns[j] in f.columns;
        FirstMissingAt(f, FilterColumns, k);
      }
    }
  }

  /** With the full age range and every list at `['all']` (all widgets at
      their defaults), the filtered table is the raw table itself. */
  lemma DefaultsShowRaw(raw: Frame)
    requires WellFormed(raw) && raw.entries != []
    requires forall i :: 0 <= i < |FilterColumns| ==> FilterColumns[i] in raw.columns
    ensures EightFilterOutcome(raw, None, seq(|FilterColumns|, i => None)) == Shown(raw, raw)
  {
    var picks: seq<Option<seq<string>>> := seq(|FilterColumns|, i => None);
    NoneMissing(raw, FilterColumns);
    FullAgeRangeKeepsAll(raw);
    DefaultStagesKeepAll(raw, FilterColumns, Selections(picks));
  }

  /** When the charts are drawn, they compare the untouched raw table with
      exactly the raw rows that meet the inclusive age range and all eight
      stage conditions, in their original order. Without charts, either an
      exception was raised or no raw row meets those conditions. */
  lemma OutcomeIsConjunction(raw: Frame, ages: Option<(int, int)>, picks: seq<Option<seq<string>>>)
    requires WellFormed(raw) && |picks| == |FilterColumns|
    requires raw.entries != [] && FirstMissing(raw, FilterColumns) == None
    ensures var (lo, hi) := SliderRange(raw, ages);
      var o := EightFilterOutcome(raw, ages, picks);
      var rows := Filter(Rows(raw), Passes(lo, hi, Selections(picks)));
      && !o.Raised?
      && (o.Warned? <==> rows == [])
      && (o.Shown? ==> o.raw == raw && Rows(o.filtered) == rows && IsSubseq(Rows(o.filtered), Rows(raw)))
  {
    var (lo, hi) := SliderRange(raw, ages);
    var sels := Selections(picks);
    FirstMissingNone(raw);
    AgeMaskSelects(raw, lo, hi);
    var a := AgeMask(raw, lo, hi);
    RunStagesSelects(a, FilterColumns, sels);
    FilterFilter(Rows(raw), InAgeRange(lo, hi), Conj(FilterColumns, sels));
    FilterSelects(Rows(raw), Passes(lo, hi, sels));
    var g := RunStages(a, FilterColumns, sels).value;
    assert |Rows(g)| == |g.entries|;
  }

  /** A row meeting every stage condition holds, for each column whose list
      really filters, one of the selected values, never "all". */
  lemma MeetsStages(r: Row, sels: seq<seq<string>>)
    requires |sels| == |FilterColumns|
    requires Conj(FilterColumns, sels)(r)
    ensures forall i :: 0 <= i < |FilterColumns| && Active(sels[i]) ==>
              FilterColumns[i] in r.cells && r.cells[FilterColumns[i]] in Normalize(sels[i]) && r.cells[FilterColumns[i]] != All
  {
    var ps := StagePreds(FilterColumns, sels);
    AllOfHolds(ps, r);
    forall i | 0 <= i < |FilterColumns| && Active(sels[i])
      ensures FilterColumns[i] in r.cells && r.cells[FilterColumns[i]] in Normalize(sels[i])
      ensures r.cells[FilterColumns[i]] != All
    {
      assert ps[i](r);
      ActiveIff(sels[i]);
    }
  }

  /** A surviving row meets the age range and, for every column whose list
      really filters, holds one of the selected values (never "all"). */
  lemma SurvivorMeetsEveryStage(raw: Frame, ages: Option<(int, int)>, picks: seq<Option<seq<string>>>, k: nat)
    requires WellFormed(raw) && |picks| == |FilterColumns|
    requires EightFilterOutcome(raw, ages, picks).Shown?
    requires k < |EightFilterOutcome(raw, ages, picks).filtered.entries|
    ensures var (lo, hi) := SliderRange(raw, ages);
      var r := EightFilterOutcome(raw, ages, picks).filtered.entries[k].row;
      && lo <= r.age <= hi
      && forall i :: 0 <= i < |FilterColumns| && Active(Selections(picks)[i]) ==>
           FilterColumns[i] in r.cells &&
           r.cells[FilterColumns[i]] in Normalize(Selections(picks)[i]) && r.cells[FilterColumns[i]] != All
  {
    var (lo, hi) := SliderRange(raw, ages);
    var sels := Selections(picks);
    OutcomeIsConjunction(raw, ages, picks);
    var g := EightFilterOutcome(raw, ages, picks).filtered;
    var r := g.entries[k].row;
    assert Rows(g)[k] == r;
    FilterSelects(Rows(raw), Passes(lo, hi, sels));
    assert Passes(lo, hi, sels)(r);
    MeetsStages(r, sels);
  }
}
