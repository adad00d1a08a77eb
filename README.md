# Telemarketing dashboards: the row-filter pipeline

The repository is a series of Streamlit apps over the bank marketing
table. Six of them (app_2_0.py, app_2_1.py, app_2_2.py, app_3.py, app_5.py
and app_7.py) load the table, let the user narrow it down in a sidebar, and
chart the acceptance rate of the raw table beside that of the filtered one.
The other two only load and show the table: app_4.py, and app_6.py, which
also offers CSV and Excel downloads and defines `multiselect_filter` without
calling it. What the six filtering dashboards share, and what this project
models, is the row-filter pipeline that builds the filtered table:

- **Age stage.** Keeps every row with `low <= age <= high`, both ends
  inclusive. The slider defaults to the table's own `(min age, max age)`.
  This is a boolean mask, or an equivalent `query`, so the index labels are
  kept.
- **`multiselect_filter`.** A membership filter on one categorical column.
  A selection list may hold the sentinel `"all"`, meaning "do not filter".
  - When `"all"` is selected together with other values, the first `"all"`
    is removed from the caller's own list.
  - When the list still holds `"all"` after that, the table comes back as it
    is.
  - Otherwise the rows whose value is in the list are kept, in order, and
    renumbered from 0 by `reset_index(drop=True)`.
- **Composition.** The stages run one after the other: age first, then up
  to eight columns in the fixed order `job, marital, default, housing, loan,
  contact, month, day_of_week`. An empty result gives a warning and an early
  return, so no chart is drawn.

The per-file pipelines:

| file | pipeline | module |
|---|---|---|
| app_2_0.py | the age mask alone | `App20` |
| app_2_1.py | the age mask, then a plain `isin` on `job` without the sentinel; its default selects every distinct job | `App21` |
| app_2_2.py | the age mask, then `multiselect_filter` on `job` | `App22` |
| app_5.py, app_3.py | the age `query` and eight `.pipe(multiselect_filter, ...)` stages in one chained expression | `App5` |
| app_7.py | a first loop building the `selected_filters` dictionary, then the age `query`, then a second loop calling `multiselect_filter` per entry | `App7` |
| app_6.py | only defines `multiselect_filter`, which its `main` never calls | `Multiselect` |

The `multiselect_filter` copies in app_3.py, app_5.py, app_6.py, app_7.py and
app_2_2.py are identical apart from their comments and the `@st.cache_data`
decorator in app_6.py and app_7.py (see "Left out"). One definition,
`Multiselect.MultiselectFilter`, serves all of them.

How the model is built:

- **Tables are values.** `Frames.Frame` has a set of categorical column
  names and a sequence of `Entry(index, row)`. Each row has an integer age
  and a map from column to value. The index labels are part of the model, so
  the difference between the age mask (labels kept) and the `isin` stage
  (renumbered from 0) is visible.
- **Selection lists are objects.** The Python list that `multiselect_filter`
  mutates, and that the caller still holds afterwards, is the class
  `Multiselect.SelectionList`. The filter is a method with
  `modifies selected`. It is proved against two pure functions: `Normalize`,
  the list as the filter leaves it, and `SelectRows`, the rows it returns.
- **Pipelines are specified by `Stages.RunStages`.** This is the stages for a
  sequence of columns, the last one applied last. A stage is `Stages.Then`:
  once one stage has raised, the later ones do not run. The eight-filter
  pipelines share the specification `Pipeline.EightFilterOutcome`. The
  chained expression (`App5.Dashboard`) and the loop (`App7.Dashboard`) are
  both proved equal to it.
- **Widgets are inputs.** The slider is an `Option<(int, int)>`, a
  multiselect an `Option<seq<string>>`. `None` is a widget left at its
  default.
- **How a run ends.** `Pipeline.Outcome` is one of three results:
  - `Raised`: a missing column, or a table without rows, where `int()` of
    the NaN from `age.max()` raises;
  - `Warned`: the empty-result warning;
  - `Shown(raw, filtered)`: the two tables the charts compare. `raw` is
    always the untouched input table.

## Model

| member | source | states |
|---|---|---|
| `Seqs.RemoveFirstAt` | app_7.py:34 | `list.remove(x)` deletes exactly the first occurrence of `x` and keeps the rest in order |
| `Seqs.RemoveFirstAbsent` | app_7.py:34 | the model's stand-in for the ValueError path of `remove`, which `multiselect_filter` never takes because line 33 checks for "all" first: a value the list does not hold leaves the list as it is, as Python's failed `remove` does |
| `Seqs.RemoveFirstCounts` | app_7.py:34 | `remove` takes exactly one occurrence away, so the length drops by one when the value is present |
| `Seqs.Unique` | app_7.py:105 | `unique()` holds no duplicates and exactly the values of the column |
| `Seqs.UniqueOrder` | app_7.py:105 | `unique()` lists the values in the order of their first occurrence |
| `Frames.MinAge` | app_7.py:82 | `age.min()` is the age of some row and at most every row's age |
| `Frames.MaxAge` | app_7.py:81 | `age.max()` is the age of some row and at least every row's age |
| `Frames.ResetIndexKeepsRows` | app_7.py:38 | `reset_index(drop=True)` keeps the columns and the rows in order, and labels them 0, 1, 2, ... |
| `Frames.AgeMaskSelects` | app_2_0.py:38 | the age mask keeps exactly the rows with `lo <= age <= hi`, as an order-preserving subsequence with their labels, and keeps the schema |
| `Frames.AgeMaskCounts` | app_5.py:123 | each labelled row occurs in the age stage's output as often as in its input if its age is in range, and not at all otherwise |
| `Frames.FullAgeRangeKeepsAll` | app_2_0.py:28-38 | the slider default `(min age, max age)` drops no row |
| `Frames.IsInSelects` | app_2_1.py:60 | `isin` followed by `reset_index(drop=True)` keeps exactly the rows whose value is selected, in order, renumbered from 0 |
| `Multiselect.SelectionList.constructor` | app_7.py:107 | the widget returns a new list holding its value |
| `Multiselect.SelectionList.Remove` | app_7.py:34 | `remove` reports whether the value was present and leaves the list with its first occurrence gone |
| `Multiselect.MultiselectFilter` | app_7.py:32-38 | the caller's list ends normalized (the first "all" gone when mixed with other values), and the result is the table itself when "all" is still selected, otherwise the `isin` selection |
| `Multiselect.DefaultSelectionKeepsAll` | app_7.py:35-36 | the default `['all']` is left as it is and returns the rows unchanged |
| `Multiselect.MixedSelectionLosesFirstAll` | app_5.py:23-24 | with "all" among other values, the list loses exactly its first "all"; the other values keep their order |
| `Multiselect.PassThroughIff` | app_6.py:21-24 | the table passes through unchanged exactly when the list is `['all']` or holds "all" at least twice |
| `Multiselect.TwoAllsKeepRows` | app_5.py:23-26 | with "all" twice only one is removed, and the remaining one makes the stage a no-op |
| `Multiselect.SelectRowsKeepsMatching` | app_6.py:26 | otherwise the result is exactly the input rows whose value is selected (never "all"), in their original order, renumbered from 0 |
| `Multiselect.SelectRowsCounts` | app_3.py:18 | in the `isin` branch a row is kept as often as it occurs when its value is selected, and dropped otherwise |
| `Multiselect.EmptySelectionKeepsNothing` | app_6.py:23-26 | an empty selection runs the `isin` branch and keeps no row; on a missing column it raises |
| `Stages.ActiveIff` | app_2_2.py:13-16 | a stage really filters exactly when its normalized list has no "all" |
| `Stages.Pipe` | app_5.py:124 | one `.pipe(multiselect_filter, col, sel)` runs the stage on the previous result and mutates the list, and once an earlier stage has raised the list is left alone |
| `Stages.StageSelects` | app_3.py:137 | one stage on a table with its column succeeds, keeps the schema, and keeps exactly the rows meeting the stage condition, renumbered when it filters and unchanged otherwise |
| `Stages.RunStagesSelects` | app_7.py:112-113 | on a table with every filtered column the stages succeed, keep the schema, and keep exactly the rows meeting every stage condition, in order |
| `Stages.RunStagesRenumbers` | app_3.py:137-144 | once any stage really filters, the final table is renumbered from 0 |
| `Stages.RunStagesIdentity` | app_5.py:124-131 | if no stage really filters, the stages give back their input, for every table, since a pass-through stage never reads its column |
| `Stages.DefaultStagesKeepAll` | app_3.py:137-144 | with every list at `['all']` the stages give back their input, for every table |
| `Pipeline.OptionList` | app_7.py:105-106 | the options are the column's distinct values, in order of first occurrence, followed by one trailing "all" |
| `Pipeline.MultiselectWidget` | app_5.py:83-85 | building a widget reads its column's option list; the widget returns a new list holding the user's choice, default `['all']` |
| `Pipeline.FirstMissingNone` | app_5.py:83-120 | when no filtered column is missing, every filtered column is in the table |
| `Pipeline.DefaultsShowRaw` | app_5.py:72-132 | with the default slider and every list at `['all']`, the charts compare the raw table with itself |
| `Pipeline.OutcomeIsConjunction` | app_3.py:136-153 | nothing raises before the charts; the warning comes exactly when no raw row meets the age range and all eight stage conditions; otherwise the filtered table is exactly those raw rows, in order, and the raw table is untouched |
| `Pipeline.MeetsStages` | app_5.py:124-131 | a row meeting every stage condition holds, in each column whose list really filters, a selected value other than "all" |
| `Pipeline.SurvivorMeetsEveryStage` | app_5.py:123-131 | every charted row has its age in range and, in each really filtering column, a selected value other than "all" |
| `App20.DashboardSelects` | app_2_0.py:38-42 | a table without rows raises; otherwise the warning comes exactly when no row is in range, and the charts compare the raw table with exactly its rows in range, in order and with their labels |
| `App20.DefaultShowsRaw` | app_2_0.py:28-38 | at the default slider value the charts compare the raw table with itself |
| `App21.JobList` | app_2_1.py:50 | the job options hold no duplicates and exactly the values of the job column |
| `App21.DashboardSelects` | app_2_1.py:59-65 | nothing raises before the charts; the warning comes exactly when no row has its age in range and a selected job; otherwise the filtered table is exactly those rows, in order, renumbered from 0 |
| `App21.DashboardRaises` | app_2_1.py:38-50 | the run raises exactly when the table has no rows or no job column, the missing rows first |
| `App21.DefaultsKeepAll` | app_2_1.py:38-60 | with the full age range and every job selected no row is dropped; the job stage only renumbers |
| `App21.EmptySelectionWarns` | app_2_1.py:60-65 | an empty job selection leaves no row, so the warning is given |
| `App22.Dashboard` | app_2_2.py:53-84 | the run ends as the age mask followed by the job stage prescribes, and the widget's list is left normalized by `multiselect_filter` |
| `App22.DashboardSelects` | app_2_2.py:75-84 | nothing raises before the charts; the warning comes exactly when no row meets the age range and the job stage condition; otherwise the filtered table is exactly those rows, in order |
| `App22.DefaultsShowRaw` | app_2_2.py:70-76 | with the default slider and `['all']` for jobs, the charts compare the raw table with itself |
| `App5.Dashboard` | app_5.py:72-139 | the run ends as the eight-filter pipeline prescribes: no rows or a missing filtered column raises; otherwise the age stage and the eight stages run in order, and an empty result warns |
| `App5.FilterChain` | app_5.py:123-132 | the chained expression is the eight stages over FilterColumns, each with its own widget's list, and each list ends normalized |
| `App5.ChainRunsStages` | app_3.py:136-145 | the eight `.pipe` stages in their written order are the stages of FilterColumns |
| `App7.BuildFilters` | app_7.py:92-108 | the first loop stops at the first missing column; otherwise `selected_filters` holds one new, distinct list per column of `filters`, in order, keyed by column name and holding the user's choice |
| `App7.ApplyFilters` | app_7.py:111-113 | the second loop computes the stages over the dictionary's columns in insertion order, and leaves each list normalized |
| `App7.Dashboard` | app_7.py:81-121 | the run ends as the eight-filter pipeline prescribes, and when it does not raise, `selected_filters` holds one normalized list per column, in order |

The specification functions these contracts are stated with, and the
source lines each one models:

- `Seqs.RemoveFirst` (app_7.py:34): `list.remove(x)` on the selection list.
- `Frames.InAgeRange` (app_2_0.py:38): the row condition `age >= lo and age <= hi`.
- `Frames.AgeMask` (app_2_0.py:38, app_5.py:123): the age mask and the equivalent `query`, labels kept.
- `Frames.ValueIn` (app_7.py:38): the row condition `row[col] in sel` of `isin`.
- `Frames.ResetIndex` (app_7.py:38): `reset_index(drop=True)`.
- `Frames.IsIn` (app_2_1.py:60, app_7.py:38): `f[f[col].isin(sel)].reset_index(drop=True)`, raising on a missing column.
- `Multiselect.Normalize` (app_7.py:33-34): the selection list as `multiselect_filter` leaves it.
- `Multiselect.SelectRows` (app_7.py:35-38): the table `multiselect_filter` returns for the normalized list.
- `Stages.Active` (app_7.py:33-35): whether a stage really filters, in closed form.
- `Stages.StagePred` (app_7.py:35-38): the condition a row must meet to pass one stage.
- `Stages.Then` (app_5.py:124-131): one `.pipe(multiselect_filter, ...)` on the previous stage's result.
- `Stages.RunStages` (app_7.py:112-113): the stages for a sequence of columns, the last one applied last.
- `Pipeline.Picked` (app_7.py:107, app_2_1.py:51-55): a multiselect's value: the user's pick, else the default.
- `Pipeline.SliderRange` (app_7.py:81-89): the slider's value, default `(min_age, max_age)`.
- `Pipeline.Selections` (app_5.py:83-120): the eight multiselect values, default `['all']`.
- `Pipeline.FirstMissing` (app_5.py:83-120, app_7.py:104-105): the first filtered column whose option list raises.
- `Pipeline.Report` (app_7.py:117-122): the `bank.empty` branch: warn and return, else chart.
- `Pipeline.Passes` (app_3.py:136-145): the age range and all eight stage conditions together.
- `Pipeline.EightFilterOutcome` (app_7.py:81-121): app_3.py, app_5.py and app_7.py from the slider on.
- `App5.Chain` (app_5.py:123-132): the chained `.pipe` expression, stage by stage.
- `App20.Dashboard` (app_2_0.py:28-42): the first dashboard from the slider on.
- `App21.Dashboard` (app_2_1.py:38-65): the second dashboard from the slider on.
- `App22.Outcome22` (app_2_2.py:53-84): the third dashboard from the slider on.

## Left out

- Streamlit itself is not modelled: the page setup, sidebar, form, radio
  button and submit button. Only the values the widgets return are
  modelled, as inputs.
- Reading the CSV, the file upload, `load_data` and the `None` it returns
  when reading fails, and the file-not-found branches are not modelled.
  They are I/O; the model starts from a loaded table.
- The chart code can still raise after the filtered table is built, for
  example a KeyError from `bank_raw['y']` on a table without a `y` column.
  `Raised` covers only what the pipeline raises before the charts.
- The sidebar image, the `timeit` load time, the charts, the acceptance
  percentages (`value_counts(normalize=True).mul(100)` is floating point)
  and the Excel and CSV exporters are not modelled. They are I/O, clock
  access, floating point, or calls into libraries whose code is not part of
  this model.
- `st.cache_data` on `multiselect_filter` (app_6.py, app_7.py) is not
  modelled: the filter is modelled uncached. On a cache hit the real
  function body does not run, so the caller's list would not lose its "all".
- app_4.py only loads and shows a table, and is not part of this model.
- Table cells are modelled as values that are always present: NaN cells, a
  non-integer age column, and a table without an `age` column are not
  modelled.
- Multiselect.SelectionList.Remove: does not model the `ValueError` that
  `list.remove` raises on a value that is absent. It reports `found = false`
  instead. `multiselect_filter` only removes "all" after checking that it is
  present, so this path is never taken.
- Pipeline.MultiselectWidget: the option list is built, and so the column
  is read, but the list is not returned. The model does not constrain the
  pick to the options. Streamlit does, but that is widget behaviour.
- The age `query("age >= @idades[0] and age <= @idades[1]")` and the
  boolean mask `(age >= lo) & (age <= hi)` are one function,
  `Frames.AgeMask`. Both keep the same rows with their labels.
- app_3.py is not a module of its own. Its pipeline is textually the same
  as app_5.py's, and app_5.py differs from it only in loading, timing and
  labels, so both are modelled by `App5`.
- The widget labels (the Portuguese keys of the `filters` dictionary in
  app_7.py) are not modelled, only the column names. `selected_filters` is
  modelled as its entries in insertion order, which is all its one reader,
  `.items()`, uses.
- `App5.Dashboard` checks every filtered column before it builds the
  widgets, where the source reads each column as it builds that column's
  widget. The outcome is the same: the first missing column raises before
  any stage runs.
- `App7.BuildFilters` and `App5.Dashboard` take the widgets' answers as
  inputs rather than asking for them one at a time. Nothing in the pipeline
  depends on when they are given.
