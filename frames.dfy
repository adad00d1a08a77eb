/** The bank marketing table as a value: a set of categorical column names
    and a sequence of rows, each carrying its index label. The two row
    selections every dashboard uses are defined here: the inclusive age
    mask, which keeps index labels, and the `isin` selection followed by
    `reset_index(drop=True)`, which renumbers them from 0. */
module Frames {
  import opened Seqs

  /** One record: the numeric `age` column and the categorical columns
      (`job`, `marital`, ...) by name. */
  datatype Row = Row(age: int, cells: map<string, string>)

  /** A row together with its index label. */
  datatype Entry = Entry(index: int, row: Row)

  datatype Frame = Frame(columns: set<string>, entries: seq<Entry>)

  /** What the dashboards can raise before anything is drawn: a column
      that the table does not have, or `int()` applied to the NaN that
      `age.max()` gives on a table without rows. */
  datatype Error = MissingColumn(column: string) | NoAgeData

  datatype Result<T> = Ok(value: T) | Err(error: Error)

  /** Every row has exactly the table's categorical columns. */
  predicate WellFormed(f: Frame) {
    forall k :: 0 <= k < |f.entries| ==> f.entries[k].row.cells.Keys == f.columns
  }

  function RowsOf(es: seq<Entry>): seq<Row> {
    seq(|es|, k requires 0 <= k < |es| => es[k].row)
  }

  /** The rows of a table, without their labels. */
  function Rows(f: Frame): seq<Row> {
    RowsOf(f.entries)
  }

  function Ages(es: seq<Entry>): seq<int> {
    seq(|es|, k requires 0 <= k < |es| => es[k].row.age)
  }

  /** `age.min()` and `age.max()` of a table with at least one row. */
  function MinAge(f: Frame): (m: int)
    requires f.entries != []
    ensures forall k :: 0 <= k < |f.entries| ==> m <= f.entries[k].row.age
    ensures exists k :: 0 <= k < |f.entries| && f.entries[k].row.age == m
  {
    var ages := Ages(f.entries);
    assert forall k :: 0 <= k < |f.entries| ==> ages[k] == f.entries[k].row.age;
    SeqMin(ages)
  }

  function MaxAge(f: Frame): (m: int)
    requires f.entries != []
    ensures forall k :: 0 <= k < |f.entries| ==> f.entries[k].row.age <= m
    ensures exists k :: 0 <= k < |f.entries| && f.entries[k].row.age == m
  {
    var ages := Ages(f.entries);
    assert forall k :: 0 <= k < |f.entries| ==> ages[k] == f.entries[k].row.age;
    SeqMax(ages)
  }

  /** The values of one categorical column, row by row. */
  function Column(f: Frame, col: string): seq<string>
    requires WellFormed(f) && col in f.columns
  {
    seq(|f.entries|, k requires 0 <= k < |f.entries| => f.entries[k].row.cells[col])
  }

  /** Lifts a predicate on rows to one on labelled rows. */
  function OnRow(p: Row -> bool): Entry -> bool {
    (e: Entry) => p(e.row)
  }

  /** `lo <= age <= hi`, both ends inclusive. */
  function InAgeRange(lo: int, hi: int): Row -> bool {
    (r: Row) => lo <= r.age <= hi
  }

  /** The row's value in `col` is one of `sel` (`Series.isin`). */
  function ValueIn(col: string, sel: seq<string>): Row -> bool {
    (r: Row) => col in r.cells && r.cells[col] in sel
  }

  /** Labels 0, 1, 2, ... as `reset_index(drop=True)` leaves them. */
  predicate Renumbered(f: Frame) {
    forall k :: 0 <= k < |f.entries| ==> f.entries[k].index == k
  }

  /** `reset_index(drop=True)`: the same rows, labelled 0, 1, 2, ... */
  function ResetIndex(f: Frame): Frame {
    Frame(f.columns, seq(|f.entries|, k requires 0 <= k < |f.entries| => Entry(k, f.entries[k].row)))
  }

  /** Renumbering keeps the schema and the rows, in order. */
  lemma ResetIndexKeepsRows(f: Frame)
    ensures ResetIndex(f).columns == f.columns && Rows(ResetIndex(f)) == Rows(f)
    ensures Renumbered(ResetIndex(f))
  {
  }

  /** The boolean mask `(age >= lo) & (age <= hi)`, which is also what
      `query("age >= lo and age <= hi")` selects; labels are kept. */
  function AgeMask(f: Frame, lo: int, hi: int): Frame {
    Frame(f.columns, Filter(f.entries, OnRow(InAgeRange(lo, hi))))
  }

  /** `f[f[col].isin(sel)].reset_index(drop=True)`; selecting a column
      the table does not have raises. */
  function IsIn(f: Frame, col: string, sel: seq<string>): Result<Frame> {
    if col !in f.columns then Err(MissingColumn(col))
    else Ok(ResetIndex(Frame(f.columns, Filter(f.entries, OnRow(ValueIn(col, sel))))))
  }

  /** Filtering labelled rows by a row predicate filters the rows. */
  lemma {:induction false} RowsOfFilter(es: seq<Entry>, p: Row -> bool)
    ensures RowsOf(Filter(es, OnRow(p))) == Filter(RowsOf(es), p)
  {
    if es != [] {
      RowsOfFilter(es[1..], p);
      assert RowsOf(es)[1..] == RowsOf(es[1..]);
      if p(es[0].row) {
        assert RowsOf([es[0]] + Filter(es[1..], OnRow(p))) == [es[0].row] + RowsOf(Filter(es[1..], OnRow(p)));
      }
    }
  }

  /** Keeping some of the rows of a well-formed table keeps it well formed. */
  lemma FilterWellFormed(f: Frame, p: Entry -> bool)
    requires WellFormed(f)
    ensures WellFormed(Frame(f.columns, Filter(f.entries, p)))
  {
    var r := Filter(f.entries, p);
    FilterSelects(f.entries, p);
    forall k | 0 <= k < |r|
      ensures r[k].row.cells.Keys == f.columns
    {
      var j :| 0 <= j < |f.entries| && f.entries[j] == r[k];
    }
  }

  /** The age stage keeps exactly the rows with `lo <= age <= hi`, in their
      original order and with their labels; the schema is unchanged. */
  lemma AgeMaskSelects(f: Frame, lo: int, hi: int)
    requires WellFormed(f)
    ensures var g := AgeMask(f, lo, hi);
      && g.columns == f.columns && WellFormed(g)
      && IsSubseq(g.entries, f.entries)
      && Rows(g) == Filter(Rows(f), InAgeRange(lo, hi))
      && (forall k :: 0 <= k < |g.entries| ==> lo <= g.entries[k].row.age <= hi)
  {
    FilterWellFormed(f, OnRow(InAgeRange(lo, hi)));
    FilterSelects(f.entries, OnRow(InAgeRange(lo, hi)));
    RowsOfFilter(f.entries, InAgeRange(lo, hi));
  }

  /** Each labelled row occurs in the age stage's output exactly as often
      as in its input if its age is in range, and not at all otherwise. */
  lemma AgeMaskCounts(f: Frame, lo: int, hi: int, e: Entry)
    ensures multiset(AgeMask(f, lo, hi).entries)[e] ==
            if lo <= e.row.age <= hi then multiset(f.entries)[e] else 0
  {
    FilterCounts(f.entries, OnRow(InAgeRange(lo, hi)), e);
  }

  /** The slider's default `(min age, max age)` drops no row. */
  lemma FullAgeRangeKeepsAll(f: Frame)
    requires f.entries != []
    ensures AgeMask(f, MinAge(f), MaxAge(f)) == f
  {
    FilterKeepsAll(f.entries, OnRow(InAgeRange(MinAge(f), MaxAge(f))));
  }

  /** The `isin` selection on an existing column keeps exactly the rows
      whose value is in `sel`, in order, renumbered from 0. */
  lemma IsInSelects(f: Frame, col: string, sel: seq<string>)
    requires WellFormed(f) && col in f.columns
    ensures IsIn(f, col, sel).Ok?
    ensures var g := IsIn(f, col, sel).value;
      && g.columns == f.columns && WellFormed(g)
      && Renumbered(g)
      && Rows(g) == Filter(Rows(f), ValueIn(col, sel))
  {
    var p := OnRow(ValueIn(col, sel));
    FilterWellFormed(f, p);
    RowsOfFilter(f.entries, ValueIn(col, sel));
    var g := IsIn(f, col, sel).value;
    var h := Frame(f.columns, Filter(f.entries, p));
    assert g == ResetIndex(h);
    ResetIndexKeepsRows(h);
    assert forall k :: 0 <= k < |g.entries| ==> g.entries[k].row == h.entries[k].row;
  }
}
