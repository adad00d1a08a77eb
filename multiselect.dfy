/** The multi-select filter shared by the dashboards. A selection is a list
    of column values in which the sentinel "all" means "do not filter on
    this column". When "all" is chosen together with other values, the
    filter first deletes the first "all" from the caller's own list, so the
    caller sees the change; a list that still holds "all" afterwards leaves
    the table as it is, and any other list keeps exactly the rows whose
    value is in it, renumbered from 0. */
module Multiselect {
  import opened Seqs
  import opened Frames

  /** The sentinel option appended to every option list. */
  const All := "all"

  /** The selection list as `multiselect_filter` leaves it: "all" together
      with other values loses its first "all". */
  function Normalize(sel: seq<string>): seq<string> {
    if All in sel && |sel| > 1 then RemoveFirst(sel, All) else sel
  }

  /** The rows `multiselect_filter` returns for an already normalized list:
      the table itself while "all" is selected, the `isin` selection
      otherwise. */
  function SelectRows(f: Frame, col: string, sel: seq<string>): Result<Frame> {
    if All in sel then Ok(f) else IsIn(f, col, sel)
  }

  /** A Python list of selected values, shared by reference between the
      widget's caller and `multiselect_filter`. */
  class SelectionList {
    var items: seq<string>

    constructor (items: seq<string>)
      ensures this.items == items
    {
      this.items := items;
    }

    /** `list.remove(x)`; `found` is false where Python raises ValueError,
        and the list is then left as it was (RemoveFirstAbsent). */
    method Remove(x: string) returns (found: bool)
      modifies this
      ensures found == (x in old(items))
      ensures items == RemoveFirst(old(items), x)
    {
      found := x in items;
      items := RemoveFirst(items, x);
    }
  }

  /** `multiselect_filter(relatorio, col, selecionados)`. */
  method MultiselectFilter(report: Frame, col: string, selected: SelectionList) returns (r: Result<Frame>)
    modifies selected
    ensures selected.items == Normalize(old(selected.items))
    ensures r == SelectRows(report, col, selected.items)
  {
    if All in selected.items && |selected.items| > 1 {
      var _ := selected.Remove(All);
    }
    if All in selected.items {
      r := Ok(report);
    } else {
      r := IsIn(report, col, selected.items);
    }
  }

  /** The default selection `['all']` is kept and passes every row through. */
  lemma DefaultSelectionKeepsAll(f: Frame, col: string)
    ensures Normalize([All]) == [All]
    ensures SelectRows(f, col, Normalize([All])) == Ok(f)
  {
  }

  /** Mixed with other values, exactly one "all" (the first) is deleted
      and the other values keep their order. */
  lemma MixedSelectionLosesFirstAll(sel: seq<string>)
    requires All in sel && |sel| > 1
    ensures var n := Normalize(sel);
      && |n| == |sel| - 1
      && multiset(n) == multiset(sel) - multiset{All}
      && n == sel[..IndexOf(sel, All)] + sel[IndexOf(sel, All) + 1..]
  {
    RemoveFirstCounts(sel, All);
    RemoveFirstAt(sel, All, IndexOf(sel, All));
  }

  /** The filter leaves the table untouched exactly when the list is the
      default `['all']` or holds "all" at least twice (only the first is
      removed, so one is left). */
  lemma PassThroughIff(sel: seq<string>)
    ensures All in Normalize(sel) <==> sel == [All] || multiset(sel)[All] >= 2
  {
    if All in sel && |sel| > 1 {
      RemoveFirstCounts(sel, All);
      assert sel != [All];
    } else if All in sel {
      assert sel == [sel[0]];
    }
  }

  /** With "all" twice, only the first is removed and the stage is a no-op. */
  lemma TwoAllsKeepRows(f: Frame, col: string, sel: seq<string>)
    requires multiset(sel)[All] >= 2
    ensures multiset(Normalize(sel))[All] == multiset(sel)[All] - 1
    ensures SelectRows(f, col, Normalize(sel)) == Ok(f)
  {
    PassThroughIff(sel);
    RemoveFirstCounts(sel, All);
  }

  /** Otherwise the result keeps exactly the rows whose value in `col` is
      one of the selected values, none of which is "all", in their original
      order and renumbered from 0. */
  lemma SelectRowsKeepsMatching(f: Frame, col: string, sel: seq<string>)
    requires WellFormed(f) && col in f.columns
    requires All !in Normalize(sel)
    ensures SelectRows(f, col, Normalize(sel)).Ok?
    ensures var g := SelectRows(f, col, Normalize(sel)).value;
      && g.columns == f.columns && WellFormed(g)
      && Renumbered(g)
      && Rows(g) == Filter(Rows(f), ValueIn(col, Normalize(sel)))
      && IsSubseq(Rows(g), Rows(f))
      && (forall k :: 0 <= k < |g.entries| ==>
            g.entries[k].row.cells[col] in Normalize(sel) && g.entries[k].row.cells[col] != All)
  {
    IsInSelects(f, col, Normalize(sel));
    FilterSelects(Rows(f), ValueIn(col, Normalize(sel)));
    var g := SelectRows(f, col, Normalize(sel)).value;
    forall k | 0 <= k < |g.entries|
      ensures g.entries[k].row.cells[col] in Normalize(sel)
    {
      assert Rows(g)[k] == g.entries[k].row;
    }
  }

  /** A row occurs in the filtered table as often as in the input when its
      value is selected, and not at all otherwise. */
  lemma SelectRowsCounts(f: Frame, col: string, sel: seq<string>, row: Row)
    requires WellFormed(f) && col in f.columns
    requires All !in Normalize(sel)
    ensures SelectRows(f, col, Normalize(sel)).Ok?
    ensures multiset(Rows(SelectRows(f, col, Normalize(sel)).value))[row] ==
            if col in row.cells && row.cells[col] in Normalize(sel) then multiset(Rows(f))[row] else 0
  {
    IsInSelects(f, col, Normalize(sel));
    FilterCounts(Rows(f), ValueIn(col, Normalize(sel)), row);
  }

  /** An empty selection has no "all", so the `isin` branch runs and no
      row is left; on a missing column it raises instead. */
  lemma EmptySelectionKeepsNothing(f: Frame, col: string)
    requires WellFormed(f)
    ensures col in f.columns ==> SelectRows(f, col, Normalize([])) == Ok(Frame(f.columns, []))
    ensures col !in f.columns ==> SelectRows(f, col, Normalize([])) == Err(MissingColumn(col))
  {
    FilterEmptyIff(f.entries, OnRow(ValueIn(col, [])));
    ResetIndexKeepsRows(Frame(f.columns, []));
  }
}
