/** A chain of `multiselect_filter` stages, one per categorical column, run
    one after the other on a table, as the `.pipe` chains and the filter
    loop of the dashboards do. */
module Stages {
  import opened Seqs
  import opened Frames
  import opened Multiselect

  /** A stage really filters unless its list is the default `['all']` or
      holds "all" at least twice (ActiveIff: exactly when the normalized
      list has no "all"). */
  predicate Active(sel: seq<string>) {
    !(sel == [All] || multiset(sel)[All] >= 2)
  }

  lemma ActiveIff(sel: seq<string>)
    ensures Active(sel) <==> All !in Normalize(sel)
  {
    PassThroughIff(sel);
  }

  /** The condition a row must meet to pass one `multiselect_filter` stage. */
  function StagePred(col: string, sel: seq<string>): Row -> bool {
    if Active(sel) then ValueIn(col, Normalize(sel)) else Always()
  }

  /** `.pipe(multiselect_filter, col, sel)` on a table, or the exception
      raised by an earlier stage. */
  function Then(r: Result<Frame>, col: string, sel: seq<string>): Result<Frame> {
    match r
    case Err(e) => Err(e)
    case Ok(f) => SelectRows(f, col, Normalize(sel))
  }

  /** `.pipe(multiselect_filter, col, sel)` in a chain: the stage runs on
      the table the previous stage returned; once a stage has raised, the
      rest of the chain does not run and the list is left alone. */
  method Pipe(r: Result<Frame>, col: string, sel: SelectionList) returns (next: Result<Frame>)
    modifies sel
    ensures next == Then(r, col, old(sel.items))
    ensures sel.items == if r.Ok? then Normalize(old(sel.items)) else old(sel.items)
  {
    match r
    case Err(e) =>
      next := Err(e);
    case Ok(f) =>
      next := MultiselectFilter(f, col, sel);
  }

  /** The stages for `cols` run one after the other, the last one last. */
  function RunStages(f: Frame, cols: seq<string>, sels: seq<seq<string>>): Result<Frame>
    requires |cols| == |sels|
    decreases |cols|
  {
    if cols == [] then Ok(f)
    else Then(RunStages(f, cols[..|cols| - 1], sels[..|sels| - 1]), cols[|cols| - 1], sels[|sels| - 1])
  }

  /** The stage conditions, one per column. */
  function StagePreds(cols: seq<string>, sels: seq<seq<string>>): seq<Row -> bool>
    requires |cols| == |sels|
  {
    seq(|cols|, i requires 0 <= i < |cols| => StagePred(cols[i], sels[i]))
  }

  /** The conjunction of the stage conditions, built in stage order. */
  function Conj(cols: seq<string>, sels: seq<seq<string>>): Row -> bool
    requires |cols| == |sels|
  {
    AllOf(StagePreds(cols, sels))
  }

  /** The conjunction over all stages is the one over all but the last,
      and the last. */
  lemma ConjStep(cols: seq<string>, sels: seq<seq<string>>)
    requires |cols| == |sels| && cols != []
    ensures Conj(cols, sels) ==
            And(Conj(cols[..|cols| - 1], sels[..|sels| - 1]), StagePred(cols[|cols| - 1], sels[|sels| - 1]))
  {
    var n := |cols| - 1;
    var ps := StagePreds(cols, sels);
    var qs := StagePreds(cols[..n], sels[..n]);
    assert ps[..n] == qs by {
      forall i | 0 <= i < n
        ensures ps[..n][i] == qs[i]
      {
        assert cols[..n][i] == cols[i] && sels[..n][i] == sels[i];
      }
    }
  }

  /** Running the first k + 1 stages is running the first k and then stage k. */
  lemma RunStagesPrefix(f: Frame, cols: seq<string>, sels: seq<seq<string>>, k: nat)
    requires |cols| == |sels| && k < |cols|
    ensures RunStages(f, cols[..k + 1], sels[..k + 1]) == Then(RunStages(f, cols[..k], sels[..k]), cols[k], sels[k])
  {
    assert cols[..k + 1][..k] == cols[..k] && sels[..k + 1][..k] == sels[..k];
  }

  /** The first `n` stages, counted rather than sliced off. */
  function RunFirst(f: Frame, cols: seq<string>, sels: seq<seq<string>>, n: nat): Result<Frame>
    requires n <= |cols| == |sels|
  {
    if n == 0 then Ok(f) else Then(RunFirst(f, cols, sels, n - 1), cols[n - 1], sels[n - 1])
  }

  /** Counting off the first `n` stages is running the stages of the first
      `n` columns. */
  lemma {:induction false} RunFirstIsPrefix(f: Frame, cols: seq<string>, sels: seq<seq<string>>, n: nat)
    requires n <= |cols| == |sels|
    ensures RunFirst(f, cols, sels, n) == RunStages(f, cols[..n], sels[..n])
  {
    if n > 0 {
      RunFirstIsPrefix(f, cols, sels, n - 1);
      RunStagesPrefix(f, cols, sels, n - 1);
    }
  }

  /** One stage on a table that has its column: it succeeds, keeps the
      schema, and keeps exactly the rows meeting the stage condition. */
  lemma StageSelects(f: Frame, col: string, sel: seq<string>)
    requires WellFormed(f) && col in f.columns
    ensures SelectRows(f, col, Normalize(sel)).Ok?
    ensures var g := SelectRows(f, col, Normalize(sel)).value;
      && g.columns == f.columns && WellFormed(g)
      && Rows(g) == Filter(Rows(f), StagePred(col, sel))
      && (Active(sel) ==> Renumbered(g))
      && (!Active(sel) ==> g == f)
  {
    ActiveIff(sel);
    if Active(sel) {
      SelectRowsKeepsMatching(f, col, sel);
    } else {
      FilterKeepsAll(Rows(f), Always());
    }
  }

  /** The part of StageSelects a chain of stage calls needs to run the
      next stage: success and the schema. The methods call this smaller
      lemma rather than StageSelects, whose row equations make their proofs
      much costlier. */
  lemma StageKeepsSchema(f: Frame, col: string, sel: seq<string>)
    requires WellFormed(f) && col in f.columns
    ensures SelectRows(f, col, Normalize(sel)).Ok?
    ensures SelectRows(f, col, Normalize(sel)).value.columns == f.columns
    ensures WellFormed(SelectRows(f, col, Normalize(sel)).value)
  {
    StageSelects(f, col, sel);
  }

  /** On a table that has every filtered column, the stages succeed, keep
      the schema, and keep exactly the rows that satisfy all stage
      conditions, in their original order. */
  lemma {:induction false} RunStagesSelects(f: Frame, cols: seq<string>, sels: seq<seq<string>>)
    requires |cols| == |sels| && WellFormed(f)
    requires forall i :: 0 <= i < |cols| ==> cols[i] in f.columns
    ensures RunStages(f, cols, sels).Ok?
    ensures var g := RunStages(f, cols, sels).value;
      && g.columns == f.columns && WellFormed(g)
      && Rows(g) == Filter(Rows(f), Conj(cols, sels))
    decreases |cols|
  {
    if cols == [] {
      FilterKeepsAll(Rows(f), Always());
    } else {
      var n := |cols| - 1;
      var pc, ps := cols[..n], sels[..n];
      assert forall i :: 0 <= i < n ==> pc[i] == cols[i];
      RunStagesSelects(f, pc, ps);
      var g0 := RunStages(f, pc, ps).value;
      StageSelects(g0, cols[n], sels[n]);
      FilterFilter(Rows(f), Conj(pc, ps), StagePred(cols[n], sels[n]));
      ConjStep(cols, sels);
    }
  }

  /** If stage `j` really filters, the result is renumbered from 0 (later
      stages either renumber again or leave the table as it is). */
  lemma {:induction false} RunStagesRenumbers(f: Frame, cols: seq<string>, sels: seq<seq<string>>, j: nat)
    requires |cols| == |sels| && WellFormed(f)
    requires forall i :: 0 <= i < |cols| ==> cols[i] in f.columns
    requires j < |cols| && Active(sels[j])
    ensures RunStages(f, cols, sels).Ok?
    ensures Renumbered(RunStages(f, cols, sels).value)
    decreases |cols|
  {
    var n := |cols| - 1;
    var pc, ps := cols[..n], sels[..n];
    var last := Active(sels[n]);
    assert !last ==> j < n && ps[j] == sels[j];
    assert forall i :: 0 <= i < n ==> pc[i] == cols[i];
    RunStagesSelects(f, pc, ps);
    var g0 := RunStages(f, pc, ps).value;
    StageSelects(g0, cols[n], sels[n]);
    if !last {
      RunStagesRenumbers(f, pc, ps, j);
    }
  }

  /** If no stage really filters, the stages give back the input itself. */
  lemma {:induction false} RunStagesIdentity(f: Frame, cols: seq<string>, sels: seq<seq<string>>)
    requires |cols| == |sels|
    requires forall i :: 0 <= i < |sels| ==> !Active(sels[i])
    ensures RunStages(f, cols, sels) == Ok(f)
    decreases |cols|
  {
    if cols != [] {
      var n := |cols| - 1;
      assert forall i :: 0 <= i < n ==> sels[..n][i] == sels[i];
      RunStagesIdentity(f, cols[..n], sels[..n]);
      ActiveIff(sels[n]);
    }
  }

  /** With every list at its default `['all']`, the stages give back the input. */
  lemma DefaultStagesKeepAll(f: Frame, cols: seq<string>, sels: seq<seq<string>>)
    requires |cols| == |sels|
    requires forall i :: 0 <= i < |sels| ==> sels[i] == [All]
    ensures RunStages(f, cols, sels) == Ok(f)
  {
    RunStagesIdentity(f, cols, sels);
  }
}
