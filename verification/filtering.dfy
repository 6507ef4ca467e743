/**
 * The sidebar filters of streamlit_app.py: apply_filter keeps the rows whose
 * cell is among the selected values (an empty selection keeps everything),
 * and five such filters run one after another over the tagged customer table.
 */
module Filtering {
  import opened Cells
  import opened Cohort

  /** a is b with some rows deleted, the rest in their original order. */
  predicate IsSubsequence<T(==)>(a: seq<T>, b: seq<T>)
    decreases |b|
  {
    if a == [] then true
    else if b == [] then false
    else if a[|a| - 1] == b[|b| - 1] then IsSubsequence(a[..|a| - 1], b[..|b| - 1])
    else IsSubsequence(a, b[..|b| - 1])
  }

  lemma {:induction false} SubsequenceDropLast<T>(a: seq<T>, b: seq<T>)
    requires a != [] && IsSubsequence(a, b)
    ensures IsSubsequence(a[..|a| - 1], b)
    decreases |b|
  {
    var a', b' := a[..|a| - 1], b[..|b| - 1];
    if a' != [] {
      if a[|a| - 1] != b[|b| - 1] {
        SubsequenceDropLast(a, b');
      }
      if a'[|a'| - 1] == b[|b| - 1] {
        SubsequenceDropLast(a', b');
      }
    }
  }

  /** A subsequence of b is a subsequence of b extended at the end. */
  lemma SubsequenceExtend<T>(a: seq<T>, b: seq<T>, x: T)
    requires IsSubsequence(a, b)
    ensures IsSubsequence(a, b + [x])
  {
    assert (b + [x])[..|b|] == b;
    if a != [] && a[|a| - 1] == x {
      SubsequenceDropLast(a, b);
    }
  }

  /** One filter step: a column and the values selected for it. */
  datatype Condition = Condition(col: Column, values: seq<Cell>)

  /** A row passes a condition whose selection is empty or holds the row's cell. */
  predicate Admits(c: Condition, r: Row) {
    c.values == [] || Get(r, c.col) in c.values
  }

  /** A row passes every condition of the list. */
  predicate AdmitsAll(conds: seq<Condition>, r: Row) {
    forall c :: c in conds ==> Admits(c, r)
  }

  lemma AdmitsAllAppend(conds: seq<Condition>, c: Condition, r: Row)
    ensures AdmitsAll(conds + [c], r) <==> AdmitsAll(conds, r) && Admits(c, r)
  {
    assert forall d :: d in conds + [c] <==> d in conds || d == c;
  }

  /** The rows that pass every condition, in table order. */
  function SelectRows(df: seq<Row>, conds: seq<Condition>): seq<Row> {
    if df == [] then []
    else
      var last := df[|df| - 1];
      SelectRows(df[..|df| - 1], conds) + if AdmitsAll(conds, last) then [last] else []
  }

  /** Selecting only deletes rows: the result is a subsequence of the table. */
  lemma {:induction false} SelectRowsSubsequence(df: seq<Row>, conds: seq<Condition>)
    ensures IsSubsequence(SelectRows(df, conds), df)
    decreases |df|
  {
    if df != [] {
      var init, last := df[..|df| - 1], df[|df| - 1];
      var rest := SelectRows(init, conds);
      SelectRowsSubsequence(init, conds);
      assert df == init + [last];
      if AdmitsAll(conds, last) {
        assert (rest + [last])[..|rest|] == rest;
      } else {
        assert SelectRows(df, conds) == rest + [] == rest;
        SubsequenceExtend(rest, init, last);
      }
    }
  }

  /** The selected rows are exactly the table's rows that pass every condition. */
  lemma {:induction false} SelectRowsMembers(df: seq<Row>, conds: seq<Condition>, r: Row)
    ensures r in SelectRows(df, conds) <==> r in df && AdmitsAll(conds, r)
    decreases |df|
  {
    if df != [] {
      var init, last := df[..|df| - 1], df[|df| - 1];
      SelectRowsMembers(init, conds, r);
      assert df == init + [last];
    }
  }

  /** df[df[column].isin(values)]: the rows whose cell is one of the values. */
  function KeepIn(df: seq<Row>, col: Column, values: seq<Cell>): (kept: seq<Row>)
    ensures |kept| <= |df|
    ensures forall i :: 0 <= i < |kept| ==> kept[i] in df && Get(kept[i], col) in values
  {
    if df == [] then []
    else
      var last := df[|df| - 1];
      KeepIn(df[..|df| - 1], col, values) + if Get(last, col) in values then [last] else []
  }

  /** apply_filter: with a non-empty selection, isin; with an empty one, the table itself. */
  function ApplyFilter(df: seq<Row>, col: Column, values: seq<Cell>): (kept: seq<Row>)
    ensures values == [] ==> kept == df
    ensures |kept| <= |df|
    ensures forall i :: 0 <= i < |kept| ==> kept[i] in df && (values == [] || Get(kept[i], col) in values)
  {
    if values != [] then KeepIn(df, col, values) else df
  }

  /** Filtering a table already reduced by some conditions is the same as adding the condition. */
  lemma ApplyFilterAddsCondition(df: seq<Row>, conds: seq<Condition>, col: Column, values: seq<Cell>)
    ensures ApplyFilter(SelectRows(df, conds), col, values) == SelectRows(df, conds + [Condition(col, values)])
  {
    var conds' := conds + [Condition(col, values)];
    if values != [] {
      KeepInSelects(df, conds, col, values);
    } else {
      forall r ensures AdmitsAll(conds', r) <==> AdmitsAll(conds, r) {
        AdmitsAllAppend(conds, Condition(col, values), r);
      }
      SelectSameRows(df, conds, conds');
    }
  }

  lemma {:induction false} KeepInSelects(df: seq<Row>, conds: seq<Condition>, col: Column, values: seq<Cell>)
    requires values != []
    ensures KeepIn(SelectRows(df, conds), col, values) == SelectRows(df, conds + [Condition(col, values)])
    decreases |df|
  {
    if df != [] {
      var init, last := df[..|df| - 1], df[|df| - 1];
      KeepInSelects(init, conds, col, values);
      AdmitsAllAppend(conds, Condition(col, values), last);
      var rest := SelectRows(init, conds);
      if AdmitsAll(conds, last) {
        assert (rest + [last])[..|rest|] == rest;
      } else {
        assert SelectRows(df, conds) == rest + [] == rest;
      }
    }
  }

  /** Two lists of conditions that pass the same rows select the same rows. */
  lemma {:induction false} SelectSameRows(df: seq<Row>, conds: seq<Condition>, conds': seq<Condition>)
    requires forall r :: AdmitsAll(conds, r) <==> AdmitsAll(conds', r)
    ensures SelectRows(df, conds) == SelectRows(df, conds')
    decreases |df|
  {
    if df != [] {
      SelectSameRows(df[..|df| - 1], conds, conds');
    }
  }

  /** Which rows are selected depends only on the set of conditions, not on their order. */
  lemma SelectSameConditions(df: seq<Row>, conds: seq<Condition>, conds': seq<Condition>)
    requires forall c :: c in conds <==> c in conds'
    ensures SelectRows(df, conds) == SelectRows(df, conds')
  {
    SelectSameRows(df, conds, conds');
  }

  /**
   * apply_filter keeps, in order, the rows whose cell is selected, or every
   * row when nothing is selected.
   */
  lemma ApplyFilterSelects(df: seq<Row>, col: Column, values: seq<Cell>)
    ensures ApplyFilter(df, col, values) == SelectRows(df, [Condition(col, values)])
    ensures IsSubsequence(ApplyFilter(df, col, values), df)
    ensures values == [] ==> ApplyFilter(df, col, values) == df
  {
    SelectRowsSubsequence(df, [Condition(col, values)]);
    SelectNothing(df);
    ApplyFilterAddsCondition(df, [], col, values);
    assert [] + [Condition(col, values)] == [Condition(col, values)];
  }

  /** No condition keeps the whole table. */
  lemma {:induction false} SelectNothing(df: seq<Row>)
    ensures SelectRows(df, []) == df
    decreases |df|
  {
    if df != [] {
      SelectNothing(df[..|df| - 1]);
    }
  }

  /** A second apply_filter with the same selection changes nothing. */
  lemma ApplyFilterIdempotent(df: seq<Row>, col: Column, values: seq<Cell>)
    ensures ApplyFilter(ApplyFilter(df, col, values), col, values) == ApplyFilter(df, col, values)
  {
    var c := Condition(col, values);
    ApplyFilterSelects(df, col, values);
    ApplyFilterAddsCondition(df, [c], col, values);
    SelectSameConditions(df, [c] + [c], [c]);
  }

  /** Two filter steps give the same rows in either order. */
  lemma ApplyFilterCommutes(df: seq<Row>, col1: Column, values1: seq<Cell>, col2: Column, values2: seq<Cell>)
    ensures ApplyFilter(ApplyFilter(df, col1, values1), col2, values2)
         == ApplyFilter(ApplyFilter(df, col2, values2), col1, values1)
  {
    var c1, c2 := Condition(col1, values1), Condition(col2, values2);
    ApplyFilterSelects(df, col1, values1);
    ApplyFilterSelects(df, col2, values2);
    ApplyFilterAddsCondition(df, [c1], col2, values2);
    ApplyFilterAddsCondition(df, [c2], col1, values1);
    SelectSameConditions(df, [c1] + [c2], [c2] + [c1]);
  }

  /** When every row passes every condition, nothing is removed. */
  lemma {:induction false} SelectAllPass(df: seq<Row>, conds: seq<Condition>)
    requires forall r :: r in df ==> AdmitsAll(conds, r)
    ensures SelectRows(df, conds) == df
    decreases |df|
  {
    if df != [] {
      var init, last := df[..|df| - 1], df[|df| - 1];
      assert last in df && AdmitsAll(conds, last);
      assert forall r :: r in init ==> r in df;
      SelectAllPass(init, conds);
      assert df == init + [last];
    }
  }

  // ---------------------------------------------------------------------------
  // The five-step chain of the sidebar.

  /** The values selected in the five multiselects. */
  datatype Selection = Selection(
    years: seq<Cell>,
    finYears: seq<Cell>,
    finQuarters: seq<Cell>,
    states: seq<Cell>,
    statuses: seq<Cell>)

  /** The five filter steps in the order the sidebar applies them. */
  function Conditions(sel: Selection): seq<Condition> {
    [Condition(JoinYear, sel.years), Condition(JoinFinYr, sel.finYears),
     Condition(JoinFinQtr, sel.finQuarters), Condition(StateColumn, sel.states),
     Condition(Status, sel.statuses)]
  }

  /** The filters of conds applied one after another, first condition first. */
  function ApplyEach(df: seq<Row>, conds: seq<Condition>): seq<Row>
    decreases |conds|
  {
    if conds == [] then df
    else
      var c := conds[|conds| - 1];
      ApplyFilter(ApplyEach(df, conds[..|conds| - 1]), c.col, c.values)
  }

  /** Chaining apply_filter over a list of conditions selects the rows that pass them all. */
  lemma {:induction false} ApplyEachSelects(df: seq<Row>, conds: seq<Condition>)
    ensures ApplyEach(df, conds) == SelectRows(df, conds)
    decreases |conds|
  {
    if conds == [] {
      SelectNothing(df);
    } else {
      var init, c := conds[..|conds| - 1], conds[|conds| - 1];
      ApplyEachSelects(df, init);
      ApplyFilterAddsCondition(df, init, c.col, c.values);
      assert init + [c] == conds;
    }
  }

  /**
   * df_filtered: the customer table reassigned through the five filters. The
   * result holds, in table order, exactly the rows that pass every non-empty
   * selection.
   */
  method FilterCustomers(df: seq<Row>, sel: Selection) returns (filtered: seq<Row>)
    ensures filtered == SelectRows(df, Conditions(sel))
  {
    ghost var c := Conditions(sel);
    filtered := ApplyFilter(df, JoinYear, sel.years);
    assert filtered == ApplyEach(df, c[..1]) by {
      assert c[..1][..0] == [];
    }
    filtered := ApplyFilter(filtered, JoinFinYr, sel.finYears);
    assert filtered == ApplyEach(df, c[..2]) by {
      assert c[..2][..1] == c[..1];
    }
    filtered := ApplyFilter(filtered, JoinFinQtr, sel.finQuarters);
    assert filtered == ApplyEach(df, c[..3]) by {
      assert c[..3][..2] == c[..2];
    }
    filtered := ApplyFilter(filtered, StateColumn, sel.states);
    assert filtered == ApplyEach(df, c[..4]) by {
      assert c[..4][..3] == c[..3];
    }
    filtered := ApplyFilter(filtered, Status, sel.statuses);
    assert filtered == ApplyEach(df, c) by {
      assert c[..4] == c[..|c| - 1];
    }
    ApplyEachSelects(df, c);
  }

  /** The sidebar's defaults: every option of every column selected. */
  function DefaultSelection(df: seq<Row>): (sel: Selection)
    ensures forall c :: c in Conditions(sel) ==> c.values == Options(df, c.col)
  {
    Selection(Options(df, JoinYear), Options(df, JoinFinYr), Options(df, JoinFinQtr),
              Options(df, StateColumn), Options(df, Status))
  }

  /** With the default selections the filtered table is the whole customer table. */
  lemma DefaultSelectionKeepsAll(df: seq<Row>)
    ensures SelectRows(df, Conditions(DefaultSelection(df))) == df
  {
    var conds := Conditions(DefaultSelection(df));
    forall r | r in df ensures AdmitsAll(conds, r) {
      forall c | c in conds ensures Admits(c, r) {
        OptionsCoverRows(df, c.col, r);
      }
    }
    SelectAllPass(df, conds);
  }
}
