/**
 * The group counts of streamlit_app.py: df_filtered.groupby(keys).size(),
 * once by state for the map and once by the join-cohort columns for the table.
 * Rows whose key is missing fall out of the groups, as pandas drops NaN keys.
 */
module Grouping {
  import opened Wrappers
  import opened Counting
  import opened FiscalPeriod
  import opened Geography
  import opened Cohort

  /** One line of a size() table: a key and the number of rows that carry it. */
  datatype Group<K> = Group(key: K, size: nat)

  /** The distinct values of xs, each once, in order of first appearance. */
  function Distinct<K(==, !new)>(xs: seq<K>): (d: seq<K>)
    ensures forall i, j :: 0 <= i < j < |d| ==> d[i] != d[j]
    ensures forall k :: k in d <==> k in xs
  {
    if xs == [] then []
    else
      var init, last := xs[..|xs| - 1], xs[|xs| - 1];
      assert xs == init + [last];
      if last in init then Distinct(init) else Distinct(init) + [last]
  }

  /** The group of each key of keys, sized by how often xs holds it. */
  function Tally<K(==, !new)>(keys: seq<K>, xs: seq<K>): (groups: seq<Group<K>>)
    ensures |groups| == |keys|
    ensures forall i :: 0 <= i < |keys| ==> groups[i] == Group(keys[i], Occurrences(xs, keys[i]))
  {
    if keys == [] then []
    else Tally(keys[..|keys| - 1], xs) + [Group(keys[|keys| - 1], Occurrences(xs, keys[|keys| - 1]))]
  }

  /** The keys that are present, in row order: groupby leaves out NaN keys. */
  function Present<K(!new)>(keys: seq<Option<K>>): (ps: seq<K>)
    ensures forall k :: k in ps <==> Some(k) in keys
  {
    if keys == [] then []
    else
      var init, last := keys[..|keys| - 1], keys[|keys| - 1];
      assert keys == init + [last];
      Present(init) + if last.Some? then [last.value] else []
  }

  /**
   * groupby(key).size(): one group per distinct present key, none for a key
   * that does not occur, each sized by the number of rows with that key.
   */
  function GroupSizes<K(==, !new)>(keys: seq<Option<K>>): (groups: seq<Group<K>>)
    ensures forall i, j :: 0 <= i < j < |groups| ==> groups[i].key != groups[j].key
    ensures forall k :: (exists i :: 0 <= i < |groups| && groups[i].key == k) <==> Some(k) in keys
    ensures forall g :: g in groups ==> g.size >= 1 && g.size == Occurrences(keys, Some(g.key))
  {
    var ps := Present(keys);
    var d := Distinct(ps);
    var groups := Tally(d, ps);
    forall k ensures Occurrences(ps, k) == Occurrences(keys, Some(k)) {
      PresentOccurrences(keys, k);
    }
    forall k | (exists i :: 0 <= i < |groups| && groups[i].key == k) ensures Some(k) in keys {
      var i :| 0 <= i < |groups| && groups[i].key == k;
      assert d[i] in d;
    }
    forall k | Some(k) in keys ensures exists i :: 0 <= i < |groups| && groups[i].key == k {
      var i :| 0 <= i < |d| && d[i] == k;
      assert groups[i].key == k;
    }
    groups
  }

  lemma {:induction false} PresentOccurrences<K(!new)>(keys: seq<Option<K>>, k: K)
    ensures Occurrences(Present(keys), k) == Occurrences(keys, Some(k))
    decreases |keys|
  {
    if keys != [] {
      var init, last := keys[..|keys| - 1], keys[|keys| - 1];
      PresentOccurrences(init, k);
      OccurrencesAppend(Present(init), if last.Some? then [last.value] else [], k);
    }
  }

  /** The sum of the group sizes: the row count of the size() table. */
  function TotalSize<K>(groups: seq<Group<K>>): nat {
    if groups == [] then 0 else TotalSize(groups[..|groups| - 1]) + groups[|groups| - 1].size
  }

  /** Adding one row with key x adds one to the total when x is among the tallied keys. */
  lemma {:induction false} TallyAddRow<K(!new)>(d: seq<K>, xs: seq<K>, x: K)
    requires forall i, j :: 0 <= i < j < |d| ==> d[i] != d[j]
    ensures TotalSize(Tally(d, xs + [x])) == TotalSize(Tally(d, xs)) + if x in d then 1 else 0
    decreases |d|
  {
    if d != [] {
      var init := d[..|d| - 1];
      TallyAddRow(init, xs, x);
      assert Tally(d, xs + [x])[..|init|] == Tally(init, xs + [x]);
      assert Tally(d, xs)[..|init|] == Tally(init, xs);
      assert (xs + [x])[..|xs|] == xs;
      assert x in d <==> x in init || x == d[|d| - 1];
      assert x == d[|d| - 1] ==> x !in init;
    }
  }

  /** Counting every distinct value of xs accounts for every element of xs. */
  lemma {:induction false} TallyDistinctTotal<K(!new)>(xs: seq<K>)
    ensures TotalSize(Tally(Distinct(xs), xs)) == |xs|
    decreases |xs|
  {
    if xs != [] {
      var init, last := xs[..|xs| - 1], xs[|xs| - 1];
      assert xs == init + [last];
      var d0 := Distinct(init);
      TallyDistinctTotal(init);
      TallyAddRow(d0, init, last);
      if last !in init {
        var d := d0 + [last];
        assert Tally(d, xs)[..|d0|] == Tally(d0, xs);
        assert Occurrences(init, last) == 0;
      }
    }
  }

  /**
   * Conservation: the group sizes add up to the number of rows whose key is
   * present.
   */
  lemma GroupSizesTotal<K(!new)>(keys: seq<Option<K>>)
    ensures TotalSize(GroupSizes(keys)) == |Present(keys)|
  {
    TallyDistinctTotal(Present(keys));
  }

  /** Every group's key is the key of some row. */
  lemma GroupHasRow<K(!new)>(keys: seq<Option<K>>, g: Group<K>)
    requires g in GroupSizes(keys)
    ensures g.size >= 1 && exists j :: 0 <= j < |keys| && keys[j] == Some(g.key)
  {
    assert Some(g.key) in keys;
  }

  /** Every row with a present key has its group. */
  lemma RowHasGroup<K(!new)>(keys: seq<Option<K>>, j: int)
    requires 0 <= j < |keys| && keys[j].Some?
    ensures exists g :: g in GroupSizes(keys) && g.key == keys[j].value
  {
    var groups := GroupSizes(keys);
    assert Some(keys[j].value) in keys;
    var i :| 0 <= i < |groups| && groups[i].key == keys[j].value;
    assert groups[i] in groups;
  }

  // ---------------------------------------------------------------------------
  // The two aggregations of the dashboard.

  /** The state column of the filtered table. */
  function StateKeys(df: seq<Row>): (keys: seq<Option<State>>)
    ensures |keys| == |df|
    ensures forall i :: 0 <= i < |df| ==> keys[i] == df[i].state
  {
    seq(|df|, i requires 0 <= i < |df| => df[i].state)
  }

  /**
   * groupby('state').size(): one group for each state some customer has, none
   * for any other state, so unmapped customers are left out.
   */
  function CountByState(df: seq<Row>): (groups: seq<Group<State>>)
    ensures forall i, j :: 0 <= i < j < |groups| ==> groups[i].key != groups[j].key
    ensures forall g :: g in groups ==> g.size == Occurrences(StateKeys(df), Some(g.key))
    ensures forall g :: g in groups ==> g.size >= 1 && exists r :: r in df && r.state == Some(g.key)
    ensures forall r :: r in df && r.state.Some? ==> exists g :: g in groups && g.key == r.state.value
  {
    var keys := StateKeys(df);
    var groups := GroupSizes(keys);
    forall g | g in groups ensures g.size >= 1 && exists r :: r in df && r.state == Some(g.key) {
      GroupHasRow(keys, g);
      var j :| 0 <= j < |keys| && keys[j] == Some(g.key);
      assert df[j] in df;
    }
    forall r | r in df && r.state.Some? ensures exists g :: g in groups && g.key == r.state.value {
      var j :| 0 <= j < |df| && df[j] == r;
      RowHasGroup(keys, j);
    }
    groups
  }

  /** The rows whose postcode has a state. */
  function MappedRows(df: seq<Row>): nat {
    if df == [] then 0 else MappedRows(df[..|df| - 1]) + if df[|df| - 1].state.Some? then 1 else 0
  }

  /** The state counts add up to the number of filtered customers that have a state. */
  lemma CountByStateTotal(df: seq<Row>)
    ensures TotalSize(CountByState(df)) == MappedRows(df)
  {
    GroupSizesTotal(StateKeys(df));
    PresentLength(df);
  }

  lemma {:induction false} PresentLength(df: seq<Row>)
    ensures |Present(StateKeys(df))| == MappedRows(df)
    decreases |df|
  {
    if df != [] {
      PresentLength(df[..|df| - 1]);
      assert StateKeys(df)[..|df| - 1] == StateKeys(df[..|df| - 1]);
    }
  }

  /** The cohort columns the table groups by. */
  datatype CohortKey = CohortKey(joinYear: int, joinMonth: Month, joinQuarter: string, joinFinYr: int, joinFinQtr: string)

  /** The join cohort of one row. */
  function CohortOf(r: Row): CohortKey {
    CohortKey(r.joinYear, r.joinMonth, r.joinQuarter, r.joinFinYr, r.joinFinQtr)
  }

  function CohortKeys(df: seq<Row>): (keys: seq<Option<CohortKey>>)
    ensures |keys| == |df|
    ensures forall i :: 0 <= i < |df| ==> keys[i] == Some(CohortOf(df[i]))
  {
    seq(|df|, i requires 0 <= i < |df| => Some(CohortOf(df[i])))
  }

  /**
   * groupby([join_year, join_month, join_quarter, join_fin_yr, join_fin_qtr]).size():
   * one group for each cohort some customer joined in, none for any other.
   */
  function CountByCohort(df: seq<Row>): (groups: seq<Group<CohortKey>>)
    ensures forall i, j :: 0 <= i < j < |groups| ==> groups[i].key != groups[j].key
    ensures forall g :: g in groups ==> g.size == Occurrences(CohortKeys(df), Some(g.key))
    ensures forall g :: g in groups ==> g.size >= 1 && exists r :: r in df && CohortOf(r) == g.key
    ensures forall r :: r in df ==> exists g :: g in groups && g.key == CohortOf(r)
  {
    var keys := CohortKeys(df);
    var groups := GroupSizes(keys);
    forall g | g in groups ensures g.size >= 1 && exists r :: r in df && CohortOf(r) == g.key {
      GroupHasRow(keys, g);
      var j :| 0 <= j < |keys| && keys[j] == Some(g.key);
      assert df[j] in df;
    }
    forall r | r in df ensures exists g :: g in groups && g.key == CohortOf(r) {
      var j :| 0 <= j < |df| && df[j] == r;
      RowHasGroup(keys, j);
    }
    groups
  }

  /** No cohort key is missing, so the cohort counts add up to every filtered row. */
  lemma CountByCohortTotal(df: seq<Row>)
    ensures TotalSize(CountByCohort(df)) == |df|
  {
    GroupSizesTotal(CohortKeys(df));
    AllPresent(CohortKeys(df));
  }

  lemma {:induction false} AllPresent<K(!new)>(keys: seq<Option<K>>)
    requires forall i :: 0 <= i < |keys| ==> keys[i].Some?
    ensures |Present(keys)| == |keys|
    decreases |keys|
  {
    if keys != [] {
      AllPresent(keys[..|keys| - 1]);
    }
  }
}
