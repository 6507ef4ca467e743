/**
 * The customer table of streamlit_app.py: each customer row gains its cohort
 * columns (join year and month, financial quarter and year, the composite
 * label, the state of its postcode), and each filterable column yields the
 * sorted list of its distinct values that the sidebar offers.
 */
module Cohort {
  import opened Wrappers
  import opened FiscalPeriod
  import opened Geography
  import opened Cells

  /** A customer as loaded: postcode, join date and status. */
  datatype Customer = Customer(postcode: Postcode, joinDate: Date, status: string)

  /** A customer row with the derived cohort columns added; a missing state is NaN. */
  datatype Row = Row(
    customer: Customer,
    joinYear: int,
    joinMonth: Month,
    joinQuarter: string,
    joinFinYr: int,
    joinFinQtr: string,
    state: Option<State>)

  /** The state column: the mapped state of the postcode, missing when it has no entry. */
  function LookupState(stateMap: map<Postcode, State>, p: Postcode): (s: Option<State>)
    ensures s.Some? <==> p in stateMap
    ensures s.Some? ==> s.value == stateMap[p]
  {
    if p in stateMap then Some(stateMap[p]) else None
  }

  /** The derived columns of a row hold what the deriver computes from its own join date. */
  predicate WellTagged(r: Row, stateMap: map<Postcode, State>) {
    && r.joinYear == r.customer.joinDate.year
    && r.joinMonth == r.customer.joinDate.month
    && r.joinQuarter == FinancialQuarter(r.joinMonth)
    && r.joinFinYr == FinancialYear(r.customer.joinDate)
    && r.joinFinQtr == FinancialYearQuarter(r.joinFinYr, r.joinQuarter)
    && r.state == LookupState(stateMap, r.customer.postcode)
  }

  /** The cohort columns of one customer, next to the customer's own fields. */
  function Tag(c: Customer, stateMap: map<Postcode, State>): (r: Row)
    ensures r.customer == c && WellTagged(r, stateMap)
  {
    var quarter := FinancialQuarter(c.joinDate.month);
    var fy := FinancialYear(c.joinDate);
    Row(c, c.joinDate.year, c.joinDate.month, quarter, fy,
        FinancialYearQuarter(fy, quarter), LookupState(stateMap, c.postcode))
  }

  /**
   * What the cohort columns of a tagged row promise: the quarter is a real
   * one, it agrees with the financial year, the label parses back into that
   * year and quarter, and the state is there exactly when the postcode is
   * mapped.
   */
  lemma TaggedRowConsistent(r: Row, stateMap: map<Postcode, State>)
    requires WellTagged(r, stateMap)
    ensures r.joinQuarter in Quarters
    ensures r.joinQuarter in {"Q1", "Q2"} <==> r.joinFinYr == r.joinYear
    ensures r.joinQuarter in {"Q3", "Q4"} <==> r.joinFinYr == r.joinYear - 1
    ensures ParseLabel(r.joinFinQtr) == Some((r.joinFinYr, r.joinQuarter))
    ensures r.state.Some? <==> r.customer.postcode in stateMap
  {
    QuarterAgreesWithYear(r.customer.joinDate);
    LabelRoundTrip(r.joinFinYr, r.joinQuarter);
  }

  /** The customer table with every row tagged, row i being customer i. */
  function TagAll(customers: seq<Customer>, stateMap: map<Postcode, State>): (df: seq<Row>)
    ensures |df| == |customers|
    ensures forall i :: 0 <= i < |df| ==> df[i] == Tag(customers[i], stateMap)
  {
    seq(|customers|, i requires 0 <= i < |customers| => Tag(customers[i], stateMap))
  }

  /**
   * Adds the cohort columns to every customer: the table keeps its length and
   * order, and row i is customer i tagged.
   */
  method TagCustomers(customers: seq<Customer>, stateMap: map<Postcode, State>) returns (df: seq<Row>)
    ensures df == TagAll(customers, stateMap)
  {
    df := [];
    var i := 0;
    while i < |customers|
      invariant i <= |customers| && |df| == i
      invariant forall k :: 0 <= k < i ==> df[k] == Tag(customers[k], stateMap)
    {
      var row := Tag(customers[i], stateMap);
      df := df + [row];
      i := i + 1;
    }
    assert df == TagAll(customers, stateMap);
  }

  // ---------------------------------------------------------------------------
  // Filterable columns and their option lists.

  /** The five columns the sidebar filters on. */
  datatype Column = JoinYear | JoinFinYr | JoinFinQtr | StateColumn | Status

  /** The cell of a row in a filterable column. */
  function Get(r: Row, col: Column): (c: Cell)
    ensures c == NoCell <==> col == StateColumn && r.state.None?
  {
    match col
    case JoinYear => IntCell(r.joinYear)
    case JoinFinYr => IntCell(r.joinFinYr)
    case JoinFinQtr => StrCell(r.joinFinQtr)
    case StateColumn => if r.state.Some? then StrCell(r.state.value) else NoCell
    case Status => StrCell(r.customer.status)
  }

  /** df[column] as a list of cells. */
  function ColumnValues(df: seq<Row>, col: Column): (cells: seq<Cell>)
    ensures |cells| == |df|
    ensures forall i :: 0 <= i < |df| ==> cells[i] == Get(df[i], col)
  {
    seq(|df|, i requires 0 <= i < |df| => Get(df[i], col))
  }

  /**
   * The option list of a column with the missing value placed last: strictly
   * ascending, and holding exactly the values the column holds.
   */
  function Options(df: seq<Row>, col: Column): (opts: seq<Cell>)
    ensures StrictlyAscending(opts)
    ensures forall c :: c in opts <==> c in ColumnValues(df, col)
  {
    SortedUnique(ColumnValues(df, col))
  }

  /** Every row's cell is among the options of its column. */
  lemma OptionsCoverRows(df: seq<Row>, col: Column, r: Row)
    requires r in df
    ensures Get(r, col) in Options(df, col)
  {
    var i :| 0 <= i < |df| && df[i] == r;
    assert ColumnValues(df, col)[i] == Get(r, col);
  }

  /** A missing value can only be the last option. */
  lemma MissingSortsLast(df: seq<Row>, col: Column, i: int)
    requires 0 <= i < |Options(df, col)| && Options(df, col)[i] == NoCell
    ensures i == |Options(df, col)| - 1
  {
    var opts := Options(df, col);
    assert i + 1 < |opts| ==> CellLess(opts[i], opts[i + 1]);
  }

  /** Python's comparison error when `sorted` meets a string and NaN in one list. */
  datatype SortError = TypeError

  /** The column mixes a present string with a missing value. */
  predicate MixesStringAndMissing(df: seq<Row>, col: Column) {
    (exists a :: a in df && Get(a, col).StrCell?) && (exists b :: b in df && Get(b, col) == NoCell)
  }

  /**
   * sorted(df[column].unique().tolist()) as written: when the column holds a
   * state and a NaN, Python cannot order them and raises; otherwise the list
   * is the ascending distinct values.
   */
  function OptionsAsWritten(df: seq<Row>, col: Column): (r: Result<seq<Cell>, SortError>)
    ensures r.Failure? <==> MixesStringAndMissing(df, col)
    ensures r.Success? ==> r.value == Options(df, col)
  {
    if MixesStringAndMissing(df, col) then Failure(TypeError) else Success(Options(df, col))
  }

  /** Only the state column can make the option lists fail. */
  lemma OnlyStatesFail(df: seq<Row>, col: Column)
    requires OptionsAsWritten(df, col).Failure?
    ensures col == StateColumn
  {
    var b :| b in df && Get(b, col) == NoCell;
  }

  /**
   * One customer whose postcode is mapped and one whose postcode is not: the
   * state option list as written fails.
   */
  lemma UnmappedPostcodeBreaksStateOptions(df: seq<Row>)
    requires df == [Tag(Customer(4000, Date(2023, 7), "Normal"), map[4000 := "QLD"]),
                    Tag(Customer(9999, Date(2023, 8), "Normal"), map[4000 := "QLD"])]
    ensures OptionsAsWritten(df, StateColumn).Failure?
  {
    assert Get(df[0], StateColumn) == StrCell("QLD");
    assert Get(df[1], StateColumn) == NoCell;
    assert df[0] in df && df[1] in df;
  }
}
