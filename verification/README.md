# Toccata churn dashboard: fiscal periods, cohort tagging, filters and counts

This project models the computational core of the Toccata churn dashboard, a
Streamlit page over a customer roster and a postcode-to-state lookup table.
The page's own logic is small:

* the **fiscal period deriver** (`data_processing.py`): the financial quarter
  of a month in a financial year that starts on 1 July (July to September is
  Q1, January to March is Q3), the financial year of a date, and the cohort
  label `FY<year><quarter>`;
* the **cohort pipeline** (`streamlit_app.py`): a postcode-to-state map by
  majority vote over the geography rows, the derived cohort columns of every
  customer row, the sorted option list of each filterable column, the
  `apply_filter` helper and the five filters the sidebar chains, and the
  `groupby(...).size()` counts behind the map and the cohort table.

Modules: `FiscalPeriod` (fiscal_period.dfy), `Counting` (value counts and
the most frequent value), `Geography` (the postcode map), `Cells` (the values
of a filterable column and Python's sort order on them), `Cohort` (customer
rows, tagging, option lists), `Filtering` (apply_filter and the chain),
`Grouping` (group sizes) and `Dashboard` (one rerun of the script, tying the
steps together). `Wrappers` holds Option and Result.

Two behaviours of the code are easy to misread; the model follows the code:

* `get_financial_quarter` returns `Q3` for every month number up to 3,
  including 0 and negative numbers; only numbers above 12 give
  `'Invalid Month'` (data_processing.py:2-3, 10-11).
* `apply_filter` returns the table unchanged when the selection is empty
  (streamlit_app.py:140-142), so an empty selection means "match all", not
  "exclude all".

Tables are Dafny sequences of rows. Filtering and grouping return new
sequences, so the base table is never modified. A pandas NaN (an unmapped
postcode's state) is `None` in a row and `NoCell` as a cell. `isin` matches
a NaN against a NaN in the selection, as pandas does.

## Model

| member | source | states |
|---|---|---|
| `FiscalPeriod.FinancialQuarter` | data_processing.py:1-11 | the result is Q1..Q4 or the sentinel; the sentinel exactly for months above 12; Q3 for every month up to 3, including 0 and negatives |
| `FiscalPeriod.FinancialQuarterByPosition` | data_processing.py:1-9 | for months 1-12 the quarter number is the month's position counted from July divided by 3, plus 1 (Jan-Mar Q3, Apr-Jun Q4, Jul-Sep Q1, Oct-Dec Q2) |
| `FiscalPeriod.FinancialYear` | data_processing.py:14-18 | the financial year is the calendar year or the one before, and it is the calendar year exactly when the month is July or later |
| `FiscalPeriod.FinancialYearStartsInJuly` | data_processing.py:14-18 | counted in months, the date lies in the twelve months that start with July of its financial year |
| `FiscalPeriod.QuarterAgreesWithYear` | data_processing.py:1-18 | for a real month, the quarter is Q1 or Q2 exactly when the financial year is the calendar year, and Q3 or Q4 exactly when it is the year before |
| `FiscalPeriod.IntToDecimalRoundTrip` | data_processing.py:22 | the decimal text the f-string writes for any integer, negative ones included, reads back as that integer |
| `FiscalPeriod.FinancialYearQuarter` | data_processing.py:20-22 | the label starts with "FY", ends with the quarter it was given (checked or not), and has at least one character between them |
| `FiscalPeriod.LabelParts` | data_processing.py:20-22 | the label is "FY", then the year's decimal text, then the quarter, with no separator, and the middle part reads back as the year |
| `FiscalPeriod.LabelRoundTrip` | data_processing.py:20-22 | a label built from a valid quarter parses back into the year and the quarter |
| `FiscalPeriod.LabelInjective` | data_processing.py:20-22 | two (year, valid quarter) pairs with the same label are the same pair |
| `FiscalPeriod.LabelExample` | data_processing.py:20-22 | year 2022 and Q4 give "FY2022Q4" |
| `FiscalPeriod.DateLabelShape` | data_processing.py:1-22 | the label of any date from year 1 on has the shape FY, digits, Q, one of 1-4, and parses back into the date's financial year and quarter |
| `Counting.Occurrences` | streamlit_app.py:91 | a value's count is at most the length and is positive exactly when the value occurs |
| `Counting.MostFrequentAmong` | streamlit_app.py:91 | the chosen candidate is one of the candidates and no candidate occurs more often |
| `Counting.MostFrequent` | streamlit_app.py:91 | value_counts().idxmax(): the result occurs in the group and no value occurs more often |
| `Geography.StatesOf` | streamlit_app.py:91 | the state column of one postcode's group holds each state as often as the table lists it with that postcode |
| `Geography.MajorityState` | streamlit_app.py:91 | the majority state is listed with the postcode and no state is listed with it more often |
| `Geography.PostcodeStateMap` | streamlit_app.py:91 | the keys are exactly the postcodes of the geography rows; each maps to a state listed with it at least as often as any other |
| `Geography.StrictMajorityWins` | streamlit_app.py:91 | a state listed with a postcode more often than every other state is the one the map gives that postcode, however ties would be broken |
| `Geography.MajorityExample` | streamlit_app.py:91 | rows (4000, QLD), (4000, QLD), (4000, NSW) map 4000 to QLD |
| `Cohort.LookupState` | streamlit_app.py:99 | the state is present exactly when the postcode is a key of the map, and then it is the mapped state; an unmapped postcode is not an error |
| `Cohort.Tag` | streamlit_app.py:94-99 | a tagged row keeps its customer and its derived columns are the join year, month, financial quarter, financial year, label and state of that customer |
| `Cohort.TaggedRowConsistent` | streamlit_app.py:94-99 | in a tagged row the quarter is one of Q1..Q4, agrees with the financial year, the label parses back into the row's financial year and quarter, and the state is present exactly when the postcode is mapped |
| `Cohort.TagCustomers` | streamlit_app.py:93-99 | the tagged table is `TagAll` of the customers: the same number of rows in the same order, row i being customer i tagged |
| `Cohort.Get` | streamlit_app.py:99-105 | a filterable cell is missing exactly when it is the state of a row whose postcode is unmapped |
| `Cohort.Options` | streamlit_app.py:101-105 | each option list is strictly ascending (sorted, no duplicates) and holds exactly the values of its column |
| `Cohort.OptionsCoverRows` | streamlit_app.py:101-105 | every row's value is among the options of its column |
| `Cohort.MissingSortsLast` | streamlit_app.py:104 | a missing state can only be the last option |
| `Cohort.OptionsAsWritten` | streamlit_app.py:101-105 | sorted(unique()) as written fails exactly when a column holds both a state and a missing state, and otherwise gives the option list |
| `Cohort.OnlyStatesFail` | streamlit_app.py:101-105 | only the state column can make an option list fail |
| `Cohort.UnmappedPostcodeBreaksStateOptions` | streamlit_app.py:99-104 | one customer with a mapped postcode and one with an unmapped postcode make the state option list fail |
| `Cells.SortedUnique` | streamlit_app.py:101-105 | sorted(unique()) gives a strictly ascending list holding exactly the column's values |
| `Cells.AscendingIsUnique` | streamlit_app.py:101-105 | two strictly ascending lists with the same elements are equal, so the option list does not depend on how it is sorted |
| `Filtering.KeepIn` | streamlit_app.py:141 | `df[df[column].isin(values)]` never adds rows, and every row it keeps is a row of the table whose cell is one of the values (the converse is `ApplyFilterSelects` with `SelectRowsMembers`) |
| `Filtering.ApplyFilter` | streamlit_app.py:139-142 | an empty selection returns the table itself; otherwise no rows are added and every kept row is a row of the table passing the selection |
| `Filtering.SelectRowsSubsequence` | streamlit_app.py:139-163 | filtering only deletes rows: the result is a subsequence of the table |
| `Filtering.SelectRowsMembers` | streamlit_app.py:139-163 | a row is in the result exactly when it is in the table and passes every non-empty selection |
| `Filtering.ApplyFilterSelects` | streamlit_app.py:139-142 | apply_filter keeps, in order, the rows whose value is in the selection, and returns the table itself when the selection is empty |
| `Filtering.ApplyFilterIdempotent` | streamlit_app.py:139-142 | applying the same filter twice gives the same rows as applying it once |
| `Filtering.ApplyFilterCommutes` | streamlit_app.py:146-163 | two filter steps give the same rows in either order |
| `Filtering.ApplyFilterAddsCondition` | streamlit_app.py:146-163 | one more filter step on an already filtered table equals filtering by all the conditions at once |
| `Filtering.SelectSameConditions` | streamlit_app.py:146-163 | the result depends only on the set of filter steps, so any order of the five steps gives the same rows |
| `Filtering.ApplyEachSelects` | streamlit_app.py:146-163 | applying the filters of a list of conditions one after another selects exactly the rows that pass them all, in table order |
| `Filtering.FilterCustomers` | streamlit_app.py:146-163 | df_filtered after the five steps holds, in table order, exactly the rows that pass every non-empty selection |
| `Filtering.DefaultSelection` | streamlit_app.py:146-162 | the `default=` of every multiselect is its column's full option list |
| `Filtering.DefaultSelectionKeepsAll` | streamlit_app.py:146-163 | when every selection is its column's full option list, df_filtered is the whole customer table |
| `Grouping.GroupSizes` | streamlit_app.py:322-333 | size(): one group per distinct present key and none for absent keys, no key twice, each size at least 1 and equal to the key's row count |
| `Grouping.GroupSizesTotal` | streamlit_app.py:322-333 | the group sizes add up to the number of rows whose key is present |
| `Grouping.CountByState` | streamlit_app.py:322 | one group per state that some filtered customer has, no state twice and none for any other state; each group's size is the number of filtered customers with that state; customers without a state have no group |
| `Grouping.CountByStateTotal` | streamlit_app.py:322 | the per-state counts add up to the number of filtered customers that have a state; customers with a missing state are not counted |
| `Grouping.CountByCohort` | streamlit_app.py:333 | one group per join cohort (year, month, quarter, financial year, label) that some filtered customer has, no cohort twice and none for any other; each group's size is the number of filtered customers in that cohort |
| `Grouping.CountByCohortTotal` | streamlit_app.py:333 | the per-cohort counts add up to the number of filtered customers |
| `Dashboard.Refresh` | streamlit_app.py:91-333 | the filtered table is exactly the tagged customer table restricted to the rows passing the selection, in table order and with each customer once; the two count tables are the groupings of that table and add up as above |

## Left out

- Page configuration, CSS, the sidebar widgets, `multiselect_dropdown` and its session-state handling, the block that resets the session state, and the colour-theme picker (streamlit_app.py:12-67, 111-136, 165-167). They are UI and framework state. The five selections are a parameter of the model.
- `load_config`, `pd.read_excel` and `pd.read_csv` (streamlit_app.py:74-88). They are file I/O. The customer and geography tables are parameters.
- Date parsing and the pandas `.dt` accessors. A date is a year and a month from 1 to 12, the only parts the core reads.
- `make_heatmap`, `make_choropleth`, `make_donut` and `format_number`, the commented-out population code and metrics, and the rendering of the counts as charts and a table (streamlit_app.py:176-316, 324-352). They are chart wrappers, dead code and display.
- Columns that the core does not read, such as the customer identifier. A postcode is an integer in both tables. A type mismatch between the two files, which would leave every state missing, is not modelled.
- Geography.PostcodeStateMap: only promises a state that no other state outnumbers. pandas' tie-break depends on the order of `value_counts`. The model happens to pick the first maximal state in row order, but no contract relies on that.
- Grouping.GroupSizes: does not state the order of the groups. pandas sorts the groups by key; the model lists them in order of first appearance. The display order of the cohort table that `st.dataframe` shows (streamlit_app.py:334) is therefore not modelled.
- Dashboard.Refresh: models the script with the corrected option list. It takes the selection as given and never fails. The script as written raises TypeError at streamlit_app.py:104, before any filtering, when the tagged table mixes mapped and unmapped postcodes (see Findings and `Cohort.OptionsAsWritten`).
- Missing cells other than the state: the geography `state` and the customer `status` are plain strings in the model, so neither can be missing. In pandas a missing geography state is dropped by `value_counts()`. A postcode whose rows all lack a state makes `idxmax()` raise ValueError at streamlit_app.py:91. A missing status next to a present one makes `sorted` raise TypeError at streamlit_app.py:105, as a missing state does at line 104.
- Cohort.OnlyStatesFail: holds because of the model's types. With the missing statuses above, the status column could fail too.
- Filtering.KeepIn: its own contract says only that the kept rows come from the table and pass. That every passing row is kept is proved separately in `Filtering.ApplyFilterSelects` and `Filtering.SelectRowsMembers`. Both directions on the function itself would make the chained filters too costly to verify.
- Filtering.ApplyFilter: the same split as `Filtering.KeepIn`.
- Cohort.TagCustomers: pandas adds the columns to `df_customer` in place; the model builds a new table whose rows carry each customer unchanged next to its derived columns.
- `get_financial_year_quarter` reads its two inputs from a row. The model passes the financial year and the quarter directly, as the row's two columns.

## Findings

| source | as written | input that shows it | evidently intended | confidence | as-written member | corrected member |
|---|---|---|---|---|---|---|
| streamlit_app.py:104 | `sorted(df_customer['state'].unique().tolist())` compares the state strings with the NaN of an unmapped postcode. Python raises TypeError, so the page fails whenever some postcodes are mapped and some are not. | customers with postcodes 4000 and 9999, geography rows listing only 4000 (QLD) | an option list of every state value, ascending, with the missing state last (pandas' own NaN placement), so the default selection still keeps every row | not executed; follows from Python 3's refusal to order str against float | `Cohort.UnmappedPostcodeBreaksStateOptions` | `Cohort.Options` |
