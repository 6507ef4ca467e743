/**
 * One run of the dashboard script: build the postcode map, tag the customers,
 * filter them by the sidebar selection and count them per state and per join
 * cohort. Streamlit reruns this on every interaction.
 */
module Dashboard {
  import opened Geography
  import opened Cohort
  import opened Filtering
  import opened Grouping

  method Refresh(customers: seq<Customer>, geo: seq<GeoRow>, sel: Selection)
    returns (filtered: seq<Row>, byState: seq<Group<State>>, byCohort: seq<Group<CohortKey>>)
    ensures filtered == SelectRows(TagAll(customers, PostcodeStateMap(geo)), Conditions(sel))
    ensures forall r :: r in filtered ==>
              r.customer in customers && WellTagged(r, PostcodeStateMap(geo)) && AdmitsAll(Conditions(sel), r)
    ensures forall i :: 0 <= i < |customers| && AdmitsAll(Conditions(sel), Tag(customers[i], PostcodeStateMap(geo)))
              ==> Tag(customers[i], PostcodeStateMap(geo)) in filtered
    ensures byState == CountByState(filtered) && TotalSize(byState) == MappedRows(filtered)
    ensures byCohort == CountByCohort(filtered) && TotalSize(byCohort) == |filtered|
  {
    var stateMap := PostcodeStateMap(geo);
    var df := TagCustomers(customers, stateMap);
    filtered := FilterCustomers(df, sel);
    forall r ensures r in filtered <==> r in df && AdmitsAll(Conditions(sel), r) {
      SelectRowsMembers(df, Conditions(sel), r);
    }
    forall r | r in df ensures r.customer in customers {
      var i :| 0 <= i < |df| && df[i] == r;
    }
    forall i | 0 <= i < |customers| ensures df[i] == Tag(customers[i], stateMap) {
    }
    byState := CountByState(filtered);
    CountByStateTotal(filtered);
    byCohort := CountByCohort(filtered);
    CountByCohortTotal(filtered);
  }
}
