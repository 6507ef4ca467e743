/**
 * The postcode-to-state lookup of streamlit_app.py: the geography table may
 * list a postcode under several states, and the majority state wins.
 */
module Geography {
  import opened Counting

  type Postcode = int
  type State = string

  /** One row of the geography file. */
  datatype GeoRow = GeoRow(postcode: Postcode, state: State)

  /** The postcodes the geography table mentions. */
  function Postcodes(geo: seq<GeoRow>): set<Postcode> {
    set r | r in geo :: r.postcode
  }

  /** The state column of the group of rows for one postcode, in row order. */
  function StatesOf(geo: seq<GeoRow>, p: Postcode): (states: seq<State>)
    ensures forall s :: Occurrences(states, s) == Occurrences(geo, GeoRow(p, s))
  {
    if geo == [] then []
    else
      var init, last := geo[..|geo| - 1], geo[|geo| - 1];
      var states := StatesOf(init, p) + (if last.postcode == p then [last.state] else []);
      assert geo == init + [last];
      forall s ensures Occurrences(states, s) == Occurrences(geo, GeoRow(p, s)) {
        OccurrencesAppend(StatesOf(init, p), if last.postcode == p then [last.state] else [], s);
        OccurrencesAppend(init, [last], GeoRow(p, s));
      }
      states
  }

  /** No state is listed with postcode p more often than s. */
  ghost predicate IsMajority(geo: seq<GeoRow>, p: Postcode, s: State) {
    forall t :: Occurrences(geo, GeoRow(p, t)) <= Occurrences(geo, GeoRow(p, s))
  }

  /** The majority state of one postcode the table mentions. */
  function MajorityState(geo: seq<GeoRow>, p: Postcode): (s: State)
    requires p in Postcodes(geo)
    ensures GeoRow(p, s) in geo
    ensures IsMajority(geo, p, s)
  {
    var r :| r in geo && r.postcode == p;
    assert Occurrences(geo, r) > 0;
    assert Occurrences(StatesOf(geo, p), r.state) > 0;
    var s := MostFrequent(StatesOf(geo, p));
    assert Occurrences(StatesOf(geo, p), s) > 0;
    s
  }

  /**
   * postcode_state_map: one entry per postcode of the geography table, mapped
   * to a state that the table lists with it at least as often as any other.
   * Which of several equally frequent states wins is left open.
   */
  function PostcodeStateMap(geo: seq<GeoRow>): (m: map<Postcode, State>)
    ensures m.Keys == Postcodes(geo)
    ensures forall p :: p in m ==> GeoRow(p, m[p]) in geo && IsMajority(geo, p, m[p])
  {
    map p | p in Postcodes(geo) :: MajorityState(geo, p)
  }

  /**
   * A state listed with p more often than every other state is the one the
   * map picks, whichever way ties between other states would be broken.
   */
  lemma StrictMajorityWins(geo: seq<GeoRow>, p: Postcode, a: State)
    requires forall t :: t != a ==> Occurrences(geo, GeoRow(p, t)) < Occurrences(geo, GeoRow(p, a))
    ensures p in PostcodeStateMap(geo) && PostcodeStateMap(geo)[p] == a
  {
    // a outnumbers some other state, so it is listed with p at least once
    var other: State := if a == "" then "x" else "";
    assert Occurrences(geo, GeoRow(p, other)) < Occurrences(geo, GeoRow(p, a));
    assert GeoRow(p, a) in geo;
    assert p in Postcodes(geo);
    var s := PostcodeStateMap(geo)[p];
    assert IsMajority(geo, p, s);
    assert Occurrences(geo, GeoRow(p, a)) <= Occurrences(geo, GeoRow(p, s));
  }

  /** Two QLD rows outvote one NSW row for postcode 4000. */
  lemma MajorityExample(geo: seq<GeoRow>)
    requires geo == [GeoRow(4000, "QLD"), GeoRow(4000, "QLD"), GeoRow(4000, "NSW")]
    ensures PostcodeStateMap(geo)[4000] == "QLD"
  {
    var qld, nsw := geo[0], geo[2];
    assert Occurrences(geo, qld) == 2 by {
      assert geo[..2] == [qld, qld] && geo[..2][..1] == [qld];
    }
    assert Occurrences(geo, nsw) == 1 by {
      assert geo[..2] == [qld, qld] && geo[..2][..1] == [qld];
    }
    forall t | t != "QLD"
      ensures Occurrences(geo, GeoRow(4000, t)) < Occurrences(geo, GeoRow(4000, "QLD"))
    {
      if t != "NSW" {
        assert GeoRow(4000, t) !in geo;
      }
    }
    StrictMajorityWins(geo, 4000, "QLD");
  }
}
