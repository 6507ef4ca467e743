/**
 * Counting occurrences in a column: the `value_counts` behind the majority
 * vote and the `size` behind every group count.
 */
module Counting {

  /** How many times x occurs in xs. */
  function Occurrences<T(==)>(xs: seq<T>, x: T): (n: nat)
    ensures n <= |xs|
    ensures n > 0 <==> x in xs
  {
    if xs == [] then 0
    else
      var init := xs[..|xs| - 1];
      assert xs == init + [xs[|xs| - 1]];
      Occurrences(init, x) + (if xs[|xs| - 1] == x then 1 else 0)
  }

  lemma {:induction false} OccurrencesAppend<T>(a: seq<T>, b: seq<T>, x: T)
    ensures Occurrences(a + b, x) == Occurrences(a, x) + Occurrences(b, x)
    decreases |b|
  {
    if b != [] {
      var b' := b[..|b| - 1];
      assert (a + b)[..|a + b| - 1] == a + b';
      OccurrencesAppend(a, b', x);
    } else {
      assert a + b == a;
    }
  }

  /**
   * The candidate that occurs most often in xs; among equally frequent
   * candidates the earliest one wins.
   */
  function MostFrequentAmong<T(==)>(xs: seq<T>, candidates: seq<T>): (r: T)
    requires |candidates| > 0
    ensures r in candidates
    ensures forall c :: c in candidates ==> Occurrences(xs, c) <= Occurrences(xs, r)
    decreases |candidates|
  {
    if |candidates| == 1 then candidates[0]
    else
      var best := MostFrequentAmong(xs, candidates[1..]);
      if Occurrences(xs, candidates[0]) >= Occurrences(xs, best) then candidates[0] else best
  }

  /** value_counts().idxmax(): a value of xs that no other value outnumbers. */
  function MostFrequent<T(==, !new)>(xs: seq<T>): (r: T)
    requires |xs| > 0
    ensures r in xs
    ensures forall y :: Occurrences(xs, y) <= Occurrences(xs, r)
  {
    MostFrequentAmong(xs, xs)
  }
}
