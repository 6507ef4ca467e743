/**
 * The values a filterable column of the customer table holds, and the order in
 * which `sorted` lists them: integers numerically, strings by code point, and
 * (in the corrected option lists) a missing value after every present one.
 */
module Cells {

  /** One cell of a filterable column; NoCell is pandas' NaN for an unmapped state. */
  datatype Cell = IntCell(i: int) | StrCell(s: string) | NoCell

  /** Python's string order: code point by code point, a proper prefix first. */
  predicate StrLess(a: string, b: string)
    decreases |a|
  {
    |b| > 0 && (|a| == 0 || a[0] < b[0] || (a[0] == b[0] && StrLess(a[1..], b[1..])))
  }

  lemma {:induction false} StrLessIrreflexive(a: string)
    ensures !StrLess(a, a)
  {
    if |a| > 0 {
      StrLessIrreflexive(a[1..]);
    }
  }

  lemma {:induction false} StrLessTransitive(a: string, b: string, c: string)
    requires StrLess(a, b) && StrLess(b, c)
    ensures StrLess(a, c)
    decreases |a|
  {
    if |a| > 0 && a[0] == b[0] && b[0] == c[0] {
      StrLessTransitive(a[1..], b[1..], c[1..]);
    }
  }

  lemma {:induction false} StrLessTotal(a: string, b: string)
    requires a != b
    ensures StrLess(a, b) || StrLess(b, a)
    decreases |a|
  {
    if |a| > 0 && |b| > 0 && a[0] == b[0] {
      assert a == [a[0]] + a[1..] && b == [b[0]] + b[1..];
      StrLessTotal(a[1..], b[1..]);
    }
  }

  /**
   * The order of option lists. A column never mixes integers and strings, so
   * how those two compare is immaterial; the missing value sorts last.
   */
  predicate CellLess(a: Cell, b: Cell) {
    match (a, b)
    case (IntCell(x), IntCell(y)) => x < y
    case (StrCell(x), StrCell(y)) => StrLess(x, y)
    case (IntCell(_), StrCell(_)) => true
    case (_, NoCell) => a != NoCell
    case _ => false
  }

  lemma CellLessIrreflexive(a: Cell)
    ensures !CellLess(a, a)
  {
    if a.StrCell? {
      StrLessIrreflexive(a.s);
    }
  }

  lemma CellLessTransitive(a: Cell, b: Cell, c: Cell)
    requires CellLess(a, b) && CellLess(b, c)
    ensures CellLess(a, c)
  {
    if a.StrCell? && b.StrCell? && c.StrCell? {
      StrLessTransitive(a.s, b.s, c.s);
    }
  }

  lemma CellLessTotal(a: Cell, b: Cell)
    requires a != b
    ensures CellLess(a, b) || CellLess(b, a)
  {
    if a.StrCell? && b.StrCell? {
      StrLessTotal(a.s, b.s);
    }
  }

  /** Sorted without duplicates. */
  predicate StrictlyAscending(s: seq<Cell>) {
    forall i, j :: 0 <= i < j < |s| ==> CellLess(s[i], s[j])
  }

  /** Adds one value to a strictly ascending list at its place, unless it is there already. */
  function Insert(s: seq<Cell>, x: Cell): (r: seq<Cell>)
    requires StrictlyAscending(s)
    ensures StrictlyAscending(r)
    ensures forall y :: y in r <==> y in s || y == x
  {
    if s == [] then [x]
    else if x == s[0] then s
    else if CellLess(x, s[0]) then
      assert forall j :: 0 < j < |s| ==> CellLess(x, s[j]) by {
        forall j | 0 < j < |s| ensures CellLess(x, s[j]) {
          CellLessTransitive(x, s[0], s[j]);
        }
      }
      [x] + s
    else
      CellLessTotal(x, s[0]);
      var rest := Insert(s[1..], x);
      assert forall y :: y in rest ==> CellLess(s[0], y) by {
        forall y | y in rest ensures CellLess(s[0], y) {
          if y != x {
            var j :| 1 <= j < |s| && s[j] == y;
          }
        }
      }
      [s[0]] + rest
  }

  /** sorted(column.unique()): the distinct values of a column in ascending order. */
  function SortedUnique(xs: seq<Cell>): (r: seq<Cell>)
    ensures StrictlyAscending(r)
    ensures forall y :: y in r <==> y in xs
  {
    if xs == [] then [] else Insert(SortedUnique(xs[..|xs| - 1]), xs[|xs| - 1])
  }

  /** Every other element of a strictly ascending list lies above its head. */
  lemma HeadIsLeast(s: seq<Cell>, y: Cell)
    requires StrictlyAscending(s) && y in s
    ensures y == s[0] || CellLess(s[0], y)
  {
  }

  /**
   * A strictly ascending list is determined by its elements, so SortedUnique
   * agrees with any other way of sorting the distinct values.
   */
  lemma {:induction false} AscendingIsUnique(s: seq<Cell>, t: seq<Cell>)
    requires StrictlyAscending(s) && StrictlyAscending(t)
    requires forall y :: y in s <==> y in t
    ensures s == t
  {
    if s != [] {
      assert s[0] in t;
    }
    if t != [] {
      assert t[0] in s;
    }
    if s != [] && t != [] {
      HeadIsLeast(s, t[0]);
      HeadIsLeast(t, s[0]);
      if s[0] != t[0] {
        CellLessTransitive(s[0], t[0], s[0]);
        CellLessIrreflexive(s[0]);
        assert false;
      }
      forall y ensures y in s[1..] <==> y in t[1..] {
        CellLessIrreflexive(y);
        if y in s[1..] {
          var i :| 1 <= i < |s| && s[i] == y;
          assert y in s && y in t;
          var k :| 0 <= k < |t| && t[k] == y;
          assert k != 0 && t[1..][k - 1] == y;
        }
        if y in t[1..] {
          var i :| 1 <= i < |t| && t[i] == y;
          assert y in t && y in s;
          var k :| 0 <= k < |s| && s[k] == y;
          assert k != 0 && s[1..][k - 1] == y;
        }
      }
      AscendingIsUnique(s[1..], t[1..]);
      assert s == [s[0]] + s[1..] && t == [t[0]] + t[1..];
    }
  }
}
