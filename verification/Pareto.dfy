/** The Pareto filter over experiments: average small-flow and large-flow completion times, both to be small. */
module Pareto {

  datatype Row = Row(name: string, small: real, large: real)

  /** `other` is at least as good in both columns and better in one. */
  predicate Dominates(other: Row, row: Row) {
    other.small <= row.small && other.large <= row.large && (other.small < row.small || other.large < row.large)
  }

  ghost predicate Dominated(df: seq<Row>, row: Row) {
    exists j :: 0 <= j < |df| && Dominates(df[j], row)
  }

  predicate SortsBefore(a: Row, b: Row) {
    a.small < b.small || (a.small == b.small && a.large <= b.large)
  }

  predicate SameKey(a: Row, b: Row) {
    a.small == b.small && a.large == b.large
  }

  ghost predicate Sorted(rows: seq<Row>) {
    forall i, j :: 0 <= i < j < |rows| ==> SortsBefore(rows[i], rows[j])
  }

  /**
   * Of two different places in the frontier, the later has the larger small-flow and the smaller large-flow value, or
   * both agree.
   */
  ghost predicate Descends(rows: seq<Row>) {
    forall i, j :: 0 <= i < j < |rows| ==>
      (rows[i].small < rows[j].small && rows[i].large > rows[j].large) || SameKey(rows[i], rows[j])
  }

  // ---------------------------------------------------------------------------
  // The stable sort by both columns

  function Insert(row: Row, rows: seq<Row>): seq<Row> {
    if rows == [] then [row] else if SortsBefore(row, rows[0]) then [row] + rows else [rows[0]] + Insert(row, rows[1..])
  }

  function SortValues(rows: seq<Row>): seq<Row> {
    if rows == [] then [] else Insert(rows[0], SortValues(rows[1..]))
  }

  /** The rows with the key of `k`, in order. */
  ghost function Group(rows: seq<Row>, k: Row): seq<Row> {
    if rows == [] then [] else (if SameKey(rows[0], k) then [rows[0]] else []) + Group(rows[1..], k)
  }

  lemma {:induction false} InsertSorts(row: Row, rows: seq<Row>)
    requires Sorted(rows)
    ensures Sorted(Insert(row, rows)) && multiset(Insert(row, rows)) == multiset{row} + multiset(rows)
  {
    if rows != [] {
      assert rows == [rows[0]] + rows[1..];
      if SortsBefore(row, rows[0]) {
        FirstSorts(row, rows);
      } else {
        InsertSorts(row, rows[1..]);
        var rest := Insert(row, rows[1..]);
        forall j | 0 <= j < |rest| ensures SortsBefore(rows[0], rest[j]) {
          assert rest[j] in multiset(rest);
        }
        FirstSorts(rows[0], rest);
      }
    }
  }

  lemma FirstSorts(row: Row, rows: seq<Row>)
    requires Sorted(rows)
    requires (rows != [] && SortsBefore(row, rows[0])) || forall j :: 0 <= j < |rows| ==> SortsBefore(row, rows[j])
    ensures Sorted([row] + rows)
  {
    forall j | 0 <= j < |rows| ensures SortsBefore(row, rows[j]) {
      assert j > 0 ==> SortsBefore(rows[0], rows[j]);
    }
  }

  lemma {:induction false} InsertStable(row: Row, rows: seq<Row>, k: Row)
    ensures Group(Insert(row, rows), k) == Group([row] + rows, k)
  {
    assert ([row] + rows)[1..] == rows;
    if rows != [] && !SortsBefore(row, rows[0]) {
      InsertStable(row, rows[1..], k);
      assert ([row] + rows[1..])[1..] == rows[1..];
      assert ([rows[0]] + Insert(row, rows[1..]))[1..] == Insert(row, rows[1..]);
    }
  }

  /** Sorting orders the rows, loses none, and leaves rows with equal keys in their order. */
  lemma {:induction false} SortValuesStable(rows: seq<Row>, k: Row)
    ensures Sorted(SortValues(rows)) && multiset(SortValues(rows)) == multiset(rows)
    ensures Group(SortValues(rows), k) == Group(rows, k)
    ensures var r := SortValues(rows); forall i, j :: 0 <= i < j < |r| ==>
      r[i].small <= r[j].small && (r[i].small == r[j].small ==> r[i].large <= r[j].large)
  {
    if rows != [] {
      SortValuesStable(rows[1..], k);
      InsertSorts(rows[0], SortValues(rows[1..]));
      InsertStable(rows[0], SortValues(rows[1..]), k);
      assert rows == [rows[0]] + rows[1..];
      assert ([rows[0]] + SortValues(rows[1..]))[1..] == SortValues(rows[1..]);
    }
  }

  // ---------------------------------------------------------------------------
  // Every dominated row is dominated by a row that is not

  ghost function Sum(row: Row): real {
    row.small + row.large
  }

  /** Among the first `n` rows, the dominator of `row` with the least sum. */
  lemma {:induction false} LeastDominator(df: seq<Row>, row: Row, n: nat) returns (d: nat)
    requires n <= |df| && exists j :: 0 <= j < n && Dominates(df[j], row)
    ensures d < n && Dominates(df[d], row)
    ensures forall j :: 0 <= j < n && Dominates(df[j], row) ==> Sum(df[d]) <= Sum(df[j])
  {
    if exists j :: 0 <= j < n - 1 && Dominates(df[j], row) {
      d := LeastDominator(df, row, n - 1);
      if Dominates(df[n - 1], row) && Sum(df[n - 1]) < Sum(df[d]) {
        d := n - 1;
      }
    } else {
      d := n - 1;
    }
  }

  lemma {:induction false} UndominatedDominator(df: seq<Row>, row: Row) returns (d: nat)
    requires Dominated(df, row)
    ensures d < |df| && Dominates(df[d], row) && !Dominated(df, df[d])
  {
    d := LeastDominator(df, row, |df|);
    forall j | 0 <= j < |df| ensures !Dominates(df[j], df[d]) {
      if Dominates(df[j], df[d]) {
        assert false;
      }
    }
  }

  // ---------------------------------------------------------------------------
  // The filter

  ghost function DominatedRows(df: seq<Row>): set<Row> {
    set row | row in df && Dominated(df, row)
  }

  /** The rows outside `bad`, in order. */
  ghost function Spared(rows: seq<Row>, bad: set<Row>): seq<Row> {
    if rows == [] then [] else
      var last := rows[|rows| - 1];
      Spared(rows[..|rows| - 1], bad) + if last in bad then [] else [last]
  }

  /** The rows that no row dominates, in order. */
  ghost function Kept(df: seq<Row>): seq<Row> {
    Spared(df, DominatedRows(df))
  }

  ghost function Occurrences(rows: seq<Row>, row: Row): nat {
    if rows == [] then 0 else
      Occurrences(rows[..|rows| - 1], row) + if rows[|rows| - 1] == row then 1 else 0
  }

  lemma {:induction false} OccurrencesAre(rows: seq<Row>, row: Row)
    ensures multiset(rows)[row] == Occurrences(rows, row)
  {
    if rows != [] {
      OccurrencesAre(rows[..|rows| - 1], row);
      assert rows == rows[..|rows| - 1] + [rows[|rows| - 1]];
    }
  }

  lemma OccurrencesNext(rows: seq<Row>, last: Row, row: Row)
    ensures Occurrences(rows + [last], row) == Occurrences(rows, row) + if last == row then 1 else 0
  {
    assert (rows + [last])[..|rows|] == rows;
  }

  lemma {:induction false} SparedCounts(rows: seq<Row>, bad: set<Row>, row: Row)
    ensures Occurrences(Spared(rows, bad), row) == if row in bad then 0 else Occurrences(rows, row)
  {
    if rows != [] {
      var before, last := rows[..|rows| - 1], rows[|rows| - 1];
      SparedCounts(before, bad, row);
      if last in bad {
        assert Spared(rows, bad) == Spared(before, bad);
      } else {
        OccurrencesNext(Spared(before, bad), last, row);
      }
    }
  }

  lemma SparedNext(df: seq<Row>, bad: set<Row>, i: nat)
    requires i < |df|
    ensures Spared(df[..i + 1], bad) == Spared(df[..i], bad) + if df[i] in bad then [] else [df[i]]
  {
    assert df[..i + 1][..i] == df[..i];
  }

  /** The inner loop: whether some other row dominates row `i`. */
  method IsDominated(df: seq<Row>, i: nat) returns (dominated: bool)
    requires i < |df|
    ensures dominated <==> Dominated(df, df[i])
  {
    dominated := false;
    for j := 0 to |df|
      invariant forall k :: 0 <= k < j ==> !Dominates(df[k], df[i])
    {
      if i == j {
        continue;
      }
      var betterOrEqual := df[j].small <= df[i].small && df[j].large <= df[i].large;
      var strictlyBetter := df[j].small < df[i].small || df[j].large < df[i].large;
      if betterOrEqual && strictlyBetter {
        return true;
      }
    }
  }

  function RowsAt(df: seq<Row>, indices: seq<nat>): seq<Row>
    requires forall i <- indices :: i < |df|
  {
    seq(|indices|, k requires 0 <= k < |indices| => assert indices[k] in indices; df[indices[k]])
  }

  /**
   * The frontier holds each undominated row as often as the input does and no other; every row left out is dominated by
   * a row of the frontier; and along it the large-flow value strictly falls whenever the small-flow value rises.
   */
  method ParetoFrontier(df: seq<Row>) returns (frontier: seq<Row>)
    ensures forall row :: multiset(frontier)[row] == if Dominated(df, row) then 0 else multiset(df)[row]
    ensures forall row <- df :: row !in frontier ==> exists k :: 0 <= k < |frontier| && Dominates(frontier[k], row)
    ensures Descends(frontier)
    ensures forall k :: Group(frontier, k) == Group(Kept(df), k)
  {
    var indices: seq<nat> := [];
    for i := 0 to |df|
      invariant forall k <- indices :: k < |df|
      invariant RowsAt(df, indices) == Spared(df[..i], DominatedRows(df))
    {
      SparedNext(df, DominatedRows(df), i);
      var dominated := IsDominated(df, i);
      if !dominated {
        indices := indices + [i];
      }
    }
    assert df[..|df|] == df;
    frontier := SortValues(RowsAt(df, indices));
    FrontierIsRight(df);
  }

  lemma {:induction false} FrontierIsRight(df: seq<Row>)
    ensures var frontier := SortValues(Kept(df));
      && (forall row :: multiset(frontier)[row] == if Dominated(df, row) then 0 else multiset(df)[row])
      && (forall row <- df :: row !in frontier ==> exists k :: 0 <= k < |frontier| && Dominates(frontier[k], row))
      && Descends(frontier)
      && (forall k :: Group(frontier, k) == Group(Kept(df), k))
  {
    var frontier := SortValues(Kept(df));
    forall row
      ensures multiset(frontier)[row] == (if Dominated(df, row) then 0 else multiset(df)[row])
      ensures Group(frontier, row) == Group(Kept(df), row)
    {
      FrontierCounts(df, row);
    }
    forall row <- df | row !in frontier ensures exists k :: 0 <= k < |frontier| && Dominates(frontier[k], row) {
      DroppedIsDominated(df, frontier, row);
    }
    SortValuesStable(Kept(df), Row("", 0.0, 0.0));
    FrontierDescends(df, frontier);
  }

  lemma FrontierCounts(df: seq<Row>, row: Row)
    ensures var frontier := SortValues(Kept(df));
      && multiset(frontier)[row] == (if Dominated(df, row) then 0 else multiset(df)[row])
      && Group(frontier, row) == Group(Kept(df), row)
  {
    SparedCounts(df, DominatedRows(df), row);
    OccurrencesAre(df, row);
    OccurrencesAre(Kept(df), row);
    SortValuesStable(Kept(df), row);
  }

  lemma FrontierDescends(df: seq<Row>, frontier: seq<Row>)
    requires Sorted(frontier)
    requires forall row :: multiset(frontier)[row] == if Dominated(df, row) then 0 else multiset(df)[row]
    ensures Descends(frontier)
  {
    forall i, j | 0 <= i < j < |frontier|
      ensures (frontier[i].small < frontier[j].small && frontier[i].large > frontier[j].large)
        || SameKey(frontier[i], frontier[j])
    {
      Undominated(df, frontier, i);
      Undominated(df, frontier, j);
      NotDominating(df, frontier[i], frontier[j]);
      assert SortsBefore(frontier[i], frontier[j]);
    }
  }

  lemma Undominated(df: seq<Row>, frontier: seq<Row>, i: nat)
    requires i < |frontier|
    requires forall row :: multiset(frontier)[row] == if Dominated(df, row) then 0 else multiset(df)[row]
    ensures frontier[i] in df && !Dominated(df, frontier[i])
  {
    assert frontier[i] in multiset(frontier);
    assert frontier[i] in multiset(df);
  }

  lemma NotDominating(df: seq<Row>, a: Row, b: Row)
    requires a in df && !Dominated(df, b)
    ensures !Dominates(a, b)
  {
  }

  lemma DroppedIsDominated(df: seq<Row>, frontier: seq<Row>, row: Row)
    requires forall r :: multiset(frontier)[r] == if Dominated(df, r) then 0 else multiset(df)[r]
    requires row in df && row !in frontier
    ensures exists k :: 0 <= k < |frontier| && Dominates(frontier[k], row)
  {
    assert row in multiset(df) && row !in multiset(frontier);
    var d := UndominatedDominator(df, row);
    assert df[d] in multiset(df);
    assert df[d] in multiset(frontier);
    var k :| 0 <= k < |frontier| && frontier[k] == df[d];
  }
}
