/** The incremental consumer of the PFC log: a cursor into the log and the set of links paused so far. */
module Pfc {

  datatype Link = Link(node: nat, ifIndex: nat)

  /** Type 20000, type 10000, anything else. */
  datatype Kind = Pause | Resume | Other

  /** A line of the log file; one that is still being written, or was cut off, has missing fields. */
  datatype Line = Complete(time: real, link: Link, kind: Kind) | Incomplete

  /** A row of the table that is read from the file; `line` is its index there. */
  datatype Row = Row(line: nat, time: real, link: Link, kind: Kind)

  /** Reading the file: incomplete lines are dropped, the others keep their line numbers. */
  function Rows(file: seq<Line>): seq<Row> {
    if file == [] then [] else
      var n := |file| - 1;
      Rows(file[..n]) + if file[n].Complete? then [Row(n, file[n].time, file[n].link, file[n].kind)] else []
  }

  function Apply(paused: set<Link>, r: Row): set<Link> {
    match r.kind
    case Pause => paused + {r.link}
    case Resume => paused - {r.link}
    case Other => paused
  }

  /** The links paused after rows `from` to `k`, starting with `carried`. */
  ghost function ReplayFrom(data: seq<Row>, carried: set<Link>, from: nat, k: nat): set<Link>
    requires from <= k <= |data|
  {
    if k == from then carried else Apply(ReplayFrom(data, carried, from, k - 1), data[k - 1])
  }

  /** The links paused after the first `k` rows. */
  ghost function Replay(data: seq<Row>, k: nat): set<Link>
    requires k <= |data|
  {
    ReplayFrom(data, {}, 0, k)
  }

  lemma {:induction false} ReplayPrefix(data: seq<Row>, more: seq<Row>, k: nat)
    requires data <= more && k <= |data|
    ensures Replay(data, k) == Replay(more, k)
  {
    if k > 0 {
      ReplayPrefix(data, more, k - 1);
    }
  }

  lemma {:induction false} ReplayContinues(data: seq<Row>, from: nat, k: nat)
    requires from <= k <= |data|
    ensures ReplayFrom(data, Replay(data, from), from, k) == Replay(data, k)
  {
    if from < k {
      ReplayContinues(data, from, k - 1);
    }
  }

  // ---------------------------------------------------------------------------
  // One call

  predicate Before(r: Row, start: real) {
    r.time < start
  }

  predicate Within(r: Row, start: real, stop: real) {
    start <= r.time <= stop
  }

  /** The row that ends the scan. */
  predicate Beyond(r: Row, start: real, stop: real) {
    !Before(r, start) && !Within(r, start, stop)
  }

  /** The first row from `from` on that lies beyond the window, or the end of the data. */
  ghost function StopRow(data: seq<Row>, from: nat, start: real, stop: real): (end: nat)
    requires from <= |data|
    ensures from <= end <= |data|
    decreases |data| - from
  {
    if from == |data| || Beyond(data[from], start, stop) then from else StopRow(data, from + 1, start, stop)
  }

  lemma {:induction false} StopRowIsFirst(data: seq<Row>, from: nat, start: real, stop: real)
    requires from <= |data|
    ensures var end := StopRow(data, from, start, stop);
      && (forall k :: from <= k < end ==> data[k].time < start || data[k].time <= stop)
      && (end < |data| ==> start <= data[end].time && stop < data[end].time)
    decreases |data| - from
  {
    if from < |data| && !Beyond(data[from], start, stop) {
      StopRowIsFirst(data, from + 1, start, stop);
    }
  }

  /** A row of the window that pauses its link or finds it paused. */
  ghost predicate Touches(data: seq<Row>, carried: set<Link>, from: nat, k: nat, start: real, stop: real, l: Link)
    requires from <= k < |data|
  {
    && Within(data[k], start, stop)
    && data[k].link == l
    && (data[k].kind == Pause || l in ReplayFrom(data, carried, from, k))
  }

  /** A link carried into the rows `from` to `to`, or touched by one of them. */
  ghost predicate IsCounted(data: seq<Row>, carried: set<Link>, from: nat, to: nat, start: real, stop: real, l: Link)
    requires from <= to <= |data|
  {
    l in carried || exists k: nat :: from <= k < to && Touches(data, carried, from, k, start, stop, l)
  }

  function Min(a: nat, b: nat): nat {
    if a < b then a else b
  }

  /** The cursor handed to the next call: the stopping row's line number, or the number of rows. */
  function CursorAt(data: seq<Row>, end: nat): nat {
    if end < |data| then data[end].line else |data|
  }

  /**
   * For any log, window, cursor and carried set: the scan stops at the first row beyond the window, the new set
   * replays the rows passed, and the counted links are the carried ones and those touched by rows of the window.
   */
  method PfcHandling(data: seq<Row>, start: real, stop: real, startLine: nat, paused: set<Link>)
    returns (counted: set<Link>, nextLine: nat, paused': set<Link>)
    ensures var from := Min(startLine, |data|);
      var end := StopRow(data, from, start, stop);
      && nextLine == CursorAt(data, end)
      && paused' == ReplayFrom(data, paused, from, end)
      && forall l :: l in counted <==> IsCounted(data, paused, from, end, start, stop, l)
  {
    counted, paused' := paused, paused;
    var i := if startLine < |data| then startLine else |data|;
    ghost var from := i;
    while i < |data| && !Beyond(data[i], start, stop)
      invariant from <= i <= |data| && StopRow(data, i, start, stop) == StopRow(data, from, start, stop)
      invariant paused' == ReplayFrom(data, paused, from, i)
      invariant forall l :: l in counted <==> IsCounted(data, paused, from, i, start, stop, l)
    {
      var row := data[i];
      ghost var countedBefore := counted;
      if Within(row, start, stop) {
        if row.link in paused' {
          counted := counted + {row.link};
        }
        if row.kind == Pause {
          counted := counted + {row.link};
        }
      }
      CountedNext(data, paused, from, i, start, stop, countedBefore, counted);
      paused' := Apply(paused', row);
      i := i + 1;
    }
    nextLine := if i < |data| then data[i].line else |data|;
  }

  lemma CountedNext(data: seq<Row>, carried: set<Link>, from: nat, i: nat, start: real, stop: real,
                    counted: set<Link>, counted': set<Link>)
    requires from <= i < |data|
    requires forall l :: l in counted <==> IsCounted(data, carried, from, i, start, stop, l)
    requires var l := data[i].link;
      counted' == counted + if Touches(data, carried, from, i, start, stop, l) then {l} else {}
    ensures forall l :: l in counted' <==> IsCounted(data, carried, from, i + 1, start, stop, l)
  {
    forall l ensures IsCounted(data, carried, from, i + 1, start, stop, l)
        <==> IsCounted(data, carried, from, i, start, stop, l) || Touches(data, carried, from, i, start, stop, l) {
      if k: nat :| from <= k < i && Touches(data, carried, from, k, start, stop, l) {
        assert from <= k < i + 1;
      }
    }
  }

  // ---------------------------------------------------------------------------
  // The cursor and dropped lines

  ghost predicate AllComplete(file: seq<Line>) {
    forall i :: 0 <= i < |file| ==> file[i].Complete?
  }

  /** How many lines are incomplete. */
  ghost function Gaps(file: seq<Line>): nat {
    if file == [] then 0 else Gaps(file[..|file| - 1]) + if file[|file| - 1].Incomplete? then 1 else 0
  }

  lemma {:induction false} RowCount(file: seq<Line>)
    ensures |Rows(file)| + Gaps(file) == |file|
    ensures Gaps(file) == 0 <==> AllComplete(file)
  {
    if file != [] {
      var n := |file| - 1;
      RowCount(file[..n]);
      assert AllComplete(file) <==> AllComplete(file[..n]) && file[n].Complete?;
    }
  }

  /** Row `k` stands behind the `k` rows of the lines before its own. */
  lemma {:induction false} RowLine(file: seq<Line>, k: nat)
    requires k < |Rows(file)|
    ensures var line := Rows(file)[k].line; line < |file| && file[line].Complete? && |Rows(file[..line])| == k
  {
    var n := |file| - 1;
    if k < |Rows(file[..n])| {
      RowLine(file[..n], k);
      var line := Rows(file)[k].line;
      assert file[..n][..line] == file[..line];
    }
  }

  /** A row holds the fields of its own line. */
  lemma {:induction false} RowExact(file: seq<Line>, k: nat)
    requires k < |Rows(file)|
    ensures var r := Rows(file)[k]; r.line < |file| && file[r.line] == Complete(r.time, r.link, r.kind)
  {
    var n := |file| - 1;
    if k < |Rows(file[..n])| {
      RowExact(file[..n], k);
    }
  }

  /** Every complete line has its row. */
  lemma {:induction false} LineHasRow(file: seq<Line>, i: nat) returns (k: nat)
    requires i < |file| && file[i].Complete?
    ensures k < |Rows(file)| && Rows(file)[k].line == i
  {
    var n := |file| - 1;
    if i == n {
      k := |Rows(file)| - 1;
    } else {
      k := LineHasRow(file[..n], i);
    }
  }

  /** Rows come in the order of their lines. */
  lemma {:induction false} RowsInOrder(file: seq<Line>, i: nat, j: nat)
    requires i < j < |Rows(file)|
    ensures Rows(file)[i].line < Rows(file)[j].line
  {
    var n := |file| - 1;
    if j < |Rows(file[..n])| {
      RowsInOrder(file[..n], i, j);
    } else {
      RowExact(file[..n], i);
    }
  }

  /** No incomplete line stands before row `end`. */
  ghost predicate CompleteBefore(file: seq<Line>, end: nat) {
    end < |Rows(file)| ==> forall i :: 0 <= i < Rows(file)[end].line && i < |file| ==> file[i].Complete?
  }

  /**
   * The cursor handed on is the row where the scan stopped exactly when every line before that row is complete; each
   * incomplete one moves it one row too far.
   */
  lemma CursorExact(file: seq<Line>, end: nat)
    requires end <= |Rows(file)|
    ensures CursorAt(Rows(file), end) == end <==> CompleteBefore(file, end)
    ensures end < |Rows(file)| ==>
      Rows(file)[end].line <= |file| && CursorAt(Rows(file), end) == end + Gaps(file[..Rows(file)[end].line])
  {
    if end < |Rows(file)| {
      RowLine(file, end);
      RowCount(file[..Rows(file)[end].line]);
    }
  }

  /**
   * One incomplete line is enough to lose a pause: the first call stops before row `end`, the next call starts behind
   * it, and the link paused by that row never enters the carried set.
   */
  lemma DroppedLineLosesRow() returns (file: seq<Line>, end: nat)
    ensures var data := Rows(file);
      && end == StopRow(data, 0, 0.0, 2.0) && end < |data| && data[end].kind == Pause
      && end < CursorAt(data, end) <= |data|
      && data[end].link in Replay(data, |data|)
      && data[end].link !in ReplayFrom(data, Replay(data, end), CursorAt(data, end), |data|)
  {
    file := [Incomplete, Complete(1.0, Link(0, 1), Pause), Complete(5.0, Link(0, 2), Pause)];
    end := 1;
    var data := [Row(1, 1.0, Link(0, 1), Pause), Row(2, 5.0, Link(0, 2), Pause)];
    assert file[..2][..1] == file[..1] && file[..1][..0] == [];
    assert Rows(file[..1]) == [] && Rows(file[..2]) == [data[0]];
    assert Rows(file) == data;
    assert StopRow(data, 1, 0.0, 2.0) == 1;
    assert Replay(data, 0) == {};
    assert Replay(data, 1) == Apply({}, data[0]) == {Link(0, 1)};
    assert Replay(data, 2) == Apply(Replay(data, 1), data[1]);
  }

  /** The file is only appended to; at most its last line, if incomplete, is completed later. */
  ghost predicate Grows(file: seq<Line>, more: seq<Line>) {
    && |file| <= |more|
    && forall i :: 0 <= i < |file| && (i < |file| - 1 || file[i].Complete?) ==> more[i] == file[i]
  }

  lemma {:induction false} RowsPrefix(file: seq<Line>, n: nat)
    requires n <= |file|
    ensures Rows(file[..n]) <= Rows(file)
    decreases |file| - n
  {
    if n == |file| {
      assert file[..n] == file;
    } else {
      assert file[..n + 1][..n] == file[..n];
      RowsPrefix(file, n + 1);
    }
  }

  /** So the rows are only appended to. */
  lemma RowsGrow(file: seq<Line>, more: seq<Line>)
    requires Grows(file, more)
    ensures Rows(file) <= Rows(more)
  {
    var n := if file != [] && file[|file| - 1].Incomplete? then |file| - 1 else |file|;
    assert more[..n] == file[..n];
    assert n < |file| ==> Rows(file) == Rows(file[..n]);
    assert n == |file| ==> file[..n] == file;
    RowsPrefix(more, n);
  }

  // ---------------------------------------------------------------------------
  // Paused at an instant

  ghost predicate TimeOrdered(data: seq<Row>) {
    forall i, j :: 0 <= i < j < |data| ==> data[i].time <= data[j].time
  }

  /** The rows up to time `t` are the first `k`. */
  ghost predicate Cut(data: seq<Row>, t: real, k: nat) {
    && k <= |data|
    && (forall i :: 0 <= i < k ==> data[i].time <= t)
    && (forall i :: k <= i < |data| ==> data[i].time > t)
  }

  /** Row `g` is the first one at or after time `t`. */
  ghost predicate FirstAt(data: seq<Row>, t: real, g: nat) {
    && g <= |data|
    && (forall i :: 0 <= i < g ==> data[i].time < t)
    && (forall i :: g <= i < |data| ==> data[i].time >= t)
  }

  /** Link `l` is paused at time `t`, all rows up to `t` taken into account. */
  ghost predicate PausedAt(data: seq<Row>, t: real, l: Link) {
    exists k: nat :: Cut(data, t, k) && l in Replay(data, k)
  }

  ghost predicate PausedDuring(data: seq<Row>, start: real, stop: real, l: Link) {
    exists t: real :: start <= t <= stop && PausedAt(data, t, l)
  }

  lemma {:induction false} CutExists(data: seq<Row>, t: real, n: nat) returns (k: nat)
    requires TimeOrdered(data) && n <= |data| && forall i :: n <= i < |data| ==> data[i].time > t
    ensures Cut(data, t, k)
  {
    if n == 0 || data[n - 1].time <= t {
      k := n;
    } else {
      k := CutExists(data, t, n - 1);
    }
  }

  lemma CutsOrdered(data: seq<Row>, t: real, k: nat, t': real, k': nat)
    requires Cut(data, t, k) && Cut(data, t', k') && t <= t'
    ensures k <= k'
  {
    assert k' < |data| ==> data[k'].time > t';
  }

  // ---------------------------------------------------------------------------
  // Rows of one link

  ghost predicate RowOf(data: seq<Row>, from: nat, to: nat, l: Link)
    requires to <= |data|
  {
    exists j: nat :: from <= j < to && data[j].link == l
  }

  ghost predicate PauseRow(data: seq<Row>, from: nat, to: nat, l: Link)
    requires to <= |data|
  {
    exists j: nat :: from <= j < to && data[j].link == l && data[j].kind == Pause
  }

  ghost predicate ResumeRow(data: seq<Row>, from: nat, to: nat, l: Link)
    requires to <= |data|
  {
    exists j: nat :: from <= j < to && data[j].link == l && data[j].kind == Resume
  }

  /** Row `j` pauses its link, and no row before `k` resumes it. */
  ghost predicate Holds(data: seq<Row>, j: nat, k: nat)
    requires j < k <= |data|
  {
    data[j].kind == Pause && !ResumeRow(data, j + 1, k, data[j].link)
  }

  ghost predicate HeldPause(data: seq<Row>, from: nat, k: nat, l: Link)
    requires k <= |data|
  {
    exists j: nat :: from <= j < k && data[j].link == l && Holds(data, j, k)
  }

  /** A link is paused after row `k` exactly when it stayed paused since `from` or is held paused by a later row. */
  lemma {:induction false} PausedSince(data: seq<Row>, from: nat, k: nat, l: Link)
    requires from <= k <= |data|
    ensures l in Replay(data, k) <==>
      (l in Replay(data, from) && !ResumeRow(data, from, k, l)) || HeldPause(data, from, k, l)
  {
    if from < k {
      PausedSince(data, from, k - 1, l);
      ResumeNext(data, from, k - 1, l);
      HeldNext(data, from, k - 1, l);
    }
  }

  lemma ResumeNext(data: seq<Row>, from: nat, k: nat, l: Link)
    requires from <= k < |data|
    ensures ResumeRow(data, from, k + 1, l) <==>
      ResumeRow(data, from, k, l) || (data[k].link == l && data[k].kind == Resume)
  {
    if j: nat :| from <= j < k && data[j].link == l && data[j].kind == Resume {
      assert from <= j < k + 1;
    }
  }

  lemma HeldNext(data: seq<Row>, from: nat, k: nat, l: Link)
    requires from <= k < |data|
    ensures HeldPause(data, from, k + 1, l) <==>
      if data[k].link != l || data[k].kind == Other then HeldPause(data, from, k, l) else data[k].kind == Pause
  {
    forall j: nat | from <= j < k && data[j].link == l
      ensures Holds(data, j, k + 1) <==> Holds(data, j, k) && !(data[k].link == l && data[k].kind == Resume) {
      ResumeNext(data, j + 1, k, l);
    }
    if data[k].link == l && data[k].kind == Pause {
      assert Holds(data, k, k + 1);
    }
  }

  /** A pause that is not undone by a later row with the same time. */
  ghost predicate Lasting(data: seq<Row>, j: nat)
    requires j < |data|
  {
    data[j].kind == Pause &&
    forall m :: j < m < |data| && data[m].link == data[j].link && data[m].time == data[j].time ==>
        data[m].kind != Resume
  }

  ghost predicate LastingPauseRow(data: seq<Row>, from: nat, to: nat, l: Link)
    requires to <= |data|
  {
    exists j: nat :: from <= j < to && data[j].link == l && Lasting(data, j)
  }

  /** A row that resumes `l` at exactly time `t`. */
  ghost predicate ResumedAt(data: seq<Row>, from: nat, to: nat, t: real, l: Link)
    requires to <= |data|
  {
    exists j: nat :: from <= j < to && data[j].link == l && data[j].kind == Resume && data[j].time == t
  }

  // ---------------------------------------------------------------------------
  // What is counted and what is paused, for any window over a time-ordered log

  ghost function Max(a: nat, b: nat): nat {
    if a < b then b else a
  }

  /**
   * In terms of the rows: when `l` is counted by a scan of the rows `from` to `end`, of which the window starts at
   * `m`.
   */
  ghost predicate CountedByRows(data: seq<Row>, from: nat, m: nat, end: nat, l: Link)
    requires from <= |data| && m <= |data| && end <= |data|
  {
    l in Replay(data, from) || PauseRow(data, m, end, l) || (l in Replay(data, m) && RowOf(data, m, end, l))
  }

  /** In terms of the rows: when `l` is paused at some instant of the window, whose rows are `g` to `c`. */
  ghost predicate PausedByRows(data: seq<Row>, g: nat, c: nat, start: real, l: Link)
    requires g <= |data| && c <= |data|
  {
    LastingPauseRow(data, g, c, l) || (l in Replay(data, g) && !ResumedAt(data, g, c, start, l))
  }

  /** Where the scan stops: behind the window's rows, or where it started if those are consumed already. */
  lemma StopIsCut(data: seq<Row>, from: nat, g: nat, c: nat, start: real, stop: real)
    requires TimeOrdered(data) && from <= |data| && start <= stop
    requires FirstAt(data, start, g) && Cut(data, stop, c)
    ensures g <= c && StopRow(data, from, start, stop) == Max(from, c)
  {
    StopRowIsFirst(data, from, start, stop);
    var end := StopRow(data, from, start, stop);
    assert c < |data| ==> data[c].time > stop;
    if from < end {
      assert !Beyond(data[end - 1], start, stop);
    }
  }

  /** For every window and cursor: a link is counted exactly when the rows say so. */
  lemma CountedExactly(data: seq<Row>, from: nat, g: nat, c: nat, start: real, stop: real, l: Link)
    requires TimeOrdered(data) && from <= |data| && start <= stop
    requires FirstAt(data, start, g) && Cut(data, stop, c)
    ensures var end := StopRow(data, from, start, stop);
      && Max(from, g) <= end
      && (IsCounted(data, Replay(data, from), from, end, start, stop, l) <==>
          CountedByRows(data, from, Max(from, g), end, l))
  {
    StopIsCut(data, from, g, c, start, stop);
    StopRowIsFirst(data, from, start, stop);
    var m, end, carried := Max(from, g), StopRow(data, from, start, stop), Replay(data, from);
    if k: nat :| from <= k < end && Touches(data, carried, from, k, start, stop, l) {
      ReplayContinues(data, from, k);
      TouchedByRows(data, m, k, end, l);
    }
    if j: nat :| m <= j < end && data[j].link == l && data[j].kind == Pause {
      assert !Beyond(data[j], start, stop);
      assert Touches(data, carried, from, j, start, stop, l);
    }
    if l in Replay(data, m) && RowOf(data, m, end, l) {
      var j := FirstRowOf(data, m, end, l);
      UntouchedSince(data, m, j, l);
      ReplayContinues(data, from, j);
      assert !Beyond(data[j], start, stop);
      assert Touches(data, carried, from, j, start, stop, l);
    }
  }

  lemma TouchedByRows(data: seq<Row>, m: nat, k: nat, end: nat, l: Link)
    requires m <= k < end <= |data| && data[k].link == l && (data[k].kind == Pause || l in Replay(data, k))
    ensures PauseRow(data, m, end, l) || (l in Replay(data, m) && RowOf(data, m, end, l))
  {
    if data[k].kind != Pause {
      PausedSince(data, m, k, l);
      if j: nat :| m <= j < k && data[j].link == l && Holds(data, j, k) {
        assert m <= j < end;
      }
    }
  }

  lemma {:induction false} FirstRowOf(data: seq<Row>, from: nat, end: nat, l: Link) returns (j: nat)
    requires end <= |data| && RowOf(data, from, end, l)
    ensures from <= j < end && data[j].link == l && !RowOf(data, from, j, l)
  {
    if RowOf(data, from, end - 1, l) {
      j := FirstRowOf(data, from, end - 1, l);
    } else {
      j := end - 1;
    }
  }

  lemma UntouchedSince(data: seq<Row>, from: nat, k: nat, l: Link)
    requires from <= k <= |data| && !RowOf(data, from, k, l)
    ensures l in Replay(data, k) <==> l in Replay(data, from)
  {
    PausedSince(data, from, k, l);
  }

  /** For every window: a link is paused at some instant of it exactly when the rows say so. */
  lemma PausedExactly(data: seq<Row>, g: nat, c: nat, start: real, stop: real, l: Link)
    requires TimeOrdered(data) && start <= stop && FirstAt(data, start, g) && Cut(data, stop, c)
    ensures PausedDuring(data, start, stop, l) <==> PausedByRows(data, g, c, start, l)
  {
    if PausedDuring(data, start, stop, l) {
      var t :| start <= t <= stop && PausedAt(data, t, l);
      var k: nat :| Cut(data, t, k) && l in Replay(data, k);
      CutsOrdered(data, t, k, stop, c);
      PausedThen(data, g, k, c, start, t, l);
    }
    if j: nat :| g <= j < c && data[j].link == l && Lasting(data, j) {
      LastingIsInstant(data, g, j);
    } else if l in Replay(data, g) && !ResumedAt(data, g, c, start, l) {
      var k := CutExists(data, start, |data|);
      CutsOrdered(data, start, k, stop, c);
      KeptIsInstant(data, g, k, c, start, l);
    }
  }

  lemma PausedThen(data: seq<Row>, g: nat, k: nat, c: nat, start: real, t: real, l: Link)
    requires TimeOrdered(data) && start <= t && FirstAt(data, start, g) && Cut(data, t, k) && k <= c <= |data|
    requires l in Replay(data, k)
    ensures PausedByRows(data, g, c, start, l)
  {
    assert g <= k by {
      assert k < |data| ==> data[k].time > t;
    }
    PausedSince(data, g, k, l);
    if j: nat :| g <= j < k && data[j].link == l && Holds(data, j, k) {
      HoldsLasts(data, j, k, t);
    } else if j: nat :| g <= j < c && data[j].link == l && data[j].kind == Resume && data[j].time == start {
      assert j < k;
      assert ResumeRow(data, g, k, l);
    }
  }

  lemma HoldsLasts(data: seq<Row>, j: nat, k: nat, t: real)
    requires Cut(data, t, k) && j < k && Holds(data, j, k)
    ensures Lasting(data, j)
  {
    forall m | j < m < |data| && data[m].link == data[j].link
        && data[m].time == data[j].time ensures data[m].kind != Resume {
      assert data[j].time <= t;
      assert m < k;
    }
  }

  lemma LastingIsInstant(data: seq<Row>, g: nat, j: nat)
    requires TimeOrdered(data) && g <= j < |data| && Lasting(data, j)
    ensures PausedAt(data, data[j].time, data[j].link)
  {
    var k := CutExists(data, data[j].time, |data|);
    assert Holds(data, j, k);
    PausedSince(data, g, k, data[j].link);
  }

  lemma KeptIsInstant(data: seq<Row>, g: nat, k: nat, c: nat, start: real, l: Link)
    requires FirstAt(data, start, g) && Cut(data, start, k) && k <= c <= |data|
    requires l in Replay(data, g) && !ResumedAt(data, g, c, start, l)
    ensures PausedAt(data, start, l)
  {
    assert g <= k by {
      assert k < |data| ==> data[k].time > start;
    }
    if j: nat :| g <= j < k && data[j].link == l && data[j].kind == Resume {
      assert false;
    }
    PausedSince(data, g, k, l);
  }

  // ---------------------------------------------------------------------------
  // Exactly which links are missed or counted wrongly

  /** Paused at some instant of the window, yet not counted by the call. */
  ghost predicate Missed(data: seq<Row>, from: nat, start: real, stop: real, l: Link)
    requires from <= |data|
  {
    && PausedDuring(data, start, stop, l)
    && !IsCounted(data, Replay(data, from), from, StopRow(data, from, start, stop), start, stop, l)
  }

  /** Counted by the call, yet paused at no instant of the window. */
  ghost predicate Overcounted(data: seq<Row>, from: nat, start: real, stop: real, l: Link)
    requires from <= |data|
  {
    && IsCounted(data, Replay(data, from), from, StopRow(data, from, start, stop), start, stop, l)
    && !PausedDuring(data, start, stop, l)
  }

  /**
   * A window that starts at or after the rows consumed so far, as the first one of each session after a gap: a link
   * is missed exactly when it was paused in the gap and has no row in the window, and counted wrongly exactly when no
   * pause of the window lasts and it was resumed in the gap, resumed at the very start, or only paused for no time.
   */
  lemma GapWindow(data: seq<Row>, from: nat, g: nat, c: nat, start: real, stop: real, l: Link)
    requires TimeOrdered(data) && start <= stop && FirstAt(data, start, g) && Cut(data, stop, c) && from <= g
    ensures Missed(data, from, start, stop, l)
       <==> l !in Replay(data, from) && l in Replay(data, g) && !RowOf(data, g, c, l)
    ensures Overcounted(data, from, start, stop, l)
       <==> !LastingPauseRow(data, g, c, l) &&
            if l in Replay(data, g) then ResumedAt(data, g, c, start, l)
            else l in Replay(data, from) || PauseRow(data, g, c, l)
  {
    StopIsCut(data, from, g, c, start, stop);
    CountedExactly(data, from, g, c, start, stop, l);
    PausedExactly(data, g, c, start, stop, l);
    LastingIsPause(data, g, c, l);
    ResumeIsRow(data, g, c, start, l);
  }

  lemma LastingIsPause(data: seq<Row>, from: nat, to: nat, l: Link)
    requires to <= |data|
    ensures LastingPauseRow(data, from, to, l) ==> PauseRow(data, from, to, l)
  {
    if j: nat :| from <= j < to && data[j].link == l && Lasting(data, j) {
      assert data[j].kind == Pause;
    }
  }

  lemma ResumeIsRow(data: seq<Row>, from: nat, to: nat, t: real, l: Link)
    requires to <= |data|
    ensures ResumedAt(data, from, to, t, l) ==> RowOf(data, from, to, l)
  {
    if j: nat :| from <= j < to && data[j].link == l && data[j].kind == Resume && data[j].time == t {
      assert data[j].link == l;
    }
  }

  /**
   * A window that starts before the rows consumed so far, as the first one of a session that follows the last one
   * closely: what happened in the consumed part of the window counts only through the carried set.
   */
  lemma OverlapWindow(data: seq<Row>, from: nat, g: nat, c: nat, start: real, stop: real, l: Link)
    requires TimeOrdered(data) && start <= stop && FirstAt(data, start, g) && Cut(data, stop, c) && g <= from <= |data|
    ensures Missed(data, from, start, stop, l)
       <==> PausedByRows(data, g, c, start, l) && l !in Replay(data, from) && !PauseRow(data, from, c, l)
    ensures Overcounted(data, from, start, stop, l)
       <==> !PausedByRows(data, g, c, start, l) && (l in Replay(data, from) || PauseRow(data, from, c, l))
  {
    StopIsCut(data, from, g, c, start, stop);
    CountedExactly(data, from, g, c, start, stop, l);
    PausedExactly(data, g, c, start, stop, l);
  }

  /** What holds between back-to-back windows: the rows up to the last stop are consumed, the others lie after it. */
  ghost predicate Aligned(data: seq<Row>, line: nat, lastStop: real) {
    TimeOrdered(data) && Cut(data, lastStop, line)
  }

  /** Link `l` enters the rows unpaused, and every pause in them is undone at once. */
  ghost predicate OnlyBlips(data: seq<Row>, from: nat, to: nat, l: Link)
    requires from <= |data| && to <= |data|
  {
    l !in Replay(data, from) && PauseRow(data, from, to, l) && !LastingPauseRow(data, from, to, l)
  }

  /**
   * A window that starts where the last one stopped misses no link, and counts one wrongly exactly when all its pauses
   * there are undone at once.
   */
  lemma BackToBackWindow(data: seq<Row>, from: nat, start: real, stop: real, l: Link)
    requires Aligned(data, from, start) && start <= stop
    ensures Aligned(data, StopRow(data, from, start, stop), stop)
    ensures !Missed(data, from, start, stop, l)
    ensures Overcounted(data, from, start, stop, l) <==> OnlyBlips(data, from, StopRow(data, from, start, stop), l)
  {
    var g := FirstExists(data, start, from);
    var c := CutExists(data, stop, |data|);
    CutsOrdered(data, start, from, stop, c);
    StopIsCut(data, from, g, c, start, stop);
    OverlapWindow(data, from, g, c, start, stop, l);
    LastingIsPause(data, from, c, l);
    StartRows(data, g, from, c, start, l);
  }

  lemma {:induction false} FirstExists(data: seq<Row>, t: real, n: nat) returns (g: nat)
    requires TimeOrdered(data) && n <= |data| && forall i :: n <= i < |data| ==> data[i].time >= t
    ensures FirstAt(data, t, g) && g <= n
  {
    if n == 0 || data[n - 1].time < t {
      g := n;
    } else {
      g := FirstExists(data, t, n - 1);
    }
  }

  /** The rows `g` to `from` all have time `start`, so what is paused behind them is paused at that instant. */
  lemma StartRows(data: seq<Row>, g: nat, from: nat, c: nat, start: real, l: Link)
    requires TimeOrdered(data) && FirstAt(data, start, g) && Cut(data, start, from) && g <= from <= c <= |data|
    ensures PausedByRows(data, g, c, start, l) <==> l in Replay(data, from) || LastingPauseRow(data, from, c, l)
  {
    PausedSince(data, g, from, l);
    if j: nat :| g <= j < from && data[j].link == l && Holds(data, j, from) {
      HoldsLasts(data, j, from, start);
      assert g <= j < c;
    }
    if j: nat :| from <= j < c && data[j].link == l && Lasting(data, j) {
      assert g <= j < c;
    }
    if j: nat :| g <= j < c && data[j].link == l && Lasting(data, j) {
      if j < from {
        assert Holds(data, j, from);
      }
    }
    if j: nat :| g <= j < from && data[j].link == l && data[j].kind == Resume {
      assert data[j].time == start && g <= j < c;
    }
    if j: nat :| g <= j < c && data[j].link == l && data[j].kind == Resume && data[j].time == start {
      assert j < from;
    }
  }

  // ---------------------------------------------------------------------------
  // Each kind of error occurs

  /** A pause and resume with one time stamp is counted, though the link is paused at no instant. */
  lemma BlipIsCounted() returns (data: seq<Row>, l: Link)
    ensures Aligned(data, 0, 0.0) && Overcounted(data, 0, 0.0, 2.0, l)
  {
    l := Link(0, 1);
    data := [Row(0, 1.0, l, Pause), Row(1, 1.0, l, Resume)];
    StopIsCut(data, 0, 0, 2, 0.0, 2.0);
    BackToBackWindow(data, 0, 0.0, 2.0, l);
    assert data[0].kind == Pause && data[1].kind == Resume;
    assert PauseRow(data, 0, 2, l);
  }

  /** A link paused in the gap before the window and left alone is missed, though it is paused throughout. */
  lemma GapPauseIsMissed() returns (data: seq<Row>, l: Link)
    ensures TimeOrdered(data) && Missed(data, 0, 2.0, 3.0, l)
  {
    l := Link(0, 1);
    data := [Row(0, 1.0, l, Pause)];
    GapWindow(data, 0, 1, 1, 2.0, 3.0, l);
    assert Replay(data, 0) == {} && Replay(data, 1) == Apply({}, data[0]);
  }

  /** A link carried into the gap and resumed there is counted, though it is paused at no instant of the window. */
  lemma GapResumeIsCounted() returns (data: seq<Row>, l: Link)
    ensures TimeOrdered(data) && |data| >= 1 && Overcounted(data, 1, 2.0, 3.0, l)
  {
    l := Link(0, 1);
    data := [Row(0, 0.5, l, Pause), Row(1, 1.0, l, Resume)];
    GapWindow(data, 1, 2, 2, 2.0, 3.0, l);
    assert Replay(data, 0) == {};
    assert Replay(data, 1) == Apply({}, data[0]) == {l};
    assert Replay(data, 2) == Apply({l}, data[1]);
  }

  /** A pause that is over when the overlapped part of the window was consumed is missed. */
  lemma OverlapPauseIsMissed() returns (data: seq<Row>, l: Link)
    ensures TimeOrdered(data) && |data| >= 2 && Missed(data, 2, 1.0, 3.0, l)
  {
    l := Link(0, 1);
    data := [Row(0, 2.0, l, Pause), Row(1, 2.5, l, Resume)];
    OverlapWindow(data, 2, 0, 2, 1.0, 3.0, l);
    assert Replay(data, 0) == {};
    assert Replay(data, 1) == Apply({}, data[0]) == {l};
    assert Replay(data, 2) == Apply({l}, data[1]);
    assert Lasting(data, 0) && LastingPauseRow(data, 0, 2, l);
  }

  // ---------------------------------------------------------------------------
  // Runs

  datatype Window = Window(file: seq<Line>, start: real, stop: real)

  /** The row where the scan of window `i` stops. */
  ghost function Stop(ws: seq<Window>, i: nat): (end: nat)
    requires i < |ws|
    ensures end <= |Rows(ws[i].file)|
    decreases i, 1
  {
    var data := Rows(ws[i].file);
    StopRow(data, Min(Cursor(ws, i), |data|), ws[i].start, ws[i].stop)
  }

  /** The cursor after the first `n` windows. */
  ghost function Cursor(ws: seq<Window>, n: nat): nat
    requires n <= |ws|
    decreases n, 0
  {
    if n == 0 then 0 else CursorAt(Rows(ws[n - 1].file), Stop(ws, n - 1))
  }

  /** The carried set after the first `n` windows. */
  ghost function Carried(ws: seq<Window>, n: nat): set<Link>
    requires n <= |ws|
  {
    if n == 0 then {} else
      var data := Rows(ws[n - 1].file);
      ReplayFrom(data, Carried(ws, n - 1), Min(Cursor(ws, n - 1), |data|), Stop(ws, n - 1))
  }

  /** No incomplete line precedes a row where a scan stops. */
  ghost predicate CleanRun(ws: seq<Window>) {
    forall i :: 0 <= i < |ws| ==> CompleteBefore(ws[i].file, Stop(ws, i))
  }

  ghost predicate GrowingRun(ws: seq<Window>) {
    forall i :: 0 < i < |ws| ==> Grows(ws[i - 1].file, ws[i].file)
  }

  /** The cursor after window `i` is the row where its scan stopped. */
  ghost predicate HandedOn(ws: seq<Window>, i: nat)
    requires i < |ws|
  {
    Cursor(ws, i + 1) == Stop(ws, i)
  }

  /** Over every run, all cursors handed on are the rows where the scans stopped if and only if the run is clean. */
  lemma RunExact(ws: seq<Window>)
    ensures (forall i :: 0 <= i < |ws| ==> HandedOn(ws, i)) <==> CleanRun(ws)
  {
    forall i | 0 <= i < |ws| ensures HandedOn(ws, i) <==> CompleteBefore(ws[i].file, Stop(ws, i)) {
      CursorExact(ws[i].file, Stop(ws, i));
    }
    if forall i :: 0 <= i < |ws| ==> HandedOn(ws, i) {
      forall i | 0 <= i < |ws| ensures CompleteBefore(ws[i].file, Stop(ws, i)) {
        assert HandedOn(ws, i);
      }
    }
    if CleanRun(ws) {
      forall i | 0 <= i < |ws| ensures HandedOn(ws, i) {
        assert CompleteBefore(ws[i].file, Stop(ws, i));
      }
    }
  }

  /** In a clean run over a growing file each row is consumed once, and the carried set replays the rows consumed. */
  lemma {:induction false} CleanRunReplays(ws: seq<Window>, i: nat)
    requires CleanRun(ws) && GrowingRun(ws) && i < |ws|
    ensures var data := Rows(ws[i].file);
      && Cursor(ws, i) <= |data| && Carried(ws, i) == Replay(data, Cursor(ws, i))
      && Carried(ws, i + 1) == Replay(data, Stop(ws, i)) && Cursor(ws, i + 1) == Stop(ws, i)
  {
    assert CompleteBefore(ws[i].file, Stop(ws, i));
    CursorExact(ws[i].file, Stop(ws, i));
    if i > 0 {
      CleanRunReplays(ws, i - 1);
      CarriedOver(ws, i);
    }
    CarriedOn(ws, i);
  }

  /** Between two windows the file grows, which leaves the consumed rows as they are. */
  lemma CarriedOver(ws: seq<Window>, i: nat)
    requires GrowingRun(ws) && 0 < i < |ws|
    requires Cursor(ws, i) == Stop(ws, i - 1) && Carried(ws, i) == Replay(Rows(ws[i - 1].file), Stop(ws, i - 1))
    ensures Cursor(ws, i) <= |Rows(ws[i].file)| && Carried(ws, i) == Replay(Rows(ws[i].file), Cursor(ws, i))
  {
    RowsGrow(ws[i - 1].file, ws[i].file);
    ReplayPrefix(Rows(ws[i - 1].file), Rows(ws[i].file), Stop(ws, i - 1));
  }

  /** In a window the scan goes on from the rows consumed. */
  lemma CarriedOn(ws: seq<Window>, i: nat)
    requires i < |ws| && Cursor(ws, i) <= |Rows(ws[i].file)|
    requires Carried(ws, i) == Replay(Rows(ws[i].file), Cursor(ws, i))
    ensures Carried(ws, i + 1) == Replay(Rows(ws[i].file), Stop(ws, i))
  {
    ReplayContinues(Rows(ws[i].file), Cursor(ws, i), Stop(ws, i));
  }

  /** The links counted in window `i` are those of a scan from the cursor with the carried set. */
  ghost predicate CountOf(ws: seq<Window>, i: nat, counted: set<Link>)
    requires i < |ws|
  {
    var data := Rows(ws[i].file);
    var from := Min(Cursor(ws, i), |data|);
    forall l :: l in counted <==> IsCounted(data, Carried(ws, i), from, Stop(ws, i), ws[i].start, ws[i].stop, l)
  }

  /** The same for the first `n` windows. */
  ghost predicate CountsOf(ws: seq<Window>, n: nat, counted: seq<set<Link>>)
    requires n <= |ws|
  {
    |counted| == n && (n > 0 ==> CountsOf(ws, n - 1, counted[..n - 1]) && CountOf(ws, n - 1, counted[n - 1]))
  }

  lemma {:induction false} CountsAt(ws: seq<Window>, n: nat, counted: seq<set<Link>>, i: nat)
    requires i < n <= |ws| && CountsOf(ws, n, counted)
    ensures CountOf(ws, i, counted[i])
  {
    if i < n - 1 {
      CountsAt(ws, n - 1, counted[..n - 1], i);
    }
  }

  /**
   * In a clean run over a growing, time-ordered file, the links counted in each window are those paused at some instant
   * of it, but for the missed and wrongly counted ones, which the lemmas on single windows pin down.
   */
  lemma CleanRunCounts(ws: seq<Window>, counted: seq<set<Link>>, i: nat, l: Link)
    requires CleanRun(ws) && GrowingRun(ws) && CountsOf(ws, |ws|, counted) && i < |ws|
    ensures var data, from := Rows(ws[i].file), Cursor(ws, i);
      && from <= |data|
      && (PausedDuring(data, ws[i].start, ws[i].stop, l) && l !in counted[i]
          <==> Missed(data, from, ws[i].start, ws[i].stop, l))
      && (l in counted[i] && !PausedDuring(data, ws[i].start, ws[i].stop, l)
          <==> Overcounted(data, from, ws[i].start, ws[i].stop, l))
  {
    CleanRunReplays(ws, i);
    CountsAt(ws, |ws|, counted, i);
  }

  class Consumer {
    var line: nat
    var paused: set<Link>
    ghost var log: seq<Row>
    ghost var lastStop: real

    /** The carried set is the replay of the consumed prefix of the log. */
    ghost predicate Valid()
      reads this
    {
      line <= |log| && paused == Replay(log, line)
    }

    constructor (ghost firstStart: real)
      ensures Valid() && line == 0 && paused == {} && log == []
      ensures lastStop == firstStart && Aligned(log, line, lastStop)
    {
      line, paused, log, lastStop := 0, {}, [], firstStart;
    }

    /**
     * Any window over any file. While the rows only grow and no incomplete line stands before the stopping row, each
     * row is consumed once, in order, and the carried set replays the consumed prefix.
     */
    method Handle(file: seq<Line>, start: real, stop: real) returns (counted: set<Link>)
      modifies this
      ensures log == Rows(file) && lastStop == stop
      ensures var data := Rows(file);
        var from := Min(old(line), |data|);
        var end := StopRow(data, from, start, stop);
        && line == CursorAt(data, end)
        && paused == ReplayFrom(data, old(paused), from, end)
        && (forall l :: l in counted <==> IsCounted(data, old(paused), from, end, start, stop, l))
        && (old(Valid()) && old(log) <= data && CompleteBefore(file, end) ==>
              Valid() && line == end && from == old(line) && old(paused) == Replay(data, from))
    {
      var data := Rows(file);
      ghost var from := Min(line, |data|);
      ghost var end := StopRow(data, from, start, stop);
      if Valid() && log <= data {
        ReplayPrefix(log, data, line);
        ReplayContinues(data, from, end);
      }
      CursorExact(file, end);
      counted, line, paused := PfcHandling(data, start, stop, line, paused);
      log, lastStop := data, stop;
    }

    /** The next of a run of back-to-back windows: the log has grown, by rows later than the last stop only. */
    method HandleNext(file: seq<Line>, start: real, stop: real) returns (counted: set<Link>)
      requires Valid() && Aligned(log, line, lastStop) && start == lastStop <= stop && log <= Rows(file)
      requires CompleteBefore(file, StopRow(Rows(file), line, start, stop))
      requires TimeOrdered(Rows(file)) && forall k :: |log| <= k < |Rows(file)| ==> Rows(file)[k].time > lastStop
      modifies this
      ensures Valid() && log == Rows(file) && lastStop == stop && Aligned(log, line, lastStop)
      ensures line == StopRow(log, old(line), start, stop)
      ensures forall l :: PausedDuring(log, start, stop, l) ==> l in counted
      ensures forall l :: l in counted && !PausedDuring(log, start, stop, l) <==> OnlyBlips(log, old(line), line, l)
    {
      ghost var from, data := line, Rows(file);
      assert Cut(data, start, from);
      counted := Handle(file, start, stop);
      BackToBackWindow(data, from, start, stop, Link(0, 0));
      forall l
        ensures PausedDuring(data, start, stop, l) ==> l in counted
        ensures l in counted && !PausedDuring(data, start, stop, l) <==> OnlyBlips(data, from, line, l)
      {
        BackToBackWindow(data, from, start, stop, l);
        assert l in counted <==> IsCounted(data, Replay(data, from), from, line, start, stop, l);
      }
    }

    /** Every run of windows, with gaps or overlaps, over any files. */
    method HandleRun(ws: seq<Window>) returns (counted: seq<set<Link>>)
      requires line == 0 && paused == {}
      modifies this
      ensures line == Cursor(ws, |ws|) && paused == Carried(ws, |ws|) && CountsOf(ws, |ws|, counted)
    {
      counted := [];
      for i := 0 to |ws|
        invariant line == Cursor(ws, i) && paused == Carried(ws, i)
        invariant CountsOf(ws, i, counted)
      {
        var more := Handle(ws[i].file, ws[i].start, ws[i].stop);
        assert CountOf(ws, i, more);
        assert (counted + [more])[..i] == counted;
        counted := counted + [more];
      }
    }
  }
}
