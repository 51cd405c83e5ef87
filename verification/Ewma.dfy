/** The bad-step average that drives the direction cap, and the script that rebuilds it from the tuner log. */
module Ewma {
  import opened Collections

  /** The constants shared by the tuner and the script. */
  datatype Config = Config(alpha: real, eps: real, capMax: real)

  ghost predicate ConfigOk(c: Config) {
    0.0 < c.alpha < 1.0 && c.eps > 0.0 && 0.5 <= c.capMax <= 1.0
  }

  function BadSignal(c: Config, delta: real): real {
    if delta < -c.eps then 1.0 else 0.0
  }

  function Rest(x: real): real {
    1.0 - x
  }

  /** `update_bad_rate_ewma`. */
  function NextRate(c: Config, rate: real, delta: real): real {
    c.alpha * BadSignal(c, delta) + Rest(c.alpha) * rate
  }

  function Span(c: Config): real {
    c.capMax - 0.5
  }

  /** `get_direction_prob_cap` under the adaptive policy. */
  function Cap(c: Config, rate: real): real {
    0.5 + Span(c) * Rest(rate)
  }

  lemma ProductNonNegative(a: real, b: real)
    requires a >= 0.0 && b >= 0.0
    ensures a * b >= 0.0
  {
  }

  lemma ProductPositive(a: real, b: real)
    requires a > 0.0 && b > 0.0
    ensures a * b > 0.0
  {
  }

  lemma Complement(a: real, b: real)
    ensures a * (1.0 - b) == a - a * b
  {
  }

  /** A share of an amount is no larger than the amount, and smaller for a share below one of a positive amount. */
  lemma Share(a: real, b: real)
    requires a >= 0.0 && 0.0 <= b <= 1.0
    ensures 0.0 <= a * b <= a && (a > 0.0 && b < 1.0 ==> a * b < a)
  {
    ProductNonNegative(a, b);
    ProductNonNegative(a, 1.0 - b);
    Complement(a, b);
    if a > 0.0 && b < 1.0 {
      ProductPositive(a, 1.0 - b);
    }
  }

  /** The recurrence with the product of the signal worked out. */
  lemma NextRateIs(c: Config, rate: real, delta: real)
    ensures NextRate(c, rate, delta) == (if delta < -c.eps then c.alpha else 0.0) + Rest(c.alpha) * rate
  {
    if delta < -c.eps {
      assert c.alpha * 1.0 == c.alpha;
    } else {
      assert c.alpha * 0.0 == 0.0;
    }
  }

  /** A weighted mean of a signal and an earlier mean. */
  lemma MeanInRange(part: real, keep: real, rate: real, mean: real)
    requires 0.0 < keep < 1.0 && 0.0 <= part <= 1.0 - keep && 0.0 <= rate < 1.0 && mean == part + keep * rate
    ensures 0.0 <= mean < 1.0
  {
    Share(keep, rate);
  }

  lemma RateStaysBelowOne(c: Config, rate: real, delta: real)
    requires ConfigOk(c) && 0.0 <= rate < 1.0
    ensures 0.0 <= NextRate(c, rate, delta) < 1.0
  {
    NextRateIs(c, rate, delta);
    MeanInRange(if delta < -c.eps then c.alpha else 0.0, Rest(c.alpha), rate, NextRate(c, rate, delta));
  }

  lemma CapInRange(c: Config, rate: real)
    requires ConfigOk(c) && 0.0 <= rate < 1.0
    ensures 0.5 <= Cap(c, rate) <= c.capMax
  {
    Share(Span(c), Rest(rate));
  }

  /** The cap is at its maximum without bad steps, and falls with the average by (cap max - 0.5) per unit. */
  lemma CapShape(c: Config, rate: real, higher: real)
    ensures Cap(c, 0.0) == c.capMax && Cap(c, 1.0) == 0.5
    ensures Cap(c, rate) - Cap(c, higher) == (c.capMax - 0.5) * (higher - rate)
  {
    Complement(c.capMax - 0.5, rate);
    Complement(c.capMax - 0.5, higher);
    Spread(c.capMax - 0.5, higher, rate);
    assert (c.capMax - 0.5) * 1.0 == c.capMax - 0.5 && (c.capMax - 0.5) * 0.0 == 0.0;
  }

  lemma Spread(a: real, x: real, y: real)
    ensures a * (x - y) == a * x - a * y
  {
  }

  // ---------------------------------------------------------------------------
  // The tuner's side

  /** One annealing round: the utility measured and whether the candidate was accepted. */
  datatype Round = Round(total: real, accepted: bool)

  datatype Session = Session(baseline: real, rounds: seq<Round>)

  datatype Point = Point(rate: real, cap: real)

  /** The value the next candidate is compared with. */
  function CurrentAfter(current: real, rounds: seq<Round>): real {
    if rounds == [] then current else
      var last := rounds[|rounds| - 1];
      if last.accepted then last.total else CurrentAfter(current, rounds[..|rounds| - 1])
  }

  function RateAfter(c: Config, rate: real, current: real, rounds: seq<Round>): real {
    if rounds == [] then rate else
      var before, last := rounds[..|rounds| - 1], rounds[|rounds| - 1];
      NextRate(c, RateAfter(c, rate, current, before), last.total - CurrentAfter(current, before))
  }

  /** The average and the cap after each round of a session. */
  function SessionPoints(c: Config, rate: real, current: real, rounds: seq<Round>): seq<Point> {
    if rounds == [] then [] else
      var r := RateAfter(c, rate, current, rounds);
      SessionPoints(c, rate, current, rounds[..|rounds| - 1]) + [Point(r, Cap(c, r))]
  }

  /** The average carries over from session to session. */
  function RateAfterSessions(c: Config, sessions: seq<Session>): real {
    if sessions == [] then 0.0 else
      var last := sessions[|sessions| - 1];
      RateAfter(c, RateAfterSessions(c, sessions[..|sessions| - 1]), last.baseline, last.rounds)
  }

  lemma RateAfterNext(c: Config, sessions: seq<Session>, s: Session)
    ensures RateAfterSessions(c, sessions + [s]) == RateAfter(c, RateAfterSessions(c, sessions), s.baseline, s.rounds)
  {
    assert (sessions + [s])[..|sessions|] == sessions;
  }

  function TunerPoints(c: Config, sessions: seq<Session>): seq<Point> {
    if sessions == [] then [] else
      var before, last := sessions[..|sessions| - 1], sessions[|sessions| - 1];
      TunerPoints(c, before) + SessionPoints(c, RateAfterSessions(c, before), last.baseline, last.rounds)
  }

  /** In every run the average stays in [0, 1) and the cap in [0.5, cap max]. */
  lemma {:induction false} SessionPointsInRange(c: Config, rate: real, current: real, rounds: seq<Round>)
    requires ConfigOk(c) && 0.0 <= rate < 1.0
    ensures 0.0 <= RateAfter(c, rate, current, rounds) < 1.0
    ensures forall p <- SessionPoints(c, rate, current, rounds) :: 0.0 <= p.rate < 1.0 && 0.5 <= p.cap <= c.capMax
  {
    if rounds != [] {
      var before, last := rounds[..|rounds| - 1], rounds[|rounds| - 1];
      SessionPointsInRange(c, rate, current, before);
      RateStaysBelowOne(c, RateAfter(c, rate, current, before), last.total - CurrentAfter(current, before));
      CapInRange(c, RateAfter(c, rate, current, rounds));
    }
  }

  lemma {:induction false} TunerPointsInRange(c: Config, sessions: seq<Session>)
    requires ConfigOk(c)
    ensures 0.0 <= RateAfterSessions(c, sessions) < 1.0
    ensures forall p <- TunerPoints(c, sessions) :: 0.0 <= p.rate < 1.0 && 0.5 <= p.cap <= c.capMax
  {
    if sessions != [] {
      var before, last := sessions[..|sessions| - 1], sessions[|sessions| - 1];
      TunerPointsInRange(c, before);
      SessionPointsInRange(c, RateAfterSessions(c, before), last.baseline, last.rounds);
    }
  }

  // ---------------------------------------------------------------------------
  // The log

  datatype Kind = Baseline | AnnealingRound | CollectOnly | Observe

  /** The fields the script searches for; a search that finds nothing gives None. */
  datatype Block = Block(total: Option<real>, round: Option<nat>, kind: Kind, accepted: Option<bool>)

  /** The total is found only when it is printed without a minus sign. */
  function LoggedTotal(x: real): Option<real> {
    if x >= 0.0 then Some(x) else None
  }

  function BaselineBlock(baseline: real): Block {
    Block(LoggedTotal(baseline), Some(0), Baseline, None)
  }

  function RoundBlock(n: nat, r: Round): Block {
    Block(LoggedTotal(r.total), Some(n), AnnealingRound, Some(r.accepted))
  }

  function RoundBlocks(rounds: seq<Round>): seq<Block> {
    if rounds == [] then [] else RoundBlocks(rounds[..|rounds| - 1]) + [RoundBlock(|rounds|, rounds[|rounds| - 1])]
  }

  function SessionBlocks(s: Session): seq<Block> {
    [BaselineBlock(s.baseline)] + RoundBlocks(s.rounds)
  }

  function LogOf(sessions: seq<Session>): seq<Block> {
    if sessions == [] then [] else LogOf(sessions[..|sessions| - 1]) + SessionBlocks(sessions[|sessions| - 1])
  }

  /** Blocks of the monitor thread and of collect-only sessions. */
  predicate Foreign(b: Block) {
    (b.kind == Observe && b.round.None?) || (b.kind == CollectOnly && b.round == Some(0))
  }

  function DropForeign(log: seq<Block>): seq<Block> {
    if log == [] then [] else
      var last := log[|log| - 1];
      DropForeign(log[..|log| - 1]) + if Foreign(last) then [] else [last]
  }

  // ---------------------------------------------------------------------------
  // The script

  datatype Row = Row(total: real, accepted: bool, delta: real)

  /** The script's loop state; subtracting from a missing value raises. */
  datatype Scan = Scan(current: Option<real>, rows: seq<Row>) | TypeError

  function ScanBlock(s: Scan, b: Block): Scan
    requires s.Scan?
  {
    if b.total.None? || b.round.None? then s
    else if b.round.value == 0 && b.kind == Baseline then s.(current := b.total)
    else if b.round.value == 0 then s
    else if s.current.None? then TypeError
    else
      var accepted := b.accepted == Some(true);
      var row := Row(b.total.value, accepted, b.total.value - s.current.value);
      Scan(if accepted then b.total else s.current, s.rows + [row])
  }

  function ScanBlocks(s: Scan, log: seq<Block>): Scan {
    if log == [] then s else
      var before := ScanBlocks(s, log[..|log| - 1]);
      if before.TypeError? then TypeError else ScanBlock(before, log[|log| - 1])
  }

  const START: Scan := Scan(None, [])

  method ParseRoundRecords(log: seq<Block>) returns (s: Scan)
    ensures s == ScanBlocks(START, log)
  {
    s := START;
    for i := 0 to |log|
      invariant s.Scan? && s == ScanBlocks(START, log[..i])
    {
      assert log[..i + 1][..i] == log[..i];
      s := ScanBlock(s, log[i]);
      if s.TypeError? {
        StaysFailed(log, i + 1);
        return;
      }
    }
    assert log[..|log|] == log;
  }

  lemma {:induction false} StaysFailed(log: seq<Block>, i: nat)
    requires i <= |log| && ScanBlocks(START, log[..i]).TypeError?
    ensures ScanBlocks(START, log).TypeError?
    decreases |log| - i
  {
    if i == |log| {
      assert log[..i] == log;
    } else {
      assert log[..i + 1][..i] == log[..i];
      StaysFailed(log, i + 1);
    }
  }

  function RowRate(c: Config, rows: seq<Row>): real {
    if rows == [] then 0.0 else NextRate(c, RowRate(c, rows[..|rows| - 1]), rows[|rows| - 1].delta)
  }

  function RowPoints(c: Config, rows: seq<Row>): seq<Point> {
    if rows == [] then [] else
      RowPoints(c, rows[..|rows| - 1]) + [Point(RowRate(c, rows), Cap(c, RowRate(c, rows)))]
  }

  method ReconstructHistory(c: Config, rows: seq<Row>) returns (out: seq<Point>)
    ensures out == RowPoints(c, rows)
  {
    out := [];
    var badRate := 0.0;
    for i := 0 to |rows|
      invariant badRate == RowRate(c, rows[..i]) && out == RowPoints(c, rows[..i])
    {
      PointNext(c, rows, i);
      var pValue;
      badRate, pValue := ReplayRow(c, badRate, rows[i].delta);
      out := out + [Point(badRate, pValue)];
    }
    assert rows[..|rows|] == rows;
  }

  /** The loop body: the script's own copy of the tuner's formulas. */
  method ReplayRow(c: Config, badRate: real, delta: real) returns (badRate': real, pValue: real)
    ensures badRate' == NextRate(c, badRate, delta) && pValue == Cap(c, badRate')
  {
    var badSignal := if delta < -c.eps then 1.0 else 0.0;
    badRate' := c.alpha * badSignal + Rest(c.alpha) * badRate;
    pValue := 0.5 + Span(c) * Rest(badRate');
  }

  lemma {:induction false} PointNext(c: Config, rows: seq<Row>, i: nat)
    requires i < |rows|
    ensures var r := NextRate(c, RowRate(c, rows[..i]), rows[i].delta);
      RowRate(c, rows[..i + 1]) == r && RowPoints(c, rows[..i + 1]) == RowPoints(c, rows[..i]) + [Point(r, Cap(c, r))]
  {
    assert rows[..i + 1][..i] == rows[..i];
  }

  // ---------------------------------------------------------------------------
  // Replaying the log

  function ObserveBlock(total: Option<real>): Block {
    Block(total, None, Observe, None)
  }

  function CollectOnlyBlock(total: Option<real>): Block {
    Block(total, Some(0), CollectOnly, None)
  }

  /** Blocks of the monitor thread and of collect-only sessions may stand anywhere between those of a session. */
  lemma {:induction false} MonitorBlocksVanish(before: seq<Block>, total: Option<real>, after: seq<Block>)
    ensures DropForeign(before + [ObserveBlock(total)] + after) == DropForeign(before + after)
    ensures DropForeign(before + [CollectOnlyBlock(total)] + after) == DropForeign(before + after)
  {
    if after == [] {
      assert before + after == before;
      DropNext(before, ObserveBlock(total));
      DropNext(before, CollectOnlyBlock(total));
      assert before + [ObserveBlock(total)] + after == before + [ObserveBlock(total)];
      assert before + [CollectOnlyBlock(total)] + after == before + [CollectOnlyBlock(total)];
    } else {
      var rest, last := after[..|after| - 1], after[|after| - 1];
      MonitorBlocksVanish(before, total, rest);
      DropLast(before, after);
      DropLast(before + [ObserveBlock(total)], after);
      DropLast(before + [CollectOnlyBlock(total)], after);
    }
  }

  lemma DropNext(log: seq<Block>, b: Block)
    ensures DropForeign(log + [b]) == DropForeign(log) + if Foreign(b) then [] else [b]
  {
    assert (log + [b])[..|log|] == log;
  }

  lemma DropLast(a: seq<Block>, b: seq<Block>)
    requires b != []
    ensures var last := b[|b| - 1];
      DropForeign(a + b) == DropForeign(a + b[..|b| - 1]) + if Foreign(last) then [] else [last]
  {
    DropNext(a + b[..|b| - 1], b[|b| - 1]);
    assert a + b == a + b[..|b| - 1] + [b[|b| - 1]];
  }

  lemma {:induction false} ForeignIgnored(s: Scan, log: seq<Block>)
    ensures ScanBlocks(s, log) == ScanBlocks(s, DropForeign(log))
  {
    if log != [] {
      var before, last := log[..|log| - 1], log[|log| - 1];
      ForeignIgnored(s, before);
      if Foreign(last) {
        assert DropForeign(log) == DropForeign(before);
      } else {
        assert DropForeign(log) == DropForeign(before) + [last];
        assert DropForeign(log)[..|DropForeign(log)| - 1] == DropForeign(before);
      }
    }
  }

  lemma {:induction false} ScanConcat(s: Scan, a: seq<Block>, b: seq<Block>)
    ensures ScanBlocks(s, a + b) ==
      if ScanBlocks(s, a).TypeError? then TypeError else ScanBlocks(ScanBlocks(s, a), b)
  {
    if b == [] {
      assert a + b == a;
    } else {
      var b' := b[..|b| - 1];
      assert (a + b)[..|a + b| - 1] == a + b';
      ScanConcat(s, a, b');
    }
  }

  function SessionRows(current: real, rounds: seq<Round>): seq<Row> {
    if rounds == [] then [] else
      var before, last := rounds[..|rounds| - 1], rounds[|rounds| - 1];
      SessionRows(current, before) + [Row(last.total, last.accepted, last.total - CurrentAfter(current, before))]
  }

  predicate NonNegative(rounds: seq<Round>) {
    forall r <- rounds :: r.total >= 0.0
  }

  lemma {:induction false} ScanNext(s: Scan, log: seq<Block>, b: Block)
    ensures ScanBlocks(s, log + [b]) ==
      if ScanBlocks(s, log).TypeError? then TypeError else ScanBlock(ScanBlocks(s, log), b)
  {
    assert (log + [b])[..|log|] == log;
  }

  lemma {:induction false} ScanRound(s: Scan, rounds: seq<Round>)
    requires rounds != []
    ensures var before := ScanBlocks(s, RoundBlocks(rounds[..|rounds| - 1]));
      ScanBlocks(s, RoundBlocks(rounds)) ==
      if before.TypeError? then TypeError else ScanBlock(before, RoundBlock(|rounds|, rounds[|rounds| - 1]))
  {
    ScanNext(s, RoundBlocks(rounds[..|rounds| - 1]), RoundBlock(|rounds|, rounds[|rounds| - 1]));
  }

  /** A logged round seen with a current value. */
  lemma SeenRound(current: real, rows: seq<Row>, n: nat, r: Round)
    requires n > 0 && r.total >= 0.0
    ensures ScanBlock(Scan(Some(current), rows), RoundBlock(n, r)) ==
      Scan(Some(if r.accepted then r.total else current), rows + [Row(r.total, r.accepted, r.total - current)])
  {
  }

  /** The rounds of a session, scanned with the tuner's own current value. */
  lemma {:induction false} RoundsScan(current: real, rows: seq<Row>, rounds: seq<Round>)
    requires NonNegative(rounds)
    ensures ScanBlocks(Scan(Some(current), rows), RoundBlocks(rounds)) ==
      Scan(Some(CurrentAfter(current, rounds)), rows + SessionRows(current, rounds))
  {
    if rounds == [] {
      assert rows + [] == rows;
    } else {
      var before, last := rounds[..|rounds| - 1], rounds[|rounds| - 1];
      RoundsScan(current, rows, before);
      assert last in rounds;
      ScanRound(Scan(Some(current), rows), rounds);
      SeenRound(CurrentAfter(current, before), rows + SessionRows(current, before), |rounds|, last);
      assert rows + SessionRows(current, before) + [RoundRow(current, before, last)]
          == rows + SessionRows(current, rounds);
    }
  }

  function RoundRow(current: real, before: seq<Round>, last: Round): Row {
    Row(last.total, last.accepted, last.total - CurrentAfter(current, before))
  }

  lemma {:induction false} BaselineScan(s: Scan, session: Session)
    requires s.Scan?
    ensures ScanBlocks(s, SessionBlocks(session)) ==
      ScanBlocks(if session.baseline >= 0.0 then s.(current := Some(session.baseline))
          else s, RoundBlocks(session.rounds))
  {
    var first := [BaselineBlock(session.baseline)];
    ScanConcat(s, first, RoundBlocks(session.rounds));
    assert first[..0] == [];
    assert ScanBlocks(s, first) == ScanBlock(s, first[0]);
  }

  /** A round at least as good as the current value is accepted, as the annealing rule demands. */
  ghost predicate Fair(s: Session) {
    forall i :: 0 <= i < |s.rounds| && s.rounds[i].total >= CurrentAfter(s.baseline, s.rounds[..i]) ==>
        s.rounds[i].accepted
  }

  /** The rows when the baseline is hidden and `stale` is the value left from earlier: the first one is off. */
  function HiddenRows(stale: real, baseline: real, rounds: seq<Round>): (rows: seq<Row>)
    requires rounds != []
    ensures |rows| == |rounds|
  {
    RowCount(baseline, rounds);
    SessionRows(baseline, rounds)[0 := Row(rounds[0].total, true, rounds[0].total - stale)]
  }

  lemma {:induction false} RowCount(current: real, rounds: seq<Round>)
    ensures |SessionRows(current, rounds)| == |rounds|
  {
    if rounds != [] {
      RowCount(current, rounds[..|rounds| - 1]);
    }
  }

  /** After a hidden baseline the first round is accepted, and from then on the script is in step again. */
  lemma {:induction false} HiddenScan(stale: real, rows: seq<Row>, baseline: real, rounds: seq<Round>)
    requires baseline < 0.0 && NonNegative(rounds) && rounds != [] && Fair(Session(baseline, rounds))
    ensures ScanBlocks(Scan(Some(stale), rows), RoundBlocks(rounds)) ==
      Scan(Some(CurrentAfter(baseline, rounds)), rows + HiddenRows(stale, baseline, rounds))
  {
    var before, last := rounds[..|rounds| - 1], rounds[|rounds| - 1];
    assert last in rounds;
    ScanRound(Scan(Some(stale), rows), rounds);
    if before == [] {
      assert rounds == [last];
      FirstAccepted(baseline, rounds);
      SeenRound(stale, rows, |rounds|, last);
      HiddenFirst(stale, baseline, last);
    } else {
      FairPrefix(baseline, rounds);
      HiddenScan(stale, rows, baseline, before);
      HiddenStep(stale, rows, baseline, rounds);
    }
  }

  lemma HiddenStep(stale: real, rows: seq<Row>, baseline: real, rounds: seq<Round>)
    requires |rounds| > 1 && rounds[|rounds| - 1].total >= 0.0
    ensures var before, last := rounds[..|rounds| - 1], rounds[|rounds| - 1];
      ScanBlock(Scan(Some(CurrentAfter(baseline, before)), rows + HiddenRows(stale, baseline, before)),
          RoundBlock(|rounds|, last))
      == Scan(Some(CurrentAfter(baseline, rounds)), rows + HiddenRows(stale, baseline, rounds))
  {
    var before, last := rounds[..|rounds| - 1], rounds[|rounds| - 1];
    SeenRound(CurrentAfter(baseline, before), rows + HiddenRows(stale, baseline, before), |rounds|, last);
    HiddenNext(stale, baseline, rounds);
    Regroup(rows, HiddenRows(stale, baseline, before), RoundRow(baseline, before, last));
  }

  lemma Regroup<T>(a: seq<T>, b: seq<T>, x: T)
    ensures a + b + [x] == a + (b + [x])
  {
  }

  lemma HiddenFirst(stale: real, baseline: real, r: Round)
    ensures HiddenRows(stale, baseline, [r]) == [Row(r.total, true, r.total - stale)]
    ensures CurrentAfter(baseline, [r]) == if r.accepted then r.total else baseline
  {
    assert [r][..0] == [];
  }

  lemma FirstAccepted(baseline: real, rounds: seq<Round>)
    requires baseline < 0.0 && rounds != [] && rounds[0].total >= 0.0 && Fair(Session(baseline, rounds))
    ensures rounds[0].accepted
  {
    assert rounds[..0] == [];
  }

  lemma FairPrefix(baseline: real, rounds: seq<Round>)
    requires rounds != [] && Fair(Session(baseline, rounds))
    ensures Fair(Session(baseline, rounds[..|rounds| - 1]))
  {
    var before := rounds[..|rounds| - 1];
    forall i | 0 <= i < |before| && before[i].total >= CurrentAfter(baseline, before[..i]) ensures before[i].accepted {
      assert before[..i] == rounds[..i];
    }
  }

  lemma HiddenNext(stale: real, baseline: real, rounds: seq<Round>)
    requires |rounds| > 1
    ensures var before, last := rounds[..|rounds| - 1], rounds[|rounds| - 1];
      HiddenRows(stale, baseline, rounds) == HiddenRows(stale, baseline, before) + [RoundRow(baseline, before, last)]
  {
    RowCount(baseline, rounds[..|rounds| - 1]);
  }

  lemma {:induction false} UnanchoredScan(rows: seq<Row>, rounds: seq<Round>)
    requires NonNegative(rounds) && rounds != []
    ensures ScanBlocks(Scan(None, rows), RoundBlocks(rounds)).TypeError?
  {
    var before, last := rounds[..|rounds| - 1], rounds[|rounds| - 1];
    assert last in rounds;
    ScanNext(Scan(None, rows), RoundBlocks(before), RoundBlock(|rounds|, last));
    if before != [] {
      UnanchoredScan(rows, before);
    }
  }

  // ---------------------------------------------------------------------------
  // All sessions

  ghost predicate AllNonNegative(sessions: seq<Session>) {
    forall s <- sessions :: NonNegative(s.rounds)
  }

  /** Only sessions with a hidden baseline need the rule. */
  ghost predicate AllFair(sessions: seq<Session>) {
    forall s <- sessions :: Hidden(s) ==> Fair(s)
  }

  /** The value the script compares with after these sessions: the last one that it found in the log. */
  function LastLogged(sessions: seq<Session>): Option<real> {
    if sessions == [] then None else
      var last := sessions[|sessions| - 1];
      if last.baseline >= 0.0 || last.rounds != [] then Some(CurrentAfter(last.baseline, last.rounds))
      else LastLogged(sessions[..|sessions| - 1])
  }

  /** A session whose baseline is hidden, but whose rounds are not. */
  predicate Hidden(s: Session) {
    s.baseline < 0.0 && s.rounds != []
  }

  /** Every hidden baseline comes after some logged value. */
  ghost predicate Anchored(sessions: seq<Session>) {
    sessions == [] ||
    var before := sessions[..|sessions| - 1];
    Anchored(before) && (Hidden(sessions[|sessions| - 1]) ==> LastLogged(before).Some?)
  }

  ghost function SessionScriptRows(stale: Option<real>, s: Session): seq<Row> {
    if Hidden(s) && stale.Some? then HiddenRows(stale.value, s.baseline, s.rounds)
        else SessionRows(s.baseline, s.rounds)
  }

  ghost function ScriptRows(sessions: seq<Session>): seq<Row> {
    if sessions == [] then [] else
      var before, last := sessions[..|sessions| - 1], sessions[|sessions| - 1];
      ScriptRows(before) + SessionScriptRows(LastLogged(before), last)
  }

  ghost function TunerRows(sessions: seq<Session>): seq<Row> {
    if sessions == [] then [] else
      TunerRows(sessions[..|sessions| - 1]) + SessionRows(sessions[|sessions| - 1].baseline,
          sessions[|sessions| - 1].rounds)
  }

  lemma {:induction false} SessionScan(stale: Option<real>, rows: seq<Row>, s: Session)
    requires NonNegative(s.rounds) && (Hidden(s) ==> Fair(s))
    ensures var r := ScanBlocks(Scan(stale, rows), SessionBlocks(s));
      if Hidden(s) && stale.None? then r.TypeError?
      else r == Scan(if s.baseline >= 0.0 || s.rounds != [] then Some(CurrentAfter(s.baseline, s.rounds)) else stale,
                     rows + SessionScriptRows(stale, s))
  {
    BaselineScan(Scan(stale, rows), s);
    if s.baseline >= 0.0 {
      RoundsScan(s.baseline, rows, s.rounds);
    } else if s.rounds == [] {
      assert rows + [] == rows;
    } else if stale.None? {
      UnanchoredScan(rows, s.rounds);
    } else {
      HiddenScan(stale.value, rows, s.baseline, s.rounds);
    }
  }

  /** Without negative rounds, the script raises exactly when a hidden baseline comes first. */
  lemma {:induction false} ScanSessions(sessions: seq<Session>)
    requires AllNonNegative(sessions) && AllFair(sessions)
    ensures var r := ScanBlocks(START, LogOf(sessions));
      if Anchored(sessions) then r == Scan(LastLogged(sessions), ScriptRows(sessions)) else r.TypeError?
  {
    if sessions != [] {
      var before, last := sessions[..|sessions| - 1], sessions[|sessions| - 1];
      assert last in sessions;
      ScanSessions(before);
      ScanConcat(START, LogOf(before), SessionBlocks(last));
      if Anchored(before) {
        SessionScan(LastLogged(before), ScriptRows(before), last);
      }
    }
  }

  // ---------------------------------------------------------------------------
  // Equal averages mean equal bad-step signals

  ghost predicate SameSignals(c: Config, a: seq<Row>, b: seq<Row>) {
    |a| == |b| && forall i :: 0 <= i < |a| ==> BadSignal(c, a[i].delta) == BadSignal(c, b[i].delta)
  }

  lemma {:induction false} RowPointCount(c: Config, rows: seq<Row>)
    ensures |RowPoints(c, rows)| == |rows|
  {
    if rows != [] {
      RowPointCount(c, rows[..|rows| - 1]);
    }
  }

  /** One step tells the signals apart, because the weight of the signal is not zero. */
  lemma SignalShows(c: Config, rate: real, d: real, e: real)
    requires ConfigOk(c)
    ensures NextRate(c, rate, d) == NextRate(c, rate, e) <==> BadSignal(c, d) == BadSignal(c, e)
  {
    NextRateIs(c, rate, d);
    NextRateIs(c, rate, e);
  }

  lemma SplitSignals(c: Config, a: seq<Row>, b: seq<Row>)
    requires |a| == |b| > 0
    ensures var n := |a| - 1;
      SameSignals(c, a, b) <==> SameSignals(c, a[..n], b[..n]) && BadSignal(c, a[n].delta) == BadSignal(c, b[n].delta)
  {
    var n := |a| - 1;
    assert forall i :: 0 <= i < n ==> a[..n][i] == a[i] && b[..n][i] == b[i];
  }

  lemma {:induction false} PointsShowSignals(c: Config, a: seq<Row>, b: seq<Row>)
    requires ConfigOk(c) && |a| == |b|
    ensures RowPoints(c, a) == RowPoints(c, b) <==> SameSignals(c, a, b)
    ensures SameSignals(c, a, b) ==> RowRate(c, a) == RowRate(c, b)
  {
    if a != [] {
      var n := |a| - 1;
      PointsShowSignals(c, a[..n], b[..n]);
      SplitSignals(c, a, b);
      SignalShows(c, RowRate(c, a[..n]), a[n].delta, b[n].delta);
      LastPoints(c, a, b);
    }
  }

  lemma LastPoints(c: Config, a: seq<Row>, b: seq<Row>)
    requires |a| == |b| > 0
    ensures RowPoints(c, a) == RowPoints(c, b)
       <==> RowPoints(c, a[..|a| - 1]) == RowPoints(c, b[..|b| - 1]) && RowRate(c, a) == RowRate(c, b)
  {
    var n := |a| - 1;
    RowPointCount(c, a[..n]);
    RowPointCount(c, b[..n]);
    var x, y := Point(RowRate(c, a), Cap(c, RowRate(c, a))), Point(RowRate(c, b), Cap(c, RowRate(c, b)));
    assert RowPoints(c, a) == RowPoints(c, a[..n]) + [x] && RowPoints(c, b) == RowPoints(c, b[..n]) + [y];
    if RowPoints(c, a) == RowPoints(c, b) {
      assert (RowPoints(c, a[..n]) + [x])[..n] == RowPoints(c, a[..n])
          && (RowPoints(c, b[..n]) + [y])[..n] == RowPoints(c, b[..n]);
      assert (RowPoints(c, a[..n]) + [x])[n] == x && (RowPoints(c, b[..n]) + [y])[n] == y;
    }
  }

  ghost function Pow(a: real, n: nat): real {
    if n == 0 then 1.0 else a * Pow(a, n - 1)
  }

  /** Each bad step weighs alpha, shrunk by (1 - alpha) for every step since. */
  ghost function BadWeight(c: Config, deltas: seq<real>): real {
    if deltas == [] then 0.0 else
      (if deltas[0] < -c.eps then c.alpha * Pow(Rest(c.alpha), |deltas| - 1) else 0.0) + BadWeight(c, deltas[1..])
  }

  lemma {:induction false} BadWeightLast(c: Config, deltas: seq<real>, last: real)
    ensures BadWeight(c, deltas + [last])
         == Rest(c.alpha) * BadWeight(c, deltas) + if last < -c.eps then c.alpha else 0.0
  {
    var all, keep := deltas + [last], Rest(c.alpha);
    if deltas == [] {
      assert all == [last] && [last][1..] == [];
      Trivial(c.alpha, keep);
    } else {
      FirstDelta(deltas, last);
      BadWeightLast(c, deltas[1..], last);
      var power := Pow(keep, |deltas| - 1);
      assert Pow(keep, |deltas|) == keep * power;
      Ages(deltas[0] < -c.eps, c.alpha, keep, power, BadWeight(c, deltas[1..]));
    }
  }

  lemma FirstDelta(deltas: seq<real>, last: real)
    requires deltas != []
    ensures (deltas + [last])[0] == deltas[0] && (deltas + [last])[1..] == deltas[1..] + [last]
  {
  }

  lemma Trivial(alpha: real, keep: real)
    ensures alpha * 1.0 == alpha && keep * 0.0 == 0.0
  {
  }

  /** One more step shrinks every weight. */
  lemma Ages(bad: bool, alpha: real, keep: real, power: real, rest: real)
    ensures (if bad then alpha * (keep * power) else 0.0) + keep * rest
         == keep * ((if bad then alpha * power else 0.0) + rest)
  {
    if bad {
      Expands(alpha, keep, power, rest);
    }
  }

  lemma Expands(alpha: real, keep: real, power: real, rest: real)
    ensures alpha * (keep * power) + keep * rest == keep * (alpha * power + rest)
  {
  }

  ghost function Deltas(rows: seq<Row>): seq<real> {
    seq(|rows|, i requires 0 <= i < |rows| => rows[i].delta)
  }

  /** The average is the weight of all bad steps so far. */
  lemma {:induction false} RateIsBadWeight(c: Config, rows: seq<Row>)
    ensures RowRate(c, rows) == BadWeight(c, Deltas(rows))
  {
    if rows != [] {
      var before := rows[..|rows| - 1];
      RateIsBadWeight(c, before);
      RateNext(c, rows, BadWeight(c, Deltas(before)));
      WeightNext(c, rows);
    }
  }

  lemma RateNext(c: Config, rows: seq<Row>, weight: real)
    requires rows != [] && RowRate(c, rows[..|rows| - 1]) == weight
    ensures RowRate(c, rows) == Rest(c.alpha) * weight + if rows[|rows| - 1].delta < -c.eps then c.alpha else 0.0
  {
    NextWeight(c, weight, rows[|rows| - 1].delta);
  }

  lemma WeightNext(c: Config, rows: seq<Row>)
    requires rows != []
    ensures BadWeight(c, Deltas(rows)) == Rest(c.alpha) * BadWeight(c, Deltas(rows[..|rows| - 1]))
      + if rows[|rows| - 1].delta < -c.eps then c.alpha else 0.0
  {
    assert Deltas(rows) == Deltas(rows[..|rows| - 1]) + [rows[|rows| - 1].delta];
    BadWeightLast(c, Deltas(rows[..|rows| - 1]), rows[|rows| - 1].delta);
  }

  lemma NextWeight(c: Config, weight: real, delta: real)
    ensures NextRate(c, weight, delta) == Rest(c.alpha) * weight + if delta < -c.eps then c.alpha else 0.0
  {
    NextRateIs(c, weight, delta);
  }

  /** Replaying the rows of one more session continues the tuner's average. */
  lemma {:induction false} RowsContinue(c: Config, rows: seq<Row>, current: real, rounds: seq<Round>)
    ensures RowRate(c, rows + SessionRows(current, rounds)) == RateAfter(c, RowRate(c, rows), current, rounds)
    ensures RowPoints(c, rows + SessionRows(current, rounds)) ==
      RowPoints(c, rows) + SessionPoints(c, RowRate(c, rows), current, rounds)
  {
    var all := rows + SessionRows(current, rounds);
    if rounds == [] {
      assert all == rows;
    } else {
      var before := rounds[..|rounds| - 1];
      RowsContinue(c, rows, current, before);
      assert all[..|all| - 1] == rows + SessionRows(current, before);
    }
  }

  lemma {:induction false} TunerRowsAre(c: Config, sessions: seq<Session>)
    ensures RowRate(c, TunerRows(sessions)) == RateAfterSessions(c, sessions)
    ensures RowPoints(c, TunerRows(sessions)) == TunerPoints(c, sessions)
  {
    if sessions != [] {
      var before, last := sessions[..|sessions| - 1], sessions[|sessions| - 1];
      TunerRowsAre(c, before);
      RowsContinue(c, TunerRows(before), last.baseline, last.rounds);
    }
  }

  // ---------------------------------------------------------------------------
  // Exactly when the replay is right

  /** The first round after a hidden baseline is no bad step from the value the script still holds either. */
  ghost predicate Recoverable(c: Config, sessions: seq<Session>) {
    sessions == [] ||
    var before, last := sessions[..|sessions| - 1], sessions[|sessions| - 1];
    && Recoverable(c, before)
    && (Hidden(last) ==> LastLogged(before).Some? && last.rounds[0].total >= LastLogged(before).value - c.eps)
  }

  lemma {:induction false} RecoverableAnchored(c: Config, sessions: seq<Session>)
    requires Recoverable(c, sessions)
    ensures Anchored(sessions)
  {
    if sessions != [] {
      RecoverableAnchored(c, sessions[..|sessions| - 1]);
    }
  }

  lemma SignalsConcat(c: Config, a: seq<Row>, b: seq<Row>, a': seq<Row>, b': seq<Row>)
    requires |a| == |b| && |a'| == |b'|
    ensures SameSignals(c, a + a', b + b') <==> SameSignals(c, a, b) && SameSignals(c, a', b')
  {
    if SameSignals(c, a + a', b + b') {
      forall i | 0 <= i < |a| ensures BadSignal(c, a[i].delta) == BadSignal(c, b[i].delta) {
        assert (a + a')[i] == a[i] && (b + b')[i] == b[i];
      }
      forall i | 0 <= i < |a'| ensures BadSignal(c, a'[i].delta) == BadSignal(c, b'[i].delta) {
        assert (a + a')[|a| + i] == a'[i] && (b + b')[|a| + i] == b'[i];
      }
    }
  }

  lemma {:induction false} FirstRow(current: real, rounds: seq<Round>)
    requires rounds != []
    ensures |SessionRows(current, rounds)| == |rounds| && SessionRows(current, rounds)[0].delta
      == rounds[0].total - current
  {
    RowCount(current, rounds);
    if |rounds| > 1 {
      FirstRow(current, rounds[..|rounds| - 1]);
    } else {
      assert rounds[..0] == [];
    }
  }

  lemma SessionSignals(c: Config, stale: Option<real>, s: Session)
    requires ConfigOk(c) && NonNegative(s.rounds) && (Hidden(s) ==> stale.Some?)
    ensures |SessionScriptRows(stale, s)| == |SessionRows(s.baseline, s.rounds)|
    ensures SameSignals(c, SessionScriptRows(stale, s), SessionRows(s.baseline, s.rounds))
       <==> (Hidden(s) ==> s.rounds[0].total >= stale.value - c.eps)
  {
    if Hidden(s) {
      assert s.rounds[0] in s.rounds;
      FirstRow(s.baseline, s.rounds);
      var a, b := SessionScriptRows(stale, s), SessionRows(s.baseline, s.rounds);
      assert BadSignal(c, b[0].delta) == 0.0 && forall i :: 1 <= i < |b| ==> a[i] == b[i];
    }
  }

  lemma {:induction false} SessionsSignals(c: Config, sessions: seq<Session>)
    requires ConfigOk(c) && AllNonNegative(sessions) && Anchored(sessions)
    ensures |ScriptRows(sessions)| == |TunerRows(sessions)|
    ensures SameSignals(c, ScriptRows(sessions), TunerRows(sessions)) <==> Recoverable(c, sessions)
  {
    if sessions != [] {
      var before, last := sessions[..|sessions| - 1], sessions[|sessions| - 1];
      assert last in sessions;
      SessionsSignals(c, before);
      SessionSignals(c, LastLogged(before), last);
      SignalsConcat(c, ScriptRows(before), TunerRows(before), SessionScriptRows(LastLogged(before), last),
                    SessionRows(last.baseline, last.rounds));
    }
  }

  // A round with a negative utility is missing from the replay.

  function CountNonNegative(rounds: seq<Round>): (n: nat)
    ensures n <= |rounds|
  {
    if rounds == [] then 0 else
      CountNonNegative(rounds[..|rounds| - 1]) + if rounds[|rounds| - 1].total >= 0.0 then 1 else 0
  }

  lemma {:induction false} CountIsAll(rounds: seq<Round>)
    ensures CountNonNegative(rounds) == |rounds| <==> NonNegative(rounds)
  {
    if rounds != [] {
      var before := rounds[..|rounds| - 1];
      CountIsAll(before);
      assert rounds == before + [rounds[|rounds| - 1]];
    }
  }

  lemma {:induction false} RoundsScanCount(s: Scan, rounds: seq<Round>)
    requires s.Scan?
    ensures var r := ScanBlocks(s, RoundBlocks(rounds));
      r.Scan? ==> |r.rows| == |s.rows| + CountNonNegative(rounds)
  {
    if rounds != [] {
      RoundsScanCount(s, rounds[..|rounds| - 1]);
      ScanNext(s, RoundBlocks(rounds[..|rounds| - 1]), RoundBlock(|rounds|, rounds[|rounds| - 1]));
    }
  }

  lemma {:induction false} RowsMissing(sessions: seq<Session>)
    ensures var r := ScanBlocks(START, LogOf(sessions));
      r.Scan? ==> |r.rows| <= |TunerRows(sessions)| && (|r.rows| == |TunerRows(sessions)| ==> AllNonNegative(sessions))
  {
    if sessions != [] {
      var before, last := sessions[..|sessions| - 1], sessions[|sessions| - 1];
      assert sessions == before + [last];
      RowsMissing(before);
      var r := ScanBlocks(START, LogOf(before));
      ScanConcat(START, LogOf(before), SessionBlocks(last));
      if r.Scan? {
        BaselineScan(r, last);
        RoundsScanCount(if last.baseline >= 0.0 then r.(current := Some(last.baseline)) else r, last.rounds);
        CountIsAll(last.rounds);
        RowCount(last.baseline, last.rounds);
      }
    }
  }

  /** The script finishes and its averages and caps are the tuner's. */
  ghost predicate Exact(c: Config, sessions: seq<Session>, log: seq<Block>) {
    var r := ScanBlocks(START, log);
    r.Scan? && RowPoints(c, r.rows) == TunerPoints(c, sessions)
  }

  /**
   * For any number of sessions and any interleaved foreign blocks, the replay rebuilds exactly the tuner's averages and
   * caps if and only if no round has a negative utility and, after each negative baseline, the script still holds a
   * value from which the first round is no bad step. (The sign hides a negative utility from the script's search.)
   */
  lemma ReplayIsExact(c: Config, sessions: seq<Session>, log: seq<Block>)
    requires ConfigOk(c) && AllFair(sessions) && DropForeign(log) == LogOf(sessions)
    ensures Exact(c, sessions, log) <==> AllNonNegative(sessions) && Recoverable(c, sessions)
  {
    ForeignIgnored(START, log);
    TunerRowsAre(c, sessions);
    var r := ScanBlocks(START, log);
    if r.Scan? {
      RowsMissing(sessions);
      RowPointCount(c, r.rows);
      RowPointCount(c, TunerRows(sessions));
    }
    if AllNonNegative(sessions) {
      ScanSessions(sessions);
      if Anchored(sessions) {
        SessionsSignals(c, sessions);
        PointsShowSignals(c, ScriptRows(sessions), TunerRows(sessions));
      } else if Recoverable(c, sessions) {
        RecoverableAnchored(c, sessions);
      }
    }
  }

  /** A round with a negative utility is lost. */
  lemma NegativeRoundIsLost(c: Config)
    requires ConfigOk(c)
    ensures var sessions := [Session(1.0, [Round(-0.5, false)])];
      AllFair(sessions) && !Exact(c, sessions, LogOf(sessions))
  {
    var s := Session(1.0, [Round(-0.5, false)]);
    assert s.rounds[0].total < 0.0;
    LosesRound(c, s);
  }

  lemma LosesRound(c: Config, s: Session)
    requires ConfigOk(c) && s.baseline >= 0.0 && s.rounds != [] && s.rounds[0].total < 0.0
    ensures AllFair([s]) && !Exact(c, [s], LogOf([s]))
  {
    assert s.rounds[0] in s.rounds && s in [s];
    NothingForeign([s]);
    ReplayIsExact(c, [s], LogOf([s]));
  }

  /** A negative baseline at the start of the log makes the script raise. */
  lemma HiddenBaselineRaises()
    ensures var sessions := [Session(-1.0, [Round(0.5, true)])];
      AllNonNegative(sessions) && ScanBlocks(START, LogOf(sessions)).TypeError?
  {
    var s := Session(-1.0, [Round(0.5, true)]);
    assert [s][..0] == [] && LastLogged([]) == None;
    assert !Anchored([s]);
    ScanSessions([s]);
  }

  /** Later in the log it makes a good step look bad. */
  lemma HiddenBaselineMisleads(c: Config)
    requires ConfigOk(c)
    ensures var sessions := [Session(c.eps + 1.0, []), Session(-1.0, [Round(0.5, true)])];
      AllFair(sessions) && AllNonNegative(sessions) && !Exact(c, sessions, LogOf(sessions))
  {
    var first, second := Session(c.eps + 1.0, []), Session(-1.0, [Round(0.5, true)]);
    var sessions := [first, second];
    assert sessions[..1] == [first];
    assert LastLogged([first]) == Some(c.eps + 1.0);
    NothingForeign(sessions);
    ReplayIsExact(c, sessions, LogOf(sessions));
  }

  lemma {:induction false} NoForeignRounds(log: seq<Block>, rounds: seq<Round>)
    ensures DropForeign(log + RoundBlocks(rounds)) == DropForeign(log) + RoundBlocks(rounds)
  {
    if rounds == [] {
      assert log + [] == log;
    } else {
      var before, b := RoundBlocks(rounds[..|rounds| - 1]), RoundBlock(|rounds|, rounds[|rounds| - 1]);
      NoForeignRounds(log, rounds[..|rounds| - 1]);
      DropNext(log + before, b);
      Regroup(log, before, b);
      Regroup(DropForeign(log), before, b);
    }
  }

  lemma NoForeignSession(log: seq<Block>, s: Session)
    ensures DropForeign(log + SessionBlocks(s)) == DropForeign(log) + SessionBlocks(s)
  {
    var b, rounds := BaselineBlock(s.baseline), RoundBlocks(s.rounds);
    DropNext(log, b);
    NoForeignRounds(log + [b], s.rounds);
    assert log + SessionBlocks(s) == log + [b] + rounds;
    assert DropForeign(log) + SessionBlocks(s) == DropForeign(log) + [b] + rounds;
  }

  lemma {:induction false} NothingForeign(sessions: seq<Session>)
    ensures DropForeign(LogOf(sessions)) == LogOf(sessions)
  {
    if sessions != [] {
      NothingForeign(sessions[..|sessions| - 1]);
      NoForeignSession(LogOf(sessions[..|sessions| - 1]), sessions[|sessions| - 1]);
    }
  }

  // ---------------------------------------------------------------------------
  // Measured utilities

  datatype Weights = Weights(throughput: real, rtt: real, pfc: real)

  const BASE_THROUGHPUT: real := 100.0
  const BASE_RTT: real := 40.0

  const AGGRESSIVE: Weights := Weights(0.6, 0.2, 0.2)
  const CONSERVATIVE: Weights := Weights(0.3, 0.5, 0.2)

  function RttNorm(rtt: real): real {
    if rtt > 0.0 then BASE_RTT / rtt else 0.0
  }

  function PfcNorm(pfc: real): real {
    if 1.0 - pfc > 0.0 then 1.0 - pfc else 0.0
  }

  function TotalUtility(w: Weights, throughput: real, rtt: real, pfc: real): real {
    w.throughput * (throughput / BASE_THROUGHPUT) + w.rtt * RttNorm(rtt) + w.pfc * PfcNorm(pfc)
  }

  /** What the two norms are, without dividing, and what the utility is of them. */
  lemma UtilityIs(w: Weights, throughput: real, rtt: real, pfc: real) returns (t: real, r: real, p: real)
    ensures 100.0 * t == throughput
    ensures if rtt > 0.0 then r * rtt == 40.0 else r == 0.0
    ensures if pfc <= 1.0 then p + pfc == 1.0 else p == 0.0
    ensures TotalUtility(w, throughput, rtt, pfc) == w.throughput * t + w.rtt * r + w.pfc * p
  {
    t, r, p := throughput / 100.0, RttNorm(rtt), PfcNorm(pfc);
  }

  /** More throughput, a shorter RTT and fewer pauses never lower the utility. */
  lemma UtilityOrdered(w: Weights, t: real, t': real, rtt: real, rtt': real, pfc: real, pfc': real)
    requires NonNegativeWeights(w) && t <= t' && 0.0 < rtt' <= rtt && pfc' <= pfc
    ensures TotalUtility(w, t, rtt, pfc) <= TotalUtility(w, t', rtt', pfc')
  {
    var a, b, c := UtilityIs(w, t, rtt, pfc);
    var a', b', c' := UtilityIs(w, t', rtt', pfc');
    ShorterIsBetter(rtt, b, rtt', b');
    SumOrdered(w, a, a', b, b', c, c');
  }

  lemma SumOrdered(w: Weights, a: real, a': real, b: real, b': real, c: real, c': real)
    requires NonNegativeWeights(w) && a <= a' && b <= b' && c <= c'
    ensures w.throughput * a + w.rtt * b + w.pfc * c <= w.throughput * a' + w.rtt * b' + w.pfc * c'
  {
    Scaled(w.throughput, a, a');
    Scaled(w.rtt, b, b');
    Scaled(w.pfc, c, c');
  }

  lemma ShorterIsBetter(rtt: real, r: real, rtt': real, r': real)
    requires 0.0 < rtt' <= rtt && r * rtt == 40.0 == r' * rtt'
    ensures r <= r'
  {
    if r > r' {
      Scaled(rtt', r', r);
      Scaled(r, rtt', rtt);
      assert false;
    }
  }

  lemma Scaled(k: real, x: real, y: real)
    requires k >= 0.0 && x <= y
    ensures k * x <= k * y
  {
  }

  /** A measurement at the base values without pauses has utility 1 with the default weights of either mode. */
  lemma BaseUtility()
    ensures TotalUtility(AGGRESSIVE, 100.0, 40.0, 0.0) == 1.0
    ensures TotalUtility(CONSERVATIVE, 100.0, 40.0, 0.0) == 1.0
  {
    assert RttNorm(40.0) == 1.0;
  }

  ghost predicate NonNegativeWeights(w: Weights) {
    w.throughput >= 0.0 && w.rtt >= 0.0 && w.pfc >= 0.0
  }

  /** `x` is the utility of some measurement; a mean throughput is never negative. */
  ghost predicate Measured(w: Weights, x: real) {
    exists throughput, rtt, pfc :: throughput >= 0.0 && x == TotalUtility(w, throughput, rtt, pfc)
  }

  lemma MeasuredIsNonNegative(w: Weights, x: real)
    requires NonNegativeWeights(w) && Measured(w, x)
    ensures x >= 0.0
  {
    var throughput, rtt, pfc :| throughput >= 0.0 && x == TotalUtility(w, throughput, rtt, pfc);
    ProductNonNegative(w.throughput, throughput / BASE_THROUGHPUT);
    ProductNonNegative(w.rtt, RttNorm(rtt));
    ProductNonNegative(w.pfc, PfcNorm(pfc));
  }

  /** The session was measured with non-negative weights, such as the two default ones. */
  ghost predicate MeasuredSession(w: Weights, s: Session) {
    NonNegativeWeights(w) && Measured(w, s.baseline) && forall r <- s.rounds :: Measured(w, r.total)
  }

  /** So with non-negative weights the replay is always exact, whatever is measured and accepted. */
  lemma MeasuredReplay(c: Config, weights: seq<Weights>, sessions: seq<Session>, log: seq<Block>)
    requires |weights| == |sessions| && forall i :: 0 <= i < |sessions| ==> MeasuredSession(weights[i], sessions[i])
    requires DropForeign(log) == LogOf(sessions)
    ensures Exact(c, sessions, log)
  {
    forall s | s in sessions ensures s.baseline >= 0.0 && NonNegative(s.rounds) {
      var i :| 0 <= i < |sessions| && sessions[i] == s;
      MeasuredSessionIs(weights[i], s);
    }
    NothingHidden(sessions);
    ForeignIgnored(START, log);
    ScanSessions(sessions);
    TunerRowsAre(c, sessions);
  }

  lemma MeasuredSessionIs(w: Weights, s: Session)
    requires MeasuredSession(w, s)
    ensures s.baseline >= 0.0 && NonNegative(s.rounds)
  {
    MeasuredIsNonNegative(w, s.baseline);
    forall r | r in s.rounds ensures r.total >= 0.0 {
      MeasuredIsNonNegative(w, r.total);
    }
  }

  lemma {:induction false} NothingHidden(sessions: seq<Session>)
    requires forall s <- sessions :: s.baseline >= 0.0
    ensures Anchored(sessions) && ScriptRows(sessions) == TunerRows(sessions)
  {
    if sessions != [] {
      assert sessions[|sessions| - 1] in sessions;
      NothingHidden(sessions[..|sessions| - 1]);
    }
  }

  lemma DefaultWeights()
    ensures NonNegativeWeights(AGGRESSIVE) && NonNegativeWeights(CONSERVATIVE)
  {
  }
}
