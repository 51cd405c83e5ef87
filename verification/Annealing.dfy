/** One tuning session: simulated annealing with geometric cooling, writing every candidate to the parameter file. */
module Annealing {
  import opened Collections
  import opened Parameters
  import Ewma

  datatype Config = Config(initial: real, final: real, cooling: real, attempts: nat, scale: real, ewma: Ewma.Config)

  ghost predicate ConfigOk(c: Config) {
    0.0 < c.final <= c.initial && 0.0 < c.cooling < 1.0 && c.attempts > 0 && c.scale > 0.0
  }

  /**
   * What a session cannot choose: its mode, the utility measured in each round (round 0 is the baseline), whether a
   * worse candidate of a round is accepted by chance, and the random draws of the next candidate.
   */
  datatype World = World(aggressive: bool, utility: nat -> real, luck: nat -> bool, draws: nat -> seq<Draw>)

  ghost predicate WorldOk(w: World) {
    forall k :: DrawsOk(w.draws(k))
  }

  // ---------------------------------------------------------------------------
  // Cooling ends

  lemma Monotone(a: real, b: real, k: real)
    requires a <= b && k >= 0.0
    ensures a * k <= b * k && k * a <= k * b
  {
  }

  lemma Scales(a: real, b: real, k: real)
    requires a < b && k > 0.0
    ensures a * k < b * k && k * a < k * b
  {
  }

  function Cooled(t: real, c: real): (t': real)
    requires t > 0.0 && 0.0 < c < 1.0
    ensures 0.0 < t' < t
  {
    CoolsDown(t, c);
    assert t * c > 0.0 && t * c < t;
    t * c
  }

  lemma CoolsDown(t: real, c: real)
    requires t > 0.0 && 0.0 < c < 1.0
    ensures 0.0 < t * c < t
  {
    Scales(c, 1.0, t);
    assert t * 1.0 == t;
    Scales(0.0, c, t);
    assert t * 0.0 == 0.0;
  }

  /** The temperature after `n` cooling steps. */
  ghost function Temperature(t: real, c: real, n: nat): (r: real)
    requires t > 0.0 && 0.0 < c < 1.0
    ensures r > 0.0
  {
    if n == 0 then t else Cooled(Temperature(t, c, n - 1), c)
  }

  lemma {:induction false} CoolingFalls(t: real, c: real, m: nat, n: nat)
    requires t > 0.0 && 0.0 < c < 1.0 && m <= n
    ensures Temperature(t, c, n) <= Temperature(t, c, m)
  {
    if m < n {
      CoolingFalls(t, c, m, n - 1);
    }
  }

  /** A geometric sequence falls at least like t / (1 + n (1 - c)). */
  lemma {:induction false} CoolingBound(t: real, c: real, n: nat)
    requires t > 0.0 && 0.0 < c < 1.0
    ensures Temperature(t, c, n) * (1.0 + n as real * (1.0 - c)) <= t
  {
    if n > 0 {
      var p, m := Temperature(t, c, n - 1), (n - 1) as real;
      CoolingBound(t, c, n - 1);
      Shrinks(c, m);
      Monotone(c * (1.0 + (m + 1.0) * (1.0 - c)), 1.0 + m * (1.0 - c), p);
      Associates(p, c, 1.0 + n as real * (1.0 - c));
    }
  }

  lemma Associates(a: real, b: real, c: real)
    ensures (a * b) * c == a * (b * c)
  {
  }

  lemma Shrinks(c: real, m: real)
    requires 0.0 < c < 1.0 && m >= 0.0
    ensures c * (1.0 + (m + 1.0) * (1.0 - c)) <= 1.0 + m * (1.0 - c)
  {
    var d := 1.0 - c;
    assert d * d >= 0.0 && m * (d * d) >= 0.0;
    calc {
      c * (1.0 + (m + 1.0) * d);
      (1.0 - d) * (1.0 + m * d + d);
      1.0 + m * d - m * (d * d) - d * d;
    }
  }

  /** Enough cooling steps bring any temperature down to any positive final one. */
  lemma CoolingEnds(t: real, c: real, final: real) returns (n: nat)
    requires t > 0.0 && 0.0 < c < 1.0 && final > 0.0
    ensures Temperature(t, c, n) <= final
  {
    var d := 1.0 - c;
    var unit := final * d;
    Scales(0.0, d, final);
    n := StepsFor(t, unit);
    var s := 1.0 + n as real * d;
    Monotone(0.0, d, n as real);
    CoolingBound(t, c, n);
    assert t <= s * final by {
      Associates(n as real, d, final);
      Associates(n as real, final, d);
      assert s * final == final + (n as real * d) * final;
    }
    if Temperature(t, c, n) > final {
      Scales(final, Temperature(t, c, n), s);
      assert false;
    }
  }

  lemma StepsFor(t: real, unit: real) returns (n: nat)
    requires t > 0.0 && unit > 0.0
    ensures t <= n as real * unit
  {
    var q := t / unit;
    n := q.Floor + 1;
    Monotone(q, n as real, unit);
    assert q * unit == t;
  }

  ghost function Power(c: real, n: nat): real {
    if n == 0 then 1.0 else c * Power(c, n - 1)
  }

  /** The temperatures are the initial one times the powers of the cooling rate. */
  lemma {:induction false} TemperatureIs(t: real, c: real, n: nat)
    requires t > 0.0 && 0.0 < c < 1.0
    ensures Temperature(t, c, n) == t * Power(c, n)
  {
    if n == 0 {
      assert t * 1.0 == t;
    } else {
      TemperatureIs(t, c, n - 1);
      Regrouped(t, Power(c, n - 1), c, Temperature(t, c, n - 1));
    }
  }

  lemma Regrouped(t: real, p: real, c: real, before: real)
    requires before == t * p
    ensures before * c == t * (c * p)
  {
  }

  // ---------------------------------------------------------------------------
  // What a session has done so far

  /** A solution that was in the parameter file while its utility was measured. */
  datatype Trial = Trial(solution: Vector, value: real, accepted: bool)

  /** The session's variables; `writes` lists every vector written to the parameter file, in order. */
  datatype Session = Session(trials: seq<Trial>, writes: seq<Vector>, current: Vector, currentValue: real,
                             best: Vector, bestValue: real, candidate: Vector, rate: real)

  /** The last accepted trial; the baseline counts as accepted. */
  ghost function LastAccepted(trials: seq<Trial>): (t: Trial)
    requires |trials| > 0
  {
    if |trials| == 1 || trials[|trials| - 1].accepted then trials[|trials| - 1]
        else LastAccepted(trials[..|trials| - 1])
  }

  /** Trial `j` is the first one with the largest value. */
  ghost predicate FirstBest(trials: seq<Trial>, j: nat) {
    && j < |trials|
    && (forall k :: 0 <= k < |trials| ==> trials[k].value <= trials[j].value)
    && (forall k :: 0 <= k < j ==> trials[k].value < trials[j].value)
  }

  ghost predicate BestOf(trials: seq<Trial>, solution: Vector, value: real) {
    exists j: nat :: FirstBest(trials, j) && trials[j].solution == solution && trials[j].value == value
  }

  /** Round `k` was decided by the annealing rule. */
  ghost predicate Decided(w: World, trials: seq<Trial>, k: nat)
    requires 0 < k < |trials|
  {
    trials[k].accepted <==> trials[k].value >= LastAccepted(trials[..k]).value || w.luck(k)
  }

  ghost predicate Traced(w: World, start: Vector, trials: seq<Trial>, writes: seq<Vector>) {
    && |trials| > 0 && |writes| >= |trials|
    && trials[0] == Trial(start, w.utility(0), true)
    && (forall k :: 0 < k < |trials| ==> trials[k].solution == writes[k - 1] && trials[k].value == w.utility(k))
    && (forall k :: 0 < k < |trials| ==> Decided(w, trials, k))
  }

  ghost predicate WellFormed(specs: Table, v: Vector) {
    InBounds(specs, v) && Ordered(v)
  }

  ghost predicate AllWellFormed(specs: Table, writes: seq<Vector>) {
    forall k {:trigger WellFormed(specs, writes[k])} :: 0 <= k < |writes| ==> WellFormed(specs, writes[k])
  }

  /** `v` is the well-formed candidate drawn in round `k` from `x`, and within one round's reach of it. */
  ghost predicate Near(specs: Table, scale: real, w: World, k: nat, x: Vector, v: Vector)
    requires TableOk(specs) && scale > 0.0
  {
    && |x| == N && WellFormed(specs, v) && DrawsOk(w.draws(k))
    && v == Normalize(CandidateVector(specs, w.aggressive, scale, x, w.draws(k)))
    && forall i :: 0 <= i < N ==> Distance(x[i], v[i]) <= RoundReach(specs, i, scale)
  }

  /** Each candidate after the first was generated from the last accepted solution. */
  ghost predicate AllNear(specs: Table, scale: real, w: World, trials: seq<Trial>, writes: seq<Vector>)
    requires TableOk(specs) && scale > 0.0
  {
    forall k: nat {:trigger Near(specs, scale, w, k, LastAccepted(trials[..k + 1]).solution, writes[k])} ::
      0 < k < |trials| && k < |writes| ==> Near(specs, scale, w, k, LastAccepted(trials[..k + 1]).solution, writes[k])
  }

  method NextCandidate(specs: Table, scale: real, w: World, k: nat, current: Vector) returns (v: Vector)
    requires TableOk(specs) && scale > 0.0 && WellFormed(specs, current) && WorldOk(w)
    ensures Near(specs, scale, w, k, current, v)
  {
    v := GenerateNewParameters(specs, w.aggressive, scale, current, w.draws(k));
  }

  function RoundsOf(trials: seq<Trial>): seq<Ewma.Round> {
    if |trials| <= 1 then [] else
      RoundsOf(trials[..|trials| - 1]) + [Ewma.Round(trials[|trials| - 1].value, trials[|trials| - 1].accepted)]
  }

  ghost predicate TraceInv(w: World, start: Vector, s: Session) {
    && Traced(w, start, s.trials, s.writes)
    && |s.writes| == |s.trials| && s.candidate == s.writes[|s.writes| - 1]
    && LastAccepted(s.trials).solution == s.current && LastAccepted(s.trials).value == s.currentValue
    && BestOf(s.trials, s.best, s.bestValue)
  }

  ghost predicate BoundsInv(specs: Table, scale: real, w: World, s: Session)
    requires TableOk(specs) && scale > 0.0
  {
    AllNear(specs, scale, w, s.trials, s.writes) && AllWellFormed(specs, s.writes) && WellFormed(specs, s.candidate)
        && WellFormed(specs, s.current) && WellFormed(specs, s.best)
  }

  ghost predicate RateInv(c: Config, w: World, rate0: real, s: Session) {
    && s.rate == Ewma.RateAfter(c.ewma, rate0, w.utility(0), RoundsOf(s.trials))
    && s.currentValue == Ewma.CurrentAfter(w.utility(0), RoundsOf(s.trials))
  }

  ghost predicate Inv(specs: Table, c: Config, w: World, start: Vector, rate0: real, s: Session)
    requires TableOk(specs) && c.scale > 0.0
  {
    TraceInv(w, start, s) && BoundsInv(specs, c.scale, w, s) && RateInv(c, w, rate0, s)
  }

  // ---------------------------------------------------------------------------
  // One round

  lemma {:induction false} LastAcceptedBound(trials: seq<Trial>, j: nat)
    requires |trials| > 0 && FirstBest(trials, j)
    ensures LastAccepted(trials).value <= trials[j].value
  {
    var i := LastAcceptedIndex(trials);
  }

  lemma {:induction false} LastAcceptedIndex(trials: seq<Trial>) returns (i: nat)
    requires |trials| > 0
    ensures i < |trials| && LastAccepted(trials) == trials[i]
  {
    if |trials| == 1 || trials[|trials| - 1].accepted {
      i := |trials| - 1;
    } else {
      i := LastAcceptedIndex(trials[..|trials| - 1]);
    }
  }

  /** A rejected candidate cannot beat the best, an accepted one is compared with it. */
  lemma BestNext(trials: seq<Trial>, best: Vector, bestValue: real, t: Trial, current: real)
    requires |trials| > 0 && BestOf(trials, best, bestValue) && LastAccepted(trials).value == current
    requires t.value >= current ==> t.accepted
    ensures current <= bestValue
    ensures var newCurrent := if t.accepted then t.value else current;
      if newCurrent > bestValue then BestOf(trials + [t], t.solution, t.value)
          else BestOf(trials + [t], best, bestValue)
  {
    var j: nat :| FirstBest(trials, j) && trials[j].solution == best && trials[j].value == bestValue;
    LastAcceptedBound(trials, j);
    var more := trials + [t];
    if t.accepted && t.value > bestValue {
      assert FirstBest(more, |trials|);
    } else {
      assert FirstBest(more, j);
    }
  }

  lemma TracedNext(w: World, start: Vector, trials: seq<Trial>, writes: seq<Vector>, t: Trial, next: Vector)
    requires Traced(w, start, trials, writes) && |writes| == |trials|
    requires t.solution == writes[|writes| - 1] && t.value == w.utility(|trials|)
    requires t.accepted <==> t.value >= LastAccepted(trials).value || w.luck(|trials|)
    ensures Traced(w, start, trials + [t], writes + [next])
  {
    var more := trials + [t];
    forall k | 0 < k < |more| ensures Decided(w, more, k) {
      assert more[..k] == if k < |trials| then trials[..k] else trials;
      assert k < |trials| ==> Decided(w, trials, k);
    }
  }

  /** The body of the attempt loop. */
  method Attempt(specs: Table, c: Config, w: World, ghost start: Vector, ghost rate0: real,
                 s: Session)
    returns (s': Session)
    requires TableOk(specs) && ConfigOk(c) && WorldOk(w) && Inv(specs, c, w, start, rate0, s)
    ensures Inv(specs, c, w, start, rate0, s')
    ensures |s'.trials| == |s.trials| + 1 && s'.writes[0] == s.writes[0]
  {
    var round := |s.trials|;
    var newValue := w.utility(round);
    var accepted, current, currentValue, best, bestValue, rate := Decide(c, s, newValue, w.luck(round));
    var next := NextCandidate(specs, c.scale, w, round, current);
    var t := Trial(s.candidate, newValue, accepted);
    s' := Session(s.trials + [t], s.writes + [next], current, currentValue, best, bestValue, next, rate);
    AttemptKeeps(specs, c, w, start, rate0, s, s', t, next);
  }

  /** What one attempt makes of the session. */
  ghost predicate Attempted(c: Config, w: World, s: Session, s': Session, t: Trial, next: Vector) {
    && t.solution == s.candidate && t.value == w.utility(|s.trials|)
    && (t.accepted <==> t.value >= s.currentValue || w.luck(|s.trials|))
    && s'.trials == s.trials + [t] && s'.writes == s.writes + [next] && s'.candidate == next
    && s'.current == (if t.accepted then t.solution else s.current)
    && s'.currentValue == (if t.accepted then t.value else s.currentValue)
    && (if s'.currentValue > s.bestValue then s'.best == s'.current && s'.bestValue == s'.currentValue
        else s'.best == s.best && s'.bestValue == s.bestValue)
    && s'.rate == Ewma.NextRate(c.ewma, s.rate, t.value - s.currentValue)
  }

  lemma {:induction false} AttemptKeeps(specs: Table, c: Config, w: World, start: Vector, rate0: real, s: Session,
                                        s': Session, t: Trial, next: Vector)
    requires TableOk(specs) && c.scale > 0.0 && Inv(specs, c, w, start, rate0, s)
    requires Attempted(c, w, s, s', t, next) && Near(specs, c.scale, w, |s.trials|, s'.current, next)
    ensures Inv(specs, c, w, start, rate0, s') && s'.writes[0] == s.writes[0]
  {
    TraceNext(c, w, start, s, s', t, next);
    BoundsNext(specs, c.scale, w, s, s', t, next);
  }

  /**
   * The acceptance rule and the bookkeeping of the best; `lucky` is the outcome of the random test for a worse
   * candidate.
   */
  method Decide(c: Config, s: Session, newValue: real, lucky: bool)
    returns (accepted: bool, current: Vector, currentValue: real, best: Vector, bestValue: real, rate: real)
    ensures accepted <==> newValue >= s.currentValue || lucky
    ensures current == (if accepted then s.candidate else s.current)
      && currentValue == (if accepted then newValue else s.currentValue)
    ensures if currentValue > s.bestValue then best == current && bestValue == currentValue
            else best == s.best && bestValue == s.bestValue
    ensures rate == Ewma.NextRate(c.ewma, s.rate, newValue - s.currentValue)
  {
    var delta := newValue - s.currentValue;
    rate := Ewma.NextRate(c.ewma, s.rate, delta);
    accepted := false;
    current, currentValue := s.current, s.currentValue;
    // A zero difference always passes the random test, whose draw is below one.
    if delta > 0.0 || delta == 0.0 || lucky {
      current, currentValue, accepted := s.candidate, newValue, true;
    }
    best, bestValue := s.best, s.bestValue;
    if currentValue > bestValue {
      best, bestValue := current, currentValue;
    }
  }

  lemma {:induction false} TraceNext(c: Config, w: World, start: Vector, s: Session, s': Session, t: Trial,
                                     next: Vector)
    requires TraceInv(w, start, s) && Attempted(c, w, s, s', t, next)
    ensures TraceInv(w, start, s')
  {
    BestNext(s.trials, s.best, s.bestValue, t, s.currentValue);
    TracedNext(w, start, s.trials, s.writes, t, next);
    assert s'.trials[..|s.trials|] == s.trials;
  }

  lemma {:induction false} BoundsNext(specs: Table, scale: real, w: World, s: Session, s': Session, t: Trial,
                                      next: Vector)
    requires TableOk(specs) && scale > 0.0 && BoundsInv(specs, scale, w, s) && |s.trials| == |s.writes| > 0
    requires s'.trials == s.trials + [t] && s'.writes == s.writes + [next] && s'.candidate == next
    requires s'.current == s.current || s'.current == s.candidate
    requires LastAccepted(s'.trials).solution == s'.current && Near(specs, scale, w, |s.trials|, s'.current, next)
    requires s'.best == s.best || s'.best == s'.current
    ensures BoundsInv(specs, scale, w, s')
  {
    forall k | 0 <= k < |s'.writes| ensures WellFormed(specs, s'.writes[k]) {
      assert k < |s.writes| ==> WellFormed(specs, s.writes[k]);
    }
    forall k | 0 < k < |s'.trials| && k < |s'.writes|
      ensures Near(specs, scale, w, k, LastAccepted(s'.trials[..k + 1]).solution, s'.writes[k]) {
      if k < |s.trials| {
        assert s'.trials[..k + 1] == s.trials[..k + 1];
        assert Near(specs, scale, w, k, LastAccepted(s.trials[..k + 1]).solution, s.writes[k]);
      } else {
        assert s'.trials[..k + 1] == s'.trials;
      }
    }
  }

  // ---------------------------------------------------------------------------
  // The whole session

  /** The number of cooling steps until the loop stops. */
  ghost predicate Levels(c: Config, n: nat)
    requires ConfigOk(c)
  {
    && Temperature(c.initial, c.cooling, n) <= c.final
    && forall m: nat :: m < n ==> Temperature(c.initial, c.cooling, m) > c.final
  }

  /** No candidate better than everything before it is ever rejected. */
  lemma RecordsAreAccepted(w: World, start: Vector, trials: seq<Trial>, writes: seq<Vector>, k: nat)
    requires Traced(w, start, trials, writes) && 0 < k < |trials|
    requires forall j :: 0 <= j < k ==> trials[j].value < trials[k].value
    ensures trials[k].accepted
  {
    assert Decided(w, trials, k);
    var i := LastAcceptedIndex(trials[..k]);
  }

  /** One session: the vector it loaded, its trials, everything it wrote, and its best value. */
  datatype Tuned = Tuned(start: Vector, trials: seq<Trial>, writes: seq<Vector>, bestValue: real)

  /**
   * What holds of a session: the first write is the default vector, then one candidate per round, each near the last
   * accepted solution, and the last write is the first solution that reached the largest utility measured, the
   * baseline included. The number of rounds is that of the cooling steps times the attempts.
   */
  ghost predicate TunedOk(specs: Table, c: Config, w: World, t: Tuned)
    requires TableOk(specs) && ConfigOk(c)
  {
    && Traced(w, t.start, t.trials, t.writes) && |t.writes| == |t.trials| + 1 && t.writes[0] == Defaults(specs)
    && BestOf(t.trials, t.writes[|t.writes| - 1], t.bestValue)
    && AllWellFormed(specs, t.writes) && AllNear(specs, c.scale, w, t.trials, t.writes)
    && exists n: nat :: Levels(c, n) && |t.trials| == 1 + Rounds(n, c.attempts)
  }

  /** `aggressive_tuning` and `conservative_tuning`: `start` is the vector loaded from the file. The session ends. */
  method Tune(specs: Table, c: Config, w: World, start: Vector, rate0: real)
    returns (t: Tuned, rate: real)
    requires TableOk(specs) && ConfigOk(c) && WorldOk(w) && WellFormed(specs, start)
    ensures t.start == start && TunedOk(specs, c, w, t)
    ensures rate == Ewma.RateAfter(c.ewma, rate0, w.utility(0), RoundsOf(t.trials))
  {
    var s := Begin(specs, c, w, start, rate0);
    ghost var n;
    s, n := Anneal(specs, c, w, start, rate0, s);
    t, rate := Tuned(start, s.trials, s.writes + [s.best], s.bestValue), s.rate;
    LastWriteKeeps(specs, c, w, start, rate0, s);
  }

  /** Writing the best solution back. */
  lemma {:induction false} LastWriteKeeps(specs: Table, c: Config, w: World, start: Vector, rate0: real, s: Session)
    requires TableOk(specs) && ConfigOk(c) && Inv(specs, c, w, start, rate0, s)
    ensures var writes := s.writes + [s.best];
      Traced(w, start, s.trials, writes) && AllWellFormed(specs, writes) && AllNear(specs, c.scale, w, s.trials, writes)
  {
    var writes := s.writes + [s.best];
    forall k | 0 <= k < |writes| ensures WellFormed(specs, writes[k]) {
      assert k < |s.writes| ==> WellFormed(specs, s.writes[k]);
    }
    forall k | 0 < k < |s.trials| && k < |writes|
      ensures Near(specs, c.scale, w, k, LastAccepted(s.trials[..k + 1]).solution, writes[k])
    {
      assert Near(specs, c.scale, w, k, LastAccepted(s.trials[..k + 1]).solution, s.writes[k]);
    }
    forall k | 0 < k < |s.trials| ensures Decided(w, s.trials, k) && s.trials[k].solution == writes[k - 1] {
    }
  }

  /** The cooling loop. */
  method Anneal(specs: Table, c: Config, w: World, ghost start: Vector, ghost rate0: real,
                s0: Session)
    returns (s: Session, ghost n: nat)
    requires TableOk(specs) && ConfigOk(c) && WorldOk(w) && Inv(specs, c, w, start, rate0, s0)
    ensures Inv(specs, c, w, start, rate0, s) && s.writes[0] == s0.writes[0]
    ensures Levels(c, n) && |s.trials| == |s0.trials| + Rounds(n, c.attempts)
  {
    s := s0;
    var temperature := c.initial;
    ghost var steps := CoolingEnds(c.initial, c.cooling, c.final);
    n := 0;
    while temperature > c.final
      invariant Hot(c, temperature, n)
      invariant Inv(specs, c, w, start, rate0, s) && s.writes[0] == s0.writes[0]
      invariant |s.trials| == |s0.trials| + Rounds(n, c.attempts)
      decreases steps - n
    {
      StillCooling(c, steps, n);
      s := AttemptAll(specs, c, w, start, rate0, s);
      OneMore(n, c.attempts);
      HotNext(c, temperature, n);
      temperature := Cooled(temperature, c.cooling);
      n := n + 1;
    }
  }

  /** The temperature after `n` cooling steps, none of which started at or below the final one. */
  ghost predicate Hot(c: Config, temperature: real, n: nat)
    requires ConfigOk(c)
  {
    && temperature == Temperature(c.initial, c.cooling, n)
    && forall m: nat :: m < n ==> Temperature(c.initial, c.cooling, m) > c.final
  }

  lemma HotNext(c: Config, temperature: real, n: nat)
    requires ConfigOk(c) && Hot(c, temperature, n) && temperature > c.final
    ensures Hot(c, Cooled(temperature, c.cooling), n + 1)
  {
  }

  /** The attempts of `n` temperatures. */
  ghost function Rounds(n: nat, attempts: nat): nat {
    n * attempts
  }

  lemma OneMore(n: nat, attempts: nat)
    ensures Rounds(n + 1, attempts) == Rounds(n, attempts) + attempts
  {
  }

  lemma StillCooling(c: Config, steps: nat, n: nat)
    requires ConfigOk(c) && Temperature(c.initial, c.cooling, steps) <= c.final < Temperature(c.initial, c.cooling, n)
    ensures n < steps
  {
    if n >= steps {
      CoolingFalls(c.initial, c.cooling, steps, n);
    }
  }

  /** The baseline, and the default vector as the first candidate. */
  method Begin(specs: Table, c: Config, w: World, start: Vector, rate0: real) returns (s: Session)
    requires TableOk(specs) && ConfigOk(c) && WellFormed(specs, start)
    ensures Inv(specs, c, w, start, rate0, s) && |s.trials| == 1 && s.writes == [Defaults(specs)]
  {
    DefaultsOk(specs);
    var first := Defaults(specs);
    s := Session([Trial(start, w.utility(0), true)], [first], start, w.utility(0), start, w.utility(0), first, rate0);
    assert FirstBest(s.trials, 0);
    assert WellFormed(specs, first);
  }

  /** The attempts at one temperature. */
  method AttemptAll(specs: Table, c: Config, w: World, ghost start: Vector, ghost rate0: real,
                    s0: Session)
    returns (s: Session)
    requires TableOk(specs) && ConfigOk(c) && WorldOk(w) && Inv(specs, c, w, start, rate0, s0)
    ensures Inv(specs, c, w, start, rate0, s) && s.writes[0] == s0.writes[0]
    ensures |s.trials| == |s0.trials| + c.attempts
  {
    s := s0;
    for i := 0 to c.attempts
      invariant Inv(specs, c, w, start, rate0, s) && s.writes[0] == s0.writes[0]
      invariant |s.trials| == |s0.trials| + i
    {
      s := Attempt(specs, c, w, start, rate0, s);
    }
  }

  // ---------------------------------------------------------------------------
  // Session after session

  function LoggedSession(w: World, t: Tuned): Ewma.Session {
    Ewma.Session(w.utility(0), RoundsOf(t.trials))
  }

  ghost function LastWrite(t: Tuned): Vector
    requires t.writes != []
  {
    t.writes[|t.writes| - 1]
  }

  // Every number that is written can be printed and read back.

  /** The arithmetic of a world's draws stays within the printable numbers. */
  ghost predicate KeepsPrintable(specs: Table, c: Config, w: World, printable: iset<real>)
    requires TableOk(specs) && ConfigOk(c) && WorldOk(w)
  {
    forall k: nat {:trigger w.draws(k)} :: DrawsPrintable(specs, w.aggressive, c.scale, printable, w.draws(k))
  }

  lemma {:induction false} WritesPrintable(specs: Table, c: Config, w: World, printable: iset<real>, t: Tuned, k: nat)
    requires TableOk(specs) && ConfigOk(c) && WorldOk(w) && TunedOk(specs, c, w, t) && k < |t.trials|
    requires PrintableTable(specs, printable) && KeepsPrintable(specs, c, w, printable)
    requires PrintableVector(specs, printable, t.start)
    ensures PrintableVector(specs, printable, t.writes[k]) && PrintableVector(specs, printable, t.trials[k].solution)
    decreases k
  {
    if k == 0 {
      DefaultsPrintable(specs, printable);
    } else {
      WritesPrintable(specs, c, w, printable, t, k - 1);
      assert t.trials[k].solution == t.writes[k - 1];
      var before := t.trials[..k + 1];
      var j := LastAcceptedIndex(before);
      if j < k {
        WritesPrintable(specs, c, w, printable, t, j);
      }
      assert Near(specs, c.scale, w, k, LastAccepted(before).solution, t.writes[k]);
      NextPrintable(specs, c, w, printable, k, LastAccepted(before).solution, t.writes[k]);
    }
  }

  lemma NextPrintable(specs: Table, c: Config, w: World, printable: iset<real>, k: nat, x: Vector, v: Vector)
    requires TableOk(specs) && ConfigOk(c) && WorldOk(w) && KeepsPrintable(specs, c, w, printable)
    requires PrintableVector(specs, printable, x) && Near(specs, c.scale, w, k, x, v)
    ensures PrintableVector(specs, printable, v)
  {
    assert DrawsPrintable(specs, w.aggressive, c.scale, printable, w.draws(k));
    NormalizePrintable(specs, printable, CandidateVector(specs, w.aggressive, c.scale, x, w.draws(k)));
  }

  /** The last write is one of the trials, so it is printable too. */
  lemma LastPrintable(specs: Table, c: Config, w: World, printable: iset<real>, t: Tuned)
    requires TableOk(specs) && ConfigOk(c) && WorldOk(w) && TunedOk(specs, c, w, t)
    requires PrintableTable(specs, printable) && KeepsPrintable(specs, c, w, printable)
    requires PrintableVector(specs, printable, t.start)
    ensures PrintableVector(specs, printable, LastWrite(t))
  {
    var j: nat :| FirstBest(t.trials, j) && t.trials[j].solution == LastWrite(t) && t.trials[j].value == t.bestValue;
    WritesPrintable(specs, c, w, printable, t, j);
  }

  /** The parameter file holds a vector that is in bounds and ordered. */
  ghost predicate Holds(specs: Table, read: string -> Option<real>, lines: seq<string>, v: Vector) {
    Load(specs, read, lines) == Some(v) && WellFormed(specs, v)
  }

  /** From file to file: load, tune, and write the best solution back as text. */
  method TuneFile(specs: Table, c: Config, w: World, show: real -> string, read: string -> Option<real>,
                  ghost printable: iset<real>, lines: seq<string>, ghost file: Vector, rate: real)
    returns (t: Tuned, lines': seq<string>, rate': real)
    requires TableOk(specs) && ConfigOk(c) && WorldOk(w) && Holds(specs, read, lines, file)
    requires FloatText(show, read, printable) && PrintableTable(specs, printable)
      && KeepsPrintable(specs, c, w, printable)
    ensures TunedOk(specs, c, w, t) && t.start == file
    ensures Holds(specs, read, lines', LastWrite(t)) && IsFileOf(specs, show, LastWrite(t), lines')
    ensures rate' == Ewma.RateAfter(c.ewma, rate, w.utility(0), RoundsOf(t.trials))
  {
    var loaded := LoadCurrentParameters(specs, read, lines);
    t, rate' := Tune(specs, c, w, loaded.value, rate);
    LoadPrintable(specs, show, read, printable, lines, file);
    LastPrintable(specs, c, w, printable, t);
    LastIsWellFormed(specs, t.writes);
    lines' := WriteBack(specs, show, read, printable, t.writes[|t.writes| - 1]);
  }

  lemma LastIsWellFormed(specs: Table, writes: seq<Vector>)
    requires AllWellFormed(specs, writes) && writes != []
    ensures WellFormed(specs, writes[|writes| - 1])
  {
  }

  /** A printable vector in bounds survives being written and loaded. */
  method WriteBack(specs: Table, show: real -> string, ghost read: string -> Option<real>, ghost printable: iset<real>,
                   v: Vector)
    returns (lines: seq<string>)
    requires TableOk(specs) && FloatText(show, read, printable) && WellFormed(specs, v)
    requires PrintableVector(specs, printable, v)
    ensures Holds(specs, read, lines, v) && IsFileOf(specs, show, v, lines)
  {
    NormalizeOrdered(v);
    lines := WriteParameters(specs, show, v);
    LoadAfterWrite(specs, show, read, printable, v, lines);
  }

  /**
   * The sessions follow each other: the first starts from `file`, each later one from what the one before wrote last.
   */
  ghost predicate Chained(specs: Table, c: Config, worlds: seq<World>, file: Vector, runs: seq<Tuned>)
    requires TableOk(specs) && ConfigOk(c) && |runs| <= |worlds|
  {
    runs != [] ==>
      var n := |runs| - 1;
      && Chained(specs, c, worlds, file, runs[..n])
      && TunedOk(specs, c, worlds[n], runs[n])
      && runs[n].start == FileAfter(file, runs[..n])
  }

  ghost function FileAfter(file: Vector, runs: seq<Tuned>): Vector {
    if runs == [] || runs[|runs| - 1].writes == [] then file else LastWrite(runs[|runs| - 1])
  }

  ghost function LogOf(worlds: seq<World>, runs: seq<Tuned>): seq<Ewma.Session>
    requires |runs| <= |worlds|
  {
    if runs == [] then [] else LogOf(worlds, runs[..|runs| - 1]) + [LoggedSession(worlds[|runs| - 1], runs[|runs| - 1])]
  }

  /**
   * Any sequence of sessions started from a parameter file in bounds: there is one per trigger, each loads the text the
   * one before wrote last, and the bad-step average is the one that their logged rounds determine.
   */
  method TuneAll(specs: Table, c: Config, worlds: seq<World>, show: real -> string, read: string -> Option<real>,
                 ghost printable: iset<real>, lines0: seq<string>, ghost file0: Vector)
    returns (runs: seq<Tuned>, lines: seq<string>, rate: real)
    requires TableOk(specs) && ConfigOk(c) && AllWorldsOk(specs, c, printable, worlds)
    requires FloatText(show, read, printable) && PrintableTable(specs, printable) && Holds(specs, read, lines0, file0)
    ensures |runs| == |worlds| && Chained(specs, c, worlds, file0, runs)
    ensures Holds(specs, read, lines, FileAfter(file0, runs))
    ensures rate == Ewma.RateAfterSessions(c.ewma, LogOf(worlds, runs))
  {
    runs, lines, rate := [], lines0, 0.0;
    for i := 0 to |worlds|
      invariant |runs| == i && Chained(specs, c, worlds, file0, runs)
      invariant Holds(specs, read, lines, FileAfter(file0, runs))
      invariant rate == Ewma.RateAfterSessions(c.ewma, LogOf(worlds, runs))
    {
      var t;
      ghost var file := FileAfter(file0, runs);
      assert WorldOk(worlds[i]);
      t, lines, rate := TuneFile(specs, c, worlds[i], show, read, printable, lines, file, rate);
      ChainNext(specs, c, worlds, file0, runs, t);
      LogNext(c, worlds, runs, t);
      runs := runs + [t];
    }
  }

  lemma ChainNext(specs: Table, c: Config, worlds: seq<World>, file: Vector, runs: seq<Tuned>, t: Tuned)
    requires TableOk(specs) && ConfigOk(c) && |runs| < |worlds| && Chained(specs, c, worlds, file, runs)
    requires TunedOk(specs, c, worlds[|runs|], t) && t.start == FileAfter(file, runs)
    ensures Chained(specs, c, worlds, file, runs + [t]) && FileAfter(file, runs + [t]) == LastWrite(t)
  {
    assert (runs + [t])[..|runs|] == runs;
  }

  ghost predicate AllWorldsOk(specs: Table, c: Config, printable: iset<real>, worlds: seq<World>)
    requires TableOk(specs) && ConfigOk(c)
  {
    forall i :: 0 <= i < |worlds| ==> WorldOk(worlds[i]) && KeepsPrintable(specs, c, worlds[i], printable)
  }

  lemma LogNext(c: Config, worlds: seq<World>, runs: seq<Tuned>, t: Tuned)
    requires |runs| < |worlds|
    ensures var s := LoggedSession(worlds[|runs|], t);
      Ewma.RateAfterSessions(c.ewma, LogOf(worlds, runs + [t])) ==
      Ewma.RateAfter(c.ewma, Ewma.RateAfterSessions(c.ewma, LogOf(worlds, runs)), s.baseline, s.rounds)
  {
    assert (runs + [t])[..|runs|] == runs;
    Ewma.RateAfterNext(c.ewma, LogOf(worlds, runs), LoggedSession(worlds[|runs|], t));
  }

  /** Every vector written in any session of a run is in bounds with kmin <= kmax. */
  lemma {:induction false} EveryWriteOk(specs: Table, c: Config, worlds: seq<World>, file: Vector, runs: seq<Tuned>,
                                        i: nat, k: nat)
    requires TableOk(specs) && ConfigOk(c) && |runs| <= |worlds| && Chained(specs, c, worlds, file, runs)
    requires i < |runs| && k < |runs[i].writes|
    ensures WellFormed(specs, runs[i].writes[k])
  {
    if i < |runs| - 1 {
      EveryWriteOk(specs, c, worlds, file, runs[..|runs| - 1], i, k);
    }
  }

  // ---------------------------------------------------------------------------
  // What the log of a session satisfies

  lemma {:induction false} RoundsAt(trials: seq<Trial>, i: nat)
    requires i + 1 < |trials|
    ensures |RoundsOf(trials)| == |trials| - 1 && RoundsOf(trials)[i]
      == Ewma.Round(trials[i + 1].value, trials[i + 1].accepted)
    ensures RoundsOf(trials)[..i] == RoundsOf(trials[..i + 1])
  {
    var before := trials[..|trials| - 1];
    RoundCount(before);
    if i + 1 < |before| {
      RoundsAt(before, i);
      assert before[..i + 1] == trials[..i + 1];
    } else {
      assert before == trials[..i + 1];
    }
  }

  lemma {:induction false} RoundCount(trials: seq<Trial>)
    ensures |RoundsOf(trials)| == if |trials| <= 1 then 0 else |trials| - 1
  {
    if |trials| > 1 {
      RoundCount(trials[..|trials| - 1]);
    }
  }

  lemma {:induction false} CurrentIs(trials: seq<Trial>)
    requires |trials| > 0
    ensures Ewma.CurrentAfter(trials[0].value, RoundsOf(trials)) == LastAccepted(trials).value
  {
    if |trials| > 1 {
      CurrentIs(trials[..|trials| - 1]);
      var before, last := RoundsOf(trials[..|trials| - 1]), trials[|trials| - 1];
      assert RoundsOf(trials) == before + [Ewma.Round(last.value, last.accepted)];
      assert (before + [Ewma.Round(last.value, last.accepted)])[..|before|] == before;
    }
  }

  /** The rounds of every session obey the rule under which the replay of the log is exact. */
  lemma SessionsAreFair(w: World, start: Vector, trials: seq<Trial>, writes: seq<Vector>)
    requires Traced(w, start, trials, writes)
    ensures Ewma.Fair(Ewma.Session(w.utility(0), RoundsOf(trials)))
  {
    var rounds := RoundsOf(trials);
    RoundCount(trials);
    forall i | 0 <= i < |rounds| && rounds[i].total >= Ewma.CurrentAfter(w.utility(0),
        rounds[..i]) ensures rounds[i].accepted {
      RoundsAt(trials, i);
      CurrentIs(trials[..i + 1]);
      assert Decided(w, trials, i + 1);
    }
  }

  /** So do all sessions of a run. */
  lemma {:induction false} RunsAreFair(specs: Table, c: Config, worlds: seq<World>, file: Vector, runs: seq<Tuned>)
    requires TableOk(specs) && ConfigOk(c) && |runs| <= |worlds| && Chained(specs, c, worlds, file, runs)
    ensures Ewma.AllFair(LogOf(worlds, runs))
  {
    if runs != [] {
      var n := |runs| - 1;
      RunsAreFair(specs, c, worlds, file, runs[..n]);
      SessionsAreFair(worlds[n], runs[n].start, runs[n].trials, runs[n].writes);
    }
  }

  /**
   * From the tuner to the analysis: for any run of sessions and any log that holds their blocks among foreign ones, the
   * replay gives the averages and caps that the tuner used exactly when no round is negative and each negative baseline
   * is recoverable.
   */
  lemma RunsReplay(specs: Table, c: Config, worlds: seq<World>, file: Vector, runs: seq<Tuned>, log: seq<Ewma.Block>)
    requires TableOk(specs) && ConfigOk(c) && |runs| <= |worlds| && Chained(specs, c, worlds, file, runs)
    requires Ewma.ConfigOk(c.ewma) && Ewma.DropForeign(log) == Ewma.LogOf(LogOf(worlds, runs))
    ensures Ewma.Exact(c.ewma, LogOf(worlds, runs), log)
       <==> Ewma.AllNonNegative(LogOf(worlds, runs)) && Ewma.Recoverable(c.ewma, LogOf(worlds, runs))
  {
    RunsAreFair(specs, c, worlds, file, runs);
    Ewma.ReplayIsExact(c.ewma, LogOf(worlds, runs), log);
  }
}
