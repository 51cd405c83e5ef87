/** Starting the flows of the input file at their times, counting them, and stopping when all have finished. */
module Flows {
  import opened Collections

  /** A flow of the input file; `start` is its start time in simulator ticks. */
  datatype Flow = Flow(src: nat, dst: nat, start: nat)

  const FIRST_PORT: nat := 10000
  const PORTS: nat := 0x1_0000

  /** A flow started at a time with a source port. */
  datatype Started = Started(flow: nat, time: nat, port: nat)

  /**
   * The globals: the next flow to start, the counters, the 16-bit port counters (by host pair, from 10000), the
   * pending call of the scheduling function, and what has happened so far.
   */
  datatype State = State(now: nat, idx: nat, scheduled: nat, active: nat, ports: map<(nat, nat), nat>,
                         pending: Option<nat>,
                         started: seq<Started>, finished: set<nat>, stopRequests: nat)

  ghost predicate TimeSorted(flows: seq<Flow>) {
    forall i, j :: 0 <= i < j < |flows| ==> flows[i].start <= flows[j].start
  }

  function NextPort(ports: map<(nat, nat), nat>, f: Flow): nat {
    if (f.src, f.dst) in ports then ports[(f.src, f.dst)] else FIRST_PORT
  }

  function Begin(flows: seq<Flow>): State {
    State(0, 0, 0, 0, map[], if flows == [] then None else Some(flows[0].start), [], {}, 0)
  }

  // ---------------------------------------------------------------------------
  // The functions of the simulator

  /** One iteration of the scheduling loop. */
  function StartOne(flows: seq<Flow>, s: State): State
    requires s.idx < |flows|
  {
    var f := flows[s.idx];
    var port := NextPort(s.ports, f);
    s.(ports := s.ports[(f.src, f.dst) := (port + 1) % PORTS],
       started := s.started + [Started(s.idx, s.now, port)],
       scheduled := s.scheduled + 1, active := s.active + 1, idx := s.idx + 1)
  }

  predicate Due(flows: seq<Flow>, s: State) {
    s.idx < |flows| && flows[s.idx].start == s.now
  }

  function StartDue(flows: seq<Flow>, s: State): State
    decreases |flows| - s.idx
  {
    if Due(flows, s) then StartDue(flows, StartOne(flows, s)) else s
  }

  function MaybeStop(flows: seq<Flow>, s: State): State {
    if s.scheduled < |flows| || s.active != 0 then s else s.(stopRequests := s.stopRequests + 1)
  }

  /** `ScheduleFlowInputs`, called when the simulator reaches the pending time. */
  function Fire(flows: seq<Flow>, s: State): State
    requires s.pending.Some?
  {
    var s1 := StartDue(flows, s.(now := s.pending.value, pending := None));
    if s1.idx < |flows| then s1.(pending := Some(flows[s1.idx].start)) else MaybeStop(flows, s1)
  }

  /** `qp_finish` of flow `i` at time `t`. */
  function Finish(flows: seq<Flow>, s: State, i: nat, t: nat): State {
    MaybeStop(flows, s.(now := t, finished := s.finished + {i}, active := if s.active > 0 then s.active - 1
        else s.active))
  }

  // ---------------------------------------------------------------------------
  // Events in time order

  datatype Event = FireEvent | FinishEvent(i: nat, t: nat)

  /** The simulator runs events in time order, and a flow finishes once, after it started. */
  predicate Possible(s: State, ev: Event) {
    match ev
    case FireEvent => s.pending.Some?
    case FinishEvent(i, t) => i < s.idx && i !in s.finished && s.now <= t && (s.pending.Some? ==> t <= s.pending.value)
  }

  function Next(flows: seq<Flow>, s: State, ev: Event): State
    requires Possible(s, ev)
  {
    match ev
    case FireEvent => Fire(flows, s)
    case FinishEvent(i, t) => Finish(flows, s, i, t)
  }

  // ---------------------------------------------------------------------------
  // What every event keeps

  /** How many of the first `k` flows are between the same hosts as `f`. */
  ghost function Earlier(flows: seq<Flow>, k: nat, f: Flow): nat
    requires k <= |flows|
  {
    if k == 0 then 0 else
      Earlier(flows, k - 1, f) + if flows[k - 1].src == f.src && flows[k - 1].dst == f.dst then 1 else 0
  }

  /** Flow `k` started at its own time, with the port of its place among the flows of its host pair. */
  ghost predicate StartedRight(flows: seq<Flow>, k: nat, st: Started)
    requires k < |flows|
  {
    st == Started(k, flows[k].start, (FIRST_PORT + Earlier(flows, k, flows[k])) % PORTS)
  }

  ghost predicate Trace(flows: seq<Flow>, s: State) {
    && s.idx <= |flows| && |s.started| == s.scheduled == s.idx
    && (forall k :: 0 <= k < s.idx ==> StartedRight(flows, k, s.started[k]))
    && (forall f: Flow :: NextPort(s.ports, f) == (FIRST_PORT + Earlier(flows, s.idx, f)) % PORTS)
  }

  ghost predicate Counters(flows: seq<Flow>, s: State) {
    && (forall i <- s.finished :: i < s.idx)
    && s.active + |s.finished| == s.idx
  }

  ghost predicate Pending(flows: seq<Flow>, s: State) {
    && (s.pending.Some? <==> s.idx < |flows|)
    && (s.pending.Some? ==> s.pending.value == flows[s.idx].start && s.now <= s.pending.value)
  }

  /** A stop has been requested exactly when every flow has started and finished. */
  ghost predicate StopExact(flows: seq<Flow>, s: State) {
    s.stopRequests == if s.idx == |flows| && |s.finished| == |flows| && flows != [] then 1 else 0
  }

  ghost predicate Inv(flows: seq<Flow>, s: State) {
    Trace(flows, s) && Counters(flows, s) && Pending(flows, s) && StopExact(flows, s)
  }

  lemma StartOneKeeps(flows: seq<Flow>, s: State)
    requires Trace(flows, s) && Counters(flows, s) && Due(flows, s)
    ensures Trace(flows, StartOne(flows, s)) && Counters(flows, StartOne(flows, s))
  {
    var s' := StartOne(flows, s);
    var f := flows[s.idx];
    assert StartedRight(flows, s.idx, s'.started[s.idx]);
    forall g: Flow ensures NextPort(s'.ports, g) == (FIRST_PORT + Earlier(flows, s'.idx, g)) % PORTS {
      if g.src == f.src && g.dst == f.dst {
        SamePair(flows, s.idx, f, g);
        NextInRing(FIRST_PORT + Earlier(flows, s.idx, f));
      }
    }
  }

  lemma NextInRing(n: nat)
    ensures (n % PORTS + 1) % PORTS == (n + 1) % PORTS
  {
  }

  lemma {:induction false} SamePair(flows: seq<Flow>, k: nat, f: Flow, g: Flow)
    requires k <= |flows| && g.src == f.src && g.dst == f.dst
    ensures Earlier(flows, k, f) == Earlier(flows, k, g)
  {
    if k > 0 {
      SamePair(flows, k - 1, f, g);
    }
  }

  lemma {:induction false} StartDueKeeps(flows: seq<Flow>, s: State)
    requires Trace(flows, s) && Counters(flows, s)
    ensures var s' := StartDue(flows, s);
      && Trace(flows, s') && Counters(flows, s') && !Due(flows, s')
      && s'.now == s.now && s'.finished == s.finished && s'.stopRequests == s.stopRequests && s'.pending == s.pending
      && s'.idx >= s.idx && (Due(flows, s) ==> s'.idx > s.idx)
      && (s'.idx > s.idx ==> flows[s'.idx - 1].start == s.now)
    decreases |flows| - s.idx
  {
    if Due(flows, s) {
      StartOneKeeps(flows, s);
      StartDueKeeps(flows, StartOne(flows, s));
    }
  }

  lemma {:induction false} FireKeeps(flows: seq<Flow>, s: State)
    requires TimeSorted(flows) && Inv(flows, s) && s.pending.Some?
    ensures Inv(flows, Fire(flows, s))
  {
    var s0 := s.(now := s.pending.value, pending := None);
    StartDueKeeps(flows, s0);
    var s1 := StartDue(flows, s0);
    assert Due(flows, s0);
    FinishedFew(s1.finished, s.idx);
  }

  lemma {:induction false} FinishedFew(finished: set<nat>, n: nat)
    requires forall i <- finished :: i < n
    ensures |finished| <= n
  {
    if n > 0 {
      FinishedFew(finished - {n - 1}, n - 1);
    } else {
      assert finished == {};
    }
  }

  lemma FinishKeeps(flows: seq<Flow>, s: State, i: nat, t: nat)
    requires Inv(flows, s) && Possible(s, FinishEvent(i, t))
    ensures Inv(flows, Finish(flows, s, i, t))
  {
    FinishedFew(s.finished + {i}, s.idx);
    assert |s.finished + {i}| == |s.finished| + 1;
  }

  // ---------------------------------------------------------------------------
  // Runs

  ghost predicate IsRun(flows: seq<Flow>, events: seq<Event>, states: seq<State>) {
    && |states| == |events| + 1
    && states[0] == Begin(flows)
    && forall i :: 0 <= i < |events| ==>
         Possible(states[i], events[i]) && states[i + 1] == Next(flows, states[i], events[i])
  }

  /**
   * In every run over a time-sorted flow list: each started flow started once, at its own time; active = scheduled -
   * finished; and a stop is requested exactly when all flows have finished.
   */
  lemma {:induction false} RunsAreRight(flows: seq<Flow>, events: seq<Event>, states: seq<State>, i: nat)
    requires TimeSorted(flows) && IsRun(flows, events, states) && i < |states|
    ensures Inv(flows, states[i])
  {
    if i == 0 {
      forall f: Flow ensures NextPort(map[], f) == (FIRST_PORT + Earlier(flows, 0, f)) % PORTS {
      }
    } else {
      RunsAreRight(flows, events, states, i - 1);
      assert Possible(states[i - 1], events[i - 1]) && states[i - 1 + 1] == Next(flows, states[i - 1], events[i - 1]);
      match events[i - 1]
      case FireEvent => FireKeeps(flows, states[i - 1]);
      case FinishEvent(k, t) => FinishKeeps(flows, states[i - 1], k, t);
    }
  }

  lemma {:induction false} EarlierGrows(flows: seq<Flow>, a: nat, b: nat, f: Flow)
    requires a <= b <= |flows|
    ensures Earlier(flows, a, f) <= Earlier(flows, b, f) <= Earlier(flows, a, f) + (b - a)
  {
    if a < b {
      EarlierGrows(flows, a, b - 1, f);
    }
  }

  /** Two flows of one host pair share a source port exactly when a multiple of 65536 flows of the pair lie between. */
  lemma PortsShared(flows: seq<Flow>, s: State, a: nat, b: nat)
    requires Trace(flows, s) && a < b < s.idx
    requires flows[a].src == flows[b].src && flows[a].dst == flows[b].dst
    ensures Earlier(flows, a, flows[a]) < Earlier(flows, b, flows[b]) <= Earlier(flows, a, flows[a]) + (b - a)
    ensures s.started[a].port == s.started[b].port
       <==> (Earlier(flows, b, flows[b]) - Earlier(flows, a, flows[a])) % PORTS == 0
  {
    assert StartedRight(flows, a, s.started[a]) && StartedRight(flows, b, s.started[b]);
    SamePair(flows, a, flows[a], flows[b]);
    EarlierGrows(flows, a, b, flows[b]);
    EarlierGrows(flows, a + 1, b, flows[b]);
    RingMeets(FIRST_PORT + Earlier(flows, a, flows[b]), Earlier(flows, b, flows[b]) - Earlier(flows, a, flows[b]));
  }

  lemma RingMeets(x: nat, d: nat)
    ensures x % PORTS == (x + d) % PORTS <==> d % PORTS == 0
  {
  }

  /** Hence the ports of a host pair are distinct while fewer than 65536 flows lie between two starts. */
  lemma PortsDistinct(flows: seq<Flow>, s: State, a: nat, b: nat)
    requires Trace(flows, s) && a < b < s.idx && b - a < PORTS
    requires flows[a].src == flows[b].src && flows[a].dst == flows[b].dst
    ensures s.started[a].port != s.started[b].port
  {
    PortsShared(flows, s, a, b);
  }

  /** With 65537 flows of one host pair, the last one gets the port of the first. */
  lemma PortReused(f: Flow, s: State)
    requires var flows := seq(PORTS + 1, _ => f); Trace(flows, s) && s.idx == |flows|
    ensures s.started[0].port == s.started[PORTS].port
  {
    var flows := seq(PORTS + 1, _ => f);
    SameFlows(flows, f, PORTS);
    PortsShared(flows, s, 0, PORTS);
  }

  lemma {:induction false} SameFlows(flows: seq<Flow>, f: Flow, k: nat)
    requires k <= |flows| && forall i :: 0 <= i < |flows| ==> flows[i] == f
    ensures Earlier(flows, k, f) == k
  {
    if k > 0 {
      SameFlows(flows, f, k - 1);
    }
  }

  /** A run that can go no further has started every flow and requested one stop (none for an empty flow list). */
  lemma QuietMeansDone(flows: seq<Flow>, events: seq<Event>, states: seq<State>, i: nat)
    requires TimeSorted(flows) && IsRun(flows, events, states) && i < |states|
    requires forall ev: Event :: !Possible(states[i], ev)
    ensures var s := states[i];
      && |s.started| == |flows| && s.active == 0 && s.stopRequests == (if flows == [] then 0 else 1)
      && forall k :: 0 <= k < |flows| ==> k in s.finished && StartedRight(flows, k, s.started[k])
  {
    RunsAreRight(flows, events, states, i);
    var s := states[i];
    assert !Possible(s, FireEvent);
    forall k | 0 <= k < |flows| ensures k in s.finished {
      assert !Possible(s, FinishEvent(k, s.now));
    }
    AllFinished(s.finished, |flows|);
  }

  lemma {:induction false} AllFinished(finished: set<nat>, n: nat)
    requires forall k :: 0 <= k < n ==> k in finished
    requires forall k <- finished :: k < n
    ensures |finished| == n
  {
    if n > 0 {
      AllFinished(finished - {n - 1}, n - 1);
    } else {
      assert finished == {};
    }
  }

  // ---------------------------------------------------------------------------
  // The scheduling loop itself

  class Scheduler {
    const flows: seq<Flow>
    var state: State

    constructor (flows: seq<Flow>)
      requires TimeSorted(flows)
      ensures this.flows == flows && state == Begin(flows) && Inv(flows, state)
    {
      this.flows := flows;
      state := Begin(flows);
      new;
      RunsAreRight(flows, [], [state], 0);
    }

    /** Starts every flow due now, then schedules its own next call or closes the file. */
    method ScheduleFlowInputs()
      requires TimeSorted(flows) && Inv(flows, state) && state.pending.Some?
      modifies this
      ensures state == Fire(flows, old(state)) && Inv(flows, state)
    {
      ghost var s0 := state.(now := state.pending.value, pending := None);
      FireKeeps(flows, state);
      state := state.(now := state.pending.value, pending := None);
      while state.idx < |flows| && flows[state.idx].start == state.now
        invariant StartDue(flows, state) == StartDue(flows, s0)
        decreases |flows| - state.idx
      {
        StartNext();
      }
      if state.idx < |flows| {
        state := state.(pending := Some(flows[state.idx].start));
      } else {
        MaybeStopWhenAllFlowsFinish();
      }
    }

    /** The body of the loop: the next port of the host pair, the counters, the next flow. */
    method StartNext()
      requires state.idx < |flows|
      modifies this
      ensures state == StartOne(flows, old(state))
    {
      var f := flows[state.idx];
      var port := NextPort(state.ports, f);
      state := state.(ports := state.ports[(f.src, f.dst) := (port + 1) % PORTS],
                      started := state.started + [Started(state.idx, state.now, port)]);
      state := state.(scheduled := state.scheduled + 1, active := state.active + 1);
      state := state.(idx := state.idx + 1);
    }

    method QpFinish(i: nat, t: nat)
      requires Inv(flows, state) && Possible(state, FinishEvent(i, t))
      modifies this
      ensures state == Finish(flows, old(state), i, t) && Inv(flows, state)
    {
      FinishKeeps(flows, state, i, t);
      state := state.(now := t, finished := state.finished + {i});
      if state.active > 0 {
        state := state.(active := state.active - 1);
      }
      MaybeStopWhenAllFlowsFinish();
    }

    method MaybeStopWhenAllFlowsFinish()
      modifies this
      ensures state == MaybeStop(flows, old(state))
    {
      if state.scheduled < |flows| {
        return;
      }
      if state.active != 0 {
        return;
      }
      state := state.(stopRequests := state.stopRequests + 1);
    }
  }
}
