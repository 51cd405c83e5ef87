/** The test runner's worker threads, their two queues and the collecting main thread, as interleaved steps. */
module WorkerPool {

  // ---------------------------------------------------------------------------
  // State and steps

  /** The jobs of a run: how many, which are skipped, and the return code each would give. */
  datatype Jobs = Jobs(count: nat, skip: nat -> bool, code: nat -> int, workers: nat)

  datatype Item = Real(id: nat) | Break

  datatype Verdict = Broken | Skipped | Ran(code: int)

  /** A job on the output queue. */
  datatype Out = Out(id: nat, verdict: Verdict)

  datatype Worker = Idle | Holding(id: nat) | Running(id: nat) | Exited

  /** `dispatched` and `breaks` count the puts of the main thread; `taken` counts the real jobs workers have got. */
  datatype State = State(dispatched: nat, breaks: nat, taken: nat, input: seq<Item>, workers: seq<Worker>,
                         output: seq<Out>, collected: seq<Out>, joined: nat, threadExit: bool)

  datatype Step =
    | PutJob | PutBreak | Collect | Join
    | Get(w: nat) | Check(w: nat) | Finish(w: nat)
    | Interrupt

  function Start(j: Jobs): State {
    State(0, 0, 0, [], seq(j.workers, _ => Idle), [], [], 0, false)
  }

  predicate Enabled(j: Jobs, s: State, step: Step) {
    match step
    case PutJob => s.dispatched < j.count
    case PutBreak => s.dispatched == j.count && s.breaks < j.workers
    case Collect => s.breaks == j.workers && s.dispatched == j.count && |s.collected| < j.count && s.output != []
    case Join => s.breaks == j.workers && |s.collected| == j.count && s.joined < |s.workers|
        && s.workers[s.joined] == Exited
    case Get(w) => w < |s.workers| && s.workers[w] == Idle && s.input != []
    case Check(w) => w < |s.workers| && s.workers[w].Holding?
    case Finish(w) => w < |s.workers| && s.workers[w].Running?
    case Interrupt => true
  }

  function Next(j: Jobs, s: State, step: Step): State
    requires Enabled(j, s, step)
  {
    match step
    case PutJob => s.(input := s.input + [Real(s.dispatched)], dispatched := s.dispatched + 1)
    case PutBreak => s.(input := s.input + [Break], breaks := s.breaks + 1)
    case Collect => s.(collected := s.collected + [s.output[0]], output := s.output[1..])
    case Join => s.(joined := s.joined + 1)
    case Get(w) =>
      if s.input[0].Break? then s.(input := s.input[1..], workers := s.workers[w := Exited])
      else s.(input := s.input[1..], workers := s.workers[w := Holding(s.input[0].id)], taken := s.taken + 1)
    case Check(w) =>
      var id := s.workers[w].id;
      if s.threadExit then s.(workers := s.workers[w := Idle], output := s.output + [Out(id, Broken)])
      else if j.skip(id) then s.(workers := s.workers[w := Idle], output := s.output + [Out(id, Skipped)])
      else s.(workers := s.workers[w := Running(id)])
    case Finish(w) =>
      var id := s.workers[w].id;
      s.(workers := s.workers[w := Idle], output := s.output + [Out(id, Ran(j.code(id)))])
    case Interrupt => s.(threadExit := true)
  }

  predicate Done(j: Jobs, s: State) {
    s.joined == j.workers && |s.collected| == j.count && s.dispatched == j.count
  }

  // ---------------------------------------------------------------------------
  // What every step keeps

  /** How many outputs are job `id`. */
  ghost function OutCount(outs: seq<Out>, id: nat): nat {
    if outs == [] then 0 else OutCount(outs[..|outs| - 1], id) + if outs[|outs| - 1].id == id then 1 else 0
  }

  ghost predicate Holds(w: Worker, id: nat) {
    (w.Holding? || w.Running?) && w.id == id
  }

  /** How many workers have job `id` in hand. */
  ghost function HeldCount(ws: seq<Worker>, id: nat): nat {
    if ws == [] then 0 else HeldCount(ws[..|ws| - 1], id) + if Holds(ws[|ws| - 1], id) then 1 else 0
  }

  ghost function ExitedCount(ws: seq<Worker>): nat {
    if ws == [] then 0 else ExitedCount(ws[..|ws| - 1]) + if ws[|ws| - 1] == Exited then 1 else 0
  }

  ghost predicate Busy(w: Worker) {
    w.Holding? || w.Running?
  }

  ghost function BusyCount(ws: seq<Worker>): nat {
    if ws == [] then 0 else BusyCount(ws[..|ws| - 1]) + if Busy(ws[|ws| - 1]) then 1 else 0
  }

  /** The steps a worker still owes for the job in its hands, output and collection included. */
  ghost function Effort(ws: seq<Worker>): nat {
    if ws == [] then 0 else Effort(ws[..|ws| - 1]) + Owed(ws[|ws| - 1])
  }

  ghost function Owed(w: Worker): nat {
    if w.Holding? then 3 else if w.Running? then 2 else 0
  }

  ghost function Reals(lo: nat, hi: nat): seq<Item>
    requires lo <= hi
  {
    if lo == hi then [] else Reals(lo, hi - 1) + [Real(hi - 1)]
  }

  ghost function Breaks(n: nat): seq<Item> {
    if n == 0 then [] else Breaks(n - 1) + [Break]
  }

  /** The verdict is the one the job deserves, or the run was interrupted. */
  ghost predicate Honest(j: Jobs, o: Out, interrupted: bool) {
    match o.verdict
    case Broken => interrupted
    case Skipped => j.skip(o.id)
    case Ran(code) => !j.skip(o.id) && code == j.code(o.id)
  }

  ghost predicate AllHonest(j: Jobs, outs: seq<Out>, interrupted: bool) {
    forall i :: 0 <= i < |outs| ==> Honest(j, outs[i], interrupted)
  }

  /** The order of the main thread's phases. */
  ghost predicate Phased(j: Jobs, s: State) {
    && |s.workers| == j.workers
    && s.taken <= s.dispatched <= j.count && s.breaks <= j.workers && |s.collected| <= j.count && s.joined <= j.workers
    && (s.breaks > 0 ==> s.dispatched == j.count)
    && (s.collected != [] ==> s.breaks == j.workers)
    && (s.joined > 0 ==> s.breaks == j.workers && |s.collected| == j.count)
  }

  /** The input queue: the jobs not yet taken, in order, then the breaks not yet taken. */
  ghost predicate Queued(input: seq<Item>, taken: nat, dispatched: nat, breaks: nat, exited: nat) {
    && taken <= dispatched && exited <= breaks
    && input == Reals(taken, dispatched) + Breaks(breaks - exited)
    && (exited > 0 ==> taken == dispatched)
  }

  /** In how many places job `id` is. */
  ghost function Places(workers: seq<Worker>, output: seq<Out>, collected: seq<Out>, id: nat): nat {
    HeldCount(workers, id) + OutCount(output, id) + OutCount(collected, id)
  }

  /** Every job taken is in exactly one place. */
  ghost predicate Conserved(workers: seq<Worker>, output: seq<Out>, collected: seq<Out>, taken: nat) {
    forall id: nat :: Places(workers, output, collected, id) == if id < taken then 1 else 0
  }

  ghost predicate RunningUnskipped(j: Jobs, workers: seq<Worker>) {
    forall w :: 0 <= w < |workers| && workers[w].Running? ==> !j.skip(workers[w].id)
  }

  ghost predicate JoinedExited(workers: seq<Worker>, joined: nat) {
    joined <= |workers| && forall w :: 0 <= w < joined ==> workers[w] == Exited
  }

  ghost predicate Inv(j: Jobs, s: State) {
    && Phased(j, s)
    && Queued(s.input, s.taken, s.dispatched, s.breaks, ExitedCount(s.workers))
    && Conserved(s.workers, s.output, s.collected, s.taken)
    && BusyCount(s.workers) + |s.output| + |s.collected| == s.taken
    && RunningUnskipped(j, s.workers)
    && JoinedExited(s.workers, s.joined)
    && AllHonest(j, s.output, s.threadExit)
    && AllHonest(j, s.collected, s.threadExit)
  }

  // ---------------------------------------------------------------------------
  // Updating one worker

  lemma {:induction false} UpdateHeld(ws: seq<Worker>, w: nat, x: Worker, id: nat)
    requires w < |ws|
    ensures HeldCount(ws[w := x], id) + (if Holds(ws[w], id) then 1 else 0)
      == HeldCount(ws, id) + (if Holds(x, id) then 1 else 0)
  {
    var n := |ws| - 1;
    if w == n {
      assert ws[w := x][..n] == ws[..n];
    } else {
      UpdateHeld(ws[..n], w, x, id);
      assert ws[w := x][..n] == ws[..n][w := x];
    }
  }

  lemma {:induction false} UpdateCounts(ws: seq<Worker>, w: nat, x: Worker)
    requires w < |ws|
    ensures ExitedCount(ws[w := x]) + (if ws[w] == Exited then 1 else 0)
      == ExitedCount(ws) + (if x == Exited then 1 else 0)
    ensures BusyCount(ws[w := x]) + (if Busy(ws[w]) then 1 else 0) == BusyCount(ws) + (if Busy(x) then 1 else 0)
  {
    var n := |ws| - 1;
    if w == n {
      assert ws[w := x][..n] == ws[..n];
    } else {
      UpdateCounts(ws[..n], w, x);
      assert ws[w := x][..n] == ws[..n][w := x];
    }
  }

  lemma {:induction false} UpdateEffort(ws: seq<Worker>, w: nat, x: Worker)
    requires w < |ws|
    ensures Effort(ws[w := x]) + Owed(ws[w]) == Effort(ws) + Owed(x)
  {
    var n := |ws| - 1;
    if w == n {
      assert ws[w := x][..n] == ws[..n];
    } else {
      UpdateEffort(ws[..n], w, x);
      assert ws[w := x][..n] == ws[..n][w := x];
    }
  }

  lemma {:induction false} RealsFirst(lo: nat, hi: nat)
    requires lo < hi
    ensures Reals(lo, hi) == [Real(lo)] + Reals(lo + 1, hi)
  {
    if lo + 1 < hi {
      RealsFirst(lo, hi - 1);
    }
  }

  lemma {:induction false} BreaksFirst(n: nat)
    requires n > 0
    ensures Breaks(n) == [Break] + Breaks(n - 1)
  {
    if n > 1 {
      BreaksFirst(n - 1);
    }
  }

  lemma {:induction false} OutFirst(outs: seq<Out>, id: nat)
    requires outs != []
    ensures OutCount(outs, id) == OutCount(outs[1..], id) + if outs[0].id == id then 1 else 0
  {
    if |outs| == 1 {
      assert outs[..0] == [];
    } else {
      OutFirst(outs[..|outs| - 1], id);
      assert outs[1..][..|outs| - 2] == outs[..|outs| - 1][1..];
    }
  }

  // ---------------------------------------------------------------------------
  // Every step keeps the invariant

  lemma {:induction false} StartInv(j: Jobs)
    ensures Inv(j, Start(j)) && Effort(Start(j).workers) == 0
  {
    AllIdle(j.workers, 0);
    var ws := Start(j).workers;
    forall id: nat ensures Places(ws, [], [], id) == 0 {
      AllIdle(j.workers, id);
    }
  }

  lemma {:induction false} AllIdle(n: nat, id: nat)
    ensures HeldCount(seq(n, _ => Idle), id) == 0 && ExitedCount(seq(n, _ => Idle)) == 0
      && BusyCount(seq(n, _ => Idle)) == 0 && Effort(seq(n, _ => Idle)) == 0
  {
    if n > 0 {
      AllIdle(n - 1, id);
      assert seq(n, _ => Idle)[..n - 1] == seq(n - 1, _ => Idle);
    }
  }

  lemma {:induction false} QueueGetReal(input: seq<Item>, taken: nat, dispatched: nat, breaks: nat, exited: nat)
    requires Queued(input, taken, dispatched, breaks, exited) && taken < dispatched
    ensures input != [] && input[0] == Real(taken) && Queued(input[1..], taken + 1, dispatched, breaks, exited)
  {
    RealsFirst(taken, dispatched);
    assert input[1..] == Reals(taken + 1, dispatched) + Breaks(breaks - exited);
  }

  lemma NoReals(taken: nat, n: nat)
    ensures Reals(taken, taken) + Breaks(n) == Breaks(n)
  {
  }

  lemma FirstBreak(input: seq<Item>, n: nat)
    requires input == Breaks(n) && input != []
    ensures n > 0 && input[0] == Break && input[1..] == Breaks(n - 1)
  {
    BreaksFirst(n);
  }

  lemma {:induction false} QueueGetBreak(input: seq<Item>, taken: nat, breaks: nat, exited: nat)
    requires Queued(input, taken, taken, breaks, exited) && input != []
    ensures input[0] == Break && exited < breaks && Queued(input[1..], taken, taken, breaks, exited + 1)
  {
    var n := breaks - exited;
    NoReals(taken, n);
    FirstBreak(input, n);
    NoReals(taken, n - 1);
  }

  lemma {:induction false} QueuePut(input: seq<Item>, taken: nat, dispatched: nat, breaks: nat, exited: nat)
    requires Queued(input, taken, dispatched, breaks, exited)
    ensures breaks == 0 ==> Queued(input + [Real(dispatched)], taken, dispatched + 1, breaks, exited)
    ensures Queued(input + [Break], taken, dispatched, breaks + 1, exited)
  {
    var n := breaks - exited;
    assert Reals(taken, dispatched) + Breaks(n) + [Break] == Reals(taken, dispatched) + Breaks(n + 1);
    if breaks == 0 {
      assert Reals(taken, dispatched) + [] + [Real(dispatched)] == Reals(taken, dispatched + 1) + [];
    }
  }

  /** A worker takes a job in hand: the job is one more taken. */
  lemma {:induction false} ConserveTake(ws: seq<Worker>, w: nat, output: seq<Out>, collected: seq<Out>, taken: nat)
    requires Conserved(ws, output, collected, taken) && w < |ws| && ws[w] == Idle
    ensures Conserved(ws[w := Holding(taken)], output, collected, taken + 1)
  {
    var ws' := ws[w := Holding(taken)];
    forall id: nat ensures Places(ws', output, collected, id) == if id < taken + 1 then 1 else 0 {
      UpdateHeld(ws, w, Holding(taken), id);
      assert Places(ws, output, collected, id) == if id < taken then 1 else 0;
    }
  }

  /** A worker changes state with the same job in hand, or none. */
  lemma {:induction false} ConserveSame(ws: seq<Worker>, w: nat, x: Worker, output: seq<Out>, collected: seq<Out>,
                                        taken: nat)
    requires Conserved(ws, output, collected, taken) && w < |ws| && forall id: nat :: Holds(x, id) <==> Holds(ws[w], id)
    ensures Conserved(ws[w := x], output, collected, taken)
  {
    var ws' := ws[w := x];
    forall id: nat ensures Places(ws', output, collected, id) == if id < taken then 1 else 0 {
      UpdateHeld(ws, w, x, id);
      assert Places(ws, output, collected, id) == if id < taken then 1 else 0;
    }
  }

  lemma {:induction false} ConserveHandIn(ws: seq<Worker>, w: nat, output: seq<Out>, collected: seq<Out>, taken: nat,
                                          o: Out)
    requires Conserved(ws, output, collected, taken) && w < |ws| && forall id: nat :: Holds(ws[w], id) <==> id == o.id
    ensures Conserved(ws[w := Idle], output + [o], collected, taken)
  {
    var ws', output' := ws[w := Idle], output + [o];
    forall id: nat ensures Places(ws', output', collected, id) == if id < taken then 1 else 0 {
      UpdateHeld(ws, w, Idle, id);
      assert Places(ws, output, collected, id) == if id < taken then 1 else 0;
    }
  }

  lemma {:induction false} ConserveCollect(ws: seq<Worker>, output: seq<Out>, collected: seq<Out>, taken: nat)
    requires Conserved(ws, output, collected, taken) && output != []
    ensures Conserved(ws, output[1..], collected + [output[0]], taken)
  {
    var output', collected' := output[1..], collected + [output[0]];
    forall id: nat ensures Places(ws, output', collected', id) == if id < taken then 1 else 0 {
      OutFirst(output, id);
      assert Places(ws, output, collected, id) == if id < taken then 1 else 0;
    }
  }

  /** The state after a worker takes the next real job, and after it takes a break. */
  ghost function TookJob(s: State, w: nat): State
    requires w < |s.workers| && s.input != []
  {
    s.(input := s.input[1..], workers := s.workers[w := Holding(s.taken)], taken := s.taken + 1)
  }

  ghost function TookBreak(s: State, w: nat): State
    requires w < |s.workers| && s.input != []
  {
    s.(input := s.input[1..], workers := s.workers[w := Exited])
  }

  lemma {:induction false} GetIs(j: Jobs, s: State, w: nat)
    requires Inv(j, s) && Enabled(j, s, Get(w))
    ensures s.taken < s.dispatched ==> s.input[0] == Real(s.taken) && Next(j, s, Get(w)) == TookJob(s, w)
    ensures s.taken == s.dispatched ==> s.input[0] == Break && Next(j, s, Get(w)) == TookBreak(s, w)
  {
    if s.taken < s.dispatched {
      QueueGetReal(s.input, s.taken, s.dispatched, s.breaks, ExitedCount(s.workers));
    } else {
      QueueGetBreak(s.input, s.taken, s.breaks, ExitedCount(s.workers));
    }
  }

  lemma {:induction false} TookJobKeeps(j: Jobs, s: State, w: nat)
    requires Inv(j, s) && w < |s.workers| && s.workers[w] == Idle && s.taken < s.dispatched && s.input != []
    ensures Inv(j, TookJob(s, w))
  {
    QueueGetReal(s.input, s.taken, s.dispatched, s.breaks, ExitedCount(s.workers));
    UpdateCounts(s.workers, w, Holding(s.taken));
    ConserveTake(s.workers, w, s.output, s.collected, s.taken);
  }

  lemma {:induction false} TookBreakKeeps(j: Jobs, s: State, w: nat)
    requires Inv(j, s) && w < |s.workers| && s.workers[w] == Idle && s.taken == s.dispatched && s.input != []
    ensures Inv(j, TookBreak(s, w))
  {
    QueueGetBreak(s.input, s.taken, s.breaks, ExitedCount(s.workers));
    UpdateCounts(s.workers, w, Exited);
    ConserveSame(s.workers, w, Exited, s.output, s.collected, s.taken);
  }

  lemma {:induction false} GetKeeps(j: Jobs, s: State, w: nat)
    requires Inv(j, s) && Enabled(j, s, Get(w))
    ensures Inv(j, Next(j, s, Get(w)))
  {
    GetIs(j, s, w);
    if s.taken < s.dispatched {
      TookJobKeeps(j, s, w);
    } else {
      TookBreakKeeps(j, s, w);
    }
  }

  /** A worker hands in its job. */
  lemma {:induction false} HandInKeeps(j: Jobs, s: State, w: nat, v: Verdict)
    requires Inv(j, s) && w < |s.workers| && (s.workers[w].Holding? || s.workers[w].Running?)
    requires Honest(j, Out(s.workers[w].id, v), s.threadExit)
    ensures Inv(j, s.(workers := s.workers[w := Idle], output := s.output + [Out(s.workers[w].id, v)]))
  {
    UpdateCounts(s.workers, w, Idle);
    ConserveHandIn(s.workers, w, s.output, s.collected, s.taken, Out(s.workers[w].id, v));
  }

  lemma {:induction false} CheckKeeps(j: Jobs, s: State, w: nat)
    requires Inv(j, s) && Enabled(j, s, Check(w))
    ensures Inv(j, Next(j, s, Check(w)))
  {
    if s.threadExit {
      HandInKeeps(j, s, w, Broken);
    } else if j.skip(s.workers[w].id) {
      HandInKeeps(j, s, w, Skipped);
    } else {
      UpdateCounts(s.workers, w, Running(s.workers[w].id));
      ConserveSame(s.workers, w, Running(s.workers[w].id), s.output, s.collected, s.taken);
    }
  }

  lemma {:induction false} PutKeeps(j: Jobs, s: State, step: Step)
    requires Inv(j, s) && Enabled(j, s, step) && (step == PutJob || step == PutBreak)
    ensures Inv(j, Next(j, s, step))
  {
    QueuePut(s.input, s.taken, s.dispatched, s.breaks, ExitedCount(s.workers));
  }

  lemma {:induction false} CollectKeeps(j: Jobs, s: State)
    requires Inv(j, s) && Enabled(j, s, Collect)
    ensures Inv(j, Next(j, s, Collect))
  {
    ConserveCollect(s.workers, s.output, s.collected, s.taken);
  }

  /** Steps that move no job. */
  lemma {:induction false} QuietKeeps(j: Jobs, s: State, step: Step)
    requires Inv(j, s) && Enabled(j, s, step) && (step == Join || step == Interrupt)
    ensures Inv(j, Next(j, s, step))
  {
  }

  lemma {:induction false} StepKeepsInv(j: Jobs, s: State, step: Step)
    requires Inv(j, s) && Enabled(j, s, step)
    ensures Inv(j, Next(j, s, step))
  {
    match step
    case PutJob => PutKeeps(j, s, step);
    case PutBreak => PutKeeps(j, s, step);
    case Collect => CollectKeeps(j, s);
    case Join => QuietKeeps(j, s, step);
    case Get(w) => GetKeeps(j, s, w);
    case Check(w) => CheckKeeps(j, s, w);
    case Finish(w) => HandInKeeps(j, s, w, Ran(j.code(s.workers[w].id)));
    case Interrupt => QuietKeeps(j, s, step);
  }

  // ---------------------------------------------------------------------------
  // Runs

  /** The states of a run: each step is enabled when it is taken. */
  ghost predicate IsRun(j: Jobs, steps: seq<Step>, states: seq<State>) {
    && |states| == |steps| + 1
    && states[0] == Start(j)
    && forall i :: 0 <= i < |steps| ==> Enabled(j, states[i], steps[i]) && states[i + 1] == Next(j, states[i], steps[i])
  }

  lemma {:induction false} RunKeepsInv(j: Jobs, steps: seq<Step>, states: seq<State>, i: nat)
    requires IsRun(j, steps, states) && i < |states|
    ensures Inv(j, states[i])
  {
    if i == 0 {
      StartInv(j);
    } else {
      RunKeepsInv(j, steps, states, i - 1);
      assert Enabled(j, states[i - 1], steps[i - 1]) && states[i - 1 + 1] == Next(j, states[i - 1], steps[i - 1]);
      StepKeepsInv(j, states[i - 1], steps[i - 1]);
    }
  }

  // ---------------------------------------------------------------------------
  // Progress

  /** Steps still to come, whatever the schedule. */
  ghost function Remaining(j: Jobs, s: State): int {
    5 * (j.count - s.dispatched) + 4 * (s.dispatched - s.taken) + Effort(s.workers) + |s.output|
    + 2 * (j.workers - s.breaks) + (s.breaks - ExitedCount(s.workers)) + (j.workers - s.joined)
  }

  lemma {:induction false} GetCounts(j: Jobs, s: State, w: nat)
    requires Inv(j, s) && Enabled(j, s, Get(w))
    ensures Remaining(j, Next(j, s, Get(w))) < Remaining(j, s)
  {
    GetIs(j, s, w);
    var x := if s.taken < s.dispatched then Holding(s.taken) else Exited;
    UpdateCounts(s.workers, w, x);
    UpdateEffort(s.workers, w, x);
  }

  /** A worker that gets on with its job owes fewer steps, its output included. */
  lemma {:induction false} WorkerCounts(j: Jobs, s: State, w: nat, x: Worker, output: seq<Out>)
    requires w < |s.workers| && Busy(s.workers[w]) && x != Exited && |s.output| <= |output|
    requires Owed(x) + |output| < Owed(s.workers[w]) + |s.output|
    ensures Remaining(j, s.(workers := s.workers[w := x], output := output)) < Remaining(j, s)
  {
    UpdateCounts(s.workers, w, x);
    UpdateEffort(s.workers, w, x);
  }

  lemma {:induction false} CheckCounts(j: Jobs, s: State, step: Step, w: nat)
    requires Enabled(j, s, step) && (step == Check(w) || step == Finish(w))
    ensures Remaining(j, Next(j, s, step)) < Remaining(j, s)
  {
    var s' := Next(j, s, step);
    WorkerCounts(j, s, w, s'.workers[w], s'.output);
  }

  lemma {:induction false} EveryStepCounts(j: Jobs, s: State, step: Step)
    requires Inv(j, s) && Enabled(j, s, step)
    ensures Remaining(j, Next(j, s, step)) <= Remaining(j, s)
    ensures step != Interrupt ==> Remaining(j, Next(j, s, step)) < Remaining(j, s)
  {
    match step
    case Get(w) => GetCounts(j, s, w);
    case Check(w) => CheckCounts(j, s, step, w);
    case Finish(w) => CheckCounts(j, s, step, w);
    case _ =>
  }

  ghost function WorkSteps(steps: seq<Step>): nat {
    if steps == [] then 0 else WorkSteps(steps[..|steps| - 1]) + if steps[|steps| - 1] == Interrupt then 0 else 1
  }

  /** Every schedule is finite: it has at most 5 steps per job and 3 per worker, interrupts aside. */
  lemma {:induction false} RunsAreBounded(j: Jobs, steps: seq<Step>, states: seq<State>, i: nat)
    requires IsRun(j, steps, states) && i <= |steps|
    ensures WorkSteps(steps[..i]) + Remaining(j, states[i]) <= 5 * j.count + 3 * j.workers
    ensures Remaining(j, states[i]) >= 0
  {
    WorkIsPaid(j, steps, states, i);
    RunKeepsInv(j, steps, states, i);
  }

  lemma {:induction false} WorkIsPaid(j: Jobs, steps: seq<Step>, states: seq<State>, i: nat)
    requires IsRun(j, steps, states) && i <= |steps|
    ensures WorkSteps(steps[..i]) + Remaining(j, states[i]) <= Remaining(j, Start(j)) == 5 * j.count + 3 * j.workers
  {
    StartBound(j);
    if i > 0 {
      WorkIsPaid(j, steps, states, i - 1);
      OneStepCounts(j, steps, states, i - 1);
    }
  }

  lemma {:induction false} StartBound(j: Jobs)
    ensures Remaining(j, Start(j)) == 5 * j.count + 3 * j.workers
  {
    AllIdle(j.workers, 0);
  }

  lemma {:induction false} OneStepCounts(j: Jobs, steps: seq<Step>, states: seq<State>, i: nat)
    requires IsRun(j, steps, states) && i < |steps|
    ensures WorkSteps(steps[..i + 1]) + Remaining(j, states[i + 1]) <= WorkSteps(steps[..i]) + Remaining(j, states[i])
  {
    RunKeepsInv(j, steps, states, i);
    assert Enabled(j, states[i], steps[i]) && states[i + 1] == Next(j, states[i], steps[i]);
    EveryStepCounts(j, states[i], steps[i]);
    assert steps[..i + 1][..i] == steps[..i];
  }

  lemma {:induction false} AllExited(ws: seq<Worker>)
    ensures ExitedCount(ws) <= |ws|
    ensures ExitedCount(ws) == |ws| <==> forall w :: 0 <= w < |ws| ==> ws[w] == Exited
  {
    if ws != [] {
      AllExited(ws[..|ws| - 1]);
    }
  }

  lemma {:induction false} NobodyBusy(ws: seq<Worker>)
    requires forall w :: 0 <= w < |ws| ==> !Busy(ws[w])
    ensures BusyCount(ws) == 0
  {
    if ws != [] {
      NobodyBusy(ws[..|ws| - 1]);
    }
  }

  /**
   * With nobody busy and nothing to collect, an uncollected job is still on the input queue, and no worker has left.
   */
  lemma {:induction false} SomethingLeft(j: Jobs, s: State)
    requires Inv(j, s) && s.dispatched == j.count && |s.collected| < j.count && s.output == []
    requires forall w :: 0 <= w < |s.workers| ==> !Busy(s.workers[w])
    ensures s.input != [] && ExitedCount(s.workers) == 0
  {
    NobodyBusy(s.workers);
    RealsFirst(s.taken, s.dispatched);
  }

  /** In every reachable state short of the end somebody can move, so the collector never waits forever. */
  lemma {:induction false} NeverStuck(j: Jobs, s: State) returns (step: Step)
    requires j.workers > 0 && Inv(j, s) && !Done(j, s)
    ensures step != Interrupt && Enabled(j, s, step)
  {
    if s.dispatched < j.count {
      return PutJob;
    }
    if s.breaks < j.workers {
      return PutBreak;
    }
    if |s.collected| < j.count && s.output != [] {
      return Collect;
    }
    if w: nat :| w < |s.workers| && Busy(s.workers[w]) {
      return if s.workers[w].Holding? then Check(w) else Finish(w);
    }
    AllExited(s.workers);
    if |s.collected| < j.count {
      SomethingLeft(j, s);
      if s.workers[0] == Exited {
        OneExited(s.workers, 0);
        assert false;
      }
      return Get(0);
    }
    if s.workers[s.joined] == Exited {
      return Join;
    }
    var n := s.breaks - ExitedCount(s.workers);
    BreaksFirst(n);
    return Get(s.joined);
  }

  lemma {:induction false} OneExited(ws: seq<Worker>, w: nat)
    requires w < |ws| && ws[w] == Exited
    ensures ExitedCount(ws) > 0
  {
    if w < |ws| - 1 {
      OneExited(ws[..|ws| - 1], w);
    }
  }

  // ---------------------------------------------------------------------------
  // The end of a run

  /**
   * When the main thread is done: every job was collected exactly once, every worker has consumed exactly one break
   * and exited, and nothing is left on the queues.
   */
  lemma {:induction false} DoneMeansComplete(j: Jobs, s: State)
    requires Inv(j, s) && Done(j, s)
    ensures forall id: nat :: OutCount(s.collected, id) == if id < j.count then 1 else 0
    ensures (forall w :: 0 <= w < |s.workers| ==> s.workers[w] == Exited) && s.input == [] && s.output == []
    ensures s.breaks == j.workers
  {
    AllExited(s.workers);
    NobodyBusy(s.workers);
    forall id: nat ensures OutCount(s.collected, id) == if id < j.count then 1 else 0 {
      NobodyHolds(s.workers, id);
      assert Places(s.workers, s.output, s.collected, id) == if id < s.taken then 1 else 0;
    }
  }

  lemma {:induction false} NobodyHolds(ws: seq<Worker>, id: nat)
    requires forall w :: 0 <= w < |ws| ==> !Busy(ws[w])
    ensures HeldCount(ws, id) == 0
  {
    if ws != [] {
      NobodyHolds(ws[..|ws| - 1], id);
    }
  }

  predicate Good(o: Out) {
    o.verdict == Skipped || o.verdict == Ran(0)
  }

  /** The counting loop and the final comparison of `run_tests`. */
  method ReturnCode(j: Jobs, collected: seq<Out>) returns (code: int)
    requires |collected| == j.count
    ensures code == 0 || code == 1
    ensures code == 0 <==> forall i :: 0 <= i < |collected| ==> Good(collected[i])
  {
    var passed, skipped := 0, 0;
    for i := 0 to |collected|
      invariant passed + skipped <= i
      invariant passed + skipped == i <==> forall k :: 0 <= k < i ==> Good(collected[k])
    {
      match collected[i].verdict
      case Broken =>
      case Skipped => skipped := skipped + 1;
      case Ran(c) =>
        if c == 0 {
          passed := passed + 1;
        }
    }
    code := if passed + skipped == j.count then 0 else 1;
  }

  lemma {:induction false} FindOut(outs: seq<Out>, id: nat) returns (i: nat)
    requires OutCount(outs, id) > 0
    ensures i < |outs| && outs[i].id == id
  {
    if outs[|outs| - 1].id == id {
      i := |outs| - 1;
    } else {
      i := FindOut(outs[..|outs| - 1], id);
    }
  }

  lemma {:induction false} CountsOut(outs: seq<Out>, i: nat)
    requires i < |outs|
    ensures OutCount(outs, outs[i].id) > 0
  {
    if i < |outs| - 1 {
      CountsOut(outs[..|outs| - 1], i);
    }
  }

  /**
   * A run that returns 0 has passed or skipped every job, interrupted or not; a run that was never interrupted
   * returns 0 exactly in that case.
   */
  lemma {:induction false} ZeroMeansAllGood(j: Jobs, s: State)
    requires Inv(j, s) && Done(j, s)
    ensures (forall i :: 0 <= i < |s.collected| ==> Good(s.collected[i])) ==> forall id: nat :: id < j.count ==>
      j.skip(id) || j.code(id) == 0
    ensures !s.threadExit && (forall id: nat :: id < j.count ==> j.skip(id) || j.code(id) == 0) ==>
      forall i :: 0 <= i < |s.collected| ==> Good(s.collected[i])
  {
    DoneMeansComplete(j, s);
    if forall i :: 0 <= i < |s.collected| ==> Good(s.collected[i]) {
      forall id: nat | id < j.count ensures j.skip(id) || j.code(id) == 0 {
        var i := FindOut(s.collected, id);
        assert Honest(j, s.collected[i], s.threadExit) && Good(s.collected[i]);
      }
    }
    if !s.threadExit && (forall id: nat :: id < j.count ==> j.skip(id) || j.code(id) == 0) {
      forall i | 0 <= i < |s.collected| ensures Good(s.collected[i]) {
        CountsOut(s.collected, i);
        assert Honest(j, s.collected[i], s.threadExit);
      }
    }
  }

  // ---------------------------------------------------------------------------
  // After an interrupt

  /** From an interrupt on: the flag stays up, and a job checked comes out broken and is not run. */
  lemma {:induction false} AfterInterrupt(j: Jobs, steps: seq<Step>, states: seq<State>, i: nat, k: nat)
    requires IsRun(j, steps, states) && i < k <= |steps| && steps[i] == Interrupt
    ensures states[k].threadExit
    ensures k < |steps| && steps[k].Check? ==>
      var w := steps[k].w;
      && w < |states[k].workers| && states[k].workers[w].Holding?
      && states[k + 1].output == states[k].output + [Out(states[k].workers[w].id, Broken)]
      && states[k + 1].workers == states[k].workers[w := Idle]
    ensures k < |steps| ==>
      forall w :: 0 <= w < |states[k].workers| && w < |states[k + 1].workers| && states[k + 1].workers[w].Running? ==>
        states[k].workers[w] == states[k + 1].workers[w]
    decreases k
  {
    assert Enabled(j, states[k - 1], steps[k - 1]) && states[k - 1 + 1] == Next(j, states[k - 1], steps[k - 1]);
    if i < k - 1 {
      AfterInterrupt(j, steps, states, i, k - 1);
    }
    if k < |steps| {
      assert Enabled(j, states[k], steps[k]) && states[k + 1] == Next(j, states[k], steps[k]);
    }
  }

  /** A verdict once given is on the output queue or collected. */
  ghost predicate Given(s: State, o: Out) {
    o in s.output || o in s.collected
  }

  lemma {:induction false} GivenStays(j: Jobs, steps: seq<Step>, states: seq<State>, i: nat, k: nat, o: Out)
    requires IsRun(j, steps, states) && i <= k < |states| && Given(states[i], o)
    ensures Given(states[k], o)
    decreases k
  {
    if i < k {
      GivenStays(j, steps, states, i, k - 1, o);
      assert Enabled(j, states[k - 1], steps[k - 1]) && states[k - 1 + 1] == Next(j, states[k - 1], steps[k - 1]);
      StepKeepsGiven(j, states[k - 1], steps[k - 1], o);
    }
  }

  lemma StepKeepsGiven(j: Jobs, s: State, step: Step, o: Out)
    requires Enabled(j, s, step) && Given(s, o)
    ensures Given(Next(j, s, step), o)
  {
    if step == Collect && o in s.output {
      assert s.output == [s.output[0]] + s.output[1..];
    }
  }

  /** So a finished run in which some job was checked after an interrupt returns 1. */
  method InterruptedCode(j: Jobs, ghost steps: seq<Step>, ghost states: seq<State>, ghost i: nat, ghost k: nat,
                         end: State)
    returns (code: int)
    requires IsRun(j, steps, states) && i < k < |steps| && steps[i] == Interrupt && steps[k].Check?
    requires end == states[|steps|] && Done(j, end)
    ensures code == 1
  {
    AfterInterrupt(j, steps, states, i, k);
    ghost var o := Out(states[k].workers[steps[k].w].id, Broken);
    GivenStays(j, steps, states, k + 1, |steps|, o);
    RunKeepsInv(j, steps, states, |steps|);
    DoneMeansComplete(j, end);
    code := ReturnCode(j, end.collected);
    ghost var n :| 0 <= n < |end.collected| && end.collected[n] == o;
    assert !Good(end.collected[n]);
  }

  // ---------------------------------------------------------------------------
  // The return code of a whole run

  /** The flag is up exactly after an interrupt. */
  lemma {:induction false} FlagMeansInterrupt(j: Jobs, steps: seq<Step>, states: seq<State>, k: nat)
    requires IsRun(j, steps, states) && k < |states|
    ensures states[k].threadExit <==> exists i :: 0 <= i < k && steps[i] == Interrupt
  {
    if k > 0 {
      FlagMeansInterrupt(j, steps, states, k - 1);
      assert Enabled(j, states[k - 1], steps[k - 1]) && states[k - 1 + 1] == Next(j, states[k - 1], steps[k - 1]);
      if steps[k - 1] != Interrupt && states[k].threadExit {
        var i :| 0 <= i < k - 1 && steps[i] == Interrupt;
        assert 0 <= i < k;
      }
    }
  }

  /** A run may be interrupted after any of its steps. */
  lemma CanInterrupt(j: Jobs, steps: seq<Step>, states: seq<State>)
    requires IsRun(j, steps, states)
    ensures IsRun(j, steps + [Interrupt], states + [states[|steps|].(threadExit := true)])
  {
    var more, after := steps + [Interrupt], states + [states[|steps|].(threadExit := true)];
    forall i | 0 <= i < |more| ensures Enabled(j, after[i], more[i]) && after[i + 1] == Next(j, after[i], more[i]) {
      if i < |steps| {
        assert Enabled(j, states[i], steps[i]) && states[i + 1] == Next(j, states[i], steps[i]);
        assert after[i] == states[i] && after[i + 1] == states[i + 1] && more[i] == steps[i];
      }
    }
  }

  /**
   * A finished run that returns 0 has passed or skipped every job; without an interrupt it returns 0 exactly in that
   * case.
   */
  method RunCode(j: Jobs, ghost steps: seq<Step>, ghost states: seq<State>, end: State) returns (code: int)
    requires IsRun(j, steps, states) && end == states[|steps|] && Done(j, end)
    ensures code == 0 || code == 1
    ensures code == 0 ==> forall id: nat :: id < j.count ==> j.skip(id) || j.code(id) == 0
    ensures Interrupt !in steps && (forall id: nat :: id < j.count ==> j.skip(id) || j.code(id) == 0) ==> code == 0
  {
    RunKeepsInv(j, steps, states, |steps|);
    FlagMeansInterrupt(j, steps, states, |steps|);
    ZeroMeansAllGood(j, end);
    DoneMeansComplete(j, end);
    code := ReturnCode(j, end.collected);
  }
}
