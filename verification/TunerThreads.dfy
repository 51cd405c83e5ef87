/** The monitor loop and the tuning threads it starts, sharing a flag without a lock, as interleaved steps. */
module TunerThreads {

  datatype Reason = InitialObservation | KlDivergence | Observation

  datatype Choice = NoTrigger | Trigger(reason: Reason)

  /** Where the monitor loop is; `is_tuning` is read at `FirstTest` and again at `SecondTest`. */
  datatype MonitorPc =
    | Poll | FirstTest | SecondTest
    | Summarize(choice: Choice) | SetFlag(reason: Reason) | Spawn(reason: Reason)
    | Update

  /** A tuning thread: `Tuning` until it clears the flag, or until an exception kills it with the flag still set. */
  datatype ThreadPc = Tuning | Cleared | Dead

  /** `born` is the number of the non-empty observation that triggered the thread. */
  datatype Thread = Thread(reason: Reason, born: nat, pc: ThreadPc)

  /** `writes` lists which thread made each write to the parameter file; `seen` counts the non-empty observations. */
  datatype State = State(pc: MonitorPc, isTuning: bool, previousUnset: bool, seen: nat, threads: seq<Thread>,
                         writes: seq<nat>)

  const START: State := State(Poll, false, true, 0, [], [])

  datatype Step =
    | ObserveNothing              // unchanged file, or no flows in it
    | ObserveFlows
    | TestFirst
    | TestSecond(klAbove: bool)
    | WriteSummary
    | RaiseFlag
    | StartThread
    | UpdatePrevious
    | WriteParameters(t: nat)
    | ClearFlag(t: nat)
    | Die(t: nat)

  predicate Live(s: State, t: nat) {
    t < |s.threads| && s.threads[t].pc == Tuning
  }

  predicate Enabled(s: State, step: Step) {
    match step
    case ObserveNothing => s.pc == Poll
    case ObserveFlows => s.pc == Poll
    case TestFirst => s.pc == FirstTest
    case TestSecond(_) => s.pc == SecondTest
    case WriteSummary => s.pc.Summarize?
    case RaiseFlag => s.pc.SetFlag?
    case StartThread => s.pc.Spawn?
    case UpdatePrevious => s.pc == Update
    case WriteParameters(t) => Live(s, t)
    case ClearFlag(t) => Live(s, t)
    case Die(t) => Live(s, t)
  }

  /**
   * The first test of the flag: in collect-only mode it decides alone, otherwise it only looks for the initial
   * observation.
   */
  function FirstChoice(collectOnly: bool, s: State): MonitorPc {
    if collectOnly then
      Summarize(if s.isTuning then NoTrigger else Trigger(if s.previousUnset then InitialObservation else Observation))
    else if s.previousUnset && !s.isTuning then Summarize(Trigger(InitialObservation))
    else SecondTest
  }

  function Next(collectOnly: bool, s: State, step: Step): State
    requires Enabled(s, step)
  {
    match step
    case ObserveNothing => s
    case ObserveFlows => s.(pc := FirstTest, seen := s.seen + 1)
    case TestFirst => s.(pc := FirstChoice(collectOnly, s))
    case TestSecond(klAbove) => s.(pc := Summarize(if klAbove && !s.isTuning then Trigger(KlDivergence) else NoTrigger))
    case WriteSummary => s.(pc := if s.pc.choice.NoTrigger? then Update else SetFlag(s.pc.choice.reason))
    case RaiseFlag => s.(pc := Spawn(s.pc.reason), isTuning := true)
    case StartThread => s.(pc := Update, threads := s.threads + [Thread(s.pc.reason, s.seen, Tuning)])
    case UpdatePrevious => s.(pc := Poll, previousUnset := false)
    case WriteParameters(t) => s.(writes := s.writes + [t])
    case ClearFlag(t) => s.(isTuning := false, threads := s.threads[t := s.threads[t].(pc := Cleared)])
    case Die(t) => s.(threads := s.threads[t := s.threads[t].(pc := Dead)])
  }

  // ---------------------------------------------------------------------------
  // The invariant

  /** The monitor has decided to start a session and has not yet raised the flag. */
  predicate Deciding(pc: MonitorPc) {
    (pc.Summarize? && pc.choice.Trigger?) || pc.SetFlag?
  }

  predicate Unfinished(s: State) {
    s.threads != [] && s.threads[|s.threads| - 1].pc != Cleared
  }

  /** Only the youngest thread can be anything but cleared. */
  ghost predicate OldOnesCleared(threads: seq<Thread>) {
    forall t :: 0 <= t < |threads| - 1 ==> threads[t].pc == Cleared
  }

  /** The flag is raised exactly while a thread is about to start or has not cleared it. */
  ghost predicate FlagExact(s: State) {
    && (s.isTuning <==> s.pc.Spawn? || Unfinished(s))
    && (s.pc.Spawn? ==> !Unfinished(s))
    && (Deciding(s.pc) ==> !s.isTuning)
  }

  /** Writes come in the order of the threads, and only the youngest thread may still write. */
  ghost predicate WritesInOrder(s: State) {
    && (forall a, b :: 0 <= a < b < |s.writes| ==> s.writes[a] <= s.writes[b])
    && (forall a :: 0 <= a < |s.writes| ==> s.writes[a] < |s.threads|)
  }

  predicate PendingReason(pc: MonitorPc, r: Reason) {
    pc == Summarize(Trigger(r)) || pc == SetFlag(r) || pc == Spawn(r)
  }

  /**
   * The previous ratio is unset exactly until the first non-empty observation has been dealt with, which starts a
   * thread.
   */
  ghost predicate FirstPending(s: State) {
    && (s.previousUnset <==> s.seen == 0 || (s.seen == 1 && s.pc != Poll))
    && (s.pc != Poll ==> s.seen > 0)
    && (s.threads == [] ==>
          s.seen == 0 || (s.seen == 1 && (s.pc == FirstTest || PendingReason(s.pc, InitialObservation))))
    && (s.threads != [] ==> s.seen > 1 || (s.seen == 1 && (s.pc == Update || s.pc == Poll)))
  }

  ghost predicate ReasonsFit(s: State) {
    && (s.pc.Summarize? && s.pc.choice.Trigger? ==> (s.pc.choice.reason == InitialObservation <==> s.seen == 1))
    && (s.pc.SetFlag? ==> (s.pc.reason == InitialObservation <==> s.seen == 1))
    && (s.pc.Spawn? ==> (s.pc.reason == InitialObservation <==> s.seen == 1))
  }

  /** Each thread comes from its own observation, and the initial one from the first. */
  ghost predicate Ancestry(threads: seq<Thread>, seen: nat) {
    && (forall t :: 0 <= t < |threads| ==> 1 <= threads[t].born <= seen)
    && (forall t :: 0 <= t < |threads| ==> (threads[t].reason == InitialObservation <==> threads[t].born == 1))
    && (forall t, u :: 0 <= t < u < |threads| ==> threads[t].born < threads[u].born)
  }

  ghost predicate BornInOrder(s: State) {
    && Ancestry(s.threads, s.seen)
    && (s.pc != Poll && s.pc != Update ==> s.seen > 0 && Ancestry(s.threads, s.seen - 1))
  }

  ghost predicate FirstOnly(s: State) {
    FirstPending(s) && ReasonsFit(s) && BornInOrder(s)
  }

  ghost predicate Inv(s: State) {
    OldOnesCleared(s.threads) && FlagExact(s) && WritesInOrder(s) && FirstOnly(s)
  }

  lemma StepKeepsFlag(collectOnly: bool, s: State, step: Step)
    requires Enabled(s, step) && OldOnesCleared(s.threads) && FlagExact(s)
    ensures OldOnesCleared(Next(collectOnly, s, step).threads) && FlagExact(Next(collectOnly, s, step))
  {
  }

  lemma StepKeepsWrites(collectOnly: bool, s: State, step: Step)
    requires Enabled(s, step) && OldOnesCleared(s.threads) && WritesInOrder(s)
    ensures WritesInOrder(Next(collectOnly, s, step))
  {
  }

  lemma StepKeepsPending(collectOnly: bool, s: State, step: Step)
    requires Enabled(s, step) && FlagExact(s) && FirstPending(s) && ReasonsFit(s)
    ensures FirstPending(Next(collectOnly, s, step)) && ReasonsFit(Next(collectOnly, s, step))
  {
  }

  lemma SameAncestry(threads: seq<Thread>, t: nat, pc: ThreadPc, seen: nat)
    requires t < |threads| && Ancestry(threads, seen)
    ensures Ancestry(threads[t := threads[t].(pc := pc)], seen)
  {
  }

  lemma LaterAncestry(threads: seq<Thread>, seen: nat, later: nat)
    requires Ancestry(threads, seen) && seen <= later
    ensures Ancestry(threads, later)
  {
  }

  lemma NewAncestry(threads: seq<Thread>, seen: nat, reason: Reason)
    requires seen > 0 && Ancestry(threads, seen - 1) && (reason == InitialObservation <==> seen == 1)
    ensures Ancestry(threads + [Thread(reason, seen, Tuning)], seen)
  {
  }

  lemma StepKeepsBorn(collectOnly: bool, s: State, step: Step)
    requires Enabled(s, step) && FirstPending(s) && ReasonsFit(s) && BornInOrder(s)
    ensures BornInOrder(Next(collectOnly, s, step))
  {
    match step
    case ObserveFlows => LaterAncestry(s.threads, s.seen, s.seen + 1);
    case StartThread => NewAncestry(s.threads, s.seen, s.pc.reason);
    case ClearFlag(t) =>
      SameAncestry(s.threads, t, Cleared, s.seen);
      if s.pc != Poll && s.pc != Update {
        SameAncestry(s.threads, t, Cleared, s.seen - 1);
      }
    case Die(t) =>
      SameAncestry(s.threads, t, Dead, s.seen);
      if s.pc != Poll && s.pc != Update {
        SameAncestry(s.threads, t, Dead, s.seen - 1);
      }
    case _ =>
  }

  // ---------------------------------------------------------------------------
  // Runs

  ghost predicate IsRun(collectOnly: bool, steps: seq<Step>, states: seq<State>) {
    && |states| == |steps| + 1
    && states[0] == START
    && forall i :: 0 <= i < |steps| ==>
         Enabled(states[i], steps[i]) && states[i + 1] == Next(collectOnly, states[i], steps[i])
  }

  lemma {:induction false} RunKeepsInv(collectOnly: bool, steps: seq<Step>, states: seq<State>, i: nat)
    requires IsRun(collectOnly, steps, states) && i < |states|
    ensures Inv(states[i])
  {
    if i > 0 {
      RunKeepsInv(collectOnly, steps, states, i - 1);
      assert Enabled(states[i - 1], steps[i - 1]) && states[i - 1 + 1]
          == Next(collectOnly, states[i - 1], steps[i - 1]);
      StepKeepsFlag(collectOnly, states[i - 1], steps[i - 1]);
      StepKeepsWrites(collectOnly, states[i - 1], steps[i - 1]);
      StepKeepsPending(collectOnly, states[i - 1], steps[i - 1]);
      StepKeepsBorn(collectOnly, states[i - 1], steps[i - 1]);
    }
  }

  /** At most one session is live, and no session is live while the flag is down. */
  lemma AtMostOneLive(collectOnly: bool, steps: seq<Step>, states: seq<State>, i: nat)
    requires IsRun(collectOnly, steps, states) && i < |states|
    ensures forall t, u :: Live(states[i], t) && Live(states[i], u) ==> t == u
    ensures !states[i].isTuning ==> forall t: nat :: !Live(states[i], t)
  {
    RunKeepsInv(collectOnly, steps, states, i);
  }

  /** Once the flag is down again, none of the sessions started so far ever writes. */
  lemma {:induction false} NoWriteAfterClear(collectOnly: bool, steps: seq<Step>, states: seq<State>, i: nat, k: nat,
                                             t: nat)
    requires IsRun(collectOnly, steps, states) && i <= k < |steps|
    requires !states[i].isTuning && t < |states[i].threads|
    ensures steps[k] != WriteParameters(t)
  {
    AtMostOneLive(collectOnly, steps, states, i);
    StaysDown(collectOnly, steps, states, i, k, t);
    assert Enabled(states[k], steps[k]);
  }

  lemma {:induction false} StaysDown(collectOnly: bool, steps: seq<Step>, states: seq<State>, i: nat, k: nat, t: nat)
    requires IsRun(collectOnly, steps, states) && i <= k < |states|
    requires t < |states[i].threads| && !Live(states[i], t)
    ensures t < |states[k].threads| && !Live(states[k], t)
  {
    if i < k {
      StaysDown(collectOnly, steps, states, i, k - 1, t);
      assert Enabled(states[k - 1], steps[k - 1]) && states[k - 1 + 1]
          == Next(collectOnly, states[k - 1], steps[k - 1]);
    }
  }

  /** Between two writes of one session there is no write of another. */
  lemma WritesDoNotInterleave(collectOnly: bool, steps: seq<Step>, states: seq<State>, i: nat, a: nat, b: nat, c: nat)
    requires IsRun(collectOnly, steps, states) && i < |states| && a <= b <= c < |states[i].writes|
    requires states[i].writes[a] == states[i].writes[c]
    ensures states[i].writes[b] == states[i].writes[a]
  {
    RunKeepsInv(collectOnly, steps, states, i);
    assert a < b ==> states[i].writes[a] <= states[i].writes[b];
    assert b < c ==> states[i].writes[b] <= states[i].writes[c];
  }

  /** Exactly the thread of the first non-empty observation is an initial one, and that observation always starts it. */
  lemma InitialFiresOnce(collectOnly: bool, steps: seq<Step>, states: seq<State>, i: nat)
    requires IsRun(collectOnly, steps, states) && i < |states|
    ensures forall t :: 0 <= t < |states[i].threads| ==>
      (states[i].threads[t].reason == InitialObservation <==> t == 0) && (states[i].threads[t].born == 1 <==> t == 0)
    ensures states[i].pc == Poll && states[i].seen > 0 ==> states[i].threads != []
  {
    RunKeepsInv(collectOnly, steps, states, i);
    FirstIsBornFirst(collectOnly, steps, states, i);
  }

  lemma {:induction false} FirstIsBornFirst(collectOnly: bool, steps: seq<Step>, states: seq<State>, i: nat)
    requires IsRun(collectOnly, steps, states) && i < |states|
    ensures states[i].threads != [] ==> states[i].threads[0].born == 1
  {
    if i > 0 {
      FirstIsBornFirst(collectOnly, steps, states, i - 1);
      RunKeepsInv(collectOnly, steps, states, i - 1);
      assert Enabled(states[i - 1], steps[i - 1]) && states[i - 1 + 1]
          == Next(collectOnly, states[i - 1], steps[i - 1]);
    }
  }

  // ---------------------------------------------------------------------------
  // Exactly which observations start a session

  /** The step finds the flag down and a reason to tune: the first observation, collect-only mode, or the divergence. */
  predicate Fires(collectOnly: bool, s: State, step: Step) {
    match step
    case TestFirst => !s.isTuning && (collectOnly || s.seen == 1)
    case TestSecond(klAbove) => klAbove && !s.isTuning
    case _ => false
  }

  /** Some test of observation `k` among the first `n` steps fired. */
  ghost predicate Fired(collectOnly: bool, steps: seq<Step>, states: seq<State>, n: nat, k: nat)
    requires n <= |steps| && |states| == |steps| + 1
  {
    exists i :: 0 <= i < n && states[i].seen == k && Fires(collectOnly, states[i], steps[i])
  }

  ghost predicate HasThread(s: State, k: nat) {
    exists t :: 0 <= t < |s.threads| && s.threads[t].born == k
  }

  /** The reason with which observation `k` starts a session. */
  function ReasonOf(collectOnly: bool, k: nat): Reason {
    if k == 1 then InitialObservation else if collectOnly then Observation else KlDivergence
  }

  /** The thread of observation `k` is there, or about to be. */
  ghost predicate Started(s: State, k: nat) {
    HasThread(s, k) || (k == s.seen && (Deciding(s.pc) || s.pc.Spawn?))
  }

  ghost predicate RightReasons(collectOnly: bool, s: State) {
    && (forall t :: 0 <= t < |s.threads| ==> s.threads[t].reason == ReasonOf(collectOnly, s.threads[t].born))
    && (s.pc.Summarize? && s.pc.choice.Trigger? ==> s.pc.choice.reason == ReasonOf(collectOnly, s.seen))
    && (s.pc.SetFlag? ==> s.pc.reason == ReasonOf(collectOnly, s.seen))
    && (s.pc.Spawn? ==> s.pc.reason == ReasonOf(collectOnly, s.seen))
    && (collectOnly ==> s.pc != SecondTest)
    && (s.pc == SecondTest ==> s.seen != 1)
  }

  /** One step starts the session of an observation exactly when it fires for it. */
  lemma StepStarts(collectOnly: bool, s: State, step: Step, k: nat)
    requires Enabled(s, step) && FlagExact(s) && FirstPending(s) && BornInOrder(s) && RightReasons(collectOnly, s)
    ensures Started(Next(collectOnly, s, step), k)
       <==> Started(s, k) || (s.seen == k && Fires(collectOnly, s, step))
  {
    SameThreads(collectOnly, s, step, k);
    if s.pc == Poll && step == ObserveFlows {
      assert k == s.seen + 1 ==> !HasThread(s, k);
    }
  }

  lemma SameThreads(collectOnly: bool, s: State, step: Step, k: nat)
    requires Enabled(s, step)
    ensures HasThread(Next(collectOnly, s, step), k) <==> HasThread(s, k) || (step == StartThread && s.seen == k)
  {
    var threads := Next(collectOnly, s, step).threads;
    if HasThread(s, k) {
      var t :| 0 <= t < |s.threads| && s.threads[t].born == k;
      assert threads[t].born == k;
    }
    if step == StartThread && s.seen == k {
      assert threads[|s.threads|].born == k;
    }
    if HasThread(Next(collectOnly, s, step), k) {
      var t :| 0 <= t < |threads| && threads[t].born == k;
      assert t < |s.threads| ==> s.threads[t].born == k;
    }
  }

  lemma StepKeepsReasons(collectOnly: bool, s: State, step: Step)
    requires Enabled(s, step) && FlagExact(s) && FirstPending(s) && RightReasons(collectOnly, s)
    ensures RightReasons(collectOnly, Next(collectOnly, s, step))
  {
    var s' := Next(collectOnly, s, step);
    forall t | 0 <= t < |s'.threads| ensures s'.threads[t].reason == ReasonOf(collectOnly, s'.threads[t].born) {
      assert t < |s.threads| ==> s'.threads[t].reason == s.threads[t].reason && s'.threads[t].born == s.threads[t].born;
    }
  }

  lemma FiredNext(collectOnly: bool, steps: seq<Step>, states: seq<State>, n: nat, k: nat)
    requires n < |steps| && |states| == |steps| + 1
    ensures Fired(collectOnly, steps, states, n + 1, k)
       <==> Fired(collectOnly, steps, states, n, k) || (states[n].seen == k && Fires(collectOnly, states[n], steps[n]))
  {
    if i :| 0 <= i < n && states[i].seen == k && Fires(collectOnly, states[i], steps[i]) {
      assert 0 <= i < n + 1;
    }
  }

  lemma {:induction false} StartedIsFired(collectOnly: bool, steps: seq<Step>, states: seq<State>, n: nat, k: nat)
    requires IsRun(collectOnly, steps, states) && n < |states|
    ensures Started(states[n], k) <==> Fired(collectOnly, steps, states, n, k)
    ensures RightReasons(collectOnly, states[n])
  {
    if n > 0 {
      StartedIsFired(collectOnly, steps, states, n - 1, k);
      RunKeepsInv(collectOnly, steps, states, n - 1);
      assert Enabled(states[n - 1], steps[n - 1])
          && states[n - 1 + 1] == Next(collectOnly, states[n - 1], steps[n - 1]);
      StepStarts(collectOnly, states[n - 1], steps[n - 1], k);
      StepKeepsReasons(collectOnly, states[n - 1], steps[n - 1]);
      FiredNext(collectOnly, steps, states, n - 1, k);
    }
  }

  /** The deciding test of the mode finds the flag down, and outside collect-only mode the divergence above. */
  predicate FoundDown(collectOnly: bool, s: State, step: Step) {
    !s.isTuning && step == if collectOnly then TestFirst else TestSecond(true)
  }

  /**
   * Whenever the monitor is back at polling: observation `k` has started a session exactly when it is the first one, or
   * one of its tests found the flag down, in collect-only mode the first test, otherwise the second one with the
   * divergence above the threshold.
   */
  lemma SessionsAreTriggered(collectOnly: bool, steps: seq<Step>, states: seq<State>, n: nat, k: nat)
    requires IsRun(collectOnly, steps, states) && n < |states| && states[n].pc == Poll && 1 <= k <= states[n].seen
    ensures HasThread(states[n], k) <==>
      k == 1 || exists i :: 0 <= i < n && states[i].seen == k && FoundDown(collectOnly, states[i], steps[i])
    ensures forall t :: 0 <= t < |states[n].threads| && states[n].threads[t].born == k ==>
      states[n].threads[t].reason
        == if k == 1 then InitialObservation else if collectOnly then Observation else KlDivergence
  {
    StartedIsFired(collectOnly, steps, states, n, k);
    if k == 1 {
      InitialFiresOnce(collectOnly, steps, states, n);
      assert states[n].threads[0].born == 1;
    } else {
      if HasThread(states[n], k) {
        var i :| 0 <= i < n && states[i].seen == k && Fires(collectOnly, states[i], steps[i]);
        TestOfMode(collectOnly, steps, states, i);
      }
      if i :| 0 <= i < n && states[i].seen == k && FoundDown(collectOnly, states[i], steps[i]) {
        assert Fires(collectOnly, states[i], steps[i]);
      }
    }
  }

  lemma TestOfMode(collectOnly: bool, steps: seq<Step>, states: seq<State>, i: nat)
    requires IsRun(collectOnly, steps, states) && i < |steps|
    requires states[i].seen != 1 && Fires(collectOnly, states[i], steps[i])
    ensures FoundDown(collectOnly, states[i], steps[i])
  {
    StartedIsFired(collectOnly, steps, states, i, 0);
    assert Enabled(states[i], steps[i]);
  }

  // ---------------------------------------------------------------------------
  // What the monitor does with one observation when no thread moves meanwhile

  ghost predicate Leads(collectOnly: bool, s: State, steps: seq<Step>, s': State)
    decreases |steps|
  {
    if steps == [] then s' == s else
      Enabled(s, steps[0]) && Leads(collectOnly, Next(collectOnly, s, steps[0]), steps[1..], s')
  }

  lemma First(collectOnly: bool, s: State, step: Step, rest: seq<Step>, s': State)
    requires Enabled(s, step) && Leads(collectOnly, Next(collectOnly, s, step), rest, s')
    ensures Leads(collectOnly, s, [step] + rest, s')
  {
    assert ([step] + rest)[1..] == rest;
  }

  lemma FromSummary(collectOnly: bool, s: State) returns (steps: seq<Step>, s': State)
    requires s.pc.Summarize?
    ensures Leads(collectOnly, s, steps, s')
    ensures s' == match s.pc.choice
      case NoTrigger => s.(pc := Poll, previousUnset := false)
      case Trigger(r) => s.(pc := Poll, previousUnset := false, isTuning := true,
                            threads := s.threads + [Thread(r, s.seen, Tuning)])
  {
    var noted := Next(collectOnly, s, WriteSummary);
    if s.pc.choice.NoTrigger? {
      steps, s' := [UpdatePrevious], Next(collectOnly, noted, UpdatePrevious);
      First(collectOnly, noted, UpdatePrevious, [], s');
    } else {
      var raised := Next(collectOnly, noted, RaiseFlag);
      var started := Next(collectOnly, raised, StartThread);
      s' := Next(collectOnly, started, UpdatePrevious);
      First(collectOnly, started, UpdatePrevious, [], s');
      First(collectOnly, raised, StartThread, [UpdatePrevious], s');
      First(collectOnly, noted, RaiseFlag, [StartThread] + [UpdatePrevious], s');
      steps := [RaiseFlag] + ([StartThread] + [UpdatePrevious]);
    }
    First(collectOnly, s, WriteSummary, steps, s');
    steps := [WriteSummary] + steps;
  }

  /**
   * From polling, an empty and then a non-empty observation bring the monitor back to polling, with one more session
   * exactly if the flag is down and the mode, the first observation or the divergence asks for one.
   */
  lemma ObservationEnds(collectOnly: bool, s: State, klAbove: bool) returns (steps: seq<Step>, s': State)
    requires s.pc == Poll
    ensures Leads(collectOnly, s, [ObserveNothing, ObserveFlows] + steps, s')
    ensures s'.pc == Poll && s'.seen == s.seen + 1 && !s'.previousUnset && s'.writes == s.writes
    ensures if !s.isTuning && (collectOnly || s.previousUnset || klAbove)
      then s'.isTuning && s'.threads == s.threads + [Thread(
        if s.previousUnset then InitialObservation else if collectOnly then Observation else KlDivergence,
        s.seen + 1, Tuning)]
      else s'.isTuning == s.isTuning && s'.threads == s.threads
  {
    var seen := Next(collectOnly, s, ObserveFlows);
    var tested := Next(collectOnly, seen, TestFirst);
    if tested.pc == SecondTest {
      steps, s' := FromSummary(collectOnly, Next(collectOnly, tested, TestSecond(klAbove)));
      First(collectOnly, tested, TestSecond(klAbove), steps, s');
      steps := [TestSecond(klAbove)] + steps;
    } else {
      steps, s' := FromSummary(collectOnly, tested);
    }
    First(collectOnly, seen, TestFirst, steps, s');
    steps := [TestFirst] + steps;
    First(collectOnly, s, ObserveFlows, steps, s');
    First(collectOnly, s, ObserveNothing, [ObserveFlows] + steps, s');
    assert [ObserveNothing] + ([ObserveFlows] + steps) == [ObserveNothing, ObserveFlows] + steps;
  }

  /** A session's writes, however many, and then the end of it, which takes the flag down. */
  lemma {:induction false} SessionEnds(collectOnly: bool, s: State, t: nat, n: nat)
    returns (steps: seq<Step>, s': State)
    requires Live(s, t)
    ensures Leads(collectOnly, s, steps, s')
    ensures s'.pc == s.pc && !s'.isTuning && s'.writes == s.writes + seq(n, _ => t)
    ensures s'.threads == s.threads[t := Thread(s.threads[t].reason, s.threads[t].born, Cleared)]
    decreases n
  {
    var step := if n == 0 then ClearFlag(t) else WriteParameters(t);
    var next := Next(collectOnly, s, step);
    if n == 0 {
      steps, s' := [], next;
    } else {
      steps, s' := SessionEnds(collectOnly, next, t, n - 1);
      assert s.writes + [t] + seq(n - 1, _ => t) == s.writes + seq(n, _ => t);
    }
    First(collectOnly, s, step, steps, s');
    steps := [step] + steps;
  }
}
