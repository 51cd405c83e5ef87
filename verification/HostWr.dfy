/** The per-host work-request tables: direct-mapped, 1024 slots, evicting on collision, swept by the periodic report. */
module HostWr {
  import opened Collections
  import opened Mixer

  /** A work request: its host and its queue-pair key. */
  datatype Id = Id(host: nat, key: nat)

  datatype Entry = Entry(valid: bool, key: nat, completed: nat, size: nat, lastReported: nat, finished: bool)

  const BLANK: Entry := Entry(false, 0, 0, 0, U64 - 1, false)

  type Tables = map<nat, seq<Entry>>

  // ---------------------------------------------------------------------------
  // The tables as values

  /** The table of a host, created blank on first use. */
  function TableOf(t: Tables, h: nat): seq<Entry> {
    if h in t then t[h] else seq(TABLE_SIZE, _ => BLANK)
  }

  ghost predicate EntryOk(e: Entry) {
    e.completed <= e.size && (e.finished <==> e.completed == e.size)
  }

  /** A valid entry sits at the slot of its key, with consistent progress; the others are blank. */
  ghost predicate Placed(e: Entry, s: nat) {
    if e.valid then Slot(e.key) == s && EntryOk(e) else e == BLANK
  }

  ghost predicate Inv(t: Tables) {
    forall h <- t :: |t[h]| == TABLE_SIZE && forall s :: 0 <= s < TABLE_SIZE ==> Placed(t[h][s], s)
  }

  /** The entry stored for a work request. */
  ghost function Lookup(t: Tables, id: Id): Option<Entry>
    requires Inv(t)
  {
    var e := TableOf(t, id.host)[Slot(id.key)];
    if e.valid && e.key == id.key then Some(e) else None
  }

  ghost function Live(t: Tables): set<Id> {
    set h, s | h in t && 0 <= s < |t[h]| && t[h][s].valid :: Id(h, t[h][s].key)
  }

  lemma LiveIsStored(t: Tables, id: Id)
    requires Inv(t)
    ensures id in Live(t) <==> Lookup(t, id).Some?
  {
    if Lookup(t, id).Some? {
      assert t[id.host][Slot(id.key)].valid;
    }
  }

  /** In every reachable state a work request is stored at most once. */
  lemma StoredOnce(t: Tables, h: nat, s: nat, s': nat)
    requires Inv(t) && h in t && s < TABLE_SIZE && s' < TABLE_SIZE
    requires t[h][s].valid && t[h][s'].valid && t[h][s].key == t[h][s'].key
    ensures s == s'
  {
    assert Placed(t[h][s], s) && Placed(t[h][s'], s');
  }

  // ---------------------------------------------------------------------------
  // The two operations on values

  /** The progress an update writes. */
  function Completed(una: nat, size: nat, finished: bool): nat {
    if finished then size else if una < size then una else size
  }

  /** Upsert, then write the progress. */
  function Written(e: Entry, key: nat, una: nat, size: nat, finished: bool): Entry {
    var base := if e.valid && e.key == key then e else BLANK.(valid := true, key := key);
    var c := Completed(una, size, finished);
    base.(completed := c, size := size, finished := finished || c >= size)
  }

  function Update(t: Tables, id: Id, una: nat, size: nat, finished: bool): Tables
    requires |TableOf(t, id.host)| == TABLE_SIZE
  {
    var s := Slot(id.key);
    t[id.host := TableOf(t, id.host)[s := Written(TableOf(t, id.host)[s], id.key, una, size, finished)]]
  }

  /** A finished entry is freed once its final progress has been reported. */
  predicate Freed(e: Entry) {
    e.valid && e.finished && e.completed == e.lastReported
  }

  predicate Reported(e: Entry) {
    e.valid && !Freed(e)
  }

  function SweepEntry(e: Entry): Entry {
    if Freed(e) then BLANK else if e.valid then e.(lastReported := e.completed) else e
  }

  ghost function Sweep(t: Tables): Tables {
    map h | h in t :: seq(|t[h]|, s requires 0 <= s < |t[h]| => SweepEntry(t[h][s]))
  }

  lemma UpdateKeepsInv(t: Tables, id: Id, una: nat, size: nat, finished: bool)
    requires Inv(t)
    ensures |TableOf(t, id.host)| == TABLE_SIZE && Inv(Update(t, id, una, size, finished))
  {
  }

  lemma SweepKeepsInv(t: Tables)
    requires Inv(t)
    ensures Inv(Sweep(t))
  {
    forall h, s | h in Sweep(t) && 0 <= s < TABLE_SIZE ensures |Sweep(t)[h]| == TABLE_SIZE
        && Placed(Sweep(t)[h][s], s) {
      assert Placed(t[h][s], s);
    }
  }

  /** An update changes its own request, drops the request it collides with, and nothing else. */
  lemma UpdateLookup(t: Tables, id: Id, una: nat, size: nat, finished: bool, other: Id)
    requires Inv(t) && Inv(Update(t, id, una, size, finished))
    ensures var t' := Update(t, id, una, size, finished);
      Lookup(t', other) ==
        if other == id then Some(Written(match Lookup(t, id) case Some(e) => e case None => BLANK, id.key, una, size,
            finished))
        else if Rivals(other, id) then None
        else Lookup(t, other)
  {
  }

  lemma SweepLookup(t: Tables, id: Id)
    requires Inv(t) && Inv(Sweep(t))
    ensures Lookup(Sweep(t), id) ==
      match Lookup(t, id)
      case None => None
      case Some(e) => if Freed(e) then None else Some(e.(lastReported := e.completed))
  {
  }

  // ---------------------------------------------------------------------------
  // Runs

  datatype Event =
    | Progress(id: Id, una: nat, size: nat, finished: bool)
    | Report

  ghost predicate Rivals(a: Id, b: Id) {
    a != b && a.host == b.host && Slot(a.key) == Slot(b.key)
  }

  ghost predicate Collides(t: Tables, id: Id) {
    exists other: Id :: Rivals(other, id) && other in Live(t)
  }

  ghost function Step(t: Tables, ev: Event): (t': Tables)
    requires Inv(t)
    ensures Inv(t')
  {
    match ev
    case Progress(id, una, size, finished) =>
      UpdateKeepsInv(t, id, una, size, finished);
      Update(t, id, una, size, finished)
    case Report =>
      Sweep(t)
  }

  lemma LiveShrinks(t: Tables)
    requires Inv(t) && Inv(Sweep(t))
    ensures Live(Sweep(t)) <= Live(t) && |Live(Sweep(t))| <= |Live(t)|
  {
    forall id | id in Live(Sweep(t)) ensures id in Live(t) {
      LiveIsStored(t, id);
      LiveIsStored(Sweep(t), id);
      SweepLookup(t, id);
    }
    SubsetSize(Live(Sweep(t)), Live(t));
  }

  lemma SubsetSize<T>(a: set<T>, b: set<T>)
    requires a <= b
    ensures |a| <= |b|
  {
    assert b == a + (b - a);
  }

  /** The tables after a run. */
  ghost function Run(evs: seq<Event>): (t: Tables)
    ensures Inv(t)
  {
    if evs == [] then map[] else Step(Run(evs[..|evs| - 1]), evs[|evs| - 1])
  }

  ghost predicate Evicts(t: Tables, ev: Event) {
    ev.Progress? && Collides(t, ev.id)
  }

  ghost predicate Inserts(t: Tables, ev: Event) {
    ev.Progress? && ev.id !in Live(t)
  }

  ghost function Clears(t: Tables, ev: Event): nat
    requires Inv(t)
  {
    LiveShrinks(t);
    if ev.Report? then |Live(t)| - |Live(Sweep(t))| else 0
  }

  /** The source's two counters, and the number of entries ever created, which it does not count. */
  datatype Counts = Counts(collisions: nat, clears: nat, inserted: nat)

  ghost function CountStep(c: Counts, t: Tables, ev: Event): Counts
    requires Inv(t)
  {
    Counts(c.collisions + (if Evicts(t, ev) then 1 else 0), c.clears + Clears(t, ev), c.inserted + if Inserts(t, ev)
        then 1 else 0)
  }

  ghost function Counted(evs: seq<Event>): Counts {
    if evs == [] then Counts(0, 0, 0) else CountStep(Counted(evs[..|evs| - 1]), Run(evs[..|evs| - 1]), evs[|evs| - 1])
  }

  // ---------------------------------------------------------------------------
  // Conservation

  ghost predicate Balanced(t: Tables, c: Counts) {
    c.inserted == |Live(t)| + c.collisions + c.clears
  }

  /** Over every run, insertions = live entries + collisions + clears. */
  lemma {:induction false} RunsBalance(evs: seq<Event>)
    ensures Balanced(Run(evs), Counted(evs))
  {
    if evs == [] {
      assert Live(map[]) == {};
    } else {
      RunsBalance(evs[..|evs| - 1]);
      StepBalances(Run(evs[..|evs| - 1]), Counted(evs[..|evs| - 1]), evs[|evs| - 1]);
    }
  }

  lemma {:induction false} StepBalances(t: Tables, c: Counts, ev: Event)
    requires Inv(t) && Balanced(t, c)
    ensures Balanced(Step(t, ev), CountStep(c, t, ev))
  {
    if ev.Progress? {
      UpdateKeepsInv(t, ev.id, ev.una, ev.size, ev.finished);
      UpdateLive(t, ev.id, ev.una, ev.size, ev.finished);
    }
  }

  lemma {:induction false} UpdateLive(t: Tables, id: Id, una: nat, size: nat, finished: bool)
    requires Inv(t) && Inv(Update(t, id, una, size, finished))
    ensures |Live(Update(t, id, una, size, finished))| + (if Collides(t, id) then 1 else 0)
         == |Live(t)| + if id in Live(t) then 0 else 1
  {
    var t' := Update(t, id, una, size, finished);
    forall other: Id ensures other in Live(t') <==> other == id || (other in Live(t) && !Rivals(other, id)) {
      LiveAfter(t, id, una, size, finished, other);
    }
    if Collides(t, id) {
      var victim: Id :| Rivals(victim, id) && victim in Live(t);
      forall other: Id | other in Live(t) && (Rivals(other, id) || other == id) ensures other == victim {
        OneRival(t, victim, other);
      }
      Swapped(Live(t), Live(t'), victim, id);
    } else {
      assert Live(t') == Live(t) + {id};
    }
  }

  lemma LiveAfter(t: Tables, id: Id, una: nat, size: nat, finished: bool, other: Id)
    requires Inv(t) && Inv(Update(t, id, una, size, finished))
    ensures other in Live(Update(t, id, una, size, finished)) <==>
      other == id || (other in Live(t) && !Rivals(other, id))
  {
    UpdateLookup(t, id, una, size, finished, other);
    LiveIsStored(t, other);
    LiveIsStored(Update(t, id, una, size, finished), other);
  }

  lemma OneRival(t: Tables, a: Id, b: Id)
    requires Inv(t) && a in Live(t) && b in Live(t) && a.host == b.host && Slot(a.key) == Slot(b.key)
    ensures a == b
  {
    LiveIsStored(t, a);
    LiveIsStored(t, b);
  }

  lemma Swapped(live: set<Id>, live': set<Id>, victim: Id, id: Id)
    requires victim in live && id !in live && victim != id
    requires forall x :: x in live' <==> x == id || (x in live && x != victim)
    ensures |live'| == |live|
  {
    assert live' == live - {victim} + {id};
  }

  // ---------------------------------------------------------------------------
  // Agreement with a plain map

  /** The same events on an unbounded map that never evicts. */
  type Plain = map<Id, Entry>

  ghost function PlainStep(m: Plain, ev: Event): Plain {
    match ev
    case Progress(id, una, size, finished) =>
      m[id := Written(if id in m then m[id] else BLANK, id.key, una, size, finished)]
    case Report => map id | id in m && !Freed(m[id]) :: m[id].(lastReported := m[id].completed)
  }

  ghost function PlainRun(evs: seq<Event>): Plain {
    if evs == [] then map[] else PlainStep(PlainRun(evs[..|evs| - 1]), evs[|evs| - 1])
  }

  /** No update ever arrives while the plain map holds another request of that host with the same slot. */
  ghost predicate ClashFree(evs: seq<Event>) {
    evs != [] ==>
      && ClashFree(evs[..|evs| - 1])
      && var ev := evs[|evs| - 1];
         ev.Progress? ==> forall other <- PlainRun(evs[..|evs| - 1]) :: !Rivals(other, ev.id)
  }

  ghost predicate Agrees(t: Tables, m: Plain)
    requires Inv(t)
  {
    forall id: Id :: Lookup(t, id) == if id in m then Some(m[id]) else None
  }

  /**
   * The collision counter is zero exactly for the clash-free runs, and after those the tables hold what
   * a plain map from work request to progress would hold.
   */
  lemma {:induction false} TablesArePlainMap(evs: seq<Event>)
    ensures Counted(evs).collisions == 0 <==> ClashFree(evs)
    ensures ClashFree(evs) ==> Agrees(Run(evs), PlainRun(evs))
  {
    if evs != [] {
      var rest, ev := evs[..|evs| - 1], evs[|evs| - 1];
      TablesArePlainMap(rest);
      if ClashFree(rest) {
        var t, m := Run(rest), PlainRun(rest);
        match ev
        case Report => PlainSweep(t, m);
        case Progress(id, una, size, finished) =>
          SameClashes(t, m, id);
          if ClashFree(evs) {
            PlainUpdate(t, m, id, una, size, finished);
          }
      }
    }
  }

  lemma SameClashes(t: Tables, m: Plain, id: Id)
    requires Inv(t) && Agrees(t, m)
    ensures Collides(t, id) <==> exists other :: other in m && Rivals(other, id)
  {
    forall other: Id ensures other in m <==> other in Live(t) {
      LiveIsStored(t, other);
    }
  }

  lemma PlainSweep(t: Tables, m: Plain)
    requires Inv(t) && Agrees(t, m)
    ensures Inv(Sweep(t)) && Agrees(Sweep(t), PlainStep(m, Report))
  {
    SweepKeepsInv(t);
    var m' := PlainStep(m, Report);
    forall id: Id ensures Lookup(Sweep(t), id) == if id in m' then Some(m'[id]) else None {
      SweepLookup(t, id);
    }
  }

  lemma PlainUpdate(t: Tables, m: Plain, id: Id, una: nat, size: nat, finished: bool)
    requires Inv(t) && Agrees(t, m) && forall other <- m :: !Rivals(other, id)
    ensures Inv(Update(t, id, una, size, finished))
    ensures Agrees(Update(t, id, una, size, finished), PlainStep(m, Progress(id, una, size, finished)))
  {
    UpdateKeepsInv(t, id, una, size, finished);
    var m' := PlainStep(m, Progress(id, una, size, finished));
    forall other: Id
      ensures Lookup(Update(t, id, una, size, finished), other) == if other in m' then Some(m'[other]) else None {
      UpdateLookup(t, id, una, size, finished, other);
    }
  }

  // ---------------------------------------------------------------------------
  // A finished flow is reported at full size exactly once

  ghost predicate ReportsFull(t: Tables, id: Id)
    requires Inv(t)
  {
    Lookup(t, id).Some? && var e := Lookup(t, id).value; Reported(e) && e.completed == e.size
  }

  /** How many reports of the run show `id` at its full size. */
  ghost function FullReports(evs: seq<Event>, id: Id): nat {
    if evs == [] then 0 else
      var rest := evs[..|evs| - 1];
      FullReports(rest, id) + FullReport(Run(rest), evs[|evs| - 1], id)
  }

  ghost function FullReport(t: Tables, ev: Event, id: Id): nat
    requires Inv(t)
  {
    if ev.Report? && ReportsFull(t, id) then 1 else 0
  }

  ghost function OneReport(ev: Event): nat {
    if ev.Report? then 1 else 0
  }

  ghost function ReportCount(evs: seq<Event>): nat {
    if evs == [] then 0 else ReportCount(evs[..|evs| - 1]) + OneReport(evs[|evs| - 1])
  }

  /** While the flow is active its acknowledged bytes are below its size. */
  ghost predicate Active(evs: seq<Event>, id: Id, size: nat) {
    forall i :: 0 <= i < |evs| && evs[i].Progress? && evs[i].id == id ==>
      !evs[i].finished && evs[i].una < size && evs[i].size == size
  }

  /** After completion the flow is no longer updated, and nothing takes its slot. */
  ghost predicate Undisturbed(evs: seq<Event>, id: Id) {
    forall i :: 0 <= i < |evs| && evs[i].Progress? ==> evs[i].id != id && !Rivals(evs[i].id, id)
  }

  /** The entry of a flow before it completes: absent, or short of its size and last reported as such. */
  ghost predicate Running(e: Option<Entry>, size: nat) {
    e.Some? ==> e.value.completed < size && e.value.size == size && !e.value.finished && e.value.valid &&
                (e.value.lastReported < size || e.value.lastReported == U64 - 1)
  }

  lemma {:induction false} BeforeCompletion(evs: seq<Event>, id: Id, size: nat)
    requires Active(evs, id, size)
    ensures Running(Lookup(Run(evs), id), size) && FullReports(evs, id) == 0
  {
    if evs != [] {
      var rest, ev := evs[..|evs| - 1], evs[|evs| - 1];
      BeforeCompletion(rest, id, size);
      var t := Run(rest);
      match ev
      case Report =>
        SweepLookup(t, id);
      case Progress(other, una, n, finished) =>
        UpdateKeepsInv(t, other, una, n, finished);
        UpdateLookup(t, other, una, n, finished, id);
    }
  }

  /** A size of 2^64 - 1 never reported before looks already reported when it completes. */
  ghost predicate Silent(before: Option<Entry>, size: nat) {
    size == U64 - 1 && (before.None? || before.value.lastReported == U64 - 1)
  }

  /** The whole life of a flow: active during `pre`, completed, then left alone during `post`. */
  ghost function Life(pre: seq<Event>, id: Id, una: nat, size: nat, post: seq<Event>): seq<Event> {
    pre + [Progress(id, una, size, true)] + post
  }

  /** Where a completed flow stands after `n` reports, `full` of which showed it at full size. */
  ghost predicate Phase(t: Tables, id: Id, size: nat, full: nat, n: nat, silent: bool)
    requires Inv(t)
  {
    && full == (if n == 0 || silent then 0 else 1)
    && (Lookup(t, id).None? <==> n >= if silent then 1 else 2)
    && (Lookup(t, id).Some? ==> AtFullSize(Lookup(t, id).value, size, n == 1 || silent))
  }

  ghost predicate AtFullSize(e: Entry, size: nat, shown: bool) {
    e.valid && e.finished && e.completed == e.size == size && (e.lastReported == size <==> shown)
  }

  lemma PhaseReport(t: Tables, id: Id, size: nat, full: nat, n: nat, silent: bool)
    requires Inv(t) && Inv(Sweep(t)) && Phase(t, id, size, full, n, silent)
    ensures Phase(Sweep(t), id, size, full + (if ReportsFull(t, id) then 1 else 0), n + 1, silent)
  {
    SweepLookup(t, id);
  }

  lemma PhaseOther(t: Tables, id: Id, size: nat, full: nat, n: nat, silent: bool, other: Id, una: nat, m: nat,
                   finished: bool)
    requires Inv(t) && Inv(Update(t, other, una, m, finished)) && Phase(t, id, size, full, n, silent)
    requires other != id && !Rivals(other, id)
    ensures Phase(Update(t, other, una, m, finished), id, size, full, n, silent)
  {
    UpdateLookup(t, other, una, m, finished, id);
  }

  lemma {:induction false} PhaseStep(t: Tables, ev: Event, id: Id, size: nat, full: nat, n: nat, silent: bool)
    requires Inv(t) && Phase(t, id, size, full, n, silent)
    requires ev.Progress? ==> ev.id != id && !Rivals(ev.id, id)
    ensures Phase(Step(t, ev), id, size, full + FullReport(t, ev, id), n + OneReport(ev), silent)
  {
    match ev
    case Report =>
      PhaseReport(t, id, size, full, n, silent);
    case Progress(other, v, m, finished) =>
      UpdateKeepsInv(t, other, v, m, finished);
      PhaseOther(t, id, size, full, n, silent, other, v, m, finished);
  }

  /** At completion: last reported below its size, or never. */
  lemma {:induction false} PhaseStart(pre: seq<Event>, id: Id, una: nat, size: nat)
    requires size < U64 && Active(pre, id, size)
    ensures Phase(Step(Run(pre), Progress(id, una, size, true)), id, size, FullReports(pre, id), 0,
      Silent(Lookup(Run(pre), id), size))
  {
    BeforeCompletion(pre, id, size);
    UpdateKeepsInv(Run(pre), id, una, size, true);
    UpdateLookup(Run(pre), id, una, size, true, id);
  }

  /**
   * Exactly one report shows the flow at full size as soon as one follows its completion, and the next report
   * frees it; the only exception is a never reported flow of 2^64 - 1 bytes, freed without any report.
   */
  lemma {:induction false} ReportedExactlyOnce(pre: seq<Event>, id: Id, una: nat, size: nat, post: seq<Event>)
    requires size < U64 && Active(pre, id, size) && Undisturbed(post, id)
    ensures var evs := Life(pre, id, una, size, post);
      Phase(Run(evs), id, size, FullReports(evs, id), ReportCount(post), Silent(Lookup(Run(pre), id), size))
  {
    if post == [] {
      PhaseStart(pre, id, una, size);
      LifeStart(pre, id, una, size);
    } else {
      var rest, ev := post[..|post| - 1], post[|post| - 1];
      var before := Life(pre, id, una, size, rest);
      ReportedExactlyOnce(pre, id, una, size, rest);
      PhaseStep(Run(before), ev, id, size, FullReports(before, id), ReportCount(rest),
          Silent(Lookup(Run(pre), id), size));
      LifeNext(pre, id, una, size, post);
    }
  }

  /**
   * The flow file gives sizes as 32-bit numbers, far below the exception: every such flow is reported at full size by
   * exactly the first report after its completion and freed by the second.
   */
  lemma FileFlowReportedOnce(pre: seq<Event>, id: Id, una: nat, size: nat, post: seq<Event>)
    requires size < 0x1_0000_0000 && Active(pre, id, size) && Undisturbed(post, id)
    ensures var evs := Life(pre, id, una, size, post);
      && FullReports(evs, id) == (if ReportCount(post) == 0 then 0 else 1)
      && (Lookup(Run(evs), id).None? <==> ReportCount(post) >= 2)
  {
    ReportedExactlyOnce(pre, id, una, size, post);
  }

  lemma {:induction false} LifeStart(pre: seq<Event>, id: Id, una: nat, size: nat)
    ensures var evs := Life(pre, id, una, size, []);
      Run(evs) == Step(Run(pre), Progress(id, una, size, true)) && FullReports(evs, id) == FullReports(pre, id)
  {
    assert Life(pre, id, una, size, []) == pre + [Progress(id, una, size, true)];
  }

  lemma {:induction false} LifeNext(pre: seq<Event>, id: Id, una: nat, size: nat, post: seq<Event>)
    requires post != []
    ensures var before, ev := Life(pre, id, una, size, post[..|post| - 1]), post[|post| - 1];
      var evs := Life(pre, id, una, size, post);
      Run(evs) == Step(Run(before), ev) && FullReports(evs, id)
          == FullReports(before, id) + FullReport(Run(before), ev, id)
  {
    var before, ev := Life(pre, id, una, size, post[..|post| - 1]), post[|post| - 1];
    assert Life(pre, id, una, size, post) == before + [ev];
  }

  /** The exception is real: such a flow is freed by the first report, which does not mention it. */
  lemma SilentFlow(id: Id)
    ensures var evs := Life([], id, 0, U64 - 1, [Report]);
      FullReports(evs, id) == 0 && Lookup(Run(evs), id).None?
  {
    ReportedExactlyOnce([], id, 0, U64 - 1, [Report]);
    assert [Report][..0] == [];
    assert ReportCount([Report]) == 1;
  }

  // ---------------------------------------------------------------------------
  // What an update writes, and what a later line shows

  /** The entry of a request after an update, with the numbers written out; `before` is its entry before. */
  ghost predicate Updated(e: Entry, before: Option<Entry>, key: nat, una: nat, size: nat, finished: bool) {
    && e.valid && e.key == key && e.size == size
    && (finished || una >= size ==> e.completed == size && e.finished)
    && (!finished && una < size ==> e.completed == una && !e.finished)
    && (before.Some? ==> e.lastReported == before.value.lastReported)
    && (before.None? ==> e.lastReported == 0xffff_ffff_ffff_ffff)
  }

  lemma UpdateWrites(evs: seq<Event>, id: Id, una: nat, size: nat, finished: bool)
    ensures var e := Lookup(Run(evs + [Progress(id, una, size, finished)]), id);
      e.Some? && Updated(e.value, Lookup(Run(evs), id), id.key, una, size, finished)
  {
    var t := Run(evs);
    UpdateKeepsInv(t, id, una, size, finished);
    UpdateLookup(t, id, una, size, finished, id);
    assert (evs + [Progress(id, una, size, finished)])[..|evs|] == evs;
    assert Run(evs + [Progress(id, una, size, finished)]) == Update(t, id, una, size, finished);
  }

  /** The values of the last update of a request, as long as nothing takes its slot and its entry is not freed. */
  ghost predicate Shows(e: Option<Entry>, una: nat, size: nat, finished: bool) {
    e.Some? ==> e.value.size == size && e.value.completed == if finished || una >= size then size else una
  }

  lemma {:induction false} LastUpdateShown(pre: seq<Event>, id: Id, una: nat, size: nat, finished: bool,
                                           post: seq<Event>)
    requires Undisturbed(post, id)
    ensures Shows(Lookup(Run(pre + [Progress(id, una, size, finished)] + post), id), una, size, finished)
  {
    var begun := pre + [Progress(id, una, size, finished)];
    if post == [] {
      UpdateWrites(pre, id, una, size, finished);
      assert begun + [] == begun;
    } else {
      var rest, ev := post[..|post| - 1], post[|post| - 1];
      LastUpdateShown(pre, id, una, size, finished, rest);
      RunLast(begun, post);
      ShownNext(Run(begun + rest), ev, id, una, size, finished);
    }
  }

  lemma RunLast(begun: seq<Event>, post: seq<Event>)
    requires post != []
    ensures Run(begun + post) == Step(Run(begun + post[..|post| - 1]), post[|post| - 1])
  {
    JoinedFront(begun, post);
  }

  lemma JoinedFront(a: seq<Event>, b: seq<Event>)
    requires b != []
    ensures a + b != [] && (a + b)[..|a + b| - 1] == a + b[..|b| - 1] && (a + b)[|a + b| - 1] == b[|b| - 1]
  {
  }

  lemma ShownNext(t: Tables, ev: Event, id: Id, una: nat, size: nat, finished: bool)
    requires Inv(t) && Shows(Lookup(t, id), una, size, finished)
    requires ev.Progress? ==> ev.id != id && !Rivals(ev.id, id)
    ensures Shows(Lookup(Step(t, ev), id), una, size, finished)
  {
    match ev
    case Report =>
      SweepKeepsInv(t);
      SweepLookup(t, id);
    case Progress(other, v, m, done) =>
      UpdateKeepsInv(t, other, v, m, done);
      UpdateLookup(t, other, v, m, done, id);
  }

  // ---------------------------------------------------------------------------
  // The monitor object

  /** One `wr` line of the report. */
  datatype Line = Line(id: Id, slot: nat, completed: nat, size: nat)

  /** A report: its `wr` lines and the three numbers of its summary line. */
  datatype Output = Output(lines: seq<Line>, active: nat, collisions: nat, clears: nat)

  ghost predicate LineOf(t: Tables, l: Line)
    requires Inv(t)
  {
    Lookup(t, l.id).Some? && var e := Lookup(t, l.id).value;
    Reported(e) && l.slot == Slot(l.id.key) && l.completed == e.completed && l.size == e.size
  }

  ghost predicate Listed(lines: seq<Line>, id: Id) {
    exists i :: 0 <= i < |lines| && lines[i].id == id
  }

  ghost predicate ToReport(t: Tables, id: Id)
    requires Inv(t)
  {
    Lookup(t, id).Some? && Reported(Lookup(t, id).value)
  }

  ghost predicate DistinctIds(lines: seq<Line>) {
    forall i, j :: 0 <= i < j < |lines| ==> lines[i].id != lines[j].id
  }

  /** One line for each stored request that is not freed, and no request twice. */
  ghost predicate ReportOf(t: Tables, lines: seq<Line>)
    requires Inv(t)
  {
    && (forall i :: 0 <= i < |lines| ==> LineOf(t, lines[i]))
    && DistinctIds(lines)
    && (forall id: Id :: ToReport(t, id) ==> Listed(lines, id))
  }

  /** A line of a later report shows the values of the request's last update. */
  lemma LineShowsUpdate(pre: seq<Event>, id: Id, una: nat, size: nat, finished: bool, post: seq<Event>,
                        lines: seq<Line>,
                        i: nat)
    requires Undisturbed(post, id) && i < |lines| && lines[i].id == id
    requires ReportOf(Run(pre + [Progress(id, una, size, finished)] + post), lines)
    ensures lines[i].size == size && lines[i].completed == if finished || una >= size then size else una
  {
    LastUpdateShown(pre, id, una, size, finished, post);
    assert LineOf(Run(pre + [Progress(id, una, size, finished)] + post), lines[i]);
  }

  /** The lines of the first `s` slots of host `h`. */
  ghost predicate SlotLines(t: Tables, h: nat, s: nat, lines: seq<Line>)
    requires Inv(t)
  {
    && (forall i :: 0 <= i < |lines| ==> LineOf(t, lines[i]) && lines[i].id.host == h && lines[i].slot < s)
    && DistinctIds(lines)
    && (forall id: Id :: id.host == h && Slot(id.key) < s && ToReport(t, id) ==> Listed(lines, id))
  }

  lemma SlotLinesNext(t: Tables, h: nat, s: nat, lines: seq<Line>, lines': seq<Line>)
    requires Inv(t) && h in t && s < TABLE_SIZE && SlotLines(t, h, s, lines)
    requires var e := t[h][s];
      lines' == if Reported(e) then lines + [Line(Id(h, e.key), s, e.completed, e.size)] else lines
    ensures SlotLines(t, h, s + 1, lines')
  {
    assert Placed(t[h][s], s);
    if Reported(t[h][s]) {
      NewLine(t, h, s, lines, lines'[|lines|]);
      NewLineAppended(t, h, s, lines, lines'[|lines|]);
    }
    forall id: Id | id.host == h && Slot(id.key) < s + 1 && ToReport(t, id) ensures Listed(lines', id) {
      if Slot(id.key) < s {
        ListedGrows(lines, lines', id);
      } else {
        assert lines'[|lines|].id == id;
      }
    }
  }

  lemma NewLineAppended(t: Tables, h: nat, s: nat, lines: seq<Line>, l: Line)
    requires Inv(t) && SlotLines(t, h, s, lines) && LineOf(t, l) && l.id.host == h && l.slot == s
    requires forall i :: 0 <= i < |lines| ==> lines[i].id != l.id
    ensures DistinctIds(lines + [l])
    ensures forall i :: 0 <= i < |lines + [l]| ==>
      LineOf(t, (lines + [l])[i]) && (lines + [l])[i].id.host == h && (lines + [l])[i].slot < s + 1
  {
  }

  /** The line of slot `s` is right, and of a request not listed yet. */
  lemma NewLine(t: Tables, h: nat, s: nat, lines: seq<Line>, l: Line)
    requires Inv(t) && h in t && s < TABLE_SIZE && SlotLines(t, h, s, lines) && Reported(t[h][s]) && Placed(t[h][s], s)
    requires l == Line(Id(h, t[h][s].key), s, t[h][s].completed, t[h][s].size)
    ensures LineOf(t, l) && forall i :: 0 <= i < |lines| ==> lines[i].id != l.id
  {
    forall i | 0 <= i < |lines| ensures lines[i].id != l.id {
      assert lines[i].slot == Slot(lines[i].id.key) < s;
    }
  }

  lemma ListedGrows(lines: seq<Line>, more: seq<Line>, id: Id)
    requires Listed(lines, id) && lines <= more
    ensures Listed(more, id)
  {
    var i :| 0 <= i < |lines| && lines[i].id == id;
    assert more[i].id == id;
  }

  /** The lines of the hosts `hs`. */
  ghost predicate HostLines(t: Tables, hs: set<nat>, lines: seq<Line>)
    requires Inv(t)
  {
    && (forall i :: 0 <= i < |lines| ==> LineOf(t, lines[i]) && lines[i].id.host in hs)
    && DistinctIds(lines)
    && (forall id: Id :: id.host in hs && ToReport(t, id) ==> Listed(lines, id))
  }

  lemma HostLinesNext(t: Tables, hs: set<nat>, h: nat, lines: seq<Line>, more: seq<Line>)
    requires Inv(t) && h !in hs && HostLines(t, hs, lines) && SlotLines(t, h, TABLE_SIZE, more)
    ensures HostLines(t, hs + {h}, lines + more)
  {
    var all := lines + more;
    forall i, j | 0 <= i < j < |all| ensures all[i].id != all[j].id {
      if i < |lines| <= j {
        assert all[i] == lines[i] && all[j] == more[j - |lines|];
      }
    }
    forall id: Id | id.host in hs + {h} && ToReport(t, id) ensures Listed(all, id) {
      if id.host in hs {
        ListedGrows(lines, all, id);
      } else {
        var i :| 0 <= i < |more| && more[i].id == id;
        assert all[|lines| + i].id == id;
      }
    }
  }

  /** Host `h` with its first `s` slots swept. */
  ghost function Swept(t: Tables, h: nat, s: nat): Tables
    requires h in t && s <= |t[h]|
  {
    t[h := seq(|t[h]|, i requires 0 <= i < |t[h]| => if i < s then SweepEntry(t[h][i]) else t[h][i])]
  }

  lemma SweptNothing(t: Tables, h: nat)
    requires h in t
    ensures Swept(t, h, 0) == t
  {
    assert Swept(t, h, 0)[h] == t[h];
  }

  lemma SweptInv(t: Tables, h: nat, s: nat)
    requires Inv(t) && h in t && s <= TABLE_SIZE
    ensures Inv(Swept(t, h, s))
  {
  }

  /** Sweeping one slot frees at most the entry in it. */
  lemma SweptLive(t: Tables, h: nat, s: nat)
    requires Inv(t) && h in t && s < TABLE_SIZE
    ensures LiveCount(t, h, s + 1) + (if Freed(t[h][s]) then 1 else 0) == LiveCount(t, h, s)
  {
    var e := t[h][s];
    var gone := Id(h, e.key);
    forall id: Id
      ensures id in Live(Swept(t, h, s + 1)) <==> id in Live(Swept(t, h, s)) && !(Freed(e) && id == gone)
    {
      SweptLiveOne(t, h, s, id);
    }
    if Freed(e) {
      FreedWasLive(t, h, s);
      OneFewer(Live(Swept(t, h, s)), Live(Swept(t, h, s + 1)), gone);
    } else {
      assert Live(Swept(t, h, s + 1)) == Live(Swept(t, h, s));
    }
  }

  lemma OneFewer<T>(a: set<T>, b: set<T>, x: T)
    requires x in a && forall y :: y in b <==> y in a && y != x
    ensures |b| + 1 == |a|
  {
    assert b == a - {x};
  }

  lemma FreedWasLive(t: Tables, h: nat, s: nat)
    requires Inv(t) && h in t && s < TABLE_SIZE && Freed(t[h][s])
    ensures Id(h, t[h][s].key) in Live(Swept(t, h, s))
  {
    var a := Swept(t, h, s);
    assert a[h][s] == t[h][s];
  }

  lemma SweptLiveOne(t: Tables, h: nat, s: nat, id: Id)
    requires Inv(t) && h in t && s < TABLE_SIZE
    ensures id in Live(Swept(t, h, s + 1))
       <==> id in Live(Swept(t, h, s)) && !(Freed(t[h][s]) && id == Id(h, t[h][s].key))
  {
    var a, b := Swept(t, h, s), Swept(t, h, s + 1);
    SweptInv(t, h, s);
    SweptInv(t, h, s + 1);
    LiveIsStored(a, id);
    LiveIsStored(b, id);
    assert Placed(t[h][s], s);
    var k := Slot(id.key);
    if id.host == h {
      assert b[h][k] == if k == s then SweepEntry(t[h][s]) else a[h][k];
    }
  }

  /** The state is the one the events lead to. */
  ghost predicate Follows(t: Tables, c: Counts, evs: seq<Event>) {
    t == Run(evs) && c == Counted(evs)
  }

  lemma {:induction false} ProgressFollows(t: Tables, c: Counts, evs: seq<Event>, id: Id, una: nat, size: nat,
                                           finished: bool)
    requires Follows(t, c, evs)
    ensures |TableOf(t, id.host)| == TABLE_SIZE
    ensures var e := TableOf(t, id.host)[Slot(id.key)];
      Follows(Update(t, id, una, size, finished),
              Counts(c.collisions + (if e.valid && e.key != id.key then 1 else 0), c.clears,
                     c.inserted + if e.valid && e.key == id.key then 0 else 1),
              evs + [Progress(id, una, size, finished)])
  {
    UpdateKeepsInv(t, id, una, size, finished);
    UpdateCounts(t, c, id, una, size, finished);
  }

  datatype ActiveQp = ActiveQp(id: Id, una: nat, size: nat)

  class Monitor {
    var tables: Tables
    var collisionCount: nat
    var clearCount: nat
    var initialized: bool
    ghost var inserted: nat
    ghost var trace: seq<Event>

    ghost predicate Valid()
      reads this
    {
      Follows(tables, Counts(collisionCount, clearCount, inserted), trace)
    }

    constructor ()
      ensures Valid() && trace == [] && !initialized
    {
      tables, collisionCount, clearCount, initialized := map[], 0, 0, false;
      inserted, trace := 0, [];
    }

    /** `update_host_wr_entry` with its upsert. */
    method UpdateEntry(id: Id, una: nat, size: nat, finished: bool)
      requires Valid()
      modifies this
      ensures Valid() && trace == old(trace) + [Progress(id, una, size, finished)] && initialized == old(initialized)
    {
      ProgressFollows(tables, Counts(collisionCount, clearCount, inserted), trace, id, una, size, finished);
      tables, collisionCount, inserted := WriteEntry(tables, collisionCount, inserted, id, una, size, finished);
      trace := trace + [Progress(id, una, size, finished)];
    }

    /** The sweep: one line per stored request that is not freed, and the summary counts them. */
    method WriteReport() returns (out: Output)
      requires Valid()
      modifies this
      ensures Valid() && trace == old(trace) + [Report] && initialized == old(initialized)
      ensures ReportOf(old(tables), out.lines) && out.active == |out.lines|
      ensures out.collisions == collisionCount && out.clears == clearCount
    {
      var lines, active;
      tables, clearCount, active, lines := SweepAll(tables, clearCount);
      out := Output(lines, active, collisionCount, clearCount);
      trace := trace + [Report];
    }

    /** `sync_host_wr_entries_from_active_qps`. */
    method Sync(active: seq<ActiveQp>)
      requires Valid()
      modifies this
      ensures Valid() && trace == old(trace) + ProgressOf(active) && initialized == old(initialized)
    {
      for i := 0 to |active|
        invariant Valid() && initialized == old(initialized)
        invariant trace == old(trace) + ProgressOf(active[..i])
      {
        ProgressNext(active, i);
        UpdateEntry(active[i].id, active[i].una, active[i].size, false);
      }
      assert active[..|active|] == active;
    }

    /**
     * The periodic call: the first one only arms the timer; each later one takes in the active requests, then reports.
     */
    method MonitorHostFlowReport(active: seq<ActiveQp>) returns (out: Option<Output>)
      requires Valid()
      modifies this
      ensures Valid() && initialized && (out.Some? <==> old(initialized))
      ensures trace == if old(initialized) then old(trace) + ProgressOf(active) + [Report] else old(trace)
      ensures out.Some? ==> ReportOf(Run(old(trace) + ProgressOf(active)), out.value.lines)
      ensures out.Some? ==> out.value == Output(out.value.lines, |out.value.lines|, collisionCount, clearCount)
    {
      if !initialized {
        initialized := true;
        return None;
      }
      Sync(active);
      var written := WriteReport();
      out := Some(written);
    }
  }

  ghost function ProgressOf(active: seq<ActiveQp>): seq<Event> {
    if active == [] then [] else
      var q := active[|active| - 1];
      ProgressOf(active[..|active| - 1]) + [Progress(q.id, q.una, q.size, false)]
  }

  lemma ProgressNext(active: seq<ActiveQp>, i: nat)
    requires i < |active|
    ensures ProgressOf(active[..i + 1]) == ProgressOf(active[..i])
      + [Progress(active[i].id, active[i].una, active[i].size, false)]
  {
    assert active[..i + 1][..i] == active[..i];
  }

  /** The upsert and the write of one update, on the entry of the key's slot. */
  method WriteEntry(tables: Tables, collisions: nat, ghost inserted: nat, id: Id, una: nat, size: nat, finished: bool)
    returns (tables': Tables, collisions': nat, ghost inserted': nat)
    requires Inv(tables)
    ensures tables' == Update(tables, id, una, size, finished)
    ensures var e := TableOf(tables, id.host)[Slot(id.key)];
      && collisions' == collisions + (if e.valid && e.key != id.key then 1 else 0)
      && inserted' == inserted + if e.valid && e.key == id.key then 0 else 1
  {
    collisions', inserted' := collisions, inserted;
    var table := TableOf(tables, id.host);
    var slot := Slot(id.key);
    var entry := table[slot];
    if entry.valid && entry.key != id.key {
      collisions' := collisions' + 1;
      entry := BLANK;
    }
    if !entry.valid {
      entry := entry.(valid := true, key := id.key);
      inserted' := inserted' + 1;
    }
    var completed := if finished then size else if una < size then una else size;
    entry := entry.(completed := completed, size := size, finished := finished || completed >= size);
    tables' := tables[id.host := table[slot := entry]];
  }

  /** How many of the first `s` slots of host `h` are freed, and the lines of the others. */
  ghost function FreedUpTo(t: Tables, h: nat, s: nat): nat
    requires h in t && s <= |t[h]|
  {
    if s == 0 then 0 else FreedUpTo(t, h, s - 1) + if Freed(t[h][s - 1]) then 1 else 0
  }

  ghost function LinesUpTo(t: Tables, h: nat, s: nat): seq<Line>
    requires h in t && s <= |t[h]|
  {
    if s == 0 then [] else
      var e := t[h][s - 1];
      LinesUpTo(t, h, s - 1) + if Reported(e) then [Line(Id(h, e.key), s - 1, e.completed, e.size)] else []
  }

  /** The inner loop of the report: the slots of one host. */
  method SweepSlots(tables: Tables, h: nat, clears: nat, active: nat)
    returns (tables': Tables, clears': nat, active': nat, lines: seq<Line>)
    requires h in tables
    ensures tables' == Swept(tables, h, |tables[h]|)
    ensures clears' == clears + FreedUpTo(tables, h, |tables[h]|) && lines == LinesUpTo(tables, h, |tables[h]|)
    ensures active' == active + |lines|
  {
    tables', clears', active', lines := tables, clears, active, [];
    SweptNothing(tables, h);
    for slot := 0 to |tables[h]|
      invariant tables' == Swept(tables, h, slot)
      invariant clears' == clears + FreedUpTo(tables, h, slot) && lines == LinesUpTo(tables, h, slot)
      invariant active' == active + |lines|
    {
      assert tables'[h][slot] == tables[h][slot];
      tables', clears', active', lines := SweepSlot(tables', h, slot, clears', active', lines);
      SweptNext(tables, h, slot, tables');
    }
  }

  /** Sweeping a host frees what it clears and reports the rest. */
  method SweepHost(tables: Tables, h: nat, clears: nat, active: nat)
    returns (tables': Tables, clears': nat, active': nat, lines: seq<Line>)
    requires Inv(tables) && h in tables
    ensures tables' == Swept(tables, h, TABLE_SIZE)
    ensures clears' + |Live(tables')| == clears + |Live(tables)|
    ensures active' == active + |lines| && SlotLines(tables, h, TABLE_SIZE, lines)
  {
    tables', clears', active', lines := SweepSlots(tables, h, clears, active);
    LiveAfterSweep(tables, h);
    SlotLinesAre(tables, h, TABLE_SIZE);
  }

  /** How many entries are live once the first `s` slots of host `h` are swept. */
  ghost function LiveCount(t: Tables, h: nat, s: nat): nat
    requires h in t && s <= |t[h]|
  {
    |Live(Swept(t, h, s))|
  }

  /** Live entries and freed ones, which the sweep of a slot leaves unchanged in sum. */
  ghost function LiveOrFreed(t: Tables, h: nat, s: nat): nat
    requires h in t && s <= |t[h]|
  {
    LiveCount(t, h, s) + FreedUpTo(t, h, s)
  }

  lemma {:induction false} SweptStep(t: Tables, h: nat, s: nat)
    requires Inv(t) && h in t && s < |t[h]|
    ensures LiveOrFreed(t, h, s + 1) == LiveOrFreed(t, h, s)
  {
    SweptLive(t, h, s);
  }

  lemma {:induction false} SweptLives(t: Tables, h: nat, s: nat)
    requires Inv(t) && h in t && s <= |t[h]|
    ensures LiveOrFreed(t, h, s) == LiveOrFreed(t, h, 0)
  {
    if s > 0 {
      SweptLives(t, h, s - 1);
      SweptStep(t, h, s - 1);
    }
  }

  lemma {:induction false} LiveAfterSweep(t: Tables, h: nat)
    requires Inv(t) && h in t && |t[h]| == TABLE_SIZE
    ensures |Live(Swept(t, h, |t[h]|))| + FreedUpTo(t, h, |t[h]|) == |Live(t)|
  {
    SweptLives(t, h, |t[h]|);
    SweptNothing(t, h);
    assert LiveOrFreed(t, h, 0) == |Live(t)|;
  }

  lemma {:induction false} SlotLinesAre(t: Tables, h: nat, s: nat)
    requires Inv(t) && h in t && s <= TABLE_SIZE
    ensures SlotLines(t, h, s, LinesUpTo(t, h, s))
  {
    if s > 0 {
      SlotLinesAre(t, h, s - 1);
      SlotLinesNext(t, h, s - 1, LinesUpTo(t, h, s - 1), LinesUpTo(t, h, s));
    }
  }

  /** One slot: free it, report it, or leave it blank. */
  method SweepSlot(t: Tables, h: nat, slot: nat, clears: nat, active: nat, lines: seq<Line>)
    returns (t': Tables, clears': nat, active': nat, lines': seq<Line>)
    requires h in t && slot < |t[h]|
    ensures t' == SlotSwept(t, h, slot)
    ensures clears' == clears + if Freed(t[h][slot]) then 1 else 0
    ensures active' == active + if Reported(t[h][slot]) then 1 else 0
    ensures var e := t[h][slot];
      lines' == if Reported(e) then lines + [Line(Id(h, e.key), slot, e.completed, e.size)] else lines
  {
    t', clears', active', lines' := t, clears, active, lines;
    var entry := t[h][slot];
    if !entry.valid {
      return;
    }
    if entry.finished && entry.completed == entry.lastReported {
      t' := t[h := t[h][slot := BLANK]];
      clears' := clears + 1;
      return;
    }
    lines' := lines + [Line(Id(h, entry.key), slot, entry.completed, entry.size)];
    t' := t[h := t[h][slot := entry.(lastReported := entry.completed)]];
    active' := active + 1;
  }

  ghost function SlotSwept(t: Tables, h: nat, slot: nat): Tables
    requires h in t && slot < |t[h]|
  {
    if t[h][slot].valid then t[h := t[h][slot := SweepEntry(t[h][slot])]] else t
  }

  lemma SweptNext(t: Tables, h: nat, s: nat, t': Tables)
    requires h in t && s < |t[h]| && t' == SlotSwept(Swept(t, h, s), h, s)
    ensures t' == Swept(t, h, s + 1)
  {
    assert t'[h] == Swept(t, h, s + 1)[h];
  }

  /** The sweep of `monitor_host_flow_report`, hosts in any order. */
  method SweepAll(tables: Tables, clears: nat)
    returns (tables': Tables, clears': nat, active: nat, lines: seq<Line>)
    requires Inv(tables)
    ensures tables' == Sweep(tables)
    ensures clears' + |Live(tables')| == clears + |Live(tables)|
    ensures active == |lines| && ReportOf(tables, lines)
  {
    tables', clears', active, lines := tables, clears, 0, [];
    var todo := tables.Keys;
    while todo != {}
      invariant todo <= tables.Keys && PartlySwept(tables, todo, tables')
      invariant clears' + |Live(tables')| == clears + |Live(tables)|
      invariant active == |lines| && HostLines(tables, tables.Keys - todo, lines)
    {
      var h := AnyOf(todo);
      PartlySweptInv(tables, todo, tables');
      var more;
      ghost var before, done := tables', tables.Keys - todo;
      tables', clears', active, more := SweepHost(tables', h, clears', active);
      PartlySweptNext(tables, todo, before, h, tables');
      SameLines(tables, before, h, more);
      HostLinesNext(tables, done, h, lines, more);
      lines := lines + more;
      todo := todo - {h};
      assert done + {h} == tables.Keys - todo;
    }
    AllSwept(tables, tables');
  }

  /** The hosts outside `todo` are swept. */
  ghost predicate PartlySwept(t: Tables, todo: set<nat>, t': Tables) {
    && t'.Keys == t.Keys
    && (forall h <- t :: |t'[h]| == |t[h]|)
    && (forall h, s :: h in t && 0 <= s < |t[h]| ==> t'[h][s] == if h in todo then t[h][s] else SweepEntry(t[h][s]))
  }

  lemma PartlySweptInv(t: Tables, todo: set<nat>, t': Tables)
    requires Inv(t) && PartlySwept(t, todo, t')
    ensures Inv(t')
  {
    forall h, s | h in t' && 0 <= s < TABLE_SIZE ensures |t'[h]| == TABLE_SIZE && Placed(t'[h][s], s) {
      assert Placed(t[h][s], s);
    }
  }

  lemma PartlySweptNext(t: Tables, todo: set<nat>, before: Tables, h: nat, after: Tables)
    requires Inv(t) && PartlySwept(t, todo, before) && h in todo && h in t && after == Swept(before, h, TABLE_SIZE)
    ensures PartlySwept(t, todo - {h}, after)
  {
  }

  lemma SameLines(t: Tables, before: Tables, h: nat, lines: seq<Line>)
    requires Inv(t) && Inv(before) && h in t && h in before && before[h] == t[h]
      && SlotLines(before, h, TABLE_SIZE, lines)
    ensures SlotLines(t, h, TABLE_SIZE, lines)
  {
    forall id: Id | id.host == h ensures Lookup(t, id) == Lookup(before, id) {
    }
  }

  lemma AllSwept(t: Tables, t': Tables)
    requires PartlySwept(t, {}, t')
    ensures t' == Sweep(t)
  {
    forall h | h in t ensures t'[h] == Sweep(t)[h] {
    }
  }

  lemma {:induction false} UpdateCounts(t: Tables, c: Counts, id: Id, una: nat, size: nat, finished: bool)
    requires Inv(t) && |TableOf(t, id.host)| == TABLE_SIZE
    ensures var e := TableOf(t, id.host)[Slot(id.key)];
      CountStep(c, t, Progress(id, una, size, finished)) ==
        Counts(c.collisions + (if e.valid && e.key != id.key then 1 else 0), c.clears,
               c.inserted + if e.valid && e.key == id.key then 0 else 1)
  {
    EvictionIsCollision(t, id);
  }

  lemma EvictionIsCollision(t: Tables, id: Id)
    requires Inv(t) && |TableOf(t, id.host)| == TABLE_SIZE
    ensures var e := TableOf(t, id.host)[Slot(id.key)];
      && (Collides(t, id) <==> e.valid && e.key != id.key)
      && (id in Live(t) <==> e.valid && e.key == id.key)
  {
    var e := TableOf(t, id.host)[Slot(id.key)];
    LiveIsStored(t, id);
    if e.valid && e.key != id.key {
      LiveIsStored(t, Id(id.host, e.key));
      assert Rivals(Id(id.host, e.key), id);
    }
    if Collides(t, id) {
      var other: Id :| Rivals(other, id) && other in Live(t);
      LiveIsStored(t, other);
    }
  }
}
