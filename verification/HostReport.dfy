/** The host flow report on its way from the simulator's printer to the tuner's reader and classifier. */
module HostReport {
  import opened Text
  import opened Collections
  import HostWr

  // ---------------------------------------------------------------------------
  // Printing

  function WrTokens(time: string, l: HostWr.Line): seq<string> {
    [time, "wr", Decimal(l.id.host), Decimal(l.slot), Decimal(l.id.key), Decimal(l.completed), Decimal(l.size)]
  }

  function SummaryTokens(time: string, active: nat, collisions: nat, clears: nat): seq<string> {
    [time, "wr_summary", Decimal(active), Decimal(collisions), Decimal(clears)]
  }

  function PrintLines(time: string, lines: seq<HostWr.Line>): seq<string> {
    if lines == [] then [] else
      PrintLines(time, lines[..|lines| - 1]) + [Join(WrTokens(time, lines[|lines| - 1]), " ")]
  }

  /** The report file: one `wr` line per reported request, then the summary. */
  function PrintReport(time: string, out: HostWr.Output): seq<string> {
    PrintLines(time, out.lines) + [Join(SummaryTokens(time, out.active, out.collisions, out.clears), " ")]
  }

  // ---------------------------------------------------------------------------
  // Reading

  datatype Flow = Flow(progress: int, size: int)

  datatype Loaded = Loaded(time: Option<real>, flows: map<string, Flow>) | ValueError

  function FlowId(host: string, key: string): string {
    host + "-" + key
  }

  /**
   * One line of the file: summaries and `wr` lines set the time, `wr` lines also record a flow, others are skipped; a
   * field that is no number raises. `number` reads a float.
   */
  function ReadLine(number: string -> Option<real>, sofar: Loaded, line: string): Loaded
    requires sofar.Loaded?
  {
    var parts := Split(line);
    if |parts| == 5 && parts[1] == "wr_summary" then
      match number(parts[0])
      case Some(time) => sofar.(time := Some(time))
      case None => ValueError
    else if |parts| != 7 || parts[1] != "wr" then sofar
    else match (number(parts[0]), ParseInteger(parts[5]), ParseInteger(parts[6]))
      case (Some(time), Some(progress), Some(size)) =>
        Loaded(Some(time), sofar.flows[FlowId(parts[2], parts[4]) := Flow(progress, size)])
      case _ => ValueError
  }

  ghost function ReadLines(number: string -> Option<real>, lines: seq<string>): Loaded {
    if lines == [] then Loaded(None, map[]) else
      var sofar := ReadLines(number, lines[..|lines| - 1]);
      if sofar.ValueError? then ValueError else ReadLine(number, sofar, lines[|lines| - 1])
  }

  method LoadHostFlowReport(number: string -> Option<real>, lines: seq<string>) returns (r: Loaded)
    ensures r == ReadLines(number, lines)
  {
    r := Loaded(None, map[]);
    for i := 0 to |lines|
      invariant r.Loaded? && r == ReadLines(number, lines[..i])
    {
      assert lines[..i + 1][..i] == lines[..i];
      var next := ReadLine(number, r, lines[i]);
      if next.ValueError? {
        StaysFailed(number, lines, i + 1);
        return ValueError;
      }
      r := next;
    }
    assert lines[..|lines|] == lines;
  }

  lemma {:induction false} StaysFailed(number: string -> Option<real>, lines: seq<string>, i: nat)
    requires i <= |lines| && ReadLines(number, lines[..i]).ValueError?
    ensures ReadLines(number, lines).ValueError?
    decreases |lines| - i
  {
    if i == |lines| {
      assert lines[..i] == lines;
    } else {
      assert lines[..i + 1][..i] == lines[..i];
      StaysFailed(number, lines, i + 1);
    }
  }

  // ---------------------------------------------------------------------------
  // Reading back what was printed

  /** `time` is printed as a word that reads back as a number. */
  ghost predicate Reads(number: string -> Option<real>, time: string) {
    IsToken(time) && number(time).Some?
  }

  function IdText(id: HostWr.Id): string {
    FlowId(Decimal(id.host), Decimal(id.key))
  }

  lemma DashPosition(x: string, r: string, y: string, r': string)
    requires AllDigits(x) && AllDigits(y) && x + "-" + r == y + "-" + r'
    ensures |x| <= |y|
  {
    assert (y + "-" + r')[|y|] == '-';
    assert |y| < |x| ==> (x + "-" + r)[|y|] == x[|y|] && IsDigit(x[|y|]);
  }

  lemma IdTextInjective(a: HostWr.Id, b: HostWr.Id)
    requires IdText(a) == IdText(b)
    ensures a == b
  {
    var x, y := Decimal(a.host), Decimal(b.host);
    DashPosition(x, Decimal(a.key), y, Decimal(b.key));
    DashPosition(y, Decimal(b.key), x, Decimal(a.key));
    assert IdText(a)[..|x|] == x && IdText(b)[..|x|] == y;
    assert IdText(a)[|x| + 1..] == Decimal(a.key) && IdText(b)[|x| + 1..] == Decimal(b.key);
    DecimalInjective(a.host, b.host);
    DecimalInjective(a.key, b.key);
  }

  lemma DigitsAreToken(s: string)
    requires s != "" && AllDigits(s)
    ensures IsToken(s)
  {
  }

  lemma DecimalIsInteger(n: nat)
    ensures ParseInteger(Decimal(n)) == Some(n)
  {
    IntegerRoundTrip(n);
  }

  lemma ReadWr(number: string -> Option<real>, sofar: Loaded, time: string, l: HostWr.Line)
    requires sofar.Loaded? && Reads(number, time)
    ensures ReadLine(number, sofar, Join(WrTokens(time, l), " ")) ==
      Loaded(number(time), sofar.flows[IdText(l.id) := Flow(l.completed, l.size)])
  {
    var ts := WrTokens(time, l);
    forall i | 0 <= i < |ts| ensures IsToken(ts[i]) {
      if i >= 2 {
        DigitsAreToken(ts[i]);
      }
    }
    SplitJoined(ts);
    DecimalIsInteger(l.completed);
    DecimalIsInteger(l.size);
  }

  lemma ReadSummary(number: string -> Option<real>, sofar: Loaded, time: string, out: HostWr.Output)
    requires sofar.Loaded? && Reads(number, time)
    ensures ReadLine(number, sofar, Join(SummaryTokens(time, out.active, out.collisions, out.clears), " ")) ==
      sofar.(time := number(time))
  {
    var ts := SummaryTokens(time, out.active, out.collisions, out.clears);
    forall i | 0 <= i < |ts| ensures IsToken(ts[i]) {
      if i >= 2 {
        DigitsAreToken(ts[i]);
      }
    }
    SplitJoined(ts);
  }

  /** Where the printed fields stand in the two kinds of lines. */
  lemma PrintedFields(time: string, l: HostWr.Line, out: HostWr.Output)
    requires IsToken(time)
    ensures var p := Split(Join(WrTokens(time, l), " "));
      && |p| == 7 && p[0] == time && p[1] == "wr" && ParseInteger(p[2]) == Some(l.id.host)
      && ParseInteger(p[3]) == Some(l.slot) && ParseInteger(p[4]) == Some(l.id.key)
      && ParseInteger(p[5]) == Some(l.completed) && ParseInteger(p[6]) == Some(l.size)
    ensures var p := Split(Join(SummaryTokens(time, out.active, out.collisions, out.clears), " "));
      && |p| == 5 && p[0] == time && p[1] == "wr_summary" && ParseInteger(p[2]) == Some(out.active)
      && ParseInteger(p[3]) == Some(out.collisions) && ParseInteger(p[4]) == Some(out.clears)
  {
    TokensOk(WrTokens(time, l));
    TokensOk(SummaryTokens(time, out.active, out.collisions, out.clears));
    DecimalIsInteger(l.id.host);
    DecimalIsInteger(l.slot);
    DecimalIsInteger(l.id.key);
    DecimalIsInteger(l.completed);
    DecimalIsInteger(l.size);
    DecimalIsInteger(out.active);
    DecimalIsInteger(out.collisions);
    DecimalIsInteger(out.clears);
  }

  lemma TokensOk(ts: seq<string>)
    requires |ts| >= 2 && IsToken(ts[0]) && IsToken(ts[1]) && AllNumbers(ts[2..])
    ensures Split(Join(ts, " ")) == ts
  {
    forall i | 0 <= i < |ts| ensures IsToken(ts[i]) {
      if i >= 2 {
        NumberIsToken(ts, i);
      }
    }
    SplitJoined(ts);
  }

  lemma NumberIsToken(ts: seq<string>, i: nat)
    requires 2 <= i < |ts| && AllNumbers(ts[2..])
    ensures IsToken(ts[i])
  {
    assert ts[i] == ts[2..][i - 2];
    DigitsAreToken(ts[i]);
  }

  ghost predicate AllNumbers(ts: seq<string>) {
    forall i :: 0 <= i < |ts| ==> ts[i] != "" && AllDigits(ts[i])
  }

  /** A `wr` line that is cut off after some of its fields changes nothing. */
  lemma CutOffLine(number: string -> Option<real>, sofar: Loaded, time: string, l: HostWr.Line, n: nat)
    requires sofar.Loaded? && IsToken(time) && n < 7
    ensures ReadLine(number, sofar, Join(WrTokens(time, l)[..n], " ")) == sofar
  {
    var ts := WrTokens(time, l);
    forall i | 0 <= i < |ts[..n]| ensures IsToken(ts[..n][i]) {
      if i >= 2 {
        DigitsAreToken(ts[i]);
      }
    }
    SplitJoined(ts[..n]);
    assert n == 5 ==> ts[..n][1] == "wr" && |ts[..n][1]| == 2;
  }

  /** Other lines change nothing either, whatever else they hold. */
  ghost predicate Skipped(line: string) {
    var parts := Split(line);
    (|parts| != 5 && |parts| != 7) || (parts[1] != "wr" && parts[1] != "wr_summary")
      || (|parts| == 5 && parts[1] == "wr") || (|parts| == 7 && parts[1] == "wr_summary")
  }

  ghost function Kept(lines: seq<string>): seq<string> {
    if lines == [] then [] else
      Kept(lines[..|lines| - 1]) + if Skipped(lines[|lines| - 1]) then [] else [lines[|lines| - 1]]
  }

  /** So a report interleaved with such lines reads as the report alone. */
  lemma {:induction false} SkippedLines(number: string -> Option<real>, lines: seq<string>)
    ensures ReadLines(number, lines) == ReadLines(number, Kept(lines))
  {
    if lines != [] {
      var before, last := lines[..|lines| - 1], lines[|lines| - 1];
      SkippedLines(number, before);
      if Skipped(last) {
        assert Kept(lines) == Kept(before);
      } else {
        assert (Kept(before) + [last])[..|Kept(before)|] == Kept(before);
      }
    }
  }

  ghost function Ids(lines: seq<HostWr.Line>): (ids: seq<string>)
    ensures |ids| == |lines|
  {
    if lines == [] then [] else Ids(lines[..|lines| - 1]) + [IdText(lines[|lines| - 1].id)]
  }

  ghost function Flows(lines: seq<HostWr.Line>): (flows: seq<Flow>)
    ensures |flows| == |lines|
  {
    if lines == [] then [] else
      Flows(lines[..|lines| - 1]) + [Flow(lines[|lines| - 1].completed, lines[|lines| - 1].size)]
  }

  /** The map holds exactly one entry per position, in other words the keys are distinct. */
  ghost predicate OneEntryEach(keys: seq<string>, values: seq<Flow>, m: map<string, Flow>)
    requires |keys| == |values|
  {
    && |m| == |keys|
    && (forall i :: 0 <= i < |keys| ==> keys[i] in m && m[keys[i]] == values[i])
    && (forall k <- m :: k in keys)
  }

  /** The flows of a report, one per line. */
  ghost predicate FlowsOf(lines: seq<HostWr.Line>, flows: map<string, Flow>) {
    OneEntryEach(Ids(lines), Flows(lines), flows)
  }

  lemma AddEntry(keys: seq<string>, values: seq<Flow>, m: map<string, Flow>, k: string, v: Flow)
    requires |keys| == |values| && OneEntryEach(keys, values, m) && k !in keys
    ensures OneEntryEach(keys + [k], values + [v], m[k := v])
  {
    assert m[k := v].Keys == m.Keys + {k};
    assert |m[k := v]| == |m| + 1;
  }

  lemma {:induction false} NewId(lines: seq<HostWr.Line>, id: HostWr.Id)
    requires forall i :: 0 <= i < |lines| ==> lines[i].id != id
    ensures IdText(id) !in Ids(lines)
  {
    if lines != [] {
      NewId(lines[..|lines| - 1], id);
      if IdText(lines[|lines| - 1].id) == IdText(id) {
        IdTextInjective(lines[|lines| - 1].id, id);
      }
    }
  }

  lemma {:induction false} ReadPrintedLines(number: string -> Option<real>, time: string, lines: seq<HostWr.Line>)
    requires Reads(number, time) && HostWr.DistinctIds(lines)
    ensures var r := ReadLines(number, PrintLines(time, lines));
      r.Loaded? && FlowsOf(lines, r.flows)
  {
    if lines != [] {
      var rest, l := lines[..|lines| - 1], lines[|lines| - 1];
      ReadPrintedLines(number, time, rest);
      var before := ReadLines(number, PrintLines(time, rest));
      ReadOneMore(number, PrintLines(time, rest), time, l);
      NewId(rest, l.id);
      AddEntry(Ids(rest), Flows(rest), before.flows, IdText(l.id), Flow(l.completed, l.size));
    }
  }

  lemma {:induction false} ReadOneMore(number: string -> Option<real>, text: seq<string>, time: string, l: HostWr.Line)
    requires Reads(number, time) && ReadLines(number, text).Loaded?
    ensures ReadLines(number, text + [Join(WrTokens(time, l), " ")]) ==
      Loaded(number(time), ReadLines(number, text).flows[IdText(l.id) := Flow(l.completed, l.size)])
  {
    var more := text + [Join(WrTokens(time, l), " ")];
    assert more[..|more| - 1] == text;
    ReadWr(number, ReadLines(number, text), time, l);
  }

  /** The summary line changes nothing but the time. */
  lemma ReadEnd(number: string -> Option<real>, time: string, out: HostWr.Output)
    requires Reads(number, time) && ReadLines(number, PrintLines(time, out.lines)).Loaded?
    ensures ReadLines(number, PrintReport(time, out)) ==
      Loaded(number(time), ReadLines(number, PrintLines(time, out.lines)).flows)
  {
    var text := PrintReport(time, out);
    assert text[..|text| - 1] == PrintLines(time, out.lines);
    ReadSummary(number, ReadLines(number, PrintLines(time, out.lines)), time, out);
  }

  /** Reading a printed report of the tables gives its time and exactly one flow per `wr` line. */
  lemma ReadPrintedReport(number: string -> Option<real>, t: HostWr.Tables, time: string, out: HostWr.Output)
    requires HostWr.Inv(t) && HostWr.ReportOf(t, out.lines) && Reads(number, time)
    ensures var r := ReadLines(number, PrintReport(time, out));
      r.Loaded? && r.time == number(time) && FlowsOf(out.lines, r.flows)
  {
    ReadPrintedLines(number, time, out.lines);
    ReadEnd(number, time, out);
  }

  // ---------------------------------------------------------------------------
  // Classification

  const LARGE_FLOW_THRESHOLD_BYTES: nat := 1024 * 1024

  /** Progress rounded up to whole chunks, capped at the flow size. */
  function ChunkVisibleSize(chunk: nat, f: Flow): int
    requires chunk > 0
  {
    if f.progress <= 0 then 0 else
      var aligned := (f.progress + chunk - 1) / chunk * chunk;
      if f.size < aligned then f.size else aligned
  }

  predicate SeenLarge(chunk: nat, f: Flow)
    requires chunk > 0
  {
    ChunkVisibleSize(chunk, f) >= LARGE_FLOW_THRESHOLD_BYTES
  }

  predicate TrulyLarge(f: Flow) {
    f.size >= LARGE_FLOW_THRESHOLD_BYTES
  }

  /**
   * A flow is seen as large exactly when it is large and its progress has passed the last chunk boundary below the
   * threshold.
   */
  lemma SeenLargeExactly(chunk: nat, f: Flow)
    requires chunk > 0
    ensures SeenLarge(chunk, f) <==>
      TrulyLarge(f) && f.progress > (LARGE_FLOW_THRESHOLD_BYTES - 1) / chunk * chunk
  {
    if f.progress > 0 {
      RoundUpReaches(f.progress, chunk, LARGE_FLOW_THRESHOLD_BYTES);
    } else {
      assert (LARGE_FLOW_THRESHOLD_BYTES - 1) / chunk * chunk >= 0;
    }
  }

  /** The visible size: whole chunks that cover the progress, by less than one chunk, or the whole flow. */
  lemma VisibleSizeIs(chunk: nat, f: Flow)
    requires chunk > 0
    ensures var v := ChunkVisibleSize(chunk, f);
      && (f.progress <= 0 ==> v == 0)
      && (f.progress > 0 ==> v <= f.size && (v < f.size ==> f.progress <= v < f.progress + chunk && v % chunk == 0))
  {
    if f.progress > 0 {
      var p: nat := f.progress - 1;
      AddDivisor(p, chunk);
      QuotientBounds(p, chunk);
      var q := p / chunk + 1;
      assert q * chunk == p / chunk * chunk + chunk;
      WholeChunks(q, chunk);
    }
  }

  lemma WholeChunks(q: nat, c: nat)
    requires c > 0
    ensures q * c % c == 0
  {
    var x := q * c;
    QuotientUnique(x, c, q);
    Remainder(x, c);
  }

  lemma Remainder(x: nat, c: nat)
    requires c > 0
    ensures x == x / c * c + x % c
  {
  }

  lemma RoundUpReaches(p: nat, c: nat, t: nat)
    requires c > 0 && p > 0 && t > 0
    ensures (p + c - 1) / c * c >= t <==> p > (t - 1) / c * c
  {
    var q, k := (p - 1) / c, (t - 1) / c;
    AddDivisor(p - 1, c);
    QuotientBounds(p - 1, c);
    QuotientBounds(t - 1, c);
    assert (q + 1) * c == q * c + c;
    if q >= k {
      Scale(k, q, c);
    } else {
      Scale(q + 1, k, c);
    }
  }

  lemma AddDivisor(a: nat, c: nat)
    requires c > 0
    ensures (a + c) / c == a / c + 1
  {
    var q := a / c;
    QuotientBounds(a, c);
    assert (q + 1) * c == q * c + c;
    QuotientUnique(a + c, c, q + 1);
  }

  lemma QuotientUnique(a: nat, c: nat, q: nat)
    requires c > 0 && q * c <= a < q * c + c
    ensures a / c == q
  {
    QuotientBounds(a, c);
    var r := a / c;
    if r < q {
      Scale(r + 1, q, c);
    } else if q < r {
      Scale(q + 1, r, c);
    }
  }

  lemma QuotientBounds(a: nat, c: nat)
    requires c > 0
    ensures a / c * c <= a < a / c * c + c
  {
  }

  lemma Scale(a: nat, b: nat, c: nat)
    requires a <= b
    ensures a * c <= b * c
  {
  }

  /** Once large, a flow stays large as its progress grows. */
  lemma LargeStays(chunk: nat, f: Flow, later: int)
    requires chunk > 0 && SeenLarge(chunk, f) && f.progress <= later
    ensures SeenLarge(chunk, f.(progress := later))
  {
    SeenLargeExactly(chunk, f);
    SeenLargeExactly(chunk, f.(progress := later));
  }

  /** With a chunk of at least the threshold, any progress reveals the true class. */
  lemma BigChunkIsExact(chunk: nat, f: Flow)
    requires chunk >= LARGE_FLOW_THRESHOLD_BYTES && f.progress > 0
    ensures SeenLarge(chunk, f) <==> TrulyLarge(f)
  {
    SeenLargeExactly(chunk, f);
    assert (LARGE_FLOW_THRESHOLD_BYTES - 1) / chunk == 0;
  }

  datatype Ratio = Ratio(large: nat, small: nat, trueLarge: nat, trueSmall: nat)

  ghost function LargeFlows(chunk: nat, flows: map<string, Flow>, ks: set<string>): set<string>
    requires chunk > 0
  {
    set k | k in ks && k in flows && SeenLarge(chunk, flows[k])
  }

  ghost function TrulyLargeFlows(flows: map<string, Flow>, ks: set<string>): set<string> {
    set k | k in ks && k in flows && TrulyLarge(flows[k])
  }

  /** The counters for the flows `ks`. */
  ghost predicate Tallied(chunk: nat, flows: map<string, Flow>, ks: set<string>, r: Ratio)
    requires chunk > 0
  {
    && r.large == |LargeFlows(chunk, flows, ks)|
    && r.trueLarge == |TrulyLargeFlows(flows, ks)|
    && r.large + r.small == |ks| && r.trueLarge + r.trueSmall == |ks|
  }

  function Tally(chunk: nat, r: Ratio, f: Flow): Ratio
    requires chunk > 0
  {
    var r' := if f.size >= LARGE_FLOW_THRESHOLD_BYTES then r.(trueLarge := r.trueLarge + 1)
        else r.(trueSmall := r.trueSmall + 1);
    if ChunkVisibleSize(chunk, f) >= LARGE_FLOW_THRESHOLD_BYTES then r'.(large := r'.large + 1)
        else r'.(small := r'.small + 1)
  }

  lemma TalliedNext(chunk: nat, flows: map<string, Flow>, ks: set<string>, r: Ratio, k: string)
    requires chunk > 0 && Tallied(chunk, flows, ks, r) && k !in ks && k in flows
    ensures Tallied(chunk, flows, ks + {k}, Tally(chunk, r, flows[k]))
  {
    LargeNext(chunk, flows, ks, k);
    TrulyLargeNext(flows, ks, k);
  }

  lemma LargeNext(chunk: nat, flows: map<string, Flow>, ks: set<string>, k: string)
    requires chunk > 0 && k !in ks && k in flows
    ensures |LargeFlows(chunk, flows, ks + {k})| == |LargeFlows(chunk, flows, ks)| + if SeenLarge(chunk, flows[k])
      then 1 else 0
  {
    var large, large' := LargeFlows(chunk, flows, ks), LargeFlows(chunk, flows, ks + {k});
    if SeenLarge(chunk, flows[k]) {
      assert large' == large + {k};
    } else {
      assert large' == large;
    }
  }

  lemma TrulyLargeNext(flows: map<string, Flow>, ks: set<string>, k: string)
    requires k !in ks && k in flows
    ensures |TrulyLargeFlows(flows, ks + {k})| == |TrulyLargeFlows(flows, ks)| + if TrulyLarge(flows[k]) then 1 else 0
  {
    var large, large' := TrulyLargeFlows(flows, ks), TrulyLargeFlows(flows, ks + {k});
    if TrulyLarge(flows[k]) {
      assert large' == large + {k};
    } else {
      assert large' == large;
    }
  }

  /** The counters are the sizes of the classes, and a flow is never seen larger than it is. */
  method ClassifyHostFlowProgress(chunk: nat, flows: map<string, Flow>) returns (r: Ratio)
    requires chunk > 0
    ensures r.large == |LargeFlows(chunk, flows, flows.Keys)|
    ensures r.trueLarge == |TrulyLargeFlows(flows, flows.Keys)|
    ensures r.large + r.small == |flows| && r.trueLarge + r.trueSmall == |flows|
    ensures r.large <= r.trueLarge
  {
    r := Ratio(0, 0, 0, 0);
    var todo := flows.Keys;
    ghost var done: set<string> := {};
    while todo != {}
      invariant done == flows.Keys - todo && todo <= flows.Keys
      invariant Tallied(chunk, flows, done, r)
    {
      var k := AnyOf(todo);
      TalliedNext(chunk, flows, done, r, k);
      r := Tally(chunk, r, flows[k]);
      todo := todo - {k};
      done := done + {k};
    }
    assert done == flows.Keys;
    SeenIsTrue(chunk, flows);
  }

  lemma SeenIsTrue(chunk: nat, flows: map<string, Flow>)
    requires chunk > 0
    ensures |LargeFlows(chunk, flows, flows.Keys)| <= |TrulyLargeFlows(flows, flows.Keys)|
  {
    forall k | k in LargeFlows(chunk, flows, flows.Keys) ensures k in TrulyLargeFlows(flows, flows.Keys) {
      SeenLargeExactly(chunk, flows[k]);
    }
    HostWr.SubsetSize(LargeFlows(chunk, flows, flows.Keys), TrulyLargeFlows(flows, flows.Keys));
  }

  // ---------------------------------------------------------------------------
  // From the tables to the classifier

  function LineFlow(l: HostWr.Line): Flow {
    Flow(l.completed, l.size)
  }

  /** How many reported requests are seen large. */
  ghost function LargeLines(chunk: nat, lines: seq<HostWr.Line>): nat
    requires chunk > 0
  {
    if lines == [] then 0 else
      LargeLines(chunk, lines[..|lines| - 1]) + if SeenLarge(chunk, LineFlow(lines[|lines| - 1])) then 1 else 0
  }

  /** How many of them are large. */
  ghost function TrulyLargeLines(lines: seq<HostWr.Line>): nat {
    if lines == [] then 0 else
      TrulyLargeLines(lines[..|lines| - 1]) + if TrulyLarge(LineFlow(lines[|lines| - 1])) then 1 else 0
  }

  lemma OneMore<T>(a: set<T>, b: set<T>, x: T, more: bool)
    requires x !in a && forall y :: y in b <==> y in a || (y == x && more)
    ensures |b| == |a| + if more then 1 else 0
  {
    assert b == if more then a + {x} else a;
  }

  lemma LargeAdded(chunk: nat, m: map<string, Flow>, k: string, f: Flow)
    requires chunk > 0 && k !in m
    ensures |LargeFlows(chunk, m[k := f], m[k := f].Keys)|
         == |LargeFlows(chunk, m, m.Keys)| + if SeenLarge(chunk, f) then 1 else 0
  {
    var large, large' := LargeFlows(chunk, m, m.Keys), LargeFlows(chunk, m[k := f], m[k := f].Keys);
    forall x ensures x in large' <==> x in large || (x == k && SeenLarge(chunk, f)) {
    }
    OneMore(large, large', k, SeenLarge(chunk, f));
  }

  lemma TrulyLargeAdded(m: map<string, Flow>, k: string, f: Flow)
    requires k !in m
    ensures |TrulyLargeFlows(m[k := f], m[k := f].Keys)| == |TrulyLargeFlows(m, m.Keys)| + if TrulyLarge(f) then 1
      else 0
  {
    var large, large' := TrulyLargeFlows(m, m.Keys), TrulyLargeFlows(m[k := f], m[k := f].Keys);
    forall x ensures x in large' <==> x in large || (x == k && TrulyLarge(f)) {
    }
    OneMore(large, large', k, TrulyLarge(f));
  }

  /** The classes of the flows read back are those of the reported requests. */
  lemma {:induction false} ReadClasses(number: string -> Option<real>, chunk: nat, time: string,
                                       lines: seq<HostWr.Line>)
    requires chunk > 0 && Reads(number, time) && HostWr.DistinctIds(lines)
    ensures var r := ReadLines(number, PrintLines(time, lines));
      && r.Loaded?
      && |LargeFlows(chunk, r.flows, r.flows.Keys)| == LargeLines(chunk, lines)
      && |TrulyLargeFlows(r.flows, r.flows.Keys)| == TrulyLargeLines(lines)
  {
    if lines == [] {
      assert LargeFlows(chunk, map[], {}) == {} && TrulyLargeFlows(map[], {}) == {};
    } else {
      var rest, l := lines[..|lines| - 1], lines[|lines| - 1];
      ReadClasses(number, chunk, time, rest);
      ReadPrintedLines(number, time, rest);
      ReadOneMore(number, PrintLines(time, rest), time, l);
      NewId(rest, l.id);
      var before := ReadLines(number, PrintLines(time, rest)).flows;
      LargeAdded(chunk, before, IdText(l.id), LineFlow(l));
      TrulyLargeAdded(before, IdText(l.id), LineFlow(l));
    }
  }

  /**
   * Printing a report, reading it and classifying counts exactly the reported requests that are seen large and truly
   * large, and the classes add up to the active count of the summary line.
   */
  method Observe(number: string -> Option<real>, ghost t: HostWr.Tables, time: string, out: HostWr.Output, chunk: nat)
    returns (r: Ratio)
    requires HostWr.Inv(t) && HostWr.ReportOf(t, out.lines) && out.active == |out.lines| && Reads(number, time)
      && chunk > 0
    ensures r.large == LargeLines(chunk, out.lines) && r.trueLarge == TrulyLargeLines(out.lines)
    ensures r.large + r.small == out.active && r.trueLarge + r.trueSmall == out.active && r.large <= r.trueLarge
  {
    ReadPrintedReport(number, t, time, out);
    ReadClasses(number, chunk, time, out.lines);
    ReadEnd(number, time, out);
    var loaded := LoadHostFlowReport(number, PrintReport(time, out));
    r := ClassifyHostFlowProgress(chunk, loaded.flows);
  }
}
