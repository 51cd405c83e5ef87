# Verified models of the RDMA simulator and its online tuner

This project models the algorithmic parts of an ns-3.17 RDMA simulator that is driven by an online tuner, and proves
what those parts are relied on for. Each module follows one component:

- `Rotations`, `Cycles`: the rotation test and the explicit-stack enumeration of elementary cycles. The enumeration ends
  on every finite graph, yields elementary cycles only, never two rotations of one cycle, and misses none, although it
  skips start nodes that an earlier start has visited.
- `Topsort`: Kahn's sort of pairs, flat and level by level. Sorting succeeds exactly when there is no cycle, duplicates
  and self-loops included, and a level number is the length of the longest chain of ancestors.
- `Routing`: the breadth-first search per host, the installed tables, and link failures. Distances, equal-cost next hops
  and path measures are exact; any choice of next hops reaches the host in exactly the distance; every run of failures
  keeps this, and no distance shrinks.
- `Mixer`, `HostWr`, `HostReport`, `Text`: the direct-mapped work-request tables, their periodic report, and the reader and
  classifier of that report. The counters balance over every run, the tables agree with a plain map exactly on the runs
  without a collision, a completed flow is reported at full size once, and the classes add up to the reported count.
  The mixer that chooses slots maps different keys to different 64-bit numbers before they are reduced.
- `Parameters`, `Annealing`, `Ewma`: candidate generation, the parameter file, the annealing session, and the moving
  average with the script that rebuilds it from the log.
- `Rationals`: an instance of what the parameter file asks of the text of floats. Only the numbers that can be printed
  have to read back, and the arithmetic has to stay among them; the rational numbers, with the tuner's own table, do.
- `Pfc`: the incremental reader of the pause log.
- `TunerThreads`: the monitor loop and the tuning threads as interleaved steps over a shared flag.
- `Flows`: the start of flows, their ports and counters, and the stop request.
- `WorkerPool`: the test runner's threads, queues and collector as interleaved steps.
- `LogLines`: printing and parsing of the key-value lines of the tuner log.
- `Pareto`: the Pareto filter.

Code that changes variables in loops is a method with invariants, objects and groups of globals are classes, and each
such method is tied to a specification function or predicate about which the lemmas speak. Random draws, measured
utilities, file contents, iteration orders of sets and dictionaries, and thread schedules are arbitrary inputs. Numbers
that the code holds as floats are reals; 64-bit and 16-bit wrap-around is written out where it can occur.

Where the code does less than one would expect, the exact condition is proved next to a concrete case:

- Replaying the log rebuilds the tuner's averages if and only if no round has a negative utility and, after each negative
  baseline that is followed by rounds, the script still holds an earlier value from which the first of these rounds is no
  bad step: its pattern does not match a minus sign (`Ewma.ReplayIsExact`, `Ewma.NegativeRoundIsLost`,
  `Ewma.HiddenBaselineRaises`, `Ewma.HiddenBaselineMisleads`). The weights come from the environment and may be negative;
  with non-negative ones, such as the defaults, the replay is always exact (`Ewma.MeasuredReplay`).
- A flow of 2^64 - 1 bytes that was never reported looks already reported when it completes, and is freed silently
  (`HostWr.ReportedExactlyOnce`, `HostWr.SilentFlow`). The flow file gives sizes as 32-bit numbers, so this cannot happen
  to a flow read from it (`HostWr.FileFlowReportedOnce`).
- The cursor of the pause log is the stopping row's line number in the file, before incomplete lines are dropped. It is
  the stopping row if and only if every line before that row is complete, and is one row too far for each that is not; over
  a whole run all cursors are right if and only if no incomplete line precedes any stopping row (`Pfc.CursorExact`,
  `Pfc.RunExact`, `Pfc.DroppedLineLosesRow`).
- The links counted as paused in a window are compared with the links paused at some instant of it, for every window over
  a time-ordered log. A window that starts where the last one stopped misses no link, and counts one wrongly exactly when
  all its pauses there are undone with the same time stamp (`Pfc.BackToBackWindow`). After a gap, which is how each
  session starts, a link is missed exactly when it was paused in the gap and has no row in the window, and counted wrongly
  exactly when no pause of the window lasts and it was resumed in the gap, resumed at the very start, or only paused for
  no time (`Pfc.GapWindow`). A window that reaches back before the consumed rows has its own exact conditions
  (`Pfc.OverlapWindow`). `Pfc.BlipIsCounted`, `Pfc.GapPauseIsMissed`, `Pfc.GapResumeIsCounted` and
  `Pfc.OverlapPauseIsMissed` are concrete cases.
- Source ports of a host pair repeat exactly after multiples of 65536 flows of that pair (`Flows.PortsShared`,
  `Flows.PortReused`).
- Splitting at top-level commas undoes joining with ", " if and only if the segments are trimmed, not empty, free of
  top-level commas and, but for the last, closed (`LogLines.SplitUndoesJoin`, `LogLines.NotSplittable`).
- Taking down a link recomputes the measures of the pairs still connected and clears the routing tables, but the measures
  of a pair that is cut off stay those of a shortest route just before (`Routing.Network.TakeDownLinks`).

Run `dafny verify dfyconfig.toml` to check the whole project.

## Model

| member | source | states |
|---|---|---|
| Rotations.IsRotated | bindings/python/rad_util.py:762-775 | the answer is true exactly when the second sequence is the first read from some other start, repeated items included |
| Rotations.RotationSymmetric | bindings/python/rad_util.py:762-775 | being rotations of each other does not depend on the order of the arguments |
| Rotations.RotationTransitive | bindings/python/rad_util.py:762-775 | rotations of rotations are rotations, so comparing with yielded cycles only is enough |
| Cycles.FindCycles | bindings/python/topsort.py:343-385 | for every finite graph and iteration order it ends; all yields are elementary cycles, no two are rotations, every elementary cycle is yielded up to rotation |
| Cycles.Explore | bindings/python/topsort.py:351-385 | from one start, every simple path is expanded and every cycle closed by a simple path becomes known; visited nodes are reachable from a start |
| Cycles.Expand | bindings/python/topsort.py:362-385 | one popped path: its closing edges give known cycles, its other edges are pushed as extensions |
| Cycles.AddCycle | bindings/python/topsort.py:369-378 | the cycle is known afterwards and the list still holds no two rotations |
| Cycles.PopPays | bindings/python/topsort.py:352-383 | popping a simple path and pushing its extensions lowers the worth of the stack, so the loop ends |
| Cycles.CycleFromRoot | bindings/python/topsort.py:362-383 | a cycle met by any simple path from an explored start is known |
| Cycles.FoundFromSomeRoot | bindings/python/topsort.py:346-349 | skipping visited start nodes loses no cycle |
| Topsort.Sort | bindings/python/topsort.py:61-112 | a list is returned exactly when the pairs have no cycle; it holds each element once with all parents before each child; the error carries the exact leftover counts |
| Topsort.Count | bindings/python/topsort.py:77-90 | the dictionaries count parents and list children with multiplicity |
| Topsort.KeysWithoutParents | bindings/python/topsort.py:92-93 | exactly the keys with count zero, each once |
| Topsort.Decrement | bindings/python/topsort.py:100-103 | counts fall by the multiplicity of each child; a child is appended once, when its count reaches zero |
| Topsort.ParentDone | bindings/python/topsort.py:97-103 | finishing a parent lowers a child's open parent count by the number of pairs between them |
| Topsort.TrappedCycle | bindings/python/topsort.py:108-111 | elements that all keep an unfinished parent contain a cycle |
| Topsort.OrderedHasNoCycle | bindings/python/topsort.py:108-112 | a complete list in dependency order rules out a cycle |
| Topsort.Levels | bindings/python/topsort.py:157-232 | level k holds exactly the elements whose longest chain of ancestors has k pairs; the error is raised exactly when there is a cycle, which is when some element is in no level |
| Topsort.RemoveLevel | bindings/python/topsort.py:217-224 | taking out a level leaves exact counts for the rest |
| Topsort.NextLevel | bindings/python/topsort.py:205-208 | the parentless rest after k levels are the elements with a chain of k pairs and no longer one |
| Topsort.LevelsEnd | bindings/python/topsort.py:226-232 | leftovers exist exactly when there is a cycle |
| Routing.SearchFrom | scratch/third.cc:531-569 | labels are least hop counts over up links through switches only, with delay, transmission delay and bandwidth of one common shortest route; the next hops of a node are exactly its usable neighbours one hop nearer, each once |
| Routing.LabelsMean | scratch/third.cc:555-560 | each label belongs to one shortest route: its delay and sending time are the sums over the hops, its bandwidth is at most the rate of every hop and is the rate of one |
| Routing.PathBwIsLeast | scratch/third.cc:559-559 | the bandwidth of a route is the least rate of its hops |
| Routing.TxTimeExact | scratch/third.cc:558-558 | the sending time is the number of bits times 10^9 divided by the rate, rounded down |
| Routing.NoShorterRoute | scratch/third.cc:546-569 | no route is shorter than the label of its end |
| Routing.HopsAreNearer | scratch/third.cc:564-567 | pushed neighbours are exactly the next hops of the reference notion |
| Routing.ForwardingReaches | scratch/third.cc:564-567 | whatever next hops are chosen, step i is at distance d - i, inner nodes are switches, and step d is the host |
| Routing.NextHopExists | scratch/third.cc:564-567 | a reachable node away from the host has a next hop |
| Routing.Network.constructor | scratch/third.cc:1289-1290 | after setup the installed tables and the pair measures are exact for the topology |
| Routing.Network.CalculateRoute | scratch/third.cc:531-576 | appends the exact next hops towards the host and overwrites the pair measures of the reached nodes only |
| Routing.Network.CalculateRoutes | scratch/third.cc:578-584 | from empty tables, the next hops of every host become exact; the pairs reached get the measures of a current shortest route and the others keep theirs |
| Routing.Network.SetRoutingEntries | scratch/third.cc:586-609 | appends to each table the interfaces towards the recorded next hops, in order |
| Routing.Network.SetRow | scratch/third.cc:591-607 | the entries of one destination change, all others stay |
| Routing.Network.SetEntries | scratch/third.cc:598-606 | the interfaces of one node's next hops are appended in order |
| Routing.InstalledAreUp | scratch/third.cc:598-606 | every installed entry is the interface of an up link towards a node one hop nearer |
| Routing.TablesReach | scratch/third.cc:586-629 | after any failures, with different interface numbers at each node, a packet sent out of whatever interfaces the installed tables list reaches the host in exactly the distance, through switches only |
| Routing.TablesLeadOn | scratch/third.cc:586-629 | after any failures a reachable node away from the host lists an interface that leads to a neighbour |
| Routing.Network.TakeDownLink | scratch/third.cc:612-629 | the link goes down in both directions and the tables are exact for what is left; pairs reached get new measures, others keep stale ones; a link already down changes nothing observable |
| Routing.Network.Rebuild | scratch/third.cc:613-629 | the links, tables and pair measures after the call, whether or not the link was up |
| Routing.Network.TakeDownLinks | scratch/third.cc:612-629 | every sequence of failures keeps symmetric links and exact tables; a pair still connected has the measures of a current shortest route, a recorded one cut off by some failure those of a shortest route just before it |
| Routing.TakenDownUp | scratch/third.cc:613-616 | exactly the two directions of the link lose their up state |
| Routing.CutsKeep | scratch/third.cc:612-616 | over any failures up-state stays symmetric, links only go down, and each failed link is down at the end |
| Routing.DistancesGrow | scratch/third.cc:612-618 | no distance shrinks, and what is reachable later was reachable before |
| Mixer.Slot | scratch/third.cc:225-233 | every 64-bit key maps to one of the 1024 slots |
| Mixer.XorIsBitwise | scratch/third.cc:227-231 | exclusive-or on naturals acts bit by bit |
| Mixer.FoldTwice | scratch/third.cc:227-231 | folding a 64-bit number with its upper bits undoes itself |
| Mixer.ProductUndone | scratch/third.cc:228-230 | a 64-bit multiplication by either constant is undone by its inverse |
| Mixer.MixInjective | scratch/third.cc:225-233 | different 64-bit keys stay different before the reduction to a slot |
| Mixer.ProductIsModular | scratch/third.cc:228-230 | the bit-by-bit product used by the mixer is the product modulo 2^64 |
| HostWr.StoredOnce | scratch/third.cc:214-248 | in every reachable state a host stores a key at most once |
| HostWr.UpdateLookup | scratch/third.cc:235-258 | an update changes its own request, drops the request it collides with, and no other |
| HostWr.UpdateWrites | scratch/third.cc:250-258 | in every run the entry after an update has the given size, the acknowledged bytes up to it or the whole size when finished, and the last reported progress it had, or 2^64 - 1 if it is new |
| HostWr.LastUpdateShown | scratch/third.cc:250-258 | these values stay until the next update of the request, as long as nothing takes its slot |
| HostWr.LineShowsUpdate | scratch/third.cc:458-464 | a later report line of the request shows the values of its last update |
| HostWr.SweepLookup | scratch/third.cc:449-467 | a report frees exactly the finished entries whose final progress was reported, and marks the others reported |
| HostWr.RunsBalance | scratch/third.cc:235-258 | over every run, insertions = live entries + collisions + clears |
| HostWr.TablesArePlainMap | scratch/third.cc:235-258 | the collision counter is zero exactly on clash-free runs, and then the tables equal a plain map from request to progress |
| HostWr.ReportedExactlyOnce | scratch/third.cc:431-478 | a completed flow left alone is reported at full size by exactly the first report, freed by the second, except for the silent 2^64 - 1 case |
| HostWr.SilentFlow | scratch/third.cc:453-457 | a concrete flow of 2^64 - 1 bytes is freed without any report |
| HostWr.FileFlowReportedOnce | scratch/third.cc:158-181 | sizes in the flow file are 32-bit, so each of its flows is reported at full size by exactly the first report after completion and freed by the second |
| HostWr.WriteEntry | scratch/third.cc:235-258 | the entry written, and exactly when the collision counter rises |
| HostWr.Monitor.constructor | scratch/third.cc:153-155 | no table, no entry, counters at zero |
| HostWr.Monitor.UpdateEntry | scratch/third.cc:250-258 | tables and counters are those of the run extended by this update |
| HostWr.Monitor.Sync | scratch/third.cc:260-275 | the run is extended by one update per active queue pair |
| HostWr.Monitor.WriteReport | scratch/third.cc:445-473 | one line per stored request that is not freed, none twice; the counted active number is the number of lines; the run is extended by a report |
| HostWr.Monitor.MonitorHostFlowReport | scratch/third.cc:431-474 | the first call only arms the timer; later calls take in the active requests and report the resulting tables with all three summary numbers |
| HostWr.SweepSlot | scratch/third.cc:450-466 | one slot is freed and counted, reported, marked and counted as active, or left blank |
| HostWr.SweepSlots | scratch/third.cc:449-467 | the slots of one host: new table, clear count and lines in slot order |
| HostWr.SweepHost | scratch/third.cc:446-468 | what the clear counter gains is what the live entries lose, and the lines are exactly the reported entries of the host |
| HostWr.SweepAll | scratch/third.cc:445-468 | the same for all hosts, in any order |
| Text.SplitJoined | scratch/tuning.py:678-678 | splitting at white space undoes joining tokens with a space |
| Text.SplitIs | scratch/tuning.py:678-678 | white space in front of and after a word is taken away, and nothing else |
| Text.TrimIs | scratch/tuning.py:1198-1199 | trimming takes away the white space at both ends, and nothing else |
| Text.DecimalRoundTrip | scratch/tuning.py:690-691 | reading a printed number gives it back |
| Text.IntegerRoundTrip | scratch/tuning.py:1206-1206 | reading a printed integer with its sign gives it back |
| Text.PlusRoundTrip | scratch/tuning.py:1206-1206 | a plus sign before the digits is accepted and means nothing |
| HostReport.LoadHostFlowReport | scratch/tuning.py:669-694 | the file is folded line by line: summaries set the time, complete wr lines record a flow, a time or count that is no number raises |
| HostReport.PrintedFields | scratch/third.cc:458-473 | the fields of both kinds of lines in their places: host, slot, key, progress, size, and active, collisions, clears |
| HostReport.CutOffLine | scratch/tuning.py:682-683 | a wr line cut off after some of its fields changes nothing |
| HostReport.SkippedLines | scratch/tuning.py:677-692 | a report among any other lines reads as the report alone |
| HostReport.IdTextInjective | scratch/tuning.py:686-688 | the printed flow identifier determines host and key |
| HostReport.ReadPrintedReport | scratch/third.cc:458-473 | reading back a printed report gives its time and exactly one flow per wr line, with its progress and size |
| HostReport.SeenLargeExactly | scratch/tuning.py:697-722 | a flow is classified large exactly when it is large and its progress has passed the last chunk boundary below the threshold |
| HostReport.VisibleSizeIs | scratch/tuning.py:697-701 | the visible size is the whole flow or whole chunks that cover the progress by less than one chunk |
| HostReport.LargeStays | scratch/tuning.py:697-722 | once large, a flow stays large as progress grows |
| HostReport.BigChunkIsExact | scratch/tuning.py:697-722 | with a chunk of at least the threshold any progress reveals the true class |
| HostReport.ClassifyHostFlowProgress | scratch/tuning.py:704-729 | the counters are the sizes of the classes, both pairs add up to the number of flows, and large never exceeds true large |
| HostReport.ReadClasses | scratch/tuning.py:677-729 | the flows read back fall into the classes of the reported requests, in the same numbers |
| HostReport.Observe | scratch/tuning.py:704-729 | from tables through file to classifier: large and true large count exactly the reported requests seen large and truly large, and large + small equals the active count of the summary line |
| Parameters.NormalizeKeepsBounds | scratch/tuning.py:942-948 | the swap orders kmin and kmax and keeps every parameter in its range |
| Parameters.NormalizeOrdered | scratch/tuning.py:942-948 | normalising twice changes nothing more, and an ordered vector not at all |
| Parameters.Candidate | scratch/tuning.py:1141-1163 | one parameter: kept, or moved, rounded and clamped |
| Parameters.GenerateNewParameters | scratch/tuning.py:1131-1165 | the new vector is in bounds, ordered, and each parameter moved by at most its scaled step plus rounding (the two thresholds by the larger of theirs) |
| Parameters.CandidateIs | scratch/tuning.py:1140-1165 | the vector returned holds each generated parameter, the two thresholds put in order |
| Parameters.GeneratedExactly | scratch/tuning.py:1141-1161 | a parameter not mutated keeps its value; a mutated one goes exactly by step times scale times amount in the direction of mode and draw, integers to the nearest integer, and a target beyond a bound gives the bound |
| Parameters.RoundTiesToEven | scratch/tuning.py:1153-1153 | halves are rounded to the even integer and integers stay |
| Parameters.CandidatesMove | scratch/tuning.py:1140-1165 | the same bound for every draw, through the swap |
| Parameters.MovesInDirection | scratch/tuning.py:1145-1161 | after rounding and clamping the value lies on the side the mode and direction say |
| Parameters.DefaultsOk | scratch/tuning.py:779-780 | the default vector is in bounds and ordered |
| Parameters.SpecTableOk | scratch/tuning.py:784-937 | the thirteen specifications satisfy all that the other results ask of a table |
| Parameters.WriteParameters | scratch/tuning.py:1213-1218 | the file holds one line per specification of the normalised vector, in order |
| Parameters.LoadCurrentParameters | scratch/tuning.py:1190-1210 | known names override defaults, unknown names and blank lines are skipped, malformed lines raise |
| Parameters.LoadAfterWrite | scratch/tuning.py:1190-1218 | for printable numbers, loading what was written gives the normalised vector back, hence the same vector if it was ordered |
| Parameters.LoadExactly | scratch/tuning.py:1190-1210 | in a file with any blank lines, unknown names, omissions and repetitions, each parameter has the value of its last line or its default |
| Parameters.MalformedRaises | scratch/tuning.py:1198-1199 | one line without exactly one equals sign anywhere makes loading raise |
| Parameters.CutOffIsMalformed | scratch/tuning.py:1198-1199 | so does a line cut off within its name |
| Parameters.LoadPrintable | scratch/tuning.py:1190-1210 | whatever file is loaded, its vector is printable |
| Rationals.TextOk | scratch/tuning.py:1204-1217 | rational numbers have a text that reads back, so the conditions on the text of floats can be met |
| Rationals.TunerTableFits | scratch/tuning.py:1140-1165 | with the tuner's table and rational draws, candidate generation stays among the rational numbers |
| Rationals.TunerWorldFits | scratch/tuning.py:1343-1411 | every session with rational scale and draws meets what tuning from file to file asks |
| Rationals.NoFileHoldsDefaults | scratch/tuning.py:1191-1192 | a missing parameter file stands for the defaults, in bounds and ordered |
| Annealing.CoolingEnds | scratch/tuning.py:1343-1411 | geometric cooling passes any positive final temperature |
| Annealing.TemperatureIs | scratch/tuning.py:1411-1411 | the temperature after n steps is the initial one times the n-th power of the cooling rate |
| Annealing.Tune | scratch/tuning.py:1286-1413 | the session ends after the exact number of rounds; its last write is the first solution that reached the maximum of baseline and all measured utilities; all writes are in bounds and near the last accepted solution; the average is the one its rounds determine |
| Annealing.Anneal | scratch/tuning.py:1343-1411 | one batch of attempts per temperature above the final one |
| Annealing.AttemptAll | scratch/tuning.py:1344-1409 | exactly the configured number of attempts |
| Annealing.Attempt | scratch/tuning.py:1345-1409 | one round extends the trace by one decided trial and one write |
| Annealing.Decide | scratch/tuning.py:1373-1384 | acceptance exactly when not worse or lucky, with current, best and average updated accordingly |
| Annealing.BestNext | scratch/tuning.py:1377-1384 | comparing only accepted values still keeps the first maximum of all measured ones |
| Annealing.RecordsAreAccepted | scratch/tuning.py:1373-1384 | no candidate better than everything before it is rejected |
| Annealing.WritesPrintable | scratch/tuning.py:1340-1413 | while the arithmetic stays among the printable numbers, everything a session writes and tries can be printed and read back |
| Annealing.TuneFile | scratch/tuning.py:1291-1413 | one session from parameter file to parameter file: it starts from the vector in the text, and the text it leaves reads back as its last write |
| Annealing.TuneAll | scratch/tuning.py:1576-1599 | over any sequence of sessions of either mode each one keeps all that holds of a session and starts from the file the one before left, and the average is determined by their logged rounds |
| Annealing.EveryWriteOk | scratch/tuning.py:1213-1218 | every vector written in any session of a run is in bounds with kmin <= kmax |
| Annealing.SessionsAreFair | scratch/tuning.py:1373-1380 | the logged rounds of a session obey the rule that a round at least as good as the current value is accepted |
| Annealing.RunsReplay | analysis/direction_cap_history.py:46-113 | for any run of sessions of the tuner the replay of its log is exact if and only if no round is negative and each negative baseline is recoverable |
| Ewma.RateStaysBelowOne | scratch/tuning.py:1174-1177 | one update keeps the average in [0, 1) |
| Ewma.CapInRange | scratch/tuning.py:1168-1171 | the adaptive cap lies between 0.5 and its maximum |
| Ewma.CapShape | scratch/tuning.py:1168-1171 | the cap is its maximum without bad steps and falls in proportion to the average |
| Ewma.RateIsBadWeight | scratch/tuning.py:1174-1177 | the average is the sum over the bad steps of alpha times (1 - alpha) to the number of steps since |
| Ewma.SessionPointsInRange | scratch/tuning.py:1373-1374 | both bounds after every round of a session |
| Ewma.TunerPointsInRange | scratch/tuning.py:1168-1177 | both bounds after every round of every run of sessions |
| Ewma.ParseRoundRecords | analysis/direction_cap_history.py:46-91 | the scan of the blocks, with the error of a round before any baseline |
| Ewma.ReconstructHistory | analysis/direction_cap_history.py:94-113 | the averages and caps of the rows, by the tuner's own recurrence |
| Ewma.ForeignIgnored | analysis/direction_cap_history.py:58-77 | observe and collect-only blocks change nothing |
| Ewma.MonitorBlocksVanish | analysis/direction_cap_history.py:58-77 | an observe or collect-only block written anywhere in the log is one of those the replay may ignore |
| Ewma.ScanSessions | analysis/direction_cap_history.py:46-91 | without negative rounds the script raises exactly when a session with a hidden baseline precedes every logged value, and otherwise its rows and current value are known |
| Ewma.HiddenScan | analysis/direction_cap_history.py:73-90 | after a hidden baseline only the first row is off, and from then on the script is in step with the tuner |
| Ewma.PointsShowSignals | analysis/direction_cap_history.py:94-113 | two lists of rows give the same averages and caps exactly when they give the same bad-step signals |
| Ewma.ReplayIsExact | analysis/direction_cap_history.py:46-113 | over any sessions, negative utilities included, and interleaved foreign blocks the replay equals the tuner's averages and caps if and only if no round is negative and each hidden baseline is recoverable |
| Ewma.NegativeRoundIsLost | analysis/direction_cap_history.py:61-66 | a concrete session with a negative round whose replay differs |
| Ewma.HiddenBaselineRaises | analysis/direction_cap_history.py:73-79 | a concrete log that starts with a negative baseline makes the script raise |
| Ewma.HiddenBaselineMisleads | analysis/direction_cap_history.py:73-79 | a concrete later negative baseline makes a good step look bad |
| Ewma.MeasuredIsNonNegative | scratch/tuning.py:161-186 | with non-negative weights no measurement gives a negative utility |
| Ewma.UtilityIs | scratch/tuning.py:161-186 | the weighted sum of the throughput in hundreds, of 40 over a positive RTT and of the share without pauses, stated without dividing |
| Ewma.UtilityOrdered | scratch/tuning.py:161-186 | with non-negative weights more throughput, a shorter RTT and fewer pauses never lower the utility |
| Ewma.BaseUtility | scratch/tuning.py:1621-1622 | the base measurement without pauses has utility 1 in both modes |
| Ewma.DefaultWeights | scratch/tuning.py:1621-1622 | the default weights of both modes are not negative |
| Ewma.MeasuredReplay | analysis/direction_cap_history.py:46-113 | so with such weights (the default ones are) the replay is exact for all sessions, measurements and acceptances |
| Pfc.PfcHandling | scratch/tuning.py:990-1032 | for any log, window, cursor and carried set: the scan stops at the first row beyond the window; the new set replays the rows passed; the counted links are the carried ones and those touched in the window |
| Pfc.RowExact | scratch/tuning.py:993-999 | each row has the time, link and kind of its own complete line |
| Pfc.LineHasRow | scratch/tuning.py:993-999 | each complete line has its row |
| Pfc.RowsInOrder | scratch/tuning.py:993-999 | rows come in the order of their lines |
| Pfc.CursorExact | scratch/tuning.py:993-1029 | the returned cursor is the row where the scan stopped if and only if every line of the file before that row is complete, and lies one row further for each incomplete one |
| Pfc.RunExact | scratch/tuning.py:1035-1043 | over every run of windows all cursors are the stopping rows if and only if no incomplete line precedes any of them |
| Pfc.CleanRunReplays | scratch/tuning.py:1035-1043 | in such a run over a growing file each row is consumed once and the carried set replays the rows consumed |
| Pfc.CleanRunCounts | scratch/tuning.py:1345-1352 | in such a run the missed and wrongly counted links of each window are those the single-window results pin down |
| Pfc.DroppedLineLosesRow | scratch/tuning.py:999-1027 | a concrete log where the scan stops at a pause, the next call starts behind it, and its link never enters the carried set |
| Pfc.CountedExactly | scratch/tuning.py:1001-1029 | for any window and cursor, which rows make a link counted |
| Pfc.PausedExactly | scratch/tuning.py:1017-1024 | for any window, which rows make a link paused at some instant of it |
| Pfc.GapWindow | scratch/tuning.py:1288-1295 | for a window at or after the consumed rows, exactly which links are missed and which are counted wrongly |
| Pfc.OverlapWindow | scratch/tuning.py:1288-1295 | the same for a window that starts before the rows consumed so far |
| Pfc.BackToBackWindow | scratch/tuning.py:1345-1352 | a window that starts where the last one stopped misses no link and counts one wrongly exactly when its pauses there are all undone at once; the next window is aligned again |
| Pfc.BlipIsCounted | scratch/tuning.py:1017-1024 | a concrete link counted though paused at no instant |
| Pfc.GapPauseIsMissed | scratch/tuning.py:1011-1016 | a concrete link paused throughout a window after a gap, yet not counted |
| Pfc.GapResumeIsCounted | scratch/tuning.py:1011-1016 | a concrete link resumed in the gap, yet counted |
| Pfc.OverlapPauseIsMissed | scratch/tuning.py:1004-1024 | a concrete link paused in the consumed part of an overlapping window, yet not counted |
| Pfc.Consumer.constructor | scratch/tuning.py:1651-1652 | nothing consumed, nothing paused, ready for a first window at any time |
| Pfc.Consumer.Handle | scratch/tuning.py:1035-1043 | the exact effect of any call on any file; while the rows only grow and no incomplete line stands before the stopping row, each row is consumed once and the carried set replays the consumed prefix |
| Pfc.Consumer.HandleNext | scratch/tuning.py:1345-1352 | the next back-to-back window counts every link paused at some instant of it, and others exactly when they only blip |
| Pfc.Consumer.HandleRun | scratch/tuning.py:1345-1352 | the cursor, the carried set and all counts after every run of windows, with gaps or overlaps, over any files |
| TunerThreads.RunKeepsInv | scratch/tuning.py:1683-1759 | under every interleaving the flag is up exactly while a thread is about to start or unfinished, and writes and observations stay in thread order |
| TunerThreads.AtMostOneLive | scratch/tuning.py:1715-1751 | at most one session is live, and none while the flag is down |
| TunerThreads.NoWriteAfterClear | scratch/tuning.py:1550-1601 | once the flag is down, no session started so far ever writes again |
| TunerThreads.WritesDoNotInterleave | scratch/tuning.py:1737-1751 | between two writes of one session there is none of another |
| TunerThreads.InitialFiresOnce | scratch/tuning.py:1715-1726 | the first non-empty observation, and only it, starts an initial session |
| TunerThreads.SessionsAreTriggered | scratch/tuning.py:1715-1751 | an observation starts a session exactly when it is the first, or the deciding test of the mode finds the flag down (and, outside collect-only mode, the divergence above the threshold), and with which reason |
| TunerThreads.ObservationEnds | scratch/tuning.py:1683-1759 | from any polling state one observation leads back to polling, with a new session, its number and its reason exactly when the flag is down and something asks for one |
| TunerThreads.SessionEnds | scratch/tuning.py:1576-1601 | a live session can make any number of writes and end, which takes the flag down and changes no other thread |
| Flows.RunsAreRight | scratch/third.cc:183-204 | in every run over a time-sorted list each flow starts once at its own time with its own port, active = scheduled - finished, and stop is requested exactly when all have finished |
| Flows.QuietMeansDone | scratch/third.cc:183-204 | a run that can go no further has started and finished every flow and asked to stop once |
| Flows.PortsShared | scratch/third.cc:185-185 | two flows of a host pair share a source port exactly when a multiple of 65536 flows of the pair separates them |
| Flows.PortsDistinct | scratch/third.cc:185-185 | ports of a pair are distinct while fewer than 65536 flows lie between |
| Flows.PortReused | scratch/third.cc:185-185 | of 65537 flows of one pair the last gets the port of the first |
| Flows.Scheduler.constructor | scratch/third.cc:1378-1382 | the first call is pending at the first flow's time, if there is a flow |
| Flows.Scheduler.ScheduleFlowInputs | scratch/third.cc:183-204 | starts exactly the flows due now, then schedules itself or considers stopping |
| Flows.Scheduler.StartNext | scratch/third.cc:185-194 | one flow: next port, counters, next input |
| Flows.Scheduler.QpFinish | scratch/third.cc:292-294 | one flow less active, then the stop test |
| Flows.Scheduler.MaybeStopWhenAllFlowsFinish | scratch/third.cc:167-174 | stop is requested only with everything scheduled and nothing active |
| WorkerPool.StepKeepsInv | test.py:921-989 | every step of any thread keeps each taken job in exactly one place, the queue order and honest verdicts |
| WorkerPool.RunKeepsInv | test.py:1313-1316 | so does every run, for any number of workers and jobs, interrupted anywhere |
| WorkerPool.RunsAreBounded | test.py:1575-1595 | every schedule has at most 5 steps per job and 3 per worker, interrupts aside |
| WorkerPool.NeverStuck | test.py:1594-1595 | short of the end some thread can always move, so the collector never waits forever |
| WorkerPool.DoneMeansComplete | test.py:1575-1619 | at the end each job was collected once, every worker consumed one break and left, both queues are empty |
| WorkerPool.ReturnCode | test.py:1590-1619 | zero exactly when every collected job passed or was skipped |
| WorkerPool.ZeroMeansAllGood | test.py:1800-1803 | a zero result means every job passes or is skipped, also after an interrupt; without one the converse holds |
| WorkerPool.AfterInterrupt | test.py:935-938 | after an interrupt every job checked comes out broken and no worker starts one |
| WorkerPool.InterruptedCode | test.py:1594-1597 | a finished run with such a job returns 1 |
| WorkerPool.FlagMeansInterrupt | test.py:1313-1316 | in any run the exit flag is up exactly after an interrupt |
| WorkerPool.CanInterrupt | test.py:1313-1316 | any run may be interrupted after any of its steps |
| WorkerPool.RunCode | test.py:1590-1619 | a finished run returns 0 only if every job passes or is skipped, and without an interrupt exactly then |
| LogLines.SplitTopLevelCommas | analysis/tuning_effect.py:81-94 | the trimmed non-empty pieces between commas outside parentheses, always a splittable list |
| LogLines.CutAndTrim | analysis/tuning_effect.py:82-93 | the scan with start and depth finds exactly the pieces |
| LogLines.PartsSplittable | analysis/tuning_effect.py:81-94 | every result consists of trimmed, non-empty, closed segments without top-level commas (the last may be open) |
| LogLines.SplitUndoesJoin | analysis/tuning_effect.py:81-94 | splitting undoes joining with ", " if and only if the list is splittable |
| LogLines.NotSplittable | analysis/tuning_effect.py:81-94 | concrete lists with an open parenthesis or a top-level comma that do not come back |
| LogLines.MatchExact | analysis/tuning_effect.py:107-109 | a left-to-right matcher finds exactly the decomposition the segment pattern allows, so there is at most one |
| LogLines.WordCharsAre | analysis/tuning_effect.py:107-109 | a segment name consists of ASCII letters, digits and underscores |
| LogLines.ParseKeyValueLine | analysis/tuning_effect.py:97-104 | the dictionary of the parts that hold an equals sign, split at the first one |
| LogLines.ParseUtilityLine | analysis/tuning_effect.py:112-126 | the dictionary of matching segments (three keys each) and plain pairs |
| LogLines.KeyValuesReadBack | analysis/tuning_effect.py:97-104 | a line of printed pairs is read back as exactly those pairs |
| LogLines.LineReadBack | analysis/tuning_effect.py:112-126 | a line of any metrics and a last pair is read back as exactly their values |
| LogLines.UtilityReadBack | scratch/tuning.py:286-296 | a printed utility line is read back with all ten values under their own keys and nothing else |
| LogLines.UtilityKeys | scratch/tuning.py:286-296 | the ten keys with the printed quantity each of them is read back with |
| Pareto.IsDominated | analysis/pareto_frontier_plot.py:93-107 | the flag is set exactly when some row is at least as good in both columns and better in one |
| Pareto.ParetoFrontier | analysis/pareto_frontier_plot.py:90-114 | each undominated row is kept as often as it occurs, every dropped row is dominated by a kept one, the large-flow value strictly falls whenever the small-flow value rises, and equal rows keep their order |
| Pareto.UndominatedDominator | analysis/pareto_frontier_plot.py:93-107 | a dominated row is dominated by an undominated one |
| Pareto.SortValuesStable | analysis/pareto_frontier_plot.py:110-114 | the sort orders by both columns, loses nothing and is stable |

## Left out

- Float rounding: `exp`, printed digits and comparisons of floats are taken over the reals. The text of floats is any pair of functions that round-trips on a set of printable numbers in which the drawn candidates stay; that float arithmetic rounds to such numbers is not modelled.
- Six-digit rounding in the tuner log: the replay result is about the logged values being the measured ones.
- The text search in `analysis/direction_cap_history.py`: a block is given by the fields its patterns find, with the missing minus sign modelled as a total that is not found.
- The flow-distribution log line, whose parser reuses the same keys, and `parse_scalar`, which is an arbitrary function from trimmed text to a value.
- Word characters outside ASCII in the segment pattern, and white space other than blank, tab and line ends.
- Underscores between digits, which Python's `int` accepts in the report and parameter files; the printers write none.
- `get_new_solution_direction`: the direction is an arbitrary +1 or -1, and which parameters are mutated is an arbitrary choice.
- KL divergence, the sketch-based flow detection, and the waits for snapshots: the monitor loop takes them as arbitrary choices.
- ns-3 devices, queue pairs, `RedistributeQp`, packet forwarding and congestion control; address translation between nodes and IPv4 addresses is taken as the identity.
- Routing tables keep the lists by destination first and node second, the reverse of the nesting in the source; the pushes of one `CalculateRoute` are collected and appended at its end.
- Parsing of configuration, topology and flow files, process launching, plots, the antenna models, generated bindings and the rest of `rad_util.py`.
- `topsort_levels_core` on dictionaries that no list of pairs produces.
- Rotations.IsRotated: two empty sequences are excluded, because the source indexes the head of an empty list there.
- Flows.RunsAreRight: the flow list is time-sorted, because the simulator refuses the negative delay an unsorted list leads to.
- WorkerPool.NeverStuck: needs at least one worker; an exception inside a worker thread is not modelled.
- Ewma.ReplayIsExact: a session whose baseline is negative follows the annealing rule, which is proved of every session (`Annealing.SessionsAreFair`).
- Pfc.CleanRunReplays: a file is only appended to, and at most its last line is completed later; rewriting of earlier lines is not considered.
- HostWr.ReportedExactlyOnce: while a flow is active its acknowledged bytes are below its size, and after completion its queue pair has left the active set.
