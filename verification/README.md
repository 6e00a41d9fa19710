# Count Buffy: the step relations, modelled and proved

Count Buffy describes switches and packet schedulers to a solver as relations between time steps.
The relations speak about packet counts per type, not about queues of packets.  This project reads
every solver expression as its value under an assignment.  The code that appends constraints becomes
methods with the same loops that accept or reject an assignment; each is proved to accept exactly the
assignments of a predicate, and the theorems are about those predicates on runs of any length, with
any number of ports, buffers, packet types and any capacity.

`dafny verify dfyconfig.toml` checks the project.  The modules, from the bottom up:

* `CountVectors`, `BufferTrace`: count vectors and the variables of one buffer over a run.  A vector
  against an integer compares its sum; a vector against a vector compares components.
* `Voqs`, `StableMatching`, `Cyclic`, `VoqSwitch`, `VoqConstraints`, `VoqRuns`, `VoqDepartures`: the crossbar of
  virtual output queues (VOQs).  A VOQ is matched exactly when it is backlogged and no matched VOQ has
  priority over it at either of its ports.  That is a stable matching, and what is known about
  stable matchings becomes a property of the switch: a matching always exists, the busy ports do not
  depend on the solver's choice, no schedule serves more than twice as many VOQs.  The head of a port is the
  VOQ that was matched there last.
* `FifoQueue`, `LeafBuffer`, `StsBuffer`, `FifoSimulation`, `FifoHistories`: counts against a concrete
  FIFO queue with tail drop, in the two timings of the source.  Every queue run is a run of counts, and
  a run of counts is a queue run if and only if its cumulative enqueues and outputs never cross.
* `FifoWindows`, `WindowAccounting`, `WindowOrder`, `LeafWindows`, `StsWindows`, `WindowTotals`, `WindowTypes`,
  `StsFifoWindows`: the capacity-sized windows that stand in for order, in their newer and their older form, and
  exactly which runs have them.
* `VoqSystem`, `VoqQueues`, `SplitRanges`, `VoqRanges`: the two parts above closed into one loop.  Every run of a
  switch conserves packets, wastes no step and drains; its constraints, the ranges of all variables and, if used,
  windows included, have a solution for given arrivals exactly when the switch of queues has a run whose steps fit
  the ranges.
* `RoundRobin`, `Scheduler`, `RRScheduler`, `PrioScheduler`, `StsSteps`, `SchedulerRuns`, `RateLimiter`,
  `RateLimiterSteps`, `Loom`, `LoomRuns`, `LoomWiring`: schedulers and their composition: fairness, work
  conservation, blocking, rate, which steps are possible, end-to-end conservation by type and priority.
* `LstTables`, `LstRouting`, `PortLists`, `LstLists`, `Demux`, `LstDemux`: the leaf-spine experiment for
  every topology: routes, the packet types each VOQ carries, sparse and dense vectors.
* `NetworkQueues`, `NetworkCarry`, `NetworkPorts`, `NetworkSolutions`, `NetworkForward`, `NetworkExecutions`,
  `NetworkExact`, `NetworkSums`, `NetworkFlows`, `NetworkDrains`: switches linked into a network.  The solutions of its
  constraints are its forward executions in which the offers of the hosts fit; what it conserves, and how fast it
  empties.
* `LstNetwork`, `LstSolutions`, `LstExecutions`, `LstLinks`, `LstConservation`, `LstDrains`: all of the leaf-spine
  network together.  It admits whatever the hosts send in small offers; packets arrive only where they are
  addressed, and once the hosts stop, every packet has soon arrived or was dropped.
* `PacketGaps`: the inter-packet-gap metric of workloads.

Where the model found the code and its intention to differ:

* `STSChecker::winds` reads the packets carried over from the new step instead of the step before
  (src/sts_checker.cpp:170; src/leaf_spine/leaf_base.cpp:484 has the step before).  A closing window then
  forgets the packets behind it, and FIFO runs are rejected.  A FIFO run that ends with an empty queue
  has window variables if and only if nothing is ever forgotten and, with capacity 1, the first window
  opens: `StsFifoWindows.DrainedHasWindows`.  For all other runs with single departures
  `WindowTypes.HasWindowsExactlyWhen` has the exact condition.  `StsFifoWindows.RejectsQueueRun`,
  `StsFifoWindows.RejectsBusyRun` and `WindowTypes.TypesMatter` are rejected runs, one for every part of it.
* The switches leave windows out: `use_win` is false (src/leaf_spine/leaf_base.cpp:100, 125).  Solutions of a switch
  or a network therefore have a flag for windows here.  What holds in every solution holds with and without them;
  a solution is shown to exist with them.
* A VOQ may drop only while it is backlogged (src/leaf_spine/leaf_base.cpp:441).  An empty VOQ offered more
  than its capacity in one step therefore has no solution; `LeafBuffer.TailDropExact` carries the condition.
* The variables of every buffer have upper ranges (src/leaf_spine/leaf_buff.cpp:29-31), and lst.cpp:21 lets a VOQ
  enqueue at most 4 packets of a type in a step, whatever its capacity.  An empty VOQ cannot drop, so five
  packets of one type in one step have no solution even with capacity 10: `VoqRanges.RangeBlocks`.
  `VoqRanges.SolvableExactlyWhen`, `NetworkExecutions.SolvableExactlyWhen` and `LstExecutions.SolvableExactlyWhen` say
  exactly which arrivals are admitted.
* The rate limiter has no next step when the buffer is empty right after an output and nothing arrives
  (examples/rate_limiter.cpp:16-26): the bit stays 1 and demands a packet.  Windows, which it inherits, and
  the ranges rule out further steps.  `RateLimiterSteps.ContinuesExactlyWhen` and
  `RateLimiterSteps.StartsExactlyWhen` say exactly when a run can continue and begin, with and without windows.
* Windows fix the order of packets of different types at their ends (`WindowOrder.WindowEndsComparable`)
  but not inside (`WindowOrder.OrderInsideWindowIsFree`).  `LeafWindows.HasWindowsExactlyWhen` has the condition under
  which a run has windows at all, `FifoHistories.LeafRunIsQueueRun` that under which its counts are those of a queue.
* The lists of VOQs from spine ports combine used spines and used destinations of different hosts
  (src/leaf_spine/leaf_utils.cpp:267), so they can name types that no host may send:
  `LstNetwork.ListsExceedUses` is a workload of two hosts.  Spines have variables for types that are not in use; the
  links force them to 0 (`LstSolutions.OnlyUsedTypes`).
* `fix` and `update_ports` write 2 and 6 for the hosts per leaf and for all hosts
  (src/leaf_spine/leaf_utils.cpp:263, 312); here both come from the topology.

## Model

| member | source | states |
|---|---|---|
| CountVectors.SumTo | src/lib.cpp:81-91 | the loop adds the components 0 to limit inclusive |
| CountVectors.Plus | src/lib.cpp:125-131 | vectors are added component by component |
| CountVectors.Minus | src/lib.cpp:133-139 | vectors are subtracted component by component |
| CountVectors.SameVector | src/lib.cpp:141-147 | the folded comparison holds exactly for equal vectors |
| CountVectors.AtMost | src/lib.cpp:203-209 | the folded comparison is the componentwise order, not an order of sums |
| CountVectors.SumOfCounts | src/lib.cpp:113-115 | for counts, a zero sum and a zero vector are the same constraint, and no component exceeds the sum |
| CountVectors.SumMonotone | src/lib.cpp:195-209 | componentwise order bounds the sums; with equal sums it is equality |
| BufferTrace.BoundedCounts | src/smt_solver.cpp:246-254 | the ranges given to the solver make every variable a count |
| BufferTrace.EnqDeqSum | src/sts_checker.cpp:136-153 | the input splits into enqueues and drops, per type; src/leaf_spine/leaf_base.cpp:447-461 does the same for a VOQ |
| StableMatching.StableIsConflictFree | src/leaf_spine/fperf_leaf_sts.cpp:155-242 | the priority rule alone rules out two matches at one port |
| StableMatching.StableIsMaximal | src/leaf_spine/fperf_leaf_sts.cpp:155-199 | every backlogged VOQ has a busy port: no match can be added |
| StableMatching.StableServesHalf | src/leaf_spine/fperf_leaf_sts.cpp:155-199 | any conflict-free set of backlogged VOQs is at most twice as large as the matching |
| StableMatching.SamePortsMatched | src/leaf_spine/fperf_leaf_sts.cpp:155-199 | any two admitted matchings use the same inputs, the same outputs and as many VOQs |
| StableMatching.DeferredAcceptance | src/leaf_spine/fperf_leaf_sts.cpp:155-199 | turning proposals down until none collide ends in a stable matching |
| StableMatching.StableExists | src/leaf_spine/fperf_leaf_sts.cpp:155-199 | the priority rule can be met for all ranks and all backlogs |
| StableMatching.StableNotUnique | src/leaf_spine/fperf_leaf_sts.cpp:155-199 | a two by two switch with two disjoint admitted matchings: the choice is really free |
| Cyclic.RankInjective | src/leaf_spine/fperf_leaf_sts.cpp:164-173 | two cells never have the same priority behind a head |
| Cyclic.CellOfRank | src/leaf_spine/fperf_leaf_sts.cpp:167-169 | the cell (head + 1 + k) mod n is the one of priority k |
| VoqConstraints.GetBuffsForPort | src/leaf_spine/leaf_base.cpp:178-195 | the opposite ports of the VOQs of a port, once each, in the order that the next rows state |
| VoqSwitch.CellsInListOrder | src/leaf_spine/leaf_base.cpp:178-195 | the cell of a VOQ at its port is the number of VOQs of that port before it in the map, and a port has as many cells as VOQs |
| VoqSwitch.EarlierCell | src/leaf_spine/leaf_base.cpp:178-195 | so of two VOQs at one port the earlier has the smaller cell |
| VoqSwitch.CellsByPortNumber | src/leaf_spine/leaf_base.cpp:178-195 | the map is ordered by pairs of ports, so the cells of a port, on either side, stand in the order of the port numbers opposite |
| VoqConstraints.GetPorts | src/leaf_spine/leaf_base.cpp:50-70 | every port of a VOQ once |
| VoqConstraints.CellIndex | src/leaf_spine/fperf_leaf_sts.cpp:17-31 | the index table holds the cell of every VOQ at its port |
| VoqConstraints.TableInOrder | src/leaf_spine/fperf_leaf_sts.cpp:17-31 | which is the number of VOQs of that port before it in the map |
| VoqConstraints.NotMatchedBefore | src/leaf_spine/fperf_leaf_sts.cpp:164-173 | the walk with early exit says that no cell between the head and idx is matched |
| VoqConstraints.NoBetterCell | src/leaf_spine/fperf_leaf_sts.cpp:163-186 | for every head, no cell of higher priority than idx is matched |
| VoqConstraints.OnlyOne | src/leaf_spine/fperf_leaf_sts.cpp:204-219 | the pairwise exclusions say that at most one cell is set |
| VoqConstraints.NoDoubleRows | src/leaf_spine/fperf_leaf_sts.cpp:201-242 | at most one match at every port of a side |
| VoqConstraints.OneHeadRows | src/leaf_spine/fperf_leaf_sts.cpp:245-291 | exactly one head at every port of a side |
| VoqConstraints.HeadMovesAsMatched | src/leaf_spine/fperf_leaf_sts.cpp:296-323 | a matched cell becomes head; a port without a match keeps its heads |
| VoqConstraints.PortHeadsMove | src/leaf_spine/fperf_leaf_sts.cpp:293-357 | the head update at every port of a side |
| VoqConstraints.HeadsStart | src/leaf_spine/fperf_leaf_sts.cpp:367-395 | initially exactly cell 0 is head at every port |
| VoqConstraints.NewRows | src/leaf_spine/fperf_leaf_sts.cpp:33-61 | one row of variables for every port, one cell per VOQ of the port, one variable per step |
| VoqConstraints.AssignmentsAreShaped | src/leaf_spine/fperf_leaf_sts.cpp:33-61 | every assignment to the created variables is a snapshot of the shape that all constraints ask for |
| VoqConstraints.AssignmentsReachAll | src/leaf_spine/fperf_leaf_sts.cpp:33-61 | and every sequence of such snapshots comes from some assignment: the variables of all families, ports, cells and steps are independent |
| VoqConstraints.FperfLeafSts.constructor | src/leaf_spine/fperf_leaf_sts.cpp:64-82 | a new switch has correct index tables and all its match and head variables |
| VoqConstraints.FperfLeafSts.Setup | src/leaf_spine/fperf_leaf_sts.cpp:13-61 | both index tables hold every VOQ's cell, and all four families of variables exist |
| VoqConstraints.FperfLeafSts.InAndOutTogether | src/leaf_spine/fperf_leaf_sts.cpp:133-153 | both families of match variables agree and only backlogged VOQs are matched |
| VoqConstraints.FperfLeafSts.MatchesUnlessOutranked | src/leaf_spine/fperf_leaf_sts.cpp:155-199 | a VOQ is matched if and only if it is backlogged and outranked at neither port |
| VoqConstraints.FperfLeafSts.Trs | src/leaf_spine/fperf_leaf_sts.cpp:126-360 | all constraint families of one step, with the head update only after the first step |
| VoqConstraints.FperfLeafSts.Init | src/leaf_spine/fperf_leaf_sts.cpp:362-397 | the first step's constraints and the initial heads |
| VoqConstraints.FperfLeafSts.AllSteps | src/leaf_spine/leaf_base.cpp:505-516 | init and the transitions accept exactly the runs |
| VoqSwitch.NoBetterMeansUnbeaten | src/leaf_spine/fperf_leaf_sts.cpp:163-186 | the condition on cells says that no matched VOQ of the port has a smaller rank |
| VoqSwitch.ConstraintsMeanStable | src/leaf_spine/fperf_leaf_sts.cpp:133-291 | with one-hot heads the constraints of a step hold if and only if both match families describe one stable matching; the double-match constraints are redundant |
| VoqSwitch.BusyPortsDetermined | src/leaf_spine/fperf_leaf_sts.cpp:133-291 | heads and backlog fix the busy inputs, the busy outputs and the number of matches |
| VoqSwitch.StepServesHalf | src/leaf_spine/fperf_leaf_sts.cpp:133-291 | no backlogged VOQ has two idle ports; no schedule serves more than twice as many |
| VoqRuns.StepExists | src/leaf_spine/fperf_leaf_sts.cpp:133-291 | for all one-hot heads and all backlogs some assignment meets the step's constraints |
| VoqRuns.NextHeadDetermined | src/leaf_spine/fperf_leaf_sts.cpp:293-323 | the head update keeps heads one-hot and leaves no choice |
| VoqRuns.RunStarts | src/leaf_spine/fperf_leaf_sts.cpp:362-397 | a first step exists for every backlog |
| VoqRuns.RunContinues | src/leaf_spine/fperf_leaf_sts.cpp:126-360 | every run has a next step for every backlog |
| VoqRuns.RunExists | src/leaf_spine/fperf_leaf_sts.cpp:126-397 | every sequence of backlogs has a run: the matching never blocks |
| VoqRuns.HeadsDetermined | src/leaf_spine/fperf_leaf_sts.cpp:293-357 | along a run the heads are a function of the heads and matches before |
| VoqRuns.HeadKept | src/leaf_spine/fperf_leaf_sts.cpp:307-323 | on every run, a port at which no VOQ is matched in a step has the same head in the next step |
| VoqRuns.HeadFollows | src/leaf_spine/fperf_leaf_sts.cpp:296-305 | on every run, after a match at a port exactly the cell of the matched VOQ is head there |
| VoqRuns.HeadBeforeMatches | src/leaf_spine/fperf_leaf_sts.cpp:362-397 | on every run and at every step before the first match at a port, exactly its first cell is head |
| VoqRuns.HeadIsLastMatched | src/leaf_spine/fperf_leaf_sts.cpp:293-357 | on every run and at every later step, exactly the cell of the VOQ matched there last is head, however long ago that was |
| VoqRuns.LossBringsCloser | src/leaf_spine/fperf_leaf_sts.cpp:293-357 | after losing to f a VOQ's rank falls by the rank of f plus one |
| VoqRuns.ServedWithinRank | src/leaf_spine/fperf_leaf_sts.cpp:163-357 | a VOQ alone at one port is served within as many further steps as its rank at the other |
| VoqRuns.VoqProgress | src/leaf_spine/fperf_leaf_sts.cpp:163-357 | a VOQ alone at one port, on either side, is served within as many steps as its other port has VOQs |
| VoqDepartures.OutAt | src/leaf_spine/fperf_leaf_sts.cpp:84-101 | one packet from a matched VOQ, none from another; buffers without types are skipped |
| VoqDepartures.PortIsSilent | src/leaf_spine/fperf_leaf_sts.cpp:104-122 | an output port without a match receives nothing |
| VoqDepartures.IdleAt | src/leaf_spine/fperf_leaf_sts.cpp:103-122 | this holds at every output port |
| VoqDepartures.IdlePortsAreSilent | src/leaf_spine/fperf_leaf_sts.cpp:103-122 | the constraints on idle ports follow from those on VOQs |
| VoqDepartures.IdleMeans | src/leaf_spine/fperf_leaf_sts.cpp:103-122 | they say exactly that every VOQ with packet types whose output port is matched by none sends nothing |
| VoqDepartures.DeparturesOfMatching | src/leaf_spine/fperf_leaf_sts.cpp:84-101 | a port sends one packet if the matching uses it, else none; the total is the size of the matching |
| VoqDepartures.DeparturesDetermined | src/leaf_spine/fperf_leaf_sts.cpp:84-242 | departures per port and in total do not depend on which matching is chosen |
| StsBuffer.BlSize | src/sts_checker.cpp:68-90 | backlog and flag equations at every step |
| StsBuffer.Enqs | src/sts_checker.cpp:92-110 | what is enqueued fits into the room that is left |
| StsBuffer.Drops | src/sts_checker.cpp:113-134 | drops only when the buffer is full |
| StsBuffer.TailDropExact | src/sts_checker.cpp:92-153 | the constraints hold if and only if enqueues are the minimum of input and room |
| StsBuffer.RunTailDrop | src/sts_checker.cpp:68-153 | on every run and at every step, tail drop is exact |
| StsBuffer.Conservation | src/sts_checker.cpp:68-153 | per type, all enqueues have left or are backlogged, and all input was enqueued or dropped |
| LeafBuffer.BlSize | src/leaf_spine/leaf_base.cpp:378-401 | the backlog equations in the later timing: outputs come from C[j], enqueues follow |
| LeafBuffer.Enqs | src/leaf_spine/leaf_base.cpp:403-425 | what is enqueued fits beside the backlog |
| LeafBuffer.Drops | src/leaf_spine/leaf_base.cpp:427-445 | drops only at a backlogged and full VOQ |
| LeafBuffer.Winds | src/leaf_spine/leaf_base.cpp:463-503 | the window relation at every step |
| LeafBuffer.WindowLimits | src/leaf_spine/leaf_base.cpp:492-500 | on every run with windows the packets of a window fit the capacity, fewer than the capacity wait behind it, and a window only grows and never sends more than it holds |
| LeafBuffer.Inputs | src/leaf_spine/leaf_base.cpp:348-359 | all families together accept exactly the buffer runs with their windows |
| LeafBuffer.TailDropExact | src/leaf_spine/leaf_base.cpp:403-461 | exact tail drop, under the condition that an empty VOQ is not offered more than its capacity |
| LeafBuffer.RunTailDrop | src/leaf_spine/leaf_base.cpp:378-461 | the same at every step of every run |
| FifoWindows.StartInvariant | src/leaf_spine/leaf_base.cpp:481-500 | window starts stay within one capacity of the departures: the chosen window variables never leave their ranges |
| FifoWindows.WindowsExist | src/leaf_spine/leaf_base.cpp:463-503 | a queue's history yields window variables that meet winds at every step |
| FifoQueue.TailDrop | Readme.md:15 | a queue admits arrivals in order until it is full, and drops the rest |
| FifoSimulation.QueueOfHistory | Readme.md:15 | the queue is the admitted packets, in order, without those that left |
| FifoSimulation.QueueRunIsLeafRun | src/leaf_spine/leaf_base.cpp:378-503 | every FIFO run, for any types, steps and capacity, satisfies bl_size, enqs, drops, enq_deq_sum and, with constructed variables, winds |
| FifoSimulation.QueueRunIsStsRun | src/sts_checker.cpp:68-153 | every FIFO run satisfies bl_size, enqs, drops and enq_deq_sum of a contention point; its windows are the subject of StsFifoWindows |
| FifoSimulation.QueueRunInRange | src/smt_solver.cpp:246-254 | the counts of a queue stay in the ranges given to the solver |
| FifoHistories.HistoryOfChain | Readme.md:15 | vectors of counts that are all comparable lie on one sequence of packets |
| FifoHistories.QueueRunInOrder | Readme.md:15 | in a FIFO run cumulative enqueues and outputs are comparable at all pairs of steps |
| FifoHistories.LeafRunIsQueueRun | src/leaf_spine/leaf_base.cpp:378-461 | for any types, a count run of a VOQ that sends single packets of its backlog is a FIFO run if and only if cumulative enqueues and outputs are comparable at all pairs of steps |
| FifoHistories.StsRunIsQueueRun | src/sts_checker.cpp:68-153 | the same if and only if for a contention point with single departures |
| FifoHistories.OneTypeLeafRunIsQueueRun | src/leaf_spine/leaf_base.cpp:378-503 | so with one type every count run of a VOQ is a FIFO run, and windows exist for it |
| FifoHistories.OneTypeStsRunIsQueueRun | src/sts_checker.cpp:68-153 | so with one type every count run with single departures is a FIFO run |
| WindowAccounting.Equity | src/leaf_spine/leaf_base.cpp:473-500 | backlog equals the packets of the windows minus the outputs taken from them, on every run |
| WindowAccounting.Totals | src/leaf_spine/leaf_base.cpp:473-500 | cumulative outputs and enqueues in terms of the closed windows and the current one |
| WindowAccounting.WindowSandwich | src/leaf_spine/leaf_base.cpp:473-500 | per type, outputs lie between all closed windows and those plus the current one |
| WindowOrder.OverflowMeansFull | src/leaf_spine/leaf_base.cpp:481-500 | on every run packets wait behind the current window only when it is full |
| WindowOrder.WindowEndsComparable | src/leaf_spine/leaf_base.cpp:463-503 | the total of the closed windows is comparable with the enqueues and the outputs up to every step: no packet overtakes across a window's end |
| LeafWindows.HasWindowsExactlyWhen | src/leaf_spine/leaf_base.cpp:463-503 | a run of a VOQ that sends single packets of its backlog, of any types and capacity, has window variables if and only if at every step all packets sent so far can, type by type, have been admitted before the end of the current window |
| LeafWindows.InOrderFits | src/leaf_spine/leaf_base.cpp:463-503 | runs of a FIFO queue meet this condition |
| LeafWindows.RejectsOvertaking | src/leaf_spine/leaf_base.cpp:463-503 | a run of a VOQ with capacity 3 without window variables: three packets of one type fill the window, and the one behind it leaves as the third |
| WindowOrder.OrderInsideWindowIsFree | src/leaf_spine/leaf_base.cpp:378-503 | a run of all relations, windows included, that no FIFO queue has: inside a window the comparison can fail |
| StsWindows.Winds | src/sts_checker.cpp:156-188 | the older window relation at every step |
| StsWindows.Inputs | src/sts_checker.cpp:9-19 | the four families and, when use_win is set, the windows accept exactly the runs with their windows |
| StsWindows.AccountsExactly | src/sts_checker.cpp:156-188 | the older windows account for the backlog if and only if no closing step had packets carried over |
| WindowTotals.SizesDetermined | src/sts_checker.cpp:156-188 | enqueues and outputs fix the sizes of all window variables; only types are free |
| WindowTotals.WindowsRemember | src/sts_checker.cpp:156-188 | whenever window variables exist, the packets forgotten never outnumber the backlog, and with capacity 1 the first window opens |
| WindowTotals.OneTypeHasWindows | src/sts_checker.cpp:156-188 | with one type and single departures this is also enough: an if and only if on every run |
| WindowTypes.HasWindowsExactlyWhen | src/sts_checker.cpp:156-188 | a run with single departures, of any types and capacity, has window variables if and only if the packets forgotten never outnumber the backlog, the first window opens, and at every step what was sent from the current window can, type by type, be packets of it |
| WindowTypes.TypesMatter | src/sts_checker.cpp:156-188 | a run of four steps that meets all other parts of this condition and has no window variables: only the types rule it out |
| StsFifoWindows.RememberingHasWindows | src/sts_checker.cpp:156-188 | a FIFO run of any types in which nothing is forgotten has window variables if and only if the first window opens |
| StsFifoWindows.DrainedHasWindows | src/sts_checker.cpp:156-188 | a FIFO run of any types and capacity that ends with an empty queue has window variables if and only if this holds |
| StsFifoWindows.CapacityOneHasWindows | src/sts_checker.cpp:156-188 | with capacity 1 a run of any types has window variables if and only if the second step admits nothing after a first step that sent |
| StsFifoWindows.RejectsQueueRun | src/sts_checker.cpp:156-188 | a FIFO run of capacity 2, the smallest that can carry packets over, without window variables |
| StsFifoWindows.RejectsBusyRun | src/sts_checker.cpp:156-188 | a FIFO run of capacity 1 without window variables, although nothing is forgotten |
| VoqSystem.SwitchConserves | src/leaf_spine/leaf_base.cpp:361-401 | the packets in a switch change by the enqueues and by one per matched VOQ |
| VoqSystem.ServesWhenQueued | src/leaf_spine/fperf_leaf_sts.cpp:84-199 | a switch sends a packet in a step if and only if some VOQ holds one |
| VoqSystem.SwitchDrains | src/leaf_spine/fperf_leaf_sts.cpp:84-199 | without new enqueues a switch is empty after as many steps as it holds packets, whatever the contention |
| VoqQueues.QueueSwitchRuns | src/leaf_spine/fperf_leaf_sts.cpp:126-397 | a switch of FIFO queues, whose backlog decides its matchings, runs for ever on every arrival sequence |
| SplitRanges.SplitsWhen | src/sts_checker.cpp:136-153 | an input that is split into enqueues and drops within the range is within twice the range, and the number enqueued is between what must be enqueued and what can be |
| SplitRanges.ChooseSplit | src/sts_checker.cpp:136-153 | and for every such input and number there is such a split |
| VoqRanges.SolvableExactlyWhen | src/leaf_spine/leaf_base.cpp:348-461 | for any typed arrivals and ranges, with and without windows, all constraints of the switch have a solution with these inputs if and only if the switch of FIFO queues has a run on them in which every input is in its range and splits within the range of E and D at the number that tail drop admits, no empty VOQ is offered more than its capacity, and a packet may be sent if one is |
| VoqRanges.RangeBlocks | src/leaf_spine/leaf_buff.cpp:29-31 | five packets of one type in one step have no solution with the ranges of lst.cpp and capacity 10, with or without windows |
| VoqRanges.SwitchAdmitsArrivals | src/leaf_spine/leaf_base.cpp:361-503 | in particular there is a solution, windows included, for every arrival sequence of small offers: at most cap packets per VOQ and step, and per type no more than the ranges of I and of E |
| RoundRobin.NextTurnIsBest | src/rr_checker.cpp:84-99 | the next turn is the first backlogged successor in cyclic order, or stays |
| RoundRobin.BackwardTrs | src/rr_checker.cpp:84-99 | the backward chain encodes the next turn |
| RoundRobin.ForwardTrs | src/rr_checker.cpp:66-82 | the forward scan encodes the next turn, for every number of buffers |
| RoundRobin.PortTurn | src/leaf_spine/leaf_base.cpp:136-176 | the chain over distinct port numbers yields the port of the next turn; unknown ports stay |
| RoundRobin.EncodingsAgree | src/rr_checker.cpp:66-99 | the three encodings accept the same next turn, the best backlogged successor |
| RoundRobin.InitTurn | src/rr_checker.cpp:53-62 | the first turn is the first backlogged buffer, or 0 |
| Scheduler.TotalBacklogStep | src/sts_checker.cpp:68-90 | serving one packet whenever possible makes the total backlog a recursion without the scheduler |
| Scheduler.BacklogPolicyIndependent | src/sts_checker.cpp:68-110 | two work-conserving points with equal admissions have equal total backlog at every step |
| Scheduler.TotalsConserved | src/sts_checker.cpp:68-110 | cumulative enqueues are cumulative outputs plus backlog, over all buffers |
| RRScheduler.Out | src/rr_checker.cpp:44-51 | exactly the buffer whose turn it is sends, if it is backlogged |
| RRScheduler.StepHolds | src/rr_checker.cpp:44-99 | init and out in the first step, trs and out later |
| RRScheduler.Unroll | src/sts_checker.cpp:206-221 | all steps, init first |
| RRScheduler.TurnInRange | src/rr_checker.cpp:53-99 | on every run the turn is a buffer, and a backlogged one when there is one |
| RRScheduler.FirstServed | src/rr_checker.cpp:44-62 | on every run, a buffer sends in the first step if and only if it is backlogged and no buffer with a smaller number is; if none is backlogged the turn starts at buffer 0 |
| RRScheduler.NextServed | src/rr_checker.cpp:44-99 | on every run, a buffer sends in a later step if and only if it is backlogged and the turn reaches no other backlogged buffer before it; if none is backlogged the turn stays |
| RRScheduler.RoundRobinConserves | src/rr_checker.cpp:44-99 | round robin sends exactly one packet in a step if and only if something is backlogged |
| RRScheduler.LagInvariant | src/rr_checker.cpp:44-99 | over any interval a buffer leads another by at most one packet plus its idle steps, and where the turn then stands |
| RRScheduler.LagBound | src/rr_checker.cpp:44-99 | a buffer gets at most one more service than an always backlogged one |
| RRScheduler.ServedEveryRound | src/rr_checker.cpp:44-99 | a buffer backlogged for as many steps as there are buffers is served |
| RRScheduler.FairShare | src/rr_checker.cpp:44-99 | in r such rounds it is served at least r times |
| RRScheduler.QueryHolds | src/rr_checker.cpp:101-108 | the query is that in each of the last 5 steps at least 3 more packets have left buffer 2 than buffer 1 |
| RRScheduler.QueryNeedsIdleBuffer | src/rr_checker.cpp:101-108 | a lead of 3 at the end of any step needs two idle steps of buffer 1 by then; with buffer 1 always backlogged there is not even a lead of 2, so the query fails |
| PrioScheduler.Out | src/prio_sts.cpp:20-30 | exactly the first backlogged buffer sends |
| PrioScheduler.Trs | src/prio_sts.cpp:32-42 | a backlogged buffer behind a backlogged one stays backlogged |
| PrioScheduler.TransitionImplied | src/prio_sts.cpp:32-42 | that constraint follows from the outputs and the buffer equations on every run |
| PrioScheduler.PriorityConserves | src/prio_sts.cpp:20-30 | strict priority sends exactly one packet in a step if and only if something is backlogged |
| PrioScheduler.BlockedMeansHigherServed | src/prio_sts.cpp:20-30 | a backlogged buffer is silent if and only if a buffer above it sends |
| PrioScheduler.BlockingNeedsLoad | src/prio_sts.cpp:20-30 | w silent steps in a row mean exactly w packets from above in them and at least w enqueued there |
| PrioScheduler.QueryHolds | src/prio_sts.cpp:45-58 | the query is that buffer 2 is backlogged and silent for 6 steps in a row |
| PrioScheduler.QueryNeedsLoad | src/prio_sts.cpp:45-58 | that needs 6 packets enqueued in buffers 0 and 1 by the end of these steps |
| SchedulerRuns.RoundRobinContinues | src/sts_checker.cpp:68-153 | every run of round robin, for any buffers, types and capacity, has a next step whatever arrives |
| SchedulerRuns.PriorityContinues | src/sts_checker.cpp:68-153 | so has every run of strict priority |
| SchedulerRuns.RoundRobinRunExists | src/rr_checker.cpp:44-99 | so round robin has a run on any arrivals, of any length |
| SchedulerRuns.PriorityRunExists | src/prio_sts.cpp:20-42 | so has strict priority |
| RateLimiter.FirstOutput | examples/rate_limiter.cpp:35-39 | on every run the first step sends one packet if something is enqueued in it, else none |
| RateLimiter.OutputLeavesBacklog | examples/rate_limiter.cpp:16-26 | after an output the buffer is backlogged and the bit 0, on every run |
| RateLimiter.NeverTwiceInARow | examples/rate_limiter.cpp:16-39 | no two consecutive steps both send |
| RateLimiter.RateBound | examples/rate_limiter.cpp:16-39 | any w consecutive steps send at most half of w, rounded up |
| RateLimiter.FullRateWhenBacklogged | examples/rate_limiter.cpp:16-39 | and at least half of w, rounded down, while backlogged, from the first step on |
| RateLimiter.QueryHolds | examples/rate_limiter.cpp:29-33 | the query is that at most 5 packets leave during the run |
| RateLimiter.QueryAlwaysHolds | examples/rate_limiter.cpp:29-33 | at most n packets leave in 2 * n steps, so the query holds on every run of at most 10 steps |
| RateLimiterSteps.ContinuesExactlyWhen | src/sts_checker.cpp:9-66 | for any types, ranges and capacity, with and without windows, a run has a next step with a given input if and only if the input splits within the ranges, a packet is there when the bit demands one, and the windows have not forgotten the packet to send |
| RateLimiterSteps.StartsExactlyWhen | src/sts_checker.cpp:9-66 | for any types, ranges and capacity, 0 included, with and without windows, a run can begin with a given input if and only if the input splits within the ranges at the number that tail drop admits, and a packet may be sent if one is enqueued |
| RateLimiterSteps.QuietStart | examples/rate_limiter.cpp:35-39 | nothing may arrive in the first step, whatever capacity and ranges are |
| RateLimiterSteps.OnlyWindowsBlock | src/sts_checker.cpp:9-66 | a run of four steps with a packet waiting that can continue without windows but not with them |
| Loom.MergeStreams | src/lib.cpp:157-163 | streams are added step by step |
| Loom.Classifier.SetOut | src/classifier.cpp:15-28 | types 0 and 1 go to output 1, type 2 goes to output 0, component by component |
| Loom.MergerOut | src/merger.cpp:8-13 | a backlogged merger buffer sends one packet |
| Loom.MergerTransparent | src/merger.cpp:8-13 | fed at most one packet per step, a merger buffer sends its input at once, without drops or backlog |
| Loom.AddAll | loom.cpp:63-63 | the sum of all merger outputs |
| Loom.LoomMergerTransparent | loom.cpp:57-60 | on every run of the composed switch the merger passes everything on at once |
| Loom.ClassifierConserves | loom.cpp:62-68 | the classifier loses nothing, per type |
| Loom.LoomConserves | loom.cpp:49-71 | per type, external input is priority output plus backlogs and drops of the round-robin and priority buffers |
| Loom.StageBuffersConserve | loom.cpp:50-53 | per type, buffer 0 of a round-robin stage conserves its first external stream, buffer 1 the sum of the other two |
| Loom.PriorityOffers | loom.cpp:57-69 | on every run and at every step, priority buffer 0 is offered what the mergers send of type 2, buffer 1 what they send of types 0 and 1, and nothing else |
| Loom.PriorityTypes | src/classifier.cpp:15-28 | so on every run no variable of priority buffer 0 ever counts types 0 or 1, and none of buffer 1 counts type 2 |
| Loom.PrioritiesConserve | loom.cpp:49-71 | end to end by priority: external input of type 2 is the output of priority buffer 0 plus backlogs and drops, that of types 0 and 1 the output of buffer 1 plus backlogs and drops |
| LoomRuns.SwitchRunExists | loom.cpp:39-72 | the composed switch has a run on any external streams, for any number of stages, steps and any capacity |
| LoomWiring.Composed.constructor | loom.cpp:39-72 | a new object is wired: only the input streams of its components are overwritten, by the streams they are to read |
| LoomWiring.ObjectIsWired | loom.cpp:49-71 | the variables of every such object form a switch wired as the theorems assume |
| LoomWiring.ObjectConserves | loom.cpp:39-72 | for every object whose components meet their constraints, external input is the object's output plus backlogs and drops, per type |
| LstTables.LeafPorts | lst.cpp:39-54 | a leaf has a VOQ for every pair of distinct ports with a host port at one end |
| LstTables.PortToEcmp | lst.cpp:56-65 | the spine behind a leaf port |
| LstTables.PortToInput | lst.cpp:116-126 | the host behind a leaf port |
| LstTables.LeafNextHop | lst.cpp:74-92 | own hosts by their port, others by the port of the type's spine |
| LstTables.SpineNextHop | lst.cpp:155-167 | the port of the destination's leaf, at every spine |
| LstTables.DstAndSpine | lst.cpp:94-114 | the tables recover destination and spine of every type |
| LstTables.SpinePorts | lst.cpp:128-144 | a spine has a VOQ for every pair of distinct leaves, with the types for the second leaf |
| LstTables.TypeDecodes | lst.cpp:94-114 | a type determines spine, leaf and host, for all topologies |
| LstTables.TypeEncodes | lst.cpp:94-114 | every table index is the type of some spine, leaf and host |
| LstRouting.BuildNetwork | lst.cpp:192-264 | tables, VOQs and links of all switches together |
| LstRouting.Delivers | lst.cpp:74-167 | from any host every type for another host arrives, by leaf or by leaf, its spine and leaf, over existing VOQs and links only |
| LstRouting.EveryTypeDelivers | lst.cpp:74-167 | the same for an arbitrary type number |
| LstRouting.SpineListExact | lst.cpp:128-144 | a spine VOQ lists exactly the types with this spine and next hop |
| PortLists.PortTable.constructor | lst.cpp:39-54 | all lists start empty |
| PortLists.AppendNewExact | src/leaf_spine/leaf_utils.cpp:250-325 | pushing types one by one, each unless it is there, keeps the old list in front, adds exactly these types, and never a type twice |
| PortLists.AppendNewInOrder | src/leaf_spine/leaf_utils.cpp:250-325 | and what comes behind the old list keeps the order in which the types are tried |
| PortLists.FixTypesExact | src/leaf_spine/leaf_utils.cpp:250-278 | fix tries exactly the used types that enter by the VOQ's spine and leave by its output, in the order of the types |
| PortLists.HostTypesExact | src/leaf_spine/leaf_utils.cpp:280-325 | update_ports tries exactly the types that the host may send by the VOQ's output |
| PortLists.HostTypesIncrease | src/leaf_spine/leaf_utils.cpp:280-325 | in the order of the types, when destinations are host numbers |
| PortLists.PortTable.Fix | src/leaf_spine/leaf_utils.cpp:250-278 | to every list the types that fix tries are appended unless they are there; lists of host ports stay |
| PortLists.PortTable.UpdatePorts | src/leaf_spine/leaf_utils.cpp:280-325 | to every list of a host port the types that update_ports tries are appended unless they are there, in order; other lists stay |
| PortLists.LeafLists | lst.cpp:196-209 | the resulting lists, with every type once and bound for the VOQ's output |
| LstLists.UsedVals | src/leaf_spine/leaf_utils.cpp:145-163 | used destinations, used spines, and inputs without destinations |
| LstLists.FixMeans | src/leaf_spine/leaf_utils.cpp:261-276 | what fix adds, in terms of spine, leaf and host |
| LstLists.UpdateMeans | src/leaf_spine/leaf_utils.cpp:286-323 | what update_ports adds, in terms of spine, leaf and host |
| LstLists.BuildLists | lst.cpp:185-209 | the lists of all leaves hold exactly the types wanted there, each once |
| LstLists.RouteIsListed | lst.cpp:185-264 | every VOQ on the route of a type that a host may send lists that type, at leaves and spines |
| LstLists.HostListIsMinimal | lst.cpp:185-209 | a host's VOQ lists a type only if the host may send it and the table routes it there |
| Demux.LocalIndex | src/leaf_spine/leaf_buff.cpp:142-150 | position of every type in the list of used types, or -1 |
| Demux.Expand | src/leaf_spine/leaf_buff.cpp:91-140 | the dense vector of a sparse one |
| Demux.ExpandInvertsProjection | src/leaf_spine/leaf_buff.cpp:91-150 | reading the used types back gives the stored counts; unused types are 0 |
| Demux.ExpandKeepsTotal | src/leaf_spine/leaf_buff.cpp:91-150 | expansion keeps the total |
| Demux.SumInPort | src/leaf_spine/leaf_base.cpp:40-48 | the input of a port is the sum over its VOQs |
| Demux.SumOutPort | src/leaf_spine/leaf_base.cpp:72-82 | so is its output, which is 0 without VOQs |
| Demux.DemuxInPort | src/leaf_spine/demux_switch.cpp:44-79 | each type is read from the VOQ towards its next hop, 0 without one |
| Demux.DemuxEqualsSum | src/leaf_spine/demux_switch.cpp:55-79 | both readings agree when every VOQ carries only types bound for its output |
| LstDemux.LeafListsGood | lst.cpp:192-216 | the lists built for a leaf carry only types that its table sends to the VOQ's output |
| LstDemux.SpineListsGood | lst.cpp:224-234 | so do the lists of a spine |
| LstDemux.LeafReadsPorts | lst.cpp:249-271 | so every input port of every leaf reads, for every type, the sum over its VOQs, for every topology and workload |
| LstDemux.SpineReadsPorts | lst.cpp:249-264 | and every input port of every spine |
| NetworkQueues.NetworkRuns | src/leaf_spine/leaf_utils.cpp:337-345 | linked switches of FIFO queues, where every linked port is offered what the other end sends in the same step, have a run of any length whatever the hosts send |
| NetworkCarry.AllCarried | src/leaf_spine/leaf_utils.cpp:337-345 | on every such run only types arrive at a VOQ that it may carry, if this holds for the hosts and the tables send what leaves over a link to VOQs that may carry it |
| NetworkCarry.PortSendsOnce | src/leaf_spine/fperf_leaf_sts.cpp:84-242 | at most one packet leaves a switch by an output port in a step |
| NetworkPorts.LinkPorts | src/leaf_spine/leaf_utils.cpp:337-345 | accepts exactly equal counts for every step and type |
| NetworkSolutions.NetworkSolvable | lst.cpp:236-264 | when all hosts make small offers of carried types, the constraints of all switches, ranges and windows included, and of all links together have a solution with these inputs, for any network of that kind |
| NetworkForward.BufferIsExecution | src/leaf_spine/leaf_base.cpp:378-461 | a VOQ meets its relation if and only if its backlog follows from tail drop, step by step, and it is never flooded while empty |
| NetworkForward.LinkIsRouting | src/leaf_spine/leaf_utils.cpp:337-345 | the two ports of a link count alike if and only if every VOQ behind it gets, of what leaves over the link, the types that the table sends to its output |
| NetworkForward.SolutionsAreExecutions | lst.cpp:236-264 | for any network whose tables, lists and links fit together, an assignment solves all constraints if and only if it is a forward execution of the network in which the offers of the hosts fit their ranges and flood no empty VOQ, and it has windows if they are used; nothing needs to be asked of VOQs behind links |
| NetworkExecutions.ExecutionExists | lst.cpp:236-264 | such a network has an execution of any length for whatever carried types the hosts send, however much |
| NetworkExecutions.VoqHasWindows | src/leaf_spine/leaf_base.cpp:463-503 | a VOQ of a switch has window variables if and only if its outputs fit the ends of the windows |
| NetworkExecutions.SolvableExactlyWhen | lst.cpp:236-264 | for given arrivals, ranges and capacity, with or without windows, the constraints of the network have a solution if and only if it has an execution on them in which the offers of the hosts fit and, with windows, all outputs fit their ends |
| NetworkExact.AdmittedExactlyWhen | lst.cpp:236-264 | for any such network, ranges and capacity, with or without windows: started empty at any moment, it has a solution for what the hosts send from then on if and only if every offer of a host, in every step, is small and of types that its VOQ may carry; the only-if half looks at the first step of an empty network |
| NetworkFlows.VoqConserves | src/leaf_spine/leaf_base.cpp:378-461 | per type, what a VOQ was offered has left, was dropped or is backlogged |
| NetworkFlows.NetworkConserves | lst.cpp:236-264 | in every solution for a network, per type, what entered by ports without links has left by ports without links, or is backlogged or was dropped |
| NetworkDrains.NetworkEmpties | lst.cpp:236-264 | in every solution for a network in which some weight of VOQs falls along all links, once nothing enters by ports without links every step takes at least one off the weight of all packets |
| LstNetwork.ListLinks | lst.cpp:249-264 | the links of the table as a list: every link between a leaf and a spine, in both directions, once, and nothing else |
| LstNetwork.BuildAll | lst.cpp:185-264 | for every topology and workload, tables, type lists, links and VOQs of a network as the theorems ask for it |
| LstNetwork.ListsExceedUses | src/leaf_spine/leaf_utils.cpp:261-276 | two leaves with one host each, where a leaf lists a type that no host may send |
| LstLinks.SolutionIsStored | src/leaf_spine/leaf_buff.cpp:91-150 | in every solution, with or without windows, storing only the listed types of every VOQ loses nothing: expansion gives its inputs and outputs back |
| LstLinks.DemuxReadsCounts | src/leaf_spine/demux_switch.cpp:55-79 | in every solution, with or without windows, the input port that a leaf or spine demultiplexes from its sparse buffers counts what the links compare |
| LstLinks.LinkSwitches | lst.cpp:249-264 | the loops over leaves and spines, reading both ports of every link from sparse buffers, accept exactly the counts for which all links hold at all steps |
| LstNetwork.LstClosed | lst.cpp:185-264 | every type that may leave a leaf or a spine over a link finds behind it a VOQ towards its next hop that lists it |
| LstSolutions.OnlyUsedTypes | src/leaf_spine/leaf_buff.cpp:91-150 | with variables for all types that the lists of leaves and spines name, the links force the types that are not in use to 0 at spines: the solutions are those that count only types in use there |
| LstSolutions.NeverBlocks | lst.cpp:185-271 | for every topology, workload, capacity and ranges, with or without windows, the constraints of all leaves, spines and links have a solution whatever the hosts send in small offers of listed types |
| LstSolutions.AdmitsExactlyWhen | lst.cpp:185-271 | and, started empty at any moment, they have one for what is sent from then on only then |
| LstExecutions.LstWellLinked | lst.cpp:185-264 | tables, lists and links of the leaf-spine network fit together: what a VOQ lists is bound for its output, and what leaves over a link is listed behind it |
| LstExecutions.SolvableExactlyWhen | lst.cpp:185-271 | for every topology, workload, capacity and ranges, with or without windows, the constraints have a solution for given arrivals if and only if the network has an execution on them in which the offers of the hosts fit and, with windows, all outputs fit their ends |
| LstConservation.LstConserves | lst.cpp:236-271 | in every solution, per type and number of steps, what all hosts sent is what its one destination host received plus backlogs and drops |
| LstConservation.SolutionFits | lst.cpp:236-271 | every solution, with or without windows, is such a run |
| LstDrains.EmptiesInTime | lst.cpp:236-271 | in every solution, with or without windows, once the hosts stop, all VOQs are empty after at most three steps per packet in the network |
| LstDrains.AllArriveOrDrop | lst.cpp:236-271 | by then every packet that the hosts sent has arrived at the one host it is for, or was dropped, per type |
| PacketGaps.Cenqs | src/gen/constr_extractor.cpp:73-82 | entry j counts the packets up to and including step j |
| PacketGaps.NextGap | src/gen/constr_extractor.cpp:89-93 | the downward loop finds the gap to the nearest later arrival, or the horizon |
| PacketGaps.PreviousGap | src/gen/constr_extractor.cpp:95-97 | the upward loop overwrites it by the gap to the nearest earlier arrival |
| PacketGaps.GapChain | src/gen/constr_extractor.cpp:89-97 | the value is the gap to the previous arrival, else to the next, else the horizon |
| PacketGaps.Aipgs | src/leaf_spine/leaf_constr_extractor.cpp:67-87 | every entry of the metric from the entry before it, as the next row spells out |
| PacketGaps.AipgCases | src/leaf_spine/leaf_constr_extractor.cpp:67-87 | entry 0 is 0; a burst has 0; without arrival the entry stays; a single packet has its distance to the previous arrival, without one that to the next, without any the number of steps |
| PacketGaps.AipgClosedForm | src/gen/constr_extractor.cpp:84-104 | the entry is set by the latest arrival after step 0: 0 for a burst, else its gap; 0 before any |
| PacketGaps.GapsBoundRate | src/gen/constr_extractor.cpp:84-104 | gaps of at least g in steps lo to hi, lo > 0, bound the packets in them by (hi - lo + 1) / g, rounded up |

## Left out

- The solver, the expression compiler and the generated parser, with variable names, labels and statistics: libraries and bookkeeping; a constraint is its value under an assignment.
- Runners, workload and query files, logs and printing: input and output only.
- Workload predicates (`workload`, `base_wl`, `add_workload`, `valid_meta`, `uniq`, `dst_val`, `ecmp_val`): they restrict inputs, and the results here hold for all inputs.
- `FLUSH` (src/sts_checker.cpp:85-88) is a constant that is off.
- Both `winds_old`: superseded by `winds`.
- `LeafSts`, `TrivialSts`, `IntSeq`, the root-level leaf experiment and lsl: superseded or too small to add anything.
- `FqChecker`: its removal loop rereads positions that it has just overwritten, so the order on its queues that an invariant would need does not hold.
- Freedom from starvation for a VOQ that has rivals at both of its ports: a loss at one port can lengthen the wait at the other, and the code promises no bound. VoqSystem.SwitchDrains is what holds without assumptions.
- SchedulerRuns.RoundRobinContinues: about buffers and scheduler alone, as PriorityContinues; ranges and the older windows can rule out further steps, as RateLimiterSteps and StsFifoWindows show.
- LoomRuns.SwitchRunExists: without ranges and windows, for the same reason.
- VoqSystem.SwitchConserves: a VOQ without packet types is a buffer that stays empty, which is how the source declares it; window variables play no part.
- LeafBuffer.TailDropExact: says nothing about which types are dropped; the relation leaves that free, and FifoSimulation fixes it by the order of arrival.
- FifoHistories.LeafRunIsQueueRun: asks that a VOQ sends at most one packet and only when backlogged, which is what `out` and the matching give; the buffer relation alone does not bound the output of the last step.
- WindowTypes.HasWindowsExactlyWhen: asks that at most one packet departs in a step, which every scheduler here does.
- Demux.Expand: one time step at a time; the source loops over the steps.
- Demux.DemuxInPort: the map of one input's VOQs is looked up in the VOQ list directly.
- VoqRanges.SwitchAdmitsArrivals: asks for small offers, which is more than SolvableExactlyWhen needs of a VOQ that is backlogged.
- NetworkSolutions.NetworkSolvable: asks for small offers; NetworkExecutions.SolvableExactlyWhen has the exact condition.
- NetworkExecutions.SolvableExactlyWhen: its condition asks for some execution; which packet of a VOQ is sent when, and so which way it takes, is free in the constraints, and one execution may fit where another does not.
- LeafWindows.HasWindowsExactlyWhen: asks that a VOQ sends at most one packet and only when backlogged, as FifoHistories.LeafRunIsQueueRun does.
- LstLinks.LinkSwitches: rejects an assignment where the source appends a constraint; labels of the constraints are left out.
