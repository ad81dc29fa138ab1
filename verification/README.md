# Verified core of the personal project manager

A Dafny model of the logic at the centre of the repository, and proofs of what that logic promises. Methods follow
the loops and updates of the source and are proved against specification functions; the theorems are about those
functions, for all inputs and over all runs.

- **Dependency cycles** (`Reachability`, `StrongComponents`, `TarjanSearch`, `CycleDetection`): the iterative
  strongly-connected-components search, proved through an invariant on its stack, frames and low-links.
- **Critical path** (`CriticalPath`, `GraphAnalysis`, `TimingTheorems`): the memoised backward pass, correct for every
  task that reaches no cycle even when cycles exist elsewhere, and what it makes of the planner's own input.
- **Availability** (`AvailabilitySlots`, `DailyCapacity`, `UniqueSlots`): tiling, reservation and the daily cut.
- **Serial scheduler** (`Sorting`, `Priority`, `Ledger`, `Placement`, `PlacementFacts`, `Ownership`, `Conservation`,
  `TwoSweeps`, `DayCap`, `DayCapExact`, `EarliestFit`, `SerialSchedule`, `SerialFacts`, `SerialTheorems`,
  `SerialOrder`, `SerialTotals`, `ScheduleDays`, `ScheduleBounds`, `Reservations`, `PassCapacity`): greedy placement
  over the slot ledger, start gates, chunking, the limit of chunks a day, preallocation, conservation, earliest fit
  and independence of order.
- **Plans, replans and risk** (`PlanningInput`, `PlanningPasses`, `PlanningFacts`, `PlanningTheorems`, `PlanOrder`,
  `PlanOutcomes`, `PlanPriorities`, `Replanning`, `ReplanTheorems`, `ReplanOutcomes`, `Risk`, `RiskTheorems`,
  `RiskOutcomes`, `RiskOvershoot`): the passes, what they do for the tasks of the input, what becomes of prior work,
  and what the risk levels mean.
- **Event replay** (`EventFraming`, `EventBlocks`, `EventDelivery`): printer, chunked parser and reconnecting client;
  the frames are a subset of section 9.2 of the WHATWG HTML standard (server-sent events).
- **Outbox, approvals, rate limit** (`OutboxWorker`, `CommandExecutor`, `Approvals`, `ApprovalOutcomes`,
  `RateLimiting`): small state machines over whole runs.

## How the source is modelled

- Time is whole minutes since 0001-01-01T00:00Z. The UTC date of an instant is its quotient by 1440; the local day is
  an arbitrary function of the instant. An absent instant in a sort key is the first minute after the latest datetime.
- Task ids are numbers, ordered like the hexadecimal text of the ids. Slot ids are the counter alone. Milestone ids
  and buffer ids are distinct; buffer ids collide with no task id.
- The duration field and the pass type of a scheduling pass always go together and are one value here. The capacity
  factor is a fraction, and comparisons of coverage ratios are comparisons of integers. The capacity floor is that of
  exact fractions, which `UniqueSlots.NoiseGuardExact` shows the guarded floating-point one to be. The ten-percent
  threshold is a plain ceiling of a floating-point product in the source and exact integer arithmetic here.
- The search's stack of frames advances its top frame in place where the source pops it and pushes it back, and
  `sorted` is a stable insertion sort.
- The graph analysis is computed once for a plan and handed on, as a parameter every user requires to be that of the
  input; its external-dependency and demand figures, which nothing here reads, are not part of this model.
- The JSON codec is a parameter: it round-trips, and its text is nonempty, has no line break and does not begin with
  white space. UTF-8 decoding of chunks, delays, tokens and aborting are not part of this model; an abort is a run that
  ends.
- A database lock held to the end of a transaction is a worker holding a row. The provider deduplicates by key, and an
  answer that reports a verified id names an event the provider has. Sessions of the approval service are serialised.

## What the proofs turned up

- A start dependency on a finished task blocks its successor for good: the gate is kept, the finished task is dropped
  from the pass (`PlanningTheorems.FinishedPredecessorBlocks`).
- The limit of three chunks a day looks at the day a run begins but counts the day a chunk begins; a run across
  midnight that holds the earliest start can let a fourth chunk through (`DayCap.FourthChunkSlipsThrough` for an input,
  `DayCapExact.FourthExactlyWhen` for exactly when), though never a fifth (`ScheduleDays.NoFifthChunk`).
- Repeated dependencies are not refused, though the code means to: nothing is ever added to the set it looks them up
  in (`CycleDetection.FromDependencies`).
- A task placed in several chunks is reported as moved even when nothing changed (`ReplanTheorems.KeptExactly`), so a
  protected one always raises a proposal.
- Slot rounding can hide a shortfall from the risk level (`RiskOvershoot.OvershootHidesShortfall`, on a whole planner
  input).
- Undo writes the value the payload recorded, not the one that was replaced
  (`Approvals.UndoRestoresExactlyWhenRecorded`), and over any later edit (`Approvals.UndoOverwritesLaterEdits`).
- The rate limiter's worst case is one call better than twice the maximum per window, for every limit
  (`RateLimiting.EveryKeyBounded`, `RateLimiting.SpanBoundReached`).
- Replacing line ends chunk by chunk misses a CRLF pair split between chunks (`EventFraming.CrlfAcrossChunks`).

Smaller facts stated beside these and not listed below: `ReplanTheorems.MoveCostMeans`,
`PlanningFacts.PromotedGoesFirst`, `RiskTheorems.ThresholdMeans`, `Approvals.TargetChangesExactlyWhen`,
`Approvals.UndoPossible`, `ApprovalOutcomes.BlankMeans`, `EventBlocks.SpaceMeans`, `EventDelivery.BlockBreaks`,
`ReplanOutcomes.CostCounts`.

## Model

| member | source | states |
|---|---|---|
| TarjanSearch.StronglyConnectedComponents | packages/planner/src/personal_pm_planner/domain/dependency.py:115-170 | The iterative search terminates and returns a condensation: the components partition the nodes, two tasks share one exactly when each reaches the other, and a component comes after everything it leads to |
| TarjanSearch.PopComponent | packages/planner/src/personal_pm_planner/domain/dependency.py:158-166 | The pop loop takes exactly the stack above and including the root, in pop order, and nothing below it |
| TarjanSearch.PopTop | packages/planner/src/personal_pm_planner/domain/dependency.py:158-169 | Popping a component leaves a prefix of the stack, lists what was popped, and returns to the frame below with its low-link lowered |
| TarjanSearch.ScanOne | packages/planner/src/personal_pm_planner/domain/dependency.py:143-155 | Looking at one successor keeps the search invariant: a new one opens a frame and is numbered, a known one only lowers the low-link |
| TarjanSearch.ExploreFrom | packages/planner/src/personal_pm_planner/domain/dependency.py:132-169 | Exploring from an unvisited root ends with an empty stack and the root numbered, and forgets no number |
| StrongComponents.DiscoverInv | packages/planner/src/personal_pm_planner/domain/dependency.py:146-153 | Numbering a new task and opening its frame keeps the invariant of the search (open path, settled components, low-links witnessed by reachability) |
| StrongComponents.LookInv | packages/planner/src/personal_pm_planner/domain/dependency.py:154-155 | Lowering a low-link from a stacked successor keeps the invariant |
| StrongComponents.ReturnInv | packages/planner/src/personal_pm_planner/domain/dependency.py:167-169 | Dropping a frame that is no root, handing its low-link down, keeps the invariant |
| StrongComponents.EmitInv | packages/planner/src/personal_pm_planner/domain/dependency.py:158-169 | When low-link equals index, what is popped is one whole component: emitting it keeps the invariant |
| TarjanSearch.FinishedIsCondensation | packages/planner/src/personal_pm_planner/domain/dependency.py:132-170 | When every root is done, the invariant says the emitted components are the condensation |
| CycleDetection.CycleAdjacency | packages/planner/src/personal_pm_planner/domain/dependency.py:105-112 | The adjacency built edge by edge is the graph of start and completion dependencies, whatever their order or repetition |
| CycleDetection.FromDependencies | packages/planner/src/personal_pm_planner/domain/dependency.py:50-65 | A list of dependencies is refused if and only if some predecessor id is nil; a repeated dependency never is, since nothing is ever added to the set of seen keys |
| CycleDetection.Cycles | packages/planner/src/personal_pm_planner/domain/dependency.py:67-80 | The report names exactly the tasks that can reach themselves over blocking edges, one sorted class of mutually reachable tasks per entry, ordered by first member |
| CycleDetection.ReportUnique | packages/planner/src/personal_pm_planner/domain/dependency.py:38-48 | The report is determined by the graph alone, so the order in which dependencies arrive is irrelevant |
| CriticalPath.BackwardTiming | packages/planner/src/personal_pm_planner/graph/critical_path.py:31-85 | Terminates on every graph; each task that reaches no start-edge cycle gets the minimum, over all active successor paths, of the end task's own limit less the durations after the first; latest starts are that less the own duration; on every graph the result is a function of the project |
| CriticalPath.ResolvedRight | packages/planner/src/personal_pm_planner/graph/critical_path.py:52-75 | From any memo that is right, whatever is being visited above, resolving a task keeps the memo right, forgets nothing, and returns the path minimum unless a cycle can be reached |
| CriticalPath.BackwardPass.Resolve | packages/planner/src/personal_pm_planner/graph/critical_path.py:52-75 | The recursion over shared memo and visiting set returns what `Resolved` says and leaves its memo |
| CriticalPath.BackwardPass.Limits | packages/planner/src/personal_pm_planner/graph/critical_path.py:59-71 | The loop over successors collects the limits `Resolved` takes the least of, in the order of ids |
| CriticalPath.LatestFinishStep | packages/planner/src/personal_pm_planner/graph/critical_path.py:65-71 | The minimum over own limits and over what each successor leaves is the minimum over all paths |
| CriticalPath.LatestFinishGreatest | packages/planner/src/personal_pm_planner/graph/critical_path.py:65-75 | The path minimum is at least every solution of the edge constraints |
| CriticalPath.LatestFinishFeasible | packages/planner/src/personal_pm_planner/graph/critical_path.py:65-75 | The path minima themselves satisfy the edge constraints |
| GraphAnalysis.BuildGraphAnalysis | packages/planner/src/personal_pm_planner/graph/build.py:46-93 | From the planner's own tasks, milestones and dependencies: latest starts by the backward pass, unlock counts, and as blocked exactly the tasks on a cycle of blocking edges; no analysis if and only if a predecessor is nil |
| GraphAnalysis.CountUnlocks | packages/planner/src/personal_pm_planner/graph/critical_path.py:88-100 | An unfinished task unlocks as many tasks as it has unfinished start successors, a finished one none |
| TimingTheorems.LatestStartExactly | packages/planner/src/personal_pm_planner/graph/build.py:51-91 | A task with no cycle ahead must be finished by exactly the least of the horizon, its deadline or the start of its deadline's date, its milestone's limit less the required buffer, and the latest starts of the tasks that wait for it |
| TimingTheorems.LatestStartLocal | packages/planner/src/personal_pm_planner/graph/critical_path.py:52-75 | On every graph each limit of its own holds for a task, each task waiting for it bounds it by its latest start or by what the horizon leaves it, and one of these is attained |
| TimingTheorems.UnlocksCounted | packages/planner/src/personal_pm_planner/graph/critical_path.py:88-100 | The unlock count of an unfinished task is the number of unfinished tasks that may start only after it, that of a finished one zero |
| AvailabilitySlots.SplitWindow | packages/planner/src/personal_pm_planner/availability/slots.py:79-100 | The cursor loop yields the numbered tiles of a window and the next counter value |
| AvailabilitySlots.TilesTile | packages/planner/src/personal_pm_planner/availability/slots.py:79-100 | Tiles touch, begin and end with the window, are at most one step long, and together last as long as the window |
| AvailabilitySlots.TileAllApart | packages/planner/src/personal_pm_planner/availability/slots.py:154-158 | Tiles of disjoint windows are disjoint |
| AvailabilitySlots.ReserveIntervals | packages/planner/src/personal_pm_planner/availability/slots.py:103-119 | Exactly the free slots that overlap an interval change state |
| Reservations.StateMeans | packages/planner/src/personal_pm_planner/availability/slots.py:103-119 | A built slot is a fixed event's exactly when the two share an instant, else a protected block's exactly when it shares one with one |
| UniqueSlots.BuildUniqueSlots | packages/planner/src/personal_pm_planner/availability/slots.py:154-169 | Tiling, two reservations and the capacity cut, composed |
| UniqueSlots.StatesDecided | packages/planner/src/personal_pm_planner/availability/slots.py:103-119 | A built slot is its tile with one state: fixed event if one overlaps it, else protected block if one does, else free or reserve |
| UniqueSlots.BuiltShape | packages/planner/src/personal_pm_planner/availability/slots.py:79-100 | Built slots have different ids, last between one minute and one step, and are disjoint if the windows are |
| UniqueSlots.FloorBounds | packages/planner/src/personal_pm_planner/availability/capacity.py:16-23 | The floor is a whole number of slots, at most the scaled minutes and more than them less one slot |
| UniqueSlots.NoiseGuardExact | packages/planner/src/personal_pm_planner/availability/capacity.py:16-23 | With the rounding to six decimals that guards it, the floor of a computed quotient off by up to a ten-millionth is the floor of the exact one |
| DailyCapacity.GroupByDay | packages/planner/src/personal_pm_planner/availability/slots.py:129-131 | The index lists group all slots by local day, in order |
| DailyCapacity.CutDay | packages/planner/src/personal_pm_planner/availability/slots.py:134-150 | The loop over one day cuts exactly what the remaining budget does not pay for and touches no other day |
| DailyCapacity.ApplyDailyCapacity | packages/planner/src/personal_pm_planner/availability/slots.py:122-151 | Each slot of the result is decided by its own day's budget and the slots before it, whichever day is handled first |
| UniqueSlots.CapacityKept | packages/planner/src/personal_pm_planner/availability/slots.py:136-150 | After the cut a day keeps at most its budget and more than the budget less one slot; the budget is at most the factor times the unreserved minutes |
| UniqueSlots.EarliestKept | packages/planner/src/personal_pm_planner/availability/slots.py:139-150 | The reserve lies at the tail of the day: after a cut slot only shorter slots are kept |
| Priority.SortTasksForgetsOrder | packages/planner/src/personal_pm_planner/scheduling/priority.py:83-99 | Sorting by the key gives one arrangement for every order of the same tasks |
| Priority.EqualKeysEqualIds | packages/planner/src/personal_pm_planner/scheduling/priority.py:83-99 | Equal keys mean equal ids: the order is strict among distinct tasks |
| Priority.KeyIsTotalPreorder | packages/planner/src/personal_pm_planner/scheduling/priority.py:83-99 | The key tuple orders any two tasks, transitively |
| Priority.KeyPriorities | packages/planner/src/personal_pm_planner/scheduling/priority.py:83-99 | The key puts the more urgent class first, then the earlier latest start, then the earlier deadline; a missing instant comes last |
| Priority.KeyOrderIs | packages/planner/src/personal_pm_planner/scheduling/priority.py:83-99 | Comparing keys is comparing tasks by class, latest start, deadline, more unlocked tasks, external commitment, importance, place in the prior plan, switching penalty, creation and id, each in its direction |
| Ledger.SlotLedger.AllocateSlots | packages/planner/src/personal_pm_planner/scheduling/serial.py:63-78 | Exactly the named slots get the owner and stop being free |
| Ledger.SlotLedger.ReserveInterval | packages/planner/src/personal_pm_planner/scheduling/serial.py:80-88 | The free slots that overlap the interval, and only those, go to the owner |
| Ledger.ContiguousRuns | packages/planner/src/personal_pm_planner/scheduling/serial.py:98-112 | The loop computes the runs of `Runs` |
| Ledger.RunsFromPartition | packages/planner/src/personal_pm_planner/scheduling/serial.py:98-112 | Runs lose no slot, keep the order, and are nonempty stretches of touching slots |
| Ledger.RunsFromMaximal | packages/planner/src/personal_pm_planner/scheduling/serial.py:98-112 | Neighbouring runs do not touch: each run is as long as it can be |
| Placement.SelectSlots | packages/planner/src/personal_pm_planner/scheduling/serial.py:179-187 | The selection loop takes the shortest prefix of the usable slots that lasts long enough |
| Placement.TrimSlots | packages/planner/src/personal_pm_planner/scheduling/serial.py:188-194 | The trimming loop returns that prefix and its minutes |
| Placement.PlaceInRun | packages/planner/src/personal_pm_planner/scheduling/serial.py:155-213 | One turn skips the run or allocates one chunk of it, as `TryRun` says |
| Placement.PlaceTask | packages/planner/src/personal_pm_planner/scheduling/serial.py:133-219 | Ledger and chunks are those of `Place`; the loop terminates because what remains strictly falls |
| PlacementFacts.PlaceSound | packages/planner/src/personal_pm_planner/scheduling/serial.py:148-219 | Every chunk is an abutting stretch of slots free at the start that end after the earliest bound; ledger, remaining minutes, chunk index and day counts agree with the chunks; sizes obey the chunking rules |
| PlacementFacts.PlaceExhausts | packages/planner/src/personal_pm_planner/scheduling/serial.py:148-176 | When placing stops short, no free run past the earliest bound could take a legal chunk |
| EarliestFit.FirstFit | packages/planner/src/personal_pm_planner/scheduling/serial.py:148-199 | If a stretch of free touching slots past the bound is long enough for a first chunk, the task is placed and begins no later than that stretch |
| PlacementFacts.CutShape | packages/planner/src/personal_pm_planner/scheduling/serial.py:156-197 | A cut is an abutting stretch of its run none of whose slots ends by the earliest bound |
| TwoSweeps.PlaceInTwoSweeps | packages/planner/src/personal_pm_planner/scheduling/serial.py:148-217 | Over disjoint slots in start order placing ends after two sweeps of the runs: the second places nothing, or one chunk that finishes the task |
| DayCap.AtMostThreeADay | packages/planner/src/personal_pm_planner/scheduling/serial.py:174-176 | At most three chunks begin on one day when the task may not be split, has no earliest bound, or the free slots that lead up to the one holding the bound begin on its date; wherever else runs cross a date |
| DayCapExact.FourthExactlyWhen | packages/planner/src/personal_pm_planner/scheduling/serial.py:148-217 | Over disjoint slots in start order a day gets more than three chunks if and only if the first run past the bound begins on an earlier date, is too short for a first chunk, and the other runs give the date it can be used on three chunks and leave a rest that fits it; then that day alone gets four, and no day ever five |
| DayCap.FourthChunkSlipsThrough | packages/planner/src/personal_pm_planner/scheduling/serial.py:174-211 | Otherwise the cap can fail: a run that begins the day before yields a fourth chunk on one day |
| Ownership.AllocateTracks | packages/planner/src/personal_pm_planner/scheduling/serial.py:63-78 | Handing a chunk's slots over keeps every slot with at most one chunk, and only slots that were free |
| Ownership.TracksJoin | packages/planner/src/personal_pm_planner/scheduling/serial.py:63-95 | Ownership facts of consecutive allocations compose |
| Conservation.FreeMinutesConserved | packages/planner/src/personal_pm_planner/scheduling/serial.py:60-95 | Minutes of free slots fall by exactly the minutes of the chunks |
| Conservation.OwnedMinutesConserved | packages/planner/src/personal_pm_planner/scheduling/serial.py:90-95 | A task's owned minutes grow by exactly the minutes of its chunks |
| SerialSchedule.AttemptTask | packages/planner/src/personal_pm_planner/scheduling/serial.py:265-307 | One turn of the loop: required minutes, earliest start, placement, and whether the task counts as fully placed |
| SerialSchedule.SerialScheduleTasks | packages/planner/src/personal_pm_planner/scheduling/serial.py:222-314 | The returned allocations, unallocated set, total and ledger are those of `Schedule` |
| SerialFacts.ScheduleForgetsOrder | packages/planner/src/personal_pm_planner/scheduling/serial.py:248-314 | Allocations, totals, unallocated set and ledger are the same for every permutation of the task list |
| SerialFacts.ScheduleFromInv | packages/planner/src/personal_pm_planner/scheduling/serial.py:250-307 | Every run of the loop keeps ownership, gate safety, accounting and the order in which tasks become fully placed |
| SerialTheorems.NothingDoubleBooked | packages/planner/src/personal_pm_planner/scheduling/serial.py:133-219 | With disjoint slots new chunks overlap neither each other, nor a preallocated interval, nor a slot that was not free; each is an abutting stretch of offered free slots |
| SerialTheorems.GatesRespected | packages/planner/src/personal_pm_planner/scheduling/serial.py:250-307 | A new chunk starts only after every allocation of every gating predecessor has ended, preallocated ones included, and all its gates are fully placed; and after its own preallocated intervals |
| SerialTheorems.CyclesGetNothing | packages/planner/src/personal_pm_planner/scheduling/serial.py:250-264 | A task on a gate cycle, or waiting on one through any chain of gates, gets no chunk and is never fully placed |
| SerialTheorems.MinutesConserved | packages/planner/src/personal_pm_planner/scheduling/serial.py:239-314 | The total is the sum over allocations, equals preallocated minutes plus what left the free slots, and owned minutes grow by exactly the new allocations of each task |
| SerialTotals.OwnedAddsUp | packages/planner/src/personal_pm_planner/scheduling/serial.py:90-95 | Without preallocation, the owned minutes of all tasks together are the total the schedule reports |
| SerialTotals.AllocationsBacked | packages/planner/src/personal_pm_planner/scheduling/serial.py:195-209 | Every new allocation names the slots it is made of: in the final ledger they belong to its task, lie within it and last exactly as long |
| ScheduleDays.NoFifthChunk | packages/planner/src/personal_pm_planner/scheduling/serial.py:174-211 | In every schedule over disjoint slots no task has more than four chunks on one day, nor more than three if nothing makes it wait |
| SerialTheorems.ReserveFacts | packages/planner/src/personal_pm_planner/scheduling/serial.py:80-88 | After reserving, no free slot overlaps a preallocated interval, and slots change in nothing but ownership |
| Reservations.ReservedExactly | packages/planner/src/personal_pm_planner/scheduling/serial.py:80-88 | A free slot goes to the task of the first preallocated interval it shares an instant with, stays as it was if there is none, and no other slot changes |
| ScheduleBounds.BeginsAsEarlyAsCanBe | packages/planner/src/personal_pm_planner/scheduling/serial.py:250-307 | The bound of a task whose gates opened is exactly the latest of its start time, the ends of everything its gates have and of what it was handed; and no stretch left free past that bound and long enough for it lies before where it begins |
| SerialOrder.EveryTaskReported | packages/planner/src/personal_pm_planner/scheduling/serial.py:250-307 | Per task: its chunks are well formed; all but the completing one last the minimum chunk, dropping the last slot would leave work, an unsplittable task gets one chunk or none; it is fully placed exactly when its gates are and its demand is covered, and it is reported unallocated exactly otherwise |
| SerialOrder.LowPriorityNeverDisplaces | packages/planner/src/personal_pm_planner/scheduling/serial.py:248-307 | Adding tasks later in key order that gate no earlier task changes no allocation, no unallocated status and no placement of the earlier ones |
| PassCapacity.BuiltOfferable | packages/planner/src/personal_pm_planner/scheduling/serial.py:46-58 | Built slots may be offered to the scheduler, and disjoint windows offer disjoint slots |
| PassCapacity.DailyCapacityHolds | packages/planner/src/personal_pm_planner/availability/slots.py:122-151 | In any pass with any preallocation, slot minutes owned on a local day are at most the whole-slot floor of the factor times that day's unreserved minutes |
| PlanningPasses.EnrichTasks | packages/planner/src/personal_pm_planner/scheduling/passes.py:70-114 | The schedulable tasks are the active ones in input order, with class, deadline, unlock count, position and durations as derived |
| PlanPriorities.EntryOf | packages/planner/src/personal_pm_planner/scheduling/passes.py:83-114 | Every unfinished task of the input is scheduled with its own needs, cut rule, start time and deadline, its latest start and unlock count from the analysis, its first place in the prior plan, and the class its deadline, its milestone and the provisional pass give it |
| PlanPriorities.ClassesMean | packages/planner/src/personal_pm_planner/scheduling/priority.py:61-80 | The first class is for passed deadlines alone; the second for buffers and required work; the fourth and fifth for routine and for exploratory or optional work besides these |
| PlanPriorities.TriedInOrder | packages/planner/src/personal_pm_planner/scheduling/passes.py:83-114 | Of two tasks of the input the one tried first is decided by class, latest start, deadline, waiting tasks, external commitment, prior place and id |
| PlanPriorities.OverdueGoesFirst | packages/planner/src/personal_pm_planner/scheduling/passes.py:51-56 | An overdue task is tried before every task that is neither overdue nor promoted |
| PlanPriorities.FinalTasksAre | packages/planner/src/personal_pm_planner/scheduling/passes.py:200-237 | The final tasks are these entries and the milestones' buffers, each buffer due by the limit in one piece, protected and never promoted |
| PlanOutcomes.StartTimeHolds | packages/planner/src/personal_pm_planner/scheduling/passes.py:111 | No chunk of a task of the input begins a whole slot or more before its start time |
| PlanOutcomes.EveryTaskWellCut | packages/planner/src/personal_pm_planner/scheduling/passes.py:107-111 | In every final pass an unsplittable task gets one piece or none, no piece but the completing one is below the minimum chunk, nothing is placed beyond a slot more than needed, and nothing at all for a task handed enough |
| PlanOutcomes.UnplacedExactlyWhen | packages/planner/src/personal_pm_planner/scheduling/serial.py:250-307 | In the provisional and in each final pass a task is reported unplaced exactly when a task it must wait for is finished or unplaced, or what it was handed and given is less than it needs in that pass |
| PlanningPasses.CreateSyntheticBuffers | packages/planner/src/personal_pm_planner/scheduling/passes.py:127-163 | Two buffers per milestone with a limit and a positive buffer: half rounded up, and the rest if any |
| PlanningFacts.BuffersShareRequired | packages/planner/src/personal_pm_planner/scheduling/passes.py:131-162 | The two buffers share the required minutes, the review getting half rounded up; both are due by the limit in one piece |
| PlanningPasses.StartGates | packages/planner/src/personal_pm_planner/scheduling/passes.py:185-197 | The gate map, dependency by dependency |
| PlanningPasses.GatesAre | packages/planner/src/personal_pm_planner/scheduling/passes.py:185-197 | A task is gated by exactly the predecessors of its start dependencies, finished ones included, if it is active |
| PlanningPasses.PreallocatedForPass | packages/planner/src/personal_pm_planner/scheduling/passes.py:250-268 | Prior allocations sorted by start then id, numbered per task |
| PlanPriorities.HandedOver | packages/planner/src/personal_pm_planner/scheduling/passes.py:250-268 | A pass is handed the prior allocations by start and then id, each numbered by how many of its task come before |
| PlanningPasses.PromoteOnce | packages/planner/src/personal_pm_planner/scheduling/passes.py:271-302 | Exactly the required, unallocated, not yet top-class tasks are promoted, and counted |
| PlanningPasses.RunPlanningPasses | packages/planner/src/personal_pm_planner/scheduling/passes.py:200-247 | Graph analysis, provisional pass, one promotion, then base and safety passes, each over fresh slots; no plan if and only if a predecessor id is nil |
| PlanningFacts.SchedulableDistinct | packages/planner/src/personal_pm_planner/scheduling/passes.py:200-210 | Tasks and synthetic buffers together have distinct ids |
| PlanningFacts.PromotedSame | packages/planner/src/personal_pm_planner/scheduling/passes.py:271-302 | Promotion changes nothing but the class: every task keeps its id, demands and bounds |
| PlanOrder.PlanForgetsOrder | packages/planner/src/personal_pm_planner/scheduling/passes.py:200-247 | Each pass of a plan is the same for every order of the input's tasks and every order and repetition of its dependencies, the graph analysis being recomputed |
| PlanningFacts.PreallocatedHas | packages/planner/src/personal_pm_planner/scheduling/passes.py:250-268 | A pass is handed exactly the prior allocations: same task, start and end, none dropped, none invented |
| PlanningFacts.NewChunksApart | packages/planner/src/personal_pm_planner/scheduling/passes.py:225-240 | With disjoint windows the new chunks of a final pass overlap neither each other nor any preallocated interval |
| PlanningTheorems.NewChunksAvoidBusy | packages/planner/src/personal_pm_planner/availability/slots.py:103-119 | No new chunk of any pass overlaps a fixed event or a protected block, even when windows overlap |
| PlanPriorities.PlanAvoidsBusy | packages/planner/src/personal_pm_planner/scheduling/passes.py:166-178 | No new work of a final pass overlaps a fixed event or a block protected for that pass |
| PlanPriorities.PlanWithinCapacity | packages/planner/src/personal_pm_planner/scheduling/passes.py:166-178 | Every final pass keeps within each local day's share of its unreserved minutes |
| PlanningTheorems.StartsWithinOneSlot | packages/planner/src/personal_pm_planner/scheduling/serial.py:156-184 | A chunk may begin before `start_after`, but by less than one slot |
| PlanningTheorems.FinishedPredecessorBlocks | packages/planner/src/personal_pm_planner/scheduling/passes.py:185-197 | A start dependency on a finished task never opens: the successor gets nothing and is reported unallocated |
| Replanning.GroupByTask | packages/planner/src/personal_pm_planner/replanning/diff.py:47-51 | Current allocations grouped by task, buffers left out |
| Replanning.DiffFromPrior | packages/planner/src/personal_pm_planner/replanning/diff.py:42-93 | Moves, extensions and removals as judged one prior allocation at a time |
| ReplanTheorems.KeptExactly | packages/planner/src/personal_pm_planner/replanning/diff.py:60-87 | A prior allocation counts as unchanged exactly when its task has that one allocation, so a task in several chunks never does |
| ReplanTheorems.VerdictsExactly | packages/planner/src/personal_pm_planner/replanning/diff.py:60-87 | Removed exactly when nothing is left, extended exactly when the one allocation keeps its start and ends later, otherwise moved to the earliest start there is now |
| Replanning.SplitMoves | packages/planner/src/personal_pm_planner/replanning/optimize.py:160-190 | Disallowed moves become proposals, the others are applied and their cost added |
| Replanning.ProposeRemovals | packages/planner/src/personal_pm_planner/replanning/optimize.py:192-208 | A removed task with a protected allocation raises a proposal with its reason |
| Replanning.Replan | packages/planner/src/personal_pm_planner/replanning/optimize.py:135-239 | The selected plan is the fresh one, or the one built around the protected allocations when a proposal was raised; no outcome if and only if a predecessor id is nil |
| ReplanTheorems.ProposalsExactlyWhenDisturbed | packages/planner/src/personal_pm_planner/replanning/optimize.py:160-208 | Proposals are raised if and only if the plan compared with fails to reproduce some protected prior allocation |
| ReplanTheorems.ProtectedSurvives | packages/planner/src/personal_pm_planner/replanning/optimize.py:61-70 | Every pinned or freeze-window prior allocation is in the selected base pass with identical task, start and end, proposals or not |
| ReplanTheorems.AppliedMovesSpareProtected | packages/planner/src/personal_pm_planner/replanning/optimize.py:160-190 | No applied move touches a protected allocation, and each moves an allocation the prior plan had |
| ReplanTheorems.NewWorkSparesProtected | packages/planner/src/personal_pm_planner/replanning/optimize.py:231-238 | With disjoint windows no new chunk of the selected base pass overlaps a protected allocation, except the chunk that is that allocation |
| ReplanOutcomes.StayingWorkSurvives | packages/planner/src/personal_pm_planner/replanning/cost.py:49-51 | Prior work of a pinned task, or that begins within two hours from now, is in the selected base pass with the same task, start and end |
| ReplanOutcomes.NothingProposedExactlyWhen | packages/planner/src/personal_pm_planner/replanning/optimize.py:160-208 | Nothing is proposed if and only if the fresh plan gives the task of each such work that one allocation |
| ReplanOutcomes.AppliedExactlyWhenMoved | packages/planner/src/personal_pm_planner/replanning/optimize.py:160-190 | The applied moves are exactly those of other prior work the fresh plan has elsewhere, to its task's earliest start, at a cost of forty across days, ten for two hours or more, two for less |
| ReplanOutcomes.ProposedExactlyWhen | packages/planner/src/personal_pm_planner/replanning/optimize.py:160-208 | The proposals are exactly those of staying work that is moved, with the distance from where its task last was, or whose task is gone, with the pin named before the clock |
| ReplanOutcomes.StayingWorkSpared | packages/planner/src/personal_pm_planner/replanning/optimize.py:231-238 | With disjoint windows new work of the selected base pass overlaps no staying work but the chunk that is that work |
| ReplanOutcomes.SelectedAround | packages/planner/src/personal_pm_planner/replanning/optimize.py:231-238 | When anything is proposed the selected plan is built around exactly the staying work, otherwise around none |
| Risk.AllocationMinutesBefore | packages/planner/src/personal_pm_planner/risk/coverage.py:50-64 | The loop counts the minutes of the members' allocations that end by the limit |
| Risk.Cover | packages/planner/src/personal_pm_planner/risk/coverage.py:96-126 | The coverage record of one milestone |
| Risk.FreeSlackAfterPass | packages/planner/src/personal_pm_planner/risk/coverage.py:67-79 | Free minutes between now and the limit |
| Risk.CalculateRisks | packages/planner/src/personal_pm_planner/risk/classify.py:92-117 | Every milestone gets its verdict, slack being looked at only when everything required is covered |
| RiskOutcomes.VerdictExactly | packages/planner/src/personal_pm_planner/risk/classify.py:61-89 | The verdict on any milestone case by case: a cycle, an unknown deadline time, missing base work, missing safety work, missing buffers, and the slack, in this order, each with its rule |
| RiskOutcomes.UntimedIsNeverLow | packages/planner/src/personal_pm_planner/risk/classify.py:69-74 | A milestone without a deadline time is unknown, or critical for a cycle, and nothing else |
| RiskOutcomes.PlacedCounts | packages/planner/src/personal_pm_planner/risk/coverage.py:50-64 | Each allocation of a member that ends by the limit counts its minutes, and no other counts |
| RiskOutcomes.NeedCounts | packages/planner/src/personal_pm_planner/risk/coverage.py:96-101 | Each unfinished task of the milestone counts what it needs in the pass, and no other counts |
| RiskOutcomes.SlackCounts | packages/planner/src/personal_pm_planner/risk/coverage.py:67-79 | Each free slot between now and the limit counts its minutes to the slack, and no other counts |
| RiskOutcomes.SlackIs | packages/planner/src/personal_pm_planner/risk/coverage.py:67-79 | The slack is what lies free between now and the limit, and nothing without a limit |
| RiskTheorems.UniformExact | packages/planner/src/personal_pm_planner/scheduling/serial.py:166-215 | With uniform slots a task whose demand is a whole number of slots never gets more than it needs |
| RiskTheorems.LevelsMean | packages/planner/src/personal_pm_planner/risk/classify.py:75-89 | For any two passes that give nobody more than needed, the levels mean that members and buffers are placed by the deadline or not |
| RiskTheorems.CriticalMeans | packages/planner/src/personal_pm_planner/risk/classify.py:75-76 | For any passes of which the base one gives no member more than needed, critical means that some member is not placed |
| RiskTheorems.CriticalExactlyWhenBaseShort | packages/planner/src/personal_pm_planner/risk/classify.py:75-76 | With windows and the members' base minutes in whole slots, a timed milestone is critical exactly when some member does not have all its base minutes placed by the deadline |
| RiskTheorems.MediumOrLowExactlyWhenAllPlaced | packages/planner/src/personal_pm_planner/risk/classify.py:75-89 | With windows, the members' minutes and the milestone's buffers in whole slots, it is medium or low exactly when base minutes, safety minutes and both buffers are all placed by the deadline |
| RiskTheorems.LowExactlyWhenSlack | packages/planner/src/personal_pm_planner/risk/classify.py:82-89 | It is low exactly when, besides, the free minutes before the deadline reach the threshold |
| RiskTheorems.CycleMemberIsCritical | packages/planner/src/personal_pm_planner/risk/classify.py:67-68 | A milestone is critical, whatever its coverage, when a member can reach itself over the blocking edges of the input's dependencies |
| RiskTheorems.PlacedIsNeverCritical | packages/planner/src/personal_pm_planner/risk/classify.py:75-76 | Whatever the slots and demands, a timed milestone all of whose base work is placed is not critical |
| RiskOvershoot.OvershootHidesShortfall | packages/planner/src/personal_pm_planner/risk/coverage.py:50-64 | The converse needs whole slots: of two tasks that want ten and twenty minutes of one free half hour, one gets nothing placed by the planner's base pass and the milestone is still not critical |
| RiskTheorems.MilestonesShareNoMinutes | packages/planner/src/personal_pm_planner/risk/coverage.py:87-111 | The base minutes counted for all milestones together never exceed what the base pass placed |
| EventFraming.DecodeEncoded | apps/web/src/features/agent/operation-stream.ts:15-36 | Decoding a printed block gives the event back |
| EventFraming.JoinLines | apps/web/src/features/agent/operation-stream.ts:16-20 | Splitting a text into lines and joining them gives the text back |
| EventFraming.DrainFrame | apps/api/src/personal_pm_api/agent/router.py:21-26 | Frame by frame, whatever follows, the parser undoes the printer |
| EventBlocks.BlockMeans | apps/web/src/features/agent/operation-stream.ts:15-36 | A block of any lines means what its data lines, freed of leading white space and joined, parse to: a step, nothing, or an error |
| EventBlocks.ClosedBlockMeans | apps/web/src/features/agent/operation-stream.ts:46-52 | A closed block yields its step or nothing before what follows, and one that does not parse ends the stream |
| EventFraming.DrainBuffer | apps/web/src/features/agent/operation-stream.ts:46-52 | The inner loop cuts off exactly the complete frames, and stops at the first that throws |
| EventFraming.DrainAppend | apps/web/src/features/agent/operation-stream.ts:43-54 | Parsing a text in two steps yields what parsing it at once does |
| EventFraming.DecodeBody | apps/web/src/features/agent/operation-stream.ts:38-58 | The events of a chunked body are those of its joined text |
| EventFraming.ChunkingIrrelevant | apps/web/src/features/agent/operation-stream.ts:45 | Text with bare newlines reads the same however it is chunked |
| EventFraming.CrlfAcrossChunks | apps/web/src/features/agent/operation-stream.ts:45 | Replacing line ends chunk by chunk equals replacing them in the whole text if and only if no CRLF pair is split |
| EventFraming.CrlfReads | apps/web/src/features/agent/operation-stream.ts:45 | A text reads the same with carriage returns before its newlines as without |
| EventDelivery.OperationLog.Append | apps/api/src/personal_pm_api/agent/operations.py:129-152 | An append numbers the step by the log length; an unknown step is refused and changes nothing |
| EventDelivery.DecimalRead | apps/web/src/features/agent/operation-stream.ts:73-85 | The client's cursor text and the server's integer parameter undo each other |
| EventDelivery.AfterIsTail | apps/api/src/personal_pm_api/agent/router.py:40-44 | The steps beyond a cursor are the tail of the log |
| EventDelivery.CutFrames | apps/web/src/features/agent/operation-stream.ts:43-54 | A body cut after any character yields exactly the steps whose frames arrived whole, and never throws |
| EventDelivery.CutBody | apps/api/src/personal_pm_api/agent/router.py:46-54 | So does any response, in any chunks, the comment of an empty replay included |
| EventDelivery.StreamClient.Turn | apps/web/src/features/agent/operation-stream.ts:70-93 | One turn of the client moves the cursor to the last yielded step; a failing turn keeps what it yielded |
| EventDelivery.StreamClient.Stream | apps/web/src/features/agent/operation-stream.ts:64-96 | The loop over turns, until the stream is refused |
| EventDelivery.RefusalEnds | apps/web/src/features/agent/operation-stream.ts:75-92 | A refusal ends the stream with what was yielded so far, and nothing after it is read |
| EventDelivery.FailureGoesOn | apps/web/src/features/agent/operation-stream.ts:79-95 | A turn that meets no stream changes nothing, and the next one goes on |
| EventDelivery.BrokenTurnKeeps | apps/web/src/features/agent/operation-stream.ts:80-92 | A body that breaks after some frames yields their steps, moves the cursor to the last of them, and does not end the stream |
| EventDelivery.DeliveredInOrder | apps/web/src/features/agent/operation-stream.ts:64-96 | Over any run of appends, connections cut anywhere, failures and reconnects the client has yielded consecutive stored steps from its starting point: in order, none missing, none twice |
| EventDelivery.FreshClient | apps/web/src/features/agent/operation-stream.ts:64-96 | A client that starts without a cursor has always yielded a prefix of the log |
| EventDelivery.WholeBodyCatchesUp | apps/api/src/personal_pm_api/agent/router.py:39-54 | A connection that is not cut short brings the client up to date with the log it was answered from |
| OutboxWorker.OutboxStore.Enqueue | apps/api/src/personal_pm_api/execution/repository.py:19-76 | A command starts pending with a pending, unverified execution |
| OutboxWorker.OutboxStore.SettleRow | apps/worker/src/personal_pm_worker/outbox_worker.py:59-118 | What one claimed row and its execution become, for every way the call can end |
| OutboxWorker.SettledExactly | apps/worker/src/personal_pm_worker/outbox_worker.py:71-118 | A timeout leaves row and execution open; a verified reply under an id, for an execution on record, closes both under that id; anything else closes both as failed |
| OutboxWorker.OutboxStore.RunOnce | apps/worker/src/personal_pm_worker/outbox_worker.py:42-109 | The counters account for every attempt and success, settled rows are untouched, and a short batch means nothing is pending |
| OutboxWorker.OldestFirst | apps/worker/src/personal_pm_worker/outbox_worker.py:51-58 | A batch reaches a row only when no older row is pending any more |
| OutboxWorker.OneEventAndVerifiedSuccess | apps/worker/src/personal_pm_worker/outbox_worker.py:51-107 | Over any interleaving of workers, crashes, timeouts and redeliveries each key has at most one external event, no row is in two hands, and a row has succeeded exactly when its execution is verified under that event's id |
| OutboxWorker.TerminalForever | apps/api/src/personal_pm_api/execution/repository.py:42-50 | A settled row is never claimed again and neither it nor its execution ever changes |
| OutboxWorker.ClosedExactlyWhen | apps/worker/src/personal_pm_worker/outbox_worker.py:71-109 | Over any run a row ends succeeded exactly when some commit settled it with a proof, and failed exactly when some commit settled it without an executor, after an error, or with a reply that proves nothing |
| OutboxWorker.OpenUntilClosed | apps/worker/src/personal_pm_worker/outbox_worker.py:82-86 | Until then it stays pending with its execution untouched, however many calls time out, and an idle worker may claim it as soon as nobody holds it and every older pending row is held |
| OutboxWorker.TimeoutReopens | apps/worker/src/personal_pm_worker/outbox_worker.py:82-86 | A commit of a timeout counts the attempt, leaves the row pending and its execution as it was, and lets go of it |
| CommandExecutor.CalendarCommandExecutor.AddPending | apps/worker/src/personal_pm_worker/calendar/repository.py:27-32 | A new pending record for the key, as the run's other step |
| CommandExecutor.CalendarCommandExecutor.Execute | apps/worker/src/personal_pm_worker/calendar/executor.py:18-42 | Record, provider call and outcome for each case: earlier success, timeout, failed verification, success |
| CommandExecutor.ExecutedExactly | apps/worker/src/personal_pm_worker/calendar/executor.py:18-42 | Without an earlier success of its key a record succeeds only on a verified reply with an id, stays on a timeout, and fails otherwise; after one it takes that success over without a call |
| CommandExecutor.NoFalseSuccess | apps/worker/src/personal_pm_worker/calendar/executor.py:34-42 | Over any run a key has succeeded under an id only if a verified reply for it named that id |
| CommandExecutor.CalendarCommandExecutor.FindSuccessByKey | apps/worker/src/personal_pm_worker/calendar/repository.py:40-44 | The first succeeded record of the key, or none |
| CommandExecutor.OneIdNoCallAfterSuccess | apps/worker/src/personal_pm_worker/calendar/executor.py:18-42 | Over any run of deliveries a key keeps one external id, and after a success the provider is never called for it again |
| RateLimiting.RateLimiter.Allow | apps/api/src/personal_pm_api/security/rate_limit.py:36-54 | A refused call changes nothing; an allowed one counts itself in the current window and touches no other key |
| RateLimiting.KeysIndependent | apps/api/src/personal_pm_api/security/rate_limit.py:46-53 | Calls of one actor and bucket are judged as if they were the only ones |
| RateLimiting.EveryRefusalFull | apps/api/src/personal_pm_api/security/rate_limit.py:36-54 | A call is refused only when the maximum of the same actor's calls was allowed within the window that ends with it |
| RateLimiting.EveryKeyBounded | apps/api/src/personal_pm_api/security/rate_limit.py:29-54 | Under a clock that never goes back, any half-open span of one window sees at most twice the maximum less one allowed calls of a key, and at most the maximum when the window is one tick |
| RateLimiting.SpanBoundReached | apps/api/src/personal_pm_api/security/rate_limit.py:48-54 | For every maximum and every window from one tick on, a run of calls reaches that bound |
| Approvals.ApprovalService.Approve | apps/api/src/personal_pm_api/approvals/service.py:48-129 | Every outcome of an approval and the state it leaves, in the order of the checks |
| Approvals.ApprovalService.Reject | apps/api/src/personal_pm_api/approvals/service.py:131-173 | Every outcome of a rejection and the state it leaves |
| Approvals.ApprovalService.Undo | apps/api/src/personal_pm_api/approvals/service.py:175-201 | Every outcome of an undo and the state it leaves |
| ApprovalOutcomes.RejectExactly | apps/api/src/personal_pm_api/approvals/service.py:151-173 | A rejection is done exactly when the workspace has the proposal, pending, at the expected version and with its hash intact; it is then rejected, one version higher, with one record more; otherwise nothing changes and the reason is named |
| ApprovalOutcomes.RejectedNeverExecutes | apps/api/src/personal_pm_api/approvals/service.py:151-173 | After a rejection no run of actions ever lets an approval of that proposal execute |
| ApprovalOutcomes.AcceptedExactly | apps/api/src/personal_pm_api/approvals/service.py:216-243 | A payload is accepted exactly when it gives one task at one version one title that is not blank and changes nothing else |
| ApprovalOutcomes.ApproveOpen | apps/api/src/personal_pm_api/approvals/service.py:73-129 | An approval of an open proposal executes and records it when its task is there at that version, supersedes it when it is not, and changes nothing when the payload is invalid |
| ApprovalOutcomes.ApproveClosed | apps/api/src/personal_pm_api/approvals/service.py:48-72 | An approval of any other proposal changes nothing and names the reason |
| ApprovalOutcomes.UndoExactly | apps/api/src/personal_pm_api/approvals/service.py:175-201 | An undo writes the recorded title exactly when the proposal is executed, intact, recorded one and its task is there, and otherwise changes nothing |
| Approvals.AtMostOneApproval | apps/api/src/personal_pm_api/approvals/service.py:107-113 | Over any run a proposal has at most one approval record, one exactly if it was decided, and its version counts its moves |
| Approvals.RunBecomes | apps/api/src/personal_pm_api/approvals/service.py:203-209 | Over any run, payloads altered in the store included, a proposal moves only from pending to executed, rejected or superseded and from executed to undone, its version rising by one per move and its hash staying |
| Approvals.OneExecutionPerVersion | apps/api/src/personal_pm_api/approvals/service.py:73-102 | However requests, filings and version-raising edits mix, a later execution on a task is bound to a higher version of it: of all proposals bound to one version of a task at most one is ever executed |
| Approvals.ExecutesWhatWasHashed | apps/api/src/personal_pm_api/approvals/service.py:211-213 | With a collision-free hash, after any run, the stored payload altered included, what is executed is the payload that was hashed, on the task and version it names |
| Approvals.UndoRestoresExactlyWhenRecorded | apps/api/src/personal_pm_api/approvals/service.py:187-199 | Whatever happens between an approval and its undo, the undo restores the title the approval replaced if and only if the payload recorded that title |
| Approvals.UndoOverwritesLaterEdits | apps/api/src/personal_pm_api/approvals/service.py:192-199 | Over any number of edits made in between, an undo stays possible and writes the same title: the target version is not checked |

## Left out

- Replan metrics and candidate choice (replanning/optimize.py:83-132): reported beside the plan, they do not decide
  which plan is selected; the before plan is computed only for them.
- GraphAnalysis.BuildGraphAnalysis: does not model external-dependency risks and the demand total (graph/build.py:74-79,
  95-110), which the passes and the risk levels do not read.
- Replanning.Replan: does not model the before plan and the before and after metrics of the outcome.
- DayCapExact.FourthExactlyWhen: needs disjoint slots, as `NothingDoubleBooked` does; overlapping windows are left out.
- RiskTheorems.CriticalExactlyWhenBaseShort: needs windows and the members' base minutes in whole slots and nothing
  preallocated; without that only one direction holds (`PlacedIsNeverCritical`, `OvershootHidesShortfall`).
- RiskTheorems.ThresholdMeans: exact integers where the source takes the ceiling of a floating-point product, so a
  threshold the source's rounding error raises by one slot is not modelled.
- RiskTheorems.LowExactlyWhenSlack: compares with that exact threshold.
- UniqueSlots.FloorBounds: about exact fractions; `NoiseGuardExact` ties them to the guarded computation for divisors
  up to a million and errors up to a ten-millionth.
- Risk.CalculateRisks: does not model rounding of the reported ratios, nor the grouping of tasks into a dictionary
  before the loop; members are selected by the milestone they name.
- PlanningPasses.CreateSyntheticBuffers: buffers come in milestone order rather than in a dictionary, which is the same
  for distinct milestone ids; the derivation of ids by hashing is a parameter.
- SerialTheorems.NothingDoubleBooked: needs disjoint windows; overlapping windows are tiled twice and can be booked
  twice.
- EventDelivery.DeliveredInOrder: one appender at a time, since a step is numbered by the current log length; a
  starting cursor is absent or a decimal number.
- OutboxWorker.OneEventAndVerifiedSuccess: rests on a provider that deduplicates by key and verifies truthfully.
- Fairness of the outbox: a row that keeps timing out stays the oldest pending row and is claimed first again.
- Approvals.ApprovalService.Approve: does not model audit entries and resolution times; a title the database refuses is
  modelled for undo only.
- Focus-block proposals, which move through other routes, the shared Redis limiter, the today view, time zones,
  authentication, migrations and web pages.
