/** An input of uneven demands whose missing work the risk levels do not see. */
module RiskOvershoot {
  import opened Domain
  import opened Sorting
  import opened Priority
  import opened Ledger
  import opened Placement
  import opened SerialSchedule
  import opened PassCapacity
  import opened PlanningInput
  import opened GraphAnalysis
  import opened PlanningPasses
  import opened PlanningFacts
  import opened Risk
  import opened RiskTheorems
  import A = AvailabilitySlots
  import D = DailyCapacity
  import U = UniqueSlots
  import R = Reachability
  import C = CycleDetection

  function TaskOf(id: TaskId, minutes: int): TaskSnapshot {
    TaskSnapshot(id, Some(7), Ready, None, None, minutes, minutes, minutes, true, 10, None)
  }

  const TEN: TaskSnapshot := TaskOf(1, 10)
  const TWENTY: TaskSnapshot := TaskOf(2, 20)

  /** A goal with a deadline time in an hour and no buffer. */
  const GOAL: Milestone := Milestone(7, SoftGoal, 0, Some(60), false)

  /** One hour in two slots, of which the daily reserve keeps the second. */
  const ONE_HOUR: A.Context := A.Context([A.Interval(0, 60)], [], [], 30, 4, 5, (_: Instant) => 0)

  function KindRank(k: Kind): nat {
    match k
    case Task => 0
    case ReviewBuffer => 1
    case SubmissionBuffer => 2
  }

  /** Tasks of ten and of twenty minutes before the same deadline, with half an hour to plan. */
  const TWO_TASKS: PlannerInput := PlannerInput(
    0, 60, ONE_HOUR, [TEN, TWENTY], [GOAL], [], {}, {}, None, (m: MilestoneId, k: Kind) => 3 * m + KindRank(k) + 3)

  lemma TwoTasksOk()
    ensures InputOk(TWO_TASKS) && Timed(TWO_TASKS, GOAL)
  {
    var x := TWO_TASKS;
    forall m, n: MilestoneId, k, l: Kind | x.bufferId(m, k) == x.bufferId(n, l)
      ensures m == n && k == l
    {
    }
    assert C.Endpoints(x.dependencies) == {};
  }

  // ---------------------------------------------------------------- the slots

  const FIRST: SlotLike := SlotLike(1, 0, 30, true)
  const RESERVE: SlotLike := SlotLike(2, 30, 60, false)

  lemma HourTiles()
    ensures A.TileAll([A.Interval(0, 60)], 30, 0) == [A.Slot(1, 0, 30, A.Free), A.Slot(2, 30, 60, A.Free)]
  {
    assert A.Tiles(60, 60, 30, 2) == [];
    assert A.Tiles(30, 60, 30, 1) == [A.Slot(2, 30, 60, A.Free)];
    assert A.Tiles(0, 60, 30, 0) == [A.Slot(1, 0, 30, A.Free)] + A.Tiles(30, 60, 30, 1);
    assert [A.Interval(0, 60)][1..] == [];
  }

  lemma HourBusy()
    ensures U.Busy(ONE_HOUR) == [A.Slot(1, 0, 30, A.Free), A.Slot(2, 30, 60, A.Free)]
  {
    HourTiles();
    var tiles := A.TileAll(ONE_HOUR.windows, 30, 0);
    forall i | 0 <= i < |tiles|
      ensures U.BusyTile(ONE_HOUR, tiles[i]) == tiles[i]
    {
    }
  }

  lemma HourBuilt()
    ensures FreshSlots(TWO_TASKS, []) == [FIRST, RESERVE]
  {
    var x := ONE_HOUR;
    assert x.(focusBlocks := []) == x;
    HourBusy();
    var c, slots := U.CutOf(x), U.Busy(x);
    assert D.RawMinutes(c, slots, 0, 0) == 0;
    assert D.RawMinutes(c, slots, 0, 1) == 30;
    assert D.RawMinutes(c, slots, 0, 2) == 60;
    assert D.Budget(c, slots, 0) == 30;
    assert D.Left(c, slots, 0, 30, 0) == 30;
    assert D.Left(c, slots, 0, 30, 1) == 0;
    assert U.Built(x) == [A.Slot(1, 0, 30, A.Free), A.Slot(2, 30, 60, A.Buffer)];
  }

  const OPEN: LedgerSlot := LedgerSlot(1, 0, 30, true, None)
  const SHUT: LedgerSlot := LedgerSlot(2, 30, 60, false, None)

  lemma HourOpened()
    ensures Opened([FIRST, RESERVE]) == [OPEN, SHUT]
  {
    assert [FIRST, RESERVE][1..] == [RESERVE];
    assert [RESERVE][1..] == [];
    assert Sort(StartLeq, [RESERVE]) == [RESERVE];
    assert Sort(StartLeq, [FIRST, RESERVE]) == [FIRST, RESERVE];
  }

  // ---------------------------------------------------------------- the schedule

  /** A splittable task of ten to thirty minutes that nothing holds back. */
  ghost predicate Small(r: Request, t: SchedulableTask) {
    && t.splittable && t.minChunk == 10 && t.startAfter == None && t.kind == Kind.Task
    && 10 <= Required(r, t) <= 30 && Required(r, t) == Duration(t, r.pass)
  }

  function ChunkFor(t: SchedulableTask): Chunk {
    Chunk(t.id, t.kind, 0, [OPEN])
  }

  function Given(t: SchedulableTask): seq<LedgerSlot> {
    [OPEN.(free := false, owner := Some(t.id)), SHUT]
  }

  lemma OneRun()
    ensures Candidates([OPEN, SHUT], None) == [[OPEN]]
  {
    assert [OPEN, SHUT][1..] == [SHUT] && [SHUT][1..] == [];
    assert FreeOf([SHUT]) == [];
    assert FreeOf([OPEN, SHUT]) == [OPEN];
    assert [OPEN][1..] == [];
    assert RunsFrom([OPEN], []) == [[OPEN]];
    assert Runs([OPEN]) == [[OPEN]];
    assert [[OPEN]][1..] == [];
    assert Reaching([[OPEN]], None) == [[OPEN]] + Reaching([], None);
  }

  /** The first task takes the slot, however little of it it needs. */
  lemma FirstTakesSlot(t: SchedulableTask, required: int)
    requires t.splittable && t.minChunk == 10 && 10 <= required <= 30
    ensures var p := Place(Begin([OPEN, SHUT], [], required), t, None);
      p.chunks == [ChunkFor(t)] && p.slots == Given(t)
  {
    var p := Begin([OPEN, SHUT], [], required);
    OneRun();
    assert [OPEN][1..] == [];
    assert Usable([OPEN], 0) == [OPEN];
    assert Minutes([OPEN]) == 30;
    assert IdsOf([OPEN]) == [1];
    var q := AddChunk(p, ChunkFor(t));
    assert TryRun(p, t, None, [OPEN]) == q;
    assert [[OPEN]][1..] == [];
    assert Sweep(p, t, None, [[OPEN]]) == q;
    assert q.slots == Given(t);
  }

  lemma NothingLeft(t: SchedulableTask, u: SchedulableTask, required: int)
    requires required > 0
    ensures Place(Begin(Given(t), [], required), u, None) == Begin(Given(t), [], required)
  {
    var s := Given(t);
    assert s[1..] == [SHUT] && [SHUT][1..] == [];
    assert FreeOf([SHUT]) == [];
    assert FreeOf(s) == [];
    assert Candidates(s, None) == [];
  }

  /** Of two tasks, the one tried first gets the slot and the other nothing. */
  lemma OneGetsIt(r: Request, t: SchedulableTask, u: SchedulableTask)
    requires r.gates == map[] && r.prior == [] && Small(r, t) && Small(r, u)
    ensures ScheduleFrom(r, Progress([OPEN, SHUT], [], {}, [], map[]), [t, u]).chunks == [ChunkFor(t)]
  {
    var pr := Progress([OPEN, SHUT], [], {}, [], map[]);
    FirstTakesSlot(t, Required(r, t));
    FirstAttempt(r, t);
    var next := Attempt(r, pr, t);
    assert [t, u][..0] + [t, u][1..] == [u];
    SecondAttempt(r, next, t, u);
    assert [u][..0] + [u][1..] == [];
    assert ScheduleFrom(r, next, [u]) == ScheduleFrom(r, Attempt(r, next, u), []);
  }

  lemma NoGate(r: Request, pr: Progress, t: SchedulableTask)
    requires r.gates == map[] && r.prior == []
    ensures EarliestStart(r, pr, t) == None && IsReady(r, pr.fully, t)
  {
    assert SortedIds({}) == [];
  }

  lemma FirstAttempt(r: Request, t: SchedulableTask)
    requires r.gates == map[] && r.prior == [] && Small(r, t)
    ensures var q := Attempt(r, Progress([OPEN, SHUT], [], {}, [], map[]), t);
      q.slots == Given(t) && q.chunks == [ChunkFor(t)]
  {
    var pr := Progress([OPEN, SHUT], [], {}, [], map[]);
    NoGate(r, pr, t);
    FirstTakesSlot(t, Required(r, t));
    assert [] + [ChunkFor(t)] == [ChunkFor(t)];
  }

  lemma SecondAttempt(r: Request, pr: Progress, t: SchedulableTask, u: SchedulableTask)
    requires r.gates == map[] && r.prior == [] && Small(r, u) && pr.slots == Given(t) && pr.chunks == [ChunkFor(t)]
    ensures IsReady(r, pr.fully, u) && Attempt(r, pr, u).chunks == [ChunkFor(t)]
  {
    NoGate(r, pr, u);
    NothingLeft(t, u, Required(r, u));
    assert [ChunkFor(t)] + [] == [ChunkFor(t)];
  }

  // ---------------------------------------------------------------- the plan

  lemma TwoSchedulable()
    ensures Schedulable(TWO_TASKS) == [Enriched(TWO_TASKS, TEN), Enriched(TWO_TASKS, TWENTY)]
  {
    var x := TWO_TASKS;
    ActivePair(x, TEN, TWENTY);
    assert x.milestones[1..] == [];
    assert AllBuffers(x, x.milestones) == [];
  }

  lemma ActivePair(x: PlannerInput, a: TaskSnapshot, b: TaskSnapshot)
    requires !IsFinished(a.status) && !IsFinished(b.status)
    ensures EnrichedAll(x, [a, b]) == [Enriched(x, a), Enriched(x, b)]
  {
    assert [a, b][1..] == [b] && [b][1..] == [];
    assert EnrichedAll(x, [b]) == [Enriched(x, b)];
  }

  /** A soft goal's tasks are not promoted. */
  lemma NobodyPromoted(unallocated: set<TaskId>)
    ensures PromotedAll(TWO_TASKS, unallocated, Schedulable(TWO_TASKS)) == Schedulable(TWO_TASKS)
  {
    TwoSchedulable();
    NeitherRequired();
  }

  lemma NeitherRequired()
    ensures TypeOf(TWO_TASKS.milestones, MilestoneOf(TWO_TASKS.tasks, 1)) == SoftGoal
    ensures TypeOf(TWO_TASKS.milestones, MilestoneOf(TWO_TASKS.tasks, 2)) == SoftGoal
  {
    assert TWO_TASKS.tasks[..1] == [TEN] && [TEN][..0] == [];
    assert MilestoneOf([TEN], 1) == Some(7);
  }

  lemma RequestPlain()
    ensures RequestFor(TWO_TASKS, [], BasePass) == Request(BasePass, map[], [])
  {
  }

  lemma EnrichedSmall(minutes: int, id: TaskId)
    requires 10 <= minutes <= 30
    ensures Small(Request(BasePass, map[], []), Enriched(TWO_TASKS, TaskOf(id, minutes)))
  {
  }

  /** What the base pass schedules, in either order. */
  lemma PassIs(first: SchedulableTask, second: SchedulableTask)
    requires Sort(KeyLeq, Schedulable(TWO_TASKS)) == [first, second]
    requires Small(Request(BasePass, map[], []), first) && Small(Request(BasePass, map[], []), second)
    ensures FinalPass(TWO_TASKS, [], [], BasePass).chunks == [ChunkFor(first)]
  {
    var x := TWO_TASKS;
    RequestPlain();
    NobodyPromoted(Provisional(x, [], []).unallocated);
    HourBuilt();
    HourOpened();
    OneGetsIt(Request(BasePass, map[], []), first, second);
  }

  /** The base pass gives the slot to one of the two tasks. */
  lemma OneAllocation() returns (t: TaskId)
    ensures t == 1 || t == 2
    ensures Result(TWO_TASKS, BasePass).allocations == [TaskAllocation(t, BasePass, 0, 30, 0, Kind.Task, [1])]
  {
    var a, b := Enriched(TWO_TASKS, TEN), Enriched(TWO_TASKS, TWENTY);
    TwoSchedulable();
    EnrichedSmall(10, 1);
    EnrichedSmall(20, 2);
    EitherOrder(a, b);
    var first, second := if KeyLeq(a, b) then a else b, if KeyLeq(a, b) then b else a;
    PassIs(first, second);
    ResultAllocations(TWO_TASKS, BasePass);
    ChunkReported(first);
    t := first.id;
  }

  lemma ChunkReported(t: SchedulableTask)
    requires t.kind.Task?
    ensures AllocationsOf([ChunkFor(t)], BasePass) == [TaskAllocation(t.id, BasePass, 0, 30, 0, Kind.Task, [1])]
  {
    assert IdsOf([OPEN]) == [1];
  }

  lemma EitherOrder(a: SchedulableTask, b: SchedulableTask)
    ensures Sort(KeyLeq, [a, b]) == if KeyLeq(a, b) then [a, b] else [b, a]
  {
    assert [a, b][1..] == [b] && [b][1..] == [];
    assert Insert(KeyLeq, b, []) == [b];
    assert Sort(KeyLeq, [b]) == Insert(KeyLeq, b, Sort(KeyLeq, []));
    assert Sort(KeyLeq, [a, b]) == Insert(KeyLeq, a, [b]);
    assert Insert(KeyLeq, a, []) == [a];
  }

  // ---------------------------------------------------------------- the verdict

  /** Half an hour given to either task is counted as the half hour both need. */
  lemma SumLooksCovered(base: ScheduleResult, safety: ScheduleResult, t: TaskId)
    requires t == 1 || t == 2
    requires base.allocations == [TaskAllocation(t, BasePass, 0, 30, 0, Kind.Task, [1])]
    ensures !BaseShort(CoverageOf(TWO_TASKS, base, safety, GOAL))
    ensures MinutesBefore(base.allocations, {3 - t}, GOAL.limit) == 0
  {
    var x := TWO_TASKS;
    var wants := MemberWants(x.tasks, GOAL, BasePass);
    assert x.tasks[1..] == [TWENTY] && [TWENTY][1..] == [];
    assert MemberWants([TWENTY], GOAL, BasePass) == [Want(2, 20)] + MemberWants([], GOAL, BasePass);
    assert wants == [Want(1, 10), Want(2, 20)];
    assert wants[1..] == [Want(2, 20)] && wants[1..][1..] == [];
    assert SumWants([Want(2, 20)]) == 20 + SumWants([]);
    assert Want(1, 10) in wants && Want(2, 20) in wants;
    assert 1 in WantIds(wants) && 2 in WantIds(wants);
    assert base.allocations[1..] == [];
    assert MinutesBefore(base.allocations, WantIds(wants), GOAL.limit) == 30 + MinutesBefore([], WantIds(wants), GOAL.limit);
  }

  /**
   Without whole slots the critical level misses missing work: one of the two tasks has nothing placed, but the slot
   the other overshoots makes up for it in the sum.
   */
  lemma OvershootHidesShortfall()
    ensures InputOk(TWO_TASKS) && Timed(TWO_TASKS, GOAL)
    ensures !MembersPlaced(TWO_TASKS, GOAL, BasePass, Result(TWO_TASKS, BasePass).allocations)
    ensures !Level(TWO_TASKS, GOAL).Critical?
  {
    var x := TWO_TASKS;
    TwoTasksOk();
    var t := OneAllocation();
    var base, safety := Result(x, BasePass), Result(x, SafetyPass);
    SumLooksCovered(base, safety, t);
    AssessmentDecides(x, base, safety, GOAL);
    var short := if t == 1 then TWENTY else TEN;
    assert short in x.tasks && IsMember(short, GOAL) && short.id == 3 - t;
  }
}
