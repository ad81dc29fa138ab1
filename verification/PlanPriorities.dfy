/** Which task of the input goes before which, and what the plan's buffers and slots are, in the input's own terms. */
module PlanPriorities {
  import opened Domain
  import opened Sorting
  import opened Priority
  import opened Ledger
  import opened Placement
  import opened Ownership
  import opened Conservation
  import opened PlacementFacts
  import opened SerialSchedule
  import opened SerialFacts
  import opened SerialTheorems
  import opened PassCapacity
  import opened PlanningInput
  import opened GraphAnalysis
  import opened PlanningPasses
  import opened PlanningFacts
  import opened PlanningTheorems
  import opened TimingTheorems
  import opened PlanOutcomes
  import A = AvailabilitySlots
  import D = DailyCapacity
  import U = UniqueSlots

  // ---------------------------------------------------------------- classes

  ghost predicate Overdue(x: PlannerInput, t: TaskSnapshot) {
    t.deadline.Some? && t.deadline.value <= x.now
  }

  /** The task belongs to a milestone with a hard deadline or an external commitment. */
  ghost predicate IsRequired(x: PlannerInput, t: TaskSnapshot) {
    exists m :: m in x.milestones && t.milestone == Some(m.id) &&
      (m.deadlineType == HardDeadline || m.deadlineType == ExternalCommitment)
  }

  /** The class of a task, given which tasks the provisional pass left unplaced. */
  ghost function ClassFor(x: PlannerInput, unplaced: set<TaskId>, t: TaskSnapshot): PriorityClass {
    if Overdue(x, t) || (IsRequired(x, t) && t.id in unplaced) then P0
    else if IsRequired(x, t) then P1
    else P2
  }

  /** What each class is for; nothing else decides it. */
  lemma ClassesMean(passed: bool, kind: DeadlineType, importance: Importance, buffer: bool, routine: bool,
                    exploration: bool)
    ensures var class' := InitialClass(passed, kind, importance, buffer, routine, exploration);
      var second := buffer || kind == HardDeadline || kind == ExternalCommitment;
      && (class' == P0 <==> passed)
      && (class' == P1 <==> !passed && second)
      && (class' == P3 <==> !passed && !second && routine)
      && (class' == P4 <==> !passed && !second && !routine && (exploration || importance == Optional || importance == OnHold))
  {
  }

  lemma {:induction false} TypeOfMilestone(milestones: seq<Milestone>, m: Milestone)
    requires MilestonesDistinct(milestones) && m in milestones
    ensures TypeOf(milestones, Some(m.id)) == m.deadlineType
    decreases |milestones|
  {
    var n := |milestones| - 1;
    assert milestones == milestones[..n] + [milestones[n]];
    OneMilestone(milestones, milestones[n]);
    if milestones[n] != m {
      TypeOfMilestone(milestones[..n], m);
    }
  }

  lemma {:induction false} TypeOfNone(milestones: seq<Milestone>, id: Option<MilestoneId>)
    requires forall m :: m in milestones ==> id != Some(m.id)
    ensures TypeOf(milestones, id) == SoftGoal
    decreases |milestones|
  {
    if milestones != [] && id.Some? {
      var n := |milestones| - 1;
      assert milestones[n] in milestones;
      TypeOfNone(milestones[..n], id);
    }
  }

  lemma RequiredIsType(x: PlannerInput, t: TaskSnapshot)
    requires MilestonesDistinct(x.milestones)
    ensures var kind := TypeOf(x.milestones, t.milestone);
      IsRequired(x, t) <==> kind == HardDeadline || kind == ExternalCommitment
  {
    if m :| m in x.milestones && t.milestone == Some(m.id) {
      TypeOfMilestone(x.milestones, m);
    } else {
      TypeOfNone(x.milestones, t.milestone);
    }
  }

  lemma {:induction false} MilestoneIs(tasks: seq<TaskSnapshot>, t: TaskSnapshot)
    requires TasksDistinct(tasks) && t in tasks
    ensures MilestoneOf(tasks, t.id) == t.milestone
    decreases |tasks|
  {
    var n := |tasks| - 1;
    assert tasks == tasks[..n] + [tasks[n]];
    SameTask(tasks, t);
    if tasks[n] != t {
      MilestoneIs(tasks[..n], t);
    }
  }

  // ---------------------------------------------------------------- what the scheduler is told of a task

  /** Where the prior plan first has the task. */
  ghost predicate FirstAt(x: PlannerInput, t: TaskId, n: nat) {
    && x.prior.Some? && n < |x.prior.value| && x.prior.value[n].task == t
    && forall j :: 0 <= j < n ==> x.prior.value[j].task != t
  }

  lemma {:induction false} PositionIs(prior: seq<PriorAllocation>, t: TaskId)
    ensures PriorPosition(prior, t).None? ==> forall j :: 0 <= j < |prior| ==> prior[j].task != t
    ensures PriorPosition(prior, t).Some? ==>
      var n := PriorPosition(prior, t).value;
      n < |prior| && prior[n].task == t && forall j :: 0 <= j < n ==> prior[j].task != t
    decreases |prior|
  {
    if prior != [] {
      PositionIs(prior[1..], t);
      assert forall j :: 0 < j < |prior| ==> prior[j] == prior[1..][j - 1];
    }
  }

  /** `e` is the task's entry among the final tasks: its work, its class, and all the scheduler orders it by. */
  ghost predicate IsEntry(x: PlannerInput, unplaced: set<TaskId>, t: TaskSnapshot, e: SchedulableTask) {
    && IsWork(t, e)
    && e.priorityClass == ClassFor(x, unplaced, t)
    && t.id in AnalysisOf(x).mustStartBy && e.mustStartBy == Some(LatestStart(x, t.id))
    && e.effectiveDeadline == t.deadline
    && e.unlockCount == |WaitFor(x, t.id)|
    && (e.externalCommitment <==> t.id in x.externallyAffected)
    && e.importance == Normal && e.switchPenalty == 1 && e.createdAt == x.now
    && (e.priorPosition == None ==> forall n :: !FirstAt(x, t.id, n))
    && (e.priorPosition != None ==> e.priorPosition.value >= 0 && FirstAt(x, t.id, e.priorPosition.value))
  }

  lemma EnrichedEntry(x: PlannerInput, unplaced: set<TaskId>, t: TaskSnapshot)
    requires InputOk(x) && OfTheInput(x, t)
    ensures IsEntry(x, unplaced, t, Promoted(x, unplaced, Enriched(x, t)))
  {
    ClassIs(x, unplaced, t);
    StartsAre(x, t);
    UnlocksCounted(x, t);
    PositionFirst(x, t);
  }

  lemma ClassIs(x: PlannerInput, unplaced: set<TaskId>, t: TaskSnapshot)
    requires InputOk(x) && OfTheInput(x, t)
    ensures Promoted(x, unplaced, Enriched(x, t)).priorityClass == ClassFor(x, unplaced, t)
  {
    RequiredIsType(x, t);
    MilestoneIs(x.tasks, t);
  }

  lemma PositionFirst(x: PlannerInput, t: TaskSnapshot)
    ensures var p := PriorPosition(PriorOrNone(x), t.id);
      if p == None then forall n :: !FirstAt(x, t.id, n) else p.value >= 0 && FirstAt(x, t.id, p.value)
  {
    PositionIs(PriorOrNone(x), t.id);
  }

  /** Every unfinished task has its entry among the final tasks. */
  lemma EntryOf(x: PlannerInput, extra: seq<A.Interval>, pre: seq<PriorAllocation>, t: TaskSnapshot)
    returns (e: SchedulableTask)
    requires InputOk(x) && OfTheInput(x, t)
    ensures e in FinalTasks(x, extra, pre) && IsEntry(x, Provisional(x, extra, pre).unallocated, t, e)
  {
    var unplaced := Provisional(x, extra, pre).unallocated;
    e := Promoted(x, unplaced, Enriched(x, t));
    ScheduledWork(x, t);
    SchedulableDistinct(x);
    PromotedSame(x, unplaced, Schedulable(x));
    EnrichedEntry(x, unplaced, t);
  }

  // ---------------------------------------------------------------- who goes first

  /** All instants and positions of the input are below the sentinels that stand for none. */
  ghost predicate InRange(x: PlannerInput) {
    && x.horizon < DATETIME_MAX
    && (x.prior.Some? ==> |x.prior.value| < NO_POSITION)
    && forall t :: t in x.tasks ==> t.safetyMinutes >= 0 && (t.deadline.Some? ==> t.deadline.value < DATETIME_MAX)
  }

  lemma EntryRepresentable(x: PlannerInput, unplaced: set<TaskId>, t: TaskSnapshot, e: SchedulableTask)
    requires InputOk(x) && InRange(x) && OfTheInput(x, t) && IsEntry(x, unplaced, t, e)
    ensures Representable(e)
  {
    OwnLimitsHold(x, t, x.horizon);
  }

  /** The place of a task in the prior plan. */
  ghost function PlaceBefore(x: PlannerInput, t: TaskId): Option<nat> {
    PriorPosition(PriorOrNone(x), t)
  }

  /**
   What decides between two tasks of the input: the class; then the earlier latest start, the earlier deadline, the
   more waiting tasks, an external commitment, the earlier place in the prior plan, and at last the smaller id.
   */
  ghost predicate GoesFirst(x: PlannerInput, unplaced: set<TaskId>, a: TaskSnapshot, b: TaskSnapshot)
    requires a.id in AnalysisOf(x).mustStartBy && b.id in AnalysisOf(x).mustStartBy
  {
    if ClassFor(x, unplaced, a) != ClassFor(x, unplaced, b)
    then MoreUrgent(ClassFor(x, unplaced, a), ClassFor(x, unplaced, b))
    else if LatestStart(x, a.id) != LatestStart(x, b.id) then LatestStart(x, a.id) < LatestStart(x, b.id)
    else if a.deadline != b.deadline then Sooner(a.deadline, b.deadline)
    else if |WaitFor(x, a.id)| != |WaitFor(x, b.id)| then |WaitFor(x, a.id)| > |WaitFor(x, b.id)|
    else if (a.id in x.externallyAffected) != (b.id in x.externallyAffected) then a.id in x.externallyAffected
    else if PlaceBefore(x, a.id) != PlaceBefore(x, b.id) then Sooner(PlaceBefore(x, a.id), PlaceBefore(x, b.id))
    else a.id < b.id
  }

  /** An entry's position is the task's place in the prior plan. */
  lemma SamePosition(x: PlannerInput, unplaced: set<TaskId>, t: TaskSnapshot, e: SchedulableTask)
    requires IsEntry(x, unplaced, t, e)
    ensures e.priorPosition == PlaceBefore(x, t.id)
  {
    PositionIs(PriorOrNone(x), t.id);
    var p := PlaceBefore(x, t.id);
    if e.priorPosition.Some? {
      var n := e.priorPosition.value;
      assert FirstAt(x, t.id, n);
      assert PriorOrNone(x)[n].task == t.id;
    } else if p.Some? {
      assert FirstAt(x, t.id, p.value);
    }
  }

  /** The entries of two tasks are tried in the order the input decides. */
  lemma TriedInOrder(x: PlannerInput, unplaced: set<TaskId>, a: TaskSnapshot, b: TaskSnapshot, e: SchedulableTask,
                     f: SchedulableTask)
    requires InputOk(x) && InRange(x) && OfTheInput(x, a) && OfTheInput(x, b) && a.id != b.id
    requires IsEntry(x, unplaced, a, e) && IsEntry(x, unplaced, b, f)
    ensures KeyLeq(e, f) && !KeyLeq(f, e) <==> GoesFirst(x, unplaced, a, b)
  {
    EntryRepresentable(x, unplaced, a, e);
    EntryRepresentable(x, unplaced, b, f);
    SamePosition(x, unplaced, a, e);
    SamePosition(x, unplaced, b, f);
    KeyOrderIs(e, f);
    SameOrder(x, unplaced, a, b, e, f);
  }

  lemma SameOrder(x: PlannerInput, unplaced: set<TaskId>, a: TaskSnapshot, b: TaskSnapshot, e: SchedulableTask,
                  f: SchedulableTask)
    requires IsEntry(x, unplaced, a, e) && IsEntry(x, unplaced, b, f)
    requires e.priorPosition == PlaceBefore(x, a.id) && f.priorPosition == PlaceBefore(x, b.id)
    ensures ComesFirst(e, f) <==> GoesFirst(x, unplaced, a, b)
  {
  }

  /** An overdue task is tried before every task that is neither overdue nor promoted, whatever else. */
  lemma OverdueGoesFirst(x: PlannerInput, extra: seq<A.Interval>, pre: seq<PriorAllocation>, a: TaskSnapshot,
                         b: TaskSnapshot, e: SchedulableTask, f: SchedulableTask)
    requires InputOk(x) && a in x.tasks && Unfinished(a) && b in x.tasks && Unfinished(b)
    requires e in FinalTasks(x, extra, pre) && e.id == a.id && f in FinalTasks(x, extra, pre) && f.id == b.id
    requires a.deadline.Some? && a.deadline.value <= x.now
    requires b.deadline.None? || b.deadline.value > x.now
    requires b.id in Provisional(x, extra, pre).unallocated ==> !IsRequired(x, b)
    ensures KeyLeq(e, f) && !KeyLeq(f, e)
  {
    FinalDistinct(x, extra, pre);
    var e' := EntryOf(x, extra, pre, a);
    var f' := EntryOf(x, extra, pre, b);
    SameEntry(FinalTasks(x, extra, pre), e, e');
    SameEntry(FinalTasks(x, extra, pre), f, f');
    ClassesDecide(x, Provisional(x, extra, pre).unallocated, a, b, e, f);
  }

  lemma ClassesDecide(x: PlannerInput, unplaced: set<TaskId>, a: TaskSnapshot, b: TaskSnapshot, e: SchedulableTask,
                      f: SchedulableTask)
    requires IsEntry(x, unplaced, a, e) && IsEntry(x, unplaced, b, f)
    requires Overdue(x, a) && !Overdue(x, b) && (b.id in unplaced ==> !IsRequired(x, b))
    ensures KeyLeq(e, f) && !KeyLeq(f, e)
  {
    KeyPriorities(e, f);
  }

  lemma SameEntry(tasks: seq<SchedulableTask>, e: SchedulableTask, f: SchedulableTask)
    requires DistinctTasks(tasks) && e in tasks && f in tasks && e.id == f.id
    ensures e == f
  {
    var i :| 0 <= i < |tasks| && tasks[i] == e;
    var j :| 0 <= j < |tasks| && tasks[j] == f;
  }

  // ---------------------------------------------------------------- buffers

  /**
   A buffer of a milestone: due by its limit in one piece, of the second class, protected, and otherwise tied to
   nothing.
   */
  ghost predicate IsBuffer(x: PlannerInput, m: Milestone, e: SchedulableTask) {
    && e.kind != Kind.Task && e.id == x.bufferId(m.id, e.kind)
    && m.limit.Some? && e.mustStartBy == m.limit && e.effectiveDeadline == m.limit
    && e.priorityClass == P1 && e.importance == Importance.Protected && e.unlockCount == 0 && !e.externalCommitment
    && e.priorPosition == None && e.switchPenalty == 0 && e.createdAt == x.now && e.startAfter == None
    && e.baseMinutes == e.safetyMinutes > 0 && !e.splittable && e.minChunk == Min(e.safetyMinutes, 30)
  }

  lemma BuffersAre(x: PlannerInput, m: Milestone, e: SchedulableTask)
    requires e in BuffersFor(x, m)
    ensures IsBuffer(x, m, e)
  {
  }

  /** The final tasks are the entries of the unfinished tasks and the buffers, these as they were made. */
  lemma FinalTasksAre(x: PlannerInput, extra: seq<A.Interval>, pre: seq<PriorAllocation>, e: SchedulableTask)
    requires InputOk(x) && e in FinalTasks(x, extra, pre)
    ensures || (exists t :: OfTheInput(x, t) && IsEntry(x, Provisional(x, extra, pre).unallocated, t, e))
            || (exists m :: m in x.milestones && e in BuffersFor(x, m) && IsBuffer(x, m, e))
  {
    var unplaced, before := Provisional(x, extra, pre).unallocated, Schedulable(x);
    var i :| 0 <= i < |FinalTasks(x, extra, pre)| && FinalTasks(x, extra, pre)[i] == e;
    var s := before[i];
    assert e == Promoted(x, unplaced, s);
    if s in EnrichedAll(x, x.tasks) {
      EnrichedFrom(x, x.tasks, s);
      var t :| t in x.tasks && !IsFinished(t.status) && s == Enriched(x, t);
      EnrichedEntry(x, unplaced, t);
    } else {
      BuffersFrom(x, x.milestones, s);
      var m :| m in x.milestones && s in BuffersFor(x, m);
      BuffersAre(x, m, s);
    }
  }

  // ---------------------------------------------------------------- slots

  /** No new work of a final pass overlaps a fixed event or a block protected for it. */
  lemma PlanAvoidsBusy(x: PlannerInput, extra: seq<A.Interval>, pre: seq<PriorAllocation>, pass: PassType, k: int,
                       i: A.Interval)
    requires InputOk(x) && 0 <= k < |FinalPass(x, extra, pre, pass).chunks|
    requires (i in x.availability.fixedEvents || i in extra) && i.start < i.end
    ensures var c := FinalPass(x, extra, pre, pass).chunks[k]; ChunkEnd(c) <= i.start || i.end <= ChunkStart(c)
  {
    var tasks := FinalTasks(x, extra, pre);
    FinalDistinct(x, extra, pre);
    OverBuilt(x, extra, pre, pass, tasks);
    NewChunksAvoidBusy(RequestFor(x, pre, pass), tasks, x.availability.(focusBlocks := extra), k, i);
  }

  /** Every final pass keeps within each day's capacity. */
  lemma PlanWithinCapacity(x: PlannerInput, extra: seq<A.Interval>, pre: seq<PriorAllocation>, pass: PassType, d: nat)
    requires InputOk(x) && 0 <= x.availability.num <= x.availability.den
    ensures var c := x.availability.(focusBlocks := extra); var busy := U.Busy(c);
      OwnedDay(x.availability.day, d, FinalPass(x, extra, pre, pass).slots) * x.availability.den <=
      D.RawMinutes(U.CutOf(c), busy, d, |busy|) * x.availability.num
  {
    FinalDistinct(x, extra, pre);
    DailyCapacityHolds(x.availability.(focusBlocks := extra), RequestFor(x, pre, pass), FinalTasks(x, extra, pre), d);
  }

  // ---------------------------------------------------------------- preallocation

  /** The prior allocations of the task numbered before the `i`th. */
  ghost function EarlierOf(sorted: seq<PriorAllocation>, i: nat): set<nat>
    requires i < |sorted|
  {
    set j | 0 <= j < i && sorted[j].task == sorted[i].task
  }

  ghost function PositionsOf(prior: seq<PriorAllocation>, t: TaskId): set<nat> {
    set j | 0 <= j < |prior| && prior[j].task == t
  }

  lemma {:induction false} CountIsCard(prior: seq<PriorAllocation>, t: TaskId)
    ensures CountTask(prior, t) == |PositionsOf(prior, t)|
    decreases |prior|
  {
    if prior == [] {
      assert PositionsOf(prior, t) == {};
    } else {
      var n := |prior| - 1;
      CountIsCard(prior[..n], t);
      assert PositionsOf(prior, t) == PositionsOf(prior[..n], t) + (if prior[n].task == t then {n} else {});
    }
  }

  lemma PriorIsPreorder()
    ensures TotalPreorder(PriorLeq)
  {
  }

  /** What a pass is handed: the prior allocations by start and then id, numbered from zero within each task. */
  lemma HandedOver(pre: seq<PriorAllocation>, pass: PassType, i: nat)
    requires i < |pre|
    ensures var sorted, handed := Sort(PriorLeq, pre), Preallocated(Sort(PriorLeq, pre), pass);
      && |handed| == |sorted| == |pre| && multiset(sorted) == multiset(pre)
      && handed[i] == TaskAllocation(sorted[i].task, pass, sorted[i].start, sorted[i].end, |EarlierOf(sorted, i)|,
                                     Kind.Task, [])
      && forall j :: i < j < |sorted| ==>
           sorted[i].start < sorted[j].start || (sorted[i].start == sorted[j].start && sorted[i].task <= sorted[j].task)
  {
    PriorIsPreorder();
    SortSorts(PriorLeq, pre);
    var sorted := Sort(PriorLeq, pre);
    assert |multiset(sorted)| == |multiset(pre)|;
    CountIsCard(sorted[..i], sorted[i].task);
    assert EarlierOf(sorted, i) == PositionsOf(sorted[..i], sorted[i].task);
  }
}
