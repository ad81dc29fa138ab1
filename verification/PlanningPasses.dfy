/** The planning passes: what the scheduler is given, the one promotion, and the base and safety schedules. */
module PlanningPasses {
  import opened Domain
  import opened Sorting
  import opened Priority
  import opened Ledger
  import opened Placement
  import opened SerialSchedule
  import opened PassCapacity
  import opened PlanningInput
  import opened GraphAnalysis
  import A = AvailabilitySlots
  import U = UniqueSlots
  import C = CycleDetection

  // ---------------------------------------------------------------- enrichment

  /** `initial_priority_class`. */
  function InitialClass(deadlinePassed: bool, deadlineType: DeadlineType, importance: Importance,
                        syntheticBuffer: bool, routine: bool, exploration: bool): PriorityClass {
    if deadlinePassed then P0
    else if syntheticBuffer then P1
    else if deadlineType.HardDeadline? || deadlineType.ExternalCommitment? then P1
    else if routine then P3
    else if exploration || importance.Optional? || importance.OnHold? then P4
    else P2
  }

  /** The deadline type of the last milestone with that id, as in a dictionary. */
  function TypeOf(milestones: seq<Milestone>, id: Option<MilestoneId>): DeadlineType
    decreases |milestones|
  {
    if milestones == [] || id.None? then SoftGoal
    else
      var last := milestones[|milestones| - 1];
      if last.id == id.value then last.deadlineType else TypeOf(milestones[..|milestones| - 1], id)
  }

  /** Where a task first occurs in the prior plan. */
  function PriorPosition(prior: seq<PriorAllocation>, t: TaskId): Option<nat> {
    if prior == [] then None
    else if prior[0].task == t then Some(0)
    else
      match PriorPosition(prior[1..], t)
      case None => None
      case Some(n) => Some(n + 1)
  }

  function PriorOrNone(x: PlannerInput): seq<PriorAllocation> {
    match x.prior
    case None => []
    case Some(allocations) => allocations
  }

  function Lookup(m: map<TaskId, int>, t: TaskId): Option<int> {
    if t in m then Some(m[t]) else None
  }

  function EnrichedWith(x: PlannerInput, analysis: Analysis, t: TaskSnapshot): SchedulableTask {
    SchedulableTask(
      t.id,
      InitialClass(t.deadline.Some? && t.deadline.value <= x.now, TypeOf(x.milestones, t.milestone), Normal,
                   false, false, false),
      Lookup(analysis.mustStartBy, t.id),
      t.deadline,
      OrElse(Lookup(analysis.unlockCount, t.id), 0),
      t.id in x.externallyAffected,
      Normal,
      PriorPosition(PriorOrNone(x), t.id),
      1,
      x.now,
      Kind.Task,
      t.remainingBase,
      t.remainingSafety,
      t.splittable,
      t.minChunk,
      t.startAfter)
  }

  /** A task as the scheduler sees it. */
  ghost function Enriched(x: PlannerInput, t: TaskSnapshot): SchedulableTask {
    EnrichedWith(x, AnalysisOf(x), t)
  }

  ghost function EnrichedAll(x: PlannerInput, tasks: seq<TaskSnapshot>): seq<SchedulableTask>
    decreases |tasks|
  {
    if tasks == [] then []
    else if !IsFinished(tasks[0].status) then [Enriched(x, tasks[0])] + EnrichedAll(x, tasks[1..])
    else EnrichedAll(x, tasks[1..])
  }

  /** `enrich_tasks`: the active tasks, in input order. */
  method EnrichTasks(x: PlannerInput, analysis: Analysis) returns (enriched: seq<SchedulableTask>)
    requires analysis == AnalysisOf(x)
    ensures enriched == EnrichedAll(x, x.tasks)
  {
    enriched := [];
    for i := 0 to |x.tasks|
      invariant enriched + EnrichedAll(x, x.tasks[i..]) == EnrichedAll(x, x.tasks)
    {
      var rest := x.tasks[i..];
      assert rest[0] == x.tasks[i] && rest[1..] == x.tasks[i + 1..];
      if !IsFinished(x.tasks[i].status) {
        ghost var before := enriched;
        enriched := enriched + [EnrichedWith(x, analysis, x.tasks[i])];
        assert before + ([Enriched(x, x.tasks[i])] + EnrichedAll(x, x.tasks[i + 1..])) ==
               enriched + EnrichedAll(x, x.tasks[i + 1..]);
      }
    }
  }

  // ---------------------------------------------------------------- buffers

  function BufferTask(x: PlannerInput, m: Milestone, limit: Instant, kind: Kind, minutes: int): SchedulableTask {
    SchedulableTask(x.bufferId(m.id, kind), P1, Some(limit), Some(limit), 0, false, Importance.Protected, None, 0, x.now,
                    kind, minutes, minutes, false, Min(minutes, 30), None)
  }

  /** Half the buffer, rounded up. */
  function ReviewMinutes(total: int): int {
    (total + 1) / 2
  }

  /** The synthetic tasks of one milestone. */
  function BuffersFor(x: PlannerInput, m: Milestone): seq<SchedulableTask> {
    if m.limit.None? || m.requiredBuffer <= 0 then []
    else
      var review := ReviewMinutes(m.requiredBuffer);
      var rest := m.requiredBuffer - review;
      [BufferTask(x, m, m.limit.value, ReviewBuffer, review)] +
      (if rest > 0 then [BufferTask(x, m, m.limit.value, SubmissionBuffer, rest)] else [])
  }

  function AllBuffers(x: PlannerInput, milestones: seq<Milestone>): seq<SchedulableTask>
    decreases |milestones|
  {
    if milestones == [] then [] else BuffersFor(x, milestones[0]) + AllBuffers(x, milestones[1..])
  }

  /** The loop over the two kinds of buffer. */
  method BuffersOf(x: PlannerInput, m: Milestone) returns (buffers: seq<SchedulableTask>)
    ensures buffers == BuffersFor(x, m)
  {
    if m.limit.None? || m.requiredBuffer <= 0 {
      return [];
    }
    var review := ReviewMinutes(m.requiredBuffer);
    var halves := [(ReviewBuffer, review), (SubmissionBuffer, m.requiredBuffer - review)];
    buffers := [BufferTask(x, m, m.limit.value, halves[0].0, halves[0].1)];
    if halves[1].1 > 0 {
      buffers := buffers + [BufferTask(x, m, m.limit.value, halves[1].0, halves[1].1)];
    }
  }

  /** `create_synthetic_buffers`, in milestone order. */
  method CreateSyntheticBuffers(x: PlannerInput) returns (buffers: seq<SchedulableTask>)
    ensures buffers == AllBuffers(x, x.milestones)
  {
    buffers := [];
    for i := 0 to |x.milestones|
      invariant buffers + AllBuffers(x, x.milestones[i..]) == AllBuffers(x, x.milestones)
    {
      assert x.milestones[i..][0] == x.milestones[i] && x.milestones[i..][1..] == x.milestones[i + 1..];
      var more := BuffersOf(x, x.milestones[i]);
      Regroup(buffers, more, AllBuffers(x, x.milestones[i + 1..]));
      buffers := buffers + more;
    }
  }

  lemma Regroup<T>(a: seq<T>, b: seq<T>, c: seq<T>)
    ensures a + (b + c) == (a + b) + c
  {
  }

  ghost function Schedulable(x: PlannerInput): seq<SchedulableTask> {
    EnrichedAll(x, x.tasks) + AllBuffers(x, x.milestones)
  }

  // ---------------------------------------------------------------- gates

  predicate IsActive(tasks: seq<TaskSnapshot>, t: TaskId) {
    exists i :: 0 <= i < |tasks| && tasks[i].id == t && !IsFinished(tasks[i].status)
  }

  function Bucket(gates: map<TaskId, set<TaskId>>, t: TaskId): set<TaskId> {
    if t in gates then gates[t] else {}
  }

  function AddGate(x: PlannerInput, gates: map<TaskId, set<TaskId>>, d: TaskDependency): map<TaskId, set<TaskId>> {
    if d.kind.BlocksStart? && IsActive(x.tasks, d.successor)
    then gates[d.successor := Bucket(gates, d.successor) + {d.predecessor}]
    else gates
  }

  function GateMap(x: PlannerInput, deps: seq<TaskDependency>): map<TaskId, set<TaskId>>
    decreases |deps|
  {
    if deps == [] then map[] else AddGate(x, GateMap(x, deps[..|deps| - 1]), deps[|deps| - 1])
  }

  /** `_start_gates`. */
  method StartGates(x: PlannerInput) returns (gates: map<TaskId, set<TaskId>>)
    ensures gates == GateMap(x, x.dependencies)
  {
    gates := map[];
    for k := 0 to |x.dependencies|
      invariant gates == GateMap(x, x.dependencies[..k])
    {
      TakeOneMore(x.dependencies, k);
      assert x.dependencies[..k + 1][..k] == x.dependencies[..k];
      gates := AddGate(x, gates, x.dependencies[k]);
    }
    TakeAll(x.dependencies);
  }

  /** A task's gates are the predecessors of its start dependencies, finished ones included, if it is active. */
  lemma {:induction false} GatesAre(x: PlannerInput, deps: seq<TaskDependency>, t: TaskId, p: TaskId)
    ensures p in Bucket(GateMap(x, deps), t) <==>
            IsActive(x.tasks, t) && exists d :: d in deps && d.kind.BlocksStart? && d.successor == t && d.predecessor == p
    decreases |deps|
  {
    if deps != [] {
      var last := deps[|deps| - 1];
      GatesAre(x, deps[..|deps| - 1], t, p);
      assert deps == deps[..|deps| - 1] + [last];
    }
  }

  // ---------------------------------------------------------------- preallocation

  /** Earlier starts first, then smaller ids. */
  predicate PriorLeq(a: PriorAllocation, b: PriorAllocation) {
    a.start < b.start || (a.start == b.start && a.task <= b.task)
  }

  function CountTask(prior: seq<PriorAllocation>, t: TaskId): nat {
    if prior == [] then 0
    else CountTask(prior[..|prior| - 1], t) + (if prior[|prior| - 1].task == t then 1 else 0)
  }

  function Preallocation(a: PriorAllocation, pass: PassType, index: nat): TaskAllocation {
    TaskAllocation(a.task, pass, a.start, a.end, index, Kind.Task, [])
  }

  /** Each prior allocation as an allocation of the pass, numbered per task. */
  function Preallocated(sorted: seq<PriorAllocation>, pass: PassType): (r: seq<TaskAllocation>)
    ensures |r| == |sorted|
  {
    seq(|sorted|, i requires 0 <= i < |sorted| => Preallocation(sorted[i], pass, CountTask(sorted[..i], sorted[i].task)))
  }

  function CountOr(counts: map<TaskId, nat>, t: TaskId): nat {
    if t in counts then counts[t] else 0
  }

  ghost predicate Counts(counts: map<TaskId, nat>, prior: seq<PriorAllocation>) {
    forall t :: CountOr(counts, t) == CountTask(prior, t)
  }

  lemma CountMore(counts: map<TaskId, nat>, sorted: seq<PriorAllocation>, k: nat)
    requires k < |sorted| && Counts(counts, sorted[..k])
    ensures var t := sorted[k].task; Counts(counts[t := CountOr(counts, t) + 1], sorted[..k + 1])
  {
    var t, before, after := sorted[k].task, sorted[..k], sorted[..k + 1];
    var more := counts[t := CountOr(counts, t) + 1];
    assert after[..k] == before;
    forall u
      ensures CountOr(more, u) == CountTask(after, u)
    {
      assert CountOr(counts, u) == CountTask(before, u);
    }
  }

  /** `_preallocated_for_pass`. */
  method PreallocatedForPass(allocations: seq<PriorAllocation>, pass: PassType) returns (result: seq<TaskAllocation>)
    ensures result == Preallocated(Sort(PriorLeq, allocations), pass)
  {
    var sorted := Sort(PriorLeq, allocations);
    var chunkByTask: map<TaskId, nat> := map[];
    result := [];
    for k := 0 to |sorted|
      invariant Counts(chunkByTask, sorted[..k])
      invariant result == Preallocated(sorted, pass)[..k]
    {
      var t := sorted[k].task;
      var index := CountOr(chunkByTask, t);
      assert index == CountTask(sorted[..k], t);
      TakeOneMore(Preallocated(sorted, pass), k);
      CountMore(chunkByTask, sorted, k);
      result := result + [Preallocation(sorted[k], pass, index)];
      chunkByTask := chunkByTask[t := index + 1];
    }
    TakeAll(Preallocated(sorted, pass));
  }

  // ---------------------------------------------------------------- promotion

  /** The milestone of a task, as in the dictionary built from the task list. */
  function MilestoneOf(tasks: seq<TaskSnapshot>, t: TaskId): Option<MilestoneId>
    decreases |tasks|
  {
    if tasks == [] then None
    else
      var last := tasks[|tasks| - 1];
      if last.id == t then last.milestone else MilestoneOf(tasks[..|tasks| - 1], t)
  }

  /** Whether a task is promoted: real, not yet P0, left short by the provisional pass, and required. */
  predicate Promotes(x: PlannerInput, unallocated: set<TaskId>, t: SchedulableTask) {
    && t.kind.Task? && !t.priorityClass.P0? && t.id in unallocated
    && var deadlineType := TypeOf(x.milestones, MilestoneOf(x.tasks, t.id));
       deadlineType.HardDeadline? || deadlineType.ExternalCommitment?
  }

  function Promoted(x: PlannerInput, unallocated: set<TaskId>, t: SchedulableTask): SchedulableTask {
    if Promotes(x, unallocated, t) then t.(priorityClass := P0) else t
  }

  function PromotedAll(x: PlannerInput, unallocated: set<TaskId>, tasks: seq<SchedulableTask>): seq<SchedulableTask> {
    seq(|tasks|, i requires 0 <= i < |tasks| => Promoted(x, unallocated, tasks[i]))
  }

  ghost function PromotedCount(x: PlannerInput, unallocated: set<TaskId>, tasks: seq<SchedulableTask>): nat {
    |set i | 0 <= i < |tasks| && Promotes(x, unallocated, tasks[i])|
  }

  /** `_promote_infeasible_required_paths_once`. */
  method PromoteOnce(x: PlannerInput, unallocated: set<TaskId>, tasks: seq<SchedulableTask>)
    returns (updated: seq<SchedulableTask>, promoted: nat)
    ensures updated == PromotedAll(x, unallocated, tasks)
    ensures promoted == PromotedCount(x, unallocated, tasks)
  {
    updated, promoted := [], 0;
    for i := 0 to |tasks|
      invariant updated == PromotedAll(x, unallocated, tasks)[..i]
      invariant promoted == |set j | 0 <= j < i && Promotes(x, unallocated, tasks[j])|
    {
      TakeOneMore(PromotedAll(x, unallocated, tasks), i);
      ghost var before := set j | 0 <= j < i && Promotes(x, unallocated, tasks[j]);
      ghost var after := set j | 0 <= j < i + 1 && Promotes(x, unallocated, tasks[j]);
      if Promotes(x, unallocated, tasks[i]) {
        promoted := promoted + 1;
        assert after == before + {i};
      } else {
        assert after == before;
      }
      updated := updated + [Promoted(x, unallocated, tasks[i])];
    }
    TakeAll(PromotedAll(x, unallocated, tasks));
  }

  // ---------------------------------------------------------------- the passes

  datatype Passes = Passes(provisional: ScheduleResult, base: ScheduleResult, safety: ScheduleResult, promoted: nat)

  function FreshSlots(x: PlannerInput, extra: seq<A.Interval>): seq<SlotLike>
    requires U.ContextOk(x.availability)
  {
    OfferAll(U.Built(x.availability.(focusBlocks := extra)))
  }

  function RequestFor(x: PlannerInput, pre: seq<PriorAllocation>, pass: PassType): Request {
    Request(pass, GateMap(x, x.dependencies), Preallocated(Sort(PriorLeq, pre), pass))
  }

  ghost function Provisional(x: PlannerInput, extra: seq<A.Interval>, pre: seq<PriorAllocation>): Progress
    requires U.ContextOk(x.availability)
  {
    Schedule(RequestFor(x, pre, BasePass), Schedulable(x), FreshSlots(x, extra))
  }

  /** The tasks of the final passes. */
  ghost function FinalTasks(x: PlannerInput, extra: seq<A.Interval>, pre: seq<PriorAllocation>): seq<SchedulableTask>
    requires U.ContextOk(x.availability)
  {
    PromotedAll(x, Provisional(x, extra, pre).unallocated, Schedulable(x))
  }

  ghost function FinalPass(x: PlannerInput, extra: seq<A.Interval>, pre: seq<PriorAllocation>, pass: PassType): Progress
    requires U.ContextOk(x.availability)
  {
    Schedule(RequestFor(x, pre, pass), FinalTasks(x, extra, pre), FreshSlots(x, extra))
  }

  /** What `run_planning_passes` returns for a final pass. */
  ghost function PassResult(x: PlannerInput, extra: seq<A.Interval>, pre: seq<PriorAllocation>, pass: PassType): ScheduleResult
    requires U.ContextOk(x.availability)
  {
    ResultOf(RequestFor(x, pre, pass), FinalPass(x, extra, pre, pass))
  }

  /** The slots a pass gets are built afresh each time. */
  method BuildFreshSlots(x: PlannerInput, extra: seq<A.Interval>) returns (offered: seq<SlotLike>)
    requires U.ContextOk(x.availability)
    ensures offered == FreshSlots(x, extra)
  {
    var built := U.BuildUniqueSlots(x.availability.(focusBlocks := extra));
    offered := OfferAll(built);
  }

  method RequestOf(x: PlannerInput, pre: seq<PriorAllocation>, pass: PassType) returns (r: Request)
    ensures r == RequestFor(x, pre, pass)
  {
    var gates := StartGates(x);
    var prior := PreallocatedForPass(pre, pass);
    r := Request(pass, gates, prior);
  }

  method RunPass(x: PlannerInput, tasks: seq<SchedulableTask>, extra: seq<A.Interval>, pre: seq<PriorAllocation>,
                 pass: PassType)
    returns (result: ScheduleResult)
    requires U.ContextOk(x.availability)
    ensures result == ResultOf(RequestFor(x, pre, pass), Schedule(RequestFor(x, pre, pass), tasks, FreshSlots(x, extra)))
  {
    var offered := BuildFreshSlots(x, extra);
    var r := RequestOf(x, pre, pass);
    var ledger;
    result, ledger := SerialScheduleTasks(tasks, offered, r);
  }

  /** `run_planning_passes`; there is no plan when a dependency has the nil predecessor. */
  method RunPlanningPasses(x: PlannerInput, extra: seq<A.Interval>, pre: seq<PriorAllocation>)
    returns (result: Option<Passes>)
    requires U.ContextOk(x.availability)
    ensures result.None? <==> C.HasNilPredecessor(x.dependencies)
    ensures result.Some? ==> result.value.base == PassResult(x, extra, pre, BasePass)
    ensures result.Some? ==> result.value.safety == PassResult(x, extra, pre, SafetyPass)
    ensures result.Some? ==> ArePasses(x, extra, pre, result.value)
  {
    var analysis := BuildGraphAnalysis(x);
    if analysis.None? {
      return None;
    }
    var tasks := EnrichTasks(x, analysis.value);
    var buffers := CreateSyntheticBuffers(x);
    var provisional := RunPass(x, tasks + buffers, extra, pre, BasePass);
    var final, promoted := PromoteOnce(x, provisional.unallocated, tasks + buffers);
    var base := RunPass(x, final, extra, pre, BasePass);
    var safety := RunPass(x, final, extra, pre, SafetyPass);
    result := Some(Passes(provisional, base, safety, promoted));
  }

  ghost predicate ArePasses(x: PlannerInput, extra: seq<A.Interval>, pre: seq<PriorAllocation>, passes: Passes)
    requires U.ContextOk(x.availability)
  {
    && passes.base == PassResult(x, extra, pre, BasePass)
    && passes.safety == PassResult(x, extra, pre, SafetyPass)
    && passes.provisional == ResultOf(RequestFor(x, pre, BasePass), Provisional(x, extra, pre))
    && passes.promoted == PromotedCount(x, passes.provisional.unallocated, Schedulable(x))
  }
}
