/** Coverage of milestones and the risk levels read off it. */
module Risk {
  import opened Domain
  import opened Priority
  import opened Ledger
  import opened Placement
  import opened SerialSchedule
  import opened PlanningInput
  import opened GraphAnalysis
  import opened PlanningPasses
  import U = UniqueSlots

  // ---------------------------------------------------------------- minutes before a limit

  predicate InTime(a: TaskAllocation, limit: Option<Instant>) {
    limit.None? || a.end <= limit.value
  }

  /** The minutes of the members' allocations that end by the limit. */
  function MinutesBefore(allocations: seq<TaskAllocation>, members: set<TaskId>, limit: Option<Instant>): int {
    if allocations == [] then 0
    else
      var a := allocations[0];
      (if a.task in members && InTime(a, limit) then a.end - a.start else 0) +
      MinutesBefore(allocations[1..], members, limit)
  }

  /** `_allocation_minutes_before`; every kind of allocation is a task or a buffer. */
  method AllocationMinutesBefore(allocations: seq<TaskAllocation>, members: set<TaskId>, limit: Option<Instant>)
    returns (total: int)
    ensures total == MinutesBefore(allocations, members, limit)
  {
    total := 0;
    for k := 0 to |allocations|
      invariant total + MinutesBefore(allocations[k..], members, limit) == MinutesBefore(allocations, members, limit)
    {
      var a := allocations[k];
      assert allocations[k..][0] == a && allocations[k..][1..] == allocations[k + 1..];
      if a.task !in members {
        continue;
      }
      if InTime(a, limit) {
        total := total + (a.end - a.start);
      }
    }
  }

  // ---------------------------------------------------------------- what a milestone wants

  /** A task and the minutes it needs. */
  datatype Want = Want(id: TaskId, minutes: int)

  function Remaining(t: TaskSnapshot, pass: PassType): int {
    if pass.BasePass? then t.remainingBase else t.remainingSafety
  }

  predicate IsMember(t: TaskSnapshot, m: Milestone) {
    !IsFinished(t.status) && t.milestone == Some(m.id)
  }

  /** The active tasks of a milestone with what they need in a pass. */
  function MemberWants(tasks: seq<TaskSnapshot>, m: Milestone, pass: PassType): seq<Want>
    decreases |tasks|
  {
    if tasks == [] then []
    else if IsMember(tasks[0], m)
    then [Want(tasks[0].id, Remaining(tasks[0], pass))] + MemberWants(tasks[1..], m, pass)
    else MemberWants(tasks[1..], m, pass)
  }

  function BufferWants(buffers: seq<SchedulableTask>): (wants: seq<Want>)
    ensures |wants| == |buffers|
  {
    seq(|buffers|, i requires 0 <= i < |buffers| => Want(buffers[i].id, buffers[i].safetyMinutes))
  }

  function SumWants(wants: seq<Want>): int {
    if wants == [] then 0 else wants[0].minutes + SumWants(wants[1..])
  }

  function WantIds(wants: seq<Want>): set<TaskId> {
    set w | w in wants :: w.id
  }

  // ---------------------------------------------------------------- coverage

  datatype MilestoneCoverage = MilestoneCoverage(
    milestone: MilestoneId,
    baseRequired: int,
    safetyRequired: int,
    baseAllocated: int,
    safetyAllocated: int,
    buffersAllocated: int,
    bufferRequired: int,
    limit: Option<Instant>,
    dateOnly: bool,
    hasCycleMember: bool)

  ghost function CoverageOf(x: PlannerInput, base: ScheduleResult, safety: ScheduleResult, m: Milestone): MilestoneCoverage {
    var baseWants := MemberWants(x.tasks, m, BasePass);
    var safetyWants := MemberWants(x.tasks, m, SafetyPass);
    var bufferWants := BufferWants(BuffersFor(x, m));
    MilestoneCoverage(
      m.id,
      SumWants(baseWants),
      SumWants(safetyWants),
      MinutesBefore(base.allocations, WantIds(baseWants), m.limit),
      MinutesBefore(safety.allocations, WantIds(baseWants), m.limit),
      MinutesBefore(safety.allocations, WantIds(bufferWants), m.limit),
      SumWants(bufferWants),
      m.limit,
      m.dateOnly,
      WantIds(baseWants) * AnalysisOf(x).blocked != {})
  }

  /** The sum of some needs, added up one by one. */
  method AddUp(wants: seq<Want>) returns (total: int)
    ensures total == SumWants(wants)
  {
    total := 0;
    for k := 0 to |wants|
      invariant total + SumWants(wants[k..]) == SumWants(wants)
    {
      assert wants[k..][0] == wants[k] && wants[k..][1..] == wants[k + 1..];
      total := total + wants[k].minutes;
    }
  }

  /** One turn of the loop over milestones. */
  method Cover(x: PlannerInput, analysis: Analysis, base: ScheduleResult, safety: ScheduleResult, m: Milestone)
    returns (c: MilestoneCoverage)
    requires analysis == AnalysisOf(x)
    ensures c == CoverageOf(x, base, safety, m)
  {
    var baseWants := MemberWants(x.tasks, m, BasePass);
    var safetyWants := MemberWants(x.tasks, m, SafetyPass);
    var buffers := BuffersOf(x, m);
    var baseRequired := AddUp(baseWants);
    var safetyRequired := AddUp(safetyWants);
    var bufferRequired := AddUp(BufferWants(buffers));
    var members := WantIds(baseWants);
    var buffersAllocated := AllocationMinutesBefore(safety.allocations, WantIds(BufferWants(buffers)), m.limit);
    var baseAllocated := AllocationMinutesBefore(base.allocations, members, m.limit);
    var safetyAllocated := AllocationMinutesBefore(safety.allocations, members, m.limit);
    c := MilestoneCoverage(m.id, baseRequired, safetyRequired, baseAllocated, safetyAllocated, buffersAllocated,
                           bufferRequired, m.limit, m.dateOnly, members * analysis.blocked != {});
  }

  // ---------------------------------------------------------------- classification

  datatype RiskLevel = Critical | High | Medium | Low | Unknown

  datatype Rule =
    | CycleBlocksRequiredPath | DateOnlyDeadline | MissingDeadline | BaseBelowOne | SafetyBelowOne
    | BufferUnallocated | SlackBelowThreshold

  /** `base_coverage < 1`. */
  predicate BaseShort(c: MilestoneCoverage) {
    c.baseRequired > 0 && c.baseAllocated < c.baseRequired
  }

  /** `safety_coverage < 1`. */
  predicate SafetyShort(c: MilestoneCoverage) {
    var total := c.safetyRequired + c.bufferRequired;
    total > 0 && c.safetyAllocated + c.buffersAllocated < total
  }

  /** `_medium_threshold`: a tenth of the safety minutes rounded up to whole slots, and at least half an hour. */
  function MediumThreshold(totalSafety: int, step: int): int
    requires step > 0
  {
    Max(30, (totalSafety + 10 * step - 1) / (10 * step) * step)
  }

  /** `classify_milestone`. */
  function Classify(c: MilestoneCoverage, slack: Option<int>, step: int): (RiskLevel, Option<Rule>)
    requires step > 0
  {
    if c.hasCycleMember then (Critical, Some(CycleBlocksRequiredPath))
    else if c.dateOnly then (Unknown, Some(DateOnlyDeadline))
    else if c.limit.None? then (Unknown, Some(MissingDeadline))
    else if BaseShort(c) then (Critical, Some(BaseBelowOne))
    else if SafetyShort(c) then (High, Some(SafetyBelowOne))
    else if c.buffersAllocated < c.bufferRequired then (High, Some(BufferUnallocated))
    else if OrElse(slack, 0) < MediumThreshold(c.safetyRequired + c.bufferRequired, step)
    then (Medium, Some(SlackBelowThreshold))
    else (Low, None)
  }

  predicate Spare(s: LedgerSlot, now: Instant, limit: Instant) {
    s.free && s.start >= now && s.end <= limit
  }

  function SpareMinutes(slots: seq<LedgerSlot>, now: Instant, limit: Instant): int {
    if slots == [] then 0
    else (if Spare(slots[0], now, limit) then Span(slots[0]) else 0) + SpareMinutes(slots[1..], now, limit)
  }

  function FreeSlack(x: PlannerInput, slots: seq<LedgerSlot>, limit: Option<Instant>): int {
    if limit.None? || limit.value <= x.now then 0 else SpareMinutes(slots, x.now, limit.value)
  }

  /** `free_slack_after_pass`. */
  method FreeSlackAfterPass(x: PlannerInput, slots: seq<LedgerSlot>, limit: Option<Instant>) returns (total: int)
    ensures total == FreeSlack(x, slots, limit)
  {
    total := 0;
    if limit.None? || limit.value <= x.now {
      return;
    }
    for k := 0 to |slots|
      invariant total + SpareMinutes(slots[k..], x.now, limit.value) == SpareMinutes(slots, x.now, limit.value)
    {
      assert slots[k..][0] == slots[k] && slots[k..][1..] == slots[k + 1..];
      if Spare(slots[k], x.now, limit.value) {
        total := total + Span(slots[k]);
      }
    }
  }

  datatype Assessment = Assessment(level: RiskLevel, slack: Option<int>, rule: Option<Rule>)

  /** The verdict on one milestone: slack is looked at only when everything required is covered. */
  ghost function AssessmentOf(x: PlannerInput, base: ScheduleResult, safety: ScheduleResult, m: Milestone): Assessment
    requires U.ContextOk(x.availability)
  {
    var c := CoverageOf(x, base, safety, m);
    var (level, rule) := Classify(c, None, x.availability.slotMinutes);
    if level.Medium? || level.Low? then
      var slack := FreeSlack(x, safety.slots, c.limit);
      var (level', rule') := Classify(c, Some(slack), x.availability.slotMinutes);
      Assessment(level', Some(slack), rule')
    else Assessment(level, None, rule)
  }

  method Assess(x: PlannerInput, analysis: Analysis, base: ScheduleResult, safety: ScheduleResult, m: Milestone)
    returns (a: Assessment)
    requires U.ContextOk(x.availability) && analysis == AnalysisOf(x)
    ensures a == AssessmentOf(x, base, safety, m)
  {
    var c := Cover(x, analysis, base, safety, m);
    var (level, rule) := Classify(c, None, x.availability.slotMinutes);
    if level.Medium? || level.Low? {
      var slack := FreeSlackAfterPass(x, safety.slots, c.limit);
      var (level', rule') := Classify(c, Some(slack), x.availability.slotMinutes);
      a := Assessment(level', Some(slack), rule');
    } else {
      a := Assessment(level, None, rule);
    }
  }

  /** No later milestone among the first `k` has the id of the `i`th. */
  ghost predicate LastOfId(x: PlannerInput, i: nat, k: nat)
    requires i < k <= |x.milestones|
  {
    forall j :: i < j < k ==> x.milestones[j].id != x.milestones[i].id
  }

  ghost predicate Assessed(x: PlannerInput, base: ScheduleResult, safety: ScheduleResult,
                           risks: map<MilestoneId, Assessment>, k: nat)
    requires U.ContextOk(x.availability) && k <= |x.milestones|
  {
    && (forall i {:trigger x.milestones[i]} :: 0 <= i < k ==> x.milestones[i].id in risks)
    && (forall i {:trigger x.milestones[i]} :: 0 <= i < k && LastOfId(x, i, k) ==>
          risks[x.milestones[i].id] == AssessmentOf(x, base, safety, x.milestones[i]))
  }

  /** `calculate_risks`: every milestone gets its verdict (the last one, should an id occur twice). */
  method CalculateRisks(x: PlannerInput, analysis: Analysis, base: ScheduleResult, safety: ScheduleResult)
    returns (risks: map<MilestoneId, Assessment>)
    requires U.ContextOk(x.availability) && analysis == AnalysisOf(x)
    ensures Assessed(x, base, safety, risks, |x.milestones|)
  {
    risks := map[];
    for k := 0 to |x.milestones|
      invariant Assessed(x, base, safety, risks, k)
    {
      var a := Assess(x, analysis, base, safety, x.milestones[k]);
      AssessedMore(x, base, safety, risks, k, a);
      risks := risks[x.milestones[k].id := a];
    }
  }

  lemma AssessedMore(x: PlannerInput, base: ScheduleResult, safety: ScheduleResult,
                     risks: map<MilestoneId, Assessment>, k: nat, a: Assessment)
    requires U.ContextOk(x.availability) && k < |x.milestones| && Assessed(x, base, safety, risks, k)
    requires a == AssessmentOf(x, base, safety, x.milestones[k])
    ensures Assessed(x, base, safety, risks[x.milestones[k].id := a], k + 1)
  {
    var more := risks[x.milestones[k].id := a];
    forall i | 0 <= i < k + 1 && LastOfId(x, i, k + 1)
      ensures more[x.milestones[i].id] == AssessmentOf(x, base, safety, x.milestones[i])
    {
      if i < k {
        LastBefore(x, i, k);
        assert risks[x.milestones[i].id] == AssessmentOf(x, base, safety, x.milestones[i]);
      }
    }
  }

  lemma LastBefore(x: PlannerInput, i: nat, k: nat)
    requires i < k < |x.milestones| && LastOfId(x, i, k + 1)
    ensures LastOfId(x, i, k) && x.milestones[k].id != x.milestones[i].id
  {
  }
}
