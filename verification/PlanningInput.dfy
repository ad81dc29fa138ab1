/** What a planner is given. */
module PlanningInput {
  import opened Domain
  import opened Priority
  import A = AvailabilitySlots

  datatype DeadlineType = HardDeadline | ExternalCommitment | InternalTarget | SoftGoal

  /** A task as the input carries it; `dateBoundary` is the local midnight of its deadline date, if it has one. */
  datatype TaskSnapshot = TaskSnapshot(
    id: TaskId,
    milestone: Option<MilestoneId>,
    status: TaskStatus,
    deadline: Option<Instant>,
    dateBoundary: Option<Instant>,
    safetyMinutes: int,
    remainingBase: int,
    remainingSafety: int,
    splittable: bool,
    minChunk: int,
    startAfter: Option<Instant>)

  /** A milestone; `limit` is its effective deadline, `dateOnly` tells that only a date is known. */
  datatype Milestone = Milestone(
    id: MilestoneId,
    deadlineType: DeadlineType,
    requiredBuffer: int,
    limit: Option<Instant>,
    dateOnly: bool)

  datatype PriorAllocation = PriorAllocation(task: TaskId, start: Instant, end: Instant)

  /** What a planner is given. */
  datatype PlannerInput = PlannerInput(
    now: Instant,
    horizon: Instant,
    availability: A.Context,
    tasks: seq<TaskSnapshot>,
    milestones: seq<Milestone>,
    dependencies: seq<TaskDependency>,
    externallyAffected: set<TaskId>,
    pinned: set<TaskId>,
    prior: Option<seq<PriorAllocation>>,
    bufferId: (MilestoneId, Kind) -> TaskId)
}
