/** Replanning: differences from the prior plan, and which plan is selected. */
module Replanning {
  import opened Domain
  import opened Sorting
  import opened Priority
  import opened Ledger
  import opened Placement
  import opened SerialSchedule
  import opened PlanningInput
  import opened GraphAnalysis
  import opened PlanningPasses
  import A = AvailabilitySlots
  import U = UniqueSlots
  import C = CycleDetection

  const FREEZE_WINDOW_MINUTES: int := 120

  /** `is_in_freeze_window`. */
  predicate Frozen(start: Instant, now: Instant) {
    start <= now + FREEZE_WINDOW_MINUTES
  }

  predicate IsProtected(x: PlannerInput, a: PriorAllocation) {
    a.task in x.pinned || Frozen(a.start, x.now)
  }

  function ProtectedOf(x: PlannerInput, prior: seq<PriorAllocation>): seq<PriorAllocation> {
    if prior == [] then []
    else if IsProtected(x, prior[0]) then [prior[0]] + ProtectedOf(x, prior[1..])
    else ProtectedOf(x, prior[1..])
  }

  /** `_protected_prior_allocations`. */
  function ProtectedPrior(x: PlannerInput): seq<PriorAllocation> {
    ProtectedOf(x, PriorOrNone(x))
  }

  lemma {:induction false} ProtectedMembers(x: PlannerInput, prior: seq<PriorAllocation>, a: PriorAllocation)
    ensures a in ProtectedOf(x, prior) <==> a in prior && IsProtected(x, a)
    decreases |prior|
  {
    if prior != [] {
      ProtectedMembers(x, prior[1..], a);
      assert prior == [prior[0]] + prior[1..];
    }
  }

  // ---------------------------------------------------------------- differences

  datatype MoveKind = Move | Extend

  datatype MoveRecord = MoveRecord(task: TaskId, priorStart: Instant, newStart: Instant, kind: MoveKind)

  /** What became of one prior allocation. */
  datatype Verdict = Unchanged | Moved(record: MoveRecord) | Removed

  /** The allocations of a task proper, in order. */
  function CandidatesFor(current: seq<TaskAllocation>, t: TaskId): seq<TaskAllocation> {
    if current == [] then []
    else if current[0].kind.Task? && current[0].task == t then [current[0]] + CandidatesFor(current[1..], t)
    else CandidatesFor(current[1..], t)
  }

  predicate AllocationLeq(a: TaskAllocation, b: TaskAllocation) {
    a.start <= b.start
  }

  /** How one prior allocation fares against the task's allocations. */
  function Judge(a: PriorAllocation, candidates: seq<TaskAllocation>): Verdict {
    var sorted := Sort(AllocationLeq, candidates);
    if candidates == [] || sorted == [] then Removed
    else
      var first := sorted[0];
      if first.start == a.start && first.end >= a.end && |candidates| == 1 then
        if first.end == a.end then Unchanged else Moved(MoveRecord(a.task, a.start, first.start, Extend))
      else Moved(MoveRecord(a.task, a.start, first.start, Move))
  }

  function VerdictOf(current: seq<TaskAllocation>, a: PriorAllocation): Verdict {
    Judge(a, CandidatesFor(current, a.task))
  }

  function MovesOf(current: seq<TaskAllocation>, prior: seq<PriorAllocation>): seq<MoveRecord> {
    if prior == [] then []
    else
      match VerdictOf(current, prior[0])
      case Moved(record) => [record] + MovesOf(current, prior[1..])
      case _ => MovesOf(current, prior[1..])
  }

  function RemovedOf(current: seq<TaskAllocation>, prior: seq<PriorAllocation>): seq<TaskId> {
    if prior == [] then []
    else if VerdictOf(current, prior[0]).Removed? then [prior[0].task] + RemovedOf(current, prior[1..])
    else RemovedOf(current, prior[1..])
  }

  /** The current allocations grouped by task, as the dictionary holds them. */
  ghost predicate GroupedBy(groups: map<TaskId, seq<TaskAllocation>>, current: seq<TaskAllocation>) {
    forall t :: Group(groups, t) == CandidatesFor(current, t)
  }

  function Group(groups: map<TaskId, seq<TaskAllocation>>, t: TaskId): seq<TaskAllocation> {
    if t in groups then groups[t] else []
  }

  lemma {:induction false} CandidatesMore(current: seq<TaskAllocation>, a: TaskAllocation, t: TaskId)
    ensures CandidatesFor(current + [a], t) ==
      CandidatesFor(current, t) + (if a.kind.Task? && a.task == t then [a] else [])
    decreases |current|
  {
    if current == [] {
      assert current + [a] == [a] && [a][1..] == [];
    } else {
      assert (current + [a])[1..] == current[1..] + [a];
      CandidatesMore(current[1..], a, t);
    }
  }

  /** The loop that groups allocations by task. */
  method GroupByTask(current: seq<TaskAllocation>) returns (groups: map<TaskId, seq<TaskAllocation>>)
    ensures GroupedBy(groups, current)
  {
    groups := map[];
    for k := 0 to |current|
      invariant GroupedBy(groups, current[..k])
    {
      var a := current[k];
      ghost var before := groups;
      TakeOneMore(current, k);
      if a.kind.Task? {
        groups := groups[a.task := Group(groups, a.task) + [a]];
      }
      forall t
        ensures Group(groups, t) == CandidatesFor(current[..k + 1], t)
      {
        CandidatesMore(current[..k], a, t);
        assert Group(before, t) == CandidatesFor(current[..k], t);
      }
    }
    TakeAll(current);
  }

  datatype Diff = Diff(moves: seq<MoveRecord>, removed: seq<TaskId>)

  function DiffOf(prior: seq<PriorAllocation>, current: seq<TaskAllocation>): Diff {
    Diff(MovesOf(current, prior), RemovedOf(current, prior))
  }

  /** `diff_from_prior`; without a prior plan there is nothing to compare. */
  method DiffFromPrior(prior: seq<PriorAllocation>, current: seq<TaskAllocation>) returns (diff: Diff)
    ensures diff == DiffOf(prior, current)
  {
    var byTask := GroupByTask(current);
    var moves: seq<MoveRecord>, removed: seq<TaskId> := [], [];
    for k := 0 to |prior|
      invariant moves + MovesOf(current, prior[k..]) == MovesOf(current, prior)
      invariant removed + RemovedOf(current, prior[k..]) == RemovedOf(current, prior)
    {
      assert prior[k..][0] == prior[k] && prior[k..][1..] == prior[k + 1..];
      assert Group(byTask, prior[k].task) == CandidatesFor(current, prior[k].task);
      var verdict := Judge(prior[k], Group(byTask, prior[k].task));
      match verdict {
        case Unchanged =>
        case Moved(record) =>
          Regroup(moves, [record], MovesOf(current, prior[k + 1..]));
          moves := moves + [record];
        case Removed =>
          Regroup(removed, [prior[k].task], RemovedOf(current, prior[k + 1..]));
          removed := removed + [prior[k].task];
      }
    }
    diff := Diff(moves, removed);
  }

  // ---------------------------------------------------------------- the outcome

  datatype Reason = UserPinned | FreezeWindow

  datatype Proposal = Proposal(task: TaskId, reason: Reason, minutesDelta: int)

  datatype AppliedMove = AppliedMove(task: TaskId, oldStart: Instant, newStart: Instant, cost: int)

  function Abs(n: int): int {
    if n < 0 then -n else n
  }

  /** `move_cost`. */
  function MoveCost(oldStart: Instant, newStart: Instant): int {
    if UtcDay(oldStart) != UtcDay(newStart) then 40
    else if Abs(newStart - oldStart) >= 120 then 10
    else if newStart == oldStart then 0
    else 2
  }

  /** Why a move is not allowed, if it is not. */
  function Disallowed(x: PlannerInput, m: MoveRecord): Option<Reason> {
    if m.task in x.pinned then Some(UserPinned)
    else if Frozen(m.priorStart, x.now) then Some(FreezeWindow)
    else None
  }

  /** The start of the last prior allocation of a task. */
  function PriorStart(prior: seq<PriorAllocation>, t: TaskId, default: Instant): Instant
    decreases |prior|
  {
    if prior == [] then default
    else
      var last := prior[|prior| - 1];
      if last.task == t then last.start else PriorStart(prior[..|prior| - 1], t, default)
  }

  function AppliedFrom(x: PlannerInput, moves: seq<MoveRecord>): seq<AppliedMove> {
    if moves == [] then []
    else
      var m := moves[0];
      if Disallowed(x, m).None?
      then [AppliedMove(m.task, m.priorStart, m.newStart, MoveCost(m.priorStart, m.newStart))] + AppliedFrom(x, moves[1..])
      else AppliedFrom(x, moves[1..])
  }

  function MoveProposals(x: PlannerInput, moves: seq<MoveRecord>): seq<Proposal> {
    if moves == [] then []
    else
      var m := moves[0];
      match Disallowed(x, m)
      case None => MoveProposals(x, moves[1..])
      case Some(reason) =>
        [Proposal(m.task, reason, m.newStart - PriorStart(PriorOrNone(x), m.task, m.newStart))] +
        MoveProposals(x, moves[1..])
  }

  predicate HasProtected(x: PlannerInput, t: TaskId) {
    exists a :: a in ProtectedPrior(x) && a.task == t
  }

  function RemovalProposals(x: PlannerInput, removed: seq<TaskId>): seq<Proposal> {
    if removed == [] then []
    else if HasProtected(x, removed[0]) then
      [Proposal(removed[0], if removed[0] in x.pinned then UserPinned else FreezeWindow, 0)] +
      RemovalProposals(x, removed[1..])
    else RemovalProposals(x, removed[1..])
  }

  /** The fresh plan that ignores the prior one. */
  ghost function AfterBase(x: PlannerInput): ScheduleResult
    requires U.ContextOk(x.availability)
  {
    PassResult(x, [], [], BasePass)
  }

  ghost function DiffFor(x: PlannerInput): Diff
    requires U.ContextOk(x.availability)
  {
    DiffOf(PriorOrNone(x), AfterBase(x).allocations)
  }

  function ProposalsFor(x: PlannerInput, diff: Diff): seq<Proposal> {
    MoveProposals(x, diff.moves) + RemovalProposals(x, diff.removed)
  }

  ghost function Proposals(x: PlannerInput): seq<Proposal>
    requires U.ContextOk(x.availability)
  {
    ProposalsFor(x, DiffFor(x))
  }

  /** What the selected plan is given as preallocated. */
  ghost function SelectedPrior(x: PlannerInput): seq<PriorAllocation>
    requires U.ContextOk(x.availability)
  {
    if Proposals(x) != [] then ProtectedPrior(x) else []
  }

  datatype Outcome = Outcome(
    diff: Diff,
    applied: seq<AppliedMove>,
    changeCost: int,
    proposals: seq<Proposal>,
    selected: Passes)

  function TotalCost(applied: seq<AppliedMove>): int {
    if applied == [] then 0 else applied[0].cost + TotalCost(applied[1..])
  }

  /** The loop over moves. */
  method SplitMoves(x: PlannerInput, moves: seq<MoveRecord>)
    returns (applied: seq<AppliedMove>, proposals: seq<Proposal>, changeCost: int)
    ensures applied == AppliedFrom(x, moves) && proposals == MoveProposals(x, moves)
    ensures changeCost == TotalCost(applied)
  {
    applied, proposals, changeCost := [], [], 0;
    for k := 0 to |moves|
      invariant applied + AppliedFrom(x, moves[k..]) == AppliedFrom(x, moves)
      invariant proposals + MoveProposals(x, moves[k..]) == MoveProposals(x, moves)
      invariant changeCost + TotalCost(AppliedFrom(x, moves[k..])) == TotalCost(AppliedFrom(x, moves))
    {
      var m := moves[k];
      assert moves[k..][0] == m && moves[k..][1..] == moves[k + 1..];
      if Disallowed(x, m).Some? {
        var p := Proposal(m.task, Disallowed(x, m).value, m.newStart - PriorStart(PriorOrNone(x), m.task, m.newStart));
        Regroup(proposals, [p], MoveProposals(x, moves[k + 1..]));
        proposals := proposals + [p];
        continue;
      }
      var cost := MoveCost(m.priorStart, m.newStart);
      var a := AppliedMove(m.task, m.priorStart, m.newStart, cost);
      Regroup(applied, [a], AppliedFrom(x, moves[k + 1..]));
      applied := applied + [a];
      changeCost := changeCost + cost;
    }
  }

  /** The loop over removed tasks. */
  method ProposeRemovals(x: PlannerInput, removed: seq<TaskId>) returns (proposals: seq<Proposal>)
    ensures proposals == RemovalProposals(x, removed)
  {
    proposals := [];
    for k := 0 to |removed|
      invariant proposals + RemovalProposals(x, removed[k..]) == RemovalProposals(x, removed)
    {
      var t := removed[k];
      assert removed[k..][0] == t && removed[k..][1..] == removed[k + 1..];
      if HasProtected(x, t) {
        var p := Proposal(t, if t in x.pinned then UserPinned else FreezeWindow, 0);
        Regroup(proposals, [p], RemovalProposals(x, removed[k + 1..]));
        proposals := proposals + [p];
      }
    }
  }

  /** `replan`, without its before and after metrics. */
  method Replan(x: PlannerInput) returns (result: Option<Outcome>)
    requires U.ContextOk(x.availability)
    ensures result.None? <==> C.HasNilPredecessor(x.dependencies)
    ensures result.Some? ==> result.value.selected.base == PassResult(x, [], SelectedPrior(x), BasePass)
    ensures result.Some? ==> IsOutcome(x, result.value)
  {
    var after := RunPlanningPasses(x, [], []);
    if after.None? {
      return None;
    }
    var diff := DiffFromPrior(PriorOrNone(x), after.value.base.allocations);
    var applied, moveProposals, changeCost := SplitMoves(x, diff.moves);
    var removals := ProposeRemovals(x, diff.removed);
    var proposals := moveProposals + removals;
    var selected := after;
    if proposals != [] {
      selected := RunPlanningPasses(x, [], ProtectedPrior(x));
    }
    result := Some(Outcome(diff, applied, changeCost, proposals, selected.value));
  }

  ghost predicate IsOutcome(x: PlannerInput, outcome: Outcome)
    requires U.ContextOk(x.availability)
  {
    && outcome.diff == DiffFor(x) && outcome.proposals == Proposals(x)
    && outcome.applied == AppliedFrom(x, DiffFor(x).moves) && outcome.changeCost == TotalCost(outcome.applied)
    && ArePasses(x, [], SelectedPrior(x), outcome.selected)
  }
}
