/** The verdict on a milestone case by case, and what the sums it is read off count. */
module RiskOutcomes {
  import opened Domain
  import opened Ledger
  import opened Placement
  import opened SerialSchedule
  import opened PlanningInput
  import opened GraphAnalysis
  import opened PlanningPasses
  import opened Risk
  import opened RiskTheorems
  import U = UniqueSlots
  import C = CycleDetection
  import R = Reachability

  // ---------------------------------------------------------------- members

  /** An unfinished task of the milestone. */
  ghost predicate Belongs(x: PlannerInput, m: Milestone, t: TaskSnapshot) {
    t in x.tasks && t.milestone == Some(m.id) && t.status != Done && t.status != Cancelled
  }

  /** Task `to` waits for task `from`, for its start or for its completion. */
  ghost predicate Blocks(x: PlannerInput, from: TaskId, to: TaskId) {
    TaskDependency(from, to, BlocksStart) in x.dependencies || TaskDependency(from, to, BlocksCompletion) in x.dependencies
  }

  /** A walk over blocking dependencies. */
  ghost predicate Walk(x: PlannerInput, path: seq<TaskId>)
    decreases |path|
  {
    path != [] && (|path| > 1 ==> Blocks(x, path[0], path[1]) && Walk(x, path[1..]))
  }

  /** Some walk over blocking dependencies comes back to the task. */
  ghost predicate BlocksItself(x: PlannerInput, t: TaskId) {
    exists path :: Walk(x, path) && |path| > 1 && path[0] == t && path[|path| - 1] == t
  }

  lemma EdgesAre(x: PlannerInput, from: TaskId, to: TaskId)
    ensures from in C.BlockingGraph(x.dependencies) && to in C.BlockingGraph(x.dependencies)[from] <==> Blocks(x, from, to)
    ensures Blocks(x, from, to) ==> to in C.BlockingGraph(x.dependencies)
  {
    var deps := x.dependencies;
    if Blocks(x, from, to) {
      var d := if TaskDependency(from, to, BlocksStart) in deps then TaskDependency(from, to, BlocksStart)
               else TaskDependency(from, to, BlocksCompletion);
      assert d in deps && C.IsCycleEdge(d);
    }
  }

  lemma {:induction false} WalkIsPath(x: PlannerInput, path: seq<TaskId>)
    requires path != [] && path[0] in C.BlockingGraph(x.dependencies)
    ensures Walk(x, path) <==> R.IsPath(C.BlockingGraph(x.dependencies), path)
    decreases |path|
  {
    if |path| > 1 {
      EdgesAre(x, path[0], path[1]);
      if Blocks(x, path[0], path[1]) {
        WalkIsPath(x, path[1..]);
      }
    }
  }

  lemma ItselfIsCycle(x: PlannerInput, t: TaskId)
    ensures BlocksItself(x, t) <==> R.OnCycle(C.BlockingGraph(x.dependencies), t)
  {
    var g := C.BlockingGraph(x.dependencies);
    if R.OnCycle(g, t) {
      var y :| y in g[t] && R.Reaches(g, y, t);
      var p :| R.IsPath(g, p) && p[0] == y && p[|p| - 1] == t;
      var path := [t] + p;
      assert path[1..] == p;
      WalkIsPath(x, path);
    }
    if path :| Walk(x, path) && |path| > 1 && path[0] == t && path[|path| - 1] == t {
      EdgesAre(x, t, path[1]);
      WalkIsPath(x, path);
      var rest := path[1..];
      assert R.IsPath(g, rest) && rest[0] == path[1] && rest[|rest| - 1] == t;
      assert R.Reaches(g, path[1], t);
    }
  }

  /** An unfinished task of the milestone is on a cycle of blocking dependencies. */
  ghost predicate Tangled(x: PlannerInput, m: Milestone) {
    exists t :: Belongs(x, m, t) && BlocksItself(x, t.id)
  }

  lemma TangledIs(x: PlannerInput, base: ScheduleResult, safety: ScheduleResult, m: Milestone)
    ensures CoverageOf(x, base, safety, m).hasCycleMember <==> Tangled(x, m)
  {
    var wants := MemberWants(x.tasks, m, BasePass);
    if id :| id in WantIds(wants) * AnalysisOf(x).blocked {
      var w :| w in wants && w.id == id;
      MemberWantsFrom(x.tasks, m, BasePass, w);
      var t :| t in x.tasks && IsMember(t, m) && w == Want(t.id, Remaining(t, BasePass));
      ItselfIsCycle(x, id);
      assert Belongs(x, m, t);
    }
    if t :| Belongs(x, m, t) && BlocksItself(x, t.id) {
      ItselfIsCycle(x, t.id);
      var w := Want(t.id, Remaining(t, BasePass));
      MemberWantsFrom(x.tasks, m, BasePass, w);
      assert w.id in WantIds(wants);
      assert t.id in C.Endpoints(x.dependencies);
      assert t.id in WantIds(wants) * AnalysisOf(x).blocked;
    }
  }

  // ---------------------------------------------------------------- the verdict

  /** The sums behind a verdict: what is needed and what is placed in time, for base work, safety work and buffers. */
  datatype Sums = Sums(baseNeed: int, basePlaced: int, safetyNeed: int, safetyPlaced: int, bufferNeed: int, bufferPlaced: int)

  ghost function SumsOf(x: PlannerInput, base: ScheduleResult, safety: ScheduleResult, m: Milestone): Sums {
    var c := CoverageOf(x, base, safety, m);
    Sums(c.baseRequired, c.baseAllocated, c.safetyRequired, c.safetyAllocated, c.bufferRequired, c.buffersAllocated)
  }

  /**
   The verdict, case by case and in this order: a cycle is critical; a deadline of which only the date is known, or
   none at all, leaves the level unknown; then missing base work is critical, missing safety work or buffers high, and
   the slack decides between medium and low. The slack is reported with these two alone.
   */
  ghost predicate VerdictIs(x: PlannerInput, m: Milestone, s: Sums, slack: int, a: Assessment)
    requires U.ContextOk(x.availability)
  {
    if Tangled(x, m) then a == Assessment(Critical, None, Some(CycleBlocksRequiredPath))
    else if m.dateOnly then a == Assessment(Unknown, None, Some(DateOnlyDeadline))
    else if m.limit == None then a == Assessment(Unknown, None, Some(MissingDeadline))
    else if s.baseNeed > 0 && s.basePlaced < s.baseNeed then a == Assessment(Critical, None, Some(BaseBelowOne))
    else if s.safetyNeed + s.bufferNeed > 0 && s.safetyPlaced + s.bufferPlaced < s.safetyNeed + s.bufferNeed
    then a == Assessment(High, None, Some(SafetyBelowOne))
    else if s.bufferPlaced < s.bufferNeed then a == Assessment(High, None, Some(BufferUnallocated))
    else if slack < MediumThreshold(s.safetyNeed + s.bufferNeed, x.availability.slotMinutes)
    then a == Assessment(Medium, Some(slack), Some(SlackBelowThreshold))
    else a == Assessment(Low, Some(slack), None)
  }

  lemma VerdictExactly(x: PlannerInput, base: ScheduleResult, safety: ScheduleResult, m: Milestone)
    requires U.ContextOk(x.availability)
    ensures VerdictIs(x, m, SumsOf(x, base, safety, m), FreeSlack(x, safety.slots, m.limit),
                      AssessmentOf(x, base, safety, m))
  {
    TangledIs(x, base, safety, m);
  }

  /** A milestone without a deadline time is unknown, or critical for a cycle, and never looks safe. */
  lemma UntimedIsNeverLow(x: PlannerInput, base: ScheduleResult, safety: ScheduleResult, m: Milestone)
    requires U.ContextOk(x.availability) && (m.dateOnly || m.limit == None)
    ensures AssessmentOf(x, base, safety, m).level == if Tangled(x, m) then Critical else Unknown
  {
    VerdictExactly(x, base, safety, m);
  }

  // ---------------------------------------------------------------- the sums

  /** Each allocation of a member that ends in time counts its minutes, and no other counts. */
  lemma {:induction false} PlacedCounts(allocations: seq<TaskAllocation>, a: TaskAllocation, members: set<TaskId>,
                                        limit: Option<Instant>)
    ensures MinutesBefore([], members, limit) == 0
    ensures MinutesBefore(allocations + [a], members, limit) == MinutesBefore(allocations, members, limit) +
      (if a.task in members && (limit == None || a.end <= limit.value) then a.end - a.start else 0)
    decreases |allocations|
  {
    if allocations == [] {
      assert allocations + [a] == [a] && [a][1..] == [];
    } else {
      assert (allocations + [a])[1..] == allocations[1..] + [a];
      PlacedCounts(allocations[1..], a, members, limit);
    }
  }

  /** What some tasks need in a pass, the unfinished ones of the milestone counted. */
  lemma {:induction false} NeedCounts(tasks: seq<TaskSnapshot>, t: TaskSnapshot, m: Milestone, pass: PassType)
    ensures SumWants(MemberWants([], m, pass)) == 0
    ensures SumWants(MemberWants(tasks + [t], m, pass)) == SumWants(MemberWants(tasks, m, pass)) +
      (if t.milestone == Some(m.id) && t.status != Done && t.status != Cancelled
       then (if pass == BasePass then t.remainingBase else t.remainingSafety) else 0)
    ensures WantIds(MemberWants(tasks + [t], m, pass)) == WantIds(MemberWants(tasks, m, pass)) +
      (if t.milestone == Some(m.id) && t.status != Done && t.status != Cancelled then {t.id} else {})
    decreases |tasks|
  {
    if tasks == [] {
      assert tasks + [t] == [t] && [t][1..] == [];
      assert WantIds([]) == {};
      if IsMember(t, m) {
        OneWant(Want(t.id, Remaining(t, pass)));
      }
    } else {
      assert (tasks + [t])[1..] == tasks[1..] + [t];
      NeedCounts(tasks[1..], t, m, pass);
      if IsMember(tasks[0], m) {
        WantsTail(MemberWants(tasks, m, pass));
        WantsTail(MemberWants(tasks + [t], m, pass));
      }
    }
  }

  lemma OneWant(w: Want)
    ensures SumWants([w]) == w.minutes && WantIds([w]) == {w.id}
  {
    assert [w][1..] == [];
  }

  /** Each free slot between now and the limit counts its minutes to the slack, and no other counts. */
  lemma {:induction false} SlackCounts(slots: seq<LedgerSlot>, s: LedgerSlot, now: Instant, limit: Instant)
    ensures SpareMinutes([], now, limit) == 0
    ensures SpareMinutes(slots + [s], now, limit) == SpareMinutes(slots, now, limit) +
      (if s.free && now <= s.start && s.end <= limit then s.end - s.start else 0)
    decreases |slots|
  {
    if slots == [] {
      assert slots + [s] == [s] && [s][1..] == [];
    } else {
      assert (slots + [s])[1..] == slots[1..] + [s];
      SlackCounts(slots[1..], s, now, limit);
    }
  }

  ghost predicate Lasting(slots: seq<LedgerSlot>) {
    forall i :: 0 <= i < |slots| ==> slots[i].start < slots[i].end
  }

  lemma {:induction false} NothingBetween(slots: seq<LedgerSlot>, now: Instant, limit: Instant)
    requires Lasting(slots) && limit <= now
    ensures SpareMinutes(slots, now, limit) == 0
    decreases |slots|
  {
    if slots != [] {
      assert slots[0].start < slots[0].end;
      assert forall i :: 0 <= i < |slots[1..]| ==> slots[1..][i] == slots[i + 1];
      NothingBetween(slots[1..], now, limit);
    }
  }

  /** The slack is what lies free between now and the limit; without a limit there is none. */
  lemma SlackIs(x: PlannerInput, slots: seq<LedgerSlot>, limit: Option<Instant>)
    requires Lasting(slots)
    ensures limit == None ==> FreeSlack(x, slots, limit) == 0
    ensures limit != None ==> FreeSlack(x, slots, limit) == SpareMinutes(slots, x.now, limit.value)
  {
    if limit.Some? && limit.value <= x.now {
      NothingBetween(slots, x.now, limit.value);
    }
  }
}
