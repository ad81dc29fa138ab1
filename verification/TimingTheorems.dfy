/** Latest starts and unlock counts in terms of the planner's own tasks, milestones and dependencies. */
module TimingTheorems {
  import opened Domain
  import opened PlanningInput
  import opened GraphAnalysis
  import opened PlanningFacts
  import P = CriticalPath
  import R = Reachability

  // ---------------------------------------------------------------- the input's own terms

  ghost predicate Unfinished(t: TaskSnapshot) {
    t.status != Done && t.status != Cancelled
  }

  /** Task `s` is unfinished and may start only when `t` is done. */
  ghost predicate Unlocks(x: PlannerInput, t: TaskSnapshot, s: TaskSnapshot) {
    s in x.tasks && Unfinished(s) && TaskDependency(t.id, s.id, BlocksStart) in x.dependencies
  }

  /** The tasks that wait for the task with an id. */
  ghost function WaitFor(x: PlannerInput, id: TaskId): set<TaskId> {
    set s | s in x.tasks && Unfinished(s) && TaskDependency(id, s.id, BlocksStart) in x.dependencies :: s.id
  }

  ghost function WaitingGraph(x: PlannerInput): R.Graph {
    map t | t in x.tasks :: t.id := WaitFor(x, t.id)
  }

  /** No chain of waiting tasks from `id` comes back on itself. */
  ghost predicate NoCycleAhead(x: PlannerInput, id: TaskId) {
    forall y :: R.Reaches(WaitingGraph(x), id, y) ==> !R.OnCycle(WaitingGraph(x), y)
  }

  /** An instant the task must be finished by, whatever waits for it. */
  ghost predicate OwnLimit(x: PlannerInput, t: TaskSnapshot, e: Instant) {
    || e == x.horizon
    || t.deadline == Some(e)
    || (t.deadline == None && t.dateBoundary == Some(e))
    || exists m :: m in x.milestones && Some(m.id) == t.milestone && m.limit == Some(e + Max(0, m.requiredBuffer))
  }

  // ---------------------------------------------------------------- the project

  lemma {:induction false} LimitsOfMilestones(milestones: seq<Milestone>, id: MilestoneId, e: Instant)
    requires MilestonesDistinct(milestones)
    ensures (id in LimitsOf(milestones) && LimitsOf(milestones)[id] == e) <==>
            exists m :: m in milestones && m.id == id && m.limit == Some(e + Max(0, m.requiredBuffer))
    decreases |milestones|
  {
    if milestones != [] {
      var n := |milestones| - 1;
      var last, before := milestones[n], milestones[..n];
      assert milestones == before + [last];
      LimitsOfMilestones(before, id, e);
      OneMilestone(milestones, last);
    }
  }

  lemma OneMilestone(milestones: seq<Milestone>, last: Milestone)
    requires MilestonesDistinct(milestones) && milestones != [] && last == milestones[|milestones| - 1]
    ensures forall m :: m in milestones[..|milestones| - 1] ==> m.id != last.id
  {
    var before := milestones[..|milestones| - 1];
    forall m | m in before
      ensures m.id != last.id
    {
      var i :| 0 <= i < |before| && before[i] == m;
      assert milestones[i] == m;
    }
  }

  lemma OwnLimitsAre(x: PlannerInput, t: TaskSnapshot, e: Instant)
    requires TasksDistinct(x.tasks) && MilestonesDistinct(x.milestones) && t in x.tasks
    ensures t.id in ProjectOf(x).nodes && ProjectOf(x).nodes[t.id] == NodeOf(t)
    ensures e in P.OwnLimits(ProjectOf(x), t.id) <==> OwnLimit(x, t, e)
  {
    NodesOfMember(x.tasks, t);
    if t.milestone.Some? {
      LimitsOfMilestones(x.milestones, t.milestone.value, e);
    }
  }

  lemma SuccessorsAre(x: PlannerInput, id: TaskId)
    requires TasksDistinct(x.tasks)
    ensures P.ActiveSuccessors(ProjectOf(x), id) == WaitFor(x, id)
  {
    var p := ProjectOf(x);
    forall s
      ensures s in P.ActiveSuccessors(p, id) <==> s in WaitFor(x, id)
    {
      NodesOfKeys(x.tasks, s);
      if u :| u in x.tasks && u.id == s {
        NodesOfMember(x.tasks, u);
        SameTask(x.tasks, u);
      }
    }
  }

  lemma SameTask(tasks: seq<TaskSnapshot>, u: TaskSnapshot)
    requires TasksDistinct(tasks) && u in tasks
    ensures forall v :: v in tasks && v.id == u.id ==> v == u
  {
    var i :| 0 <= i < |tasks| && tasks[i] == u;
    forall v | v in tasks && v.id == u.id
      ensures v == u
    {
      var j :| 0 <= j < |tasks| && tasks[j] == v;
    }
  }

  lemma GraphIs(x: PlannerInput)
    requires TasksDistinct(x.tasks)
    ensures P.StartGraph(ProjectOf(x)) == WaitingGraph(x)
  {
    var g, h := P.StartGraph(ProjectOf(x)), WaitingGraph(x);
    forall id
      ensures id in g <==> id in h
      ensures id in g ==> g[id] == h[id]
    {
      NodesOfKeys(x.tasks, id);
      SuccessorsAre(x, id);
    }
    assert g.Keys == h.Keys;
  }

  // ---------------------------------------------------------------- one step of the recursion, on any graph

  /** What a successor leaves: its recorded finish less its minutes, or the horizon less its minutes on a cycle. */
  ghost predicate LeftBy(p: P.Project, memo: map<TaskId, Instant>, s: TaskId, limit: Instant) {
    || (s in memo && limit == memo[s] - P.SafetyMinutes(p, s))
    || limit == p.horizon - P.SafetyMinutes(p, s)
  }

  /** A recorded finish is the least of the task's own limits and of what each of its successors leaves. */
  ghost predicate LocalAt(p: P.Project, memo: map<TaskId, Instant>, y: TaskId, t: Instant) {
    && y in p.nodes && t <= P.Least(P.OwnLimits(p, y))
    && (forall s :: s in P.ActiveSuccessors(p, y) ==> exists l :: LeftBy(p, memo, s, l) && t <= l)
    && (t == P.Least(P.OwnLimits(p, y)) || exists s :: s in P.ActiveSuccessors(p, y) && LeftBy(p, memo, s, t))
  }

  ghost predicate Local(p: P.Project, memo: map<TaskId, Instant>) {
    forall y {:trigger memo[y]} :: y in memo ==> LocalAt(p, memo, y, memo[y])
  }

  lemma LocalGrows(p: P.Project, memo: map<TaskId, Instant>, after: map<TaskId, Instant>, y: TaskId, t: Instant)
    requires P.Grown(memo, after) && LocalAt(p, memo, y, t)
    ensures LocalAt(p, after, y, t)
  {
    forall s | s in P.ActiveSuccessors(p, y)
      ensures exists l :: LeftBy(p, after, s, l) && t <= l
    {
      var l :| LeftBy(p, memo, s, l) && t <= l;
      assert LeftBy(p, after, s, l);
    }
    if t != P.Least(P.OwnLimits(p, y)) {
      var s :| s in P.ActiveSuccessors(p, y) && LeftBy(p, memo, s, t);
      assert LeftBy(p, after, s, t);
    }
  }

  ghost predicate LimitsLocal(p: P.Project, memo: map<TaskId, Instant>, succ: seq<TaskId>, limits: seq<Instant>) {
    && |limits| == |succ|
    && forall j {:trigger limits[j]} :: 0 <= j < |succ| ==> LeftBy(p, memo, succ[j], limits[j])
  }

  lemma LeastIsLocal(p: P.Project, memo: map<TaskId, Instant>, x: TaskId, succ: seq<TaskId>, limits: seq<Instant>)
    requires x in p.nodes && LimitsLocal(p, memo, succ, limits)
    requires forall s :: s in succ <==> s in P.ActiveSuccessors(p, x)
    ensures LocalAt(p, memo, x, P.Least(P.OwnLimits(p, x) + limits))
  {
    var t := P.Least(P.OwnLimits(p, x) + limits);
    P.LeastOfBoth(P.OwnLimits(p, x), limits);
    forall s | s in P.ActiveSuccessors(p, x)
      ensures exists l :: LeftBy(p, memo, s, l) && t <= l
    {
      var j :| 0 <= j < |succ| && succ[j] == s;
      assert LeftBy(p, memo, succ[j], limits[j]);
    }
    if t != P.Least(P.OwnLimits(p, x)) {
      var j :| 0 <= j < |limits| && limits[j] == t;
      assert succ[j] in succ && LeftBy(p, memo, succ[j], limits[j]);
    }
  }

  /** A memo of local finishes, none for a task being visited. */
  ghost predicate Consistent(p: P.Project, memo: map<TaskId, Instant>, visiting: set<TaskId>) {
    Local(p, memo) && visiting <= p.nodes.Keys && visiting !! memo.Keys
  }

  lemma {:induction false} ResolvedLocal(p: P.Project, x: TaskId, memo: map<TaskId, Instant>, visiting: set<TaskId>)
    requires x in p.nodes && Consistent(p, memo, visiting)
    ensures var (t, after) := P.Resolved(p, x, memo, visiting);
      && Consistent(p, after, visiting) && P.Grown(memo, after)
      && LeftBy(p, after, x, t - P.SafetyMinutes(p, x)) && (x in visiting || x in after)
    decreases |p.nodes.Keys - visiting|, 0
  {
    if x !in memo && x !in visiting {
      assert p.nodes.Keys - (visiting + {x}) == (p.nodes.Keys - visiting) - {x};
      var succ := SortedIds(P.ActiveSuccessors(p, x));
      LimitsAreLocal(p, succ, memo, visiting + {x});
      ResolvedRecords(p, x, memo, visiting, succ);
    }
  }

  lemma ResolvedRecords(p: P.Project, x: TaskId, memo: map<TaskId, Instant>, visiting: set<TaskId>, succ: seq<TaskId>)
    requires x in p.nodes && visiting <= p.nodes.Keys && x !in memo && x !in visiting
    requires succ == SortedIds(P.ActiveSuccessors(p, x)) && forall s :: s in succ ==> s in p.nodes
    requires var (limits, after) := P.SuccessorLimits(p, succ, memo, visiting + {x});
      Consistent(p, after, visiting + {x}) && P.Grown(memo, after) && LimitsLocal(p, after, succ, limits)
    ensures var (t, after) := P.Resolved(p, x, memo, visiting);
      && Consistent(p, after, visiting) && P.Grown(memo, after)
      && LeftBy(p, after, x, t - P.SafetyMinutes(p, x)) && x in after
  {
    var (limits, before) := P.SuccessorLimits(p, succ, memo, visiting + {x});
    var t := P.Least(P.OwnLimits(p, x) + limits);
    var after := before[x := t];
    LeastIsLocal(p, before, x, succ, limits);
    LocalGrows(p, before, after, x, t);
    forall y | y in after
      ensures LocalAt(p, after, y, after[y])
    {
      if y != x {
        assert LocalAt(p, before, y, before[y]);
        LocalGrows(p, before, after, y, before[y]);
      }
    }
  }

  lemma {:induction false} LimitsAreLocal(p: P.Project, succ: seq<TaskId>, memo: map<TaskId, Instant>,
                                          visiting: set<TaskId>)
    requires (forall s :: s in succ ==> s in p.nodes) && Consistent(p, memo, visiting)
    ensures var (limits, after) := P.SuccessorLimits(p, succ, memo, visiting);
      Consistent(p, after, visiting) && P.Grown(memo, after) && LimitsLocal(p, after, succ, limits)
    decreases |p.nodes.Keys - visiting|, |succ| + 1
  {
    if succ != [] {
      ResolvedLocal(p, succ[0], memo, visiting);
      var (t, next) := P.Resolved(p, succ[0], memo, visiting);
      LimitsAreLocal(p, succ[1..], next, visiting);
      LimitsCons(p, succ, memo, visiting);
    }
  }

  lemma LimitsCons(p: P.Project, succ: seq<TaskId>, memo: map<TaskId, Instant>, visiting: set<TaskId>)
    requires succ != [] && (forall s :: s in succ ==> s in p.nodes) && visiting <= p.nodes.Keys
    requires var (t, next) := P.Resolved(p, succ[0], memo, visiting);
      var (limits, after) := P.SuccessorLimits(p, succ[1..], next, visiting);
      && P.Grown(memo, next) && P.Grown(next, after)
      && LeftBy(p, next, succ[0], t - P.SafetyMinutes(p, succ[0])) && LimitsLocal(p, after, succ[1..], limits)
    ensures var (limits, after) := P.SuccessorLimits(p, succ, memo, visiting);
      P.Grown(memo, after) && LimitsLocal(p, after, succ, limits)
  {
    var (t, next) := P.Resolved(p, succ[0], memo, visiting);
    var (rest, after) := P.SuccessorLimits(p, succ[1..], next, visiting);
    var limits := [t - P.SafetyMinutes(p, succ[0])] + rest;
    forall j | 0 <= j < |succ|
      ensures LeftBy(p, after, succ[j], limits[j])
    {
      if j > 0 {
        assert LeftBy(p, after, succ[1..][j - 1], rest[j - 1]);
      }
    }
  }

  lemma {:induction false} AllLocal(p: P.Project, ids: seq<TaskId>, memo: map<TaskId, Instant>)
    requires (forall s :: s in ids ==> s in p.nodes) && Consistent(p, memo, {})
    ensures var after := P.ResolvedAll(p, ids, memo);
      Consistent(p, after, {}) && P.Grown(memo, after) && forall s :: s in ids ==> s in after
    decreases |ids|
  {
    if ids != [] {
      ResolvedLocal(p, ids[0], memo, {});
      AllLocal(p, ids[1..], P.Resolved(p, ids[0], memo, {}).1);
    }
  }

  lemma FinishTimesLocal(p: P.Project, y: TaskId)
    requires y in p.nodes
    ensures y in P.FinishTimes(p) && LocalAt(p, P.FinishTimes(p), y, P.FinishTimes(p)[y])
  {
    AllLocal(p, SortedIds(p.nodes.Keys), map[]);
    assert y in SortedIds(p.nodes.Keys);
  }

  // ---------------------------------------------------------------- latest starts

  ghost function LatestStart(x: PlannerInput, id: TaskId): Instant
    requires id in AnalysisOf(x).mustStartBy
  {
    AnalysisOf(x).mustStartBy[id]
  }

  /** When `t` must be finished. */
  ghost function FinishBy(x: PlannerInput, t: TaskSnapshot): Instant
    requires t.id in AnalysisOf(x).mustStartBy
  {
    LatestStart(x, t.id) + t.safetyMinutes
  }

  lemma StartsAre(x: PlannerInput, t: TaskSnapshot)
    requires TasksDistinct(x.tasks) && t in x.tasks
    ensures t.id in AnalysisOf(x).mustStartBy && t.id in P.FinishTimes(ProjectOf(x))
    ensures FinishBy(x, t) == P.FinishTimes(ProjectOf(x))[t.id]
    ensures P.SafetyMinutes(ProjectOf(x), t.id) == t.safetyMinutes
  {
    NodesOfMember(x.tasks, t);
    FinishTimesLocal(ProjectOf(x), t.id);
  }

  /** Every task, on a cycle or not, must start early enough for each limit of its own. */
  lemma OwnLimitsHold(x: PlannerInput, t: TaskSnapshot, e: Instant)
    requires TasksDistinct(x.tasks) && MilestonesDistinct(x.milestones) && t in x.tasks
    ensures t.id in AnalysisOf(x).mustStartBy && (OwnLimit(x, t, e) ==> FinishBy(x, t) <= e)
  {
    StartsAre(x, t);
    FinishTimesLocal(ProjectOf(x), t.id);
    OwnLimitsAre(x, t, e);
  }

  /** The latest start of the waiting task, or on a cycle possibly what the horizon leaves it. */
  ghost predicate LeavesFor(x: PlannerInput, s: TaskSnapshot, e: Instant)
    requires s.id in AnalysisOf(x).mustStartBy
  {
    e == LatestStart(x, s.id) || e == x.horizon - s.safetyMinutes
  }

  lemma LeavesAre(x: PlannerInput, s: TaskSnapshot, e: Instant)
    requires TasksDistinct(x.tasks) && s in x.tasks
    ensures s.id in AnalysisOf(x).mustStartBy
    ensures LeftBy(ProjectOf(x), P.FinishTimes(ProjectOf(x)), s.id, e) <==> LeavesFor(x, s, e)
  {
    StartsAre(x, s);
  }

  /** Every waiting task is a task of the input. */
  lemma WaitingTask(x: PlannerInput, t: TaskSnapshot, id: TaskId) returns (s: TaskSnapshot)
    requires TasksDistinct(x.tasks) && id in P.ActiveSuccessors(ProjectOf(x), t.id)
    ensures s.id == id && s in x.tasks && Unlocks(x, t, s)
  {
    SuccessorsAre(x, t.id);
    s :| s in x.tasks && Unfinished(s) && TaskDependency(t.id, s.id, BlocksStart) in x.dependencies && s.id == id;
  }

  lemma UnlocksWaiting(x: PlannerInput, t: TaskSnapshot, s: TaskSnapshot)
    requires TasksDistinct(x.tasks) && Unlocks(x, t, s)
    ensures s.id in P.ActiveSuccessors(ProjectOf(x), t.id)
  {
    SuccessorsAre(x, t.id);
  }

  /** A task must be finished by a limit of its own, or when a task that waits for it must start, on every graph. */
  ghost predicate SomeLimit(x: PlannerInput, t: TaskSnapshot, e: Instant)
    requires TasksDistinct(x.tasks)
  {
    OwnLimit(x, t, e) || exists s :: Unlocks(x, t, s) && s.id in AnalysisOf(x).mustStartBy && LeavesFor(x, s, e)
  }

  /**
   On every graph: a task must be finished by each limit of its own; before each task that waits for it must start, or
   by what the horizon leaves that task; and by one of these exactly.
   */
  lemma LatestStartLocal(x: PlannerInput, t: TaskSnapshot)
    requires TasksDistinct(x.tasks) && MilestonesDistinct(x.milestones) && t in x.tasks
    ensures t.id in AnalysisOf(x).mustStartBy && SomeLimit(x, t, FinishBy(x, t))
    ensures forall s :: Unlocks(x, t, s) ==>
      s.id in AnalysisOf(x).mustStartBy && exists e :: LeavesFor(x, s, e) && FinishBy(x, t) <= e
  {
    var p := ProjectOf(x);
    var finish := P.FinishTimes(p);
    StartsAre(x, t);
    FinishTimesLocal(p, t.id);
    OwnLimitsAre(x, t, FinishBy(x, t));
    forall s | Unlocks(x, t, s)
      ensures s.id in AnalysisOf(x).mustStartBy && exists e :: LeavesFor(x, s, e) && FinishBy(x, t) <= e
    {
      UnlocksWaiting(x, t, s);
      var l :| LeftBy(p, finish, s.id, l) && finish[t.id] <= l;
      LeavesAre(x, s, l);
    }
    if finish[t.id] != P.Least(P.OwnLimits(p, t.id)) {
      var id :| id in P.ActiveSuccessors(p, t.id) && LeftBy(p, finish, id, finish[t.id]);
      var s := WaitingTask(x, t, id);
      LeavesAre(x, s, finish[t.id]);
    }
  }

  /** The finish of a task before no cycle is bounded by its successors' starts, and attained. */
  lemma AcyclicStep(p: P.Project, y: TaskId)
    requires y in p.nodes && P.Acyclic(p, y)
    ensures var f := P.FinishTimes(p);
      && y in f && f[y] <= P.Least(P.OwnLimits(p, y))
      && (forall s :: s in P.ActiveSuccessors(p, y) ==> s in f && f[y] <= f[s] - P.SafetyMinutes(p, s))
      && (f[y] == P.Least(P.OwnLimits(p, y)) ||
          exists s :: s in P.ActiveSuccessors(p, y) && s in f && f[y] == f[s] - P.SafetyMinutes(p, s))
  {
    var f := P.FinishTimes(p);
    P.FinishTimesRight(p);
    assert P.RightAt(p, f, y);
    P.LatestFinishFeasible(p, y, f[y]);
    forall s | s in P.ActiveSuccessors(p, y)
      ensures s in f && P.IsLatestFinish(p, s, f[s])
    {
      P.AcyclicSuccessor(p, y, s);
      assert P.RightAt(p, f, s);
    }
    var path :| R.IsPath(P.StartGraph(p), path) && path[0] == y && f[y] == P.PathLimit(p, path);
    if |path| > 1 {
      var s := path[1];
      assert s in P.ActiveSuccessors(p, y);
      assert f[s] <= P.PathLimit(p, path[1..]);
    }
  }

  /** A task must be finished by a limit of its own, or when a task that waits for it must start. */
  ghost predicate ExactLimit(x: PlannerInput, t: TaskSnapshot, e: Instant) {
    OwnLimit(x, t, e) || exists s :: Unlocks(x, t, s) && s.id in AnalysisOf(x).mustStartBy && e == LatestStart(x, s.id)
  }

  /** What the finish of a task with no cycle ahead is: the least of its own limits, or what one successor leaves. */
  lemma LimitFrom(x: PlannerInput, t: TaskSnapshot) returns (id: Option<TaskId>)
    requires TasksDistinct(x.tasks) && t in x.tasks && NoCycleAhead(x, t.id)
    ensures t.id in AnalysisOf(x).mustStartBy && t.id in ProjectOf(x).nodes
    ensures id.None? ==> FinishBy(x, t) in P.OwnLimits(ProjectOf(x), t.id)
    ensures id.Some? ==> id.value in P.ActiveSuccessors(ProjectOf(x), t.id) && id.value in P.FinishTimes(ProjectOf(x))
    ensures id.Some? ==>
      FinishBy(x, t) == P.FinishTimes(ProjectOf(x))[id.value] - P.SafetyMinutes(ProjectOf(x), id.value)
  {
    var p := ProjectOf(x);
    GraphIs(x);
    StartsAre(x, t);
    AcyclicStep(p, t.id);
    var f := P.FinishTimes(p);
    if f[t.id] == P.Least(P.OwnLimits(p, t.id)) {
      id := None;
    } else {
      var s :| s in P.ActiveSuccessors(p, t.id) && s in f && f[t.id] == f[s] - P.SafetyMinutes(p, s);
      id := Some(s);
    }
  }

  lemma LimitAttained(x: PlannerInput, t: TaskSnapshot)
    requires TasksDistinct(x.tasks) && MilestonesDistinct(x.milestones) && t in x.tasks && NoCycleAhead(x, t.id)
    ensures t.id in AnalysisOf(x).mustStartBy && ExactLimit(x, t, FinishBy(x, t))
  {
    var id := LimitFrom(x, t);
    if id.Some? {
      var s := WaitingTask(x, t, id.value);
      StartsAre(x, s);
    } else {
      OwnLimitsAre(x, t, FinishBy(x, t));
    }
  }

  lemma SuccessorBounds(x: PlannerInput, t: TaskSnapshot, s: TaskSnapshot)
    requires TasksDistinct(x.tasks) && t in x.tasks && NoCycleAhead(x, t.id) && Unlocks(x, t, s)
    ensures t.id in AnalysisOf(x).mustStartBy && s.id in AnalysisOf(x).mustStartBy
    ensures FinishBy(x, t) <= LatestStart(x, s.id)
  {
    GraphIs(x);
    StartsAre(x, t);
    AcyclicStep(ProjectOf(x), t.id);
    UnlocksWaiting(x, t, s);
    StartsAre(x, s);
  }

  /**
   A task with no cycle ahead must be finished by exactly the least of: the horizon, its deadline (or the start of its
   deadline's date), its milestone's limit less the required buffer, and the latest starts of the tasks that wait for
   it.
   */
  lemma LatestStartExactly(x: PlannerInput, t: TaskSnapshot)
    requires TasksDistinct(x.tasks) && MilestonesDistinct(x.milestones) && t in x.tasks && NoCycleAhead(x, t.id)
    ensures t.id in AnalysisOf(x).mustStartBy
    ensures ExactLimit(x, t, FinishBy(x, t)) && forall e :: ExactLimit(x, t, e) ==> FinishBy(x, t) <= e
  {
    LimitAttained(x, t);
    forall e | ExactLimit(x, t, e)
      ensures FinishBy(x, t) <= e
    {
      OwnLimitsHold(x, t, e);
      if s :| Unlocks(x, t, s) && s.id in AnalysisOf(x).mustStartBy && e == LatestStart(x, s.id) {
        SuccessorBounds(x, t, s);
      }
    }
  }

  // ---------------------------------------------------------------- unlock counts

  /** An unfinished task unlocks the tasks that wait for it, a finished one none. */
  lemma UnlocksCounted(x: PlannerInput, t: TaskSnapshot)
    requires TasksDistinct(x.tasks) && t in x.tasks
    ensures t.id in AnalysisOf(x).unlockCount
    ensures AnalysisOf(x).unlockCount[t.id] == if Unfinished(t) then |WaitFor(x, t.id)| else 0
  {
    NodesOfMember(x.tasks, t);
    SuccessorsAre(x, t.id);
  }
}
