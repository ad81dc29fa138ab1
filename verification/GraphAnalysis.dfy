/** The graph analysis of a planner's input: cycles, latest starts and unlock counts. */
module GraphAnalysis {
  import opened Domain
  import opened Reachability
  import opened StrongComponents
  import opened CycleDetection
  import opened CriticalPath
  import opened PlanningInput

  datatype Analysis = Analysis(mustStartBy: map<TaskId, Instant>, unlockCount: map<TaskId, int>, blocked: set<TaskId>)

  /** A task as the timing sees it; without a deadline time, its date's local midnight is the limit. */
  function NodeOf(t: TaskSnapshot): TimingNode {
    TimingNode(t.safetyMinutes, t.status, t.milestone, if t.deadline.Some? then t.deadline else t.dateBoundary)
  }

  /** The tasks by id, the last of an id counting. */
  function NodesOf(tasks: seq<TaskSnapshot>): map<TaskId, TimingNode>
    decreases |tasks|
  {
    if tasks == [] then map[]
    else
      var last := tasks[|tasks| - 1];
      NodesOf(tasks[..|tasks| - 1])[last.id := NodeOf(last)]
  }

  function WithLimit(limits: map<MilestoneId, Instant>, m: Milestone): map<MilestoneId, Instant> {
    if m.limit.None? then limits
    else limits[m.id := m.limit.value - (if m.requiredBuffer > 0 then m.requiredBuffer else 0)]
  }

  /** The limits of the milestones with a deadline, their buffers taken off. */
  function LimitsOf(milestones: seq<Milestone>): map<MilestoneId, Instant>
    decreases |milestones|
  {
    if milestones == [] then map[]
    else WithLimit(LimitsOf(milestones[..|milestones| - 1]), milestones[|milestones| - 1])
  }

  function ProjectOf(x: PlannerInput): Project {
    Project(NodesOf(x.tasks), x.dependencies, LimitsOf(x.milestones), x.horizon)
  }

  /** How many unfinished tasks wait for the start edges of an unfinished task. */
  function UnlockCount(p: Project, t: TaskId): int
    requires t in p.nodes
  {
    if Active(p.nodes[t]) then |ActiveSuccessors(p, t)| else 0
  }

  function UnlockCounts(p: Project): map<TaskId, int> {
    map t | t in p.nodes :: UnlockCount(p, t)
  }

  /** The tasks that block themselves, directly or not. */
  ghost function OnCycles(deps: seq<TaskDependency>): set<TaskId> {
    set t | t in Endpoints(deps) && OnCycle(BlockingGraph(deps), t)
  }

  ghost function AnalysisOf(x: PlannerInput): Analysis {
    Analysis(MustStartBy(ProjectOf(x)), UnlockCounts(ProjectOf(x)), OnCycles(x.dependencies))
  }

  // ---------------------------------------------------------------- the loops

  method GatherNodes(tasks: seq<TaskSnapshot>) returns (nodes: map<TaskId, TimingNode>)
    ensures nodes == NodesOf(tasks)
  {
    nodes := map[];
    for k := 0 to |tasks|
      invariant nodes == NodesOf(tasks[..k])
    {
      assert tasks[..k + 1][..k] == tasks[..k];
      nodes := nodes[tasks[k].id := NodeOf(tasks[k])];
    }
    TakeAll(tasks);
  }

  method GatherLimits(milestones: seq<Milestone>) returns (limits: map<MilestoneId, Instant>)
    ensures limits == LimitsOf(milestones)
  {
    limits := map[];
    for k := 0 to |milestones|
      invariant limits == LimitsOf(milestones[..k])
    {
      assert milestones[..k + 1][..k] == milestones[..k];
      limits := WithLimit(limits, milestones[k]);
    }
    TakeAll(milestones);
  }

  /** `unlock_counts`. */
  method CountUnlocks(p: Project) returns (counts: map<TaskId, int>)
    ensures counts == UnlockCounts(p)
  {
    counts := map[];
    var ids := SortedIds(p.nodes.Keys);
    for k := 0 to |ids|
      invariant forall t :: t in counts <==> t in ids[..k]
      invariant forall t :: t in counts ==> t in p.nodes && counts[t] == UnlockCount(p, t)
    {
      assert ids[k] in ids;
      TakeOneMore(ids, k);
      counts := counts[ids[k] := UnlockCount(p, ids[k])];
    }
    TakeAll(ids);
    assert counts.Keys == UnlockCounts(p).Keys;
  }

  /** The members of all cycles of a report. */
  method GatherMembers(report: seq<seq<TaskId>>) returns (members: set<TaskId>)
    ensures forall t :: t in members <==> Emitted(report, t)
  {
    members := {};
    for k := 0 to |report|
      invariant forall t :: t in members <==> Emitted(report[..k], t)
    {
      TakeOneMore(report, k);
      forall t
        ensures Emitted(report[..k + 1], t) <==> Emitted(report[..k], t) || t in report[k]
      {
        EmittedOneMore(report[..k], report[k], t);
      }
      members := members + Members(report[k]);
    }
    TakeAll(report);
  }

  /** `build_graph_analysis`, its cycle, timing and unlock parts; a nil predecessor is refused. */
  method BuildGraphAnalysis(x: PlannerInput) returns (analysis: Option<Analysis>)
    ensures analysis.None? <==> HasNilPredecessor(x.dependencies)
    ensures analysis.Some? ==> analysis.value == AnalysisOf(x)
  {
    var accepted := FromDependencies(x.dependencies);
    if !accepted {
      return None;
    }
    var report := Cycles(x.dependencies);
    var blocked := GatherMembers(report);
    var limits := GatherLimits(x.milestones);
    var nodes := GatherNodes(x.tasks);
    var p := Project(nodes, x.dependencies, limits, x.horizon);
    var _, mustStartBy := BackwardTiming(p);
    var counts := CountUnlocks(p);
    assert blocked == OnCycles(x.dependencies);
    analysis := Some(Analysis(mustStartBy, counts, blocked));
  }

  // ---------------------------------------------------------------- the order of the task list

  /** A member of a list with distinct ids is what the list has for its id. */
  lemma {:induction false} NodesOfMember(tasks: seq<TaskSnapshot>, t: TaskSnapshot)
    requires (forall i, j :: 0 <= i < j < |tasks| ==> tasks[i].id != tasks[j].id) && t in tasks
    ensures t.id in NodesOf(tasks) && NodesOf(tasks)[t.id] == NodeOf(t)
    decreases |tasks|
  {
    var n := |tasks| - 1;
    assert tasks == tasks[..n] + [tasks[n]];
    if tasks[n].id != t.id {
      NodesOfMember(tasks[..n], t);
    } else {
      var i :| 0 <= i < |tasks| && tasks[i] == t;
    }
  }

  lemma {:induction false} NodesOfKeys(tasks: seq<TaskSnapshot>, id: TaskId)
    ensures id in NodesOf(tasks) <==> exists t :: t in tasks && t.id == id
    decreases |tasks|
  {
    if tasks != [] {
      var n := |tasks| - 1;
      assert tasks == tasks[..n] + [tasks[n]];
      NodesOfKeys(tasks[..n], id);
    }
  }
}
