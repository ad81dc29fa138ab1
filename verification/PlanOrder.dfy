/** A plan does not depend on the order in which its input lists tasks and dependencies. */
module PlanOrder {
  import opened Domain
  import opened Sorting
  import opened Priority
  import opened Ledger
  import opened Placement
  import opened SerialSchedule
  import opened PlanningInput
  import opened GraphAnalysis
  import opened PlanningPasses
  import opened PlanningFacts
  import A = AvailabilitySlots
  import U = UniqueSlots
  import C = CycleDetection
  import P = CriticalPath

  // ---------------------------------------------------------------- images of rearranged lists

  function FlatMap<T, S>(f: T -> seq<S>, s: seq<T>): seq<S> {
    if s == [] then [] else f(s[0]) + FlatMap(f, s[1..])
  }

  lemma {:induction false} FlatMapJoin<T, S>(f: T -> seq<S>, a: seq<T>, b: seq<T>)
    ensures FlatMap(f, a + b) == FlatMap(f, a) + FlatMap(f, b)
    decreases |a|
  {
    if a == [] {
      assert a + b == b;
    } else {
      FlatMapJoin(f, a[1..], b);
      assert (a + b)[1..] == a[1..] + b;
    }
  }

  lemma Extract<T>(b: seq<T>, i: nat)
    requires i < |b|
    ensures multiset(b) == multiset(b[..i] + b[i + 1..]) + multiset{b[i]}
  {
    assert b == b[..i] + [b[i]] + b[i + 1..];
  }

  lemma MiddleOut<S>(p: seq<S>, q: seq<S>, r: seq<S>)
    ensures multiset(p + (q + r)) == multiset(q) + multiset(p + r)
  {
  }

  lemma FlatMapExtract<T, S>(f: T -> seq<S>, b: seq<T>, i: nat)
    requires i < |b|
    ensures multiset(FlatMap(f, b)) == multiset(f(b[i])) + multiset(FlatMap(f, b[..i] + b[i + 1..]))
  {
    CutAround(b, i);
    FlatMapSplit(f, b[..i], b[i], b[i + 1..]);
    FlatMapMiddleOut(f, b[..i], b[i], b[i + 1..]);
  }

  lemma CutAround<T>(b: seq<T>, i: nat)
    requires i < |b|
    ensures b == b[..i] + ([b[i]] + b[i + 1..])
  {
  }

  lemma FlatMapMiddleOut<T, S>(f: T -> seq<S>, p: seq<T>, x: T, r: seq<T>)
    ensures multiset(FlatMap(f, p) + (f(x) + FlatMap(f, r))) == multiset(f(x)) + multiset(FlatMap(f, p + r))
  {
    FlatMapJoin(f, p, r);
    MiddleOut(FlatMap(f, p), f(x), FlatMap(f, r));
  }

  lemma FlatMapSplit<T, S>(f: T -> seq<S>, p: seq<T>, x: T, r: seq<T>)
    ensures FlatMap(f, p + ([x] + r)) == FlatMap(f, p) + (f(x) + FlatMap(f, r))
  {
    FlatMapJoin(f, p, [x] + r);
    assert ([x] + r)[1..] == r;
  }

  /** Rearranging a list rearranges its image. */
  lemma {:induction false} FlatMapPermutes<T, S>(f: T -> seq<S>, a: seq<T>, b: seq<T>)
    requires multiset(a) == multiset(b)
    ensures multiset(FlatMap(f, a)) == multiset(FlatMap(f, b))
    decreases |a|
  {
    SamePermutation(a, b);
    if a != [] {
      assert a[0] in b;
      var i :| 0 <= i < |b| && b[i] == a[0];
      var rest := b[..i] + b[i + 1..];
      Extract(b, i);
      DropFirst(a);
      FlatMapPermutes(f, a[1..], rest);
      FlatMapExtract(f, b, i);
    }
  }

  // ---------------------------------------------------------------- schedulable tasks

  ghost function EnrichedIf(x: PlannerInput): TaskSnapshot -> seq<SchedulableTask> {
    (t: TaskSnapshot) => if !IsFinished(t.status) then [Enriched(x, t)] else []
  }

  lemma {:induction false} EnrichedIsFlatMap(x: PlannerInput, tasks: seq<TaskSnapshot>)
    ensures EnrichedAll(x, tasks) == FlatMap(EnrichedIf(x), tasks)
    decreases |tasks|
  {
    if tasks != [] {
      EnrichedIsFlatMap(x, tasks[1..]);
    }
  }

  /** The same input but for the order of its tasks, and the order and repetition of its dependencies. */
  ghost predicate Rearranged(x: PlannerInput, y: PlannerInput) {
    && y == x.(tasks := y.tasks, dependencies := y.dependencies)
    && multiset(x.tasks) == multiset(y.tasks)
    && forall d :: d in x.dependencies <==> d in y.dependencies
  }

  /** The graph analysis is recomputed from the rearranged input, and is the same. */
  lemma SameAnalysis(x: PlannerInput, y: PlannerInput)
    requires TasksDistinct(x.tasks) && Rearranged(x, y)
    ensures AnalysisOf(y) == AnalysisOf(x)
  {
    var p, q := ProjectOf(x), ProjectOf(y);
    SameNodes(x.tasks, y.tasks);
    SameSuccessors(p, q);
    SameTimes(p, q);
    assert UnlockCounts(p) == UnlockCounts(q) by {
      assert UnlockCounts(p).Keys == UnlockCounts(q).Keys;
    }
    SameCycles(x.dependencies, y.dependencies);
  }

  lemma SameNodes(a: seq<TaskSnapshot>, b: seq<TaskSnapshot>)
    requires TasksDistinct(a) && multiset(a) == multiset(b)
    ensures NodesOf(a) == NodesOf(b)
  {
    SamePermutation(a, b);
    DistinctPermuted(a, b);
    forall id
      ensures id in NodesOf(a) <==> id in NodesOf(b)
      ensures id in NodesOf(a) ==> NodesOf(a)[id] == NodesOf(b)[id]
    {
      NodesOfKeys(a, id);
      NodesOfKeys(b, id);
      if t :| t in a && t.id == id {
        NodesOfMember(a, t);
        NodesOfMember(b, t);
      }
    }
    assert NodesOf(a).Keys == NodesOf(b).Keys;
  }

  ghost predicate SameEdges(p: P.Project, q: P.Project) {
    && q == p.(dependencies := q.dependencies)
    && forall t :: P.ActiveSuccessors(p, t) == P.ActiveSuccessors(q, t)
  }

  lemma SameSuccessors(p: P.Project, q: P.Project)
    requires q == p.(dependencies := q.dependencies)
    requires forall d :: d in p.dependencies <==> d in q.dependencies
    ensures SameEdges(p, q)
  {
    forall t
      ensures P.ActiveSuccessors(p, t) == P.ActiveSuccessors(q, t)
    {
      assert P.StartSuccessors(p.dependencies, t) == P.StartSuccessors(q.dependencies, t);
    }
  }

  lemma {:induction false} SameResolved(p: P.Project, q: P.Project, t: TaskId, memo: map<TaskId, Instant>,
                                        visiting: set<TaskId>)
    requires SameEdges(p, q) && t in p.nodes && visiting <= p.nodes.Keys
    ensures P.Resolved(p, t, memo, visiting) == P.Resolved(q, t, memo, visiting)
    decreases |p.nodes.Keys - visiting|, 0
  {
    if t !in memo && t !in visiting {
      assert p.nodes.Keys - (visiting + {t}) == (p.nodes.Keys - visiting) - {t};
      assert P.ActiveSuccessors(p, t) == P.ActiveSuccessors(q, t);
      SameLimits(p, q, SortedIds(P.ActiveSuccessors(p, t)), memo, visiting + {t});
    }
  }

  lemma {:induction false} SameLimits(p: P.Project, q: P.Project, succ: seq<TaskId>, memo: map<TaskId, Instant>,
                                      visiting: set<TaskId>)
    requires SameEdges(p, q) && (forall s :: s in succ ==> s in p.nodes) && visiting <= p.nodes.Keys
    ensures P.SuccessorLimits(p, succ, memo, visiting) == P.SuccessorLimits(q, succ, memo, visiting)
    decreases |p.nodes.Keys - visiting|, |succ| + 1
  {
    if succ != [] {
      SameResolved(p, q, succ[0], memo, visiting);
      SameLimits(p, q, succ[1..], P.Resolved(p, succ[0], memo, visiting).1, visiting);
    }
  }

  lemma {:induction false} SameResolvedAll(p: P.Project, q: P.Project, ids: seq<TaskId>, memo: map<TaskId, Instant>)
    requires SameEdges(p, q) && forall s :: s in ids ==> s in p.nodes
    ensures P.ResolvedAll(p, ids, memo) == P.ResolvedAll(q, ids, memo)
    decreases |ids|
  {
    if ids != [] {
      SameResolved(p, q, ids[0], memo, {});
      SameResolvedAll(p, q, ids[1..], P.Resolved(p, ids[0], memo, {}).1);
    }
  }

  lemma SameTimes(p: P.Project, q: P.Project)
    requires SameEdges(p, q)
    ensures P.MustStartBy(p) == P.MustStartBy(q)
  {
    SameResolvedAll(p, q, SortedIds(p.nodes.Keys), map[]);
    assert P.FinishTimes(p) == P.FinishTimes(q);
    assert P.MustStartBy(p).Keys == P.MustStartBy(q).Keys;
  }

  lemma SameCycles(a: seq<TaskDependency>, b: seq<TaskDependency>)
    requires forall d :: d in a <==> d in b
    ensures OnCycles(a) == OnCycles(b)
  {
    assert C.Endpoints(a) == C.Endpoints(b);
    forall t
      ensures C.Successors(a, t) == C.Successors(b, t)
    {
    }
    C.SameGraph(C.BlockingGraph(a), C.BlockingGraph(b));
  }

  lemma EnrichedElsewhere(x: PlannerInput, y: PlannerInput, t: TaskSnapshot)
    requires AnalysisOf(x) == AnalysisOf(y) && y == x.(tasks := y.tasks, dependencies := y.dependencies)
    ensures Enriched(y, t) == Enriched(x, t)
  {
  }

  lemma {:induction false} EnrichedAllElsewhere(x: PlannerInput, y: PlannerInput, tasks: seq<TaskSnapshot>)
    requires AnalysisOf(x) == AnalysisOf(y) && y == x.(tasks := y.tasks, dependencies := y.dependencies)
    ensures EnrichedAll(y, tasks) == EnrichedAll(x, tasks)
    decreases |tasks|
  {
    if tasks != [] {
      EnrichedElsewhere(x, y, tasks[0]);
      EnrichedAllElsewhere(x, y, tasks[1..]);
    }
  }

  lemma {:induction false} AllBuffersElsewhere(x: PlannerInput, y: PlannerInput, milestones: seq<Milestone>)
    requires y == x.(tasks := y.tasks, dependencies := y.dependencies)
    ensures AllBuffers(y, milestones) == AllBuffers(x, milestones)
    decreases |milestones|
  {
    if milestones != [] {
      AllBuffersElsewhere(x, y, milestones[1..]);
    }
  }

  lemma SchedulablePermutes(x: PlannerInput, y: PlannerInput)
    requires TasksDistinct(x.tasks) && Rearranged(x, y)
    ensures multiset(Schedulable(x)) == multiset(Schedulable(y))
  {
    EnrichedIsFlatMap(x, x.tasks);
    EnrichedIsFlatMap(x, y.tasks);
    FlatMapPermutes(EnrichedIf(x), x.tasks, y.tasks);
    SameAnalysis(x, y);
    EnrichedAllElsewhere(x, y, y.tasks);
    AllBuffersElsewhere(x, y, x.milestones);
  }

  // ---------------------------------------------------------------- gates and promotion

  lemma SameActive(a: seq<TaskSnapshot>, b: seq<TaskSnapshot>, t: TaskId)
    requires multiset(a) == multiset(b)
    ensures IsActive(a, t) <==> IsActive(b, t)
  {
    SamePermutation(a, b);
    if i :| 0 <= i < |a| && a[i].id == t && !IsFinished(a[i].status) {
      assert a[i] in b;
      var j :| 0 <= j < |b| && b[j] == a[i];
    }
    if j :| 0 <= j < |b| && b[j].id == t && !IsFinished(b[j].status) {
      assert b[j] in a;
      var i :| 0 <= i < |a| && a[i] == b[j];
    }
  }

  lemma {:induction false} GateKeys(x: PlannerInput, deps: seq<TaskDependency>)
    ensures forall t :: t in GateMap(x, deps) <==> Bucket(GateMap(x, deps), t) != {}
    decreases |deps|
  {
    if deps != [] {
      GateKeys(x, deps[..|deps| - 1]);
    }
  }

  lemma SameGates(x: PlannerInput, y: PlannerInput)
    requires Rearranged(x, y)
    ensures GateMap(x, x.dependencies) == GateMap(y, y.dependencies)
  {
    var a, b := GateMap(x, x.dependencies), GateMap(y, y.dependencies);
    forall t
      ensures Bucket(a, t) == Bucket(b, t)
    {
      SameBucket(x, y, t);
    }
    GateKeys(x, x.dependencies);
    GateKeys(y, y.dependencies);
    SameMap(a, b);
  }

  lemma SameMap(a: map<TaskId, set<TaskId>>, b: map<TaskId, set<TaskId>>)
    requires forall t :: Bucket(a, t) == Bucket(b, t)
    requires forall t :: t in a <==> Bucket(a, t) != {}
    requires forall t :: t in b <==> Bucket(b, t) != {}
    ensures a == b
  {
    assert a.Keys == b.Keys;
    forall t | t in a
      ensures a[t] == b[t]
    {
      assert Bucket(a, t) == Bucket(b, t);
    }
  }

  lemma SameBucket(x: PlannerInput, y: PlannerInput, t: TaskId)
    requires Rearranged(x, y)
    ensures Bucket(GateMap(x, x.dependencies), t) == Bucket(GateMap(y, y.dependencies), t)
  {
    SameActive(x.tasks, y.tasks, t);
    forall p
      ensures p in Bucket(GateMap(x, x.dependencies), t) <==> p in Bucket(GateMap(y, y.dependencies), t)
    {
      GatesAre(x, x.dependencies, t, p);
      GatesAre(y, y.dependencies, t, p);
    }
  }

  lemma {:induction false} MilestoneOfMember(tasks: seq<TaskSnapshot>, t: TaskSnapshot)
    requires TasksDistinct(tasks) && t in tasks
    ensures MilestoneOf(tasks, t.id) == t.milestone
    decreases |tasks|
  {
    var n := |tasks| - 1;
    assert tasks == tasks[..n] + [tasks[n]];
    if tasks[n].id != t.id {
      assert t in tasks[..n];
      MilestoneOfMember(tasks[..n], t);
    } else {
      var i :| 0 <= i < |tasks| && tasks[i] == t;
    }
  }

  lemma {:induction false} MilestoneOfNobody(tasks: seq<TaskSnapshot>, id: TaskId)
    requires forall t :: t in tasks ==> t.id != id
    ensures MilestoneOf(tasks, id) == None
    decreases |tasks|
  {
    if tasks != [] {
      var n := |tasks| - 1;
      assert tasks == tasks[..n] + [tasks[n]];
      MilestoneOfNobody(tasks[..n], id);
    }
  }

  lemma DistinctPermuted(a: seq<TaskSnapshot>, b: seq<TaskSnapshot>)
    requires TasksDistinct(a) && multiset(a) == multiset(b)
    ensures TasksDistinct(b)
  {
    SamePermutation(a, b);
    forall i, j | 0 <= i < j < |b|
      ensures b[i].id != b[j].id
    {
      assert b[i] in a && b[j] in a;
      if b[i] == b[j] {
        TwiceInB(a, b, i, j);
      }
    }
  }

  lemma TwiceInB(a: seq<TaskSnapshot>, b: seq<TaskSnapshot>, i: int, j: int)
    requires TasksDistinct(a) && multiset(a) == multiset(b) && 0 <= i < j < |b|
    ensures b[i] != b[j]
  {
    Extract(b, j);
    var rest := b[..j] + b[j + 1..];
    assert rest[i] == b[i];
    assert b[i] in multiset(rest);
    OnceEach(a, b[i]);
  }

  lemma {:induction false} OnceEach(a: seq<TaskSnapshot>, t: TaskSnapshot)
    requires TasksDistinct(a)
    ensures multiset(a)[t] <= 1
    decreases |a|
  {
    if a != [] {
      assert a == [a[0]] + a[1..];
      DistinctTail(a);
      OnceEach(a[1..], t);
      assert a[0] !in a[1..];
    }
  }

  lemma SameMilestone(a: seq<TaskSnapshot>, b: seq<TaskSnapshot>, id: TaskId)
    requires TasksDistinct(a) && multiset(a) == multiset(b)
    ensures MilestoneOf(a, id) == MilestoneOf(b, id)
  {
    SamePermutation(a, b);
    DistinctPermuted(a, b);
    if t :| t in a && t.id == id {
      MilestoneOfMember(a, t);
      MilestoneOfMember(b, t);
    } else {
      MilestoneOfNobody(a, id);
      MilestoneOfNobody(b, id);
    }
  }

  function PromotedOne(x: PlannerInput, unallocated: set<TaskId>): SchedulableTask -> seq<SchedulableTask> {
    (t: SchedulableTask) => [Promoted(x, unallocated, t)]
  }

  lemma {:induction false} PromotedIsFlatMap(x: PlannerInput, unallocated: set<TaskId>, tasks: seq<SchedulableTask>)
    ensures PromotedAll(x, unallocated, tasks) == FlatMap(PromotedOne(x, unallocated), tasks)
    decreases |tasks|
  {
    if tasks != [] {
      PromotedIsFlatMap(x, unallocated, tasks[1..]);
      assert PromotedAll(x, unallocated, tasks) ==
             [Promoted(x, unallocated, tasks[0])] + PromotedAll(x, unallocated, tasks[1..]);
    }
  }

  lemma PromotedElsewhere(x: PlannerInput, y: PlannerInput, unallocated: set<TaskId>, tasks: seq<SchedulableTask>)
    requires TasksDistinct(x.tasks) && Rearranged(x, y)
    ensures PromotedAll(y, unallocated, tasks) == PromotedAll(x, unallocated, tasks)
  {
    forall i | 0 <= i < |tasks|
      ensures Promoted(y, unallocated, tasks[i]) == Promoted(x, unallocated, tasks[i])
    {
      SameMilestone(x.tasks, y.tasks, tasks[i].id);
    }
  }

  lemma PromotedPermutes(x: PlannerInput, y: PlannerInput, unallocated: set<TaskId>, a: seq<SchedulableTask>,
                         b: seq<SchedulableTask>)
    requires TasksDistinct(x.tasks) && Rearranged(x, y) && multiset(a) == multiset(b)
    ensures multiset(PromotedAll(x, unallocated, a)) == multiset(PromotedAll(y, unallocated, b))
  {
    PromotedElsewhere(x, y, unallocated, b);
    PromotedIsFlatMap(x, unallocated, a);
    PromotedIsFlatMap(x, unallocated, b);
    FlatMapPermutes(PromotedOne(x, unallocated), a, b);
  }

  // ---------------------------------------------------------------- plans

  lemma SameSchedule(r: Request, a: seq<SchedulableTask>, b: seq<SchedulableTask>, offered: seq<SlotLike>)
    requires DistinctTasks(a) && multiset(a) == multiset(b)
    ensures Schedule(r, a, offered) == Schedule(r, b, offered)
  {
    SortTasksForgetsOrder(a, b);
  }

  lemma SameRequest(x: PlannerInput, y: PlannerInput, pre: seq<PriorAllocation>, pass: PassType)
    requires Rearranged(x, y)
    ensures RequestFor(x, pre, pass) == RequestFor(y, pre, pass)
  {
    SameGates(x, y);
  }

  lemma SameProvisional(x: PlannerInput, y: PlannerInput, extra: seq<A.Interval>, pre: seq<PriorAllocation>)
    requires InputOk(x) && Rearranged(x, y)
    ensures Provisional(x, extra, pre) == Provisional(y, extra, pre)
  {
    SchedulableDistinct(x);
    SchedulablePermutes(x, y);
    SameRequest(x, y, pre, BasePass);
    SameSchedule(RequestFor(x, pre, BasePass), Schedulable(x), Schedulable(y), FreshSlots(x, extra));
  }

  /** Each pass of a plan is the same for every order of the input's tasks and of its dependencies. */
  lemma PlanForgetsOrder(x: PlannerInput, y: PlannerInput, extra: seq<A.Interval>, pre: seq<PriorAllocation>,
                         pass: PassType)
    requires InputOk(x) && Rearranged(x, y)
    ensures PassResult(x, extra, pre, pass) == PassResult(y, extra, pre, pass)
  {
    SameProvisional(x, y, extra, pre);
    SchedulablePermutes(x, y);
    PromotedPermutes(x, y, Provisional(x, extra, pre).unallocated, Schedulable(x), Schedulable(y));
    FinalDistinct(x, extra, pre);
    SameRequest(x, y, pre, pass);
    SameSchedule(RequestFor(x, pre, pass), FinalTasks(x, extra, pre), FinalTasks(y, extra, pre), FreshSlots(x, extra));
  }
}
