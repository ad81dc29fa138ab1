/** What holds of every plan: distinct work, unchanged demands, and new work only where nothing else is. */
module PlanningFacts {
  import opened Domain
  import opened Sorting
  import opened Priority
  import opened Ledger
  import opened Placement
  import opened SerialSchedule
  import opened SerialFacts
  import opened SerialTheorems
  import opened PassCapacity
  import opened PlanningInput
  import opened GraphAnalysis
  import opened PlanningPasses
  import A = AvailabilitySlots
  import U = UniqueSlots

  // ---------------------------------------------------------------- identities

  ghost predicate TasksDistinct(tasks: seq<TaskSnapshot>) {
    forall i, j :: 0 <= i < j < |tasks| ==> tasks[i].id != tasks[j].id
  }

  ghost predicate MilestonesDistinct(milestones: seq<Milestone>) {
    forall i, j :: 0 <= i < j < |milestones| ==> milestones[i].id != milestones[j].id
  }

  /** Synthetic buffer ids are all different and none is the id of a task. */
  ghost predicate BufferIdsFresh(x: PlannerInput) {
    && (forall m, n: MilestoneId, k, l: Kind :: x.bufferId(m, k) == x.bufferId(n, l) ==> m == n && k == l)
    && (forall m: MilestoneId, k: Kind, i :: 0 <= i < |x.tasks| ==> x.bufferId(m, k) != x.tasks[i].id)
  }

  ghost predicate PriorsLast(x: PlannerInput) {
    forall a :: a in PriorOrNone(x) ==> a.start < a.end
  }

  ghost predicate InputOk(x: PlannerInput) {
    && U.ContextOk(x.availability)
    && TasksDistinct(x.tasks) && MilestonesDistinct(x.milestones) && BufferIdsFresh(x)
    && PriorsLast(x)
  }

  lemma {:induction false} EnrichedFrom(x: PlannerInput, tasks: seq<TaskSnapshot>, e: SchedulableTask)
    ensures e in EnrichedAll(x, tasks) <==> exists t :: t in tasks && !IsFinished(t.status) && e == Enriched(x, t)
    decreases |tasks|
  {
    if tasks != [] {
      EnrichedFrom(x, tasks[1..], e);
      assert tasks == [tasks[0]] + tasks[1..];
    }
  }

  lemma DistinctCons(e: SchedulableTask, rest: seq<SchedulableTask>)
    requires DistinctTasks(rest) && forall f :: f in rest ==> f.id != e.id
    ensures DistinctTasks([e] + rest)
  {
  }

  lemma DistinctTail(tasks: seq<TaskSnapshot>)
    requires TasksDistinct(tasks) && tasks != []
    ensures TasksDistinct(tasks[1..]) && forall t :: t in tasks[1..] ==> t.id != tasks[0].id
  {
    forall t | t in tasks[1..]
      ensures t.id != tasks[0].id
    {
      var i :| 0 <= i < |tasks[1..]| && tasks[1..][i] == t;
      assert tasks[i + 1] == t;
    }
  }

  lemma {:induction false} EnrichedDistinct(x: PlannerInput, tasks: seq<TaskSnapshot>)
    requires TasksDistinct(tasks)
    ensures DistinctTasks(EnrichedAll(x, tasks))
    decreases |tasks|
  {
    if tasks != [] {
      DistinctTail(tasks);
      EnrichedDistinct(x, tasks[1..]);
      forall f | f in EnrichedAll(x, tasks[1..])
        ensures f.id != tasks[0].id
      {
        EnrichedFrom(x, tasks[1..], f);
      }
      DistinctCons(Enriched(x, tasks[0]), EnrichedAll(x, tasks[1..]));
    }
  }

  lemma {:induction false} BuffersFrom(x: PlannerInput, milestones: seq<Milestone>, e: SchedulableTask)
    ensures e in AllBuffers(x, milestones) <==> exists m :: m in milestones && e in BuffersFor(x, m)
    decreases |milestones|
  {
    if milestones != [] {
      BuffersFrom(x, milestones[1..], e);
      assert milestones == [milestones[0]] + milestones[1..];
    }
  }

  lemma BufferIds(x: PlannerInput, m: Milestone, e: SchedulableTask)
    requires e in BuffersFor(x, m)
    ensures e.id == x.bufferId(m.id, e.kind) && !e.kind.Task? && m.limit.Some?
  {
  }

  lemma BuffersForDistinct(x: PlannerInput, m: Milestone)
    requires BufferIdsFresh(x)
    ensures DistinctTasks(BuffersFor(x, m))
  {
    assert x.bufferId(m.id, ReviewBuffer) != x.bufferId(m.id, SubmissionBuffer);
  }

  lemma DistinctJoin(a: seq<SchedulableTask>, b: seq<SchedulableTask>)
    requires DistinctTasks(a) && DistinctTasks(b)
    requires forall e, f :: e in a && f in b ==> e.id != f.id
    ensures DistinctTasks(a + b)
  {
  }

  lemma MilestonesTail(milestones: seq<Milestone>)
    requires MilestonesDistinct(milestones) && milestones != []
    ensures MilestonesDistinct(milestones[1..]) && forall m :: m in milestones[1..] ==> m.id != milestones[0].id
  {
    forall m | m in milestones[1..]
      ensures m.id != milestones[0].id
    {
      var i :| 0 <= i < |milestones[1..]| && milestones[1..][i] == m;
      assert milestones[i + 1] == m;
    }
  }

  lemma {:induction false} BuffersDistinct(x: PlannerInput, milestones: seq<Milestone>)
    requires MilestonesDistinct(milestones) && BufferIdsFresh(x)
    ensures DistinctTasks(AllBuffers(x, milestones))
    decreases |milestones|
  {
    if milestones != [] {
      MilestonesTail(milestones);
      BuffersDistinct(x, milestones[1..]);
      BuffersForDistinct(x, milestones[0]);
      forall e, f | e in BuffersFor(x, milestones[0]) && f in AllBuffers(x, milestones[1..])
        ensures e.id != f.id
      {
        BuffersFrom(x, milestones[1..], f);
        var m :| m in milestones[1..] && f in BuffersFor(x, m);
        BufferIds(x, milestones[0], e);
        BufferIds(x, m, f);
      }
      DistinctJoin(BuffersFor(x, milestones[0]), AllBuffers(x, milestones[1..]));
    }
  }

  lemma BufferIsNoTask(x: PlannerInput, t: TaskSnapshot, m: Milestone, f: SchedulableTask)
    requires BufferIdsFresh(x) && t in x.tasks && f in BuffersFor(x, m)
    ensures Enriched(x, t).id != f.id
  {
    BufferIds(x, m, f);
    var i :| 0 <= i < |x.tasks| && x.tasks[i] == t;
  }

  lemma SchedulableDistinct(x: PlannerInput)
    requires InputOk(x)
    ensures DistinctTasks(Schedulable(x))
  {
    EnrichedDistinct(x, x.tasks);
    BuffersDistinct(x, x.milestones);
    forall e, f | e in EnrichedAll(x, x.tasks) && f in AllBuffers(x, x.milestones)
      ensures e.id != f.id
    {
      EnrichedFrom(x, x.tasks, e);
      BuffersFrom(x, x.milestones, f);
      var t :| t in x.tasks && !IsFinished(t.status) && e == Enriched(x, t);
      var m :| m in x.milestones && f in BuffersFor(x, m);
      BufferIsNoTask(x, t, m, f);
    }
    DistinctJoin(EnrichedAll(x, x.tasks), AllBuffers(x, x.milestones));
  }

  /** Promotion changes nothing but the priority class. */
  lemma PromotedSame(x: PlannerInput, unallocated: set<TaskId>, tasks: seq<SchedulableTask>)
    requires DistinctTasks(tasks)
    ensures DistinctTasks(PromotedAll(x, unallocated, tasks))
    ensures forall t :: t in tasks ==> Promoted(x, unallocated, t) in PromotedAll(x, unallocated, tasks)
    ensures forall t :: Promoted(x, unallocated, t) == t.(priorityClass := Promoted(x, unallocated, t).priorityClass)
  {
    var after := PromotedAll(x, unallocated, tasks);
    forall t | t in tasks
      ensures Promoted(x, unallocated, t) in after
    {
      var i :| 0 <= i < |tasks| && tasks[i] == t;
      assert after[i] == Promoted(x, unallocated, t);
    }
  }

  lemma FinalDistinct(x: PlannerInput, extra: seq<A.Interval>, pre: seq<PriorAllocation>)
    requires InputOk(x)
    ensures DistinctTasks(FinalTasks(x, extra, pre))
  {
    SchedulableDistinct(x);
    PromotedSame(x, Provisional(x, extra, pre).unallocated, Schedulable(x));
  }

  // ---------------------------------------------------------------- preallocated intervals

  /** Every prior allocation handed to a pass is among the pass's allocations, unchanged, and nothing else is. */
  lemma PreallocatedHas(pre: seq<PriorAllocation>, pass: PassType, a: PriorAllocation)
    ensures a in pre <==> exists b :: b in Preallocated(Sort(PriorLeq, pre), pass) &&
                                      b.task == a.task && b.start == a.start && b.end == a.end
  {
    var sorted := Sort(PriorLeq, pre);
    var all := Preallocated(sorted, pass);
    SortMembers(PriorLeq, pre);
    if a in pre {
      var i :| 0 <= i < |sorted| && sorted[i] == a;
      assert all[i] in all;
    }
    if b :| b in all && b.task == a.task && b.start == a.start && b.end == a.end {
      var i :| 0 <= i < |all| && all[i] == b;
      assert sorted[i] == a;
    }
  }

  lemma PreallocatedLast(pre: seq<PriorAllocation>, pass: PassType)
    requires forall a :: a in pre ==> a.start < a.end
    ensures forall b :: b in Preallocated(Sort(PriorLeq, pre), pass) ==> b.start < b.end
  {
    forall b | b in Preallocated(Sort(PriorLeq, pre), pass)
      ensures b.start < b.end
    {
      PreallocatedHas(pre, pass, PriorAllocation(b.task, b.start, b.end));
    }
  }

  // ---------------------------------------------------------------- new work

  /** Without preallocation every allocation is that of a new chunk. */
  lemma OnlyNew(r: Request, q: Progress)
    requires r.prior == []
    ensures ResultOf(r, q).allocations == AllocationsOf(q.chunks, r.pass)
  {
  }

  /** The new chunks of a final pass. */
  ghost function NewChunks(x: PlannerInput, extra: seq<A.Interval>, pre: seq<PriorAllocation>, pass: PassType): seq<Chunk>
    requires U.ContextOk(x.availability)
  {
    FinalPass(x, extra, pre, pass).chunks
  }

  lemma FreshOffer(x: PlannerInput, extra: seq<A.Interval>)
    requires U.ContextOk(x.availability)
    ensures Offerable(FreshSlots(x, extra))
    ensures A.WindowsApart(x.availability.windows) ==> OfferedApart(FreshSlots(x, extra))
  {
    BuiltOfferable(x.availability.(focusBlocks := extra));
  }

  /** With disjoint windows, new chunks overlap neither each other nor any preallocated interval. */
  lemma NewChunksApart(x: PlannerInput, extra: seq<A.Interval>, pre: seq<PriorAllocation>, pass: PassType, k: int)
    requires InputOk(x) && A.WindowsApart(x.availability.windows)
    requires forall a :: a in pre ==> a.start < a.end
    requires 0 <= k < |NewChunks(x, extra, pre, pass)|
    ensures var chunks := NewChunks(x, extra, pre, pass);
      && (forall l :: 0 <= l < |chunks| && l != k ==>
            SpansApart(ChunkStart(chunks[k]), ChunkEnd(chunks[k]), ChunkStart(chunks[l]), ChunkEnd(chunks[l])))
      && (forall a :: a in pre ==> SpansApart(ChunkStart(chunks[k]), ChunkEnd(chunks[k]), a.start, a.end))
  {
    var r := RequestFor(x, pre, pass);
    var c := NewChunks(x, extra, pre, pass)[k];
    FinalDistinct(x, extra, pre);
    FreshOffer(x, extra);
    PreallocatedLast(pre, pass);
    NothingDoubleBooked(r, FinalTasks(x, extra, pre), FreshSlots(x, extra));
    forall a | a in pre
      ensures SpansApart(ChunkStart(c), ChunkEnd(c), a.start, a.end)
    {
      PreallocatedHas(pre, pass, a);
    }
  }

  // ---------------------------------------------------------------- buffers and promotion

  lemma SafetySum(buffers: seq<SchedulableTask>)
    ensures |buffers| == 1 ==> SafetyOf(buffers) == buffers[0].safetyMinutes
    ensures |buffers| == 2 ==> SafetyOf(buffers) == buffers[0].safetyMinutes + buffers[1].safetyMinutes
  {
    if |buffers| == 2 {
      assert buffers[1..][0] == buffers[1];
    }
  }

  function SafetyOf(buffers: seq<SchedulableTask>): int {
    if buffers == [] then 0 else buffers[0].safetyMinutes + SafetyOf(buffers[1..])
  }

  /**
   The two buffers of a milestone with a limit share its required minutes: the review gets half, rounded up, the
   submission the rest, and both must be done by the limit in one piece.
   */
  lemma BuffersShareRequired(x: PlannerInput, m: Milestone)
    requires m.limit.Some? && m.requiredBuffer > 0
    ensures var buffers := BuffersFor(x, m);
      && SafetyOf(buffers) == m.requiredBuffer
      && 0 <= 2 * buffers[0].safetyMinutes - m.requiredBuffer <= 1
      && |buffers| == (if m.requiredBuffer > 1 then 2 else 1)
      && buffers[0].kind == ReviewBuffer && (|buffers| == 2 ==> buffers[1].kind == SubmissionBuffer)
      && forall i :: 0 <= i < |buffers| ==>
           buffers[i].baseMinutes == buffers[i].safetyMinutes > 0 && !buffers[i].splittable &&
           buffers[i].effectiveDeadline == m.limit
  {
    SafetySum(BuffersFor(x, m));
  }

  /** A promoted task goes before every task outside the top class. */
  lemma PromotedGoesFirst(x: PlannerInput, unallocated: set<TaskId>, t: SchedulableTask, u: SchedulableTask)
    requires Promotes(x, unallocated, t) && !Promoted(x, unallocated, u).priorityClass.P0?
    ensures var p, q := Promoted(x, unallocated, t), Promoted(x, unallocated, u);
      KeyLeq(p, q) && !KeyLeq(q, p)
  {
    KeyPriorities(Promoted(x, unallocated, t), Promoted(x, unallocated, u));
  }
}
