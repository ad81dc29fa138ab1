/** What a plan does for the tasks of its input, in the input's own terms. */
module PlanOutcomes {
  import opened Domain
  import opened Sorting
  import opened Priority
  import opened Ledger
  import opened Placement
  import opened Conservation
  import opened PlacementFacts
  import opened SerialSchedule
  import opened SerialFacts
  import opened SerialTheorems
  import opened SerialOrder
  import opened PassCapacity
  import opened PlanningInput
  import opened GraphAnalysis
  import opened PlanningPasses
  import opened PlanningFacts
  import opened PlanningTheorems
  import opened TimingTheorems
  import A = AvailabilitySlots
  import D = DailyCapacity
  import U = UniqueSlots

  // ---------------------------------------------------------------- tasks as they are scheduled

  ghost predicate OfTheInput(x: PlannerInput, t: TaskSnapshot) {
    t in x.tasks && Unfinished(t)
  }

  /** `e` is the work of task `t`: what it needs, how it may be cut, when it may begin. */
  ghost predicate IsWork(t: TaskSnapshot, e: SchedulableTask) {
    && e.id == t.id && e.kind == Kind.Task
    && e.baseMinutes == t.remainingBase && e.safetyMinutes == t.remainingSafety
    && e.splittable == t.splittable && e.minChunk == t.minChunk && e.startAfter == t.startAfter
  }

  /** The list has each unfinished task of the input once, as its work, and nothing but these and buffers. */
  ghost predicate Lists(x: PlannerInput, tasks: seq<SchedulableTask>) {
    && DistinctTasks(tasks) && TaskIds(tasks) == TaskIds(Schedulable(x))
    && forall t :: OfTheInput(x, t) ==> exists e :: e in tasks && IsWork(t, e)
  }

  lemma ScheduledWork(x: PlannerInput, t: TaskSnapshot)
    requires OfTheInput(x, t)
    ensures Enriched(x, t) in Schedulable(x) && IsWork(t, Enriched(x, t))
  {
    EnrichedFrom(x, x.tasks, Enriched(x, t));
  }

  lemma ProvisionalLists(x: PlannerInput)
    requires InputOk(x)
    ensures Lists(x, Schedulable(x))
  {
    SchedulableDistinct(x);
    forall t | OfTheInput(x, t)
      ensures exists e :: e in Schedulable(x) && IsWork(t, e)
    {
      ScheduledWork(x, t);
    }
  }

  lemma FinalIds(x: PlannerInput, unallocated: set<TaskId>)
    requires InputOk(x)
    ensures TaskIds(PromotedAll(x, unallocated, Schedulable(x))) == TaskIds(Schedulable(x))
  {
    SchedulableDistinct(x);
    PromotedIds(x, unallocated, Schedulable(x));
    PromotedSame(x, unallocated, Schedulable(x));
    forall e | e in Schedulable(x)
      ensures e.id in TaskIds(PromotedAll(x, unallocated, Schedulable(x)))
    {
      assert Promoted(x, unallocated, e).id == e.id;
    }
  }

  lemma FinalLists(x: PlannerInput, extra: seq<A.Interval>, pre: seq<PriorAllocation>)
    requires InputOk(x)
    ensures Lists(x, FinalTasks(x, extra, pre))
  {
    var unallocated := Provisional(x, extra, pre).unallocated;
    FinalDistinct(x, extra, pre);
    FinalIds(x, unallocated);
    SchedulableDistinct(x);
    PromotedSame(x, unallocated, Schedulable(x));
    forall t | OfTheInput(x, t)
      ensures exists e :: e in FinalTasks(x, extra, pre) && IsWork(t, e)
    {
      ScheduledWork(x, t);
      assert IsWork(t, Promoted(x, unallocated, Enriched(x, t)));
    }
  }

  // ---------------------------------------------------------------- one pass

  /** A pass over a list of the input's work: the provisional one, or one of the final two. */
  ghost function PassOver(x: PlannerInput, extra: seq<A.Interval>, pre: seq<PriorAllocation>, pass: PassType,
                          tasks: seq<SchedulableTask>): Progress
    requires U.ContextOk(x.availability)
  {
    Schedule(RequestFor(x, pre, pass), tasks, FreshSlots(x, extra))
  }

  lemma WorkReported(x: PlannerInput, extra: seq<A.Interval>, pre: seq<PriorAllocation>, pass: PassType,
                     tasks: seq<SchedulableTask>, t: TaskSnapshot)
    returns (e: SchedulableTask)
    requires InputOk(x) && Lists(x, tasks) && OfTheInput(x, t)
    ensures e in tasks && IsWork(t, e)
    ensures Reports(RequestFor(x, pre, pass), PassOver(x, extra, pre, pass, tasks), e)
  {
    e :| e in tasks && IsWork(t, e);
    FreshOffer(x, extra);
    EveryTaskReported(RequestFor(x, pre, pass), tasks, FreshSlots(x, extra), e);
  }

  /** The new chunks of a task in a pass. */
  ghost function OwnIn(q: Progress, t: TaskId): seq<Chunk> {
    OfTask(q.chunks, t)
  }

  lemma OverBuilt(x: PlannerInput, extra: seq<A.Interval>, pre: seq<PriorAllocation>, pass: PassType,
                  tasks: seq<SchedulableTask>)
    requires U.ContextOk(x.availability)
    ensures PassOver(x, extra, pre, pass, tasks).chunks ==
            ChunksOver(RequestFor(x, pre, pass), tasks, x.availability.(focusBlocks := extra))
  {
  }

  /** No chunk begins a whole slot or more before the task may start. */
  lemma StartTimeHolds(x: PlannerInput, extra: seq<A.Interval>, pre: seq<PriorAllocation>, pass: PassType,
                       t: TaskSnapshot, c: Chunk)
    requires InputOk(x) && t in x.tasks && Unfinished(t) && t.startAfter.Some?
    requires c in OwnIn(FinalPass(x, extra, pre, pass), t.id)
    ensures ChunkStart(c) > t.startAfter.value - x.availability.slotMinutes
  {
    var tasks := FinalTasks(x, extra, pre);
    FinalLists(x, extra, pre);
    OverBuilt(x, extra, pre, pass, tasks);
    WorkStarts(x, extra, RequestFor(x, pre, pass), tasks, t, c);
  }

  lemma WorkStarts(x: PlannerInput, extra: seq<A.Interval>, r: Request, tasks: seq<SchedulableTask>, t: TaskSnapshot,
                   c: Chunk)
    requires U.ContextOk(x.availability) && Lists(x, tasks) && OfTheInput(x, t) && t.startAfter.Some?
    requires c in OfTask(ChunksOver(r, tasks, x.availability.(focusBlocks := extra)), t.id)
    ensures ChunkStart(c) > t.startAfter.value - x.availability.slotMinutes
  {
    var e :| e in tasks && IsWork(t, e);
    StartsWithinOneSlot(r, tasks, x.availability.(focusBlocks := extra), e, c);
  }

  /** The minutes of a task's prior allocations. */
  ghost function PriorMinutes(pre: seq<PriorAllocation>, t: TaskId): int {
    if pre == [] then 0 else (if pre[0].task == t then pre[0].end - pre[0].start else 0) + PriorMinutes(pre[1..], t)
  }

  /** What a task needs in a pass. */
  ghost function Need(t: TaskSnapshot, pass: PassType): int {
    match pass
    case BasePass => t.remainingBase
    case SafetyPass => t.remainingSafety
  }

  lemma {:induction false} PriorMinutesInsert(a: PriorAllocation, s: seq<PriorAllocation>, t: TaskId)
    ensures PriorMinutes(Insert(PriorLeq, a, s), t) == PriorMinutes([a] + s, t)
    decreases |s|
  {
    assert ([a] + s)[1..] == s;
    if s != [] && !PriorLeq(a, s[0]) {
      PriorMinutesInsert(a, s[1..], t);
      assert ([a] + s[1..])[1..] == s[1..];
      assert Insert(PriorLeq, a, s)[1..] == Insert(PriorLeq, a, s[1..]);
    }
  }

  lemma {:induction false} PriorMinutesSorted(s: seq<PriorAllocation>, t: TaskId)
    ensures PriorMinutes(Sort(PriorLeq, s), t) == PriorMinutes(s, t)
    decreases |s|
  {
    if s != [] {
      PriorMinutesSorted(s[1..], t);
      PriorMinutesInsert(s[0], Sort(PriorLeq, s[1..]), t);
      assert ([s[0]] + Sort(PriorLeq, s[1..]))[1..] == Sort(PriorLeq, s[1..]);
    }
  }

  lemma {:induction false} PriorMinutesMore(s: seq<PriorAllocation>, a: PriorAllocation, t: TaskId)
    ensures PriorMinutes(s + [a], t) == PriorMinutes(s, t) + (if a.task == t then a.end - a.start else 0)
    decreases |s|
  {
    if s == [] {
      assert s + [a] == [a] && [a][1..] == [];
    } else {
      assert (s + [a])[1..] == s[1..] + [a];
      PriorMinutesMore(s[1..], a, t);
    }
  }

  lemma {:induction false} PriorOfMore(prior: seq<TaskAllocation>, b: TaskAllocation, t: TaskId)
    ensures AllocationMinutes(PriorOf(prior + [b], t)) ==
      AllocationMinutes(PriorOf(prior, t)) + (if b.task == t then b.end - b.start else 0)
    decreases |prior|
  {
    if prior == [] {
      assert prior + [b] == [b] && [b][1..] == [];
    } else {
      assert (prior + [b])[1..] == prior[1..] + [b];
      PriorOfMore(prior[1..], b, t);
      if prior[0].task == t {
        assert ([prior[0]] + PriorOf(prior[1..], t))[1..] == PriorOf(prior[1..], t);
        assert ([prior[0]] + PriorOf(prior[1..] + [b], t))[1..] == PriorOf(prior[1..] + [b], t);
      }
    }
  }

  lemma {:induction false} PreallocatedMinutes(sorted: seq<PriorAllocation>, pass: PassType, t: TaskId)
    ensures AllocationMinutes(PriorOf(Preallocated(sorted, pass), t)) == PriorMinutes(sorted, t)
    decreases |sorted|
  {
    if sorted != [] {
      var n := |sorted| - 1;
      var before, last := sorted[..n], sorted[n];
      assert sorted == before + [last];
      PreallocatedMinutes(before, pass, t);
      PreallocatedPrefix(sorted, pass);
      PriorOfMore(Preallocated(before, pass), Preallocated(sorted, pass)[n], t);
      PriorMinutesMore(before, last, t);
    }
  }

  lemma PreallocatedPrefix(sorted: seq<PriorAllocation>, pass: PassType)
    requires sorted != []
    ensures var n := |sorted| - 1;
      Preallocated(sorted, pass) == Preallocated(sorted[..n], pass) + [Preallocated(sorted, pass)[n]]
  {
    var n := |sorted| - 1;
    forall i | 0 <= i < n
      ensures Preallocated(sorted, pass)[i] == Preallocated(sorted[..n], pass)[i]
    {
      assert sorted[..n][..i] == sorted[..i];
    }
  }

  /** What a task still needs is its need less the minutes handed over for it. */
  lemma RequiredIs(x: PlannerInput, pre: seq<PriorAllocation>, pass: PassType, t: TaskSnapshot, e: SchedulableTask)
    requires IsWork(t, e)
    ensures Required(RequestFor(x, pre, pass), e) == Max(0, Need(t, pass) - PriorMinutes(pre, t.id))
  {
    PriorMinutesSorted(pre, t.id);
    PreallocatedMinutes(Sort(PriorLeq, pre), pass, t.id);
  }

  /** Everything a task has of a pass: what it was handed, and its new chunks. */
  ghost function Placed(pre: seq<PriorAllocation>, q: Progress, t: TaskId): int {
    PriorMinutes(pre, t) + ChunkMinutes(OwnIn(q, t))
  }

  /**
   How a task's work is cut: in one piece when it may not be split; no piece but the one that completes the task below
   the minimum chunk; never more than needed by a whole slot; and nothing at all when it was handed enough.
   */
  ghost predicate WellCut(pre: seq<PriorAllocation>, pass: PassType, q: Progress, t: TaskSnapshot) {
    var own := OwnIn(q, t.id);
    && (!t.splittable ==> |own| <= 1)
    && (forall k :: 0 <= k < |own| && (k < |own| - 1 || Placed(pre, q, t.id) < Need(t, pass)) ==>
          Minutes(own[k].slots) >= t.minChunk)
    && (own != [] ==> Placed(pre, q, t.id) - LastSpan(own[|own| - 1]) < Need(t, pass))
    && (Need(t, pass) <= PriorMinutes(pre, t.id) ==> own == [])
    && (!t.splittable && own != [] ==> Placed(pre, q, t.id) >= Need(t, pass))
  }

  lemma CutFromReport(x: PlannerInput, pre: seq<PriorAllocation>, pass: PassType, q: Progress, t: TaskSnapshot,
                      e: SchedulableTask)
    requires IsWork(t, e) && Reports(RequestFor(x, pre, pass), q, e)
    requires NoChunkWithout(RequestFor(x, pre, pass), q, e)
    ensures WellCut(pre, pass, q, t)
  {
    RequiredIs(x, pre, pass, t, e);
  }

  /** A task that needs nothing gets nothing. */
  ghost predicate NoChunkWithout(r: Request, q: Progress, e: SchedulableTask) {
    Required(r, e) <= 0 ==> OfTask(q.chunks, e.id) == []
  }

  /** Something placed for a task that needs nothing would leave work without it, which there is none of. */
  lemma NothingNeeded(r: Request, q: Progress, e: SchedulableTask)
    requires Reports(r, q, e) && Required(r, e) <= 0 && AllSolid(OfTask(q.chunks, e.id))
    ensures OfTask(q.chunks, e.id) == []
  {
    var own := OfTask(q.chunks, e.id);
    if own != [] {
      LastWithin(own);
    }
  }

  lemma {:induction false} LastWithin(own: seq<Chunk>)
    requires own != [] && AllSolid(own)
    ensures ChunkMinutes(own) >= LastSpan(own[|own| - 1])
    decreases |own|
  {
    assert Solid(own[0]);
    SolidSpans(own[0]);
    if |own| > 1 {
      forall k | 0 <= k < |own[1..]|
        ensures Solid(own[1..][k])
      {
        assert Solid(own[k + 1]);
      }
      LastWithin(own[1..]);
    }
  }

  lemma SolidSpans(c: Chunk)
    requires Solid(c)
    ensures Minutes(c.slots) >= LastSpan(c) > 0
  {
    AbuttingMinutes(c.slots);
    assert c.slots[|c.slots| - 1] in c.slots && c.slots[0] in c.slots;
    if |c.slots| > 1 {
      AbuttingRises(c.slots, 0, |c.slots| - 1);
    }
  }

  lemma {:induction false} OwnSolid(chunks: seq<Chunk>, t: TaskId)
    requires AllSolid(chunks)
    ensures AllSolid(OfTask(chunks, t))
    decreases |chunks|
  {
    if chunks != [] {
      assert Solid(chunks[0]);
      forall k | 0 <= k < |chunks[1..]|
        ensures Solid(chunks[1..][k])
      {
        assert Solid(chunks[k + 1]);
      }
      OwnSolid(chunks[1..], t);
    }
  }

  /** Every task of every final pass is well cut. */
  lemma EveryTaskWellCut(x: PlannerInput, extra: seq<A.Interval>, pre: seq<PriorAllocation>, pass: PassType,
                         t: TaskSnapshot)
    requires InputOk(x) && t in x.tasks && Unfinished(t)
    ensures WellCut(pre, pass, FinalPass(x, extra, pre, pass), t)
  {
    var r, tasks, q := RequestFor(x, pre, pass), FinalTasks(x, extra, pre), FinalPass(x, extra, pre, pass);
    FinalLists(x, extra, pre);
    var e := WorkReported(x, extra, pre, pass, tasks, t);
    FreshOffer(x, extra);
    ScheduleInv(r, tasks, FreshSlots(x, extra));
    OwnSolid(q.chunks, e.id);
    if Required(r, e) <= 0 {
      NothingNeeded(r, q, e);
    }
    CutFromReport(x, pre, pass, q, t, e);
  }

  // ---------------------------------------------------------------- who is placed

  /** Dependencies are among the tasks of the input. */
  ghost predicate KnownTasks(x: PlannerInput) {
    forall d :: d in x.dependencies ==> exists i :: 0 <= i < |x.tasks| && x.tasks[i].id == d.predecessor
  }

  /** Some task that must be done before `t` starts is finished, or not fully placed by the pass. */
  ghost predicate HeldBack(x: PlannerInput, unplaced: set<TaskId>, t: TaskId) {
    exists p :: TaskDependency(p, t, BlocksStart) in x.dependencies &&
      !exists u :: OfTheInput(x, u) && u.id == p && p !in unplaced
  }

  lemma ActiveIs(x: PlannerInput, id: TaskId)
    ensures IsActive(x.tasks, id) <==> exists u :: OfTheInput(x, u) && u.id == id
  {
    if u :| OfTheInput(x, u) && u.id == id {
      var i :| 0 <= i < |x.tasks| && x.tasks[i] == u;
    }
    if i :| 0 <= i < |x.tasks| && x.tasks[i].id == id && !IsFinished(x.tasks[i].status) {
      assert OfTheInput(x, x.tasks[i]);
    }
  }

  lemma GateIs(x: PlannerInput, pre: seq<PriorAllocation>, pass: PassType, t: TaskId, p: TaskId)
    requires IsActive(x.tasks, t)
    ensures p in GatesOf(RequestFor(x, pre, pass), t) <==> TaskDependency(p, t, BlocksStart) in x.dependencies
  {
    GatesAre(x, x.dependencies, t, p);
    if d :| d in x.dependencies && d.kind.BlocksStart? && d.successor == t && d.predecessor == p {
      assert d == TaskDependency(p, t, BlocksStart);
    }
  }

  /** A known task is fully placed exactly when it is unfinished and not reported unplaced. */
  lemma FullyIs(x: PlannerInput, extra: seq<A.Interval>, pre: seq<PriorAllocation>, pass: PassType,
                tasks: seq<SchedulableTask>, p: TaskId)
    requires InputOk(x) && Lists(x, tasks) && exists i :: 0 <= i < |x.tasks| && x.tasks[i].id == p
    ensures var q := PassOver(x, extra, pre, pass, tasks);
      p in q.fully <==> exists u :: OfTheInput(x, u) && u.id == p && p !in q.unallocated
  {
    var r, q := RequestFor(x, pre, pass), PassOver(x, extra, pre, pass, tasks);
    ActiveIs(x, p);
    if IsActive(x.tasks, p) {
      var u :| OfTheInput(x, u) && u.id == p;
      var e := WorkReported(x, extra, pre, pass, tasks, u);
    } else {
      FinishedNotScheduled(x, p);
      SortedIdsSame(tasks);
      if p in q.fully {
        FullyAreTasks(r, Opening(r, FreshSlots(x, extra)), Sort(KeyLeq, tasks), p);
      }
    }
  }

  lemma ReadyIs(x: PlannerInput, extra: seq<A.Interval>, pre: seq<PriorAllocation>, pass: PassType,
                tasks: seq<SchedulableTask>, t: TaskSnapshot, e: SchedulableTask)
    requires InputOk(x) && KnownTasks(x) && Lists(x, tasks) && OfTheInput(x, t) && e.id == t.id
    ensures var q := PassOver(x, extra, pre, pass, tasks);
      IsReady(RequestFor(x, pre, pass), q.fully, e) <==> !HeldBack(x, q.unallocated, t.id)
  {
    var r, q := RequestFor(x, pre, pass), PassOver(x, extra, pre, pass, tasks);
    ActiveIs(x, t.id);
    forall p
      ensures p in GatesOf(r, e.id) <==> TaskDependency(p, t.id, BlocksStart) in x.dependencies
      ensures p in GatesOf(r, e.id) ==>
        (p in q.fully <==> exists u :: OfTheInput(x, u) && u.id == p && p !in q.unallocated)
    {
      GateIs(x, pre, pass, t.id, p);
      if TaskDependency(p, t.id, BlocksStart) in x.dependencies {
        FullyIs(x, extra, pre, pass, tasks, p);
      }
    }
    HeldBackIs(r, q.fully, x, q.unallocated, e);
  }

  lemma HeldBackIs(r: Request, fully: seq<TaskId>, x: PlannerInput, unplaced: set<TaskId>, e: SchedulableTask)
    requires forall p :: p in GatesOf(r, e.id) <==> TaskDependency(p, e.id, BlocksStart) in x.dependencies
    requires forall p :: p in GatesOf(r, e.id) ==>
      (p in fully <==> exists u :: OfTheInput(x, u) && u.id == p && p !in unplaced)
    ensures IsReady(r, fully, e) <==> !HeldBack(x, unplaced, e.id)
  {
  }

  lemma UnplacedFromReport(x: PlannerInput, pre: seq<PriorAllocation>, pass: PassType, q: Progress, t: TaskSnapshot,
                           e: SchedulableTask)
    requires IsWork(t, e) && Reports(RequestFor(x, pre, pass), q, e) && ChunkMinutes(OwnIn(q, t.id)) >= 0
    requires IsReady(RequestFor(x, pre, pass), q.fully, e) <==> !HeldBack(x, q.unallocated, t.id)
    ensures t.id in q.unallocated <==> HeldBack(x, q.unallocated, t.id) || Placed(pre, q, t.id) < Need(t, pass)
    ensures HeldBack(x, q.unallocated, t.id) ==> OwnIn(q, t.id) == []
  {
    RequiredIs(x, pre, pass, t, e);
  }

  lemma OwnNotNegative(x: PlannerInput, extra: seq<A.Interval>, pre: seq<PriorAllocation>, pass: PassType,
                       tasks: seq<SchedulableTask>, t: TaskId)
    requires U.ContextOk(x.availability) && DistinctTasks(tasks)
    ensures ChunkMinutes(OwnIn(PassOver(x, extra, pre, pass, tasks), t)) >= 0
  {
    var q := PassOver(x, extra, pre, pass, tasks);
    FreshOffer(x, extra);
    ScheduleInv(RequestFor(x, pre, pass), tasks, FreshSlots(x, extra));
    OwnSolid(q.chunks, t);
    SolidNotNegative(OwnIn(q, t));
  }

  /**
   A pass reports a task unplaced exactly when it is held back, or has less than it needs; and one held back gets
   nothing new.
   */
  lemma UnplacedExactlyWhen(x: PlannerInput, extra: seq<A.Interval>, pre: seq<PriorAllocation>, pass: PassType,
                            tasks: seq<SchedulableTask>, t: TaskSnapshot)
    requires InputOk(x) && KnownTasks(x) && Lists(x, tasks) && t in x.tasks && Unfinished(t)
    ensures var q := PassOver(x, extra, pre, pass, tasks);
      && (t.id in q.unallocated <==> HeldBack(x, q.unallocated, t.id) || Placed(pre, q, t.id) < Need(t, pass))
      && (HeldBack(x, q.unallocated, t.id) ==> OwnIn(q, t.id) == [])
  {
    var e := WorkReported(x, extra, pre, pass, tasks, t);
    ReadyIs(x, extra, pre, pass, tasks, t, e);
    OwnNotNegative(x, extra, pre, pass, tasks, t.id);
    UnplacedFromReport(x, pre, pass, PassOver(x, extra, pre, pass, tasks), t, e);
  }

  lemma SolidNotNegative(own: seq<Chunk>)
    requires AllSolid(own)
    ensures ChunkMinutes(own) >= 0
  {
    if own != [] {
      LastWithin(own);
      assert Solid(own[|own| - 1]);
      SolidSpans(own[|own| - 1]);
    }
  }

  /** The same of the provisional pass, which looks at base minutes. */
  lemma ProvisionallyUnplaced(x: PlannerInput, extra: seq<A.Interval>, pre: seq<PriorAllocation>, t: TaskSnapshot)
    requires InputOk(x) && KnownTasks(x) && t in x.tasks && Unfinished(t)
    ensures var q := Provisional(x, extra, pre);
      t.id in q.unallocated <==>
        HeldBack(x, q.unallocated, t.id) || Placed(pre, q, t.id) < t.remainingBase
  {
    ProvisionalLists(x);
    UnplacedExactlyWhen(x, extra, pre, BasePass, Schedulable(x), t);
  }

  lemma FinallyUnplaced(x: PlannerInput, extra: seq<A.Interval>, pre: seq<PriorAllocation>, pass: PassType,
                        t: TaskSnapshot)
    requires InputOk(x) && KnownTasks(x) && t in x.tasks && Unfinished(t)
    ensures var q := FinalPass(x, extra, pre, pass);
      && (t.id in q.unallocated <==> HeldBack(x, q.unallocated, t.id) || Placed(pre, q, t.id) < Need(t, pass))
      && (HeldBack(x, q.unallocated, t.id) ==> OwnIn(q, t.id) == [])
  {
    FinalLists(x, extra, pre);
    UnplacedExactlyWhen(x, extra, pre, pass, FinalTasks(x, extra, pre), t);
  }
}
