/** What the risk levels mean: required work fully placed by the deadline, or not. */
module RiskTheorems {
  import opened Domain
  import opened Sorting
  import opened Priority
  import opened Ledger
  import opened Placement
  import opened Ownership
  import opened Conservation
  import opened PlacementFacts
  import opened SerialSchedule
  import opened SerialFacts
  import opened SerialTheorems
  import opened SerialOrder
  import opened PassCapacity
  import opened PlanningInput
  import opened GraphAnalysis
  import opened PlanningPasses
  import opened PlanningFacts
  import opened Risk
  import A = AvailabilitySlots
  import U = UniqueSlots
  import C = CycleDetection
  import R = Reachability

  // ---------------------------------------------------------------- counting minutes

  lemma {:induction false} MinutesSplit(allocations: seq<TaskAllocation>, s: set<TaskId>, t: set<TaskId>,
                                        limit: Option<Instant>)
    requires s !! t
    ensures MinutesBefore(allocations, s + t, limit) ==
      MinutesBefore(allocations, s, limit) + MinutesBefore(allocations, t, limit)
    decreases |allocations|
  {
    if allocations != [] {
      MinutesSplit(allocations[1..], s, t, limit);
    }
  }

  ghost predicate AllLast(allocations: seq<TaskAllocation>) {
    forall a :: a in allocations ==> a.start < a.end
  }

  /** A limit only lowers the count, and so do fewer members. */
  lemma {:induction false} MinutesGrow(allocations: seq<TaskAllocation>, s: set<TaskId>, t: set<TaskId>,
                                       limit: Option<Instant>)
    requires AllLast(allocations) && s <= t
    ensures 0 <= MinutesBefore(allocations, s, limit) <= MinutesBefore(allocations, t, None)
    decreases |allocations|
  {
    if allocations != [] {
      assert allocations[0] in allocations;
      MinutesGrow(allocations[1..], s, t, limit);
    }
  }

  /** The minutes of all allocations of one task. */
  lemma {:induction false} OneTaskMinutes(chunks: seq<Chunk>, pass: PassType, t: TaskId)
    requires AllSolid(chunks)
    ensures MinutesBefore(AllocationsOf(chunks, pass), {t}, None) == ChunkMinutes(OfTask(chunks, t))
    decreases |chunks|
  {
    if chunks != [] {
      var rest := chunks[1..];
      forall k | 0 <= k < |rest|
        ensures Solid(rest[k])
      {
        assert Solid(chunks[k + 1]);
      }
      OneTaskMinutes(rest, pass, t);
      assert Solid(chunks[0]);
      AbuttingMinutes(chunks[0].slots);
      assert AllocationsOf(chunks, pass)[1..] == AllocationsOf(rest, pass);
    }
  }

  lemma SolidAllLast(chunks: seq<Chunk>, pass: PassType)
    requires AllSolid(chunks)
    ensures AllLast(AllocationsOf(chunks, pass))
  {
    var all := AllocationsOf(chunks, pass);
    forall a | a in all
      ensures a.start < a.end
    {
      var k :| 0 <= k < |all| && all[k] == a;
      assert Solid(chunks[k]);
      SolidLasts(chunks[k]);
    }
  }

  // ---------------------------------------------------------------- uniform slots place exactly

  ghost predicate Uniform(offered: seq<SlotLike>, step: int) {
    forall o :: o in offered ==> o.end - o.start == step
  }

  ghost predicate AllSpan(xs: seq<LedgerSlot>, step: int) {
    forall x :: x in xs ==> Span(x) == step
  }

  lemma {:induction false} SpanMinutes(xs: seq<LedgerSlot>, step: int)
    requires AllSpan(xs, step)
    ensures Minutes(xs) == |xs| * step
    decreases |xs|
  {
    if xs != [] {
      assert xs[0] in xs;
      SpanMinutes(xs[1..], step);
    }
  }

  ghost predicate ChunksSpan(chunks: seq<Chunk>, step: int) {
    forall k {:trigger chunks[k]} :: 0 <= k < |chunks| ==> AllSpan(chunks[k].slots, step)
  }

  lemma Multiples(a: int, b: int, step: int)
    ensures a * step + b * step == (a + b) * step
  {
  }

  lemma {:induction false} ChunkSpanMinutes(chunks: seq<Chunk>, step: int) returns (n: int)
    requires ChunksSpan(chunks, step)
    ensures ChunkMinutes(chunks) == n * step
    decreases |chunks|
  {
    if chunks == [] {
      n := 0;
    } else {
      n := ChunkSpanMinutes(chunks[1..], step);
      assert AllSpan(chunks[0].slots, step);
      SpanMinutes(chunks[0].slots, step);
      Multiples(|chunks[0].slots|, n, step);
      n := |chunks[0].slots| + n;
    }
  }

  lemma {:induction false} OfTaskSpan(chunks: seq<Chunk>, t: TaskId, step: int)
    requires ChunksSpan(chunks, step)
    ensures ChunksSpan(OfTask(chunks, t), step)
    decreases |chunks|
  {
    if chunks != [] {
      assert AllSpan(chunks[0].slots, step);
      OfTaskSpan(chunks[1..], t, step);
    }
  }

  /** A multiple of the step that is above minus one step is not negative. */
  lemma NoOvershoot(need: int, n: int, step: int)
    requires step > 0 && need % step == 0 && need - n * step + step > 0
    ensures n * step <= need
  {
    var k := need / step;
    WholeQuotient(need, step);
    FactorOut(k, n, step);
    if n > k {
      NotPositive(k - n + 1, step);
    } else {
      NotNegative(k - n, step);
    }
  }

  lemma FactorOut(k: int, n: int, step: int)
    ensures (k - n + 1) * step == k * step - n * step + step
    ensures (k - n) * step == k * step - n * step
  {
  }

  lemma NotNegative(a: int, step: int)
    requires a >= 0 && step > 0
    ensures a * step >= 0
  {
  }

  lemma NotPositive(a: int, step: int)
    requires a <= 0 && step > 0
    ensures a * step <= 0
  {
  }

  /** Every slot of every chunk is an offered slot. */
  lemma ScheduledSpan(r: Request, tasks: seq<SchedulableTask>, offered: seq<SlotLike>, step: int)
    requires DistinctTasks(tasks) && Offerable(offered) && Uniform(offered, step)
    ensures ChunksSpan(Schedule(r, tasks, offered).chunks, step)
  {
    var s0, s1 := Opened(offered), Reserved(r, offered);
    var chunks := Schedule(r, tasks, offered).chunks;
    ScheduleInv(r, tasks, offered);
    ReservedFacts(r, offered);
    OpenedFacts(offered);
    forall k | 0 <= k < |chunks|
      ensures AllSpan(chunks[k].slots, step)
    {
      assert Available(s1, chunks[k].slots);
      forall x | x in chunks[k].slots
        ensures Span(x) == step
      {
        FreeStays(s0, s1, x);
      }
    }
  }

  /** With uniform slots, a task whose demand is a whole number of slots never gets more than it needs. */
  lemma UniformExact(r: Request, tasks: seq<SchedulableTask>, offered: seq<SlotLike>, t: SchedulableTask, step: int)
    requires DistinctTasks(tasks) && Offerable(offered) && t in tasks
    requires step > 0 && Uniform(offered, step) && Required(r, t) % step == 0
    ensures ChunkMinutes(OfTask(Schedule(r, tasks, offered).chunks, t.id)) <= Required(r, t)
  {
    var q := Schedule(r, tasks, offered);
    var own := OfTask(q.chunks, t.id);
    EveryTaskReported(r, tasks, offered, t);
    ScheduledSpan(r, tasks, offered, step);
    OfTaskSpan(q.chunks, t.id, step);
    var n := ChunkSpanMinutes(own, step);
    if own != [] {
      LastIsStep(own, step);
      assert Sized(own, t, Required(r, t) - ChunkMinutes(own));
      NoOvershoot(Required(r, t), n, step);
    }
  }

  lemma LastIsStep(own: seq<Chunk>, step: int)
    requires ChunksSpan(own, step) && own != []
    ensures LastSpan(own[|own| - 1]) == step
  {
    var slots := own[|own| - 1].slots;
    assert AllSpan(own[|own| - 1].slots, step);
    assert slots[|slots| - 1] in slots;
  }

  /** Windows that last whole numbers of slots are cut into uniform slots. */
  ghost predicate WholeWindows(x: PlannerInput)
    requires x.availability.slotMinutes > 0
  {
    forall w :: w in x.availability.windows ==> (w.end - w.start) % x.availability.slotMinutes == 0
  }

  lemma {:induction false} TilesWhole(start: Instant, end: Instant, step: int, counter: nat, k: int, i: int)
    requires step > 0 && end - start == k * step && 0 <= i < |A.Tiles(start, end, step, counter)|
    ensures A.Length(A.Tiles(start, end, step, counter)[i]) == step
    decreases end - start
  {
    AtLeastOne(k, step);
    if i > 0 {
      TilesWhole(start + step, end, step, counter + 1, k - 1, i - 1);
    }
  }

  lemma AtLeastOne(k: int, step: int)
    requires step > 0
    ensures k * step > 0 ==> k * step >= step
    ensures k * step - step == (k - 1) * step
  {
    if k <= 0 {
      NotPositive(k, step);
    }
  }

  lemma WholeQuotient(n: int, step: int)
    requires step > 0 && n % step == 0
    ensures n == n / step * step
  {
  }

  lemma {:induction false} TileAllWhole(windows: seq<A.Interval>, step: int, counter: nat, i: int)
    requires step > 0 && (forall w :: w in windows ==> (w.end - w.start) % step == 0)
    requires 0 <= i < |A.TileAll(windows, step, counter)|
    ensures A.Length(A.TileAll(windows, step, counter)[i]) == step
    decreases |windows|
  {
    var tiles := A.Tiles(windows[0].start, windows[0].end, step, counter);
    if i < |tiles| {
      WholeQuotient(windows[0].end - windows[0].start, step);
      TilesWhole(windows[0].start, windows[0].end, step, counter, (windows[0].end - windows[0].start) / step, i);
    } else {
      TileAllWhole(windows[1..], step, counter + |tiles|, i - |tiles|);
    }
  }

  /** Windows of whole slots make uniform offers. */
  lemma WholeWindowsUniform(x: PlannerInput, extra: seq<A.Interval>)
    requires U.ContextOk(x.availability) && WholeWindows(x)
    ensures Uniform(FreshSlots(x, extra), x.availability.slotMinutes)
  {
    var c := x.availability.(focusBlocks := extra);
    var offered := FreshSlots(x, extra);
    forall o | o in offered
      ensures o.end - o.start == c.slotMinutes
    {
      var i :| 0 <= i < |offered| && offered[i] == o;
      U.StatesDecided(c, i);
      TileAllWhole(c.windows, c.slotMinutes, 0, i);
    }
  }

  // ---------------------------------------------------------------- no want is overfilled

  /** The passes whose result the risks are read off: nothing preallocated, nothing extra protected. */
  ghost function Result(x: PlannerInput, pass: PassType): ScheduleResult
    requires U.ContextOk(x.availability)
  {
    PassResult(x, [], [], pass)
  }

  /** All windows and what the members of a milestone need in a pass are whole numbers of slots. */
  ghost predicate GranularMembers(x: PlannerInput, m: Milestone, pass: PassType)
    requires U.ContextOk(x.availability)
  {
    && WholeWindows(x)
    && forall t :: t in x.tasks && IsMember(t, m) ==>
         Remaining(t, pass) >= 0 && Remaining(t, pass) % x.availability.slotMinutes == 0
  }

  /** All windows and the buffers of a milestone are whole numbers of slots. */
  ghost predicate GranularBuffers(x: PlannerInput, m: Milestone)
    requires U.ContextOk(x.availability)
  {
    && WholeWindows(x)
    && forall e :: e in BuffersFor(x, m) ==> e.safetyMinutes >= 0 && e.safetyMinutes % x.availability.slotMinutes == 0
  }

  /** The final task with an id and its duration in a pass. */
  ghost predicate Demands(x: PlannerInput, pass: PassType, id: TaskId, minutes: int)
    requires U.ContextOk(x.availability)
  {
    exists e :: e in FinalTasks(x, [], []) && e.id == id && Duration(e, pass) == minutes
  }

  lemma NothingPreallocated(x: PlannerInput, pass: PassType, e: SchedulableTask)
    ensures RequestFor(x, [], pass).prior == [] && Required(RequestFor(x, [], pass), e) == Max(0, Duration(e, pass))
  {
  }

  /** A task gets at most its demand, whatever part of it is counted. */
  lemma AtMostDemand(x: PlannerInput, pass: PassType, id: TaskId, minutes: int, limit: Option<Instant>)
    requires InputOk(x) && WholeWindows(x) && Demands(x, pass, id, minutes)
    requires minutes >= 0 && minutes % x.availability.slotMinutes == 0
    ensures MinutesBefore(Result(x, pass).allocations, {id}, limit) <= minutes
  {
    var r := RequestFor(x, [], pass);
    var tasks, offered := FinalTasks(x, [], []), FreshSlots(x, []);
    var e :| e in tasks && e.id == id && Duration(e, pass) == minutes;
    var chunks := FinalPass(x, [], [], pass).chunks;
    FinalDistinct(x, [], []);
    FreshOffer(x, []);
    WholeWindowsUniform(x, []);
    NothingPreallocated(x, pass, e);
    UniformExact(r, tasks, offered, e, x.availability.slotMinutes);
    ScheduleInv(r, tasks, offered);
    CountedAtMost(chunks, pass, id, limit);
    ResultAllocations(x, pass);
  }

  lemma ResultAllocations(x: PlannerInput, pass: PassType)
    requires U.ContextOk(x.availability)
    ensures Result(x, pass).allocations == AllocationsOf(FinalPass(x, [], [], pass).chunks, pass)
  {
    OnlyNew(RequestFor(x, [], pass), FinalPass(x, [], [], pass));
  }

  lemma CountedAtMost(chunks: seq<Chunk>, pass: PassType, id: TaskId, limit: Option<Instant>)
    requires AllSolid(chunks)
    ensures MinutesBefore(AllocationsOf(chunks, pass), {id}, limit) <= ChunkMinutes(OfTask(chunks, id))
  {
    OneTaskMinutes(chunks, pass, id);
    SolidAllLast(chunks, pass);
    MinutesGrow(AllocationsOf(chunks, pass), {id}, {id}, limit);
  }

  // ---------------------------------------------------------------- lists of wants

  ghost predicate WantsDistinct(wants: seq<Want>) {
    forall i, j :: 0 <= i < j < |wants| ==> wants[i].id != wants[j].id
  }

  /** A want is filled when its minutes are placed by the limit. */
  ghost predicate Filled(allocations: seq<TaskAllocation>, limit: Option<Instant>, w: Want) {
    MinutesBefore(allocations, {w.id}, limit) >= w.minutes
  }

  ghost predicate NotOverfilled(allocations: seq<TaskAllocation>, limit: Option<Instant>, w: Want) {
    MinutesBefore(allocations, {w.id}, limit) <= w.minutes
  }

  ghost predicate AllFilled(allocations: seq<TaskAllocation>, limit: Option<Instant>, wants: seq<Want>) {
    forall w :: w in wants ==> Filled(allocations, limit, w)
  }

  lemma {:induction false} NobodyCounted(allocations: seq<TaskAllocation>, limit: Option<Instant>)
    ensures MinutesBefore(allocations, {}, limit) == 0
    decreases |allocations|
  {
    if allocations != [] {
      NobodyCounted(allocations[1..], limit);
    }
  }

  lemma WantsTail(wants: seq<Want>)
    requires wants != []
    ensures WantIds(wants) == {wants[0].id} + WantIds(wants[1..])
    ensures WantsDistinct(wants) ==> WantsDistinct(wants[1..]) && {wants[0].id} !! WantIds(wants[1..])
  {
    assert wants == [wants[0]] + wants[1..];
    if WantsDistinct(wants) {
      forall w | w in wants[1..]
        ensures w.id != wants[0].id
      {
        var i :| 0 <= i < |wants[1..]| && wants[1..][i] == w;
        assert wants[i + 1] == w;
      }
    }
  }

  /** With no want overfilled, the sum covers the sum exactly when each is filled. */
  lemma {:induction false} SumExactly(allocations: seq<TaskAllocation>, limit: Option<Instant>, wants: seq<Want>)
    requires WantsDistinct(wants) && forall w :: w in wants ==> NotOverfilled(allocations, limit, w)
    ensures MinutesBefore(allocations, WantIds(wants), limit) <= SumWants(wants)
    ensures MinutesBefore(allocations, WantIds(wants), limit) == SumWants(wants) <==>
            AllFilled(allocations, limit, wants)
    decreases |wants|
  {
    if wants == [] {
      assert WantIds(wants) == {};
      NobodyCounted(allocations, limit);
    } else {
      var first, rest := wants[0], wants[1..];
      WantsTail(wants);
      assert wants == [first] + rest;
      SumExactly(allocations, limit, rest);
      MinutesSplit(allocations, {first.id}, WantIds(rest), limit);
      assert NotOverfilled(allocations, limit, first);
      FilledCons(allocations, limit, first, rest);
    }
  }

  lemma FilledCons(allocations: seq<TaskAllocation>, limit: Option<Instant>, first: Want, rest: seq<Want>)
    ensures AllFilled(allocations, limit, [first] + rest) <==>
            Filled(allocations, limit, first) && AllFilled(allocations, limit, rest)
  {
    var all := [first] + rest;
    if AllFilled(allocations, limit, all) {
      assert first in all;
      forall w | w in rest
        ensures Filled(allocations, limit, w)
      {
        assert w in all;
      }
    }
  }

  // ---------------------------------------------------------------- members and buffers

  lemma {:induction false} MemberWantsFrom(tasks: seq<TaskSnapshot>, m: Milestone, pass: PassType, w: Want)
    ensures w in MemberWants(tasks, m, pass) <==>
            exists t :: t in tasks && IsMember(t, m) && w == Want(t.id, Remaining(t, pass))
    decreases |tasks|
  {
    if tasks != [] {
      MemberWantsFrom(tasks[1..], m, pass, w);
      assert tasks == [tasks[0]] + tasks[1..];
    }
  }

  lemma {:induction false} MemberWantsDistinct(tasks: seq<TaskSnapshot>, m: Milestone, pass: PassType)
    requires TasksDistinct(tasks)
    ensures WantsDistinct(MemberWants(tasks, m, pass))
    decreases |tasks|
  {
    if tasks != [] {
      DistinctTail(tasks);
      MemberWantsDistinct(tasks[1..], m, pass);
      forall w | w in MemberWants(tasks[1..], m, pass)
        ensures w.id != tasks[0].id
      {
        MemberWantsFrom(tasks[1..], m, pass, w);
      }
    }
  }

  lemma {:induction false} SameMembers(tasks: seq<TaskSnapshot>, m: Milestone)
    ensures WantIds(MemberWants(tasks, m, BasePass)) == WantIds(MemberWants(tasks, m, SafetyPass))
    decreases |tasks|
  {
    if tasks != [] {
      SameMembers(tasks[1..], m);
      if IsMember(tasks[0], m) {
        WantsTail(MemberWants(tasks, m, BasePass));
        WantsTail(MemberWants(tasks, m, SafetyPass));
      }
    }
  }

  /** A schedulable task keeps its id and durations in the final passes. */
  lemma DemandKept(x: PlannerInput, pass: PassType, e: SchedulableTask)
    requires InputOk(x) && e in Schedulable(x)
    ensures Demands(x, pass, e.id, Duration(e, pass))
  {
    var unallocated := Provisional(x, [], []).unallocated;
    SchedulableDistinct(x);
    PromotedSame(x, unallocated, Schedulable(x));
    var e' := Promoted(x, unallocated, e);
    assert e' in FinalTasks(x, [], []) && e'.id == e.id && Duration(e', pass) == Duration(e, pass);
  }

  lemma EnrichedDuration(x: PlannerInput, t: TaskSnapshot, pass: PassType)
    ensures Enriched(x, t).id == t.id && Duration(Enriched(x, t), pass) == Remaining(t, pass)
  {
  }

  /** A member's remaining minutes are its demand in the final passes. */
  lemma MemberDemands(x: PlannerInput, m: Milestone, pass: PassType, w: Want)
    requires InputOk(x) && GranularMembers(x, m, pass) && w in MemberWants(x.tasks, m, pass)
    ensures Demands(x, pass, w.id, w.minutes) && w.minutes >= 0 && w.minutes % x.availability.slotMinutes == 0
  {
    MemberWantsFrom(x.tasks, m, pass, w);
    var t :| t in x.tasks && IsMember(t, m) && w == Want(t.id, Remaining(t, pass));
    EnrichedFrom(x, x.tasks, Enriched(x, t));
    EnrichedDuration(x, t, pass);
    DemandKept(x, pass, Enriched(x, t));
  }

  /** A buffer's minutes are its demand in the safety pass. */
  lemma BufferDemands(x: PlannerInput, m: Milestone, w: Want)
    requires InputOk(x) && GranularBuffers(x, m) && m in x.milestones && w in BufferWants(BuffersFor(x, m))
    ensures Demands(x, SafetyPass, w.id, w.minutes) && w.minutes >= 0 && w.minutes % x.availability.slotMinutes == 0
  {
    var buffers := BuffersFor(x, m);
    var i :| 0 <= i < |buffers| && BufferWants(buffers)[i] == w;
    assert buffers[i] in buffers;
    BuffersFrom(x, x.milestones, buffers[i]);
    DemandKept(x, SafetyPass, buffers[i]);
  }

  /** No want is overfilled, and no allocation is empty. */
  ghost predicate Exact(allocations: seq<TaskAllocation>, limit: Option<Instant>, wants: seq<Want>) {
    AllLast(allocations) && WantsDistinct(wants) && forall w :: w in wants ==> NotOverfilled(allocations, limit, w)
  }

  /** With no want overfilled, the counted sum is at most the required one and equals it exactly when all are filled. */
  lemma CountedExactly(allocations: seq<TaskAllocation>, limit: Option<Instant>, wants: seq<Want>)
    requires Exact(allocations, limit, wants)
    ensures var counted := MinutesBefore(allocations, WantIds(wants), limit);
      0 <= counted <= SumWants(wants) && (counted == SumWants(wants) <==> AllFilled(allocations, limit, wants))
  {
    SumExactly(allocations, limit, wants);
    MinutesGrow(allocations, WantIds(wants), WantIds(wants), limit);
  }

  /** In whole slots no member of a milestone gets more of a pass than it needs. */
  lemma MembersExact(x: PlannerInput, m: Milestone, pass: PassType)
    requires InputOk(x) && GranularMembers(x, m, pass)
    ensures Exact(Result(x, pass).allocations, m.limit, MemberWants(x.tasks, m, pass))
  {
    var wants := MemberWants(x.tasks, m, pass);
    ResultLasts(x, pass);
    MemberWantsDistinct(x.tasks, m, pass);
    forall w | w in wants
      ensures NotOverfilled(Result(x, pass).allocations, m.limit, w)
    {
      MemberDemands(x, m, pass, w);
      AtMostDemand(x, pass, w.id, w.minutes, m.limit);
    }
  }

  /** Nor does a buffer. */
  lemma BuffersExact(x: PlannerInput, m: Milestone)
    requires InputOk(x) && GranularBuffers(x, m) && m in x.milestones
    ensures Exact(Result(x, SafetyPass).allocations, m.limit, BufferWants(BuffersFor(x, m)))
  {
    var wants := BufferWants(BuffersFor(x, m));
    ResultLasts(x, SafetyPass);
    BuffersForDistinct(x, m);
    forall w | w in wants
      ensures NotOverfilled(Result(x, SafetyPass).allocations, m.limit, w)
    {
      BufferDemands(x, m, w);
      AtMostDemand(x, SafetyPass, w.id, w.minutes, m.limit);
    }
  }

  lemma ResultLasts(x: PlannerInput, pass: PassType)
    requires InputOk(x)
    ensures AllLast(Result(x, pass).allocations)
  {
    FinalDistinct(x, [], []);
    FreshOffer(x, []);
    ScheduleInv(RequestFor(x, [], pass), FinalTasks(x, [], []), FreshSlots(x, []));
    ResultAllocations(x, pass);
    SolidAllLast(FinalPass(x, [], [], pass).chunks, pass);
  }

  // ---------------------------------------------------------------- the levels

  /** Every active task of the milestone has its minutes of a pass placed by the deadline. */
  ghost predicate MembersPlaced(x: PlannerInput, m: Milestone, pass: PassType, allocations: seq<TaskAllocation>) {
    forall t :: t in x.tasks && IsMember(t, m) ==>
      MinutesBefore(allocations, {t.id}, m.limit) >= Remaining(t, pass)
  }

  /** The buffers of the milestone are placed by the deadline. */
  ghost predicate BuffersPlaced(x: PlannerInput, m: Milestone, allocations: seq<TaskAllocation>) {
    forall e :: e in BuffersFor(x, m) ==> MinutesBefore(allocations, {e.id}, m.limit) >= e.safetyMinutes
  }

  lemma MembersPlacedFilled(x: PlannerInput, m: Milestone, pass: PassType, all: seq<TaskAllocation>)
    ensures MembersPlaced(x, m, pass, all) <==> AllFilled(all, m.limit, MemberWants(x.tasks, m, pass))
  {
    var wants := MemberWants(x.tasks, m, pass);
    forall w | w in wants && MembersPlaced(x, m, pass, all)
      ensures Filled(all, m.limit, w)
    {
      MemberWantsFrom(x.tasks, m, pass, w);
    }
    forall t | t in x.tasks && IsMember(t, m) && AllFilled(all, m.limit, wants)
      ensures MinutesBefore(all, {t.id}, m.limit) >= Remaining(t, pass)
    {
      var w := Want(t.id, Remaining(t, pass));
      MemberWantsFrom(x.tasks, m, pass, w);
      assert Filled(all, m.limit, w);
    }
  }

  lemma BuffersPlacedFilled(x: PlannerInput, m: Milestone, all: seq<TaskAllocation>)
    ensures BuffersPlaced(x, m, all) <==> AllFilled(all, m.limit, BufferWants(BuffersFor(x, m)))
  {
    var buffers := BuffersFor(x, m);
    var wants := BufferWants(buffers);
    forall w | w in wants && BuffersPlaced(x, m, all)
      ensures Filled(all, m.limit, w)
    {
      var i :| 0 <= i < |wants| && wants[i] == w;
      assert buffers[i] in buffers;
    }
    forall e | e in buffers && AllFilled(all, m.limit, wants)
      ensures MinutesBefore(all, {e.id}, m.limit) >= e.safetyMinutes
    {
      var i :| 0 <= i < |buffers| && buffers[i] == e;
      assert wants[i] in wants;
      assert Filled(all, m.limit, wants[i]);
    }
  }

  /** A milestone with a known deadline time none of whose members is on a cycle. */
  ghost predicate Timed(x: PlannerInput, m: Milestone) {
    && m in x.milestones && m.limit.Some? && !m.dateOnly
    && forall t :: t in x.tasks && IsMember(t, m) ==> !R.OnCycle(C.BlockingGraph(x.dependencies), t.id)
  }

  lemma TimedNoCycle(x: PlannerInput, m: Milestone)
    requires Timed(x, m)
    ensures WantIds(MemberWants(x.tasks, m, BasePass)) * AnalysisOf(x).blocked == {}
  {
    forall id | id in WantIds(MemberWants(x.tasks, m, BasePass))
      ensures id !in AnalysisOf(x).blocked
    {
      var w :| w in MemberWants(x.tasks, m, BasePass) && w.id == id;
      MemberWantsFrom(x.tasks, m, BasePass, w);
    }
  }

  ghost function Level(x: PlannerInput, m: Milestone): RiskLevel
    requires U.ContextOk(x.availability)
  {
    AssessmentOf(x, Result(x, BasePass), Result(x, SafetyPass), m).level
  }

  /** The decision, from the sums. */
  lemma ClassifyDecides(c: MilestoneCoverage, slack: Option<int>, step: int)
    requires step > 0 && !c.hasCycleMember && !c.dateOnly && c.limit.Some?
    ensures Classify(c, slack, step).0.Critical? <==> BaseShort(c)
    ensures Classify(c, slack, step).0.Medium? || Classify(c, slack, step).0.Low? <==>
            !BaseShort(c) && !SafetyShort(c) && c.buffersAllocated >= c.bufferRequired
  {
  }

  lemma AssessmentDecides(x: PlannerInput, base: ScheduleResult, safety: ScheduleResult, m: Milestone)
    requires U.ContextOk(x.availability) && Timed(x, m)
    ensures var c := CoverageOf(x, base, safety, m); var level := AssessmentOf(x, base, safety, m).level;
      && (level.Critical? <==> BaseShort(c))
      && (level.Medium? || level.Low? <==> !BaseShort(c) && !SafetyShort(c) && c.buffersAllocated >= c.bufferRequired)
  {
    TimedNoCycle(x, m);
    var c := CoverageOf(x, base, safety, m);
    ClassifyDecides(c, None, x.availability.slotMinutes);
    ClassifyDecides(c, Some(FreeSlack(x, safety.slots, c.limit)), x.availability.slotMinutes);
  }

  /** Where neither sum exceeds its bound, the three comparisons of the classification are three equalities. */
  lemma CoveredExactly(c: MilestoneCoverage)
    requires 0 <= c.baseAllocated <= c.baseRequired && 0 <= c.safetyAllocated <= c.safetyRequired
    requires 0 <= c.buffersAllocated <= c.bufferRequired
    ensures !BaseShort(c) <==> c.baseAllocated == c.baseRequired
    ensures !BaseShort(c) && !SafetyShort(c) && c.buffersAllocated >= c.bufferRequired <==>
            c.baseAllocated == c.baseRequired && c.safetyAllocated == c.safetyRequired &&
            c.buffersAllocated == c.bufferRequired
  {
  }

  /** No member and no buffer of the milestone got more than it needs. */
  ghost predicate AllExact(x: PlannerInput, base: seq<TaskAllocation>, safety: seq<TaskAllocation>, m: Milestone) {
    && Exact(base, m.limit, MemberWants(x.tasks, m, BasePass))
    && Exact(safety, m.limit, MemberWants(x.tasks, m, SafetyPass))
    && Exact(safety, m.limit, BufferWants(BuffersFor(x, m)))
  }

  /** Each sum of the coverage is within its requirement, and meets it exactly when its parts are placed. */
  lemma CoverageExact(x: PlannerInput, base: ScheduleResult, safety: ScheduleResult, m: Milestone)
    requires AllExact(x, base.allocations, safety.allocations, m)
    ensures var c := CoverageOf(x, base, safety, m);
      && 0 <= c.baseAllocated <= c.baseRequired && 0 <= c.safetyAllocated <= c.safetyRequired
      && 0 <= c.buffersAllocated <= c.bufferRequired
      && (c.baseAllocated == c.baseRequired <==> MembersPlaced(x, m, BasePass, base.allocations))
      && (c.safetyAllocated == c.safetyRequired <==> MembersPlaced(x, m, SafetyPass, safety.allocations))
      && (c.buffersAllocated == c.bufferRequired <==> BuffersPlaced(x, m, safety.allocations))
  {
    CountedExactly(base.allocations, m.limit, MemberWants(x.tasks, m, BasePass));
    CountedExactly(safety.allocations, m.limit, MemberWants(x.tasks, m, SafetyPass));
    CountedExactly(safety.allocations, m.limit, BufferWants(BuffersFor(x, m)));
    SameMembers(x.tasks, m);
    MembersPlacedFilled(x, m, BasePass, base.allocations);
    MembersPlacedFilled(x, m, SafetyPass, safety.allocations);
    BuffersPlacedFilled(x, m, safety.allocations);
  }

  /** What the levels of a timed milestone mean, for any two passes that give nobody more than needed. */
  lemma LevelsMean(x: PlannerInput, base: ScheduleResult, safety: ScheduleResult, m: Milestone)
    requires U.ContextOk(x.availability) && Timed(x, m)
    requires AllExact(x, base.allocations, safety.allocations, m)
    ensures var level := AssessmentOf(x, base, safety, m).level;
      && (level.Critical? <==> !MembersPlaced(x, m, BasePass, base.allocations))
      && (level.Medium? || level.Low? <==>
            && MembersPlaced(x, m, BasePass, base.allocations)
            && MembersPlaced(x, m, SafetyPass, safety.allocations)
            && BuffersPlaced(x, m, safety.allocations))
  {
    AssessmentDecides(x, base, safety, m);
    CoverageExact(x, base, safety, m);
    CoveredExactly(CoverageOf(x, base, safety, m));
  }

  /** The critical level alone needs exact base work alone. */
  lemma CriticalMeans(x: PlannerInput, base: ScheduleResult, safety: ScheduleResult, m: Milestone)
    requires U.ContextOk(x.availability) && Timed(x, m)
    requires Exact(base.allocations, m.limit, MemberWants(x.tasks, m, BasePass))
    ensures AssessmentOf(x, base, safety, m).level.Critical? <==> !MembersPlaced(x, m, BasePass, base.allocations)
  {
    AssessmentDecides(x, base, safety, m);
    CountedExactly(base.allocations, m.limit, MemberWants(x.tasks, m, BasePass));
    MembersPlacedFilled(x, m, BasePass, base.allocations);
  }

  /**
   A timed milestone is critical exactly when some active member does not have all its base minutes placed by the
   deadline, provided windows and the members' base minutes are whole numbers of slots.
   */
  lemma CriticalExactlyWhenBaseShort(x: PlannerInput, m: Milestone)
    requires InputOk(x) && Timed(x, m) && GranularMembers(x, m, BasePass)
    ensures Level(x, m).Critical? <==> !MembersPlaced(x, m, BasePass, Result(x, BasePass).allocations)
  {
    MembersExact(x, m, BasePass);
    CriticalMeans(x, Result(x, BasePass), Result(x, SafetyPass), m);
  }

  /**
   A timed milestone is at medium or low risk exactly when base minutes, safety minutes and buffers are all placed by
   the deadline, provided all of them are whole numbers of slots.
   */
  lemma MediumOrLowExactlyWhenAllPlaced(x: PlannerInput, m: Milestone)
    requires InputOk(x) && Timed(x, m)
    requires GranularMembers(x, m, BasePass) && GranularMembers(x, m, SafetyPass) && GranularBuffers(x, m)
    ensures Level(x, m).Medium? || Level(x, m).Low? <==>
            && MembersPlaced(x, m, BasePass, Result(x, BasePass).allocations)
            && MembersPlaced(x, m, SafetyPass, Result(x, SafetyPass).allocations)
            && BuffersPlaced(x, m, Result(x, SafetyPass).allocations)
  {
    MembersExact(x, m, BasePass);
    MembersExact(x, m, SafetyPass);
    BuffersExact(x, m);
    LevelsMean(x, Result(x, BasePass), Result(x, SafetyPass), m);
  }

  /** The threshold is the least number of whole slots that covers a tenth of the minutes, or half an hour if more. */
  lemma ThresholdMeans(total: int, step: int)
    requires step > 0 && total >= 0
    ensures var t := MediumThreshold(total, step);
      && t >= 30 && 10 * t >= total && (t == 30 || 10 * (t - step) < total)
      && (t == 30 || exists n :: IsTimes(t, n, step))
  {
    var n := total + 10 * step - 1;
    var q := n / (10 * step);
    assert n - 10 * step < q * (10 * step) <= n;
    Tenfold(q, step);
    assert IsTimes(q * step, q, step);
  }

  ghost predicate IsTimes(t: int, n: int, step: int) {
    t == n * step
  }

  lemma Tenfold(q: int, step: int)
    ensures q * (10 * step) == 10 * (q * step)
  {
  }

  /** Between medium and low, the free minutes before the deadline decide. */
  lemma LowExactlyWhenSlack(x: PlannerInput, base: ScheduleResult, safety: ScheduleResult, m: Milestone)
    requires U.ContextOk(x.availability) && Timed(x, m)
    requires AllExact(x, base.allocations, safety.allocations, m)
    ensures var c := CoverageOf(x, base, safety, m);
      AssessmentOf(x, base, safety, m).level.Low? <==>
        && MembersPlaced(x, m, BasePass, base.allocations)
        && MembersPlaced(x, m, SafetyPass, safety.allocations)
        && BuffersPlaced(x, m, safety.allocations)
        && FreeSlack(x, safety.slots, m.limit) >=
             MediumThreshold(c.safetyRequired + c.bufferRequired, x.availability.slotMinutes)
  {
    LevelsMean(x, base, safety, m);
    TimedNoCycle(x, m);
  }

  // ---------------------------------------------------------------- cycles

  /** A milestone is critical, whatever its deadline or coverage, when a member can reach itself over blocking edges. */
  lemma CycleMemberIsCritical(x: PlannerInput, base: ScheduleResult, safety: ScheduleResult, m: Milestone,
                              t: TaskSnapshot)
    requires U.ContextOk(x.availability)
    requires t in x.tasks && IsMember(t, m) && R.OnCycle(C.BlockingGraph(x.dependencies), t.id)
    ensures AssessmentOf(x, base, safety, m).level.Critical?
  {
    var w := Want(t.id, Remaining(t, BasePass));
    MemberWantsFrom(x.tasks, m, BasePass, w);
    assert w.id in WantIds(MemberWants(x.tasks, m, BasePass));
    assert t.id in C.BlockingGraph(x.dependencies);
    assert t.id in WantIds(MemberWants(x.tasks, m, BasePass)) * AnalysisOf(x).blocked;
  }

  // ---------------------------------------------------------------- uneven slots

  lemma {:induction false} SumCovers(allocations: seq<TaskAllocation>, limit: Option<Instant>, wants: seq<Want>)
    requires WantsDistinct(wants) && AllFilled(allocations, limit, wants)
    ensures MinutesBefore(allocations, WantIds(wants), limit) >= SumWants(wants)
    decreases |wants|
  {
    if wants == [] {
      assert WantIds(wants) == {};
      NobodyCounted(allocations, limit);
    } else {
      WantsTail(wants);
      assert wants == [wants[0]] + wants[1..];
      FilledCons(allocations, limit, wants[0], wants[1..]);
      SumCovers(allocations, limit, wants[1..]);
      MinutesSplit(allocations, {wants[0].id}, WantIds(wants[1..]), limit);
    }
  }

  /** Whatever the slots and demands, a timed milestone all of whose base work is placed in time is never critical. */
  lemma PlacedIsNeverCritical(x: PlannerInput, base: ScheduleResult, safety: ScheduleResult, m: Milestone)
    requires U.ContextOk(x.availability) && TasksDistinct(x.tasks) && Timed(x, m)
    requires MembersPlaced(x, m, BasePass, base.allocations)
    ensures !AssessmentOf(x, base, safety, m).level.Critical?
  {
    AssessmentDecides(x, base, safety, m);
    MembersPlacedFilled(x, m, BasePass, base.allocations);
    MemberWantsDistinct(x.tasks, m, BasePass);
    SumCovers(base.allocations, m.limit, MemberWants(x.tasks, m, BasePass));
  }

  // ---------------------------------------------------------------- all milestones together

  /** The base minutes counted for all milestones. */
  ghost function CountedForAll(x: PlannerInput, allocations: seq<TaskAllocation>, milestones: seq<Milestone>): int {
    if milestones == [] then 0
    else
      MinutesBefore(allocations, WantIds(MemberWants(x.tasks, milestones[0], BasePass)), milestones[0].limit) +
      CountedForAll(x, allocations, milestones[1..])
  }

  ghost function MembersOfAll(x: PlannerInput, milestones: seq<Milestone>): set<TaskId> {
    if milestones == [] then {}
    else WantIds(MemberWants(x.tasks, milestones[0], BasePass)) + MembersOfAll(x, milestones[1..])
  }

  lemma MemberOf(x: PlannerInput, m: Milestone, id: TaskId)
    requires id in WantIds(MemberWants(x.tasks, m, BasePass))
    ensures exists i :: 0 <= i < |x.tasks| && x.tasks[i].id == id && x.tasks[i].milestone == Some(m.id)
  {
    var w :| w in MemberWants(x.tasks, m, BasePass) && w.id == id;
    MemberWantsFrom(x.tasks, m, BasePass, w);
    var t :| t in x.tasks && IsMember(t, m) && w == Want(t.id, Remaining(t, BasePass));
    var i :| 0 <= i < |x.tasks| && x.tasks[i] == t;
  }

  lemma {:induction false} MemberOfSome(x: PlannerInput, milestones: seq<Milestone>, id: TaskId) returns (m: Milestone)
    requires id in MembersOfAll(x, milestones)
    ensures m in milestones && id in WantIds(MemberWants(x.tasks, m, BasePass))
    decreases |milestones|
  {
    if id in WantIds(MemberWants(x.tasks, milestones[0], BasePass)) {
      m := milestones[0];
    } else {
      m := MemberOfSome(x, milestones[1..], id);
    }
  }

  /** A task belongs to at most one milestone. */
  lemma MembersApart(x: PlannerInput, m: Milestone, rest: seq<Milestone>)
    requires TasksDistinct(x.tasks) && forall n :: n in rest ==> n.id != m.id
    ensures WantIds(MemberWants(x.tasks, m, BasePass)) !! MembersOfAll(x, rest)
  {
    forall id | id in WantIds(MemberWants(x.tasks, m, BasePass))
      ensures id !in MembersOfAll(x, rest)
    {
      if id in MembersOfAll(x, rest) {
        var n := MemberOfSome(x, rest, id);
        MemberOf(x, m, id);
        MemberOf(x, n, id);
      }
    }
  }

  lemma {:induction false} CountedWithin(x: PlannerInput, allocations: seq<TaskAllocation>, milestones: seq<Milestone>)
    requires TasksDistinct(x.tasks) && MilestonesDistinct(milestones) && AllLast(allocations)
    ensures CountedForAll(x, allocations, milestones) <= MinutesBefore(allocations, MembersOfAll(x, milestones), None)
    decreases |milestones|
  {
    if milestones == [] {
      NobodyCounted(allocations, None);
    } else {
      var members, others := WantIds(MemberWants(x.tasks, milestones[0], BasePass)), MembersOfAll(x, milestones[1..]);
      MilestonesTail(milestones);
      MembersApart(x, milestones[0], milestones[1..]);
      CountedWithin(x, allocations, milestones[1..]);
      MinutesGrow(allocations, members, members, milestones[0].limit);
      MinutesSplit(allocations, members, others, None);
    }
  }

  lemma {:induction false} CountedAll(allocations: seq<TaskAllocation>, members: set<TaskId>)
    requires AllLast(allocations)
    ensures MinutesBefore(allocations, members, None) <= AllocationMinutes(allocations)
    decreases |allocations|
  {
    if allocations != [] {
      assert allocations[0] in allocations;
      CountedAll(allocations[1..], members);
    }
  }

  /** No minute is counted for two milestones: together they count at most what the base pass placed. */
  lemma MilestonesShareNoMinutes(x: PlannerInput)
    requires InputOk(x)
    ensures CountedForAll(x, Result(x, BasePass).allocations, x.milestones) <= Result(x, BasePass).totalMinutes
  {
    var all := Result(x, BasePass).allocations;
    ResultLasts(x, BasePass);
    CountedWithin(x, all, x.milestones);
    CountedAll(all, MembersOfAll(x, x.milestones));
    ResultAllocations(x, BasePass);
  }
}
