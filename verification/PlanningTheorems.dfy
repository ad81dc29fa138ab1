/** End-to-end claims about every plan: busy time, earliest starts, and the gates of finished work. */
module PlanningTheorems {
  import opened Domain
  import opened Sorting
  import opened Priority
  import opened Ledger
  import opened Placement
  import opened Ownership
  import opened Conservation
  import opened PlacementFacts
  import opened SerialSchedule
  import opened SerialFacts
  import opened SerialTheorems
  import opened SerialOrder
  import opened PassCapacity
  import opened PlanningInput
  import opened GraphAnalysis
  import opened PlanningPasses
  import opened PlanningFacts
  import A = AvailabilitySlots
  import U = UniqueSlots

  // ---------------------------------------------------------------- busy time

  /** The chunks a pass places over the slots of a context. */
  ghost function ChunksOver(r: Request, tasks: seq<SchedulableTask>, c: A.Context): seq<Chunk>
    requires U.ContextOk(c)
  {
    Schedule(r, tasks, OfferAll(U.Built(c))).chunks
  }

  lemma ChunkFacts(r: Request, tasks: seq<SchedulableTask>, c: A.Context, k: int)
    requires U.ContextOk(c) && DistinctTasks(tasks) && 0 <= k < |ChunksOver(r, tasks, c)|
    ensures Solid(ChunksOver(r, tasks, c)[k])
    ensures Available(Reserved(r, OfferAll(U.Built(c))), ChunksOver(r, tasks, c)[k].slots)
  {
    BuiltOfferable(c);
    ScheduleInv(r, tasks, OfferAll(U.Built(c)));
    var chunks := ChunksOver(r, tasks, c);
    assert Solid(chunks[k]) && Available(Reserved(r, OfferAll(U.Built(c))), chunks[k].slots);
  }

  /** A chunk's slots are slots that were built free. */
  lemma ChunkSlotsBuilt(r: Request, c: A.Context, chunk: Chunk, s: LedgerSlot) returns (j: int)
    requires U.ContextOk(c) && Available(Reserved(r, OfferAll(U.Built(c))), chunk.slots) && s in chunk.slots
    ensures 0 <= j < |U.Built(c)|
    ensures U.Built(c)[j].state.Free? && U.Built(c)[j].start == s.start && U.Built(c)[j].end == s.end
  {
    var offered := OfferAll(U.Built(c));
    BuiltOfferable(c);
    ReservedFacts(r, offered);
    OpenedFacts(offered);
    FreeStays(Opened(offered), Reserved(r, offered), s);
    var o :| o in offered && s == FromSlot(o);
    j :| 0 <= j < |offered| && offered[j] == o;
  }

  lemma FreeAvoids(x: A.Context, j: int, i: A.Interval)
    requires U.ContextOk(x) && 0 <= j < |U.Built(x)| && U.Built(x)[j].state.Free?
    requires i in x.fixedEvents || i in x.focusBlocks
    ensures SpansApart(U.Built(x)[j].start, U.Built(x)[j].end, i.start, i.end)
  {
    U.StatesDecided(x, j);
    var tile := A.TileAll(x.windows, x.slotMinutes, 0)[j];
    assert A.Hits(tile, i) ==> U.HitsAny(tile, x.fixedEvents) || U.HitsAny(tile, x.focusBlocks);
  }

  /** No newly placed chunk overlaps a fixed event or a protected block, even if windows overlap each other. */
  lemma NewChunksAvoidBusy(r: Request, tasks: seq<SchedulableTask>, c: A.Context, k: int, i: A.Interval)
    requires U.ContextOk(c) && DistinctTasks(tasks) && 0 <= k < |ChunksOver(r, tasks, c)|
    requires (i in c.fixedEvents || i in c.focusBlocks) && i.start < i.end
    ensures var chunk := ChunksOver(r, tasks, c)[k];
      SpansApart(ChunkStart(chunk), ChunkEnd(chunk), i.start, i.end)
  {
    var chunk := ChunksOver(r, tasks, c)[k];
    ChunkFacts(r, tasks, c, k);
    forall s | s in chunk.slots
      ensures SpansApart(s.start, s.end, i.start, i.end)
    {
      var j := ChunkSlotsBuilt(r, c, chunk, s);
      FreeAvoids(c, j, i);
    }
    ChunkApart(chunk, i.start, i.end);
  }

  // ---------------------------------------------------------------- earliest starts

  lemma {:induction false} OfTaskIndex(chunks: seq<Chunk>, t: TaskId, c: Chunk)
    requires c in OfTask(chunks, t)
    ensures exists k :: 0 <= k < |chunks| && chunks[k] == c
    decreases |chunks|
  {
    if !(chunks[0].task == t && chunks[0] == c) {
      OfTaskIndex(chunks[1..], t, c);
      var k :| 0 <= k < |chunks[1..]| && chunks[1..][k] == c;
      assert chunks[k + 1] == c;
    }
  }

  lemma BuiltLength(x: A.Context, j: int)
    requires U.ContextOk(x) && 0 <= j < |U.Built(x)|
    ensures U.Built(x)[j].end - U.Built(x)[j].start <= x.slotMinutes
  {
    U.StatesDecided(x, j);
    A.TileAllFits(x.windows, x.slotMinutes, 0);
    assert A.Fits(A.TileAll(x.windows, x.slotMinutes, 0)[j], x.slotMinutes);
  }

  /** A chunk may begin before its task's `start_after`, but by less than one slot. */
  lemma StartsWithinOneSlot(r: Request, tasks: seq<SchedulableTask>, c: A.Context, t: SchedulableTask, chunk: Chunk)
    requires U.ContextOk(c) && DistinctTasks(tasks) && t in tasks && t.startAfter.Some?
    requires chunk in OfTask(ChunksOver(r, tasks, c), t.id)
    ensures ChunkStart(chunk) > t.startAfter.value - c.slotMinutes
  {
    var chunks := ChunksOver(r, tasks, c);
    BuiltOfferable(c);
    EveryTaskReported(r, tasks, OfferAll(U.Built(c)), t);
    var own := OfTask(chunks, t.id);
    var i :| 0 <= i < |own| && own[i] == chunk;
    assert ChunkOk(own[i], t, i, t.startAfter);
    OfTaskIndex(chunks, t.id, chunk);
    var k :| 0 <= k < |chunks| && chunks[k] == chunk;
    ChunkFacts(r, tasks, c, k);
    assert chunk.slots[0] in chunk.slots;
    var j := ChunkSlotsBuilt(r, c, chunk, chunk.slots[0]);
    BuiltLength(c, j);
  }

  // ---------------------------------------------------------------- gates of finished work

  /** Only tasks of the list are ever fully placed. */
  lemma {:induction false} FullyAreTasks(r: Request, pr: Progress, pending: seq<SchedulableTask>, p: TaskId)
    requires p in ScheduleFrom(r, pr, pending).fully
    ensures p in pr.fully || p in TaskIds(pending)
    decreases |pending|
  {
    if pending != [] {
      var i := FirstReady(r, pr.fully, pending);
      if i < |pending| {
        var next := Attempt(r, pr, pending[i]);
        ScheduleUnfolds(r, pr, pending, i);
        FullyAreTasks(r, next, Without(pending, i), p);
        AttemptFully(r, pr, pending[i], p);
        TaskIdsWithout(pending, i);
      }
    }
  }

  lemma AttemptFully(r: Request, pr: Progress, t: SchedulableTask, p: TaskId)
    ensures p in Attempt(r, pr, t).fully ==> p in pr.fully || p == t.id
  {
  }

  lemma SortedIdsSame(tasks: seq<SchedulableTask>)
    ensures TaskIds(Sort(KeyLeq, tasks)) == TaskIds(tasks)
  {
    SortMembers(KeyLeq, tasks);
  }

  /** A finished task is no schedulable task. */
  lemma FinishedNotScheduled(x: PlannerInput, p: TaskId)
    requires TasksDistinct(x.tasks) && BufferIdsFresh(x)
    requires !IsActive(x.tasks, p) && exists i :: 0 <= i < |x.tasks| && x.tasks[i].id == p
    ensures p !in TaskIds(Schedulable(x))
  {
    forall f | f in Schedulable(x)
      ensures f.id != p
    {
      if f in EnrichedAll(x, x.tasks) {
        EnrichedFrom(x, x.tasks, f);
        var t :| t in x.tasks && !IsFinished(t.status) && f == Enriched(x, t);
        var j :| 0 <= j < |x.tasks| && x.tasks[j] == t;
      } else {
        BuffersFrom(x, x.milestones, f);
        var m :| m in x.milestones && f in BuffersFor(x, m);
        BufferIds(x, m, f);
      }
    }
  }

  /** Promotion keeps the ids. */
  lemma PromotedIds(x: PlannerInput, unallocated: set<TaskId>, tasks: seq<SchedulableTask>)
    ensures TaskIds(PromotedAll(x, unallocated, tasks)) <= TaskIds(tasks)
  {
    var after := PromotedAll(x, unallocated, tasks);
    forall f | f in after
      ensures f.id in TaskIds(tasks)
    {
      var k :| 0 <= k < |after| && after[k] == f;
      assert tasks[k] in tasks;
    }
  }

  /** A task gated by one that is not scheduled gets no chunk and is reported unallocated. */
  lemma UnscheduledGateBlocks(r: Request, tasks: seq<SchedulableTask>, offered: seq<SlotLike>, t: SchedulableTask,
                              p: TaskId)
    requires DistinctTasks(tasks) && Offerable(offered) && t in tasks
    requires p in GatesOf(r, t.id) && p !in TaskIds(tasks)
    ensures t.id in Schedule(r, tasks, offered).unallocated && OfTask(Schedule(r, tasks, offered).chunks, t.id) == []
  {
    SortedIdsSame(tasks);
    if p in Schedule(r, tasks, offered).fully {
      FullyAreTasks(r, Opening(r, offered), Sort(KeyLeq, tasks), p);
    }
    EveryTaskReported(r, tasks, offered, t);
  }

  /**
   A start dependency on a finished task never opens: its gate is kept while the task itself is left out of the pass,
   so the successor gets no chunk and is reported unallocated.
   */
  lemma FinishedPredecessorBlocks(x: PlannerInput, pre: seq<PriorAllocation>, pass: PassType, d: TaskDependency,
                                  t: SchedulableTask)
    requires InputOk(x) && d in x.dependencies && d.kind.BlocksStart?
    requires IsActive(x.tasks, d.successor) && t in FinalTasks(x, [], pre) && t.id == d.successor
    requires !IsActive(x.tasks, d.predecessor)
    requires exists i :: 0 <= i < |x.tasks| && x.tasks[i].id == d.predecessor
    ensures var q := FinalPass(x, [], pre, pass);
      t.id in q.unallocated && OfTask(q.chunks, t.id) == []
  {
    FinalDistinct(x, [], pre);
    FreshOffer(x, []);
    GatesAre(x, x.dependencies, d.successor, d.predecessor);
    FinishedNotScheduled(x, d.predecessor);
    PromotedIds(x, Provisional(x, [], pre).unallocated, Schedulable(x));
    UnscheduledGateBlocks(RequestFor(x, pre, pass), FinalTasks(x, [], pre), FreshSlots(x, []), t, d.predecessor);
  }
}
