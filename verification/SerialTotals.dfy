/** The minutes of a schedule, task by task: what the tasks own adds up to what the schedule reports. */
module SerialTotals {
  import opened Domain
  import opened Sorting
  import opened Priority
  import opened Ledger
  import opened Placement
  import opened Ownership
  import opened Conservation
  import opened PlacementFacts
  import opened SerialSchedule
  import opened SerialFacts
  import opened SerialTheorems
  import opened SerialOrder

  /** Every chunk belongs to one of the tasks. */
  ghost predicate ChunksIn(chunks: seq<Chunk>, ids: set<TaskId>) {
    forall k :: 0 <= k < |chunks| ==> chunks[k].task in ids
  }

  /** No attempt places anything for a task that is not in the list. */
  lemma {:induction false} ChunksAreOfTasks(r: Request, s1: seq<LedgerSlot>, pr: Progress,
                                            pending: seq<SchedulableTask>, ids: set<TaskId>)
    requires DistinctIds(s1) && Positive(s1) && Inv(r, s1, pr, pending)
    requires ChunksIn(pr.chunks, ids) && TaskIds(pending) <= ids
    ensures ChunksIn(ScheduleFrom(r, pr, pending).chunks, ids)
    decreases |pending|
  {
    if pending != [] {
      var i := FirstReady(r, pr.fully, pending);
      if i < |pending| {
        ShapeKeepsIds(s1, pr.slots, pr.chunks);
        ShapeKeepsPositive(s1, pr.slots, pr.chunks);
        var b := AttemptFollows(r, pr, pending[i]);
        AttemptInv(r, s1, pr, pending, i);
        TaskIdsWithout(pending, i);
        ChunksJoin(pr.chunks, b, pending[i].id, ids);
        ChunksAreOfTasks(r, s1, Attempt(r, pr, pending[i]), Without(pending, i), ids);
      }
    }
  }

  lemma ChunksJoin(a: seq<Chunk>, b: seq<Chunk>, t: TaskId, ids: set<TaskId>)
    requires ChunksIn(a, ids) && IsMine(b, t) && t in ids
    ensures ChunksIn(a + b, ids)
  {
  }

  /** The minutes each of some tasks owns in the ledger, added up. */
  ghost function OwnedByAll(s: seq<LedgerSlot>, tasks: seq<SchedulableTask>): int {
    if tasks == [] then 0 else OwnedMinutes(s, tasks[0].id) + OwnedByAll(s, tasks[1..])
  }

  /** The minutes of the chunks of each of some tasks, added up. */
  ghost function PlacedForAll(chunks: seq<Chunk>, tasks: seq<SchedulableTask>): int {
    if tasks == [] then 0 else ChunkMinutes(OfTask(chunks, tasks[0].id)) + PlacedForAll(chunks, tasks[1..])
  }

  lemma {:induction false} PlacedNothing(tasks: seq<SchedulableTask>)
    ensures PlacedForAll([], tasks) == 0
    decreases |tasks|
  {
    if tasks != [] {
      PlacedNothing(tasks[1..]);
    }
  }

  lemma TailIds(tasks: seq<SchedulableTask>)
    requires tasks != []
    ensures TaskIds(tasks) == {tasks[0].id} + TaskIds(tasks[1..])
    ensures DistinctTasks(tasks) ==> DistinctTasks(tasks[1..]) && tasks[0].id !in TaskIds(tasks[1..])
  {
    assert tasks == [tasks[0]] + tasks[1..];
    if DistinctTasks(tasks) {
      forall t | t in tasks[1..]
        ensures t.id != tasks[0].id
      {
        var i :| 0 <= i < |tasks[1..]| && tasks[1..][i] == t;
        assert tasks[i + 1] == t;
      }
    }
  }

  /** One more chunk adds its minutes to exactly one task. */
  lemma {:induction false} PlacedMore(c: Chunk, rest: seq<Chunk>, tasks: seq<SchedulableTask>)
    requires DistinctTasks(tasks)
    ensures PlacedForAll([c] + rest, tasks) ==
      PlacedForAll(rest, tasks) + (if c.task in TaskIds(tasks) then Minutes(c.slots) else 0)
    decreases |tasks|
  {
    if tasks != [] {
      TailIds(tasks);
      assert ([c] + rest)[1..] == rest;
      PlacedMore(c, rest, tasks[1..]);
      OfTaskMore(c, rest, tasks[0].id);
    }
  }

  lemma OfTaskMore(c: Chunk, rest: seq<Chunk>, t: TaskId)
    ensures ChunkMinutes(OfTask([c] + rest, t)) ==
      ChunkMinutes(OfTask(rest, t)) + (if c.task == t then Minutes(c.slots) else 0)
  {
    assert ([c] + rest)[1..] == rest;
    assert ([c] + OfTask(rest, t))[1..] == OfTask(rest, t);
  }

  /** Chunks of the tasks are counted once each. */
  lemma {:induction false} PlacedIsAll(chunks: seq<Chunk>, tasks: seq<SchedulableTask>)
    requires DistinctTasks(tasks) && ChunksIn(chunks, TaskIds(tasks))
    ensures PlacedForAll(chunks, tasks) == ChunkMinutes(chunks)
    decreases |chunks|
  {
    if chunks == [] {
      PlacedNothing(tasks);
    } else {
      assert chunks == [chunks[0]] + chunks[1..];
      PlacedIsAll(chunks[1..], tasks);
      PlacedMore(chunks[0], chunks[1..], tasks);
    }
  }

  lemma {:induction false} NobodyOwns(s: seq<LedgerSlot>, t: TaskId)
    requires forall x :: x in s ==> x.owner == None
    ensures OwnedMinutes(s, t) == 0
    decreases |s|
  {
    if s != [] {
      assert s[0] in s;
      NobodyOwns(s[1..], t);
    }
  }

  lemma OpenedUnowned(offered: seq<SlotLike>, t: TaskId)
    requires Offerable(offered)
    ensures OwnedMinutes(Opened(offered), t) == 0
  {
    OpenedFacts(offered);
    forall x | x in Opened(offered)
      ensures x.owner == None
    {
      var o :| o in offered && x == FromSlot(o);
    }
    NobodyOwns(Opened(offered), t);
  }

  lemma {:induction false} OwnedIsPlaced(r: Request, tasks: seq<SchedulableTask>, offered: seq<SlotLike>,
                                         some: seq<SchedulableTask>)
    requires DistinctTasks(tasks) && Offerable(offered) && r.prior == []
    ensures var q := Schedule(r, tasks, offered); OwnedByAll(q.slots, some) == PlacedForAll(q.chunks, some)
    decreases |some|
  {
    if some != [] {
      OwnedIsPlaced(r, tasks, offered, some[1..]);
      MinutesConserved(r, tasks, offered, some[0].id);
      OpenedUnowned(offered, some[0].id);
    }
  }

  /** Without preallocation, what the tasks own in the ledger adds up to the total the schedule reports. */
  lemma OwnedAddsUp(r: Request, tasks: seq<SchedulableTask>, offered: seq<SlotLike>)
    requires DistinctTasks(tasks) && Offerable(offered) && r.prior == []
    ensures var result := ResultOf(r, Schedule(r, tasks, offered));
      OwnedByAll(result.slots, tasks) == result.totalMinutes
  {
    var q := Schedule(r, tasks, offered);
    TasksPlaced(r, tasks, offered);
    OwnedIsPlaced(r, tasks, offered, tasks);
    PlacedIsAll(q.chunks, tasks);
    ScheduleInv(r, tasks, offered);
    ExtentIsMinutes(q.chunks, r.pass);
  }

  lemma TasksPlaced(r: Request, tasks: seq<SchedulableTask>, offered: seq<SlotLike>)
    requires DistinctTasks(tasks) && Offerable(offered)
    ensures ChunksIn(Schedule(r, tasks, offered).chunks, TaskIds(tasks))
  {
    var sorted := Sort(KeyLeq, tasks);
    SortDistinct(tasks);
    ReservedFacts(r, offered);
    OpeningInv(r, offered, sorted);
    ChunksAreOfTasks(r, Reserved(r, offered), Opening(r, offered), sorted, TaskIds(tasks));
  }

  // ---------------------------------------------------------------- allocations and the slots they name

  /** The slot of the ledger with an id lies within the allocation and belongs to its task. */
  ghost predicate Backs(s: seq<LedgerSlot>, b: TaskAllocation, id: SlotId, y: LedgerSlot) {
    y in s && y.id == id && y.owner == Some(b.task) && !y.free && b.start <= y.start < y.end <= b.end
  }

  /** The slots an allocation names: each backs it, and together they last as long as it does. */
  ghost predicate Backed(s: seq<LedgerSlot>, b: TaskAllocation, ys: seq<LedgerSlot>) {
    && |ys| == |b.sourceSlots| && Minutes(ys) == b.end - b.start
    && forall i {:trigger ys[i]} :: 0 <= i < |ys| ==> Backs(s, b, b.sourceSlots[i], ys[i])
  }

  /** The slots as a chunk's task holds them. */
  ghost function HeldAs(xs: seq<LedgerSlot>, owner: TaskId): seq<LedgerSlot> {
    seq(|xs|, i requires 0 <= i < |xs| => xs[i].(free := false, owner := Some(owner)))
  }

  lemma {:induction false} HeldMinutes(xs: seq<LedgerSlot>, owner: TaskId)
    ensures Minutes(HeldAs(xs, owner)) == Minutes(xs)
    decreases |xs|
  {
    if xs != [] {
      HeldMinutes(xs[1..], owner);
      assert HeldAs(xs, owner)[1..] == HeldAs(xs[1..], owner);
    }
  }

  /** A slot of a chunk is held by the chunk's task in the end. */
  lemma HeldInEnd(s1: seq<LedgerSlot>, end: seq<LedgerSlot>, chunks: seq<Chunk>, k: int, x: LedgerSlot)
    requires Tracks(s1, end, chunks) && 0 <= k < |chunks| && x in chunks[k].slots
    ensures x.(free := false, owner := Some(chunks[k].task)) in end
  {
    assert Available(s1, chunks[k].slots);
    var i :| 0 <= i < |s1| && s1[i] == x;
    assert Became(chunks, s1[i], end[i]);
    assert Held(chunks, x);
    var l :| 0 <= l < |chunks| && x in chunks[l].slots && end[i] == x.(free := false, owner := Some(chunks[l].task));
    assert l == k;
  }

  lemma SlotWithin(c: Chunk, i: int)
    requires Solid(c) && 0 <= i < |c.slots|
    ensures ChunkStart(c) <= c.slots[i].start < c.slots[i].end <= ChunkEnd(c)
  {
    assert c.slots[i] in c.slots;
    if i > 0 {
      AbuttingRises(c.slots, 0, i);
    }
    if i < |c.slots| - 1 {
      AbuttingRises(c.slots, i, |c.slots| - 1);
    }
  }

  /**
   Every new allocation names the slots it is made of: in the final ledger they belong to its task, lie within it, and
   last exactly as long as it does.
   */
  lemma AllocationsBacked(r: Request, tasks: seq<SchedulableTask>, offered: seq<SlotLike>, k: int)
    returns (ys: seq<LedgerSlot>)
    requires DistinctTasks(tasks) && Offerable(offered)
    requires |r.prior| <= k < |ResultOf(r, Schedule(r, tasks, offered)).allocations|
    ensures var result := ResultOf(r, Schedule(r, tasks, offered));
      result.allocations[k].pass == r.pass && Backed(result.slots, result.allocations[k], ys)
  {
    var q := Schedule(r, tasks, offered);
    ScheduleInv(r, tasks, offered);
    ys := ChunkBacked(Reserved(r, offered), q.slots, q.chunks, r.pass, k - |r.prior|);
  }

  lemma ChunkBacked(s1: seq<LedgerSlot>, end: seq<LedgerSlot>, chunks: seq<Chunk>, pass: PassType, n: int)
    returns (ys: seq<LedgerSlot>)
    requires Tracks(s1, end, chunks) && AllSolid(chunks) && 0 <= n < |chunks|
    ensures Backed(end, AllocationOf(chunks[n], pass), ys)
  {
    var c := chunks[n];
    assert Solid(c);
    ys := HeldAs(c.slots, c.task);
    HeldMinutes(c.slots, c.task);
    AbuttingMinutes(c.slots);
    forall i | 0 <= i < |ys|
      ensures Backs(end, AllocationOf(c, pass), IdsOf(c.slots)[i], ys[i])
    {
      HeldInEnd(s1, end, chunks, n, c.slots[i]);
      SlotWithin(c, i);
    }
  }
}
