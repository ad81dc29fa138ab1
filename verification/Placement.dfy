/** Placing one task: the greedy choice of chunks in runs of free slots, as a function and as loops over the ledger. */
module Placement {
  import opened Domain
  import opened Priority
  import opened Ledger

  const MAX_CHUNKS_PER_DAY: nat := 3

  datatype PassType = BasePass | SafetyPass

  datatype TaskAllocation = TaskAllocation(
    task: TaskId,
    pass: PassType,
    start: Instant,
    end: Instant,
    chunkIndex: nat,
    kind: Kind,
    sourceSlots: seq<SlotId>)

  type SlotRun = s: seq<LedgerSlot> | s != [] witness [LedgerSlot(0, 0, 1, true, None)]

  /** A chunk of a task with the slots it was cut from. */
  datatype Chunk = Chunk(task: TaskId, kind: Kind, index: nat, slots: SlotRun)

  /** The state of placing a task: the ledger, all chunks so far, and the loop's counters. */
  datatype Placing = Placing(
    slots: seq<LedgerSlot>,
    chunks: seq<Chunk>,
    remaining: int,
    index: nat,
    dayChunks: map<int, nat>)

  /** The UTC calendar day of an instant. */
  function UtcDay(t: Instant): int {
    t / 1440
  }

  function DayCount(m: map<int, nat>, day: int): nat {
    if day in m then m[day] else 0
  }

  function ChunkStart(c: Chunk): Instant {
    c.slots[0].start
  }

  function ChunkEnd(c: Chunk): Instant {
    c.slots[|c.slots| - 1].end
  }

  function AllocationOf(c: Chunk, pass: PassType): TaskAllocation {
    TaskAllocation(c.task, pass, ChunkStart(c), ChunkEnd(c), c.index, c.kind, IdsOf(c.slots))
  }

  function AllocationsOf(chunks: seq<Chunk>, pass: PassType): seq<TaskAllocation> {
    seq(|chunks|, i requires 0 <= i < |chunks| => AllocationOf(chunks[i], pass))
  }

  function Later(a: Option<Instant>, b: Option<Instant>): Option<Instant> {
    if b.Some? && (a.None? || b.value > a.value) then b else a
  }

  /** Where in a run a chunk may begin. */
  function EffectiveStart(run: seq<LedgerSlot>, earliest: Option<Instant>): Instant
    requires run != []
  {
    if earliest.Some? && run[|run| - 1].end > earliest.value then Max(run[0].start, earliest.value) else run[0].start
  }

  /** The slots of a run that end after `from`. */
  function Usable(run: seq<LedgerSlot>, from: Instant): seq<LedgerSlot> {
    if run == [] then []
    else if run[0].end <= from then Usable(run[1..], from)
    else [run[0]] + Usable(run[1..], from)
  }

  /** The shortest prefix that lasts `take` minutes. */
  function TakeUntil(s: seq<LedgerSlot>, take: int): seq<LedgerSlot> {
    if s == [] then []
    else if Span(s[0]) >= take then [s[0]]
    else [s[0]] + TakeUntil(s[1..], take - Span(s[0]))
  }

  /** How many minutes to take from a run with `available` usable minutes; `None` skips the run. */
  function Demand(t: SchedulableTask, remaining: int, dayChunks: map<int, nat>, day: int, available: int): Option<int> {
    if available <= 0 then None
    else if available < Min(t.minChunk, remaining) then None
    else if !t.splittable then (if available < remaining then None else Some(remaining))
    else if DayCount(dayChunks, day) >= MAX_CHUNKS_PER_DAY then None
    else Some(Min(available, remaining))
  }

  function RunDemand(p: Placing, t: SchedulableTask, earliest: Option<Instant>, run: seq<LedgerSlot>): Option<int>
    requires run != []
  {
    Demand(t, p.remaining, p.dayChunks, UtcDay(run[0].start), Minutes(Usable(run, EffectiveStart(run, earliest))))
  }

  /** The slots a chunk of `take` minutes gets from a run. */
  function Cut(run: seq<LedgerSlot>, earliest: Option<Instant>, take: int): seq<LedgerSlot>
    requires run != []
  {
    TakeUntil(Usable(run, EffectiveStart(run, earliest)), take)
  }

  /** The state after handing the slots of `c` to its task. */
  function AddChunk(p: Placing, c: Chunk): Placing {
    var day := UtcDay(ChunkStart(c));
    Placing(
      Allocate(p.slots, IdsOf(c.slots), c.task),
      p.chunks + [c],
      p.remaining - Minutes(c.slots),
      p.index + 1,
      p.dayChunks[day := DayCount(p.dayChunks, day) + 1])
  }

  /** One turn of the loop over runs. */
  function TryRun(p: Placing, t: SchedulableTask, earliest: Option<Instant>, run: seq<LedgerSlot>): Placing
    requires run != []
  {
    match RunDemand(p, t, earliest, run)
    case None => p
    case Some(take) =>
      var cut := Cut(run, earliest, take);
      if cut == [] then p else AddChunk(p, Chunk(t.id, t.kind, p.index, cut))
  }

  predicate NoEmptyRun(runs: seq<seq<LedgerSlot>>) {
    forall i :: 0 <= i < |runs| ==> runs[i] != []
  }

  /** The loop over runs, which stops once nothing remains. */
  function Sweep(p: Placing, t: SchedulableTask, earliest: Option<Instant>, runs: seq<seq<LedgerSlot>>): Placing
    requires NoEmptyRun(runs)
    decreases |runs|
  {
    if runs == [] || p.remaining <= 0 then p
    else
      Sweep(TryRun(p, t, earliest, runs[0]), t, earliest, runs[1..])
  }

  /** Runs that end after the earliest start. */
  function Reaching(runs: seq<seq<LedgerSlot>>, earliest: Option<Instant>): (r: seq<seq<LedgerSlot>>)
    requires NoEmptyRun(runs)
    ensures NoEmptyRun(r)
  {
    if runs == [] then []
    else
      var rest := Reaching(runs[1..], earliest);
      if earliest.None? || runs[0][|runs[0]| - 1].end > earliest.value then [runs[0]] + rest else rest
  }

  lemma {:induction false} ReachingKeeps(runs: seq<seq<LedgerSlot>>, earliest: Option<Instant>)
    requires NoEmptyRun(runs)
    ensures forall r: seq<LedgerSlot> :: r in Reaching(runs, earliest) <==>
              r in runs && (earliest.None? || r[|r| - 1].end > earliest.value)
    decreases |runs|
  {
    if runs != [] {
      ReachingKeeps(runs[1..], earliest);
      assert runs == [runs[0]] + runs[1..];
    }
  }

  /** The runs one sweep goes over. */
  function Candidates(slots: seq<LedgerSlot>, earliest: Option<Instant>): (r: seq<seq<LedgerSlot>>)
    ensures NoEmptyRun(r)
  {
    RunsFromPartition([], FreeOf(slots));
    ReachingKeeps(Runs(FreeOf(slots)), earliest);
    Reaching(Runs(FreeOf(slots)), earliest)
  }

  lemma {:induction false} MinutesJoin(a: seq<LedgerSlot>, b: seq<LedgerSlot>)
    ensures Minutes(a + b) == Minutes(a) + Minutes(b)
    decreases |a|
  {
    if a == [] {
      assert a + b == b;
    } else {
      MinutesJoin(a[1..], b);
      assert (a + b)[1..] == a[1..] + b;
    }
  }

  /** A prefix cut at `take` lasts at least `take`, and would not without its last slot. */
  lemma {:induction false} TakeUntilMinutes(s: seq<LedgerSlot>, take: int)
    requires 0 < take <= Minutes(s)
    ensures TakeUntil(s, take) != [] && Minutes(TakeUntil(s, take)) >= take
    ensures Minutes(TakeUntil(s, take)) - Span(TakeUntil(s, take)[|TakeUntil(s, take)| - 1]) < take
    ensures TakeUntil(s, take) <= s
    decreases |s|
  {
    assert s == [s[0]] + s[1..];
    if Span(s[0]) < take {
      TakeUntilMinutes(s[1..], take - Span(s[0]));
    }
  }

  lemma DemandFits(t: SchedulableTask, remaining: int, dayChunks: map<int, nat>, day: int, available: int)
    requires remaining > 0 && Demand(t, remaining, dayChunks, day, available).Some?
    ensures 0 < Demand(t, remaining, dayChunks, day, available).value <= Min(available, remaining)
  {
  }

  /** A turn either leaves everything as it was or adds one chunk and lowers what remains. */
  lemma TryRunProgress(p: Placing, t: SchedulableTask, earliest: Option<Instant>, run: seq<LedgerSlot>)
    requires run != [] && p.remaining > 0
    ensures var q := TryRun(p, t, earliest, run);
      if RunDemand(p, t, earliest, run).None? then q == p
      else |q.chunks| == |p.chunks| + 1 && q.remaining < p.remaining
  {
    if RunDemand(p, t, earliest, run).Some? {
      DemandFits(t, p.remaining, p.dayChunks, UtcDay(run[0].start), Minutes(Usable(run, EffectiveStart(run, earliest))));
      TakeUntilMinutes(Usable(run, EffectiveStart(run, earliest)), RunDemand(p, t, earliest, run).value);
    }
  }

  lemma {:induction false} SweepProgress(p: Placing, t: SchedulableTask, earliest: Option<Instant>,
                                         runs: seq<seq<LedgerSlot>>)
    requires NoEmptyRun(runs)
    ensures var q := Sweep(p, t, earliest, runs);
      |q.chunks| >= |p.chunks| && q.remaining <= p.remaining &&
      (|q.chunks| == |p.chunks| ==> q == p) && (|q.chunks| > |p.chunks| ==> q.remaining < p.remaining)
    decreases |runs|
  {
    if runs != [] && p.remaining > 0 {
      TryRunProgress(p, t, earliest, runs[0]);
      SweepProgress(TryRun(p, t, earliest, runs[0]), t, earliest, runs[1..]);
    }
  }

  /** Sweep again and again until nothing remains or a sweep places nothing. */
  function Place(p: Placing, t: SchedulableTask, earliest: Option<Instant>): Placing
    decreases if p.remaining <= 0 then 0 else p.remaining
  {
    if p.remaining <= 0 then p
    else
      var q := Sweep(p, t, earliest, Candidates(p.slots, earliest));
      SweepProgress(p, t, earliest, Candidates(p.slots, earliest));
      if |q.chunks| == |p.chunks| then q else Place(q, t, earliest)
  }

  function Begin(slots: seq<LedgerSlot>, chunks: seq<Chunk>, required: int): Placing {
    Placing(slots, chunks, required, 0, map[])
  }

  // ---------------------------------------------------------------- the loops

  /** The loop that gathers the slots of a chunk, skipping those that end too early. */
  method SelectSlots(run: seq<LedgerSlot>, from: Instant, take: int) returns (selected: seq<LedgerSlot>)
    requires take > 0
    ensures selected == TakeUntil(Usable(run, from), take)
  {
    selected := [];
    var acc := 0;
    for i := 0 to |run|
      invariant acc < take
      invariant TakeUntil(Usable(run, from), take) == selected + TakeUntil(Usable(run[i..], from), take - acc)
    {
      var slot := run[i];
      assert run[i..][0] == slot && run[i..][1..] == run[i + 1..];
      if slot.end <= from {
        continue;
      }
      ghost var before := selected;
      selected := selected + [slot];
      acc := acc + Span(slot);
      assert before + [slot] + TakeUntil(Usable(run[i + 1..], from), take - acc) ==
             before + ([slot] + TakeUntil(Usable(run[i + 1..], from), take - acc));
      if acc >= take {
        return;
      }
    }
  }

  lemma {:induction false} TakeUntilAgain(s: seq<LedgerSlot>, take: int)
    ensures TakeUntil(TakeUntil(s, take), take) == TakeUntil(s, take)
    decreases |s|
  {
    if s != [] && Span(s[0]) < take {
      TakeUntilAgain(s[1..], take - Span(s[0]));
    }
  }

  lemma MinutesMore(s: seq<LedgerSlot>, slot: LedgerSlot)
    ensures Minutes(s + [slot]) == Minutes(s) + Span(slot)
  {
    MinutesJoin(s, [slot]);
    assert [slot][1..] == [];
  }

  lemma JoinedOnce(before: seq<LedgerSlot>, slot: LedgerSlot, rest: seq<LedgerSlot>)
    ensures before + [slot] + rest == before + ([slot] + rest)
  {
  }

  /** The loop that trims a selection to `take` minutes and counts them. */
  method TrimSlots(selected: seq<LedgerSlot>, take: int) returns (trimmed: seq<LedgerSlot>, acc: int)
    requires take > 0
    ensures trimmed == TakeUntil(selected, take) && acc == Minutes(trimmed)
  {
    trimmed, acc := [], 0;
    for i := 0 to |selected|
      invariant acc < take && acc == Minutes(trimmed)
      invariant TakeUntil(selected, take) == trimmed + TakeUntil(selected[i..], take - acc)
    {
      var slot := selected[i];
      assert selected[i..][0] == slot && selected[i..][1..] == selected[i + 1..];
      ghost var before := trimmed;
      MinutesMore(trimmed, slot);
      trimmed := trimmed + [slot];
      acc := acc + Span(slot);
      JoinedOnce(before, slot, TakeUntil(selected[i + 1..], take - acc));
      if acc >= take {
        return;
      }
    }
  }

  /** The minutes of a run's slots that end after `from`. */
  method AvailableMinutes(run: seq<LedgerSlot>, from: Instant) returns (available: int)
    ensures available == Minutes(Usable(run, from))
  {
    available := 0;
    for i := 0 to |run|
      invariant available + Minutes(Usable(run[i..], from)) == Minutes(Usable(run, from))
    {
      assert run[i..][0] == run[i] && run[i..][1..] == run[i + 1..];
      if run[i].end > from {
        available := available + Span(run[i]);
      }
    }
  }

  /** Select and trim the slots of a chunk of `take` minutes. */
  method CutRun(run: seq<LedgerSlot>, earliest: Option<Instant>, take: int) returns (trimmed: seq<LedgerSlot>, acc: int)
    requires run != [] && 0 < take <= Minutes(Usable(run, EffectiveStart(run, earliest)))
    ensures trimmed == Cut(run, earliest, take) && trimmed != [] && acc == Minutes(trimmed)
  {
    var from := EffectiveStart(run, earliest);
    var selected := SelectSlots(run, from, take);
    trimmed, acc := TrimSlots(selected, take);
    TakeUntilAgain(Usable(run, from), take);
    TakeUntilMinutes(Usable(run, from), take);
  }

  /** One turn of the loop over runs: skip the run, or allocate a chunk of it. */
  method PlaceInRun(ledger: SlotLedger, p: Placing, task: SchedulableTask, earliest: Option<Instant>,
                    run: seq<LedgerSlot>)
    returns (q: Placing)
    requires ledger.slots == p.slots && run != [] && p.remaining > 0
    modifies ledger
    ensures q == TryRun(p, task, earliest, run) && ledger.slots == q.slots
  {
    var from := EffectiveStart(run, earliest);
    var available := AvailableMinutes(run, from);
    var demand := Demand(task, p.remaining, p.dayChunks, UtcDay(run[0].start), available);
    if demand.None? {
      return p;
    }
    DemandFits(task, p.remaining, p.dayChunks, UtcDay(run[0].start), available);
    var trimmed, acc := CutRun(run, earliest, demand.value);
    ledger.AllocateSlots(IdsOf(trimmed), task.id);
    var day := UtcDay(trimmed[0].start);
    q := Placing(ledger.slots, p.chunks + [Chunk(task.id, task.kind, p.index, trimmed)], p.remaining - acc, p.index + 1,
                 p.dayChunks[day := DayCount(p.dayChunks, day) + 1]);
  }

  /** The loop over the runs of one sweep. */
  method SweepRuns(ledger: SlotLedger, p: Placing, task: SchedulableTask, earliest: Option<Instant>,
                   runs: seq<seq<LedgerSlot>>)
    returns (q: Placing)
    requires ledger.slots == p.slots && NoEmptyRun(runs) && p.remaining > 0
    modifies ledger
    ensures q == Sweep(p, task, earliest, runs) && ledger.slots == q.slots
  {
    q := p;
    for i := 0 to |runs|
      invariant q.remaining > 0 && ledger.slots == q.slots
      invariant Sweep(p, task, earliest, runs) == Sweep(q, task, earliest, runs[i..])
    {
      assert runs[i..][0] == runs[i] && runs[i..][1..] == runs[i + 1..];
      q := PlaceInRun(ledger, q, task, earliest, runs[i]);
      if q.remaining <= 0 {
        return;
      }
    }
  }

  /** `_place_task`: the ledger and the produced chunks are those of `Place`. */
  method PlaceTask(ledger: SlotLedger, task: SchedulableTask, required: int, earliestStart: Option<Instant>)
    returns (chunks: seq<Chunk>)
    modifies ledger
    ensures var p := Place(Begin(old(ledger.slots), [], required), task, Later(task.startAfter, earliestStart));
      ledger.slots == p.slots && chunks == p.chunks
  {
    var earliest := Later(task.startAfter, earliestStart);
    var p := Begin(ledger.slots, [], required);
    ghost var goal := Place(p, task, earliest);
    while p.remaining > 0
      invariant ledger.slots == p.slots && goal == Place(p, task, earliest)
      decreases p.remaining
    {
      var all := ContiguousRuns(ledger.FreeSlots());
      RunsFromPartition([], FreeOf(ledger.slots));
      var runs := Reaching(all, earliest);
      ghost var before := p;
      SweepProgress(p, task, earliest, runs);
      var q := SweepRuns(ledger, p, task, earliest, runs);
      if |q.chunks| == |p.chunks| {
        return q.chunks;
      }
      p := q;
    }
    chunks := p.chunks;
  }
}
