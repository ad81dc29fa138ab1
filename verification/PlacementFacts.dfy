/** What placing one task guarantees: legal chunks, exact accounting, and no opportunity left when it stops short. */
module PlacementFacts {
  import opened Domain
  import opened Priority
  import opened Ledger
  import opened Placement
  import opened Ownership
  import opened Conservation

  // ---------------------------------------------------------------- shape of a chunk

  /** The slots end after the earliest start. */
  ghost predicate AllAfter(xs: seq<LedgerSlot>, earliest: Option<Instant>) {
    forall x :: x in xs && earliest.Some? ==> x.end > earliest.value
  }

  lemma {:induction false} AbuttingMinutes(xs: seq<LedgerSlot>)
    requires xs != [] && Abutting(xs)
    ensures Minutes(xs) == xs[|xs| - 1].end - xs[0].start
    decreases |xs|
  {
    if |xs| > 1 {
      assert xs[0].end == xs[1].start;
      assert xs[1..][|xs| - 2] == xs[|xs| - 1];
      AbuttingMinutes(xs[1..]);
    }
  }

  ghost predicate AllPositive(xs: seq<LedgerSlot>) {
    forall x :: x in xs ==> Span(x) > 0
  }

  lemma {:induction false} AbuttingRises(xs: seq<LedgerSlot>, i: int, j: int)
    requires Abutting(xs) && AllPositive(xs) && 0 <= i < j < |xs|
    ensures xs[i].end <= xs[j].start && xs[i].start < xs[j].start && xs[i].end < xs[j].end
    decreases j
  {
    assert xs[j - 1].end == xs[j].start;
    assert xs[i] in xs && xs[j - 1] in xs && xs[j] in xs;
    if i < j - 1 {
      AbuttingRises(xs, i, j - 1);
    }
  }

  lemma AbuttingOnce(xs: seq<LedgerSlot>)
    requires Abutting(xs) && AllPositive(xs)
    ensures Distinct(xs)
  {
    forall i, j | 0 <= i < j < |xs|
      ensures xs[i] != xs[j]
    {
      AbuttingRises(xs, i, j);
    }
  }

  lemma {:induction false} UsableEnds(run: seq<LedgerSlot>, from: Instant)
    ensures forall x :: x in Usable(run, from) ==> x.end > from
    decreases |run|
  {
    if run != [] {
      UsableEnds(run[1..], from);
    }
  }

  lemma AbuttingTail(run: seq<LedgerSlot>)
    requires Abutting(run) && AllPositive(run) && run != []
    ensures Abutting(run[1..]) && AllPositive(run[1..])
  {
    forall i, j | 0 <= i && j == i + 1 < |run[1..]|
      ensures run[1..][i].end == run[1..][j].start
    {
      assert run[i + 1].end == run[j + 1].start;
    }
  }

  /** The usable slots of a run are its tail. */
  lemma {:induction false} UsableIsTail(run: seq<LedgerSlot>, from: Instant) returns (k: nat)
    requires Abutting(run) && AllPositive(run)
    ensures k <= |run| && Usable(run, from) == run[k..]
    decreases |run|
  {
    if run == [] {
      k := 0;
    } else if run[0].end <= from {
      AbuttingTail(run);
      k := UsableIsTail(run[1..], from);
      k := k + 1;
    } else {
      forall i | 0 <= i < |run|
        ensures run[i].end > from
      {
        if i > 0 {
          AbuttingRises(run, 0, i);
        }
      }
      AllUsable(run, from);
      k := 0;
    }
  }

  lemma {:induction false} AllUsable(run: seq<LedgerSlot>, from: Instant)
    requires forall i :: 0 <= i < |run| ==> run[i].end > from
    ensures Usable(run, from) == run
    decreases |run|
  {
    if run != [] {
      AllUsable(run[1..], from);
    }
  }

  /** A prefix of a tail of an abutting run is abutting. */
  lemma AbuttingPart(run: seq<LedgerSlot>, k: nat, part: seq<LedgerSlot>)
    requires Abutting(run) && k <= |run| && part <= run[k..]
    ensures Abutting(part) && forall x :: x in part ==> x in run
  {
    forall i, j | 0 <= i && j == i + 1 < |part|
      ensures part[i].end == part[j].start
    {
      assert part[i] == run[k + i] && part[j] == run[k + j];
    }
    forall x | x in part
      ensures x in run
    {
      var i :| 0 <= i < |part| && part[i] == x;
      assert run[k..][i] == x;
    }
  }

  lemma PrefixMembers(a: seq<LedgerSlot>, b: seq<LedgerSlot>)
    requires a <= b
    ensures forall x :: x in a ==> x in b
  {
  }

  /** A cut is an abutting stretch of its run that respects the earliest start. */
  lemma CutShape(run: seq<LedgerSlot>, earliest: Option<Instant>, take: int)
    requires run != [] && Abutting(run) && AllPositive(run)
    requires earliest.Some? ==> run[|run| - 1].end > earliest.value
    requires 0 < take <= Minutes(Usable(run, EffectiveStart(run, earliest)))
    ensures var cut := Cut(run, earliest, take);
      cut != [] && Abutting(cut) && AllAfter(cut, earliest) && forall x :: x in cut ==> x in run
  {
    var from := EffectiveStart(run, earliest);
    var k := UsableIsTail(run, from);
    TakeUntilMinutes(Usable(run, from), take);
    AbuttingPart(run, k, Cut(run, earliest, take));
    PrefixMembers(Cut(run, earliest, take), Usable(run, from));
    UsableEnds(run, from);
  }

  // ---------------------------------------------------------------- what every turn keeps

  /** A chunk of task `t`: its index, an abutting stretch of slots, none ending by the earliest start. */
  ghost predicate ChunkOk(c: Chunk, t: SchedulableTask, index: int, earliest: Option<Instant>) {
    && c.task == t.id && c.kind == t.kind && c.index == index
    && Abutting(c.slots) && AllPositive(c.slots) && AllAfter(c.slots, earliest)
  }

  ghost predicate ChunksOk(chunks: seq<Chunk>, t: SchedulableTask, earliest: Option<Instant>) {
    forall k {:trigger ChunkOk(chunks[k], t, k, earliest)} :: 0 <= k < |chunks| ==> ChunkOk(chunks[k], t, k, earliest)
  }

  ghost function LastSpan(c: Chunk): int {
    Span(c.slots[|c.slots| - 1])
  }

  /**
   Chunk sizes. Every chunk but the one that completes the task lasts at least the minimum chunk; dropping the last
   slot of the last chunk would leave work to do; a task that may not be split has at most one chunk, which
   completes it.
   */
  ghost predicate Sized(chunks: seq<Chunk>, t: SchedulableTask, remaining: int) {
    && (forall k :: 0 <= k < |chunks| - 1 ==> Minutes(chunks[k].slots) >= t.minChunk)
    && (chunks != [] && remaining > 0 ==> Minutes(chunks[|chunks| - 1].slots) >= t.minChunk)
    && (chunks != [] ==> remaining + LastSpan(chunks[|chunks| - 1]) > 0)
    && (!t.splittable && chunks != [] ==> |chunks| == 1 && remaining <= 0)
  }

  /** How many chunks begin on a day. */
  ghost function CountOn(chunks: seq<Chunk>, day: int): nat {
    if chunks == [] then 0
    else CountOn(chunks[..|chunks| - 1], day) + (if UtcDay(ChunkStart(chunks[|chunks| - 1])) == day then 1 else 0)
  }

  /** Everything a turn of the loop keeps, relative to the ledger `s0` and demand the task started with. */
  ghost predicate Sound(s0: seq<LedgerSlot>, p: Placing, t: SchedulableTask, required: int, earliest: Option<Instant>) {
    && Tracks(s0, p.slots, p.chunks)
    && ChunksOk(p.chunks, t, earliest)
    && p.remaining == required - ChunkMinutes(p.chunks)
    && p.index == |p.chunks|
    && Sized(p.chunks, t, p.remaining)
    && forall d :: DayCount(p.dayChunks, d) == CountOn(p.chunks, d)
  }

  lemma BeginSound(s0: seq<LedgerSlot>, t: SchedulableTask, required: int, earliest: Option<Instant>)
    ensures Sound(s0, Begin(s0, [], required), t, required, earliest)
  {
    NothingTracked(s0);
  }

  /** A demand met by a run: enough for a chunk, and short of what remains only when the run is used up. */
  lemma DemandSized(t: SchedulableTask, remaining: int, dayChunks: map<int, nat>, day: int, available: int)
    requires remaining > 0 && Demand(t, remaining, dayChunks, day, available).Some?
    ensures var take := Demand(t, remaining, dayChunks, day, available).value;
      && 0 < take <= available && take <= remaining
      && (take < remaining ==> t.splittable && take >= t.minChunk)
  {
  }

  lemma SizedMore(chunks: seq<Chunk>, c: Chunk, t: SchedulableTask, remaining: int, take: int)
    requires Sized(chunks, t, remaining) && remaining > 0
    requires 0 < take <= remaining && (take < remaining ==> t.splittable && take >= t.minChunk)
    requires Minutes(c.slots) >= take && Minutes(c.slots) - LastSpan(c) < take
    ensures Sized(chunks + [c], t, remaining - Minutes(c.slots))
  {
  }

  /** The run `run` is free in the ledger of `p` and reaches past the earliest start. */
  ghost predicate RunReady(s: seq<LedgerSlot>, run: seq<LedgerSlot>, earliest: Option<Instant>) {
    && run != [] && Abutting(run) && AllPositive(run) && Available(s, run)
    && (earliest.Some? ==> run[|run| - 1].end > earliest.value)
  }

  lemma ChunkMinutesMore(chunks: seq<Chunk>, c: Chunk)
    ensures ChunkMinutes(chunks + [c]) == ChunkMinutes(chunks) + Minutes(c.slots)
  {
    ChunkMinutesJoin(chunks, [c]);
  }

  /** The chunk a turn cuts from a ready run. */
  lemma TurnChunk(p: Placing, t: SchedulableTask, earliest: Option<Instant>, run: seq<LedgerSlot>)
    returns (c: Chunk, take: int)
    requires RunReady(p.slots, run, earliest) && p.remaining > 0 && RunDemand(p, t, earliest, run).Some?
    ensures take == RunDemand(p, t, earliest, run).value
    ensures c.slots == Cut(run, earliest, take) && c == Chunk(t.id, t.kind, p.index, c.slots)
    ensures ChunkOk(c, t, p.index, earliest) && Available(p.slots, c.slots)
    ensures 0 < take <= p.remaining && (take < p.remaining ==> t.splittable && take >= t.minChunk)
    ensures Minutes(c.slots) >= take && Minutes(c.slots) - LastSpan(c) < take
    ensures forall x :: x in c.slots ==> x in run
  {
    take := RunDemand(p, t, earliest, run).value;
    var from := EffectiveStart(run, earliest);
    DemandSized(t, p.remaining, p.dayChunks, UtcDay(run[0].start), Minutes(Usable(run, from)));
    CutShape(run, earliest, take);
    TakeUntilMinutes(Usable(run, from), take);
    c := Chunk(t.id, t.kind, p.index, Cut(run, earliest, take));
  }

  lemma TryRunSound(s0: seq<LedgerSlot>, p: Placing, t: SchedulableTask, required: int, earliest: Option<Instant>,
                    run: seq<LedgerSlot>)
    requires DistinctIds(s0) && Sound(s0, p, t, required, earliest) && p.remaining > 0
    requires RunReady(p.slots, run, earliest)
    ensures Sound(s0, TryRun(p, t, earliest, run), t, required, earliest)
  {
    if RunDemand(p, t, earliest, run).Some? {
      var c, take := TurnChunk(p, t, earliest, run);
      TryRunKeeps(s0, p, t, required, earliest, c, take);
    }
  }

  /** Adding the chunk of a turn keeps the invariant. */
  lemma TryRunKeeps(s0: seq<LedgerSlot>, p: Placing, t: SchedulableTask, required: int, earliest: Option<Instant>,
                    c: Chunk, take: int)
    requires DistinctIds(s0) && Sound(s0, p, t, required, earliest) && p.remaining > 0
    requires ChunkOk(c, t, p.index, earliest) && Available(p.slots, c.slots)
    requires 0 < take <= p.remaining && (take < p.remaining ==> t.splittable && take >= t.minChunk)
    requires Minutes(c.slots) >= take && Minutes(c.slots) - LastSpan(c) < take
    ensures Sound(s0, AddChunk(p, c), t, required, earliest)
  {
    AllocateTracks(s0, p.slots, p.chunks, c);
    ChunkMinutesMore(p.chunks, c);
    SizedMore(p.chunks, c, t, p.remaining, take);
    OneMoreOk(p.chunks, c, t, earliest);
    OneMoreCounted(p.chunks, c);
  }

  lemma OneMoreOk(chunks: seq<Chunk>, c: Chunk, t: SchedulableTask, earliest: Option<Instant>)
    requires ChunksOk(chunks, t, earliest) && ChunkOk(c, t, |chunks|, earliest)
    ensures ChunksOk(chunks + [c], t, earliest)
  {
    var more := chunks + [c];
    forall k | 0 <= k < |more|
      ensures ChunkOk(more[k], t, k, earliest)
    {
      if k < |chunks| {
        assert ChunkOk(chunks[k], t, k, earliest);
      }
    }
  }

  lemma OneMoreCounted(chunks: seq<Chunk>, c: Chunk)
    ensures forall d {:trigger CountOn(chunks + [c], d)} ::
      CountOn(chunks + [c], d) == CountOn(chunks, d) + (if UtcDay(ChunkStart(c)) == d then 1 else 0)
  {
    var more := chunks + [c];
    assert more[..|more| - 1] == chunks;
  }

  // ---------------------------------------------------------------- sweeps

  /** No slot of `xs` occurs in `runs`. */
  ghost predicate Apart(xs: seq<LedgerSlot>, runs: seq<seq<LedgerSlot>>) {
    forall i, x, y :: 0 <= i < |runs| && x in xs && y in runs[i] ==> x.id != y.id
  }

  /** The runs are ready and share no slot. */
  ghost predicate FreshRuns(s: seq<LedgerSlot>, runs: seq<seq<LedgerSlot>>, earliest: Option<Instant>)
    decreases |runs|
  {
    runs == [] ||
    (RunReady(s, runs[0], earliest) && Apart(runs[0], runs[1..]) && FreshRuns(s, runs[1..], earliest))
  }

  lemma UnclaimedStays(s: seq<LedgerSlot>, ids: seq<SlotId>, owner: TaskId, x: LedgerSlot)
    requires x in s && x.id !in ids
    ensures x in Allocate(s, ids, owner)
  {
    var i :| 0 <= i < |s| && s[i] == x;
    assert Allocate(s, ids, owner)[i] == x;
  }

  lemma {:induction false} FreshAfterAllocate(s: seq<LedgerSlot>, xs: seq<LedgerSlot>, owner: TaskId,
                                              runs: seq<seq<LedgerSlot>>, earliest: Option<Instant>)
    requires FreshRuns(s, runs, earliest) && Apart(xs, runs)
    ensures FreshRuns(Allocate(s, IdsOf(xs), owner), runs, earliest)
    decreases |runs|
  {
    if runs != [] {
      forall x | x in runs[0]
        ensures x in Allocate(s, IdsOf(xs), owner)
      {
        UnclaimedStays(s, IdsOf(xs), owner, x);
      }
      FreshAfterAllocate(s, xs, owner, runs[1..], earliest);
    }
  }

  lemma FreshAfterTurn(p: Placing, t: SchedulableTask, earliest: Option<Instant>, runs: seq<seq<LedgerSlot>>)
    requires runs != [] && FreshRuns(p.slots, runs, earliest) && p.remaining > 0
    ensures FreshRuns(TryRun(p, t, earliest, runs[0]).slots, runs[1..], earliest)
  {
    if RunDemand(p, t, earliest, runs[0]).Some? {
      var c, take := TurnChunk(p, t, earliest, runs[0]);
      FreshAfterAllocate(p.slots, c.slots, t.id, runs[1..], earliest);
    }
  }

  lemma {:induction false} SweepSound(s0: seq<LedgerSlot>, p: Placing, t: SchedulableTask, required: int,
                                      earliest: Option<Instant>, runs: seq<seq<LedgerSlot>>)
    requires DistinctIds(s0) && Sound(s0, p, t, required, earliest)
    requires NoEmptyRun(runs) && FreshRuns(p.slots, runs, earliest)
    ensures Sound(s0, Sweep(p, t, earliest, runs), t, required, earliest)
    decreases |runs|
  {
    if runs != [] && p.remaining > 0 {
      TryRunSound(s0, p, t, required, earliest, runs[0]);
      FreshAfterTurn(p, t, earliest, runs);
      SweepSound(s0, TryRun(p, t, earliest, runs[0]), t, required, earliest, runs[1..]);
    }
  }

  lemma {:induction false} FreeOfFacts(s: seq<LedgerSlot>)
    ensures forall x :: x in FreeOf(s) <==> x in s && x.free
    ensures DistinctIds(s) ==> DistinctIds(FreeOf(s))
    decreases |s|
  {
    if s != [] {
      var rest := s[1..];
      FreeOfFacts(rest);
      assert s == [s[0]] + rest;
      if DistinctIds(s) {
        forall x | x in FreeOf(rest)
          ensures x.id != s[0].id
        {
          var i :| 0 <= i < |rest| && rest[i] == x;
          assert s[i + 1] == x;
        }
      }
    }
  }

  lemma {:induction false} InFlatten(runs: seq<seq<LedgerSlot>>, i: int, x: LedgerSlot)
    requires 0 <= i < |runs| && x in runs[i]
    ensures x in Flatten(runs)
    decreases |runs|
  {
    if i > 0 {
      InFlatten(runs[1..], i - 1, x);
    }
  }

  lemma DistinctHead(a: seq<LedgerSlot>, b: seq<LedgerSlot>)
    requires DistinctIds(a + b)
    ensures DistinctIds(b) && forall x, y :: x in a && y in b ==> x.id != y.id
  {
    forall i, j | 0 <= i < j < |b|
      ensures b[i].id != b[j].id
    {
      assert (a + b)[|a| + i] == b[i] && (a + b)[|a| + j] == b[j];
    }
    forall x, y | x in a && y in b
      ensures x.id != y.id
    {
      var i :| 0 <= i < |a| && a[i] == x;
      var j :| 0 <= j < |b| && b[j] == y;
      assert (a + b)[i] == x && (a + b)[|a| + j] == y;
    }
  }

  ghost predicate RunsOk(s: seq<LedgerSlot>, runs: seq<seq<LedgerSlot>>) {
    && NoEmptyRun(runs)
    && (forall i :: 0 <= i < |runs| ==> Abutting(runs[i]))
    && DistinctIds(Flatten(runs))
    && (forall x :: x in Flatten(runs) ==> x in s && x.free && Span(x) > 0)
  }

  lemma RunsOkTail(s: seq<LedgerSlot>, runs: seq<seq<LedgerSlot>>)
    requires RunsOk(s, runs) && runs != []
    ensures RunsOk(s, runs[1..])
    ensures forall x, y :: x in runs[0] && y in Flatten(runs[1..]) ==> x.id != y.id
    ensures forall x :: x in runs[0] ==> x in s && x.free && Span(x) > 0
  {
    assert Flatten(runs) == runs[0] + Flatten(runs[1..]);
    DistinctHead(runs[0], Flatten(runs[1..]));
  }

  lemma {:induction false} ReachingFresh(s: seq<LedgerSlot>, runs: seq<seq<LedgerSlot>>, earliest: Option<Instant>)
    requires RunsOk(s, runs)
    ensures FreshRuns(s, Reaching(runs, earliest), earliest)
    decreases |runs|
  {
    if runs != [] {
      RunsOkTail(s, runs);
      ReachingFresh(s, runs[1..], earliest);
      ReachingApart(runs[0], runs[1..], earliest);
      if earliest.None? || runs[0][|runs[0]| - 1].end > earliest.value {
        FreshCons(s, runs[0], Reaching(runs[1..], earliest), earliest);
      }
    }
  }

  lemma FreshCons(s: seq<LedgerSlot>, run: seq<LedgerSlot>, rest: seq<seq<LedgerSlot>>, earliest: Option<Instant>)
    requires RunReady(s, run, earliest) && Apart(run, rest) && FreshRuns(s, rest, earliest)
    ensures FreshRuns(s, [run] + rest, earliest)
  {
    assert ([run] + rest)[1..] == rest;
  }

  /** A run apart from all slots of some runs is apart from those that reach past the earliest start. */
  lemma ReachingApart(run: seq<LedgerSlot>, runs: seq<seq<LedgerSlot>>, earliest: Option<Instant>)
    requires NoEmptyRun(runs) && forall x, y :: x in run && y in Flatten(runs) ==> x.id != y.id
    ensures Apart(run, Reaching(runs, earliest))
  {
    var reached := Reaching(runs, earliest);
    ReachingKeeps(runs, earliest);
    forall i, x: LedgerSlot, y: LedgerSlot | 0 <= i < |reached| && x in run && y in reached[i]
      ensures x.id != y.id
    {
      assert reached[i] in reached;
      var j :| 0 <= j < |runs| && runs[j] == reached[i];
      InFlatten(runs, j, y);
    }
  }

  lemma CandidatesFresh(s: seq<LedgerSlot>, earliest: Option<Instant>)
    requires DistinctIds(s) && Positive(s)
    ensures FreshRuns(s, Candidates(s, earliest), earliest)
  {
    var free := FreeOf(s);
    RunsFromPartition([], free);
    FreeOfFacts(s);
    var runs := Runs(free);
    assert Flatten(runs) == free by {
      assert [] + free == free;
    }
    forall i | 0 <= i < |runs|
      ensures runs[i] != [] && Abutting(runs[i])
    {
      assert runs[i] in runs;
    }
    ReachingFresh(s, runs, earliest);
  }

  lemma ShapeKeepsPositive(s0: seq<LedgerSlot>, s: seq<LedgerSlot>, chunks: seq<Chunk>)
    requires AllBecame(s0, s, chunks) && Positive(s0)
    ensures Positive(s)
  {
    forall i | 0 <= i < |s|
      ensures Span(s[i]) > 0
    {
      assert Became(chunks, s0[i], s[i]);
    }
  }

  /** Whatever `Place` returns satisfies the invariant its start satisfied. */
  lemma {:induction false} PlaceSound(s0: seq<LedgerSlot>, p: Placing, t: SchedulableTask, required: int,
                                      earliest: Option<Instant>)
    requires DistinctIds(s0) && Positive(s0) && Sound(s0, p, t, required, earliest)
    ensures Sound(s0, Place(p, t, earliest), t, required, earliest)
    decreases if p.remaining <= 0 then 0 else p.remaining
  {
    if p.remaining > 0 {
      ShapeKeepsIds(s0, p.slots, p.chunks);
      ShapeKeepsPositive(s0, p.slots, p.chunks);
      var runs := Candidates(p.slots, earliest);
      CandidatesFresh(p.slots, earliest);
      SweepSound(s0, p, t, required, earliest, runs);
      SweepProgress(p, t, earliest, runs);
      var q := Sweep(p, t, earliest, runs);
      if |q.chunks| > |p.chunks| {
        PlaceSound(s0, q, t, required, earliest);
      }
    }
  }

  // ---------------------------------------------------------------- stopping short

  lemma {:induction false} SweepRefuses(p: Placing, t: SchedulableTask, earliest: Option<Instant>,
                                        runs: seq<seq<LedgerSlot>>)
    requires NoEmptyRun(runs) && p.remaining > 0
    requires |Sweep(p, t, earliest, runs).chunks| == |p.chunks|
    ensures forall i :: 0 <= i < |runs| ==> RunDemand(p, t, earliest, runs[i]).None?
    decreases |runs|
  {
    if runs != [] {
      TryRunProgress(p, t, earliest, runs[0]);
      SweepProgress(TryRun(p, t, earliest, runs[0]), t, earliest, runs[1..]);
      SweepRefuses(p, t, earliest, runs[1..]);
      forall i | 0 <= i < |runs|
        ensures RunDemand(p, t, earliest, runs[i]).None?
      {
        assert i > 0 ==> runs[i] == runs[1..][i - 1];
      }
    }
  }

  /** No chunk of the task could legally be cut from the run. */
  ghost predicate Unusable(p: Placing, t: SchedulableTask, earliest: Option<Instant>, run: seq<LedgerSlot>)
    requires run != []
  {
    var available := Minutes(Usable(run, EffectiveStart(run, earliest)));
    || available <= 0
    || available < Min(t.minChunk, p.remaining)
    || (!t.splittable && available < p.remaining)
    || (t.splittable && CountOn(p.chunks, UtcDay(run[0].start)) >= MAX_CHUNKS_PER_DAY)
  }

  /** When work remains, every free run past the earliest start is unusable in the final ledger. */
  lemma {:induction false} PlaceExhausts(s0: seq<LedgerSlot>, p: Placing, t: SchedulableTask, required: int,
                                         earliest: Option<Instant>)
    requires DistinctIds(s0) && Positive(s0) && Sound(s0, p, t, required, earliest)
    ensures var q := Place(p, t, earliest);
      q.remaining > 0 ==>
        forall i :: 0 <= i < |Candidates(q.slots, earliest)| ==>
          Unusable(q, t, earliest, Candidates(q.slots, earliest)[i])
    decreases if p.remaining <= 0 then 0 else p.remaining
  {
    if p.remaining > 0 {
      var runs := Candidates(p.slots, earliest);
      var q := Sweep(p, t, earliest, runs);
      SweepProgress(p, t, earliest, runs);
      if |q.chunks| > |p.chunks| {
        ShapeKeepsIds(s0, p.slots, p.chunks);
        ShapeKeepsPositive(s0, p.slots, p.chunks);
        CandidatesFresh(p.slots, earliest);
        SweepSound(s0, p, t, required, earliest, runs);
        PlaceExhausts(s0, q, t, required, earliest);
      } else {
        SweepRefuses(p, t, earliest, runs);
      }
    }
  }
}
