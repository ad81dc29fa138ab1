/** At most three chunks a day: when the cap holds, and a run that slips a fourth one past it. */
module DayCap {
  import opened Domain
  import opened Priority
  import opened Ledger
  import opened Placement
  import opened Ownership
  import opened Conservation
  import opened PlacementFacts
  import opened TwoSweeps

  ghost predicate Capped(chunks: seq<Chunk>) {
    forall d {:trigger CountOn(chunks, d)} :: CountOn(chunks, d) <= 3
  }

  lemma CountMore(chunks: seq<Chunk>, c: Chunk, d: int)
    ensures CountOn(chunks + [c], d) == CountOn(chunks, d) + (if UtcDay(ChunkStart(c)) == d then 1 else 0)
  {
    assert (chunks + [c])[..|chunks|] == chunks;
  }

  // ---------------------------------------------------------------- runs that begin on the day of their chunk

  /** Where a chunk of the run would begin. */
  ghost function FirstUsable(run: seq<LedgerSlot>, earliest: Option<Instant>): LedgerSlot
    requires run != []
  {
    var usable := Usable(run, EffectiveStart(run, earliest));
    if usable == [] then run[0] else usable[0]
  }

  /** The run begins on the day a chunk of it would begin on. */
  ghost predicate Aligned(run: seq<LedgerSlot>, earliest: Option<Instant>) {
    run != [] && UtcDay(run[0].start) == UtcDay(FirstUsable(run, earliest).start)
  }

  ghost predicate AllAligned(runs: seq<seq<LedgerSlot>>, earliest: Option<Instant>) {
    forall i {:trigger runs[i]} :: 0 <= i < |runs| ==> Aligned(runs[i], earliest)
  }

  lemma ChunkBegins(p: Placing, t: SchedulableTask, earliest: Option<Instant>, run: seq<LedgerSlot>)
    requires run != [] && p.remaining > 0 && RunDemand(p, t, earliest, run).Some?
    ensures Cut(run, earliest, RunDemand(p, t, earliest, run).value) != []
    ensures Cut(run, earliest, RunDemand(p, t, earliest, run).value)[0] == FirstUsable(run, earliest)
  {
    ChunkCovers(p, t, earliest, run);
  }

  /** A turn on an aligned run keeps the cap; on any other it can add a fourth chunk, on the day its chunk begins. */
  lemma TurnCapped(s0: seq<LedgerSlot>, p: Placing, t: SchedulableTask, required: int, earliest: Option<Instant>,
                   run: seq<LedgerSlot>)
    requires Sound(s0, p, t, required, earliest) && p.remaining > 0 && run != []
    requires Capped(p.chunks) && t.splittable
    ensures Aligned(run, earliest) ==> Capped(TryRun(p, t, earliest, run).chunks)
    ensures RunDemand(p, t, earliest, run).Some? ==> forall d {:trigger CountOn(TryRun(p, t, earliest, run).chunks, d)} ::
      CountOn(TryRun(p, t, earliest, run).chunks, d) ==
      CountOn(p.chunks, d) + (if d == UtcDay(FirstUsable(run, earliest).start) then 1 else 0)
  {
    if RunDemand(p, t, earliest, run).Some? {
      ChunkCovers(p, t, earliest, run);
      ChunkBegins(p, t, earliest, run);
      var c := Chunk(t.id, t.kind, p.index, Cut(run, earliest, RunDemand(p, t, earliest, run).value));
      var day := UtcDay(run[0].start);
      assert CountOn(p.chunks, day) == DayCount(p.dayChunks, day) < 3;
      forall d {:trigger CountOn(p.chunks + [c], d)}
        ensures CountOn(p.chunks + [c], d) ==
          CountOn(p.chunks, d) + (if d == UtcDay(FirstUsable(run, earliest).start) then 1 else 0)
      {
        CountMore(p.chunks, c, d);
      }
    }
  }

  lemma {:induction false} SweepCapped(s0: seq<LedgerSlot>, p: Placing, t: SchedulableTask, required: int,
                                       earliest: Option<Instant>, runs: seq<seq<LedgerSlot>>)
    requires DistinctIds(s0) && Sound(s0, p, t, required, earliest)
    requires NoEmptyRun(runs) && FreshRuns(p.slots, runs, earliest)
    requires Capped(p.chunks) && t.splittable && AllAligned(runs, earliest)
    ensures Capped(Sweep(p, t, earliest, runs).chunks)
    decreases |runs|
  {
    if runs != [] && p.remaining > 0 {
      assert Aligned(runs[0], earliest);
      TurnCapped(s0, p, t, required, earliest, runs[0]);
      TryRunSound(s0, p, t, required, earliest, runs[0]);
      FreshAfterTurn(p, t, earliest, runs);
      AlignedTail(runs, earliest);
      SweepCapped(s0, TryRun(p, t, earliest, runs[0]), t, required, earliest, runs[1..]);
    }
  }

  lemma AlignedTail(runs: seq<seq<LedgerSlot>>, earliest: Option<Instant>)
    requires AllAligned(runs, earliest) && runs != []
    ensures AllAligned(runs[1..], earliest)
  {
    assert forall i :: 0 <= i < |runs[1..]| ==> runs[1..][i] == runs[i + 1];
  }

  // ---------------------------------------------------------------- a bound on a run of one day

  /** The instant `e` falls in the slot. */
  predicate Holds(x: LedgerSlot, e: Instant) {
    x.start <= e < x.end
  }

  /** Free slots of the ledger that touch one another. */
  ghost predicate Chain(s: seq<LedgerSlot>, c: seq<LedgerSlot>) {
    c != [] && Abutting(c) && Available(s, c)
  }

  ghost predicate ChainOnOneDay(c: seq<LedgerSlot>) {
    c != [] && UtcDay(c[0].start) == UtcDay(c[|c| - 1].start)
  }

  /** Free slots that lead up, touching, to the free slot that holds `e` begin on the day that slot begins. */
  ghost predicate BoundRunOnOneDay(s: seq<LedgerSlot>, e: Instant) {
    forall c {:trigger Chain(s, c)} :: Chain(s, c) && Holds(c[|c| - 1], e) ==> ChainOnOneDay(c)
  }

  ghost predicate OnOneDay(s: seq<LedgerSlot>, earliest: Option<Instant>) {
    earliest.Some? ==> BoundRunOnOneDay(s, earliest.value)
  }

  /** Where a run can first be used: at its front, or in the slot that holds the bound, which touches the one before. */
  lemma UsableFrom(run: seq<LedgerSlot>, earliest: Option<Instant>) returns (k: nat)
    requires run != [] && Abutting(run) && AllPositive(run)
    requires earliest.Some? ==> run[|run| - 1].end > earliest.value
    ensures k < |run| && FirstUsable(run, earliest) == run[k]
    ensures k > 0 ==> earliest.Some? && Holds(run[k], earliest.value)
  {
    var from := EffectiveStart(run, earliest);
    ReadyUsable(run, earliest);
    k := LeftoverSpent(run, earliest);
    UsableEnds(run, from);
    assert k < |run|;
    assert run[k..][0] == run[k];
    if k > 0 {
      assert run[k - 1].end == run[k].start;
      assert run[..k][|run[..k]| - 1] == run[k - 1];
      assert run[k] in run[k..];
    }
  }

  lemma ReadyAligned(s: seq<LedgerSlot>, run: seq<LedgerSlot>, earliest: Option<Instant>)
    requires RunReady(s, run, earliest) && OnOneDay(s, earliest)
    ensures Aligned(run, earliest)
  {
    var k := UsableFrom(run, earliest);
    if k > 0 {
      var c := run[..k + 1];
      AbuttingPrefix(run, k + 1);
      assert Chain(s, c) && c[|c| - 1] == run[k] && c[0] == run[0];
      assert ChainOnOneDay(c);
    }
  }

  lemma {:induction false} FreshAligned(s: seq<LedgerSlot>, runs: seq<seq<LedgerSlot>>, earliest: Option<Instant>)
    requires FreshRuns(s, runs, earliest) && OnOneDay(s, earliest)
    ensures AllAligned(runs, earliest)
    decreases |runs|
  {
    if runs != [] {
      ReadyAligned(s, runs[0], earliest);
      FreshAligned(s, runs[1..], earliest);
      forall i | 0 <= i < |runs|
        ensures Aligned(runs[i], earliest)
      {
        assert i > 0 ==> runs[i] == runs[1..][i - 1];
      }
    }
  }

  lemma {:induction false} PlaceCapped(s0: seq<LedgerSlot>, p: Placing, t: SchedulableTask, required: int,
                                       earliest: Option<Instant>)
    requires DistinctIds(s0) && Positive(s0) && Sound(s0, p, t, required, earliest)
    requires Capped(p.chunks) && t.splittable && OnOneDay(p.slots, earliest)
    ensures Capped(Place(p, t, earliest).chunks)
    decreases if p.remaining <= 0 then 0 else p.remaining
  {
    if p.remaining > 0 {
      var runs := Candidates(p.slots, earliest);
      var q := Sweep(p, t, earliest, runs);
      OneSweepCapped(s0, p, t, required, earliest);
      SweepProgress(p, t, earliest, runs);
      if |q.chunks| > |p.chunks| {
        PlaceCapped(s0, q, t, required, earliest);
      }
    }
  }

  /** A sweep over a ledger whose bound is on a run of one day keeps the cap, and the ledger stays such. */
  lemma OneSweepCapped(s0: seq<LedgerSlot>, p: Placing, t: SchedulableTask, required: int, earliest: Option<Instant>)
    requires DistinctIds(s0) && Positive(s0) && Sound(s0, p, t, required, earliest)
    requires Capped(p.chunks) && t.splittable && OnOneDay(p.slots, earliest)
    ensures var q := Sweep(p, t, earliest, Candidates(p.slots, earliest));
      Sound(s0, q, t, required, earliest) && Capped(q.chunks) && OnOneDay(q.slots, earliest)
  {
    var runs := Candidates(p.slots, earliest);
    ShapeKeepsIds(s0, p.slots, p.chunks);
    ShapeKeepsPositive(s0, p.slots, p.chunks);
    CandidatesFresh(p.slots, earliest);
    FreshAligned(p.slots, runs, earliest);
    SweepCapped(s0, p, t, required, earliest, runs);
    SweepSound(s0, p, t, required, earliest, runs);
    SweepOnOneDay(p, t, earliest, runs);
  }

  lemma TurnOnOneDay(p: Placing, t: SchedulableTask, earliest: Option<Instant>, run: seq<LedgerSlot>)
    requires run != [] && OnOneDay(p.slots, earliest)
    ensures OnOneDay(TryRun(p, t, earliest, run).slots, earliest)
  {
    var q := TryRun(p, t, earliest, run);
    if earliest.Some? {
      forall c | Chain(q.slots, c) && Holds(c[|c| - 1], earliest.value)
        ensures ChainOnOneDay(c)
      {
        forall x | x in c
          ensures x in p.slots
        {
          var i :| 0 <= i < |q.slots| && q.slots[i] == x;
          assert p.slots[i] == x;
        }
        assert Chain(p.slots, c);
      }
    }
  }

  lemma {:induction false} SweepOnOneDay(p: Placing, t: SchedulableTask, earliest: Option<Instant>,
                                         runs: seq<seq<LedgerSlot>>)
    requires NoEmptyRun(runs) && OnOneDay(p.slots, earliest)
    ensures OnOneDay(Sweep(p, t, earliest, runs).slots, earliest)
    decreases |runs|
  {
    if runs != [] && p.remaining > 0 {
      TurnOnOneDay(p, t, earliest, runs[0]);
      SweepOnOneDay(TryRun(p, t, earliest, runs[0]), t, earliest, runs[1..]);
    }
  }

  /**
   A task gets at most three chunks that begin on any one day, provided it may not be split, has no earliest start,
   or the free slots that lead up to the one holding the bound begin on the day that one does.
   */
  lemma AtMostThreeADay(s0: seq<LedgerSlot>, t: SchedulableTask, required: int, earliest: Option<Instant>)
    requires DistinctIds(s0) && Positive(s0) && (t.splittable ==> OnOneDay(s0, earliest))
    ensures Capped(Place(Begin(s0, [], required), t, earliest).chunks)
  {
    BeginSound(s0, t, required, earliest);
    if t.splittable {
      PlaceCapped(s0, Begin(s0, [], required), t, required, earliest);
    } else {
      PlaceSound(s0, Begin(s0, [], required), t, required, earliest);
      CountAtMost(Place(Begin(s0, [], required), t, earliest).chunks);
    }
  }

  lemma {:induction false} CountAtMost(chunks: seq<Chunk>)
    ensures forall d {:trigger CountOn(chunks, d)} :: CountOn(chunks, d) <= |chunks|
    decreases |chunks|
  {
    if chunks != [] {
      CountAtMost(chunks[..|chunks| - 1]);
    }
  }

  // ---------------------------------------------------------------- a fourth chunk

  function FreeSlot(id: SlotId, start: Instant, end: Instant): LedgerSlot {
    LedgerSlot(id, start, end, true, None)
  }

  const LAST_OF_DAY := FreeSlot(1, 1410, 1440)
  const FIRST_OF_DAY := FreeSlot(2, 1440, 1470)
  const MORNING := FreeSlot(3, 1500, 1560)
  const NOON := FreeSlot(4, 1600, 1660)
  const EVENING := FreeSlot(5, 1700, 1760)

  /** Half an hour on either side of midnight, then three separate hours. */
  const FIVE_SLOTS: seq<LedgerSlot> := [LAST_OF_DAY, FIRST_OF_DAY, MORNING, NOON, EVENING]

  /** A turn on a one-slot run that is wanted whole. */
  lemma WholeSlotTurn(p: Placing, t: SchedulableTask, earliest: Instant, x: LedgerSlot)
    requires t.splittable && 0 < t.minChunk <= Span(x) <= p.remaining && x.start >= earliest
    requires DayCount(p.dayChunks, UtcDay(x.start)) < 3
    ensures TryRun(p, t, Some(earliest), [x]) == AddChunk(p, Chunk(t.id, t.kind, p.index, [x]))
  {
    assert [x][1..] == [];
    assert Usable([x], x.start) == [x];
    assert Minutes([x]) == Span(x);
  }

  /** A turn on the run across midnight, of which only the half hour after midnight counts. */
  lemma MidnightTurn(p: Placing, t: SchedulableTask)
    requires t.splittable && t.minChunk == 60 && p.remaining > 0 && DayCount(p.dayChunks, 0) == 0
    ensures TryRun(p, t, Some(1440), [LAST_OF_DAY, FIRST_OF_DAY]) ==
            if p.remaining <= 30 then AddChunk(p, Chunk(t.id, t.kind, p.index, [FIRST_OF_DAY])) else p
  {
    var run := [LAST_OF_DAY, FIRST_OF_DAY];
    assert run[1..] == [FIRST_OF_DAY] && [FIRST_OF_DAY][1..] == [];
    assert Usable([FIRST_OF_DAY], 1440) == [FIRST_OF_DAY];
    assert Usable(run, 1440) == [FIRST_OF_DAY];
    assert Minutes([FIRST_OF_DAY]) == 30;
    assert EffectiveStart(run, Some(1440)) == 1440;
  }

  lemma RunsOfFive()
    ensures Runs(FIVE_SLOTS) == [[LAST_OF_DAY, FIRST_OF_DAY], [MORNING], [NOON], [EVENING]]
  {
    var s := FIVE_SLOTS;
    assert s[1..] == [FIRST_OF_DAY, MORNING, NOON, EVENING];
    assert s[1..][1..] == [MORNING, NOON, EVENING];
    assert s[1..][1..][1..] == [NOON, EVENING];
    assert s[1..][1..][1..][1..] == [EVENING];
    assert [EVENING][1..] == [];
    assert RunsFrom([EVENING], []) == [[EVENING]];
    assert RunsFrom([NOON], [EVENING]) == [[NOON], [EVENING]];
    assert RunsFrom([MORNING], [NOON, EVENING]) == [[MORNING], [NOON], [EVENING]];
    assert [LAST_OF_DAY] + [FIRST_OF_DAY] == [LAST_OF_DAY, FIRST_OF_DAY];
    assert RunsFrom([LAST_OF_DAY, FIRST_OF_DAY], [MORNING, NOON, EVENING]) ==
           [[LAST_OF_DAY, FIRST_OF_DAY]] + [[MORNING], [NOON], [EVENING]];
    assert RunsFrom([LAST_OF_DAY], s[1..]) == RunsFrom([LAST_OF_DAY, FIRST_OF_DAY], s[1..][1..]);
    assert RunsFrom([], s) == RunsFrom([LAST_OF_DAY], s[1..]);
  }

  lemma {:induction false} AllFree(s: seq<LedgerSlot>)
    requires forall i :: 0 <= i < |s| ==> s[i].free
    ensures FreeOf(s) == s
    decreases |s|
  {
    if s != [] {
      AllFree(s[1..]);
    }
  }

  lemma {:induction false} AllReach(runs: seq<seq<LedgerSlot>>, earliest: Instant)
    requires NoEmptyRun(runs) && forall i :: 0 <= i < |runs| ==> runs[i][|runs[i]| - 1].end > earliest
    ensures Reaching(runs, Some(earliest)) == runs
    decreases |runs|
  {
    if runs != [] {
      AllReach(runs[1..], earliest);
      assert runs == [runs[0]] + runs[1..];
    }
  }

  lemma CandidatesOfFive()
    ensures Candidates(FIVE_SLOTS, Some(1440)) == [[LAST_OF_DAY, FIRST_OF_DAY], [MORNING], [NOON], [EVENING]]
  {
    AllFree(FIVE_SLOTS);
    RunsOfFive();
    AllReach([[LAST_OF_DAY, FIRST_OF_DAY], [MORNING], [NOON], [EVENING]], 1440);
  }

  /** The state after the three hours are taken. */
  function AfterThree(t: SchedulableTask): Placing {
    var p := Begin(FIVE_SLOTS, [], 210);
    var p1 := AddChunk(p, Chunk(t.id, t.kind, 0, [MORNING]));
    var p2 := AddChunk(p1, Chunk(t.id, t.kind, 1, [NOON]));
    AddChunk(p2, Chunk(t.id, t.kind, 2, [EVENING]))
  }

  lemma OneSlotMinutes(x: LedgerSlot)
    ensures Minutes([x]) == Span(x)
  {
    assert [x][1..] == [];
  }

  lemma FiveSwept(t: SchedulableTask)
    requires t.splittable && t.minChunk == 60
    ensures Sweep(Begin(FIVE_SLOTS, [], 210), t, Some(1440), [[LAST_OF_DAY, FIRST_OF_DAY], [MORNING], [NOON], [EVENING]]) ==
            AfterThree(t)
  {
    var e := Some(1440);
    var p := Begin(FIVE_SLOTS, [], 210);
    var p1 := AddChunk(p, Chunk(t.id, t.kind, 0, [MORNING]));
    var p2 := AddChunk(p1, Chunk(t.id, t.kind, 1, [NOON]));
    var p3 := AddChunk(p2, Chunk(t.id, t.kind, 2, [EVENING]));
    OneSlotMinutes(MORNING);
    OneSlotMinutes(NOON);
    OneSlotMinutes(EVENING);
    MidnightTurn(p, t);
    WholeSlotTurn(p, t, 1440, MORNING);
    WholeSlotTurn(p1, t, 1440, NOON);
    WholeSlotTurn(p2, t, 1440, EVENING);
    var runs := [[LAST_OF_DAY, FIRST_OF_DAY], [MORNING], [NOON], [EVENING]];
    assert runs[1..] == [[MORNING], [NOON], [EVENING]] && runs[1..][1..] == [[NOON], [EVENING]];
    assert [[NOON], [EVENING]][1..] == [[EVENING]] && [[EVENING]][1..] == [];
    assert Sweep(p2, t, e, [[EVENING]]) == Sweep(p3, t, e, []) == p3;
    assert Sweep(p1, t, e, [[NOON], [EVENING]]) == p3;
    assert Sweep(p, t, e, runs[1..]) == p3;
  }

  lemma AfterThreeIs(t: SchedulableTask)
    ensures var q := AfterThree(t);
      && FreeOf(q.slots) == [LAST_OF_DAY, FIRST_OF_DAY] && q.remaining == 30
      && DayCount(q.dayChunks, 0) == 0 && CountOn(q.chunks, 1) == 3 && |q.chunks| == 3
  {
    var p := Begin(FIVE_SLOTS, [], 210);
    var c0, c1, c2 := Chunk(t.id, t.kind, 0, [MORNING]), Chunk(t.id, t.kind, 1, [NOON]), Chunk(t.id, t.kind, 2, [EVENING]);
    OneSlotMinutes(MORNING);
    OneSlotMinutes(NOON);
    OneSlotMinutes(EVENING);
    var q := AfterThree(t);
    CountMore([], c0, 1);
    CountMore([c0], c1, 1);
    CountMore([c0, c1], c2, 1);
    assert q.chunks == [] + [c0] + [c1] + [c2] == [c0, c1, c2];
    assert [] + [c0] == [c0] && [c0] + [c1] == [c0, c1] && [c0, c1] + [c2] == [c0, c1, c2];
    FreeAfterThree(t);
  }

  lemma {:induction false} NoneFree(s: seq<LedgerSlot>)
    requires forall i :: 0 <= i < |s| ==> !s[i].free
    ensures FreeOf(s) == []
    decreases |s|
  {
    if s != [] {
      NoneFree(s[1..]);
    }
  }

  lemma FirstTwoFree(a: LedgerSlot, b: LedgerSlot, rest: seq<LedgerSlot>)
    requires a.free && b.free && forall i :: 0 <= i < |rest| ==> !rest[i].free
    ensures FreeOf([a, b] + rest) == [a, b]
  {
    NoneFree(rest);
    assert ([a, b] + rest)[1..] == [b] + rest;
    assert ([b] + rest)[1..] == rest;
    assert FreeOf([b] + rest) == [b];
  }

  /** A one-slot chunk takes that slot and leaves the others as they were. */
  lemma SlotsAfterOne(p: Placing, c: Chunk, x: LedgerSlot)
    requires c.slots == [x]
    ensures var after := AddChunk(p, c).slots;
      |after| == |p.slots| && forall i :: 0 <= i < |after| ==>
        (p.slots[i].id == x.id ==> !after[i].free) && (p.slots[i].id != x.id ==> after[i] == p.slots[i])
        && after[i].id == p.slots[i].id
  {
    assert IdsOf([x]) == [x.id];
  }

  lemma FreeAfterThree(t: SchedulableTask)
    ensures FreeOf(AfterThree(t).slots) == [LAST_OF_DAY, FIRST_OF_DAY]
  {
    var p := Begin(FIVE_SLOTS, [], 210);
    var c0, c1, c2 := Chunk(t.id, t.kind, 0, [MORNING]), Chunk(t.id, t.kind, 1, [NOON]), Chunk(t.id, t.kind, 2, [EVENING]);
    SlotsAfterOne(p, c0, MORNING);
    SlotsAfterOne(AddChunk(p, c0), c1, NOON);
    SlotsAfterOne(AddChunk(AddChunk(p, c0), c1), c2, EVENING);
    var s := AfterThree(t).slots;
    assert |s| == 5 && s[0] == LAST_OF_DAY && s[1] == FIRST_OF_DAY && !s[2].free && !s[3].free && !s[4].free;
    FirstTwoFree(LAST_OF_DAY, FIRST_OF_DAY, s[2..]);
    assert s == [LAST_OF_DAY, FIRST_OF_DAY] + s[2..];
  }

  lemma LastCandidates(s: seq<LedgerSlot>)
    requires FreeOf(s) == [LAST_OF_DAY, FIRST_OF_DAY]
    ensures Candidates(s, Some(1440)) == [[LAST_OF_DAY, FIRST_OF_DAY]]
  {
    var two := [LAST_OF_DAY, FIRST_OF_DAY];
    assert two[1..] == [FIRST_OF_DAY] && [FIRST_OF_DAY][1..] == [];
    assert [LAST_OF_DAY] + [FIRST_OF_DAY] == two;
    assert RunsFrom(two, []) == [two];
    assert RunsFrom([LAST_OF_DAY], [FIRST_OF_DAY]) == [two];
    AllReach([two], 1440);
  }

  /**
   A task that may start at midnight, in chunks of an hour or more, gets four chunks on one day: the last half hour
   it needs is cut from the run that began the day before, whose day has no chunk yet.
   */
  lemma FourthChunkSlipsThrough(t: SchedulableTask)
    requires t.splittable && t.minChunk == 60
    ensures CountOn(Place(Begin(FIVE_SLOTS, [], 210), t, Some(1440)).chunks, 1) == 4
  {
    var e := Some(1440);
    var p, q := Begin(FIVE_SLOTS, [], 210), AfterThree(t);
    var run := [LAST_OF_DAY, FIRST_OF_DAY];
    CandidatesOfFive();
    FiveSwept(t);
    AfterThreeIs(t);
    LastCandidates(q.slots);
    MidnightTurn(q, t);
    OneSlotMinutes(FIRST_OF_DAY);
    var c := Chunk(t.id, t.kind, q.index, [FIRST_OF_DAY]);
    var end := AddChunk(q, c);
    assert [run][1..] == [];
    assert Sweep(q, t, e, [run]) == end;
    assert Place(q, t, e) == end;
    assert Place(p, t, e) == Place(q, t, e);
    CountMore(q.chunks, c, 1);
  }
}
