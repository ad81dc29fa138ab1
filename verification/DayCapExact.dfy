/** Exactly when a fourth chunk of a day slips past the cap, over slots in start order. */
module DayCapExact {
  import opened Domain
  import opened Priority
  import opened Ledger
  import opened Placement
  import opened Ownership
  import opened Conservation
  import opened PlacementFacts
  import opened SerialTheorems
  import opened TwoSweeps
  import opened DayCap

  // ---------------------------------------------------------------- the runs after the first

  lemma ReachingGapped(runs: seq<seq<LedgerSlot>>, earliest: Option<Instant>) returns (k: nat)
    requires Gapped(runs) && NoEmptyRun(runs)
    ensures k <= |runs| && forall i :: 0 <= i < k ==> !Reaches(runs[i], earliest)
    ensures k == |runs| ==> Reaching(runs, earliest) == []
    ensures k < |runs| ==> Reaches(runs[k], earliest)
    ensures k < |runs| ==> Reaching(runs, earliest) == [runs[k]] + Reaching(runs[k + 1..], earliest)
    ensures Gapped(Reaching(runs, earliest))
    decreases |runs|
  {
    if runs == [] {
      k := 0;
    } else {
      var rest := runs[1..];
      GappedTail(runs);
      var m := ReachingGapped(rest, earliest);
      if Reaches(runs[0], earliest) {
        k := 0;
        ConsGapped(runs, Reaching(rest, earliest), earliest);
      } else {
        k := m + 1;
        assert runs[k..][..] == rest[m..];
        assert k < |runs| ==> runs[k + 1..] == rest[m + 1..];
      }
    }
  }

  lemma ConsGapped(runs: seq<seq<LedgerSlot>>, reached: seq<seq<LedgerSlot>>, earliest: Option<Instant>)
    requires Gapped(runs) && NoEmptyRun(runs) && runs != [] && Gapped(reached)
    requires reached == Reaching(runs[1..], earliest)
    ensures Gapped([runs[0]] + reached)
  {
    var all := [runs[0]] + reached;
    ReachingKeeps(runs[1..], earliest);
    forall i, j | 0 <= i < j < |all|
      ensures GapBetween(all[i], all[j])
    {
      if i == 0 {
        assert reached[j - 1] in reached;
        var n :| 0 <= n < |runs[1..]| && runs[1..][n] == reached[j - 1];
        assert GapBetween(runs[0], runs[n + 1]);
      } else {
        assert GapBetween(reached[i - 1], reached[j - 1]);
      }
    }
  }

  lemma CandidatesOrdered(s: seq<LedgerSlot>, earliest: Option<Instant>)
    requires DistinctIds(s) && Positive(s) && Separate(s)
    ensures Gapped(Candidates(s, earliest))
    ensures forall i {:trigger Candidates(s, earliest)[i]} :: 0 <= i < |Candidates(s, earliest)| ==>
      RunReady(s, Candidates(s, earliest)[i], earliest)
  {
    LedgerRuns(s);
    var k := ReachingGapped(Runs(FreeOf(s)), earliest);
    CandidatesFresh(s, earliest);
    FreshReady(s, Candidates(s, earliest), earliest);
  }

  lemma {:induction false} FreshReady(s: seq<LedgerSlot>, runs: seq<seq<LedgerSlot>>, earliest: Option<Instant>)
    requires FreshRuns(s, runs, earliest)
    ensures forall i {:trigger runs[i]} :: 0 <= i < |runs| ==> RunReady(s, runs[i], earliest)
    decreases |runs|
  {
    if runs != [] {
      FreshReady(s, runs[1..], earliest);
      assert forall i :: 0 < i < |runs| ==> runs[i] == runs[1..][i - 1];
    }
  }

  /** Runs after the first begin past the bound: a chunk of one begins where the run does. */
  lemma LaterBegins(run: seq<LedgerSlot>, first: seq<LedgerSlot>, s: seq<LedgerSlot>, e: Instant)
    requires RunReady(s, first, Some(e)) && RunReady(s, run, Some(e)) && GapBetween(first, run)
    ensures run[0].start > e && FirstUsable(run, Some(e)) == run[0] && Aligned(run, Some(e))
  {
    var k := UsableFrom(run, Some(e));
    if k > 0 {
      AbuttingRises(run, 0, k);
    }
  }

  lemma LaterAligned(s: seq<LedgerSlot>, e: Instant)
    requires DistinctIds(s) && Positive(s) && Separate(s) && Candidates(s, Some(e)) != []
    ensures AllAligned(Candidates(s, Some(e))[1..], Some(e))
  {
    var runs := Candidates(s, Some(e));
    CandidatesOrdered(s, Some(e));
    forall i | 0 <= i < |runs[1..]|
      ensures Aligned(runs[1..][i], Some(e))
    {
      assert RunReady(s, runs[0], Some(e)) && RunReady(s, runs[i + 1], Some(e));
      assert GapBetween(runs[0], runs[i + 1]);
      LaterBegins(runs[i + 1], runs[0], s, e);
    }
  }

  // ---------------------------------------------------------------- a free slot that holds the bound

  /** Of a first candidate run, a slot that holds the bound is the first usable one. */
  lemma HolderInRun(run: seq<LedgerSlot>, s: seq<LedgerSlot>, e: Instant, x: LedgerSlot)
    requires RunReady(s, run, Some(e)) && x in run && Holds(x, e)
    ensures FirstUsable(run, Some(e)) == x
  {
    var k := UsableFrom(run, Some(e));
    var i :| 0 <= i < |run| && run[i] == x;
    if i < k {
      AbuttingRises(run, i, k);
    } else if k < i {
      AbuttingRises(run, k, i);
      UsableAfter(run, e, k);
    }
  }

  lemma UsableAfter(run: seq<LedgerSlot>, e: Instant, k: nat)
    requires run != [] && k < |run| && FirstUsable(run, Some(e)) == run[k]
    requires run[|run| - 1].end > e && AllPositive(run) && Abutting(run)
    ensures run[k].end > e
  {
    var from := EffectiveStart(run, Some(e));
    UsableEnds(run, from);
    ReadyUsable(run, Some(e));
    var usable := Usable(run, from);
    assert usable != [] && usable[0] in usable;
  }

  /** The free slot that holds the bound, if there is one, is where the first candidate run can be used. */
  lemma HolderIsFirst(s: seq<LedgerSlot>, e: Instant, x: LedgerSlot)
    requires DistinctIds(s) && Positive(s) && Separate(s) && x in s && x.free && Holds(x, e)
    ensures Candidates(s, Some(e)) != [] && FirstUsable(Candidates(s, Some(e))[0], Some(e)) == x
  {
    var all, runs := Runs(FreeOf(s)), Candidates(s, Some(e));
    LedgerRuns(s);
    FreeOfFacts(s);
    var j := RunOf(all, x);
    RunReaches(all[j], e, x);
    ReachingKeeps(all, Some(e));
    assert all[j] in runs;
    var i :| 0 <= i < |runs| && runs[i] == all[j];
    CandidatesOrdered(s, Some(e));
    assert RunReady(s, runs[i], Some(e)) && RunReady(s, runs[0], Some(e));
    if i > 0 {
      assert GapBetween(runs[0], runs[i]);
      LaterBegins(runs[i], runs[0], s, e);
      NotBefore(runs[i], x);
    }
    HolderInRun(runs[0], s, e, x);
  }

  lemma NotBefore(run: seq<LedgerSlot>, x: LedgerSlot)
    requires x in run && Abutting(run) && AllPositive(run)
    ensures run[0].start <= x.start
  {
    var i :| 0 <= i < |run| && run[i] == x;
    if i > 0 {
      AbuttingRises(run, 0, i);
    }
  }

  lemma {:induction false} RunOf(runs: seq<seq<LedgerSlot>>, x: LedgerSlot) returns (j: nat)
    requires x in Flatten(runs)
    ensures j < |runs| && x in runs[j]
    decreases |runs|
  {
    if x in runs[0] {
      j := 0;
    } else {
      j := RunOf(runs[1..], x);
      j := j + 1;
    }
  }

  lemma RunReaches(run: seq<LedgerSlot>, e: Instant, x: LedgerSlot)
    requires x in run && Abutting(run) && AllPositive(run) && Holds(x, e)
    ensures Reaches(run, Some(e))
  {
    var i :| 0 <= i < |run| && run[i] == x;
    if i < |run| - 1 {
      AbuttingRises(run, i, |run| - 1);
    }
  }

  // ---------------------------------------------------------------- the other runs, tallied

  /** What a sweep over some runs comes to, without the ledger: what remains, and how many chunks each day has. */
  datatype Tally = Tally(remaining: int, counts: map<int, nat>)

  function UsableMinutes(run: seq<LedgerSlot>, earliest: Option<Instant>): int
    requires run != []
  {
    Minutes(Usable(run, EffectiveStart(run, earliest)))
  }

  function TallyRun(t: SchedulableTask, k: Tally, earliest: Option<Instant>, run: seq<LedgerSlot>): Tally
    requires run != []
  {
    var day := UtcDay(run[0].start);
    match Demand(t, k.remaining, k.counts, day, UsableMinutes(run, earliest))
    case None => k
    case Some(take) => Tally(k.remaining - take, k.counts[day := DayCount(k.counts, day) + 1])
  }

  function TallyRuns(t: SchedulableTask, k: Tally, earliest: Option<Instant>, runs: seq<seq<LedgerSlot>>): Tally
    requires NoEmptyRun(runs)
    decreases |runs|
  {
    if runs == [] || k.remaining <= 0 then k else TallyRuns(t, TallyRun(t, k, earliest, runs[0]), earliest, runs[1..])
  }

  ghost predicate SameCounts(a: map<int, nat>, b: map<int, nat>) {
    forall d {:trigger DayCount(a, d)} :: DayCount(a, d) == DayCount(b, d)
  }

  /** The tally agrees with the state of the sweep as long as work remains, and runs out exactly when it does. */
  ghost predicate Agrees(p: Placing, k: Tally) {
    if p.remaining > 0 then k.remaining == p.remaining && SameCounts(p.dayChunks, k.counts) else k.remaining <= 0
  }

  /** What a granted turn on an aligned run does to the counters. */
  lemma TurnEffect(p: Placing, t: SchedulableTask, earliest: Option<Instant>, run: seq<LedgerSlot>)
    requires run != [] && AllPositive(run) && Aligned(run, earliest)
    requires p.remaining > 0 && t.splittable && RunDemand(p, t, earliest, run).Some?
    ensures var take, day, q := RunDemand(p, t, earliest, run).value, UtcDay(run[0].start), TryRun(p, t, earliest, run);
      && take <= p.remaining && q.dayChunks == p.dayChunks[day := DayCount(p.dayChunks, day) + 1]
      && (if take < p.remaining then q.remaining == p.remaining - take else q.remaining <= 0)
  {
    var from := EffectiveStart(run, earliest);
    ChunkCovers(p, t, earliest, run);
    ChunkBegins(p, t, earliest, run);
    UsablePositive(run, from);
    TakeAllMinutes(Usable(run, from));
  }

  lemma TurnTallies(p: Placing, t: SchedulableTask, earliest: Option<Instant>, run: seq<LedgerSlot>, k: Tally)
    requires p.remaining > 0 && Agrees(p, k) && t.splittable
    requires run != [] && AllPositive(run) && Aligned(run, earliest)
    ensures Agrees(TryRun(p, t, earliest, run), TallyRun(t, k, earliest, run))
  {
    var day := UtcDay(run[0].start);
    assert DayCount(p.dayChunks, day) == DayCount(k.counts, day);
    if RunDemand(p, t, earliest, run).Some? {
      TurnEffect(p, t, earliest, run);
      CountsMore(p.dayChunks, k.counts, day);
    }
  }

  lemma CountsMore(a: map<int, nat>, b: map<int, nat>, day: int)
    requires SameCounts(a, b)
    ensures SameCounts(a[day := DayCount(a, day) + 1], b[day := DayCount(b, day) + 1])
  {
    var a', b' := a[day := DayCount(a, day) + 1], b[day := DayCount(b, day) + 1];
    forall d {:trigger DayCount(a', d)}
      ensures DayCount(a', d) == DayCount(b', d)
    {
      assert DayCount(a, d) == DayCount(b, d);
    }
  }

  ghost predicate IsStretch(run: seq<LedgerSlot>) {
    run != [] && Abutting(run) && AllPositive(run)
  }

  ghost predicate AllStretches(runs: seq<seq<LedgerSlot>>) {
    forall i {:trigger runs[i]} :: 0 <= i < |runs| ==> IsStretch(runs[i])
  }

  lemma {:induction false} SweepTallies(p: Placing, t: SchedulableTask, earliest: Option<Instant>,
                                        runs: seq<seq<LedgerSlot>>, k: Tally)
    requires Agrees(p, k) && t.splittable && NoEmptyRun(runs) && AllStretches(runs) && AllAligned(runs, earliest)
    ensures Agrees(Sweep(p, t, earliest, runs), TallyRuns(t, k, earliest, runs))
    decreases |runs|
  {
    if runs != [] && p.remaining > 0 {
      assert IsStretch(runs[0]) && Aligned(runs[0], earliest);
      TurnTallies(p, t, earliest, runs[0], k);
      AlignedTail(runs, earliest);
      assert forall i :: 0 <= i < |runs[1..]| ==> runs[1..][i] == runs[i + 1];
      SweepTallies(TryRun(p, t, earliest, runs[0]), t, earliest, runs[1..], TallyRun(t, k, earliest, runs[0]));
    }
  }

  /** A day no run begins on gets nothing in the tally. */
  lemma {:induction false} TallyElsewhere(t: SchedulableTask, k: Tally, earliest: Option<Instant>,
                                          runs: seq<seq<LedgerSlot>>, d: int)
    requires NoEmptyRun(runs) && forall i :: 0 <= i < |runs| ==> UtcDay(runs[i][0].start) != d
    ensures DayCount(TallyRuns(t, k, earliest, runs).counts, d) == DayCount(k.counts, d)
    decreases |runs|
  {
    if runs != [] && k.remaining > 0 {
      assert forall i :: 0 <= i < |runs[1..]| ==> runs[1..][i] == runs[i + 1];
      TallyElsewhere(t, TallyRun(t, k, earliest, runs[0]), earliest, runs[1..], d);
    }
  }

  // ---------------------------------------------------------------- when a fourth chunk fits

  /**
   The first free run that reaches past the bound begins on an earlier day than it can be used on, it is too short
   for a first chunk, and the other runs alone give the day it can be used on its three chunks and leave a rest that
   fits into it.
   */
  ghost predicate FourthFits(s: seq<LedgerSlot>, t: SchedulableTask, required: int, e: Instant) {
    var runs := Candidates(s, Some(e));
    && t.splittable && runs != [] && !Aligned(runs[0], Some(e))
    && UsableMinutes(runs[0], Some(e)) < Min(t.minChunk, required)
    && var k := TallyRuns(t, Tally(required, map[]), Some(e), runs[1..]);
       && 0 < k.remaining <= UsableMinutes(runs[0], Some(e))
       && DayCount(k.counts, UtcDay(FirstUsable(runs[0], Some(e)).start)) == 3
  }

  // ---------------------------------------------------------------- an aligned first run

  lemma InRun(runs: seq<seq<LedgerSlot>>, j: nat, x: LedgerSlot, y: LedgerSlot)
    requires Pieces(runs) && NoEmptyRun(runs) && AllRunsPositive(runs) && j < |runs| && y in runs[j]
    requires x in Flatten(runs) && Span(x) > 0 && x.end == y.start
    ensures x in runs[j]
  {
    var i := RunOf(runs, x);
    if i < j {
      InOrder(runs, i, j, x, y);
    } else if j < i {
      InOrder(runs, j, i, y, x);
    }
  }

  lemma InOrder(runs: seq<seq<LedgerSlot>>, i: nat, j: nat, x: LedgerSlot, y: LedgerSlot)
    requires Pieces(runs) && NoEmptyRun(runs) && AllRunsPositive(runs) && i < j < |runs| && x in runs[i] && y in runs[j]
    ensures x.end < y.start < y.end
  {
    RunBounds(runs[i], x);
    RunBounds(runs[j], y);
    assert GapBetween(runs[i], runs[j]);
  }

  lemma RunBounds(run: seq<LedgerSlot>, x: LedgerSlot)
    requires x in run && Abutting(run) && AllPositive(run)
    ensures run[0].start <= x.start < x.end <= run[|run| - 1].end
  {
    var i :| 0 <= i < |run| && run[i] == x;
    if i < |run| - 1 {
      AbuttingRises(run, i, |run| - 1);
    }
    NotBefore(run, x);
  }

  /** A chain of free slots stays in the run its last slot is in. */
  lemma {:induction false} ChainInRun(s: seq<LedgerSlot>, runs: seq<seq<LedgerSlot>>, j: nat, c: seq<LedgerSlot>, i: nat)
    requires Positive(s) && Pieces(runs) && NoEmptyRun(runs) && AllRunsPositive(runs) && Flatten(runs) == FreeOf(s)
    requires Chain(s, c) && j < |runs| && c[|c| - 1] in runs[j] && i < |c|
    ensures c[i] in runs[j]
    decreases |c| - i
  {
    if i < |c| - 1 {
      ChainInRun(s, runs, j, c, i + 1);
      FreeOfFacts(s);
      assert c[i] in c && c[i].end == c[i + 1].start;
      InRun(runs, j, c[i], c[i + 1]);
    }
  }

  /** When the first run that reaches past the bound begins on the day it can be used on, the bound is on one day. */
  lemma AlignedOnOneDay(s: seq<LedgerSlot>, e: Instant)
    requires DistinctIds(s) && Positive(s) && Separate(s)
    requires Candidates(s, Some(e)) != [] ==> Aligned(Candidates(s, Some(e))[0], Some(e))
    ensures BoundRunOnOneDay(s, e)
  {
    forall c | Chain(s, c) && Holds(c[|c| - 1], e)
      ensures ChainOnOneDay(c)
    {
      var x := c[|c| - 1];
      assert x in c;
      HolderIsFirst(s, e, x);
      FirstRunHasChain(s, e, c);
      RunBounds(Candidates(s, Some(e))[0], c[0]);
      if |c| > 1 {
        ChainPositive(s, c);
        AbuttingRises(c, 0, |c| - 1);
      }
    }
  }

  lemma ChainPositive(s: seq<LedgerSlot>, c: seq<LedgerSlot>)
    requires Chain(s, c) && Positive(s)
    ensures AllPositive(c)
  {
    forall x | x in c
      ensures Span(x) > 0
    {
      assert x in s;
    }
  }

  lemma FirstRunHasChain(s: seq<LedgerSlot>, e: Instant, c: seq<LedgerSlot>)
    requires DistinctIds(s) && Positive(s) && Separate(s) && Chain(s, c)
    requires Candidates(s, Some(e)) != [] && FirstUsable(Candidates(s, Some(e))[0], Some(e)) == c[|c| - 1]
    ensures var head := Candidates(s, Some(e))[0]; c[0] in head && Abutting(head) && AllPositive(head)
  {
    var all, head := Runs(FreeOf(s)), Candidates(s, Some(e))[0];
    LedgerRuns(s);
    CandidatesOrdered(s, Some(e));
    assert RunReady(s, head, Some(e));
    var k := UsableFrom(head, Some(e));
    ReachingKeeps(all, Some(e));
    assert head in Candidates(s, Some(e));
    var j :| 0 <= j < |all| && all[j] == head;
    ChainInRun(s, all, j, c, 0);
  }

  // ---------------------------------------------------------------- a first run used before its turn comes again

  lemma ShapeKeepsSeparate(s0: seq<LedgerSlot>, s: seq<LedgerSlot>, chunks: seq<Chunk>)
    requires AllBecame(s0, s, chunks) && Separate(s0)
    ensures Separate(s)
  {
    forall i, j | 0 <= i < j < |s|
      ensures s[i].end <= s[j].start
    {
      assert Became(chunks, s0[i], s[i]) && Became(chunks, s0[j], s[j]);
    }
  }

  /** Once the slot that holds the bound is taken, no free slot holds it. */
  lemma HolderTaken(s0: seq<LedgerSlot>, s: seq<LedgerSlot>, chunks: seq<Chunk>, e: Instant)
    requires DistinctIds(s0) && Positive(s0) && Separate(s0) && AllBecame(s0, s, chunks)
    requires Candidates(s0, Some(e)) != [] && Held(chunks, FirstUsable(Candidates(s0, Some(e))[0], Some(e)))
    ensures BoundRunOnOneDay(s, e)
  {
    forall c | Chain(s, c)
      ensures !Holds(c[|c| - 1], e)
    {
      assert c[|c| - 1] in c;
      NoHolder(s0, s, chunks, e, c[|c| - 1]);
    }
  }

  lemma NoHolder(s0: seq<LedgerSlot>, s: seq<LedgerSlot>, chunks: seq<Chunk>, e: Instant, x: LedgerSlot)
    requires DistinctIds(s0) && Positive(s0) && Separate(s0) && AllBecame(s0, s, chunks) && x in s && x.free
    requires Candidates(s0, Some(e)) != [] && Held(chunks, FirstUsable(Candidates(s0, Some(e))[0], Some(e)))
    ensures !Holds(x, e)
  {
    FreeIsUntouched(s0, s, chunks, x);
    if Holds(x, e) {
      HolderIsFirst(s0, e, x);
    }
  }

  lemma {:induction false} SweepKeepsChunks(p: Placing, t: SchedulableTask, earliest: Option<Instant>,
                                            runs: seq<seq<LedgerSlot>>)
    requires NoEmptyRun(runs)
    ensures p.chunks <= Sweep(p, t, earliest, runs).chunks
    decreases |runs|
  {
    if runs != [] && p.remaining > 0 {
      SweepKeepsChunks(TryRun(p, t, earliest, runs[0]), t, earliest, runs[1..]);
    }
  }

  lemma HeldByPrefix(a: seq<Chunk>, b: seq<Chunk>, x: LedgerSlot)
    requires a <= b && Held(a, x)
    ensures Held(b, x)
  {
    var k :| 0 <= k < |a| && x in a[k].slots;
    assert x in b[k].slots;
  }

  /** What the first sweep knows of its runs. */
  lemma FirstRuns(s: seq<LedgerSlot>, t: SchedulableTask, required: int, e: Instant)
    requires DistinctIds(s) && Positive(s) && Separate(s) && Candidates(s, Some(e)) != []
    ensures var runs := Candidates(s, Some(e));
      && FreshRuns(s, runs, Some(e)) && AllAligned(runs[1..], Some(e)) && RunReady(s, runs[0], Some(e))
      && Sound(s, Begin(s, [], required), t, required, Some(e)) && Capped(Begin(s, [], required).chunks)
  {
    CandidatesFresh(s, Some(e));
    LaterAligned(s, e);
    BeginSound(s, t, required, Some(e));
  }

  /** The first sweep, its first turn granted: three chunks a day at most, and the slot that holds the bound is gone. */
  lemma HeadTaken(s: seq<LedgerSlot>, t: SchedulableTask, required: int, e: Instant)
    requires DistinctIds(s) && Positive(s) && Separate(s) && Candidates(s, Some(e)) != [] && t.splittable && required > 0
    requires RunDemand(Begin(s, [], required), t, Some(e), Candidates(s, Some(e))[0]).Some?
    ensures var q := FirstSweep(s, t, required, Some(e));
      Sound(s, q, t, required, Some(e)) && Capped(q.chunks) && BoundRunOnOneDay(q.slots, e)
  {
    var p, runs := Begin(s, [], required), Candidates(s, Some(e));
    FirstRuns(s, t, required, e);
    var p1 := TryRun(p, t, Some(e), runs[0]);
    TryRunSound(s, p, t, required, Some(e), runs[0]);
    FreshAfterTurn(p, t, Some(e), runs);
    OneChunk(p, t, Some(e), runs[0]);
    SweepCapped(s, p1, t, required, Some(e), runs[1..]);
    SweepSound(s, p1, t, required, Some(e), runs[1..]);
    var q := Sweep(p1, t, Some(e), runs[1..]);
    SweepKeepsChunks(p1, t, Some(e), runs[1..]);
    HeldByPrefix(p1.chunks, q.chunks, FirstUsable(runs[0], Some(e)));
    HolderTaken(s, q.slots, q.chunks, e);
  }

  lemma OneChunk(p: Placing, t: SchedulableTask, earliest: Option<Instant>, run: seq<LedgerSlot>)
    requires p.chunks == [] && run != [] && p.remaining > 0 && RunDemand(p, t, earliest, run).Some?
    ensures var q := TryRun(p, t, earliest, run);
      |q.chunks| == 1 && Capped(q.chunks) && Held(q.chunks, FirstUsable(run, earliest))
  {
    ChunkCovers(p, t, earliest, run);
    ChunkBegins(p, t, earliest, run);
    var q := TryRun(p, t, earliest, run);
    CountAtMost(q.chunks);
    assert FirstUsable(run, earliest) in q.chunks[0].slots;
  }

  // ---------------------------------------------------------------- a first run refused

  /** The first sweep with its first turn refused: what is counted, and what remains. */
  lemma HeadRefused(s: seq<LedgerSlot>, t: SchedulableTask, required: int, e: Instant)
    requires DistinctIds(s) && Positive(s) && Separate(s) && Candidates(s, Some(e)) != [] && t.splittable && required > 0
    requires RunDemand(Begin(s, [], required), t, Some(e), Candidates(s, Some(e))[0]).None?
    ensures var q := FirstSweep(s, t, required, Some(e));
      && Sound(s, q, t, required, Some(e)) && Capped(q.chunks)
      && Agrees(q, TallyRuns(t, Tally(required, map[]), Some(e), Candidates(s, Some(e))[1..]))
  {
    var p, runs := Begin(s, [], required), Candidates(s, Some(e));
    FirstRuns(s, t, required, e);
    FreshAfterTurn(p, t, Some(e), runs);
    SweepCapped(s, p, t, required, Some(e), runs[1..]);
    SweepSound(s, p, t, required, Some(e), runs[1..]);
    CandidateStretches(s, Some(e));
    SweepTallies(p, t, Some(e), runs[1..], Tally(required, map[]));
  }

  lemma CandidateStretches(s: seq<LedgerSlot>, earliest: Option<Instant>)
    requires DistinctIds(s) && Positive(s) && Separate(s) && Candidates(s, earliest) != []
    ensures AllStretches(Candidates(s, earliest)[1..])
  {
    var runs := Candidates(s, earliest);
    CandidatesOrdered(s, earliest);
    forall i | 0 <= i < |runs[1..]|
      ensures IsStretch(runs[1..][i])
    {
      assert runs[1..][i] == runs[i + 1];
      assert RunReady(s, runs[i + 1], earliest);
    }
  }

  /** The refused first run is still the first one afterwards. */
  lemma HeadStays(s: seq<LedgerSlot>, t: SchedulableTask, required: int, e: Instant)
    requires DistinctIds(s) && Positive(s) && Separate(s) && Candidates(s, Some(e)) != [] && t.splittable && required > 0
    requires RunDemand(Begin(s, [], required), t, Some(e), Candidates(s, Some(e))[0]).None?
    requires FirstSweep(s, t, required, Some(e)).remaining > 0
    ensures var q := FirstSweep(s, t, required, Some(e));
      Candidates(q.slots, Some(e)) != [] && Candidates(q.slots, Some(e))[0] == Candidates(s, Some(e))[0]
  {
    var p, all := Begin(s, [], required), Runs(FreeOf(s));
    LedgerRuns(s);
    var k := ReachingGapped(all, Some(e));
    var done := all[..k + 1];
    EarlySettled(p, t, e, all, k);
    RestPositive(all, k + 1);
    FlattenJoin(done, all[k + 1..]);
    assert done + all[k + 1..] == all;
    var left := SweepLeaves(p, t, Some(e), done, all[k + 1..]);
    RunsOfPieces(left);
    var m := ReachingGapped(left, Some(e));
    forall i | 0 <= i <= k
      ensures left[i] == all[i]
    {
      assert left[..|done|] == done;
      assert left[i] == done[i];
    }
    assert m == k;
  }

  lemma RestPositive(runs: seq<seq<LedgerSlot>>, k: nat)
    requires k <= |runs| && NoEmptyRun(runs) && AllRunsPositive(runs)
    ensures NoEmptyRun(runs[k..]) && AllRunsPositive(runs[k..])
  {
    forall i | 0 <= i < |runs[k..]|
      ensures runs[k..][i] != [] && AllPositive(runs[k..][i])
    {
      assert runs[k..][i] == runs[k + i];
    }
  }

  lemma EarlySettled(p: Placing, t: SchedulableTask, e: Instant, all: seq<seq<LedgerSlot>>, k: nat)
    requires k < |all| && Pieces(all) && NoEmptyRun(all) && AllRunsPositive(all) && t.splittable
    requires forall i :: 0 <= i < k ==> !Reaches(all[i], Some(e))
    requires Reaches(all[k], Some(e)) && RunDemand(p, t, Some(e), all[k]).None?
    ensures AllSettled(p, t, Some(e), all[..k + 1])
  {
    var early := all[..k + 1];
    forall i | 0 <= i < |early|
      ensures Settled(p, t, Some(e), early[i])
    {
      if i == k {
        assert AllPositive(all[k]);
        RefusedWaits(p, t, Some(e), all[k]);
      } else {
        assert !Reaches(all[i], Some(e));
      }
    }
  }

  // ---------------------------------------------------------------- the second sweep

  /** On the day the first run begins, which is before it can be used, nothing is placed by the first sweep. */
  lemma NothingOnHeadDay(s: seq<LedgerSlot>, t: SchedulableTask, required: int, e: Instant)
    requires DistinctIds(s) && Positive(s) && Separate(s) && Candidates(s, Some(e)) != []
    requires !Aligned(Candidates(s, Some(e))[0], Some(e))
    ensures var runs := Candidates(s, Some(e));
      DayCount(TallyRuns(t, Tally(required, map[]), Some(e), runs[1..]).counts, UtcDay(runs[0][0].start)) == 0
  {
    var runs := Candidates(s, Some(e));
    CandidatesOrdered(s, Some(e));
    var head := runs[0];
    assert RunReady(s, head, Some(e));
    var k := UsableFrom(head, Some(e));
    AbuttingRises(head, 0, k);
    forall i | 0 <= i < |runs[1..]|
      ensures UtcDay(runs[1..][i][0].start) != UtcDay(head[0].start)
    {
      assert RunReady(s, runs[i + 1], Some(e)) && GapBetween(head, runs[i + 1]);
      LaterBegins(runs[i + 1], head, s, e);
    }
    TallyElsewhere(t, Tally(required, map[]), Some(e), runs[1..], UtcDay(head[0].start));
  }

  ghost function HeadDay(s: seq<LedgerSlot>, e: Instant): int
    requires Candidates(s, Some(e)) != []
  {
    UtcDay(FirstUsable(Candidates(s, Some(e))[0], Some(e)).start)
  }

  /** A day has a fourth chunk exactly when one fits; no day has a fifth, and only one day can have the fourth. */
  ghost predicate CapHolds(s: seq<LedgerSlot>, chunks: seq<Chunk>, t: SchedulableTask, required: int, e: Instant) {
    && (!Capped(chunks) <==> FourthFits(s, t, required, e))
    && forall d {:trigger CountOn(chunks, d)} ::
         && CountOn(chunks, d) <= 4
         && (CountOn(chunks, d) > 3 ==> Candidates(s, Some(e)) != [] && d == HeadDay(s, e))
  }

  lemma CappedHolds(s: seq<LedgerSlot>, chunks: seq<Chunk>, t: SchedulableTask, required: int, e: Instant)
    requires Capped(chunks) && !FourthFits(s, t, required, e)
    ensures CapHolds(s, chunks, t, required, e)
  {
  }

  /** A later sweep meets the first run once more, with the tally of the others as its counters. */
  lemma HeadAgain(s: seq<LedgerSlot>, t: SchedulableTask, required: int, e: Instant, q: Placing)
    requires DistinctIds(s) && Positive(s) && Separate(s) && Candidates(s, Some(e)) != [] && t.splittable
    requires !Aligned(Candidates(s, Some(e))[0], Some(e)) && 0 < q.remaining <= required
    requires UsableMinutes(Candidates(s, Some(e))[0], Some(e)) < Min(t.minChunk, required)
    requires Sound(s, q, t, required, Some(e)) && Capped(q.chunks)
    requires Agrees(q, TallyRuns(t, Tally(required, map[]), Some(e), Candidates(s, Some(e))[1..]))
    ensures var head := Candidates(s, Some(e))[0];
      && (FourthFits(s, t, required, e) <==>
          RunDemand(q, t, Some(e), head).Some? && CountOn(q.chunks, HeadDay(s, e)) == 3)
      && (RunDemand(q, t, Some(e), head).Some? ==> RunDemand(q, t, Some(e), head).value == q.remaining)
  {
    var head := Candidates(s, Some(e))[0];
    var k := TallyRuns(t, Tally(required, map[]), Some(e), Candidates(s, Some(e))[1..]);
    NothingOnHeadDay(s, t, required, e);
    assert DayCount(q.dayChunks, UtcDay(head[0].start)) == DayCount(k.counts, UtcDay(head[0].start));
    assert DayCount(q.dayChunks, HeadDay(s, e)) == DayCount(k.counts, HeadDay(s, e));
    FirstRuns(s, t, required, e);
    ReadyUsable(head, Some(e));
    DemandAgain(t, required, q.remaining, q.dayChunks, UtcDay(head[0].start), UsableMinutes(head, Some(e)));
    assert CountOn(q.chunks, HeadDay(s, e)) == DayCount(q.dayChunks, HeadDay(s, e));
  }

  /** A run refused as too short for what remained at first is granted once its minutes cover all that remains. */
  lemma DemandAgain(t: SchedulableTask, required: int, remaining: int, counts: map<int, nat>, day: int, available: int)
    requires t.splittable && 0 < remaining <= required && 0 < available < Min(t.minChunk, required)
    requires DayCount(counts, day) == 0
    ensures Demand(t, remaining, counts, day, available) == if remaining <= available then Some(remaining) else None
  {
  }

  /** The second sweep, when it meets the refused first run again. */
  lemma SecondSweep(s: seq<LedgerSlot>, t: SchedulableTask, required: int, e: Instant, q: Placing)
    requires DistinctIds(s) && Positive(s) && Separate(s) && Candidates(s, Some(e)) != [] && t.splittable
    requires Sound(s, q, t, required, Some(e)) && Capped(q.chunks) && q.remaining > 0
    requires Candidates(q.slots, Some(e)) != [] && Candidates(q.slots, Some(e))[0] == Candidates(s, Some(e))[0]
    requires RunDemand(q, t, Some(e), Candidates(s, Some(e))[0]).Some? ==>
      RunDemand(q, t, Some(e), Candidates(s, Some(e))[0]).value == q.remaining
    ensures var r := Sweep(q, t, Some(e), Candidates(q.slots, Some(e)));
      && (RunDemand(q, t, Some(e), Candidates(s, Some(e))[0]).None? ==> Capped(r.chunks))
      && (RunDemand(q, t, Some(e), Candidates(s, Some(e))[0]).Some? ==>
          forall d {:trigger CountOn(r.chunks, d)} ::
            CountOn(r.chunks, d) == CountOn(q.chunks, d) + (if d == HeadDay(s, e) then 1 else 0))
  {
    var head, runs := Candidates(s, Some(e))[0], Candidates(q.slots, Some(e));
    if RunDemand(q, t, Some(e), head).Some? {
      TurnCapped(s, q, t, required, Some(e), head);
      ChunkCovers(q, t, Some(e), head);
      var r := TryRun(q, t, Some(e), head);
      assert Sweep(q, t, Some(e), runs) == Sweep(r, t, Some(e), runs[1..]) == r;
    } else {
      ShapeKeepsIds(s, q.slots, q.chunks);
      ShapeKeepsPositive(s, q.slots, q.chunks);
      ShapeKeepsSeparate(s, q.slots, q.chunks);
      CandidatesFresh(q.slots, Some(e));
      LaterAligned(q.slots, e);
      SweepCapped(s, q, t, required, Some(e), runs[1..]);
    }
  }

  /** What the two sweeps come to when the first run is refused at first and begins on an earlier day. */
  lemma RefusedCap(s: seq<LedgerSlot>, t: SchedulableTask, required: int, e: Instant)
    requires DistinctIds(s) && Positive(s) && Separate(s) && Candidates(s, Some(e)) != [] && t.splittable && required > 0
    requires !Aligned(Candidates(s, Some(e))[0], Some(e))
    requires RunDemand(Begin(s, [], required), t, Some(e), Candidates(s, Some(e))[0]).None?
    ensures CapHolds(s, Place(Begin(s, [], required), t, Some(e)).chunks, t, required, e)
  {
    var p, q, head := Begin(s, [], required), FirstSweep(s, t, required, Some(e)), Candidates(s, Some(e))[0];
    HeadRefused(s, t, required, e);
    PlaceInTwoSweeps(s, t, required, Some(e));
    SweepProgress(p, t, Some(e), Candidates(s, Some(e)));
    RefusedShort(s, t, required, e);
    if q.remaining <= 0 {
      CappedHolds(s, q.chunks, t, required, e);
    } else {
      HeadStays(s, t, required, e);
      HeadAgain(s, t, required, e, q);
      SecondSweep(s, t, required, e, q);
      var r := Sweep(q, t, Some(e), Candidates(q.slots, Some(e)));
      ConcludeRefused(s, t, required, e, q, r);
    }
  }

  lemma RefusedShort(s: seq<LedgerSlot>, t: SchedulableTask, required: int, e: Instant)
    requires DistinctIds(s) && Positive(s) && Separate(s) && Candidates(s, Some(e)) != [] && t.splittable
    requires RunDemand(Begin(s, [], required), t, Some(e), Candidates(s, Some(e))[0]).None?
    ensures UsableMinutes(Candidates(s, Some(e))[0], Some(e)) < Min(t.minChunk, required)
  {
    FirstRuns(s, t, required, e);
    ReadyUsable(Candidates(s, Some(e))[0], Some(e));
  }

  lemma ConcludeRefused(s: seq<LedgerSlot>, t: SchedulableTask, required: int, e: Instant, q: Placing, r: Placing)
    requires Candidates(s, Some(e)) != [] && Capped(q.chunks)
    requires FourthFits(s, t, required, e) <==>
      RunDemand(q, t, Some(e), Candidates(s, Some(e))[0]).Some? && CountOn(q.chunks, HeadDay(s, e)) == 3
    requires RunDemand(q, t, Some(e), Candidates(s, Some(e))[0]).None? ==> Capped(r.chunks)
    requires RunDemand(q, t, Some(e), Candidates(s, Some(e))[0]).Some? ==>
      forall d {:trigger CountOn(r.chunks, d)} ::
        CountOn(r.chunks, d) == CountOn(q.chunks, d) + (if d == HeadDay(s, e) then 1 else 0)
    ensures CapHolds(s, r.chunks, t, required, e)
  {
    if RunDemand(q, t, Some(e), Candidates(s, Some(e))[0]).Some? {
      var day := HeadDay(s, e);
      assert CountOn(q.chunks, day) <= 3;
      assert CountOn(r.chunks, day) == CountOn(q.chunks, day) + 1;
      forall d {:trigger CountOn(r.chunks, d)}
        ensures CountOn(r.chunks, d) <= 3 + (if d == day then 1 else 0)
      {
        assert CountOn(q.chunks, d) <= 3;
      }
    }
  }

  /** What the two sweeps come to when the first run is used at once. */
  lemma GrantedCap(s: seq<LedgerSlot>, t: SchedulableTask, required: int, e: Instant)
    requires DistinctIds(s) && Positive(s) && Separate(s) && Candidates(s, Some(e)) != [] && t.splittable && required > 0
    requires RunDemand(Begin(s, [], required), t, Some(e), Candidates(s, Some(e))[0]).Some?
    ensures CapHolds(s, Place(Begin(s, [], required), t, Some(e)).chunks, t, required, e)
  {
    var q := FirstSweep(s, t, required, Some(e));
    HeadTaken(s, t, required, e);
    PlaceInTwoSweeps(s, t, required, Some(e));
    OneSweepCapped(s, q, t, required, Some(e));
    CappedHolds(s, Sweep(q, t, Some(e), Candidates(q.slots, Some(e))).chunks, t, required, e);
  }

  /**
   Over slots in start order, a day gets more than three chunks of a task exactly when `FourthFits`; and then it gets
   four, and only the day on which the first run past the bound can be used does.
   */
  lemma FourthExactlyWhen(s: seq<LedgerSlot>, t: SchedulableTask, required: int, e: Instant)
    requires DistinctIds(s) && Positive(s) && Separate(s)
    ensures CapHolds(s, Place(Begin(s, [], required), t, Some(e)).chunks, t, required, e)
  {
    var p, runs := Begin(s, [], required), Candidates(s, Some(e));
    if runs == [] || Aligned(runs[0], Some(e)) || !t.splittable {
      if t.splittable {
        AlignedOnOneDay(s, e);
      }
      AtMostThreeADay(s, t, required, Some(e));
      CappedHolds(s, Place(p, t, Some(e)).chunks, t, required, e);
    } else if required <= 0 {
      TallyNothing(t, required, Some(e), runs[1..]);
      CappedHolds(s, Place(p, t, Some(e)).chunks, t, required, e);
    } else if RunDemand(p, t, Some(e), runs[0]).Some? {
      GrantedCap(s, t, required, e);
    } else {
      RefusedCap(s, t, required, e);
    }
  }

  lemma TallyNothing(t: SchedulableTask, required: int, earliest: Option<Instant>, runs: seq<seq<LedgerSlot>>)
    requires required <= 0 && NoEmptyRun(runs)
    ensures TallyRuns(t, Tally(required, map[]), earliest, runs).remaining <= 0
  {
  }
}
