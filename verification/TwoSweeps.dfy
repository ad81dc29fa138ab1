/** Placing a task takes at most two sweeps over the free runs, and the second can only finish it. */
module TwoSweeps {
  import opened Domain
  import opened Priority
  import opened Ledger
  import opened Placement
  import opened Ownership
  import opened Conservation
  import opened PlacementFacts
  import opened SerialTheorems

  // ---------------------------------------------------------------- lists of free slots

  /** A list without the slots of some ids. */
  function Without(s: seq<LedgerSlot>, ids: seq<SlotId>): seq<LedgerSlot> {
    if s == [] then [] else if s[0].id in ids then Without(s[1..], ids) else [s[0]] + Without(s[1..], ids)
  }

  lemma {:induction false} FreeOfAllocate(s: seq<LedgerSlot>, ids: seq<SlotId>, owner: TaskId)
    ensures FreeOf(Allocate(s, ids, owner)) == Without(FreeOf(s), ids)
    decreases |s|
  {
    if s != [] {
      FreeOfAllocate(s[1..], ids, owner);
      assert Allocate(s, ids, owner)[1..] == Allocate(s[1..], ids, owner);
    }
  }

  lemma {:induction false} WithoutJoin(a: seq<LedgerSlot>, b: seq<LedgerSlot>, ids: seq<SlotId>)
    ensures Without(a + b, ids) == Without(a, ids) + Without(b, ids)
    decreases |a|
  {
    if a == [] {
      assert a + b == b;
    } else {
      WithoutJoin(a[1..], b, ids);
      assert (a + b)[1..] == a[1..] + b;
    }
  }

  lemma {:induction false} WithoutNone(s: seq<LedgerSlot>, ids: seq<SlotId>)
    requires forall x :: x in s ==> x.id !in ids
    ensures Without(s, ids) == s
    decreases |s|
  {
    if s != [] {
      assert s == [s[0]] + s[1..];
      WithoutNone(s[1..], ids);
    }
  }

  lemma {:induction false} WithoutAll(s: seq<LedgerSlot>, ids: seq<SlotId>)
    requires forall x :: x in s ==> x.id in ids
    ensures Without(s, ids) == []
    decreases |s|
  {
    if s != [] {
      assert s == [s[0]] + s[1..];
      WithoutAll(s[1..], ids);
    }
  }

  lemma InIdsOf(xs: seq<LedgerSlot>, x: LedgerSlot)
    requires x in xs
    ensures x.id in IdsOf(xs)
  {
    var i :| 0 <= i < |xs| && xs[i] == x;
    assert IdsOf(xs)[i] == x.id;
  }

  lemma WithoutMiddle(a: seq<LedgerSlot>, xs: seq<LedgerSlot>, b: seq<LedgerSlot>, ids: seq<SlotId>)
    requires forall x :: x in xs ==> x.id in ids
    requires (forall x :: x in a ==> x.id !in ids) && (forall x :: x in b ==> x.id !in ids)
    ensures Without(a + (xs + b), ids) == a + b
  {
    WithoutJoin(a, xs + b, ids);
    WithoutJoin(xs, b, ids);
    WithoutNone(a, ids);
    WithoutNone(b, ids);
    WithoutAll(xs, ids);
    assert [] + b == b;
  }

  lemma OthersNotIn(a: seq<LedgerSlot>, xs: seq<LedgerSlot>)
    requires forall x, y :: x in a && y in xs ==> x.id != y.id
    ensures forall x :: x in a ==> x.id !in IdsOf(xs)
  {
    assert forall i :: 0 <= i < |xs| ==> xs[i] in xs && IdsOf(xs)[i] == xs[i].id;
  }

  lemma AllInIdsOf(xs: seq<LedgerSlot>)
    ensures forall x :: x in xs ==> x.id in IdsOf(xs)
  {
    forall x | x in xs
      ensures x.id in IdsOf(xs)
    {
      InIdsOf(xs, x);
    }
  }

  lemma MiddleDistinct(a: seq<LedgerSlot>, xs: seq<LedgerSlot>, b: seq<LedgerSlot>)
    requires DistinctIds(a + (xs + b))
    ensures forall x, y :: x in a && y in xs ==> x.id != y.id
    ensures forall x, y :: x in b && y in xs ==> x.id != y.id
  {
    DistinctHead(a, xs + b);
    DistinctHead(xs, b);
    assert forall y :: y in xs ==> y in xs + b;
  }

  /** Handing out the middle of the free list leaves its two ends. */
  lemma FreeAfterMiddle(s: seq<LedgerSlot>, a: seq<LedgerSlot>, xs: seq<LedgerSlot>, b: seq<LedgerSlot>, owner: TaskId)
    requires DistinctIds(s) && FreeOf(s) == a + (xs + b)
    ensures FreeOf(Allocate(s, IdsOf(xs), owner)) == a + b
  {
    FreeOfFacts(s);
    FreeOfAllocate(s, IdsOf(xs), owner);
    MiddleDistinct(a, xs, b);
    OthersNotIn(a, xs);
    OthersNotIn(b, xs);
    AllInIdsOf(xs);
    WithoutMiddle(a, xs, b, IdsOf(xs));
  }

  // ---------------------------------------------------------------- runs are determined by their gaps

  /** Between one piece and any later one there is a gap. */
  ghost predicate Gapped(pieces: seq<seq<LedgerSlot>>) {
    forall i, j {:trigger GapBetween(pieces[i], pieces[j])} :: 0 <= i < j < |pieces| ==> GapBetween(pieces[i], pieces[j])
  }

  ghost predicate GapBetween(a: seq<LedgerSlot>, b: seq<LedgerSlot>) {
    a != [] && b != [] ==> a[|a| - 1].end < b[0].start
  }

  ghost predicate Pieces(pieces: seq<seq<LedgerSlot>>) {
    NoEmptyRun(pieces) && (forall i :: 0 <= i < |pieces| ==> Abutting(pieces[i])) && Gapped(pieces)
  }

  lemma PiecesTail(pieces: seq<seq<LedgerSlot>>)
    requires Pieces(pieces) && pieces != []
    ensures Pieces(pieces[1..])
  {
    forall i | 0 <= i < |pieces[1..]|
      ensures pieces[1..][i] != [] && Abutting(pieces[1..][i])
    {
      assert pieces[1..][i] == pieces[i + 1];
    }
    GappedTail(pieces);
  }

  lemma GappedTail(pieces: seq<seq<LedgerSlot>>)
    requires Gapped(pieces) && pieces != []
    ensures Gapped(pieces[1..])
  {
    forall i, j | 0 <= i < j < |pieces[1..]|
      ensures GapBetween(pieces[1..][i], pieces[1..][j])
    {
      assert GapBetween(pieces[i + 1], pieces[j + 1]);
    }
  }

  /** While the first slots of a touching list are read, they join the current run. */
  lemma {:induction false} RunsEat(current: seq<LedgerSlot>, more: seq<LedgerSlot>, rest: seq<LedgerSlot>)
    requires current != [] && Abutting(current + more)
    ensures RunsFrom(current, more + rest) == RunsFrom(current + more, rest)
    decreases |more|
  {
    if more == [] {
      assert more + rest == rest && current + more == current;
    } else {
      var all := current + more;
      assert all[|current| - 1].end == all[|current|].start;
      assert (more + rest)[1..] == more[1..] + rest;
      assert current + [more[0]] + more[1..] == all;
      RunsEat(current + [more[0]], more[1..], rest);
    }
  }

  lemma FlattenHead(pieces: seq<seq<LedgerSlot>>)
    requires NoEmptyRun(pieces) && pieces != []
    ensures Flatten(pieces) != [] && Flatten(pieces)[0] == pieces[0][0]
  {
  }

  /** The runs of a list put together from gapped touching pieces are those pieces. */
  lemma {:induction false} RunsOfPieces(pieces: seq<seq<LedgerSlot>>)
    requires Pieces(pieces)
    ensures Runs(Flatten(pieces)) == pieces
    decreases |pieces|
  {
    if pieces != [] {
      var first, rest := pieces[0], Flatten(pieces[1..]);
      PiecesTail(pieces);
      RunsOfPieces(pieces[1..]);
      assert Flatten(pieces) == first + rest;
      assert first == [first[0]] + first[1..];
      assert (first + rest)[1..] == first[1..] + rest;
      RunsEat([first[0]], first[1..], rest);
      if pieces[1..] != [] {
        FlattenHead(pieces[1..]);
        assert GapBetween(pieces[0], pieces[1]);
      }
      RunsAfterGap(first, rest);
      assert pieces == [first] + pieces[1..];
    }
  }

  lemma RunsAfterGap(first: seq<LedgerSlot>, rest: seq<LedgerSlot>)
    requires first != [] && (rest != [] ==> first[|first| - 1].end != rest[0].start)
    ensures RunsFrom(first, rest) == [first] + Runs(rest)
  {
  }

  lemma AbuttingPrefix(run: seq<LedgerSlot>, k: nat)
    requires Abutting(run) && k <= |run|
    ensures Abutting(run[..k])
  {
    forall i, j | 0 <= i && j == i + 1 < k
      ensures run[..k][i].end == run[..k][j].start
    {
      assert run[i].end == run[j].start;
    }
  }

  // ---------------------------------------------------------------- one turn

  /** Nothing of the run can be used: it ends by the earliest start. */
  ghost predicate Spent(run: seq<LedgerSlot>, earliest: Option<Instant>) {
    run != [] ==> earliest.Some? && run[|run| - 1].end <= earliest.value
  }

  /** The run is too short for the minimum chunk, or the day it begins on has its chunks. */
  ghost predicate Waiting(p: Placing, t: SchedulableTask, earliest: Option<Instant>, run: seq<LedgerSlot>)
    requires run != []
  {
    || Minutes(Usable(run, EffectiveStart(run, earliest))) < t.minChunk
    || DayCount(p.dayChunks, UtcDay(run[0].start)) >= MAX_CHUNKS_PER_DAY
  }

  ghost predicate Settled(p: Placing, t: SchedulableTask, earliest: Option<Instant>, run: seq<LedgerSlot>) {
    run != [] ==> Spent(run, earliest) || Waiting(p, t, earliest, run)
  }

  lemma {:induction false} PositiveMinutes(s: seq<LedgerSlot>)
    requires AllPositive(s)
    ensures Minutes(s) >= 0 && (s != [] ==> Minutes(s) > 0)
    decreases |s|
  {
    if s != [] {
      assert s[0] in s;
      PositiveMinutes(s[1..]);
    }
  }

  lemma {:induction false} TakeAllMinutes(s: seq<LedgerSlot>)
    requires AllPositive(s)
    ensures TakeUntil(s, Minutes(s)) == s
    decreases |s|
  {
    if s != [] {
      assert s[0] in s;
      assert s == [s[0]] + s[1..];
      PositiveMinutes(s[1..]);
      TakeAllMinutes(s[1..]);
    }
  }

  lemma {:induction false} UsablePositive(run: seq<LedgerSlot>, from: Instant)
    requires AllPositive(run)
    ensures AllPositive(Usable(run, from)) && (run != [] && run[|run| - 1].end > from ==> Usable(run, from) != [])
    decreases |run|
  {
    if run != [] {
      assert run[0] in run;
      UsablePositive(run[1..], from);
    }
  }

  /** A run that reaches past the earliest start has usable minutes. */
  lemma ReadyUsable(run: seq<LedgerSlot>, earliest: Option<Instant>)
    requires run != [] && Abutting(run) && AllPositive(run)
    requires earliest.Some? ==> run[|run| - 1].end > earliest.value
    ensures Minutes(Usable(run, EffectiveStart(run, earliest))) > 0
  {
    var from := EffectiveStart(run, earliest);
    assert run[0] in run;
    if |run| > 1 {
      AbuttingRises(run, 0, |run| - 1);
    }
    UsablePositive(run, from);
    PositiveMinutes(Usable(run, from));
  }

  /** What a chunk that uses up a run leaves of it: nothing, or a part that ends by the earliest start. */
  lemma LeftoverSpent(run: seq<LedgerSlot>, earliest: Option<Instant>) returns (k: nat)
    requires run != [] && Abutting(run) && AllPositive(run)
    requires earliest.Some? ==> run[|run| - 1].end > earliest.value
    ensures k <= |run| && Usable(run, EffectiveStart(run, earliest)) == run[k..] && Spent(run[..k], earliest)
  {
    var from := EffectiveStart(run, earliest);
    k := UsableIsTail(run, from);
    if k > 0 {
      UnusedEnds(run, from, k);
      assert run[0] in run;
      if k > 1 {
        AbuttingRises(run, 0, k - 1);
      }
    }
  }

  /** The slots before the usable tail end by its bound. */
  lemma {:induction false} UnusedEnds(run: seq<LedgerSlot>, from: Instant, k: nat)
    requires 0 < k <= |run| && Usable(run, from) == run[k..] && Abutting(run) && AllPositive(run)
    ensures run[k - 1].end <= from
    decreases |run|
  {
    if run[0].end <= from {
      if k > 1 {
        AbuttingTail(run);
        assert run[1..][k - 1..] == run[k..];
        UnusedEnds(run[1..], from, k - 1);
      }
    } else {
      assert |Usable(run, from)| == |run| - k;
      AllLater(run, from);
    }
  }

  lemma AllLater(run: seq<LedgerSlot>, from: Instant)
    requires run != [] && Abutting(run) && AllPositive(run) && run[0].end > from
    ensures Usable(run, from) == run
  {
    forall i | 0 <= i < |run|
      ensures run[i].end > from
    {
      if i > 0 {
        AbuttingRises(run, 0, i);
      }
    }
    AllUsable(run, from);
  }

  /** The run `run` sits in the free list of `s` between `before` and `after`. */
  ghost predicate Sits(s: seq<LedgerSlot>, before: seq<LedgerSlot>, run: seq<LedgerSlot>, after: seq<LedgerSlot>) {
    FreeOf(s) == before + (run + after)
  }

  /** The turn's chunk lasts at least what it takes. */
  lemma ChunkCovers(p: Placing, t: SchedulableTask, earliest: Option<Instant>, run: seq<LedgerSlot>)
    requires run != [] && p.remaining > 0 && RunDemand(p, t, earliest, run).Some?
    ensures var cut := Cut(run, earliest, RunDemand(p, t, earliest, run).value);
      cut != [] && Minutes(cut) >= RunDemand(p, t, earliest, run).value
      && TryRun(p, t, earliest, run) == AddChunk(p, Chunk(t.id, t.kind, p.index, cut))
  {
    var from := EffectiveStart(run, earliest);
    DemandFits(t, p.remaining, p.dayChunks, UtcDay(run[0].start), Minutes(Usable(run, from)));
    TakeUntilMinutes(Usable(run, from), RunDemand(p, t, earliest, run).value);
  }

  /** A refused run waits. */
  lemma RefusedWaits(p: Placing, t: SchedulableTask, earliest: Option<Instant>, run: seq<LedgerSlot>)
    requires run != [] && Abutting(run) && AllPositive(run) && t.splittable
    requires earliest.Some? ==> run[|run| - 1].end > earliest.value
    requires RunDemand(p, t, earliest, run).None?
    ensures Waiting(p, t, earliest, run)
  {
    ReadyUsable(run, earliest);
  }

  /** A turn that leaves work behind refuses its run, or uses it up. */
  lemma TurnLeaves(p: Placing, t: SchedulableTask, earliest: Option<Instant>, before: seq<LedgerSlot>,
                   run: seq<LedgerSlot>, after: seq<LedgerSlot>)
    returns (left: seq<LedgerSlot>)
    requires DistinctIds(p.slots) && p.remaining > 0 && t.splittable
    requires run != [] && Abutting(run) && AllPositive(run) && Sits(p.slots, before, run, after)
    requires earliest.Some? ==> run[|run| - 1].end > earliest.value
    requires TryRun(p, t, earliest, run).remaining > 0
    ensures var q := TryRun(p, t, earliest, run);
      && Sits(q.slots, before, left, after) && left <= run && Settled(q, t, earliest, left)
      && (RunDemand(p, t, earliest, run).None? ==> q == p && left == run)
  {
    if RunDemand(p, t, earliest, run).None? {
      RefusedWaits(p, t, earliest, run);
      left := run;
    } else {
      var from := EffectiveStart(run, earliest);
      ChunkCovers(p, t, earliest, run);
      var k := LeftoverSpent(run, earliest);
      UsablePositive(run, from);
      TakeAllMinutes(Usable(run, from));
      left := run[..k];
      assert Cut(run, earliest, RunDemand(p, t, earliest, run).value) == run[k..];
      UsedUp(p.slots, before, run, k, after, t.id);
    }
  }

  lemma UsedUp(s: seq<LedgerSlot>, before: seq<LedgerSlot>, run: seq<LedgerSlot>, k: nat, after: seq<LedgerSlot>,
               owner: TaskId)
    requires DistinctIds(s) && k <= |run| && Sits(s, before, run, after)
    ensures Sits(Allocate(s, IdsOf(run[k..]), owner), before, run[..k], after)
  {
    assert before + (run + after) == (before + run[..k]) + (run[k..] + after);
    FreeAfterMiddle(s, before + run[..k], run[k..], after, owner);
    assert (before + run[..k]) + after == before + (run[..k] + after);
  }

  // ---------------------------------------------------------------- one sweep

  lemma TurnRaises(p: Placing, t: SchedulableTask, earliest: Option<Instant>, run: seq<LedgerSlot>)
    requires run != []
    ensures forall d :: DayCount(TryRun(p, t, earliest, run).dayChunks, d) >= DayCount(p.dayChunks, d)
  {
  }

  ghost predicate AllSettled(p: Placing, t: SchedulableTask, earliest: Option<Instant>, pieces: seq<seq<LedgerSlot>>) {
    forall i {:trigger Settled(p, t, earliest, pieces[i])} :: 0 <= i < |pieces| ==> Settled(p, t, earliest, pieces[i])
  }

  lemma StaySettled(p: Placing, q: Placing, t: SchedulableTask, earliest: Option<Instant>, pieces: seq<seq<LedgerSlot>>)
    requires AllSettled(p, t, earliest, pieces)
    requires forall d :: DayCount(q.dayChunks, d) >= DayCount(p.dayChunks, d)
    ensures AllSettled(q, t, earliest, pieces)
  {
    forall i | 0 <= i < |pieces|
      ensures Settled(q, t, earliest, pieces[i])
    {
      assert Settled(p, t, earliest, pieces[i]);
    }
  }

  function Keep(done: seq<seq<LedgerSlot>>, left: seq<LedgerSlot>): seq<seq<LedgerSlot>> {
    if left == [] then done else done + [left]
  }

  lemma {:induction false} FlattenJoin(a: seq<seq<LedgerSlot>>, b: seq<seq<LedgerSlot>>)
    ensures Flatten(a + b) == Flatten(a) + Flatten(b)
    decreases |a|
  {
    if a == [] {
      assert a + b == b;
    } else {
      FlattenJoin(a[1..], b);
      assert (a + b)[1..] == a[1..] + b;
    }
  }

  lemma FlattenKeep(done: seq<seq<LedgerSlot>>, left: seq<LedgerSlot>)
    ensures Flatten(Keep(done, left)) == Flatten(done) + left
  {
    if left != [] {
      FlattenJoin(done, [left]);
      assert Flatten([left]) == left + Flatten([]);
    }
  }

  /** Shortening a piece at its end keeps the pieces gapped. */
  lemma KeepPieces(done: seq<seq<LedgerSlot>>, run: seq<LedgerSlot>, rest: seq<seq<LedgerSlot>>, left: seq<LedgerSlot>)
    requires Pieces(done + ([run] + rest)) && left <= run && AllPositive(run)
    ensures Pieces(Keep(done, left) + rest)
  {
    var all := done + ([run] + rest);
    assert all[|done|] == run;
    if left == [] {
      Dropped(done, run, rest);
    } else {
      assert left == run[..|left|];
      AbuttingPrefix(run, |left|);
      if |left| < |run| {
        AbuttingRises(run, |left| - 1, |run| - 1);
      }
      Replaced(done, run, rest, left);
    }
  }

  lemma Dropped(done: seq<seq<LedgerSlot>>, run: seq<LedgerSlot>, rest: seq<seq<LedgerSlot>>)
    requires Pieces(done + ([run] + rest))
    ensures Pieces(done + rest)
  {
    var all, fewer := done + ([run] + rest), done + rest;
    forall i | 0 <= i < |fewer|
      ensures fewer[i] != [] && Abutting(fewer[i])
    {
      assert fewer[i] == all[if i < |done| then i else i + 1];
    }
    forall i, j | 0 <= i < j < |fewer|
      ensures GapBetween(fewer[i], fewer[j])
    {
      var k, l := if i < |done| then i else i + 1, if j < |done| then j else j + 1;
      assert GapBetween(all[k], all[l]);
    }
  }

  lemma Replaced(done: seq<seq<LedgerSlot>>, run: seq<LedgerSlot>, rest: seq<seq<LedgerSlot>>, left: seq<LedgerSlot>)
    requires Pieces(done + ([run] + rest)) && left != [] && Abutting(left) && run != []
    requires left[0] == run[0] && left[|left| - 1].end <= run[|run| - 1].end
    ensures Pieces(done + [left] + rest)
  {
    var all, other := done + ([run] + rest), done + [left] + rest;
    forall i | 0 <= i < |other|
      ensures other[i] != [] && Abutting(other[i])
    {
      assert i != |done| ==> other[i] == all[i];
    }
    forall i, j | 0 <= i < j < |other|
      ensures GapBetween(other[i], other[j])
    {
      assert GapBetween(all[i], all[j]);
      assert i != |done| ==> other[i] == all[i];
      assert j != |done| ==> other[j] == all[j];
    }
  }

  ghost predicate AllRunsPositive(runs: seq<seq<LedgerSlot>>) {
    forall i {:trigger runs[i]} :: 0 <= i < |runs| ==> AllPositive(runs[i])
  }

  /** A sweep that leaves work behind leaves settled pieces of the runs, and every run it had already passed. */
  lemma {:induction false} SweepLeaves(p: Placing, t: SchedulableTask, earliest: Option<Instant>,
                                       done: seq<seq<LedgerSlot>>, todo: seq<seq<LedgerSlot>>)
    returns (left: seq<seq<LedgerSlot>>)
    requires DistinctIds(p.slots) && t.splittable && Pieces(done + todo) && NoEmptyRun(todo) && AllRunsPositive(todo)
    requires FreeOf(p.slots) == Flatten(done) + Flatten(todo) && AllSettled(p, t, earliest, done)
    requires Sweep(p, t, earliest, Reaching(todo, earliest)).remaining > 0
    ensures var q := Sweep(p, t, earliest, Reaching(todo, earliest));
      FreeOf(q.slots) == Flatten(left) && Pieces(left) && done <= left && AllSettled(q, t, earliest, left)
    decreases |todo|
  {
    if todo == [] {
      assert done + todo == done && Flatten(done) + [] == Flatten(done);
      left := done;
    } else {
      var run, rest := todo[0], todo[1..];
      assert todo == [run] + rest;
      assert AllPositive(todo[0]);
      TailPositive(todo);
      var p', piece := SweepTurn(p, t, earliest, done, run, rest);
      left := SweepLeaves(p', t, earliest, Keep(done, piece), rest);
    }
  }

  lemma TailPositive(todo: seq<seq<LedgerSlot>>)
    requires todo != [] && NoEmptyRun(todo) && AllRunsPositive(todo)
    ensures NoEmptyRun(todo[1..]) && AllRunsPositive(todo[1..])
  {
    forall i | 0 <= i < |todo[1..]|
      ensures todo[1..][i] != [] && AllPositive(todo[1..][i])
    {
      assert todo[1..][i] == todo[i + 1];
    }
  }

  ghost predicate Reaches(run: seq<LedgerSlot>, earliest: Option<Instant>)
    requires run != []
  {
    earliest.None? || run[|run| - 1].end > earliest.value
  }

  /** One step of a sweep over all runs, those that do not reach past the earliest start included. */
  lemma SweepStep(p: Placing, t: SchedulableTask, earliest: Option<Instant>, run: seq<LedgerSlot>,
                  rest: seq<seq<LedgerSlot>>)
    returns (p': Placing)
    requires run != [] && NoEmptyRun(rest) && NoEmptyRun([run] + rest)
    requires Sweep(p, t, earliest, Reaching([run] + rest, earliest)).remaining > 0
    ensures p' == if Reaches(run, earliest) then TryRun(p, t, earliest, run) else p
    ensures Sweep(p, t, earliest, Reaching([run] + rest, earliest)) == Sweep(p', t, earliest, Reaching(rest, earliest))
    ensures Reaches(run, earliest) ==> p.remaining > 0 && p'.remaining > 0
  {
    var runs, reached := [run] + rest, Reaching(rest, earliest);
    assert runs[0] == run && runs[1..] == rest;
    if Reaches(run, earliest) {
      assert ([run] + reached)[0] == run && ([run] + reached)[1..] == reached;
      p' := TryRun(p, t, earliest, run);
    } else {
      p' := p;
    }
  }

  /** What a step does to the free list and the settled pieces. */
  lemma SweepTurn(p: Placing, t: SchedulableTask, earliest: Option<Instant>, done: seq<seq<LedgerSlot>>,
                  run: seq<LedgerSlot>, rest: seq<seq<LedgerSlot>>)
    returns (p': Placing, piece: seq<LedgerSlot>)
    requires DistinctIds(p.slots) && t.splittable && Pieces(done + ([run] + rest)) && run != []
    requires NoEmptyRun(rest) && NoEmptyRun([run] + rest)
    requires AllPositive(run) && FreeOf(p.slots) == Flatten(done) + Flatten([run] + rest) && AllSettled(p, t, earliest, done)
    requires Sweep(p, t, earliest, Reaching([run] + rest, earliest)).remaining > 0
    ensures Sweep(p, t, earliest, Reaching([run] + rest, earliest)) == Sweep(p', t, earliest, Reaching(rest, earliest))
    ensures DistinctIds(p'.slots) && FreeOf(p'.slots) == Flatten(Keep(done, piece)) + Flatten(rest)
    ensures AllSettled(p', t, earliest, Keep(done, piece)) && Pieces(Keep(done, piece) + rest)
    ensures p' == if Reaches(run, earliest) then TryRun(p, t, earliest, run) else p
    ensures !Reaches(run, earliest) || RunDemand(p, t, earliest, run).None? ==> piece == run
  {
    p' := SweepStep(p, t, earliest, run, rest);
    FlattenCons(run, rest);
    PieceAbuts(done, run, rest);
    piece := run;
    if Reaches(run, earliest) {
      piece := TurnLeaves(p, t, earliest, Flatten(done), run, Flatten(rest));
      TurnRaises(p, t, earliest, run);
      TurnDistinct(p, t, earliest, run);
    }
    StaySettled(p, p', t, earliest, done);
    KeepSettled(p', t, earliest, done, piece);
    KeepPieces(done, run, rest, piece);
    SitsKept(p'.slots, done, piece, Flatten(rest));
  }

  lemma FlattenCons(run: seq<LedgerSlot>, rest: seq<seq<LedgerSlot>>)
    ensures Flatten([run] + rest) == run + Flatten(rest)
  {
    assert ([run] + rest)[1..] == rest;
  }

  lemma PieceAbuts(done: seq<seq<LedgerSlot>>, run: seq<LedgerSlot>, rest: seq<seq<LedgerSlot>>)
    requires Pieces(done + ([run] + rest))
    ensures Abutting(run)
  {
    assert (done + ([run] + rest))[|done|] == run;
  }

  lemma SitsKept(s: seq<LedgerSlot>, done: seq<seq<LedgerSlot>>, piece: seq<LedgerSlot>, after: seq<LedgerSlot>)
    requires Sits(s, Flatten(done), piece, after)
    ensures FreeOf(s) == Flatten(Keep(done, piece)) + after
  {
    FlattenKeep(done, piece);
  }

  lemma KeepSettled(p: Placing, t: SchedulableTask, earliest: Option<Instant>, done: seq<seq<LedgerSlot>>,
                    piece: seq<LedgerSlot>)
    requires AllSettled(p, t, earliest, done) && Settled(p, t, earliest, piece)
    ensures AllSettled(p, t, earliest, Keep(done, piece))
  {
    var more := Keep(done, piece);
    forall i | 0 <= i < |more|
      ensures Settled(p, t, earliest, more[i])
    {
      if i < |done| {
        assert Settled(p, t, earliest, done[i]);
      }
    }
  }

  lemma TurnDistinct(p: Placing, t: SchedulableTask, earliest: Option<Instant>, run: seq<LedgerSlot>)
    requires DistinctIds(p.slots) && run != []
    ensures DistinctIds(TryRun(p, t, earliest, run).slots)
  {
  }

  // ---------------------------------------------------------------- the runs of a ledger

  lemma {:induction false} FreeSeparate(s: seq<LedgerSlot>)
    requires Separate(s)
    ensures Separate(FreeOf(s))
    decreases |s|
  {
    if s != [] {
      var rest := s[1..];
      assert Separate(rest);
      FreeSeparate(rest);
      FreeOfFacts(rest);
      forall x | x in FreeOf(rest)
        ensures s[0].end <= x.start
      {
        var i :| 0 <= i < |rest| && rest[i] == x;
        assert s[i + 1] == x;
      }
    }
  }

  lemma SeparateTail(a: seq<LedgerSlot>, b: seq<LedgerSlot>)
    requires Separate(a + b)
    ensures Separate(b) && forall x, y :: x in a && y in b ==> x.end <= y.start
  {
    var all := a + b;
    forall i, j | 0 <= i < j < |b|
      ensures b[i].end <= b[j].start
    {
      assert all[|a| + i] == b[i] && all[|a| + j] == b[j];
    }
    forall x, y | x in a && y in b
      ensures x.end <= y.start
    {
      var i :| 0 <= i < |a| && a[i] == x;
      var j :| 0 <= j < |b| && b[j] == y;
      assert all[i] == x && all[|a| + j] == y;
    }
  }

  lemma {:induction false} RunsGapped(runs: seq<seq<LedgerSlot>>)
    requires NoEmptyRun(runs) && AllRunsPositive(runs) && Separate(Flatten(runs)) && Parted(runs)
    ensures Gapped(runs)
    decreases |runs|
  {
    if runs != [] {
      var first, rest := runs[0], runs[1..];
      TailPositive(runs);
      SeparateTail(first, Flatten(rest));
      forall i, j | 0 <= i && j == i + 1 < |rest|
        ensures !Touch(rest[i], rest[j])
      {
        assert !Touch(runs[i + 1], runs[j + 1]);
      }
      RunsGapped(rest);
      forall i, j | 0 <= i < j < |runs|
        ensures GapBetween(runs[i], runs[j])
      {
        if i > 0 {
          assert GapBetween(rest[i - 1], rest[j - 1]);
        } else {
          GapFromFirst(first, rest, j - 1);
        }
      }
    }
  }

  lemma GapFromFirst(first: seq<LedgerSlot>, rest: seq<seq<LedgerSlot>>, j: int)
    requires first != [] && NoEmptyRun(rest) && AllRunsPositive(rest) && Gapped(rest) && 0 <= j < |rest|
    requires forall x, y :: x in first && y in Flatten(rest) ==> x.end <= y.start
    requires !Touch(first, rest[0])
    ensures GapBetween(first, rest[j])
  {
    var last := first[|first| - 1];
    assert last in first && rest[0][0] in rest[0] && AllPositive(rest[0]);
    InFlatten(rest, 0, rest[0][0]);
    var end := rest[0][|rest[0]| - 1];
    assert end in rest[0];
    InFlatten(rest, 0, end);
    if j > 0 {
      assert GapBetween(rest[0], rest[j]);
    }
  }

  /** The runs of a ledger in start order are gapped pieces of its free list. */
  lemma LedgerRuns(s: seq<LedgerSlot>)
    requires Separate(s) && Positive(s)
    ensures var runs := Runs(FreeOf(s));
      Pieces(runs) && NoEmptyRun(runs) && AllRunsPositive(runs) && Flatten(runs) == FreeOf(s)
  {
    RunsSplit(s);
    FreeSeparate(s);
    if FreeOf(s) != [] {
      RunsFromMaximal([FreeOf(s)[0]], FreeOf(s)[1..]);
    }
    RunsGapped(Runs(FreeOf(s)));
  }

  lemma RunsSplit(s: seq<LedgerSlot>)
    requires Positive(s)
    ensures var runs := Runs(FreeOf(s));
      && NoEmptyRun(runs) && AllRunsPositive(runs) && Flatten(runs) == FreeOf(s)
      && forall i :: 0 <= i < |runs| ==> Abutting(runs[i])
  {
    var free, runs := FreeOf(s), Runs(FreeOf(s));
    RunsFromPartition([], free);
    assert [] + free == free;
    forall i | 0 <= i < |runs|
      ensures runs[i] != [] && Abutting(runs[i]) && AllPositive(runs[i])
    {
      assert runs[i] in runs;
      RunPositive(s, runs, i);
    }
  }

  lemma RunPositive(s: seq<LedgerSlot>, runs: seq<seq<LedgerSlot>>, i: int)
    requires Positive(s) && Flatten(runs) == FreeOf(s) && 0 <= i < |runs|
    ensures AllPositive(runs[i])
  {
    FreeOfFacts(s);
    forall x | x in runs[i]
      ensures Span(x) > 0
    {
      InFlatten(runs, i, x);
      assert x in s;
    }
  }

  // ---------------------------------------------------------------- the second sweep

  ghost predicate ReadyWaiting(p: Placing, t: SchedulableTask, earliest: Option<Instant>, run: seq<LedgerSlot>) {
    run != [] && Waiting(p, t, earliest, run)
  }

  /** Over runs that all wait, a sweep does nothing, or places one chunk that finishes the task. */
  lemma {:induction false} WaitingSweep(p: Placing, t: SchedulableTask, earliest: Option<Instant>,
                                        runs: seq<seq<LedgerSlot>>)
    requires t.splittable && NoEmptyRun(runs)
    requires forall i {:trigger runs[i]} :: 0 <= i < |runs| ==> ReadyWaiting(p, t, earliest, runs[i])
    ensures var q := Sweep(p, t, earliest, runs);
      q == p || (p.remaining > 0 && q.remaining <= 0 && |q.chunks| == |p.chunks| + 1 && q.chunks[..|p.chunks|] == p.chunks)
    decreases |runs|
  {
    if runs != [] && p.remaining > 0 {
      var run := runs[0];
      assert ReadyWaiting(p, t, earliest, run);
      if RunDemand(p, t, earliest, run).None? {
        assert forall i :: 0 <= i < |runs[1..]| ==> runs[1..][i] == runs[i + 1];
        WaitingSweep(p, t, earliest, runs[1..]);
      } else {
        ChunkCovers(p, t, earliest, run);
      }
    }
  }

  lemma SettledReaching(p: Placing, t: SchedulableTask, earliest: Option<Instant>, pieces: seq<seq<LedgerSlot>>)
    requires NoEmptyRun(pieces) && AllSettled(p, t, earliest, pieces)
    ensures forall i {:trigger Reaching(pieces, earliest)[i]} :: 0 <= i < |Reaching(pieces, earliest)| ==>
      ReadyWaiting(p, t, earliest, Reaching(pieces, earliest)[i])
  {
    ReachingKeeps(pieces, earliest);
    var reached := Reaching(pieces, earliest);
    forall i | 0 <= i < |reached|
      ensures ReadyWaiting(p, t, earliest, reached[i])
    {
      assert reached[i] in reached;
      var j :| 0 <= j < |pieces| && pieces[j] == reached[i];
      assert Settled(p, t, earliest, pieces[j]);
    }
  }

  function FirstSweep(s0: seq<LedgerSlot>, t: SchedulableTask, required: int, earliest: Option<Instant>): Placing {
    Sweep(Begin(s0, [], required), t, earliest, Candidates(s0, earliest))
  }

  /** After a first sweep that leaves work behind, all free runs wait. */
  lemma AfterFirstSweep(s0: seq<LedgerSlot>, t: SchedulableTask, required: int, earliest: Option<Instant>)
    requires DistinctIds(s0) && Positive(s0) && Separate(s0) && t.splittable
    requires FirstSweep(s0, t, required, earliest).remaining > 0
    ensures var q := FirstSweep(s0, t, required, earliest);
      forall i {:trigger Candidates(q.slots, earliest)[i]} :: 0 <= i < |Candidates(q.slots, earliest)| ==>
        ReadyWaiting(q, t, earliest, Candidates(q.slots, earliest)[i])
  {
    var p, q := Begin(s0, [], required), FirstSweep(s0, t, required, earliest);
    var runs := Runs(FreeOf(s0));
    LedgerRuns(s0);
    assert [] + runs == runs && Flatten([]) + Flatten(runs) == Flatten(runs);
    var left := SweepLeaves(p, t, earliest, [], runs);
    RunsOfPieces(left);
    SettledReaching(q, t, earliest, left);
  }

  /**
   Placing a task over slots in start order takes at most two sweeps: the second places nothing, or one chunk that
   finishes the task.
   */
  lemma PlaceInTwoSweeps(s0: seq<LedgerSlot>, t: SchedulableTask, required: int, earliest: Option<Instant>)
    requires DistinctIds(s0) && Positive(s0) && Separate(s0) && t.splittable
    ensures var q := FirstSweep(s0, t, required, earliest);
      var r := Sweep(q, t, earliest, Candidates(q.slots, earliest));
      && Place(Begin(s0, [], required), t, earliest) == r
      && (r == q || (q.remaining > 0 && r.remaining <= 0 && |r.chunks| == |q.chunks| + 1 && r.chunks[..|q.chunks|] == q.chunks))
  {
    var p, q := Begin(s0, [], required), FirstSweep(s0, t, required, earliest);
    SweepProgress(p, t, earliest, Candidates(s0, earliest));
    if q.remaining > 0 {
      AfterFirstSweep(s0, t, required, earliest);
      WaitingSweep(q, t, earliest, Candidates(q.slots, earliest));
    }
    PlaceLast(q, t, earliest);
    PlaceUnfolds(p, q, t, earliest);
  }

  /** One sweep of the placing loop, whichever way it goes on. */
  lemma PlaceStep(p: Placing, t: SchedulableTask, earliest: Option<Instant>)
    ensures var q := Sweep(p, t, earliest, Candidates(p.slots, earliest));
      Place(p, t, earliest) ==
        if p.remaining <= 0 then p else if |q.chunks| == |p.chunks| then q else Place(q, t, earliest)
    ensures p.remaining <= 0 ==> Sweep(p, t, earliest, Candidates(p.slots, earliest)) == p
  {
    SweepProgress(p, t, earliest, Candidates(p.slots, earliest));
  }

  /** A sweep that changes nothing or finishes is the last. */
  lemma PlaceLast(q: Placing, t: SchedulableTask, earliest: Option<Instant>)
    requires var r := Sweep(q, t, earliest, Candidates(q.slots, earliest));
      r == q || (q.remaining > 0 && r.remaining <= 0 && |r.chunks| == |q.chunks| + 1)
    ensures Place(q, t, earliest) == Sweep(q, t, earliest, Candidates(q.slots, earliest))
  {
    var r := Sweep(q, t, earliest, Candidates(q.slots, earliest));
    PlaceStep(q, t, earliest);
    PlaceStep(r, t, earliest);
  }

  lemma PlaceUnfolds(p: Placing, q: Placing, t: SchedulableTask, earliest: Option<Instant>)
    requires q == Sweep(p, t, earliest, Candidates(p.slots, earliest)) && p.chunks == []
    requires q.chunks == [] ==> q == p
    requires Place(q, t, earliest) == Sweep(q, t, earliest, Candidates(q.slots, earliest))
    ensures Place(p, t, earliest) == Sweep(q, t, earliest, Candidates(q.slots, earliest))
  {
    PlaceStep(p, t, earliest);
  }
}
