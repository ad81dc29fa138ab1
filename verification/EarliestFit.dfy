/** A task begins as early as the free slots allow: its first chunk lies no later than any stretch that could hold it. */
module EarliestFit {
  import opened Domain
  import opened Priority
  import opened Ledger
  import opened Placement
  import opened Ownership
  import opened PlacementFacts
  import opened SerialTheorems
  import opened TwoSweeps
  import opened DayCap
  import opened DayCapExact

  // ---------------------------------------------------------------- a stretch inside a run

  /** The usable part of a run reaches from before a stretch of it past the bound to after it. */
  lemma StretchInUsable(run: seq<LedgerSlot>, c: seq<LedgerSlot>, from: Instant)
    requires IsStretch(run) && IsStretch(c) && (forall x :: x in c ==> x in run && x.end > from)
    ensures var u := Usable(run, from); u != [] && u[0].start <= c[0].start && Minutes(u) >= Minutes(c)
  {
    var k := UsableIsTail(run, from);
    var u := run[k..];
    AbuttingPart(run, k, u);
    PastTheBound(run, from, k, c[0]);
    PastTheBound(run, from, k, c[|c| - 1]);
    UsablePositive(run, from);
    RunBounds(u, c[0]);
    RunBounds(u, c[|c| - 1]);
    AbuttingMinutes(u);
    AbuttingMinutes(c);
  }

  /** A slot of the run that ends after the bound is in its usable tail. */
  lemma PastTheBound(run: seq<LedgerSlot>, from: Instant, k: nat, x: LedgerSlot)
    requires IsStretch(run) && k <= |run| && Usable(run, from) == run[k..] && x in run && x.end > from
    ensures x in run[k..]
  {
    var i :| 0 <= i < |run| && run[i] == x;
    if i < k {
      UnusedEnds(run, from, k);
      if i < k - 1 {
        AbuttingRises(run, i, k - 1);
      }
    } else {
      assert run[k..][i - k] == x;
    }
  }

  // ---------------------------------------------------------------- the first run granted

  /** The first sweep places its first chunk in the first run that is granted at the outset. */
  lemma {:induction false} FirstGranted(p: Placing, t: SchedulableTask, earliest: Option<Instant>,
                                        runs: seq<seq<LedgerSlot>>, j: nat)
    returns (i: nat)
    requires NoEmptyRun(runs) && p.remaining > 0 && p.chunks == [] && j < |runs|
    requires RunDemand(p, t, earliest, runs[j]).Some?
    ensures i <= j && RunDemand(p, t, earliest, runs[i]).Some?
    ensures var q := Sweep(p, t, earliest, runs);
      q.chunks != [] && q.chunks[0].slots[0] == FirstUsable(runs[i], earliest)
    decreases |runs|
  {
    if RunDemand(p, t, earliest, runs[0]).Some? {
      i := 0;
      ChunkCovers(p, t, earliest, runs[0]);
      ChunkBegins(p, t, earliest, runs[0]);
      var p1 := TryRun(p, t, earliest, runs[0]);
      SweepKeepsChunks(p1, t, earliest, runs[1..]);
      FirstOfPrefix(p1.chunks, Sweep(p1, t, earliest, runs[1..]).chunks);
    } else {
      i := FirstGranted(p, t, earliest, runs[1..], j - 1);
      i := i + 1;
    }
  }

  lemma FirstOfPrefix(a: seq<Chunk>, b: seq<Chunk>)
    requires a <= b && a != []
    ensures b != [] && b[0] == a[0]
  {
  }

  lemma {:induction false} PlaceKeepsChunks(p: Placing, t: SchedulableTask, earliest: Option<Instant>)
    ensures p.chunks <= Place(p, t, earliest).chunks
    decreases if p.remaining <= 0 then 0 else p.remaining
  {
    if p.remaining > 0 {
      var q := Sweep(p, t, earliest, Candidates(p.slots, earliest));
      SweepProgress(p, t, earliest, Candidates(p.slots, earliest));
      SweepKeepsChunks(p, t, earliest, Candidates(p.slots, earliest));
      if |q.chunks| != |p.chunks| {
        PlaceKeepsChunks(q, t, earliest);
      }
    }
  }

  // ---------------------------------------------------------------- the theorem

  /** Enough minutes for a first chunk of the task. */
  ghost predicate Enough(t: SchedulableTask, required: int, minutes: int) {
    minutes >= Min(t.minChunk, required) && (t.splittable || minutes >= required)
  }

  ghost predicate Inside(c: seq<LedgerSlot>, run: seq<LedgerSlot>) {
    forall x :: x in c ==> x in run
  }

  /** A chain of free slots lies in one run. */
  lemma ChainInOne(s: seq<LedgerSlot>, c: seq<LedgerSlot>) returns (i: nat)
    requires Positive(s) && Separate(s) && Chain(s, c)
    ensures i < |Runs(FreeOf(s))| && Inside(c, Runs(FreeOf(s))[i])
  {
    var all := Runs(FreeOf(s));
    LedgerRuns(s);
    FreeOfFacts(s);
    assert c[|c| - 1] in c;
    i := RunOf(all, c[|c| - 1]);
    forall n | 0 <= n < |c|
      ensures c[n] in all[i]
    {
      ChainInRun(s, all, i, c, n);
    }
  }

  lemma StretchReaches(run: seq<LedgerSlot>, earliest: Option<Instant>, c: seq<LedgerSlot>)
    requires IsStretch(run) && c != [] && Inside(c, run) && AllAfter(c, earliest)
    ensures Reaches(run, earliest)
  {
    assert c[0] in c;
    RunBounds(run, c[0]);
  }

  /** The run a chain of free slots lies in is a candidate when the chain lies past the bound. */
  lemma ChainRun(s: seq<LedgerSlot>, earliest: Option<Instant>, c: seq<LedgerSlot>) returns (j: nat)
    requires DistinctIds(s) && Positive(s) && Separate(s) && Chain(s, c) && AllAfter(c, earliest)
    ensures j < |Candidates(s, earliest)| && Inside(c, Candidates(s, earliest)[j])
  {
    var all := Runs(FreeOf(s));
    LedgerRuns(s);
    var i := ChainInOne(s, c);
    StretchReaches(all[i], earliest, c);
    j := ReachedAt(all, earliest, i);
  }

  /** A run that reaches past the bound is among those that do. */
  lemma {:induction false} ReachedAt(runs: seq<seq<LedgerSlot>>, earliest: Option<Instant>, i: nat) returns (j: nat)
    requires NoEmptyRun(runs) && i < |runs| && Reaches(runs[i], earliest)
    ensures j < |Reaching(runs, earliest)| && Reaching(runs, earliest)[j] == runs[i]
    decreases |runs|
  {
    if i == 0 {
      j := 0;
    } else {
      j := ReachedAt(runs[1..], earliest, i - 1);
      if Reaches(runs[0], earliest) {
        j := j + 1;
      }
    }
  }

  lemma AfterTheStart(run: seq<LedgerSlot>, earliest: Option<Instant>, c: seq<LedgerSlot>)
    requires IsStretch(run) && AllAfter(c, earliest) && Inside(c, run)
    ensures forall x :: x in c ==> x.end > EffectiveStart(run, earliest)
  {
    forall x | x in c
      ensures x.end > EffectiveStart(run, earliest)
    {
      RunBounds(run, x);
    }
  }

  /** A run that has a stretch long enough is granted at the outset, and can be used no later than the stretch. */
  lemma LongEnough(s: seq<LedgerSlot>, t: SchedulableTask, required: int, earliest: Option<Instant>,
                   run: seq<LedgerSlot>, c: seq<LedgerSlot>)
    requires IsStretch(run) && IsStretch(c) && AllAfter(c, earliest) && Inside(c, run)
    requires required > 0 && Enough(t, required, Minutes(c))
    ensures RunDemand(Begin(s, [], required), t, earliest, run).Some?
    ensures FirstUsable(run, earliest).start <= c[0].start
  {
    AfterTheStart(run, earliest, c);
    StretchInUsable(run, c, EffectiveStart(run, earliest));
    PositiveMinutes(c);
  }

  lemma EarlierRun(s: seq<LedgerSlot>, a: seq<LedgerSlot>, b: seq<LedgerSlot>, earliest: Option<Instant>)
    requires RunReady(s, a, earliest) && IsStretch(b) && GapBetween(a, b)
    ensures FirstUsable(a, earliest).start < b[0].start
  {
    var k := UsableFrom(a, earliest);
    assert a[k] in a;
    RunBounds(a, a[k]);
  }

  lemma CandidateReady(s: seq<LedgerSlot>, earliest: Option<Instant>, j: nat)
    requires DistinctIds(s) && Positive(s) && Separate(s) && j < |Candidates(s, earliest)|
    ensures RunReady(s, Candidates(s, earliest)[j], earliest) && IsStretch(Candidates(s, earliest)[j])
  {
    CandidatesOrdered(s, earliest);
    assert RunReady(s, Candidates(s, earliest)[j], earliest);
  }

  lemma CandidateGap(s: seq<LedgerSlot>, earliest: Option<Instant>, i: nat, j: nat)
    requires DistinctIds(s) && Positive(s) && Separate(s) && i < j < |Candidates(s, earliest)|
    ensures GapBetween(Candidates(s, earliest)[i], Candidates(s, earliest)[j])
  {
    CandidatesOrdered(s, earliest);
    assert GapBetween(Candidates(s, earliest)[i], Candidates(s, earliest)[j]);
  }

  /** The candidate the stretch lies in is granted at the outset. */
  lemma GrantedAt(s: seq<LedgerSlot>, t: SchedulableTask, required: int, earliest: Option<Instant>,
                  c: seq<LedgerSlot>, j: nat)
    requires DistinctIds(s) && Positive(s) && Separate(s) && required > 0 && j < |Candidates(s, earliest)|
    requires IsStretch(c) && AllAfter(c, earliest) && Inside(c, Candidates(s, earliest)[j])
    requires Enough(t, required, Minutes(c))
    ensures RunDemand(Begin(s, [], required), t, earliest, Candidates(s, earliest)[j]).Some?
    ensures FirstUsable(Candidates(s, earliest)[j], earliest).start <= c[0].start
  {
    CandidateReady(s, earliest, j);
    LongEnough(s, t, required, earliest, Candidates(s, earliest)[j], c);
  }

  /** An earlier candidate can be used before the stretch. */
  lemma EarlierCandidate(s: seq<LedgerSlot>, earliest: Option<Instant>, c: seq<LedgerSlot>, i: nat, j: nat)
    requires DistinctIds(s) && Positive(s) && Separate(s) && i < j < |Candidates(s, earliest)|
    requires c != [] && Inside(c, Candidates(s, earliest)[j])
    ensures FirstUsable(Candidates(s, earliest)[i], earliest).start < c[0].start
  {
    CandidateReady(s, earliest, i);
    CandidateReady(s, earliest, j);
    CandidateGap(s, earliest, i, j);
    EarlierRun(s, Candidates(s, earliest)[i], Candidates(s, earliest)[j], earliest);
    assert c[0] in c;
    RunBounds(Candidates(s, earliest)[j], c[0]);
  }

  /**
   If some stretch of free touching slots past the bound is long enough for a first chunk, the task is placed, and its
   first chunk begins no later than that stretch: over slots in start order a task begins as early as it can.
   */
  lemma FirstFit(s: seq<LedgerSlot>, t: SchedulableTask, required: int, earliest: Option<Instant>, c: seq<LedgerSlot>)
    requires DistinctIds(s) && Positive(s) && Separate(s) && required > 0
    requires Chain(s, c) && AllAfter(c, earliest) && Enough(t, required, Minutes(c))
    ensures var chunks := Place(Begin(s, [], required), t, earliest).chunks;
      chunks != [] && ChunkStart(chunks[0]) <= c[0].start
  {
    ChainPositive(s, c);
    var j := ChainRun(s, earliest, c);
    GrantedAt(s, t, required, earliest, c, j);
    var i := FirstGranted(Begin(s, [], required), t, earliest, Candidates(s, earliest), j);
    if i < j {
      EarlierCandidate(s, earliest, c, i, j);
    }
    FirstOfAll(Begin(s, [], required), t, earliest);
  }

  /** The first sweep's first chunk is the first of all. */
  lemma FirstOfAll(p: Placing, t: SchedulableTask, earliest: Option<Instant>)
    requires p.remaining > 0 && p.chunks == [] && Sweep(p, t, earliest, Candidates(p.slots, earliest)).chunks != []
    ensures var chunks := Place(p, t, earliest).chunks;
      chunks != [] && chunks[0] == Sweep(p, t, earliest, Candidates(p.slots, earliest)).chunks[0]
  {
    var q := Sweep(p, t, earliest, Candidates(p.slots, earliest));
    PlaceStep(p, t, earliest);
    PlaceKeepsChunks(q, t, earliest);
    FirstOfPrefix(q.chunks, Place(q, t, earliest).chunks);
  }
}
