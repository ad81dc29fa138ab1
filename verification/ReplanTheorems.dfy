/** Pinned and frozen work survives replanning, whichever plan is selected. */
module ReplanTheorems {
  import opened Domain
  import opened Sorting
  import opened Priority
  import opened Ledger
  import opened Placement
  import opened SerialSchedule
  import opened SerialTheorems
  import opened PlanningInput
  import opened GraphAnalysis
  import opened PlanningPasses
  import opened PlanningFacts
  import opened Replanning
  import A = AvailabilitySlots
  import U = UniqueSlots

  // ---------------------------------------------------------------- when proposals are raised

  lemma {:induction false} MovesFrom(current: seq<TaskAllocation>, prior: seq<PriorAllocation>, m: MoveRecord)
    ensures m in MovesOf(current, prior) <==> exists a :: a in prior && VerdictOf(current, a) == Moved(m)
    decreases |prior|
  {
    if prior != [] {
      MovesFrom(current, prior[1..], m);
      assert prior == [prior[0]] + prior[1..];
    }
  }

  lemma {:induction false} RemovedFrom(current: seq<TaskAllocation>, prior: seq<PriorAllocation>, t: TaskId)
    ensures t in RemovedOf(current, prior) <==> exists a :: a in prior && a.task == t && VerdictOf(current, a).Removed?
    decreases |prior|
  {
    if prior != [] {
      RemovedFrom(current, prior[1..], t);
      assert prior == [prior[0]] + prior[1..];
    }
  }

  lemma {:induction false} NoMoveProposals(x: PlannerInput, moves: seq<MoveRecord>)
    ensures MoveProposals(x, moves) == [] <==> forall m :: m in moves ==> Disallowed(x, m).None?
    decreases |moves|
  {
    if moves != [] {
      NoMoveProposals(x, moves[1..]);
      assert moves == [moves[0]] + moves[1..];
    }
  }

  lemma {:induction false} NoRemovalProposals(x: PlannerInput, removed: seq<TaskId>)
    ensures RemovalProposals(x, removed) == [] <==> forall t :: t in removed ==> !HasProtected(x, t)
    decreases |removed|
  {
    if removed != [] {
      NoRemovalProposals(x, removed[1..]);
      assert removed == [removed[0]] + removed[1..];
    }
  }

  /** A moved allocation is disallowed exactly when it is protected. */
  lemma DisallowedIsProtected(x: PlannerInput, current: seq<TaskAllocation>, a: PriorAllocation, m: MoveRecord)
    requires VerdictOf(current, a) == Moved(m)
    ensures Disallowed(x, m).Some? <==> IsProtected(x, a)
  {
  }

  /** The prior allocation is in the fresh plan as it was. */
  ghost predicate Kept(current: seq<TaskAllocation>, a: PriorAllocation) {
    VerdictOf(current, a).Unchanged?
  }

  lemma ProtectedMoveProposes(x: PlannerInput, current: seq<TaskAllocation>, prior: seq<PriorAllocation>,
                              a: PriorAllocation)
    requires a in prior && IsProtected(x, a) && VerdictOf(current, a).Moved?
    ensures MoveProposals(x, MovesOf(current, prior)) != []
  {
    var m := VerdictOf(current, a).record;
    MovesFrom(current, prior, m);
    DisallowedIsProtected(x, current, a, m);
    NoMoveProposals(x, MovesOf(current, prior));
  }

  lemma ProtectedRemovalProposes(x: PlannerInput, current: seq<TaskAllocation>, a: PriorAllocation)
    requires a in ProtectedPrior(x) && VerdictOf(current, a).Removed?
    ensures RemovalProposals(x, RemovedOf(current, PriorOrNone(x))) != []
  {
    ProtectedMembers(x, PriorOrNone(x), a);
    RemovedFrom(current, PriorOrNone(x), a.task);
    NoRemovalProposals(x, RemovedOf(current, PriorOrNone(x)));
  }

  /** Whether a task is removed depends on the task alone. */
  lemma RemovedTogether(current: seq<TaskAllocation>, a: PriorAllocation, b: PriorAllocation)
    requires a.task == b.task && VerdictOf(current, a).Removed?
    ensures VerdictOf(current, b).Removed?
  {
    SortMembers(AllocationLeq, CandidatesFor(current, a.task));
  }

  lemma KeptNoMoveProposals(x: PlannerInput, current: seq<TaskAllocation>)
    requires forall a :: a in ProtectedPrior(x) ==> Kept(current, a)
    ensures MoveProposals(x, MovesOf(current, PriorOrNone(x))) == []
  {
    var prior := PriorOrNone(x);
    forall m | m in MovesOf(current, prior)
      ensures Disallowed(x, m).None?
    {
      MovesFrom(current, prior, m);
      var a :| a in prior && VerdictOf(current, a) == Moved(m);
      DisallowedIsProtected(x, current, a, m);
      ProtectedMembers(x, prior, a);
      assert a in ProtectedPrior(x) ==> Kept(current, a);
    }
    NoMoveProposals(x, MovesOf(current, prior));
  }

  lemma KeptNoRemovalProposals(x: PlannerInput, current: seq<TaskAllocation>)
    requires forall a :: a in ProtectedPrior(x) ==> Kept(current, a)
    ensures RemovalProposals(x, RemovedOf(current, PriorOrNone(x))) == []
  {
    var prior := PriorOrNone(x);
    forall t | t in RemovedOf(current, prior)
      ensures !HasProtected(x, t)
    {
      RemovedFrom(current, prior, t);
      var a :| a in prior && a.task == t && VerdictOf(current, a).Removed?;
      forall b | b in ProtectedPrior(x)
        ensures b.task != t
      {
        assert Kept(current, b);
        if b.task == t {
          RemovedTogether(current, a, b);
        }
      }
    }
    NoRemovalProposals(x, RemovedOf(current, prior));
  }

  /** Proposals are raised exactly when a plan does not reproduce some protected prior allocation. */
  lemma ProposalsExactlyWhenDisturbed(x: PlannerInput, current: seq<TaskAllocation>)
    ensures ProposalsFor(x, DiffOf(PriorOrNone(x), current)) == [] <==>
            forall a :: a in ProtectedPrior(x) ==> Kept(current, a)
  {
    if forall a :: a in ProtectedPrior(x) ==> Kept(current, a) {
      KeptNoMoveProposals(x, current);
      KeptNoRemovalProposals(x, current);
    } else {
      var a :| a in ProtectedPrior(x) && !Kept(current, a);
      ProtectedMembers(x, PriorOrNone(x), a);
      if VerdictOf(current, a).Moved? {
        ProtectedMoveProposes(x, current, PriorOrNone(x), a);
      } else {
        ProtectedRemovalProposes(x, current, a);
      }
    }
  }

  /** Without a proposal every protected prior allocation is kept by the fresh plan. */
  lemma NoProposalKeeps(x: PlannerInput, a: PriorAllocation)
    requires U.ContextOk(x.availability) && Proposals(x) == [] && a in ProtectedPrior(x)
    ensures Kept(AfterBase(x).allocations, a)
  {
    ProposalsExactlyWhenDisturbed(x, AfterBase(x).allocations);
  }

  // ---------------------------------------------------------------- survival

  /** An allocation of the same task over the same time. */
  ghost predicate Reproduces(b: TaskAllocation, a: PriorAllocation) {
    b.task == a.task && b.start == a.start && b.end == a.end
  }

  lemma {:induction false} CandidateIsCurrent(current: seq<TaskAllocation>, t: TaskId, b: TaskAllocation)
    requires b in CandidatesFor(current, t)
    ensures b in current && b.task == t
    decreases |current|
  {
    if !(current[0].kind.Task? && current[0].task == t && b == current[0]) {
      CandidateIsCurrent(current[1..], t, b);
    }
  }

  lemma KeptIsThere(current: seq<TaskAllocation>, a: PriorAllocation)
    requires Kept(current, a)
    ensures exists b :: b in current && Reproduces(b, a)
  {
    var candidates := CandidatesFor(current, a.task);
    var first := Sort(AllocationLeq, candidates)[0];
    SortMembers(AllocationLeq, candidates);
    assert first in Sort(AllocationLeq, candidates);
    CandidateIsCurrent(current, a.task, first);
    assert Reproduces(first, a);
  }

  /** A prior allocation counts as kept exactly when its task has that one allocation: several chunks never count. */
  lemma KeptExactly(current: seq<TaskAllocation>, a: PriorAllocation)
    ensures Kept(current, a) <==>
            |CandidatesFor(current, a.task)| == 1 && Reproduces(CandidatesFor(current, a.task)[0], a)
  {
    var candidates := CandidatesFor(current, a.task);
    SortMembers(AllocationLeq, candidates);
    if |candidates| == 1 {
      SingleCandidate(current, a.task);
      assert Sort(AllocationLeq, candidates)[0] in candidates;
    }
  }

  /** Sorted by start, the first candidate is one that starts earliest. */
  lemma FirstStartsEarliest(candidates: seq<TaskAllocation>)
    requires candidates != []
    ensures var sorted := Sort(AllocationLeq, candidates);
      sorted != [] && sorted[0] in candidates && forall b :: b in candidates ==> sorted[0].start <= b.start
  {
    var sorted := Sort(AllocationLeq, candidates);
    SortMembers(AllocationLeq, candidates);
    SortSorts(AllocationLeq, candidates);
    assert sorted[0] in candidates;
    forall b | b in candidates
      ensures sorted[0].start <= b.start
    {
      FirstIsLeast(AllocationLeq, sorted, b);
    }
  }

  /**
   The other verdicts: removed exactly when the task has no allocation, extended exactly when its one allocation has
   the same start and a later end, and moved otherwise, to the earliest start it now has.
   */
  lemma VerdictsExactly(current: seq<TaskAllocation>, a: PriorAllocation)
    ensures var candidates, v := CandidatesFor(current, a.task), VerdictOf(current, a);
      && (v.Removed? <==> candidates == [])
      && (v.Moved? && v.record.kind.Extend? <==>
            |candidates| == 1 && candidates[0].start == a.start && candidates[0].end > a.end)
      && (v.Moved? ==> v.record.priorStart == a.start && v.record.task == a.task)
      && (v.Moved? ==> StartsEarliest(candidates, v.record.newStart))
  {
    var candidates := CandidatesFor(current, a.task);
    if candidates != [] {
      FirstStartsEarliest(candidates);
    }
  }

  ghost predicate StartsEarliest(candidates: seq<TaskAllocation>, start: Instant) {
    && (exists b :: b in candidates && b.start == start)
    && (forall b :: b in candidates ==> start <= b.start)
  }

  /** A move costs nothing exactly when the start stays, as much there as back, and most across days. */
  lemma MoveCostMeans(a: Instant, b: Instant)
    ensures MoveCost(a, b) == 0 <==> a == b
    ensures MoveCost(a, b) == MoveCost(b, a)
    ensures MoveCost(a, b) == 40 <==> UtcDay(a) != UtcDay(b)
    ensures MoveCost(a, b) == 2 ==> Abs(a - b) < 120
  {
  }

  lemma SingleCandidate(current: seq<TaskAllocation>, t: TaskId)
    ensures forall b :: b in CandidatesFor(current, t) ==> b in current && b.task == t
  {
    forall b | b in CandidatesFor(current, t)
      ensures b in current && b.task == t
    {
      CandidateIsCurrent(current, t, b);
    }
  }

  /** The base allocations of the plan `replan` selects. */
  ghost function SelectedBase(x: PlannerInput): seq<TaskAllocation>
    requires U.ContextOk(x.availability)
  {
    PassResult(x, [], SelectedPrior(x), BasePass).allocations
  }

  lemma PreallocatedAllocations(x: PlannerInput, pre: seq<PriorAllocation>, pass: PassType, a: PriorAllocation)
    requires U.ContextOk(x.availability) && a in pre
    ensures exists b :: b in PassResult(x, [], pre, pass).allocations && Reproduces(b, a)
  {
    PreallocatedHas(pre, pass, a);
    var b :| b in Preallocated(Sort(PriorLeq, pre), pass) && b.task == a.task && b.start == a.start && b.end == a.end;
    assert Reproduces(b, a);
  }

  /** Every pinned or frozen prior allocation is in the selected base pass: same task, same start, same end. */
  lemma ProtectedSurvives(x: PlannerInput, a: PriorAllocation)
    requires U.ContextOk(x.availability) && a in PriorOrNone(x) && IsProtected(x, a)
    ensures exists b :: b in SelectedBase(x) && Reproduces(b, a)
  {
    ProtectedMembers(x, PriorOrNone(x), a);
    if Proposals(x) != [] {
      PreallocatedAllocations(x, ProtectedPrior(x), BasePass, a);
    } else {
      NoProposalKeeps(x, a);
      KeptIsThere(AfterBase(x).allocations, a);
    }
  }

  lemma {:induction false} AppliedComesFrom(x: PlannerInput, moves: seq<MoveRecord>, v: AppliedMove) returns (m: MoveRecord)
    requires v in AppliedFrom(x, moves)
    ensures m in moves && Disallowed(x, m).None? && v == AppliedMove(m.task, m.priorStart, m.newStart, v.cost)
    decreases |moves|
  {
    m := moves[0];
    if !(Disallowed(x, m).None? && v == AppliedMove(m.task, m.priorStart, m.newStart, MoveCost(m.priorStart, m.newStart))) {
      m := AppliedComesFrom(x, moves[1..], v);
    }
  }

  /** No applied move touches a protected allocation, and each moves an allocation the prior plan had. */
  lemma AppliedMovesSpareProtected(x: PlannerInput, current: seq<TaskAllocation>, v: AppliedMove)
    requires v in AppliedFrom(x, DiffOf(PriorOrNone(x), current).moves)
    ensures forall a :: a in ProtectedPrior(x) ==> !(a.task == v.task && a.start == v.oldStart)
    ensures exists a :: a in PriorOrNone(x) && !IsProtected(x, a) && a.task == v.task && a.start == v.oldStart
  {
    var prior := PriorOrNone(x);
    var m := AppliedComesFrom(x, MovesOf(current, prior), v);
    MovesFrom(current, prior, m);
    var a :| a in prior && VerdictOf(current, a) == Moved(m);
    DisallowedIsProtected(x, current, a, m);
    assert a.task == v.task && a.start == v.oldStart;
    forall b | b in ProtectedPrior(x)
      ensures !(b.task == v.task && b.start == v.oldStart)
    {
      ProtectedMembers(x, prior, b);
    }
  }

  // ---------------------------------------------------------------- new work

  lemma ProtectedLasts(x: PlannerInput)
    requires PriorsLast(x)
    ensures forall a :: a in ProtectedPrior(x) ==> a.start < a.end
  {
    forall a | a in ProtectedPrior(x)
      ensures a.start < a.end
    {
      ProtectedMembers(x, PriorOrNone(x), a);
    }
  }

  /** A chunk against an interval: apart, or the very allocation. */
  ghost predicate Spares(c: Chunk, a: PriorAllocation) {
    || SpansApart(ChunkStart(c), ChunkEnd(c), a.start, a.end)
    || (c.task == a.task && ChunkStart(c) == a.start && ChunkEnd(c) == a.end)
  }

  ghost predicate ApartFromOthers(chunks: seq<Chunk>, k: int) {
    0 <= k < |chunks| && forall l :: 0 <= l < |chunks| && l != k ==>
      SpansApart(ChunkStart(chunks[k]), ChunkEnd(chunks[k]), ChunkStart(chunks[l]), ChunkEnd(chunks[l]))
  }

  /** A kept allocation is one chunk, and the others are apart from it. */
  lemma KeptSpared(chunks: seq<Chunk>, pass: PassType, a: PriorAllocation, k: int)
    requires Kept(AllocationsOf(chunks, pass), a) && ApartFromOthers(chunks, k)
    ensures Spares(chunks[k], a)
  {
    var all := AllocationsOf(chunks, pass);
    KeptIsThere(all, a);
    var b :| b in all && Reproduces(b, a);
    var l :| 0 <= l < |all| && all[l] == b;
    assert b == AllocationOf(chunks[l], pass);
  }

  /**
   With disjoint windows, no newly placed chunk of the selected base pass overlaps a protected prior allocation,
   except the chunk that is that allocation.
   */
  lemma NewWorkSparesProtected(x: PlannerInput, a: PriorAllocation, k: int)
    requires InputOk(x) && A.WindowsApart(x.availability.windows)
    requires a in PriorOrNone(x) && IsProtected(x, a)
    requires 0 <= k < |NewChunks(x, [], SelectedPrior(x), BasePass)|
    ensures Spares(NewChunks(x, [], SelectedPrior(x), BasePass)[k], a)
  {
    ProtectedMembers(x, PriorOrNone(x), a);
    ProtectedLasts(x);
    NewChunksApart(x, [], SelectedPrior(x), BasePass, k);
    if Proposals(x) == [] {
      NoProposalKeeps(x, a);
      OnlyNew(RequestFor(x, [], BasePass), FinalPass(x, [], [], BasePass));
      KeptSpared(NewChunks(x, [], [], BasePass), BasePass, a, k);
    }
  }
}
