/** What replanning does in terms of the prior plan, the pins and the clock: which work is safe, moved or proposed. */
module ReplanOutcomes {
  import opened Domain
  import opened Sorting
  import opened Priority
  import opened Placement
  import opened SerialSchedule
  import opened PlanningInput
  import opened PlanningPasses
  import opened PlanningFacts
  import opened Replanning
  import opened ReplanTheorems
  import A = AvailabilitySlots
  import U = UniqueSlots

  /** Work that must stay: its task is pinned, or it begins within two hours from now, or began already. */
  ghost predicate Stays(x: PlannerInput, a: PriorAllocation) {
    a.task in x.pinned || a.start <= x.now + 120
  }

  lemma StaysIsProtected(x: PlannerInput, a: PriorAllocation)
    ensures Stays(x, a) <==> IsProtected(x, a)
  {
  }

  /** The prior plan; without one there is nothing to keep. */
  ghost predicate WasPlanned(x: PlannerInput, a: PriorAllocation) {
    x.prior.Some? && a in x.prior.value
  }

  /** Work that must stay is in the selected base pass: same task, same start, same end. */
  lemma StayingWorkSurvives(x: PlannerInput, a: PriorAllocation)
    requires U.ContextOk(x.availability) && WasPlanned(x, a)
    requires a.task in x.pinned || a.start <= x.now + 120
    ensures exists b :: b in SelectedBase(x) && b.task == a.task && b.start == a.start && b.end == a.end
  {
    StaysIsProtected(x, a);
    ProtectedSurvives(x, a);
    var b :| b in SelectedBase(x) && Reproduces(b, a);
  }

  /** The fresh plan: a base pass that was told nothing about the prior plan. */
  ghost function Fresh(x: PlannerInput): seq<TaskAllocation>
    requires U.ContextOk(x.availability)
  {
    PassResult(x, [], [], BasePass).allocations
  }

  // ---------------------------------------------------------------- the allocations of a task

  /** `current[i]` is the one allocation of the task of `a`, and is over the same time. */
  ghost predicate IsTheOne(current: seq<TaskAllocation>, a: PriorAllocation, i: int) {
    && 0 <= i < |current| && current[i].kind.Task?
    && current[i].task == a.task && current[i].start == a.start && current[i].end == a.end
    && forall j :: 0 <= j < |current| && current[j].kind.Task? && current[j].task == a.task ==> j == i
  }

  ghost predicate Reproduced(current: seq<TaskAllocation>, a: PriorAllocation) {
    exists i :: IsTheOne(current, a, i)
  }

  lemma {:induction false} NoCandidates(current: seq<TaskAllocation>, t: TaskId)
    ensures CandidatesFor(current, t) == [] <==>
            forall j :: 0 <= j < |current| ==> !(current[j].kind.Task? && current[j].task == t)
    decreases |current|
  {
    if current != [] {
      var rest := current[1..];
      NoCandidates(rest, t);
      assert forall j :: 0 < j < |current| ==> current[j] == rest[j - 1];
      if !(current[0].kind.Task? && current[0].task == t) && CandidatesFor(rest, t) != [] {
        var j :| 0 <= j < |rest| && rest[j].kind.Task? && rest[j].task == t;
        assert current[j + 1] == rest[j];
      }
    }
  }

  /** A task has one candidate exactly when one allocation is its. */
  lemma {:induction false} OneCandidate(current: seq<TaskAllocation>, a: PriorAllocation)
    ensures Reproduced(current, a) <==>
            |CandidatesFor(current, a.task)| == 1 && Reproduces(CandidatesFor(current, a.task)[0], a)
    decreases |current|
  {
    if current != [] {
      var rest := current[1..];
      OneCandidate(rest, a);
      NoCandidates(rest, a.task);
      ShiftOne(current, a);
      if current[0].kind.Task? && current[0].task == a.task {
        OnlyFirst(current, a);
      }
    }
  }

  /** When the first allocation is not the task's, the rest decides. */
  lemma ShiftOne(current: seq<TaskAllocation>, a: PriorAllocation)
    requires current != []
    ensures !(current[0].kind.Task? && current[0].task == a.task) ==>
      (Reproduced(current, a) <==> Reproduced(current[1..], a))
  {
    var rest := current[1..];
    assert forall j :: 0 <= j < |rest| ==> rest[j] == current[j + 1];
    if !(current[0].kind.Task? && current[0].task == a.task) {
      if i :| IsTheOne(current, a, i) {
        assert IsTheOne(rest, a, i - 1);
      }
      if i :| IsTheOne(rest, a, i) {
        ShiftBack(current, a, i);
      }
    }
  }

  lemma ShiftBack(current: seq<TaskAllocation>, a: PriorAllocation, i: int)
    requires current != [] && !(current[0].kind.Task? && current[0].task == a.task) && IsTheOne(current[1..], a, i)
    ensures IsTheOne(current, a, i + 1)
  {
    forall j | 0 <= j < |current| && current[j].kind.Task? && current[j].task == a.task
      ensures j == i + 1
    {
      assert current[1..][j - 1] == current[j];
    }
  }

  /** When the first allocation is the task's, it must be the one. */
  lemma OnlyFirst(current: seq<TaskAllocation>, a: PriorAllocation)
    requires current != [] && current[0].kind.Task? && current[0].task == a.task
    ensures Reproduced(current, a) <==> CandidatesFor(current[1..], a.task) == [] && Reproduces(current[0], a)
  {
    var rest := current[1..];
    NoCandidates(rest, a.task);
    assert forall j :: 0 < j < |current| ==> current[j] == rest[j - 1];
    if i :| IsTheOne(current, a, i) {
      assert i == 0;
      forall j | 0 <= j < |rest|
        ensures !(rest[j].kind.Task? && rest[j].task == a.task)
      {
        assert current[j + 1] == rest[j];
      }
    }
    if CandidatesFor(rest, a.task) == [] && Reproduces(current[0], a) {
      assert IsTheOne(current, a, 0);
    }
  }

  /** A prior allocation counts as kept exactly when the plan gives its task that one allocation. */
  lemma KeptIsReproduced(current: seq<TaskAllocation>, a: PriorAllocation)
    ensures Kept(current, a) <==> Reproduced(current, a)
  {
    KeptExactly(current, a);
    OneCandidate(current, a);
  }

  /** Nothing is proposed exactly when the fresh plan gives every task of staying work that one allocation. */
  lemma NothingProposedExactlyWhen(x: PlannerInput)
    requires U.ContextOk(x.availability)
    ensures Proposals(x) == [] <==>
            forall a :: WasPlanned(x, a) && (a.task in x.pinned || a.start <= x.now + 120) ==> Reproduced(Fresh(x), a)
  {
    ProposalsExactlyWhenDisturbed(x, Fresh(x));
    forall a
      ensures a in ProtectedPrior(x) <==> WasPlanned(x, a) && (a.task in x.pinned || a.start <= x.now + 120)
      ensures Kept(Fresh(x), a) <==> Reproduced(Fresh(x), a)
    {
      ProtectedMembers(x, PriorOrNone(x), a);
      StaysIsProtected(x, a);
      KeptIsReproduced(Fresh(x), a);
    }
  }

  // ---------------------------------------------------------------- moves

  /** The fresh plan has work for the task of `a`, none earlier than `start` and some then, but not as `a` was. */
  ghost predicate MovesTo(current: seq<TaskAllocation>, a: PriorAllocation, start: Instant) {
    && !Reproduced(current, a)
    && (exists i :: 0 <= i < |current| && current[i].kind.Task? && current[i].task == a.task && current[i].start == start)
    && forall i :: 0 <= i < |current| && current[i].kind.Task? && current[i].task == a.task ==> start <= current[i].start
  }

  lemma {:induction false} CandidatesAre(current: seq<TaskAllocation>, t: TaskId, b: TaskAllocation)
    ensures b in CandidatesFor(current, t) <==> b in current && b.kind.Task? && b.task == t
    decreases |current|
  {
    if current != [] {
      CandidatesAre(current[1..], t, b);
      assert current == [current[0]] + current[1..];
    }
  }

  lemma MovesToStarts(current: seq<TaskAllocation>, a: PriorAllocation, start: Instant)
    ensures MovesTo(current, a, start) <==> !Kept(current, a) && StartsEarliest(CandidatesFor(current, a.task), start)
  {
    var candidates := CandidatesFor(current, a.task);
    KeptIsReproduced(current, a);
    forall b
      ensures b in candidates <==> b in current && b.kind.Task? && b.task == a.task
    {
      CandidatesAre(current, a.task, b);
    }
    if StartsEarliest(candidates, start) {
      var b :| b in candidates && b.start == start;
      var i :| 0 <= i < |current| && current[i] == b;
    }
    if i :| 0 <= i < |current| && current[i].kind.Task? && current[i].task == a.task && current[i].start == start {
      assert current[i] in candidates;
    }
    forall i | 0 <= i < |current| && current[i].kind.Task? && current[i].task == a.task
      ensures current[i] in candidates
    {
    }
  }

  /** The verdict is a move exactly when the work moves, and says whence and whither. */
  lemma MovedVerdict(current: seq<TaskAllocation>, a: PriorAllocation, start: Instant)
    ensures MovesTo(current, a, start) <==>
            VerdictOf(current, a).Moved? && VerdictOf(current, a).record.newStart == start
    ensures VerdictOf(current, a).Moved? ==>
      VerdictOf(current, a).record.task == a.task && VerdictOf(current, a).record.priorStart == a.start
  {
    MovesToStarts(current, a, start);
    VerdictsExactly(current, a);
    var candidates, v := CandidatesFor(current, a.task), VerdictOf(current, a);
    if v.Moved? && StartsEarliest(candidates, start) {
      var b :| b in candidates && b.start == start;
      var c :| c in candidates && c.start == v.record.newStart;
    }
    if candidates == [] {
      assert !StartsEarliest(candidates, start);
    }
  }

  /** What a move costs: forty across days, ten for two hours or more within a day, two for less, nothing for none. */
  ghost function CostOf(from: Instant, to: Instant): int {
    if from / 1440 != to / 1440 then 40
    else if from - to >= 120 || to - from >= 120 then 10
    else if from != to then 2
    else 0
  }

  lemma {:induction false} AppliedExactly(x: PlannerInput, moves: seq<MoveRecord>, v: AppliedMove)
    ensures v in AppliedFrom(x, moves) <==>
            exists m :: m in moves && Disallowed(x, m).None? &&
              v == AppliedMove(m.task, m.priorStart, m.newStart, CostOf(m.priorStart, m.newStart))
    decreases |moves|
  {
    if moves != [] {
      AppliedExactly(x, moves[1..], v);
      assert moves == [moves[0]] + moves[1..];
    }
  }

  /** The move of some prior work that need not stay, with its cost. */
  ghost predicate MoveOf(x: PlannerInput, current: seq<TaskAllocation>, a: PriorAllocation, v: AppliedMove) {
    && WasPlanned(x, a) && a.task !in x.pinned && a.start > x.now + 120
    && v.task == a.task && v.oldStart == a.start && MovesTo(current, a, v.newStart)
    && v.cost == CostOf(a.start, v.newStart)
  }

  lemma MoveIsApplied(x: PlannerInput, current: seq<TaskAllocation>, a: PriorAllocation, v: AppliedMove)
    requires MoveOf(x, current, a, v)
    ensures v in AppliedFrom(x, MovesOf(current, PriorOrNone(x)))
  {
    MovedVerdict(current, a, v.newStart);
    var m := VerdictOf(current, a).record;
    MovesFrom(current, PriorOrNone(x), m);
    DisallowedIsProtected(x, current, a, m);
    StaysIsProtected(x, a);
    AppliedExactly(x, MovesOf(current, PriorOrNone(x)), v);
  }

  lemma AppliedIsMove(x: PlannerInput, current: seq<TaskAllocation>, v: AppliedMove) returns (a: PriorAllocation)
    requires v in AppliedFrom(x, MovesOf(current, PriorOrNone(x)))
    ensures MoveOf(x, current, a, v)
  {
    AppliedExactly(x, MovesOf(current, PriorOrNone(x)), v);
    var m :| m in MovesOf(current, PriorOrNone(x)) && Disallowed(x, m).None? &&
      v == AppliedMove(m.task, m.priorStart, m.newStart, CostOf(m.priorStart, m.newStart));
    MovesFrom(current, PriorOrNone(x), m);
    a :| a in PriorOrNone(x) && VerdictOf(current, a) == Moved(m);
    MovedVerdict(current, a, m.newStart);
    DisallowedIsProtected(x, current, a, m);
    StaysIsProtected(x, a);
  }

  /**
   The applied moves are exactly those of prior work that need not stay and that the fresh plan has elsewhere, each to
   the earliest start its task has now, at the cost of the distance.
   */
  lemma AppliedExactlyWhenMoved(x: PlannerInput, v: AppliedMove)
    requires U.ContextOk(x.availability)
    ensures v in AppliedFrom(x, DiffFor(x).moves) <==> exists a :: MoveOf(x, Fresh(x), a, v)
  {
    if v in AppliedFrom(x, DiffFor(x).moves) {
      var a := AppliedIsMove(x, Fresh(x), v);
    }
    if a :| MoveOf(x, Fresh(x), a, v) {
      MoveIsApplied(x, Fresh(x), a, v);
    }
  }

  /** Each applied move counts its cost to the total. */
  lemma {:induction false} CostCounts(applied: seq<AppliedMove>, v: AppliedMove)
    ensures TotalCost([]) == 0 && TotalCost(applied + [v]) == TotalCost(applied) + v.cost
    decreases |applied|
  {
    if applied == [] {
      assert applied + [v] == [v] && [v][1..] == [];
    } else {
      assert (applied + [v])[1..] == applied[1..] + [v];
      CostCounts(applied[1..], v);
    }
  }

  // ---------------------------------------------------------------- proposals

  /** Why work stays: a pin comes before the clock. */
  ghost function ReasonFor(x: PlannerInput, t: TaskId): Reason {
    if t in x.pinned then UserPinned else FreezeWindow
  }

  /** The last prior allocation of a task. */
  ghost predicate LastOf(x: PlannerInput, t: TaskId, b: PriorAllocation) {
    && x.prior.Some?
    && exists i :: 0 <= i < |x.prior.value| && x.prior.value[i] == b && b.task == t &&
         forall j :: i < j < |x.prior.value| ==> x.prior.value[j].task != t
  }

  lemma {:induction false} PriorStartIs(prior: seq<PriorAllocation>, t: TaskId, default: Instant, i: nat)
    requires i < |prior| && prior[i].task == t && forall j :: i < j < |prior| ==> prior[j].task != t
    ensures PriorStart(prior, t, default) == prior[i].start
    decreases |prior|
  {
    if i < |prior| - 1 {
      PriorStartIs(prior[..|prior| - 1], t, default, i);
    }
  }

  /** Staying work the fresh plan has elsewhere, with the distance from where its task last was. */
  ghost predicate ProposesMove(x: PlannerInput, current: seq<TaskAllocation>, a: PriorAllocation, p: Proposal) {
    && WasPlanned(x, a) && Stays(x, a) && p.task == a.task && p.reason == ReasonFor(x, a.task)
    && exists start, b :: MovesTo(current, a, start) && LastOf(x, a.task, b) && p.minutesDelta == start - b.start
  }

  /** Staying work whose task the fresh plan has nothing for. */
  ghost predicate ProposesRemoval(x: PlannerInput, current: seq<TaskAllocation>, a: PriorAllocation, p: Proposal) {
    && WasPlanned(x, a) && Stays(x, a) && p == Proposal(a.task, ReasonFor(x, a.task), 0)
    && forall i :: 0 <= i < |current| ==> !(current[i].kind.Task? && current[i].task == a.task)
  }

  lemma {:induction false} MoveProposalsAre(x: PlannerInput, moves: seq<MoveRecord>, p: Proposal)
    ensures p in MoveProposals(x, moves) <==>
            exists m :: m in moves && Disallowed(x, m).Some? &&
              p == Proposal(m.task, Disallowed(x, m).value,
                            m.newStart - PriorStart(PriorOrNone(x), m.task, m.newStart))
    decreases |moves|
  {
    if moves != [] {
      MoveProposalsAre(x, moves[1..], p);
      assert moves == [moves[0]] + moves[1..];
    }
  }

  lemma {:induction false} RemovalProposalsAre(x: PlannerInput, removed: seq<TaskId>, p: Proposal)
    ensures p in RemovalProposals(x, removed) <==>
            exists t :: t in removed && HasProtected(x, t) && p == Proposal(t, ReasonFor(x, t), 0)
    decreases |removed|
  {
    if removed != [] {
      RemovalProposalsAre(x, removed[1..], p);
      assert removed == [removed[0]] + removed[1..];
    }
  }

  /** Some prior allocation of a planned task is its last. */
  lemma {:induction false} FindLast(prior: seq<PriorAllocation>, t: TaskId, a: PriorAllocation) returns (i: nat)
    requires a in prior && a.task == t
    ensures i < |prior| && prior[i].task == t && forall j :: i < j < |prior| ==> prior[j].task != t
    decreases |prior|
  {
    var n := |prior| - 1;
    assert prior == prior[..n] + [prior[n]];
    if prior[n].task == t {
      i := n;
    } else {
      i := FindLast(prior[..n], t, a);
    }
  }

  /** A move record's distance is taken from the last prior allocation of its task. */
  lemma DistanceIs(x: PlannerInput, a: PriorAllocation, start: Instant, delta: int)
    requires WasPlanned(x, a)
    ensures delta == start - PriorStart(PriorOrNone(x), a.task, start) <==>
            exists b :: LastOf(x, a.task, b) && delta == start - b.start
  {
    var prior := x.prior.value;
    var i := FindLast(prior, a.task, a);
    PriorStartIs(prior, a.task, start, i);
    assert LastOf(x, a.task, prior[i]);
    if b :| LastOf(x, a.task, b) && delta == start - b.start {
      var j :| 0 <= j < |prior| && prior[j] == b && b.task == a.task && forall k :: j < k < |prior| ==> prior[k].task != a.task;
      assert i == j;
    }
  }

  lemma ReasonIs(x: PlannerInput, current: seq<TaskAllocation>, a: PriorAllocation, m: MoveRecord)
    requires VerdictOf(current, a) == Moved(m)
    ensures Disallowed(x, m).Some? <==> Stays(x, a)
    ensures Stays(x, a) ==> Disallowed(x, m) == Some(ReasonFor(x, a.task))
  {
    MovedVerdict(current, a, m.newStart);
  }

  lemma MoveProposed(x: PlannerInput, current: seq<TaskAllocation>, p: Proposal)
    ensures p in MoveProposals(x, MovesOf(current, PriorOrNone(x))) <==> exists a :: ProposesMove(x, current, a, p)
  {
    var moves := MovesOf(current, PriorOrNone(x));
    MoveProposalsAre(x, moves, p);
    if p in MoveProposals(x, moves) {
      var m :| m in moves && Disallowed(x, m).Some? &&
        p == Proposal(m.task, Disallowed(x, m).value, m.newStart - PriorStart(PriorOrNone(x), m.task, m.newStart));
      MovesFrom(current, PriorOrNone(x), m);
      var a :| a in PriorOrNone(x) && VerdictOf(current, a) == Moved(m);
      ReasonIs(x, current, a, m);
      MovedVerdict(current, a, m.newStart);
      DistanceIs(x, a, m.newStart, p.minutesDelta);
      assert ProposesMove(x, current, a, p);
    }
    if a :| ProposesMove(x, current, a, p) {
      var start, b :| MovesTo(current, a, start) && LastOf(x, a.task, b) && p.minutesDelta == start - b.start;
      MovedVerdict(current, a, start);
      var m := VerdictOf(current, a).record;
      MovesFrom(current, PriorOrNone(x), m);
      ReasonIs(x, current, a, m);
      DistanceIs(x, a, start, p.minutesDelta);
      assert m in moves && Disallowed(x, m).Some?;
    }
  }

  lemma RemovalProposed(x: PlannerInput, current: seq<TaskAllocation>, p: Proposal)
    ensures p in RemovalProposals(x, RemovedOf(current, PriorOrNone(x))) <==>
            exists a :: ProposesRemoval(x, current, a, p)
  {
    var prior := PriorOrNone(x);
    var removed := RemovedOf(current, prior);
    RemovalProposalsAre(x, removed, p);
    if p in RemovalProposals(x, removed) {
      var t :| t in removed && HasProtected(x, t) && p == Proposal(t, ReasonFor(x, t), 0);
      RemovedFrom(current, prior, t);
      var b :| b in prior && b.task == t && VerdictOf(current, b).Removed?;
      var a :| a in ProtectedPrior(x) && a.task == t;
      ProtectedMembers(x, prior, a);
      VerdictsExactly(current, b);
      NoCandidates(current, t);
      assert ProposesRemoval(x, current, a, p);
    }
    if a :| ProposesRemoval(x, current, a, p) {
      NoCandidates(current, a.task);
      VerdictsExactly(current, a);
      RemovedFrom(current, prior, a.task);
      ProtectedMembers(x, prior, a);
      assert a in ProtectedPrior(x);
    }
  }

  /**
   The proposals are exactly those of staying work: one for each place the fresh plan moves it to, and one for each
   task the fresh plan has nothing for any more.
   */
  lemma ProposedExactlyWhen(x: PlannerInput, p: Proposal)
    requires U.ContextOk(x.availability)
    ensures p in Proposals(x) <==>
            exists a :: ProposesMove(x, Fresh(x), a, p) || ProposesRemoval(x, Fresh(x), a, p)
  {
    MoveProposed(x, Fresh(x), p);
    RemovalProposed(x, Fresh(x), p);
  }

  /** With disjoint windows, new work of the selected base pass overlaps no staying work but the chunk that is that work. */
  lemma StayingWorkSpared(x: PlannerInput, a: PriorAllocation, k: int)
    requires InputOk(x) && A.WindowsApart(x.availability.windows) && WasPlanned(x, a)
    requires a.task in x.pinned || a.start <= x.now + 120
    requires 0 <= k < |NewChunks(x, [], SelectedPrior(x), BasePass)|
    ensures var c := NewChunks(x, [], SelectedPrior(x), BasePass)[k];
      || ChunkEnd(c) <= a.start || a.end <= ChunkStart(c)
      || (c.task == a.task && ChunkStart(c) == a.start && ChunkEnd(c) == a.end)
  {
    StaysIsProtected(x, a);
    NewWorkSparesProtected(x, a, k);
  }

  /** With nothing proposed the fresh plan is selected; otherwise one built around exactly the staying work. */
  lemma SelectedAround(x: PlannerInput, a: PriorAllocation)
    requires U.ContextOk(x.availability)
    ensures a in SelectedPrior(x) <==>
            Proposals(x) != [] && WasPlanned(x, a) && (a.task in x.pinned || a.start <= x.now + 120)
  {
    ProtectedMembers(x, PriorOrNone(x), a);
    StaysIsProtected(x, a);
  }
}
