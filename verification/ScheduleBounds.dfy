/** When each task of a schedule could begin: exactly as late as its gates demand, and as early as what is left free. */
module ScheduleBounds {
  import opened Domain
  import opened Sorting
  import opened Priority
  import opened Ledger
  import opened Placement
  import opened Ownership
  import opened Conservation
  import opened PlacementFacts
  import opened SerialSchedule
  import opened SerialFacts
  import opened SerialTheorems
  import opened SerialOrder
  import opened DayCap
  import opened DayCapExact
  import opened EarliestFit
  import opened ScheduleDays

  // ---------------------------------------------------------------- completions are ends

  /** Something task `p` has ends at `e`. */
  ghost predicate SomethingEnds(r: Request, chunks: seq<Chunk>, p: TaskId, e: Instant) {
    || (exists j :: 0 <= j < |r.prior| && r.prior[j].task == p && r.prior[j].end == e)
    || (exists l :: 0 <= l < |chunks| && chunks[l].task == p && ChunkEnd(chunks[l]) == e)
  }

  ghost predicate CompletionsEnd(r: Request, pr: Progress) {
    forall p :: p in pr.completion ==> SomethingEnds(r, pr.chunks, p, pr.completion[p])
  }

  lemma {:induction false} LatestEndIs(s: seq<TaskAllocation>)
    requires s != []
    ensures LatestEnd(s).Some? && exists j :: 0 <= j < |s| && s[j].end == LatestEnd(s).value
    decreases |s|
  {
    if |s| > 1 {
      LatestEndIs(s[1..]);
      var j :| 0 <= j < |s[1..]| && s[1..][j].end == LatestEnd(s[1..]).value;
      assert s[j + 1].end == LatestEnd(s[1..]).value;
    }
  }

  lemma {:induction false} LatestCompletionIs(m: map<TaskId, Instant>, ids: seq<TaskId>)
    ensures LatestCompletion(m, ids).Some? ==> exists p :: p in ids && p in m && m[p] == LatestCompletion(m, ids).value
    decreases |ids|
  {
    if ids != [] {
      LatestCompletionIs(m, ids[1..]);
      assert ids == [ids[0]] + ids[1..];
    }
  }

  lemma EndsMore(r: Request, a: seq<Chunk>, b: seq<Chunk>, p: TaskId, e: Instant)
    requires SomethingEnds(r, a, p, e)
    ensures SomethingEnds(r, a + b, p, e)
  {
    if l :| 0 <= l < |a| && a[l].task == p && ChunkEnd(a[l]) == e {
      assert (a + b)[l] == a[l];
    }
  }

  /** The end of everything a task was handed and given is the end of one of these. */
  lemma CompletionEnds(r: Request, a: seq<Chunk>, b: seq<Chunk>, t: TaskId)
    requires IsMine(b, t) && CompletionOf(PriorOf(r.prior, t), AllocationsOf(b, r.pass)).Some?
    ensures SomethingEnds(r, a + b, t, CompletionOf(PriorOf(r.prior, t), AllocationsOf(b, r.pass)).value)
  {
    var prior, produced := PriorOf(r.prior, t), AllocationsOf(b, r.pass);
    var all: seq<TaskAllocation> := prior + produced;
    LatestEndIs(all);
    var j :| 0 <= j < |all| && all[j].end == LatestEnd(all).value;
    if j < |prior| {
      assert prior[j] in prior;
      PriorOfMembers(r.prior, t, prior[j]);
      var i :| 0 <= i < |r.prior| && r.prior[i] == prior[j];
    } else {
      assert (a + b)[|a| + (j - |prior|)] == b[j - |prior|];
    }
  }

  lemma FollowsEnds(r: Request, pr: Progress, q: Progress, b: seq<Chunk>, t: SchedulableTask)
    requires Follows(r, pr, q, b, t) && CompletionsEnd(r, pr)
    ensures CompletionsEnd(r, q)
  {
    forall p | p in q.completion
      ensures SomethingEnds(r, q.chunks, p, q.completion[p])
    {
      var end := CompletionOf(PriorOf(r.prior, t.id), AllocationsOf(b, r.pass));
      if p == t.id && end.Some? && q.completion[p] == end.value {
        CompletionEnds(r, pr.chunks, b, t.id);
      } else {
        EndsMore(r, pr.chunks, b, p, pr.completion[p]);
      }
    }
  }

  // ---------------------------------------------------------------- the bound of a task

  /** Nothing that must be over before the task begins ends after `e`. */
  ghost predicate NothingLater(r: Request, chunks: seq<Chunk>, t: SchedulableTask, e: Instant) {
    && (t.startAfter.Some? ==> t.startAfter.value <= e)
    && (forall p :: p in GatesOf(r, t.id) ==> EndsBy(r, chunks, p, e))
    && (forall j :: 0 <= j < |r.prior| && r.prior[j].task == t.id ==> r.prior[j].end <= e)
  }

  /** The task waits for `e`: its start time, the end of something a gate has, or of something it was handed. */
  ghost predicate WaitsFor(r: Request, chunks: seq<Chunk>, t: SchedulableTask, e: Instant) {
    || t.startAfter == Some(e)
    || (exists p :: p in GatesOf(r, t.id) && SomethingEnds(r, chunks, p, e))
    || (exists j :: 0 <= j < |r.prior| && r.prior[j].task == t.id && r.prior[j].end == e)
  }

  /** The latest of what the task waits for, if it waits for anything. */
  ghost predicate IsBound(r: Request, chunks: seq<Chunk>, t: SchedulableTask, bound: Option<Instant>) {
    match bound
    case Some(e) => WaitsFor(r, chunks, t, e) && NothingLater(r, chunks, t, e)
    case None => forall e :: !WaitsFor(r, chunks, t, e)
  }

  lemma GateBound(r: Request, pr: Progress, t: SchedulableTask, p: TaskId, e: Instant)
    requires Bounded(r, pr, p) && p in GatesOf(r, t.id)
    requires p in pr.completion ==> pr.completion[p] <= e
    ensures EndsBy(r, pr.chunks, p, e)
  {
  }

  /** The bound a ready task is placed with is what it waits for. */
  lemma StartIsBound(r: Request, pr: Progress, t: SchedulableTask)
    requires AllBounded(r, pr) && CompletionsEnd(r, pr) && IsReady(r, pr.fully, t)
    ensures IsBound(r, pr.chunks, t, Later(t.startAfter, EarliestStart(r, pr, t)))
  {
    var ids, own := SortedIds(GatesOf(r, t.id)), PriorOf(r.prior, t.id);
    var gates, handed := LatestCompletion(pr.completion, ids), LatestEnd(own);
    LatestCompletionBounds(pr.completion, ids);
    LatestCompletionIs(pr.completion, ids);
    LatestEndBounds(own);
    var bound := Later(t.startAfter, Later(gates, handed));
    if bound.Some? {
      BoundAttained(r, pr, t, bound.value);
      BoundCovers(r, pr, t, bound.value);
    } else {
      NothingWaited(r, pr, t);
    }
  }

  lemma BoundAttained(r: Request, pr: Progress, t: SchedulableTask, e: Instant)
    requires CompletionsEnd(r, pr)
    requires Later(t.startAfter, EarliestStart(r, pr, t)) == Some(e)
    ensures WaitsFor(r, pr.chunks, t, e)
  {
    var ids, own := SortedIds(GatesOf(r, t.id)), PriorOf(r.prior, t.id);
    LatestCompletionIs(pr.completion, ids);
    if LatestCompletion(pr.completion, ids) == Some(e) {
      var p :| p in ids && p in pr.completion && pr.completion[p] == e;
      assert SomethingEnds(r, pr.chunks, p, e);
    } else if LatestEnd(own) == Some(e) {
      LatestEndBounds(own);
      LatestEndIs(own);
      var j :| 0 <= j < |own| && own[j].end == e;
      PriorOfMembers(r.prior, t.id, own[j]);
      var i :| 0 <= i < |r.prior| && r.prior[i] == own[j];
    }
  }

  lemma BoundCovers(r: Request, pr: Progress, t: SchedulableTask, e: Instant)
    requires AllBounded(r, pr) && IsReady(r, pr.fully, t)
    requires Later(t.startAfter, EarliestStart(r, pr, t)) == Some(e)
    ensures NothingLater(r, pr.chunks, t, e)
  {
    var ids, own := SortedIds(GatesOf(r, t.id)), PriorOf(r.prior, t.id);
    LatestCompletionBounds(pr.completion, ids);
    LatestEndBounds(own);
    forall p | p in GatesOf(r, t.id)
      ensures EndsBy(r, pr.chunks, p, e)
    {
      assert p in ids && Bounded(r, pr, p);
      GateBound(r, pr, t, p, e);
    }
    forall j | 0 <= j < |r.prior| && r.prior[j].task == t.id
      ensures r.prior[j].end <= e
    {
      PriorOfMembers(r.prior, t.id, r.prior[j]);
    }
  }

  lemma NothingWaited(r: Request, pr: Progress, t: SchedulableTask)
    requires AllBounded(r, pr) && IsReady(r, pr.fully, t)
    requires Later(t.startAfter, EarliestStart(r, pr, t)).None?
    ensures forall e :: !WaitsFor(r, pr.chunks, t, e)
  {
    var ids, own := SortedIds(GatesOf(r, t.id)), PriorOf(r.prior, t.id);
    LatestCompletionBounds(pr.completion, ids);
    LatestEndBounds(own);
    forall p, e | p in GatesOf(r, t.id)
      ensures !SomethingEnds(r, pr.chunks, p, e)
    {
      assert p in ids && Bounded(r, pr, p);
    }
    forall j | 0 <= j < |r.prior|
      ensures r.prior[j].task != t.id
    {
      PriorOfMembers(r.prior, t.id, r.prior[j]);
    }
  }

  // ---------------------------------------------------------------- the bound in the finished schedule

  /** The two lists have the same chunks of a task. */
  ghost predicate SameOf(a: seq<Chunk>, b: seq<Chunk>, p: TaskId) {
    OfTask(a, p) == OfTask(b, p)
  }

  lemma {:induction false} OfTaskHas(chunks: seq<Chunk>, p: TaskId, c: Chunk)
    ensures c in OfTask(chunks, p) <==> c in chunks && c.task == p
    decreases |chunks|
  {
    if chunks != [] {
      OfTaskHas(chunks[1..], p, c);
      assert chunks == [chunks[0]] + chunks[1..];
    }
  }

  lemma EndsSame(r: Request, a: seq<Chunk>, b: seq<Chunk>, p: TaskId, e: Instant)
    requires SameOf(a, b, p)
    ensures SomethingEnds(r, a, p, e) ==> SomethingEnds(r, b, p, e)
    ensures EndsBy(r, a, p, e) ==> EndsBy(r, b, p, e)
  {
    if l :| 0 <= l < |a| && a[l].task == p && ChunkEnd(a[l]) == e {
      OfTaskHas(a, p, a[l]);
      OfTaskHas(b, p, a[l]);
      var k :| 0 <= k < |b| && b[k] == a[l];
    }
    forall l | EndsBy(r, a, p, e) && 0 <= l < |b| && b[l].task == p
      ensures ChunkEnd(b[l]) <= e
    {
      OfTaskHas(a, p, b[l]);
      OfTaskHas(b, p, b[l]);
      var k :| 0 <= k < |a| && a[k] == b[l];
    }
  }

  ghost predicate SameGates(r: Request, a: seq<Chunk>, b: seq<Chunk>, t: SchedulableTask) {
    forall p :: p in GatesOf(r, t.id) ==> SameOf(a, b, p)
  }

  lemma WaitsSame(r: Request, a: seq<Chunk>, b: seq<Chunk>, t: SchedulableTask, e: Instant)
    requires SameGates(r, a, b, t) && WaitsFor(r, a, t, e)
    ensures WaitsFor(r, b, t, e)
  {
    if p :| p in GatesOf(r, t.id) && SomethingEnds(r, a, p, e) {
      EndsSame(r, a, b, p, e);
    }
  }

  lemma LaterSame(r: Request, a: seq<Chunk>, b: seq<Chunk>, t: SchedulableTask, e: Instant)
    requires SameGates(r, a, b, t) && NothingLater(r, a, t, e)
    ensures NothingLater(r, b, t, e)
  {
    forall p | p in GatesOf(r, t.id)
      ensures EndsBy(r, b, p, e)
    {
      EndsSame(r, a, b, p, e);
    }
  }

  lemma BoundStays(r: Request, a: seq<Chunk>, b: seq<Chunk>, t: SchedulableTask, bound: Option<Instant>)
    requires IsBound(r, a, t, bound) && SameGates(r, a, b, t)
    ensures IsBound(r, b, t, bound)
  {
    match bound
    case Some(e) =>
      WaitsSame(r, a, b, t, e);
      LaterSame(r, a, b, t, e);
    case None =>
      forall e
        ensures !WaitsFor(r, b, t, e)
      {
        if WaitsFor(r, b, t, e) {
          WaitsSame(r, b, a, t, e);
        }
      }
  }

  /** A task already fully placed is not pending. */
  lemma FullyNotPending(pr: Progress, pending: seq<SchedulableTask>, p: TaskId)
    requires AllUntouched(pr, pending) && p in pr.fully
    ensures p !in TaskIds(pending)
  {
    forall t | t in pending
      ensures t.id != p
    {
      assert Untouched(pr, t.id);
    }
  }

  lemma GatesFinal(r: Request, s1: seq<LedgerSlot>, pr: Progress, pending: seq<SchedulableTask>, t: SchedulableTask)
    requires DistinctIds(s1) && Positive(s1) && Inv(r, s1, pr, pending) && IsReady(r, pr.fully, t)
    ensures SameGates(r, pr.chunks, ScheduleFrom(r, pr, pending).chunks, t)
  {
    forall p | p in GatesOf(r, t.id)
      ensures SameOf(pr.chunks, ScheduleFrom(r, pr, pending).chunks, p)
    {
      FullyNotPending(pr, pending, p);
      NothingMore(r, s1, pr, pending, p);
    }
  }

  // ---------------------------------------------------------------- where a task was placed

  /** How a task that was tried fared: placed with its bound over the ledger as it was then, or in need of nothing. */
  ghost predicate TriedWith(r: Request, s1: seq<LedgerSlot>, final: Progress, t: SchedulableTask, s: seq<LedgerSlot>,
                            done: seq<Chunk>, bound: Option<Instant>)
  {
    && AllBecame(s1, s, done) && done <= final.chunks && IsBound(r, final.chunks, t, bound)
    && (Required(r, t) > 0 ==>
          OfTask(final.chunks, t.id) == Place(Begin(s, [], Required(r, t)), t, bound).chunks)
  }

  lemma {:induction false} ChunksGrow(r: Request, s1: seq<LedgerSlot>, pr: Progress, pending: seq<SchedulableTask>)
    requires DistinctIds(s1) && Positive(s1) && Inv(r, s1, pr, pending)
    ensures pr.chunks <= ScheduleFrom(r, pr, pending).chunks
    decreases |pending|
  {
    if pending != [] {
      var i := FirstReady(r, pr.fully, pending);
      if i < |pending| {
        var b := AttemptInvFollows(r, s1, pr, pending, i);
        ScheduleUnfolds(r, pr, pending, i);
        ChunksGrow(r, s1, Attempt(r, pr, pending[i]), Without(pending, i));
      }
    }
  }

  lemma TriedNow(r: Request, s1: seq<LedgerSlot>, pr: Progress, pending: seq<SchedulableTask>, i: nat)
    requires DistinctIds(s1) && Positive(s1) && Inv(r, s1, pr, pending) && CompletionsEnd(r, pr)
    requires i < |pending| && FirstReady(r, pr.fully, pending) == i
    ensures var t := pending[i];
      TriedWith(r, s1, ScheduleFrom(r, pr, pending), t, pr.slots, pr.chunks, Later(t.startAfter, EarliestStart(r, pr, t)))
  {
    var t, final := pending[i], ScheduleFrom(r, pr, pending);
    StartIsBound(r, pr, t);
    GatesFinal(r, s1, pr, pending, t);
    BoundStays(r, pr.chunks, final.chunks, t, Later(t.startAfter, EarliestStart(r, pr, t)));
    ChunksGrow(r, s1, pr, pending);
    PlacedNow(r, s1, pr, pending, i);
  }

  /** A task that needs something gets exactly what placing it now gives. */
  lemma PlacedNow(r: Request, s1: seq<LedgerSlot>, pr: Progress, pending: seq<SchedulableTask>, i: nat)
    requires DistinctIds(s1) && Positive(s1) && Inv(r, s1, pr, pending)
    requires i < |pending| && FirstReady(r, pr.fully, pending) == i
    ensures var t := pending[i]; Required(r, t) > 0 ==>
      OfTask(ScheduleFrom(r, pr, pending).chunks, t.id) == PlaceNow(r, pr, t).chunks
  {
    var t := pending[i];
    ShapeKeepsIds(s1, pr.slots, pr.chunks);
    ShapeKeepsPositive(s1, pr.slots, pr.chunks);
    var b := AttemptFollows(r, pr, t);
    AttemptInv(r, s1, pr, pending, i);
    assert Untouched(pr, t.id);
    OnlyNow(pr, b, t.id);
    DistinctWithout(pending, i);
    ScheduleUnfolds(r, pr, pending, i);
    NothingMore(r, s1, Attempt(r, pr, t), Without(pending, i), t.id);
  }

  /** A task that is ever tried was tried with its bound; one that never is has a gate that never opens. */
  lemma {:induction false} TriedOrWaiting(r: Request, s1: seq<LedgerSlot>, pr: Progress, pending: seq<SchedulableTask>,
                                          t: SchedulableTask)
    returns (s: seq<LedgerSlot>, done: seq<Chunk>, bound: Option<Instant>)
    requires DistinctIds(s1) && Positive(s1) && Inv(r, s1, pr, pending) && CompletionsEnd(r, pr) && t in pending
    ensures var final := ScheduleFrom(r, pr, pending);
      IsReady(r, final.fully, t) ==> TriedWith(r, s1, final, t, s, done, bound)
    decreases |pending|
  {
    var i := FirstReady(r, pr.fully, pending);
    s, done, bound := pr.slots, pr.chunks, Later(t.startAfter, EarliestStart(r, pr, t));
    if i < |pending| {
      if pending[i] == t {
        TriedNow(r, s1, pr, pending, i);
      } else {
        WithoutMembers(pending, i);
        var b := AttemptInvFollows(r, s1, pr, pending, i);
        FollowsEnds(r, pr, Attempt(r, pr, pending[i]), b, pending[i]);
        ScheduleUnfolds(r, pr, pending, i);
        s, done, bound := TriedOrWaiting(r, s1, Attempt(r, pr, pending[i]), Without(pending, i), t);
      }
    }
  }

  // ---------------------------------------------------------------- the theorems

  lemma ReadyTried(r: Request, tasks: seq<SchedulableTask>, offered: seq<SlotLike>, t: SchedulableTask)
    returns (s: seq<LedgerSlot>, done: seq<Chunk>, bound: Option<Instant>)
    requires DistinctTasks(tasks) && Offerable(offered) && t in tasks
    requires IsReady(r, Schedule(r, tasks, offered).fully, t)
    ensures TriedWith(r, Reserved(r, offered), Schedule(r, tasks, offered), t, s, done, bound)
  {
    var s1, sorted := Reserved(r, offered), Sort(KeyLeq, tasks);
    SortDistinct(tasks);
    ReservedFacts(r, offered);
    OpeningInv(r, offered, sorted);
    s, done, bound := TriedOrWaiting(r, s1, Opening(r, offered), sorted, t);
  }

  /** Slots free at the end were free at every earlier point. */
  lemma FreeThen(s1: seq<LedgerSlot>, s: seq<LedgerSlot>, done: seq<Chunk>, end: seq<LedgerSlot>, chunks: seq<Chunk>,
                 x: LedgerSlot)
    requires AllBecame(s1, s, done) && AllBecame(s1, end, chunks) && done <= chunks && x in end && x.free
    ensures x in s
  {
    FreeIsUntouched(s1, end, chunks, x);
    var i :| 0 <= i < |s1| && s1[i] == x;
    if Held(done, x) {
      HeldByPrefix(done, chunks, x);
    }
    assert Became(done, s1[i], s[i]);
  }

  lemma ChainThen(s1: seq<LedgerSlot>, s: seq<LedgerSlot>, done: seq<Chunk>, end: seq<LedgerSlot>, chunks: seq<Chunk>,
                  c: seq<LedgerSlot>)
    requires AllBecame(s1, s, done) && AllBecame(s1, end, chunks) && done <= chunks && Chain(end, c)
    ensures Chain(s, c)
  {
    forall x | x in c
      ensures x in s && x.free
    {
      FreeThen(s1, s, done, end, chunks, x);
    }
  }

  /**
   No task could have begun earlier in what a schedule leaves free: if its gates opened and it needed anything, then
   every stretch of slots still free past its bound, long enough for a first chunk of it, lies no earlier than where it
   begins; and if it has nothing, there is no such stretch at all.
   */
  lemma BeginsAsEarlyAsCanBe(r: Request, tasks: seq<SchedulableTask>, offered: seq<SlotLike>, t: SchedulableTask)
    returns (bound: Option<Instant>)
    requires DistinctTasks(tasks) && Offerable(offered) && OfferedApart(offered) && t in tasks
    requires IsReady(r, Schedule(r, tasks, offered).fully, t) && Required(r, t) > 0
    ensures IsBound(r, Schedule(r, tasks, offered).chunks, t, bound)
    ensures var q := Schedule(r, tasks, offered); var own := OfTask(q.chunks, t.id);
      forall c: seq<LedgerSlot> :: Chain(q.slots, c) && AllAfter(c, bound) && Enough(t, Required(r, t), Minutes(c)) ==>
        own != [] && ChunkStart(own[0]) <= c[0].start
  {
    var q, s1 := Schedule(r, tasks, offered), Reserved(r, offered);
    ScheduleInv(r, tasks, offered);
    ReservedFacts(r, offered);
    var s, done;
    s, done, bound := ReadyTried(r, tasks, offered, t);
    ShapeKeepsIds(s1, s, done);
    ShapeKeepsPositive(s1, s, done);
    ShapeKeepsSeparate(s1, s, done);
    forall c: seq<LedgerSlot> | Chain(q.slots, c) && AllAfter(c, bound) && Enough(t, Required(r, t), Minutes(c))
      ensures var own := OfTask(q.chunks, t.id); own != [] && ChunkStart(own[0]) <= c[0].start
    {
      ChainThen(s1, s, done, q.slots, q.chunks, c);
      FirstFit(s, t, Required(r, t), bound, c);
    }
  }
}
