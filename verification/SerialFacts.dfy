/** What every run of the serial scheduler keeps: ownership, gates, accounting. */
module SerialFacts {
  import opened Domain
  import opened Sorting
  import opened Priority
  import opened Ledger
  import opened Placement
  import opened Ownership
  import opened Conservation
  import opened PlacementFacts
  import opened SerialSchedule

  /** The schedule does not depend on the order of its task list. */
  lemma ScheduleForgetsOrder(r: Request, a: seq<SchedulableTask>, b: seq<SchedulableTask>, offered: seq<SlotLike>)
    requires DistinctTasks(a) && multiset(a) == multiset(b)
    ensures ResultOf(r, Schedule(r, a, offered)) == ResultOf(r, Schedule(r, b, offered))
  {
    SortTasksForgetsOrder(a, b);
  }

  // ---------------------------------------------------------------- the parts of the invariant

  ghost predicate Solid(c: Chunk) {
    Abutting(c.slots) && AllPositive(c.slots)
  }

  ghost predicate AllSolid(chunks: seq<Chunk>) {
    forall k {:trigger Solid(chunks[k])} :: 0 <= k < |chunks| ==> Solid(chunks[k])
  }

  /** All that task `p` has ends by `e`. */
  ghost predicate EndsBy(r: Request, chunks: seq<Chunk>, p: TaskId, e: Instant) {
    && (forall j :: 0 <= j < |r.prior| && r.prior[j].task == p ==> r.prior[j].end <= e)
    && (forall l :: 0 <= l < |chunks| && chunks[l].task == p ==> ChunkEnd(chunks[l]) <= e)
  }

  ghost predicate HasNothing(r: Request, chunks: seq<Chunk>, p: TaskId) {
    && (forall j :: 0 <= j < |r.prior| ==> r.prior[j].task != p)
    && (forall l :: 0 <= l < |chunks| ==> chunks[l].task != p)
  }

  /** The recorded completion of a fully placed task bounds everything it has. */
  ghost predicate Bounded(r: Request, pr: Progress, p: TaskId) {
    if p in pr.completion then EndsBy(r, pr.chunks, p, pr.completion[p]) else HasNothing(r, pr.chunks, p)
  }

  ghost predicate AllBounded(r: Request, pr: Progress) {
    forall p {:trigger Bounded(r, pr, p)} :: p in pr.fully ==> Bounded(r, pr, p)
  }

  /** Slot `x` ends after everything task `p` has. */
  ghost predicate EndsAfter(r: Request, chunks: seq<Chunk>, x: LedgerSlot, p: TaskId) {
    && (forall j :: 0 <= j < |r.prior| && r.prior[j].task == p ==> x.end > r.prior[j].end)
    && (forall l :: 0 <= l < |chunks| && chunks[l].task == p ==> x.end > ChunkEnd(chunks[l]))
  }

  /** The gates of a chunk's task were fully placed, and the chunk's slots end after everything they have. */
  ghost predicate GateSafe(r: Request, pr: Progress, c: Chunk) {
    forall p :: p in GatesOf(r, c.task) ==> p in pr.fully && AllEndAfter(r, pr.chunks, c.slots, p)
  }

  ghost predicate AllEndAfter(r: Request, chunks: seq<Chunk>, xs: seq<LedgerSlot>, p: TaskId) {
    forall x :: x in xs ==> EndsAfter(r, chunks, x, p)
  }

  /** A chunk's slots end after every preallocated interval of its task. */
  ghost predicate AfterOwnPrior(r: Request, c: Chunk) {
    forall j, x :: 0 <= j < |r.prior| && r.prior[j].task == c.task && x in c.slots ==> x.end > r.prior[j].end
  }

  ghost predicate AllAfterOwnPrior(r: Request, chunks: seq<Chunk>) {
    forall k {:trigger AfterOwnPrior(r, chunks[k])} :: 0 <= k < |chunks| ==> AfterOwnPrior(r, chunks[k])
  }

  ghost predicate CompletionKnown(pr: Progress) {
    forall p :: p in pr.completion ==> p in pr.fully
  }

  ghost predicate AllGateSafe(r: Request, pr: Progress) {
    forall k {:trigger GateSafe(r, pr, pr.chunks[k])} :: 0 <= k < |pr.chunks| ==> GateSafe(r, pr, pr.chunks[k])
  }

  /** Every task is fully placed only after all its gates were. */
  ghost predicate Ordered(r: Request, fully: seq<TaskId>) {
    forall i, p :: 0 <= i < |fully| && p in GatesOf(r, fully[i]) ==> p in fully[..i]
  }

  /** A task that is neither fully placed nor given up has no chunk yet. */
  ghost predicate Untouched(pr: Progress, t: TaskId) {
    t !in pr.fully && t !in pr.unallocated && forall l :: 0 <= l < |pr.chunks| ==> pr.chunks[l].task != t
  }

  ghost predicate AllUntouched(pr: Progress, pending: seq<SchedulableTask>) {
    forall t {:trigger Untouched(pr, t.id)} :: t in pending ==> Untouched(pr, t.id)
  }

  ghost predicate Inv(r: Request, s1: seq<LedgerSlot>, pr: Progress, pending: seq<SchedulableTask>) {
    && Tracks(s1, pr.slots, pr.chunks)
    && AllSolid(pr.chunks)
    && AllBounded(r, pr)
    && AllGateSafe(r, pr)
    && AllAfterOwnPrior(r, pr.chunks)
    && CompletionKnown(pr)
    && Ordered(r, pr.fully)
    && DistinctTasks(pending)
    && AllUntouched(pr, pending)
  }

  // ---------------------------------------------------------------- one attempt

  lemma {:induction false} LatestEndBounds(s: seq<TaskAllocation>)
    ensures LatestEnd(s).None? <==> s == []
    ensures forall j :: 0 <= j < |s| ==> s[j].end <= LatestEnd(s).value
    decreases |s|
  {
    if s != [] {
      LatestEndBounds(s[1..]);
      forall j | 0 <= j < |s|
        ensures s[j].end <= LatestEnd(s).value
      {
        assert j > 0 ==> s[j] == s[1..][j - 1];
      }
    }
  }

  lemma {:induction false} PriorOfMembers(prior: seq<TaskAllocation>, t: TaskId, a: TaskAllocation)
    ensures a in PriorOf(prior, t) <==> a in prior && a.task == t
    decreases |prior|
  {
    if prior != [] {
      PriorOfMembers(prior[1..], t, a);
      assert prior == [prior[0]] + prior[1..];
    }
  }

  lemma {:induction false} LatestCompletionBounds(m: map<TaskId, Instant>, ids: seq<TaskId>)
    ensures forall p :: p in ids && p in m ==>
              LatestCompletion(m, ids).Some? && m[p] <= LatestCompletion(m, ids).value
    decreases |ids|
  {
    if ids != [] {
      LatestCompletionBounds(m, ids[1..]);
      assert ids == [ids[0]] + ids[1..];
    }
  }

  /** Slots after the earliest start of a ready task end after everything its gates have. */
  lemma ReadyEndsAfter(r: Request, pr: Progress, t: SchedulableTask, x: LedgerSlot, p: TaskId)
    requires AllBounded(r, pr) && p in GatesOf(r, t.id) && p in pr.fully
    requires AllAfter([x], Later(t.startAfter, EarliestStart(r, pr, t)))
    ensures EndsAfter(r, pr.chunks, x, p)
  {
    assert Bounded(r, pr, p);
    LatestCompletionBounds(pr.completion, SortedIds(GatesOf(r, t.id)));
    assert p in SortedIds(GatesOf(r, t.id));
    assert x in [x];
  }

  ghost predicate IsMine(chunks: seq<Chunk>, t: TaskId) {
    forall l :: 0 <= l < |chunks| ==> chunks[l].task == t
  }

  /** Chunks of another task do not change what a task has. */
  lemma EndsAfterMore(r: Request, a: seq<Chunk>, b: seq<Chunk>, t: TaskId, x: LedgerSlot, p: TaskId)
    requires IsMine(b, t) && p != t && EndsAfter(r, a, x, p)
    ensures EndsAfter(r, a + b, x, p)
  {
  }

  lemma BoundedMore(r: Request, pr: Progress, q: Progress, b: seq<Chunk>, t: TaskId, p: TaskId)
    requires IsMine(b, t) && p != t && Bounded(r, pr, p)
    requires q.chunks == pr.chunks + b
    requires p in q.completion <==> p in pr.completion
    requires p in pr.completion ==> q.completion[p] == pr.completion[p]
    ensures Bounded(r, q, p)
  {
  }

  /** The completion of a task placed just now bounds its preallocated intervals and its new chunks. */
  lemma BoundedNow(r: Request, pr: Progress, q: Progress, b: seq<Chunk>, t: TaskId)
    requires Untouched(pr, t) && IsMine(b, t) && q.chunks == pr.chunks + b
    requires q.completion == Complete(pr.completion, t, CompletionOf(PriorOf(r.prior, t), AllocationsOf(b, r.pass)))
    requires t !in pr.completion
    ensures Bounded(r, q, t)
  {
    var all := PriorOf(r.prior, t) + AllocationsOf(b, r.pass);
    LatestEndBounds(all);
    forall j | 0 <= j < |r.prior| && r.prior[j].task == t
      ensures r.prior[j] in all
    {
      PriorOfMembers(r.prior, t, r.prior[j]);
    }
    forall l | 0 <= l < |q.chunks| && q.chunks[l].task == t
      ensures AllocationOf(q.chunks[l], r.pass) in all
    {
      assert l >= |pr.chunks|;
      assert q.chunks[l] == b[l - |pr.chunks|];
      assert AllocationsOf(b, r.pass)[l - |pr.chunks|] in all;
    }
  }

  /** The chunks an attempt places: of its task, solid, free slots of the ledger, after the earliest start. */
  lemma PlaceNowFacts(r: Request, pr: Progress, t: SchedulableTask)
    requires DistinctIds(pr.slots) && Positive(pr.slots)
    ensures var p := PlaceNow(r, pr, t); var earliest := Later(t.startAfter, EarliestStart(r, pr, t));
      && Sound(pr.slots, p, t, Required(r, t), earliest)
      && IsMine(p.chunks, t.id) && AllSolid(p.chunks)
      && forall k :: 0 <= k < |p.chunks| ==> AllAfter(p.chunks[k].slots, earliest)
  {
    var p := PlaceNow(r, pr, t);
    var earliest := Later(t.startAfter, EarliestStart(r, pr, t));
    BeginSound(pr.slots, t, Required(r, t), earliest);
    PlaceSound(pr.slots, Begin(pr.slots, [], Required(r, t)), t, Required(r, t), earliest);
    forall k | 0 <= k < |p.chunks|
      ensures ChunkOk(p.chunks[k], t, k, earliest)
    {
    }
  }

  /** The chunks of a ready task are safe with respect to its gates and its own preallocated intervals. */
  lemma NewChunkSafe(r: Request, pr: Progress, q: Progress, b: seq<Chunk>, t: SchedulableTask, k: int)
    requires AllBounded(r, pr) && IsReady(r, pr.fully, t) && Untouched(pr, t.id)
    requires IsMine(b, t.id) && 0 <= k < |b| && q.chunks == pr.chunks + b
    requires forall p :: p in pr.fully ==> p in q.fully
    requires AllAfter(b[k].slots, Later(t.startAfter, EarliestStart(r, pr, t)))
    ensures GateSafe(r, q, b[k]) && AfterOwnPrior(r, b[k])
  {
    var c := b[k];
    forall p | p in GatesOf(r, c.task)
      ensures p in q.fully && AllEndAfter(r, q.chunks, c.slots, p)
    {
      assert p in pr.fully;
      forall x | x in c.slots
        ensures EndsAfter(r, q.chunks, x, p)
      {
        ReadyEndsAfter(r, pr, t, x, p);
        EndsAfterMore(r, pr.chunks, b, t.id, x, p);
      }
    }
    forall j, x | 0 <= j < |r.prior| && r.prior[j].task == c.task && x in c.slots
      ensures x.end > r.prior[j].end
    {
      PriorOfMembers(r.prior, t.id, r.prior[j]);
      LatestEndBounds(PriorOf(r.prior, t.id));
    }
  }

  lemma OldChunkSafe(r: Request, pr: Progress, q: Progress, b: seq<Chunk>, t: TaskId, k: int)
    requires AllGateSafe(r, pr) && Untouched(pr, t) && IsMine(b, t)
    requires 0 <= k < |pr.chunks| && q.chunks == pr.chunks + b
    requires forall p :: p in pr.fully ==> p in q.fully
    ensures GateSafe(r, q, pr.chunks[k])
  {
    var c := pr.chunks[k];
    assert GateSafe(r, pr, pr.chunks[k]);
    forall p | p in GatesOf(r, c.task)
      ensures p in q.fully && AllEndAfter(r, q.chunks, c.slots, p)
    {
      assert p in pr.fully;
      forall x | x in c.slots
        ensures EndsAfter(r, q.chunks, x, p)
      {
        assert AllEndAfter(r, pr.chunks, c.slots, p);
        EndsAfterMore(r, pr.chunks, b, t, x, p);
      }
    }
  }

  /** `q` follows `pr` by giving task `t` the chunks `b`, and by settling `t` one way or the other. */
  ghost predicate Follows(r: Request, pr: Progress, q: Progress, b: seq<Chunk>, t: SchedulableTask) {
    && q.chunks == pr.chunks + b && IsMine(b, t.id) && AllSolid(b)
    && Tracks(pr.slots, q.slots, b)
    && (forall k :: 0 <= k < |b| ==> AllAfter(b[k].slots, Later(t.startAfter, EarliestStart(r, pr, t))))
    && ((q.fully == pr.fully && q.completion == pr.completion && q.unallocated == pr.unallocated + {t.id}) ||
        (q.fully == pr.fully + [t.id] && q.unallocated == pr.unallocated &&
         q.completion == Complete(pr.completion, t.id, CompletionOf(PriorOf(r.prior, t.id), AllocationsOf(b, r.pass)))))
  }

  lemma AttemptFollows(r: Request, pr: Progress, t: SchedulableTask) returns (b: seq<Chunk>)
    requires DistinctIds(pr.slots) && Positive(pr.slots)
    ensures Follows(r, pr, Attempt(r, pr, t), b, t)
    ensures b == if Required(r, t) <= 0 then [] else PlaceNow(r, pr, t).chunks
  {
    if Required(r, t) <= 0 {
      b := [];
      NothingTracked(pr.slots);
      assert PriorOf(r.prior, t.id) + AllocationsOf(b, r.pass) == PriorOf(r.prior, t.id);
    } else {
      PlaceNowFacts(r, pr, t);
      b := PlaceNow(r, pr, t).chunks;
    }
  }

  lemma FollowsBounded(r: Request, pr: Progress, q: Progress, b: seq<Chunk>, t: SchedulableTask)
    requires Follows(r, pr, q, b, t) && AllBounded(r, pr) && CompletionKnown(pr) && Untouched(pr, t.id)
    ensures AllBounded(r, q) && CompletionKnown(q)
  {
    forall p | p in q.fully
      ensures Bounded(r, q, p)
    {
      if p == t.id {
        BoundedNow(r, pr, q, b, t.id);
      } else {
        assert Bounded(r, pr, p);
        BoundedMore(r, pr, q, b, t.id, p);
      }
    }
  }

  lemma FollowsSafe(r: Request, pr: Progress, q: Progress, b: seq<Chunk>, t: SchedulableTask)
    requires Follows(r, pr, q, b, t) && AllBounded(r, pr) && AllGateSafe(r, pr) && AllAfterOwnPrior(r, pr.chunks)
    requires Untouched(pr, t.id) && IsReady(r, pr.fully, t) && AllSolid(pr.chunks)
    ensures AllGateSafe(r, q) && AllAfterOwnPrior(r, q.chunks) && AllSolid(q.chunks)
  {
    forall k | 0 <= k < |q.chunks|
      ensures GateSafe(r, q, q.chunks[k]) && AfterOwnPrior(r, q.chunks[k]) && Solid(q.chunks[k])
    {
      if k < |pr.chunks| {
        assert Solid(pr.chunks[k]) && AfterOwnPrior(r, pr.chunks[k]);
        OldChunkSafe(r, pr, q, b, t.id, k);
      } else {
        assert Solid(b[k - |pr.chunks|]);
        NewChunkSafe(r, pr, q, b, t, k - |pr.chunks|);
      }
    }
  }

  lemma FollowsOrdered(r: Request, pr: Progress, q: Progress, b: seq<Chunk>, t: SchedulableTask)
    requires Follows(r, pr, q, b, t) && Ordered(r, pr.fully) && IsReady(r, pr.fully, t)
    ensures Ordered(r, q.fully)
  {
    forall i, p | 0 <= i < |q.fully| && p in GatesOf(r, q.fully[i])
      ensures p in q.fully[..i]
    {
      if i < |pr.fully| {
        assert q.fully[..i] == pr.fully[..i];
      } else {
        assert q.fully[..i] == pr.fully;
      }
    }
  }

  function Without(pending: seq<SchedulableTask>, i: nat): seq<SchedulableTask>
    requires i < |pending|
  {
    pending[..i] + pending[i + 1..]
  }

  /** One turn of the scheduling loop. */
  lemma ScheduleUnfolds(r: Request, pr: Progress, pending: seq<SchedulableTask>, i: nat)
    requires i < |pending| && FirstReady(r, pr.fully, pending) == i
    ensures ScheduleFrom(r, pr, pending) == ScheduleFrom(r, Attempt(r, pr, pending[i]), Without(pending, i))
  {
  }

  lemma FollowsUntouched(r: Request, pr: Progress, q: Progress, b: seq<Chunk>, pending: seq<SchedulableTask>, i: nat)
    requires i < |pending| && Follows(r, pr, q, b, pending[i])
    requires DistinctTasks(pending) && AllUntouched(pr, pending)
    ensures DistinctTasks(Without(pending, i)) && AllUntouched(q, Without(pending, i))
  {
    var rest := Without(pending, i);
    forall u | u in rest
      ensures Untouched(q, u.id)
    {
      var j :| 0 <= j < |rest| && rest[j] == u;
      var m := if j < i then j else j + 1;
      assert pending[m] == u && m != i;
      assert Untouched(pr, u.id);
    }
  }

  lemma AttemptInv(r: Request, s1: seq<LedgerSlot>, pr: Progress, pending: seq<SchedulableTask>, i: nat)
    requires DistinctIds(s1) && Positive(s1) && Inv(r, s1, pr, pending)
    requires i < |pending| && IsReady(r, pr.fully, pending[i])
    ensures Inv(r, s1, Attempt(r, pr, pending[i]), Without(pending, i))
  {
    var t := pending[i];
    ShapeKeepsIds(s1, pr.slots, pr.chunks);
    ShapeKeepsPositive(s1, pr.slots, pr.chunks);
    var b := AttemptFollows(r, pr, t);
    var q := Attempt(r, pr, t);
    assert Untouched(pr, t.id);
    TracksJoin(s1, pr.slots, q.slots, pr.chunks, b);
    FollowsBounded(r, pr, q, b, t);
    FollowsSafe(r, pr, q, b, t);
    FollowsOrdered(r, pr, q, b, t);
    FollowsUntouched(r, pr, q, b, pending, i);
  }

  /** The invariant holds of whatever the loop ends with. */
  lemma {:induction false} ScheduleFromInv(r: Request, s1: seq<LedgerSlot>, pr: Progress,
                                           pending: seq<SchedulableTask>)
    requires DistinctIds(s1) && Positive(s1) && Inv(r, s1, pr, pending)
    ensures Inv(r, s1, ScheduleFrom(r, pr, pending), [])
    decreases |pending|
  {
    if pending != [] {
      var i := FirstReady(r, pr.fully, pending);
      if i < |pending| {
        AttemptInv(r, s1, pr, pending, i);
        ScheduleFromInv(r, s1, Attempt(r, pr, pending[i]), Without(pending, i));
      } else {
        GiveUpInv(r, s1, pr, pending);
      }
    }
  }

  lemma GiveUpInv(r: Request, s1: seq<LedgerSlot>, pr: Progress, pending: seq<SchedulableTask>)
    requires Inv(r, s1, pr, pending)
    ensures Inv(r, s1, pr.(unallocated := pr.unallocated + TaskIds(pending)), [])
  {
    var q := pr.(unallocated := pr.unallocated + TaskIds(pending));
    forall p | p in q.fully
      ensures Bounded(r, q, p)
    {
      assert Bounded(r, pr, p);
    }
    forall k | 0 <= k < |q.chunks|
      ensures GateSafe(r, q, q.chunks[k])
    {
      assert GateSafe(r, pr, pr.chunks[k]);
    }
  }
}
