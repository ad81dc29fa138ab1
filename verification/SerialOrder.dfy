/** Priority and completeness of every schedule: what each task got, and that later tasks never displace earlier ones. */
module SerialOrder {
  import opened Domain
  import opened Sorting
  import opened Priority
  import opened Ledger
  import opened Placement
  import opened Ownership
  import opened Conservation
  import opened PlacementFacts
  import opened SerialSchedule
  import opened SerialFacts
  import opened SerialTheorems

  // ---------------------------------------------------------------- what one task got

  /**
   The state of task `t`: its chunks are well formed and well sized for its demand, it counts as fully placed exactly
   when its gates were and its chunks cover the demand, and it is reported unallocated otherwise.
   */
  ghost predicate Reports(r: Request, pr: Progress, t: SchedulableTask) {
    var own := OfTask(pr.chunks, t.id);
    && ChunksOk(own, t, t.startAfter)
    && Sized(own, t, Required(r, t) - ChunkMinutes(own))
    && (t.id in pr.fully <==> IsReady(r, pr.fully, t) && ChunkMinutes(own) >= Required(r, t))
    && (t.id in pr.unallocated <==> t.id !in pr.fully)
    && (!IsReady(r, pr.fully, t) ==> own == [])
  }

  lemma {:induction false} OfTaskJoin(a: seq<Chunk>, b: seq<Chunk>, t: TaskId)
    ensures OfTask(a + b, t) == OfTask(a, t) + OfTask(b, t)
    decreases |a|
  {
    if a == [] {
      assert a + b == b;
    } else {
      OfTaskJoin(a[1..], b, t);
      assert (a + b)[1..] == a[1..] + b;
    }
  }

  lemma {:induction false} OfTaskOthers(b: seq<Chunk>, u: TaskId, t: TaskId)
    requires IsMine(b, u)
    ensures OfTask(b, t) == if t == u then b else []
    decreases |b|
  {
    if b != [] {
      OfTaskOthers(b[1..], u, t);
    }
  }

  lemma {:induction false} OfTaskNone(chunks: seq<Chunk>, t: TaskId)
    requires forall l :: 0 <= l < |chunks| ==> chunks[l].task != t
    ensures OfTask(chunks, t) == []
    decreases |chunks|
  {
    if chunks != [] {
      OfTaskNone(chunks[1..], t);
    }
  }

  /** Later is at least both. */
  lemma AfterLater(xs: seq<LedgerSlot>, a: Option<Instant>, b: Option<Instant>)
    requires AllAfter(xs, Later(a, b))
    ensures AllAfter(xs, a)
  {
  }

  lemma AllocationsMine(b: seq<Chunk>, r: Request)
    requires AllSolid(b)
    ensures AllocationMinutes(AllocationsOf(b, r.pass)) == ChunkMinutes(b)
  {
    ExtentIsMinutes(b, r.pass);
  }

  /** The chunks `b` are all that task `t` has, well formed and well sized for its demand. */
  ghost predicate OwnChunks(r: Request, t: SchedulableTask, b: seq<Chunk>) {
    && ChunksOk(b, t, t.startAfter)
    && Sized(b, t, Required(r, t) - ChunkMinutes(b))
    && AllocationMinutes(AllocationsOf(b, r.pass)) == ChunkMinutes(b)
  }

  lemma AttemptOwn(r: Request, pr: Progress, t: SchedulableTask)
    requires DistinctIds(pr.slots) && Positive(pr.slots)
    ensures OwnChunks(r, t, PlaceNow(r, pr, t).chunks) && IsMine(PlaceNow(r, pr, t).chunks, t.id)
  {
    var b := PlaceNow(r, pr, t).chunks;
    PlaceNowFacts(r, pr, t);
    AllocationsMine(b, r);
    forall k | 0 <= k < |b|
      ensures ChunkOk(b[k], t, k, t.startAfter)
    {
      assert ChunkOk(b[k], t, k, Later(t.startAfter, EarliestStart(r, pr, t)));
      AfterLater(b[k].slots, t.startAfter, EarliestStart(r, pr, t));
    }
  }

  /** The only chunks of an untouched task are those just appended. */
  lemma OnlyNow(pr: Progress, b: seq<Chunk>, t: TaskId)
    requires Untouched(pr, t) && IsMine(b, t)
    ensures OfTask(pr.chunks + b, t) == b
  {
    OfTaskNone(pr.chunks, t);
    OfTaskJoin(pr.chunks, b, t);
    OfTaskOthers(b, t, t);
  }

  /** Right after its attempt a task's state is as reported. */
  lemma AttemptReports(r: Request, pr: Progress, t: SchedulableTask)
    requires DistinctIds(pr.slots) && Positive(pr.slots) && IsReady(r, pr.fully, t) && Untouched(pr, t.id)
    ensures Reports(r, Attempt(r, pr, t), t)
  {
    if Required(r, t) <= 0 {
      OnlyNow(pr, [], t.id);
      assert pr.chunks + [] == pr.chunks;
    } else {
      AttemptOwn(r, pr, t);
      OnlyNow(pr, PlaceNow(r, pr, t).chunks, t.id);
    }
  }

  ghost predicate SettledTask(r: Request, pr: Progress, t: SchedulableTask) {
    Reports(r, pr, t) && IsReady(r, pr.fully, t)
  }

  /** Attempting another task changes nothing about a settled one. */
  lemma FollowsKeepsReport(r: Request, pr: Progress, q: Progress, b: seq<Chunk>, u: SchedulableTask,
                           t: SchedulableTask)
    requires Follows(r, pr, q, b, u) && SettledTask(r, pr, t) && u.id != t.id
    ensures SettledTask(r, q, t)
  {
    SameOfOthers(pr.chunks, b, u.id, t.id);
  }

  lemma SameOfOthers(a: seq<Chunk>, b: seq<Chunk>, u: TaskId, t: TaskId)
    requires IsMine(b, u) && u != t
    ensures OfTask(a + b, t) == OfTask(a, t)
  {
    OfTaskJoin(a, b, t);
    OfTaskOthers(b, u, t);
    assert OfTask(a, t) + [] == OfTask(a, t);
  }

  lemma AttemptKeepsReport(r: Request, pr: Progress, u: SchedulableTask, t: SchedulableTask)
    requires DistinctIds(pr.slots) && Positive(pr.slots)
    requires SettledTask(r, pr, t) && u.id != t.id
    ensures SettledTask(r, Attempt(r, pr, u), t)
  {
    var b := AttemptFollows(r, pr, u);
    FollowsKeepsReport(r, pr, Attempt(r, pr, u), b, u, t);
  }

  ghost predicate Elsewhere(pending: seq<SchedulableTask>, t: SchedulableTask) {
    forall u :: u in pending ==> u.id != t.id
  }

  lemma {:induction false} ScheduleKeepsReport(r: Request, s1: seq<LedgerSlot>, pr: Progress,
                                               pending: seq<SchedulableTask>, t: SchedulableTask)
    requires DistinctIds(s1) && Positive(s1) && Inv(r, s1, pr, pending)
    requires SettledTask(r, pr, t) && Elsewhere(pending, t)
    ensures Reports(r, ScheduleFrom(r, pr, pending), t)
    decreases |pending|
  {
    if pending != [] {
      var i := FirstReady(r, pr.fully, pending);
      if i < |pending| {
        ShapeKeepsIds(s1, pr.slots, pr.chunks);
        ShapeKeepsPositive(s1, pr.slots, pr.chunks);
        AttemptInv(r, s1, pr, pending, i);
        assert pending[i] in pending;
        AttemptKeepsReport(r, pr, pending[i], t);
        WithoutMembers(pending, i);
        ScheduleKeepsReport(r, s1, Attempt(r, pr, pending[i]), Without(pending, i), t);
      } else {
        GiveUpKeepsReport(r, pr, pending, t);
      }
    }
  }

  lemma GiveUpKeepsReport(r: Request, pr: Progress, pending: seq<SchedulableTask>, t: SchedulableTask)
    requires Reports(r, pr, t) && Elsewhere(pending, t)
    ensures Reports(r, pr.(unallocated := pr.unallocated + TaskIds(pending)), t)
  {
  }

  lemma WithoutMembers(pending: seq<SchedulableTask>, i: nat)
    requires i < |pending|
    ensures forall u :: u in Without(pending, i) ==> u in pending
    ensures forall u :: u in pending ==> u == pending[i] || u in Without(pending, i)
  {
    var rest := Without(pending, i);
    forall u | u in pending
      ensures u == pending[i] || u in rest
    {
      var j :| 0 <= j < |pending| && pending[j] == u;
      if j < i {
        assert rest[j] == u;
      } else if j > i {
        assert rest[j - 1] == u;
      }
    }
  }

  lemma DistinctWithout(pending: seq<SchedulableTask>, i: nat)
    requires i < |pending| && DistinctTasks(pending)
    ensures forall u :: u in Without(pending, i) ==> u.id != pending[i].id
  {
    var rest := Without(pending, i);
    forall u | u in rest
      ensures u.id != pending[i].id
    {
      var j :| 0 <= j < |rest| && rest[j] == u;
      assert rest[j] == pending[if j < i then j else j + 1];
    }
  }

  /** Attempting the first ready task settles it and leaves the others pending. */
  lemma AttemptFirst(r: Request, s1: seq<LedgerSlot>, pr: Progress, pending: seq<SchedulableTask>, i: nat)
    requires DistinctIds(s1) && Positive(s1) && Inv(r, s1, pr, pending)
    requires i < |pending| && IsReady(r, pr.fully, pending[i])
    ensures Inv(r, s1, Attempt(r, pr, pending[i]), Without(pending, i))
    ensures SettledTask(r, Attempt(r, pr, pending[i]), pending[i]) && Elsewhere(Without(pending, i), pending[i])
  {
    ShapeKeepsIds(s1, pr.slots, pr.chunks);
    ShapeKeepsPositive(s1, pr.slots, pr.chunks);
    AttemptInv(r, s1, pr, pending, i);
    assert pending[i] in pending && Untouched(pr, pending[i].id);
    AttemptReports(r, pr, pending[i]);
    AttemptStaysReady(r, pr, pending[i]);
    DistinctWithout(pending, i);
  }

  /** Every pending task ends up as reported. */
  lemma {:induction false} ScheduleFromReports(r: Request, s1: seq<LedgerSlot>, pr: Progress,
                                               pending: seq<SchedulableTask>, t: SchedulableTask)
    requires DistinctIds(s1) && Positive(s1) && Inv(r, s1, pr, pending) && t in pending
    ensures Reports(r, ScheduleFrom(r, pr, pending), t)
    decreases |pending|
  {
    var i := FirstReady(r, pr.fully, pending);
    if i < |pending| {
      ScheduleUnfolds(r, pr, pending, i);
      AttemptFirst(r, s1, pr, pending, i);
      WithoutMembers(pending, i);
      var q := Attempt(r, pr, pending[i]);
      if t == pending[i] {
        ScheduleKeepsReport(r, s1, q, Without(pending, i), t);
      } else {
        ScheduleFromReports(r, s1, q, Without(pending, i), t);
      }
    } else {
      GiveUpReports(r, pr, pending, t);
    }
  }

  lemma AttemptStaysReady(r: Request, pr: Progress, t: SchedulableTask)
    requires IsReady(r, pr.fully, t)
    ensures IsReady(r, Attempt(r, pr, t).fully, t)
  {
  }

  lemma GiveUpReports(r: Request, pr: Progress, pending: seq<SchedulableTask>, t: SchedulableTask)
    requires t in pending && AllUntouched(pr, pending) && !IsReady(r, pr.fully, t)
    ensures Reports(r, pr.(unallocated := pr.unallocated + TaskIds(pending)), t)
  {
    assert Untouched(pr, t.id);
    OfTaskNone(pr.chunks, t.id);
  }

  /** The account of every task in a finished schedule. */
  lemma EveryTaskReported(r: Request, tasks: seq<SchedulableTask>, offered: seq<SlotLike>, t: SchedulableTask)
    requires DistinctTasks(tasks) && Offerable(offered) && t in tasks
    ensures Reports(r, Schedule(r, tasks, offered), t)
  {
    SortDistinct(tasks);
    ReservedFacts(r, offered);
    OpeningInv(r, offered, Sort(KeyLeq, tasks));
    ScheduleFromReports(r, Reserved(r, offered), Opening(r, offered), Sort(KeyLeq, tasks), t);
  }

  // ---------------------------------------------------------------- low-priority work

  /** Every task of `high` is strictly before every task of `low` in key order. */
  ghost predicate Above(high: seq<SchedulableTask>, low: seq<SchedulableTask>) {
    forall h, l :: h in high && l in low ==> KeyLeq(h, l) && !KeyLeq(l, h)
  }

  /** No task of `low` gates a task of `high`. */
  ghost predicate GatesNone(r: Request, high: seq<SchedulableTask>, low: seq<SchedulableTask>) {
    forall h, l :: h in high && l in low ==> l.id !in GatesOf(r, h.id)
  }

  /** `full` and `alone` agree on everything but the tasks of `low`, whose chunks `extra` come last. */
  ghost predicate Undisturbed(alone: Progress, full: Progress, extra: seq<Chunk>, low: seq<SchedulableTask>) {
    && full.chunks == alone.chunks + extra
    && (forall k :: 0 <= k < |extra| ==> extra[k].task in TaskIds(low))
    && (forall x :: x !in TaskIds(low) ==>
          (x in full.unallocated <==> x in alone.unallocated) && (x in full.fully <==> x in alone.fully))
  }

  lemma FirstReadyIs(r: Request, fully: seq<TaskId>, pending: seq<SchedulableTask>, i: nat)
    requires i <= |pending| && forall j :: 0 <= j < i ==> !IsReady(r, fully, pending[j])
    requires i < |pending| ==> IsReady(r, fully, pending[i])
    ensures FirstReady(r, fully, pending) == i
  {
  }

  ghost predicate NoneReady(r: Request, fully: seq<TaskId>, tasks: seq<SchedulableTask>) {
    forall j :: 0 <= j < |tasks| ==> !IsReady(r, fully, tasks[j])
  }

  /** Placing a task that gates none of `high` opens none of their gates. */
  lemma StillNoneReady(r: Request, pr: Progress, q: Progress, b: seq<Chunk>, high: seq<SchedulableTask>,
                       low: seq<SchedulableTask>, l: SchedulableTask)
    requires Follows(r, pr, q, b, l) && l in low && GatesNone(r, high, low) && NoneReady(r, pr.fully, high)
    ensures NoneReady(r, q.fully, high)
  {
    forall j | 0 <= j < |high|
      ensures !IsReady(r, q.fully, high[j])
    {
      assert high[j] in high;
      assert !IsReady(r, pr.fully, high[j]);
      var p :| p in GatesOf(r, high[j].id) && p !in pr.fully;
      assert p !in q.fully;
    }
  }

  lemma WithoutLow(high: seq<SchedulableTask>, low: seq<SchedulableTask>, k: nat)
    requires k < |low|
    ensures Without(high + low, |high| + k) == high + Without(low, k)
    ensures (high + low)[|high| + k] == low[k]
  {
  }

  lemma WithoutHigh(high: seq<SchedulableTask>, low: seq<SchedulableTask>, i: nat)
    requires i < |high|
    ensures Without(high + low, i) == Without(high, i) + low
    ensures (high + low)[i] == high[i]
  {
  }

  lemma TaskIdsWithout(low: seq<SchedulableTask>, k: nat)
    requires k < |low|
    ensures TaskIds(Without(low, k)) <= TaskIds(low) && low[k].id in TaskIds(low)
  {
    WithoutMembers(low, k);
    assert low[k] in low;
  }

  lemma AttemptInvFollows(r: Request, s1: seq<LedgerSlot>, pr: Progress, pending: seq<SchedulableTask>, i: nat)
    returns (b: seq<Chunk>)
    requires DistinctIds(s1) && Positive(s1) && Inv(r, s1, pr, pending)
    requires i < |pending| && IsReady(r, pr.fully, pending[i])
    ensures Inv(r, s1, Attempt(r, pr, pending[i]), Without(pending, i))
    ensures Follows(r, pr, Attempt(r, pr, pending[i]), b, pending[i])
  {
    ShapeKeepsIds(s1, pr.slots, pr.chunks);
    ShapeKeepsPositive(s1, pr.slots, pr.chunks);
    AttemptInv(r, s1, pr, pending, i);
    b := AttemptFollows(r, pr, pending[i]);
  }

  lemma NextIsLow(r: Request, fully: seq<TaskId>, high: seq<SchedulableTask>, low: seq<SchedulableTask>) returns (k: nat)
    requires NoneReady(r, fully, high) && FirstReady(r, fully, high + low) < |high + low|
    ensures k < |low| && FirstReady(r, fully, high + low) == |high| + k && (high + low)[|high| + k] == low[k]
  {
    var i := FirstReady(r, fully, high + low);
    assert forall j :: 0 <= j < |high| ==> (high + low)[j] == high[j] && !IsReady(r, fully, high[j]);
    k := i - |high|;
  }

  /** With none of `high` ready, the next task placed is one of `low`. */
  lemma StuckNext(r: Request, s1: seq<LedgerSlot>, pr: Progress, high: seq<SchedulableTask>, low: seq<SchedulableTask>)
    returns (k: nat, b: seq<Chunk>)
    requires DistinctIds(s1) && Positive(s1) && Inv(r, s1, pr, high + low)
    requires GatesNone(r, high, low) && NoneReady(r, pr.fully, high)
    requires FirstReady(r, pr.fully, high + low) < |high + low|
    ensures k < |low| && Follows(r, pr, Attempt(r, pr, low[k]), b, low[k])
    ensures Inv(r, s1, Attempt(r, pr, low[k]), high + Without(low, k))
    ensures ScheduleFrom(r, pr, high + low) == ScheduleFrom(r, Attempt(r, pr, low[k]), high + Without(low, k))
  {
    k := NextIsLow(r, pr.fully, high, low);
    WithoutLow(high, low, k);
    b := NextTurn(r, s1, pr, high + low, |high| + k, low[k], high + Without(low, k));
  }

  /** One turn of a run, for the task it tries and the tasks it leaves. */
  lemma NextTurn(r: Request, s1: seq<LedgerSlot>, pr: Progress, pending: seq<SchedulableTask>, i: nat,
                 t: SchedulableTask, rest: seq<SchedulableTask>)
    returns (b: seq<Chunk>)
    requires DistinctIds(s1) && Positive(s1) && Inv(r, s1, pr, pending)
    requires i < |pending| && FirstReady(r, pr.fully, pending) == i && pending[i] == t && Without(pending, i) == rest
    ensures Follows(r, pr, Attempt(r, pr, t), b, t) && Inv(r, s1, Attempt(r, pr, t), rest)
    ensures ScheduleFrom(r, pr, pending) == ScheduleFrom(r, Attempt(r, pr, t), rest)
  {
    ScheduleUnfolds(r, pr, pending, i);
    b := AttemptInvFollows(r, s1, pr, pending, i);
  }

  /** Once no task of `high` is ready, only tasks of `low` are placed, and all of `high` is given up. */
  lemma {:induction false} Stuck(r: Request, s1: seq<LedgerSlot>, pr: Progress, high: seq<SchedulableTask>,
                                 low: seq<SchedulableTask>)
    returns (extra: seq<Chunk>)
    requires DistinctIds(s1) && Positive(s1) && Inv(r, s1, pr, high + low)
    requires GatesNone(r, high, low) && NoneReady(r, pr.fully, high)
    ensures Undisturbed(pr.(unallocated := pr.unallocated + TaskIds(high)), ScheduleFrom(r, pr, high + low), extra, low)
    decreases |low|
  {
    if FirstReady(r, pr.fully, high + low) == |high + low| {
      extra := [];
      StuckEnd(r, pr, high, low);
    } else {
      var k, b := StuckNext(r, s1, pr, high, low);
      var q := Attempt(r, pr, low[k]);
      assert low[k] in low;
      StillNoneReady(r, pr, q, b, high, low, low[k]);
      WithoutMembers(low, k);
      var more := Stuck(r, s1, q, high, Without(low, k));
      extra := b + more;
      StuckStep(r, pr, q, b, more, ScheduleFrom(r, q, high + Without(low, k)), high, low, k);
    }
  }

  lemma StuckEnd(r: Request, pr: Progress, high: seq<SchedulableTask>, low: seq<SchedulableTask>)
    requires FirstReady(r, pr.fully, high + low) == |high + low|
    ensures Undisturbed(pr.(unallocated := pr.unallocated + TaskIds(high)), ScheduleFrom(r, pr, high + low), [], low)
  {
    assert TaskIds(high + low) == TaskIds(high) + TaskIds(low) by {
      forall t | t in high + low
        ensures t in high || t in low
      {
      }
      forall t | t in high || t in low
        ensures t in high + low
      {
      }
    }
    if high + low == [] {
      assert TaskIds(high) == {};
    }
    assert pr.chunks + [] == pr.chunks;
  }

  lemma StuckStep(r: Request, pr: Progress, q: Progress, b: seq<Chunk>, more: seq<Chunk>, full: Progress,
                  high: seq<SchedulableTask>, low: seq<SchedulableTask>, k: nat)
    requires k < |low| && Follows(r, pr, q, b, low[k])
    requires Undisturbed(q.(unallocated := q.unallocated + TaskIds(high)), full, more, Without(low, k))
    ensures Undisturbed(pr.(unallocated := pr.unallocated + TaskIds(high)), full, b + more, low)
  {
    TaskIdsWithout(low, k);
    assert pr.chunks + b + more == pr.chunks + (b + more);
  }

  /** A run over `high` and then `low` treats `high` exactly as a run over `high` alone. */
  lemma {:induction false} LowComesAfter(r: Request, s1: seq<LedgerSlot>, pr: Progress, high: seq<SchedulableTask>,
                                         low: seq<SchedulableTask>)
    returns (extra: seq<Chunk>)
    requires DistinctIds(s1) && Positive(s1) && Inv(r, s1, pr, high + low)
    requires GatesNone(r, high, low)
    ensures Undisturbed(ScheduleFrom(r, pr, high), ScheduleFrom(r, pr, high + low), extra, low)
    decreases |high|
  {
    var i := FirstReady(r, pr.fully, high);
    if i < |high| {
      WithoutHigh(high, low, i);
      forall j | 0 <= j < i
        ensures !IsReady(r, pr.fully, (high + low)[j])
      {
        assert (high + low)[j] == high[j];
      }
      FirstReadyIs(r, pr.fully, high + low, i);
      AttemptInv(r, s1, pr, high + low, i);
      WithoutMembers(high, i);
      extra := LowComesAfter(r, s1, Attempt(r, pr, high[i]), Without(high, i), low);
    } else {
      extra := Stuck(r, s1, pr, high, low);
      if high == [] {
        assert TaskIds(high) == {};
        assert pr.unallocated + {} == pr.unallocated;
      }
    }
  }

  lemma SortSplits(high: seq<SchedulableTask>, low: seq<SchedulableTask>)
    requires DistinctTasks(high + low) && Above(high, low)
    ensures Sort(KeyLeq, high + low) == Sort(KeyLeq, high) + Sort(KeyLeq, low)
  {
    var both := Sort(KeyLeq, high) + Sort(KeyLeq, low);
    KeyIsTotalPreorder();
    SortSorts(KeyLeq, high + low);
    SortSorts(KeyLeq, high);
    SortSorts(KeyLeq, low);
    SamePermutation(high, Sort(KeyLeq, high));
    SamePermutation(low, Sort(KeyLeq, low));
    assert multiset(both) == multiset(high + low);
    assert SortedBy(KeyLeq, both) by {
      forall i, j | 0 <= i < j < |both|
        ensures KeyLeq(both[i], both[j])
      {
        SplitSorted(high, low, i, j);
      }
    }
    SamePermutation(high + low, Sort(KeyLeq, high + low));
    forall s, t | s in Sort(KeyLeq, high + low) && t in Sort(KeyLeq, high + low) && KeyLeq(s, t) && KeyLeq(t, s)
      ensures s == t
    {
      EqualKeysEqualIds(s, t);
      assert s in high + low && t in high + low;
    }
    SortedUnique(KeyLeq, Sort(KeyLeq, high + low), both);
  }

  lemma SplitSorted(high: seq<SchedulableTask>, low: seq<SchedulableTask>, i: int, j: int)
    requires TotalPreorder(KeyLeq) && Above(high, low)
    requires SortedBy(KeyLeq, Sort(KeyLeq, high)) && SortedBy(KeyLeq, Sort(KeyLeq, low))
    requires forall x :: x in high <==> x in Sort(KeyLeq, high)
    requires forall x :: x in low <==> x in Sort(KeyLeq, low)
    requires 0 <= i < j < |Sort(KeyLeq, high) + Sort(KeyLeq, low)|
    ensures KeyLeq((Sort(KeyLeq, high) + Sort(KeyLeq, low))[i], (Sort(KeyLeq, high) + Sort(KeyLeq, low))[j])
  {
    var a, b := Sort(KeyLeq, high), Sort(KeyLeq, low);
    if j < |a| {
      assert KeyLeq(a[i], a[j]);
    } else if i >= |a| {
      assert KeyLeq(b[i - |a|], b[j - |a|]);
    } else {
      assert a[i] in a && b[j - |a|] in b;
    }
  }

  /**
   Adding tasks that come after all others and gate none of them leaves every other task's chunks, and whether it was
   fully placed or reported unallocated, exactly as without them.
   */
  lemma LowPriorityNeverDisplaces(r: Request, high: seq<SchedulableTask>, low: seq<SchedulableTask>,
                                  offered: seq<SlotLike>)
    returns (extra: seq<Chunk>)
    requires DistinctTasks(high + low) && Offerable(offered)
    requires Above(high, low) && GatesNone(r, high, low)
    ensures Undisturbed(Schedule(r, high, offered), Schedule(r, high + low, offered), extra, low)
  {
    var h, l := Sort(KeyLeq, high), Sort(KeyLeq, low);
    SortSplits(high, low);
    SortDistinct(high + low);
    DistinctParts(high, low);
    SortDistinct(high);
    SortDistinct(low);
    ReservedFacts(r, offered);
    OpeningInv(r, offered, h + l);
    extra := LowComesAfter(r, Reserved(r, offered), Opening(r, offered), h, l);
    assert TaskIds(l) == TaskIds(low);
  }

  lemma DistinctParts(high: seq<SchedulableTask>, low: seq<SchedulableTask>)
    requires DistinctTasks(high + low)
    ensures DistinctTasks(high) && DistinctTasks(low)
  {
    forall i, j | 0 <= i < j < |high|
      ensures high[i].id != high[j].id
    {
      assert (high + low)[i] == high[i] && (high + low)[j] == high[j];
    }
    forall i, j | 0 <= i < j < |low|
      ensures low[i].id != low[j].id
    {
      assert (high + low)[|high| + i] == low[i] && (high + low)[|high| + j] == low[j];
    }
  }
}
