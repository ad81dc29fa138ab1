/** Safety of every schedule: nothing is double-booked, gates are respected, cycles stay empty, minutes are conserved. */
module SerialTheorems {
  import opened Domain
  import opened Sorting
  import opened Reachability
  import opened Priority
  import opened Ledger
  import opened Placement
  import opened Ownership
  import opened Conservation
  import opened PlacementFacts
  import opened SerialSchedule
  import opened SerialFacts

  // ---------------------------------------------------------------- the ledger a pass starts from

  /** Offered slots have distinct ids and last at least a minute. */
  ghost predicate Offerable(offered: seq<SlotLike>) {
    && (forall i, j :: 0 <= i < j < |offered| ==> offered[i].id != offered[j].id)
    && (forall i :: 0 <= i < |offered| ==> offered[i].start < offered[i].end)
  }

  ghost predicate SlotsApart(a: SlotLike, b: SlotLike) {
    a.end <= b.start || b.end <= a.start
  }

  /** No two offered slots overlap, as with disjoint availability windows. */
  ghost predicate OfferedApart(offered: seq<SlotLike>) {
    forall i, j :: 0 <= i < j < |offered| ==> SlotsApart(offered[i], offered[j])
  }

  /** Ledger slots come one after the other in time. */
  ghost predicate Separate(s: seq<LedgerSlot>) {
    forall i, j :: 0 <= i < j < |s| ==> s[i].end <= s[j].start
  }

  lemma StartIsTotalPreorder()
    ensures TotalPreorder(StartLeq)
  {
  }

  lemma {:induction false} DistinctByCount(a: seq<SlotLike>)
    requires forall i, j :: 0 <= i < j < |a| ==> a[i] != a[j]
    ensures forall x :: multiset(a)[x] <= 1
    decreases |a|
  {
    if a != [] {
      DistinctByCount(a[1..]);
      assert a == [a[0]] + a[1..];
      assert a[0] !in a[1..];
      assert multiset(a) == multiset{a[0]} + multiset(a[1..]);
    }
  }

  lemma TwiceCounts(a: seq<SlotLike>, i: int, j: int)
    requires 0 <= i < j < |a| && a[i] == a[j]
    ensures multiset(a)[a[i]] >= 2
  {
    assert a == a[..j] + a[j..];
    assert a[i] in a[..j] by {
      assert a[..j][i] == a[i];
    }
    assert a[j] in a[j..] by {
      assert a[j..][0] == a[j];
    }
    assert multiset(a) == multiset(a[..j]) + multiset(a[j..]);
    assert multiset(a[..j])[a[i]] >= 1 && multiset(a[j..])[a[i]] >= 1;
  }

  /** Sorting the offered slots by start keeps them distinct. */
  lemma SortedOffered(offered: seq<SlotLike>)
    requires Offerable(offered)
    ensures var s := Sort(StartLeq, offered);
      SortedBy(StartLeq, s) && (forall x :: x in s <==> x in offered) && Offerable(s)
  {
    var s := Sort(StartLeq, offered);
    StartIsTotalPreorder();
    SortSorts(StartLeq, offered);
    SamePermutation(offered, s);
    DistinctByCount(offered);
    forall i, j | 0 <= i < j < |s|
      ensures s[i].id != s[j].id
    {
      assert s[i] in s && s[j] in s;
      if s[i] == s[j] {
        TwiceCounts(s, i, j);
      }
      var a :| 0 <= a < |offered| && offered[a] == s[i];
      var b :| 0 <= b < |offered| && offered[b] == s[j];
    }
    forall i | 0 <= i < |s|
      ensures s[i].start < s[i].end
    {
      assert s[i] in s;
    }
  }

  lemma OpenedFacts(offered: seq<SlotLike>)
    requires Offerable(offered)
    ensures DistinctIds(Opened(offered)) && Positive(Opened(offered)) && FreeUnowned(Opened(offered))
    ensures forall x :: x in Opened(offered) <==> exists o :: o in offered && x == FromSlot(o)
    ensures OfferedApart(offered) ==> Separate(Opened(offered))
  {
    var s := Sort(StartLeq, offered);
    SortedOffered(offered);
    forall x | x in Opened(offered)
      ensures exists o :: o in offered && x == FromSlot(o)
    {
      var i :| 0 <= i < |s| && Opened(offered)[i] == x;
      assert s[i] in s;
    }
    forall o | o in offered
      ensures FromSlot(o) in Opened(offered)
    {
      var i :| 0 <= i < |s| && s[i] == o;
      assert Opened(offered)[i] == FromSlot(o);
    }
    if OfferedApart(offered) {
      forall i, j | 0 <= i < j < |s|
        ensures s[i].end <= s[j].start
      {
        assert s[i] in s && s[j] in s && StartLeq(s[i], s[j]);
        var a :| 0 <= a < |offered| && offered[a] == s[i];
        var b :| 0 <= b < |offered| && offered[b] == s[j];
        assert SlotsApart(offered[a], offered[b]) || SlotsApart(offered[b], offered[a]);
      }
    }
  }

  // ---------------------------------------------------------------- reservations

  /** The ledgers agree slot by slot except for freedom and ownership, and nothing became free. */
  ghost predicate SameSlots(s: seq<LedgerSlot>, t: seq<LedgerSlot>) {
    && |s| == |t|
    && forall i {:trigger t[i]} :: 0 <= i < |s| ==>
         && t[i].id == s[i].id && t[i].start == s[i].start && t[i].end == s[i].end
         && (t[i].free ==> t[i] == s[i])
  }

  lemma {:induction false} HitMembers(s: seq<LedgerSlot>, start: Instant, end: Instant, x: LedgerSlot)
    requires x in s && x.free && Overlaps(x, start, end)
    ensures x.id in Hit(s, start, end)
    decreases |s|
  {
    if s[0] != x {
      HitMembers(s[1..], start, end, x);
    }
  }

  ghost predicate ClearOf(x: LedgerSlot, a: TaskAllocation) {
    !Overlaps(x, a.start, a.end)
  }

  /** Free slots of a reserved ledger overlap no preallocated interval. */
  ghost predicate AllClear(s: seq<LedgerSlot>, prior: seq<TaskAllocation>) {
    forall x, a :: x in s && x.free && a in prior ==> ClearOf(x, a)
  }

  lemma AllocateSame(s: seq<LedgerSlot>, ids: seq<SlotId>, owner: TaskId)
    ensures SameSlots(s, Allocate(s, ids, owner))
  {
  }

  lemma FreeStays(s: seq<LedgerSlot>, t: seq<LedgerSlot>, x: LedgerSlot)
    requires SameSlots(s, t) && x in t && x.free
    ensures x in s
  {
    var i :| 0 <= i < |t| && t[i] == x;
    assert s[i] == x;
  }

  lemma {:induction false} ReserveFacts(s: seq<LedgerSlot>, prior: seq<TaskAllocation>)
    ensures SameSlots(s, Reserve(s, prior))
    ensures AllClear(Reserve(s, prior), prior)
    decreases |prior|
  {
    if prior != [] {
      var a := prior[0];
      var ids := Hit(s, a.start, a.end);
      var next := Allocate(s, ids, a.task);
      ReserveFacts(next, prior[1..]);
      var t := Reserve(s, prior);
      AllocateSame(s, ids, a.task);
      SameTransitive(s, next, t);
      forall x | x in t && x.free
        ensures ClearOf(x, a)
      {
        FreeStays(next, t, x);
        FreeStays(s, next, x);
        FreeUnhit(s, ids, a.task, x);
        if Overlaps(x, a.start, a.end) {
          HitMembers(s, a.start, a.end, x);
        }
      }
      assert prior == [a] + prior[1..];
    }
  }

  lemma FreeUnhit(s: seq<LedgerSlot>, ids: seq<SlotId>, owner: TaskId, x: LedgerSlot)
    requires x in Allocate(s, ids, owner) && x.free
    ensures x.id !in ids
  {
    var i :| 0 <= i < |s| && Allocate(s, ids, owner)[i] == x;
  }

  lemma SameTransitive(a: seq<LedgerSlot>, b: seq<LedgerSlot>, c: seq<LedgerSlot>)
    requires SameSlots(a, b) && SameSlots(b, c)
    ensures SameSlots(a, c)
  {
  }

  lemma SameKeeps(s: seq<LedgerSlot>, t: seq<LedgerSlot>)
    requires SameSlots(s, t)
    ensures DistinctIds(s) ==> DistinctIds(t)
    ensures Positive(s) ==> Positive(t)
    ensures Separate(s) ==> Separate(t)
    ensures FreeUnowned(s) ==> FreeUnowned(t)
  {
  }

  // ---------------------------------------------------------------- the whole run

  /** The ledger after reservations, which is where placing starts. */
  ghost function Reserved(r: Request, offered: seq<SlotLike>): seq<LedgerSlot> {
    Reserve(Opened(offered), r.prior)
  }

  lemma ReservedFacts(r: Request, offered: seq<SlotLike>)
    requires Offerable(offered)
    ensures var s1 := Reserved(r, offered);
      && DistinctIds(s1) && Positive(s1) && FreeUnowned(s1) && AllClear(s1, r.prior)
      && SameSlots(Opened(offered), s1) && (OfferedApart(offered) ==> Separate(s1))
  {
    OpenedFacts(offered);
    ReserveFacts(Opened(offered), r.prior);
    SameKeeps(Opened(offered), Reserved(r, offered));
  }

  lemma OpeningInv(r: Request, offered: seq<SlotLike>, pending: seq<SchedulableTask>)
    requires DistinctTasks(pending)
    ensures Inv(r, Reserved(r, offered), Opening(r, offered), pending)
  {
    NothingTracked(Reserved(r, offered));
  }

  lemma {:induction false} InsertDistinct(x: SchedulableTask, s: seq<SchedulableTask>)
    requires DistinctTasks(s) && forall y :: y in s ==> y.id != x.id
    ensures DistinctTasks(Insert(KeyLeq, x, s))
    decreases |s|
  {
    if s != [] && !KeyLeq(x, s[0]) {
      InsertDistinct(x, s[1..]);
      InsertPermutes(KeyLeq, x, s[1..]);
      var rest := Insert(KeyLeq, x, s[1..]);
      forall j | 0 <= j < |rest|
        ensures rest[j].id != s[0].id
      {
        assert rest[j] in multiset(rest);
        assert rest[j] == x || rest[j] in s[1..];
      }
    }
  }

  lemma {:induction false} SortDistinct(tasks: seq<SchedulableTask>)
    requires DistinctTasks(tasks)
    ensures DistinctTasks(Sort(KeyLeq, tasks))
    ensures forall t :: t in Sort(KeyLeq, tasks) <==> t in tasks
    decreases |tasks|
  {
    KeyIsTotalPreorder();
    SortSorts(KeyLeq, tasks);
    SamePermutation(tasks, Sort(KeyLeq, tasks));
    if tasks != [] {
      SortDistinct(tasks[1..]);
      assert forall y :: y in tasks[1..] ==> y.id != tasks[0].id;
      InsertDistinct(tasks[0], Sort(KeyLeq, tasks[1..]));
    }
  }

  lemma ScheduleInv(r: Request, tasks: seq<SchedulableTask>, offered: seq<SlotLike>)
    requires DistinctTasks(tasks) && Offerable(offered)
    ensures Inv(r, Reserved(r, offered), Schedule(r, tasks, offered), [])
  {
    SortDistinct(tasks);
    ReservedFacts(r, offered);
    OpeningInv(r, offered, Sort(KeyLeq, tasks));
    ScheduleFromInv(r, Reserved(r, offered), Opening(r, offered), Sort(KeyLeq, tasks));
  }

  // ---------------------------------------------------------------- nothing is double-booked

  /** Two spans of time share no instant. */
  ghost predicate SpansApart(a: Instant, b: Instant, c: Instant, d: Instant) {
    b <= c || d <= a
  }

  /** Every instant of an abutting stretch lies in one of its slots. */
  lemma {:induction false} Covering(xs: seq<LedgerSlot>, at: Instant) returns (x: LedgerSlot)
    requires xs != [] && Abutting(xs) && xs[0].start <= at < xs[|xs| - 1].end
    ensures x in xs && x.start <= at < x.end
    decreases |xs|
  {
    if at < xs[0].end {
      x := xs[0];
    } else {
      assert xs[0].end == xs[1].start;
      assert xs[1..][|xs| - 2] == xs[|xs| - 1];
      x := Covering(xs[1..], at);
    }
  }

  lemma SeparateSlots(s: seq<LedgerSlot>, x: LedgerSlot, y: LedgerSlot)
    requires Separate(s) && x in s && y in s && x != y
    ensures SpansApart(x.start, x.end, y.start, y.end)
  {
    var i :| 0 <= i < |s| && s[i] == x;
    var j :| 0 <= j < |s| && s[j] == y;
  }

  /** A chunk's time overlaps something only if one of its slots does. */
  lemma ChunkApart(c: Chunk, a: Instant, b: Instant)
    requires Solid(c) && a < b
    requires forall x :: x in c.slots ==> SpansApart(x.start, x.end, a, b)
    ensures SpansApart(ChunkStart(c), ChunkEnd(c), a, b)
  {
    assert c.slots[0] in c.slots;
    if a < ChunkEnd(c) && ChunkStart(c) < b {
      var x := Covering(c.slots, Max(a, ChunkStart(c)));
    }
  }

  lemma ChunksApart(s: seq<LedgerSlot>, chunks: seq<Chunk>, k: int, l: int)
    requires Separate(s) && AllAvailable(s, chunks) && Exclusive(chunks) && AllSolid(chunks)
    requires 0 <= k < l < |chunks|
    ensures SpansApart(ChunkStart(chunks[k]), ChunkEnd(chunks[k]), ChunkStart(chunks[l]), ChunkEnd(chunks[l]))
  {
    var c, d := chunks[k], chunks[l];
    assert Solid(chunks[k]) && Solid(chunks[l]);
    assert Available(s, chunks[k].slots) && Available(s, chunks[l].slots);
    forall x | x in d.slots
      ensures SpansApart(x.start, x.end, ChunkStart(c), ChunkEnd(c))
    {
      assert Span(x) > 0;
      forall y | y in c.slots
        ensures SpansApart(y.start, y.end, x.start, x.end)
      {
        SeparateSlots(s, y, x);
      }
      ChunkApart(c, x.start, x.end);
    }
    SolidLasts(c);
    ChunkApart(d, ChunkStart(c), ChunkEnd(c));
  }

  lemma SolidLasts(c: Chunk)
    requires Solid(c)
    ensures ChunkStart(c) < ChunkEnd(c)
  {
    assert c.slots[0] in c.slots;
    if |c.slots| > 1 {
      AbuttingRises(c.slots, 0, |c.slots| - 1);
    }
  }

  /**
   With disjoint slots, the newly placed chunks overlap neither each other, nor a preallocated interval, nor an
   offered slot that was not free; and each is an abutting stretch of offered free slots.
   */
  lemma NothingDoubleBooked(r: Request, tasks: seq<SchedulableTask>, offered: seq<SlotLike>)
    requires DistinctTasks(tasks) && Offerable(offered) && OfferedApart(offered)
    requires forall a :: a in r.prior ==> a.start < a.end
    ensures var chunks := Schedule(r, tasks, offered).chunks;
      && (forall k, l :: 0 <= k < l < |chunks| ==>
            SpansApart(ChunkStart(chunks[k]), ChunkEnd(chunks[k]), ChunkStart(chunks[l]), ChunkEnd(chunks[l])))
      && (forall k, a :: 0 <= k < |chunks| && a in r.prior ==>
            SpansApart(ChunkStart(chunks[k]), ChunkEnd(chunks[k]), a.start, a.end))
      && (forall k, o :: 0 <= k < |chunks| && o in offered && !o.free ==>
            SpansApart(ChunkStart(chunks[k]), ChunkEnd(chunks[k]), o.start, o.end))
      && (forall k, x :: 0 <= k < |chunks| && x in chunks[k].slots ==>
            exists o :: o in offered && o.free && x == FromSlot(o))
      && (forall k :: 0 <= k < |chunks| ==> Abutting(chunks[k].slots))
  {
    var s1 := Reserved(r, offered);
    var chunks := Schedule(r, tasks, offered).chunks;
    ScheduleInv(r, tasks, offered);
    ReservedFacts(r, offered);
    forall k, l | 0 <= k < l < |chunks|
      ensures SpansApart(ChunkStart(chunks[k]), ChunkEnd(chunks[k]), ChunkStart(chunks[l]), ChunkEnd(chunks[l]))
    {
      ChunksApart(s1, chunks, k, l);
    }
    forall k | 0 <= k < |chunks|
      ensures ChunkWellPlaced(r, offered, chunks[k])
    {
      assert Solid(chunks[k]) && Available(s1, chunks[k].slots);
      ChunkPlaced(r, offered, chunks[k]);
    }
  }

  /** One chunk against reservations and occupied slots. */
  ghost predicate ChunkWellPlaced(r: Request, offered: seq<SlotLike>, c: Chunk) {
    && (forall a :: a in r.prior ==> SpansApart(ChunkStart(c), ChunkEnd(c), a.start, a.end))
    && (forall o :: o in offered && !o.free ==> SpansApart(ChunkStart(c), ChunkEnd(c), o.start, o.end))
    && (forall x :: x in c.slots ==> exists o :: o in offered && o.free && x == FromSlot(o))
    && Abutting(c.slots)
  }

  lemma ChunkPlaced(r: Request, offered: seq<SlotLike>, c: Chunk)
    requires Offerable(offered) && OfferedApart(offered)
    requires forall a :: a in r.prior ==> a.start < a.end
    requires Solid(c) && Available(Reserved(r, offered), c.slots)
    ensures ChunkWellPlaced(r, offered, c)
  {
    var s0, s1 := Opened(offered), Reserved(r, offered);
    ReservedFacts(r, offered);
    OpenedFacts(offered);
    forall a | a in r.prior
      ensures SpansApart(ChunkStart(c), ChunkEnd(c), a.start, a.end)
    {
      forall x | x in c.slots
        ensures SpansApart(x.start, x.end, a.start, a.end)
      {
        assert ClearOf(x, a);
      }
      ChunkApart(c, a.start, a.end);
    }
    forall x | x in c.slots
      ensures x in s0
    {
      FreeStays(s0, s1, x);
    }
    forall o | o in offered && !o.free
      ensures SpansApart(ChunkStart(c), ChunkEnd(c), o.start, o.end)
    {
      assert FromSlot(o) in s0;
      forall x | x in c.slots
        ensures SpansApart(x.start, x.end, o.start, o.end)
      {
        SeparateSlots(s0, x, FromSlot(o));
      }
      ChunkApart(c, o.start, o.end);
    }
  }

  // ---------------------------------------------------------------- gates

  /** A free slot that ends after a preallocated interval does not start before the interval ends. */
  lemma StartsAfterPrior(s1: seq<LedgerSlot>, prior: seq<TaskAllocation>, x: LedgerSlot, a: TaskAllocation)
    requires AllClear(s1, prior) && x in s1 && x.free && a in prior && a.start < a.end && x.end > a.end
    ensures x.start >= a.end
  {
    assert ClearOf(x, a);
  }

  /** A slot that ends after a chunk does not start before the chunk ends. */
  lemma StartsAfterChunk(s1: seq<LedgerSlot>, x: LedgerSlot, c: Chunk)
    requires Separate(s1) && Positive(s1) && x in s1 && Available(s1, c.slots) && x.end > ChunkEnd(c)
    ensures x.start >= ChunkEnd(c)
  {
    var y := c.slots[|c.slots| - 1];
    assert y in c.slots;
    SeparateSlots(s1, x, y);
    var i :| 0 <= i < |s1| && s1[i] == y;
  }

  /** All that task `p` has ends by `t`. */
  ghost predicate FinishedBy(r: Request, chunks: seq<Chunk>, p: TaskId, t: Instant) {
    && (forall j :: 0 <= j < |r.prior| && r.prior[j].task == p ==> r.prior[j].end <= t)
    && (forall l :: 0 <= l < |chunks| && chunks[l].task == p ==> ChunkEnd(chunks[l]) <= t)
  }

  lemma GateFinished(r: Request, s1: seq<LedgerSlot>, chunks: seq<Chunk>, c: Chunk, p: TaskId)
    requires Separate(s1) && Positive(s1) && AllClear(s1, r.prior) && AllAvailable(s1, chunks)
    requires forall a :: a in r.prior ==> a.start < a.end
    requires Available(s1, c.slots) && EndsAfter(r, chunks, c.slots[0], p)
    ensures FinishedBy(r, chunks, p, ChunkStart(c))
  {
    var x := c.slots[0];
    assert x in c.slots;
    forall j | 0 <= j < |r.prior| && r.prior[j].task == p
      ensures r.prior[j].end <= ChunkStart(c)
    {
      StartsAfterPrior(s1, r.prior, x, r.prior[j]);
    }
    forall l | 0 <= l < |chunks| && chunks[l].task == p
      ensures ChunkEnd(chunks[l]) <= ChunkStart(c)
    {
      assert Available(s1, chunks[l].slots);
      StartsAfterChunk(s1, x, chunks[l]);
    }
  }

  /**
   With disjoint slots, a newly placed chunk starts only when every gating predecessor is fully placed and all its
   allocations, preallocated or new, have ended; and after all preallocated intervals of its own task.
   */
  lemma GatesRespected(r: Request, tasks: seq<SchedulableTask>, offered: seq<SlotLike>, k: int, p: TaskId)
    requires DistinctTasks(tasks) && Offerable(offered) && OfferedApart(offered)
    requires forall a :: a in r.prior ==> a.start < a.end
    requires 0 <= k < |Schedule(r, tasks, offered).chunks|
    ensures var q := Schedule(r, tasks, offered); var c := q.chunks[k];
      && (p in GatesOf(r, c.task) ==> p in q.fully && FinishedBy(r, q.chunks, p, ChunkStart(c)))
      && (forall j :: 0 <= j < |r.prior| && r.prior[j].task == c.task ==> r.prior[j].end <= ChunkStart(c))
  {
    var s1 := Reserved(r, offered);
    var q := Schedule(r, tasks, offered);
    var c := q.chunks[k];
    ScheduleInv(r, tasks, offered);
    ReservedFacts(r, offered);
    assert Available(s1, q.chunks[k].slots) && GateSafe(r, q, q.chunks[k]) && AfterOwnPrior(r, q.chunks[k]);
    assert c.slots[0] in c.slots;
    if p in GatesOf(r, c.task) {
      assert AllEndAfter(r, q.chunks, c.slots, p);
      GateFinished(r, s1, q.chunks, c, p);
    }
    forall j | 0 <= j < |r.prior| && r.prior[j].task == c.task
      ensures r.prior[j].end <= ChunkStart(c)
    {
      StartsAfterPrior(s1, r.prior, c.slots[0], r.prior[j]);
    }
  }

  // ---------------------------------------------------------------- gate cycles

  /** Edges from each task to its gates. */
  ghost function GateGraph(r: Request): Graph {
    var named := r.gates.Keys + set t, p | t in r.gates && p in r.gates[t] :: p;
    map t | t in named :: GatesOf(r, t)
  }

  lemma PrefixMember(fully: seq<TaskId>, n: int, m: int, t: TaskId)
    requires 0 <= n <= m <= |fully| && t in fully[..n]
    ensures t in fully[..m]
  {
    assert fully[..n] == fully[..m][..n];
  }

  /** From position `m`, a path of gates ends at or before `m`. */
  lemma {:induction false} ReachesBefore(r: Request, fully: seq<TaskId>, path: seq<TaskId>, m: int)
    requires Ordered(r, fully) && IsPath(GateGraph(r), path) && 0 <= m < |fully| && fully[m] == path[0]
    ensures path[|path| - 1] in fully[..m + 1]
    decreases |path|
  {
    if |path| > 1 {
      assert path[1] in fully[..m];
      var n :| 0 <= n < m && fully[n] == path[1];
      ReachesBefore(r, fully, path[1..], n);
      PrefixMember(fully, n + 1, m + 1, path[|path| - 1]);
    } else {
      assert fully[..m + 1][m] == path[|path| - 1];
    }
  }

  /** The first position of a fully placed task. */
  lemma {:induction false} FirstPosition(fully: seq<TaskId>, t: TaskId) returns (m: int)
    requires t in fully
    ensures 0 <= m < |fully| && fully[m] == t && t !in fully[..m]
    decreases |fully|
  {
    if fully[0] == t {
      m := 0;
    } else {
      m := FirstPosition(fully[1..], t);
      m := m + 1;
      assert fully[..m] == [fully[0]] + fully[1..][..m - 1];
    }
  }

  /** A fully placed task reaches, through gates, only tasks fully placed no later. */
  lemma ReachesOnlyFully(r: Request, fully: seq<TaskId>, m: int, u: TaskId)
    requires Ordered(r, fully) && 0 <= m < |fully| && Reaches(GateGraph(r), fully[m], u)
    ensures u in fully[..m + 1]
  {
    var path :| IsPath(GateGraph(r), path) && path[0] == fully[m] && path[|path| - 1] == u;
    ReachesBefore(r, fully, path, m);
  }

  /** No fully placed task is on a gate cycle. */
  lemma FullyNotOnCycle(r: Request, fully: seq<TaskId>, u: TaskId)
    requires Ordered(r, fully) && u in fully
    ensures !OnCycle(GateGraph(r), u)
  {
    var g := GateGraph(r);
    var m := FirstPosition(fully, u);
    forall y | u in g && y in g[u]
      ensures !Reaches(g, y, u)
    {
      assert y in fully[..m];
      var n :| 0 <= n < m && fully[n] == y;
      if Reaches(g, y, u) {
        ReachesOnlyFully(r, fully, n, u);
        PrefixMember(fully, n + 1, m, u);
      }
    }
  }

  /** A task whose gates are fully placed reaches no gate cycle. */
  lemma OpenGatesReachNoCycle(r: Request, fully: seq<TaskId>, t: TaskId, u: TaskId)
    requires Ordered(r, fully) && forall p :: p in GatesOf(r, t) ==> p in fully
    requires Reaches(GateGraph(r), t, u)
    ensures !OnCycle(GateGraph(r), u)
  {
    var g := GateGraph(r);
    if t != u {
      FirstStep(g, t, u);
      var y :| y in g[t] && Reaches(g, y, u);
      var n :| 0 <= n < |fully| && fully[n] == y;
      ReachesOnlyFully(r, fully, n, u);
      PrefixMember(fully, n + 1, |fully|, u);
      TakeAll(fully);
      FullyNotOnCycle(r, fully, u);
    } else {
      forall y | t in g && y in g[t]
        ensures !Reaches(g, y, t)
      {
        var n :| 0 <= n < |fully| && fully[n] == y;
        if Reaches(g, y, t) {
          ReachesOnlyFully(r, fully, n, t);
          PrefixMember(fully, n + 1, |fully|, t);
          TakeAll(fully);
          FullyNotOnCycle(r, fully, t);
        }
      }
    }
  }

  /** A task on a gate cycle, or waiting on one through any chain of gates, gets no chunk and is never fully placed. */
  lemma CyclesGetNothing(r: Request, tasks: seq<SchedulableTask>, offered: seq<SlotLike>, t: TaskId, u: TaskId)
    requires DistinctTasks(tasks) && Offerable(offered)
    requires Reaches(GateGraph(r), t, u) && OnCycle(GateGraph(r), u)
    ensures var q := Schedule(r, tasks, offered);
      t !in q.fully && forall k :: 0 <= k < |q.chunks| ==> q.chunks[k].task != t
  {
    var q := Schedule(r, tasks, offered);
    ScheduleInv(r, tasks, offered);
    if t in q.fully {
      var m :| 0 <= m < |q.fully| && q.fully[m] == t;
      FullyGatesOpen(r, q.fully, m);
      OpenGatesReachNoCycle(r, q.fully, t, u);
    }
    forall k | 0 <= k < |q.chunks|
      ensures q.chunks[k].task != t
    {
      assert GateSafe(r, q, q.chunks[k]);
      if q.chunks[k].task == t {
        OpenGatesReachNoCycle(r, q.fully, t, u);
      }
    }
  }

  lemma FullyGatesOpen(r: Request, fully: seq<TaskId>, m: int)
    requires Ordered(r, fully) && 0 <= m < |fully|
    ensures forall p :: p in GatesOf(r, fully[m]) ==> p in fully
  {
    forall p | p in GatesOf(r, fully[m])
      ensures p in fully
    {
      assert p in fully[..m];
    }
  }

  // ---------------------------------------------------------------- conservation

  lemma {:induction false} ExtentIsMinutes(chunks: seq<Chunk>, pass: PassType)
    requires AllSolid(chunks)
    ensures AllocationMinutes(AllocationsOf(chunks, pass)) == ChunkMinutes(chunks)
    decreases |chunks|
  {
    if chunks != [] {
      var rest := chunks[1..];
      forall k | 0 <= k < |rest|
        ensures Solid(rest[k])
      {
        assert Solid(chunks[k + 1]);
      }
      ExtentIsMinutes(rest, pass);
      assert Solid(chunks[0]);
      AbuttingMinutes(chunks[0].slots);
      assert AllocationsOf(chunks, pass)[1..] == AllocationsOf(rest, pass);
    }
  }

  lemma SolidOnce(chunks: seq<Chunk>)
    requires AllSolid(chunks)
    ensures NoChunkTwice(chunks)
  {
    forall k | 0 <= k < |chunks|
      ensures Distinct(chunks[k].slots)
    {
      assert Solid(chunks[k]);
      AbuttingOnce(chunks[k].slots);
    }
  }

  /**
   Minutes are conserved: the total is preallocated minutes plus what left the free slots, and a task's owned slot
   minutes grow by exactly the minutes of its new allocations.
   */
  lemma MinutesConserved(r: Request, tasks: seq<SchedulableTask>, offered: seq<SlotLike>, t: TaskId)
    requires DistinctTasks(tasks) && Offerable(offered)
    ensures var q := Schedule(r, tasks, offered); var s1 := Reserved(r, offered); var result := ResultOf(r, q);
      && result.totalMinutes == AllocationMinutes(result.allocations)
      && result.totalMinutes == AllocationMinutes(r.prior) + Minutes(FreeOf(s1)) - Minutes(FreeOf(result.slots))
      && OwnedMinutes(result.slots, t) == OwnedMinutes(s1, t) + ChunkMinutes(OfTask(q.chunks, t))
  {
    var q := Schedule(r, tasks, offered);
    ScheduleInv(r, tasks, offered);
    ReservedFacts(r, offered);
    SolidOnce(q.chunks);
    ExtentIsMinutes(q.chunks, r.pass);
    AllocationMinutesJoin(r.prior, AllocationsOf(q.chunks, r.pass));
    FreeMinutesConserved(Reserved(r, offered), q.slots, q.chunks);
    OwnedMinutesConserved(Reserved(r, offered), q.slots, q.chunks, t);
  }
}
