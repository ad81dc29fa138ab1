/** End to end: what any pass hands out on a local day stays within that day's planned capacity. */
module PassCapacity {
  import opened Domain
  import opened Sorting
  import opened Priority
  import opened Ledger
  import opened Placement
  import opened Ownership
  import opened SerialSchedule
  import opened SerialFacts
  import opened SerialTheorems
  import A = AvailabilitySlots
  import D = DailyCapacity
  import U = UniqueSlots

  function Offer(s: A.Slot): SlotLike {
    SlotLike(s.id, s.start, s.end, s.state.Free?)
  }

  /** The slots a pass is offered. */
  function OfferAll(slots: seq<A.Slot>): seq<SlotLike> {
    seq(|slots|, i requires 0 <= i < |slots| => Offer(slots[i]))
  }

  /** Built slots may be offered, and disjoint windows offer disjoint slots. */
  lemma BuiltOfferable(x: A.Context)
    requires U.ContextOk(x)
    ensures Offerable(OfferAll(U.Built(x)))
    ensures A.WindowsApart(x.windows) ==> OfferedApart(OfferAll(U.Built(x)))
  {
    var slots := U.Built(x);
    var offered := OfferAll(slots);
    forall i, j | 0 <= i < j < |offered|
      ensures offered[i].id != offered[j].id
      ensures A.WindowsApart(x.windows) ==> SlotsApart(offered[i], offered[j])
    {
      U.BuiltShape(x, i, j);
    }
    forall i | 0 <= i < |offered|
      ensures offered[i].start < offered[i].end
    {
      U.StatesDecided(x, i);
      A.TileAllFits(x.windows, x.slotMinutes, 0);
      assert A.Fits(A.TileAll(x.windows, x.slotMinutes, 0)[i], x.slotMinutes);
    }
  }

  // ---------------------------------------------------------------- minutes of one day

  ghost function FreeWeight(day: Instant -> nat, d: nat, o: SlotLike): int {
    if o.free && day(o.start) == d then o.end - o.start else 0
  }

  ghost function FreeDay(day: Instant -> nat, d: nat, offered: seq<SlotLike>): int {
    if offered == [] then 0 else FreeWeight(day, d, offered[0]) + FreeDay(day, d, offered[1..])
  }

  ghost function OwnedWeight(day: Instant -> nat, d: nat, s: LedgerSlot): int {
    if s.owner.Some? && day(s.start) == d then Span(s) else 0
  }

  /** Slot minutes of day `d` that somebody owns. */
  ghost function OwnedDay(day: Instant -> nat, d: nat, s: seq<LedgerSlot>): int {
    if s == [] then 0 else OwnedWeight(day, d, s[0]) + OwnedDay(day, d, s[1..])
  }

  lemma {:induction false} FreeDayInsert(day: Instant -> nat, d: nat, o: SlotLike, s: seq<SlotLike>)
    ensures FreeDay(day, d, Insert(StartLeq, o, s)) == FreeWeight(day, d, o) + FreeDay(day, d, s)
    decreases |s|
  {
    if s == [] || StartLeq(o, s[0]) {
      assert ([o] + s)[1..] == s;
    } else {
      FreeDayInsert(day, d, o, s[1..]);
      assert Insert(StartLeq, o, s)[1..] == Insert(StartLeq, o, s[1..]);
    }
  }

  lemma {:induction false} FreeDaySort(day: Instant -> nat, d: nat, s: seq<SlotLike>)
    ensures FreeDay(day, d, Sort(StartLeq, s)) == FreeDay(day, d, s)
    decreases |s|
  {
    if s != [] {
      FreeDaySort(day, d, s[1..]);
      FreeDayInsert(day, d, s[0], Sort(StartLeq, s[1..]));
    }
  }

  lemma {:induction false} FreeDayJoin(day: Instant -> nat, d: nat, a: seq<SlotLike>, b: seq<SlotLike>)
    ensures FreeDay(day, d, a + b) == FreeDay(day, d, a) + FreeDay(day, d, b)
    decreases |a|
  {
    if a == [] {
      assert a + b == b;
    } else {
      FreeDayJoin(day, d, a[1..], b);
      assert (a + b)[1..] == a[1..] + b;
    }
  }

  lemma {:induction false} FreeDayIsRaw(c: D.Cut, slots: seq<A.Slot>, d: nat, k: nat)
    requires k <= |slots|
    ensures FreeDay(c.day, d, OfferAll(slots[..k])) == D.RawMinutes(c, slots, d, k)
    decreases k
  {
    if k > 0 {
      FreeDayIsRaw(c, slots, d, k - 1);
      assert OfferAll(slots[..k]) == OfferAll(slots[..k - 1]) + [Offer(slots[k - 1])];
      FreeDayJoin(c.day, d, OfferAll(slots[..k - 1]), [Offer(slots[k - 1])]);
      assert FreeDay(c.day, d, [Offer(slots[k - 1])]) == FreeWeight(c.day, d, Offer(slots[k - 1]));
    }
  }

  /** `t` is what became of the opened slot of `o`: same time, and owned only if the slot was free. */
  ghost predicate OwnedWasFree(o: SlotLike, t: LedgerSlot) {
    t.start == o.start && t.end == o.end && (t.owner.Some? ==> o.free)
  }

  lemma {:induction false} OwnedAtMostFree(day: Instant -> nat, d: nat, offered: seq<SlotLike>, s: seq<LedgerSlot>)
    requires |s| == |offered|
    requires forall i :: 0 <= i < |s| ==> OwnedWasFree(offered[i], s[i]) && offered[i].start < offered[i].end
    ensures OwnedDay(day, d, s) <= FreeDay(day, d, offered)
    decreases |s|
  {
    if s != [] {
      assert OwnedWasFree(offered[0], s[0]);
      OwnedAtMostFree(day, d, offered[1..], s[1..]);
    }
  }

  // ---------------------------------------------------------------- owners

  /** Only slots that were free have an owner. */
  ghost predicate OwnersWereFree(s0: seq<LedgerSlot>, s: seq<LedgerSlot>) {
    |s| == |s0| && forall i {:trigger s[i]} :: 0 <= i < |s| ==>
      s[i].id == s0[i].id && s[i].start == s0[i].start && s[i].end == s0[i].end &&
      (s[i].owner.Some? ==> s0[i].free) && (s[i].free ==> s0[i].free)
  }

  lemma {:induction false} HitIsFree(s: seq<LedgerSlot>, start: Instant, end: Instant, id: SlotId)
    requires id in Hit(s, start, end)
    ensures exists i :: 0 <= i < |s| && s[i].id == id && s[i].free
    decreases |s|
  {
    if !(s[0].free && Overlaps(s[0], start, end) && s[0].id == id) {
      HitIsFree(s[1..], start, end, id);
      var i :| 0 <= i < |s[1..]| && s[1..][i].id == id && s[1..][i].free;
      assert s[i + 1].id == id;
    }
  }

  lemma {:induction false} ReserveOwners(s0: seq<LedgerSlot>, s: seq<LedgerSlot>, prior: seq<TaskAllocation>)
    requires DistinctIds(s0) && OwnersWereFree(s0, s)
    ensures OwnersWereFree(s0, Reserve(s, prior))
    decreases |prior|
  {
    if prior != [] {
      var ids := Hit(s, prior[0].start, prior[0].end);
      var t := Allocate(s, ids, prior[0].task);
      forall i | 0 <= i < |t|
        ensures t[i].owner.Some? ==> s0[i].free
      {
        if s[i].id in ids {
          HitIsFree(s, prior[0].start, prior[0].end, s[i].id);
          var j :| 0 <= j < |s| && s[j].id == s[i].id && s[j].free;
          assert s0[j].id == s0[i].id;
        }
      }
      ReserveOwners(s0, t, prior[1..]);
    }
  }

  lemma TrackOwners(s0: seq<LedgerSlot>, s1: seq<LedgerSlot>, s: seq<LedgerSlot>, chunks: seq<Chunk>)
    requires OwnersWereFree(s0, s1) && Tracks(s1, s, chunks)
    ensures OwnersWereFree(s0, s)
  {
    forall i | 0 <= i < |s|
      ensures s[i].id == s0[i].id && s[i].start == s0[i].start && s[i].end == s0[i].end
      ensures (s[i].owner.Some? ==> s0[i].free) && (s[i].free ==> s0[i].free)
    {
      assert Became(chunks, s1[i], s[i]);
    }
  }

  /** In a finished schedule only slots offered as free have an owner, whatever was preallocated. */
  lemma ScheduleOwners(r: Request, tasks: seq<SchedulableTask>, offered: seq<SlotLike>)
    requires DistinctTasks(tasks) && Offerable(offered)
    ensures OwnersWereFree(Opened(offered), Schedule(r, tasks, offered).slots)
  {
    ScheduleInv(r, tasks, offered);
    OpenedFacts(offered);
    assert OwnersWereFree(Opened(offered), Opened(offered)) by {
      var s := Sort(StartLeq, offered);
      assert forall i :: 0 <= i < |s| ==> Opened(offered)[i] == FromSlot(s[i]);
    }
    ReserveOwners(Opened(offered), Opened(offered), r.prior);
    TrackOwners(Opened(offered), Reserved(r, offered), Schedule(r, tasks, offered).slots,
                Schedule(r, tasks, offered).chunks);
  }

  /** What a pass hands out on a day is at most what it was offered free on that day. */
  lemma OwnedWithinOffer(r: Request, tasks: seq<SchedulableTask>, offered: seq<SlotLike>, day: Instant -> nat, d: nat)
    requires DistinctTasks(tasks) && Offerable(offered)
    ensures OwnedDay(day, d, Schedule(r, tasks, offered).slots) <= FreeDay(day, d, offered)
  {
    var s := Sort(StartLeq, offered);
    var final := Schedule(r, tasks, offered).slots;
    SortedOffered(offered);
    ScheduleOwners(r, tasks, offered);
    forall i | 0 <= i < |final|
      ensures OwnedWasFree(s[i], final[i]) && s[i].start < s[i].end
    {
      assert Opened(offered)[i] == FromSlot(s[i]);
    }
    OwnedAtMostFree(day, d, s, final);
    FreeDaySort(day, d, offered);
  }

  /**
   In any pass over built slots, with any preallocation, the slot minutes owned on a local day are at most the
   capacity factor of that day's unreserved minutes, rounded down to whole slots.
   */
  lemma DailyCapacityHolds(x: A.Context, r: Request, tasks: seq<SchedulableTask>, d: nat)
    requires U.ContextOk(x) && 0 <= x.num <= x.den && DistinctTasks(tasks)
    ensures var busy := U.Busy(x); var c := U.CutOf(x);
      var owned := OwnedDay(x.day, d, Schedule(r, tasks, OfferAll(U.Built(x))).slots);
      && owned <= D.FloorToSlot(D.RawMinutes(c, busy, d, |busy|), x.num, x.den, x.slotMinutes)
      && owned * x.den <= D.RawMinutes(c, busy, d, |busy|) * x.num
  {
    var c := U.CutOf(x);
    var busy, built := U.Busy(x), U.Built(x);
    BuiltOfferable(x);
    OwnedWithinOffer(r, tasks, OfferAll(built), x.day, d);
    assert built[..|built|] == built;
    FreeDayIsRaw(c, built, d, |built|);
    assert built == U.AfterCut(c, busy);
    BusyCuttable(x);
    U.CapacityKept(c, busy, d);
    var owned := OwnedDay(x.day, d, Schedule(r, tasks, OfferAll(built)).slots);
    ScaleBound(owned, D.Budget(c, busy, d), x.den);
  }

  lemma ScaleBound(a: int, b: int, den: int)
    requires a <= b && den > 0
    ensures a * den <= b * den
  {
  }

  lemma BusyCuttable(x: A.Context)
    requires U.ContextOk(x) && 0 <= x.num <= x.den
    ensures U.Cuttable(U.CutOf(x), U.Busy(x))
  {
    var tiles := A.TileAll(x.windows, x.slotMinutes, 0);
    A.TileAllFits(x.windows, x.slotMinutes, 0);
    forall i | 0 <= i < |U.Busy(x)|
      ensures 0 < A.Length(U.Busy(x)[i]) <= x.slotMinutes
    {
      assert A.Fits(tiles[i], x.slotMinutes);
    }
  }
}
