/** Which slots a reservation takes: those that share an instant with it, each for the first that asks, and no other. */
module Reservations {
  import opened Domain
  import opened Ledger
  import opened Placement
  import opened Ownership
  import opened SerialSchedule
  import opened SerialTheorems
  import A = AvailabilitySlots
  import U = UniqueSlots

  // ---------------------------------------------------------------- shared instants

  predicate During(m: Instant, start: Instant, end: Instant) {
    start <= m < end
  }

  /** Two spans of time have an instant in common. */
  ghost predicate Share(a: Instant, b: Instant, c: Instant, d: Instant) {
    exists m :: During(m, a, b) && During(m, c, d)
  }

  lemma ShareMeans(a: Instant, b: Instant, c: Instant, d: Instant)
    requires a < b && c < d
    ensures Share(a, b, c, d) <==> a < d && c < b
  {
    if a < d && c < b {
      assert During(Max(a, c), a, b) && During(Max(a, c), c, d);
    }
  }

  // ---------------------------------------------------------------- slots taken by busy time

  ghost predicate LastingIntervals(intervals: seq<A.Interval>) {
    forall i :: i in intervals ==> i.start < i.end
  }

  ghost predicate Meets(s: A.Slot, intervals: seq<A.Interval>) {
    exists i :: i in intervals && Share(s.start, s.end, i.start, i.end)
  }

  lemma MeetsIsHit(s: A.Slot, intervals: seq<A.Interval>)
    requires LastingIntervals(intervals) && s.start < s.end
    ensures Meets(s, intervals) <==> U.HitsAny(s, intervals)
  {
    forall i | i in intervals
      ensures Share(s.start, s.end, i.start, i.end) <==> A.Hits(s, i)
    {
      ShareMeans(s.start, s.end, i.start, i.end);
    }
  }

  /**
   A built slot is a fixed event's exactly when it shares an instant with one, else a protected block's exactly when it
   shares one with one, and else free or reserve.
   */
  lemma StateMeans(x: A.Context, i: int)
    requires U.ContextOk(x) && LastingIntervals(x.fixedEvents) && LastingIntervals(x.focusBlocks)
    requires 0 <= i < |U.Built(x)|
    ensures var s := U.Built(x)[i];
      && (s.state == A.FixedEvent <==> Meets(s, x.fixedEvents))
      && (s.state == A.ProtectedFocusBlock <==> !Meets(s, x.fixedEvents) && Meets(s, x.focusBlocks))
      && (s.state == A.Free || s.state == A.Buffer <==> !Meets(s, x.fixedEvents) && !Meets(s, x.focusBlocks))
  {
    U.StatesDecided(x, i);
    A.TileAllFits(x.windows, x.slotMinutes, 0);
    var tile, s := A.TileAll(x.windows, x.slotMinutes, 0)[i], U.Built(x)[i];
    assert A.Fits(tile, x.slotMinutes);
    MeetsIsHit(tile, x.fixedEvents);
    MeetsIsHit(tile, x.focusBlocks);
    SameMeets(tile, s, x.fixedEvents);
    SameMeets(tile, s, x.focusBlocks);
  }

  lemma SameMeets(a: A.Slot, b: A.Slot, intervals: seq<A.Interval>)
    requires a.start == b.start && a.end == b.end
    ensures Meets(a, intervals) <==> Meets(b, intervals)
  {
  }

  // ---------------------------------------------------------------- slots taken by preallocated intervals

  ghost predicate MeetsPrior(x: LedgerSlot, a: TaskAllocation) {
    Share(x.start, x.end, a.start, a.end)
  }

  lemma HitExactly(s: seq<LedgerSlot>, start: Instant, end: Instant, x: LedgerSlot)
    requires DistinctIds(s) && x in s && Span(x) > 0 && start < end
    ensures x.id in Hit(s, start, end) <==> x.free && Share(x.start, x.end, start, end)
  {
    ShareMeans(x.start, x.end, start, end);
    if x.free && Overlaps(x, start, end) {
      HitMembers(s, start, end, x);
    }
    if x.id in Hit(s, start, end) {
      var y := HitFrom(s, start, end, x.id);
      SameIdSameSlot(s, x, y);
    }
  }

  lemma {:induction false} HitFrom(s: seq<LedgerSlot>, start: Instant, end: Instant, id: SlotId) returns (y: LedgerSlot)
    requires id in Hit(s, start, end)
    ensures y in s && y.id == id && y.free && Overlaps(y, start, end)
    decreases |s|
  {
    if s[0].free && Overlaps(s[0], start, end) && s[0].id == id {
      y := s[0];
    } else {
      y := HitFrom(s[1..], start, end, id);
    }
  }

  ghost predicate LastingPriors(prior: seq<TaskAllocation>) {
    forall j :: 0 <= j < |prior| ==> prior[j].start < prior[j].end
  }

  /** The first of the intervals that shares an instant with the slot. */
  ghost predicate FirstMeeting(prior: seq<TaskAllocation>, x: LedgerSlot, j: nat) {
    && j < |prior| && MeetsPrior(x, prior[j])
    && forall k :: 0 <= k < j ==> !MeetsPrior(x, prior[k])
  }

  lemma AllocatedAt(s: seq<LedgerSlot>, a: TaskAllocation, i: nat)
    requires DistinctIds(s) && Positive(s) && a.start < a.end && i < |s|
    ensures Allocate(s, Hit(s, a.start, a.end), a.task)[i] ==
            if s[i].free && MeetsPrior(s[i], a) then s[i].(free := false, owner := Some(a.task)) else s[i]
  {
    HitExactly(s, a.start, a.end, s[i]);
  }

  lemma AllocatedKeeps(s: seq<LedgerSlot>, ids: seq<SlotId>, owner: TaskId)
    ensures DistinctIds(s) ==> DistinctIds(Allocate(s, ids, owner))
    ensures Positive(s) ==> Positive(Allocate(s, ids, owner))
  {
  }

  /**
   After reserving preallocated intervals, a slot that was free belongs to the task of the first interval that shares an
   instant with it, and is as it was if there is none; and no other slot changes.
   */
  lemma {:induction false} ReservedExactly(s: seq<LedgerSlot>, prior: seq<TaskAllocation>, i: nat)
    requires DistinctIds(s) && Positive(s) && LastingPriors(prior) && i < |s|
    ensures |Reserve(s, prior)| == |s|
    ensures forall j: nat :: s[i].free && FirstMeeting(prior, s[i], j) ==>
      Reserve(s, prior)[i] == s[i].(free := false, owner := Some(prior[j].task))
    ensures !s[i].free || (forall j :: 0 <= j < |prior| ==> !MeetsPrior(s[i], prior[j])) ==>
      Reserve(s, prior)[i] == s[i]
    decreases |prior|
  {
    if prior != [] {
      var a, ids := prior[0], Hit(s, prior[0].start, prior[0].end);
      var next := Allocate(s, ids, a.task);
      AllocatedAt(s, a, i);
      AllocatedKeeps(s, ids, a.task);
      assert forall j :: 0 <= j < |prior[1..]| ==> prior[1..][j] == prior[j + 1];
      ReservedExactly(next, prior[1..], i);
      forall j: nat | s[i].free && FirstMeeting(prior, s[i], j)
        ensures Reserve(s, prior)[i] == s[i].(free := false, owner := Some(prior[j].task))
      {
        if j > 0 {
          LaterMeeting(prior, s[i], j);
        }
      }
      if forall j :: 0 <= j < |prior| ==> !MeetsPrior(s[i], prior[j]) {
        assert !MeetsPrior(s[i], prior[0]);
      }
    }
  }

  lemma LaterMeeting(prior: seq<TaskAllocation>, x: LedgerSlot, j: nat)
    requires j > 0 && FirstMeeting(prior, x, j)
    ensures !MeetsPrior(x, prior[0]) && FirstMeeting(prior[1..], x, j - 1)
  {
    assert forall k :: 0 <= k < |prior[1..]| ==> prior[1..][k] == prior[k + 1];
  }
}
