/** The day cap over a whole schedule: every task of a pass, whatever was placed before it. */
module ScheduleDays {
  import opened Domain
  import opened Sorting
  import opened Priority
  import opened Ledger
  import opened Placement
  import opened Ownership
  import opened Conservation
  import opened PlacementFacts
  import opened SerialSchedule
  import opened SerialFacts
  import opened SerialTheorems
  import opened SerialOrder
  import opened DayCap
  import opened DayCapExact

  /** A task that is no longer pending gets nothing more. */
  lemma {:induction false} NothingMore(r: Request, s1: seq<LedgerSlot>, pr: Progress, pending: seq<SchedulableTask>,
                                       t: TaskId)
    requires DistinctIds(s1) && Positive(s1) && Inv(r, s1, pr, pending) && t !in TaskIds(pending)
    ensures OfTask(ScheduleFrom(r, pr, pending).chunks, t) == OfTask(pr.chunks, t)
    decreases |pending|
  {
    if pending != [] {
      var i := FirstReady(r, pr.fully, pending);
      if i < |pending| {
        var b := AttemptInvFollows(r, s1, pr, pending, i);
        TaskIdsWithout(pending, i);
        SameOfOthers(pr.chunks, b, pending[i].id, t);
        ScheduleUnfolds(r, pr, pending, i);
        NothingMore(r, s1, Attempt(r, pr, pending[i]), Without(pending, i), t);
      }
    }
  }

  /** Where a task was placed: the ledger and the bound it was placed with, or nothing if it was not. */
  ghost predicate PlacedAs(r: Request, t: SchedulableTask, s: seq<LedgerSlot>, earliest: Option<Instant>,
                           own: seq<Chunk>)
  {
    own == [] || own == Place(Begin(s, [], Required(r, t)), t, earliest).chunks
  }

  /** Nothing makes the task wait: no start time, no gate, nothing preallocated. */
  ghost predicate Unbound(r: Request, t: SchedulableTask) {
    t.startAfter.None? && GatesOf(r, t.id) == {} && PriorOf(r.prior, t.id) == []
  }

  lemma UnboundStart(r: Request, pr: Progress, t: SchedulableTask)
    requires Unbound(r, t)
    ensures Later(t.startAfter, EarliestStart(r, pr, t)).None?
  {
    assert SortedIds({}) == [];
  }

  /** The chunks of the task an attempt is made for are those of one placement. */
  lemma AttemptPlaces(r: Request, s1: seq<LedgerSlot>, pr: Progress, pending: seq<SchedulableTask>, i: nat)
    requires DistinctIds(s1) && Positive(s1) && Inv(r, s1, pr, pending)
    requires i < |pending| && FirstReady(r, pr.fully, pending) == i
    ensures var t := pending[i];
      PlacedAs(r, t, pr.slots, Later(t.startAfter, EarliestStart(r, pr, t)),
               OfTask(ScheduleFrom(r, pr, pending).chunks, t.id))
  {
    var t := pending[i];
    ShapeKeepsIds(s1, pr.slots, pr.chunks);
    ShapeKeepsPositive(s1, pr.slots, pr.chunks);
    var b := AttemptFollows(r, pr, t);
    AttemptInv(r, s1, pr, pending, i);
    assert Untouched(pr, t.id);
    OnlyNow(pr, b, t.id);
    DistinctWithout(pending, i);
    ScheduleUnfolds(r, pr, pending, i);
    NothingMore(r, s1, Attempt(r, pr, t), Without(pending, i), t.id);
  }

  /** Each task's chunks come from one placement over the ledger as it was then. */
  lemma {:induction false} OwnPlacement(r: Request, s1: seq<LedgerSlot>, pr: Progress, pending: seq<SchedulableTask>,
                                        t: SchedulableTask)
    returns (s: seq<LedgerSlot>, done: seq<Chunk>, earliest: Option<Instant>)
    requires DistinctIds(s1) && Positive(s1) && Inv(r, s1, pr, pending) && t in pending
    ensures AllBecame(s1, s, done) && (Unbound(r, t) ==> earliest.None?)
    ensures PlacedAs(r, t, s, earliest, OfTask(ScheduleFrom(r, pr, pending).chunks, t.id))
    decreases |pending|
  {
    var i := FirstReady(r, pr.fully, pending);
    s, done, earliest := pr.slots, pr.chunks, Later(t.startAfter, EarliestStart(r, pr, t));
    if Unbound(r, t) {
      UnboundStart(r, pr, t);
    }
    if i == |pending| {
      assert Untouched(pr, t.id);
      OfTaskNone(pr.chunks, t.id);
    } else if pending[i] == t {
      AttemptPlaces(r, s1, pr, pending, i);
    } else {
      WithoutMembers(pending, i);
      AttemptInv(r, s1, pr, pending, i);
      ScheduleUnfolds(r, pr, pending, i);
      s, done, earliest := OwnPlacement(r, s1, Attempt(r, pr, pending[i]), Without(pending, i), t);
    }
  }

  /** One placement over slots in start order: four chunks a day at most, three without a bound. */
  lemma PlacementDays(r: Request, s: seq<LedgerSlot>, t: SchedulableTask, earliest: Option<Instant>, own: seq<Chunk>, d: int)
    requires DistinctIds(s) && Positive(s) && Separate(s) && PlacedAs(r, t, s, earliest, own)
    ensures CountOn(own, d) <= 3 + (if earliest.None? then 0 else 1)
  {
    match earliest
    case None => AtMostThreeADay(s, t, Required(r, t), None);
    case Some(e) => FourthExactlyWhen(s, t, Required(r, t), e);
  }

  /**
   In every schedule over disjoint slots no task has five chunks on one day, and none that may start at any time has
   four.
   */
  lemma NoFifthChunk(r: Request, tasks: seq<SchedulableTask>, offered: seq<SlotLike>, t: SchedulableTask, d: int)
    requires DistinctTasks(tasks) && Offerable(offered) && OfferedApart(offered) && t in tasks
    ensures CountOn(OfTask(Schedule(r, tasks, offered).chunks, t.id), d) <=
            3 + (if Unbound(r, t) then 0 else 1)
  {
    var s1, sorted := Reserved(r, offered), Sort(KeyLeq, tasks);
    SortDistinct(tasks);
    ReservedFacts(r, offered);
    OpeningInv(r, offered, sorted);
    var s, done, earliest := OwnPlacement(r, s1, Opening(r, offered), sorted, t);
    ShapeKeepsIds(s1, s, done);
    ShapeKeepsPositive(s1, s, done);
    ShapeKeepsSeparate(s1, s, done);
    PlacementDays(r, s, t, earliest, OfTask(Schedule(r, tasks, offered).chunks, t.id), d);
  }
}
