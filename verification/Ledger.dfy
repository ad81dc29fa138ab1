/** The slot ledger of one scheduling pass, and runs of slots that touch each other. */
module Ledger {
  import opened Domain
  import opened Sorting

  type SlotId = nat

  /** A slot offered to a pass. */
  datatype SlotLike = SlotLike(id: SlotId, start: Instant, end: Instant, free: bool)

  /** The pass's working copy of a slot. */
  datatype LedgerSlot = LedgerSlot(id: SlotId, start: Instant, end: Instant, free: bool, owner: Option<TaskId>)

  function Span(s: LedgerSlot): int {
    s.end - s.start
  }

  /** The minutes of a list of slots. */
  function Minutes(s: seq<LedgerSlot>): int {
    if s == [] then 0 else Span(s[0]) + Minutes(s[1..])
  }

  function FreeOf(s: seq<LedgerSlot>): seq<LedgerSlot> {
    if s == [] then [] else if s[0].free then [s[0]] + FreeOf(s[1..]) else FreeOf(s[1..])
  }

  function IdsOf(s: seq<LedgerSlot>): seq<SlotId> {
    seq(|s|, i requires 0 <= i < |s| => s[i].id)
  }

  /** `slot` after the slots `ids` were handed to `owner`. */
  function Claimed(slot: LedgerSlot, ids: seq<SlotId>, owner: TaskId): LedgerSlot {
    if slot.id in ids then slot.(free := false, owner := Some(owner)) else slot
  }

  function Allocate(s: seq<LedgerSlot>, ids: seq<SlotId>, owner: TaskId): seq<LedgerSlot> {
    seq(|s|, i requires 0 <= i < |s| => Claimed(s[i], ids, owner))
  }

  predicate Overlaps(slot: LedgerSlot, start: Instant, end: Instant) {
    slot.start < end && start < slot.end
  }

  /** The ids `reserve_interval` claims: free slots that overlap the interval. */
  function Hit(s: seq<LedgerSlot>, start: Instant, end: Instant): seq<SlotId> {
    if s == [] then []
    else if s[0].free && Overlaps(s[0], start, end) then [s[0].id] + Hit(s[1..], start, end)
    else Hit(s[1..], start, end)
  }

  function OwnedMinutes(s: seq<LedgerSlot>, owner: TaskId): int {
    if s == [] then 0 else (if s[0].owner == Some(owner) then Span(s[0]) else 0) + OwnedMinutes(s[1..], owner)
  }

  predicate StartLeq(a: SlotLike, b: SlotLike) {
    a.start <= b.start
  }

  /** The ledger a pass starts from: the offered slots by start, nobody's yet. */
  function Opened(slots: seq<SlotLike>): seq<LedgerSlot> {
    var sorted := Sort(StartLeq, slots);
    seq(|sorted|, i requires 0 <= i < |sorted| => FromSlot(sorted[i]))
  }

  function FromSlot(s: SlotLike): LedgerSlot {
    LedgerSlot(s.id, s.start, s.end, s.free, None)
  }

  class SlotLedger {
    var slots: seq<LedgerSlot>

    constructor (offered: seq<SlotLike>)
      ensures slots == Opened(offered)
    {
      var sorted := Sort(StartLeq, offered);
      slots := seq(|sorted|, i requires 0 <= i < |sorted| => FromSlot(sorted[i]));
    }

    function FreeSlots(): (r: seq<LedgerSlot>)
      reads this
    {
      FreeOf(slots)
    }

    method AllocateSlots(ids: seq<SlotId>, owner: TaskId)
      modifies this
      ensures slots == Allocate(old(slots), ids, owner)
    {
      slots := seq(|slots|, i requires 0 <= i < |slots| reads this => Claimed(slots[i], ids, owner));
    }

    method ReserveInterval(start: Instant, end: Instant, owner: TaskId)
      modifies this
      ensures slots == Allocate(old(slots), Hit(old(slots), start, end), owner)
    {
      AllocateSlots(Hit(slots, start, end), owner);
    }

    method Owned(owner: TaskId) returns (minutes: int)
      ensures minutes == OwnedMinutes(slots, owner)
    {
      minutes := OwnedMinutes(slots, owner);
    }
  }

  // ---------------------------------------------------------------- runs

  /** Each slot ends where the next one starts. */
  ghost predicate Abutting(s: seq<LedgerSlot>) {
    forall i, j :: 0 <= i && j == i + 1 < |s| ==> s[i].end == s[j].start
  }

  /** `_contiguous_runs`, from the front: the maximal groups of consecutive slots that touch. */
  function RunsFrom(current: seq<LedgerSlot>, rest: seq<LedgerSlot>): seq<seq<LedgerSlot>>
    decreases |rest|
  {
    if rest == [] then (if current == [] then [] else [current])
    else if current == [] then RunsFrom([rest[0]], rest[1..])
    else if current[|current| - 1].end == rest[0].start then RunsFrom(current + [rest[0]], rest[1..])
    else [current] + RunsFrom([rest[0]], rest[1..])
  }

  function Runs(s: seq<LedgerSlot>): seq<seq<LedgerSlot>> {
    RunsFrom([], s)
  }

  method ContiguousRuns(s: seq<LedgerSlot>) returns (runs: seq<seq<LedgerSlot>>)
    ensures runs == Runs(s)
  {
    runs := [];
    var current: seq<LedgerSlot> := [];
    for i := 0 to |s|
      invariant runs + RunsFrom(current, s[i..]) == Runs(s)
    {
      var slot := s[i];
      assert s[i..][0] == slot && s[i..][1..] == s[i + 1..];
      if current == [] {
        current := [slot];
        continue;
      }
      if current[|current| - 1].end == slot.start {
        current := current + [slot];
      } else {
        ghost var before := runs;
        runs := runs + [current];
        assert before + ([current] + RunsFrom([slot], s[i + 1..])) == runs + RunsFrom([slot], s[i + 1..]);
        current := [slot];
      }
    }
    if current != [] {
      runs := runs + [current];
    }
  }

  function Flatten(runs: seq<seq<LedgerSlot>>): seq<LedgerSlot> {
    if runs == [] then [] else runs[0] + Flatten(runs[1..])
  }

  /** Cutting into runs loses no slot, keeps the order, and yields nonempty abutting runs. */
  lemma {:induction false} RunsFromPartition(current: seq<LedgerSlot>, rest: seq<LedgerSlot>)
    requires Abutting(current)
    ensures Flatten(RunsFrom(current, rest)) == current + rest
    ensures forall r :: r in RunsFrom(current, rest) ==> r != [] && Abutting(r)
    decreases |rest|
  {
    if rest == [] {
      if current != [] {
        assert Flatten([current]) == current + Flatten([]);
      }
    } else {
      assert rest == [rest[0]] + rest[1..];
      if current != [] && current[|current| - 1].end == rest[0].start {
        RunsFromPartition(current + [rest[0]], rest[1..]);
        assert current + rest == current + [rest[0]] + rest[1..];
      } else {
        RunsFromPartition([rest[0]], rest[1..]);
      }
    }
  }

  ghost predicate Touch(a: seq<LedgerSlot>, b: seq<LedgerSlot>) {
    a == [] || b == [] || a[|a| - 1].end == b[0].start
  }

  ghost predicate Parted(runs: seq<seq<LedgerSlot>>) {
    forall i, j :: 0 <= i && j == i + 1 < |runs| ==> !Touch(runs[i], runs[j])
  }

  /** A run ends only where the next slot does not touch it: runs are as long as they can be. */
  lemma {:induction false} RunsFromMaximal(current: seq<LedgerSlot>, rest: seq<LedgerSlot>)
    requires current != []
    ensures RunsFrom(current, rest) != [] && current <= RunsFrom(current, rest)[0]
    ensures Parted(RunsFrom(current, rest))
    decreases |rest|
  {
    if rest != [] {
      if current[|current| - 1].end == rest[0].start {
        RunsFromMaximal(current + [rest[0]], rest[1..]);
        assert current <= current + [rest[0]];
      } else {
        var later := RunsFrom([rest[0]], rest[1..]);
        RunsFromMaximal([rest[0]], rest[1..]);
        assert later[0][0] == [rest[0]][0];
        assert RunsFrom(current, rest) == [current] + later;
        forall i, j | 0 <= i && j == i + 1 < |later| + 1
          ensures !Touch(([current] + later)[i], ([current] + later)[j])
        {
          if i > 0 {
            assert !Touch(later[i - 1], later[j - 1]);
          }
        }
      }
    }
  }
}
