/** The serial scheduler: tasks in key order, each placed once its start gates are open. */
module SerialSchedule {
  import opened Domain
  import opened Sorting
  import opened Priority
  import opened Ledger
  import opened Placement
  import opened Ownership
  import opened Conservation

  /** What a pass is given besides tasks and slots. */
  datatype Request = Request(
    pass: PassType,
    gates: map<TaskId, set<TaskId>>,
    prior: seq<TaskAllocation>)

  datatype Progress = Progress(
    slots: seq<LedgerSlot>,
    chunks: seq<Chunk>,
    unallocated: set<TaskId>,
    fully: seq<TaskId>,
    completion: map<TaskId, Instant>)

  datatype ScheduleResult = ScheduleResult(
    allocations: seq<TaskAllocation>,
    unallocated: set<TaskId>,
    totalMinutes: int,
    slots: seq<LedgerSlot>)

  function Duration(t: SchedulableTask, pass: PassType): int {
    if pass.BasePass? then t.baseMinutes else t.safetyMinutes
  }

  function GatesOf(r: Request, t: TaskId): set<TaskId> {
    if t in r.gates then r.gates[t] else {}
  }

  function AllocationMinutes(s: seq<TaskAllocation>): int {
    if s == [] then 0 else s[0].end - s[0].start + AllocationMinutes(s[1..])
  }

  /** The allocations of one task, in order. */
  function PriorOf(prior: seq<TaskAllocation>, t: TaskId): seq<TaskAllocation> {
    if prior == [] then []
    else if prior[0].task == t then [prior[0]] + PriorOf(prior[1..], t)
    else PriorOf(prior[1..], t)
  }

  /** The latest end of some allocations. */
  function LatestEnd(s: seq<TaskAllocation>): Option<Instant> {
    if s == [] then None else Later(Some(s[0].end), LatestEnd(s[1..]))
  }

  /** The latest known completion among some tasks. */
  function LatestCompletion(completion: map<TaskId, Instant>, ids: seq<TaskId>): Option<Instant> {
    if ids == [] then None
    else
      Later(if ids[0] in completion then Some(completion[ids[0]]) else None, LatestCompletion(completion, ids[1..]))
  }

  /** Slots free before the pass that overlap a preallocated interval are reserved for its task. */
  function Reserve(s: seq<LedgerSlot>, prior: seq<TaskAllocation>): seq<LedgerSlot>
    decreases |prior|
  {
    if prior == [] then s
    else Reserve(Allocate(s, Hit(s, prior[0].start, prior[0].end), prior[0].task), prior[1..])
  }

  predicate IsReady(r: Request, fully: seq<TaskId>, t: SchedulableTask) {
    forall p | p in GatesOf(r, t.id) :: p in fully
  }

  /** The position of the first ready task, or the length when none is ready. */
  function FirstReady(r: Request, fully: seq<TaskId>, pending: seq<SchedulableTask>): (i: nat)
    ensures i <= |pending|
    ensures i < |pending| ==> IsReady(r, fully, pending[i])
    ensures forall j :: 0 <= j < i ==> !IsReady(r, fully, pending[j])
  {
    if pending == [] then 0
    else if IsReady(r, fully, pending[0]) then 0
    else
      var i := FirstReady(r, fully, pending[1..]);
      assert forall j :: 0 < j < i + 1 ==> pending[j] == pending[1..][j - 1];
      i + 1
  }

  /** What a task still needs beyond its preallocated minutes. */
  function Required(r: Request, t: SchedulableTask): int {
    Max(0, Duration(t, r.pass) - AllocationMinutes(PriorOf(r.prior, t.id)))
  }

  function EarliestStart(r: Request, pr: Progress, t: SchedulableTask): Option<Instant> {
    Later(LatestCompletion(pr.completion, SortedIds(GatesOf(r, t.id))), LatestEnd(PriorOf(r.prior, t.id)))
  }

  function PlaceNow(r: Request, pr: Progress, t: SchedulableTask): Placing {
    Place(Begin(pr.slots, [], Required(r, t)), t, Later(t.startAfter, EarliestStart(r, pr, t)))
  }

  /** The end of everything a task has: preallocated intervals and new chunks. */
  function CompletionOf(prior: seq<TaskAllocation>, chunks: seq<TaskAllocation>): Option<Instant> {
    LatestEnd(prior + chunks)
  }

  function Complete(m: map<TaskId, Instant>, t: TaskId, end: Option<Instant>): map<TaskId, Instant> {
    if end.Some? then m[t := end.value] else m
  }

  /** One turn of the scheduling loop, for the chosen task. */
  function Attempt(r: Request, pr: Progress, t: SchedulableTask): Progress {
    var prior := PriorOf(r.prior, t.id);
    if Required(r, t) <= 0 then
      pr.(fully := pr.fully + [t.id], completion := Complete(pr.completion, t.id, LatestEnd(prior)))
    else
      var p := PlaceNow(r, pr, t);
      var produced := AllocationsOf(p.chunks, r.pass);
      if AllocationMinutes(prior) + AllocationMinutes(produced) < Duration(t, r.pass) then
        pr.(slots := p.slots, chunks := pr.chunks + p.chunks, unallocated := pr.unallocated + {t.id})
      else
        pr.(slots := p.slots, chunks := pr.chunks + p.chunks, fully := pr.fully + [t.id],
            completion := Complete(pr.completion, t.id, CompletionOf(prior, produced)))
  }

  function TaskIds(tasks: seq<SchedulableTask>): set<TaskId> {
    set t | t in tasks :: t.id
  }

  /** The scheduling loop. */
  function ScheduleFrom(r: Request, pr: Progress, pending: seq<SchedulableTask>): Progress
    decreases |pending|
  {
    if pending == [] then pr
    else
      var i := FirstReady(r, pr.fully, pending);
      if i == |pending| then pr.(unallocated := pr.unallocated + TaskIds(pending))
      else ScheduleFrom(r, Attempt(r, pr, pending[i]), pending[..i] + pending[i + 1..])
  }

  function Opening(r: Request, offered: seq<SlotLike>): Progress {
    Progress(Reserve(Opened(offered), r.prior), [], {}, [], map[])
  }

  function Schedule(r: Request, tasks: seq<SchedulableTask>, offered: seq<SlotLike>): Progress {
    ScheduleFrom(r, Opening(r, offered), Sort(KeyLeq, tasks))
  }

  /** The result a caller sees. */
  function ResultOf(r: Request, pr: Progress): ScheduleResult {
    var produced := AllocationsOf(pr.chunks, r.pass);
    ScheduleResult(r.prior + produced, pr.unallocated, AllocationMinutes(r.prior) + AllocationMinutes(produced), pr.slots)
  }

  // ---------------------------------------------------------------- the loops

  lemma {:induction false} AllocationMinutesJoin(a: seq<TaskAllocation>, b: seq<TaskAllocation>)
    ensures AllocationMinutes(a + b) == AllocationMinutes(a) + AllocationMinutes(b)
    decreases |a|
  {
    if a == [] {
      assert a + b == b;
    } else {
      AllocationMinutesJoin(a[1..], b);
      assert (a + b)[1..] == a[1..] + b;
    }
  }

  lemma AllocationsOfJoin(a: seq<Chunk>, b: seq<Chunk>, pass: PassType)
    ensures AllocationsOf(a + b, pass) == AllocationsOf(a, pass) + AllocationsOf(b, pass)
  {
  }

  /** Reserving the preallocated intervals one by one. */
  method ReserveAll(ledger: SlotLedger, prior: seq<TaskAllocation>) returns (total: int)
    modifies ledger
    ensures ledger.slots == Reserve(old(ledger.slots), prior) && total == AllocationMinutes(prior)
  {
    total := 0;
    ghost var goal := Reserve(ledger.slots, prior);
    for k := 0 to |prior|
      invariant goal == Reserve(ledger.slots, prior[k..])
      invariant total + AllocationMinutes(prior[k..]) == AllocationMinutes(prior)
    {
      assert prior[k..][0] == prior[k] && prior[k..][1..] == prior[k + 1..];
      total := total + (prior[k].end - prior[k].start);
      ledger.ReserveInterval(prior[k].start, prior[k].end, prior[k].task);
    }
  }

  lemma {:induction false} AllocationMinutesSum(s: seq<TaskAllocation>, k: nat)
    requires k < |s|
    ensures AllocationMinutes(s[..k + 1]) == AllocationMinutes(s[..k]) + s[k].end - s[k].start
  {
    TakeOneMore(s, k);
    AllocationMinutesJoin(s[..k], [s[k]]);
    assert AllocationMinutes([s[k]]) == s[k].end - s[k].start;
  }

  /** The minutes of some allocations, added up one by one. */
  method SumMinutes(s: seq<TaskAllocation>) returns (total: int)
    ensures total == AllocationMinutes(s)
  {
    total := 0;
    for k := 0 to |s|
      invariant total == AllocationMinutes(s[..k])
    {
      AllocationMinutesSum(s, k);
      total := total + (s[k].end - s[k].start);
    }
    TakeAll(s);
  }

  /** The body of the scheduling loop: `produced` is what it appends to the allocations. */
  method AttemptTask(ledger: SlotLedger, r: Request, pr: Progress, t: SchedulableTask)
    returns (q: Progress, produced: seq<TaskAllocation>)
    requires ledger.slots == pr.slots
    modifies ledger
    ensures q == Attempt(r, pr, t) && ledger.slots == q.slots
    ensures AllocationsOf(q.chunks, r.pass) == AllocationsOf(pr.chunks, r.pass) + produced
  {
    var prior := PriorOf(r.prior, t.id);
    var required := Required(r, t);
    if required <= 0 {
      q := pr.(fully := pr.fully + [t.id], completion := Complete(pr.completion, t.id, LatestEnd(prior)));
      produced := [];
      return;
    }
    var chunks := PlaceTask(ledger, t, required, EarliestStart(r, pr, t));
    produced := AllocationsOf(chunks, r.pass);
    AllocationsOfJoin(pr.chunks, chunks, r.pass);
    q := pr.(slots := ledger.slots, chunks := pr.chunks + chunks);
    if AllocationMinutes(prior) + AllocationMinutes(produced) < Duration(t, r.pass) {
      q := q.(unallocated := q.unallocated + {t.id});
    } else {
      q := q.(fully := q.fully + [t.id], completion := Complete(q.completion, t.id, CompletionOf(prior, produced)));
    }
  }

  /** The list and the total the loop has built so far. */
  ghost predicate Reported(r: Request, chunks: seq<Chunk>, allocations: seq<TaskAllocation>, total: int) {
    && allocations == r.prior + AllocationsOf(chunks, r.pass)
    && total == AllocationMinutes(r.prior) + AllocationMinutes(AllocationsOf(chunks, r.pass))
  }

  lemma ReportMore(r: Request, chunks: seq<Chunk>, more: seq<Chunk>, produced: seq<TaskAllocation>,
                   allocations: seq<TaskAllocation>, total: int)
    requires Reported(r, chunks, allocations, total)
    requires AllocationsOf(more, r.pass) == AllocationsOf(chunks, r.pass) + produced
    ensures Reported(r, more, allocations + produced, total + AllocationMinutes(produced))
  {
    AllocationMinutesJoin(AllocationsOf(chunks, r.pass), produced);
    assert allocations + produced == r.prior + AllocationsOf(more, r.pass);
  }

  /** One turn of the scheduling loop, its list and total included. */
  method ScheduleTurn(ledger: SlotLedger, r: Request, pr: Progress, t: SchedulableTask, allocations: seq<TaskAllocation>,
                      total: int)
    returns (q: Progress, more: seq<TaskAllocation>, sum: int)
    requires ledger.slots == pr.slots && Reported(r, pr.chunks, allocations, total)
    modifies ledger
    ensures q == Attempt(r, pr, t) && ledger.slots == q.slots && Reported(r, q.chunks, more, sum)
  {
    var produced;
    q, produced := AttemptTask(ledger, r, pr, t);
    var placed := SumMinutes(produced);
    ReportMore(r, pr.chunks, q.chunks, produced, allocations, total);
    more, sum := allocations + produced, total + placed;
  }

  /** `serial_schedule`: the result and the ledger are those of `Schedule`. */
  method SerialScheduleTasks(tasks: seq<SchedulableTask>, offered: seq<SlotLike>, r: Request)
    returns (result: ScheduleResult, ledger: SlotLedger)
    ensures result == ResultOf(r, Schedule(r, tasks, offered)) && ledger.slots == result.slots
  {
    ledger := new SlotLedger(offered);
    var allocations := r.prior;
    var total := ReserveAll(ledger, r.prior);
    var pr := Opening(r, offered);
    var pending := Sort(KeyLeq, tasks);
    ghost var goal := Schedule(r, tasks, offered);
    NothingReported(r);
    while pending != []
      invariant ledger.slots == pr.slots && goal == ScheduleFrom(r, pr, pending)
      invariant Reported(r, pr.chunks, allocations, total)
      decreases |pending|
    {
      var i := FirstReady(r, pr.fully, pending);
      if i == |pending| {
        pr := pr.(unallocated := pr.unallocated + TaskIds(pending));
        break;
      }
      var task := pending[i];
      pending := pending[..i] + pending[i + 1..];
      pr, allocations, total := ScheduleTurn(ledger, r, pr, task, allocations, total);
    }
    result := ScheduleResult(allocations, pr.unallocated, total, ledger.slots);
  }

  lemma NothingReported(r: Request)
    ensures Reported(r, [], r.prior, AllocationMinutes(r.prior))
  {
    assert r.prior + AllocationsOf([], r.pass) == r.prior;
  }
}
