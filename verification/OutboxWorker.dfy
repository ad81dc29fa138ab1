/** The outbox worker: claiming rows, settling them by what the provider answered, and what any interleaving keeps. */
module OutboxWorker {
  import opened Domain

  type Key = nat
  type ExternalId = nat
  type RowId = nat

  datatype RowStatus = Pending | Succeeded | Failed

  /** An outbox row; rows are listed, and identified, in order of creation. */
  datatype Row = Row(key: Key, status: RowStatus, attempts: nat)

  datatype ExecutionStatus = ExecutionPending | ExecutionSucceeded | ExecutionFailed

  datatype Execution = Execution(status: ExecutionStatus, externalId: Option<ExternalId>, verified: bool)

  /** What an executor call ends in; an empty external id is none. */
  datatype Answer = TimedOut | Errored | Replied(externalId: Option<ExternalId>, verified: bool)

  /** The execution an enqueued command starts with (`apply_pending`). */
  const FRESH_EXECUTION: Execution := Execution(ExecutionPending, None, false)

  const FAILED_EXECUTION: Execution := Execution(ExecutionFailed, None, false)

  predicate Verifies(e: Option<Execution>, answer: Answer) {
    e.Some? && answer.Replied? && answer.verified && answer.externalId.Some?
  }

  /** The row's status after an answer; without an executor there is none. */
  function StatusAfter(e: Option<Execution>, answer: Option<Answer>): RowStatus {
    if answer == Some(TimedOut) then Pending
    else if answer.Some? && Verifies(e, answer.value) then Succeeded
    else Failed
  }

  function SettledRow(row: Row, e: Option<Execution>, answer: Option<Answer>): Row {
    row.(status := StatusAfter(e, answer), attempts := row.attempts + 1)
  }

  function SettledExecution(e: Option<Execution>, answer: Option<Answer>): Option<Execution> {
    match StatusAfter(e, answer)
    case Pending => e
    case Succeeded => Some(Execution(ExecutionSucceeded, answer.value.externalId, true))
    case Failed => if e.Some? then Some(FAILED_EXECUTION) else None
  }

  function Find(executions: map<RowId, Execution>, id: RowId): Option<Execution> {
    if id in executions then Some(executions[id]) else None
  }

  function Put(executions: map<RowId, Execution>, id: RowId, e: Option<Execution>): map<RowId, Execution> {
    if e.Some? then executions[id := e.value] else executions
  }

  /** A reply that proves the command done: verified, under an id, for an execution on record. */
  ghost predicate Proven(e: Option<Execution>, answer: Option<Answer>) {
    e.Some? && exists id :: answer == Some(Replied(Some(id), true))
  }

  /**
   What settling does for each answer: a timeout leaves row and execution open, a proof closes both as succeeded under
   its id, and anything else, the absence of an executor included, closes both as failed.
   */
  lemma SettledExactly(row: Row, e: Option<Execution>, answer: Option<Answer>)
    ensures var after, settled := SettledRow(row, e, answer), SettledExecution(e, answer);
      && after.key == row.key && after.attempts == row.attempts + 1
      && (after.status == Pending <==> answer == Some(TimedOut))
      && (after.status == Succeeded <==> Proven(e, answer))
      && (answer == Some(TimedOut) ==> settled == e)
      && (forall id :: e.Some? && answer == Some(Replied(Some(id), true)) ==>
            settled == Some(Execution(ExecutionSucceeded, Some(id), true)))
      && (answer != Some(TimedOut) && !Proven(e, answer) ==>
            settled == if e.Some? then Some(Execution(ExecutionFailed, None, false)) else None)
  {
    if answer.Some? && Verifies(e, answer.value) {
      assert answer == Some(Replied(Some(answer.value.externalId.value), true));
    }
  }

  // ---------------------------------------------------------------- one worker

  /** The oldest pending row, or the number of rows when there is none. */
  function FirstPending(rows: seq<Row>): (i: nat)
    ensures i <= |rows|
    ensures i < |rows| ==> rows[i].status.Pending?
    ensures forall j :: 0 <= j < i ==> !rows[j].status.Pending?
  {
    if rows == [] then 0
    else if rows[0].status.Pending? then 0
    else
      var i := FirstPending(rows[1..]);
      assert forall j :: 0 < j < i + 1 ==> rows[j] == rows[1..][j - 1];
      i + 1
  }

  function Counts(row: Row, status: RowStatus): nat {
    if row.status == status then 1 else 0
  }

  function CountStatus(rows: seq<Row>, status: RowStatus): nat {
    if rows == [] then 0 else Counts(rows[0], status) + CountStatus(rows[1..], status)
  }

  function TotalAttempts(rows: seq<Row>): nat {
    if rows == [] then 0 else rows[0].attempts + TotalAttempts(rows[1..])
  }

  lemma {:induction false} Recount(rows: seq<Row>, i: nat, row: Row)
    requires i < |rows|
    ensures forall s :: CountStatus(rows[i := row], s) == CountStatus(rows, s) + Counts(row, s) - Counts(rows[i], s)
    ensures TotalAttempts(rows[i := row]) == TotalAttempts(rows) - rows[i].attempts + row.attempts
    decreases i
  {
    var changed := rows[i := row];
    if i == 0 {
      assert changed[1..] == rows[1..];
    } else {
      assert changed[1..] == rows[1..][i - 1 := row];
      Recount(rows[1..], i - 1, row);
    }
  }

  /** The rows after the oldest pending one, of which there is one, is settled. */
  function SettledOldest(rows: seq<Row>, executions: map<RowId, Execution>, answer: Option<Answer>): (after: seq<Row>)
    requires FirstPending(rows) < |rows|
    ensures |after| == |rows|
  {
    var id := FirstPending(rows);
    rows[id := SettledRow(rows[id], Find(executions, id), answer)]
  }

  function SettledExecutions(rows: seq<Row>, executions: map<RowId, Execution>, answer: Option<Answer>):
    map<RowId, Execution>
    requires FirstPending(rows) < |rows|
  {
    var id := FirstPending(rows);
    Put(executions, id, SettledExecution(Find(executions, id), answer))
  }

  /** The rows and executions after some calls, each for the oldest row still pending. */
  function Batch(rows: seq<Row>, executions: map<RowId, Execution>, answers: seq<Option<Answer>>):
    (seq<Row>, map<RowId, Execution>)
    decreases |answers|
  {
    if answers == [] || FirstPending(rows) == |rows| then (rows, executions)
    else
      Batch(SettledOldest(rows, executions, answers[0]), SettledExecutions(rows, executions, answers[0]), answers[1..])
  }

  lemma BatchNext(rows: seq<Row>, executions: map<RowId, Execution>, answers: seq<Option<Answer>>, k: nat)
    requires k < |answers| && FirstPending(rows) < |rows|
    ensures Batch(rows, executions, answers[k..]) ==
            Batch(SettledOldest(rows, executions, answers[k]), SettledExecutions(rows, executions, answers[k]),
                  answers[k + 1..])
  {
    assert answers[k..][0] == answers[k] && answers[k..][1..] == answers[k + 1..];
  }

  /** What settling the oldest pending row does to the counts. */
  ghost predicate CountsOn(before: seq<Row>, after: seq<Row>, done: bool) {
    && |after| == |before| && TotalAttempts(after) == TotalAttempts(before) + 1
    && CountStatus(after, Succeeded) == CountStatus(before, Succeeded) + (if done then 1 else 0)
    && forall i :: 0 <= i < |before| && !before[i].status.Pending? ==> after[i] == before[i]
  }

  /** What a batch's counters say of the rows before and after. */
  ghost predicate Tallied(before: seq<Row>, after: seq<Row>, claimed: nat, succeeded: nat, failed: nat) {
    && claimed == succeeded + failed && |after| == |before|
    && TotalAttempts(after) == TotalAttempts(before) + claimed
    && CountStatus(after, Succeeded) == CountStatus(before, Succeeded) + succeeded
    && forall i :: 0 <= i < |before| && !before[i].status.Pending? ==> after[i] == before[i]
  }

  lemma TalliedMore(before: seq<Row>, now: seq<Row>, after: seq<Row>, done: bool, claimed: nat, succeeded: nat,
                    failed: nat)
    requires Tallied(before, now, claimed, succeeded, failed) && CountsOn(now, after, done)
    ensures done ==> Tallied(before, after, claimed + 1, succeeded + 1, failed)
    ensures !done ==> Tallied(before, after, claimed + 1, succeeded, failed + 1)
  {
  }

  lemma OldestCounts(rows: seq<Row>, executions: map<RowId, Execution>, answer: Option<Answer>)
    requires FirstPending(rows) < |rows|
    ensures CountsOn(rows, SettledOldest(rows, executions, answer),
                     SettledOldest(rows, executions, answer)[FirstPending(rows)].status.Succeeded?)
  {
    var id := FirstPending(rows);
    Recount(rows, id, SettledRow(rows[id], Find(executions, id), answer));
  }

  /** What the calls of a batch end in; without an executor none is made. */
  function AnswersOf(available: bool, answers: seq<Answer>): (r: seq<Option<Answer>>)
    ensures |r| == |answers|
  {
    seq(|answers|, i requires 0 <= i < |answers| => if available then Some(answers[i]) else None)
  }

  class OutboxStore {
    var rows: seq<Row>
    var executions: map<RowId, Execution>

    constructor ()
      ensures rows == [] && executions == map[]
    {
      rows, executions := [], map[];
    }

    /** `create` and `apply_pending`. */
    method Enqueue(key: Key) returns (id: RowId)
      modifies this
      ensures id == |old(rows)| && rows == old(rows) + [Row(key, Pending, 0)]
      ensures executions == old(executions)[id := FRESH_EXECUTION]
    {
      id := |rows|;
      rows := rows + [Row(key, Pending, 0)];
      executions := executions[id := FRESH_EXECUTION];
    }

    /** One claimed row, settled and committed. */
    method SettleRow(id: RowId, answer: Option<Answer>) returns (succeeded: bool)
      requires id < |rows|
      modifies this
      ensures rows == old(rows)[id := SettledRow(old(rows)[id], Find(old(executions), id), answer)]
      ensures executions == Put(old(executions), id, SettledExecution(Find(old(executions), id), answer))
      ensures succeeded <==> rows[id].status.Succeeded?
      ensures rows[id].status.Pending? <==> answer == Some(TimedOut)
      ensures answer == Some(TimedOut) ==> executions == old(executions)
    {
      var execution := Find(executions, id);
      var status := Failed;
      succeeded := false;
      if answer.None? {
        executions := Put(executions, id, SettledExecution(execution, answer));
      } else {
        match answer.value {
          case TimedOut =>
            status := Pending;
          case Errored =>
            executions := Put(executions, id, SettledExecution(execution, answer));
          case Replied(externalId, verified) =>
            if execution.Some? && verified && externalId.Some? {
              status := Succeeded;
              succeeded := true;
              executions := executions[id := Execution(ExecutionSucceeded, externalId, true)];
            } else {
              executions := Put(executions, id, SettledExecution(execution, answer));
            }
        }
      }
      assert execution.Some? ==> Put(executions, id, Find(executions, id)) == executions;
      rows := rows[id := rows[id].(status := status, attempts := rows[id].attempts + 1)];
    }

    /** One turn of the batch: the oldest pending row is claimed, settled and committed. */
    method SettleNext(answer: Option<Answer>) returns (done: bool)
      requires FirstPending(rows) < |rows|
      modifies this
      ensures rows == SettledOldest(old(rows), old(executions), answer)
      ensures executions == SettledExecutions(old(rows), old(executions), answer)
      ensures CountsOn(old(rows), rows, done) && (answer.None? ==> !done)
    {
      OldestCounts(rows, executions, answer);
      done := SettleRow(FirstPending(rows), answer);
    }

    /** The loop of `run_once`: one turn for each answer, until nothing is pending. */
    method RunBatch(answers: seq<Option<Answer>>) returns (claimed: nat, succeeded: nat, failed: nat)
      modifies this
      ensures claimed <= |answers| && Tallied(old(rows), rows, claimed, succeeded, failed)
      ensures claimed < |answers| ==> FirstPending(rows) == |rows|
      ensures (forall k :: 0 <= k < |answers| ==> answers[k].None?) ==> succeeded == 0
      ensures (rows, executions) == Batch(old(rows), old(executions), answers)
    {
      claimed, succeeded, failed := 0, 0, 0;
      for k := 0 to |answers|
        invariant Batch(old(rows), old(executions), answers) == Batch(rows, executions, answers[k..])
        invariant claimed == k && Tallied(old(rows), rows, claimed, succeeded, failed)
        invariant (forall i :: 0 <= i < |answers| ==> answers[i].None?) ==> succeeded == 0
      {
        if FirstPending(rows) == |rows| {
          return;
        }
        ghost var before := rows;
        BatchNext(rows, executions, answers, k);
        var done := SettleNext(answers[k]);
        TalliedMore(old(rows), before, rows, done, claimed, succeeded, failed);
        claimed := claimed + 1;
        if done {
          succeeded := succeeded + 1;
        } else {
          failed := failed + 1;
        }
      }
    }

    /**
     `run_once`: up to `batchSize` rows, each the oldest still pending; `answers[k]` is what the `k`th call ends in.
     The counters account for every attempt and every success.
     */
    method RunOnce(available: bool, answers: seq<Answer>, batchSize: int)
      returns (ok: bool, claimed: nat, succeeded: nat, failed: nat)
      requires |answers| >= batchSize
      modifies this
      ensures ok <==> batchSize >= 1
      ensures claimed == succeeded + failed && claimed <= Max(0, batchSize)
      ensures |rows| == |old(rows)| && TotalAttempts(rows) == TotalAttempts(old(rows)) + claimed
      ensures CountStatus(rows, Succeeded) == CountStatus(old(rows), Succeeded) + succeeded
      ensures ok && claimed < batchSize ==> FirstPending(rows) == |rows|
      ensures forall i :: 0 <= i < |rows| && !old(rows)[i].status.Pending? ==> rows[i] == old(rows)[i]
      ensures !available ==> succeeded == 0
      ensures (rows, executions) ==
        Batch(old(rows), old(executions), AnswersOf(available, answers[..Max(0, batchSize)]))
    {
      ok, claimed, succeeded, failed := batchSize >= 1, 0, 0, 0;
      if ok {
        claimed, succeeded, failed := RunBatch(AnswersOf(available, answers[..batchSize]));
      }
    }
  }

  /** A batch reaches a row only when no older one is pending any more, and leaves the others alone. */
  lemma {:induction false} OldestFirst(rows: seq<Row>, executions: map<RowId, Execution>, answers: seq<Option<Answer>>,
                                       i: nat, j: nat)
    requires j < i < |rows|
    ensures var (after, _) := Batch(rows, executions, answers);
      |after| == |rows| && (after[i] != rows[i] ==> !after[j].status.Pending?)
      && (!rows[j].status.Pending? ==> after[j] == rows[j])
    decreases |answers|
  {
    if answers != [] && FirstPending(rows) < |rows| {
      OldestFirst(SettledOldest(rows, executions, answers[0]), SettledExecutions(rows, executions, answers[0]),
                  answers[1..], i, j);
    }
  }

  // ---------------------------------------------------------------- many workers and the provider

  /** An event the provider created for a key. */
  datatype Event = Event(key: Key, id: ExternalId)

  /** A worker between transactions, holding a claimed row's lock, or knowing what its call ended in. */
  datatype Worker = Idle | Claimed(row: RowId) | Answered(row: RowId, answer: Option<Answer>)

  datatype World = World(
    rows: seq<Row>,
    executions: map<RowId, Execution>,
    workers: seq<Worker>,
    created: seq<Event>)

  predicate HasEvent(created: seq<Event>, key: Key) {
    exists e :: e in created && e.key == key
  }

  /** The provider deduplicates by key: a call that takes effect creates an event only if the key has none. */
  function Applied(created: seq<Event>, key: Key, id: ExternalId): seq<Event> {
    if HasEvent(created, key) then created else created + [Event(key, id)]
  }

  /** Whether a worker holds the lock of a row. */
  predicate Holds(w: Worker, row: RowId) {
    !w.Idle? && w.row == row
  }

  predicate Locked(world: World, row: RowId) {
    exists w :: 0 <= w < |world.workers| && Holds(world.workers[w], row)
  }

  /**
   One step: a command is enqueued (with or without its execution record); a worker claims the oldest pending row
   nobody has locked; its call takes effect or not and ends in an answer; it commits; or it crashes, which rolls its
   transaction back and drops its lock but undoes nothing at the provider.
   */
  datatype Action =
    | Enqueue(key: Key, recorded: bool)
    | Claim(w: nat, row: RowId)
    | Call(w: nat, effect: bool, id: ExternalId, answer: Answer)
    | SkipCall(w: nat)
    | Commit(w: nat)
    | Crash(w: nat)

  /** A verified answer names an event the provider has for the key. */
  ghost predicate Honest(created: seq<Event>, key: Key, answer: Answer) {
    answer.Replied? && answer.verified && answer.externalId.Some? ==> Event(key, answer.externalId.value) in created
  }

  ghost predicate Enabled(world: World, action: Action) {
    match action
    case Enqueue(key, _) => forall i :: 0 <= i < |world.rows| ==> world.rows[i].key != key
    case Claim(w, row) =>
      && w < |world.workers| && world.workers[w].Idle?
      && row < |world.rows| && world.rows[row].status.Pending? && !Locked(world, row)
      && forall j :: 0 <= j < row ==> !world.rows[j].status.Pending? || Locked(world, j)
    case Call(w, effect, id, answer) =>
      && w < |world.workers| && world.workers[w].Claimed? && world.workers[w].row < |world.rows|
      && var key := world.rows[world.workers[w].row].key;
         Honest(if effect then Applied(world.created, key, id) else world.created, key, answer)
    case SkipCall(w) => w < |world.workers| && world.workers[w].Claimed?
    case Commit(w) => w < |world.workers| && world.workers[w].Answered? && world.workers[w].row < |world.rows|
    case Crash(w) => w < |world.workers|
  }

  function Next(world: World, action: Action): World
    requires Enabled(world, action)
  {
    match action
    case Enqueue(key, recorded) =>
      world.(rows := world.rows + [Row(key, Pending, 0)],
             executions := if recorded then world.executions[|world.rows| := FRESH_EXECUTION]
                           else world.executions - {|world.rows|})
    case Claim(w, row) => world.(workers := world.workers[w := Claimed(row)])
    case Call(w, effect, id, answer) =>
      var row := world.workers[w].row;
      world.(workers := world.workers[w := Answered(row, Some(answer))],
             created := if effect then Applied(world.created, world.rows[row].key, id) else world.created)
    case SkipCall(w) => world.(workers := world.workers[w := Answered(world.workers[w].row, None)])
    case Commit(w) =>
      var row, answer := world.workers[w].row, world.workers[w].answer;
      var e := Find(world.executions, row);
      world.(rows := world.rows[row := SettledRow(world.rows[row], e, answer)],
             executions := Put(world.executions, row, SettledExecution(e, answer)),
             workers := world.workers[w := Idle])
    case Crash(w) => world.(workers := world.workers[w := Idle])
  }

  ghost predicate Runs(world: World, actions: seq<Action>, end: World)
    decreases |actions|
  {
    if actions == [] then end == world
    else Enabled(world, actions[0]) && Runs(Next(world, actions[0]), actions[1..], end)
  }

  // ---------------------------------------------------------------- what every run keeps

  /** Each key has at most one event at the provider. */
  ghost predicate OneEventPerKey(created: seq<Event>) {
    forall i, j :: 0 <= i < j < |created| ==> created[i].key != created[j].key
  }

  /** A worker holds a pending row, and a verified answer it holds names the event of that row's key. */
  ghost predicate WorkerOk(world: World, w: Worker) {
    !w.Idle? ==>
      && w.row < |world.rows| && world.rows[w.row].status.Pending?
      && (w.Answered? && w.answer.Some? ==> Honest(world.created, world.rows[w.row].key, w.answer.value))
  }

  ghost predicate WorkersOk(world: World) {
    forall w {:trigger world.workers[w]} :: 0 <= w < |world.workers| ==> WorkerOk(world, world.workers[w])
  }

  /** No row is locked twice. */
  ghost predicate LocksApart(world: World) {
    forall v, w :: 0 <= v < w < |world.workers| && !world.workers[v].Idle? && !world.workers[w].Idle? ==>
      world.workers[v].row != world.workers[w].row
  }

  /** The execution says the event of the key exists, under the id the provider gave it. */
  ghost predicate Confirmed(created: seq<Event>, key: Key, e: Option<Execution>) {
    e.Some? && e.value.status.ExecutionSucceeded? && e.value.verified && e.value.externalId.Some?
    && Event(key, e.value.externalId.value) in created
  }

  /** A row and its execution agree. */
  ghost predicate RowOk(created: seq<Event>, row: Row, e: Option<Execution>) {
    match row.status
    case Pending => e.Some? ==> e.value == FRESH_EXECUTION
    case Succeeded => Confirmed(created, row.key, e)
    case Failed => e.Some? ==> e.value == FAILED_EXECUTION
  }

  ghost predicate RowsOk(world: World) {
    forall i {:trigger world.rows[i]} :: 0 <= i < |world.rows| ==>
      RowOk(world.created, world.rows[i], Find(world.executions, i))
  }

  ghost predicate Inv(world: World) {
    OneEventPerKey(world.created) && WorkersOk(world) && LocksApart(world) && RowsOk(world)
  }

  lemma AppliedKeeps(created: seq<Event>, key: Key, id: ExternalId)
    requires OneEventPerKey(created)
    ensures OneEventPerKey(Applied(created, key, id)) && created <= Applied(created, key, id)
    ensures forall e :: e in created ==> e in Applied(created, key, id)
    ensures HasEvent(Applied(created, key, id), key)
  {
    var after := Applied(created, key, id);
    if !HasEvent(created, key) {
      assert after[|created|] == Event(key, id);
      forall i | 0 <= i < |created|
        ensures created[i].key != key
      {
        assert created[i] in created;
      }
    }
  }

  lemma MoreEvents(world: World, created: seq<Event>, w: Worker)
    requires WorkerOk(world, w) && forall e :: e in world.created ==> e in created
    ensures WorkerOk(world.(created := created), w)
  {
  }

  lemma RowsOkMore(world: World, created: seq<Event>)
    requires RowsOk(world) && forall e :: e in world.created ==> e in created
    ensures RowsOk(world.(created := created))
  {
    forall i | 0 <= i < |world.rows|
      ensures RowOk(created, world.rows[i], Find(world.executions, i))
    {
      assert RowOk(world.created, world.rows[i], Find(world.executions, i));
    }
  }

  lemma CallKeeps(world: World, w: nat, effect: bool, id: ExternalId, answer: Answer)
    requires Inv(world) && Enabled(world, Call(w, effect, id, answer))
    ensures Inv(Next(world, Call(w, effect, id, answer)))
  {
    var after := Next(world, Call(w, effect, id, answer));
    assert WorkerOk(world, world.workers[w]);
    AppliedKeeps(world.created, world.rows[world.workers[w].row].key, id);
    RowsOkMore(world, after.created);
    forall v | 0 <= v < |after.workers|
      ensures WorkerOk(after, after.workers[v])
    {
      if v != w {
        MoreEvents(world, after.created, world.workers[v]);
      }
    }
  }

  lemma SettledOk(created: seq<Event>, row: Row, e: Option<Execution>, answer: Option<Answer>)
    requires row.status.Pending? && RowOk(created, row, e)
    requires answer.Some? ==> Honest(created, row.key, answer.value)
    ensures RowOk(created, SettledRow(row, e, answer), SettledExecution(e, answer))
  {
  }

  lemma CommitKeeps(world: World, w: nat)
    requires Inv(world) && Enabled(world, Commit(w))
    ensures Inv(Next(world, Commit(w)))
  {
    var after := Next(world, Commit(w));
    var row, answer := world.workers[w].row, world.workers[w].answer;
    var e := Find(world.executions, row);
    assert WorkerOk(world, world.workers[w]);
    SettledOk(world.created, world.rows[row], e, answer);
    assert Find(after.executions, row) == SettledExecution(e, answer);
    forall i | 0 <= i < |after.rows|
      ensures RowOk(after.created, after.rows[i], Find(after.executions, i))
    {
      assert RowOk(world.created, world.rows[i], Find(world.executions, i));
    }
    forall v | 0 <= v < |after.workers|
      ensures WorkerOk(after, after.workers[v])
    {
      assert WorkerOk(world, world.workers[v]);
    }
  }

  lemma EnqueueKeeps(world: World, key: Key, recorded: bool)
    requires Inv(world) && Enabled(world, Enqueue(key, recorded))
    ensures Inv(Next(world, Enqueue(key, recorded)))
  {
    var after := Next(world, Enqueue(key, recorded));
    forall i | 0 <= i < |after.rows|
      ensures RowOk(after.created, after.rows[i], Find(after.executions, i))
    {
      if i < |world.rows| {
        assert RowOk(world.created, world.rows[i], Find(world.executions, i));
      }
    }
    forall v | 0 <= v < |after.workers|
      ensures WorkerOk(after, after.workers[v])
    {
      assert WorkerOk(world, world.workers[v]);
    }
  }

  lemma ClaimKeeps(world: World, w: nat, row: RowId)
    requires Inv(world) && Enabled(world, Claim(w, row))
    ensures Inv(Next(world, Claim(w, row)))
  {
    var after := Next(world, Claim(w, row));
    forall v | 0 <= v < |after.workers|
      ensures WorkerOk(after, after.workers[v]) && (v != w ==> !Holds(after.workers[v], row))
    {
      assert WorkerOk(world, world.workers[v]);
      assert v != w ==> after.workers[v] == world.workers[v];
    }
  }

  lemma ReleaseKeeps(world: World, w: nat)
    requires Inv(world) && w < |world.workers|
    ensures Inv(world.(workers := world.workers[w := Idle]))
    ensures world.workers[w].Claimed? ==> Inv(world.(workers := world.workers[w := Answered(world.workers[w].row, None)]))
  {
    assert WorkerOk(world, world.workers[w]);
    forall v | 0 <= v < |world.workers|
      ensures WorkerOk(world, world.workers[v])
    {
    }
  }

  lemma StepKeeps(world: World, action: Action)
    requires Inv(world) && Enabled(world, action)
    ensures Inv(Next(world, action))
  {
    match action
    case Enqueue(key, recorded) => EnqueueKeeps(world, key, recorded);
    case Claim(w, row) => ClaimKeeps(world, w, row);
    case Call(w, effect, id, answer) => CallKeeps(world, w, effect, id, answer);
    case SkipCall(w) => ReleaseKeeps(world, w);
    case Commit(w) => CommitKeeps(world, w);
    case Crash(w) => ReleaseKeeps(world, w);
  }

  lemma {:induction false} RunKeeps(world: World, actions: seq<Action>, end: World)
    requires Inv(world) && Runs(world, actions, end)
    ensures Inv(end)
    decreases |actions|
  {
    if actions != [] {
      StepKeeps(world, actions[0]);
      RunKeeps(Next(world, actions[0]), actions[1..], end);
    }
  }

  /** No rows, no events, everyone idle. */
  ghost predicate Empty(world: World) {
    world.rows == [] && world.created == [] && forall w :: 0 <= w < |world.workers| ==> world.workers[w].Idle?
  }

  lemma EmptyInv(world: World)
    requires Empty(world)
    ensures Inv(world)
  {
  }

  /**
   In every reachable state each key has at most one external event, no row is in two hands, and a row has succeeded
   exactly when its execution is verified, under the id of its key's event.
   */
  lemma OneEventAndVerifiedSuccess(start: World, actions: seq<Action>, end: World, i: RowId)
    requires Empty(start) && Runs(start, actions, end) && i < |end.rows|
    ensures OneEventPerKey(end.created) && LocksApart(end)
    ensures end.rows[i].status.Succeeded? <==> Confirmed(end.created, end.rows[i].key, Find(end.executions, i))
    ensures end.rows[i].status.Succeeded? <==> i in end.executions && end.executions[i].verified
  {
    EmptyInv(start);
    RunKeeps(start, actions, end);
    assert RowOk(end.created, end.rows[i], Find(end.executions, i));
  }

  // ---------------------------------------------------------------- terminal rows

  ghost predicate Terminal(world: World, i: RowId) {
    i < |world.rows| && !world.rows[i].status.Pending?
  }

  lemma StepKeepsTerminal(world: World, action: Action, i: RowId)
    requires Inv(world) && Enabled(world, action) && Terminal(world, i)
    ensures Terminal(Next(world, action), i) && Next(world, action).rows[i] == world.rows[i]
    ensures Find(Next(world, action).executions, i) == Find(world.executions, i)
    ensures forall w :: action != Claim(w, i)
  {
    if action.Commit? {
      assert WorkerOk(world, world.workers[action.w]);
    }
  }

  /** A settled row is never claimed again and never changes, nor does its execution. */
  lemma {:induction false} TerminalForever(world: World, actions: seq<Action>, end: World, i: RowId)
    requires Inv(world) && Runs(world, actions, end) && Terminal(world, i)
    ensures i < |end.rows| && end.rows[i] == world.rows[i] && Find(end.executions, i) == Find(world.executions, i)
    ensures forall k, w :: 0 <= k < |actions| ==> actions[k] != Claim(w, i)
    decreases |actions|
  {
    if actions != [] {
      StepKeeps(world, actions[0]);
      StepKeepsTerminal(world, actions[0], i);
      TerminalForever(Next(world, actions[0]), actions[1..], end, i);
      forall k, w | 0 <= k < |actions|
        ensures actions[k] != Claim(w, i)
      {
        assert k > 0 ==> actions[k] == actions[1..][k - 1];
      }
    }
  }

  // ---------------------------------------------------------------- when a row is closed, and when it is tried again

  /** In the run some commit settles row `i` with a proof. */
  ghost predicate ProvenDuring(world: World, actions: seq<Action>, i: RowId)
    decreases |actions|
  {
    && actions != [] && Enabled(world, actions[0])
    && ((actions[0].Commit? && world.workers[actions[0].w].row == i &&
           Proven(Find(world.executions, i), world.workers[actions[0].w].answer)) ||
        ProvenDuring(Next(world, actions[0]), actions[1..], i))
  }

  /** In the run some commit settles row `i` without a proof and without a timeout. */
  ghost predicate FailedDuring(world: World, actions: seq<Action>, i: RowId)
    decreases |actions|
  {
    && actions != [] && Enabled(world, actions[0])
    && ((actions[0].Commit? && world.workers[actions[0].w].row == i &&
           world.workers[actions[0].w].answer != Some(TimedOut) &&
           !Proven(Find(world.executions, i), world.workers[actions[0].w].answer)) ||
        FailedDuring(Next(world, actions[0]), actions[1..], i))
  }

  ghost predicate HasStatus(world: World, i: RowId, status: RowStatus) {
    i < |world.rows| && world.rows[i].status == status
  }

  /** The first step of a run towards closing a row. */
  lemma StepCloses(world: World, action: Action, i: RowId)
    requires Inv(world) && Enabled(world, action)
    ensures var commits := action.Commit? && world.workers[action.w].row == i;
      && (HasStatus(Next(world, action), i, Succeeded) <==>
            HasStatus(world, i, Succeeded) ||
            (commits && Proven(Find(world.executions, i), world.workers[action.w].answer)))
      && (HasStatus(Next(world, action), i, Failed) <==>
            HasStatus(world, i, Failed) ||
            (commits && world.workers[action.w].answer != Some(TimedOut) &&
             !Proven(Find(world.executions, i), world.workers[action.w].answer)))
  {
    if action.Commit? {
      var row := world.workers[action.w].row;
      assert WorkerOk(world, world.workers[action.w]);
      SettledExactly(world.rows[row], Find(world.executions, row), world.workers[action.w].answer);
    }
  }

  /**
   Over any run a row ends succeeded exactly when it was, or some commit settled it with a proof; and failed exactly
   when it was, or some commit settled it with no executor, an error, or a reply that proves nothing.
   */
  lemma {:induction false} ClosedExactlyWhen(world: World, actions: seq<Action>, end: World, i: RowId)
    requires Inv(world) && Runs(world, actions, end)
    ensures HasStatus(end, i, Succeeded) <==> HasStatus(world, i, Succeeded) || ProvenDuring(world, actions, i)
    ensures HasStatus(end, i, Failed) <==> HasStatus(world, i, Failed) || FailedDuring(world, actions, i)
    decreases |actions|
  {
    if actions != [] {
      StepKeeps(world, actions[0]);
      StepCloses(world, actions[0], i);
      ClosedExactlyWhen(Next(world, actions[0]), actions[1..], end, i);
    }
  }

  lemma StepKeepsOpen(world: World, action: Action, i: RowId)
    requires Inv(world) && Enabled(world, action) && HasStatus(world, i, Pending)
    requires HasStatus(Next(world, action), i, Pending)
    ensures Find(Next(world, action).executions, i) == Find(world.executions, i)
    ensures Next(world, action).rows[i].key == world.rows[i].key
  {
    if action.Commit? {
      var row := world.workers[action.w].row;
      assert WorkerOk(world, world.workers[action.w]);
      SettledExactly(world.rows[row], Find(world.executions, row), world.workers[action.w].answer);
    }
  }

  lemma RowsStay(world: World, action: Action, i: RowId)
    requires Enabled(world, action) && i < |world.rows|
    ensures i < |Next(world, action).rows|
  {
  }

  /** Nobody holds the row, and every older pending row is held. */
  ghost predicate NextInLine(world: World, i: RowId) {
    i < |world.rows| && !Locked(world, i) && forall j :: 0 <= j < i && world.rows[j].status.Pending? ==> Locked(world, j)
  }

  /**
   Until a commit closes it, a row stays pending and its execution stays as it was, however many calls time out; and
   any idle worker may claim it as soon as no one holds it and every older pending row is held.
   */
  lemma {:induction false} OpenUntilClosed(world: World, actions: seq<Action>, end: World, i: RowId, v: nat)
    requires Inv(world) && Runs(world, actions, end) && HasStatus(world, i, Pending)
    requires !ProvenDuring(world, actions, i) && !FailedDuring(world, actions, i)
    ensures HasStatus(end, i, Pending) && Find(end.executions, i) == Find(world.executions, i)
    ensures v < |end.workers| && end.workers[v].Idle? && NextInLine(end, i) ==> Enabled(end, Claim(v, i))
    decreases |actions|
  {
    if actions != [] {
      var next := Next(world, actions[0]);
      StepKeeps(world, actions[0]);
      StepCloses(world, actions[0], i);
      RowsStay(world, actions[0], i);
      StepKeepsOpen(world, actions[0], i);
      OpenUntilClosed(next, actions[1..], end, i, v);
    }
  }

  /** A commit of a timeout counts the attempt, changes nothing else of row and execution, and lets go of the row. */
  lemma TimeoutReopens(world: World, w: nat)
    requires Inv(world) && Enabled(world, Commit(w)) && world.workers[w].answer == Some(TimedOut)
    ensures var after, i := Next(world, Commit(w)), world.workers[w].row;
      && after.rows[i] == Row(world.rows[i].key, Pending, world.rows[i].attempts + 1)
      && Find(after.executions, i) == Find(world.executions, i) && after.workers[w] == Idle && !Locked(after, i)
  {
    var after, i := Next(world, Commit(w)), world.workers[w].row;
    assert WorkerOk(world, world.workers[w]);
    SettledExactly(world.rows[i], Find(world.executions, i), world.workers[w].answer);
    forall v | 0 <= v < |after.workers|
      ensures !Holds(after.workers[v], i)
    {
    }
  }
}
