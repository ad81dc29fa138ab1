/** Proposal decisions: approve, reject and undo, and what any serialised run of them keeps. */
module Approvals {
  import opened Domain

  type ProposalId = nat
  type WorkspaceId = nat
  type Hash = nat

  /** A JSON value, as far as the checks tell values apart. */
  datatype Json = Text(text: string) | Number(n: int) | OtherJson

  /** The one entry of a targets list; `None` where the member is missing or no object. */
  datatype RawChange = RawChange(
    targetType: Json,
    targetId: Json,
    version: Json,
    values: Option<map<string, Json>>,
    before: Option<map<string, Json>>)

  datatype Targets = NotOneObject | One(change: RawChange)

  datatype Status = Pending | Executed | Rejected | Superseded | Undone | OtherStatus

  datatype Proposal = Proposal(workspace: WorkspaceId, status: Status, version: int, targets: Targets, payloadHash: Hash)

  datatype Task = Task(workspace: WorkspaceId, version: int, title: string)

  datatype Decision = ApproveTaskChange | RejectProposal

  /** An approval record. */
  datatype Approval = Approval(proposal: ProposalId, proposalVersion: int, decision: Decision, commandHash: Hash)

  datatype Store = Store(proposals: map<ProposalId, Proposal>, tasks: map<TaskId, Task>, approvals: seq<Approval>)

  /** The hash of a payload's canonical text, and reading a UUID. */
  datatype Codec = Codec(hash: Targets -> Hash, uuid: string -> Option<TaskId>)

  datatype Conflict = AlreadyResolved | ProposalVersionChanged | PayloadHashMismatch | NoUsableBefore

  datatype Outcome =
    | NotFound
    | Conflicts(reason: Conflict)
    | InvalidPayload
    | TargetVersionChanged
    | ExecutedAs(title: string)
    | RejectedNow
    | UndoneTo(title: string)
    | StorageError

  // ---------------------------------------------------------------- checks

  predicate IsBlankChar(ch: char) {
    var n := ch as int;
    || 0x09 <= n <= 0x0D || 0x1C <= n <= 0x20 || n in {0x85, 0xA0, 0x1680, 0x2028, 0x2029, 0x202F, 0x205F, 0x3000}
    || 0x2000 <= n <= 0x200A
  }

  /** Nothing is left after `strip`. */
  predicate Blank(s: string) {
    forall i :: 0 <= i < |s| ==> IsBlankChar(s[i])
  }

  const TITLE: string := "title"
  const TASK: string := "task"

  /** All that a valid change says: which task, at which version, gets which title; and the recorded title before. */
  datatype Change = Change(targetId: string, targetVersion: int, title: string, before: Option<map<string, Json>>)

  /** A dictionary that sets the title and nothing else. */
  predicate OnlyTitle(values: map<string, Json>) {
    TITLE in values && forall k :: k in values ==> k == TITLE
  }

  /** `_validated_task_change`. */
  function ValidatedChange(targets: Targets): Option<Change> {
    if targets.NotOneObject? then None
    else
      var c := targets.change;
      if c.targetType != Text(TASK) || !c.targetId.Text? || !c.version.Number? || c.values.None? then None
      else if !OnlyTitle(c.values.value) then None
      else
        var title := c.values.value[TITLE];
        if !title.Text? || Blank(title.text) then None
        else Some(Change(c.targetId.text, c.version.n, title.text, c.before))
  }

  function HashMatches(codec: Codec, p: Proposal): bool {
    codec.hash(p.targets) == p.payloadHash
  }

  /** `_decision_conflict`. */
  function DecisionConflict(p: Proposal, expected: int): Option<Conflict> {
    if !p.status.Pending? then Some(AlreadyResolved)
    else if p.version != expected then Some(ProposalVersionChanged)
    else None
  }

  /** The proposal, if the workspace has it. */
  function Owned(s: Store, workspace: WorkspaceId, id: ProposalId): Option<Proposal> {
    if id in s.proposals && s.proposals[id].workspace == workspace then Some(s.proposals[id]) else None
  }

  /** The task a change names, if there is such a task in the workspace. */
  function TargetOf(codec: Codec, s: Store, workspace: WorkspaceId, change: Change): Option<TaskId> {
    match codec.uuid(change.targetId)
    case None => None
    case Some(id) => if id in s.tasks && s.tasks[id].workspace == workspace then Some(id) else None
  }

  // ---------------------------------------------------------------- the operations

  function Moved(p: Proposal, status: Status): Proposal {
    p.(status := status, version := p.version + 1)
  }

  function Retitled(t: Task, title: string): Task {
    t.(title := title, version := t.version + 1)
  }

  function Recorded(s: Store, id: ProposalId, p: Proposal, expected: int, decision: Decision): seq<Approval> {
    s.approvals + [Approval(id, expected, decision, p.payloadHash)]
  }

  function Approved(codec: Codec, s: Store, workspace: WorkspaceId, id: ProposalId, expected: int): (Store, Outcome) {
    match Owned(s, workspace, id)
    case None => (s, NotFound)
    case Some(p) =>
      if DecisionConflict(p, expected).Some? then (s, Conflicts(DecisionConflict(p, expected).value))
      else if !HashMatches(codec, p) then (s, Conflicts(PayloadHashMismatch))
      else
        match ValidatedChange(p.targets)
        case None => (s, InvalidPayload)
        case Some(change) =>
          var target := TargetOf(codec, s, workspace, change);
          if target.None? || s.tasks[target.value].version != change.targetVersion then
            (s.(proposals := s.proposals[id := Moved(p, Superseded)]), TargetVersionChanged)
          else
            (Store(s.proposals[id := Moved(p, Executed)],
                   s.tasks[target.value := Retitled(s.tasks[target.value], change.title)],
                   Recorded(s, id, p, expected, ApproveTaskChange)),
             ExecutedAs(change.title))
  }

  function RejectedBy(codec: Codec, s: Store, workspace: WorkspaceId, id: ProposalId, expected: int): (Store, Outcome) {
    match Owned(s, workspace, id)
    case None => (s, NotFound)
    case Some(p) =>
      if DecisionConflict(p, expected).Some? then (s, Conflicts(DecisionConflict(p, expected).value))
      else if !HashMatches(codec, p) then (s, Conflicts(PayloadHashMismatch))
      else
        (s.(proposals := s.proposals[id := Moved(p, Rejected)],
            approvals := Recorded(s, id, p, expected, RejectProposal)),
         RejectedNow)
  }

  /** The recorded title before the change: nothing usable, or the value an undo would write. */
  function BeforeTitle(change: Change): Option<Json> {
    if change.before.None? || !OnlyTitle(change.before.value) then None else Some(change.before.value[TITLE])
  }

  function UndoneBy(codec: Codec, s: Store, workspace: WorkspaceId, id: ProposalId): (Store, Outcome) {
    match Owned(s, workspace, id)
    case None => (s, NotFound)
    case Some(p) =>
      if !p.status.Executed? || !HashMatches(codec, p) then (s, NotFound)
      else
        match ValidatedChange(p.targets)
        case None => (s, Conflicts(NoUsableBefore))
        case Some(change) =>
          match BeforeTitle(change)
          case None => (s, Conflicts(NoUsableBefore))
          case Some(before) =>
            match TargetOf(codec, s, workspace, change)
            case None => (s, NotFound)
            case Some(target) =>
              if !before.Text? then (s, StorageError)
              else
                (s.(proposals := s.proposals[id := Moved(p, Undone)],
                    tasks := s.tasks[target := Retitled(s.tasks[target], before.text)]),
                 UndoneTo(before.text))
  }

  class ApprovalService {
    var store: Store
    const codec: Codec

    constructor (store: Store, codec: Codec)
      ensures this.store == store && this.codec == codec
    {
      this.store, this.codec := store, codec;
    }

    /** Change a stored proposal's status; every such move raises its version. */
    method Move(id: ProposalId, status: Status)
      requires id in store.proposals
      modifies this
      ensures store == old(store).(proposals := old(store).proposals[id := Moved(old(store).proposals[id], status)])
    {
      var p := store.proposals[id];
      store := store.(proposals := store.proposals[id := p.(status := status, version := p.version + 1)]);
    }

    method SetTitle(target: TaskId, title: string)
      requires target in store.tasks
      modifies this
      ensures store == old(store).(tasks := old(store).tasks[target := Retitled(old(store).tasks[target], title)])
    {
      var t := store.tasks[target];
      store := store.(tasks := store.tasks[target := t.(title := title, version := t.version + 1)]);
    }

    method Record(id: ProposalId, expected: int, decision: Decision, commandHash: Hash)
      modifies this
      ensures store == old(store).(approvals := old(store).approvals + [Approval(id, expected, decision, commandHash)])
    {
      store := store.(approvals := store.approvals + [Approval(id, expected, decision, commandHash)]);
    }

    method Approve(workspace: WorkspaceId, id: ProposalId, expected: int) returns (outcome: Outcome)
      modifies this
      ensures (store, outcome) == Approved(codec, old(store), workspace, id, expected)
    {
      var proposal := Owned(store, workspace, id);
      if proposal.None? {
        return NotFound;
      }
      var conflict := DecisionConflict(proposal.value, expected);
      if conflict.Some? {
        return Conflicts(conflict.value);
      }
      if !HashMatches(codec, proposal.value) {
        return Conflicts(PayloadHashMismatch);
      }
      var change := ValidatedChange(proposal.value.targets);
      if change.None? {
        return InvalidPayload;
      }
      var target := TargetOf(codec, store, workspace, change.value);
      if target.None? || store.tasks[target.value].version != change.value.targetVersion {
        Move(id, Superseded);
        return TargetVersionChanged;
      }
      SetTitle(target.value, change.value.title);
      Move(id, Executed);
      Record(id, expected, ApproveTaskChange, proposal.value.payloadHash);
      outcome := ExecutedAs(change.value.title);
    }

    method Reject(workspace: WorkspaceId, id: ProposalId, expected: int) returns (outcome: Outcome)
      modifies this
      ensures (store, outcome) == RejectedBy(codec, old(store), workspace, id, expected)
    {
      var proposal := Owned(store, workspace, id);
      if proposal.None? {
        return NotFound;
      }
      var conflict := DecisionConflict(proposal.value, expected);
      if conflict.Some? {
        return Conflicts(conflict.value);
      }
      if !HashMatches(codec, proposal.value) {
        return Conflicts(PayloadHashMismatch);
      }
      Move(id, Rejected);
      Record(id, expected, RejectProposal, proposal.value.payloadHash);
      outcome := RejectedNow;
    }

    method Undo(workspace: WorkspaceId, id: ProposalId) returns (outcome: Outcome)
      modifies this
      ensures (store, outcome) == UndoneBy(codec, old(store), workspace, id)
    {
      var proposal := Owned(store, workspace, id);
      if proposal.None? || !proposal.value.status.Executed? || !HashMatches(codec, proposal.value) {
        return NotFound;
      }
      var change := ValidatedChange(proposal.value.targets);
      if change.None? {
        return Conflicts(NoUsableBefore);
      }
      var before := BeforeTitle(change.value);
      if before.None? {
        return Conflicts(NoUsableBefore);
      }
      var target := TargetOf(codec, store, workspace, change.value);
      if target.None? {
        return NotFound;
      }
      if !before.value.Text? {
        return StorageError;
      }
      SetTitle(target.value, before.value.text);
      Move(id, Undone);
      outcome := UndoneTo(before.value.text);
    }
  }

  // ---------------------------------------------------------------- runs

  /** One request, or one change made elsewhere: a task edited, a proposal filed, or a stored payload altered. */
  datatype Action =
    | Approve(workspace: WorkspaceId, id: ProposalId, expected: int)
    | Reject(workspace: WorkspaceId, id: ProposalId, expected: int)
    | Undo(workspace: WorkspaceId, id: ProposalId)
    | EditTask(task: TaskId, edited: Task)
    | File(id: ProposalId, filed: Proposal)
    | Alter(id: ProposalId, altered: Targets)

  function Next(codec: Codec, s: Store, action: Action): Store {
    match action
    case Approve(workspace, id, expected) => Approved(codec, s, workspace, id, expected).0
    case Reject(workspace, id, expected) => RejectedBy(codec, s, workspace, id, expected).0
    case Undo(workspace, id) => UndoneBy(codec, s, workspace, id).0
    case EditTask(task, edited) => s.(tasks := s.tasks[task := edited])
    case File(id, filed) =>
      if id in s.proposals then s
      else s.(proposals := s.proposals[id := filed.(status := Pending, version := 1)])
    case Alter(id, altered) =>
      if id in s.proposals then s.(proposals := s.proposals[id := s.proposals[id].(targets := altered)]) else s
  }

  function Run(codec: Codec, s: Store, actions: seq<Action>): Store
    decreases |actions|
  {
    if actions == [] then s else Run(codec, Next(codec, s, actions[0]), actions[1..])
  }

  function ApprovalsOf(approvals: seq<Approval>, id: ProposalId): nat {
    if approvals == [] then 0
    else ApprovalsOf(approvals[..|approvals| - 1], id) + (if approvals[|approvals| - 1].proposal == id then 1 else 0)
  }

  /** How many moves lead to a status. */
  function Moves(status: Status): nat {
    match status
    case Pending => 0
    case Executed => 1
    case Rejected => 1
    case Superseded => 1
    case Undone => 2
    case OtherStatus => 0
  }

  predicate Decided(status: Status) {
    status.Executed? || status.Rejected? || status.Undone?
  }

  /** The version counts the moves, and there is one approval record exactly when there was a decision. */
  ghost predicate ProposalOk(s: Store, id: ProposalId) {
    if id in s.proposals then
      var p := s.proposals[id];
      && !p.status.OtherStatus? && p.version == 1 + Moves(p.status)
      && ApprovalsOf(s.approvals, id) == if Decided(p.status) then 1 else 0
    else ApprovalsOf(s.approvals, id) == 0
  }

  lemma OneMoreApproval(approvals: seq<Approval>, a: Approval, id: ProposalId)
    ensures ApprovalsOf(approvals + [a], id) == ApprovalsOf(approvals, id) + (if a.proposal == id then 1 else 0)
  {
    assert (approvals + [a])[..|approvals|] == approvals;
  }

  lemma StepKeepsProposal(codec: Codec, s: Store, action: Action, id: ProposalId)
    requires ProposalOk(s, id)
    ensures ProposalOk(Next(codec, s, action), id)
  {
    var after := Next(codec, s, action);
    if after.approvals != s.approvals {
      OneMoreApproval(s.approvals, after.approvals[|s.approvals|], id);
    }
  }

  /** Over any run, every proposal has at most one approval record, exactly one if and only if it was decided. */
  lemma {:induction false} AtMostOneApproval(codec: Codec, s: Store, actions: seq<Action>, id: ProposalId)
    requires ProposalOk(s, id)
    ensures ProposalOk(Run(codec, s, actions), id)
    decreases |actions|
  {
    if actions != [] {
      StepKeepsProposal(codec, s, actions[0], id);
      AtMostOneApproval(codec, Next(codec, s, actions[0]), actions[1..], id);
    }
  }

  /** The moves there are, each raising the version by one; the payload may be altered, its hash may not. */
  ghost predicate Follows(p: Proposal, q: Proposal) {
    var same := p.(targets := q.targets);
    || q == same
    || (p.status.Pending? && q.status in {Executed, Rejected, Superseded} && q == Moved(same, q.status))
    || (p.status.Executed? && q == Moved(same, Undone))
  }

  lemma StepFollows(codec: Codec, s: Store, action: Action, id: ProposalId)
    requires id in s.proposals
    ensures id in Next(codec, s, action).proposals && Follows(s.proposals[id], Next(codec, s, action).proposals[id])
  {
  }

  /** What a proposal can have become: nothing it was decided on is ever taken back except by the one undo. */
  ghost predicate Became(p: Proposal, q: Proposal) {
    || Follows(p, q)
    || (p.status.Pending? && q == Moved(Moved(p.(targets := q.targets), Executed), Undone))
  }

  lemma {:induction false} RunBecomes(codec: Codec, s: Store, actions: seq<Action>, id: ProposalId)
    requires id in s.proposals
    ensures id in Run(codec, s, actions).proposals && Became(s.proposals[id], Run(codec, s, actions).proposals[id])
    decreases |actions|
  {
    if actions != [] {
      StepFollows(codec, s, actions[0], id);
      RunBecomes(codec, Next(codec, s, actions[0]), actions[1..], id);
    }
  }

  // ---------------------------------------------------------------- targets

  /** The proposal is pending at the expected version, its payload is intact, and its target is at the bound version. */
  ghost predicate MayExecute(codec: Codec, s: Store, workspace: WorkspaceId, id: ProposalId, expected: int, target: TaskId) {
    && Owned(s, workspace, id).Some?
    && var p := s.proposals[id];
       && p.status.Pending? && p.version == expected && HashMatches(codec, p)
       && ValidatedChange(p.targets).Some?
       && TargetOf(codec, s, workspace, ValidatedChange(p.targets).value) == Some(target)
       && s.tasks[target].version == ValidatedChange(p.targets).value.targetVersion
  }

  ghost predicate MayUndo(codec: Codec, s: Store, workspace: WorkspaceId, id: ProposalId, target: TaskId) {
    && Owned(s, workspace, id).Some?
    && var p := s.proposals[id];
       && p.status.Executed? && HashMatches(codec, p) && ValidatedChange(p.targets).Some?
       && var change := ValidatedChange(p.targets).value;
          && BeforeTitle(change).Some? && BeforeTitle(change).value.Text?
          && TargetOf(codec, s, workspace, change) == Some(target)
  }

  /** A task is changed exactly when an intact, version-bound approval executes on it, or when an execution is undone. */
  lemma TargetChangesExactlyWhen(codec: Codec, s: Store, action: Action, t: TaskId)
    requires action.Approve? || action.Reject? || action.Undo?
    ensures Next(codec, s, action).tasks.Keys == s.tasks.Keys
    ensures t in s.tasks ==>
      (Next(codec, s, action).tasks[t] != s.tasks[t] <==>
         (action.Approve? && MayExecute(codec, s, action.workspace, action.id, action.expected, t)) ||
         (action.Undo? && MayUndo(codec, s, action.workspace, action.id, t)))
    ensures t in s.tasks && Next(codec, s, action).tasks[t] != s.tasks[t] ==>
      Next(codec, s, action).tasks[t].version == s.tasks[t].version + 1
  {
  }

  // ---------------------------------------------------------------- one execution for each version of a task

  /** Edits made elsewhere raise the version of the task they edit. */
  ghost predicate EditsRaise(codec: Codec, s: Store, actions: seq<Action>)
    decreases |actions|
  {
    actions == [] || (EditRaises(s, actions[0]) && EditsRaise(codec, Next(codec, s, actions[0]), actions[1..]))
  }

  ghost predicate EditRaises(s: Store, action: Action) {
    action.EditTask? && action.task in s.tasks ==> action.edited.version > s.tasks[action.task].version
  }

  lemma VersionStep(codec: Codec, s: Store, action: Action, t: TaskId)
    requires EditRaises(s, action) && t in s.tasks
    ensures t in Next(codec, s, action).tasks && Next(codec, s, action).tasks[t].version >= s.tasks[t].version
  {
  }

  lemma {:induction false} VersionsRise(codec: Codec, s: Store, actions: seq<Action>, t: TaskId)
    requires EditsRaise(codec, s, actions) && t in s.tasks
    ensures t in Run(codec, s, actions).tasks && Run(codec, s, actions).tasks[t].version >= s.tasks[t].version
    decreases |actions|
  {
    if actions != [] {
      VersionStep(codec, s, actions[0], t);
      VersionsRise(codec, Next(codec, s, actions[0]), actions[1..], t);
    }
  }

  /** An approval request that would execute, and the version of the task it is bound to. */
  datatype Request = Request(workspace: WorkspaceId, id: ProposalId, expected: int)

  ghost predicate Executes(codec: Codec, s: Store, r: Request, t: TaskId) {
    MayExecute(codec, s, r.workspace, r.id, r.expected, t)
  }

  ghost function BoundVersion(codec: Codec, s: Store, r: Request, t: TaskId): int
    requires Executes(codec, s, r, t)
  {
    ValidatedChange(s.proposals[r.id].targets).value.targetVersion
  }

  /**
   However requests, filings and version-raising edits mix, two executions on one task are bound to different
   versions of it, the later one to the higher: of all proposals bound to one version at most one is ever executed.
   */
  lemma OneExecutionPerVersion(codec: Codec, s: Store, first: Request, actions: seq<Action>, second: Request, t: TaskId)
    requires Executes(codec, s, first, t)
    requires var after := Approved(codec, s, first.workspace, first.id, first.expected).0;
      EditsRaise(codec, after, actions) && Executes(codec, Run(codec, after, actions), second, t)
    ensures var after := Approved(codec, s, first.workspace, first.id, first.expected).0;
      BoundVersion(codec, s, first, t) < BoundVersion(codec, Run(codec, after, actions), second, t)
  {
    var after := Approved(codec, s, first.workspace, first.id, first.expected).0;
    ExecutedState(codec, s, first.workspace, first.id, first.expected, t);
    VersionsRise(codec, after, actions, t);
  }

  // ---------------------------------------------------------------- the payload that was hashed

  ghost predicate Injective(codec: Codec) {
    forall a, b :: codec.hash(a) == codec.hash(b) ==> a == b
  }

  /** The hash recorded for a proposal is that of `reviewed`. */
  ghost predicate HashedAs(codec: Codec, s: Store, id: ProposalId, reviewed: Targets) {
    id in s.proposals && s.proposals[id].payloadHash == codec.hash(reviewed)
  }

  /** A recorded hash outlasts every run. */
  lemma HashStays(codec: Codec, s: Store, actions: seq<Action>, id: ProposalId, reviewed: Targets)
    requires HashedAs(codec, s, id, reviewed)
    ensures HashedAs(codec, Run(codec, s, actions), id, reviewed)
  {
    RunBecomes(codec, s, actions, id);
  }

  /**
   With a collision-free hash, whatever happened since a payload was hashed, its stored copy altered included: what
   is executed is that payload, on the task and at the version it names.
   */
  lemma ExecutesWhatWasHashed(codec: Codec, s: Store, actions: seq<Action>, r: Request, t: TaskId, reviewed: Targets)
    requires Injective(codec) && HashedAs(codec, s, r.id, reviewed)
    requires Executes(codec, Run(codec, s, actions), r, t)
    ensures ValidatedChange(reviewed).Some?
    ensures var now, change := Run(codec, s, actions), ValidatedChange(reviewed).value;
      && TargetOf(codec, now, r.workspace, change) == Some(t) && now.tasks[t].version == change.targetVersion
      && Approved(codec, now, r.workspace, r.id, r.expected).0.tasks == now.tasks[t := Retitled(now.tasks[t], change.title)]
  {
    HashStays(codec, s, actions, r.id, reviewed);
    assert codec.hash(Run(codec, s, actions).proposals[r.id].targets) == codec.hash(reviewed);
    ExecutedState(codec, Run(codec, s, actions), r.workspace, r.id, r.expected, t);
  }

  // ---------------------------------------------------------------- undo

  lemma ExecutedState(codec: Codec, s: Store, workspace: WorkspaceId, id: ProposalId, expected: int, target: TaskId)
    requires MayExecute(codec, s, workspace, id, expected, target)
    ensures var after := Approved(codec, s, workspace, id, expected).0;
      var change := ValidatedChange(s.proposals[id].targets).value;
      && after.proposals == s.proposals[id := Moved(s.proposals[id], Executed)]
      && after.tasks == s.tasks[target := Retitled(s.tasks[target], change.title)]
      && TargetOf(codec, after, workspace, change) == Some(target)
  {
  }

  /** The recorded title is the one the task has. */
  ghost predicate RecordsTitle(codec: Codec, s: Store, id: ProposalId, t: TaskId)
    requires id in s.proposals && t in s.tasks
  {
    var change := ValidatedChange(s.proposals[id].targets);
    change.Some? && BeforeTitle(change.value) == Some(Text(s.tasks[t].title))
  }

  /**
   Whatever happens between an approval and its undo, edits of the title and of the stored payload included: the undo
   gives back the title the approval replaced exactly when the payload recorded that title. It writes what was
   recorded, not what was replaced, and no later edit keeps it from doing so.
   */
  lemma UndoRestoresExactlyWhenRecorded(codec: Codec, s: Store, r: Request, t: TaskId, actions: seq<Action>)
    requires Injective(codec) && Executes(codec, s, r, t)
    requires var now := Run(codec, Approved(codec, s, r.workspace, r.id, r.expected).0, actions);
      MayUndo(codec, now, r.workspace, r.id, t)
    ensures var now := Run(codec, Approved(codec, s, r.workspace, r.id, r.expected).0, actions);
      var end := UndoneBy(codec, now, r.workspace, r.id).0;
      && (end.tasks[t].title == s.tasks[t].title <==> RecordsTitle(codec, s, r.id, t))
      && end.tasks[t].version == now.tasks[t].version + 1
  {
    var reviewed := s.proposals[r.id].targets;
    var after := Approved(codec, s, r.workspace, r.id, r.expected).0;
    var now := Run(codec, after, actions);
    ExecutedState(codec, s, r.workspace, r.id, r.expected, t);
    HashStays(codec, after, actions, r.id, reviewed);
    assert codec.hash(now.proposals[r.id].targets) == codec.hash(reviewed);
    UndoneState(codec, now, r.workspace, r.id, t);
  }

  lemma UndoneState(codec: Codec, s: Store, workspace: WorkspaceId, id: ProposalId, t: TaskId)
    requires MayUndo(codec, s, workspace, id, t)
    ensures var change := ValidatedChange(s.proposals[id].targets).value;
      UndoneBy(codec, s, workspace, id).0.tasks == s.tasks[t := Retitled(s.tasks[t], BeforeTitle(change).value.text)]
  {
  }

  /** Right after an approval an undo is possible exactly when the payload recorded a title. */
  lemma UndoPossible(codec: Codec, s: Store, r: Request, t: TaskId)
    requires Executes(codec, s, r, t)
    ensures var after := Approved(codec, s, r.workspace, r.id, r.expected).0;
      var before := BeforeTitle(ValidatedChange(s.proposals[r.id].targets).value);
      MayUndo(codec, after, r.workspace, r.id, t) <==> before.Some? && before.value.Text?
  {
    ExecutedState(codec, s, r.workspace, r.id, r.expected, t);
  }

  /** Edits of one task that leave it in its workspace. */
  ghost predicate EditsOf(actions: seq<Action>, t: TaskId, workspace: WorkspaceId) {
    forall i :: 0 <= i < |actions| ==>
      actions[i].EditTask? && actions[i].task == t && actions[i].edited.workspace == workspace
  }

  /** However often the target was edited since, an undo stays possible and writes the same title. */
  lemma {:induction false} UndoOverwritesLaterEdits(codec: Codec, s: Store, workspace: WorkspaceId, id: ProposalId,
                                                    t: TaskId, edits: seq<Action>)
    requires MayUndo(codec, s, workspace, id, t) && EditsOf(edits, t, workspace)
    ensures var now := Run(codec, s, edits);
      && MayUndo(codec, now, workspace, id, t)
      && UndoneBy(codec, now, workspace, id).0.tasks[t].title == UndoneBy(codec, s, workspace, id).0.tasks[t].title
    decreases |edits|
  {
    if edits != [] {
      assert edits[0].EditTask?;
      assert forall i :: 0 <= i < |edits[1..]| ==> edits[1..][i] == edits[i + 1];
      UndoOverwritesLaterEdits(codec, Next(codec, s, edits[0]), workspace, id, t, edits[1..]);
    }
  }
}
