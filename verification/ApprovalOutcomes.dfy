/** Decisions case by case: which outcome a request gets, and the state it leaves, in terms of what is stored. */
module ApprovalOutcomes {
  import opened Domain
  import opened Approvals

  // ---------------------------------------------------------------- what is stored

  /** The workspace has the proposal. */
  ghost predicate Has(s: Store, workspace: WorkspaceId, id: ProposalId) {
    id in s.proposals && s.proposals[id].workspace == workspace
  }

  /** The proposal is the workspace's, pending at the expected version, and its payload is the one that was hashed. */
  ghost predicate Open(codec: Codec, s: Store, workspace: WorkspaceId, id: ProposalId, expected: int) {
    && Has(s, workspace, id)
    && s.proposals[id].status == Pending && s.proposals[id].version == expected
    && codec.hash(s.proposals[id].targets) == s.proposals[id].payloadHash
  }

  /** The payload of a change that gives one task, at one version, one title, and whatever was recorded before. */
  function Titling(task: string, version: int, title: string, before: Option<map<string, Json>>): Targets {
    One(RawChange(Text("task"), Text(task), Number(version), Some(map["title" := Text(title)]), before))
  }

  /** The text names a task of the workspace. */
  ghost predicate Names(codec: Codec, s: Store, workspace: WorkspaceId, text: string, t: TaskId) {
    codec.uuid(text) == Some(t) && t in s.tasks && s.tasks[t].workspace == workspace
  }

  /** The payload gives a task of the workspace, at the version it has, a title that is not blank. */
  ghost predicate Titles(codec: Codec, s: Store, workspace: WorkspaceId, targets: Targets, t: TaskId, title: string) {
    exists text, version, before ::
      && targets == Titling(text, version, title, before) && !Blank(title)
      && Names(codec, s, workspace, text, t) && s.tasks[t].version == version
  }

  /** The payload gives some task some title that is not blank. */
  ghost predicate WellFormed(targets: Targets) {
    exists text, version, title, before :: targets == Titling(text, version, title, before) && !Blank(title)
  }

  lemma OneTitle(values: map<string, Json>)
    ensures OnlyTitle(values) <==> exists v :: values == map["title" := v]
    ensures OnlyTitle(values) ==> values == map["title" := values["title"]]
  {
    if OnlyTitle(values) {
      assert values.Keys == {"title"};
      assert values == map["title" := values["title"]];
    }
  }

  /** A payload is accepted exactly when it has that one form, and then means what the form says. */
  lemma AcceptedExactly(targets: Targets, text: string, version: int, title: string, before: Option<map<string, Json>>)
    ensures ValidatedChange(targets) == Some(Change(text, version, title, before)) <==>
            targets == Titling(text, version, title, before) && !Blank(title)
  {
    if targets.One? && targets.change.values.Some? {
      OneTitle(targets.change.values.value);
    }
  }

  /** A title of spaces, tabs and line ends is blank; one with a visible character is not. */
  lemma BlankMeans(title: string)
    ensures (forall i :: 0 <= i < |title| ==> title[i] in " \t\r\n") ==> Blank(title)
    ensures (exists i :: 0 <= i < |title| && '!' <= title[i] <= '~') ==> !Blank(title)
  {
  }

  lemma RejectedPayload(targets: Targets)
    ensures ValidatedChange(targets).None? <==> !WellFormed(targets)
  {
    if ValidatedChange(targets).Some? {
      var c := ValidatedChange(targets).value;
      AcceptedExactly(targets, c.targetId, c.targetVersion, c.title, c.before);
    }
    if text, version, title, before :| targets == Titling(text, version, title, before) && !Blank(title) {
      AcceptedExactly(targets, text, version, title, before);
    }
  }

  // ---------------------------------------------------------------- what refuses a decision

  /** Why a decision is refused before its payload is looked at, in the order of the checks. */
  ghost predicate RefusedAs(codec: Codec, s: Store, workspace: WorkspaceId, id: ProposalId, expected: int,
                            outcome: Outcome)
  {
    && (outcome == NotFound <==> !Has(s, workspace, id))
    && (outcome == Conflicts(AlreadyResolved) <==> Has(s, workspace, id) && s.proposals[id].status != Pending)
    && (outcome == Conflicts(ProposalVersionChanged) <==>
          && Has(s, workspace, id) && s.proposals[id].status == Pending && s.proposals[id].version != expected)
    && (outcome == Conflicts(PayloadHashMismatch) <==>
          && Has(s, workspace, id) && s.proposals[id].status == Pending && s.proposals[id].version == expected
          && codec.hash(s.proposals[id].targets) != s.proposals[id].payloadHash)
  }

  /** The proposal moved to a status, its version one higher, and nothing else of it changed. */
  function MovedTo(s: Store, id: ProposalId, status: Status): map<ProposalId, Proposal>
    requires id in s.proposals
  {
    var p := s.proposals[id];
    s.proposals[id := Proposal(p.workspace, status, p.version + 1, p.targets, p.payloadHash)]
  }

  /** The approvals with one record more. */
  function WithRecord(s: Store, id: ProposalId, expected: int, decision: Decision): seq<Approval>
    requires id in s.proposals
  {
    s.approvals + [Approval(id, expected, decision, s.proposals[id].payloadHash)]
  }

  /** A task under a new title, its version one higher. */
  function TitledAs(s: Store, t: TaskId, title: string): map<TaskId, Task>
    requires t in s.tasks
  {
    s.tasks[t := Task(s.tasks[t].workspace, s.tasks[t].version + 1, title)]
  }

  // ---------------------------------------------------------------- reject

  /**
   A rejection is done exactly when the proposal is open; the proposal is then rejected, with one rejection record
   more, and otherwise nothing changes.
   */
  lemma RejectExactly(codec: Codec, s: Store, workspace: WorkspaceId, id: ProposalId, expected: int)
    ensures var (after, outcome) := RejectedBy(codec, s, workspace, id, expected);
      && (outcome == RejectedNow <==> Open(codec, s, workspace, id, expected))
      && RefusedAs(codec, s, workspace, id, expected, outcome)
      && after == if Open(codec, s, workspace, id, expected)
                  then Store(MovedTo(s, id, Rejected), s.tasks, WithRecord(s, id, expected, RejectProposal))
                  else s
  {
  }

  /** Whatever happens after a rejection or a supersession, no approval of the proposal is ever executed. */
  lemma ResolvedNeverExecutes(codec: Codec, s: Store, id: ProposalId, actions: seq<Action>, workspace: WorkspaceId,
                              expected: int)
    requires id in s.proposals && (s.proposals[id].status == Rejected || s.proposals[id].status == Superseded)
    ensures !Approved(codec, Run(codec, s, actions), workspace, id, expected).1.ExecutedAs?
  {
    RunBecomes(codec, s, actions, id);
  }

  /** What was rejected is never executed. */
  lemma RejectedNeverExecutes(codec: Codec, s: Store, workspace: WorkspaceId, id: ProposalId, expected: int,
                              actions: seq<Action>, later: WorkspaceId, again: int)
    requires RejectedBy(codec, s, workspace, id, expected).1 == RejectedNow
    ensures var after := RejectedBy(codec, s, workspace, id, expected).0;
      !Approved(codec, Run(codec, after, actions), later, id, again).1.ExecutedAs?
  {
    RejectExactly(codec, s, workspace, id, expected);
    ResolvedNeverExecutes(codec, RejectedBy(codec, s, workspace, id, expected).0, id, actions, later, again);
  }

  // ---------------------------------------------------------------- approve

  /** The state after an approval of an open proposal, for each thing its payload can turn out to be. */
  ghost predicate ApprovedState(codec: Codec, s: Store, workspace: WorkspaceId, id: ProposalId, expected: int,
                                after: Store, outcome: Outcome)
    requires id in s.proposals
  {
    var targets := s.proposals[id].targets;
    && (outcome == InvalidPayload <==> !WellFormed(targets))
    && (outcome == InvalidPayload ==> after == s)
    && (outcome == TargetVersionChanged <==>
          WellFormed(targets) && !exists t, title :: Titles(codec, s, workspace, targets, t, title))
    && (outcome == TargetVersionChanged ==> after == Store(MovedTo(s, id, Superseded), s.tasks, s.approvals))
    && (forall title :: outcome == ExecutedAs(title) <==> exists t :: Titles(codec, s, workspace, targets, t, title))
    && (forall t, title :: Titles(codec, s, workspace, targets, t, title) ==>
          after == Store(MovedTo(s, id, Executed), TitledAs(s, t, title),
                         WithRecord(s, id, expected, ApproveTaskChange)))
  }

  /** What a titling payload titles, at most: the one task and title it says. */
  lemma TitlesWhat(codec: Codec, s: Store, workspace: WorkspaceId, targets: Targets, t: TaskId, title: string)
    ensures Titles(codec, s, workspace, targets, t, title) <==>
            && ValidatedChange(targets).Some? && ValidatedChange(targets).value.title == title
            && TargetOf(codec, s, workspace, ValidatedChange(targets).value) == Some(t)
            && s.tasks[t].version == ValidatedChange(targets).value.targetVersion
  {
    if ValidatedChange(targets).Some? {
      var c := ValidatedChange(targets).value;
      AcceptedExactly(targets, c.targetId, c.targetVersion, c.title, c.before);
    }
    if text, version, before :|
      targets == Titling(text, version, title, before) && !Blank(title) &&
      Names(codec, s, workspace, text, t) && s.tasks[t].version == version
    {
      AcceptedExactly(targets, text, version, title, before);
    }
  }

  /**
   An approval of an open proposal: an invalid payload changes nothing; one whose task is gone or at another version
   supersedes the proposal; any other is executed, with one approval record more.
   */
  lemma ApproveOpen(codec: Codec, s: Store, workspace: WorkspaceId, id: ProposalId, expected: int)
    requires Open(codec, s, workspace, id, expected)
    ensures var (after, outcome) := Approved(codec, s, workspace, id, expected);
      ApprovedState(codec, s, workspace, id, expected, after, outcome)
  {
    var targets := s.proposals[id].targets;
    RejectedPayload(targets);
    forall t, title
      ensures Titles(codec, s, workspace, targets, t, title) <==>
              && ValidatedChange(targets).Some? && ValidatedChange(targets).value.title == title
              && TargetOf(codec, s, workspace, ValidatedChange(targets).value) == Some(t)
              && s.tasks[t].version == ValidatedChange(targets).value.targetVersion
    {
      TitlesWhat(codec, s, workspace, targets, t, title);
    }
    if ValidatedChange(targets).Some? {
      var c := ValidatedChange(targets).value;
      var target := TargetOf(codec, s, workspace, c);
      assert target.Some? && s.tasks[target.value].version == c.targetVersion ==>
             Titles(codec, s, workspace, targets, target.value, c.title);
    }
  }

  /** An approval of any other proposal changes nothing and says why. */
  lemma ApproveClosed(codec: Codec, s: Store, workspace: WorkspaceId, id: ProposalId, expected: int)
    ensures RefusedAs(codec, s, workspace, id, expected, Approved(codec, s, workspace, id, expected).1)
    ensures !Open(codec, s, workspace, id, expected) ==> Approved(codec, s, workspace, id, expected).0 == s
  {
  }

  // ---------------------------------------------------------------- undo

  /** The proposal was executed, its payload is intact and recorded a title, and its task is still there. */
  ghost predicate Undoable(codec: Codec, s: Store, workspace: WorkspaceId, id: ProposalId, t: TaskId, before: string) {
    && Has(s, workspace, id) && s.proposals[id].status == Executed
    && codec.hash(s.proposals[id].targets) == s.proposals[id].payloadHash
    && exists text, version, title ::
         && s.proposals[id].targets == Titling(text, version, title, Some(map["title" := Text(before)])) && !Blank(title)
         && Names(codec, s, workspace, text, t)
  }

  lemma UndoableWhat(codec: Codec, s: Store, workspace: WorkspaceId, id: ProposalId, t: TaskId, before: string)
    ensures Undoable(codec, s, workspace, id, t, before) <==>
            && MayUndo(codec, s, workspace, id, t)
            && BeforeTitle(ValidatedChange(s.proposals[id].targets).value) == Some(Text(before))
  {
    if Has(s, workspace, id) {
      var targets := s.proposals[id].targets;
      if ValidatedChange(targets).Some? {
        var c := ValidatedChange(targets).value;
        AcceptedExactly(targets, c.targetId, c.targetVersion, c.title, c.before);
        if c.before.Some? {
          OneTitle(c.before.value);
        }
      }
      if text, version, title :|
        targets == Titling(text, version, title, Some(map["title" := Text(before)])) && !Blank(title) &&
        Names(codec, s, workspace, text, t)
      {
        AcceptedExactly(targets, text, version, title, Some(map["title" := Text(before)]));
        OneTitle(map["title" := Text(before)]);
      }
    }
  }

  /** An undo writes the recorded title exactly when it can, moves the proposal on, and otherwise changes nothing. */
  lemma UndoExactly(codec: Codec, s: Store, workspace: WorkspaceId, id: ProposalId)
    ensures var (after, outcome) := UndoneBy(codec, s, workspace, id);
      && (forall before :: outcome == UndoneTo(before) <==> exists t :: Undoable(codec, s, workspace, id, t, before))
      && (forall t, before :: Undoable(codec, s, workspace, id, t, before) ==>
            after == Store(MovedTo(s, id, Undone), TitledAs(s, t, before), s.approvals))
      && ((forall t, before :: !Undoable(codec, s, workspace, id, t, before)) ==> after == s)
  {
    forall t, before
      ensures Undoable(codec, s, workspace, id, t, before) <==>
              && MayUndo(codec, s, workspace, id, t)
              && BeforeTitle(ValidatedChange(s.proposals[id].targets).value) == Some(Text(before))
    {
      UndoableWhat(codec, s, workspace, id, t, before);
    }
    UndoCases(codec, s, workspace, id);
  }

  lemma UndoCases(codec: Codec, s: Store, workspace: WorkspaceId, id: ProposalId)
    ensures var (after, outcome) := UndoneBy(codec, s, workspace, id);
      && (outcome.UndoneTo? <==> exists t :: MayUndo(codec, s, workspace, id, t))
      && (!outcome.UndoneTo? ==> after == s)
      && forall t :: MayUndo(codec, s, workspace, id, t) ==>
           var before := BeforeTitle(ValidatedChange(s.proposals[id].targets).value).value.text;
           && outcome == UndoneTo(before)
           && after == Store(MovedTo(s, id, Undone), TitledAs(s, t, before), s.approvals)
  {
    if UndoneBy(codec, s, workspace, id).1.UndoneTo? {
      var target := TargetOf(codec, s, workspace, ValidatedChange(s.proposals[id].targets).value);
      assert MayUndo(codec, s, workspace, id, target.value);
    }
  }
}
