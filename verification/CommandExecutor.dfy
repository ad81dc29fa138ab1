/** The sequential command executor over its record store: one external id per key, no call after a success. */
module CommandExecutor {
  import opened Domain

  type RecordId = nat
  type Key = nat
  type ExternalId = nat

  datatype RecordStatus = Pending | Succeeded | Failed

  datatype Record = Record(key: Key, status: RecordStatus, externalId: Option<ExternalId>)

  /** What one adapter call and the check of its result end in. */
  datatype Reply = TimedOut | Replied(externalId: Option<ExternalId>, verified: bool)

  datatype Outcome = ReportsSucceeded | ReportsPending | RaisesPermanentFailure

  /** Records in order of creation, and the keys of the provider calls made so far. */
  datatype Store = Store(records: seq<Record>, calls: seq<Key>)

  /** The first succeeded record with a key, or the number of records. */
  function FindSuccess(records: seq<Record>, key: Key): (i: nat)
    ensures i <= |records|
    ensures i < |records| ==> records[i].key == key && records[i].status.Succeeded?
    ensures forall j :: 0 <= j < i ==> !(records[j].key == key && records[j].status.Succeeded?)
  {
    if records == [] then 0
    else if records[0].key == key && records[0].status.Succeeded? then 0
    else
      var i := FindSuccess(records[1..], key);
      assert forall j :: 0 < j < i + 1 ==> records[j] == records[1..][j - 1];
      i + 1
  }

  function WithRecord(s: Store, id: RecordId, r: Record): Store
    requires id < |s.records|
  {
    s.(records := s.records[id := r])
  }

  /** `execute`: the store afterwards and what the caller sees. */
  function Executed(s: Store, id: RecordId, reply: Reply): (Store, Outcome)
    requires id < |s.records|
  {
    var r := s.records[id];
    var found := FindSuccess(s.records, r.key);
    if found < |s.records| then
      (WithRecord(s, id, r.(status := Succeeded, externalId := s.records[found].externalId)), ReportsSucceeded)
    else
      var called := s.(calls := s.calls + [r.key]);
      match reply
      case TimedOut => (called, ReportsPending)
      case Replied(externalId, verified) =>
        if !verified || externalId.None? then
          (WithRecord(called, id, r.(status := Failed)), RaisesPermanentFailure)
        else
          (WithRecord(called, id, r.(status := Succeeded, externalId := externalId)), ReportsSucceeded)
  }

  /** Some record of the key has succeeded already. */
  ghost predicate DoneBefore(s: Store, key: Key) {
    exists j :: 0 <= j < |s.records| && s.records[j].key == key && s.records[j].status.Succeeded?
  }

  /**
   No false success: without an earlier success of its key, a record succeeds only on a verified reply with an id, and
   under that id; a timeout leaves it as it was, and any other reply fails it. The provider is called once, for the
   record's key. After an earlier success it is not called, and the record takes over that success.
   */
  lemma ExecutedExactly(s: Store, id: RecordId, reply: Reply)
    requires id < |s.records|
    ensures var (after, outcome) := Executed(s, id, reply); var r := s.records[id];
      && |after.records| == |s.records| && (forall j :: 0 <= j < |s.records| && j != id ==> after.records[j] == s.records[j])
      && after.calls == (if DoneBefore(s, r.key) then s.calls else s.calls + [r.key])
      && (outcome == ReportsSucceeded <==> DoneBefore(s, r.key) || exists e :: reply == Replied(Some(e), true))
      && (!DoneBefore(s, r.key) ==> Answered(r, reply, after.records[id], outcome))
      && (DoneBefore(s, r.key) ==> TakesOver(s, r, after.records[id]) && outcome == ReportsSucceeded)
  {
    var found := FindSuccess(s.records, s.records[id].key);
    if found < |s.records| {
      assert DoneBefore(s, s.records[id].key);
    } else if reply.Replied? && reply.verified && reply.externalId.Some? {
      assert reply == Replied(Some(reply.externalId.value), true);
    }
  }

  /** What one reply makes of a record. */
  ghost predicate Answered(r: Record, reply: Reply, after: Record, outcome: Outcome) {
    && (reply == TimedOut ==> after == r && outcome == ReportsPending)
    && (forall e :: reply == Replied(Some(e), true) ==>
          after == Record(r.key, Succeeded, Some(e)) && outcome == ReportsSucceeded)
    && (reply.Replied? && (!reply.verified || reply.externalId == None) ==>
          after == Record(r.key, Failed, r.externalId) && outcome == RaisesPermanentFailure)
  }

  /** The record is a success under the external id of an earlier success of its key. */
  ghost predicate TakesOver(s: Store, r: Record, after: Record) {
    exists j :: 0 <= j < |s.records| && s.records[j].key == r.key && s.records[j].status.Succeeded?
      && after == Record(r.key, Succeeded, s.records[j].externalId)
  }

  class CalendarCommandExecutor {
    var records: seq<Record>
    ghost var calls: seq<Key>

    ghost function State(): Store
      reads this
    {
      Store(records, calls)
    }

    constructor ()
      ensures State() == Store([], [])
    {
      records, calls := [], [];
    }

    /** `add_pending`, the other step of a run. */
    method AddPending(key: Key) returns (id: RecordId)
      modifies this
      ensures State() == Next(old(State()), Add(key))
      ensures id == |old(records)| && records[id].key == key && records[id].status.Pending?
    {
      id := |records|;
      records := records + [Record(key, Pending, None)];
    }

    /** The search over the stored records, in order. */
    method FindSuccessByKey(key: Key) returns (found: nat)
      ensures found == FindSuccess(records, key)
    {
      found := 0;
      while found < |records|
        invariant 0 <= found <= |records|
        invariant forall j :: 0 <= j < found ==> !(records[j].key == key && records[j].status.Succeeded?)
      {
        if records[found].key == key && records[found].status.Succeeded? {
          return;
        }
        found := found + 1;
      }
    }

    /** `CalendarCommandExecutor.execute`, given what the adapter would answer. */
    method Execute(id: RecordId, reply: Reply) returns (outcome: Outcome)
      requires id < |records|
      modifies this
      ensures (State(), outcome) == Executed(old(State()), id, reply)
      ensures State() == Next(old(State()), Deliver(id, reply))
    {
      var found := FindSuccessByKey(records[id].key);
      if found < |records| {
        records := records[id := records[id].(status := Succeeded, externalId := records[found].externalId)];
        return ReportsSucceeded;
      }
      calls := calls + [records[id].key];
      match reply
      case TimedOut => outcome := ReportsPending;
      case Replied(externalId, verified) =>
        if !verified || externalId.None? {
          records := records[id := records[id].(status := Failed)];
          return RaisesPermanentFailure;
        }
        records := records[id := records[id].(status := Succeeded, externalId := externalId)];
        outcome := ReportsSucceeded;
    }
  }

  // ---------------------------------------------------------------- runs

  datatype Action = Add(key: Key) | Deliver(id: RecordId, reply: Reply)

  function Next(s: Store, action: Action): Store {
    match action
    case Add(key) => s.(records := s.records + [Record(key, Pending, None)])
    case Deliver(id, reply) => if id < |s.records| then Executed(s, id, reply).0 else s
  }

  function Run(s: Store, actions: seq<Action>): Store
    decreases |actions|
  {
    if actions == [] then s else Run(Next(s, actions[0]), actions[1..])
  }

  /** Key `key` has succeeded under external id `id`. */
  predicate SucceededAs(s: Store, key: Key, id: ExternalId) {
    exists i :: 0 <= i < |s.records| && s.records[i] == Record(key, Succeeded, Some(id))
  }

  predicate SameSuccess(a: Record, b: Record) {
    a.key == b.key && a.status.Succeeded? && b.status.Succeeded?
  }

  /** Succeeded records of one key carry one external id, and carry one at all. */
  ghost predicate OneIdPerKey(s: Store) {
    && (forall i :: 0 <= i < |s.records| && s.records[i].status.Succeeded? ==> s.records[i].externalId.Some?)
    && (forall i, j :: 0 <= i < |s.records| && 0 <= j < |s.records| && SameSuccess(s.records[i], s.records[j]) ==>
          s.records[i].externalId == s.records[j].externalId)
  }

  function CallsFor(calls: seq<Key>, key: Key): nat {
    if calls == [] then 0
    else CallsFor(calls[..|calls| - 1], key) + (if calls[|calls| - 1] == key then 1 else 0)
  }

  lemma StepKeeps(s: Store, action: Action)
    requires OneIdPerKey(s)
    ensures OneIdPerKey(Next(s, action))
  {
  }

  /** After a success under a key, a step keeps that success and calls the provider for that key no more. */
  lemma StepAfterSuccess(s: Store, action: Action, key: Key, id: ExternalId)
    requires OneIdPerKey(s) && SucceededAs(s, key, id)
    ensures SucceededAs(Next(s, action), key, id)
    ensures CallsFor(Next(s, action).calls, key) == CallsFor(s.calls, key)
  {
    var i :| 0 <= i < |s.records| && s.records[i] == Record(key, Succeeded, Some(id));
    var after := Next(s, action);
    if action.Deliver? && action.id < |s.records| {
      var k := s.records[action.id].key;
      assert FindSuccess(s.records, k) == |s.records| ==> k != key;
      CallsMore(s.calls, k, key);
      assert after.records[i] == Record(key, Succeeded, Some(id));
    } else {
      assert after.records[i] == s.records[i];
    }
  }

  lemma CallsMore(calls: seq<Key>, k: Key, key: Key)
    ensures CallsFor(calls + [k], key) == CallsFor(calls, key) + (if k == key then 1 else 0)
  {
    assert (calls + [k])[..|calls|] == calls;
  }

  /**
   Over any run of additions and deliveries, whatever the provider answers: a key keeps one external id, and once it
   has succeeded the provider is never called for it again.
   */
  lemma {:induction false} OneIdNoCallAfterSuccess(s: Store, actions: seq<Action>, key: Key, id: ExternalId)
    requires OneIdPerKey(s)
    ensures OneIdPerKey(Run(s, actions))
    ensures SucceededAs(s, key, id) ==> SucceededAs(Run(s, actions), key, id)
    ensures SucceededAs(s, key, id) ==> CallsFor(Run(s, actions).calls, key) == CallsFor(s.calls, key)
    decreases |actions|
  {
    if actions != [] {
      StepKeeps(s, actions[0]);
      if SucceededAs(s, key, id) {
        StepAfterSuccess(s, actions[0], key, id);
      }
      OneIdNoCallAfterSuccess(Next(s, actions[0]), actions[1..], key, id);
    }
  }

  /** In the run a delivery of some record of the key is answered by a verified reply under the id. */
  ghost predicate VerifiedDuring(s: Store, actions: seq<Action>, key: Key, id: ExternalId)
    decreases |actions|
  {
    && actions != []
    && ((actions[0].Deliver? && actions[0].id < |s.records| && s.records[actions[0].id].key == key &&
           actions[0].reply == Replied(Some(id), true)) ||
        VerifiedDuring(Next(s, actions[0]), actions[1..], key, id))
  }

  lemma StepVerified(s: Store, action: Action, key: Key, id: ExternalId)
    requires SucceededAs(Next(s, action), key, id) && !SucceededAs(s, key, id)
    ensures action.Deliver? && action.id < |s.records| && s.records[action.id].key == key
    ensures action.Deliver? && action.reply == Replied(Some(id), true)
  {
    var after := Next(s, action);
    var i :| 0 <= i < |after.records| && after.records[i] == Record(key, Succeeded, Some(id));
    if action.Deliver? && action.id < |s.records| {
      ExecutedExactly(s, action.id, action.reply);
    }
  }

  /** Over any run a key has succeeded under an id only if it had, or a verified reply said so. */
  lemma {:induction false} NoFalseSuccess(s: Store, actions: seq<Action>, key: Key, id: ExternalId)
    requires SucceededAs(Run(s, actions), key, id)
    ensures SucceededAs(s, key, id) || VerifiedDuring(s, actions, key, id)
    decreases |actions|
  {
    if actions != [] {
      NoFalseSuccess(Next(s, actions[0]), actions[1..], key, id);
      if SucceededAs(Next(s, actions[0]), key, id) && !SucceededAs(s, key, id) {
        StepVerified(s, actions[0], key, id);
      }
    }
  }
}
