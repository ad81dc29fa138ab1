/** Tasks as the scheduler sees them, and the tuple that orders them. */
module Priority {
  import opened Domain
  import opened Sorting

  datatype PriorityClass = P0 | P1 | P2 | P3 | P4
  datatype Importance = Protected | Important | Normal | Optional | OnHold
  datatype Kind = Task | ReviewBuffer | SubmissionBuffer

  datatype SchedulableTask = SchedulableTask(
    id: TaskId,
    priorityClass: PriorityClass,
    mustStartBy: Option<Instant>,
    effectiveDeadline: Option<Instant>,
    unlockCount: int,
    externalCommitment: bool,
    importance: Importance,
    priorPosition: Option<int>,
    switchPenalty: int,
    createdAt: Instant,
    kind: Kind,
    baseMinutes: int,
    safetyMinutes: int,
    splittable: bool,
    minChunk: int,
    startAfter: Option<Instant>)

  /** The first minute after the latest representable datetime: later than any actual instant. */
  const DATETIME_MAX: Instant := 5_258_964_960
  const NO_POSITION: int := 0x7FFF_FFFF_FFFF_FFFF

  function ClassRank(c: PriorityClass): int {
    match c
    case P0 => 0
    case P1 => 1
    case P2 => 2
    case P3 => 3
    case P4 => 4
  }

  function ImportanceRank(i: Importance): int {
    match i
    case Protected => 0
    case Important => 1
    case Normal => 2
    case Optional => 3
    case OnHold => 4
  }

  function OrElse(o: Option<int>, default: int): int {
    if o.Some? then o.value else default
  }

  /** `priority_key`: compared field by field, with the task id as the last resort. */
  function Key(t: SchedulableTask): seq<int> {
    [ClassRank(t.priorityClass),
     OrElse(t.mustStartBy, DATETIME_MAX),
     OrElse(t.effectiveDeadline, DATETIME_MAX),
     -t.unlockCount,
     if t.externalCommitment then -1 else 0,
     ImportanceRank(t.importance),
     if t.priorPosition.Some? then t.priorPosition.value else NO_POSITION,
     t.switchPenalty,
     t.createdAt,
     t.id]
  }

  predicate LexLeq(a: seq<int>, b: seq<int>) {
    a == [] || (b != [] && (a[0] < b[0] || (a[0] == b[0] && LexLeq(a[1..], b[1..]))))
  }

  predicate KeyLeq(s: SchedulableTask, t: SchedulableTask) {
    LexLeq(Key(s), Key(t))
  }

  lemma {:induction false} LexTotal(a: seq<int>, b: seq<int>)
    ensures LexLeq(a, b) || LexLeq(b, a)
    ensures LexLeq(a, b) && LexLeq(b, a) ==> a == b
    decreases |a|
  {
    if a != [] && b != [] && a[0] == b[0] {
      LexTotal(a[1..], b[1..]);
      assert a == [a[0]] + a[1..] && b == [b[0]] + b[1..];
    }
  }

  lemma {:induction false} LexTransitive(a: seq<int>, b: seq<int>, c: seq<int>)
    requires LexLeq(a, b) && LexLeq(b, c)
    ensures LexLeq(a, c)
    decreases |a|
  {
    if a != [] && a[0] == b[0] == c[0] {
      LexTransitive(a[1..], b[1..], c[1..]);
    }
  }

  lemma KeyIsTotalPreorder()
    ensures TotalPreorder(KeyLeq)
  {
    forall s: SchedulableTask, t: SchedulableTask
      ensures KeyLeq(s, t) || KeyLeq(t, s)
    {
      LexTotal(Key(s), Key(t));
    }
    forall s: SchedulableTask, t: SchedulableTask, u: SchedulableTask | KeyLeq(s, t) && KeyLeq(t, u)
      ensures KeyLeq(s, u)
    {
      LexTransitive(Key(s), Key(t), Key(u));
    }
  }

  ghost predicate DistinctTasks(tasks: seq<SchedulableTask>) {
    forall i, j :: 0 <= i < j < |tasks| ==> tasks[i].id != tasks[j].id
  }

  /** Equal keys mean equal ids, so among tasks with distinct ids the order is strict. */
  lemma EqualKeysEqualIds(s: SchedulableTask, t: SchedulableTask)
    requires KeyLeq(s, t) && KeyLeq(t, s)
    ensures s.id == t.id
  {
    LexTotal(Key(s), Key(t));
    assert Key(s)[9] == Key(t)[9];
  }

  /** The scheduler's order of work does not depend on the order the tasks came in. */
  lemma SortTasksForgetsOrder(a: seq<SchedulableTask>, b: seq<SchedulableTask>)
    requires DistinctTasks(a) && multiset(a) == multiset(b)
    ensures Sort(KeyLeq, a) == Sort(KeyLeq, b)
  {
    KeyIsTotalPreorder();
    forall s, t | s in a && t in a && KeyLeq(s, t) && KeyLeq(t, s)
      ensures s == t
    {
      EqualKeysEqualIds(s, t);
    }
    SortForgetsOrder(KeyLeq, a, b);
  }

  /**
   What the key puts first: the more urgent class, whatever else; within a class the earlier latest start; then the
   earlier deadline. A missing instant comes after every representable one.
   */
  lemma KeyPriorities(s: SchedulableTask, t: SchedulableTask)
    ensures ClassRank(s.priorityClass) < ClassRank(t.priorityClass) ==> KeyLeq(s, t) && !KeyLeq(t, s)
    ensures s.priorityClass == t.priorityClass && OrElse(s.mustStartBy, DATETIME_MAX) < OrElse(t.mustStartBy, DATETIME_MAX)
      ==> KeyLeq(s, t) && !KeyLeq(t, s)
    ensures s.priorityClass == t.priorityClass && s.mustStartBy == t.mustStartBy &&
      OrElse(s.effectiveDeadline, DATETIME_MAX) < OrElse(t.effectiveDeadline, DATETIME_MAX)
      ==> KeyLeq(s, t) && !KeyLeq(t, s)
  {
    var a, b := Key(s), Key(t);
    if ClassRank(s.priorityClass) < ClassRank(t.priorityClass) {
      FirstDifference(a, b, 0);
    } else if s.priorityClass == t.priorityClass {
      if a[1] < b[1] {
        FirstDifference(a, b, 1);
      } else if s.mustStartBy == t.mustStartBy && a[2] < b[2] {
        FirstDifference(a, b, 2);
      }
    }
  }

  /** The first difference decides. */
  lemma {:induction false} FirstDifference(a: seq<int>, b: seq<int>, k: nat)
    requires k < |a| && k < |b| && a[k] < b[k] && forall i :: 0 <= i < k ==> a[i] == b[i]
    ensures LexLeq(a, b) && !LexLeq(b, a)
    decreases k
  {
    if k > 0 {
      FirstDifference(a[1..], b[1..], k - 1);
    }
  }

  // ---------------------------------------------------------------- the order in the tasks' own terms

  ghost predicate MoreUrgent(a: PriorityClass, b: PriorityClass) {
    match a
    case P0 => b != P0
    case P1 => b != P0 && b != P1
    case P2 => b == P3 || b == P4
    case P3 => b == P4
    case P4 => false
  }

  ghost predicate MoreImportant(a: Importance, b: Importance) {
    match a
    case Protected => b != Protected
    case Important => b != Protected && b != Important
    case Normal => b == Optional || b == OnHold
    case Optional => b == OnHold
    case OnHold => false
  }

  /** The earlier instant or position; having none comes last. */
  ghost predicate Sooner(a: Option<int>, b: Option<int>) {
    a.Some? && (b.None? || a.value < b.value)
  }

  /** Instants are representable datetimes, positions are below the largest machine integer. */
  ghost predicate Representable(t: SchedulableTask) {
    && (t.mustStartBy.Some? ==> t.mustStartBy.value < DATETIME_MAX)
    && (t.effectiveDeadline.Some? ==> t.effectiveDeadline.value < DATETIME_MAX)
    && (t.priorPosition.Some? ==> t.priorPosition.value < NO_POSITION)
  }

  /**
   What comes first: the more urgent class; then the earlier latest start, the earlier deadline, more unlocked tasks, an
   external commitment, more importance, the earlier place in the prior plan, the smaller switching penalty, the earlier
   creation, and at last the smaller id.
   */
  ghost predicate ComesFirst(s: SchedulableTask, t: SchedulableTask) {
    if s.priorityClass != t.priorityClass then MoreUrgent(s.priorityClass, t.priorityClass)
    else if s.mustStartBy != t.mustStartBy then Sooner(s.mustStartBy, t.mustStartBy)
    else if s.effectiveDeadline != t.effectiveDeadline then Sooner(s.effectiveDeadline, t.effectiveDeadline)
    else if s.unlockCount != t.unlockCount then s.unlockCount > t.unlockCount
    else if s.externalCommitment != t.externalCommitment then s.externalCommitment
    else if s.importance != t.importance then MoreImportant(s.importance, t.importance)
    else if s.priorPosition != t.priorPosition then Sooner(s.priorPosition, t.priorPosition)
    else if s.switchPenalty != t.switchPenalty then s.switchPenalty < t.switchPenalty
    else if s.createdAt != t.createdAt then s.createdAt < t.createdAt
    else s.id < t.id
  }

  /** Lists of the same length are ordered by their first difference. */
  lemma {:induction false} DecidedAt(a: seq<int>, b: seq<int>, k: nat)
    requires k < |a| == |b| && a[k] != b[k] && forall i :: 0 <= i < k ==> a[i] == b[i]
    ensures (LexLeq(a, b) && !LexLeq(b, a)) <==> a[k] < b[k]
  {
    if a[k] < b[k] {
      FirstDifference(a, b, k);
    } else {
      FirstDifference(b, a, k);
    }
  }

  /** The first field in which two keys differ. */
  lemma {:induction false} FindDifference(a: seq<int>, b: seq<int>) returns (k: nat)
    requires |a| == |b| && a != b
    ensures k < |a| && a[k] != b[k] && forall i :: 0 <= i < k ==> a[i] == b[i]
    decreases |a|
  {
    if a[0] != b[0] {
      k := 0;
    } else {
      assert a == [a[0]] + a[1..] && b == [b[0]] + b[1..];
      k := FindDifference(a[1..], b[1..]);
      assert forall i :: 0 < i < k + 1 ==> a[i] == a[1..][i - 1] && b[i] == b[1..][i - 1];
      k := k + 1;
    }
  }

  /** The fields of equal keys are equal. */
  lemma FieldsOfKey(s: SchedulableTask, t: SchedulableTask)
    requires Representable(s) && Representable(t)
    ensures Key(s)[0] == Key(t)[0] <==> s.priorityClass == t.priorityClass
    ensures Key(s)[1] == Key(t)[1] <==> s.mustStartBy == t.mustStartBy
    ensures Key(s)[2] == Key(t)[2] <==> s.effectiveDeadline == t.effectiveDeadline
    ensures Key(s)[3] == Key(t)[3] <==> s.unlockCount == t.unlockCount
    ensures Key(s)[4] == Key(t)[4] <==> s.externalCommitment == t.externalCommitment
    ensures Key(s)[5] == Key(t)[5] <==> s.importance == t.importance
    ensures Key(s)[6] == Key(t)[6] <==> s.priorPosition == t.priorPosition
    ensures Key(s)[7] == Key(t)[7] <==> s.switchPenalty == t.switchPenalty
    ensures Key(s)[8] == Key(t)[8] <==> s.createdAt == t.createdAt
    ensures Key(s)[9] == Key(t)[9] <==> s.id == t.id
  {
  }

  lemma EarlyFieldDecides(s: SchedulableTask, t: SchedulableTask, k: nat)
    requires Representable(s) && Representable(t) && k < 5
    requires Key(s)[k] != Key(t)[k] && forall i :: 0 <= i < k ==> Key(s)[i] == Key(t)[i]
    ensures Key(s)[k] < Key(t)[k] <==> ComesFirst(s, t)
  {
    FieldsOfKey(s, t);
  }

  lemma LateFieldDecides(s: SchedulableTask, t: SchedulableTask, k: nat)
    requires Representable(s) && Representable(t) && 5 <= k < 10
    requires Key(s)[k] != Key(t)[k] && forall i :: 0 <= i < k ==> Key(s)[i] == Key(t)[i]
    ensures Key(s)[k] < Key(t)[k] <==> ComesFirst(s, t)
  {
    FieldsOfKey(s, t);
    assert forall i :: 0 <= i < 5 ==> Key(s)[i] == Key(t)[i];
  }

  /** Comparing keys is comparing tasks field by field, in that order and those directions. */
  lemma KeyOrderIs(s: SchedulableTask, t: SchedulableTask)
    requires Representable(s) && Representable(t) && s.id != t.id
    ensures KeyLeq(s, t) && !KeyLeq(t, s) <==> ComesFirst(s, t)
  {
    FieldsOfKey(s, t);
    var k := FindDifference(Key(s), Key(t));
    DecidedAt(Key(s), Key(t), k);
    if k < 5 {
      EarlyFieldDecides(s, t, k);
    } else {
      LateFieldDecides(s, t, k);
    }
  }
}
