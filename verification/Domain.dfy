/** Identifiers, instants and the small containers every other module shares. */
module Domain {

  /** A task's UUID read as a number: the order of `value.hex` strings is the order of the numbers. */
  type TaskId = nat

  /** Minutes since 0001-01-01T00:00Z. */
  type Instant = int

  type MilestoneId = nat

  datatype Option<+T> = None | Some(value: T)

  datatype TaskStatus = Draft | Planned | Ready | InProgress | Waiting | Blocked | Done | Deferred | Cancelled

  datatype DependencyType = BlocksStart | BlocksCompletion | WaitingExternal | Related

  datatype TaskDependency = TaskDependency(predecessor: TaskId, successor: TaskId, kind: DependencyType)

  predicate IsFinished(s: TaskStatus) {
    s.Done? || s.Cancelled?
  }

  /** No member occurs twice. */
  ghost predicate Distinct<T>(s: seq<T>) {
    forall i, j :: 0 <= i < j < |s| ==> s[i] != s[j]
  }

  function Min(a: int, b: int): int {
    if a <= b then a else b
  }

  function Max(a: int, b: int): int {
    if a >= b then a else b
  }

  /** Finds the least member of a finite, nonempty set of ids. */
  lemma {:induction false} FindLeast(s: set<TaskId>) returns (least: TaskId)
    requires s != {}
    ensures least in s && forall x :: x in s ==> least <= x
    decreases |s|
  {
    least :| least in s;
    if x :| x in s && x < least {
      var rest := s - {least};
      assert x in rest;
      var m := FindLeast(rest);
      assert forall y :: y in s ==> y == least || y in rest;
      least := m;
    }
  }

  lemma HasLeast(s: set<TaskId>)
    requires s != {}
    ensures exists least :: least in s && forall x :: x in s ==> least <= x
  {
    var m := FindLeast(s);
  }

  function LeastOf(s: set<TaskId>): (m: TaskId)
    requires s != {}
    ensures m in s && forall x :: x in s ==> m <= x
  {
    HasLeast(s);
    var m :| m in s && forall x :: x in s ==> m <= x;
    m
  }

  /** `sorted(ids, key=hex)`: the members of a set in increasing order. */
  function SortedIds(s: set<TaskId>): (r: seq<TaskId>)
    ensures forall x :: x in r <==> x in s
    decreases |s|
  {
    if s == {} then [] else [LeastOf(s)] + SortedIds(s - {LeastOf(s)})
  }

  lemma {:induction false} SortedIdsIncreasing(s: set<TaskId>)
    ensures forall i, j | 0 <= i < j < |SortedIds(s)| :: SortedIds(s)[i] < SortedIds(s)[j]
    decreases |s|
  {
    if s != {} {
      var m := LeastOf(s);
      SortedIdsIncreasing(s - {m});
      LeastFirst(m, SortedIds(s - {m}));
    }
  }

  lemma LeastFirst(m: TaskId, rest: seq<TaskId>)
    requires (forall x :: x in rest ==> m < x) && forall i, j :: 0 <= i < j < |rest| ==> rest[i] < rest[j]
    ensures forall i, j :: 0 <= i < j < |[m] + rest| ==> ([m] + rest)[i] < ([m] + rest)[j]
  {
    assert forall j :: 0 <= j < |rest| ==> rest[j] in rest;
  }

  lemma TakeOneMore<T>(s: seq<T>, k: nat)
    requires k < |s|
    ensures s[..k + 1] == s[..k] + [s[k]]
  {
  }

  lemma TakeAll<T>(s: seq<T>)
    ensures s[..|s|] == s
  {
  }
}
