/** Backward critical-path timing over start edges: a memoised recursion that meets cycles on the way. */
module CriticalPath {
  import opened Domain
  import opened Reachability

  datatype TimingNode = TimingNode(
    safetyMinutes: int,
    status: TaskStatus,
    milestone: Option<MilestoneId>,
    deadline: Option<Instant>)

  /** Everything the backward pass reads. */
  datatype Project = Project(
    nodes: map<TaskId, TimingNode>,
    dependencies: seq<TaskDependency>,
    milestoneLimits: map<MilestoneId, Instant>,
    horizon: Instant)

  predicate Active(n: TimingNode) {
    !IsFinished(n.status)
  }

  /** `start_successors`. */
  function StartSuccessors(deps: seq<TaskDependency>, x: TaskId): set<TaskId> {
    set d | d in deps && d.predecessor == x && d.kind.BlocksStart? :: d.successor
  }

  /** The known, unfinished start successors of `x`. */
  function ActiveSuccessors(p: Project, x: TaskId): set<TaskId> {
    set s | s in StartSuccessors(p.dependencies, x) && s in p.nodes && Active(p.nodes[s])
  }

  ghost function StartGraph(p: Project): Graph {
    map x | x in p.nodes :: ActiveSuccessors(p, x)
  }

  /** The limits a task has of its own: the horizon, its deadline, its milestone's limit. */
  function OwnLimits(p: Project, x: TaskId): (limits: seq<Instant>)
    requires x in p.nodes
    ensures limits != []
  {
    var n := p.nodes[x];
    [p.horizon]
    + (if n.deadline.Some? then [n.deadline.value] else [])
    + (if n.milestone.Some? && n.milestone.value in p.milestoneLimits then [p.milestoneLimits[n.milestone.value]] else [])
  }

  function Least(s: seq<int>): (m: int)
    requires s != []
    ensures m in s && forall x :: x in s ==> m <= x
  {
    if |s| == 1 then s[0]
    else
      var rest := Least(s[1..]);
      assert s == [s[0]] + s[1..];
      Min(s[0], rest)
  }

  function SafetyMinutes(p: Project, x: TaskId): int {
    if x in p.nodes then p.nodes[x].safetyMinutes else 0
  }

  /** How late the first task of a path may finish for the last one to meet its own limit. */
  ghost function PathLimit(p: Project, path: seq<TaskId>): Instant
    requires IsPath(StartGraph(p), path)
  {
    if |path| == 1 then Least(OwnLimits(p, path[0]))
    else PathLimit(p, path[1..]) - SafetyMinutes(p, path[1])
  }

  /** `t` is the minimum of `PathLimit` over all paths of active start edges from `x`. */
  ghost predicate IsLatestFinish(p: Project, x: TaskId, t: Instant) {
    && (forall path :: IsPath(StartGraph(p), path) && path[0] == x ==> t <= PathLimit(p, path))
    && (exists path :: IsPath(StartGraph(p), path) && path[0] == x && t == PathLimit(p, path))
  }

  /** No cycle of start edges can be reached from `x`. */
  ghost predicate Acyclic(p: Project, x: TaskId) {
    forall y :: Reaches(StartGraph(p), x, y) ==> !OnCycle(StartGraph(p), y)
  }

  lemma AcyclicSuccessor(p: Project, x: TaskId, s: TaskId)
    requires x in p.nodes && s in ActiveSuccessors(p, x) && Acyclic(p, x)
    ensures Acyclic(p, s)
  {
    var g := StartGraph(p);
    assert s in g[x];
    ReachesEdge(g, x, s);
    forall y | Reaches(g, s, y)
      ensures !OnCycle(g, y)
    {
      ReachesTransitive(g, x, s, y);
    }
  }

  lemma ExtendPath(p: Project, x: TaskId, s: TaskId, path: seq<TaskId>)
    requires x in p.nodes && s in ActiveSuccessors(p, x)
    requires IsPath(StartGraph(p), path) && path[0] == s
    ensures IsPath(StartGraph(p), [x] + path)
    ensures PathLimit(p, [x] + path) == PathLimit(p, path) - SafetyMinutes(p, s)
  {
    assert ([x] + path)[1..] == path;
  }

  /** `t` is at most the own limits of `x` and what each finish time of a successor leaves. */
  ghost predicate Within(p: Project, x: TaskId, succ: seq<TaskId>, finish: seq<Instant>, t: Instant)
    requires x in p.nodes && |succ| == |finish|
  {
    && t <= Least(OwnLimits(p, x))
    && forall j :: 0 <= j < |succ| ==> t <= finish[j] - SafetyMinutes(p, succ[j])
  }

  ghost predicate Attained(p: Project, x: TaskId, succ: seq<TaskId>, finish: seq<Instant>, t: Instant)
    requires x in p.nodes && |succ| == |finish|
  {
    || t == Least(OwnLimits(p, x))
    || exists j :: 0 <= j < |succ| && t == finish[j] - SafetyMinutes(p, succ[j])
  }

  lemma WithinPath(p: Project, x: TaskId, succ: seq<TaskId>, finish: seq<Instant>, t: Instant, path: seq<TaskId>)
    requires x in p.nodes && |succ| == |finish|
    requires forall s :: s in succ <==> s in ActiveSuccessors(p, x)
    requires forall j :: 0 <= j < |succ| ==> IsLatestFinish(p, succ[j], finish[j])
    requires Within(p, x, succ, finish, t)
    requires IsPath(StartGraph(p), path) && path[0] == x
    ensures t <= PathLimit(p, path)
  {
    if |path| > 1 {
      var s := path[1];
      assert s in ActiveSuccessors(p, x);
      var j :| 0 <= j < |succ| && succ[j] == s;
      assert IsLatestFinish(p, succ[j], finish[j]);
      assert finish[j] <= PathLimit(p, path[1..]);
    }
  }

  lemma AttainedPath(p: Project, x: TaskId, succ: seq<TaskId>, finish: seq<Instant>, t: Instant)
    returns (path: seq<TaskId>)
    requires x in p.nodes && |succ| == |finish|
    requires forall s :: s in succ <==> s in ActiveSuccessors(p, x)
    requires forall j :: 0 <= j < |succ| ==> IsLatestFinish(p, succ[j], finish[j])
    requires Attained(p, x, succ, finish, t)
    ensures IsPath(StartGraph(p), path) && path[0] == x && t == PathLimit(p, path)
  {
    if t == Least(OwnLimits(p, x)) {
      path := [x];
    } else {
      var j :| 0 <= j < |succ| && t == finish[j] - SafetyMinutes(p, succ[j]);
      assert IsLatestFinish(p, succ[j], finish[j]);
      var rest :| IsPath(StartGraph(p), rest) && rest[0] == succ[j] && finish[j] == PathLimit(p, rest);
      assert succ[j] in succ;
      ExtendPath(p, x, succ[j], rest);
      path := [x] + rest;
    }
  }

  /** The minimum over own limits and over what each successor leaves is the minimum over all paths. */
  lemma LatestFinishStep(p: Project, x: TaskId, succ: seq<TaskId>, finish: seq<Instant>, t: Instant)
    requires x in p.nodes && |succ| == |finish|
    requires forall s :: s in succ <==> s in ActiveSuccessors(p, x)
    requires forall j :: 0 <= j < |succ| ==> IsLatestFinish(p, succ[j], finish[j])
    requires Within(p, x, succ, finish, t) && Attained(p, x, succ, finish, t)
    ensures IsLatestFinish(p, x, t)
  {
    forall path | IsPath(StartGraph(p), path) && path[0] == x
      ensures t <= PathLimit(p, path)
    {
      WithinPath(p, x, succ, finish, t, path);
    }
    var path := AttainedPath(p, x, succ, finish, t);
  }

  /** An assignment of finish times that respects own limits and start edges wherever it is defined. */
  ghost predicate Feasible(p: Project, f: map<TaskId, Instant>) {
    forall x :: x in f ==>
      && x in p.nodes
      && f[x] <= Least(OwnLimits(p, x))
      && forall s :: s in ActiveSuccessors(p, x) ==> s in f && f[x] <= f[s] - SafetyMinutes(p, s)
  }

  lemma {:induction false} FeasibleBelowPath(p: Project, f: map<TaskId, Instant>, path: seq<TaskId>)
    requires Feasible(p, f) && IsPath(StartGraph(p), path) && path[0] in f
    ensures f[path[0]] <= PathLimit(p, path)
    decreases |path|
  {
    if |path| > 1 {
      assert path[1] in ActiveSuccessors(p, path[0]);
      FeasibleBelowPath(p, f, path[1..]);
    }
  }

  /** The path minimum is the greatest solution of the constraints. */
  lemma LatestFinishGreatest(p: Project, f: map<TaskId, Instant>, x: TaskId, t: Instant)
    requires Feasible(p, f) && x in f && IsLatestFinish(p, x, t)
    ensures f[x] <= t
  {
    var path :| IsPath(StartGraph(p), path) && path[0] == x && t == PathLimit(p, path);
    FeasibleBelowPath(p, f, path);
  }

  /** The start edges and own limits hold between the path minima themselves. */
  lemma LatestFinishFeasible(p: Project, x: TaskId, t: Instant)
    requires x in p.nodes && IsLatestFinish(p, x, t)
    ensures t <= Least(OwnLimits(p, x))
    ensures forall s, u :: s in ActiveSuccessors(p, x) && IsLatestFinish(p, s, u) ==> t <= u - SafetyMinutes(p, s)
  {
    assert IsPath(StartGraph(p), [x]);
    assert t <= PathLimit(p, [x]);
    forall s, u | s in ActiveSuccessors(p, x) && IsLatestFinish(p, s, u)
      ensures t <= u - SafetyMinutes(p, s)
    {
      var path :| IsPath(StartGraph(p), path) && path[0] == s && u == PathLimit(p, path);
      ExtendPath(p, x, s, path);
      assert t <= PathLimit(p, [x] + path);
    }
  }

  /** `from` reaches `to` in one or more steps. */
  ghost predicate Precedes(p: Project, from: TaskId, to: TaskId) {
    from in p.nodes && exists s :: s in ActiveSuccessors(p, from) && Reaches(StartGraph(p), s, to)
  }

  lemma PrecedesSuccessor(p: Project, v: TaskId, x: TaskId, s: TaskId)
    requires x in p.nodes && s in ActiveSuccessors(p, x) && (v == x || Precedes(p, v, x))
    ensures Precedes(p, v, s)
  {
    var g := StartGraph(p);
    ReachesSelf(g, s);
    if v != x {
      var w :| w in ActiveSuccessors(p, v) && Reaches(g, w, x);
      ReachesEdge(g, x, s);
      ReachesTransitive(g, w, x, s);
    }
  }

  lemma AcyclicNotPreceded(p: Project, x: TaskId)
    requires x in p.nodes && Precedes(p, x, x)
    ensures !Acyclic(p, x)
  {
    ReachesSelf(StartGraph(p), x);
    var s :| s in ActiveSuccessors(p, x) && Reaches(StartGraph(p), s, x);
    assert s in StartGraph(p)[x];
  }

  /** What each successor's finish time leaves for its predecessor. */
  ghost function Leaves(p: Project, succ: seq<TaskId>, finish: seq<Instant>): seq<Instant>
    requires |succ| == |finish|
  {
    seq(|succ|, j requires 0 <= j < |succ| => finish[j] - SafetyMinutes(p, succ[j]))
  }

  ghost predicate AllLatest(p: Project, succ: seq<TaskId>, finish: seq<Instant>) {
    && |succ| == |finish|
    && forall j {:trigger IsLatestFinish(p, succ[j], finish[j])} :: 0 <= j < |succ| ==> IsLatestFinish(p, succ[j], finish[j])
  }

  lemma LeastOfBoth(own: seq<int>, leaves: seq<int>)
    requires own != []
    ensures Least(own + leaves) <= Least(own)
    ensures forall j :: 0 <= j < |leaves| ==> Least(own + leaves) <= leaves[j]
    ensures Least(own + leaves) == Least(own) || exists j :: 0 <= j < |leaves| && leaves[j] == Least(own + leaves)
  {
    var all := own + leaves;
    assert Least(own) in all;
    assert forall j :: 0 <= j < |leaves| ==> leaves[j] in all;
    if Least(all) in own {
      assert Least(own) <= Least(all);
    } else {
      assert Least(all) in leaves;
    }
  }

  /** The least of the collected limits is the latest finish when the successors' finish times are. */
  lemma LeastLimit(p: Project, x: TaskId, succ: seq<TaskId>, finish: seq<Instant>)
    requires x in p.nodes && AllLatest(p, succ, finish)
    requires forall s :: s in succ <==> s in ActiveSuccessors(p, x)
    ensures IsLatestFinish(p, x, Least(OwnLimits(p, x) + Leaves(p, succ, finish)))
  {
    var t := Least(OwnLimits(p, x) + Leaves(p, succ, finish));
    LeastOfBoth(OwnLimits(p, x), Leaves(p, succ, finish));
    assert forall j :: 0 <= j < |succ| ==> Leaves(p, succ, finish)[j] == finish[j] - SafetyMinutes(p, succ[j]);
    LatestFinishStep(p, x, succ, finish, t);
  }

  ghost predicate Grown(before: map<TaskId, Instant>, after: map<TaskId, Instant>) {
    forall y :: y in before ==> y in after && after[y] == before[y]
  }

  /** Recorded values are right wherever no cycle can be reached. */
  ghost predicate Right(p: Project, memo: map<TaskId, Instant>) {
    forall y {:trigger RightAt(p, memo, y)} :: y in memo ==> RightAt(p, memo, y)
  }

  ghost predicate RightAt(p: Project, memo: map<TaskId, Instant>, y: TaskId) {
    y in memo && (Acyclic(p, y) ==> IsLatestFinish(p, y, memo[y]))
  }

  lemma RightStep(p: Project, memo: map<TaskId, Instant>, x: TaskId, t: Instant)
    requires Right(p, memo) && x !in memo && (Acyclic(p, x) ==> IsLatestFinish(p, x, t))
    ensures Right(p, memo[x := t]) && Grown(memo, memo[x := t])
  {
    forall y {:trigger RightAt(p, memo[x := t], y)} | y in memo[x := t]
      ensures RightAt(p, memo[x := t], y)
    {
      if y != x {
        assert RightAt(p, memo, y);
      }
    }
  }

  lemma GrownTransitive(a: map<TaskId, Instant>, b: map<TaskId, Instant>, c: map<TaskId, Instant>)
    requires Grown(a, b) && Grown(b, c)
    ensures Grown(a, c)
  {
  }

  ghost predicate AllPrecede(p: Project, visiting: set<TaskId>, x: TaskId) {
    forall v {:trigger Precedes(p, v, x)} :: v in visiting ==> Precedes(p, v, x)
  }

  lemma AllPrecedeSuccessor(p: Project, visiting: set<TaskId>, x: TaskId, s: TaskId)
    requires x in p.nodes && s in ActiveSuccessors(p, x) && AllPrecede(p, visiting - {x}, x)
    ensures AllPrecede(p, visiting, s)
  {
    forall v | v in visiting
      ensures Precedes(p, v, s)
    {
      assert v == x || v in visiting - {x};
      PrecedesSuccessor(p, v, x, s);
    }
  }

  // ---------------------------------------------------------------- the recursion with its memo as a function

  /** What `resolve` returns and the memo it leaves; on a cycle the value depends on where the search came from. */
  function Resolved(p: Project, x: TaskId, memo: map<TaskId, Instant>, visiting: set<TaskId>):
    (Instant, map<TaskId, Instant>)
    requires x in p.nodes && visiting <= p.nodes.Keys
    decreases |p.nodes.Keys - visiting|, 0
  {
    if x in memo then (memo[x], memo)
    else if x in visiting then (p.horizon, memo)
    else
      assert p.nodes.Keys - (visiting + {x}) == (p.nodes.Keys - visiting) - {x};
      var (limits, after) := SuccessorLimits(p, SortedIds(ActiveSuccessors(p, x)), memo, visiting + {x});
      var t := Least(OwnLimits(p, x) + limits);
      (t, after[x := t])
  }

  /** The limits some successors impose, one after the other. */
  function SuccessorLimits(p: Project, succ: seq<TaskId>, memo: map<TaskId, Instant>, visiting: set<TaskId>):
    (seq<Instant>, map<TaskId, Instant>)
    requires (forall s :: s in succ ==> s in p.nodes) && visiting <= p.nodes.Keys
    decreases |p.nodes.Keys - visiting|, |succ| + 1
  {
    if succ == [] then ([], memo)
    else
      var (t, next) := Resolved(p, succ[0], memo, visiting);
      var (rest, after) := SuccessorLimits(p, succ[1..], next, visiting);
      ([t - SafetyMinutes(p, succ[0])] + rest, after)
  }

  /** The memo after all tasks of a list were resolved. */
  function ResolvedAll(p: Project, ids: seq<TaskId>, memo: map<TaskId, Instant>): map<TaskId, Instant>
    requires forall s :: s in ids ==> s in p.nodes
    decreases |ids|
  {
    if ids == [] then memo else ResolvedAll(p, ids[1..], Resolved(p, ids[0], memo, {}).1)
  }

  /** The finish times of a project; they depend on its tasks and edges and on no order of them. */
  function FinishTimes(p: Project): map<TaskId, Instant> {
    ResolvedAll(p, SortedIds(p.nodes.Keys), map[])
  }

  /** When each task must start for its finish time. */
  function MustStartBy(p: Project): map<TaskId, Instant> {
    var finish := FinishTimes(p);
    map x | x in p.nodes && x in finish :: finish[x] - p.nodes[x].safetyMinutes
  }

  // ---------------------------------------------------------------- what the recursion gets right

  /** A memo with right values for known tasks, none of which is being visited. */
  ghost predicate MemoOk(p: Project, memo: map<TaskId, Instant>, visiting: set<TaskId>) {
    && Right(p, memo) && memo.Keys <= p.nodes.Keys
    && visiting <= p.nodes.Keys && visiting !! memo.Keys
  }

  /** Resolving keeps the memo right, and is right itself wherever no cycle can be reached. */
  lemma {:induction false} ResolvedRight(p: Project, x: TaskId, memo: map<TaskId, Instant>, visiting: set<TaskId>)
    requires x in p.nodes && MemoOk(p, memo, visiting) && AllPrecede(p, visiting, x)
    ensures var (t, after) := Resolved(p, x, memo, visiting);
      && MemoOk(p, after, visiting) && Grown(memo, after)
      && (x in visiting || (x in after && after[x] == t))
      && (Acyclic(p, x) ==> IsLatestFinish(p, x, t))
    decreases |p.nodes.Keys - visiting|, 0
  {
    if x in memo {
      assert RightAt(p, memo, x);
    } else if x in visiting {
      AcyclicNotPreceded(p, x);
    } else {
      assert p.nodes.Keys - (visiting + {x}) == (p.nodes.Keys - visiting) - {x};
      assert visiting + {x} - {x} == visiting;
      var succ := SortedIds(ActiveSuccessors(p, x));
      var finish := LimitsRight(p, x, succ, memo, visiting + {x});
      ResolvedStep(p, x, memo, visiting, succ, finish);
    }
  }

  /** The value of a task not yet known, given the limits of its successors. */
  lemma ResolvedStep(p: Project, x: TaskId, memo: map<TaskId, Instant>, visiting: set<TaskId>, succ: seq<TaskId>,
                     finish: seq<Instant>)
    requires x in p.nodes && visiting <= p.nodes.Keys && x !in memo && x !in visiting
    requires succ == SortedIds(ActiveSuccessors(p, x)) && forall s :: s in succ ==> s in p.nodes
    requires var (limits, after) := SuccessorLimits(p, succ, memo, visiting + {x});
      && MemoOk(p, after, visiting + {x}) && Grown(memo, after)
      && (Acyclic(p, x) ==> AllLatest(p, succ, finish) && limits == Leaves(p, succ, finish))
    ensures var (t, after) := Resolved(p, x, memo, visiting);
      && MemoOk(p, after, visiting) && Grown(memo, after) && x in after && after[x] == t
      && (Acyclic(p, x) ==> IsLatestFinish(p, x, t))
  {
    var (limits, after) := SuccessorLimits(p, succ, memo, visiting + {x});
    var t := Least(OwnLimits(p, x) + limits);
    if Acyclic(p, x) {
      LeastLimit(p, x, succ, finish);
    }
    RightStep(p, after, x, t);
    GrownTransitive(memo, after, after[x := t]);
  }

  /** The limits of some successors, with the finish times they come from. */
  lemma {:induction false} LimitsRight(p: Project, x: TaskId, succ: seq<TaskId>, memo: map<TaskId, Instant>,
                                       visiting: set<TaskId>)
    returns (finish: seq<Instant>)
    requires x in visiting && MemoOk(p, memo, visiting) && AllPrecede(p, visiting - {x}, x)
    requires forall s :: s in succ ==> s in p.nodes && s in ActiveSuccessors(p, x)
    ensures var (limits, after) := SuccessorLimits(p, succ, memo, visiting);
      && MemoOk(p, after, visiting) && Grown(memo, after)
      && (Acyclic(p, x) ==> AllLatest(p, succ, finish) && limits == Leaves(p, succ, finish))
    decreases |p.nodes.Keys - visiting|, |succ| + 1
  {
    if succ == [] {
      finish := [];
    } else {
      assert succ[0] in ActiveSuccessors(p, x);
      AllPrecedeSuccessor(p, visiting, x, succ[0]);
      ResolvedRight(p, succ[0], memo, visiting);
      var (t, next) := Resolved(p, succ[0], memo, visiting);
      var rest := LimitsRight(p, x, succ[1..], next, visiting);
      finish := [t] + rest;
      LimitsCons(p, x, succ, memo, visiting, rest);
    }
  }

  /** The limits of a list of successors, given those of its tail. */
  lemma LimitsCons(p: Project, x: TaskId, succ: seq<TaskId>, memo: map<TaskId, Instant>, visiting: set<TaskId>,
                   rest: seq<Instant>)
    requires x in p.nodes && visiting <= p.nodes.Keys && succ != [] && succ[0] in ActiveSuccessors(p, x)
    requires forall s :: s in succ ==> s in p.nodes
    requires var (t, next) := Resolved(p, succ[0], memo, visiting);
      var (limits, after) := SuccessorLimits(p, succ[1..], next, visiting);
      && Grown(memo, next) && Grown(next, after) && (Acyclic(p, succ[0]) ==> IsLatestFinish(p, succ[0], t))
      && (Acyclic(p, x) ==> AllLatest(p, succ[1..], rest) && limits == Leaves(p, succ[1..], rest))
    ensures var (limits, after) := SuccessorLimits(p, succ, memo, visiting);
      var finish := [Resolved(p, succ[0], memo, visiting).0] + rest;
      && Grown(memo, after)
      && (Acyclic(p, x) ==> AllLatest(p, succ, finish) && limits == Leaves(p, succ, finish))
  {
    var (t, next) := Resolved(p, succ[0], memo, visiting);
    GrownTransitive(memo, next, SuccessorLimits(p, succ[1..], next, visiting).1);
    if Acyclic(p, x) {
      AcyclicSuccessor(p, x, succ[0]);
      LatestCons(p, succ, t, rest);
      LeavesCons(p, succ, t, rest);
    }
  }

  lemma LatestCons(p: Project, succ: seq<TaskId>, t: Instant, rest: seq<Instant>)
    requires succ != [] && AllLatest(p, succ[1..], rest) && IsLatestFinish(p, succ[0], t)
    ensures AllLatest(p, succ, [t] + rest)
  {
    var finish := [t] + rest;
    forall j | 0 <= j < |succ|
      ensures IsLatestFinish(p, succ[j], finish[j])
    {
      if j > 0 {
        assert IsLatestFinish(p, succ[1..][j - 1], rest[j - 1]);
      }
    }
  }

  lemma LeavesCons(p: Project, succ: seq<TaskId>, t: Instant, rest: seq<Instant>)
    requires succ != [] && |succ| == |rest| + 1
    ensures Leaves(p, succ, [t] + rest) == [t - SafetyMinutes(p, succ[0])] + Leaves(p, succ[1..], rest)
  {
    assert forall j :: 0 <= j < |rest| ==> succ[1..][j] == succ[j + 1];
  }

  lemma {:induction false} AllRight(p: Project, ids: seq<TaskId>, memo: map<TaskId, Instant>)
    requires (forall s :: s in ids ==> s in p.nodes) && MemoOk(p, memo, {})
    ensures var after := ResolvedAll(p, ids, memo);
      MemoOk(p, after, {}) && Grown(memo, after) && forall s :: s in ids ==> s in after
    decreases |ids|
  {
    if ids != [] {
      NothingVisiting(p, ids[0]);
      ResolvedRight(p, ids[0], memo, {});
      var next := Resolved(p, ids[0], memo, {}).1;
      AllRight(p, ids[1..], next);
      GrownTransitive(memo, next, ResolvedAll(p, ids[1..], next));
    }
  }

  lemma NothingVisiting(p: Project, x: TaskId)
    ensures AllPrecede(p, {}, x)
  {
  }

  /** Every task gets a finish time, right wherever no cycle can be reached. */
  lemma FinishTimesRight(p: Project)
    ensures FinishTimes(p).Keys == p.nodes.Keys && Right(p, FinishTimes(p))
  {
    var ids := SortedIds(p.nodes.Keys);
    AllRight(p, ids, map[]);
    assert forall x :: x in p.nodes ==> x in ids;
  }

  // ---------------------------------------------------------------- the recursion over shared state

  ghost predicate AllKnown(p: Project, succ: seq<TaskId>) {
    forall s :: s in succ ==> s in p.nodes
  }

  /** The limits and the memo the loop of `resolve` ends with when it still has the successors from `k` on to see. */
  ghost function LoopEnd(p: Project, succ: seq<TaskId>, k: nat, visiting: set<TaskId>, memo: map<TaskId, Instant>,
                         limits: seq<Instant>): (seq<Instant>, map<TaskId, Instant>)
    requires k <= |succ| && AllKnown(p, succ) && visiting <= p.nodes.Keys
  {
    var (rest, after) := SuccessorLimits(p, succ[k..], memo, visiting);
    (limits + rest, after)
  }

  lemma LoopNext(p: Project, succ: seq<TaskId>, k: nat, visiting: set<TaskId>, memo: map<TaskId, Instant>,
                 limits: seq<Instant>, t: Instant, next: map<TaskId, Instant>)
    requires k < |succ| && AllKnown(p, succ) && visiting <= p.nodes.Keys
    requires succ[k] in p.nodes && (t, next) == Resolved(p, succ[k], memo, visiting)
    ensures LoopEnd(p, succ, k, visiting, memo, limits) ==
            LoopEnd(p, succ, k + 1, visiting, next, limits + [t - SafetyMinutes(p, succ[k])])
  {
    assert succ[k..][0] == succ[k] && succ[k..][1..] == succ[k + 1..];
    var (rest, after) := SuccessorLimits(p, succ[k + 1..], next, visiting);
    assert limits + ([t - SafetyMinutes(p, succ[k])] + rest) == limits + [t - SafetyMinutes(p, succ[k])] + rest;
  }

  lemma LoopDone(p: Project, succ: seq<TaskId>, visiting: set<TaskId>, memo: map<TaskId, Instant>, limits: seq<Instant>)
    requires AllKnown(p, succ) && visiting <= p.nodes.Keys
    ensures LoopEnd(p, succ, |succ|, visiting, memo, limits) == (limits, memo)
  {
    assert limits + [] == limits;
  }

  /** Resolving a task not yet known runs the loop from its own limits. */
  lemma ResolvedByLoop(p: Project, x: TaskId, memo: map<TaskId, Instant>, visiting: set<TaskId>, succ: seq<TaskId>)
    requires x in p.nodes && visiting <= p.nodes.Keys && x !in memo && x !in visiting
    requires succ == SortedIds(ActiveSuccessors(p, x)) && AllKnown(p, succ)
    ensures var (limits, after) := LoopEnd(p, succ, 0, visiting + {x}, memo, OwnLimits(p, x));
      limits != [] && Resolved(p, x, memo, visiting) == (Least(limits), after[x := Least(limits)])
  {
    assert succ[0..] == succ;
  }

  /** The shared memo of the recursion. */
  class BackwardPass {
    const project: Project
    var memoStart: map<TaskId, Instant>
    var latestFinish: map<TaskId, Instant>
    var visiting: set<TaskId>

    constructor (p: Project)
      ensures project == p && Valid() && memoStart == map[] && visiting == {}
    {
      project := p;
      memoStart, latestFinish, visiting := map[], map[], {};
    }

    ghost predicate Valid()
      reads this
    {
      latestFinish == memoStart && visiting <= project.nodes.Keys
    }

    /** `resolve`. */
    method Resolve(x: TaskId) returns (r: Instant)
      requires Valid() && x in project.nodes
      modifies this
      ensures Valid() && visiting == old(visiting)
      ensures (r, memoStart) == Resolved(project, x, old(memoStart), visiting)
      decreases |project.nodes.Keys - visiting|, 0
    {
      if x in memoStart {
        return memoStart[x];
      }
      if x in visiting {
        return project.horizon;
      }
      ResolvedByLoop(project, x, memoStart, visiting, SortedIds(ActiveSuccessors(project, x)));
      ghost var unvisited := project.nodes.Keys - visiting;
      visiting := visiting + {x};
      assert project.nodes.Keys - visiting == unvisited - {x};
      assert visiting - {x} == old(visiting);
      var limits := Limits(x);
      r := Least(limits);
      memoStart := memoStart[x := r];
      latestFinish := latestFinish[x := r];
      visiting := visiting - {x};
    }

    /** The loop of `resolve` that collects the limits of a task. */
    method Limits(x: TaskId) returns (limits: seq<Instant>)
      requires Valid() && x in project.nodes
      modifies this
      ensures Valid() && visiting == old(visiting)
      ensures var succ := SortedIds(ActiveSuccessors(project, x));
        (limits, memoStart) == LoopEnd(project, succ, 0, visiting, old(memoStart), OwnLimits(project, x))
      decreases |project.nodes.Keys - visiting|, 1
    {
      limits := OwnLimits(project, x);
      var successors := SortedIds(ActiveSuccessors(project, x));
      ghost var goal := LoopEnd(project, successors, 0, visiting, memoStart, limits);
      for k := 0 to |successors|
        invariant Valid() && visiting == old(visiting)
        invariant LoopEnd(project, successors, k, visiting, memoStart, limits) == goal
      {
        assert successors[k] in successors;
        ghost var before := memoStart;
        var finish := Resolve(successors[k]);
        LoopNext(project, successors, k, visiting, before, limits, finish, memoStart);
        // The successor still needs its own minutes by then.
        limits := limits + [finish - SafetyMinutes(project, successors[k])];
      }
      LoopDone(project, successors, visiting, memoStart, limits);
    }
  }

  /** `backward_timing`: every task gets a latest finish and a latest start. */
  method BackwardTiming(p: Project) returns (latestFinish: map<TaskId, Instant>, mustStartBy: map<TaskId, Instant>)
    ensures latestFinish == FinishTimes(p) && mustStartBy == MustStartBy(p)
    ensures latestFinish.Keys == mustStartBy.Keys == p.nodes.Keys
    ensures Right(p, latestFinish)
    ensures forall x :: x in p.nodes ==> mustStartBy[x] == latestFinish[x] - p.nodes[x].safetyMinutes
  {
    latestFinish := ResolveAll(p);
    FinishTimesRight(p);
    mustStartBy := map x | x in p.nodes && x in latestFinish :: latestFinish[x] - p.nodes[x].safetyMinutes;
  }

  /** The loop that resolves every task. */
  method ResolveAll(p: Project) returns (latestFinish: map<TaskId, Instant>)
    ensures latestFinish == FinishTimes(p)
  {
    var pass := new BackwardPass(p);
    var ids := SortedIds(p.nodes.Keys);
    for k := 0 to |ids|
      invariant pass.project == p && pass.Valid() && pass.visiting == {}
      invariant ResolvedAll(p, ids[k..], pass.memoStart) == FinishTimes(p)
    {
      assert ids[k] in ids;
      assert ids[k..][0] == ids[k] && ids[k..][1..] == ids[k + 1..];
      var _ := pass.Resolve(ids[k]);
    }
    latestFinish := pass.latestFinish;
  }
}
