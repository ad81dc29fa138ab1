/** The cycle report of a dependency graph: `DependencyGraph.cycles` and what it promises. */
module CycleDetection {
  import opened Domain
  import opened Reachability
  import opened StrongComponents
  import opened TarjanSearch
  import opened Sorting

  /** Both kinds of blocking edge can close a cycle. */
  predicate IsCycleEdge(d: TaskDependency) {
    d.kind.BlocksStart? || d.kind.BlocksCompletion?
  }

  /** The id whose UUID is nil. */
  const NIL: TaskId := 0

  ghost predicate HasNilPredecessor(deps: seq<TaskDependency>) {
    exists d :: d in deps && d.predecessor == NIL
  }

  /** `from_dependencies`: refuses a nil predecessor, and no duplicate, since no key is ever noted as seen. */
  method FromDependencies(deps: seq<TaskDependency>) returns (accepted: bool)
    ensures accepted <==> !HasNilPredecessor(deps)
  {
    var seen: set<TaskDependency> := {};
    for k := 0 to |deps|
      invariant seen == {}
      invariant forall j :: 0 <= j < k ==> deps[j].predecessor != NIL
    {
      if deps[k] in seen {
        return false;
      }
      if deps[k].predecessor == NIL {
        return false;
      }
    }
    accepted := true;
  }

  ghost function Endpoints(deps: seq<TaskDependency>): set<TaskId> {
    (set d | d in deps && IsCycleEdge(d) :: d.predecessor) + (set d | d in deps && IsCycleEdge(d) :: d.successor)
  }

  ghost function Successors(deps: seq<TaskDependency>, x: TaskId): set<TaskId> {
    set d | d in deps && IsCycleEdge(d) && d.predecessor == x :: d.successor
  }

  /** The graph of blocking edges; it does not depend on the order or repetition of the dependencies. */
  ghost function BlockingGraph(deps: seq<TaskDependency>): Graph {
    map x | x in Endpoints(deps) :: Successors(deps, x)
  }

  lemma BlockingGraphClosed(deps: seq<TaskDependency>)
    ensures Closed(BlockingGraph(deps))
  {
  }

  function WithNode(g: Graph, x: TaskId): Graph {
    if x in g then g else g[x := {}]
  }

  /** Both endpoints become nodes and the edge is added. */
  function AddEdge(g: Graph, x: TaskId, y: TaskId): Graph {
    var h := WithNode(g, x);
    WithNode(h[x := h[x] + {y}], y)
  }

  lemma SuccessorsStep(deps: seq<TaskDependency>, d: TaskDependency, x: TaskId)
    ensures Successors(deps + [d], x) ==
            if IsCycleEdge(d) && x == d.predecessor then Successors(deps, x) + {d.successor} else Successors(deps, x)
  {
    var more := deps + [d];
    assert forall e :: e in more <==> e in deps || e == d;
  }

  lemma EndpointsStep(deps: seq<TaskDependency>, d: TaskDependency)
    ensures Endpoints(deps + [d]) ==
            if IsCycleEdge(d) then Endpoints(deps) + {d.predecessor, d.successor} else Endpoints(deps)
  {
    var more := deps + [d];
    assert forall e :: e in more <==> e in deps || e == d;
    if IsCycleEdge(d) {
      assert d in more;
    }
  }

  lemma NoEndpointNoSuccessors(deps: seq<TaskDependency>, x: TaskId)
    requires x !in Endpoints(deps)
    ensures Successors(deps, x) == {}
  {
  }

  lemma SameGraph(g: Graph, h: Graph)
    requires g.Keys == h.Keys && forall x :: x in g ==> g[x] == h[x]
    ensures g == h
  {
  }

  lemma BlockingGraphAt(deps: seq<TaskDependency>, x: TaskId)
    ensures x in BlockingGraph(deps) <==> x in Endpoints(deps)
    ensures x in Endpoints(deps) ==> BlockingGraph(deps)[x] == Successors(deps, x)
  {
  }

  lemma BlockingGraphStep(deps: seq<TaskDependency>, d: TaskDependency)
    ensures BlockingGraph(deps + [d]) ==
            if IsCycleEdge(d) then AddEdge(BlockingGraph(deps), d.predecessor, d.successor) else BlockingGraph(deps)
  {
    EndpointsStep(deps, d);
    var before, after := BlockingGraph(deps), BlockingGraph(deps + [d]);
    var expected := if IsCycleEdge(d) then AddEdge(before, d.predecessor, d.successor) else before;
    assert after.Keys == expected.Keys;
    forall x | x in after
      ensures after[x] == expected[x]
    {
      BlockingGraphAt(deps, x);
      BlockingGraphAt(deps + [d], x);
      SuccessorsStep(deps, d, x);
      if x !in Endpoints(deps) {
        NoEndpointNoSuccessors(deps, x);
      }
      if IsCycleEdge(d) {
        AddEdgeAt(before, d.predecessor, d.successor, x);
      }
    }
    SameGraph(after, expected);
  }

  lemma AddEdgeAt(g: Graph, x: TaskId, y: TaskId, z: TaskId)
    ensures AddEdge(g, x, y).Keys == g.Keys + {x, y}
    ensures z in AddEdge(g, x, y) ==>
      AddEdge(g, x, y)[z] == (if z in g then g[z] else {}) + (if z == x then {y} else {})
  {
  }

  /** `_cycle_adjacency`. */
  method CycleAdjacency(deps: seq<TaskDependency>) returns (adjacency: Graph)
    ensures adjacency == BlockingGraph(deps)
  {
    adjacency := map[];
    for k := 0 to |deps|
      invariant adjacency == BlockingGraph(deps[..k])
    {
      var item := deps[k];
      assert deps[..k + 1] == deps[..k] + [item];
      BlockingGraphStep(deps[..k], item);
      if !IsCycleEdge(item) {
        continue;
      }
      adjacency := AddEdge(adjacency, item.predecessor, item.successor);
    }
    assert deps[..|deps|] == deps;
  }

  // ---------------------------------------------------------------- the report

  ghost predicate Increasing(s: seq<TaskId>) {
    forall i, j :: 0 <= i < j < |s| ==> s[i] < s[j]
  }

  /** `x` and `y` block each other, directly or not (or are the same task). */
  ghost predicate Mutual(g: Graph, x: TaskId, y: TaskId) {
    Reaches(g, x, y) && Reaches(g, y, x)
  }

  /** `c` lists, in order, the tasks that block and are blocked by each of its members. */
  ghost predicate IsCycleClass(g: Graph, c: seq<TaskId>) {
    && c != [] && Increasing(c)
    && forall x :: x in c ==> OnCycle(g, x) && forall y :: y in c <==> Mutual(g, x, y)
  }

  /** The report names exactly the tasks that can reach themselves, one class each, ordered by first task. */
  ghost predicate IsCycleReport(g: Graph, cycles: seq<seq<TaskId>>) {
    && (forall c :: c in cycles ==> IsCycleClass(g, c))
    && (forall i, j :: 0 <= i < j < |cycles| ==> Head(cycles[i]) < Head(cycles[j]))
    && (forall x :: Emitted(cycles, x) <==> OnCycle(g, x))
  }

  function Head(c: seq<TaskId>): int {
    if c == [] then -1 else c[0]
  }

  predicate HeadLeq(c: seq<TaskId>, d: seq<TaskId>) {
    Head(c) <= Head(d)
  }

  /** Two tasks that reach each other are on a cycle. */
  lemma MutualOnCycle(g: Graph, x: TaskId, y: TaskId)
    requires Mutual(g, x, y) && x != y
    ensures OnCycle(g, x)
  {
    FirstStep(g, x, y);
    var z :| z in g[x] && Reaches(g, z, y);
    ReachesTransitive(g, z, y, x);
  }

  /** A component holds a cycle exactly when it has a second member or a self-edge. */
  predicate HoldsCycle(g: Graph, component: seq<TaskId>) {
    |component| > 1 || exists member | member in component :: member in g && member in g[member]
  }

  lemma ComponentCycles(g: Graph, components: seq<seq<TaskId>>, i: int, x: TaskId)
    requires Closed(g) && IsCondensation(g, components) && 0 <= i < |components| && x in components[i]
    ensures OnCycle(g, x) <==> HoldsCycle(g, components[i])
  {
    var c := components[i];
    assert Emitted(components, x);
    if |c| > 1 {
      assert Distinct(c);
      var y := if c[0] == x then c[1] else c[0];
      assert y in c && y != x;
      MutualOnCycle(g, x, y);
    } else {
      assert forall y :: y in c ==> y == x;
      if x in g[x] {
        ReachesSelf(g, x);
      }
      if OnCycle(g, x) {
        var y :| y in g[x] && Reaches(g, y, x);
        ReachesEdge(g, x, y);
        assert y in c;
      }
    }
  }

  function Members(c: seq<TaskId>): set<TaskId> {
    set x | x in c
  }

  /** The ordered members of a component that holds a cycle are a cycle class. */
  lemma ComponentIsCycleClass(g: Graph, components: seq<seq<TaskId>>, i: int)
    requires Closed(g) && IsCondensation(g, components) && 0 <= i < |components| && HoldsCycle(g, components[i])
    ensures IsCycleClass(g, SortedIds(Members(components[i])))
  {
    var c := SortedIds(Members(components[i]));
    SortedIdsIncreasing(Members(components[i]));
    assert components[i][0] in components[i];
    assert components[i][0] in c;
    forall x | x in c
      ensures OnCycle(g, x) && forall y :: y in c <==> Mutual(g, x, y)
    {
      assert x in components[i];
      ComponentCycles(g, components, i, x);
    }
  }

  lemma {:induction false} DistinctCounts<T>(s: seq<T>)
    ensures Distinct(s) <==> forall x :: x in s ==> multiset(s)[x] == 1
    decreases |s|
  {
    if s != [] {
      var rest := s[1..];
      DistinctCounts(rest);
      assert s == [s[0]] + rest;
      assert multiset(s) == multiset{s[0]} + multiset(rest);
      if Distinct(s) {
        assert s[0] !in rest;
      } else if Distinct(rest) {
        assert s[0] in rest;
        assert multiset(s)[s[0]] == 2;
      } else {
        var x :| x in rest && multiset(rest)[x] != 1;
        assert x in multiset(rest) && multiset(s)[x] >= 2;
      }
    }
  }

  lemma DistinctPermuted<T>(a: seq<T>, b: seq<T>)
    requires Distinct(a) && multiset(a) == multiset(b)
    ensures Distinct(b)
  {
    DistinctCounts(a);
    DistinctCounts(b);
    SamePermutation(a, b);
  }

  /** Cycle classes with a common member have the same members, hence are the same list. */
  lemma ClassesMeet(g: Graph, c: seq<TaskId>, d: seq<TaskId>, x: TaskId)
    requires IsCycleClass(g, c) && IsCycleClass(g, d) && x in c && x in d
    ensures c == d
  {
    forall y
      ensures y in c <==> y in d
    {
    }
    SameMembers(c, d);
  }

  lemma SameMembers(c: seq<TaskId>, d: seq<TaskId>)
    requires Increasing(c) && Increasing(d)
    requires forall y :: y in c <==> y in d
    ensures c == d
  {
    DistinctCounts(c);
    DistinctCounts(d);
    assert multiset(c) == multiset(d) by {
      forall y
        ensures multiset(c)[y] == multiset(d)[y]
      {
        assert y in c <==> y in multiset(c);
        assert y in d <==> y in multiset(d);
      }
    }
    var leq := (a: TaskId, b: TaskId) => a <= b;
    SortedUnique(leq, c, d);
  }

  lemma SortReport(g: Graph, raw: seq<seq<TaskId>>)
    requires Distinct(raw) && (forall c :: c in raw ==> IsCycleClass(g, c))
    requires forall x :: Emitted(raw, x) <==> OnCycle(g, x)
    ensures IsCycleReport(g, Sort(HeadLeq, raw))
  {
    var cycles := Sort(HeadLeq, raw);
    SortSorts(HeadLeq, raw);
    SamePermutation(raw, cycles);
    DistinctPermuted(raw, cycles);
    forall i, j | 0 <= i < j < |cycles|
      ensures Head(cycles[i]) < Head(cycles[j])
    {
      assert cycles[i] in cycles && cycles[j] in cycles;
      assert HeadLeq(cycles[i], cycles[j]);
      if Head(cycles[i]) == Head(cycles[j]) {
        ClassesMeet(g, cycles[i], cycles[j], cycles[i][0]);
      }
    }
    forall x
      ensures Emitted(cycles, x) <==> OnCycle(g, x)
    {
      EmittedByMembers(raw, cycles, x);
    }
  }

  lemma EmittedByMembers(a: seq<seq<TaskId>>, b: seq<seq<TaskId>>, x: TaskId)
    requires forall c :: c in a <==> c in b
    ensures Emitted(a, x) <==> Emitted(b, x)
  {
    if Emitted(a, x) {
      var i :| 0 <= i < |a| && x in a[i];
      assert a[i] in b;
    }
    if Emitted(b, x) {
      var i :| 0 <= i < |b| && x in b[i];
      assert b[i] in a;
    }
  }

  /** What the loop over components has collected after `i` of them. */
  ghost predicate Collected(g: Graph, components: seq<seq<TaskId>>, i: nat, cycles: seq<seq<TaskId>>)
    requires i <= |components|
  {
    && (forall c :: c in cycles ==> IsCycleClass(g, c))
    && Distinct(cycles)
    && (forall x :: Emitted(cycles, x) <==> Emitted(components[..i], x) && OnCycle(g, x))
  }

  lemma NextComponent(components: seq<seq<TaskId>>, i: int, x: TaskId)
    requires 0 <= i < |components|
    ensures Emitted(components[..i + 1], x) <==> Emitted(components[..i], x) || x in components[i]
  {
    assert components[..i + 1] == components[..i] + [components[i]];
    EmittedOneMore(components[..i], components[i], x);
  }

  lemma CollectStep(g: Graph, components: seq<seq<TaskId>>, i: nat, cycles: seq<seq<TaskId>>)
    requires Closed(g) && IsCondensation(g, components) && i < |components|
    requires Collected(g, components, i, cycles)
    ensures !HoldsCycle(g, components[i]) ==> Collected(g, components, i + 1, cycles)
    ensures HoldsCycle(g, components[i]) ==>
      Collected(g, components, i + 1, cycles + [SortedIds(Members(components[i]))])
  {
    var c := SortedIds(Members(components[i]));
    forall x
      ensures Emitted(components[..i + 1], x) <==> Emitted(components[..i], x) || x in components[i]
      ensures x in components[i] ==> (OnCycle(g, x) <==> HoldsCycle(g, components[i]))
      ensures Emitted(cycles + [c], x) <==> Emitted(cycles, x) || x in components[i]
    {
      NextComponent(components, i, x);
      if x in components[i] {
        ComponentCycles(g, components, i, x);
      }
      EmittedOneMore(cycles, c, x);
    }
    if HoldsCycle(g, components[i]) {
      ComponentIsCycleClass(g, components, i);
      NewClass(g, components, i, cycles, c);
    }
  }

  /** The class of the next component was not collected before. */
  lemma NewClass(g: Graph, components: seq<seq<TaskId>>, i: nat, cycles: seq<seq<TaskId>>, c: seq<TaskId>)
    requires Disjoint(components) && i < |components| && Collected(g, components, i, cycles)
    requires c != [] && forall x :: x in c ==> x in components[i]
    ensures Distinct(cycles + [c])
  {
    assert c[0] in c;
    forall k | 0 <= k < |cycles|
      ensures cycles[k] != c
    {
      var d := cycles[k];
      assert d in cycles && d[0] in d;
      assert Emitted(cycles, d[0]);
      var j :| 0 <= j < i && d[0] in components[..i][j];
      assert d[0] in components[j];
    }
  }

  /** `DependencyGraph.cycles`. */
  method Cycles(deps: seq<TaskDependency>) returns (cycles: seq<seq<TaskId>>)
    ensures IsCycleReport(BlockingGraph(deps), cycles)
  {
    BlockingGraphClosed(deps);
    var adjacency := CycleAdjacency(deps);
    var components := StronglyConnectedComponents(adjacency);
    cycles := [];
    for i := 0 to |components|
      invariant Collected(adjacency, components, i, cycles)
    {
      CollectStep(adjacency, components, i, cycles);
      if HoldsCycle(adjacency, components[i]) {
        cycles := cycles + [SortedIds(Members(components[i]))];
      }
    }
    SortCollected(adjacency, components, cycles);
    cycles := Sort(HeadLeq, cycles);
  }

  lemma SortCollected(g: Graph, components: seq<seq<TaskId>>, raw: seq<seq<TaskId>>)
    requires IsCondensation(g, components) && Collected(g, components, |components|, raw)
    ensures IsCycleReport(g, Sort(HeadLeq, raw))
  {
    assert components[..|components|] == components;
    SortReport(g, raw);
  }

  /** The report is determined by the blocking edges: no order of dependencies or search shows in it. */
  lemma ReportUnique(g: Graph, a: seq<seq<TaskId>>, b: seq<seq<TaskId>>)
    requires IsCycleReport(g, a) && IsCycleReport(g, b)
    ensures a == b
  {
    ReportMembers(g, a, b);
    ReportMembers(g, b, a);
    DistinctCounts(a);
    DistinctCounts(b);
    assert multiset(a) == multiset(b) by {
      forall c
        ensures multiset(a)[c] == multiset(b)[c]
      {
        assert c in a <==> c in multiset(a);
        assert c in b <==> c in multiset(b);
      }
    }
    SortedUnique(HeadLeq, a, b);
  }

  lemma ReportMembers(g: Graph, a: seq<seq<TaskId>>, b: seq<seq<TaskId>>)
    requires IsCycleReport(g, a) && IsCycleReport(g, b)
    ensures forall c :: c in a ==> c in b
  {
    forall c | c in a
      ensures c in b
    {
      var x := c[0];
      assert x in c && OnCycle(g, x);
      var j :| 0 <= j < |b| && x in b[j];
      ClassesMeet(g, c, b[j], x);
    }
  }
}
