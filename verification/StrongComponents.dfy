/**
 The iterative depth-first search that splits a dependency graph into strongly connected components.
 `Search` holds the search's variables; each step of the loop is a lemma about `Search` values.
 */
module StrongComponents {
  import opened Domain
  import opened Reachability

  /** A task under exploration, its successors in order, and how many of them were looked at. */
  datatype Frame = Frame(node: TaskId, successors: seq<TaskId>, pointer: nat)

  datatype Search = Search(
    counter: nat,
    indices: map<TaskId, nat>,
    lowlink: map<TaskId, nat>,
    stack: seq<TaskId>,
    onStack: set<TaskId>,
    components: seq<seq<TaskId>>,
    work: seq<Frame>)

  // ---------------------------------------------------------------- what the result means

  ghost predicate Emitted(components: seq<seq<TaskId>>, x: TaskId) {
    exists i :: 0 <= i < |components| && x in components[i]
  }

  /** No task is in two components, nor twice in one. */
  ghost predicate Disjoint(components: seq<seq<TaskId>>) {
    && (forall i :: 0 <= i < |components| ==> components[i] != [] && Distinct(components[i]))
    && (forall i, j, x :: 0 <= i < |components| && 0 <= j < |components| && x in components[i] && x in components[j]
          ==> i == j)
  }

  /** The tasks of one component reach each other. */
  ghost predicate Connected(g: Graph, components: seq<seq<TaskId>>) {
    forall i, x, y :: 0 <= i < |components| && x in components[i] && y in components[i] ==> Reaches(g, x, y)
  }

  /** Every edge out of a component stays in it or leads to an earlier one. */
  ghost predicate SuccessorsFirst(g: Graph, components: seq<seq<TaskId>>) {
    forall i, x, y :: 0 <= i < |components| && x in components[i] && x in g && y in g[x]
      ==> exists j :: 0 <= j <= i && y in components[j]
  }

  // ---------------------------------------------------------------- the search invariant

  ghost function Index(s: Search, x: TaskId): nat {
    if x in s.indices then s.indices[x] else 0
  }

  ghost function Low(s: Search, x: TaskId): nat {
    if x in s.lowlink then s.lowlink[x] else 0
  }

  ghost function Node(s: Search, i: int): TaskId {
    if 0 <= i < |s.work| then s.work[i].node else 0
  }

  ghost predicate Gray(s: Search, x: TaskId) {
    exists i :: 0 <= i < |s.work| && Node(s, i) == x
  }

  ghost predicate Lists(s: seq<TaskId>, members: set<TaskId>) {
    forall y :: y in s <==> y in members
  }

  /** Visited tasks are tasks of the graph with a lowlink. */
  ghost predicate Visited(g: Graph, s: Search) {
    s.indices.Keys <= g.Keys && s.lowlink.Keys == s.indices.Keys
  }

  ghost predicate StackNumbered(s: Search) {
    forall x :: x in s.stack ==> x in s.indices && Index(s, x) < s.counter
  }

  /** `onStack` answers membership in the stack. */
  ghost predicate Tracked(s: Search) {
    forall x :: x in s.onStack <==> x in s.stack
  }

  /** The stack lies in the order of discovery. */
  ghost predicate StackRising(s: Search) {
    forall i, j :: 0 <= i < j < |s.stack| ==> Index(s, s.stack[i]) < Index(s, s.stack[j])
  }

  /** A visited task is on the stack or in a component, never both. */
  ghost predicate Settled(s: Search) {
    && (forall x :: x in s.indices <==> x in s.stack || Emitted(s.components, x))
    && (forall x :: x in s.stack ==> !Emitted(s.components, x))
  }

  /** The frames explore stacked tasks. */
  ghost predicate Framed(g: Graph, s: Search) {
    forall i {:trigger FrameOk(g, s, s.work[i])} :: 0 <= i < |s.work| ==> FrameOk(g, s, s.work[i])
  }

  ghost predicate FrameOk(g: Graph, s: Search, f: Frame) {
    f.node in s.stack && f.node in g && Lists(f.successors, g[f.node]) && f.pointer <= |f.successors|
  }

  ghost predicate NodesStacked(s: Search) {
    forall i :: 0 <= i < |s.work| ==> Node(s, i) in s.stack
  }

  /** Lower frames explore tasks discovered earlier. */
  ghost predicate Rising(s: Search) {
    forall i, j :: 0 <= i < j < |s.work| ==> Index(s, Node(s, i)) < Index(s, Node(s, j))
  }

  /** Each frame was opened for the last successor the frame below looked at. */
  ghost predicate Chained(s: Search) {
    forall i, j :: 0 <= i && j == i + 1 < |s.work| ==> OpenedBy(s.work[i], s.work[j])
  }

  ghost predicate OpenedBy(parent: Frame, child: Frame) {
    0 < parent.pointer <= |parent.successors| && parent.successors[parent.pointer - 1] == child.node
  }

  /** Finished tasks have no unvisited successor. */
  ghost predicate Explored(g: Graph, s: Search) {
    forall x :: x in s.indices && x in g && !Gray(s, x) ==> g[x] <= s.indices.Keys
  }

  /** Frames have visited what they looked at. */
  ghost predicate FramesExplored(s: Search) {
    forall i {:trigger FrameExplored(s, s.work[i])} :: 0 <= i < |s.work| ==> FrameExplored(s, s.work[i])
  }

  ghost predicate FrameExplored(s: Search, f: Frame) {
    forall j :: 0 <= j < f.pointer && j < |f.successors| ==> f.successors[j] in s.indices
  }

  /** A frame reaches whatever lies above it on the stack. */
  ghost predicate Dominating(g: Graph, s: Search) {
    forall i {:trigger Dominates(g, s, Node(s, i))} :: 0 <= i < |s.work| ==> Dominates(g, s, Node(s, i))
  }

  ghost predicate Dominates(g: Graph, s: Search, n: TaskId) {
    forall x :: x in s.stack && Index(s, n) <= Index(s, x) ==> Reaches(g, n, x)
  }

  /** A stacked task reaches a frame at or below it. */
  ghost predicate Grounding(g: Graph, s: Search) {
    forall x {:trigger Grounded(g, s, x)} :: x in s.stack ==> Grounded(g, s, x)
  }

  ghost predicate Grounded(g: Graph, s: Search, x: TaskId) {
    exists i :: 0 <= i < |s.work| && Index(s, Node(s, i)) <= Index(s, x) && Reaches(g, x, Node(s, i))
  }

  /** The lowlink of a frame is the index of a stacked task it reaches. */
  ghost predicate LowReached(g: Graph, s: Search) {
    forall i {:trigger LowWitnessed(g, s, Node(s, i))} :: 0 <= i < |s.work| ==> LowWitnessed(g, s, Node(s, i))
  }

  ghost predicate LowWitnessed(g: Graph, s: Search, n: TaskId) {
    && Low(s, n) <= Index(s, n)
    && exists y :: y in s.stack && Index(s, y) == Low(s, n) && Reaches(g, n, y)
  }

  /** `x` is a finished stacked task and `i` is the nearest frame below it. */
  ghost predicate Owns(s: Search, i: int, x: TaskId) {
    && 0 <= i < |s.work| && x in s.stack && !Gray(s, x)
    && Index(s, Node(s, i)) < Index(s, x)
    && forall j :: 0 <= j < |s.work| && Index(s, Node(s, j)) < Index(s, x) ==> j <= i
  }

  /** How many successors of frame `i` are done with: the last one of a lower frame is still open. */
  ghost function Done(s: Search, i: int): int
    requires 0 <= i < |s.work|
  {
    if i == |s.work| - 1 then s.work[i].pointer else s.work[i].pointer - 1
  }

  /** No edge of a finished stacked task leads below the lowlink of the frame that owns it. */
  ghost predicate OwnedBounded(g: Graph, s: Search) {
    forall i, x :: Owns(s, i, x) ==> Bounded(g, s, Low(s, Node(s, i)), x)
  }

  ghost predicate Bounded(g: Graph, s: Search, low: int, x: TaskId) {
    x in g && forall y :: y in g[x] && y in s.stack ==> low <= Index(s, y)
  }

  /** No finished edge of a frame leads below its lowlink. */
  ghost predicate FramesBounded(s: Search) {
    forall i :: 0 <= i < |s.work| ==> FrameBounded(s, Low(s, Node(s, i)), s.work[i], Done(s, i))
  }

  ghost predicate FrameBounded(s: Search, low: int, f: Frame, done: int) {
    forall j :: 0 <= j < done && j < |f.successors| && f.successors[j] in s.stack ==> low <= Index(s, f.successors[j])
  }

  ghost predicate Inv(g: Graph, s: Search) {
    && Closed(g)
    && Visited(g, s)
    && StackNumbered(s)
    && StackRising(s)
    && Settled(s)
    && Disjoint(s.components)
    && Connected(g, s.components)
    && SuccessorsFirst(g, s.components)
    && Framed(g, s)
    && NodesStacked(s)
    && Rising(s)
    && Chained(s)
    && Explored(g, s)
    && FramesExplored(s)
    && Dominating(g, s)
    && Grounding(g, s)
    && LowReached(g, s)
    && OwnedBounded(g, s)
    && FramesBounded(s)
  }

  // ---------------------------------------------------------------- discovering a task

  /** The variables after discovering `x`: it is numbered, stacked and given a frame. */
  ghost predicate Discovered(s: Search, t: Search, x: TaskId) {
    && t.counter == s.counter + 1
    && (forall y :: y in t.indices <==> y in s.indices || y == x)
    && (forall y :: y != x ==> Index(t, y) == Index(s, y) && Low(t, y) == Low(s, y))
    && Index(t, x) == Low(t, x) == s.counter
    && (forall y :: y in t.stack <==> y in s.stack || y == x)
    && |t.work| == |s.work| + 1
    && (forall i :: 0 <= i < |s.work| ==> Node(t, i) == Node(s, i) && t.work[i].successors == s.work[i].successors)
    && (forall i :: 0 <= i < |s.work| - 1 ==> t.work[i].pointer == s.work[i].pointer)
    && (s.work != [] ==> Opens(s.work[|s.work| - 1], t.work[|s.work| - 1], x))
    && Node(t, |s.work|) == x
    && t.work[|s.work|].pointer == 0
  }

  ghost predicate Opens(before: Frame, after: Frame, x: TaskId) {
    && before.pointer < |before.successors|
    && before.successors[before.pointer] == x
    && after.pointer == before.pointer + 1
    && after.successors == before.successors
  }

  lemma DiscoverGray(s: Search, t: Search, x: TaskId, y: TaskId)
    requires Discovered(s, t, x)
    ensures Gray(t, y) <==> Gray(s, y) || y == x
  {
    if Gray(s, y) {
      var i :| 0 <= i < |s.work| && Node(s, i) == y;
      assert Node(t, i) == y;
    }
    assert Gray(t, x) by { assert Node(t, |s.work|) == x; }
    if Gray(t, y) {
      var i :| 0 <= i < |t.work| && Node(t, i) == y;
      if i < |s.work| {
        assert Node(s, i) == y;
      }
    }
  }

  lemma DiscoverFramed(g: Graph, s: Search, t: Search, x: TaskId)
    requires Discovered(s, t, x) && Framed(g, s) && NodesStacked(s)
    requires x in g && Lists(t.work[|s.work|].successors, g[x])
    ensures Framed(g, t) && NodesStacked(t)
  {
    forall i | 0 <= i < |t.work|
      ensures FrameOk(g, t, t.work[i])
    {
      if i < |s.work| {
        assert FrameOk(g, s, s.work[i]);
        assert Node(t, i) == Node(s, i);
      }
    }
  }

  lemma DiscoverRising(s: Search, t: Search, x: TaskId)
    requires Discovered(s, t, x) && Rising(s) && x !in s.stack
    requires NodesStacked(s)
    requires StackNumbered(s)
    ensures Rising(t)
  {
  }

  lemma DiscoverChained(s: Search, t: Search, x: TaskId)
    requires Discovered(s, t, x) && Chained(s)
    ensures Chained(t)
  {
    forall i, j | 0 <= i && j == i + 1 < |t.work|
      ensures OpenedBy(t.work[i], t.work[j])
    {
      assert Node(t, j) == t.work[j].node;
      if j < |s.work| {
        assert OpenedBy(s.work[i], s.work[j]);
        assert Node(t, j) == Node(s, j);
      }
    }
  }

  lemma DiscoverExplored(g: Graph, s: Search, t: Search, x: TaskId)
    requires Discovered(s, t, x) && Explored(g, s)
    ensures Explored(g, t)
  {
    forall y | y in t.indices && y in g && !Gray(t, y)
      ensures g[y] <= t.indices.Keys
    {
      DiscoverGray(s, t, x, y);
      assert g[y] <= s.indices.Keys;
    }
  }

  lemma DiscoverFramesExplored(s: Search, t: Search, x: TaskId)
    requires Discovered(s, t, x) && FramesExplored(s)
    ensures FramesExplored(t)
  {
    forall i | 0 <= i < |t.work|
      ensures FrameExplored(t, t.work[i])
    {
      if i < |s.work| {
        assert FrameExplored(s, s.work[i]);
        assert Node(t, i) == Node(s, i);
      }
    }
  }

  lemma DiscoverDominating(g: Graph, s: Search, t: Search, x: TaskId)
    requires Discovered(s, t, x) && Dominating(g, s) && Framed(g, s) && Rising(s)
    requires x in g && x !in s.stack
    requires StackNumbered(s)
    ensures Dominating(g, t)
  {
    ReachesSelf(g, x);
    var n := |s.work|;
    forall i | 0 <= i < |t.work|
      ensures Dominates(g, t, Node(t, i))
    {
      if i < n {
        var parent := Node(s, n - 1);
        assert FrameOk(g, s, s.work[i]) && FrameOk(g, s, s.work[n - 1]);
        assert Opens(s.work[n - 1], t.work[n - 1], x);
        ReachesEdge(g, parent, x);
        assert Dominates(g, s, Node(s, i));
        assert i < n - 1 ==> Index(s, Node(s, i)) < Index(s, parent);
        ReachesTransitive(g, Node(s, i), parent, x);
      }
    }
  }

  lemma DiscoverGrounding(g: Graph, s: Search, t: Search, x: TaskId)
    requires Discovered(s, t, x) && Grounding(g, s) && x in g && x !in s.stack
    requires NodesStacked(s)
    ensures Grounding(g, t)
  {
    ReachesSelf(g, x);
    forall y | y in t.stack
      ensures Grounded(g, t, y)
    {
      if y == x {
        assert Node(t, |s.work|) == x;
      } else {
        assert Grounded(g, s, y);
        var i :| 0 <= i < |s.work| && Index(s, Node(s, i)) <= Index(s, y) && Reaches(g, y, Node(s, i));
        assert Node(t, i) == Node(s, i);
      }
    }
  }

  lemma DiscoverLowReached(g: Graph, s: Search, t: Search, x: TaskId)
    requires Discovered(s, t, x) && LowReached(g, s) && x in g && x !in s.stack
    requires NodesStacked(s)
    ensures LowReached(g, t)
  {
    ReachesSelf(g, x);
    forall i | 0 <= i < |t.work|
      ensures LowWitnessed(g, t, Node(t, i))
    {
      if i < |s.work| {
        assert LowWitnessed(g, s, Node(s, i));
        var y :| y in s.stack && Index(s, y) == Low(s, Node(s, i)) && Reaches(g, Node(s, i), y);
        assert y in t.stack && Index(t, y) == Low(t, Node(t, i));
      } else {
        assert x in t.stack && Index(t, x) == Low(t, x);
      }
    }
  }

  lemma DiscoverOwned(g: Graph, s: Search, t: Search, x: TaskId, i: int, u: TaskId)
    requires Discovered(s, t, x) && x !in s.stack && Owns(t, i, u)
    requires NodesStacked(s)
    requires StackNumbered(s)
    ensures Owns(s, i, u) && u != x
  {
    DiscoverGray(s, t, x, u);
    assert i < |s.work|;
    forall j | 0 <= j < |s.work| && Index(s, Node(s, j)) < Index(s, u)
      ensures j <= i
    {
      assert Node(t, j) == Node(s, j);
    }
  }

  lemma DiscoverBounded(g: Graph, s: Search, t: Search, x: TaskId)
    requires Discovered(s, t, x) && x !in s.stack && x !in s.indices
    requires NodesStacked(s)
    requires StackNumbered(s)
    requires Explored(g, s) && OwnedBounded(g, s)
    ensures OwnedBounded(g, t)
  {
    forall i, u | Owns(t, i, u)
      ensures Bounded(g, t, Low(t, Node(t, i)), u)
    {
      DiscoverOwned(g, s, t, x, i, u);
      assert Bounded(g, s, Low(s, Node(s, i)), u);
      assert g[u] <= s.indices.Keys;
      assert Node(t, i) == Node(s, i);
    }
  }

  lemma DiscoverFramesBounded(s: Search, t: Search, x: TaskId)
    requires Discovered(s, t, x) && x !in s.stack && x !in s.indices
    requires NodesStacked(s)
    requires FramesExplored(s)
    requires FramesBounded(s)
    ensures FramesBounded(t)
  {
    forall i | 0 <= i < |t.work|
      ensures FrameBounded(t, Low(t, Node(t, i)), t.work[i], Done(t, i))
    {
      if i < |s.work| {
        assert FrameExplored(s, s.work[i]);
        assert FrameBounded(s, Low(s, Node(s, i)), s.work[i], Done(s, i));
        assert Node(t, i) == Node(s, i);
      }
    }
  }

  lemma DiscoverInv(g: Graph, s: Search, t: Search, x: TaskId)
    requires Inv(g, s) && Discovered(s, t, x) && Visited(g, t) && StackNumbered(t) && StackRising(t) && Settled(t)
    requires s.components == t.components
    requires x in g && x !in s.indices && Lists(t.work[|s.work|].successors, g[x])
    ensures Inv(g, t)
  {
    DiscoverFramed(g, s, t, x);
    DiscoverRising(s, t, x);
    DiscoverChained(s, t, x);
    DiscoverExplored(g, s, t, x);
    DiscoverFramesExplored(s, t, x);
    DiscoverDominating(g, s, t, x);
    DiscoverGrounding(g, s, t, x);
    DiscoverLowReached(g, s, t, x);
    DiscoverBounded(g, s, t, x);
    DiscoverFramesBounded(s, t, x);
  }

  // ---------------------------------------------------------------- looking at a visited successor

  /** The top frame looked at the visited task `y` and lowered its lowlink when `y` is stacked. */
  ghost predicate LookedAt(s: Search, t: Search, y: TaskId) {
    && s.work != [] && |t.work| == |s.work|
    && (forall z :: Index(t, z) == Index(s, z))
    && t.indices.Keys == s.indices.Keys && t.stack == s.stack
    && (forall i :: 0 <= i < |s.work| ==> Node(t, i) == Node(s, i) && t.work[i].successors == s.work[i].successors)
    && (forall i :: 0 <= i < |s.work| - 1 ==> t.work[i] == s.work[i])
    && Opens(s.work[|s.work| - 1], t.work[|s.work| - 1], y)
    && (forall z :: z != Node(s, |s.work| - 1) ==> Low(t, z) == Low(s, z))
    && Low(t, Node(s, |s.work| - 1)) ==
       (if y in s.stack then Min(Low(s, Node(s, |s.work| - 1)), Index(s, y)) else Low(s, Node(s, |s.work| - 1)))
  }

  lemma LookGray(s: Search, t: Search, y: TaskId, z: TaskId)
    requires LookedAt(s, t, y)
    ensures Gray(t, z) <==> Gray(s, z)
  {
    if Gray(s, z) {
      var i :| 0 <= i < |s.work| && Node(s, i) == z;
      assert Node(t, i) == z;
    }
    if Gray(t, z) {
      var i :| 0 <= i < |t.work| && Node(t, i) == z;
      assert Node(s, i) == z;
    }
  }

  lemma LookFrames(g: Graph, s: Search, t: Search, y: TaskId)
    requires LookedAt(s, t, y) && Framed(g, s) && NodesStacked(s) && Rising(s)
    ensures Framed(g, t) && NodesStacked(t) && Rising(t)
  {
    forall i | 0 <= i < |t.work|
      ensures FrameOk(g, t, t.work[i])
    {
      assert FrameOk(g, s, s.work[i]);
      assert Node(t, i) == Node(s, i);
    }
  }

  lemma LookChained(s: Search, t: Search, y: TaskId)
    requires LookedAt(s, t, y) && Chained(s)
    ensures Chained(t)
  {
    forall i, j | 0 <= i && j == i + 1 < |t.work|
      ensures OpenedBy(t.work[i], t.work[j])
    {
      assert OpenedBy(s.work[i], s.work[j]);
      assert Node(t, j) == Node(s, j);
    }
  }

  lemma LookExplored(g: Graph, s: Search, t: Search, y: TaskId)
    requires LookedAt(s, t, y) && Explored(g, s) && FramesExplored(s) && y in s.indices
    ensures Explored(g, t) && FramesExplored(t)
  {
    forall z | z in t.indices && z in g && !Gray(t, z)
      ensures g[z] <= t.indices.Keys
    {
      LookGray(s, t, y, z);
    }
    forall i | 0 <= i < |t.work|
      ensures FrameExplored(t, t.work[i])
    {
      assert FrameExplored(s, s.work[i]);
    }
  }

  lemma LookReaching(g: Graph, s: Search, t: Search, y: TaskId)
    requires LookedAt(s, t, y) && Dominating(g, s) && Grounding(g, s)
    ensures Dominating(g, t) && Grounding(g, t)
  {
    forall i | 0 <= i < |t.work|
      ensures Dominates(g, t, Node(t, i))
    {
      assert Dominates(g, s, Node(s, i));
    }
    forall x | x in t.stack
      ensures Grounded(g, t, x)
    {
      assert Grounded(g, s, x);
      var i :| 0 <= i < |s.work| && Index(s, Node(s, i)) <= Index(s, x) && Reaches(g, x, Node(s, i));
      assert Node(t, i) == Node(s, i);
    }
  }

  lemma LookLowReached(g: Graph, s: Search, t: Search, y: TaskId)
    requires LookedAt(s, t, y) && LowReached(g, s) && Framed(g, s) && Rising(s) && Closed(g)
    ensures LowReached(g, t)
  {
    var n := |s.work|;
    var top := Node(s, n - 1);
    forall i | 0 <= i < |t.work|
      ensures LowWitnessed(g, t, Node(t, i))
    {
      assert LowWitnessed(g, s, Node(s, i));
      var w :| w in s.stack && Index(s, w) == Low(s, Node(s, i)) && Reaches(g, Node(s, i), w);
      if Low(t, Node(t, i)) != Low(s, Node(s, i)) {
        assert FrameOk(g, s, s.work[n - 1]);
        ReachesEdge(g, top, y);
        assert y in t.stack && Index(t, y) == Low(t, Node(t, i));
      } else {
        assert w in t.stack && Index(t, w) == Low(t, Node(t, i));
      }
    }
  }

  lemma LookBounded(g: Graph, s: Search, t: Search, y: TaskId)
    requires LookedAt(s, t, y) && OwnedBounded(g, s)
    ensures OwnedBounded(g, t)
  {
    forall i, u | Owns(t, i, u)
      ensures Bounded(g, t, Low(t, Node(t, i)), u)
    {
      LookGray(s, t, y, u);
      forall j | 0 <= j < |s.work| && Index(s, Node(s, j)) < Index(s, u)
        ensures j <= i
      {
        assert Node(t, j) == Node(s, j);
      }
      assert Owns(s, i, u);
      assert Bounded(g, s, Low(s, Node(s, i)), u);
    }
  }

  lemma LookFramesBounded(s: Search, t: Search, y: TaskId)
    requires LookedAt(s, t, y) && FramesBounded(s)
    ensures FramesBounded(t)
  {
    forall i | 0 <= i < |t.work|
      ensures FrameBounded(t, Low(t, Node(t, i)), t.work[i], Done(t, i))
    {
      assert FrameBounded(s, Low(s, Node(s, i)), s.work[i], Done(s, i));
      assert Low(t, Node(t, i)) <= Low(s, Node(s, i));
    }
  }

  lemma LookStack(g: Graph, s: Search, t: Search, y: TaskId)
    requires LookedAt(s, t, y)
    requires t.counter == s.counter && t.lowlink.Keys == s.lowlink.Keys && t.components == s.components
    requires Visited(g, s) && StackNumbered(s) && StackRising(s) && Settled(s)
    ensures Visited(g, t) && StackNumbered(t) && StackRising(t) && Settled(t)
  {
  }

  lemma LookInv(g: Graph, s: Search, t: Search, y: TaskId)
    requires Inv(g, s) && LookedAt(s, t, y) && y in s.indices
    requires t.counter == s.counter && t.lowlink.Keys == s.lowlink.Keys && t.components == s.components
    ensures Inv(g, t)
  {
    LookStack(g, s, t, y);
    LookFrames(g, s, t, y);
    LookChained(s, t, y);
    LookExplored(g, s, t, y);
    LookReaching(g, s, t, y);
    LookLowReached(g, s, t, y);
    LookBounded(g, s, t, y);
    LookFramesBounded(s, t, y);
  }

  // ---------------------------------------------------------------- finishing the top frame

  /** The top frame has looked at all its successors. */
  ghost predicate Exhausted(s: Search) {
    s.work != [] && s.work[|s.work| - 1].pointer == |s.work[|s.work| - 1].successors|
  }

  /** `t` dropped the top frame; tasks of `s.stack` below `bound` stay stacked. */
  ghost predicate Dropped(s: Search, t: Search) {
    && s.work != [] && t.counter == s.counter
    && t.indices.Keys == s.indices.Keys && t.lowlink.Keys == s.lowlink.Keys
    && (forall z :: Index(t, z) == Index(s, z) && Low(t, z) <= Low(s, z))
    && |t.work| == |s.work| - 1
    && (forall i :: 0 <= i < |t.work| ==> t.work[i] == s.work[i] && Node(t, i) == Node(s, i))
  }

  lemma DropGray(s: Search, t: Search, x: TaskId)
    requires Dropped(s, t) && Rising(s)
    ensures Gray(t, x) <==> Gray(s, x) && x != Node(s, |s.work| - 1)
  {
    if Gray(s, x) && x != Node(s, |s.work| - 1) {
      var i :| 0 <= i < |s.work| && Node(s, i) == x;
      assert Node(t, i) == x;
    }
    if Gray(t, x) {
      var i :| 0 <= i < |t.work| && Node(t, i) == x;
      assert Node(s, i) == x;
      assert Index(s, Node(s, i)) < Index(s, Node(s, |s.work| - 1));
    }
  }

  lemma DropFrames(s: Search, t: Search)
    requires Dropped(s, t) && Rising(s) && Chained(s) && FramesExplored(s)
    ensures Rising(t) && Chained(t) && FramesExplored(t)
  {
    forall i, j | 0 <= i && j == i + 1 < |t.work|
      ensures OpenedBy(t.work[i], t.work[j])
    {
      assert OpenedBy(s.work[i], s.work[j]);
    }
    forall i | 0 <= i < |t.work|
      ensures FrameExplored(t, t.work[i])
    {
      assert FrameExplored(s, s.work[i]);
    }
  }

  lemma DropExplored(g: Graph, s: Search, t: Search)
    requires Dropped(s, t) && Exhausted(s) && Rising(s) && Framed(g, s) && Explored(g, s) && FramesExplored(s)
    ensures Explored(g, t)
  {
    var n := |s.work|;
    forall x | x in t.indices && x in g && !Gray(t, x)
      ensures g[x] <= t.indices.Keys
    {
      DropGray(s, t, x);
      if x == Node(s, n - 1) {
        assert FrameOk(g, s, s.work[n - 1]);
        assert FrameExplored(s, s.work[n - 1]);
      }
    }
  }

  /** A finished task's edges, seen from frame `i` of `t`, the frame that now owns it. */
  lemma DropOwned(s: Search, t: Search, i: int, u: TaskId)
    requires Dropped(s, t) && Rising(s) && Owns(t, i, u) && u in s.stack
    ensures u == Node(s, |s.work| - 1) ==> i == |s.work| - 2
    ensures u != Node(s, |s.work| - 1) && Index(s, u) > Index(s, Node(s, |s.work| - 1)) ==>
              i == |s.work| - 2 && Owns(s, |s.work| - 1, u)
    ensures u != Node(s, |s.work| - 1) && Index(s, u) <= Index(s, Node(s, |s.work| - 1)) ==> Owns(s, i, u)
  {
    var n := |s.work|;
    DropGray(s, t, u);
    if Index(s, u) >= Index(s, Node(s, n - 1)) {
      assert Index(s, Node(s, n - 2)) < Index(s, Node(s, n - 1));
      assert Node(t, n - 2) == Node(s, n - 2);
    }
    if u != Node(s, n - 1) && Index(s, u) <= Index(s, Node(s, n - 1)) {
      forall j | 0 <= j < n && Index(s, Node(s, j)) < Index(s, u)
        ensures j <= i
      {
        assert j < n - 1 ==> Node(t, j) == Node(s, j);
      }
    }
  }

  /** No edge of the exhausted top task leads below its lowlink. */
  lemma TopBounded(g: Graph, s: Search)
    requires Exhausted(s) && Framed(g, s) && FramesBounded(s)
    ensures Bounded(g, s, Low(s, Node(s, |s.work| - 1)), Node(s, |s.work| - 1))
  {
    var n := |s.work|;
    assert FrameOk(g, s, s.work[n - 1]);
    assert FrameBounded(s, Low(s, Node(s, n - 1)), s.work[n - 1], Done(s, n - 1));
  }

  // ---------------------------------------------------------------- returning to the frame below

  /** The top frame is dropped, its task stays stacked, and the frame below inherits its lowlink. */
  ghost predicate Returned(s: Search, t: Search) {
    && Dropped(s, t) && t.stack == s.stack && t.components == s.components
    && (forall i :: 0 <= i < |t.work| - 1 ==> Low(t, Node(t, i)) == Low(s, Node(s, i)))
    && (t.work != [] ==>
      Low(t, Node(t, |t.work| - 1)) == Min(Low(s, Node(s, |s.work| - 2)), Low(s, Node(s, |s.work| - 1))))
  }

  /** A task that reaches below itself leads to a lower frame. */
  lemma TopGrounded(g: Graph, s: Search) returns (i: int)
    requires s.work != [] && LowReached(g, s) && Grounding(g, s)
    requires Low(s, Node(s, |s.work| - 1)) < Index(s, Node(s, |s.work| - 1))
    ensures 0 <= i < |s.work| - 1 && Index(s, Node(s, i)) < Index(s, Node(s, |s.work| - 1))
    ensures Reaches(g, Node(s, |s.work| - 1), Node(s, i))
  {
    var top := Node(s, |s.work| - 1);
    assert LowWitnessed(g, s, top);
    var y :| y in s.stack && Index(s, y) == Low(s, top) && Reaches(g, top, y);
    assert Grounded(g, s, y);
    i :| 0 <= i < |s.work| && Index(s, Node(s, i)) <= Index(s, y) && Reaches(g, y, Node(s, i));
    ReachesTransitive(g, top, y, Node(s, i));
  }

  lemma ReturnGrounding(g: Graph, s: Search, t: Search)
    requires Returned(s, t) && LowReached(g, s) && Grounding(g, s)
    requires Low(s, Node(s, |s.work| - 1)) < Index(s, Node(s, |s.work| - 1))
    ensures Grounding(g, t)
  {
    var n := |s.work|;
    var lower := TopGrounded(g, s);
    forall x | x in t.stack
      ensures Grounded(g, t, x)
    {
      assert Grounded(g, s, x);
      var i :| 0 <= i < n && Index(s, Node(s, i)) <= Index(s, x) && Reaches(g, x, Node(s, i));
      if i == n - 1 {
        ReachesTransitive(g, x, Node(s, n - 1), Node(s, lower));
        assert Node(t, lower) == Node(s, lower);
      } else {
        assert Node(t, i) == Node(s, i);
      }
    }
  }

  lemma ReturnDominating(g: Graph, s: Search, t: Search)
    requires Returned(s, t) && Dominating(g, s)
    ensures Dominating(g, t)
  {
    forall i | 0 <= i < |t.work|
      ensures Dominates(g, t, Node(t, i))
    {
      assert Dominates(g, s, Node(s, i));
    }
  }

  lemma ReturnLowReached(g: Graph, s: Search, t: Search)
    requires Returned(s, t) && LowReached(g, s) && Dominating(g, s) && NodesStacked(s) && Rising(s)
    ensures LowReached(g, t)
  {
    var n := |s.work|;
    forall i | 0 <= i < |t.work|
      ensures LowWitnessed(g, t, Node(t, i))
    {
      assert LowWitnessed(g, s, Node(s, i)) && LowWitnessed(g, s, Node(s, n - 1));
      var w :| w in s.stack && Index(s, w) == Low(s, Node(s, i)) && Reaches(g, Node(s, i), w);
      if Low(t, Node(t, i)) != Low(s, Node(s, i)) {
        var y :| y in s.stack && Index(s, y) == Low(s, Node(s, n - 1)) && Reaches(g, Node(s, n - 1), y);
        assert Dominates(g, s, Node(s, i));
        ReachesTransitive(g, Node(s, i), Node(s, n - 1), y);
        assert y in t.stack && Index(t, y) == Low(t, Node(t, i));
      } else {
        assert w in t.stack && Index(t, w) == Low(t, Node(t, i));
      }
    }
  }

  lemma ReturnBounded(g: Graph, s: Search, t: Search)
    requires Returned(s, t) && Exhausted(s) && Rising(s) && Framed(g, s)
    requires FramesBounded(s) && OwnedBounded(g, s)
    ensures OwnedBounded(g, t)
  {
    var n := |s.work|;
    TopBounded(g, s);
    forall i, u | Owns(t, i, u)
      ensures Bounded(g, t, Low(t, Node(t, i)), u)
    {
      DropOwned(s, t, i, u);
      if u == Node(s, n - 1) || Index(s, u) > Index(s, Node(s, n - 1)) {
        assert Bounded(g, s, Low(s, Node(s, n - 1)), u);
      } else {
        assert Bounded(g, s, Low(s, Node(s, i)), u);
      }
    }
  }

  lemma ReturnFramesBounded(g: Graph, s: Search, t: Search)
    requires Returned(s, t) && Chained(s) && FramesBounded(s)
    requires Low(s, Node(s, |s.work| - 1)) <= Index(s, Node(s, |s.work| - 1))
    ensures FramesBounded(t)
  {
    var n := |s.work|;
    forall i | 0 <= i < |t.work|
      ensures FrameBounded(t, Low(t, Node(t, i)), t.work[i], Done(t, i))
    {
      assert FrameBounded(s, Low(s, Node(s, i)), s.work[i], Done(s, i));
      if i == n - 2 {
        assert OpenedBy(s.work[n - 2], s.work[n - 1]);
        assert Node(s, n - 1) == s.work[n - 1].node;
      }
    }
  }

  lemma ReturnStack(g: Graph, s: Search, t: Search)
    requires Returned(s, t) && Visited(g, s) && StackNumbered(s) && StackRising(s) && Settled(s)
    requires Framed(g, s) && NodesStacked(s)
    ensures Visited(g, t) && StackNumbered(t) && StackRising(t) && Settled(t) && Framed(g, t) && NodesStacked(t)
  {
    forall i | 0 <= i < |t.work|
      ensures FrameOk(g, t, t.work[i])
    {
      assert FrameOk(g, s, s.work[i]);
    }
  }

  lemma ReturnInv(g: Graph, s: Search, t: Search)
    requires Inv(g, s) && Returned(s, t) && Exhausted(s)
    requires Low(s, Node(s, |s.work| - 1)) < Index(s, Node(s, |s.work| - 1))
    ensures Inv(g, t)
  {
    ReturnStack(g, s, t);
    DropFrames(s, t);
    DropExplored(g, s, t);
    ReturnDominating(g, s, t);
    ReturnGrounding(g, s, t);
    ReturnLowReached(g, s, t);
    ReturnBounded(g, s, t);
    ReturnFramesBounded(g, s, t);
  }

  // ---------------------------------------------------------------- emitting a component

  /** The top frame is dropped and the stack from its task upwards becomes the component `c`. */
  ghost predicate Emits(s: Search, t: Search, c: seq<TaskId>) {
    && Dropped(s, t) && t.components == s.components + [c]
    && (forall i :: 0 <= i < |t.work| ==> Low(t, Node(t, i)) == Low(s, Node(s, i)))
    && (forall x :: x in c <==> x in s.stack && Index(s, Node(s, |s.work| - 1)) <= Index(s, x))
    && (forall x :: x in t.stack <==> x in s.stack && Index(s, x) < Index(s, Node(s, |s.work| - 1)))
    && c != [] && Distinct(c)
  }

  lemma EmittedOneMore(components: seq<seq<TaskId>>, c: seq<TaskId>, x: TaskId)
    ensures Emitted(components + [c], x) <==> Emitted(components, x) || x in c
  {
    var all := components + [c];
    if Emitted(components, x) {
      var i :| 0 <= i < |components| && x in components[i];
      assert x in all[i];
    }
    if x in c {
      assert x in all[|components|];
    }
  }

  lemma EmitSettled(s: Search, t: Search, c: seq<TaskId>)
    requires Emits(s, t, c) && Settled(s)
    ensures Settled(t)
  {
    forall x
      ensures x in t.indices <==> x in t.stack || Emitted(t.components, x)
      ensures x in t.stack ==> !Emitted(t.components, x)
    {
      EmittedOneMore(s.components, c, x);
    }
  }

  lemma EmitDisjoint(s: Search, t: Search, c: seq<TaskId>)
    requires Emits(s, t, c) && Settled(s) && Disjoint(s.components)
    ensures Disjoint(t.components)
  {
    forall i, x | 0 <= i < |s.components| && x in s.components[i]
      ensures x !in c
    {
      assert Emitted(s.components, x);
    }
  }

  lemma EmitConnected(g: Graph, s: Search, t: Search, c: seq<TaskId>)
    requires Emits(s, t, c) && Connected(g, s.components)
    requires Dominating(g, s) && Grounding(g, s) && NodesStacked(s) && Rising(s)
    ensures Connected(g, t.components)
  {
    var n := |s.work|;
    var top := Node(s, n - 1);
    assert Dominates(g, s, top);
    forall x, y | x in c && y in c
      ensures Reaches(g, x, y)
    {
      assert Grounded(g, s, x);
      var i :| 0 <= i < n && Index(s, Node(s, i)) <= Index(s, x) && Reaches(g, x, Node(s, i));
      assert Dominates(g, s, Node(s, i));
      assert top in s.stack && Index(s, Node(s, i)) <= Index(s, top);
      ReachesTransitive(g, x, Node(s, i), top);
      ReachesTransitive(g, x, top, y);
    }
  }

  /** No edge of a task on the stack from the top task upwards leads below the top task. */
  lemma SegmentBounded(g: Graph, s: Search, x: TaskId)
    requires Exhausted(s) && Framed(g, s) && Rising(s) && FramesBounded(s) && OwnedBounded(g, s)
    requires StackRising(s) && NodesStacked(s)
    requires x in s.stack && Index(s, Node(s, |s.work| - 1)) <= Index(s, x)
    ensures Bounded(g, s, Low(s, Node(s, |s.work| - 1)), x)
    ensures x == Node(s, |s.work| - 1) || !Gray(s, x)
  {
    var n := |s.work|;
    var top := Node(s, n - 1);
    TopBounded(g, s);
    if x != top {
      var i :| 0 <= i < |s.stack| && s.stack[i] == x;
      var j :| 0 <= j < |s.stack| && s.stack[j] == top;
      assert i != j;
      assert Index(s, top) < Index(s, x);
      forall k | 0 <= k < n
        ensures Node(s, k) != x
      {
        assert k < n - 1 ==> Index(s, Node(s, k)) < Index(s, top);
      }
      assert Owns(s, n - 1, x);
    }
  }

  lemma EmitSuccessorsFirst(g: Graph, s: Search, t: Search, c: seq<TaskId>)
    requires Emits(s, t, c) && SuccessorsFirst(g, s.components) && Settled(s)
    requires Exhausted(s) && Framed(g, s) && Rising(s) && FramesBounded(s) && OwnedBounded(g, s)
    requires StackRising(s) && NodesStacked(s) && Explored(g, s) && FramesExplored(s)
    requires Low(s, Node(s, |s.work| - 1)) == Index(s, Node(s, |s.work| - 1))
    ensures SuccessorsFirst(g, t.components)
  {
    var m := |s.components|;
    DropExplored(g, s, t);
    forall i, x, y | 0 <= i < |t.components| && x in t.components[i] && x in g && y in g[x]
      ensures exists j :: 0 <= j <= i && y in t.components[j]
    {
      if i < m {
        var j :| 0 <= j <= i && y in s.components[j];
        assert t.components[j] == s.components[j];
      } else {
        SegmentBounded(g, s, x);
        DropGray(s, t, x);
        assert y in s.indices;
        if y in s.stack {
          assert y in t.components[m];
        } else {
          var j :| 0 <= j < m && y in s.components[j];
          assert t.components[j] == s.components[j];
        }
      }
    }
  }

  lemma EmitReaching(g: Graph, s: Search, t: Search, c: seq<TaskId>)
    requires Emits(s, t, c) && Dominating(g, s) && Grounding(g, s)
    ensures Dominating(g, t) && Grounding(g, t)
  {
    forall i | 0 <= i < |t.work|
      ensures Dominates(g, t, Node(t, i))
    {
      assert Dominates(g, s, Node(s, i));
    }
    forall x | x in t.stack
      ensures Grounded(g, t, x)
    {
      assert Grounded(g, s, x);
      var i :| 0 <= i < |s.work| && Index(s, Node(s, i)) <= Index(s, x) && Reaches(g, x, Node(s, i));
      assert Node(t, i) == Node(s, i);
    }
  }

  lemma EmitFrames(g: Graph, s: Search, t: Search, c: seq<TaskId>)
    requires Emits(s, t, c) && Framed(g, s) && NodesStacked(s) && Rising(s)
    ensures Framed(g, t) && NodesStacked(t)
  {
    forall i | 0 <= i < |t.work|
      ensures FrameOk(g, t, t.work[i]) && Node(t, i) in t.stack
    {
      assert FrameOk(g, s, s.work[i]);
      assert Index(s, Node(s, i)) < Index(s, Node(s, |s.work| - 1));
    }
  }

  lemma EmitLowReached(g: Graph, s: Search, t: Search, c: seq<TaskId>)
    requires Emits(s, t, c) && LowReached(g, s) && Rising(s)
    ensures LowReached(g, t)
  {
    forall i | 0 <= i < |t.work|
      ensures LowWitnessed(g, t, Node(t, i))
    {
      assert LowWitnessed(g, s, Node(s, i));
      var w :| w in s.stack && Index(s, w) == Low(s, Node(s, i)) && Reaches(g, Node(s, i), w);
      assert Index(s, Node(s, i)) < Index(s, Node(s, |s.work| - 1));
      assert w in t.stack && Index(t, w) == Low(t, Node(t, i));
    }
  }

  lemma EmitBounded(g: Graph, s: Search, t: Search, c: seq<TaskId>)
    requires Emits(s, t, c) && Rising(s) && OwnedBounded(g, s)
    ensures OwnedBounded(g, t)
  {
    forall i, u | Owns(t, i, u)
      ensures Bounded(g, t, Low(t, Node(t, i)), u)
    {
      DropOwned(s, t, i, u);
      assert Bounded(g, s, Low(s, Node(s, i)), u);
    }
  }

  lemma EmitFramesBounded(s: Search, t: Search, c: seq<TaskId>)
    requires Emits(s, t, c) && Chained(s) && FramesBounded(s)
    ensures FramesBounded(t)
  {
    var n := |s.work|;
    forall i | 0 <= i < |t.work|
      ensures FrameBounded(t, Low(t, Node(t, i)), t.work[i], Done(t, i))
    {
      assert FrameBounded(s, Low(s, Node(s, i)), s.work[i], Done(s, i));
      if i == n - 2 {
        assert OpenedBy(s.work[n - 2], s.work[n - 1]);
        assert Node(s, n - 1) == s.work[n - 1].node;
      }
    }
  }

  lemma EmitInv(g: Graph, s: Search, t: Search, c: seq<TaskId>)
    requires Inv(g, s) && Emits(s, t, c) && Exhausted(s)
    requires Low(s, Node(s, |s.work| - 1)) == Index(s, Node(s, |s.work| - 1))
    requires Visited(g, t) && StackNumbered(t) && StackRising(t)
    ensures Inv(g, t)
  {
    EmitSettled(s, t, c);
    EmitDisjoint(s, t, c);
    EmitConnected(g, s, t, c);
    EmitSuccessorsFirst(g, s, t, c);
    EmitFrames(g, s, t, c);
    DropFrames(s, t);
    DropExplored(g, s, t);
    EmitReaching(g, s, t, c);
    EmitLowReached(g, s, t, c);
    EmitBounded(g, s, t, c);
    EmitFramesBounded(s, t, c);
  }
}
