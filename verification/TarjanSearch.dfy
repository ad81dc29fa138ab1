/** The search itself: the loops of the iterative Tarjan algorithm, step by step. */
module TarjanSearch {
  import opened Domain
  import opened Reachability
  import opened StrongComponents

  function Top(s: Search): Frame
    requires s.work != []
  {
    s.work[|s.work| - 1]
  }

  /** Record that the top frame has looked at one more successor. */
  function Advance(s: Search): Search
    requires s.work != []
  {
    s.(work := s.work[..|s.work| - 1] + [Top(s).(pointer := Top(s).pointer + 1)])
  }

  /** Number `x`, push it on both stacks. */
  function Visit(s: Search, x: TaskId, successors: seq<TaskId>): Search {
    Search(s.counter + 1, s.indices[x := s.counter], s.lowlink[x := s.counter], s.stack + [x], s.onStack + {x},
           s.components, s.work + [Frame(x, successors, 0)])
  }

  lemma VisitSettles(g: Graph, s: Search, x: TaskId, xs: seq<TaskId>)
    requires Visited(g, s) && StackNumbered(s) && Settled(s) && Tracked(s)
    requires x in g && x !in s.indices
    ensures var t := Visit(s, x, xs); Visited(g, t) && StackNumbered(t) && Settled(t) && Tracked(t)
  {
    var t := Visit(s, x, xs);
    assert forall y :: y in t.stack <==> y in s.stack || y == x;
    assert forall y :: y in s.stack ==> Index(t, y) == Index(s, y);
  }

  lemma VisitRises(s: Search, x: TaskId, xs: seq<TaskId>)
    requires StackNumbered(s) && StackRising(s) && x !in s.indices
    ensures StackRising(Visit(s, x, xs))
  {
    var t := Visit(s, x, xs);
    forall i, j | 0 <= i < j < |t.stack|
      ensures Index(t, t.stack[i]) < Index(t, t.stack[j])
    {
      assert s.stack[i] in s.stack;
      if j < |s.stack| {
        assert s.stack[j] in s.stack;
      }
    }
  }

  lemma VisitStacks(g: Graph, s: Search, x: TaskId, xs: seq<TaskId>)
    requires Visited(g, s) && StackNumbered(s) && StackRising(s) && Settled(s) && Tracked(s)
    requires x in g && x !in s.indices
    ensures var t := Visit(s, x, xs);
      Visited(g, t) && StackNumbered(t) && StackRising(t) && Settled(t) && Tracked(t)
  {
    VisitSettles(g, s, x, xs);
    VisitRises(s, x, xs);
  }

  lemma VisitRootDiscovers(s: Search, x: TaskId, xs: seq<TaskId>)
    requires s.work == []
    ensures Discovered(s, Visit(s, x, xs), x)
  {
  }

  lemma DescendDiscovers(s: Search, x: TaskId, xs: seq<TaskId>)
    requires s.work != [] && Top(s).pointer < |Top(s).successors| && Top(s).successors[Top(s).pointer] == x
    ensures Discovered(s, Visit(Advance(s), x, xs), x)
  {
    var t := Visit(Advance(s), x, xs);
    assert forall y :: y in t.stack <==> y in s.stack || y == x;
  }

  /** Look at the next successor, already visited, of the top frame. */
  function Look(s: Search, successor: TaskId): Search
    requires s.work != [] && Top(s).node in s.lowlink && (successor in s.onStack ==> successor in s.indices)
  {
    if successor in s.onStack then
      Advance(s).(lowlink := s.lowlink[Top(s).node := Min(s.lowlink[Top(s).node], s.indices[successor])])
    else
      Advance(s)
  }

  lemma LookLooksAt(s: Search, y: TaskId)
    requires s.work != [] && Top(s).pointer < |Top(s).successors| && Top(s).successors[Top(s).pointer] == y
    requires Top(s).node in s.lowlink && y in s.indices && Tracked(s)
    ensures LookedAt(s, Look(s, y), y)
  {
  }

  /** Pop the stack down to and including `node`; the popped tasks, in popping order, are the component. */
  method PopComponent(stack0: seq<TaskId>, onStack0: set<TaskId>, node: TaskId)
    returns (stack: seq<TaskId>, onStack: set<TaskId>, component: seq<TaskId>)
    requires node in stack0 && Distinct(stack0)
    requires forall x :: x in onStack0 <==> x in stack0
    ensures |stack| < |stack0| && stack == stack0[..|stack|] && stack0[|stack|] == node
    ensures |component| == |stack0| - |stack|
    ensures forall i :: 0 <= i < |component| ==> component[i] == stack0[|stack0| - 1 - i]
    ensures forall x :: x in onStack <==> x in stack
  {
    stack, onStack, component := stack0, onStack0, [];
    while true
      invariant |stack| <= |stack0| && stack == stack0[..|stack|] && node in stack
      invariant |component| == |stack0| - |stack|
      invariant forall i :: 0 <= i < |component| ==> component[i] == stack0[|stack0| - 1 - i]
      invariant forall x :: x in onStack <==> x in stack
      decreases |stack|
    {
      var member := stack[|stack| - 1];
      var below := stack[..|stack| - 1];
      assert stack == below + [member];
      assert member !in below by {
        assert forall i :: 0 <= i < |below| ==> below[i] == stack0[i] && stack0[i] != stack0[|stack| - 1];
      }
      stack, onStack, component := below, onStack - {member}, component + [member];
      if member == node {
        return;
      }
    }
  }

  /** What `PopComponent` leaves behind is the step `Emits` of the invariant proof. */
  lemma PopEmits(g: Graph, s: Search, t: Search, c: seq<TaskId>)
    requires s.work != [] && StackRising(s) && |t.stack| < |s.stack|
    requires t.stack == s.stack[..|t.stack|] && s.stack[|t.stack|] == Node(s, |s.work| - 1)
    requires |c| == |s.stack| - |t.stack|
    requires forall i :: 0 <= i < |c| ==> c[i] == s.stack[|s.stack| - 1 - i]
    requires Dropped(s, t) && t.components == s.components + [c]
    requires forall i :: 0 <= i < |t.work| ==> Low(t, Node(t, i)) == Low(s, Node(s, i))
    ensures Emits(s, t, c)
  {
    var k := |t.stack|;
    var top := Node(s, |s.work| - 1);
    forall x
      ensures x in c <==> x in s.stack && Index(s, top) <= Index(s, x)
      ensures x in t.stack <==> x in s.stack && Index(s, x) < Index(s, top)
    {
      if x in s.stack {
        var p :| 0 <= p < |s.stack| && s.stack[p] == x;
        if p < k {
          assert t.stack[p] == x;
          assert Index(s, x) < Index(s, top);
        } else {
          assert c[|s.stack| - 1 - p] == x;
        }
      }
      if x in c {
        var i :| 0 <= i < |c| && c[i] == x;
        assert Index(s, top) <= Index(s, s.stack[|s.stack| - 1 - i]);
      }
      if x in t.stack {
        var i :| 0 <= i < |t.stack| && t.stack[i] == x;
        assert Index(s, s.stack[i]) < Index(s, s.stack[k]);
      }
    }
    forall i, j | 0 <= i < j < |c|
      ensures c[i] != c[j]
    {
      assert Index(s, s.stack[|s.stack| - 1 - j]) < Index(s, s.stack[|s.stack| - 1 - i]);
    }
  }

  lemma RisingIsDistinct(s: Search)
    requires StackRising(s)
    ensures Distinct(s.stack)
  {
  }

  ghost predicate Searching(g: Graph, s: Search) {
    Inv(g, s) && Tracked(s)
  }

  predicate HasNext(s: Search) {
    s.work != [] && Top(s).pointer < |Top(s).successors|
  }

  ghost function Next(s: Search): TaskId
    requires HasNext(s)
  {
    Top(s).successors[Top(s).pointer]
  }

  /** The next successor of the top frame is a task of the graph, and the top task is visited. */
  lemma NextIsTask(g: Graph, s: Search)
    requires Searching(g, s) && HasNext(s)
    ensures Next(s) in g && Top(s).node in s.lowlink
    ensures Next(s) in s.onStack ==> Next(s) in s.indices
  {
    assert FrameOk(g, s, s.work[|s.work| - 1]);
    assert Next(s) in Top(s).successors;
  }

  lemma DescendStep(g: Graph, s: Search, xs: seq<TaskId>)
    requires Searching(g, s) && HasNext(s) && Next(s) !in s.indices && Next(s) in g
    requires Lists(xs, g[Next(s)])
    ensures Searching(g, Visit(Advance(s), Next(s), xs))
  {
    var x := Next(s);
    var t := Visit(Advance(s), x, xs);
    DescendDiscovers(s, x, xs);
    VisitStacks(g, Advance(s), x, xs);
    DiscoverInv(g, s, t, x);
  }

  lemma LookStep(g: Graph, s: Search)
    requires Searching(g, s) && HasNext(s) && Next(s) in s.indices && Top(s).node in s.lowlink
    ensures Searching(g, Look(s, Next(s)))
  {
    LookLooksAt(s, Next(s));
    LookInv(g, s, Look(s, Next(s)), Next(s));
  }

  /** A frame that has no next successor has looked at all of them. */
  lemma NoNextExhausts(g: Graph, s: Search)
    requires Searching(g, s) && s.work != [] && !HasNext(s)
    ensures Exhausted(s)
  {
    assert FrameOk(g, s, s.work[|s.work| - 1]);
  }

  /** Descending opens a frame for one new task. */
  lemma DescendNumbers(s: Search, xs: seq<TaskId>)
    requires HasNext(s)
    ensures var t := Visit(Advance(s), Next(s), xs);
      t.work != [] && t.indices.Keys == s.indices.Keys + {Next(s)}
  {
  }

  /** Looking moves the top frame's pointer and nothing else of the work stack. */
  lemma LookAdvances(s: Search)
    requires HasNext(s) && Top(s).node in s.lowlink && (Next(s) in s.onStack ==> Next(s) in s.indices)
    ensures var t := Look(s, Next(s));
      && t.work != [] && t.indices == s.indices && |t.work| == |s.work|
      && Top(t).successors == Top(s).successors && Top(t).pointer == Top(s).pointer + 1
  {
  }

  /** One turn of the scan: descend into a new successor, or look at a visited one. */
  method ScanOne(g: Graph, s0: Search) returns (s: Search, advanced: bool)
    requires Searching(g, s0) && HasNext(s0)
    ensures Searching(g, s) && s.work != []
    ensures advanced ==> Next(s0) in g && Next(s0) !in s0.indices && s.indices.Keys == s0.indices.Keys + {Next(s0)}
    ensures !advanced ==>
      && s.indices == s0.indices && |s.work| == |s0.work|
      && Top(s).successors == Top(s0).successors && Top(s).pointer == Top(s0).pointer + 1
  {
    NextIsTask(g, s0);
    var successor := Top(s0).successors[Top(s0).pointer];
    advanced := successor !in s0.indices;
    if advanced {
      var successors := SortedIds(g[successor]);
      DescendStep(g, s0, successors);
      DescendNumbers(s0, successors);
      s := Visit(Advance(s0), successor, successors);
    } else {
      LookStep(g, s0);
      LookAdvances(s0);
      s := Look(s0, successor);
    }
  }

  /** Look at the successors of the top frame until one is new (then open its frame) or none is left. */
  method ScanSuccessors(g: Graph, s0: Search) returns (s: Search, advanced: bool)
    requires Searching(g, s0) && s0.work != []
    ensures Searching(g, s) && s.work != []
    ensures s0.indices.Keys <= s.indices.Keys
    ensures advanced ==> exists x :: x in g && x !in s0.indices && x in s.indices
    ensures !advanced ==> Exhausted(s) && |s.work| == |s0.work| && s.indices == s0.indices
  {
    s, advanced := s0, false;
    while HasNext(s)
      invariant Searching(g, s) && s.work != [] && |s.work| == |s0.work| && s.indices == s0.indices
      decreases |Top(s).successors| - Top(s).pointer
    {
      ghost var x := Next(s);
      s, advanced := ScanOne(g, s);
      if advanced {
        assert x in s.indices;
        return;
      }
    }
    NoNextExhausts(g, s);
  }

  /** Drop the top frame; the frame below inherits its lowlink. */
  function Return(s: Search): Search
    requires s.work != [] && Top(s).node in s.lowlink
    requires |s.work| > 1 ==> s.work[|s.work| - 2].node in s.lowlink
  {
    var rest := s.work[..|s.work| - 1];
    if rest == [] then s.(work := rest)
    else
      var parent := rest[|rest| - 1].node;
      s.(work := rest, lowlink := s.lowlink[parent := Min(s.lowlink[parent], s.lowlink[Top(s).node])])
  }

  lemma FramesVisited(g: Graph, s: Search)
    requires Searching(g, s) && s.work != []
    ensures Top(s).node in s.lowlink && Top(s).node in s.indices && Top(s).node in s.stack
    ensures |s.work| > 1 ==> s.work[|s.work| - 2].node in s.lowlink
    ensures s.lowlink[Top(s).node] <= s.indices[Top(s).node]
  {
    assert Node(s, |s.work| - 1) in s.stack;
    assert LowWitnessed(g, s, Node(s, |s.work| - 1));
    if |s.work| > 1 {
      assert Node(s, |s.work| - 2) in s.stack;
    }
  }

  lemma ReturnDrops(s: Search)
    requires s.work != [] && Top(s).node in s.lowlink && Rising(s)
    requires |s.work| > 1 ==> s.work[|s.work| - 2].node in s.lowlink
    ensures Returned(s, Return(s))
  {
    var t := Return(s);
    var n := |s.work|;
    forall i | 0 <= i < |t.work| - 1
      ensures Low(t, Node(t, i)) == Low(s, Node(s, i))
    {
      assert Index(s, Node(s, i)) < Index(s, Node(s, n - 2));
    }
  }

  lemma ReturnStep(g: Graph, s: Search)
    requires Searching(g, s) && Exhausted(s)
    requires Top(s).node in s.lowlink && Top(s).node in s.indices
    requires |s.work| > 1 ==> s.work[|s.work| - 2].node in s.lowlink
    requires s.lowlink[Top(s).node] < s.indices[Top(s).node]
    ensures Searching(g, Return(s))
  {
    ReturnDrops(s);
    ReturnInv(g, s, Return(s));
  }

  /** Emitting leaves the lowlink of the frame below as it was: that task was discovered earlier. */
  lemma EmitDrops(g: Graph, s: Search, r: Search, t: Search)
    requires s.work != [] && Top(s).node in s.lowlink && Top(s).node in s.indices
    requires |s.work| > 1 ==> s.work[|s.work| - 2].node in s.lowlink
    requires s.lowlink[Top(s).node] == s.indices[Top(s).node]
    requires Rising(s) && LowReached(g, s)
    requires r == Return(s) && t == r.(stack := t.stack, onStack := t.onStack, components := t.components)
    ensures Dropped(s, t)
    ensures forall i :: 0 <= i < |t.work| ==> Low(t, Node(t, i)) == Low(s, Node(s, i))
  {
    var n := |s.work|;
    forall i | 0 <= i < |t.work|
      ensures Low(t, Node(t, i)) == Low(s, Node(s, i))
    {
      assert LowWitnessed(g, s, Node(s, i));
      assert Index(s, Node(s, i)) < Index(s, Node(s, n - 1));
    }
  }

  lemma ShrinkStacks(g: Graph, s: Search, t: Search)
    requires Visited(g, s) && StackNumbered(s) && StackRising(s)
    requires t.indices == s.indices && t.lowlink.Keys == s.lowlink.Keys && t.counter == s.counter
    requires |t.stack| <= |s.stack| && t.stack == s.stack[..|t.stack|]
    ensures Visited(g, t) && StackNumbered(t) && StackRising(t)
  {
    forall x | x in t.stack
      ensures x in t.indices && Index(t, x) < t.counter
    {
      assert x in s.stack;
    }
    forall i, j | 0 <= i < j < |t.stack|
      ensures Index(t, t.stack[i]) < Index(t, t.stack[j])
    {
      assert Index(s, s.stack[i]) < Index(s, s.stack[j]);
    }
  }

  lemma EmitStep(g: Graph, s: Search, t: Search, c: seq<TaskId>)
    requires Searching(g, s) && Exhausted(s)
    requires Top(s).node in s.lowlink && Top(s).node in s.indices
    requires |s.work| > 1 ==> s.work[|s.work| - 2].node in s.lowlink
    requires s.lowlink[Top(s).node] == s.indices[Top(s).node]
    requires t == Return(s).(stack := t.stack, onStack := t.onStack, components := s.components + [c])
    requires |t.stack| < |s.stack| && t.stack == s.stack[..|t.stack|] && s.stack[|t.stack|] == Top(s).node
    requires |c| == |s.stack| - |t.stack|
    requires forall i :: 0 <= i < |c| ==> c[i] == s.stack[|s.stack| - 1 - i]
    requires Tracked(t)
    ensures Searching(g, t)
  {
    EmitDrops(g, s, Return(s), t);
    PopEmits(g, s, t, c);
    ShrinkStacks(g, s, t);
    EmitInv(g, s, t, c);
  }

  /** Pop the component of the top frame off the stack, list it, and return to the frame below. */
  method PopTop(s0: Search) returns (s: Search, component: seq<TaskId>)
    requires s0.work != [] && Top(s0).node in s0.lowlink && Top(s0).node in s0.stack
    requires |s0.work| > 1 ==> s0.work[|s0.work| - 2].node in s0.lowlink
    requires Distinct(s0.stack) && Tracked(s0)
    ensures s == Return(s0).(stack := s.stack, onStack := s.onStack, components := s0.components + [component])
    ensures |s.stack| < |s0.stack| && s.stack == s0.stack[..|s.stack|] && s0.stack[|s.stack|] == Top(s0).node
    ensures |component| == |s0.stack| - |s.stack|
    ensures forall i :: 0 <= i < |component| ==> component[i] == s0.stack[|s0.stack| - 1 - i]
    ensures Tracked(s)
  {
    var stack, onStack, popped := PopComponent(s0.stack, s0.onStack, Top(s0).node);
    component := popped;
    s := Return(s0).(stack := stack, onStack := onStack, components := s0.components + [component]);
  }

  /** The top frame is the root of its component: emit it. */
  method EmitTop(g: Graph, s0: Search) returns (s: Search)
    requires Searching(g, s0) && Exhausted(s0)
    requires Top(s0).node in s0.lowlink && Top(s0).node in s0.indices && Top(s0).node in s0.stack
    requires |s0.work| > 1 ==> s0.work[|s0.work| - 2].node in s0.lowlink
    requires s0.lowlink[Top(s0).node] == s0.indices[Top(s0).node]
    ensures Searching(g, s)
    ensures |s.work| == |s0.work| - 1 && s.indices == s0.indices
  {
    RisingIsDistinct(s0);
    var component;
    s, component := PopTop(s0);
    EmitStep(g, s0, s, component);
  }

  /** Close the exhausted top frame: emit its component if it is a root, then hand its lowlink down. */
  method FinishTop(g: Graph, s0: Search) returns (s: Search)
    requires Searching(g, s0) && Exhausted(s0)
    ensures Searching(g, s)
    ensures |s.work| == |s0.work| - 1 && s.indices == s0.indices
  {
    FramesVisited(g, s0);
    var node := Top(s0).node;
    if s0.lowlink[node] == s0.indices[node] {
      s := EmitTop(g, s0);
    } else {
      s := Return(s0);
      ReturnStep(g, s0);
    }
  }

  /** A stacked task has a frame at or below it, so without frames nothing is stacked. */
  lemma StackNeedsFrame(g: Graph, s: Search)
    requires Searching(g, s) && s.stack != []
    ensures s.work != []
  {
    assert Grounded(g, s, s.stack[0]);
  }

  /** Explore everything reachable from an unvisited `root`. */
  method ExploreFrom(g: Graph, s0: Search, root: TaskId) returns (s: Search)
    requires Searching(g, s0) && s0.work == [] && root in g && root !in s0.indices
    ensures Searching(g, s) && s.work == [] && s.stack == []
    ensures root in s.indices && s0.indices.Keys <= s.indices.Keys
  {
    var successors := SortedIds(g[root]);
    RootStep(g, s0, root, successors);
    s := Visit(s0, root, successors);
    while s.work != []
      invariant Searching(g, s) && root in s.indices && s0.indices.Keys <= s.indices.Keys
      decreases |g.Keys - s.indices.Keys|, |s.work|
    {
      ghost var before := g.Keys - s.indices.Keys;
      var advanced;
      s, advanced := ScanSuccessors(g, s);
      if advanced {
        assert g.Keys - s.indices.Keys < before;
        SmallerSet(g.Keys - s.indices.Keys, before);
        continue;
      }
      s := FinishTop(g, s);
    }
    if s.stack != [] {
      StackNeedsFrame(g, s);
    }
  }

  lemma SmallerSet(a: set<TaskId>, b: set<TaskId>)
    requires a < b
    ensures |a| < |b|
  {
    assert b == a + (b - a);
  }

  lemma RootStep(g: Graph, s: Search, root: TaskId, xs: seq<TaskId>)
    requires Searching(g, s) && s.work == [] && root in g && root !in s.indices && Lists(xs, g[root])
    ensures Searching(g, Visit(s, root, xs))
  {
    VisitRootDiscovers(s, root, xs);
    VisitStacks(g, s, root, xs);
    DiscoverInv(g, s, Visit(s, root, xs), root);
  }

  lemma StartSearch(g: Graph)
    requires Closed(g)
    ensures Searching(g, Search(0, map[], map[], [], {}, [], []))
  {
  }

  /** The components partition the tasks, group exactly the mutually reachable ones, and come successors first. */
  ghost predicate IsCondensation(g: Graph, components: seq<seq<TaskId>>) {
    && Disjoint(components)
    && (forall x :: Emitted(components, x) <==> x in g)
    && (forall i, x, y :: 0 <= i < |components| && x in components[i] ==>
         (y in components[i] <==> Reaches(g, x, y) && Reaches(g, y, x)))
    && SuccessorsFirst(g, components)
  }

  /** Following edges never leads to a later component. */
  lemma ReachStaysBefore(g: Graph, components: seq<seq<TaskId>>, i: int, x: TaskId, y: TaskId)
    requires SuccessorsFirst(g, components)
    requires 0 <= i < |components| && x in components[i] && Reaches(g, x, y)
    ensures exists j :: 0 <= j <= i && y in components[j]
  {
    var before := set u, j | 0 <= j <= i && u in components[j] :: u;
    forall u, v | u in before && u in g && v in g[u]
      ensures v in before
    {
      var j :| 0 <= j <= i && u in components[j];
      var k :| 0 <= k <= j && v in components[k];
    }
    ClosedSetKeepsReach(g, before, x, y);
  }

  lemma FinishedIsCondensation(g: Graph, s: Search)
    requires Inv(g, s) && s.stack == [] && s.indices.Keys == g.Keys
    ensures IsCondensation(g, s.components)
  {
    var c := s.components;
    forall i, x, y | 0 <= i < |c| && x in c[i] && Reaches(g, x, y) && Reaches(g, y, x)
      ensures y in c[i]
    {
      ReachStaysBefore(g, c, i, x, y);
      var j :| 0 <= j <= i && y in c[j];
      ReachStaysBefore(g, c, j, y, x);
      var k :| 0 <= k <= j && x in c[k];
    }
  }

  /** Nothing is open and every root in the list is visited. */
  ghost predicate RootsDone(g: Graph, s: Search, roots: seq<TaskId>, k: nat) {
    && Searching(g, s) && s.work == [] && s.stack == []
    && forall j :: 0 <= j < k && j < |roots| ==> roots[j] in s.indices
  }

  lemma AllRootsDone(g: Graph, s: Search, roots: seq<TaskId>)
    requires RootsDone(g, s, roots, |roots|) && forall x :: x in roots <==> x in g
    ensures IsCondensation(g, s.components)
  {
    forall x | x in g
      ensures x in s.indices
    {
      assert x in roots;
    }
    FinishedIsCondensation(g, s);
  }

  /** One turn of the loop over roots: a root not yet visited is explored. */
  method VisitRoot(g: Graph, s0: Search, roots: seq<TaskId>, k: nat) returns (s: Search)
    requires RootsDone(g, s0, roots, k) && k < |roots| && roots[k] in g
    ensures RootsDone(g, s, roots, k + 1)
  {
    s := s0;
    if roots[k] in s0.indices {
      return;
    }
    s := ExploreFrom(g, s0, roots[k]);
  }

  /** `_strongly_connected_components`. */
  method StronglyConnectedComponents(adjacency: Graph) returns (components: seq<seq<TaskId>>)
    requires Closed(adjacency)
    ensures IsCondensation(adjacency, components)
  {
    StartSearch(adjacency);
    var s := Search(0, map[], map[], [], {}, [], []);
    var roots := SortedIds(adjacency.Keys);
    for k := 0 to |roots|
      invariant RootsDone(adjacency, s, roots, k)
    {
      assert roots[k] in roots;
      s := VisitRoot(adjacency, s, roots, k);
    }
    AllRootsDone(adjacency, s, roots);
    components := s.components;
  }
}
