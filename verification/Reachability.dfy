/** Paths in a finite directed graph whose edges stay among its nodes. */
module Reachability {
  import opened Domain

  type Graph = map<TaskId, set<TaskId>>

  ghost predicate Closed(g: Graph) {
    forall x, y :: x in g && y in g[x] ==> y in g
  }

  /** A nonempty walk along edges of `g`. */
  ghost predicate IsPath(g: Graph, p: seq<TaskId>) {
    p != [] && p[0] in g && (|p| > 1 ==> p[1] in g[p[0]] && IsPath(g, p[1..]))
  }

  /** `y` can be reached from `x` in zero or more steps. */
  ghost predicate Reaches(g: Graph, x: TaskId, y: TaskId) {
    exists p :: IsPath(g, p) && p[0] == x && p[|p| - 1] == y
  }

  /** `x` can be reached from itself in one or more steps. */
  ghost predicate OnCycle(g: Graph, x: TaskId) {
    x in g && exists y :: y in g[x] && Reaches(g, y, x)
  }

  lemma ReachesSelf(g: Graph, x: TaskId)
    requires x in g
    ensures Reaches(g, x, x)
  {
    assert IsPath(g, [x]);
  }

  lemma ReachesEdge(g: Graph, x: TaskId, y: TaskId)
    requires x in g && y in g && y in g[x]
    ensures Reaches(g, x, y)
  {
    var p := [x, y];
    assert p[1..] == [y];
    assert IsPath(g, p);
  }

  lemma {:induction false} JoinPaths(g: Graph, p: seq<TaskId>, q: seq<TaskId>)
    requires IsPath(g, p) && IsPath(g, q) && p[|p| - 1] == q[0]
    ensures IsPath(g, p + q[1..])
    decreases |p|
  {
    if |p| == 1 {
      assert p + q[1..] == q;
    } else {
      JoinPaths(g, p[1..], q);
      assert (p + q[1..])[1..] == p[1..] + q[1..];
    }
  }

  lemma ReachesTransitive(g: Graph, x: TaskId, y: TaskId, z: TaskId)
    requires Reaches(g, x, y) && Reaches(g, y, z)
    ensures Reaches(g, x, z)
  {
    var p :| IsPath(g, p) && p[0] == x && p[|p| - 1] == y;
    var q :| IsPath(g, q) && q[0] == y && q[|q| - 1] == z;
    JoinPaths(g, p, q);
    var r := p + q[1..];
    assert r[0] == x && r[|r| - 1] == z;
  }

  /** A set closed under edges keeps every path that starts inside it. */
  lemma {:induction false} ClosedSetKeepsPath(g: Graph, s: set<TaskId>, p: seq<TaskId>)
    requires IsPath(g, p) && p[0] in s
    requires forall x, y :: x in s && x in g && y in g[x] ==> y in s
    ensures p[|p| - 1] in s
    decreases |p|
  {
    if |p| > 1 {
      ClosedSetKeepsPath(g, s, p[1..]);
    }
  }

  lemma ClosedSetKeepsReach(g: Graph, s: set<TaskId>, x: TaskId, y: TaskId)
    requires Reaches(g, x, y) && x in s
    requires forall u, v :: u in s && u in g && v in g[u] ==> v in s
    ensures y in s
  {
    var p :| IsPath(g, p) && p[0] == x && p[|p| - 1] == y;
    ClosedSetKeepsPath(g, s, p);
  }

  /** A path to another task leaves through a successor. */
  lemma FirstStep(g: Graph, x: TaskId, y: TaskId)
    requires Reaches(g, x, y) && x != y
    ensures x in g && exists z :: z in g[x] && Reaches(g, z, y)
  {
    var p :| IsPath(g, p) && p[0] == x && p[|p| - 1] == y;
    var q := p[1..];
    assert IsPath(g, q) && q[0] == p[1] && q[|q| - 1] == y;
    assert Reaches(g, p[1], y);
  }
}
