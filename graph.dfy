/**
 * Graphs as the two depth-first searches of dfs.cpp see them. Each vertex
 * owns the sequence of slots that its neighbour loop steps through, in
 * order: the adjacency-list search sees one edge per stored neighbour, the
 * adjacency-matrix search sees one slot per column, with no edge where the
 * entry is zero.
 */
module Graph {

  /** One step of a vertex's neighbour loop. */
  datatype Slot = NoEdge | EdgeTo(target: int)

  /** g[u] is the sequence of slots that vertex u's neighbour loop visits. */
  type Scans = seq<seq<Slot>>

  /** Every edge leads to a vertex of the graph. */
  predicate WellFormed(g: Scans) {
    forall u, i :: 0 <= u < |g| && 0 <= i < |g[u]| && g[u][i].EdgeTo? ==> 0 <= g[u][i].target < |g|
  }

  /** There is an edge from u to w: some slot of u's loop leads to w. */
  predicate Edge(g: Scans, u: int, w: int) {
    0 <= u < |g| && EdgeTo(w) in g[u]
  }

  /** A non-empty walk that starts at a vertex and follows edges. */
  ghost predicate IsPath(g: Scans, p: seq<int>) {
    |p| > 0 && 0 <= p[0] < |g| &&
    forall k :: 0 <= k < |p| - 1 ==> Edge(g, p[k], p[k + 1])
  }

  /** t can be reached from s by following edges (s itself included). */
  ghost predicate Reachable(g: Scans, s: int, t: int) {
    exists p :: IsPath(g, p) && p[0] == s && p[|p| - 1] == t
  }

  /** Every edge out of x leads to a marked vertex. */
  ghost predicate NeighboursMarked(g: Scans, marks: seq<bool>, x: int) {
    forall w :: Edge(g, x, w) ==> 0 <= w < |marks| && marks[w]
  }

  /** The marked vertices are closed under edges. */
  ghost predicate Closed(g: Scans, marks: seq<bool>) {
    |marks| == |g| &&
    forall x :: 0 <= x < |g| && marks[x] ==> NeighboursMarked(g, marks, x)
  }

  lemma ReachableRefl(g: Scans, s: int)
    requires 0 <= s < |g|
    ensures Reachable(g, s, s)
  {
    assert IsPath(g, [s]);
  }

  /** Reachability extends backwards along an edge. */
  lemma ReachableViaEdge(g: Scans, s: int, w: int, t: int)
    requires Edge(g, s, w) && Reachable(g, w, t)
    ensures Reachable(g, s, t)
  {
    var p :| IsPath(g, p) && p[0] == w && p[|p| - 1] == t;
    var q := [s] + p;
    assert forall k :: 1 <= k < |q| ==> q[k] == p[k - 1];
    assert IsPath(g, q);
  }

  /** Every vertex on a path that starts inside a closed set stays inside it. */
  lemma {:induction false} PathStaysInside(g: Scans, marks: seq<bool>, p: seq<int>)
    requires WellFormed(g) && Closed(g, marks) && IsPath(g, p) && marks[p[0]]
    ensures 0 <= p[|p| - 1] < |g| && marks[p[|p| - 1]]
    decreases |p|
  {
    if |p| > 1 {
      var q := p[..|p| - 1];
      assert IsPath(g, q) by {
        assert forall k :: 0 <= k < |q| ==> q[k] == p[k];
      }
      PathStaysInside(g, marks, q);
      var x, y := p[|p| - 2], p[|p| - 1];
      assert Edge(g, x, y);
      assert NeighboursMarked(g, marks, x);
    }
  }

  /** A closed set that holds s holds every vertex reachable from s. */
  lemma ClosedContainsReachable(g: Scans, marks: seq<bool>, s: int, t: int)
    requires WellFormed(g) && Closed(g, marks) && 0 <= s < |g| && marks[s]
    requires Reachable(g, s, t)
    ensures 0 <= t < |g| && marks[t]
  {
    var p :| IsPath(g, p) && p[0] == s && p[|p| - 1] == t;
    PathStaysInside(g, marks, p);
  }
}
