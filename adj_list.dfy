/**
 * The adjacency-list search of dfs.cpp: AdjListDFS (dfs.cpp:147-165) and
 * AdjListDFSInitialize (dfs.cpp:168-185). `visited` is an array that the
 * recursion updates in place; the console output becomes the returned
 * sequence of emitted vertices (0-based, without the display offset).
 */
module AdjList {
  import opened Graph
  import opened Marks
  import opened Dfs

  /** Every stored neighbour is a vertex of the list, as AdjListDFS needs when it indexes `visited`. */
  predicate ValidList(adj: seq<seq<int>>) {
    forall u, i :: 0 <= u < |adj| && 0 <= i < |adj[u]| ==> 0 <= adj[u][i] < |adj|
  }

  /** The slots AdjListDFS's loop steps through: one edge per stored neighbour, in stored order. */
  function ListScans(adj: seq<seq<int>>): (g: Scans)
    requires ValidList(adj)
    ensures |g| == |adj| && WellFormed(g)
    ensures forall u, w :: Edge(g, u, w) <==> 0 <= u < |adj| && w in adj[u]
  {
    var g := seq(|adj|, u requires 0 <= u < |adj| =>
      seq(|adj[u]|, i requires 0 <= i < |adj[u]| => EdgeTo(adj[u][i])));
    ListScansEdges(adj, g);
    g
  }

  lemma ListScansEdges(adj: seq<seq<int>>, g: Scans)
    requires |g| == |adj|
    requires forall u :: 0 <= u < |adj| ==> |g[u]| == |adj[u]|
    requires forall u, i :: 0 <= u < |adj| && 0 <= i < |adj[u]| ==> g[u][i] == EdgeTo(adj[u][i])
    ensures forall u, w :: Edge(g, u, w) <==> 0 <= u < |adj| && w in adj[u]
  {
    forall u, w | 0 <= u < |adj|
      ensures EdgeTo(w) in g[u] <==> w in adj[u]
    {
      if EdgeTo(w) in g[u] {
        var i :| 0 <= i < |g[u]| && g[u][i] == EdgeTo(w);
        assert adj[u][i] == w;
      }
      if w in adj[u] {
        var i :| 0 <= i < |adj[u]| && adj[u][i] == w;
        assert g[u][i] == EdgeTo(w);
      }
    }
  }

  /** ListScans(adj) is the one table of adj's shape whose slot i of row u is an edge to adj[u][i]. */
  lemma ListScansEqual(adj: seq<seq<int>>, g: Scans)
    requires ValidList(adj) && |g| == |adj|
    requires forall u :: 0 <= u < |adj| ==> |g[u]| == |adj[u]|
    requires forall u, i :: 0 <= u < |adj| && 0 <= i < |adj[u]| ==> g[u][i] == EdgeTo(adj[u][i])
    ensures ListScans(adj) == g
  {
    var h := ListScans(adj);
    forall u | 0 <= u < |adj| ensures h[u] == g[u] { }
  }

  /**
   * AdjListDFS: mark `vertex`, emit it, then recurse into every stored
   * neighbour whose flag is still clear. The result and the new flags are
   * those of the search specification, and so: flags only turn on, the
   * vertex is marked, the call emits the vertex first and then exactly the
   * vertices it newly marks, none twice. `depth` counts the calls active on
   * the recursion stack, this one included. The requires on it, which
   * Dafny checks at the recursive call, is what keeps it at most the
   * number of vertices; the last ensures spells that bound out.
   */
  method AdjListDfs(adjList: seq<seq<int>>, vertex: int, visited: array<bool>, ghost depth: nat)
    returns (order: seq<int>)
    requires ValidList(adjList) && visited.Length == |adjList| && 0 <= vertex < |adjList|
    requires 1 <= depth <= |adjList| - Unvisited(visited[..]) + (if visited[vertex] then 0 else 1)
    modifies visited
    ensures Visit(visited[..], order) == Search(ListScans(adjList), vertex, old(visited[..]))
    ensures Grows(old(visited[..]), visited[..]) && visited[vertex]
    ensures |order| > 0 && order[0] == vertex && Distinct(order)
    ensures forall x :: x in order <==> x == vertex || Newly(old(visited[..]), visited[..], x)
    ensures depth <= |adjList|
    decreases Unvisited(visited[..]), if visited[vertex] then 1 else 0
  {
    ghost var g := ListScans(adjList);
    ghost var entry := visited[..];
    ghost var marked := entry[vertex := true];
    MarkOne(entry, vertex);
    visited[vertex] := true;
    assert visited[..] == marked;
    order := [vertex];
    for i := 0 to |adjList[vertex]|
      invariant Grows(marked, visited[..])
      invariant Search(g, vertex, entry) ==
        Visit(Scan(g, vertex, i, visited[..]).visited, order + Scan(g, vertex, i, visited[..]).emitted)
    {
      var neighbor := adjList[vertex][i];
      if !visited[neighbor] {
        GrowsUnvisited(marked, visited[..]);
        var sub := AdjListDfs(adjList, neighbor, visited, depth + 1);
        order := order + sub;
      }
    }
    SearchEmits(g, vertex, entry);
  }

  /**
   * AdjListDFSInitialize: a fresh all-false `visited` of the list's size,
   * then one search from `start`. The emitted vertices are exactly those
   * reachable from `start`, each once, `start` first.
   */
  method AdjListDfsInitialize(adjList: seq<seq<int>>, start: int) returns (order: seq<int>)
    requires ValidList(adjList) && 0 <= start < |adjList|
    ensures order == Search(ListScans(adjList), start, AllFalse(|adjList|)).emitted
    ensures |order| > 0 && order[0] == start && Distinct(order)
    ensures forall x :: x in order <==> 0 <= x < |adjList| && Reachable(ListScans(adjList), start, x)
  {
    var n := |adjList|;
    var visited := new bool[n];
    for i := 0 to n
      invariant forall k :: 0 <= k < i ==> !visited[k]
    {
      visited[i] := false;
    }
    assert visited[..] == AllFalse(n);
    order := AdjListDfs(adjList, start, visited, 1);
    FreshSearchReachesExactly(ListScans(adjList), start);
  }
}
