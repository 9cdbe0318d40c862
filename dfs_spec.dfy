/**
 * The recursive depth-first search shared by AdjListDFS and AdjMatrixDFS
 * (dfs.cpp:147-165, dfs.cpp:191-214), as a function of the graph, the
 * vertex and the flags on entry. It yields the flags on return and the
 * vertices the call emits, in emission order.
 */
module Dfs {
  import opened Graph
  import opened Marks

  /** The outcome of a call: the visited flags afterwards and the vertices emitted. */
  datatype Visit = Visit(visited: seq<bool>, emitted: seq<int>)

  /** No vertex occurs twice. */
  predicate Distinct(s: seq<int>) {
    forall i, j :: 0 <= i < j < |s| ==> s[i] != s[j]
  }

  /**
   * One call: mark v, emit v, then run v's neighbour loop from slot 0.
   * The call only ever sets flags, and v is marked on return.
   */
  function Search(g: Scans, v: int, vis: seq<bool>): (r: Visit)
    requires WellFormed(g) && |vis| == |g| && 0 <= v < |g|
    ensures Grows(vis, r.visited) && r.visited[v]
    decreases Unvisited(vis), if vis[v] then 2 else 0, 0
  {
    MarkOne(vis, v);
    var rest := Scan(g, v, 0, vis[v := true]);
    Visit(rest.visited, [v] + rest.emitted)
  }

  /**
   * The neighbour loop of v from slot i on: an edge to an unvisited vertex
   * starts a nested call; a missing edge or a visited vertex is skipped.
   */
  function Scan(g: Scans, v: int, i: int, vis: seq<bool>): (r: Visit)
    requires WellFormed(g) && |vis| == |g| && 0 <= v < |g| && 0 <= i <= |g[v]|
    ensures Grows(vis, r.visited)
    decreases Unvisited(vis), 1, |g[v]| - i
  {
    if i == |g[v]| then Visit(vis, [])
    else match g[v][i]
      case NoEdge => Scan(g, v, i + 1, vis)
      case EdgeTo(w) =>
        if vis[w] then Scan(g, v, i + 1, vis)
        else
          var sub := Search(g, w, vis);
          GrowsUnvisited(vis, sub.visited);
          var rest := Scan(g, v, i + 1, sub.visited);
          Visit(rest.visited, sub.emitted + rest.emitted)
  }

  lemma DistinctConcat(a: seq<int>, b: seq<int>)
    requires Distinct(a) && Distinct(b) && forall x :: x in a ==> x !in b
    ensures Distinct(a + b)
  {
    var c := a + b;
    forall i, j | 0 <= i < j < |c| ensures c[i] != c[j] {
      if i < |a| && j >= |a| {
        assert c[i] in a && c[j] == b[j - |a|];
      }
    }
  }

  /**
   * A call emits v first (pre-order), then exactly the vertices it newly
   * marks, none of them twice.
   */
  lemma {:induction false} SearchEmits(g: Scans, v: int, vis: seq<bool>)
    requires WellFormed(g) && |vis| == |g| && 0 <= v < |g|
    ensures |Search(g, v, vis).emitted| > 0 && Search(g, v, vis).emitted[0] == v
    ensures Distinct(Search(g, v, vis).emitted)
    ensures forall x :: x in Search(g, v, vis).emitted <==> x == v || Newly(vis, Search(g, v, vis).visited, x)
    decreases Unvisited(vis), if vis[v] then 2 else 0, 0
  {
    MarkOne(vis, v);
    var marked := vis[v := true];
    ScanEmits(g, v, 0, marked);
    var rest := Scan(g, v, 0, marked);
    DistinctConcat([v], rest.emitted);
  }

  /** The loop from slot i emits exactly the vertices it newly marks, none twice. */
  lemma {:induction false} ScanEmits(g: Scans, v: int, i: int, vis: seq<bool>)
    requires WellFormed(g) && |vis| == |g| && 0 <= v < |g| && 0 <= i <= |g[v]|
    ensures Distinct(Scan(g, v, i, vis).emitted)
    ensures forall x :: x in Scan(g, v, i, vis).emitted <==> Newly(vis, Scan(g, v, i, vis).visited, x)
    decreases Unvisited(vis), 1, |g[v]| - i
  {
    if i < |g[v]| {
      match g[v][i]
      case NoEdge => ScanEmits(g, v, i + 1, vis);
      case EdgeTo(w) =>
        if vis[w] {
          ScanEmits(g, v, i + 1, vis);
        } else {
          var sub := Search(g, w, vis);
          SearchEmits(g, w, vis);
          GrowsUnvisited(vis, sub.visited);
          ScanEmits(g, v, i + 1, sub.visited);
          var rest := Scan(g, v, i + 1, sub.visited);
          DistinctConcat(sub.emitted, rest.emitted);
        }
    }
  }

  lemma NeighboursStayMarked(g: Scans, before: seq<bool>, after: seq<bool>, x: int)
    requires NeighboursMarked(g, before, x) && Grows(before, after)
    ensures NeighboursMarked(g, after, x)
  {
  }

  /** On return every vertex the call newly marked, v included, has all its neighbours marked. */
  lemma {:induction false} SearchCloses(g: Scans, v: int, vis: seq<bool>)
    requires WellFormed(g) && |vis| == |g| && 0 <= v < |g|
    ensures NeighboursMarked(g, Search(g, v, vis).visited, v)
    ensures forall x :: Newly(vis, Search(g, v, vis).visited, x) ==> NeighboursMarked(g, Search(g, v, vis).visited, x)
    decreases Unvisited(vis), if vis[v] then 2 else 0, 0
  {
    MarkOne(vis, v);
    var marked := vis[v := true];
    ScanCloses(g, v, 0, marked);
    var rest := Scan(g, v, 0, marked);
    forall w | Edge(g, v, w) ensures 0 <= w < |rest.visited| && rest.visited[w] {
      var j :| 0 <= j < |g[v]| && g[v][j] == EdgeTo(w);
    }
  }

  /**
   * The loop from slot i leaves every vertex it newly marked with all its
   * neighbours marked, and marks the target of every edge from slot i on.
   */
  lemma {:induction false} ScanCloses(g: Scans, v: int, i: int, vis: seq<bool>)
    requires WellFormed(g) && |vis| == |g| && 0 <= v < |g| && 0 <= i <= |g[v]|
    ensures forall x :: Newly(vis, Scan(g, v, i, vis).visited, x) ==> NeighboursMarked(g, Scan(g, v, i, vis).visited, x)
    ensures forall j :: i <= j < |g[v]| && g[v][j].EdgeTo? ==> Scan(g, v, i, vis).visited[g[v][j].target]
    decreases Unvisited(vis), 1, |g[v]| - i
  {
    if i < |g[v]| {
      match g[v][i]
      case NoEdge => ScanCloses(g, v, i + 1, vis);
      case EdgeTo(w) =>
        if vis[w] {
          ScanCloses(g, v, i + 1, vis);
        } else {
          var sub := Search(g, w, vis);
          SearchCloses(g, w, vis);
          GrowsUnvisited(vis, sub.visited);
          ScanCloses(g, v, i + 1, sub.visited);
          var rest := Scan(g, v, i + 1, sub.visited);
          forall x | Newly(vis, rest.visited, x)
            ensures NeighboursMarked(g, rest.visited, x)
          {
            if sub.visited[x] {
              assert x == w || Newly(vis, sub.visited, x);
              NeighboursStayMarked(g, sub.visited, rest.visited, x);
            } else {
              assert Newly(sub.visited, rest.visited, x);
            }
          }
        }
    }
  }

  /** Every vertex a call newly marks is reachable from v. */
  lemma {:induction false} SearchReaches(g: Scans, v: int, vis: seq<bool>)
    requires WellFormed(g) && |vis| == |g| && 0 <= v < |g|
    ensures forall x :: Newly(vis, Search(g, v, vis).visited, x) ==> Reachable(g, v, x)
    decreases Unvisited(vis), if vis[v] then 2 else 0, 0
  {
    MarkOne(vis, v);
    ScanReaches(g, v, 0, vis[v := true]);
    ReachableRefl(g, v);
  }

  /** Every vertex the loop of v newly marks is reachable from v. */
  lemma {:induction false} ScanReaches(g: Scans, v: int, i: int, vis: seq<bool>)
    requires WellFormed(g) && |vis| == |g| && 0 <= v < |g| && 0 <= i <= |g[v]|
    ensures forall x :: Newly(vis, Scan(g, v, i, vis).visited, x) ==> Reachable(g, v, x)
    decreases Unvisited(vis), 1, |g[v]| - i
  {
    if i < |g[v]| {
      match g[v][i]
      case NoEdge => ScanReaches(g, v, i + 1, vis);
      case EdgeTo(w) =>
        if vis[w] {
          ScanReaches(g, v, i + 1, vis);
        } else {
          var sub := Search(g, w, vis);
          SearchReaches(g, w, vis);
          GrowsUnvisited(vis, sub.visited);
          ScanReaches(g, v, i + 1, sub.visited);
          assert Edge(g, v, w);
          forall x | Newly(vis, sub.visited, x) ensures Reachable(g, v, x) {
            ReachableViaEdge(g, v, w, x);
          }
        }
    }
  }

  /**
   * From a fresh all-false marker set, a search from s marks and emits
   * exactly the vertices reachable from s, each once, s first.
   */
  lemma FreshSearchReachesExactly(g: Scans, s: int)
    requires WellFormed(g) && 0 <= s < |g|
    ensures |Search(g, s, AllFalse(|g|)).emitted| > 0 && Search(g, s, AllFalse(|g|)).emitted[0] == s
    ensures Distinct(Search(g, s, AllFalse(|g|)).emitted)
    ensures forall x :: 0 <= x < |g| ==> (Search(g, s, AllFalse(|g|)).visited[x] <==> Reachable(g, s, x))
    ensures forall x :: x in Search(g, s, AllFalse(|g|)).emitted <==> 0 <= x < |g| && Reachable(g, s, x)
  {
    var unmarked := AllFalse(|g|);
    var r := Search(g, s, unmarked);
    SearchEmits(g, s, unmarked);
    SearchCloses(g, s, unmarked);
    SearchReaches(g, s, unmarked);
    ReachableRefl(g, s);
    assert Closed(g, r.visited) by {
      forall x | 0 <= x < |g| && r.visited[x] ensures NeighboursMarked(g, r.visited, x) {
        assert x == s || Newly(unmarked, r.visited, x);
      }
    }
    forall x | Reachable(g, s, x) ensures 0 <= x < |g| && r.visited[x] {
      ClosedContainsReachable(g, r.visited, s, x);
    }
    forall x | 0 <= x < |g| && r.visited[x] ensures Reachable(g, s, x) {
      assert x == s || Newly(unmarked, r.visited, x);
    }
  }

  /** g with every edge from a vertex to itself turned into a missing edge. */
  function WithoutSelfLoops(g: Scans): (h: Scans)
    ensures |h| == |g| && forall u :: 0 <= u < |g| ==> |h[u]| == |g[u]|
    ensures forall u, i :: 0 <= u < |g| && 0 <= i < |g[u]| ==>
      h[u][i] == (if g[u][i] == EdgeTo(u) then NoEdge else g[u][i])
    ensures WellFormed(g) ==> WellFormed(h)
  {
    seq(|g|, u requires 0 <= u < |g| =>
      seq(|g[u]|, i requires 0 <= i < |g[u]| => if g[u][i] == EdgeTo(u) then NoEdge else g[u][i]))
  }

  /**
   * A call never follows an edge back to a vertex on whose loop it is:
   * the vertex is marked before its loop starts. So deleting self-loops
   * changes neither the flags nor the emitted vertices.
   */
  lemma {:induction false} SearchIgnoresSelfLoops(g: Scans, v: int, vis: seq<bool>)
    requires WellFormed(g) && |vis| == |g| && 0 <= v < |g|
    ensures Search(WithoutSelfLoops(g), v, vis) == Search(g, v, vis)
    decreases Unvisited(vis), if vis[v] then 2 else 0, 0
  {
    MarkOne(vis, v);
    ScanIgnoresSelfLoops(g, v, 0, vis[v := true]);
  }

  /** The loop of a marked vertex v runs alike with and without self-loops. */
  lemma {:induction false} ScanIgnoresSelfLoops(g: Scans, v: int, i: int, vis: seq<bool>)
    requires WellFormed(g) && |vis| == |g| && 0 <= v < |g| && 0 <= i <= |g[v]| && vis[v]
    ensures Scan(WithoutSelfLoops(g), v, i, vis) == Scan(g, v, i, vis)
    decreases Unvisited(vis), 1, |g[v]| - i
  {
    if i < |g[v]| {
      var h := WithoutSelfLoops(g);
      match g[v][i]
      case NoEdge =>
        assert h[v][i] == NoEdge;
        ScanIgnoresSelfLoops(g, v, i + 1, vis);
      case EdgeTo(w) =>
        if vis[w] {
          assert h[v][i] == NoEdge || h[v][i] == EdgeTo(w);
          ScanIgnoresSelfLoops(g, v, i + 1, vis);
        } else {
          assert h[v][i] == EdgeTo(w);
          var sub := Search(g, w, vis);
          SearchIgnoresSelfLoops(g, w, vis);
          GrowsUnvisited(vis, sub.visited);
          ScanIgnoresSelfLoops(g, v, i + 1, sub.visited);
        }
    }
  }

  /** A vertex without edges emits only itself and marks only itself. */
  lemma IsolatedVertexVisitsOnlyItself(g: Scans, v: int, vis: seq<bool>)
    requires WellFormed(g) && |vis| == |g| && 0 <= v < |g|
    requires forall w :: !Edge(g, v, w)
    ensures Search(g, v, vis) == Visit(vis[v := true], [v])
  {
    forall j | 0 <= j < |g[v]| ensures g[v][j] == NoEdge {
      SlotIsEdge(g, v, j);
    }
    ScanSkipsAll(g, v, 0, vis[v := true]);
  }

  lemma SlotIsEdge(g: Scans, v: int, j: int)
    requires 0 <= v < |g| && 0 <= j < |g[v]|
    ensures g[v][j].EdgeTo? ==> Edge(g, v, g[v][j].target)
  {
    assert g[v][j] in g[v];
  }

  lemma {:induction false} ScanSkipsAll(g: Scans, v: int, i: int, vis: seq<bool>)
    requires WellFormed(g) && |vis| == |g| && 0 <= v < |g| && 0 <= i <= |g[v]|
    requires forall j :: i <= j < |g[v]| ==> g[v][j] == NoEdge
    ensures Scan(g, v, i, vis) == Visit(vis, [])
    decreases |g[v]| - i
  {
    if i < |g[v]| {
      ScanSkipsAll(g, v, i + 1, vis);
    }
  }
}
