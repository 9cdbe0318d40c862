/**
 * The adjacency-matrix search of dfs.cpp: AdjMatrixDFS (dfs.cpp:191-214)
 * and AdjMatrixDFSInitialize (dfs.cpp:217-234). The neighbour loop scans
 * every column of the vertex's row and skips zero entries; `visited` is an
 * array updated in place, and the console output becomes the returned
 * sequence of emitted vertices.
 */
module AdjMatrix {
  import opened Graph
  import opened Marks
  import opened Dfs

  /**
   * Every column with a nonzero entry names a vertex of the matrix, as
   * AdjMatrixDFS needs when it indexes `visited` with a column number.
   */
  predicate ValidMatrix(m: seq<seq<int>>) {
    forall u, i :: 0 <= u < |m| && 0 <= i < |m[u]| && m[u][i] != 0 ==> i < |m|
  }

  /** Column i of a row: no edge where the entry is 0 (the `continue` at dfs.cpp:206), else an edge to i. */
  function ColumnSlot(row: seq<int>, i: int): Slot
    requires 0 <= i < |row|
  {
    if row[i] == 0 then NoEdge else EdgeTo(i)
  }

  /** The slots AdjMatrixDFS's loop steps through: column i is an edge to i unless the entry is 0. */
  function MatrixScans(m: seq<seq<int>>): (g: Scans)
    requires ValidMatrix(m)
    ensures |g| == |m| && WellFormed(g)
    ensures forall u, w :: Edge(g, u, w) <==> 0 <= u < |m| && 0 <= w < |m[u]| && m[u][w] != 0
  {
    var g := seq(|m|, u requires 0 <= u < |m| =>
      seq(|m[u]|, i requires 0 <= i < |m[u]| => ColumnSlot(m[u], i)));
    MatrixScansEdges(m, g);
    g
  }

  lemma MatrixScansEdges(m: seq<seq<int>>, g: Scans)
    requires |g| == |m|
    requires forall u :: 0 <= u < |m| ==> |g[u]| == |m[u]|
    requires forall u, i :: 0 <= u < |m| && 0 <= i < |m[u]| ==>
      g[u][i] == ColumnSlot(m[u], i)
    ensures forall u, w :: Edge(g, u, w) <==> 0 <= u < |m| && 0 <= w < |m[u]| && m[u][w] != 0
  {
    forall u, w | 0 <= u < |m|
      ensures EdgeTo(w) in g[u] <==> 0 <= w < |m[u]| && m[u][w] != 0
    {
      if EdgeTo(w) in g[u] {
        var i :| 0 <= i < |g[u]| && g[u][i] == EdgeTo(w);
        assert g[u][i] == ColumnSlot(m[u], i);
      }
      if 0 <= w < |m[u]| && m[u][w] != 0 {
        assert g[u][w] == EdgeTo(w);
      }
    }
  }

  /** MatrixScans(m) is the one table of m's shape whose slot i of row u is ColumnSlot(m[u], i). */
  lemma MatrixScansEqual(m: seq<seq<int>>, g: Scans)
    requires ValidMatrix(m) && |g| == |m|
    requires forall u :: 0 <= u < |m| ==> |g[u]| == |m[u]|
    requires forall u, i :: 0 <= u < |m| && 0 <= i < |m[u]| ==> g[u][i] == ColumnSlot(m[u], i)
    ensures MatrixScans(m) == g
  {
    var h := MatrixScans(m);
    forall u | 0 <= u < |m| ensures h[u] == g[u] { }
  }

  /** m with every diagonal entry cleared. */
  function ZeroDiagonal(m: seq<seq<int>>): (z: seq<seq<int>>)
    ensures |z| == |m| && forall u :: 0 <= u < |m| ==> |z[u]| == |m[u]|
    ensures forall u, i :: 0 <= u < |m| && 0 <= i < |m[u]| ==> z[u][i] == (if i == u then 0 else m[u][i])
    ensures ValidMatrix(m) ==> ValidMatrix(z)
  {
    seq(|m|, u requires 0 <= u < |m| =>
      seq(|m[u]|, i requires 0 <= i < |m[u]| => if i == u then 0 else m[u][i]))
  }

  /**
   * The diagonal of the matrix never matters to the search: column v of
   * row v passes the zero test (dfs.cpp:206) when the entry is 1, but finds
   * v already marked (dfs.cpp:194), so clearing the diagonal changes
   * neither the flags nor the emitted vertices.
   */
  lemma DiagonalIgnored(m: seq<seq<int>>, v: int, vis: seq<bool>)
    requires ValidMatrix(m) && |vis| == |m| && 0 <= v < |m|
    ensures Search(MatrixScans(ZeroDiagonal(m)), v, vis) == Search(MatrixScans(m), v, vis)
  {
    var g := MatrixScans(m);
    var z := ZeroDiagonal(m);
    forall u, i | 0 <= u < |z| && 0 <= i < |z[u]|
      ensures WithoutSelfLoops(g)[u][i] == ColumnSlot(z[u], i)
    {
      assert g[u][i] == ColumnSlot(m[u], i);
    }
    MatrixScansEqual(z, WithoutSelfLoops(g));
    SearchIgnoresSelfLoops(g, v, vis);
  }

  /**
   * AdjMatrixDFS: mark `vertex`, emit it, then for every column with a
   * nonzero entry whose flag is still clear, recurse into that column. The
   * result and the new flags are those of the search specification; the
   * diagonal entry finds `vertex` already marked and so starts nothing.
   * `depth` counts the calls active on the recursion stack, this one
   * included. The requires on it, which Dafny checks at the recursive
   * call, is what keeps it at most the number of vertices; the last
   * ensures spells that bound out.
   */
  method AdjMatrixDfs(adjMatrix: seq<seq<int>>, vertex: int, visited: array<bool>, ghost depth: nat)
    returns (order: seq<int>)
    requires ValidMatrix(adjMatrix) && visited.Length == |adjMatrix| && 0 <= vertex < |adjMatrix|
    requires 1 <= depth <= |adjMatrix| - Unvisited(visited[..]) + (if visited[vertex] then 0 else 1)
    modifies visited
    ensures Visit(visited[..], order) == Search(MatrixScans(adjMatrix), vertex, old(visited[..]))
    ensures Grows(old(visited[..]), visited[..]) && visited[vertex]
    ensures |order| > 0 && order[0] == vertex && Distinct(order)
    ensures forall x :: x in order <==> x == vertex || Newly(old(visited[..]), visited[..], x)
    ensures depth <= |adjMatrix|
    decreases Unvisited(visited[..]), if visited[vertex] then 1 else 0
  {
    ghost var g := MatrixScans(adjMatrix);
    ghost var entry := visited[..];
    ghost var marked := entry[vertex := true];
    MarkOne(entry, vertex);
    visited[vertex] := true;
    assert visited[..] == marked;
    order := [vertex];
    for i := 0 to |adjMatrix[vertex]|
      invariant Grows(marked, visited[..])
      invariant Search(g, vertex, entry) ==
        Visit(Scan(g, vertex, i, visited[..]).visited, order + Scan(g, vertex, i, visited[..]).emitted)
    {
      var edge := adjMatrix[vertex][i];
      var neighbor := i;
      if edge == 0 {
        continue;
      }
      if !visited[neighbor] {
        GrowsUnvisited(marked, visited[..]);
        var sub := AdjMatrixDfs(adjMatrix, neighbor, visited, depth + 1);
        order := order + sub;
      }
    }
    SearchEmits(g, vertex, entry);
  }

  /**
   * AdjMatrixDFSInitialize: a fresh all-false `visited` with one flag per
   * row, then one search from `start`. The emitted vertices are exactly
   * those reachable from `start`, each once, `start` first.
   */
  method AdjMatrixDfsInitialize(adjMatrix: seq<seq<int>>, start: int) returns (order: seq<int>)
    requires ValidMatrix(adjMatrix) && 0 <= start < |adjMatrix|
    ensures order == Search(MatrixScans(adjMatrix), start, AllFalse(|adjMatrix|)).emitted
    ensures |order| > 0 && order[0] == start && Distinct(order)
    ensures forall x :: x in order <==> 0 <= x < |adjMatrix| && Reachable(MatrixScans(adjMatrix), start, x)
  {
    var n := |adjMatrix|;
    var visited := new bool[n];
    for i := 0 to n
      invariant forall k :: 0 <= k < i ==> !visited[k]
    {
      visited[i] := false;
    }
    assert visited[..] == AllFalse(n);
    order := AdjMatrixDfs(adjMatrix, start, visited, 1);
    FreshSearchReachesExactly(MatrixScans(adjMatrix), start);
  }
}
