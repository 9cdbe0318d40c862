/**
 * The hardcoded example graph of dfs.cpp: nine vertices, nine undirected
 * edges, built once as an adjacency list (FormAdjList, dfs.cpp:26-76) and
 * once as an adjacency matrix (FormAdjMatrix, dfs.cpp:82-141).
 */
module Example {
  import opened AdjList
  import opened AdjMatrix

  /** The number of vertices (dfs.cpp:32, dfs.cpp:89). */
  const N := 9

  /** The nine undirected edges set at dfs.cpp:112-137, one orientation each. */
  const Edges: set<(int, int)> := {(0, 2), (0, 4), (0, 6), (1, 4), (1, 7), (2, 5), (3, 4), (3, 5), (5, 8)}

  /** u and v are joined by an edge of the example graph, in either orientation. */
  predicate IsEdge(u: int, v: int) {
    (u, v) in Edges || (v, u) in Edges
  }

  /**
   * The list FormAdjList returns: nine rows, row u holding u's neighbours in
   * the order they are pushed. Its neighbours are exactly the edges of the
   * example graph, so adjacency is symmetric.
   */
  function ExampleAdjList(): (adj: seq<seq<int>>)
    ensures |adj| == N && ValidList(adj)
    ensures forall u, v :: 0 <= u < N ==> (v in adj[u] <==> IsEdge(u, v))
    ensures forall u, v :: 0 <= u < N && 0 <= v < N ==> (v in adj[u] <==> u in adj[v])
  {
    [[2, 4, 6], [4, 7], [0, 5], [4, 5], [1, 3, 0], [2, 3, 8], [0], [1], [5]]
  }

  /**
   * The matrix FormAdjMatrix returns: the 9x9 identity with a 1 added at both
   * (u, v) and (v, u) for every edge. Entries are 0 or 1, the diagonal is 1
   * and the matrix is symmetric.
   */
  function ExampleAdjMatrix(): (m: seq<seq<int>>)
    ensures |m| == N && ValidMatrix(m)
    ensures forall u :: 0 <= u < N ==> |m[u]| == N && m[u][u] == 1
    ensures forall u, v :: 0 <= u < N && 0 <= v < N ==> (m[u][v] == 0 || m[u][v] == 1)
    ensures forall u, v :: 0 <= u < N && 0 <= v < N ==> m[u][v] == m[v][u]
  {
    seq(N, u => seq(N, v => if u == v || IsEdge(u, v) then 1 else 0))
  }

  /** Off the diagonal, a 1 in the matrix is exactly a neighbour in the list: both encode one edge set. */
  lemma ListAndMatrixAgree()
    ensures forall u, v :: 0 <= u < N && 0 <= v < N && u != v ==>
      (ExampleAdjMatrix()[u][v] == 1 <==> v in ExampleAdjList()[u])
  {
  }

  /** FormAdjList: nine empty rows, then the neighbours pushed row by row. */
  method FormAdjList() returns (adjList: seq<seq<int>>)
    ensures adjList == ExampleAdjList()
  {
    adjList := [];
    var n := 9;
    for i := 0 to n
      invariant adjList == seq(i, _ => [])
    {
      var row := [];
      adjList := adjList + [row];
    }
    assert |adjList| == N && forall u :: 0 <= u < N ==> adjList[u] == [];
    adjList := adjList[0 := adjList[0] + [2]];
    adjList := adjList[0 := adjList[0] + [4]];
    adjList := adjList[0 := adjList[0] + [6]];
    assert adjList[0] == [2, 4, 6];

    adjList := adjList[1 := adjList[1] + [4]];
    adjList := adjList[1 := adjList[1] + [7]];
    assert adjList[1] == [4, 7];

    adjList := adjList[2 := adjList[2] + [0]];
    adjList := adjList[2 := adjList[2] + [5]];
    assert adjList[2] == [0, 5];

    adjList := adjList[3 := adjList[3] + [4]];
    adjList := adjList[3 := adjList[3] + [5]];
    assert adjList[3] == [4, 5];

    adjList := adjList[4 := adjList[4] + [1]];
    adjList := adjList[4 := adjList[4] + [3]];
    adjList := adjList[4 := adjList[4] + [0]];
    assert adjList[4] == [1, 3, 0];

    adjList := adjList[5 := adjList[5] + [2]];
    adjList := adjList[5 := adjList[5] + [3]];
    adjList := adjList[5 := adjList[5] + [8]];
    assert adjList[5] == [2, 3, 8];

    adjList := adjList[6 := adjList[6] + [0]];
    assert adjList[6] == [0];

    adjList := adjList[7 := adjList[7] + [1]];
    assert adjList[7] == [1];

    adjList := adjList[8 := adjList[8] + [5]];
    assert adjList[8] == [5];
  }

  /** FormAdjMatrix: the 9x9 identity built row by row, then both orientations of each edge set to 1. */
  method FormAdjMatrix() returns (adjMatrix: seq<seq<int>>)
    ensures adjMatrix == ExampleAdjMatrix()
  {
    adjMatrix := [];
    var n := 9;
    for i := 0 to n
      invariant |adjMatrix| == i
      invariant forall r :: 0 <= r < i ==> adjMatrix[r] == seq(n, c => if r == c then 1 else 0)
    {
      var row := [];
      adjMatrix := adjMatrix + [row];
      for j := 0 to n
        invariant |adjMatrix| == i + 1
        invariant forall r :: 0 <= r < i ==> adjMatrix[r] == seq(n, c => if r == c then 1 else 0)
        invariant adjMatrix[i] == seq(j, c => if i == c then 1 else 0)
      {
        var value := 0;
        if i == j {
          value := 1;
        }
        adjMatrix := adjMatrix[i := adjMatrix[i] + [value]];
      }
    }
    adjMatrix := adjMatrix[0 := adjMatrix[0][2 := 1]];
    adjMatrix := adjMatrix[2 := adjMatrix[2][0 := 1]];

    adjMatrix := adjMatrix[0 := adjMatrix[0][4 := 1]];
    adjMatrix := adjMatrix[4 := adjMatrix[4][0 := 1]];

    adjMatrix := adjMatrix[0 := adjMatrix[0][6 := 1]];
    adjMatrix := adjMatrix[6 := adjMatrix[6][0 := 1]];

    adjMatrix := adjMatrix[1 := adjMatrix[1][4 := 1]];
    adjMatrix := adjMatrix[4 := adjMatrix[4][1 := 1]];

    adjMatrix := adjMatrix[1 := adjMatrix[1][7 := 1]];
    adjMatrix := adjMatrix[7 := adjMatrix[7][1 := 1]];

    adjMatrix := adjMatrix[2 := adjMatrix[2][5 := 1]];
    adjMatrix := adjMatrix[5 := adjMatrix[5][2 := 1]];

    adjMatrix := adjMatrix[3 := adjMatrix[3][4 := 1]];
    adjMatrix := adjMatrix[4 := adjMatrix[4][3 := 1]];

    adjMatrix := adjMatrix[3 := adjMatrix[3][5 := 1]];
    adjMatrix := adjMatrix[5 := adjMatrix[5][3 := 1]];

    adjMatrix := adjMatrix[5 := adjMatrix[5][8 := 1]];
    adjMatrix := adjMatrix[8 := adjMatrix[8][5 := 1]];

    forall u | 0 <= u < N ensures adjMatrix[u] == ExampleAdjMatrix()[u] {
      assert |adjMatrix[u]| == N;
    }
  }
}
