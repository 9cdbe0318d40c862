/**
 * main of dfs.cpp (dfs.cpp:239-254): build the example list and matrix and
 * search each from vertex 4. The lemmas below follow both searches call by
 * call and pin down the exact order in which the vertices are emitted.
 */
module Demo {
  import opened Graph
  import opened Marks
  import opened Dfs
  import opened AdjList
  import opened AdjMatrix
  import opened Example

  /** The flags of the example graph with exactly the vertices in `on` marked. */
  function Flags(on: set<int>): (vis: seq<bool>)
    ensures |vis| == N && forall k :: 0 <= k < N ==> (vis[k] <==> k in on)
  {
    seq(N, k => k in on)
  }

  /** The slot table of the example adjacency list, written out. */
  function ExampleListScans(): (g: Scans)
    ensures |g| == N && WellFormed(g)
  {
    [
      [EdgeTo(2), EdgeTo(4), EdgeTo(6)],
      [EdgeTo(4), EdgeTo(7)],
      [EdgeTo(0), EdgeTo(5)],
      [EdgeTo(4), EdgeTo(5)],
      [EdgeTo(1), EdgeTo(3), EdgeTo(0)],
      [EdgeTo(2), EdgeTo(3), EdgeTo(8)],
      [EdgeTo(0)],
      [EdgeTo(1)],
      [EdgeTo(5)]
    ]
  }

  /** The slot table of the example adjacency matrix, written out: nine columns per row. */
  function ExampleMatrixScans(): (g: Scans)
    ensures |g| == N && WellFormed(g)
  {
    [
      [EdgeTo(0), NoEdge, EdgeTo(2), NoEdge, EdgeTo(4), NoEdge, EdgeTo(6), NoEdge, NoEdge],
      [NoEdge, EdgeTo(1), NoEdge, NoEdge, EdgeTo(4), NoEdge, NoEdge, EdgeTo(7), NoEdge],
      [EdgeTo(0), NoEdge, EdgeTo(2), NoEdge, NoEdge, EdgeTo(5), NoEdge, NoEdge, NoEdge],
      [NoEdge, NoEdge, NoEdge, EdgeTo(3), EdgeTo(4), EdgeTo(5), NoEdge, NoEdge, NoEdge],
      [EdgeTo(0), EdgeTo(1), NoEdge, EdgeTo(3), EdgeTo(4), NoEdge, NoEdge, NoEdge, NoEdge],
      [NoEdge, NoEdge, EdgeTo(2), EdgeTo(3), NoEdge, EdgeTo(5), NoEdge, NoEdge, EdgeTo(8)],
      [EdgeTo(0), NoEdge, NoEdge, NoEdge, NoEdge, NoEdge, EdgeTo(6), NoEdge, NoEdge],
      [NoEdge, EdgeTo(1), NoEdge, NoEdge, NoEdge, NoEdge, NoEdge, EdgeTo(7), NoEdge],
      [NoEdge, NoEdge, NoEdge, NoEdge, NoEdge, EdgeTo(5), NoEdge, NoEdge, EdgeTo(8)]
    ]
  }

  lemma ExampleListScansCorrect()
    ensures ListScans(ExampleAdjList()) == ExampleListScans()
  {
    ListScansEqual(ExampleAdjList(), ExampleListScans());
  }

  lemma ExampleMatrixScansCorrect()
    ensures MatrixScans(ExampleAdjMatrix()) == ExampleMatrixScans()
  {
    MatrixScansEqual(ExampleAdjMatrix(), ExampleMatrixScans());
  }

  // One lemma per call of the list search from vertex 4, innermost first:
  // the vertices marked on entry, those marked on return and the vertices
  // emitted. Each lemma steps the call's neighbour loop slot by slot, from
  // the last slot back to the first.

  lemma ListSearch7()
    ensures Search(ExampleListScans(), 7, Flags({1, 4})) == Visit(Flags({1, 4, 7}), [7])
  {
    assert Scan(ExampleListScans(), 7, 1, Flags({1, 4, 7})) == Visit(Flags({1, 4, 7}), []);
    assert Scan(ExampleListScans(), 7, 0, Flags({1, 4, 7})) == Visit(Flags({1, 4, 7}), []);
    assert Flags({1, 4})[7 := true] == Flags({1, 4, 7});
  }

  lemma ListSearch1()
    ensures Search(ExampleListScans(), 1, Flags({4})) == Visit(Flags({1, 4, 7}), [1, 7])
  {
    ListSearch7();
    assert Scan(ExampleListScans(), 1, 2, Flags({1, 4, 7})) == Visit(Flags({1, 4, 7}), []);
    assert Scan(ExampleListScans(), 1, 1, Flags({1, 4})) == Visit(Flags({1, 4, 7}), [7]);
    assert Scan(ExampleListScans(), 1, 0, Flags({1, 4})) == Visit(Flags({1, 4, 7}), [7]);
    assert Flags({4})[1 := true] == Flags({1, 4});
  }

  lemma ListSearch6()
    ensures Search(ExampleListScans(), 6, Flags({0, 1, 2, 3, 4, 5, 7})) == Visit(Flags({0, 1, 2, 3, 4, 5, 6, 7}), [6])
  {
    assert Scan(ExampleListScans(), 6, 1, Flags({0, 1, 2, 3, 4, 5, 6, 7})) == Visit(Flags({0, 1, 2, 3, 4, 5, 6, 7}), []);
    assert Scan(ExampleListScans(), 6, 0, Flags({0, 1, 2, 3, 4, 5, 6, 7})) == Visit(Flags({0, 1, 2, 3, 4, 5, 6, 7}), []);
    assert Flags({0, 1, 2, 3, 4, 5, 7})[6 := true] == Flags({0, 1, 2, 3, 4, 5, 6, 7});
  }

  lemma ListSearch0()
    ensures Search(ExampleListScans(), 0, Flags({1, 2, 3, 4, 5, 7})) == Visit(Flags({0, 1, 2, 3, 4, 5, 6, 7}), [0, 6])
  {
    ListSearch6();
    assert Scan(ExampleListScans(), 0, 3, Flags({0, 1, 2, 3, 4, 5, 6, 7})) == Visit(Flags({0, 1, 2, 3, 4, 5, 6, 7}), []);
    assert Scan(ExampleListScans(), 0, 2, Flags({0, 1, 2, 3, 4, 5, 7})) == Visit(Flags({0, 1, 2, 3, 4, 5, 6, 7}), [6]);
    assert Scan(ExampleListScans(), 0, 1, Flags({0, 1, 2, 3, 4, 5, 7})) == Visit(Flags({0, 1, 2, 3, 4, 5, 6, 7}), [6]);
    assert Scan(ExampleListScans(), 0, 0, Flags({0, 1, 2, 3, 4, 5, 7})) == Visit(Flags({0, 1, 2, 3, 4, 5, 6, 7}), [6]);
    assert Flags({1, 2, 3, 4, 5, 7})[0 := true] == Flags({0, 1, 2, 3, 4, 5, 7});
  }

  lemma ListSearch2()
    ensures Search(ExampleListScans(), 2, Flags({1, 3, 4, 5, 7})) == Visit(Flags({0, 1, 2, 3, 4, 5, 6, 7}), [2, 0, 6])
  {
    ListSearch0();
    assert Scan(ExampleListScans(), 2, 2, Flags({0, 1, 2, 3, 4, 5, 6, 7})) == Visit(Flags({0, 1, 2, 3, 4, 5, 6, 7}), []);
    assert Scan(ExampleListScans(), 2, 1, Flags({0, 1, 2, 3, 4, 5, 6, 7})) == Visit(Flags({0, 1, 2, 3, 4, 5, 6, 7}), []);
    assert Scan(ExampleListScans(), 2, 0, Flags({1, 2, 3, 4, 5, 7})) == Visit(Flags({0, 1, 2, 3, 4, 5, 6, 7}), [0, 6]);
    assert Flags({1, 3, 4, 5, 7})[2 := true] == Flags({1, 2, 3, 4, 5, 7});
  }

  lemma ListSearch8()
    ensures Search(ExampleListScans(), 8, Flags({0, 1, 2, 3, 4, 5, 6, 7})) == Visit(Flags({0, 1, 2, 3, 4, 5, 6, 7, 8}), [8])
  {
    assert Scan(ExampleListScans(), 8, 1, Flags({0, 1, 2, 3, 4, 5, 6, 7, 8})) == Visit(Flags({0, 1, 2, 3, 4, 5, 6, 7, 8}), []);
    assert Scan(ExampleListScans(), 8, 0, Flags({0, 1, 2, 3, 4, 5, 6, 7, 8})) == Visit(Flags({0, 1, 2, 3, 4, 5, 6, 7, 8}), []);
    assert Flags({0, 1, 2, 3, 4, 5, 6, 7})[8 := true] == Flags({0, 1, 2, 3, 4, 5, 6, 7, 8});
  }

  lemma ListSearch5()
    ensures Search(ExampleListScans(), 5, Flags({1, 3, 4, 7})) == Visit(Flags({0, 1, 2, 3, 4, 5, 6, 7, 8}), [5, 2, 0, 6, 8])
  {
    ListSearch2();
    ListSearch8();
    assert Scan(ExampleListScans(), 5, 3, Flags({0, 1, 2, 3, 4, 5, 6, 7, 8})) == Visit(Flags({0, 1, 2, 3, 4, 5, 6, 7, 8}), []);
    assert Scan(ExampleListScans(), 5, 2, Flags({0, 1, 2, 3, 4, 5, 6, 7})) == Visit(Flags({0, 1, 2, 3, 4, 5, 6, 7, 8}), [8]);
    assert Scan(ExampleListScans(), 5, 1, Flags({0, 1, 2, 3, 4, 5, 6, 7})) == Visit(Flags({0, 1, 2, 3, 4, 5, 6, 7, 8}), [8]);
    assert Scan(ExampleListScans(), 5, 0, Flags({1, 3, 4, 5, 7})) == Visit(Flags({0, 1, 2, 3, 4, 5, 6, 7, 8}), [2, 0, 6, 8]);
    assert Flags({1, 3, 4, 7})[5 := true] == Flags({1, 3, 4, 5, 7});
  }

  lemma ListSearch3()
    ensures Search(ExampleListScans(), 3, Flags({1, 4, 7})) == Visit(Flags({0, 1, 2, 3, 4, 5, 6, 7, 8}), [3, 5, 2, 0, 6, 8])
  {
    ListSearch5();
    assert Scan(ExampleListScans(), 3, 2, Flags({0, 1, 2, 3, 4, 5, 6, 7, 8})) == Visit(Flags({0, 1, 2, 3, 4, 5, 6, 7, 8}), []);
    assert Scan(ExampleListScans(), 3, 1, Flags({1, 3, 4, 7})) == Visit(Flags({0, 1, 2, 3, 4, 5, 6, 7, 8}), [5, 2, 0, 6, 8]);
    assert Scan(ExampleListScans(), 3, 0, Flags({1, 3, 4, 7})) == Visit(Flags({0, 1, 2, 3, 4, 5, 6, 7, 8}), [5, 2, 0, 6, 8]);
    assert Flags({1, 4, 7})[3 := true] == Flags({1, 3, 4, 7});
  }

  lemma ListSearch4()
    ensures Search(ExampleListScans(), 4, Flags({})) == Visit(Flags({0, 1, 2, 3, 4, 5, 6, 7, 8}), [4, 1, 7, 3, 5, 2, 0, 6, 8])
  {
    ListSearch1();
    ListSearch3();
    assert Scan(ExampleListScans(), 4, 3, Flags({0, 1, 2, 3, 4, 5, 6, 7, 8})) == Visit(Flags({0, 1, 2, 3, 4, 5, 6, 7, 8}), []);
    assert Scan(ExampleListScans(), 4, 2, Flags({0, 1, 2, 3, 4, 5, 6, 7, 8})) == Visit(Flags({0, 1, 2, 3, 4, 5, 6, 7, 8}), []);
    assert Scan(ExampleListScans(), 4, 1, Flags({1, 4, 7})) == Visit(Flags({0, 1, 2, 3, 4, 5, 6, 7, 8}), [3, 5, 2, 0, 6, 8]);
    assert Scan(ExampleListScans(), 4, 0, Flags({4})) == Visit(Flags({0, 1, 2, 3, 4, 5, 6, 7, 8}), [1, 7, 3, 5, 2, 0, 6, 8]);
    assert Flags({})[4 := true] == Flags({4});
  }

  // One lemma per call of the matrix search from vertex 4, innermost first.

  lemma MatrixSearch3()
    ensures Search(ExampleMatrixScans(), 3, Flags({0, 2, 4, 5})) == Visit(Flags({0, 2, 3, 4, 5}), [3])
  {
    assert Scan(ExampleMatrixScans(), 3, 9, Flags({0, 2, 3, 4, 5})) == Visit(Flags({0, 2, 3, 4, 5}), []);
    assert Scan(ExampleMatrixScans(), 3, 8, Flags({0, 2, 3, 4, 5})) == Visit(Flags({0, 2, 3, 4, 5}), []);
    assert Scan(ExampleMatrixScans(), 3, 7, Flags({0, 2, 3, 4, 5})) == Visit(Flags({0, 2, 3, 4, 5}), []);
    assert Scan(ExampleMatrixScans(), 3, 6, Flags({0, 2, 3, 4, 5})) == Visit(Flags({0, 2, 3, 4, 5}), []);
    assert Scan(ExampleMatrixScans(), 3, 5, Flags({0, 2, 3, 4, 5})) == Visit(Flags({0, 2, 3, 4, 5}), []);
    assert Scan(ExampleMatrixScans(), 3, 4, Flags({0, 2, 3, 4, 5})) == Visit(Flags({0, 2, 3, 4, 5}), []);
    assert Scan(ExampleMatrixScans(), 3, 3, Flags({0, 2, 3, 4, 5})) == Visit(Flags({0, 2, 3, 4, 5}), []);
    assert Scan(ExampleMatrixScans(), 3, 2, Flags({0, 2, 3, 4, 5})) == Visit(Flags({0, 2, 3, 4, 5}), []);
    assert Scan(ExampleMatrixScans(), 3, 1, Flags({0, 2, 3, 4, 5})) == Visit(Flags({0, 2, 3, 4, 5}), []);
    assert Scan(ExampleMatrixScans(), 3, 0, Flags({0, 2, 3, 4, 5})) == Visit(Flags({0, 2, 3, 4, 5}), []);
    assert Flags({0, 2, 4, 5})[3 := true] == Flags({0, 2, 3, 4, 5});
  }

  lemma MatrixSearch8()
    ensures Search(ExampleMatrixScans(), 8, Flags({0, 2, 3, 4, 5})) == Visit(Flags({0, 2, 3, 4, 5, 8}), [8])
  {
    assert Scan(ExampleMatrixScans(), 8, 9, Flags({0, 2, 3, 4, 5, 8})) == Visit(Flags({0, 2, 3, 4, 5, 8}), []);
    assert Scan(ExampleMatrixScans(), 8, 8, Flags({0, 2, 3, 4, 5, 8})) == Visit(Flags({0, 2, 3, 4, 5, 8}), []);
    assert Scan(ExampleMatrixScans(), 8, 7, Flags({0, 2, 3, 4, 5, 8})) == Visit(Flags({0, 2, 3, 4, 5, 8}), []);
    assert Scan(ExampleMatrixScans(), 8, 6, Flags({0, 2, 3, 4, 5, 8})) == Visit(Flags({0, 2, 3, 4, 5, 8}), []);
    assert Scan(ExampleMatrixScans(), 8, 5, Flags({0, 2, 3, 4, 5, 8})) == Visit(Flags({0, 2, 3, 4, 5, 8}), []);
    assert Scan(ExampleMatrixScans(), 8, 4, Flags({0, 2, 3, 4, 5, 8})) == Visit(Flags({0, 2, 3, 4, 5, 8}), []);
    assert Scan(ExampleMatrixScans(), 8, 3, Flags({0, 2, 3, 4, 5, 8})) == Visit(Flags({0, 2, 3, 4, 5, 8}), []);
    assert Scan(ExampleMatrixScans(), 8, 2, Flags({0, 2, 3, 4, 5, 8})) == Visit(Flags({0, 2, 3, 4, 5, 8}), []);
    assert Scan(ExampleMatrixScans(), 8, 1, Flags({0, 2, 3, 4, 5, 8})) == Visit(Flags({0, 2, 3, 4, 5, 8}), []);
    assert Scan(ExampleMatrixScans(), 8, 0, Flags({0, 2, 3, 4, 5, 8})) == Visit(Flags({0, 2, 3, 4, 5, 8}), []);
    assert Flags({0, 2, 3, 4, 5})[8 := true] == Flags({0, 2, 3, 4, 5, 8});
  }

  lemma MatrixSearch5()
    ensures Search(ExampleMatrixScans(), 5, Flags({0, 2, 4})) == Visit(Flags({0, 2, 3, 4, 5, 8}), [5, 3, 8])
  {
    MatrixSearch3();
    MatrixSearch8();
    assert Scan(ExampleMatrixScans(), 5, 9, Flags({0, 2, 3, 4, 5, 8})) == Visit(Flags({0, 2, 3, 4, 5, 8}), []);
    assert Scan(ExampleMatrixScans(), 5, 8, Flags({0, 2, 3, 4, 5})) == Visit(Flags({0, 2, 3, 4, 5, 8}), [8]);
    assert Scan(ExampleMatrixScans(), 5, 7, Flags({0, 2, 3, 4, 5})) == Visit(Flags({0, 2, 3, 4, 5, 8}), [8]);
    assert Scan(ExampleMatrixScans(), 5, 6, Flags({0, 2, 3, 4, 5})) == Visit(Flags({0, 2, 3, 4, 5, 8}), [8]);
    assert Scan(ExampleMatrixScans(), 5, 5, Flags({0, 2, 3, 4, 5})) == Visit(Flags({0, 2, 3, 4, 5, 8}), [8]);
    assert Scan(ExampleMatrixScans(), 5, 4, Flags({0, 2, 3, 4, 5})) == Visit(Flags({0, 2, 3, 4, 5, 8}), [8]);
    assert Scan(ExampleMatrixScans(), 5, 3, Flags({0, 2, 4, 5})) == Visit(Flags({0, 2, 3, 4, 5, 8}), [3, 8]);
    assert Scan(ExampleMatrixScans(), 5, 2, Flags({0, 2, 4, 5})) == Visit(Flags({0, 2, 3, 4, 5, 8}), [3, 8]);
    assert Scan(ExampleMatrixScans(), 5, 1, Flags({0, 2, 4, 5})) == Visit(Flags({0, 2, 3, 4, 5, 8}), [3, 8]);
    assert Scan(ExampleMatrixScans(), 5, 0, Flags({0, 2, 4, 5})) == Visit(Flags({0, 2, 3, 4, 5, 8}), [3, 8]);
    assert Flags({0, 2, 4})[5 := true] == Flags({0, 2, 4, 5});
  }

  lemma MatrixSearch2()
    ensures Search(ExampleMatrixScans(), 2, Flags({0, 4})) == Visit(Flags({0, 2, 3, 4, 5, 8}), [2, 5, 3, 8])
  {
    MatrixSearch5();
    assert Scan(ExampleMatrixScans(), 2, 9, Flags({0, 2, 3, 4, 5, 8})) == Visit(Flags({0, 2, 3, 4, 5, 8}), []);
    assert Scan(ExampleMatrixScans(), 2, 8, Flags({0, 2, 3, 4, 5, 8})) == Visit(Flags({0, 2, 3, 4, 5, 8}), []);
    assert Scan(ExampleMatrixScans(), 2, 7, Flags({0, 2, 3, 4, 5, 8})) == Visit(Flags({0, 2, 3, 4, 5, 8}), []);
    assert Scan(ExampleMatrixScans(), 2, 6, Flags({0, 2, 3, 4, 5, 8})) == Visit(Flags({0, 2, 3, 4, 5, 8}), []);
    assert Scan(ExampleMatrixScans(), 2, 5, Flags({0, 2, 4})) == Visit(Flags({0, 2, 3, 4, 5, 8}), [5, 3, 8]);
    assert Scan(ExampleMatrixScans(), 2, 4, Flags({0, 2, 4})) == Visit(Flags({0, 2, 3, 4, 5, 8}), [5, 3, 8]);
    assert Scan(ExampleMatrixScans(), 2, 3, Flags({0, 2, 4})) == Visit(Flags({0, 2, 3, 4, 5, 8}), [5, 3, 8]);
    assert Scan(ExampleMatrixScans(), 2, 2, Flags({0, 2, 4})) == Visit(Flags({0, 2, 3, 4, 5, 8}), [5, 3, 8]);
    assert Scan(ExampleMatrixScans(), 2, 1, Flags({0, 2, 4})) == Visit(Flags({0, 2, 3, 4, 5, 8}), [5, 3, 8]);
    assert Scan(ExampleMatrixScans(), 2, 0, Flags({0, 2, 4})) == Visit(Flags({0, 2, 3, 4, 5, 8}), [5, 3, 8]);
    assert Flags({0, 4})[2 := true] == Flags({0, 2, 4});
  }

  lemma MatrixSearch6()
    ensures Search(ExampleMatrixScans(), 6, Flags({0, 2, 3, 4, 5, 8})) == Visit(Flags({0, 2, 3, 4, 5, 6, 8}), [6])
  {
    assert Scan(ExampleMatrixScans(), 6, 9, Flags({0, 2, 3, 4, 5, 6, 8})) == Visit(Flags({0, 2, 3, 4, 5, 6, 8}), []);
    assert Scan(ExampleMatrixScans(), 6, 8, Flags({0, 2, 3, 4, 5, 6, 8})) == Visit(Flags({0, 2, 3, 4, 5, 6, 8}), []);
    assert Scan(ExampleMatrixScans(), 6, 7, Flags({0, 2, 3, 4, 5, 6, 8})) == Visit(Flags({0, 2, 3, 4, 5, 6, 8}), []);
    assert Scan(ExampleMatrixScans(), 6, 6, Flags({0, 2, 3, 4, 5, 6, 8})) == Visit(Flags({0, 2, 3, 4, 5, 6, 8}), []);
    assert Scan(ExampleMatrixScans(), 6, 5, Flags({0, 2, 3, 4, 5, 6, 8})) == Visit(Flags({0, 2, 3, 4, 5, 6, 8}), []);
    assert Scan(ExampleMatrixScans(), 6, 4, Flags({0, 2, 3, 4, 5, 6, 8})) == Visit(Flags({0, 2, 3, 4, 5, 6, 8}), []);
    assert Scan(ExampleMatrixScans(), 6, 3, Flags({0, 2, 3, 4, 5, 6, 8})) == Visit(Flags({0, 2, 3, 4, 5, 6, 8}), []);
    assert Scan(ExampleMatrixScans(), 6, 2, Flags({0, 2, 3, 4, 5, 6, 8})) == Visit(Flags({0, 2, 3, 4, 5, 6, 8}), []);
    assert Scan(ExampleMatrixScans(), 6, 1, Flags({0, 2, 3, 4, 5, 6, 8})) == Visit(Flags({0, 2, 3, 4, 5, 6, 8}), []);
    assert Scan(ExampleMatrixScans(), 6, 0, Flags({0, 2, 3, 4, 5, 6, 8})) == Visit(Flags({0, 2, 3, 4, 5, 6, 8}), []);
    assert Flags({0, 2, 3, 4, 5, 8})[6 := true] == Flags({0, 2, 3, 4, 5, 6, 8});
  }

  lemma MatrixSearch0()
    ensures Search(ExampleMatrixScans(), 0, Flags({4})) == Visit(Flags({0, 2, 3, 4, 5, 6, 8}), [0, 2, 5, 3, 8, 6])
  {
    MatrixSearch2();
    MatrixSearch6();
    assert Scan(ExampleMatrixScans(), 0, 9, Flags({0, 2, 3, 4, 5, 6, 8})) == Visit(Flags({0, 2, 3, 4, 5, 6, 8}), []);
    assert Scan(ExampleMatrixScans(), 0, 8, Flags({0, 2, 3, 4, 5, 6, 8})) == Visit(Flags({0, 2, 3, 4, 5, 6, 8}), []);
    assert Scan(ExampleMatrixScans(), 0, 7, Flags({0, 2, 3, 4, 5, 6, 8})) == Visit(Flags({0, 2, 3, 4, 5, 6, 8}), []);
    assert Scan(ExampleMatrixScans(), 0, 6, Flags({0, 2, 3, 4, 5, 8})) == Visit(Flags({0, 2, 3, 4, 5, 6, 8}), [6]);
    assert Scan(ExampleMatrixScans(), 0, 5, Flags({0, 2, 3, 4, 5, 8})) == Visit(Flags({0, 2, 3, 4, 5, 6, 8}), [6]);
    assert Scan(ExampleMatrixScans(), 0, 4, Flags({0, 2, 3, 4, 5, 8})) == Visit(Flags({0, 2, 3, 4, 5, 6, 8}), [6]);
    assert Scan(ExampleMatrixScans(), 0, 3, Flags({0, 2, 3, 4, 5, 8})) == Visit(Flags({0, 2, 3, 4, 5, 6, 8}), [6]);
    assert Scan(ExampleMatrixScans(), 0, 2, Flags({0, 4})) == Visit(Flags({0, 2, 3, 4, 5, 6, 8}), [2, 5, 3, 8, 6]);
    assert Scan(ExampleMatrixScans(), 0, 1, Flags({0, 4})) == Visit(Flags({0, 2, 3, 4, 5, 6, 8}), [2, 5, 3, 8, 6]);
    assert Scan(ExampleMatrixScans(), 0, 0, Flags({0, 4})) == Visit(Flags({0, 2, 3, 4, 5, 6, 8}), [2, 5, 3, 8, 6]);
    assert Flags({4})[0 := true] == Flags({0, 4});
  }

  lemma MatrixSearch7()
    ensures Search(ExampleMatrixScans(), 7, Flags({0, 1, 2, 3, 4, 5, 6, 8})) == Visit(Flags({0, 1, 2, 3, 4, 5, 6, 7, 8}), [7])
  {
    assert Scan(ExampleMatrixScans(), 7, 9, Flags({0, 1, 2, 3, 4, 5, 6, 7, 8})) == Visit(Flags({0, 1, 2, 3, 4, 5, 6, 7, 8}), []);
    assert Scan(ExampleMatrixScans(), 7, 8, Flags({0, 1, 2, 3, 4, 5, 6, 7, 8})) == Visit(Flags({0, 1, 2, 3, 4, 5, 6, 7, 8}), []);
    assert Scan(ExampleMatrixScans(), 7, 7, Flags({0, 1, 2, 3, 4, 5, 6, 7, 8})) == Visit(Flags({0, 1, 2, 3, 4, 5, 6, 7, 8}), []);
    assert Scan(ExampleMatrixScans(), 7, 6, Flags({0, 1, 2, 3, 4, 5, 6, 7, 8})) == Visit(Flags({0, 1, 2, 3, 4, 5, 6, 7, 8}), []);
    assert Scan(ExampleMatrixScans(), 7, 5, Flags({0, 1, 2, 3, 4, 5, 6, 7, 8})) == Visit(Flags({0, 1, 2, 3, 4, 5, 6, 7, 8}), []);
    assert Scan(ExampleMatrixScans(), 7, 4, Flags({0, 1, 2, 3, 4, 5, 6, 7, 8})) == Visit(Flags({0, 1, 2, 3, 4, 5, 6, 7, 8}), []);
    assert Scan(ExampleMatrixScans(), 7, 3, Flags({0, 1, 2, 3, 4, 5, 6, 7, 8})) == Visit(Flags({0, 1, 2, 3, 4, 5, 6, 7, 8}), []);
    assert Scan(ExampleMatrixScans(), 7, 2, Flags({0, 1, 2, 3, 4, 5, 6, 7, 8})) == Visit(Flags({0, 1, 2, 3, 4, 5, 6, 7, 8}), []);
    assert Scan(ExampleMatrixScans(), 7, 1, Flags({0, 1, 2, 3, 4, 5, 6, 7, 8})) == Visit(Flags({0, 1, 2, 3, 4, 5, 6, 7, 8}), []);
    assert Scan(ExampleMatrixScans(), 7, 0, Flags({0, 1, 2, 3, 4, 5, 6, 7, 8})) == Visit(Flags({0, 1, 2, 3, 4, 5, 6, 7, 8}), []);
    assert Flags({0, 1, 2, 3, 4, 5, 6, 8})[7 := true] == Flags({0, 1, 2, 3, 4, 5, 6, 7, 8});
  }

  lemma MatrixSearch1()
    ensures Search(ExampleMatrixScans(), 1, Flags({0, 2, 3, 4, 5, 6, 8})) == Visit(Flags({0, 1, 2, 3, 4, 5, 6, 7, 8}), [1, 7])
  {
    MatrixSearch7();
    assert Scan(ExampleMatrixScans(), 1, 9, Flags({0, 1, 2, 3, 4, 5, 6, 7, 8})) == Visit(Flags({0, 1, 2, 3, 4, 5, 6, 7, 8}), []);
    assert Scan(ExampleMatrixScans(), 1, 8, Flags({0, 1, 2, 3, 4, 5, 6, 7, 8})) == Visit(Flags({0, 1, 2, 3, 4, 5, 6, 7, 8}), []);
    assert Scan(ExampleMatrixScans(), 1, 7, Flags({0, 1, 2, 3, 4, 5, 6, 8})) == Visit(Flags({0, 1, 2, 3, 4, 5, 6, 7, 8}), [7]);
    assert Scan(ExampleMatrixScans(), 1, 6, Flags({0, 1, 2, 3, 4, 5, 6, 8})) == Visit(Flags({0, 1, 2, 3, 4, 5, 6, 7, 8}), [7]);
    assert Scan(ExampleMatrixScans(), 1, 5, Flags({0, 1, 2, 3, 4, 5, 6, 8})) == Visit(Flags({0, 1, 2, 3, 4, 5, 6, 7, 8}), [7]);
    assert Scan(ExampleMatrixScans(), 1, 4, Flags({0, 1, 2, 3, 4, 5, 6, 8})) == Visit(Flags({0, 1, 2, 3, 4, 5, 6, 7, 8}), [7]);
    assert Scan(ExampleMatrixScans(), 1, 3, Flags({0, 1, 2, 3, 4, 5, 6, 8})) == Visit(Flags({0, 1, 2, 3, 4, 5, 6, 7, 8}), [7]);
    assert Scan(ExampleMatrixScans(), 1, 2, Flags({0, 1, 2, 3, 4, 5, 6, 8})) == Visit(Flags({0, 1, 2, 3, 4, 5, 6, 7, 8}), [7]);
    assert Scan(ExampleMatrixScans(), 1, 1, Flags({0, 1, 2, 3, 4, 5, 6, 8})) == Visit(Flags({0, 1, 2, 3, 4, 5, 6, 7, 8}), [7]);
    assert Scan(ExampleMatrixScans(), 1, 0, Flags({0, 1, 2, 3, 4, 5, 6, 8})) == Visit(Flags({0, 1, 2, 3, 4, 5, 6, 7, 8}), [7]);
    assert Flags({0, 2, 3, 4, 5, 6, 8})[1 := true] == Flags({0, 1, 2, 3, 4, 5, 6, 8});
  }

  lemma MatrixSearch4()
    ensures Search(ExampleMatrixScans(), 4, Flags({})) == Visit(Flags({0, 1, 2, 3, 4, 5, 6, 7, 8}), [4, 0, 2, 5, 3, 8, 6, 1, 7])
  {
    MatrixSearch0();
    MatrixSearch1();
    assert Scan(ExampleMatrixScans(), 4, 9, Flags({0, 1, 2, 3, 4, 5, 6, 7, 8})) == Visit(Flags({0, 1, 2, 3, 4, 5, 6, 7, 8}), []);
    assert Scan(ExampleMatrixScans(), 4, 8, Flags({0, 1, 2, 3, 4, 5, 6, 7, 8})) == Visit(Flags({0, 1, 2, 3, 4, 5, 6, 7, 8}), []);
    assert Scan(ExampleMatrixScans(), 4, 7, Flags({0, 1, 2, 3, 4, 5, 6, 7, 8})) == Visit(Flags({0, 1, 2, 3, 4, 5, 6, 7, 8}), []);
    assert Scan(ExampleMatrixScans(), 4, 6, Flags({0, 1, 2, 3, 4, 5, 6, 7, 8})) == Visit(Flags({0, 1, 2, 3, 4, 5, 6, 7, 8}), []);
    assert Scan(ExampleMatrixScans(), 4, 5, Flags({0, 1, 2, 3, 4, 5, 6, 7, 8})) == Visit(Flags({0, 1, 2, 3, 4, 5, 6, 7, 8}), []);
    assert Scan(ExampleMatrixScans(), 4, 4, Flags({0, 1, 2, 3, 4, 5, 6, 7, 8})) == Visit(Flags({0, 1, 2, 3, 4, 5, 6, 7, 8}), []);
    assert Scan(ExampleMatrixScans(), 4, 3, Flags({0, 1, 2, 3, 4, 5, 6, 7, 8})) == Visit(Flags({0, 1, 2, 3, 4, 5, 6, 7, 8}), []);
    assert Scan(ExampleMatrixScans(), 4, 2, Flags({0, 1, 2, 3, 4, 5, 6, 7, 8})) == Visit(Flags({0, 1, 2, 3, 4, 5, 6, 7, 8}), []);
    assert Scan(ExampleMatrixScans(), 4, 1, Flags({0, 2, 3, 4, 5, 6, 8})) == Visit(Flags({0, 1, 2, 3, 4, 5, 6, 7, 8}), [1, 7]);
    assert Scan(ExampleMatrixScans(), 4, 0, Flags({4})) == Visit(Flags({0, 1, 2, 3, 4, 5, 6, 7, 8}), [0, 2, 5, 3, 8, 6, 1, 7]);
    assert Flags({})[4 := true] == Flags({4});
  }

  /** The list search from vertex 4 emits 4 1 7 3 5 2 0 6 8. */
  lemma ListOrder()
    ensures Search(ListScans(ExampleAdjList()), 4, AllFalse(N)).emitted == [4, 1, 7, 3, 5, 2, 0, 6, 8]
  {
    ExampleListScansCorrect();
    ListSearch4();
    assert AllFalse(N) == Flags({});
  }

  /** The matrix search from vertex 4 emits 4 0 2 5 3 8 6 1 7. */
  lemma MatrixOrder()
    ensures Search(MatrixScans(ExampleAdjMatrix()), 4, AllFalse(N)).emitted == [4, 0, 2, 5, 3, 8, 6, 1, 7]
  {
    ExampleMatrixScansCorrect();
    MatrixSearch4();
    assert AllFalse(N) == Flags({});
  }

  /** What main prints for a search: each vertex plus one, the labels of the graph's picture. */
  function Shown(order: seq<int>): (labels: seq<int>)
    ensures |labels| == |order| && forall k :: 0 <= k < |order| ==> labels[k] == order[k] + 1
  {
    seq(|order|, k requires 0 <= k < |order| => order[k] + 1)
  }

  /**
   * main: build both representations, then search the list and the matrix
   * from vertex 4. The two printed lines are 5 2 8 4 6 3 1 7 9 and
   * 5 1 3 6 4 9 7 2 8: the same nine vertices, in different orders.
   */
  method RunExample() returns (listOutput: seq<int>, matrixOutput: seq<int>)
    ensures listOutput == [5, 2, 8, 4, 6, 3, 1, 7, 9]
    ensures matrixOutput == [5, 1, 3, 6, 4, 9, 7, 2, 8]
  {
    var adjList := FormAdjList();
    var adjMatrix := FormAdjMatrix();
    var listOrder := AdjListDfsInitialize(adjList, 4);
    var matrixOrder := AdjMatrixDfsInitialize(adjMatrix, 4);
    ListOrder();
    MatrixOrder();
    listOutput := Shown(listOrder);
    matrixOutput := Shown(matrixOrder);
  }
}
