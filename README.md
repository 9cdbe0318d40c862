# Depth-first search over an adjacency list and an adjacency matrix

A model of `dfs.cpp`, a small C++ program that builds one undirected graph
with nine vertices twice, once as an adjacency list and once as an adjacency
matrix. It then runs the same recursive depth-first search over each
representation, starting from vertex 4 (printed as "5").

The model has these parts:

- `Graph` (graph.dfy): the graph as the search sees it.
  - Each vertex has a row of *slots*, stepped through in order by the neighbour loop.
  - A slot is either an edge to a target vertex or no edge.
  - The module also defines the edge relation, paths, reachability and closed sets of vertices.
- `Marks` (marks.dfy): the `visited` flags as a value.
  - It holds the fresh all-false set and the "only grows" relation.
  - It also holds the count of unvisited vertices, which is the termination measure of the recursion.
- `Dfs` (dfs_spec.dfy): the shared recursive search as a pair of mutually recursive functions.
  - `Search` is one call: mark the vertex, emit it, run its loop.
  - `Scan` is the neighbour loop from a given slot on.
  - The lemmas prove what one call does: what it emits, which flags it marks, and that every marked vertex is reachable. From a fresh flag set, a call visits exactly the vertices reachable from its start.
- `AdjList` (adj_list.dfy) and `AdjMatrix` (adj_matrix.dfy): the two traversals and their initializers.
  - These are imperative methods over an `array<bool>` of flags that the recursion updates in place. The console output becomes the returned sequence of emitted vertices.
  - Each method is proved equal to `Search` over the slots of its representation.
    - List row u gives one edge per stored neighbour.
    - Matrix row u gives one slot per column, with no edge where the entry is 0.
- `Example` (example.dfy): `FormAdjList` and `FormAdjMatrix`, each proved to return the graph described by its edge set.
- `Demo` (demo.dfy): the two calls in `main`.
  - The list search prints `5 2 8 4 6 3 1 7 9`.
  - The matrix search prints `5 1 3 6 4 9 7 2 8`.
  - Both visit all nine vertices, in different orders.

Vertices are 0-based everywhere. The one that the program adds when
printing is added only by `Demo.Shown`, applied in `Demo.RunExample`.

## Model

| member | source | states |
|---|---|---|
| Example.ExampleAdjList | dfs.cpp:26-76 | nine rows; every neighbour is a vertex; v is in row u exactly when {u, v} is one of the nine edges; adjacency is symmetric |
| Example.FormAdjList | dfs.cpp:26-76 | nine empty rows followed by the eighteen pushes yield exactly ExampleAdjList |
| Example.ExampleAdjMatrix | dfs.cpp:82-141 | 9x9, every entry 0 or 1, diagonal all 1, symmetric, every nonzero column a vertex |
| Example.FormAdjMatrix | dfs.cpp:82-141 | the identity built row by row, then both orientations of each edge set to 1, yields exactly ExampleAdjMatrix |
| Example.ListAndMatrixAgree | dfs.cpp:112-137 | off the diagonal, a 1 at (u, v) in the matrix is exactly v in list row u (as pushed at dfs.cpp:47-72): one edge set |
| AdjList.ListScans | dfs.cpp:156-158 | the slots the list loop walks are well formed, and they give an edge u to w exactly when w is stored in row u |
| AdjMatrix.MatrixScans | dfs.cpp:200-206 | the slots the matrix loop walks are well formed, and they give an edge u to w exactly when column w of row u is nonzero |
| Dfs.Search | dfs.cpp:147-165 | one call only sets flags, never clears them, keeps their number, and leaves its vertex marked |
| Dfs.Scan | dfs.cpp:156-164 | the neighbour loop only sets flags |
| Dfs.SearchEmits | dfs.cpp:150-162 | a call emits its vertex first (pre-order), no vertex twice, and beyond its vertex exactly the vertices it newly marks |
| Dfs.ScanEmits | dfs.cpp:156-164 | the loop emits exactly the vertices it newly marks, none twice |
| Dfs.SearchCloses | dfs.cpp:156-164 | on return the call's vertex and every vertex it newly marked have all their neighbours marked |
| Dfs.ScanCloses | dfs.cpp:156-164 | the loop marks the target of every edge from its slot on, and leaves its newly marked vertices closed |
| Dfs.SearchReaches | dfs.cpp:160-162 | every vertex a call newly marks is reachable from the call's vertex |
| Dfs.ScanReaches | dfs.cpp:160-162 | every vertex the loop of v newly marks is reachable from v |
| Dfs.FreshSearchReachesExactly | dfs.cpp:3 | from all-false flags, a call marks and emits exactly the vertices reachable from its start, each once, the start first |
| Dfs.IsolatedVertexVisitsOnlyItself | dfs.cpp:147-165 | a vertex without edges marks and emits only itself |
| Dfs.SearchIgnoresSelfLoops | dfs.cpp:150 | because the vertex is marked before its loop, deleting self-loops changes neither the flags nor the emitted vertices |
| Dfs.ScanIgnoresSelfLoops | dfs.cpp:156-164 | the loop of a marked vertex runs the same with and without self-loops |
| Graph.ClosedContainsReachable | dfs.cpp:3 | a set of vertices that contains s and is closed under edges contains every vertex reachable from s |
| Graph.ReachableViaEdge | dfs.cpp:160-162 | a vertex reachable from a neighbour w of s is reachable from s |
| Marks.AllFalse | dfs.cpp:174-179 | the fresh flags have one entry per vertex, all false |
| Marks.Unvisited | dfs.cpp:160-162 | the unvisited count is at most n, 0 exactly when all are marked, n exactly when none are |
| Marks.MarkOne | dfs.cpp:150 | marking a flag lowers the count by one exactly when it was clear |
| Marks.GrowsUnvisited | dfs.cpp:160-162 | setting flags never raises the count; with MarkOne this gives the strict decrease the recursion's decreases clauses use |
| AdjList.AdjListDfs | dfs.cpp:147-165 | the new flags and the emitted vertices are those of Search; flags only grow; the vertex is marked and emitted first; no vertex twice; emitted are exactly the newly marked; its requires on the ghost `depth`, checked at every recursive call, keeps the recursion depth at most n |
| AdjList.AdjListDfsInitialize | dfs.cpp:168-185 | with fresh all-false flags of size n, the emitted vertices are exactly those reachable from start, each once, start first |
| AdjMatrix.DiagonalIgnored | dfs.cpp:206 | clearing the diagonal changes nothing: the diagonal 1 passes the zero test but finds its vertex already marked |
| AdjMatrix.AdjMatrixDfs | dfs.cpp:191-214 | as AdjListDfs, with a column skipped when its entry is 0 |
| AdjMatrix.AdjMatrixDfsInitialize | dfs.cpp:217-234 | with fresh all-false flags of size n, the emitted vertices are exactly those reachable from start, each once, start first |
| Demo.ExampleListScansCorrect | dfs.cpp:156-158 | the slots of the example list are the nine rows written out |
| Demo.ExampleMatrixScansCorrect | dfs.cpp:200-206 | the slots of the example matrix are the nine rows of nine written out |
| Demo.ListOrder | dfs.cpp:248 | the list search from vertex 4 emits 4 1 7 3 5 2 0 6 8 |
| Demo.MatrixOrder | dfs.cpp:249 | the matrix search from vertex 4 emits 4 0 2 5 3 8 6 1 7 |
| Demo.RunExample | dfs.cpp:239-253 | main prints 5 2 8 4 6 3 1 7 9 for the list and 5 1 3 6 4 9 7 2 8 for the matrix |

The lemmas `Demo.ListSearch*` and `Demo.MatrixSearch*` follow the two example
searches one call at a time. `ListOrder` and `MatrixOrder` are built from them.

The source comments and the code disagree in two places. The model
follows the code each time:

- The comment at dfs.cpp:3-4 describes friends before friends of friends,
  which is breadth-first order. The comments at dfs.cpp:167 and
  dfs.cpp:216 call the initializers "BFS". The code is a pre-order
  depth-first search.
- The comment at dfs.cpp:31 says ten vertices, but `n` is 9.

## Left out

- All console output is left out:
  - the banners in `main` (dfs.cpp:241, dfs.cpp:251);
  - the headers printed by the initializers (dfs.cpp:170, dfs.cpp:219);
  - the separators and blank lines.
  - Each `cout << vertex+1` is modelled instead as an appended element of the returned sequence, without the `+1`. The offset is added only by `Demo.Shown`, applied in `Demo.RunExample`.
- The C++ `int&` parameters are not modelled. `neighbor` is a fresh local on every loop turn, so nothing is aliased.
- Out-of-range start vertices: the source does not check them, so `0 <= start < n` is a precondition of both initializers.
- Out-of-range neighbours and nonzero columns: the source indexes `visited` with them unchecked (dfs.cpp:160, dfs.cpp:209), so `ValidList` and `ValidMatrix` are preconditions of the searches and initializers for the same reason. `main` meets them.
- The initializers' `push_back` loop is not modelled. The model allocates an array of size n and clears it in a loop instead; both give n false flags.
- The `visited` array is dropped after the call.
- AdjListDfs, AdjMatrixDfs: the `depth` parameter is ghost. It counts the active calls and bounds them by n. Stack overflow and machine-integer limits are not modelled; no index or count here comes near them.
