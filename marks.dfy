/**
 * The `visited` flags of dfs.cpp, seen as a value: one boolean per vertex.
 */
module Marks {

  /** A fresh marker set: n flags, all false (dfs.cpp:174-179, dfs.cpp:223-228). */
  function AllFalse(n: nat): (vis: seq<bool>)
    ensures |vis| == n && forall i :: 0 <= i < n ==> !vis[i]
  {
    seq(n, _ => false)
  }

  /** `after` keeps the length of `before` and every flag `before` has set. */
  predicate Grows(before: seq<bool>, after: seq<bool>) {
    |before| == |after| && forall i :: 0 <= i < |before| && before[i] ==> after[i]
  }

  /** x was unmarked in `before` and is marked in `after`. */
  predicate Newly(before: seq<bool>, after: seq<bool>, x: int) {
    0 <= x < |before| && x < |after| && !before[x] && after[x]
  }

  /** The number of vertices not yet visited: the measure that bounds the recursion. */
  function Unvisited(vis: seq<bool>): (c: nat)
    ensures c <= |vis|
    ensures c == 0 <==> forall i :: 0 <= i < |vis| ==> vis[i]
    ensures c == |vis| <==> forall i :: 0 <= i < |vis| ==> !vis[i]
  {
    if vis == [] then 0
    else (if vis[0] then 0 else 1) + Unvisited(vis[1..])
  }

  /** Marking a flag lowers the count by one exactly when the flag was clear. */
  lemma {:induction false} MarkOne(vis: seq<bool>, i: int)
    requires 0 <= i < |vis|
    ensures Unvisited(vis[i := true]) == if vis[i] then Unvisited(vis) else Unvisited(vis) - 1
  {
    if i > 0 {
      MarkOne(vis[1..], i - 1);
      assert vis[i := true][1..] == vis[1..][i - 1 := true];
    } else {
      assert vis[i := true][1..] == vis[1..];
    }
  }

  /** Only turning flags on never raises the count. */
  lemma {:induction false} GrowsUnvisited(before: seq<bool>, after: seq<bool>)
    requires Grows(before, after)
    ensures Unvisited(after) <= Unvisited(before)
  {
    if before != [] {
      GrowsUnvisited(before[1..], after[1..]);
    }
  }
}
