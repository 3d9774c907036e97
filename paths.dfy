/**
 * Path counting: `CountPaths` follows every outgoing edge recursively,
 * threading a running count, and adds one each time it reaches the
 * destination. The source has no cycle guard, so on a cycle reachable from
 * the start without passing through the destination it recurses forever;
 * the model bounds the recursion depth with `fuel` and reports `Exhausted`
 * when the bound is hit.
 */
module Paths {
  import opened Wrappers
  import opened Adjacency
  import opened Names
  import opened Vertices

  /** What a call can come to: a count, a NULL dereference (a code with no
      vertex), or a recursion deeper than the fuel allows. */
  datatype Outcome = Paths(count: int) | Crash | Exhausted

  /** `Paths(c)` moved up by `pathCount`; a failure is left as it is. */
  function Shift(o: Outcome, pathCount: int): Outcome {
    match o
    case Paths(c) => Paths(pathCount + c)
    case _ => o
  }

  /** What `CountPaths(g, src, dst, pathCount)` returns, as a recursive function. */
  function ThreadedCount(vs: seq<Vertex>, src: int, dst: int, pathCount: int, fuel: nat): (r: Outcome)
    ensures |vs| > 0 && r.Paths? ==> r.count > pathCount || (r.count == pathCount && src != dst)
    decreases fuel, 1, 0
  {
    if |vs| == 0 then Paths(0)
    else if src == dst then Paths(pathCount + 1)
    else match SearchVertexCod(vs, src)
      case None => Crash
      case Some(k) => ThreadedEdges(vs, vs[k].adj, dst, pathCount, fuel)
  }

  /** The `while (hAdj)` loop of `CountPaths` over the edges left in `adj`. */
  function ThreadedEdges(vs: seq<Vertex>, adj: seq<Edge>, dst: int, pathCount: int, fuel: nat): (r: Outcome)
    requires |vs| > 0
    ensures r.Paths? ==> r.count >= pathCount
    decreases fuel, 0, |adj|
  {
    if |adj| == 0 then Paths(pathCount)
    else match SearchVertexCod(vs, adj[0].cod)
      case None => Crash
      case Some(j) =>
        if fuel == 0 then Exhausted
        else match ThreadedCount(vs, vs[j].cod, dst, pathCount, fuel - 1)
          case Paths(c) => ThreadedEdges(vs, adj[1..], dst, c, fuel)
          case other => other
  }

  /**
   * The number of edge-paths from `src` that end at their first arrival at
   * `dst`, as a plain sum over the outgoing edges: the reference the
   * threaded count is compared with.
   */
  function NumPaths(vs: seq<Vertex>, src: int, dst: int, fuel: nat): (r: Outcome)
    ensures r.Paths? ==> r.count >= 0
    ensures src == dst ==> r == Paths(1)
    decreases fuel, 1, 0
  {
    if src == dst then Paths(1)
    else match SearchVertexCod(vs, src)
      case None => Crash
      case Some(k) => SumEdges(vs, vs[k].adj, dst, fuel)
  }

  /** The sum of `NumPaths` over the targets of `adj`, in list order. */
  function SumEdges(vs: seq<Vertex>, adj: seq<Edge>, dst: int, fuel: nat): (r: Outcome)
    ensures r.Paths? ==> r.count >= 0
    decreases fuel, 0, |adj|
  {
    if |adj| == 0 then Paths(0)
    else match SearchVertexCod(vs, adj[0].cod)
      case None => Crash
      case Some(j) =>
        if fuel == 0 then Exhausted
        else match NumPaths(vs, vs[j].cod, dst, fuel - 1)
          case Paths(a) =>
            (match SumEdges(vs, adj[1..], dst, fuel)
             case Paths(b) => Paths(a + b)
             case other => other)
          case other => other
  }

  /**
   * Threading the running count through the recursion is the same as
   * adding the number of paths to it: `ThreadedCount(g, s, d, p)` is `p` plus
   * the number of paths from `s` to `d`, and fails exactly when that count
   * fails.
   */
  lemma {:induction false} ThreadedIsShiftedNumPaths(vs: seq<Vertex>, src: int, dst: int, pathCount: int, fuel: nat)
    requires |vs| > 0
    ensures ThreadedCount(vs, src, dst, pathCount, fuel) == Shift(NumPaths(vs, src, dst, fuel), pathCount)
    decreases fuel, 1, 0
  {
    if src != dst {
      match SearchVertexCod(vs, src)
      case None =>
      case Some(k) => ThreadedEdgesIsShiftedSumEdges(vs, vs[k].adj, dst, pathCount, fuel);
    }
  }

  lemma {:induction false} ThreadedEdgesIsShiftedSumEdges(vs: seq<Vertex>, adj: seq<Edge>, dst: int, pathCount: int, fuel: nat)
    requires |vs| > 0
    ensures ThreadedEdges(vs, adj, dst, pathCount, fuel) == Shift(SumEdges(vs, adj, dst, fuel), pathCount)
    decreases fuel, 0, |adj|
  {
    if |adj| > 0 {
      match SearchVertexCod(vs, adj[0].cod)
      case None =>
      case Some(j) =>
        if fuel > 0 {
          ThreadedIsShiftedNumPaths(vs, vs[j].cod, dst, pathCount, fuel - 1);
          match NumPaths(vs, vs[j].cod, dst, fuel - 1)
          case Paths(a) =>
            ThreadedEdgesIsShiftedSumEdges(vs, adj[1..], dst, pathCount + a, fuel);
          case _ =>
        }
    }
  }

  /**
   * The fuel only bounds the depth: once a count comes out, more fuel gives
   * the same answer.
   */
  lemma {:induction false} NumPathsFuelMonotone(vs: seq<Vertex>, src: int, dst: int, fuel: nat)
    requires NumPaths(vs, src, dst, fuel) != Exhausted
    ensures NumPaths(vs, src, dst, fuel + 1) == NumPaths(vs, src, dst, fuel)
    decreases fuel, 1, 0
  {
    if src != dst {
      match SearchVertexCod(vs, src)
      case None =>
      case Some(k) => SumEdgesFuelMonotone(vs, vs[k].adj, dst, fuel);
    }
  }

  lemma {:induction false} SumEdgesFuelMonotone(vs: seq<Vertex>, adj: seq<Edge>, dst: int, fuel: nat)
    requires SumEdges(vs, adj, dst, fuel) != Exhausted
    ensures SumEdges(vs, adj, dst, fuel + 1) == SumEdges(vs, adj, dst, fuel)
    decreases fuel, 0, |adj|
  {
    if |adj| > 0 {
      match SearchVertexCod(vs, adj[0].cod)
      case None =>
      case Some(j) =>
        if fuel > 0 {
          NumPathsFuelMonotone(vs, vs[j].cod, dst, fuel - 1);
          if NumPaths(vs, vs[j].cod, dst, fuel - 1).Paths? {
            SumEdgesFuelMonotone(vs, adj[1..], dst, fuel);
          }
        }
    }
  }

  /**
   * A witness that no cycle is reachable without passing through `dst`:
   * every vertex other than `dst` whose rank is at most `top` has all its
   * edges leading to listed vertices of lower rank. Vertices above `top`
   * and the destination itself are not constrained, so a cycle elsewhere in
   * the graph or through `dst` is allowed.
   */
  ghost predicate RankedBelow(vs: seq<Vertex>, rank: int -> nat, dst: int, top: nat) {
    forall k :: 0 <= k < |vs| && vs[k].cod != dst && rank(vs[k].cod) <= top ==>
      EdgesDescend(vs, rank, vs[k].adj, vs[k].cod)
  }

  /** Every edge of `adj` leads to a listed vertex ranked below `from`. */
  ghost predicate EdgesDescend(vs: seq<Vertex>, rank: int -> nat, adj: seq<Edge>, from: int) {
    forall t :: 0 <= t < |adj| ==> SearchVertexCod(vs, adj[t].cod).Some? && rank(adj[t].cod) < rank(from)
  }

  /**
   * When every vertex reachable from `src` before `dst` is reached has its
   * edges descending in rank, counting from a listed vertex (or from the
   * destination itself) terminates with a count once the depth bound
   * exceeds the start's rank.
   */
  lemma {:induction false} NumPathsTerminates(vs: seq<Vertex>, rank: int -> nat, top: nat, src: int, dst: int, fuel: nat)
    requires RankedBelow(vs, rank, dst, top)
    requires src == dst || SearchVertexCod(vs, src).Some?
    requires rank(src) <= top && fuel > rank(src)
    ensures NumPaths(vs, src, dst, fuel).Paths?
    decreases fuel, 1, 0
  {
    if src != dst {
      var k := SearchVertexCod(vs, src).value;
      SumEdgesTerminates(vs, rank, top, vs[k].adj, src, dst, fuel);
    }
  }

  lemma {:induction false} SumEdgesTerminates(vs: seq<Vertex>, rank: int -> nat, top: nat, adj: seq<Edge>, from: int, dst: int, fuel: nat)
    requires RankedBelow(vs, rank, dst, top)
    requires EdgesDescend(vs, rank, adj, from)
    requires rank(from) <= top && fuel > rank(from)
    ensures SumEdges(vs, adj, dst, fuel).Paths?
    decreases fuel, 0, |adj|
  {
    if |adj| > 0 {
      var j := SearchVertexCod(vs, adj[0].cod).value;
      var t := vs[j].cod;
      NumPathsTerminates(vs, rank, top, t, dst, fuel - 1);
      assert EdgesDescend(vs, rank, adj[1..], from) by {
        forall i | 0 <= i < |adj| - 1 ensures adj[1..][i] == adj[i + 1] { }
      }
      SumEdgesTerminates(vs, rank, top, adj[1..], from, dst, fuel);
    }
  }

  /** Two cities with edges both ways: a cycle through the destination. */
  const Loop: seq<Vertex> := [
    Vertex(0, "Braga", false, [Edge(1, 1)]),
    Vertex(1, "Porto", false, [Edge(0, 1)])
  ]

  /** Vertex 0 above vertex 1; the destination 1 needs no rank. */
  function LoopRank(c: int): nat {
    if c == 0 then 1 else 0
  }

  lemma LoopRankedBelowPorto()
    ensures RankedBelow(Loop, LoopRank, 1, 1)
  {
    var adj := Loop[0].adj;
    assert adj == [Edge(1, 1)];
    assert SearchVertexCod(Loop, adj[0].cod).Some?;
    assert EdgesDescend(Loop, LoopRank, adj, 0);
    assert Loop[1].cod == 1;
  }

  /**
   * The count from 0 to 1 ends although the graph has a cycle, because the
   * recursion stops at the destination before following 1 -> 0.
   */
  lemma CycleThroughDestinationTerminates(fuel: nat)
    requires fuel >= 2
    ensures NumPaths(Loop, 0, 1, fuel).Paths?
  {
    LoopRankedBelowPorto();
    assert SearchVertexCod(Loop, 0) == Some(0);
    NumPathsTerminates(Loop, LoopRank, 1, 0, 1, fuel);
  }

  /**
   * `CountPaths(g, src, dst, pathCount)`: on an empty graph 0; at the
   * destination the count plus one; otherwise the `while (hAdj)` loop over
   * the outgoing edges, threading the count through a recursive call per
   * edge target. The result is `pathCount` plus the number of paths.
   */
  method CountPaths(vs: seq<Vertex>, src: int, dst: int, pathCount: int, fuel: nat) returns (r: Outcome)
    ensures r == ThreadedCount(vs, src, dst, pathCount, fuel)
    ensures |vs| > 0 ==> r == Shift(NumPaths(vs, src, dst, fuel), pathCount)
    decreases fuel
  {
    if |vs| == 0 {
      return Paths(0);
    }
    ThreadedIsShiftedNumPaths(vs, src, dst, pathCount, fuel);
    if src == dst {
      return Paths(pathCount + 1);
    }
    var aux := SearchVertexCod(vs, src);
    if aux.None? {
      return Crash;
    }
    var hAdj := vs[aux.value].adj;
    var count := pathCount;
    while |hAdj| > 0
      invariant ThreadedEdges(vs, hAdj, dst, count, fuel) == ThreadedCount(vs, src, dst, pathCount, fuel)
      decreases |hAdj|
    {
      var v := SearchVertexCod(vs, hAdj[0].cod);
      if v.None? {
        return Crash;
      }
      if fuel == 0 {
        return Exhausted;
      }
      r := CountPaths(vs, vs[v.value].cod, dst, count, fuel - 1);
      if !r.Paths? {
        return;
      }
      count := r.count;
      hAdj := hAdj[1..];
    }
    return Paths(count);
  }

  /**
   * `CountPathsVerticesName`: resolve both names with the early-stopping
   * lookup and count from zero; the `pathCount` argument is ignored. The
   * result is the number of paths between the two codes.
   */
  method CountPathsVerticesName(vs: seq<Vertex>, src: string, dest: string, pathCount: int, fuel: nat) returns (r: Outcome)
    ensures |vs| == 0 ==> r == Paths(0)
    ensures |vs| > 0 ==> r == NumPaths(vs, SearchCodVertex(vs, src), SearchCodVertex(vs, dest), fuel)
    ensures |vs| > 0 && src == dest ==> r == Paths(1)
  {
    var s := SearchCodVertex(vs, src);
    var d := SearchCodVertex(vs, dest);
    r := CountPaths(vs, s, d, 0, fuel);
  }

  // ---------------------------------------------------------------------
  // Two missing names

  /** Two cities, no edges. */
  const TwoCities: seq<Vertex> := [
    Vertex(0, "Braga", false, []),
    Vertex(1, "Porto", false, [])
  ]

  /**
   * `CountPathsVerticesName` does not check the codes it resolves: two
   * different names that are both missing both come back as -1, so the count
   * starts at the "destination" and reports one path between two cities
   * that do not exist.
   */
  lemma AbsentNamesCountOne(fuel: nat)
    ensures SearchCodVertex(TwoCities, "Zz") == -1 && SearchCodVertex(TwoCities, "Zzz") == -1
    ensures SearchVertex(TwoCities, "Zz").None? && SearchVertex(TwoCities, "Zzz").None?
    ensures NumPaths(TwoCities, SearchCodVertex(TwoCities, "Zz"), SearchCodVertex(TwoCities, "Zzz"), fuel) == Paths(1)
  {
    assert Compare("Braga", "Zz") == -1 && Compare("Porto", "Zz") == -1;
    assert Compare("Braga", "Zzz") == -1 && Compare("Porto", "Zzz") == -1;
  }

  /**
   * The evident intent: a name that resolves to no vertex (a negative code)
   * gives zero paths; otherwise count from zero as before.
   */
  method CountPathsVerticesNameChecked(vs: seq<Vertex>, src: string, dest: string, fuel: nat) returns (r: Outcome)
    ensures SearchCodVertex(vs, src) < 0 || SearchCodVertex(vs, dest) < 0 ==> r == Paths(0)
    ensures SearchCodVertex(vs, src) >= 0 && SearchCodVertex(vs, dest) >= 0 ==>
              r == NumPaths(vs, SearchCodVertex(vs, src), SearchCodVertex(vs, dest), fuel)
    ensures SortedByName(vs) && (forall i :: 0 <= i < |vs| ==> vs[i].cod >= 0) && r.Paths? && r.count > 0 ==>
              SearchVertex(vs, src).Some? && SearchVertex(vs, dest).Some?
  {
    var s := SearchCodVertex(vs, src);
    var d := SearchCodVertex(vs, dest);
    if s < 0 || d < 0 {
      return Paths(0);
    }
    r := CountPaths(vs, s, d, 0, fuel);
    if SortedByName(vs) && (forall i :: 0 <= i < |vs| ==> vs[i].cod >= 0) {
      SearchCodVertexFound(vs, src);
      SearchCodVertexFound(vs, dest);
    }
  }
}
