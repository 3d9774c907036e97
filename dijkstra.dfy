/**
 * The shortest-path engine `BestPath`: Dijkstra's algorithm over an n x n
 * cost matrix built from the adjacency lists, with `MAXDISTANCE` standing for
 * "no edge". The method works on arrays as the source does and is proved
 * equal to the functional description below (`Init`, `Round`, `Rounds`);
 * the properties of the result are proved about that description.
 */
module Dijkstra {
  import opened Adjacency
  import opened Vertices

  /** The capacity of the source's fixed arrays. */
  const MAX: int := 5
  /** The "infinite" distance of a missing edge. */
  const MAXDISTANCE: int := 9999

  /** The result record `Best`: distances and predecessors, by vertex code. */
  datatype Best = Best(distance: seq<int>, anteriores: seq<int>)

  // ---------------------------------------------------------------------
  // The cost matrix

  /** Entry (i, j) of the matrix once the first `m` edges of `u` are written over `base`. */
  function AdjCost(u: Vertex, m: nat, i: int, j: int, base: int): (r: int)
    requires m <= |u.adj|
    ensures r == base || exists t :: 0 <= t < m && u.cod == i && u.adj[t].cod == j && u.adj[t].dist == r
  {
    if m == 0 then base
    else if u.cod == i && u.adj[m - 1].cod == j then u.adj[m - 1].dist
    else AdjCost(u, m - 1, i, j, base)
  }

  /** Entry (i, j) of the matrix once the first `k` vertices are written over all-`MAXDISTANCE`. */
  function CostUpTo(vs: seq<Vertex>, k: nat, i: int, j: int): (r: int)
    requires k <= |vs|
    ensures IsEntry(vs, i, j, r)
  {
    if k == 0 then MAXDISTANCE
    else
      var r := AdjCost(vs[k - 1], |vs[k - 1].adj|, i, j, CostUpTo(vs, k - 1, i, j));
      assert r != CostUpTo(vs, k - 1, i, j) ==> IsEntry(vs, i, j, r) by {
        if r != CostUpTo(vs, k - 1, i, j) {
          var t :| 0 <= t < |vs[k - 1].adj| && vs[k - 1].cod == i && vs[k - 1].adj[t].cod == j && vs[k - 1].adj[t].dist == r;
          assert IsEdgeWeight(vs, k - 1, t, i, j, r);
        }
      }
      r
  }

  /** Edge `t` of vertex `p` goes from `i` to `j` with weight `w`. */
  ghost predicate IsEdgeWeight(vs: seq<Vertex>, p: int, t: int, i: int, j: int, w: int) {
    0 <= p < |vs| && 0 <= t < |vs[p].adj| && vs[p].cod == i && vs[p].adj[t].cod == j && vs[p].adj[t].dist == w
  }

  /** `w` may stand in the matrix at (i, j): the sentinel or the weight of an edge i -> j. */
  ghost predicate IsEntry(vs: seq<Vertex>, i: int, j: int, w: int) {
    w == MAXDISTANCE || exists p, t :: IsEdgeWeight(vs, p, t, i, j, w)
  }

  /** `cost[i][j]` after the matrix is built. */
  function Cost(vs: seq<Vertex>, i: int, j: int): (r: int)
    ensures IsEntry(vs, i, j, r)
  {
    CostUpTo(vs, |vs|, i, j)
  }

  /** Vertex codes are pairwise distinct. */
  ghost predicate UniqueCodes(vs: seq<Vertex>) {
    forall p, q :: 0 <= p < q < |vs| ==> vs[p].cod != vs[q].cod
  }

  /** Every edge weight is in [lo, hi]. */
  ghost predicate WeightsWithin(vs: seq<Vertex>, lo: int, hi: int) {
    forall p, e :: 0 <= p < |vs| && e in vs[p].adj ==> lo <= e.dist <= hi
  }

  lemma {:induction false} AdjCostOfEdge(u: Vertex, m: nat, t: nat, base: int)
    requires t < m <= |u.adj| && NoDupTargets(u.adj)
    ensures AdjCost(u, m, u.cod, u.adj[t].cod, base) == u.adj[t].dist
  {
    if t < m - 1 {
      AdjCostOfEdge(u, m - 1, t, base);
    }
  }

  lemma {:induction false} AdjCostOfNoEdge(u: Vertex, m: nat, i: int, j: int, base: int)
    requires m <= |u.adj|
    requires u.cod != i || forall t :: 0 <= t < m ==> u.adj[t].cod != j
    ensures AdjCost(u, m, i, j, base) == base
  {
    if m > 0 {
      AdjCostOfNoEdge(u, m - 1, i, j, base);
    }
  }

  lemma {:induction false} CostUpToOfEdge(vs: seq<Vertex>, k: nat, p: nat, t: nat)
    requires p < k <= |vs| && t < |vs[p].adj|
    requires UniqueCodes(vs) && NoDupTargets(vs[p].adj)
    ensures CostUpTo(vs, k, vs[p].cod, vs[p].adj[t].cod) == vs[p].adj[t].dist
  {
    var u := vs[k - 1];
    if p == k - 1 {
      AdjCostOfEdge(u, |u.adj|, t, CostUpTo(vs, k - 1, vs[p].cod, vs[p].adj[t].cod));
    } else {
      CostUpToOfEdge(vs, k - 1, p, t);
      AdjCostOfNoEdge(u, |u.adj|, vs[p].cod, vs[p].adj[t].cod, CostUpTo(vs, k - 1, vs[p].cod, vs[p].adj[t].cod));
    }
  }

  lemma {:induction false} CostUpToOfNoEdge(vs: seq<Vertex>, k: nat, i: int, j: int)
    requires k <= |vs|
    requires forall p, t :: 0 <= p < |vs| && 0 <= t < |vs[p].adj| ==> !(vs[p].cod == i && vs[p].adj[t].cod == j)
    ensures CostUpTo(vs, k, i, j) == MAXDISTANCE
  {
    if k > 0 {
      var u := vs[k - 1];
      CostUpToOfNoEdge(vs, k - 1, i, j);
      AdjCostOfNoEdge(u, |u.adj|, i, j, CostUpTo(vs, k - 1, i, j));
    }
  }

  /**
   * With distinct codes and no duplicate edges, `cost[i][j]` is the weight
   * of the edge i -> j ...
   */
  lemma CostOfEdge(vs: seq<Vertex>, p: nat, t: nat)
    requires p < |vs| && t < |vs[p].adj|
    requires UniqueCodes(vs) && NoDupTargets(vs[p].adj)
    ensures Cost(vs, vs[p].cod, vs[p].adj[t].cod) == vs[p].adj[t].dist
  {
    CostUpToOfEdge(vs, |vs|, p, t);
  }

  /** ... and `MAXDISTANCE` when there is no such edge. */
  lemma CostOfNoEdge(vs: seq<Vertex>, i: int, j: int)
    requires forall p, t :: 0 <= p < |vs| && 0 <= t < |vs[p].adj| ==> !(vs[p].cod == i && vs[p].adj[t].cod == j)
    ensures Cost(vs, i, j) == MAXDISTANCE
  {
    CostUpToOfNoEdge(vs, |vs|, i, j);
  }

  lemma {:induction false} AdjCostWithin(u: Vertex, m: nat, i: int, j: int, base: int, lo: int, hi: int)
    requires m <= |u.adj| && lo <= base <= hi
    requires forall e :: e in u.adj ==> lo <= e.dist <= hi
    ensures lo <= AdjCost(u, m, i, j, base) <= hi
  {
    if m > 0 {
      assert u.adj[m - 1] in u.adj;
      AdjCostWithin(u, m - 1, i, j, base, lo, hi);
    }
  }

  lemma {:induction false} CostUpToWithin(vs: seq<Vertex>, k: nat, i: int, j: int, lo: int, hi: int)
    requires k <= |vs| && lo <= MAXDISTANCE <= hi
    requires WeightsWithin(vs, lo, hi)
    ensures lo <= CostUpTo(vs, k, i, j) <= hi
  {
    if k > 0 {
      CostUpToWithin(vs, k - 1, i, j, lo, hi);
      AdjCostWithin(vs[k - 1], |vs[k - 1].adj|, i, j, CostUpTo(vs, k - 1, i, j), lo, hi);
    }
  }

  /** Every matrix entry is the sentinel or an edge weight, so it lies in any range holding both. */
  lemma CostWithin(vs: seq<Vertex>, i: int, j: int, lo: int, hi: int)
    requires lo <= MAXDISTANCE <= hi
    requires WeightsWithin(vs, lo, hi)
    ensures lo <= Cost(vs, i, j) <= hi
  {
    CostUpToWithin(vs, |vs|, i, j, lo, hi);
  }

  // ---------------------------------------------------------------------
  // The algorithm, one round at a time

  /** The arrays `distance`, `pred`, `visited` and the variable `nextnode`. */
  datatype State = State(dist: seq<int>, pred: seq<int>, visited: seq<bool>, next: int)

  ghost predicate WellSized(s: State, n: int) {
    |s.dist| == n && |s.pred| == n && |s.visited| == n && 0 <= s.next < n
  }

  /** The state before the first round: direct costs from `v`, every
      predecessor `v`, only `v` visited, distance to `v` zero. */
  function Init(vs: seq<Vertex>, n: int, v: int): (s: State)
    requires 0 <= v < n
    ensures WellSized(s, n)
  {
    State(seq(n, i => if i == v then 0 else Cost(vs, v, i)),
          seq(n, i => v),
          seq(n, i => i == v),
          0)
  }

  /**
   * The selection loop from index `i` on, with the minimum so far `mind` at
   * `next`: it yields the first unvisited vertex of smallest distance among
   * those strictly below `mind`, or keeps (`mind`, `next`) when there is none.
   */
  function SelectFrom(dist: seq<int>, visited: seq<bool>, i: nat, mind: int, next: int): (r: (int, int))
    requires |visited| == |dist| && i <= |dist|
    ensures r == (mind, next) || (i <= r.1 < |dist| && !visited[r.1] && r.0 == dist[r.1] < mind)
    ensures forall j :: i <= j < |dist| && !visited[j] ==> dist[j] >= r.0
    ensures r != (mind, next) ==> forall j :: i <= j < r.1 && !visited[j] ==> dist[j] > r.0
    decreases |dist| - i
  {
    if i == |dist| then (mind, next)
    else if dist[i] < mind && !visited[i] then SelectFrom(dist, visited, i + 1, dist[i], i)
    else SelectFrom(dist, visited, i + 1, mind, next)
  }

  /** The whole selection loop of one round. */
  function Select(s: State): (r: (int, int))
    requires |s.visited| == |s.dist|
    ensures r == (MAXDISTANCE, s.next)
            || (0 <= r.1 < |s.dist| && !s.visited[r.1] && r.0 == s.dist[r.1] < MAXDISTANCE)
    ensures forall j :: 0 <= j < |s.dist| && !s.visited[j] ==> s.dist[j] >= r.0
    ensures r != (MAXDISTANCE, s.next) ==> forall j :: 0 <= j < r.1 && !s.visited[j] ==> s.dist[j] > r.0
  {
    SelectFrom(s.dist, s.visited, 0, MAXDISTANCE, s.next)
  }

  /** Whether relaxing through `nx` at distance `m` shortens the way to `i`. */
  predicate Improves(vs: seq<Vertex>, dist: seq<int>, vis: seq<bool>, m: int, nx: int, i: int)
    requires 0 <= i < |dist| == |vis|
  {
    !vis[i] && m + Cost(vs, nx, i) < dist[i]
  }

  /** One pass of the `while (count < n - 1)` loop: select, mark visited, relax. */
  function Round(vs: seq<Vertex>, s: State): (r: State)
    requires WellSized(s, |s.dist|)
    ensures WellSized(r, |s.dist|)
    ensures r.next == Select(s).1 && r.visited == s.visited[r.next := true]
  {
    var (m, nx) := Select(s);
    var vis := s.visited[nx := true];
    State(seq(|s.dist|, i requires 0 <= i < |s.dist| =>
                if Improves(vs, s.dist, vis, m, nx, i) then m + Cost(vs, nx, i) else s.dist[i]),
          seq(|s.dist|, i requires 0 <= i < |s.dist| =>
                if Improves(vs, s.dist, vis, m, nx, i) then nx else s.pred[i]),
          vis,
          nx)
  }

  /** The state after `k` rounds. */
  function Rounds(vs: seq<Vertex>, s: State, k: nat): (r: State)
    requires WellSized(s, |s.dist|)
    ensures WellSized(r, |s.dist|)
    ensures k > 0 ==> r.visited[r.next]
  {
    if k == 0 then s else Round(vs, Rounds(vs, s, k - 1))
  }

  /** How many rounds the loop runs: `count` goes from 1 up to n - 1. */
  function RoundCount(n: int): nat {
    if n >= 2 then n - 2 else 0
  }

  // ---------------------------------------------------------------------
  // What every round keeps

  /** The source stays visited at distance zero. */
  ghost predicate SourceFixed(s: State, v: int) {
    0 <= v < |s.dist| == |s.visited| && s.visited[v] && s.dist[v] == 0
  }

  /**
   * A round keeps the source fixed, never lengthens a distance, never
   * unmarks a vertex and leaves the distance of every visited vertex alone.
   */
  lemma RoundKeeps(vs: seq<Vertex>, s: State, v: int)
    requires WellSized(s, |s.dist|) && SourceFixed(s, v)
    ensures SourceFixed(Round(vs, s), v)
    ensures forall i :: 0 <= i < |s.dist| ==> Round(vs, s).dist[i] <= s.dist[i]
    ensures forall i :: 0 <= i < |s.dist| && s.visited[i] ==> Round(vs, s).visited[i]
    ensures forall i :: 0 <= i < |s.dist| && Round(vs, s).visited[i] ==> Round(vs, s).dist[i] == s.dist[i]
  {
  }

  /**
   * After any number of rounds the source is still at distance zero and no
   * distance exceeds its initial value, the direct cost from the source.
   */
  lemma {:induction false} RoundsKeep(vs: seq<Vertex>, n: int, v: int, k: nat)
    requires 0 <= v < n
    ensures SourceFixed(Rounds(vs, Init(vs, n, v), k), v)
    ensures forall i :: 0 <= i < n && i != v ==> Rounds(vs, Init(vs, n, v), k).dist[i] <= Cost(vs, v, i)
  {
    if k > 0 {
      RoundsKeep(vs, n, v, k - 1);
      RoundKeeps(vs, Rounds(vs, Init(vs, n, v), k - 1), v);
    }
  }

  /**
   * Every vertex but the source has a visited predecessor and its distance
   * is that predecessor's distance plus the cost-matrix entry from it
   * (MAXDISTANCE when there is no edge).
   */
  ghost predicate PredConsistent(vs: seq<Vertex>, s: State, v: int) {
    && |s.pred| == |s.dist| == |s.visited|
    && forall i :: 0 <= i < |s.dist| && i != v ==>
         && 0 <= s.pred[i] < |s.dist|
         && s.visited[s.pred[i]]
         && s.dist[i] == s.dist[s.pred[i]] + Cost(vs, s.pred[i], i)
  }

  /** The selection picked a vertex, and relaxing through it keeps predecessors consistent. */
  lemma RoundSelectedConsistent(vs: seq<Vertex>, s: State, v: int)
    requires WellSized(s, |s.dist|) && SourceFixed(s, v) && PredConsistent(vs, s, v)
    requires Select(s).0 < MAXDISTANCE
    ensures PredConsistent(vs, Round(vs, s), v)
  {
    var (m, nx) := Select(s);
    var r := Round(vs, s);
    assert m == s.dist[nx] && !s.visited[nx];
    forall i | 0 <= i < |s.dist| && i != v
      ensures 0 <= r.pred[i] < |s.dist| && r.visited[r.pred[i]]
      ensures r.dist[i] == r.dist[r.pred[i]] + Cost(vs, r.pred[i], i)
    {
      RoundKeeps(vs, s, v);
    }
  }

  /** Every distance is at most `MAXDISTANCE`. */
  ghost predicate DistancesCapped(s: State) {
    forall i :: 0 <= i < |s.dist| ==> s.dist[i] <= MAXDISTANCE
  }

  /**
   * With every weight in [0, MAXDISTANCE] and every distance capped, a round
   * whose selection finds nothing below `MAXDISTANCE` changes no distance and
   * no predecessor.
   */
  lemma RoundUnselectedKeeps(vs: seq<Vertex>, s: State)
    requires WellSized(s, |s.dist|) && DistancesCapped(s)
    requires WeightsWithin(vs, 0, MAXDISTANCE)
    requires Select(s).0 >= MAXDISTANCE
    ensures Round(vs, s).dist == s.dist && Round(vs, s).pred == s.pred
  {
    var (m, nx) := Select(s);
    var vis := s.visited[nx := true];
    forall i | 0 <= i < |s.dist| ensures !Improves(vs, s.dist, vis, m, nx, i) {
      CostWithin(vs, nx, i, 0, MAXDISTANCE);
    }
  }

  /** One round keeps predecessors consistent and distances capped. */
  lemma RoundConsistent(vs: seq<Vertex>, s: State, v: int)
    requires WellSized(s, |s.dist|) && SourceFixed(s, v) && PredConsistent(vs, s, v) && DistancesCapped(s)
    requires WeightsWithin(vs, 0, MAXDISTANCE)
    ensures PredConsistent(vs, Round(vs, s), v) && DistancesCapped(Round(vs, s))
  {
    RoundKeeps(vs, s, v);
    if Select(s).0 < MAXDISTANCE {
      RoundSelectedConsistent(vs, s, v);
    } else {
      RoundUnselectedKeeps(vs, s);
    }
  }

  /**
   * With every weight in [0, MAXDISTANCE], after any number of rounds every
   * vertex but the source has a visited predecessor whose distance plus the
   * matrix entry from it (MAXDISTANCE when there is no edge) is its own.
   */
  lemma {:induction false} RoundsConsistent(vs: seq<Vertex>, n: int, v: int, k: nat)
    requires 0 <= v < n
    requires WeightsWithin(vs, 0, MAXDISTANCE)
    ensures PredConsistent(vs, Rounds(vs, Init(vs, n, v), k), v)
    ensures DistancesCapped(Rounds(vs, Init(vs, n, v), k))
  {
    if k == 0 {
      var s0 := Init(vs, n, v);
      forall i | 0 <= i < n && i != v ensures s0.dist[i] <= MAXDISTANCE {
        CostWithin(vs, v, i, 0, MAXDISTANCE);
      }
    } else {
      RoundsConsistent(vs, n, v, k - 1);
      RoundsKeep(vs, n, v, k - 1);
      RoundConsistent(vs, Rounds(vs, Init(vs, n, v), k - 1), v);
    }
  }

  /**
   * What the result of `BestPath` guarantees: the source at distance zero,
   * no distance above the direct cost, and, when every weight is in
   * [0, MAXDISTANCE], each distance equal to its predecessor's plus the
   * matrix entry.
   */
  lemma BestPathResult(vs: seq<Vertex>, n: int, v: int)
    requires 0 <= v < n
    ensures var s := Rounds(vs, Init(vs, n, v), RoundCount(n));
            && |s.dist| == n && |s.pred| == n
            && s.dist[v] == 0
            && (forall i :: 0 <= i < n && i != v ==> s.dist[i] <= Cost(vs, v, i))
            && (WeightsWithin(vs, 0, MAXDISTANCE) ==>
                 forall i :: 0 <= i < n && i != v ==>
                   0 <= s.pred[i] < n && s.dist[i] == s.dist[s.pred[i]] + Cost(vs, s.pred[i], i))
  {
    RoundsKeep(vs, n, v, RoundCount(n));
    if WeightsWithin(vs, 0, MAXDISTANCE) {
      RoundsConsistent(vs, n, v, RoundCount(n));
    }
  }

  // ---------------------------------------------------------------------
  // The method

  /** A round is a selection followed by relaxation through the selected vertex. */
  lemma RoundIs(vs: seq<Vertex>, s: State, m: int, nx: int, dist: seq<int>, pred: seq<int>)
    requires WellSized(s, |s.dist|) && (m, nx) == Select(s)
    requires |dist| == |pred| == |s.dist|
    requires forall i :: 0 <= i < |s.dist| ==>
               if Improves(vs, s.dist, s.visited[nx := true], m, nx, i)
               then dist[i] == m + Cost(vs, nx, i) && pred[i] == nx
               else dist[i] == s.dist[i] && pred[i] == s.pred[i]
    ensures Round(vs, s) == State(dist, pred, s.visited[nx := true], nx)
  {
  }

  /** The graph's codes are exactly 0 .. n-1 and every edge stays among them. */
  ghost predicate CodesInRange(g: seq<Vertex>, n: int) {
    && (forall k :: 0 <= k < |g| ==> 0 <= g[k].cod < n)
    && (forall k, e :: 0 <= k < |g| && e in g[k].adj ==> 0 <= e.cod < n)
    && (forall i :: 0 <= i < n ==> SearchVertexCod(g, i).Some?)
  }

  /** `cost` is the n x n matrix of the graph. */
  ghost predicate IsCostMatrix(g: seq<Vertex>, n: int, cost: array2<int>)
    reads cost
  {
    && cost.Length0 == n && cost.Length1 == n
    && forall a, c :: 0 <= a < n && 0 <= c < n ==> cost[a, c] == Cost(g, a, c)
  }

  /** The nested loops that fill the cost matrix: all `MAXDISTANCE`, then
      each vertex's edges in list order, a later write winning. */
  method BuildCost(g: seq<Vertex>, n: int) returns (cost: array2<int>)
    requires 0 <= n
    requires CodesInRange(g, n)
    ensures fresh(cost) && IsCostMatrix(g, n, cost)
  {
    cost := new int[n, n];
    for i := 0 to n
      invariant forall a, c :: 0 <= a < i && 0 <= c < n ==> cost[a, c] == MAXDISTANCE
    {
      for j := 0 to n
        invariant forall a, c :: 0 <= a < i && 0 <= c < n ==> cost[a, c] == MAXDISTANCE
        invariant forall c :: 0 <= c < j ==> cost[i, c] == MAXDISTANCE
      {
        cost[i, j] := MAXDISTANCE;
      }
    }
    var k := 0;
    while k < |g|
      invariant 0 <= k <= |g|
      invariant forall a, c :: 0 <= a < n && 0 <= c < n ==> cost[a, c] == CostUpTo(g, k, a, c)
    {
      var u := g[k];
      var m := 0;
      while m < |u.adj|
        invariant 0 <= m <= |u.adj|
        invariant forall a, c :: 0 <= a < n && 0 <= c < n ==>
                    cost[a, c] == AdjCost(u, m, a, c, CostUpTo(g, k, a, c))
      {
        assert u.adj[m] in u.adj;
        cost[u.cod, u.adj[m].cod] := u.adj[m].dist;
        m := m + 1;
      }
      k := k + 1;
    }
  }

  /** The walk over the vertex list that sets up `distance`, `pred` and
      `visited`, followed by the source's own entries. */
  method InitArrays(g: seq<Vertex>, n: int, v: int, cost: array2<int>)
    returns (distance: array<int>, pred: array<int>, visited: array<bool>)
    requires 0 <= v < n
    requires CodesInRange(g, n)
    requires IsCostMatrix(g, n, cost)
    ensures fresh(distance) && fresh(pred) && fresh(visited) && distance != pred
    ensures State(distance[..], pred[..], visited[..], 0) == Init(g, n, v)
  {
    distance := new int[n];
    pred := new int[n];
    visited := new bool[n];
    var k := 0;
    while k < |g|
      invariant 0 <= k <= |g|
      invariant forall p :: 0 <= p < k ==>
                  distance[g[p].cod] == cost[v, g[p].cod] && pred[g[p].cod] == v && !visited[g[p].cod]
    {
      var c := g[k].cod;
      distance[c] := cost[v, c];
      pred[c] := v;
      visited[c] := false;
      k := k + 1;
    }
    forall i | 0 <= i < n
      ensures distance[i] == Cost(g, v, i) && pred[i] == v && !visited[i]
    {
      var p := SearchVertexCod(g, i).value;
      assert g[p].cod == i;
    }
    distance[v] := 0;
    visited[v] := true;
    assert State(distance[..], pred[..], visited[..], 0) == Init(g, n, v);
  }

  /** The selection loop of a round: the closest unvisited vertex below
      `MAXDISTANCE`, lowest index first, or `nextnode` unchanged. */
  method SelectNext(distance: array<int>, visited: array<bool>, nextnode: int)
    returns (mindistance: int, next: int)
    requires distance.Length == visited.Length
    requires 0 <= nextnode < distance.Length
    ensures (mindistance, next) == SelectFrom(distance[..], visited[..], 0, MAXDISTANCE, nextnode)
    ensures 0 <= next < distance.Length
  {
    mindistance := MAXDISTANCE;
    next := nextnode;
    for i := 0 to distance.Length
      invariant 0 <= next < distance.Length
      invariant SelectFrom(distance[..], visited[..], i, mindistance, next)
                == SelectFrom(distance[..], visited[..], 0, MAXDISTANCE, nextnode)
    {
      if distance[i] < mindistance && !visited[i] {
        mindistance := distance[i];
        next := i;
      }
    }
  }

  /** The relaxation loop of a round, through `nextnode` at distance `mindistance`. */
  method Relax(g: seq<Vertex>, cost: array2<int>, distance: array<int>, pred: array<int>,
               visited: array<bool>, mindistance: int, nextnode: int)
    requires distance.Length == pred.Length == visited.Length
    requires 0 <= nextnode < distance.Length
    requires IsCostMatrix(g, distance.Length, cost)
    requires distance != pred
    modifies distance, pred
    ensures forall i :: 0 <= i < distance.Length ==>
              if Improves(g, old(distance[..]), visited[..], mindistance, nextnode, i)
              then distance[i] == mindistance + Cost(g, nextnode, i) && pred[i] == nextnode
              else distance[i] == old(distance[i]) && pred[i] == old(pred[i])
  {
    for i := 0 to distance.Length
      invariant forall j :: 0 <= j < i ==>
                  if Improves(g, old(distance[..]), visited[..], mindistance, nextnode, j)
                  then distance[j] == mindistance + Cost(g, nextnode, j) && pred[j] == nextnode
                  else distance[j] == old(distance[j]) && pred[j] == old(pred[j])
      invariant forall j :: i <= j < distance.Length ==> distance[j] == old(distance[j]) && pred[j] == old(pred[j])
    {
      if !visited[i] {
        if mindistance + cost[nextnode, i] < distance[i] {
          distance[i] := mindistance + cost[nextnode, i];
          pred[i] := nextnode;
        }
      }
    }
  }

  /** One pass of the `while (count < n - 1)` loop: select the next vertex,
      mark it visited and relax through it. */
  method RunRound(g: seq<Vertex>, cost: array2<int>, distance: array<int>, pred: array<int>,
                  visited: array<bool>, nextnode: int) returns (next: int)
    requires distance.Length == pred.Length == visited.Length
    requires 0 <= nextnode < distance.Length
    requires IsCostMatrix(g, distance.Length, cost)
    requires distance != pred
    modifies distance, pred, visited
    ensures 0 <= next < distance.Length
    ensures State(distance[..], pred[..], visited[..], next)
            == Round(g, State(old(distance[..]), old(pred[..]), old(visited[..]), nextnode))
  {
    ghost var s := State(distance[..], pred[..], visited[..], nextnode);
    var mindistance;
    mindistance, next := SelectNext(distance, visited, nextnode);
    assert (mindistance, next) == Select(s);
    visited[next] := true;
    assert visited[..] == s.visited[next := true];
    Relax(g, cost, distance, pred, visited, mindistance, next);
    RoundIs(g, s, mindistance, next, distance[..], pred[..]);
  }

  /** The `while (count < n - 1)` loop: n - 2 rounds from the initial state. */
  method RunRounds(g: seq<Vertex>, n: int, cost: array2<int>,
                   distance: array<int>, pred: array<int>, visited: array<bool>)
    returns (nextnode: int)
    requires n >= 1
    requires distance.Length == n && pred.Length == n && visited.Length == n
    requires IsCostMatrix(g, n, cost)
    requires distance != pred
    modifies distance, pred, visited
    ensures State(distance[..], pred[..], visited[..], nextnode)
            == Rounds(g, old(State(distance[..], pred[..], visited[..], 0)), RoundCount(n))
  {
    var count := 1;
    nextnode := 0;
    ghost var s0 := State(distance[..], pred[..], visited[..], 0);
    ghost var cur := s0;
    while count < n - 1
      invariant 0 <= nextnode < n
      invariant 1 <= count && count - 1 <= RoundCount(n)
      invariant n >= 2 ==> count <= n - 1
      invariant cur == Rounds(g, s0, count - 1)
      invariant cur == State(distance[..], pred[..], visited[..], nextnode)
    {
      nextnode := RunRound(g, cost, distance, pred, visited, nextnode);
      cur := Round(g, cur);
      count := count + 1;
    }
    assert count - 1 == RoundCount(n);
  }

  /**
   * `BestPath(g, n, v)`: shortest distances and predecessors from `v`. The
   * arrays are indexed by vertex code, so the codes must be 0 .. n-1, and n
   * may not exceed the capacity `MAX` of the source's arrays.
   */
  method BestPath(g: seq<Vertex>, n: int, v: int) returns (b: Best)
    requires 0 <= v < n <= MAX
    requires CodesInRange(g, n)
    ensures var s := Rounds(g, Init(g, n, v), RoundCount(n));
            b.distance == s.dist && b.anteriores == s.pred
    ensures |b.distance| == n && |b.anteriores| == n
    ensures b.distance[v] == 0
    ensures forall i :: 0 <= i < n && i != v ==> b.distance[i] <= Cost(g, v, i)
    ensures WeightsWithin(g, 0, MAXDISTANCE) ==>
              forall i :: 0 <= i < n && i != v ==>
                0 <= b.anteriores[i] < n &&
                b.distance[i] == b.distance[b.anteriores[i]] + Cost(g, b.anteriores[i], i)
  {
    var cost := BuildCost(g, n);
    var distance, pred, visited := InitArrays(g, n, v, cost);
    var nextnode := RunRounds(g, n, cost, distance, pred, visited);
    b := Best(distance[..], pred[..]);
    BestPathResult(g, n, v);
  }

  // ---------------------------------------------------------------------
  // A round that selects nothing

  /**
   * When no unvisited vertex is below `MAXDISTANCE`, the selection loop
   * leaves `nextnode` at the previous round's choice (or at 0), and the round
   * still marks it visited and relaxes through it at distance `MAXDISTANCE`.
   * With a weight above `MAXDISTANCE` that reports a distance no path has.
   * In this three-city graph the only paths from 1 to 2 cost 20000 and
   * 15001, yet the result says 10000, via a predecessor whose own distance
   * is 15000.
   */
  const StaleGraph: seq<Vertex> := [
    Vertex(0, "Braga", false, [Edge(2, 1)]),
    Vertex(1, "Fafe", false, [Edge(0, 15000), Edge(2, 20000)]),
    Vertex(2, "Porto", false, [])
  ]

  lemma StaleNextNodeCounterexample()
    ensures var s := Rounds(StaleGraph, Init(StaleGraph, 3, 1), RoundCount(3));
            && s.dist == [15000, 0, 10000]
            && s.pred == [1, 1, 0]
            && s.dist[s.pred[2]] + Cost(StaleGraph, s.pred[2], 2) == 15001
            && !PredConsistent(StaleGraph, s, 1)
  {
    var g := StaleGraph;
    assert UniqueCodes(g);
    assert NoDupTargets(g[0].adj) && NoDupTargets(g[1].adj);
    CostOfEdge(g, 0, 0);
    CostOfEdge(g, 1, 0);
    CostOfEdge(g, 1, 1);
    assert Cost(g, 1, 0) == 15000 && Cost(g, 1, 2) == 20000 && Cost(g, 0, 2) == 1;
    var s0 := Init(g, 3, 1);
    assert s0.dist == [15000, 0, 20000];
    assert s0.pred == [1, 1, 1];
    assert s0.visited == [false, true, false];
    assert Select(s0) == (MAXDISTANCE, 0);
    var r := Round(g, s0);
    assert Improves(g, s0.dist, s0.visited[0 := true], MAXDISTANCE, 0, 2);
    assert !Improves(g, s0.dist, s0.visited[0 := true], MAXDISTANCE, 0, 0);
    assert !Improves(g, s0.dist, s0.visited[0 := true], MAXDISTANCE, 0, 1);
    assert r.dist == [15000, 0, 10000];
    assert r.pred == [1, 1, 0];
  }

  /** The evident intent: a round that selects nothing changes nothing. */
  function RoundFixed(vs: seq<Vertex>, s: State): (r: State)
    requires WellSized(s, |s.dist|)
    ensures WellSized(r, |s.dist|)
  {
    if Select(s).0 < MAXDISTANCE then Round(vs, s) else s
  }

  function RoundsFixed(vs: seq<Vertex>, s: State, k: nat): (r: State)
    requires WellSized(s, |s.dist|)
    ensures WellSized(r, |s.dist|)
  {
    if k == 0 then s else RoundFixed(vs, RoundsFixed(vs, s, k - 1))
  }

  /**
   * With the corrected round, every distance is its predecessor's plus the
   * matrix entry from it, whatever the weights.
   */
  lemma {:induction false} RoundsFixedConsistent(vs: seq<Vertex>, n: int, v: int, k: nat)
    requires 0 <= v < n
    ensures SourceFixed(RoundsFixed(vs, Init(vs, n, v), k), v)
    ensures PredConsistent(vs, RoundsFixed(vs, Init(vs, n, v), k), v)
  {
    if k > 0 {
      RoundsFixedConsistent(vs, n, v, k - 1);
      var s := RoundsFixed(vs, Init(vs, n, v), k - 1);
      if Select(s).0 < MAXDISTANCE {
        RoundKeeps(vs, s, v);
        RoundSelectedConsistent(vs, s, v);
      }
    }
  }

  /** On the graph above the corrected rounds keep the direct edge's 20000. */
  lemma StaleGraphFixed()
    ensures RoundsFixed(StaleGraph, Init(StaleGraph, 3, 1), RoundCount(3)).dist == [15000, 0, 20000]
  {
    var g := StaleGraph;
    assert UniqueCodes(g);
    assert NoDupTargets(g[1].adj);
    CostOfEdge(g, 1, 0);
    CostOfEdge(g, 1, 1);
    var s0 := Init(g, 3, 1);
    assert s0.dist == [15000, 0, 20000];
    assert Select(s0) == (MAXDISTANCE, 0);
  }
}
