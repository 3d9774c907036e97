# Route graph of a vehicle-rental system

The rental system keeps its cities in a directed, weighted graph. The
vertices form one singly linked list, kept in ascending `strcmp` order of
city name. Each vertex carries a code, the city name, a `visitado` flag and
its own list of outgoing edges. An edge (`Adj`) holds a target code and a
weight; new edges go at the head of the list, and an edge to a target that
is already present is refused. Two algorithms run on the graph:

- `CountPaths` counts the paths between two codes by recursing along every
  edge.
- `BestPath` is Dijkstra's algorithm over a cost matrix. `MAXDISTANCE`
  (9999) stands for "no edge", and the result arrays hold at most `MAX` (5)
  entries.

The Dafny model has eight modules:

- `Wrappers`: the `Option` type that stands for a pointer that may be NULL.
- `Names`: `strcmp` as a sign function, with its order lemmas.
- `Adjacency`: the edge list and `ExistAdj`/`InsertAdj`.
- `Vertices`: the vertex record, the three lookups and sorted insertion as
  functions.
- `Graph`: the class `RouteGraph`. Its field `verts` is the vertex list, and
  the operations that relink the list or update vertices in place are
  methods on it.
- `Paths`: path counting. The method `CountPaths` keeps the source's loop
  and recursion. A threaded-count function specifies it, and a sum-based
  reference definition is connected to it by lemmas.
- `Dijkstra`: `BestPath` on arrays, as in the source. It is proved equal to
  a functional description (`Init`, `Round`, `Rounds`), and the properties
  of the result are proved about that description.
- `Sample`: a five-city network on which the lookups, the path count and
  the shortest-path rounds are worked through.

In the model, the list is a sequence of vertex values, and a `Vertice*`
returned by a lookup is the index of that vertex, or `None` for NULL. The
`bool *res` out-parameters become return values. `CountPaths` returns
`pathCount + 1` at the destination and 0 on an empty graph, so
`CountPathsVerticesName` gives 1 from a name to itself.

## Model

| member | source | states |
|---|---|---|
| Names.Compare | models/routes.c:36 | the sign of `strcmp`: -1, 0 or 1, and 0 exactly when the names are equal |
| Names.CompareTransitive | models/routes.c:36 | the name order is transitive, and strict when either step is strict; this is what keeps the list sorted |
| Adjacency.ExistAdj | models/routes.c:199-206 | true exactly when some edge of the list leads to the given code |
| Adjacency.InsertAdj | models/routes.c:208-231 | `res` holds exactly when the new edge is non-NULL and its target is absent. On success the edge is prepended; otherwise the list is unchanged. No duplicate target is introduced, and afterwards the list has an edge to `c` exactly when it had one before or `c` is the new target |
| Vertices.Inserted | models/routes.c:41-50 | the list after linking in: one longer, the vertices before the stop untouched, the new vertex at the stop, the rest one place later |
| Vertices.InsertPos | models/routes.c:34-40 | the scan stops at the first vertex whose name is not below the new one: every earlier name is strictly below it |
| Vertices.SearchCodVertex | models/routes.c:82-91 | looks only at the vertex where the scan stops. Returns -1 when the list runs out, that vertex's code when its name matches, and -2 otherwise |
| Vertices.SearchVertex | models/routes.c:93-100 | NULL exactly when no vertex has the name; otherwise the first vertex with it |
| Vertices.SearchVertexCod | models/routes.c:102-109 | NULL exactly when no vertex has the code; otherwise the first vertex with it |
| Vertices.SearchCodVertexSorted | models/routes.c:82-91 | on a sorted list the early-stopping lookup gives the code of the first vertex with that name. On a miss it gives -1 when every name is below the query and -2 otherwise |
| Vertices.SearchCodVertexFound | models/routes.c:146-150 | with non-negative codes on a sorted list, the code lookup is non-negative exactly when the full name scan finds the vertex |
| Vertices.InsertedSorted | models/routes.c:24-54 | linking a vertex in where the scan stops keeps the list sorted by name |
| Vertices.InsertedContents | models/routes.c:24-54 | insertion adds exactly the new vertex and loses none (multiset equality) |
| Vertices.InsertedIsFound | models/routes.c:36-49 | the new vertex lands before every older vertex of the same name, so a lookup by that name finds it |
| Graph.InsertedKeepsInvariant | models/routes.c:24-54 | insertion keeps the list sorted and every edge list free of duplicate targets |
| Graph.CreatedVertexInserts | models/routes.c:12-22 | a freshly created vertex (no edges) can be linked into any valid list with no further condition; the list stays valid, and a lookup of its name then finds it with its code and no edges |
| Graph.RouteGraph.constructor | models/routes.c:7-10 | the empty graph, which satisfies the invariants |
| Graph.RouteGraph.InsertRouteVertex | models/routes.c:24-54 | the new list is the old one with the vertex linked in where the scan stops; `res` is always true; the invariants are kept |
| Graph.RouteGraph.ResetVisitedVertex | models/routes.c:111-120 | every vertex is cleared to not visited, and nothing else changes |
| Graph.RouteGraph.InsertAdjacentVertex | models/routes.c:137-165 | succeeds exactly when the origin name is found, the destination code is non-negative and the edge is new. On failure the graph is unchanged. On success only the origin's edge list changes: the new edge goes at its head. The invariants are kept |
| Graph.RouteGraph.InsertAdjacentVertexCod | models/routes.c:167-195 | succeeds exactly when both codes are found and the edge is new. On failure the graph is unchanged. On success only the origin gains the edge, at the head of its list. The invariants are kept |
| Paths.ThreadedCount | models/routes.c:262-283 | a non-empty graph's count never falls below the incoming `pathCount`, and rises when the start is the destination |
| Paths.ThreadedEdges | models/routes.c:275-280 | the `while (hAdj)` loop never lowers the running count |
| Paths.NumPaths | models/routes.c:262-283 | the reference count is non-negative, and a vertex has exactly one path to itself |
| Paths.ThreadedIsShiftedNumPaths | models/routes.c:262-283 | threading the running count equals adding the number of paths to it, and fails exactly when that count fails |
| Paths.ThreadedEdgesIsShiftedSumEdges | models/routes.c:275-280 | the edge loop equals the running count plus the sum over the remaining edges |
| Paths.NumPathsFuelMonotone | models/routes.c:262-283 | once a count comes out, a larger depth bound gives the same count |
| Paths.NumPathsTerminates | models/routes.c:262-283 | when every vertex other than the destination, up to the start's rank, has all its edges leading to listed vertices of lower rank (no cycle reachable from the start without passing through the destination), counting from a listed vertex gives a count |
| Paths.CycleThroughDestinationTerminates | models/routes.c:268-269 | on two cities with roads both ways, counting from one to the other ends although the graph has a cycle, since the recursion stops at the destination |
| Paths.CountPaths | models/routes.c:262-283 | the recursive loop returns `pathCount` plus the number of paths; on an empty graph it returns 0 |
| Paths.CountPathsVerticesName | models/routes.c:285-290 | the number of paths between the codes the two names resolve to, counted from 0; a name to itself gives exactly 1 |
| Paths.AbsentNamesCountOne | models/routes.c:285-290 | two different names, both missing from the graph, resolve to the same code -1, and counting between them gives one path |
| Paths.CountPathsVerticesNameChecked | models/routes.c:285-290 | a name that resolves to no vertex gives zero paths. Otherwise the result is the number of paths between the two codes. On a sorted list with non-negative codes, a positive count means both cities exist |
| Dijkstra.Cost | models/routes.c:336-354 | every entry of the built matrix is `MAXDISTANCE` or the weight of an edge from the row's code to the column's code |
| Dijkstra.CostOfEdge | models/routes.c:336-354 | with distinct codes and no duplicate edges, `cost[i][j]` is the weight of the edge i -> j |
| Dijkstra.CostOfNoEdge | models/routes.c:336-354 | with no edge i -> j, `cost[i][j]` is `MAXDISTANCE` |
| Dijkstra.CostWithin | models/routes.c:336-354 | every matrix entry is an edge weight or the sentinel |
| Dijkstra.Init | models/routes.c:356-369 | the initial arrays have n entries and `nextnode` is a valid index |
| Dijkstra.SelectFrom | models/routes.c:372-381 | either nothing is selected, or the first unvisited vertex of strictly smallest distance below `MAXDISTANCE` is; no unvisited distance is below the minimum |
| Dijkstra.Select | models/routes.c:372-381 | the selection either keeps (`MAXDISTANCE`, `nextnode`) or picks an unvisited vertex whose distance is below `MAXDISTANCE`; no unvisited distance is below the minimum, and every unvisited vertex before the pick is strictly farther |
| Dijkstra.Round | models/routes.c:372-394 | a round makes the selected vertex the new `nextnode` and marks it visited; how distances change is stated by RoundKeeps and RoundIs |
| Dijkstra.Rounds | models/routes.c:370-395 | after k rounds the arrays still have n entries, and after at least one round the last selected vertex is visited |
| Dijkstra.RoundKeeps | models/routes.c:383-393 | a round keeps the source at 0, never lengthens a distance, never unmarks a vertex and leaves visited distances alone |
| Dijkstra.RoundsKeep | models/routes.c:356-395 | after any number of rounds the source is at 0 and no distance exceeds the direct cost from the source |
| Dijkstra.RoundSelectedConsistent | models/routes.c:383-393 | relaxing through a selected vertex keeps every distance equal to its visited predecessor's plus the cost-matrix entry from it (MAXDISTANCE when there is no edge) |
| Dijkstra.RoundUnselectedKeeps | models/routes.c:372-393 | with weights in [0, MAXDISTANCE] and every distance at most `MAXDISTANCE`, a round that selects nothing changes no distance and no predecessor |
| Dijkstra.RoundConsistent | models/routes.c:370-395 | with weights in [0, MAXDISTANCE], one round keeps predecessors consistent and distances capped |
| Dijkstra.RoundsConsistent | models/routes.c:370-395 | with weights in [0, MAXDISTANCE], after any number of rounds every distance is its predecessor's plus the cost-matrix entry from it (MAXDISTANCE when there is no edge), and no distance exceeds `MAXDISTANCE` |
| Dijkstra.BestPathResult | models/routes.c:324-404 | the specified result has n entries, 0 at the source, nothing above the direct cost, and (with weights in range) consistent predecessors |
| Dijkstra.BuildCost | models/routes.c:336-354 | the nested loops fill exactly the matrix `Cost` |
| Dijkstra.InitArrays | models/routes.c:356-369 | the walk over the vertex list and the source's own entries produce the initial state `Init` |
| Dijkstra.SelectNext | models/routes.c:372-381 | the selection loop yields `SelectFrom`'s lowest-index minimum, or keeps `nextnode` |
| Dijkstra.Relax | models/routes.c:383-393 | each unvisited entry that improves through `nextnode` gets the new distance and predecessor; all others stay |
| Dijkstra.RunRound | models/routes.c:372-394 | one pass of the loop is exactly one `Round` |
| Dijkstra.RunRounds | models/routes.c:368-395 | the `while (count < n - 1)` loop is exactly n-2 rounds (none when n < 2) |
| Dijkstra.BestPath | models/routes.c:324-404 | the result is the state after n-2 rounds. It has n entries, 0 at the source, and each distance at most the direct cost. With weights in [0, MAXDISTANCE], each distance is its predecessor's plus the cost-matrix entry from it (MAXDISTANCE when there is no edge) |
| Dijkstra.StaleNextNodeCounterexample | models/routes.c:369-392 | on a three-city graph with weights above `MAXDISTANCE`, the result reports a distance of 10000 that no path has, and its predecessors are inconsistent |
| Dijkstra.RoundsFixedConsistent | models/routes.c:370-395 | with rounds that skip relaxation when nothing is selected, predecessors stay consistent whatever the weights |
| Dijkstra.StaleGraphFixed | models/routes.c:370-395 | on the same graph, the corrected rounds keep the direct edge's 20000 |
| Sample.CitiesResolve | models/routes.c:82-91 | on the five-city list in name order, "Braga" and "Porto" resolve to codes 0 and 1 |
| Sample.BragaToPortoPaths | models/routes.c:262-283 | two paths lead from Braga to Porto: directly, and through Fafe |
| Sample.BestPathFromBraga | models/routes.c:324-404 | from Braga with n = 5, the three rounds give distances [0, 35, 15, 285, 555] and predecessors [0, 0, 0, 1, 3]; Lisboa and Barcelos are lowered from 9999 by the rounds |
| Sample.DistanceCappedAtSentinel | models/routes.c:383-393 | with two roads of 5000 in a row, the far city keeps distance 9999 although a path of 10000 exists |

## Left out

- The printing functions (`ShowRoutes`, `ShowAdj`, `ShowAllPath`) are output only.
- `DestroyRoutes` and `DestroyAdj` are memory management. Values in the model need no freeing.
- `CreateAdj` is not modelled: an edge is a value. InsertAdj takes it as an `Option`, so its own NULL path stays, but InsertAdjacentVertex and InsertAdjacentVertexCod always pass a present edge. The allocation failure at models/routes.c:159-160 and 189-190 is therefore not modelled in them; in the source it leaves the list unchanged with `*res` false.
- CreateRouteVertex: it is plain record construction. A NULL result from a failed allocation is not modelled, nor is `strcpy` overflowing the 20-character `cidade` buffer.
- `SaveGraph`, `SaveAdj`, `LoadGraph` and `LoadAdj` are file I/O.
- `DepthFirstSearchRec` and `DepthFirstSearchNamesRec` are not modelled. Their loop never advances `adj`, and no exit returns false, so they state no usable property.
- Edge weights are `float` in the source. The model keeps the integer that `BestPath` truncates them to at models/routes.c:349, so it does not capture fractional weights.
- Pointer aliasing between vertices is not modelled: the list is a sequence of values, so no two vertices can share a node.
- CountPaths: the source recurses without bound on a cycle reachable from the start without passing through the destination (a cycle through the destination ends there). The model carries a depth bound `fuel` and reports `Exhausted` when the bound is reached. It reports `Crash` when the source would dereference NULL, that is, when a start or edge target code has no vertex.
- BestPath: the model sizes its arrays to n, not `MAX`, and requires n <= MAX and the codes to be exactly 0 .. n-1; it does not describe other inputs. In the source, codes in [n, MAX) land in the unused part of the `MAX`-sized arrays (models/routes.c:327, 349, 360-362) and never reach the result. A code in [0, n) with no vertex causes no out-of-bounds write, but leaves its `distance`, `pred` and `visited` entries uninitialised, and line 376 reads them. Only n > MAX or codes outside [0, MAX) write out of bounds.
- BestPath: optimality of the distances (that no path is shorter) is not proved, because the source does not guarantee it. With every weight in [0, 9999], no distance above 9999 is ever reported: every starting distance is at most 9999, and a relaxation only replaces a distance with a smaller one (Dijkstra.RoundsConsistent proves the cap after any number of rounds). So a vertex whose shortest path is longer than 9999 keeps the sentinel. Sample.DistanceCappedAtSentinel shows this: with 0 -> 1 (5000) and 1 -> 2 (5000), the distance of 2 stays 9999 although a path of 10000 exists. The contract states the source-at-zero, direct-cost bound and predecessor consistency only.
- Paths.CountPaths: C `int` is 32 bits, and `pathCount` (models/routes.c:269, 278) can overflow on a graph with more than 2^31 - 1 paths. The model's integers are unbounded, so the count does not wrap.
- Dijkstra.BestPath: `mindistance + cost[nextnode][i]` (models/routes.c:388, 390) is a 32-bit `int` sum, and the conversion of a `float` weight to `int` at models/routes.c:349 is undefined outside the `int` range. The model's integers are unbounded, so it describes neither overflow. The results under weights in [0, MAXDISTANCE] stay far below the 32-bit range, so the overflow cannot reach them.
- Dijkstra.RoundsFixedConsistent: it ranges over all weights with unbounded integers; with weights near INT_MAX the 32-bit sums of the source would overflow, which it does not describe.
- The vehicle, user and rental modules and `main.c` are not part of this model.

## Findings

| source | as written | input that shows it | evidently intended | confidence | as-written member | corrected member |
|---|---|---|---|---|---|---|
| models/routes.c:369-392 | when no unvisited vertex is below `MAXDISTANCE`, `nextnode` keeps its old value (initially 0). That vertex is marked visited (again, after the first round) and relaxed through at distance 9999 | cities 0, 1, 2 with edges 0->2 (1), 1->0 (15000), 1->2 (20000); `BestPath(g, 3, 1)` gives distance [15000, 0, 10000] and predecessors [1, 1, 0], although the only paths from 1 to 2 cost 20000 and 15001 | a round that selects nothing leaves distances and predecessors unchanged | medium, not executed; the defect needs weights above 9999 | Dijkstra.StaleNextNodeCounterexample | Dijkstra.RoundsFixedConsistent |
| models/routes.c:285-290 | the codes the two names resolve to are used without a check, and both misses come back as -1 (or both as -2) | a graph of Braga (0) and Porto (1) with no edges; the names "Zz" and "Zzz" both resolve to -1, and `CountPaths(g, -1, -1, 0)` returns 1 at models/routes.c:268-269 | a name that is not in the graph gives zero paths | medium, not executed | Paths.AbsentNamesCountOne | Paths.CountPathsVerticesNameChecked |
