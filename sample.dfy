/**
 * A five-city network: Braga 0, Porto 1, Fafe 2, Lisboa 3 and Barcelos 4,
 * with roads 0 -> 2 (15), 0 -> 1 (35), 2 -> 1 (60), 1 -> 3 (250) and
 * 3 -> 4 (270), kept in name order as `InsertRouteVertex` leaves them. The
 * lemmas below work the operations through on it.
 */
module Sample {
  import opened Wrappers
  import opened Names
  import opened Adjacency
  import opened Vertices
  import opened Paths
  import opened Dijkstra

  const Cities: seq<Vertex> := [
    Vertex(4, "Barcelos", false, []),
    Vertex(0, "Braga", false, [Edge(1, 35), Edge(2, 15)]),
    Vertex(2, "Fafe", false, [Edge(1, 60)]),
    Vertex(3, "Lisboa", false, [Edge(4, 270)]),
    Vertex(1, "Porto", false, [Edge(3, 250)])
  ]

  /** The early-stopping lookup resolves the names to their codes. */
  lemma CitiesResolve()
    ensures SearchCodVertex(Cities, "Braga") == 0 && SearchCodVertex(Cities, "Porto") == 1
  {
    assert Compare("Barcelos", "Braga") == -1;
    assert Compare("Braga", "Porto") == -1 && Compare("Fafe", "Porto") == -1;
    assert Compare("Lisboa", "Porto") == -1 && Compare("Barcelos", "Porto") == -1;
  }

  /** Where the codes sit in the list. */
  lemma CitiesCodes()
    ensures SearchVertexCod(Cities, 0) == Some(1)
    ensures SearchVertexCod(Cities, 1) == Some(4)
    ensures SearchVertexCod(Cities, 2) == Some(2)
  {
  }

  /** One road from Fafe to Porto. */
  lemma FafeToPortoPaths()
    ensures NumPaths(Cities, 2, 1, 1) == Paths(1)
  {
    CitiesCodes();
    var adj := Cities[2].adj;
    assert SumEdges(Cities, adj[1..], 1, 1) == Paths(0);
    assert SumEdges(Cities, adj, 1, 1) == Paths(1);
  }

  /** Two roads lead from Braga to Porto: directly, and through Fafe. */
  lemma BragaToPortoPaths()
    ensures NumPaths(Cities, 0, 1, 2) == Paths(2)
  {
    CitiesCodes();
    FafeToPortoPaths();
    var adj := Cities[1].adj;
    assert adj[1..][1..] == [];
    assert SumEdges(Cities, adj[1..], 1, 2) == Paths(1);
    assert SumEdges(Cities, adj, 1, 2) == Paths(2);
  }

  /** The cost-matrix entries of the five roads. */
  lemma CitiesCostEdges()
    ensures Cost(Cities, 0, 1) == 35 && Cost(Cities, 0, 2) == 15 && Cost(Cities, 2, 1) == 60
    ensures Cost(Cities, 1, 3) == 250 && Cost(Cities, 3, 4) == 270
  {
    assert UniqueCodes(Cities);
    CostOfEdge(Cities, 1, 0);
    CostOfEdge(Cities, 1, 1);
    CostOfEdge(Cities, 2, 0);
    CostOfEdge(Cities, 4, 0);
    CostOfEdge(Cities, 3, 0);
  }

  /** The "no road" entries the rounds below read. */
  lemma CitiesCostNoEdges()
    ensures Cost(Cities, 0, 3) == MAXDISTANCE && Cost(Cities, 0, 4) == MAXDISTANCE
    ensures Cost(Cities, 2, 3) == MAXDISTANCE && Cost(Cities, 2, 4) == MAXDISTANCE
    ensures Cost(Cities, 1, 4) == MAXDISTANCE
  {
    CostOfNoEdge(Cities, 0, 3);
    CostOfNoEdge(Cities, 0, 4);
    CostOfNoEdge(Cities, 2, 3);
    CostOfNoEdge(Cities, 2, 4);
    CostOfNoEdge(Cities, 1, 4);
  }

  /** The states of `BestPath(g, 5, 0)`: before the first round and after each. */
  const Start: State := State([0, 35, 15, MAXDISTANCE, MAXDISTANCE], [0, 0, 0, 0, 0],
                              [true, false, false, false, false], 0)
  const AfterFafe: State := State([0, 35, 15, MAXDISTANCE, MAXDISTANCE], [0, 0, 0, 0, 0],
                                  [true, false, true, false, false], 2)
  const AfterPorto: State := State([0, 35, 15, 285, MAXDISTANCE], [0, 0, 0, 1, 0],
                                   [true, true, true, false, false], 1)
  const AfterLisboa: State := State([0, 35, 15, 285, 555], [0, 0, 0, 1, 3],
                                    [true, true, true, true, false], 3)

  lemma InitFromBraga()
    ensures Init(Cities, 5, 0) == Start
  {
    CitiesCostEdges();
    CitiesCostNoEdges();
  }

  /** Round 1 selects Fafe (15); nothing improves through it. */
  lemma RoundOneFromBraga()
    ensures Round(Cities, Start) == AfterFafe
  {
    var s := Start;
    assert SelectFrom(s.dist, s.visited, 2, 35, 1) == (15, 2);
    assert Select(s) == (15, 2);
    CitiesCostEdges();
    CitiesCostNoEdges();
    var vis := s.visited[2 := true];
    assert !Improves(Cities, s.dist, vis, 15, 2, 1);
    assert !Improves(Cities, s.dist, vis, 15, 2, 3);
    assert !Improves(Cities, s.dist, vis, 15, 2, 4);
    RoundIs(Cities, s, 15, 2, AfterFafe.dist, AfterFafe.pred);
  }

  /** Round 2 selects Porto (35) and reaches Lisboa at 35 + 250. */
  lemma RoundTwoFromBraga()
    ensures Round(Cities, AfterFafe) == AfterPorto
  {
    var s := AfterFafe;
    assert SelectFrom(s.dist, s.visited, 2, 35, 1) == (35, 1);
    assert Select(s) == (35, 1);
    CitiesCostEdges();
    CitiesCostNoEdges();
    var vis := s.visited[1 := true];
    assert Improves(Cities, s.dist, vis, 35, 1, 3);
    assert !Improves(Cities, s.dist, vis, 35, 1, 4);
    RoundIs(Cities, s, 35, 1, AfterPorto.dist, AfterPorto.pred);
  }

  /** Round 3 selects Lisboa (285) and reaches Barcelos at 285 + 270. */
  lemma RoundThreeFromBraga()
    ensures Round(Cities, AfterPorto) == AfterLisboa
  {
    var s := AfterPorto;
    assert SelectFrom(s.dist, s.visited, 3, MAXDISTANCE, 1) == (285, 3);
    assert Select(s) == (285, 3);
    CitiesCostEdges();
    var vis := s.visited[3 := true];
    assert Improves(Cities, s.dist, vis, 285, 3, 4);
    RoundIs(Cities, s, 285, 3, AfterLisboa.dist, AfterLisboa.pred);
  }

  /**
   * From Braga, the three rounds of `BestPath` with n = 5 visit Fafe, Porto
   * and Lisboa in turn, and lower Lisboa from "no road" to 285 and Barcelos
   * to 555, the lengths of the roads through Porto and Lisboa.
   */
  lemma BestPathFromBraga()
    ensures var s := Rounds(Cities, Init(Cities, 5, 0), RoundCount(5));
            && s.dist == [0, 35, 15, 285, 555]
            && s.pred == [0, 0, 0, 1, 3]
  {
    InitFromBraga();
    RoundOneFromBraga();
    RoundTwoFromBraga();
    RoundThreeFromBraga();
    assert Rounds(Cities, Start, 1) == AfterFafe;
    assert Rounds(Cities, Start, 2) == AfterPorto;
    assert Rounds(Cities, Start, 3) == AfterLisboa;
  }

  /** Two roads of 5000 in a row: 0 -> 1 -> 2. */
  const LongRoads: seq<Vertex> := [
    Vertex(0, "Braga", false, [Edge(1, 5000)]),
    Vertex(1, "Fafe", false, [Edge(2, 5000)]),
    Vertex(2, "Porto", false, [])
  ]

  /**
   * Distances are capped at the sentinel: relaxing 2 through 1 would give
   * 10000, which is not below the 9999 already there, so 2 keeps the "no
   * road" distance although a path of length 10000 exists.
   */
  lemma DistanceCappedAtSentinel()
    ensures Rounds(LongRoads, Init(LongRoads, 3, 0), RoundCount(3)).dist == [0, 5000, MAXDISTANCE]
  {
    assert UniqueCodes(LongRoads);
    CostOfEdge(LongRoads, 0, 0);
    CostOfEdge(LongRoads, 1, 0);
    CostOfNoEdge(LongRoads, 0, 2);
    var s := Init(LongRoads, 3, 0);
    assert s.dist == [0, 5000, MAXDISTANCE] && s.visited == [true, false, false];
    assert SelectFrom(s.dist, s.visited, 1, MAXDISTANCE, 0) == (5000, 1);
    assert Select(s) == (5000, 1);
    assert !Improves(LongRoads, s.dist, s.visited[1 := true], 5000, 1, 2);
    assert Rounds(LongRoads, s, 1) == Round(LongRoads, s);
  }
}
