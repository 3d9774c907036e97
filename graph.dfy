/**
 * The route graph as the source keeps it: one list of vertices that the
 * operations below relink or update in place.
 */
module Graph {
  import opened Wrappers
  import opened Names
  import opened Adjacency
  import opened Vertices

  /** Every vertex's list of edges is free of duplicate targets. */
  ghost predicate AdjacencyInvariant(vs: seq<Vertex>) {
    forall i :: 0 <= i < |vs| ==> NoDupTargets(vs[i].adj)
  }

  /** Linking in a vertex whose own edges have no duplicate keeps both invariants. */
  lemma InsertedKeepsInvariant(vs: seq<Vertex>, novo: Vertex)
    requires SortedByName(vs) && AdjacencyInvariant(vs) && NoDupTargets(novo.adj)
    ensures SortedByName(Inserted(vs, novo)) && AdjacencyInvariant(Inserted(vs, novo))
  {
    InsertedSorted(vs, novo);
    var k := InsertPos(vs, novo.cidade);
    var r := Inserted(vs, novo);
    forall j | 0 <= j < |r| ensures NoDupTargets(r[j].adj) {
      if j < k {
        assert r[j] == vs[j];
      } else if j > k {
        assert r[j] == vs[j - 1];
      }
    }
  }

  /**
   * A vertex made by `CreateRouteVertex` has no edges, so linking it into a
   * list that keeps both invariants needs no further condition, and a lookup
   * of its name then finds it with its code and an empty adjacency list.
   */
  lemma CreatedVertexInserts(vs: seq<Vertex>, cidade: string, cod: int)
    requires SortedByName(vs) && AdjacencyInvariant(vs)
    ensures var r := Inserted(vs, CreateRouteVertex(cidade, cod));
            && SortedByName(r) && AdjacencyInvariant(r)
            && SearchVertex(r, cidade).Some?
            && r[SearchVertex(r, cidade).value].cod == cod
            && r[SearchVertex(r, cidade).value].adj == []
  {
    var novo := CreateRouteVertex(cidade, cod);
    InsertedKeepsInvariant(vs, novo);
    InsertedIsFound(vs, novo);
  }

  class RouteGraph {
    /** The vertex list, head first. */
    var verts: seq<Vertex>

    /** The invariants the operations keep: names in order, no duplicate edge. */
    ghost predicate Valid()
      reads this
    {
      SortedByName(verts) && AdjacencyInvariant(verts)
    }

    /** `CreateRoute`: the empty graph. */
    constructor ()
      ensures verts == [] && Valid()
    {
      verts := [];
    }

    /**
     * `InsertRouteVertex`: scan past every name below the new one and link
     * the new vertex in there. Equal names are not rejected; `res` is always
     * true.
     */
    method InsertRouteVertex(novo: Vertex) returns (res: bool)
      modifies this
      ensures res
      ensures verts == Inserted(old(verts), novo)
      ensures old(Valid()) && NoDupTargets(novo.adj) ==> Valid()
    {
      if |verts| == 0 {
        verts := [novo];
        res := true;
        return;
      }
      var i := 0;
      while i < |verts| && Compare(verts[i].cidade, novo.cidade) < 0
        invariant 0 <= i <= |verts|
        invariant forall j :: 0 <= j < i ==> Less(verts[j].cidade, novo.cidade)
      {
        i := i + 1;
      }
      assert i == InsertPos(verts, novo.cidade);
      if i == 0 {
        verts := [novo] + verts;
      } else {
        verts := verts[..i] + [novo] + verts[i..];
      }
      res := true;
      if old(Valid()) && NoDupTargets(novo.adj) {
        InsertedKeepsInvariant(old(verts), novo);
      }
    }

    /** `ResetVisitedVertex`: clear every visited flag and nothing else. */
    method ResetVisitedVertex()
      modifies this
      ensures |verts| == |old(verts)|
      ensures forall i :: 0 <= i < |verts| ==> verts[i] == old(verts[i]).(visitado := false)
      ensures old(Valid()) ==> Valid()
    {
      var i := 0;
      while i < |verts|
        invariant 0 <= i <= |verts| == |old(verts)|
        invariant forall j :: 0 <= j < i ==> verts[j] == old(verts[j]).(visitado := false)
        invariant forall j :: i <= j < |verts| ==> verts[j] == old(verts[j])
      {
        verts := verts[i := verts[i].(visitado := false)];
        i := i + 1;
      }
    }

    /**
     * `InsertAdjacentVertex`: add the edge origem -> dest by city names. The
     * origin is found with the full scan, the destination's code with the
     * early-stopping one; a missing endpoint (a negative code) or an existing
     * edge leaves the graph as it was and `res` false.
     */
    method InsertAdjacentVertex(origem: string, dest: string, peso: int) returns (res: bool)
      modifies this
      ensures var o := SearchVertex(old(verts), origem);
              var cod := SearchCodVertex(old(verts), dest);
              res <==> o.Some? && cod >= 0 && !ExistAdj(old(verts)[o.value].adj, cod)
      ensures !res ==> verts == old(verts)
      ensures res ==>
                var o := SearchVertex(old(verts), origem).value;
                var cod := SearchCodVertex(old(verts), dest);
                verts == old(verts)[o := old(verts)[o].(adj := [Edge(cod, peso)] + old(verts)[o].adj)]
      ensures old(Valid()) ==> Valid()
    {
      res := false;
      if |verts| == 0 {
        return;
      }
      var aux := SearchVertex(verts, origem);
      var cod := SearchCodVertex(verts, dest);
      if aux.None? || cod < 0 {
        return;
      }
      if ExistAdj(verts[aux.value].adj, cod) {
        return;
      }
      var novoAdj := Edge(cod, peso);
      var h;
      h, res := InsertAdj(verts[aux.value].adj, Some(novoAdj));
      verts := verts[aux.value := verts[aux.value].(adj := h)];
    }

    /**
     * `InsertAdjacentVertexCod`: add the edge codOrigem -> codDest by codes.
     * Both endpoints must be vertices of the list and the edge must be new;
     * otherwise the graph is unchanged and `res` false.
     */
    method InsertAdjacentVertexCod(codOrigem: int, codDest: int, peso: int) returns (res: bool)
      modifies this
      ensures var o := SearchVertexCod(old(verts), codOrigem);
              res <==> o.Some? && SearchVertexCod(old(verts), codDest).Some?
                       && !ExistAdj(old(verts)[o.value].adj, codDest)
      ensures !res ==> verts == old(verts)
      ensures res ==>
                var o := SearchVertexCod(old(verts), codOrigem).value;
                verts == old(verts)[o := old(verts)[o].(adj := [Edge(codDest, peso)] + old(verts)[o].adj)]
      ensures old(Valid()) ==> Valid()
    {
      res := false;
      if |verts| == 0 {
        return;
      }
      var o := SearchVertexCod(verts, codOrigem);
      var d := SearchVertexCod(verts, codDest);
      if o.None? || d.None? {
        return;
      }
      if ExistAdj(verts[o.value].adj, codDest) {
        return;
      }
      var novoAdj := Edge(codDest, peso);
      var h;
      h, res := InsertAdj(verts[o.value].adj, Some(novoAdj));
      verts := verts[o.value := verts[o.value].(adj := h)];
    }
  }
}
