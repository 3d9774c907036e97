/**
 * The vertex list: the cities of the route graph, each with its code, its
 * name, its transient visited flag and its adjacency list, kept in ascending
 * `strcmp` order of name. A `Vertice*` returned by a lookup is modelled as
 * the index of that vertex in the list.
 */
module Vertices {
  import opened Wrappers
  import opened Names
  import opened Adjacency

  datatype Vertex = Vertex(cod: int, cidade: string, visitado: bool, adj: seq<Edge>)

  /** `CreateRouteVertex`: a new city with no edges. */
  function CreateRouteVertex(cidade: string, cod: int): Vertex {
    Vertex(cod, cidade, false, [])
  }

  /** The list is in ascending (not necessarily strict) name order. */
  ghost predicate SortedByName(vs: seq<Vertex>) {
    forall i, j :: 0 <= i < j < |vs| ==> LessEq(vs[i].cidade, vs[j].cidade)
  }

  /**
   * Where the scan of `InsertRouteVertex` stops: the first vertex whose name
   * is not below `name`, or the end of the list.
   */
  function InsertPos(vs: seq<Vertex>, name: string): (k: nat)
    ensures k <= |vs|
    ensures forall j :: 0 <= j < k ==> Less(vs[j].cidade, name)
    ensures k < |vs| ==> !Less(vs[k].cidade, name)
  {
    if |vs| == 0 || !Less(vs[0].cidade, name) then 0
    else
      var k := InsertPos(vs[1..], name);
      assert forall j :: 1 <= j < k + 1 ==> vs[j] == vs[1..][j - 1];
      k + 1
  }

  /**
   * The list after `novo` is linked in where the scan stopped: the vertices
   * before the stop are untouched, `novo` sits at the stop, and the rest
   * follow it one place later.
   */
  function Inserted(vs: seq<Vertex>, novo: Vertex): (r: seq<Vertex>)
    ensures |r| == |vs| + 1
    ensures r[InsertPos(vs, novo.cidade)] == novo
    ensures forall j :: 0 <= j < InsertPos(vs, novo.cidade) ==> r[j] == vs[j]
    ensures forall j :: InsertPos(vs, novo.cidade) < j < |r| ==> r[j] == vs[j - 1]
  {
    var k := InsertPos(vs, novo.cidade);
    vs[..k] + [novo] + vs[k..]
  }

  /**
   * `SearchCodVertex`: the code of the vertex named `cidade`, scanning in
   * order and giving up as soon as a greater name is seen: -1 when the list
   * runs out, -2 when a greater name stops the scan. It stops exactly where
   * `InsertRouteVertex` would insert the name.
   */
  function SearchCodVertex(vs: seq<Vertex>, cidade: string): (r: int)
    ensures var k := InsertPos(vs, cidade);
            r == if k == |vs| then -1
                 else if vs[k].cidade == cidade then vs[k].cod
                 else -2
  {
    if |vs| == 0 then -1
    else if Compare(vs[0].cidade, cidade) > 0 then -2
    else if Compare(vs[0].cidade, cidade) == 0 then vs[0].cod
    else SearchCodVertex(vs[1..], cidade)
  }

  /** `SearchVertex`: the first vertex named `cidade`, or NULL. */
  function SearchVertex(vs: seq<Vertex>, cidade: string): (r: Option<nat>)
    ensures r.None? <==> forall i :: 0 <= i < |vs| ==> vs[i].cidade != cidade
    ensures r.Some? ==> r.value < |vs| && vs[r.value].cidade == cidade
                        && forall j :: 0 <= j < r.value ==> vs[j].cidade != cidade
  {
    if |vs| == 0 then None
    else if Compare(vs[0].cidade, cidade) == 0 then Some(0)
    else
      assert forall i :: 1 <= i < |vs| ==> vs[i] == vs[1..][i - 1];
      match SearchVertex(vs[1..], cidade)
      case None => None
      case Some(k) => Some(k + 1)
  }

  /** `SearchVertexCod`: the first vertex with code `cod`, or NULL. */
  function SearchVertexCod(vs: seq<Vertex>, cod: int): (r: Option<nat>)
    ensures r.None? <==> forall i :: 0 <= i < |vs| ==> vs[i].cod != cod
    ensures r.Some? ==> r.value < |vs| && vs[r.value].cod == cod
                        && forall j :: 0 <= j < r.value ==> vs[j].cod != cod
  {
    if |vs| == 0 then None
    else if vs[0].cod == cod then Some(0)
    else
      assert forall i :: 1 <= i < |vs| ==> vs[i] == vs[1..][i - 1];
      match SearchVertexCod(vs[1..], cod)
      case None => None
      case Some(k) => Some(k + 1)
  }

  /**
   * On a sorted list the early-stopping lookup agrees with the full scan: it
   * finds the code of the first vertex with that name when there is one, and
   * otherwise answers -1 if every name is below it and -2 if not.
   */
  lemma SearchCodVertexSorted(vs: seq<Vertex>, cidade: string)
    requires SortedByName(vs)
    ensures SearchVertex(vs, cidade).Some? ==>
              SearchCodVertex(vs, cidade) == vs[SearchVertex(vs, cidade).value].cod
    ensures SearchVertex(vs, cidade).None? ==>
              SearchCodVertex(vs, cidade) ==
                if forall i :: 0 <= i < |vs| ==> Less(vs[i].cidade, cidade) then -1 else -2
  {
    var k := InsertPos(vs, cidade);
    if k < |vs| && vs[k].cidade != cidade {
      // every later name is at least vs[k]'s, which is above `cidade`
      assert forall j :: k < j < |vs| ==> LessEq(vs[k].cidade, vs[j].cidade);
    }
  }

  /** With non-negative codes on a sorted list, the two name lookups agree on presence. */
  lemma SearchCodVertexFound(vs: seq<Vertex>, cidade: string)
    requires SortedByName(vs)
    requires forall i :: 0 <= i < |vs| ==> vs[i].cod >= 0
    ensures SearchCodVertex(vs, cidade) >= 0 <==> SearchVertex(vs, cidade).Some?
  {
    SearchCodVertexSorted(vs, cidade);
  }

  /** Linking a vertex in keeps a sorted list sorted. */
  lemma InsertedSorted(vs: seq<Vertex>, novo: Vertex)
    requires SortedByName(vs)
    ensures SortedByName(Inserted(vs, novo))
  {
    var k := InsertPos(vs, novo.cidade);
    var r := Inserted(vs, novo);
    if k < |vs| {
      NotLessIsGreaterEq(vs[k].cidade, novo.cidade);
    }
    forall i, j | 0 <= i < j < |r| ensures LessEq(r[i].cidade, r[j].cidade) {
      if i < k && j == k {
        // r[i] is below the new name
      } else if i == k && j > k {
        // the new name is at most vs[k], which is at most vs[j - 1]
        if j - 1 > k {
          CompareTransitive(novo.cidade, vs[k].cidade, vs[j - 1].cidade);
        }
      } else if i < k && j > k {
        assert r[i] == vs[i] && r[j] == vs[j - 1];
      } else if j < k {
        assert r[i] == vs[i] && r[j] == vs[j];
      } else {
        assert r[i] == vs[i - 1] && r[j] == vs[j - 1];
      }
    }
  }

  /** Insertion adds exactly one vertex and loses none. */
  lemma InsertedContents(vs: seq<Vertex>, novo: Vertex)
    ensures |Inserted(vs, novo)| == |vs| + 1
    ensures multiset(Inserted(vs, novo)) == multiset(vs) + multiset{novo}
  {
    var k := InsertPos(vs, novo.cidade);
    calc {
      multiset(Inserted(vs, novo));
      multiset(vs[..k]) + multiset{novo} + multiset(vs[k..]);
      { assert vs == vs[..k] + vs[k..]; }
      multiset(vs) + multiset{novo};
    }
  }

  /**
   * The new vertex goes before every vertex with the same name, so a later
   * lookup by that name finds it rather than an older namesake.
   */
  lemma InsertedIsFound(vs: seq<Vertex>, novo: Vertex)
    ensures SearchVertex(Inserted(vs, novo), novo.cidade) == Some(InsertPos(vs, novo.cidade))
  {
    var k := InsertPos(vs, novo.cidade);
    var r := Inserted(vs, novo);
    assert r[k] == novo;
    forall j | 0 <= j < k ensures r[j].cidade != novo.cidade {
      assert r[j] == vs[j];
    }
  }
}
