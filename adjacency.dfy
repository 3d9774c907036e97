/**
 * The adjacency list of one vertex: the directed, weighted edges that leave
 * it, newest first.
 */
module Adjacency {
  import opened Wrappers

  /** One `Adj` record: the code of the target vertex and the weight. The
      source stores a `float`; the model keeps the integer it is truncated
      to when the shortest-path engine reads it. */
  datatype Edge = Edge(cod: int, dist: int)

  /** No two edges of the list lead to the same vertex code. */
  ghost predicate NoDupTargets(h: seq<Edge>) {
    forall i, j :: 0 <= i < j < |h| ==> h[i].cod != h[j].cod
  }

  /** `ExistAdj`: whether some edge of the list leads to `cod`. */
  function ExistAdj(h: seq<Edge>, cod: int): (r: bool)
    ensures r <==> exists i :: 0 <= i < |h| && h[i].cod == cod
  {
    if |h| == 0 then false
    else if h[0].cod == cod then true
    else
      assert forall i :: 1 <= i < |h| ==> h[i] == h[1..][i - 1];
      ExistAdj(h[1..], cod)
  }

  /**
   * `InsertAdj`: prepend `novo` unless it is NULL (allocation failed) or the
   * list already has an edge to its target; `res` says whether it was added.
   */
  method InsertAdj(h: seq<Edge>, novo: Option<Edge>) returns (r: seq<Edge>, res: bool)
    ensures res <==> novo.Some? && forall i :: 0 <= i < |h| ==> h[i].cod != novo.value.cod
    ensures res ==> r == [novo.value] + h
    ensures !res ==> r == h
    ensures NoDupTargets(h) ==> NoDupTargets(r)
    ensures forall c :: ExistAdj(r, c) <==> ExistAdj(h, c) || (res && c == novo.value.cod)
  {
    res := false;
    if novo.None? {
      return h, res;
    }
    if ExistAdj(h, novo.value.cod) {
      return h, res;
    }
    res := true;
    if |h| == 0 {
      r := [novo.value];
      return;
    }
    r := [novo.value] + h;
  }
}
