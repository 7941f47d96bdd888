/** sim/kruskal.py: Kruskal over a graph with union by rank, and the lookup of a vertex by
    its string form. */
module SimKruskal {
  import opened Wrappers
  import opened Vertices
  import opened Edges
  import opened Sorting
  import opened Spanning
  import opened Graphs

  /** `kruskal_mst(graph)`: every vertex starts as its own root of rank 0, the edges are
      sorted by weight, and an edge is kept exactly when the union by rank of its endpoints
      merges two sets. The edge set is listed in an order the model leaves open, as
      iterating a Python set of edge objects does. */
  method KruskalMst(g: Graph) returns (mst: seq<Edge>)
    requires g.Valid()
    requires forall e :: e in StoredEdges(g.outgoing) ==> e.origin in g.outgoing && e.destination in g.outgoing
    ensures exists edges :: EdgeSet(edges) == StoredEdges(g.outgoing) && |edges| == |StoredEdges(g.outgoing)|
                            && mst == Greedy(SortBy(edges, Weight))
    ensures exists reps :: Representatives(g.outgoing.Keys, StoredEdges(g.outgoing), reps)
                           && |mst| + |reps| == |g.outgoing.Keys|
  {
    var all := g.Edges();
    var edges := Enumerate(all);
    mst := Kruskal(g.Vertices(), edges, true);
  }

  /** What the scan returns, for any listing of the edges: a forest (no kept edge closes a
      cycle), in non-decreasing weight order, made of given edges, that connects exactly
      the pairs the given edges connect. */
  lemma ScanResult(edges: seq<Edge>)
    ensures Acyclic(Greedy(SortBy(edges, Weight)))
    ensures SortedBy(Greedy(SortBy(edges, Weight)), Weight)
    ensures EdgeSet(Greedy(SortBy(edges, Weight))) <= EdgeSet(edges)
    ensures forall x, y :: Connected(EdgeSet(Greedy(SortBy(edges, Weight))), x, y) <==> Connected(EdgeSet(edges), x, y)
  {
    var sorted := SortBy(edges, Weight);
    SortByPermutes(edges, Weight);
    SortedEdgeSet(edges);
    GreedyAcyclic(sorted);
    GreedySubsequence(sorted);
    forall x, y
      ensures Connected(EdgeSet(Greedy(sorted)), x, y) <==> Connected(EdgeSet(edges), x, y)
    {
      GreedySameComponents(sorted, x, y);
    }
  }

  /** On a connected graph with at least one vertex the scan keeps |V| - 1 edges. */
  lemma SpanningTreeSize(vs: set<Vertex>, es: set<Edge>, reps: set<Vertex>, mst: seq<Edge>)
    requires Representatives(vs, es, reps) && |mst| + |reps| == |vs|
    requires vs != {} && forall x, y :: x in vs && y in vs ==> Connected(es, x, y)
    ensures |mst| == |vs| - 1
  {
    OneComponent(vs, es, reps);
  }

  /** `get_vertex_from_str(graph, s)`: the first vertex, in insertion order, whose string
      form is `str(s)`, or `None`. */
  method GetVertexFromStr(g: Graph, s: PyObject) returns (r: Option<Vertex>)
    requires g.Valid()
    ensures r.Some? ==> exists i :: 0 <= i < |g.order| && g.order[i] == r.value
                                    && Str(g.order[i]) == ObjectString(s)
                                    && forall j :: 0 <= j < i ==> Str(g.order[j]) != ObjectString(s)
    ensures r.None? <==> forall v :: v in g.outgoing ==> Str(v) != ObjectString(s)
  {
    var vertices := g.Vertices();
    for i := 0 to |vertices|
      invariant forall j :: 0 <= j < i ==> Str(vertices[j]) != ObjectString(s)
    {
      if Str(vertices[i]) == ObjectString(s) {
        return Some(vertices[i]);
      }
    }
    return None;
  }
}
