/** The edge record. model/edge.py is not part of this model: an edge is taken to be a
    record of its two endpoints and its element, the weight, which this program always
    sets to a small non-negative integer. */
module Edges {
  import opened Vertices

  datatype Edge = Edge(origin: Vertex, destination: Vertex, weight: nat)

  /** True when `e` joins `a` and `b`, in either direction. */
  predicate Joins(e: Edge, a: Vertex, b: Vertex)
  {
    (e.origin == a && e.destination == b) || (e.origin == b && e.destination == a)
  }
}
