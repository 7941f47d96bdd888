/** Paths through the adjacency map of a graph (model/graph.py:7-8), as the route searches
    of sim/simulation.py and sim/dijkstra.py walk them: a sequence of vertices whose
    consecutive pairs have an edge stored in slot `[a][b]`. */
module Paths {
  import opened Wrappers
  import opened Vertices
  import opened Edges
  import opened Graphs

  /** Consecutive vertices of `p` are joined by stored edges. */
  predicate IsPath(adj: Adjacency, p: seq<Vertex>)
    decreases |p|
  {
    |p| >= 1 && (|p| == 1 || (IsPath(adj, p[..|p| - 1]) && Lookup(adj, p[|p| - 2], p[|p| - 1]).Some?))
  }

  /** The element (weight) of the edge stored in slot `[a][b]`. */
  function HopWeight(adj: Adjacency, a: Vertex, b: Vertex): nat
    requires Lookup(adj, a, b).Some?
  {
    Lookup(adj, a, b).value.weight
  }

  /** Sum of the weights of the steps of `p` from step `from` on. */
  function HopSum(adj: Adjacency, p: seq<Vertex>, from: nat): nat
    requires IsPath(adj, p)
    decreases |p|
  {
    if |p| - 1 <= from then 0
    else
      HopSum(adj, p[..|p| - 1], from) + HopWeight(adj, p[|p| - 2], p[|p| - 1])
  }

  /** The total weight of `p`. */
  function PathWeight(adj: Adjacency, p: seq<Vertex>): nat
    requires IsPath(adj, p)
  {
    HopSum(adj, p, 0)
  }

  /** A path from `a` to `b`. */
  predicate Leads(adj: Adjacency, p: seq<Vertex>, a: Vertex, b: Vertex)
  {
    IsPath(adj, p) && p[0] == a && p[|p| - 1] == b
  }

  /** Every neighbour stored in the map is itself a vertex. */
  predicate Closed(adj: Adjacency)
  {
    forall a :: a in adj ==> adj[a].Keys <= adj.Keys
  }

  /** A graph whose two maps mirror each other has every neighbour among its vertices. */
  lemma MirroredClosed(out: Adjacency, inn: Adjacency, directed: bool)
    requires Mirrored(out, inn, directed)
    ensures Closed(out)
  {
    forall a, b | a in out && b in out[a]
      ensures b in out
    {
      assert Lookup(out, a, b).Some?;
    }
  }

  /** Extending a path by one edge at its end. */
  lemma Snoc(adj: Adjacency, p: seq<Vertex>, x: Vertex)
    requires IsPath(adj, p) && Lookup(adj, p[|p| - 1], x).Some?
    ensures IsPath(adj, p + [x]) && (p + [x])[..|p|] == p
    ensures PathWeight(adj, p + [x]) == PathWeight(adj, p) + HopWeight(adj, p[|p| - 1], x)
  {
    assert (p + [x])[..|p|] == p;
  }

  /** Extending a path by one edge at its start. */
  lemma {:induction false} Cons(adj: Adjacency, x: Vertex, p: seq<Vertex>)
    requires IsPath(adj, p) && Lookup(adj, x, p[0]).Some?
    ensures IsPath(adj, [x] + p)
    ensures PathWeight(adj, [x] + p) == HopWeight(adj, x, p[0]) + PathWeight(adj, p)
    decreases |p|
  {
    var q := [x] + p;
    if |p| > 1 {
      var p' := p[..|p| - 1];
      Cons(adj, x, p');
      assert q[..|q| - 1] == [x] + p';
    } else {
      assert q[..1] == [x] && q[1] == p[0];
      assert HopSum(adj, q, 0) == HopSum(adj, [x], 0) + HopWeight(adj, x, p[0]);
    }
  }

  /** A prefix of a path is a path no heavier than the whole. */
  lemma {:induction false} Prefix(adj: Adjacency, p: seq<Vertex>, k: nat)
    requires IsPath(adj, p) && 1 <= k <= |p|
    ensures IsPath(adj, p[..k]) && PathWeight(adj, p[..k]) <= PathWeight(adj, p)
    decreases |p|
  {
    if k < |p| {
      var q := p[..|p| - 1];
      Prefix(adj, q, k);
      assert q[..k] == p[..k];
    } else {
      assert p[..k] == p;
    }
  }
}
