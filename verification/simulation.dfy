/** `Simulation.bfs_shortest_path` of sim/simulation.py: a first-in first-out search under a
    battery budget. A path carries the cost spent since it last entered a recharge node;
    entering a recharge node restarts the carried cost at the weight of the edge just
    taken, and from a recharge node every edge may be taken. */
module Simulation {
  import opened Wrappers
  import opened Vertices
  import opened Edges
  import opened Graphs
  import opened Routes
  import opened Paths

  /** The cost carried at the end of `p`: a recharge node restarts it at the weight of the
      edge that entered it; any other node adds that weight. */
  function Carried(adj: Adjacency, recharge: set<Vertex>, p: seq<Vertex>): (c: int)
    requires IsPath(adj, p)
    ensures c >= 0
    decreases |p|
  {
    if |p| == 1 then 0
    else
      var w := HopWeight(adj, p[|p| - 2], p[|p| - 1]);
      if p[|p| - 1] in recharge then w else Carried(adj, recharge, p[..|p| - 1]) + w
  }

  /** Every step of `p` is one the search takes: it leaves a recharge node, or the cost it
      carries on arrival stays within `limit`. */
  predicate Allowed(adj: Adjacency, recharge: set<Vertex>, limit: int, p: seq<Vertex>)
    requires IsPath(adj, p)
    decreases |p|
  {
    |p| == 1 ||
      (var q := p[..|p| - 1];
       && Allowed(adj, recharge, limit, q)
       && (q[|q| - 1] in recharge || Carried(adj, recharge, q) + HopWeight(adj, q[|q| - 1], p[|p| - 1]) <= limit))
  }

  /** The step that entered the last recharge node of `p` (not counting the first
      vertex), or 0 when there is none. */
  function ResetStep(recharge: set<Vertex>, p: seq<Vertex>): (k: nat)
    requires |p| >= 1
    ensures k <= |p| - 1
    decreases |p|
  {
    if |p| == 1 then 0
    else if p[|p| - 1] in recharge then |p| - 2
    else ResetStep(recharge, p[..|p| - 1])
  }

  /** The carried cost is the weight walked since the last recharge node was entered,
      counting the edge that entered it. */
  lemma {:induction false} CarriedSinceRecharge(adj: Adjacency, recharge: set<Vertex>, p: seq<Vertex>)
    requires IsPath(adj, p)
    ensures Carried(adj, recharge, p) == HopSum(adj, p, ResetStep(recharge, p))
    decreases |p|
  {
    if |p| > 1 {
      var q := p[..|p| - 1];
      if p[|p| - 1] in recharge {
        assert HopSum(adj, q, |p| - 2) == 0;
      } else {
        CarriedSinceRecharge(adj, recharge, q);
      }
    }
  }

  /** A queue entry `(node, path, cost)`. */
  datatype Entry = Entry(node: Vertex, path: seq<Vertex>, cost: int)

  /** An entry the search can produce: an allowed path from `start` to the entry's node,
      with the cost it carries. */
  predicate Sound(adj: Adjacency, recharge: set<Vertex>, limit: int, start: Vertex, e: Entry)
  {
    && IsPath(adj, e.path) && e.path[0] == start && e.path[|e.path| - 1] == e.node
    && e.cost == Carried(adj, recharge, e.path) && Allowed(adj, recharge, limit, e.path)
  }

  /** Following an allowed edge from a sound entry gives a sound entry. */
  lemma Extend(adj: Adjacency, recharge: set<Vertex>, limit: int, start: Vertex, e: Entry, n: Vertex)
    requires Sound(adj, recharge, limit, start, e) && Lookup(adj, e.node, n).Some?
    requires e.node in recharge || e.cost + HopWeight(adj, e.node, n) <= limit
    ensures Sound(adj, recharge, limit, start,
                  Entry(n, e.path + [n], if n in recharge then HopWeight(adj, e.node, n) else e.cost + HopWeight(adj, e.node, n)))
  {
    var p := e.path + [n];
    assert p[..|p| - 1] == e.path;
  }

  /** The number of queue entries whose node was already dequeued. */
  function Revisits(queue: seq<Entry>, visited: set<Vertex>): nat
  {
    if queue == [] then 0
    else (if queue[0].node in visited then 1 else 0) + Revisits(queue[1..], visited)
  }

  lemma {:induction false} RevisitsAppend(queue: seq<Entry>, e: Entry, visited: set<Vertex>)
    ensures Revisits(queue + [e], visited) == Revisits(queue, visited) + if e.node in visited then 1 else 0
    decreases |queue|
  {
    if queue != [] {
      assert (queue + [e])[1..] == queue[1..] + [e];
      RevisitsAppend(queue[1..], e, visited);
    }
  }

  /** The entry for stepping from `e` to neighbour `n`: the carried cost restarts at the
      edge weight when `n` is a recharge node and grows by it otherwise. */
  function Next(adj: Adjacency, recharge: set<Vertex>, e: Entry, n: Vertex): Entry
    requires Lookup(adj, e.node, n).Some?
  {
    var w := HopWeight(adj, e.node, n);
    Entry(n, e.path + [n], if n in recharge then w else e.cost + w)
  }

  /** The search steps from `e` to `n`: `n` is a neighbour not yet dequeued, and either `e`
      sits on a recharge node or the step stays within the limit. */
  predicate Takes(adj: Adjacency, recharge: set<Vertex>, limit: int, visited: set<Vertex>, e: Entry, n: Vertex)
  {
    && Lookup(adj, e.node, n).Some? && n !in visited
    && (e.node in recharge || e.cost + HopWeight(adj, e.node, n) <= limit)
  }

  /** The nodes of the entries of `queue` from index `from` on. */
  function NodesFrom(queue: seq<Entry>, from: nat): set<Vertex>
    decreases |queue|
  {
    if |queue| <= from then {} else NodesFrom(queue[..|queue| - 1], from) + {queue[|queue| - 1].node}
  }

  /** The `for neighbor in graph.neighbors(current)` loop: appends one entry for each step
      the search takes from `e`, in an order the model leaves open. */
  method Expand(g: Graph, recharge: set<Vertex>, limit: int, visited: set<Vertex>, e: Entry, queue: seq<Entry>)
    returns (queue': seq<Entry>)
    requires g.Valid() && e.node in g.outgoing
    ensures |queue'| >= |queue| && queue'[..|queue|] == queue
    ensures forall i :: |queue| <= i < |queue'| ==>
              Takes(g.outgoing, recharge, limit, visited, e, queue'[i].node)
              && queue'[i] == Next(g.outgoing, recharge, e, queue'[i].node)
    ensures forall n :: Takes(g.outgoing, recharge, limit, visited, e, n) ==> n in NodesFrom(queue', |queue|)
    ensures Revisits(queue', visited) == Revisits(queue, visited)
  {
    var neighbors := g.Neighbors(e.node);
    var todo := neighbors.value;
    queue' := queue;
    while todo != {}
      invariant todo <= g.outgoing[e.node].Keys
      invariant |queue'| >= |queue| && queue'[..|queue|] == queue
      invariant forall i :: |queue| <= i < |queue'| ==>
                  Takes(g.outgoing, recharge, limit, visited, e, queue'[i].node)
                  && queue'[i] == Next(g.outgoing, recharge, e, queue'[i].node)
      invariant forall n :: Takes(g.outgoing, recharge, limit, visited, e, n) && n !in todo ==> n in NodesFrom(queue', |queue|)
      invariant Revisits(queue', visited) == Revisits(queue, visited)
      decreases todo
    {
      var n :| n in todo;
      todo := todo - {n};
      var w := g.GetEdge(e.node, n).value.weight;
      var cost := e.cost + w;
      if cost > limit && e.node !in recharge {
        continue;
      }
      if n !in visited {
        var next := Entry(n, e.path + [n], if n in recharge then w else cost);
        RevisitsAppend(queue', next, visited);
        assert (queue' + [next])[..|queue'|] == queue';
        queue' := queue' + [next];
      }
    }
  }

  /** The entries `Expand` appends to a queue of sound entries are sound. */
  lemma ExpandSound(adj: Adjacency, recharge: set<Vertex>, limit: int, start: Vertex, visited: set<Vertex>,
                    e: Entry, queue: seq<Entry>, queue': seq<Entry>)
    requires Sound(adj, recharge, limit, start, e)
    requires forall x :: x in queue ==> Sound(adj, recharge, limit, start, x)
    requires |queue'| >= |queue| && queue'[..|queue|] == queue
    requires forall i :: |queue| <= i < |queue'| ==>
               Takes(adj, recharge, limit, visited, e, queue'[i].node) && queue'[i] == Next(adj, recharge, e, queue'[i].node)
    ensures forall x :: x in queue' ==> Sound(adj, recharge, limit, start, x)
  {
    forall x | x in queue'
      ensures Sound(adj, recharge, limit, start, x)
    {
      var i :| 0 <= i < |queue'| && queue'[i] == x;
      if i < |queue| {
        assert x == queue[i];
      } else {
        Extend(adj, recharge, limit, start, e, x.node);
      }
    }
  }

  /** The search's measure goes down: fewer vertices left to dequeue, or as many and fewer
      queue entries for vertices already dequeued. */
  predicate Progress(keys: set<Vertex>, queue: seq<Entry>, visited: set<Vertex>, queue': seq<Entry>, visited': set<Vertex>)
  {
    || |keys - visited'| < |keys - visited|
    || (|keys - visited'| == |keys - visited| && Revisits(queue', visited') < Revisits(queue, visited))
  }

  /** One pass of the `while queue` loop: dequeue the first entry; stop with the route
      when it is the goal within the limit, stop with the `KeyError` of `neighbors` when
      its node is not a vertex, and otherwise mark it visited and enqueue its steps. */
  method Visit(g: Graph, start: Vertex, goal: Vertex, limit: int, recharge: set<Vertex>,
               queue: seq<Entry>, visited: set<Vertex>)
    returns (queue': seq<Entry>, visited': set<Vertex>, stop: Option<Result<Option<Route>, KeyError>>)
    requires g.Valid() && queue != [] && visited <= g.outgoing.Keys
    requires forall e :: e in queue ==> Sound(g.outgoing, recharge, limit, start, e)
    ensures queue[0].node == goal && queue[0].cost <= limit ==>
              stop == Some(Ok(Some(Route(queue[0].path, queue[0].cost))))
    ensures !(queue[0].node == goal && queue[0].cost <= limit) && queue[0].node !in g.outgoing ==>
              stop == Some(Err(KeyError))
    ensures stop.None? <==> !(queue[0].node == goal && queue[0].cost <= limit) && queue[0].node in g.outgoing
    ensures stop.None? ==> visited' == visited + {queue[0].node} && visited' <= g.outgoing.Keys
    ensures stop.None? ==> forall e :: e in queue' ==> Sound(g.outgoing, recharge, limit, start, e)
    ensures stop.None? ==> Progress(g.outgoing.Keys, queue, visited, queue', visited')
  {
    var e := queue[0];
    queue' := queue[1..];
    visited' := visited;
    if e.node == goal && e.cost <= limit {
      stop := Some(Ok(Some(Route(e.path, e.cost))));
    } else if g.Neighbors(e.node).Err? {
      stop := Some(Err(KeyError));
    } else {
      stop := None;
      assert e in queue && forall x :: x in queue[1..] ==> x in queue;
      assert Revisits(queue, visited) == (if e.node in visited then 1 else 0) + Revisits(queue', visited);
      visited' := visited + {e.node};
      var rest := queue';
      queue' := Expand(g, recharge, limit, visited', e, rest);
      ExpandSound(g.outgoing, recharge, limit, start, visited', e, rest, queue');
      if e.node in visited {
        assert visited' == visited;
      } else {
        assert g.outgoing.Keys - visited' < g.outgoing.Keys - visited;
      }
    }
  }

  /** `bfs_shortest_path(graph, start, goal, autonomy_limit, recharge_nodes)`. A dequeued
      node that is not a vertex makes `neighbors` raise. */
  method BfsShortestPath(g: Graph, start: Vertex, goal: Vertex, limit: int, recharge: set<Vertex>)
    returns (r: Result<Option<Route>, KeyError>)
    requires g.Valid()
    ensures r.Ok? && r.value.Some? ==>
      var p := r.value.value.path;
      && IsPath(g.outgoing, p) && p[0] == start && p[|p| - 1] == goal
      && Allowed(g.outgoing, recharge, limit, p)
      && r.value.value.cost == Carried(g.outgoing, recharge, p) <= limit
    ensures start == goal && 0 <= limit ==> r == Ok(Some(Route([start], 0)))
    ensures start !in g.outgoing && !(start == goal && 0 <= limit) ==> r == Err(KeyError)
  {
    r := Ok(None);
    var queue := [Entry(start, [start], 0)];
    var visited: set<Vertex> := {};
    while queue != []
      invariant r == Ok(None)
      invariant visited <= g.outgoing.Keys
      invariant forall e :: e in queue ==> Sound(g.outgoing, recharge, limit, start, e)
      invariant visited == {} ==> queue == [Entry(start, [start], 0)]
      invariant visited != {} ==> start in g.outgoing && !(start == goal && 0 <= limit)
      decreases |g.outgoing.Keys - visited|, Revisits(queue, visited)
    {
      var e := queue[0];
      assert e in queue;
      var stop;
      queue, visited, stop := Visit(g, start, goal, limit, recharge, queue, visited);
      if stop.Some? {
        r := stop.value;
        break;
      }
    }
  }
}
