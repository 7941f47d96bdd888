/** `dijkstra_shortest_path` of sim/dijkstra.py: Dijkstra's search with lazy deletion. Every
    improvement of a distance pushes a `(cost, vertex)` entry; an entry popped for a vertex
    whose search is over is expanded again, to no effect; the search stops when the goal
    is popped, and the path is read back through `prev`. Distances `float('inf')` are
    `None`. */
module Dijkstra {
  import opened Wrappers
  import opened Vertices
  import opened Edges
  import opened Graphs
  import opened Paths
  import opened Heaps

  /** A heap entry `(cost, vertex)`. */
  datatype HeapEntry = HeapEntry(cost: nat, node: Vertex)

  // ---------------------------------------------------------------------------------
  // The heap as written: entries are bare `(cost, vertex)` tuples.

  datatype TypeError = TypeError

  /** Python's `<` between two `(cost, vertex)` tuples. The costs decide when they differ;
      equal costs fall through to the vertices, equal vertices make the tuples equal, and
      two unequal vertices are compared with `<`, which `Vertex` does not define. */
  function TupleLess(a: HeapEntry, b: HeapEntry): (r: Result<bool, TypeError>)
    ensures r.Err? <==> a.cost == b.cost && a.node != b.node
    ensures r.Ok? ==> (r.value <==> a.cost < b.cost)
  {
    if a.cost != b.cost then Ok(a.cost < b.cost)
    else if a.node == b.node then Ok(false)
    else Err(TypeError)
  }

  /** `heapq._siftdown`: the entry at `pos` climbs while it is less than its parent. */
  function SiftDown(heap: seq<HeapEntry>, pos: nat): (r: Result<seq<HeapEntry>, TypeError>)
    requires pos < |heap|
    ensures r.Ok? ==> multiset(r.value) == multiset(heap)
    decreases pos
  {
    if pos == 0 then Ok(heap)
    else
      var parent := (pos - 1) / 2;
      match TupleLess(heap[pos], heap[parent])
      case Err(e) => Err(e)
      case Ok(less) =>
        if less then SiftDown(heap[parent := heap[pos]][pos := heap[parent]], parent) else Ok(heap)
  }

  /** `heapq.heappush(queue, (alt, v))` as written. */
  function PushAsWritten(heap: seq<HeapEntry>, item: HeapEntry): Result<seq<HeapEntry>, TypeError>
  {
    SiftDown(heap + [item], |heap|)
  }

  /** Pushing an entry whose cost equals that of the one entry already queued, for another
      vertex, raises: from `A` with edges `A-B` and `A-C` of equal weight, relaxing the
      second neighbour pushes onto a heap holding only the first. */
  lemma PushTieRaises(x: HeapEntry, item: HeapEntry)
    requires x.cost == item.cost && x.node != item.node
    ensures PushAsWritten([x], item) == Err(TypeError)
  {
    assert ([x] + [item])[1] == item && ([x] + [item])[0] == x;
  }

  // ---------------------------------------------------------------------------------
  // The search, with the heap popping the first entry of least cost.

  /** `dist`: `None` stands for `float('inf')`. */
  type Dist = map<Vertex, Option<nat>>
  type Prev = map<Vertex, Option<Vertex>>

  /** `alt < dist[v]`. */
  predicate Below(alt: nat, d: Option<nat>)
  {
    d.None? || alt < d.value
  }

  /** The cost an entry is ordered by. */
  function EntryCost(e: HeapEntry): nat
  {
    e.cost
  }

  /** No path from `start` to `v` weighs less than `d`. */
  ghost predicate Optimal(adj: Adjacency, start: Vertex, v: Vertex, d: nat)
  {
    forall p :: Leads(adj, p, start, v) ==> d <= PathWeight(adj, p)
  }

  /** Relaxing the edge from `u`, popped at cost `c`, lowers the distance of `v`. */
  ghost predicate Improves(adj: Adjacency, u: Vertex, c: nat, dist: Dist, v: Vertex)
  {
    v in dist && Lookup(adj, u, v).Some? && Below(c + HopWeight(adj, u, v), dist[v])
  }

  /** The distances and predecessors after relaxing the edges from `u` to the vertices of
      `done`, all of which have an entry in `dist`: each such neighbour whose distance
      improves gets distance `c + w` and predecessor `u`; nothing else changes. */
  ghost predicate MapsRelaxed(adj: Adjacency, u: Vertex, c: nat, dist: Dist, prev: Prev,
                              dist': Dist, prev': Prev, done: set<Vertex>)
  {
    && dist'.Keys == dist.Keys && prev'.Keys == prev.Keys && prev.Keys == dist.Keys && done <= dist.Keys
    && forall v :: v in dist ==>
         if v in done && Improves(adj, u, c, dist, v) then dist'[v] == Some(c + HopWeight(adj, u, v)) && prev'[v] == Some(u)
         else dist'[v] == dist[v] && prev'[v] == prev[v]
  }

  /** The heap after relaxing the edges from `u` to the vertices of `done`: one entry
      `(c + w, v)` was pushed for each such neighbour `v` whose distance improves, and no
      other. */
  ghost predicate HeapRelaxed(adj: Adjacency, u: Vertex, c: nat, dist: Dist, heap: seq<HeapEntry>,
                              heap': seq<HeapEntry>, done: set<Vertex>)
  {
    && |heap'| == |heap| + |ImprovedIn(adj, u, c, dist, done)| && heap'[..|heap|] == heap
    && (forall i :: |heap| <= i < |heap'| ==>
          heap'[i].node in done && Improves(adj, u, c, dist, heap'[i].node)
          && heap'[i].cost == c + HopWeight(adj, u, heap'[i].node))
    && (forall v :: v in ImprovedIn(adj, u, c, dist, done) ==> HeapEntry(c + HopWeight(adj, u, v), v) in heap')
  }

  /** The vertices of `done` whose distance the edge from `u` improves. */
  ghost function ImprovedIn(adj: Adjacency, u: Vertex, c: nat, dist: Dist, done: set<Vertex>): set<Vertex>
  {
    set v | v in done && Improves(adj, u, c, dist, v)
  }

  /** A neighbour not yet relaxed still has its old distance, so the test `alt < dist[v]`
      is whether the edge improves it. */
  lemma Pending(adj: Adjacency, u: Vertex, c: nat, dist: Dist, prev: Prev,
                dist': Dist, prev': Prev, done: set<Vertex>, v: Vertex)
    requires MapsRelaxed(adj, u, c, dist, prev, dist', prev', done)
    requires v !in done && v in dist && Lookup(adj, u, v).Some?
    ensures v in dist' && dist'[v] == dist[v]
    ensures Below(c + HopWeight(adj, u, v), dist'[v]) <==> Improves(adj, u, c, dist, v)
  {
  }

  /** Relaxing one more edge, from `u` to `v`, extends the relaxed maps to `done + {v}`. */
  lemma MapsStep(adj: Adjacency, u: Vertex, c: nat, dist: Dist, prev: Prev,
                 dist': Dist, prev': Prev, done: set<Vertex>, v: Vertex, dist'': Dist, prev'': Prev)
    requires MapsRelaxed(adj, u, c, dist, prev, dist', prev', done)
    requires v !in done && v in dist && Lookup(adj, u, v).Some?
    requires Improves(adj, u, c, dist, v) ==> dist'' == dist'[v := Some(c + HopWeight(adj, u, v))] && prev'' == prev'[v := Some(u)]
    requires !Improves(adj, u, c, dist, v) ==> dist'' == dist' && prev'' == prev'
    ensures MapsRelaxed(adj, u, c, dist, prev, dist'', prev'', done + {v})
  {
  }

  /** Relaxing one more edge, from `u` to `v`, extends the relaxed heap to `done + {v}`. */
  lemma HeapStep(adj: Adjacency, u: Vertex, c: nat, dist: Dist, heap: seq<HeapEntry>,
                 heap': seq<HeapEntry>, done: set<Vertex>, v: Vertex, heap'': seq<HeapEntry>)
    requires HeapRelaxed(adj, u, c, dist, heap, heap', done)
    requires v !in done && v in dist && Lookup(adj, u, v).Some?
    requires if Improves(adj, u, c, dist, v) then heap'' == heap' + [HeapEntry(c + HopWeight(adj, u, v), v)]
             else heap'' == heap'
    ensures HeapRelaxed(adj, u, c, dist, heap, heap'', done + {v})
  {
    if Improves(adj, u, c, dist, v) {
      assert ImprovedIn(adj, u, c, dist, done + {v}) == ImprovedIn(adj, u, c, dist, done) + {v};
      Pushed(adj, u, c, dist, heap, heap', done, HeapEntry(c + HopWeight(adj, u, v), v), heap'');
    } else {
      assert ImprovedIn(adj, u, c, dist, done + {v}) == ImprovedIn(adj, u, c, dist, done);
    }
  }

  /** Pushing the entry of one more improved neighbour `entry.node`. */
  lemma Pushed(adj: Adjacency, u: Vertex, c: nat, dist: Dist, heap: seq<HeapEntry>,
               heap': seq<HeapEntry>, done: set<Vertex>, entry: HeapEntry, heap'': seq<HeapEntry>)
    requires HeapRelaxed(adj, u, c, dist, heap, heap', done)
    requires entry.node !in done && Improves(adj, u, c, dist, entry.node)
    requires entry.cost == c + HopWeight(adj, u, entry.node) && heap'' == heap' + [entry]
    requires ImprovedIn(adj, u, c, dist, done + {entry.node}) == ImprovedIn(adj, u, c, dist, done) + {entry.node}
    ensures HeapRelaxed(adj, u, c, dist, heap, heap'', done + {entry.node})
  {
    assert heap''[..|heap|] == heap'[..|heap|];
    forall k | |heap| <= k < |heap''|
      ensures heap''[k].node in done + {entry.node} && Improves(adj, u, c, dist, heap''[k].node)
      ensures heap''[k].cost == c + HopWeight(adj, u, heap''[k].node)
    {
      if k < |heap'| {
        assert heap''[k] == heap'[k];
      }
    }
    forall x | x in heap'
      ensures x in heap''
    {
    }
    assert heap''[|heap'|] == entry;
    forall v | v in ImprovedIn(adj, u, c, dist, done + {entry.node})
      ensures HeapEntry(c + HopWeight(adj, u, v), v) in heap''
    {
      if v != entry.node {
        assert v in ImprovedIn(adj, u, c, dist, done);
      } else {
        assert HeapEntry(c + HopWeight(adj, u, v), v) == heap''[|heap'|];
      }
    }
  }

  /** The body of the loop for neighbour `v`: `alt = curr_dist + w`; when `alt < dist[v]`,
      `v` gets distance `alt` and predecessor `u` and `(alt, v)` is pushed. */
  method RelaxEdge(g: Graph, u: Vertex, c: nat, ghost dist: Dist, ghost prev: Prev, ghost heap: seq<HeapEntry>,
                   ghost done: set<Vertex>, v: Vertex, d: Dist, p: Prev, h: seq<HeapEntry>)
    returns (d': Dist, p': Prev, h': seq<HeapEntry>)
    requires g.Valid() && u in g.outgoing && v in g.outgoing[u] && v !in done && v in d
    requires MapsRelaxed(g.outgoing, u, c, dist, prev, d, p, done)
    requires HeapRelaxed(g.outgoing, u, c, dist, heap, h, done)
    ensures MapsRelaxed(g.outgoing, u, c, dist, prev, d', p', done + {v})
    ensures HeapRelaxed(g.outgoing, u, c, dist, heap, h', done + {v})
  {
    var adj := g.outgoing;
    var w := g.GetEdge(u, v).value.weight;
    assert w == HopWeight(adj, u, v);
    var alt := c + w;
    Pending(adj, u, c, dist, prev, d, p, done, v);
    if Below(alt, d[v]) {
      d', p', h' := d[v := Some(alt)], p[v := Some(u)], h + [HeapEntry(alt, v)];
    } else {
      d', p', h' := d, p, h;
    }
    MapsStep(adj, u, c, dist, prev, d, p, done, v, d', p');
    HeapStep(adj, u, c, dist, heap, h, done, v, h');
  }

  /** The `for v in graph.neighbors(u)` loop, for `u` popped at cost `curr_dist == c`. A
      neighbour missing from `dist` raises `KeyError`. */
  method Relax(g: Graph, u: Vertex, c: nat, dist: Dist, prev: Prev, heap: seq<HeapEntry>)
    returns (r: Result<(Dist, Prev, seq<HeapEntry>), KeyError>)
    requires g.Valid() && u in g.outgoing && prev.Keys == dist.Keys
    ensures r.Err? <==> !(g.outgoing[u].Keys <= dist.Keys)
    ensures r.Ok? ==> MapsRelaxed(g.outgoing, u, c, dist, prev, r.value.0, r.value.1, g.outgoing[u].Keys)
    ensures r.Ok? ==> HeapRelaxed(g.outgoing, u, c, dist, heap, r.value.2, g.outgoing[u].Keys)
  {
    var adj := g.outgoing;
    var todo := g.Neighbors(u).value;
    var dist': Dist, prev': Prev, heap': seq<HeapEntry> := dist, prev, heap;
    while todo != {}
      invariant todo <= adj[u].Keys
      invariant MapsRelaxed(adj, u, c, dist, prev, dist', prev', adj[u].Keys - todo)
      invariant HeapRelaxed(adj, u, c, dist, heap, heap', adj[u].Keys - todo)
      decreases todo
    {
      var v :| v in todo;
      ghost var done := adj[u].Keys - todo;
      todo := todo - {v};
      assert adj[u].Keys - todo == done + {v};
      if v !in dist' {
        return Err(KeyError);
      }
      dist', prev', heap' := RelaxEdge(g, u, c, dist, prev, heap, done, v, dist', prev', heap');
    }
    assert adj[u].Keys - todo == adj[u].Keys;
    return Ok((dist', prev', heap'));
  }

  // ---------------------------------------------------------------------------------
  // The invariant of the main loop. A vertex is settled once its first entry was popped
  // and its edges relaxed; `stamp` numbers the settled vertices in that order.

  /** Every vertex with a finite distance that is not settled waits in the heap at that
      distance. */
  ghost predicate Queued(dist: Dist, settled: set<Vertex>, heap: seq<HeapEntry>)
  {
    forall v :: v in dist && v !in settled && dist[v].Some? ==> HeapEntry(dist[v].value, v) in heap
  }

  /** Every entry belongs to a vertex whose distance is finite and at most the entry's
      cost. */
  ghost predicate Above(dist: Dist, heap: seq<HeapEntry>)
  {
    forall e :: e in heap ==> e.node in dist && dist[e.node].Some? && dist[e.node].value <= e.cost
  }

  /** A settled vertex has its optimal distance, has relaxed all its edges, and no entry
      in the heap costs less than it. */
  ghost predicate Done(adj: Adjacency, start: Vertex, dist: Dist, settled: set<Vertex>, heap: seq<HeapEntry>)
  {
    forall s :: s in settled ==> DoneAt(adj, start, dist, heap, s)
  }

  ghost predicate DoneAt(adj: Adjacency, start: Vertex, dist: Dist, heap: seq<HeapEntry>, s: Vertex)
  {
    && s in adj && s in dist && dist[s].Some? && Optimal(adj, start, s, dist[s].value)
    && (forall x :: x in adj[s] ==> x in dist && dist[x].Some? && dist[x].value <= dist[s].value + HopWeight(adj, s, x))
    && (forall e :: e in heap ==> dist[s].value <= e.cost)
  }

  /** The predecessors: `prev[v]` is a settled vertex with an edge to `v` that gives `v` its
      distance, settled before `v` if `v` is; a vertex without predecessor is `start` or
      unreached. */
  ghost predicate Tree(adj: Adjacency, start: Vertex, dist: Dist, prev: Prev, settled: set<Vertex>, stamp: map<Vertex, nat>)
  {
    && stamp.Keys == settled
    && (forall s :: s in stamp ==> stamp[s] < |settled|)
    && forall v :: v in prev ==> TreeAt(adj, start, dist, prev, settled, stamp, v)
  }

  ghost predicate TreeAt(adj: Adjacency, start: Vertex, dist: Dist, prev: Prev, settled: set<Vertex>,
                         stamp: map<Vertex, nat>, v: Vertex)
    requires v in prev && stamp.Keys == settled
  {
    && v in dist
    && (prev[v].None? ==> v == start || dist[v].None?)
    && (prev[v].Some? ==>
          var u := prev[v].value;
          && u in settled && u in dist && dist[u].Some? && Lookup(adj, u, v).Some? && dist[v].Some?
          && dist[v].value == dist[u].value + HopWeight(adj, u, v)
          && (v in settled ==> stamp[u] < stamp[v]))
  }

  ghost predicate Inv(adj: Adjacency, start: Vertex, goal: Vertex, dist: Dist, prev: Prev, heap: seq<HeapEntry>,
                      settled: set<Vertex>, stamp: map<Vertex, nat>)
  {
    && start in dist && dist[start] == Some(0)
    && settled <= dist.Keys && goal !in settled
    && Queued(dist, settled, heap) && Above(dist, heap)
    && Done(adj, start, dist, settled, heap)
    && Tree(adj, start, dist, prev, settled, stamp)
  }

  /** A path from `start` to a vertex that is not settled passes through a vertex that is
      not settled and whose distance is at most the weight of the path. */
  lemma {:induction false} Frontier(adj: Adjacency, start: Vertex, dist: Dist, settled: set<Vertex>,
                                    heap: seq<HeapEntry>, p: seq<Vertex>) returns (k: nat)
    requires start in dist && dist[start] == Some(0)
    requires Done(adj, start, dist, settled, heap)
    requires IsPath(adj, p) && p[0] == start && p[|p| - 1] !in settled
    ensures k < |p| && p[k] !in settled && p[k] in dist && dist[p[k]].Some?
    ensures dist[p[k]].value <= PathWeight(adj, p)
    decreases |p|
  {
    if |p| == 1 {
      k := 0;
    } else {
      var q := p[..|p| - 1];
      var y := q[|q| - 1];
      if y !in settled {
        k := Frontier(adj, start, dist, settled, heap, q);
        assert q[k] == p[k];
      } else {
        k := |p| - 1;
        assert Leads(adj, q, start, y);
        assert Lookup(adj, y, p[k]).Some?;
      }
    }
  }

  /** The popped entry, for a vertex not settled, carries that vertex's distance, and the
      distance is optimal. */
  lemma PopOptimal(adj: Adjacency, start: Vertex, dist: Dist, settled: set<Vertex>, heap: seq<HeapEntry>, i: nat)
    requires start in dist && dist[start] == Some(0)
    requires Queued(dist, settled, heap) && Above(dist, heap) && Done(adj, start, dist, settled, heap)
    requires heap != [] && i == FirstMin(Costs(heap, EntryCost)) && heap[i].node !in settled
    ensures dist[heap[i].node] == Some(heap[i].cost)
    ensures Optimal(adj, start, heap[i].node, heap[i].cost)
  {
    var u, c := heap[i].node, heap[i].cost;
    assert heap[i] in heap;
    var j :| 0 <= j < |heap| && heap[j] == HeapEntry(dist[u].value, u);
    assert Costs(heap, EntryCost)[i] <= Costs(heap, EntryCost)[j];
    forall p | Leads(adj, p, start, u)
      ensures c <= PathWeight(adj, p)
    {
      PathAbove(adj, start, dist, settled, heap, i, p);
    }
  }

  /** No path to the vertex of the first entry of least cost weighs less than that cost:
      the path leaves the settled vertices at a vertex waiting in the heap. */
  lemma PathAbove(adj: Adjacency, start: Vertex, dist: Dist, settled: set<Vertex>, heap: seq<HeapEntry>,
                  i: nat, p: seq<Vertex>)
    requires start in dist && dist[start] == Some(0)
    requires Queued(dist, settled, heap) && Done(adj, start, dist, settled, heap)
    requires heap != [] && i == FirstMin(Costs(heap, EntryCost)) && heap[i].node !in settled
    requires Leads(adj, p, start, heap[i].node)
    ensures heap[i].cost <= PathWeight(adj, p)
  {
    var k := Frontier(adj, start, dist, settled, heap, p);
    var j :| 0 <= j < |heap| && heap[j] == HeapEntry(dist[p[k]].value, p[k]);
    assert Costs(heap, EntryCost)[i] <= Costs(heap, EntryCost)[j];
  }

  /** Relaxing the edges of `u`, popped at cost `c` no less than the distance of any
      settled vertex, never lowers the distance of a settled vertex, of `u`, or of
      `start`. */
  lemma Untouched(adj: Adjacency, start: Vertex, u: Vertex, c: nat, dist: Dist, settled: set<Vertex>)
    requires start in dist && dist[start] == Some(0) && u in dist && dist[u] == Some(c)
    requires forall s :: s in settled ==> s in dist && dist[s].Some? && dist[s].value <= c
    ensures !Improves(adj, u, c, dist, start) && !Improves(adj, u, c, dist, u)
    ensures forall s :: s in settled ==> !Improves(adj, u, c, dist, s)
  {
  }

  /** A relaxation only lowers distances, and keeps them finite. */
  lemma Lowers(adj: Adjacency, u: Vertex, c: nat, dist: Dist, prev: Prev, dist': Dist, prev': Prev)
    requires MapsRelaxed(adj, u, c, dist, prev, dist', prev', if u in adj then adj[u].Keys else {})
    ensures forall v :: v in dist && dist[v].Some? ==> dist'[v].Some? && dist'[v].value <= dist[v].value
  {
  }

  /** An entry of the heap after relaxing is an entry of the heap before or one pushed for
      an improved neighbour. */
  lemma HeapOrigin(adj: Adjacency, u: Vertex, c: nat, dist: Dist, heap: seq<HeapEntry>, heap': seq<HeapEntry>,
                   done: set<Vertex>, e: HeapEntry)
    requires HeapRelaxed(adj, u, c, dist, heap, heap', done) && e in heap'
    ensures e in heap || (Improves(adj, u, c, dist, e.node) && e.cost == c + HopWeight(adj, u, e.node))
  {
    var j :| 0 <= j < |heap'| && heap'[j] == e;
    if j < |heap| {
      assert heap[j] == e;
    }
  }

  /** Settling `u`, popped at index `i` with the least cost `c`, and relaxing its edges
      keeps the invariant. */
  lemma SettleStep(adj: Adjacency, start: Vertex, goal: Vertex, dist: Dist, prev: Prev, heap0: seq<HeapEntry>,
                   settled: set<Vertex>, stamp: map<Vertex, nat>, i: nat, heap: seq<HeapEntry>, u: Vertex, c: nat,
                   dist': Dist, prev': Prev, heap': seq<HeapEntry>)
    requires Inv(adj, start, goal, dist, prev, heap0, settled, stamp)
    requires heap0 != [] && i == FirstMin(Costs(heap0, EntryCost)) && heap0[i] == HeapEntry(c, u) && heap == Remove(heap0, i)
    requires u !in settled && u != goal && u in adj && adj[u].Keys <= dist.Keys
    requires MapsRelaxed(adj, u, c, dist, prev, dist', prev', adj[u].Keys)
    requires HeapRelaxed(adj, u, c, dist, heap, heap', adj[u].Keys)
    ensures Inv(adj, start, goal, dist', prev', heap', settled + {u}, stamp[u := |settled|])
  {
    PopOptimal(adj, start, dist, settled, heap0, i);
    assert heap0[i] in heap0;
    forall e | e in heap0
      ensures c <= e.cost
    {
      var j :| 0 <= j < |heap0| && heap0[j] == e;
      assert Costs(heap0, EntryCost)[i] <= Costs(heap0, EntryCost)[j];
    }
    Untouched(adj, start, u, c, dist, settled);
    Lowers(adj, u, c, dist, prev, dist', prev');
    SettleQueued(adj, u, c, dist, prev, heap0, settled, i, heap, dist', prev', heap');
    SettleAbove(adj, u, c, dist, prev, heap0, heap, dist', prev', heap');
    SettleDone(adj, start, u, c, dist, prev, heap0, settled, heap, dist', prev', heap');
    SettleTree(adj, start, u, c, dist, prev, settled, stamp, dist', prev');
  }

  lemma SettleQueued(adj: Adjacency, u: Vertex, c: nat, dist: Dist, prev: Prev, heap0: seq<HeapEntry>,
                     settled: set<Vertex>, i: nat, heap: seq<HeapEntry>, dist': Dist, prev': Prev, heap': seq<HeapEntry>)
    requires Queued(dist, settled, heap0) && i < |heap0| && heap0[i].node == u && heap == Remove(heap0, i)
    requires u in adj
    requires MapsRelaxed(adj, u, c, dist, prev, dist', prev', adj[u].Keys)
    requires HeapRelaxed(adj, u, c, dist, heap, heap', adj[u].Keys)
    ensures Queued(dist', settled + {u}, heap')
  {
    forall v | v in dist' && v !in settled + {u} && dist'[v].Some?
      ensures HeapEntry(dist'[v].value, v) in heap'
    {
      if Improves(adj, u, c, dist, v) {
        assert v in ImprovedIn(adj, u, c, dist, adj[u].Keys);
      } else {
        assert HeapEntry(dist'[v].value, v) in heap;
        assert heap'[..|heap|] == heap;
      }
    }
  }

  lemma SettleAbove(adj: Adjacency, u: Vertex, c: nat, dist: Dist, prev: Prev, heap0: seq<HeapEntry>,
                    heap: seq<HeapEntry>, dist': Dist, prev': Prev, heap': seq<HeapEntry>)
    requires Above(dist, heap0) && forall e :: e in heap ==> e in heap0
    requires u in adj
    requires MapsRelaxed(adj, u, c, dist, prev, dist', prev', adj[u].Keys)
    requires HeapRelaxed(adj, u, c, dist, heap, heap', adj[u].Keys)
    requires forall v :: v in dist && dist[v].Some? ==> dist'[v].Some? && dist'[v].value <= dist[v].value
    ensures Above(dist', heap')
  {
    forall e | e in heap'
      ensures e.node in dist' && dist'[e.node].Some? && dist'[e.node].value <= e.cost
    {
      HeapOrigin(adj, u, c, dist, heap, heap', adj[u].Keys, e);
    }
  }

  lemma SettleDone(adj: Adjacency, start: Vertex, u: Vertex, c: nat, dist: Dist, prev: Prev, heap0: seq<HeapEntry>,
                   settled: set<Vertex>, heap: seq<HeapEntry>, dist': Dist, prev': Prev, heap': seq<HeapEntry>)
    requires Done(adj, start, dist, settled, heap0) && forall e :: e in heap ==> e in heap0
    requires u in adj && u in dist && dist[u] == Some(c) && Optimal(adj, start, u, c) && adj[u].Keys <= dist.Keys
    requires HeapEntry(c, u) in heap0 && forall e :: e in heap0 ==> c <= e.cost
    requires !Improves(adj, u, c, dist, u) && forall s :: s in settled ==> !Improves(adj, u, c, dist, s)
    requires MapsRelaxed(adj, u, c, dist, prev, dist', prev', adj[u].Keys)
    requires HeapRelaxed(adj, u, c, dist, heap, heap', adj[u].Keys)
    requires forall v :: v in dist && dist[v].Some? ==> dist'[v].Some? && dist'[v].value <= dist[v].value
    ensures Done(adj, start, dist', settled + {u}, heap')
  {
    forall s | s in settled + {u}
      ensures DoneAt(adj, start, dist', heap', s)
    {
      assert dist'[s] == dist[s];
      if s != u {
        assert DoneAt(adj, start, dist, heap0, s);
      }
      forall e | e in heap'
        ensures dist'[s].value <= e.cost
      {
        HeapOrigin(adj, u, c, dist, heap, heap', adj[u].Keys, e);
      }
      forall x | x in adj[s]
        ensures x in dist' && dist'[x].Some? && dist'[x].value <= dist'[s].value + HopWeight(adj, s, x)
      {
        if s != u {
          assert DoneAt(adj, start, dist, heap0, s);
        }
      }
    }
  }

  lemma SettleTree(adj: Adjacency, start: Vertex, u: Vertex, c: nat, dist: Dist, prev: Prev,
                   settled: set<Vertex>, stamp: map<Vertex, nat>, dist': Dist, prev': Prev)
    requires Tree(adj, start, dist, prev, settled, stamp) && u !in settled
    requires u in adj && u in dist && dist[u] == Some(c)
    requires !Improves(adj, u, c, dist, u) && forall s :: s in settled ==> !Improves(adj, u, c, dist, s)
    requires MapsRelaxed(adj, u, c, dist, prev, dist', prev', adj[u].Keys)
    ensures Tree(adj, start, dist', prev', settled + {u}, stamp[u := |settled|])
  {
    Restamp(settled, stamp, u, stamp[u := |settled|]);
    forall v | v in prev'
      ensures TreeAt(adj, start, dist', prev', settled + {u}, stamp[u := |settled|], v)
    {
      SettleTreeAt(adj, start, u, c, dist, prev, settled, stamp, dist', prev', v);
    }
  }

  /** Stamping a newly settled vertex with the number settled before it keeps the stamps
      below the number settled. */
  lemma Restamp(settled: set<Vertex>, stamp: map<Vertex, nat>, u: Vertex, stamp': map<Vertex, nat>)
    requires stamp.Keys == settled && (forall s :: s in stamp ==> stamp[s] < |settled|) && u !in settled
    requires stamp' == stamp[u := |settled|]
    ensures stamp'.Keys == settled + {u} && forall s :: s in stamp' ==> stamp'[s] < |settled + {u}|
  {
    assert |settled + {u}| == |settled| + 1;
  }

  lemma SettleTreeAt(adj: Adjacency, start: Vertex, u: Vertex, c: nat, dist: Dist, prev: Prev,
                     settled: set<Vertex>, stamp: map<Vertex, nat>, dist': Dist, prev': Prev, v: Vertex)
    requires stamp.Keys == settled && (forall s :: s in stamp ==> stamp[s] < |settled|) && u !in settled
    requires v in prev && TreeAt(adj, start, dist, prev, settled, stamp, v)
    requires u in adj && u in dist && dist[u] == Some(c)
    requires !Improves(adj, u, c, dist, u) && forall s :: s in settled ==> !Improves(adj, u, c, dist, s)
    requires MapsRelaxed(adj, u, c, dist, prev, dist', prev', adj[u].Keys)
    ensures v in prev' && TreeAt(adj, start, dist', prev', settled + {u}, stamp[u := |settled|], v)
  {
    if Improves(adj, u, c, dist, v) {
      assert v !in settled + {u};
      assert dist'[u] == dist[u];
    } else if prev[v].Some? {
      var y := prev[v].value;
      assert dist'[y] == dist[y];
    }
  }

  /** Popping an entry of a settled vertex changes nothing but the heap, and keeps the
      invariant. */
  lemma StaleStep(adj: Adjacency, start: Vertex, goal: Vertex, dist: Dist, prev: Prev, heap0: seq<HeapEntry>,
                  settled: set<Vertex>, stamp: map<Vertex, nat>, i: nat, heap: seq<HeapEntry>, u: Vertex, c: nat,
                  dist': Dist, prev': Prev, heap': seq<HeapEntry>)
    requires Inv(adj, start, goal, dist, prev, heap0, settled, stamp)
    requires i < |heap0| && heap0[i] == HeapEntry(c, u) && heap == Remove(heap0, i) && u in settled
    requires MapsRelaxed(adj, u, c, dist, prev, dist', prev', adj[u].Keys)
    requires HeapRelaxed(adj, u, c, dist, heap, heap', adj[u].Keys)
    ensures dist' == dist && prev' == prev && heap' == heap
    ensures Inv(adj, start, goal, dist, prev, heap, settled, stamp)
  {
    NothingImproves(adj, start, dist, settled, heap0, i, u, c);
    Unchanged(adj, u, c, dist, prev, heap, dist', prev', heap');
    PopKeeps(adj, start, goal, dist, prev, heap0, settled, stamp, i, heap);
  }

  /** An entry of a settled vertex finds every neighbour already at its best. */
  lemma NothingImproves(adj: Adjacency, start: Vertex, dist: Dist, settled: set<Vertex>, heap0: seq<HeapEntry>,
                        i: nat, u: Vertex, c: nat)
    requires Done(adj, start, dist, settled, heap0) && Above(dist, heap0)
    requires i < |heap0| && heap0[i] == HeapEntry(c, u) && u in settled
    ensures forall v :: !Improves(adj, u, c, dist, v)
  {
    assert heap0[i] in heap0;
    assert DoneAt(adj, start, dist, heap0, u);
  }

  /** A relaxation that improves nothing changes nothing. */
  lemma Unchanged(adj: Adjacency, u: Vertex, c: nat, dist: Dist, prev: Prev, heap: seq<HeapEntry>,
                  dist': Dist, prev': Prev, heap': seq<HeapEntry>)
    requires u in adj && forall v :: !Improves(adj, u, c, dist, v)
    requires MapsRelaxed(adj, u, c, dist, prev, dist', prev', adj[u].Keys)
    requires HeapRelaxed(adj, u, c, dist, heap, heap', adj[u].Keys)
    ensures dist' == dist && prev' == prev && heap' == heap
  {
    assert ImprovedIn(adj, u, c, dist, adj[u].Keys) == {};
    assert heap' == heap'[..|heap|];
  }

  /** Removing an entry of a settled vertex keeps the invariant. */
  lemma PopKeeps(adj: Adjacency, start: Vertex, goal: Vertex, dist: Dist, prev: Prev, heap0: seq<HeapEntry>,
                 settled: set<Vertex>, stamp: map<Vertex, nat>, i: nat, heap: seq<HeapEntry>)
    requires Inv(adj, start, goal, dist, prev, heap0, settled, stamp)
    requires i < |heap0| && heap0[i].node in settled && heap == Remove(heap0, i)
    ensures Inv(adj, start, goal, dist, prev, heap, settled, stamp)
  {
    forall s | s in settled
      ensures DoneAt(adj, start, dist, heap, s)
    {
      assert DoneAt(adj, start, dist, heap0, s);
    }
  }

  /** When the heap runs empty, the goal has no finite distance and no path from `start`
      reaches it. */
  lemma Unreachable(adj: Adjacency, start: Vertex, goal: Vertex, dist: Dist, prev: Prev,
                    settled: set<Vertex>, stamp: map<Vertex, nat>)
    requires Inv(adj, start, goal, dist, prev, [], settled, stamp)
    ensures goal in dist ==> dist[goal].None?
    ensures forall p :: !Leads(adj, p, start, goal)
  {
    forall p | Leads(adj, p, start, goal)
      ensures false
    {
      var k := Frontier(adj, start, dist, settled, [], p);
      assert false;
    }
  }

  /** The state before the first round: only `start` has a distance, 0, and it is the one
      entry of the heap. */
  lemma Initially(adj: Adjacency, start: Vertex, goal: Vertex, dist: Dist, prev: Prev)
    requires start in dist && dist[start] == Some(0)
    requires forall v :: v in dist && v != start ==> dist[v].None?
    requires forall v :: v in prev ==> v in dist && prev[v].None?
    ensures Inv(adj, start, goal, dist, prev, [HeapEntry(0, start)], {}, map[])
  {
    forall v | v in prev
      ensures TreeAt(adj, start, dist, prev, {}, map[], v)
    {
    }
  }

  /** Settling one more vertex leaves fewer to settle. */
  lemma Shrinks(keys: set<Vertex>, settled: set<Vertex>, u: Vertex)
    requires u in keys && u !in settled
    ensures |keys - (settled + {u})| < |keys - settled|
  {
    assert keys - settled == (keys - (settled + {u})) + {u};
  }

  /** A round that pops `heap0[i]` and relaxes its edges keeps the invariant: a stale entry
      changes nothing but the heap, which shrinks; a fresh one settles its vertex. */
  lemma Advance(adj: Adjacency, start: Vertex, goal: Vertex, dist: Dist, prev: Prev, heap0: seq<HeapEntry>,
                settled: set<Vertex>, stamp: map<Vertex, nat>, i: nat, heap: seq<HeapEntry>,
                dist': Dist, prev': Prev, heap': seq<HeapEntry>)
    returns (settled': set<Vertex>, stamp': map<Vertex, nat>)
    requires Inv(adj, start, goal, dist, prev, heap0, settled, stamp)
    requires heap0 != [] && i == FirstMin(Costs(heap0, EntryCost)) && heap == Remove(heap0, i)
    requires heap0[i].node != goal && heap0[i].node in adj && adj[heap0[i].node].Keys <= dist.Keys
    requires MapsRelaxed(adj, heap0[i].node, heap0[i].cost, dist, prev, dist', prev', adj[heap0[i].node].Keys)
    requires HeapRelaxed(adj, heap0[i].node, heap0[i].cost, dist, heap, heap', adj[heap0[i].node].Keys)
    ensures Inv(adj, start, goal, dist', prev', heap', settled', stamp')
    ensures settled' <= dist.Keys
    ensures |dist.Keys - settled'| < |dist.Keys - settled| || (settled' == settled && |heap'| < |heap0|)
  {
    var c, u := heap0[i].cost, heap0[i].node;
    if u in settled {
      StaleStep(adj, start, goal, dist, prev, heap0, settled, stamp, i, heap, u, c, dist', prev', heap');
      settled', stamp' := settled, stamp;
    } else {
      SettleStep(adj, start, goal, dist, prev, heap0, settled, stamp, i, heap, u, c, dist', prev', heap');
      settled', stamp' := settled + {u}, stamp[u := |settled|];
      assert heap0[i] in heap0;
      Shrinks(dist.Keys, settled, u);
    }
  }

  /** What one round of the search loop leads to. */
  datatype Outcome = Continue(dist: Dist, prev: Prev, heap: seq<HeapEntry>) | GoalPopped | Raised

  /** One round of the search loop (sim/dijkstra.py:13-23): pop the first entry of least
      cost; stop on the goal; otherwise relax the edges of the popped vertex. Each round
      keeps the invariant and settles a vertex or shrinks the heap. */
  method Round(g: Graph, start: Vertex, goal: Vertex, dist: Dist, prev: Prev, heap: seq<HeapEntry>,
               ghost settled: set<Vertex>, ghost stamp: map<Vertex, nat>)
    returns (r: Outcome, ghost settled': set<Vertex>, ghost stamp': map<Vertex, nat>)
    requires g.Valid() && heap != []
    requires prev.Keys == g.outgoing.Keys && dist.Keys == g.outgoing.Keys + {start}
    requires start in g.outgoing || heap == [HeapEntry(0, start)]
    requires Inv(g.outgoing, start, goal, dist, prev, heap, settled, stamp)
    ensures r.GoalPopped? ==> (start in g.outgoing || goal == start)
    ensures r.GoalPopped? ==> goal in dist && dist[goal].Some? && Optimal(g.outgoing, start, goal, dist[goal].value)
    ensures Closed(g.outgoing) && start in g.outgoing ==> !r.Raised?
    ensures r.Continue? ==>
      && start in g.outgoing && r.prev.Keys == g.outgoing.Keys && r.dist.Keys == dist.Keys
      && Inv(g.outgoing, start, goal, r.dist, r.prev, r.heap, settled', stamp')
      && settled' <= dist.Keys
      && (|dist.Keys - settled'| < |dist.Keys - settled| || (settled' == settled && |r.heap| < |heap|))
  {
    var i := FirstMin(Costs(heap, EntryCost));
    var u := heap[i].node;
    if u == goal {
      PopOptimal(g.outgoing, start, dist, settled, heap, i);
      return GoalPopped, settled, stamp;
    }
    r, settled', stamp' := Expand(g, start, goal, dist, prev, heap, settled, stamp, i);
  }

  /** The rest of a round, once the popped entry `heap[i]` is not the goal's: relax the
      edges of its vertex. */
  method Expand(g: Graph, start: Vertex, goal: Vertex, dist: Dist, prev: Prev, heap: seq<HeapEntry>,
                ghost settled: set<Vertex>, ghost stamp: map<Vertex, nat>, i: nat)
    returns (r: Outcome, ghost settled': set<Vertex>, ghost stamp': map<Vertex, nat>)
    requires g.Valid() && heap != [] && i == FirstMin(Costs(heap, EntryCost)) && heap[i].node != goal
    requires prev.Keys == g.outgoing.Keys && dist.Keys == g.outgoing.Keys + {start}
    requires start in g.outgoing || heap == [HeapEntry(0, start)]
    requires Inv(g.outgoing, start, goal, dist, prev, heap, settled, stamp)
    ensures r.GoalPopped? ==> false
    ensures Closed(g.outgoing) && start in g.outgoing ==> !r.Raised?
    ensures r.Continue? ==>
      && start in g.outgoing && r.prev.Keys == g.outgoing.Keys && r.dist.Keys == dist.Keys
      && Inv(g.outgoing, start, goal, r.dist, r.prev, r.heap, settled', stamp')
      && settled' <= dist.Keys
      && (|dist.Keys - settled'| < |dist.Keys - settled| || (settled' == settled && |r.heap| < |heap|))
  {
    var adj := g.outgoing;
    var c, u := heap[i].cost, heap[i].node;
    var rest := Remove(heap, i);
    settled', stamp' := settled, stamp;
    assert heap[i] in heap;
    r := Raised;
    if g.Neighbors(u).Ok? {
      assert start in adj && dist.Keys == adj.Keys;
      var relaxed := Relax(g, u, c, dist, prev, rest);
      if relaxed.Ok? {
        var (dist', prev', heap') := relaxed.value;
        settled', stamp' := Advance(adj, start, goal, dist, prev, heap, settled, stamp, i, rest, dist', prev', heap');
        r := Continue(dist', prev', heap');
      }
    }
  }

  /** The dictionaries before the loop (sim/dijkstra.py:7-9): every vertex unreached and
      without predecessor, then `start` at distance 0. */
  method Initialise(g: Graph, start: Vertex, ghost goal: Vertex) returns (dist: Dist, prev: Prev)
    requires g.Valid()
    ensures prev.Keys == g.outgoing.Keys && dist.Keys == g.outgoing.Keys + {start}
    ensures Inv(g.outgoing, start, goal, dist, prev, [HeapEntry(0, start)], {}, map[])
  {
    dist := map v | v in g.Vertices() :: None;
    prev := map v | v in g.Vertices() :: None;
    assert dist.Keys == prev.Keys == g.outgoing.Keys;
    dist := dist[start := Some(0)];
    Initially(g.outgoing, start, goal, dist, prev);
  }

  /** The search loop of `dijkstra_shortest_path` (sim/dijkstra.py:7-23): it ends when the
      goal is popped (`found`), with the goal's distance optimal, or when the heap runs
      empty, with no path reaching the goal. */
  method Search(g: Graph, start: Vertex, goal: Vertex)
    returns (r: Result<(Dist, Prev), KeyError>, ghost found: bool, ghost settled: set<Vertex>, ghost stamp: map<Vertex, nat>)
    requires g.Valid()
    ensures start !in g.outgoing && r.Ok? ==> goal == start
    ensures Closed(g.outgoing) && start in g.outgoing ==> r.Ok?
    ensures r.Ok? ==>
      var (dist, prev) := r.value;
      && prev.Keys == g.outgoing.Keys && start in dist && dist[start] == Some(0)
      && goal !in settled && settled <= prev.Keys
      && Tree(g.outgoing, start, dist, prev, settled, stamp)
      && (found ==> goal in dist && dist[goal].Some? && Optimal(g.outgoing, start, goal, dist[goal].value))
      && (!found ==> (goal in dist ==> dist[goal].None?) && forall p :: !Leads(g.outgoing, p, start, goal))
  {
    var adj := g.outgoing;
    var dist, prev := Initialise(g, start, goal);
    var heap := [HeapEntry(0, start)];
    settled, stamp, found := {}, map[], false;
    r := Ok((dist, prev));
    while heap != []
      invariant prev.Keys == adj.Keys && dist.Keys == adj.Keys + {start}
      invariant start in adj || heap == [HeapEntry(0, start)]
      invariant Inv(adj, start, goal, dist, prev, heap, settled, stamp)
      decreases |dist.Keys - settled|, |heap|
    {
      var round, settled', stamp' := Round(g, start, goal, dist, prev, heap, settled, stamp);
      if round.GoalPopped? {
        found := true;
        break;
      } else if round.Raised? {
        r := Err(KeyError);
        break;
      }
      dist, prev, heap, settled, stamp := round.dist, round.prev, round.heap, settled', stamp';
    }
    if r.Ok? {
      if !found {
        Unreachable(adj, start, goal, dist, prev, settled, stamp);
      }
      r := Ok((dist, prev));
    }
  }

  /** The read-back through `prev` (sim/dijkstra.py:25-31): from `goal`, predecessors are
      prepended until one is `None`; the result is a path from `start` whose weight is
      the goal's distance. */
  method PathBack(prev: Prev, goal: Vertex, ghost adj: Adjacency, ghost start: Vertex, ghost dist: Dist,
                  ghost settled: set<Vertex>, ghost stamp: map<Vertex, nat>) returns (path: seq<Vertex>)
    requires Tree(adj, start, dist, prev, settled, stamp)
    requires start in dist && dist[start] == Some(0)
    requires goal in prev && goal !in settled && goal in dist && dist[goal].Some? && settled <= prev.Keys
    ensures Leads(adj, path, start, goal) && PathWeight(adj, path) == dist[goal].value
  {
    path := [];
    var cur: Option<Vertex> := Some(goal);
    while cur.Some?
      invariant cur.Some? ==> cur.value in prev && (cur.value == goal || cur.value in settled)
      invariant path == [] ==> cur == Some(goal)
      invariant path != [] ==> path[0] in prev && prev[path[0]] == cur
      invariant path != [] ==>
        && IsPath(adj, path) && path[|path| - 1] == goal && path[0] in dist && dist[path[0]].Some?
        && dist[path[0]].value + PathWeight(adj, path) == dist[goal].value
      decreases if cur.None? then 0 else if cur.value in stamp then stamp[cur.value] + 1 else |settled| + 1
    {
      var x := cur.value;
      assert TreeAt(adj, start, dist, prev, settled, stamp, x);
      if path != [] {
        assert TreeAt(adj, start, dist, prev, settled, stamp, path[0]);
        Cons(adj, x, path);
      }
      path := [x] + path;
      cur := prev[x];
    }
    assert TreeAt(adj, start, dist, prev, settled, stamp, path[0]);
  }

  /** `dijkstra_shortest_path(graph, start, goal)`: `None` when no path leads from `start`
      to `goal`, otherwise a path of least weight and that weight. `start` or `goal` not
      being a vertex makes `neighbors` or `prev[goal]` raise `KeyError`, and so does a
      neighbour that is not a vertex. */
  method DijkstraShortestPath(g: Graph, start: Vertex, goal: Vertex) returns (r: Result<Option<(seq<Vertex>, nat)>, KeyError>)
    requires g.Valid()
    ensures start !in g.outgoing || goal !in g.outgoing ==> r.Err?
    ensures Closed(g.outgoing) && start in g.outgoing && goal in g.outgoing ==> r.Ok?
    ensures r.Ok? && r.value.Some? ==>
      var (path, cost) := r.value.value;
      Leads(g.outgoing, path, start, goal) && PathWeight(g.outgoing, path) == cost && Optimal(g.outgoing, start, goal, cost)
    ensures r.Ok? && r.value.None? ==> forall p :: !Leads(g.outgoing, p, start, goal)
  {
    var searched, found, settled, stamp := Search(g, start, goal);
    if searched.Err? {
      return Err(KeyError);
    }
    var (dist, prev) := searched.value;
    if goal !in prev {
      return Err(KeyError);
    }
    assert TreeAt(g.outgoing, start, dist, prev, settled, stamp, goal);
    if prev[goal].Some? || goal == start {
      var path := PathBack(prev, goal, g.outgoing, start, dist, settled, stamp);
      return Ok(Some((path, dist[goal].value)));
    }
    return Ok(None);
  }
}
