/** The search loop of `dijkstra_with_recharge` (sim/dijkstra.py:35-71) over the states of
    module Recharge: a cheapest-first search whose heap entries are ordered by cost and then
    by push counter. The loop keeps a map `visited` from each expanded state to the cost it
    was popped at; the first popped state at the goal gives the answer. */
module RechargeSearch {
  import opened Wrappers
  import opened Vertices
  import opened Edges
  import opened Graphs
  import opened Paths
  import opened Heaps
  import opened Recharge

  /** The fixed inputs of one search: the adjacency map, the autonomy, the recharge nodes as
      a set and as given, the start and the goal. */
  datatype Problem = Problem(adj: Adjacency, autonomy: int, recharge: set<Vertex>, pool: seq<Vertex>,
                             start: Vertex, goal: Vertex)

  type Visited = map<State, nat>

  /** The state reached from `s` along its edge to `v`, or `None` when the move is dropped. */
  function Successor(P: Problem, s: State, v: Vertex): Option<State>
    requires Lookup(P.adj, s.node, v).Some?
  {
    Step(P.autonomy, P.recharge, s, v, HopWeight(P.adj, s.node, v))
  }

  /** Walking `q` from `start` ends in state `s`. */
  ghost predicate Reaches(P: Problem, q: seq<Vertex>, s: State)
  {
    IsPath(P.adj, q) && q[0] == P.start && Replay(P.adj, P.autonomy, P.recharge, q) == Some(s)
  }

  /** `path` is a walk the search can make from `start` to `goal`, it weighs `cost`, and no
      such walk weighs less. */
  ghost predicate Cheapest(P: Problem, path: seq<Vertex>, cost: nat)
  {
    && Feasible(P.adj, P.autonomy, P.recharge, P.start, P.goal, path) && cost == PathWeight(P.adj, path)
    && forall q :: Feasible(P.adj, P.autonomy, P.recharge, P.start, P.goal, q) ==> cost <= PathWeight(P.adj, q)
  }

  /** The first entry pushed, `(0, 0, start, autonomy, frozenset(), [start])`. */
  function Seed(P: Problem): Item
  {
    Item(0, 0, P.start, P.autonomy, {}, [P.start])
  }

  /** The cost an entry is ordered by first. */
  function ItemCost(e: Item): nat
  {
    e.cost
  }

  // ---------------------------------------------------------------------------------
  // The heap order. Entries are kept in push order; the counter makes every tuple
  // comparison stop before it reaches the vertex.

  /** Python's `<` on the entry tuples once the counters differ: cost first, then counter. */
  predicate Precedes(a: Item, b: Item)
  {
    a.cost < b.cost || (a.cost == b.cost && a.tag < b.tag)
  }

  /** The counters grow in push order and stay below the next one to hand out. */
  predicate Tagged(heap: seq<Item>, counter: nat)
  {
    && (forall j, k :: 0 <= j < k < |heap| ==> heap[j].tag < heap[k].tag)
    && (forall j :: 0 <= j < |heap| ==> heap[j].tag < counter)
  }

  /** The first entry of least cost is the one `heappop` returns: it precedes every other
      entry. */
  lemma PopOrder(heap: seq<Item>, counter: nat, i: nat)
    requires heap != [] && Tagged(heap, counter) && i == FirstMin(Costs(heap, ItemCost))
    ensures forall j :: 0 <= j < |heap| && j != i ==> Precedes(heap[i], heap[j])
  {
    forall j | 0 <= j < |heap| && j != i
      ensures Precedes(heap[i], heap[j])
    {
      assert Costs(heap, ItemCost)[i] <= Costs(heap, ItemCost)[j];
      if j < i {
        assert Costs(heap, ItemCost)[i] < Costs(heap, ItemCost)[j];
      }
    }
  }

  /** Removing an entry keeps the counters in order. */
  lemma TaggedRemove(heap: seq<Item>, counter: nat, i: nat)
    requires Tagged(heap, counter) && i < |heap|
    ensures Tagged(Remove(heap, i), counter)
  {
    var r := Remove(heap, i);
    forall j, k | 0 <= j < k < |r|
      ensures r[j].tag < r[k].tag
    {
      var j' := if j < i then j else j + 1;
      var k' := if k < i then k else k + 1;
      assert r[j] == heap[j'] && r[k] == heap[k'];
    }
  }

  // ---------------------------------------------------------------------------------
  // Expanding a popped entry: one push per neighbour whose move is kept.

  /** `x` is the entry that `e` pushes for neighbour `x.node`. */
  ghost predicate ChildOf(P: Problem, e: Item, x: Item)
  {
    && Lookup(P.adj, e.node, x.node).Some? && Successor(P, e.Key(), x.node) == Some(x.Key())
    && x.cost == e.cost + HopWeight(P.adj, e.node, x.node) && x.path == e.path + [x.node]
  }

  /** Some entry for state `t` costing at most `bound` is in the heap. */
  ghost predicate Waiting(heap: seq<Item>, t: State, bound: int)
  {
    exists x :: x in heap && x.Key() == t && x.cost <= bound
  }

  /** The heap and counter after expanding `e` towards the neighbours in `done`: entries
      were appended to `heap`, each a child of `e` with the next counter, and every kept
      move towards `done` has its entry. */
  ghost predicate Expanded(P: Problem, e: Item, heap: seq<Item>, counter: nat, heap': seq<Item>, counter': nat,
                           done: set<Vertex>)
  {
    && |heap| <= |heap'| && heap'[..|heap|] == heap && counter' == counter + (|heap'| - |heap|)
    && (forall j :: |heap| <= j < |heap'| ==> ChildOf(P, e, heap'[j]) && heap'[j].tag == counter + (j - |heap|))
    && (forall v :: v in done && Lookup(P.adj, e.node, v).Some? && Successor(P, e.Key(), v).Some? ==>
          Waiting(heap', Successor(P, e.Key(), v).value, e.cost + HopWeight(P.adj, e.node, v)))
  }

  /** Handling one more neighbour `v`: a kept move pushes its child, a dropped one
      nothing. */
  lemma ExpandStep(P: Problem, e: Item, heap: seq<Item>, counter: nat, h: seq<Item>, c: nat, done: set<Vertex>,
                   v: Vertex, x: Item, h': seq<Item>, c': nat)
    requires Expanded(P, e, heap, counter, h, c, done)
    requires v !in done && Lookup(P.adj, e.node, v).Some?
    requires Successor(P, e.Key(), v).None? ==> h' == h && c' == c
    requires Successor(P, e.Key(), v).Some? ==> h' == h + [x] && c' == c + 1 && x.node == v && x.tag == c && ChildOf(P, e, x)
    ensures Expanded(P, e, heap, counter, h', c', done + {v})
  {
    if Successor(P, e.Key(), v).Some? {
      assert h'[..|heap|] == h[..|heap|];
      assert h'[|h|] == x;
      forall j | |heap| <= j < |h'|
        ensures ChildOf(P, e, h'[j]) && h'[j].tag == counter + (j - |heap|)
      {
        if j < |h| {
          assert h'[j] == h[j];
        }
      }
      forall u | u in done + {v} && Lookup(P.adj, e.node, u).Some? && Successor(P, e.Key(), u).Some?
        ensures Waiting(h', Successor(P, e.Key(), u).value, e.cost + HopWeight(P.adj, e.node, u))
      {
        if u == v {
          assert x in h';
        } else {
          var y :| y in h && y.Key() == Successor(P, e.Key(), u).value && y.cost <= e.cost + HopWeight(P.adj, e.node, u);
          assert y in h';
        }
      }
    }
  }

  /** The body of `for v in graph.neighbors(u)`: an edge heavier than the autonomy is
      skipped; entering an unused recharge node refills the battery and marks the node;
      the weight is taken off, a negative battery drops the move, and otherwise the child
      `(cost + w, next(unique), v, next_battery, next_recs, path + [v])` is pushed. */
  method PushChild(g: Graph, P: Problem, e: Item, ghost heap: seq<Item>, ghost counter: nat, ghost done: set<Vertex>,
                   v: Vertex, h: seq<Item>, c: nat)
    returns (h': seq<Item>, c': nat)
    requires g.Valid() && P.adj == g.outgoing && e.node in g.outgoing && v in g.outgoing[e.node] && v !in done
    requires Expanded(P, e, heap, counter, h, c, done)
    ensures Expanded(P, e, heap, counter, h', c', done + {v})
  {
    var w := g.GetEdge(e.node, v).value.weight;
    assert w == HopWeight(P.adj, e.node, v);
    h', c' := h, c;
    ghost var x := e;
    if w <= P.autonomy {
      var battery, recs := e.battery, e.recs;
      if v in P.recharge && v !in e.recs {
        battery, recs := P.autonomy, e.recs + {v};
      }
      battery := battery - w;
      if battery >= 0 {
        var child := Item(e.cost + w, c, v, battery, recs, e.path + [v]);
        h', c', x := h + [child], c + 1, child;
      }
    }
    ExpandStep(P, e, heap, counter, h, c, done, v, x, h', c');
  }

  /** The loop over the neighbours of a popped entry's vertex, in an order the model leaves
      open. */
  method Expand(g: Graph, P: Problem, e: Item, heap: seq<Item>, counter: nat) returns (heap': seq<Item>, counter': nat)
    requires g.Valid() && P.adj == g.outgoing && e.node in g.outgoing
    ensures Expanded(P, e, heap, counter, heap', counter', P.adj[e.node].Keys)
  {
    var todo := g.Neighbors(e.node).value;
    heap', counter' := heap, counter;
    assert heap'[..|heap|] == heap;
    while todo != {}
      invariant todo <= P.adj[e.node].Keys
      invariant Expanded(P, e, heap, counter, heap', counter', P.adj[e.node].Keys - todo)
      decreases todo
    {
      var v :| v in todo;
      ghost var done := P.adj[e.node].Keys - todo;
      todo := todo - {v};
      assert P.adj[e.node].Keys - todo == done + {v};
      heap', counter' := PushChild(g, P, e, heap, counter, done, v, heap', counter');
    }
    assert P.adj[e.node].Keys - todo == P.adj[e.node].Keys;
  }

  /** The counters handed out by an expansion continue those already in the heap. */
  lemma TaggedExpanded(P: Problem, e: Item, heap: seq<Item>, counter: nat, heap': seq<Item>, counter': nat,
                       done: set<Vertex>)
    requires Tagged(heap, counter) && Expanded(P, e, heap, counter, heap', counter', done)
    ensures Tagged(heap', counter')
  {
    forall j, k | 0 <= j < k < |heap'|
      ensures heap'[j].tag < heap'[k].tag
    {
      if k < |heap| {
        assert heap'[j] == heap[j] && heap'[k] == heap[k];
      } else if j < |heap| {
        assert heap'[j] == heap[j];
      }
    }
    forall j | 0 <= j < |heap'|
      ensures heap'[j].tag < counter'
    {
      if j < |heap| {
        assert heap'[j] == heap[j];
      }
    }
  }

  // ---------------------------------------------------------------------------------
  // The invariant of the main loop.

  /** An entry the search can produce: its path leads from `start` to its vertex, walks to
      its state, and weighs its cost. */
  ghost predicate Sound(P: Problem, x: Item)
  {
    Leads(P.adj, x.path, P.start, x.node) && Reaches(P, x.path, x.Key()) && x.cost == PathWeight(P.adj, x.path)
  }

  ghost predicate AllSound(P: Problem, heap: seq<Item>)
  {
    forall x :: x in heap ==> Sound(P, x)
  }

  /** Every recorded cost is at most `floor`, and every entry costs at least `floor`. */
  ghost predicate Floor(heap: seq<Item>, visited: Visited, floor: nat)
  {
    && (forall s :: s in visited ==> visited[s] <= floor)
    && (forall x :: x in heap ==> floor <= x.cost)
  }

  /** The move from recorded state `s`, at cost `c`, towards `v` was dropped, reached a
      recorded state, or has an entry costing at most `c + w` in the heap. */
  ghost predicate RelaxedTo(P: Problem, heap: seq<Item>, visited: Visited, s: State, c: nat, v: Vertex)
    requires Lookup(P.adj, s.node, v).Some?
  {
    var t := Successor(P, s, v);
    t.None? || t.value in visited || Waiting(heap, t.value, c + HopWeight(P.adj, s.node, v))
  }

  /** A recorded state is not at the goal, sits on a vertex, was recorded at the weight of
      its lightest walk from `start`, and had all its moves handled. */
  ghost predicate DoneAt(P: Problem, heap: seq<Item>, visited: Visited, s: State)
    requires s in visited
  {
    && s.node != P.goal && s.node in P.adj
    && (forall q :: Reaches(P, q, s) ==> visited[s] <= PathWeight(P.adj, q))
    && (forall v :: v in P.adj[s.node] ==> RelaxedTo(P, heap, visited, s, visited[s], v))
  }

  ghost predicate Done(P: Problem, heap: seq<Item>, visited: Visited)
  {
    forall s :: s in visited ==> DoneAt(P, heap, visited, s)
  }

  /** The initial state is recorded or waits in the heap at cost 0. */
  ghost predicate StartWaits(P: Problem, heap: seq<Item>, visited: Visited)
  {
    Initial(P.start, P.autonomy) in visited || Waiting(heap, Initial(P.start, P.autonomy), 0)
  }

  ghost predicate Inv(P: Problem, heap: seq<Item>, visited: Visited, floor: nat)
  {
    AllSound(P, heap) && Floor(heap, visited, floor) && Done(P, heap, visited) && StartWaits(P, heap, visited)
  }

  /** No state at the goal is ever recorded. */
  lemma Unvisited(P: Problem, heap: seq<Item>, visited: Visited, t: State)
    requires Done(P, heap, visited) && t.node == P.goal
    ensures t !in visited
  {
  }

  /** A walk from `start` to a state not recorded has an entry in the heap costing at most
      its weight: where the walk leaves the recorded states, the move out was handled. */
  lemma {:induction false} Frontier(P: Problem, heap: seq<Item>, visited: Visited, q: seq<Vertex>) returns (x: Item)
    requires StartWaits(P, heap, visited) && Done(P, heap, visited)
    requires IsPath(P.adj, q) && q[0] == P.start
    requires Replay(P.adj, P.autonomy, P.recharge, q).Some? && Replay(P.adj, P.autonomy, P.recharge, q).value !in visited
    ensures x in heap && x.cost <= PathWeight(P.adj, q)
    decreases |q|
  {
    var t := Replay(P.adj, P.autonomy, P.recharge, q).value;
    if |q| == 1 {
      assert t == Initial(P.start, P.autonomy);
      x :| x in heap && x.Key() == t && x.cost <= 0;
    } else {
      var p := q[..|q| - 1];
      var v := q[|q| - 1];
      var s := Replay(P.adj, P.autonomy, P.recharge, p).value;
      assert PathWeight(P.adj, q) == PathWeight(P.adj, p) + HopWeight(P.adj, p[|p| - 1], v);
      if s !in visited {
        x := Frontier(P, heap, visited, p);
      } else {
        assert s.node == p[|p| - 1];
        assert Reaches(P, p, s);
        assert DoneAt(P, heap, visited, s);
        assert RelaxedTo(P, heap, visited, s, visited[s], v);
        x :| x in heap && x.Key() == t && x.cost <= visited[s] + HopWeight(P.adj, s.node, v);
      }
    }
  }

  /** No walk from `start` to a state not recorded weighs less than the popped entry. */
  lemma PopBound(P: Problem, heap: seq<Item>, visited: Visited, i: nat, q: seq<Vertex>)
    requires StartWaits(P, heap, visited) && Done(P, heap, visited)
    requires heap != [] && i == FirstMin(Costs(heap, ItemCost))
    requires IsPath(P.adj, q) && q[0] == P.start
    requires Replay(P.adj, P.autonomy, P.recharge, q).Some? && Replay(P.adj, P.autonomy, P.recharge, q).value !in visited
    ensures heap[i].cost <= PathWeight(P.adj, q)
  {
    var x := Frontier(P, heap, visited, q);
    var j :| 0 <= j < |heap| && heap[j] == x;
    assert Costs(heap, ItemCost)[i] <= Costs(heap, ItemCost)[j];
  }

  /** A popped entry at the goal carries a cheapest feasible walk. */
  lemma GoalStep(P: Problem, heap: seq<Item>, visited: Visited, floor: nat, i: nat)
    requires Inv(P, heap, visited, floor) && heap != [] && i == FirstMin(Costs(heap, ItemCost))
    requires heap[i].node == P.goal
    ensures Cheapest(P, heap[i].path, heap[i].cost)
  {
    assert heap[i] in heap;
    forall q | Feasible(P.adj, P.autonomy, P.recharge, P.start, P.goal, q)
      ensures heap[i].cost <= PathWeight(P.adj, q)
    {
      Unvisited(P, heap, visited, Replay(P.adj, P.autonomy, P.recharge, q).value);
      PopBound(P, heap, visited, i, q);
    }
  }

  /** When the heap runs empty, no feasible walk reaches the goal. */
  lemma Exhausted(P: Problem, visited: Visited, floor: nat)
    requires Inv(P, [], visited, floor)
    ensures forall q :: !Feasible(P.adj, P.autonomy, P.recharge, P.start, P.goal, q)
  {
    forall q | Feasible(P.adj, P.autonomy, P.recharge, P.start, P.goal, q)
      ensures false
    {
      Unvisited(P, [], visited, Replay(P.adj, P.autonomy, P.recharge, q).value);
      var x := Frontier(P, [], visited, q);
      assert false;
    }
  }

  /** The heap and the records before the loop satisfy the invariant. */
  lemma Initially(P: Problem)
    ensures Inv(P, [Seed(P)], map[], 0) && Tagged([Seed(P)], 1)
  {
    assert Seed(P) in [Seed(P)];
  }

  /** An entry waiting for a state survives the removal of another state's entry and any
      later pushes. */
  lemma WaitingKept(heap0: seq<Item>, i: nat, heap': seq<Item>, t: State, b: int)
    requires i < |heap0| && Waiting(heap0, t, b)
    requires |heap0| - 1 <= |heap'| && heap'[..|heap0| - 1] == Remove(heap0, i)
    ensures t == heap0[i].Key() || Waiting(heap', t, b)
  {
    var x :| x in heap0 && x.Key() == t && x.cost <= b;
    if x != heap0[i] {
      assert x in Remove(heap0, i);
      assert x in heap';
    }
  }

  /** Popping `heap0[i]`, recording its state and pushing entries keeps every state
      recorded before done. */
  lemma DoneKeptAt(P: Problem, heap0: seq<Item>, visited: Visited, i: nat, heap': seq<Item>, visited': Visited, s: State)
    requires s in visited && DoneAt(P, heap0, visited, s)
    requires i < |heap0| && |heap0| - 1 <= |heap'| && heap'[..|heap0| - 1] == Remove(heap0, i)
    requires heap0[i].Key() in visited' && forall y :: y in visited ==> y in visited' && visited'[y] == visited[y]
    ensures s in visited' && DoneAt(P, heap', visited', s)
  {
    forall v | v in P.adj[s.node]
      ensures RelaxedTo(P, heap', visited', s, visited'[s], v)
    {
      assert RelaxedTo(P, heap0, visited, s, visited[s], v);
      var t := Successor(P, s, v);
      if t.Some? && t.value !in visited {
        WaitingKept(heap0, i, heap', t.value, visited[s] + HopWeight(P.adj, s.node, v));
      }
    }
  }

  lemma DoneKept(P: Problem, heap0: seq<Item>, visited: Visited, i: nat, heap': seq<Item>, visited': Visited)
    requires Done(P, heap0, visited)
    requires i < |heap0| && |heap0| - 1 <= |heap'| && heap'[..|heap0| - 1] == Remove(heap0, i)
    requires heap0[i].Key() in visited' && forall y :: y in visited ==> y in visited' && visited'[y] == visited[y]
    ensures forall s :: s in visited ==> DoneAt(P, heap', visited', s)
  {
    forall s | s in visited
      ensures DoneAt(P, heap', visited', s)
    {
      DoneKeptAt(P, heap0, visited, i, heap', visited', s);
    }
  }

  lemma StartKept(P: Problem, heap0: seq<Item>, visited: Visited, i: nat, heap': seq<Item>, visited': Visited)
    requires StartWaits(P, heap0, visited)
    requires i < |heap0| && |heap0| - 1 <= |heap'| && heap'[..|heap0| - 1] == Remove(heap0, i)
    requires heap0[i].Key() in visited' && visited.Keys <= visited'.Keys
    ensures StartWaits(P, heap', visited')
  {
    if Initial(P.start, P.autonomy) !in visited {
      WaitingKept(heap0, i, heap', Initial(P.start, P.autonomy), 0);
    }
  }

  /** Skipping a popped entry whose state is recorded at no greater cost keeps the
      invariant. */
  lemma SkipStep(P: Problem, heap: seq<Item>, visited: Visited, floor: nat, counter: nat, i: nat)
    requires Inv(P, heap, visited, floor) && Tagged(heap, counter) && i < |heap| && heap[i].Key() in visited
    ensures Inv(P, Remove(heap, i), visited, floor) && Tagged(Remove(heap, i), counter)
  {
    var rest := Remove(heap, i);
    assert rest[..|heap| - 1] == rest;
    DoneKept(P, heap, visited, i, rest, visited);
    StartKept(P, heap, visited, i, rest, visited);
    TaggedRemove(heap, counter, i);
  }

  /** The children of a sound entry are sound. */
  lemma ChildSound(P: Problem, e: Item, x: Item)
    requires Sound(P, e) && ChildOf(P, e, x)
    ensures Sound(P, x)
  {
    ReplaySnoc(P.adj, P.autonomy, P.recharge, e.path, x.node);
  }

  lemma VisitSound(P: Problem, e: Item, rest: seq<Item>, counter: nat, heap': seq<Item>, counter': nat, done: set<Vertex>)
    requires Sound(P, e) && AllSound(P, rest) && Expanded(P, e, rest, counter, heap', counter', done)
    ensures AllSound(P, heap')
  {
    forall x | x in heap'
      ensures Sound(P, x)
    {
      var j :| 0 <= j < |heap'| && heap'[j] == x;
      if j < |rest| {
        assert x == rest[j];
      } else {
        ChildSound(P, e, x);
      }
    }
  }

  lemma VisitFloor(P: Problem, heap: seq<Item>, visited: Visited, floor: nat, i: nat, heap': seq<Item>, counter: nat, counter': nat)
    requires Floor(heap, visited, floor) && heap != [] && i == FirstMin(Costs(heap, ItemCost)) && heap[i].node in P.adj
    requires Expanded(P, heap[i], Remove(heap, i), counter, heap', counter', P.adj[heap[i].node].Keys)
    ensures Floor(heap', visited[heap[i].Key() := heap[i].cost], heap[i].cost)
  {
    var rest := Remove(heap, i);
    assert heap[i] in heap;
    forall x | x in heap'
      ensures heap[i].cost <= x.cost
    {
      var j :| 0 <= j < |heap'| && heap'[j] == x;
      if j < |rest| {
        assert x == rest[j] && x in heap;
        var k :| 0 <= k < |heap| && heap[k] == x;
        assert Costs(heap, ItemCost)[i] <= Costs(heap, ItemCost)[k];
      }
    }
  }

  /** The popped state, not recorded before, is done once recorded and expanded. */
  lemma VisitDoneAt(P: Problem, heap: seq<Item>, visited: Visited, i: nat, heap': seq<Item>, counter: nat, counter': nat)
    requires StartWaits(P, heap, visited) && Done(P, heap, visited)
    requires heap != [] && i == FirstMin(Costs(heap, ItemCost)) && heap[i].Key() !in visited
    requires heap[i].node != P.goal && heap[i].node in P.adj
    requires Expanded(P, heap[i], Remove(heap, i), counter, heap', counter', P.adj[heap[i].node].Keys)
    ensures DoneAt(P, heap', visited[heap[i].Key() := heap[i].cost], heap[i].Key())
  {
    var e, visited' := heap[i], visited[heap[i].Key() := heap[i].cost];
    forall q | Reaches(P, q, e.Key())
      ensures e.cost <= PathWeight(P.adj, q)
    {
      PopBound(P, heap, visited, i, q);
    }
    forall v | v in P.adj[e.node]
      ensures RelaxedTo(P, heap', visited', e.Key(), e.cost, v)
    {
    }
  }

  /** The states the search can record. */
  ghost function Space(P: Problem): set<State>
  {
    Universe(P.adj, P.start, P.autonomy, P.pool)
  }

  /** Recording the popped state and expanding it keeps the invariant and records one more
      state of the finite space. */
  lemma Advance(P: Problem, heap: seq<Item>, visited: Visited, floor: nat, counter: nat, i: nat,
                heap': seq<Item>, counter': nat)
    requires P.recharge == Elements(P.pool)
    requires Inv(P, heap, visited, floor) && Tagged(heap, counter) && visited.Keys <= Space(P)
    requires heap != [] && i == FirstMin(Costs(heap, ItemCost)) && heap[i].Key() !in visited
    requires heap[i].node != P.goal && heap[i].node in P.adj
    requires Expanded(P, heap[i], Remove(heap, i), counter, heap', counter', P.adj[heap[i].node].Keys)
    ensures var visited' := visited[heap[i].Key() := heap[i].cost];
      && Inv(P, heap', visited', heap[i].cost) && Tagged(heap', counter') && visited'.Keys <= Space(P)
      && |Space(P) - visited'.Keys| < |Space(P) - visited.Keys|
  {
    AdvanceInv(P, heap, visited, floor, counter, i, heap', counter');
    TaggedRemove(heap, counter, i);
    TaggedExpanded(P, heap[i], Remove(heap, i), counter, heap', counter', P.adj[heap[i].node].Keys);
    assert heap[i] in heap;
    InSpace(P, heap[i]);
    Recorded(Space(P), visited, heap[i].Key(), heap[i].cost);
  }

  lemma AdvanceInv(P: Problem, heap: seq<Item>, visited: Visited, floor: nat, counter: nat, i: nat,
                   heap': seq<Item>, counter': nat)
    requires Inv(P, heap, visited, floor)
    requires heap != [] && i == FirstMin(Costs(heap, ItemCost)) && heap[i].Key() !in visited
    requires heap[i].node != P.goal && heap[i].node in P.adj
    requires Expanded(P, heap[i], Remove(heap, i), counter, heap', counter', P.adj[heap[i].node].Keys)
    ensures Inv(P, heap', visited[heap[i].Key() := heap[i].cost], heap[i].cost)
  {
    var e, rest, visited' := heap[i], Remove(heap, i), visited[heap[i].Key() := heap[i].cost];
    assert e in heap;
    assert heap'[..|heap| - 1] == rest;
    VisitSound(P, e, rest, counter, heap', counter', P.adj[e.node].Keys);
    VisitFloor(P, heap, visited, floor, i, heap', counter, counter');
    DoneKept(P, heap, visited, i, heap', visited');
    VisitDoneAt(P, heap, visited, i, heap', counter, counter');
    StartKept(P, heap, visited, i, heap', visited');
  }

  /** The state of a sound entry lies in the space. */
  lemma InSpace(P: Problem, x: Item)
    requires P.recharge == Elements(P.pool) && Sound(P, x)
    ensures x.Key() in Space(P)
  {
    InUniverse(P.adj, P.autonomy, P.pool, P.start, x.path);
  }

  /** Recording a state of a finite set `U` not recorded before leaves fewer to record. */
  lemma Recorded(U: set<State>, visited: Visited, k: State, c: nat)
    requires visited.Keys <= U && k in U && k !in visited
    ensures visited[k := c].Keys <= U && |U - visited[k := c].Keys| < |U - visited.Keys|
  {
    assert visited[k := c].Keys == visited.Keys + {k};
    assert U - visited.Keys == (U - visited[k := c].Keys) + {k};
  }

  /** With every neighbour stored as a vertex, every entry sits on a vertex. */
  lemma OnVertex(P: Problem, x: Item)
    requires Sound(P, x) && Closed(P.adj) && P.start in P.adj
    ensures x.node in P.adj
  {
    if |x.path| > 1 {
      assert Lookup(P.adj, x.path[|x.path| - 2], x.path[|x.path| - 1]).Some?;
    }
  }

  // ---------------------------------------------------------------------------------
  // The loop.

  /** What one round of the loop leads to. */
  datatype Outcome = Continue(heap: seq<Item>, visited: Visited, counter: nat) | Found(path: seq<Vertex>, cost: nat) | Raised

  /** The state after a round that goes on: the invariant holds again, and one more state
      was recorded or the heap shrank. */
  ghost predicate Proceeds(P: Problem, heap: seq<Item>, visited: Visited, r: Outcome, floor: nat)
    requires r.Continue?
  {
    && r.visited != map[] && P.start in P.adj && P.start != P.goal
    && Inv(P, r.heap, r.visited, floor) && Tagged(r.heap, r.counter) && r.visited.Keys <= Space(P)
    && (|Space(P) - r.visited.Keys| < |Space(P) - visited.Keys| || (r.visited == visited && |r.heap| < |heap|))
  }

  /** The rest of a round once the popped entry `heap[i]` is known to be new: record it;
      stop at the goal; otherwise expand it, which raises `KeyError` when its vertex is not
      in the graph. */
  method Visit(g: Graph, P: Problem, heap: seq<Item>, visited: Visited, counter: nat, ghost floor: nat, i: nat)
    returns (r: Outcome)
    requires g.Valid() && P.adj == g.outgoing && P.recharge == Elements(P.pool)
    requires heap != [] && i == FirstMin(Costs(heap, ItemCost)) && heap[i].Key() !in visited
    requires Inv(P, heap, visited, floor) && Tagged(heap, counter) && visited.Keys <= Space(P)
    requires visited == map[] ==> heap == [Seed(P)]
    requires visited != map[] ==> P.start in P.adj && P.start != P.goal
    ensures r.Found? ==> Cheapest(P, r.path, r.cost)
    ensures Closed(P.adj) && P.start in P.adj ==> !r.Raised?
    ensures visited == map[] && P.start == P.goal ==> r == Found([P.start], 0)
    ensures visited == map[] && P.start != P.goal && P.start !in P.adj ==> r == Raised
    ensures r.Continue? ==> Proceeds(P, heap, visited, r, heap[i].cost)
  {
    var e := heap[i];
    var visited' := visited[e.Key() := e.cost];
    assert e in heap;
    if Closed(P.adj) && P.start in P.adj {
      OnVertex(P, e);
    }
    if e.node == P.goal {
      GoalStep(P, heap, visited, floor, i);
      r := Found(e.path, e.cost);
    } else {
      r := Raised;
      if g.Neighbors(e.node).Ok? {
        var heap', counter' := Expand(g, P, e, Remove(heap, i), counter);
        Advance(P, heap, visited, floor, counter, i, heap', counter');
        r := Continue(heap', visited', counter');
      }
    }
  }

  /** One round of the loop (sim/dijkstra.py:45-69): pop the entry `heappop` returns; skip
      it when its state is recorded at no greater cost, otherwise visit it. */
  method Round(g: Graph, P: Problem, heap: seq<Item>, visited: Visited, counter: nat, ghost floor: nat)
    returns (r: Outcome, ghost floor': nat)
    requires g.Valid() && P.adj == g.outgoing && P.recharge == Elements(P.pool)
    requires heap != [] && Inv(P, heap, visited, floor) && Tagged(heap, counter) && visited.Keys <= Space(P)
    requires visited == map[] ==> heap == [Seed(P)]
    requires visited != map[] ==> P.start in P.adj && P.start != P.goal
    ensures r.Found? ==> Cheapest(P, r.path, r.cost)
    ensures Closed(P.adj) && P.start in P.adj ==> !r.Raised?
    ensures visited == map[] && P.start == P.goal ==> r == Found([P.start], 0)
    ensures visited == map[] && P.start != P.goal && P.start !in P.adj ==> r == Raised
    ensures r.Continue? ==> Proceeds(P, heap, visited, r, floor')
  {
    var i := FirstMin(Costs(heap, ItemCost));
    var e := heap[i];
    if e.Key() in visited && visited[e.Key()] <= e.cost {
      SkipStep(P, heap, visited, floor, counter, i);
      r, floor' := Continue(Remove(heap, i), visited, counter), floor;
    } else {
      assert e in heap;
      r := Visit(g, P, heap, visited, counter, floor, i);
      floor' := e.cost;
    }
  }

  /** `dijkstra_with_recharge(graph, start, goal, autonomy, recharge_nodes)`: the path and
      cost of a cheapest walk the battery allows from `start` to `goal`, or `None` (the
      `(None, float('inf'))` of the source) when there is none. `start` is its own answer
      at cost 0; otherwise a popped vertex that is not in the graph makes `neighbors`
      raise `KeyError`, which cannot happen when every neighbour is a vertex and `start`
      is one. */
  method DijkstraWithRecharge(g: Graph, start: Vertex, goal: Vertex, autonomy: int, rechargeNodes: seq<Vertex>)
    returns (r: Result<Option<(seq<Vertex>, nat)>, KeyError>)
    requires g.Valid()
    ensures r.Ok? && r.value.Some? ==>
      var (path, cost) := r.value.value;
      && Feasible(g.outgoing, autonomy, Elements(rechargeNodes), start, goal, path) && cost == PathWeight(g.outgoing, path)
      && forall q :: Feasible(g.outgoing, autonomy, Elements(rechargeNodes), start, goal, q) ==> cost <= PathWeight(g.outgoing, q)
    ensures r.Ok? && r.value.None? ==> forall q :: !Feasible(g.outgoing, autonomy, Elements(rechargeNodes), start, goal, q)
    ensures start == goal ==> r == Ok(Some(([start], 0)))
    ensures start != goal && start !in g.outgoing ==> r == Err(KeyError)
    ensures Closed(g.outgoing) && start in g.outgoing ==> r.Ok?
  {
    var recharge := Elements(rechargeNodes);
    var P := Problem(g.outgoing, autonomy, recharge, rechargeNodes, start, goal);
    var heap := [Item(0, 0, start, autonomy, {}, [start])];
    var counter := 1;
    var visited: Visited := map[];
    ghost var floor := 0;
    Initially(P);
    r := Ok(None);
    while heap != []
      invariant Inv(P, heap, visited, floor) && Tagged(heap, counter) && visited.Keys <= Space(P)
      invariant visited == map[] ==> heap == [Seed(P)]
      invariant visited != map[] ==> start in g.outgoing && start != goal
      decreases |Space(P) - visited.Keys|, |heap|
    {
      var round, floor' := Round(g, P, heap, visited, counter, floor);
      if round.Found? {
        r := Ok(Some((round.path, round.cost)));
        break;
      } else if round.Raised? {
        r := Err(KeyError);
        break;
      }
      heap, visited, counter, floor := round.heap, round.visited, round.counter, floor';
    }
    if r == Ok(None) {
      Exhausted(P, visited, floor);
    }
  }
}
