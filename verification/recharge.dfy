/** `dijkstra_with_recharge` of sim/dijkstra.py: a cheapest-first search over states
    `(node, battery, recs)`. The battery starts full; an edge heavier than the autonomy is
    never taken; entering a recharge node not yet used on the way refills the battery
    before the edge's weight is taken off, and marks the node used; a move that would
    leave the battery negative is dropped. The cost adds up every weight walked. A popped
    state already recorded at no greater cost is skipped; the first popped state at the
    goal ends the search. */
module Recharge {
  import opened Wrappers
  import opened Vertices
  import opened Edges
  import opened Graphs
  import opened Paths
  import opened Heaps

  /** A search state, the key `(u, battery, recs)` of `visited`. */
  datatype State = State(node: Vertex, battery: int, recs: set<Vertex>)

  /** A heap entry `(cost, counter, node, battery, recs, path)`. */
  datatype Item = Item(cost: nat, tag: nat, node: Vertex, battery: int, recs: set<Vertex>, path: seq<Vertex>)
  {
    /** The state the entry stands for. */
    function Key(): State
    {
      State(node, battery, recs)
    }
  }

  /** The state the search starts from: full battery, no recharge node used. */
  function Initial(start: Vertex, autonomy: int): State
  {
    State(start, autonomy, {})
  }

  /** The move from `s` along an edge of weight `w` to `v` (sim/dijkstra.py:56-67), or
      `None` when the search drops it. */
  function Step(autonomy: int, recharge: set<Vertex>, s: State, v: Vertex, w: nat): (r: Option<State>)
    ensures r.Some? ==> r.value.node == v && w <= autonomy && 0 <= r.value.battery
    ensures r.Some? && v in recharge && v !in s.recs ==> r.value == State(v, autonomy - w, s.recs + {v})
    ensures r.Some? && !(v in recharge && v !in s.recs) ==> r.value == State(v, s.battery - w, s.recs)
    ensures r.None? <==> w > autonomy || (!(v in recharge && v !in s.recs) && s.battery < w)
  {
    if w > autonomy then None
    else
      var battery := if v in recharge && v !in s.recs then autonomy else s.battery;
      var recs := if v in recharge && v !in s.recs then s.recs + {v} else s.recs;
      if battery - w < 0 then None else Some(State(v, battery - w, recs))
  }

  /** The state the search reaches by walking `p` from its first vertex, or `None` when a
      move along it is dropped. */
  function Replay(adj: Adjacency, autonomy: int, recharge: set<Vertex>, p: seq<Vertex>): Option<State>
    requires IsPath(adj, p)
    decreases |p|
  {
    if |p| == 1 then Some(Initial(p[0], autonomy))
    else
      match Replay(adj, autonomy, recharge, p[..|p| - 1])
      case None => None
      case Some(s) => Step(autonomy, recharge, s, p[|p| - 1], HopWeight(adj, p[|p| - 2], p[|p| - 1]))
  }

  /** Walking one more edge. */
  lemma ReplaySnoc(adj: Adjacency, autonomy: int, recharge: set<Vertex>, p: seq<Vertex>, x: Vertex)
    requires IsPath(adj, p) && Lookup(adj, p[|p| - 1], x).Some?
    ensures IsPath(adj, p + [x]) && PathWeight(adj, p + [x]) == PathWeight(adj, p) + HopWeight(adj, p[|p| - 1], x)
    ensures Replay(adj, autonomy, recharge, p + [x]) ==
      match Replay(adj, autonomy, recharge, p)
      case None => None
      case Some(s) => Step(autonomy, recharge, s, x, HopWeight(adj, p[|p| - 1], x))
  {
    Snoc(adj, p, x);
  }

  /** A path the search can walk from `start` to `goal`. */
  ghost predicate Feasible(adj: Adjacency, autonomy: int, recharge: set<Vertex>, start: Vertex, goal: Vertex, q: seq<Vertex>)
  {
    Leads(adj, q, start, goal) && Replay(adj, autonomy, recharge, q).Some?
  }

  /** The recharge nodes among `xs`. */
  function RechargesIn(recharge: set<Vertex>, xs: seq<Vertex>): set<Vertex>
  {
    set x | x in xs && x in recharge
  }

  /** The step that entered the last recharge node of `p` that was not used before on `p`
      (the first vertex does not count as used), or 0 when there is none: the battery was
      last refilled there. */
  function RefillStep(recharge: set<Vertex>, p: seq<Vertex>): (k: nat)
    requires |p| >= 1
    ensures k <= |p| - 1
    decreases |p|
  {
    if |p| == 1 then 0
    else if p[|p| - 1] in recharge && p[|p| - 1] !in p[1..|p| - 1] then |p| - 2
    else RefillStep(recharge, p[..|p| - 1])
  }

  /** What a walk leads to: it ends on the last vertex of the path; the recharge nodes used
      are those entered after the first vertex, each refilling once; the battery is the
      autonomy less the weight walked since the last refill; no edge walked is heavier
      than the autonomy. */
  lemma {:induction false} ReplayState(adj: Adjacency, autonomy: int, recharge: set<Vertex>, p: seq<Vertex>)
    requires IsPath(adj, p) && Replay(adj, autonomy, recharge, p).Some?
    ensures var s := Replay(adj, autonomy, recharge, p).value;
      && s.node == p[|p| - 1]
      && s.recs == RechargesIn(recharge, p[1..])
      && s.battery == autonomy - HopSum(adj, p, RefillStep(recharge, p))
      && (|p| > 1 ==> 0 <= s.battery <= autonomy)
      && forall k :: 0 < k < |p| ==> Lookup(adj, p[k - 1], p[k]).Some? && HopWeight(adj, p[k - 1], p[k]) <= autonomy
    decreases |p|
  {
    var s := Replay(adj, autonomy, recharge, p).value;
    if |p| == 1 {
      assert p[1..] == [];
    } else {
      var q := p[..|p| - 1];
      var x := p[|p| - 1];
      ReplayState(adj, autonomy, recharge, q);
      var s' := Replay(adj, autonomy, recharge, q).value;
      assert p[1..] == q[1..] + [x];
      assert q[1..] == p[1..|p| - 1];
      assert RechargesIn(recharge, p[1..]) ==
        RechargesIn(recharge, q[1..]) + (if x in recharge then {x} else {});
      if x in recharge && x !in s'.recs {
        assert HopSum(adj, q, |p| - 2) == 0;
      }
      forall k | 0 < k < |p|
        ensures Lookup(adj, p[k - 1], p[k]).Some? && HopWeight(adj, p[k - 1], p[k]) <= autonomy
      {
        if k < |p| - 1 {
          assert p[k - 1] == q[k - 1] && p[k] == q[k];
        }
      }
    }
  }

  // ---------------------------------------------------------------------------------
  // The states the search can meet form a finite set.

  /** Every subset of the elements of `xs`. */
  ghost function Subsets(xs: seq<Vertex>): set<set<Vertex>>
    decreases |xs|
  {
    if xs == [] then {{}}
    else
      var rest := Subsets(xs[1..]);
      rest + set r | r in rest :: r + {xs[0]}
  }

  lemma {:induction false} SubsetIn(xs: seq<Vertex>, r: set<Vertex>)
    requires forall x :: x in r ==> x in xs
    ensures r in Subsets(xs)
    decreases |xs|
  {
    if xs == [] {
      assert r == {};
    } else {
      var rest := Subsets(xs[1..]);
      if xs[0] in r {
        var r' := r - {xs[0]};
        forall x | x in r'
          ensures x in xs[1..]
        {
          var k :| 0 <= k < |xs| && xs[k] == x;
          assert k != 0;
          assert xs[1..][k - 1] == x;
        }
        SubsetIn(xs[1..], r');
        assert r == r' + {xs[0]};
      } else {
        forall x | x in r
          ensures x in xs[1..]
        {
          var k :| 0 <= k < |xs| && xs[k] == x;
          assert k != 0;
          assert xs[1..][k - 1] == x;
        }
        SubsetIn(xs[1..], r);
      }
    }
  }

  /** `set(recharge_nodes)`. */
  function Elements(xs: seq<Vertex>): set<Vertex>
  {
    set x | x in xs
  }

  /** `start` and every vertex an edge leads to. */
  ghost function Nodes(adj: Adjacency, start: Vertex): set<Vertex>
  {
    {start} + set a, b | a in adj && b in adj[a] :: b
  }

  /** The least battery a state can hold. */
  function Lowest(autonomy: int): int
  {
    if autonomy < 0 then autonomy else 0
  }

  /** Every state over the nodes of the graph, the batteries up to the autonomy, and the
      sets of recharge nodes. */
  ghost function Universe(adj: Adjacency, start: Vertex, autonomy: int, rechargeNodes: seq<Vertex>): set<State>
  {
    set n, b, r | n in Nodes(adj, start) && Lowest(autonomy) <= b <= autonomy && r in Subsets(rechargeNodes) :: State(n, b, r)
  }

  /** Every state a walk from `start` reaches is in the universe. */
  lemma InUniverse(adj: Adjacency, autonomy: int, rechargeNodes: seq<Vertex>, start: Vertex, p: seq<Vertex>)
    requires IsPath(adj, p) && p[0] == start
    requires Replay(adj, autonomy, Elements(rechargeNodes), p).Some?
    ensures Replay(adj, autonomy, Elements(rechargeNodes), p).value in Universe(adj, start, autonomy, rechargeNodes)
  {
    var recharge := Elements(rechargeNodes);
    var s := Replay(adj, autonomy, recharge, p).value;
    ReplayState(adj, autonomy, recharge, p);
    if |p| > 1 {
      assert Lookup(adj, p[|p| - 2], p[|p| - 1]).Some?;
      assert s.node in Nodes(adj, start);
    } else {
      assert s == Initial(start, autonomy);
    }
    SubsetIn(rechargeNodes, s.recs);
  }
}
