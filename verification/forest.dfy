/** The disjoint-set forest that both Kruskal implementations build in local dictionaries
    (model/graph.py:64-78 and sim/kruskal.py:4-23): `parent` maps every vertex to its parent,
    a root being its own parent. This module holds the theory of such forests. */
module Forests {
  import opened Vertices

  type Parents = map<Vertex, Vertex>
  type Levels = map<Vertex, nat>

  /** `parent` is a forest over its keys whose levels strictly increase from child to parent.
      Union by rank keeps its ranks such a levelling; plain linking is given a ghost one. */
  ghost predicate Ranked(parent: Parents, level: Levels)
  {
    && parent.Keys == level.Keys
    && parent.Values <= parent.Keys
    && (forall x {:trigger parent[x]} :: x in parent && parent[x] != x ==> level[x] < level[parent[x]])
  }

  /** A bound on every level: the measure that makes walks towards a root end. */
  ghost function Ceiling(level: Levels): (t: nat)
    ensures forall y :: y in level ==> level[y] <= t
    decreases |level|
  {
    if level == map[] then 0
    else
      var k :| k in level;
      var rest := Ceiling(level - {k});
      assert forall y :: y in level && y != k ==> y in level - {k} && level[y] == (level - {k})[y];
      if level[k] > rest then level[k] else rest
  }

  /** The root reached from `x` by following parents. */
  ghost function Root(parent: Parents, level: Levels, x: Vertex): (r: Vertex)
    requires Ranked(parent, level) && x in parent
    ensures r in parent && parent[r] == r
    decreases Ceiling(level) - level[x]
  {
    if parent[x] == x then x
    else
      Root(parent, level, parent[x])
  }

  /** The roots of the forest, one per set. */
  ghost function Roots(parent: Parents): set<Vertex>
  {
    set x | x in parent && parent[x] == x
  }

  /** The root of `x` does not depend on which levelling justifies the forest. */
  lemma {:induction false} RootLevelFree(parent: Parents, l1: Levels, l2: Levels, x: Vertex)
    requires Ranked(parent, l1) && Ranked(parent, l2) && x in parent
    ensures Root(parent, l1, x) == Root(parent, l2, x)
    decreases Ceiling(l1) - l1[x]
  {
    if parent[x] != x {
      RootLevelFree(parent, l1, l2, parent[x]);
    }
  }

  /** One step of path halving, `parent[u] = parent[parent[u]]`, keeps every root. */
  lemma {:induction false} HalvingKeepsRoot(parent: Parents, level: Levels, u: Vertex, y: Vertex)
    requires Ranked(parent, level) && u in parent && y in parent
    ensures Ranked(parent[u := parent[parent[u]]], level)
    ensures Root(parent[u := parent[parent[u]]], level, y) == Root(parent, level, y)
    decreases Ceiling(level) - level[y]
  {
    var p' := parent[u := parent[parent[u]]];
    assert Ranked(p', level);
    if parent[y] != y {
      HalvingKeepsRoot(parent, level, u, parent[y]);
      if y == u && parent[parent[u]] != parent[u] {
        HalvingKeepsRoot(parent, level, u, parent[parent[u]]);
      }
    }
  }

  /** Linking root `loser` under root `winner` sends exactly the loser's set to the winner. */
  lemma {:induction false} LinkRoot(parent: Parents, level: Levels, level': Levels, winner: Vertex, loser: Vertex, y: Vertex)
    requires Ranked(parent, level) && y in parent
    requires winner in parent && parent[winner] == winner
    requires loser in parent && parent[loser] == loser && winner != loser
    requires Ranked(parent[loser := winner], level')
    ensures Root(parent[loser := winner], level', y)
         == if Root(parent, level, y) == loser then winner else Root(parent, level, y)
    decreases Ceiling(level) - level[y]
  {
    if parent[y] != y {
      LinkRoot(parent, level, level', winner, loser, parent[y]);
    }
  }

  /** Linking root `loser` under root `winner` merges their two sets and drops one root. */
  lemma Link(parent: Parents, level: Levels, level': Levels, winner: Vertex, loser: Vertex)
    requires Ranked(parent, level)
    requires winner in parent && parent[winner] == winner
    requires loser in parent && parent[loser] == loser && winner != loser
    requires Ranked(parent[loser := winner], level')
    ensures forall y {:trigger Root(parent, level, y)} :: y in parent ==>
      Root(parent[loser := winner], level', y) == if Root(parent, level, y) == loser then winner else Root(parent, level, y)
    ensures Roots(parent[loser := winner]) == Roots(parent) - {loser}
  {
    forall y | y in parent
      ensures Root(parent[loser := winner], level', y) == if Root(parent, level, y) == loser then winner else Root(parent, level, y)
    {
      LinkRoot(parent, level, level', winner, loser, y);
    }
  }

  /** After a union of `u` and `v`: the sets of `u` and `v` became one, every other vertex
      kept its root, and the new root of that set is one of the two old roots. */
  ghost predicate MergedSets(parent: Parents, level: Levels, parent': Parents, level': Levels, u: Vertex, v: Vertex)
    requires Ranked(parent, level) && Ranked(parent', level') && parent'.Keys == parent.Keys
    requires u in parent && v in parent
  {
    var ru, rv := Root(parent, level, u), Root(parent, level, v);
    && (Root(parent', level', u) == ru || Root(parent', level', u) == rv)
    && forall y {:trigger Root(parent', level', y)} {:trigger Root(parent, level, y)} :: y in parent ==>
         Root(parent', level', y)
         == if Root(parent, level, y) == ru || Root(parent, level, y) == rv then Root(parent', level', u)
            else Root(parent, level, y)
  }
}
