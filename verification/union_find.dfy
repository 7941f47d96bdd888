/** `find` and the two `union`s of the Kruskal implementations (model/graph.py:66-78,
    sim/kruskal.py:7-23) as operations on the parent forest: `find` halves the path it
    walks, `union` links one root under another. */
module UnionFind {
  import opened Vertices
  import opened Forests

  /** Linking the two roots found for `u` and `v` merges exactly their sets. */
  lemma LinkMerges(parent: Parents, level: Levels, found: Parents, parent': Parents, level': Levels,
                   u: Vertex, v: Vertex, winner: Vertex, loser: Vertex)
    requires Ranked(parent, level) && Ranked(found, level) && found.Keys == parent.Keys
    requires forall y {:trigger Root(found, level, y)} {:trigger Root(parent, level, y)} :: y in parent ==> Root(found, level, y) == Root(parent, level, y)
    requires Roots(found) == Roots(parent)
    requires u in parent && v in parent
    requires || (winner == Root(parent, level, u) && loser == Root(parent, level, v))
             || (winner == Root(parent, level, v) && loser == Root(parent, level, u))
    requires winner != loser && parent' == found[loser := winner]
    requires Ranked(parent', level')
    ensures MergedSets(parent, level, parent', level', u, v)
    ensures Root(parent', level', u) == winner
    ensures Roots(parent') == Roots(parent) - {loser}
  {
    Link(found, level, level', winner, loser);
  }

  /** The loop that starts both Kruskal implementations: every vertex becomes its own root,
      with rank 0 (model/graph.py keeps no ranks and ignores them). */
  method MakeSets(vertices: seq<Vertex>) returns (parent: Parents, rank: Levels)
    ensures parent.Keys == rank.Keys == set v | v in vertices
    ensures forall x :: x in parent ==> parent[x] == x && rank[x] == 0
    ensures Ranked(parent, rank) && Roots(parent) == parent.Keys
  {
    parent, rank := map[], map[];
    for i := 0 to |vertices|
      invariant parent.Keys == rank.Keys == set v | v in vertices[..i]
      invariant forall x :: x in parent ==> parent[x] == x && rank[x] == 0
    {
      parent := parent[vertices[i] := vertices[i]];
      rank := rank[vertices[i] := 0];
    }
    assert vertices[..|vertices|] == vertices;
  }

  /** `find(u)` with path halving: returns the root of `u`; the new parents reach the same
      roots from every vertex and have the same roots. */
  method Find(parent: Parents, ghost level: Levels, u: Vertex) returns (root: Vertex, parent': Parents)
    requires Ranked(parent, level) && u in parent
    ensures Ranked(parent', level) && parent'.Keys == parent.Keys
    ensures root == Root(parent, level, u) && parent'[root] == root
    ensures forall y {:trigger Root(parent', level, y)} {:trigger Root(parent, level, y)} :: y in parent ==> Root(parent', level, y) == Root(parent, level, y)
    ensures Roots(parent') == Roots(parent)
  {
    parent' := parent;
    root := u;
    while parent'[root] != root
      invariant Ranked(parent', level) && parent'.Keys == parent.Keys && root in parent'
      invariant forall y {:trigger Root(parent', level, y)} {:trigger Root(parent, level, y)} :: y in parent ==> Root(parent', level, y) == Root(parent, level, y)
      invariant forall y :: y in parent ==> (parent'[y] == y <==> parent[y] == y)
      invariant Root(parent', level, root) == Root(parent, level, u)
      decreases Ceiling(level) - level[root]
    {
      var before := parent';
      forall y | y in parent
        ensures Root(before[root := before[before[root]]], level, y) == Root(before, level, y)
      {
        HalvingKeepsRoot(before, level, root, y);
      }
      HalvingKeepsRoot(before, level, root, root);
      parent' := before[root := before[before[root]]];
      root := parent'[root];
    }
    assert Roots(parent') == Roots(parent);
  }

  /** The level raised so that root `winner` may take root `loser` as a child. */
  function Raise(level: Levels, winner: Vertex, loser: Vertex): (l: Levels)
    requires winner in level && loser in level
    ensures l.Keys == level.Keys && l[winner] > level[loser]
    ensures forall y :: y in level ==> l[y] >= level[y]
  {
    if level[winner] > level[loser] then level else level[winner := level[loser] + 1]
  }

  /** A root may take another root as a child once its level is above the other's, as long
      as no other level changes and its own does not fall. */
  lemma RaiseRanked(parent: Parents, level: Levels, level': Levels, winner: Vertex, loser: Vertex)
    requires Ranked(parent, level)
    requires winner in parent && parent[winner] == winner
    requires loser in parent && parent[loser] == loser && winner != loser
    requires level'.Keys == level.Keys && level'[winner] > level[loser] && level'[winner] >= level[winner]
    requires forall y :: y in level && y != winner ==> level'[y] == level[y]
    ensures Ranked(parent[loser := winner], level')
  {
  }

  /** `union(u, v)` of model/graph.py: the root of `v` goes under the root of `u`. The
      levelling is ghost: the root of `u` is raised above the root of `v` when needed. */
  method Union(parent: Parents, ghost level: Levels, u: Vertex, v: Vertex)
    returns (merged: bool, parent': Parents, ghost level': Levels)
    requires Ranked(parent, level) && u in parent && v in parent
    ensures Ranked(parent', level') && parent'.Keys == parent.Keys
    ensures merged <==> Root(parent, level, u) != Root(parent, level, v)
    ensures MergedSets(parent, level, parent', level', u, v)
    ensures merged ==> Root(parent', level', u) == Root(parent, level, u)
    ensures Roots(parent') == if merged then Roots(parent) - {Root(parent, level, v)} else Roots(parent)
    ensures |Roots(parent')| == if merged then |Roots(parent)| - 1 else |Roots(parent)|
  {
    var ru, p1 := Find(parent, level, u);
    var rv, p2 := Find(p1, level, v);
    if ru != rv {
      parent' := p2[rv := ru];
      level' := Raise(level, ru, rv);
      RaiseRanked(p2, level, level', ru, rv);
      LinkMerges(parent, level, p2, parent', level', u, v, ru, rv);
      merged := true;
    } else {
      parent', level', merged := p2, level, false;
    }
  }

  /** `union(u, v)` of sim/kruskal.py, by rank: the root of lower rank goes under the other;
      on equal ranks the root of `v` goes under the root of `u`, whose rank grows by one. */
  method UnionByRank(parent: Parents, rank: Levels, u: Vertex, v: Vertex)
    returns (merged: bool, parent': Parents, rank': Levels)
    requires Ranked(parent, rank) && u in parent && v in parent
    ensures Ranked(parent', rank') && parent'.Keys == parent.Keys
    ensures merged <==> Root(parent, rank, u) != Root(parent, rank, v)
    ensures MergedSets(parent, rank, parent', rank', u, v)
    ensures rank'.Keys == rank.Keys && forall y :: y in rank ==> rank'[y] >= rank[y]
    ensures !merged ==> rank' == rank && Roots(parent') == Roots(parent)
    ensures |Roots(parent')| == if merged then |Roots(parent)| - 1 else |Roots(parent)|
    ensures merged ==> LinkedByRank(parent, rank, parent', rank', Root(parent, rank, u), Root(parent, rank, v))
  {
    var ru, p1 := Find(parent, rank, u);
    var rv, p2 := Find(p1, rank, v);
    if ru == rv {
      merged, parent', rank' := false, p2, rank;
    } else {
      merged := true;
      parent', rank' := LinkByRank(parent, rank, p2, u, v, ru, rv);
    }
  }

  /** How union by rank links the roots `ru` and `rv`: the root of lower rank goes under the
      other; on a tie `rv` goes under `ru` and `ru` gains one rank. */
  ghost predicate LinkedByRank(parent: Parents, rank: Levels, parent': Parents, rank': Levels, ru: Vertex, rv: Vertex)
    requires ru in rank && rv in rank && ru in parent' && rv in parent'
  {
    if rank[ru] < rank[rv] then
      parent'[ru] == rv && rank' == rank && Roots(parent') == Roots(parent) - {ru}
    else if rank[ru] > rank[rv] then
      parent'[rv] == ru && rank' == rank && Roots(parent') == Roots(parent) - {rv}
    else
      parent'[rv] == ru && rank' == rank[ru := rank[ru] + 1] && Roots(parent') == Roots(parent) - {rv}
  }

  /** The linking step of `union` by rank: the root of lower rank goes under the other,
      and on a tie the root of `u` wins and gains one rank. */
  method LinkByRank(parent: Parents, rank: Levels, found: Parents, u: Vertex, v: Vertex, ru: Vertex, rv: Vertex)
    returns (parent': Parents, rank': Levels)
    requires Ranked(parent, rank) && Ranked(found, rank) && found.Keys == parent.Keys
    requires forall y {:trigger Root(found, rank, y)} {:trigger Root(parent, rank, y)} :: y in parent ==> Root(found, rank, y) == Root(parent, rank, y)
    requires Roots(found) == Roots(parent)
    requires u in parent && v in parent
    requires ru == Root(parent, rank, u) && rv == Root(parent, rank, v) && ru != rv
    requires found[ru] == ru && found[rv] == rv
    ensures Ranked(parent', rank') && parent'.Keys == parent.Keys
    ensures MergedSets(parent, rank, parent', rank', u, v)
    ensures rank'.Keys == rank.Keys && forall y :: y in rank ==> rank'[y] >= rank[y]
    ensures |Roots(parent')| == |Roots(parent)| - 1
    ensures LinkedByRank(parent, rank, parent', rank', ru, rv)
  {
    if rank[ru] < rank[rv] {
      parent', rank' := found[ru := rv], rank;
      RaiseRanked(found, rank, rank', rv, ru);
      LinkMerges(parent, rank, found, parent', rank', u, v, rv, ru);
      assert ru in Roots(parent);
    } else {
      parent' := found[rv := ru];
      rank' := if rank[ru] == rank[rv] then rank[ru := rank[ru] + 1] else rank;
      RaiseRanked(found, rank, rank', ru, rv);
      LinkMerges(parent, rank, found, parent', rank', u, v, ru, rv);
      assert rv in Roots(parent);
    }
  }
}
