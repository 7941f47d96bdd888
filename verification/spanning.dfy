/** The scan shared by both Kruskal implementations (model/graph.py:64-91 and
    sim/kruskal.py:3-35): sort the edges by weight, then keep an edge exactly when `union`
    of its endpoints reports two different sets. */
module Spanning {
  import opened Vertices
  import opened Edges
  import opened Forests
  import opened UnionFind
  import opened Sorting

  /** The sort key of an edge: its element, the weight. */
  function Weight(e: Edge): int
  {
    e.weight
  }

  function EdgeSet(s: seq<Edge>): set<Edge>
  {
    set e | e in s
  }

  /** `w` is a walk whose `k`-th step crosses edge `via[k]` of `es`, in either direction. */
  ghost predicate IsWalk(es: set<Edge>, w: seq<Vertex>, via: seq<Edge>)
  {
    |w| == |via| + 1 && forall k :: 0 <= k < |via| ==> via[k] in es && Joins(via[k], w[k], w[k + 1])
  }

  /** Some walk over `es` leads from `x` to `y`. */
  ghost predicate Connected(es: set<Edge>, x: Vertex, y: Vertex)
  {
    exists w, via :: IsWalk(es, w, via) && w[0] == x && w[|w| - 1] == y
  }

  lemma ConnectedSelf(es: set<Edge>, x: Vertex)
    ensures Connected(es, x, x)
  {
    assert IsWalk(es, [x], []);
  }

  lemma ConnectedByEdge(es: set<Edge>, e: Edge, x: Vertex, y: Vertex)
    requires e in es && Joins(e, x, y)
    ensures Connected(es, x, y)
  {
    assert IsWalk(es, [x, y], [e]);
  }

  lemma ConnectedMono(es: set<Edge>, fs: set<Edge>, x: Vertex, y: Vertex)
    requires es <= fs && Connected(es, x, y)
    ensures Connected(fs, x, y)
  {
    var w, via :| IsWalk(es, w, via) && w[0] == x && w[|w| - 1] == y;
    assert IsWalk(fs, w, via);
  }

  lemma ConnectedTrans(es: set<Edge>, x: Vertex, y: Vertex, z: Vertex)
    requires Connected(es, x, y) && Connected(es, y, z)
    ensures Connected(es, x, z)
  {
    var w1, via1 :| IsWalk(es, w1, via1) && w1[0] == x && w1[|w1| - 1] == y;
    var w2, via2 :| IsWalk(es, w2, via2) && w2[0] == y && w2[|w2| - 1] == z;
    var w, via := w1 + w2[1..], via1 + via2;
    forall k | 0 <= k < |via|
      ensures via[k] in es && Joins(via[k], w[k], w[k + 1])
    {
      if k < |via1| {
        assert via[k] == via1[k] && w[k] == w1[k] && w[k + 1] == w1[k + 1];
      } else {
        var j := k - |via1|;
        assert via[k] == via2[j];
        assert w[k] == w2[j] && w[k + 1] == w2[j + 1];
      }
    }
    assert IsWalk(es, w, via);
  }

  lemma ConnectedSym(es: set<Edge>, x: Vertex, y: Vertex)
    requires Connected(es, x, y)
    ensures Connected(es, y, x)
  {
    var w, via :| IsWalk(es, w, via) && w[0] == x && w[|w| - 1] == y;
    var w', via' := Reverse(w), Reverse(via);
    forall k | 0 <= k < |via'|
      ensures via'[k] in es && Joins(via'[k], w'[k], w'[k + 1])
    {
      var j := |via| - 1 - k;
      assert via'[k] == via[j] && w'[k] == w[j + 1] && w'[k + 1] == w[j];
    }
    assert IsWalk(es, w', via');
  }

  function Reverse<T>(s: seq<T>): (r: seq<T>)
    ensures |r| == |s| && forall i :: 0 <= i < |s| ==> r[i] == s[|s| - 1 - i]
  {
    if s == [] then [] else Reverse(s[1..]) + [s[0]]
  }

  /** The classes of the forest contain the edges of `es`: both ends share a root. */
  ghost predicate EdgesWithin(parent: Parents, level: Levels, es: set<Edge>)
    requires Ranked(parent, level)
  {
    forall e :: e in es ==>
      && e.origin in parent && e.destination in parent
      && Root(parent, level, e.origin) == Root(parent, level, e.destination)
  }

  /** Vertices that share a root are connected over `es`. */
  ghost predicate ClassesLinked(parent: Parents, level: Levels, es: set<Edge>)
    requires Ranked(parent, level)
  {
    forall x, y {:trigger Root(parent, level, x), Root(parent, level, y)} ::
      x in parent && y in parent && Root(parent, level, x) == Root(parent, level, y) ==> Connected(es, x, y)
  }

  /** A walk over edges inside the classes stays in one class. */
  lemma {:induction false} WalkKeepsRoot(parent: Parents, level: Levels, es: set<Edge>, w: seq<Vertex>, via: seq<Edge>)
    requires Ranked(parent, level) && EdgesWithin(parent, level, es)
    requires IsWalk(es, w, via) && w[0] in parent
    ensures w[|w| - 1] in parent && Root(parent, level, w[0]) == Root(parent, level, w[|w| - 1])
    decreases |via|
  {
    if via != [] {
      assert via[0] in es && Joins(via[0], w[0], w[1]);
      assert IsWalk(es, w[1..], via[1..]);
      WalkKeepsRoot(parent, level, es, w[1..], via[1..]);
    }
  }

  lemma ConnectedSameRoot(parent: Parents, level: Levels, es: set<Edge>, x: Vertex, y: Vertex)
    requires Ranked(parent, level) && EdgesWithin(parent, level, es)
    requires x in parent && Connected(es, x, y)
    ensures y in parent && Root(parent, level, x) == Root(parent, level, y)
  {
    var w, via :| IsWalk(es, w, via) && w[0] == x && w[|w| - 1] == y;
    WalkKeepsRoot(parent, level, es, w, via);
  }

  /** The edges the scan keeps from `s`: an edge is kept exactly when the edges kept before
      it do not yet connect its endpoints. */
  ghost function Greedy(s: seq<Edge>): seq<Edge>
    decreases |s|
  {
    if s == [] then []
    else
      var kept := Greedy(s[..|s| - 1]);
      var e := s[|s| - 1];
      if Connected(EdgeSet(kept), e.origin, e.destination) then kept else kept + [e]
  }

  /** Every edge of `mst` joins two vertices that the edges before it leave unconnected:
      `mst` is a forest, built without ever closing a cycle. */
  ghost predicate Acyclic(mst: seq<Edge>)
  {
    forall i :: 0 <= i < |mst| ==> !Connected(EdgeSet(mst[..i]), mst[i].origin, mst[i].destination)
  }

  lemma {:induction false} GreedyAcyclic(s: seq<Edge>)
    ensures Acyclic(Greedy(s))
    decreases |s|
  {
    if s != [] {
      var kept := Greedy(s[..|s| - 1]);
      GreedyAcyclic(s[..|s| - 1]);
      var r := Greedy(s);
      forall i | 0 <= i < |r|
        ensures !Connected(EdgeSet(r[..i]), r[i].origin, r[i].destination)
      {
        if i < |kept| {
          assert r[..i] == kept[..i] && r[i] == kept[i];
        } else {
          assert r[..i] == kept;
        }
      }
    }
  }

  /** The kept edges are edges of `s`, taken in the order of `s`: when `s` is sorted by
      weight, so are they. */
  lemma {:induction false} GreedySubsequence(s: seq<Edge>)
    ensures EdgeSet(Greedy(s)) <= EdgeSet(s)
    ensures SortedBy(s, Weight) ==> SortedBy(Greedy(s), Weight)
    decreases |s|
  {
    if s != [] {
      var init := s[..|s| - 1];
      GreedySubsequence(init);
      assert EdgeSet(s) == EdgeSet(init) + {s[|s| - 1]};
      if SortedBy(s, Weight) {
        assert SortedBy(init, Weight);
        forall e | e in Greedy(init)
          ensures Weight(e) <= Weight(s[|s| - 1])
        {
          assert e in EdgeSet(init);
          var j :| 0 <= j < |init| && init[j] == e;
        }
      }
    }
  }

  /** The kept edges connect the endpoints of every edge of `s`. */
  lemma {:induction false} GreedySpans(s: seq<Edge>)
    ensures forall e :: e in s ==> Connected(EdgeSet(Greedy(s)), e.origin, e.destination)
    decreases |s|
  {
    if s != [] {
      var init, last := s[..|s| - 1], s[|s| - 1];
      GreedySpans(init);
      var kept := Greedy(init);
      forall e | e in s
        ensures Connected(EdgeSet(Greedy(s)), e.origin, e.destination)
      {
        if e == last && !Connected(EdgeSet(kept), e.origin, e.destination) {
          ConnectedByEdge(EdgeSet(Greedy(s)), e, e.origin, e.destination);
        } else if e == last {
          ConnectedMono(EdgeSet(kept), EdgeSet(Greedy(s)), e.origin, e.destination);
        } else {
          assert s == init + [last];
          assert e in init;
          ConnectedMono(EdgeSet(kept), EdgeSet(Greedy(s)), e.origin, e.destination);
        }
      }
    }
  }

  /** A walk over `es` can be rebuilt from `fs` when `fs` connects the ends of each edge. */
  lemma {:induction false} WalkRebuilt(es: set<Edge>, fs: set<Edge>, w: seq<Vertex>, via: seq<Edge>)
    requires forall e :: e in es ==> Connected(fs, e.origin, e.destination)
    requires IsWalk(es, w, via)
    ensures Connected(fs, w[0], w[|w| - 1])
    decreases |via|
  {
    if via == [] {
      ConnectedSelf(fs, w[0]);
    } else {
      assert IsWalk(es, w[1..], via[1..]);
      WalkRebuilt(es, fs, w[1..], via[1..]);
      var e := via[0];
      if e.origin == w[0] {
        assert Connected(fs, w[0], w[1]);
      } else {
        ConnectedSym(fs, e.origin, e.destination);
      }
      ConnectedTrans(fs, w[0], w[1], w[|w| - 1]);
    }
  }

  /** The kept edges connect exactly the pairs that all the edges connect: a spanning forest. */
  lemma GreedySameComponents(s: seq<Edge>, x: Vertex, y: Vertex)
    ensures Connected(EdgeSet(Greedy(s)), x, y) <==> Connected(EdgeSet(s), x, y)
  {
    GreedySubsequence(s);
    if Connected(EdgeSet(Greedy(s)), x, y) {
      ConnectedMono(EdgeSet(Greedy(s)), EdgeSet(s), x, y);
    }
    if Connected(EdgeSet(s), x, y) {
      GreedySpans(s);
      var w, via :| IsWalk(EdgeSet(s), w, via) && w[0] == x && w[|w| - 1] == y;
      WalkRebuilt(EdgeSet(s), EdgeSet(Greedy(s)), w, via);
    }
  }

  /** `reps` holds one vertex of each connected component of `vs` under `es`. */
  ghost predicate Representatives(vs: set<Vertex>, es: set<Edge>, reps: set<Vertex>)
  {
    && reps <= vs
    && (forall x :: x in vs ==> exists r :: r in reps && Connected(es, x, r))
    && (forall r1, r2 :: r1 in reps && r2 in reps && Connected(es, r1, r2) ==> r1 == r2)
  }

  /** A connected, non-empty vertex set has one component. */
  lemma OneComponent(vs: set<Vertex>, es: set<Edge>, reps: set<Vertex>)
    requires Representatives(vs, es, reps) && vs != {}
    requires forall x, y :: x in vs && y in vs ==> Connected(es, x, y)
    ensures |reps| == 1
  {
    var x :| x in vs;
    var r :| r in reps && Connected(es, x, r);
    forall r' | r' in reps
      ensures r' == r
    {
      assert Connected(es, r', r);
    }
    assert reps == {r};
  }

  function VertexSet(s: seq<Vertex>): set<Vertex>
  {
    set v | v in s
  }

  lemma EdgeSetSnoc(s: seq<Edge>, k: nat)
    requires k < |s|
    ensures s[..k + 1][..k] == s[..k] && s[..k + 1][k] == s[k]
    ensures EdgeSet(s[..k + 1]) == EdgeSet(s[..k]) + {s[k]}
  {
    assert s[..k + 1] == s[..k] + [s[k]];
  }

  /** A union leaves edges inside classes inside classes. */
  lemma WithinAfterMerge(parent: Parents, level: Levels, parent': Parents, level': Levels,
                         u: Vertex, v: Vertex, es: set<Edge>)
    requires Ranked(parent, level) && Ranked(parent', level') && parent'.Keys == parent.Keys
    requires u in parent && v in parent
    requires MergedSets(parent, level, parent', level', u, v)
    requires EdgesWithin(parent, level, es)
    ensures EdgesWithin(parent', level', es)
  {
    forall f | f in es
      ensures Root(parent', level', f.origin) == Root(parent', level', f.destination)
    {
      assert Root(parent, level, f.origin) == Root(parent, level, f.destination);
    }
  }

  /** One step of the scan: `union` reports a merge exactly when the kept edges do not yet
      connect the endpoints, and after keeping the edge on a merge the classes are again the
      components of the kept edges. */
  lemma ScanStep(parent: Parents, level: Levels, parent': Parents, level': Levels,
                 mst: seq<Edge>, e: Edge, merged: bool)
    requires Ranked(parent, level) && Ranked(parent', level') && parent'.Keys == parent.Keys
    requires e.origin in parent && e.destination in parent
    requires EdgesWithin(parent, level, EdgeSet(mst)) && ClassesLinked(parent, level, EdgeSet(mst))
    requires merged <==> Root(parent, level, e.origin) != Root(parent, level, e.destination)
    requires MergedSets(parent, level, parent', level', e.origin, e.destination)
    ensures merged <==> !Connected(EdgeSet(mst), e.origin, e.destination)
    ensures Root(parent', level', e.origin) == Root(parent', level', e.destination)
    ensures EdgesWithin(parent', level', EdgeSet(if merged then mst + [e] else mst))
    ensures ClassesLinked(parent', level', EdgeSet(if merged then mst + [e] else mst))
  {
    var u, v := e.origin, e.destination;
    var ru, rv := Root(parent, level, u), Root(parent, level, v);
    var old', new' := EdgeSet(mst), EdgeSet(if merged then mst + [e] else mst);
    if Connected(old', u, v) {
      ConnectedSameRoot(parent, level, old', u, v);
    }
    WithinAfterMerge(parent, level, parent', level', u, v, old');
    assert new' == if merged then old' + {e} else old';
    forall x, y | x in parent' && y in parent' && Root(parent', level', x) == Root(parent', level', y)
      ensures Connected(new', x, y)
    {
      var rx, ry := Root(parent, level, x), Root(parent, level, y);
      if rx == ry {
        ConnectedMono(old', new', x, y);
      } else if rx == ru {
        assert ry == rv && merged;
        assert Connected(old', x, u) && Connected(old', v, y);
        ConnectedMono(old', new', x, u);
        ConnectedMono(old', new', v, y);
        ConnectedByEdge(new', e, u, v);
        ConnectedTrans(new', x, u, v);
        ConnectedTrans(new', x, v, y);
      } else {
        assert rx == rv && ry == ru && merged;
        assert Connected(old', x, v) && Connected(old', u, y);
        ConnectedMono(old', new', x, v);
        ConnectedMono(old', new', u, y);
        ConnectedByEdge(new', e, v, u);
        ConnectedTrans(new', x, v, u);
        ConnectedTrans(new', x, u, y);
      }
    }
  }

  lemma SortedEdgeSet(edges: seq<Edge>)
    ensures EdgeSet(SortBy(edges, Weight)) == EdgeSet(edges)
  {
    SortByPermutes(edges, Weight);
    var sorted := SortBy(edges, Weight);
    forall f
      ensures f in sorted <==> f in edges
    {
      assert f in sorted <==> f in multiset(sorted);
      assert f in edges <==> f in multiset(edges);
    }
  }

  /** Singleton sets: no edges are needed to link each class. */
  lemma ScanStart(parent: Parents, level: Levels)
    requires Ranked(parent, level) && forall x :: x in parent ==> parent[x] == x
    ensures EdgesWithin(parent, level, EdgeSet([])) && ClassesLinked(parent, level, EdgeSet([]))
  {
    forall x, y | x in parent && y in parent && Root(parent, level, x) == Root(parent, level, y)
      ensures Connected(EdgeSet([]), x, y)
    {
      ConnectedSelf(EdgeSet([]), x);
    }
  }

  /** The scan invariants survive the examination of edge `sorted[k]`. */
  lemma ScanKeeps(parent: Parents, level: Levels, parent': Parents, level': Levels,
                  mst: seq<Edge>, sorted: seq<Edge>, k: nat, merged: bool)
    requires k < |sorted|
    requires Ranked(parent, level) && Ranked(parent', level') && parent'.Keys == parent.Keys
    requires sorted[k].origin in parent && sorted[k].destination in parent
    requires mst == Greedy(sorted[..k])
    requires EdgesWithin(parent, level, EdgeSet(mst)) && ClassesLinked(parent, level, EdgeSet(mst))
    requires EdgesWithin(parent, level, EdgeSet(sorted[..k]))
    requires merged <==> Root(parent, level, sorted[k].origin) != Root(parent, level, sorted[k].destination)
    requires MergedSets(parent, level, parent', level', sorted[k].origin, sorted[k].destination)
    ensures var mst' := if merged then mst + [sorted[k]] else mst;
      && mst' == Greedy(sorted[..k + 1])
      && EdgesWithin(parent', level', EdgeSet(mst')) && ClassesLinked(parent', level', EdgeSet(mst'))
      && EdgesWithin(parent', level', EdgeSet(sorted[..k + 1]))
  {
    var e := sorted[k];
    ScanStep(parent, level, parent', level', mst, e, merged);
    WithinAfterMerge(parent, level, parent', level', e.origin, e.destination, EdgeSet(sorted[..k]));
    EdgeSetSnoc(sorted, k);
  }

  /** The `union` call of either implementation: by rank, where the ranks are the levels,
      or the plain one. */
  method Merge(parent: Parents, rank: Levels, ghost level: Levels, u: Vertex, v: Vertex, byRank: bool)
    returns (merged: bool, parent': Parents, rank': Levels, ghost level': Levels)
    requires Ranked(parent, level) && u in parent && v in parent && (byRank ==> level == rank)
    ensures Ranked(parent', level') && parent'.Keys == parent.Keys && (byRank ==> level' == rank')
    ensures merged <==> Root(parent, level, u) != Root(parent, level, v)
    ensures MergedSets(parent, level, parent', level', u, v)
    ensures |Roots(parent')| == if merged then |Roots(parent)| - 1 else |Roots(parent)|
  {
    if byRank {
      merged, parent', rank' := UnionByRank(parent, rank, u, v);
      level' := rank';
    } else {
      merged, parent', level' := Union(parent, level, u, v);
      rank' := rank;
    }
  }

  /** One pass of the scan: `union` of the endpoints of edge `k`, which is kept when the
      union merges two sets. The scan's invariants carry over to the next edge. */
  method ScanEdge(parent: Parents, rank: Levels, ghost level: Levels, ghost vs: set<Vertex>,
                  mst: seq<Edge>, sorted: seq<Edge>, k: nat, byRank: bool)
    returns (parent': Parents, rank': Levels, ghost level': Levels, mst': seq<Edge>)
    requires k < |sorted| && sorted[k].origin in vs && sorted[k].destination in vs
    requires Ranked(parent, level) && parent.Keys == vs && (byRank ==> level == rank)
    requires mst == Greedy(sorted[..k])
    requires EdgesWithin(parent, level, EdgeSet(mst)) && ClassesLinked(parent, level, EdgeSet(mst))
    requires EdgesWithin(parent, level, EdgeSet(sorted[..k]))
    requires |mst| + |Roots(parent)| == |vs|
    ensures Ranked(parent', level') && parent'.Keys == vs && (byRank ==> level' == rank')
    ensures mst' == Greedy(sorted[..k + 1])
    ensures EdgesWithin(parent', level', EdgeSet(mst')) && ClassesLinked(parent', level', EdgeSet(mst'))
    ensures EdgesWithin(parent', level', EdgeSet(sorted[..k + 1]))
    ensures |mst'| + |Roots(parent')| == |vs|
  {
    var e := sorted[k];
    var merged;
    merged, parent', rank', level' := Merge(parent, rank, level, e.origin, e.destination, byRank);
    ScanKeeps(parent, level, parent', level', mst, sorted, k, merged);
    mst' := if merged then mst + [e] else mst;
  }

  /** The Kruskal scan of both implementations: the edges sorted by weight, each kept
      exactly when `union` of its endpoints merges two sets. `byRank` selects the union by
      rank of sim/kruskal.py; otherwise the plain union of model/graph.py. The result is the
      greedy forest of the sorted edges and has one edge fewer than vertices per component. */
  method Kruskal(vertices: seq<Vertex>, edges: seq<Edge>, byRank: bool) returns (mst: seq<Edge>)
    requires forall e :: e in edges ==> e.origin in vertices && e.destination in vertices
    ensures mst == Greedy(SortBy(edges, Weight))
    ensures exists reps :: Representatives(VertexSet(vertices), EdgeSet(edges), reps)
                        && |mst| + |reps| == |VertexSet(vertices)|
  {
    var parent, rank := MakeSets(vertices);
    ghost var level := rank;
    ghost var vs := VertexSet(vertices);
    var sorted := SortBy(edges, Weight);
    SortedEdgeSet(edges);
    mst := [];
    ScanStart(parent, level);
    for k := 0 to |sorted|
      invariant Ranked(parent, level) && parent.Keys == vs && (byRank ==> level == rank)
      invariant mst == Greedy(sorted[..k])
      invariant EdgesWithin(parent, level, EdgeSet(mst)) && ClassesLinked(parent, level, EdgeSet(mst))
      invariant EdgesWithin(parent, level, EdgeSet(sorted[..k]))
      invariant |mst| + |Roots(parent)| == |vs|
    {
      assert sorted[k] in EdgeSet(edges);
      parent, rank, level, mst := ScanEdge(parent, rank, level, vs, mst, sorted, k, byRank);
    }
    assert sorted[..|sorted|] == sorted;
    ScanEnd(parent, level, vs, edges, sorted, mst);
  }

  /** After the last edge the roots are one representative per component of the graph. */
  lemma ScanEnd(parent: Parents, level: Levels, vs: set<Vertex>, edges: seq<Edge>, sorted: seq<Edge>, mst: seq<Edge>)
    requires sorted == SortBy(edges, Weight) && EdgeSet(sorted) == EdgeSet(edges) && mst == Greedy(sorted)
    requires Ranked(parent, level) && parent.Keys == vs
    requires EdgesWithin(parent, level, EdgeSet(sorted)) && ClassesLinked(parent, level, EdgeSet(mst))
    requires |mst| + |Roots(parent)| == |vs|
    ensures exists reps :: Representatives(vs, EdgeSet(edges), reps) && |mst| + |reps| == |vs|
  {
    GreedySubsequence(sorted);
    CountByRoots(parent, level, vs, EdgeSet(edges), mst);
  }

  /** At the end of the scan the roots are one representative per component. */
  lemma CountByRoots(parent: Parents, level: Levels, vs: set<Vertex>, es: set<Edge>, mst: seq<Edge>)
    requires Ranked(parent, level) && parent.Keys == vs
    requires EdgesWithin(parent, level, es) && ClassesLinked(parent, level, EdgeSet(mst))
    requires EdgeSet(mst) <= es
    ensures Representatives(vs, es, Roots(parent))
  {
    RootsCover(parent, level, vs, es, mst);
    RootsApart(parent, level, es);
  }

  lemma RootsCover(parent: Parents, level: Levels, vs: set<Vertex>, es: set<Edge>, mst: seq<Edge>)
    requires Ranked(parent, level) && parent.Keys == vs
    requires ClassesLinked(parent, level, EdgeSet(mst)) && EdgeSet(mst) <= es
    ensures forall x :: x in vs ==> exists r :: r in Roots(parent) && Connected(es, x, r)
  {
    forall x | x in vs
      ensures exists r :: r in Roots(parent) && Connected(es, x, r)
    {
      var r := Root(parent, level, x);
      assert Root(parent, level, r) == r;
      ConnectedMono(EdgeSet(mst), es, x, r);
    }
  }

  lemma RootsApart(parent: Parents, level: Levels, es: set<Edge>)
    requires Ranked(parent, level) && EdgesWithin(parent, level, es)
    ensures forall r1, r2 :: r1 in Roots(parent) && r2 in Roots(parent) && Connected(es, r1, r2) ==> r1 == r2
  {
    forall r1, r2 | r1 in Roots(parent) && r2 in Roots(parent) && Connected(es, r1, r2)
      ensures r1 == r2
    {
      ConnectedSameRoot(parent, level, es, r1, r2);
      assert Root(parent, level, r1) == r1 && Root(parent, level, r2) == r2;
    }
  }
}
