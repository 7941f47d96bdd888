/** The analytics glue of visual/dashboard.py: recording a found route (its signature
    goes into the route index, each node on it gets a visit), the most-frequent-routes
    ranking, and the per-role visit lists. The session state is a `Session` object; the
    visit counter (the unseen `Map` of tda/hash_map.py) is a `map<string, nat>`. */
module Dashboard {
  import opened Wrappers
  import opened Text
  import opened Vertices
  import opened Routes
  import opened Sorting
  import opened AvlTrees

  /** The visit counts after counting one visit for each vertex of `path`, in order. */
  function Tally(visits: map<string, nat>, path: seq<Vertex>): map<string, nat>
    decreases |path|
  {
    if path == [] then visits
    else
      var before := Tally(visits, path[..|path| - 1]);
      var name := Str(path[|path| - 1]);
      before[name := Get(before, name) + 1]
  }

  /** Each name's count grows by its number of occurrences on the path, starting from 0
      for a name not yet counted. */
  lemma {:induction false} TallyCounts(visits: map<string, nat>, path: seq<Vertex>)
    ensures forall s :: Get(Tally(visits, path), s) == Get(visits, s) + Count(Names(path), s)
    decreases |path|
  {
    if path != [] {
      var init := path[..|path| - 1];
      TallyCounts(visits, init);
      assert Names(path) == Names(init) + [Str(path[|path| - 1])];
      forall s
        ensures Get(Tally(visits, path), s) == Get(visits, s) + Count(Names(path), s)
      {
        CountSnoc(Names(init), Str(path[|path| - 1]), s);
      }
    }
  }

  /** The names counted are the old ones and those on the path. */
  lemma {:induction false} TallyKeys(visits: map<string, nat>, path: seq<Vertex>)
    ensures Tally(visits, path).Keys == visits.Keys + set i | 0 <= i < |path| :: Str(path[i])
    decreases |path|
  {
    if path != [] {
      var init := path[..|path| - 1];
      TallyKeys(visits, init);
      assert (set i | 0 <= i < |path| :: Str(path[i]))
          == (set i | 0 <= i < |init| :: Str(init[i])) + {Str(path[|path| - 1])};
    }
  }

  /** A name off the path keeps its count. */
  lemma TallyElsewhere(visits: map<string, nat>, path: seq<Vertex>, s: string)
    requires forall i :: 0 <= i < |path| ==> Str(path[i]) != s
    ensures Get(Tally(visits, path), s) == Get(visits, s)
  {
    TallyCounts(visits, path);
    CountAbsent(Names(path), s);
  }

  /** The dashboard's session state. */
  class Session {
    var routesAvl: Avl
    var nodeVisits: map<string, nat>
    var lastRoutePath: seq<Vertex>

    ghost predicate Valid()
      reads this, routesAvl
    {
      routesAvl.Valid()
    }

    constructor()
      ensures Valid() && fresh(routesAvl)
      ensures routesAvl.inserted == [] && nodeVisits == map[] && lastRoutePath == []
    {
      routesAvl := new Avl();
      nodeVisits := map[];
      lastRoutePath := [];
    }

    /** The `for v in route.path` loop (visual/dashboard.py:222-227): each vertex's
        string gets one more visit, a new one starting at 1. */
    method CountVisits(path: seq<Vertex>)
      modifies this
      ensures nodeVisits == Tally(old(nodeVisits), path)
      ensures routesAvl == old(routesAvl) && lastRoutePath == old(lastRoutePath)
    {
      for i := 0 to |path|
        invariant nodeVisits == Tally(old(nodeVisits), path[..i])
        invariant routesAvl == old(routesAvl) && lastRoutePath == old(lastRoutePath)
      {
        var name := Str(path[i]);
        if name in nodeVisits {
          nodeVisits := nodeVisits[name := nodeVisits[name] + 1];
        } else {
          nodeVisits := nodeVisits[name := 1];
        }
        assert path[..i + 1][..i] == path[..i];
      }
      assert path[..|path|] == path;
    }

    /** Recording the result of a search: nothing when there is no route; otherwise the
        path becomes the last route, its signature is inserted into the index once, and
        every vertex on it is counted. */
    method RecordRoute(route: Option<Route>)
      requires Valid()
      modifies this, routesAvl
      ensures Valid() && routesAvl == old(routesAvl)
      ensures route.None? ==> nodeVisits == old(nodeVisits) && lastRoutePath == old(lastRoutePath)
      ensures route.None? ==> unchanged(routesAvl)
      ensures route.Some? ==> lastRoutePath == route.value.path
      ensures route.Some? ==> routesAvl.inserted == old(routesAvl.inserted) + [Signature(route.value.path)]
      ensures route.Some? ==> routesAvl.freqs == old(routesAvl.freqs)[Signature(route.value.path) := Get(old(routesAvl.freqs), Signature(route.value.path)) + 1]
      ensures route.Some? ==> nodeVisits == Tally(old(nodeVisits), route.value.path)
    {
      if route.Some? {
        lastRoutePath := route.value.path;
        var key := Signature(route.value.path);
        routesAvl.Insert(key);
        CountVisits(route.value.path);
      }
    }
  }

  // ---------------------------------------------------------------------------------
  // The most frequent routes (visual/dashboard.py:258-269).

  type Entry = (string, nat)

  /** The sort key `-x[1]`. */
  function NegFreq(e: Entry): int
  {
    -(e.1 as int)
  }

  function Min(a: nat, b: nat): nat
  {
    if a < b then a else b
  }

  /** `sorted(routes, key=lambda x: -x[1])[:10]`. */
  function Top(entries: seq<Entry>): seq<Entry>
  {
    var sorted := SortBy(entries, NegFreq);
    SortByPermutes(entries, NegFreq);
    sorted[..Min(10, |sorted|)]
  }

  /** Entries of equal frequency are in ascending key order. */
  ghost predicate TiesAscending(r: seq<Entry>)
  {
    forall i, j :: 0 <= i < j < |r| && r[i].1 == r[j].1 ==> Less(r[i].0, r[j].0)
  }

  /** Inserting an entry whose key is below every other keeps ties ascending. */
  lemma {:induction false} InsertKeepsTies(x: Entry, s: seq<Entry>)
    requires TiesAscending(s) && SortedBy(s, NegFreq)
    requires forall i :: 0 <= i < |s| ==> Less(x.0, s[i].0)
    ensures TiesAscending(InsertBy(x, s, NegFreq))
    decreases |s|
  {
    if s != [] && NegFreq(x) > NegFreq(s[0]) {
      var t := InsertBy(x, s[1..], NegFreq);
      InsertKeepsTies(x, s[1..]);
      InsertByPermutes(x, s[1..], NegFreq);
      var r := [s[0]] + t;
      forall j | 0 < j < |r| && r[0].1 == r[j].1
        ensures Less(r[0].0, r[j].0)
      {
        assert r[j] in multiset(s[1..]) + multiset{x};
        TiesHead(x, s, r[j]);
      }
    }
  }

  /** The head of a tie-ascending list precedes, among its equals, every later entry and
      every entry less frequent than `x`. */
  lemma TiesHead(x: Entry, s: seq<Entry>, e: Entry)
    requires TiesAscending(s) && s != [] && NegFreq(x) > NegFreq(s[0])
    requires e in multiset(s[1..]) + multiset{x} && e.1 == s[0].1
    ensures Less(s[0].0, e.0)
  {
    if e != x {
      assert e in s[1..];
      var k :| 0 <= k < |s[1..]| && s[1..][k] == e;
      assert s[k + 1] == e;
    }
  }

  /** The stable sort of a key-ascending list keeps ties in ascending key order. */
  lemma {:induction false} SortKeepsTies(s: seq<Entry>)
    requires Ascending(Keys(s))
    ensures TiesAscending(SortBy(s, NegFreq))
    decreases |s|
  {
    if s != [] {
      assert Ascending(Keys(s[1..])) by {
        forall i, j | 0 <= i < j < |s[1..]|
          ensures Less(Keys(s[1..])[i], Keys(s[1..])[j])
        {
          assert Keys(s)[i + 1] == Keys(s[1..])[i] && Keys(s)[j + 1] == Keys(s[1..])[j];
        }
      }
      SortKeepsTies(s[1..]);
      SortByPermutes(s[1..], NegFreq);
      var t := SortBy(s[1..], NegFreq);
      forall i | 0 <= i < |t|
        ensures Less(s[0].0, t[i].0)
      {
        assert t[i] in multiset(s[1..]);
        var k :| 0 <= k < |s[1..]| && s[1..][k] == t[i];
        assert Keys(s)[0] == s[0].0 && Keys(s)[k + 1] == t[i].0;
      }
      InsertKeepsTies(s[0], t);
    }
  }

  /** The ranking shows at most ten entries of the list, by frequency descending, ties in
      ascending key order, and no entry left out is more frequent than one shown. */
  lemma TopRanking(entries: seq<Entry>)
    requires Ascending(Keys(entries))
    ensures var r := Top(entries);
      && |r| == Min(10, |entries|)
      && (forall i, j :: 0 <= i < j < |r| ==> r[i].1 >= r[j].1)
      && TiesAscending(r)
      && (forall i :: 0 <= i < |r| ==> r[i] in entries)
      && (forall e :: e in entries && e !in r ==> forall i :: 0 <= i < |r| ==> e.1 <= r[i].1)
  {
    var sorted := SortBy(entries, NegFreq);
    SortByPermutes(entries, NegFreq);
    SortKeepsTies(entries);
    var r := Top(entries);
    assert r == sorted[..|r|];
    PrefixRanked(sorted, |r|);
    forall i | 0 <= i < |r|
      ensures r[i] in entries
    {
      assert sorted[i] in multiset(entries);
    }
    TopCut(entries);
  }

  /** At the cut of ten no entry left out is more frequent than one shown, and the stable
      sort shows the smallest of the tied keys: an entry left out that is as frequent as a
      shown one has a greater key. */
  lemma TopCut(entries: seq<Entry>)
    requires Ascending(Keys(entries))
    ensures var r := Top(entries);
      && (forall e :: e in entries && e !in r ==> forall i :: 0 <= i < |r| ==> e.1 <= r[i].1)
      && (forall e, i :: e in entries && e !in r && 0 <= i < |r| && e.1 == r[i].1 ==> Less(r[i].0, e.0))
  {
    var sorted := SortBy(entries, NegFreq);
    SortByPermutes(entries, NegFreq);
    SortKeepsTies(entries);
    var n := Min(10, |sorted|);
    assert Top(entries) == sorted[..n];
    forall e | e in entries
      ensures e in sorted
    {
      assert e in multiset(sorted);
    }
    CutRanked(sorted, n);
  }

  /** In a list sorted by frequency descending with ties ascending, an entry not among the
      first `n` is no more frequent than any of them, and greater than those it ties. */
  lemma CutRanked(sorted: seq<Entry>, n: nat)
    requires SortedBy(sorted, NegFreq) && TiesAscending(sorted) && n <= |sorted|
    ensures forall e :: e in sorted && e !in sorted[..n] ==> forall i :: 0 <= i < n ==> e.1 <= sorted[..n][i].1
    ensures forall e, i :: e in sorted && e !in sorted[..n] && 0 <= i < n && e.1 == sorted[..n][i].1 ==> Less(sorted[..n][i].0, e.0)
  {
    PrefixRanked(sorted, n);
    PrefixTies(sorted, n);
    forall e | e in sorted && e !in sorted[..n]
      ensures e in sorted[n..]
    {
      InSuffix(sorted, n, e);
    }
  }

  /** An element of `s` that is not among its first `n` comes after them. */
  lemma InSuffix<T>(s: seq<T>, n: nat, x: T)
    requires n <= |s| && x in s && x !in s[..n]
    ensures x in s[n..]
  {
    assert s == s[..n] + s[n..];
  }

  /** In a list sorted by frequency descending, the first `n` entries are descending, keep
      the ties of the list, and none of the remaining entries is more frequent than them. */
  lemma PrefixRanked(sorted: seq<Entry>, n: nat)
    requires SortedBy(sorted, NegFreq) && TiesAscending(sorted) && n <= |sorted|
    ensures forall i, j :: 0 <= i < j < n ==> sorted[i].1 >= sorted[j].1
    ensures TiesAscending(sorted[..n])
    ensures forall e :: e in sorted[n..] ==> forall i :: 0 <= i < n ==> e.1 <= sorted[i].1
  {
    forall i, j | 0 <= i < j < n
      ensures sorted[i].1 >= sorted[j].1
    {
      assert NegFreq(sorted[i]) <= NegFreq(sorted[j]);
    }
    forall e | e in sorted[n..]
      ensures forall i :: 0 <= i < n ==> e.1 <= sorted[i].1
    {
      var p :| n <= p < |sorted| && sorted[p] == e;
      forall i | 0 <= i < n
        ensures e.1 <= sorted[i].1
      {
        assert NegFreq(sorted[i]) <= NegFreq(sorted[p]);
      }
    }
  }

  /** In a list whose ties are in ascending key order, an entry after the first `n` that
      is as frequent as one of them has a greater key. */
  lemma PrefixTies(sorted: seq<Entry>, n: nat)
    requires TiesAscending(sorted) && n <= |sorted|
    ensures forall e, i :: e in sorted[n..] && 0 <= i < n && e.1 == sorted[i].1 ==> Less(sorted[i].0, e.0)
  {
    forall e, i | e in sorted[n..] && 0 <= i < n && e.1 == sorted[i].1
      ensures Less(sorted[i].0, e.0)
    {
      var p :| n <= p < |sorted| && sorted[p] == e;
    }
  }

  /** The ranking panel: `None` ("No routes registered yet.") while the index is empty,
      otherwise the top entries of its in-order list. */
  function MostFrequent(avl: Avl): (r: Option<seq<Entry>>)
    reads avl
    requires avl.Valid()
    ensures r.None? <==> avl.inserted == []
    ensures r.Some? ==> 0 < |r.value| <= 10 && TiesAscending(r.value)
    ensures r.Some? ==> forall i, j :: 0 <= i < j < |r.value| ==> r.value[i].1 >= r.value[j].1
    ensures r.Some? ==> forall i :: 0 <= i < |r.value| ==>
      r.value[i].0 in avl.inserted && r.value[i].1 == Count(avl.inserted, r.value[i].0)
    ensures r.Some? ==> |r.value| == Min(10, |avl.InOrderList()|)
    ensures r.Some? ==> forall k :: k in avl.inserted && (forall i :: 0 <= i < |r.value| ==> r.value[i].0 != k) ==>
      forall i :: 0 <= i < |r.value| ==> Count(avl.inserted, k) <= r.value[i].1
    ensures r.Some? ==> forall k :: k in avl.inserted && (forall i :: 0 <= i < |r.value| ==> r.value[i].0 != k) ==>
      forall i :: 0 <= i < |r.value| && Count(avl.inserted, k) == r.value[i].1 ==> Less(r.value[i].0, k)
  {
    var entries := avl.InOrderList();
    if avl.root.Leaf? || entries == [] then
      EmptyIndex(avl);
      None
    else
      RankingShape(avl);
      RankingLeftOut(avl);
      Some(Top(entries))
  }

  /** The top entries of a non-empty index: one to ten inserted keys with their counts,
      as many as the index holds up to ten, by count descending and ties ascending. */
  lemma RankingShape(avl: Avl)
    requires avl.Valid() && avl.InOrderList() != []
    ensures var r := Top(avl.InOrderList());
      && 0 < |r| <= 10 && TiesAscending(r)
      && (forall i, j :: 0 <= i < j < |r| ==> r[i].1 >= r[j].1)
      && (forall i :: 0 <= i < |r| ==> r[i].0 in avl.inserted && r[i].1 == Count(avl.inserted, r[i].0))
      && |r| == Min(10, |avl.InOrderList()|)
  {
    var entries := avl.InOrderList();
    TopRanking(entries);
    TopCounts(avl, Top(entries));
  }

  /** The keys a non-empty index leaves out of its top entries: none was inserted more
      often than a key shown, and one inserted as often is greater. */
  lemma RankingLeftOut(avl: Avl)
    requires avl.Valid() && avl.InOrderList() != []
    ensures var r := Top(avl.InOrderList());
      && (forall k :: k in avl.inserted && (forall i :: 0 <= i < |r| ==> r[i].0 != k) ==>
            forall i :: 0 <= i < |r| ==> Count(avl.inserted, k) <= r[i].1)
      && (forall k :: k in avl.inserted && (forall i :: 0 <= i < |r| ==> r[i].0 != k) ==>
            forall i :: 0 <= i < |r| && Count(avl.inserted, k) == r[i].1 ==> Less(r[i].0, k))
  {
    var entries := avl.InOrderList();
    TopCut(entries);
    LeftOutCounts(avl, Top(entries));
  }

  /** When no entry of the in-order list left out of `r` is more frequent than one in it,
      and one as frequent has a greater key, then no inserted key missing from `r` was
      inserted more often than a key shown, and one inserted as often is greater. */
  lemma LeftOutCounts(avl: Avl, r: seq<Entry>)
    requires avl.Valid()
    requires forall e :: e in avl.InOrderList() && e !in r ==> forall i :: 0 <= i < |r| ==> e.1 <= r[i].1
    requires forall e, i :: e in avl.InOrderList() && e !in r && 0 <= i < |r| && e.1 == r[i].1 ==> Less(r[i].0, e.0)
    ensures forall k :: k in avl.inserted && (forall i :: 0 <= i < |r| ==> r[i].0 != k) ==>
      forall i :: 0 <= i < |r| ==> Count(avl.inserted, k) <= r[i].1
    ensures forall k :: k in avl.inserted && (forall i :: 0 <= i < |r| ==> r[i].0 != k) ==>
      forall i :: 0 <= i < |r| && Count(avl.inserted, k) == r[i].1 ==> Less(r[i].0, k)
  {
    var entries := avl.InOrderList();
    forall k | k in avl.inserted && (forall i :: 0 <= i < |r| ==> r[i].0 != k)
      ensures forall i :: 0 <= i < |r| ==> Count(avl.inserted, k) <= r[i].1
      ensures forall i :: 0 <= i < |r| && Count(avl.inserted, k) == r[i].1 ==> Less(r[i].0, k)
    {
      var j :| 0 <= j < |entries| && entries[j].0 == k;
      assert entries[j] in entries;
      assert entries[j] !in r;
    }
  }

  /** An index with no node and no entry has had no insert. */
  lemma EmptyIndex(avl: Avl)
    requires avl.Valid()
    ensures avl.root.Leaf? || avl.InOrderList() == [] ==> avl.inserted == []
  {
    if avl.inserted != [] {
      assert avl.inserted[0] in InOrderKeys(avl.root);
    }
  }

  /** Entries taken from the in-order list are inserted keys paired with their counts. */
  lemma TopCounts(avl: Avl, r: seq<Entry>)
    requires avl.Valid()
    requires forall i :: 0 <= i < |r| ==> r[i] in avl.InOrderList()
    ensures forall i :: 0 <= i < |r| ==> r[i].0 in avl.inserted && r[i].1 == Count(avl.inserted, r[i].0)
  {
    var entries := avl.InOrderList();
    forall i | 0 <= i < |r|
      ensures r[i].0 in avl.inserted && r[i].1 == Count(avl.inserted, r[i].0)
    {
      assert r[i] in entries;
      var k :| 0 <= k < |entries| && entries[k] == r[i];
    }
  }

  // ---------------------------------------------------------------------------------
  // Visits by role (visual/dashboard.py:303-310).

  /** The three roles the statistics tab shows. */
  const RoleNames: set<string> := {"client", "recharge", "storage"}

  /** The names of the nodes with role `role`, in the order of `nodeRoles`. */
  function WithRole(nodeRoles: seq<(Vertex, string)>, role: string): seq<string>
    decreases |nodeRoles|
  {
    if nodeRoles == [] then []
    else
      var before := WithRole(nodeRoles[..|nodeRoles| - 1], role);
      var (v, r) := nodeRoles[|nodeRoles| - 1];
      if r == role then before + [Str(v)] else before
  }

  /** A name is listed under a role exactly when some node with that role prints as it. */
  lemma {:induction false} WithRoleMembers(nodeRoles: seq<(Vertex, string)>, role: string)
    ensures forall x :: x in WithRole(nodeRoles, role) <==>
      exists i :: 0 <= i < |nodeRoles| && nodeRoles[i].1 == role && Str(nodeRoles[i].0) == x
    decreases |nodeRoles|
  {
    if nodeRoles != [] {
      var init := nodeRoles[..|nodeRoles| - 1];
      WithRoleMembers(init, role);
      forall x | x in WithRole(nodeRoles, role)
        ensures exists i :: 0 <= i < |nodeRoles| && nodeRoles[i].1 == role && Str(nodeRoles[i].0) == x
      {
        if x in WithRole(init, role) {
          var i :| 0 <= i < |init| && init[i].1 == role && Str(init[i].0) == x;
          assert nodeRoles[i] == init[i];
        } else {
          assert nodeRoles[|nodeRoles| - 1].1 == role && Str(nodeRoles[|nodeRoles| - 1].0) == x;
        }
      }
      forall x | exists i :: 0 <= i < |nodeRoles| && nodeRoles[i].1 == role && Str(nodeRoles[i].0) == x
        ensures x in WithRole(nodeRoles, role)
      {
        var i :| 0 <= i < |nodeRoles| && nodeRoles[i].1 == role && Str(nodeRoles[i].0) == x;
        if i < |init| {
          assert init[i] == nodeRoles[i];
        }
      }
    }
  }

  /** The loop over `node_roles.items()`: for each of the three roles, the names of its
      nodes in order, and beside them their visit counts, 0 for a name never visited.
      Nodes with any other role are skipped. */
  method GatherByRole(nodeRoles: seq<(Vertex, string)>, visits: map<string, nat>)
    returns (roles: map<string, seq<string>>, counts: map<string, seq<nat>>)
    ensures roles.Keys == RoleNames && counts.Keys == RoleNames
    ensures forall role :: role in roles ==> roles[role] == WithRole(nodeRoles, role)
    ensures forall role :: role in counts ==>
      |counts[role]| == |roles[role]| && forall j :: 0 <= j < |counts[role]| ==> counts[role][j] == Get(visits, roles[role][j])
  {
    roles := map["client" := [], "recharge" := [], "storage" := []];
    counts := map["client" := [], "recharge" := [], "storage" := []];
    for i := 0 to |nodeRoles|
      invariant roles.Keys == RoleNames && counts.Keys == RoleNames
      invariant forall role :: role in roles ==> roles[role] == WithRole(nodeRoles[..i], role)
      invariant forall role :: role in counts ==>
        |counts[role]| == |roles[role]| && forall j :: 0 <= j < |counts[role]| ==> counts[role][j] == Get(visits, roles[role][j])
    {
      var (v, role) := nodeRoles[i];
      var name := Str(v);
      if role in roles {
        roles := roles[role := roles[role] + [name]];
        counts := counts[role := counts[role] + [Get(visits, name)]];
      }
      assert nodeRoles[..i + 1][..i] == nodeRoles[..i];
    }
    assert nodeRoles[..|nodeRoles|] == nodeRoles;
  }
}
