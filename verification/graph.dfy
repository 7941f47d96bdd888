/** The adjacency-map graph of model/graph.py. `_outgoing` maps each vertex to a dictionary
    from neighbour to edge; a directed graph keeps a second such map, `_incoming`, while an
    undirected graph uses the very same dictionary for both, so every write through one name
    is a write through the other. */
module Graphs {
  import opened Wrappers
  import opened Vertices
  import opened Edges
  import opened Sorting
  import opened Spanning

  type Adjacency = map<Vertex, map<Vertex, Edge>>

  /** The exception the dictionary lookups raise. */
  datatype KeyError = KeyError

  /** `e` may sit in slot `[u][v]`: it runs from `u` to `v`, or, undirected, from `v` to `u`
      (an undirected `insert_edge(v, u, ...)` stores its edge under both `[v][u]` and `[u][v]`). */
  predicate Stored(e: Edge, u: Vertex, v: Vertex, directed: bool)
  {
    (e.origin == u && e.destination == v) || (!directed && e.origin == v && e.destination == u)
  }

  /** The mirror invariant: `out[u][v]` and `inn[v][u]` hold the same edge, neighbours are
      vertices, and each edge sits under its own endpoints. For an undirected graph `inn` is
      `out`, so this is the symmetry `v in out[u] <==> u in out[v]`, with the same edge. */
  ghost predicate Mirrored(out: Adjacency, inn: Adjacency, directed: bool)
  {
    && inn.Keys == out.Keys
    && (forall u, v {:trigger out[u][v]} :: u in out && v in out[u] ==>
          && v in inn && u in inn[v] && inn[v][u] == out[u][v]
          && Stored(out[u][v], u, v, directed))
    && (forall v, u {:trigger inn[v][u]} :: v in inn && u in inn[v] ==>
          u in out && v in out[u] && out[u][v] == inn[v][u])
  }

  /** Writes `e` into slot `[a][b]`. */
  function Put(m: Adjacency, a: Vertex, b: Vertex, e: Edge): (r: Adjacency)
    requires a in m
    ensures r.Keys == m.Keys && b in r[a] && r[a][b] == e
  {
    m[a := m[a][b := e]]
  }

  /** Deletes slot `[a][b]`. */
  function Delete(m: Adjacency, a: Vertex, b: Vertex): (r: Adjacency)
    requires a in m
    ensures r.Keys == m.Keys && b !in r[a]
  {
    m[a := m[a] - {b}]
  }

  /** `m` without vertex `v`: its own entry is gone and it is no one's neighbour. */
  function Detach(m: Adjacency, v: Vertex): (r: Adjacency)
    ensures r.Keys == m.Keys - {v}
    ensures forall a :: a in r ==> v !in r[a]
    ensures forall a, b :: a in r && b in m[a] && b != v ==> b in r[a] && r[a][b] == m[a][b]
    ensures forall a, b :: a in r && b in r[a] ==> b in m[a]
  {
    map a | a in m && a != v :: m[a] - {v}
  }

  /** `m.get(a, {}).get(b)`: the edge in slot `[a][b]`, if there is one. */
  function Lookup(m: Adjacency, a: Vertex, b: Vertex): Option<Edge>
  {
    if a in m && b in m[a] then Some(m[a][b]) else None
  }

  /** A write changes exactly the slot it writes. */
  lemma PutLookup(m: Adjacency, a: Vertex, b: Vertex, e: Edge)
    requires a in m
    ensures forall x, y :: Lookup(Put(m, a, b, e), x, y) == if x == a && y == b then Some(e) else Lookup(m, x, y)
  {
  }

  /** A deletion empties exactly the slot it deletes. */
  lemma DeleteLookup(m: Adjacency, a: Vertex, b: Vertex)
    requires a in m
    ensures forall x, y :: Lookup(Delete(m, a, b), x, y) == if x == a && y == b then None else Lookup(m, x, y)
  {
  }

  /** Every edge object stored anywhere in `m`. */
  function StoredEdges(m: Adjacency): set<Edge>
  {
    set u, v | u in m && v in m[u] :: m[u][v]
  }

  /** Overwriting slot `[u][v]` and its mirror slot keeps the mirror invariant. */
  lemma PutMirrored(out: Adjacency, inn: Adjacency, directed: bool, u: Vertex, v: Vertex, e: Edge)
    requires Mirrored(out, inn, directed) && (!directed ==> inn == out)
    requires u in out && v in out && e == Edge(u, v, e.weight)
    ensures directed ==> Mirrored(Put(out, u, v, e), Put(inn, v, u, e), directed)
    ensures !directed ==> Mirrored(Put(Put(out, u, v, e), v, u, e), Put(Put(out, u, v, e), v, u, e), directed)
  {
    if directed {
      DirectedPutMirrored(out, inn, u, v, e);
    } else {
      UndirectedPutMirrored(out, u, v, e);
    }
  }

  lemma DirectedPutMirrored(out: Adjacency, inn: Adjacency, u: Vertex, v: Vertex, e: Edge)
    requires Mirrored(out, inn, true)
    requires u in out && v in out && e == Edge(u, v, e.weight)
    ensures Mirrored(Put(out, u, v, e), Put(inn, v, u, e), true)
  {
    var o, i := Put(out, u, v, e), Put(inn, v, u, e);
    forall a, b | a in o && b in o[a]
      ensures b in i && a in i[b] && i[b][a] == o[a][b] && Stored(o[a][b], a, b, true)
    {
      if (a, b) != (u, v) {
        assert b in out[a] && o[a][b] == out[a][b];
      }
    }
    forall b, a | b in i && a in i[b]
      ensures a in o && b in o[a] && o[a][b] == i[b][a]
    {
      if (a, b) != (u, v) {
        assert a in inn[b] && i[b][a] == inn[b][a];
      }
    }
  }

  lemma UndirectedPutMirrored(out: Adjacency, u: Vertex, v: Vertex, e: Edge)
    requires Mirrored(out, out, false)
    requires u in out && v in out && e == Edge(u, v, e.weight)
    ensures Mirrored(Put(Put(out, u, v, e), v, u, e), Put(Put(out, u, v, e), v, u, e), false)
  {
    var o := Put(Put(out, u, v, e), v, u, e);
    forall a, b | a in o && b in o[a]
      ensures b in o && a in o[b] && o[b][a] == o[a][b] && Stored(o[a][b], a, b, false)
    {
      if (a, b) != (u, v) && (a, b) != (v, u) {
        assert b in out[a] && o[a][b] == out[a][b];
        assert a in out[b] && o[b][a] == out[b][a];
      }
    }
  }

  /** Deleting slot `[u][v]` and its mirror slot keeps the mirror invariant. */
  lemma DeleteMirrored(out: Adjacency, inn: Adjacency, directed: bool, u: Vertex, v: Vertex)
    requires Mirrored(out, inn, directed) && (!directed ==> inn == out)
    requires u in out && v in out[u] && (directed || u != v)
    ensures directed ==> Mirrored(Delete(out, u, v), Delete(inn, v, u), directed)
    ensures !directed ==> Mirrored(Delete(Delete(out, u, v), v, u), Delete(Delete(out, u, v), v, u), directed)
  {
    if directed {
      DirectedDeleteMirrored(out, inn, u, v);
    } else {
      UndirectedDeleteMirrored(out, u, v);
    }
  }

  lemma DirectedDeleteMirrored(out: Adjacency, inn: Adjacency, u: Vertex, v: Vertex)
    requires Mirrored(out, inn, true)
    requires u in out && v in out[u]
    ensures Mirrored(Delete(out, u, v), Delete(inn, v, u), true)
  {
    var o, i := Delete(out, u, v), Delete(inn, v, u);
    forall a, b | a in o && b in o[a]
      ensures b in i && a in i[b] && i[b][a] == o[a][b] && Stored(o[a][b], a, b, true)
    {
      assert (a, b) != (u, v) && b in out[a] && o[a][b] == out[a][b];
    }
    forall b, a | b in i && a in i[b]
      ensures a in o && b in o[a] && o[a][b] == i[b][a]
    {
      assert (a, b) != (u, v) && a in inn[b] && i[b][a] == inn[b][a];
    }
  }

  lemma UndirectedDeleteMirrored(out: Adjacency, u: Vertex, v: Vertex)
    requires Mirrored(out, out, false)
    requires u in out && v in out[u] && u != v
    ensures Mirrored(Delete(Delete(out, u, v), v, u), Delete(Delete(out, u, v), v, u), false)
  {
    var m := Delete(Delete(out, u, v), v, u);
    forall a, b | a in m && b in m[a]
      ensures b in m && a in m[b] && m[b][a] == m[a][b] && Stored(m[a][b], a, b, false)
    {
      assert (a, b) != (u, v) && (a, b) != (v, u);
      assert b in out[a] && m[a][b] == out[a][b];
      assert a in out[b] && out[b][a] == out[a][b];
    }
  }

  /** Vertices listed once each. */
  predicate Distinct(s: seq<Vertex>)
  {
    forall i, j :: 0 <= i < j < |s| ==> s[i] != s[j]
  }

  /** `s` without `x`: what `pop(x)` does to the key order of a dictionary. */
  function Erase(s: seq<Vertex>, x: Vertex): (r: seq<Vertex>)
    ensures forall y :: y in r <==> y in s && y != x
    ensures Distinct(s) ==> Distinct(r)
    ensures x !in s ==> r == s
  {
    if s == [] then []
    else
      var rest := Erase(s[1..], x);
      assert Distinct(s) ==> Distinct(s[1..]) && s[0] !in s[1..];
      if s[0] == x then rest
      else
        assert forall i :: 0 < i < |[s[0]] + rest| ==> ([s[0]] + rest)[i] == rest[i - 1];
        [s[0]] + rest
  }

  /** Removing a vertex together with every slot that names it keeps the mirror invariant. */
  lemma DetachMirrored(out: Adjacency, inn: Adjacency, directed: bool, v: Vertex)
    requires Mirrored(out, inn, directed)
    ensures Mirrored(Detach(out, v), Detach(inn, v), directed)
  {
  }

  /** Once no slot of `m` names `v` any more, popping `v` leaves `Detach(m0, v)`. */
  lemma PopDetaches(m0: Adjacency, m: Adjacency, v: Vertex)
    requires m.Keys == m0.Keys
    requires forall a, b :: Lookup(m, a, b) == if a == v || b == v then None else Lookup(m0, a, b)
    ensures m - {v} == Detach(m0, v)
  {
    var d, p := Detach(m0, v), m - {v};
    forall a | a in p
      ensures p[a] == d[a]
    {
      forall b | b in p[a]
        ensures b in d[a] && d[a][b] == p[a][b]
      {
        assert Lookup(m, a, b) == Some(p[a][b]);
      }
      forall b | b in d[a]
        ensures b in p[a]
      {
        assert Lookup(m0, a, b) == Some(d[a][b]);
      }
    }
  }

  /** After `remove_edge(v, u)` for every `u` in `done`, the neighbours `v` had, no slot of
      `v`'s own map is left, nor (through the mirror) any slot that names `v` as neighbour. */
  lemma OutgoingCleared(out: Adjacency, inn: Adjacency, directed: bool, v: Vertex, done: set<Vertex>)
    requires Mirrored(out, inn, directed) && (!directed ==> inn == out)
    requires done == if v in out then out[v].Keys else {}
    ensures forall b :: b !in done ==> Lookup(out, v, b) == None
    ensures forall a :: a !in done ==> Lookup(inn, a, v) == None
  {
  }

  /** After `remove_edge(u, v)` for every `u` in `done`, the keys of `_incoming[v]`, no
      slot names `v` as neighbour and `_incoming[v]` is empty. */
  lemma IncomingCleared(out: Adjacency, inn: Adjacency, v: Vertex, done: set<Vertex>)
    requires Mirrored(out, inn, true)
    requires done == if v in inn then inn[v].Keys else {}
    ensures forall a :: a !in done ==> Lookup(out, a, v) == None
    ensures forall b :: b !in done ==> Lookup(inn, v, b) == None
  {
  }

  /** Slots `[v][u]` and, undirected, `[u][v]` join the slots already emptied. */
  lemma OutgoingStep(m0: Adjacency, m1: Adjacency, m2: Adjacency, directed: bool, v: Vertex, u: Vertex, done: set<Vertex>)
    requires forall a, b :: Lookup(m1, a, b) == if (a == v && b in done) || (!directed && b == v && a in done) then None else Lookup(m0, a, b)
    requires forall a, b :: (a, b) != (v, u) && (directed || (a, b) != (u, v)) ==> Lookup(m2, a, b) == Lookup(m1, a, b)
    requires Lookup(m2, v, u) == None && (!directed ==> Lookup(m2, u, v) == None)
    ensures forall a, b :: Lookup(m2, a, b) == if (a == v && b in done + {u}) || (!directed && b == v && a in done + {u}) then None else Lookup(m0, a, b)
  {
  }

  /** Slot `[u][v]` joins the slots already emptied. */
  lemma IncomingStep(m0: Adjacency, m1: Adjacency, m2: Adjacency, v: Vertex, u: Vertex, done: set<Vertex>)
    requires forall a, b :: Lookup(m1, a, b) == if b == v && a in done then None else Lookup(m0, a, b)
    requires forall a, b :: (a, b) != (u, v) ==> Lookup(m2, a, b) == Lookup(m1, a, b)
    requires Lookup(m2, u, v) == None
    ensures forall a, b :: Lookup(m2, a, b) == if b == v && a in done + {u} then None else Lookup(m0, a, b)
  {
  }

  /** Slot `[v][u]` joins the slots of row `v` already emptied. */
  lemma RowStep(m0: Adjacency, m1: Adjacency, v: Vertex, u: Vertex, done: set<Vertex>)
    requires v in m1
    requires forall a, b :: Lookup(m1, a, b) == if a == v && b in done then None else Lookup(m0, a, b)
    ensures forall a, b :: Lookup(Delete(m1, v, u), a, b) == if a == v && b in done + {u} then None else Lookup(m0, a, b)
  {
    DeleteLookup(m1, v, u);
  }

  /** Emptying row `v` and column `v`, in either order, leaves every slot naming `v` empty. */
  lemma ClearedBoth(m0: Adjacency, m1: Adjacency, m2: Adjacency, v: Vertex, rowFirst: bool)
    requires forall a, b :: Lookup(m1, a, b) == if (if rowFirst then a == v else b == v) then None else Lookup(m0, a, b)
    requires forall a, b :: Lookup(m2, a, b) == if (if rowFirst then b == v else a == v) then None else Lookup(m1, a, b)
    ensures forall a, b :: Lookup(m2, a, b) == if a == v || b == v then None else Lookup(m0, a, b)
  {
  }

  /** A row with no slot left is the empty map. */
  lemma RowEmpty(m: Adjacency, v: Vertex)
    requires forall b :: Lookup(m, v, b) == None
    ensures v in m ==> m[v] == map[]
  {
    if v in m {
      assert forall b :: b in m[v] ==> Lookup(m, v, b).Some?;
    }
  }

  /** In a well-formed graph an edge is stored somewhere exactly when it sits in its own
      slot `[origin][destination]`: what `edges()` reports is what `get_edge` finds. */
  lemma EdgesBySlot(out: Adjacency, inn: Adjacency, directed: bool, e: Edge)
    requires Mirrored(out, inn, directed) && (!directed ==> inn == out)
    ensures e in StoredEdges(out) <==> Lookup(out, e.origin, e.destination) == Some(e)
    ensures e in StoredEdges(out) ==> e.origin in out && e.destination in out
    ensures e in StoredEdges(out) && !directed ==> Lookup(out, e.destination, e.origin) == Some(e)
  {
    if e in StoredEdges(out) {
      var u, v :| u in out && v in out[u] && out[u][v] == e;
      SlotHoldsOwnEdge(out, inn, directed, u, v);
    }
  }

  /** The edge in slot `[u][v]` also sits in its own slot, and its endpoints are vertices. */
  lemma SlotHoldsOwnEdge(out: Adjacency, inn: Adjacency, directed: bool, u: Vertex, v: Vertex)
    requires Mirrored(out, inn, directed) && (!directed ==> inn == out)
    requires u in out && v in out[u]
    ensures Lookup(out, out[u][v].origin, out[u][v].destination) == Some(out[u][v])
    ensures !directed ==> Lookup(out, out[u][v].destination, out[u][v].origin) == Some(out[u][v])
    ensures v in out
  {
    var e := out[u][v];
    assert Stored(e, u, v, directed) && v in inn && u in inn[v] && inn[v][u] == e;
    if e.origin == u && e.destination == v {
      assert Lookup(out, u, v) == Some(e);
      if !directed {
        assert Lookup(out, v, u) == Some(e);
      }
    } else {
      assert Lookup(out, v, u) == Some(e);
      assert Lookup(out, u, v) == Some(e);
    }
  }

  /** The edges `incident_edges(v, side)` can report: in a directed graph those leaving `v`
      (outgoing side) or entering it (incoming side); in an undirected one those at `v`. */
  predicate Touches(e: Edge, v: Vertex, outgoingSide: bool, directed: bool)
  {
    if !directed then e.origin == v || e.destination == v
    else if outgoingSide then e.origin == v
    else e.destination == v
  }

  /** In a well-formed graph, `v`'s map on either side holds exactly the stored edges that
      touch `v` on that side. */
  lemma IncidentTouch(out: Adjacency, inn: Adjacency, directed: bool, v: Vertex, outgoingSide: bool)
    requires Mirrored(out, inn, directed) && (!directed ==> inn == out) && v in out
    ensures forall e :: e in (if outgoingSide then out else inn)[v].Values
                        <==> e in StoredEdges(out) && Touches(e, v, outgoingSide, directed)
  {
    var side := if outgoingSide then out else inn;
    forall e | e in side[v].Values
      ensures e in StoredEdges(out) && Touches(e, v, outgoingSide, directed)
    {
      var b :| b in side[v] && side[v][b] == e;
      if outgoingSide {
        assert Stored(out[v][b], v, b, directed);
      } else {
        assert b in out && v in out[b] && out[b][v] == e;
        assert Stored(out[b][v], b, v, directed);
      }
    }
    forall e | e in StoredEdges(out) && Touches(e, v, outgoingSide, directed)
      ensures e in side[v].Values
    {
      EdgesBySlot(out, inn, directed, e);
      if e.origin == v && (outgoingSide || !directed) {
        assert side[v][e.destination] == e;
      } else if directed {
        assert side[v][e.origin] == e;
      } else {
        assert side[v][e.origin] == e;
      }
    }
  }

  /** In a directed graph with the mirror invariant, `v`'s incoming map has one entry per
      vertex with an edge into `v`. */
  lemma {:induction false} InDegree(out: Adjacency, inn: Adjacency, v: Vertex)
    requires Mirrored(out, inn, true) && v in out
    ensures |inn[v]| == |set u | u in out && Lookup(out, u, v).Some?|
  {
    assert inn[v].Keys == set u | u in out && Lookup(out, u, v).Some?;
  }

  /** `IncidentTouch` and `InDegree` as facts that hold whenever the mirror invariant does,
      for the graph's queries to draw on. */
  lemma SideFacts(out: Adjacency, inn: Adjacency, directed: bool, v: Vertex, outgoingSide: bool)
    ensures Mirrored(out, inn, directed) && (!directed ==> inn == out) && v in out ==>
      forall e :: e in (if outgoingSide then out else inn)[v].Values
                  <==> e in StoredEdges(out) && Touches(e, v, outgoingSide, directed)
    ensures Mirrored(out, inn, directed) && directed && v in out ==>
      |inn[v]| == |set u | u in out && Lookup(out, u, v).Some?|
  {
    if Mirrored(out, inn, directed) && v in out {
      if !directed ==> inn == out {
        IncidentTouch(out, inn, directed, v, outgoingSide);
      }
      if directed {
        InDegree(out, inn, v);
      }
    }
  }

  /** `insert_vertex` of a vertex that is already there empties its adjacency but leaves
      the slots of other vertices that name it: the mirror invariant is lost. */
  lemma ReinsertionOrphans(out: Adjacency, inn: Adjacency, directed: bool, v: Vertex, a: Vertex)
    requires v in out && a in out && a != v && v in out[a]
    ensures !Mirrored(out[v := map[]], if directed then inn[v := map[]] else out[v := map[]], directed)
  {
    var out' := out[v := map[]];
    var inn' := if directed then inn[v := map[]] else out';
    assert out'[a][v] == out[a][v];
    assert a !in inn'[v];
  }

  /** Lists a set in some order: Python iterates a set of edge objects in an order that
      depends on their identities, which the model leaves open. */
  method Enumerate(s: set<Edge>) returns (list: seq<Edge>)
    ensures EdgeSet(list) == s && |list| == |s|
  {
    list := [];
    var rest := s;
    while rest != {}
      invariant rest <= s && EdgeSet(list) == s - rest && |list| + |rest| == |s|
      decreases rest
    {
      var e :| e in rest;
      assert EdgeSet(list + [e]) == EdgeSet(list) + {e};
      list := list + [e];
      rest := rest - {e};
    }
  }

  class Graph {
    var outgoing: Adjacency
    /** The separate `_incoming` dictionary; only a directed graph uses it. */
    var incoming: Adjacency
    /** The keys of `_outgoing` in insertion order, the order `vertices()` yields them in. */
    var order: seq<Vertex>
    const directed: bool

    /** `_incoming` as the program sees it: in an undirected graph, `_outgoing` itself. */
    function Incoming(): Adjacency
      reads this
    {
      if directed then incoming else outgoing
    }

    /** The layout every operation keeps: `order` lists the vertices once each, and a
        directed graph has an incoming entry for exactly its vertices. */
    ghost predicate Valid()
      reads this
    {
      && Distinct(order)
      && VertexSet(order) == outgoing.Keys
      && (if directed then incoming.Keys == outgoing.Keys else incoming == map[])
    }

    /** The mirror invariant of the graph (see `Mirrored`). */
    ghost predicate WellFormed()
      reads this
    {
      Mirrored(outgoing, Incoming(), directed)
    }

    constructor(directed: bool)
      ensures this.directed == directed && outgoing == map[] && order == []
      ensures Valid() && WellFormed()
    {
      this.directed := directed;
      outgoing := map[];
      incoming := map[];
      order := [];
    }

    /** `insert_vertex(element)`: the vertex gets an empty adjacency map, replacing any
        adjacency an equal vertex already had; a new vertex goes last in `vertices()`. */
    method InsertVertex(element: Element) returns (v: Vertex)
      requires Valid()
      modifies this
      ensures Valid()
      ensures v == Vertex(element) && v.element == element
      ensures outgoing == old(outgoing)[v := map[]]
      ensures Incoming() == old(Incoming())[v := map[]]
      ensures order == if v in old(outgoing) then old(order) else old(order) + [v]
      ensures old(WellFormed()) && v !in old(outgoing) ==> WellFormed()
    {
      v := Vertex(element);
      if v !in outgoing {
        order := order + [v];
      }
      outgoing := outgoing[v := map[]];
      if directed {
        incoming := incoming[v := map[]];
      }
    }

    /** `get_edge(u, v)`: the edge stored in slot `[u][v]`, or `None`. */
    function GetEdge(u: Vertex, v: Vertex): (r: Option<Edge>)
      reads this
      ensures r.Some? <==> u in outgoing && v in outgoing[u]
      ensures r.Some? ==> r.value == outgoing[u][v]
    {
      Lookup(outgoing, u, v)
    }

    /** `insert_edge(u, v, element)`: writes `Edge(u, v, element)` into `_outgoing[u][v]` and
        then into `_incoming[v][u]`. A missing `u` raises before any write; a missing `v`
        raises after the first write, which stays. */
    method InsertEdge(u: Vertex, v: Vertex, weight: nat) returns (r: Result<Edge, KeyError>)
      requires Valid()
      modifies this
      ensures Valid() && order == old(order)
      ensures u !in old(outgoing) ==> r.Err? && outgoing == old(outgoing) && incoming == old(incoming)
      ensures u in old(outgoing) && v !in old(outgoing) ==>
        && r.Err?
        && outgoing == Put(old(outgoing), u, v, Edge(u, v, weight)) && incoming == old(incoming)
      ensures u in old(outgoing) && v in old(outgoing) ==>
        && r == Ok(Edge(u, v, weight))
        && outgoing == (if directed then Put(old(outgoing), u, v, r.value)
                        else Put(Put(old(outgoing), u, v, r.value), v, u, r.value))
        && incoming == (if directed then Put(old(incoming), v, u, r.value) else old(incoming))
      ensures r.Ok? ==>
        && GetEdge(u, v) == Some(r.value) && (!directed ==> GetEdge(v, u) == Some(r.value))
        && forall a, b :: (a, b) != (u, v) && (directed || (a, b) != (v, u)) ==> Lookup(outgoing, a, b) == Lookup(old(outgoing), a, b)
      ensures r.Ok? && old(WellFormed()) ==> WellFormed()
    {
      var e := Edge(u, v, weight);
      if u !in outgoing {
        return Err(KeyError);
      }
      if v !in outgoing {
        outgoing := Put(outgoing, u, v, e);
        return Err(KeyError);
      }
      if old(WellFormed()) {
        PutMirrored(outgoing, Incoming(), directed, u, v, e);
      }
      PutLookup(outgoing, u, v, e);
      var out1 := Put(outgoing, u, v, e);
      if directed {
        outgoing, incoming := out1, Put(incoming, v, u, e);
      } else {
        PutLookup(out1, v, u, e);
        outgoing := Put(out1, v, u, e);
      }
      r := Ok(e);
    }

    /** `remove_edge(u, v)`: when slot `[u][v]` holds an edge, deletes it and then slot
        `[v][u]` of `_incoming`; a missing second slot raises after the first deletion.
        Otherwise nothing happens. */
    method RemoveEdge(u: Vertex, v: Vertex) returns (r: Result<(), KeyError>)
      requires Valid()
      modifies this
      ensures Valid() && order == old(order)
      ensures !(u in old(outgoing) && v in old(outgoing)[u]) ==>
        r.Ok? && outgoing == old(outgoing) && incoming == old(incoming)
      ensures u in old(outgoing) && v in old(outgoing)[u] && directed ==>
        && outgoing == Delete(old(outgoing), u, v)
        && if v in old(incoming) && u in old(incoming)[v] then r.Ok? && incoming == Delete(old(incoming), v, u)
           else r.Err? && incoming == old(incoming)
      ensures u in old(outgoing) && v in old(outgoing)[u] && !directed ==>
        && incoming == old(incoming)
        && if v in old(outgoing) && u in old(outgoing)[v] && u != v then
             r.Ok? && outgoing == Delete(Delete(old(outgoing), u, v), v, u)
           else r.Err? && outgoing == Delete(old(outgoing), u, v)
      ensures r.Ok? ==> forall a, b :: (a, b) != (u, v) && (directed || (a, b) != (v, u)) ==>
        Lookup(outgoing, a, b) == Lookup(old(outgoing), a, b)
      ensures old(WellFormed()) ==>
        && (r.Err? <==> !directed && u == v && u in old(outgoing) && u in old(outgoing)[u])
        && (r.Ok? ==> WellFormed() && Lookup(outgoing, u, v) == None && (!directed ==> Lookup(outgoing, v, u) == None))
    {
      if u !in outgoing || v !in outgoing[u] {
        r := Ok(());
      } else if directed {
        r := RemoveDirected(u, v);
      } else {
        r := RemoveUndirected(u, v);
      }
    }

    /** `remove_edge(u, v)` on a directed graph whose slot `[u][v]` holds an edge. */
    method RemoveDirected(u: Vertex, v: Vertex) returns (r: Result<(), KeyError>)
      requires Valid() && directed && u in outgoing && v in outgoing[u]
      modifies this
      ensures Valid() && order == old(order) && outgoing == Delete(old(outgoing), u, v)
      ensures if v in old(incoming) && u in old(incoming)[v] then r.Ok? && incoming == Delete(old(incoming), v, u)
              else r.Err? && incoming == old(incoming)
      ensures r.Ok? ==> forall a, b :: (a, b) != (u, v) ==> Lookup(outgoing, a, b) == Lookup(old(outgoing), a, b)
      ensures old(WellFormed()) ==> r.Ok? && WellFormed() && Lookup(outgoing, u, v) == None
    {
      DeleteLookup(outgoing, u, v);
      var out1 := Delete(outgoing, u, v);
      if v in incoming && u in incoming[v] {
        outgoing, incoming := out1, Delete(incoming, v, u);
        if old(WellFormed()) {
          assert WellFormed() by { DeleteMirrored(old(outgoing), old(incoming), directed, u, v); }
        }
        r := Ok(());
      } else {
        outgoing := out1;
        r := Err(KeyError);
      }
    }

    /** `remove_edge(u, v)` on an undirected graph whose slot `[u][v]` holds an edge: the
        second deletion, of slot `[v][u]` of the same dictionary, raises for a self-loop. */
    method RemoveUndirected(u: Vertex, v: Vertex) returns (r: Result<(), KeyError>)
      requires Valid() && !directed && u in outgoing && v in outgoing[u]
      modifies this
      ensures Valid() && order == old(order) && incoming == old(incoming)
      ensures if v in old(outgoing) && u in old(outgoing)[v] && u != v then
                r.Ok? && outgoing == Delete(Delete(old(outgoing), u, v), v, u)
              else r.Err? && outgoing == Delete(old(outgoing), u, v)
      ensures r.Ok? ==> forall a, b :: (a, b) != (u, v) && (a, b) != (v, u) ==>
        Lookup(outgoing, a, b) == Lookup(old(outgoing), a, b)
      ensures old(WellFormed()) ==>
        && (r.Err? <==> u == v)
        && (r.Ok? ==> WellFormed() && Lookup(outgoing, u, v) == None && Lookup(outgoing, v, u) == None)
    {
      DeleteLookup(outgoing, u, v);
      var out1 := Delete(outgoing, u, v);
      if v in out1 && u in out1[v] {
        DeleteLookup(out1, v, u);
        outgoing := Delete(out1, v, u);
        if old(WellFormed()) {
          assert WellFormed() by { DeleteMirrored(old(outgoing), old(outgoing), directed, u, v); }
        }
        r := Ok(());
      } else {
        outgoing := out1;
        r := Err(KeyError);
      }
    }

    /** The first loop of `remove_vertex(v)`: `remove_edge(v, u)` for each neighbour `u` that
        `v` had when the loop started. In an undirected graph a self-loop at `v` is deleted
        once from each side of the one dictionary, and the second deletion raises. */
    method RemoveOutgoingEdges(v: Vertex) returns (r: Result<(), KeyError>)
      requires Valid()
      modifies this
      ensures Valid() && order == old(order) && outgoing.Keys == old(outgoing).Keys
      ensures old(WellFormed()) ==>
        && (r.Err? <==> !directed && v in old(outgoing) && v in old(outgoing)[v])
        && (r.Ok? ==> WellFormed())
        && (r.Ok? ==> forall a, b ::
              Lookup(outgoing, a, b) == if a == v || (!directed && b == v) then None else Lookup(old(outgoing), a, b))
        && (r.Ok? && directed ==> forall a, b ::
              Lookup(incoming, a, b) == if b == v then None else Lookup(old(incoming), a, b))
    {
      ghost var wf := WellFormed();
      var todo := if v in outgoing then outgoing[v].Keys else {};
      ghost var done: set<Vertex> := {};
      r := Ok(());
      while todo != {}
        invariant Valid() && order == old(order) && outgoing.Keys == old(outgoing).Keys
        invariant todo !! done && todo + done == if v in old(outgoing) then old(outgoing)[v].Keys else {}
        invariant wf ==> r.Ok? && WellFormed()
        invariant wf && !directed ==> v !in done
        invariant wf ==> forall a, b ::
          Lookup(outgoing, a, b) == if (a == v && b in done) || (!directed && b == v && a in done) then None else Lookup(old(outgoing), a, b)
        invariant wf && directed ==> forall a, b ::
          Lookup(incoming, a, b) == if b == v && a in done then None else Lookup(old(incoming), a, b)
        decreases todo
      {
        var u :| u in todo;
        ghost var out0, inc0 := outgoing, incoming;
        r := RemoveEdge(v, u);
        if r.Err? {
          return;
        }
        if wf {
          OutgoingStep(old(outgoing), out0, outgoing, directed, v, u, done);
          if directed {
            DeleteLookup(inc0, u, v);
          }
        }
        todo, done := todo - {u}, done + {u};
      }
      if wf {
        OutgoingCleared(old(outgoing), old(Incoming()), directed, v, done);
      }
    }

    /** The second loop of `remove_vertex(v)`: `remove_edge(u, v)` for each `u` in
        `_incoming[v]` as it stands after the first loop. */
    method RemoveIncomingEdges(v: Vertex) returns (r: Result<(), KeyError>)
      requires Valid()
      modifies this
      ensures Valid() && order == old(order) && outgoing.Keys == old(outgoing).Keys
      ensures old(WellFormed()) && directed ==>
        && r.Ok? && WellFormed()
        && (forall a, b :: Lookup(outgoing, a, b) == if b == v then None else Lookup(old(outgoing), a, b))
        && (forall a, b :: Lookup(incoming, a, b) == if a == v then None else Lookup(old(incoming), a, b))
      ensures !directed && (v in old(outgoing) ==> old(outgoing)[v] == map[]) ==>
        r.Ok? && outgoing == old(outgoing)
    {
      ghost var wf := WellFormed() && directed;
      ghost var idle := !directed && (v in outgoing ==> outgoing[v] == map[]);
      var inn := Incoming();
      var todo := if v in inn then inn[v].Keys else {};
      ghost var done: set<Vertex> := {};
      r := Ok(());
      while todo != {}
        invariant Valid() && order == old(order) && outgoing.Keys == old(outgoing).Keys
        invariant todo !! done && todo + done == if v in inn then inn[v].Keys else {}
        invariant idle ==> todo == {} && r.Ok? && outgoing == old(outgoing)
        invariant wf ==> r.Ok? && WellFormed()
        invariant wf ==> forall a, b ::
          Lookup(outgoing, a, b) == if b == v && a in done then None else Lookup(old(outgoing), a, b)
        invariant wf ==> forall a, b ::
          Lookup(incoming, a, b) == if a == v && b in done then None else Lookup(old(incoming), a, b)
        decreases todo
      {
        var u :| u in todo;
        if wf {
          assert Lookup(inn, v, u).Some?;
        }
        ghost var out0, inc0 := outgoing, incoming;
        r := RemoveEdge(u, v);
        if r.Err? {
          return;
        }
        if wf {
          IncomingStep(old(outgoing), out0, outgoing, v, u, done);
          RowStep(old(incoming), inc0, v, u, done);
        }
        todo, done := todo - {u}, done + {u};
      }
      if wf {
        IncomingCleared(old(outgoing), old(incoming), v, done);
      }
    }

    /** `remove_vertex(v)`: removes every edge at `v` through `remove_edge`, then pops `v`.
        A vertex that is not there is ignored. */
    method RemoveVertex(v: Vertex) returns (r: Result<(), KeyError>)
      requires Valid()
      modifies this
      ensures Valid()
      ensures r.Ok? ==> outgoing.Keys == old(outgoing).Keys - {v} && order == Erase(old(order), v)
      ensures old(WellFormed()) ==>
        && (r.Err? <==> !directed && v in old(outgoing) && v in old(outgoing)[v])
        && (r.Ok? ==> && WellFormed()
                      && outgoing == Detach(old(outgoing), v)
                      && Incoming() == Detach(old(Incoming()), v))
    {
      r := RemoveOutgoingEdges(v);
      if r.Ok? {
        ghost var out1, inc1 := outgoing, incoming;
        if old(WellFormed()) && !directed {
          RowEmpty(outgoing, v);
        }
        r := RemoveIncomingEdges(v);
        if r.Ok? {
          ghost var out2, inc2 := outgoing, incoming;
          outgoing := outgoing - {v};
          if directed {
            incoming := incoming - {v};
          }
          order := Erase(order, v);
          if old(WellFormed()) {
            if directed {
              ClearedBoth(old(outgoing), out1, out2, v, true);
              ClearedBoth(old(incoming), inc1, inc2, v, false);
              PopDetaches(old(incoming), inc2, v);
            }
            PopDetaches(old(outgoing), out2, v);
            DetachMirrored(old(outgoing), old(Incoming()), directed, v);
          }
        }
      }
    }

    /** `vertices()`: the vertices in insertion order. */
    function Vertices(): (r: seq<Vertex>)
      reads this
      requires Valid()
      ensures Distinct(r) && VertexSet(r) == outgoing.Keys
    {
      order
    }

    /** `edges()`: the union of the edge values of every adjacency map. */
    method Edges() returns (seen: set<Edge>)
      requires Valid()
      ensures seen == StoredEdges(outgoing)
    {
      seen := {};
      for i := 0 to |order|
        invariant seen == set u, w | u in order[..i] && u in outgoing && w in outgoing[u] :: outgoing[u][w]
      {
        seen := seen + outgoing[order[i]].Values;
      }
    }

    /** `neighbors(v)`: the vertices `v` has an edge to. */
    function Neighbors(v: Vertex): (r: Result<set<Vertex>, KeyError>)
      reads this
      ensures r.Ok? <==> v in outgoing
      ensures r.Ok? ==> forall u :: u in r.value <==> GetEdge(v, u).Some?
    {
      if v in outgoing then Ok(outgoing[v].Keys) else Err(KeyError)
    }

    /** The dictionary `degree` and `incident_edges` consult: `_outgoing`, or `_incoming`. */
    function Side(outgoingSide: bool): Adjacency
      reads this
    {
      if outgoingSide then outgoing else Incoming()
    }

    /** `degree(v, outgoing)`: the size of `v`'s map on the chosen side. */
    function Degree(v: Vertex, outgoingSide: bool): (r: Result<nat, KeyError>)
      reads this
      requires Valid()
      ensures r.Ok? <==> v in outgoing
      ensures r.Ok? && (outgoingSide || !directed) ==> r.value == |Neighbors(v).value|
      ensures r.Ok? && !outgoingSide && directed && WellFormed() ==>
        r.value == |set u | u in outgoing && Lookup(outgoing, u, v).Some?|
    {
      SideFacts(outgoing, Incoming(), directed, v, outgoingSide);
      if v in Side(outgoingSide) then Ok(|Side(outgoingSide)[v]|) else Err(KeyError)
    }

    /** `incident_edges(v, outgoing)`: the edges in `v`'s map on the chosen side. */
    function IncidentEdges(v: Vertex, outgoingSide: bool): (r: Result<set<Edge>, KeyError>)
      reads this
      requires Valid()
      ensures r.Ok? <==> v in outgoing
      ensures r.Ok? ==> r.value <= StoredEdges(Side(outgoingSide))
      ensures r.Ok? && WellFormed() ==>
        forall e :: e in r.value <==> e in StoredEdges(outgoing) && Touches(e, v, outgoingSide, directed)
    {
      SideFacts(outgoing, Incoming(), directed, v, outgoingSide);
      if v in Side(outgoingSide) then Ok(Side(outgoingSide)[v].Values) else Err(KeyError)
    }

    /** `kruskal_mst()`: Kruskal over `vertices()` and the edges sorted by weight, with the
        plain `union` of this file. */
    method KruskalMst() returns (mst: seq<Edge>)
      requires Valid()
      requires forall e :: e in StoredEdges(outgoing) ==> e.origin in outgoing && e.destination in outgoing
      ensures exists edges :: EdgeSet(edges) == StoredEdges(outgoing) && |edges| == |StoredEdges(outgoing)|
                              && mst == Greedy(SortBy(edges, Weight))
      ensures exists reps :: Representatives(outgoing.Keys, StoredEdges(outgoing), reps)
                             && |mst| + |reps| == |outgoing.Keys|
    {
      var all := Edges();
      var edges := Enumerate(all);
      mst := Kruskal(order, edges, false);
    }
  }
}
