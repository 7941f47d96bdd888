# Drone delivery routing and route analytics, modelled in Dafny

This project models the algorithmic core of a drone delivery simulator written in Python.

- **Graph storage.** A weighted adjacency-map graph, directed or undirected. In an undirected graph one dictionary serves as both the outgoing and the incoming map. Vertex and edge insertion and removal are modelled, with vertex removal cascading to the vertex's edges.
- **Minimum spanning forests.** Kruskal's scan over a disjoint-set forest. `find` uses path halving. There are two versions: the plain `union` inside the graph class and the union by rank of `sim/kruskal.py`.
- **Battery-constrained route searches.**
  - A first-in first-out search whose carried cost restarts on entering a recharge node.
  - A plain lazy-deletion Dijkstra search.
  - A cheapest-first search over `(node, battery, used recharge nodes)` states. It prunes dominated states and breaks ties with a push counter.
- **Route frequency index.** A binary search tree over route signatures, rebalanced with AVL rotations driven by stored heights, plus a table that counts every insert.
- **Analytics glue.**
  - From the dashboard: recording a found route (its signature goes into the index and every node on it gets one more visit), the most-frequent-routes ranking, and the per-role visit lists.
  - From the order simulator: the delivered/failed decision and the printed report.
  - From the HTTP API, its in-memory logic only: the readiness test, the cancel and complete status transitions, the role-filtered visit reports and the route count of the summary.

## Layout

One file per module.

| file | module |
|---|---|
| `wrappers.dfy` | `Option` and `Result` |
| `text.dfy` | Python's `<` on `str`, `str()` of an integer, and `sep.join` |
| `vertex.dfy` | `Vertex` |
| `edge.dfy` | the edge record |
| `graph.dfy` | class `Graph` and the value-level theory of its two maps |
| `forest.dfy`, `union_find.dfy` | the disjoint-set forest and its operations |
| `sorting.dfy` | Python's stable `sorted(..., key=...)` |
| `spanning.dfy` | the Kruskal scan shared by both implementations |
| `sim_kruskal.dfy` | `sim/kruskal.py` |
| `paths.dfy` | paths and their weights |
| `simulation.dfy` | the first-in first-out search |
| `heap.dfy` | the heap pop order |
| `dijkstra.dfy` | the plain Dijkstra search |
| `recharge.dfy`, `recharge_search.dfy` | `dijkstra_with_recharge` |
| `avl.dfy` | the route index |
| `route.dfy` | route signatures |
| `dashboard.dfy` | the dashboard glue |
| `orders.dfy` | the order simulator |
| `api.dfy` | the API logic |

### Modelling choices

- **Objects the source mutates in place are classes.** These are `Graphs.Graph`, `AvlTrees.Avl`, `Dashboard.Session`, `Orders.OrderSimulator` and `Api.ApiState`.
- **The aliasing of the undirected graph is modelled exactly.** The class keeps one `outgoing` map, and `Incoming()` is that same map when the graph is undirected, so every write through one name is a write through the other.
- **The local dictionaries of the searches and of Kruskal are `map`s.** The loops that update them are methods with loop invariants.
- **Order is left open where Python's is arbitrary.** This covers the order in which a Python set or a neighbour dictionary is iterated. Every result is stated for every such order.
- **Heaps are sequences in push order.** `heapq.heappop` returns the first entry of least cost, which is the least `(cost, counter)` tuple.
- **Each exception is an `Err` result.**
  - `KeyError` from a dictionary lookup is `Err(KeyError)`.
  - `TypeError` from comparing two vertices is `Err(TypeError)`.
  - `TypeError` from `', '.join` on a recharge stop that is not a `str` is `Err(TypeError)` in the order simulator. It ends `process_orders` at that order, before its lines are printed.
  - `HTTPException` is `Err(HttpError(code, detail))`.
- **`float('inf')` is `None`.** In the order simulator it is `Cost.Infinite`.

### Where the design description and the code differ (the model follows the code)

- **The route index does not keep the AVL balance bound.**
  - The design promises that the left and right heights differ by at most 1 at every node after every insert.
  - The code stores a new leaf with height 0 (`tda/avl.py:6`), the same height it gives an absent child (`tda/avl.py:30`).
  - As a result, inserting `"3"`, `"2"` and `"1"` leaves an unrotated chain whose true heights differ by 2 at the root (`AvlTrees.ChainOf321`, `AvlTrees.ChainUnbalanced`).
  - The model proves the search-tree order and the counts, and no balance bound.
- **`find` uses path halving, not full path compression.** It sets `parent[u] = parent[parent[u]]`.
- **`insert_edge` raises `KeyError`, not a dedicated invalid-vertex error.** When only `v` is absent, slot `[u][v]` has already been written when the error is raised. The model keeps that partial write.
- **Kruskal has no deterministic tie-break.** Python's stable sort keeps the iteration order of a set of edge objects, so the model states the result for every listing of the edges.
- **In the first-in first-out search the cost restarts on entering a recharge node.**
  - The carried cost restarts at the weight of the edge that entered the recharge node.
  - Leaving a recharge node, every edge is allowed.
  - The weight check `cost + w <= limit` applies only when leaving a node that is not a recharge node.
- **Recharge stops documented as vertices cannot be printed.** The route manager documents its stops as a list of vertices (`managers/route_manager.py:15`). `print_order_result` joins them with `', '.join` (`sim/order_simulator.py:54`), which accepts only strings. The model lets a stop be any value and raises `TypeError` on one that is not a string (`Orders.VertexStopRaises`).
- **A failed order has cost 0, not the unreachable sentinel.** `generate_order` returns an empty path, cost 0, no stops and status `"Fallido"`.
- **Which absent endpoints raise `KeyError` differs between the searches.**
  - In `bfs_shortest_path` and `dijkstra_with_recharge` only an absent start raises, from `neighbors`. An absent goal is never reached, so the search runs out and answers `None` (`sim/simulation.py:34`) or `(None, inf)` (`sim/dijkstra.py:71`).
  - Even an absent start does not raise in those two when `start == goal`: both answer at once.
  - In `dijkstra_shortest_path` an absent start or an absent goal raises. An absent start raises from `neighbors`, or from `prev[goal]` when it is also the goal. An absent goal raises from `prev[goal]` (`sim/dijkstra.py:27`).

## Model

| member | source | states |
|---|---|---|
| Vertices.Equals | model/vertex.py:13-14 | `v == other` holds exactly when `other` is a vertex whose element equals `v`'s; a vertex never equals a non-vertex |
| Vertices.EqualsImpliesEqualHash | model/vertex.py:10-14 | equal vertices have equal hashes, whatever hash the elements have |
| Vertices.StrNotInjective | model/vertex.py:16-17 | the integer 1 and the string "1" print alike although the two vertices are unequal |
| Vertices.IntStrInjective | model/vertex.py:16-17 | two integer vertices with the same string form are the same vertex |
| Vertices.IntToStringInjective | model/vertex.py:16-17 | distinct integers print differently (sign included) |
| Vertices.NatToStringInjective | model/vertex.py:16-17 | distinct non-negative integers have distinct decimal forms |
| Vertices.IntStrAvoids | model/vertex.py:16-17 | the string of an integer vertex holds only digits and a minus sign |
| Text.NatToString | sim/order_simulator.py:59 | `str(n)` of a non-negative integer is a non-empty string of decimal digits |
| Text.NatToStringValue | sim/order_simulator.py:59 | the digits of `str(n)` read back as `n`, and only `str(0)` starts with `0` |
| Text.IntToString | sim/order_simulator.py:61 | `str(i)` is non-empty and starts with `-` exactly when `i` is negative |
| Text.IntToStringValue | sim/order_simulator.py:61 | `str(i)` of a non-negative `i` is its decimal digits; of a negative `i`, `-` followed by the digits of `-i` without a leading zero |
| Text.Join | sim/order_simulator.py:54 | joining no parts gives the empty string, and one part gives that part |
| Text.JoinShape | sim/order_simulator.py:54 | a join starts with the first part and is as long as the parts plus one separator between each two |
| Text.JoinInjective | visual/dashboard.py:218 | for non-empty lists of parts, joining with a separator containing a character no part contains determines the parts |
| Text.LessIrreflexive | tda/avl.py:20-24 | no string is below itself under Python's `<` on `str` |
| Text.LessAsymmetric | tda/avl.py:20-24 | `a < b` excludes `b < a` |
| Text.LessTransitive | tda/avl.py:20-24 | `<` on strings is transitive |
| Text.LessTotal | tda/avl.py:20-24 | two distinct strings are ordered one way or the other, so `_insert`'s three branches cover every key |
| Routes.Names | visual/dashboard.py:218 | one string per vertex of the path, `str(v)` in path order |
| Routes.SignatureInjective | visual/dashboard.py:218 | on integer vertices the `" → "` signature determines the path |
| Graphs.Graph.constructor | model/graph.py:5-8 | an empty graph with the given direction; undirected, the incoming map is the outgoing map itself |
| Graphs.Graph.InsertVertex | model/graph.py:13-18 | the vertex wraps the element and gets an empty map on both sides, replacing any adjacency an equal vertex had; a new vertex goes last in `vertices()`; the mirror invariant is kept for a new vertex |
| Graphs.ReinsertionOrphans | model/graph.py:13-18 | re-inserting a vertex that a neighbour still names breaks the mirror invariant |
| Graphs.Graph.GetEdge | model/graph.py:40-41 | the edge in slot `[u][v]` when there is one, `None` otherwise |
| Graphs.Put | model/graph.py:22-23 | a write fills slot `[a][b]` and keeps the vertex set |
| Graphs.PutLookup | model/graph.py:22-23 | a write changes exactly the slot it writes |
| Graphs.Graph.InsertEdge | model/graph.py:20-24 | `u` absent: `KeyError`, nothing written; `v` absent: `KeyError` after slot `[u][v]` was written; otherwise the new edge is in `[u][v]`, and also in `[v][u]` when undirected (one dictionary), and every other slot is unchanged; keeps the mirror invariant |
| Graphs.PutMirrored | model/graph.py:20-24 | writing a slot and its mirror slot keeps the mirror invariant, directed or undirected |
| Graphs.Delete | model/graph.py:28-29 | a deletion empties slot `[a][b]` and keeps the vertex set |
| Graphs.DeleteLookup | model/graph.py:28-29 | a deletion empties exactly the slot it deletes |
| Graphs.Graph.RemoveEdge | model/graph.py:26-29 | no edge in `[u][v]`: nothing changes; otherwise slot `[u][v]` and then `_incoming[v][u]` are deleted, and a missing second slot raises after the first deletion; no other slot changes; keeps the mirror invariant |
| Graphs.Graph.RemoveDirected | model/graph.py:26-29 | directed case: both maps lose the edge, and a well-formed graph never raises |
| Graphs.Graph.RemoveUndirected | model/graph.py:26-29 | undirected case: both slots of the one dictionary are deleted; a self-loop is deleted twice and raises |
| Graphs.DeleteMirrored | model/graph.py:26-29 | deleting a slot and its mirror slot keeps the mirror invariant |
| Graphs.Graph.RemoveOutgoingEdges | model/graph.py:32-33 | after `remove_edge(v, u)` for each neighbour of `v`, no slot of `v`'s map is left, nor any slot that names `v` through the mirror |
| Graphs.OutgoingCleared | model/graph.py:32-33 | after the neighbours in `done` were handled, `v`'s row and their mirror slots are empty |
| Graphs.Graph.RemoveIncomingEdges | model/graph.py:34-35 | after `remove_edge(u, v)` for each `u` of `_incoming[v]`, no slot names `v` as a neighbour |
| Graphs.IncomingCleared | model/graph.py:34-35 | after the sources in `done` were handled, no slot names `v` as their neighbour |
| Graphs.ClearedBoth | model/graph.py:31-35 | emptying `v`'s row and column, in either order, empties exactly the slots that name `v` |
| Graphs.Detach | model/graph.py:36-38 | the map without `v`: `v` is no key and no neighbour, and every other slot is kept |
| Graphs.PopDetaches | model/graph.py:36-38 | once no slot names `v`, `pop(v)` leaves the original map detached from `v` |
| Graphs.DetachMirrored | model/graph.py:31-38 | removing a vertex with every slot naming it keeps the mirror invariant |
| Graphs.Erase | model/graph.py:36 | `pop(v)` removes `v` from the key order and keeps the other keys in order, once each |
| Graphs.Graph.RemoveVertex | model/graph.py:31-38 | the vertex goes from the vertices and the key order; in a well-formed graph no remaining map names it, every other slot is kept, and the mirror invariant holds; an absent vertex is ignored |
| Graphs.Graph.Vertices | model/graph.py:43-44 | each vertex once, exactly the keys of `_outgoing` |
| Graphs.Graph.Edges | model/graph.py:46-50 | the set of edge objects stored in any slot, each once |
| Graphs.EdgesBySlot | model/graph.py:46-50 | in a well-formed graph an edge is stored exactly when it sits in its own slot `[origin][destination]` (and, undirected, also `[destination][origin]`); its endpoints are vertices |
| Graphs.SlotHoldsOwnEdge | model/graph.py:40-50 | the edge found in any slot also sits in its own slot, and the neighbour is a vertex |
| Graphs.Graph.Neighbors | model/graph.py:52-53 | `KeyError` exactly for a non-vertex; otherwise the vertices `u` with an edge in `[v][u]` |
| Paths.MirroredClosed | model/graph.py:52-53 | in a well-formed graph every neighbour is itself a vertex, so the searches' `neighbors` calls cannot raise |
| Graphs.Graph.Degree | model/graph.py:55-57 | `KeyError` exactly for a non-vertex; on the outgoing side (or undirected) the number of neighbours; on the incoming side of a well-formed directed graph the number of vertices with an edge into `v` |
| Graphs.InDegree | model/graph.py:55-57 | in a well-formed directed graph `v`'s incoming map has one entry per vertex with an edge into `v` |
| Graphs.Graph.IncidentEdges | model/graph.py:59-61 | `KeyError` exactly for a non-vertex; otherwise stored edges of the chosen side, and in a well-formed graph exactly the stored edges touching `v` on that side |
| Graphs.IncidentTouch | model/graph.py:59-61 | in a well-formed graph `v`'s map on a side holds exactly the stored edges touching `v` on that side |
| Graphs.Enumerate | model/graph.py:84 | a set of edges listed in some order, each once |
| Graphs.Graph.KruskalMst | model/graph.py:64-91 | the greedy forest of some listing of `edges()` sorted by weight, with one edge fewer than vertices per connected component |
| UnionFind.MakeSets | sim/kruskal.py:25-27 | every vertex is its own root with rank 0, and the ranks level the forest |
| UnionFind.Find | sim/kruskal.py:7-11 | returns the root of `u`; after path halving every vertex reaches the same root and the roots are unchanged |
| Forests.HalvingKeepsRoot | sim/kruskal.py:9 | one halving step keeps the forest levelled and every vertex's root |
| Forests.Link | sim/kruskal.py:18-20 | linking a root under another sends exactly the loser's set to the winner and drops one root |
| UnionFind.LinkMerges | sim/kruskal.py:17-22 | linking the roots found for `u` and `v` merges exactly their two sets |
| UnionFind.Union | model/graph.py:73-78 | `False` and nothing merged when `u` and `v` share a root; otherwise `True`, the root of `v` goes under the root of `u`, exactly the two sets merge and one root disappears |
| UnionFind.UnionByRank | sim/kruskal.py:13-23 | `False` with parents' roots and ranks unchanged when `u` and `v` share a root; otherwise `True`, exactly the two sets merge, one root disappears, ranks never fall, and the link follows the rank rule |
| UnionFind.LinkByRank | sim/kruskal.py:17-22 | the root of lower rank goes under the other; on equal ranks `rv` goes under `ru`, whose rank grows by one |
| Sorting.SortByPermutes | sim/kruskal.py:30 | `sorted` returns the same elements, in non-decreasing key order |
| Sorting.SortByStable | visual/dashboard.py:261 | `sorted` is stable: the elements of each key keep their order |
| Spanning.SortedEdgeSet | sim/kruskal.py:30 | sorting the edges keeps the edge set |
| Spanning.Merge | sim/kruskal.py:33 | the `union` call of either implementation merges exactly when the endpoints have different roots, and the number of roots falls by one on a merge |
| Spanning.ScanStep | sim/kruskal.py:33-34 | `union` merges exactly when the edges kept so far do not connect the endpoints; afterwards the classes are the components of the kept edges |
| Spanning.ScanEdge | sim/kruskal.py:31-34 | after edge `k` the kept edges are the greedy choice of the first `k + 1` sorted edges, and kept edges plus roots count the vertices |
| Spanning.Kruskal | sim/kruskal.py:25-35 | the kept edges are the greedy forest of the edges sorted by weight, with one edge fewer than vertices per connected component |
| Spanning.GreedyAcyclic | sim/kruskal.py:31-34 | no kept edge joins two vertices the edges kept before it connect: the result is acyclic |
| Spanning.GreedySubsequence | sim/kruskal.py:30-34 | the kept edges are given edges, in non-decreasing weight order when the input is sorted |
| Spanning.GreedySpans | sim/kruskal.py:31-34 | the kept edges connect the endpoints of every given edge |
| Spanning.GreedySameComponents | sim/kruskal.py:31-35 | the kept edges connect exactly the pairs that all the edges connect |
| Spanning.ScanEnd | sim/kruskal.py:31-35 | after the last edge the roots are one representative per connected component |
| Spanning.CountByRoots | sim/kruskal.py:31-35 | the final roots are one representative per connected component |
| Spanning.OneComponent | sim/kruskal.py:31-35 | a connected, non-empty vertex set has one component |
| SimKruskal.KruskalMst | sim/kruskal.py:3-35 | the greedy forest of some listing of `edges()` sorted by weight, with one edge fewer than vertices per connected component |
| SimKruskal.ScanResult | sim/kruskal.py:30-35 | for any listing of the edges, the result is acyclic, sorted by weight, made of given edges, and connects exactly the pairs the edges connect |
| SimKruskal.SpanningTreeSize | sim/kruskal.py:30-35 | on a connected graph with at least one vertex the result has \|V\| - 1 edges |
| SimKruskal.GetVertexFromStr | sim/kruskal.py:38-42 | the first vertex in insertion order whose string equals `str(s)`, or `None` exactly when no vertex prints as `str(s)` |
| Simulation.Carried | sim/simulation.py:30-33 | the cost a path carries is never negative |
| Simulation.CarriedSinceRecharge | sim/simulation.py:30-33 | the carried cost is the weight walked since the last recharge node was entered, counting the edge that entered it |
| Simulation.Extend | sim/simulation.py:25-33 | following an allowed edge from a sound entry gives a sound entry (allowed path from `start`, carried cost) |
| Simulation.Expand | sim/simulation.py:20-33 | the neighbour loop appends one entry per step the search takes (neighbour not dequeued, from a recharge node or within the limit), with the cost restarting at a recharge node, and nothing else |
| Simulation.ExpandSound | sim/simulation.py:20-33 | the entries appended to a queue of sound entries are sound |
| Simulation.Visit | sim/simulation.py:14-33 | dequeuing the goal within the limit returns its route; a non-vertex raises `KeyError`; otherwise the node becomes visited, the queue stays sound and the search makes progress |
| Simulation.BfsShortestPath | sim/simulation.py:8-34 | a returned route is a path from `start` to `goal` whose every step the search allows, with cost the carried cost and at most the limit; `start == goal` within the limit is answered at once; a non-vertex start raises `KeyError` |
| Heaps.FirstMin | sim/dijkstra.py:45 | the index of the first entry of least cost, which `heappop` returns under `(cost, counter)` order |
| Heaps.Remove | sim/dijkstra.py:13 | the heap without one entry, every other entry kept in order |
| Heaps.Costs | sim/dijkstra.py:13 | the costs of the heap entries, one per entry in heap order, for either kind of entry |
| Dijkstra.TupleLess | sim/dijkstra.py:23 | comparing `(cost, vertex)` tuples raises `TypeError` exactly on equal costs and distinct vertices; otherwise it compares the costs |
| Dijkstra.SiftDown | sim/dijkstra.py:23 | a sift that does not raise returns a permutation of the heap |
| Dijkstra.PushTieRaises | sim/dijkstra.py:16-23 | pushing an entry of equal cost for another vertex onto a one-entry heap raises `TypeError` |
| Dijkstra.Initialise | sim/dijkstra.py:7-10 | every vertex unreached and without predecessor, `start` at distance 0, and the search invariant holds |
| Dijkstra.RelaxEdge | sim/dijkstra.py:17-23 | when `alt < dist[v]`, `v` gets distance `alt` and predecessor `u` and `(alt, v)` is pushed; nothing else changes |
| Dijkstra.Relax | sim/dijkstra.py:16-23 | `KeyError` exactly when a neighbour has no distance entry; otherwise every improved neighbour is relaxed and pushed, and nothing else |
| Dijkstra.PopOptimal | sim/dijkstra.py:13 | the popped entry of an unsettled vertex carries its distance, and no path to it weighs less |
| Dijkstra.PathAbove | sim/dijkstra.py:13-15 | no path to the popped vertex weighs less than the popped cost |
| Dijkstra.NothingImproves | sim/dijkstra.py:13-23 | the loop has no visited set: a vertex popped again after it was settled improves no neighbour, so a stale entry changes nothing |
| Dijkstra.Advance | sim/dijkstra.py:12-23 | a round keeps the invariant and settles a vertex or shrinks the heap |
| Dijkstra.Round | sim/dijkstra.py:13-23 | popping the goal stops with its distance optimal; otherwise the invariant holds again and the measure falls; no `KeyError` when neighbours are vertices |
| Dijkstra.Expand | sim/dijkstra.py:16-23 | relaxing the popped vertex's edges keeps the invariant and makes progress |
| Dijkstra.Unreachable | sim/dijkstra.py:32-33 | when the heap runs empty the goal has no finite distance and no path reaches it |
| Dijkstra.Search | sim/dijkstra.py:7-23 | the loop ends with the goal's distance optimal when it was popped, or with no path to the goal when the heap ran empty |
| Dijkstra.PathBack | sim/dijkstra.py:25-31 | the read-back through `prev` is a path from `start` to `goal` weighing the goal's distance |
| Dijkstra.DijkstraShortestPath | sim/dijkstra.py:6-33 | a returned path leads from `start` to `goal` and weighs the returned cost, which no path beats; `None` exactly when no path exists; `KeyError` for a non-vertex start or goal |
| Recharge.Step | sim/dijkstra.py:56-67 | an edge heavier than the autonomy is dropped; entering an unused recharge node gives battery `autonomy - w` and marks it; otherwise battery `battery - w`; a negative battery drops the move |
| Recharge.ReplaySnoc | sim/dijkstra.py:65-69 | walking one more edge applies one more move and adds its weight |
| Recharge.ReplayState | sim/dijkstra.py:57-69 | a walk the search can make ends on its last vertex with the recharge nodes entered after the start, battery the autonomy less the weight since the last refill, within `[0, autonomy]`, and no edge heavier than the autonomy |
| Recharge.InUniverse | sim/dijkstra.py:46-49 | every state a walk reaches lies in a finite set of states, which bounds the pruned search |
| RechargeSearch.Initially | sim/dijkstra.py:41-42 | the seed entry `(0, 0, start, autonomy, frozenset(), [start])` and the empty `visited` satisfy the search invariant |
| RechargeSearch.PopOrder | sim/dijkstra.py:38-45 | the first entry of least cost precedes every other entry by `(cost, counter)`, so it is the one `heappop` returns |
| RechargeSearch.PushChild | sim/dijkstra.py:55-69 | one neighbour: a kept move pushes `(cost + w, next counter, v, battery, recs, path + [v])`, a dropped one nothing |
| RechargeSearch.Expand | sim/dijkstra.py:54-69 | every kept move from the popped state has its child pushed with fresh counters, and nothing else is pushed |
| RechargeSearch.ChildSound | sim/dijkstra.py:69 | a child's path is a walk from `start` to its state whose weight is its cost |
| RechargeSearch.SkipStep | sim/dijkstra.py:46-48 | skipping a popped state already recorded at no greater cost keeps the invariant |
| RechargeSearch.PopBound | sim/dijkstra.py:45 | no walk to an unrecorded state weighs less than the popped entry |
| RechargeSearch.GoalStep | sim/dijkstra.py:51-52 | the first popped entry at the goal carries a cheapest feasible walk |
| RechargeSearch.Exhausted | sim/dijkstra.py:71 | when the heap runs empty no feasible walk reaches the goal |
| RechargeSearch.Advance | sim/dijkstra.py:49-69 | recording and expanding a new state keeps the invariant and records one more state of the finite space |
| RechargeSearch.OnVertex | sim/dijkstra.py:54 | when every neighbour is a vertex, every entry's node is a vertex, so `neighbors` does not raise |
| RechargeSearch.Visit | sim/dijkstra.py:49-69 | a new popped state stops the search at the goal with a cheapest walk, raises for a non-vertex, or keeps the invariant with one more recorded state |
| RechargeSearch.Round | sim/dijkstra.py:45-69 | one pop: skipped when dominated, otherwise visited; a found answer is cheapest |
| RechargeSearch.DijkstraWithRecharge | sim/dijkstra.py:35-71 | a returned walk is feasible under the battery rules, weighs the returned cost, and no feasible walk weighs less; `None` only when no feasible walk exists; `start == goal` gives `([start], 0)`; a non-vertex start raises; no raise when neighbours are vertices |
| AvlTrees.LeftRotate | tda/avl.py:47-54 | the in-order keys are kept; the right child `y` becomes the root with `x` as its left child, `y`'s old left subtree becomes `x`'s right one, and the other subtrees stay in place; `x` gets height `1 + max` of its new children, then `y` `1 + max` of `x` and its right child |
| AvlTrees.RightRotate | tda/avl.py:56-63 | the mirror image: the left child `x` becomes the root with `y` as its right child and `x`'s old right subtree as `y`'s left one; `y` then `x` get heights `1 + max` of their new children |
| AvlTrees.Rebalance | tda/avl.py:35-45 | the in-order keys are kept; a stored balance in [-1, 1] changes nothing; above 1 the new root comes from the left subtree, below -1 from the right |
| AvlTrees.RebalanceExactly | tda/avl.py:35-45 | in a search tree the root changes exactly when the stored balance is above 1 or below -1 |
| AvlTrees.InsertTree | tda/avl.py:17-27 | the result is a node, and the stored-height convention is kept along the insertion path |
| AvlTrees.InsertOrdered | tda/avl.py:17-27 | inserting into a search tree gives a search tree holding the old keys and the new one, with one node more exactly when the key was absent |
| AvlTrees.InsertBelow | tda/avl.py:20-21 | the left-descent step of `InsertOrdered` |
| AvlTrees.InsertAbove | tda/avl.py:22-23 | the right-descent step of `InsertOrdered` |
| AvlTrees.ChainOf321 | tda/avl.py:6 | inserting "3", "2", "1" leaves a three-node chain with no rotation |
| AvlTrees.ChainUnbalanced | tda/avl.py:26-45 | the true heights of that chain's root's children differ by 2 |
| AvlTrees.InOrder | tda/avl.py:65-73 | one pair per node in walk order, each key with `freqs.get(key, 0)` |
| AvlTrees.Avl.constructor | tda/avl.py:9-11 | an empty tree, no counts, no inserts |
| AvlTrees.Avl.Insert | tda/avl.py:13-15 | the tree gets the key; its count grows by exactly one, whether or not the key was there; one node more exactly when the key is new |
| AvlTrees.Avl.GetFreq | tda/avl.py:75-76 | the number of inserts of the key, 0 when there were none |
| AvlTrees.Avl.InOrderList | tda/avl.py:65-73 | one pair per distinct inserted key, in strictly ascending key order, each with its number of inserts |
| AvlTrees.CountSnoc | tda/avl.py:15 | one more insert raises exactly that key's count by one |
| Dashboard.Session.RecordRoute | visual/dashboard.py:215-227 | no route: nothing changes; a route becomes the last route, its signature is inserted once into the index, and every vertex on it is counted |
| Dashboard.Session.CountVisits | visual/dashboard.py:221-227 | the visit map becomes the tally of the path |
| Dashboard.TallyCounts | visual/dashboard.py:221-227 | each name's count grows by its number of occurrences on the path, from 0 for a new name |
| Dashboard.TallyKeys | visual/dashboard.py:221-227 | the names counted afterwards are the old ones and those on the path |
| Dashboard.TallyElsewhere | visual/dashboard.py:221-227 | a name off the path keeps its count |
| Dashboard.SortKeepsTies | visual/dashboard.py:261 | sorting the ascending in-order list by `-freq` keeps ties in ascending key order |
| Dashboard.PrefixRanked | visual/dashboard.py:269 | the first `n` entries of the sorted list are descending and no later entry is more frequent |
| Dashboard.TopRanking | visual/dashboard.py:259-269 | as many entries of the list as it holds up to ten, taken from it, by frequency descending, ties in ascending key order, and no entry left out is more frequent than one shown |
| Dashboard.TopCut | visual/dashboard.py:259-269 | at the ten-entry cut no entry left out is more frequent than one shown, and one left out as frequent as a shown one has a greater key, so the smallest tied keys are shown |
| Dashboard.CutRanked | visual/dashboard.py:269 | in a list sorted by frequency descending with ties ascending, an entry past the first `n` is no more frequent than them and greater than those it ties |
| Dashboard.PrefixTies | visual/dashboard.py:269 | an entry past the first `n` that ties one of them has a greater key, when ties are ascending |
| Dashboard.MostFrequent | visual/dashboard.py:258-277 | no ranking exactly when nothing was inserted; otherwise `min(10, distinct keys)` inserted keys with their insert counts, descending, ties ascending; no left-out inserted key is more frequent than a listed one, and one inserted as often as a listed key is greater than it |
| Dashboard.RankingShape | visual/dashboard.py:259-269 | the top entries of a non-empty index: `min(10, distinct keys)` inserted keys with their counts, descending, ties ascending |
| Dashboard.RankingLeftOut | visual/dashboard.py:259-269 | a key a non-empty index leaves out of its top entries is inserted no more often than a shown key, and is greater than a shown key inserted as often |
| Dashboard.LeftOutCounts | visual/dashboard.py:259-269 | carries the cut facts from the in-order entries to the inserted keys: a left-out key is inserted no more often than any ranked key, and is greater than a ranked key inserted as often |
| Dashboard.EmptyIndex | visual/dashboard.py:258-260 | an index with no root or an empty in-order list has had no insert |
| Dashboard.TopCounts | visual/dashboard.py:259-269 | entries taken from the in-order list are inserted keys with their insert counts |
| Dashboard.WithRoleMembers | visual/dashboard.py:303-310 | a name is listed under a role exactly when some node with that role prints as it |
| Dashboard.GatherByRole | visual/dashboard.py:303-310 | for each of the three roles, the names of its nodes in order and beside them their visit counts, 0 for a name never visited; other roles are skipped |
| Orders.Decide | sim/order_simulator.py:18-31 | "Entregado" exactly when the path is non-empty and the cost finite, returning path, cost and stops unchanged; otherwise "Fallido" with an empty path, cost 0 and no stops |
| Orders.Tracker.RecordRoute | sim/order_simulator.py:24 | the tracker's record grows by the path |
| Orders.OrderSimulator.GenerateOrder | sim/order_simulator.py:12-31 | the decision on the route found; the path is recorded exactly once on delivery and not at all on failure |
| Orders.OrderSimulator.ProcessOrder | sim/order_simulator.py:37-40 | one pass of the loop: the outcome of the order under its number, and the tracker gets its path when it is delivered |
| Orders.OrderSimulator.ProcessOrders | sim/order_simulator.py:33-40 | the lines of the orders in list order up to the first whose report raises `TypeError`, and whether one raised; the tracker gets the delivered paths of every order handled, the raising one included |
| Orders.Reported | sim/order_simulator.py:37-40 | the number of orders reported in full: every order before it is printed, and the order at that position raises |
| Orders.RaisesAtReported | sim/order_simulator.py:37-40 | up to the first raising order, an order raises exactly when it is that one |
| Orders.ReportStep | sim/order_simulator.py:37-40 | a raising order is the last one handled; any other order appends its lines to the report |
| Orders.LinesInOrder | sim/order_simulator.py:37-40 | the `k`-th report entry is headed by the `k`-th order under number `k + 1` and shows that order's route |
| Orders.DeliveredPathsBound | sim/order_simulator.py:21-24 | the tracker is never told an empty path, and at most one path per order handled |
| Orders.RouteStringInjective | sim/order_simulator.py:47-50 | on integer vertices the route line determines the route, the empty one included |
| Orders.NotUnavailable | sim/order_simulator.py:47-50 | no signature of a non-empty integer route reads "No disponible" |
| Orders.RechargeStringBracketed | sim/order_simulator.py:53-56 | the stops' text exists exactly when every stop is a `str`, and it is then the bracketed `", "` join of the stops, `[]` for none |
| Orders.StopTexts | sim/order_simulator.py:54 | one text per stop, each the stop's `str` |
| Orders.VertexStopRaises | sim/order_simulator.py:54 | a vertex among the stops, as the route manager documents them, makes the report raise `TypeError` |
| Orders.RaisesOnlyOnStops | sim/order_simulator.py:18-56 | a failed order is always printed; a delivered one raises exactly when one of its stops is not a `str` |
| Api.SimReady | api/main.py:47-50 | true exactly when the five required keys are present |
| Api.FirstMovable | api/main.py:93-94 | the first order with the id that is pending or in progress, or `None` exactly when there is none |
| Api.MovedOnly | api/main.py:93-97 | a transition changes at most one order, keeps every id, and never moves an order out of "cancelled" or "completed" |
| Api.ApiState.Transition | api/main.py:93-97 | the first movable order with the id gets the new status; reports whether there was one; every other field of the state is unchanged |
| Api.ApiState.Move | api/main.py:90-98 | the body both endpoints share: 400 "No simulation active." when not ready, the transition when an order moves, 400 with the endpoint's detail and nothing changed otherwise; every other field of the state is unchanged |
| Api.ApiState.Cancel | api/main.py:88-98 | succeeds exactly when ready and a movable order exists, which becomes "cancelled"; otherwise the orders are unchanged and the error is the source's; every other field of the state is unchanged |
| Api.ApiState.Complete | api/main.py:100-110 | the same with "completed"; every other field of the state is unchanged |
| Api.KeptMembers | api/main.py:126-133 | a pair is kept exactly when the visit map holds it with a count and its name has the role |
| Api.ApiState.VisitsByRole | api/main.py:118-134 | the kept pairs, sorted by count descending, ties in visit-map order; 400 when not ready |
| Api.DistinctCount | api/main.py:183 | a strictly ascending list has as many distinct elements as entries |
| Api.ApiState.RoutesRegistered | api/main.py:183 | the length of the in-order list is the number of distinct signatures inserted |

## Left out

- The route optimizer, the route manager and the route tracker are not modelled, because their methods have empty bodies.
  - The order simulator takes `find_route` as a function parameter.
  - Its tracker only keeps the paths it is told to record.
  - The optimizer cascade the design describes has no code behind it.
- `model/edge.py` is not part of this model. An edge is a record of origin, destination and a non-negative integer weight.
- `tda/hash_map.py` is not part of this model. The visit counter is a `map<string, nat>`.
- Input and output are not modelled: `print`, pickle persistence (`load_state`, `save_state`), HTTP routing, and Streamlit and plotting output.
  - `print_order_result` yields its three lines as values, or the `TypeError` raised before they are printed.
  - The API works on an in-memory `ApiState`.
- Python's iteration order over sets and dictionaries of objects is left open. The neighbour loops and the listing of `edges()` take any order, and their contracts hold for every order.
- The integer hash of an element is a parameter of `Vertices.Hash`. `__repr__` is not modelled.
- The API endpoints outside the status transitions, visit reports and route count are not in this model. This covers the client and order getters and the PDF report.
- `summary` is modelled only through `routes_registradas`. Its other fields read stored values.
- Order records hold only the id and the status. The API's other order fields, and the aliasing of order objects shared with the dashboard, are not modelled.
- The visit reports take the visit map as a list of `(name, count)` pairs with string names.
  - For string keys, `str(n)` is `n` and `visits[n_str]` cannot raise, so the `except` branch is not modelled.
  - A count of `None` is `None`.
- The dashboard's role shuffle and the random network generation are left out, as randomness.
- Graphs.Graph.KruskalMst: requires the endpoints of every stored edge to be vertices. The source's `find` would raise `KeyError` otherwise.
- SimKruskal.KruskalMst: the same requirement, for the same reason.
- Spanning.Kruskal: proves acyclicity, the weight order, the components and the edge count, but not the minimal total weight of the forest.
- Graphs.Graph.RemoveVertex: when the mirror invariant is already broken and a `remove_edge` raises midway, the contract states only the layout invariant, not which slots were deleted before the raise.
- Recharge.Step: bounds a kept battery below by 0, and above by the autonomy only for walks from a full battery (`Recharge.ReplayState`), not for an arbitrary starting state.
- Simulation.BfsShortestPath: does not characterise when `None` is returned. The search's node-only visited set can miss feasible routes, and the source promises nothing there. A non-vertex reached later in the search raises, as `Simulation.Visit` states.
- The claim that the optimal search never returns a higher cost than the first-in first-out search is not modelled. The two return different quantities: total weight against the cost carried since the last recharge. They also allow different moves.

## Findings

| source | as written | input that shows it | evidently intended | confidence | as-written member | corrected member |
|---|---|---|---|---|---|---|
| sim/dijkstra.py:23 | `dijkstra_shortest_path` pushes `(cost, vertex)` tuples; two entries of equal cost for different vertices make `heapq` compare two `Vertex` objects, which define no `<`, and the push raises `TypeError` | edges A–B and A–C of weight 1, start A: relaxing C pushes `(1, C)` onto a heap holding `(1, B)` | ties broken without comparing vertices, as `dijkstra_with_recharge` does with its counter, so the search returns a cheapest path | not executed | Dijkstra.PushTieRaises | Dijkstra.DijkstraShortestPath |
