/** The in-memory logic of api/main.py: the readiness test on the loaded state, the order
    status transitions of the cancel and complete endpoints, the role-filtered visit
    reports, and the route count of the summary. The state dictionary that `load_state`
    reads from disk is an `ApiState` object; an `HTTPException` is an `Err` result. */
module Api {
  import opened Wrappers
  import opened Text
  import opened Sorting
  import opened AvlTrees

  /** An order record of domain/order.py; only the fields the endpoints read or write. */
  datatype Order = Order(orderId: string, status: string)

  /** An `HTTPException(status_code, detail)`. */
  datatype HttpError = HttpError(code: nat, detail: string)

  /** The body `{"status": ..., "order_id": ...}` of a successful transition. */
  datatype Response = Response(status: string, orderId: string)

  const Required: seq<string> := ["clients", "orders", "routes_avl", "node_visits", "node_roles"]

  /** `sim_ready(state)`: `all(k in state for k in required)`. */
  function SimReady(keys: set<string>): (r: bool)
    ensures r <==> {"clients", "orders", "routes_avl", "node_visits", "node_roles"} <= keys
  {
    assert Required[0] == "clients" && Required[1] == "orders" && Required[2] == "routes_avl"
      && Required[3] == "node_visits" && Required[4] == "node_roles";
    forall i :: 0 <= i < |Required| ==> Required[i] in keys
  }

  const NotActive: HttpError := HttpError(400, "No simulation active.")

  // ---------------------------------------------------------------------------------
  // Order status transitions.

  /** An order the endpoints may move: the id matches and it is pending or in progress. */
  predicate Movable(o: Order, orderId: string)
  {
    o.orderId == orderId && (o.status == "pending" || o.status == "in_progress")
  }

  /** The statuses no endpoint leaves. */
  predicate Terminal(status: string)
  {
    status == "cancelled" || status == "completed"
  }

  /** The position of the first movable order with the id, if any. */
  function FirstMovable(orders: seq<Order>, orderId: string): (r: Option<nat>)
    ensures r.Some? ==> r.value < |orders| && Movable(orders[r.value], orderId)
    ensures r.Some? ==> forall j :: 0 <= j < r.value ==> !Movable(orders[j], orderId)
    ensures r.None? <==> forall j :: 0 <= j < |orders| ==> !Movable(orders[j], orderId)
    decreases |orders|
  {
    if orders == [] then None
    else if Movable(orders[0], orderId) then Some(0)
    else
      match FirstMovable(orders[1..], orderId)
      case None => None
      case Some(i) => Some(i + 1)
  }

  /** The orders after the transition: the first movable order with the id gets
      `status`, or nothing changes when there is none. */
  function Moved(orders: seq<Order>, orderId: string, status: string): seq<Order>
  {
    match FirstMovable(orders, orderId)
    case None => orders
    case Some(i) => orders[i := orders[i].(status := status)]
  }

  /** A transition changes the status of one order at most, keeps every id, and never
      moves an order out of a terminal status. */
  lemma MovedOnly(orders: seq<Order>, orderId: string, status: string)
    ensures |Moved(orders, orderId, status)| == |orders|
    ensures forall j :: 0 <= j < |orders| ==> Moved(orders, orderId, status)[j].orderId == orders[j].orderId
    ensures forall j :: 0 <= j < |orders| && Terminal(orders[j].status) ==> Moved(orders, orderId, status)[j] == orders[j]
    ensures forall j, k :: 0 <= j < k < |orders| && Moved(orders, orderId, status)[j] != orders[j] ==> Moved(orders, orderId, status)[k] == orders[k]
  {
  }

  /** The API's view of the persisted simulation state. `keys` are the keys present in
      the state dictionary. */
  class ApiState {
    var keys: set<string>
    var orders: seq<Order>
    var routesAvl: Avl
    var clients: nat
    var nodeRoles: map<string, string>
    var nodeVisits: seq<(string, Option<int>)>

    constructor(keys: set<string>, orders: seq<Order>, routesAvl: Avl, clients: nat,
                nodeRoles: map<string, string>, nodeVisits: seq<(string, Option<int>)>)
      ensures this.keys == keys && this.orders == orders && this.routesAvl == routesAvl
      ensures this.clients == clients && this.nodeRoles == nodeRoles && this.nodeVisits == nodeVisits
    {
      this.keys := keys;
      this.orders := orders;
      this.routesAvl := routesAvl;
      this.clients := clients;
      this.nodeRoles := nodeRoles;
      this.nodeVisits := nodeVisits;
    }

    /** The `for o in state["orders"]` loop of both endpoints: the first movable order
        with the id gets `status`; `found` says whether there was one. */
    method Transition(orderId: string, status: string) returns (found: bool)
      modifies this
      ensures found <==> FirstMovable(old(orders), orderId).Some?
      ensures orders == Moved(old(orders), orderId, status)
      ensures keys == old(keys) && routesAvl == old(routesAvl) && clients == old(clients)
      ensures nodeRoles == old(nodeRoles) && nodeVisits == old(nodeVisits)
    {
      var i := 0;
      while i < |orders| && !Movable(orders[i], orderId)
        invariant 0 <= i <= |orders|
        invariant forall j :: 0 <= j < i ==> !Movable(orders[j], orderId)
      {
        i := i + 1;
      }
      if i < |orders| {
        assert FirstMovable(orders, orderId) == Some(i);
        orders := orders[i := orders[i].(status := status)];
        found := true;
      } else {
        found := false;
      }
    }

    /** `cancel_order(order_id)`. */
    method Cancel(orderId: string) returns (r: Result<Response, HttpError>)
      modifies this
      ensures r.Ok? <==> SimReady(old(keys)) && FirstMovable(old(orders), orderId).Some?
      ensures r.Ok? ==> r.value == Response("cancelled", orderId) && orders == Moved(old(orders), orderId, "cancelled")
      ensures r.Err? ==> orders == old(orders)
      ensures r.Err? ==> r.error == if SimReady(old(keys)) then HttpError(400, "Order not cancelable or not found.") else NotActive
      ensures keys == old(keys) && routesAvl == old(routesAvl) && clients == old(clients)
      ensures nodeRoles == old(nodeRoles) && nodeVisits == old(nodeVisits)
    {
      r := Move(orderId, "cancelled", "Order not cancelable or not found.");
    }

    /** `complete_order(order_id)`. */
    method Complete(orderId: string) returns (r: Result<Response, HttpError>)
      modifies this
      ensures r.Ok? <==> SimReady(old(keys)) && FirstMovable(old(orders), orderId).Some?
      ensures r.Ok? ==> r.value == Response("completed", orderId) && orders == Moved(old(orders), orderId, "completed")
      ensures r.Err? ==> orders == old(orders)
      ensures r.Err? ==> r.error == if SimReady(old(keys)) then HttpError(400, "Order not completable or not found.") else NotActive
      ensures keys == old(keys) && routesAvl == old(routesAvl) && clients == old(clients)
      ensures nodeRoles == old(nodeRoles) && nodeVisits == old(nodeVisits)
    {
      r := Move(orderId, "completed", "Order not completable or not found.");
    }

    /** The body shared by both endpoints. */
    method Move(orderId: string, status: string, failure: string) returns (r: Result<Response, HttpError>)
      modifies this
      ensures r.Ok? <==> SimReady(old(keys)) && FirstMovable(old(orders), orderId).Some?
      ensures r.Ok? ==> r.value == Response(status, orderId) && orders == Moved(old(orders), orderId, status)
      ensures r.Err? ==> orders == old(orders)
      ensures r.Err? ==> r.error == if SimReady(old(keys)) then HttpError(400, failure) else NotActive
      ensures keys == old(keys) && routesAvl == old(routesAvl) && clients == old(clients)
      ensures nodeRoles == old(nodeRoles) && nodeVisits == old(nodeVisits)
    {
      if !SimReady(keys) {
        r := Err(NotActive);
      } else {
        var found := Transition(orderId, status);
        if found {
          r := Ok(Response(status, orderId));
        } else {
          r := Err(HttpError(400, failure));
        }
      }
    }

    /** The loop and sort of `visits_clients`, `visits_recharges` and `visits_storages`,
        which differ only in the role: the visited nodes with that role and a count,
        sorted by count descending, ties in the visit map's order. */
    method VisitsByRole(role: string) returns (r: Result<seq<(string, int)>, HttpError>)
      ensures r.Err? <==> !SimReady(keys)
      ensures r.Err? ==> r.error == NotActive
      ensures r.Ok? ==> multiset(r.value) == multiset(Kept(nodeRoles, nodeVisits, role))
      ensures r.Ok? ==> forall i, j :: 0 <= i < j < |r.value| ==> r.value[i].1 >= r.value[j].1
      ensures r.Ok? ==> forall c :: WithKey(r.value, NegCount, c) == WithKey(Kept(nodeRoles, nodeVisits, role), NegCount, c)
    {
      if !SimReady(keys) {
        r := Err(NotActive);
      } else {
        var result: seq<(string, int)> := [];
        for i := 0 to |nodeVisits|
          invariant result == Kept(nodeRoles, nodeVisits[..i], role)
        {
          var (name, count) := nodeVisits[i];
          if RoleOf(nodeRoles, name) == Some(role) && count.Some? {
            result := result + [(name, count.value)];
          }
          assert nodeVisits[..i + 1][..i] == nodeVisits[..i];
        }
        assert nodeVisits[..|nodeVisits|] == nodeVisits;
        SortByPermutes(result, NegCount);
        forall c
          ensures WithKey(SortBy(result, NegCount), NegCount, c) == WithKey(result, NegCount, c)
        {
          SortByStable(result, NegCount, c);
        }
        var sorted := SortBy(result, NegCount);
        forall i, j | 0 <= i < j < |sorted|
          ensures sorted[i].1 >= sorted[j].1
        {
          assert NegCount(sorted[i]) <= NegCount(sorted[j]);
        }
        r := Ok(sorted);
      }
    }

    /** The `routes_registradas` entry of `summary`: the length of the in-order list,
        which is the number of distinct route signatures inserted. */
    method RoutesRegistered() returns (r: Result<nat, HttpError>)
      requires routesAvl.Valid()
      ensures r.Err? <==> !SimReady(keys)
      ensures r.Ok? ==> r.value == |set k | k in routesAvl.inserted|
    {
      if !SimReady(keys) {
        r := Err(NotActive);
      } else {
        var entries := routesAvl.InOrderList();
        DistinctCount(InOrderKeys(routesAvl.root));
        assert (set k | k in routesAvl.inserted) == (set k | k in InOrderKeys(routesAvl.root));
        r := Ok(|entries|);
      }
    }
  }

  /** `node_roles.get(n)`. */
  function RoleOf(nodeRoles: map<string, string>, name: string): Option<string>
  {
    if name in nodeRoles then Some(nodeRoles[name]) else None
  }

  /** The sort key `-x[1]`. */
  function NegCount(e: (string, int)): int
  {
    -e.1
  }

  /** The entries of the visit map, in its order, whose name has the role and whose
      count is not `None`. */
  function Kept(nodeRoles: map<string, string>, visits: seq<(string, Option<int>)>, role: string): seq<(string, int)>
    decreases |visits|
  {
    if visits == [] then []
    else
      var (name, count) := visits[|visits| - 1];
      Kept(nodeRoles, visits[..|visits| - 1], role)
        + if RoleOf(nodeRoles, name) == Some(role) && count.Some? then [(name, count.value)] else []
  }

  /** An entry is kept exactly when the visit map holds it with a count and its name has
      the role. */
  lemma {:induction false} KeptMembers(nodeRoles: map<string, string>, visits: seq<(string, Option<int>)>, role: string)
    ensures forall e :: e in Kept(nodeRoles, visits, role) <==>
      RoleOf(nodeRoles, e.0) == Some(role) && (e.0, Some(e.1)) in visits
    decreases |visits|
  {
    if visits != [] {
      var init := visits[..|visits| - 1];
      var last := visits[|visits| - 1];
      KeptMembers(nodeRoles, init, role);
      assert visits == init + [last];
      forall e
        ensures e in Kept(nodeRoles, visits, role) <==> RoleOf(nodeRoles, e.0) == Some(role) && (e.0, Some(e.1)) in visits
      {
        assert (e.0, Some(e.1)) in visits <==> (e.0, Some(e.1)) in init || (e.0, Some(e.1)) == last;
      }
    }
  }

  /** A strictly ascending sequence has as many distinct elements as entries. */
  lemma {:induction false} DistinctCount(s: seq<string>)
    requires Ascending(s)
    ensures |set k | k in s| == |s|
    decreases |s|
  {
    if s != [] {
      var init := s[..|s| - 1];
      var last := s[|s| - 1];
      DistinctCount(init);
      assert (set k | k in s) == (set k | k in init) + {last};
      if last in init {
        var i :| 0 <= i < |init| && init[i] == last;
        assert Less(s[i], s[|s| - 1]);
        LessIrreflexive(last);
      }
    }
  }
}
