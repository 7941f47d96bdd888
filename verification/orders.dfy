/** `OrderSimulator` of sim/order_simulator.py: an order is delivered when the route
    manager finds a non-empty path of finite cost, and the tracker is told about the
    path; otherwise the order fails with an empty result. The route manager and the
    tracker are collaborators whose code is not part of this model: `find_route` is a
    function given to the simulator, and the tracker keeps the list of paths it was
    asked to record. The printed report becomes a list holding the three lines printed for each order. */
module Orders {
  import opened Wrappers
  import opened Text
  import opened Vertices
  import opened Routes

  /** A route cost: `float('inf')` is `Infinite`. */
  datatype Cost = Finite(value: int) | Infinite

  /** What `find_route` answers: `(path, cost, recharge_stops)`. The route manager
      documents the stops as vertices; they are kept as whatever Python values it
      lists, since only strings can be printed by the report. */
  datatype Answer = Answer(path: seq<Vertex>, cost: Cost, stops: seq<PyObject>)

  /** What `generate_order` returns: `(path, cost, recharge_stops, status)`. */
  datatype Delivery = Delivery(path: seq<Vertex>, cost: int, stops: seq<PyObject>, status: string)

  const Delivered: string := "Entregado"
  const Failed: string := "Fallido"

  /** The decision of `generate_order` on the route manager's answer. */
  function Decide(answer: Answer): (d: Delivery)
    ensures d.status == Delivered <==> |answer.path| > 0 && answer.cost.Finite?
    ensures d.status == Delivered || d.status == Failed
    ensures d.status == Delivered ==> d == Delivery(answer.path, answer.cost.value, answer.stops, Delivered)
    ensures d.status == Failed ==> d == Delivery([], 0, [], Failed)
    ensures d.status == Delivered <==> d.path != []
  {
    if |answer.path| > 0 && answer.cost != Infinite then
      Delivery(answer.path, answer.cost.value, answer.stops, Delivered)
    else
      Delivery([], 0, [], Failed)
  }

  /** The tracker: the paths it was asked to record, in order. */
  class Tracker {
    var recorded: seq<seq<Vertex>>

    constructor()
      ensures recorded == []
    {
      recorded := [];
    }

    /** `record_route(route)`. */
    method RecordRoute(path: seq<Vertex>)
      modifies this
      ensures recorded == old(recorded) + [path]
    {
      recorded := recorded + [path];
    }
  }

  /** Appending is associative; spelled out for sequences of paths, whose equality the
      solver otherwise reaches only element by element. */
  lemma AppendAssoc<T>(a: seq<T>, b: seq<T>, c: seq<T>)
    ensures (a + b) + c == a + (b + c)
  {
  }

  /** What the tracker is told about one order: its path when it is delivered. */
  function Recorded(findRoute: (Vertex, Vertex) -> Answer, order: (Vertex, Vertex)): seq<seq<Vertex>>
  {
    var d := Decide(findRoute(order.0, order.1));
    if d.status == Delivered then [d.path] else []
  }

  /** The paths of the first `n` orders that are delivered, in order. */
  function DeliveredPaths(findRoute: (Vertex, Vertex) -> Answer, orders: seq<(Vertex, Vertex)>, n: nat): seq<seq<Vertex>>
    requires n <= |orders|
  {
    if n == 0 then [] else DeliveredPaths(findRoute, orders, n - 1) + Recorded(findRoute, orders[n - 1])
  }

  class OrderSimulator {
    const findRoute: (Vertex, Vertex) -> Answer
    const tracker: Tracker

    constructor(findRoute: (Vertex, Vertex) -> Answer, tracker: Tracker)
      ensures this.findRoute == findRoute && this.tracker == tracker
    {
      this.findRoute := findRoute;
      this.tracker := tracker;
    }

    /** `generate_order(origin, destination)`: the decision on the route found, with the
        path recorded exactly once on delivery and not at all on failure. */
    method GenerateOrder(origin: Vertex, destination: Vertex) returns (d: Delivery)
      modifies tracker
      ensures d == Decide(findRoute(origin, destination))
      ensures tracker.recorded == old(tracker.recorded) + if d.status == Delivered then [d.path] else []
    {
      var answer := findRoute(origin, destination);
      if |answer.path| > 0 && answer.cost != Infinite {
        d := Delivery(answer.path, answer.cost.value, answer.stops, Delivered);
        tracker.RecordRoute(answer.path);
      } else {
        d := Delivery([], 0, [], Failed);
      }
    }

    /** One pass of the loop of `process_orders`: `generate_order`, then
        `print_order_result` under the number `k`. */
    method ProcessOrder(k: nat, order: (Vertex, Vertex)) returns (printed: Result<Printed, TypeError>)
      modifies tracker
      ensures printed == Outcome(findRoute, k, order)
      ensures tracker.recorded == old(tracker.recorded) + Recorded(findRoute, order)
    {
      var (origin, destination) := order;
      var d := GenerateOrder(origin, destination);
      printed := OrderResult(k, origin, destination, d);
    }

    /** `process_orders(order_list)`: the orders in list order, numbered from 1, each
        reported by the three lines printed for it, until the report of one raises
        `TypeError`; the tracker gets the delivered paths of the orders handled, the
        raising one included, since its path is recorded before it is printed. */
    method ProcessOrders(orders: seq<(Vertex, Vertex)>) returns (lines: seq<Printed>, raised: bool)
      modifies tracker
      ensures raised <==> Reported(findRoute, orders) < |orders|
      ensures lines == Lines(findRoute, orders, Reported(findRoute, orders))
      ensures tracker.recorded == old(tracker.recorded) + DeliveredPaths(findRoute, orders, Handled(findRoute, orders))
    {
      lines := [];
      raised := false;
      for i := 0 to |orders|
        invariant i <= Reported(findRoute, orders) && lines == Lines(findRoute, orders, i)
        invariant tracker.recorded == old(tracker.recorded) + DeliveredPaths(findRoute, orders, i)
      {
        var printed := ProcessOrder(i + 1, orders[i]);
        AppendAssoc(old(tracker.recorded), DeliveredPaths(findRoute, orders, i), Recorded(findRoute, orders[i]));
        ReportStep(findRoute, orders, i, printed);
        if printed.Err? {
          raised := true;
          return;
        }
        lines := lines + [printed.value];
      }
      assert Handled(findRoute, orders) == |orders|;
    }
  }

  // ---------------------------------------------------------------------------------
  // `print_order_result`.

  /** The route line's text: the signature, or "No disponible" for an empty route. */
  function RouteString(route: seq<Vertex>): string
  {
    if |route| > 0 then Signature(route) else "No disponible"
  }

  /** The exception `str.join` raises on an item that is not a `str`. */
  datatype TypeError = TypeError

  /** The value `o` is a Python `str`. */
  predicate IsStr(o: PyObject)
  {
    o.PlainObject? && o.value.StrElement?
  }

  /** The texts of stops that are all strings. */
  function StopTexts(stops: seq<PyObject>): (t: seq<string>)
    requires forall i :: 0 <= i < |stops| ==> IsStr(stops[i])
    ensures |t| == |stops| && forall i :: 0 <= i < |stops| ==> ObjectString(stops[i]) == t[i]
  {
    seq(|stops|, i requires 0 <= i < |stops| && IsStr(stops[i]) => stops[i].value.s)
  }

  /** The recharge stops' text: `[a, b]`, or `[]`; `', '.join` raises `TypeError` on a
      stop that is not a string. */
  function RechargeString(stops: seq<PyObject>): Result<string, TypeError>
  {
    if |stops| == 0 then Ok("[]")
    else if forall i :: 0 <= i < |stops| ==> IsStr(stops[i]) then Ok("[" + Join(StopTexts(stops), ", ") + "]")
    else Err(TypeError)
  }

  /** The stops' text exists exactly when every stop is a string, and it is then the
      bracketed join of their texts, `[]` included. */
  lemma RechargeStringBracketed(stops: seq<PyObject>)
    ensures RechargeString(stops).Ok? <==> forall i :: 0 <= i < |stops| ==> IsStr(stops[i])
    ensures RechargeString(stops).Ok? ==> RechargeString(stops).value == "[" + Join(StopTexts(stops), ", ") + "]"
  {
  }

  /** Stops that are vertices, as the route manager documents them, cannot be printed:
      one vertex among the stops makes the report raise. */
  lemma VertexStopRaises(stops: seq<PyObject>, i: nat)
    requires i < |stops| && stops[i].VertexObject?
    ensures RechargeString(stops) == Err(TypeError)
  {
    assert !IsStr(stops[i]);
  }

  /** On integer vertices the route line determines the route, the empty one included:
      no signature reads "No disponible". */
  lemma RouteStringInjective(p: seq<Vertex>, q: seq<Vertex>)
    requires forall i :: 0 <= i < |p| ==> p[i].element.IntElement?
    requires forall i :: 0 <= i < |q| ==> q[i].element.IntElement?
    requires RouteString(p) == RouteString(q)
    ensures p == q
  {
    if |p| > 0 && |q| > 0 {
      SignatureInjective(p, q);
    } else if |p| > 0 {
      NotUnavailable(p);
    } else if |q| > 0 {
      NotUnavailable(q);
    }
  }

  /** The signature of a non-empty route of integer vertices is not "No disponible". */
  lemma NotUnavailable(p: seq<Vertex>)
    requires |p| > 0 && forall i :: 0 <= i < |p| ==> p[i].element.IntElement?
    ensures Signature(p) != "No disponible"
  {
    if |p| == 1 {
      IntStrAvoids(p[0], 'N');
      assert Signature(p) == Str(p[0]);
    } else {
      MarkAfterFirst(Names(p), Arrow, '\U{2192}', 1);
    }
  }

  /** `Orden #{order_id}: {origin} → {destination}`. */
  function HeaderLine(orderId: nat, origin: Vertex, destination: Vertex): string
  {
    "Orden #" + NatToString(orderId) + ": " + Str(origin) + Arrow + Str(destination)
  }

  /** `Ruta: {route_str}`. */
  function RouteLine(d: Delivery): string
  {
    "Ruta: " + RouteString(d.path)
  }

  /** `Costo: {cost} | Paradas de recarga {recharge_str} | Estado: {status}`. */
  function CostLine(d: Delivery, recharge: string): string
  {
    "Costo: " + IntToString(d.cost) + " | Paradas de recarga " + recharge + " | Estado: " + d.status
  }

  /** The three lines `print_order_result` prints. */
  datatype Printed = Printed(header: string, route: string, costs: string)

  /** `print_order_result`: the three lines, or the `TypeError` the stops' text raises
      before anything is printed. */
  function OrderResult(orderId: nat, origin: Vertex, destination: Vertex, d: Delivery): Result<Printed, TypeError>
  {
    match RechargeString(d.stops)
    case Err(e) => Err(e)
    case Ok(recharge) => Ok(Printed(HeaderLine(orderId, origin, destination), RouteLine(d), CostLine(d, recharge)))
  }

  /** A failed order is always printed, and a delivered one raises exactly when one of
      its stops is not a string. */
  lemma RaisesOnlyOnStops(orderId: nat, origin: Vertex, destination: Vertex, answer: Answer)
    ensures var d := Decide(answer);
      OrderResult(orderId, origin, destination, d).Err? <==> d.status == Delivered && exists i :: 0 <= i < |answer.stops| && !IsStr(answer.stops[i])
  {
  }

  /** What `process_orders` prints for order number `k`. */
  function Outcome(findRoute: (Vertex, Vertex) -> Answer, k: nat, order: (Vertex, Vertex)): Result<Printed, TypeError>
  {
    OrderResult(k, order.0, order.1, Decide(findRoute(order.0, order.1)))
  }

  /** What `process_orders` prints for the order at position `k`, numbered `k + 1`. */
  function OutcomeAt(findRoute: (Vertex, Vertex) -> Answer, orders: seq<(Vertex, Vertex)>, k: nat): Result<Printed, TypeError>
    requires k < |orders|
  {
    Outcome(findRoute, k + 1, orders[k])
  }

  /** The position, from `i` on, of the first order whose report raises, or the number
      of orders when none does. */
  function ReportedFrom(findRoute: (Vertex, Vertex) -> Answer, orders: seq<(Vertex, Vertex)>, i: nat): (n: nat)
    requires i <= |orders|
    ensures i <= n <= |orders|
    ensures forall k :: i <= k < n ==> OutcomeAt(findRoute, orders, k).Ok?
    ensures n < |orders| ==> OutcomeAt(findRoute, orders, n).Err?
    decreases |orders| - i
  {
    if i == |orders| || OutcomeAt(findRoute, orders, i).Err? then i
    else ReportedFrom(findRoute, orders, i + 1)
  }

  /** How many orders `process_orders` reports in full: all of them before the first
      whose report raises. */
  function Reported(findRoute: (Vertex, Vertex) -> Answer, orders: seq<(Vertex, Vertex)>): (n: nat)
    ensures n <= |orders|
    ensures forall k :: 0 <= k < n ==> OutcomeAt(findRoute, orders, k).Ok?
    ensures n < |orders| ==> OutcomeAt(findRoute, orders, n).Err?
  {
    ReportedFrom(findRoute, orders, 0)
  }

  /** Among the orders not past the first raising one, only that one raises. */
  lemma RaisesAtReported(findRoute: (Vertex, Vertex) -> Answer, orders: seq<(Vertex, Vertex)>, i: nat)
    requires i < |orders| && i <= Reported(findRoute, orders)
    ensures OutcomeAt(findRoute, orders, i).Err? <==> i == Reported(findRoute, orders)
  {
  }

  /** The report of one more order: when it raises, it is the last order handled and
      the lines so far are the whole report; otherwise its lines are appended. */
  lemma ReportStep(findRoute: (Vertex, Vertex) -> Answer, orders: seq<(Vertex, Vertex)>, i: nat, printed: Result<Printed, TypeError>)
    requires i < |orders| && i <= Reported(findRoute, orders)
    requires printed == Outcome(findRoute, i + 1, orders[i])
    ensures printed.Err? ==> i == Reported(findRoute, orders) && Handled(findRoute, orders) == i + 1
    ensures printed.Ok? ==> i + 1 <= Reported(findRoute, orders)
    ensures printed.Ok? ==> Lines(findRoute, orders, i + 1) == Lines(findRoute, orders, i) + [printed.value]
  {
    RaisesAtReported(findRoute, orders, i);
    if printed.Ok? {
      LinesStep(findRoute, orders, i);
    }
  }

  /** How many orders `process_orders` hands to `generate_order`: the ones reported in
      full and the one that raises, if any. */
  function Handled(findRoute: (Vertex, Vertex) -> Answer, orders: seq<(Vertex, Vertex)>): (h: nat)
    ensures h <= |orders|
    ensures h == |orders| || h == Reported(findRoute, orders) + 1
  {
    var n := Reported(findRoute, orders);
    if n < |orders| then n + 1 else n
  }

  /** The lines of the first `n` orders, each under its number. */
  function Lines(findRoute: (Vertex, Vertex) -> Answer, orders: seq<(Vertex, Vertex)>, n: nat): (r: seq<Printed>)
    requires n <= |orders| && forall k :: 0 <= k < n ==> OutcomeAt(findRoute, orders, k).Ok?
  {
    seq(n, k requires 0 <= k < n => OutcomeAt(findRoute, orders, k).value)
  }

  /** The `k`-th entry of the report (counted from 0) is headed by the `k`-th order
      under the number `k + 1`, and shows that order's route. */
  lemma LinesInOrder(findRoute: (Vertex, Vertex) -> Answer, orders: seq<(Vertex, Vertex)>, n: nat, k: nat)
    requires n <= |orders| && forall j :: 0 <= j < n ==> OutcomeAt(findRoute, orders, j).Ok?
    requires k < n
    ensures Lines(findRoute, orders, n)[k].header == HeaderLine(k + 1, orders[k].0, orders[k].1)
    ensures Lines(findRoute, orders, n)[k].route == RouteLine(Decide(findRoute(orders[k].0, orders[k].1)))
  {
    assert OutcomeAt(findRoute, orders, k).Ok?;
  }

  /** One more order reported in full appends its lines. */
  lemma LinesStep(findRoute: (Vertex, Vertex) -> Answer, orders: seq<(Vertex, Vertex)>, i: nat)
    requires i < |orders| && forall k :: 0 <= k <= i ==> OutcomeAt(findRoute, orders, k).Ok?
    ensures Lines(findRoute, orders, i + 1) == Lines(findRoute, orders, i) + [OutcomeAt(findRoute, orders, i).value]
  {
  }

  /** The tracker is never told about an empty path, and about at most one path per
      order. */
  lemma {:induction false} DeliveredPathsBound(findRoute: (Vertex, Vertex) -> Answer, orders: seq<(Vertex, Vertex)>, n: nat)
    requires n <= |orders|
    ensures |DeliveredPaths(findRoute, orders, n)| <= n
    ensures forall p :: p in DeliveredPaths(findRoute, orders, n) ==> p != []
  {
    if n > 0 {
      DeliveredPathsBound(findRoute, orders, n - 1);
    }
  }
}
