/** The priority queues of sim/dijkstra.py, kept as the sequence of their entries in the
    order they were pushed. `heapq.heappop` returns the least entry; with the cost compared
    first and the push order (the counter of `dijkstra_with_recharge`) second, that is the
    first entry of least cost. */
module Heaps {

  /** The index of the first least cost in `costs`. */
  function FirstMin(costs: seq<nat>): (i: nat)
    requires costs != []
    ensures i < |costs|
    ensures forall j :: 0 <= j < |costs| ==> costs[i] <= costs[j]
    ensures forall j :: 0 <= j < i ==> costs[i] < costs[j]
    decreases |costs|
  {
    if |costs| == 1 then 0
    else
      var k := FirstMin(costs[1..]) + 1;
      if costs[0] <= costs[k] then 0 else k
  }

  /** The costs of the entries of `heap`, in order, read with `cost`. */
  function Costs<T>(heap: seq<T>, cost: T -> nat): (c: seq<nat>)
    ensures |c| == |heap| && forall j :: 0 <= j < |heap| ==> c[j] == cost(heap[j])
  {
    seq(|heap|, j requires 0 <= j < |heap| => cost(heap[j]))
  }

  /** `heap` without its entry at index `i`. */
  function Remove<T>(heap: seq<T>, i: nat): (r: seq<T>)
    requires i < |heap|
    ensures |r| == |heap| - 1
    ensures forall x :: x in r ==> x in heap
    ensures forall x :: x in heap && x != heap[i] ==> x in r
    ensures forall j :: 0 <= j < i ==> r[j] == heap[j]
    ensures forall j :: i <= j < |r| ==> r[j] == heap[j + 1]
  {
    var r := heap[..i] + heap[i + 1..];
    assert forall x :: x in heap && x != heap[i] ==> x in r by {
      forall x | x in heap && x != heap[i]
        ensures x in r
      {
        var j :| 0 <= j < |heap| && heap[j] == x;
        if j < i { assert r[j] == x; } else { assert r[j - 1] == x; }
      }
    }
    r
  }
}
