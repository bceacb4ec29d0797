/** A packet's way over the router objects that the start of main has set up. */
module Delivery {
  import opened LinkedQueue
  import opened HopGraph
  import opened Forwarding
  import opened Routing
  import opened Simulator

  /** from hands packets for dest to to, through one of its own queues. */
  ghost predicate HandsOn(from: Router, to: Router, dest: nat)
    reads from`routingTable, from`routes
  {
    && dest < |from.routingTable| && from.routingTable[dest] != null
    && from.routingTable[dest] in from.routes && from.routingTable[dest].routeRef == to
  }

  ghost predicate IsAt(routers: seq<Router?>, g: Graph, r: Router, dest: nat, n: int) {
    n >= 0 && Holds(routers, r) && IsDistance(g, r.id, dest, n)
  }

  /** The way of a packet for dest that starts d hops away: each router on it hands the packet to the next. */
  ghost predicate IsWay(routers: seq<Router?>, g: Graph, path: seq<Router>, dest: nat, d: int)
    reads Objects(routers)`routingTable, Objects(routers)`routes
  {
    && path != []
    && (forall i {:trigger path[i]} :: 0 <= i < |path| ==> IsAt(routers, g, path[i], dest, d - i))
    && forall i {:trigger path[i]} :: 0 < i < |path| ==> HandsOn(path[i - 1], path[i], dest)
  }

  lemma WayGrows(routers: seq<Router?>, g: Graph, path: seq<Router>, next: Router, dest: nat, d: int)
    requires IsWay(routers, g, path, dest, d) && HandsOn(path[|path| - 1], next, dest)
    requires IsAt(routers, g, next, dest, d - |path|)
    ensures IsWay(routers, g, path + [next], dest, d)
  {
  }

  /** No router object is met twice on a way. */
  lemma WayIsLoopFree(routers: seq<Router?>, g: Graph, path: seq<Router>, dest: nat, d: int, i: nat, j: nat)
    requires IsWay(routers, g, path, dest, d) && i < j < |path|
    ensures path[i] != path[j]
  {
    assert IsAt(routers, g, path[i], dest, d - i) && IsAt(routers, g, path[j], dest, d - j);
  }

  /** recv at a router n hops away: sent if that is the destination, otherwise queued for a router one hop nearer. */
  method Receive(routers: seq<Router?>, ghost g: Graph, at: Router, dest: nat, ghost n: int) returns (outcome: Outcome)
    requires Placed(routers, g) && TablesBelow(routers, g, |routers|) && dest in g && IsAt(routers, g, at, dest, n)
    ensures if n == 0 then outcome == Sent && at.id == dest
            else outcome.Queued? && IsAt(routers, g, outcome.queue.routeRef, dest, n - 1)
                 && HandsOn(at, outcome.queue.routeRef, dest)
  {
    outcome := at.Recv(Some(dest));
    if n > 0 {
      assert HasTable(routers, g, at);
      AllTables(routers, g);
      NextIsNearer(g, TablesOf(routers, g), at.id, dest, n);
      assert at.id != dest by {
        assert Linked(g, dest, dest, 0);
      }
      assert IsOwn(routers, at, outcome.queue);
    }
  }

  /** The packet has come along path, and recv has done what outcome says at its end. */
  ghost predicate HasCome(routers: seq<Router?>, g: Graph, path: seq<Router>, outcome: Outcome, dest: nat, d: int)
    reads Objects(routers)`routingTable, Objects(routers)`routes
  {
    && IsWay(routers, g, path, dest, d)
    && var at := path[|path| - 1];
       if |path| == d + 1 then outcome == Sent && at.id == dest
       else outcome.Queued? && IsAt(routers, g, outcome.queue.routeRef, dest, d - |path|)
            && HandsOn(at, outcome.queue.routeRef, dest)
  }

  /** The router that the queue leads to receives the packet. */
  method HandOn(routers: seq<Router?>, ghost g: Graph, path: seq<Router>, queue: NSQueue, dest: nat, ghost d: int)
    returns (longer: seq<Router>, outcome: Outcome)
    requires Placed(routers, g) && TablesBelow(routers, g, |routers|) && dest in g
    requires HasCome(routers, g, path, Queued(queue), dest, d)
    ensures longer == path + [queue.routeRef] && HasCome(routers, g, longer, outcome, dest, d)
  {
    WayGrows(routers, g, path, queue.routeRef, dest, d);
    longer := path + [queue.routeRef];
    outcome := Receive(routers, g, queue.routeRef, dest, d - |path|);
  }

  /** A packet that router from receives for dest is handed from router object to router object, always through one
      of the router's own queues, and sent to its node after exactly the fewest hops. */
  method Deliver(routers: seq<Router?>, ghost g: Graph, from: Router, dest: nat)
    returns (path: seq<Router>, outcome: Outcome)
    requires Placed(routers, g) && TablesBelow(routers, g, |routers|) && Connected(g)
    requires Holds(routers, from) && dest in g
    ensures path != [] && IsWay(routers, g, path, dest, |path| - 1)
    ensures path[0] == from && path[|path| - 1] == routers[dest] && outcome == Sent
  {
    ghost var d := HopsAway(g, from.id, dest);
    path := [from];
    outcome := Receive(routers, g, from, dest, d);
    while outcome.Queued?
      invariant HasCome(routers, g, path, outcome, dest, d) && path[0] == from
      decreases d - |path|
    {
      path, outcome := HandOn(routers, g, path, outcome.queue, dest, d);
    }
  }

  lemma HopsAway(g: Graph, from: nat, dest: nat) returns (d: nat)
    requires Connected(g) && from in g && dest in g
    ensures IsDistance(g, from, dest, d)
  {
    assert ReachesAll(g, from);
    var n: nat :| Linked(g, from, dest, n);
    d := HopGraph.Shortest(g, from, dest, n);
  }
}
