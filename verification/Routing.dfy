/** The routers of hupsim.pl: shared objects, each of which builds its own table of next hops with a run of
    Dijkstra's algorithm over all of them. */
module Routing {
  import opened LinkedQueue
  import opened HopGraph
  import opened Dijkstra
  import opened Forwarding

  class NSQueue {
    const routeRef: Router

    constructor (routeRef: Router)
      ensures this.routeRef == routeRef
    {
      this.routeRef := routeRef;
    }
  }

  // What becomes of a packet that a router receives
  datatype Outcome = Ignored | Sent | Queued(queue: NSQueue) | Died

  class Router {
    const id: nat
    var routes: seq<NSQueue?>
    var done: nat
    var distance: nat
    var predecessor: Router?
    var routingTable: seq<NSQueue?>

    constructor (id: nat)
      ensures this.id == id && routes == [] && routingTable == [] && predecessor == null
    {
      this.id, routes, routingTable, predecessor := id, [], [], null;
      done, distance := 0, 0;
    }

    function Label(): Label
      reads this`done, this`distance, this`predecessor
    {
      Dijkstra.Label(done > 0, distance, if predecessor == null then None else Some(predecessor.id))
    }

    /** The routers that the table hands packets to, by destination. */
    function NextHops(): map<nat, nat>
      reads this`routingTable
    {
      HopsOf(routingTable)
    }

    method AddRoute(routeRef: Router)
      modifies this`routes
      ensures routeRef.id < |routes| && routes[routeRef.id] != null && routes[routeRef.id].routeRef == routeRef
      ensures routes == Put(old(routes), routeRef.id, routes[routeRef.id])
    {
      var queue := new NSQueue(routeRef);
      routes := Put(routes, routeRef.id, queue);
    }

    /** createTable; completed is false where the walk along the predecessors from some router does not end. */
    method CreateTable(vertexes: seq<Router?>, ghost g: Graph, ghost queues: Queues) returns (completed: bool)
      requires Placed(vertexes, g) && Wired(vertexes, g, queues) && Carried(vertexes, queues)
      requires Known(vertexes, g) && Holds(vertexes, this) && |g| <= 65535
      modifies this`routingTable
      modifies Objects(vertexes)`distance, Objects(vertexes)`predecessor, Objects(vertexes)`done
      ensures Known(vertexes, g)
      ensures completed <==> ReachesAll(g, id)
      ensures completed ==> IsTable(g, id, NextHops()) && OwnQueues(vertexes, this)
    {
      routingTable := [];
      ghost var l := ComputeTree(vertexes, id, g, queues);
      completed := FillTable(vertexes, g, queues, l);
    }

    /** The last loop of createTable. */
    method FillTable(vertexes: seq<Router?>, ghost g: Graph, ghost queues: Queues, ghost l: Labels)
      returns (completed: bool)
      requires Placed(vertexes, g) && Wired(vertexes, g, queues) && Holds(vertexes, this)
      requires Labelled(vertexes, queues, l) && IsTree(g, id, l) && routingTable == []
      modifies this`routingTable
      ensures completed <==> ReachesAll(g, id)
      ensures completed ==> IsTable(g, id, NextHops()) && OwnQueues(vertexes, this)
    {
      NothingBelow(g.Keys - {id});
      AllBelow(g.Keys - {id}, |vertexes|);
      assert Linked(g, id, id, 0);
      for k := 0 to |vertexes|
        invariant Labelled(vertexes, queues, l)
        invariant IsPartOfTable(g, id, NextHops(), k) && OwnQueues(vertexes, this)
        invariant forall v :: v in g && v < k ==> Reaches(g, id, v)
      {
        var entered := EnterQueue(vertexes, k, g, queues, l);
        if !entered {
          return false;
        }
      }
      return true;
    }

    /** The queue that the walk from vertex finds. */
    method FindQueue(vertexes: seq<Router?>, vertex: Router, ghost g: Graph, ghost queues: Queues, ghost l: Labels)
      returns (queue: NSQueue?)
      requires Placed(vertexes, g) && Wired(vertexes, g, queues) && Holds(vertexes, this)
      requires Labelled(vertexes, queues, l) && IsTree(g, id, l) && Holds(vertexes, vertex) && vertex != this
      ensures queue != null <==> Reaches(g, id, vertex.id)
      ensures queue != null ==> IsEntry(g, id, queue.routeRef.id, vertex.id) && IsOwn(vertexes, this, queue)
    {
      var startRoute := FirstHop(vertexes, id, vertex, g, queues, l);
      if startRoute == null {
        return null;
      }
      assert IsLabelled(vertexes, this, queues[id], l[id]);
      assert IsWired(vertexes, g, g[id], routes) && startRoute.id in g[id];
      queue := routes[startRoute.id];
    }

    /** The turn of createTable's last loop at entry k of the array. */
    method EnterQueue(vertexes: seq<Router?>, k: nat, ghost g: Graph, ghost queues: Queues, ghost l: Labels)
      returns (entered: bool)
      requires Placed(vertexes, g) && Wired(vertexes, g, queues) && Holds(vertexes, this) && k < |vertexes|
      requires Labelled(vertexes, queues, l) && IsTree(g, id, l)
      requires IsPartOfTable(g, id, NextHops(), k) && OwnQueues(vertexes, this)
      modifies this`routingTable
      ensures entered <==> (vertexes[k] != null && vertexes[k] != this ==> Reaches(g, id, k))
      ensures entered ==> IsPartOfTable(g, id, NextHops(), k + 1) && OwnQueues(vertexes, this)
    {
      if vertexes[k] != null && vertexes[k].id != id {
        var queue := FindQueue(vertexes, vertexes[k], g, queues, l);
        if queue == null {
          return false;
        }
        EnterHop(g, id, NextHops(), k, queue.routeRef.id);
        HopsPut(routingTable, k, queue);
        routingTable := Put(routingTable, k, queue);
      } else {
        BelowNext(g.Keys - {id}, k);
      }
      return true;
    }

    // getQ and the branches of recv; dest is what the map of nodes gives for the packet's address.
    method Recv(dest: Option<nat>) returns (outcome: Outcome)
      ensures outcome.Ignored? <==> dest == None
      ensures outcome.Sent? <==> dest == Some(id)
      ensures outcome.Queued? <==> dest.Some? && dest.value != id && dest.value in NextHops()
      ensures outcome.Queued? ==> dest.value < |routingTable| && outcome.queue == routingTable[dest.value]
      ensures outcome.Queued? ==> outcome.queue.routeRef.id == NextHops()[dest.value]
    {
      if dest == None {
        return Ignored;
      }
      if dest.value == id {
        return Sent;
      }
      if dest.value < |routingTable| && routingTable[dest.value] != null {
        return Queued(routingTable[dest.value]);
      }
      return Died;
    }
  }

  /** Assignment to an element of a Perl array, which grows where it has to. */
  function Put(s: seq<NSQueue?>, i: nat, q: NSQueue): (r: seq<NSQueue?>)
    ensures i < |r| && r[i] == q
    ensures |r| == if i < |s| then |s| else i + 1
    ensures forall j :: 0 <= j < |r| && j != i ==> r[j] == if j < |s| then s[j] else null
  {
    if i < |s| then s[i := q] else s + seq(i - |s|, _ => null) + [q]
  }

  function HopsOf(routingTable: seq<NSQueue?>): map<nat, nat> {
    map v: nat | v < |routingTable| && routingTable[v] != null :: routingTable[v].routeRef.id
  }

  lemma HopsPut(routingTable: seq<NSQueue?>, k: nat, queue: NSQueue)
    ensures HopsOf(Put(routingTable, k, queue)) == HopsOf(routingTable)[k := queue.routeRef.id]
  {
  }

  /** The queue is one of r's own, at the index of the router of the array that it leads to. */
  ghost predicate IsOwn(vertexes: seq<Router?>, r: Router, queue: NSQueue)
    reads r`routes
  {
    var to := queue.routeRef;
    Holds(vertexes, to) && to.id < |r.routes| && r.routes[to.id] == queue
  }

  ghost predicate OwnQueues(vertexes: seq<Router?>, r: Router)
    reads r`routes, r`routingTable
  {
    forall v: nat {:trigger r.routingTable[v]} :: v < |r.routingTable| && r.routingTable[v] != null ==>
      IsOwn(vertexes, r, r.routingTable[v])
  }

  ghost predicate IsPartOfTable(g: Graph, r: nat, t: map<nat, nat>, k: nat) {
    t.Keys == Below(g.Keys - {r}, k) && forall v {:trigger IsEntry(g, r, t[v], v)} :: v in t ==> IsEntry(g, r, t[v], v)
  }

  lemma EnterHop(g: Graph, r: nat, t: map<nat, nat>, k: nat, hop: nat)
    requires IsPartOfTable(g, r, t, k) && k in g && k != r && IsEntry(g, r, hop, k)
    ensures IsPartOfTable(g, r, t[k := hop], k + 1)
  {
    assert forall v :: v in t ==> IsEntry(g, r, t[v], v);
  }

  function Objects(vertexes: seq<Router?>): set<Router> {
    set r: Router | r in vertexes
  }

  // The entries of each router's array of queues, by id
  type Queues = map<nat, seq<NSQueue?>>

  /** The array holds each router of g at its id and is undefined elsewhere. */
  ghost predicate Placed<V>(vertexes: seq<Router?>, g: map<nat, V>) {
    && (forall i: nat :: i in g ==> i < |vertexes| && vertexes[i] != null && vertexes[i].id == i)
    && forall i: nat :: i < |vertexes| && vertexes[i] != null ==> i in g
  }

  /** A router's queues lead to exactly its hops, each at the index of the router that it leads to. */
  ghost predicate IsWired(vertexes: seq<Router?>, g: Graph, hops: set<nat>, queues: seq<NSQueue?>) {
    && (forall j: nat {:trigger j in hops} :: j in hops ==>
         j in g && j < |vertexes| && j < |queues| && queues[j] != null && queues[j].routeRef == vertexes[j])
    && forall j: nat {:trigger queues[j]} :: j < |queues| && queues[j] != null ==> j in hops
  }

  ghost predicate Wired(vertexes: seq<Router?>, g: Graph, queues: Queues) {
    queues.Keys == g.Keys && forall i {:trigger queues[i]} :: i in queues ==> IsWired(vertexes, g, g[i], queues[i])
  }

  predicate Holds(vertexes: seq<Router?>, r: Router) {
    r.id < |vertexes| && vertexes[r.id] == r
  }

  /** Recorded predecessors are routers of the array, one hop away. */
  ghost predicate Known(vertexes: seq<Router?>, g: Graph)
    requires Placed(vertexes, g)
    reads Objects(vertexes)`predecessor
  {
    forall i {:trigger IsKnown(vertexes, g, vertexes[i])} :: i in g ==> IsKnown(vertexes, g, vertexes[i])
  }

  ghost predicate IsKnown(vertexes: seq<Router?>, g: Graph, r: Router)
    reads r`predecessor
  {
    r.predecessor != null ==> Holds(vertexes, r.predecessor) && Hop(g, r.predecessor.id, r.id)
  }

  /** The routers have the queues and the labels l. */
  ghost predicate Labelled(vertexes: seq<Router?>, queues: Queues, l: Labels)
    reads Objects(vertexes)`routes, Objects(vertexes)`done, Objects(vertexes)`distance, Objects(vertexes)`predecessor
  {
    forall i {:trigger l[i]} :: i in l ==>
      i < |vertexes| && vertexes[i] != null && i in queues && IsLabelled(vertexes, vertexes[i], queues[i], l[i])
  }

  ghost predicate IsLabelled(vertexes: seq<Router?>, r: Router, queues: seq<NSQueue?>, mark: Label)
    reads r`routes, r`done, r`distance, r`predecessor
  {
    r.routes == queues && r.Label() == mark && (r.predecessor != null ==> Holds(vertexes, r.predecessor))
  }

  /** The routers have the queues. */
  ghost predicate Carried(vertexes: seq<Router?>, queues: Queues)
    reads Objects(vertexes)`routes
  {
    forall i {:trigger queues[i]} :: i in queues ==>
      i < |vertexes| && vertexes[i] != null && vertexes[i].routes == queues[i]
  }

  method Reset(vertexes: seq<Router?>, s: nat, ghost g: Graph, ghost queues: Queues) returns (ghost l: Labels)
    requires Placed(vertexes, g) && Known(vertexes, g) && s in g
    requires queues.Keys == g.Keys && Carried(vertexes, queues)
    modifies Objects(vertexes)`done, Objects(vertexes)`distance
    ensures Labelled(vertexes, queues, l) && Fresh(g, s, l) && Recorded(g, l)
  {
    for k := 0 to |vertexes|
      invariant forall i :: 0 <= i < k && vertexes[i] != null ==>
                vertexes[i].done == 0 && vertexes[i].distance == if i == s then 0 else INFINITY
    {
      var vertex := vertexes[k];
      if vertex != null {
        vertex.done := 0;
        vertex.distance := if vertex.id == s then 0 else INFINITY;
      }
    }
    l := map i | i in g :: vertexes[i].Label();
    forall i | i in l ensures IsRecorded(g, l, i) && IsLabelled(vertexes, vertexes[i], queues[i], l[i]) {
      assert IsKnown(vertexes, g, vertexes[i]);
    }
  }

  /** The selection loop. */
  method SelectNext(vertexes: seq<Router?>, ghost queues: Queues, ghost l: Labels) returns (next: Router)
    requires Placed(vertexes, l) && Labelled(vertexes, queues, l)
    requires forall i :: i in l ==> l[i].distance <= INFINITY
    requires exists i :: i in l && !l[i].done
    ensures Holds(vertexes, next) && IsNext(l, next.id)
  {
    var found: Router? := null;
    var min := INFINITY + 1;
    for k := 0 to |vertexes|
      invariant forall i :: 0 <= i < k && i in l && !l[i].done ==> min <= l[i].distance
      invariant if found == null then min == INFINITY + 1
                else Holds(vertexes, found) && found.done == 0 && found.distance == min
      invariant found != null ==>
                  found.id < k && forall i :: i in l && !l[i].done && i < found.id ==> l[i].distance > min
    {
      var vertex := vertexes[k];
      if vertex != null {
        assert k in l && l[k] == vertex.Label();
        if vertex.done == 0 && vertex.distance < min {
          found, min := vertex, vertex.distance;
        }
      }
    }
    next := found;
  }

  function Lowered(l: Labels, u: nat, k: nat): Labels
    requires u in l && k in l
  {
    if l[k].distance > l[u].distance + 1
    then l[k := l[k].(distance := l[u].distance + 1, predecessor := Some(u))] else l
  }

  lemma RelaxedNext(l: Labels, u: nat, targets: set<nat>, k: nat)
    requires u in l && k in l && k in targets
    ensures Relaxed(l, u, Below(targets, k + 1)) == Lowered(Relaxed(l, u, Below(targets, k)), u, k)
  {
  }

  /** One queue of the relaxation loop. */
  method Relax(vertexes: seq<Router?>, next: Router, to: Router, ghost queues: Queues, ghost l: Labels)
    requires Placed(vertexes, l) && Labelled(vertexes, queues, l) && Holds(vertexes, next) && Holds(vertexes, to)
    modifies to`distance, to`predecessor
    ensures Labelled(vertexes, queues, Lowered(l, next.id, to.id))
  {
    assert Placed(vertexes, l) && next.id in l && to.id in l;
    assert l[to.id] == to.Label() && l[next.id] == next.Label();
    var weight := next.distance + 1;
    if to.distance > weight {
      to.distance := weight;
      to.predecessor := next;
    }
  }

  /** Entry k of next's queues in the relaxation loop. */
  method RelaxEntry(vertexes: seq<Router?>, next: Router, k: nat, ghost g: Graph, ghost queues: Queues,
                    ghost l: Labels)
    requires Placed(vertexes, g) && Holds(vertexes, next) && next.id in g
    requires IsWired(vertexes, g, g[next.id], next.routes) && k < |next.routes|
    requires l.Keys == g.Keys && Labelled(vertexes, queues, Relaxed(l, next.id, Below(g[next.id], k)))
    modifies Objects(vertexes)`distance, Objects(vertexes)`predecessor
    ensures Labelled(vertexes, queues, Relaxed(l, next.id, Below(g[next.id], k + 1)))
  {
    var edge := next.routes[k];
    if edge != null {
      assert k in g[next.id] && edge.routeRef == vertexes[k];
      RelaxedNext(l, next.id, g[next.id], k);
      Relax(vertexes, next, edge.routeRef, queues, Relaxed(l, next.id, Below(g[next.id], k)));
    } else {
      assert k !in g[next.id];
      BelowNext(g[next.id], k);
    }
  }

  /** The relaxation loop for the router next. */
  method RelaxAll(vertexes: seq<Router?>, next: Router, ghost g: Graph, ghost queues: Queues, ghost l: Labels)
    requires Placed(vertexes, g) && Holds(vertexes, next) && next.id in g
    requires IsWired(vertexes, g, g[next.id], next.routes)
    requires l.Keys == g.Keys && Labelled(vertexes, queues, l)
    modifies Objects(vertexes)`distance, Objects(vertexes)`predecessor
    ensures Labelled(vertexes, queues, Relaxed(l, next.id, g[next.id]))
  {
    AllBelow(g[next.id], |next.routes|);
    NothingBelow(g[next.id]);
    assert Relaxed(l, next.id, {}) == l;
    for k := 0 to |next.routes|
      invariant Labelled(vertexes, queues, Relaxed(l, next.id, Below(g[next.id], k)))
    {
      RelaxEntry(vertexes, next, k, g, queues, l);
    }
  }

  method Finish(vertexes: seq<Router?>, next: Router, ghost queues: Queues, ghost l: Labels)
    requires Placed(vertexes, l) && Labelled(vertexes, queues, l) && Holds(vertexes, next)
    modifies next`done
    ensures next.id in l && Labelled(vertexes, queues, l[next.id := l[next.id].(done := true)])
  {
    assert l[next.id] == next.Label();
    next.done := next.done + 1;
  }

  /** A turn of the second loop once the router next is chosen. */
  method Visit(vertexes: seq<Router?>, next: Router, ghost g: Graph, ghost queues: Queues, ghost l: Labels)
    requires Placed(vertexes, g) && Holds(vertexes, next) && Wired(vertexes, g, queues)
    requires l.Keys == g.Keys && Labelled(vertexes, queues, l)
    modifies Objects(vertexes)`distance, Objects(vertexes)`predecessor, Objects(vertexes)`done
    ensures next.id in g && Labelled(vertexes, queues, Visited(l, next.id, g[next.id]))
  {
    assert IsLabelled(vertexes, next, queues[next.id], l[next.id]);
    RelaxAll(vertexes, next, g, queues, l);
    Finish(vertexes, next, queues, Relaxed(l, next.id, g[next.id]));
  }

  /** A turn of the second loop. */
  method Turn(vertexes: seq<Router?>, s: nat, ghost g: Graph, ghost queues: Queues, ghost l: Labels)
    returns (ghost after: Labels)
    requires Placed(vertexes, g) && Wired(vertexes, g, queues) && Labelled(vertexes, queues, l)
    requires Inv(g, s, l) && DoneBelow(l, |vertexes|) < RoutersBelow(g, |vertexes|)
    modifies Objects(vertexes)`distance, Objects(vertexes)`predecessor, Objects(vertexes)`done
    ensures Labelled(vertexes, queues, after)
    ensures Inv(g, s, after) && DoneBelow(after, |vertexes|) == DoneBelow(l, |vertexes|) + 1
  {
    SomeLeft(g, s, l, |vertexes|);
    var next := SelectNext(vertexes, queues, l);
    Visit(vertexes, next, g, queues, l);
    VisitKeepsInv(g, s, l, next.id);
    OneMoreDone(l, next.id, g[next.id], |vertexes|);
    after := Visited(l, next.id, g[next.id]);
  }

  /** The turn at entry k of the array. */
  method TurnAt(vertexes: seq<Router?>, k: nat, s: nat, ghost g: Graph, ghost queues: Queues, ghost l: Labels)
    returns (ghost after: Labels)
    requires Placed(vertexes, g) && Wired(vertexes, g, queues) && Labelled(vertexes, queues, l)
    requires k < |vertexes| && Inv(g, s, l) && DoneBelow(l, |vertexes|) == RoutersBelow(g, k)
    modifies Objects(vertexes)`distance, Objects(vertexes)`predecessor, Objects(vertexes)`done
    ensures Labelled(vertexes, queues, after)
    ensures Inv(g, s, after) && DoneBelow(after, |vertexes|) == RoutersBelow(g, k + 1)
  {
    after := l;
    if vertexes[k] != null {
      RoutersGrow(g, k, |vertexes|);
      after := Turn(vertexes, s, g, queues, l);
    }
  }

  method Start(vertexes: seq<Router?>, s: nat, ghost g: Graph, ghost queues: Queues) returns (ghost l: Labels)
    requires Placed(vertexes, g) && queues.Keys == g.Keys && Carried(vertexes, queues)
    requires Known(vertexes, g) && s in g
    modifies Objects(vertexes)`done, Objects(vertexes)`distance
    ensures Labelled(vertexes, queues, l) && Inv(g, s, l) && DoneBelow(l, |vertexes|) == 0
  {
    l := Reset(vertexes, s, g, queues);
    FreshInv(g, s, l);
    NoneDone(l, |vertexes|);
  }

  /** The first two loops of createTable. */
  method ComputeDistances(vertexes: seq<Router?>, s: nat, ghost g: Graph, ghost queues: Queues)
    returns (ghost l: Labels)
    requires Placed(vertexes, g) && Wired(vertexes, g, queues) && Carried(vertexes, queues)
    requires Known(vertexes, g) && s in g
    modifies Objects(vertexes)`distance, Objects(vertexes)`predecessor, Objects(vertexes)`done
    ensures Labelled(vertexes, queues, l) && Inv(g, s, l) && forall v :: v in l ==> l[v].done
  {
    l := Start(vertexes, s, g, queues);
    l := VisitAll(vertexes, s, g, queues, l);
  }

  /** The second loop of createTable. */
  method VisitAll(vertexes: seq<Router?>, s: nat, ghost g: Graph, ghost queues: Queues, ghost start: Labels)
    returns (ghost l: Labels)
    requires Placed(vertexes, g) && Wired(vertexes, g, queues) && Labelled(vertexes, queues, start)
    requires Inv(g, s, start) && DoneBelow(start, |vertexes|) == 0
    modifies Objects(vertexes)`distance, Objects(vertexes)`predecessor, Objects(vertexes)`done
    ensures Labelled(vertexes, queues, l) && Inv(g, s, l) && forall v :: v in l ==> l[v].done
  {
    l := start;
    for k := 0 to |vertexes|
      invariant Labelled(vertexes, queues, l) && Inv(g, s, l)
      invariant DoneBelow(l, |vertexes|) == RoutersBelow(g, k)
    {
      l := TurnAt(vertexes, k, s, g, queues, l);
    }
    AllDone(g, l, |vertexes|);
  }

  method ComputeTree(vertexes: seq<Router?>, s: nat, ghost g: Graph, ghost queues: Queues)
    returns (ghost l: Labels)
    requires Placed(vertexes, g) && Wired(vertexes, g, queues) && Carried(vertexes, queues)
    requires Known(vertexes, g) && |g| <= 65535 && s in g
    modifies Objects(vertexes)`distance, Objects(vertexes)`predecessor, Objects(vertexes)`done
    ensures Known(vertexes, g) && Labelled(vertexes, queues, l) && IsTree(g, s, l)
  {
    l := ComputeDistances(vertexes, s, g, queues);
    TreeComplete(g, s, l);
    forall i | i in g ensures IsKnown(vertexes, g, vertexes[i]) {
      assert IsRecorded(g, l, i) && IsLabelled(vertexes, vertexes[i], queues[i], l[i]);
    }
  }

  /** The walk along the predecessors from vertex to the router after s.  Where the walk of the source would not
      end, this one gives up after as many steps as the array has entries. */
  method FirstHop(vertexes: seq<Router?>, s: nat, vertex: Router, ghost g: Graph, ghost queues: Queues,
                  ghost l: Labels)
    returns (startRoute: Router?)
    requires Placed(vertexes, g) && Labelled(vertexes, queues, l) && IsTree(g, s, l)
    requires Holds(vertexes, vertex) && vertex.id != s
    ensures startRoute != null <==> WalkEnds(l, s, vertex.id)
    ensures startRoute != null <==> Reaches(g, s, vertex.id)
    ensures startRoute != null ==> Holds(vertexes, startRoute) && IsEntry(g, s, startRoute.id, vertex.id)
  {
    ghost var v := vertex.id;
    WalkEndsIfReached(g, s, l, v);
    var cur: Router := vertex;
    for n := 0 to |vertexes|
      invariant Holds(vertexes, cur) && cur.id in g && IsLabelled(vertexes, cur, queues[cur.id], l[cur.id])
      invariant Walked(l, v, n) == Some(cur.id) && NotYet(l, s, v, n)
    {
      if cur.predecessor == null {
        NoMeeting(g, s, l, v, n);
        return null;
      }
      if cur.predecessor.id == s {
        FirstMeeting(g, s, l, v, n);
        return cur;
      }
      assert IsRecorded(g, l, cur.id);
      cur := cur.predecessor;
      assert IsLabelled(vertexes, cur, queues[cur.id], l[cur.id]);
    }
    AtMost(g.Keys, |vertexes|);
    NoMeeting(g, s, l, v, |vertexes|);
    return null;
  }
}
