/** The start of hupsim.pl's main: routers and queues from the lines of the topology map, then every table. */
module Simulator {
  import opened HopGraph
  import opened Dijkstra
  import opened Routing
  import opened Forwarding

  // The routers that a line of the topology map links
  datatype Line = Line(from: nat, to: nat)

  function WithRouter(g: Graph, i: nat): Graph {
    if i in g then g else g[i := {}]
  }

  function WithHop(g: Graph, u: nat, v: nat): Graph
    requires u in g
  {
    g[u := g[u] + {v}]
  }

  function WithLine(g: Graph, line: Line): Graph {
    var routers := WithRouter(WithRouter(g, line.to), line.from);
    WithHop(WithHop(routers, line.to, line.from), line.from, line.to)
  }

  function GraphOf(lines: seq<Line>): Graph {
    if lines == [] then map[] else WithLine(GraphOf(lines[..|lines| - 1]), lines[|lines| - 1])
  }

  predicate Links(line: Line, u: nat, v: nat) {
    line == Line(u, v) || line == Line(v, u)
  }

  lemma HopsOfLine(g: Graph, line: Line, u: nat, v: nat)
    requires u in g && v in g[u] ==> v in g
    ensures Hop(WithLine(g, line), u, v) <==> Hop(g, u, v) || Links(line, u, v)
    ensures u in WithLine(g, line) && v in WithLine(g, line)[u] ==> v in WithLine(g, line)
  {
  }

  /** There is a hop exactly where a line of the map names the two routers, in either order. */
  lemma {:induction false} HopsOfLines(lines: seq<Line>, u: nat, v: nat)
    ensures Hop(GraphOf(lines), u, v) <==> exists line :: line in lines && Links(line, u, v)
    ensures u in GraphOf(lines) && v in GraphOf(lines)[u] ==> v in GraphOf(lines)
  {
    if lines != [] {
      var init, last := lines[..|lines| - 1], lines[|lines| - 1];
      assert forall line :: line in lines <==> line in init || line == last;
      HopsOfLines(init, u, v);
      HopsOfLine(GraphOf(init), last, u, v);
    }
  }

  lemma LinesAreSymmetric(lines: seq<Line>)
    ensures Symmetric(GraphOf(lines))
  {
    forall u, v | Hop(GraphOf(lines), u, v) ensures Hop(GraphOf(lines), v, u) {
      HopsOfLines(lines, u, v);
      HopsOfLines(lines, v, u);
      var line :| line in lines && Links(line, u, v);
      assert Links(line, v, u);
    }
  }

  /** The routers form the graph g and have the queues. */
  ghost predicate Built(routers: seq<Router?>, g: Graph, queues: Queues)
    reads Objects(routers)`routes, Objects(routers)`predecessor
  {
    Placed(routers, g) && Wired(routers, g, queues) && Carried(routers, queues) && Known(routers, g)
  }

  lemma Grow(routers: seq<Router?>, after: seq<Router?>, g: Graph, queues: Queues)
    requires Built(routers, g, queues) && |routers| <= |after|
    requires forall i :: 0 <= i < |after| ==> after[i] == if i < |routers| then routers[i] else null
    ensures Built(after, g, queues)
  {
    forall i | i in queues ensures IsWired(after, g, g[i], queues[i]) {
      assert IsWired(routers, g, g[i], queues[i]);
    }
    forall i | i in g ensures IsKnown(after, g, after[i]) {
      assert IsKnown(routers, g, routers[i]);
    }
  }

  lemma Install(routers: seq<Router?>, r: Router, g: Graph, queues: Queues)
    requires Built(routers, g, queues) && r.id < |routers| && routers[r.id] == null
    requires r.routes == [] && r.predecessor == null
    ensures Built(routers[r.id := r], g[r.id := {}], queues[r.id := []])
  {
    var after, g', queues' := routers[r.id := r], g[r.id := {}], queues[r.id := []];
    forall i | i in queues' ensures IsWired(after, g', g'[i], queues'[i]) {
      assert i != r.id ==> IsWired(routers, g, g[i], queues[i]);
    }
    forall i | i in g' ensures IsKnown(after, g', after[i]) {
      assert i != r.id ==> IsKnown(routers, g, routers[i]);
    }
  }

  /** A router for an id that has none yet; the array grows where it has to. */
  method NewRouter(routers: seq<Router?>, i: nat, ghost g: Graph, ghost queues: Queues)
    returns (after: seq<Router?>, ghost queuesAfter: Queues)
    requires Built(routers, g, queues)
    ensures Built(after, WithRouter(g, i), queuesAfter)
    ensures |routers| <= |after| && forall k :: 0 <= k < |routers| && routers[k] != null ==> after[k] == routers[k]
    ensures forall r :: r in Objects(after) ==> r in Objects(routers) || fresh(r)
  {
    after, queuesAfter := routers, queues;
    if i >= |after| {
      after := routers + seq(i + 1 - |routers|, _ => null);
      Grow(routers, after, g, queues);
    }
    if after[i] == null {
      var router := new Router(i);
      Install(after, router, g, queues);
      after, queuesAfter := after[i := router], queues[i := []];
    }
  }

  lemma HopWired(routers: seq<Router?>, u: Router, v: Router, g: Graph, queues: Queues, queue: NSQueue)
    requires Placed(routers, g) && Wired(routers, g, queues) && Holds(routers, u) && Holds(routers, v)
    requires queue.routeRef == v
    ensures Wired(routers, WithHop(g, u.id, v.id), queues[u.id := Put(queues[u.id], v.id, queue)])
  {
    var h, after := WithHop(g, u.id, v.id), queues[u.id := Put(queues[u.id], v.id, queue)];
    forall i | i in after ensures IsWired(routers, h, h[i], after[i]) {
      assert IsWired(routers, g, g[i], queues[i]);
    }
  }

  lemma HopKnown(routers: seq<Router?>, u: nat, v: nat, g: Graph)
    requires Placed(routers, g) && Known(routers, g) && u in g && v in g
    ensures Known(routers, WithHop(g, u, v))
  {
    forall i | i in g ensures IsKnown(routers, WithHop(g, u, v), routers[i]) {
      assert IsKnown(routers, g, routers[i]);
    }
  }

  method AddHop(routers: seq<Router?>, u: Router, v: Router, ghost g: Graph, ghost queues: Queues)
    returns (ghost after: Queues)
    requires Built(routers, g, queues) && Holds(routers, u) && Holds(routers, v)
    modifies u`routes
    ensures u.id in g && Built(routers, WithHop(g, u.id, v.id), after)
  {
    assert u.routes == queues[u.id];
    u.AddRoute(v);
    after := queues[u.id := u.routes];
    HopWired(routers, u, v, g, queues, u.routes[v.id]);
    forall i | i in after ensures routers[i].routes == after[i] {
      if i != u.id {
        assert routers[i].id == i && queues[i] == after[i];
      }
    }
    HopKnown(routers, u.id, v.id, g);
  }

  method AddLink(routers: seq<Router?>, u: Router, v: Router, ghost g: Graph, ghost queues: Queues)
    returns (ghost after: Queues)
    requires Built(routers, g, queues) && Holds(routers, u) && Holds(routers, v)
    modifies u`routes, v`routes
    ensures u.id in g && v.id in g && Built(routers, WithHop(WithHop(g, u.id, v.id), v.id, u.id), after)
  {
    after := AddHop(routers, u, v, g, queues);
    after := AddHop(routers, v, u, WithHop(g, u.id, v.id), after);
  }

  /** A line of the topology map. */
  method ReadLine(routers: seq<Router?>, line: Line, ghost g: Graph, ghost queues: Queues)
    returns (after: seq<Router?>, ghost queuesAfter: Queues)
    requires Built(routers, g, queues)
    modifies Objects(routers)`routes
    ensures Built(after, WithLine(g, line), queuesAfter)
    ensures forall r :: r in Objects(after) ==> r in Objects(routers) || fresh(r)
  {
    after, queuesAfter := NewRouter(routers, line.to, g, queues);
    after, queuesAfter := NewRouter(after, line.from, WithRouter(g, line.to), queuesAfter);
    ghost var h := WithRouter(WithRouter(g, line.to), line.from);
    assert line.to in h && line.from in h;
    queuesAfter := AddLink(after, after[line.to], after[line.from], h, queuesAfter);
  }

  /** The topology map as a whole. */
  method ReadMap(lines: seq<Line>) returns (routers: seq<Router?>, ghost queues: Queues)
    ensures Built(routers, GraphOf(lines), queues)
    ensures fresh(Objects(routers))
  {
    routers, queues := [], map[];
    for k := 0 to |lines|
      invariant Built(routers, GraphOf(lines[..k]), queues)
      invariant fresh(Objects(routers))
    {
      assert lines[..k + 1][..k] == lines[..k];
      routers, queues := ReadLine(routers, lines[k], GraphOf(lines[..k]), queues);
    }
    assert lines[..|lines|] == lines;
  }

  /** The value of all tables. */
  ghost function TablesOf(routers: seq<Router?>, g: Graph): (tables: Tables)
    requires Placed(routers, g)
    reads Objects(routers)`routingTable
  {
    map i: nat | i in g :: routers[i].NextHops()
  }

  ghost predicate TablesBelow(routers: seq<Router?>, g: Graph, k: nat)
    requires Placed(routers, g)
    reads Objects(routers)`routingTable, Objects(routers)`routes
  {
    forall i: nat {:trigger HasTable(routers, g, routers[i])} :: i in g && i < k ==> HasTable(routers, g, routers[i])
  }

  ghost predicate HasTable(routers: seq<Router?>, g: Graph, r: Router)
    reads r`routingTable, r`routes
  {
    IsTable(g, r.id, r.NextHops()) && OwnQueues(routers, r)
  }

  lemma AllTables(routers: seq<Router?>, g: Graph)
    requires Placed(routers, g) && TablesBelow(routers, g, |routers|)
    ensures AreTables(g, TablesOf(routers, g))
  {
    forall i | i in g ensures IsTable(g, i, TablesOf(routers, g)[i]) {
      assert HasTable(routers, g, routers[i]);
    }
  }

  /** The turn at entry k of the loop that builds the tables. */
  method CreateTableAt(routers: seq<Router?>, k: nat, ghost g: Graph, ghost queues: Queues) returns (completed: bool)
    requires Built(routers, g, queues) && |g| <= 65535 && k < |routers| && TablesBelow(routers, g, k)
    modifies Objects(routers)`routingTable
    modifies Objects(routers)`distance, Objects(routers)`predecessor, Objects(routers)`done
    ensures Built(routers, g, queues)
    ensures completed <==> (k in g ==> ReachesAll(g, k))
    ensures completed ==> TablesBelow(routers, g, k + 1)
  {
    completed := true;
    if routers[k] != null {
      completed := routers[k].CreateTable(routers, g, queues);
      forall i: nat | i in g && i < k ensures HasTable(routers, g, routers[i]) {
        assert routers[i].id == i && routers[i] != routers[k];
        assert old(HasTable(routers, g, routers[i]));
      }
    }
  }

  /** Every router builds its table; the runs share and overwrite each other's labels. */
  method CreateTables(routers: seq<Router?>, ghost g: Graph, ghost queues: Queues) returns (completed: bool)
    requires Built(routers, g, queues) && |g| <= 65535
    modifies Objects(routers)`routingTable
    modifies Objects(routers)`distance, Objects(routers)`predecessor, Objects(routers)`done
    ensures Built(routers, g, queues)
    ensures completed <==> Connected(g)
    ensures completed ==> TablesBelow(routers, g, |routers|)
  {
    for k := 0 to |routers|
      invariant Built(routers, g, queues) && TablesBelow(routers, g, k)
      invariant forall i {:trigger ReachesAll(g, i)} :: i in g && i < k ==> ReachesAll(g, i)
    {
      completed := CreateTableAt(routers, k, g, queues);
      if !completed {
        return;
      }
    }
    return true;
  }

  /** The router that the first line names reaches all others. */
  ghost predicate IsConnected(lines: seq<Line>) {
    lines != [] ==> ReachesAll(GraphOf(lines), lines[0].from)
  }

  lemma {:induction false} LineRouters(lines: seq<Line>, line: Line)
    requires line in lines
    ensures line.from in GraphOf(lines) && line.to in GraphOf(lines)
  {
    var init, last := lines[..|lines| - 1], lines[|lines| - 1];
    if line != last {
      LineRouters(init, line);
    }
  }

  lemma ConnectedMap(lines: seq<Line>)
    ensures IsConnected(lines) <==> Connected(GraphOf(lines))
  {
    var g := GraphOf(lines);
    if lines != [] {
      LineRouters(lines, lines[0]);
      LinesAreSymmetric(lines);
      assert Connected(g) ==> ReachesAll(g, lines[0].from);
      if IsConnected(lines) {
        forall i | i in g ensures ReachesAll(g, i) {
          ConnectedFromAll(g, lines[0].from, i);
        }
      }
    }
  }

  /** The start of main.  It completes exactly for the maps whose links connect all routers. */
  method SetUp(lines: seq<Line>) returns (routers: seq<Router?>, completed: bool)
    requires |GraphOf(lines)| <= 65535
    ensures Placed(routers, GraphOf(lines))
    ensures completed <==> IsConnected(lines)
    ensures completed ==> Connected(GraphOf(lines)) && TablesBelow(routers, GraphOf(lines), |routers|)
  {
    ghost var queues;
    routers, queues := ReadMap(lines);
    completed := CreateTables(routers, GraphOf(lines), queues);
    ConnectedMap(lines);
  }

  /** Two pairs of routers: the run of router 1 does not complete. */
  lemma TwoPairs(lines: seq<Line>)
    requires lines == [Line(1, 2), Line(3, 4)]
    ensures !IsConnected(lines)
  {
    LineRouters(lines, Line(3, 4));
    if n: nat :| Linked(GraphOf(lines), 1, 3, n) {
      PairStays(lines, 3, n);
    }
  }

  lemma {:induction false} PairStays(lines: seq<Line>, v: nat, n: nat)
    requires lines == [Line(1, 2), Line(3, 4)] && Linked(GraphOf(lines), 1, v, n)
    ensures v == 1 || v == 2
    decreases n
  {
    if n > 0 {
      var u :| Linked(GraphOf(lines), 1, u, n - 1) && Hop(GraphOf(lines), u, v);
      PairStays(lines, u, n - 1);
      HopsOfLines(lines, u, v);
    }
  }

  lemma {:induction false} GraphSize(lines: seq<Line>)
    ensures |GraphOf(lines)| <= 2 * |lines|
  {
    if lines != [] {
      var init, last := lines[..|lines| - 1], lines[|lines| - 1];
      GraphSize(init);
      WithLineKeys(GraphOf(init), last);
    }
  }

  lemma WithLineKeys(g: Graph, line: Line)
    ensures |WithLine(g, line)| <= |g| + 2
  {
    var keys := g.Keys + {line.to} + {line.from};
    assert WithLine(g, line).Keys <= keys;
    SubsetSize(WithLine(g, line).Keys, keys);
  }

  /** The start of main on that map: it does not get past the tables. */
  method SetUpTwoPairs() returns (completed: bool)
    ensures !completed
  {
    var lines := [Line(1, 2), Line(3, 4)];
    GraphSize(lines);
    TwoPairs(lines);
    var routers;
    routers, completed := SetUp(lines);
  }
}
