/** What the tables of all routers do together with a packet. */
module Forwarding {
  import opened HopGraph

  // The router that each router hands a packet to, by destination
  type Tables = map<nat, map<nat, nat>>

  /** t hands a packet for each other router to a router that is one hop nearer to it, the one on the way that takes the
      smallest ids. */
  ghost predicate IsTable(g: Graph, r: nat, t: map<nat, nat>) {
    t.Keys == g.Keys - {r} && forall v {:trigger IsEntry(g, r, t[v], v)} :: v in t ==> IsEntry(g, r, t[v], v)
  }

  /** So the map alone determines the table, whatever earlier runs have left behind. */
  lemma TableUnique(g: Graph, r: nat, t: map<nat, nat>, u: map<nat, nat>)
    requires IsTable(g, r, t) && IsTable(g, r, u)
    ensures t == u
  {
    forall v | v in t ensures v in u && t[v] == u[v] {
      assert v in u.Keys;
      assert IsEntry(g, r, t[v], v) && IsEntry(g, r, u[v], v);
      ChosenUnique(g, r, v, t[v], u[v]);
    }
  }

  ghost predicate AreTables(g: Graph, tables: Tables) {
    tables.Keys == g.Keys && forall r {:trigger tables[r]} :: r in tables ==> IsTable(g, r, tables[r])
  }

  /** Where a packet is after the router at has received it. */
  function Next(tables: Tables, at: nat, dest: nat): nat {
    if at in tables && dest in tables[at] then tables[at][dest] else at
  }

  /** Where a packet is after n routers have handed it on. */
  function After(tables: Tables, at: nat, dest: nat, n: nat): nat {
    if n == 0 then at else Next(tables, After(tables, at, dest, n - 1), dest)
  }

  /** Handing a packet on takes it over a link, and one hop nearer to its destination. */
  lemma NextIsNearer(g: Graph, tables: Tables, at: nat, dest: nat, d: nat)
    requires AreTables(g, tables) && at in g && dest in g && IsDistance(g, at, dest, d) && d > 0
    ensures Hop(g, at, Next(tables, at, dest)) && IsDistance(g, Next(tables, at, dest), dest, d - 1)
  {
    assert at != dest by {
      assert Linked(g, at, at, 0);
    }
    assert IsEntry(g, at, tables[at][dest], dest);
    var k: nat :| IsDistance(g, tables[at][dest], dest, k) && IsDistance(g, at, dest, k + 1);
    DistanceUnique(g, at, dest, d, k + 1);
  }

  /** Each router's own table lowers the distance by exactly one, so the packet arrives after exactly the
      fewest hops. */
  lemma {:induction false} Arrives(g: Graph, tables: Tables, at: nat, dest: nat, d: nat, n: nat)
    requires AreTables(g, tables) && at in g && dest in g && IsDistance(g, at, dest, d) && n <= d
    ensures After(tables, at, dest, n) in g && IsDistance(g, After(tables, at, dest, n), dest, d - n)
    ensures After(tables, at, dest, n) == dest <==> n == d
  {
    if n > 0 {
      Arrives(g, tables, at, dest, d, n - 1);
      NextIsNearer(g, tables, After(tables, at, dest, n - 1), dest, d - n + 1);
    }
    var here := After(tables, at, dest, n);
    assert Linked(g, dest, dest, 0);
    assert n == d ==> Linked(g, here, dest, 0);
  }

  /** Every packet for a router that can be reached arrives, after the fewest hops there are. */
  lemma Delivers(g: Graph, tables: Tables, at: nat, dest: nat) returns (d: nat)
    requires AreTables(g, tables) && ReachesAll(g, at) && dest in g
    ensures IsDistance(g, at, dest, d) && d < |g|
    ensures After(tables, at, dest, d) == dest && forall n: nat :: n < d ==> After(tables, at, dest, n) != dest
  {
    var n: nat :| Linked(g, at, dest, n);
    d := HopGraph.Shortest(g, at, dest, n);
    DistanceBound(g, at, dest, d);
    forall m: nat | m <= d ensures After(tables, at, dest, m) == dest <==> m == d {
      Arrives(g, tables, at, dest, d, m);
    }
  }

  /** A packet that has arrived is not handed on. */
  lemma {:induction false} Stays(g: Graph, tables: Tables, dest: nat, n: nat)
    requires AreTables(g, tables) && dest in g
    ensures After(tables, dest, dest, n) == dest
  {
    if n > 0 {
      Stays(g, tables, dest, n - 1);
      assert IsTable(g, dest, tables[dest]);
    }
  }

  /** A packet meets no router twice on its way. */
  lemma LoopFree(g: Graph, tables: Tables, at: nat, dest: nat, d: nat, m: nat, n: nat)
    requires AreTables(g, tables) && at in g && dest in g && IsDistance(g, at, dest, d) && m < n <= d
    ensures After(tables, at, dest, m) != After(tables, at, dest, n)
  {
    Arrives(g, tables, at, dest, d, m);
    Arrives(g, tables, at, dest, d, n);
  }
}
