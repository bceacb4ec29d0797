/** Hop counts in the graph of the simulator's routers. */
module HopGraph {

  // The routers that each router has a queue to, by id
  type Graph = map<nat, set<nat>>

  predicate Hop(g: Graph, u: nat, v: nat) {
    u in g && v in g && v in g[u]
  }

  /** There is a walk of n hops from s to v. */
  ghost predicate Linked(g: Graph, s: nat, v: nat, n: nat)
    decreases n
  {
    if n == 0 then s == v && s in g else exists u :: Linked(g, s, u, n - 1) && Hop(g, u, v)
  }

  /** n is the fewest hops from s to v. */
  ghost predicate IsDistance(g: Graph, s: nat, v: nat, n: nat) {
    Linked(g, s, v, n) && forall m: nat :: m < n ==> !Linked(g, s, v, m)
  }

  ghost predicate Reaches(g: Graph, s: nat, v: nat) {
    exists n: nat :: Linked(g, s, v, n)
  }

  /** Every router can be reached from s. */
  ghost predicate ReachesAll(g: Graph, s: nat) {
    s in g && forall v :: v in g ==> Reaches(g, s, v)
  }

  /** Every router reaches every other. */
  ghost predicate Connected(g: Graph) {
    forall i {:trigger ReachesAll(g, i)} :: i in g ==> ReachesAll(g, i)
  }

  ghost predicate Symmetric(g: Graph) {
    forall u, v :: Hop(g, u, v) ==> Hop(g, v, u)
  }

  lemma {:induction false} LinkedInside(g: Graph, s: nat, v: nat, n: nat)
    requires Linked(g, s, v, n)
    ensures s in g && v in g
    decreases n
  {
    if n > 0 {
      var u :| Linked(g, s, u, n - 1) && Hop(g, u, v);
      LinkedInside(g, s, u, n - 1);
    }
  }

  lemma Append(g: Graph, s: nat, u: nat, v: nat, n: nat)
    requires Linked(g, s, u, n) && Hop(g, u, v)
    ensures Linked(g, s, v, n + 1)
  {
  }

  lemma {:induction false} Join(g: Graph, s: nat, u: nat, v: nat, m: nat, n: nat)
    requires Linked(g, s, u, m) && Linked(g, u, v, n)
    ensures Linked(g, s, v, m + n)
    decreases n
  {
    if n > 0 {
      var w :| Linked(g, u, w, n - 1) && Hop(g, w, v);
      Join(g, s, u, w, m, n - 1);
      assert m + n - 1 == m + (n - 1);
    }
  }

  lemma Prepend(g: Graph, s: nat, u: nat, v: nat, n: nat)
    requires Hop(g, s, u) && Linked(g, u, v, n)
    ensures Linked(g, s, v, n + 1)
  {
    assert Linked(g, s, s, 0);
    assert Linked(g, s, u, 1);
    Join(g, s, u, v, 1, n);
  }

  lemma {:induction false} Reversed(g: Graph, s: nat, v: nat, n: nat)
    requires Symmetric(g) && Linked(g, s, v, n)
    ensures Linked(g, v, s, n)
    decreases n
  {
    if n > 0 {
      var u :| Linked(g, s, u, n - 1) && Hop(g, u, v);
      Reversed(g, s, u, n - 1);
      Prepend(g, v, u, s, n - 1);
    }
  }

  /** With links in both directions it is enough that one router reaches all the others. */
  lemma ConnectedFromAll(g: Graph, s: nat, r: nat)
    requires Symmetric(g) && ReachesAll(g, s) && r in g
    ensures ReachesAll(g, r)
  {
    var m: nat :| Linked(g, s, r, m);
    Reversed(g, s, r, m);
    forall v | v in g ensures Reaches(g, r, v) {
      var n: nat :| Linked(g, s, v, n);
      Join(g, r, s, v, m, n);
    }
  }

  lemma DistanceUnique(g: Graph, s: nat, v: nat, m: nat, n: nat)
    requires IsDistance(g, s, v, m) && IsDistance(g, s, v, n)
    ensures m == n
  {
  }

  lemma {:induction false} Shortest(g: Graph, s: nat, v: nat, n: nat) returns (d: nat)
    requires Linked(g, s, v, n)
    ensures d <= n && IsDistance(g, s, v, d)
    decreases n
  {
    if m: nat :| m < n && Linked(g, s, v, m) {
      d := Shortest(g, s, v, m);
    } else {
      d := n;
    }
  }

  /** A router on the way to v that is one hop nearer to s. */
  lemma Nearer(g: Graph, s: nat, v: nat, d: nat) returns (u: nat)
    requires IsDistance(g, s, v, d) && d > 0
    ensures Hop(g, u, v) && IsDistance(g, s, u, d - 1)
  {
    u :| Linked(g, s, u, d - 1) && Hop(g, u, v);
    forall m: nat | m < d - 1 ensures !Linked(g, s, u, m) {
      assert !Linked(g, s, v, m + 1);
    }
  }

  /** A router at distance d is the last of d + 1 different routers. */
  lemma {:induction false} Layers(g: Graph, s: nat, v: nat, d: nat) returns (layers: set<nat>)
    requires IsDistance(g, s, v, d)
    ensures layers <= g.Keys && |layers| == d + 1
    ensures forall u :: u in layers ==> exists m: nat :: m <= d && IsDistance(g, s, u, m)
    decreases d
  {
    LinkedInside(g, s, v, d);
    if d == 0 {
      layers := {v};
    } else {
      var u := Nearer(g, s, v, d);
      var nearer := Layers(g, s, u, d - 1);
      layers := nearer + {v};
      assert v !in nearer;
    }
  }

  lemma {:induction false} SubsetSize(a: set<nat>, b: set<nat>)
    requires a <= b
    ensures |a| <= |b| && (|a| == |b| ==> a == b)
  {
    if x :| x in a {
      SubsetSize(a - {x}, b - {x});
    }
  }

  /** Distances are smaller than the number of routers. */
  lemma DistanceBound(g: Graph, s: nat, v: nat, d: nat)
    requires IsDistance(g, s, v, d)
    ensures d < |g|
  {
    var layers := Layers(g, s, v, d);
    SubsetSize(layers, g.Keys);
  }

  /** k is a first hop of a shortest way from r to v. */
  ghost predicate Closer(g: Graph, r: nat, k: nat, v: nat) {
    Hop(g, r, k) && exists d: nat :: IsDistance(g, k, v, d) && IsDistance(g, r, v, d + 1)
  }

  lemma FirstHopIsCloser(g: Graph, r: nat, k: nat, v: nat, d: nat)
    requires Hop(g, r, k) && Linked(g, k, v, d) && IsDistance(g, r, v, d + 1)
    ensures Closer(g, r, k, v)
  {
    forall m: nat | m < d ensures !Linked(g, k, v, m) {
      if Linked(g, k, v, m) {
        Prepend(g, r, k, v, m);
      }
    }
    assert IsDistance(g, k, v, d);
  }

  // ---------- The first of all shortest ways ----------

  /** p comes before v on a shortest way from s. */
  ghost predicate IsBefore(g: Graph, s: nat, p: nat, v: nat) {
    Hop(g, p, v) && exists d: nat :: IsDistance(g, s, p, d) && IsDistance(g, s, v, d + 1)
  }

  /** Of all routers that do, p has the smallest id. */
  ghost predicate IsFirstBefore(g: Graph, s: nat, p: nat, v: nat) {
    IsBefore(g, s, p, v) && forall w {:trigger IsBefore(g, s, w, v)} :: IsBefore(g, s, w, v) ==> p <= w
  }

  /** n such steps back from v lead to k. */
  ghost predicate Traced(g: Graph, s: nat, v: nat, n: nat, k: nat)
    decreases n
  {
    if n == 0 then k == v else exists j :: Traced(g, s, v, n - 1, j) && IsFirstBefore(g, s, k, j)
  }

  /** The way from v back to r that takes the smallest id at every step leaves r by k. */
  ghost predicate IsChosen(g: Graph, r: nat, k: nat, v: nat) {
    exists d: nat :: IsDistance(g, r, v, d + 1) && Traced(g, r, v, d, k)
  }

  /** What a table holds for v. */
  ghost predicate IsEntry(g: Graph, r: nat, k: nat, v: nat) { Closer(g, r, k, v) && IsChosen(g, r, k, v) }

  lemma {:induction false} TracedUnique(g: Graph, s: nat, v: nat, n: nat, k: nat, m: nat)
    requires Traced(g, s, v, n, k) && Traced(g, s, v, n, m)
    ensures k == m
    decreases n
  {
    if n > 0 {
      var i :| Traced(g, s, v, n - 1, i) && IsFirstBefore(g, s, k, i);
      var j :| Traced(g, s, v, n - 1, j) && IsFirstBefore(g, s, m, j);
      TracedUnique(g, s, v, n - 1, i, j);
      assert IsBefore(g, s, k, i) && IsBefore(g, s, m, i);
    }
  }

  lemma ChosenUnique(g: Graph, r: nat, v: nat, k: nat, m: nat)
    requires IsChosen(g, r, k, v) && IsChosen(g, r, m, v)
    ensures k == m
  {
    var c: nat :| IsDistance(g, r, v, c + 1) && Traced(g, r, v, c, k);
    var d: nat :| IsDistance(g, r, v, d + 1) && Traced(g, r, v, d, m);
    DistanceUnique(g, r, v, c + 1, d + 1);
    TracedUnique(g, r, v, c, k, m);
  }

  function Below(targets: set<nat>, k: nat): set<nat> {
    set j | j in targets && j < k
  }

  lemma BelowNext(targets: set<nat>, k: nat)
    ensures k !in targets ==> Below(targets, k + 1) == Below(targets, k)
    ensures k in targets ==> |Below(targets, k + 1)| == |Below(targets, k)| + 1 <= |targets|
  {
    if k in targets {
      assert Below(targets, k + 1) == Below(targets, k) + {k};
      SubsetSize(Below(targets, k + 1), targets);
    } else {
      assert Below(targets, k + 1) == Below(targets, k);
    }
  }

  lemma NothingBelow(targets: set<nat>)
    ensures Below(targets, 0) == {}
  {
  }

  lemma AllBelow(targets: set<nat>, k: nat)
    requires forall j :: j in targets ==> j < k
    ensures Below(targets, k) == targets
  {
  }

  /** There are at most k numbers below k. */
  lemma {:induction false} AtMost(s: set<nat>, k: nat)
    requires forall x :: x in s ==> x < k
    ensures |s| <= k
  {
    if k == 0 {
      assert s == {};
    } else {
      AtMost(s - {k - 1}, k - 1);
    }
  }
}
