/** The labels that createTable of hupsim.pl gives the routers, and what visiting a router does to them. */
module Dijkstra {
  import opened LinkedQueue
  import opened HopGraph

  const INFINITY: nat := 65535

  datatype Label = Label(done: bool, distance: nat, predecessor: Option<nat>)

  type Labels = map<nat, Label>

  /** The labels after the reset; predecessors stay as an earlier run left them. */
  ghost predicate Fresh(g: Graph, s: nat, l: Labels) {
    && l.Keys == g.Keys && s in g
    && forall v :: v in l ==> !l[v].done && l[v].distance == if v == s then 0 else INFINITY
  }

  /** The labels after the queues from u to targets have been relaxed. */
  function Relaxed(l: Labels, u: nat, targets: set<nat>): Labels
    requires u in l
  {
    map v | v in l :: if v in targets && l[v].distance > l[u].distance + 1
                      then l[v].(distance := l[u].distance + 1, predecessor := Some(u))
                      else l[v]
  }

  function Visited(l: Labels, u: nat, targets: set<nat>): Labels
    requires u in l
  {
    var relaxed := Relaxed(l, u, targets);
    relaxed[u := relaxed[u].(done := true)]
  }

  /** Is u nearer than v, or as near and before it in the array? */
  predicate Precedes(l: Labels, u: nat, v: nat)
    requires u in l && v in l
  {
    l[u].distance < l[v].distance || (l[u].distance == l[v].distance && u <= v)
  }

  /** The router that the selection loop takes: the first of the nearest that are not done. */
  ghost predicate IsNext(l: Labels, u: nat) {
    u in l && !l[u].done && forall v {:trigger Precedes(l, u, v)} :: v in l && !l[v].done ==> Precedes(l, u, v)
  }

  // A label below INFINITY is the length of a walk.
  ghost predicate Sound(g: Graph, s: nat, l: Labels) {
    forall v {:trigger IsSound(g, s, l, v)} :: v in l ==> IsSound(g, s, l, v)
  }

  ghost predicate IsSound(g: Graph, s: nat, l: Labels, v: nat)
    requires v in l
  {
    l[v].distance == INFINITY || (l[v].distance < INFINITY && Linked(g, s, v, l[v].distance))
  }

  // The queues of a visited router have been relaxed.
  ghost predicate Settled(g: Graph, l: Labels) {
    forall u, v {:trigger IsSettled(g, l, u, v)} :: u in l && v in l ==> IsSettled(g, l, u, v)
  }

  ghost predicate IsSettled(g: Graph, l: Labels, u: nat, v: nat)
    requires u in l && v in l
  {
    l[u].done && Hop(g, u, v) ==> l[v].distance <= l[u].distance + 1
  }

  // Visited routers come before the others.
  ghost predicate Ordered(l: Labels) {
    forall u, v {:trigger AreOrdered(l, u, v)} :: u in l && v in l ==> AreOrdered(l, u, v)
  }

  ghost predicate AreOrdered(l: Labels, u: nat, v: nat)
    requires u in l && v in l
  {
    l[u].done && !l[v].done ==> Precedes(l, u, v)
  }

  // A predecessor behind a label below INFINITY was set in this run.
  ghost predicate Backed(g: Graph, s: nat, l: Labels) {
    forall v {:trigger IsBacked(g, l, v)} :: v in l && v != s && l[v].distance < INFINITY ==> IsBacked(g, l, v)
  }

  ghost predicate IsBacked(g: Graph, l: Labels, v: nat)
    requires v in l
  {
    && l[v].predecessor.Some?
    && var p := l[v].predecessor.value;
       p in l && l[p].done && Hop(g, p, v) && l[p].distance + 1 == l[v].distance
  }

  // Every predecessor, also one that an earlier run has left, is a hop away.
  ghost predicate Recorded(g: Graph, l: Labels) {
    forall v {:trigger IsRecorded(g, l, v)} :: v in l ==> IsRecorded(g, l, v)
  }

  ghost predicate IsRecorded(g: Graph, l: Labels, v: nat)
    requires v in l
  {
    l[v].predecessor.Some? ==> Hop(g, l[v].predecessor.value, v)
  }

  // Of the visited routers before v on a way as short as its label, the predecessor is the first.
  ghost predicate Early(g: Graph, s: nat, l: Labels) {
    forall w, v {:trigger IsEarly(g, s, l, w, v)} :: w in l && v in l ==> IsEarly(g, s, l, w, v)
  }

  ghost predicate IsEarly(g: Graph, s: nat, l: Labels, w: nat, v: nat)
    requires w in l && v in l
  {
    v != s && l[v].distance < INFINITY && l[w].done && Hop(g, w, v) && l[w].distance + 1 == l[v].distance ==>
      l[v].predecessor.Some? && l[v].predecessor.value <= w
  }

  ghost predicate Inv(g: Graph, s: nat, l: Labels) {
    && l.Keys == g.Keys && s in g && l[s].distance == 0
    && Sound(g, s, l) && Settled(g, l) && Ordered(l) && Backed(g, s, l) && Recorded(g, l)
    && Early(g, s, l)
  }

  function RoutersBelow(g: Graph, k: nat): nat {
    if k == 0 then 0 else RoutersBelow(g, k - 1) + if k - 1 in g then 1 else 0
  }

  function DoneBelow(l: Labels, k: nat): nat {
    if k == 0 then 0 else DoneBelow(l, k - 1) + if k - 1 in l && l[k - 1].done then 1 else 0
  }

  lemma {:induction false} NoneDone(l: Labels, k: nat)
    requires forall v :: v in l ==> !l[v].done
    ensures DoneBelow(l, k) == 0
  {
    if k > 0 {
      NoneDone(l, k - 1);
    }
  }

  lemma {:induction false} OneMoreDone(l: Labels, u: nat, targets: set<nat>, k: nat)
    requires u in l && !l[u].done
    ensures DoneBelow(Visited(l, u, targets), k) == DoneBelow(l, k) + if u < k then 1 else 0
  {
    if k > 0 {
      OneMoreDone(l, u, targets, k - 1);
    }
  }

  lemma {:induction false} DoneAmongRouters(g: Graph, l: Labels, k: nat)
    requires l.Keys == g.Keys
    ensures DoneBelow(l, k) <= RoutersBelow(g, k)
    ensures DoneBelow(l, k) == RoutersBelow(g, k) <==> forall v :: v in l && v < k ==> l[v].done
  {
    if k > 0 {
      DoneAmongRouters(g, l, k - 1);
    }
  }

  lemma AllDone(g: Graph, l: Labels, k: nat)
    requires l.Keys == g.Keys && DoneBelow(l, k) == RoutersBelow(g, k) && forall v :: v in g ==> v < k
    ensures forall v :: v in l ==> l[v].done
  {
    DoneAmongRouters(g, l, k);
  }

  lemma {:induction false} RoutersGrow(g: Graph, j: nat, k: nat)
    requires j < k && j in g
    ensures RoutersBelow(g, j) < RoutersBelow(g, k)
  {
    if j + 1 < k {
      RoutersGrow(g, j, k - 1);
    }
  }

  lemma FreshInv(g: Graph, s: nat, l: Labels)
    requires Fresh(g, s, l) && Recorded(g, l)
    ensures Inv(g, s, l)
  {
    assert Linked(g, s, s, 0);
  }

  lemma DoneNearer(l: Labels, u: nat, v: nat)
    requires IsNext(l, u) && Ordered(l) && v in l && l[v].done
    ensures Precedes(l, v, u)
  {
    assert AreOrdered(l, v, u);
  }

  /** A visit changes no label of a router that was visited before. */
  lemma DoneStays(l: Labels, u: nat, targets: set<nat>)
    requires IsNext(l, u) && Ordered(l)
    ensures Visited(l, u, targets)[u] == l[u].(done := true)
    ensures forall v :: v in l && l[v].done ==> Visited(l, u, targets)[v] == l[v]
  {
    forall v | v in l && l[v].done ensures Precedes(l, v, u) {
      DoneNearer(l, u, v);
    }
  }

  lemma VisitKeepsSound(g: Graph, s: nat, l: Labels, u: nat)
    requires Inv(g, s, l) && IsNext(l, u)
    ensures Sound(g, s, Visited(l, u, g[u]))
  {
    var after := Visited(l, u, g[u]);
    forall v | v in after ensures IsSound(g, s, after, v) {
      assert IsSound(g, s, l, v) && IsSound(g, s, l, u);
      if after[v].distance != l[v].distance {
        Append(g, s, u, v, l[u].distance);
      }
    }
  }

  lemma VisitKeepsSettled(g: Graph, s: nat, l: Labels, u: nat)
    requires Inv(g, s, l) && IsNext(l, u)
    ensures Settled(g, Visited(l, u, g[u]))
  {
    DoneStays(l, u, g[u]);
    var after := Visited(l, u, g[u]);
    forall w, v | w in after && v in after ensures IsSettled(g, after, w, v) {
      assert IsSettled(g, l, w, v);
    }
  }

  lemma VisitKeepsOrdered(g: Graph, s: nat, l: Labels, u: nat)
    requires Inv(g, s, l) && IsNext(l, u)
    ensures Ordered(Visited(l, u, g[u]))
  {
    DoneStays(l, u, g[u]);
    var after := Visited(l, u, g[u]);
    forall w, v | w in after && v in after ensures AreOrdered(after, w, v) {
      assert AreOrdered(l, w, v);
      if l[w].done {
        DoneNearer(l, u, w);
      }
      assert !l[v].done ==> Precedes(l, u, v);
    }
  }

  lemma VisitKeepsBacked(g: Graph, s: nat, l: Labels, u: nat)
    requires Inv(g, s, l) && IsNext(l, u)
    ensures Backed(g, s, Visited(l, u, g[u]))
  {
    DoneStays(l, u, g[u]);
    var after := Visited(l, u, g[u]);
    forall v | v in after && v != s && after[v].distance < INFINITY ensures IsBacked(g, after, v) {
      if after[v].distance == l[v].distance {
        assert IsBacked(g, l, v);
      }
    }
  }

  lemma VisitKeepsRecorded(g: Graph, s: nat, l: Labels, u: nat)
    requires Inv(g, s, l) && IsNext(l, u)
    ensures Recorded(g, Visited(l, u, g[u]))
  {
    var after := Visited(l, u, g[u]);
    forall v | v in after ensures IsRecorded(g, after, v) {
      assert IsRecorded(g, l, v);
    }
  }

  lemma LoweredIsEarly(g: Graph, s: nat, l: Labels, u: nat, w: nat, v: nat)
    requires Inv(g, s, l) && IsNext(l, u) && w in l && v in g[u] && v in l && l[v].distance > l[u].distance + 1
    ensures var after := Visited(l, u, g[u]);
            w in after && v in after && IsEarly(g, s, after, w, v)
  {
    DoneStays(l, u, g[u]);
    assert IsSettled(g, l, w, v);
  }

  lemma KeptIsEarly(g: Graph, s: nat, l: Labels, u: nat, w: nat, v: nat)
    requires Inv(g, s, l) && IsNext(l, u) && w in l && v in l && !(v in g[u] && l[v].distance > l[u].distance + 1)
    ensures var after := Visited(l, u, g[u]);
            w in after && v in after && IsEarly(g, s, after, w, v)
  {
    DoneStays(l, u, g[u]);
    assert IsEarly(g, s, l, w, v);
    if w == u && v != s && l[v].distance < INFINITY && l[u].distance + 1 == l[v].distance {
      assert IsBacked(g, l, v);
      DoneNearer(l, u, l[v].predecessor.value);
    }
  }

  /** A later visit of a router as near does not change a predecessor. */
  lemma VisitKeepsEarly(g: Graph, s: nat, l: Labels, u: nat)
    requires Inv(g, s, l) && IsNext(l, u)
    ensures Early(g, s, Visited(l, u, g[u]))
  {
    var after := Visited(l, u, g[u]);
    forall w, v | w in after && v in after ensures IsEarly(g, s, after, w, v) {
      if v in g[u] && l[v].distance > l[u].distance + 1 {
        LoweredIsEarly(g, s, l, u, w, v);
      } else {
        KeptIsEarly(g, s, l, u, w, v);
      }
    }
  }

  lemma VisitKeepsInv(g: Graph, s: nat, l: Labels, u: nat)
    requires Inv(g, s, l) && IsNext(l, u)
    ensures Inv(g, s, Visited(l, u, g[u]))
  {
    VisitKeepsSound(g, s, l, u);
    VisitKeepsSettled(g, s, l, u);
    VisitKeepsOrdered(g, s, l, u);
    VisitKeepsBacked(g, s, l, u);
    VisitKeepsRecorded(g, s, l, u);
    VisitKeepsEarly(g, s, l, u);
  }

  lemma {:induction false} NoFarther(g: Graph, s: nat, l: Labels, v: nat, n: nat)
    requires Inv(g, s, l) && (forall u :: u in l ==> l[u].done) && Linked(g, s, v, n)
    ensures v in l && l[v].distance <= n
    decreases n
  {
    if n > 0 {
      var u :| Linked(g, s, u, n - 1) && Hop(g, u, v);
      NoFarther(g, s, l, u, n - 1);
      assert IsSettled(g, l, u, v);
    }
  }

  /** Once every router has been visited, a router's label is its distance from s, or 65535 if s does not reach it, for
      up to 65535 routers. */
  lemma Exact(g: Graph, s: nat, l: Labels, v: nat)
    requires |g| <= 65535 && Inv(g, s, l) && (forall u :: u in l ==> l[u].done) && v in g
    ensures if Reaches(g, s, v) then IsDistance(g, s, v, l[v].distance) && l[v].distance < 65535
            else l[v].distance == 65535
  {
    assert IsSound(g, s, l, v);
    if n: nat :| Linked(g, s, v, n) {
      var d := HopGraph.Shortest(g, s, v, n);
      DistanceBound(g, s, v, d);
      NoFarther(g, s, l, v, d);
    }
  }

  /** As long as fewer routers have been visited than there are, the selection loop finds one. */
  lemma SomeLeft(g: Graph, s: nat, l: Labels, k: nat)
    requires Inv(g, s, l) && DoneBelow(l, k) < RoutersBelow(g, k)
    ensures forall v :: v in l ==> l[v].distance <= INFINITY
    ensures exists v :: v in l && !l[v].done
  {
    DoneAmongRouters(g, l, k);
    assert forall v :: v in l ==> IsSound(g, s, l, v);
  }

  /** The labels of a finished run from s: the routers that s reaches have their distance and, of all routers one hop
      nearer to s, the first as their predecessor, the others 65535 and perhaps a predecessor of an earlier run. */
  ghost predicate IsTree(g: Graph, s: nat, l: Labels) {
    && l.Keys == g.Keys && s in g && Recorded(g, l)
    && forall v {:trigger IsPlaced(g, s, l, v)} :: v in l ==> IsPlaced(g, s, l, v)
  }

  ghost predicate IsPlaced(g: Graph, s: nat, l: Labels, v: nat)
    requires v in l
  {
    if Reaches(g, s, v) then
      && IsDistance(g, s, v, l[v].distance) && l[v].distance < 65535
      && (v != s ==> IsBacked(g, l, v) && IsFirstBefore(g, s, l[v].predecessor.value, v))
    else l[v].distance == 65535
  }

  lemma BeforeIsLabelled(g: Graph, s: nat, l: Labels, w: nat, v: nat)
    requires |g| <= 65535 && Inv(g, s, l) && (forall u :: u in l ==> l[u].done) && v in l && w in l && Hop(g, w, v)
    requires Reaches(g, s, v)
    ensures IsBefore(g, s, w, v) <==> l[w].distance + 1 == l[v].distance
  {
    Exact(g, s, l, v);
    Exact(g, s, l, w);
    if d: nat :| IsDistance(g, s, w, d) && IsDistance(g, s, v, d + 1) {
      DistanceUnique(g, s, w, d, l[w].distance);
      DistanceUnique(g, s, v, d + 1, l[v].distance);
    }
  }

  lemma PredecessorIsFirst(g: Graph, s: nat, l: Labels, v: nat)
    requires |g| <= 65535 && Inv(g, s, l) && (forall u :: u in l ==> l[u].done) && v in l && v != s && Reaches(g, s, v)
    ensures IsBacked(g, l, v) && IsFirstBefore(g, s, l[v].predecessor.value, v)
  {
    Exact(g, s, l, v);
    assert IsBacked(g, l, v);
    BeforeIsLabelled(g, s, l, l[v].predecessor.value, v);
    forall w | IsBefore(g, s, w, v) ensures l[v].predecessor.value <= w {
      BeforeIsLabelled(g, s, l, w, v);
      assert IsEarly(g, s, l, w, v);
    }
  }

  lemma TreeComplete(g: Graph, s: nat, l: Labels)
    requires |g| <= 65535 && Inv(g, s, l) && forall v :: v in l ==> l[v].done
    ensures IsTree(g, s, l)
  {
    forall v | v in l ensures IsPlaced(g, s, l, v) {
      Exact(g, s, l, v);
      if v != s && Reaches(g, s, v) {
        PredecessorIsFirst(g, s, l, v);
      }
    }
  }

  // ---------- The walk along the predecessors ----------

  /** The router after n steps from v along the recorded predecessors, if they are defined. */
  function Walked(l: Labels, v: nat, n: nat): Option<nat> {
    if n == 0 then Some(v)
    else
      match Walked(l, v, n - 1)
      case None => None
      case Some(k) => if k in l then l[k].predecessor else None
  }

  /** The walk from v comes to a router whose predecessor is s. */
  ghost predicate WalkEnds(l: Labels, s: nat, v: nat) {
    exists n: nat :: n > 0 && Walked(l, v, n) == Some(s)
  }

  lemma {:induction false} WalkIsLinked(g: Graph, l: Labels, v: nat, n: nat)
    requires l.Keys == g.Keys && Recorded(g, l) && v in l && Walked(l, v, n).Some?
    ensures Linked(g, Walked(l, v, n).value, v, n) && Walked(l, v, n).value in l
  {
    if n > 0 {
      var k := Walked(l, v, n - 1).value;
      WalkIsLinked(g, l, v, n - 1);
      assert IsRecorded(g, l, k);
      Prepend(g, l[k].predecessor.value, k, v, n - 1);
    }
  }

  /** Each step from a router that s reaches leads one hop nearer to s. */
  lemma {:induction false} WalkIsNearer(g: Graph, s: nat, l: Labels, v: nat, n: nat)
    requires IsTree(g, s, l) && v in l && Reaches(g, s, v) && n <= l[v].distance
    ensures Walked(l, v, n).Some? && Walked(l, v, n).value in l
    ensures var k := Walked(l, v, n).value; IsDistance(g, s, k, l[v].distance - n) && l[k].distance == l[v].distance - n
  {
    assert IsPlaced(g, s, l, v);
    if n > 0 {
      WalkIsNearer(g, s, l, v, n - 1);
      var k := Walked(l, v, n - 1).value;
      assert IsPlaced(g, s, l, k) && k != s by {
        assert Linked(g, s, s, 0);
      }
      var p := l[k].predecessor.value;
      PredecessorReached(g, s, l, k);
      assert IsPlaced(g, s, l, p);
    }
  }

  lemma {:induction false} WalkIsTraced(g: Graph, s: nat, l: Labels, v: nat, n: nat)
    requires IsTree(g, s, l) && v in l && Reaches(g, s, v) && n <= l[v].distance
    ensures Walked(l, v, n).Some? && Traced(g, s, v, n, Walked(l, v, n).value)
  {
    if n > 0 {
      WalkIsTraced(g, s, l, v, n - 1);
      WalkIsNearer(g, s, l, v, n - 1);
      var k := Walked(l, v, n - 1).value;
      assert k != s by {
        assert Linked(g, s, s, 0);
      }
      assert IsPlaced(g, s, l, k);
    }
  }

  lemma PredecessorReached(g: Graph, s: nat, l: Labels, k: nat)
    requires IsTree(g, s, l) && k in l && k != s && Reaches(g, s, k)
    ensures IsBacked(g, l, k) && Reaches(g, s, l[k].predecessor.value)
  {
    assert IsPlaced(g, s, l, k);
    assert IsPlaced(g, s, l, l[k].predecessor.value);
  }

  /** The walk from v ends if and only if s reaches v. */
  lemma WalkEndsIfReached(g: Graph, s: nat, l: Labels, v: nat)
    requires IsTree(g, s, l) && v in l && v != s
    ensures WalkEnds(l, s, v) <==> Reaches(g, s, v)
  {
    if n: nat :| n > 0 && Walked(l, v, n) == Some(s) {
      WalkIsLinked(g, l, v, n);
    }
    if Reaches(g, s, v) {
      assert IsPlaced(g, s, l, v);
      var d := l[v].distance;
      WalkIsNearer(g, s, l, v, d);
      assert Linked(g, s, Walked(l, v, d).value, 0);
      assert Walked(l, v, d) == Some(s);
    }
  }

  /** The first n steps from v do not lead to s. */
  ghost predicate NotYet(l: Labels, s: nat, v: nat, n: nat) {
    forall m: nat {:trigger Walked(l, v, m)} :: 0 < m <= n ==> Walked(l, v, m) != Some(s)
  }

  /** When the walk ends, the router before s is the first hop on the way to v that takes the smallest ids. */
  lemma FirstMeeting(g: Graph, s: nat, l: Labels, v: nat, n: nat)
    requires IsTree(g, s, l) && v in l && v != s
    requires NotYet(l, s, v, n) && Walked(l, v, n + 1) == Some(s)
    ensures Reaches(g, s, v) && IsEntry(g, s, Walked(l, v, n).value, v)
  {
    WalkEndsIfReached(g, s, l, v);
    assert IsPlaced(g, s, l, v);
    var d := l[v].distance;
    WalkIsNearer(g, s, l, v, d);
    assert Linked(g, s, Walked(l, v, d).value, 0);
    assert Linked(g, s, s, 0);
    if n + 1 < d {
      WalkIsNearer(g, s, l, v, n + 1);
    }
    WalkIsLinked(g, l, v, n);
    assert IsRecorded(g, l, Walked(l, v, n).value);
    FirstHopIsCloser(g, s, Walked(l, v, n).value, v, n);
    WalkIsTraced(g, s, l, v, n);
  }

  /** A walk that has not ended when its predecessor is undefined, or after as many steps as there are routers,
      never ends. */
  lemma NoMeeting(g: Graph, s: nat, l: Labels, v: nat, n: nat)
    requires IsTree(g, s, l) && v in l && v != s && NotYet(l, s, v, n)
    requires Walked(l, v, n + 1) == None || n >= |g|
    ensures !Reaches(g, s, v) && !WalkEnds(l, s, v)
  {
    WalkEndsIfReached(g, s, l, v);
    if Reaches(g, s, v) {
      assert IsPlaced(g, s, l, v);
      var d := l[v].distance;
      DistanceBound(g, s, v, d);
      WalkIsNearer(g, s, l, v, d);
      assert Linked(g, s, Walked(l, v, d).value, 0);
      assert Linked(g, s, s, 0);
      if n < d {
        WalkIsNearer(g, s, l, v, n + 1);
      }
    }
  }
}
