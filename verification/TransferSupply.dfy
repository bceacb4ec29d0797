/** Exactly when the chunk can be delivered without the network repeating a packet: enough acknowledgements have to be
    on their way, or be made by the DATA packets that are or can still be sent. */
module TransferSupply {
  import opened Chunking
  import opened Transfer
  import opened TransferLossy
  import opened TransferProgress
  import Receiving
  import Window

  // ---------- DATA packets on their way ----------

  /** How many there are of the first k packets of the chunk. */
  function DataBelow(c: Config, net: multiset<Packet>, k: nat): nat
    requires k <= PKT_NUM
  {
    if k == 0 then 0 else DataBelow(c, net, k - 1) + net[PacketNumber(c, k - 1)]
  }

  function DataCount(c: Config, net: multiset<Packet>): nat { DataBelow(c, net, PKT_NUM) }

  lemma {:induction false} DataPlus(c: Config, net: multiset<Packet>, i: nat, k: nat)
    requires i < PKT_NUM && k <= PKT_NUM
    ensures DataBelow(c, net + multiset{PacketNumber(c, i)}, k) == DataBelow(c, net, k) + if i < k then 1 else 0
  {
    if k > 0 {
      DataPlus(c, net, i, k - 1);
    }
  }

  lemma DataMinus(c: Config, net: multiset<Packet>, i: nat, k: nat)
    requires i < PKT_NUM && k <= PKT_NUM && PacketNumber(c, i) in net
    ensures DataBelow(c, net - multiset{PacketNumber(c, i)}, k) == DataBelow(c, net, k) - if i < k then 1 else 0
  {
    DataPlus(c, net - multiset{PacketNumber(c, i)}, i, k);
    assert net - multiset{PacketNumber(c, i)} + multiset{PacketNumber(c, i)} == net;
  }

  lemma {:induction false} AcksAside(c: Config, net: multiset<Packet>, other: multiset<Packet>, k: nat)
    requires k <= PKT_NUM && forall p: Packet :: p.Data? ==> net[p] == other[p]
    ensures DataBelow(c, net, k) == DataBelow(c, other, k)
  {
    if k > 0 {
      AcksAside(c, net, other, k - 1);
    }
  }

  // ---------- The window that new acknowledgements open ----------

  /** cwnd after m acknowledgements accepted as new. */
  function Grown(w: Window.Window, m: nat): Window.Cwnd {
    if m == 0 then w.cwnd
    else
      var before := Grown(w, m - 1);
      if before <= w.ssthresh as real then before + 1.0 else before + Window.Reciprocal(before)
  }

  lemma GrownOnce(w: Window.Window, m: nat)
    ensures Grown(w, m) <= Grown(w, m + 1) <= Grown(w, m) + 1.0
  {
  }

  lemma {:induction false} GrownMonotone(w: Window.Window, m: nat, n: nat)
    requires m <= n
    ensures Grown(w, m) <= Grown(w, n)
  {
    if m < n {
      GrownMonotone(w, m, n - 1);
      GrownOnce(w, n - 1);
    }
  }

  lemma {:induction false} GrownAccepted(w: Window.Window, v: Window.Window, m: nat)
    requires v.ssthresh == w.ssthresh && v.cwnd == Grown(w, 1)
    ensures Grown(v, m) == Grown(w, m + 1)
  {
    if m > 0 {
      GrownAccepted(w, v, m - 1);
    }
  }

  /** An acknowledgement of the first v packets is on its way, or still to be made. */
  predicate Comes(s: State, v: nat) { Ack(v) in s.net || v > s.inbox.lastRcvd }

  /** How many new acknowledgements below a can be accepted before a. */
  function NewAcks(s: State, a: nat): nat {
    if a == 0 || a <= s.window.lastAcked + 1 then 0 else NewAcks(s, a - 1) + if Comes(s, a - 1) then 1 else 0
  }

  /** A packet of no other use makes the receiver acknowledge what it has, where no such acknowledgement is on its
      way. */
  function Spare(c: Config, s: State, a: nat): nat
    requires a < PKT_NUM
  {
    var r := s.inbox.lastRcvd;
    if s.window.lastAcked < r < a && Ack(r) !in s.net && PacketNumber(c, a) in s.net then 1 else 0
  }

  function Before(c: Config, s: State, a: nat): nat
    requires a < PKT_NUM
  {
    NewAcks(s, a) + Spare(c, s, a)
  }

  /** last_available once the acknowledgement a has been accepted, after all those new ones. */
  function Opening(c: Config, s: State, a: nat): int
    requires a < PKT_NUM
  {
    if a <= s.window.lastAcked then s.window.lastAvailable
    else (a as real + Grown(s.window, Before(c, s, a))).Floor
  }

  /** How many packets can be sent then. */
  function Room(c: Config, s: State, a: nat): nat
    requires a < PKT_NUM
  {
    var end := if Opening(c, s, a) < PKT_NUM then Opening(c, s, a) else PKT_NUM;
    if end > s.window.lastSent then end - s.window.lastSent else 0
  }

  // ---------- The supply of one acknowledgement ----------

  /** The packets that the receiver still needs for the first a are on their way. */
  predicate Fillable(c: Config, s: State, a: int)
    requires a <= PKT_NUM
  {
    forall v: nat {:trigger PacketNumber(c, v)} :: s.inbox.lastRcvd <= v < a ==> PacketNumber(c, v) in s.net
  }

  /** The acknowledgements of a on their way, and those that the DATA packets on their way can make. */
  function Base(c: Config, s: State, a: nat): int
    requires a < PKT_NUM
  {
    s.net[Ack(a)] + (if a > s.inbox.lastRcvd then 1 else 0)
    + DataCount(c, s.net) - (a - s.inbox.lastRcvd) - s.net[PacketNumber(c, a)]
  }

  /** How many acknowledgements of a make the sender retransmit. */
  function Needed(s: State, a: nat): int {
    if a == s.window.lastAcked then Window.RepetitionsNeeded(s.window) else 3
  }

  /** Something can make or bring the first acknowledgement of a. */
  predicate CanStart(c: Config, s: State, a: nat)
    requires a < PKT_NUM
  {
    || a == s.window.lastAcked || Base(c, s, a) > 0 || MaySend(s.window)
    || exists v: nat {:trigger Ack(v)} :: s.window.lastAcked < v < a && Ack(v) in s.net && Room(c, s, v) > 0
  }

  /** So many acknowledgements of a can reach the sender that it retransmits. */
  predicate Enough(c: Config, s: State, a: nat) {
    && s.window.lastAcked <= a < PKT_NUM
    && if a < s.inbox.lastRcvd then s.net[Ack(a)] >= Needed(s, a)
       else Fillable(c, s, a) && CanStart(c, s, a) && Base(c, s, a) + Room(c, s, a) >= Needed(s, a)
  }

  /** The sender is ahead of the receiver, no timer is left, a packet before last_sent is lost, and no acknowledgement
      can come often enough. */
  ghost predicate Stuck(c: Config, s: State) {
    && Inv(c, s) && s.started && s.inbox.inPool && !LiveTimer(s) && s.window.lastSent > s.inbox.lastRcvd
    && !Fillable(c, s, s.window.lastSent) && forall a: nat {:trigger Enough(c, s, a)} :: !Enough(c, s, a)
  }

  // ---------- No step without repetition leads out of a stuck state ----------

  /** Fewer new acknowledgements, the more so if v0 is none any more. */
  lemma {:induction false} NewAcksLess(s: State, t: State, a: nat, v0: nat)
    requires t.window.lastAcked >= s.window.lastAcked >= 0
    requires forall v: nat {:trigger Comes(t, v)} :: t.window.lastAcked < v < a && Comes(t, v) ==> Comes(s, v)
    ensures NewAcks(t, a) <= NewAcks(s, a)
    ensures s.window.lastAcked < v0 < a && Comes(s, v0) && !(t.window.lastAcked < v0 && Comes(t, v0)) ==>
              NewAcks(t, a) + 1 <= NewAcks(s, a)
  {
    if a > s.window.lastAcked + 1 {
      NewAcksLess(s, t, a - 1, v0);
    }
  }

  lemma {:induction false} GrownSame(w: Window.Window, v: Window.Window, m: nat)
    requires v.cwnd == w.cwnd && v.ssthresh == w.ssthresh
    ensures Grown(v, m) == Grown(w, m)
  {
    if m > 0 {
      GrownSame(w, v, m - 1);
    }
  }

  lemma OpeningAtLeast(c: Config, s: State, a: nat)
    requires Window.Sound(s.window) && a < PKT_NUM
    ensures Opening(c, s, a) >= s.window.lastAvailable
  {
    if a > s.window.lastAcked {
      GrownMonotone(s.window, 0, Before(c, s, a));
      Window.FloorMonotone(s.window.lastAvailable, a as real + Grown(s.window, Before(c, s, a)));
    }
  }

  lemma FloorLess(x: real, y: real)
    requires x <= y
    ensures x.Floor <= y.Floor && (y + 1.0).Floor == y.Floor + 1
  {
  }

  /** The places that sending and acknowledging start from are the same. */
  predicate SameWindow(w: Window.Window, v: Window.Window) {
    && v.lastAcked == w.lastAcked && v.lastAvailable == w.lastAvailable && v.cwnd == w.cwnd && v.ssthresh == w.ssthresh
    && v.lastSent == w.lastSent && v.pktNum == w.pktNum
  }

  lemma FloorsLess(a: int, y: real, z: real, m: nat)
    requires m <= 1 && z <= y + m as real
    ensures (a as real + z).Floor <= (a as real + y).Floor + m
  {
    FloorLess(a as real + z, a as real + y + m as real);
    FloorLess(a as real + y, a as real + y);
  }

  lemma GrownLess(w: Window.Window, v: Window.Window, n: nat, k: nat, m: nat)
    requires v.cwnd == w.cwnd && v.ssthresh == w.ssthresh && m <= 1 && k <= n + m
    ensures Grown(v, k) <= Grown(w, n) + m as real
  {
    GrownSame(w, v, k);
    GrownMonotone(w, k, n + m);
    GrownOnce(w, n);
  }

  lemma OpeningLess(c: Config, s: State, t: State, a: nat, m: nat)
    requires SameWindow(s.window, t.window) && a < PKT_NUM && m <= 1 && Before(c, t, a) <= Before(c, s, a) + m
    ensures Opening(c, t, a) <= Opening(c, s, a) + m
  {
    if a > s.window.lastAcked {
      GrownLess(s.window, t.window, Before(c, s, a), Before(c, t, a), m);
      FloorsLess(a, Grown(s.window, Before(c, s, a)), Grown(t.window, Before(c, t, a)), m);
    }
  }

  /** With the same window, m more new acknowledgements than before open at most as many more places. */
  lemma RoomLess(c: Config, s: State, t: State, a: nat, m: nat)
    requires SameWindow(s.window, t.window) && a < PKT_NUM && m <= 1 && Before(c, t, a) <= Before(c, s, a) + m
    ensures Room(c, t, a) <= Room(c, s, a) + m
  {
    OpeningLess(c, s, t, a, m);
  }

  /** Nothing more is on its way in t than in s. */
  ghost predicate NoMore(c: Config, s: State, t: State) {
    && t.inbox.lastRcvd == s.inbox.lastRcvd && SameWindow(s.window, t.window)
    && (forall v: nat {:trigger Ack(v)} :: t.net[Ack(v)] <= s.net[Ack(v)])
    && forall v: nat {:trigger PacketNumber(c, v)} :: v < PKT_NUM && PacketNumber(c, v) in t.net ==>
         PacketNumber(c, v) in s.net
  }

  lemma BeforeLess(c: Config, s: State, t: State, a: nat)
    requires NoMore(c, s, t) && a < PKT_NUM && s.window.lastAcked >= 0
    ensures Before(c, t, a) <= Before(c, s, a)
  {
    NewAcksLess(s, t, a, s.inbox.lastRcvd);
  }

  lemma LessSupply(c: Config, s: State, t: State, a: nat)
    requires NoMore(c, s, t) && a < PKT_NUM && s.window.lastAcked >= 0
    requires DataCount(c, t.net) - t.net[PacketNumber(c, a)] <= DataCount(c, s.net) - s.net[PacketNumber(c, a)]
    requires Needed(s, a) - Needed(t, a) <= s.net[Ack(a)] - t.net[Ack(a)]
    requires Enough(c, t, a)
    ensures Enough(c, s, a)
  {
    BeforeLess(c, s, t, a);
    RoomLess(c, s, t, a, 0);
    forall v: nat | s.window.lastAcked < v < a && Ack(v) in t.net && Room(c, t, v) > 0
      ensures Ack(v) in s.net && Room(c, s, v) > 0
    {
      BeforeLess(c, s, t, v);
      RoomLess(c, s, t, v, 0);
    }
  }

  lemma {:induction false} NewAcksSame(s: State, t: State, a: nat)
    requires t.window.lastAcked == s.window.lastAcked
    requires forall v: nat {:trigger Comes(t, v)} {:trigger Comes(s, v)} :: Comes(t, v) <==> Comes(s, v)
    ensures NewAcks(t, a) == NewAcks(s, a)
  {
    if a > 0 && a > s.window.lastAcked + 1 {
      NewAcksSame(s, t, a - 1);
    }
  }

  lemma SentBase(c: Config, s: State, a: nat)
    requires Inv(c, s) && s.started && MaySend(s.window) && a < s.window.lastSent
    ensures Base(c, Apply(c, s, SenderLoop), a) == Base(c, s, a) + 1
  {
    DataPlus(c, s.net, s.window.lastSent, PKT_NUM);
  }

  lemma SentRoom(c: Config, s: State, t: State, a: nat)
    requires Window.Sound(s.window) && s.window.pktNum == PKT_NUM && MaySend(s.window) && a < PKT_NUM
    requires t.window == s.window.(lastSent := s.window.lastSent + 1) && t.inbox == s.inbox
    requires forall v: nat {:trigger Ack(v)} :: Ack(v) in t.net <==> Ack(v) in s.net
    requires PacketNumber(c, a) in t.net <==> PacketNumber(c, a) in s.net
    ensures Room(c, s, a) == Room(c, t, a) + 1
  {
    NewAcksSame(s, t, a);
    GrownSame(s.window, t.window, Before(c, s, a));
    OpeningAtLeast(c, s, a);
    assert Opening(c, t, a) == Opening(c, s, a);
  }

  /** Sending a packet trades one place of the window for one packet on its way. */
  lemma SendBack(c: Config, s: State, a: nat)
    requires Inv(c, s) && s.started && MaySend(s.window) && !Window.Arms(s.window)
    requires s.window.lastSent > s.inbox.lastRcvd && !Fillable(c, s, s.window.lastSent)
    requires Enough(c, Apply(c, s, SenderLoop), a)
    ensures Enough(c, s, a)
  {
    var t := Apply(c, s, SenderLoop);
    if a >= s.inbox.lastRcvd {
      var v: nat :| s.inbox.lastRcvd <= v < s.window.lastSent && PacketNumber(c, v) !in s.net;
      assert PacketNumber(c, v) !in t.net;
      assert a <= v;
      SentBase(c, s, a);
      SentRoom(c, s, t, a);
    }
  }

  /** A packet less on its way. */
  lemma LostBack(c: Config, s: State, t: State, p: Packet, a: nat)
    requires Inv(c, s) && p in s.net && t.net == s.net - multiset{p} && a < PKT_NUM
    requires t.inbox == s.inbox && SameWindow(s.window, t.window)
    requires Needed(s, a) - Needed(t, a) <= if p == Ack(a) then 1 else 0
    requires Enough(c, t, a)
    ensures Enough(c, s, a)
  {
    if p.Data? {
      var i := p.seqNum - 1;
      assert InFlight(c, p, s.inbox.lastRcvd) && p == PacketNumber(c, i);
      DataMinus(c, s.net, i, PKT_NUM);
    } else {
      AcksAside(c, t.net, s.net, PKT_NUM);
    }
    LessSupply(c, s, t, a);
  }

  lemma AcceptedGrown(s: State, t: State, n: nat, m: nat)
    requires t.window == Window.Accepted(s.window, n).(timerRunning := false)
    ensures Grown(t.window, m) == Grown(s.window, m + 1)
  {
    assert Grown(s.window, 0) == s.window.cwnd;
    GrownAccepted(s.window, t.window, m);
  }

  /** What a new acknowledgement opens was counted before. */
  lemma AcceptedRoom(c: Config, s: State, t: State, n: nat, a: nat)
    requires Ack(n) in s.net && 0 <= s.window.lastAcked < n <= a < PKT_NUM
    requires t.window == Window.Accepted(s.window, n).(timerRunning := false) && t.inbox == s.inbox
    requires t.net == s.net - multiset{Ack(n)}
    ensures Room(c, t, a) <= Room(c, s, a)
  {
    assert forall v: nat :: n < v ==> t.net[Ack(v)] == s.net[Ack(v)];
    NewAcksLess(s, t, a, n);
    if a == n {
      GrownMonotone(s.window, 0, Before(c, s, a));
      FloorLess(a as real + s.window.cwnd, a as real + Grown(s.window, Before(c, s, a)));
    } else {
      assert Before(c, t, a) + 1 <= Before(c, s, a);
      AcceptedGrown(s, t, n, Before(c, t, a));
      GrownMonotone(s.window, Before(c, t, a) + 1, Before(c, s, a));
      FloorLess(a as real + Grown(t.window, Before(c, t, a)), a as real + Grown(s.window, Before(c, s, a)));
    }
  }

  lemma AcceptedBase(c: Config, s: State, t: State, n: nat, a: nat)
    requires Ack(n) in s.net && t.inbox == s.inbox && t.net == s.net - multiset{Ack(n)} && a < PKT_NUM
    ensures Base(c, t, a) == Base(c, s, a) - if a == n then 1 else 0
  {
    AcksAside(c, t.net, s.net, PKT_NUM);
  }

  lemma {:induction false} DataAtLeast(c: Config, net: multiset<Packet>, i: nat, k: nat)
    requires i < k <= PKT_NUM
    ensures DataBelow(c, net, k) >= net[PacketNumber(c, i)]
  {
    if i + 1 < k {
      DataAtLeast(c, net, i, k - 1);
    }
  }

  /** A new acknowledgement. */
  lemma AcceptBack(c: Config, s: State, t: State, n: nat, a: nat)
    requires Inv(c, s) && Ack(n) in s.net && s.window.lastAcked < n
    requires t.window == Window.Accepted(s.window, n).(timerRunning := false) && t.inbox == s.inbox
    requires t.net == s.net - multiset{Ack(n)}
    requires Enough(c, t, a)
    ensures Enough(c, s, a)
  {
    assert InFlight(c, Ack(n), s.inbox.lastRcvd);
    if a >= s.inbox.lastRcvd {
      AcceptedRoom(c, s, t, n, a);
      AcceptedBase(c, s, t, n, a);
      DataAtLeast(c, s.net, a, PKT_NUM);
      AcceptedRoom(c, s, t, n, n);
      forall v: nat | n < v < a && Ack(v) in t.net && Room(c, t, v) > 0 ensures Ack(v) in s.net && Room(c, s, v) > 0 {
        AcceptedRoom(c, s, t, n, v);
      }
      AcceptStarts(c, s, t, n, a);
    }
  }

  lemma AcceptStarts(c: Config, s: State, t: State, n: nat, a: nat)
    requires Inv(c, s) && Ack(n) in s.net && s.window.lastAcked < n <= a < PKT_NUM
    requires t.window == Window.Accepted(s.window, n).(timerRunning := false)
    requires Room(c, t, n) <= Room(c, s, n) && Base(c, t, a) == Base(c, s, a) - (if a == n then 1 else 0)
    requires a == n ==> Base(c, t, a) >= 0
    requires forall v: nat {:trigger Ack(v)} :: n < v < a && Ack(v) in t.net && Room(c, t, v) > 0 ==>
               Ack(v) in s.net && Room(c, s, v) > 0
    requires CanStart(c, t, a)
    ensures CanStart(c, s, a)
  {
    if MaySend(t.window) && a > n {
      assert Room(c, t, n) > 0;
    }
  }

  /** The packets that fill the gap up to a, and those behind it. */
  lemma {:induction false} FillableCount(c: Config, s: State, a: nat, k: nat)
    requires a < PKT_NUM && k <= PKT_NUM && s.inbox.lastRcvd <= a && Fillable(c, s, a)
    ensures DataBelow(c, s.net, k) >= (if k > a then a - s.inbox.lastRcvd + s.net[PacketNumber(c, a)]
                                       else if k > s.inbox.lastRcvd then k - s.inbox.lastRcvd else 0)
  {
    if k > 0 {
      FillableCount(c, s, a, k - 1);
    }
  }

  lemma BaseAtLeast(c: Config, s: State, a: nat)
    requires s.inbox.lastRcvd <= a < PKT_NUM && Fillable(c, s, a)
    ensures Base(c, s, a) >= s.net[Ack(a)] + if a > s.inbox.lastRcvd then 1 else 0
  {
    FillableCount(c, s, a, PKT_NUM);
  }

  /** The receiver takes the packet that it expects. */
  predicate Advances(c: Config, s: State, t: State) {
    var r := s.inbox.lastRcvd;
    && r + 1 < PKT_NUM && PacketNumber(c, r) in s.net && t.window == s.window && t.inbox.lastRcvd == r + 1
    && t.net == s.net - multiset{PacketNumber(c, r)} + multiset{Ack(r + 1)}
  }

  lemma AdvancesBase(c: Config, s: State, t: State, a: nat)
    requires Advances(c, s, t) && s.inbox.lastRcvd < a < PKT_NUM
    ensures Base(c, t, a) == Base(c, s, a)
  {
    var r := s.inbox.lastRcvd;
    DataMinus(c, s.net, r, PKT_NUM);
    AcksAside(c, s.net - multiset{PacketNumber(c, r)}, t.net, PKT_NUM);
  }

  lemma AdvancesNew(c: Config, s: State, t: State, a: nat)
    requires Advances(c, s, t) && a < PKT_NUM
    ensures NewAcks(t, a) == NewAcks(s, a)
  {
    forall v: nat ensures Comes(t, v) <==> Comes(s, v) {
      assert v != s.inbox.lastRcvd + 1 ==> t.net[Ack(v)] == s.net[Ack(v)];
    }
    NewAcksSame(s, t, a);
  }

  lemma AdvanceBack(c: Config, s: State, t: State, a: nat)
    requires Window.Sound(s.window) && Advances(c, s, t) && Enough(c, t, a)
    ensures Enough(c, s, a)
  {
    var r := s.inbox.lastRcvd;
    if a < r {
      assert t.net[Ack(a)] == s.net[Ack(a)];
    } else if a == r {
      assert t.net[Ack(a)] == s.net[Ack(a)];
      BaseAtLeast(c, s, a);
    } else {
      forall v: nat | r <= v < a ensures PacketNumber(c, v) in s.net {
        assert v > r ==> t.net[PacketNumber(c, v)] == s.net[PacketNumber(c, v)];
      }
      AdvancesBase(c, s, t, a);
      AdvancesNew(c, s, t, a);
      RoomLess(c, s, t, a, 0);
      BaseAtLeast(c, s, a);
    }
  }

  /** The receiver gets another packet than the one it expects, which is lost but for the acknowledgement. */
  predicate Repeats(c: Config, s: State, t: State, i: nat) {
    && i < PKT_NUM && i != s.inbox.lastRcvd && PacketNumber(c, i) in s.net && t.window == s.window
    && t.inbox.lastRcvd == s.inbox.lastRcvd
    && t.net == s.net - multiset{PacketNumber(c, i)} + multiset{Ack(s.inbox.lastRcvd)}
  }

  lemma RepeatsBase(c: Config, s: State, t: State, i: nat, a: nat)
    requires Repeats(c, s, t, i) && s.inbox.lastRcvd <= a < PKT_NUM
    ensures Base(c, t, a) == Base(c, s, a) - if a == s.inbox.lastRcvd || a == i then 0 else 1
  {
    DataMinus(c, s.net, i, PKT_NUM);
    AcksAside(c, s.net - multiset{PacketNumber(c, i)}, t.net, PKT_NUM);
  }

  /** One new acknowledgement more. */
  lemma {:induction false} NewAcksOne(s: State, t: State, a: nat, v0: nat)
    requires t.window.lastAcked == s.window.lastAcked
    requires forall v: nat {:trigger Comes(t, v)} :: Comes(t, v) && v != v0 ==> Comes(s, v)
    ensures NewAcks(t, a) <= NewAcks(s, a) + if s.window.lastAcked < v0 < a && !Comes(s, v0) then 1 else 0
  {
    if a > 0 && a > s.window.lastAcked + 1 {
      NewAcksOne(s, t, a - 1, v0);
    }
  }

  lemma RepeatsBefore(c: Config, s: State, t: State, i: nat, a: nat)
    requires Repeats(c, s, t, i) && a < PKT_NUM
    ensures Before(c, t, a) <= Before(c, s, a) + if a <= s.inbox.lastRcvd || a == i then 0 else 1
  {
    var r := s.inbox.lastRcvd;
    forall v: nat | Comes(t, v) && v != r ensures Comes(s, v) {
      assert t.net[Ack(v)] == s.net[Ack(v)];
    }
    NewAcksOne(s, t, a, r);
    assert Ack(r) in t.net;
  }

  lemma RepeatBack(c: Config, s: State, t: State, i: nat, a: nat)
    requires Window.Sound(s.window) && Repeats(c, s, t, i) && Enough(c, t, a)
    ensures Enough(c, s, a)
  {
    var r := s.inbox.lastRcvd;
    if a < r {
      assert t.net[Ack(a)] == s.net[Ack(a)];
    } else {
      forall v: nat | r <= v < a ensures PacketNumber(c, v) in s.net {
        assert PacketNumber(c, v) in t.net;
      }
      RepeatsBase(c, s, t, i, a);
      RepeatsBefore(c, s, t, i, a);
      RoomLess(c, s, t, a, if a <= r || a == i then 0 else 1);
      BaseAtLeast(c, s, a);
      if a == r {
        forall v: nat | s.window.lastAcked < v < a && Ack(v) in t.net && Room(c, t, v) > 0
          ensures Ack(v) in s.net && Room(c, s, v) > 0
        {
          assert t.net[Ack(v)] == s.net[Ack(v)];
          RepeatsBefore(c, s, t, i, v);
          RoomLess(c, s, t, v, 0);
        }
      }
    }
  }

  lemma StuckSend(c: Config, s: State)
    requires Stuck(c, s) && MaySend(s.window)
    ensures Stuck(c, Apply(c, s, SenderLoop))
  {
    var t := Apply(c, s, SenderLoop);
    ApplyInv(c, s, SenderLoop);
    var v: nat :| s.inbox.lastRcvd <= v < s.window.lastSent && PacketNumber(c, v) !in s.net;
    assert PacketNumber(c, v) !in t.net;
    forall a: nat ensures !Enough(c, t, a) {
      if Enough(c, t, a) {
        SendBack(c, s, a);
      }
    }
  }

  lemma StuckTimer(c: Config, s: State, step: Step)
    requires Stuck(c, s) && (step.StartTimer? || step.Timeout?)
    ensures Stuck(c, Apply(c, s, step))
  {
    var t := Apply(c, s, step);
    ApplyInv(c, s, step);
    forall a: nat ensures !Enough(c, t, a) {
      if Enough(c, t, a) {
        LessSupply(c, s, t, a);
      }
    }
  }

  lemma StuckDrop(c: Config, s: State, p: Packet)
    requires Stuck(c, s) && p in s.net
    ensures Stuck(c, Apply(c, s, Drop(p)))
  {
    var t := Apply(c, s, Drop(p));
    ApplyInv(c, s, Drop(p));
    forall a: nat ensures !Enough(c, t, a) {
      if Enough(c, t, a) {
        LostBack(c, s, t, p, a);
      }
    }
  }

  /** One repetition less than needed does not retransmit. */
  lemma NotYetEnough(c: Config, s: State)
    requires Stuck(c, s) && s.window.lastAcked >= 0 && Ack(s.window.lastAcked) in s.net
    ensures s.window.dupAckNum + 1 < Window.DUP_ACK_NUM
  {
    var a: nat := s.window.lastAcked;
    assert !Enough(c, s, a);
    if a == s.inbox.lastRcvd {
      BaseAtLeast(c, s, a);
    }
  }

  lemma StuckAck(c: Config, s: State, n: nat)
    requires Stuck(c, s) && Ack(n) in s.net
    ensures Stuck(c, Apply(c, s, Deliver(Ack(n))))
  {
    var t := Apply(c, s, Deliver(Ack(n)));
    ApplyInv(c, s, Deliver(Ack(n)));
    assert InFlight(c, Ack(n), s.inbox.lastRcvd);
    if n == s.window.lastAcked {
      NotYetEnough(c, s);
    }
    forall a: nat ensures !Enough(c, t, a) {
      if Enough(c, t, a) {
        if n > s.window.lastAcked {
          AcceptBack(c, s, t, n, a);
        } else {
          LostBack(c, s, t, Ack(n), a);
        }
      }
    }
    var v: nat :| s.inbox.lastRcvd <= v < s.window.lastSent && PacketNumber(c, v) !in s.net;
    assert PacketNumber(c, v) !in t.net;
  }

  /** A packet on its way is not the lost one. */
  lemma StillLost(c: Config, s: State, t: State, i: nat)
    requires Stuck(c, s) && i < PKT_NUM && PacketNumber(c, i) in s.net && SameWindow(s.window, t.window)
    requires forall v: nat {:trigger PacketNumber(c, v)} :: v < PKT_NUM && PacketNumber(c, v) in t.net ==>
               PacketNumber(c, v) in s.net
    requires t.inbox.lastRcvd <= if i == s.inbox.lastRcvd then i + 1 else s.inbox.lastRcvd
    ensures t.window.lastSent > t.inbox.lastRcvd && !Fillable(c, t, t.window.lastSent)
  {
    var v: nat :| s.inbox.lastRcvd <= v < s.window.lastSent && PacketNumber(c, v) !in s.net;
    assert PacketNumber(c, v) !in t.net && v != i;
  }

  lemma StuckAdvance(c: Config, s: State, t: State)
    requires Stuck(c, s) && Inv(c, t) && t.started && t.inbox.inPool && !LiveTimer(t) && Advances(c, s, t)
    ensures Stuck(c, t)
  {
    StillLost(c, s, t, s.inbox.lastRcvd);
    forall a: nat ensures !Enough(c, t, a) {
      if Enough(c, t, a) {
        AdvanceBack(c, s, t, a);
      }
    }
  }

  lemma StuckRepeat(c: Config, s: State, t: State, i: nat)
    requires Stuck(c, s) && Inv(c, t) && t.started && t.inbox.inPool && !LiveTimer(t) && Repeats(c, s, t, i)
    ensures Stuck(c, t)
  {
    StillLost(c, s, t, i);
    forall a: nat ensures !Enough(c, t, a) {
      if Enough(c, t, a) {
        RepeatBack(c, s, t, i, a);
      }
    }
  }

  lemma DataIs(c: Config, s: State, p: Packet)
    requires Inv(c, s) && p in s.net && p.Data?
    ensures 0 <= p.seqNum - 1 < PKT_NUM && p == PacketNumber(c, p.seqNum - 1)
  {
    assert InFlight(c, p, s.inbox.lastRcvd);
  }

  lemma InboxAfter(c: Config, s: State, i: nat)
    requires Inv(c, s) && s.inbox.inPool && i < PKT_NUM
    ensures var r := Receiving.Received(s.inbox, i + 1, Slice(c.chunk, i), c.sha1);
            && r.lastRcvd == (if i == s.inbox.lastRcvd then i + 1 else s.inbox.lastRcvd)
            && (r.inPool <==> r.lastRcvd < PKT_NUM)
  {
    Receiving.ReceivedSound(s.inbox, c.chunk, c.sha1, i + 1, Slice(c.chunk, i));
  }

  /** The state after a DATA packet while the receiver waits. */
  lemma DataApplied(c: Config, s: State, i: nat)
    requires s.inbox.inPool && i < PKT_NUM && PacketNumber(c, i) in s.net
    ensures var r := Receiving.Received(s.inbox, i + 1, Slice(c.chunk, i), c.sha1);
            Apply(c, s, Deliver(PacketNumber(c, i)))
            == s.(inbox := r, net := s.net - multiset{PacketNumber(c, i)} + multiset{Ack(r.lastRcvd)})
  {
  }

  lemma DataAdvances(c: Config, s: State)
    requires Inv(c, s) && s.inbox.inPool && s.inbox.lastRcvd + 1 < PKT_NUM
    requires PacketNumber(c, s.inbox.lastRcvd) in s.net
    ensures Advances(c, s, Apply(c, s, Deliver(PacketNumber(c, s.inbox.lastRcvd))))
  {
    InboxAfter(c, s, s.inbox.lastRcvd);
    DataApplied(c, s, s.inbox.lastRcvd);
  }

  lemma DataRepeats(c: Config, s: State, i: nat)
    requires Inv(c, s) && s.inbox.inPool && i < PKT_NUM && i != s.inbox.lastRcvd && PacketNumber(c, i) in s.net
    ensures Repeats(c, s, Apply(c, s, Deliver(PacketNumber(c, i))), i)
  {
    InboxAfter(c, s, i);
    DataApplied(c, s, i);
  }

  lemma DataKeeps(c: Config, s: State, i: nat)
    requires Inv(c, s) && s.inbox.inPool && i < PKT_NUM && PacketNumber(c, i) in s.net
    ensures var t := Apply(c, s, Deliver(PacketNumber(c, i)));
            && t.started == s.started && (LiveTimer(t) <==> LiveTimer(s))
            && (i + 1 < PKT_NUM || i != s.inbox.lastRcvd ==> t.inbox.inPool)
  {
    InboxAfter(c, s, i);
    DataApplied(c, s, i);
  }

  /** What a DATA packet does while the receiver waits. */
  lemma DataHandled(c: Config, s: State, p: Packet)
    requires Inv(c, s) && s.inbox.inPool && p in s.net && p.Data?
    ensures var t := Apply(c, s, Deliver(p));
            var i := p.seqNum - 1;
            && 0 <= i < PKT_NUM && p == PacketNumber(c, i)
            && t.started == s.started && (LiveTimer(t) <==> LiveTimer(s))
            && (i + 1 < PKT_NUM || i != s.inbox.lastRcvd ==> t.inbox.inPool)
            && if i == s.inbox.lastRcvd then i + 1 < PKT_NUM ==> Advances(c, s, t) else Repeats(c, s, t, i)
  {
    DataIs(c, s, p);
    DataKeeps(c, s, p.seqNum - 1);
    if p.seqNum - 1 != s.inbox.lastRcvd {
      DataRepeats(c, s, p.seqNum - 1);
    } else if p.seqNum < PKT_NUM {
      DataAdvances(c, s);
    }
  }

  lemma NotTheLast(c: Config, s: State)
    requires Stuck(c, s) && s.inbox.lastRcvd < PKT_NUM && PacketNumber(c, s.inbox.lastRcvd) in s.net
    ensures s.inbox.lastRcvd + 1 < PKT_NUM
  {
    var v: nat :| s.inbox.lastRcvd <= v < s.window.lastSent && PacketNumber(c, v) !in s.net;
  }

  lemma DataLive(c: Config, s: State, i: nat)
    requires Stuck(c, s) && i < PKT_NUM && PacketNumber(c, i) in s.net
    ensures var t := Apply(c, s, Deliver(PacketNumber(c, i))); t.started && t.inbox.inPool && !LiveTimer(t)
  {
    DataKeeps(c, s, i);
    if i == s.inbox.lastRcvd {
      NotTheLast(c, s);
    }
  }

  lemma StuckExpected(c: Config, s: State, i: nat, p: Packet)
    requires Stuck(c, s) && i < PKT_NUM && i == s.inbox.lastRcvd && p == PacketNumber(c, i) && p in s.net
    ensures Stuck(c, Apply(c, s, Deliver(p)))
  {
    NotTheLast(c, s);
    ApplyInv(c, s, Deliver(p));
    DataLive(c, s, i);
    DataAdvances(c, s);
    StuckAdvance(c, s, Apply(c, s, Deliver(p)));
  }

  lemma StuckOther(c: Config, s: State, i: nat, p: Packet)
    requires Stuck(c, s) && i < PKT_NUM && i != s.inbox.lastRcvd && p == PacketNumber(c, i) && p in s.net
    ensures Stuck(c, Apply(c, s, Deliver(p)))
  {
    ApplyInv(c, s, Deliver(p));
    DataLive(c, s, i);
    DataRepeats(c, s, i);
    StuckRepeat(c, s, Apply(c, s, Deliver(p)), i);
  }

  lemma StuckData(c: Config, s: State, p: Packet)
    requires Stuck(c, s) && p in s.net && p.Data?
    ensures Stuck(c, Apply(c, s, Deliver(p)))
  {
    DataIs(c, s, p);
    if p.seqNum - 1 == s.inbox.lastRcvd {
      StuckExpected(c, s, p.seqNum - 1, p);
    } else {
      StuckOther(c, s, p.seqNum - 1, p);
    }
  }

  lemma StuckStays(c: Config, s: State, step: Step)
    requires Stuck(c, s) && !step.Duplicate?
    ensures Stuck(c, Apply(c, s, step))
  {
    match step
    case StartSender =>
    case SenderLoop =>
      if MaySend(s.window) {
        StuckSend(c, s);
      }
    case StartTimer => StuckTimer(c, s, step);
    case Timeout(_) => StuckTimer(c, s, step);
    case Drop(p) =>
      if p in s.net {
        StuckDrop(c, s, p);
      }
    case Deliver(p) =>
      if p in s.net {
        match p
        case Data(_, _) => StuckData(c, s, p);
        case Ack(n) => StuckAck(c, s, n);
      }
  }

  lemma {:induction false} StuckForever(c: Config, s: State, more: seq<Step>)
    requires Stuck(c, s) && Plain(more)
    ensures Stuck(c, RunFrom(c, s, more))
  {
    if more != [] {
      var init, last := more[..|more| - 1], more[|more| - 1];
      assert more == init + [last];
      StuckForever(c, s, init);
      StuckStays(c, RunFrom(c, s, init), last);
      RunStep(c, s, init, last);
    }
  }

  // ---------- Enough acknowledgements lead on ----------

  /** The transfer can be completed from t on. */
  ghost predicate Completes(c: Config, t: State) { CanCompletePlainly(c, t) }

  lemma StepCompletes(c: Config, s: State, step: Step)
    requires !step.Duplicate? && Completes(c, Apply(c, s, step))
    ensures Completes(c, s)
  {
    var more :| Plain(more) && !RunFrom(c, Apply(c, s, step), more).inbox.inPool;
    OneStep(c, s, step);
    Continue(c, s, [step], more);
  }

  lemma BehindDone(c: Config, s: State)
    requires Behind(c, s)
    ensures Completes(c, s)
  {
    var more := BehindCompletes(c, s);
  }

  lemma DoneDone(c: Config, s: State)
    requires !s.inbox.inPool
    ensures Completes(c, s)
  {
    assert Plain([]) && RunFrom(c, s, []) == s;
  }

  lemma AckedDone(c: Config, s: State)
    requires Inv(c, s) && s.started && s.inbox.inPool && Ack(s.inbox.lastRcvd) in s.net
    requires s.window.lastSent <= s.inbox.lastRcvd
    ensures Completes(c, s)
  {
    var more := GoOn(c, s);
    var rest := BehindCompletes(c, RunFrom(c, s, more));
    Continue(c, s, more, rest);
  }

  /** The packets up to last_sent are all on their way. */
  lemma {:induction false} FillableDone(c: Config, s: State)
    requires Inv(c, s) && s.started && s.inbox.inPool && s.window.lastSent > s.inbox.lastRcvd
    requires Fillable(c, s, s.window.lastSent)
    ensures Completes(c, s)
    decreases s.window.lastSent - s.inbox.lastRcvd
  {
    var r := s.inbox.lastRcvd;
    var p := PacketNumber(c, r);
    var t := Apply(c, s, Deliver(p));
    DataHandled(c, s, p);
    ApplyInv(c, s, Deliver(p));
    if !t.inbox.inPool {
      DoneDone(c, t);
    } else {
      assert Advances(c, s, t);
      if t.window.lastSent <= t.inbox.lastRcvd {
        AckedDone(c, t);
      } else {
        forall v: nat | r + 1 <= v < t.window.lastSent ensures PacketNumber(c, v) in t.net {
          assert PacketNumber(c, v) in s.net;
        }
        FillableDone(c, t);
      }
    }
    StepCompletes(c, s, Deliver(p));
  }

  /** An acknowledgement on its way often enough. */
  lemma {:induction false} RepeatedDone(c: Config, s: State, a: nat)
    requires Inv(c, s) && s.started && s.inbox.inPool && s.window.lastAcked <= a < PKT_NUM
    requires s.net[Ack(a)] >= Needed(s, a)
    ensures Completes(c, s)
    decreases Needed(s, a)
  {
    var step := Deliver(Ack(a));
    var t := Apply(c, s, step);
    ApplyInv(c, s, step);
    assert Ack(a) in s.net && InFlight(c, Ack(a), s.inbox.lastRcvd);
    if Needed(s, a) == 1 {
      Window.RetransmittedSends(s.window.(dupAckNum := s.window.dupAckNum + 1), a);
      BehindDone(c, t);
    } else {
      RepeatedDone(c, t, a);
    }
    StepCompletes(c, s, step);
  }

  /** The sender is ahead, a packet that it has sent is lost, and there are enough acknowledgements of a. */
  ghost predicate Goes(c: Config, s: State, a: nat) {
    && Inv(c, s) && s.started && s.inbox.inPool && s.window.lastSent > s.inbox.lastRcvd
    && s.inbox.lastRcvd <= a && Enough(c, s, a)
  }

  lemma Below(c: Config, s: State, a: nat)
    requires Goes(c, s, a) && !Fillable(c, s, s.window.lastSent)
    ensures a < s.window.lastSent
  {
  }

  /** Fewer is left in t than in s: places to send, DATA packets, or packets. */
  ghost predicate Shorter(c: Config, s: State, t: State) {
    || t.window.lastSent > s.window.lastSent
    || (t.window.lastSent == s.window.lastSent && DataCount(c, t.net) < DataCount(c, s.net))
    || (t.window.lastSent == s.window.lastSent && DataCount(c, t.net) == DataCount(c, s.net) && |t.net| < |s.net|)
  }

  lemma DataFewer(c: Config, net: multiset<Packet>, i: nat, ack: nat)
    requires i < PKT_NUM && PacketNumber(c, i) in net
    ensures DataCount(c, net - multiset{PacketNumber(c, i)} + multiset{Ack(ack)}) == DataCount(c, net) - 1
  {
    DataMinus(c, net, i, PKT_NUM);
    AcksAside(c, net - multiset{PacketNumber(c, i)}, net - multiset{PacketNumber(c, i)} + multiset{Ack(ack)}, PKT_NUM);
  }

  /** A packet of no other use is turned into a new acknowledgement. */
  lemma GoesSpare(c: Config, s: State, a: nat)
    requires Goes(c, s, a) && Spare(c, s, a) == 1
    ensures var t := Apply(c, s, Deliver(PacketNumber(c, a))); Goes(c, t, a) && Shorter(c, s, t)
  {
    var p, t := PacketNumber(c, a), Apply(c, s, Deliver(PacketNumber(c, a)));
    DataHandled(c, s, p);
    ApplyInv(c, s, Deliver(p));
    DataFewer(c, s.net, a, s.inbox.lastRcvd);
    SpareCounts(c, s, t, a);
    forall v: nat | s.inbox.lastRcvd <= v < a ensures PacketNumber(c, v) in t.net {
      assert PacketNumber(c, v) in s.net;
    }
    BaseAtLeast(c, t, a);
  }

  lemma SpareCounts(c: Config, s: State, t: State, a: nat)
    requires Goes(c, s, a) && Spare(c, s, a) == 1 && Repeats(c, s, t, a)
    ensures Base(c, t, a) == Base(c, s, a) && Room(c, t, a) >= Room(c, s, a)
  {
    RepeatsBase(c, s, t, a, a);
    forall v: nat | Comes(s, v) ensures Comes(t, v) {
      assert Ack(v) in s.net ==> t.net[Ack(v)] >= s.net[Ack(v)];
    }
    NewAcksLess(t, s, a, s.inbox.lastRcvd);
    RoomLess(c, t, s, a, 0);
  }

  lemma AdvanceFills(c: Config, s: State, t: State, a: nat)
    requires s.inbox.lastRcvd < a < PKT_NUM && Fillable(c, s, a) && Advances(c, s, t)
    ensures Fillable(c, t, a) && Base(c, t, a) > 0
  {
    forall v: nat | s.inbox.lastRcvd + 1 <= v < a ensures PacketNumber(c, v) in t.net {
      assert PacketNumber(c, v) in s.net;
    }
    BaseAtLeast(c, t, a);
  }

  /** The receiver gets on towards a. */
  lemma GoesAdvance(c: Config, s: State, a: nat)
    requires Goes(c, s, a) && Spare(c, s, a) == 0 && a > s.inbox.lastRcvd && !Fillable(c, s, s.window.lastSent)
    ensures var t := Apply(c, s, Deliver(PacketNumber(c, s.inbox.lastRcvd))); Goes(c, t, a) && Shorter(c, s, t)
  {
    var r := s.inbox.lastRcvd;
    var p, t := PacketNumber(c, r), Apply(c, s, Deliver(PacketNumber(c, r)));
    Below(c, s, a);
    DataHandled(c, s, p);
    ApplyInv(c, s, Deliver(p));
    DataFewer(c, s.net, r, r + 1);
    AdvanceCounts(c, s, t, a);
    AdvanceFills(c, s, t, a);
  }

  lemma AdvanceCounts(c: Config, s: State, t: State, a: nat)
    requires Goes(c, s, a) && Spare(c, s, a) == 0 && a > s.inbox.lastRcvd && Advances(c, s, t)
    ensures Base(c, t, a) == Base(c, s, a) && Room(c, t, a) >= Room(c, s, a)
  {
    AdvancesBase(c, s, t, a);
    AdvancesNew(c, s, t, a);
    RoomLess(c, t, s, a, 0);
  }

  /** The sender sends one more packet. */
  lemma GoesSend(c: Config, s: State, a: nat)
    requires Goes(c, s, a) && a == s.inbox.lastRcvd && MaySend(s.window)
    ensures var t := Apply(c, s, SenderLoop); Goes(c, t, a) && Shorter(c, s, t)
  {
    var t := Apply(c, s, SenderLoop);
    ApplyInv(c, s, SenderLoop);
    SentBase(c, s, a);
    SentRoom(c, s, t, a);
    BaseAtLeast(c, s, a);
  }

  lemma {:induction false} OtherPacket(c: Config, net: multiset<Packet>, r: nat, k: nat) returns (i: nat)
    requires r < PKT_NUM && k <= PKT_NUM && DataBelow(c, net, k) > if r < k then net[PacketNumber(c, r)] else 0
    ensures i < k && i != r && PacketNumber(c, i) in net
  {
    if k - 1 != r && PacketNumber(c, k - 1) in net {
      i := k - 1;
    } else {
      i := OtherPacket(c, net, r, k - 1);
    }
  }

  /** A packet that the receiver does not expect makes one more acknowledgement. */
  lemma GoesData(c: Config, s: State, a: nat, i: nat)
    requires Goes(c, s, a) && a == s.inbox.lastRcvd && Base(c, s, a) > 0
    requires i < PKT_NUM && i != a && PacketNumber(c, i) in s.net
    ensures var t := Apply(c, s, Deliver(PacketNumber(c, i))); Goes(c, t, a) && Shorter(c, s, t)
  {
    var p, t := PacketNumber(c, i), Apply(c, s, Deliver(PacketNumber(c, i)));
    DataHandled(c, s, p);
    ApplyInv(c, s, Deliver(p));
    DataFewer(c, s.net, i, a);
    RepeatsBase(c, s, t, i, a);
    forall v: nat | Comes(s, v) ensures Comes(t, v) {
      assert Ack(v) in s.net ==> t.net[Ack(v)] >= s.net[Ack(v)];
    }
    NewAcksLess(t, s, a, 0);
    RoomLess(c, t, s, a, 0);
  }

  /** No new acknowledgement below a is on its way. */
  predicate NoneBelow(s: State, a: nat) {
    forall v: nat {:trigger Ack(v)} :: s.window.lastAcked < v < a ==> Ack(v) !in s.net
  }

  lemma {:induction false} NoneToAccept(s: State, a: nat)
    requires a <= s.inbox.lastRcvd + 1 && NoneBelow(s, a)
    ensures NewAcks(s, a) == 0
  {
    if a > 0 && a > s.window.lastAcked + 1 {
      NoneToAccept(s, a - 1);
    }
  }

  lemma LeastBefore(c: Config, s: State, t: State, n: nat, a: nat)
    requires Ack(n) in s.net && 0 <= s.window.lastAcked < n < a <= s.inbox.lastRcvd && a < PKT_NUM
    requires NoneBelow(s, n) && t.inbox == s.inbox && t.net == s.net - multiset{Ack(n)} && t.window.lastAcked == n
    ensures Before(c, s, a) == Before(c, t, a) + 1
  {
    LeastNew(s, t, n, a);
  }

  /** After the least new acknowledgement the rest opens as much as before. */
  lemma LeastRoom(c: Config, s: State, t: State, n: nat, a: nat)
    requires Ack(n) in s.net && 0 <= s.window.lastAcked < n < a <= s.inbox.lastRcvd && a < PKT_NUM
    requires NoneBelow(s, n) && t.inbox == s.inbox && t.net == s.net - multiset{Ack(n)}
    requires t.window == Window.Accepted(s.window, n).(timerRunning := false)
    ensures Room(c, t, a) == Room(c, s, a)
  {
    LeastBefore(c, s, t, n, a);
    AcceptedGrown(s, t, n, Before(c, t, a));
    assert Opening(c, t, a) == Opening(c, s, a);
  }

  lemma {:induction false} LeastNew(s: State, t: State, n: nat, a: nat)
    requires Ack(n) in s.net && 0 <= s.window.lastAcked < n < a <= s.inbox.lastRcvd
    requires NoneBelow(s, n) && t.inbox == s.inbox && t.net == s.net - multiset{Ack(n)} && t.window.lastAcked == n
    ensures NewAcks(s, a) == NewAcks(t, a) + 1
  {
    if a == n + 1 {
      NoneToAccept(s, n);
    } else {
      LeastNew(s, t, n, a - 1);
      assert t.net[Ack(a - 1)] == s.net[Ack(a - 1)];
    }
  }

  /** The least new acknowledgement is accepted. */
  lemma GoesLeast(c: Config, s: State, a: nat, n: nat)
    requires Goes(c, s, a) && a == s.inbox.lastRcvd && s.window.lastAcked < n < a
    requires Ack(n) in s.net && NoneBelow(s, n)
    ensures var t := Apply(c, s, Deliver(Ack(n))); Goes(c, t, a) && Shorter(c, s, t)
  {
    var t := Apply(c, s, Deliver(Ack(n)));
    ApplyInv(c, s, Deliver(Ack(n)));
    AcksAside(c, t.net, s.net, PKT_NUM);
    LeastRoom(c, s, t, n, a);
    LeastStarts(c, s, t, n, a);
  }

  lemma LeastStarts(c: Config, s: State, t: State, n: nat, a: nat)
    requires Goes(c, s, a) && a == s.inbox.lastRcvd && s.window.lastAcked < n < a
    requires Ack(n) in s.net && NoneBelow(s, n) && t.inbox == s.inbox && t.net == s.net - multiset{Ack(n)}
    requires t.window == Window.Accepted(s.window, n).(timerRunning := false)
    ensures CanStart(c, t, a)
  {
    AcceptedBase(c, s, t, n, a);
    NoneToAccept(s, n);
    assert Room(c, s, n) > 0 ==> MaySend(t.window) by {
      assert Grown(s.window, 0) == s.window.cwnd;
    }
    OpeningAtLeast(c, s, n);
    assert Opening(c, s, n) == t.window.lastAvailable by {
      assert Grown(s.window, 0) == s.window.cwnd;
    }
    forall v: nat | n < v < a && Ack(v) in s.net && Room(c, s, v) > 0 ensures Ack(v) in t.net && Room(c, t, v) > 0 {
      LeastRoom(c, s, t, n, v);
    }
  }

  /** The acknowledgement of a is accepted, with no other new one before it. */
  lemma GoesAccept(c: Config, s: State, a: nat)
    requires Goes(c, s, a) && a == s.inbox.lastRcvd > s.window.lastAcked && Ack(a) in s.net && NoneBelow(s, a)
    ensures var t := Apply(c, s, Deliver(Ack(a))); Goes(c, t, a) && Shorter(c, s, t)
  {
    var t := Apply(c, s, Deliver(Ack(a)));
    ApplyInv(c, s, Deliver(Ack(a)));
    AcksAside(c, t.net, s.net, PKT_NUM);
    NoneToAccept(s, a);
    assert Grown(s.window, 0) == s.window.cwnd;
    assert Opening(c, t, a) == Opening(c, s, a);
  }

  /** A repetition counts. */
  lemma GoesRepeat(c: Config, s: State, a: nat)
    requires Goes(c, s, a) && a == s.inbox.lastRcvd == s.window.lastAcked && Ack(a) in s.net && Needed(s, a) > 1
    ensures var t := Apply(c, s, Deliver(Ack(a))); Goes(c, t, a) && Shorter(c, s, t)
  {
    var t := Apply(c, s, Deliver(Ack(a)));
    ApplyInv(c, s, Deliver(Ack(a)));
    AcksAside(c, t.net, s.net, PKT_NUM);
  }

  lemma {:induction false} Least(s: State, n: nat) returns (m: nat)
    requires s.window.lastAcked < n && Ack(n) in s.net
    ensures s.window.lastAcked < m <= n && Ack(m) in s.net && NoneBelow(s, m)
  {
    if v: nat :| s.window.lastAcked < v < n && Ack(v) in s.net {
      m := Least(s, v);
    } else {
      m := n;
    }
  }

  /** The next step towards a: it may make the sender go back at once. */
  lemma GoesOn(c: Config, s: State, a: nat) returns (step: Step)
    requires Goes(c, s, a) && !Fillable(c, s, s.window.lastSent)
    requires s.net[Ack(a)] < Needed(s, a)
    ensures !step.Duplicate?
    ensures var t := Apply(c, s, step); Goes(c, t, a) && Shorter(c, s, t)
  {
    if a > s.inbox.lastRcvd {
      step := GoesUp(c, s, a);
    } else if n: nat :| s.window.lastAcked < n < a && Ack(n) in s.net {
      var m := Least(s, n);
      GoesLeast(c, s, a, m);
      step := Deliver(Ack(m));
    } else if Ack(a) in s.net {
      if a > s.window.lastAcked {
        GoesAccept(c, s, a);
      } else {
        GoesRepeat(c, s, a);
      }
      step := Deliver(Ack(a));
    } else {
      step := GoesMake(c, s, a);
    }
  }

  lemma GoesUp(c: Config, s: State, a: nat) returns (step: Step)
    requires Goes(c, s, a) && !Fillable(c, s, s.window.lastSent) && a > s.inbox.lastRcvd
    ensures !step.Duplicate?
    ensures var t := Apply(c, s, step); Goes(c, t, a) && Shorter(c, s, t)
  {
    if Spare(c, s, a) == 1 {
      GoesSpare(c, s, a);
      step := Deliver(PacketNumber(c, a));
    } else {
      GoesAdvance(c, s, a);
      step := Deliver(PacketNumber(c, s.inbox.lastRcvd));
    }
  }

  /** None is on its way, so one has to be made. */
  lemma GoesMake(c: Config, s: State, a: nat) returns (step: Step)
    requires Goes(c, s, a) && a == s.inbox.lastRcvd && Ack(a) !in s.net && NoneBelow(s, a)
    ensures !step.Duplicate?
    ensures var t := Apply(c, s, step); Goes(c, t, a) && Shorter(c, s, t)
  {
    if MaySend(s.window) {
      GoesSend(c, s, a);
      step := SenderLoop;
    } else {
      MakesData(c, s, a);
      var i := OtherPacket(c, s.net, a, PKT_NUM);
      GoesData(c, s, a, i);
      step := Deliver(PacketNumber(c, i));
    }
  }

  lemma MakesData(c: Config, s: State, a: nat)
    requires Goes(c, s, a) && a == s.inbox.lastRcvd && Ack(a) !in s.net && NoneBelow(s, a) && !MaySend(s.window)
    ensures Base(c, s, a) > 0
  {
    if a == s.window.lastAcked {
      assert Room(c, s, a) == 0;
    }
  }

  lemma {:induction false} GoesCompletes(c: Config, s: State, a: nat)
    requires Goes(c, s, a)
    ensures Completes(c, s)
    decreases PKT_NUM - s.window.lastSent, DataCount(c, s.net), |s.net|
  {
    if Fillable(c, s, s.window.lastSent) {
      FillableDone(c, s);
    } else if s.net[Ack(a)] >= Needed(s, a) {
      RepeatedDone(c, s, a);
    } else {
      var step := GoesOn(c, s, a);
      GoesCompletes(c, Apply(c, s, step), a);
      StepCompletes(c, s, step);
    }
  }

  // ---------- The exact condition ----------

  /** Ahead of the receiver: the packets up to last_sent are on their way, or there are enough acknowledgements of one
      number.  Not ahead of it, with the window used up: not only too few repetitions of the last one are left. */
  ghost predicate Supplied(c: Config, s: State) {
    if s.window.lastSent > s.inbox.lastRcvd then
      || (s.window.lastSent <= PKT_NUM && Fillable(c, s, s.window.lastSent))
      || exists a: nat {:trigger Enough(c, s, a)} :: Enough(c, s, a)
    else !(Quiet(s) && TooFew(s))
  }

  lemma AheadCompletes(c: Config, s: State)
    requires Inv(c, s) && s.started && s.inbox.inPool && s.window.lastSent > s.inbox.lastRcvd && Supplied(c, s)
    ensures Completes(c, s)
  {
    if Fillable(c, s, s.window.lastSent) {
      FillableDone(c, s);
    } else {
      var a: nat :| Enough(c, s, a);
      if a < s.inbox.lastRcvd {
        RepeatedDone(c, s, a);
      } else {
        GoesCompletes(c, s, a);
      }
    }
  }

  lemma DataDone(c: Config, s: State, p: Packet)
    requires Inv(c, s) && Inv(c, Apply(c, s, Deliver(p)))
    requires s.started && s.inbox.inPool && s.window.lastSent <= s.inbox.lastRcvd && p in s.net && p.Data?
    ensures Completes(c, Apply(c, s, Deliver(p)))
  {
    var t := Apply(c, s, Deliver(p));
    DataHandled(c, s, p);
    if t.inbox.inPool {
      assert Ack(t.inbox.lastRcvd) in t.net;
      AckedDone(c, t);
    } else {
      DoneDone(c, t);
    }
  }

  /** A DATA packet or a new acknowledgement opens the window of a sender that is not ahead. */
  lemma NotAheadCompletes(c: Config, s: State, p: Packet)
    requires Inv(c, s) && s.started && s.inbox.inPool && s.window.lastSent <= s.inbox.lastRcvd
    requires p in s.net && (p.Data? || p.ackNum > s.window.lastAcked)
    ensures Completes(c, s)
  {
    ApplyInv(c, s, Deliver(p));
    assert InFlight(c, p, s.inbox.lastRcvd);
    if p.Data? {
      DataDone(c, s, p);
    } else {
      OpensForNew(s.window, p.ackNum);
      BehindDone(c, Apply(c, s, Deliver(p)));
    }
    StepCompletes(c, s, Deliver(p));
  }

  /** Every new acknowledgement opens the window further. */
  lemma OpensForNew(w: Window.Window, ack: int)
    requires Window.Sound(w) && Window.IsNew(w, ack)
    ensures Window.Accepted(w, ack).lastAvailable > w.lastAvailable >= w.lastSent
  {
    Window.FloorMonotone(w.lastAvailable + 1, ack as real + w.cwnd);
  }

  /** While the receiver waits, the chunk can be delivered without the network repeating a packet if and only if the
      sender can go on at once or there is supply enough. */
  lemma PlainCompletion(c: Config, steps: seq<Step>)
    requires Run(c, steps).inbox.inPool
    ensures CanCompletePlainly(c, Run(c, steps)) <==> Recovers(Run(c, steps)) || Supplied(c, Run(c, steps))
  {
    var s := Run(c, steps);
    RunInv(c, steps);
    if Recovers(s) {
      RecoveringCompletes(c, steps);
    } else if s.window.lastSent > s.inbox.lastRcvd {
      if Supplied(c, s) {
        AheadCompletes(c, s);
      } else {
        assert Stuck(c, s);
        forall more | Plain(more) ensures RunFrom(c, s, more).inbox.inPool {
          StuckForever(c, s, more);
        }
      }
    } else if p: Packet :| p in s.net && (p.Data? || p.ackNum > s.window.lastAcked) {
      NotAheadCompletes(c, s, p);
    } else {
      assert Quiet(s);
      QuietCompletion(c, steps);
    }
  }
}
