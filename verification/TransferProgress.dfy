/** When can a connection still deliver its chunk?  The code recovers from a loss only through a timer thread or
    a repeated acknowledgement, and it can lose both. */
module TransferProgress {
  import opened Chunking
  import opened Transfer
  import Receiving
  import Window

  /** A timer thread that will wake up with the current timer id. */
  predicate LiveTimer(s: State) {
    s.window.timerId in s.sleeping || (s.unstarted > 0 && s.window.timerRunning)
  }

  /** Only acknowledgements of packets before lastAcked. */
  predicate Outdated(net: multiset<Packet>, lastAcked: int) {
    forall p :: p in net ==> p.Ack? && p.ackNum < lastAcked
  }

  /** The window is used up, no timer is left and only outdated acknowledgements are on their way. */
  predicate Hopeless(s: State) {
    s.started && !MaySend(s.window) && !LiveTimer(s) && Outdated(s.net, s.window.lastAcked)
  }

  lemma OutdatedSubset(net: multiset<Packet>, other: multiset<Packet>, lastAcked: int)
    requires Outdated(net, lastAcked) && forall p :: p in other ==> p in net
    ensures Outdated(other, lastAcked)
  {
  }

  lemma HopelessDelivery(c: Config, s: State, p: Packet)
    requires Inv(c, s) && Hopeless(s) && p in s.net
    ensures Hopeless(Apply(c, s, Deliver(p))) && Apply(c, s, Deliver(p)).inbox == s.inbox
  {
    OutdatedSubset(s.net, s.net - multiset{p}, s.window.lastAcked);
    Window.OutdatedAck(s.window, p.ackNum);
  }

  lemma HopelessStays(c: Config, s: State, step: Step)
    requires Inv(c, s) && Hopeless(s)
    ensures Hopeless(Apply(c, s, step)) && Apply(c, s, step).inbox == s.inbox
  {
    match step
    case Deliver(p) =>
      if p in s.net {
        HopelessDelivery(c, s, p);
      }
    case Drop(p) => OutdatedSubset(s.net, s.net - multiset{p}, s.window.lastAcked);
    case Duplicate(p) =>
      if p in s.net {
        OutdatedSubset(s.net, s.net + multiset{p}, s.window.lastAcked);
      }
    case _ =>
  }

  lemma HopelessAfter(c: Config, s: State, more: seq<Step>, step: Step)
    requires Inv(c, s) && Hopeless(RunFrom(c, s, more))
    ensures Hopeless(RunFrom(c, s, more + [step])) && RunFrom(c, s, more + [step]).inbox == RunFrom(c, s, more).inbox
  {
    RunFromInv(c, s, more);
    HopelessStays(c, RunFrom(c, s, more), step);
    RunStep(c, s, more, step);
  }

  lemma {:induction false} HopelessForever(c: Config, s: State, more: seq<Step>)
    requires Inv(c, s) && Hopeless(s)
    ensures Hopeless(RunFrom(c, s, more)) && RunFrom(c, s, more).inbox == s.inbox
  {
    if more != [] {
      var init, last := more[..|more| - 1], more[|more| - 1];
      assert more == init + [last];
      HopelessForever(c, s, init);
      HopelessAfter(c, s, init, last);
    }
  }

  // ---------- Schedules that make progress ----------

  /** The transfer goes on: the sender may send, and the receiver still waits. */
  ghost predicate Sending(c: Config, s: State) {
    Inv(c, s) && s.started && s.inbox.inPool && MaySend(s.window)
  }

  ghost predicate Aligned(c: Config, s: State) {
    Sending(c, s) && s.window.lastSent == s.window.lastAcked == s.inbox.lastRcvd
  }

  /** Duplicating an acknowledgement and delivering one of the two, again and again. */
  function Echo(n: nat, k: nat): seq<Step> {
    if k == 0 then [] else Echo(n, k - 1) + [Duplicate(Ack(n))] + [Deliver(Ack(n))]
  }

  lemma EchoOnce(c: Config, s: State, n: nat)
    requires Ack(n) in s.net && s.inPool && n < s.window.pktNum
    ensures Apply(c, Apply(c, s, Duplicate(Ack(n))), Deliver(Ack(n))) == s.(window := Window.Acknowledged(s.window, n))
  {
    assert s.net + multiset{Ack(n)} - multiset{Ack(n)} == s.net;
  }

  lemma EchoMore(c: Config, s: State, steps: seq<Step>, n: nat)
    requires var t := RunFrom(c, s, steps); Ack(n) in t.net && t.inPool && n < t.window.pktNum
    ensures var t := RunFrom(c, s, steps);
            RunFrom(c, s, steps + [Duplicate(Ack(n))] + [Deliver(Ack(n))])
            == t.(window := Window.Acknowledged(t.window, n))
  {
    EchoAppends(c, s, steps, n);
    EchoOnce(c, RunFrom(c, s, steps), n);
  }

  lemma EchoNone(c: Config, s: State, n: nat)
    ensures RunFrom(c, s, Echo(n, 0)) == s.(window := Window.Repeated(s.window, n, 0))
  {
  }

  lemma EchoNext(c: Config, s: State, n: nat, k: nat)
    requires RunFrom(c, s, Echo(n, k)) == s.(window := Window.Repeated(s.window, n, k))
    requires Ack(n) in s.net && s.inPool && n < s.window.pktNum
    ensures RunFrom(c, s, Echo(n, k + 1)) == s.(window := Window.Repeated(s.window, n, k + 1))
  {
    Window.RepeatedPktNum(s.window, n, k);
    EchoMore(c, s, Echo(n, k), n);
  }

  lemma {:induction false} EchoRuns(c: Config, s: State, n: nat, k: nat)
    requires Ack(n) in s.net && s.inPool && n < s.window.pktNum
    ensures RunFrom(c, s, Echo(n, k)) == s.(window := Window.Repeated(s.window, n, k))
  {
    if k == 0 {
      EchoNone(c, s, n);
    } else {
      EchoRuns(c, s, n, k - 1);
      EchoNext(c, s, n, k - 1);
    }
  }

  lemma EchoAppends(c: Config, s: State, steps: seq<Step>, n: nat)
    ensures RunFrom(c, s, steps + [Duplicate(Ack(n))] + [Deliver(Ack(n))])
            == Apply(c, Apply(c, RunFrom(c, s, steps), Duplicate(Ack(n))), Deliver(Ack(n)))
  {
    RunStep(c, s, steps, Duplicate(Ack(n)));
    RunStep(c, s, steps + [Duplicate(Ack(n))], Deliver(Ack(n)));
  }

  /** An acknowledgement that is not outdated, repeated by the network, brings the sender back to its packet. */
  lemma AckThrice(c: Config, s: State, n: nat)
    requires Inv(c, s) && s.started && s.inbox.inPool && Ack(n) in s.net && s.window.lastAcked <= n
    ensures var t := RunFrom(c, s, Echo(n, 3));
            Sending(c, t) && t.inbox == s.inbox && t.window.lastSent == t.window.lastAcked == n
  {
    assert InFlight(c, Ack(n), s.inbox.lastRcvd);
    Window.ThreeAcksGoBack(s.window, n);
    EchoRuns(c, s, n, 3);
    RunFromInv(c, s, Echo(n, 3));
  }

  /** Sending one packet and delivering it leaves an acknowledgement of everything received. */
  lemma SendAndDeliver(c: Config, s: State) returns (more: seq<Step>)
    requires Sending(c, s)
    ensures more == [SenderLoop] + [Deliver(PacketNumber(c, s.window.lastSent))]
    ensures var t := RunFrom(c, s, more);
            && Inv(c, t) && t.started && t.inbox.lastRcvd >= s.inbox.lastRcvd && Ack(t.inbox.lastRcvd) in t.net
            && t.window == Window.Sent(s.window) && t.inPool == s.inPool
            && (s.window.lastSent == s.inbox.lastRcvd ==> t.inbox.lastRcvd == s.inbox.lastRcvd + 1)
  {
    var p := PacketNumber(c, s.window.lastSent);
    var t1 := Apply(c, s, SenderLoop);
    ApplyInv(c, s, SenderLoop);
    assert p in t1.net && t1.inbox == s.inbox;
    more := [SenderLoop] + [Deliver(p)];
    RunStep(c, s, [], SenderLoop);
    assert [] + [SenderLoop] == [SenderLoop];
    RunStep(c, s, [SenderLoop], Deliver(p));
    RunFromInv(c, s, more);
    Receiving.ReceivedSound(s.inbox, c.chunk, c.sha1, p.seqNum, p.payload);
  }

  /** From a sender that may send: the receiver completes, or sender and receiver meet at the same packet,
      one further than before if they had already met. */
  lemma Advance(c: Config, s: State) returns (more: seq<Step>)
    requires Sending(c, s)
    ensures var t := RunFrom(c, s, more);
            && (!t.inbox.inPool || Aligned(c, t))
            && t.inbox.lastRcvd >= (if Aligned(c, s) then s.inbox.lastRcvd + 1 else s.inbox.lastRcvd)
  {
    var first := SendAndDeliver(c, s);
    var t := RunFrom(c, s, first);
    more := first;
    if t.inbox.inPool {
      AckThrice(c, t, t.inbox.lastRcvd);
      RunAppend(c, s, first, Echo(t.inbox.lastRcvd, 3));
      more := first + Echo(t.inbox.lastRcvd, 3);
    }
  }

  lemma {:induction false} AlignedCompletes(c: Config, s: State) returns (more: seq<Step>)
    requires Aligned(c, s)
    ensures !RunFrom(c, s, more).inbox.inPool
    decreases PKT_NUM - s.inbox.lastRcvd
  {
    var first := Advance(c, s);
    var t := RunFrom(c, s, first);
    more := first;
    if t.inbox.inPool {
      var rest := AlignedCompletes(c, t);
      RunAppend(c, s, first, rest);
      more := first + rest;
    }
  }

  lemma SendingCompletes(c: Config, s: State) returns (more: seq<Step>)
    requires Sending(c, s)
    ensures !RunFrom(c, s, more).inbox.inPool
  {
    var first := Advance(c, s);
    var t := RunFrom(c, s, first);
    more := first;
    if t.inbox.inPool {
      var rest := AlignedCompletes(c, t);
      RunAppend(c, s, first, rest);
      more := first + rest;
    }
  }

  /** A live timer thread wakes up and makes the sender send again. */
  lemma TimerRevives(c: Config, s: State) returns (more: seq<Step>)
    requires Inv(c, s) && s.started && s.inbox.inPool && LiveTimer(s)
    ensures Sending(c, RunFrom(c, s, more))
  {
    var id := s.window.timerId;
    var first := if id in s.sleeping then [] else [StartTimer];
    var t := if id in s.sleeping then s else Apply(c, s, StartTimer);
    RunStep(c, s, [], StartTimer);
    assert [] + [StartTimer] == [StartTimer];
    assert t == RunFrom(c, s, first) && id in t.sleeping;
    more := first + [Timeout(id)];
    RunStep(c, s, first, Timeout(id));
    RunFromInv(c, s, more);
    Window.RetransmittedSends(s.window, id);
  }

  /** A packet on its way that is not outdated makes the sender send again, unless it completes the chunk. */
  lemma PacketRevives(c: Config, s: State, p: Packet) returns (more: seq<Step>)
    requires Inv(c, s) && s.started && s.inbox.inPool && p in s.net && (p.Data? || p.ackNum >= s.window.lastAcked)
    ensures var t := RunFrom(c, s, more); !t.inbox.inPool || Sending(c, t)
  {
    if p.Ack? {
      AckThrice(c, s, p.ackNum);
      return Echo(p.ackNum, 3);
    }
    more := [Deliver(p)];
    RunStep(c, s, [], Deliver(p));
    assert [] + more == more;
    RunFromInv(c, s, more);
    var t := RunFrom(c, s, more);
    if t.inbox.inPool {
      AckThrice(c, t, t.inbox.lastRcvd);
      RunAppend(c, s, more, Echo(t.inbox.lastRcvd, 3));
      more := more + Echo(t.inbox.lastRcvd, 3);
    }
  }

  lemma Revive(c: Config, s: State) returns (more: seq<Step>)
    requires Inv(c, s) && s.inbox.inPool && !Hopeless(s)
    ensures var t := RunFrom(c, s, more); !t.inbox.inPool || Sending(c, t)
  {
    if !s.started {
      more := [StartSender];
      RunStep(c, s, [], StartSender);
      assert [] + more == more;
      RunFromInv(c, s, more);
    } else if MaySend(s.window) {
      more := [];
    } else if LiveTimer(s) {
      more := TimerRevives(c, s);
    } else {
      var p :| p in s.net && (p.Data? || p.ackNum >= s.window.lastAcked);
      more := PacketRevives(c, s, p);
    }
  }

  /** The receiver can still get the whole chunk after steps. */
  ghost predicate CanComplete(c: Config, steps: seq<Step>) {
    exists more :: !Run(c, steps + more).inbox.inPool
  }

  /** As long as the receiver waits, some continuation delivers the whole chunk, if and only if the connection
      is not in a hopeless state. */
  lemma CompletionIsReachable(c: Config, steps: seq<Step>)
    requires Run(c, steps).inbox.inPool
    ensures CanComplete(c, steps) <==> !Hopeless(Run(c, steps))
  {
    var s := Run(c, steps);
    RunInv(c, steps);
    if Hopeless(s) {
      forall more
        ensures Run(c, steps + more).inbox.inPool
      {
        RunAppend(c, Opened(c), steps, more);
        HopelessForever(c, s, more);
      }
    } else {
      var first := Revive(c, s);
      var t := RunFrom(c, s, first);
      var more := first;
      if t.inbox.inPool {
        var rest := SendingCompletes(c, t);
        RunAppend(c, s, first, rest);
        more := first + rest;
      }
      RunAppend(c, Opened(c), steps, more);
      assert !Run(c, steps + more).inbox.inPool;
    }
  }
}
