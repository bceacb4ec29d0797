/** One connection as a transition system: the sender and its timer threads, the receiver, and a network that
    loses, repeats and reorders packets.  A run is a schedule of steps; a step that is not possible changes nothing. */
module Transfer {
  import opened Chunking
  import Receiving
  import Window
  import HashLists
  import opened Runs

  datatype Packet = Data(seqNum: nat, payload: seq<bv8>) | Ack(ackNum: nat)

  // What the connection is about: the sender's chunk, the digest text the receiver wants and its buffer's first bytes.
  datatype Config = Config(chunk: Chunk, sha1: HashLists.Hash, blank: Chunk)

  datatype State = State(
    window: Window.Window,
    started: bool,          // the process_sender thread has armed its first timer
    inPool: bool,           // process_ACK still finds the sender
    unstarted: nat,         // timer threads that have not yet read the timer
    sleeping: multiset<int>, // the timer ids read by the timer threads that wait in select
    inbox: Receiving.Inbox,
    net: multiset<Packet>)

  datatype Step =
    | StartSender            // process_sender before its loop
    | SenderLoop             // one turn of process_sender's loop
    | StartTimer             // t_start up to its select
    | Timeout(id: int)       // t_start after its select
    | Deliver(pkt: Packet)
    | Drop(pkt: Packet)
    | Duplicate(pkt: Packet)

  /** The state after process_GET and look_at have opened both ends. */
  function Opened(c: Config): State {
    State(Window.Opened(PKT_NUM), false, true, 0, multiset{}, Receiving.Opened(c.blank), multiset{})
  }

  function PacketNumber(c: Config, k: int): Packet
    requires 0 <= k < PKT_NUM
  {
    Data(k + 1, Slice(c.chunk, k))
  }

  /** The guard of process_sender, for a position that the packet array has. */
  predicate MaySend(w: Window.Window) { Window.CanSend(w) && 0 <= w.lastSent < PKT_NUM }

  function Take(s: State, p: Packet): State { s.(net := s.net - multiset{p}) }

  // process_DATA and process_ACK
  function Handled(c: Config, s: State, p: Packet): State {
    match p
    case Data(seqNum, payload) =>
      if !s.inbox.inPool then s
      else
        var r := Receiving.Received(s.inbox, seqNum, payload, c.sha1);
        s.(inbox := r, net := s.net + multiset{Ack(r.lastRcvd)})
    case Ack(n) =>
      if !s.inPool then s
      else s.(window := Window.Acknowledged(s.window, n), inPool := !Window.Finishes(s.window, n))
  }

  function Apply(c: Config, s: State, step: Step): State {
    match step
    case StartSender =>
      if s.started then s
      else s.(window := Window.Armed(s.window), started := true, unstarted := s.unstarted + 1)
    case SenderLoop =>
      if !s.started || !MaySend(s.window) then s
      else s.(window := Window.Sent(s.window),
              unstarted := if Window.Arms(s.window) then s.unstarted + 1 else s.unstarted,
              net := s.net + multiset{PacketNumber(c, s.window.lastSent)})
    case StartTimer =>
      if s.unstarted == 0 then s
      else s.(unstarted := s.unstarted - 1,
              sleeping := if s.window.timerRunning then s.sleeping + multiset{s.window.timerId} else s.sleeping)
    case Timeout(id) =>
      if id !in s.sleeping then s
      else s.(window := Window.TimedOut(s.window, id), sleeping := s.sleeping - multiset{id})
    case Deliver(p) => if p !in s.net then s else Handled(c, Take(s, p), p)
    case Drop(p) => if p !in s.net then s else Take(s, p)
    case Duplicate(p) => if p !in s.net then s else s.(net := s.net + multiset{p})
  }

  function Stepper(c: Config): (State, Step) -> State { (s: State, step: Step) => Apply(c, s, step) }

  /** The state after a schedule that starts in s. */
  function RunFrom(c: Config, s: State, steps: seq<Step>): State { Fold(Stepper(c), s, steps) }

  /** The state after a schedule that starts with the opened connection. */
  function Run(c: Config, steps: seq<Step>): State { RunFrom(c, Opened(c), steps) }

  lemma RunStep(c: Config, s: State, steps: seq<Step>, step: Step)
    ensures RunFrom(c, s, steps + [step]) == Apply(c, RunFrom(c, s, steps), step)
  {
    FoldStep(Stepper(c), s, steps, step);
  }

  lemma RunAppend(c: Config, s: State, steps: seq<Step>, more: seq<Step>)
    ensures RunFrom(c, s, steps + more) == RunFrom(c, RunFrom(c, s, steps), more)
  {
    FoldAppend(Stepper(c), s, steps, more);
  }

  // ---------- The invariant of all runs ----------

  /** DATA packets carry the slice their number names; acknowledgements do not run ahead of the receiver. */
  ghost predicate InFlight(c: Config, p: Packet, lastRcvd: int) {
    match p
    case Data(k, payload) => Receiving.IsSlice(c.chunk, k, payload)
    case Ack(n) => n <= lastRcvd
  }

  ghost predicate NetSound(c: Config, net: multiset<Packet>, lastRcvd: int) {
    forall p :: p in net ==> InFlight(c, p, lastRcvd)
  }

  lemma NetAdd(c: Config, net: multiset<Packet>, lastRcvd: int, p: Packet)
    requires NetSound(c, net, lastRcvd) && InFlight(c, p, lastRcvd)
    ensures NetSound(c, net + multiset{p}, lastRcvd)
  {
    forall q | q in net + multiset{p}
      ensures InFlight(c, q, lastRcvd)
    {
      assert q in net || q == p;
    }
  }

  lemma NetRemove(c: Config, net: multiset<Packet>, lastRcvd: int, p: Packet)
    requires NetSound(c, net, lastRcvd)
    ensures NetSound(c, net - multiset{p}, lastRcvd)
  {
    forall q | q in net - multiset{p}
      ensures InFlight(c, q, lastRcvd)
    {
      assert q in net;
    }
  }

  lemma NetLater(c: Config, net: multiset<Packet>, lastRcvd: int, later: int)
    requires NetSound(c, net, lastRcvd) && lastRcvd <= later
    ensures NetSound(c, net, later)
  {
  }

  /** An acknowledged position: the receiver has it, and it is not the end. */
  ghost predicate Reached(n: int, lastRcvd: int) { 0 <= n <= lastRcvd && n < PKT_NUM }

  ghost predicate AllReached(ids: multiset<int>, lastRcvd: int) { forall id :: id in ids ==> Reached(id, lastRcvd) }

  lemma ReachedLater(ids: multiset<int>, lastRcvd: int, later: int)
    requires AllReached(ids, lastRcvd) && lastRcvd <= later
    ensures AllReached(ids, later)
  {
  }

  lemma ReachedAdd(ids: multiset<int>, lastRcvd: int, id: int)
    requires AllReached(ids, lastRcvd) && Reached(id, lastRcvd)
    ensures AllReached(ids + multiset{id}, lastRcvd)
  {
    forall i | i in ids + multiset{id}
      ensures Reached(i, lastRcvd)
    {
      assert i in ids || i == id;
    }
  }

  lemma ReachedRemove(ids: multiset<int>, lastRcvd: int, id: int)
    requires AllReached(ids, lastRcvd)
    ensures AllReached(ids - multiset{id}, lastRcvd)
  {
    forall i | i in ids - multiset{id}
      ensures Reached(i, lastRcvd)
    {
      assert i in ids;
    }
  }

  ghost predicate Inv(c: Config, s: State) {
    && Receiving.Sound(s.inbox, c.chunk, c.sha1)
    && Window.Sound(s.window) && s.window.pktNum == PKT_NUM
    && Reached(s.window.lastAcked, s.inbox.lastRcvd) && Reached(s.window.timerId, s.inbox.lastRcvd)
    && AllReached(s.sleeping, s.inbox.lastRcvd)
    && NetSound(c, s.net, s.inbox.lastRcvd)
    && (!s.inPool ==> s.inbox.lastRcvd == PKT_NUM)
    && (!s.started ==> s == Opened(c))
  }

  lemma OpenedInv(c: Config)
    ensures Inv(c, Opened(c))
  {
    Window.OpenedSound(PKT_NUM);
    assert Covered(0) == 0;
  }

  lemma HandledInv(c: Config, s: State, p: Packet)
    requires Inv(c, s) && s.started && InFlight(c, p, s.inbox.lastRcvd)
    ensures Inv(c, Handled(c, s, p))
  {
    match p
    case Data(k, payload) =>
      if s.inbox.inPool {
        Receiving.ReceivedSound(s.inbox, c.chunk, c.sha1, k, payload);
        var later := Receiving.Received(s.inbox, k, payload, c.sha1).lastRcvd;
        NetLater(c, s.net, s.inbox.lastRcvd, later);
        NetAdd(c, s.net, later, Ack(later));
        ReachedLater(s.sleeping, s.inbox.lastRcvd, later);
      }
    case Ack(n) => Window.AcknowledgedSound(s.window, n);
  }

  lemma SenderLoopInv(c: Config, s: State)
    requires Inv(c, s)
    ensures Inv(c, Apply(c, s, SenderLoop))
  {
    if s.started && MaySend(s.window) {
      Window.SentSound(s.window);
      NetAdd(c, s.net, s.inbox.lastRcvd, PacketNumber(c, s.window.lastSent));
    }
  }

  lemma TimerInv(c: Config, s: State, step: Step)
    requires Inv(c, s) && (step.StartTimer? || step.Timeout?)
    ensures Inv(c, Apply(c, s, step))
  {
    if step.StartTimer? {
      ReachedAdd(s.sleeping, s.inbox.lastRcvd, s.window.timerId);
    } else if step.id in s.sleeping {
      ReachedRemove(s.sleeping, s.inbox.lastRcvd, step.id);
      Window.RetransmittedSound(s.window, step.id);
    }
  }

  lemma ApplyInv(c: Config, s: State, step: Step)
    requires Inv(c, s)
    ensures Inv(c, Apply(c, s, step))
  {
    match step
    case StartSender =>
    case SenderLoop => SenderLoopInv(c, s);
    case StartTimer => TimerInv(c, s, step);
    case Timeout(_) => TimerInv(c, s, step);
    case Deliver(p) =>
      if p in s.net {
        NetRemove(c, s.net, s.inbox.lastRcvd, p);
        HandledInv(c, Take(s, p), p);
      }
    case Drop(p) => NetRemove(c, s.net, s.inbox.lastRcvd, p);
    case Duplicate(p) =>
      if p in s.net {
        NetAdd(c, s.net, s.inbox.lastRcvd, p);
      }
  }

  lemma {:induction false} RunFromInv(c: Config, s: State, steps: seq<Step>)
    requires Inv(c, s)
    ensures Inv(c, RunFrom(c, s, steps))
  {
    if steps != [] {
      var init, last := steps[..|steps| - 1], steps[|steps| - 1];
      RunFromInv(c, s, init);
      ApplyInv(c, RunFrom(c, s, init), last);
      RunStep(c, s, init, last);
      assert steps == init + [last];
    }
  }

  /** The invariant holds in every run. */
  lemma RunInv(c: Config, steps: seq<Step>)
    ensures Inv(c, Run(c, steps))
  {
    OpenedInv(c);
    RunFromInv(c, Opened(c), steps);
  }
}
