/** The handlers that open and close connections, and what every run of them keeps true of a pool. */
module Connections {
  import opened LinkedQueue
  import opened Chunking
  import opened Endpoints
  import opened Pools
  import Runs
  import Window

  // What process_GET does: nothing, refuse with DENIED, or start a sender.
  datatype Reply = Busy | Denied | Started

  // The events that change a pool; finished says whether the peer's sender has sent its last packet.
  datatype Event = Get(peer: Peer, finished: bool) | Finish(peer: Peer) | Look(holders: seq<Peer>)

  predicate Connected(ps: seq<Peer>, peer: Peer) {
    peer != None && FirstAt(ps, peer) < |ps|
  }

  function Removed(ps: seq<Peer>, peer: Peer): seq<Peer> {
    if Connected(ps, peer) then Without(ps, FirstAt(ps, peer)) else ps
  }

  /** The workers that stay when the peer's worker is removed. */
  function Remaining<T>(ws: seq<Worker<T>>, peer: Peer): seq<Worker<T>> {
    if Connected(PeersOf(ws), peer) then Without(ws, FirstAt(PeersOf(ws), peer)) else ws
  }

  function Answer(maxNum: nat, ps: seq<Peer>, peer: Peer, finished: bool): Reply {
    if Connected(ps, peer) && !finished then Busy
    else if |Removed(ps, peer)| >= maxNum then Denied
    else Started
  }

  function Got(maxNum: nat, ps: seq<Peer>, peer: Peer, finished: bool): seq<Peer> {
    if Connected(ps, peer) && !finished then ps
    else
      var rest := Removed(ps, peer);
      if |rest| >= maxNum then rest else rest + [peer]
  }

  /** The position of the first holder that is unknown or has no connection, or the length if there is none. */
  function FirstFree(ps: seq<Peer>, holders: seq<Peer>): (k: nat)
    ensures k <= |holders| && (k < |holders| ==> !Connected(ps, holders[k]))
    ensures forall i :: 0 <= i < k ==> Connected(ps, holders[i])
  {
    if holders == [] || !Connected(ps, holders[0]) then 0 else 1 + FirstFree(ps, holders[1..])
  }

  /** The peer that look_at asks. */
  function Pick(ps: seq<Peer>, holders: seq<Peer>): Peer {
    var k := FirstFree(ps, holders);
    if k < |holders| then holders[k] else None
  }

  function Looked(maxNum: nat, ps: seq<Peer>, holders: seq<Peer>): seq<Peer> {
    var peer := Pick(ps, holders);
    if |ps| >= maxNum || peer == None then ps else ps + [peer]
  }

  function Next(maxNum: nat, ps: seq<Peer>, event: Event): seq<Peer> {
    match event
    case Get(peer, finished) => Got(maxNum, ps, peer, finished)
    case Finish(peer) => Removed(ps, peer)
    case Look(holders) => Looked(maxNum, ps, holders)
  }

  function Stepper(maxNum: nat): (seq<Peer>, Event) -> seq<Peer> {
    (ps, event) => Next(maxNum, ps, event)
  }

  function Run(maxNum: nat, events: seq<Event>): seq<Peer> {
    Runs.Fold(Stepper(maxNum), [], events)
  }

  /** No more workers than the pool allows, and at most one for each known peer. */
  predicate InBounds(maxNum: nat, ps: seq<Peer>) {
    |ps| <= maxNum && forall i, j :: 0 <= i < j < |ps| && ps[i] == ps[j] ==> ps[i] == None
  }

  lemma NotConnected(ps: seq<Peer>, peer: Peer)
    requires peer != None
    ensures Connected(ps, peer) <==> peer in ps
  {
  }

  /** Rotating a worker out loses that worker and no other. */
  lemma WithoutIsOneLess(ps: seq<Peer>, k: nat)
    requires k < |ps|
    ensures multiset(Without(ps, k)) == multiset(ps) - multiset{ps[k]}
    ensures |Without(ps, k)| == |ps| - 1
  {
    assert ps == ps[..k] + [ps[k]] + ps[k + 1..];
  }

  lemma RemovedInBounds(maxNum: nat, ps: seq<Peer>, peer: Peer)
    requires InBounds(maxNum, ps)
    ensures InBounds(maxNum, Removed(ps, peer)) && (peer != None ==> peer !in Removed(ps, peer))
    ensures Connected(ps, peer) ==> |Removed(ps, peer)| < maxNum
  {
  }

  lemma NextInBounds(maxNum: nat, ps: seq<Peer>, event: Event)
    requires InBounds(maxNum, ps)
    ensures InBounds(maxNum, Next(maxNum, ps, event))
  {
    match event
    case Get(peer, finished) => RemovedInBounds(maxNum, ps, peer);
    case Finish(peer) => RemovedInBounds(maxNum, ps, peer);
    case Look(holders) =>
      var peer := Pick(ps, holders);
      if peer != None {
        NotConnected(ps, peer);
      }
  }

  lemma {:induction false} RunInBounds(maxNum: nat, events: seq<Event>)
    ensures InBounds(maxNum, Run(maxNum, events))
  {
    if events != [] {
      RunInBounds(maxNum, events[..|events| - 1]);
      NextInBounds(maxNum, Run(maxNum, events[..|events| - 1]), events[|events| - 1]);
    }
  }

  /** DENIED goes exactly to a peer without a connection when the pool is full. */
  lemma DeniedWhenFull(maxNum: nat, ps: seq<Peer>, peer: Peer, finished: bool)
    requires InBounds(maxNum, ps)
    ensures Answer(maxNum, ps, peer, finished) == Denied <==> !Connected(ps, peer) && |ps| == maxNum
    ensures Answer(maxNum, ps, peer, finished) == Started && peer != None ==>
            Connected(Got(maxNum, ps, peer, finished), peer)
  {
    RemovedInBounds(maxNum, ps, peer);
    if peer != None {
      NotConnected(Got(maxNum, ps, peer, finished), peer);
    }
  }

  /** A GET from a peer whose sender has not sent everything changes nothing; any other leaves the workers for all other
      peers in the pool. */
  lemma GetKeepsOthers(maxNum: nat, ps: seq<Peer>, peer: Peer, finished: bool, other: Peer)
    ensures peer != None && peer in ps && !finished ==> Next(maxNum, ps, Get(peer, finished)) == ps
    ensures other != peer && other in ps ==> other in Next(maxNum, ps, Get(peer, finished))
  {
    if Connected(ps, peer) {
      WithoutIsOneLess(ps, FirstAt(ps, peer));
      assert multiset(ps)[other] > 0 <==> other in ps;
    } else if peer != None {
      NotConnected(ps, peer);
    }
  }

  /** Nothing has ended the peer's connection: its sender had not sent everything when a GET came from it. */
  predicate NeverEnds(peer: Peer, events: seq<Event>) {
    forall i :: 0 <= i < |events| ==> events[i] != Finish(peer) && events[i] != Get(peer, true)
  }

  lemma StaysNext(maxNum: nat, ps: seq<Peer>, peer: Peer, event: Event)
    requires peer != None && peer in ps && event != Finish(peer) && event != Get(peer, true)
    ensures peer in Next(maxNum, ps, event)
  {
    match event
    case Get(p, finished) => GetKeepsOthers(maxNum, ps, p, finished, peer);
    case Finish(p) =>
      if Connected(ps, p) {
        WithoutIsOneLess(ps, FirstAt(ps, p));
        assert multiset(ps)[peer] > 0;
      }
    case Look(_) =>
  }

  lemma Rejoined(events: seq<Event>, more: seq<Event>)
    requires more != []
    ensures events + more == events + more[..|more| - 1] + [more[|more| - 1]]
  {
  }

  lemma RunStays(maxNum: nat, events: seq<Event>, peer: Peer, event: Event)
    requires peer != None && peer in Run(maxNum, events) && event != Finish(peer) && event != Get(peer, true)
    ensures peer in Run(maxNum, events + [event])
  {
    StaysNext(maxNum, Run(maxNum, events), peer, event);
    Runs.FoldStep(Stepper(maxNum), [], events, event);
  }

  /** In every run a connection lasts until its own end, whatever the others do. */
  lemma {:induction false} ConnectionLasts(maxNum: nat, events: seq<Event>, more: seq<Event>, peer: Peer)
    requires peer != None && peer in Run(maxNum, events) && NeverEnds(peer, more)
    ensures peer in Run(maxNum, events + more)
  {
    if more == [] {
      assert events + more == events;
    } else {
      Rejoined(events, more);
      ConnectionLasts(maxNum, events, more[..|more| - 1], peer);
      RunStays(maxNum, events + more[..|more| - 1], peer, more[|more| - 1]);
    }
  }

  predicate AtMostOnce(ps: seq<Peer>, peer: Peer) {
    forall i, j :: 0 <= i < j < |ps| ==> ps[i] != peer || ps[j] != peer
  }

  /** Two packets from addresses outside the peer list get two workers for no peer. */
  lemma UnknownPeersRepeat(maxNum: nat)
    requires maxNum >= 2
    ensures Run(maxNum, [Get(None, false), Get(None, false)]) == [None, None]
  {
    var once := [Get(None, false)];
    assert Run(maxNum, []) == [];
    Runs.FoldStep(Stepper(maxNum), [], [], Get(None, false));
    assert [] + once == once;
    assert Run(maxNum, once) == [None];
    Runs.FoldStep(Stepper(maxNum), [], once, Get(None, false));
    assert once + [Get(None, false)] == [Get(None, false), Get(None, false)];
  }

  /** No run has two workers for a peer, if and only if the peer is known or the pool holds one worker only. */
  lemma OneWorkerEach(maxNum: nat, peer: Peer)
    ensures (forall events :: AtMostOnce(Run(maxNum, events), peer)) <==> peer != None || maxNum <= 1
  {
    if peer != None || maxNum <= 1 {
      forall events ensures AtMostOnce(Run(maxNum, events), peer) {
        RunInBounds(maxNum, events);
      }
    } else {
      UnknownPeersRepeat(maxNum);
      var events := [Get(None, false), Get(None, false)];
      assert Run(maxNum, events)[0] == peer && Run(maxNum, events)[1] == peer;
      assert !AtMostOnce(Run(maxNum, events), peer);
    }
  }

  /** The sender that get_sender finds. */
  ghost function SenderOf(pool: Pool<Sender>, peer: Peer): Option<Sender>
    reads pool, pool.workers, pool.workers.chain
  {
    if Connected(pool.Peers(), peer) then Some(pool.workers.Contents()[FirstAt(pool.Peers(), peer)].conn) else None
  }

  /** What a handler may change of it. */
  ghost function SenderParts(pool: Pool<Sender>, peer: Peer): set<object>
    reads pool, pool.workers, pool.workers.chain
  {
    match SenderOf(pool, peer)
    case None => {}
    case Some(sdr) => {sdr, sdr.timer}
  }

  ghost function TimerOf(pool: Pool<Sender>, peer: Peer): set<object>
    reads pool, pool.workers, pool.workers.chain
  {
    match SenderOf(pool, peer)
    case None => {}
    case Some(sdr) => {sdr.timer}
  }

  /** Its state; any other if there is none. */
  ghost function StateOf(pool: Pool<Sender>, peer: Peer): Window.Window
    reads pool, pool.workers, pool.workers.chain, SenderParts(pool, peer)
  {
    match SenderOf(pool, peer)
    case None => Window.Opened(0)
    case Some(sdr) => sdr.State()
  }

  /** The peer has a connection whose sender has sent its last packet. */
  ghost predicate HasFinished(pool: Pool<Sender>, peer: Peer)
    reads pool, pool.workers, pool.workers.chain, SenderParts(pool, peer)
  {
    match SenderOf(pool, peer)
    case None => false
    case Some(sdr) => sdr.lastSent == sdr.pktNum
  }

  /** The acknowledgement is one of everything, and the peer's sender has sent everything. */
  ghost predicate EndsWith(pool: Pool<Sender>, peer: Peer, ack: nat)
    reads pool, pool.workers, pool.workers.chain, SenderParts(pool, peer)
  {
    match SenderOf(pool, peer)
    case None => false
    case Some(sdr) => ack >= sdr.pktNum && sdr.lastSent >= sdr.pktNum
  }

  /** The peer has a connection whose sender has not sent everything. */
  ghost predicate IsBusy(pool: Pool<Sender>, peer: Peer)
    reads pool, pool.workers, pool.workers.chain, SenderParts(pool, peer)
  {
    match SenderOf(pool, peer)
    case None => false
    case Some(sdr) => sdr.lastSent != sdr.pktNum
  }

  ghost predicate IsUnfinished(worker: Worker<Sender>)
    reads worker.conn
  {
    worker.conn.lastSent != worker.conn.pktNum
  }

  /** Removal, as it changes the peers. */
  method Drop<T>(pool: Pool<T>, peer: Peer)
    requires pool.Valid()
    modifies pool, pool.workers, pool.workers.tail
    ensures pool.Valid() && pool.Peers() == Without(old(pool.Peers()), FirstAt(old(pool.Peers()), peer))
    ensures pool.workers.Contents() == Without(old(pool.workers.Contents()), FirstAt(old(pool.Peers()), peer))
    ensures pool.workers.tail == null || pool.workers.tail == old(pool.workers.tail) || fresh(pool.workers.tail)
  {
    ghost var ws := pool.workers.Contents();
    pool.Remove(peer);
    PeersWithout(ws, FirstAt(PeersOf(ws), peer));
  }

  // remove_sender
  method Close(pool: Pool<Sender>, peer: Peer, sdr: Sender)
    requires pool.Valid()
    modifies pool, pool.workers, pool.workers.tail, sdr.timer
    ensures pool.Valid() && pool.Peers() == Without(old(pool.Peers()), FirstAt(old(pool.Peers()), peer))
    ensures pool.workers.Contents() == Without(old(pool.workers.Contents()), FirstAt(old(pool.Peers()), peer))
    ensures sdr.State() == old(sdr.State()).(timerRunning := false)
    ensures pool.workers.tail == null || pool.workers.tail == old(pool.workers.tail) || fresh(pool.workers.tail)
  {
    Drop(pool, peer);
    sdr.timer.running := false;
  }

  /** The first half of process_GET: a finished connection to the peer is closed. */
  method Release(pool: Pool<Sender>, peer: Peer) returns (busy: bool, ghost finished: bool)
    requires pool.Valid()
    modifies pool, pool.workers, pool.workers.tail, TimerOf(pool, peer)
    ensures pool.Valid()
    ensures pool.workers.tail == null || pool.workers.tail == old(pool.workers.tail) || fresh(pool.workers.tail)
    ensures finished == old(HasFinished(pool, peer)) && busy == (Connected(old(pool.Peers()), peer) && !finished)
    ensures pool.Peers() == if busy then old(pool.Peers()) else Removed(old(pool.Peers()), peer)
    ensures pool.workers.Contents() ==
            if busy then old(pool.workers.Contents()) else Remaining(old(pool.workers.Contents()), peer)
    ensures old(SenderOf(pool, peer)).Some? ==>
              old(SenderOf(pool, peer)).value.State()
              == if finished then old(StateOf(pool, peer)).(timerRunning := false) else old(StateOf(pool, peer))
  {
    var found := pool.Get(peer);
    if found.Some? {
      if found.value.conn.lastSent != found.value.conn.pktNum {
        return true, false;
      }
      Close(pool, peer, found.value.conn);
      return false, true;
    }
    return false, false;
  }

  method Open<T>(pool: Pool<T>, worker: Worker<T>) returns (added: bool)
    requires pool.Valid()
    modifies pool, pool.workers, pool.workers.tail
    ensures pool.Valid() && added == (|old(pool.Peers())| < pool.maxNum)
    ensures pool.Peers() == old(pool.Peers()) + if added then [worker.peer] else []
    ensures pool.workers.Contents() == old(pool.workers.Contents()) + if added then [worker] else []
  {
    PeersAppend(pool.workers.Contents(), worker);
    added := pool.Add(worker);
  }

  /** The worker that process_GET adds, if it starts a sender. */
  ghost function Added(reply: Reply, peer: Peer, sdr: Sender?): seq<Worker<Sender>>
    requires reply == Started ==> sdr != null
  {
    if reply == Started then var sender: Sender := sdr; [Worker(peer, sender)] else []
  }

  /** The second half of process_GET. */
  method Accept(pool: Pool<Sender>, peer: Peer, pkts: seq<DataPacket>) returns (reply: Reply, sdr: Sender?)
    requires pool.Valid()
    modifies pool, pool.workers, pool.workers.tail
    ensures pool.Valid() && reply == if |old(pool.Peers())| >= pool.maxNum then Denied else Started
    ensures pool.Peers() == old(pool.Peers()) + if reply == Started then [peer] else []
    ensures if reply == Started then fresh(sdr) && fresh(sdr.timer) && sdr.State() == Window.Opened(|pkts|)
            else sdr == null
    ensures pool.workers.Contents() == old(pool.workers.Contents()) + Added(reply, peer, sdr)
  {
    if pool.curNum >= pool.maxNum {
      return Denied, null;
    }
    var sender := new Sender(pkts);
    var added := Open(pool, Worker(peer, sender));
    return Started, sender;
  }

  /** The second half once more: the senders that are there stay as they are. */
  method AcceptBeside(pool: Pool<Sender>, peer: Peer, pkts: seq<DataPacket>, ghost other: Option<Sender>)
    returns (reply: Reply, sdr: Sender?)
    requires pool.Valid()
    modifies pool, pool.workers, pool.workers.tail
    ensures pool.Valid() && reply == if |old(pool.Peers())| >= pool.maxNum then Denied else Started
    ensures pool.Peers() == old(pool.Peers()) + if reply == Started then [peer] else []
    ensures if reply == Started then fresh(sdr) && fresh(sdr.timer) && sdr.State() == Window.Opened(|pkts|)
            else sdr == null
    ensures pool.workers.Contents() == old(pool.workers.Contents()) + Added(reply, peer, sdr)
    ensures other.Some? ==> other.value.State() == old(other.value.State())
  {
    reply, sdr := Accept(pool, peer, pkts);
  }

  lemma AfterRelease(maxNum: nat, ps: seq<Peer>, peer: Peer, finished: bool, reply: Reply)
    requires !(Connected(ps, peer) && !finished)
    requires reply == if |Removed(ps, peer)| >= maxNum then Denied else Started
    ensures reply == Answer(maxNum, ps, peer, finished)
    ensures Removed(ps, peer) + (if reply == Started then [peer] else []) == Got(maxNum, ps, peer, finished)
  {
  }

  /** Both halves of process_GET. */
  method Serve(pool: Pool<Sender>, peer: Peer, pkts: seq<DataPacket>)
    returns (reply: Reply, sdr: Sender?, ghost finished: bool)
    requires pool.Valid()
    modifies pool, pool.workers, pool.workers.tail, TimerOf(pool, peer)
    ensures pool.Valid()
    ensures finished == old(HasFinished(pool, peer))
    ensures reply == Answer(pool.maxNum, old(pool.Peers()), peer, finished)
    ensures pool.Peers() == Got(pool.maxNum, old(pool.Peers()), peer, finished)
    ensures if reply == Started then fresh(sdr) && fresh(sdr.timer) && sdr.State() == Window.Opened(|pkts|)
            else sdr == null
    ensures pool.workers.Contents() ==
            if reply == Busy then old(pool.workers.Contents())
            else Remaining(old(pool.workers.Contents()), peer) + Added(reply, peer, sdr)
    ensures old(SenderOf(pool, peer)).Some? ==>
              old(SenderOf(pool, peer)).value.State()
              == if finished then old(StateOf(pool, peer)).(timerRunning := false) else old(StateOf(pool, peer))
  {
    ghost var ws, ps, r := pool.workers.Contents(), pool.Peers(), SenderOf(pool, peer);
    var busy;
    busy, finished := Release(pool, peer);
    if busy {
      return Busy, null, finished;
    }
    assert pool.workers.Contents() == Remaining(ws, peer) && pool.Peers() == Removed(ps, peer);
    reply, sdr := AcceptBeside(pool, peer, pkts, r);
    AfterRelease(pool.maxNum, ps, peer, finished, reply);
  }

  /** process_GET; pkts are the packets of the chunk that the GET asks for. */
  method ProcessGet(pool: Pool<Sender>, peer: Peer, pkts: seq<DataPacket>)
    returns (reply: Reply, sdr: Sender?, ghost finished: bool)
    requires pool.Valid()
    modifies pool, pool.workers, pool.workers.tail, TimerOf(pool, peer)
    ensures pool.Valid()
    ensures finished == old(HasFinished(pool, peer))
    ensures reply == Answer(pool.maxNum, old(pool.Peers()), peer, finished)
    ensures pool.Peers() == Next(pool.maxNum, old(pool.Peers()), Get(peer, finished))
    ensures old(IsBusy(pool, peer)) ==>
              reply == Busy && sdr == null && pool.workers.Contents() == old(pool.workers.Contents())
    ensures forall worker :: worker in old(pool.workers.Contents()) && old(IsUnfinished(worker)) ==>
              worker in pool.workers.Contents()
    ensures reply == Started ==> fresh(sdr) && fresh(sdr.timer) && sdr.State() == Window.Opened(|pkts|)
    ensures pool.workers.Contents() ==
            if reply == Busy then old(pool.workers.Contents())
            else Remaining(old(pool.workers.Contents()), peer) + Added(reply, peer, sdr)
    ensures old(SenderOf(pool, peer)).Some? ==>
              old(SenderOf(pool, peer)).value.State()
              == if finished then old(StateOf(pool, peer)).(timerRunning := false) else old(StateOf(pool, peer))
  {
    reply, sdr, finished := Serve(pool, peer, pkts);
  }

  /** process_ACK for the sender that get_sender has found. */
  method AckWorker(pool: Pool<Sender>, peer: Peer, sdr: Sender, ack: nat)
    requires pool.Valid() && SenderOf(pool, peer) == Some(sdr)
    modifies pool, pool.workers, pool.workers.tail, sdr, sdr.timer
    ensures pool.Valid() && sdr.State() == Window.Acknowledged(old(sdr.State()), ack)
    ensures pool.Peers() ==
            if ack >= sdr.pktNum && old(sdr.lastSent) >= sdr.pktNum
            then Removed(old(pool.Peers()), peer) else old(pool.Peers())
    ensures pool.workers.Contents() ==
            if ack >= sdr.pktNum && old(sdr.lastSent) >= sdr.pktNum
            then Remaining(old(pool.workers.Contents()), peer) else old(pool.workers.Contents())
  {
    var finished := sdr.ProcessAck(ack);
    if finished {
      Close(pool, peer, sdr);
    }
  }

  /** process_ACK: the peer's sender takes the acknowledgement, and leaves the pool if that ends its connection. */
  method ProcessAck(pool: Pool<Sender>, peer: Peer, ack: nat)
    requires pool.Valid()
    modifies pool, pool.workers, pool.workers.tail, SenderParts(pool, peer)
    ensures pool.Valid()
    ensures pool.Peers() ==
            if old(EndsWith(pool, peer, ack))
            then Next(pool.maxNum, old(pool.Peers()), Finish(peer)) else old(pool.Peers())
    ensures pool.workers.Contents() ==
            if old(EndsWith(pool, peer, ack))
            then Remaining(old(pool.workers.Contents()), peer) else old(pool.workers.Contents())
    ensures old(SenderOf(pool, peer)).Some? ==>
              old(SenderOf(pool, peer)).value.State() == Window.Acknowledged(old(StateOf(pool, peer)), ack)
  {
    ghost var sdr, before, ws := SenderOf(pool, peer), StateOf(pool, peer), pool.workers.Contents();
    ghost var ends := EndsWith(pool, peer, ack);
    var found := pool.Get(peer);
    if found.Some? {
      assert ends == EndsWith(pool, peer, ack);
      assert sdr == Some(found.value.conn) && before == found.value.conn.State() && ws == pool.workers.Contents();
      AckWorker(pool, peer, found.value.conn, ack);
    }
  }
}
