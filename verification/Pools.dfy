/** The pools of open connections of rcv_send.c: a limit, a count and a queue of workers. */
module Pools {
  import opened LinkedQueue

  // A peer, or None for a packet from an address that is not in the peer list.
  type Peer = Option<nat>

  // A sender or a receiver: p_receiver or p_sender, and the rest of the connection.
  datatype Worker<T> = Worker(peer: Peer, conn: T)

  function PeersOf<T>(ws: seq<Worker<T>>): (ps: seq<Peer>)
    ensures |ps| == |ws|
  {
    seq(|ws|, i requires 0 <= i < |ws| => ws[i].peer)
  }

  /** The position of the first worker for peer, or the length if there is none. */
  function FirstAt(ps: seq<Peer>, peer: Peer): (k: nat)
    ensures k <= |ps| && (k < |ps| ==> ps[k] == peer)
    ensures forall i :: 0 <= i < k ==> ps[i] != peer
  {
    if ps == [] || ps[0] == peer then 0 else 1 + FirstAt(ps[1..], peer)
  }

  lemma FirstFound(ps: seq<Peer>, peer: Peer, i: nat)
    requires i <= |ps| && forall j :: 0 <= j < i ==> ps[j] != peer
    requires i < |ps| ==> ps[i] == peer
    ensures FirstAt(ps, peer) == i
  {
  }

  /** What rotating a queue until element k has been taken out leaves. */
  function Without<W>(ws: seq<W>, k: nat): seq<W>
    requires k <= |ws|
  {
    if k == |ws| then ws else ws[k + 1..] + ws[..k]
  }

  function Rotated<W>(ws: seq<W>, i: nat): (r: seq<W>)
    requires i <= |ws|
    ensures |r| == |ws| && (i < |ws| ==> r[0] == ws[i])
  {
    ws[i..] + ws[..i]
  }

  lemma RotateOne<W>(ws: seq<W>, i: nat)
    requires i < |ws|
    ensures Rotated(ws, i)[1..] == Without(ws, i)
    ensures Without(ws, i) + [ws[i]] == Rotated(ws, i + 1)
  {
  }

  lemma PeersWithout<T>(ws: seq<Worker<T>>, k: nat)
    requires k <= |ws|
    ensures PeersOf(Without(ws, k)) == Without(PeersOf(ws), k)
  {
  }

  lemma PeersAppend<T>(ws: seq<Worker<T>>, worker: Worker<T>)
    ensures PeersOf(ws + [worker]) == PeersOf(ws) + [worker.peer]
  {
  }

  class Pool<T> {
    const maxNum: nat
    var curNum: int
    const workers: Queue<Worker<T>>

    ghost predicate Valid()
      reads this, workers, workers.chain
    {
      workers.Valid() && curNum == |workers.Contents()| <= maxNum
    }

    ghost function Peers(): seq<Peer>
      reads this, workers, workers.chain
    {
      PeersOf(workers.Contents())
    }

    // init_sender_pool and init_receiver_pool
    constructor (max: nat)
      ensures Valid() && workers.Contents() == [] && fresh(workers) && maxNum == max
    {
      maxNum, curNum := max, 0;
      workers := new Queue();
    }

    // get_sender and get_receiver
    method Get(peer: Peer) returns (worker: Option<Worker<T>>)
      requires Valid()
      ensures var k := FirstAt(Peers(), peer);
              worker == if peer == None || k == |Peers()| then None else Some(workers.Contents()[k])
    {
      if peer == None {
        return None;
      }
      var cur := workers.head;
      ghost var i := 0;
      while cur != null
        invariant 0 <= i <= |workers.chain|
        invariant if cur == null then i == |workers.chain| else i < |workers.chain| && cur == workers.chain[i]
        invariant forall j :: 0 <= j < i ==> Peers()[j] != peer
        decreases |workers.chain| - i
      {
        assert workers.Contents()[i] == cur.data && Peers()[i] == cur.data.peer;
        if cur.data.peer == peer {
          FirstFound(Peers(), peer, i);
          return Some(cur.data);
        }
        assert i + 1 < workers.n ==> cur.next == workers.chain[i + 1];
        cur, i := cur.next, i + 1;
      }
      FirstFound(Peers(), peer, i);
      return None;
    }

    // The end of add_sender and add_receiver
    method Add(worker: Worker<T>) returns (added: bool)
      requires Valid()
      modifies this, workers, workers.tail
      ensures Valid() && added == (|old(workers.Contents())| < maxNum)
      ensures workers.tail == old(workers.tail) || fresh(workers.tail)
      ensures workers.Contents() == old(workers.Contents()) + if added then [worker] else []
    {
      if curNum >= maxNum {
        return false;
      }
      workers.Enqueue(worker);
      curNum := curNum + 1;
      return true;
    }

    // remove_sender and remove_receiver
    method Remove(peer: Peer)
      requires Valid()
      modifies this, workers, workers.tail
      ensures Valid()
      ensures workers.tail == null || workers.tail == old(workers.tail) || fresh(workers.tail)
      ensures workers.Contents() == Without(old(workers.Contents()), FirstAt(old(Peers()), peer))
    {
      var found := RotateOut(workers, curNum, peer);
      if found {
        curNum := curNum - 1;
      }
    }
  }

  /** One turn of the loop of remove_sender and remove_receiver: the head of the queue is taken out and, unless
      it is the worker for peer, put back at the end. */
  method TurnHead<T>(workers: Queue<Worker<T>>, peer: Peer) returns (found: bool)
    requires workers.Valid() && workers.Contents() != []
    modifies workers, workers.tail
    ensures workers.Valid()
    ensures workers.tail == null || workers.tail == old(workers.tail) || fresh(workers.tail)
    ensures var ws := old(workers.Contents());
            && found == (ws[0].peer == peer)
            && workers.Contents() == if found then ws[1..] else ws[1..] + [ws[0]]
  {
    var cur := workers.Dequeue();
    found := cur.value.peer == peer;
    if !found {
      workers.Enqueue(cur.value);
    }
  }

  /** The turn at worker i, on a queue that has been rotated i times. */
  method TurnAt<T>(workers: Queue<Worker<T>>, peer: Peer, ghost ws: seq<Worker<T>>, ghost i: nat)
    returns (found: bool)
    requires i < |ws| && workers.Valid() && workers.Contents() == Rotated(ws, i)
    modifies workers, workers.tail
    ensures workers.Valid()
    ensures workers.tail == null || workers.tail == old(workers.tail) || fresh(workers.tail)
    ensures found == (ws[i].peer == peer)
    ensures workers.Contents() == if found then Without(ws, i) else Rotated(ws, i + 1)
  {
    RotateOne(ws, i);
    found := TurnHead(workers, peer);
  }

  /** The loop of remove_sender and remove_receiver over n workers; k is the position of the worker for peer. */
  method RotateTo<T>(workers: Queue<Worker<T>>, n: nat, peer: Peer, ghost ws: seq<Worker<T>>, ghost k: nat)
    returns (found: bool)
    requires workers.Valid() && ws == workers.Contents() && n == |ws| && k <= n
    requires k < n ==> ws[k].peer == peer
    requires forall i :: 0 <= i < k ==> ws[i].peer != peer
    modifies workers, workers.tail
    ensures workers.Valid()
    ensures workers.tail == null || workers.tail == old(workers.tail) || fresh(workers.tail)
    ensures workers.Contents() == Without(ws, k) && (found <==> k < n)
  {
    assert Rotated(ws, 0) == ws;
    for i := 0 to n
      invariant i <= k
      invariant workers.Valid() && workers.Contents() == Rotated(ws, i)
      invariant workers.tail == null || workers.tail == old(workers.tail) || fresh(workers.tail)
    {
      found := TurnAt(workers, peer, ws, i);
      if found {
        return;
      }
    }
    assert Rotated(ws, n) == Without(ws, n);
    found := false;
  }

  method RotateOut<T>(workers: Queue<Worker<T>>, n: nat, peer: Peer) returns (found: bool)
    requires workers.Valid() && n == |workers.Contents()|
    modifies workers, workers.tail
    ensures workers.Valid()
    ensures workers.tail == null || workers.tail == old(workers.tail) || fresh(workers.tail)
    ensures var k := FirstAt(PeersOf(old(workers.Contents())), peer);
            workers.Contents() == Without(old(workers.Contents()), k) && (found <==> k < n)
  {
    ghost var ws := workers.Contents();
    ghost var k := FirstAt(PeersOf(ws), peer);
    assert forall i :: 0 <= i < n ==> PeersOf(ws)[i] == ws[i].peer;
    found := RotateTo(workers, n, peer, ws, k);
  }
}
