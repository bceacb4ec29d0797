/** The receiving side's handlers over the pool of receivers and the two queues of chunks: process_DATA and look_at. */
module Downloads {
  import opened LinkedQueue
  import opened Chunking
  import opened Endpoints
  import opened Pools
  import opened Connections
  import HashLists
  import Receiving
  import Tracker

  // ---------- process_DATA ----------

  /** update_state finds the chunk, and not another one with the same hash. */
  ghost predicate Finds(down: Queue<DownloadChunk>, chunk: DownloadChunk)
    reads down, down.chain, down.Contents()
  {
    var k := Tracker.FirstWith(Tracker.Entries(down.Contents()), chunk.sha1);
    k < |down.Contents()| && down.Contents()[k] == chunk
  }

  /** update_state finds the chunk, or the chunk is finished and has been scanned away. */
  ghost predicate FirstOrDone(down: Queue<DownloadChunk>, chunk: DownloadChunk)
    reads down, down.chain, down.Contents(), chunk
  {
    Finds(down, chunk) || (chunk.state == Receiving.FINISHED && chunk !in down.Contents())
  }

  /** The workers of the pool after process_DATA for the peer's receiver. */
  function WorkersAfter<T>(ws: seq<Worker<T>>, peer: Peer, taken: Receiving.Inbox): seq<Worker<T>> {
    if Receiving.IsFull(taken) then Remaining(ws, peer) else ws
  }

  function Verdict(data: Chunk, sha1: HashLists.Hash): Receiving.ChunkState {
    if Receiving.Checks(data, sha1) then Receiving.FINISHED else Receiving.READY
  }

  /** The peers of the pool after process_DATA for the peer's receiver: the event that ends the connection, or none. */
  function PeersAfter(maxNum: nat, ps: seq<Peer>, peer: Peer, taken: Receiving.Inbox): seq<Peer> {
    if Receiving.IsFull(taken) then Next(maxNum, ps, Finish(peer)) else ps
  }

  /** The chunks of the queue after process_DATA for a receiver of a chunk with the hash. */
  function EntriesAfter(es: seq<Tracker.Entry>, sha1: HashLists.Hash, taken: Receiving.Inbox): seq<Tracker.Entry> {
    if Receiving.IsFull(taken) then Tracker.Updated(es, sha1, Verdict(taken.data, sha1)) else es
  }

  /** The pool and the queue of chunks are as process_DATA leaves them for a receiver of a chunk with the hash, which
      then has taken, where before they held the workers ws and the entries es. */
  ghost predicate QueuesAfter(pool: Pool<Receiver>, down: Queue<DownloadChunk>, peer: Peer, sha1: HashLists.Hash,
                              taken: Receiving.Inbox, ws: seq<Worker<Receiver>>, es: seq<Tracker.Entry>)
    reads pool, pool.workers, pool.workers.chain, down, down.chain, down.Contents()
  {
    && pool.Peers() == PeersAfter(pool.maxNum, PeersOf(ws), peer, taken)
    && pool.workers.Contents() == WorkersAfter(ws, peer, taken)
    && Tracker.Entries(down.Contents()) == EntriesAfter(es, sha1, taken)
  }

  /** The receiver is as process_DATA leaves it: with the packet taken, and if its chunk is first or done exactly as in
      a connection on its own. */
  ghost predicate ReceiverAfter(rcvr: Receiver, before: Receiving.Inbox, seqNum: nat, payload: seq<bv8>,
                                firstOrDone: bool)
    requires rcvr.chunk.data.Length == CHUNK_SIZE
    reads rcvr, rcvr.chunk, rcvr.chunk.data
  {
    var taken := Receiving.Taken(before, seqNum, payload);
    var received := Receiving.Received(before, seqNum, payload, rcvr.chunk.sha1);
    && rcvr.State(true).(state := taken.state) == taken
    && (firstOrDone ==> rcvr.State(received.inPool) == received)
  }

  /** update_state, which leaves the pool alone. */
  method Mark(pool: Pool<Receiver>, down: Queue<DownloadChunk>, sha1: HashLists.Hash, state: Receiving.ChunkState)
    requires pool.Valid() && down.Valid() && Tracker.AreDistinct(down.Contents())
    modifies down.Contents()
    ensures pool.Valid() && pool.Peers() == old(pool.Peers())
    ensures pool.workers.Contents() == old(pool.workers.Contents())
    ensures down.Valid() && down.Contents() == old(down.Contents())
    ensures Tracker.Entries(down.Contents()) == Tracker.Updated(old(Tracker.Entries(down.Contents())), sha1, state)
  {
    ghost var ws := pool.workers.Contents();
    Tracker.UpdateState(down, sha1, state);
    assert pool.workers.Contents() == ws;
  }

  /** check_chunk and update_state at the end of process_DATA. */
  method Judge(pool: Pool<Receiver>, down: Queue<DownloadChunk>, chunk: DownloadChunk)
    requires pool.Valid() && down.Valid() && Tracker.AreDistinct(down.Contents())
    requires chunk.data.Length == CHUNK_SIZE
    modifies down.Contents()
    ensures pool.Valid() && pool.Peers() == old(pool.Peers())
    ensures pool.workers.Contents() == old(pool.workers.Contents())
    ensures down.Valid() && down.Contents() == old(down.Contents()) && chunk.data[..] == old(chunk.data[..])
    ensures Tracker.Entries(down.Contents())
            == Tracker.Updated(old(Tracker.Entries(down.Contents())), chunk.sha1, Verdict(chunk.data[..], chunk.sha1))
  {
    var ok := chunk.Check();
    Mark(pool, down, chunk.sha1, if ok then Receiving.FINISHED else Receiving.READY);
  }

  /** remove_receiver; the queue of chunks is another one than the pool's. */
  method Leave(pool: Pool<Receiver>, down: Queue<DownloadChunk>, peer: Peer)
    requires pool.Valid() && down.Valid() && Connected(pool.Peers(), peer)
    modifies pool, pool.workers, pool.workers.tail
    ensures pool.Valid() && down.Valid() && down.Contents() == old(down.Contents())
    ensures pool.Peers() == Removed(old(pool.Peers()), peer)
    ensures pool.workers.Contents() == Remaining(old(pool.workers.Contents()), peer)
    ensures Tracker.Entries(down.Contents()) == old(Tracker.Entries(down.Contents()))
  {
    Drop(pool, peer);
  }

  /** The receiver's chunk counts as update_state has left it. */
  lemma StateFound(down: Queue<DownloadChunk>, chunk: DownloadChunk, es: seq<Tracker.Entry>, k: nat,
                   state: Receiving.ChunkState)
    requires k < |down.Contents()| == |es| && down.Contents()[k] == chunk && k == Tracker.FirstWith(es, chunk.sha1)
    requires Tracker.Entries(down.Contents()) == Tracker.Updated(es, chunk.sha1, state)
    ensures chunk.state == Receiving.Forward(es[k].state, state)
  {
    assert Tracker.Entries(down.Contents())[k].state == chunk.state;
  }

  /** The end of process_DATA for a receiver that has everything. */
  method Complete(pool: Pool<Receiver>, down: Queue<DownloadChunk>, peer: Peer, chunk: DownloadChunk)
    requires pool.Valid() && down.Valid() && Tracker.AreDistinct(down.Contents())
    requires chunk.data.Length == CHUNK_SIZE && Connected(pool.Peers(), peer)
    modifies pool, pool.workers, pool.workers.tail, down.Contents()
    ensures pool.Valid() && down.Valid() && down.Contents() == old(down.Contents())
    ensures pool.Peers() == Removed(old(pool.Peers()), peer)
    ensures pool.workers.Contents() == Remaining(old(pool.workers.Contents()), peer)
    ensures chunk.data[..] == old(chunk.data[..])
    ensures Tracker.Entries(down.Contents())
            == Tracker.Updated(old(Tracker.Entries(down.Contents())), chunk.sha1, Verdict(chunk.data[..], chunk.sha1))
    ensures old(FirstOrDone(down, chunk)) ==>
              chunk.state == Receiving.Forward(old(chunk.state), Verdict(chunk.data[..], chunk.sha1))
  {
    ghost var es := Tracker.Entries(down.Contents());
    ghost var k := Tracker.FirstWith(es, chunk.sha1);
    Judge(pool, down, chunk);
    Leave(pool, down, peer);
    if k < |es| && down.Contents()[k] == chunk {
      StateFound(down, chunk, es, k, Verdict(chunk.data[..], chunk.sha1));
    }
  }

  /** The first half of process_DATA, which leaves the pool and the queue of chunks alone. */
  method Copy(pool: Pool<Receiver>, down: Queue<DownloadChunk>, rcvr: Receiver, seqNum: nat, payload: seq<bv8>)
    returns (ack: nat)
    requires pool.Valid() && down.Valid() && rcvr.chunk.data.Length == CHUNK_SIZE
    modifies rcvr, rcvr.chunk.data
    ensures rcvr.State(true) == Receiving.Taken(old(rcvr.State(true)), seqNum, payload) && ack == rcvr.lastRcvd
    ensures pool.Valid() && pool.Peers() == old(pool.Peers())
    ensures pool.workers.Contents() == old(pool.workers.Contents())
    ensures down.Valid() && down.Contents() == old(down.Contents())
    ensures Tracker.Entries(down.Contents()) == old(Tracker.Entries(down.Contents()))
  {
    ack := rcvr.Take(seqNum, payload);
  }

  /** The second half of process_DATA. */
  method Conclude(pool: Pool<Receiver>, down: Queue<DownloadChunk>, peer: Peer, rcvr: Receiver)
    requires pool.Valid() && down.Valid() && Tracker.AreDistinct(down.Contents())
    requires rcvr.chunk.data.Length == CHUNK_SIZE && Connected(pool.Peers(), peer)
    modifies pool, pool.workers, pool.workers.tail, down.Contents()
    ensures pool.Valid() && down.Valid() && down.Contents() == old(down.Contents())
    ensures rcvr.State(true).(state := old(rcvr.chunk.state)) == old(rcvr.State(true))
    ensures pool.Peers() == PeersAfter(pool.maxNum, old(pool.Peers()), peer, old(rcvr.State(true)))
    ensures pool.workers.Contents() == WorkersAfter(old(pool.workers.Contents()), peer, old(rcvr.State(true)))
    ensures Tracker.Entries(down.Contents())
            == EntriesAfter(old(Tracker.Entries(down.Contents())), rcvr.chunk.sha1, old(rcvr.State(true)))
    ensures old(FirstOrDone(down, rcvr.chunk)) ==>
              var r := Receiving.Concluded(old(rcvr.State(true)), rcvr.chunk.sha1);
              rcvr.State(r.inPool) == r
  {
    if rcvr.lastRcvd * DATA_SIZE >= CHUNK_SIZE {
      Complete(pool, down, peer, rcvr.chunk);
    }
  }

  /** process_DATA for the receiver that get_receiver has found. */
  method DataWorker(pool: Pool<Receiver>, down: Queue<DownloadChunk>, peer: Peer, rcvr: Receiver, seqNum: nat,
                    payload: seq<bv8>)
    returns (ack: nat)
    requires pool.Valid() && down.Valid() && Tracker.AreDistinct(down.Contents())
    requires rcvr.chunk.data.Length == CHUNK_SIZE && Connected(pool.Peers(), peer)
    modifies pool, pool.workers, pool.workers.tail, rcvr, rcvr.chunk.data, down.Contents()
    ensures pool.Valid() && down.Valid() && down.Contents() == old(down.Contents()) && ack == rcvr.lastRcvd
    ensures ReceiverAfter(rcvr, old(rcvr.State(true)), seqNum, payload, old(FirstOrDone(down, rcvr.chunk)))
    ensures var taken := Receiving.Taken(old(rcvr.State(true)), seqNum, payload);
            QueuesAfter(pool, down, peer, rcvr.chunk.sha1, taken, old(pool.workers.Contents()),
                        old(Tracker.Entries(down.Contents())))
  {
    ack := Copy(pool, down, rcvr, seqNum, payload);
    Conclude(pool, down, peer, rcvr);
  }

  ghost predicate AreSized(workers: seq<Worker<Receiver>>) {
    forall i :: 0 <= i < |workers| ==> workers[i].conn.chunk.data.Length == CHUNK_SIZE
  }

  /** The receiver that get_receiver finds. */
  ghost function ReceiverOf(pool: Pool<Receiver>, peer: Peer): Option<Receiver>
    reads pool, pool.workers, pool.workers.chain
  {
    if Connected(pool.Peers(), peer) then Some(pool.workers.Contents()[FirstAt(pool.Peers(), peer)].conn) else None
  }

  /** What process_DATA may change of it. */
  ghost function ReceiverParts(pool: Pool<Receiver>, peer: Peer): set<object>
    reads pool, pool.workers, pool.workers.chain
  {
    match ReceiverOf(pool, peer)
    case None => {}
    case Some(rcvr) => {rcvr, rcvr.chunk.data}
  }

  /** process_DATA: the peer's receiver takes the packet; once it has everything its chunk is judged and it leaves
      the pool. */
  method ProcessData(pool: Pool<Receiver>, down: Queue<DownloadChunk>, peer: Peer, seqNum: nat, payload: seq<bv8>)
    returns (ack: Option<nat>)
    requires pool.Valid() && down.Valid() && Tracker.AreDistinct(down.Contents())
    requires AreSized(pool.workers.Contents())
    modifies pool, pool.workers, pool.workers.tail, down.Contents(), ReceiverParts(pool, peer)
    ensures pool.Valid() && down.Valid() && down.Contents() == old(down.Contents())
    ensures match old(ReceiverOf(pool, peer))
            case None =>
              && ack == None && pool.workers.Contents() == old(pool.workers.Contents())
              && Tracker.Entries(down.Contents()) == old(Tracker.Entries(down.Contents()))
            case Some(rcvr) =>
              var taken := Receiving.Taken(old(rcvr.State(true)), seqNum, payload);
              && ack == Some(taken.lastRcvd)
              && ReceiverAfter(rcvr, old(rcvr.State(true)), seqNum, payload, old(FirstOrDone(down, rcvr.chunk)))
              && QueuesAfter(pool, down, peer, rcvr.chunk.sha1, taken, old(pool.workers.Contents()),
                             old(Tracker.Entries(down.Contents())))
  {
    ghost var r, ws, es := ReceiverOf(pool, peer), pool.workers.Contents(), Tracker.Entries(down.Contents());
    ghost var before := if r.Some? then Some(r.value.State(true)) else None;
    ghost var firstOrDone := r.Some? && FirstOrDone(down, r.value.chunk);
    var found := pool.Get(peer);
    if found == None {
      return None;
    }
    assert r == Some(found.value.conn) && before == Some(found.value.conn.State(true));
    assert FirstOrDone(down, found.value.conn.chunk) == firstOrDone;
    assert pool.workers.Contents() == ws && Tracker.Entries(down.Contents()) == es;
    var n := DataWorker(pool, down, peer, found.value.conn, seqNum, payload);
    return Some(n);
  }

  // ---------- look_at ----------

  // A GET packet: the peer it goes to, and the text of the hash that it carries in binary
  datatype Request = Request(peer: Peer, sha1: HashLists.Hash)

  method IsConnected<T>(pool: Pool<T>, peer: Peer) returns (connected: bool)
    requires pool.Valid()
    ensures connected == Connected(pool.Peers(), peer)
  {
    var found := pool.Get(peer);
    return found != None;
  }

  /** The loop of look_at over the holders of the chunk. */
  method ChooseHolder<T>(pool: Pool<T>, holders: Queue<Peer>) returns (peer: Peer)
    requires pool.Valid() && holders.Valid()
    ensures peer == Pick(pool.Peers(), holders.Contents())
  {
    peer := None;
    ghost var k := FirstFree(pool.Peers(), holders.Contents());
    var cur := holders.head;
    ghost var i := 0;
    while cur != null
      invariant 0 <= i <= k <= |holders.chain|
      invariant if cur == null then i == |holders.chain| else i < |holders.chain| && cur == holders.chain[i]
      decreases |holders.chain| - i
    {
      assert holders.Contents()[i] == cur.data;
      var connected := IsConnected(pool, cur.data);
      assert connected <==> i < k;
      if !connected {
        return cur.data;
      }
      assert i + 1 < holders.n ==> cur.next == holders.chain[i + 1];
      cur, i := cur.next, i + 1;
    }
  }

  /** The last worker is a receiver for the chunk that has received nothing. */
  ghost predicate Waits(pool: Pool<Receiver>, chunk: DownloadChunk?)
    reads pool, pool.workers, pool.workers.chain
    reads set worker | worker in pool.workers.Contents() :: worker.conn
  {
    && pool.workers.Contents() != []
    && var rcvr := pool.workers.Contents()[|pool.workers.Contents()| - 1].conn;
       rcvr.chunk == chunk && rcvr.lastRcvd == 0 && rcvr.nextExpected == 1
  }

  /** add_receiver at the end of look_at, which leaves the queue of chunks alone. */
  method Connect(pool: Pool<Receiver>, down: Queue<DownloadChunk>, chunk: DownloadChunk, peer: Peer)
    requires pool.Valid() && pool.curNum < pool.maxNum && down.Valid()
    modifies pool, pool.workers, pool.workers.tail
    ensures pool.Valid() && pool.Peers() == old(pool.Peers()) + [peer] && Waits(pool, chunk)
    ensures down.Valid() && down.Contents() == old(down.Contents())
    ensures Tracker.Entries(down.Contents()) == old(Tracker.Entries(down.Contents()))
  {
    var receiver := new Receiver(chunk);
    var added := Open(pool, Worker(peer, receiver));
  }

  /** The GET that look_at sends, if any: for the chosen chunk, to the first free holder, if the pool has room and
      the holder is known. */
  ghost function ToAsk(pool: Pool<Receiver>, chunk: DownloadChunk): Option<Request>
    reads pool, pool.workers, pool.workers.chain, chunk.holders, chunk.holders.chain
  {
    var peer := Pick(pool.Peers(), chunk.holders.Contents());
    if |pool.Peers()| >= pool.maxNum || peer == None then None else Some(Request(peer, chunk.sha1))
  }

  /** look_at for the chosen chunk, up to the GET, which changes nothing. */
  method FindHolder(pool: Pool<Receiver>, down: Queue<DownloadChunk>, chunk: DownloadChunk)
    returns (get: Option<Request>)
    requires pool.Valid() && down.Valid() && chunk.holders.Valid()
    ensures pool.Valid() && pool.Peers() == old(pool.Peers())
    ensures down.Valid() && down.Contents() == old(down.Contents())
    ensures Tracker.Entries(down.Contents()) == old(Tracker.Entries(down.Contents()))
    ensures get == old(ToAsk(pool, chunk)) && (get.Some? ==> pool.curNum < pool.maxNum)
    ensures Next(pool.maxNum, old(pool.Peers()), Look(old(chunk.holders.Contents())))
            == old(pool.Peers()) + if get == None then [] else [get.value.peer]
  {
    if pool.curNum >= pool.maxNum {
      return None;
    }
    var peer := ChooseHolder(pool, chunk.holders);
    get := if peer == None then None else Some(Request(peer, chunk.sha1));
  }

  /** The end of look_at, where it has found a peer to ask. */
  method AskPeer(pool: Pool<Receiver>, down: Queue<DownloadChunk>, chunk: DownloadChunk, peer: Peer)
    requires pool.Valid() && pool.curNum < pool.maxNum
    requires down.Valid() && Tracker.AreDistinct(down.Contents())
    modifies pool, pool.workers, pool.workers.tail, down.Contents()
    ensures pool.Valid() && pool.Peers() == old(pool.Peers()) + [peer] && Waits(pool, chunk)
    ensures down.Valid() && down.Contents() == old(down.Contents())
    ensures Tracker.Entries(down.Contents())
            == Tracker.Updated(old(Tracker.Entries(down.Contents())), chunk.sha1, Receiving.DOWNLOADING)
  {
    Connect(pool, down, chunk, peer);
    ghost var ws := pool.workers.Contents();
    Mark(pool, down, chunk.sha1, Receiving.DOWNLOADING);
    assert pool.workers.Contents() == ws;
  }

  /** look_at for the chosen chunk. */
  method LookFor(pool: Pool<Receiver>, down: Queue<DownloadChunk>, chunk: DownloadChunk) returns (get: Option<Request>)
    requires pool.Valid() && down.Valid() && Tracker.AreDistinct(down.Contents()) && chunk.holders.Valid()
    modifies pool, pool.workers, pool.workers.tail, down.Contents()
    ensures pool.Valid() && down.Valid() && down.Contents() == old(down.Contents())
    ensures get == old(ToAsk(pool, chunk)) && (get.Some? ==> Waits(pool, chunk))
    ensures pool.Peers() == Next(pool.maxNum, old(pool.Peers()), Look(old(chunk.holders.Contents())))
    ensures Tracker.Entries(down.Contents())
            == if get == None then old(Tracker.Entries(down.Contents()))
               else Tracker.Updated(old(Tracker.Entries(down.Contents())), chunk.sha1, Receiving.DOWNLOADING)
  {
    get := FindHolder(pool, down, chunk);
    if get.Some? {
      AskPeer(pool, down, chunk, get.value.peer);
    }
  }

  /** choose_chunk_to_download, which changes nothing. */
  method Choose(pool: Pool<Receiver>, down: Queue<DownloadChunk>) returns (chunk: DownloadChunk)
    requires pool.Valid() && down.Valid() && down.Contents() != []
    ensures pool.Valid() && pool.Peers() == old(pool.Peers())
    ensures down.Valid() && down.Contents() == old(down.Contents())
    ensures Tracker.Entries(down.Contents()) == old(Tracker.Entries(down.Contents()))
    ensures chunk == old(Tracker.Chosen(down.Contents())) && chunk in down.Contents()
    ensures chunk.holders.Contents() == old(Tracker.Chosen(down.Contents()).holders.Contents())
  {
    chunk := Tracker.ChooseChunk(down);
  }

  /** look_at after its scan, for a queue that is not empty; holders are those of the chosen chunk. */
  method LookForChosen(pool: Pool<Receiver>, down: Queue<DownloadChunk>)
    returns (get: Option<Request>, chunk: DownloadChunk, ghost holders: seq<Peer>)
    requires pool.Valid() && down.Valid() && Tracker.AreDistinct(down.Contents()) && down.Contents() != []
    requires forall c :: c in down.Contents() ==> c.holders.Valid()
    modifies pool, pool.workers, pool.workers.tail, down.Contents()
    ensures pool.Valid() && down.Valid() && down.Contents() == old(down.Contents())
    ensures chunk == old(Tracker.Chosen(down.Contents()))
    ensures holders == old(Tracker.Chosen(down.Contents()).holders.Contents())
    ensures get == old(ToAsk(pool, Tracker.Chosen(down.Contents()))) && (get.Some? ==> Waits(pool, chunk))
    ensures pool.Peers() == Next(pool.maxNum, old(pool.Peers()), Look(holders))
    ensures Tracker.Entries(down.Contents())
            == if get == None then old(Tracker.Entries(down.Contents()))
               else Tracker.Updated(old(Tracker.Entries(down.Contents())), chunk.sha1, Receiving.DOWNLOADING)
  {
    chunk := Choose(pool, down);
    holders := chunk.holders.Contents();
    get := LookFor(pool, down, chunk);
  }

  /** look_at after its scan. */
  method LookAt(pool: Pool<Receiver>, down: Queue<DownloadChunk>)
    returns (get: Option<Request>, chunk: DownloadChunk?, ghost holders: seq<Peer>)
    requires pool.Valid() && down.Valid() && Tracker.AreDistinct(down.Contents())
    requires forall c :: c in down.Contents() ==> c.holders.Valid()
    modifies pool, pool.workers, pool.workers.tail, down.Contents()
    ensures pool.Valid() && down.Valid() && down.Contents() == old(down.Contents())
    ensures if down.Contents() == [] then chunk == null && get == None && holders == []
            else chunk == old(Tracker.Chosen(down.Contents()))
                 && get == old(ToAsk(pool, Tracker.Chosen(down.Contents())))
                 && holders == old(Tracker.Chosen(down.Contents()).holders.Contents())
    ensures get.Some? ==> Waits(pool, chunk)
    ensures pool.Peers() == Next(pool.maxNum, old(pool.Peers()), Look(holders))
    ensures Tracker.Entries(down.Contents())
            == if get == None then old(Tracker.Entries(down.Contents()))
               else Tracker.Updated(old(Tracker.Entries(down.Contents())), get.value.sha1, Receiving.DOWNLOADING)
  {
    if down.IsEmpty() {
      return None, null, [];
    }
    get, chunk, holders := LookForChosen(pool, down);
  }
}
