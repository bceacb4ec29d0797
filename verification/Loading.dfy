/** A download as a transition system: the chunks of the list, the queues of those left to do and of those done, the
    receivers of the pool, and the handlers that change them.  Each handler is one step.  When does a chunk that
    counts as finished have the wanted digest? */
module Loading {
  import opened LinkedQueue
  import opened Chunking
  import opened Pools
  import opened Receiving
  import Connections
  import Downloads
  import HashLists
  import Runs
  import Tracker

  function Blank(): Chunk { seq(CHUNK_SIZE, _ => 0) }

  // A chunk of the list; a holder is a peer, or None for an unknown address.
  datatype Item = Item(sha1: HashLists.Hash, data: Chunk, state: ChunkState, holders: seq<Peer>)

  // The chunk that a receiver fills, by its place in the list, and last_rcvd
  datatype Filler = Filler(chunk: nat, lastRcvd: nat)

  datatype Download = Download(maxNum: nat, items: seq<Item>, down: seq<nat>, done: seq<nat>, pool: seq<Worker<Filler>>)

  predicate Within(items: seq<Item>, queue: seq<nat>) { forall a :: 0 <= a < |queue| ==> queue[a] < |items| }

  /** The queues and the receivers name chunks of the list. */
  predicate InRange(d: Download) {
    && Within(d.items, d.down) && Within(d.items, d.done)
    && forall a :: 0 <= a < |d.pool| ==> d.pool[a].conn.chunk < |d.items|
  }

  type State = d: Download | InRange(d) witness Download(0, [], [], [], [])

  // One hash of an IHAVE packet, a call of look_at, a DATA packet
  datatype Event = Ihave(sha1: HashLists.Hash, peer: Peer) | LookAt | Data(peer: Peer, seqNum: nat, payload: seq<bv8>)

  function Positions(n: nat): (r: seq<nat>)
    ensures |r| == n && forall a :: 0 <= a < n ==> r[a] == a
  {
    seq(n, i => i)
  }

  // list_chunks: the chunks of the list, blank and without holders
  function Listed(list: seq<HashLists.Hash>): (items: seq<Item>)
    ensures |items| == |list|
    ensures forall i :: 0 <= i < |items| ==> items[i] == Item(list[i], Blank(), READY, [])
  {
    seq(|list|, i requires 0 <= i < |list| => Item(list[i], Blank(), READY, []))
  }

  // process_download: the listed chunks are left to do, and the pool is empty
  function Start(maxNum: nat, list: seq<HashLists.Hash>): State {
    Download(maxNum, Listed(list), Positions(|list|), [], [])
  }

  function EntryOf(items: seq<Item>, i: nat): Tracker.Entry
    requires i < |items|
  {
    Tracker.Entry(i, items[i].sha1, items[i].state)
  }

  function EntriesOf(items: seq<Item>, queue: seq<nat>): (es: seq<Tracker.Entry>)
    requires Within(items, queue)
    ensures |es| == |queue|
  {
    seq(|queue|, a requires 0 <= a < |queue| => EntryOf(items, queue[a]))
  }

  function Entries(d: State): seq<Tracker.Entry> { EntriesOf(d.items, d.down) }

  function Peers(d: State): seq<Peer> { PeersOf(d.pool) }

  // contains_chunk
  function Found(d: State, sha1: HashLists.Hash): (found: Option<nat>)
    ensures found.Some? ==> found.value in d.down && d.items[found.value].sha1 == sha1
  {
    var k := Tracker.FirstWith(Entries(d), sha1);
    if k < |d.down| then
      assert Entries(d)[k].sha1 == d.items[d.down[k]].sha1;
      Some(d.down[k])
    else None
  }

  // update_state
  function Marked(d: State, sha1: HashLists.Hash, state: ChunkState): State {
    match Found(d, sha1)
    case None => d
    case Some(i) => d.(items := d.items[i := d.items[i].(state := Forward(d.items[i].state, state))])
  }

  // add_holder
  function Offered(d: State, sha1: HashLists.Hash, peer: Peer): State {
    match Found(d, sha1)
    case None => d
    case Some(i) => d.(items := d.items[i := d.items[i].(holders := d.items[i].holders + [peer])])
  }

  /** The chunks of a queue that are finished, or those that are not, in order. */
  function Those(items: seq<Item>, queue: seq<nat>, finished: bool): (r: seq<nat>)
    requires Within(items, queue)
    ensures Within(items, r)
    ensures forall i :: i in r <==> i in queue && (items[i].state == FINISHED) == finished
  {
    if queue == [] then []
    else
      var last := queue[|queue| - 1];
      Those(items, queue[..|queue| - 1], finished) + if (items[last].state == FINISHED) == finished then [last] else []
  }

  // scan_chunk_done
  function Scanned(d: State): State {
    d.(down := Those(d.items, d.down, false), done := d.done + Those(d.items, d.down, true))
  }

  function Counts(d: State): (counts: seq<int>)
    ensures |counts| == |d.down|
    ensures forall a :: 0 <= a < |counts| ==> counts[a] == |d.items[d.down[a]].holders|
  {
    seq(|d.down|, a requires 0 <= a < |d.down| => |d.items[d.down[a]].holders|)
  }

  // choose_chunk_to_download
  function Chosen(d: State): (i: nat)
    requires d.down != []
    ensures i in d.down
  {
    d.down[Tracker.Choice(Counts(d), |d.down|)]
  }

  /** The peer that look_at asks for the chosen chunk. */
  function Asked(d: State): Peer
    requires d.down != []
  {
    Connections.Pick(Peers(d), d.items[Chosen(d)].holders)
  }

  // look_at after its scan
  function Requested(d: State): State {
    if |d.pool| >= d.maxNum || d.down == [] || Asked(d) == None then d
    else
      Marked(d.(pool := d.pool + [Worker(Asked(d), Filler(Chosen(d), 0))]), d.items[Chosen(d)].sha1, DOWNLOADING)
  }

  function InboxOf(d: State, k: nat): Inbox
    requires k < |d.pool|
  {
    var f := d.pool[k].conn;
    Inbox(f.lastRcvd, f.lastRcvd + 1, d.items[f.chunk].data, d.items[f.chunk].state, true)
  }

  // The first half of process_DATA
  function Took(d: State, k: nat, seqNum: nat, payload: seq<bv8>): State
    requires k < |d.pool|
  {
    var i, taken := d.pool[k].conn.chunk, Taken(InboxOf(d, k), seqNum, payload);
    d.(items := d.items[i := d.items[i].(data := taken.data)],
       pool := d.pool[k := d.pool[k].(conn := Filler(i, taken.lastRcvd))])
  }

  // The second half of process_DATA
  function Judged(d: State, k: nat): State
    requires k < |d.pool|
  {
    if IsFull(InboxOf(d, k)) then
      var item := d.items[d.pool[k].conn.chunk];
      var marked := Marked(d, item.sha1, Downloads.Verdict(item.data, item.sha1));
      marked.(pool := Without(d.pool, k))
    else d
  }

  function Next(d: State, event: Event): State {
    match event
    case Ihave(sha1, peer) => Offered(d, sha1, peer)
    case LookAt => Requested(Scanned(d))
    case Data(peer, seqNum, payload) =>
      if !Connections.Connected(Peers(d), peer) then d
      else
        var k := FirstAt(Peers(d), peer);
        Judged(Took(d, k, seqNum, payload), k)
  }

  function Stepper(): (State, Event) -> State {
    (d, event) => Next(d, event)
  }

  function RunFrom(d: State, events: seq<Event>): State { Runs.Fold(Stepper(), d, events) }

  function Run(maxNum: nat, list: seq<HashLists.Hash>, events: seq<Event>): State {
    RunFrom(Start(maxNum, list), events)
  }

  lemma RunStep(d: State, events: seq<Event>, event: Event)
    ensures RunFrom(d, events + [event]) == Next(RunFrom(d, events), event)
  {
    Runs.FoldStep(Stepper(), d, events, event);
  }

  lemma RunAppend(d: State, events: seq<Event>, more: seq<Event>)
    ensures RunFrom(d, events + more) == RunFrom(RunFrom(d, events), more)
  {
    Runs.FoldAppend(Stepper(), d, events, more);
  }

  // ---------- The steps are those of the queues, the pool and the connection ----------

  lemma EntriesConcat(items: seq<Item>, a: seq<nat>, b: seq<nat>)
    requires Within(items, a) && Within(items, b)
    ensures Within(items, a + b) && EntriesOf(items, a + b) == EntriesOf(items, a) + EntriesOf(items, b)
  {
  }

  lemma ThoseAppend(es: seq<Tracker.Entry>, e: Tracker.Entry, finished: bool)
    ensures Tracker.Those(es + [e], finished) ==
            Tracker.Those(es, finished) + if (e.state == FINISHED) == finished then [e] else []
  {
    assert (es + [e])[..|es|] == es;
  }

  lemma ThoseNext(items: seq<Item>, init: seq<nat>, last: nat, finished: bool)
    requires Within(items, init) && last < |items|
    ensures Within(items, init + [last])
    ensures Those(items, init + [last], finished) ==
            Those(items, init, finished) + if (items[last].state == FINISHED) == finished then [last] else []
  {
    assert (init + [last])[..|init|] == init;
  }

  lemma EntriesAppend(items: seq<Item>, queue: seq<nat>, i: nat)
    requires Within(items, queue) && i < |items|
    ensures Within(items, queue + [i]) && EntriesOf(items, queue + [i]) == EntriesOf(items, queue) + [EntryOf(items, i)]
  {
  }

  /** The split of the chunks is that of their entries. */
  ghost predicate SplitsAlike(items: seq<Item>, queue: seq<nat>, finished: bool)
    requires Within(items, queue)
  {
    EntriesOf(items, Those(items, queue, finished)) == Tracker.Those(EntriesOf(items, queue), finished)
  }

  lemma SplitsNext(items: seq<Item>, init: seq<nat>, last: nat, finished: bool)
    requires Within(items, init) && last < |items| && SplitsAlike(items, init, finished)
    ensures Within(items, init + [last]) && SplitsAlike(items, init + [last], finished)
  {
    ThoseNext(items, init, last, finished);
    EntriesAppend(items, init, last);
    ThoseAppend(EntriesOf(items, init), EntryOf(items, last), finished);
    if (items[last].state == FINISHED) == finished {
      EntriesAppend(items, Those(items, init, finished), last);
    }
  }

  lemma {:induction false} EntriesOfThose(items: seq<Item>, queue: seq<nat>, finished: bool)
    requires Within(items, queue)
    ensures SplitsAlike(items, queue, finished)
  {
    if queue != [] {
      var init, last := queue[..|queue| - 1], queue[|queue| - 1];
      EntriesOfThose(items, init, finished);
      SplitsNext(items, init, last, finished);
      assert init + [last] == queue;
    }
  }

  lemma EntriesOfMarked(d: State, sha1: HashLists.Hash, state: ChunkState)
    requires Ordered(d.down)
    ensures Entries(Marked(d, sha1, state)) == Tracker.Updated(Entries(d), sha1, state)
  {
    var k := Tracker.FirstWith(Entries(d), sha1);
    if k < |d.down| {
      forall a | 0 <= a < |d.down|
        ensures Entries(Marked(d, sha1, state))[a] == Tracker.Updated(Entries(d), sha1, state)[a]
      {
        assert a != k ==> d.down[a] != d.down[k];
      }
    }
  }

  /** The scan of look_at, for the two queues. */
  lemma ScanIsScan(d: State)
    ensures var b := Tracker.Next(Tracker.Board(Entries(d), EntriesOf(d.items, d.done)), Tracker.Scan);
            Entries(Scanned(d)) == b.down && EntriesOf(d.items, Scanned(d).done) == b.done
  {
    EntriesOfThose(d.items, d.down, false);
    EntriesOfThose(d.items, d.down, true);
    EntriesConcat(d.items, d.done, Those(d.items, d.down, true));
  }

  /** The rest of look_at: for the pool the event of the chosen chunk's holders, for the queue the update to
      DOWNLOADING. */
  lemma RequestedIsLook(d: State)
    requires d.down != [] && Ordered(d.down)
    ensures Peers(Requested(d)) ==
            Connections.Next(d.maxNum, Peers(d), Connections.Look(d.items[Chosen(d)].holders))
    ensures Entries(Requested(d)) == if Peers(Requested(d)) == Peers(d) then Entries(d)
                                  else Tracker.Updated(Entries(d), d.items[Chosen(d)].sha1, DOWNLOADING)
  {
    var added := d.(pool := d.pool + [Worker(Asked(d), Filler(Chosen(d), 0))]);
    PeersAppend(d.pool, Worker(Asked(d), Filler(Chosen(d), 0)));
    EntriesOfMarked(added, d.items[Chosen(d)].sha1, DOWNLOADING);
    assert Entries(added) == Entries(d);
  }

  lemma TookIsTaken(d: State, k: nat, seqNum: nat, payload: seq<bv8>)
    requires k < |d.pool|
    ensures var t := Took(d, k, seqNum, payload);
            InboxOf(t, k) == Taken(InboxOf(d, k), seqNum, payload) && Entries(t) == Entries(d) && Peers(t) == Peers(d)
  {
  }

  lemma JudgedIsConcluded(d: State, k: nat)
    requires k < |d.pool| && k == FirstAt(Peers(d), d.pool[k].peer) && d.pool[k].peer != None && Ordered(d.down)
    ensures var t := Judged(d, k);
            && Entries(t) == Downloads.EntriesAfter(Entries(d), d.items[d.pool[k].conn.chunk].sha1, InboxOf(d, k))
            && Peers(t) == Downloads.PeersAfter(d.maxNum, Peers(d), d.pool[k].peer, InboxOf(d, k))
  {
    var item := d.items[d.pool[k].conn.chunk];
    EntriesOfMarked(d, item.sha1, Downloads.Verdict(item.data, item.sha1));
    PeersWithout(d.pool, k);
  }

  /** process_DATA: what the connection, the queue of chunks and the pool make of the packet. */
  lemma DataIsReceived(d: State, peer: Peer, seqNum: nat, payload: seq<bv8>)
    requires Ordered(d.down) && Connections.Connected(Peers(d), peer)
    ensures var k := FirstAt(Peers(d), peer);
            var taken := Taken(InboxOf(d, k), seqNum, payload);
            var t := Next(d, Data(peer, seqNum, payload));
            && Entries(t) == Downloads.EntriesAfter(Entries(d), d.items[d.pool[k].conn.chunk].sha1, taken)
            && Peers(t) == Downloads.PeersAfter(d.maxNum, Peers(d), peer, taken)
  {
    var k := FirstAt(Peers(d), peer);
    TookIsTaken(d, k, seqNum, payload);
    JudgedIsConcluded(Took(d, k, seqNum, payload), k);
  }

  // ---------- The invariant of all runs ----------

  ghost predicate Ordered(queue: seq<nat>) {
    forall a, b :: 0 <= a < b < |queue| ==> queue[a] < queue[b]
  }

  /** The first chunk left to do with its hash. */
  ghost predicate IsFirst(d: State, i: nat) {
    i in d.down && forall j {:trigger d.items[j]} :: j in d.down && j < i ==> d.items[j].sha1 != d.items[i].sha1
  }

  ghost predicate InOneQueue(d: State, i: nat) { i in d.down <==> i !in d.done }

  ghost predicate FirstOrDone(d: State, i: nat) { i in d.done || IsFirst(d, i) }

  /** Every chunk is in one of the queues; done ones are finished; only first chunks with a hash, and done ones, have
      holders and receivers. */
  ghost predicate Inv(d: State) {
    && Ordered(d.down)
    && (forall i: nat {:trigger InOneQueue(d, i)} :: i < |d.items| ==> InOneQueue(d, i))
    && (forall i {:trigger d.items[i]} :: i in d.done ==> d.items[i].state == FINISHED)
    && (forall i {:trigger d.items[i]} :: 0 <= i < |d.items| && d.items[i].holders != [] ==> FirstOrDone(d, i))
    && forall a {:trigger d.pool[a]} :: 0 <= a < |d.pool| ==> FirstOrDone(d, d.pool[a].conn.chunk)
  }

  /** update_state finds exactly the first chunk with the hash. */
  lemma FoundIsFirst(d: State, sha1: HashLists.Hash)
    requires Ordered(d.down)
    ensures forall i {:trigger d.items[i]} :: i in d.down && d.items[i].sha1 == sha1 ==>
              (Found(d, sha1) == Some(i) <==> IsFirst(d, i)) && Found(d, sha1).Some?
    ensures Found(d, sha1).Some? ==> IsFirst(d, Found(d, sha1).value)
  {
    var k := Tracker.FirstWith(Entries(d), sha1);
    forall a | 0 <= a < |d.down| && d.items[d.down[a]].sha1 == sha1 ensures k <= a && d.down[k] <= d.down[a] {
      assert Entries(d)[a].sha1 == sha1;
    }
  }
  /** t has the queues of d, the same hashes and holders, states no earlier and no other receivers' chunks. */
  ghost predicate Follows(d: State, t: State) {
    && t.down == d.down && t.done == d.done && |t.items| == |d.items|
    && (forall i {:trigger t.items[i]} :: 0 <= i < |d.items| ==>
         t.items[i].sha1 == d.items[i].sha1 && t.items[i].holders == d.items[i].holders
         && (d.items[i].state == FINISHED ==> t.items[i].state == FINISHED))
    && forall a {:trigger t.pool[a]} :: 0 <= a < |t.pool| ==> FirstOrDone(d, t.pool[a].conn.chunk)
  }

  lemma FollowsInv(d: State, t: State)
    requires Inv(d) && Follows(d, t)
    ensures Inv(t)
  {
    forall i: nat | FirstOrDone(d, i) ensures FirstOrDone(t, i) {
    }
    assert forall i: nat :: InOneQueue(d, i) ==> InOneQueue(t, i);
  }

  lemma MarkedInv(d: State, sha1: HashLists.Hash, state: ChunkState)
    requires Inv(d)
    ensures Inv(Marked(d, sha1, state))
  {
    FollowsInv(d, Marked(d, sha1, state));
  }

  lemma OfferedInv(d: State, sha1: HashLists.Hash, peer: Peer)
    requires Inv(d)
    ensures Inv(Offered(d, sha1, peer))
  {
    FoundIsFirst(d, sha1);
    var t := Offered(d, sha1, peer);
    assert forall i: nat :: InOneQueue(d, i) ==> InOneQueue(t, i);
    assert forall i: nat :: FirstOrDone(d, i) ==> FirstOrDone(t, i);
  }

  lemma {:induction false} ThoseOrdered(items: seq<Item>, queue: seq<nat>, finished: bool)
    requires Within(items, queue) && Ordered(queue)
    ensures Ordered(Those(items, queue, finished))
  {
    if queue != [] {
      var init := queue[..|queue| - 1];
      ThoseOrdered(items, init, finished);
      var those := Those(items, init, finished);
      forall a | 0 <= a < |those| ensures those[a] < queue[|queue| - 1] {
        assert those[a] in init;
      }
    }
  }

  lemma ScannedInv(d: State)
    requires Inv(d)
    ensures Inv(Scanned(d)) && forall i :: i in Scanned(d).down ==> d.items[i].state != FINISHED
  {
    var t := Scanned(d);
    ThoseOrdered(d.items, d.down, false);
    forall i: nat | InOneQueue(d, i) ensures InOneQueue(t, i) {
    }
    forall i: nat | FirstOrDone(d, i) ensures FirstOrDone(t, i) {
    }
  }

  /** look_at asks only for chunks that have holders. */
  lemma RequestedInv(d: State)
    requires Inv(d)
    ensures Inv(Requested(d))
  {
    if |d.pool| < d.maxNum && d.down != [] && Asked(d) != None {
      var i := Chosen(d);
      var added := d.(pool := d.pool + [Worker(Asked(d), Filler(i, 0))]);
      assert d.items[i].holders != [] && FirstOrDone(d, i);
      FollowsInv(d, added);
      MarkedInv(added, d.items[i].sha1, DOWNLOADING);
    }
  }

  lemma TookInv(d: State, k: nat, seqNum: nat, payload: seq<bv8>)
    requires Inv(d) && k < |d.pool|
    ensures Inv(Took(d, k, seqNum, payload))
  {
    FollowsInv(d, Took(d, k, seqNum, payload));
  }

  lemma JudgedInv(d: State, k: nat)
    requires Inv(d) && k < |d.pool|
    ensures Inv(Judged(d, k))
  {
    if IsFull(InboxOf(d, k)) {
      var item := d.items[d.pool[k].conn.chunk];
      MarkedInv(d, item.sha1, Downloads.Verdict(item.data, item.sha1));
      FollowsInv(Marked(d, item.sha1, Downloads.Verdict(item.data, item.sha1)), Judged(d, k));
    }
  }

  lemma NextInv(d: State, event: Event)
    requires Inv(d)
    ensures Inv(Next(d, event))
  {
    match event
    case Ihave(sha1, peer) => OfferedInv(d, sha1, peer);
    case LookAt =>
      ScannedInv(d);
      RequestedInv(Scanned(d));
    case Data(peer, seqNum, payload) =>
      if Connections.Connected(Peers(d), peer) {
        var k := FirstAt(Peers(d), peer);
        TookInv(d, k, seqNum, payload);
        JudgedInv(Took(d, k, seqNum, payload), k);
      }
  }

  lemma StartInv(maxNum: nat, list: seq<HashLists.Hash>)
    ensures Inv(Start(maxNum, list))
  {
    var d := Start(maxNum, list);
    forall i: nat | i < |d.items| ensures InOneQueue(d, i) {
      assert d.down[i] == i;
    }
  }

  lemma {:induction false} RunFromInv(d: State, events: seq<Event>)
    requires Inv(d)
    ensures Inv(RunFrom(d, events))
  {
    if events != [] {
      var init, last := events[..|events| - 1], events[|events| - 1];
      assert events == init + [last];
      RunFromInv(d, init);
      RunStep(d, init, last);
      NextInv(RunFrom(d, init), last);
    }
  }

  lemma RunInv(maxNum: nat, list: seq<HashLists.Hash>, events: seq<Event>)
    ensures Inv(Run(maxNum, list, events))
  {
    StartInv(maxNum, list);
    RunFromInv(Start(maxNum, list), events);
  }

  // ---------- One connection in it ----------

  /** Whether or not its chunk has been scanned away, process_DATA does to the receiver and its chunk what it does in
      a connection on its own. */
  lemma OwnChunkIsReceived(d: State, peer: Peer, seqNum: nat, payload: seq<bv8>)
    requires Inv(d) && Connections.Connected(Peers(d), peer)
    ensures var k := FirstAt(Peers(d), peer);
            var i := d.pool[k].conn.chunk;
            var r := Received(InboxOf(d, k), seqNum, payload, d.items[i].sha1);
            var t := Next(d, Data(peer, seqNum, payload));
            && t.items[i] == d.items[i].(data := r.data, state := r.state)
            && t.pool == if r.inPool then d.pool[k := Worker(peer, Filler(i, r.lastRcvd))] else Without(d.pool, k)
  {
    var k := FirstAt(Peers(d), peer);
    var took := Took(d, k, seqNum, payload);
    var item := took.items[d.pool[k].conn.chunk];
    TookInv(d, k, seqNum, payload);
    TookIsTaken(d, k, seqNum, payload);
    FoundIsFirst(took, item.sha1);
    assert FirstOrDone(took, took.pool[k].conn.chunk);
    TookWithout(d, k, seqNum, payload);
  }

  lemma TookWithout(d: State, k: nat, seqNum: nat, payload: seq<bv8>)
    requires k < |d.pool|
    ensures Without(Took(d, k, seqNum, payload).pool, k) == Without(d.pool, k)
  {
  }
}
