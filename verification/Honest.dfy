/** Downloads from peers that send what the list of chunks asks for: is every finished chunk the right one? */
module Honest {
  import opened LinkedQueue
  import opened Chunking
  import opened Pools
  import opened Receiving
  import opened Loading
  import Connections
  import Downloads
  import HashLists

  // The chunk that each hash of the list stands for
  type Content = HashLists.Hash -> Chunk

  /** A DATA packet for a receiver carries the slice that its number names. */
  predicate IsHonest(content: Content, d: State, event: Event) {
    event.Data? && Connections.Connected(Peers(d), event.peer) ==>
      var i := d.pool[FirstAt(Peers(d), event.peer)].conn.chunk;
      IsSlice(content(d.items[i].sha1), event.seqNum, event.payload)
  }

  predicate AreHonest(content: Content, d: State, events: seq<Event>) {
    events == [] ||
    (AreHonest(content, d, events[..|events| - 1])
     && IsHonest(content, RunFrom(d, events[..|events| - 1]), events[|events| - 1]))
  }

  /** If the chunk counts as finished, it is the one that its hash stands for. */
  predicate IsRight(content: Content, item: Item) { item.state == FINISHED ==> item.data == content(item.sha1) }

  predicate AreRight(content: Content, d: State) {
    forall i {:trigger d.items[i]} :: 0 <= i < |d.items| ==> IsRight(content, d.items[i])
  }

  /** The first k packets of the chunk are there. */
  predicate HasPackets(content: Content, item: Item, k: nat) {
    item.data[..Covered(k)] == content(item.sha1)[..Covered(k)]
  }

  predicate IsBlank(content: Content, item: Item) { content(item.sha1) == Blank() ==> item.data == Blank() }

  /** What a receiver counts as received is there; finished chunks are right; chunks of zeros are. */
  ghost predicate Filled(content: Content, d: State) {
    && (forall a {:trigger d.pool[a]} :: 0 <= a < |d.pool| ==>
         HasPackets(content, d.items[d.pool[a].conn.chunk], d.pool[a].conn.lastRcvd))
    && (forall i {:trigger d.items[i]} :: 0 <= i < |d.items| ==>
         IsRight(content, d.items[i]) && IsBlank(content, d.items[i]))
  }

  /** Writing a slice of the chunk keeps every part that is already right. */
  lemma StoreKeeps(chunk: Chunk, data: Chunk, k: nat, n: nat)
    requires k < PKT_NUM && data[..Covered(n)] == chunk[..Covered(n)]
    ensures Store(data, k * DATA_SIZE, Slice(chunk, k))[..Covered(n)] == chunk[..Covered(n)]
  {
    var stored := Store(data, k * DATA_SIZE, Slice(chunk, k));
    forall i | 0 <= i < Covered(n) ensures stored[i] == chunk[i] {
      assert data[..Covered(n)][i] == chunk[..Covered(n)][i];
    }
  }

  lemma StoreSame(chunk: Chunk, k: nat)
    requires k < PKT_NUM
    ensures Store(chunk, k * DATA_SIZE, Slice(chunk, k)) == chunk
  {
  }

  /** An honest packet keeps every part of the receiver's chunk that is right, and makes right what it counts. */
  lemma TakenKeeps(content: Content, d: State, k: nat, seqNum: nat, payload: seq<bv8>, n: nat)
    requires k < |d.pool|
    requires var item := d.items[d.pool[k].conn.chunk]; IsSlice(content(item.sha1), seqNum, payload)
    ensures var i := d.pool[k].conn.chunk;
            var t := Took(d, k, seqNum, payload);
            && (HasPackets(content, d.items[i], n) ==> HasPackets(content, t.items[i], n))
            && (HasPackets(content, d.items[i], d.pool[k].conn.lastRcvd) ==>
                  HasPackets(content, t.items[i], t.pool[k].conn.lastRcvd))
            && (d.items[i].data == content(d.items[i].sha1) ==> t.items[i].data == d.items[i].data)
  {
    var item, lastRcvd := d.items[d.pool[k].conn.chunk], d.pool[k].conn.lastRcvd;
    var chunk := content(item.sha1);
    if seqNum == lastRcvd + 1 {
      if HasPackets(content, item, n) {
        StoreKeeps(chunk, item.data, lastRcvd, n);
      }
      if HasPackets(content, item, lastRcvd) {
        StoreNextSlice(chunk, item.data, lastRcvd);
      }
      StoreSame(chunk, lastRcvd);
    }
  }

  lemma TookFilled(content: Content, d: State, k: nat, seqNum: nat, payload: seq<bv8>)
    requires k < |d.pool| && Filled(content, d)
    requires var item := d.items[d.pool[k].conn.chunk]; IsSlice(content(item.sha1), seqNum, payload)
    ensures Filled(content, Took(d, k, seqNum, payload))
  {
    var i, t := d.pool[k].conn.chunk, Took(d, k, seqNum, payload);
    forall a | 0 <= a < |t.pool| ensures HasPackets(content, t.items[t.pool[a].conn.chunk], t.pool[a].conn.lastRcvd) {
      assert HasPackets(content, d.items[d.pool[a].conn.chunk], d.pool[a].conn.lastRcvd);
      TakenKeeps(content, d, k, seqNum, payload, d.pool[a].conn.lastRcvd);
    }
    forall j | 0 <= j < |t.items| ensures IsRight(content, t.items[j]) && IsBlank(content, t.items[j]) {
      assert IsRight(content, d.items[j]) && IsBlank(content, d.items[j]);
      TakenKeeps(content, d, k, seqNum, payload, 0);
    }
  }

  /** A mark that finishes a chunk only if that one is right. */
  lemma MarkedFilled(content: Content, d: State, sha1: HashLists.Hash, state: ChunkState)
    requires Filled(content, d)
    requires state == FINISHED && Found(d, sha1).Some? ==> d.items[Found(d, sha1).value].data == content(sha1)
    ensures Filled(content, Marked(d, sha1, state))
  {
    var t := Marked(d, sha1, state);
    forall i | 0 <= i < |t.items|
      ensures IsRight(content, t.items[i]) && IsBlank(content, t.items[i])
      ensures t.items[i].data == d.items[i].data && t.items[i].sha1 == d.items[i].sha1
    {
      assert IsRight(content, d.items[i]) && IsBlank(content, d.items[i]);
    }
  }

  /** Two places of the list with one hash, which does not stand for a chunk of zeros. */
  predicate AreTwins(content: Content, list: seq<HashLists.Hash>, i: nat, j: nat) {
    i < j < |list| && list[i] == list[j] && content(list[i]) != Blank()
  }

  ghost predicate HasTwins(content: Content, list: seq<HashLists.Hash>) {
    exists i: nat, j: nat :: AreTwins(content, list, i, j)
  }

  predicate Names(list: seq<HashLists.Hash>, d: State) {
    |d.items| == |list| && forall i {:trigger d.items[i]} :: 0 <= i < |list| ==> d.items[i].sha1 == list[i]
  }

  /** With room for one receiver, its chunk is left to do and not finished. */
  ghost predicate IsAlone(d: State) {
    |d.pool| <= d.maxNum
    && forall a {:trigger d.pool[a]} :: 0 <= a < |d.pool| ==>
         d.pool[a].conn.chunk in d.down && d.items[d.pool[a].conn.chunk].state != FINISHED
  }

  /** No receiver can finish another chunk than its own. */
  ghost predicate IsSafe(content: Content, list: seq<HashLists.Hash>, d: State) {
    Names(list, d) && (if HasTwins(content, list) then d.maxNum <= 1 && IsAlone(d) else true)
  }

  lemma JudgedFilled(content: Content, list: seq<HashLists.Hash>, d: State, k: nat)
    requires Inv(d) && Filled(content, d) && Names(list, d) && k < |d.pool|
    requires HasTwins(content, list) ==> d.pool[k].conn.chunk in d.down
    ensures Filled(content, Judged(d, k))
  {
    var i := d.pool[k].conn.chunk;
    var item := d.items[i];
    if IsFull(InboxOf(d, k)) {
      CoveredAll(d.pool[k].conn.lastRcvd);
      assert HasPackets(content, item, d.pool[k].conn.lastRcvd);
      assert item.data == item.data[..CHUNK_SIZE] && content(item.sha1) == content(item.sha1)[..CHUNK_SIZE];
      OwnOrBlank(content, list, d, k);
      MarkedFilled(content, d, item.sha1, Downloads.Verdict(item.data, item.sha1));
    }
  }

  /** What update_state finds for a receiver that has everything is right. */
  lemma OwnOrBlank(content: Content, list: seq<HashLists.Hash>, d: State, k: nat)
    requires Inv(d) && Filled(content, d) && Names(list, d) && k < |d.pool|
    requires HasTwins(content, list) ==> d.pool[k].conn.chunk in d.down
    requires d.items[d.pool[k].conn.chunk].data == content(d.items[d.pool[k].conn.chunk].sha1)
    ensures var found := Found(d, d.items[d.pool[k].conn.chunk].sha1);
            found.Some? ==> d.items[found.value].data == content(d.items[d.pool[k].conn.chunk].sha1)
  {
    var i := d.pool[k].conn.chunk;
    var found := Found(d, d.items[i].sha1);
    FoundIsFirst(d, d.items[i].sha1);
    assert FirstOrDone(d, d.pool[k].conn.chunk) && InOneQueue(d, i);
    if found.Some? && found.value != i {
      var j := found.value;
      assert IsBlank(content, d.items[j]);
      assert !AreTwins(content, list, if i < j then i else j, if i < j then j else i);
    }
  }

  lemma MarkedNames(list: seq<HashLists.Hash>, d: State, sha1: HashLists.Hash, state: ChunkState)
    requires Names(list, d)
    ensures Names(list, Marked(d, sha1, state))
  {
  }

  lemma DataNames(list: seq<HashLists.Hash>, d: State, k: nat, seqNum: nat, payload: seq<bv8>)
    requires Names(list, d) && k < |d.pool|
    ensures Names(list, Took(d, k, seqNum, payload)) && Names(list, Judged(d, k))
  {
    var item := d.items[d.pool[k].conn.chunk];
    MarkedNames(list, d, item.sha1, Downloads.Verdict(item.data, item.sha1));
  }

  lemma RequestedNames(list: seq<HashLists.Hash>, d: State)
    requires Names(list, d)
    ensures Names(list, Requested(d))
  {
    if d.down != [] {
      MarkedNames(list, d.(pool := d.pool + [Worker(Asked(d), Filler(Chosen(d), 0))]), d.items[Chosen(d)].sha1,
                  DOWNLOADING);
    }
  }

  lemma NextNames(list: seq<HashLists.Hash>, d: State, event: Event)
    requires Names(list, d)
    ensures Names(list, Next(d, event))
  {
    match event
    case Ihave(_, _) =>
    case LookAt => RequestedNames(list, Scanned(d));
    case Data(peer, seqNum, payload) =>
      if Connections.Connected(Peers(d), peer) {
        var k := FirstAt(Peers(d), peer);
        DataNames(list, d, k, seqNum, payload);
        DataNames(list, Took(d, k, seqNum, payload), k, seqNum, payload);
      }
  }

  lemma NextMaxNum(d: State, event: Event)
    ensures Next(d, event).maxNum == d.maxNum
  {
  }

  lemma RequestedAlone(d: State)
    requires Inv(d) && IsAlone(d) && d.maxNum <= 1 && forall i :: i in d.down ==> d.items[i].state != FINISHED
    ensures IsAlone(Requested(d))
  {
  }

  lemma ScannedAlone(d: State)
    requires Inv(d) && IsAlone(d)
    ensures IsAlone(Scanned(d))
  {
  }

  lemma OfferedAlone(d: State, sha1: HashLists.Hash, peer: Peer)
    requires IsAlone(d)
    ensures IsAlone(Offered(d, sha1, peer))
  {
  }

  lemma DataAlone(d: State, k: nat, seqNum: nat, payload: seq<bv8>)
    requires IsAlone(d) && d.maxNum <= 1 && k < |d.pool|
    ensures IsAlone(Took(d, k, seqNum, payload)) && IsAlone(Judged(Took(d, k, seqNum, payload), k))
  {
  }

  lemma NextAlone(d: State, event: Event)
    requires Inv(d) && IsAlone(d) && d.maxNum <= 1
    ensures IsAlone(Next(d, event))
  {
    match event
    case Ihave(sha1, peer) => OfferedAlone(d, sha1, peer);
    case LookAt =>
      ScannedInv(d);
      ScannedAlone(d);
      RequestedAlone(Scanned(d));
    case Data(peer, seqNum, payload) =>
      if Connections.Connected(Peers(d), peer) {
        DataAlone(d, FirstAt(Peers(d), peer), seqNum, payload);
      }
  }

  lemma OfferedFilled(content: Content, d: State, sha1: HashLists.Hash, peer: Peer)
    requires Filled(content, d)
    ensures Filled(content, Offered(d, sha1, peer))
  {
    var t := Offered(d, sha1, peer);
    forall i | 0 <= i < |t.items|
      ensures IsRight(content, t.items[i]) && IsBlank(content, t.items[i])
      ensures t.items[i].data == d.items[i].data && t.items[i].sha1 == d.items[i].sha1
    {
      assert IsRight(content, d.items[i]) && IsBlank(content, d.items[i]);
    }
  }

  lemma RequestedFilled(content: Content, d: State)
    requires Filled(content, d)
    ensures Filled(content, Requested(d))
  {
    if d.down != [] {
      var added := d.(pool := d.pool + [Worker(Asked(d), Filler(Chosen(d), 0))]);
      assert HasPackets(content, d.items[Chosen(d)], 0);
      assert Filled(content, added);
      MarkedFilled(content, added, d.items[Chosen(d)].sha1, DOWNLOADING);
    }
  }

  lemma DataFilled(content: Content, list: seq<HashLists.Hash>, d: State, k: nat, seqNum: nat, payload: seq<bv8>)
    requires Inv(d) && Filled(content, d) && IsSafe(content, list, d) && k < |d.pool|
    requires IsSlice(content(d.items[d.pool[k].conn.chunk].sha1), seqNum, payload)
    ensures Filled(content, Judged(Took(d, k, seqNum, payload), k))
  {
    var took := Took(d, k, seqNum, payload);
    TookInv(d, k, seqNum, payload);
    TookFilled(content, d, k, seqNum, payload);
    DataNames(list, d, k, seqNum, payload);
    assert took.pool[k].conn.chunk == d.pool[k].conn.chunk;
    JudgedFilled(content, list, took, k);
  }

  lemma NextFilled(content: Content, list: seq<HashLists.Hash>, d: State, event: Event)
    requires Inv(d) && Filled(content, d) && IsSafe(content, list, d) && IsHonest(content, d, event)
    ensures Filled(content, Next(d, event))
  {
    match event
    case Ihave(sha1, peer) => OfferedFilled(content, d, sha1, peer);
    case LookAt => RequestedFilled(content, Scanned(d));
    case Data(peer, seqNum, payload) =>
      if Connections.Connected(Peers(d), peer) {
        DataFilled(content, list, d, FirstAt(Peers(d), peer), seqNum, payload);
      }
  }

  lemma NextSafe(content: Content, list: seq<HashLists.Hash>, d: State, event: Event)
    requires Inv(d) && IsSafe(content, list, d)
    ensures IsSafe(content, list, Next(d, event))
  {
    NextNames(list, d, event);
    NextMaxNum(d, event);
    if HasTwins(content, list) {
      NextAlone(d, event);
    }
  }

  lemma {:induction false} RunFilled(content: Content, maxNum: nat, list: seq<HashLists.Hash>, events: seq<Event>)
    requires maxNum <= 1 || !HasTwins(content, list)
    requires AreHonest(content, Start(maxNum, list), events)
    ensures Filled(content, Run(maxNum, list, events)) && IsSafe(content, list, Run(maxNum, list, events))
  {
    if events != [] {
      var init, last := events[..|events| - 1], events[|events| - 1];
      assert events == init + [last];
      RunFilled(content, maxNum, list, init);
      RunInv(maxNum, list, init);
      NextFilled(content, list, Run(maxNum, list, init), last);
      NextSafe(content, list, Run(maxNum, list, init), last);
      RunStep(Start(maxNum, list), init, last);
    }
  }

  // ---------- The output file ----------

  /** chunks2file: how many of the done chunks it writes, up to the first that fails its check. */
  function Written(passes: seq<bool>): (n: nat)
    ensures n <= |passes| && (n < |passes| ==> !passes[n])
    ensures forall a :: 0 <= a < n ==> passes[a]
  {
    if passes == [] || !passes[0] then 0 else 1 + Written(passes[1..])
  }

  /** check_chunk for each of the done chunks. */
  function Passes(d: State): (passes: seq<bool>)
    ensures |passes| == |d.done|
    ensures forall a :: 0 <= a < |passes| ==>
              passes[a] == Checks(d.items[d.done[a]].data, d.items[d.done[a]].sha1)
  {
    seq(|d.done|, a requires 0 <= a < |d.done| => Checks(d.items[d.done[a]].data, d.items[d.done[a]].sha1))
  }

  /** When nothing is left to do, every chunk of the list is written, and it is the right one. */
  lemma OutputIsRight(content: Content, maxNum: nat, list: seq<HashLists.Hash>, events: seq<Event>)
    requires maxNum <= 1 || !HasTwins(content, list)
    requires forall i :: 0 <= i < |list| ==> Checks(content(list[i]), list[i])
    requires AreHonest(content, Start(maxNum, list), events) && Run(maxNum, list, events).down == []
    ensures var d := Run(maxNum, list, events);
            && |d.items| == |list| && Written(Passes(d)) == |d.done|
            && forall i: nat :: i < |list| ==> i in d.done && d.items[i].data == content(list[i])
  {
    var d := Run(maxNum, list, events);
    RunFilled(content, maxNum, list, events);
    RunInv(maxNum, list, events);
    forall i: nat | i < |list| ensures i in d.done && d.items[i].data == content(list[i]) {
      assert InOneQueue(d, i);
      assert IsRight(content, d.items[i]);
    }
    DonePass(content, list, d);
  }

  lemma DonePass(content: Content, list: seq<HashLists.Hash>, d: State)
    requires Inv(d) && Filled(content, d) && Names(list, d)
    requires forall i :: 0 <= i < |list| ==> Checks(content(list[i]), list[i])
    ensures forall a :: 0 <= a < |Passes(d)| ==> Passes(d)[a]
  {
    forall a | 0 <= a < |d.done| ensures Passes(d)[a] {
      assert IsRight(content, d.items[d.done[a]]);
    }
  }
}
