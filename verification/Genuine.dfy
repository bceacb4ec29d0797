/** When does a chunk that counts as finished have the wanted digest?  process_DATA checks the receiver's chunk, but
    update_state marks the first chunk left to do with its hash, and receivers may write into a finished chunk. */
module Genuine {
  import opened LinkedQueue
  import opened Chunking
  import opened Pools
  import opened Receiving
  import opened Loading
  import Connections
  import Downloads
  import HashLists
  import Sha1Spec

  /** If the chunk counts as finished, it has the wanted digest. */
  predicate IsGenuine(item: Item) { item.state == FINISHED ==> Checks(item.data, item.sha1) }

  predicate AreGenuine(items: seq<Item>) {
    forall i {:trigger items[i]} :: 0 <= i < |items| ==> IsGenuine(items[i])
  }

  /** Two different chunks with the same digest. */
  predicate Collide(a: Chunk, b: Chunk) { a != b && Sha1Spec.Digest(a) == Sha1Spec.Digest(b) }

  /** The packet changes a byte of a finished chunk, and not into a collision of SHA-1. */
  predicate Spoils(d: State, k: nat, seqNum: nat, payload: seq<bv8>)
    requires k < |d.pool|
  {
    var item, data := d.items[d.pool[k].conn.chunk], Taken(InboxOf(d, k), seqNum, payload).data;
    item.state == FINISHED && data != item.data && !Collide(item.data, data)
  }

  /** A receiver whose chunk has been scanned away passes its check, while a chunk left to do has the same hash and
      the first such has not the wanted digest. */
  predicate Misleads(d: State, k: nat)
    requires k < |d.pool|
  {
    var item := d.items[d.pool[k].conn.chunk];
    && IsFull(InboxOf(d, k)) && Checks(item.data, item.sha1) && d.pool[k].conn.chunk in d.done
    && Found(d, item.sha1).Some? && !Checks(d.items[Found(d, item.sha1).value].data, item.sha1)
  }

  predicate GoesWrong(d: State, event: Event) {
    && event.Data? && Connections.Connected(Peers(d), event.peer)
    && var k := FirstAt(Peers(d), event.peer);
       Spoils(d, k, event.seqNum, event.payload) || Misleads(Took(d, k, event.seqNum, event.payload), k)
  }

  lemma DoneNotFound(d: State, i: nat)
    requires Inv(d) && i in d.done && i < |d.items|
    requires forall j, k :: 0 <= j < k < |d.items| ==> d.items[j].sha1 != d.items[k].sha1
    ensures Found(d, d.items[i].sha1) == None
  {
    assert InOneQueue(d, i);
  }

  /** With different hashes no receiver misleads. */
  lemma DifferentHashesAreSafe(d: State, k: nat)
    requires Inv(d) && k < |d.pool|
    requires forall i, j :: 0 <= i < j < |d.items| ==> d.items[i].sha1 != d.items[j].sha1
    ensures !Misleads(d, k)
  {
    if d.pool[k].conn.chunk in d.done {
      DoneNotFound(d, d.pool[k].conn.chunk);
    }
  }

  lemma ChecksTwice(a: Chunk, b: Chunk, sha1: HashLists.Hash)
    requires Checks(a, sha1)
    ensures Checks(b, sha1) <==> Sha1Spec.Digest(a) == Sha1Spec.Digest(b)
  {
    HashLists.BinaryRoundTrip(Sha1Spec.Digest(a));
    HashLists.BinaryRoundTrip(Sha1Spec.Digest(b));
  }

  lemma TookGenuine(d: State, k: nat, seqNum: nat, payload: seq<bv8>)
    requires AreGenuine(d.items) && k < |d.pool|
    ensures AreGenuine(Took(d, k, seqNum, payload).items) <==> !Spoils(d, k, seqNum, payload)
  {
    var i, data := d.pool[k].conn.chunk, Taken(InboxOf(d, k), seqNum, payload).data;
    var t := Took(d, k, seqNum, payload);
    assert IsGenuine(d.items[i]);
    if d.items[i].state == FINISHED {
      ChecksTwice(d.items[i].data, data, d.items[i].sha1);
    }
    assert t.items[i] == d.items[i].(data := data);
    assert IsGenuine(t.items[i]) <==> !Spoils(d, k, seqNum, payload);
    assert AreGenuine(t.items) ==> IsGenuine(t.items[i]);
  }

  lemma StaysWrong(item: Item, state: ChunkState)
    requires !IsGenuine(item)
    ensures !IsGenuine(item.(state := Forward(item.state, state)))
  {
  }

  /** A mark takes no chunk back. */
  lemma MarkedStaysWrong(d: State, sha1: HashLists.Hash, state: ChunkState)
    requires !AreGenuine(d.items)
    ensures !AreGenuine(Marked(d, sha1, state).items)
  {
    var i :| 0 <= i < |d.items| && !IsGenuine(d.items[i]);
    var t := Marked(d, sha1, state);
    assert t.items[i] == d.items[i] || t.items[i] == d.items[i].(state := Forward(d.items[i].state, state));
    StaysWrong(d.items[i], state);
    assert !IsGenuine(t.items[i]);
  }

  lemma JudgedStaysWrong(d: State, k: nat)
    requires k < |d.pool| && !AreGenuine(d.items)
    ensures !AreGenuine(Judged(d, k).items)
  {
    var item := d.items[d.pool[k].conn.chunk];
    MarkedStaysWrong(d, item.sha1, Downloads.Verdict(item.data, item.sha1));
  }

  /** An update to READY or DOWNLOADING finishes nothing; one to FINISHED finishes the chunk that is found. */
  lemma MarkedGenuine(d: State, sha1: HashLists.Hash, state: ChunkState)
    requires AreGenuine(d.items)
    ensures AreGenuine(Marked(d, sha1, state).items) <==>
            state != FINISHED || Found(d, sha1) == None || Checks(d.items[Found(d, sha1).value].data, sha1)
  {
    var t := Marked(d, sha1, state);
    match Found(d, sha1)
    case None =>
    case Some(i) =>
      assert IsGenuine(d.items[i]);
      assert AreGenuine(t.items) ==> IsGenuine(t.items[i]);
  }

  lemma JudgedGenuine(d: State, k: nat)
    requires Inv(d) && AreGenuine(d.items) && k < |d.pool|
    ensures AreGenuine(Judged(d, k).items) <==> !Misleads(d, k)
  {
    var i := d.pool[k].conn.chunk;
    var item := d.items[i];
    MarkedGenuine(d, item.sha1, Downloads.Verdict(item.data, item.sha1));
    FoundIsFirst(d, item.sha1);
    assert FirstOrDone(d, d.pool[k].conn.chunk);
    assert InOneQueue(d, i);
    var marked := Marked(d, item.sha1, Downloads.Verdict(item.data, item.sha1));
    if IsFull(InboxOf(d, k)) {
      assert Judged(d, k).items == marked.items;
    }
  }

  lemma RequestedGenuine(d: State)
    requires AreGenuine(d.items)
    ensures AreGenuine(Requested(d).items)
  {
    if d.down != [] {
      var added := d.(pool := d.pool + [Worker(Asked(d), Filler(Chosen(d), 0))]);
      MarkedGenuine(added, d.items[Chosen(d)].sha1, DOWNLOADING);
    }
  }

  lemma OfferedGenuine(d: State, sha1: HashLists.Hash, peer: Peer)
    requires AreGenuine(d.items)
    ensures AreGenuine(Offered(d, sha1, peer).items)
  {
    match Found(d, sha1)
    case None =>
    case Some(i) => assert IsGenuine(d.items[i]);
  }

  /** A step spoils the finished chunks exactly if it goes wrong. */
  lemma NextGenuine(d: State, event: Event)
    requires Inv(d) && AreGenuine(d.items)
    ensures AreGenuine(Next(d, event).items) <==> !GoesWrong(d, event)
  {
    match event
    case Ihave(sha1, peer) => OfferedGenuine(d, sha1, peer);
    case LookAt => RequestedGenuine(Scanned(d));
    case Data(_, _, _) =>
      if Connections.Connected(Peers(d), event.peer) {
        var k := FirstAt(Peers(d), event.peer);
        var took := Took(d, k, event.seqNum, event.payload);
        TookGenuine(d, k, event.seqNum, event.payload);
        TookInv(d, k, event.seqNum, event.payload);
        if AreGenuine(took.items) {
          JudgedGenuine(took, k);
        } else {
          JudgedStaysWrong(took, k);
        }
      }
  }

  predicate AlwaysGenuine(maxNum: nat, list: seq<HashLists.Hash>, events: seq<Event>) {
    AreGenuine(Run(maxNum, list, events).items)
    && (events == [] || AlwaysGenuine(maxNum, list, events[..|events| - 1]))
  }

  predicate NeverWrong(maxNum: nat, list: seq<HashLists.Hash>, events: seq<Event>) {
    events == [] ||
    (NeverWrong(maxNum, list, events[..|events| - 1])
     && !GoesWrong(Run(maxNum, list, events[..|events| - 1]), events[|events| - 1]))
  }

  lemma OneMore(maxNum: nat, list: seq<HashLists.Hash>, events: seq<Event>, event: Event)
    requires AlwaysGenuine(maxNum, list, events) <==> NeverWrong(maxNum, list, events)
    ensures AlwaysGenuine(maxNum, list, events + [event]) <==> NeverWrong(maxNum, list, events + [event])
  {
    assert (events + [event])[..|events|] == events;
    if AlwaysGenuine(maxNum, list, events) {
      RunInv(maxNum, list, events);
      RunStep(Start(maxNum, list), events, event);
      NextGenuine(Run(maxNum, list, events), event);
    }
  }

  /** In a run every state has only genuine finished chunks if and only if no step goes wrong. */
  lemma {:induction false} RunGenuine(maxNum: nat, list: seq<HashLists.Hash>, events: seq<Event>)
    ensures AlwaysGenuine(maxNum, list, events) <==> NeverWrong(maxNum, list, events)
  {
    if events != [] {
      var init, last := events[..|events| - 1], events[|events| - 1];
      assert events == init + [last];
      RunGenuine(maxNum, list, init);
      OneMore(maxNum, list, init, last);
    }
  }
}
