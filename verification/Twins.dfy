/** Two chunks of a list with one hash: a run of honest peers in which one of them counts as finished without any
    data, so that Honest's condition is exact. */
module Twins {
  import opened LinkedQueue
  import opened Chunking
  import opened Pools
  import opened Receiving
  import opened Loading
  import opened Honest
  import Connections
  import Downloads
  import HashLists
  import Tracker

  /** The events and then more are honest. */
  predicate GoesOn(content: Content, d: State, events: seq<Event>, more: seq<Event>) {
    AreHonest(content, d, events + more)
  }

  lemma GoesOnNext(content: Content, d: State, events: seq<Event>, more: seq<Event>, event: Event)
    requires GoesOn(content, d, events, more) && IsHonest(content, RunFrom(RunFrom(d, events), more), event)
    ensures GoesOn(content, d, events, more + [event])
  {
    RunAppend(d, events, more);
    assert events + (more + [event]) == events + more + [event];
    assert (events + more + [event])[..|events + more|] == events + more;
  }

  lemma LastHonest(content: Content, d: State, events: seq<Event>, event: Event)
    requires AreHonest(content, d, events + [event])
    ensures AreHonest(content, d, events) && IsHonest(content, RunFrom(d, events), event)
  {
    assert (events + [event])[..|events|] == events;
  }

  lemma {:induction false} HonestAppend(content: Content, d: State, events: seq<Event>, more: seq<Event>)
    requires AreHonest(content, d, events) && AreHonest(content, RunFrom(d, events), more)
    ensures GoesOn(content, d, events, more)
  {
    if more == [] {
      assert events + more == events;
    } else {
      var init, last := more[..|more| - 1], more[|more| - 1];
      assert init + [last] == more;
      LastHonest(content, RunFrom(d, events), init, last);
      HonestAppend(content, d, events, init);
      GoesOnNext(content, d, events, init, last);
    }
  }

  // ---------- A receiver gets all its packets ----------

  /** The chunk of receiver k with other data, and the receiver with n packets. */
  function Part(d: State, k: nat, data: Chunk, n: nat): State
    requires k < |d.pool|
  {
    var i := d.pool[k].conn.chunk;
    d.(items := d.items[i := d.items[i].(data := data)], pool := d.pool[k := d.pool[k].(conn := Filler(i, n))])
  }

  /** The chunk that receiver k wants. */
  function Wanted(content: Content, d: State, k: nat): Chunk
    requires k < |d.pool|
  {
    content(d.items[d.pool[k].conn.chunk].sha1)
  }

  /** Receiver k of a known peer, which has received nothing. */
  predicate Begins(d: State, k: nat) {
    k < |d.pool| && d.pool[k].peer != None && k == FirstAt(Peers(d), d.pool[k].peer) && d.pool[k].conn.lastRcvd == 0
  }

  function Stored(content: Content, d: State, k: nat, data: Chunk, n: nat): Chunk
    requires k < |d.pool| && n < PKT_NUM
  {
    Store(data, n * DATA_SIZE, Slice(Wanted(content, d, k), n))
  }

  function Packet(content: Content, d: State, k: nat, n: nat): Event
    requires k < |d.pool| && n < PKT_NUM
  {
    Data(d.pool[k].peer, n + 1, Slice(Wanted(content, d, k), n))
  }

  lemma PartTakes(content: Content, d: State, k: nat, data: Chunk, n: nat)
    requires Begins(d, k) && n < PKT_NUM
    ensures IsHonest(content, Part(d, k, data, n), Packet(content, d, k, n))
    ensures Next(Part(d, k, data, n), Packet(content, d, k, n)) ==
            Judged(Part(d, k, Stored(content, d, k, data, n), n + 1), k)
  {
    var p := Part(d, k, data, n);
    assert Peers(p) == Peers(d);
    assert Took(p, k, n + 1, Slice(Wanted(content, d, k), n)) == Part(d, k, Stored(content, d, k, data, n), n + 1);
  }

  lemma NotFullYet(d: State, k: nat, data: Chunk, n: nat)
    requires k < |d.pool| && n < PKT_NUM
    ensures Judged(Part(d, k, data, n), k) == Part(d, k, data, n)
  {
    CoveredAll(n);
  }

  /** The next packet but the last. */
  lemma PartNext(content: Content, d: State, k: nat, data: Chunk, n: nat) returns (stored: Chunk)
    requires Begins(d, k) && n + 1 < PKT_NUM
    requires data[..Covered(n)] == Wanted(content, d, k)[..Covered(n)]
    ensures stored[..Covered(n + 1)] == Wanted(content, d, k)[..Covered(n + 1)]
    ensures IsHonest(content, Part(d, k, data, n), Packet(content, d, k, n))
    ensures Next(Part(d, k, data, n), Packet(content, d, k, n)) == Part(d, k, stored, n + 1)
  {
    stored := Stored(content, d, k, data, n);
    StoreNextSlice(Wanted(content, d, k), data, n);
    PartTakes(content, d, k, data, n);
    NotFullYet(d, k, stored, n + 1);
  }

  /** One more honest event. */
  lemma HonestStep(content: Content, d: State, events: seq<Event>, event: Event, s: State)
    requires AreHonest(content, d, events) && RunFrom(d, events) == s && IsHonest(content, s, event)
    ensures AreHonest(content, d, events + [event]) && RunFrom(d, events + [event]) == Next(s, event)
  {
    assert (events + [event])[..|events|] == events;
    RunStep(d, events, event);
  }

  lemma PartStarts(d: State, k: nat)
    requires Begins(d, k)
    ensures Part(d, k, d.items[d.pool[k].conn.chunk].data, 0) == d
  {
    var i := d.pool[k].conn.chunk;
    assert d.items[i := d.items[i]] == d.items && d.pool[k := d.pool[k]] == d.pool;
  }

  /** After the events receiver k has n packets of the chunk. */
  ghost predicate Partly(content: Content, d: State, k: nat, data: Chunk, events: seq<Event>, n: nat)
    requires k < |d.pool|
  {
    && data[..Covered(n)] == Wanted(content, d, k)[..Covered(n)]
    && AreHonest(content, d, events) && RunFrom(d, events) == Part(d, k, data, n)
  }

  lemma PartlyNext(content: Content, d: State, k: nat, before: Chunk, events: seq<Event>, n: nat)
    returns (data: Chunk, more: seq<Event>)
    requires Begins(d, k) && n + 1 < PKT_NUM && Partly(content, d, k, before, events, n)
    ensures Partly(content, d, k, data, more, n + 1)
  {
    data := PartNext(content, d, k, before, n);
    HonestStep(content, d, events, Packet(content, d, k, n), Part(d, k, before, n));
    more := events + [Packet(content, d, k, n)];
  }

  lemma PartlyStarts(content: Content, d: State, k: nat)
    requires Begins(d, k)
    ensures Partly(content, d, k, d.items[d.pool[k].conn.chunk].data, [], 0)
  {
    PartStarts(d, k);
  }

  lemma PartRuns(content: Content, d: State, k: nat, n: nat) returns (data: Chunk, events: seq<Event>)
    requires Begins(d, k) && n < PKT_NUM
    ensures Partly(content, d, k, data, events, n)
  {
    data, events := d.items[d.pool[k].conn.chunk].data, [];
    PartlyStarts(content, d, k);
    for m := 0 to n
      invariant Partly(content, d, k, data, events, m)
    {
      data, events := PartlyNext(content, d, k, data, events, m);
    }
  }

  lemma Whole(data: Chunk, chunk: Chunk, n: nat)
    requires n >= PKT_NUM && data[..Covered(n)] == chunk[..Covered(n)]
    ensures data == chunk
  {
    CoveredAll(n);
    assert data == data[..CHUNK_SIZE] && chunk == chunk[..CHUNK_SIZE];
  }

  lemma LastPacket(content: Content, d: State, k: nat, data: Chunk, n: nat)
    requires Begins(d, k) && n + 1 == PKT_NUM && data[..Covered(n)] == Wanted(content, d, k)[..Covered(n)]
    ensures IsHonest(content, Part(d, k, data, n), Packet(content, d, k, n))
    ensures Next(Part(d, k, data, n), Packet(content, d, k, n)) == Judged(Part(d, k, Wanted(content, d, k), n + 1), k)
  {
    StoreNextSlice(Wanted(content, d, k), data, n);
    PartTakes(content, d, k, data, n);
    Whole(Stored(content, d, k, data, n), Wanted(content, d, k), n + 1);
  }

  /** All packets from an honest peer: the receiver has the whole chunk and is judged. */
  lemma AllPackets(content: Content, d: State, k: nat, n: nat) returns (events: seq<Event>)
    requires Begins(d, k) && n + 1 == PKT_NUM
    ensures AreHonest(content, d, events)
    ensures RunFrom(d, events) == Judged(Part(d, k, Wanted(content, d, k), n + 1), k)
  {
    var before, init := PartRuns(content, d, k, n);
    LastPacket(content, d, k, before, n);
    HonestStep(content, d, init, Packet(content, d, k, n), Part(d, k, before, n));
    events := init + [Packet(content, d, k, n)];
  }

  // ---------- Two receivers for one chunk ----------

  predicate IsEarliest(list: seq<HashLists.Hash>, i: nat) {
    i < |list| && forall j :: 0 <= j < i ==> list[j] != list[i]
  }

  /** Nothing is finished; chunk i has the holders own, and the first chunk, if it is another one, the holders first. */
  ghost predicate Held(list: seq<HashLists.Hash>, d: State, i: nat, first: seq<Peer>, own: seq<Peer>) {
    && Names(list, d) && IsEarliest(list, i) && d.down == Positions(|list|) && d.done == []
    && forall j {:trigger d.items[j]} :: 0 <= j < |d.items| ==>
         d.items[j].data == Blank() && d.items[j].state != FINISHED
         && d.items[j].holders == if j == i then own else if j == 0 then first else []
  }

  lemma FindsEarliest(list: seq<HashLists.Hash>, d: State, i: nat)
    requires Names(list, d) && IsEarliest(list, i) && d.down == Positions(|list|)
    ensures Found(d, list[i]) == Some(i)
  {
    FoundIsFirst(d, list[i]);
    assert d.down[i] == i && d.items[i].sha1 == list[i];
    assert IsFirst(d, i);
  }

  lemma OfferOwn(list: seq<HashLists.Hash>, d: State, i: nat, first: seq<Peer>, own: seq<Peer>, peer: Peer)
    requires Held(list, d, i, first, own)
    ensures Held(list, Next(d, Ihave(list[i], peer)), i, first, own + [peer])
  {
    FindsEarliest(list, d, i);
  }

  lemma OfferFirst(list: seq<HashLists.Hash>, d: State, i: nat, first: seq<Peer>, own: seq<Peer>, peer: Peer)
    requires Held(list, d, i, first, own) && i > 0
    ensures Held(list, Next(d, Ihave(list[0], peer)), i, first + [peer], own)
  {
    FindsEarliest(list, d, 0);
  }

  /** The run has led to t, whose pool is as given. */
  ghost predicate Leads(content: Content, d: State, events: seq<Event>, t: State, pool: seq<Worker<Filler>>) {
    AreHonest(content, d, events) && RunFrom(d, events) == t && t.maxNum == d.maxNum && t.pool == pool
  }

  lemma LeadsOn(content: Content, d: State, events: seq<Event>, t: State, pool: seq<Worker<Filler>>, event: Event)
    requires Leads(content, d, events, t, pool) && event.Ihave?
    ensures Leads(content, d, events + [event], Next(t, event), pool)
  {
    HonestStep(content, d, events, event, t);
  }

  const PEER0: Peer := Some(0)
  const PEER1: Peer := Some(1)
  const PEER2: Peer := Some(2)

  lemma OffersFirst(content: Content, list: seq<HashLists.Hash>, d: State, i: nat)
    returns (events: seq<Event>, t: State)
    requires Held(list, d, i, [], []) && i > 0 && d.pool == []
    ensures Leads(content, d, events, t, []) && Held(list, t, i, [PEER0, PEER0, PEER0], [])
  {
    var offer := Ihave(list[0], PEER0);
    var one := Next(d, offer);
    var two := Next(one, offer);
    OfferFirst(list, d, i, [], [], PEER0);
    LeadsOn(content, d, [], d, [], offer);
    assert [] + [PEER0] == [PEER0] && [] + [offer] == [offer];
    OfferFirst(list, one, i, [PEER0], [], PEER0);
    LeadsOn(content, d, [offer], one, [], offer);
    assert [PEER0] + [PEER0] == [PEER0, PEER0];
    OfferFirst(list, two, i, [PEER0, PEER0], [], PEER0);
    LeadsOn(content, d, [offer] + [offer], two, [], offer);
    assert [PEER0, PEER0] + [PEER0] == [PEER0, PEER0, PEER0];
    events, t := [offer] + [offer] + [offer], Next(two, offer);
  }

  function FirstHolders(i: nat): seq<Peer> { if i == 0 then [] else [PEER0, PEER0, PEER0] }

  /** Peers 1 and 2 offer chunk i, and peer 0 offers the first chunk three times, if that is another one. */
  lemma Offers(content: Content, maxNum: nat, list: seq<HashLists.Hash>, i: nat) returns (events: seq<Event>, t: State)
    requires IsEarliest(list, i)
    ensures Leads(content, Start(maxNum, list), events, t, [])
    ensures Held(list, t, i, FirstHolders(i), [PEER1, PEER2])
  {
    var d := Start(maxNum, list);
    events, t := [], d;
    if i > 0 {
      events, t := OffersFirst(content, list, d, i);
    }
    var one, two := Ihave(list[i], PEER1), Ihave(list[i], PEER2);
    OfferOwn(list, t, i, FirstHolders(i), [], PEER1);
    LeadsOn(content, d, events, t, [], one);
    assert [] + [PEER1] == [PEER1];
    OfferOwn(list, Next(t, one), i, FirstHolders(i), [PEER1], PEER2);
    LeadsOn(content, d, events + [one], Next(t, one), [], two);
    assert [PEER1] + [PEER2] == [PEER1, PEER2];
    events, t := events + [one] + [two], Next(Next(t, one), two);
  }

  lemma {:induction false} NoneFinished(items: seq<Item>, queue: seq<nat>)
    requires Within(items, queue) && forall a :: 0 <= a < |queue| ==> items[queue[a]].state != FINISHED
    ensures Those(items, queue, false) == queue && Those(items, queue, true) == []
  {
    if queue != [] {
      NoneFinished(items, queue[..|queue| - 1]);
    }
  }

  lemma ChoosesOwn(list: seq<HashLists.Hash>, d: State, i: nat, first: seq<Peer>, own: seq<Peer>)
    requires Held(list, d, i, first, own) && (if i == 0 then |own| > 0 else |first| > |own| > 0)
    ensures Chosen(d) == i
  {
    var counts := Counts(d);
    assert forall a :: 0 <= a < |counts| ==> counts[a] == if a == i then |own| else if a == 0 then |first| else 0;
    Tracker.RarestFirst(counts);
    assert counts[0] > 0 && counts[i] == |own|;
    var c := Tracker.Choice(counts, |counts|);
    assert counts[c] > 0 && counts[c] <= counts[i];
    assert d.down[c] == c;
  }

  lemma MarkedHeld(list: seq<HashLists.Hash>, d: State, i: nat, first: seq<Peer>, own: seq<Peer>)
    requires Held(list, d, i, first, own)
    ensures Held(list, Marked(d, list[i], DOWNLOADING), i, first, own)
  {
    FindsEarliest(list, d, i);
  }

  lemma ScansNothing(list: seq<HashLists.Hash>, d: State, i: nat, first: seq<Peer>, own: seq<Peer>)
    requires Held(list, d, i, first, own)
    ensures Scanned(d) == d
  {
    NoneFinished(d.items, d.down);
  }

  function Joined(d: State, i: nat, peer: Peer): State
    requires i < |d.items|
  {
    d.(pool := d.pool + [Worker(peer, Filler(i, 0))])
  }

  lemma RequestedJoins(d: State, i: nat, peer: Peer)
    requires d.down != [] && Chosen(d) == i && Asked(d) == peer && peer != None && |d.pool| < d.maxNum
    ensures Requested(d) == Marked(Joined(d, i, peer), d.items[i].sha1, DOWNLOADING)
  {
  }

  lemma MarkedPool(d: State, sha1: HashLists.Hash, state: ChunkState)
    ensures Marked(d, sha1, state).pool == d.pool && Marked(d, sha1, state).maxNum == d.maxNum
  {
  }

  lemma JoinedHeld(list: seq<HashLists.Hash>, d: State, i: nat, first: seq<Peer>, own: seq<Peer>, peer: Peer)
    requires Held(list, d, i, first, own)
    ensures Held(list, Joined(d, i, peer), i, first, own)
  {
  }

  /** look_at opens a receiver for chunk i and the peer that it picks. */
  lemma Asks(list: seq<HashLists.Hash>, d: State, i: nat, first: seq<Peer>, own: seq<Peer>, peer: Peer)
    requires Held(list, d, i, first, own) && (if i == 0 then |own| > 0 else |first| > |own| > 0)
    requires |d.pool| < d.maxNum && peer != None && Connections.Pick(Peers(d), own) == peer
    ensures var t := Next(d, LookAt);
            Held(list, t, i, first, own) && t.pool == Joined(d, i, peer).pool && t.maxNum == d.maxNum
  {
    ScansNothing(list, d, i, first, own);
    ChoosesOwn(list, d, i, first, own);
    assert d.items[i].holders == own && d.items[i].sha1 == list[i];
    RequestedJoins(d, i, peer);
    JoinedHeld(list, d, i, first, own, peer);
    MarkedHeld(list, Joined(d, i, peer), i, first, own);
    MarkedPool(Joined(d, i, peer), list[i], DOWNLOADING);
  }

  function Waits(peer: Peer, i: nat): Worker<Filler> { Worker(peer, Filler(i, 0)) }

  /** The one of peers 1 and 2 that look_at asks next. */
  lemma Picks(ps: seq<Peer>)
    requires ps == [] || ps == [PEER1]
    ensures Connections.Pick(ps, [PEER1, PEER2]) == if ps == [] then PEER1 else PEER2
  {
    Connections.NotConnected(ps, PEER1);
    Connections.NotConnected(ps, PEER2);
    assert [PEER1, PEER2][1..] == [PEER2];
    assert ps != [] ==> Connections.FirstFree(ps, [PEER2]) == 0;
    assert Connections.FirstFree(ps, [PEER1, PEER2]) == |ps|;
  }

  lemma AsksNext(content: Content, start: State, events: seq<Event>, list: seq<HashLists.Hash>, d: State, i: nat,
                 pool: seq<Worker<Filler>>, peer: Peer)
    returns (more: seq<Event>, t: State)
    requires Leads(content, start, events, d, pool) && Held(list, d, i, FirstHolders(i), [PEER1, PEER2])
    requires |pool| < start.maxNum && (PeersOf(pool) == [] || PeersOf(pool) == [PEER1])
    requires peer == if PeersOf(pool) == [] then PEER1 else PEER2
    ensures Leads(content, start, more, t, pool + [Waits(peer, i)])
    ensures Held(list, t, i, FirstHolders(i), [PEER1, PEER2])
  {
    Picks(PeersOf(pool));
    Asks(list, d, i, FirstHolders(i), [PEER1, PEER2], peer);
    HonestStep(content, start, events, LookAt, d);
    more, t := events + [LookAt], Next(d, LookAt);
  }

  function Both(i: nat): seq<Worker<Filler>> { [Waits(PEER1, i), Waits(PEER2, i)] }

  /** Two calls of look_at open two receivers for chunk i. */
  lemma TwoReceivers(content: Content, maxNum: nat, list: seq<HashLists.Hash>, i: nat)
    returns (events: seq<Event>, t: State)
    requires IsEarliest(list, i) && maxNum >= 2
    ensures Leads(content, Start(maxNum, list), events, t, Both(i))
    ensures Held(list, t, i, FirstHolders(i), [PEER1, PEER2])
  {
    var start := Start(maxNum, list);
    events, t := Offers(content, maxNum, list, i);
    events, t := AsksNext(content, start, events, list, t, i, [], PEER1);
    var pool := [] + [Waits(PEER1, i)];
    assert PeersOf(pool) == [PEER1];
    events, t := AsksNext(content, start, events, list, t, i, pool, PEER2);
    assert pool + [Waits(PEER2, i)] == Both(i);
  }

  /** What look_at leaves as it is, and what its scan moves. */
  lemma LookKeeps(d: State)
    ensures var t := Next(d, LookAt);
            && |t.items| == |d.items|
            && (forall j {:trigger t.items[j]} :: 0 <= j < |d.items| ==>
                 t.items[j].data == d.items[j].data && t.items[j].sha1 == d.items[j].sha1)
            && |t.pool| >= |d.pool| && t.pool[..|d.pool|] == d.pool
            && (forall j: nat :: j in t.done <==> j in d.done || (j in d.down && d.items[j].state == FINISHED))
            && (forall j: nat :: j in t.down <==> j in d.down && d.items[j].state != FINISHED)
  {
  }

  /** The first receiver gets its chunk. */
  lemma FirstFinishes(content: Content, list: seq<HashLists.Hash>, d: State, i: nat, n: nat)
    requires Held(list, d, i, FirstHolders(i), [PEER1, PEER2]) && d.pool == Both(i)
    requires Checks(content(list[i]), list[i]) && n == PKT_NUM
    ensures var t := Judged(Part(d, 0, content(list[i]), n), 0);
            && t.pool == [Waits(PEER2, i)] && t.down == d.down && t.done == d.done && |t.items| == |d.items|
            && t.items[i].state == FINISHED && t.items[i].sha1 == list[i]
            && forall j :: 0 <= j < |d.items| && j != i ==> t.items[j] == d.items[j]
  {
    var p := Part(d, 0, content(list[i]), n);
    CoveredAll(n);
    FindsEarliest(list, p, i);
    assert IsFull(InboxOf(p, 0));
    assert p.items[i].sha1 == list[i] && p.items[i].data == content(list[i]);
    assert Without(p.pool, 0) == [Waits(PEER2, i)];
  }

  /** A chunk with the hash counts as finished and holds nothing but zeros. */
  ghost predicate HasEmpty(d: State, sha1: HashLists.Hash) {
    exists b {:trigger d.items[b]} :: 0 <= b < |d.items| &&
      d.items[b].sha1 == sha1 && d.items[b].state == FINISHED && d.items[b].data == Blank()
  }

  /** The chunk has been scanned away when its second receiver gets it: another one with the hash is marked. */
  lemma SecondMisleads(content: Content, list: seq<HashLists.Hash>, d: State, i: nat, j: nat, n: nat)
    requires Inv(d) && Names(list, d) && d.pool != [] && d.pool[0] == Waits(PEER2, i) && n == PKT_NUM
    requires i < |list| && i in d.done && j in d.down && list[j] == list[i]
    requires Checks(content(list[i]), list[i]) && content(list[i]) != Blank()
    requires forall x :: 0 <= x < |list| && x != i ==> d.items[x].data == Blank()
    ensures HasEmpty(Judged(Part(d, 0, content(list[i]), n), 0), list[i])
  {
    var p := Part(d, 0, content(list[i]), n);
    CoveredAll(n);
    FoundIsFirst(p, list[i]);
    assert p.items[j].sha1 == list[i];
    var b := Found(p, list[i]).value;
    assert InOneQueue(d, b);
    assert b != i;
    var t := Judged(p, 0);
    assert t.items[b].state == FINISHED && t.items[b].data == Blank();
  }

  /** The packets of the first receiver, and look_at. */
  lemma FirstPart(content: Content, list: seq<HashLists.Hash>, d: State, i: nat, j: nat)
    returns (events: seq<Event>, t: State)
    requires Inv(d) && Held(list, d, i, FirstHolders(i), [PEER1, PEER2]) && d.pool == Both(i)
    requires i < j < |list| && Checks(content(list[i]), list[i])
    ensures AreHonest(content, d, events) && RunFrom(d, events) == t && Inv(t)
    ensures ScannedAway(list, t, i, j)
  {
    var n := PKT_NUM;
    events := AllPackets(content, d, 0, n - 1);
    var one := RunFrom(d, events);
    FirstFinishes(content, list, d, i, n);
    AfterFirst(list, d, one, i, j);
    HonestStep(content, d, events, LookAt, one);
    events, t := events + [LookAt], Next(one, LookAt);
    RunFromInv(d, events);
  }

  /** Chunk i is done, chunk j is not, the receiver for chunk i from peer 2 waits, and the other chunks are zeros. */
  ghost predicate ScannedAway(list: seq<HashLists.Hash>, t: State, i: nat, j: nat) {
    && Names(list, t) && t.pool != [] && t.pool[0] == Waits(PEER2, i) && Begins(t, 0)
    && i in t.done && j in t.down && i < |list|
    && forall x :: 0 <= x < |list| && x != i ==> t.items[x].data == Blank()
  }

  lemma AfterFirst(list: seq<HashLists.Hash>, d: State, one: State, i: nat, j: nat)
    requires Inv(d) && Held(list, d, i, FirstHolders(i), [PEER1, PEER2]) && i < j < |list|
    requires one.pool == [Waits(PEER2, i)] && one.down == d.down && one.done == d.done && |one.items| == |d.items|
    requires one.items[i].state == FINISHED && one.items[i].sha1 == list[i]
    requires forall x :: 0 <= x < |d.items| && x != i ==> one.items[x] == d.items[x]
    ensures ScannedAway(list, Next(one, LookAt), i, j)
  {
    LookKeeps(one);
    assert one.down[i] == i && one.down[j] == j;
  }

  /** The packets of the second receiver. */
  lemma SecondPart(content: Content, list: seq<HashLists.Hash>, d: State, i: nat, j: nat) returns (events: seq<Event>)
    requires Inv(d) && ScannedAway(list, d, i, j) && list[j] == list[i]
    requires Checks(content(list[i]), list[i]) && content(list[i]) != Blank()
    ensures AreHonest(content, d, events) && HasEmpty(RunFrom(d, events), list[i])
  {
    var n := PKT_NUM;
    events := AllPackets(content, d, 0, n - 1);
    SecondMisleads(content, list, d, i, j, n);
  }

  lemma {:induction false} Earliest(list: seq<HashLists.Hash>, i: nat) returns (e: nat)
    requires i < |list|
    ensures e <= i && IsEarliest(list, e) && list[e] == list[i]
  {
    if j: nat :| j < i && list[j] == list[i] {
      e := Earliest(list, j);
    } else {
      e := i;
    }
  }

  /** With room for two receivers, twins lead to a finished chunk without any data. */
  lemma TwinsGoWrong(content: Content, maxNum: nat, list: seq<HashLists.Hash>, i: nat, j: nat)
    returns (events: seq<Event>)
    requires maxNum >= 2 && AreTwins(content, list, i, j) && Checks(content(list[i]), list[i])
    ensures AreHonest(content, Start(maxNum, list), events) && HasEmpty(Run(maxNum, list, events), list[i])
  {
    var start := Start(maxNum, list);
    var e := Earliest(list, i);
    var first, one := TwoReceivers(content, maxNum, list, e);
    RunInv(maxNum, list, first);
    var second, two := FirstPart(content, list, one, e, j);
    var third := SecondPart(content, list, two, e, j);
    HonestAppend(content, start, first, second);
    RunAppend(start, first, second);
    HonestAppend(content, start, first + second, third);
    RunAppend(start, first + second, third);
    events := first + second + third;
  }

  lemma EmptyIsWrong(content: Content, d: State, sha1: HashLists.Hash)
    requires HasEmpty(d, sha1) && content(sha1) != Blank()
    ensures !AreRight(content, d)
  {
    var b :| 0 <= b < |d.items| &&
             d.items[b].sha1 == sha1 && d.items[b].state == FINISHED && d.items[b].data == Blank();
    assert !IsRight(content, d.items[b]);
  }

  /** Every hash of the list is that of the chunk it stands for. */
  predicate AreHashed(content: Content, list: seq<HashLists.Hash>) {
    forall i :: 0 <= i < |list| ==> Checks(content(list[i]), list[i])
  }

  /** Whatever honest peers send, in whatever order, the finished chunks are the right ones. */
  ghost predicate IsAlwaysRight(content: Content, maxNum: nat, list: seq<HashLists.Hash>) {
    forall events: seq<Event> :: AreHonest(content, Start(maxNum, list), events) ==>
      AreRight(content, Run(maxNum, list, events))
  }

  lemma RightIfSafe(content: Content, maxNum: nat, list: seq<HashLists.Hash>)
    requires maxNum <= 1 || !HasTwins(content, list)
    ensures IsAlwaysRight(content, maxNum, list)
  {
    forall events: seq<Event> | AreHonest(content, Start(maxNum, list), events)
      ensures AreRight(content, Run(maxNum, list, events))
    {
      RunFilled(content, maxNum, list, events);
    }
  }

  lemma WrongWithTwins(content: Content, maxNum: nat, list: seq<HashLists.Hash>)
    requires maxNum >= 2 && HasTwins(content, list) && AreHashed(content, list)
    ensures !IsAlwaysRight(content, maxNum, list)
  {
    var i: nat, j: nat :| AreTwins(content, list, i, j);
    var events := TwinsGoWrong(content, maxNum, list, i, j);
    EmptyIsWrong(content, Run(maxNum, list, events), list[i]);
  }

  /** That holds if and only if there is room for one receiver only or the list has no twins. */
  lemma FinishedIsRight(content: Content, maxNum: nat, list: seq<HashLists.Hash>)
    requires AreHashed(content, list)
    ensures IsAlwaysRight(content, maxNum, list) <==> maxNum <= 1 || !HasTwins(content, list)
  {
    if maxNum <= 1 || !HasTwins(content, list) {
      RightIfSafe(content, maxNum, list);
    } else {
      WrongWithTwins(content, maxNum, list);
    }
  }
}
