/** The two queues of chunks of a download: update_state, scan_chunk_done and the choice of the next chunk. */
module Tracker {
  import opened LinkedQueue
  import opened Receiving
  import opened Endpoints
  import HashLists
  import Runs

  // What the two queues are about: which chunk, its hash, and how far it is.
  datatype Entry = Entry(id: int, sha1: HashLists.Hash, state: ChunkState)

  datatype Board = Board(down: seq<Entry>, done: seq<Entry>)

  // update_state for the chunk with a hash, and scan_chunk_done
  datatype Event = Update(sha1: HashLists.Hash, state: ChunkState) | Scan

  /** contains_chunk: the position of the first entry with the hash, or the length if there is none. */
  function FirstWith(es: seq<Entry>, sha1: HashLists.Hash): (k: nat)
    ensures k <= |es| && (k < |es| ==> es[k].sha1 == sha1)
    ensures forall i :: 0 <= i < k ==> es[i].sha1 != sha1
  {
    if es == [] || es[0].sha1 == sha1 then 0 else 1 + FirstWith(es[1..], sha1)
  }

  function Updated(es: seq<Entry>, sha1: HashLists.Hash, state: ChunkState): seq<Entry> {
    var k := FirstWith(es, sha1);
    if k == |es| then es else es[k := es[k].(state := Forward(es[k].state, state))]
  }

  /** The entries that are finished, or those that are not, in order. */
  function Those(es: seq<Entry>, finished: bool): (r: seq<Entry>)
    ensures forall e :: e in r <==> e in es && (e.state == FINISHED) == finished
  {
    if es == [] then []
    else
      var last := es[|es| - 1];
      Those(es[..|es| - 1], finished) + if (last.state == FINISHED) == finished then [last] else []
  }

  function Next(b: Board, event: Event): Board {
    match event
    case Update(sha1, state) => b.(down := Updated(b.down, sha1, state))
    case Scan => Board(Those(b.down, false), b.done + Those(b.down, true))
  }

  function Stepper(): (Board, Event) -> Board {
    (b, event) => Next(b, event)
  }

  function Run(initial: seq<Entry>, events: seq<Event>): Board {
    Runs.Fold(Stepper(), Board(initial, []), events)
  }

  // A chunk without its state
  type Key = (int, HashLists.Hash)

  function Keys(es: seq<Entry>): (ks: seq<Key>)
    ensures |ks| == |es|
  {
    seq(|es|, i requires 0 <= i < |es| => (es[i].id, es[i].sha1))
  }

  /** a can be had from b by leaving elements out. */
  predicate IsSubsequence<T(==)>(a: seq<T>, b: seq<T>) {
    a == [] || (b != [] && (IsSubsequence(a, b[..|b| - 1])
                            || (a[|a| - 1] == b[|b| - 1] && IsSubsequence(a[..|a| - 1], b[..|b| - 1]))))
  }

  lemma {:induction false} SubsequenceReflexive<T>(a: seq<T>)
    ensures IsSubsequence(a, a)
  {
    if a != [] {
      SubsequenceReflexive(a[..|a| - 1]);
    }
  }

  lemma {:induction false} SubsequenceTransitive<T>(a: seq<T>, b: seq<T>, c: seq<T>)
    requires IsSubsequence(a, b) && IsSubsequence(b, c)
    ensures IsSubsequence(a, c)
    decreases |b| + |c|
  {
    if a != [] {
      if IsSubsequence(b, c[..|c| - 1]) {
        SubsequenceTransitive(a, b, c[..|c| - 1]);
      } else if IsSubsequence(a, b[..|b| - 1]) {
        SubsequenceTransitive(a, b[..|b| - 1], c[..|c| - 1]);
      } else {
        SubsequenceTransitive(a[..|a| - 1], b[..|b| - 1], c[..|c| - 1]);
      }
    }
  }

  lemma SubsequenceGrows<T>(a: seq<T>, b: seq<T>, x: T)
    requires IsSubsequence(a, b)
    ensures IsSubsequence(a, b + [x]) && IsSubsequence(a + [x], b + [x])
  {
    assert (a + [x])[..|a|] == a && (b + [x])[..|b|] == b;
  }

  lemma UpdateKeepsKeys(es: seq<Entry>, sha1: HashLists.Hash, state: ChunkState)
    ensures Keys(Updated(es, sha1, state)) == Keys(es) && Updated(es, sha1, READY) == es
    ensures forall i :: 0 <= i < |es| ==> Rank(es[i].state) <= Rank(Updated(es, sha1, state)[i].state)
  {
  }

  lemma KeysConcat(a: seq<Entry>, b: seq<Entry>)
    ensures Keys(a + b) == Keys(a) + Keys(b)
  {
  }

  lemma KeysSplit(es: seq<Entry>)
    requires es != []
    ensures Keys(es) == Keys(es[..|es| - 1]) + [Keys(es)[|es| - 1]]
  {
  }

  lemma KeysOfThose(es: seq<Entry>, finished: bool)
    requires es != []
    ensures var ks := Keys(Those(es[..|es| - 1], finished));
            Keys(Those(es, finished)) ==
            if (es[|es| - 1].state == FINISHED) == finished then ks + [Keys(es)[|es| - 1]] else ks
  {
    KeysConcat(Those(es[..|es| - 1], finished), [es[|es| - 1]]);
  }

  /** A scan loses no chunk and invents none. */
  lemma {:induction false} ScanKeepsChunks(es: seq<Entry>)
    ensures multiset(Keys(Those(es, false))) + multiset(Keys(Those(es, true))) == multiset(Keys(es))
  {
    if es != [] {
      ScanKeepsChunks(es[..|es| - 1]);
      KeysSplit(es);
      KeysOfThose(es, false);
      KeysOfThose(es, true);
    }
  }

  /** A scan keeps the order within both parts. */
  lemma {:induction false} ScanKeepsOrder(es: seq<Entry>, finished: bool)
    ensures IsSubsequence(Keys(Those(es, finished)), Keys(es))
  {
    if es != [] {
      ScanKeepsOrder(es[..|es| - 1], finished);
      KeysSplit(es);
      KeysOfThose(es, finished);
      SubsequenceGrows(Keys(Those(es[..|es| - 1], finished)), Keys(es[..|es| - 1]), Keys(es)[|es| - 1]);
    }
  }

  /** What every run keeps: the chunks of the two queues together are those of the start, the ones left to do in
      their first order, and only finished ones are done. */
  ghost predicate Inv(initial: seq<Entry>, b: Board) {
    && multiset(Keys(b.down)) + multiset(Keys(b.done)) == multiset(Keys(initial))
    && IsSubsequence(Keys(b.down), Keys(initial))
    && forall e :: e in b.done ==> e.state == FINISHED
  }

  lemma NextInv(initial: seq<Entry>, b: Board, event: Event)
    requires Inv(initial, b)
    ensures Inv(initial, Next(b, event)) && b.done <= Next(b, event).done
  {
    match event
    case Update(sha1, state) => UpdateKeepsKeys(b.down, sha1, state);
    case Scan =>
      ScanKeepsChunks(b.down);
      ScanKeepsOrder(b.down, false);
      SubsequenceTransitive(Keys(Those(b.down, false)), Keys(b.down), Keys(initial));
      KeysConcat(b.done, Those(b.down, true));
  }

  lemma {:induction false} RunInv(initial: seq<Entry>, events: seq<Event>)
    ensures Inv(initial, Run(initial, events))
  {
    if events == [] {
      SubsequenceReflexive(Keys(initial));
      assert Keys([]) == [];
    } else {
      var init, last := events[..|events| - 1], events[|events| - 1];
      RunInv(initial, init);
      assert init + [last] == events;
      Runs.FoldStep(Stepper(), Board(initial, []), init, last);
      NextInv(initial, Run(initial, init), last);
    }
  }

  /** The output is written when no chunk is left to do: then every chunk is done, once, and finished. */
  lemma OutputIsComplete(initial: seq<Entry>, events: seq<Event>)
    requires Run(initial, events).down == []
    ensures multiset(Keys(Run(initial, events).done)) == multiset(Keys(initial))
    ensures forall e :: e in Run(initial, events).done ==> e.state == FINISHED
  {
    RunInv(initial, events);
  }

  /** A chunk whose download has been checked is done after the next scan. */
  lemma FinishedIsDone(b: Board, sha1: HashLists.Hash)
    requires FirstWith(b.down, sha1) < |b.down|
    ensures var e := b.down[FirstWith(b.down, sha1)];
            e.(state := FINISHED) in Next(Next(b, Update(sha1, FINISHED)), Scan).done
  {
    var k := FirstWith(b.down, sha1);
    var updated := Updated(b.down, sha1, FINISHED);
    assert updated[k] == b.down[k].(state := FINISHED);
    assert updated[k] in Those(updated, true);
  }

  ghost function Entries(chunks: seq<DownloadChunk>): (es: seq<Entry>)
    reads chunks
    ensures |es| == |chunks|
    ensures forall i :: 0 <= i < |es| ==> es[i] == Entry(chunks[i].id, chunks[i].sha1, chunks[i].state)
  {
    seq(|chunks|, i requires 0 <= i < |chunks| reads chunks =>
      Entry(chunks[i].id, chunks[i].sha1, chunks[i].state))
  }

  // contains_chunk
  method Find(down: Queue<DownloadChunk>, sha1: HashLists.Hash) returns (found: Option<DownloadChunk>)
    requires down.Valid()
    ensures var k := FirstWith(Entries(down.Contents()), sha1);
            found == if k < |down.Contents()| then Some(down.Contents()[k]) else None
  {
    ghost var k := FirstWith(Entries(down.Contents()), sha1);
    var cur := down.head;
    ghost var i := 0;
    while cur != null
      invariant 0 <= i <= k <= |down.chain|
      invariant if cur == null then i == |down.chain| else i < |down.chain| && cur == down.chain[i]
      decreases |down.chain| - i
    {
      assert down.Contents()[i] == cur.data && Entries(down.Contents())[i].sha1 == cur.data.sha1;
      if cur.data.sha1 == sha1 {
        return Some(cur.data);
      }
      assert i + 1 < down.n ==> cur.next == down.chain[i + 1];
      cur, i := cur.next, i + 1;
    }
    return None;
  }

  predicate AreDistinct(chunks: seq<DownloadChunk>) {
    forall i, j :: 0 <= i < j < |chunks| ==> chunks[i] != chunks[j]
  }

  method SetState(ghost chunks: seq<DownloadChunk>, chunk: DownloadChunk, ghost sha1: HashLists.Hash,
                  state: ChunkState)
    requires AreDistinct(chunks)
    requires var k := FirstWith(Entries(chunks), sha1); k < |chunks| && chunks[k] == chunk
    modifies chunk
    ensures Entries(chunks) == Updated(old(Entries(chunks)), sha1, state)
  {
    ghost var es := Entries(chunks);
    chunk.Update(state);
    forall i | 0 <= i < |chunks| ensures Entries(chunks)[i] == Updated(es, sha1, state)[i] {
      assert i != FirstWith(es, sha1) ==> chunks[i] != chunk;
    }
  }

  method UpdateFound(down: Queue<DownloadChunk>, chunk: DownloadChunk, ghost sha1: HashLists.Hash, state: ChunkState)
    requires down.Valid() && AreDistinct(down.Contents())
    requires var k := FirstWith(Entries(down.Contents()), sha1);
             k < |down.Contents()| && down.Contents()[k] == chunk
    modifies chunk
    ensures down.Valid() && down.Contents() == old(down.Contents())
    ensures Entries(down.Contents()) == Updated(old(Entries(down.Contents())), sha1, state)
  {
    ghost var chunks := down.Contents();
    SetState(chunks, chunk, sha1, state);
    assert down.Contents() == chunks;
  }

  // update_state
  method UpdateState(down: Queue<DownloadChunk>, sha1: HashLists.Hash, state: ChunkState)
    requires down.Valid() && AreDistinct(down.Contents())
    modifies down.Contents()
    ensures down.Valid() && down.Contents() == old(down.Contents())
    ensures Entries(down.Contents()) == Updated(old(Entries(down.Contents())), sha1, state)
  {
    var found := Find(down, sha1);
    if found.Some? {
      UpdateFound(down, found.value, sha1, state);
    }
  }

  /** The chunks in a set, or those that are not, in order. */
  function Among(chunks: seq<DownloadChunk>, s: set<DownloadChunk>, wanted: bool): seq<DownloadChunk> {
    if chunks == [] then []
    else
      var last := chunks[|chunks| - 1];
      Among(chunks[..|chunks| - 1], s, wanted) + if (last in s) == wanted then [last] else []
  }

  /** s holds the finished ones of the chunks. */
  ghost predicate Marked(chunks: seq<DownloadChunk>, s: set<DownloadChunk>)
    reads chunks
  {
    forall chunk {:trigger chunk.state} :: chunk in chunks ==> (chunk in s <==> chunk.state == FINISHED)
  }

  lemma EntriesConcat(a: seq<DownloadChunk>, b: seq<DownloadChunk>)
    ensures Entries(a + b) == Entries(a) + Entries(b)
  {
  }

  lemma {:induction false} EntriesAmong(chunks: seq<DownloadChunk>, s: set<DownloadChunk>, wanted: bool)
    requires Marked(chunks, s)
    ensures Entries(Among(chunks, s, wanted)) == Those(Entries(chunks), wanted)
  {
    if chunks != [] {
      var init, last := chunks[..|chunks| - 1], chunks[|chunks| - 1];
      EntriesAmong(init, s, wanted);
      assert Entries(chunks)[..|chunks| - 1] == Entries(init);
      EntriesConcat(Among(init, s, wanted), [last]);
    }
  }

  /** The chunks of the two queues are as given, and the queues share no node. */
  ghost predicate Hold(down: Queue<DownloadChunk>, done: Queue<DownloadChunk>, left: seq<DownloadChunk>,
                       finished: seq<DownloadChunk>)
    reads down, down.chain, done, done.chain
  {
    && down.Valid() && done.Valid() && down != done && Disjoint(down.chain, done.chain)
    && down.Contents() == left && done.Contents() == finished
  }

  method Append(to: Queue<DownloadChunk>, other: Queue<DownloadChunk>, chunk: DownloadChunk)
    requires to.Valid() && other.Valid() && to != other && Disjoint(to.chain, other.chain)
    modifies to, to.tail
    ensures to.Valid() && to.Contents() == old(to.Contents()) + [chunk] && fresh(to.tail)
    ensures other.Valid() && other.Contents() == old(other.Contents()) && Disjoint(to.chain, other.chain)
  {
    ghost var chain, others := to.chain, other.chain;
    to.Enqueue(chunk);
    forall i, j | 0 <= i < |to.chain| && 0 <= j < |others| ensures to.chain[i] != others[j] {
      assert i < |chain| ==> to.chain[i] == chain[i];
    }
  }

  method TakeHead(down: Queue<DownloadChunk>, done: Queue<DownloadChunk>, ghost left: seq<DownloadChunk>,
                  ghost finished: seq<DownloadChunk>)
    returns (chunk: DownloadChunk)
    requires Hold(down, done, left, finished) && left != []
    modifies down
    ensures Hold(down, done, left[1..], finished) && chunk == left[0]
    ensures down.tail == null || down.tail == old(down.tail)
  {
    var head := down.Dequeue();
    chunk := head.value;
  }

  /** One turn of scan_chunk_done's loop. */
  method ScanHead(down: Queue<DownloadChunk>, done: Queue<DownloadChunk>, ghost left: seq<DownloadChunk>,
                  ghost finished: seq<DownloadChunk>, ghost chunks: seq<DownloadChunk>, ghost s: set<DownloadChunk>)
    requires Hold(down, done, left, finished) && left != [] && left[0] in chunks && Marked(chunks, s)
    modifies down, down.tail, done, done.tail
    ensures down.tail == null || down.tail == old(down.tail) || fresh(down.tail)
    ensures done.tail == old(done.tail) || fresh(done.tail)
    ensures Marked(chunks, s)
    ensures if left[0] in s then Hold(down, done, left[1..], finished + [left[0]])
            else Hold(down, done, left[1..] + [left[0]], finished)
  {
    var chunk := TakeHead(down, done, left, finished);
    if chunk.state == FINISHED {
      Append(done, down, chunk);
    } else {
      Append(down, done, chunk);
    }
  }

  /** The queues after i turns. */
  ghost predicate Scanned(down: Queue<DownloadChunk>, done: Queue<DownloadChunk>, chunks: seq<DownloadChunk>,
                          dones: seq<DownloadChunk>, s: set<DownloadChunk>, i: nat)
    requires i <= |chunks|
    reads down, down.chain, done, done.chain, chunks
  {
    && Marked(chunks, s)
    && Hold(down, done, chunks[i..] + Among(chunks[..i], s, false), dones + Among(chunks[..i], s, true))
  }

  lemma ScanNext(chunks: seq<DownloadChunk>, dones: seq<DownloadChunk>, s: set<DownloadChunk>, i: nat)
    requires i < |chunks|
    ensures var left, finished := chunks[i..] + Among(chunks[..i], s, false), dones + Among(chunks[..i], s, true);
            && left[0] == chunks[i]
            && (if chunks[i] in s then left[1..] else left[1..] + [chunks[i]])
               == chunks[i + 1..] + Among(chunks[..i + 1], s, false)
            && (if chunks[i] in s then finished + [chunks[i]] else finished)
               == dones + Among(chunks[..i + 1], s, true)
  {
    assert chunks[..i + 1][..i] == chunks[..i];
  }

  lemma ScanStart(chunks: seq<DownloadChunk>, dones: seq<DownloadChunk>, s: set<DownloadChunk>)
    ensures chunks[0..] + Among(chunks[..0], s, false) == chunks && dones + Among(chunks[..0], s, true) == dones
  {
  }

  lemma ScanEnd(chunks: seq<DownloadChunk>, dones: seq<DownloadChunk>, s: set<DownloadChunk>)
    ensures var n := |chunks|;
            && chunks[n..] + Among(chunks[..n], s, false) == Among(chunks, s, false)
            && dones + Among(chunks[..n], s, true) == dones + Among(chunks, s, true)
  {
    assert chunks[..|chunks|] == chunks;
  }

  method ScanAt(down: Queue<DownloadChunk>, done: Queue<DownloadChunk>, ghost chunks: seq<DownloadChunk>,
                ghost dones: seq<DownloadChunk>, ghost s: set<DownloadChunk>, ghost i: nat)
    requires i < |chunks| && Scanned(down, done, chunks, dones, s, i)
    modifies down, down.tail, done, done.tail
    ensures down.tail == null || down.tail == old(down.tail) || fresh(down.tail)
    ensures done.tail == old(done.tail) || fresh(done.tail)
    ensures Scanned(down, done, chunks, dones, s, i + 1)
  {
    ScanNext(chunks, dones, s, i);
    ScanHead(down, done, chunks[i..] + Among(chunks[..i], s, false), dones + Among(chunks[..i], s, true), chunks, s);
  }

  method ScanAll(down: Queue<DownloadChunk>, done: Queue<DownloadChunk>, ghost chunks: seq<DownloadChunk>,
                 ghost dones: seq<DownloadChunk>, ghost s: set<DownloadChunk>)
    requires Hold(down, done, chunks, dones) && Marked(chunks, s)
    modifies down, down.tail, done, done.tail
    ensures Marked(chunks, s) && Hold(down, done, Among(chunks, s, false), dones + Among(chunks, s, true))
  {
    var n := down.n;
    ScanStart(chunks, dones, s);
    ScanEnd(chunks, dones, s);
    for i := 0 to n
      invariant n == |chunks|
      invariant down.tail == null || down.tail == old(down.tail) || fresh(down.tail)
      invariant done.tail == old(done.tail) || fresh(done.tail)
      invariant Scanned(down, done, chunks, dones, s, i)
    {
      ScanAt(down, done, chunks, dones, s, i);
    }
  }

  lemma {:induction false} AmongSplits(chunks: seq<DownloadChunk>, s: set<DownloadChunk>)
    ensures multiset(Among(chunks, s, false)) + multiset(Among(chunks, s, true)) == multiset(chunks)
  {
    if chunks != [] {
      var init, last := chunks[..|chunks| - 1], chunks[|chunks| - 1];
      AmongSplits(init, s);
      assert chunks == init + [last];
      assert Among(chunks, s, last in s) == Among(init, s, last in s) + [last];
      assert Among(chunks, s, last !in s) == Among(init, s, last !in s);
    }
  }

  lemma {:induction false} AmongDistinct(chunks: seq<DownloadChunk>, s: set<DownloadChunk>, wanted: bool)
    ensures AreDistinct(chunks) ==> AreDistinct(Among(chunks, s, wanted))
    ensures forall chunk :: chunk in Among(chunks, s, wanted) ==> chunk in chunks
  {
    if chunks != [] {
      var init, last := chunks[..|chunks| - 1], chunks[|chunks| - 1];
      AmongDistinct(init, s, wanted);
      assert AreDistinct(chunks) ==> last !in init;
    }
  }

  lemma ObjectsScanned(chunks: seq<DownloadChunk>, dones: seq<DownloadChunk>, s: set<DownloadChunk>)
    ensures multiset(Among(chunks, s, false)) + multiset(dones + Among(chunks, s, true)) ==
            multiset(chunks) + multiset(dones)
    ensures AreDistinct(chunks) ==> AreDistinct(Among(chunks, s, false))
    ensures forall chunk :: chunk in Among(chunks, s, false) ==> chunk in chunks
  {
    AmongSplits(chunks, s);
    AmongDistinct(chunks, s, false);
  }

  lemma EntriesScanned(down: Queue<DownloadChunk>, done: Queue<DownloadChunk>, chunks: seq<DownloadChunk>,
                       dones: seq<DownloadChunk>, s: set<DownloadChunk>)
    requires Hold(down, done, Among(chunks, s, false), dones + Among(chunks, s, true)) && Marked(chunks, s)
    ensures Entries(down.Contents()) == Those(Entries(chunks), false)
    ensures Entries(done.Contents()) == Entries(dones) + Those(Entries(chunks), true)
  {
    EntriesAmong(chunks, s, false);
    EntriesAmong(chunks, s, true);
    EntriesConcat(dones, Among(chunks, s, true));
  }

  method ScanStates(down: Queue<DownloadChunk>, done: Queue<DownloadChunk>, ghost chunks: seq<DownloadChunk>,
                    ghost dones: seq<DownloadChunk>, ghost s: set<DownloadChunk>)
    requires Hold(down, done, chunks, dones) && Marked(chunks, s)
    modifies down, down.tail, done, done.tail
    ensures Marked(chunks, s) && Hold(down, done, Among(chunks, s, false), dones + Among(chunks, s, true))
    ensures Entries(chunks) == old(Entries(chunks)) && Entries(dones) == old(Entries(dones))
  {
    ghost var es, doneEs := Entries(chunks), Entries(dones);
    ScanAll(down, done, chunks, dones, s);
    forall i | 0 <= i < |chunks| ensures Entries(chunks)[i] == es[i] {
    }
    forall i | 0 <= i < |dones| ensures Entries(dones)[i] == doneEs[i] {
    }
  }

  /** scan_chunk_done */
  method ScanChunkDone(down: Queue<DownloadChunk>, done: Queue<DownloadChunk>)
    requires down.Valid() && done.Valid() && down != done && Disjoint(down.chain, done.chain)
    modifies down, down.tail, done, done.tail
    ensures down.Valid() && done.Valid() && Disjoint(down.chain, done.chain)
    ensures Entries(down.Contents()) == Those(old(Entries(down.Contents())), false)
    ensures Entries(done.Contents()) == old(Entries(done.Contents())) + Those(old(Entries(down.Contents())), true)
    ensures multiset(down.Contents()) + multiset(done.Contents()) ==
            multiset(old(down.Contents())) + multiset(old(done.Contents()))
    ensures AreDistinct(old(down.Contents())) ==> AreDistinct(down.Contents())
    ensures forall chunk :: chunk in down.Contents() ==> chunk in old(down.Contents())
  {
    ghost var chunks, dones := down.Contents(), done.Contents();
    ghost var s := set chunk | chunk in chunks && chunk.state == FINISHED;
    ScanStates(down, done, chunks, dones, s);
    EntriesScanned(down, done, chunks, dones, s);
    ObjectsScanned(chunks, dones, s);
  }

  /** The number of holders of each chunk. */
  ghost function Counts(chunks: seq<DownloadChunk>): seq<int>
    reads HolderQueues(chunks)
  {
    seq(|chunks|, i requires 0 <= i < |chunks| reads HolderQueues(chunks) => chunks[i].holders.n)
  }

  function HolderQueues(chunks: seq<DownloadChunk>): set<Queue<Option<nat>>> {
    set i | 0 <= i < |chunks| :: chunks[i].holders
  }

  /** The position that choose_chunk_to_download settles on after k chunks. */
  function Choice(counts: seq<int>, k: nat): (c: nat)
    requires 0 < k <= |counts|
    ensures c < k
  {
    if k == 1 then 0
    else
      var c := Choice(counts, k - 1);
      if 0 < counts[k - 1] < counts[c] then k - 1 else c
  }

  /** Position c has a holder, and no chunk with a holder has fewer. */
  predicate IsRarest(counts: seq<int>, c: nat) {
    c < |counts| && counts[c] > 0 && forall i :: 0 <= i < |counts| && counts[i] > 0 ==> counts[c] <= counts[i]
  }

  lemma {:induction false} ChoiceSoFar(counts: seq<int>, k: nat)
    requires 0 < k <= |counts| && forall i :: 0 <= i < |counts| ==> counts[i] >= 0
    ensures if counts[0] == 0 then Choice(counts, k) == 0 else IsRarest(counts[..k], Choice(counts, k))
    ensures forall i :: 0 <= i < Choice(counts, k) ==> counts[i] == 0 || counts[i] > counts[Choice(counts, k)]
  {
    if k > 1 {
      ChoiceSoFar(counts, k - 1);
    }
  }

  /** The rarest chunk is chosen if and only if the first chunk has a holder, and of several such the first; without a
      holder, that chunk is chosen although nobody has offered it. */
  lemma RarestFirst(counts: seq<int>)
    requires counts != [] && forall i :: 0 <= i < |counts| ==> counts[i] >= 0
    ensures IsRarest(counts, Choice(counts, |counts|)) <==> counts[0] > 0
    ensures counts[0] == 0 ==> Choice(counts, |counts|) == 0
    ensures forall i :: 0 <= i < Choice(counts, |counts|) ==> !IsRarest(counts, i)
  {
    ChoiceSoFar(counts, |counts|);
    assert counts[..|counts|] == counts;
  }

  /** The chunk that choose_chunk_to_download returns. */
  ghost function Chosen(chunks: seq<DownloadChunk>): DownloadChunk
    requires chunks != []
    reads HolderQueues(chunks)
  {
    chunks[Choice(Counts(chunks), |chunks|)]
  }

  // choose_chunk_to_download; look_at calls it for a queue that is not empty
  method ChooseChunk(down: Queue<DownloadChunk>) returns (chunk: DownloadChunk)
    requires down.Valid() && down.Contents() != []
    ensures chunk == old(Chosen(down.Contents()))
  {
    ghost var chunks, counts := down.Contents(), Counts(down.Contents());
    var cur := down.head;
    chunk := cur.data;
    ghost var i := 0;
    while cur != null
      invariant 0 <= i <= |chunks|
      invariant if cur == null then i == |chunks| else i < |chunks| && cur == down.chain[i]
      invariant chunk == chunks[if i == 0 then 0 else Choice(counts, i)]
      decreases |chunks| - i
    {
      if cur.data.holders.n < chunk.holders.n && cur.data.holders.n > 0 {
        chunk := cur.data;
      }
      assert i + 1 < down.n ==> cur.next == down.chain[i + 1];
      cur, i := cur.next, i + 1;
    }
  }
}
