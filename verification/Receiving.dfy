/** The receiving side of one connection: process_DATA of handler.c and the chunk it fills. */
module Receiving {
  import opened Chunking
  import Sha1Spec
  import HashLists

  datatype ChunkState = READY | DOWNLOADING | FINISHED

  function Rank(s: ChunkState): nat { match s case READY => 0 case DOWNLOADING => 1 case FINISHED => 2 }

  // update_state: a state only moves forward
  function Forward(current: ChunkState, next: ChunkState): (s: ChunkState)
    ensures Rank(s) >= Rank(current) && Rank(s) >= Rank(next) && (s == current || s == next)
  {
    if Rank(next) > Rank(current) then next else current
  }

  // check_chunk: does the text of the SHA-1 digest equal the wanted text?
  predicate Checks(data: Chunk, sha1: HashLists.Hash) {
    HashLists.BinaryToHex(Sha1Spec.Digest(data)) == sha1
  }

  // A receiver, its chunk's data and state, and whether it is still in the pool.
  datatype Inbox = Inbox(lastRcvd: nat, nextExpected: nat, data: Chunk, state: ChunkState, inPool: bool)

  // add_receiver, then update_state to DOWNLOADING
  function Opened(data: Chunk): Inbox { Inbox(0, 1, data, DOWNLOADING, true) }

  /** The copy of an expected packet ends within the chunk. */
  predicate Fits(r: Inbox, seqNum: nat, payload: seq<bv8>) {
    seqNum == r.nextExpected ==> r.lastRcvd * DATA_SIZE + |payload| <= CHUNK_SIZE
  }

  /** The receiver after the sequence number test, before the completion test. */
  function Taken(r: Inbox, seqNum: nat, payload: seq<bv8>): Inbox {
    if seqNum == r.nextExpected then
      r.(data := Store(r.data, r.lastRcvd * DATA_SIZE, payload),
         lastRcvd := r.nextExpected, nextExpected := r.nextExpected + 1)
    else r
  }

  // The completion test
  predicate IsFull(r: Inbox) { r.lastRcvd * DATA_SIZE >= CHUNK_SIZE }

  /** The completion test and what follows it, if update_state finds the receiver's chunk. */
  function Concluded(r: Inbox, sha1: HashLists.Hash): Inbox {
    if IsFull(r) then
      r.(inPool := false, state := Forward(r.state, if Checks(r.data, sha1) then FINISHED else READY))
    else r
  }

  // process_DATA for a receiver in the pool; the acknowledgement it sends is lastRcvd of the result
  function Received(r: Inbox, seqNum: nat, payload: seq<bv8>, sha1: HashLists.Hash): Inbox {
    Concluded(Taken(r, seqNum, payload), sha1)
  }

  /** The bytes counted as received are those of chunk; the receiver leaves the pool with the last packet,
      and its chunk then counts as finished exactly when it has the wanted digest. */
  ghost predicate Sound(r: Inbox, chunk: Chunk, sha1: HashLists.Hash) {
    && r.nextExpected == r.lastRcvd + 1 && r.lastRcvd <= PKT_NUM
    && r.data[..Covered(r.lastRcvd)] == chunk[..Covered(r.lastRcvd)]
    && (r.inPool <==> r.lastRcvd < PKT_NUM)
    && r.state == if r.lastRcvd == PKT_NUM && Checks(chunk, sha1) then FINISHED else DOWNLOADING
  }

  /** A DATA packet that carries the slice its number names. */
  predicate IsSlice(chunk: Chunk, seqNum: nat, payload: seq<bv8>) {
    1 <= seqNum <= PKT_NUM && payload == Slice(chunk, seqNum - 1)
  }

  lemma ReceivedSound(r: Inbox, chunk: Chunk, sha1: HashLists.Hash, seqNum: nat, payload: seq<bv8>)
    requires Sound(r, chunk, sha1) && r.inPool && IsSlice(chunk, seqNum, payload)
    ensures var t := Received(r, seqNum, payload, sha1);
            && Sound(t, chunk, sha1)
            && t.lastRcvd == if seqNum == r.lastRcvd + 1 then r.lastRcvd + 1 else r.lastRcvd
    ensures Fits(r, seqNum, payload)
  {
    if seqNum == r.nextExpected {
      StoreNextSlice(chunk, r.data, r.lastRcvd);
      CoveredAll(r.lastRcvd + 1);
      var taken := Taken(r, seqNum, payload);
      if taken.lastRcvd == PKT_NUM {
        assert taken.data[..CHUNK_SIZE] == chunk[..CHUNK_SIZE];
        assert taken.data == taken.data[..CHUNK_SIZE] && chunk == chunk[..CHUNK_SIZE];
      }
    } else {
      CoveredAll(r.lastRcvd);
    }
  }
}
