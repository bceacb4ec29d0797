/** Cutting a chunk into DATA packets and writing packets back into a chunk: chunk2pkts and the memcpy of
    process_DATA. */
module Chunking {

  const CHUNK_SIZE := 524288  // BT_CHUNK_SIZE
  const DATA_SIZE := 1400
  const PKT_NUM := CHUNK_SIZE / DATA_SIZE + (if CHUNK_SIZE % DATA_SIZE > 0 then 1 else 0)

  // The contents of a chunk or of the buffer that receives one.
  type Chunk = d: seq<bv8> | |d| == CHUNK_SIZE witness seq(CHUNK_SIZE, _ => 0)

  datatype DataPacket = DataPacket(seqNum: nat, payload: seq<bv8>)

  /** The number of bytes in the first k packets. */
  function Covered(k: nat): (n: nat) {
    if k * DATA_SIZE < CHUNK_SIZE then k * DATA_SIZE else CHUNK_SIZE
  }

  /** The bytes that packet number k carries, counting from 0. */
  function Slice(chunk: Chunk, k: nat): seq<bv8>
    requires k < PKT_NUM
  {
    chunk[Covered(k)..Covered(k + 1)]
  }

  /** The packets, each with its number and the slice of the chunk that the number names. */
  ghost predicate ArePackets(chunk: Chunk, pkts: seq<DataPacket>) {
    |pkts| == PKT_NUM && forall i :: 0 <= i < PKT_NUM ==> pkts[i] == DataPacket(i + 1, Slice(chunk, i))
  }

  /** The payloads one after the other. */
  function Payloads(pkts: seq<DataPacket>): seq<bv8> {
    if pkts == [] then [] else Payloads(pkts[..|pkts| - 1]) + pkts[|pkts| - 1].payload
  }

  lemma PayloadsNext(chunk: Chunk, pkts: seq<DataPacket>, k: nat)
    requires ArePackets(chunk, pkts) && k < |pkts| && Payloads(pkts[..k]) == chunk[..Covered(k)]
    ensures Payloads(pkts[..k + 1]) == chunk[..Covered(k + 1)]
  {
    assert pkts[..k + 1][..k] == pkts[..k];
    assert chunk[..Covered(k + 1)] == chunk[..Covered(k)] + Slice(chunk, k);
  }

  lemma {:induction false} PayloadsSoFar(chunk: Chunk, pkts: seq<DataPacket>, k: nat)
    requires ArePackets(chunk, pkts) && k <= |pkts|
    ensures Payloads(pkts[..k]) == chunk[..Covered(k)]
  {
    if k > 0 {
      PayloadsSoFar(chunk, pkts, k - 1);
      PayloadsNext(chunk, pkts, k - 1);
    }
  }

  /** 374 packets of 1400 bytes and one of 688, which together are the chunk. */
  lemma PacketsCarryChunk(chunk: Chunk, pkts: seq<DataPacket>)
    requires ArePackets(chunk, pkts)
    ensures |pkts| == 375 && Payloads(pkts) == chunk
    ensures forall i :: 0 <= i < 375 ==>
              pkts[i].seqNum == i + 1 && |pkts[i].payload| == if i < 374 then 1400 else 688
  {
    PayloadsSoFar(chunk, pkts, |pkts|);
    assert pkts[..|pkts|] == pkts && chunk[..CHUNK_SIZE] == chunk;
  }

  // chunk2pkts
  method Chunk2Pkts(chunk: Chunk) returns (pkts: seq<DataPacket>)
    ensures ArePackets(chunk, pkts)
    ensures |pkts| == 375 && Payloads(pkts) == chunk
    ensures forall i :: 0 <= i < 375 ==> |pkts[i].payload| == if i < 374 then 1400 else 688
  {
    var total := CHUNK_SIZE / DATA_SIZE + (if CHUNK_SIZE % DATA_SIZE > 0 then 1 else 0);
    pkts := [];
    var i := 0;
    while i < total - 1
      invariant 0 <= i == |pkts| <= total - 1
      invariant forall k :: 0 <= k < i ==> pkts[k] == DataPacket(k + 1, Slice(chunk, k))
    {
      pkts := pkts + [DataPacket(i + 1, chunk[i * DATA_SIZE..i * DATA_SIZE + DATA_SIZE])];
      i := i + 1;
    }
    pkts := pkts + [DataPacket(i + 1, chunk[i * DATA_SIZE..i * DATA_SIZE + CHUNK_SIZE % DATA_SIZE])];
    PacketsCarryChunk(chunk, pkts);
  }

  /** memcpy of payload to data + at; what would fall past the end of the buffer is not modelled. */
  function Store(data: Chunk, at: nat, payload: seq<bv8>): Chunk
  {
    seq(|data|, i requires 0 <= i < |data| => if at <= i < at + |payload| then payload[i - at] else data[i])
  }

  /** Writing slice k behind k correct slices stays inside the buffer and makes k + 1 slices correct. */
  lemma StoreNextSlice(chunk: Chunk, data: Chunk, k: nat)
    requires k < PKT_NUM
    requires data[..Covered(k)] == chunk[..Covered(k)]
    ensures k * DATA_SIZE + |Slice(chunk, k)| == Covered(k + 1) <= CHUNK_SIZE
    ensures Store(data, k * DATA_SIZE, Slice(chunk, k))[..Covered(k + 1)] == chunk[..Covered(k + 1)]
  {
    assert Covered(k) == k * DATA_SIZE;
    var stored := Store(data, k * DATA_SIZE, Slice(chunk, k));
    forall i | 0 <= i < Covered(k + 1)
      ensures stored[i] == chunk[i]
    {
      if i < Covered(k) {
        assert data[..Covered(k)][i] == chunk[..Covered(k)][i];
      } else {
        assert Slice(chunk, k)[i - Covered(k)] == chunk[i];
      }
    }
  }

  /** The first k packets cover all of the chunk exactly when k is the number of packets or more. */
  lemma CoveredAll(k: nat)
    ensures k * DATA_SIZE >= CHUNK_SIZE <==> k >= PKT_NUM
    ensures Covered(k) == CHUNK_SIZE <==> k >= PKT_NUM
  {
  }
}
