/** The objects of rcv_send.c and the handlers of handler.c that change them, proved against the functions of
    Window and Receiving. */
module Endpoints {
  import opened LinkedQueue
  import opened Chunking
  import Window
  import Receiving
  import HashLists
  import Hexadecimal
  import Sha1
  import Sha1Spec

  // my_timer_t
  class Timer {
    var running: bool
    var id: nat

    // init_timer
    constructor (id: nat)
      ensures !running && this.id == id
    {
      running, this.id := false, id;
    }
  }

  class Sender {
    var ssthresh: nat
    var cwnd: Window.Cwnd
    var lastSent: nat
    var lastAcked: nat
    var lastAvailable: nat
    var dupAckNum: nat
    const pktNum: nat
    const timer: Timer
    const pkts: seq<DataPacket>

    ghost function State(): Window.Window
      reads this, timer
    {
      Window.Window(ssthresh, cwnd, lastSent, lastAcked, lastAvailable, dupAckNum, pktNum, timer.running, timer.id)
    }

    // The fields that add_sender sets
    constructor (pkts: seq<DataPacket>)
      ensures State() == Window.Opened(|pkts|) && fresh(timer)
      ensures this.pkts == pkts
    {
      ssthresh, cwnd := Window.SSTHRESH, Window.CWND as real;
      lastSent, lastAcked, lastAvailable, dupAckNum := 0, 0, Window.CWND, 0;
      this.pkts, pktNum := pkts, |pkts|;
      timer := new Timer(0);
    }

    // init_timer and start_timer; the caller starts one timer thread
    method Arm()
      modifies timer
      ensures State() == Window.Armed(old(State()))
    {
      timer.running, timer.id := false, lastAcked;
      timer.running := true;
    }

    // stop_timer
    method StopTimer()
      modifies timer
      ensures State() == old(State()).(timerRunning := false)
    {
      timer.running := false;
    }

    // retransmit
    method Retransmit(ack: nat)
      modifies this
      ensures State() == Window.Retransmitted(old(State()), ack)
    {
      lastSent, lastAcked, dupAckNum := ack, ack, 1;
      if cwnd <= ssthresh as real {
        ssthresh := cwnd.Floor;
        cwnd := 1.0;
      } else {
        ssthresh := (cwnd / 2.0).Floor;
        cwnd := (ssthresh + Window.DUP_ACK_NUM) as real;
      }
      lastAvailable := (lastSent as real + cwnd).Floor;
    }

    /** One turn of process_sender's loop: the packet it sends, and whether it starts a timer thread. */
    method Loop() returns (sent: Option<DataPacket>, startsTimer: bool)
      requires pktNum == |pkts|
      modifies this, timer
      ensures var w := old(State());
              if Window.CanSend(w)
              then State() == Window.Sent(w) && sent == Some(pkts[w.lastSent]) && startsTimer == Window.Arms(w)
              else State() == w && sent == None && !startsTimer
    {
      sent, startsTimer := None, false;
      if lastSent < lastAvailable && lastSent < pktNum {
        if lastSent == lastAcked {
          Arm();
          startsTimer := true;
        }
        sent := Some(pkts[lastSent]);
        lastSent := lastSent + 1;
      }
    }

    /** process_ACK for this sender; finished means that it leaves the pool. */
    method ProcessAck(ack: nat) returns (finished: bool)
      modifies this, timer
      ensures State() == Window.Acknowledged(old(State()), ack)
      ensures finished <==> ack >= pktNum && old(lastSent) >= pktNum
      ensures ack >= pktNum && old(lastSent) < pktNum ==> State() == old(State())
      ensures finished ==> State() == old(State()).(timerRunning := false)
    {
      if ack >= pktNum {
        if lastSent < pktNum {
          return false;
        }
        StopTimer();
        return true;
      }
      if ack > lastAcked {
        lastAcked := ack;
        lastAvailable := (lastAcked as real + cwnd).Floor;
        dupAckNum := 1;
        if cwnd <= ssthresh as real {
          cwnd := cwnd + 1.0;
        } else {
          cwnd := cwnd + Window.Reciprocal(cwnd);
        }
      } else if ack == lastAcked {
        dupAckNum := dupAckNum + 1;
        if dupAckNum >= Window.DUP_ACK_NUM {
          Retransmit(ack);
        }
      }
      StopTimer();
      return false;
    }

    /** t_start after its select, in a thread that had read id. */
    method Timeout(id: nat)
      modifies this
      ensures State() == Window.TimedOut(old(State()), id)
    {
      if timer.id == id {
        Retransmit(id);
      }
    }
  }

  // chunk_t; a holder is a peer, or None for an IHAVE from an address that is not in the peer list.
  class DownloadChunk {
    const id: int
    const sha1: HashLists.Hash
    const data: array<bv8>
    const holders: Queue<Option<nat>>
    var state: Receiving.ChunkState

    // init_chunk
    constructor (id: int, sha1: HashLists.Hash, data: array<bv8>)
      ensures this.id == id && this.sha1 == sha1 && this.data == data && state == Receiving.READY
      ensures fresh(holders) && holders.Valid() && holders.Contents() == []
    {
      this.id, this.sha1, this.data, state := id, sha1, data, Receiving.READY;
      holders := new Queue();
    }

    // check_chunk
    method Check() returns (ok: bool)
      requires data.Length == CHUNK_SIZE
      ensures ok == Receiving.Checks(data[..], sha1)
      ensures ok <==> |sha1| == 40 && Hexadecimal.IsSmallText(sha1) &&
                      Hexadecimal.TextValue(sha1) == Hexadecimal.BytesValue(Sha1Spec.Digest(data[..]))
    {
      Hexadecimal.ChecksNumeral(data[..], sha1);
      var target := Sha1.ShaHash(data[..]);
      ok := HashLists.BinaryToHex(target) == sha1;
    }

    // update_state for the chunk that it finds
    method Update(newState: Receiving.ChunkState)
      modifies this
      ensures state == Receiving.Forward(old(state), newState)
    {
      if Receiving.Rank(newState) > Receiving.Rank(state) {
        state := newState;
      }
    }
  }

  class Receiver {
    var lastRcvd: nat
    var nextExpected: nat
    const chunk: DownloadChunk

    ghost function State(inPool: bool): Receiving.Inbox
      requires chunk.data.Length == CHUNK_SIZE
      reads this, chunk, chunk.data
    {
      Receiving.Inbox(lastRcvd, nextExpected, chunk.data[..], chunk.state, inPool)
    }

    // The fields that add_receiver sets
    constructor (chunk: DownloadChunk)
      ensures lastRcvd == 0 && nextExpected == 1 && this.chunk == chunk
    {
      lastRcvd, nextExpected := 0, 1;
      this.chunk := chunk;
    }

    /** The first half of process_DATA; ack is the number that it acknowledges.  Of a packet that does not fit into
        the rest of the chunk, the part behind its end lands in memory that is not modelled. */
    method Take(seqNum: nat, payload: seq<bv8>) returns (ack: nat)
      requires chunk.data.Length == CHUNK_SIZE
      modifies this, chunk.data
      ensures State(true) == Receiving.Taken(old(State(true)), seqNum, payload)
      ensures ack == lastRcvd && chunk.state == old(chunk.state)
    {
      if seqNum == nextExpected {
        forall i | 0 <= i < |payload| && lastRcvd * DATA_SIZE + i < CHUNK_SIZE {
          chunk.data[lastRcvd * DATA_SIZE + i] := payload[i];
        }
        assert chunk.data[..] == Store(old(chunk.data[..]), lastRcvd * DATA_SIZE, payload);
        lastRcvd := nextExpected;
        nextExpected := nextExpected + 1;
      }
      ack := lastRcvd;
    }
  }
}
