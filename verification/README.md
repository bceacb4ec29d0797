# Verification of the chunk transfer, its SHA-1, its bookkeeping and the network simulator

This project models the BitTorrent-like file transfer of `Starter Code/starter_code` and the network simulator that
comes with it, and proves what they keep in every run. `dafny verify dfyconfig.toml` checks all of it.

## What is modelled

* **One connection** (`Window`, `Receiving`, `Transfer`, `TransferSafety`, `TransferProgress`, `TransferLossy`,
  `TransferSupply`, `TransferWitnesses`).
  A GET opens a sender and a receiver. The state holds the sender's fields, its timer, the timer threads that have not
  read the timer yet, the timer ids that sleeping threads have read, the receiver with its chunk, and a multiset of
  packets on their way. A run is any schedule of: the start of the sending thread, one turn of its loop, both halves of
  a timer thread, and the delivery, loss or duplication of a packet; reordering is the choice of the packet. A step that
  is not possible changes nothing, so theorems hold for every sequence of steps. `cwnd` is a real and the casts to
  unsigned integers are floors.
* **The objects behind it** (`Endpoints`, `Pools`, `Connections`, `Downloads`): senders, timers, receivers and chunks as
  classes whose methods are proved against the functions of the transition system, the worker pools, and the handlers
  for GET, ACK and DATA and look_at over pools and chunk queues.
* **Streaming SHA-1** (`Sha1Spec`, `Sha1`, `Sha1Sample`): FIPS 180-4 as functions on byte sequences, the first sample
  message of `sha.c`, and its context as a class with its 64-byte array, both bodies of `SHA1Update`, little-endian word
  access and the byte swaps.
* **Chunk bookkeeping** (`LinkedQueue`, `Chunking`, `HashLists`, `Hexadecimal`, `Tracker`): the linked queue, cutting
  and reassembling chunks, hash lists in packets, hashes as numerals, and the two queues of a download with the choice
  of the next chunk.
* **A whole download** (`Loading`, `Genuine`, `Honest`, `Twins`): the chunks with their data and holders, both
  queues and all receivers, as a transition system whose steps are the handlers for IHAVE and DATA, and look_at
  with its scan.
* **Routing in the simulator** (`HopGraph`, `Dijkstra`, `Routing`, `Simulator`, `Forwarding`, `Delivery`): router
  objects shared by all runs of `createTable`, the topology map, the tables, and a packet's way over the router objects.
* `Runs` folds a step function over a schedule.

## What the proofs found

* The obvious invariants of the sender are false: a stale timer moves `last_acked` back, and a late ACK puts it past
  `last_sent`. `TransferSafety.LastAckedMovesBack` and `LastAckedPassesLastSent` say exactly when.
* A connection can get stuck for good although nothing but one DATA packet was lost (`TransferWitnesses.Deadlock`): an
  ACK that is no longer new stops the timer before its thread has read it. `TransferProgress.CompletionIsReachable` says
  exactly in which states delivery is still possible over a network that may duplicate packets, and
  `TransferSupply.PlainCompletion` in which states without duplication: DATA packets on their way, places in the window
  and repeated ACKs add up, and have to make the sender retransmit or the receiver catch up.
* A lost last ACK is never made up for: the receiver has left by then and answers nothing more
  (`TransferLossy.OrphanForever`), so that only a later GET of the peer can remove the sender.
* `rcv_send.h:17` says that a packet counts as lost only after 3 duplicate ACKs in a row. The number holds if and
  only if the sender has had no ACK and no timeout before (`TransferSafety.ThreeRepetitionsNeeded`): the count starts at
  1 with every new ACK and every retransmission, so that two duplicates are enough from then on
  (`TransferWitnesses.TwoDuplicatesRetransmit`). They need not be in a row, as outdated ACKs between them do not restart
  the count (`Window.OutdatedAcksDoNotInterrupt`, `TransferWitnesses.InterruptedDuplicatesRetransmit`).
* `chunks2pkts` loses the last 74 hashes of a list whose length is a positive multiple of 74
  (`HashLists.HashListRoundTrip`).
* `tracker.h:48` promises the chunk with the fewest holders; `choose_chunk_to_download` returns the first chunk of the
  queue whenever nobody has offered that one, and otherwise keeps the promise (`Tracker.RarestFirst`).
* Packets from addresses outside the peer list can take several places of a pool (`Connections.OneWorkerEach`).
* A FINISHED chunk need not have the wanted digest. `choose_chunk_to_download` ignores the state, so that two receivers
  can fill one chunk. If the chunk is scanned away before the second one completes it, update_state marks another chunk
  with the same hash, which then counts as FINISHED without any data, and chunks2file stops there.
  `Twins.FinishedIsRight` says for which lists that can happen although every peer is honest, and `Genuine.NextGenuine`
  which steps do it. With honest peers and different hashes every FINISHED chunk is right in every run.
* On a topology map that is not connected the simulator does not get past the tables: `createTable` completes if and
  only if the router reaches all others (`Routing.Router.CreateTable`), and so the start of main if and only if the map
  is connected (`Simulator.SetUp`). The lines `1 2` and `3 4` are such a map (`Simulator.SetUpTwoPairs`). Reading
  `predecessor->{'id'}` at `hupsim.pl:279` creates an empty predecessor where there was none, so that with ids from 1
  the walk goes on for ever before the `die` at line 280 can fire; for router 0 an empty id compares equal, and the
  `die` at line 285 ends the program.
* An update to READY after a failed hash check changes nothing, so that such a chunk stays DOWNLOADING.

## Model

| member | source | states |
|---|---|---|
| `TransferSafety.Integrity` | Starter Code/starter_code/handler.c:173-197 | In every run, under any loss, duplication, reordering and timer firing, `next_expected = last_rcvd + 1` and the first min(last_rcvd * 1400, 524288) bytes of the receiver's chunk equal the sender's; a packet about to be copied fits into the chunk |
| `TransferSafety.Completion` | Starter Code/starter_code/handler.c:199-213 | Whenever a sender has been removed, the receiver holds the whole chunk byte for byte and has left its pool, and its chunk is FINISHED if and only if the sender's chunk has the wanted digest |
| `TransferSafety.RemovedByLastAck` | Starter Code/starter_code/handler.c:206-213 | In every run a step removes the sender if and only if it delivers the ACK of all 375 packets, and all 375 have been sent |
| `TransferSafety.EarlyLastAck` | Starter Code/starter_code/handler.c:206-208 | In every run that ACK changes nothing at the sender, not even its timer, while not all packets have been sent |
| `TransferLossy.SenderLeaves` | Starter Code/starter_code/handler.c:206-213 | For every chunk there is a run without a duplicated packet after which the sender has been removed |
| `TransferLossy.OrphanForever` | Starter Code/starter_code/handler.c:173-176 | Once the receiver is done and has left, and no ACK of everything is on its way, no schedule removes the sender: a lost last ACK is never made up for |
| `TransferSafety.AcksNeverAhead` | Starter Code/starter_code/rcv_send.c:121-155 | In every run `last_acked`, the timer id, every id a timer thread sleeps with and every ACK on its way are at most the receiver's `last_rcvd`; the first three are below the packet count |
| `TransferSafety.WindowSafety` | Starter Code/starter_code/rcv_send.h:36 | In every run `last_sent <= last_available <= last_acked + cwnd`, `last_sent <= pkt_num` and `last_sent - last_acked <= cwnd`, also while `last_sent < last_acked` |
| `TransferSafety.PhaseBounds` | Starter Code/starter_code/rcv_send.c:125-131 | In every run `cwnd >= 1` and `ssthresh >= 1`; in slow start `cwnd` is whole and at most `ssthresh <= 64`; after it `cwnd >= 2` |
| `TransferSafety.SlowStartEndsOnce` | Starter Code/starter_code/handler.c:219-226 | Once `cwnd > ssthresh` it stays so in every continuation of the run |
| `TransferSafety.FirstSlowStart` | Starter Code/starter_code/handler.c:219-222 | In every run, until the first loss, `cwnd` is one more than the number of new ACKs, and slow start ends exactly with the 64th |
| `TransferSafety.SlowStartAgain` | Starter Code/starter_code/rcv_send.c:125-127 | In every run, after a loss in slow start and until the next loss, `cwnd` is one more than the number of new ACKs since, and slow start ends exactly with the one that makes it larger than it was at the loss |
| `TransferSafety.ApplyKeepsAvoidance` | Starter Code/starter_code/handler.c:214-238 | No single step leads from congestion avoidance back to slow start |
| `TransferSafety.Growth` | Starter Code/starter_code/handler.c:219-227 | After n ACKs accepted as new, `cwnd * cwnd <= 65 * 65 + 3 * n` in every run |
| `TransferSafety.ApplyBounded` | Starter Code/starter_code/handler.c:219-227 | One step keeps that bound, with n one higher exactly when the step accepts a new ACK |
| `TransferSafety.LastAckedMovesBack` | Starter Code/starter_code/rcv_send.c:147-155 | In every run a step moves `last_acked` back if and only if it is the wake-up of a timer thread whose id is the current one and lies behind `last_acked` |
| `TransferSafety.LastAckedPassesLastSent` | Starter Code/starter_code/handler.c:214-218 | In every run, from `last_acked <= last_sent`, a step makes `last_acked > last_sent` if and only if it accepts a new ACK past `last_sent` |
| `TransferSafety.ThreeRepetitionsNeeded` | Starter Code/starter_code/rcv_send.h:17 | In every run three repetitions of `last_acked` are needed for a retransmission if and only if no ACK has reached the sender and no timeout has retransmitted before; otherwise one or two are |
| `TransferSafety.CountOfApply` | Starter Code/starter_code/handler.c:218-230 | A step leaves the count of repetitions 0 if and only if it was 0 and the step hands the sender no ACK below the packet count and wakes no current timer |
| `Transfer.OpenedInv` | Starter Code/starter_code/rcv_send.c:29-61 | The invariant holds when both ends have just been opened |
| `Transfer.HandledInv` | Starter Code/starter_code/handler.c:173-238 | Handling a DATA or ACK packet keeps the invariant |
| `Transfer.SenderLoopInv` | Starter Code/starter_code/handler.c:259-265 | A turn of the sending loop keeps the invariant; the packet it puts on the network carries the slice its number names |
| `Transfer.TimerInv` | Starter Code/starter_code/rcv_send.c:147-155 | Both halves of a timer thread keep the invariant |
| `Transfer.ApplyInv` | Starter Code/starter_code/handler.c:173-276 | Every step keeps the invariant that relates sender, timer threads, receiver and network |
| `Transfer.RunInv` | Starter Code/starter_code/handler.c:173-276 | The invariant holds after every schedule of steps |
| `TransferProgress.CompletionIsReachable` | Starter Code/starter_code/handler.c:245-276 | While the receiver waits, some continuation, in which the network may also duplicate packets, delivers the whole chunk if and only if the connection is not hopeless (window used up, no live timer thread, only outdated ACKs on their way) |
| `TransferProgress.HopelessStays` | Starter Code/starter_code/rcv_send.c:147-155 | No step leads out of a hopeless state or changes the receiver in it |
| `TransferProgress.HopelessForever` | Starter Code/starter_code/rcv_send.c:147-155 | No schedule leads out of a hopeless state |
| `TransferProgress.AckThrice` | Starter Code/starter_code/handler.c:228-236 | An ACK that is not outdated and arrives three times makes the sender send again from the packet it asks for, whatever the state |
| `TransferProgress.Advance` | Starter Code/starter_code/handler.c:245-276 | From a sender that may send there is a schedule after which the receiver is done or both ends stand at the same packet, one further than before if they already did |
| `TransferProgress.SendAndDeliver` | Starter Code/starter_code/handler.c:173-184 | One turn of the sending loop and the delivery of its packet leave an ACK of all that was received, and advance the receiver exactly when the packet was the expected one |
| `TransferProgress.TimerRevives` | Starter Code/starter_code/rcv_send.c:147-155 | A live timer thread can always make the sender send again |
| `TransferProgress.AlignedCompletes` | Starter Code/starter_code/handler.c:185-195 | From equal positions some schedule completes the transfer |
| `TransferWitnesses.Deadlock` | Starter Code/starter_code/handler.c:228-237 | A concrete run that loses one DATA packet, repeats nothing and delivers all else in order, after which nothing is on its way, nobody will act and the receiver waits for ever |
| `TransferWitnesses.LastAckedFallsBack` | Starter Code/starter_code/rcv_send.c:147-155 | A concrete run in which a stale timer moves `last_acked` back |
| `TransferWitnesses.LastAckedPastLastSent` | Starter Code/starter_code/handler.c:214-218 | A concrete run in which `last_acked > last_sent` |
| `TransferWitnesses.TwoDuplicatesRetransmit` | Starter Code/starter_code/handler.c:228-235 | A concrete run in which the second repetition of an ACK retransmits and lowers `cwnd` |
| `TransferWitnesses.InterruptedDuplicatesRetransmit` | Starter Code/starter_code/handler.c:228-238 | A concrete run in which two repetitions retransmit although an outdated ACK arrives between them |
| `TransferLossy.RecoveringCompletes` | Starter Code/starter_code/rcv_send.c:147-155 | In every run: before the sender has started, with a live timer thread, or with a sender that may send and is not ahead of the receiver, the whole chunk can be delivered without the network duplicating a packet |
| `TransferLossy.BehindCompletes` | Starter Code/starter_code/handler.c:245-276 | A sender that may send and is not ahead of the receiver completes the transfer without a duplicated packet, from any position behind it |
| `TransferLossy.QuietCompletion` | Starter Code/starter_code/handler.c:228-235 | In every run, with the window used up, no live timer thread and only ACKs up to `last_acked` on their way, delivery without a duplicated packet is possible if and only if at least as many repetitions of `last_acked` are on their way as the count still needs |
| `TransferLossy.TooFewForever` | Starter Code/starter_code/handler.c:228-235 | With fewer of them no schedule without duplicated packets changes the receiver or leaves such states |
| `TransferLossy.EnoughComplete` | Starter Code/starter_code/handler.c:228-235 | With enough of them such a schedule delivers the whole chunk |
| `TransferSupply.PlainCompletion` | Starter Code/starter_code/handler.c:245-276 | In every run, while the receiver waits: the chunk can be delivered without the network duplicating a packet if and only if the sender can go on at once (TransferLossy.RecoveringCompletes) or the supply is enough, counted from the packets on their way, the window and what new ACKs add to it |
| `TransferSupply.StuckStays` | Starter Code/starter_code/handler.c:199-238 | With too little supply every step but a duplication leaves too little: a send trades a place of the window for a packet, a delivery a packet for an ACK, a new ACK opens no more than was counted |
| `TransferSupply.StuckForever` | Starter Code/starter_code/handler.c:245-276 | No schedule without duplication leads out of these states |
| `TransferSupply.GoesCompletes` | Starter Code/starter_code/handler.c:228-235 | With enough supply of one ACK a schedule without duplication makes the sender go back and delivers the chunk |
| `Window.RetransmittedSound` | Starter Code/starter_code/rcv_send.c:121-133 | After a retransmission the window invariant holds whatever the sending position was, and congestion avoidance is not left |
| `Window.RetransmittedSends` | Starter Code/starter_code/rcv_send.c:121-133 | After a retransmission the sender may send |
| `Window.SentSound` | Starter Code/starter_code/handler.c:259-265 | A send keeps the window invariant |
| `Window.AcceptedSound` | Starter Code/starter_code/handler.c:214-227 | A new ACK keeps the window invariant, through slow start and the 1/cwnd increase |
| `Window.AcknowledgedSound` | Starter Code/starter_code/handler.c:206-238 | Every ACK keeps the window invariant, and congestion avoidance is not left |
| `Window.OutdatedAck` | Starter Code/starter_code/handler.c:237-238 | An ACK below `last_acked` stops the timer and changes nothing else |
| `Window.AckedNotBack` | Starter Code/starter_code/handler.c:214-238 | No ACK moves `last_acked` back |
| `Window.AckedPastSent` | Starter Code/starter_code/handler.c:214-218 | Exactly which ACKs put `last_acked` past `last_sent` |
| `Window.AcknowledgedBounded` | Starter Code/starter_code/handler.c:219-227 | An ACK keeps the square bound on `cwnd`, charging 3 to a new ACK only |
| `Window.RetransmittedBounded` | Starter Code/starter_code/rcv_send.c:125-131 | A retransmission keeps the square bound on `cwnd` |
| `Window.LossesHalve` | Starter Code/starter_code/rcv_send.c:128-131 | n losses in a row divide the distance of `cwnd` to the fixed point by 2^n, up to rounding |
| `Window.LossesReachSix` | Starter Code/starter_code/rcv_send.c:128-131 | From `cwnd >= 6` after slow start, n losses lead to 6 and stay there as soon as 2^n exceeds the distance; 6 is not reached before 2^(n+1) does up to rounding |
| `Window.LossesReachFive` | Starter Code/starter_code/rcv_send.c:128-131 | From `cwnd < 6` after slow start, two losses lead to 5 and stay there |
| `Window.LossesReachOne` | Starter Code/starter_code/rcv_send.c:125-127 | In slow start, two losses lead to `cwnd = ssthresh = 1` and stay there |
| `Window.LossInSlowStart` | Starter Code/starter_code/rcv_send.c:125-127 | For every sender in slow start: after a loss and n new ACKs, at most as many as `cwnd` was, `cwnd = n + 1`, and slow start goes on if and only if n is less than `cwnd` was |
| `Window.AvoidanceGrows` | Starter Code/starter_code/handler.c:223-227 | After slow start, n new ACKs add between 2 n and 2.25 n to `cwnd * cwnd`, so that it grows by about 1 for each window of ACKs; `ssthresh` stays |
| `Window.BurstAfterLoss` | Starter Code/starter_code/rcv_send.c:121-133 | After a loss exactly one packet may be sent in slow start, and otherwise half the old `cwnd` and 3 more, up to the end |
| `Window.BurstAfterAck` | Starter Code/starter_code/handler.c:214-218 | After a new ACK, as many packets past the acknowledged one as `cwnd` had whole places before it |
| `Window.RepetitionsRetransmit` | Starter Code/starter_code/handler.c:228-235 | For every state, fewer than 3 - `dup_ack_num` repetitions of `last_acked` only count and that many retransmit; three are needed if and only if `dup_ack_num` is 0, and two after a retransmission |
| `Window.OutdatedAcksDoNotInterrupt` | Starter Code/starter_code/handler.c:228-238 | In any sequence of ACKs up to `last_acked` the outdated ones do not restart the count: the ACK that makes the repetitions 3 - `dup_ack_num` retransmits |
| `Window.ThreeAcksGoBack` | Starter Code/starter_code/handler.c:228-235 | Three equal ACKs, new or not, always set the sender back to the packet they ask for, ready to send |
| `Endpoints.Sender.constructor` | Starter Code/starter_code/rcv_send.c:29-47 | A new sender is in the first state of the window model, with its own timer |
| `Endpoints.Sender.Retransmit` | Starter Code/starter_code/rcv_send.c:121-133 | The field updates refine the window function about which the results on losses, slow start and the packets sent after a loss are proved |
| `Endpoints.Sender.Loop` | Starter Code/starter_code/handler.c:259-265 | One turn of the loop sends packet `last_sent` or nothing, starts a timer exactly at the window's first packet, and refines the window function |
| `Endpoints.Sender.ProcessAck` | Starter Code/starter_code/handler.c:199-238 | The field updates refine the window function; finished if and only if `ack >= pkt_num` and `last_sent >= pkt_num`, and then only the timer has changed; an ACK of everything that comes earlier changes nothing |
| `Endpoints.Sender.Timeout` | Starter Code/starter_code/rcv_send.c:147-155 | A woken timer thread retransmits exactly if its id is still the current one |
| `Endpoints.Sender.Arm` | Starter Code/starter_code/rcv_send.c:140-163 | Arming the timer sets its id to `last_acked` and starts it |
| `Endpoints.Receiver.Take` | Starter Code/starter_code/handler.c:177-183 | The copy into the chunk's array, as far as it lies in the chunk, and the counters refine the receiver function; the ACK is the new `last_rcvd` |
| `Endpoints.DownloadChunk.Check` | Starter Code/starter_code/tracker.c:239-245 | True exactly if the wanted text is the FIPS 180-4 digest of the data as a hexadecimal numeral of 40 small digits |
| `Endpoints.DownloadChunk.Update` | Starter Code/starter_code/tracker.c:29-33 | The state only moves forward |
| `Receiving.Forward` | Starter Code/starter_code/tracker.c:29-33 | The new state is the later of the two |
| `Receiving.ReceivedSound` | Starter Code/starter_code/handler.c:173-197 | A packet that carries the slice its number names keeps the received prefix correct, advances exactly when expected, and ends the connection exactly with the last packet, FINISHED exactly if the digest is right |
| `Chunking.Chunk2Pkts` | Starter Code/starter_code/tracker.c:184-200 | 375 packets, numbered from 1, of 1400 bytes each and 688 in the last, whose payloads one after the other are the chunk |
| `Chunking.PacketsCarryChunk` | Starter Code/starter_code/tracker.c:184-200 | Consecutive slices of that form have these lengths and together are the chunk |
| `Chunking.StoreNextSlice` | Starter Code/starter_code/handler.c:177-182 | Copying slice k behind k correct slices stays inside the chunk and makes k + 1 correct |
| `Chunking.CoveredAll` | Starter Code/starter_code/handler.c:185 | The completion test is true exactly when all packets have been received |
| `Sha1.RoundFunctionsAgree` | Starter Code/starter_code/sha.c:52-55 | The rewritten F_0_19 and F_40_59 are Ch and Maj of FIPS 180-4, section 4.1.1, and the others Parity, each in its stage |
| `Sha1.LoadSwapped` | Starter Code/starter_code/sha.c:80-81 | Loading a little-endian word and swapping it gives the big-endian word |
| `Sha1.StoreSwapped` | Starter Code/starter_code/sha.c:84-89 | Storing a swapped 64-bit number on a little-endian machine gives its big-endian bytes |
| `Sha1.Schedule` | Starter Code/starter_code/sha.c:184-200 | The moving-pointer loops build the 80 words of section 6.1.2, step 1 |
| `Sha1.RoundAgrees` | Starter Code/starter_code/sha.c:57-64 | A round of the code is a round of section 6.1.2, step 3 |
| `Sha1.Guts` | Starter Code/starter_code/sha.c:176-451 | For every hash value and block the result is the next hash value of section 6.1.2 |
| `Sha1.AfterPiece` | Starter Code/starter_code/sha.c:509-521 | The state a message leaves (hash of its whole blocks, the rest buffered, bit count modulo 2^64) follows each copy into the buffer |
| `Sha1.Context.constructor` | Starter Code/starter_code/sha.c:149-163 | The context of the empty message |
| `Sha1.Context.Fill` | Starter Code/starter_code/sha.c:509-521 | A copy that fits, with one compression exactly when the buffer becomes full |
| `Sha1.Context.Update` | Starter Code/starter_code/sha.c:501-523 | The context of the message extended by the data, for any data and any split before it |
| `Sha1.Context.UpdateFast` | Starter Code/starter_code/sha.c:461-500 | The SHA1_FAST_COPY body leaves the same context |
| `Sha1.Context.Blocks` | Starter Code/starter_code/sha.c:484-492 | Whole blocks compressed where they lie leave the context of the longer message |
| `Sha1.FewestBytes` | Starter Code/starter_code/sha.c:536-538 | bytesToPad is the 0x80 byte and the fewest zero bytes section 5.1.1 allows |
| `Sha1.FinalAppendsPad` | Starter Code/starter_code/sha.c:536-543 | What SHA1Final appends completes exactly the padded message of section 5.1.1 |
| `Sha1.LengthBytes` | Starter Code/starter_code/sha.c:540 | The length saved before padding gives the 64-bit big-endian bit length |
| `Sha1.Context.Final` | Starter Code/starter_code/sha.c:529-558 | The digest of FIPS 180-4 for every message below 2^61 bytes |
| `Sha1.UpdatePieces` | Starter Code/starter_code/sha.c:453-527 | Any sequence of updates, by either body, leaves hash, buffered bytes, bufferLength and totalLength of one update with the concatenation |
| `Sha1.HashPieces` | Starter Code/starter_code/sha.c:149-558 | Init, any updates and Final give the digest of the concatenation |
| `Sha1.ShaHash` | Starter Code/starter_code/chunk.c:33-49 | The digest of the whole string |
| `Sha1Sample.DigestOfAbc` | Starter Code/starter_code/sha.c:32-35 | The definition gives the digest that the comment promises for "abc", the first message of the self-test at sha.c:575-577 |
| `HashLists.HexRoundTrip` | Starter Code/starter_code/chunk.c:55-82 | Text to bytes and back changes only capitals to small letters; what the bytes are, says Hexadecimal.HexToBinaryValue |
| `HashLists.BinaryRoundTrip` | Starter Code/starter_code/chunk.c:55-82 | Bytes to text and back is the identity; what the text is, says Hexadecimal.BinaryToHexValue |
| `Hexadecimal.BinaryToHexValue` | Starter Code/starter_code/chunk.c:55-61 | The text that binary2hex writes, read as a base-16 numeral over 0123456789abcdef, has the value of the bytes as a big-endian number |
| `Hexadecimal.HexToBinaryValue` | Starter Code/starter_code/chunk.c:66-82 | The bytes that hex2binary reads from any hexadecimal text, with small or large letters, are its value as a base-16 numeral |
| `Hexadecimal.ChecksNumeral` | Starter Code/starter_code/tracker.c:239-245 | check_chunk accepts a text if and only if it is that numeral of the digest, in 40 small digits |
| `Hexadecimal.PayloadValues` | Starter Code/starter_code/tracker.c:127-141 | A payload is the number of hashes, three zeros and each hash as a number of 20 bytes |
| `Hexadecimal.ParsedValues` | Starter Code/starter_code/tracker.c:156-165 | Parsing gives as many hashes as the first byte says, none from 128 on, each the numeral of its 20 bytes |
| `HashLists.FillPayload` | Starter Code/starter_code/tracker.c:127-141 | A payload is the count, three zero bytes and the 20-byte hashes in order |
| `HashLists.Chunks2Pkts` | Starter Code/starter_code/tracker.c:113-146 | One payload for each group of 74 hashes and one for the rest, at most 1500 bytes with the header; nothing for other packet types |
| `HashLists.Pkt2Chunks` | Starter Code/starter_code/tracker.c:148-167 | The announced hashes, in order, whatever the memory from the payload on holds |
| `HashLists.ParsePayload` | Starter Code/starter_code/tracker.c:148-167 | Parsing a payload returns the hashes put into it, in small letters |
| `HashLists.BufferHolds` | Starter Code/starter_code/peer.c:61-68 | Behind the header the 1500-byte receive buffer holds the announced hashes if and only if the count is at most 74, however short the packet was |
| `HashLists.RestIgnored` | Starter Code/starter_code/tracker.c:156-165 | What lies behind the announced hashes does not matter |
| `HashLists.GroupsMeet` | Starter Code/starter_code/tracker.c:121-126 | The groups are adjacent and end at n, or at n - 74 for a positive multiple of 74 |
| `HashLists.HashListRoundTrip` | Starter Code/starter_code/tracker.c:113-167 | Parsing all packets in order returns the list in small letters if and only if its length is 0 or not a multiple of 74; for a positive multiple exactly the first n - 74 |
| `LinkedQueue.Queue.constructor` | Starter Code/starter_code/queue.c:11-14 | An empty queue |
| `LinkedQueue.Queue.Enqueue` | Starter Code/starter_code/queue.c:16-27 | Appends, on the chain of exactly n nodes from head to tail, without touching the other nodes' data |
| `LinkedQueue.Queue.Dequeue` | Starter Code/starter_code/queue.c:29-40 | Removes the first element, or returns nothing from an empty queue and leaves it |
| `LinkedQueue.EnqueueAll` | Starter Code/starter_code/queue.c:47-56 | Appends the elements the source held on entry and terminates, even when source and destination are the same queue |
| `LinkedQueue.CopyNode` | Starter Code/starter_code/queue.c:52-54 | One step of that walk, while the chain may grow under it |
| `Pools.Pool.constructor` | Starter Code/starter_code/rcv_send.c:15-27 | An empty pool |
| `Pools.Pool.Get` | Starter Code/starter_code/rcv_send.c:63-88 | The first worker for the peer; nothing for an unknown peer or a peer without worker |
| `Pools.Pool.Add` | Starter Code/starter_code/rcv_send.c:29-47 | Appends the worker exactly if the pool is not full; the count stays the length |
| `Pools.Pool.Remove` | Starter Code/starter_code/rcv_send.c:90-119 | With the first worker for the peer at k, leaves old[k+1..] + old[..k]; without one, the unchanged queue |
| `Pools.RotateOut` | Starter Code/starter_code/rcv_send.c:94-103 | The rotation finds the worker if and only if there is one, and leaves that order |
| `Pools.TurnHead` | Starter Code/starter_code/rcv_send.c:96-102 | One turn takes the head out for good exactly if it is the peer's |
| `Connections.RunInBounds` | Starter Code/starter_code/handler.c:136-349 | In every run of GET, ACK, DATA and look_at a pool has at most max_num workers and at most one for each known peer |
| `Connections.NextInBounds` | Starter Code/starter_code/handler.c:136-349 | Each of these events keeps that |
| `Connections.WithoutIsOneLess` | Starter Code/starter_code/rcv_send.c:90-119 | Removal by rotation loses exactly the one worker |
| `Connections.RemovedInBounds` | Starter Code/starter_code/rcv_send.c:90-119 | After removal no worker for the peer is left, and there is room for one |
| `Connections.DeniedWhenFull` | Starter Code/starter_code/handler.c:141-154 | DENIED is sent if and only if the peer has no connection and the pool is full; a started peer is connected |
| `Connections.GetKeepsOthers` | Starter Code/starter_code/handler.c:141-148 | A GET from a connected peer whose sender has not sent everything leaves the pool as it was; any GET leaves the workers of all other peers |
| `Connections.ConnectionLasts` | Starter Code/starter_code/handler.c:141-148 | In every run a connection lasts until its own end, a last ACK or a GET after everything has been sent, whatever comes from it before or from others |
| `Connections.OneWorkerEach` | Starter Code/starter_code/rcv_send.c:63-65 | For every limit and peer: no run has two workers for the peer if and only if it is known or the limit is at most 1 |
| `Connections.Close` | Starter Code/starter_code/rcv_send.c:90-104 | remove_sender: the rotation; of the sender only the timer changes, which is stopped |
| `Connections.Release` | Starter Code/starter_code/handler.c:141-148 | A finished connection of the peer is closed and its timer stopped, an unfinished one makes the request busy and changes nothing; the other senders stay as they are |
| `Connections.ProcessGet` | Starter Code/starter_code/handler.c:136-171 | While the peer's sender has not sent everything: Busy, no new sender, the same workers. In every case all workers that have not sent everything stay. Otherwise the reply and the pool's peers are those of the event GET; the workers are the old ones without a closed one, then a new sender in its first state if one is started; of all old senders only the peer's timer may change, and is stopped if its connection is closed |
| `Connections.ProcessAck` | Starter Code/starter_code/handler.c:199-238 | The peer's sender gets the fields of the window function and no other sender changes; the workers lose it if and only if `ack >= pkt_num` and `last_sent >= pkt_num` |
| `Connections.FirstFree` | Starter Code/starter_code/handler.c:328-334 | The first holder that is unknown or has no connection; all before it are connected |
| `Downloads.ChooseHolder` | Starter Code/starter_code/handler.c:326-339 | The loop over the holders finds that one |
| `Downloads.LookAt` | Starter Code/starter_code/handler.c:319-349 | For the chunk that the choice function names, a GET with its hash goes to that holder, the new receiver for the chunk is the last worker, has received nothing, and the first chunk with the hash counts as DOWNLOADING, exactly if the pool has room and the holder is known; otherwise nothing changes; the pool's peers are those of the event Look |
| `Downloads.ProcessData` | Starter Code/starter_code/handler.c:173-197 | The ACK, the receiver's fields, the workers of the pool and the states of all chunks after any DATA packet: the receiver leaves the pool, by the event Finish, exactly when it has everything, and update_state marks the first chunk with the hash; no other receiver and no other chunk's data changes; if the receiver's chunk is the first with its hash or done, as in every run (`Loading.RunInv`), the receiver and its chunk are as in the transition system of one connection |
| `Downloads.Complete` | Starter Code/starter_code/handler.c:185-195 | The end of process_DATA: the verdict on the receiver's own data goes to the first chunk with the hash, and the receiver leaves the pool |
| `Loading.RunInv` | Starter Code/starter_code/handler.c:126-349 | In every run of IHAVE, look_at and DATA with any packets: every chunk is in one of the two queues, done ones are FINISHED, and only chunks that are done or the first left to do with their hash have holders or receivers |
| `Loading.RequestedInv` | Starter Code/starter_code/handler.c:322-341 | look_at opens receivers only for such chunks, as only they have holders |
| `Loading.FoundIsFirst` | Starter Code/starter_code/tracker.c:100-111 | contains_chunk finds exactly the first chunk left to do with the hash |
| `Loading.OwnChunkIsReceived` | Starter Code/starter_code/handler.c:173-197 | In every such state, also when the receiver's chunk has been scanned away, process_DATA does to the receiver and its chunk exactly what it does in a connection on its own |
| `Loading.DataIsReceived` | Starter Code/starter_code/handler.c:173-197 | A DATA step changes queue and pool as `Downloads.ProcessData` does |
| `Loading.ScanIsScan` | Starter Code/starter_code/tracker.c:70-80 | The scan in it is that of the two queues of `Tracker` |
| `Loading.RequestedIsLook` | Starter Code/starter_code/handler.c:319-349 | The rest of look_at changes pool and queue as `Downloads.LookAt` does |
| `Genuine.NextGenuine` | Starter Code/starter_code/handler.c:185-192 | If FINISHED chunks have the wanted digest, a step keeps that if and only if it does not go wrong: it changes a byte of a finished chunk (and finds no SHA-1 collision), or a receiver whose chunk has been scanned away passes its check while the first chunk left to do with the hash has not the wanted digest |
| `Genuine.RunGenuine` | Starter Code/starter_code/handler.c:126-349 | In a run FINISHED chunks always have the wanted digest if and only if no step goes wrong |
| `Genuine.DifferentHashesAreSafe` | Starter Code/starter_code/tracker.c:100-111 | With different hashes no receiver does the latter |
| `Twins.FinishedIsRight` | Starter Code/starter_code/handler.c:173-349 | For every list, every chunk content with the listed hashes and every limit: in all runs with honest DATA packets FINISHED chunks hold the right data, if and only if there is room for one receiver only or no hash is listed twice, unless it is that of zeros |
| `Twins.TwinsGoWrong` | Starter Code/starter_code/tracker.c:29-33 | For every list with a hash twice and room for two receivers, an honest run in which a chunk counts as FINISHED without any data: both receivers fill the first of the two, which is scanned away in between |
| `Honest.RunFilled` | Starter Code/starter_code/handler.c:173-197 | Without such lists, in every honest run what receivers count as received is there and FINISHED chunks are right |
| `Honest.NextFilled` | Starter Code/starter_code/handler.c:126-349 | Each honest step keeps that |
| `Honest.OutputIsRight` | Starter Code/starter_code/handler.c:293-311 | When nothing is left to do in such a run, chunks2file writes every chunk of the list, with the right data |
| `Tracker.RunInv` | Starter Code/starter_code/tracker.c:70-80 | In every run of updates and scans the two queues together are a permutation of the first list, the unfinished chunks keep its order and only FINISHED chunks are done |
| `Tracker.NextInv` | Starter Code/starter_code/tracker.c:29-80 | Each event keeps that, and what is done stays done, in order |
| `Tracker.OutputIsComplete` | Starter Code/starter_code/handler.c:281-312 | When nothing is left to do, the done chunks are a permutation of the first list, all FINISHED |
| `Tracker.FinishedIsDone` | Starter Code/starter_code/tracker.c:70-80 | A chunk set to FINISHED is done after the next scan |
| `Tracker.UpdateKeepsKeys` | Starter Code/starter_code/tracker.c:29-33 | An update moves no chunk and no state backwards, and READY changes nothing |
| `Tracker.ScanKeepsChunks` | Starter Code/starter_code/tracker.c:70-80 | A scan splits the queue: no chunk is lost or doubled |
| `Tracker.ScanKeepsOrder` | Starter Code/starter_code/tracker.c:70-80 | Both parts keep the order of the queue |
| `Tracker.ScanChunkDone` | Starter Code/starter_code/tracker.c:70-80 | The loop over two linked queues is that stable split; the same chunk objects are in the queues as before, and none new is left to do |
| `Tracker.UpdateState` | Starter Code/starter_code/tracker.c:29-33 | Only the first chunk with the hash changes, and only forward |
| `Tracker.Find` | Starter Code/starter_code/tracker.c:100-111 | The first chunk with the hash, or nothing |
| `Tracker.RarestFirst` | Starter Code/starter_code/tracker.c:56-68 | The chosen chunk has the fewest holders among those with a holder if and only if the first chunk has one; no chunk before the chosen one does |
| `Tracker.ChooseChunk` | Starter Code/starter_code/tracker.c:56-68 | The loop settles on that choice |
| `Simulator.HopsOfLines` | Starter Code/starter_code/hupsim.pl:366-383 | There is a hop between two routers exactly where a line of the map names both, in either order |
| `Simulator.LinesAreSymmetric` | Starter Code/starter_code/hupsim.pl:381-382 | The hops of a map lead both ways |
| `Simulator.ReadMap` | Starter Code/starter_code/hupsim.pl:366-383 | The router objects and their arrays of queues form exactly the graph of the map |
| `Simulator.NewRouter` | Starter Code/starter_code/hupsim.pl:370-379 | A router is created exactly if there is none with the id; every router of the array stays where it is, and only new ones are added |
| `Simulator.AddHop` | Starter Code/starter_code/hupsim.pl:381 | One more hop, at the index of the router it leads to |
| `Simulator.CreateTables` | Starter Code/starter_code/hupsim.pl:386-389 | For up to 65535 routers the runs over the shared objects all complete if and only if every router reaches all others; then every table is right and consists of its router's own queues, as later runs leave earlier tables alone |
| `Simulator.SetUp` | Starter Code/starter_code/hupsim.pl:366-389 | For every map of up to 65535 routers: the start of main gets past the tables if and only if the links connect all routers to the one named first; then all tables hand packets on to nearer routers, through the router's own queues to the router objects of the array |
| `Simulator.ConnectedMap` | Starter Code/starter_code/hupsim.pl:366-383 | That router reaches all others if and only if every router does |
| `Simulator.TwoPairs` | Starter Code/starter_code/hupsim.pl:366-389 | The lines 1 2 and 3 4 are a map that is not connected |
| `Simulator.SetUpTwoPairs` | Starter Code/starter_code/hupsim.pl:386-389 | On that map the start of main does not get past the tables |
| `Routing.Router.AddRoute` | Starter Code/starter_code/hupsim.pl:137-148 | The queue is entered at the id of its router, and the array grows where it has to |
| `Routing.Reset` | Starter Code/starter_code/hupsim.pl:236-245 | 0 for the source and INFINITY for the others, none done; predecessors of earlier runs stay |
| `Routing.SelectNext` | Starter Code/starter_code/hupsim.pl:249-259 | The first in the array of the nearest routers that are not done |
| `Routing.RelaxAll` | Starter Code/starter_code/hupsim.pl:261-272 | The loop over the queues lowers exactly the labels the router's hops improve |
| `Routing.Visit` | Starter Code/starter_code/hupsim.pl:261-273 | The labels after a visit, for all routers |
| `Routing.ComputeDistances` | Starter Code/starter_code/hupsim.pl:236-274 | Every router is visited and the invariant of the labels holds, whatever earlier runs left in the objects |
| `Routing.ComputeTree` | Starter Code/starter_code/hupsim.pl:236-274 | On every graph of up to 65535 routers the labels of reached routers are distances, with the smallest id one hop nearer as their predecessor, those of the others 65535; recorded predecessors, also those of earlier runs, are hops |
| `Routing.FirstHop` | Starter Code/starter_code/hupsim.pl:278-282 | The predecessor walk from a router ends if and only if it is reached, and then at the first hop of the shortest way that, traced back, takes the smallest id at every step |
| `Routing.Router.FindQueue` | Starter Code/starter_code/hupsim.pl:278-286 | A queue is found if and only if the router is reached; it is one of the router's own, at the index of the router object of the array that it leads to |
| `Routing.Router.CreateTable` | Starter Code/starter_code/hupsim.pl:226-288 | For up to 65535 routers, completes if and only if the router reaches all others; then the table has an entry for exactly the other routers, and each is one of the router's own queues, to a router of the array one hop nearer, on the way that takes the smallest ids |
| `Routing.Router.Recv` | Starter Code/starter_code/hupsim.pl:150-189 | Ignored, sent, queued in the table's own entry, or dead for a destination without an entry |
| `Dijkstra.VisitKeepsSound` | Starter Code/starter_code/hupsim.pl:267-271 | Labels below INFINITY stay lengths of walks |
| `Dijkstra.VisitKeepsSettled` | Starter Code/starter_code/hupsim.pl:261-273 | Hops from visited routers stay relaxed |
| `Dijkstra.VisitKeepsOrdered` | Starter Code/starter_code/hupsim.pl:253-259 | Visited routers stay before the others, by distance and then by place in the array |
| `Dijkstra.VisitKeepsBacked` | Starter Code/starter_code/hupsim.pl:269-270 | Predecessors behind labels below INFINITY stay hops from visited routers one nearer, so that values of earlier runs do not matter |
| `Dijkstra.DoneStays` | Starter Code/starter_code/hupsim.pl:267-271 | A visit changes no label of a router visited before |
| `Dijkstra.Exact` | Starter Code/starter_code/hupsim.pl:226-274 | For up to 65535 routers, a label is the distance if the router can be reached, and then below 65535, and 65535 otherwise |
| `Dijkstra.SomeLeft` | Starter Code/starter_code/hupsim.pl:247-259 | As long as turns of the loop are left there is a router to select |
| `Dijkstra.VisitKeepsRecorded` | Starter Code/starter_code/hupsim.pl:269-270 | Every predecessor, also one an earlier run has left, stays a hop |
| `Dijkstra.VisitKeepsEarly` | Starter Code/starter_code/hupsim.pl:268-271 | Of the visited routers one hop before a router, the predecessor stays the smallest id: a later one that is as near does not replace it |
| `Dijkstra.TreeComplete` | Starter Code/starter_code/hupsim.pl:236-274 | For up to 65535 routers, once every router is visited the labels are a tree of shortest ways over the routers that are reached; each predecessor is the smallest id of those one hop nearer |
| `Dijkstra.WalkEndsIfReached` | Starter Code/starter_code/hupsim.pl:278-282 | For every router but the source, the walk along its predecessors comes to the source if and only if the source reaches it |
| `Dijkstra.FirstMeeting` | Starter Code/starter_code/hupsim.pl:279-282 | When the walk first meets the source, the router before it is the first hop of the shortest way that takes the smallest ids |
| `Dijkstra.NoMeeting` | Starter Code/starter_code/hupsim.pl:279-282 | A walk that has come to an undefined predecessor, or has taken as many steps as there are routers, never meets the source |
| `HopGraph.DistanceBound` | Starter Code/starter_code/hupsim.pl:73 | Distances are smaller than the number of routers, which is why INFINITY has to exceed it |
| `HopGraph.ConnectedFromAll` | Starter Code/starter_code/hupsim.pl:381-382 | With links both ways, if one router reaches all then every router does |
| `Forwarding.TableUnique` | Starter Code/starter_code/hupsim.pl:226-288 | The map alone determines a router's table: any two tables that createTable may leave for it are equal, whatever earlier runs have left in the objects |
| `Forwarding.NextIsNearer` | Starter Code/starter_code/hupsim.pl:173-176 | Handing on by a router's own table follows a hop and lowers the distance by exactly one |
| `Forwarding.Arrives` | Starter Code/starter_code/hupsim.pl:173-176 | Following the tables by ids: after n of them the packet is n hops nearer, and at its destination exactly after the shortest number of hops |
| `Forwarding.Delivers` | Starter Code/starter_code/hupsim.pl:173-176 | By ids: every packet for a router that can be reached arrives, in fewer hops than there are routers and not before the fewest |
| `Forwarding.LoopFree` | Starter Code/starter_code/hupsim.pl:173-176 | No router id is met twice |
| `Forwarding.Stays` | Starter Code/starter_code/hupsim.pl:168-171 | A packet that has arrived is not handed on |
| `Delivery.Receive` | Starter Code/starter_code/hupsim.pl:150-182 | Over the router objects of a completed start: a packet n hops away is sent if n is 0 and otherwise queued in one of the router's own queues, to a router of the array n - 1 hops away |
| `Delivery.Deliver` | Starter Code/starter_code/hupsim.pl:197-212 | From any router object to any destination, following recv through the routers' own queues reaches the destination's object and sends the packet after exactly the fewest hops |
| `Delivery.WayIsLoopFree` | Starter Code/starter_code/hupsim.pl:197-212 | No router object is met twice on the way |

## Left out

- Sockets, spiffy, select, threads, wall-clock time and logging: they appear as steps that may happen at any time, or
  not at all.
- Interleaving inside one handler or one turn of a loop, and releasing memory: each is one step, and memory is managed.
- Float rounding of `cwnd`, and wrap-around of 32-bit counters, which the proved bounds do not let `last_sent`,
  `last_acked` and `last_available` come near.
- Packets of an earlier connection with the same peer: packets carry no connection id, and a run is one GET.
- Time: that an ignored GET is never made up for, and that the sending thread never ends, are not statements of this
  model, which says what can still happen and not when.
- Endpoints.Receiver.Take: of a packet that does not fit into the rest of the chunk, the part behind its end overwrites
  other memory, which is not modelled. `TransferSafety.Integrity` proves of every packet on its way that it fits.
- Loading.DataIsReceived: the same; and each handler is one step, also where two threads could interleave in look_at.
- Endpoints.DownloadChunk.Check: the text buffer of `check_chunk` is taken to be large enough for the 41 bytes written
  to it, while the source declares 20.
- HashLists.Pkt2Chunks: for counts from 75 to 127 the source reads past the receive buffer; what it finds there is part
  of the parameter.
- HashLists.Chunks2Pkts: takes the list of hashes as a sequence instead of a queue of chunks, as does Pkt2Chunks.
- Sha1.ShaHash: builds for big-endian machines, the run-time endian variant and `burnStack` are not modelled, nor is the
  SHA1_FAST_COPY way to store the digest.
- Connections.RunInBounds: several workers for an unknown peer are allowed, as in the source.
- Routing.FirstHop: gives up where the walk of the source goes on for ever or leads to its `die`, so that the methods
  above it return that they have not completed; the state such a run leaves behind is not described.
- Routing.Router.CreateTable: requires at most 65535 routers, the number of INFINITY, as do the methods above it.
- Downloads.LookAt: starts after the scan, which `Tracker.ScanChunkDone` models; of the conversion of the hash for the
  GET packet only the 20 bytes that are sent matter.
- Simulator.SetUp: rates, latencies, queue limits and node addresses of the map files are not modelled.
- Queues of the simulator (limits, transmission times, drops), its sockets and statistics: a packet's way is the
  sequence of routers that hand it on, for packets that are not dropped.
- Files (`list_chunks`, `which_i_have`, `get_data_chunk`, `make_chunks`; of `chunks2file` only which chunks it writes),
  command line, peer list and standard input.
- Header fields, `correct`, `convert` and the `make_*` constructors; WHOHAS, IHAVE and DENIED handlers beyond their
  hash lists.
- Collision resistance of SHA-1.
