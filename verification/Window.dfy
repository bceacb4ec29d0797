/** The sending side of one connection: the Go-Back-N window of handler.c and rcv_send.c with its Reno-style
    congestion control.  cwnd is a real; the casts to an unsigned integer are floors. */
module Window {

  const SSTHRESH := 64
  const CWND := 1
  const DUP_ACK_NUM := 3

  // Every assignment to cwnd keeps it at least 1.
  type Cwnd = c: real | c >= 1.0 witness 1.0

  // The fields of a sender and of its timer.
  datatype Window = Window(
    ssthresh: int,
    cwnd: Cwnd,
    lastSent: int,
    lastAcked: int,
    lastAvailable: int,
    dupAckNum: int,
    pktNum: int,
    timerRunning: bool,
    timerId: int)

  // add_sender
  function Opened(pktNum: int): Window {
    Window(SSTHRESH, CWND as real, 0, 0, CWND, 0, pktNum, false, 0)
  }

  predicate SlowStart(w: Window) { w.cwnd <= w.ssthresh as real }

  // retransmit
  function Retransmitted(w: Window, ack: int): Window {
    var ssthresh := if SlowStart(w) then w.cwnd.Floor else (w.cwnd / 2.0).Floor;
    var cwnd := if SlowStart(w) then 1.0 else (ssthresh + DUP_ACK_NUM) as real;
    w.(lastSent := ack, lastAcked := ack, dupAckNum := 1, ssthresh := ssthresh, cwnd := cwnd,
       lastAvailable := (ack as real + cwnd).Floor)
  }

  // init_timer followed by start_timer
  function Armed(w: Window): Window { w.(timerId := w.lastAcked, timerRunning := true) }

  // The guards of process_sender's loop body
  predicate CanSend(w: Window) { w.lastSent < w.lastAvailable && w.lastSent < w.pktNum }

  predicate Arms(w: Window) { w.lastSent == w.lastAcked }

  /** One turn of process_sender's loop that sends packet number lastSent. */
  function Sent(w: Window): Window {
    var armed := if Arms(w) then Armed(w) else w;
    armed.(lastSent := w.lastSent + 1)
  }

  predicate IsNew(w: Window, ack: int) { w.lastAcked < ack < w.pktNum }

  function Reciprocal(c: Cwnd): (r: real)
    ensures 0.0 < r <= 1.0
  {
    1.0 / c
  }

  function Accepted(w: Window, ack: int): Window {
    w.(lastAcked := ack, lastAvailable := (ack as real + w.cwnd).Floor, dupAckNum := 1,
       cwnd := if SlowStart(w) then w.cwnd + 1.0 else w.cwnd + Reciprocal(w.cwnd))
  }

  function Duplicated(w: Window, ack: int): Window {
    var counted := w.(dupAckNum := w.dupAckNum + 1);
    if counted.dupAckNum >= DUP_ACK_NUM then Retransmitted(counted, ack) else counted
  }

  /** The acknowledgement that ends the connection. */
  predicate Finishes(w: Window, ack: int) { ack >= w.pktNum && w.lastSent >= w.pktNum }

  // process_ACK, for a sender that is in the pool
  function Acknowledged(w: Window, ack: int): Window {
    if ack >= w.pktNum then
      if Finishes(w, ack) then w.(timerRunning := false) else w
    else
      var counted :=
        if ack > w.lastAcked then Accepted(w, ack) else if ack == w.lastAcked then Duplicated(w, ack) else w;
      counted.(timerRunning := false)
  }

  // t_start, once the timeout has passed for a timer thread that had read id
  function TimedOut(w: Window, id: int): Window {
    if w.timerId == id then Retransmitted(w, id) else w
  }

  // ---------- The invariant of every sender ----------

  /** The congestion window by phase: whole and bounded in slow start, at least 2 after it. */
  ghost predicate Phase(w: Window) {
    && w.ssthresh >= 1
    && if SlowStart(w) then w.cwnd == w.cwnd.Floor as real && w.ssthresh <= SSTHRESH else w.cwnd >= 2.0
  }

  /** Nothing is sent past the window, and the window starts at the last acknowledged packet. */
  ghost predicate InWindow(w: Window) {
    && 0 <= w.lastSent <= w.lastAvailable && w.lastSent <= w.pktNum && w.lastAcked < w.lastAvailable
    && w.lastAvailable as real <= w.lastAcked as real + w.cwnd
    && 0 <= w.lastAcked < w.pktNum && 0 <= w.timerId < w.pktNum
  }

  ghost predicate Sound(w: Window) { Phase(w) && InWindow(w) && 0 <= w.dupAckNum < DUP_ACK_NUM }

  lemma OpenedSound(pktNum: int)
    requires pktNum >= 1
    ensures Sound(Opened(pktNum))
  {
  }

  lemma RetransmittedSound(w: Window, ack: int)
    requires Phase(w) && 0 <= ack < w.pktNum && 0 <= w.timerId < w.pktNum
    ensures Sound(Retransmitted(w, ack))
    ensures !SlowStart(w) ==> !SlowStart(Retransmitted(w, ack))
  {
  }

  lemma RetransmittedSends(w: Window, ack: int)
    requires 0 <= ack < w.pktNum
    ensures CanSend(Retransmitted(w, ack))
  {
    FloorMonotone(ack + 1, ack as real + Retransmitted(w, ack).cwnd);
  }

  lemma SentSound(w: Window)
    requires Sound(w) && CanSend(w)
    ensures Sound(Sent(w))
  {
  }

  lemma AcceptedSound(w: Window, ack: int)
    requires Sound(w) && IsNew(w, ack)
    ensures Sound(Accepted(w, ack))
    ensures !SlowStart(w) ==> !SlowStart(Accepted(w, ack))
  {
    FloorMonotone(w.lastAvailable, ack as real + w.cwnd);
    if SlowStart(w) {
      assert (w.cwnd + 1.0).Floor == w.cwnd.Floor + 1;
    } else {
      assert Accepted(w, ack).cwnd > w.cwnd;
    }
  }

  lemma FloorMonotone(n: int, x: real)
    requires n as real <= x
    ensures n <= x.Floor && x.Floor as real <= x
  {
  }

  lemma AcknowledgedSound(w: Window, ack: int)
    requires Sound(w) && 0 <= ack
    ensures Sound(Acknowledged(w, ack))
    ensures !SlowStart(w) ==> !SlowStart(Acknowledged(w, ack))
  {
    if IsNew(w, ack) {
      AcceptedSound(w, ack);
    } else if ack == w.lastAcked && w.dupAckNum + 1 >= DUP_ACK_NUM {
      RetransmittedSound(w.(dupAckNum := w.dupAckNum + 1), ack);
    }
  }

  lemma OutdatedAck(w: Window, ack: int)
    ensures ack < w.lastAcked < w.pktNum ==> Acknowledged(w, ack) == w.(timerRunning := false) && !Finishes(w, ack)
  {
  }

  lemma AckedNotBack(w: Window, ack: int)
    ensures Acknowledged(w, ack).lastAcked >= w.lastAcked
  {
  }

  lemma AckedPastSent(w: Window, ack: int)
    requires w.lastAcked <= w.lastSent
    ensures Acknowledged(w, ack).lastAcked > Acknowledged(w, ack).lastSent <==> IsNew(w, ack) && ack > w.lastSent
  {
  }

  // ---------- How many packets may be sent ----------

  /** After k turns of the loop that send a packet. */
  function Burst(w: Window, k: nat): Window {
    if k == 0 then w else Sent(Burst(w, k - 1))
  }

  lemma {:induction false} BurstEnds(w: Window, k: nat)
    ensures var v := Burst(w, k);
            v.lastSent == w.lastSent + k && v.lastAvailable == w.lastAvailable && v.pktNum == w.pktNum
  {
    if k > 0 {
      BurstEnds(w, k - 1);
    }
  }

  lemma WholeFloor(n: int, x: real)
    ensures (n as real + x).Floor == n + x.Floor
  {
  }

  /** After a retransmission as many packets may be sent as the new window has whole places, up to the end: one in slow
      start, half the old window and three more after it. */
  lemma BurstAfterLoss(w: Window, ack: int, k: nat)
    ensures CanSend(Burst(Retransmitted(w, ack), k)) <==>
            ack + k < w.pktNum && k < if SlowStart(w) then 1 else (w.cwnd / 2.0).Floor + 3
  {
    BurstEnds(Retransmitted(w, ack), k);
    WholeFloor(ack, Retransmitted(w, ack).cwnd);
  }

  /** After a new acknowledgement, as many as the window before it has whole places, from the acknowledged packet on. */
  lemma BurstAfterAck(w: Window, ack: int, k: nat)
    requires IsNew(w, ack)
    ensures CanSend(Burst(Acknowledged(w, ack), k)) <==>
            w.lastSent + k < w.pktNum && w.lastSent + k < ack + w.cwnd.Floor
  {
    BurstEnds(Acknowledged(w, ack), k);
    WholeFloor(ack, w.cwnd);
  }

  /** The first packet is sent alone. */
  lemma BurstAtStart(pktNum: nat, k: nat)
    ensures CanSend(Burst(Opened(pktNum), k)) <==> k < pktNum && k < 1
  {
    BurstEnds(Opened(pktNum), k);
  }

  // ---------- Growth ----------

  /** After n new acknowledgements the window is at most about the square root of 3 n. */
  ghost predicate Bounded(w: Window, n: nat) { Square(w.cwnd) <= 4225.0 + 3.0 * n as real }

  ghost function Square(x: real): real { x * x }

  lemma SquareMonotone(x: real, y: real)
    requires 0.0 <= x <= y
    ensures Square(x) <= Square(y)
  {
    assert x * x <= x * y <= y * y;
  }

  lemma SquareOfIncrease(c: Cwnd)
    ensures Square(c + Reciprocal(c)) <= Square(c) + 3.0
  {
    var r := Reciprocal(c);
    assert c * r == 1.0;
    assert r * r <= 1.0 by { SquareMonotone(r, 1.0); }
    assert Square(c + r) == c * c + 2.0 * (c * r) + r * r;
  }

  lemma RetransmittedBounded(w: Window, ack: int, n: nat)
    requires Phase(w) && Bounded(w, n)
    ensures Bounded(Retransmitted(w, ack), n)
  {
    var c := Retransmitted(w, ack).cwnd;
    if c <= 65.0 {
      SquareMonotone(c, 65.0);
    } else {
      assert c <= w.cwnd / 2.0 + 3.0 <= w.cwnd;
      SquareMonotone(c, w.cwnd);
    }
  }

  lemma AcknowledgedBounded(w: Window, ack: int, n: nat)
    requires Sound(w) && 0 <= ack && Bounded(w, n)
    ensures Bounded(Acknowledged(w, ack), if IsNew(w, ack) then n + 1 else n)
  {
    if IsNew(w, ack) {
      if SlowStart(w) {
        SquareMonotone(w.cwnd + 1.0, 65.0);
      } else {
        SquareOfIncrease(w.cwnd);
      }
    } else if ack == w.lastAcked && w.dupAckNum + 1 >= DUP_ACK_NUM {
      RetransmittedBounded(w.(dupAckNum := w.dupAckNum + 1), ack, n);
    }
  }

  // ---------- Losses ----------

  /** Retransmissions in a row, with no new acknowledgement between them. */
  function Losses(w: Window, acks: seq<int>): Window {
    if acks == [] then w else Retransmitted(Losses(w, acks[..|acks| - 1]), acks[|acks| - 1])
  }

  function Pow2(n: nat): (p: nat)
    ensures p >= 1
  {
    if n == 0 then 1 else 2 * Pow2(n - 1)
  }

  /** p halvings of the distances to 6 and to 4 lead from first to x, with rounding in between. */
  ghost predicate Halved(first: real, x: real, p: real) {
    (x - 6.0) * p <= first - 6.0 && first - 4.0 <= (x - 4.0) * p
  }

  /** After slow start, each loss halves the distance of cwnd to the fixed point, up to rounding. */
  lemma {:induction false} LossesHalve(w: Window, acks: seq<int>)
    requires Phase(w) && !SlowStart(w) && w.cwnd >= 6.0 && acks != []
    ensures var v := Losses(w, acks);
            && Phase(v) && !SlowStart(v) && v.cwnd >= 6.0 && v.cwnd == (v.ssthresh + DUP_ACK_NUM) as real
            && Halved(w.cwnd, v.cwnd, Pow2(|acks|) as real)
  {
    var n := |acks| - 1;
    var before := Losses(w, acks[..n]);
    if n > 0 {
      LossesHalve(w, acks[..n]);
    } else {
      assert Halved(w.cwnd, w.cwnd, 1.0);
    }
    LossHalves(before, acks[n]);
    HalvedAgain(w.cwnd, before.cwnd, Losses(w, acks).cwnd, Pow2(n) as real);
    assert Pow2(n + 1) as real == 2.0 * Pow2(n) as real;
  }

  lemma LossHalves(w: Window, ack: int)
    requires Phase(w) && !SlowStart(w) && w.cwnd >= 6.0
    ensures var v := Retransmitted(w, ack);
            && Phase(v) && !SlowStart(v) && v.cwnd >= 6.0 && v.cwnd == (v.ssthresh + DUP_ACK_NUM) as real
            && w.cwnd / 2.0 + 2.0 < v.cwnd <= w.cwnd / 2.0 + 3.0
  {
    var half := w.cwnd / 2.0;
    assert half.Floor >= 3;
    assert (half.Floor + DUP_ACK_NUM) as real == half.Floor as real + 3.0;
  }

  lemma HalvedAgain(first: real, before: real, after: real, p: real)
    requires p >= 1.0 && before / 2.0 + 2.0 < after <= before / 2.0 + 3.0 && Halved(first, before, p)
    ensures Halved(first, after, 2.0 * p)
  {
    HalvedBelow(after - 6.0, before - 6.0, p, first - 6.0);
    HalvedAbove(after - 4.0, before - 4.0, p, first - 4.0);
  }

  lemma HalvedBelow(x: real, y: real, p: real, bound: real)
    requires 2.0 * x <= y && p >= 1.0 && y * p <= bound
    ensures x * (2.0 * p) <= bound
  {
    Scaled(2.0 * x, y, p);
  }

  lemma HalvedAbove(x: real, y: real, p: real, bound: real)
    requires y <= 2.0 * x && p >= 1.0 && bound <= y * p
    ensures bound <= x * (2.0 * p)
  {
    Scaled(y, 2.0 * x, p);
  }

  lemma Scaled(x: real, y: real, p: real)
    requires x <= y && p > 0.0
    ensures x * p <= y * p
  {
  }

  /** From a window of at least 6, losses reach 6 once 2^n exceeds the distance to it, and not before
      2^(n+1) does up to rounding; the number of losses needed is logarithmic in cwnd. */
  lemma LossesReachSix(w: Window, acks: seq<int>)
    requires Phase(w) && !SlowStart(w) && w.cwnd >= 6.0 && acks != []
    ensures w.cwnd - 6.0 < Pow2(|acks|) as real ==> Losses(w, acks).cwnd == 6.0 && Losses(w, acks).ssthresh == 3
    ensures Losses(w, acks).cwnd == 6.0 ==> w.cwnd - 4.0 <= 2.0 * Pow2(|acks|) as real
  {
    LossesHalve(w, acks);
    HalvedToSix(w.cwnd, Losses(w, acks).ssthresh, Pow2(|acks|) as real);
  }

  lemma HalvedToSix(first: real, ssthresh: int, p: real)
    requires p >= 1.0 && ssthresh >= 3 && Halved(first, (ssthresh + DUP_ACK_NUM) as real, p)
    ensures first - 6.0 < p ==> ssthresh == 3
    ensures ssthresh == 3 ==> first - 4.0 <= 2.0 * p
  {
    var c := (ssthresh + DUP_ACK_NUM) as real;
    if ssthresh > 3 {
      assert c - 6.0 >= 1.0;
      Scaled(1.0, c - 6.0, p);
    }
  }

  /** From a window below 6, two losses reach 5 for good. */
  lemma {:induction false} LossesReachFive(w: Window, acks: seq<int>)
    requires Phase(w) && !SlowStart(w) && w.cwnd < 6.0 && acks != []
    ensures !SlowStart(Losses(w, acks))
    ensures if |acks| >= 2 || w.cwnd >= 4.0 then Losses(w, acks).cwnd == 5.0 && Losses(w, acks).ssthresh == 2
            else Losses(w, acks).cwnd == 4.0
  {
    var before := Losses(w, acks[..|acks| - 1]);
    if |acks| > 1 {
      LossesReachFive(w, acks[..|acks| - 1]);
    }
    assert Losses(w, acks) == Retransmitted(before, acks[|acks| - 1]);
  }

  /** In slow start, two losses reach the fixed point. */
  lemma {:induction false} LossesReachOne(w: Window, acks: seq<int>)
    requires Phase(w) && SlowStart(w) && acks != []
    ensures SlowStart(Losses(w, acks)) && Losses(w, acks).cwnd == 1.0 && Losses(w, acks).ssthresh >= 1
    ensures |acks| >= 2 ==> Losses(w, acks).ssthresh == 1
  {
    var before := Losses(w, acks[..|acks| - 1]);
    if |acks| > 1 {
      LossesReachOne(w, acks[..|acks| - 1]);
    }
    assert Losses(w, acks) == Retransmitted(before, acks[|acks| - 1]);
  }

  // ---------- Slow start ----------

  /** Acknowledgements each of which is new when it comes. */
  predicate AreNew(w: Window, acks: seq<int>) {
    acks == [] || (AreNew(w, acks[..|acks| - 1]) && IsNew(AfterAcks(w, acks[..|acks| - 1]), acks[|acks| - 1]))
  }

  /** From a window of 1, n new acknowledgements make a window of n + 1, and slow start goes on until cwnd has passed
      the threshold. */
  lemma {:induction false} SlowStartGrows(w: Window, acks: seq<int>, threshold: int)
    requires w.cwnd == 1.0 && w.ssthresh == threshold && |acks| <= threshold && AreNew(w, acks)
    ensures var v := AfterAcks(w, acks);
            v.cwnd == (|acks| + 1) as real && v.ssthresh == threshold && (SlowStart(v) <==> |acks| < threshold)
  {
    if acks != [] {
      SlowStartGrows(w, acks[..|acks| - 1], threshold);
    }
  }

  /** A loss in slow start: the window grows again from 1, by 1 for each new acknowledgement, and slow start ends with
      the acknowledgement that makes it larger than the window at the loss. */
  lemma LossInSlowStart(w: Window, ack: int, acks: seq<int>)
    requires Sound(w) && SlowStart(w) && |acks| <= w.cwnd.Floor && AreNew(Losses(w, [ack]), acks)
    ensures var v := AfterAcks(Losses(w, [ack]), acks);
            v.cwnd == (|acks| + 1) as real && (SlowStart(v) <==> |acks| as real < w.cwnd)
  {
    assert Losses(w, []) == w && [ack][..0] == [];
    SlowStartGrows(Losses(w, [ack]), acks, w.cwnd.Floor);
  }

  // ---------- Congestion avoidance ----------

  lemma SquareOfTurn(c: Cwnd)
    requires c >= 2.0
    ensures Square(c) + 2.0 <= Square(c + Reciprocal(c)) <= Square(c) + 2.25
  {
    var r := Reciprocal(c);
    assert c * r == 1.0;
    assert r <= 0.5;
    SquareMonotone(r, 0.5);
    assert Square(c + r) == c * c + 2.0 * (c * r) + Square(r);
  }

  lemma AvoidanceNext(w: Window, ack: int)
    requires w.cwnd >= 2.0 && !SlowStart(w) && IsNew(w, ack)
    ensures var v := Acknowledged(w, ack);
            && v.cwnd >= 2.0 && !SlowStart(v) && v.ssthresh == w.ssthresh
            && Square(w.cwnd) + 2.0 <= Square(v.cwnd) <= Square(w.cwnd) + 2.25
  {
    SquareOfTurn(w.cwnd);
  }

  /** After slow start, n new acknowledgements add between 2 n and 2.25 n to the square of the window: it grows as the
      square root of 2 n, by about 1 for every window of acknowledgements. */
  lemma {:induction false} AvoidanceGrows(w: Window, acks: seq<int>)
    requires w.cwnd >= 2.0 && !SlowStart(w) && AreNew(w, acks)
    ensures var v, n := AfterAcks(w, acks), |acks| as real;
            && v.cwnd >= 2.0 && !SlowStart(v) && v.ssthresh == w.ssthresh
            && Square(w.cwnd) + 2.0 * n <= Square(v.cwnd) <= Square(w.cwnd) + 2.25 * n
  {
    if acks != [] {
      var init, last := acks[..|acks| - 1], acks[|acks| - 1];
      AvoidanceGrows(w, init);
      AvoidanceNext(AfterAcks(w, init), last);
      assert |acks| as real == |init| as real + 1.0;
    }
  }

  // ---------- Duplicate acknowledgements ----------

  function Repeated(w: Window, ack: int, k: nat): Window {
    if k == 0 then w else Acknowledged(Repeated(w, ack, k - 1), ack)
  }

  lemma {:induction false} RepeatedPktNum(w: Window, ack: int, k: nat)
    ensures Repeated(w, ack, k).pktNum == w.pktNum
  {
    if k > 0 {
      RepeatedPktNum(w, ack, k - 1);
    }
  }

  /** How many repetitions of lastAcked make the sender retransmit. */
  function RepetitionsNeeded(w: Window): int { DUP_ACK_NUM - w.dupAckNum }

  /** Fewer repetitions only count; that many retransmit.  So three are needed exactly while the count is still 0,
      and two after a new acknowledgement or a retransmission. */
  lemma RepetitionsRetransmit(w: Window, k: nat)
    requires Sound(w)
    ensures k < RepetitionsNeeded(w) ==>
              Repeated(w, w.lastAcked, k)
              == w.(dupAckNum := w.dupAckNum + k, timerRunning := w.timerRunning && k == 0)
    ensures k == RepetitionsNeeded(w) ==>
              Repeated(w, w.lastAcked, k) == Retransmitted(w, w.lastAcked).(timerRunning := false)
    ensures RepetitionsNeeded(w) == 3 <==> w.dupAckNum == 0
    ensures RepetitionsNeeded(Retransmitted(w, w.lastAcked)) == 2
  {
    if 0 < k <= RepetitionsNeeded(w) {
      RepetitionsRetransmit(w, k - 1);
      assert Repeated(w, w.lastAcked, k) == Acknowledged(Repeated(w, w.lastAcked, k - 1), w.lastAcked);
    }
  }

  /** The count is 0 only at the start, before the first acknowledgement or retransmission. */
  ghost predicate CountStarts(w: Window) { w.dupAckNum == 0 ==> w.lastAcked == 0 }

  lemma CountAfterAck(w: Window, ack: int)
    requires Sound(w) && CountStarts(w) && 0 <= ack
    ensures CountStarts(Acknowledged(w, ack))
    ensures Acknowledged(w, ack).dupAckNum == 0 <==> w.dupAckNum == 0 && ack >= w.pktNum
  {
  }

  /** The sender after a sequence of acknowledgements. */
  function AfterAcks(w: Window, acks: seq<int>): Window {
    if acks == [] then w else Acknowledged(AfterAcks(w, acks[..|acks| - 1]), acks[|acks| - 1])
  }

  function Count(acks: seq<int>, ack: int): (n: nat)
    ensures n <= |acks|
  {
    if acks == [] then 0 else Count(acks[..|acks| - 1], ack) + if acks[|acks| - 1] == ack then 1 else 0
  }

  /** The repetitions need not be in a row: outdated acknowledgements between them change nothing. */
  lemma {:induction false} OutdatedAcksDoNotInterrupt(w: Window, acks: seq<int>)
    requires Sound(w) && forall i :: 0 <= i < |acks| ==> 0 <= acks[i] <= w.lastAcked
    ensures Count(acks, w.lastAcked) < RepetitionsNeeded(w) ==>
              AfterAcks(w, acks) == w.(dupAckNum := w.dupAckNum + Count(acks, w.lastAcked),
                                       timerRunning := w.timerRunning && acks == [])
    ensures acks != [] && acks[|acks| - 1] == w.lastAcked && Count(acks, w.lastAcked) == RepetitionsNeeded(w) ==>
              AfterAcks(w, acks) == Retransmitted(w, w.lastAcked).(timerRunning := false)
  {
    if acks != [] {
      OutdatedAcksDoNotInterrupt(w, acks[..|acks| - 1]);
      OutdatedAck(AfterAcks(w, acks[..|acks| - 1]), acks[|acks| - 1]);
    }
  }

  /** Three equal acknowledgements, new or not, always make the sender go back to the packet they ask for. */
  lemma ThreeAcksGoBack(w: Window, ack: int)
    requires Sound(w) && w.lastAcked <= ack < w.pktNum
    ensures var v := Repeated(w, ack, 3);
            Sound(v) && v.lastSent == v.lastAcked == ack && CanSend(v) && v.pktNum == w.pktNum
  {
    var a := Acknowledged(w, ack);
    var b := Acknowledged(a, ack);
    AcknowledgedSound(w, ack);
    AcknowledgedSound(a, ack);
    AcknowledgedSound(b, ack);
    assert Repeated(w, ack, 1) == a && Repeated(w, ack, 2) == b by {
      assert Repeated(w, ack, 0) == w;
    }
    assert a.lastAcked == ack && b.lastAcked == ack;
    assert a.dupAckNum >= 1;
    assert b.dupAckNum == 2 || (b.lastSent == ack && b.dupAckNum == 1);
  }
}
