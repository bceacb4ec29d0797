/** What holds in every run of a connection, whatever the network and the timers do. */
module TransferSafety {
  import opened Chunking
  import opened Transfer
  import Receiving
  import Window

  /** The received prefix is the sender's, and a packet about to be copied fits into the buffer. */
  lemma Integrity(c: Config, steps: seq<Step>)
    ensures var r := Run(c, steps).inbox;
            && r.nextExpected == r.lastRcvd + 1 && r.lastRcvd <= PKT_NUM
            && var n := if r.lastRcvd * 1400 < 524288 then r.lastRcvd * 1400 else 524288;
               |r.data| == 524288 && r.data[..n] == c.chunk[..n]
    ensures var s := Run(c, steps);
            forall p :: p in s.net && p.Data? && s.inbox.inPool ==> Receiving.Fits(s.inbox, p.seqNum, p.payload)
  {
    RunInv(c, steps);
    var s := Run(c, steps);
    forall p | p in s.net && p.Data? && s.inbox.inPool ensures Receiving.Fits(s.inbox, p.seqNum, p.payload)
    {
      assert InFlight(c, p, s.inbox.lastRcvd);
      Receiving.ReceivedSound(s.inbox, c.chunk, c.sha1, p.seqNum, p.payload);
    }
  }

  /** A sender is only removed once the receiver holds the whole chunk; the receiver then has left its pool,
      and its chunk is finished exactly when the sender's chunk has the wanted digest. */
  lemma Completion(c: Config, steps: seq<Step>)
    requires !Run(c, steps).inPool
    ensures var r := Run(c, steps).inbox;
            && r.data == c.chunk && r.lastRcvd == PKT_NUM && !r.inPool
            && (r.state == Receiving.FINISHED <==> Receiving.Checks(c.chunk, c.sha1))
  {
    RunInv(c, steps);
    var r := Run(c, steps).inbox;
    CoveredAll(PKT_NUM);
    assert r.data == r.data[..CHUNK_SIZE] && c.chunk == c.chunk[..CHUNK_SIZE];
  }

  lemma WithinPackets(c: Config, steps: seq<Step>)
    ensures var s := Run(c, steps);
            s.window.pktNum == 375 && s.window.lastSent <= 375 && forall n: nat :: Ack(n) in s.net ==> n <= 375
  {
    RunInv(c, steps);
    var s := Run(c, steps);
    forall n: nat | Ack(n) in s.net ensures n <= 375 {
      assert InFlight(c, Ack(n), s.inbox.lastRcvd);
    }
  }

  lemma RemovedByApply(c: Config, s: State, step: Step)
    requires s.inPool && s.window.pktNum == 375 && s.window.lastSent <= 375
    requires forall n: nat :: Ack(n) in s.net ==> n <= 375
    ensures !Apply(c, s, step).inPool <==>
            step == Deliver(Ack(375)) && Ack(375) in s.net && s.window.lastSent == 375
  {
    assert step.Deliver? ==> step.pkt.Data? || step.pkt.Ack?;
  }

  /** A step removes the sender exactly if it hands it the acknowledgement of all 375 packets, and all are sent. */
  lemma RemovedByLastAck(c: Config, steps: seq<Step>, step: Step)
    requires Run(c, steps).inPool
    ensures var s := Run(c, steps);
            !Run(c, steps + [step]).inPool <==>
            step == Deliver(Ack(375)) && Ack(375) in s.net && s.window.lastSent == 375
  {
    WithinPackets(c, steps);
    RunStep(c, Opened(c), steps, step);
    RemovedByApply(c, Run(c, steps), step);
  }

  /** As long as not all are sent, that acknowledgement changes nothing at the sender, not even its timer. */
  lemma EarlyLastAck(c: Config, steps: seq<Step>)
    requires Run(c, steps).inPool && Run(c, steps).window.lastSent < 375
    ensures Run(c, steps + [Deliver(Ack(375))]) ==
            Run(c, steps).(net := Run(c, steps).net - multiset{Ack(375)})
  {
    WithinPackets(c, steps);
    RunStep(c, Opened(c), steps, Deliver(Ack(375)));
  }

  /** Acknowledged positions, timer ids and acknowledgements on their way never run ahead of the receiver. */
  lemma AcksNeverAhead(c: Config, steps: seq<Step>)
    ensures var s := Run(c, steps);
            && s.window.lastAcked <= s.inbox.lastRcvd && s.window.lastAcked < PKT_NUM
            && s.window.timerId <= s.inbox.lastRcvd && s.window.timerId < PKT_NUM
            && (forall id :: id in s.sleeping ==> id <= s.inbox.lastRcvd && id < PKT_NUM)
            && (forall n: nat :: Ack(n) in s.net ==> n <= s.inbox.lastRcvd)
  {
    RunInv(c, steps);
    var s := Run(c, steps);
    forall id | id in s.sleeping
      ensures id <= s.inbox.lastRcvd && id < PKT_NUM
    {
      assert Reached(id, s.inbox.lastRcvd);
    }
    forall n: nat | Ack(n) in s.net
      ensures n <= s.inbox.lastRcvd
    {
      assert InFlight(c, Ack(n), s.inbox.lastRcvd);
    }
  }

  /** Nothing is sent past the window, even while last_sent lies behind last_acked. */
  lemma WindowSafety(c: Config, steps: seq<Step>)
    ensures var w := Run(c, steps).window;
            && w.lastSent <= w.lastAvailable && w.lastSent <= PKT_NUM
            && w.lastAvailable as real <= w.lastAcked as real + w.cwnd
            && (w.lastSent - w.lastAcked) as real <= w.cwnd
  {
    RunInv(c, steps);
  }

  // ---------- The sender's part of a step ----------

  function NextWindow(s: State, step: Step): Window.Window {
    match step
    case StartSender => if s.started then s.window else Window.Armed(s.window)
    case SenderLoop => if s.started && MaySend(s.window) then Window.Sent(s.window) else s.window
    case Timeout(id) => if id in s.sleeping then Window.TimedOut(s.window, id) else s.window
    case Deliver(Ack(n)) => if Ack(n) in s.net && s.inPool then Window.Acknowledged(s.window, n) else s.window
    case _ => s.window
  }

  lemma WindowOfApply(c: Config, s: State, step: Step)
    ensures Apply(c, s, step).window == NextWindow(s, step)
  {
    if step.Deliver? {
      assert step.pkt.Data? || step.pkt.Ack?;
    }
  }

  // ---------- Phases ----------

  lemma ApplyKeepsAvoidance(c: Config, s: State, step: Step)
    requires Inv(c, s) && !Window.SlowStart(s.window)
    ensures !Window.SlowStart(Apply(c, s, step).window)
  {
    WindowOfApply(c, s, step);
    match step
    case Timeout(id) =>
      if id in s.sleeping {
        assert Reached(id, s.inbox.lastRcvd);
        Window.RetransmittedSound(s.window, id);
      }
    case Deliver(Ack(n)) => Window.AcknowledgedSound(s.window, n);
    case _ =>
  }

  /** cwnd and ssthresh are at least 1; in slow start cwnd is whole and at most ssthresh, which is at most 64;
      after it cwnd is at least 2. */
  lemma PhaseBounds(c: Config, steps: seq<Step>)
    ensures var w := Run(c, steps).window;
            && w.cwnd >= 1.0 && w.ssthresh >= 1
            && if Window.SlowStart(w)
               then w.cwnd == w.cwnd.Floor as real && w.cwnd <= w.ssthresh as real <= 64.0
               else w.cwnd >= 2.0
  {
    RunInv(c, steps);
  }

  lemma {:induction false} RunFromKeepsAvoidance(c: Config, s: State, more: seq<Step>)
    requires Inv(c, s) && !Window.SlowStart(s.window)
    ensures !Window.SlowStart(RunFrom(c, s, more).window)
  {
    if more != [] {
      var init, last := more[..|more| - 1], more[|more| - 1];
      RunFromKeepsAvoidance(c, s, init);
      RunFromInv(c, s, init);
      ApplyKeepsAvoidance(c, RunFrom(c, s, init), last);
      RunStep(c, s, init, last);
      assert more == init + [last];
    }
  }

  /** Once slow start is over it is over for good, through every later acknowledgement and retransmission. */
  lemma SlowStartEndsOnce(c: Config, steps: seq<Step>, more: seq<Step>)
    requires !Window.SlowStart(Run(c, steps).window)
    ensures !Window.SlowStart(Run(c, steps + more).window)
  {
    RunInv(c, steps);
    RunFromKeepsAvoidance(c, Run(c, steps), more);
    RunAppend(c, Opened(c), steps, more);
  }

  // ---------- Growth ----------

  predicate AcceptsNew(s: State, step: Step) {
    step.Deliver? && step.pkt.Ack? && step.pkt in s.net && s.inPool && Window.IsNew(s.window, step.pkt.ackNum)
  }

  /** The number of acknowledgements that a run accepted as new. */
  function NewAcks(c: Config, steps: seq<Step>): nat
  {
    if steps == [] then 0
    else
      var init := steps[..|steps| - 1];
      NewAcks(c, init) + if AcceptsNew(Run(c, init), steps[|steps| - 1]) then 1 else 0
  }

  lemma ApplyBounded(c: Config, s: State, step: Step, n: nat)
    requires Inv(c, s) && Window.Bounded(s.window, n)
    ensures Window.Bounded(Apply(c, s, step).window, if AcceptsNew(s, step) then n + 1 else n)
  {
    WindowOfApply(c, s, step);
    match step
    case Timeout(id) => Window.RetransmittedBounded(s.window, id, n);
    case Deliver(Ack(k)) => Window.AcknowledgedBounded(s.window, k, n);
    case _ =>
  }

  /** However the losses fall, cwnd is at most the square root of 65^2 + 3 n after n new acknowledgements. */
  lemma {:induction false} Growth(c: Config, steps: seq<Step>)
    ensures Window.Bounded(Run(c, steps).window, NewAcks(c, steps))
  {
    if steps != [] {
      var init, last := steps[..|steps| - 1], steps[|steps| - 1];
      Growth(c, init);
      RunInv(c, init);
      ApplyBounded(c, Run(c, init), last, NewAcks(c, init));
      RunStep(c, Opened(c), init, last);
      assert steps == init + [last];
    }
  }

  // ---------- Slow start between losses ----------

  /** The step makes the sender go back: the wake-up of the current timer, or the last repetition that it takes. */
  predicate IsLoss(s: State, step: Step) {
    || (step.Timeout? && step.id in s.sleeping && step.id == s.window.timerId)
    || (step.Deliver? && step.pkt.Ack? && step.pkt in s.net && s.inPool && step.pkt.ackNum < PKT_NUM
        && step.pkt.ackNum == s.window.lastAcked && Window.RepetitionsNeeded(s.window) <= 1)
  }

  predicate NoLoss(c: Config, s: State, more: seq<Step>) {
    more == [] ||
    (NoLoss(c, s, more[..|more| - 1]) && !IsLoss(RunFrom(c, s, more[..|more| - 1]), more[|more| - 1]))
  }

  /** The number of acknowledgements accepted as new from s on. */
  function NewAcksFrom(c: Config, s: State, more: seq<Step>): nat {
    if more == [] then 0
    else
      var init := more[..|more| - 1];
      NewAcksFrom(c, s, init) + if AcceptsNew(RunFrom(c, s, init), more[|more| - 1]) then 1 else 0
  }

  lemma NextGrowth(s: State, step: Step)
    requires s.window.pktNum == PKT_NUM && !IsLoss(s, step)
    ensures var v := NextWindow(s, step);
            && v.ssthresh == s.window.ssthresh
            && (!AcceptsNew(s, step) ==> v.cwnd == s.window.cwnd)
            && (AcceptsNew(s, step) && Window.SlowStart(s.window) ==> v.cwnd == s.window.cwnd + 1.0)
  {
  }

  /** n new acknowledgements and no loss lead from a window of 1 to n + 1. */
  predicate HasGrown(n: nat, w: Window.Window, threshold: int) {
    n <= threshold ==> w.cwnd == (n + 1) as real && w.ssthresh == threshold
  }

  predicate Grows(c: Config, s: State, more: seq<Step>, threshold: int) {
    HasGrown(NewAcksFrom(c, s, more), RunFrom(c, s, more).window, threshold)
  }

  lemma GrowsNext(c: Config, s: State, more: seq<Step>, step: Step, threshold: int)
    requires Inv(c, s) && Grows(c, s, more, threshold) && !IsLoss(RunFrom(c, s, more), step)
    ensures Grows(c, s, more + [step], threshold)
  {
    assert (more + [step])[..|more|] == more;
    RunStep(c, s, more, step);
    RunFromInv(c, s, more);
    WindowOfApply(c, RunFrom(c, s, more), step);
    NextGrowth(RunFrom(c, s, more), step);
  }

  lemma {:induction false} GrowsFrom(c: Config, s: State, more: seq<Step>, threshold: int)
    requires Inv(c, s) && s.window.cwnd == 1.0 && s.window.ssthresh == threshold && NoLoss(c, s, more)
    ensures Grows(c, s, more, threshold)
  {
    if more != [] {
      var init, last := more[..|more| - 1], more[|more| - 1];
      assert more == init + [last];
      GrowsFrom(c, s, init, threshold);
      GrowsNext(c, s, init, last, threshold);
    }
  }

  /** In every run, until the first loss: cwnd is one more than the number of new acknowledgements, up to 65, and slow
      start ends with the 64th. */
  lemma FirstSlowStart(c: Config, steps: seq<Step>)
    requires NoLoss(c, Opened(c), steps) && NewAcksFrom(c, Opened(c), steps) <= 64
    ensures var w, n := Run(c, steps).window, NewAcksFrom(c, Opened(c), steps);
            w.cwnd == (n + 1) as real && (Window.SlowStart(w) <==> n < 64)
  {
    OpenedInv(c);
    GrowsFrom(c, Opened(c), steps, 64);
  }

  /** What a loss in slow start leaves. */
  lemma LossGoesBack(c: Config, steps: seq<Step>, loss: Step)
    requires Window.SlowStart(Run(c, steps).window) && IsLoss(Run(c, steps), loss)
    ensures var w, v := Run(c, steps).window, Run(c, steps + [loss]).window;
            v.cwnd == 1.0 && v.ssthresh as real == w.cwnd
  {
    RunInv(c, steps);
    RunStep(c, Opened(c), steps, loss);
    WindowOfApply(c, Run(c, steps), loss);
  }

  lemma GrowsInRun(c: Config, steps: seq<Step>, more: seq<Step>)
    requires Run(c, steps).window.cwnd == 1.0 && NoLoss(c, Run(c, steps), more)
    ensures Grows(c, Run(c, steps), more, Run(c, steps).window.ssthresh)
  {
    RunInv(c, steps);
    GrowsFrom(c, Run(c, steps), more, Run(c, steps).window.ssthresh);
  }

  lemma GrownUp(n: nat, w: Window.Window, threshold: int, cwnd: real)
    requires HasGrown(n, w, threshold) && threshold as real == cwnd && n as real <= cwnd
    ensures w.cwnd == (n + 1) as real && (Window.SlowStart(w) <==> n as real < cwnd)
  {
  }

  /** In every run, after a loss in slow start and until the next loss: cwnd is one more than the number of new
      acknowledgements since, up to one more than it was at the loss, and that is where slow start ends. */
  lemma SlowStartAgain(c: Config, steps: seq<Step>, loss: Step, more: seq<Step>)
    requires Window.SlowStart(Run(c, steps).window) && IsLoss(Run(c, steps), loss)
    requires NoLoss(c, Run(c, steps + [loss]), more)
    requires NewAcksFrom(c, Run(c, steps + [loss]), more) as real <= Run(c, steps).window.cwnd
    ensures var w, n := RunFrom(c, Run(c, steps + [loss]), more).window, NewAcksFrom(c, Run(c, steps + [loss]), more);
            w.cwnd == (n + 1) as real && (Window.SlowStart(w) <==> n as real < Run(c, steps).window.cwnd)
  {
    LossGoesBack(c, steps, loss);
    GrowsInRun(c, steps + [loss], more);
    var t := Run(c, steps + [loss]);
    GrownUp(NewAcksFrom(c, t, more), RunFrom(c, t, more).window, t.window.ssthresh, Run(c, steps).window.cwnd);
  }

  // ---------- Where the obvious invariants fail ----------

  /** In every run last_acked moves back exactly when a timer thread wakes up with the current timer id and that
      lies behind last_acked. */
  lemma LastAckedMovesBack(c: Config, steps: seq<Step>, step: Step)
    ensures var s := Run(c, steps);
            Run(c, steps + [step]).window.lastAcked < s.window.lastAcked <==>
            step.Timeout? && step.id in s.sleeping && step.id == s.window.timerId && step.id < s.window.lastAcked
  {
    var s := Run(c, steps);
    RunStep(c, Opened(c), steps, step);
    WindowOfApply(c, s, step);
    match step
    case Deliver(Ack(n)) => Window.AckedNotBack(s.window, n);
    case _ =>
  }

  /** In every run last_acked gets past last_sent exactly when an acknowledgement arrives that is new and past
      last_sent. */
  lemma LastAckedPassesLastSent(c: Config, steps: seq<Step>, step: Step)
    requires Run(c, steps).window.lastAcked <= Run(c, steps).window.lastSent
    ensures var s, t := Run(c, steps), Run(c, steps + [step]);
            t.window.lastAcked > t.window.lastSent <==> AcceptsNew(s, step) && step.pkt.ackNum > s.window.lastSent
  {
    var s := Run(c, steps);
    RunStep(c, Opened(c), steps, step);
    WindowOfApply(c, s, step);
    match step
    case Deliver(Ack(n)) => Window.AckedPastSent(s.window, n);
    case _ =>
  }

  // ---------- How many repetitions retransmit ----------

  /** The step hands the sender an acknowledgement other than the last, or wakes the current timer. */
  predicate Restarts(s: State, step: Step) {
    || (step.Deliver? && step.pkt.Ack? && step.pkt in s.net && s.inPool && step.pkt.ackNum < PKT_NUM)
    || (step.Timeout? && step.id in s.sleeping && step.id == s.window.timerId)
  }

  lemma CountOfNext(s: State, step: Step)
    requires Window.Sound(s.window) && s.window.pktNum == PKT_NUM && Window.CountStarts(s.window)
    ensures Window.CountStarts(NextWindow(s, step))
    ensures NextWindow(s, step).dupAckNum == 0 <==> s.window.dupAckNum == 0 && !Restarts(s, step)
  {
    match step
    case Deliver(Ack(n)) => Window.CountAfterAck(s.window, n);
    case _ =>
  }

  lemma CountOfApply(c: Config, s: State, step: Step)
    requires Window.Sound(s.window) && s.window.pktNum == PKT_NUM && Window.CountStarts(s.window)
    ensures Window.CountStarts(Apply(c, s, step).window)
    ensures Apply(c, s, step).window.dupAckNum == 0 <==> s.window.dupAckNum == 0 && !Restarts(s, step)
  {
    WindowOfApply(c, s, step);
    CountOfNext(s, step);
  }

  /** No step of the run has been of that kind. */
  ghost predicate NoRestart(c: Config, steps: seq<Step>) {
    forall i {:trigger steps[..i]} :: 0 <= i < |steps| ==> !Restarts(Run(c, steps[..i]), steps[i])
  }

  lemma NoRestartStep(c: Config, steps: seq<Step>, step: Step)
    ensures NoRestart(c, steps + [step]) <==> NoRestart(c, steps) && !Restarts(Run(c, steps), step)
  {
    var all := steps + [step];
    assert all[..|steps|] == steps;
    forall i | 0 <= i < |steps| ensures all[..i] == steps[..i] {
    }
  }

  lemma SoundWindow(c: Config, steps: seq<Step>)
    ensures var w := Run(c, steps).window;
            Window.Sound(w) && w.pktNum == PKT_NUM && 1 <= Window.RepetitionsNeeded(w) <= 3
  {
    RunInv(c, steps);
  }

  lemma CountOfRun(c: Config, steps: seq<Step>, step: Step)
    requires Window.CountStarts(Run(c, steps).window)
    ensures Window.CountStarts(Run(c, steps + [step]).window)
    ensures Run(c, steps + [step]).window.dupAckNum == 0 <==>
            Run(c, steps).window.dupAckNum == 0 && !Restarts(Run(c, steps), step)
  {
    SoundWindow(c, steps);
    CountOfApply(c, Run(c, steps), step);
    RunStep(c, Opened(c), steps, step);
  }

  /** "Only after 3 duplicate ACKs": in every run three repetitions of last_acked are needed if and only if the sender
      has not had an acknowledgement or a timeout before; otherwise fewer are. */
  lemma {:induction false} ThreeRepetitionsNeeded(c: Config, steps: seq<Step>)
    ensures Window.CountStarts(Run(c, steps).window) && 1 <= Window.RepetitionsNeeded(Run(c, steps).window) <= 3
    ensures Window.RepetitionsNeeded(Run(c, steps).window) == 3 <==> NoRestart(c, steps)
  {
    SoundWindow(c, steps);
    if steps != [] {
      var init, last := steps[..|steps| - 1], steps[|steps| - 1];
      assert steps == init + [last];
      ThreeRepetitionsNeeded(c, init);
      CountOfRun(c, init, last);
      NoRestartStep(c, init, last);
    }
  }
}
