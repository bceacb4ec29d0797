/** Progress over a network that loses and reorders packets but never repeats one. */
module TransferLossy {
  import opened Chunking
  import opened Transfer
  import opened TransferProgress
  import Window

  predicate Plain(steps: seq<Step>) {
    forall i :: 0 <= i < |steps| ==> !steps[i].Duplicate?
  }

  /** The receiver can get the whole chunk from s on, without a packet being repeated. */
  ghost predicate CanCompletePlainly(c: Config, s: State) {
    exists more :: Plain(more) && !RunFrom(c, s, more).inbox.inPool
  }

  lemma OneStep(c: Config, s: State, step: Step)
    ensures RunFrom(c, s, [step]) == Apply(c, s, step)
  {
    RunStep(c, s, [], step);
    assert [] + [step] == [step];
  }

  /** A schedule that completes what another one has begun. */
  lemma Continue(c: Config, s: State, first: seq<Step>, rest: seq<Step>)
    requires Plain(first) && Plain(rest) && !RunFrom(c, RunFrom(c, s, first), rest).inbox.inPool
    ensures Plain(first + rest) && !RunFrom(c, s, first + rest).inbox.inPool
  {
    RunAppend(c, s, first, rest);
  }

  // ---------- States from which every packet can still be sent ----------

  /** The sender may send, and what it sends next is no later than what the receiver waits for. */
  ghost predicate Behind(c: Config, s: State) {
    Sending(c, s) && s.window.lastSent <= s.inbox.lastRcvd
  }

  /** An acknowledgement of everything received lets the sender go on. */
  lemma AckOpens(c: Config, s: State)
    requires Inv(c, s) && s.started && s.inbox.inPool && Ack(s.inbox.lastRcvd) in s.net
    requires s.window.lastSent <= s.inbox.lastRcvd && s.window.lastAcked < s.inbox.lastRcvd
    ensures var t := Apply(c, s, Deliver(Ack(s.inbox.lastRcvd)));
            Behind(c, t) && t.inbox == s.inbox && t.window.lastSent == s.window.lastSent
  {
    ApplyInv(c, s, Deliver(Ack(s.inbox.lastRcvd)));
  }

  /** A sender that is not ahead of the receiver may send, once all that was received is acknowledged. */
  lemma GoOn(c: Config, s: State) returns (more: seq<Step>)
    requires Inv(c, s) && s.started && s.inbox.inPool && Ack(s.inbox.lastRcvd) in s.net
    requires s.window.lastSent <= s.inbox.lastRcvd
    ensures Plain(more)
    ensures var t := RunFrom(c, s, more);
            Behind(c, t) && t.inbox == s.inbox && t.window.lastSent == s.window.lastSent
  {
    more := [];
    if s.window.lastAcked < s.inbox.lastRcvd {
      AckOpens(c, s);
      RunStep(c, s, [], Deliver(Ack(s.inbox.lastRcvd)));
      more := [] + [Deliver(Ack(s.inbox.lastRcvd))];
    }
  }

  /** One packet further: the receiver is done, or it has got on, or the sender has come nearer to it. */
  lemma Follow(c: Config, s: State) returns (more: seq<Step>)
    requires Behind(c, s)
    ensures Plain(more)
    ensures var t := RunFrom(c, s, more);
            && (!t.inbox.inPool || Behind(c, t)) && t.inbox.lastRcvd >= s.inbox.lastRcvd
            && (t.inbox.lastRcvd > s.inbox.lastRcvd || t.window.lastSent == s.window.lastSent + 1)
  {
    more := SendAndDeliver(c, s);
    var t := RunFrom(c, s, more);
    assert t.window.lastSent == s.window.lastSent + 1;
    if t.inbox.inPool {
      var rest := GoOn(c, t);
      RunAppend(c, s, more, rest);
      more := more + rest;
    }
  }

  lemma {:induction false} BehindCompletes(c: Config, s: State) returns (more: seq<Step>)
    requires Behind(c, s)
    ensures Plain(more) && !RunFrom(c, s, more).inbox.inPool
    decreases PKT_NUM - s.inbox.lastRcvd, s.inbox.lastRcvd - s.window.lastSent
  {
    more := Follow(c, s);
    var t := RunFrom(c, s, more);
    if t.inbox.inPool {
      var rest := BehindCompletes(c, t);
      Continue(c, s, more, rest);
      more := more + rest;
    }
  }

  /** A timer thread that wakes up with the current id. */
  lemma WakeUp(c: Config, s: State)
    requires Inv(c, s) && s.started && s.inbox.inPool && s.window.timerId in s.sleeping
    ensures Behind(c, Apply(c, s, Timeout(s.window.timerId)))
  {
    ApplyInv(c, s, Timeout(s.window.timerId));
    Window.RetransmittedSends(s.window, s.window.timerId);
  }

  lemma TimerLeadsBehind(c: Config, s: State) returns (more: seq<Step>)
    requires Inv(c, s) && s.started && s.inbox.inPool && LiveTimer(s)
    ensures Plain(more) && Behind(c, RunFrom(c, s, more))
  {
    var id := s.window.timerId;
    assert RunFrom(c, s, []) == s;
    if id in s.sleeping {
      WakeUp(c, s);
      RunStep(c, s, [], Timeout(id));
      more := [] + [Timeout(id)];
    } else {
      var t := Apply(c, s, StartTimer);
      ApplyInv(c, s, StartTimer);
      WakeUp(c, t);
      RunStep(c, s, [], StartTimer);
      RunStep(c, s, [] + [StartTimer], Timeout(id));
      more := [] + [StartTimer] + [Timeout(id)];
    }
  }

  /** The states from which some schedule without repetitions leads behind the receiver at once. */
  predicate Recovers(s: State) {
    !s.started || LiveTimer(s) || (MaySend(s.window) && s.window.lastSent <= s.inbox.lastRcvd)
  }

  /** Before the sender has started, with a live timer thread, or with a sender that may send and is not ahead of
      the receiver, the chunk can be delivered without a packet being repeated. */
  lemma RecoveringCompletes(c: Config, steps: seq<Step>)
    requires Run(c, steps).inbox.inPool && Recovers(Run(c, steps))
    ensures CanCompletePlainly(c, Run(c, steps))
  {
    var s := Run(c, steps);
    RunInv(c, steps);
    var first: seq<Step>;
    if !s.started {
      first := [StartSender];
      OneStep(c, s, StartSender);
      ApplyInv(c, s, StartSender);
    } else if LiveTimer(s) {
      first := TimerLeadsBehind(c, s);
    } else {
      first := [];
    }
    var rest := BehindCompletes(c, RunFrom(c, s, first));
    Continue(c, s, first, rest);
  }

  // ---------- The end of a connection ----------

  /** Both ends stand at the same packet, and the sender may send it. */
  ghost predicate Level(c: Config, s: State) { Behind(c, s) && s.window.lastSent == s.inbox.lastRcvd }

  /** The last acknowledgement has been made, and all packets are sent. */
  ghost predicate LastAckComes(s: State) {
    s.inPool && s.window.lastSent == s.window.pktNum == PKT_NUM && Ack(PKT_NUM) in s.net
  }

  lemma LevelNext(c: Config, s: State) returns (more: seq<Step>)
    requires Level(c, s)
    ensures Plain(more)
    ensures var t := RunFrom(c, s, more);
            if s.inbox.lastRcvd + 1 < PKT_NUM then Level(c, t) && t.inbox.lastRcvd == s.inbox.lastRcvd + 1
            else LastAckComes(t)
  {
    more := SendAndDeliver(c, s);
    var t := RunFrom(c, s, more);
    if s.inbox.lastRcvd + 1 < PKT_NUM {
      var rest := GoOn(c, t);
      RunAppend(c, s, more, rest);
      more := more + rest;
    }
  }

  lemma {:induction false} LevelEnds(c: Config, s: State) returns (more: seq<Step>)
    requires Level(c, s)
    ensures Plain(more) && !RunFrom(c, s, more).inPool
    decreases PKT_NUM - s.inbox.lastRcvd
  {
    more := LevelNext(c, s);
    var t := RunFrom(c, s, more);
    var rest;
    if s.inbox.lastRcvd + 1 < PKT_NUM {
      rest := LevelEnds(c, t);
    } else {
      rest := [Deliver(Ack(PKT_NUM))];
      OneStep(c, t, Deliver(Ack(PKT_NUM)));
    }
    RunAppend(c, s, more, rest);
    more := more + rest;
  }

  /** For every chunk there is a run that ends with the sender removed from its pool. */
  lemma SenderLeaves(c: Config) returns (steps: seq<Step>)
    ensures Plain(steps) && !Run(c, steps).inPool
  {
    var s := Apply(c, Opened(c), StartSender);
    OpenedInv(c);
    ApplyInv(c, Opened(c), StartSender);
    OneStep(c, Opened(c), StartSender);
    var rest := LevelEnds(c, s);
    RunAppend(c, Opened(c), [StartSender], rest);
    steps := [StartSender] + rest;
  }

  /** The receiver is done and gone, and its last acknowledgement is lost. */
  ghost predicate IsOrphan(s: State) { s.inPool && !s.inbox.inPool && Ack(375) !in s.net }

  lemma OrphanStays(c: Config, s: State, step: Step)
    requires IsOrphan(s) && s.window.pktNum == 375 && forall n: nat :: Ack(n) in s.net ==> n <= 375
    ensures IsOrphan(Apply(c, s, step))
  {
  }

  lemma NoLaterAck(c: Config, s: State)
    requires Inv(c, s)
    ensures s.window.pktNum == 375 && forall n: nat :: Ack(n) in s.net ==> n <= 375
  {
    forall n: nat | Ack(n) in s.net ensures n <= 375 {
      assert InFlight(c, Ack(n), s.inbox.lastRcvd);
    }
  }

  /** A lost last acknowledgement is never made up for: no schedule removes the sender. */
  lemma {:induction false} OrphanForever(c: Config, s: State, more: seq<Step>)
    requires Inv(c, s) && IsOrphan(s)
    ensures IsOrphan(RunFrom(c, s, more))
  {
    if more != [] {
      var init, last := more[..|more| - 1], more[|more| - 1];
      assert more == init + [last];
      OrphanForever(c, s, init);
      RunFromInv(c, s, init);
      NoLaterAck(c, RunFrom(c, s, init));
      OrphanStays(c, RunFrom(c, s, init), last);
      RunStep(c, s, init, last);
    }
  }

  // ---------- States that depend on repetitions ----------

  /** The window is used up, no timer is left, and all that is on its way is acknowledgements up to last_acked. */
  predicate Quiet(s: State) {
    && s.started && s.inbox.inPool && s.inPool && !MaySend(s.window) && !LiveTimer(s)
    && forall p :: p in s.net ==> p.Ack? && p.ackNum <= s.window.lastAcked
  }

  /** The repetitions of last_acked on their way are too few to make the sender retransmit. */
  predicate TooFew(s: State) {
    s.window.lastAcked >= 0 && s.net[Ack(s.window.lastAcked)] < Window.RepetitionsNeeded(s.window)
  }

  lemma TooFewDelivery(c: Config, s: State, p: Packet)
    requires Inv(c, s) && Quiet(s) && TooFew(s) && p in s.net
    ensures var t := Apply(c, s, Deliver(p)); Quiet(t) && TooFew(t) && t.inbox == s.inbox
  {
    if p.ackNum < s.window.lastAcked {
      Window.OutdatedAck(s.window, p.ackNum);
    }
  }

  lemma TooFewStays(c: Config, s: State, step: Step)
    requires Inv(c, s) && Quiet(s) && TooFew(s) && !step.Duplicate?
    ensures var t := Apply(c, s, step); Quiet(t) && TooFew(t) && t.inbox == s.inbox
  {
    match step
    case Deliver(p) =>
      if p in s.net {
        TooFewDelivery(c, s, p);
      }
    case _ =>
  }

  lemma {:induction false} TooFewForever(c: Config, s: State, more: seq<Step>)
    requires Inv(c, s) && Quiet(s) && TooFew(s) && Plain(more)
    ensures var t := RunFrom(c, s, more); Quiet(t) && TooFew(t) && t.inbox == s.inbox
  {
    if more != [] {
      var init, last := more[..|more| - 1], more[|more| - 1];
      TooFewForever(c, s, init);
      RunFromInv(c, s, init);
      TooFewStays(c, RunFrom(c, s, init), last);
      RunStep(c, s, init, last);
      assert more == init + [last];
    }
  }

  /** One more repetition counts, or makes the sender retransmit. */
  lemma RepetitionCounts(c: Config, s: State)
    requires Inv(c, s) && Quiet(s) && !TooFew(s)
    ensures var t := Apply(c, s, Deliver(Ack(s.window.lastAcked)));
            && Inv(c, t)
            && if Window.RepetitionsNeeded(s.window) == 1 then Behind(c, t)
               else Quiet(t) && !TooFew(t)
                    && Window.RepetitionsNeeded(t.window) == Window.RepetitionsNeeded(s.window) - 1
  {
    ApplyInv(c, s, Deliver(Ack(s.window.lastAcked)));
    Window.RetransmittedSends(s.window.(dupAckNum := s.window.dupAckNum + 1), s.window.lastAcked);
  }

  lemma {:induction false} EnoughComplete(c: Config, s: State) returns (more: seq<Step>)
    requires Inv(c, s) && Quiet(s) && !TooFew(s)
    ensures Plain(more) && !RunFrom(c, s, more).inbox.inPool
    decreases Window.RepetitionsNeeded(s.window)
  {
    var step := Deliver(Ack(s.window.lastAcked));
    var t := Apply(c, s, step);
    RepetitionCounts(c, s);
    OneStep(c, s, step);
    var rest;
    if Window.RepetitionsNeeded(s.window) == 1 {
      rest := BehindCompletes(c, t);
    } else {
      rest := EnoughComplete(c, t);
    }
    Continue(c, s, [step], rest);
    more := [step] + rest;
  }

  /** In a quiet state the chunk can be delivered without a packet being repeated if and only if enough repetitions
      of the last acknowledgement are already on their way. */
  lemma QuietCompletion(c: Config, steps: seq<Step>)
    requires Quiet(Run(c, steps))
    ensures CanCompletePlainly(c, Run(c, steps)) <==>
            Run(c, steps).net[Ack(Run(c, steps).window.lastAcked)] >= Window.RepetitionsNeeded(Run(c, steps).window)
  {
    var s := Run(c, steps);
    RunInv(c, steps);
    if TooFew(s) {
      forall more | Plain(more) ensures RunFrom(c, s, more).inbox.inPool {
        TooFewForever(c, s, more);
      }
    } else {
      var more := EnoughComplete(c, s);
    }
  }
}
