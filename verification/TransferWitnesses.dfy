/** Runs of a connection in which the obvious expectations fail: last_acked falls back, last_acked passes last_sent,
    and one lost packet ends the transfer for good. */
module TransferWitnesses {
  import opened Chunking
  import opened Transfer
  import opened TransferLossy
  import opened TransferProgress
  import Receiving
  import Window

  function Fresh(c: Config, lastSent: int, running: bool): Window.Window {
    Window.Window(64, 1.0, lastSent, 0, 1, 0, PKT_NUM, running, 0)
  }

  function First(c: Config): Packet { PacketNumber(c, 0) }

  /** The receiver after the first packet. */
  function GotFirst(c: Config): (r: Receiving.Inbox)
    ensures r.lastRcvd == 1 && r.nextExpected == 2 && r.inPool
  {
    var start := Receiving.Opened(c.blank);
    assert Receiving.Sound(start, c.chunk, c.sha1) by { assert Covered(0) == 0; }
    Receiving.ReceivedSound(start, c.chunk, c.sha1, 1, Slice(c.chunk, 0));
    Receiving.Received(start, 1, Slice(c.chunk, 0), c.sha1)
  }

  lemma TwoSteps(c: Config, s: State, x: Step, y: Step)
    ensures RunFrom(c, s, [x] + [y]) == Apply(c, Apply(c, s, x), y)
  {
    RunStep(c, s, [], x);
    assert [] + [x] == [x];
    RunStep(c, s, [x], y);
  }

  /** Sending and delivering the first packet of a connection whose k timer threads sleep. */
  lemma FirstPacket(c: Config, s: State, n: nat, sleeping: multiset<int>)
    requires s == State(Fresh(c, 0, true), true, true, n, sleeping, Receiving.Opened(c.blank), multiset{})
    ensures RunFrom(c, s, [SenderLoop] + [Deliver(First(c))])
            == State(Fresh(c, 1, true), true, true, n + 1, sleeping, GotFirst(c), multiset{Ack(1)})
  {
    var s1 := Apply(c, s, SenderLoop);
    assert s1 == s.(window := Fresh(c, 1, true), unstarted := n + 1, net := multiset{First(c)});
    var s2 := Apply(c, s1, Deliver(First(c)));
    assert multiset{First(c)} - multiset{First(c)} + multiset{Ack(1)} == multiset{Ack(1)};
    assert s2 == s1.(inbox := GotFirst(c), net := multiset{Ack(1)});
    TwoSteps(c, s, SenderLoop, Deliver(First(c)));
  }

  lemma FirstAck()
    ensures Window.Acknowledged(Window.Window(64, 1.0, 1, 0, 1, 0, PKT_NUM, true, 0), 1)
            == Window.Window(64, 2.0, 1, 1, 2, 1, PKT_NUM, false, 0)
  {
  }

  /** The sender's first timer thread sleeps with id 0 while the first packet is acknowledged. */
  lemma AcknowledgedWhileSleeping(c: Config) returns (steps: seq<Step>)
    ensures Run(c, steps) == State(Fresh(c, 1, true), true, true, 1, multiset{0}, GotFirst(c), multiset{Ack(1)})
  {
    var s1 := Apply(c, Opened(c), StartSender);
    var s2 := Apply(c, s1, StartTimer);
    assert multiset{} + multiset{0} == multiset{0};
    assert s2 == State(Fresh(c, 0, true), true, true, 0, multiset{0}, Receiving.Opened(c.blank), multiset{});
    TwoSteps(c, Opened(c), StartSender, StartTimer);
    steps := [StartSender] + [StartTimer] + ([SenderLoop] + [Deliver(First(c))]);
    FirstPacket(c, s2, 0, multiset{0});
    RunAppend(c, Opened(c), [StartSender] + [StartTimer], [SenderLoop] + [Deliver(First(c))]);
  }

  /** last_acked is not monotone: a timer thread that slept through the acknowledgement sets it back. */
  lemma LastAckedFallsBack(c: Config) returns (steps: seq<Step>, step: Step)
    ensures Run(c, steps + [step]).window.lastAcked < Run(c, steps).window.lastAcked
  {
    var before := AcknowledgedWhileSleeping(c);
    steps, step := before + [Deliver(Ack(1))], Timeout(0);
    RunStep(c, Opened(c), before, Deliver(Ack(1)));
    RunStep(c, Opened(c), steps, Timeout(0));
    FirstAck();
    assert Run(c, steps).window.lastAcked == 1;
  }

  /** last_acked can get ahead of last_sent: the acknowledgement arrives after the timeout. */
  lemma LastAckedPastLastSent(c: Config) returns (steps: seq<Step>)
    ensures Run(c, steps).window.lastAcked > Run(c, steps).window.lastSent
  {
    var before := AcknowledgedWhileSleeping(c);
    var s := Run(c, before);
    var late := before + [Timeout(0)];
    RunStep(c, Opened(c), before, Timeout(0));
    var w := Window.Retransmitted(s.window, 0);
    assert Run(c, late).window == w && w.lastSent == 0 && w.lastAcked == 0;
    RunStep(c, Opened(c), late, Deliver(Ack(1)));
    steps := late + [Deliver(Ack(1))];
  }

  /** The run of a deadlock up to the first acknowledgement, which the network repeats. */
  lemma RepeatedFirstAck(c: Config) returns (steps: seq<Step>)
    ensures Run(c, steps) == State(Window.Window(64, 2.0, 1, 1, 2, 1, PKT_NUM, false, 0), true, true, 2, multiset{},
                                   GotFirst(c), multiset{Ack(1)})
  {
    var s1 := Apply(c, Opened(c), StartSender);
    assert s1 == State(Fresh(c, 0, true), true, true, 1, multiset{}, Receiving.Opened(c.blank), multiset{});
    RunStep(c, Opened(c), [], StartSender);
    assert [] + [StartSender] == [StartSender];
    FirstPacket(c, s1, 1, multiset{});
    var first := [SenderLoop] + [Deliver(First(c))];
    RunAppend(c, Opened(c), [StartSender], first);
    EchoAppends(c, Opened(c), [StartSender] + first, 1);
    EchoOnce(c, Run(c, [StartSender] + first), 1);
    FirstAck();
    steps := [StartSender] + first + [Duplicate(Ack(1))] + [Deliver(Ack(1))];
  }

  function Second(c: Config): Packet { PacketNumber(c, 1) }

  // ---------- One loss ends a transfer ----------

  function Drops(steps: seq<Step>): nat {
    if steps == [] then 0 else Drops(steps[..|steps| - 1]) + if steps[|steps| - 1].Drop? then 1 else 0
  }

  /** A run without repetitions that has lost so many packets leads to t. */
  ghost predicate Leads(c: Config, steps: seq<Step>, t: State, drops: nat) {
    Plain(steps) && Drops(steps) == drops && Run(c, steps) == t
  }

  lemma Then(c: Config, steps: seq<Step>, s: State, drops: nat, step: Step, t: State) returns (more: seq<Step>)
    requires Leads(c, steps, s, drops) && !step.Duplicate? && Apply(c, s, step) == t
    ensures Leads(c, more, t, if step.Drop? then drops + 1 else drops)
  {
    more := steps + [step];
    assert more[..|steps|] == steps;
    RunStep(c, Opened(c), steps, step);
  }

  /** The state of a started connection without sleeping timer threads. */
  function At(w: Window.Window, unstarted: nat, inbox: Receiving.Inbox, net: multiset<Packet>): State {
    State(w, true, true, unstarted, multiset{}, inbox, net)
  }

  function WindowAt(cwnd: Window.Cwnd, lastSent: int, lastAcked: int, lastAvailable: int, dupAckNum: int, running: bool,
                    timerId: int): Window.Window
  {
    Window.Window(64, cwnd, lastSent, lastAcked, lastAvailable, dupAckNum, PKT_NUM, running, timerId)
  }

  /** The receiver after the first two packets. */
  function GotSecond(c: Config): (r: Receiving.Inbox)
    ensures r.lastRcvd == 2 && r.nextExpected == 3 && r.inPool
  {
    var first := GotFirst(c);
    assert Receiving.Sound(first, c.chunk, c.sha1) by { GotFirstSound(c); }
    Receiving.ReceivedSound(first, c.chunk, c.sha1, 2, Slice(c.chunk, 1));
    Receiving.Received(first, 2, Slice(c.chunk, 1), c.sha1)
  }

  lemma GotFirstSound(c: Config)
    ensures Receiving.Sound(GotFirst(c), c.chunk, c.sha1)
  {
    var start := Receiving.Opened(c.blank);
    assert Receiving.Sound(start, c.chunk, c.sha1) by { assert Covered(0) == 0; }
    Receiving.ReceivedSound(start, c.chunk, c.sha1, 1, Slice(c.chunk, 0));
  }

  /** A timer thread that starts while the timer is stopped ends. */
  lemma LateThread(c: Config, steps: seq<Step>, s: State, drops: nat) returns (more: seq<Step>)
    requires Leads(c, steps, s, drops) && !s.window.timerRunning && s.unstarted > 0
    ensures Leads(c, more, s.(unstarted := s.unstarted - 1), drops)
  {
    more := Then(c, steps, s, drops, StartTimer, s.(unstarted := s.unstarted - 1));
  }

  lemma FirstSent(c: Config) returns (steps: seq<Step>)
    ensures Leads(c, steps, At(Fresh(c, 1, true), 2, Receiving.Opened(c.blank), multiset{First(c)}), 0)
  {
    var start := Receiving.Opened(c.blank);
    assert Run(c, []) == Opened(c);
    steps := Then(c, [], Opened(c), 0, StartSender, At(Fresh(c, 0, true), 1, start, multiset{}));
    steps := Then(c, steps, At(Fresh(c, 0, true), 1, start, multiset{}), 0, SenderLoop,
                  At(Fresh(c, 1, true), 2, start, multiset{First(c)}));
  }

  /** The first packet and its acknowledgement; both timer threads start only then. */
  lemma FirstExchange(c: Config) returns (steps: seq<Step>)
    ensures Leads(c, steps, At(WindowAt(2.0, 1, 1, 2, 1, false, 0), 0, GotFirst(c), multiset{}), 0)
  {
    steps := FirstSent(c);
    var got := At(Fresh(c, 1, true), 2, GotFirst(c), multiset{Ack(1)});
    assert multiset{First(c)} - multiset{First(c)} + multiset{Ack(1)} == multiset{Ack(1)};
    steps := Then(c, steps, At(Fresh(c, 1, true), 2, Receiving.Opened(c.blank), multiset{First(c)}), 0,
                  Deliver(First(c)), got);
    var s := At(WindowAt(2.0, 1, 1, 2, 1, false, 0), 2, GotFirst(c), multiset{});
    assert multiset{Ack(1)} - multiset{Ack(1)} == multiset{};
    FirstAck();
    steps := Then(c, steps, got, 0, Deliver(Ack(1)), s);
    steps := LateThread(c, steps, s, 0);
    steps := LateThread(c, steps, s.(unstarted := 1), 0);
  }

  lemma SecondAck()
    ensures Window.Acknowledged(WindowAt(2.0, 2, 1, 2, 1, true, 1), 2) == WindowAt(3.0, 2, 2, 4, 1, false, 1)
  {
  }

  /** The second packet and its acknowledgement, with a timer thread that starts only then. */
  lemma SecondExchange(c: Config, before: seq<Step>) returns (steps: seq<Step>)
    requires Leads(c, before, At(WindowAt(2.0, 1, 1, 2, 1, false, 0), 0, GotFirst(c), multiset{}), 0)
    ensures Leads(c, steps, At(WindowAt(3.0, 2, 2, 4, 1, false, 1), 0, GotSecond(c), multiset{}), 0)
  {
    var sent := At(WindowAt(2.0, 2, 1, 2, 1, true, 1), 1, GotFirst(c), multiset{Second(c)});
    assert multiset{} + multiset{Second(c)} == multiset{Second(c)};
    steps := Then(c, before, At(WindowAt(2.0, 1, 1, 2, 1, false, 0), 0, GotFirst(c), multiset{}), 0, SenderLoop, sent);
    var got := sent.(inbox := GotSecond(c), net := multiset{Ack(2)});
    assert multiset{Second(c)} - multiset{Second(c)} + multiset{Ack(2)} == multiset{Ack(2)};
    steps := Then(c, steps, sent, 0, Deliver(Second(c)), got);
    assert multiset{Ack(2)} - multiset{Ack(2)} == multiset{};
    SecondAck();
    var s := At(WindowAt(3.0, 2, 2, 4, 1, false, 1), 1, GotSecond(c), multiset{});
    steps := Then(c, steps, got, 0, Deliver(Ack(2)), s);
    steps := LateThread(c, steps, s, 0);
  }

  function Third(c: Config): Packet { PacketNumber(c, 2) }

  function Fourth(c: Config): Packet { PacketNumber(c, 3) }

  lemma TwoSent(c: Config, before: seq<Step>) returns (steps: seq<Step>)
    requires Leads(c, before, At(WindowAt(3.0, 2, 2, 4, 1, false, 1), 0, GotSecond(c), multiset{}), 0)
    ensures Leads(c, steps, At(WindowAt(3.0, 4, 2, 4, 1, true, 2), 1, GotSecond(c),
                               multiset{Third(c)} + multiset{Fourth(c)}), 0)
  {
    var one := At(WindowAt(3.0, 3, 2, 4, 1, true, 2), 1, GotSecond(c), multiset{Third(c)});
    assert multiset{} + multiset{Third(c)} == multiset{Third(c)};
    steps := Then(c, before, At(WindowAt(3.0, 2, 2, 4, 1, false, 1), 0, GotSecond(c), multiset{}), 0, SenderLoop, one);
    var both := At(WindowAt(3.0, 4, 2, 4, 1, true, 2), 1, GotSecond(c), multiset{Third(c)} + multiset{Fourth(c)});
    steps := Then(c, steps, one, 0, SenderLoop, both);
  }

  /** Two packets sent, the first of them lost. */
  lemma ThirdLost(c: Config, before: seq<Step>) returns (steps: seq<Step>)
    requires Leads(c, before, At(WindowAt(3.0, 2, 2, 4, 1, false, 1), 0, GotSecond(c), multiset{}), 0)
    ensures Leads(c, steps, At(WindowAt(3.0, 4, 2, 4, 1, true, 2), 1, GotSecond(c), multiset{Fourth(c)}), 1)
  {
    steps := TwoSent(c, before);
    var both := At(WindowAt(3.0, 4, 2, 4, 1, true, 2), 1, GotSecond(c), multiset{Third(c)} + multiset{Fourth(c)});
    assert multiset{Third(c)} + multiset{Fourth(c)} - multiset{Third(c)} == multiset{Fourth(c)};
    steps := Then(c, steps, both, 0, Drop(Third(c)), both.(net := multiset{Fourth(c)}));
  }

  /** The fourth packet is acknowledged with the second, which stops the timer. */
  lemma FourthStops(c: Config, before: seq<Step>) returns (steps: seq<Step>)
    requires Leads(c, before, At(WindowAt(3.0, 4, 2, 4, 1, true, 2), 1, GotSecond(c), multiset{Fourth(c)}), 1)
    ensures Leads(c, steps, At(WindowAt(3.0, 4, 2, 4, 2, false, 2), 0, GotSecond(c), multiset{}), 1)
  {
    var lost := At(WindowAt(3.0, 4, 2, 4, 1, true, 2), 1, GotSecond(c), multiset{Fourth(c)});
    var again := lost.(net := multiset{Ack(2)});
    assert multiset{Fourth(c)} - multiset{Fourth(c)} + multiset{Ack(2)} == multiset{Ack(2)};
    steps := Then(c, before, lost, 1, Deliver(Fourth(c)), again);
    var stopped := At(WindowAt(3.0, 4, 2, 4, 2, false, 2), 1, GotSecond(c), multiset{});
    assert multiset{Ack(2)} - multiset{Ack(2)} == multiset{};
    steps := Then(c, steps, again, 1, Deliver(Ack(2)), stopped);
    steps := LateThread(c, steps, stopped, 1);
  }

  /** One lost DATA packet ends the transfer, on a network that repeats nothing and delivers all else in order, when
      timer threads start late: nothing is on its way, nobody will act, and the receiver still waits. */
  lemma Deadlock(c: Config) returns (steps: seq<Step>)
    ensures Plain(steps) && Drops(steps) == 1
    ensures var s := Run(c, steps); Hopeless(s) && s.inbox.inPool && s.net == multiset{}
    ensures !CanComplete(c, steps)
  {
    steps := FirstExchange(c);
    steps := SecondExchange(c, steps);
    steps := ThirdLost(c, steps);
    steps := FourthStops(c, steps);
    CompletionIsReachable(c, steps);
  }

  /** Two duplicates are enough: the sender retransmits although the acknowledgement was repeated only twice. */
  lemma TwoDuplicatesRetransmit(c: Config) returns (steps: seq<Step>)
    ensures var w := Run(c, steps).window;
            && w.lastAcked == 1 && Window.RepetitionsNeeded(w) == 2
            && Run(c, steps + Echo(1, 2)).window == Window.Retransmitted(w, 1).(timerRunning := false)
            && Run(c, steps + Echo(1, 2)).window.cwnd < w.cwnd
  {
    steps := RepeatedFirstAck(c);
    var s := Run(c, steps);
    RunInv(c, steps);
    RunAppend(c, Opened(c), steps, Echo(1, 2));
    EchoRuns(c, s, 1, 2);
    Window.RepetitionsRetransmit(s.window, 2);
  }

  /** The second packet has been acknowledged, and the first acknowledgement is still on its way. */
  lemma SecondAcknowledged(c: Config) returns (steps: seq<Step>)
    ensures var s := Run(c, steps);
            s.inPool && Ack(1) in s.net && Ack(2) in s.net && s.window.pktNum == PKT_NUM
            && s.window.lastAcked == 2 && s.window.dupAckNum == 1
  {
    var before := RepeatedFirstAck(c);
    var s := Run(c, before);
    RunInv(c, before);
    Receiving.ReceivedSound(s.inbox, c.chunk, c.sha1, 2, Slice(c.chunk, 1));
    var s1 := Apply(c, s, SenderLoop);
    assert Second(c) in s1.net && s1.inbox == s.inbox && Ack(1) in s1.net;
    var s2 := Apply(c, s1, Deliver(Second(c)));
    assert Ack(2) in s2.net && Ack(1) in s2.net && s2.window.lastAcked == 1;
    TwoSteps(c, s, SenderLoop, Deliver(Second(c)));
    EchoRuns(c, s2, 2, 1);
    assert Window.Repeated(s2.window, 2, 0) == s2.window;
    var sent := [SenderLoop] + [Deliver(Second(c))];
    RunAppend(c, Opened(c), before, sent);
    RunAppend(c, Opened(c), before + sent, Echo(2, 1));
    steps := before + sent + Echo(2, 1);
  }

  /** Nor need they be in a row: an outdated acknowledgement arrives between the two. */
  lemma InterruptedDuplicatesRetransmit(c: Config) returns (steps: seq<Step>)
    ensures var w := Run(c, steps).window;
            && w.lastAcked == 2 && Window.RepetitionsNeeded(w) == 2
            && Run(c, steps + Echo(2, 1) + Echo(1, 1) + Echo(2, 1)).window
               == Window.Retransmitted(w, 2).(timerRunning := false)
  {
    steps := SecondAcknowledged(c);
    var s := Run(c, steps);
    RunInv(c, steps);
    var w := s.window;
    var w1 := Window.Repeated(w, 2, 1);
    Window.RepetitionsRetransmit(w, 1);
    Window.OutdatedAck(w1, 1);
    assert Window.Repeated(w1, 1, 0) == w1 && Window.Repeated(w1, 1, 1) == w1;
    EchoRuns(c, s, 2, 1);
    EchoRuns(c, s.(window := w1), 1, 1);
    EchoRuns(c, s.(window := w1), 2, 1);
    RunAppend(c, Opened(c), steps, Echo(2, 1));
    RunAppend(c, Opened(c), steps + Echo(2, 1), Echo(1, 1));
    RunAppend(c, Opened(c), steps + Echo(2, 1) + Echo(1, 1), Echo(2, 1));
    Window.RepetitionsRetransmit(w, 2);
    assert Window.Repeated(w1, 2, 0) == w1;
  }
}
