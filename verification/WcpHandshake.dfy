/** The SYN packets of a connection, and when the assertion about sending one holds.

    The send loop asserts that a SYN leaves while the connection is being opened. An endpoint that accepts can
    take a packet with an ACK flag, and be established by it, before its own SYN has left.
 */
module WcpHandshake {
  import opened Arithmetic
  import opened Bytes
  import opened WcpModel
  import opened WcpInvariant
  import opened WcpSending
  import opened WcpSystem
  import opened WcpRuns

  ghost predicate Opening(w: Wcb) { w.state == Syning || w.state == SynReceived }

  ghost predicate SynAt(log: seq<Item>, n: nat) { n < |log| && log[n].flags.syn }

  ghost predicate OneSyn(log: seq<Item>) { forall m: nat, n: nat :: SynAt(log, m) && SynAt(log, n) ==> m == n }

  /** `x` has consumed an item with an ACK flag. */
  ghost predicate Acked(x: Wcb, y: Wcb)
  {
    exists k :: 0 <= k < x.rcv.next && k < |y.snd.log| && y.snd.log[k].flags.ack
  }

  ghost predicate SynConsumed(x: Wcb, y: Wcb) { exists k: nat :: k < x.rcv.next && SynAt(y.snd.log, k) }

  ghost predicate SynUnsent(w: Wcb) { exists n: nat :: n >= w.snd.next && SynAt(w.snd.log, n) }

  /** One SYN on each side; the connection is being opened until an ACK is consumed; only then can it have been
      left with the SYN unsent; and an endpoint that waits for a SYN has none of its own before it gets one. */
  ghost predicate Opened(x: Wcb, y: Wcb)
  {
    && OneSyn(x.snd.log)
    && (Opening(x) ==> !Acked(x, y))
    && ((x.state == SynSent || x.state == Established) && SynUnsent(x) ==> Acked(x, y))
    && (x.state == SynReceived && (exists n: nat :: SynAt(x.snd.log, n)) ==> SynConsumed(x, y))
  }

  // ---- steps that send ----

  /** From `w` to `w1` packets were sent: the number of the first that is a SYN lies between. */
  ghost predicate LaunchesSyn(w: Wcb, w1: Wcb)
  {
    exists n: nat :: w.snd.next <= n < w1.snd.next && SynAt(w1.snd.log, n)
  }

  /** A stretch of sending: no SYN is logged, and the state changes only by a SYN going out. */
  ghost predicate Sends(w: Wcb, w1: Wcb)
  {
    && |w.snd.log| <= |w1.snd.log| && w.snd.log == w1.snd.log[..|w.snd.log|]
    && (forall n: nat :: SynAt(w1.snd.log, n) <==> SynAt(w.snd.log, n))
    && w.snd.next <= w1.snd.next && w1.rcv.next == w.rcv.next
    && w1.state == (if w.state == Syning && LaunchesSyn(w, w1) then SynSent else w.state)
  }

  lemma SendsTransitive(a: Wcb, b: Wcb, c: Wcb)
    requires Sends(a, b) && Sends(b, c) && OneSyn(a.snd.log)
    ensures Sends(a, c) && OneSyn(c.snd.log)
    ensures LaunchesSyn(a, c) <==> LaunchesSyn(a, b) || LaunchesSyn(b, c)
    ensures LaunchesSyn(a, b) ==> !LaunchesSyn(b, c)
  {
    assert a.snd.log == c.snd.log[..|a.snd.log|] by {
      assert b.snd.log[..|a.snd.log|] == c.snd.log[..|b.snd.log|][..|a.snd.log|];
    }
    if LaunchesSyn(a, c) {
      var n: nat :| a.snd.next <= n < c.snd.next && SynAt(c.snd.log, n);
      assert SynAt(b.snd.log, n);
    }
    if LaunchesSyn(a, b) {
      var n: nat :| a.snd.next <= n < b.snd.next && SynAt(b.snd.log, n);
      assert SynAt(c.snd.log, n);
    }
  }

  /** Nothing of the handshake is touched. */
  lemma NothingSent(w: Wcb, w1: Wcb)
    requires w1.snd.log == w.snd.log && w1.snd.next == w.snd.next && w1.rcv.next == w.rcv.next && w1.state == w.state
    ensures Sends(w, w1) && !LaunchesSyn(w, w1)
  {}

  lemma LaunchSends(x: Wcb, y: Wcb, now: nat)
    requires Good(x, y) && x.snd.sending != []
    ensures Sends(x, Launch(x, now))
    ensures LaunchesSyn(x, Launch(x, now)) <==> x.snd.sending[0].pack.flags.syn
    ensures |Launch(x, now).snd.sending| < |x.snd.sending|
  {
    var q := x.snd.sending + x.snd.standby;
    assert q[0] == x.snd.sending[0];
    assert SynAt(x.snd.log, x.snd.next) <==> x.snd.sending[0].pack.flags.syn;
  }

  /** The send loop, and its assertions: none fails if the connection is being opened, and otherwise one fails
      exactly if a SYN goes out. */
  lemma {:induction false} PumpSends(s: SendStep, y: Wcb, env: Env)
    requires Good(s.w, y) && Good(y, s.w) && OneSyn(s.w.snd.log)
    ensures var s1 := PumpSending(s, env);
            && Sends(s.w, s1.w) && Good(s1.w, y) && Good(y, s1.w)
            && (PumpAsserts(s, env) <==> Opening(s.w) || !LaunchesSyn(s.w, s1.w))
    decreases |s.w.snd.sending|
  {
    hide Good, Sends, LaunchesSyn, OneSyn, Launch;
    var s1 := PumpSending(s, env);
    if s.w.snd.sending == [] || Congested(s.w) {
      NothingSent(s.w, s1.w);
    } else if env.net(|s.out|) != Sent {
      FailSends(s, y, env.net(|s.out|));
    } else {
      var w1 := Launch(s.w, env.now);
      LaunchSends(s.w, y, env.now);
      LaunchGood(s.w, y, env.now);
      var s2 := SendStep(w1, s.out + [Stamp(s.w.snd.sending[0].pack, s.w.rcv)], false);
      assert s1 == PumpSending(s2, env);
      OneSynStays(s.w, w1);
      PumpSends(s2, y, env);
      SendsTransitive(s.w, w1, s1.w);
      OpeningStays(s.w, w1);
    }
  }

  lemma OneSynStays(w: Wcb, w1: Wcb)
    requires Sends(w, w1) && OneSyn(w.snd.log)
    ensures OneSyn(w1.snd.log)
  {
    forall m: nat, n: nat | SynAt(w1.snd.log, m) && SynAt(w1.snd.log, n) ensures m == n {
      assert SynAt(w.snd.log, m) && SynAt(w.snd.log, n);
    }
  }

  lemma OpeningStays(w: Wcb, w1: Wcb)
    requires Sends(w, w1)
    ensures !LaunchesSyn(w, w1) ==> w1.state == w.state
    ensures LaunchesSyn(w, w1) && !Opening(w) ==> w1.state == w.state
  {}

  lemma LaunchGood(x: Wcb, y: Wcb, now: nat)
    requires Good(x, y) && Good(y, x) && x.snd.sending != [] && !Congested(x)
    ensures Good(Launch(x, now), y) && Good(y, Launch(x, now))
    ensures AssertsBefore(x) && Sequenced(x.snd.sending[0].pack)
  {
    HeadIsNext(x, y);
    LaunchKeeps(x, y, now);
    KnowsGrows(y, x, Launch(x, now));
  }

  lemma FailSends(s: SendStep, y: Wcb, r: SendResult)
    requires Good(s.w, y) && Good(y, s.w) && s.w.snd.sending != [] && !r.Sent?
    ensures var w1 := FailSend(StampHead(s.w), r);
            Sends(s.w, w1) && !LaunchesSyn(s.w, w1) && Good(w1, y) && Good(y, w1) && AssertsBefore(s.w)
  {
    var w0 := StampHead(s.w);
    var w1 := FailSend(w0, r);
    HeadIsNext(s.w, y);
    StampHeadKeeps(s.w, y);
    FailSendKeeps(w0, y, r);
    GrowsTransitive(s.w, w0, w1);
    KnowsGrows(y, s.w, w1);
    NothingSent(s.w, w1);
  }

  /** Cutting packets off the send buffer logs data only. */
  lemma {:induction false} SegmentsLogData(w: Wcb, tryBytes: nat)
    ensures var w1 := Segments(w, tryBytes);
            && |w.snd.log| <= |w1.snd.log| && w.snd.log == w1.snd.log[..|w.snd.log|]
            && (forall n :: |w.snd.log| <= n < |w1.snd.log| ==> !w1.snd.log[n].flags.syn)
            && w1.snd.next == w.snd.next && w1.rcv == w.rcv && w1.state == w.state
    decreases |w.snd.sb|
  {
    if w.snd.sb != [] && tryBytes != 0 {
      var w0 := Segment(w);
      var w1 := Segments(w, tryBytes);
      SegmentsLogData(w0, Wrap32(tryBytes - Min(|w.snd.sb|, MDU)));
      assert w.snd.log == w0.snd.log[..|w.snd.log|] == w1.snd.log[..|w.snd.log|] by {
        assert w1.snd.log[..|w0.snd.log|][..|w.snd.log|] == w1.snd.log[..|w.snd.log|];
      }
      assert w1.snd.log[|w.snd.log|] == w0.snd.log[|w.snd.log|];
    }
  }

  lemma RefillSends(x: Wcb, y: Wcb)
    requires Good(x, y) && Good(y, x)
    ensures Sends(x, Refill(x)) && !LaunchesSyn(x, Refill(x)) && Good(Refill(x), y) && Good(y, Refill(x))
  {
    hide Good, Segments;
    var x0 := DrainStandby(x);
    var x1 := Refill(x);
    SegmentsLogData(x0, Wrap32(x0.cc.cwnd - x0.cc.nflight));
    RefillKeeps(x, y);
    RefillGood(x, x1, y);
    DataOnly(x, x1);
  }

  lemma RefillGood(x: Wcb, x1: Wcb, y: Wcb)
    requires Good(y, x) && StepOk(x, x1, y)
    ensures Good(y, x1)
  {
    KnowsGrows(y, x, x1);
  }

  lemma DataOnly(x: Wcb, x1: Wcb)
    requires |x.snd.log| <= |x1.snd.log| && x.snd.log == x1.snd.log[..|x.snd.log|]
    requires forall n :: |x.snd.log| <= n < |x1.snd.log| ==> !x1.snd.log[n].flags.syn
    requires x1.snd.next == x.snd.next && x1.rcv.next == x.rcv.next && x1.state == x.state
    ensures Sends(x, x1) && !LaunchesSyn(x, x1)
  {
    forall n: nat ensures SynAt(x1.snd.log, n) <==> SynAt(x.snd.log, n) {
      if n < |x.snd.log| { assert x1.snd.log[..|x.snd.log|][n] == x1.snd.log[n]; }
    }
  }

  lemma {:induction false} SendLoopSends(s: SendStep, y: Wcb, env: Env)
    requires Good(s.w, y) && Good(y, s.w) && OneSyn(s.w.snd.log)
    ensures var s1 := SendLoop(s, env);
            && Sends(s.w, s1.w) && Good(s1.w, y) && Good(y, s1.w)
            && (SendLoopAsserts(s, env) <==> Opening(s.w) || !LaunchesSyn(s.w, s1.w))
    decreases Backlog(s.w)
  {
    hide Good, Sends, LaunchesSyn, OneSyn, Refill, PumpSending, PumpAsserts, Backlog;
    var s1 := PumpSending(s, env);
    PumpSends(s, y, env);
    if !s1.stop {
      PumpKeepsBacklog(s, env);
      RefillShrinks(s1.w);
      RefillSends(s1.w, y);
      OneSynStays(s.w, s1.w);
      var s2 := s1.(w := Refill(s1.w));
      SendsTransitive(s.w, s1.w, s2.w);
      OneSynStays(s1.w, s2.w);
      if s2.w.snd.sending != [] {
        SendLoopSends(s2, y, env);
        SendsTransitive(s.w, s2.w, SendLoop(s2, env).w);
        OpeningStays(s.w, s2.w);
      }
    }
  }

  lemma {:induction false} FlushLeavesHandshake(s: SendStep, env: Env)
    ensures var w1 := FlushControl(s, env).w;
            w1.snd.log == s.w.snd.log && w1.snd.next == s.w.snd.next && w1.rcv == s.w.rcv && w1.state == s.w.state
    decreases CopiesLeft(s.w.snd.ignoreSeqSpace)
  {
    if s.w.snd.ignoreSeqSpace != [] {
      var c := s.w.snd.ignoreSeqSpace[0];
      var p := Stamp(c.pack, s.w.rcv);
      if c.copies == 0 {
        FlushLeavesHandshake(s.(w := PopFront(s.w)), env);
      } else if env.net(|s.out|) == Sent {
        FlushLeavesHandshake(SendStep(SetFront(s.w, p, c.copies - 1), s.out + [p], false), env);
      }
    }
  }

  /** A whole `check_send`. */
  lemma CheckSendSends(x: Wcb, y: Wcb, env: Env)
    requires Good(x, y) && Good(y, x) && OneSyn(x.snd.log) && !StandaloneWindowUpdate(x, env.now)
    ensures var x1 := CheckSend(x, env).w;
            Sends(x, x1) && (SendAsserts(x, env) <==> Opening(x) || !LaunchesSyn(x, x1))
  {
    hide Good, Sends, LaunchesSyn, OneSyn, FlushControl, SendLoop, SendLoopAsserts;
    if x.snd.sendError {
      NothingSent(x, x);
    } else {
      var w0 := UpdateWindow(x, env.now);
      var s0 := SendStep(w0, [], false);
      var s := FlushControl(s0, env);
      FlushLeavesHandshake(s0, env);
      NothingSent(x, s.w);
      FlushGood(x, y, env);
      OneSynStays(x, s.w);
      if !s.stop {
        SendLoopSends(s, y, env);
        SendsTransitive(x, s.w, SendLoop(s, env).w);
      }
    }
  }

  lemma FlushGood(x: Wcb, y: Wcb, env: Env)
    requires Good(x, y) && Good(y, x) && !x.snd.sendError && !StandaloneWindowUpdate(x, env.now)
    ensures var w := FlushControl(SendStep(UpdateWindow(x, env.now), [], false), env).w; Good(w, y) && Good(y, w)
  {
    var s0 := SendStep(UpdateWindow(x, env.now), [], false);
    UpdateWindowKeeps(x, y, env.now);
    FlushControlKeeps(x, s0, y, env);
    KnowsGrows(y, x, FlushControl(s0, env).w);
  }

  lemma {:induction false} SweepLeavesHandshake(s: Sweep, i: nat, env: Env)
    requires i <= |s.w.snd.flights|
    ensures var w1 := SweepFrom(s, i, env).w;
            w1.snd.log == s.w.snd.log && w1.snd.next == s.w.snd.next && w1.rcv == s.w.rcv && w1.state == s.w.state
    decreases |s.w.snd.flights| - i
  {
    hide HandlePackAcked, Retransmits, NoteLoss, Stamp, Wrap32;
    if i < |s.w.snd.flights| {
      var o := s.w.snd.flights[i];
      if s.w.snd.unaUpdate && o.pack.seqNo < s.w.snd.una {
        SweepLeavesHandshake(s.(w := AckFlight(s.w, i, env)), i, env);
      } else if !Retransmits(s.w.cc, o, env.now) {
        SweepLeavesHandshake(s, i + 1, env);
      } else {
        var s1 := Judge(s, o, env.now);
        JudgeLeavesHandshake(s, o, env.now);
        if env.net(|s1.out|) == Sent { SweepLeavesHandshake(Resend(s1, i, env.now), i + 1, env); }
      }
    }
  }

  lemma JudgeLeavesHandshake(s: Sweep, o: OutPack, now: nat)
    ensures var s1 := Judge(s, o, now);
            s1.w.snd == s.w.snd && s1.w.rcv == s.w.rcv && s1.w.state == s.w.state && s1.out == s.out
  {}

  lemma CheckFlightsSends(x: Wcb, env: Env)
    ensures Sends(x, CheckFlights(x, env).w) && !LaunchesSyn(x, CheckFlights(x, env).w)
  {
    hide SweepFrom, Wrap32, Max;
    var x0 := x.(snd := x.snd.(lastRtoTimer := env.now));
    SweepLeavesHandshake(Sweep(x0, [], 0, 0), 0, env);
    NothingSent(x, CheckFlights(x, env).w);
  }

  /** Sending keeps the handshake in order on both sides. */
  lemma SendsKeepOpened(x: Wcb, x1: Wcb, y: Wcb)
    requires Opened(x, y) && Opened(y, x) && Sends(x, x1) && y.rcv.next <= |x.snd.log|
    ensures Opened(x1, y) && Opened(y, x1)
  {
    OneSynStays(x, x1);
    if LaunchesSyn(x, x1) {
      var n: nat :| x.snd.next <= n < x1.snd.next && SynAt(x1.snd.log, n);
      assert !SynUnsent(x1);
    } else if SynUnsent(x1) {
      var n: nat :| n >= x1.snd.next && SynAt(x1.snd.log, n);
      assert SynUnsent(x);
    }
    assert forall n: nat :: SynAt(x1.snd.log, n) ==> SynAt(x.snd.log, n);
    PeerGrows(y, x, x1);
  }

  /** What a side has consumed is not changed by its peer's log growing. */
  lemma PeerGrows(y: Wcb, x: Wcb, x1: Wcb)
    requires Opened(y, x) && y.rcv.next <= |x.snd.log| <= |x1.snd.log| && x.snd.log == x1.snd.log[..|x.snd.log|]
    ensures Opened(y, x1)
  {
    forall k | 0 <= k < y.rcv.next ensures x1.snd.log[k] == x.snd.log[k] {
      assert x1.snd.log[..|x.snd.log|][k] == x1.snd.log[k];
    }
    assert Acked(y, x1) <==> Acked(y, x);
    if SynConsumed(y, x) {
      var k: nat :| k < y.rcv.next && SynAt(x.snd.log, k);
      assert SynAt(x1.snd.log, k);
    }
  }

  // ---- steps that receive ----

  ghost predicate SameHandshake(w: Wcb, w1: Wcb)
  {
    w1.snd.log == w.snd.log && w1.snd.next == w.snd.next && w1.rcv.next == w.rcv.next && w1.state == w.state
  }

  lemma {:induction false} ArrivalsSame(w: Wcb, batch: seq<Pack>)
    ensures SameHandshake(w, Arrivals(w, batch).w)
  {
    if batch != [] { ArrivalsSame(w, batch[..|batch| - 1]); }
  }

  lemma {:induction false} AbsorbAcksSame(w: Wcb, acks: seq<nat>, env: Env)
    ensures SameHandshake(w, AbsorbAcks(w, acks, env))
  {
    hide HandlePackAcked, FastRecovery;
    if acks != [] { AbsorbAcksSame(w, acks[..|acks| - 1], env); }
  }

  lemma SameKeepsOpened(x: Wcb, x1: Wcb, y: Wcb)
    requires Opened(x, y) && SameHandshake(x, x1)
    ensures Opened(x1, y)
  {
    assert SynUnsent(x1) ==> SynUnsent(x);
    assert Acked(x1, y) <==> Acked(x, y);
    assert SynConsumed(x, y) ==> SynConsumed(x1, y);
  }

  lemma NoSynYet(x: Wcb, y: Wcb)
    requires Opened(x, y) && OneSyn(y.snd.log) && x.state == SynReceived && SynAt(y.snd.log, x.rcv.next)
    ensures forall n: nat :: !SynAt(x.snd.log, n)
  {}

  /** What consuming the head does to the handshake. */
  lemma ConsumeShape(x: Wcb)
    requires x.rcv.received != []
    ensures var x1, flags := ConsumeHead(x), x.rcv.received[0].flags;
            && x1.rcv.next == x.rcv.next + 1 && x1.snd.next == x.snd.next
            && x1.snd.log == (if flags.syn && x.state == SynReceived then x.snd.log + [Item(SYNACK_FLAGS, [])]
                              else if flags.syn && x.state == SynSent then x.snd.log + [Item(ACK_FLAGS, [])]
                              else x.snd.log)
            && x1.state == (if Aborts(x) then Closed else if flags.ack then OnAck(x.state) else x.state)
  {}

  /** Consuming the next item: only a SYN brings a SYN, and only an ACK establishes. */
  lemma ConsumeKeepsOpened(x: Wcb, y: Wcb)
    requires Good(x, y) && Opened(x, y) && OneSyn(y.snd.log) && Deliverable(x.rcv) && x.state != Syning
    ensures Opened(ConsumeHead(x), y)
    ensures ConsumeHead(x).state != Syning
  {
    ConsumeShape(x);
    assert FromLog(x.rcv.received[0], y.snd);
    hide Good, ConsumeHead;
    var x1, k, flags := ConsumeHead(x), x.rcv.next, x.rcv.received[0].flags;
    assert flags == y.snd.log[k].flags;
    assert Acked(x1, y) <==> Acked(x, y) || flags.ack;
    if flags.syn { assert SynAt(y.snd.log, k); }
    if flags.syn && x.state == SynReceived {
      NoSynYet(x, y);
      FirstSyn(x.snd.log);
    } else {
      forall n: nat ensures SynAt(x1.snd.log, n) <==> SynAt(x.snd.log, n) {}
      assert SynUnsent(x1) ==> SynUnsent(x);
      assert SynConsumed(x, y) ==> SynConsumed(x1, y);
    }
  }

  lemma FirstSyn(log: seq<Item>)
    requires forall n: nat :: !SynAt(log, n)
    ensures forall n: nat :: SynAt(log + [Item(SYNACK_FLAGS, [])], n) ==> n == |log|
    ensures OneSyn(log + [Item(SYNACK_FLAGS, [])])
  {
    forall n: nat ensures SynAt(log + [Item(SYNACK_FLAGS, [])], n) <==> SynAt(log, n) || n == |log| {}
  }

  lemma {:induction false} DeliverKeepsOpened(x: Wcb, y: Wcb)
    requires Good(x, y) && Opened(x, y) && OneSyn(y.snd.log) && x.state != Syning
    ensures Opened(Deliver(x), y)
    decreases |x.rcv.received|
  {
    hide Good, Opened, OneSyn, ConsumeHead;
    if HeadExpected(x.rcv) {
      if HeadTooBig(x.rcv) {
        SameKeepsOpened(x, Deliver(x), y);
      } else {
        ConsumeKeepsOpened(x, y);
        if Aborts(x) {
          assert Deliver(x) == ConsumeHead(x);
        } else {
          ConsumeHeadKeeps(x, y);
          ConsumeShrinks(x);
          DeliverKeepsOpened(ConsumeHead(x), y);
          assert Deliver(x) == Deliver(ConsumeHead(x));
        }
      }
    }
  }

  lemma ConsumeShrinks(x: Wcb)
    requires x.rcv.received != []
    ensures |ConsumeHead(x).rcv.received| < |x.rcv.received|
  {}

  lemma TimerKeeps(x: Wcb, y: Wcb, now: nat)
    requires Good(x, y)
    ensures Good(x.(rcv := x.rcv.(keepTimer := now, keepProbes := 0)), y)
  {
    RcvBookkeeping(x, y, x.rcv.(keepTimer := now, keepProbes := 0));
  }

  lemma CheckRecvKeepsOpened(x: Wcb, y: Wcb, batch: seq<Pack>, env: Env)
    requires Good(x, y) && AllWireOk(y, batch) && Opened(x, y) && OneSyn(y.snd.log) && x.state != Syning
    ensures Opened(CheckRecv(x, batch, env), y)
  {
    hide Good, Opened, OneSyn, Deliver, Arrivals, AbsorbAcks;
    var x1 := CheckRecv(x, batch, env);
    if batch == [] {
      SameKeepsOpened(x, x1, y);
    } else {
      var x0 := x.(rcv := x.rcv.(keepTimer := env.now, keepProbes := 0));
      TimerKeeps(x, y, env.now);
      var a := Arrivals(x0, batch);
      ArrivalsSame(x0, batch);
      ArrivalsKeep(x0, y, batch);
      SackKeeps(a.w, y);
      var s := Sack(a.w);
      var b := AbsorbAcks(s, a.acked, env);
      GrowsTransitive(x0, a.w, s);
      AbsorbAcksSame(s, a.acked, env);
      AbsorbAcksKeeps(s, y, a.acked, env);
      SameKeepsOpened(x, b, y);
      DeliverKeepsOpened(b, y);
      SameKeepsOpened(Deliver(b), x1, y);
    }
  }

  // ---- runs ----

  ghost predicate AllOpened(s: Sys) { Inv(s) && Opened(s.a, s.b) && Opened(s.b, s.a) && Connector(s.a) }

  /** The side that connects leaves its first state by sending its SYN, number 0. */
  ghost predicate Connector(w: Wcb) { SynAt(w.snd.log, 0) && w.state != SynReceived && (w.state == Syning || w.snd.next > 0) }

  lemma StartOpened(s: Sys)
    requires Start(s)
    ensures AllOpened(s)
  {
    StartInv(s);
  }

  /** One side moves on, the handshake in order. */
  lemma PutOpened(s: Sys, side: Side, w: Wcb, out: seq<Pack>)
    requires AllOpened(s) && Inv(Put(s, side, w, out)) && Opened(w, Peer(s, side)) && Opened(Peer(s, side), w)
    requires side == A ==> Connector(w)
    ensures AllOpened(Put(s, side, w, out))
  {}

  lemma Longer(x: Wcb, x1: Wcb, y: Wcb)
    requires Good(y, x) && Opened(y, x) && Grows(x, x1)
    ensures Opened(y, x1)
  {
    PeerGrows(y, x, x1);
  }

  lemma ReceiveOpened(s: Sys, side: Side, batch: seq<Pack>, env: Env)
    requires AllOpened(s) && Allowed(s, Receive(side, batch, env))
    ensures AllOpened(Apply(s, Receive(side, batch, env)))
  {
    hide Good, Opened, OneSyn, CheckRecv, Connector;
    var x, y := Me(s, side), Peer(s, side);
    var x1 := CheckRecv(x, batch, env);
    StepInv(s, Receive(side, batch, env));
    TruthfulBatch(s, side, batch);
    assert OneSyn(y.snd.log) by { OneSynOf(y, x); }
    CheckRecvKeepsOpened(x, y, batch, env);
    CheckRecvKeeps(x, y, batch, env);
    Longer(x, x1, y);
    if side == A { ConnectorReceives(x, y, batch, env); }
    PutOpened(s, side, x1, []);
  }

  lemma OneSynOf(x: Wcb, y: Wcb)
    requires Opened(x, y)
    ensures OneSyn(x.snd.log)
  {}

  lemma TruthfulBatch(s: Sys, side: Side, batch: seq<Pack>)
    requires Inv(s) && forall p :: p in batch ==> p in Incoming(s, side)
    ensures AllWireOk(Peer(s, side), batch)
  {
    forall i | 0 <= i < |batch| ensures WireOk(Peer(s, side), batch[i]) { assert batch[i] in batch; }
  }

  lemma ConnectorReceives(x: Wcb, y: Wcb, batch: seq<Pack>, env: Env)
    requires Connector(x) && x.state != Syning && Good(x, y) && AllWireOk(y, batch)
    ensures Connector(CheckRecv(x, batch, env))
  {
    hide Deliver, Arrivals, AbsorbAcks;
    CheckRecvKeeps(x, y, batch, env);
    var x1 := CheckRecv(x, batch, env);
    assert x1.snd.log[..|x.snd.log|][0] == x1.snd.log[0];
    if batch != [] {
      var x0 := x.(rcv := x.rcv.(keepTimer := env.now, keepProbes := 0));
      var a := Arrivals(x0, batch);
      ArrivalsSame(x0, batch);
      AbsorbAcksSame(Sack(a.w), a.acked, env);
      DeliverNeverOpens(AbsorbAcks(Sack(a.w), a.acked, env));
    }
  }

  lemma {:induction false} DeliverNeverOpens(w: Wcb)
    requires w.state != Syning && w.state != SynReceived
    ensures Deliver(w).state != Syning && Deliver(w).state != SynReceived
    decreases |w.rcv.received|
  {
    if HeadExpected(w.rcv) && !HeadTooBig(w.rcv) && !Aborts(w) { DeliverNeverOpens(ConsumeHead(w)); }
  }

  lemma SendOpened(s: Sys, side: Side, x1: Wcb, out: seq<Pack>)
    requires AllOpened(s) && Sends(Me(s, side), x1) && Inv(Put(s, side, x1, out))
    ensures AllOpened(Put(s, side, x1, out))
  {
    var x, y := Me(s, side), Peer(s, side);
    SendsKeepOpened(x, x1, y);
    if side == A {
      assert SynAt(x1.snd.log, 0);
      if x.state == Syning && x1.state != Syning {
        var n: nat :| x.snd.next <= n < x1.snd.next && SynAt(x1.snd.log, n);
      }
    }
  }

  lemma StepOpened(s: Sys, step: Step)
    requires AllOpened(s) && Allowed(s, step)
    ensures AllOpened(Apply(s, step))
  {
    hide Good, Opened, OneSyn, CheckRecv, CheckSend, CheckFlights, Sends, Connector, WireTruthful;
    StepInv(s, step);
    var x, y := Me(s, step.side), Peer(s, step.side);
    match step {
      case Write(side, bytes) =>
        NothingSent(x, AppSend(x, bytes));
        SendOpened(s, side, AppSend(x, bytes), []);
      case Read(side, size) =>
        NothingSent(x, AppRecv(x, size));
        SendOpened(s, side, AppRecv(x, size), []);
      case Receive(side, batch, env) =>
        ReceiveOpened(s, side, batch, env);
      case Retransmit(side, env) =>
        CheckFlightsSends(x, env);
        SendOpened(s, side, CheckFlights(x, env).w, CheckFlights(x, env).out);
      case Transmit(side, env) =>
        OneSynOf(x, y);
        CheckSendSends(x, y, env);
        SendOpened(s, side, CheckSend(x, env).w, CheckSend(x, env).out);
      case Expire(side, code) =>
        ExpireOpened(x, y, code);
        PutOpened(s, side, x.(state := Closed, errno := code), []);
    }
  }

  lemma ExpireOpened(x: Wcb, y: Wcb, code: int)
    requires Opened(x, y) && Opened(y, x) && x.state != Syning
    ensures Opened(x.(state := Closed, errno := code), y) && Opened(y, x.(state := Closed, errno := code))
    ensures Connector(x) ==> Connector(x.(state := Closed, errno := code))
  {
    var x1 := x.(state := Closed, errno := code);
    assert Acked(y, x1) <==> Acked(y, x);
    assert SynConsumed(y, x) ==> SynConsumed(y, x1);
  }

  lemma {:induction false} RunOpened(s: Sys, steps: seq<Step>, t: Sys)
    requires AllOpened(s) && Reaches(s, steps, t)
    ensures AllOpened(t)
    decreases |steps|
  {
    hide AllOpened, Apply, Allowed;
    if steps != [] {
      StepOpened(s, steps[0]);
      RunOpened(Apply(s, steps[0]), steps[1..], t);
    }
  }

  // ---- the theorems ----

  /** In every run, one of the assertions of the send loop fails in a `check_send` if and only if the call sends a
      SYN after the endpoint has consumed a packet with an ACK flag or was closed. */
  lemma SendAssertionsIff(s: Sys, steps: seq<Step>, t: Sys, side: Side, env: Env)
    requires Start(s) && Reaches(s, steps, t) && !StandaloneWindowUpdate(Me(t, side), env.now)
    ensures var x := Me(t, side);
            SendAsserts(x, env) <==>
              !(LaunchesSyn(x, CheckSend(x, env).w) && (x.state == Closed || Acked(x, Peer(t, side))))
  {
    hide CheckSend, SendAsserts, Good, Reaches, Start;
    StartOpened(s);
    RunOpened(s, steps, t);
    var x, y := Me(t, side), Peer(t, side);
    CheckSendSends(x, y, env);
    var x1 := CheckSend(x, env).w;
    if LaunchesSyn(x, x1) {
      var n: nat :| x.snd.next <= n < x1.snd.next && SynAt(x1.snd.log, n);
      assert SynAt(x.snd.log, n) && SynUnsent(x);
    }
  }

  /** The side that connects never fails one: it consumes nothing before its SYN is out. */
  lemma ConnectorAsserts(s: Sys, steps: seq<Step>, t: Sys, env: Env)
    requires Start(s) && Reaches(s, steps, t) && !StandaloneWindowUpdate(t.a, env.now)
    ensures SendAsserts(t.a, env)
  {
    hide CheckSend, SendAsserts, Good, Reaches, Start;
    StartOpened(s);
    RunOpened(s, steps, t);
    CheckSendSends(t.a, t.b, env);
    var x1 := CheckSend(t.a, env).w;
    if LaunchesSyn(t.a, x1) {
      var n: nat :| t.a.snd.next <= n < x1.snd.next && SynAt(x1.snd.log, n);
      assert SynAt(t.a.snd.log, n) && n == 0;
    }
  }

  /** The assertions of the delivery loop hold in every run: nothing waits below the expected number, and an item
      with bytes is flagged as data and not as a SYN. */
  lemma DeliveryAssertions(s: Sys, steps: seq<Step>, t: Sys, side: Side)
    requires Start(s) && Reaches(s, steps, t)
    ensures var r := Me(t, side).rcv;
            forall i :: 0 <= i < |r.received| ==>
              && r.received[i].seqNo >= r.next
              && (r.received[i].data != [] ==> r.received[i].flags.dat && !r.received[i].flags.syn)
  {
    StartInv(s);
    RunInv(s, steps, t);
    var x, y := Me(t, side), Peer(t, side);
    forall i | 0 <= i < |x.rcv.received|
      ensures x.rcv.received[i].data != [] ==> x.rcv.received[i].flags.dat && !x.rcv.received[i].flags.syn
    {
      assert FromLog(x.rcv.received[i], y.snd);
      assert ItemOk(y.snd.log[x.rcv.received[i].seqNo]);
    }
  }

  // ---- the condition before the call, and a run that meets it ----

  /** The next packet to leave is a SYN that waits, and nothing but the assertion is in its way. */
  predicate SynLeavesNext(x: Wcb)
  {
    && !x.snd.sendError && x.snd.sending == [] && |x.snd.standby| == 1 && x.snd.sb == []
    && x.snd.standby[0].pack.flags.syn && Room(x, |x.snd.standby[0].pack.data|)
  }

  /** For such an endpoint, on a network that takes the packet, the assertion holds if and only if the endpoint is
      not closed and has consumed no packet with an ACK flag. */
  lemma WaitingSynIff(s: Sys, steps: seq<Step>, t: Sys, side: Side, now: nat)
    requires Start(s) && Reaches(s, steps, t) && SynLeavesNext(Me(t, side))
    ensures SendAsserts(Me(t, side), Clear(now)) <==> Me(t, side).state != Closed && !Acked(Me(t, side), Peer(t, side))
  {
    hide CheckSend, SendAsserts, Good, Reaches, Start, Launch, Opened;
    StartOpened(s);
    RunOpened(s, steps, t);
    var x, y := Me(t, side), Peer(t, side);
    var o := x.snd.standby[0];
    TransmitQueued(x, o, now);
    WaitingIsNext(x, y);
  }

  lemma WaitingIsNext(x: Wcb, y: Wcb)
    requires Good(x, y) && Good(y, x) && Opened(x, y) && SynLeavesNext(x)
    ensures var w := x.snd.standby[0].pack; w.seqNo == x.snd.next && w.seqNo >= x.snd.una && Sequenced(w)
    ensures Opening(x) <==> x.state != Closed && !Acked(x, y)
  {
    var q := x.snd.sending + x.snd.standby;
    assert q[0] == x.snd.standby[0];
    assert SynAt(x.snd.log, x.snd.next) && ItemOk(x.snd.log[x.snd.next]);
    assert SynUnsent(x);
  }

  /** The acceptor's first batch when the connector's data did not wait for the answer. */
  lemma EarlyBatch(b: Wcb, p: Pack, q: Pack, now: nat)
    requires b.state == SynReceived && Waiting(b.rcv) && b.snd.standby == [] && b.rcv.next == 0
    requires p.flags == SYN_FLAGS && p.data == [] && p.seqNo == 0 && p.ack == q.ack == 0
    requires q.flags == DATA_FLAGS && |q.data| == 1 && q.seqNo == 1 && |b.rcv.rbStandby| < b.rcv.rbCapacity
    ensures var r := CheckRecv(b, [p, q], Clear(now));
            && r.state == Established && r.snd.standby == [SequencedPack(b.snd.dsn, Item(SYNACK_FLAGS, []))]
            && r.snd.sending == b.snd.sending && r.snd.sb == b.snd.sb && r.snd.sendError == b.snd.sendError
            && r.cc == b.cc && r.snd.rwnd == b.snd.rwnd
  {
    hide SackControls, SwapBuffers;
    ArrivesTwo(b, p, q, now);
    var t := TakenTwo(b, p, q, now);
    assert AbsorbAcks(t, [], Clear(now)) == t;
    var c := ConsumeHead(t);
    assert c.rcv.received == [q] && c.state == SynReceived && c.rcv.next == 1;
    DeliversOne(c, q);
    assert Deliver(t) == Deliver(c) == ConsumeHead(c);
  }

  /** A run that fails the assertion: the connector's SYN and its first byte, sent before any answer, arrive in one
      batch; the acceptor is established by the second packet while its own SYN waits. */
  lemma EarlyDataFailsAssertion(sbA: nat, rbA: nat, sbB: nat, rbB: nat, g: Garbage, h: Garbage)
    requires 0 < sbA && 0 < rbB
    ensures exists s, t :: Start(s) && CanReach(s, t) && SynLeavesNext(t.b) && !SendAsserts(t.b, Clear(0))
  {
    hide CheckSend, CheckRecv, SendAsserts, Launch, Reaches, NoteHeader, CanReach, Stamp, AssertsBefore;
    var s := Sys(Active(0, sbA, rbA, g), Passive(0, sbB, rbB, h), {}, {});
    StartsHere(s);
    var t1, p := ConnectorSyn(s);
    var t2 := Apply(t1, Write(A, [1]));
    OneMore(s, t1, Write(A, [1]));
    var t3, q := ConnectorByte(t2, p);
    OneMore(s, t2, Transmit(A, Clear(0)));
    assert forall m :: m in [p, q] ==> m in t3.wireAB;
    var t4 := Apply(t3, Receive(B, [p, q], Clear(0)));
    OneMore(s, t3, Receive(B, [p, q], Clear(0)));
    EarlyBatch(t3.b, p, q, 0);
    var o := SequencedPack(0, Item(SYNACK_FLAGS, []));
    assert t4.b.snd.standby == [o];
    TransmitQueued(t4.b, o, 0);
  }

  lemma ConnectorSyn(s: Sys) returns (t: Sys, p: Pack)
    requires exists sb: nat, rb: nat, g: Garbage :: sb > 0 && s.a == Active(0, sb, rb, g)
    ensures Allowed(s, Transmit(A, Clear(0))) && t == Apply(s, Transmit(A, Clear(0))) && t.b == s.b && p in t.wireAB
    ensures CanReach(s, t)
    ensures p.flags == SYN_FLAGS && p.data == [] && p.seqNo == 0 && p.ack == 0
    ensures ByteFits(t.a)
  {
    t, p := Apply(s, Transmit(A, Clear(0))), Pack(0, 0, s.a.rcv.wnd, SYN_FLAGS, [], []);
    var o := SequencedPack(0, Item(SYN_FLAGS, []));
    assert [] + [o] == [o];
    TransmitQueued(s.a, o, 0);
    StartsHere(s);
    OneMore(s, s, Transmit(A, Clear(0)));
  }

  /** Idle, with the SYN out, and ready to take and send a byte. */
  predicate ByteFits(a: Wcb)
  {
    && !a.snd.sendError && a.snd.sending == [] && a.snd.standby == [] && a.snd.sb == [] && a.snd.sbCapacity > 0
    && a.snd.dsn == 1 && a.rcv.next == 0 && !a.rcv.rwndMore && a.cc.nflight == HEADER_LEN && a.cc.cwnd == CWND_INIT
    && a.snd.rwnd == RCV_WND_DEFAULT
  }

  lemma ConnectorByte(t2: Sys, p: Pack) returns (t: Sys, q: Pack)
    requires ByteFits(t2.a.(snd := t2.a.snd.(sb := []))) && t2.a.snd.sb == [1] && p in t2.wireAB
    ensures Allowed(t2, Transmit(A, Clear(0))) && t == Apply(t2, Transmit(A, Clear(0))) && t.b == t2.b && p in t.wireAB && q in t.wireAB
    ensures q.flags == DATA_FLAGS && q.data == [1] && q.seqNo == 1 && q.ack == 0
  {
    t, q := Apply(t2, Transmit(A, Clear(0))), Stamp(DataOut(t2.a, [1]).pack, t2.a.rcv);
    TransmitData(t2.a, 0);
  }
}
