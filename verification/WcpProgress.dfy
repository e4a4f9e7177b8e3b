/** How a connection goes on: steps that deliver what was sent, whatever was lost on the way before. */
module WcpProgress {
  import opened Arithmetic
  import opened Bytes
  import opened WcpModel
  import opened WcpInvariant
  import opened WcpSending
  import opened WcpSystem
  import opened WcpRuns
  import WcpHandshake
  import opened WcpEffects
  import opened WcpReady

  // ---- a connection ----

  predicate Up(w: Wcb) { w.state == Established && w.errno == 0 && !w.snd.sendError && Sized(w.rcv) }

  /** `y` has no SYN of `x` left to consume. */
  ghost predicate NoSynAhead(x: Wcb, y: Wcb) { forall n: nat :: y.rcv.next <= n < |x.snd.log| ==> !x.snd.log[n].flags.syn }

  /** Both sides are established, without an error, and past the opening. */
  ghost predicate Connected(s: Sys) { Up(s.a) && Up(s.b) && NoSynAhead(s.a, s.b) && NoSynAhead(s.b, s.a) }

  /** The log went on with data. */
  ghost predicate DataLogged(w: Wcb, w1: Wcb)
  {
    && |w.snd.log| <= |w1.snd.log| && w.snd.log == w1.snd.log[..|w.snd.log|]
    && forall n :: |w.snd.log| <= n < |w1.snd.log| ==> !w1.snd.log[n].flags.syn
  }

  /** What is left to send: bytes count twice, once to be cut into a packet and once to go out. */
  function Load(s: Snd): int { 2 * |s.sb| + |s.log| - s.next }

  /** A side that went on: nothing was written, nothing taken back, and what is left to send did not grow. */
  ghost predicate Moves(w: Wcb, w1: Wcb)
  {
    && Up(w1) && DataLogged(w, w1) && w1.snd.written == w.snd.written
    && w.snd.next <= w1.snd.next && w.snd.una <= w1.snd.una && w.rcv.next <= w1.rcv.next && Load(w1.snd) <= Load(w.snd)
  }

  lemma MovesTransitive(a: Wcb, b: Wcb, c: Wcb)
    requires Moves(a, b) && Moves(b, c)
    ensures Moves(a, c)
  {
    assert a.snd.log == c.snd.log[..|b.snd.log|][..|a.snd.log|];
    forall n | |a.snd.log| <= n < |c.snd.log| ensures !c.snd.log[n].flags.syn {
      if n < |b.snd.log| { assert c.snd.log[..|b.snd.log|][n] == b.snd.log[n]; }
    }
  }

  lemma MovesNowhere(w: Wcb)
    requires Up(w)
    ensures Moves(w, w)
  {}

  /** A side whose sending half stayed but for what it heard and what it reports. */
  ghost predicate SameSending(s: Snd, s1: Snd)
  {
    s1 == s.(una := s1.una, unaUpdate := s1.unaUpdate, rwnd := s1.rwnd, flights := s1.flights,
             ignoreSeqSpace := s1.ignoreSeqSpace, lastRtoTimer := s1.lastRtoTimer)
  }

  lemma SameSendingMoves(w: Wcb, w1: Wcb)
    requires Up(w1) && SameSending(w.snd, w1.snd) && w.rcv.next <= w1.rcv.next && w.snd.una <= w1.snd.una
    ensures Moves(w, w1)
  {}

  // ---- receiving ----

  lemma AbsorbedKeeps(x: Wcb, y: Wcb, batch: seq<Pack>, env: Env)
    requires Good(x, y) && AllWireOk(y, batch)
    ensures Good(Absorbed(x, batch, env), y)
  {
    hide Good, AllWireOk, WireOk, Grows;
    var x0 := x.(rcv := x.rcv.(keepTimer := env.now, keepProbes := 0));
    assert StepOk(x, x0, y) by { BookkeepingStarts(x, y, env.now); }
    ArrivalsKeep(x0, y, batch);
    var a := Arrivals(x0, batch);
    SackKeeps(a.w, y);
    AbsorbAcksKeeps(Sack(a.w), y, a.acked, env);
  }

  lemma BookkeepingStarts(x: Wcb, y: Wcb, now: nat)
    requires Good(x, y)
    ensures StepOk(x, x.(rcv := x.rcv.(keepTimer := now, keepProbes := 0)), y)
  {
    RcvBookkeeping(x, y, x.rcv.(keepTimer := now, keepProbes := 0));
  }

  /** Delivery on an established connection with no SYN ahead. */
  ghost predicate Quietly(w: Wcb, w1: Wcb)
  {
    && w1 == w.(rcv := w1.rcv) && w1.rcv.rb == w.rcv.rb && w1.rcv.rbCapacity == w.rcv.rbCapacity && w1.rcv.next >= w.rcv.next
    && w1.rcv.keepProbes == w.rcv.keepProbes && w1.rcv.rwndTimer == w.rcv.rwndTimer
  }

  lemma ConsumeQuietly(x: Wcb, y: Wcb)
    requires Good(x, y) && x.state == Established && NoSynAhead(y, x) && Deliverable(x.rcv)
    ensures !Aborts(x) && Quietly(x, ConsumeHead(x)) && ConsumeHead(x).rcv.next == x.rcv.next + 1
    ensures Good(ConsumeHead(x), y) && NoSynAhead(y, ConsumeHead(x))
  {
    assert FromLog(x.rcv.received[0], y.snd);
    HeadConsumed(x);
    ConsumeHeadKeeps(x, y);
    hide Good, ConsumeHead;
  }

  lemma HeadConsumed(x: Wcb)
    requires Deliverable(x.rcv) && x.state == Established && !x.rcv.received[0].flags.syn
    ensures !Aborts(x) && Quietly(x, ConsumeHead(x)) && ConsumeHead(x).rcv.next == x.rcv.next + 1
  {}

  lemma {:induction false} DeliverQuietly(x: Wcb, y: Wcb)
    requires Good(x, y) && x.state == Established && NoSynAhead(y, x)
    ensures Quietly(x, Deliver(x)) && (Deliverable(x.rcv) ==> Deliver(x).rcv.next > x.rcv.next)
    decreases |x.rcv.received|
  {
    hide Good, NoSynAhead, ConsumeHead;
    if Deliverable(x.rcv) {
      ConsumeQuietly(x, y);
      ConsumeTakes(x);
      DeliverQuietly(ConsumeHead(x), y);
    }
  }

  /** The next number waits, or comes with the packet, and there is room: it is delivered. */
  lemma NextDeliverable(b: Wcb, y: Wcb)
    requires Good(b, y) && Has(b.rcv.received, b.rcv.next) && b.rcv.rbStandby == [] && Sized(b.rcv)
    ensures Deliverable(b.rcv)
  {
    var i :| 0 <= i < |b.rcv.received| && b.rcv.received[i].seqNo == b.rcv.next;
    assert b.rcv.received[0].seqNo >= b.rcv.next;
    assert forall k :: 0 < k < |b.rcv.received| ==> b.rcv.received[0].seqNo < b.rcv.received[k].seqNo;
    assert FromLog(b.rcv.received[0], y.snd);
    assert ItemOk(y.snd.log[b.rcv.next]);
  }

  lemma ReceiveMoves(x: Wcb, y: Wcb, batch: seq<Pack>, env: Env)
    requires Good(x, y) && Up(x) && NoSynAhead(y, x) && AllWireOk(y, batch) && batch != []
    ensures var x1 := CheckRecv(x, batch, env);
            && Moves(x, x1) && SameSending(x.snd, x1.snd) && x1.rcv.keepProbes == 0
            && Heard(x.snd, x1.snd, batch) && x1.rcv.rwndTimer == x.rcv.rwndTimer
            && x1.snd.ignoreSeqSpace == x.snd.ignoreSeqSpace + Replies(batch, x.snd.dsn)
                                        + SackControls(x.rcv.sackedTmp + SequencedNumbers(batch), x.snd.dsn)
            && (x.rcv.rb == [] ==> x1.rcv.rbStandby == [])
    ensures x.rcv.rbStandby == [] && (Has(x.rcv.received, x.rcv.next) || Brings(batch, x.rcv.next, x.rcv.next)) ==>
              CheckRecv(x, batch, env).rcv.next > x.rcv.next
  {
    hide Good, AllWireOk, Heard, Kept, Biggest, Absorbed, Deliver, SackControls, Replies, CheckRecv, NoSynAhead, Brings, Has;
    assert Local(x) by { GoodIsLocal(x, y); }
    LocalCounted(x);
    AbsorbedIs(x, batch, env);
    ReportedLeave(x, batch, env);
    var b := Absorbed(x, batch, env);
    AbsorbedKeeps(x, y, batch, env);
    assert NoSynAhead(y, b) by { SameAhead(y, x, b); }
    DeliverQuietly(b, y);
    if x.rcv.rbStandby == [] && (Has(x.rcv.received, x.rcv.next) || Brings(batch, x.rcv.next, x.rcv.next)) {
      NextDeliverable(b, y);
    }
    HeardUp(x.snd, CheckRecv(x, batch, env).snd, batch);
    hide Deliverable, Local;
    SameSendingMoves(x, CheckRecv(x, batch, env));
  }

  lemma HeardUp(s: Snd, s1: Snd, batch: seq<Pack>)
    requires Heard(s, s1, batch)
    ensures s.una <= s1.una
  {}

  lemma SameAhead(x: Wcb, y: Wcb, y1: Wcb)
    requires NoSynAhead(x, y) && y1.rcv.next == y.rcv.next
    ensures NoSynAhead(x, y1)
  {}

  // ---- sending again ----

  lemma {:induction false} SweepBeside(s: Sweep, i: nat, env: Env)
    requires TakesAll(env) && i <= |s.w.snd.flights|
    ensures var w1 := SweepFrom(s, i, env).w; w1 == s.w.(cc := w1.cc, snd := s.w.snd.(flights := w1.snd.flights))
    decreases |s.w.snd.flights| - i
  {
    hide HandlePackAcked, Retransmits, RtoExpired, NoteLoss, Stamp, Wrap32;
    if i < |s.w.snd.flights| {
      var o := s.w.snd.flights[i];
      if s.w.snd.unaUpdate && o.pack.seqNo < s.w.snd.una {
        SweepBeside(s.(w := AckFlight(s.w, i, env)), i, env);
      } else if !Retransmits(s.w.cc, o, env.now) {
        SweepBeside(s, i + 1, env);
      } else {
        JudgeLeaves(s, o, env.now);
        hide Judge;
        SweepBeside(Resend(Judge(s, o, env.now), i, env.now), i + 1, env);
      }
    }
  }

  lemma FlightsMove(w: Wcb, env: Env)
    requires TakesAll(env) && Up(w)
    ensures var w1 := CheckFlights(w, env).w;
            Moves(w, w1) && SameSending(w.snd, w1.snd) && w1.snd.una == w.snd.una && w1.rcv == w.rcv
            && w1.snd.rwnd == w.snd.rwnd && w1.snd.ignoreSeqSpace == w.snd.ignoreSeqSpace
  {
    hide BackOff;
    var s := Sweep(w.(snd := w.snd.(lastRtoTimer := env.now)), [], 0, 0);
    SweepBeside(s, 0, env);
    BackOffLeaves(SweepFrom(s, 0, env).w, env.now);
  }

  lemma {:induction false} SweepKeepsOut(s: Sweep, i: nat, env: Env)
    requires i <= |s.w.snd.flights|
    ensures s.out <= SweepFrom(s, i, env).out
    decreases |s.w.snd.flights| - i
  {
    hide HandlePackAcked, Retransmits, RtoExpired, NoteLoss, Stamp, Wrap32, FailSend;
    if i < |s.w.snd.flights| {
      var o := s.w.snd.flights[i];
      if s.w.snd.unaUpdate && o.pack.seqNo < s.w.snd.una {
        SweepKeepsOut(s.(w := AckFlight(s.w, i, env)), i, env);
      } else if !Retransmits(s.w.cc, o, env.now) {
        SweepKeepsOut(s, i + 1, env);
      } else {
        JudgeLeaves(s, o, env.now);
        hide Judge;
        var s1 := Judge(s, o, env.now);
        if env.net(|s1.out|) == Sent { SweepKeepsOut(Resend(s1, i, env.now), i + 1, env); }
      }
    }
  }

  lemma AckedRto(cc: Cc, o: OutPack, now: nat, clock: nat)
    requires cc.rto <= RTO_MAX
    ensures HandlePackAcked(cc, o, now, clock).rto <= RTO_MAX
  {}

  /** A flight whose age is the longest timeout there is goes out in this sweep. */
  lemma {:induction false} OldestSent(s: Sweep, i: nat, env: Env, j: nat)
    requires TakesAll(env) && i <= j < |s.w.snd.flights| && s.w.cc.rto <= RTO_MAX
    requires s.w.snd.flights[j].pack.seqNo >= s.w.snd.una && Age(s.w.snd.flights[j], env.now) >= RTO_MAX
    ensures Stamp(s.w.snd.flights[j].pack, s.w.rcv) in SweepFrom(s, i, env).out
    decreases |s.w.snd.flights| - i
  {
    hide HandlePackAcked, RtoExpired, NoteLoss, Stamp, RttElapsed, Skipped, Wrap32;
    var o := s.w.snd.flights[i];
    if s.w.snd.unaUpdate && o.pack.seqNo < s.w.snd.una {
      AckedRto(s.w.cc, o, env.now, env.clock(o.pack.seqNo));
      var s1 := s.(w := AckFlight(s.w, i, env));
      assert s1.w.snd.flights[j - 1] == s.w.snd.flights[j];
      OldestSent(s1, i, env, j - 1);
    } else if !Retransmits(s.w.cc, o, env.now) {
      assert i != j by { OldRetransmits(s.w.cc, s.w.snd.flights[j], env.now); }
      OldestSent(s, i + 1, env, j);
    } else {
      JudgeLeaves(s, o, env.now);
      hide Judge, Retransmits;
      var s1 := Resend(Judge(s, o, env.now), i, env.now);
      if i == j {
        SweepKeepsOut(s1, i + 1, env);
        var out := SweepFrom(s1, i + 1, env).out;
        assert s1.out[|s.out|] == Stamp(o.pack, s.w.rcv) && s1.out <= out;
        assert out[|s.out|] == s1.out[|s.out|];
        assert SweepFrom(s, i, env) == SweepFrom(s1, i + 1, env);
      } else {
        OldestSent(s1, i + 1, env, j);
        assert SweepFrom(s, i, env) == SweepFrom(s1, i + 1, env);
      }
    }
  }

  lemma OldRetransmits(cc: Cc, o: OutPack, now: nat)
    requires Age(o, now) >= cc.rto
    ensures Retransmits(cc, o, now)
  {}

  // ---- sending ----

  /** A network that takes so many packets and then no more. */
  function Only(n: nat, now: nat): Env { Env(now, _ => 0, k => if k < n then Sent else Block) }

  /** Cutting and queueing: the log goes on with data, nothing goes out. */
  ghost predicate OnlyCuts(w: Wcb, w1: Wcb)
  {
    && DataLogged(w, w1) && 2 * |w1.snd.sb| + |w1.snd.log| <= 2 * |w.snd.sb| + |w.snd.log|
    && w1 == w.(snd := w.snd.(dsn := w1.snd.dsn, sb := w1.snd.sb, log := w1.snd.log, sending := w1.snd.sending, standby := w1.snd.standby))
  }

  lemma {:induction false} SegmentsCut(w: Wcb, tryBytes: nat)
    ensures OnlyCuts(w, Segments(w, tryBytes))
    decreases |w.snd.sb|
  {
    hide Wrap32;
    if w.snd.sb != [] && tryBytes != 0 {
      var w0 := Segment(w);
      SegmentsCut(w0, Wrap32(tryBytes - Min(|w.snd.sb|, MDU)));
      var w1 := Segments(w, tryBytes);
      assert w.snd.log == w0.snd.log[..|w.snd.log|] == w1.snd.log[..|w0.snd.log|][..|w.snd.log|];
      assert w1.snd.log[|w.snd.log|] == w1.snd.log[..|w0.snd.log|][|w.snd.log|];
    }
  }

  lemma RefillCuts(w: Wcb)
    ensures OnlyCuts(w, Refill(w))
  {
    var w1 := DrainStandby(w);
    SegmentsCut(w1, Wrap32(w1.cc.cwnd - w1.cc.nflight));
  }

  lemma StampCuts(w: Wcb, w0: Wcb)
    requires OnlyCuts(w, w0) && w0.snd.sending != []
    ensures OnlyCuts(w, StampHead(w0))
  {}

  lemma BlockedPump(s: SendStep, env: Env)
    requires env.net(|s.out|) == Block && !s.stop
    ensures var s1 := PumpSending(s, env);
            && s1.out == s.out && (s1.w == s.w || (s.w.snd.sending != [] && s1.w == StampHead(s.w)))
            && s1.stop == (s.w.snd.sending != [])
  {}

  /** On a network that takes no more the send loop only cuts. */
  lemma BlockedLoop(s: SendStep, env: Env)
    requires env.net(|s.out|) == Block && !s.stop
    ensures var s1 := SendLoop(s, env); s1.out == s.out && OnlyCuts(s.w, s1.w)
  {
    hide OnlyCuts, PumpSending, Refill, StampHead;
    CutsNothing(s.w);
    var s1 := PumpSending(s, env);
    BlockedPump(s, env);
    PumpKeepsBacklog(s, env);
    if s1.stop {
      if s1.w != s.w { StampCuts(s.w, s.w); }
    } else {
      RefillShrinks(s1.w);
      RefillCuts(s1.w);
      var s2 := s1.(w := Refill(s1.w));
      if s2.w.snd.sending != [] {
        BlockedPump(s2, env);
        PumpKeepsBacklog(s2, env);
        var s3 := PumpSending(s2, env);
        assert SendLoop(s2, env) == s3;
        if s3.w != s2.w { StampCuts(s.w, s2.w); }
      }
    }
  }

  lemma CutsNothing(w: Wcb)
    ensures OnlyCuts(w, w)
  {}

  /** A call on a network that takes the control packets and nothing more. */
  lemma ControlsSent(w: Wcb, now: nat)
    requires Up(w) && w.snd.ignoreSeqSpace != []
    ensures var u := UpdateWindow(w, now);
            var r := CheckSend(w, Only(Packets(u.snd.ignoreSeqSpace), now));
            && r.out == Stamped(u.snd.ignoreSeqSpace, w.rcv)
            && Moves(w, r.w) && r.w.snd.next == w.snd.next && r.w.snd.una == w.snd.una && r.w.snd.flights == w.snd.flights
            && r.w.snd.unaUpdate == w.snd.unaUpdate && r.w.snd.rwnd == w.snd.rwnd && r.w.snd.ignoreSeqSpace == []
            && r.w.rcv == w.rcv.(rwndTimer := r.w.rcv.rwndTimer) && r.w.cc == w.cc
  {
    hide SendLoop, FlushControl, Stamped, Packets;
    var u := UpdateWindow(w, now);
    var env := Only(Packets(u.snd.ignoreSeqSpace), now);
    var s0 := SendStep(u, [], false);
    FlushSendsAll(s0, env);
    FlushLeaves(s0, env);
    var s := FlushControl(s0, env);
    assert [] + Stamped(u.snd.ignoreSeqSpace, u.rcv) == Stamped(u.snd.ignoreSeqSpace, u.rcv);
    StampedSame(u.snd.ignoreSeqSpace, w.rcv, u.rcv);
    BlockedLoop(s, env);
    FlushNoError(s0, env);
  }

  lemma {:induction false} StampedSame(q: seq<Control>, r: Rcv, r1: Rcv)
    requires r1.next == r.next && r1.wnd == r.wnd
    ensures Stamped(q, r1) == Stamped(q, r)
  {
    if q != [] { StampedSame(q[1..], r, r1); }
  }

  lemma {:induction false} FlushNoError(s: SendStep, env: Env)
    requires forall k :: env.net(k) == Sent || env.net(k) == Block
    ensures var w1 := FlushControl(s, env).w; w1.snd.sendError == s.w.snd.sendError && w1.errno == s.w.errno
    decreases CopiesLeft(s.w.snd.ignoreSeqSpace)
  {
    if s.w.snd.ignoreSeqSpace != [] {
      var c := s.w.snd.ignoreSeqSpace[0];
      var p := Stamp(c.pack, s.w.rcv);
      if c.copies == 0 {
        FlushNoError(s.(w := PopFront(s.w)), env);
      } else if env.net(|s.out|) == Sent {
        FlushNoError(SendStep(SetFront(s.w, p, c.copies - 1), s.out + [p], false), env);
      }
    }
  }

  lemma {:induction false} StampedHas(q: seq<Control>, r: Rcv, i: nat)
    requires i < |q| && q[i].copies > 0
    ensures Stamp(q[i].pack, r) in Stamped(q, r)
  {
    if i == 0 { assert Times(Stamp(q[0].pack, r), q[0].copies)[0] == Stamp(q[0].pack, r); } else { StampedHas(q[1..], r, i - 1); }
  }

  // ---- what a call that sends logs and launches ----

  /** The log went on with data cut off the send buffer; `First` is the packet cut first. */
  ghost predicate Logs(w: Wcb, w1: Wcb)
  {
    && DataLogged(w, w1) && w1.snd.written == w.snd.written
    && 2 * |w1.snd.sb| + |w1.snd.log| <= 2 * |w.snd.sb| + |w.snd.log|
    && if |w1.snd.log| == |w.snd.log| then w1.snd.sb == w.snd.sb
       else w.snd.sb != [] && |w1.snd.log[|w.snd.log|].data| == Min(|w.snd.sb|, MDU)
  }

  lemma LogsTransitive(a: Wcb, b: Wcb, c: Wcb)
    requires Logs(a, b) && Logs(b, c)
    ensures Logs(a, c)
  {
    assert a.snd.log == c.snd.log[..|b.snd.log|][..|a.snd.log|];
    forall n | |a.snd.log| <= n < |c.snd.log| ensures !c.snd.log[n].flags.syn {
      if n < |b.snd.log| { assert c.snd.log[..|b.snd.log|][n] == b.snd.log[n]; }
    }
    if |b.snd.log| > |a.snd.log| { assert c.snd.log[..|b.snd.log|][|a.snd.log|] == b.snd.log[|a.snd.log|]; }
  }

  lemma LogsNothing(w: Wcb, w1: Wcb)
    requires w1.snd.log == w.snd.log && w1.snd.sb == w.snd.sb && w1.snd.written == w.snd.written
    ensures Logs(w, w1)
  {}

  lemma SegmentLogs(w: Wcb)
    requires w.snd.sb != []
    ensures Logs(w, Segment(w))
  {}

  lemma {:induction false} SegmentsLog(w: Wcb, tryBytes: nat)
    ensures Logs(w, Segments(w, tryBytes))
    decreases |w.snd.sb|
  {
    hide Logs, Segment, Wrap32;
    if w.snd.sb != [] && tryBytes != 0 {
      SegmentLogs(w);
      assert |Segment(w).snd.sb| < |w.snd.sb| by { SegmentTakes(w); }
      SegmentsLog(Segment(w), Wrap32(tryBytes - Min(|w.snd.sb|, MDU)));
      LogsTransitive(w, Segment(w), Segments(w, tryBytes));
    } else {
      LogsNothing(w, w);
    }
  }

  lemma SegmentTakes(w: Wcb)
    requires w.snd.sb != []
    ensures |Segment(w).snd.sb| < |w.snd.sb|
  {}

  lemma RefillLogs(w: Wcb)
    ensures Logs(w, Refill(w))
  {
    hide Logs, Segments;
    var w1 := DrainStandby(w);
    LogsNothing(w, w1);
    SegmentsLog(w1, Wrap32(w1.cc.cwnd - w1.cc.nflight));
    LogsTransitive(w, w1, Refill(w));
  }

  /** Steps of the send loop: what may change, and that nothing is launched if `next` stays. */
  ghost predicate Pushes(w: Wcb, w1: Wcb)
  {
    && w1.rcv == w.rcv && w1.snd.una == w.snd.una && w1.snd.rwnd == w.snd.rwnd && w1.snd.unaUpdate == w.snd.unaUpdate
    && w1.snd.next >= w.snd.next && (w1.snd.next == w.snd.next ==> w1.cc == w.cc && w1.snd.flights == w.snd.flights)
    && w1.snd.ignoreSeqSpace == w.snd.ignoreSeqSpace
    && (w.state != Syning ==> w1.state == w.state)
  }

  lemma {:induction false} PumpPushes(s: SendStep, env: Env)
    ensures var w1 := PumpSending(s, env).w;
            Pushes(s.w, w1) && w1.snd.log == s.w.snd.log && w1.snd.sb == s.w.snd.sb && w1.snd.written == s.w.snd.written
    ensures TakesAll(env) ==> PumpSending(s, env).w.snd.sendError == s.w.snd.sendError && PumpSending(s, env).w.errno == s.w.errno
    decreases |s.w.snd.sending|
  {
    hide Stamp;
    if s.w.snd.sending != [] && !Congested(s.w) && env.net(|s.out|) == Sent {
      PumpPushes(SendStep(Launch(s.w, env.now), s.out + [Stamp(s.w.snd.sending[0].pack, s.w.rcv)], false), env);
    }
  }

  lemma RefillPushes(w: Wcb)
    ensures Pushes(w, Refill(w)) && Logs(w, Refill(w)) && Refill(w).errno == w.errno && Refill(w).snd.sendError == w.snd.sendError
  {
    RefillLogs(w);
    RefillCuts(w);
  }

  lemma {:induction false} LoopPushes(s: SendStep, env: Env)
    ensures var w1 := SendLoop(s, env).w; Pushes(s.w, w1) && Logs(s.w, w1)
    ensures TakesAll(env) ==> SendLoop(s, env).w.snd.sendError == s.w.snd.sendError && SendLoop(s, env).w.errno == s.w.errno
    decreases Backlog(s.w)
  {
    hide Logs, Refill, PumpSending, TakesAll;
    var s1 := PumpSending(s, env);
    PumpPushes(s, env);
    LogsNothing(s.w, s1.w);
    if !s1.stop {
      PumpKeepsBacklog(s, env);
      RefillShrinks(s1.w);
      RefillPushes(s1.w);
      var s2 := s1.(w := Refill(s1.w));
      LogsTransitive(s.w, s1.w, s2.w);
      if s2.w.snd.sending != [] {
        LoopPushes(s2, env);
        LogsTransitive(s.w, s2.w, SendLoop(s2, env).w);
      }
    }
  }

  /** A whole call: beside the queue of control packets and the timer of the window, what the loop does. */
  ghost predicate Sends(w: Wcb, w1: Wcb)
  {
    && w1.rcv == w.rcv.(rwndTimer := w1.rcv.rwndTimer) && w1.snd.una == w.snd.una && w1.snd.rwnd == w.snd.rwnd
    && w1.snd.unaUpdate == w.snd.unaUpdate
    && w1.snd.next >= w.snd.next && (w1.snd.next == w.snd.next ==> w1.cc == w.cc && w1.snd.flights == w.snd.flights)
    && (w.state != Syning ==> w1.state == w.state)
    && Logs(w, w1)
  }

  lemma CallSends(w: Wcb, env: Env)
    ensures Sends(w, CheckSend(w, env).w)
    ensures TakesAll(env) ==> CheckSend(w, env).w.snd.sendError == w.snd.sendError && CheckSend(w, env).w.errno == w.errno
  {
    hide SendLoop, FlushControl, Logs;
    if w.snd.sendError {
      LogsNothing(w, w);
    } else {
      var s0 := SendStep(UpdateWindow(w, env.now), [], false);
      FlushLeaves(s0, env);
      var s := FlushControl(s0, env);
      LogsNothing(w, s.w);
      if TakesAll(env) { FlushNoError(s0, env); FlushSendsAll(s0, env); }
      if !s.stop {
        LoopPushes(s, env);
        LogsTransitive(w, s.w, SendLoop(s, env).w);
      }
    }
  }

  // ---- the next packet ----

  predicate Queued(s: Snd) { s.next < |s.log| || s.sb != [] }

  /** The bytes of the packet that leaves next. */
  function Need(s: Snd): nat
    requires s.next <= |s.log|
  {
    HEADER_LEN + if s.next < |s.log| then |s.log[s.next].data| else Min(|s.sb|, MDU)
  }

  lemma NeedStays(w: Wcb, w1: Wcb)
    requires Logs(w, w1) && w1.snd.next == w.snd.next <= |w.snd.log|
    ensures Need(w1.snd) == Need(w.snd) && Queued(w1.snd) == Queued(w.snd)
  {
    var n := w.snd.next;
    if n < |w.snd.log| { assert w1.snd.log[..|w.snd.log|][n] == w1.snd.log[n]; }
  }

  lemma NeedFits(x: Wcb, y: Wcb)
    requires Good(x, y)
    ensures x.snd.next <= |x.snd.log| && Need(x.snd) <= MTU
  {
    if x.snd.next < |x.snd.log| { assert ItemOk(x.snd.log[x.snd.next]); }
  }

  lemma HeadNeeds(x: Wcb, y: Wcb)
    requires Both(x, y) && x.snd.sending != []
    ensures x.snd.next < |x.snd.log| && TotalBytes(x.snd.sending[0]) == Need(x.snd)
  {
    HeadIsNext(x, y);
    var q := x.snd.sending + x.snd.standby;
    assert q[0] == x.snd.sending[0];
    assert ItemOf(q[0].pack) == x.snd.log[x.snd.next];
  }

  lemma NothingFlies(x: Wcb, y: Wcb)
    requires Good(x, y) && x.snd.flights == []
    ensures x.cc.nflight == 0 && CWND_AFTER_LOSS <= x.cc.cwnd < 0x1_0000_0000
  {}

  /** With nothing in flight and the peer's window wider than the next packet, a call gets it out. */
  lemma NextGoesOut(x: Wcb, y: Wcb, env: Env)
    requires Both(x, y) && TakesAll(env) && Up(x) && !StandaloneWindowUpdate(x, env.now)
    requires x.snd.flights == [] && Queued(x.snd) && x.snd.next <= |x.snd.log| && x.snd.rwnd > Need(x.snd)
    ensures var x1 := CheckSend(x, env).w; Moves(x, x1) && x1.snd.next > x.snd.next && Load(x1.snd) < Load(x.snd)
  {
    hide CheckSend, Good;
    var x1 := CheckSend(x, env).w;
    CallSends(x, env);
    WindowUsed(x, env);
    CheckSendKeeps(x, y, env);
    assert Both(x1, y) by { WcpHandshake.RefillGood(x, x1, y); }
    NothingFlies(x, y);
    NeedFits(x, y);
    if x1.snd.next == x.snd.next {
      NeedStays(x, x1);
      if x1.snd.sending != [] {
        HeadNeeds(x1, y);
      } else {
        AllQueued(x1, y);
      }
      assert false;
    }
  }

  lemma AllQueued(x: Wcb, y: Wcb)
    requires Good(x, y) && x.snd.sending == [] && x.snd.standby == []
    ensures x.snd.next == |x.snd.log|
  {}
}
