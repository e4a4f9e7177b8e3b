/** The sending steps: retransmission sweep, control packets, first transmission. */
module WcpSending {
  import opened Arithmetic
  import opened Bytes
  import opened WcpModel
  import opened WcpInvariant

  ghost predicate SendOk(x: Wcb, s: SendStep, y: Wcb)
  {
    StepOk(x, s.w, y) && AllWireOk(s.w, s.out)
  }

  lemma SendOkThen(x: Wcb, s: SendStep, s1: SendStep, y: Wcb)
    requires SendOk(x, s, y) && StepOk(s.w, s1.w, y) && AllWireOk(s1.w, s1.out)
    ensures SendOk(x, s1, y)
  {
    GrowsTransitive(x, s.w, s1.w);
  }

  /** Only the sending half's bookkeeping changed. */
  lemma SndBookkeeping(x: Wcb, y: Wcb, s: Snd, errno: int)
    requires Good(x, y)
    requires s.dsn == x.snd.dsn && s.next == x.snd.next && s.una == x.snd.una && s.log == x.snd.log
    requires s.sb == x.snd.sb && s.sbCapacity == x.snd.sbCapacity && s.written == x.snd.written
    requires s.sending + s.standby == x.snd.sending + x.snd.standby && s.flights == x.snd.flights
    requires s.ignoreSeqSpace == x.snd.ignoreSeqSpace
    ensures StepOk(x, x.(snd := s, errno := errno), y)
  {
    AcksOkGrows(x, x.(snd := s, errno := errno));
  }

  lemma FailSendKeeps(x: Wcb, y: Wcb, r: SendResult)
    requires Good(x, y) && !r.Sent?
    ensures StepOk(x, FailSend(x, r), y)
  {
    if !r.Block? { SndBookkeeping(x, y, x.snd.(sendError := true), r.code); }
  }

  // ---- check_flights ----

  lemma InFlightUpdated(flights: seq<OutPack>, i: nat, o: OutPack, n: nat)
    requires i < |flights| && o.pack.seqNo == flights[i].pack.seqNo && InFlight(flights, n)
    ensures InFlight(flights[i := o], n)
  {
    var j :| 0 <= j < |flights| && flights[j].pack.seqNo == n;
    assert flights[i := o][j].pack.seqNo == n;
  }

  /** Rewriting the header and the bookkeeping of one flight. */
  lemma FlightRewritten(x: Wcb, y: Wcb, i: nat, o: OutPack)
    requires Good(x, y) && i < |x.snd.flights|
    requires o.pack.seqNo == x.snd.flights[i].pack.seqNo && ItemOf(o.pack) == ItemOf(x.snd.flights[i].pack)
    ensures StepOk(x, x.(snd := x.snd.(flights := x.snd.flights[i := o])), y)
  {
    var x1 := x.(snd := x.snd.(flights := x.snd.flights[i := o]));
    FlightBytesUpdate(x.snd.flights, i, o);
    AcksOkGrows(x, x1);
    forall n: nat | n < x1.snd.next ensures Received(y.rcv, n) || InFlight(x1.snd.flights, n) {
      if !Received(y.rcv, n) { InFlightUpdated(x.snd.flights, i, o, n); }
    }
  }

  lemma AppendWireOk(w: Wcb, ps: seq<Pack>, p: Pack)
    requires AllWireOk(w, ps) && WireOk(w, p)
    ensures AllWireOk(w, ps + [p])
  {}

  lemma ResendKeeps(x: Wcb, s: Sweep, y: Wcb, i: nat, now: nat)
    requires SendOk(x, SendStep(s.w, s.out, false), y) && i < |s.w.snd.flights|
    ensures var s1 := Resend(s, i, now); SendOk(x, SendStep(s1.w, s1.out, false), y)
  {
    var o := s.w.snd.flights[i];
    var p := Stamp(o.pack, s.w.rcv);
    var s1 := Resend(s, i, now);
    FlightRewritten(s.w, y, i, OutPack(p, now, Wrap32(o.sentTimes + 1)));
    AllWireOkGrows(s.w, s1.w, s.out);
    assert ItemOk(s.w.snd.log[o.pack.seqNo]);
    AppendWireOk(s1.w, s.out, p);
    GrowsTransitive(x, s.w, s1.w);
  }

  lemma SweepAckKeeps(x: Wcb, s: Sweep, y: Wcb, i: nat, env: Env)
    requires SendOk(x, SendStep(s.w, s.out, false), y) && i < |s.w.snd.flights|
    requires s.w.snd.flights[i].pack.seqNo < s.w.snd.una
    ensures SendOk(x, SendStep(AckFlight(s.w, i, env), s.out, false), y)
  {
    var w1 := AckFlight(s.w, i, env);
    AckFlightKeeps(s.w, y, i, env);
    AllWireOkGrows(s.w, w1, s.out);
    GrowsTransitive(x, s.w, w1);
  }

  lemma JudgeKeeps(x: Wcb, s: Sweep, y: Wcb, o: OutPack, now: nat)
    requires SendOk(x, SendStep(s.w, s.out, false), y)
    ensures var s1 := Judge(s, o, now); SendOk(x, SendStep(s1.w, s1.out, false), y)
    ensures Judge(s, o, now).w.snd == s.w.snd && Judge(s, o, now).out == s.out
  {
    var s1 := Judge(s, o, now);
    CcOnly(s.w, y, s1.w.cc);
    AllWireOkGrows(s.w, s1.w, s.out);
    GrowsTransitive(x, s.w, s1.w);
  }

  lemma StampOnlyKeeps(x: Wcb, s: Sweep, y: Wcb, i: nat, env: Env)
    requires SendOk(x, SendStep(s.w, s.out, false), y) && i < |s.w.snd.flights| && env.net(|s.out|) != Sent
    ensures var s1 := StampOnly(s, i, env); SendOk(x, SendStep(s1.w, s1.out, false), y)
  {
    var o := s.w.snd.flights[i];
    var f := o.(pack := Stamp(o.pack, s.w.rcv));
    var w1 := s.w.(snd := s.w.snd.(flights := s.w.snd.flights[i := f]));
    FlightRewritten(s.w, y, i, f);
    GrowsTransitive(x, s.w, w1);
    var w2 := FailSend(w1, env.net(|s.out|));
    FailSendKeeps(w1, y, env.net(|s.out|));
    GrowsTransitive(s.w, w1, w2);
    AllWireOkGrows(s.w, w2, s.out);
    GrowsTransitive(x, w1, w2);
  }

  lemma {:induction false} SweepKeeps(x: Wcb, s: Sweep, y: Wcb, i: nat, env: Env)
    requires SendOk(x, SendStep(s.w, s.out, false), y) && i <= |s.w.snd.flights|
    ensures var s1 := SweepFrom(s, i, env); SendOk(x, SendStep(s1.w, s1.out, false), y)
    decreases |s.w.snd.flights| - i
  {
    hide Grows, Knows, Local, LogOk, AllWireOk;
    if i < |s.w.snd.flights| {
      var o := s.w.snd.flights[i];
      if s.w.snd.unaUpdate && o.pack.seqNo < s.w.snd.una {
        SweepAckKeeps(x, s, y, i, env);
        SweepKeeps(x, s.(w := AckFlight(s.w, i, env)), y, i, env);
      } else if !Retransmits(s.w.cc, o, env.now) {
        SweepKeeps(x, s, y, i + 1, env);
      } else {
        JudgeKeeps(x, s, y, o, env.now);
        var s1 := Judge(s, o, env.now);
        if env.net(|s1.out|) != Sent {
          StampOnlyKeeps(x, s1, y, i, env);
        } else {
          ResendKeeps(x, s1, y, i, env.now);
          SweepKeeps(x, Resend(s1, i, env.now), y, i + 1, env);
        }
      }
    }
  }

  lemma CheckFlightsKeeps(x: Wcb, y: Wcb, env: Env)
    requires Good(x, y)
    ensures SendOk(x, CheckFlights(x, env), y)
  {
    hide Grows, Knows, AcksOk, LogOk, ReorderOk;
    var r := CheckFlights(x, env);
    if (x.snd.unaUpdate || x.cc.fastRecovered || x.cc.biggestSackUpdate)
       || env.now >= x.snd.lastRtoTimer + RTO_GRANULARITY
    {
      var x0 := x.(snd := x.snd.(lastRtoTimer := env.now));
      SndBookkeeping(x, y, x0.snd, x.errno);
      SweepKeeps(x, Sweep(x0, [], 0, 0), y, 0, env);
      var s := SweepFrom(Sweep(x0, [], 0, 0), 0, env);
      var w0 := s.w.(snd := s.w.snd.(unaUpdate := false));
      SndBookkeeping(s.w, y, w0.snd, w0.errno);
      var w1 := w0.(cc := w0.cc.(biggestSackUpdate := false, fastRecovered := false));
      CcOnly(w0, y, w1.cc);
      GrowsTransitive(s.w, w0, w1);
      BackOffKeeps(w1, env.now);
      CcOnly(w1, y, BackOff(w1, env.now).cc);
      GrowsTransitive(s.w, w1, r.w);
      AllWireOkGrows(s.w, r.w, s.out);
      GrowsTransitive(x, s.w, r.w);
    } else {
      StayOk(x, y);
    }
  }

  // ---- check_send: control packets ----

  /** Replacing the queue of control packets by one whose packets are still truthful. */
  lemma ControlsReplaced(x: Wcb, y: Wcb, q: seq<Control>)
    requires Good(x, y)
    requires forall i :: 0 <= i < |q| ==> ControlOk(x.rcv, q[i].pack)
    ensures StepOk(x, x.(snd := x.snd.(ignoreSeqSpace := q)), y)
  {
    var x1 := x.(snd := x.snd.(ignoreSeqSpace := q));
    assert AcksOk(x1);
  }

  lemma UpdateWindowKeeps(x: Wcb, y: Wcb, now: nat)
    requires Good(x, y) && !x.snd.sendError && !StandaloneWindowUpdate(x, now)
    ensures StepOk(x, UpdateWindow(x, now), y)
  {
    if WindowUpdateDue(x, now) {
      var x1 := x.(rcv := x.rcv.(rwndTimer := now));
      RcvBookkeeping(x, y, x1.rcv);
      var x2 := UpdateWindow(x, now);
      forall i | 0 <= i < |x2.snd.ignoreSeqSpace| ensures ControlOk(x1.rcv, x2.snd.ignoreSeqSpace[i].pack) {
        assert ControlOk(x1.rcv, x1.snd.ignoreSeqSpace[i].pack);
      }
      ControlsReplaced(x1, y, x2.snd.ignoreSeqSpace);
      GrowsTransitive(x, x1, x2);
    } else {
      RcvBookkeeping(x, y, x.rcv);
    }
  }

  lemma SetFrontKeeps(x: Wcb, y: Wcb, p: Pack, copies: nat)
    requires Good(x, y) && x.snd.ignoreSeqSpace != [] && ControlOk(x.rcv, p)
    ensures StepOk(x, SetFront(x, p, copies), y)
  {
    ControlsReplaced(x, y, SetFront(x, p, copies).snd.ignoreSeqSpace);
  }

  lemma {:induction false} FlushControlKeeps(x: Wcb, s: SendStep, y: Wcb, env: Env)
    requires SendOk(x, s, y)
    ensures SendOk(x, FlushControl(s, env), y)
    decreases CopiesLeft(s.w.snd.ignoreSeqSpace)
  {
    hide Grows, Knows, LogOk, Accounted, ReorderOk;
    if s.w.snd.ignoreSeqSpace != [] {
      var c := s.w.snd.ignoreSeqSpace[0];
      assert ControlOk(s.w.rcv, c.pack);
      if c.copies == 0 {
        ControlsReplaced(s.w, y, s.w.snd.ignoreSeqSpace[1..]);
        AllWireOkGrows(s.w, PopFront(s.w), s.out);
        SendOkThen(x, s, s.(w := PopFront(s.w)), y);
        FlushControlKeeps(x, s.(w := PopFront(s.w)), y, env);
      } else if env.net(|s.out|) != Sent {
        FlushFailKeeps(x, s, y, env.net(|s.out|));
      } else {
        FlushOneKeeps(x, s, y);
        var p := Stamp(c.pack, s.w.rcv);
        FlushControlKeeps(x, SendStep(SetFront(s.w, p, c.copies - 1), s.out + [p], false), y, env);
      }
    }
  }

  lemma FlushFailKeeps(x: Wcb, s: SendStep, y: Wcb, r: SendResult)
    requires SendOk(x, s, y) && s.w.snd.ignoreSeqSpace != [] && !r.Sent?
    ensures var c := s.w.snd.ignoreSeqSpace[0];
            SendOk(x, SendStep(FailSend(SetFront(s.w, Stamp(c.pack, s.w.rcv), c.copies), r), s.out, true), y)
  {
    var c := s.w.snd.ignoreSeqSpace[0];
    var w1 := SetFront(s.w, Stamp(c.pack, s.w.rcv), c.copies);
    assert ControlOk(s.w.rcv, c.pack);
    SetFrontKeeps(s.w, y, Stamp(c.pack, s.w.rcv), c.copies);
    FailSendKeeps(w1, y, r);
    GrowsTransitive(s.w, w1, FailSend(w1, r));
    AllWireOkGrows(s.w, FailSend(w1, r), s.out);
    SendOkThen(x, s, SendStep(FailSend(w1, r), s.out, true), y);
  }

  lemma FlushOneKeeps(x: Wcb, s: SendStep, y: Wcb)
    requires SendOk(x, s, y) && s.w.snd.ignoreSeqSpace != [] && s.w.snd.ignoreSeqSpace[0].copies > 0
    ensures var c := s.w.snd.ignoreSeqSpace[0];
            var p := Stamp(c.pack, s.w.rcv);
            SendOk(x, SendStep(SetFront(s.w, p, c.copies - 1), s.out + [p], false), y)
  {
    var c := s.w.snd.ignoreSeqSpace[0];
    var p := Stamp(c.pack, s.w.rcv);
    var w1 := SetFront(s.w, p, c.copies - 1);
    assert ControlOk(s.w.rcv, c.pack);
    SetFrontKeeps(s.w, y, p, c.copies - 1);
    AllWireOkGrows(s.w, w1, s.out);
    assert ControlOk(w1.rcv, p);
    AppendWireOk(w1, s.out, p);
    SendOkThen(x, s, SendStep(w1, s.out + [p], false), y);
  }

  // ---- check_send: sequenced packets ----

  /** What the two assertions of the send loop say about the packet at the head of `sending`. */
  lemma HeadIsNext(x: Wcb, y: Wcb)
    requires Good(x, y) && Knows(y, x) && x.snd.sending != []
    ensures x.snd.sending[0].pack.seqNo == x.snd.next
    ensures x.snd.sending[0].pack.seqNo >= x.snd.una
    ensures Sequenced(x.snd.sending[0].pack)
  {
    var q := x.snd.sending + x.snd.standby;
    assert q[0] == x.snd.sending[0];
    assert ItemOk(x.snd.log[x.snd.next]);
  }

  lemma LaunchSeqSpace(s: Snd, o: OutPack)
    requires SeqSpace(s) && s.sending != []
    requires o.pack.seqNo == s.sending[0].pack.seqNo && ItemOf(o.pack) == ItemOf(s.sending[0].pack)
    ensures SeqSpace(s.(flights := s.flights + [o], next := s.next + 1, sending := s.sending[1..]))
    ensures o.pack.seqNo == s.next
  {
    var q := s.sending + s.standby;
    assert q[0] == s.sending[0];
    assert s.sending[1..] + s.standby == q[1..];
  }

  lemma LaunchKeeps(x: Wcb, y: Wcb, now: nat)
    requires Good(x, y) && x.snd.sending != [] && !Congested(x)
    ensures StepOk(x, Launch(x, now), y)
    ensures WireOk(Launch(x, now), Stamp(x.snd.sending[0].pack, x.rcv))
  {
    var o := x.snd.sending[0];
    var p := Stamp(o.pack, x.rcv);
    var f := OutPack(p, now, 1);
    var x1 := Launch(x, now);
    LaunchSeqSpace(x.snd, f);
    FlightBytesSplit(x.snd.flights, [f]);
    assert FlightBytes([f]) == TotalBytes(o) by { assert [f][..0] == []; }
    AcksOkGrows(x, x1);
    assert ItemOk(x.snd.log[x.snd.next]);
    forall n: nat | n < x1.snd.next ensures Received(y.rcv, n) || InFlight(x1.snd.flights, n) {
      if n == x.snd.next {
        assert x1.snd.flights[|x.snd.flights|].pack.seqNo == n;
      } else if !Received(y.rcv, n) {
        var j :| 0 <= j < |x.snd.flights| && x.snd.flights[j].pack.seqNo == n;
        assert x1.snd.flights[j].pack.seqNo == n;
      }
    }
  }

  lemma StampHeadKeeps(x: Wcb, y: Wcb)
    requires Good(x, y) && x.snd.sending != []
    ensures StepOk(x, StampHead(x), y)
  {
    var x1 := StampHead(x);
    var q := x.snd.sending + x.snd.standby;
    var q1 := x1.snd.sending + x1.snd.standby;
    forall i | 0 <= i < |q1| ensures q1[i].pack.seqNo == q[i].pack.seqNo && ItemOf(q1[i].pack) == ItemOf(q[i].pack) {}
    AcksOkGrows(x, x1);
  }

  lemma LaunchSendOk(x: Wcb, s: SendStep, y: Wcb, now: nat)
    requires SendOk(x, s, y) && s.w.snd.sending != [] && !Congested(s.w)
    ensures SendOk(x, SendStep(Launch(s.w, now), s.out + [Stamp(s.w.snd.sending[0].pack, s.w.rcv)], false), y)
  {
    var w1 := Launch(s.w, now);
    LaunchKeeps(s.w, y, now);
    AllWireOkGrows(s.w, w1, s.out);
    AppendWireOk(w1, s.out, Stamp(s.w.snd.sending[0].pack, s.w.rcv));
    GrowsTransitive(x, s.w, w1);
  }

  lemma {:induction false} PumpSendingKeeps(x: Wcb, s: SendStep, y: Wcb, env: Env)
    requires SendOk(x, s, y)
    ensures SendOk(x, PumpSending(s, env), y)
    decreases |s.w.snd.sending|
  {
    if s.w.snd.sending != [] && !Congested(s.w) {
      if env.net(|s.out|) != Sent {
        var w1 := StampHead(s.w);
        StampHeadKeeps(s.w, y);
        FailSendKeeps(w1, y, env.net(|s.out|));
        var w2 := FailSend(w1, env.net(|s.out|));
        GrowsTransitive(s.w, w1, w2);
        AllWireOkGrows(s.w, w2, s.out);
        SendOkThen(x, s, SendStep(w2, s.out, true), y);
      } else {
        LaunchSendOk(x, s, y, env.now);
        PumpSendingKeeps(x, SendStep(Launch(s.w, env.now), s.out + [Stamp(s.w.snd.sending[0].pack, s.w.rcv)], false), y, env);
      }
    }
  }

  /** Cutting a packet off the send buffer moves its bytes to the end of the log. */
  lemma SegmentKeeps(x: Wcb, y: Wcb)
    requires Good(x, y) && x.snd.sb != [] && x.snd.standby == []
    ensures StepOk(x, Segment(x), y)
  {
    var x1 := Segment(x);
    var n := Min(|x.snd.sb|, MDU);
    var item := Item(DATA_FLAGS, x.snd.sb[..n]);
    assert x.snd.sending + x.snd.standby == x.snd.sending;
    assert x1.snd.sending + x1.snd.standby == x1.snd.sending;
    NumberedExtends(x.snd.sending, x.snd.log, x.snd.next, item);
    PayloadAppend(x.snd.log, item);
    assert (Payload(x.snd.log) + item.data) + x.snd.sb[n..] == Payload(x.snd.log) + x.snd.sb by {
      assert x.snd.sb == x.snd.sb[..n] + x.snd.sb[n..];
    }
    AcksOkGrows(x, x1);
  }

  lemma {:induction false} SegmentsKeep(x: Wcb, y: Wcb, tryBytes: nat)
    requires Good(x, y) && x.snd.standby == []
    ensures StepOk(x, Segments(x, tryBytes), y)
    decreases |x.snd.sb|
  {
    if x.snd.sb == [] || tryBytes == 0 {
      SndBookkeeping(x, y, x.snd, x.errno);
    } else {
      var x1 := Segment(x);
      SegmentKeeps(x, y);
      SegmentsKeep(x1, y, Wrap32(tryBytes - Min(|x.snd.sb|, MDU)));
      GrowsTransitive(x, x1, Segments(x, tryBytes));
    }
  }

  lemma RefillKeeps(x: Wcb, y: Wcb)
    requires Good(x, y)
    ensures StepOk(x, Refill(x), y)
  {
    var x1 := DrainStandby(x);
    SndBookkeeping(x, y, x1.snd, x.errno);
    var tryBytes := Wrap32(x1.cc.cwnd - x1.cc.nflight);
    SegmentsKeep(x1, y, tryBytes);
    GrowsTransitive(x, x1, Segments(x1, tryBytes));
  }

  lemma {:induction false} SendLoopKeeps(x: Wcb, s: SendStep, y: Wcb, env: Env)
    requires SendOk(x, s, y)
    ensures SendOk(x, SendLoop(s, env), y)
    decreases Backlog(s.w)
  {
    var s1 := PumpSending(s, env);
    PumpSendingKeeps(x, s, y, env);
    if !s1.stop {
      PumpKeepsBacklog(s, env);
      RefillShrinks(s1.w);
      RefillKeeps(s1.w, y);
      var s2 := s1.(w := Refill(s1.w));
      AllWireOkGrows(s1.w, s2.w, s1.out);
      SendOkThen(x, s1, s2, y);
      if s2.w.snd.sending != [] { SendLoopKeeps(x, s2, y, env); }
    }
  }

  lemma CheckSendKeeps(x: Wcb, y: Wcb, env: Env)
    requires Good(x, y) && !StandaloneWindowUpdate(x, env.now)
    ensures SendOk(x, CheckSend(x, env), y)
  {
    if x.snd.sendError {
      SndBookkeeping(x, y, x.snd, x.errno);
    } else {
      var s0 := SendStep(UpdateWindow(x, env.now), [], false);
      UpdateWindowKeeps(x, y, env.now);
      FlushControlKeeps(x, s0, y, env);
      var s := FlushControl(s0, env);
      if !s.stop { SendLoopKeeps(x, s, y, env); }
    }
  }
}
