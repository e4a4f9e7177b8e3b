/** More of what holds in every run: the flights are in order, a sweep leaves none that is acknowledged, and a small
    window is advertised only while bytes wait to be read. None of it depends on the network keeping anything. */
module WcpReady {
  import opened Arithmetic
  import opened Bytes
  import opened WcpModel
  import opened WcpInvariant
  import opened WcpSending
  import opened WcpSystem
  import opened WcpHandshake
  import opened WcpEffects

  ghost predicate Ascending(fs: seq<OutPack>) { forall i, j :: 0 <= i < j < |fs| ==> fs[i].pack.seqNo < fs[j].pack.seqNo }

  ghost predicate AllFrom(fs: seq<OutPack>, n: nat) { forall i :: 0 <= i < |fs| ==> fs[i].pack.seqNo >= n }

  /** The flights in order; unless `una` has just moved none is below it. */
  ghost predicate FlightsReady(s: Snd) { Ascending(s.flights) && (!s.unaUpdate ==> AllFrom(s.flights, s.una)) }

  /** A buffer that holds a full packet, and whose size fits 32 bits. */
  predicate Sized(r: Rcv) { MTU < r.rbCapacity < 0x1_0000_0000 }

  predicate WindowReady(r: Rcv) { Sized(r) ==> r.wnd > MTU || (r.rwndLess && r.rbStandby != []) }

  /** No control packet that was sent is still queued. */
  predicate QueueReady(q: seq<Control>) { forall i :: 0 <= i < |q| ==> q[i].copies > 0 }

  ghost predicate Ready(w: Wcb) { FlightsReady(w.snd) && WindowReady(w.rcv) && QueueReady(w.snd.ignoreSeqSpace) }

  ghost predicate AllReady(s: Sys) { Inv(s) && Ready(s.a) && Ready(s.b) }

  // ---- receiving ----

  lemma {:induction false} KeptAscends(fs: seq<OutPack>, acks: seq<nat>, una: nat)
    requires Ascending(fs)
    ensures Ascending(Kept(fs, acks, una))
  {
    if fs != [] {
      KeptAscends(fs[1..], acks, una);
      KeptMembers(fs[1..], acks, una);
      var rest := Kept(fs[1..], acks, una);
      forall j | 0 <= j < |rest| ensures fs[0].pack.seqNo < rest[j].pack.seqNo {
        assert rest[j] in rest;
        var i :| 0 <= i < |fs| - 1 && fs[1..][i] == rest[j];
        assert fs[i + 1] == rest[j];
      }
    }
  }

  lemma KeptFrom(fs: seq<OutPack>, acks: seq<nat>, una: nat, n: nat)
    requires AllFrom(fs, n)
    ensures AllFrom(Kept(fs, acks, una), n)
  {
    KeptMembers(fs, acks, una);
    var ks := Kept(fs, acks, una);
    forall i | 0 <= i < |ks| ensures ks[i].pack.seqNo >= n {
      assert ks[i] in ks;
      var j :| 0 <= j < |fs| && fs[j] == ks[i];
    }
  }

  lemma LocalCounted(w: Wcb)
    requires Local(w)
    ensures Counted(w) && Sorted(w.rcv.received)
  {}

  lemma ReceiveFlights(w: Wcb, batch: seq<Pack>, env: Env)
    requires Local(w) && FlightsReady(w.snd)
    ensures FlightsReady(CheckRecv(w, batch, env).snd)
  {
    hide Kept, Local;
    if batch != [] {
      LocalCounted(w);
      ReportedLeave(w, batch, env);
      var una := CheckRecv(w, batch, env).snd.una;
      KeptAscends(w.snd.flights, SackNumbers(batch), una);
      if !w.snd.unaUpdate { KeptFrom(w.snd.flights, SackNumbers(batch), una, w.snd.una); }
    } else {
      SilenceProbed(w, env);
    }
  }

  /** The buffers and what is said of them. */
  predicate SameBuffers(r: Rcv, r1: Rcv)
  {
    r1.wnd == r.wnd && r1.rwndLess == r.rwndLess && r1.rwndMore == r.rwndMore && r1.rwndTimer == r.rwndTimer
    && r1.rb == r.rb && r1.rbStandby == r.rbStandby && r1.rbCapacity == r.rbCapacity && r1.next == r.next
  }

  lemma {:induction false} DeliverWindow(w: Wcb)
    requires WindowReady(w.rcv)
    ensures WindowReady(Deliver(w).rcv)
    decreases |w.rcv.received|
  {
    if HeadExpected(w.rcv) && !HeadTooBig(w.rcv) {
      TakeWindow(w.rcv);
      ConsumeTakes(w);
      hide TakeHead, ConsumeHead, WindowReady;
      if !Aborts(w) { DeliverWindow(ConsumeHead(w)); }
    }
  }

  lemma ConsumeTakes(w: Wcb)
    requires w.rcv.received != []
    ensures ConsumeHead(w).rcv == TakeHead(w.rcv) && |TakeHead(w.rcv).received| < |w.rcv.received|
  {}

  lemma TakeWindow(r: Rcv)
    requires r.received != [] && WindowReady(r)
    ensures WindowReady(TakeHead(r))
  {}

  lemma SwapWindow(r: Rcv)
    requires WindowReady(r)
    ensures WindowReady(SwapBuffers(r))
  {}

  lemma {:induction false} SackQueue(acks: seq<nat>, dsn: nat)
    ensures QueueReady(SackControls(acks, dsn))
  {
    if acks != [] { SackQueue(acks[Min(|acks|, ACKS_PER_PACK)..], dsn); }
  }

  lemma {:induction false} RepliesQueue(batch: seq<Pack>, dsn: nat)
    ensures QueueReady(Replies(batch, dsn))
  {
    if batch != [] { RepliesQueue(batch[1..], dsn); }
  }

  lemma ReceiveQueue(w: Wcb, batch: seq<Pack>, env: Env)
    requires Local(w) && QueueReady(w.snd.ignoreSeqSpace)
    ensures QueueReady(CheckRecv(w, batch, env).snd.ignoreSeqSpace)
  {
    hide Kept, Local, CheckRecv;
    if batch != [] {
      LocalCounted(w);
      ReportedLeave(w, batch, env);
      RepliesQueue(batch, w.snd.dsn);
      SackQueue(w.rcv.sackedTmp + SequencedNumbers(batch), w.snd.dsn);
    } else {
      SilenceProbed(w, env);
    }
  }

  /** The batch as it stands before delivery. */
  function Absorbed(w: Wcb, batch: seq<Pack>, env: Env): Wcb
  {
    var a := Arrivals(w.(rcv := w.rcv.(keepTimer := env.now, keepProbes := 0)), batch);
    AbsorbAcks(Sack(a.w), a.acked, env)
  }

  lemma AbsorbedIs(w: Wcb, batch: seq<Pack>, env: Env)
    requires Local(w) && batch != []
    ensures var b := Absorbed(w, batch, env);
            && CheckRecv(w, batch, env) == Deliver(b).(rcv := SwapBuffers(Deliver(b).rcv))
            && SameBuffers(w.rcv, b.rcv) && b.state == w.state && b.errno == w.errno && Sorted(b.rcv.received)
            && b.rcv == w.rcv.(keepTimer := env.now, keepProbes := 0, received := b.rcv.received, sackedTmp := [])
            && (forall n: nat :: Has(b.rcv.received, n) <==> Has(w.rcv.received, n) || Brings(batch, n, w.rcv.next))
            && b.snd == w.snd.(una := b.snd.una, unaUpdate := b.snd.unaUpdate, rwnd := b.snd.rwnd, flights := b.snd.flights,
                               ignoreSeqSpace := b.snd.ignoreSeqSpace)
  {
    hide Heard, AbsorbAcks, SackControls, Kept, Has, Brings, Sorted, Deliver, Biggest;
    LocalCounted(w);
    var w0 := w.(rcv := w.rcv.(keepTimer := env.now, keepProbes := 0));
    BatchTaken(w0, batch);
    var a := Arrivals(w0, batch);
    StillCounted(w, Sack(a.w));
    AcksAbsorbed(Sack(a.w), a.acked, env);
  }

  lemma ReceiveReady(w: Wcb, batch: seq<Pack>, env: Env)
    requires Local(w) && Ready(w)
    ensures Ready(CheckRecv(w, batch, env))
  {
    ReceiveFlights(w, batch, env);
    ReceiveQueue(w, batch, env);
    hide Local, Deliver, Absorbed, FlightsReady, QueueReady;
    if batch != [] {
      AbsorbedIs(w, batch, env);
      DeliverWindow(Absorbed(w, batch, env));
      SwapWindow(Deliver(Absorbed(w, batch, env)).rcv);
    }
  }

  // ---- sending ----

  lemma RemovedAscends(fs: seq<OutPack>, i: nat)
    requires i < |fs| && Ascending(fs)
    ensures Ascending(RemoveAt(fs, i))
  {
    var gs := RemoveAt(fs, i);
    forall k | 0 <= k < |gs| ensures gs[k] == fs[if k < i then k else k + 1] {}
  }

  lemma {:induction false} SweepReady(s: Sweep, i: nat, env: Env)
    requires i <= |s.w.snd.flights| && FlightsReady(s.w.snd) && AllFrom(s.w.snd.flights[..i], s.w.snd.una)
    ensures var w1 := SweepFrom(s, i, env).w;
            && Ascending(w1.snd.flights) && AllFrom(w1.snd.flights, s.w.snd.una)
            && w1.rcv == s.w.rcv && w1.snd.una == s.w.snd.una && w1.snd.ignoreSeqSpace == s.w.snd.ignoreSeqSpace
    decreases |s.w.snd.flights| - i
  {
    hide HandlePackAcked, Retransmits, RtoExpired, Wrap32;
    var fs := s.w.snd.flights;
    if i < |fs| {
      var o := fs[i];
      if s.w.snd.unaUpdate && o.pack.seqNo < s.w.snd.una {
        RemovedAscends(fs, i);
        assert RemoveAt(fs, i)[..i] == fs[..i];
        SweepReady(s.(w := AckFlight(s.w, i, env)), i, env);
      } else {
        assert AllFrom(fs[..i + 1], s.w.snd.una);
        if !Retransmits(s.w.cc, o, env.now) {
          SweepReady(s, i + 1, env);
        } else {
          var s1 := Judge(s, o, env.now);
          JudgeLeaves(s, o, env.now);
          hide Judge, RtoExpired;
          if env.net(|s1.out|) == Sent {
            var s2 := Resend(s1, i, env.now);
            SameNumbersReady(fs, s2.w.snd.flights, i, s.w.snd);
            SweepReady(s2, i + 1, env);
          } else {
            FromHere(fs, i, s.w.snd.una);
            StampedReady(s1, i, env, s.w.snd.una);
          }
        }
      }
    }
  }

  lemma StampedReady(s: Sweep, i: nat, env: Env, n: nat)
    requires i < |s.w.snd.flights| && env.net(|s.out|) != Sent && Ascending(s.w.snd.flights) && AllFrom(s.w.snd.flights, n)
    ensures var w1 := StampOnly(s, i, env).w;
            Ascending(w1.snd.flights) && AllFrom(w1.snd.flights, n) && w1.rcv == s.w.rcv && w1.snd.una == s.w.snd.una
    ensures StampOnly(s, i, env).w.snd.ignoreSeqSpace == s.w.snd.ignoreSeqSpace
  {}

  lemma FromHere(fs: seq<OutPack>, i: nat, n: nat)
    requires i < |fs| && Ascending(fs) && AllFrom(fs[..i + 1], n)
    ensures AllFrom(fs, n)
  {
    assert fs[..i + 1][i] == fs[i];
    forall j | 0 <= j < |fs| ensures fs[j].pack.seqNo >= n { if j <= i { assert fs[..i + 1][j] == fs[j]; } }
  }

  lemma SameNumbersReady(fs: seq<OutPack>, gs: seq<OutPack>, i: nat, s: Snd)
    requires i < |fs| == |gs| && forall j :: 0 <= j < |fs| ==> gs[j].pack.seqNo == fs[j].pack.seqNo
    requires s.flights == fs && FlightsReady(s) && AllFrom(fs[..i + 1], s.una)
    ensures FlightsReady(s.(flights := gs)) && AllFrom(gs[..i + 1], s.una)
  {
    var hs := gs[..i + 1];
    forall j | 0 <= j < |hs| ensures hs[j].pack.seqNo >= s.una { assert fs[..i + 1][j] == fs[j]; }
  }

  lemma CheckFlightsReady(w: Wcb, env: Env)
    requires Ready(w)
    ensures Ready(CheckFlights(w, env).w)
  {
    hide WindowReady, BackOff;
    if TimerPassed(w, env.now) {
      var s := Sweep(w.(snd := w.snd.(lastRtoTimer := env.now)), [], 0, 0);
      SweepReady(s, 0, env);
      BackOffLeaves(SweepFrom(s, 0, env).w, env.now);
    }
  }

  lemma LaunchReady(x: Wcb, y: Wcb, now: nat)
    requires Good(x, y) && Knows(y, x) && x.snd.sending != [] && Ready(x)
    ensures Ready(Launch(x, now))
  {
    HeadIsNext(x, y);
    assert FlightsLogged(x.snd);
  }

  ghost predicate Both(x: Wcb, y: Wcb) { Good(x, y) && Good(y, x) }

  lemma {:induction false} PumpReady(s: SendStep, y: Wcb, env: Env)
    requires Both(s.w, y) && Ready(s.w)
    ensures Both(PumpSending(s, env).w, y) && Ready(PumpSending(s, env).w)
    decreases |s.w.snd.sending|
  {
    hide Good, Ready, Stamp;
    if s.w.snd.sending != [] && !Congested(s.w) {
      if env.net(|s.out|) == Sent {
        LaunchGood(s.w, y, env.now);
        HeadLaunched(s.w, y, env.now);
        PumpReady(SendStep(Launch(s.w, env.now), s.out + [Stamp(s.w.snd.sending[0].pack, s.w.rcv)], false), y, env);
      } else {
        StampFailGood(s.w, y, env.net(|s.out|));
        FailReady(s.w, env.net(|s.out|));
      }
    }
  }

  lemma HeadLaunched(x: Wcb, y: Wcb, now: nat)
    requires Both(x, y) && x.snd.sending != [] && Ready(x)
    ensures Ready(Launch(x, now)) && |Launch(x, now).snd.sending| < |x.snd.sending|
  {
    LaunchReady(x, y, now);
  }

  lemma StampFailGood(x: Wcb, y: Wcb, r: SendResult)
    requires Both(x, y) && x.snd.sending != [] && !r.Sent?
    ensures Both(FailSend(StampHead(x), r), y)
  {
    var x1 := StampHead(x);
    StampHeadKeeps(x, y);
    FailSendKeeps(x1, y, r);
    GrowsTransitive(x, x1, FailSend(x1, r));
    KnowsGrows(y, x, FailSend(x1, r));
  }

  lemma FailReady(x: Wcb, r: SendResult)
    requires Ready(x) && x.snd.sending != [] && !r.Sent?
    ensures Ready(FailSend(StampHead(x), r))
  {}

  lemma {:induction false} SegmentsReady(w: Wcb, tryBytes: nat)
    requires Ready(w)
    ensures Ready(Segments(w, tryBytes))
    decreases |w.snd.sb|
  {
    if w.snd.sb != [] && tryBytes != 0 { SegmentsReady(Segment(w), Wrap32(tryBytes - Min(|w.snd.sb|, MDU))); }
  }

  lemma RefillReady(x: Wcb, y: Wcb)
    requires Both(x, y) && Ready(x)
    ensures Both(Refill(x), y) && Ready(Refill(x))
  {
    hide Ready, Refill, Good;
    RefillSends(x, y);
    RefilledReady(x);
  }

  lemma RefilledReady(x: Wcb)
    requires Ready(x)
    ensures Ready(Refill(x))
  {
    hide Ready, Segments, Wrap32;
    var w1 := DrainStandby(x);
    DrainReady(x);
    SegmentsReady(w1, Wrap32(w1.cc.cwnd - w1.cc.nflight));
  }

  lemma DrainReady(x: Wcb)
    requires Ready(x)
    ensures Ready(DrainStandby(x))
  {}

  lemma {:induction false} SendLoopReady(s: SendStep, y: Wcb, env: Env)
    requires Both(s.w, y) && Ready(s.w)
    ensures Both(SendLoop(s, env).w, y) && Ready(SendLoop(s, env).w)
    decreases Backlog(s.w)
  {
    hide Both, Ready, Refill, PumpSending;
    var s1 := PumpSending(s, env);
    PumpReady(s, y, env);
    if !s1.stop {
      PumpKeepsBacklog(s, env);
      RefillShrinks(s1.w);
      RefillReady(s1.w, y);
      if Refill(s1.w).snd.sending != [] { SendLoopReady(s1.(w := Refill(s1.w)), y, env); }
    }
  }

  lemma {:induction false} FlushQueue(s: SendStep, env: Env)
    requires forall i :: 1 <= i < |s.w.snd.ignoreSeqSpace| ==> s.w.snd.ignoreSeqSpace[i].copies > 0
    ensures QueueReady(FlushControl(s, env).w.snd.ignoreSeqSpace)
    decreases CopiesLeft(s.w.snd.ignoreSeqSpace)
  {
    if s.w.snd.ignoreSeqSpace != [] {
      var c := s.w.snd.ignoreSeqSpace[0];
      var p := Stamp(c.pack, s.w.rcv);
      if c.copies == 0 {
        FlushQueue(s.(w := PopFront(s.w)), env);
      } else if env.net(|s.out|) == Sent {
        FlushQueue(SendStep(SetFront(s.w, p, c.copies - 1), s.out + [p], false), env);
      }
    }
  }

  lemma CheckSendReady(x: Wcb, y: Wcb, env: Env)
    requires Both(x, y) && Ready(x) && !StandaloneWindowUpdate(x, env.now)
    ensures Ready(CheckSend(x, env).w)
  {
    hide SendLoop, FlushControl, Good, Ascending, AllFrom;
    if !x.snd.sendError {
      var s0 := SendStep(UpdateWindow(x, env.now), [], false);
      FlushLeaves(s0, env);
      FlushQueue(s0, env);
      FlushGood(x, y, env);
      var s := FlushControl(s0, env);
      assert Ready(s.w);
      hide Ready;
      if !s.stop { SendLoopReady(s, y, env); }
    }
  }

  // ---- runs ----

  lemma OtherReady(s: Sys, side: Side, w: Wcb, out: seq<Pack>)
    requires AllReady(s) && Ready(w) && Inv(Put(s, side, w, out))
    ensures AllReady(Put(s, side, w, out))
  {}

  lemma CallsReady(w: Wcb, bytes: seq<u8>, size: nat, code: int)
    requires Ready(w)
    ensures Ready(AppSend(w, bytes)) && Ready(AppRecv(w, size)) && Ready(w.(state := Closed, errno := code))
  {}

  lemma StepReady(s: Sys, step: Step)
    requires AllReady(s) && Allowed(s, step)
    ensures AllReady(Apply(s, step))
  {
    hide Good, Ready, CheckRecv, CheckSend, CheckFlights, WireTruthful;
    StepInv(s, step);
    var x, y := Me(s, step.side), Peer(s, step.side);
    match step {
      case Write(side, bytes) =>
        CallsReady(x, bytes, 0, 0);
        OtherReady(s, side, AppSend(x, bytes), []);
      case Read(side, size) =>
        CallsReady(x, [], size, 0);
        OtherReady(s, side, AppRecv(x, size), []);
      case Receive(side, batch, env) =>
        assert Local(x) by { GoodIsLocal(x, y); }
        ReceiveReady(x, batch, env);
        OtherReady(s, side, CheckRecv(x, batch, env), []);
      case Retransmit(side, env) =>
        CheckFlightsReady(x, env);
        OtherReady(s, side, CheckFlights(x, env).w, CheckFlights(x, env).out);
      case Transmit(side, env) =>
        CheckSendReady(x, y, env);
        OtherReady(s, side, CheckSend(x, env).w, CheckSend(x, env).out);
      case Expire(side, code) =>
        CallsReady(x, [], 0, code);
        OtherReady(s, side, x.(state := Closed, errno := code), []);
    }
  }

  lemma GoodIsLocal(x: Wcb, y: Wcb)
    requires Good(x, y)
    ensures Local(x)
  {}

  lemma {:induction false} RunReady(s: Sys, steps: seq<Step>, t: Sys)
    requires AllReady(s) && Reaches(s, steps, t)
    ensures AllReady(t)
    decreases |steps|
  {
    hide AllReady, Apply, Allowed;
    if steps != [] {
      StepReady(s, steps[0]);
      RunReady(Apply(s, steps[0]), steps[1..], t);
    }
  }

  lemma StartReady(s: Sys)
    requires Start(s)
    ensures AllReady(s)
  {
    StartInv(s);
    hide Inv;
  }

  /** The same endpoints, with some of what is on its way lost. */
  ghost predicate Loses(s: Sys, t: Sys) { t.a == s.a && t.b == s.b && t.wireAB <= s.wireAB && t.wireBA <= s.wireBA }

  lemma LosesReady(s: Sys, t: Sys)
    requires AllReady(s) && Loses(s, t)
    ensures AllReady(t)
  {}
}
