/** When a connection can deliver everything, and the one way it can come to a standstill for good.

    An update of the window is taken from any packet flagged so, also from one that was overtaken. A late one can
    shut the window of a sender that waits for nothing and whose peer will send no further update.
 */
module WcpStall {
  import opened Arithmetic
  import opened Bytes
  import opened WcpModel
  import opened WcpInvariant
  import opened WcpSending
  import opened WcpSystem
  import opened WcpRuns
  import opened WcpEffects
  import opened WcpReady
  import opened WcpProgress
  import opened WcpFinish

  predicate Unflagged(q: seq<Control>) { forall i :: 0 <= i < |q| ==> !q[i].pack.flags.wnd }

  /** The peer has a window update to send, or will have one when its buffers are swapped. */
  predicate WillUpdate(y: Wcb)
  {
    y.rcv.rwndMore || !Unflagged(y.snd.ignoreSeqSpace) || (y.rcv.rwndLess && y.rcv.rbStandby != [])
  }

  /** No update on its way is wider than `n`. */
  ghost predicate NoneWider(wire: set<Pack>, n: nat) { forall p :: p in wire && p.flags.wnd ==> p.wnd <= n }

  /** The window is shut: a packet waits, everything sent is acknowledged, the window heard last does not let the packet
      out, and no wider one is on its way or will be sent. */
  ghost predicate Shut(s: Sys, side: Side)
  {
    var x, y := Me(s, side), Peer(s, side);
    && x.snd.next <= |x.snd.log| && Queued(x.snd) && x.snd.una == x.snd.next && x.snd.rwnd <= Need(x.snd)
    && !WillUpdate(y) && NoneWider(Incoming(s, side), Need(x.snd))
  }

  // ---- it opens ----

  lemma NothingWaits(b: Wcb, x: Wcb)
    requires Good(b, x) && b.rcv.next == x.snd.next
    ensures b.rcv.received == []
  {
    if b.rcv.received != [] {
      WaitsFrom(b, x);
      WaitsBelow(b, x);
      assert false;
    }
  }

  lemma WaitsFrom(b: Wcb, x: Wcb)
    requires Good(b, x) && b.rcv.received != []
    ensures b.rcv.received[0].seqNo >= b.rcv.next
  {}

  lemma WaitsBelow(b: Wcb, x: Wcb)
    requires Good(b, x) && b.rcv.received != []
    ensures b.rcv.received[0].seqNo < x.snd.next
  {
    assert FromLog(b.rcv.received[0], x.snd);
  }

  /** A peer that has everything only swaps its buffers. */
  lemma IdleTakes(y: Wcb, x: Wcb, batch: seq<Pack>, env: Env)
    requires Good(y, x) && AllWireOk(x, batch) && y.rcv.next == x.snd.next && batch != []
    ensures var y1 := CheckRecv(y, batch, env);
            && y1.rcv == SwapBuffers(y.rcv.(keepTimer := env.now, keepProbes := 0, received := [], sackedTmp := []))
            && y1.state == y.state && y1.errno == y.errno
            && y1.snd.ignoreSeqSpace == y.snd.ignoreSeqSpace + Replies(batch, y.snd.dsn)
                                        + SackControls(y.rcv.sackedTmp + SequencedNumbers(batch), y.snd.dsn)
  {
    hide Good, AllWireOk, Heard, Kept, Biggest, Absorbed, SackControls, Replies, SwapBuffers, Has, Brings;
    GoodIsLocal(y, x);
    LocalCounted(y);
    AbsorbedIs(y, batch, env);
    ReportedLeave(y, batch, env);
    var b := Absorbed(y, batch, env);
    AbsorbedKeeps(y, x, batch, env);
    NothingWaits(b, x);
  }

  lemma SwappedWindow(r: Rcv)
    requires r.rb == []
    ensures var r1 := SwapBuffers(r);
            && r1.rbStandby == [] && r1.rwndMore == (r.rwndMore || (r.rwndLess && r.rbStandby != [])) && r1.rwndTimer == r.rwndTimer
  {}

  /** A peer that will update its window can be made to. */
  lemma Updates(s: Sys, side: Side) returns (t: Sys)
    requires Ready2(s) && Me(s, side).rcv.keepProbes < KEEPALIVE_PROBES
    requires Me(s, side).snd.una == Me(s, side).snd.next && WillUpdate(Peer(s, side))
    ensures Along(s, t) && Me(t, side).rcv.keepProbes < KEEPALIVE_PROBES && Me(t, side).snd.rwnd > MTU
  {
    hide AllReady, Connected, Reaches, CanReach, CheckRecv, Good, Both, Moves, NoSynAhead, AllWireOk, Has, Along, Replies, SackControls, SameSending, Ready, Up;
    PeerKnown(s, side);
    var t1, p := KeepsAlive(s, side);
    AlongReady(s, t1);
    var t2 := PeerReads(t1, side);
    AlongReady(t1, t2);
    var y2 := Peer(t2, side);
    var t3 := PeerTakes(t2, side, p);
    AlongReady(t2, t3);
    SidesReady(t2, side);
    BothGood(y2, Me(t2, side));
    IdleTakes(y2, Me(t2, side), [p], Clear(0));
    SwappedWindow(y2.rcv.(keepTimer := 0, keepProbes := 0, received := [], sackedTmp := []));
    var y3 := Peer(t3, side);
    SidesReady(t3, side);
    WindowOpen(y3);
    Answered(p, y2.snd.dsn, y2.rcv.sackedTmp);
    var now := y3.rcv.rwndTimer + RWND_CHECK_GRANULARITY + 1;
    var i := 0;
    if !y3.rcv.rwndMore {
      i :| 0 <= i < |y2.snd.ignoreSeqSpace| && y2.snd.ignoreSeqSpace[i].pack.flags.wnd;
      assert y3.snd.ignoreSeqSpace[i] == y2.snd.ignoreSeqSpace[i];
    }
    PeerKnown(t3, side);
    t := Answers(t3, side, now, i);
    AlongThen(s, t1, t2);
    AlongThen(s, t2, t3);
    AlongThen(s, t3, t);
  }

  /** If the window is not shut, there is a run that lets the sender go on. */
  lemma Opens(s: Sys, side: Side) returns (t: Sys)
    requires Ready2(s) && Me(s, side).rcv.keepProbes < KEEPALIVE_PROBES && !Shut(s, side)
    ensures Along(s, t) && Me(t, side).rcv.keepProbes < KEEPALIVE_PROBES
    ensures Me(t, side).snd.next <= |Me(t, side).snd.log| && CanGo(Me(t, side))
  {
    hide AllReady, Connected, Reaches, CanReach, Good, Moves, Along, SameSending, Need, Queued, WillUpdate;
    PeerKnown(s, side);
    var x := Me(s, side);
    if CanGo(x) {
      t := s;
      AlongNowhere(s);
    } else if WillUpdate(Peer(s, side)) {
      t := Updates(s, side);
      AlongReady(s, t);
      KnownNeed(t, side);
    } else {
      var p :| p in Incoming(s, side) && p.flags.wnd && p.wnd > Need(x.snd);
      t := Hears(s, side, p);
      AlongReady(s, t);
      PeerKnown(t, side);
      SameSendingQueue(x.snd, Me(t, side).snd);
    }
  }

  // ---- it stays shut ----

  /** Packets that do not update the window. */
  predicate NoUpdates(ps: seq<Pack>) { forall i :: 0 <= i < |ps| ==> !ps[i].flags.wnd }

  predicate PlainPacks(q: seq<OutPack>) { forall i :: 0 <= i < |q| ==> !q[i].pack.flags.wnd }

  lemma LoggedPlain(x: Wcb, y: Wcb)
    requires Good(x, y)
    ensures PlainPacks(x.snd.flights) && PlainPacks(x.snd.sending) && PlainPacks(x.snd.standby)
  {
    var s := x.snd;
    forall i | 0 <= i < |s.flights| ensures !s.flights[i].pack.flags.wnd { assert ItemOk(s.log[s.flights[i].pack.seqNo]); }
    var q := s.sending + s.standby;
    forall i | 0 <= i < |q| ensures !q[i].pack.flags.wnd { assert ItemOk(s.log[s.next + i]); }
    forall i | 0 <= i < |s.sending| ensures !s.sending[i].pack.flags.wnd { assert q[i] == s.sending[i]; }
    forall i | 0 <= i < |s.standby| ensures !s.standby[i].pack.flags.wnd { assert q[|s.sending| + i] == s.standby[i]; }
  }

  lemma {:induction false} SweepPlain(s: Sweep, i: nat, env: Env)
    requires i <= |s.w.snd.flights| && PlainPacks(s.w.snd.flights) && NoUpdates(s.out)
    ensures NoUpdates(SweepFrom(s, i, env).out)
    ensures var w, w1 := s.w, SweepFrom(s, i, env).w;
            && w1.rcv == w.rcv && w1.state == w.state
            && w1.snd == w.snd.(flights := w1.snd.flights, sendError := w1.snd.sendError)
    decreases |s.w.snd.flights| - i
  {
    hide HandlePackAcked, Retransmits, RtoExpired, NoteLoss, Wrap32;
    if i < |s.w.snd.flights| {
      var o := s.w.snd.flights[i];
      if s.w.snd.unaUpdate && o.pack.seqNo < s.w.snd.una {
        SweepPlain(s.(w := AckFlight(s.w, i, env)), i, env);
      } else if !Retransmits(s.w.cc, o, env.now) {
        SweepPlain(s, i + 1, env);
      } else {
        JudgeLeaves(s, o, env.now);
        hide Judge;
        var s1 := Judge(s, o, env.now);
        if env.net(|s1.out|) == Sent { SweepPlain(Resend(s1, i, env.now), i + 1, env); }
      }
    }
  }

  lemma CheckFlightsPlain(x: Wcb, y: Wcb, env: Env)
    requires Good(x, y)
    ensures var r := CheckFlights(x, env);
            && NoUpdates(r.out) && r.w.rcv == x.rcv && r.w.state == x.state
            && r.w.snd == x.snd.(flights := r.w.snd.flights, unaUpdate := r.w.snd.unaUpdate, lastRtoTimer := r.w.snd.lastRtoTimer,
                                 sendError := r.w.snd.sendError)
  {
    hide BackOff;
    LoggedPlain(x, y);
    var s := Sweep(x.(snd := x.snd.(lastRtoTimer := env.now)), [], 0, 0);
    SweepPlain(s, 0, env);
    BackOffLeaves(SweepFrom(s, 0, env).w, env.now);
  }

  lemma {:induction false} FlushPlain(s: SendStep, env: Env)
    requires Unflagged(s.w.snd.ignoreSeqSpace) && NoUpdates(s.out)
    ensures var r := FlushControl(s, env); NoUpdates(r.out) && Unflagged(r.w.snd.ignoreSeqSpace)
    decreases CopiesLeft(s.w.snd.ignoreSeqSpace)
  {
    if s.w.snd.ignoreSeqSpace != [] {
      var c := s.w.snd.ignoreSeqSpace[0];
      var p := Stamp(c.pack, s.w.rcv);
      if c.copies == 0 {
        FlushPlain(s.(w := PopFront(s.w)), env);
      } else if env.net(|s.out|) == Sent {
        FlushPlain(SendStep(SetFront(s.w, p, c.copies - 1), s.out + [p], false), env);
      }
    }
  }

  lemma {:induction false} PumpPlain(s: SendStep, env: Env)
    requires PlainPacks(s.w.snd.sending) && PlainPacks(s.w.snd.standby) && NoUpdates(s.out)
    ensures var r := PumpSending(s, env); NoUpdates(r.out) && PlainPacks(r.w.snd.sending) && PlainPacks(r.w.snd.standby)
    decreases |s.w.snd.sending|
  {
    if s.w.snd.sending != [] && !Congested(s.w) && env.net(|s.out|) == Sent {
      PumpPlain(SendStep(Launch(s.w, env.now), s.out + [Stamp(s.w.snd.sending[0].pack, s.w.rcv)], false), env);
    }
  }

  lemma {:induction false} SegmentsPlain(w: Wcb, tryBytes: nat)
    requires PlainPacks(w.snd.sending)
    ensures PlainPacks(Segments(w, tryBytes).snd.sending) && Segments(w, tryBytes).snd.standby == w.snd.standby
    decreases |w.snd.sb|
  {
    hide Wrap32;
    if w.snd.sb != [] && tryBytes != 0 { SegmentsPlain(Segment(w), Wrap32(tryBytes - Min(|w.snd.sb|, MDU))); }
  }

  lemma RefillPlain(w: Wcb)
    requires PlainPacks(w.snd.sending) && PlainPacks(w.snd.standby)
    ensures PlainPacks(Refill(w).snd.sending) && PlainPacks(Refill(w).snd.standby)
  {
    var w1 := DrainStandby(w);
    SegmentsPlain(w1, Wrap32(w1.cc.cwnd - w1.cc.nflight));
  }

  lemma {:induction false} LoopPlain(s: SendStep, env: Env)
    requires PlainPacks(s.w.snd.sending) && PlainPacks(s.w.snd.standby) && NoUpdates(s.out)
    ensures NoUpdates(SendLoop(s, env).out)
    decreases Backlog(s.w)
  {
    hide PlainPacks, NoUpdates, PumpSending, Refill;
    var s1 := PumpSending(s, env);
    PumpPlain(s, env);
    if !s1.stop {
      PumpKeepsBacklog(s, env);
      RefillShrinks(s1.w);
      RefillPlain(s1.w);
      if Refill(s1.w).snd.sending != [] { LoopPlain(s1.(w := Refill(s1.w)), env); }
    }
  }

  lemma CheckSendPlain(x: Wcb, y: Wcb, env: Env)
    requires Good(x, y) && !x.rcv.rwndMore && Unflagged(x.snd.ignoreSeqSpace)
    ensures var r := CheckSend(x, env); NoUpdates(r.out) && Unflagged(r.w.snd.ignoreSeqSpace) && r.w.rcv == x.rcv
  {
    hide SendLoop, FlushControl;
    if !x.snd.sendError {
      LoggedPlain(x, y);
      var s0 := SendStep(x, [], false);
      assert UpdateWindow(x, env.now) == x;
      FlushPlain(s0, env);
      FlushLeaves(s0, env);
      var s := FlushControl(s0, env);
      if !s.stop {
        LoopPlain(s, env);
        LoopPushes(s, env);
      }
    }
  }

  // ---- one step of either side ----

  /** The shut side after a step of its own: what is queued, heard and expected is the same. */
  ghost predicate StaysShut(x: Wcb, x1: Wcb)
    requires x.snd.next <= |x.snd.log|
  {
    && x1.snd.next == x.snd.next && x1.snd.una == x.snd.una && x1.snd.next <= |x1.snd.log|
    && Queued(x1.snd) && Need(x1.snd) >= Need(x.snd) && x1.snd.rwnd <= Need(x.snd)
    && (x1.state == Established || x1.state == Closed)
  }

  ghost predicate PastOpening(w: Wcb) { w.state == Established || w.state == Closed }

  ghost predicate ShutFor(s: Sys, side: Side) { Shut(s, side) && PastOpening(s.a) && PastOpening(s.b) }

  lemma WriteShut(x: Wcb, bytes: seq<u8>)
    requires x.snd.next <= |x.snd.log| && Queued(x.snd) && x.snd.rwnd <= Need(x.snd) && PastOpening(x)
    ensures StaysShut(x, AppSend(x, bytes))
  {}

  lemma {:induction false} DeliverShut(w: Wcb)
    requires PastOpening(w)
    ensures Deliver(w).snd == w.snd && PastOpening(Deliver(w))
    decreases |w.rcv.received|
  {
    if HeadExpected(w.rcv) && !HeadTooBig(w.rcv) && !Aborts(w) {
      ConsumeTakes(w);
      DeliverShut(ConsumeHead(w));
    }
  }

  lemma HeardShut(s: Snd, s1: Snd, batch: seq<Pack>, n: nat)
    requires Heard(s, s1, batch) && s.rwnd <= n && forall i :: 0 <= i < |batch| ==> batch[i].ack <= s.una && (batch[i].flags.wnd ==> batch[i].wnd <= n)
    ensures s1.una == s.una && s1.rwnd <= n
  {}

  lemma ReceiveShut(x: Wcb, y: Wcb, batch: seq<Pack>, env: Env)
    requires Both(x, y) && PastOpening(x) && AllWireOk(y, batch)
    requires x.snd.next <= |x.snd.log| && Queued(x.snd) && x.snd.rwnd <= Need(x.snd) && x.snd.una == x.snd.next
    requires forall i :: 0 <= i < |batch| && batch[i].flags.wnd ==> batch[i].wnd <= Need(x.snd)
    ensures StaysShut(x, CheckRecv(x, batch, env))
  {
    hide Good, Heard, Kept, Biggest, Absorbed, SackControls, Replies, Has, Brings, Deliver;
    var x1 := CheckRecv(x, batch, env);
    assert y.rcv.next <= x.snd.next by { KnownNext(x, y); }
    if batch == [] {
      SilenceProbed(x, env);
    } else {
      BothGood(x, y);
      GoodIsLocal(x, y);
      LocalCounted(x);
      AbsorbedIs(x, batch, env);
      ReportedLeave(x, batch, env);
      DeliverShut(Absorbed(x, batch, env));
      forall i | 0 <= i < |batch| ensures batch[i].ack <= x.snd.una { assert WireOk(y, batch[i]); }
      HeardShut(x.snd, x1.snd, batch, Need(x.snd));
    }
  }

  lemma KnownNext(x: Wcb, y: Wcb)
    requires Both(x, y)
    ensures x.snd.una <= y.rcv.next <= x.snd.next
  {}

  /** A call that sends cannot launch the packet that waits. */
  lemma SendShut(x: Wcb, y: Wcb, env: Env)
    requires Both(x, y) && PastOpening(x) && !StandaloneWindowUpdate(x, env.now)
    requires x.snd.next <= |x.snd.log| && Queued(x.snd) && x.snd.rwnd <= Need(x.snd) && x.snd.una == x.snd.next
    ensures StaysShut(x, CheckSend(x, env).w)
  {
    hide CheckSend, Good, Need, Queued, Logs;
    var x1 := CheckSend(x, env).w;
    CallSends(x, env);
    CheckSendKeeps(x, y, env);
    WindowRespected(x, env);
    KnownNext(x, y);
    if x1.snd.next > x.snd.next {
      LaunchedNeeds(x, x1, y);
      assert false;
    }
    NeedStays(x, x1);
    assert x1.snd.next <= |x1.snd.log| by { NeedFits(x1, y); }
  }

  lemma LaunchedNeeds(x: Wcb, x1: Wcb, y: Wcb)
    requires Good(x1, y) && Logs(x, x1) && x1.snd.next > x.snd.next && y.rcv.next <= x.snd.next <= |x.snd.log| && Good(y, x)
    requires x.snd.una == x.snd.next
    ensures x1.cc.nflight >= Need(x.snd)
  {
    var n := x.snd.next;
    NothingWaitsAt(y, x);
    assert InFlight(x1.snd.flights, n);
    var i :| 0 <= i < |x1.snd.flights| && x1.snd.flights[i].pack.seqNo == n;
    FlightBytesAt(x1.snd.flights, i);
    assert ItemOf(x1.snd.flights[i].pack) == x1.snd.log[n];
    if n < |x.snd.log| { assert x1.snd.log[..|x.snd.log|][n] == x.snd.log[n]; }
  }

  lemma NothingWaitsAt(y: Wcb, x: Wcb)
    requires Good(y, x) && y.rcv.next <= x.snd.next
    ensures !Received(y.rcv, x.snd.next)
  {
    forall i | 0 <= i < |y.rcv.received| ensures y.rcv.received[i].seqNo != x.snd.next { assert FromLog(y.rcv.received[i], x.snd); }
  }

  lemma RepliesUnflagged(batch: seq<Pack>, dsn: nat)
    ensures Unflagged(Replies(batch, dsn))
    decreases |batch|
  {
    if batch != [] { RepliesUnflagged(batch[1..], dsn); }
  }

  lemma SacksUnflagged(acks: seq<nat>, dsn: nat)
    ensures Unflagged(SackControls(acks, dsn))
    decreases |acks|
  {
    if acks != [] { SacksUnflagged(acks[Min(|acks|, ACKS_PER_PACK)..], dsn); }
  }

  /** The peer, which has everything, takes a batch. */
  lemma PeerShut(y: Wcb, x: Wcb, batch: seq<Pack>, env: Env)
    requires Good(y, x) && AllWireOk(x, batch) && y.rcv.next == x.snd.next && !WillUpdate(y)
    ensures var y1 := CheckRecv(y, batch, env); !WillUpdate(y1) && y1.state == y.state
  {
    hide Good, AllWireOk, SackControls, Replies;
    if batch == [] {
      SilenceProbed(y, env);
    } else {
      IdleTakes(y, x, batch, env);
      RepliesUnflagged(batch, y.snd.dsn);
      SacksUnflagged(y.rcv.sackedTmp + SequencedNumbers(batch), y.snd.dsn);
    }
  }

  lemma OwnStep(s: Sys, side: Side, x1: Wcb, out: seq<Pack>)
    requires ShutFor(s, side) && StaysShut(Me(s, side), x1)
    ensures ShutFor(Put(s, side, x1, out), side) && Me(Put(s, side, x1, out), side).snd.next == Me(s, side).snd.next
  {}

  lemma PeerStep(s: Sys, side: Side, y1: Wcb, out: seq<Pack>)
    requires ShutFor(s, side) && PastOpening(y1) && !WillUpdate(y1) && NoUpdates(out)
    ensures ShutFor(Put(s, Other(side), y1, out), side) && Me(Put(s, Other(side), y1, out), side).snd.next == Me(s, side).snd.next
  {}

  lemma BatchNarrow(s: Sys, side: Side, batch: seq<Pack>, i: nat)
    requires Shut(s, side) && i < |batch| && (forall p :: p in batch ==> p in Incoming(s, side)) && batch[i].flags.wnd
    ensures batch[i].wnd <= Need(Me(s, side).snd)
  {
    assert batch[i] in batch;
  }

  lemma OwnSteps(s: Sys, side: Side, step: Step)
    requires Inv(s) && ShutFor(s, side) && Allowed(s, step) && step.side == side
    ensures var t := Apply(s, step); ShutFor(t, side) && Me(t, side).snd.next == Me(s, side).snd.next
  {
    hide Good, CheckRecv, CheckSend, CheckFlights, Need, Queued, WillUpdate, StaysShut;
    var x, y := Me(s, side), Peer(s, side);
    InvBoth(s, side);
    match step {
      case Write(_, bytes) =>
        WriteShut(x, bytes);
        OwnStep(s, side, AppSend(x, bytes), []);
      case Read(_, size) =>
        SameStays(x, AppRecv(x, size));
        OwnStep(s, side, AppRecv(x, size), []);
      case Receive(_, batch, env) =>
        forall i | 0 <= i < |batch| && batch[i].flags.wnd ensures batch[i].wnd <= Need(x.snd) { BatchNarrow(s, side, batch, i); }
        BatchTruthful(s, side, batch);
        ReceiveShut(x, y, batch, env);
        OwnStep(s, side, CheckRecv(x, batch, env), []);
      case Retransmit(_, env) =>
        BothGood(x, y);
        CheckFlightsPlain(x, y, env);
        SameStays(x, CheckFlights(x, env).w);
        OwnStep(s, side, CheckFlights(x, env).w, CheckFlights(x, env).out);
      case Transmit(_, env) =>
        SendShut(x, y, env);
        OwnStep(s, side, CheckSend(x, env).w, CheckSend(x, env).out);
      case Expire(_, code) =>
        SameStays(x, x.(state := Closed, errno := code));
        OwnStep(s, side, x.(state := Closed, errno := code), []);
    }
  }

  lemma InvBoth(s: Sys, side: Side)
    requires Inv(s)
    ensures Both(Me(s, side), Peer(s, side)) && Both(Peer(s, side), Me(s, side))
  {}

  lemma SameStays(x: Wcb, x1: Wcb)
    requires x.snd.next <= |x.snd.log| && Queued(x.snd) && x.snd.rwnd <= Need(x.snd) && PastOpening(x1)
    requires x1.snd.next == x.snd.next && x1.snd.una == x.snd.una && x1.snd.rwnd == x.snd.rwnd
    requires x1.snd.log == x.snd.log && x1.snd.sb == x.snd.sb
    ensures StaysShut(x, x1)
  {}

  lemma BatchTruthful(s: Sys, side: Side, batch: seq<Pack>)
    requires Inv(s) && forall p :: p in batch ==> p in Incoming(s, side)
    ensures AllWireOk(Peer(s, side), batch)
  {
    forall i | 0 <= i < |batch| ensures WireOk(Peer(s, side), batch[i]) { assert batch[i] in batch; }
  }

  lemma PeerSteps(s: Sys, side: Side, step: Step)
    requires Inv(s) && ShutFor(s, side) && Allowed(s, step) && step.side == Other(side)
    ensures var t := Apply(s, step); ShutFor(t, side) && Me(t, side).snd.next == Me(s, side).snd.next
  {
    hide Good, CheckRecv, CheckSend, CheckFlights, Need, Queued;
    var x, y := Me(s, side), Peer(s, side);
    InvBoth(s, side);
    KnownNext(x, y);
    BothGood(x, y);
    match step {
      case Write(other, bytes) => PeerStep(s, side, AppSend(y, bytes), []);
      case Read(other, size) => PeerStep(s, side, AppRecv(y, size), []);
      case Receive(other, batch, env) =>
        BatchTruthful(s, other, batch);
        PeerShut(y, x, batch, env);
        PeerStep(s, side, CheckRecv(y, batch, env), []);
      case Retransmit(other, env) =>
        CheckFlightsPlain(y, x, env);
        PeerStep(s, side, CheckFlights(y, env).w, CheckFlights(y, env).out);
      case Transmit(other, env) =>
        CheckSendPlain(y, x, env);
        CallSends(y, env);
        PeerStep(s, side, CheckSend(y, env).w, CheckSend(y, env).out);
      case Expire(other, code) => PeerStep(s, side, y.(state := Closed, errno := code), []);
    }
  }

  lemma StepShut(s: Sys, side: Side, step: Step)
    requires Inv(s) && ShutFor(s, side) && Allowed(s, step)
    ensures var t := Apply(s, step); ShutFor(t, side) && Me(t, side).snd.next == Me(s, side).snd.next
  {
    hide Inv, ShutFor, Apply, Allowed;
    if step.side == side { OwnSteps(s, side, step); } else { PeerSteps(s, side, step); }
  }

  lemma {:induction false} RunShut(s: Sys, steps: seq<Step>, t: Sys, side: Side)
    requires Inv(s) && ShutFor(s, side) && Reaches(s, steps, t)
    ensures Inv(t) && ShutFor(t, side) && Me(t, side).snd.next == Me(s, side).snd.next
    decreases |steps|
  {
    hide Inv, ShutFor, Apply, Allowed;
    if steps != [] {
      StepShut(s, side, steps[0]);
      StepInv(s, steps[0]);
      RunShut(Apply(s, steps[0]), steps[1..], t, side);
    }
  }

  lemma ShutNotDone(s: Sys, side: Side)
    requires Inv(s) && Shut(s, side)
    ensures !Done(s, side)
  {
    InvBoth(s, side);
    var x := Me(s, side);
    assert SeqSpace(x.snd);
  }

  // ---- the theorems ----

  /** A side whose connection can deliver everything: established, past the opening, and with a probe left. */
  ghost predicate Alive(s: Sys, side: Side) { Connected(s) && Me(s, side).rcv.keepProbes < KEEPALIVE_PROBES }

  ghost predicate CanFinish(s: Sys, side: Side) { exists t :: Along(s, t) && Done(t, side) }

  /** In every run, and however much of what was sent is lost from here on: a connected sender can get everything
      written to its peer, and have nothing left to wait for, if and only if its window is not shut; and once it is,
      it launches nothing in any run. */
  lemma CanFinishIff(s: Sys, steps: seq<Step>, t: Sys, u: Sys, side: Side)
    requires Start(s) && Reaches(s, steps, t) && Loses(t, u) && Alive(u, side)
    ensures CanFinish(u, side) <==> !Shut(u, side)
    ensures Shut(u, side) ==> forall v :: CanReach(u, v) ==> Me(v, side).snd.next == Me(u, side).snd.next && !Done(v, side)
  {
    hide Start, AllReady, Shut, Along, Connected, Loses, Done;
    StartReady(s);
    RunReady(s, steps, t);
    LosesReady(t, u);
    assert Connected(u);
    if Shut(u, side) {
      assert Inv(u) by { ReadyInv(u); }
      forall v | CanReach(u, v) ensures Me(v, side).snd.next == Me(u, side).snd.next && !Done(v, side) { ShutForever(u, v, side); }
      forall v | Along(u, v) ensures !Done(v, side) { AlongReaches(u, v); }
    } else {
      var v := Opens(u, side);
      AlongReady(u, v);
      var w := Finishes(v, side);
      AlongThen(u, v, w);
    }
  }

  lemma ReadyInv(s: Sys)
    requires AllReady(s)
    ensures Inv(s)
  {}

  lemma AlongReaches(s: Sys, t: Sys)
    requires Along(s, t)
    ensures CanReach(s, t)
  {}

  lemma ShutForever(s: Sys, t: Sys, side: Side)
    requires Inv(s) && Shut(s, side) && Connected(s) && CanReach(s, t)
    ensures Me(t, side).snd.next == Me(s, side).snd.next && !Done(t, side)
  {
    var steps :| Reaches(s, steps, t);
    RunShut(s, steps, t, side);
    ShutNotDone(t, side);
  }
}
