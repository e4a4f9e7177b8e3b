/** The one step of the sender that breaks delivery: a window update sent as a packet of its own.

    `update_rwnd` numbers the packet with the next unassigned sequence number and the receiver does not
    skip it, so it is consumed in the place of the item that gets that number later.

    What follows is about two endpoints: exactly when the step breaks delivery between them, and a run from the
    start of a connection that gets there.
 */
module WcpWindowUpdate {
  import opened Arithmetic
  import opened Bytes
  import opened WcpModel
  import opened WcpInvariant
  import opened WcpSending
  import opened WcpSystem
  import opened WcpRuns

  lemma {:induction false} PumpKeepsOut(s: SendStep, env: Env)
    ensures s.out <= PumpSending(s, env).out
    decreases |s.w.snd.sending|
  {
    if s.w.snd.sending != [] && !Congested(s.w) && env.net(|s.out|) == Sent {
      PumpKeepsOut(SendStep(Launch(s.w, env.now), s.out + [Stamp(s.w.snd.sending[0].pack, s.w.rcv)], false), env);
    }
  }

  lemma {:induction false} SendLoopKeepsOut(s: SendStep, env: Env)
    ensures s.out <= SendLoop(s, env).out
    decreases Backlog(s.w)
  {
    var s1 := PumpSending(s, env);
    PumpKeepsOut(s, env);
    if !s1.stop {
      PumpKeepsBacklog(s, env);
      RefillShrinks(s1.w);
      if Refill(s1.w).snd.sending != [] { SendLoopKeepsOut(s1.(w := Refill(s1.w)), env); }
    }
  }

  /** The packet the branch creates: sequenced for the receiver, numbered like the next item. */
  function UpdatePack(w: Wcb): Pack { Stamp(ControlPack(w.snd.dsn, WND_FLAGS, []), w.rcv) }

  lemma StandaloneSends(x: Wcb, env: Env)
    requires StandaloneWindowUpdate(x, env.now)
    ensures env.net(0) == Sent ==> CheckSend(x, env).out != [] && CheckSend(x, env).out[0] == UpdatePack(x)
    ensures env.net(0) != Sent ==> CheckSend(x, env).w.snd.ignoreSeqSpace == [Control(UpdatePack(x), 1)]
  {
    var w1 := UpdateWindow(x, env.now);
    var c := Control(ControlPack(x.snd.dsn, WND_FLAGS, []), 1);
    assert w1.snd.ignoreSeqSpace == [c];
    var s0 := SendStep(w1, [], false);
    if env.net(0) == Sent {
      var s1 := SendStep(SetFront(w1, UpdatePack(x), 0), [] + [UpdatePack(x)], false);
      var s2 := s1.(w := PopFront(s1.w));
      assert FlushControl(s0, env) == FlushControl(s1, env);
      assert FlushControl(s1, env) == FlushControl(s2, env);
      SendLoopKeepsOut(s2, env);
    }
  }

  lemma UpdatePackUntruthful(x: Wcb, w: Wcb)
    requires LogOk(w.snd.log)
    ensures !WireOk(w, UpdatePack(x)) && !ControlOk(w.rcv, UpdatePack(x))
  {
    var p := UpdatePack(x);
    assert FromLog(p, w.snd) ==> ItemOk(w.snd.log[p.seqNo]);
  }

  /** check_send keeps the sender truthful exactly when it does not take that branch. */
  lemma TruthfulIffNoStandaloneUpdate(x: Wcb, y: Wcb, env: Env)
    requires Good(x, y)
    ensures SendOk(x, CheckSend(x, env), y) <==> !StandaloneWindowUpdate(x, env.now)
  {
    if !StandaloneWindowUpdate(x, env.now) {
      CheckSendKeeps(x, y, env);
    } else {
      var r := CheckSend(x, env);
      StandaloneSends(x, env);
      if LogOk(r.w.snd.log) {
        UpdatePackUntruthful(x, r.w);
        assert env.net(0) == Sent ==> !AllWireOk(r.w, r.out);
        assert env.net(0) != Sent ==> r.w.snd.ignoreSeqSpace[0].pack == UpdatePack(x);
      }
    }
  }

  /** What a batch of one sequenced packet does up to delivery, for a receiver with nothing waiting. */
  lemma OnePacket(w: Wcb, p: Pack, env: Env)
    requires w.rcv.received == [] && Sequenced(p)
    ensures var a := Arrivals(w, [p]);
            && AbsorbAcks(Sack(a.w), a.acked, env) == Sack(a.w)
            && Sack(a.w).state == w.state && Sack(a.w).errno == w.errno
            && Sack(a.w).rcv == w.rcv.(received := if p.seqNo < w.rcv.next then [] else [p], sackedTmp := [])
            && Sack(a.w).snd.ignoreSeqSpace == w.snd.ignoreSeqSpace + SackControls(w.rcv.sackedTmp + [p.seqNo], w.snd.dsn)
  {
    assert [p][..0] == [];
    assert Arrivals(w, [p]) == Arrive(Arrival(w, []), p);
  }

  lemma DeliverOne(w: Wcb, p: Pack)
    requires w.state == Established && w.rcv.received == [p] && p.seqNo == w.rcv.next && !p.flags.syn
    requires |w.rcv.rbStandby| + |p.data| <= w.rcv.rbCapacity
    ensures var d := Deliver(w);
            && d.state == Established && d.errno == w.errno && d.snd == w.snd
            && d.rcv.received == [] && d.rcv.next == w.rcv.next + 1 && d.rcv.rbCapacity == w.rcv.rbCapacity
            && d.rcv.rbStandby == w.rcv.rbStandby + p.data
            && d.rcv.rb == w.rcv.rb && d.rcv.delivered == w.rcv.delivered && d.rcv.sackedTmp == w.rcv.sackedTmp
  {
    assert Deliver(w) == Deliver(ConsumeHead(w)) == ConsumeHead(w);
  }

  lemma SwapKeepsStream(r: Rcv)
    ensures var r1 := SwapBuffers(r);
            && Stream(r1) == Stream(r) && |r1.rbStandby| <= |r.rbStandby| && r1.received == r.received
            && r1.next == r.next && r1.sackedTmp == r.sackedTmp && r1.rbCapacity == r.rbCapacity
  {}

  /** A receiver with nothing waiting takes one packet with the expected number. */
  lemma ReceiveExpected(w: Wcb, p: Pack, env: Env)
    requires w.state == Established && w.rcv.received == []
    requires Sequenced(p) && !p.flags.syn && p.seqNo == w.rcv.next
    requires |w.rcv.rbStandby| + |p.data| <= w.rcv.rbCapacity
    ensures var r := CheckRecv(w, [p], env);
            && r.state == Established && r.rcv.received == [] && r.rcv.next == w.rcv.next + 1
            && Stream(r.rcv) == Stream(w.rcv) + p.data && r.rcv.sackedTmp == []
            && r.rcv.rbCapacity == w.rcv.rbCapacity && r.errno == w.errno
            && |r.rcv.rbStandby| <= |w.rcv.rbStandby| + |p.data|
  {
    hide SwapBuffers, Deliver, Arrivals, AbsorbAcks, Sack;
    var w0 := w.(rcv := w.rcv.(keepTimer := env.now, keepProbes := 0));
    OnePacket(w0, p, env);
    var s := Sack(Arrivals(w0, [p]).w);
    DeliverOne(s, p);
    SwapKeepsStream(Deliver(s).rcv);
    assert Stream(Deliver(s).rcv) == Stream(w.rcv) + p.data;
  }

  /** A packet below the expected number is acknowledged and dropped. */
  lemma ReceiveOld(w: Wcb, p: Pack, env: Env)
    requires w.state == Established && w.rcv.received == []
    requires Sequenced(p) && p.seqNo < w.rcv.next && w.rcv.sackedTmp == []
    ensures var r := CheckRecv(w, [p], env);
            && r.state == Established && r.rcv.received == [] && r.rcv.next == w.rcv.next
            && Stream(r.rcv) == Stream(w.rcv) && r.rcv.sackedTmp == [] && r.errno == w.errno
            && r.rcv.rbCapacity == w.rcv.rbCapacity
            && |r.rcv.rbStandby| <= |w.rcv.rbStandby|
            && exists i :: 0 <= i < |r.snd.ignoreSeqSpace| && p.seqNo in r.snd.ignoreSeqSpace[i].pack.acks
  {
    hide SwapBuffers, Arrivals, AbsorbAcks, Sack;
    var w0 := w.(rcv := w.rcv.(keepTimer := env.now, keepProbes := 0));
    OnePacket(w0, p, env);
    var s := Sack(Arrivals(w0, [p]).w);
    assert Deliver(s) == s;
    SwapKeepsStream(s.rcv);
    assert s.snd.ignoreSeqSpace[|w.snd.ignoreSeqSpace|].pack.acks == [p.seqNo];
  }

  /** The loss: an idle receiver that gets the stand-alone update numbered `n` before items `n` and `n+1`
      acknowledges item `n` but never delivers its bytes, and goes on with item `n+1`. */
  lemma StandaloneUpdateLosesItem(w: Wcb, update: Pack, p: Pack, q: Pack, e1: Env, e2: Env, e3: Env)
    requires w.state == Established && w.rcv.received == []
    requires update.flags == WND_FLAGS && update.data == [] && update.seqNo == w.rcv.next
    requires p.flags == q.flags == DATA_FLAGS && p.seqNo == w.rcv.next && q.seqNo == p.seqNo + 1
    requires |w.rcv.rbStandby| + |q.data| <= w.rcv.rbCapacity
    ensures var w1 := CheckRecv(w, [update], e1);
            var w2 := CheckRecv(w1, [p], e2);
            var w3 := CheckRecv(w2, [q], e3);
            Stream(w3.rcv) == Stream(w.rcv) + q.data && w1.state == w2.state == Established && w1.errno == w2.errno == w.errno
  {
    ReceiveExpected(w, update, e1);
    var w1 := CheckRecv(w, [update], e1);
    ReceiveOld(w1, p, e2);
    var w2 := CheckRecv(w1, [p], e2);
    ReceiveExpected(w2, q, e3);
  }

  // ---- two endpoints with nothing on the way ----

  const BYTE_PACK: nat := 1 + HEADER_LEN

  /** Nothing waits to be sent, and `k` packets of one byte may go out. */
  predicate QuietSender(x: Wcb, k: nat)
  {
    && !x.snd.sendError && x.snd.sending == [] && x.snd.standby == [] && x.snd.sb == [] && x.snd.sbCapacity > 0
    && k * BYTE_PACK + x.cc.nflight < Min(x.cc.cwnd, x.snd.rwnd)
    && MTU + k * BYTE_PACK < x.cc.cwnd - x.cc.nflight < 0x1_0000_0000
  }

  /** Everything up to number `n` is consumed, and there is room for a byte. */
  predicate QuietReceiver(y: Wcb, n: nat)
  {
    && y.state == Established && y.errno == 0 && y.rcv.received == [] && y.rcv.sackedTmp == [] && y.rcv.next == n
    && |y.rcv.rbStandby| < y.rcv.rbCapacity
  }

  ghost predicate Quiet(s: Sys, side: Side) { QuietSender(Me(s, side), 2) && QuietReceiver(Peer(s, side), Me(s, side).snd.dsn) }

  lemma QuietFlush(x: Wcb, k: nat, now: nat)
    requires QuietSender(x, k)
    ensures CheckSend(x, Clear(now)).w == Flushed(x, now)
    ensures QuietSender(Flushed(x, now), k) && !WindowUpdateDue(Flushed(x, now), now)
  {
    hide CheckSend, SendLoop, SendAsserts, SendLoopAsserts;
    var out := SendsControls(x, now);
    NothingToSend(SendStep(Flushed(x, now), out, false), Clear(now));
  }

  ghost predicate Grown(s: Sys, t: Sys, side: Side)
  {
    Peer(t, side) == Peer(s, side) && forall p :: p in Outgoing(s, side) ==> p in Outgoing(t, side)
  }

  /** A quiet sender's next byte: written, cut into a packet with the next number, and sent. */
  lemma SendsByte(s: Sys, side: Side, b: u8, k: nat, now: nat) returns (t: Sys, p: Pack)
    requires QuietSender(Me(s, side), k + 1) && !WindowUpdateDue(Me(s, side), now)
    ensures CanReach(s, t) && Grown(s, t, side) && p in Outgoing(t, side)
    ensures p.flags == DATA_FLAGS && p.data == [b] && p.seqNo == Me(s, side).snd.dsn
    ensures Me(t, side).snd.dsn == Me(s, side).snd.dsn + 1 && Me(t, side).snd.written == Me(s, side).snd.written + [b]
    ensures QuietSender(Me(t, side), k) && !WindowUpdateDue(Me(t, side), now)
  {
    hide CheckSend, Reaches, CanReach;
    var x := Me(s, side);
    var x1 := AppSend(x, [b]);
    assert x1 == x.(snd := x.snd.(sb := [b], written := x.snd.written + [b])) by { assert [b][..1] == [b]; }
    var s1 := Apply(s, Write(side, [b]));
    PutSides(s, side, x1, []);
    StartsHere(s);
    OneMore(s, s, Write(side, [b]));
    assert (k + 1) * BYTE_PACK == k * BYTE_PACK + BYTE_PACK;
    TransmitData(x1, now);
    t := Apply(s1, Transmit(side, Clear(now)));
    p := Stamp(DataOut(x1, [b]).pack, x1.rcv);
    var r := CheckSend(x1, Clear(now));
    PutSides(s1, side, r.w, r.out);
    OneMore(s, s1, Transmit(side, Clear(now)));
  }

  lemma Receives(s: Sys, side: Side, p: Pack, now: nat) returns (t: Sys)
    requires Peer(s, side).state == Established && Peer(s, side).errno == 0 && p in Outgoing(s, side)
    ensures CanReach(s, t) && Me(t, side) == Me(s, side) && Peer(t, side) == CheckRecv(Peer(s, side), [p], Clear(now))
    ensures Outgoing(t, side) == Outgoing(s, side)
  {
    hide CheckRecv, Reaches, CanReach;
    t := Apply(s, Receive(Other(side), [p], Clear(now)));
    StartsHere(s);
    OneMore(s, s, Receive(Other(side), [p], Clear(now)));
  }

  /** Everything the sender wrote was delivered so far. */
  lemma QuietStream(s: Sys, side: Side)
    requires Inv(s) && Quiet(s, side)
    ensures Stream(Peer(s, side).rcv) == Me(s, side).snd.written
  {
    var x, y := Me(s, side), Peer(s, side);
    assert x.snd.log[..y.rcv.next] == x.snd.log;
  }

  ghost predicate Delivers(s: Sys, side: Side) { Stream(Peer(s, side).rcv) <= Me(s, side).snd.written }

  /** After the stand-alone update a quiet connection loses a byte: the sender writes two, the receiver ends with
      the second only. */
  lemma DeliveryBreaks(s: Sys, side: Side, now: nat) returns (u: Sys)
    requires Quiet(s, side) && Stream(Peer(s, side).rcv) == Me(s, side).snd.written
    requires StandaloneWindowUpdate(Me(s, side), now)
    ensures CanReach(Apply(s, Transmit(side, Clear(now))), u) && !Delivers(u, side)
  {
    hide CheckSend, CheckRecv, Reaches, CanReach, QuietSender, Stream;
    var x, y := Me(s, side), Peer(s, side);
    var t := Apply(s, Transmit(side, Clear(now)));
    var r := CheckSend(x, Clear(now));
    var update := UpdatePack(x);
    StandaloneSends(x, Clear(now));
    QuietFlush(x, 2, now);
    PutSides(s, side, r.w, r.out);
    var t1, p := SendsByte(t, side, 1, 1, now);
    var t2, q := SendsByte(t1, side, 2, 0, now);
    Then(t, t1, t2);
    StandaloneUpdateLosesItem(y, update, p, q, Clear(now), Clear(now), Clear(now));
    var t3 := Receives(t2, side, update, now);
    var t4 := Receives(t3, side, p, now);
    u := Receives(t4, side, q, now);
    Then(t, t2, t3);
    Then(t, t3, t4);
    Then(t, t4, u);
    OneByteMissing(x.snd.written);
    assert Me(u, side).snd.written == x.snd.written + [1] + [2];
    assert Stream(Peer(u, side).rcv) == x.snd.written + [2];
  }

  lemma OneByteMissing(w: seq<u8>)
    ensures !(w + [2] <= w + [1] + [2])
  {
    assert (w + [2])[|w|] == 2 && (w + [1] + [2])[|w|] == 1;
  }

  lemma DeliversFromInv(s: Sys, side: Side)
    requires Inv(s)
    ensures Delivers(s, side)
  {
    PrefixFromInv(s, side);
  }

  ghost predicate AlwaysDelivers(s: Sys, side: Side) { forall u :: CanReach(s, u) ==> Delivers(u, side) }

  /** For a quiet connection in a state of a run, delivery stays in order whatever follows a `check_send` on a
      network that takes its packets, if and only if the call does not take the branch. */
  lemma DeliveryIffNoStandaloneUpdate(s: Sys, side: Side, now: nat)
    requires Inv(s) && Quiet(s, side)
    ensures AlwaysDelivers(Apply(s, Transmit(side, Clear(now))), side) <==> !StandaloneWindowUpdate(Me(s, side), now)
  {
    hide Inv, Quiet, Delivers, Apply, Reaches;
    var t := Apply(s, Transmit(side, Clear(now)));
    if StandaloneWindowUpdate(Me(s, side), now) {
      QuietStream(s, side);
      var u := DeliveryBreaks(s, side, now);
    } else {
      StepInv(s, Transmit(side, Clear(now)));
      forall u | CanReach(t, u) ensures Delivers(u, side) {
        var steps :| Reaches(t, steps, u);
        RunInv(t, steps, u);
        DeliversFromInv(u, side);
      }
    }
  }

  // ---- a run that gets there ----

  /** The smallest receive buffer there is: twice the least size that can be set. */
  const CAP: nat := 2 * (4 * MDU)

  /** The connector, established, with `n` bytes in flight and `d` the next number. */
  predicate Feeding(a: Wcb, n: nat, d: nat)
  {
    && a.state == Established && a.errno == 0 && !a.snd.sendError && a.snd.sending == [] && a.snd.standby == [] && a.snd.sb == []
    && a.snd.sbCapacity == CAP && a.snd.dsn == d && !a.rcv.rwndMore && a.cc.nflight == n && CWND_INIT <= a.cc.cwnd <= CWND_MAX
    && a.rcv.received == [] && a.rcv.sackedTmp == [] && a.rcv.next == 1 && |a.rcv.rbStandby| < a.rcv.rbCapacity == CAP
  }

  /** The acceptor's sending half since its answer went out. */
  predicate Answered(b: Wcb)
  {
    && !b.snd.sendError && b.snd.sending == [] && b.snd.standby == [] && b.snd.sb == [] && b.snd.sbCapacity == CAP
    && b.snd.dsn == 1 && b.cc.nflight == HEADER_LEN && b.cc.cwnd == CWND_INIT && b.snd.rwnd >= CAP
  }

  /** The acceptor's receiving half with everything below `d` consumed and `j` bytes in the stand-by buffer. */
  predicate Filling(b: Wcb, d: nat, j: nat)
  {
    && Answered(b) && b.errno == 0 && b.rcv.received == [] && b.rcv.sackedTmp == [] && b.rcv.next == d
    && b.rcv.rbCapacity == CAP && |b.rcv.rbStandby| == j && b.rcv.keepTimer == 0 && b.rcv.keepProbes == 0
  }

  /** The queue of control packets grew by the report of a number. */
  predicate Reported(b: Wcb, r: Wcb, d: nat)
  {
    r.snd.ignoreSeqSpace == b.snd.ignoreSeqSpace + [Control(ControlPack(b.snd.dsn, SACK_FLAGS, [d]), SACK_COPIES)]
  }

  /** What is said of the window with `n` bytes in the stand-by buffer. */
  predicate Announces(r: Rcv, n: nat)
  {
    n <= CAP && r.wnd == CAP - n && r.rwndLess == (CAP - n <= MTU) && (CAP - n > MTU ==> !r.rwndMore)
  }

  /** A data packet joins the stand-by buffer, or the ready one if both are empty. */
  lemma FillsBy(b: Wcb, p: Pack, d: nat, j: nat)
    requires Filling(b, d, j) && b.state == Established && p.flags == DATA_FLAGS && p.seqNo == d && 0 < |p.data| && j + |p.data| <= CAP
    requires p.ack > b.snd.una ==> p.wnd >= CAP
    ensures var r := CheckRecv(b, [p], Clear(0));
            && r.state == Established && Reported(b, r, d) && r.rcv.rwndTimer == b.rcv.rwndTimer
            && (b.rcv.rb != [] && r.rcv.rwndMore ==> b.rcv.rwndMore)
            && (b.rcv.rb != [] ==> Filling(r, d + 1, j + |p.data|) && r.rcv.rb == b.rcv.rb && Announces(r.rcv, j + |p.data|))
            && (b.rcv.rb == [] && j == 0 && CAP - |p.data| > MTU ==> Filling(r, d + 1, 0) && r.rcv.rb == p.data)
  {
    hide SackControls, NoteHeader, CheckRecv, ConsumeHead, SwapBuffers;
    ReceiveNext(b, p, 0);
    TakenAnswered(b, p);
    DataConsumed(TakenIn(b, p, 0), p, d);
    Swapped(ConsumeHead(TakenIn(b, p, 0)).rcv);
  }

  lemma TakenAnswered(b: Wcb, p: Pack)
    requires Answered(b) && !p.flags.wnd && (p.ack > b.snd.una ==> p.wnd >= CAP)
    ensures Answered(TakenIn(b, p, 0)) && Reported(b, TakenIn(b, p, 0), p.seqNo)
  {
    OneReport(p.seqNo, b.snd.dsn);
  }

  lemma OneReport(n: nat, dsn: nat)
    ensures SackControls([n], dsn) == [Control(ControlPack(dsn, SACK_FLAGS, [n]), SACK_COPIES)]
  {
    var c := Control(ControlPack(dsn, SACK_FLAGS, [n]), SACK_COPIES);
    assert [n][..1] == [n] && [n][1..] == [];
    assert SackControls([n], dsn) == [c] + SackControls([n][1..], dsn);
    assert SackControls([], dsn) == [];
  }

  lemma DataConsumed(t: Wcb, p: Pack, d: nat)
    requires t.state == Established && t.rcv.received == [p] && p.flags == DATA_FLAGS && p.data != [] && t.rcv.rbCapacity == CAP
    requires |t.rcv.rbStandby| + |p.data| <= CAP
    ensures var c, n := ConsumeHead(t), |t.rcv.rbStandby| + |p.data|;
            && c.state == Established && c.errno == t.errno && c.snd == t.snd && c.cc == t.cc
            && c.rcv == t.rcv.(next := t.rcv.next + 1, received := [], rbStandby := t.rcv.rbStandby + p.data, wnd := CAP - n,
                               rwndLess := CAP - n <= MTU, rwndMore := if CAP - n <= MTU then t.rcv.rwndMore else false)
  {}

  lemma Swapped(r: Rcv)
    ensures SwapBuffers(r).rwndTimer == r.rwndTimer
    ensures r.rb != [] ==> SwapBuffers(r) == r
    ensures r.rb == [] && !r.rwndLess ==> SwapBuffers(r) == r.(rb := r.rbStandby, rbStandby := [])
  {}

  ghost predicate Fed(s: Sys, n: nat, d: nat, j: nat) { Feeding(s.a, n, d) && Filling(s.b, d, j) && s.b.state == Established }

  /** A write of one packet's worth, sent and received. */
  lemma FeedRound(s: Sys, chunk: seq<u8>, n: nat, d: nat, j: nat) returns (t: Sys)
    requires Fed(s, n, d, j) && s.a.rcv.wnd >= CAP
    requires 0 < |chunk| <= MDU && |chunk| + HEADER_LEN + n < s.a.snd.rwnd && MTU < CWND_INIT - n && j + |chunk| <= CAP
    ensures CanReach(s, t) && Feeding(t.a, n + |chunk| + HEADER_LEN, d + 1) && t.b.state == Established && Reported(s.b, t.b, d)
    ensures t.a.rcv == s.a.rcv && t.a.snd.rwnd == s.a.snd.rwnd && t.a.snd.una == s.a.snd.una && t.b.rcv.rwndTimer == s.b.rcv.rwndTimer
    ensures s.wireBA <= t.wireBA
    ensures s.b.rcv.rb != [] ==>
              && Filling(t.b, d + 1, j + |chunk|) && t.b.rcv.rb == s.b.rcv.rb && Announces(t.b.rcv, j + |chunk|)
              && (t.b.rcv.rwndMore ==> s.b.rcv.rwndMore)
    ensures s.b.rcv.rb == [] && j == 0 && CAP - |chunk| > MTU ==> Filling(t.b, d + 1, 0) && t.b.rcv.rb == chunk
  {
    hide CheckSend, CheckRecv, Reaches, CanReach, Filling;
    var a1 := AppSend(s.a, chunk);
    assert chunk[..|chunk|] == chunk;
    assert a1.snd.sb == [] + chunk == chunk;
    var s1 := Apply(s, Write(A, chunk));
    StartsHere(s);
    OneMore(s, s, Write(A, chunk));
    TransmitData(a1, 0);
    var s2 := Apply(s1, Transmit(A, Clear(0)));
    OneMore(s, s1, Transmit(A, Clear(0)));
    var p := Stamp(DataOut(a1, chunk).pack, a1.rcv);
    assert p in s2.wireAB;
    t := Apply(s2, Receive(B, [p], Clear(0)));
    assert s2.b == s.b;
    assert s.b.errno == 0 by { FillingErrno(s.b, d, j); }
    OneMore(s, s2, Receive(B, [p], Clear(0)));
    FillsBy(s.b, p, d, j);
  }

  lemma FillingErrno(b: Wcb, d: nat, j: nat)
    requires Filling(b, d, j)
    ensures b.errno == 0
  {}

  lemma FillingAnswered(b: Wcb, d: nat, j: nat)
    requires Filling(b, d, j)
    ensures Answered(b)
  {}

  /** `k` full packets, one after the other. */
  lemma {:induction false} FeedRounds(s: Sys, k: nat, n: nat, d: nat, j: nat) returns (t: Sys)
    requires Fed(s, n, d, j) && s.a.rcv.wnd >= CAP && s.b.rcv.rb != [] && 0 < k
    requires k * MTU + n < s.a.snd.rwnd <= CAP && j + k * MDU <= CAP
    ensures CanReach(s, t) && Filling(t.b, d + k, j + k * MDU) && Feeding(t.a, n + k * MTU, d + k) && t.b.state == Established
    ensures t.b.rcv.rb == s.b.rcv.rb && Announces(t.b.rcv, j + k * MDU) && t.b.rcv.rwndTimer == s.b.rcv.rwndTimer
    ensures t.b.rcv.rwndMore ==> s.b.rcv.rwndMore && CAP - (j + MDU) <= MTU
    ensures |s.b.snd.ignoreSeqSpace| < |t.b.snd.ignoreSeqSpace| && s.b.snd.ignoreSeqSpace <= t.b.snd.ignoreSeqSpace
    ensures t.a.rcv == s.a.rcv && t.a.snd.rwnd == s.a.snd.rwnd && t.a.snd.una == s.a.snd.una && s.wireBA <= t.wireBA
    decreases k
  {
    hide CanReach, Filling, Feeding;
    var s1 := FeedRound(s, seq(MDU, _ => 0), n, d, j);
    if k == 1 {
      t := s1;
    } else {
      t := FeedRounds(s1, k - 1, n + MTU, d + 1, j + MDU);
      Then(s, s1, t);
    }
  }

  // ---- the opening of the connection ----

  predicate Greeted(a: Wcb)
  {
    && a.state == SynSent && a.errno == 0 && !a.snd.sendError && a.snd.sending == [] && a.snd.standby == [] && a.snd.sb == []
    && a.snd.sbCapacity == CAP && a.snd.dsn == 1 && a.snd.una == 0 && a.cc.nflight == HEADER_LEN && a.cc.cwnd == CWND_INIT
    && a.rcv.received == [] && a.rcv.sackedTmp == [] && a.rcv.next == 0 && a.rcv.rbStandby == [] && a.rcv.rbCapacity == CAP
    && !a.rcv.rwndMore && !a.rcv.rwndLess && a.rcv.wnd == CAP && a.rcv.rb == []
  }

  predicate Listening(b: Wcb)
  {
    && b.state == SynReceived && b.errno == 0 && !b.snd.sendError && b.snd.sending == [] && b.snd.sb == [] && b.snd.sbCapacity == CAP
    && b.snd.una == 0 && b.snd.rwnd == RCV_WND_DEFAULT && b.cc.cwnd == CWND_INIT && b.rcv.wnd == CAP
    && b.rcv.received == [] && b.rcv.sackedTmp == [] && b.rcv.rbStandby == [] && b.rcv.rb == [] && b.rcv.rbCapacity == CAP
    && b.rcv.rwndTimer == 0 && b.rcv.keepTimer == 0 && b.rcv.keepProbes == 0 && !b.rcv.rwndMore && !b.rcv.rwndLess
  }

  /** SYN out and in. */
  lemma Opens(s: Sys, g: Garbage, h: Garbage) returns (t: Sys)
    requires s.a == Active(0, CAP, CAP, g) && s.b == Passive(0, CAP, CAP, h)
    ensures CanReach(s, t) && Greeted(t.a) && Listening(t.b)
    ensures t.b.snd.standby == [SequencedPack(0, Item(SYNACK_FLAGS, []))] && t.b.snd.dsn == 1 && t.b.rcv.next == 1 && t.b.cc.nflight == 0
  {
    hide CheckSend, CheckRecv, Reaches, CanReach;
    var o := SequencedPack(0, Item(SYN_FLAGS, []));
    assert [] + [o] == [o];
    TransmitQueued(s.a, o, 0);
    var s1 := Apply(s, Transmit(A, Clear(0)));
    StartsHere(s);
    OneMore(s, s, Transmit(A, Clear(0)));
    var p := Stamp(o.pack, s.a.rcv);
    assert p in s1.wireAB;
    t := Apply(s1, Receive(B, [p], Clear(0)));
    OneMore(s, s1, Receive(B, [p], Clear(0)));
    ReceiveNext(s.b, p, 0);
    var c := ConsumeHead(TakenIn(s.b, p, 0));
    assert c.snd.standby == [SequencedPack(0, Item(SYNACK_FLAGS, []))];
    assert SwapBuffers(c.rcv) == c.rcv;
  }

  /** SYN|ACK out and in: the connector is established. */
  lemma Answers(s: Sys) returns (t: Sys)
    requires Greeted(s.a) && Listening(s.b)
    requires s.b.snd.standby == [SequencedPack(0, Item(SYNACK_FLAGS, []))] && s.b.snd.dsn == 1 && s.b.rcv.next == 1 && s.b.cc.nflight == 0
    ensures CanReach(s, t) && Listening(t.b) && Answered(t.b) && t.b.rcv.next == 1
    ensures Feeding(t.a.(snd := t.a.snd.(standby := [])), HEADER_LEN, 2) && t.a.snd.standby == [SequencedPack(1, Item(ACK_FLAGS, []))]
    ensures t.a.rcv.wnd == CAP && t.a.snd.rwnd == CAP && t.b.snd.ignoreSeqSpace == [] && t.a.rcv.rbStandby == [] && t.a.snd.una <= 1
  {
    hide CheckSend, CheckRecv, Reaches, CanReach;
    var o := s.b.snd.standby[0];
    TransmitQueued(s.b, o, 0);
    var s1 := Apply(s, Transmit(B, Clear(0)));
    StartsHere(s);
    OneMore(s, s, Transmit(B, Clear(0)));
    var q := Stamp(o.pack, s.b.rcv);
    assert q in s1.wireBA;
    t := Apply(s1, Receive(A, [q], Clear(0)));
    OneMore(s, s1, Receive(A, [q], Clear(0)));
    ReceiveNext(s.a, q, 0);
    var c := ConsumeHead(TakenIn(s.a, q, 0));
    assert c.snd.standby == [SequencedPack(1, Item(ACK_FLAGS, []))];
    assert SwapBuffers(c.rcv) == c.rcv;
  }

  /** ACK out and in: the acceptor is established. */
  lemma Confirms(s: Sys) returns (t: Sys)
    requires Listening(s.b) && Answered(s.b) && s.b.rcv.next == 1
    requires Feeding(s.a.(snd := s.a.snd.(standby := [])), HEADER_LEN, 2) && s.a.snd.standby == [SequencedPack(1, Item(ACK_FLAGS, []))]
    requires s.a.rcv.wnd == CAP && s.a.snd.rwnd == CAP && s.b.snd.ignoreSeqSpace == [] && s.a.rcv.rbStandby == []
    ensures CanReach(s, t) && Fed(t, 2 * HEADER_LEN, 2, 0) && t.a.rcv.wnd == CAP && t.b.rcv.rb == []
    ensures Reported(s.b, t.b, 1) && t.b.rcv.rwndTimer == 0 && t.a.snd.rwnd == CAP && t.a.rcv.rbStandby == [] && t.a.snd.una == s.a.snd.una
  {
    hide CheckSend, CheckRecv, Reaches, CanReach;
    var o := s.a.snd.standby[0];
    TransmitQueued(s.a, o, 0);
    var s1 := Apply(s, Transmit(A, Clear(0)));
    StartsHere(s);
    OneMore(s, s, Transmit(A, Clear(0)));
    var p := Stamp(o.pack, s.a.rcv);
    assert p in s1.wireAB;
    t := Apply(s1, Receive(B, [p], Clear(0)));
    OneMore(s, s1, Receive(B, [p], Clear(0)));
    ReceiveNext(s.b, p, 0);
    TakenAnswered(s.b, p);
    var c := ConsumeHead(TakenIn(s.b, p, 0));
    assert SwapBuffers(c.rcv) == c.rcv;
  }

  /** The reader empties the ready buffer, the full stand-by buffer takes its place, and an update is wanted. */
  lemma WantsUpdate(s: Sys, d: nat) returns (t: Sys)
    requires Filling(s.b, d, 7 * MDU) && s.b.state == Established && s.b.rcv.rb != [] && s.b.rcv.rwndLess
    ensures CanReach(s, t) && t.a == s.a && t.b.rcv.rwndMore && t.b.rcv.rwndTimer == s.b.rcv.rwndTimer && t.b.state == Established
    ensures Filling(t.b, d, 0) && t.b.rcv.rb != [] && t.b.rcv.wnd == CAP
    ensures t.b.snd.ignoreSeqSpace == s.b.snd.ignoreSeqSpace && t.wireBA == s.wireBA
  {
    hide Reaches, CanReach;
    var step := Read(B, |s.b.rcv.rb|);
    var s1 := Apply(s, step);
    StartsHere(s);
    OneMore(s, s, step);
    assert s1.b.rcv.rb == [];
    t := Apply(s1, Receive(B, [], Clear(0)));
    OneMore(s, s1, Receive(B, [], Clear(0)));
    assert Probe(s1.b, 0) == s1.b;
  }

  /** A first update rides on a report; the next, a good second later, is a packet of its own. */
  lemma UpdateAlone(s: Sys, d: nat) returns (t: Sys)
    requires Answered(s.b) && s.b.state == Established && s.b.rcv.rwndMore && s.b.rcv.rwndTimer == 0 && s.b.snd.ignoreSeqSpace != []
    requires exists n: nat :: Feeding(s.a, n, d)
    ensures CanReach(s, t) && Quiet(t, B) && StandaloneWindowUpdate(t.b, 4000)
  {
    hide CheckSend, Reaches, CanReach;
    t := Apply(s, Transmit(B, Clear(2000)));
    StartsHere(s);
    OneMore(s, s, Transmit(B, Clear(2000)));
    QuietFlush(s.b, 2, 2000);
  }

  /** Prefix delivery fails: a run from the start of a connection, whose one step outside the domain of the theorems
      is a stand-alone window update, ends with the connector holding what is no prefix of what the acceptor wrote. */
  lemma PrefixDeliveryFails(g: Garbage, h: Garbage) returns (s: Sys, t: Sys, u: Sys)
    ensures Start(s) && CanReach(s, t) && StandaloneWindowUpdate(t.b, 4000) && Enabled(t, Transmit(B, Clear(4000)))
    ensures CanReach(Apply(t, Transmit(B, Clear(4000))), u)
    ensures !(Stream(u.a.rcv) <= u.b.snd.written)
  {
    hide CheckSend, CheckRecv, Reaches, CanReach, Feeding, Filling, Answered, Greeted, Listening, Inv, Apply, Stream, Quiet, StandaloneWindowUpdate;
    s := Sys(Active(0, CAP, CAP, g), Passive(0, CAP, CAP, h), {}, {});
    var s1 := Opens(s, g, h);
    var s2 := Answers(s1);
    var s3 := Confirms(s2);
    var s4 := FeedRound(s3, [0], 2 * HEADER_LEN, 2, 0);
    var s5 := FeedRounds(s4, 7, 2 * HEADER_LEN + 1 + HEADER_LEN, 3, 0);
    var s6 := WantsUpdate(s5, 10);
    FillingAnswered(s6.b, 10, 0);
    t := UpdateAlone(s6, 10);
    Then(s, s1, s2);
    Then(s, s2, s3);
    Then(s, s3, s4);
    Then(s, s4, s5);
    Then(s, s5, s6);
    Then(s, s6, t);
    var steps :| Reaches(s, steps, t);
    StartInv(s);
    RunInv(s, steps, t);
    QuietStream(t, B);
    u := DeliveryBreaks(t, B, 4000);
  }
}
