/** The WCP endpoint as an object that its steps update in place, proved equal to the functions of `WcpModel`.

    The structures of the source are fields; a step that puts packets on the wire returns them in order. */
module WcpEndpoint {
  import opened Arithmetic
  import opened Bytes
  import opened WcpModel

  /** Moving one place down the reorder list. */
  lemma InsertFurtherDown(l: seq<Pack>, p: Pack, it: nat)
    requires 0 < it <= |l| && p.seqNo < l[it - 1].seqNo
    ensures Insert(l[..it], p) + l[it..] == Insert(l[..it - 1], p) + l[it - 1..]
  {
    assert l[..it][..it - 1] == l[..it - 1];
    assert [l[it - 1]] + l[it..] == l[it - 1..];
    assert (Insert(l[..it - 1], p) + [l[it - 1]]) + l[it..] == Insert(l[..it - 1], p) + ([l[it - 1]] + l[it..]);
  }

  /** Cutting one packet's worth of acknowledgements off the list to report. */
  lemma SackControlsStep(pushed: seq<Control>, acks: seq<nat>, dsn: nat)
    requires acks != []
    ensures var n := Min(|acks|, ACKS_PER_PACK);
            pushed + SackControls(acks, dsn)
            == (pushed + [Control(ControlPack(dsn, SACK_FLAGS, acks[..n]), SACK_COPIES)]) + SackControls(acks[n..], dsn)
  {}

  class WCB {
    var state: State
    var errno: int
    var cc: Cc
    var snd: Snd
    var rcv: Rcv

    function View(): Wcb reads this { Wcb(state, errno, cc, snd, rcv) }

    constructor Connecting(now: nat, sbCapacity: nat, rbCapacity: nat, g: Garbage)
      ensures View() == Active(now, sbCapacity, rbCapacity, g)
    {
      var w := Init(Syning, now, sbCapacity, rbCapacity, g);
      state, errno, cc, snd, rcv := w.state, w.errno, w.cc, w.snd, w.rcv;
      new;
      PushHandshake(SYN_FLAGS);
    }

    constructor Accepting(now: nat, sbCapacity: nat, rbCapacity: nat, g: Garbage)
      ensures View() == Passive(now, sbCapacity, rbCapacity, g)
    {
      var w := Init(SynReceived, now, sbCapacity, rbCapacity, g);
      state, errno, cc, snd, rcv := w.state, w.errno, w.cc, w.snd, w.rcv;
    }

    /** SYN, SYNACK, SYNSYNACK. */
    method PushHandshake(flags: Flags)
      modifies this`snd
      ensures View() == WcpModel.PushHandshake(old(View()), flags)
    {
      var opack := SequencedPack(snd.dsn, Item(flags, []));
      snd := snd.(dsn := snd.dsn + 1, log := snd.log + [Item(flags, [])]);
      snd := snd.(standby := snd.standby + [opack]);
    }

    method PushControl(flags: Flags)
      modifies this`snd
      ensures View() == WcpModel.PushControl(old(View()), flags)
    {
      var opack := ControlPack(snd.dsn, flags, []);
      snd := snd.(ignoreSeqSpace := snd.ignoreSeqSpace + [Control(opack, 1)]);
    }

    method SACK()
      modifies this`snd, this`rcv
      ensures View() == Sack(old(View()))
    {
      ghost var all := snd.ignoreSeqSpace + SackControls(rcv.sackedTmp, snd.dsn);
      while rcv.sackedTmp != []
        invariant snd == old(snd).(ignoreSeqSpace := snd.ignoreSeqSpace)
        invariant rcv == old(rcv).(sackedTmp := rcv.sackedTmp)
        invariant snd.ignoreSeqSpace + SackControls(rcv.sackedTmp, snd.dsn) == all
        decreases |rcv.sackedTmp|
      {
        SackControlsStep(snd.ignoreSeqSpace, rcv.sackedTmp, snd.dsn);
        var wlen := if |rcv.sackedTmp| >= ACKS_PER_PACK then ACKS_PER_PACK else |rcv.sackedTmp|;
        var opack := ControlPack(snd.dsn, SACK_FLAGS, rcv.sackedTmp[..wlen]);
        rcv := rcv.(sackedTmp := rcv.sackedTmp[wlen..]);
        snd := snd.(ignoreSeqSpace := snd.ignoreSeqSpace + [Control(opack, SACK_COPIES)]);
      }
    }

    // ---- congestion control ----

    method CheckCwnd(size: nat, clock: nat)
      modifies this`cc
      ensures cc == WcpModel.CheckCwnd(old(cc), size, clock)
    {
      if cc.slowStart {
        cc := cc.(cwnd := cc.cwnd + size);
        if cc.cwnd >= cc.ssthresh {
          cc := cc.(congestAvoidance := true);
          cc := cc.(slowStart := false);
        }
      } else if cc.congestAvoidance {
        if Sub64(clock, cc.cwndTimer) >= cc.srtt {
          cc := cc.(cwnd := cc.cwnd + MTU);
          cc := cc.(cwndTimer := clock);
        }
      }
      cc := cc.(cwnd := Min(cc.cwnd, CWND_MAX));
    }

    method SampleRtt(o: OutPack, now: nat)
      modifies this`cc
      ensures cc == WcpModel.SampleRtt(old(cc), o, now)
    {
      if o.sentTimes == 1 {
        var rtt := Wrap32(now - o.sentTs);
        if !cc.firstRttDone {
          cc := cc.(firstRttDone := true, srtt := rtt, rttvar := rtt / 2);
        }
        var raw := Wrap32(cc.srtt + Max(RTO_GRANULARITY, Wrap32(2 * cc.rttvar)));
        cc := cc.(rto := raw);
        if cc.rto > RTO_MAX {
          cc := cc.(rto := RTO_MAX);
        } else if cc.rto < RTO_MIN {
          cc := cc.(rto := RTO_MIN);
        }
      }
    }

    method HandlePackAcked(o: OutPack, now: nat, clock: nat)
      modifies this`cc
      ensures cc == WcpModel.HandlePackAcked(old(cc), o, now, clock)
    {
      SampleRtt(o, now);
      cc := cc.(nflight := Wrap32(cc.nflight - TotalBytes(o)));
      CheckCwnd(TotalBytes(o), clock);
    }

    method AckFlight(i: nat, env: Env)
      requires i < |snd.flights|
      modifies this`cc, this`snd
      ensures View() == WcpModel.AckFlight(old(View()), i, env)
    {
      HandlePackAcked(snd.flights[i], env.now, env.clock(snd.flights[i].pack.seqNo));
      snd := snd.(flights := snd.flights[..i] + snd.flights[i + 1..]);
    }

    // ---- check_recv ----

    /** The position loop over the reorder list, from its back. */
    method InsertReceived(p: Pack)
      modifies this`rcv
      ensures rcv == old(rcv).(received := Insert(old(rcv.received), p))
    {
      var l := rcv.received;
      var it: nat := |l|;
      assert l[..it] == l;
      while it > 0
        invariant it <= |l| && rcv == old(rcv)
        invariant Insert(l, p) == Insert(l[..it], p) + l[it..]
      {
        if l[it - 1].seqNo == p.seqNo {
          assert l[..it] + l[it..] == l;
          rcv := rcv.(received := l);
          return;
        } else if p.seqNo < l[it - 1].seqNo {
          InsertFurtherDown(l, p, it);
          it := it - 1;
        } else {
          break;
        }
      }
      rcv := rcv.(received := l[..it] + [p] + l[it..]);
    }

    method ReceiveBatch(batch: seq<Pack>) returns (acked: seq<nat>)
      modifies this`snd, this`rcv
      ensures Arrival(View(), acked) == Arrivals(old(View()), batch)
    {
      acked := [];
      var i := 0;
      assert batch[..0] == [];
      while i < |batch|
        invariant i <= |batch|
        invariant state == old(state) && errno == old(errno) && cc == old(cc)
        invariant Arrival(View(), acked) == Arrivals(old(View()), batch[..i])
      {
        ghost var before := Arrival(View(), acked);
        assert batch[..i + 1][..i] == batch[..i];
        var pack := batch[i];
        if snd.una < pack.ack {
          snd := snd.(una := pack.ack, unaUpdate := true);
          snd := snd.(rwnd := pack.wnd);
        }
        if pack.flags.wnd {
          snd := snd.(rwnd := pack.wnd);
        }
        if pack.flags.sack {
          acked := acked + pack.acks;
        } else if pack.flags.keepAlive {
          PushControl(KEEP_ALIVE_REPLY_FLAGS);
        } else if pack.flags.keepAliveReply {
        } else {
          rcv := rcv.(sackedTmp := rcv.sackedTmp + [pack.seqNo]);
          if pack.seqNo >= rcv.next {
            InsertReceived(pack);
          }
        }
        assert Arrival(View(), acked) == Arrive(before, pack);
        i := i + 1;
      }
      assert batch[..i] == batch;
    }

    method AbsorbAcks(acked: seq<nat>, env: Env)
      modifies this`cc, this`snd
      ensures View() == WcpModel.AbsorbAcks(old(View()), acked, env)
    {
      hide WcpModel.AbsorbAck;
      var k := 0;
      assert acked[..0] == [];
      while k < |acked|
        invariant k <= |acked|
        invariant state == old(state) && errno == old(errno) && rcv == old(rcv)
        invariant View() == WcpModel.AbsorbAcks(old(View()), acked[..k], env)
      {
        assert acked[..k + 1][..k] == acked[..k];
        AbsorbAck(acked[k], env);
        k := k + 1;
      }
      assert acked[..k] == acked;
    }

    method AbsorbAck(ack: nat, env: Env)
      modifies this`cc, this`snd
      ensures View() == WcpModel.AbsorbAck(old(View()), ack, env)
    {
      if ack < snd.una { return; }
      if ack > cc.biggestAck {
        cc := cc.(biggestAck := ack, biggestSackUpdate := true);
      }
      var otf := 0;
      while otf < |snd.flights| && snd.flights[otf].pack.seqNo != ack
        invariant otf <= |snd.flights|
        invariant forall j :: 0 <= j < otf ==> snd.flights[j].pack.seqNo != ack
      {
        otf := otf + 1;
      }
      assert otf == FindFlight(snd.flights, ack);
      if otf < |snd.flights| {
        AckFlight(otf, env);
      }
      RecoverFast(ack);
    }

    method RecoverFast(ack: nat)
      modifies this`cc
      ensures cc == FastRecovery(old(cc), ack, snd.una)
    {
      if cc.lostDetected && ack > cc.lostBiggestSeq {
        cc := cc.(lostBiggerTimes := (cc.lostBiggerTimes + 1) % 256);
        if cc.lostBiggerTimes >= 1 && snd.una > cc.lostBiggestSeq {
          cc := cc.(cwnd := Min(Wrap32(cc.cwnd + cc.lostCompensation), CWND_MAX));
          var newSsthresh := Min(cc.cwnd, SSTHRESH_MAX);
          cc := cc.(ssthresh := Max(newSsthresh, cc.ssthresh));
          cc := cc.(lostCompensation := 0, fastRecovered := true, lostDetected := false);
        }
      }
    }

    method TakeReceived()
      requires rcv.received != []
      modifies this`rcv
      ensures rcv == TakeHead(old(rcv))
    {
      var data := rcv.received[0].data;
      if |data| > 0 {
        rcv := rcv.(rbStandby := rcv.rbStandby + data);
        rcv := rcv.(wnd := Wrap32(rcv.rbCapacity - |rcv.rbStandby|));
        if rcv.wnd <= MTU {
          rcv := rcv.(rwndLess := true);
        } else {
          rcv := rcv.(rwndLess := false, rwndMore := false);
        }
      }
      rcv := rcv.(next := rcv.next + 1);
      rcv := rcv.(received := rcv.received[1..]);
    }

    method ConsumeHead() returns (aborted: bool)
      requires rcv.received != []
      modifies this
      ensures View() == WcpModel.ConsumeHead(old(View()))
      ensures aborted == Aborts(old(View()))
    {
      var inpack := rcv.received[0];
      TakeReceived();
      aborted := false;
      if inpack.flags.syn {
        if state == SynReceived {
          PushHandshake(SYNACK_FLAGS);
        } else if state == SynSent {
          PushHandshake(ACK_FLAGS);
        } else {
          errno := E_ECONNABORTED;
          state := Closed;
          return true;
        }
      }
      if inpack.flags.ack {
        if state == SynSent || state == SynReceived {
          state := Established;
        }
      }
    }

    method Deliver()
      modifies this
      ensures View() == WcpModel.Deliver(old(View()))
    {
      while rcv.received != [] && rcv.received[0].seqNo == rcv.next
        invariant WcpModel.Deliver(View()) == WcpModel.Deliver(old(View()))
        decreases |rcv.received|
      {
        var inpack := rcv.received[0];
        if |inpack.data| > 0 && rcv.rbCapacity - |rcv.rbStandby| < |inpack.data| {
          rcv := rcv.(rwndLess := true);
          return;
        }
        var aborted := ConsumeHead();
        if aborted { return; }
      }
    }

    method CheckRecv(batch: seq<Pack>, env: Env)
      modifies this
      ensures View() == WcpModel.CheckRecv(old(View()), batch, env)
    {
      if |batch| == 0 {
        if rcv.keepProbes >= KEEPALIVE_PROBES {
          rcv := rcv.(recvError := true);
          errno := E_ETIMEOUT;
        } else if Sub64(env.now, rcv.keepTimer) / 1000 >= KEEPALIVE_IDLE + KEEPALIVE_INTERVAL * rcv.keepProbes {
          PushControl(KEEP_ALIVE_FLAGS);
          rcv := rcv.(keepProbes := rcv.keepProbes + 1);
        }
        assert View() == Probe(old(View()), env.now);
      } else {
        rcv := rcv.(keepTimer := env.now, keepProbes := 0);
        var acked := ReceiveBatch(batch);
        ghost var arrived := View();
        if |rcv.sackedTmp| > 0 {
          SACK();
        } else {
          assert snd.ignoreSeqSpace + [] == snd.ignoreSeqSpace;
        }
        assert View() == Sack(arrived);
        AbsorbAcks(acked, env);
        Deliver();
      }
      SwapBuffers();
    }

    method SwapBuffers()
      modifies this`rcv
      ensures rcv == WcpModel.SwapBuffers(old(rcv))
    {
      if |rcv.rb| == 0 && |rcv.rbStandby| != 0 {
        rcv := rcv.(rb := rcv.rbStandby, rbStandby := rcv.rb);
        if rcv.rwndLess {
          rcv := rcv.(rwndMore := true);
          rcv := rcv.(wnd := rcv.rbCapacity - |rcv.rbStandby|);
        }
      }
    }

    // ---- check_flights ----

    method FailSend(r: SendResult)
      requires !r.Sent?
      modifies this`errno, this`snd
      ensures View() == WcpModel.FailSend(old(View()), r)
    {
      if !r.Block? {
        errno := r.code;
        snd := snd.(sendError := true);
      }
    }

    method SweepFlights(env: Env) returns (out: seq<Pack>, lost: nat, maxSent: nat)
      modifies this
      ensures Sweep(View(), out, lost, maxSent) == SweepFrom(Sweep(old(View()), [], 0, 0), 0, env)
    {
      out, lost, maxSent := [], 0, 0;
      var it := 0;
      while it < |snd.flights|
        invariant it <= |snd.flights|
        invariant SweepFrom(Sweep(View(), out, lost, maxSent), it, env)
               == SweepFrom(Sweep(old(View()), [], 0, 0), 0, env)
        decreases |snd.flights| - it
      {
        var o := snd.flights[it];
        if snd.unaUpdate && o.pack.seqNo < snd.una {
          AckFlight(it, env);
        } else if !Retransmits(cc, o, env.now) {
          it := it + 1;
        } else {
          lost, maxSent := NoteLoss(o, env.now, out, lost, maxSent);
          var p := Stamp(o.pack, rcv);
          if env.net(|out|) != Sent {
            snd := snd.(flights := snd.flights[it := o.(pack := p)]);
            FailSend(env.net(|out|));
            return;
          }
          snd := snd.(flights := snd.flights[it := OutPack(p, env.now, Wrap32(o.sentTimes + 1))]);
          out := out + [p];
          it := it + 1;
        }
      }
    }

    method NoteLoss(o: OutPack, now: nat, ghost out: seq<Pack>, lost: nat, maxSent: nat)
      returns (lost': nat, maxSent': nat)
      modifies this`cc
      ensures Sweep(View(), out, lost', maxSent') == Judge(Sweep(old(View()), out, lost, maxSent), o, now)
    {
      lost', maxSent' := lost, maxSent;
      if RtoExpired(cc, o, now) {
        lost' := lost' + 1;
        if !cc.lostDetected && o.pack.seqNo > cc.lostBiggestSeq {
          cc := cc.(lostBiggestSeq := o.pack.seqNo);
        }
        if o.sentTimes > maxSent' {
          maxSent' := o.sentTimes;
        }
      }
    }

    method BackOff(now: nat)
      modifies this`cc
      ensures View() == WcpModel.BackOff(old(View()), now)
    {
      cc := cc.(rto := Min(Wrap32(cc.rto / 2 + cc.rto), RTO_MAX));
      if state == Established && Sub64(now, cc.lostTimer) >= Max(cc.srtt, 30) {
        cc := cc.(lostTimer := now, lostBiggerTimes := 0);
        var halfFlightMax := cc.nflightMax / 2;
        var newSsthresh := Max(halfFlightMax, SSTHRESH_MIN);
        cc := cc.(lostCompensation := Wrap32(newSsthresh - cc.nflight / 2));
        cc := cc.(ssthresh := Min(newSsthresh, cc.ssthresh));
        cc := cc.(nflightMax := Max(cc.nflightMax / 2, cc.nflight));
        cc := cc.(slowStart := true, lostDetected := true);
        cc := cc.(congestAvoidance := false);
        cc := cc.(cwnd := CWND_AFTER_LOSS);
      }
    }

    method CheckFlights(env: Env) returns (out: seq<Pack>)
      modifies this
      ensures SendStep(View(), out, false) == WcpModel.CheckFlights(old(View()), env)
    {
      if !(snd.unaUpdate || cc.fastRecovered || cc.biggestSackUpdate) && env.now < snd.lastRtoTimer + RTO_GRANULARITY {
        return [];
      }
      snd := snd.(lastRtoTimer := env.now);
      var lost, maxSent;
      out, lost, maxSent := SweepFlights(env);
      cc := cc.(biggestSackUpdate := false, fastRecovered := false);
      snd := snd.(unaUpdate := false);
      if lost >= LOST_THRESHOLD || maxSent >= 5 {
        BackOff(env.now);
      }
    }

    // ---- check_send ----

    method UpdateWindow(now: nat)
      modifies this`snd, this`rcv
      ensures View() == WcpModel.UpdateWindow(old(View()), now)
    {
      if WindowUpdateDue(View(), now) {
        if |snd.ignoreSeqSpace| == 0 {
          PushControl(WND_FLAGS);
        } else {
          var c := snd.ignoreSeqSpace[0];
          c := c.(pack := c.pack.(flags := c.pack.flags.(wnd := true)));
          snd := snd.(ignoreSeqSpace := [c] + snd.ignoreSeqSpace[1..]);
        }
        rcv := rcv.(rwndTimer := now);
      }
    }

    method FlushControl(env: Env) returns (out: seq<Pack>, stop: bool)
      modifies this`errno, this`snd
      ensures SendStep(View(), out, stop) == WcpModel.FlushControl(SendStep(old(View()), [], false), env)
    {
      out, stop := [], false;
      while |snd.ignoreSeqSpace| != 0
        invariant state == old(state) && cc == old(cc) && rcv == old(rcv)
        invariant WcpModel.FlushControl(SendStep(View(), out, false), env)
               == WcpModel.FlushControl(SendStep(old(View()), [], false), env)
        decreases CopiesLeft(snd.ignoreSeqSpace)
      {
        var c := snd.ignoreSeqSpace[0];
        if c.copies == 0 {
          snd := snd.(ignoreSeqSpace := snd.ignoreSeqSpace[1..]);
        } else {
          var p := Stamp(c.pack, rcv);
          if env.net(|out|) != Sent {
            snd := snd.(ignoreSeqSpace := [Control(p, c.copies)] + snd.ignoreSeqSpace[1..]);
            FailSend(env.net(|out|));
            stop := true;
            return;
          }
          snd := snd.(ignoreSeqSpace := [Control(p, c.copies - 1)] + snd.ignoreSeqSpace[1..]);
          out := out + [p];
        }
      }
    }

    /** `held` tells whether every assertion on the way held. */
    method PumpSending(sent: seq<Pack>, env: Env) returns (out: seq<Pack>, stop: bool, held: bool)
      modifies this
      ensures SendStep(View(), out, stop) == WcpModel.PumpSending(SendStep(old(View()), sent, false), env)
      ensures held == PumpAsserts(SendStep(old(View()), sent, false), env)
    {
      out, stop, held := sent, false, true;
      while |snd.sending| != 0
        invariant WcpModel.PumpSending(SendStep(View(), out, false), env)
               == WcpModel.PumpSending(SendStep(old(View()), sent, false), env)
        invariant (held && PumpAsserts(SendStep(View(), out, false), env)) == PumpAsserts(SendStep(old(View()), sent, false), env)
        decreases |snd.sending|
      {
        var o := snd.sending[0];
        var ntotalBytes := |o.pack.data| + HEADER_LEN;
        if ntotalBytes + cc.nflight >= Min(cc.cwnd, snd.rwnd) {
          stop := true;
          return;
        }
        held := held && o.pack.seqNo == snd.next && o.pack.seqNo >= snd.una;
        if env.net(|out|) != Sent {
          snd := snd.(sending := [o.(pack := Stamp(o.pack, rcv))] + snd.sending[1..]);
          FailSend(env.net(|out|));
          stop := true;
          return;
        }
        out := out + [Stamp(o.pack, rcv)];
        var sound := AssertLaunch();
        LaunchHead(env.now);
        held := held && sound;
      }
    }

    /** The two assertions about a packet that went out. */
    method AssertLaunch() returns (held: bool)
      requires snd.sending != []
      ensures held == AssertsAfter(View())
    {
      var flags := snd.sending[0].pack.flags;
      held := !(flags.sack || flags.keepAlive || flags.keepAliveReply);
      if flags.syn {
        held := held && (state == Syning || state == SynReceived);
      }
    }

    method LaunchHead(now: nat)
      requires snd.sending != []
      modifies this
      ensures View() == Launch(old(View()), now)
    {
      var o := snd.sending[0];
      var p := Stamp(o.pack, rcv);
      assert p.flags == o.pack.flags;
      hide Stamp, Max, SequencedPack, Wrap32;
      CountFlight(|o.pack.data| + HEADER_LEN);
      snd := snd.(flights := snd.flights + [OutPack(p, now, 1)], next := snd.next + 1, sending := snd.sending[1..]);
      if p.flags.syn && state == Syning {
        state := SynSent;
      }
    }

    method CountFlight(ntotalBytes: nat)
      modifies this`cc
      ensures var n := old(cc.nflight) + ntotalBytes;
              cc == old(cc).(nflight := n, nflightMax := Max(old(cc.nflightMax), n))
    {
      cc := cc.(nflight := cc.nflight + ntotalBytes);
      if cc.nflight > cc.nflightMax {
        cc := cc.(nflightMax := cc.nflight);
      }
    }

    method Refill()
      modifies this`snd
      ensures View() == WcpModel.Refill(old(View()))
    {
      ghost var w1 := DrainStandby(View());
      while |snd.standby| != 0
        invariant DrainStandby(View()) == w1
        decreases |snd.standby|
      {
        assert snd.sending + snd.standby == (snd.sending + [snd.standby[0]]) + snd.standby[1..];
        snd := snd.(sending := snd.sending + [snd.standby[0]], standby := snd.standby[1..]);
      }
      assert snd.sending + snd.standby == snd.sending;
      assert View() == w1;
      var nmaxTryBytes: nat := Wrap32(cc.cwnd - cc.nflight);
      if nmaxTryBytes > MTU {
        while |snd.sb| > 0 && nmaxTryBytes > 0
          invariant state == old(state) && errno == old(errno) && cc == old(cc) && rcv == old(rcv)
          invariant Segments(View(), nmaxTryBytes) == WcpModel.Refill(old(View()))
          decreases |snd.sb|
        {
          var nread := Min(|snd.sb|, MDU);
          var opack := SequencedPack(snd.dsn, Item(DATA_FLAGS, snd.sb[..nread]));
          snd := snd.(dsn := snd.dsn + 1, log := snd.log + [ItemOf(opack.pack)]);
          snd := snd.(sb := snd.sb[nread..]);
          snd := snd.(sending := snd.sending + [opack]);
          nmaxTryBytes := Wrap32(nmaxTryBytes - nread);
        }
      }
    }

    /** `held` tells whether every assertion on the way held. */
    method CheckSend(env: Env) returns (out: seq<Pack>, held: bool)
      modifies this
      ensures View() == WcpModel.CheckSend(old(View()), env).w
      ensures out == WcpModel.CheckSend(old(View()), env).out
      ensures held == SendAsserts(old(View()), env)
    {
      if snd.sendError { return [], true; }
      UpdateWindow(env.now);
      var stop;
      out, stop := FlushControl(env);
      held := true;
      if stop { return; }
      ghost var s0 := SendStep(View(), out, false);
      var again := true;
      while again
        invariant again ==> SendLoop(SendStep(View(), out, false), env) == SendLoop(s0, env)
        invariant !again ==> SendStep(View(), out, false) == SendLoop(s0, env)
        invariant (held && (again ==> SendLoopAsserts(SendStep(View(), out, false), env))) == SendLoopAsserts(s0, env)
        decreases again, Backlog(View())
      {
        ghost var before := SendStep(View(), out, false);
        PumpKeepsBacklog(before, env);
        var sound;
        out, stop, sound := PumpSending(out, env);
        held := held && sound;
        if stop { return; }
        RefillShrinks(View());
        Refill();
        again := |snd.sending| != 0;
      }
    }

    // ---- the application's calls ----

    method Send(bytes: seq<u8>) returns (n: int)
      requires bytes != []
      modifies this`snd
      ensures View() == AppSend(old(View()), bytes) && n == SendResultOf(old(View()), |bytes|)
      ensures old(snd.sendError) ==> View() == old(View()) && n == if errno != 0 then errno else E_ECONNABORTED
      ensures !old(snd.sendError) && old(|snd.sb| <= snd.sbCapacity) ==>
                var room := old(snd.sbCapacity - |snd.sb|);
                if room < |bytes| && room < 2 * MDU then n == -1 && View() == old(View())
                else
                  && n == Min(|bytes|, room) && snd.sb == old(snd.sb) + bytes[..n] && snd.written == old(snd.written) + bytes[..n]
                  && snd == old(snd).(sb := snd.sb, written := snd.written)
    {
      if snd.sendError {
        if errno != 0 { return errno; }
        return E_ECONNABORTED;
      }
      var left := snd.sbCapacity - |snd.sb|;
      if left < |bytes| && left < 2 * MDU {
        return -1;
      }
      n := if left > |bytes| then |bytes| else left;
      snd := snd.(sb := snd.sb + bytes[..n], written := snd.written + bytes[..n]);
    }

    /** The non-blocking part of `recv`: what is ready, at most `size` bytes of it. */
    method Recv(size: nat) returns (bytes: seq<u8>)
      requires size > 0
      modifies this`rcv
      ensures View() == AppRecv(old(View()), size)
      ensures rcv.delivered == old(rcv.delivered) + bytes && old(rcv.rb) == bytes + rcv.rb
      ensures bytes == [] ==> old(rcv.rb) == []
    {
      var nbytes := Min(|rcv.rb|, size);
      bytes := rcv.rb[..nbytes];
      rcv := rcv.(rb := rcv.rb[nbytes..], delivered := rcv.delivered + bytes);
    }
  }
}
