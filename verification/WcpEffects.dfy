/** What each call on an endpoint does, told in its own terms: which flights an acknowledgement takes out, which ones
    are sent again, how much the window lets out, how much of a write is taken. */
module WcpEffects {
  import opened Arithmetic
  import opened Bytes
  import opened WcpModel
  import opened WcpInvariant
  import opened WcpSending

  // ---- a fresh endpoint ----

  /** What `init` sets: a window of ten packets in slow start, a timeout of a second, nothing numbered, sent or received. */
  lemma FreshEndpoint(state: State, now: nat, sbCapacity: nat, rbCapacity: nat, g: Garbage)
    ensures var w := Init(state, now, sbCapacity, rbCapacity, g);
            && w.state == state && w.errno == 0
            && w.cc.rto == 1000 && w.cc.cwnd == 10 * 1400 && w.cc.ssthresh == 2 * 1024 * 1024 && w.cc.slowStart && !w.cc.congestAvoidance
            && !w.cc.lostDetected && !w.cc.fastRecovered && !w.cc.firstRttDone && w.cc.nflight == w.cc.nflightMax == 0 && w.cc.biggestAck == 0
            && w.snd.dsn == w.snd.next == w.snd.una == 0 && w.snd.rwnd == 64 * 1024 && !w.snd.sendError && !w.snd.unaUpdate
            && w.snd.sending == w.snd.standby == w.snd.flights == [] && w.snd.ignoreSeqSpace == [] && w.snd.sb == []
            && w.rcv.next == 0 && w.rcv.wnd == w.rcv.rbCapacity == rbCapacity && w.rcv.received == [] && w.rcv.rb == w.rcv.rbStandby == []
            && !w.rcv.rwndLess && !w.rcv.rwndMore && w.rcv.keepTimer == now && w.rcv.keepProbes == 0 && !w.rcv.recvError
    ensures MTU == 1400 && MDU == 1384 && CWND_MAX == 8 * 1024 * 1024 && RTO_MIN == 100 && RTO_MAX == 60_000
  {}

  // ---- a write ----

  /** What is returned is what was queued: an error that is pending, nothing for want of room, or the number of bytes
      that fit, which are the first ones. */
  lemma WriteTaken(w: Wcb, bytes: seq<u8>)
    requires |w.snd.sb| <= w.snd.sbCapacity && bytes != []
    ensures var room, w1, n := w.snd.sbCapacity - |w.snd.sb|, AppSend(w, bytes), SendResultOf(w, |bytes|);
            if w.snd.sendError then w1 == w && n == if w.errno != 0 then w.errno else E_ECONNABORTED
            else if room < |bytes| && room < 2 * MDU then w1 == w && n == -1
            else
              && n == Min(|bytes|, room)
              && w1 == w.(snd := w.snd.(sb := w.snd.sb + bytes[..n], written := w.snd.written + bytes[..n]))
  {}

  // ---- the window ----

  /** From `w` to `w1` the windows stayed, and if anything went out there is still room in both. */
  predicate Within(w: Wcb, w1: Wcb)
  {
    && w1.cc.cwnd == w.cc.cwnd && w1.snd.rwnd == w.snd.rwnd
    && (w1.snd.next != w.snd.next || w1.cc.nflight != w.cc.nflight ==> w1.cc.nflight < Min(w1.cc.cwnd, w1.snd.rwnd))
  }

  lemma {:induction false} PumpRespectsWindow(s: SendStep, env: Env)
    ensures Within(s.w, PumpSending(s, env).w)
    decreases |s.w.snd.sending|
  {
    if s.w.snd.sending != [] && !Congested(s.w) && env.net(|s.out|) == Sent {
      PumpRespectsWindow(SendStep(Launch(s.w, env.now), s.out + [Stamp(s.w.snd.sending[0].pack, s.w.rcv)], false), env);
    }
  }

  /** Cutting and queueing touches nothing else. */
  predicate OnlyQueues(w: Wcb, w1: Wcb)
  {
    w1 == w.(snd := w.snd.(dsn := w1.snd.dsn, sb := w1.snd.sb, log := w1.snd.log, sending := w1.snd.sending, standby := w1.snd.standby))
  }

  lemma {:induction false} SegmentsLeave(w: Wcb, tryBytes: nat)
    ensures OnlyQueues(w, Segments(w, tryBytes))
    decreases |w.snd.sb|
  {
    hide Wrap32;
    if w.snd.sb != [] && tryBytes != 0 { SegmentsLeave(Segment(w), Wrap32(tryBytes - Min(|w.snd.sb|, MDU))); }
  }

  lemma RefillLeaves(w: Wcb)
    ensures OnlyQueues(w, Refill(w))
  {
    var w1 := DrainStandby(w);
    SegmentsLeave(w1, Wrap32(w1.cc.cwnd - w1.cc.nflight));
  }

  lemma {:induction false} SendLoopRespectsWindow(s: SendStep, env: Env)
    ensures Within(s.w, SendLoop(s, env).w)
    decreases Backlog(s.w)
  {
    hide PumpSending, Refill;
    var s1 := PumpSending(s, env);
    PumpRespectsWindow(s, env);
    if !s1.stop {
      PumpKeepsBacklog(s, env);
      RefillShrinks(s1.w);
      RefillLeaves(s1.w);
      if Refill(s1.w).snd.sending != [] { SendLoopRespectsWindow(s1.(w := Refill(s1.w)), env); }
    }
  }

  lemma {:induction false} FlushLeaves(s: SendStep, env: Env)
    ensures var w, w1 := s.w, FlushControl(s, env).w;
            && w1.cc == w.cc && w1.rcv == w.rcv && w1.state == w.state
            && w1.snd == w.snd.(ignoreSeqSpace := w1.snd.ignoreSeqSpace, sendError := w1.snd.sendError)
    decreases CopiesLeft(s.w.snd.ignoreSeqSpace)
  {
    if s.w.snd.ignoreSeqSpace != [] {
      var c := s.w.snd.ignoreSeqSpace[0];
      if c.copies == 0 {
        FlushLeaves(s.(w := PopFront(s.w)), env);
      } else if env.net(|s.out|) == Sent {
        var p := Stamp(c.pack, s.w.rcv);
        FlushLeaves(SendStep(SetFront(s.w, p, c.copies - 1), s.out + [p], false), env);
      }
    }
  }

  /** The send loop never puts as much on the way as the smaller of the two windows, the congestion window and the one
      the peer advertised; it changes neither. */
  lemma WindowRespected(w: Wcb, env: Env)
    ensures var w1 := CheckSend(w, env).w;
            && w1.cc.cwnd == w.cc.cwnd && w1.snd.rwnd == w.snd.rwnd
            && (w1.snd.next != w.snd.next || w1.cc.nflight != w.cc.nflight ==> w1.cc.nflight < Min(w1.cc.cwnd, w1.snd.rwnd))
  {
    hide SendLoop, FlushControl;
    if !w.snd.sendError {
      var s0 := SendStep(UpdateWindow(w, env.now), [], false);
      FlushLeaves(s0, env);
      SendLoopRespectsWindow(FlushControl(s0, env), env);
    }
  }

  // ---- a network that takes every packet ----

  ghost predicate TakesAll(env: Env) { forall k :: env.net(k) == Sent }

  /** Nothing is left for want of trying: what is queued does not fit the smaller window, and bytes are buffered only
      with less than a packet's room. */
  predicate Exhausted(w: Wcb)
  {
    if w.snd.sending != [] then TotalBytes(w.snd.sending[0]) + w.cc.nflight >= Min(w.cc.cwnd, w.snd.rwnd)
    else w.snd.standby == [] && (w.snd.sb == [] || Wrap32(w.cc.cwnd - w.cc.nflight) <= MTU)
  }

  lemma {:induction false} PumpUsesWindow(s: SendStep, env: Env)
    requires TakesAll(env) && !s.stop
    ensures var s1 := PumpSending(s, env);
            if s1.stop then s1.w.snd.sending != [] && Exhausted(s1.w) else s1.w.snd.sending == []
    decreases |s.w.snd.sending|
  {
    if s.w.snd.sending != [] && !Congested(s.w) {
      PumpUsesWindow(SendStep(Launch(s.w, env.now), s.out + [Stamp(s.w.snd.sending[0].pack, s.w.rcv)], false), env);
    }
  }

  lemma {:induction false} SegmentsTakeAll(w: Wcb, tryBytes: nat)
    ensures Segments(w, tryBytes).snd.sending == w.snd.sending ==> w.snd.sb == [] || tryBytes == 0
    ensures |Segments(w, tryBytes).snd.sending| >= |w.snd.sending|
    decreases |w.snd.sb|
  {
    if w.snd.sb != [] && tryBytes != 0 { SegmentsTakeAll(Segment(w), Wrap32(tryBytes - Min(|w.snd.sb|, MDU))); }
  }

  lemma RefillExhausted(w: Wcb)
    requires w.snd.sending == [] && Refill(w).snd.sending == []
    ensures Exhausted(Refill(w))
  {
    var w1 := DrainStandby(w);
    var tryBytes := Wrap32(w1.cc.cwnd - w1.cc.nflight);
    SegmentsTakeAll(w1, tryBytes);
    if tryBytes > MTU { assert Segments(w1, tryBytes).snd.sending == w1.snd.sending; }
  }

  lemma {:induction false} SendLoopUsesWindow(s: SendStep, env: Env)
    requires TakesAll(env) && !s.stop
    ensures Exhausted(SendLoop(s, env).w)
    decreases Backlog(s.w)
  {
    hide PumpSending, Refill, Exhausted;
    var s1 := PumpSending(s, env);
    PumpUsesWindow(s, env);
    PumpKeepsBacklog(s, env);
    if !s1.stop {
      RefillShrinks(s1.w);
      if Refill(s1.w).snd.sending == [] {
        RefillExhausted(s1.w);
      } else {
        SendLoopUsesWindow(s1.(w := Refill(s1.w)), env);
      }
    }
  }

  /** `n` times the same packet. */
  function Times(p: Pack, n: nat): seq<Pack> { if n == 0 then [] else [p] + Times(p, n - 1) }

  /** The packets a queue of control packets stands for, stamped. */
  function Stamped(q: seq<Control>, r: Rcv): seq<Pack>
  {
    if q == [] then [] else Times(Stamp(q[0].pack, r), q[0].copies) + Stamped(q[1..], r)
  }

  lemma StampedHead(c: Control, rest: seq<Control>, r: Rcv)
    ensures Stamped([c] + rest, r) == Times(Stamp(c.pack, r), c.copies) + Stamped(rest, r)
  {
    assert ([c] + rest)[1..] == rest;
  }

  lemma StampedOnce(q: seq<Control>, r: Rcv)
    requires q != [] && q[0].copies > 0
    ensures var p := Stamp(q[0].pack, r); Stamped(q, r) == [p] + Stamped([Control(p, q[0].copies - 1)] + q[1..], r)
  {
    hide Times, Stamped;
    var p, n := Stamp(q[0].pack, r), q[0].copies;
    assert Stamp(p, r) == p && q == [q[0]] + q[1..];
    StampedHead(q[0], q[1..], r);
    StampedHead(Control(p, n - 1), q[1..], r);
    OneTime(p, n);
    Associative([p], Times(p, n - 1), Stamped(q[1..], r));
  }

  lemma OneTime(p: Pack, n: nat)
    requires n > 0
    ensures Times(p, n) == [p] + Times(p, n - 1)
  {}

  lemma Associative(a: seq<Pack>, b: seq<Pack>, c: seq<Pack>)
    ensures (a + b) + c == a + (b + c)
  {}

  /** The number of packets a queue stands for. */
  function Packets(q: seq<Control>): nat { if q == [] then 0 else q[0].copies + Packets(q[1..]) }

  lemma PacketsHead(c: Control, rest: seq<Control>)
    ensures Packets([c] + rest) == c.copies + Packets(rest)
  {
    assert ([c] + rest)[1..] == rest;
  }

  /** A network that takes as many packets takes the whole queue. */
  lemma {:induction false} FlushSendsAll(s: SendStep, env: Env)
    requires !s.stop && forall k :: |s.out| <= k < |s.out| + Packets(s.w.snd.ignoreSeqSpace) ==> env.net(k) == Sent
    ensures var r, q := FlushControl(s, env), s.w.snd.ignoreSeqSpace;
            && !r.stop && r.w.snd.ignoreSeqSpace == []
            && r.out == s.out + Stamped(q, s.w.rcv) && |r.out| == |s.out| + Packets(q)
    decreases CopiesLeft(s.w.snd.ignoreSeqSpace)
  {
    hide Times, Stamped, Packets, Stamp;
    var q := s.w.snd.ignoreSeqSpace;
    if q == [] {
      EmptyQueue(s.out, s.w.rcv);
    } else if q[0].copies == 0 {
      SpentFront(q, s.w.rcv);
      FlushSendsAll(s.(w := PopFront(s.w)), env);
    } else {
      var s1 := OneFlushed(s);
      FlushSendsAll(s1, env);
      assert FlushControl(s, env) == FlushControl(s1, env);
    }
  }

  lemma EmptyQueue(out: seq<Pack>, r: Rcv)
    ensures out + Stamped([], r) == out && Packets([]) == 0
  {}

  lemma SpentFront(q: seq<Control>, r: Rcv)
    requires q != [] && q[0].copies == 0
    ensures Stamped(q[1..], r) == Stamped(q, r) && Packets(q[1..]) == Packets(q)
  {
    assert Times(Stamp(q[0].pack, r), 0) == [];
  }

  /** One copy of the packet at the front goes out. */
  lemma OneFlushed(s: SendStep) returns (s1: SendStep)
    requires s.w.snd.ignoreSeqSpace != [] && s.w.snd.ignoreSeqSpace[0].copies > 0
    ensures var c := s.w.snd.ignoreSeqSpace[0];
            var p := Stamp(c.pack, s.w.rcv);
            s1 == SendStep(SetFront(s.w, p, c.copies - 1), s.out + [p], false)
    ensures var q, q1 := s.w.snd.ignoreSeqSpace, s1.w.snd.ignoreSeqSpace;
            && |s1.out| + Packets(q1) == |s.out| + Packets(q)
            && s1.out + Stamped(q1, s.w.rcv) == s.out + Stamped(q, s.w.rcv)
  {
    hide Times, Stamped, Packets, Stamp;
    var q, c := s.w.snd.ignoreSeqSpace, s.w.snd.ignoreSeqSpace[0];
    var p := Stamp(c.pack, s.w.rcv);
    s1 := SendStep(SetFront(s.w, p, c.copies - 1), s.out + [p], false);
    assert q == [c] + q[1..];
    PacketsHead(c, q[1..]);
    PacketsHead(Control(p, c.copies - 1), q[1..]);
    StampedOnce(q, s.w.rcv);
    Associative(s.out, [p], Stamped(s1.w.snd.ignoreSeqSpace, s.w.rcv));
  }

  /** The converse: on a network that takes every packet, what is left is what the smaller window holds back. */
  lemma WindowUsed(w: Wcb, env: Env)
    requires TakesAll(env) && !w.snd.sendError
    ensures Exhausted(CheckSend(w, env).w)
  {
    hide SendLoop, FlushControl, Exhausted;
    var s0 := SendStep(UpdateWindow(w, env.now), [], false);
    FlushSendsAll(s0, env);
    SendLoopUsesWindow(FlushControl(s0, env), env);
  }

  // ---- what is cut off the send buffer, and what is counted ----

  /** How many bytes one refill cuts: the limit if it is a number of full packets, and otherwise everything, because what
      is left of the limit wraps around below zero. */
  function CutBytes(n: nat, limit: nat): nat
  {
    if limit % MDU == 0 && limit <= n then limit else n
  }

  /** The packets for so many bytes. */
  function Full(k: nat): nat { (k + MDU - 1) / MDU }

  /** `k` bytes were cut off the send buffer, in order, into full packets but for the last. */
  ghost predicate CutOff(w: Wcb, w1: Wcb, k: nat)
  {
    && k <= |w.snd.sb| && w1.snd.sb == w.snd.sb[k..]
    && |w1.snd.log| == |w.snd.log| + Full(k) && |w1.snd.sending| == |w.snd.sending| + Full(k)
    && w.snd.log <= w1.snd.log
    && (forall i :: |w.snd.log| <= i < |w1.snd.log| - 1 ==> |w1.snd.log[i].data| == MDU)
  }

  lemma {:induction false} SegmentsExactly(w: Wcb, limit: nat)
    requires 0 < limit < 0x1_0000_0000 && |w.snd.sb| + 2 * MDU < 0x8000_0000 && (limit >= 0x8000_0000 ==> limit > |w.snd.sb|)
    ensures CutOff(w, Segments(w, limit), CutBytes(|w.snd.sb|, limit))
    decreases |w.snd.sb|
  {
    hide CutOff, Segment, Wrap32;
    if w.snd.sb == [] {
      CutsNone(w);
    } else {
      var n, w0 := Min(|w.snd.sb|, MDU), Segment(w);
      FirstCut(w);
      if limit == n {
        Exhausts(w0);
        Fits32(0);
        WholeLimit(|w.snd.sb|, n);
        assert Segments(w, limit) == Segments(w0, 0);
      } else {
        var more := Wrap32(limit - n);
        LimitLeft(|w.snd.sb|, limit);
        SegmentsExactly(w0, more);
        hide CutBytes, Full;
        CutOn(w, w0, Segments(w0, more), n, CutBytes(|w.snd.sb| - n, more));
      }
    }
  }

  lemma CutsNone(w: Wcb)
    ensures CutOff(w, w, 0)
  {}

  lemma FirstCut(w: Wcb)
    requires w.snd.sb != []
    ensures var n := Min(|w.snd.sb|, MDU); CutOff(w, Segment(w), n) && |Segment(w).snd.sb| == |w.snd.sb| - n && Full(n) == 1
    ensures |Segment(w).snd.log[|w.snd.log|].data| == Min(|w.snd.sb|, MDU) && |Segment(w).snd.log| == |w.snd.log| + 1
  {}

  lemma WholeLimit(n: nat, limit: nat)
    requires limit == Min(n, MDU) && 0 < n
    ensures CutBytes(n, limit) == limit
  {}

  lemma CutOn(w: Wcb, w0: Wcb, w1: Wcb, n: nat, k: nat)
    requires CutOff(w, w0, n) && CutOff(w0, w1, k) && n == Min(|w.snd.sb|, MDU) && |w0.snd.log| == |w.snd.log| + 1
    requires |w0.snd.log[|w.snd.log|].data| == n && Full(n + k) == 1 + Full(k) && Full(n) == 1 && (Full(k) > 0 ==> n == MDU)
    ensures CutOff(w, w1, n + k)
  {
    hide Full;
    assert w1.snd.log[|w.snd.log|] == w0.snd.log[|w.snd.log|];
    assert w.snd.sb[n..][k..] == w.snd.sb[n + k..];
  }

  lemma Exhausts(w: Wcb)
    ensures Segments(w, 0) == w
  {}

  lemma FullMore(k: nat)
    ensures Full(k + MDU) == 1 + Full(k) && (k == 0 ==> Full(k) == 0)
    ensures 0 < k <= MDU ==> Full(k) == 1
  {}

  lemma LimitMinus(limit: nat)
    requires limit > MDU
    ensures (limit - MDU) % MDU == limit % MDU && (limit < 2 * MDU ==> limit % MDU != 0)
  {}

  lemma LimitLeft(n: nat, limit: nat)
    requires 0 < n && n + 2 * MDU < 0x8000_0000 && 0 < limit < 0x1_0000_0000 && (limit >= 0x8000_0000 ==> limit > n)
    requires limit != Min(n, MDU)
    ensures var cut := Min(n, MDU);
            var more := Wrap32(limit - cut);
            && 0 < more && (more >= 0x8000_0000 ==> more > n - cut)
            && CutBytes(n, limit) == cut + CutBytes(n - cut, more)
            && Full(CutBytes(n, limit)) == 1 + Full(CutBytes(n - cut, more)) && (Full(CutBytes(n - cut, more)) > 0 ==> cut == MDU)
  {
    hide Full;
    var cut := Min(n, MDU);
    var more := Wrap32(limit - cut);
    MoreLeft(limit, cut);
    FullMore(CutBytes(n - cut, more));
    FullMore(n);
    if n <= MDU {
      assert CutBytes(0, more) == 0;
      assert CutBytes(n, limit) == n by { SmallLimit(n, limit); }
    } else if limit > MDU {
      LimitMinus(limit);
    } else {
      assert limit % MDU != 0;
    }
  }

  lemma MoreLeft(limit: nat, cut: nat)
    requires 0 < limit < 0x1_0000_0000 && 0 < cut <= MDU && limit != cut
    ensures Wrap32(limit - cut) == if limit > cut then limit - cut else 0x1_0000_0000 + limit - cut
  {}

  lemma SmallLimit(n: nat, limit: nat)
    requires 0 < n <= MDU && 0 < limit != n
    ensures CutBytes(n, limit) == n
  {}

  /** The count of bytes in flight and its maximum, over a whole call. */
  predicate CountsOn(cc: Cc, cc1: Cc)
  {
    cc1.nflight >= cc.nflight && cc1 == cc.(nflight := cc1.nflight, nflightMax := Max(cc.nflightMax, cc1.nflight))
  }

  lemma LaunchCounts(w: Wcb, now: nat)
    requires w.snd.sending != [] && w.cc.nflight <= w.cc.nflightMax
    ensures var w1 := Launch(w, now);
            CountsOn(w.cc, w1.cc) && w1.cc.nflight <= w1.cc.nflightMax && |w1.snd.sending| < |w.snd.sending|
  {}

  lemma {:induction false} PumpCounts(s: SendStep, env: Env)
    requires s.w.cc.nflight <= s.w.cc.nflightMax
    ensures CountsOn(s.w.cc, PumpSending(s, env).w.cc)
    decreases |s.w.snd.sending|
  {
    hide Stamp;
    if s.w.snd.sending != [] && !Congested(s.w) && env.net(|s.out|) == Sent {
      LaunchCounts(s.w, env.now);
      hide Launch;
      PumpCounts(SendStep(Launch(s.w, env.now), s.out + [Stamp(s.w.snd.sending[0].pack, s.w.rcv)], false), env);
    }
  }

  lemma {:induction false} LoopCounts(s: SendStep, env: Env)
    requires s.w.cc.nflight <= s.w.cc.nflightMax
    ensures CountsOn(s.w.cc, SendLoop(s, env).w.cc)
    decreases Backlog(s.w)
  {
    hide PumpSending, Refill;
    var s1 := PumpSending(s, env);
    PumpCounts(s, env);
    if !s1.stop {
      PumpKeepsBacklog(s, env);
      RefillShrinks(s1.w);
      RefillLeaves(s1.w);
      if Refill(s1.w).snd.sending != [] { LoopCounts(s1.(w := Refill(s1.w)), env); }
    }
  }

  lemma UpdateLeaves(w: Wcb, now: nat)
    ensures UpdateWindow(w, now).cc == w.cc
  {}

  /** A call that sends changes nothing of the controller but the bytes in flight and the most there ever were. */
  lemma MaximumKept(w: Wcb, env: Env)
    requires w.cc.nflight <= w.cc.nflightMax
    ensures CountsOn(w.cc, CheckSend(w, env).w.cc)
  {
    hide SendLoop, FlushControl, UpdateWindow;
    if !w.snd.sendError {
      UpdateLeaves(w, env.now);
      var s0 := SendStep(UpdateWindow(w, env.now), [], false);
      FlushLeaves(s0, env);
      LoopCounts(FlushControl(s0, env), env);
    }
  }

  // ---- a send that fails ----

  /** Up to here nothing failed, or the attempt after what went out did, and its error is kept. */
  predicate Fails(w: Wcb, w1: Wcb, sent: nat, env: Env)
  {
    if w1.snd.sendError then env.net(sent).SendFailed? && w1.errno == env.net(sent).code else w1.errno == w.errno
  }

  lemma {:induction false} FlushFails(s: SendStep, env: Env)
    requires !s.w.snd.sendError && !s.stop
    ensures var r := FlushControl(s, env);
            && Fails(s.w, r.w, |r.out|, env) && (r.stop <==> r.w.snd.ignoreSeqSpace != [])
            && (r.stop ==> env.net(|r.out|) != Sent && (env.net(|r.out|).SendFailed? ==> r.w.snd.sendError))
            && (!r.stop ==> !r.w.snd.sendError)
    decreases CopiesLeft(s.w.snd.ignoreSeqSpace)
  {
    hide Stamp;
    if s.w.snd.ignoreSeqSpace != [] {
      var c := s.w.snd.ignoreSeqSpace[0];
      if c.copies == 0 {
        FlushFails(s.(w := PopFront(s.w)), env);
      } else if env.net(|s.out|) == Sent {
        var p := Stamp(c.pack, s.w.rcv);
        FlushFails(SendStep(SetFront(s.w, p, c.copies - 1), s.out + [p], false), env);
      }
    }
  }

  lemma {:induction false} PumpFails(s: SendStep, env: Env)
    requires !s.w.snd.sendError && !s.stop
    ensures var r := PumpSending(s, env);
            && Fails(s.w, r.w, |r.out|, env) && (!r.stop ==> !r.w.snd.sendError)
            && (r.stop ==> r.w.snd.sending != [] && (Congested(r.w) || (env.net(|r.out|).SendFailed? ==> r.w.snd.sendError)))
    decreases |s.w.snd.sending|
  {
    hide Stamp, Launch;
    if s.w.snd.sending != [] && !Congested(s.w) && env.net(|s.out|) == Sent {
      LaunchNoError(s.w, env.now);
      PumpFails(SendStep(Launch(s.w, env.now), s.out + [Stamp(s.w.snd.sending[0].pack, s.w.rcv)], false), env);
    }
  }

  lemma LaunchNoError(w: Wcb, now: nat)
    requires w.snd.sending != []
    ensures var w1 := Launch(w, now);
            w1.snd.sendError == w.snd.sendError && w1.errno == w.errno && |w1.snd.sending| < |w.snd.sending|
  {}

  lemma {:induction false} LoopFails(s: SendStep, env: Env)
    requires !s.w.snd.sendError && !s.stop
    ensures var r := SendLoop(s, env);
            && Fails(s.w, r.w, |r.out|, env)
            && (r.w.snd.sending != [] ==> Congested(r.w) || (env.net(|r.out|).SendFailed? ==> r.w.snd.sendError))
    decreases Backlog(s.w)
  {
    hide PumpSending, Refill, Congested;
    var s1 := PumpSending(s, env);
    PumpFails(s, env);
    if !s1.stop {
      PumpKeepsBacklog(s, env);
      RefillShrinks(s1.w);
      RefillLeaves(s1.w);
      if Refill(s1.w).snd.sending != [] { LoopFails(s1.(w := Refill(s1.w)), env); }
    }
  }

  /** A call that sends fails if and only if its last attempt did, with that error, and what was left then is left; after
      that no call sends anything. */
  lemma FailureKept(w: Wcb, env: Env)
    ensures var r := CheckSend(w, env);
            && (w.snd.sendError ==> r == SendStep(w, [], true))
            && (!w.snd.sendError ==>
                  && Fails(w, r.w, |r.out|, env)
                  && (env.net(|r.out|).SendFailed? && r.w.snd.ignoreSeqSpace != [] ==> r.w.snd.sendError)
                  && (env.net(|r.out|).SendFailed? && r.w.snd.ignoreSeqSpace == [] && r.w.snd.sending != [] && !Congested(r.w) ==>
                        r.w.snd.sendError))
  {
    hide SendLoop, FlushControl, Congested;
    if !w.snd.sendError {
      var s0 := SendStep(UpdateWindow(w, env.now), [], false);
      FlushFails(s0, env);
      var s := FlushControl(s0, env);
      if !s.stop {
        LoopFails(s, env);
        LoopKeepsQueue(s, env);
      }
    }
  }

  lemma {:induction false} LoopKeepsQueue(s: SendStep, env: Env)
    ensures SendLoop(s, env).w.snd.ignoreSeqSpace == s.w.snd.ignoreSeqSpace
    decreases Backlog(s.w)
  {
    hide PumpSending, Refill;
    var s1 := PumpSending(s, env);
    PumpKeepsQueue(s, env);
    if !s1.stop {
      PumpKeepsBacklog(s, env);
      RefillShrinks(s1.w);
      RefillLeaves(s1.w);
      if Refill(s1.w).snd.sending != [] { LoopKeepsQueue(s1.(w := Refill(s1.w)), env); }
    }
  }

  lemma {:induction false} PumpKeepsQueue(s: SendStep, env: Env)
    ensures PumpSending(s, env).w.snd.ignoreSeqSpace == s.w.snd.ignoreSeqSpace
    decreases |s.w.snd.sending|
  {
    hide Stamp;
    if s.w.snd.sending != [] && !Congested(s.w) && env.net(|s.out|) == Sent {
      PumpKeepsQueue(SendStep(Launch(s.w, env.now), s.out + [Stamp(s.w.snd.sending[0].pack, s.w.rcv)], false), env);
    }
  }

  /** A retransmission that fails at once, with a packet due, ends the sweep with its error. */
  lemma ResendFails(w: Wcb, j: nat, env: Env)
    requires NoneBelow(w, 0) && TimerPassed(w, env.now) && env.net(0) != Sent
    requires j < |w.snd.flights| && Due(w.cc, w.snd.flights[j], env.now) && forall i :: 0 <= i < j ==> !Due(w.cc, w.snd.flights[i], env.now)
    ensures var r := CheckFlights(w, env);
            && r.out == []
            && (env.net(0).SendFailed? ==> r.w.snd.sendError && r.w.errno == env.net(0).code)
            && (env.net(0).Block? ==> r.w.snd.sendError == w.snd.sendError && r.w.errno == w.errno)
  {
    hide BackOff;
    var s := Sweep(w.(snd := w.snd.(lastRtoTimer := env.now)), [], 0, 0);
    FirstDue(s, 0, j, env);
    BackOffLeaves(SweepFrom(s, 0, env).w, env.now);
  }

  lemma {:induction false} FirstDue(s: Sweep, i: nat, j: nat, env: Env)
    requires NoneBelow(s.w, 0) && i <= j < |s.w.snd.flights| && s.out == [] && env.net(0) != Sent
    requires Due(s.w.cc, s.w.snd.flights[j], env.now) && forall k :: i <= k < j ==> !Due(s.w.cc, s.w.snd.flights[k], env.now)
    ensures var t := SweepFrom(s, i, env);
            && t.out == []
            && (env.net(0).SendFailed? ==> t.w.snd.sendError && t.w.errno == env.net(0).code)
            && (env.net(0).Block? ==> t.w.snd.sendError == s.w.snd.sendError && t.w.errno == s.w.errno)
    decreases j - i
  {
    var o := s.w.snd.flights[i];
    DueIffRetransmits(s.w.cc, o, env.now);
    hide Due, Retransmits, RtoExpired;
    if i < j {
      FirstDue(s, i + 1, j, env);
    } else {
      JudgeLeaves(s, o, env.now);
    }
  }

  // ---- retransmission ----

  /** Milliseconds since the packet last went out, in 32 bits. */
  function Age(o: OutPack, now: nat): nat { (now - o.sentTs) % 0x1_0000_0000 }

  /** A number sent later was acknowledged: the biggest one acknowledged is ahead by a positive 32-bit difference. */
  predicate Overtaken(cc: Cc, o: OutPack) { 0 < (cc.biggestAck - o.pack.seqNo) % 0x1_0000_0000 < 0x8000_0000 }

  /** A smoothed round trip has passed and the packet is likely lost. */
  predicate Hurried(cc: Cc, o: OutPack, now: nat)
  {
    Age(o, now) >= (cc.srtt + cc.rttvar / 4) % 0x1_0000_0000 && (Overtaken(cc, o) || cc.fastRecovered)
  }

  /** A packet is due when its timeout has passed, or before that when it is likely lost. */
  predicate Due(cc: Cc, o: OutPack, now: nat) { Age(o, now) >= cc.rto || Hurried(cc, o, now) }

  function Again(o: OutPack, r: Rcv, now: nat): OutPack
  {
    OutPack(o.pack.(ack := r.next, wnd := r.wnd), now, (o.sentTimes + 1) % 0x1_0000_0000)
  }

  /** The packets due, in the order of the flights, as they go out again. */
  function Resent(fs: seq<OutPack>, cc: Cc, r: Rcv, now: nat): seq<Pack>
  {
    if fs == [] then [] else (if Due(cc, fs[0], now) then [Again(fs[0], r, now).pack] else []) + Resent(fs[1..], cc, r, now)
  }

  /** How many are due by their timeout alone. */
  function TimedOut(fs: seq<OutPack>, cc: Cc, now: nat): nat
  {
    if fs == [] then 0
    else (if Age(fs[0], now) >= cc.rto && !Hurried(cc, fs[0], now) then 1 else 0) + TimedOut(fs[1..], cc, now)
  }

  /** The most often one of those was sent. */
  function MostSent(fs: seq<OutPack>, cc: Cc, now: nat): nat
  {
    if fs == [] then 0
    else if Age(fs[0], now) >= cc.rto && !Hurried(cc, fs[0], now) then Max(fs[0].sentTimes, MostSent(fs[1..], cc, now))
    else MostSent(fs[1..], cc, now)
  }

  predicate TimerPassed(w: Wcb, now: nat)
  {
    w.snd.unaUpdate || w.cc.fastRecovered || w.cc.biggestSackUpdate || now >= w.snd.lastRtoTimer + 5
  }

  predicate NoneBelow(w: Wcb, i: nat)
  {
    w.snd.unaUpdate ==> forall j :: i <= j < |w.snd.flights| ==> w.snd.flights[j].pack.seqNo >= w.snd.una
  }

  predicate SameTimes(cc: Cc, cc1: Cc) { cc1 == cc.(lostBiggestSeq := cc1.lostBiggestSeq) }

  /** From `s` to `s1` the flights from `i` on were gone through. */
  ghost predicate WentThrough(s: Sweep, s1: Sweep, i: nat, now: nat)
    requires i <= |s.w.snd.flights|
  {
    var fs, gs := s.w.snd.flights, s1.w.snd.flights;
    && |gs| == |fs| && gs[..i] == fs[..i]
    && (forall j :: i <= j < |fs| ==> gs[j] == if Due(s.w.cc, fs[j], now) then Again(fs[j], s.w.rcv, now) else fs[j])
    && s1.out == s.out + Resent(fs[i..], s.w.cc, s.w.rcv, now)
    && s1.lost == s.lost + TimedOut(fs[i..], s.w.cc, now)
    && s1.maxSent == Max(s.maxSent, MostSent(fs[i..], s.w.cc, now))
    && SameTimes(s.w.cc, s1.w.cc) && s1.w == s.w.(cc := s1.w.cc, snd := s.w.snd.(flights := gs))
  }

  lemma DueIffRetransmits(cc: Cc, o: OutPack, now: nat)
    ensures Due(cc, o, now) <==> Retransmits(cc, o, now)
    ensures Age(o, now) >= cc.rto && !Hurried(cc, o, now) <==> RtoExpired(cc, o, now)
  {}

  /** One packet that is due goes out. */
  lemma OneResent(s: Sweep, i: nat, now: nat)
    requires i < |s.w.snd.flights| && Due(s.w.cc, s.w.snd.flights[i], now)
    ensures var o, late := s.w.snd.flights[i], Age(s.w.snd.flights[i], now) >= s.w.cc.rto && !Hurried(s.w.cc, s.w.snd.flights[i], now);
            var j := Judge(s, o, now);
            var s1 := Resend(j, i, now);
            && j.out == s.out && j.w.snd == s.w.snd
            && s1.w.snd == s.w.snd.(flights := s.w.snd.flights[i := Again(o, s.w.rcv, now)])
            && s1.out == s.out + [Again(o, s.w.rcv, now).pack] && SameTimes(s.w.cc, s1.w.cc)
            && s1.w == s.w.(cc := s1.w.cc, snd := s1.w.snd)
            && s1.lost == s.lost + (if late then 1 else 0) && s1.maxSent == if late then Max(s.maxSent, o.sentTimes) else s.maxSent
  {
    DueIffRetransmits(s.w.cc, s.w.snd.flights[i], now);
    hide Hurried, RtoExpired;
  }

  lemma TailResent(fs: seq<OutPack>, i: nat, cc: Cc, r: Rcv, now: nat)
    requires i < |fs|
    ensures var o, late := fs[i], Age(fs[i], now) >= cc.rto && !Hurried(cc, fs[i], now);
            && Resent(fs[i..], cc, r, now) == (if Due(cc, o, now) then [Again(o, r, now).pack] else []) + Resent(fs[i + 1..], cc, r, now)
            && TimedOut(fs[i..], cc, now) == (if late then 1 else 0) + TimedOut(fs[i + 1..], cc, now)
            && MostSent(fs[i..], cc, now) == if late then Max(o.sentTimes, MostSent(fs[i + 1..], cc, now)) else MostSent(fs[i + 1..], cc, now)
  {
    assert fs[i..][1..] == fs[i + 1..];
  }

  lemma WentOn(s: Sweep, s1: Sweep, t: Sweep, i: nat, now: nat)
    requires i < |s.w.snd.flights| && Due(s.w.cc, s.w.snd.flights[i], now)
    requires s1 == Resend(Judge(s, s.w.snd.flights[i], now), i, now) && WentThrough(s1, t, i + 1, now)
    ensures WentThrough(s, t, i, now)
  {
    hide Judge, Resend, Due, Hurried, Again, Age, Resent, TimedOut, MostSent;
    OneResent(s, i, now);
    var fs, fs1, gs := s.w.snd.flights, s1.w.snd.flights, t.w.snd.flights;
    assert fs1[i + 1..] == fs[i + 1..];
    TailResent(fs, i, s.w.cc, s.w.rcv, now);
    SameResent(fs[i + 1..], s.w.cc, s1.w.cc, s.w.rcv, now);
    assert gs[i] == gs[..i + 1][i] == fs1[..i + 1][i];
    assert gs[..i] == gs[..i + 1][..i] == fs[..i];
    forall j | i < j < |fs| ensures gs[j] == if Due(s.w.cc, fs[j], now) then Again(fs[j], s.w.rcv, now) else fs[j] {
      SameDue(s.w.cc, s1.w.cc, fs[j], now);
    }
  }

  lemma SameDue(cc: Cc, cc1: Cc, o: OutPack, now: nat)
    requires SameTimes(cc, cc1)
    ensures Due(cc1, o, now) == Due(cc, o, now)
  {}

  lemma WentPast(s: Sweep, t: Sweep, i: nat, now: nat)
    requires i < |s.w.snd.flights| && !Due(s.w.cc, s.w.snd.flights[i], now) && WentThrough(s, t, i + 1, now)
    ensures WentThrough(s, t, i, now)
  {
    hide Hurried, Age, Again, Resent, TimedOut, MostSent;
    TailResent(s.w.snd.flights, i, s.w.cc, s.w.rcv, now);
    assert t.w.snd.flights[..i] == t.w.snd.flights[..i + 1][..i];
    assert t.w.snd.flights[i] == t.w.snd.flights[..i + 1][i];
  }

  lemma {:induction false} SweepResends(s: Sweep, i: nat, env: Env)
    requires TakesAll(env) && i <= |s.w.snd.flights| && NoneBelow(s.w, i)
    ensures WentThrough(s, SweepFrom(s, i, env), i, env.now)
    decreases |s.w.snd.flights| - i
  {
    hide WentThrough, Judge, Resend, Due;
    if i == |s.w.snd.flights| {
      WentNowhere(s, env.now);
    } else {
      var o := s.w.snd.flights[i];
      DueIffRetransmits(s.w.cc, o, env.now);
      hide Retransmits;
      if !Due(s.w.cc, o, env.now) {
        SweepResends(s, i + 1, env);
        WentPast(s, SweepFrom(s, i + 1, env), i, env.now);
      } else {
        OneResent(s, i, env.now);
        var s1 := Resend(Judge(s, o, env.now), i, env.now);
        SweepResends(s1, i + 1, env);
        WentOn(s, s1, SweepFrom(s1, i + 1, env), i, env.now);
      }
    }
  }

  lemma WentNowhere(s: Sweep, now: nat)
    ensures WentThrough(s, s, |s.w.snd.flights|, now)
  {
    assert s.w.snd.flights[|s.w.snd.flights|..] == [];
  }

  lemma {:induction false} SameResent(fs: seq<OutPack>, cc: Cc, cc1: Cc, r: Rcv, now: nat)
    requires SameTimes(cc, cc1)
    ensures Resent(fs, cc1, r, now) == Resent(fs, cc, r, now) && TimedOut(fs, cc1, now) == TimedOut(fs, cc, now)
    ensures MostSent(fs, cc1, now) == MostSent(fs, cc, now)
  {
    if fs != [] { SameResent(fs[1..], cc, cc1, r, now); }
  }

  /** The sweep took the loss for one of the whole path. */
  predicate Lossy(w: Wcb, now: nat)
  {
    TimedOut(w.snd.flights, w.cc, now) >= 3 || MostSent(w.snd.flights, w.cc, now) >= 5
  }

  /** The window is cut at most once a round trip, and only on an established connection. */
  predicate Cuts(w: Wcb, now: nat) { w.state == Established && Sub64(now, w.cc.lostTimer) >= Max(w.cc.srtt, 30) }

  /** Retransmission, when nothing in flight is known to have arrived: a packet goes out again if and only if it is
      due, all of them in order, and the clock of no other starts anew. */
  lemma ResentExactly(w: Wcb, env: Env)
    requires TakesAll(env) && NoneBelow(w, 0) && TimerPassed(w, env.now)
    ensures var fs, r := w.snd.flights, CheckFlights(w, env);
            var gs := r.w.snd.flights;
            && |gs| == |fs|
            && (forall j :: 0 <= j < |fs| ==> gs[j] == if Due(w.cc, fs[j], env.now) then Again(fs[j], w.rcv, env.now) else fs[j])
            && (forall j :: 0 <= j < |fs| && Due(w.cc, fs[j], env.now) ==> Again(fs[j], w.rcv, env.now).pack in r.out)
            && r.out == Resent(fs, w.cc, w.rcv, env.now)
            && r.w.snd == w.snd.(flights := gs, lastRtoTimer := env.now, unaUpdate := false) && r.w.rcv == w.rcv && r.w.state == w.state
  {
    hide Due, Hurried, Age, Again, Resent, TimedOut, MostSent;
    var w0 := w.(snd := w.snd.(lastRtoTimer := env.now));
    var s := Sweep(w0, [], 0, 0);
    SweepResends(s, 0, env);
    assert w.snd.flights[0..] == w.snd.flights;
    DueIsResent(w.snd.flights, w.cc, w.rcv, env.now);
    hide BackOff;
    BackOffLeaves(SweepFrom(s, 0, env).w, env.now);
  }

  lemma BackOffLeaves(w: Wcb, now: nat)
    ensures var w1 := w.(cc := w.cc.(biggestSackUpdate := false, fastRecovered := false), snd := w.snd.(unaUpdate := false));
            BackOff(w1, now) == w1.(cc := BackOff(w1, now).cc)
  {}

  lemma {:induction false} DueIsResent(fs: seq<OutPack>, cc: Cc, r: Rcv, now: nat)
    ensures forall j :: 0 <= j < |fs| && Due(cc, fs[j], now) ==> Again(fs[j], r, now).pack in Resent(fs, cc, r, now)
  {
    hide Due, Again;
    if fs != [] { DueIsResent(fs[1..], cc, r, now); }
  }

  /** The controller after the sweep: the timeout is backed off if and only if the loss is that of the whole path, and
      only then, on an established connection and once a round trip, the window is cut. */
  lemma BacksOffExactly(w: Wcb, env: Env)
    requires TakesAll(env) && NoneBelow(w, 0) && TimerPassed(w, env.now)
    ensures var cc, cc1 := w.cc.(fastRecovered := false, biggestSackUpdate := false), CheckFlights(w, env).w.cc;
            && cc1.nflight == cc.nflight && !cc1.fastRecovered && !cc1.biggestSackUpdate
            && (!Lossy(w, env.now) ==> SameTimes(cc, cc1))
            && (Lossy(w, env.now) ==> cc1.rto == Min(Wrap32(cc.rto + cc.rto / 2), RTO_MAX))
            && (Lossy(w, env.now) && !Cuts(w, env.now) ==> SameTimes(cc.(rto := cc1.rto), cc1))
            && (Lossy(w, env.now) && Cuts(w, env.now) ==>
                  && cc1.cwnd == 5 * MTU && cc1.ssthresh == Min(cc.ssthresh, Max(cc.nflightMax / 2, 4 * MTU))
                  && cc1.slowStart && !cc1.congestAvoidance && cc1.lostDetected && cc1.lostTimer == env.now && cc1.lostBiggerTimes == 0
                  && cc1.lostCompensation == Wrap32(Max(cc.nflightMax / 2, 4 * MTU) - cc.nflight / 2)
                  && cc1.nflightMax == Max(cc.nflightMax / 2, cc.nflight))
  {
    hide Due, Hurried, Age, Again, Resent, TimedOut, MostSent;
    var s := Sweep(w.(snd := w.snd.(lastRtoTimer := env.now)), [], 0, 0);
    SweepResends(s, 0, env);
    assert w.snd.flights[0..] == w.snd.flights;
  }

  lemma NothingBeforeTimer(w: Wcb, env: Env)
    requires !TimerPassed(w, env.now)
    ensures CheckFlights(w, env) == SendStep(w, [], false)
  {}

  // ---- flights below `una` ----

  function Numbers(fs: seq<OutPack>): (ns: seq<nat>)
    ensures |ns| == |fs| && forall i :: 0 <= i < |fs| ==> ns[i] == fs[i].pack.seqNo
  {
    seq(|fs|, i requires 0 <= i < |fs| => fs[i].pack.seqNo)
  }

  /** The numbers that are not below `una`. */
  function NotBelow(ns: seq<nat>, una: nat): seq<nat>
  {
    if ns == [] then [] else (if ns[0] < una then [] else [ns[0]]) + NotBelow(ns[1..], una)
  }

  lemma {:induction false} NotBelowMembers(ns: seq<nat>, una: nat)
    ensures forall n :: n in NotBelow(ns, una) <==> n in ns && n >= una
  {
    if ns != [] { NotBelowMembers(ns[1..], una); }
  }

  lemma InFlightNumbers(fs: seq<OutPack>, n: nat)
    ensures InFlight(fs, n) <==> n in Numbers(fs)
  {
    if InFlight(fs, n) {
      var i :| 0 <= i < |fs| && fs[i].pack.seqNo == n;
      assert Numbers(fs)[i] == n;
    }
  }

  lemma JudgeLeaves(s: Sweep, o: OutPack, now: nat)
    ensures var s1 := Judge(s, o, now);
            s1.out == s.out && s1.w == s.w.(cc := s1.w.cc) && s1.w.cc == s.w.cc.(lostBiggestSeq := s1.w.cc.lostBiggestSeq)
  {}

  lemma {:induction false} SweepDrops(s: Sweep, i: nat, env: Env)
    requires TakesAll(env) && i <= |s.w.snd.flights| && s.w.snd.unaUpdate
    ensures var fs, w1 := s.w.snd.flights, SweepFrom(s, i, env).w;
            && Numbers(w1.snd.flights) == Numbers(fs[..i]) + NotBelow(Numbers(fs[i..]), s.w.snd.una)
            && w1.snd.una == s.w.snd.una && w1.snd.unaUpdate
    decreases |s.w.snd.flights| - i
  {
    hide NotBelow, Retransmits, AckFlight, Judge, Resend, Numbers;
    var fs := s.w.snd.flights;
    if i == |fs| {
      assert fs[..i] == fs && fs[i..] == [];
      NoneNotBelow(s.w.snd.una);
    } else {
      var o := fs[i];
      NumbersStep(fs, i, s.w.snd.una);
      if o.pack.seqNo < s.w.snd.una {
        var s1 := s.(w := AckFlight(s.w, i, env));
        AckFlightSnd(s.w, i, env);
        assert s1.w.snd.flights[..i] == fs[..i] && s1.w.snd.flights[i..] == fs[i + 1..];
        SweepDrops(s1, i, env);
      } else if !Retransmits(s.w.cc, o, env.now) {
        SweepDrops(s, i + 1, env);
      } else {
        JudgeLeaves(s, o, env.now);
        var s1 := Resend(Judge(s, o, env.now), i, env.now);
        ResendSnd(Judge(s, o, env.now), i, env.now);
        var gs := s1.w.snd.flights;
        assert gs[i + 1..] == fs[i + 1..];
        SameNumbers(gs[..i + 1], fs[..i + 1]);
        SweepDrops(s1, i + 1, env);
      }
    }
  }

  lemma AckFlightSnd(w: Wcb, i: nat, env: Env)
    requires i < |w.snd.flights|
    ensures AckFlight(w, i, env).snd == w.snd.(flights := RemoveAt(w.snd.flights, i))
  {}

  lemma ResendSnd(s: Sweep, i: nat, now: nat)
    requires i < |s.w.snd.flights|
    ensures var fs, s1 := s.w.snd.flights, Resend(s, i, now).w.snd;
            && s1 == s.w.snd.(flights := s1.flights) && |s1.flights| == |fs| && s1.flights[..i] == fs[..i] && s1.flights[i + 1..] == fs[i + 1..]
            && s1.flights[i].pack.seqNo == fs[i].pack.seqNo
  {}

  lemma NoneNotBelow(una: nat)
    ensures NotBelow(Numbers([]), una) == [] && forall ns: seq<nat> :: ns + [] == ns
  {}

  lemma NumbersStep(fs: seq<OutPack>, i: nat, una: nat)
    requires i < |fs|
    ensures var n := fs[i].pack.seqNo;
            && Numbers(fs[..i + 1]) == Numbers(fs[..i]) + [n]
            && NotBelow(Numbers(fs[i..]), una) == (if n < una then [] else [n]) + NotBelow(Numbers(fs[i + 1..]), una)
  {
    assert Numbers(fs[i..])[1..] == Numbers(fs[i + 1..]);
  }

  lemma SameNumbers(fs: seq<OutPack>, gs: seq<OutPack>)
    requires |fs| == |gs| && forall i :: 0 <= i < |fs| ==> fs[i].pack.seqNo == gs[i].pack.seqNo
    ensures Numbers(fs) == Numbers(gs)
  {}

  /** When `una` has moved, the sweep takes out exactly the flights below it and leaves the others in their order. */
  lemma BelowUnaLeaves(w: Wcb, env: Env)
    requires TakesAll(env) && w.snd.unaUpdate
    ensures var fs, gs := w.snd.flights, CheckFlights(w, env).w.snd.flights;
            && Numbers(gs) == NotBelow(Numbers(fs), w.snd.una)
            && forall n: nat :: InFlight(gs, n) <==> InFlight(fs, n) && n >= w.snd.una
  {
    hide BackOff;
    var s := Sweep(w.(snd := w.snd.(lastRtoTimer := env.now)), [], 0, 0);
    SweepDrops(s, 0, env);
    var fs, gs := w.snd.flights, CheckFlights(w, env).w.snd.flights;
    assert fs[0..] == fs && Numbers(fs[..0]) == [];
    BackOffLeaves(SweepFrom(s, 0, env).w, env.now);
    NotBelowMembers(Numbers(fs), w.snd.una);
    forall n: nat ensures InFlight(gs, n) <==> InFlight(fs, n) && n >= w.snd.una {
      InFlightNumbers(fs, n);
      InFlightNumbers(gs, n);
    }
  }

  // ---- what a batch brings ----

  /** The numbers the SACK packets of a batch report. */
  function SackNumbers(batch: seq<Pack>): seq<nat>
  {
    if batch == [] then [] else (if batch[0].flags.sack then batch[0].acks else []) + SackNumbers(batch[1..])
  }

  ghost predicate Reports(batch: seq<Pack>, n: nat)
  {
    exists i :: 0 <= i < |batch| && batch[i].flags.sack && n in batch[i].acks
  }

  lemma {:induction false} ReportsIff(batch: seq<Pack>, n: nat)
    ensures Reports(batch, n) <==> n in SackNumbers(batch)
  {
    if batch != [] {
      ReportsIff(batch[1..], n);
      if Reports(batch[1..], n) {
        var i :| 0 <= i < |batch| - 1 && batch[1..][i].flags.sack && n in batch[1..][i].acks;
        assert batch[i + 1].flags.sack && n in batch[i + 1].acks;
      }
      if Reports(batch, n) && !(batch[0].flags.sack && n in batch[0].acks) {
        var i :| 0 <= i < |batch| && batch[i].flags.sack && n in batch[i].acks;
        assert batch[1..][i - 1] == batch[i];
      }
    }
  }

  /** The numbers of the sequenced packets of a batch, each of which is reported back. */
  function SequencedNumbers(batch: seq<Pack>): seq<nat>
  {
    if batch == [] then [] else (if Sequenced(batch[0]) then [batch[0].seqNo] else []) + SequencedNumbers(batch[1..])
  }

  /** A reply for every keep-alive packet. */
  function Replies(batch: seq<Pack>, dsn: nat): seq<Control>
  {
    if batch == [] then [] else Reply(batch[0], dsn) + Replies(batch[1..], dsn)
  }

  function Reply(p: Pack, dsn: nat): seq<Control>
  {
    if p.flags.keepAlive && !p.flags.sack then [Control(ControlPack(dsn, KEEP_ALIVE_REPLY_FLAGS, []), 1)] else []
  }

  lemma {:induction false} SackSnoc(batch: seq<Pack>, p: Pack)
    ensures SackNumbers(batch + [p]) == SackNumbers(batch) + if p.flags.sack then p.acks else []
  {
    if batch == [] {
      assert batch + [p] == [p] && [p][1..] == [];
      assert SackNumbers([]) == [];
    } else {
      var head, rest := if batch[0].flags.sack then batch[0].acks else [], batch[1..];
      assert (batch + [p])[1..] == rest + [p] && (batch + [p])[0] == batch[0];
      assert SackNumbers(batch) == head + SackNumbers(rest) && SackNumbers(batch + [p]) == head + SackNumbers(rest + [p]);
      hide SackNumbers;
      SackSnoc(rest, p);
    }
  }

  lemma {:induction false} SequencedSnoc(batch: seq<Pack>, p: Pack)
    ensures SequencedNumbers(batch + [p]) == SequencedNumbers(batch) + if Sequenced(p) then [p.seqNo] else []
  {
    hide Sequenced;
    if batch == [] {
      assert batch + [p] == [p] && [p][1..] == [];
      assert SequencedNumbers([]) == [];
    } else {
      var head, rest := if Sequenced(batch[0]) then [batch[0].seqNo] else [], batch[1..];
      assert (batch + [p])[1..] == rest + [p] && (batch + [p])[0] == batch[0];
      assert SequencedNumbers(batch) == head + SequencedNumbers(rest) && SequencedNumbers(batch + [p]) == head + SequencedNumbers(rest + [p]);
      hide SequencedNumbers;
      SequencedSnoc(rest, p);
    }
  }

  lemma {:induction false} RepliesSnoc(batch: seq<Pack>, p: Pack, dsn: nat)
    ensures Replies(batch + [p], dsn) == Replies(batch, dsn) + Reply(p, dsn)
  {
    hide Reply;
    if batch == [] {
      assert batch + [p] == [p] && [p][1..] == [];
      assert Replies([], dsn) == [];
    } else {
      var head, rest := Reply(batch[0], dsn), batch[1..];
      assert (batch + [p])[1..] == rest + [p] && (batch + [p])[0] == batch[0];
      assert Replies(batch, dsn) == head + Replies(rest, dsn) && Replies(batch + [p], dsn) == head + Replies(rest + [p], dsn);
      hide Replies;
      RepliesSnoc(rest, p, dsn);
    }
  }

  /** The `k`-th packet of a batch moves `una`, or says that it updates the window. */
  predicate Tells(una: nat, batch: seq<Pack>, k: nat)
    requires k < |batch|
  {
    batch[k].flags.wnd || (batch[k].ack > una && forall j :: 0 <= j < k ==> batch[j].ack < batch[k].ack)
  }

  /** `una` is the greatest number acknowledged, and the window is the one the last packet told that tells any. */
  ghost predicate Heard(s: Snd, s1: Snd, batch: seq<Pack>)
  {
    && s1.una >= s.una && (forall i :: 0 <= i < |batch| ==> s1.una >= batch[i].ack)
    && (s1.una == s.una || exists i :: 0 <= i < |batch| && s1.una == batch[i].ack)
    && s1.unaUpdate == (s.unaUpdate || s1.una > s.una)
    && (NothingTold(s, s1, batch) || exists k :: ToldLast(s, s1, batch, k))
  }

  ghost predicate NothingTold(s: Snd, s1: Snd, batch: seq<Pack>)
  {
    s1.rwnd == s.rwnd && forall k :: 0 <= k < |batch| ==> !Tells(s.una, batch, k)
  }

  ghost predicate ToldLast(s: Snd, s1: Snd, batch: seq<Pack>, k: int)
  {
    0 <= k < |batch| && Tells(s.una, batch, k) && s1.rwnd == batch[k].wnd && forall j :: k < j < |batch| ==> !Tells(s.una, batch, j)
  }

  lemma HeardOne(s: Snd, s1: Snd, batch: seq<Pack>, p: Pack)
    requires Heard(s, s1, batch)
    ensures Heard(s, NoteHeader(s1, p), batch + [p])
  {
    var more, s2, n := batch + [p], NoteHeader(s1, p), |batch|;
    assert more[n] == p && forall i :: 0 <= i < n ==> more[i] == batch[i];
    forall k | 0 <= k < n ensures Tells(s.una, more, k) == Tells(s.una, batch, k) {}
    assert Tells(s.una, more, n) <==> p.flags.wnd || p.ack > s1.una by {
      if p.ack > s.una && (forall j :: 0 <= j < n ==> more[j].ack < p.ack) && s1.una != s.una {
        var i :| 0 <= i < n && s1.una == batch[i].ack;
        assert more[i].ack < p.ack;
      }
    }
    if Tells(s.una, more, n) {
      assert ToldLast(s, s2, more, n);
    } else if NothingTold(s, s1, batch) {
      assert NothingTold(s, s2, more);
    } else {
      var k :| ToldLast(s, s1, batch, k);
      assert ToldLast(s, s2, more, k);
    }
    if s1.una < p.ack {
      assert s2.una == more[n].ack;
    } else if s1.una != s.una {
      var i :| 0 <= i < n && s1.una == batch[i].ack;
      assert s2.una == more[i].ack;
    }
  }

  /** Numbers from `next` on are kept. */
  ghost predicate Brings(batch: seq<Pack>, n: nat, next: nat)
  {
    n >= next && exists i :: 0 <= i < |batch| && Sequenced(batch[i]) && batch[i].seqNo == n
  }

  /** Taking in a batch, up to the acknowledgements: what is heard, what is kept, what is to be reported, and a reply to
      every keep-alive packet; nothing else changes. */
  ghost predicate TakenBatch(w: Wcb, w1: Wcb, batch: seq<Pack>)
  {
    SendingTold(w.snd, w1.snd, batch) && ReceivingTold(w.rcv, w1.rcv, batch) && w1 == w.(snd := w1.snd, rcv := w1.rcv)
  }

  ghost predicate SendingTold(s: Snd, s1: Snd, batch: seq<Pack>)
  {
    && Heard(s, s1, batch)
    && s1 == s.(una := s1.una, unaUpdate := s1.unaUpdate, rwnd := s1.rwnd, ignoreSeqSpace := s.ignoreSeqSpace + Replies(batch, s.dsn))
  }

  ghost predicate ReceivingTold(r: Rcv, r1: Rcv, batch: seq<Pack>)
  {
    && r1 == r.(received := r1.received, sackedTmp := r.sackedTmp + SequencedNumbers(batch))
    && Sorted(r1.received)
    && forall n: nat :: Has(r1.received, n) <==> Has(r.received, n) || Brings(batch, n, r.next)
  }

  lemma {:induction false} BatchTaken(w: Wcb, batch: seq<Pack>)
    requires Sorted(w.rcv.received)
    ensures TakenBatch(w, Arrivals(w, batch).w, batch)
    ensures Arrivals(w, batch).acked == SackNumbers(batch)
  {
    hide TakenBatch, Arrive;
    if batch == [] {
      NothingTaken(w);
    } else {
      var n := |batch| - 1;
      BatchTaken(w, batch[..n]);
      assert batch == batch[..n] + [batch[n]];
      OneTaken(w, Arrivals(w, batch[..n]), batch[..n], batch[n]);
    }
  }

  lemma NothingTaken(w: Wcb)
    requires Sorted(w.rcv.received)
    ensures TakenBatch(w, w, [])
  {
    assert NothingTold(w.snd, w.snd, []);
  }

  lemma OneTaken(w: Wcb, a: Arrival, batch: seq<Pack>, p: Pack)
    requires TakenBatch(w, a.w, batch) && a.acked == SackNumbers(batch)
    ensures TakenBatch(w, Arrive(a, p).w, batch + [p]) && Arrive(a, p).acked == SackNumbers(batch + [p])
  {
    hide NoteHeader, Insert, SackNumbers, SendingTold, ReceivingTold;
    OneTold(w.snd, a.w.snd, batch, p);
    OneKept(w.rcv, a.w.rcv, batch, p);
    SackSnoc(batch, p);
    ArrivesAs(a, p);
    hide Arrive;
  }

  lemma ArrivesAs(a: Arrival, p: Pack)
    ensures var t := Arrive(a, p);
            t.w == a.w.(snd := TellOne(a.w.snd, p), rcv := KeepOne(a.w.rcv, p)) && t.acked == a.acked + if p.flags.sack then p.acks else []
  {
    hide NoteHeader, Insert;
    HeaderOnly(a.w.snd, p);
    assert a.w.snd.ignoreSeqSpace + [] == a.w.snd.ignoreSeqSpace && a.w.rcv.sackedTmp + [] == a.w.rcv.sackedTmp && a.acked + [] == a.acked;
  }

  /** The two halves after one packet. */
  function TellOne(s: Snd, p: Pack): Snd
  {
    var s1 := NoteHeader(s, p); s1.(ignoreSeqSpace := s.ignoreSeqSpace + Reply(p, s.dsn))
  }

  function KeepOne(r: Rcv, p: Pack): Rcv
  {
    if !Sequenced(p) then r
    else r.(sackedTmp := r.sackedTmp + [p.seqNo], received := if p.seqNo < r.next then r.received else Insert(r.received, p))
  }

  lemma OneTold(s: Snd, s1: Snd, batch: seq<Pack>, p: Pack)
    requires SendingTold(s, s1, batch)
    ensures SendingTold(s, TellOne(s1, p), batch + [p])
  {
    hide NoteHeader, Heard, Replies, Reply;
    HeardOne(s, s1, batch, p);
    HeaderOnly(s1, p);
    RepliesSnoc(batch, p, s.dsn);
    HeardSame(s, NoteHeader(s1, p), TellOne(s1, p), batch + [p]);
  }

  lemma OneKept(r: Rcv, r1: Rcv, batch: seq<Pack>, p: Pack)
    requires ReceivingTold(r, r1, batch)
    ensures ReceivingTold(r, KeepOne(r1, p), batch + [p])
  {
    hide Insert, Has, Brings, SequencedNumbers, Sorted, Sequenced;
    SequencedSnoc(batch, p);
    InsertSorted(r1.received, p);
    var l := KeepOne(r1, p).received;
    forall n: nat ensures Has(l, n) <==> Has(r.received, n) || Brings(batch + [p], n, r.next) {
      BringsOne(batch, p, n, r.next);
      InsertHas(r1.received, p, n);
    }
  }

  lemma HeardSame(s: Snd, s1: Snd, s2: Snd, batch: seq<Pack>)
    requires Heard(s, s1, batch) && s2.una == s1.una && s2.unaUpdate == s1.unaUpdate && s2.rwnd == s1.rwnd
    ensures Heard(s, s2, batch)
  {
    if NothingTold(s, s1, batch) {
      assert NothingTold(s, s2, batch);
    } else {
      var k :| ToldLast(s, s1, batch, k);
      assert ToldLast(s, s2, batch, k);
    }
  }

  lemma HeaderOnly(s: Snd, p: Pack)
    ensures var s1 := NoteHeader(s, p); s1 == s.(una := s1.una, unaUpdate := s1.unaUpdate, rwnd := s1.rwnd)
  {}

  lemma BringsOne(batch: seq<Pack>, p: Pack, n: nat, next: nat)
    ensures Brings(batch + [p], n, next) <==> Brings(batch, n, next) || (n >= next && Sequenced(p) && p.seqNo == n)
  {
    var more := batch + [p];
    assert more[|batch|] == p;
    if Brings(batch, n, next) {
      var i :| 0 <= i < |batch| && Sequenced(batch[i]) && batch[i].seqNo == n;
      assert more[i] == batch[i];
    }
    if Brings(more, n, next) && !(n >= next && Sequenced(p) && p.seqNo == n) {
      var i :| 0 <= i < |more| && Sequenced(more[i]) && more[i].seqNo == n;
      assert batch[i] == more[i];
    }
  }

  lemma InsertHas(l: seq<Pack>, p: Pack, n: nat)
    ensures Has(Insert(l, p), n) <==> Has(l, n) || p.seqNo == n
  {
    InsertIsThere(l, p);
    InsertMembers(l, p);
    var l1 := Insert(l, p);
    if Has(l1, n) {
      var i :| 0 <= i < |l1| && l1[i].seqNo == n;
      assert l1[i] in l1;
      if l1[i] != p { var k :| 0 <= k < |l| && l[k] == l1[i]; }
    }
    if Has(l, n) {
      var i :| 0 <= i < |l| && l[i].seqNo == n;
      assert l[i] in l1;
      var k :| 0 <= k < |l1| && l1[k] == l[i];
    }
  }

  lemma {:induction false} InsertIsThere(l: seq<Pack>, p: Pack)
    ensures Has(Insert(l, p), p.seqNo)
  {
    if l == [] {
      assert [p][0].seqNo == p.seqNo;
    } else {
      var n := |l| - 1;
      if p.seqNo < l[n].seqNo {
        InsertIsThere(l[..n], p);
        HasSnoc(Insert(l[..n], p), l[n], p.seqNo);
      } else if l[n].seqNo < p.seqNo {
        HasSnoc(l, p, p.seqNo);
      }
    }
  }

  // ---- acknowledgement ----

  /** A report takes a packet out of the flights unless its number is below `una`. */
  predicate Gone(o: OutPack, acks: seq<nat>, una: nat) { o.pack.seqNo >= una && o.pack.seqNo in acks }

  function Kept(fs: seq<OutPack>, acks: seq<nat>, una: nat): seq<OutPack>
  {
    if fs == [] then [] else (if Gone(fs[0], acks, una) then [] else [fs[0]]) + Kept(fs[1..], acks, una)
  }

  function Acked(fs: seq<OutPack>, acks: seq<nat>, una: nat): seq<OutPack>
  {
    if fs == [] then [] else (if Gone(fs[0], acks, una) then [fs[0]] else []) + Acked(fs[1..], acks, una)
  }

  lemma {:induction false} KeptMembers(fs: seq<OutPack>, acks: seq<nat>, una: nat)
    ensures forall o :: o in Kept(fs, acks, una) <==> o in fs && !Gone(o, acks, una)
  {
    if fs != [] { KeptMembers(fs[1..], acks, una); }
  }

  lemma KeptNumbers(fs: seq<OutPack>, acks: seq<nat>, una: nat, n: nat)
    ensures InFlight(Kept(fs, acks, una), n) <==> InFlight(fs, n) && !(n >= una && n in acks)
  {
    KeptMembers(fs, acks, una);
    var ks := Kept(fs, acks, una);
    if InFlight(fs, n) {
      var i :| 0 <= i < |fs| && fs[i].pack.seqNo == n;
      if !Gone(fs[i], acks, una) {
        assert fs[i] in ks;
        var j :| 0 <= j < |ks| && ks[j] == fs[i];
      }
    }
    if InFlight(ks, n) {
      var j :| 0 <= j < |ks| && ks[j].pack.seqNo == n;
      assert ks[j] in ks;
      var i :| 0 <= i < |fs| && fs[i] == ks[j];
    }
  }

  lemma {:induction false} KeptDistinct(fs: seq<OutPack>, acks: seq<nat>, una: nat)
    requires DistinctFlights(fs)
    ensures DistinctFlights(Kept(fs, acks, una))
  {
    if fs != [] {
      KeptDistinct(fs[1..], acks, una);
      KeptMembers(fs[1..], acks, una);
      var rest := Kept(fs[1..], acks, una);
      forall j | 0 <= j < |rest| ensures rest[j].pack.seqNo != fs[0].pack.seqNo {
        assert rest[j] in rest;
        var i :| 0 <= i < |fs| - 1 && fs[1..][i] == rest[j];
        assert fs[i + 1] == rest[j];
      }
    }
  }

  lemma {:induction false} KeptAll(fs: seq<OutPack>, ack: nat, una: nat)
    requires ack < una || !InFlight(fs, ack)
    ensures Kept(fs, [ack], una) == fs
  {
    if fs != [] {
      if InFlight(fs[1..], ack) {
        var i :| 0 <= i < |fs| - 1 && fs[1..][i].pack.seqNo == ack;
        assert fs[i + 1].pack.seqNo == ack;
      }
      KeptAll(fs[1..], ack, una);
    }
  }

  lemma KeptHead(o: OutPack, fs: seq<OutPack>, acks: seq<nat>, una: nat)
    ensures Kept([o] + fs, acks, una) == (if Gone(o, acks, una) then [] else [o]) + Kept(fs, acks, una)
  {
    assert ([o] + fs)[1..] == fs;
  }

  lemma {:induction false} KeptOne(fs: seq<OutPack>, ack: nat, una: nat)
    requires DistinctFlights(fs) && ack >= una
    ensures var i := FindFlight(fs, ack); Kept(fs, [ack], una) == if i < |fs| then RemoveAt(fs, i) else fs
  {
    hide Kept, Gone;
    if fs == [] {
      KeptAll(fs, ack, una);
    } else {
      var o, rest := fs[0], fs[1..];
      assert fs == [o] + rest;
      KeptHead(o, rest, [ack], una);
      OnlyGone(o, ack, una);
      if o.pack.seqNo == ack {
        forall i | 0 <= i < |rest| ensures rest[i].pack.seqNo != ack { assert rest[i] == fs[i + 1]; }
        KeptAll(rest, ack, una);
        assert RemoveAt(fs, 0) == rest;
      } else {
        KeptOne(rest, ack, una);
        var i := FindFlight(rest, ack);
        assert FindFlight(fs, ack) == 1 + i;
        if i < |rest| { assert RemoveAt(fs, 1 + i) == [o] + RemoveAt(rest, i); }
      }
    }
  }

  lemma OnlyGone(o: OutPack, ack: nat, una: nat)
    requires ack >= una
    ensures Gone(o, [ack], una) <==> o.pack.seqNo == ack
  {}

  lemma {:induction false} KeptMore(fs: seq<OutPack>, acks: seq<nat>, ack: nat, una: nat)
    ensures Kept(Kept(fs, acks, una), [ack], una) == Kept(fs, acks + [ack], una)
  {
    if fs != [] {
      var o, rest := fs[0], fs[1..];
      KeptMore(rest, acks, ack, una);
      var k := Kept(rest, acks, una);
      assert Gone(o, acks + [ack], una) <==> Gone(o, acks, una) || Gone(o, [ack], una);
      hide Gone;
      if Gone(o, acks, una) {
        assert Kept(fs, acks, una) == k;
        assert Kept(fs, acks + [ack], una) == Kept(rest, acks + [ack], una);
      } else {
        KeptHead(o, k, [ack], una);
      }
    }
  }

  lemma {:induction false} KeptNone(fs: seq<OutPack>, una: nat)
    ensures Kept(fs, [], una) == fs
  {
    if fs != [] { KeptNone(fs[1..], una); }
  }

  lemma FlightBytesFirst(o: OutPack, fs: seq<OutPack>)
    ensures FlightBytes([o] + fs) == TotalBytes(o) + FlightBytes(fs)
  {
    FlightBytesSplit([o], fs);
    assert [o][..0] == [];
  }

  /** The bytes in flight are those of the packets kept and of those acknowledged. */
  lemma {:induction false} KeptAndAcked(fs: seq<OutPack>, acks: seq<nat>, una: nat)
    ensures FlightBytes(fs) == FlightBytes(Kept(fs, acks, una)) + FlightBytes(Acked(fs, acks, una))
  {
    if fs != [] {
      var o, rest := fs[0], fs[1..];
      KeptAndAcked(rest, acks, una);
      assert fs == [o] + rest;
      assert Kept(fs, acks, una) == if Gone(o, acks, una) then Kept(rest, acks, una) else [o] + Kept(rest, acks, una);
      assert Acked(fs, acks, una) == if Gone(o, acks, una) then [o] + Acked(rest, acks, una) else Acked(rest, acks, una);
      hide Kept, Acked, Gone, FlightBytes;
      FlightBytesFirst(o, rest);
      FlightBytesFirst(o, Kept(rest, acks, una));
      FlightBytesFirst(o, Acked(rest, acks, una));
    }
  }

  ghost predicate DistinctFlights(fs: seq<OutPack>) { forall i, j :: 0 <= i < j < |fs| ==> fs[i].pack.seqNo != fs[j].pack.seqNo }

  ghost predicate Counted(w: Wcb) { DistinctFlights(w.snd.flights) && w.cc.nflight == FlightBytes(w.snd.flights) < 0x1_0000_0000 }

  /** The rest of the controller, which acknowledgements of single packets leave alone. */
  predicate Beside(cc: Cc, cc1: Cc) { cc1.biggestAck == cc.biggestAck && cc1.biggestSackUpdate == cc.biggestSackUpdate }

  lemma CwndBeside(cc: Cc, size: nat, clock: nat)
    ensures CheckCwnd(cc, size, clock).nflight == cc.nflight && Beside(cc, CheckCwnd(cc, size, clock))
  {}

  lemma HandledCount(cc: Cc, o: OutPack, now: nat, clock: nat)
    ensures HandlePackAcked(cc, o, now, clock).nflight == Wrap32(cc.nflight - TotalBytes(o))
    ensures Beside(cc, HandlePackAcked(cc, o, now, clock))
  {
    hide CheckCwnd;
    var c := SampleRtt(cc, o, now);
    CwndBeside(c.(nflight := Wrap32(c.nflight - TotalBytes(o))), TotalBytes(o), clock);
  }

  lemma RecoveryBeside(cc: Cc, ack: nat, una: nat)
    ensures FastRecovery(cc, ack, una).nflight == cc.nflight && Beside(cc, FastRecovery(cc, ack, una))
  {}

  lemma OneAcked(w: Wcb, ack: nat, env: Env)
    requires Counted(w) && ack >= w.snd.una
    ensures var w1 := AckIfFlying(w, ack, env);
            && w1.snd == w.snd.(flights := Kept(w.snd.flights, [ack], w.snd.una)) && w1 == w.(cc := w1.cc, snd := w1.snd)
            && Counted(w1) && Beside(w.cc, w1.cc)
  {
    hide HandlePackAcked, Kept;
    var fs, una := w.snd.flights, w.snd.una;
    var i := FindFlight(fs, ack);
    KeptDistinct(fs, [ack], una);
    KeptOne(fs, ack, una);
    if i < |fs| {
      FlightBytesAt(fs, i);
      HandledCount(w.cc, fs[i], env.now, env.clock(fs[i].pack.seqNo));
    }
  }

  lemma OneAbsorbed(w: Wcb, ack: nat, env: Env)
    requires Counted(w)
    ensures var w1 := AbsorbAck(w, ack, env);
            && w1.snd == w.snd.(flights := Kept(w.snd.flights, [ack], w.snd.una)) && w1 == w.(cc := w1.cc, snd := w1.snd)
            && Counted(w1)
            && w1.cc.biggestAck == (if ack >= w.snd.una then Max(w.cc.biggestAck, ack) else w.cc.biggestAck)
            && w1.cc.biggestSackUpdate == (w.cc.biggestSackUpdate || w1.cc.biggestAck > w.cc.biggestAck)
  {
    hide AckIfFlying, FastRecovery, Kept, DistinctFlights;
    if ack < w.snd.una {
      KeptAll(w.snd.flights, ack, w.snd.una);
    } else {
      var w1 := NoteBiggest(w, ack);
      OneAcked(w1, ack, env);
      RecoveryBeside(AckIfFlying(w1, ack, env).cc, ack, w.snd.una);
    }
  }

  ghost predicate Biggest(cc: Cc, cc1: Cc, acks: seq<nat>, una: nat)
  {
    && cc1.biggestAck >= cc.biggestAck && (forall n :: n in acks && n >= una ==> cc1.biggestAck >= n)
    && (cc1.biggestAck == cc.biggestAck || (cc1.biggestAck in acks && cc1.biggestAck >= una))
    && cc1.biggestSackUpdate == (cc.biggestSackUpdate || cc1.biggestAck > cc.biggestAck)
  }

  lemma {:induction false} AcksAbsorbed(w: Wcb, acks: seq<nat>, env: Env)
    requires Counted(w)
    ensures var w1 := AbsorbAcks(w, acks, env);
            && w1.snd == w.snd.(flights := Kept(w.snd.flights, acks, w.snd.una)) && w1 == w.(cc := w1.cc, snd := w1.snd)
            && Counted(w1) && Biggest(w.cc, w1.cc, acks, w.snd.una)
  {
    hide AbsorbAck, Kept;
    if acks == [] {
      KeptNone(w.snd.flights, w.snd.una);
    } else {
      var n := |acks| - 1;
      AcksAbsorbed(w, acks[..n], env);
      OneAbsorbed(AbsorbAcks(w, acks[..n], env), acks[n], env);
      KeptMore(w.snd.flights, acks[..n], acks[n], w.snd.una);
      assert acks == acks[..n] + [acks[n]];
    }
  }

  /** Delivery leaves the controller, what is in flight and what was heard alone. */
  predicate BesideDelivery(w: Wcb, w1: Wcb)
  {
    && w1.cc == w.cc
    && w1.snd == w.snd.(dsn := w1.snd.dsn, standby := w1.snd.standby, log := w1.snd.log)
    && w1.rcv.keepTimer == w.rcv.keepTimer && w1.rcv.keepProbes == w.rcv.keepProbes && w1.rcv.sackedTmp == w.rcv.sackedTmp
  }

  lemma {:induction false} DeliverBeside(w: Wcb)
    ensures BesideDelivery(w, Deliver(w))
    decreases |w.rcv.received|
  {
    if HeadExpected(w.rcv) && !HeadTooBig(w.rcv) {
      ConsumeBeside(w);
      hide ConsumeHead;
      if !Aborts(w) { DeliverBeside(ConsumeHead(w)); }
    }
  }

  lemma ConsumeBeside(w: Wcb)
    requires w.rcv.received != []
    ensures BesideDelivery(w, ConsumeHead(w)) && |ConsumeHead(w).rcv.received| < |w.rcv.received|
  {}

  /** A batch, acknowledgements included: with `una` the greatest number heard, a packet leaves the flights if and only
      if a SACK packet of the batch reports it and it is not below `una`; the count loses exactly the bytes of those;
      the numbers that came in are queued as reports, and keep-alive packets are answered. */
  lemma ReportedLeave(w: Wcb, batch: seq<Pack>, env: Env)
    requires Counted(w) && Sorted(w.rcv.received) && batch != []
    ensures var w1 := CheckRecv(w, batch, env);
            && Heard(w.snd, w1.snd, batch)
            && (forall n: nat :: InFlight(w1.snd.flights, n) <==>
                  InFlight(w.snd.flights, n) && !(n >= w1.snd.una && Reports(batch, n)))
            && w1.snd.flights == Kept(w.snd.flights, SackNumbers(batch), w1.snd.una)
            && w1.cc.nflight == w.cc.nflight - FlightBytes(Acked(w.snd.flights, SackNumbers(batch), w1.snd.una))
            && Biggest(w.cc, w1.cc, SackNumbers(batch), w1.snd.una)
            && w1.snd.ignoreSeqSpace == w.snd.ignoreSeqSpace + Replies(batch, w.snd.dsn)
                                        + SackControls(w.rcv.sackedTmp + SequencedNumbers(batch), w.snd.dsn)
            && w1.rcv.sackedTmp == [] && w1.rcv.keepTimer == env.now && w1.rcv.keepProbes == 0
  {
    hide Heard, Kept, Acked, Counted, Biggest, AbsorbAcks, Deliver, SackControls, Replies, SequencedNumbers, SackNumbers, Reports;
    var w0 := w.(rcv := w.rcv.(keepTimer := env.now, keepProbes := 0));
    var a := Arrivals(w0, batch);
    BatchTaken(w0, batch);
    var s, acks := Sack(a.w), SackNumbers(batch);
    StillCounted(w, s);
    AcksAbsorbed(s, acks, env);
    var b := AbsorbAcks(s, acks, env);
    DeliverBeside(b);
    var w1 := CheckRecv(w, batch, env);
    HeardSame(w0.snd, a.w.snd, w1.snd, batch);
    StillCounted(b, w1);
    KeptAndAcked(w.snd.flights, acks, w1.snd.una);
    CountedBytes(w);
    CountedBytes(w1);
    forall n: nat ensures InFlight(w1.snd.flights, n) <==> InFlight(w.snd.flights, n) && !(n >= w1.snd.una && Reports(batch, n)) {
      KeptNumbers(w.snd.flights, acks, w1.snd.una, n);
      ReportsIff(batch, n);
    }
    BiggestSame(w.cc, b.cc, w1.cc, acks, w1.snd.una);
  }

  lemma BiggestSame(cc: Cc, cc1: Cc, cc2: Cc, acks: seq<nat>, una: nat)
    requires Biggest(cc, cc1, acks, una) && cc2 == cc1
    ensures Biggest(cc, cc2, acks, una)
  {}

  lemma StillCounted(w: Wcb, w1: Wcb)
    requires Counted(w) && w1.snd.flights == w.snd.flights && w1.cc.nflight == w.cc.nflight
    ensures Counted(w1)
  {}

  lemma CountedBytes(w: Wcb)
    requires Counted(w)
    ensures w.cc.nflight == FlightBytes(w.snd.flights)
  {}

  /** Silence: after five probes without an answer the connection times out; before that a probe is queued each time
      the idle time and as many intervals have passed; otherwise nothing happens. */
  lemma SilenceProbed(w: Wcb, env: Env)
    ensures var r, w1 := w.rcv, CheckRecv(w, [], env);
            var due := Sub64(env.now, r.keepTimer) / 1000 >= 60 + 60 * r.keepProbes;
            && w1.cc == w.cc && w1.state == w.state && w1.rcv.keepTimer == r.keepTimer
            && w1.snd.ignoreSeqSpace == w.snd.ignoreSeqSpace +
                 (if r.keepProbes < 5 && due then [Control(ControlPack(w.snd.dsn, KEEP_ALIVE_FLAGS, []), 1)] else [])
            && w1.snd == w.snd.(ignoreSeqSpace := w1.snd.ignoreSeqSpace)
            && w1.rcv.keepProbes == r.keepProbes + (if r.keepProbes < 5 && due then 1 else 0)
            && w1.errno == (if r.keepProbes >= 5 then E_ETIMEOUT else w.errno)
            && w1.rcv.recvError == (r.recvError || r.keepProbes >= 5)
  {}

  // ---- the controller ----

  /** The window grows by what was acknowledged until it reaches the threshold, then by one packet a round trip; it is
      capped. */
  lemma WindowGrows(cc: Cc, size: nat, clock: nat)
    requires cc.slowStart != cc.congestAvoidance
    ensures var c, tripPassed := CheckCwnd(cc, size, clock), Sub64(clock, cc.cwndTimer) >= cc.srtt;
            && (cc.slowStart ==> c.cwnd == Min(cc.cwnd + size, CWND_MAX) && c.cwndTimer == cc.cwndTimer)
            && (cc.slowStart ==> (c.slowStart <==> cc.cwnd + size < cc.ssthresh))
            && (!cc.slowStart && tripPassed ==> c.cwnd == Min(cc.cwnd + MTU, CWND_MAX) && c.cwndTimer == clock)
            && (!cc.slowStart && !tripPassed ==> c.cwnd == Min(cc.cwnd, CWND_MAX) && c.cwndTimer == cc.cwndTimer)
            && c.slowStart != c.congestAvoidance
            && c == cc.(cwnd := c.cwnd, cwndTimer := c.cwndTimer, slowStart := c.slowStart, congestAvoidance := c.congestAvoidance)
  {}

  /** The timeout is the smoothed round trip and twice its variation, within its bounds, from the packets that were
      sent once; the first of them sets both. */
  lemma TimeoutSampled(cc: Cc, o: OutPack, now: nat)
    requires o.sentTs <= now && now - o.sentTs < 0x4000_0000 && cc.srtt < 0x4000_0000 && cc.rttvar < 0x2000_0000
    ensures var c, rtt := SampleRtt(cc, o, now), now - o.sentTs;
            var s, v := if cc.firstRttDone then cc.srtt else rtt, if cc.firstRttDone then cc.rttvar else rtt / 2;
            if o.sentTimes != 1 then c == cc
            else c == cc.(firstRttDone := true, srtt := s, rttvar := v, rto := Clamped(s + Max(5, 2 * v)))
  {
    hide Wrap32, Clamped;
    var rtt := now - o.sentTs;
    Fits32(rtt);
    RawTimeout(if cc.firstRttDone then cc.srtt else rtt, if cc.firstRttDone then cc.rttvar else rtt / 2);
  }

  lemma RawTimeout(s: nat, v: nat)
    requires s < 0x4000_0000 && v < 0x2000_0000
    ensures var raw := Wrap32(s + Max(RTO_GRANULARITY, Wrap32(2 * v)));
            (if raw > RTO_MAX then RTO_MAX else if raw < RTO_MIN then RTO_MIN else raw) == Clamped(s + Max(5, 2 * v))
  {
    Fits32(2 * v);
    Fits32(s + Max(5, 2 * v));
    hide Wrap32;
  }

  /** Within the bounds of a timeout. */
  function Clamped(v: nat): nat { Max(100, Min(60 * 1000, v)) }

  lemma Fits32(v: int)
    requires 0 <= v < 0x1_0000_0000
    ensures Wrap32(v) == v
  {}

  /** The loss is made good when `una` has passed the packets lost: the window gets back what was withheld. */
  lemma RecoversIff(cc: Cc, ack: nat, una: nat)
    requires ack >= una && cc.lostBiggerTimes < 255 && cc.cwnd + cc.lostCompensation < 0x1_0000_0000
    ensures var c := FastRecovery(cc, ack, una);
            && (c.fastRecovered <==> cc.fastRecovered || (cc.lostDetected && una > cc.lostBiggestSeq))
            && (cc.lostDetected && una > cc.lostBiggestSeq ==>
                  && c.cwnd == Min(cc.cwnd + cc.lostCompensation, CWND_MAX) && c.lostCompensation == 0 && !c.lostDetected
                  && c.ssthresh == Max(cc.ssthresh, Min(c.cwnd, SSTHRESH_MAX)))
            && (!(cc.lostDetected && una > cc.lostBiggestSeq) ==> c == cc.(lostBiggerTimes := c.lostBiggerTimes))
  {}

  /** In slow start, short of the threshold, every byte acknowledged opens the window by a byte. */
  lemma {:induction false} SlowStartGrows(w: Wcb, acks: seq<nat>, env: Env)
    requires Counted(w) && w.cc.slowStart && !w.cc.lostDetected && w.cc.ssthresh <= SSTHRESH_MAX
    requires w.cc.cwnd + (w.cc.nflight - AbsorbAcks(w, acks, env).cc.nflight) < w.cc.ssthresh
    ensures var w1 := AbsorbAcks(w, acks, env);
            && w1.cc.cwnd == w.cc.cwnd + FlightBytes(Acked(w.snd.flights, acks, w.snd.una))
            && w1.cc.slowStart && !w1.cc.lostDetected && w1.cc.ssthresh == w.cc.ssthresh
  {
    hide AbsorbAck, Acked, Kept;
    AcksAbsorbed(w, acks, env);
    KeptAndAcked(w.snd.flights, acks, w.snd.una);
    if acks != [] {
      var n := |acks| - 1;
      var w0, w1 := AbsorbAcks(w, acks[..n], env), AbsorbAcks(w, acks, env);
      AcksAbsorbed(w, acks[..n], env);
      KeptAndAcked(w.snd.flights, acks[..n], w.snd.una);
      OneAbsorbed(w0, acks[n], env);
      KeptAndAcked(w0.snd.flights, [acks[n]], w.snd.una);
      SlowStartGrows(w, acks[..n], env);
      OneGrows(w0, acks[n], env);
    }
  }

  lemma OneGrows(w: Wcb, ack: nat, env: Env)
    requires Counted(w) && w.cc.slowStart && !w.cc.lostDetected && w.cc.ssthresh <= SSTHRESH_MAX
    requires w.cc.cwnd + (w.cc.nflight - AbsorbAck(w, ack, env).cc.nflight) < w.cc.ssthresh
    ensures var w1 := AbsorbAck(w, ack, env);
            && w1.cc.cwnd == w.cc.cwnd + (w.cc.nflight - w1.cc.nflight)
            && w1.cc.slowStart && !w1.cc.lostDetected && w1.cc.ssthresh == w.cc.ssthresh
  {
    hide HandlePackAcked;
    var i := FindFlight(w.snd.flights, ack);
    if ack >= w.snd.una && i < |w.snd.flights| {
      FlightBytesAt(w.snd.flights, i);
      HandledGrows(NoteBiggest(w, ack).cc, w.snd.flights[i], env.now, env.clock(ack));
    }
  }

  lemma HandledGrows(cc: Cc, o: OutPack, now: nat, clock: nat)
    requires cc.slowStart && !cc.lostDetected && cc.ssthresh <= SSTHRESH_MAX && TotalBytes(o) <= cc.nflight < 0x1_0000_0000
    ensures var c := HandlePackAcked(cc, o, now, clock);
            && c.nflight == cc.nflight - TotalBytes(o) && c.ssthresh == cc.ssthresh && !c.lostDetected
            && (cc.cwnd + TotalBytes(o) < cc.ssthresh ==> c.slowStart && c.cwnd == cc.cwnd + TotalBytes(o))
  {
    hide SampleRtt, CheckCwnd;
    var c := SampleRtt(cc, o, now);
    SampleBeside(cc, o, now);
    Fits32(cc.nflight - TotalBytes(o));
    SlowCwnd(c.(nflight := Wrap32(c.nflight - TotalBytes(o))), TotalBytes(o), clock);
  }

  lemma SlowCwnd(cc: Cc, size: nat, clock: nat)
    requires cc.slowStart && !cc.lostDetected && cc.ssthresh <= SSTHRESH_MAX
    ensures var c := CheckCwnd(cc, size, clock);
            && c.nflight == cc.nflight && c.ssthresh == cc.ssthresh && !c.lostDetected
            && (cc.cwnd + size < cc.ssthresh ==> c.slowStart && c.cwnd == cc.cwnd + size)
  {}

  lemma SampleBeside(cc: Cc, o: OutPack, now: nat)
    ensures var c := SampleRtt(cc, o, now); c == cc.(firstRttDone := c.firstRttDone, srtt := c.srtt, rttvar := c.rttvar, rto := c.rto)
  {}
}
