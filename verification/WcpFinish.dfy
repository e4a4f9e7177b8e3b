/** From a connection with something on its way to one with everything delivered: the runs that get there. */
module WcpFinish {
  import opened Arithmetic
  import opened Bytes
  import opened WcpModel
  import opened WcpInvariant
  import opened WcpSending
  import opened WcpSystem
  import opened WcpRuns
  import opened WcpEffects
  import opened WcpReady
  import opened WcpProgress

  /** A run that writes nothing and loses nothing that was reached. */
  ghost predicate Along(s: Sys, t: Sys)
  {
    CanReach(s, t) && AllReady(t) && Connected(t) && Moves(s.a, t.a) && Moves(s.b, t.b)
  }

  lemma AlongNowhere(s: Sys)
    requires AllReady(s) && Connected(s)
    ensures Along(s, s)
  {
    StartsHere(s);
    MovesNowhere(s.a);
    MovesNowhere(s.b);
  }

  lemma AlongThen(s: Sys, t: Sys, u: Sys)
    requires Along(s, t) && Along(t, u)
    ensures Along(s, u)
  {
    hide Moves, AllReady, Connected, CanReach;
    Then(s, t, u);
    MovesTransitive(s.a, t.a, u.a);
    MovesTransitive(s.b, t.b, u.b);
  }

  lemma AheadStays(x: Wcb, y: Wcb, x1: Wcb)
    requires NoSynAhead(x, y) && NoSynAhead(y, x) && Moves(x, x1)
    ensures NoSynAhead(x1, y) && NoSynAhead(y, x1)
  {
    forall n: nat | y.rcv.next <= n < |x1.snd.log| ensures !x1.snd.log[n].flags.syn {
      if n < |x.snd.log| { assert x1.snd.log[..|x.snd.log|][n] == x1.snd.log[n]; }
    }
  }

  /** One step of one side. */
  lemma AlongOne(s: Sys, step: Step)
    requires AllReady(s) && Connected(s) && Allowed(s, step) && Moves(Me(s, step.side), Me(Apply(s, step), step.side))
    ensures Along(s, Apply(s, step)) && Peer(Apply(s, step), step.side) == Peer(s, step.side)
    ensures Incoming(Apply(s, step), step.side) == Incoming(s, step.side)
  {
    hide CheckRecv, CheckSend, CheckFlights, Moves, AllReady, Reaches, NoSynAhead, CanReach, Up, AppSend, AppRecv, StandaloneWindowUpdate;
    var t := Apply(s, step);
    StartsHere(s);
    OneMore(s, s, step);
    StepReady(s, step);
    var x, y := Me(s, step.side), Peer(s, step.side);
    assert Up(Me(t, step.side)) by { MovesUp(x, Me(t, step.side)); }
    AheadStays(x, y, Me(t, step.side));
    MovesNowhere(y);
  }

  lemma MovesUp(w: Wcb, w1: Wcb)
    requires Moves(w, w1)
    ensures Up(w1)
  {}

  ghost predicate Ready2(s: Sys) { AllReady(s) && Connected(s) }

  lemma SidesReady(s: Sys, side: Side)
    requires Ready2(s)
    ensures var x, y := Me(s, side), Peer(s, side);
            && Both(x, y) && Both(y, x) && Ready(x) && Ready(y) && Up(x) && Up(y) && NoSynAhead(x, y) && NoSynAhead(y, x)
            && WireTruthful(x, Outgoing(s, side)) && WireTruthful(y, Incoming(s, side))
  {}

  // ---- the peer reads and receives ----

  lemma PeerReads(s: Sys, side: Side) returns (t: Sys)
    requires Ready2(s)
    ensures Along(s, t) && Me(t, side) == Me(s, side) && Outgoing(t, side) == Outgoing(s, side)
    ensures var r, r1 := Peer(s, side).rcv, Peer(t, side).rcv;
            && r1.rb == [] && SameButRead(r, r1) && Peer(t, side).snd == Peer(s, side).snd
  {
    hide Moves, AllReady, Reaches, CanReach, Connected, Along;
    var y := Peer(s, side);
    if y.rcv.rb == [] {
      t := s;
      AlongNowhere(s);
    } else {
      var step := Read(Other(side), |y.rcv.rb|);
      t := Apply(s, step);
      ReadMoves(s, side);
      AlongOne(s, step);
    }
  }

  predicate SameButRead(r: Rcv, r1: Rcv) { r1 == r.(rb := r1.rb, delivered := r1.delivered) }

  lemma ReadMoves(s: Sys, side: Side)
    requires Ready2(s)
    ensures var y := Peer(s, side); Moves(y, AppRecv(y, |y.rcv.rb|))
  {
    SidesReady(s, side);
    MovesNowhere(Peer(s, side));
  }

  lemma PeerTakes(s: Sys, side: Side, p: Pack) returns (t: Sys)
    requires Ready2(s) && p in Outgoing(s, side)
    ensures Along(s, t) && Me(t, side) == Me(s, side) && Outgoing(t, side) == Outgoing(s, side)
    ensures Peer(t, side) == CheckRecv(Peer(s, side), [p], Clear(0))
    ensures AllWireOk(Me(s, side), [p])
  {
    hide Moves, AllReady, Reaches, CanReach, CheckRecv, Heard, SackControls, Replies, Good, WireOk, Both, Ready, NoSynAhead, Brings, Has, SameSending;
    SidesReady(s, side);
    var x, y := Me(s, side), Peer(s, side);
    assert AllWireOk(x, [p]) by { assert WireOk(x, p); }
    var step := Receive(Other(side), [p], Clear(0));
    assert Good(y, x) by { BothGood(x, y); }
    ReceiveMoves(y, x, [p], Clear(0));
    t := Apply(s, step);
    AlongOne(s, step);
  }

  lemma BothGood(x: Wcb, y: Wcb)
    requires Both(x, y)
    ensures Good(x, y) && Good(y, x)
  {}

  /** A packet the peer answers or keeps. */
  predicate Answerable(p: Pack) { Sequenced(p) || (p.flags.keepAlive && !p.flags.sack) }

  /** A packet taken by a peer that has read everything. */
  lemma TakenAfterReading(y: Wcb, x: Wcb, p: Pack)
    requires Both(y, x) && Ready(y) && Up(y) && NoSynAhead(x, y) && AllWireOk(x, [p]) && y.rcv.rb == [] && Answerable(p)
    ensures var y1 := CheckRecv(y, [p], Clear(0));
            && y1.rcv.rbStandby == [] && y1.rcv.next >= y.rcv.next && y1.snd.ignoreSeqSpace != [] && Moves(y, y1)
            && (Received(y.rcv, y.rcv.next) ==> Received(y1.rcv, y.rcv.next))
            && (y.rcv.rbStandby == [] && (Received(y.rcv, y.rcv.next) || (Sequenced(p) && p.seqNo == y.rcv.next)) ==>
                  y1.rcv.next > y.rcv.next)
  {
    hide Good, AllWireOk, Heard, SackControls, Replies, SequencedNumbers, CheckRecv, NoSynAhead, Brings, Has, Moves, SameSending;
    BothGood(y, x);
    ReceiveMoves(y, x, [p], Clear(0));
    CheckRecvKeeps(y, x, [p], Clear(0));
    Answered(p, y.snd.dsn, y.rcv.sackedTmp);
    BringsIt(p, y.rcv.next);
    ReceivedIsHeld(y.rcv);
    MovesNext(y, CheckRecv(y, [p], Clear(0)));
  }

  lemma MovesNext(w: Wcb, w1: Wcb)
    requires Moves(w, w1)
    ensures w1.rcv.next >= w.rcv.next && w1.snd.next >= w.snd.next
  {}

  lemma ReceivedIsHeld(r: Rcv)
    ensures Received(r, r.next) <==> Has(r.received, r.next)
  {}

  lemma BringsIt(p: Pack, n: nat)
    ensures Sequenced(p) && p.seqNo == n ==> Brings([p], n, n)
  {
    assert [p][0] == p;
  }

  lemma Answered(p: Pack, dsn: nat, acks: seq<nat>)
    requires Answerable(p)
    ensures Replies([p], dsn) + SackControls(acks + SequencedNumbers([p]), dsn) != []
  {
    assert [p][1..] == [];
    if Sequenced(p) { assert SequencedNumbers([p]) == [p.seqNo] + []; }
  }

  /** The peer reads and takes a packet twice: then its buffers are empty up to what it may read, its window is open,
      and if the next number was there it has moved on. */
  lemma PeerDrains(s: Sys, side: Side, p: Pack) returns (t: Sys)
    requires Ready2(s) && p in Outgoing(s, side) && Answerable(p)
    ensures Along(s, t) && Me(t, side) == Me(s, side) && Outgoing(t, side) == Outgoing(s, side)
    ensures var y, y1 := Peer(s, side), Peer(t, side);
            && y1.rcv.rbStandby == [] && y1.rcv.wnd > MTU && y1.snd.ignoreSeqSpace != [] && y1.rcv.next >= y.rcv.next
            && (Received(y.rcv, y.rcv.next) || (Sequenced(p) && p.seqNo == y.rcv.next) ==> y1.rcv.next > y.rcv.next)
  {
    hide AllReady, Connected, Reaches, CanReach, CheckRecv, Good, Both, Moves, NoSynAhead, AllWireOk, Has, Along;
    var y, n := Peer(s, side), Peer(s, side).rcv.next;
    var t1 := PeerReads(s, side);
    AlongReady(s, t1);
    var t2 := PeerTakes(t1, side, p);
    AlongReady(t1, t2);
    var y1 := Peer(t1, side);
    SidesReady(t1, side);
    SameReceived(y.rcv, y1.rcv);
    TakenAfterReading(y1, Me(s, side), p);
    var t3 := PeerReads(t2, side);
    AlongReady(t2, t3);
    var y3 := Peer(t3, side);
    SidesReady(t3, side);
    SameReceived(Peer(t2, side).rcv, y3.rcv);
    t := PeerTakes(t3, side, p);
    TakenAfterReading(y3, Me(s, side), p);
    AlongReady(t3, t);
    SidesReady(t, side);
    WindowOpen(Peer(t, side));
    AlongThen(s, t1, t2);
    AlongThen(s, t2, t3);
    AlongThen(s, t3, t);
  }

  lemma SameReceived(r: Rcv, r1: Rcv)
    requires SameButRead(r, r1)
    ensures r1.next == r.next && r1.rbStandby == r.rbStandby && forall n: nat :: Received(r1, n) == Received(r, n)
  {}

  lemma WindowOpen(w: Wcb)
    requires Ready(w) && Up(w) && w.rcv.rbStandby == []
    ensures w.rcv.wnd > MTU
  {}

  lemma AlongReady(s: Sys, t: Sys)
    requires Along(s, t)
    ensures Ready2(t)
  {}

  // ---- a keep-alive packet and its answer ----

  /** The sending half is where it was, but for the queues behind it. */
  ghost predicate Waits(x: Wcb, x1: Wcb)
  {
    && Moves(x, x1) && x1.snd.next == x.snd.next && x1.snd.una == x.snd.una && x1.snd.rwnd == x.snd.rwnd
    && x1.snd.unaUpdate == x.snd.unaUpdate
  }

  function ProbeTime(r: Rcv): nat { r.keepTimer + 1000 * (60 + 60 * r.keepProbes) }

  lemma ProbeDue(r: Rcv)
    requires r.keepProbes < KEEPALIVE_PROBES
    ensures Sub64(ProbeTime(r), r.keepTimer) / 1000 >= 60 + 60 * r.keepProbes
  {
    assert ProbeTime(r) - r.keepTimer == 1000 * (60 + 60 * r.keepProbes);
  }

  lemma ProbeMoves(x: Wcb)
    requires Up(x) && Ready(x) && x.rcv.keepProbes < KEEPALIVE_PROBES
    ensures var x1 := CheckRecv(x, [], Clear(ProbeTime(x.rcv)));
            && Waits(x, x1) && x1.snd.ignoreSeqSpace == x.snd.ignoreSeqSpace + [Control(ControlPack(x.snd.dsn, KEEP_ALIVE_FLAGS, []), 1)]
            && x1.rcv.next == x.rcv.next && x1.rcv.rwndTimer == x.rcv.rwndTimer
  {
    ProbeDue(x.rcv);
    SilenceProbed(x, Clear(ProbeTime(x.rcv)));
    ProbeLeaves(x, ProbeTime(x.rcv));
    hide CheckRecv;
    SameSendingMoves(x, CheckRecv(x, [], Clear(ProbeTime(x.rcv))));
  }

  lemma ProbeLeaves(x: Wcb, now: nat)
    ensures var r := CheckRecv(x, [], Clear(now)).rcv;
            r.next == x.rcv.next && r.rwndTimer == x.rcv.rwndTimer && r.rbCapacity == x.rcv.rbCapacity
  {}

  /** The queue as a call sends it: the front packet carries a window update that is due. */
  function Flagged(w: Wcb, now: nat): seq<Control> { UpdateWindow(w, now).snd.ignoreSeqSpace }

  lemma FlaggedIs(w: Wcb, now: nat)
    requires w.snd.ignoreSeqSpace != []
    ensures var q, f := w.snd.ignoreSeqSpace, Flagged(w, now);
            && |f| == |q| && (forall i :: 1 <= i < |q| ==> f[i] == q[i])
            && f[0] == q[0].(pack := q[0].pack.(flags := q[0].pack.flags.(wnd := q[0].pack.flags.wnd || WindowUpdateDue(w, now))))
  {}

  /** The control packets of one side go out, and nothing else. */
  lemma ControlsGo(s: Sys, side: Side, now: nat) returns (t: Sys)
    requires Ready2(s) && Me(s, side).snd.ignoreSeqSpace != []
    ensures Along(s, t) && Peer(t, side) == Peer(s, side) && Incoming(t, side) == Incoming(s, side)
    ensures Waits(Me(s, side), Me(t, side)) && Me(t, side).rcv == Me(s, side).rcv.(rwndTimer := Me(t, side).rcv.rwndTimer)
    ensures forall i :: 0 <= i < |Flagged(Me(s, side), now)| ==>
              Stamp(Flagged(Me(s, side), now)[i].pack, Me(s, side).rcv) in Outgoing(t, side)
  {
    hide AllReady, Connected, Reaches, CanReach, CheckSend, Good, Moves, NoSynAhead, Stamped, Packets, Stamp, Along;
    var x := Me(s, side);
    SidesReady(s, side);
    ControlsSent(x, now);
    var q := Flagged(x, now);
    var env := Only(Packets(q), now);
    var step := Transmit(side, env);
    t := Apply(s, step);
    AlongOne(s, step);
    FlaggedIs(x, now);
    forall i | 0 <= i < |q| ensures Stamp(q[i].pack, x.rcv) in Outgoing(t, side) {
      StampedHas(q, x.rcv, i);
    }
  }

  lemma KeepsAlive(s: Sys, side: Side) returns (t: Sys, p: Pack)
    requires Ready2(s) && Me(s, side).rcv.keepProbes < KEEPALIVE_PROBES
    ensures Along(s, t) && Peer(t, side) == Peer(s, side) && Incoming(t, side) == Incoming(s, side)
    ensures Waits(Me(s, side), Me(t, side)) && p in Outgoing(t, side) && p.flags.keepAlive && !p.flags.sack
    ensures Me(t, side).rcv.next == Me(s, side).rcv.next
  {
    hide AllReady, Connected, Reaches, CanReach, CheckRecv, Good, Moves, NoSynAhead, Flagged, Along;
    var x := Me(s, side);
    SidesReady(s, side);
    ProbeMoves(x);
    var step := Receive(side, [], Clear(ProbeTime(x.rcv)));
    var t1 := Apply(s, step);
    AlongOne(s, step);
    AlongReady(s, t1);
    var x1 := Me(t1, side);
    t := ControlsGo(t1, side, 0);
    FlaggedIs(x1, 0);
    var n := |x.snd.ignoreSeqSpace|;
    p := Stamp(Flagged(x1, 0)[n].pack, x1.rcv);
    AlongThen(s, t1, t);
    MovesTransitive(x, x1, Me(t, side));
  }

  // ---- the answer heard ----

  lemma HeardOnePack(s: Snd, s1: Snd, p: Pack)
    requires Heard(s, s1, [p])
    ensures s1.una == Max(s.una, p.ack) && s1.unaUpdate == (s.unaUpdate || p.ack > s.una)
    ensures s1.rwnd == if p.flags.wnd || p.ack > s.una then p.wnd else s.rwnd
  {
    assert [p][0] == p;
    assert Tells(s.una, [p], 0) <==> p.flags.wnd || p.ack > s.una;
  }

  lemma Hears(s: Sys, side: Side, p: Pack) returns (t: Sys)
    requires Ready2(s) && p in Incoming(s, side)
    ensures Along(s, t) && Peer(t, side) == Peer(s, side) && Outgoing(t, side) == Outgoing(s, side) && Incoming(t, side) == Incoming(s, side)
    ensures var x, x1 := Me(s, side), Me(t, side);
            && Moves(x, x1) && SameSending(x.snd, x1.snd) && x1.rcv.keepProbes == 0
            && x1.snd.una == Max(x.snd.una, p.ack) && x1.snd.unaUpdate == (x.snd.unaUpdate || p.ack > x.snd.una)
            && x1.snd.rwnd == if p.flags.wnd || p.ack > x.snd.una then p.wnd else x.snd.rwnd
  {
    hide Moves, AllReady, Reaches, CanReach, CheckRecv, Heard, SackControls, Replies, Good, WireOk, Both, Ready, NoSynAhead, Brings, Has, SameSending;
    SidesReady(s, side);
    var x, y := Me(s, side), Peer(s, side);
    assert AllWireOk(y, [p]) by { assert WireOk(y, p); }
    BothGood(x, y);
    var step := Receive(side, [p], Clear(0));
    ReceiveMoves(x, y, [p], Clear(0));
    HeardOnePack(x.snd, CheckRecv(x, [p], Clear(0)).snd, p);
    t := Apply(s, step);
    AlongOne(s, step);
  }

  /** The peer answers with what is queued at `i`, at a time of its own, and is heard. */
  lemma Answers(s: Sys, side: Side, now: nat, i: nat) returns (t: Sys)
    requires Ready2(s) && i < |Peer(s, side).snd.ignoreSeqSpace| && Peer(s, side).rcv.next >= Me(s, side).snd.una
    ensures Along(s, t) && Waits(Peer(s, side), Peer(t, side)) && Me(t, side).rcv.keepProbes == 0
    ensures Peer(t, side).rcv.next == Peer(s, side).rcv.next
    ensures var x, y, x1 := Me(s, side), Peer(s, side), Me(t, side);
            && Moves(x, x1) && SameSending(x.snd, x1.snd) && x1.snd.una == y.rcv.next
            && x1.snd.unaUpdate == (x.snd.unaUpdate || y.rcv.next > x.snd.una)
            && x1.snd.rwnd == (if (i == 0 && WindowUpdateDue(y, now)) || y.snd.ignoreSeqSpace[i].pack.flags.wnd || y.rcv.next > x.snd.una
                              then y.rcv.wnd else x.snd.rwnd)
  {
    hide AllReady, Connected, Reaches, CanReach, Good, Moves, NoSynAhead, Flagged, Along, SameSending;
    var y := Peer(s, side);
    var t1 := ControlsGo(s, Other(side), now);
    AlongReady(s, t1);
    FlaggedIs(y, now);
    var p := Stamp(Flagged(y, now)[i].pack, y.rcv);
    t := Hears(t1, side, p);
    AlongThen(s, t1, t);
  }

  lemma PeerKnown(s: Sys, side: Side)
    requires Ready2(s)
    ensures var x, y := Me(s, side), Peer(s, side);
            && x.snd.una <= y.rcv.next <= x.snd.next <= |x.snd.log|
            && (y.rcv.next < x.snd.next ==> Received(y.rcv, y.rcv.next) || InFlight(x.snd.flights, y.rcv.next))
  {}

  /** A keep-alive packet and its answer: `una` is then the number the peer expects, its window is heard if that is news,
      and if the number it expected was there it has moved on. */
  lemma Pings(s: Sys, side: Side) returns (t: Sys)
    requires Ready2(s) && Me(s, side).rcv.keepProbes < KEEPALIVE_PROBES
    ensures Along(s, t) && Me(t, side).rcv.keepProbes == 0
    ensures var x, y, x1, y1 := Me(s, side), Peer(s, side), Me(t, side), Peer(t, side);
            && Moves(x, x1) && x1.snd.next == x.snd.next && x1.snd.una == y1.rcv.next >= y.rcv.next
            && (x1.snd.una > x.snd.una ==> x1.snd.rwnd > MTU)
            && (Received(y.rcv, y.rcv.next) ==> y1.rcv.next > y.rcv.next)
  {
    hide AllReady, Connected, Reaches, CanReach, Good, Moves, NoSynAhead, Along, SameSending, Received;
    var t1, p := KeepsAlive(s, side);
    AlongReady(s, t1);
    var t2 := PeerDrains(t1, side, p);
    AlongReady(t1, t2);
    PeerKnown(t2, side);
    t := Answers(t2, side, 0, 0);
    AlongThen(s, t1, t2);
    AlongThen(s, t2, t);
    MovesTransitive(Me(s, side), Me(t1, side), Me(t, side));
    SameSendingNext(Me(t1, side).snd, Me(t, side).snd);
  }

  lemma SameSendingNext(s: Snd, s1: Snd)
    requires SameSending(s, s1)
    ensures s1.next == s.next && s1.log == s.log && s1.sb == s.sb
  {}

  // ---- a packet in flight is sent again ----

  /** A time at which the packet is as old as the longest timeout, and the timer has passed. */
  function LateTime(w: Wcb, o: OutPack): nat { o.sentTs + RTO_MAX + 0x1_0000_0000 * (w.snd.lastRtoTimer + RTO_GRANULARITY) }

  lemma LateAge(w: Wcb, o: OutPack)
    ensures Age(o, LateTime(w, o)) == RTO_MAX && LateTime(w, o) >= w.snd.lastRtoTimer + RTO_GRANULARITY
  {
    ModShift(RTO_MAX, 0x1_0000_0000, w.snd.lastRtoTimer + RTO_GRANULARITY);
  }

  lemma LateSent(x: Wcb, y: Wcb, j: nat)
    requires Good(x, y) && j < |x.snd.flights| && x.snd.flights[j].pack.seqNo >= x.snd.una
    ensures var o := x.snd.flights[j]; Stamp(o.pack, x.rcv) in CheckFlights(x, Clear(LateTime(x, o))).out
    ensures Sequenced(Stamp(x.snd.flights[j].pack, x.rcv))
  {
    hide BackOff, SweepFrom;
    var o := x.snd.flights[j];
    var env := Clear(LateTime(x, o));
    LateAge(x, o);
    OldestSent(Sweep(x.(snd := x.snd.(lastRtoTimer := env.now)), [], 0, 0), 0, env, j);
    assert ItemOk(x.snd.log[o.pack.seqNo]);
  }

  lemma SendsAgain(s: Sys, side: Side, n: nat) returns (t: Sys, p: Pack)
    requires Ready2(s) && InFlight(Me(s, side).snd.flights, n) && n >= Me(s, side).snd.una
    ensures Along(s, t) && Peer(t, side) == Peer(s, side) && p in Outgoing(t, side) && Sequenced(p) && p.seqNo == n
    ensures var x, x1 := Me(s, side), Me(t, side);
            Moves(x, x1) && SameSending(x.snd, x1.snd) && x1.snd.una == x.snd.una && x1.rcv == x.rcv && x1.snd.rwnd == x.snd.rwnd
  {
    hide AllReady, Connected, Reaches, CanReach, CheckFlights, Good, Moves, NoSynAhead, Along, SameSending;
    SidesReady(s, side);
    var x, y := Me(s, side), Peer(s, side);
    BothGood(x, y);
    var j :| 0 <= j < |x.snd.flights| && x.snd.flights[j].pack.seqNo == n;
    var env := Clear(LateTime(x, x.snd.flights[j]));
    LateSent(x, y, j);
    FlightsMove(x, env);
    p := Stamp(x.snd.flights[j].pack, x.rcv);
    var step := Retransmit(side, env);
    t := Apply(s, step);
    AlongOne(s, step);
  }

  // ---- going on ----

  /** The sender can go on: something is not acknowledged yet, nothing is left, or the next packet fits the window. */
  predicate CanGo(x: Wcb)
    requires x.snd.next <= |x.snd.log|
  {
    x.snd.una < x.snd.next || !Queued(x.snd) || x.snd.rwnd > Need(x.snd)
  }

  lemma KnownNeed(s: Sys, side: Side)
    requires Ready2(s)
    ensures Me(s, side).snd.next <= |Me(s, side).snd.log| && Need(Me(s, side).snd) <= MTU
  {
    SidesReady(s, side);
    BothGood(Me(s, side), Peer(s, side));
    NeedFits(Me(s, side), Peer(s, side));
  }

  /** While the peer lacks a packet that was sent, it can be brought one further. */
  lemma Advances(s: Sys, side: Side) returns (t: Sys)
    requires Ready2(s) && Me(s, side).rcv.keepProbes < KEEPALIVE_PROBES && Peer(s, side).rcv.next < Me(s, side).snd.next
    ensures Along(s, t) && Me(t, side).rcv.keepProbes < KEEPALIVE_PROBES
    ensures var x, x1 := Me(s, side), Me(t, side);
            && Moves(x, x1) && x1.snd.next == x.snd.next && Peer(t, side).rcv.next > Peer(s, side).rcv.next
            && x1.snd.next <= |x1.snd.log| && CanGo(x1)
  {
    hide AllReady, Connected, Reaches, CanReach, Good, Moves, NoSynAhead, Along, SameSending, Received, InFlight, Need, Queued;
    PeerKnown(s, side);
    var n := Peer(s, side).rcv.next;
    if Received(Peer(s, side).rcv, n) {
      t := Pings(s, side);
    } else {
      var t1, p := SendsAgain(s, side, n);
      AlongReady(s, t1);
      t := PeerDrains(t1, side, p);
      AlongThen(s, t1, t);
      SameSendingNext(Me(s, side).snd, Me(t1, side).snd);
    }
    AlongReady(s, t);
    KnownNeed(t, side);
  }

  /** The sweep after `una` has reached `next`: nothing is in flight. */
  lemma Settles(s: Sys, side: Side) returns (t: Sys)
    requires Ready2(s) && Me(s, side).snd.una == Me(s, side).snd.next
    ensures Along(s, t) && Peer(t, side) == Peer(s, side)
    ensures var x, x1 := Me(s, side), Me(t, side);
            && Moves(x, x1) && SameSending(x.snd, x1.snd) && x1.snd.una == x.snd.una && x1.rcv == x.rcv && x1.snd.rwnd == x.snd.rwnd
            && x1.snd.flights == []
  {
    hide AllReady, Connected, Reaches, CanReach, CheckFlights, Good, Moves, NoSynAhead, Along, SameSending;
    SidesReady(s, side);
    var x, y := Me(s, side), Peer(s, side);
    BothGood(x, y);
    if x.snd.unaUpdate {
      FlightsMove(x, Clear(0));
      BelowUnaLeaves(x, Clear(0));
      NoneFrom(x, y, CheckFlights(x, Clear(0)).w.snd.flights);
      var step := Retransmit(side, Clear(0));
      t := Apply(s, step);
      AlongOne(s, step);
    } else {
      NoneLeft(x, y);
      t := s;
      AlongNowhere(s);
      MovesNowhere(x);
      SameAll(x.snd);
    }
  }

  lemma SameAll(s: Snd)
    ensures SameSending(s, s)
  {}

  lemma NoneFrom(x: Wcb, y: Wcb, gs: seq<OutPack>)
    requires Good(x, y) && x.snd.una == x.snd.next
    requires forall n: nat :: InFlight(gs, n) <==> InFlight(x.snd.flights, n) && n >= x.snd.una
    ensures gs == []
  {
    if gs != [] {
      var n := gs[0].pack.seqNo;
      assert InFlight(gs, n);
      FliesBelow(x, y, n);
      assert false;
    }
  }

  lemma FliesBelow(x: Wcb, y: Wcb, n: nat)
    requires Good(x, y)
    ensures InFlight(x.snd.flights, n) ==> n < x.snd.next
  {}

  lemma NoneLeft(x: Wcb, y: Wcb)
    requires Good(x, y) && Ready(x) && x.snd.una == x.snd.next && !x.snd.unaUpdate
    ensures x.snd.flights == []
  {
    if x.snd.flights != [] {
      FirstFrom(x);
      FirstBelow(x, y);
      assert false;
    }
  }

  lemma FirstFrom(x: Wcb)
    requires Ready(x) && x.snd.flights != [] && !x.snd.unaUpdate
    ensures x.snd.flights[0].pack.seqNo >= x.snd.una
  {}

  lemma FirstBelow(x: Wcb, y: Wcb)
    requires Good(x, y) && x.snd.flights != []
    ensures x.snd.flights[0].pack.seqNo < x.snd.next
  {}

  /** Nothing is buffered, queued or in flight, and the peer has every byte. */
  ghost predicate Done(s: Sys, side: Side)
  {
    var x := Me(s, side).snd;
    && x.sb == [] && x.standby == [] && x.sending == [] && x.flights == []
    && Stream(Peer(s, side).rcv) == x.written
  }

  lemma SettledIsDone(s: Sys, side: Side)
    requires Ready2(s) && Me(s, side).snd.una == Me(s, side).snd.next && Me(s, side).snd.flights == [] && !Queued(Me(s, side).snd)
    ensures Done(s, side)
  {
    PeerKnown(s, side);
    SidesReady(s, side);
    var x, y := Me(s, side), Peer(s, side);
    BothGood(x, y);
    WholeStream(x, y);
  }

  lemma WholeStream(x: Wcb, y: Wcb)
    requires Good(x, y) && Good(y, x) && y.rcv.next == x.snd.next == |x.snd.log| && x.snd.sb == []
    ensures x.snd.sending == [] && x.snd.standby == [] && Stream(y.rcv) == x.snd.written
  {
    assert x.snd.log[..y.rcv.next] == x.snd.log;
  }

  /** The next packet goes out. */
  lemma Launches(s: Sys, side: Side) returns (t: Sys)
    requires Ready2(s) && Me(s, side).snd.flights == [] && Queued(Me(s, side).snd)
    requires Me(s, side).snd.next <= |Me(s, side).snd.log| && Me(s, side).snd.rwnd > Need(Me(s, side).snd)
    ensures Along(s, t) && Peer(t, side) == Peer(s, side)
    ensures var x, x1 := Me(s, side), Me(t, side);
            && Moves(x, x1) && x1.snd.next > x.snd.next && Load(x1.snd) < Load(x.snd) && x1.snd.una == x.snd.una
            && x1.rcv.keepProbes == x.rcv.keepProbes
  {
    hide AllReady, Connected, Reaches, CanReach, CheckSend, Good, Moves, NoSynAhead, Along, Need, Queued, Load, Logs;
    SidesReady(s, side);
    var x, y := Me(s, side), Peer(s, side);
    var env := Clear(x.rcv.rwndTimer);
    NextGoesOut(x, y, env);
    CallSends(x, env);
    var step := Transmit(side, env);
    t := Apply(s, step);
    AlongOne(s, step);
  }

  /** If the sender can go on, there is a run without a write after which its peer has every byte and it waits for
      nothing. */
  lemma {:induction false} Finishes(s: Sys, side: Side) returns (t: Sys)
    requires Ready2(s) && Me(s, side).rcv.keepProbes < KEEPALIVE_PROBES
    requires Me(s, side).snd.next <= |Me(s, side).snd.log| && CanGo(Me(s, side))
    ensures Along(s, t) && Done(t, side)
    decreases Load(Me(s, side).snd), Me(s, side).snd.next - Peer(s, side).rcv.next, Me(s, side).snd.next - Me(s, side).snd.una
  {
    hide AllReady, Connected, Reaches, CanReach, Good, Moves, NoSynAhead, Along, SameSending, Received, Need, Queued, Load, Done, Up;
    PeerKnown(s, side);
    KnownNeed(s, side);
    var x, y := Me(s, side), Peer(s, side);
    if y.rcv.next < x.snd.next {
      var t1 := Advances(s, side);
      AlongReady(s, t1);
      PeerKnown(t1, side);
      MovesLoad(x, Me(t1, side));
      t := Finishes(t1, side);
      AlongThen(s, t1, t);
    } else if x.snd.una < x.snd.next {
      var t1 := Pings(s, side);
      AlongReady(s, t1);
      PeerKnown(t1, side);
      KnownNeed(t1, side);
      MovesLoad(x, Me(t1, side));
      t := Finishes(t1, side);
      AlongThen(s, t1, t);
    } else {
      var t1 := Settles(s, side);
      AlongReady(s, t1);
      SameSendingQueue(x.snd, Me(t1, side).snd);
      if !Queued(x.snd) {
        SettledIsDone(t1, side);
        t := t1;
      } else {
        var t2 := Launches(t1, side);
        AlongReady(t1, t2);
        AlongThen(s, t1, t2);
        MovesLoad(x, Me(t1, side));
        PeerKnown(t2, side);
        t := Finishes(t2, side);
        AlongThen(s, t2, t);
      }
    }
  }

  lemma MovesLoad(x: Wcb, x1: Wcb)
    requires Moves(x, x1) && x1.snd.next <= |x1.snd.log|
    ensures 0 <= Load(x1.snd) <= Load(x.snd)
  {}

  lemma SameSendingQueue(s: Snd, s1: Snd)
    requires SameSending(s, s1) && s.next <= |s.log|
    ensures s1.next == s.next && Queued(s1) == Queued(s) && Need(s1) == Need(s) && Load(s1) == Load(s) && |s1.log| == |s.log|
  {}
}
