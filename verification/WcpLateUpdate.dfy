/** The standstill, reached: a run from the start of a connection in which a window update that was overtaken arrives
    late, and after which the connector never sends again. */
module WcpLateUpdate {
  import opened Arithmetic
  import opened Bytes
  import opened WcpModel
  import opened WcpInvariant
  import opened WcpSystem
  import opened WcpRuns
  import opened WcpEffects
  import opened WcpReady
  import opened WcpProgress
  import WcpHandshake
  import WcpStall
  import opened WcpWindowUpdate

  // ---- single steps ----

  function Marked(p: Pack, r: Rcv): Pack { Stamp(p.(flags := p.flags.(wnd := true)), r) }

  /** The network takes one of the two copies of a report that carries an update, and no more. */
  lemma OneCopyOut(w: Wcb, now: nat)
    requires !w.snd.sendError && WindowUpdateDue(w, now) && w.snd.ignoreSeqSpace != [] && w.snd.ignoreSeqSpace[0].copies == 2
    ensures var q := w.snd.ignoreSeqSpace;
            var p := Marked(q[0].pack, w.rcv);
            var r := CheckSend(w, Only(1, now));
            && r.out == [p]
            && r.w == w.(snd := w.snd.(ignoreSeqSpace := [Control(p, 1)] + q[1..]), rcv := w.rcv.(rwndTimer := now))
  {
    hide SendLoop;
    var q, env := w.snd.ignoreSeqSpace, Only(1, now);
    var p := Marked(q[0].pack, w.rcv);
    var u := UpdateWindow(w, now);
    var s0 := SendStep(u, [], false);
    var s1 := SendStep(SetFront(u, p, 1), [p], false);
    assert u.snd.ignoreSeqSpace[1..] == q[1..];
    assert [] + [p] == [p];
    assert FlushControl(s0, env) == FlushControl(s1, env);
    assert s1.w.snd.ignoreSeqSpace[1..] == q[1..];
    assert Stamp(p, s1.w.rcv) == p;
  }

  lemma {:induction false} AllOld(w: Wcb, acks: seq<nat>, env: Env)
    requires forall i :: 0 <= i < |acks| ==> acks[i] < w.snd.una
    ensures AbsorbAcks(w, acks, env) == w
  {
    if acks != [] {
      AllOld(w, acks[..|acks| - 1], env);
    }
  }

  /** A report whose numbers are all acknowledged tells only what its header says. */
  lemma HearsReport(a: Wcb, p: Pack)
    requires p.flags.sack && a.rcv.received == [] && a.rcv.sackedTmp == [] && a.rcv.rbStandby == []
    requires forall n :: n in p.acks ==> n < Max(a.snd.una, p.ack)
    ensures CheckRecv(a, [p], Clear(0)) == a.(snd := NoteHeader(a.snd, p), rcv := a.rcv.(keepTimer := 0, keepProbes := 0))
  {
    hide AbsorbAcks;
    var w0 := a.(rcv := a.rcv.(keepTimer := 0, keepProbes := 0));
    assert [p][..0] == [];
    assert Arrivals(w0, [p]) == Arrive(Arrival(w0, []), p);
    assert [] + p.acks == p.acks;
    var w1 := w0.(snd := NoteHeader(w0.snd, p));
    assert Arrivals(w0, [p]) == Arrival(w1, p.acks);
    assert SackControls([], w1.snd.dsn) == [];
    assert Sack(w1) == w1;
    assert forall i :: 0 <= i < |p.acks| ==> p.acks[i] in p.acks;
    AllOld(w1, p.acks, Clear(0));
    assert Deliver(w1) == w1;
  }

  // ---- the sweep when everything is acknowledged ----

  lemma GrowsOnly(cc: Cc, o: OutPack, now: nat, clock: nat)
    requires cc.cwnd <= CWND_MAX && TotalBytes(o) <= cc.nflight < 0x1_0000_0000
    ensures var c := HandlePackAcked(cc, o, now, clock);
            cc.cwnd <= c.cwnd <= CWND_MAX && c.nflight == cc.nflight - TotalBytes(o)
  {
    hide SampleRtt, CheckCwnd;
    SampleBeside(cc, o, now);
    var c := SampleRtt(cc, o, now);
    Fits32(cc.nflight - TotalBytes(o));
    CwndGrowsOnly(c.(nflight := Wrap32(c.nflight - TotalBytes(o))), TotalBytes(o), clock);
  }

  lemma CwndGrowsOnly(cc: Cc, size: nat, clock: nat)
    requires cc.cwnd <= CWND_MAX
    ensures var c := CheckCwnd(cc, size, clock); cc.cwnd <= c.cwnd <= CWND_MAX && c.nflight == cc.nflight
  {
    hide AvoidanceDue;
    var g := GrowCwnd(cc, size, clock);
    assert g.cwnd >= cc.cwnd && g.nflight == cc.nflight;
  }

  lemma {:induction false} AllSwept(s: Sweep, env: Env)
    requires s.w.snd.unaUpdate && s.w.cc.cwnd <= CWND_MAX && Counted(s.w)
    requires forall i :: 0 <= i < |s.w.snd.flights| ==> s.w.snd.flights[i].pack.seqNo < s.w.snd.una
    ensures var t := SweepFrom(s, 0, env);
            && t == s.(w := s.w.(cc := t.w.cc, snd := s.w.snd.(flights := [])))
            && t.w.cc.nflight == 0 && s.w.cc.cwnd <= t.w.cc.cwnd <= CWND_MAX
    decreases |s.w.snd.flights|
  {
    if s.w.snd.flights != [] {
      FirstAcked(s.w, env);
      hide AckFlight, Counted;
      var s1 := s.(w := AckFlight(s.w, 0, env));
      assert SweepFrom(s, 0, env) == SweepFrom(s1, 0, env);
      AllSwept(s1, env);
    }
  }

  lemma FirstAcked(w: Wcb, env: Env)
    requires w.snd.flights != [] && w.cc.cwnd <= CWND_MAX && Counted(w)
    ensures var w1 := AckFlight(w, 0, env);
            && w1 == w.(cc := w1.cc, snd := w.snd.(flights := w.snd.flights[1..]))
            && Counted(w1) && w.cc.cwnd <= w1.cc.cwnd <= CWND_MAX
  {
    hide HandlePackAcked;
    var o := w.snd.flights[0];
    FlightBytesAt(w.snd.flights, 0);
    GrowsOnly(w.cc, o, env.now, env.clock(o.pack.seqNo));
    assert RemoveAt(w.snd.flights, 0) == w.snd.flights[1..];
  }

  lemma SweptClean(a: Wcb)
    requires a.snd.unaUpdate && a.cc.cwnd <= CWND_MAX && Counted(a)
    requires forall i :: 0 <= i < |a.snd.flights| ==> a.snd.flights[i].pack.seqNo < a.snd.una
    ensures var r := CheckFlights(a, Clear(0));
            && r.out == [] && r.w == a.(cc := r.w.cc, snd := a.snd.(flights := [], unaUpdate := false, lastRtoTimer := 0))
            && r.w.cc.nflight == 0 && a.cc.cwnd <= r.w.cc.cwnd <= CWND_MAX
  {
    hide SweepFrom;
    AllSwept(Sweep(a.(snd := a.snd.(lastRtoTimer := 0)), [], 0, 0), Clear(0));
  }

  // ---- the connector hears an acknowledgement of everything ----

  lemma FlightsBelowNext(x: Wcb, y: Wcb)
    requires Good(x, y)
    ensures Counted(x) && x.snd.next + |x.snd.sending + x.snd.standby| == x.snd.dsn == |x.snd.log|
    ensures forall i :: 0 <= i < |x.snd.flights| ==> x.snd.flights[i].pack.seqNo < x.snd.next
  {}

  lemma HearsAll(s: Sys, q: Pack, n: nat, d: nat) returns (t: Sys)
    requires Inv(s) && Feeding(s.a, n, d) && s.a.rcv.rbStandby == [] && s.a.snd.una < d
    requires q in s.wireBA && q.flags.sack && q.ack == d && forall m :: m in q.acks ==> m < d
    ensures CanReach(s, t) && t.b == s.b && t.wireBA == s.wireBA
    ensures Feeding(t.a, 0, d) && t.a.snd.una == d && t.a.snd.rwnd == q.wnd && t.a.rcv == s.a.rcv.(keepTimer := 0, keepProbes := 0)
  {
    hide CheckRecv, CheckFlights, Reaches, CanReach, Good;
    var step := Receive(A, [q], Clear(0));
    var s1 := Apply(s, step);
    StartsHere(s);
    OneMore(s, s, step);
    HearsReport(s.a, q);
    FlightsBelowNext(s.a, s.b);
    assert Counted(s1.a) by { StillCounted(s.a, s1.a); }
    SweptClean(s1.a);
    t := Apply(s1, Retransmit(A, Clear(0)));
    OneMore(s, s1, Retransmit(A, Clear(0)));
  }

  /** The acceptor sends all its control packets: the one in front goes first. */
  lemma SendsAll(s: Sys) returns (t: Sys, q: Pack)
    requires Answered(s.b) && s.b.snd.ignoreSeqSpace != [] && s.b.snd.ignoreSeqSpace[0].copies > 0 && !s.b.rcv.rwndMore
    ensures CanReach(s, t) && t.a == s.a && q in t.wireBA && s.wireBA <= t.wireBA
    ensures q == Stamp(s.b.snd.ignoreSeqSpace[0].pack, s.b.rcv) && t.b == s.b.(snd := s.b.snd.(ignoreSeqSpace := []))
  {
    hide CheckSend, Reaches, CanReach, Stamped;
    var env := Clear(0);
    t := Apply(s, Transmit(B, env));
    StartsHere(s);
    OneMore(s, s, Transmit(B, env));
    q := Stamp(s.b.snd.ignoreSeqSpace[0].pack, s.b.rcv);
    AnsweredSends(s.b);
    StampedHas(s.b.snd.ignoreSeqSpace, s.b.rcv, 0);
  }

  lemma AnsweredSends(b: Wcb)
    requires Answered(b) && !b.rcv.rwndMore
    ensures var r := CheckSend(b, Clear(0));
            && r.out == Stamped(b.snd.ignoreSeqSpace, b.rcv) && r.w == b.(snd := b.snd.(ignoreSeqSpace := []))
  {
    hide SendLoop, FlushControl, Stamped, Packets;
    var s0 := SendStep(b, [], false);
    assert UpdateWindow(b, 0) == b;
    FlushSendsAll(s0, Clear(0));
    FlushLeaves(s0, Clear(0));
    FlushNoError(s0, Clear(0));
    var s := FlushControl(s0, Clear(0));
    assert [] + Stamped(b.snd.ignoreSeqSpace, b.rcv) == Stamped(b.snd.ignoreSeqSpace, b.rcv);
    NothingToSend(s, Clear(0));
  }

  // ---- the run ----

  lemma ReachedInv(s: Sys, t: Sys)
    requires Start(s) && CanReach(s, t)
    ensures Inv(t)
  {
    var steps :| Reaches(s, steps, t);
    StartInv(s);
    RunInv(s, steps, t);
  }

  /** The acceptor's buffer is filled and read, and a report that carries the update is sent once of twice. */
  lemma UpdateHalfSent(g: Garbage, h: Garbage) returns (s: Sys, t: Sys, p: Pack)
    ensures Start(s) && CanReach(s, t) && Feeding(t.a, 2 * HEADER_LEN + 17 + 7 * MTU, 10) && Filling(t.b, 10, 0) && t.b.state == Established
    ensures t.b.rcv.rb != [] && t.a.rcv.wnd == CAP && t.a.rcv.rbStandby == [] && t.a.snd.una <= 1
    ensures p in t.wireBA && p.flags.sack && p.ack == 10 && p.acks == [1] && p.wnd == CAP
    ensures t.b.snd.ignoreSeqSpace != [] && t.b.snd.ignoreSeqSpace[0] == Control(p, 1) && p.flags.wnd
  {
    hide CheckSend, CheckRecv, Reaches, CanReach, Feeding, Filling, Answered, Greeted, Listening, Inv, Stream;
    s := Sys(Active(0, CAP, CAP, g), Passive(0, CAP, CAP, h), {}, {});
    var s1 := Opens(s, g, h);
    var s2 := Answers(s1);
    var s3 := Confirms(s2);
    var s4 := FeedRound(s3, [0], 2 * HEADER_LEN, 2, 0);
    var s5 := FeedRounds(s4, 7, 2 * HEADER_LEN + 17, 3, 0);
    var s6 := WantsUpdate(s5, 10);
    Then(s, s1, s2);
    Then(s, s2, s3);
    Then(s, s3, s4);
    Then(s, s4, s5);
    Then(s, s5, s6);
    var front := Control(ControlPack(1, SACK_FLAGS, [1]), SACK_COPIES);
    assert s3.b.snd.ignoreSeqSpace[0] == front by { AnsweredDsn(s2.b); }
    assert s6.b.snd.ignoreSeqSpace[0] == front by {
      assert s4.b.snd.ignoreSeqSpace[0] == front;
      assert s5.b.snd.ignoreSeqSpace[0] == s4.b.snd.ignoreSeqSpace[0];
    }
    FillingAnswered(s6.b, 10, 0);
    AnsweredSound(s6.b);
    OneCopyOut(s6.b, 2000);
    p := Marked(front.pack, s6.b.rcv);
    t := Apply(s6, Transmit(B, Only(1, 2000)));
    OneMore(s, s6, Transmit(B, Only(1, 2000)));
    assert p in t.wireBA;
    StillFilling(s6.b, t.b, 10, 0);
    FillingNext(s6.b, 10, 0);
  }

  lemma AnsweredDsn(b: Wcb)
    requires Answered(b)
    ensures b.snd.dsn == 1
  {}

  lemma AnsweredSound(b: Wcb)
    requires Answered(b)
    ensures !b.snd.sendError
  {}

  lemma StillFilling(b: Wcb, b1: Wcb, d: nat, j: nat)
    requires Filling(b, d, j)
    requires b1 == b.(snd := b.snd.(ignoreSeqSpace := b1.snd.ignoreSeqSpace), rcv := b.rcv.(rwndTimer := b1.rcv.rwndTimer))
    ensures Filling(b1, d, j)
  {}

  lemma FillingNext(b: Wcb, d: nat, j: nat)
    requires Filling(b, d, j)
    ensures b.rcv.next == d && b.rcv.received == [] && b.errno == 0 && b.rcv.rbCapacity == CAP && b.rcv.keepProbes == 0
  {}

  /** The buffer is filled again, and the second copy goes out with the window as it is now: all but shut. */
  lemma UpdateSentLate(s0: Sys, s: Sys, p: Pack) returns (t: Sys, q: Pack)
    requires Start(s0) && CanReach(s0, s)
    requires Feeding(s.a, 2 * HEADER_LEN + 17 + 7 * MTU, 10) && Filling(s.b, 10, 0) && s.b.state == Established
    requires s.b.rcv.rb != [] && s.a.rcv.wnd == CAP && s.a.rcv.rbStandby == [] && s.a.snd.una <= 1
    requires p in s.wireBA && p.flags.sack && p.ack == 10 && p.acks == [1] && p.wnd == CAP
    requires s.b.snd.ignoreSeqSpace != [] && s.b.snd.ignoreSeqSpace[0] == Control(p, 1) && p.flags.wnd
    ensures CanReach(s0, t) && Feeding(t.a, 0, 17) && Filling(t.b, 17, 7 * MDU) && t.b.state == Established
    ensures q in t.wireBA && q.flags.sack && q.flags.wnd && q.ack == 17 && q.acks == [1] && q.wnd <= MTU
    ensures t.b.rcv.rb != [] && t.b.rcv.rwndLess && t.b.snd.ignoreSeqSpace == []
    ensures t.a.rcv.wnd == CAP && t.a.rcv.rbStandby == [] && t.a.snd.una == 17 && t.a.snd.rwnd == q.wnd > 17
  {
    hide CheckSend, CheckRecv, Reaches, CanReach, Feeding, Filling, Answered, Inv, Start;
    ReachedInv(s0, s);
    var s1 := HearsAll(s, p, 2 * HEADER_LEN + 17 + 7 * MTU, 10);
    var s2 := FeedRounds(s1, 7, 0, 10, 0);
    Then(s0, s, s1);
    Then(s0, s1, s2);
    FillingAnswered(s2.b, 17, 7 * MDU);
    FillingNext(s2.b, 17, 7 * MDU);
    assert s2.b.snd.ignoreSeqSpace[0] == s1.b.snd.ignoreSeqSpace[0];
    var s3;
    s3, q := SendsAll(s2);
    Then(s0, s2, s3);
    ReachedInv(s0, s3);
    StillFilling(s2.b, s3.b, 17, 7 * MDU);
    t := HearsAll(s3, q, 7 * MTU, 17);
    Then(s0, s3, t);
  }

  /** The connector hears of the open window, and then, late, of the one before. */
  lemma UpdateArrivesLate(s0: Sys, s: Sys, q: Pack) returns (t: Sys)
    requires Start(s0) && CanReach(s0, s) && Feeding(s.a, 0, 17) && Filling(s.b, 17, 7 * MDU) && s.b.state == Established
    requires q in s.wireBA && q.flags.sack && q.flags.wnd && q.ack == 17 && q.acks == [1] && q.wnd <= MTU
    requires s.b.rcv.rb != [] && s.b.rcv.rwndLess && s.b.snd.ignoreSeqSpace == []
    requires s.a.rcv.wnd == CAP && s.a.rcv.rbStandby == [] && s.a.snd.una == 17 && s.a.snd.rwnd == q.wnd > 17
    ensures CanReach(s0, t) && Feeding(t.a, 0, 18) && Filling(t.b, 18, 1) && t.b.state == Established
    ensures !t.b.rcv.rwndMore && !t.b.rcv.rwndLess && t.b.snd.ignoreSeqSpace == []
    ensures t.a.snd.una == 18 && t.a.snd.rwnd == q.wnd && t.a.rcv.keepProbes == 0
  {
    hide CheckSend, CheckRecv, Reaches, CanReach, Feeding, Filling, Answered, Inv, Start;
    var s1 := WantsUpdate(s, 17);
    var s2 := FeedRound(s1, [0], 0, 17, 0);
    Then(s0, s, s1);
    Then(s0, s1, s2);
    FillingAnswered(s2.b, 18, 1);
    FillingNext(s2.b, 18, 1);
    var s3, q3 := SendsAll(s2);
    Then(s0, s2, s3);
    ReachedInv(s0, s3);
    StillFilling(s2.b, s3.b, 18, 1);
    var s4 := HearsAll(s3, q3, 17, 18);
    Then(s0, s3, s4);
    FeedingUp(s4.a, 0, 18);
    t := Apply(s4, Receive(A, [q], Clear(0)));
    OneMore(s0, s4, Receive(A, [q], Clear(0)));
    HearsReport(s4.a, q);
    StillFeeding(s4.a, t.a, 0, 18);
  }

  lemma FeedingUp(a: Wcb, n: nat, d: nat)
    requires Feeding(a, n, d)
    ensures a.state == Established && a.errno == 0 && !a.snd.sendError && a.rcv.rbCapacity == CAP && a.rcv.next == 1 && a.snd.dsn == d
    ensures a.rcv.received == [] && a.rcv.sackedTmp == [] && a.snd.sending == [] && a.snd.standby == [] && a.snd.sb == [] && a.snd.sbCapacity == CAP
  {}

  lemma StillFeeding(a: Wcb, a1: Wcb, n: nat, d: nat)
    requires Feeding(a, n, d) && a1 == a.(snd := a.snd.(rwnd := a1.snd.rwnd), rcv := a.rcv.(keepTimer := 0, keepProbes := 0))
    ensures Feeding(a1, n, d)
  {}

  /** A run from the start of a connection, and what was on its way then lost: both sides are connected and alive, the
      connector has a packet's worth to send, everything it sent is acknowledged, and its window is shut. */
  lemma LateUpdateShuts(g: Garbage, h: Garbage) returns (s: Sys, t: Sys, u: Sys)
    ensures Start(s) && CanReach(s, t) && Loses(t, u) && WcpStall.Alive(u, A) && WcpStall.Shut(u, A)
    ensures !WcpStall.CanFinish(u, A)
  {
    hide WcpStall.CanFinish, WcpStall.Alive, WcpStall.Shut;
    hide CheckSend, CheckRecv, Reaches, CanReach, Feeding, Filling, Answered, Inv, Start;
    var s1, s2, s3, p, q;
    s, s1, p := UpdateHalfSent(g, h);
    s2, q := UpdateSentLate(s, s1, p);
    s3 := UpdateArrivesLate(s, s2, q);
    var bytes: seq<u8> := seq(MDU, _ => 0);
    t := Apply(s3, Write(A, bytes));
    OneMore(s, s3, Write(A, bytes));
    u := t.(wireAB := {}, wireBA := {});
    FeedingUp(s3.a, 0, 18);
    FillingNext(s3.b, 18, 1);
    FillingAnswered(s3.b, 18, 1);
    AnsweredDsn(s3.b);
    AnsweredSound(s3.b);
    ReachedInv(s, s3);
    Shuts(s3, t, bytes);
    var steps :| Reaches(s, steps, t);
    WcpStall.CanFinishIff(s, steps, t, u, A);
  }

  lemma Shuts(s: Sys, t: Sys, bytes: seq<u8>)
    requires Inv(s) && |bytes| == MDU && t == Apply(s, Write(A, bytes))
    requires Up(s.a) && Up(s.b) && s.a.snd.sending == [] && s.a.snd.standby == [] && s.a.snd.sb == [] && s.a.snd.sbCapacity == CAP
    requires s.a.snd.dsn == 18 == s.a.snd.una == s.b.rcv.next && s.b.snd.dsn == 1 == s.a.rcv.next
    requires s.a.snd.rwnd <= MTU && s.a.rcv.keepProbes == 0
    requires !s.b.rcv.rwndMore && !s.b.rcv.rwndLess && s.b.snd.ignoreSeqSpace == []
    ensures var u := t.(wireAB := {}, wireBA := {}); WcpStall.Alive(u, A) && WcpStall.Shut(u, A)
  {
    FlightsBelowNext(s.a, s.b);
    FlightsBelowNext(s.b, s.a);
    assert bytes[..MDU] == bytes;
  }
}
