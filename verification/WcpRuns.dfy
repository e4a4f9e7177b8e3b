/** Steps of an endpoint on a network that takes every packet, one packet at a time, and runs made of them. */
module WcpRuns {
  import opened Arithmetic
  import opened Bytes
  import opened WcpModel
  import opened WcpInvariant
  import opened WcpSystem

  /** Every send succeeds. */
  function Clear(now: nat): Env { Env(now, _ => 0, _ => Sent) }

  // ---- sending ----

  /** The endpoint once its control packets are out. */
  function Flushed(x: Wcb, now: nat): Wcb
  {
    x.(snd := x.snd.(ignoreSeqSpace := []),
       rcv := if WindowUpdateDue(x, now) then x.rcv.(rwndTimer := now) else x.rcv)
  }

  lemma {:induction false} FlushAll(s: SendStep, now: nat)
    requires !s.stop
    ensures var r := FlushControl(s, Clear(now));
            r.w == s.w.(snd := s.w.snd.(ignoreSeqSpace := [])) && !r.stop && s.out <= r.out
    decreases CopiesLeft(s.w.snd.ignoreSeqSpace)
  {
    if s.w.snd.ignoreSeqSpace != [] {
      var c := s.w.snd.ignoreSeqSpace[0];
      var p := Stamp(c.pack, s.w.rcv);
      if c.copies == 0 {
        FlushAll(s.(w := PopFront(s.w)), now);
      } else {
        FlushAll(SendStep(SetFront(s.w, p, c.copies - 1), s.out + [p], false), now);
      }
    }
  }

  lemma SendsControls(x: Wcb, now: nat) returns (out: seq<Pack>)
    requires !x.snd.sendError
    ensures CheckSend(x, Clear(now)) == SendLoop(SendStep(Flushed(x, now), out, false), Clear(now))
    ensures SendAsserts(x, Clear(now)) == SendLoopAsserts(SendStep(Flushed(x, now), out, false), Clear(now))
  {
    hide SendLoop, SendLoopAsserts, FlushControl;
    var s0 := SendStep(UpdateWindow(x, now), [], false);
    FlushAll(s0, now);
    out := FlushControl(s0, Clear(now)).out;
    assert FlushControl(s0, Clear(now)) == SendStep(Flushed(x, now), out, false);
  }

  ghost predicate Empty(s: Snd) { s.sending == [] && s.standby == [] && s.sb == [] }

  lemma NothingToSend(s: SendStep, env: Env)
    requires Empty(s.w.snd)
    ensures SendLoop(s, env) == s
  {
    var w2 := Refill(s.w);
    assert s.w.snd.sending + s.w.snd.standby == [];
    assert w2 == s.w;
  }

  /** Room for a packet of `n` bytes. */
  predicate Room(w: Wcb, n: nat) { n + HEADER_LEN + w.cc.nflight < Min(w.cc.cwnd, w.snd.rwnd) }

  lemma LaunchesOne(s: SendStep, o: OutPack, now: nat)
    requires s.w.snd.sending == [o] && s.w.snd.standby == [] && s.w.snd.sb == [] && Room(s.w, |o.pack.data|) && !s.stop
    ensures SendLoop(s, Clear(now)) == SendStep(Launch(s.w, now), s.out + [Stamp(o.pack, s.w.rcv)], false)
    ensures SendLoopAsserts(s, Clear(now)) <==> AssertsBefore(s.w) && AssertsAfter(s.w)
  {
    hide Stamp, Refill;
    var s1 := SendStep(Launch(s.w, now), s.out + [Stamp(o.pack, s.w.rcv)], false);
    assert s1.w.snd.sending == [];
    assert PumpSending(s, Clear(now)) == PumpSending(s1, Clear(now)) == s1;
    assert PumpAsserts(s1, Clear(now));
    RefillsNothing(s1.w);
  }

  lemma RefillsNothing(w: Wcb)
    requires Empty(w.snd)
    ensures Refill(w) == w
  {
    assert w.snd.sending + w.snd.standby == [];
  }

  function Alone(w: Wcb, o: OutPack): Wcb { w.(snd := w.snd.(sending := [o], standby := [])) }

  /** One packet that waits goes out. */
  lemma TransmitQueued(x: Wcb, o: OutPack, now: nat)
    requires !x.snd.sendError && x.snd.sending == [] && x.snd.standby == [o] && x.snd.sb == [] && Room(x, |o.pack.data|)
    ensures var w, r := Alone(Flushed(x, now), o), CheckSend(x, Clear(now));
            && r.w == Launch(w, now) && Stamp(o.pack, x.rcv) in r.out
            && (SendAsserts(x, Clear(now)) <==> AssertsBefore(w) && AssertsAfter(w))
  {
    hide Stamp, Launch, CheckSend, SendAsserts, AssertsBefore, AssertsAfter;
    var out := SendsControls(x, now);
    var s := SendStep(Flushed(x, now), out, false);
    var w2 := Refill(s.w);
    assert s.w.snd.sending + s.w.snd.standby == [o];
    assert w2 == Alone(s.w, o);
    RefillShrinks(s.w);
    LaunchesOne(s.(w := w2), o, now);
    assert SendLoop(s, Clear(now)) == SendLoop(s.(w := w2), Clear(now));
    assert SendLoopAsserts(s, Clear(now)) == SendLoopAsserts(s.(w := w2), Clear(now));
    StampSame(o.pack, x, now);
  }

  lemma StampSame(p: Pack, x: Wcb, now: nat)
    ensures Stamp(p, Flushed(x, now).rcv) == Stamp(p, x.rcv)
  {}

  function DataOut(x: Wcb, data: seq<u8>): OutPack { SequencedPack(x.snd.dsn, Item(DATA_FLAGS, data)) }

  /** The endpoint with the bytes of its send buffer cut off as one packet. */
  function Cut(w: Wcb): Wcb
  {
    w.(snd := w.snd.(dsn := w.snd.dsn + 1, sb := [], sending := [DataOut(w, w.snd.sb)],
                     log := w.snd.log + [Item(DATA_FLAGS, w.snd.sb)]))
  }

  /** Bytes that fit one packet go out as one. */
  lemma TransmitData(x: Wcb, now: nat)
    requires !x.snd.sendError && x.snd.sending == [] && x.snd.standby == [] && 0 < |x.snd.sb| <= MDU && Room(x, |x.snd.sb|)
    requires MTU < x.cc.cwnd - x.cc.nflight < 0x1_0000_0000
    ensures var w, r := Cut(Flushed(x, now)), CheckSend(x, Clear(now));
            && r.w == Launch(w, now) && Stamp(DataOut(x, x.snd.sb).pack, x.rcv) in r.out
  {
    hide Stamp, Launch, CheckSend, SendAsserts, SendLoopAsserts, AssertsBefore, AssertsAfter;
    var out := SendsControls(x, now);
    var s := SendStep(Flushed(x, now), out, false);
    CutsOne(s.w);
    var w2 := Refill(s.w);
    RefillShrinks(s.w);
    LaunchesOne(s.(w := w2), DataOut(x, x.snd.sb), now);
    assert SendLoop(s, Clear(now)) == SendLoop(s.(w := w2), Clear(now));
    StampSame(DataOut(x, x.snd.sb).pack, x, now);
  }

  lemma CutsOne(w: Wcb)
    requires w.snd.sending == [] && w.snd.standby == [] && 0 < |w.snd.sb| <= MDU
    requires MTU < w.cc.cwnd - w.cc.nflight < 0x1_0000_0000
    ensures Refill(w) == Cut(w)
  {
    var w1 := DrainStandby(w);
    assert w1 == w;
    var n := |w.snd.sb|;
    assert w.snd.sb[..n] == w.snd.sb && w.snd.sb[n..] == [];
    assert Segment(w) == Cut(w);
    var rest := Wrap32(Wrap32(w.cc.cwnd - w.cc.nflight) - n);
    assert Segments(w, Wrap32(w.cc.cwnd - w.cc.nflight)) == Segments(Cut(w), rest);
    assert Segments(Cut(w), rest) == Cut(w);
  }

  // ---- receiving ----

  /** The endpoint with one packet taken in and the report of it queued. */
  function TakenIn(w: Wcb, p: Pack, now: nat): Wcb
  {
    var s := NoteHeader(w.snd, p);
    w.(snd := s.(ignoreSeqSpace := s.ignoreSeqSpace + SackControls([p.seqNo], s.dsn)),
       rcv := w.rcv.(keepTimer := now, keepProbes := 0, received := [p]))
  }

  ghost predicate Waiting(r: Rcv) { r.received == [] && r.sackedTmp == [] }

  lemma ArrivesOne(w: Wcb, p: Pack)
    requires w.rcv.received == [] && w.rcv.sackedTmp == [] && Sequenced(p) && p.seqNo == w.rcv.next
    ensures Arrivals(w, [p]) == Arrival(w.(snd := NoteHeader(w.snd, p), rcv := w.rcv.(sackedTmp := [p.seqNo], received := [p])), [])
  {
    assert [p][..0] == [];
    assert Arrivals(w, [p]) == Arrive(Arrival(w, []), p);
    assert [] + [p.seqNo] == [p.seqNo];
  }

  /** The expected packet, alone, is consumed at once. */
  lemma ReceiveNext(w: Wcb, p: Pack, now: nat)
    requires Waiting(w.rcv) && Sequenced(p) && p.seqNo == w.rcv.next && |w.rcv.rbStandby| + |p.data| <= w.rcv.rbCapacity
    requires p.flags.syn ==> w.state == SynReceived || w.state == SynSent
    ensures var c := ConsumeHead(TakenIn(w, p, now)); CheckRecv(w, [p], Clear(now)) == c.(rcv := SwapBuffers(c.rcv))
  {
    hide SwapBuffers, NoteHeader, SackControls, ConsumeHead, Deliver;
    var w0 := w.(rcv := w.rcv.(keepTimer := now, keepProbes := 0));
    ArrivesOne(w0, p);
    var a := Arrivals(w0, [p]);
    assert Sack(a.w) == TakenIn(w, p, now);
    var t := TakenIn(w, p, now);
    assert AbsorbAcks(t, [], Clear(now)) == t;
    DeliversOne(t, p);
  }

  lemma DeliversOne(t: Wcb, p: Pack)
    requires t.rcv.received == [p] && p.seqNo == t.rcv.next && !HeadTooBig(t.rcv) && !Aborts(t)
    ensures Deliver(t) == ConsumeHead(t)
  {
    var c := ConsumeHead(t);
    assert c.rcv.received == [];
    assert Deliver(c) == c;
  }

  /** Two packets in one batch, the expected one and the next. */
  function TakenTwo(w: Wcb, p: Pack, q: Pack, now: nat): Wcb
  {
    var s := NoteHeader(NoteHeader(w.snd, p), q);
    w.(snd := s.(ignoreSeqSpace := s.ignoreSeqSpace + SackControls([p.seqNo, q.seqNo], s.dsn)),
       rcv := w.rcv.(keepTimer := now, keepProbes := 0, received := [p, q]))
  }

  lemma ArrivesTwo(w: Wcb, p: Pack, q: Pack, now: nat)
    requires Waiting(w.rcv) && Sequenced(p) && Sequenced(q) && p.seqNo == w.rcv.next && q.seqNo == p.seqNo + 1
    ensures var w0 := w.(rcv := w.rcv.(keepTimer := now, keepProbes := 0));
            var a := Arrivals(w0, [p, q]);
            Sack(a.w) == TakenTwo(w, p, q, now) && a.acked == []
  {
    hide NoteHeader, SackControls;
    var w0 := w.(rcv := w.rcv.(keepTimer := now, keepProbes := 0));
    ArrivesOne(w0, p);
    assert [p, q][..1] == [p];
    assert Arrivals(w0, [p, q]) == Arrive(Arrivals(w0, [p]), q);
    assert [p.seqNo] + [q.seqNo] == [p.seqNo, q.seqNo];
    assert Insert([p], q) == [p, q];
  }

  // ---- runs, one step appended ----

  ghost predicate CanReach(s: Sys, t: Sys) { exists steps :: Reaches(s, steps, t) }

  lemma {:induction false} ReachesMore(s: Sys, steps: seq<Step>, t: Sys, step: Step)
    requires Reaches(s, steps, t) && Allowed(t, step)
    ensures Reaches(s, steps + [step], Apply(t, step))
    decreases |steps|
  {
    hide Allowed, Apply;
    if steps == [] {
      assert [step][1..] == [];
      assert Reaches(Apply(t, step), [], Apply(t, step));
      assert steps + [step] == [step];
    } else {
      ReachesMore(Apply(s, steps[0]), steps[1..], t, step);
      assert (steps + [step])[1..] == steps[1..] + [step];
    }
  }

  lemma StartsHere(s: Sys)
    ensures CanReach(s, s)
  {
    assert Reaches(s, [], s);
  }

  lemma OneMore(s: Sys, t: Sys, step: Step)
    requires CanReach(s, t) && Allowed(t, step)
    ensures CanReach(s, Apply(t, step))
  {
    var steps :| Reaches(s, steps, t);
    ReachesMore(s, steps, t, step);
  }

  lemma {:induction false} ReachesAll(s: Sys, steps: seq<Step>, t: Sys, more: seq<Step>, u: Sys)
    requires Reaches(s, steps, t) && Reaches(t, more, u)
    ensures Reaches(s, steps + more, u)
    decreases |steps|
  {
    hide Allowed, Apply;
    if steps == [] {
      assert steps + more == more;
    } else {
      ReachesAll(Apply(s, steps[0]), steps[1..], t, more, u);
      assert (steps + more)[1..] == steps[1..] + more;
    }
  }

  lemma Then(s: Sys, t: Sys, u: Sys)
    requires CanReach(s, t) && CanReach(t, u)
    ensures CanReach(s, u)
  {
    var steps :| Reaches(s, steps, t);
    var more :| Reaches(t, more, u);
    ReachesAll(s, steps, t, more, u);
  }

  function Other(side: Side): Side { if side == A then B else A }

  lemma PutSides(s: Sys, side: Side, w: Wcb, out: seq<Pack>)
    ensures var t := Put(s, side, w, out);
            && Me(t, side) == w && Peer(t, side) == Peer(s, side)
            && Me(t, Other(side)) == Me(s, Other(side)) && Peer(t, Other(side)) == w
            && Outgoing(s, side) <= Outgoing(t, side) && Incoming(t, side) == Incoming(s, side)
            && Incoming(t, Other(side)) == Outgoing(t, side) && (forall p :: p in out ==> p in Outgoing(t, side))
  {}
}
