/** Two WCP endpoints over a network that may lose, duplicate and reorder every packet ever sent. */
module WcpSystem {
  import opened Arithmetic
  import opened Bytes
  import opened WcpModel
  import opened WcpInvariant
  import opened WcpSending

  datatype Side = A | B

  /** `wireAB` holds every packet A ever sent; a delivery picks any of them, any number of times. */
  datatype Sys = Sys(a: Wcb, b: Wcb, wireAB: set<Pack>, wireBA: set<Pack>)

  datatype Step =
    | Write(side: Side, bytes: seq<u8>)
    | Read(side: Side, size: nat)
    | Receive(side: Side, batch: seq<Pack>, env: Env)
    | Retransmit(side: Side, env: Env)
    | Transmit(side: Side, env: Env)
    | Expire(side: Side, code: int)

  ghost function Me(s: Sys, side: Side): Wcb { if side == A then s.a else s.b }
  ghost function Peer(s: Sys, side: Side): Wcb { if side == A then s.b else s.a }
  ghost function Outgoing(s: Sys, side: Side): set<Pack> { if side == A then s.wireAB else s.wireBA }
  ghost function Incoming(s: Sys, side: Side): set<Pack> { if side == A then s.wireBA else s.wireAB }

  ghost function Put(s: Sys, side: Side, w: Wcb, out: seq<Pack>): Sys
  {
    var sent := set p | p in out;
    if side == A then Sys(w, s.b, s.wireAB + sent, s.wireBA) else Sys(s.a, w, s.wireAB, s.wireBA + sent)
  }

  // ---- the dispatch of `WCB::update` ----

  ghost predicate Live(w: Wcb)
  {
    w.state == SynSent || ((w.state == SynReceived || w.state == Established) && w.errno == 0)
  }

  /** What may happen next. The two sending steps also follow a `check_recv` that closed the endpoint or left an
      error in it, so they are not guarded. */
  ghost predicate Enabled(s: Sys, step: Step)
  {
    var w := Me(s, step.side);
    match step
    case Write(_, bytes) => bytes != []
    case Read(_, size) => size > 0
    case Receive(_, batch, _) => Live(w) && forall p :: p in batch ==> p in Incoming(s, step.side)
    case Retransmit(_, _) | Transmit(_, _) => true
    case Expire(_, _) => w.state == SynSent || ((w.state == SynReceived || w.state == Established) && w.errno != 0)
  }

  /** The domain of the theorems: no stand-alone window update. */
  ghost predicate Allowed(s: Sys, step: Step)
  {
    Enabled(s, step) && (step.Transmit? ==> !StandaloneWindowUpdate(Me(s, step.side), step.env.now))
  }

  ghost function Apply(s: Sys, step: Step): Sys
  {
    var w := Me(s, step.side);
    match step
    case Write(side, bytes) => Put(s, side, AppSend(w, bytes), [])
    case Read(side, size) => Put(s, side, AppRecv(w, size), [])
    case Receive(side, batch, env) => Put(s, side, CheckRecv(w, batch, env), [])
    case Retransmit(side, env) => var r := CheckFlights(w, env); Put(s, side, r.w, r.out)
    case Transmit(side, env) => var r := CheckSend(w, env); Put(s, side, r.w, r.out)
    case Expire(side, code) => Put(s, side, w.(state := Closed, errno := code), [])
  }

  ghost predicate Start(s: Sys)
  {
    exists now: nat, now': nat, sbA: nat, rbA: nat, sbB: nat, rbB: nat, g: Garbage, h: Garbage ::
      s == Sys(Active(now, sbA, rbA, g), Passive(now', sbB, rbB, h), {}, {})
  }

  ghost predicate Reaches(s: Sys, steps: seq<Step>, t: Sys)
    decreases |steps|
  {
    if steps == [] then s == t
    else Allowed(s, steps[0]) && Reaches(Apply(s, steps[0]), steps[1..], t)
  }

  // ---- the invariant ----

  ghost predicate WireTruthful(w: Wcb, wire: set<Pack>) { forall p :: p in wire ==> WireOk(w, p) }

  ghost predicate Inv(s: Sys)
  {
    && Good(s.a, s.b) && Good(s.b, s.a)
    && WireTruthful(s.a, s.wireAB) && WireTruthful(s.b, s.wireBA)
  }

  lemma FreshGood(x: Wcb, y: Wcb)
    requires exists st: State, now: nat, sb: nat, rb: nat, g: Garbage :: x == Init(st, now, sb, rb, g)
    requires exists st: State, now: nat, sb: nat, rb: nat, g: Garbage :: y == Init(st, now, sb, rb, g)
    ensures Good(x, y)
  {
    assert x.rcv.delivered + x.rcv.rb + x.rcv.rbStandby == [];
    assert y.snd.log[..0] == [];
  }

  lemma StartInv(s: Sys)
    requires Start(s)
    ensures Inv(s)
  {
    var now: nat, now': nat, sbA: nat, rbA: nat, sbB: nat, rbB: nat, g: Garbage, h: Garbage :|
      s == Sys(Active(now, sbA, rbA, g), Passive(now', sbB, rbB, h), {}, {});
    var a0 := Init(Syning, now, sbA, rbA, g);
    FreshGood(a0, s.b);
    FreshGood(s.b, a0);
    PushHandshakeKeeps(a0, s.b, SYN_FLAGS);
    KnowsGrows(s.b, a0, s.a);
  }

  lemma WireTruthfulGrows(w: Wcb, w1: Wcb, wire: set<Pack>, out: seq<Pack>)
    requires WireTruthful(w, wire) && Grows(w, w1) && w1.snd.next <= |w1.snd.log| && AllWireOk(w1, out)
    ensures WireTruthful(w1, wire + set p | p in out)
  {
    forall p | p in wire + set p | p in out ensures WireOk(w1, p) {
      if p in wire { WireOkGrows(w, w1, p); }
    }
  }

  /** A good step of one side re-establishes everything about both. */
  lemma PutInv(s: Sys, side: Side, w: Wcb, out: seq<Pack>)
    requires Inv(s) && StepOk(Me(s, side), w, Peer(s, side)) && AllWireOk(w, out)
    ensures Inv(Put(s, side, w, out))
  {
    KnowsGrows(Peer(s, side), Me(s, side), w);
    WireTruthfulGrows(Me(s, side), w, Outgoing(s, side), out);
  }

  lemma StepInv(s: Sys, step: Step)
    requires Inv(s) && Allowed(s, step)
    ensures Inv(Apply(s, step))
  {
    hide Local, Knows, Grows, LogOk, WireOk;
    var x := Me(s, step.side);
    var y := Peer(s, step.side);
    match step
    case Write(side, bytes) =>
      AppSendKeeps(x, y, bytes);
      PutInv(s, side, AppSend(x, bytes), []);
    case Read(side, size) =>
      AppRecvKeeps(x, y, size);
      PutInv(s, side, AppRecv(x, size), []);
    case Receive(side, batch, env) =>
      assert AllWireOk(y, batch) by {
        forall i | 0 <= i < |batch| ensures WireOk(y, batch[i]) { assert batch[i] in batch; }
      }
      CheckRecvKeeps(x, y, batch, env);
      PutInv(s, side, CheckRecv(x, batch, env), []);
    case Retransmit(side, env) =>
      CheckFlightsKeeps(x, y, env);
      PutInv(s, side, CheckFlights(x, env).w, CheckFlights(x, env).out);
    case Transmit(side, env) =>
      CheckSendKeeps(x, y, env);
      PutInv(s, side, CheckSend(x, env).w, CheckSend(x, env).out);
    case Expire(side, code) =>
      StateOnly(x, y, Closed, code);
      PutInv(s, side, x.(state := Closed, errno := code), []);
  }

  lemma {:induction false} RunInv(s: Sys, steps: seq<Step>, t: Sys)
    requires Inv(s) && Reaches(s, steps, t)
    ensures Inv(t)
    decreases |steps|
  {
    if steps != [] {
      StepInv(s, steps[0]);
      RunInv(Apply(s, steps[0]), steps[1..], t);
    }
  }

  // ---- what holds in every reachable state ----

  ghost function Stream(r: Rcv): seq<u8> { r.delivered + r.rb + r.rbStandby }

  lemma PrefixOf(a: seq<u8>, b: seq<u8>, c: seq<u8>, whole: seq<u8>)
    requires whole == a + b + c
    ensures a <= whole && whole[..|a|] == a
  {}

  lemma PrefixFromInv(s: Sys, side: Side)
    requires Inv(s)
    ensures Stream(Peer(s, side).rcv) <= Me(s, side).snd.written
  {
    var x, y := Peer(s, side), Me(s, side);
    PayloadSplit(y.snd.log, x.rcv.next);
    PrefixOf(Stream(x.rcv), Payload(y.snd.log[x.rcv.next..]), y.snd.sb, y.snd.written);
  }

  /** In-order prefix delivery: what a side has read or holds ready is a prefix of what its peer wrote. */
  lemma PrefixDelivery(s: Sys, steps: seq<Step>, t: Sys, side: Side)
    requires Start(s) && Reaches(s, steps, t)
    ensures Stream(Me(t, side).rcv) <= Peer(t, side).snd.written
    ensures Me(t, side).rcv.delivered <= Peer(t, side).snd.written
  {
    StartInv(s);
    RunInv(s, steps, t);
    var x, y := Me(t, side), Peer(t, side);
    PrefixFromInv(t, if side == A then B else A);
    PrefixOf(x.rcv.delivered, x.rcv.rb, x.rcv.rbStandby, Stream(x.rcv));
    assert y.snd.written[..|Stream(x.rcv)|][..|x.rcv.delivered|] == x.rcv.delivered;
  }

  /** An acknowledged number was received: whatever left the flights is at the peer. */
  lemma AcknowledgementSound(s: Sys, steps: seq<Step>, t: Sys, side: Side, n: nat)
    requires Start(s) && Reaches(s, steps, t)
    requires n < Me(t, side).snd.next && !InFlight(Me(t, side).snd.flights, n)
    ensures Received(Peer(t, side).rcv, n)
  {
    StartInv(s);
    RunInv(s, steps, t);
  }

  function Items(l: seq<Pack>): seq<Item> { seq(|l|, i requires 0 <= i < |l| => ItemOf(l[i])) }

  lemma {:induction false} SortedLowerBound(l: seq<Pack>, first: nat, i: nat)
    requires Sorted(l) && i < |l| && l[0].seqNo >= first
    ensures l[i].seqNo >= first + i
  {
    if i > 0 { SortedLowerBound(l, first, i - 1); }
  }

  /** If the numbers `first .. first+k-1` are all present and none is smaller, they come first. */
  lemma {:induction false} SortedStart(l: seq<Pack>, first: nat, k: nat)
    requires Sorted(l)
    requires forall i :: 0 <= i < |l| ==> l[i].seqNo >= first
    requires forall n :: first <= n < first + k ==> Has(l, n)
    ensures k <= |l| && forall i :: 0 <= i < k ==> l[i].seqNo == first + i
  {
    if k > 0 {
      SortedStart(l, first, k - 1);
      var n := first + k - 1;
      assert Has(l, n);
      var j :| 0 <= j < |l| && l[j].seqNo == n;
      assert j >= k - 1;
      SortedLowerBound(l, first, k - 1);
      assert l[k - 1].seqNo <= l[j].seqNo;
    }
  }

  /** A sorted list that holds every number of `first .. |log|-1` and nothing else is the rest of the log. */
  lemma SortedCovers(l: seq<Pack>, log: seq<Item>, first: nat)
    requires Sorted(l) && first <= |log|
    requires forall i :: 0 <= i < |l| ==> first <= l[i].seqNo < |log| && ItemOf(l[i]) == log[l[i].seqNo]
    requires forall n :: first <= n < |log| ==> Has(l, n)
    ensures Items(l) == log[first..]
  {
    SortedStart(l, first, |log| - first);
    if l != [] { SortedLowerBound(l, first, |l| - 1); }
  }

  /** Once a sender has nothing buffered, queued or in flight, its peer holds every byte written. */
  lemma NothingLost(s: Sys, steps: seq<Step>, t: Sys, side: Side)
    requires Start(s) && Reaches(s, steps, t)
    requires var x := Me(t, side).snd; x.sb == [] && x.standby == [] && x.sending == [] && x.flights == []
    ensures var r := Peer(t, side).rcv;
            Stream(r) + Payload(Items(r.received)) == Me(t, side).snd.written
  {
    StartInv(s);
    RunInv(s, steps, t);
    var x, y := Me(t, side), Peer(t, side);
    var log := x.snd.log;
    forall n | y.rcv.next <= n < |log| ensures Has(y.rcv.received, n) {
      assert Received(y.rcv, n);
    }
    forall i | 0 <= i < |y.rcv.received|
      ensures y.rcv.next <= y.rcv.received[i].seqNo < |log| && ItemOf(y.rcv.received[i]) == log[y.rcv.received[i].seqNo]
    {
      assert FromLog(y.rcv.received[i], x.snd);
    }
    SortedCovers(y.rcv.received, log, y.rcv.next);
    PayloadSplit(log, y.rcv.next);
  }

  ghost predicate SequenceSpaceOk(x: Snd)
  {
    && x.una <= x.next && x.next + |x.sending + x.standby| == x.dsn
    && (forall i :: 0 <= i < |x.sending + x.standby| ==> (x.sending + x.standby)[i].pack.seqNo == x.next + i)
    && (forall i :: 0 <= i < |x.flights| ==> x.flights[i].pack.seqNo < x.next)
    && (forall i, j :: 0 <= i < j < |x.flights| ==> x.flights[i].pack.seqNo != x.flights[j].pack.seqNo)
    && (x.sending != [] ==> x.sending[0].pack.seqNo == x.next >= x.una && Sequenced(x.sending[0].pack))
  }

  lemma SequenceSpaceFacts(x: Wcb, y: Wcb)
    requires Good(x, y) && Good(y, x)
    ensures SequenceSpaceOk(x.snd)
  {
    hide LogOk, AcksOk, Accounted, ReorderOk;
    if x.snd.sending != [] { HeadIsNext(x, y); }
  }

  /** The sender's sequence space: queued packets are numbered `next .. dsn-1` in order, `una <= next`,
      flights are distinct and below `next`, so the assertions of the send loop hold. */
  lemma SequenceSpace(s: Sys, steps: seq<Step>, t: Sys, side: Side)
    requires Start(s) && Reaches(s, steps, t)
    ensures SequenceSpaceOk(Me(t, side).snd)
  {
    hide Good;
    StartInv(s);
    RunInv(s, steps, t);
    SequenceSpaceFacts(Me(t, side), Peer(t, side));
  }

  /** Exact in-flight accounting and the bounds of the congestion controller. */
  lemma AccountingAndBounds(s: Sys, steps: seq<Step>, t: Sys, side: Side)
    requires Start(s) && Reaches(s, steps, t)
    ensures var w := Me(t, side);
            && w.cc.nflight == FlightBytes(w.snd.flights) <= w.cc.nflightMax
            && RTO_MIN <= w.cc.rto <= RTO_MAX
            && 5 * MTU <= w.cc.cwnd <= CWND_MAX
            && 4 * MTU <= w.cc.ssthresh <= SSTHRESH_MAX
            && w.cc.slowStart != w.cc.congestAvoidance
            && forall i :: 0 <= i < |w.snd.flights| ==> TotalBytes(w.snd.flights[i]) <= w.cc.nflight
  {
    StartInv(s);
    RunInv(s, steps, t);
    var w := Me(t, side);
    forall i | 0 <= i < |w.snd.flights| ensures TotalBytes(w.snd.flights[i]) <= w.cc.nflight {
      FlightBytesAt(w.snd.flights, i);
    }
  }

  /** The reorder buffer: strictly sorted, nothing below the expected number, every entry the peer's own
      item; and what was consumed is exactly the items numbered `0 .. next-1`, once each and in order. */
  lemma ReorderBuffer(s: Sys, steps: seq<Step>, t: Sys, side: Side)
    requires Start(s) && Reaches(s, steps, t)
    ensures var r, log := Me(t, side).rcv, Peer(t, side).snd.log;
            && Sorted(r.received) && r.next <= |log|
            && (forall i :: 0 <= i < |r.received| ==>
                  r.next <= r.received[i].seqNo < |log| && ItemOf(r.received[i]) == log[r.received[i].seqNo])
            && Stream(r) == Payload(log[..r.next])
  {
    StartInv(s);
    RunInv(s, steps, t);
    var r := Me(t, side).rcv;
    forall i | 0 <= i < |r.received| ensures FromLog(r.received[i], Peer(t, side).snd) {}
  }

  /** Delivery is maximal: it stops only before a gap, before a packet that does not fit, or on an abort. */
  lemma {:induction false} DeliveryStops(w: Wcb)
    requires Sorted(w.rcv.received)
    ensures var d := Deliver(w);
            d.state == Closed || !HeadExpected(d.rcv) || HeadTooBig(d.rcv)
    decreases |w.rcv.received|
  {
    if HeadExpected(w.rcv) && !HeadTooBig(w.rcv) && !Aborts(w) {
      DeliveryStops(ConsumeHead(w));
    }
  }
}
