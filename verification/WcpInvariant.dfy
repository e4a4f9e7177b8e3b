/** What every step of one WCP endpoint keeps, about itself and about what it knows of its peer. */
module WcpInvariant {
  import opened Arithmetic
  import opened Bytes
  import opened WcpModel

  // ---- the endpoint alone ----

  /** `q` holds the packets numbered from `first` on, one after the other, as the log has them. */
  ghost predicate Numbered(q: seq<OutPack>, log: seq<Item>, first: nat)
  {
    first + |q| <= |log|
    && forall i :: 0 <= i < |q| ==> q[i].pack.seqNo == first + i && ItemOf(q[i].pack) == log[first + i]
  }

  ghost predicate FlightsLogged(s: Snd)
  {
    s.next <= |s.log|
    && (forall i :: 0 <= i < |s.flights| ==>
          s.flights[i].pack.seqNo < s.next && ItemOf(s.flights[i].pack) == s.log[s.flights[i].pack.seqNo])
    && (forall i, j :: 0 <= i < j < |s.flights| ==> s.flights[i].pack.seqNo != s.flights[j].pack.seqNo)
  }

  /** The sequence space: what is queued is exactly `next .. dsn-1`, in order. */
  ghost predicate SeqSpace(s: Snd)
  {
    && |s.log| == s.dsn
    && s.next + |s.sending + s.standby| == s.dsn
    && Numbered(s.sending + s.standby, s.log, s.next)
    && FlightsLogged(s)
    && Payload(s.log) + s.sb == s.written
    && |s.sb| <= s.sbCapacity
  }

  ghost predicate ItemOk(item: Item)
  {
    && |item.data| <= MDU
    && !item.flags.sack && !item.flags.keepAlive && !item.flags.keepAliveReply && !item.flags.wnd
    && (item.data != [] ==> item.flags.dat && !item.flags.syn)
  }

  ghost predicate LogOk(log: seq<Item>) { forall i :: 0 <= i < |log| ==> ItemOk(log[i]) }

  ghost function FlightBytes(flights: seq<OutPack>): nat
  {
    if flights == [] then 0 else FlightBytes(flights[..|flights| - 1]) + TotalBytes(flights[|flights| - 1])
  }

  /** Bounds of the congestion controller. */
  ghost predicate CcOk(cc: Cc)
  {
    && RTO_MIN <= cc.rto <= RTO_MAX
    && CWND_AFTER_LOSS <= cc.cwnd <= CWND_MAX
    && SSTHRESH_MIN <= cc.ssthresh <= SSTHRESH_MAX
    && cc.slowStart != cc.congestAvoidance
    && cc.nflight <= cc.nflightMax < CWND_MAX
    && (cc.lostDetected ==> cc.lostCompensation <= CWND_MAX)
  }

  ghost predicate Accounted(w: Wcb)
  {
    CcOk(w.cc) && w.cc.nflight == FlightBytes(w.snd.flights)
  }

  ghost predicate Has(l: seq<Pack>, n: nat) { exists i :: 0 <= i < |l| && l[i].seqNo == n }

  ghost predicate InFlight(flights: seq<OutPack>, n: nat) { exists i :: 0 <= i < |flights| && flights[i].pack.seqNo == n }

  /** The endpoint has received the item numbered `n`. */
  ghost predicate Received(r: Rcv, n: nat) { n < r.next || Has(r.received, n) }

  ghost predicate Sorted(l: seq<Pack>) { forall i, j :: 0 <= i < j < |l| ==> l[i].seqNo < l[j].seqNo }

  ghost predicate ReorderOk(r: Rcv)
  {
    && Sorted(r.received)
    && (forall i :: 0 <= i < |r.received| ==> r.received[i].seqNo >= r.next)
    && |r.rb| <= r.rbCapacity && |r.rbStandby| <= r.rbCapacity
  }

  /** Acknowledgements about to go out name received items only, and no queued control packet is sequenced. */
  ghost predicate AcksOk(w: Wcb)
  {
    && (forall i :: 0 <= i < |w.rcv.sackedTmp| ==> Received(w.rcv, w.rcv.sackedTmp[i]))
    && (forall i :: 0 <= i < |w.snd.ignoreSeqSpace| ==> ControlOk(w.rcv, w.snd.ignoreSeqSpace[i].pack))
  }

  ghost predicate ControlOk(r: Rcv, p: Pack)
  {
    && !Sequenced(p)
    && (p.flags.sack ==> forall i :: 0 <= i < |p.acks| ==> Received(r, p.acks[i]))
  }

  ghost predicate Local(w: Wcb)
  {
    SeqSpace(w.snd) && LogOk(w.snd.log) && Accounted(w) && ReorderOk(w.rcv) && AcksOk(w)
  }

  // ---- the endpoint and its peer ----

  /** Everything `x` holds about `y` is true of `y`. */
  ghost predicate Knows(x: Wcb, y: Wcb)
  {
    && x.rcv.next <= y.snd.next <= |y.snd.log|
    && (forall i :: 0 <= i < |x.rcv.received| ==> FromLog(x.rcv.received[i], y.snd))
    && x.rcv.delivered + x.rcv.rb + x.rcv.rbStandby == Payload(y.snd.log[..x.rcv.next])
    && x.snd.una <= y.rcv.next
    && (forall n: nat :: n < x.snd.next ==> Received(y.rcv, n) || InFlight(x.snd.flights, n))
  }

  ghost predicate FromLog(p: Pack, s: Snd)
  {
    p.seqNo < s.next && s.next <= |s.log| && ItemOf(p) == s.log[p.seqNo]
  }

  /** A packet sent by `w` says nothing that `w` does not keep true. */
  ghost predicate WireOk(w: Wcb, p: Pack)
  {
    && p.ack <= w.rcv.next
    && (Sequenced(p) ==> FromLog(p, w.snd))
    && (p.flags.sack ==> forall i :: 0 <= i < |p.acks| ==> Received(w.rcv, p.acks[i]))
  }

  ghost predicate AllWireOk(w: Wcb, ps: seq<Pack>) { forall i :: 0 <= i < |ps| ==> WireOk(w, ps[i]) }

  ghost predicate Good(x: Wcb, y: Wcb) { Local(x) && Knows(x, y) && LogOk(y.snd.log) }

  /** `w1` is `w` later: nothing logged, launched or received is taken back. */
  ghost predicate Grows(w: Wcb, w1: Wcb)
  {
    && |w.snd.log| <= |w1.snd.log| && w.snd.log == w1.snd.log[..|w.snd.log|]
    && w.snd.next <= w1.snd.next
    && w.rcv.next <= w1.rcv.next
    && forall n: nat :: Received(w.rcv, n) ==> Received(w1.rcv, n)
  }

  ghost predicate StepOk(x: Wcb, x1: Wcb, y: Wcb) { Good(x1, y) && Grows(x, x1) }

  lemma GrowsTransitive(a: Wcb, b: Wcb, c: Wcb)
    requires Grows(a, b) && Grows(b, c)
    ensures Grows(a, c)
  {
    assert a.snd.log == c.snd.log[..|a.snd.log|] by {
      assert b.snd.log[..|a.snd.log|] == c.snd.log[..|b.snd.log|][..|a.snd.log|];
    }
  }

  lemma StayOk(x: Wcb, y: Wcb)
    requires Good(x, y)
    ensures StepOk(x, x, y)
  {}

  lemma WireOkGrows(w: Wcb, w1: Wcb, p: Pack)
    requires WireOk(w, p) && Grows(w, w1) && w1.snd.next <= |w1.snd.log|
    ensures WireOk(w1, p)
  {
    if Sequenced(p) {
      assert w.snd.log[p.seqNo] == w1.snd.log[..|w.snd.log|][p.seqNo];
    }
  }

  lemma AllWireOkGrows(w: Wcb, w1: Wcb, ps: seq<Pack>)
    requires AllWireOk(w, ps) && Grows(w, w1) && w1.snd.next <= |w1.snd.log|
    ensures AllWireOk(w1, ps)
  {
    forall i | 0 <= i < |ps| ensures WireOk(w1, ps[i]) { WireOkGrows(w, w1, ps[i]); }
  }

  /** What `x` knows about its peer stays true while the peer moves on. */
  lemma KnowsGrows(x: Wcb, y: Wcb, y1: Wcb)
    requires Knows(x, y) && Grows(y, y1) && y1.snd.next <= |y1.snd.log|
    ensures Knows(x, y1)
  {
    assert y.snd.log[..x.rcv.next] == y1.snd.log[..x.rcv.next] by {
      assert y1.snd.log[..|y.snd.log|][..x.rcv.next] == y1.snd.log[..x.rcv.next];
    }
    forall i | 0 <= i < |x.rcv.received| ensures FromLog(x.rcv.received[i], y1.snd) {
      assert FromLog(x.rcv.received[i], y.snd);
      assert y.snd.log[x.rcv.received[i].seqNo] == y1.snd.log[..|y.snd.log|][x.rcv.received[i].seqNo];
    }
  }

  // ---- payload ----

  lemma PayloadAppend(items: seq<Item>, item: Item)
    ensures Payload(items + [item]) == Payload(items) + item.data
  {
    assert (items + [item])[..|items|] == items;
  }

  lemma {:induction false} PayloadConcat(a: seq<Item>, b: seq<Item>)
    ensures Payload(a + b) == Payload(a) + Payload(b)
  {
    if b == [] {
      assert a + b == a;
    } else {
      var n := |b| - 1;
      PayloadConcat(a, b[..n]);
      assert (a + b)[..|a + b| - 1] == a + b[..n];
      assert Payload(a + b) == Payload(a + b[..n]) + b[n].data;
      assert Payload(a) + Payload(b[..n]) + b[n].data == Payload(a) + (Payload(b[..n]) + b[n].data);
    }
  }

  lemma PayloadSplit(items: seq<Item>, k: nat)
    requires k <= |items|
    ensures Payload(items) == Payload(items[..k]) + Payload(items[k..])
  {
    assert items == items[..k] + items[k..];
    PayloadConcat(items[..k], items[k..]);
  }

  // ---- sums over the flights ----

  lemma {:induction false} FlightBytesSplit(a: seq<OutPack>, b: seq<OutPack>)
    ensures FlightBytes(a + b) == FlightBytes(a) + FlightBytes(b)
  {
    if b == [] {
      assert a + b == a;
    } else {
      var n := |b| - 1;
      assert (a + b)[..|a + b| - 1] == a + b[..n];
      FlightBytesSplit(a, b[..n]);
    }
  }

  lemma {:induction false} FlightBytesAt(flights: seq<OutPack>, i: nat)
    requires i < |flights|
    ensures FlightBytes(flights) == FlightBytes(RemoveAt(flights, i)) + TotalBytes(flights[i])
  {
    var n := |flights| - 1;
    var rest := RemoveAt(flights, i);
    if i == n {
      assert rest == flights[..n];
    } else {
      FlightBytesAt(flights[..n], i);
      assert rest[..n - 1] == RemoveAt(flights[..n], i);
      assert rest[n - 1] == flights[n];
    }
  }

  lemma FlightBytesUpdate(flights: seq<OutPack>, i: nat, o: OutPack)
    requires i < |flights| && TotalBytes(o) == TotalBytes(flights[i])
    ensures FlightBytes(flights[i := o]) == FlightBytes(flights)
  {
    FlightBytesAt(flights, i);
    FlightBytesAt(flights[i := o], i);
    assert RemoveAt(flights[i := o], i) == RemoveAt(flights, i);
  }

  // ---- congestion control ----

  lemma CheckCwndKeeps(cc: Cc, size: nat, clock: nat)
    requires CcOk(cc)
    ensures CcOk(CheckCwnd(cc, size, clock))
    ensures CheckCwnd(cc, size, clock).nflight == cc.nflight
  {
    var c := GrowCwnd(cc, size, clock);
    assert c.cwnd >= cc.cwnd;
    assert CcOk(c.(cwnd := cc.cwnd));
  }

  /** A round-trip sample changes the timeout only, and clamps it. */
  lemma SampleRttKeeps(cc: Cc, o: OutPack, now: nat)
    requires CcOk(cc)
    ensures CcOk(SampleRtt(cc, o, now)) && SampleRtt(cc, o, now).nflight == cc.nflight
  {}

  lemma HandlePackAckedKeeps(cc: Cc, o: OutPack, now: nat, clock: nat)
    requires CcOk(cc) && TotalBytes(o) <= cc.nflight
    ensures CcOk(HandlePackAcked(cc, o, now, clock))
    ensures HandlePackAcked(cc, o, now, clock).nflight == cc.nflight - TotalBytes(o)
  {
    hide CcOk, SampleRtt, CheckCwnd;
    var c := SampleRtt(cc, o, now);
    SampleRttKeeps(cc, o, now);
    CheckCwndKeeps(c.(nflight := Wrap32(c.nflight - TotalBytes(o))), TotalBytes(o), clock);
  }

  lemma FastRecoveryKeeps(cc: Cc, ack: nat, una: nat)
    requires CcOk(cc)
    ensures CcOk(FastRecovery(cc, ack, una)) && FastRecovery(cc, ack, una).nflight == cc.nflight
  {}

  /** The fast-recovery compensation does not underflow. */
  lemma BackOffKeeps(w: Wcb, now: nat)
    requires CcOk(w.cc)
    ensures CcOk(BackOff(w, now).cc) && BackOff(w, now).cc.nflight == w.cc.nflight
    ensures Max(w.cc.nflightMax / 2, SSTHRESH_MIN) >= w.cc.nflight / 2
  {}

  /** Only the controller changed. */
  lemma CcOnly(x: Wcb, y: Wcb, cc: Cc)
    requires Good(x, y) && CcOk(cc) && cc.nflight == x.cc.nflight
    ensures StepOk(x, x.(cc := cc), y)
  {
    assert AcksOk(x.(cc := cc));
  }

  // ---- acknowledgement ----

  lemma InFlightRemoved(flights: seq<OutPack>, i: nat, n: nat)
    requires i < |flights| && InFlight(flights, n) && n != flights[i].pack.seqNo
    ensures InFlight(RemoveAt(flights, i), n)
  {
    var j :| 0 <= j < |flights| && flights[j].pack.seqNo == n;
    var k := if j < i then j else j - 1;
    assert RemoveAt(flights, i)[k] == flights[j];
  }

  lemma RemoveKeepsFlights(s: Snd, i: nat)
    requires FlightsLogged(s) && i < |s.flights|
    ensures FlightsLogged(s.(flights := RemoveAt(s.flights, i)))
  {
    var fs := RemoveAt(s.flights, i);
    forall k | 0 <= k < |fs| ensures fs[k] == s.flights[if k < i then k else k + 1] {}
  }

  /** Dropping a flight whose item the peer received. */
  lemma AckFlightKeeps(x: Wcb, y: Wcb, i: nat, env: Env)
    requires Good(x, y) && i < |x.snd.flights| && Received(y.rcv, x.snd.flights[i].pack.seqNo)
    ensures StepOk(x, AckFlight(x, i, env), y)
  {
    var o := x.snd.flights[i];
    var x1 := AckFlight(x, i, env);
    FlightBytesAt(x.snd.flights, i);
    HandlePackAckedKeeps(x.cc, o, env.now, env.clock(o.pack.seqNo));
    RemoveKeepsFlights(x.snd, i);
    forall n: nat | n < x1.snd.next ensures Received(y.rcv, n) || InFlight(x1.snd.flights, n) {
      if !Received(y.rcv, n) { InFlightRemoved(x.snd.flights, i, n); }
    }
  }

  lemma AbsorbAckKeeps(x: Wcb, y: Wcb, ack: nat, env: Env)
    requires Good(x, y) && Received(y.rcv, ack)
    ensures StepOk(x, AbsorbAck(x, ack, env), y)
  {
    hide Grows, Knows, SeqSpace, AcksOk, LogOk, ReorderOk;
    if ack < x.snd.una {
      StayOk(x, y);
    } else {
      var x1 := NoteBiggest(x, ack);
      CcOnly(x, y, x1.cc);
      var x2 := AckIfFlying(x1, ack, env);
      var i := FindFlight(x1.snd.flights, ack);
      if i < |x1.snd.flights| { AckFlightKeeps(x1, y, i, env); }
      GrowsTransitive(x, x1, x2);
      FastRecoveryKeeps(x2.cc, ack, x2.snd.una);
      CcOnly(x2, y, FastRecovery(x2.cc, ack, x2.snd.una));
      GrowsTransitive(x, x2, AbsorbAck(x, ack, env));
    }
  }

  ghost predicate AllReceived(r: Rcv, acks: seq<nat>) { forall i :: 0 <= i < |acks| ==> Received(r, acks[i]) }

  lemma {:induction false} AbsorbAcksKeeps(x: Wcb, y: Wcb, acks: seq<nat>, env: Env)
    requires Good(x, y) && AllReceived(y.rcv, acks)
    ensures StepOk(x, AbsorbAcks(x, acks, env), y)
  {
    if acks != [] {
      var rest := acks[..|acks| - 1];
      AbsorbAcksKeeps(x, y, rest, env);
      AbsorbAckKeeps(AbsorbAcks(x, rest, env), y, acks[|acks| - 1], env);
      GrowsTransitive(x, AbsorbAcks(x, rest, env), AbsorbAcks(x, acks, env));
    }
  }

  // ---- arrival ----

  lemma {:induction false} InsertMembers(l: seq<Pack>, p: Pack)
    ensures forall q :: q in Insert(l, p) ==> q == p || q in l
    ensures forall q :: q in l ==> q in Insert(l, p)
  {
    if l != [] {
      var n := |l| - 1;
      assert l == l[..n] + [l[n]];
      InsertMembers(l[..n], p);
    }
  }

  ghost predicate Below(l: seq<Pack>, bound: nat) { forall i :: 0 <= i < |l| ==> l[i].seqNo < bound }

  lemma {:induction false} InsertBelow(l: seq<Pack>, p: Pack, bound: nat)
    requires Below(l, bound) && p.seqNo < bound
    ensures Below(Insert(l, p), bound)
  {
    if l != [] && p.seqNo < l[|l| - 1].seqNo { InsertBelow(l[..|l| - 1], p, bound); }
  }

  lemma SortedSnoc(l: seq<Pack>, p: Pack)
    requires Sorted(l) && Below(l, p.seqNo)
    ensures Sorted(l + [p])
  {}

  lemma HasSnoc(l: seq<Pack>, p: Pack, n: nat)
    requires Has(l, n) || p.seqNo == n
    ensures Has(l + [p], n)
  {
    if p.seqNo == n {
      assert (l + [p])[|l|].seqNo == n;
    } else {
      var k :| 0 <= k < |l| && l[k].seqNo == n;
      assert (l + [p])[k].seqNo == n;
    }
  }

  /** The list stays strictly sorted and now holds the sequence number. */
  lemma {:induction false} InsertSorted(l: seq<Pack>, p: Pack)
    requires Sorted(l)
    ensures Sorted(Insert(l, p)) && Has(Insert(l, p), p.seqNo)
  {
    if l == [] {
      assert [p][0].seqNo == p.seqNo;
    } else {
      var n := |l| - 1;
      if p.seqNo < l[n].seqNo {
        InsertSorted(l[..n], p);
        InsertBelow(l[..n], p, l[n].seqNo);
        SortedSnoc(Insert(l[..n], p), l[n]);
        HasSnoc(Insert(l[..n], p), l[n], p.seqNo);
      } else if l[n].seqNo < p.seqNo {
        SortedSnoc(l, p);
        HasSnoc(l, p, p.seqNo);
      }
    }
  }

  /** A packet whose number is already there is dropped; any other makes the list one longer. */
  lemma {:induction false} InsertLength(l: seq<Pack>, p: Pack)
    requires Sorted(l)
    ensures Has(l, p.seqNo) ==> Insert(l, p) == l
    ensures !Has(l, p.seqNo) ==> |Insert(l, p)| == |l| + 1
  {
    if l != [] {
      var n := |l| - 1;
      InsertLength(l[..n], p);
      if Has(l[..n], p.seqNo) {
        var j :| 0 <= j < n && l[..n][j].seqNo == p.seqNo;
        assert l[j].seqNo == p.seqNo && l == l[..n] + [l[n]];
      } else if Has(l, p.seqNo) {
        var j :| 0 <= j < |l| && l[j].seqNo == p.seqNo;
        assert j == n || l[..n][j].seqNo == p.seqNo;
      }
    }
  }

  lemma HasInsert(l: seq<Pack>, p: Pack, n: nat)
    requires Sorted(l) && Has(l, n)
    ensures Has(Insert(l, p), n)
  {
    InsertMembers(l, p);
    var i :| 0 <= i < |l| && l[i].seqNo == n;
    assert l[i] in l;
    var k :| 0 <= k < |Insert(l, p)| && Insert(l, p)[k] == l[i];
  }

  lemma PushControlKeeps(x: Wcb, y: Wcb, flags: Flags)
    requires Good(x, y) && (flags.keepAlive || flags.keepAliveReply) && !flags.sack
    ensures StepOk(x, PushControl(x, flags), y)
  {
    var x1 := PushControl(x, flags);
    forall i | 0 <= i < |x1.snd.ignoreSeqSpace| ensures ControlOk(x1.rcv, x1.snd.ignoreSeqSpace[i].pack) {}
  }

  lemma ControlOkGrows(r: Rcv, r1: Rcv, p: Pack)
    requires ControlOk(r, p) && forall n: nat :: Received(r, n) ==> Received(r1, n)
    ensures ControlOk(r1, p)
  {}

  /** The receiving half changed, received items only grew, the pending acks still name received items. */
  lemma AcksOkGrows(x: Wcb, x1: Wcb)
    requires AcksOk(x) && x1.snd.ignoreSeqSpace == x.snd.ignoreSeqSpace && x1.rcv.sackedTmp == x.rcv.sackedTmp
    requires forall n: nat :: Received(x.rcv, n) ==> Received(x1.rcv, n)
    ensures AcksOk(x1)
  {
    forall i | 0 <= i < |x1.snd.ignoreSeqSpace| ensures ControlOk(x1.rcv, x1.snd.ignoreSeqSpace[i].pack) {
      ControlOkGrows(x.rcv, x1.rcv, x1.snd.ignoreSeqSpace[i].pack);
    }
  }

  lemma StoreKeeps(x: Wcb, y: Wcb, p: Pack)
    requires Good(x, y) && FromLog(p, y.snd)
    ensures var r := if p.seqNo < x.rcv.next then x.rcv else x.rcv.(received := Insert(x.rcv.received, p));
            StepOk(x, x.(rcv := r), y) && Received(r, p.seqNo)
  {
    if p.seqNo >= x.rcv.next {
      var l := x.rcv.received;
      var l1 := Insert(l, p);
      var x1 := x.(rcv := x.rcv.(received := l1));
      InsertSorted(l, p);
      InsertMembers(l, p);
      forall n: nat | Received(x.rcv, n) ensures Received(x1.rcv, n) {
        if n >= x.rcv.next { HasInsert(l, p, n); }
      }
      forall i | 0 <= i < |l1| ensures FromLog(l1[i], y.snd) && l1[i].seqNo >= x.rcv.next {
        assert l1[i] in l1;
        if l1[i] != p { var j :| 0 <= j < |l| && l[j] == l1[i]; }
      }
      AcksOkGrows(x, x1);
    }
  }

  /** The header of any truthful packet: `una` moves to a number the peer expects next. */
  lemma NoteHeaderKeeps(x: Wcb, y: Wcb, p: Pack)
    requires Good(x, y) && WireOk(y, p)
    ensures StepOk(x, x.(snd := NoteHeader(x.snd, p)), y)
  {
    AcksOkGrows(x, x.(snd := NoteHeader(x.snd, p)));
  }

  /** A received number is queued for acknowledgement. */
  lemma NoteAckKeeps(x: Wcb, y: Wcb, n: nat)
    requires Good(x, y) && Received(x.rcv, n)
    ensures StepOk(x, x.(rcv := x.rcv.(sackedTmp := x.rcv.sackedTmp + [n])), y)
  {
    var x1 := x.(rcv := x.rcv.(sackedTmp := x.rcv.sackedTmp + [n]));
    forall m: nat ensures Received(x1.rcv, m) == Received(x.rcv, m) {}
    forall i | 0 <= i < |x1.rcv.sackedTmp| ensures Received(x1.rcv, x1.rcv.sackedTmp[i]) {
      if i < |x.rcv.sackedTmp| { assert Received(x.rcv, x.rcv.sackedTmp[i]); }
    }
    forall i | 0 <= i < |x1.snd.ignoreSeqSpace| ensures ControlOk(x1.rcv, x1.snd.ignoreSeqSpace[i].pack) {
      ControlOkGrows(x.rcv, x1.rcv, x1.snd.ignoreSeqSpace[i].pack);
    }
  }

  lemma ArriveKeeps(a: Arrival, x: Wcb, y: Wcb, p: Pack)
    requires StepOk(x, a.w, y) && AllReceived(y.rcv, a.acked) && WireOk(y, p)
    ensures StepOk(x, Arrive(a, p).w, y) && AllReceived(y.rcv, Arrive(a, p).acked)
  {
    hide Grows, Local, Knows, LogOk;
    var w := a.w.(snd := NoteHeader(a.w.snd, p));
    NoteHeaderKeeps(a.w, y, p);
    GrowsTransitive(x, a.w, w);
    if p.flags.keepAlive && !p.flags.sack {
      PushControlKeeps(w, y, KEEP_ALIVE_REPLY_FLAGS);
      GrowsTransitive(x, w, PushControl(w, KEEP_ALIVE_REPLY_FLAGS));
    } else if Sequenced(p) {
      StoreKeeps(w, y, p);
      var w1 := w.(rcv := if p.seqNo < w.rcv.next then w.rcv else w.rcv.(received := Insert(w.rcv.received, p)));
      GrowsTransitive(x, w, w1);
      NoteAckKeeps(w1, y, p.seqNo);
      GrowsTransitive(x, w1, Arrive(a, p).w);
    }
  }

  lemma {:induction false} ArrivalsKeep(x: Wcb, y: Wcb, batch: seq<Pack>)
    requires Good(x, y) && AllWireOk(y, batch)
    ensures StepOk(x, Arrivals(x, batch).w, y) && AllReceived(y.rcv, Arrivals(x, batch).acked)
  {
    if batch != [] {
      var rest := batch[..|batch| - 1];
      assert AllWireOk(y, rest) by {
        forall i | 0 <= i < |rest| ensures WireOk(y, rest[i]) { assert rest[i] == batch[i]; }
      }
      ArrivalsKeep(x, y, rest);
      ArriveKeeps(Arrivals(x, rest), x, y, batch[|batch| - 1]);
    }
  }

  /** What a list of SACK packets reports. */
  function Reported(cs: seq<Control>): seq<nat> { if cs == [] then [] else cs[0].pack.acks + Reported(cs[1..]) }

  /** The SACK packets report exactly the numbers collected, in order, each packet within the packet size and sent
      twice. */
  lemma {:induction false} SackControlsComplete(acks: seq<nat>, dsn: nat)
    ensures Reported(SackControls(acks, dsn)) == acks
    ensures forall i :: 0 <= i < |SackControls(acks, dsn)| ==> 0 < |SackControls(acks, dsn)[i].pack.acks| <= ACKS_PER_PACK
    ensures forall i :: 0 <= i < |SackControls(acks, dsn)| ==> SackControls(acks, dsn)[i].copies == 2 && SackControls(acks, dsn)[i].pack.flags == NO_FLAGS.(sack := true)
  {
    if acks != [] {
      var n := Min(|acks|, ACKS_PER_PACK);
      SackControlsComplete(acks[n..], dsn);
      assert SackControls(acks, dsn)[1..] == SackControls(acks[n..], dsn);
      assert acks[..n] + acks[n..] == acks;
    }
  }

  /** They report only what was received. */
  lemma {:induction false} SackControlsReport(acks: seq<nat>, dsn: nat, r: Rcv)
    requires AllReceived(r, acks)
    ensures forall i :: 0 <= i < |SackControls(acks, dsn)| ==> ControlOk(r, SackControls(acks, dsn)[i].pack)
  {
    if acks != [] {
      SackControlsReport(acks[Min(|acks|, ACKS_PER_PACK)..], dsn, r);
    }
  }

  lemma SackKeeps(x: Wcb, y: Wcb)
    requires Good(x, y)
    ensures StepOk(x, Sack(x), y)
  {
    var x1 := Sack(x);
    SackControlsReport(x.rcv.sackedTmp, x.snd.dsn, x.rcv);
    forall n: nat ensures Received(x1.rcv, n) == Received(x.rcv, n) {}
    forall i | 0 <= i < |x1.snd.ignoreSeqSpace| ensures ControlOk(x1.rcv, x1.snd.ignoreSeqSpace[i].pack) {
      ControlOkGrows(x.rcv, x1.rcv, x1.snd.ignoreSeqSpace[i].pack);
    }
  }

  // ---- delivery ----

  lemma NumberedExtends(q: seq<OutPack>, log: seq<Item>, first: nat, item: Item)
    requires Numbered(q, log, first) && first + |q| == |log|
    ensures Numbered(q + [SequencedPack(|log|, item)], log + [item], first)
  {}

  /** Giving the next sequence number to an item, queued last. */
  lemma PushHandshakeKeeps(x: Wcb, y: Wcb, flags: Flags)
    requires Good(x, y) && ItemOk(Item(flags, []))
    ensures StepOk(x, PushHandshake(x, flags), y)
  {
    var x1 := PushHandshake(x, flags);
    var item := Item(flags, []);
    NumberedExtends(x.snd.sending + x.snd.standby, x.snd.log, x.snd.next, item);
    assert x1.snd.sending + x1.snd.standby == x.snd.sending + x.snd.standby + [SequencedPack(x.snd.dsn, item)];
    PayloadAppend(x.snd.log, item);
  }

  lemma HasTail(l: seq<Pack>, n: nat)
    requires l != [] && Has(l, n) && n != l[0].seqNo
    ensures Has(l[1..], n)
  {
    var i :| 0 <= i < |l| && l[i].seqNo == n;
    assert l[1..][i - 1].seqNo == n;
  }

  ghost predicate Deliverable(r: Rcv)
  {
    HeadExpected(r) && !HeadTooBig(r)
  }

  lemma TakeHeadReorder(x: Wcb, y: Wcb)
    requires Good(x, y) && Deliverable(x.rcv)
    ensures ReorderOk(TakeHead(x.rcv))
    ensures forall n: nat :: Received(x.rcv, n) ==> Received(TakeHead(x.rcv), n)
    ensures forall i :: 0 <= i < |TakeHead(x.rcv).received| ==> FromLog(TakeHead(x.rcv).received[i], y.snd)
  {
    var l := x.rcv.received;
    var r1 := TakeHead(x.rcv);
    assert r1.received == l[1..] && r1.next == x.rcv.next + 1;
    forall n: nat | Received(x.rcv, n) ensures Received(r1, n) {
      if n > x.rcv.next { HasTail(l, n); }
    }
    forall i | 0 <= i < |r1.received| ensures r1.received[i].seqNo >= r1.next && FromLog(r1.received[i], y.snd) {
      assert r1.received[i] == l[i + 1] && l[0].seqNo < l[i + 1].seqNo;
    }
  }

  /** Consuming the expected item appends exactly its bytes, and the next number is the one expected. */
  lemma TakeHeadDelivers(x: Wcb, y: Wcb)
    requires Good(x, y) && Deliverable(x.rcv)
    ensures var r := TakeHead(x.rcv);
            r.next <= y.snd.next && r.delivered + r.rb + r.rbStandby == Payload(y.snd.log[..r.next])
  {
    var p := x.rcv.received[0];
    var r := TakeHead(x.rcv);
    assert FromLog(p, y.snd);
    assert y.snd.log[..r.next] == y.snd.log[..x.rcv.next] + [y.snd.log[x.rcv.next]];
    PayloadAppend(y.snd.log[..x.rcv.next], y.snd.log[x.rcv.next]);
    assert r.delivered + r.rb + r.rbStandby == (x.rcv.delivered + x.rcv.rb + x.rcv.rbStandby) + p.data;
  }

  lemma TakeHeadKeeps(x: Wcb, y: Wcb)
    requires Good(x, y) && Deliverable(x.rcv)
    ensures StepOk(x, x.(rcv := TakeHead(x.rcv)), y)
  {
    TakeHeadReorder(x, y);
    TakeHeadDelivers(x, y);
    AcksOkGrows(x, x.(rcv := TakeHead(x.rcv)));
  }

  /** Only the connection state changed. */
  lemma StateOnly(x: Wcb, y: Wcb, state: State, errno: int)
    requires Good(x, y)
    ensures StepOk(x, x.(state := state, errno := errno), y)
  {
    assert AcksOk(x.(state := state, errno := errno));
  }

  lemma ConsumeHeadKeeps(x: Wcb, y: Wcb)
    requires Good(x, y) && Deliverable(x.rcv)
    ensures StepOk(x, ConsumeHead(x), y)
  {
    hide Grows, Knows, SeqSpace, Accounted, AcksOk, LogOk, ReorderOk;
    var p := x.rcv.received[0];
    var w1 := x.(rcv := TakeHead(x.rcv));
    TakeHeadKeeps(x, y);
    if Aborts(x) {
      StateOnly(w1, y, Closed, E_ECONNABORTED);
      GrowsTransitive(x, w1, ConsumeHead(x));
    } else {
      var flags := if x.state == SynReceived then SYNACK_FLAGS else ACK_FLAGS;
      var w2 := if p.flags.syn then PushHandshake(w1, flags) else w1;
      if p.flags.syn {
        PushHandshakeKeeps(w1, y, flags);
        GrowsTransitive(x, w1, w2);
      }
      StateOnly(w2, y, ConsumeHead(x).state, w2.errno);
      GrowsTransitive(x, w2, ConsumeHead(x));
    }
  }

  /** Bookkeeping of the receiving half that leaves its contents alone. */
  lemma RcvBookkeeping(x: Wcb, y: Wcb, r: Rcv)
    requires Good(x, y)
    requires r.next == x.rcv.next && r.received == x.rcv.received && r.sackedTmp == x.rcv.sackedTmp
    requires r.rbCapacity == x.rcv.rbCapacity && |r.rb| <= r.rbCapacity && |r.rbStandby| <= r.rbCapacity
    requires r.delivered + r.rb + r.rbStandby == x.rcv.delivered + x.rcv.rb + x.rcv.rbStandby
    ensures StepOk(x, x.(rcv := r), y)
  {
    forall n: nat ensures Received(r, n) == Received(x.rcv, n) {}
    AcksOkGrows(x, x.(rcv := r));
  }

  lemma {:induction false} DeliverKeeps(x: Wcb, y: Wcb)
    requires Good(x, y)
    ensures StepOk(x, Deliver(x), y)
    decreases |x.rcv.received|
  {
    hide Grows, Knows, SeqSpace, Accounted, AcksOk, LogOk;
    if !HeadExpected(x.rcv) {
      StayOk(x, y);
    } else if HeadTooBig(x.rcv) {
      RcvBookkeeping(x, y, x.rcv.(rwndLess := true));
    } else {
      var x1 := ConsumeHead(x);
      ConsumeHeadKeeps(x, y);
      if Aborts(x) {
        assert Deliver(x) == x1;
      } else {
        DeliverKeeps(x1, y);
        assert Deliver(x) == Deliver(x1);
        GrowsTransitive(x, x1, Deliver(x1));
      }
    }
  }

  lemma ProbeKeeps(x: Wcb, y: Wcb, now: nat)
    requires Good(x, y)
    ensures StepOk(x, Probe(x, now), y)
  {
    hide Grows, Knows, SeqSpace, Accounted, AcksOk, LogOk;
    if x.rcv.keepProbes >= KEEPALIVE_PROBES {
      var x1 := x.(rcv := x.rcv.(recvError := true));
      RcvBookkeeping(x, y, x1.rcv);
      StateOnly(x1, y, x1.state, E_ETIMEOUT);
      GrowsTransitive(x, x1, Probe(x, now));
    } else if Sub64(now, x.rcv.keepTimer) / 1000 >= KEEPALIVE_IDLE + KEEPALIVE_INTERVAL * x.rcv.keepProbes {
      var x1 := PushControl(x, KEEP_ALIVE_FLAGS);
      PushControlKeeps(x, y, KEEP_ALIVE_FLAGS);
      RcvBookkeeping(x1, y, x1.rcv.(keepProbes := x1.rcv.keepProbes + 1));
      GrowsTransitive(x, x1, Probe(x, now));
    } else {
      StayOk(x, y);
    }
  }

  lemma SwapKeeps(x: Wcb, y: Wcb)
    requires Good(x, y)
    ensures StepOk(x, x.(rcv := SwapBuffers(x.rcv)), y)
  {
    RcvBookkeeping(x, y, SwapBuffers(x.rcv));
  }

  lemma BatchKeeps(x: Wcb, y: Wcb, batch: seq<Pack>, env: Env)
    requires Good(x, y) && AllWireOk(y, batch)
    ensures var a := Arrivals(x, batch); StepOk(x, Deliver(AbsorbAcks(Sack(a.w), a.acked, env)), y)
  {
    var a := Arrivals(x, batch);
    ArrivalsKeep(x, y, batch);
    SackKeeps(a.w, y);
    var s := Sack(a.w);
    GrowsTransitive(x, a.w, s);
    AbsorbAcksKeeps(s, y, a.acked, env);
    var b := AbsorbAcks(s, a.acked, env);
    GrowsTransitive(x, s, b);
    DeliverKeeps(b, y);
    GrowsTransitive(x, b, Deliver(b));
  }

  lemma CheckRecvKeeps(x: Wcb, y: Wcb, batch: seq<Pack>, env: Env)
    requires Good(x, y) && AllWireOk(y, batch)
    ensures StepOk(x, CheckRecv(x, batch, env), y)
  {
    if batch == [] {
      var w1 := Probe(x, env.now);
      ProbeKeeps(x, y, env.now);
      SwapKeeps(w1, y);
      GrowsTransitive(x, w1, CheckRecv(x, batch, env));
    } else {
      var x0 := x.(rcv := x.rcv.(keepTimer := env.now, keepProbes := 0));
      RcvBookkeeping(x, y, x0.rcv);
      BatchKeeps(x0, y, batch, env);
      var a := Arrivals(x0, batch);
      var w1 := Deliver(AbsorbAcks(Sack(a.w), a.acked, env));
      GrowsTransitive(x, x0, w1);
      SwapKeeps(w1, y);
      GrowsTransitive(x, w1, CheckRecv(x, batch, env));
    }
  }

  // ---- the application's calls ----

  lemma AppSendKeeps(x: Wcb, y: Wcb, bytes: seq<u8>)
    requires Good(x, y)
    ensures StepOk(x, AppSend(x, bytes), y)
  {
    var x1 := AppSend(x, bytes);
    if x1 != x {
      var n := |x1.snd.sb| - |x.snd.sb|;
      assert Payload(x.snd.log) + (x.snd.sb + bytes[..n]) == (Payload(x.snd.log) + x.snd.sb) + bytes[..n];
    }
  }

  lemma AppRecvKeeps(x: Wcb, y: Wcb, size: nat)
    requires Good(x, y)
    ensures StepOk(x, AppRecv(x, size), y)
  {
    var r := x.rcv;
    var n := Min(|r.rb|, size);
    assert (r.delivered + r.rb[..n]) + r.rb[n..] + r.rbStandby == r.delivered + r.rb + r.rbStandby by {
      assert r.rb == r.rb[..n] + r.rb[n..];
    }
    RcvBookkeeping(x, y, AppRecv(x, size).rcv);
  }
}
