/** WCP endpoint state and its steps as functions on values.

    One endpoint is split the way the protocol splits it: `Cc` is the congestion and retransmission
    controller, `Snd` the sending half (`sb -> sending -> flights`) and `Rcv` the receiving half
    (`received -> rbStandby -> rb`). `log`, `written` and `delivered` are history: the items that
    were given a sequence number, the bytes the application had accepted, the bytes it has read.

    The class `WcpEndpoint.WCB` runs the same steps in place and is proved equal to these functions.
 */
module WcpModel {
  import opened Arithmetic
  import opened Bytes

  const MTU: nat := 1400
  const HEADER_LEN: nat := 16
  const MDU: nat := MTU - HEADER_LEN
  const CWND_INIT: nat := 10 * MTU
  const CWND_AFTER_LOSS: nat := 5 * MTU
  const SSTHRESH_MAX: nat := 1024 * 1024 * 2
  const SSTHRESH_MIN: nat := 4 * MTU
  const CWND_MAX: nat := SSTHRESH_MAX * 4
  const RCV_WND_DEFAULT: nat := 64 * 1024
  const RTO_INIT: nat := 1000
  const RTO_MIN: nat := 100
  const RTO_MAX: nat := 60 * 1000
  const RTO_GRANULARITY: nat := 5
  const LOST_THRESHOLD: nat := 3
  const RWND_CHECK_GRANULARITY: nat := 1000
  const ACKS_PER_PACK: nat := MDU / 4
  const SACK_COPIES: nat := 2
  const KEEPALIVE_IDLE: nat := 60
  const KEEPALIVE_INTERVAL: nat := 60
  const KEEPALIVE_PROBES: nat := 5
  const E_ETIMEOUT: int := -1
  const E_ECONNABORTED: int := -2

  /** Unsigned 64-bit difference. */
  function Sub64(a: nat, b: nat): nat { (a - b) % 0x1_0000_0000_0000_0000 }

  // ---- packets ----

  datatype Flags = Flags(syn: bool, ack: bool, sack: bool, wnd: bool, dat: bool, keepAlive: bool, keepAliveReply: bool)

  const NO_FLAGS := Flags(false, false, false, false, false, false, false)
  const SYN_FLAGS := NO_FLAGS.(syn := true)
  const ACK_FLAGS := NO_FLAGS.(ack := true)
  const SYNACK_FLAGS := NO_FLAGS.(syn := true, ack := true)
  const DATA_FLAGS := NO_FLAGS.(dat := true, ack := true)
  const SACK_FLAGS := NO_FLAGS.(sack := true)
  const WND_FLAGS := NO_FLAGS.(wnd := true)
  const KEEP_ALIVE_FLAGS := NO_FLAGS.(keepAlive := true)
  const KEEP_ALIVE_REPLY_FLAGS := NO_FLAGS.(keepAliveReply := true)

  /** `acks` is the payload of a SACK packet, `data` that of any other. */
  datatype Pack = Pack(seqNo: nat, ack: nat, wnd: nat, flags: Flags, acks: seq<nat>, data: seq<u8>)

  /** An outgoing packet with its send bookkeeping. */
  datatype OutPack = OutPack(pack: Pack, sentTs: nat, sentTimes: nat)

  /** One shared control packet, queued `copies` times in a row. */
  datatype Control = Control(pack: Pack, copies: nat)

  /** What a sequence number stands for. */
  datatype Item = Item(flags: Flags, data: seq<u8>)

  /** True of the packets the receiver puts in the sequence space. */
  predicate Sequenced(p: Pack) { !p.flags.sack && !p.flags.keepAlive && !p.flags.keepAliveReply }

  function ItemOf(p: Pack): Item { Item(p.flags, p.data) }

  function TotalBytes(o: OutPack): nat { |o.pack.data| + HEADER_LEN }

  // ---- endpoint state ----

  datatype State = Closed | Syning | SynSent | SynReceived | Established

  datatype Cc = Cc(
    rto: nat, srtt: nat, rttvar: nat, firstRttDone: bool,
    slowStart: bool, congestAvoidance: bool, cwnd: nat, ssthresh: nat, cwndTimer: nat,
    lostDetected: bool, fastRecovered: bool, biggestSackUpdate: bool, biggestAck: nat,
    lostTimer: nat, lostBiggestSeq: nat, lostCompensation: nat, lostBiggerTimes: nat,
    nflight: nat, nflightMax: nat)

  datatype Snd = Snd(
    dsn: nat, next: nat, una: nat, rwnd: nat, unaUpdate: bool,
    sending: seq<OutPack>, standby: seq<OutPack>, flights: seq<OutPack>, ignoreSeqSpace: seq<Control>,
    sb: seq<u8>, sbCapacity: nat, lastRtoTimer: nat, sendError: bool,
    log: seq<Item>, written: seq<u8>)

  datatype Rcv = Rcv(
    wnd: nat, next: nat, received: seq<Pack>, rb: seq<u8>, rbStandby: seq<u8>, rbCapacity: nat,
    rwndLess: bool, rwndMore: bool, rwndTimer: nat, sackedTmp: seq<nat>,
    keepTimer: nat, keepProbes: nat, recvError: bool,
    delivered: seq<u8>)

  datatype Wcb = Wcb(state: State, errno: int, cc: Cc, snd: Snd, rcv: Rcv)

  /** What the outside decides during one step: the caller's time stamp, the clock read while the
      flight with a given sequence number is being acknowledged, and the result of the k-th send. */
  datatype SendResult = Sent | Block | SendFailed(code: int)
  datatype Env = Env(now: nat, clock: nat -> nat, net: nat -> SendResult)

  datatype SendStep = SendStep(w: Wcb, out: seq<Pack>, stop: bool)

  /** Bytes carried by consecutive items. */
  function Payload(items: seq<Item>): seq<u8>
  {
    if items == [] then [] else Payload(items[..|items| - 1]) + items[|items| - 1].data
  }

  // ---- creation of packets ----

  function ControlPack(seqNo: nat, flags: Flags, acks: seq<nat>): Pack
  {
    Pack(seqNo, 0, 0, flags, acks, [])
  }

  function SequencedPack(seqNo: nat, item: Item): OutPack
  {
    OutPack(Pack(seqNo, 0, 0, item.flags, [], item.data), 0, 0)
  }

  /** SYN, SYNACK and SYNSYNACK: an empty packet that takes the next sequence number. */
  function PushHandshake(w: Wcb, flags: Flags): Wcb
  {
    var item := Item(flags, []);
    w.(snd := w.snd.(dsn := w.snd.dsn + 1,
                     standby := w.snd.standby + [SequencedPack(w.snd.dsn, item)],
                     log := w.snd.log + [item]))
  }

  function PushControl(w: Wcb, flags: Flags): Wcb
  {
    w.(snd := w.snd.(ignoreSeqSpace := w.snd.ignoreSeqSpace + [Control(ControlPack(w.snd.dsn, flags, []), 1)]))
  }

  /** The SACK packets that report `acks`, at most ACKS_PER_PACK in each. */
  function SackControls(acks: seq<nat>, dsn: nat): seq<Control>
  {
    if acks == [] then [] else
    var n := Min(|acks|, ACKS_PER_PACK);
    [Control(ControlPack(dsn, SACK_FLAGS, acks[..n]), SACK_COPIES)] + SackControls(acks[n..], dsn)
  }

  function Sack(w: Wcb): Wcb
  {
    w.(snd := w.snd.(ignoreSeqSpace := w.snd.ignoreSeqSpace + SackControls(w.rcv.sackedTmp, w.snd.dsn)),
       rcv := w.rcv.(sackedTmp := []))
  }

  // ---- congestion control ----

  predicate AvoidanceDue(cc: Cc, clock: nat) { Sub64(clock, cc.cwndTimer) >= cc.srtt }

  function GrowCwnd(cc: Cc, size: nat, clock: nat): Cc
  {
    if cc.slowStart then
      if cc.cwnd + size >= cc.ssthresh then cc.(cwnd := cc.cwnd + size, congestAvoidance := true, slowStart := false)
      else cc.(cwnd := cc.cwnd + size)
    else if cc.congestAvoidance && AvoidanceDue(cc, clock) then
      cc.(cwnd := cc.cwnd + MTU, cwndTimer := clock)
    else cc
  }

  function CheckCwnd(cc: Cc, size: nat, clock: nat): Cc
  {
    var c := GrowCwnd(cc, size, clock);
    c.(cwnd := Min(c.cwnd, CWND_MAX))
  }

  function SampleRtt(cc: Cc, o: OutPack, now: nat): Cc
  {
    if o.sentTimes != 1 then cc else
    var rtt := Wrap32(now - o.sentTs);
    var c := if cc.firstRttDone then cc else cc.(firstRttDone := true, srtt := rtt, rttvar := rtt / 2);
    var raw := Wrap32(c.srtt + Max(RTO_GRANULARITY, Wrap32(2 * c.rttvar)));
    c.(rto := if raw > RTO_MAX then RTO_MAX else if raw < RTO_MIN then RTO_MIN else raw)
  }

  function HandlePackAcked(cc: Cc, o: OutPack, now: nat, clock: nat): Cc
  {
    var c := SampleRtt(cc, o, now);
    CheckCwnd(c.(nflight := Wrap32(c.nflight - TotalBytes(o))), TotalBytes(o), clock)
  }

  // ---- check_recv ----

  /** Inserts from the back of a list sorted by sequence number; a duplicate is dropped. */
  function Insert(l: seq<Pack>, p: Pack): seq<Pack>
  {
    if l == [] then [p] else
    var last := l[|l| - 1];
    if last.seqNo == p.seqNo then l
    else if p.seqNo < last.seqNo then Insert(l[..|l| - 1], p) + [last]
    else l + [p]
  }

  datatype Arrival = Arrival(w: Wcb, acked: seq<nat>)

  function NoteHeader(s: Snd, p: Pack): Snd
  {
    var s1 := if s.una < p.ack then s.(una := p.ack, unaUpdate := true, rwnd := p.wnd) else s;
    if p.flags.wnd then s1.(rwnd := p.wnd) else s1
  }

  function Arrive(a: Arrival, p: Pack): Arrival
  {
    var w := a.w.(snd := NoteHeader(a.w.snd, p));
    if p.flags.sack then Arrival(w, a.acked + p.acks)
    else if p.flags.keepAlive then Arrival(PushControl(w, KEEP_ALIVE_REPLY_FLAGS), a.acked)
    else if p.flags.keepAliveReply then Arrival(w, a.acked)
    else
      var r := w.rcv.(sackedTmp := w.rcv.sackedTmp + [p.seqNo]);
      Arrival(w.(rcv := if p.seqNo < r.next then r else r.(received := Insert(r.received, p))), a.acked)
  }

  function Arrivals(w: Wcb, batch: seq<Pack>): Arrival
  {
    if batch == [] then Arrival(w, [])
    else Arrive(Arrivals(w, batch[..|batch| - 1]), batch[|batch| - 1])
  }

  /** Index of the first flight with sequence number `n`, or the number of flights. */
  function FindFlight(flights: seq<OutPack>, n: nat): (i: nat)
    ensures i <= |flights|
    ensures i < |flights| ==> flights[i].pack.seqNo == n
    ensures forall j :: 0 <= j < i ==> flights[j].pack.seqNo != n
  {
    if flights == [] then 0
    else if flights[0].pack.seqNo == n then 0
    else 1 + FindFlight(flights[1..], n)
  }

  function RemoveAt(flights: seq<OutPack>, i: nat): seq<OutPack>
    requires i < |flights|
  {
    flights[..i] + flights[i + 1..]
  }

  function AckFlight(w: Wcb, i: nat, env: Env): Wcb
    requires i < |w.snd.flights|
  {
    var o := w.snd.flights[i];
    w.(cc := HandlePackAcked(w.cc, o, env.now, env.clock(o.pack.seqNo)),
       snd := w.snd.(flights := RemoveAt(w.snd.flights, i)))
  }

  function FastRecovery(cc: Cc, ack: nat, una: nat): Cc
  {
    if !(cc.lostDetected && ack > cc.lostBiggestSeq) then cc else
    var times := (cc.lostBiggerTimes + 1) % 256;
    var c := cc.(lostBiggerTimes := times);
    if times >= 1 && una > c.lostBiggestSeq then
      var cwnd := Min(Wrap32(c.cwnd + c.lostCompensation), CWND_MAX);
      c.(cwnd := cwnd, ssthresh := Max(Min(cwnd, SSTHRESH_MAX), c.ssthresh),
         lostCompensation := 0, fastRecovered := true, lostDetected := false)
    else c
  }

  function NoteBiggest(w: Wcb, ack: nat): Wcb
  {
    if ack > w.cc.biggestAck then w.(cc := w.cc.(biggestAck := ack, biggestSackUpdate := true)) else w
  }

  function AckIfFlying(w: Wcb, ack: nat, env: Env): Wcb
  {
    var i := FindFlight(w.snd.flights, ack);
    if i < |w.snd.flights| then AckFlight(w, i, env) else w
  }

  function AbsorbAck(w: Wcb, ack: nat, env: Env): Wcb
  {
    if ack < w.snd.una then w else
    var w2 := AckIfFlying(NoteBiggest(w, ack), ack, env);
    w2.(cc := FastRecovery(w2.cc, ack, w2.snd.una))
  }

  function AbsorbAcks(w: Wcb, acks: seq<nat>, env: Env): Wcb
  {
    if acks == [] then w
    else AbsorbAck(AbsorbAcks(w, acks[..|acks| - 1], env), acks[|acks| - 1], env)
  }

  /** What an ACK flag does to the connection state. */
  function OnAck(s: State): State
  {
    if s == SynSent || s == SynReceived then Established else s
  }

  /** The receiving half takes the head of `received` off. */
  function TakeHead(r: Rcv): Rcv
    requires r.received != []
  {
    var data := r.received[0].data;
    var r1 := r.(next := r.next + 1, received := r.received[1..]);
    if data == [] then r1 else
    var standby := r.rbStandby + data;
    var wnd := Wrap32(r.rbCapacity - |standby|);
    if wnd <= MTU then r1.(rbStandby := standby, wnd := wnd, rwndLess := true)
    else r1.(rbStandby := standby, wnd := wnd, rwndLess := false, rwndMore := false)
  }

  /** Consumes the head of `received`, which carries the expected sequence number and fits.
      The result's `state` is Closed when a SYN arrives outside the handshake. */
  function ConsumeHead(w: Wcb): Wcb
    requires w.rcv.received != []
  {
    var p := w.rcv.received[0];
    var w1 := w.(rcv := TakeHead(w.rcv));
    if p.flags.syn && w.state != SynReceived && w.state != SynSent then
      w1.(state := Closed, errno := E_ECONNABORTED)
    else
      var w2 := if !p.flags.syn then w1
                else if w.state == SynReceived then PushHandshake(w1, SYNACK_FLAGS)
                else PushHandshake(w1, ACK_FLAGS);
      if p.flags.ack then w2.(state := OnAck(w2.state)) else w2
  }

  predicate Aborts(w: Wcb)
  {
    w.rcv.received != [] && w.rcv.received[0].flags.syn && w.state != SynReceived && w.state != SynSent
  }

  predicate HeadExpected(r: Rcv) { r.received != [] && r.received[0].seqNo == r.next }

  /** No room in the standby buffer: delivery stops and resumes in a later call. */
  predicate HeadTooBig(r: Rcv)
    requires r.received != []
  {
    |r.received[0].data| > 0 && r.rbCapacity - |r.rbStandby| < |r.received[0].data|
  }

  function Deliver(w: Wcb): Wcb
    decreases |w.rcv.received|
  {
    if !HeadExpected(w.rcv) then w
    else if HeadTooBig(w.rcv) then
      w.(rcv := w.rcv.(rwndLess := true))
    else if Aborts(w) then ConsumeHead(w)
    else Deliver(ConsumeHead(w))
  }

  function SwapBuffers(r: Rcv): Rcv
  {
    if r.rb == [] && r.rbStandby != [] then
      var s := r.(rb := r.rbStandby, rbStandby := []);
      if r.rwndLess then s.(rwndMore := true, wnd := r.rbCapacity) else s
    else r
  }

  function Probe(w: Wcb, now: nat): Wcb
  {
    if w.rcv.keepProbes >= KEEPALIVE_PROBES then
      w.(errno := E_ETIMEOUT, rcv := w.rcv.(recvError := true))
    else if Sub64(now, w.rcv.keepTimer) / 1000 >= KEEPALIVE_IDLE + KEEPALIVE_INTERVAL * w.rcv.keepProbes then
      var w1 := PushControl(w, KEEP_ALIVE_FLAGS);
      w1.(rcv := w1.rcv.(keepProbes := w1.rcv.keepProbes + 1))
    else w
  }

  function CheckRecv(w: Wcb, batch: seq<Pack>, env: Env): Wcb
  {
    var w1 :=
      if batch == [] then Probe(w, env.now)
      else
        var a := Arrivals(w.(rcv := w.rcv.(keepTimer := env.now, keepProbes := 0)), batch);
        Deliver(AbsorbAcks(Sack(a.w), a.acked, env));
    w1.(rcv := SwapBuffers(w1.rcv))
  }

  // ---- sending ----

  function Stamp(p: Pack, r: Rcv): Pack { p.(ack := r.next, wnd := r.wnd) }

  function FailSend(w: Wcb, r: SendResult): Wcb
    requires !r.Sent?
  {
    if r.Block? then w else w.(errno := r.code, snd := w.snd.(sendError := true))
  }

  // ---- check_flights ----

  datatype Sweep = Sweep(w: Wcb, out: seq<Pack>, lost: nat, maxSent: nat)

  predicate RttElapsed(cc: Cc, elapsed: nat) { elapsed >= Wrap32(cc.srtt + cc.rttvar / 4) }

  /** The sequence number lies below the biggest acknowledged one, as a signed 32-bit difference. */
  predicate Skipped(cc: Cc, seqNo: nat) { 1 <= Wrap32(cc.biggestAck - seqNo) < 0x8000_0000 }

  predicate RtoExpired(cc: Cc, o: OutPack, now: nat)
  {
    var elapsed := Wrap32(now - o.sentTs);
    !(RttElapsed(cc, elapsed) && (Skipped(cc, o.pack.seqNo) || cc.fastRecovered)) && elapsed >= cc.rto
  }

  predicate Retransmits(cc: Cc, o: OutPack, now: nat)
  {
    var elapsed := Wrap32(now - o.sentTs);
    (RttElapsed(cc, elapsed) && (Skipped(cc, o.pack.seqNo) || cc.fastRecovered)) || elapsed >= cc.rto
  }

  function NoteLoss(s: Sweep, o: OutPack): Sweep
  {
    var cc := if !s.w.cc.lostDetected && o.pack.seqNo > s.w.cc.lostBiggestSeq
              then s.w.cc.(lostBiggestSeq := o.pack.seqNo) else s.w.cc;
    s.(w := s.w.(cc := cc), lost := s.lost + 1, maxSent := Max(s.maxSent, o.sentTimes))
  }

  function Judge(s: Sweep, o: OutPack, now: nat): Sweep
  {
    if RtoExpired(s.w.cc, o, now) then NoteLoss(s, o) else s
  }

  function Resend(s: Sweep, i: nat, now: nat): Sweep
    requires i < |s.w.snd.flights|
  {
    var o := s.w.snd.flights[i];
    var p := Stamp(o.pack, s.w.rcv);
    var f := OutPack(p, now, Wrap32(o.sentTimes + 1));
    s.(w := s.w.(snd := s.w.snd.(flights := s.w.snd.flights[i := f])), out := s.out + [p])
  }

  function SweepFrom(s: Sweep, i: nat, env: Env): Sweep
    requires i <= |s.w.snd.flights|
    decreases |s.w.snd.flights| - i
  {
    if i == |s.w.snd.flights| then s else
    var o := s.w.snd.flights[i];
    if s.w.snd.unaUpdate && o.pack.seqNo < s.w.snd.una then
      SweepFrom(s.(w := AckFlight(s.w, i, env)), i, env)
    else if !Retransmits(s.w.cc, o, env.now) then SweepFrom(s, i + 1, env)
    else
      var s1 := Judge(s, o, env.now);
      if env.net(|s1.out|) != Sent then StampOnly(s1, i, env)
      else SweepFrom(Resend(s1, i, env.now), i + 1, env)
  }

  /** A failed send has already rewritten the header and ends the sweep. */
  function StampOnly(s: Sweep, i: nat, env: Env): Sweep
    requires i < |s.w.snd.flights|
    requires env.net(|s.out|) != Sent
  {
    var o := s.w.snd.flights[i];
    var f := o.(pack := Stamp(o.pack, s.w.rcv));
    s.(w := FailSend(s.w.(snd := s.w.snd.(flights := s.w.snd.flights[i := f])), env.net(|s.out|)))
  }

  function BackOff(w: Wcb, now: nat): Wcb
  {
    var cc := w.cc.(rto := Min(Wrap32(w.cc.rto / 2 + w.cc.rto), RTO_MAX));
    if w.state == Established && Sub64(now, cc.lostTimer) >= Max(cc.srtt, 30) then
      var newSsthresh := Max(cc.nflightMax / 2, SSTHRESH_MIN);
      w.(cc := cc.(lostTimer := now, lostBiggerTimes := 0,
                   lostCompensation := Wrap32(newSsthresh - cc.nflight / 2),
                   ssthresh := Min(newSsthresh, cc.ssthresh),
                   nflightMax := Max(cc.nflightMax / 2, cc.nflight),
                   slowStart := true, lostDetected := true, congestAvoidance := false,
                   cwnd := CWND_AFTER_LOSS))
    else w.(cc := cc)
  }

  function CheckFlights(w: Wcb, env: Env): SendStep
  {
    if !(w.snd.unaUpdate || w.cc.fastRecovered || w.cc.biggestSackUpdate)
       && env.now < w.snd.lastRtoTimer + RTO_GRANULARITY then SendStep(w, [], false)
    else
      var s := SweepFrom(Sweep(w.(snd := w.snd.(lastRtoTimer := env.now)), [], 0, 0), 0, env);
      var w1 := s.w.(cc := s.w.cc.(biggestSackUpdate := false, fastRecovered := false),
                     snd := s.w.snd.(unaUpdate := false));
      SendStep(if s.lost >= LOST_THRESHOLD || s.maxSent >= 5 then BackOff(w1, env.now) else w1, s.out, false)
  }

  // ---- check_send ----

  predicate WindowUpdateDue(w: Wcb, now: nat)
  {
    w.rcv.rwndMore && Sub64(now, w.rcv.rwndTimer) > RWND_CHECK_GRANULARITY
  }

  /** The branch of check_send that sends a window update as a packet of its own. */
  predicate StandaloneWindowUpdate(w: Wcb, now: nat)
  {
    !w.snd.sendError && WindowUpdateDue(w, now) && w.snd.ignoreSeqSpace == []
  }

  function UpdateWindow(w: Wcb, now: nat): Wcb
  {
    if !WindowUpdateDue(w, now) then w else
    var w1 := w.(rcv := w.rcv.(rwndTimer := now));
    if w.snd.ignoreSeqSpace == [] then PushControl(w1, WND_FLAGS)
    else
      var c := w.snd.ignoreSeqSpace[0];
      var p := c.pack.(flags := c.pack.flags.(wnd := true));
      w1.(snd := w1.snd.(ignoreSeqSpace := [c.(pack := p)] + w1.snd.ignoreSeqSpace[1..]))
  }

  function CopiesLeft(q: seq<Control>): nat
  {
    if q == [] then 0 else 1 + q[0].copies + CopiesLeft(q[1..])
  }

  /** The queue of control packets with its front packet stamped and `copies` of it left. */
  function SetFront(w: Wcb, p: Pack, copies: nat): Wcb
    requires w.snd.ignoreSeqSpace != []
  {
    w.(snd := w.snd.(ignoreSeqSpace := [Control(p, copies)] + w.snd.ignoreSeqSpace[1..]))
  }

  function PopFront(w: Wcb): Wcb
    requires w.snd.ignoreSeqSpace != []
  {
    w.(snd := w.snd.(ignoreSeqSpace := w.snd.ignoreSeqSpace[1..]))
  }

  function FlushControl(s: SendStep, env: Env): SendStep
    decreases CopiesLeft(s.w.snd.ignoreSeqSpace)
  {
    if s.w.snd.ignoreSeqSpace == [] then s else
    var c := s.w.snd.ignoreSeqSpace[0];
    if c.copies == 0 then FlushControl(s.(w := PopFront(s.w)), env) else
    var p := Stamp(c.pack, s.w.rcv);
    if env.net(|s.out|) != Sent then
      SendStep(FailSend(SetFront(s.w, p, c.copies), env.net(|s.out|)), s.out, true)
    else FlushControl(SendStep(SetFront(s.w, p, c.copies - 1), s.out + [p], false), env)
  }

  predicate Congested(w: Wcb)
    requires w.snd.sending != []
  {
    TotalBytes(w.snd.sending[0]) + w.cc.nflight >= Min(w.cc.cwnd, w.snd.rwnd)
  }

  /** Moves the head of `sending` to the flights after it went out. */
  function Launch(w: Wcb, now: nat): Wcb
    requires w.snd.sending != []
  {
    var o := w.snd.sending[0];
    var p := Stamp(o.pack, w.rcv);
    var nflight := w.cc.nflight + TotalBytes(o);
    w.(state := if p.flags.syn && w.state == Syning then SynSent else w.state,
       cc := w.cc.(nflight := nflight, nflightMax := Max(w.cc.nflightMax, nflight)),
       snd := w.snd.(flights := w.snd.flights + [OutPack(p, now, 1)], next := w.snd.next + 1,
                     sending := w.snd.sending[1..]))
  }

  function StampHead(w: Wcb): Wcb
    requires w.snd.sending != []
  {
    var o := w.snd.sending[0];
    w.(snd := w.snd.(sending := [o.(pack := Stamp(o.pack, w.rcv))] + w.snd.sending[1..]))
  }

  function PumpSending(s: SendStep, env: Env): SendStep
    decreases |s.w.snd.sending|
  {
    if s.w.snd.sending == [] then s
    else if Congested(s.w) then s.(stop := true)
    else if env.net(|s.out|) != Sent then
      SendStep(FailSend(StampHead(s.w), env.net(|s.out|)), s.out, true)
    else
      PumpSending(SendStep(Launch(s.w, env.now), s.out + [Stamp(s.w.snd.sending[0].pack, s.w.rcv)], false), env)
  }

  function DrainStandby(w: Wcb): Wcb
  {
    w.(snd := w.snd.(sending := w.snd.sending + w.snd.standby, standby := []))
  }

  /** Cuts one data packet off the send buffer. */
  function Segment(w: Wcb): Wcb
    requires w.snd.sb != []
  {
    var n := Min(|w.snd.sb|, MDU);
    var item := Item(DATA_FLAGS, w.snd.sb[..n]);
    w.(snd := w.snd.(dsn := w.snd.dsn + 1, sb := w.snd.sb[n..],
                     sending := w.snd.sending + [SequencedPack(w.snd.dsn, item)],
                     log := w.snd.log + [item]))
  }

  function Segments(w: Wcb, tryBytes: nat): Wcb
    decreases |w.snd.sb|
  {
    if w.snd.sb == [] || tryBytes == 0 then w
    else Segments(Segment(w), Wrap32(tryBytes - Min(|w.snd.sb|, MDU)))
  }

  function Refill(w: Wcb): Wcb
  {
    var w1 := DrainStandby(w);
    var tryBytes := Wrap32(w1.cc.cwnd - w1.cc.nflight);
    if tryBytes > MTU then Segments(w1, tryBytes) else w1
  }

  lemma SegmentsShrink(w: Wcb, tryBytes: nat)
    ensures |Segments(w, tryBytes).snd.sb| <= |w.snd.sb|
    ensures |Segments(w, tryBytes).snd.sending| > |w.snd.sending| ==> |Segments(w, tryBytes).snd.sb| < |w.snd.sb|
    ensures Segments(w, tryBytes).snd.standby == w.snd.standby
    decreases |w.snd.sb|
  {
    if w.snd.sb != [] && tryBytes != 0 {
      SegmentsShrink(Segment(w), Wrap32(tryBytes - Min(|w.snd.sb|, MDU)));
    }
  }

  /** What is left to move into `sending`. */
  function Backlog(w: Wcb): nat { |w.snd.sb| + |w.snd.standby| }

  lemma RefillShrinks(w: Wcb)
    requires w.snd.sending == []
    ensures Refill(w).snd.sending != [] ==> Backlog(Refill(w)) < Backlog(w)
  {
    var w1 := DrainStandby(w);
    SegmentsShrink(w1, Wrap32(w1.cc.cwnd - w1.cc.nflight));
  }

  lemma PumpKeepsBacklog(s: SendStep, env: Env)
    ensures Backlog(PumpSending(s, env).w) == Backlog(s.w)
    ensures PumpSending(s, env).stop || PumpSending(s, env).w.snd.sending == []
    decreases |s.w.snd.sending|
  {
    if s.w.snd.sending != [] && !Congested(s.w) && env.net(|s.out|) == Sent {
      PumpKeepsBacklog(SendStep(Launch(s.w, env.now), s.out + [Stamp(s.w.snd.sending[0].pack, s.w.rcv)], false), env);
    }
  }

  function SendLoop(s: SendStep, env: Env): SendStep
    decreases Backlog(s.w)
  {
    var s1 := PumpSending(s, env);
    PumpKeepsBacklog(s, env);
    if s1.stop then s1 else
    var w2 := Refill(s1.w);
    RefillShrinks(s1.w);
    if w2.snd.sending == [] then s1.(w := w2) else SendLoop(s1.(w := w2), env)
  }

  function CheckSend(w: Wcb, env: Env): SendStep
  {
    if w.snd.sendError then SendStep(w, [], true) else
    var s := FlushControl(SendStep(UpdateWindow(w, env.now), [], false), env);
    if s.stop then s else SendLoop(s, env)
  }

  // ---- the assertions of the send loop ----

  /** Before a packet is handed to the network. */
  predicate AssertsBefore(w: Wcb)
    requires w.snd.sending != []
  {
    var p := w.snd.sending[0].pack;
    p.seqNo == w.snd.next && p.seqNo >= w.snd.una
  }

  /** After it went out: a SYN leaves only while the connection is being opened. */
  predicate AssertsAfter(w: Wcb)
    requires w.snd.sending != []
  {
    var p := w.snd.sending[0].pack;
    Sequenced(p) && (p.flags.syn ==> w.state == Syning || w.state == SynReceived)
  }

  /** No assertion on the way of `PumpSending` fails. */
  predicate PumpAsserts(s: SendStep, env: Env)
    decreases |s.w.snd.sending|
  {
    s.w.snd.sending == [] || Congested(s.w) ||
    (AssertsBefore(s.w) &&
      (env.net(|s.out|) != Sent ||
        (AssertsAfter(s.w) &&
          PumpAsserts(SendStep(Launch(s.w, env.now), s.out + [Stamp(s.w.snd.sending[0].pack, s.w.rcv)], false), env))))
  }

  predicate SendLoopAsserts(s: SendStep, env: Env)
    decreases Backlog(s.w)
  {
    var s1 := PumpSending(s, env);
    PumpKeepsBacklog(s, env);
    PumpAsserts(s, env) &&
    (s1.stop ||
      var w2 := Refill(s1.w);
      RefillShrinks(s1.w);
      w2.snd.sending == [] || SendLoopAsserts(s1.(w := w2), env))
  }

  predicate SendAsserts(w: Wcb, env: Env)
  {
    w.snd.sendError ||
    var s := FlushControl(SendStep(UpdateWindow(w, env.now), [], false), env);
    s.stop || SendLoopAsserts(s, env)
  }

  // ---- the application's calls ----

  /** Number of bytes accepted, or -1 for would-block, or the pending error. */
  function SendResultOf(w: Wcb, n: nat): int
  {
    var left := w.snd.sbCapacity - |w.snd.sb|;
    if w.snd.sendError then (if w.errno != 0 then w.errno else E_ECONNABORTED)
    else if left < n && left < 2 * MDU then -1
    else if left > n then n else left
  }

  predicate SendRefused(w: Wcb, n: nat)
  {
    var left := w.snd.sbCapacity - |w.snd.sb|;
    w.snd.sendError || (left < n && left < 2 * MDU)
  }

  function AppSend(w: Wcb, bytes: seq<u8>): Wcb
  {
    var left := w.snd.sbCapacity - |w.snd.sb|;
    if SendRefused(w, |bytes|) then w else
    var n := if left > |bytes| then |bytes| else left;
    w.(snd := w.snd.(sb := w.snd.sb + bytes[..n], written := w.snd.written + bytes[..n]))
  }

  function AppRecv(w: Wcb, size: nat): Wcb
  {
    var n := Min(|w.rcv.rb|, size);
    w.(rcv := w.rcv.(rb := w.rcv.rb[n..], delivered := w.rcv.delivered + w.rcv.rb[..n]))
  }

  // ---- start ----

  /** The fields `init` leaves unset hold whatever was in memory. */
  datatype Garbage = Garbage(srtt: nat, rttvar: nat, lostCompensation: nat, lostBiggerTimes: nat)

  function Init(state: State, now: nat, sbCapacity: nat, rbCapacity: nat, g: Garbage): Wcb
  {
    Wcb(state, 0,
        Cc(RTO_INIT, g.srtt, g.rttvar, false, true, false, CWND_INIT, SSTHRESH_MAX, 0,
           false, false, false, 0, 0, 0, g.lostCompensation, g.lostBiggerTimes, 0, 0),
        Snd(0, 0, 0, RCV_WND_DEFAULT, false, [], [], [], [], [], sbCapacity, 0, false, [], []),
        Rcv(rbCapacity, 0, [], [], [], rbCapacity, false, false, 0, [], now, 0, false, []))
  }

  /** `connect` queues a SYN; an accepted endpoint waits for one. */
  function Active(now: nat, sbCapacity: nat, rbCapacity: nat, g: Garbage): Wcb
  {
    PushHandshake(Init(Syning, now, sbCapacity, rbCapacity, g), SYN_FLAGS)
  }

  function Passive(now: nat, sbCapacity: nat, rbCapacity: nat, g: Garbage): Wcb
  {
    Init(SynReceived, now, sbCapacity, rbCapacity, g)
  }
}
