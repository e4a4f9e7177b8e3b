/** Two ends of the encrypted channel over a byte stream in each direction, cut into pieces of any size. */
module HandshakeSystem {
  import opened Bytes
  import opened DhSymmetricEncrypt
  import opened DiffieHellman
  import opened RingBuffer
  import Framing = HlenPacket
  import Scramble = Obfuscate
  import Tea = XxteaBytes

  /** One end: the frames it sent and the packets its application encoded, what it received, and whether every call so far was free of errors. */
  datatype End = End(peer: Peer, sent: seq<seq<u8>>, plain: seq<seq<u8>>, rx: Framing.Session, got: seq<seq<u8>>, clean: bool)

  datatype System = System(a: End, b: End)

  datatype Action = Feed(size: nat) | Read(limit: nat, draw: word, r1: u32, r2: u32) | Write(data: seq<u8>)

  predicate Allowed(x: End, action: Action, capacity: nat)
  {
    match action
    case Feed(_) => true
    case Read(limit, draw, _, _) => Factor(draw) && (x.peer.state == DataTransfer ==> limit > 0)
    case Write(data) => Payload(data, capacity)
  }

  function Limit(x: End, limit: nat): nat { if x.peer.state == DataTransfer then limit else 1 }

  function Act(x: End, theirs: seq<seq<u8>>, action: Action, capacity: nat): End
    requires x.rx.fed <= |Framing.Frames(theirs)| && |x.rx.contents| <= capacity
  {
    match action
    case Feed(size) => x.(rx := Framing.Apply(x.rx, Framing.Feed(size), Framing.Frames(theirs), capacity))
    case Read(limit, draw, r1, r2) =>
      var p := Poll(x.peer, x.rx.parse, x.rx.contents, capacity, limit, draw, r1, r2);
      End(p.peer, x.sent + p.replies, x.plain, Framing.Apply(x.rx, Framing.Call(Limit(x, limit)), Framing.Frames(theirs), capacity),
        x.got + p.packets, x.clean && (p.outcome == Handshaking || p.outcome == HandshakeDone) && (p.code == Framing.Ok || p.code == Framing.TryAgain))
    case Write(data) =>
      if x.peer.state == DataTransfer && x.peer.cipher.Xxtea? && |data| < Tea.MAX_LENGTH
      then x.(sent := x.sent + [Tea.Encrypt(data, x.peer.cipher.key)], plain := x.plain + [data])
      else x
  }

  /** The call of the decoder leaves the buffer as the polled end does. */
  lemma PollMatchesSession(x: End, theirs: seq<seq<u8>>, limit: nat, draw: word, r1: u32, r2: u32, capacity: nat)
    requires x.rx.fed <= |Framing.Frames(theirs)| && |x.rx.contents| <= capacity
    ensures var p, y := Poll(x.peer, x.rx.parse, x.rx.contents, capacity, limit, draw, r1, r2), Act(x, theirs, Read(limit, draw, r1, r2), capacity);
            y.rx.parse == p.parse && y.rx.contents == p.contents
  {}

  datatype Move = A(action: Action) | B(action: Action)

  ghost predicate Ready(s: System, capacity: nat)
  {
    && s.a.rx.fed <= |Framing.Frames(s.b.sent)| && |s.a.rx.contents| <= capacity
    && s.b.rx.fed <= |Framing.Frames(s.a.sent)| && |s.b.rx.contents| <= capacity
  }

  function Next(s: System, move: Move, capacity: nat): System
    requires Ready(s, capacity)
  {
    match move
    case A(action) => s.(a := Act(s.a, s.b.sent, action, capacity))
    case B(action) => s.(b := Act(s.b, s.a.sent, action, capacity))
  }

  predicate MoveAllowed(s: System, move: Move, capacity: nat)
  {
    match move
    case A(action) => Allowed(s.a, action, capacity)
    case B(action) => Allowed(s.b, action, capacity)
  }

  function Start(draw: word, r: u32): System
  {
    System(End(Greeter(draw), [Greeting(draw, r)], [], Framing.Start(), [], true),
           End(Peer(Idle, 0, 0, NoCipher), [], [], Framing.Start(), [], true))
  }

  ghost predicate Reaches(s: System, moves: seq<Move>, t: System, capacity: nat)
    decreases |moves|
  {
    if moves == [] then s == t
    else Ready(s, capacity) && MoveAllowed(s, moves[0], capacity) && Reaches(Next(s, moves[0], capacity), moves[1..], t, capacity)
  }

  predicate Capacity(capacity: nat) { MIN_SIZE <= capacity <= MAX_SIZE }

  // ---- what is left to do ----

  /** Frames of the handshake still to be sent. */
  function Owed(s: System): nat { (if s.a.rx.emitted == [] then 1 else 0) + (if s.b.rx.emitted == [] then 2 else 0) }

  function Unfed(s: System): int
  {
    |Framing.Frames(s.b.sent)| - s.a.rx.fed + |Framing.Frames(s.a.sent)| - s.b.rx.fed
  }

  function Waiting(s: System): nat { |s.a.rx.contents| + |s.b.rx.contents| }

  // ---- the invariant ----

  ghost predicate IsTagged(f: seq<u8>, frame: u8, body: seq<u8>) { exists r: u32 :: f == Tagged(frame, r, body) }

  function Key(s: System): seq<u8> { KeyBytes(SharedKey(s.a.peer.pub, s.b.peer.priv)) }

  ghost predicate Link(x: End, theirs: seq<seq<u8>>, capacity: nat)
  {
    Framing.Inv(x.rx, theirs, capacity) && Framing.Fits(theirs, capacity) && x.rx.emitted <= theirs
  }

  predicate HasFactor(p: Peer) { Factor(p.priv) && p.pub == PublicKey(p.priv) }

  /** The data frames are the packets encoded, sealed with the key, and none before the end is done. */
  predicate Sealed(x: End, key: seq<u8>, capacity: nat)
  {
    && Payloads(x.plain, capacity) && |x.sent| >= 2 && x.sent[2..] == SealAll(x.plain, key, capacity)
    && (|x.rx.emitted| < 2 ==> x.plain == [])
  }

  ghost predicate GreeterOk(a: End, key: seq<u8>, capacity: nat)
  {
    var n := |a.rx.emitted|;
    && HasFactor(a.peer) && a.peer.state == (if n >= 2 then DataTransfer else Handshake)
    && a.sent != [] && IsTagged(a.sent[0], F_HANDSHAKE_HELLO, HelloBody(a.peer.pub))
    && if n == 0 then a.peer.cipher == NoCipher && |a.sent| == 1 && a.plain == []
       else a.peer.cipher == Xxtea(key) && Sealed(a, key, capacity) && IsTagged(a.sent[1], F_HANDSHAKE_OK, OkBody(key))
  }

  ghost predicate AnswererOk(b: End, key: seq<u8>, capacity: nat)
  {
    var n := |b.rx.emitted|;
    if n == 0 then b.peer == Peer(Idle, 0, 0, NoCipher) && b.sent == [] && b.plain == []
    else
      && HasFactor(b.peer) && b.peer.state == (if n >= 2 then DataTransfer else Handshake)
      && b.peer.cipher == Xxtea(key) && Sealed(b, key, capacity)
      && IsTagged(b.sent[0], F_HANDSHAKE_HELLO_RESP, RespBody(b.peer.pub, CS_XXTEA, C_NONE))
      && IsTagged(b.sent[1], F_HANDSHAKE_OK, OkBody(key))
  }

  /** Of what the other end encoded, exactly the packets that arrived were handed to the application. */
  predicate GotOk(x: End, plain: seq<seq<u8>>)
  {
    var n := |x.rx.emitted|;
    x.clean && if n < 2 then x.got == [] else n - 2 <= |plain| && x.got == plain[..n - 2]
  }

  ghost predicate Inv(s: System, capacity: nat)
  {
    && Capacity(capacity)
    && Link(s.a, s.b.sent, capacity) && Link(s.b, s.a.sent, capacity)
    && GreeterOk(s.a, Key(s), capacity) && AnswererOk(s.b, Key(s), capacity)
    && GotOk(s.a, s.b.plain) && GotOk(s.b, s.a.plain)
  }

  lemma IsReady(s: System, capacity: nat)
    requires Inv(s, capacity)
    ensures Ready(s, capacity) && Unfed(s) >= 0
  {}

  // ---- one end reads ----

  /** Before data is transferred a call handles at most one frame, the next of the other end's. */
  lemma ReadsFrame(x: End, theirs: seq<seq<u8>>, limit: nat, draw: word, r1: u32, r2: u32, capacity: nat)
    requires Link(x, theirs, capacity) && x.peer.state != DataTransfer
    ensures var y := Act(x, theirs, Read(limit, draw, r1, r2), capacity);
            var n := |x.rx.emitted|;
            && Link(y, theirs, capacity) && y.rx.fed == x.rx.fed
            && ((|y.rx.emitted| == n && y == x.(rx := y.rx))
               || (n < |theirs| && |y.rx.emitted| == n + 1
                   && var ar := Arrive(x.peer, theirs[n], draw, r1, r2);
                      y == x.(peer := ar.peer, sent := x.sent + ar.replies, rx := y.rx, clean := x.clean && Quiet(ar))))
  {
    hide Framing.Decode, Framing.Frames, Arrive, Framing.Fits;
    Framing.NextPackets(x.rx, 1, theirs, capacity);
    assert x.sent + [] == x.sent && x.got + [] == x.got;
  }

  /** Afterwards it decrypts the next packets as the other end encoded them. */
  lemma ReadsData(x: End, theirs: seq<seq<u8>>, plain: seq<seq<u8>>, key: seq<u8>, limit: nat, draw: word, r1: u32, r2: u32, capacity: nat)
    requires Link(x, theirs, capacity) && x.peer.state == DataTransfer && x.peer.cipher == Xxtea(key)
    requires |x.rx.emitted| >= 2 && GotOk(x, plain)
    requires |theirs| >= 2 && Payloads(plain, capacity) && theirs[2..] == SealAll(plain, key, capacity)
    ensures var y := Act(x, theirs, Read(limit, draw, r1, r2), capacity);
            && Link(y, theirs, capacity) && y.rx.fed == x.rx.fed && |y.rx.emitted| >= |x.rx.emitted|
            && y == x.(rx := y.rx, got := y.got) && GotOk(y, plain)
  {
    hide Framing.Decode, Framing.Frames, OpenAll, Payload, Framing.Fits, Tea.Encrypt;
    Framing.NextPackets(x.rx, limit, theirs, capacity);
    var d := Framing.Decoded(x.rx.parse, x.rx.contents, [], Framing.Ok);
    var r := Framing.Decode(d, capacity, limit);
    var n, k := |x.rx.emitted| - 2, |r.arrives|;
    var next := plain[n..n + k];
    assert r.arrives == SealAll(next, key, capacity);
    OpenSealed(next, key, capacity);
    assert plain[..n + k] == plain[..n] + next;
    assert x.sent + [] == x.sent;
  }

  // ---- steps keep the invariant ----

  lemma Append(ps: seq<seq<u8>>, qs: seq<seq<u8>>, capacity: nat)
    requires Framing.Fits(ps, capacity) && Framing.Fits(qs, capacity)
    ensures Framing.Fits(ps + qs, capacity)
  {}

  /** Sending more leaves the other end's link as it was. */
  lemma LinkGrows(y: End, sent: seq<seq<u8>>, more: seq<seq<u8>>, capacity: nat)
    requires Link(y, sent, capacity) && Framing.Fits(more, capacity)
    ensures Link(y, sent + more, capacity)
  {
    hide Framing.Inv, Framing.Fits;
    Framing.MoreFrames(y.rx, sent, more, capacity);
    Append(sent, more, capacity);
  }

  lemma OkBodyFits(key: seq<u8>)
    ensures |OkBody(key)| == 12
  {}

  lemma HandshakeFits(pub: word, key: seq<u8>, r1: u32, r2: u32, capacity: nat)
    requires Capacity(capacity)
    ensures Framing.Fits([Tagged(F_HANDSHAKE_HELLO_RESP, r1, RespBody(pub, CS_XXTEA, C_NONE)), Tagged(F_HANDSHAKE_OK, r2, OkBody(key))], capacity)
    ensures Framing.Fits([Tagged(F_HANDSHAKE_OK, r1, OkBody(key))], capacity)
    ensures Framing.Fits([Tagged(F_HANDSHAKE_HELLO, r1, HelloBody(pub))], capacity)
  {
    hide Scramble.U8Obfuscate, OkBody;
    OkBodyFits(key);
    FourBytes();
  }

  lemma DrawsFactor(p: Peer, draw: word)
    requires Factor(draw) && p.priv == 0 && p.pub == 0
    ensures HasFactor(Drawn(p, draw)) && Drawn(p, draw).priv == draw
  {}

  lemma AnswererReadsHello(s: System, limit: nat, draw: word, r1: u32, r2: u32, capacity: nat)
    requires Inv(s, capacity) && Factor(draw) && |s.b.rx.emitted| == 0
    ensures Inv(Next(s, B(Read(limit, draw, r1, r2)), capacity), capacity)
  {
    hide Framing.Inv, Framing.Fits, Arrive, Tagged, Framing.Apply, Poll, KeyBytes, SharedKey, PublicKey, OkBody, HelloBody, RespBody;
    IsReady(s, capacity);
    var t := Next(s, B(Read(limit, draw, r1, r2)), capacity);
    ReadsFrame(s.b, s.a.sent, limit, draw, r1, r2, capacity);
    if |t.b.rx.emitted| == 1 {
      var r :| s.a.sent[0] == Tagged(F_HANDSHAKE_HELLO, r, HelloBody(s.a.peer.pub));
      HelloArrives(s.b.peer, s.a.peer.pub, r, draw, r1, r2);
      DrawsFactor(s.b.peer, draw);
      var pub, key := t.b.peer.pub, Key(t);
      HandshakeFits(pub, key, r1, r2, capacity);
      var replies := [Tagged(F_HANDSHAKE_HELLO_RESP, r1, RespBody(pub, CS_XXTEA, C_NONE)), Tagged(F_HANDSHAKE_OK, r2, OkBody(key))];
      LinkGrows(s.a, s.b.sent, replies, capacity);
      assert s.b.sent + replies == replies == t.b.sent;
    }
  }

  lemma ReadsOk(x: End, theirs: seq<seq<u8>>, key: seq<u8>, limit: nat, draw: word, r1: u32, r2: u32, capacity: nat)
    requires Link(x, theirs, capacity) && x.peer.state == Handshake && x.peer.cipher == Xxtea(key) && |x.rx.emitted| == 1
    requires |theirs| >= 2 ==> IsTagged(theirs[1], F_HANDSHAKE_OK, OkBody(key))
    ensures var y := Act(x, theirs, Read(limit, draw, r1, r2), capacity);
            && Link(y, theirs, capacity) && y.rx.fed == x.rx.fed
            && ((|y.rx.emitted| == 1 && y == x.(rx := y.rx))
               || (|theirs| >= 2 && |y.rx.emitted| == 2 && y == x.(rx := y.rx, peer := x.peer.(state := DataTransfer))))
  {
    hide Framing.Inv, Framing.Fits, Arrive, Tagged, Framing.Apply, Poll, OkBody;
    ReadsFrame(x, theirs, limit, draw, r1, r2, capacity);
    if |theirs| >= 2 {
      var r :| theirs[1] == Tagged(F_HANDSHAKE_OK, r, OkBody(key));
      OkArrives(x.peer, key, r, draw, r1, r2);
      assert x.sent + [] == x.sent;
    }
  }

  lemma LinkLength(x: End, theirs: seq<seq<u8>>, capacity: nat)
    requires Link(x, theirs, capacity)
    ensures |x.rx.emitted| <= |theirs|
  {}

  lemma AnswererReads(s: System, limit: nat, draw: word, r1: u32, r2: u32, capacity: nat)
    requires Inv(s, capacity) && Factor(draw)
    ensures Inv(Next(s, B(Read(limit, draw, r1, r2)), capacity), capacity)
  {
    hide Link, Act, KeyBytes, SharedKey, PublicKey, IsTagged, SealAll, Payloads, HelloBody, OkBody, RespBody;
    IsReady(s, capacity);
    var n := |s.b.rx.emitted|;
    if n == 0 {
      AnswererReadsHello(s, limit, draw, r1, r2, capacity);
    } else if n == 1 {
      ReadsOk(s.b, s.a.sent, Key(s), limit, draw, r1, r2, capacity);
    } else {
      LinkLength(s.b, s.a.sent, capacity);
      ReadsData(s.b, s.a.sent, s.a.plain, Key(s), limit, draw, r1, r2, capacity);
    }
  }

  lemma GreeterReadsResp(s: System, limit: nat, draw: word, r1: u32, r2: u32, capacity: nat)
    requires Inv(s, capacity) && |s.a.rx.emitted| == 0
    ensures Inv(Next(s, A(Read(limit, draw, r1, r2)), capacity), capacity)
  {
    hide Framing.Inv, Framing.Fits, Arrive, Tagged, Framing.Apply, Poll, KeyBytes, SharedKey, PublicKey, OkBody, HelloBody, RespBody;
    IsReady(s, capacity);
    var t := Next(s, A(Read(limit, draw, r1, r2)), capacity);
    ReadsFrame(s.a, s.b.sent, limit, draw, r1, r2, capacity);
    if |t.a.rx.emitted| == 1 {
      var r :| s.b.sent[0] == Tagged(F_HANDSHAKE_HELLO_RESP, r, RespBody(s.b.peer.pub, CS_XXTEA, C_NONE));
      RespArrives(s.a.peer, s.b.peer.pub, r, draw, r1, r2);
      Agreement(s.a.peer.priv, s.b.peer.priv);
      HandshakeFits(s.a.peer.pub, Key(s), r1, r2, capacity);
      LinkGrows(s.b, s.a.sent, [Tagged(F_HANDSHAKE_OK, r1, OkBody(Key(s)))], capacity);
    }
  }

  lemma GreeterReads(s: System, limit: nat, draw: word, r1: u32, r2: u32, capacity: nat)
    requires Inv(s, capacity)
    ensures Inv(Next(s, A(Read(limit, draw, r1, r2)), capacity), capacity)
  {
    hide Link, Act, KeyBytes, SharedKey, PublicKey, IsTagged, SealAll, Payloads, HelloBody, OkBody, RespBody;
    IsReady(s, capacity);
    var n := |s.a.rx.emitted|;
    if n == 0 {
      GreeterReadsResp(s, limit, draw, r1, r2, capacity);
    } else if n == 1 {
      ReadsOk(s.a, s.b.sent, Key(s), limit, draw, r1, r2, capacity);
    } else {
      LinkLength(s.a, s.b.sent, capacity);
      ReadsData(s.a, s.b.sent, s.b.plain, Key(s), limit, draw, r1, r2, capacity);
    }
  }

  lemma SealMore(plain: seq<seq<u8>>, data: seq<u8>, key: seq<u8>, capacity: nat)
    requires Payloads(plain, capacity) && Payload(data, capacity) && |data| < Tea.MAX_LENGTH
    ensures Payloads(plain + [data], capacity)
    ensures SealAll(plain + [data], key, capacity) == SealAll(plain, key, capacity) + [Tea.Encrypt(data, key)]
  {
    hide Tea.Encrypt, Payload;
  }

  /** A packet encoded once the handshake is done is sealed with the key. */
  lemma Writes(x: End, key: seq<u8>, data: seq<u8>, capacity: nat)
    requires Capacity(capacity) && Sealed(x, key, capacity) && Payload(data, capacity) && |x.rx.emitted| >= 2 && |data| < Tea.MAX_LENGTH
    ensures Framing.Fits([Tea.Encrypt(data, key)], capacity)
    ensures Sealed(x.(sent := x.sent + [Tea.Encrypt(data, key)], plain := x.plain + [data]), key, capacity)
  {
    hide Tea.Encrypt, Payload, SealAll;
    SealedFits(data, key, capacity);
    FourBytes();
    var c := Tea.Encrypt(data, key);
    SealMore(x.plain, data, key, capacity);
    assert (x.sent + [c])[2..] == x.sent[2..] + [c];
  }

  lemma GreeterWrites(s: System, data: seq<u8>, capacity: nat)
    requires Inv(s, capacity) && Payload(data, capacity)
    ensures Inv(Next(s, A(Write(data)), capacity), capacity)
  {
    hide Framing.Inv, Framing.Fits, KeyBytes, SharedKey, PublicKey, IsTagged, Tea.Encrypt, Payload, Sealed;
    if s.a.peer.state == DataTransfer && |data| < Tea.MAX_LENGTH {
      Writes(s.a, Key(s), data, capacity);
      LinkGrows(s.b, s.a.sent, [Tea.Encrypt(data, Key(s))], capacity);
      SealedLength(s.a, Key(s), capacity);
    }
  }

  lemma SealedLength(x: End, key: seq<u8>, capacity: nat)
    requires Sealed(x, key, capacity)
    ensures |x.sent| == 2 + |x.plain|
  {}

  lemma AnswererWrites(s: System, data: seq<u8>, capacity: nat)
    requires Inv(s, capacity) && Payload(data, capacity)
    ensures Inv(Next(s, B(Write(data)), capacity), capacity)
  {
    hide Framing.Inv, Framing.Fits, KeyBytes, SharedKey, PublicKey, IsTagged, Tea.Encrypt, Payload, Sealed;
    if s.b.peer.state == DataTransfer && |data| < Tea.MAX_LENGTH {
      Writes(s.b, Key(s), data, capacity);
      LinkGrows(s.a, s.b.sent, [Tea.Encrypt(data, Key(s))], capacity);
      SealedLength(s.b, Key(s), capacity);
    }
  }

  lemma Feeds(x: End, theirs: seq<seq<u8>>, size: nat, capacity: nat)
    requires Link(x, theirs, capacity)
    ensures x.rx.fed <= |Framing.Frames(theirs)| && |x.rx.contents| <= capacity
    ensures var y := Act(x, theirs, Feed(size), capacity);
            Link(y, theirs, capacity) && y == x.(rx := y.rx) && y.rx.emitted == x.rx.emitted
  {
    hide Framing.Frames, Framing.Pending, Framing.Fits;
    Framing.FeedKeeps(x.rx, size, theirs, capacity);
  }

  lemma GreeterFeeds(s: System, size: nat, capacity: nat)
    requires Inv(s, capacity)
    ensures Inv(Next(s, A(Feed(size)), capacity), capacity)
  {
    hide KeyBytes, SharedKey, PublicKey, IsTagged, SealAll, Payloads, Link, Act, HasFactor;
    Feeds(s.a, s.b.sent, size, capacity);
  }

  lemma AnswererFeeds(s: System, size: nat, capacity: nat)
    requires Inv(s, capacity)
    ensures Inv(Next(s, B(Feed(size)), capacity), capacity)
  {
    hide KeyBytes, SharedKey, PublicKey, IsTagged, SealAll, Payloads, Link, Act, HasFactor;
    Feeds(s.b, s.a.sent, size, capacity);
  }

  lemma StepKeeps(s: System, move: Move, capacity: nat)
    requires Inv(s, capacity) && MoveAllowed(s, move, capacity)
    ensures Ready(s, capacity) && Inv(Next(s, move, capacity), capacity)
  {
    hide Inv, Ready, Next, Payload;
    IsReady(s, capacity);
    match move {
      case A(Feed(size)) => GreeterFeeds(s, size, capacity);
      case B(Feed(size)) => AnswererFeeds(s, size, capacity);
      case A(Read(limit, draw, r1, r2)) => GreeterReads(s, limit, draw, r1, r2, capacity);
      case B(Read(limit, draw, r1, r2)) => AnswererReads(s, limit, draw, r1, r2, capacity);
      case A(Write(data)) => GreeterWrites(s, data, capacity);
      case B(Write(data)) => AnswererWrites(s, data, capacity);
    }
  }

  lemma FreshLink(x: End, theirs: seq<seq<u8>>, capacity: nat)
    requires x.rx == Framing.Start() && Framing.Fits(theirs, capacity)
    ensures Link(x, theirs, capacity)
  {
    assert Framing.Frames([]) + Framing.Pending(Framing.ReadLen, []) == [] == Framing.Frames(theirs)[..0];
  }

  lemma TaggedIs(frame: u8, r: u32, body: seq<u8>)
    ensures IsTagged(Tagged(frame, r, body), frame, body)
  {}

  lemma StartEnds(draw: word, r: u32, key: seq<u8>, capacity: nat)
    requires Factor(draw)
    ensures GreeterOk(Start(draw, r).a, key, capacity) && AnswererOk(Start(draw, r).b, key, capacity)
  {
    hide PublicKey, Tagged, IsTagged, HelloBody, Sealed;
    TaggedIs(F_HANDSHAKE_HELLO, r, HelloBody(PublicKey(draw)));
  }

  lemma StartLinks(draw: word, r: u32, capacity: nat)
    requires Capacity(capacity)
    ensures var s := Start(draw, r); Link(s.a, s.b.sent, capacity) && Link(s.b, s.a.sent, capacity)
  {
    hide PublicKey, Tagged, HelloBody, Link, Framing.Fits;
    var s := Start(draw, r);
    HandshakeFits(PublicKey(draw), [], r, r, capacity);
    NoFrames(capacity);
    FreshLink(s.a, s.b.sent, capacity);
    FreshLink(s.b, s.a.sent, capacity);
  }

  lemma StartInv(draw: word, r: u32, capacity: nat)
    requires Factor(draw) && Capacity(capacity)
    ensures Inv(Start(draw, r), capacity)
  {
    hide Key, PublicKey, Tagged, HelloBody, Link, GreeterOk, AnswererOk;
    StartEnds(draw, r, Key(Start(draw, r)), capacity);
    StartLinks(draw, r, capacity);
  }

  lemma NoFrames(capacity: nat)
    requires Capacity(capacity)
    ensures Framing.Fits([], capacity)
  {
    FourBytes();
  }

  lemma {:induction false} RunInv(s: System, moves: seq<Move>, t: System, capacity: nat)
    requires Inv(s, capacity) && Reaches(s, moves, t, capacity)
    ensures Inv(t, capacity)
    decreases |moves|
  {
    hide Inv, Ready, MoveAllowed, Next;
    if moves != [] {
      StepKeeps(s, moves[0], capacity);
      RunInv(Next(s, moves[0], capacity), moves[1..], t, capacity);
    }
  }

  // ---- the theorems ----

  /** In every run each application reads a prefix of what the other encoded, no call reports an error, and two
      ends that have a cipher have the same one. */
  lemma Safety(draw: word, r: u32, moves: seq<Move>, t: System, capacity: nat)
    requires Factor(draw) && Capacity(capacity) && Reaches(Start(draw, r), moves, t, capacity)
    ensures t.a.got <= t.b.plain && t.b.got <= t.a.plain && t.a.clean && t.b.clean
    ensures t.a.peer.cipher.Xxtea? && t.b.peer.cipher.Xxtea? ==> t.a.peer.cipher == t.b.peer.cipher
    ensures t.a.peer.state == DataTransfer ==> t.a.peer.cipher == Xxtea(Key(t))
    ensures t.b.peer.state == DataTransfer ==> t.b.peer.cipher == Xxtea(Key(t))
  {
    hide Inv, Start, Reaches, Key;
    StartInv(draw, r, capacity);
    RunInv(Start(draw, r), moves, t, capacity);
    SafeNow(t, capacity);
  }

  lemma SafeNow(t: System, capacity: nat)
    requires Inv(t, capacity)
    ensures t.a.got <= t.b.plain && t.b.got <= t.a.plain && t.a.clean && t.b.clean
    ensures t.a.peer.cipher.Xxtea? && t.b.peer.cipher.Xxtea? ==> t.a.peer.cipher == t.b.peer.cipher
    ensures t.a.peer.state == DataTransfer ==> t.a.peer.cipher == Xxtea(Key(t))
    ensures t.b.peer.state == DataTransfer ==> t.b.peer.cipher == Xxtea(Key(t))
  {
    hide KeyBytes, SharedKey, PublicKey, IsTagged, Sealed, Link, Key;
  }

  predicate Delivered(s: System) { s.a.rx.emitted == s.b.sent && s.b.rx.emitted == s.a.sent }

  /** A run with nothing left to deliver has ended the handshake at both ends, with one key, and delivered every packet. */
  lemma Completion(s: System, capacity: nat)
    requires Inv(s, capacity) && Delivered(s)
    ensures s.a.peer.state == DataTransfer && s.b.peer.state == DataTransfer
    ensures s.a.peer.cipher == s.b.peer.cipher == Xxtea(KeyBytes(SharedKey(PublicKey(s.a.peer.priv), s.b.peer.priv)))
    ensures s.a.got == s.b.plain && s.b.got == s.a.plain
  {
    hide KeyBytes, SharedKey, PublicKey, IsTagged, Link;
  }

  // ---- no deadlock ----

  /** A read either takes a frame that is answered or sends nothing. */
  lemma ReadSends(s: System, move: Move, draw: word, capacity: nat)
    requires Inv(s, capacity) && Factor(draw) && (move == A(Read(1, draw, 0, 0)) || move == B(Read(1, draw, 0, 0)))
    ensures var t := Next(s, move, capacity);
            && t.a.rx.fed == s.a.rx.fed && t.b.rx.fed == s.b.rx.fed
            && (Owed(t) < Owed(s) || (Owed(t) == Owed(s) && t.a.sent == s.a.sent && t.b.sent == s.b.sent))
  {
    hide Framing.Inv, Framing.Fits, Framing.Apply, Poll, KeyBytes, SharedKey, PublicKey, IsTagged, SealAll, Payloads, Arrive;
    var x, theirs := if move.A? then s.a else s.b, if move.A? then s.b.sent else s.a.sent;
    var plain := if move.A? then s.b.plain else s.a.plain;
    var n := |x.rx.emitted|;
    if n == 0 {
      ReadsFrame(x, theirs, 1, draw, 0, 0, capacity);
    } else if n == 1 {
      ReadsOk(x, theirs, Key(s), 1, draw, 0, 0, capacity);
    } else {
      ReadsData(x, theirs, plain, Key(s), 1, draw, 0, 0, capacity);
    }
  }

  lemma Links(s: System, capacity: nat)
    requires Inv(s, capacity)
    ensures Link(s.a, s.b.sent, capacity) && Link(s.b, s.a.sent, capacity) && Capacity(capacity)
  {}

  /** While something is undelivered, a move brings the end nearer. */
  lemma Nearer(s: System, draw: word, capacity: nat) returns (move: Move)
    requires Inv(s, capacity) && Factor(draw) && !Delivered(s)
    ensures MoveAllowed(s, move, capacity) && Inv(Next(s, move, capacity), capacity)
    ensures var t := Next(s, move, capacity);
            Owed(t) < Owed(s) || (Owed(t) == Owed(s) && (Unfed(t) < Unfed(s) || (Unfed(t) == Unfed(s) && Waiting(t) < Waiting(s))))
  {
    hide Inv, Poll, Framing.Frames, Framing.Inv, Framing.Decode, Framing.Fits;
    IsReady(s, capacity);
    Links(s, capacity);
    var inA := s.a.rx.emitted != s.b.sent;
    var x, theirs := if inA then s.a else s.b, if inA then s.b.sent else s.a.sent;
    Framing.Progress(x.rx, theirs, capacity);
    if Framing.Apply(x.rx, Framing.Feed(1), Framing.Frames(theirs), capacity).fed == x.rx.fed + 1 {
      move := if inA then A(Feed(1)) else B(Feed(1));
    } else {
      move := if inA then A(Read(1, draw, 0, 0)) else B(Read(1, draw, 0, 0));
      ReadSends(s, move, draw, capacity);
    }
    StepKeeps(s, move, capacity);
  }

  /** From every state of a run, the handshake and the delivery of every packet can still be completed. */
  lemma {:induction false} CanFinish(s: System, draw: word, capacity: nat) returns (moves: seq<Move>, t: System)
    requires Inv(s, capacity) && Factor(draw)
    ensures Reaches(s, moves, t, capacity) && Delivered(t) && Inv(t, capacity)
    decreases Owed(s), Unfed(s), Waiting(s)
  {
    hide Inv, Delivered, Next, MoveAllowed, Ready, Owed, Unfed, Waiting;
    IsReady(s, capacity);
    if Delivered(s) {
      moves, t := [], s;
    } else {
      var move := Nearer(s, draw, capacity);
      IsReady(Next(s, move, capacity), capacity);
      var rest;
      rest, t := CanFinish(Next(s, move, capacity), draw, capacity);
      moves := [move] + rest;
      assert moves[1..] == rest;
    }
  }
}
