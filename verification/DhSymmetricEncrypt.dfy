/** `dh_symmetric_encrypt`: the key exchange handshake and the encrypted frames after it, at one end. */
module DhSymmetricEncrypt {
  import opened Arithmetic
  import opened Bytes
  import opened DiffieHellman
  import opened Scramble = Obfuscate
  import opened RingBuffer
  import Framing = HlenPacket
  import Tea = XxteaBytes

  const F_HANDSHAKE_HELLO: u8 := 1
  const F_HANDSHAKE_HELLO_RESP: u8 := 2
  const F_HANDSHAKE_OK: u8 := 3
  const CS_NONE: u8 := 1
  const CS_XXTEA: u8 := 2
  const CS_MAX: u8 := 3
  const C_NONE: u8 := 1
  const C_MAX: u8 := 4
  const MESSAGE: seq<u8> := [0x4d, 0x45, 0x53, 0x53, 0x41, 0x47, 0x45]

  // ---- keys and frames ----

  datatype Cipher = NoCipher | Xxtea(key: seq<u8>)

  /** `xxtea::set_key` with the eight bytes of the exchanged key. */
  function KeyBytes(k: word): seq<u8> { BigEndian(k as int, 8) + seq(8, _ => 0x7a) }

  /** What the generation loop ends with. */
  predicate Factor(priv: word) { priv != 0 && PublicKey(priv) != 0 }

  function Tagged(frame: u8, r: u32, body: seq<u8>): seq<u8> { BigEndian(U8Obfuscate(frame, r), 4) + body }

  /** Offers XXTEA and no cipher, and no compression. */
  function HelloBody(pub: word): seq<u8> { BigEndian(pub as int, 8) + [2, CS_XXTEA, CS_NONE, 1, C_NONE] }

  function RespBody(pub: word, cipher: u8, compress: u8): seq<u8> { BigEndian(pub as int, 8) + [cipher, compress] }

  function OkBody(key: seq<u8>): seq<u8> { Tea.Encrypt(MESSAGE, key) }

  /** The frame type is recovered from any random word. */
  lemma TagRead(frame: u8, r: u32, body: seq<u8>)
    ensures var f := Tagged(frame, r, body);
            |f| == 4 + |body| && f[4..] == body && U8Deobfuscate(Word32(f)) == frame
  {
    hide U8Obfuscate, U8Deobfuscate;
    var x := U8Obfuscate(frame, r);
    var f := Tagged(frame, r, body);
    assert f[..4] == BigEndian(x, 4);
    FourBytes();
    ValueOfBigEndian(x, 4);
    U8RoundTrip(frame, r);
  }

  lemma FourBytes()
    ensures Pow256(4) == 0x1_0000_0000
  {
    assert Pow256(4) == 256 * Pow256(3) && Pow256(3) == 256 * Pow256(2) && Pow256(2) == 256 * Pow256(1);
  }

  lemma EightBytes()
    ensures Pow256(8) == 0x1_0000_0000_0000_0000
  {
    FourBytes();
    assert Pow256(8) == 256 * Pow256(7) && Pow256(7) == 256 * Pow256(6) && Pow256(6) == 256 * Pow256(5) && Pow256(5) == 256 * Pow256(4);
  }

  /** `read<u32_t>` at the front of a packet. */
  function Word32(f: seq<u8>): u32
    requires |f| >= 4
  {
    FourBytes();
    Value(f[..4])
  }

  function Word64(f: seq<u8>): word
    requires |f| >= 8
  {
    EightBytes();
    Value(f[..8]) as word
  }

  lemma Word64Read(v: word, rest: seq<u8>)
    ensures Word64(BigEndian(v as int, 8) + rest) == v
    ensures (BigEndian(v as int, 8) + rest)[8..] == rest
  {
    EightBytes();
    ValueOfBigEndian(v as int, 8);
    assert (BigEndian(v as int, 8) + rest)[..8] == BigEndian(v as int, 8);
  }

  // ---- one end ----

  datatype DhState = Idle | Handshake | DataTransfer

  datatype Peer = Peer(state: DhState, priv: word, pub: word, cipher: Cipher)

  /** `Aborted`: an assertion of the program fails, or the frame asks for more list entries than there is room for. */
  datatype Outcome = Handshaking | HandshakeDone | InvalidPacket | UnknownCipher | MessageCheckFailed | DecryptFailed | Aborted

  datatype Arrival = Arrival(peer: Peer, outcome: Outcome, replies: seq<seq<u8>>)

  /** The generation loop, whose last draw is `draw`. */
  function Drawn(p: Peer, draw: word): Peer
  {
    if p.pub == 0 || p.priv == 0 then p.(priv := draw, pub := PublicKey(draw)) else p
  }

  function OnHello(p: Peer, body: seq<u8>, draw: word, r1: u32, r2: u32): Arrival
  {
    if p.state != Idle then Arrival(p, Aborted, []) else
    var p1 := p.(state := Handshake);
    if |body| < 9 then Arrival(p1, Aborted, []) else
    var count, rest := body[8], body[9..];
    if |rest| <= count then Arrival(p1, InvalidPacket, []) else
    if count > CS_MAX || count == 0 then Arrival(p1, Aborted, []) else
    var compressCount, tail := rest[count], rest[count + 1..];
    if |tail| < compressCount then Arrival(p1, InvalidPacket, []) else
    if compressCount > C_MAX || compressCount == 0 || |tail| != compressCount then Arrival(p1, Aborted, []) else
    var p2 := Drawn(p1, draw);
    if rest[0] != CS_XXTEA then Arrival(p2, UnknownCipher, []) else
    var key := KeyBytes(SharedKey(Word64(body), p2.priv));
    Arrival(p2.(cipher := Xxtea(key)), Handshaking,
      [Tagged(F_HANDSHAKE_HELLO_RESP, r1, RespBody(p2.pub, rest[0], tail[0])), Tagged(F_HANDSHAKE_OK, r2, OkBody(key))])
  }

  function OnResp(p: Peer, body: seq<u8>, r: u32): Arrival
  {
    if p.state != Handshake then Arrival(p, Aborted, []) else
    if |body| < 10 then Arrival(p, InvalidPacket, []) else
    if |body| != 10 then Arrival(p, Aborted, []) else
    if body[8] != CS_XXTEA then Arrival(p, UnknownCipher, []) else
    if p.priv == 0 then Arrival(p, Aborted, []) else
    var key := KeyBytes(SharedKey(Word64(body), p.priv));
    Arrival(p.(cipher := Xxtea(key)), Handshaking, [Tagged(F_HANDSHAKE_OK, r, OkBody(key))])
  }

  function OnOk(p: Peer, body: seq<u8>): Arrival
    requires body != []
  {
    if p.state != Handshake || p.cipher.NoCipher? then Arrival(p, Aborted, []) else
    match Tea.Decrypt(body, p.cipher.key)
    case InvalidData => Arrival(p, DecryptFailed, [])
    case Ok(m) => if MESSAGE <= m then Arrival(p.(state := DataTransfer), HandshakeDone, []) else Arrival(p, MessageCheckFailed, [])
  }

  /** `handshake_packet_arrive`. */
  function Arrive(p: Peer, f: seq<u8>, draw: word, r1: u32, r2: u32): Arrival
  {
    if |f| <= 4 then Arrival(p, InvalidPacket, []) else
    var frame, body := U8Deobfuscate(Word32(f)), f[4..];
    if frame == F_HANDSHAKE_HELLO then OnHello(p, body, draw, r1, r2)
    else if frame == F_HANDSHAKE_HELLO_RESP then OnResp(p, body, r1)
    else if frame == F_HANDSHAKE_OK then OnOk(p, body)
    else Arrival(p, InvalidPacket, [])
  }

  /** The end that starts the handshake, and its first frame. */
  function Greeter(draw: word): Peer { Peer(Handshake, draw, PublicKey(draw), NoCipher) }

  function Greeting(draw: word, r: u32): seq<u8> { Tagged(F_HANDSHAKE_HELLO, r, HelloBody(PublicKey(draw))) }

  // ---- the three frames, as they are received ----

  predicate Quiet(a: Arrival) { a.outcome == Handshaking || a.outcome == HandshakeDone }

  /** An idle end that receives a hello draws its factor and answers with the key both can compute. */
  lemma HelloArrives(p: Peer, pub: word, r: u32, draw: word, r1: u32, r2: u32)
    requires p.state == Idle
    ensures var a := Arrive(p, Tagged(F_HANDSHAKE_HELLO, r, HelloBody(pub)), draw, r1, r2);
            var q := Drawn(p, draw);
            var key := KeyBytes(SharedKey(pub, q.priv));
            && a.outcome == Handshaking
            && a.peer == q.(state := Handshake, cipher := Xxtea(key))
            && a.replies == [Tagged(F_HANDSHAKE_HELLO_RESP, r1, RespBody(q.pub, CS_XXTEA, C_NONE)), Tagged(F_HANDSHAKE_OK, r2, OkBody(key))]
  {
    hide Tagged, U8Deobfuscate, Word32, SharedKey, KeyBytes, BigEndian, Word64, RespBody, OkBody, PublicKey;
    var body := HelloBody(pub);
    TagRead(F_HANDSHAKE_HELLO, r, body);
    var tail: seq<u8> := [2, CS_XXTEA, CS_NONE, 1, C_NONE];
    Word64Read(pub, tail);
    assert body[8] == tail[0] && body[9..] == tail[1..];
    assert body[9..][0] == CS_XXTEA && body[9..][2] == 1 && body[9..][3..] == [C_NONE];
  }

  /** An end that greeted and receives the answer holds the key of the other's public key. */
  lemma RespArrives(p: Peer, pub: word, r: u32, draw: word, r1: u32, r2: u32)
    requires p.state == Handshake && p.priv != 0
    ensures var a := Arrive(p, Tagged(F_HANDSHAKE_HELLO_RESP, r, RespBody(pub, CS_XXTEA, C_NONE)), draw, r1, r2);
            var key := KeyBytes(SharedKey(pub, p.priv));
            && a.outcome == Handshaking && a.peer == p.(cipher := Xxtea(key))
            && a.replies == [Tagged(F_HANDSHAKE_OK, r1, OkBody(key))]
  {
    hide Tagged, U8Deobfuscate, Word32, SharedKey, KeyBytes, BigEndian, Word64, OkBody;
    var body := RespBody(pub, CS_XXTEA, C_NONE);
    TagRead(F_HANDSHAKE_HELLO_RESP, r, body);
    var tail: seq<u8> := [CS_XXTEA, C_NONE];
    Word64Read(pub, tail);
    assert body[8] == tail[0];
  }

  /** The message encrypted with the end's own key completes its handshake. */
  lemma OkArrives(p: Peer, key: seq<u8>, r: u32, draw: word, r1: u32, r2: u32)
    requires p.state == Handshake && p.cipher == Xxtea(key)
    ensures Arrive(p, Tagged(F_HANDSHAKE_OK, r, OkBody(key)), draw, r1, r2) == Arrival(p.(state := DataTransfer), HandshakeDone, [])
  {
    hide Tagged, U8Deobfuscate, Word32, Tea.Encrypt, Tea.Decrypt;
    Tea.RoundTrip(MESSAGE, key);
    TagRead(F_HANDSHAKE_OK, r, OkBody(key));
    assert |OkBody(key)| > 0;
  }

  // ---- which frames are taken ----

  /** A hello as it is meant: a public key, and between one and three ciphers and one and four compressions, counted. */
  ghost predicate WellFormed(body: seq<u8>, pub: seq<u8>, ciphers: seq<u8>, compress: seq<u8>)
  {
    && |pub| == 8 && 0 < |ciphers| <= 3 && 0 < |compress| <= 4
    && body == pub + [|ciphers|] + ciphers + [|compress|] + compress
  }

  /** Where the lists of a hello lie. */
  predicate Counted(body: seq<u8>)
  {
    && |body| >= 9 && 0 < body[8] <= 3 && |body| >= 10 + body[8]
    && 0 < body[9 + body[8]] <= 4 && |body| == 10 + body[8] + body[9 + body[8]]
  }

  lemma WellFormedIff(body: seq<u8>)
    ensures Counted(body) <==> exists pub, ciphers, compress :: WellFormed(body, pub, ciphers, compress)
    ensures forall pub, ciphers, compress :: WellFormed(body, pub, ciphers, compress) ==> ciphers[0] == body[9]
  {
    if Counted(body) {
      var n := body[8];
      assert WellFormed(body, body[..8], body[9..9 + n], body[10 + n..]);
    }
    forall pub, ciphers, compress | WellFormed(body, pub, ciphers, compress) ensures Counted(body) && ciphers[0] == body[9] {
      var n := |ciphers|;
      assert body[8] == n && body[9] == ciphers[0] && body[9 + n] == |compress|;
    }
  }

  /** The greeting is one: two ciphers are offered, XXTEA first, and no compression. */
  lemma GreetingWellFormed(pub: word)
    ensures WellFormed(HelloBody(pub), BigEndian(pub as int, 8), [2, 1], [1])
  {}

  /** An idle end goes on from a hello if and only if it is well formed and its first cipher is XXTEA; a well-formed one
      with another first cipher is refused as unknown; any other is refused or fails an assertion. */
  lemma HelloIff(p: Peer, body: seq<u8>, draw: word, r1: u32, r2: u32)
    requires p.state == Idle
    ensures var a := OnHello(p, body, draw, r1, r2);
            && (a.outcome == Handshaking <==> Counted(body) && body[9] == CS_XXTEA)
            && (a.outcome == UnknownCipher <==> Counted(body) && body[9] != CS_XXTEA)
            && (a.outcome != Handshaking ==> a.replies == [] && a.peer.cipher == p.cipher)
            && (!Counted(body) ==> a.outcome == InvalidPacket || a.outcome == Aborted)
  {
    if |body| >= 9 {
      var n, rest := body[8], body[9..];
      if |rest| > n {
        assert rest[n] == body[9 + n] && |rest[n + 1..]| == |body| - 10 - n;
      }
    }
  }

  /** An end that greeted goes on from an answer if and only if it is as long as it must be and names XXTEA. */
  lemma RespIff(p: Peer, body: seq<u8>, r: u32)
    requires p.state == Handshake && p.priv != 0
    ensures var a := OnResp(p, body, r);
            && (a.outcome == Handshaking <==> |body| == 10 && body[8] == CS_XXTEA)
            && (a.outcome == UnknownCipher <==> |body| == 10 && body[8] != CS_XXTEA)
            && (a.outcome == InvalidPacket <==> |body| < 10) && (a.outcome == Aborted <==> |body| > 10)
            && (a.outcome != Handshaking ==> a == Arrival(p, a.outcome, []))
  {}

  /** A frame completes the handshake, and data is transferred only then, if and only if it is the third kind, the end
      is in the middle of the handshake with a cipher, and the rest decrypts to something that begins with the message. */
  lemma DoneIff(p: Peer, f: seq<u8>, draw: word, r1: u32, r2: u32)
    requires p.state != DataTransfer
    ensures var a := Arrive(p, f, draw, r1, r2);
            && (a.outcome == HandshakeDone <==>
                  && |f| > 4 && U8Deobfuscate(Word32(f)) == 3 && p.state == Handshake && p.cipher.Xxtea?
                  && var m := Tea.Decrypt(f[4..], p.cipher.key);
                     m.Ok? && |m.data| >= 7 && m.data[..7] == [0x4d, 0x45, 0x53, 0x53, 0x41, 0x47, 0x45])
            && (a.peer.state == DataTransfer <==> a.outcome == HandshakeDone)
  {
    hide U8Deobfuscate, Word32, Tea.Decrypt, KeyBytes, SharedKey, PublicKey;
    assert |MESSAGE| == 7;
  }

  /** A frame of no known kind is refused, and an end that is not in the state for a frame fails an assertion. */
  lemma OtherFrames(p: Peer, f: seq<u8>, draw: word, r1: u32, r2: u32)
    ensures var a := Arrive(p, f, draw, r1, r2);
            && (|f| <= 4 ==> a == Arrival(p, InvalidPacket, []))
            && (|f| > 4 ==> var frame := U8Deobfuscate(Word32(f));
                  && (frame != 1 && frame != 2 && frame != 3 ==> a == Arrival(p, InvalidPacket, []))
                  && (frame == 1 && p.state != Idle ==> a == Arrival(p, Aborted, []))
                  && (frame == 2 && p.state != Handshake ==> a == Arrival(p, Aborted, []))
                  && (frame == 3 && (p.state != Handshake || p.cipher.NoCipher?) ==> a == Arrival(p, Aborted, [])))
  {
    hide U8Deobfuscate, Word32, KeyBytes, SharedKey, PublicKey;
  }

  /** The cipher's key: the eight bytes of the shared key, most significant first, and eight of padding. */
  lemma KeyBytesExactly(k: word)
    ensures var b := KeyBytes(k); |b| == 16 && Value(b[..8]) == k as int && b[8..] == seq(8, _ => 0x7a)
  {
    EightBytes();
    ValueOfBigEndian(k as int, 8);
    assert KeyBytes(k)[..8] == BigEndian(k as int, 8);
  }

  /** Different shared keys are different keys to the cipher. */
  lemma SharedKeysDiffer(k: word, other: word)
    requires k != other
    ensures Tea.KeyWords(KeyBytes(k)) != Tea.KeyWords(KeyBytes(other))
  {
    hide KeyBytes, Tea.KeyWords;
    KeyBytesExactly(k);
    KeyBytesExactly(other);
    Tea.KeysDiffer(KeyBytes(k), KeyBytes(other));
  }

  // ---- data ----

  /** Packets decrypted up to the first that cannot be. */
  function OpenAll(frames: seq<seq<u8>>, key: seq<u8>): (r: (seq<seq<u8>>, bool))
    requires forall i :: 0 <= i < |frames| ==> frames[i] != []
    ensures |r.0| <= |frames|
  {
    if frames == [] then ([], true) else
    match Tea.Decrypt(frames[0], key)
    case InvalidData => ([], false)
    case Ok(d) => var rest := OpenAll(frames[1..], key); ([d] + rest.0, rest.1)
  }

  /** The first packet that cannot be decrypted stops the rest. */
  lemma {:induction false} OpensUpTo(frames: seq<seq<u8>>, key: seq<u8>)
    requires forall i :: 0 <= i < |frames| ==> frames[i] != []
    ensures var r, n := OpenAll(frames, key), |OpenAll(frames, key).0|;
            && (forall i :: 0 <= i < n ==> Tea.Decrypt(frames[i], key) == Tea.Ok(r.0[i]))
            && (r.1 <==> n == |frames|)
            && (!r.1 ==> n < |frames| && Tea.Decrypt(frames[n], key).InvalidData?)
  {
    hide Tea.Decrypt;
    if frames != [] {
      OpensUpTo(frames[1..], key);
      var r, rest := OpenAll(frames, key), OpenAll(frames[1..], key);
      if Tea.Decrypt(frames[0], key).Ok? {
        assert forall i :: 0 < i < |r.0| ==> r.0[i] == rest.0[i - 1] && frames[i] == frames[1..][i - 1];
      }
    }
  }

  predicate Payload(p: seq<u8>, capacity: nat) { 0 < |p| < Tea.MAX_LENGTH && 4 * Tea.WordsNeeded(|p|) + 4 <= capacity }

  predicate Payloads(ps: seq<seq<u8>>, capacity: nat) { forall i :: 0 <= i < |ps| ==> Payload(ps[i], capacity) }

  function SealAll(ps: seq<seq<u8>>, key: seq<u8>, ghost capacity: nat): (r: seq<seq<u8>>)
    requires Payloads(ps, capacity)
    ensures |r| == |ps|
  {
    seq(|ps|, i requires 0 <= i < |ps| => Tea.Encrypt(ps[i], key))
  }

  /** Packets sealed with a key open unchanged under it. */
  lemma {:induction false} OpenSealed(ps: seq<seq<u8>>, key: seq<u8>, capacity: nat)
    requires Payloads(ps, capacity)
    ensures forall i :: 0 <= i < |ps| ==> SealAll(ps, key, capacity)[i] != []
    ensures OpenAll(SealAll(ps, key, capacity), key) == (ps, true)
  {
    hide Tea.Encrypt, Tea.Decrypt, Payload;
    var sealed := SealAll(ps, key, capacity);
    forall i | 0 <= i < |ps| ensures sealed[i] != [] { SealedFits(ps[i], key, capacity); }
    if ps != [] {
      SealedFits(ps[0], key, capacity);
      OpenSealed(ps[1..], key, capacity);
      assert sealed[1..] == SealAll(ps[1..], key, capacity);
      assert ps == [ps[0]] + ps[1..];
    }
  }

  lemma SealedFits(p: seq<u8>, key: seq<u8>, capacity: nat)
    requires Payload(p, capacity)
    ensures |p| < Tea.MAX_LENGTH && 0 < |Tea.Encrypt(p, key)| <= capacity
    ensures Tea.Decrypt(Tea.Encrypt(p, key), key) == Tea.Ok(p)
  {
    Tea.RoundTrip(p, key);
  }

  // ---- one call of the decoder ----

  datatype Polled = Polled(peer: Peer, parse: Framing.Parse, contents: seq<u8>, packets: seq<seq<u8>>,
                           code: Framing.Code, outcome: Outcome, replies: seq<seq<u8>>)

  /** `decode_packets`: decrypts packets when data is transferred; until then takes one frame of the handshake. */
  function Poll(p: Peer, parse: Framing.Parse, contents: seq<u8>, capacity: nat, limit: nat, draw: word, r1: u32, r2: u32): Polled
  {
    if p.state == DataTransfer then
      var r := Framing.Decode(Framing.Decoded(parse, contents, [], Framing.Ok), capacity, limit);
      if p.cipher.NoCipher? then Polled(p, r.parse, r.contents, [], r.code, Aborted, []) else
      Framing.DecodeNonEmpty(Framing.Decoded(parse, contents, [], Framing.Ok), capacity, limit);
      var plain := OpenAll(r.arrives, p.cipher.key);
      Polled(p, r.parse, r.contents, plain.0, r.code, if plain.1 then HandshakeDone else DecryptFailed, [])
    else
      var r := Framing.Decode(Framing.Decoded(parse, contents, [], Framing.Ok), capacity, 1);
      if |r.arrives| == 1 then
        var a := Arrive(p, r.arrives[0], draw, r1, r2);
        Polled(a.peer, r.parse, r.contents, [], Framing.Ok, a.outcome, a.replies)
      else Polled(p, r.parse, r.contents, [], r.code, Handshaking, [])
  }

  /** Once data is transferred a call hands out the packets of the frames the decoder reads, decrypted, up to the first
      that cannot be, which is then reported; the end itself does not change. */
  lemma PollsData(p: Peer, parse: Framing.Parse, contents: seq<u8>, capacity: nat, limit: nat, draw: word, r1: u32, r2: u32)
    requires p.state == DataTransfer && p.cipher.Xxtea?
    ensures var r := Framing.Decode(Framing.Decoded(parse, contents, [], Framing.Ok), capacity, limit);
            var q := Poll(p, parse, contents, capacity, limit, draw, r1, r2);
            var n := |q.packets|;
            && q.peer == p && q.parse == r.parse && q.contents == r.contents && q.code == r.code && q.replies == []
            && n <= |r.arrives| && (forall i :: 0 <= i < |r.arrives| ==> r.arrives[i] != [])
            && (forall i :: 0 <= i < n ==> Tea.Decrypt(r.arrives[i], p.cipher.key) == Tea.Ok(q.packets[i]))
            && (q.outcome == HandshakeDone <==> n == |r.arrives|)
            && (q.outcome != HandshakeDone ==> q.outcome == DecryptFailed && n < |r.arrives| && Tea.Decrypt(r.arrives[n], p.cipher.key).InvalidData?)
  {
    hide Tea.Decrypt, Framing.Decode, OpenAll;
    var d := Framing.Decoded(parse, contents, [], Framing.Ok);
    Framing.DecodeNonEmpty(d, capacity, limit);
    OpensUpTo(Framing.Decode(d, capacity, limit).arrives, p.cipher.key);
  }

  /** Until then a call takes one frame at most, and hands no packet to the application. */
  lemma PollsFrame(p: Peer, parse: Framing.Parse, contents: seq<u8>, capacity: nat, limit: nat, draw: word, r1: u32, r2: u32)
    requires p.state != DataTransfer
    ensures var r := Framing.Decode(Framing.Decoded(parse, contents, [], Framing.Ok), capacity, 1);
            var q := Poll(p, parse, contents, capacity, limit, draw, r1, r2);
            && q.packets == [] && q.parse == r.parse && q.contents == r.contents
            && if r.arrives == [] then q.peer == p && q.replies == [] && q.code == r.code && q.outcome == Handshaking
               else
                 var a := Arrive(p, r.arrives[0], draw, r1, r2);
                 |r.arrives| == 1 && q.peer == a.peer && q.outcome == a.outcome && q.replies == a.replies && q.code == Framing.Ok
  {
    hide Arrive, Framing.Decode;
    Framing.AtMost(Framing.Decoded(parse, contents, [], Framing.Ok), capacity, 1);
  }

  /** A factor is drawn once: an end that has one keeps it. */
  lemma DrawnOnce(p: Peer, draw: word, later: word)
    ensures p.priv != 0 && p.pub != 0 ==> Drawn(p, draw) == p
    ensures p.priv == 0 || p.pub == 0 ==> Drawn(p, draw).priv == draw && Drawn(p, draw).pub == PublicKey(draw)
    ensures Factor(draw) ==> Drawn(Drawn(p, draw), later) == Drawn(p, draw)
  {
    hide PublicKey;
  }

  class DhSymmetricEncrypt {
    const littleEndian: bool
    const framing: Framing.HlenPacket
    var state: DhState
    var priv: word
    var pub: word
    var cipher: Cipher

    function View(): Peer
      reads this
    {
      Peer(state, priv, pub, cipher)
    }

    constructor (littleEndian: bool)
      ensures View() == Peer(Idle, 0, 0, NoCipher) && framing.parse == Framing.ReadLen && fresh(framing)
    {
      this.littleEndian := littleEndian;
      framing := new Framing.HlenPacket();
      state, priv, pub, cipher := Idle, 0, 0, NoCipher;
    }

    method GenerateFactor(draw: word)
      modifies this
      ensures View() == Drawn(old(View()), draw)
    {
      if pub == 0 || priv == 0 {
        priv := draw;
        pub := DhPublic(draw);
      }
    }

    method WriteTagged(frame: u8, r: u32, body: seq<u8>) returns (f: seq<u8>)
      ensures f == Tagged(frame, r, body)
    {
      Widths();
      var spread := Scramble.Obfuscate(Bits(frame, 8), Bits(r, 32), 2);
      f := WriteImpl(Number(spread), 4);
      f := f + body;
    }

    method ReadTag(f: seq<u8>) returns (frame: u8)
      requires |f| >= 4
      ensures frame == U8Deobfuscate(Word32(f))
    {
      Widths();
      FourBytes();
      var x := ReadImpl(f, 4);
      var bits := Scramble.Deobfuscate(Bits(x, 32), 2);
      frame := Number(bits);
    }

    method Encrypt(data: seq<u8>, key: seq<u8>) returns (out: seq<u8>)
      requires |data| < Tea.MAX_LENGTH
      ensures out == Tea.Encrypt(data, key)
    {
      var encrypted := Tea.XxteaEncrypt(data, key, littleEndian);
      out := encrypted[..];
    }

    /** The key from the other's public key, padded to the sixteen bytes of the cipher. */
    method MakeCipher(theirs: word) returns (key: seq<u8>)
      modifies this`cipher
      ensures key == KeyBytes(SharedKey(theirs, priv)) && cipher == Xxtea(key)
    {
      var k := DhGenerateKey(theirs, priv);
      key := WriteImpl(k as int, 8);
      key := key + seq(8, _ => 0x7a);
      cipher := Xxtea(key);
    }

    method HandshakeMakeHelloPacket(draw: word, r: u32) returns (hello: seq<u8>)
      requires View() == Peer(Idle, 0, 0, NoCipher)
      modifies this
      ensures View() == Greeter(draw)
      ensures hello == Framing.Frame(Greeting(draw, r))
    {
      hide Tagged, PublicKey;
      GenerateFactor(draw);
      var body := WriteImpl(pub as int, 8);
      var ciphers: seq<u8>, compress: seq<u8> := [CS_XXTEA, CS_NONE], [C_NONE];
      body := body + [|ciphers|];
      var i := 0;
      while i < |ciphers|
        invariant i <= |ciphers| && body == BigEndian(pub as int, 8) + [2] + ciphers[..i]
      {
        body := body + [ciphers[i]];
        i := i + 1;
      }
      body := body + [|compress|];
      i := 0;
      while i < |compress|
        invariant i <= |compress| && body == BigEndian(pub as int, 8) + [2] + ciphers + [1] + compress[..i]
      {
        body := body + [compress[i]];
        i := i + 1;
      }
      assert body == HelloBody(pub);
      var f := WriteTagged(F_HANDSHAKE_HELLO, r, body);
      var header := WriteImpl(|f|, Framing.HEADER);
      state := Handshake;
      hello := header + f;
    }

    /** Single bytes off the front of a packet. */
    method ReadList(body: seq<u8>, count: nat) returns (list: seq<u8>, rest: seq<u8>)
      requires count <= |body|
      ensures list == body[..count] && rest == body[count..]
    {
      list, rest := [], body;
      var i := 0;
      while i < count
        invariant i <= count && list == body[..i] && rest == body[i..]
      {
        list := list + [rest[0]];
        rest := rest[1..];
        i := i + 1;
      }
    }

    method FrameOf(p: seq<u8>) returns (f: seq<u8>)
      ensures f == Framing.Frame(p)
    {
      var header := WriteImpl(|p|, Framing.HEADER);
      f := header + p;
    }

    method ArriveHello(body: seq<u8>, draw: word, r1: u32, r2: u32) returns (outcome: Outcome, out: seq<u8>)
      modifies this
      ensures var a := OnHello(old(View()), body, draw, r1, r2);
              View() == a.peer && outcome == a.outcome && out == Framing.Frames(a.replies)
    {
      hide Tagged, PublicKey, SharedKey, KeyBytes, Framing.Frame, BigEndian;
      out := [];
      if state != Idle { return Aborted, []; }
      state := Handshake;
      if |body| < 9 { return Aborted, []; }
      EightBytes();
      var theirs := ReadImpl(body, 8);
      var count, rest := body[8], body[9..];
      if |rest| <= count { return InvalidPacket, []; }
      if count > CS_MAX || count == 0 { return Aborted, []; }
      var ciphers, rest1 := ReadList(rest, count);
      var compressCount, tail := rest1[0], rest1[1..];
      assert tail == rest[count + 1..];
      if |tail| < compressCount { return InvalidPacket, []; }
      if compressCount > C_MAX || compressCount == 0 { return Aborted, []; }
      var compress, none := ReadList(tail, compressCount);
      if none != [] { return Aborted, []; }
      GenerateFactor(draw);
      if ciphers[0] != CS_XXTEA { return UnknownCipher, []; }
      var key := MakeCipher(theirs as word);
      var respBody := WriteImpl(pub as int, 8);
      respBody := respBody + [ciphers[0], compress[0]];
      var resp := WriteTagged(F_HANDSHAKE_HELLO_RESP, r1, respBody);
      out := FrameOf(resp);
      var message := Encrypt(MESSAGE, key);
      message := WriteTagged(F_HANDSHAKE_OK, r2, message);
      var more := FrameOf(message);
      out := out + more;
      outcome := Handshaking;
      TwoFrames(resp, message);
    }

    static lemma TwoFrames(p: seq<u8>, q: seq<u8>)
      ensures Framing.Frames([p, q]) == Framing.Frame(p) + Framing.Frame(q)
    {
      assert [p] + [q] == [p, q];
      Framing.FramesAppend([p], [q]);
      Framing.FramesOne(p);
      Framing.FramesOne(q);
    }

    method ArriveResp(body: seq<u8>, r: u32) returns (outcome: Outcome, out: seq<u8>)
      modifies this
      ensures var a := OnResp(old(View()), body, r);
              View() == a.peer && outcome == a.outcome && out == Framing.Frames(a.replies)
    {
      hide Tagged, PublicKey, SharedKey, KeyBytes, Framing.Frame, BigEndian;
      out := [];
      if state != Handshake { return Aborted, []; }
      if |body| < 10 { return InvalidPacket, []; }
      EightBytes();
      var theirs := ReadImpl(body, 8);
      var rest := body[10..];
      if rest != [] { return Aborted, []; }
      if body[8] != CS_XXTEA { return UnknownCipher, []; }
      if priv == 0 { return Aborted, []; }
      var key := MakeCipher(theirs as word);
      var message := Encrypt(MESSAGE, key);
      message := WriteTagged(F_HANDSHAKE_OK, r, message);
      out := FrameOf(message);
      outcome := Handshaking;
      Framing.FramesOne(message);
    }

    method ArriveOk(body: seq<u8>) returns (outcome: Outcome)
      requires body != []
      modifies this
      ensures var a := OnOk(old(View()), body);
              View() == a.peer && outcome == a.outcome && a.replies == []
    {
      hide Tea.Decrypt;
      if state != Handshake { return Aborted; }
      match cipher {
        case NoCipher => outcome := Aborted;
        case Xxtea(key) =>
          var plain := Tea.XxteaDecrypt(body, key, littleEndian);
          match plain {
            case InvalidData => outcome := DecryptFailed;
            case Ok(m) =>
              if MESSAGE <= m {
                state := DataTransfer;
                outcome := HandshakeDone;
              } else {
                outcome := MessageCheckFailed;
              }
          }
      }
    }

    method HandshakePacketArrive(f: seq<u8>, draw: word, r1: u32, r2: u32) returns (outcome: Outcome, out: seq<u8>)
      modifies this
      ensures var a := Arrive(old(View()), f, draw, r1, r2);
              View() == a.peer && outcome == a.outcome && out == Framing.Frames(a.replies)
    {
      hide OnHello, OnResp, OnOk, U8Deobfuscate;
      out := [];
      if |f| <= 4 { return InvalidPacket, []; }
      var frame := ReadTag(f);
      var body := f[4..];
      if frame == F_HANDSHAKE_HELLO {
        outcome, out := ArriveHello(body, draw, r1, r2);
      } else if frame == F_HANDSHAKE_HELLO_RESP {
        outcome, out := ArriveResp(body, r1);
      } else if frame == F_HANDSHAKE_OK {
        outcome := ArriveOk(body);
      } else {
        outcome := InvalidPacket;
      }
    }

    /** Refused until the handshake is done; then the frame of the encrypted packet. */
    method Encode(data: seq<u8>) returns (ok: bool, out: seq<u8>)
      requires |data| < Tea.MAX_LENGTH
      requires state == DataTransfer ==> cipher.Xxtea?
      ensures ok <==> state == DataTransfer
      ensures ok ==> out == Framing.Frame(Tea.Encrypt(data, cipher.key))
    {
      out := [];
      if state != DataTransfer { return false, []; }
      var encrypted := Encrypt(data, cipher.key);
      out := FrameOf(encrypted);
      ok := true;
    }

    method DecodePackets(buffer: BytesRingBuffer, limit: nat, draw: word, r1: u32, r2: u32)
      returns (packets: seq<seq<u8>>, code: Framing.Code, outcome: Outcome, out: seq<u8>)
      requires buffer.Valid()
      modifies this, framing, buffer
      ensures buffer.Valid()
      ensures var p := Poll(old(View()), old(framing.parse), old(buffer.Contents()), buffer.Capacity(), limit, draw, r1, r2);
              && View() == p.peer && framing.parse == p.parse && buffer.Contents() == p.contents && packets == p.packets
              && code == p.code && outcome == p.outcome && out == Framing.Frames(p.replies)
    {
      hide Framing.Decode, Arrive;
      packets, out := [], [];
      ghost var start := Framing.Decoded(framing.parse, buffer.Contents(), [], Framing.Ok);
      if state == DataTransfer {
        Framing.DecodeNonEmpty(start, buffer.Capacity(), limit);
        var arrives;
        arrives, code := framing.DecodePackets(buffer, limit);
        match cipher {
          case NoCipher => outcome := Aborted;
          case Xxtea(key) => packets, outcome := DecryptEach(arrives, key);
        }
      } else {
        var arrives;
        arrives, code := framing.DecodePackets(buffer, 1);
        outcome := Handshaking;
        if |arrives| == 1 {
          outcome, out := HandshakePacketArrive(arrives[0], draw, r1, r2);
          code := Framing.Ok;
        }
      }
    }

    method DecryptEach(arrives: seq<seq<u8>>, key: seq<u8>) returns (packets: seq<seq<u8>>, outcome: Outcome)
      requires forall i :: 0 <= i < |arrives| ==> arrives[i] != []
      ensures var plain := OpenAll(arrives, key);
              packets == plain.0 && outcome == if plain.1 then HandshakeDone else DecryptFailed
    {
      hide Tea.Decrypt;
      packets, outcome := [], HandshakeDone;
      assert arrives[0..] == arrives;
      var i := 0;
      while i < |arrives|
        invariant i <= |arrives|
        invariant OpenAll(arrives, key).0 == packets + OpenAll(arrives[i..], key).0
        invariant OpenAll(arrives, key).1 == OpenAll(arrives[i..], key).1
      {
        var plain := Tea.XxteaDecrypt(arrives[i], key, littleEndian);
        assert arrives[i..][1..] == arrives[i + 1..];
        if plain.InvalidData? { return packets, DecryptFailed; }
        ghost var rest := OpenAll(arrives[i + 1..], key).0;
        assert packets + ([plain.data] + rest) == (packets + [plain.data]) + rest;
        packets := packets + [plain.data];
        i := i + 1;
      }
    }
  }
}
