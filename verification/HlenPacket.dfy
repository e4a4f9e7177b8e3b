/** `hlen_packet`: length-prefixed frames, decoded from a ring buffer in resumable steps. */
module HlenPacket {
  import opened Bytes
  import opened RingBuffer
  import Packets = Packet

  const HEADER: nat := 4

  datatype Code = Ok | SocketBroken | InvalidPacket | TryAgain

  // ---- frames ----

  function Frame(p: seq<u8>): (f: seq<u8>)
    ensures |f| == HEADER + |p|
  {
    BigEndian(|p|, HEADER) + p
  }

  function Frames(ps: seq<seq<u8>>): seq<u8>
  {
    if ps == [] then [] else Frame(ps[0]) + Frames(ps[1..])
  }

  predicate Short(p: seq<u8>) { |p| < Pow256(HEADER) }

  predicate AllShort(ps: seq<seq<u8>>) { forall i :: 0 <= i < |ps| ==> Short(ps[i]) }

  lemma Assoc(a: seq<u8>, b: seq<u8>, c: seq<u8>)
    ensures (a + b) + c == a + (b + c)
  {}

  lemma {:induction false} FramesAppend(ps: seq<seq<u8>>, qs: seq<seq<u8>>)
    ensures Frames(ps + qs) == Frames(ps) + Frames(qs)
  {
    if ps == [] {
      assert ps + qs == qs;
    } else {
      hide Frame;
      FramesAppend(ps[1..], qs);
      assert (ps + qs)[1..] == ps[1..] + qs;
      Assoc(Frame(ps[0]), Frames(ps[1..]), Frames(qs));
    }
  }

  lemma FramesOne(p: seq<u8>)
    ensures Frames([p]) == Frame(p)
  {
    assert [p][1..] == [];
  }

  /** The length is read back from the header. */
  lemma HeaderValue(p: seq<u8>, rest: seq<u8>)
    requires Short(p)
    ensures Value((Frame(p) + rest)[..HEADER]) == |p|
    ensures (Frame(p) + rest)[HEADER..HEADER + |p|] == p
  {
    ValueOfBigEndian(|p|, HEADER);
    assert (Frame(p) + rest)[..HEADER] == BigEndian(|p|, HEADER);
  }

  /** Frames are uniquely readable: a list whose frames start the stream of another starts that list. */
  lemma {:induction false} FramesPrefix(qs: seq<seq<u8>>, rest: seq<u8>, ps: seq<seq<u8>>)
    requires AllShort(qs) && AllShort(ps) && Frames(qs) + rest <= Frames(ps)
    ensures qs <= ps && rest <= Frames(ps[|qs|..])
  {
    if qs == [] {
      assert Frames(qs) + rest == rest && ps[0..] == ps;
    } else {
      assert |Frames(qs)| >= HEADER && ps != [];
      var q, p := qs[0], ps[0];
      var tailQ, tailP := Frames(qs[1..]) + rest, Frames(ps[1..]);
      assert Frames(qs) + rest == Frame(q) + tailQ;
      SameFront(q, tailQ, p, tailP);
      FramesPrefix(qs[1..], rest, ps[1..]);
      assert ps[1..][|qs[1..]|..] == ps[|qs|..];
      assert qs == [q] + qs[1..] && ps == [p] + ps[1..];
    }
  }

  lemma SameFront(q: seq<u8>, tailQ: seq<u8>, p: seq<u8>, tailP: seq<u8>)
    requires Short(q) && Short(p) && Frame(q) + tailQ <= Frame(p) + tailP
    ensures q == p && tailQ <= tailP
  {
    var a, b := Frame(q) + tailQ, Frame(p) + tailP;
    HeaderValue(q, tailQ);
    HeaderValue(p, tailP);
    assert a[..HEADER] == b[..HEADER];
    assert a[HEADER..HEADER + |q|] == b[HEADER..HEADER + |q|];
    assert a[HEADER + |q|..] == tailQ && b[HEADER + |p|..] == tailP;
  }

  // ---- the decoder as a function ----

  /** `m_parse_state` and `m_size`: waiting for a length, or for that many bytes of content. */
  datatype Parse = ReadLen | ReadContent(size: nat)

  datatype Decoded = Decoded(parse: Parse, contents: seq<u8>, arrives: seq<seq<u8>>, code: Code)

  function Decode(d: Decoded, capacity: nat, limit: nat): Decoded
    requires d.code == Ok && |d.arrives| <= limit
    decreases |d.contents|, d.parse.ReadLen?
  {
    match d.parse
    case ReadLen =>
      if |d.contents| < HEADER then d else
      var n := Value(d.contents[..HEADER]);
      if n > capacity then d.(contents := d.contents[HEADER..], code := SocketBroken)
      else Decode(d.(contents := d.contents[HEADER..], parse := ReadContent(n)), capacity, limit)
    case ReadContent(n) =>
      if n == 0 then d.(code := InvalidPacket)
      else if |d.contents| < n then d
      else if |d.arrives| == limit then d.(code := TryAgain)
      else Decode(d.(contents := d.contents[n..], parse := ReadLen, arrives := d.arrives + [d.contents[..n]]), capacity, limit)
  }

  /** The header bytes already taken from the buffer. */
  function Taken(p: Parse): seq<u8> { if p.ReadLen? then [] else BigEndian(p.size, HEADER) }

  /** What waits to be handed out, the header of the next packet included. */
  function Pending(p: Parse, contents: seq<u8>): seq<u8> { Taken(p) + contents }

  predicate ParseOk(p: Parse) { p.ReadContent? ==> p.size < Pow256(HEADER) }

  /** Reading a header leaves what is pending as it was. */
  lemma HeaderTaken(contents: seq<u8>)
    requires |contents| >= HEADER
    ensures ParseOk(ReadContent(Value(contents[..HEADER])))
    ensures Pending(ReadContent(Value(contents[..HEADER])), contents[HEADER..]) == Pending(ReadLen, contents)
  {
    BigEndianOfValue(contents[..HEADER]);
    assert contents[..HEADER] + contents[HEADER..] == contents == Pending(ReadLen, contents);
  }

  /** Handing out a packet moves its frame from what is pending to the packets. */
  lemma PacketTaken(arrives: seq<seq<u8>>, n: nat, contents: seq<u8>)
    requires n <= |contents|
    ensures Pending(ReadContent(n), contents) == Frame(contents[..n]) + contents[n..]
    ensures Frames(arrives + [contents[..n]]) + contents[n..] == Frames(arrives) + Pending(ReadContent(n), contents)
  {
    var p := contents[..n];
    FramesAppend(arrives, [p]);
    FramesOne(p);
    assert contents == p + contents[n..];
    Assoc(BigEndian(n, HEADER), p, contents[n..]);
    Assoc(Frames(arrives), Frame(p), contents[n..]);
  }

  lemma NothingTaken(contents: seq<u8>)
    ensures Pending(ReadLen, contents) == contents
  {}

  /** No byte is lost or invented: what was waiting is the frames handed out and what waits now. */
  lemma {:induction false} DecodeConserves(d: Decoded, capacity: nat, limit: nat)
    requires d.code == Ok && |d.arrives| <= limit && ParseOk(d.parse) && AllShort(d.arrives)
    ensures var r := Decode(d, capacity, limit);
            && ParseOk(r.parse) && AllShort(r.arrives) && d.arrives <= r.arrives && |r.arrives| <= limit
            && (r.code != SocketBroken ==>
                  Frames(d.arrives) + Pending(d.parse, d.contents) == Frames(r.arrives) + Pending(r.parse, r.contents))
    decreases |d.contents|, d.parse.ReadLen?
  {
    hide Frames, Pending;
    if d.parse.ReadLen? {
      if |d.contents| >= HEADER && Value(d.contents[..HEADER]) <= capacity {
        HeaderTaken(d.contents);
        DecodeConserves(d.(contents := d.contents[HEADER..], parse := ReadContent(Value(d.contents[..HEADER]))), capacity, limit);
      }
    } else {
      var n := d.parse.size;
      if n != 0 && |d.contents| >= n && |d.arrives| != limit {
        PacketTaken(d.arrives, n, d.contents);
        NothingTaken(d.contents[n..]);
        DecodeConserves(d.(contents := d.contents[n..], parse := ReadLen, arrives := d.arrives + [d.contents[..n]]), capacity, limit);
      }
    }
  }

  /** What a call that has come to `rest` returns: more bytes are needed, the length announced is more than the buffer can
      hold or is zero, or a whole packet waits and no more are wanted. */
  predicate Verdict(rest: seq<u8>, capacity: nat, full: bool, code: Code)
  {
    if |rest| < HEADER then code == Ok
    else
      var n := Value(rest[..HEADER]);
      if n > capacity then code == SocketBroken
      else if n == 0 then code == InvalidPacket
      else if |rest| - HEADER < n then code == Ok
      else full && code == TryAgain
  }

  /** The packets before it are those a frame was read for: none empty, none larger than the buffer. */
  predicate Taking(ps: seq<seq<u8>>, capacity: nat) { forall i :: 0 <= i < |ps| ==> 0 < |ps[i]| <= capacity }

  ghost predicate Ends(d: Decoded, r: Decoded, capacity: nat, limit: nat, rest: seq<u8>)
  {
    && d.arrives <= r.arrives && Taking(r.arrives[|d.arrives|..], capacity)
    && Pending(d.parse, d.contents) == Frames(r.arrives[|d.arrives|..]) + rest
    && Verdict(rest, capacity, |r.arrives| == limit, r.code)
    && (r.code == SocketBroken ==> r.parse.ReadLen? && r.contents == rest[HEADER..])
    && (r.code != SocketBroken ==> Pending(r.parse, r.contents) == rest)
  }

  /** A call reads frames off the front and stops at the first point where it must; the code says at which, errors
      included. */
  lemma {:induction false} DecodeEnds(d: Decoded, capacity: nat, limit: nat) returns (rest: seq<u8>)
    requires d.code == Ok && |d.arrives| <= limit && ParseOk(d.parse) && (d.parse.ReadContent? ==> d.parse.size <= capacity)
    ensures Ends(d, Decode(d, capacity, limit), capacity, limit, rest)
    decreases |d.contents|, d.parse.ReadLen?
  {
    hide Frames, Pending, Frame;
    if d.parse.ReadLen? {
      NothingTaken(d.contents);
      if |d.contents| < HEADER || Value(d.contents[..HEADER]) > capacity {
        rest := d.contents;
        NoneTaken(d, rest);
      } else {
        var n := Value(d.contents[..HEADER]);
        HeaderTaken(d.contents);
        rest := DecodeEnds(d.(contents := d.contents[HEADER..], parse := ReadContent(n)), capacity, limit);
      }
    } else {
      var n := d.parse.size;
      PendingHeader(n, d.contents);
      if n == 0 || |d.contents| < n || |d.arrives| == limit {
        rest := Pending(d.parse, d.contents);
        NoneTaken(d, rest);
      } else {
        var p, more := d.contents[..n], d.contents[n..];
        PacketTaken([], n, d.contents);
        NothingTaken(more);
        var d1 := d.(contents := more, parse := ReadLen, arrives := d.arrives + [p]);
        rest := DecodeEnds(d1, capacity, limit);
        OneMoreTaken(d, d1, Decode(d1, capacity, limit), p, capacity, limit, rest);
      }
    }
  }

  lemma NoneTaken(d: Decoded, rest: seq<u8>)
    ensures d.arrives[|d.arrives|..] == [] && Frames([]) + rest == rest
  {}

  lemma PendingHeader(n: nat, contents: seq<u8>)
    requires n < Pow256(HEADER)
    ensures var r := Pending(ReadContent(n), contents); |r| == HEADER + |contents| && Value(r[..HEADER]) == n
  {
    ValueOfBigEndian(n, HEADER);
    assert (BigEndian(n, HEADER) + contents)[..HEADER] == BigEndian(n, HEADER);
  }

  lemma OneMoreTaken(d: Decoded, d1: Decoded, r: Decoded, p: seq<u8>, capacity: nat, limit: nat, rest: seq<u8>)
    requires Ends(d1, r, capacity, limit, rest) && d1.arrives == d.arrives + [p] && 0 < |p| <= capacity
    requires Pending(d.parse, d.contents) == Frame(p) + Pending(d1.parse, d1.contents)
    ensures Ends(d, r, capacity, limit, rest)
  {
    hide Pending, Frame, Verdict;
    var ps, qs := r.arrives[|d.arrives|..], r.arrives[|d1.arrives|..];
    assert r.arrives[|d.arrives|] == d1.arrives[|d.arrives|] == p;
    assert ps == [p] + qs;
    assert ps[1..] == qs && ps[0] == p;
    assert Frames(ps) == Frame(p) + Frames(qs);
    Assoc(Frame(p), Frames(qs), rest);
  }

  lemma {:induction false} AtMost(d: Decoded, capacity: nat, limit: nat)
    requires d.code == Ok && |d.arrives| <= limit
    ensures |Decode(d, capacity, limit).arrives| <= limit
    decreases |d.contents|, d.parse.ReadLen?
  {
    if d.parse.ReadLen? {
      if |d.contents| >= HEADER && Value(d.contents[..HEADER]) <= capacity {
        AtMost(d.(contents := d.contents[HEADER..], parse := ReadContent(Value(d.contents[..HEADER]))), capacity, limit);
      }
    } else {
      var n := d.parse.size;
      if n != 0 && |d.contents| >= n && |d.arrives| != limit {
        AtMost(d.(contents := d.contents[n..], parse := ReadLen, arrives := d.arrives + [d.contents[..n]]), capacity, limit);
      }
    }
  }

  /** What a call without an error code was stopped by. */
  lemma {:induction false} DecodeStops(d: Decoded, capacity: nat, limit: nat)
    requires d.code == Ok && |d.arrives| <= limit
    ensures var r := Decode(d, capacity, limit);
            && (r.code == Ok ==> if r.parse.ReadLen? then |r.contents| < HEADER else |r.contents| < r.parse.size)
            && (r.code == TryAgain ==> |r.arrives| == limit && r.parse.ReadContent?)
            && (r.code == InvalidPacket ==> r.parse == ReadContent(0))
            && |r.contents| <= |d.contents|
            && (r.code == Ok && r.arrives == d.arrives && d.parse.ReadContent? ==> r.contents == d.contents && r.parse == d.parse)
    decreases |d.contents|, d.parse.ReadLen?
  {
    if d.parse.ReadLen? {
      if |d.contents| >= HEADER && Value(d.contents[..HEADER]) <= capacity {
        DecodeStops(d.(contents := d.contents[HEADER..], parse := ReadContent(Value(d.contents[..HEADER]))), capacity, limit);
      }
    } else {
      var n := d.parse.size;
      if n != 0 && |d.contents| >= n && |d.arrives| != limit {
        var d1 := d.(contents := d.contents[n..], parse := ReadLen, arrives := d.arrives + [d.contents[..n]]);
        DecodeStops(d1, capacity, limit);
        DecodeGrows(d1, capacity, limit);
      }
    }
  }

  lemma {:induction false} DecodeGrows(d: Decoded, capacity: nat, limit: nat)
    requires d.code == Ok && |d.arrives| <= limit
    ensures |Decode(d, capacity, limit).arrives| >= |d.arrives|
    decreases |d.contents|, d.parse.ReadLen?
  {
    if d.parse.ReadLen? {
      if |d.contents| >= HEADER && Value(d.contents[..HEADER]) <= capacity {
        DecodeGrows(d.(contents := d.contents[HEADER..], parse := ReadContent(Value(d.contents[..HEADER]))), capacity, limit);
      }
    } else {
      var n := d.parse.size;
      if n != 0 && |d.contents| >= n && |d.arrives| != limit {
        DecodeGrows(d.(contents := d.contents[n..], parse := ReadLen, arrives := d.arrives + [d.contents[..n]]), capacity, limit);
      }
    }
  }

  /** Every packet handed out holds at least one byte. */
  lemma {:induction false} DecodeNonEmpty(d: Decoded, capacity: nat, limit: nat)
    requires d.code == Ok && |d.arrives| <= limit
    requires forall i :: 0 <= i < |d.arrives| ==> d.arrives[i] != []
    ensures forall i :: 0 <= i < |Decode(d, capacity, limit).arrives| ==> Decode(d, capacity, limit).arrives[i] != []
    decreases |d.contents|, d.parse.ReadLen?
  {
    if d.parse.ReadLen? {
      if |d.contents| >= HEADER && Value(d.contents[..HEADER]) <= capacity {
        DecodeNonEmpty(d.(contents := d.contents[HEADER..], parse := ReadContent(Value(d.contents[..HEADER]))), capacity, limit);
      }
    } else {
      var n := d.parse.size;
      if n != 0 && |d.contents| >= n && |d.arrives| != limit {
        DecodeNonEmpty(d.(contents := d.contents[n..], parse := ReadLen, arrives := d.arrives + [d.contents[..n]]), capacity, limit);
      }
    }
  }

  // ---- the decoder as an object ----

  class HlenPacket {
    var parse: Parse

    constructor ()
      ensures parse == ReadLen
    {
      parse := ReadLen;
    }

    /** A copy of the packet with its length in front; an empty packet is refused. */
    method Encode(in': Packets.Packet) returns (ok: bool, out: Packets.Packet)
      requires in'.Valid() && |in'.Contents()| < Pow256(HEADER)
      ensures in'.Contents() == [] ==> !ok
      ensures ok ==> out.Valid() && out.Contents() == Frame(in'.Contents())
      ensures in'.Contents() != [] && in'.readIdx >= HEADER ==> ok
    {
      out := in';
      if in'.Len() == 0 { return false, in'; }
      out := new Packets.Packet.Copy(in');
      var header := WriteImpl(in'.Len(), HEADER);
      ok := out.WriteLeft(header);
    }

    method DecodePackets(buffer: BytesRingBuffer, limit: nat) returns (arrives: seq<seq<u8>>, code: Code)
      requires buffer.Valid()
      modifies this, buffer
      ensures buffer.Valid()
      ensures Decoded(parse, buffer.Contents(), arrives, code)
           == Decode(Decoded(old(parse), old(buffer.Contents()), [], Ok), buffer.Capacity(), limit)
    {
      code := Ok;
      arrives := [];
      ghost var all := Decode(Decoded(parse, buffer.Contents(), [], Ok), buffer.Capacity(), limit);
      var exit := false;
      while !exit
        invariant buffer.Valid() && |arrives| <= limit
        invariant !exit ==> code == Ok && Decode(Decoded(parse, buffer.Contents(), arrives, Ok), buffer.Capacity(), limit) == all
        invariant exit ==> Decoded(parse, buffer.Contents(), arrives, code) == all
        decreases !exit, |buffer.Contents()|, parse.ReadLen?
      {
        match parse {
          case ReadLen =>
            var ok, size := buffer.TryReadU32();
            if !ok {
              exit := true;
            } else if size > buffer.Capacity() {
              code := SocketBroken;
              exit := true;
            } else {
              parse := ReadContent(size);
            }
          case ReadContent(size) =>
            if size == 0 {
              exit := true;
              code := InvalidPacket;
            } else if buffer.Count() < size {
              exit := true;
            } else if |arrives| == limit {
              exit := true;
              code := TryAgain;
            } else {
              var pack := buffer.Read(size, true);
              parse := ReadLen;
              arrives := arrives + [pack];
            }
        }
      }
    }
  }

  // ---- any sequence of feeding and decoding ----

  datatype Session = Session(parse: Parse, contents: seq<u8>, fed: nat, emitted: seq<seq<u8>>, code: Code)

  /** The stream is offered in pieces of any size; a call hands out at most `limit` packets. */
  datatype Step = Feed(size: nat) | Call(limit: nat)

  function Start(): Session { Session(ReadLen, [], 0, [], Ok) }

  function Apply(s: Session, step: Step, stream: seq<u8>, capacity: nat): Session
    requires s.fed <= |stream| && |s.contents| <= capacity
  {
    match step
    case Feed(size) =>
      var offered := if size > |stream| - s.fed then |stream| - s.fed else size;
      var left := capacity - |s.contents|;
      var n := if left > offered then offered else left;
      s.(contents := s.contents + stream[s.fed..s.fed + n], fed := s.fed + n)
    case Call(limit) =>
      var r := Decode(Decoded(s.parse, s.contents, [], Ok), capacity, limit);
      Session(r.parse, r.contents, s.fed, s.emitted + r.arrives, r.code)
  }

  predicate Fits(ps: seq<seq<u8>>, capacity: nat)
  {
    capacity < Pow256(HEADER) && forall i :: 0 <= i < |ps| ==> 0 < |ps[i]| <= capacity
  }

  /** Everything fed so far is the packets handed out and what waits. */
  ghost predicate Inv(s: Session, ps: seq<seq<u8>>, capacity: nat)
  {
    var stream := Frames(ps);
    && s.fed <= |stream| && |s.contents| <= capacity
    && ParseOk(s.parse) && AllShort(s.emitted)
    && Frames(s.emitted) + Pending(s.parse, s.contents) == stream[..s.fed]
    && (s.code == Ok || s.code == TryAgain)
  }

  /** Under the invariant the packets handed out start the list, and what waits starts the rest. */
  lemma EmittedPrefix(s: Session, ps: seq<seq<u8>>, capacity: nat)
    requires Inv(s, ps, capacity) && AllShort(ps)
    ensures s.emitted <= ps && Pending(s.parse, s.contents) <= Frames(ps[|s.emitted|..])
    ensures s.fed == |Frames(ps)| ==> Pending(s.parse, s.contents) == Frames(ps[|s.emitted|..])
  {
    hide Frames, Pending, Short;
    var w := Pending(s.parse, s.contents);
    FramesPrefix(s.emitted, w, ps);
    var rest := ps[|s.emitted|..];
    FramesAppend(s.emitted, rest);
    assert s.emitted + rest == ps;
  }

  lemma FirstOfFrames(ps: seq<seq<u8>>)
    requires ps != [] && Short(ps[0])
    ensures |Frames(ps)| >= HEADER + |ps[0]| && Value(Frames(ps)[..HEADER]) == |ps[0]|
  {
    HeaderValue(ps[0], Frames(ps[1..]));
  }

  /** The size waited for is that of the next packet, so it is neither zero nor too large. */
  lemma SizeIsNext(p: Parse, contents: seq<u8>, rest: seq<seq<u8>>)
    requires AllShort(rest) && ParseOk(p) && Pending(p, contents) <= Frames(rest)
    ensures p.ReadContent? ==> rest != [] && p.size == |rest[0]|
    ensures p.ReadLen? && |contents| >= HEADER ==> rest != [] && Value(contents[..HEADER]) == |rest[0]|
  {
    if p.ReadContent? {
      var w := Pending(p, contents);
      assert rest != [];
      FirstOfFrames(rest);
      ValueOfBigEndian(p.size, HEADER);
      assert w[..HEADER] == BigEndian(p.size, HEADER) && Frames(rest)[..HEADER] == w[..HEADER];
    } else if |contents| >= HEADER {
      NothingTaken(contents);
      assert rest != [];
      FirstOfFrames(rest);
      assert Frames(rest)[..HEADER] == contents[..HEADER];
    }
  }

  /** A stream of packets that fit never breaks the decoder. */
  lemma {:induction false} NeverBroken(d: Decoded, rest: seq<seq<u8>>, capacity: nat, limit: nat)
    requires d.code == Ok && |d.arrives| <= limit && ParseOk(d.parse)
    requires Fits(rest, capacity) && AllShort(rest) && Pending(d.parse, d.contents) <= Frames(rest)
    ensures var r := Decode(d, capacity, limit); r.code == Ok || r.code == TryAgain
    decreases |d.contents|, d.parse.ReadLen?
  {
    hide Frames, Pending, Frame;
    SizeIsNext(d.parse, d.contents, rest);
    if d.parse.ReadLen? {
      if |d.contents| >= HEADER {
        HeaderTaken(d.contents);
        NeverBroken(d.(contents := d.contents[HEADER..], parse := ReadContent(Value(d.contents[..HEADER]))), rest, capacity, limit);
      }
    } else {
      var n := d.parse.size;
      if |d.contents| >= n && |d.arrives| != limit {
        PacketTaken(d.arrives, n, d.contents);
        NothingTaken(d.contents[n..]);
        DropFront(d.contents[..n], d.contents[n..], rest);
        NeverBroken(d.(contents := d.contents[n..], parse := ReadLen, arrives := d.arrives + [d.contents[..n]]), rest[1..], capacity, limit);
      }
    }
  }

  lemma DropFront(p: seq<u8>, tail: seq<u8>, rest: seq<seq<u8>>)
    requires rest != [] && Short(p) && Short(rest[0]) && Frame(p) + tail <= Frames(rest)
    ensures tail <= Frames(rest[1..])
  {
    SameFront(p, tail, rest[0], Frames(rest[1..]));
  }

  lemma FitsShort(ps: seq<seq<u8>>, capacity: nat)
    requires Fits(ps, capacity)
    ensures AllShort(ps)
  {}

  lemma CallKeeps(s: Session, limit: nat, ps: seq<seq<u8>>, capacity: nat)
    requires Fits(ps, capacity) && Inv(s, ps, capacity)
    ensures Inv(Apply(s, Call(limit), Frames(ps), capacity), ps, capacity)
  {
    hide Frames, Pending, Short, Decode;
    FitsShort(ps, capacity);
    EmittedPrefix(s, ps, capacity);
    var d := Decoded(s.parse, s.contents, [], Ok);
    var r := Decode(d, capacity, limit);
    NeverBroken(d, ps[|s.emitted|..], capacity, limit);
    DecodeConserves(d, capacity, limit);
    DecodeStops(d, capacity, limit);
    NoFrames();
    FramesAppend(s.emitted, r.arrives);
    assert Frames(r.arrives) + Pending(r.parse, r.contents) == Pending(s.parse, s.contents);
    Assoc(Frames(s.emitted), Frames(r.arrives), Pending(r.parse, r.contents));
  }

  lemma NoFrames()
    ensures forall w: seq<u8> :: Frames([]) + w == w
  {}

  lemma FeedKeeps(s: Session, size: nat, ps: seq<seq<u8>>, capacity: nat)
    requires Inv(s, ps, capacity)
    ensures Inv(Apply(s, Feed(size), Frames(ps), capacity), ps, capacity)
  {
    hide Frames, Taken, ParseOk, AllShort;
    var s1 := Apply(s, Feed(size), Frames(ps), capacity);
    var stream := Frames(ps);
    var piece := stream[s.fed..s1.fed];
    assert stream[..s1.fed] == stream[..s.fed] + piece;
    Assoc(Taken(s.parse), s.contents, piece);
    Assoc(Frames(s.emitted), Pending(s.parse, s.contents), piece);
  }

  ghost predicate Reaches(s: Session, steps: seq<Step>, t: Session, ps: seq<seq<u8>>, capacity: nat)
    decreases |steps|
  {
    if steps == [] then s == t
    else
      && s.fed <= |Frames(ps)| && |s.contents| <= capacity
      && Reaches(Apply(s, steps[0], Frames(ps), capacity), steps[1..], t, ps, capacity)
  }

  lemma {:induction false} RunInv(s: Session, steps: seq<Step>, t: Session, ps: seq<seq<u8>>, capacity: nat)
    requires Fits(ps, capacity) && Inv(s, ps, capacity) && Reaches(s, steps, t, ps, capacity)
    ensures Inv(t, ps, capacity)
    decreases |steps|
  {
    if steps != [] {
      match steps[0] {
        case Feed(size) => FeedKeeps(s, size, ps, capacity);
        case Call(limit) => CallKeeps(s, limit, ps, capacity);
      }
      RunInv(Apply(s, steps[0], Frames(ps), capacity), steps[1..], t, ps, capacity);
    }
  }

  /** Independence of chunking: however the stream is cut and whatever the limits, the packets handed out are
      at any time the first ones in order, and no call reports an error. */
  lemma ChunkingIndependent(steps: seq<Step>, t: Session, ps: seq<seq<u8>>, capacity: nat)
    requires Fits(ps, capacity) && Reaches(Start(), steps, t, ps, capacity)
    ensures t.emitted <= ps && (t.code == Ok || t.code == TryAgain)
  {
    assert Frames(Start().emitted) + Pending(Start().parse, Start().contents) == Frames(ps)[..0];
    RunInv(Start(), steps, t, ps, capacity);
    FitsShort(ps, capacity);
    EmittedPrefix(t, ps, capacity);
  }

  /** Once every byte is fed, a call that is not cut short by its limit has handed out everything. */
  lemma CompleteWhenDrained(s: Session, limit: nat, ps: seq<seq<u8>>, capacity: nat)
    requires Fits(ps, capacity) && Inv(s, ps, capacity) && s.fed == |Frames(ps)|
    ensures var t := Apply(s, Call(limit), Frames(ps), capacity);
            t.code == Ok ==> t.emitted == ps && t.contents == [] && t.parse == ReadLen
  {
    var t := Apply(s, Call(limit), Frames(ps), capacity);
    CallKeeps(s, limit, ps, capacity);
    FitsShort(ps, capacity);
    EmittedPrefix(t, ps, capacity);
    DecodeStops(Decoded(s.parse, s.contents, [], Ok), capacity, limit);
    if t.code == Ok {
      var rest := ps[|t.emitted|..];
      SizeIsNext(t.parse, t.contents, rest);
      if rest != [] { FirstOfFrames(rest); }
      assert rest == [];
    }
  }

  function Calls(limits: seq<nat>): seq<Step> { seq(|limits|, i requires 0 <= i < |limits| => Call(limits[i])) }

  /** With every byte fed, each call with a positive limit makes progress, so enough of them drain the buffer. */
  lemma {:induction false} DrainsInTheEnd(s: Session, limits: seq<nat>, t: Session, ps: seq<seq<u8>>, capacity: nat)
    requires Fits(ps, capacity) && Inv(s, ps, capacity) && s.fed == |Frames(ps)|
    requires forall i :: 0 <= i < |limits| ==> limits[i] > 0
    requires |limits| > |ps| - |s.emitted|
    requires Reaches(s, Calls(limits), t, ps, capacity)
    ensures t.emitted == ps
    decreases |limits|
  {
    FitsShort(ps, capacity);
    EmittedPrefix(s, ps, capacity);
    assert limits != [];
    var s1 := Apply(s, Call(limits[0]), Frames(ps), capacity);
    assert Calls(limits)[1..] == Calls(limits[1..]);
    CallKeeps(s, limits[0], ps, capacity);
    DecodeStops(Decoded(s.parse, s.contents, [], Ok), capacity, limits[0]);
    if s1.code == Ok {
      CompleteWhenDrained(s, limits[0], ps, capacity);
      EmittedStays(s1, Calls(limits[1..]), t, ps, capacity);
    } else {
      EmittedPrefix(s1, ps, capacity);
      DrainsInTheEnd(s1, limits[1..], t, ps, capacity);
    }
  }

  /** All packets handed out stay the result: nothing more can come. */
  lemma EmittedStays(s: Session, steps: seq<Step>, t: Session, ps: seq<seq<u8>>, capacity: nat)
    requires Fits(ps, capacity) && Inv(s, ps, capacity) && s.emitted == ps && Reaches(s, steps, t, ps, capacity)
    ensures t.emitted == ps
  {
    RunInv(s, steps, t, ps, capacity);
    FitsShort(ps, capacity);
    EmittedPrefix(t, ps, capacity);
    EmittedGrows(s, steps, t, ps, capacity);
  }

  lemma {:induction false} EmittedGrows(s: Session, steps: seq<Step>, t: Session, ps: seq<seq<u8>>, capacity: nat)
    requires Reaches(s, steps, t, ps, capacity)
    ensures |s.emitted| <= |t.emitted|
    decreases |steps|
  {
    if steps != [] { EmittedGrows(Apply(s, steps[0], Frames(ps), capacity), steps[1..], t, ps, capacity); }
  }

  /** Frames sent later do not disturb what is already on the way. */
  lemma MoreFrames(s: Session, ps: seq<seq<u8>>, qs: seq<seq<u8>>, capacity: nat)
    requires Inv(s, ps, capacity)
    ensures Inv(s, ps + qs, capacity)
  {
    hide Frames, Pending, ParseOk, AllShort;
    FramesAppend(ps, qs);
    assert Frames(ps + qs)[..s.fed] == Frames(ps)[..s.fed];
  }

  /** What a call hands out is the next packets of the list. */
  lemma NextPackets(s: Session, limit: nat, ps: seq<seq<u8>>, capacity: nat)
    requires Fits(ps, capacity) && Inv(s, ps, capacity)
    ensures var arrives := Decode(Decoded(s.parse, s.contents, [], Ok), capacity, limit).arrives;
            var n := |s.emitted|;
            && |arrives| <= limit && n + |arrives| <= |ps| && arrives == ps[n..n + |arrives|]
    ensures var t := Apply(s, Call(limit), Frames(ps), capacity);
            Inv(t, ps, capacity) && t.emitted <= ps && t.fed == s.fed && |t.emitted| >= |s.emitted|
  {
    hide Frames, Pending, Decode, Short;
    var d := Decoded(s.parse, s.contents, [], Ok);
    var r := Decode(d, capacity, limit);
    CallKeeps(s, limit, ps, capacity);
    FitsShort(ps, capacity);
    EmittedPrefix(Apply(s, Call(limit), Frames(ps), capacity), ps, capacity);
    DecodeConserves(d, capacity, limit);
    assert s.emitted + r.arrives <= ps;
  }

  /** While something is missing, a byte can be fed or a call takes bytes out of the buffer. */
  lemma Progress(s: Session, ps: seq<seq<u8>>, capacity: nat)
    requires Fits(ps, capacity) && capacity >= HEADER && Inv(s, ps, capacity) && s.emitted <= ps && s.emitted != ps
    ensures Apply(s, Feed(1), Frames(ps), capacity).fed == s.fed + 1
         || |Apply(s, Call(1), Frames(ps), capacity).contents| < |s.contents|
  {
    hide Frames, Pending, Decode, Short;
    if s.fed == |Frames(ps)| {
      FitsShort(ps, capacity);
      EmittedPrefix(s, ps, capacity);
      Takes(s, ps, capacity);
    } else if |s.contents| == capacity {
      NoStall(s, 1, ps, capacity);
    }
  }

  /** With every byte fed and packets missing, a call takes a header or a packet. */
  lemma Takes(s: Session, ps: seq<seq<u8>>, capacity: nat)
    requires Fits(ps, capacity) && Inv(s, ps, capacity) && s.emitted <= ps && s.emitted != ps && AllShort(ps)
    requires Pending(s.parse, s.contents) == Frames(ps[|s.emitted|..])
    ensures |Apply(s, Call(1), Frames(ps), capacity).contents| < |s.contents|
  {
    var rest := ps[|s.emitted|..];
    FirstOfFrames(rest);
    SizeIsNext(s.parse, s.contents, rest);
    var d := Decoded(s.parse, s.contents, [], Ok);
    if d.parse.ReadLen? {
      NothingTaken(s.contents);
      DecodeStops(d.(contents := d.contents[HEADER..], parse := ReadContent(Value(d.contents[..HEADER]))), capacity, 1);
    } else {
      var n := d.parse.size;
      DecodeStops(d.(contents := d.contents[n..], parse := ReadLen, arrives := d.arrives + [d.contents[..n]]), capacity, 1);
    }
  }

  /** A full buffer never stalls: the next call with a positive limit hands out a packet or takes a header. */
  lemma NoStall(s: Session, limit: nat, ps: seq<seq<u8>>, capacity: nat)
    requires Fits(ps, capacity) && capacity >= HEADER && Inv(s, ps, capacity) && |s.contents| == capacity && limit > 0
    ensures |Apply(s, Call(limit), Frames(ps), capacity).contents| < capacity
  {
    FitsShort(ps, capacity);
    EmittedPrefix(s, ps, capacity);
    SizeIsNext(s.parse, s.contents, ps[|s.emitted|..]);
    var d := Decoded(s.parse, s.contents, [], Ok);
    if d.parse.ReadLen? {
      DecodeStops(d.(contents := d.contents[HEADER..], parse := ReadContent(Value(d.contents[..HEADER]))), capacity, limit);
    } else {
      var n := d.parse.size;
      DecodeStops(d.(contents := d.contents[n..], parse := ReadLen, arrives := d.arrives + [d.contents[..n]]), capacity, limit);
    }
  }
}
