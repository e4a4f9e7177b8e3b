/** The chunked coding of section 3.6.1 of RFC 2616 and its decoding by the parser, for any cut of the stream. */
module HttpChunked {
  import opened Bytes
  import opened HttpBody

  // ---- the coding ----

  /** A chunk with its size written in hexadecimal and what may follow it on the line. The last chunk has no data. */
  datatype Chunk = Chunk(digits: seq<u8>, ext: seq<u8>, data: seq<u8>)

  predicate IsHex(ds: seq<u8>) { forall i :: 0 <= i < |ds| ==> HexDigit(ds[i]) }

  /** What the parser takes for digits. */
  predicate Taken(ds: seq<u8>) { forall i :: 0 <= i < |ds| ==> Unhex(ds[i]) != -1 }

  function Hex(ds: seq<u8>): (r: seq<nat>)
    requires Taken(ds)
    ensures |r| == |ds|
  {
    seq(|ds|, i requires 0 <= i < |ds| => Unhex(ds[i]))
  }

  /** The number the digits write. */
  function Size(ds: seq<u8>): nat
    requires Taken(ds)
  {
    From(16, 0, Hex(ds))
  }

  /** A chunk whose size line is read as the amount of its data, and short enough. */
  predicate Readable(c: Chunk)
  {
    && c.digits != [] && Taken(c.digits)
    && (c.ext != [] ==> (c.ext[0] == SEMICOLON || c.ext[0] == SPACE) && CR !in c.ext)
    && |c.digits| + |c.ext| + 2 <= MAX_HEADER_SIZE
    && Size(c.digits) == |c.data| < Bound(16)
  }

  /** A chunk whose size line is well formed: its digits are hexadecimal. */
  predicate Valid(c: Chunk) { Readable(c) && IsHex(c.digits) }

  function Line(c: Chunk): seq<u8> { c.digits + c.ext + [CR, LF] }

  function Encode(c: Chunk): seq<u8> { Line(c) + c.data + [CR, LF] }

  /** Chunks with data, then the last one and no trailer. */
  function Stream(cs: seq<Chunk>, last: Chunk): seq<u8>
  {
    if cs == [] then Line(last) + [CR, LF] else Encode(cs[0]) + Stream(cs[1..], last)
  }

  /** Chunks the parser reads as a message; those of a message are well formed besides. */
  predicate Accepted(cs: seq<Chunk>, last: Chunk)
  {
    && (forall i :: 0 <= i < |cs| ==> Readable(cs[i]) && cs[i].data != [])
    && Readable(last) && last.data == []
  }

  predicate Message(cs: seq<Chunk>, last: Chunk)
  {
    && (forall i :: 0 <= i < |cs| ==> Valid(cs[i]) && cs[i].data != [])
    && Valid(last) && last.data == []
  }

  function Payload(cs: seq<Chunk>): seq<u8> { if cs == [] then [] else cs[0].data + Payload(cs[1..]) }

  /** What the callbacks must be told. */
  function Told(cs: seq<Chunk>): seq<Atom>
  {
    if cs == [] then [ChunkHeader(0), ChunkComplete, MessageComplete]
    else [ChunkHeader(|cs[0].data|)] + Atoms(cs[0].data) + [ChunkComplete] + Told(cs[1..])
  }

  // ---- one size line ----

  lemma {:induction false} RunDigits(a: Parser, ds: seq<u8>)
    requires a.state == ChunkSize && a.errno == OK && Taken(ds) && Accepts(16, a.contentLength, Hex(ds))
    requires a.nread + |ds| <= MAX_HEADER_SIZE
    ensures Run(a, ds) == a.(contentLength := From(16, a.contentLength, Hex(ds)), nread := a.nread + |ds|)
    decreases |ds|
  {
    if ds != [] {
      assert Hex(ds)[1..] == Hex(ds[1..]);
      RunDigits(Step(a, ds[0]), ds[1..]);
    }
  }

  lemma {:induction false} RunParameters(a: Parser, ext: seq<u8>)
    requires a.state == ChunkParameters && a.errno == OK && CR !in ext && a.nread + |ext| <= MAX_HEADER_SIZE
    ensures Run(a, ext) == a.(nread := a.nread + |ext|)
    decreases |ext|
  {
    if ext != [] {
      assert ext[0] != CR;
      RunParameters(Step(a, ext[0]), ext[1..]);
    }
  }

  lemma RunTwo(a: Parser, x: u8, y: u8)
    requires Going(a) && Going(Step(a, x))
    ensures Run(a, [x, y]) == Step(Step(a, x), y)
  {
    hide Step;
    var b := Step(a, x);
    assert [x, y][1..] == [y] && [y][1..] == [];
    assert Run(b, [y]) == Run(Step(b, y), []) == Step(b, y);
  }

  predicate AtSize(a: Parser) { a.state == ChunkSizeStart && a.errno == OK && a.nread == 0 }

  lemma RunSize(a: Parser, ds: seq<u8>)
    requires AtSize(a) && ds != [] && Taken(ds) && Size(ds) < Bound(16) && |ds| <= MAX_HEADER_SIZE
    ensures Run(a, ds) == a.(state := ChunkSize, contentLength := Size(ds), nread := |ds|)
  {
    AcceptedIffBelowBound(16, 0, Hex(ds));
    var b := Step(a, ds[0]);
    assert Hex(ds)[1..] == Hex(ds[1..]);
    RunDigits(b, ds[1..]);
  }

  /** A size that does not fit is refused at the first digit there is no room for, whatever the cut. */
  lemma {:induction false} OversizeRefused(a: Parser, ds: seq<u8>)
    requires a.state == ChunkSize && a.errno == OK && Taken(ds) && ds != [] && a.nread + |ds| <= MAX_HEADER_SIZE
    ensures From(16, a.contentLength, Hex(ds)) >= Bound(16) <==> Run(a, ds).errno == InvalidContentLength
    decreases |ds|
  {
    AcceptedIffBelowBound(16, a.contentLength, Hex(ds));
    if Accepts(16, a.contentLength, Hex(ds)) {
      RunDigits(a, ds);
    } else {
      assert Hex(ds)[1..] == Hex(ds[1..]);
      var b := Step(a, ds[0]);
      if Room(16, a.contentLength) && |ds| > 1 {
        AcceptedIffBelowBound(16, b.contentLength, Hex(ds[1..]));
        OversizeRefused(b, ds[1..]);
      } else if !Room(16, a.contentLength) {
        assert Run(b, ds[1..]) == b;
      }
    }
  }

  lemma RunLineEnd(a: Parser)
    requires (a.state == ChunkSize || a.state == ChunkParameters) && a.errno == OK && a.nread + 2 <= MAX_HEADER_SIZE
    ensures var n := a.contentLength;
            Run(a, [CR, LF]) == a.(nread := 0, trace := a.trace + [ChunkHeader(n)], trailing := a.trailing || n == 0,
                                   state := if n == 0 then HeaderFieldStart else ChunkData)
  {
    assert Step(a, CR).state == ChunkSizeAlmostDone;
    RunTwo(a, CR, LF);
  }

  /** A size line leads into the data, with exactly the size it writes. */
  lemma RunLine(a: Parser, c: Chunk)
    requires AtSize(a) && Readable(c)
    ensures var n := |c.data|;
            Run(a, Line(c)) == a.(contentLength := n, trace := a.trace + [ChunkHeader(n)], trailing := a.trailing || n == 0,
                                  state := if n == 0 then HeaderFieldStart else ChunkData)
  {
    hide Step, Run, Size, Taken, Bound;
    RunSize(a, c.digits);
    var b := Run(a, c.digits);
    var d := Run(b, c.ext);
    if c.ext == [] {
      Stopped(b, c.ext);
    } else {
      RunExt(b, c.ext);
    }
    RunLineEnd(d);
    RunAppend(a, c.digits, c.ext);
    RunAppend(a, c.digits + c.ext, [CR, LF]);
  }

  // ---- which size lines are taken ----

  predicate NoEnd(ds: seq<u8>) { CR !in ds && SEMICOLON !in ds && SPACE !in ds }

  lemma {:induction false} NotTaken(a: Parser, ds: seq<u8>)
    requires a.state == ChunkSize && a.errno == OK && a.nread + |ds| <= MAX_HEADER_SIZE && NoEnd(ds) && !Taken(ds)
    ensures Run(a, ds).errno != OK
    decreases |ds|
  {
    assert ds[0] !in [CR, SEMICOLON, SPACE];
    var b := Step(a, ds[0]);
    if b.errno != OK {
      Stopped(b, ds[1..]);
    } else {
      NotTaken(b, ds[1..]);
    }
  }

  lemma SizeRefused(a: Parser, ds: seq<u8>)
    requires AtSize(a) && ds != [] && |ds| <= MAX_HEADER_SIZE && NoEnd(ds) && !(Taken(ds) && Size(ds) < Bound(16))
    ensures Run(a, ds).errno != OK
  {
    var b := Step(a, ds[0]);
    if b.errno != OK {
      Stopped(b, ds[1..]);
    } else if !Taken(ds) {
      NotTaken(b, ds[1..]);
    } else {
      assert Hex(ds)[1..] == Hex(ds[1..]);
      assert From(16, Hex(ds)[0], []) == Hex(ds)[0];
      OversizeRefused(b, ds[1..]);
    }
  }

  /** A size line is taken exactly when each of its bytes is taken for a digit and the number is below the bound. It
      is a hexadecimal number then exactly if no byte is 0x80 or more. */
  lemma SizeLineIff(a: Parser, ds: seq<u8>)
    requires AtSize(a) && ds != [] && |ds| + 2 <= MAX_HEADER_SIZE && NoEnd(ds)
    ensures Run(a, ds + [CR, LF]).errno == OK <==> Taken(ds) && Size(ds) < Bound(16)
    ensures Run(a, ds + [CR, LF]).errno == OK ==> (IsHex(ds) <==> forall i :: 0 <= i < |ds| ==> ds[i] < 0x80)
  {
    RunAppend(a, ds, [CR, LF]);
    var b := Run(a, ds);
    if Taken(ds) && Size(ds) < Bound(16) {
      hide Run, Size, Step;
      RunSize(a, ds);
      RunLineEnd(b);
    } else {
      SizeRefused(a, ds);
      Stopped(b, [CR, LF]);
    }
  }

  /** The byte 0x80 alone is taken for the size of the last chunk: with two line ends it is a complete message. */
  lemma HighByteTaken()
    ensures !IsHex([0x80]) && Run(AtBody(), [0x80, CR, LF, CR, LF]).errno == OK
    ensures Run(AtBody(), [0x80, CR, LF, CR, LF]).trace == Told([])
  {
    var last := Chunk([0x80], [], []);
    assert last.digits[0] == 0x80;
    assert Hex([0x80]) == [0];
    assert Size([0x80]) == 0 by { assert From(16, 0, [0]) == From(16, 0, []); }
    RunLast(AtBody(), last);
    assert Line(last) + [CR, LF] == [0x80, CR, LF, CR, LF];
    assert [] + Told([]) == Told([]);
  }

  lemma RunExt(b: Parser, ext: seq<u8>)
    requires b.state == ChunkSize && b.errno == OK && ext != [] && (ext[0] == SEMICOLON || ext[0] == SPACE) && CR !in ext
    requires b.nread + |ext| <= MAX_HEADER_SIZE
    ensures Run(b, ext) == b.(state := ChunkParameters, nread := b.nread + |ext|)
  {
    RunParameters(Step(b, ext[0]), ext[1..]);
  }

  lemma RunDataEnd(a: Parser)
    requires a.state == ChunkDataAlmostDone && a.errno == OK && a.contentLength == 0
    ensures Run(a, [CR, LF]) == a.(state := ChunkSizeStart, nread := 0, trace := a.trace + [ChunkComplete])
  {
    RunTwo(a, CR, LF);
  }

  /** A chunk leads from one size line to the next. */
  lemma RunChunk(a: Parser, c: Chunk)
    requires AtSize(a) && Readable(c) && c.data != []
    ensures Run(a, Encode(c)) == a.(contentLength := 0, trace := a.trace + [ChunkHeader(|c.data|)] + Atoms(c.data) + [ChunkComplete])
  {
    hide Run, Size, Taken;
    RunLine(a, c);
    var b := Run(a, Line(c));
    RunData(b, c.data);
    RunDataEnd(Run(b, c.data));
    RunAppend(a, Line(c), c.data);
    RunAppend(a, Line(c) + c.data, [CR, LF]);
  }

  lemma RunLast(a: Parser, last: Chunk)
    requires AtSize(a) && Readable(last) && last.data == []
    ensures Run(a, Line(last) + [CR, LF])
         == a.(state := NewMessage, contentLength := 0, nread := 2, trailing := true, trace := a.trace + Told([]))
  {
    hide Run, Size, Taken;
    RunLine(a, last);
    var b := Run(a, Line(last));
    RunAppend(a, Line(last), [CR, LF]);
    RunTwo(b, CR, LF);
    assert (a.trace + [ChunkHeader(0)]) + [ChunkComplete, MessageComplete] == a.trace + Told([]);
  }

  // ---- the whole message ----

  lemma {:induction false} RunStream(a: Parser, cs: seq<Chunk>, last: Chunk)
    requires AtSize(a) && Accepted(cs, last)
    ensures var r := Run(a, Stream(cs, last));
            r.state == NewMessage && r.errno == OK && r.trace == a.trace + Told(cs)
    decreases |cs|
  {
    hide Run, Readable, Encode;
    if cs == [] {
      RunLast(a, last);
    } else {
      RunChunk(a, cs[0]);
      var b := Run(a, Encode(cs[0]));
      RunStream(b, cs[1..], last);
      RunAppend(a, Encode(cs[0]), Stream(cs[1..], last));
      var head := [ChunkHeader(|cs[0].data|)] + Atoms(cs[0].data) + [ChunkComplete];
      assert a.trace + [ChunkHeader(|cs[0].data|)] + Atoms(cs[0].data) + [ChunkComplete] == a.trace + head;
      assert (a.trace + head) + Told(cs[1..]) == a.trace + (head + Told(cs[1..]));
    }
  }

  // ---- what the trace says ----

  function Body(t: seq<Atom>): seq<u8>
  {
    if t == [] then [] else (if t[0].Byte? then [t[0].b] else []) + Body(t[1..])
  }

  function Messages(t: seq<Atom>): nat
  {
    if t == [] then 0 else (if t[0].MessageComplete? then 1 else 0) + Messages(t[1..])
  }

  lemma {:induction false} TraceAppend(s: seq<Atom>, t: seq<Atom>)
    ensures Body(s + t) == Body(s) + Body(t) && Messages(s + t) == Messages(s) + Messages(t)
  {
    if s == [] {
      assert s + t == t;
    } else {
      assert (s + t)[1..] == s[1..] + t && (s + t)[0] == s[0];
      TraceAppend(s[1..], t);
      var head := if s[0].Byte? then [s[0].b] else [];
      assert head + (Body(s[1..]) + Body(t)) == (head + Body(s[1..])) + Body(t);
    }
  }

  lemma {:induction false} BodyOfAtoms(bs: seq<u8>)
    ensures Body(Atoms(bs)) == bs && Messages(Atoms(bs)) == 0
  {
    if bs != [] {
      assert Atoms(bs)[1..] == Atoms(bs[1..]);
      BodyOfAtoms(bs[1..]);
    }
  }

  lemma OneAtom(a: Atom)
    ensures Body([a]) == (if a.Byte? then [a.b] else []) && Messages([a]) == if a.MessageComplete? then 1 else 0
  {
    assert [a][1..] == [];
  }

  /** The body told is the payload, and the message is completed once, at the very end. */
  lemma {:induction false} ToldIsPayload(cs: seq<Chunk>)
    ensures Body(Told(cs)) == Payload(cs) && Messages(Told(cs)) == 1 && Told(cs) != []
    ensures Told(cs)[|Told(cs)| - 1] == MessageComplete
  {
    hide Body, Messages, Atoms;
    if cs == [] {
      assert Told(cs) == [ChunkHeader(0)] + [ChunkComplete] + [MessageComplete];
      TraceAppend([ChunkHeader(0)], [ChunkComplete]);
      TraceAppend([ChunkHeader(0)] + [ChunkComplete], [MessageComplete]);
      OneAtom(ChunkHeader(0));
      OneAtom(ChunkComplete);
      OneAtom(MessageComplete);
    } else {
      var h, d := [ChunkHeader(|cs[0].data|)], Atoms(cs[0].data);
      ToldIsPayload(cs[1..]);
      BodyOfAtoms(cs[0].data);
      OneAtom(h[0]);
      OneAtom(ChunkComplete);
      TraceAppend(h, d);
      assert [] + cs[0].data == cs[0].data && cs[0].data + [] == cs[0].data;
      TraceAppend(h + d, [ChunkComplete]);
      var head := h + d + [ChunkComplete];
      TraceAppend(head, Told(cs[1..]));
      assert Told(cs) == head + Told(cs[1..]);
      LastOfBoth(head, Told(cs[1..]));
    }
  }

  lemma LastOfBoth(s: seq<Atom>, t: seq<Atom>)
    requires t != []
    ensures (s + t)[|s + t| - 1] == t[|t| - 1]
  {}

  // ---- any cut ----

  function Joined(pieces: seq<seq<u8>>): seq<u8> { if pieces == [] then [] else pieces[0] + Joined(pieces[1..]) }

  lemma {:induction false} JoinedLast(pieces: seq<seq<u8>>)
    requires pieces != []
    ensures Joined(pieces) == Joined(pieces[..|pieces| - 1]) + pieces[|pieces| - 1]
  {
    if |pieces| == 1 {
      assert pieces[1..] == [] && pieces[..0] == [];
    } else {
      JoinedLast(pieces[1..]);
      assert pieces[1..][..|pieces| - 2] == pieces[..|pieces| - 1][1..];
    }
  }

  /** A parser fed the pieces of a stream one after the other ends as if it were fed the stream at once. */
  method FeedAll(p: HttpParser, pieces: seq<seq<u8>>)
    requires Sound(p.View()) && forall i :: 0 <= i < |pieces| ==> pieces[i] != []
    requires Run(p.View(), Joined(pieces)).errno == OK
    modifies p
    ensures p.View() == Run(old(p.View()), Joined(pieces))
  {
    hide Run, Sound, Joined;
    ghost var a := p.View();
    NoPieces();
    assert pieces[..0] == [];
    Stopped(a, []);
    PrefixIsGood(a, pieces, 0);
    for i := 0 to |pieces|
      invariant Sound(p.View()) && p.View() == Run(a, Joined(pieces[..i])) && p.errno == OK
    {
      JoinedLast(pieces[..i + 1]);
      assert pieces[..i + 1][..i] == pieces[..i];
      RunAppend(a, Joined(pieces[..i]), pieces[i]);
      PrefixIsGood(a, pieces, i + 1);
      var _ := p.Execute(pieces[i]);
    }
    assert pieces[..|pieces|] == pieces;
  }

  lemma NoPieces()
    ensures Joined([]) == []
  {}

  lemma {:induction false} JoinedSplit(pieces: seq<seq<u8>>, i: nat)
    requires i <= |pieces|
    ensures Joined(pieces) == Joined(pieces[..i]) + Joined(pieces[i..])
  {
    if i > 0 {
      JoinedSplit(pieces[1..], i - 1);
      assert pieces[1..][..i - 1] == pieces[..i][1..] && pieces[1..][i - 1..] == pieces[i..];
    } else {
      assert pieces[0..] == pieces;
    }
  }

  /** Nothing fails before the end if nothing fails at the end. */
  lemma PrefixIsGood(a: Parser, pieces: seq<seq<u8>>, i: nat)
    requires i <= |pieces| && Run(a, Joined(pieces)).errno == OK
    ensures Run(a, Joined(pieces[..i])).errno == OK
  {
    hide Run;
    JoinedSplit(pieces, i);
    RunAppend(a, Joined(pieces[..i]), Joined(pieces[i..]));
    Stopped(Run(a, Joined(pieces[..i])), Joined(pieces[i..]));
  }

  function AtBody(): Parser { Parser(ChunkSizeStart, 0, 0, false, OK, []) }

  /** Any message in the chunked coding, cut anywhere into non-empty buffers: the callbacks are told its payload,
      the size of each chunk, and the end of the message once. */
  lemma ChunkedMessage(cs: seq<Chunk>, last: Chunk, pieces: seq<seq<u8>>)
    requires Message(cs, last) && Joined(pieces) == Stream(cs, last)
    ensures var r := Run(AtBody(), Joined(pieces));
            && r.errno == OK && r.state == NewMessage && r.trace == Told(cs)
            && Body(r.trace) == Payload(cs) && Messages(r.trace) == 1
  {
    hide Run;
    RunStream(AtBody(), cs, last);
    ToldIsPayload(cs);
    assert [] + Told(cs) == Told(cs);
  }

  /** At any point of such a message, what was told so far is a prefix of the payload, and nothing failed. */
  lemma PartialMessage(cs: seq<Chunk>, last: Chunk, pieces: seq<seq<u8>>, i: nat)
    requires Message(cs, last) && Joined(pieces) == Stream(cs, last) && i <= |pieces|
    ensures var r := Run(AtBody(), Joined(pieces[..i]));
            r.errno == OK && r.trace <= Told(cs) && Body(r.trace) <= Payload(cs)
  {
    hide Run, Body;
    ChunkedMessage(cs, last, pieces);
    PrefixIsGood(AtBody(), pieces, i);
    JoinedSplit(pieces, i);
    RunAppend(AtBody(), Joined(pieces[..i]), Joined(pieces[i..]));
    var r := Run(AtBody(), Joined(pieces[..i]));
    TraceGrows(r, Joined(pieces[i..]));
    TraceAppend(r.trace, Told(cs)[|r.trace|..]);
    assert r.trace + Told(cs)[|r.trace|..] == Told(cs);
  }

  /** The parser object on such a message. */
  method ParseChunked(pieces: seq<seq<u8>>, ghost cs: seq<Chunk>, ghost last: Chunk) returns (p: HttpParser)
    requires Message(cs, last) && Joined(pieces) == Stream(cs, last) && forall i :: 0 <= i < |pieces| ==> pieces[i] != []
    ensures fresh(p) && p.errno == OK && p.state == NewMessage
    ensures p.trace == Told(cs) && Body(p.trace) == Payload(cs) && Messages(p.trace) == 1
  {
    p := new HttpParser(true, 0);
    ChunkedMessage(cs, last, pieces);
    FeedAll(p, pieces);
  }

  /** A body of known length, cut anywhere: its bytes are told in order, then the end of the message. */
  lemma IdentityMessage(body: seq<u8>, pieces: seq<seq<u8>>)
    requires 0 < |body| < Bound(10) && Joined(pieces) == body
    ensures var r := Run(Parser(BodyIdentity, |body|, 0, false, OK, []), Joined(pieces));
            && r.errno == OK && r.state == NewMessage && r.trace == Atoms(body) + [MessageComplete]
            && Body(r.trace) == body && Messages(r.trace) == 1
  {
    hide Run;
    RunIdentity(Parser(BodyIdentity, |body|, 0, false, OK, []), body);
    BodyOfAtoms(body);
    TraceAppend(Atoms(body), [MessageComplete]);
    OneAtom(MessageComplete);
    assert [] + Atoms(body) == Atoms(body);
  }

  method ParseIdentity(pieces: seq<seq<u8>>, body: seq<u8>) returns (p: HttpParser)
    requires 0 < |body| < Bound(10) && Joined(pieces) == body && forall i :: 0 <= i < |pieces| ==> pieces[i] != []
    ensures fresh(p) && p.errno == OK && p.state == NewMessage
    ensures p.trace == Atoms(body) + [MessageComplete] && Body(p.trace) == body
  {
    p := new HttpParser(false, |body|);
    IdentityMessage(body, pieces);
    FeedAll(p, pieces);
  }

  // ---- the converse: what is taken for a message ----

  predicate Finished(a: Parser) { a.errno == OK && a.state == NewMessage }

  /** Chunks with data, the last one, and the end of the message, for which a bare line feed is taken too. */
  function StreamTo(cs: seq<Chunk>, last: Chunk, end: seq<u8>): seq<u8>
  {
    if cs == [] then Line(last) + end else Encode(cs[0]) + StreamTo(cs[1..], last, end)
  }

  predicate EndOfMessage(end: seq<u8>) { end == [CR, LF] || end == [LF] }

  lemma RunFirst(a: Parser, bytes: seq<u8>)
    requires Going(a) && Finished(Run(a, bytes))
    ensures bytes != [] && Step(a, bytes[0]).errno == OK && Finished(Run(Step(a, bytes[0]), bytes[1..]))
  {
    hide Step;
    if bytes == [] {
      Stopped(a, bytes);
    } else {
      Stopped(Step(a, bytes[0]), bytes[1..]);
    }
  }

  /** How far the digits of a size go. */
  lemma {:induction false} DigitsBack(a: Parser, bytes: seq<u8>) returns (k: nat)
    requires a.state == ChunkSize && a.errno == OK && Finished(Run(a, bytes))
    ensures k < |bytes| && bytes[k] in [CR, SEMICOLON, SPACE] && Taken(bytes[..k]) && Accepts(16, a.contentLength, Hex(bytes[..k]))
    ensures a.nread + k < MAX_HEADER_SIZE
    decreases |bytes|
  {
    RunFirst(a, bytes);
    if bytes[0] in [CR, SEMICOLON, SPACE] {
      k := 0;
      assert bytes[..0] == [];
    } else {
      var b := Step(a, bytes[0]);
      assert Unhex(bytes[0]) != -1 && b.state == ChunkSize;
      var j := DigitsBack(b, bytes[1..]);
      k := j + 1;
      assert bytes[..k] == [bytes[0]] + bytes[1..][..j];
      assert Hex(bytes[..k])[1..] == Hex(bytes[1..][..j]);
    }
  }

  /** How far the rest of a size line goes. */
  lemma {:induction false} ParametersBack(a: Parser, bytes: seq<u8>) returns (k: nat)
    requires a.state == ChunkParameters && a.errno == OK && Finished(Run(a, bytes))
    ensures k < |bytes| && bytes[k] == CR && CR !in bytes[..k] && a.nread + k < MAX_HEADER_SIZE
    decreases |bytes|
  {
    RunFirst(a, bytes);
    if bytes[0] == CR {
      k := 0;
    } else {
      var j := ParametersBack(Step(a, bytes[0]), bytes[1..]);
      k := j + 1;
      assert bytes[..k] == [bytes[0]] + bytes[1..][..j];
    }
  }

  ghost predicate SizeLine(digits: seq<u8>, ext: seq<u8>)
  {
    && digits != [] && Taken(digits) && Size(digits) < Bound(16)
    && (ext != [] ==> (ext[0] == SEMICOLON || ext[0] == SPACE) && CR !in ext)
    && |digits| + |ext| + 2 <= MAX_HEADER_SIZE
  }

  lemma RunSplit(a: Parser, bytes: seq<u8>, k: nat)
    requires k <= |bytes|
    ensures Run(a, bytes) == Run(Run(a, bytes[..k]), bytes[k..])
  {
    RunAppend(a, bytes[..k], bytes[k..]);
    assert bytes[..k] + bytes[k..] == bytes;
  }

  /** Where a size stands, a message that is taken has a size line. */
  lemma SizeBack(a: Parser, bytes: seq<u8>) returns (k: nat)
    requires AtSize(a) && Finished(Run(a, bytes))
    ensures 0 < k < |bytes| && bytes[k] in [CR, SEMICOLON, SPACE] && k < MAX_HEADER_SIZE
    ensures Taken(bytes[..k]) && Size(bytes[..k]) < Bound(16)
  {
    RunFirst(a, bytes);
    var b := Step(a, bytes[0]);
    var j := DigitsBack(b, bytes[1..]);
    k := j + 1;
    var ds := bytes[..k];
    assert ds == [bytes[0]] + bytes[1..][..j];
    assert Hex(ds)[1..] == Hex(bytes[1..][..j]);
    AcceptedIffBelowBound(16, 0, Hex(ds));
  }

  lemma LineBack(a: Parser, bytes: seq<u8>) returns (digits: seq<u8>, ext: seq<u8>, rest: seq<u8>)
    requires AtSize(a) && Finished(Run(a, bytes))
    ensures SizeLine(digits, ext) && bytes == digits + ext + [CR, LF] + rest
  {
    hide Run, Size, Taken, Step;
    var k := SizeBack(a, bytes);
    digits := bytes[..k];
    RunSize(a, digits);
    RunSplit(a, bytes, k);
    var b, tail := Run(a, digits), bytes[k..];
    if tail[0] == CR {
      ext := [];
      rest := EndBack(b, tail);
    } else {
      ext, rest := ExtBack(b, tail);
    }
    assert bytes == digits + tail;
  }

  lemma ExtBack(b: Parser, tail: seq<u8>) returns (ext: seq<u8>, rest: seq<u8>)
    requires b.state == ChunkSize && b.errno == OK && Finished(Run(b, tail)) && tail != [] && (tail[0] == SEMICOLON || tail[0] == SPACE)
    ensures ext != [] && ext[0] == tail[0] && CR !in ext && tail == ext + [CR, LF] + rest && b.nread + |ext| + 2 <= MAX_HEADER_SIZE
  {
    hide Run, Step;
    RunFirst(b, tail);
    ToParameters(b, tail[0]);
    var j := ParametersBack(Step(b, tail[0]), tail[1..]);
    ext := tail[..j + 1];
    assert ext == [tail[0]] + tail[1..][..j];
    RunExt(b, ext);
    RunSplit(b, tail, j + 1);
    rest := EndBack(Run(b, ext), tail[j + 1..]);
    assert tail == ext + tail[j + 1..];
  }

  lemma ToParameters(a: Parser, ch: u8)
    requires a.state == ChunkSize && a.errno == OK && (ch == SEMICOLON || ch == SPACE) && Step(a, ch).errno == OK
    ensures var b := Step(a, ch); b.state == ChunkParameters && b.nread == a.nread + 1
  {}

  /** The end of a size line is CR and LF. */
  lemma EndBack(a: Parser, bytes: seq<u8>) returns (rest: seq<u8>)
    requires (a.state == ChunkSize || a.state == ChunkParameters) && a.errno == OK && bytes != [] && bytes[0] == CR
    requires Finished(Run(a, bytes))
    ensures bytes == [CR, LF] + rest && a.nread + 2 <= MAX_HEADER_SIZE
  {
    RunFirst(a, bytes);
    var b := Step(a, CR);
    RunFirst(b, bytes[1..]);
    assert bytes[1] == LF;
    rest := bytes[2..];
  }

  lemma {:induction false} DataBack(a: Parser, bytes: seq<u8>)
    requires a.state == ChunkData && a.errno == OK && 0 < a.contentLength < ULLONG_MAX && Finished(Run(a, bytes))
    ensures |bytes| >= a.contentLength + 2 && bytes[a.contentLength] == CR && bytes[a.contentLength + 1] == LF
  {
    hide Run, Step;
    if |bytes| <= a.contentLength {
      if bytes == [] { Stopped(a, bytes); } else { RunData(a, bytes); }
    } else {
      var n := a.contentLength;
      RunData(a, bytes[..n]);
      RunSplit(a, bytes, n);
      var b, tail := Run(a, bytes[..n]), bytes[n..];
      RunFirst(b, tail);
      DataEndStep(b, tail[0]);
      RunFirst(Step(b, tail[0]), tail[1..]);
      DataEndStep(Step(b, tail[0]), tail[1]);
    }
  }

  lemma DataEndStep(a: Parser, ch: u8)
    requires Going(a) && Step(a, ch).errno == OK
    ensures a.state == ChunkDataAlmostDone ==> ch == CR && Step(a, ch).state == ChunkDataDone
    ensures a.state == ChunkDataDone ==> ch == LF
  {}

  /** After the last size line a message that is taken ends at once. */
  lemma LastBack(a: Parser, bytes: seq<u8>) returns (end: seq<u8>)
    requires a.state == HeaderFieldStart && a.errno == OK && Finished(Run(a, bytes))
    ensures EndOfMessage(end) && end <= bytes
  {
    RunFirst(a, bytes);
    if bytes[0] == LF {
      end := [LF];
    } else {
      var b := Step(a, bytes[0]);
      if bytes[0] != CR { Stopped(b, bytes[1..]); }
      RunFirst(b, bytes[1..]);
      assert bytes[1] == LF;
      end := [CR, LF];
    }
  }

  /** What the parser takes for a message is the coding of one. */
  lemma {:induction false} StreamBack(a: Parser, bytes: seq<u8>) returns (cs: seq<Chunk>, last: Chunk, end: seq<u8>)
    requires AtSize(a) && Finished(Run(a, bytes))
    ensures Accepted(cs, last) && EndOfMessage(end) && StreamTo(cs, last, end) <= bytes
    decreases |bytes|
  {
    hide Run, Size, Taken, Step;
    var digits, ext, rest := LineBack(a, bytes);
    var n := Size(digits);
    if n == 0 {
      cs, last := [], Chunk(digits, ext, []);
      RunLine(a, last);
      var k := |digits + ext| + 2;
      RunSplit(a, bytes, k);
      assert bytes[..k] == Line(last) && bytes[k..] == rest;
      end := LastBack(Run(a, Line(last)), rest);
      assert Line(last) + end <= bytes;
    } else {
      cs, last, end := ChunkBack(a, bytes, digits, ext, rest);
    }
  }

  lemma ChunkBack(a: Parser, bytes: seq<u8>, digits: seq<u8>, ext: seq<u8>, rest: seq<u8>)
    returns (cs: seq<Chunk>, last: Chunk, end: seq<u8>)
    requires AtSize(a) && Finished(Run(a, bytes)) && SizeLine(digits, ext) && bytes == digits + ext + [CR, LF] + rest && Size(digits) > 0
    ensures Accepted(cs, last) && EndOfMessage(end) && StreamTo(cs, last, end) <= bytes
    decreases |bytes|, 0
  {
    hide Run, Size, Taken, Step;
    var n, k := Size(digits), |digits + ext| + 2;
    var line := digits + ext + [CR, LF];
    assert bytes[..k] == line && bytes[k..] == rest;
    RunSplit(a, bytes, k);
    AfterLine(a, digits, ext);
    DataBack(Run(a, line), rest);
    var c := Chunk(digits, ext, rest[..n]);
    RunChunk(a, c);
    var m := k + n + 2;
    RunSplit(a, bytes, m);
    assert bytes[..m] == Encode(c);
    var more;
    more, last, end := StreamBack(Run(a, Encode(c)), bytes[m..]);
    cs := [c] + more;
    assert cs[1..] == more;
    assert bytes == Encode(c) + bytes[m..];
  }

  /** The state after a size line, whatever follows it. */
  lemma AfterLine(a: Parser, digits: seq<u8>, ext: seq<u8>)
    requires AtSize(a) && SizeLine(digits, ext) && Size(digits) > 0
    ensures var b := Run(a, digits + ext + [CR, LF]); b.state == ChunkData && b.errno == OK && b.contentLength == Size(digits)
  {
    var c := Chunk(digits, ext, seq(Size(digits), _ => 0));
    RunLine(a, c);
  }

  /** Whatever the bytes: they are taken for a complete message if and only if they begin with the coding of one, whose
      size lines are read as lines and whose end may be a bare line feed. */
  lemma TakenIff(bytes: seq<u8>)
    ensures Finished(Run(AtBody(), bytes)) <==>
              exists cs, last, end :: Accepted(cs, last) && EndOfMessage(end) && StreamTo(cs, last, end) <= bytes
  {
    hide Run;
    if Finished(Run(AtBody(), bytes)) {
      var cs, last, end := StreamBack(AtBody(), bytes);
    }
    forall cs, last, end | Accepted(cs, last) && EndOfMessage(end) && StreamTo(cs, last, end) <= bytes
      ensures Finished(Run(AtBody(), bytes))
    {
      RunStreamTo(AtBody(), cs, last, end);
      var k := |StreamTo(cs, last, end)|;
      RunSplit(AtBody(), bytes, k);
      assert bytes[..k] == StreamTo(cs, last, end);
      Stopped(Run(AtBody(), StreamTo(cs, last, end)), bytes[k..]);
    }
  }

  lemma {:induction false} RunStreamTo(a: Parser, cs: seq<Chunk>, last: Chunk, end: seq<u8>)
    requires AtSize(a) && Accepted(cs, last) && EndOfMessage(end)
    ensures Finished(Run(a, StreamTo(cs, last, end)))
    decreases |cs|
  {
    hide Run, Readable, Encode;
    if cs == [] {
      if end == [LF] { RunBareEnd(a, last); } else { RunLast(a, last); }
    } else {
      RunChunk(a, cs[0]);
      RunAppend(a, Encode(cs[0]), StreamTo(cs[1..], last, end));
      RunStreamTo(Run(a, Encode(cs[0])), cs[1..], last, end);
    }
  }

  lemma RunBareEnd(a: Parser, last: Chunk)
    requires AtSize(a) && Readable(last) && last.data == []
    ensures Finished(Run(a, Line(last) + [LF]))
  {
    hide Run, Size, Taken;
    RunLine(a, last);
    RunAppend(a, Line(last), [LF]);
    RunOne(Run(a, Line(last)), LF);
  }

  lemma RunOne(a: Parser, x: u8)
    requires Going(a)
    ensures Run(a, [x]) == Step(a, x)
  {
    hide Step;
    assert [x][1..] == [];
    Stopped(Step(a, x), []);
  }
}
