/** The body states of `http_parser_execute`: chunked and content-length bodies, fed in buffers of any size. */
module HttpBody {
  import opened Bytes

  const CR: u8 := 13
  const LF: u8 := 10
  const SPACE: u8 := 32
  const SEMICOLON: u8 := 59
  const ULLONG_MAX: nat := 0xffff_ffff_ffff_ffff
  const MAX_HEADER_SIZE: nat := 80 * 1024

  // ---- numbers read digit by digit ----

  /** The table `unhex`; its upper half is not written out, so bytes from 0x80 on read as the digit zero. */
  function Unhex(c: u8): (v: int)
    ensures -1 <= v < 16
  {
    if 48 <= c <= 57 then c - 48
    else if 65 <= c <= 70 then c - 55
    else if 97 <= c <= 102 then c - 87
    else if c >= 0x80 then 0
    else -1
  }

  predicate HexDigit(c: u8) { 48 <= c <= 57 || 65 <= c <= 70 || 97 <= c <= 102 }

  const LOWER: seq<u8> := [48, 49, 50, 51, 52, 53, 54, 55, 56, 57, 97, 98, 99, 100, 101, 102]
  const UPPER: seq<u8> := [48, 49, 50, 51, 52, 53, 54, 55, 56, 57, 65, 66, 67, 68, 69, 70]

  /** The table gives a digit its place among the sixteen, in either case, and no other byte a value but zero. */
  lemma UnhexIsPlace(c: u8)
    ensures forall v: nat :: v < 16 ==> Unhex(LOWER[v]) == v && Unhex(UPPER[v]) == v
    ensures HexDigit(c) <==> c in LOWER || c in UPPER
    ensures !HexDigit(c) ==> Unhex(c) == if c < 0x80 then -1 else 0
  {
    if HexDigit(c) {
      if c <= 57 {
        assert LOWER[c - 48] == c;
      } else if c <= 70 {
        assert UPPER[c - 55] == c;
      } else {
        assert LOWER[c - 87] == c;
      }
    }
  }

  /** The value after more digits of a base. */
  function From(base: nat, v: nat, ds: seq<nat>): nat
    decreases |ds|
  {
    if ds == [] then v else From(base, v * base + ds[0], ds[1..])
  }

  /** The overflow test made before each further digit is taken. */
  predicate Room(base: nat, v: nat)
    requires base > 0
  {
    v <= (ULLONG_MAX - base) / base
  }

  predicate Accepts(base: nat, v: nat, ds: seq<nat>)
    requires base > 0
    decreases |ds|
  {
    ds == [] || (Room(base, v) && Accepts(base, v * base + ds[0], ds[1..]))
  }

  /** The first number that is refused: a multiple of the base, less than one digit below the end of 64 bits. */
  function Bound(base: nat): nat
    requires base == 10 || base == 16
  {
    if base == 10 then 18446744073709551610 else 0xffff_ffff_ffff_fff0
  }

  lemma {:induction false} FromGrows(base: nat, v: nat, ds: seq<nat>)
    requires base == 10 || base == 16
    ensures From(base, v, ds) >= v
    decreases |ds|
  {
    if ds != [] { FromGrows(base, v * base + ds[0], ds[1..]); }
  }

  /** A further digit string is taken exactly when the number it completes is below the bound: the conservative
      test refuses no smaller number, and no accepted number wraps around or is the marker for no length. */
  lemma {:induction false} AcceptedIffBelowBound(base: nat, v: nat, ds: seq<nat>)
    requires (base == 10 || base == 16) && ds != []
    requires forall i :: 0 <= i < |ds| ==> ds[i] < base
    ensures Accepts(base, v, ds) <==> From(base, v, ds) < Bound(base)
    ensures Bound(base) <= ULLONG_MAX
    decreases |ds|
  {
    var w := v * base + ds[0];
    if |ds| == 1 {
      assert ds[1..] == [];
      assert Accepts(base, w, ds[1..]) && From(base, w, ds[1..]) == w;
      BoundOfRoom(base, v, ds[0]);
    } else {
      AcceptedIffBelowBound(base, w, ds[1..]);
      FromGrows(base, w, ds[1..]);
      BoundOfRoom(base, v, ds[0]);
    }
  }

  lemma BoundOfRoom(base: nat, v: nat, d: nat)
    requires (base == 10 || base == 16) && d < base
    ensures Room(base, v) <==> v * base + d < Bound(base)
  {
    if base == 10 {} else {}
  }

  /** The digits of a `Content-Length` value after the first: spaces between them are skipped. */
  function DigitsOf(text: seq<u8>): (ds: seq<nat>)
    requires forall i :: 0 <= i < |text| ==> text[i] == SPACE || 48 <= text[i] <= 57
    ensures forall i :: 0 <= i < |ds| ==> ds[i] < 10
  {
    if text == [] then [] else (if text[0] == SPACE then [] else [text[0] - 48]) + DigitsOf(text[1..])
  }

  datatype Length = Length(n: nat) | InvalidLength

  predicate LengthText(text: seq<u8>) { forall i :: 0 <= i < |text| ==> text[i] == SPACE || 48 <= text[i] <= 57 }

  /** The number of a `Content-Length` value. */
  function Written(text: seq<u8>): nat
    requires text != [] && 48 <= text[0] <= 57 && LengthText(text)
  {
    From(10, text[0] - 48, DigitsOf(text[1..]))
  }

  /** A `Content-Length` value: any other byte is refused, and so is a number the test has no room for; otherwise
      the result is the number itself, with spaces skipped. */
  method ContentLength(text: seq<u8>) returns (r: Length)
    requires text != [] && 48 <= text[0] <= 57
    ensures r.Length? ==> LengthText(text) && r.n == Written(text) < ULLONG_MAX
    ensures r.InvalidLength? <==> !LengthText(text) || Written(text) >= Bound(10)
  {
    hide DigitsOf, From;
    var v: nat := text[0] - 48;
    var i := 1;
    while i < |text|
      invariant 1 <= i <= |text| && LengthText(text[..i]) && v < Bound(10)
      invariant LengthText(text) ==> Written(text) == From(10, v, DigitsOf(text[i..]))
    {
      var ch := text[i];
      if ch != SPACE && !(48 <= ch <= 57) {
        return InvalidLength;
      }
      if LengthText(text) { NextDigit(v, text, i); }
      if ch != SPACE {
        var t := v * 10 + (ch - 48);
        BoundOfRoom(10, v, ch - 48);
        if (ULLONG_MAX - 10) / 10 < v {
          return InvalidLength;
        }
        v := t;
      }
      i := i + 1;
    }
    assert text[..i] == text;
    assert From(10, v, DigitsOf(text[i..])) == v by { NoMore(v, text[i..]); }
    r := Length(v);
  }

  lemma NoMore(v: nat, text: seq<u8>)
    requires text == []
    ensures From(10, v, DigitsOf(text)) == v
  {}

  lemma NextDigit(v: nat, text: seq<u8>, i: nat)
    requires i < |text| && LengthText(text)
    ensures text[i] == SPACE ==> From(10, v, DigitsOf(text[i..])) == From(10, v, DigitsOf(text[i + 1..]))
    ensures text[i] != SPACE ==> From(10, v, DigitsOf(text[i..])) == From(10, v * 10 + (text[i] - 48), DigitsOf(text[i + 1..]))
    ensures text[i] != SPACE ==> From(10, v, DigitsOf(text[i..])) >= v * 10 + (text[i] - 48)
  {
    assert text[i..][1..] == text[i + 1..];
    var rest := DigitsOf(text[i + 1..]);
    if text[i] == SPACE {
      assert DigitsOf(text[i..]) == [] + rest == rest;
    } else {
      assert DigitsOf(text[i..]) == [text[i] - 48] + rest;
      assert ([text[i] - 48] + rest)[1..] == rest;
      FromGrows(10, v * 10 + (text[i] - 48), rest);
    }
  }

  // ---- spaces in a length ----

  lemma {:induction false} FromAppend(v: nat, ds: seq<nat>, es: seq<nat>)
    ensures From(10, v, ds + es) == From(10, From(10, v, ds), es)
    decreases |ds|
  {
    if ds == [] {
      assert ds + es == es;
    } else {
      assert (ds + es)[1..] == ds[1..] + es;
      FromAppend(v * 10 + ds[0], ds[1..], es);
    }
  }

  lemma {:induction false} DigitsAppend(x: seq<u8>, y: seq<u8>)
    requires LengthText(x) && LengthText(y)
    ensures DigitsOf(x + y) == DigitsOf(x) + DigitsOf(y)
  {
    if x == [] {
      assert x + y == y;
    } else {
      assert (x + y)[1..] == x[1..] + y && (x + y)[0] == x[0];
      DigitsAppend(x[1..], y);
      var head := if x[0] == SPACE then [] else [x[0] - 48];
      assert head + (DigitsOf(x[1..]) + DigitsOf(y)) == (head + DigitsOf(x[1..])) + DigitsOf(y);
    }
  }

  predicate Blank(text: seq<u8>) { forall i :: 0 <= i < |text| ==> text[i] == SPACE }

  predicate Zeros(text: seq<u8>) { forall i :: 0 <= i < |text| ==> text[i] == SPACE || text[i] == 48 }

  lemma {:induction false} ZeroIff(v: nat, text: seq<u8>)
    requires LengthText(text)
    ensures From(10, v, DigitsOf(text)) == 0 <==> v == 0 && Zeros(text)
    decreases |text|
  {
    if text == [] {
      NoMore(v, text);
    } else {
      NextDigit(v, text, 0);
      assert text[0..] == text;
      ZerosSplit(text);
      hide From, DigitsOf, Zeros;
      var w := if text[0] == SPACE then v else v * 10 + (text[0] - 48);
      ZeroIff(w, text[1..]);
    }
  }

  lemma ZerosSplit(text: seq<u8>)
    requires text != []
    ensures Zeros(text) <==> (text[0] == SPACE || text[0] == 48) && Zeros(text[1..])
    ensures Blank(text) <==> text[0] == SPACE && Blank(text[1..])
  {
    if Zeros(text[1..]) && (text[0] == SPACE || text[0] == 48) {
      forall i | 0 <= i < |text| ensures text[i] == SPACE || text[i] == 48 { assert i > 0 ==> text[i] == text[1..][i - 1]; }
    }
  }

  lemma {:induction false} SameIff(v: nat, text: seq<u8>)
    requires LengthText(text)
    ensures From(10, v, DigitsOf(text)) == v <==> Blank(text) || (v == 0 && Zeros(text))
    decreases |text|
  {
    hide From, DigitsOf, Zeros;
    if text == [] {
      NoMore(v, text);
    } else {
      NextDigit(v, text, 0);
      assert text[0..] == text;
      ZerosSplit(text);
      hide Blank;
      if text[0] == SPACE {
        SameIff(v, text[1..]);
      } else if v == 0 {
        ZeroIff(v, text);
      }
    }
  }

  /** Digits after a space count: a value reads as what stands before a space exactly when no digit follows the
      space, or there are only zeros anywhere. */
  lemma SpaceEndsNumberIff(text: seq<u8>, i: nat)
    requires 0 < i < |text| && 48 <= text[0] <= 57 && LengthText(text) && text[i] == SPACE
    ensures Written(text) == Written(text[..i]) <==> Blank(text[i..]) || Zeros(text)
  {
    hide From, DigitsOf;
    assert text[1..] == text[1..i] + text[i..];
    assert text[..i][1..] == text[1..i];
    DigitsAppend(text[1..i], text[i..]);
    FromAppend(text[0] - 48, DigitsOf(text[1..i]), DigitsOf(text[i..]));
    SameIff(Written(text[..i]), text[i..]);
    ZeroIff(text[0] - 48, text[1..i]);
    assert Zeros(text) <==> text[0] == 48 && Zeros(text[1..i]) && Zeros(text[i..]) by {
      forall k | 0 <= k < |text| ensures text[k] == (if k == 0 then text[0] else if k < i then text[1..i][k - 1] else text[i..][k - i]) {}
      if text[0] == 48 && Zeros(text[1..i]) && Zeros(text[i..]) {
        forall k | 0 <= k < |text| ensures text[k] == SPACE || text[k] == 48 {}
      }
    }
  }

  /** One, a space and two: twelve. */
  lemma SpaceSkipped()
    ensures LengthText([49, SPACE, 50]) && Written([49, SPACE, 50]) == 12
  {
    var text: seq<u8> := [49, SPACE, 50];
    NextDigit(1, text, 1);
    NextDigit(1, text, 2);
    NoMore(12, text[3..]);
  }

  // ---- the parser, one byte at a time ----

  /** `HeaderPhase` and `NewMessage` are left to the rest of the parser: a trailer's header field, and what follows
      the message. `s_message_done` is entered and left on one byte. */
  datatype State =
    | ChunkSizeStart | ChunkSize | ChunkParameters | ChunkSizeAlmostDone
    | HeaderFieldStart | HeadersAlmostDone
    | ChunkData | ChunkDataAlmostDone | ChunkDataDone
    | BodyIdentity
    | HeaderPhase | NewMessage

  datatype Errno = OK | HeaderOverflow | InvalidChunkSize | InvalidContentLength | Strict | AssertionFailed | InvalidEof

  /** What the callbacks are told, body bytes one by one. */
  datatype Atom = Byte(b: u8) | ChunkHeader(size: nat) | ChunkComplete | MessageComplete

  datatype Parser = Parser(state: State, contentLength: nat, nread: nat, trailing: bool, errno: Errno, trace: seq<Atom>)

  predicate ParsingHeader(s: State)
  {
    s == ChunkSizeStart || s == ChunkSize || s == ChunkParameters || s == ChunkSizeAlmostDone
    || s == HeaderFieldStart || s == HeadersAlmostDone
  }

  predicate Going(a: Parser) { a.errno == OK && a.state != HeaderPhase && a.state != NewMessage }

  function Fail(a: Parser, e: Errno): Parser { a.(errno := e) }

  function HeadersEnd(a: Parser, ch: u8): Parser
  {
    if ch != LF then Fail(a, Strict)
    else if a.trailing then a.(state := NewMessage, trace := a.trace + [ChunkComplete, MessageComplete])
    else a.(state := HeaderPhase)
  }

  function SizeDigit(a: Parser, ch: u8): Parser
  {
    if ch == CR then a.(state := ChunkSizeAlmostDone)
    else if Unhex(ch) == -1 then
      if ch == SEMICOLON || ch == SPACE then a.(state := ChunkParameters) else Fail(a, InvalidChunkSize)
    else if !Room(16, a.contentLength) then Fail(a, InvalidContentLength)
    else a.(contentLength := a.contentLength * 16 + Unhex(ch))
  }

  function SizeEnd(a: Parser, ch: u8): Parser
  {
    if ch != LF then Fail(a, Strict)
    else
      var b := a.(nread := 0, trace := a.trace + [ChunkHeader(a.contentLength)]);
      if a.contentLength == 0 then b.(trailing := true, state := HeaderFieldStart) else b.(state := ChunkData)
  }

  /** One byte of a body. */
  function DataByte(a: Parser, ch: u8, done: State): Parser
  {
    if a.contentLength == 0 || a.contentLength == ULLONG_MAX then Fail(a, AssertionFailed)
    else a.(contentLength := a.contentLength - 1, trace := a.trace + [Byte(ch)], state := if a.contentLength == 1 then done else a.state)
  }

  function IdentityByte(a: Parser, ch: u8): Parser
  {
    var b := DataByte(a, ch, NewMessage);
    if b.state == NewMessage then b.(trace := b.trace + [MessageComplete]) else b
  }

  function Counted(a: Parser): Parser { if ParsingHeader(a.state) then a.(nread := a.nread + 1) else a }

  function Switch(a: Parser, ch: u8): Parser
    requires Going(a)
  {
    match a.state
    case ChunkSizeStart =>
      if a.nread != 1 then Fail(a, AssertionFailed)
      else if Unhex(ch) == -1 then Fail(a, InvalidChunkSize)
      else a.(contentLength := Unhex(ch), state := ChunkSize)
    case ChunkSize => SizeDigit(a, ch)
    case ChunkParameters => if ch == CR then a.(state := ChunkSizeAlmostDone) else a
    case ChunkSizeAlmostDone => SizeEnd(a, ch)
    case HeaderFieldStart =>
      if ch == CR then a.(state := HeadersAlmostDone)
      else if ch == LF then HeadersEnd(a.(state := HeadersAlmostDone), ch)
      else a.(state := HeaderPhase)
    case HeadersAlmostDone => HeadersEnd(a, ch)
    case ChunkData => DataByte(a, ch, ChunkDataAlmostDone)
    case ChunkDataAlmostDone =>
      if a.contentLength != 0 then Fail(a, AssertionFailed)
      else if ch != CR then Fail(a, Strict) else a.(state := ChunkDataDone)
    case ChunkDataDone =>
      if ch != LF then Fail(a, Strict) else a.(nread := 0, state := ChunkSizeStart, trace := a.trace + [ChunkComplete])
    case BodyIdentity => IdentityByte(a, ch)
  }

  function Step(a: Parser, ch: u8): Parser
    requires Going(a)
  {
    var b := Counted(a);
    if b.nread > MAX_HEADER_SIZE && ParsingHeader(a.state) then Fail(b, HeaderOverflow) else Switch(b, ch)
  }

  /** Where a size digit may stand: exactly the hexadecimal digits and the bytes from 0x80 on are taken, the latter
      as zero. */
  lemma DigitTakenIff(a: Parser, ch: u8)
    requires a.errno == OK && a.nread < MAX_HEADER_SIZE
    requires (a.state == ChunkSizeStart && a.nread == 0) || (a.state == ChunkSize && Room(16, a.contentLength))
    ensures var b := Step(a, ch);
            && (b.errno == OK && b.state == ChunkSize <==> HexDigit(ch) || ch >= 0x80)
            && (ch >= 0x80 ==> b.contentLength == if a.state == ChunkSize then a.contentLength * 16 else 0)
  {}

  /** Bytes are taken until an error or the end of the body. */
  function Run(a: Parser, bytes: seq<u8>): Parser
    decreases |bytes|
  {
    if bytes == [] || !Going(a) then a else Run(Step(a, bytes[0]), bytes[1..])
  }

  /** Cutting the input anywhere changes nothing. */
  lemma {:induction false} RunAppend(a: Parser, xs: seq<u8>, ys: seq<u8>)
    ensures Run(a, xs + ys) == Run(Run(a, xs), ys)
    decreases |xs|
  {
    hide Step;
    if xs == [] {
      assert xs + ys == ys;
    } else if Going(a) {
      assert (xs + ys)[1..] == xs[1..] + ys;
      RunAppend(Step(a, xs[0]), xs[1..], ys);
    } else {
      assert Run(a, xs + ys) == a;
    }
  }

  lemma StepTrace(a: Parser, ch: u8)
    requires Going(a)
    ensures a.trace <= Step(a, ch).trace
  {}

  /** What callbacks were told is never taken back. */
  lemma {:induction false} TraceGrows(a: Parser, bytes: seq<u8>)
    ensures a.trace <= Run(a, bytes).trace
    decreases |bytes|
  {
    hide Step;
    if bytes != [] && Going(a) {
      StepTrace(a, bytes[0]);
      TraceGrows(Step(a, bytes[0]), bytes[1..]);
    }
  }

  function Atoms(bs: seq<u8>): (t: seq<Atom>)
    ensures |t| == |bs|
  {
    seq(|bs|, i requires 0 <= i < |bs| => Byte(bs[i]))
  }

  /** The bulk jump over body bytes is the bytes taken one by one. */
  lemma {:induction false} RunData(a: Parser, bs: seq<u8>)
    requires a.state == ChunkData && a.errno == OK && bs != [] && |bs| <= a.contentLength < ULLONG_MAX
    ensures Run(a, bs) == a.(contentLength := a.contentLength - |bs|, trace := a.trace + Atoms(bs),
                             state := if |bs| == a.contentLength then ChunkDataAlmostDone else ChunkData)
    decreases |bs|
  {
    var b := Step(a, bs[0]);
    assert Atoms(bs) == [Byte(bs[0])] + Atoms(bs[1..]);
    assert a.trace + ([Byte(bs[0])] + Atoms(bs[1..])) == b.trace + Atoms(bs[1..]);
    if |bs| > 1 {
      RunData(b, bs[1..]);
    } else {
      assert Run(b, bs[1..]) == b;
    }
  }

  lemma {:induction false} RunIdentity(a: Parser, bs: seq<u8>)
    requires a.state == BodyIdentity && a.errno == OK && bs != [] && |bs| <= a.contentLength < ULLONG_MAX
    ensures var done := |bs| == a.contentLength;
            Run(a, bs) == a.(contentLength := a.contentLength - |bs|, state := if done then NewMessage else BodyIdentity,
                             trace := a.trace + Atoms(bs) + if done then [MessageComplete] else [])
    decreases |bs|
  {
    var b := Step(a, bs[0]);
    assert b == IdentityByte(a, bs[0]);
    hide Step;
    assert Atoms(bs) == [Byte(bs[0])] + Atoms(bs[1..]);
    hide Atoms;
    if |bs| > 1 {
      RunIdentity(b, bs[1..]);
      assert a.trace + ([Byte(bs[0])] + Atoms(bs[1..])) == b.trace + Atoms(bs[1..]);
    } else {
      NoAtoms();
      assert bs[1..] == [] && Atoms(bs) == [Byte(bs[0])];
      assert Run(b, bs[1..]) == b;
    }
  }

  // ---- what holds between bytes ----

  /** The assertions of the body states, and the room left in 64 bits. */
  predicate Sound(a: Parser)
  {
    a.errno == OK ==>
    match a.state
    case ChunkSizeStart => a.nread == 0
    case ChunkSize | ChunkParameters | ChunkSizeAlmostDone => a.contentLength < Bound(16)
    case ChunkData | BodyIdentity => 0 < a.contentLength < ULLONG_MAX
    case ChunkDataAlmostDone => a.contentLength == 0
    case _ => true
  }

  /** No byte makes an assertion of the source fail, and a size never wraps around. */
  lemma StepSound(a: Parser, ch: u8)
    requires Going(a) && Sound(a)
    ensures var b := Step(a, ch); b.errno != AssertionFailed && Sound(b)
  {
    if a.state == ChunkSize && Unhex(ch) != -1 { BoundOfRoom(16, a.contentLength, Unhex(ch)); }
  }

  lemma {:induction false} RunSound(a: Parser, bytes: seq<u8>)
    requires Sound(a) && a.errno != AssertionFailed
    ensures var b := Run(a, bytes); b.errno != AssertionFailed && Sound(b)
    decreases |bytes|
  {
    hide Step, Sound;
    if bytes != [] && Going(a) {
      StepSound(a, bytes[0]);
      RunSound(Step(a, bytes[0]), bytes[1..]);
    }
  }

  // ---- the loop over a buffer ----

  /** The parser once the callbacks have been told of some more body bytes. */
  function Told(a: Parser, bytes: seq<u8>): Parser { a.(trace := a.trace + Atoms(bytes)) }

  /** Some body bytes of one buffer taken at once. */
  function Bulk(a: Parser, bs: seq<u8>): Parser
    requires |bs| <= a.contentLength
  {
    var b := a.(contentLength := a.contentLength - |bs|, trace := a.trace + Atoms(bs));
    if b.contentLength > 0 then b
    else if a.state == ChunkData then b.(state := ChunkDataAlmostDone)
    else b.(state := NewMessage, trace := b.trace + [MessageComplete])
  }

  lemma BulkStep(a: Parser, data: seq<u8>, p: nat, k: nat)
    requires a.errno == OK && (a.state == ChunkData || a.state == BodyIdentity)
    requires 0 < k <= a.contentLength < ULLONG_MAX && p + k <= |data|
    ensures Run(a, data[p..]) == Run(Bulk(a, data[p..p + k]), data[p + k..])
  {
    hide Step, Run, Atoms;
    var bs := data[p..p + k];
    if a.state == ChunkData { RunData(a, bs); } else { RunIdentity(a, bs); }
    NoAtoms();
    assert data[p..] == bs + data[p + k..];
    RunAppend(a, bs, data[p + k..]);
  }

  lemma OneStep(a: Parser, pending: seq<u8>, data: seq<u8>, p: nat)
    requires p < |data| && Going(a) && a.state != ChunkData && a.state != BodyIdentity
    requires pending == [] || a.state == ChunkDataAlmostDone
    ensures Run(Told(a, pending), data[p..]) == Run(Told(Step(a, data[p]), pending), data[p + 1..])
  {
    hide Atoms;
    NoAtoms();
    assert data[p..][1..] == data[p + 1..];
    assert Step(Told(a, pending), data[p]) == Told(Step(a, data[p]), pending);
  }

  lemma SoundTrace(a: Parser, t: seq<Atom>)
    requires Sound(a)
    ensures Sound(a.(trace := t))
  {}

  /** An empty buffer announces the end of the input, which no state of a body with a known end allows. */
  function AtEof(a: Parser): Parser { if a.errno == OK && a.state != NewMessage then a.(errno := InvalidEof) else a }

  lemma SoundAtEof(a: Parser)
    requires Sound(a)
    ensures Sound(AtEof(a))
  {}

  lemma AlmostDone(a: Parser, ch: u8)
    requires Going(a)
    ensures a.state == ChunkDataAlmostDone && ch != CR ==> Step(a, ch).errno != OK && Step(a, ch).trace == a.trace
  {}

  lemma Stopped(a: Parser, bytes: seq<u8>)
    ensures !Going(a) || bytes == [] ==> Run(a, bytes) == a
  {}

  lemma NoAtoms()
    ensures Atoms([]) == [] && forall t: seq<Atom> :: t + [] == t
  {}

  class HttpParser {
    var state: State
    var contentLength: nat
    var nread: nat
    var trailing: bool
    var errno: Errno
    var trace: seq<Atom>

    function View(): Parser
      reads this
    {
      Parser(state, contentLength, nread, trailing, errno, trace)
    }

    /** The parser as it enters a body. */
    constructor (chunked: bool, length: nat)
      requires !chunked ==> 0 < length < Bound(10)
      ensures Sound(View())
      ensures View() == if chunked then Parser(ChunkSizeStart, length, 0, false, OK, []) else Parser(BodyIdentity, length, 0, false, OK, [])
    {
      state := if chunked then ChunkSizeStart else BodyIdentity;
      contentLength, nread, trailing, errno, trace := length, 0, false, OK, [];
    }

    method Notify(a: Atom)
      modifies this`trace
      ensures trace == old(trace) + [a]
    {
      trace := trace + [a];
    }

    method OnBody(bytes: seq<u8>)
      modifies this`trace
      ensures trace == old(trace) + Atoms(bytes)
    {
      trace := trace + Atoms(bytes);
    }

    /** The states that take a single byte. */
    method TakeByte(ch: u8)
      requires Going(View()) && state != ChunkData && state != BodyIdentity
      modifies this
      ensures View() == Step(old(View()), ch)
    {
      if ParsingHeader(state) {
        nread := nread + 1;
        if nread > MAX_HEADER_SIZE {
          errno := HeaderOverflow;
          return;
        }
      }
      match state {
        case ChunkSizeStart =>
          var v := Unhex(ch);
          if nread != 1 {
            errno := AssertionFailed;
          } else if v == -1 {
            errno := InvalidChunkSize;
          } else {
            contentLength := v;
            state := ChunkSize;
          }
        case ChunkSize =>
          var v := Unhex(ch);
          if ch == CR {
            state := ChunkSizeAlmostDone;
          } else if v == -1 {
            if ch == SEMICOLON || ch == SPACE { state := ChunkParameters; } else { errno := InvalidChunkSize; }
          } else {
            var t := contentLength * 16 + v;
            if (ULLONG_MAX - 16) / 16 < contentLength { errno := InvalidContentLength; } else { contentLength := t; }
          }
        case ChunkParameters =>
          if ch == CR { state := ChunkSizeAlmostDone; }
        case ChunkSizeAlmostDone =>
          if ch != LF {
            errno := Strict;
          } else {
            nread := 0;
            if contentLength == 0 {
              trailing := true;
              state := HeaderFieldStart;
            } else {
              state := ChunkData;
            }
            Notify(ChunkHeader(contentLength));
          }
        case HeaderFieldStart =>
          if ch == CR {
            state := HeadersAlmostDone;
          } else if ch == LF {
            state := HeadersAlmostDone;
            HeadersEndAt(ch);
          } else {
            state := HeaderPhase;
          }
        case HeadersAlmostDone =>
          HeadersEndAt(ch);
        case ChunkDataAlmostDone =>
          if contentLength != 0 { errno := AssertionFailed; } else if ch != CR { errno := Strict; } else { state := ChunkDataDone; }
        case ChunkDataDone =>
          if ch != LF {
            errno := Strict;
          } else {
            nread := 0;
            state := ChunkSizeStart;
            Notify(ChunkComplete);
          }
      }
    }

    method HeadersEndAt(ch: u8)
      modifies this
      ensures View() == HeadersEnd(old(View()), ch)
    {
      if ch != LF {
        errno := Strict;
      } else if trailing {
        Notify(ChunkComplete);
        state := NewMessage;
        Notify(MessageComplete);
      } else {
        state := HeaderPhase;
      }
    }

    /** The body bytes of this buffer that no callback has been told of yet. */
    function Pending(data: seq<u8>, mark: int, p: nat): seq<u8>
      requires mark <= p <= |data|
    {
      if mark < 0 then [] else data[mark..p]
    }

    /** The body bytes of this buffer are skipped in one jump; `last` is the last of them. */
    method TakeBulk(data: seq<u8>, p: nat) returns (mark: int, last: nat)
      requires Sound(View()) && errno == OK && (state == ChunkData || state == BodyIdentity) && p < |data|
      modifies this
      ensures Sound(View()) && errno == OK && p <= last < |data| && -1 <= mark <= last
      ensures mark >= 0 ==> state == ChunkDataAlmostDone || last + 1 == |data|
      ensures Run(Told(View(), Pending(data, mark, last + 1)), data[last + 1..]) == Run(old(View()), data[p..])
    {
      hide Step, Atoms, Run;
      var toRead := if contentLength < |data| - p then contentLength else |data| - p;
      assert contentLength != 0 && contentLength != ULLONG_MAX;
      NoAtoms();
      BulkStep(View(), data, p, toRead);
      mark := p;
      contentLength := contentLength - toRead;
      last := p + toRead - 1;
      if contentLength == 0 {
        if state == ChunkData {
          state := ChunkDataAlmostDone;
        } else {
          OnBody(data[mark..last + 1]);
          mark := -1;
          state := NewMessage;
          Notify(MessageComplete);
        }
      }
    }

    /** One byte in the other states; the callback for body bytes still marked comes with the CR after them. */
    method TakeSingle(data: seq<u8>, p: nat, marked: int) returns (mark: int)
      requires Sound(View()) && Going(View()) && state != ChunkData && state != BodyIdentity
      requires p < |data| && -1 <= marked <= p && (marked >= 0 ==> state == ChunkDataAlmostDone)
      modifies this
      ensures var r := Run(Told(old(View()), Pending(data, marked, p)), data[p..]);
              && Sound(View()) && (errno == OK ==> mark == -1 && Run(View(), data[p + 1..]) == r)
              && (errno != OK ==> errno == r.errno && trace <= r.trace)
    {
      hide Atoms, Sound;
      ghost var a, pending := View(), Pending(data, marked, p);
      StepSound(a, data[p]);
      OneStep(a, pending, data, p);
      AlmostDone(a, data[p]);
      mark := marked;
      if state == ChunkDataAlmostDone && data[p] == CR && mark >= 0 {
        OnBody(data[mark..p]);
        mark := -1;
        assert Step(View(), data[p]) == Told(Step(a, data[p]), pending);
      }
      hide Step;
      TakeByte(data[p]);
      SoundTrace(Step(a, data[p]), trace);
      NoAtoms();
      Stopped(Told(Step(a, data[p]), pending), data[p + 1..]);
    }

    /** A buffer is parsed as its bytes one by one, whatever jumps are made; after an error the callbacks may have
        been told less. Parsing stops at the end of the message. */
    method Execute(data: seq<u8>) returns (n: nat)
      requires Sound(View())
      modifies this
      ensures Sound(View())
      ensures data == [] ==> View() == AtEof(old(View()))
      ensures data != [] ==> n <= |data| && errno == Run(old(View()), data).errno && (Going(View()) ==> n == |data|)
      ensures data != [] && errno == OK ==> View() == Run(old(View()), data)
      ensures data != [] && errno != OK ==> trace <= Run(old(View()), data).trace
    {
      hide Step, Atoms, Sound, Run;
      Stopped(View(), data);
      if errno != OK { return 0; }
      if |data| == 0 {
        SoundAtEof(View());
        if state == NewMessage { return 0; }
        errno := InvalidEof;
        return 1;
      }
      if !Going(View()) { return 0; }
      ghost var a := View();
      var mark := -1;
      var p := 0;
      NoAtoms();
      assert data[0..] == data;
      while p < |data| && Going(View())
        invariant p <= |data| && -1 <= mark <= p && errno == OK && Sound(View())
        invariant mark >= 0 ==> state == ChunkDataAlmostDone || p == |data|
        invariant Run(Told(View(), Pending(data, mark, p)), data[p..]) == Run(a, data)
        decreases |data| - p
      {
        if state == ChunkData || state == BodyIdentity {
          NoAtoms();
          mark, p := TakeBulk(data, p);
        } else {
          mark := TakeSingle(data, p, mark);
          if errno != OK { return p; }
        }
        p := p + 1;
      }
      Stopped(Told(View(), Pending(data, mark, p)), data[p..]);
      NoAtoms();
      if mark >= 0 {
        SoundTrace(View(), trace + Atoms(data[mark..p]));
        OnBody(data[mark..p]);
      }
      n := p;
    }
  }
}
