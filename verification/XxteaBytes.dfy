/** XXTEA over byte strings: packing, the length word, padding. */
module XxteaBytes {
  import opened Bytes
  import opened Xxtea
  import opened XxteaSingle

  // ---- a byte as a number and as bits of a word ----

  function LowBits(w: bv32): (bits: seq<bool>)
    ensures |bits| == 8
  {
    [w & 0x1 != 0, w & 0x2 != 0, w & 0x4 != 0, w & 0x8 != 0, w & 0x10 != 0, w & 0x20 != 0, w & 0x40 != 0, w & 0x80 != 0]
  }

  function Spread(b0: bool, b1: bool, b2: bool, b3: bool, b4: bool, b5: bool, b6: bool, b7: bool): bv32
  {
    (if b0 then 1 else 0) | (if b1 then 2 else 0) | (if b2 then 4 else 0) | (if b3 then 8 else 0)
    | (if b4 then 16 else 0) | (if b5 then 32 else 0) | (if b6 then 64 else 0) | (if b7 then 128 else 0)
  }

  function Low(w: bv32): bv32 { w & 0xff }

  /** A byte widened to a word. */
  function Wide(b: u8): bv32
  {
    var bits := Bits(b, 8);
    Spread(bits[0], bits[1], bits[2], bits[3], bits[4], bits[5], bits[6], bits[7])
  }

  /** A word cut to its low byte. */
  function Narrow(w: bv32): u8
  {
    Widths();
    Number(LowBits(w))
  }

  lemma SpreadBits(b0: bool, b1: bool, b2: bool, b3: bool, b4: bool, b5: bool, b6: bool, b7: bool)
    ensures var w := Spread(b0, b1, b2, b3, b4, b5, b6, b7);
            LowBits(w) == [b0, b1, b2, b3, b4, b5, b6, b7] && Low(w) == w
  {
    SpreadTests(b0, b1, b2, b3, b4, b5, b6, b7);
    hide Spread;
  }

  lemma SpreadTests(b0: bool, b1: bool, b2: bool, b3: bool, b4: bool, b5: bool, b6: bool, b7: bool)
    ensures var w := Spread(b0, b1, b2, b3, b4, b5, b6, b7);
            && (w & 0x1 != 0) == b0 && (w & 0x2 != 0) == b1 && (w & 0x4 != 0) == b2 && (w & 0x8 != 0) == b3
            && (w & 0x10 != 0) == b4 && (w & 0x20 != 0) == b5 && (w & 0x40 != 0) == b6 && (w & 0x80 != 0) == b7
            && w & 0xff == w
  {}

  lemma BitsSpread(w: bv32)
    ensures Spread(w & 0x1 != 0, w & 0x2 != 0, w & 0x4 != 0, w & 0x8 != 0,
                   w & 0x10 != 0, w & 0x20 != 0, w & 0x40 != 0, w & 0x80 != 0) == w & 0xff
  {}

  lemma NarrowWide(b: u8)
    ensures Narrow(Wide(b)) == b && Low(Wide(b)) == Wide(b)
  {
    hide Spread, Bits, Number, LowBits, Low;
    var bits := Bits(b, 8);
    SpreadBits(bits[0], bits[1], bits[2], bits[3], bits[4], bits[5], bits[6], bits[7]);
    Eight(bits);
    Widths();
    NumberOfBits(b, 8);
  }

  lemma Eight(bits: seq<bool>)
    requires |bits| == 8
    ensures [bits[0], bits[1], bits[2], bits[3], bits[4], bits[5], bits[6], bits[7]] == bits
  {}

  lemma WideNarrow(w: bv32)
    ensures Wide(Narrow(w)) == Low(w)
  {
    BitsSpread(w);
    hide Spread, Bits, Number;
    BitsOfNumber(LowBits(w));
  }

  // ---- packing, least significant byte first ----

  function ByteOrZero(bytes: seq<u8>, i: nat): u8 { if i < |bytes| then bytes[i] else 0 }

  function Or(a: bv32, b: bv32): bv32 { a | b }

  function ShiftUp(w: bv32, k: nat): bv32
    requires k < 4
  {
    if k == 0 then w else if k == 1 then w << 8 else if k == 2 then w << 16 else w << 24
  }

  /** Four bytes put in their places. */
  function Joined(w0: bv32, w1: bv32, w2: bv32, w3: bv32): bv32
  {
    Or(Or(Or(ShiftUp(w0, 0), ShiftUp(w1, 1)), ShiftUp(w2, 2)), ShiftUp(w3, 3))
  }

  function WordAt(bytes: seq<u8>, j: nat): bv32
  {
    Joined(Wide(ByteOrZero(bytes, 4 * j)), Wide(ByteOrZero(bytes, 4 * j + 1)),
           Wide(ByteOrZero(bytes, 4 * j + 2)), Wide(ByteOrZero(bytes, 4 * j + 3)))
  }

  function ToWords(bytes: seq<u8>, count: nat): (r: seq<bv32>)
    ensures |r| == count
  {
    seq(count, j requires 0 <= j < count => WordAt(bytes, j))
  }

  function ShiftDown(w: bv32, k: nat): bv32
    requires k < 4
  {
    if k == 0 then w else if k == 1 then w >> 8 else if k == 2 then w >> 16 else w >> 24
  }

  /** Byte `k` of a word: the word shifted right by `k` bytes and cut to one byte. */
  function ByteOf(w: bv32, k: nat): u8
    requires k < 4
  {
    Narrow(ShiftDown(w, k))
  }

  function ToBytes(words: seq<bv32>, length: nat): (r: seq<u8>)
    requires length <= 4 * |words|
    ensures |r| == length
  {
    seq(length, i requires 0 <= i < length => ByteOf(words[i / 4], i % 4))
  }

  lemma JoinedRaw(w0: bv32, w1: bv32, w2: bv32, w3: bv32)
    requires w0 & 0xff == w0 && w1 & 0xff == w1 && w2 & 0xff == w2 && w3 & 0xff == w3
    ensures (w0 | (w1 << 8) | (w2 << 16) | (w3 << 24)) & 0xff == w0
    ensures ((w0 | (w1 << 8) | (w2 << 16) | (w3 << 24)) >> 8) & 0xff == w1
    ensures ((w0 | (w1 << 8) | (w2 << 16) | (w3 << 24)) >> 16) & 0xff == w2
    ensures ((w0 | (w1 << 8) | (w2 << 16) | (w3 << 24)) >> 24) & 0xff == w3
  {}

  lemma JoinedParts(w0: bv32, w1: bv32, w2: bv32, w3: bv32)
    requires Low(w0) == w0 && Low(w1) == w1 && Low(w2) == w2 && Low(w3) == w3
    ensures var w := Joined(w0, w1, w2, w3);
            Low(ShiftDown(w, 0)) == w0 && Low(ShiftDown(w, 1)) == w1 && Low(ShiftDown(w, 2)) == w2 && Low(ShiftDown(w, 3)) == w3
  {
    JoinedRaw(w0, w1, w2, w3);
  }

  lemma PartsRaw(w: bv32)
    ensures (w & 0xff) | (((w >> 8) & 0xff) << 8) | (((w >> 16) & 0xff) << 16) | (((w >> 24) & 0xff) << 24) == w
  {}

  lemma PartsJoined(w: bv32)
    ensures Joined(Low(ShiftDown(w, 0)), Low(ShiftDown(w, 1)), Low(ShiftDown(w, 2)), Low(ShiftDown(w, 3))) == w
  {
    PartsRaw(w);
  }

  /** Only the low byte of a word counts when it is cut. */
  lemma NarrowLow(w: bv32, b: u8)
    requires Low(w) == Wide(b)
    ensures Narrow(w) == b
  {
    LowBitsMasked(w);
    hide LowBits, Wide, Low;
    NarrowWide(b);
  }

  lemma LowBitsMasked(w: bv32)
    ensures LowBits(Low(w)) == LowBits(w)
  {
    MaskedTests(w);
  }

  lemma MaskedTests(w: bv32)
    ensures var m := w & 0xff;
            && (m & 0x1 != 0) == (w & 0x1 != 0) && (m & 0x2 != 0) == (w & 0x2 != 0) && (m & 0x4 != 0) == (w & 0x4 != 0)
            && (m & 0x8 != 0) == (w & 0x8 != 0) && (m & 0x10 != 0) == (w & 0x10 != 0) && (m & 0x20 != 0) == (w & 0x20 != 0)
            && (m & 0x40 != 0) == (w & 0x40 != 0) && (m & 0x80 != 0) == (w & 0x80 != 0)
  {}

  lemma WordDigits(b0: u8, b1: u8, b2: u8, b3: u8)
    ensures var w := Joined(Wide(b0), Wide(b1), Wide(b2), Wide(b3));
            ByteOf(w, 0) == b0 && ByteOf(w, 1) == b1 && ByteOf(w, 2) == b2 && ByteOf(w, 3) == b3
  {
    hide Wide, Narrow, Joined, ShiftDown, Low;
    NarrowWide(b0);
    NarrowWide(b1);
    NarrowWide(b2);
    NarrowWide(b3);
    JoinedParts(Wide(b0), Wide(b1), Wide(b2), Wide(b3));
    var w := Joined(Wide(b0), Wide(b1), Wide(b2), Wide(b3));
    NarrowLow(ShiftDown(w, 0), b0);
    NarrowLow(ShiftDown(w, 1), b1);
    NarrowLow(ShiftDown(w, 2), b2);
    NarrowLow(ShiftDown(w, 3), b3);
  }

  lemma DigitsMakeWord(w: bv32)
    ensures w == Joined(Wide(ByteOf(w, 0)), Wide(ByteOf(w, 1)), Wide(ByteOf(w, 2)), Wide(ByteOf(w, 3)))
  {
    hide Wide, Narrow, Joined, ShiftDown, Low;
    WideNarrow(ShiftDown(w, 0));
    WideNarrow(ShiftDown(w, 1));
    WideNarrow(ShiftDown(w, 2));
    WideNarrow(ShiftDown(w, 3));
    PartsJoined(w);
  }

  /** Packing loses nothing: the bytes come back, for any number of words that holds them. */
  lemma BytesThroughWords(bytes: seq<u8>, count: nat)
    requires |bytes| <= 4 * count
    ensures ToBytes(ToWords(bytes, count), |bytes|) == bytes
  {
    hide Wide, ByteOf, Joined;
    forall i | 0 <= i < |bytes| ensures ToBytes(ToWords(bytes, count), |bytes|)[i] == bytes[i] {
      var j := i / 4;
      WordDigits(ByteOrZero(bytes, 4 * j), ByteOrZero(bytes, 4 * j + 1), ByteOrZero(bytes, 4 * j + 2), ByteOrZero(bytes, 4 * j + 3));
      assert i == 4 * j + i % 4;
    }
  }

  lemma WordsThroughBytes(words: seq<bv32>)
    ensures ToWords(ToBytes(words, 4 * |words|), |words|) == words
  {
    hide Wide, ByteOf, Joined;
    var bytes := ToBytes(words, 4 * |words|);
    forall j | 0 <= j < |words| ensures WordAt(bytes, j) == words[j] {
      assert forall k :: 0 <= k < 4 ==> bytes[4 * j + k] == ByteOf(words[j], k);
      DigitsMakeWord(words[j]);
    }
  }

  /** A prefix of the words is enough for a prefix of the bytes. */
  lemma ToBytesPrefix(words: seq<bv32>, more: seq<bv32>, length: nat)
    requires length <= 4 * |words|
    ensures ToBytes(words + more, length) == ToBytes(words, length)
  {
    hide ByteOf;
    forall i | 0 <= i < length ensures ToBytes(words + more, length)[i] == ToBytes(words, length)[i] {
      assert i / 4 < |words|;
    }
  }

  // ---- numbers as words ----

  lemma FourDigits(n: u32)
    ensures n % 0x100 + 0x100 * (n / 0x100 % 0x100) + 0x1_0000 * (n / 0x1_0000 % 0x100) + 0x100_0000 * (n / 0x100_0000) == n
  {
    assert n / 0x1_0000 == n / 0x100 / 0x100 && n / 0x100_0000 == n / 0x1_0000 / 0x100;
  }

  /** The word that holds a number below 2^32, and the number a word holds. */
  function WordOf(n: u32): bv32 { Joined(Wide(n % 0x100), Wide(n / 0x100 % 0x100), Wide(n / 0x1_0000 % 0x100), Wide(n / 0x100_0000)) }

  function NumberOf(w: bv32): u32
  {
    ByteOf(w, 0) + 0x100 * ByteOf(w, 1) + 0x1_0000 * ByteOf(w, 2) + 0x100_0000 * ByteOf(w, 3)
  }

  lemma NumberOfWord(n: u32)
    ensures NumberOf(WordOf(n)) == n
  {
    FourDigits(n);
    hide Wide, ByteOf, Joined, WordAt;
    WordDigits(n % 0x100, n / 0x100 % 0x100, n / 0x1_0000 % 0x100, n / 0x100_0000);
  }

  // ---- the two ways the source packs ----

  /** Bits `8k` to `8k + 7` of a word: byte `k` of its memory on a little-endian host. */
  function MemoryBits(w: bv32, k: nat): (bits: seq<bool>)
    requires k < 4
    ensures |bits| == 8
  {
    if k == 0 then LowBits(w)
    else if k == 1 then [w & 0x100 != 0, w & 0x200 != 0, w & 0x400 != 0, w & 0x800 != 0,
                         w & 0x1000 != 0, w & 0x2000 != 0, w & 0x4000 != 0, w & 0x8000 != 0]
    else if k == 2 then [w & 0x1_0000 != 0, w & 0x2_0000 != 0, w & 0x4_0000 != 0, w & 0x8_0000 != 0,
                         w & 0x10_0000 != 0, w & 0x20_0000 != 0, w & 0x40_0000 != 0, w & 0x80_0000 != 0]
    else [w & 0x100_0000 != 0, w & 0x200_0000 != 0, w & 0x400_0000 != 0, w & 0x800_0000 != 0,
          w & 0x1000_0000 != 0, w & 0x2000_0000 != 0, w & 0x4000_0000 != 0, w & 0x8000_0000 != 0]
  }

  function Image(words: seq<bv32>): (r: seq<u8>)
    ensures |r| == 4 * |words|
  {
    Widths();
    seq(4 * |words|, i requires 0 <= i < 4 * |words| => Number(MemoryBits(words[i / 4], i % 4)))
  }

  lemma MemoryByte(w: bv32, k: nat)
    requires k < 4
    ensures Number(MemoryBits(w, k)) == ByteOf(w, k)
  {
    MemoryShifted(w, k);
    hide Number, MemoryBits, LowBits, ShiftDown;
  }

  lemma MemoryShifted(w: bv32, k: nat)
    requires k < 4
    ensures MemoryBits(w, k) == LowBits(ShiftDown(w, k))
  {
    MemoryOne(w);
    MemoryTwo(w);
    MemoryThree(w);
    hide LowBits;
  }

  lemma MemoryOne(w: bv32)
    ensures [w & 0x100 != 0, w & 0x200 != 0, w & 0x400 != 0, w & 0x800 != 0,
             w & 0x1000 != 0, w & 0x2000 != 0, w & 0x4000 != 0, w & 0x8000 != 0] == LowBits(w >> 8)
  {}

  lemma MemoryTwo(w: bv32)
    ensures [w & 0x1_0000 != 0, w & 0x2_0000 != 0, w & 0x4_0000 != 0, w & 0x8_0000 != 0,
             w & 0x10_0000 != 0, w & 0x20_0000 != 0, w & 0x40_0000 != 0, w & 0x80_0000 != 0] == LowBits(w >> 16)
  {}

  lemma MemoryThree(w: bv32)
    ensures [w & 0x100_0000 != 0, w & 0x200_0000 != 0, w & 0x400_0000 != 0, w & 0x800_0000 != 0,
             w & 0x1000_0000 != 0, w & 0x2000_0000 != 0, w & 0x4000_0000 != 0, w & 0x8000_0000 != 0] == LowBits(w >> 24)
  {}

  lemma ImageIsToBytes(words: seq<bv32>)
    ensures Image(words) == ToBytes(words, 4 * |words|)
  {
    hide MemoryBits, ByteOf, Number;
    forall i | 0 <= i < 4 * |words| ensures Image(words)[i] == ToBytes(words, 4 * |words|)[i] {
      MemoryByte(words[i / 4], i % 4);
    }
  }

  /** `xxtea_to_bytes_array`: a memory copy on a little-endian host, shifts elsewhere. */
  method ToBytesArray(arr: array<u8>, data: array<bv32>, littleEndian: bool)
    requires arr.Length <= 4 * data.Length && arr as object != data as object
    modifies arr
    ensures arr[..] == ToBytes(data[..], arr.Length)
  {
    hide ByteOf, MemoryBits;
    ghost var words := data[..];
    if littleEndian {
      var image := Image(data[..]);
      ImageIsToBytes(words);
      assert forall i :: 0 <= i < arr.Length ==> image[i] == ByteOf(words[i / 4], i % 4);
      forall i | 0 <= i < arr.Length { arr[i] := image[i]; }
      assert data[..] == words;
      return;
    }
    var i := 0;
    while i < arr.Length
      invariant i <= arr.Length && data[..] == words
      invariant forall j :: 0 <= j < i ==> arr[j] == ByteOf(words[j / 4], j % 4)
    {
      assert data[i / 4] == words[i / 4];
      arr[i] := ByteOf(data[i / 4], i % 4);
      i := i + 1;
    }
  }

  /** A byte moved to its place in a word. */
  function Placed(b: u8, k: nat): bv32
    requires k < 4
  {
    ShiftUp(Wide(b), k)
  }

  lemma OrZero(w: bv32)
    ensures Or(w, 0) == w && Or(0, w) == w
  {}

  lemma ShiftUpZero(k: nat)
    requires k < 4
    ensures ShiftUp(0, k) == 0
  {}

  lemma NoByte()
    ensures Wide(0) == 0
  {
    assert Bits(0, 8) == [false] + Bits(0, 7);
    NumberOfZero(8);
  }

  lemma {:induction false} NumberOfZero(w: nat)
    ensures Bits(0, w) == seq(w, _ => false)
  {
    if w > 0 {
      NumberOfZero(w - 1);
      assert [false] + seq(w - 1, _ => false) == seq(w, _ => false);
    }
  }

  /** A word with its lower bytes in place gets the next one. */
  lemma OrJoined(w0: bv32, w1: bv32, w2: bv32, w3: bv32)
    ensures Or(Joined(0, 0, 0, 0), ShiftUp(w0, 0)) == Joined(w0, 0, 0, 0)
    ensures Or(Joined(w0, 0, 0, 0), ShiftUp(w1, 1)) == Joined(w0, w1, 0, 0)
    ensures Or(Joined(w0, w1, 0, 0), ShiftUp(w2, 2)) == Joined(w0, w1, w2, 0)
    ensures Or(Joined(w0, w1, w2, 0), ShiftUp(w3, 3)) == Joined(w0, w1, w2, w3)
  {
    hide Or, ShiftUp;
    forall k: nat | k < 4 ensures ShiftUp(0, k) == 0 { ShiftUpZero(k); }
    forall w: bv32 ensures Or(w, 0) == w && Or(0, w) == w { OrZero(w); }
  }

  /** One more byte of the string in its place. */
  lemma PlaceNext(bytes: seq<u8>, i: nat, j: nat)
    requires i < |bytes|
    ensures WordAt(bytes[..i + 1], j) == if j == i / 4 then Or(WordAt(bytes[..i], j), Placed(bytes[i], i % 4)) else WordAt(bytes[..i], j)
  {
    hide Wide, Joined, Or, ShiftUp;
    NoByte();
    if j == i / 4 {
      var k, more, less := i % 4, bytes[..i + 1], bytes[..i];
      assert i == 4 * j + k;
      OrJoined(Wide(ByteOrZero(more, 4 * j)), Wide(ByteOrZero(more, 4 * j + 1)), Wide(ByteOrZero(more, 4 * j + 2)), Wide(ByteOrZero(more, 4 * j + 3)));
      assert ByteOrZero(less, 4 * j) == if k > 0 then ByteOrZero(more, 4 * j) else 0;
      assert ByteOrZero(less, 4 * j + 1) == if k > 1 then ByteOrZero(more, 4 * j + 1) else 0;
      assert ByteOrZero(less, 4 * j + 2) == if k > 2 then ByteOrZero(more, 4 * j + 2) else 0;
      assert ByteOrZero(less, 4 * j + 3) == 0;
      assert k < 1 ==> ByteOrZero(more, 4 * j + 1) == 0;
      assert k < 2 ==> ByteOrZero(more, 4 * j + 2) == 0;
      assert k < 3 ==> ByteOrZero(more, 4 * j + 3) == 0;
    }
  }

  lemma SameBytes(a: seq<u8>, b: seq<u8>)
    requires forall i: nat :: ByteOrZero(a, i) == ByteOrZero(b, i)
    ensures forall j: nat :: WordAt(a, j) == WordAt(b, j)
  {
    hide Wide, Joined;
  }

  lemma ZeroByte(k: nat)
    requires k < 4
    ensures ByteOf(0, k) == 0
  {
    NoByte();
    ZeroShifted(k);
    hide Wide, Low, ShiftDown;
    NarrowLow(ShiftDown(0, k), 0);
  }

  lemma ZeroShifted(k: nat)
    requires k < 4
    ensures Low(ShiftDown(0, k)) == 0
  {}

  /** The bytes copied over the front of the array's memory. */
  method CopyIn(arr: array<bv32>, data: seq<u8>)
    requires |data| <= 4 * arr.Length && forall j :: 0 <= j < arr.Length ==> arr[j] == 0
    modifies arr
    ensures arr[..] == ToWords(data, arr.Length)
  {
    hide WordAt, MemoryBits, ByteOf, Number;
    var image := data + Image(arr[..])[|data|..];
    forall i: nat ensures ByteOrZero(image, i) == ByteOrZero(data, i) {
      if |data| <= i < |image| {
        assert arr[..][i / 4] == 0;
        MemoryByte(0, i % 4);
        ZeroByte(i % 4);
      }
    }
    SameBytes(image, data);
    forall j | 0 <= j < arr.Length { arr[j] := WordAt(image, j); }
  }

  lemma NoBytes(data: seq<u8>)
    requires data == []
    ensures forall j: nat :: WordAt(data, j) == 0
  {
    NoByte();
    hide Wide;
  }

  /** The bytes shifted into place one by one. */
  method ShiftIn(arr: array<bv32>, data: seq<u8>)
    requires |data| <= 4 * arr.Length && forall j :: 0 <= j < arr.Length ==> arr[j] == 0
    modifies arr
    ensures arr[..] == ToWords(data, arr.Length)
  {
    hide WordAt, Placed, Or, ShiftUp;
    NoBytes(data[..0]);
    var i := 0;
    while i < |data|
      invariant i <= |data|
      invariant forall j :: 0 <= j < arr.Length ==> arr[j] == WordAt(data[..i], j)
    {
      forall j: nat
        ensures WordAt(data[..i + 1], j) == if j == i / 4 then Or(WordAt(data[..i], j), Placed(data[i], i % 4)) else WordAt(data[..i], j)
      {
        PlaceNext(data, i, j);
      }
      arr[i / 4] := Or(arr[i / 4], Placed(data[i], i % 4));
      i := i + 1;
    }
    assert data[..i] == data;
  }

  /** `xxtea_to_uint32_array` into a zeroed array. */
  method ToUint32Array(arr: array<bv32>, data: seq<u8>, littleEndian: bool)
    requires |data| <= 4 * arr.Length && forall j :: 0 <= j < arr.Length ==> arr[j] == 0
    modifies arr
    ensures arr[..] == ToWords(data, arr.Length)
  {
    if littleEndian { CopyIn(arr, data); } else { ShiftIn(arr, data); }
  }

  // ---- encryption of byte strings ----

  /** At most 16 key bytes count; a shorter key is padded with zeros. */
  function KeyWords(key: seq<u8>): Key { ToWords(if |key| > 16 then key[..16] else key, 4) }

  /** The bytes of the key words are the first sixteen bytes of the key, and zeros after a shorter key. */
  lemma KeyPacked(key: seq<u8>)
    ensures ToBytes(KeyWords(key), 16) == if |key| >= 16 then key[..16] else key + seq(16 - |key|, _ => 0)
  {
    hide ByteOf, Wide, Joined;
    var used := if |key| > 16 then key[..16] else key;
    var tmp := used + seq(16 - |used|, _ => 0);
    assert |used| <= 16 && (|key| >= 16 ==> tmp == key[..16]);
    forall i: nat ensures ByteOrZero(tmp, i) == ByteOrZero(used, i) {}
    SameBytes(tmp, used);
    assert ToWords(tmp, 4) == KeyWords(key);
    BytesThroughWords(tmp, 4);
  }

  /** Keys that differ in their first sixteen bytes are different keys to the cipher. */
  lemma KeysDiffer(key: seq<u8>, other: seq<u8>)
    requires |key| == |other| == 16 && key != other
    ensures KeyWords(key) != KeyWords(other)
  {
    hide KeyWords, ToBytes;
    KeyPacked(key);
    KeyPacked(other);
    assert key[..16] == key && other[..16] == other;
  }

  function WordsNeeded(n: nat): nat { if n % 4 == 0 then n / 4 else n / 4 + 1 }

  const MAX_LENGTH: nat := 0x1_0000_0000 - 8

  function Padded(data: seq<u8>): (r: seq<bv32>)
    requires |data| < MAX_LENGTH
    ensures |r| == WordsNeeded(|data|) + 1
  {
    ToWords(data, WordsNeeded(|data|)) + [WordOf(|data|)]
  }

  function Encrypt(data: seq<u8>, key: seq<u8>): (r: seq<u8>)
    requires |data| < MAX_LENGTH
  {
    ToBytes(Encrypted(Padded(data), KeyWords(key)), 4 * (WordsNeeded(|data|) + 1))
  }

  datatype Plain = Ok(data: seq<u8>) | InvalidData

  /** Nothing is said of the empty string: the source divides by the number of words and looks at the last one. */
  function Decrypt(data: seq<u8>, key: seq<u8>): Plain
    requires data != []
  {
    if |data| % 4 != 0 then InvalidData else
    var words := Decrypted(ToWords(data, |data| / 4), KeyWords(key));
    var length := NumberOf(words[|words| - 1]);
    if length > |data| then InvalidData else Ok(ToBytes(words, length))
  }

  /** The number the last four bytes write, least significant first. */
  function Claimed(bytes: seq<u8>): nat
    requires |bytes| >= 4
  {
    var last := bytes[|bytes| - 4..];
    last[0] as int + 0x100 * last[1] as int + 0x1_0000 * last[2] as int + 0x100_0000 * last[3] as int
  }

  lemma LastWord(words: seq<bv32>)
    requires words != []
    ensures Claimed(ToBytes(words, 4 * |words|)) == NumberOf(words[|words| - 1])
  {
    hide ByteOf;
    var bytes, n := ToBytes(words, 4 * |words|), |words| - 1;
    forall k: nat | k < 4 ensures bytes[|bytes| - 4..][k] == ByteOf(words[n], k) {
      assert (4 * n + k) / 4 == n && (4 * n + k) % 4 == k;
      assert bytes[4 * n + k] == ByteOf(words[n], k);
    }
  }

  lemma ToBytesStart(words: seq<bv32>, length: nat)
    requires length <= 4 * |words|
    ensures ToBytes(words, length) == ToBytes(words, 4 * |words|)[..length]
  {
    hide ByteOf;
  }

  /** What is refused: a length that is no number of words, or a length word that claims more bytes than there are. What
      is accepted is the beginning of the decrypted bytes, as much as the length word says. */
  lemma DecryptIff(data: seq<u8>, key: seq<u8>)
    requires data != []
    ensures |data| % 4 != 0 ==> Decrypt(data, key) == InvalidData
    ensures |data| % 4 == 0 ==>
              var bytes := ToBytes(Decrypted(ToWords(data, |data| / 4), KeyWords(key)), |data|);
              Decrypt(data, key) == if Claimed(bytes) <= |data| then Ok(bytes[..Claimed(bytes)]) else InvalidData
  {
    hide Decrypted, KeyWords, ToWords, ToBytes, Claimed, NumberOf;
    if |data| % 4 == 0 {
      var words := Decrypted(ToWords(data, |data| / 4), KeyWords(key));
      LastWord(words);
      if NumberOf(words[|words| - 1]) <= |data| { ToBytesStart(words, NumberOf(words[|words| - 1])); }
    }
  }

  /** Every non-empty byte string comes back, whatever the key, with its exact length. */
  lemma RoundTrip(data: seq<u8>, key: seq<u8>)
    requires 0 < |data| < MAX_LENGTH
    ensures Encrypt(data, key) != [] && |Encrypt(data, key)| % 4 == 0
    ensures Decrypt(Encrypt(data, key), key) == Ok(data)
  {
    hide ToWords, ToBytes, Encrypted, Decrypted, KeyWords, WordOf, NumberOf;
    var n := WordsNeeded(|data|);
    var k := KeyWords(key);
    var plain := Padded(data);
    var cipher := Encrypted(plain, k);
    var sent := ToBytes(cipher, 4 * (n + 1));
    assert ToWords(sent, n + 1) == cipher by { WordsThroughBytes(cipher); }
    BlockInverse(plain, k);
    assert |sent| / 4 == n + 1 && |sent| % 4 == 0;
    NumberOfWord(|data|);
    assert plain[|plain| - 1] == WordOf(|data|);
    ToBytesPrefix(ToWords(data, n), [WordOf(|data|)], |data|);
    BytesThroughWords(data, n);
  }

  /** The empty string is one word, its length, and under the zero key it is refused as invalid when it comes back. */
  lemma EmptyStringRefused()
    ensures Encrypt([], []) != [] && Decrypt(Encrypt([], []), []) == InvalidData
  {
    hide Encrypted, Decrypted, Joined, NumberOf, ByteOf, ToWords, ToBytes, WordOf, WordAt;
    ZeroKeyWords();
    NoLength();
    var plain := Padded([]);
    assert plain == [0];
    var cipher := Encrypted(plain, ZERO);
    var sent := ToBytes(cipher, 4);
    assert ToWords(sent, 1) == cipher by { WordsThroughBytes(cipher); }
    SingleWordNotUndone();
    LengthTooLarge();
  }

  lemma ZeroKeyWords()
    ensures KeyWords([]) == ZERO
  {
    NoBytes([]);
    hide WordAt;
  }

  lemma NoLength()
    ensures Padded([]) == [0]
  {
    NoByte();
    hide Wide;
    assert ToWords([], 0) == [];
  }

  lemma LengthTooLarge()
    ensures NumberOf(0x9825c7f5) > 4
  {
    TopByte();
    hide Narrow, ShiftDown;
  }

  lemma TopByte()
    ensures Narrow(ShiftDown(0x9825c7f5, 3)) > 0
  {
    assert LowBits(ShiftDown(0x9825c7f5, 3))[3];
    hide LowBits, ShiftDown;
    NumberPositive(LowBits(ShiftDown(0x9825c7f5, 3)), 3);
  }

  lemma {:induction false} NumberPositive(bits: seq<bool>, i: nat)
    requires i < |bits| && bits[i]
    ensures Number(bits) > 0
  {
    if i > 0 { NumberPositive(bits[1..], i - 1); }
  }

  /** A byte string comes back under every key if and only if it is not empty. */
  lemma ComesBackIffNotEmpty(data: seq<u8>)
    requires |data| < MAX_LENGTH
    ensures (forall key: seq<u8> :: Encrypt(data, key) != [] && Decrypt(Encrypt(data, key), key) == Ok(data)) <==> data != []
  {
    hide Encrypt, Decrypt;
    if data != [] {
      forall key: seq<u8> ensures Encrypt(data, key) != [] && Decrypt(Encrypt(data, key), key) == Ok(data) { RoundTrip(data, key); }
    } else {
      EmptyStringRefused();
    }
  }

  method XxteaEncrypt(data: seq<u8>, key: seq<u8>, littleEndian: bool) returns (out: array<u8>)
    requires |data| < MAX_LENGTH
    ensures fresh(out) && out[..] == Encrypt(data, key)
  {
    hide WordAt, WordOf, Encrypted, ByteOf;
    var u32k := MakeKey(key, littleEndian);
    var u32len := if |data| % 4 == 0 then |data| / 4 else |data| / 4 + 1;
    var words := new bv32[u32len](i => 0);
    ToUint32Array(words, data, littleEndian);
    var last := WordOf(|data|);
    var u32data := new bv32[u32len + 1](i requires 0 <= i <= u32len && words.Length == u32len reads words =>
      if i < u32len then words[i] else last);
    assert u32data[..] == Padded(data);
    BteaEncrypt(u32data, u32k);
    out := new u8[(u32len + 1) * 4](i => 0);
    ToBytesArray(out, u32data, littleEndian);
  }

  method MakeKey(key: seq<u8>, littleEndian: bool) returns (u32k: Key)
    ensures u32k == KeyWords(key)
  {
    hide Wide, Joined;
    var words := new bv32[4](i => 0);
    var used := if |key| > 16 then key[..16] else key;
    var tmp := used + seq(16 - |used|, i => 0);
    ToUint32Array(words, tmp, littleEndian);
    assert forall i :: 0 <= i < 16 ==> ByteOrZero(tmp, i) == ByteOrZero(used, i);
    u32k := words[..];
  }

  method XxteaDecrypt(data: seq<u8>, key: seq<u8>, littleEndian: bool) returns (out: Plain)
    requires data != []
    ensures out == Decrypt(data, key)
  {
    hide Decrypted, KeyWords, WordAt, ToWords, ByteOf, ToBytes, NumberOf;
    if |data| % 4 != 0 { return InvalidData; }
    var u32k := MakeKey(key, littleEndian);
    var u32len := |data| / 4;
    var u32data := new bv32[u32len](i => 0);
    ToUint32Array(u32data, data, littleEndian);
    BteaDecrypt(u32data, u32k);
    var length := NumberOf(u32data[u32len - 1]);
    if length > |data| { return InvalidData; }
    var bytes := new u8[length](i => 0);
    ToBytesArray(bytes, u32data, littleEndian);
    out := Ok(bytes[..]);
  }
}
