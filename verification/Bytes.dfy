/** Bytes, machine words, and the big-endian codec of bytes_helper. */
module Bytes {
  import opened Arithmetic

  type u8 = x: int | 0 <= x < 0x100
  type u16 = x: int | 0 <= x < 0x1_0000
  type u32 = x: int | 0 <= x < 0x1_0000_0000
  type u64 = x: int | 0 <= x < 0x1_0000_0000_0000_0000

  /** Unsigned 32-bit result. */
  function Wrap32(x: int): u32 { x % 0x1_0000_0000 }

  // ---- numbers and their bits, lowest first ----

  function Pow2(n: nat): (r: nat)
    ensures r > 0
  {
    if n == 0 then 1 else 2 * Pow2(n - 1)
  }

  function Number(bits: seq<bool>): (n: nat)
    ensures n < Pow2(|bits|)
  {
    if bits == [] then 0 else (if bits[0] then 1 else 0) + 2 * Number(bits[1..])
  }

  function Bits(n: nat, w: nat): (bits: seq<bool>)
    ensures |bits| == w
  {
    if w == 0 then [] else [n % 2 == 1] + Bits(n / 2, w - 1)
  }

  lemma {:induction false} NumberOfBits(n: nat, w: nat)
    requires n < Pow2(w)
    ensures Number(Bits(n, w)) == n
  {
    if w > 0 { NumberOfBits(n / 2, w - 1); }
  }

  lemma {:induction false} BitsOfNumber(bits: seq<bool>)
    ensures Bits(Number(bits), |bits|) == bits
  {
    if bits != [] { BitsOfNumber(bits[1..]); }
  }

  lemma Widths()
    ensures Pow2(8) == 0x100 && Pow2(16) == 0x1_0000 && Pow2(32) == 0x1_0000_0000
  {
    assert Pow2(8) == 2 * 2 * 2 * 2 * Pow2(4) && Pow2(4) == 16;
    assert Pow2(16) == 2 * 2 * 2 * 2 * Pow2(12) && Pow2(12) == 2 * 2 * 2 * 2 * Pow2(8);
    assert Pow2(32) == 0x1_0000 * Pow2(16) by {
      assert Pow2(32) == 0x10 * Pow2(28) && Pow2(28) == 0x10 * Pow2(24) && Pow2(24) == 0x10 * Pow2(20) && Pow2(20) == 0x10 * Pow2(16);
    }
  }

  // ---- big-endian byte strings ----

  /** 256 to the power `n`: what a shift by `n` bytes multiplies by. */
  function Pow256(n: nat): (r: nat)
    ensures r > 0
  {
    if n == 0 then 1 else 256 * Pow256(n - 1)
  }

  /** The number a big-endian byte string denotes. */
  function Value(bytes: seq<u8>): (r: nat)
    ensures r < Pow256(|bytes|)
  {
    if bytes == [] then 0 else Value(bytes[..|bytes| - 1]) * 256 + bytes[|bytes| - 1]
  }

  /** The `n` low bytes of a number, most significant first. */
  function BigEndian(v: nat, n: nat): (r: seq<u8>)
    ensures |r| == n
  {
    if n == 0 then [] else BigEndian(v / 256, n - 1) + [v % 256]
  }

  lemma {:induction false} ValueOfBigEndian(v: nat, n: nat)
    ensures v < Pow256(n) ==> Value(BigEndian(v, n)) == v
    ensures Value(BigEndian(v, n)) == v % Pow256(n)
  {
    if n > 0 {
      ValueOfBigEndian(v / 256, n - 1);
      var r := BigEndian(v / 256, n - 1);
      assert (r + [v % 256])[..n - 1] == r;
      ModSplit(v, Pow256(n - 1));
    }
  }

  lemma {:induction false} BigEndianOfValue(bytes: seq<u8>)
    ensures BigEndian(Value(bytes), |bytes|) == bytes
  {
    if bytes != [] {
      BigEndianOfValue(bytes[..|bytes| - 1]);
    }
  }

  /** `read_impl`: shift the accumulator and add the next byte. */
  method ReadImpl(start: seq<u8>, size: nat) returns (ret: nat)
    requires size <= |start|
    ensures ret == Value(start[..size])
  {
    ret := 0;
    var idx := 0;
    while idx < size
      invariant idx <= size && ret == Value(start[..idx])
    {
      assert start[..idx + 1][..idx] == start[..idx];
      ret := ret * 256;
      ret := ret + start[idx];
      idx := idx + 1;
    }
  }

  /** The value shifted right by `i` bytes. */
  function Shifted(v: nat, i: nat): nat { if i == 0 then v else Shifted(v, i - 1) / 256 }

  lemma {:induction false} ShiftedIsDiv(v: nat, i: nat)
    ensures Shifted(v, i) == v / Pow256(i)
  {
    if i > 0 {
      ShiftedIsDiv(v, i - 1);
      DivDiv(v, Pow256(i - 1), 256);
    }
  }

  /** `write_impl`: byte `i` of the value, from the most significant down. */
  method WriteImpl(val: nat, size: nat) returns (out: seq<u8>)
    ensures out == BigEndian(val, size)
  {
    out := [];
    var i: nat := size;
    while i > 0
      invariant i <= size && |out| == size - i
      invariant out == BigEndian(Shifted(val, i), size - i)
    {
      i := i - 1;
      out := out + [Shifted(val, i) % 256];
    }
  }
}
