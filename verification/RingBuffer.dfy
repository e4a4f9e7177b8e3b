/** `bytes_ringbuffer`: a bounded first-in first-out queue of bytes over one array. */
module RingBuffer {
  import opened Arithmetic
  import opened Bytes

  const MIN_SIZE: nat := 1024 * 2
  const MAX_SIZE: nat := 1024 * 1024 * 32

  /** An index after at most one turn around a buffer of `n` bytes. */
  function Turn(x: nat, n: nat): nat { if x >= n then x - n else x }

  lemma ModIsTurn(x: nat, n: nat)
    requires x < 2 * n
    ensures x % n == Turn(x, n)
  {
    if x >= n { DivModUnique(x, n, 1, x - n); } else { DivModUnique(x, n, 0, x); }
  }

  /** The number of bytes from `begin` around to `end`. */
  function Span(begin: nat, end: nat, n: nat): nat
    requires begin < n
  {
    if begin <= end then end - begin else end + n - begin
  }

  /** The k-th byte of a circular buffer from `begin` on. */
  function Slot(buffer: seq<u8>, begin: nat, k: nat): u8
    requires begin < |buffer| && k < |buffer|
  {
    buffer[Turn(begin + k, |buffer|)]
  }

  /** The `count` bytes of a circular buffer from `begin` on. */
  function Window(buffer: seq<u8>, begin: nat, count: nat): (w: seq<u8>)
    requires begin < |buffer| && count <= |buffer|
    ensures |w| == count
    ensures forall k :: 0 <= k < count ==> w[k] == Slot(buffer, begin, k)
  {
    seq(count, k requires 0 <= k < count => Slot(buffer, begin, k))
  }

  lemma WindowDrop(buffer: seq<u8>, begin: nat, count: nat, k: nat)
    requires begin < |buffer| && count < |buffer| && k <= count
    ensures Window(buffer, Turn(begin + k, |buffer|), count - k) == Window(buffer, begin, count)[k..]
  {
    var w, dropped := Window(buffer, begin, count)[k..], Window(buffer, Turn(begin + k, |buffer|), count - k);
    forall i | 0 <= i < count - k ensures dropped[i] == w[i] {
      assert w[i] == Slot(buffer, begin, k + i);
    }
  }

  /** Bytes written behind the window, the window itself untouched. */
  lemma WindowPut(buffer: seq<u8>, after: seq<u8>, begin: nat, count: nat, bytes: seq<u8>)
    requires begin < |buffer| == |after| && count + |bytes| < |buffer|
    requires forall k :: 0 <= k < count ==> Slot(after, begin, k) == Slot(buffer, begin, k)
    requires forall k :: count <= k < count + |bytes| ==> Slot(after, begin, k) == bytes[k - count]
    ensures Window(after, begin, count + |bytes|) == Window(buffer, begin, count) + bytes
  {}

  /** The difference of two indices wraps around in 32 bits and comes back. */
  lemma WrappedCount(begin: nat, end: nat, n: nat)
    requires begin < n && end < n && n <= MAX_SIZE + 1
    ensures Wrap32(Wrap32(end - begin) + n) % n == Span(begin, end, n)
  {
    var w := if begin <= end then end - begin else end - begin + 0x1_0000_0000;
    DivModUnique(end - begin, 0x1_0000_0000, if begin <= end then 0 else -1, w);
    DivModUnique(w + n, 0x1_0000_0000, if begin <= end then 0 else 1, end - begin + n);
    ModIsTurn(end - begin + n, n);
  }

  class BytesRingBuffer {
    const size: nat
    const buffer: array<u8>
    var begin: nat
    var end: nat

    ghost predicate Valid()
      reads this
    {
      MIN_SIZE < size <= MAX_SIZE + 1 && buffer.Length == size && begin < size && end < size
    }

    ghost function Contents(): (s: seq<u8>)
      requires Valid()
      reads this, buffer
      ensures |s| < size
    {
      Window(buffer[..], begin, Span(begin, end, size))
    }

    constructor (capacity: nat)
      requires MIN_SIZE <= capacity <= MAX_SIZE
      ensures Valid() && fresh(buffer) && Contents() == [] && size == capacity + 1
    {
      size := capacity + 1;
      buffer := new u8[capacity + 1](i => 0);
      begin, end := 0, 0;
    }

    function Capacity(): nat
      requires Valid()
      reads this
    {
      size - 1
    }

    /** The difference of the indices wraps around in 32 bits and comes back. */
    function Count(): (n: nat)
      requires Valid()
      reads this, buffer
      ensures n == |Contents()|
    {
      WrappedCount(begin, end, size);
      Wrap32(Wrap32(end - begin) + size) % size
    }

    function LeftCapacity(): (n: nat)
      requires Valid()
      reads this, buffer
      ensures Count() + n == Capacity()
    {
      Capacity() - Count()
    }

    predicate IsEmpty()
      requires Valid()
      reads this, buffer
      ensures IsEmpty() <==> Contents() == []
    {
      begin == end
    }

    predicate IsFull()
      requires Valid()
      reads this, buffer
      ensures IsFull() <==> |Contents()| == Capacity()
    {
      ModIsTurn(end + 1, size);
      (end + 1) % size == begin
    }

    method Reset()
      requires Valid()
      modifies this
      ensures Valid() && Contents() == []
    {
      begin, end := 0, 0;
    }

    method Skip(s: nat)
      requires Valid() && s <= |Contents()|
      modifies this
      ensures Valid() && Contents() == old(Contents())[s..]
    {
      WindowDrop(buffer[..], begin, Span(begin, end, size), s);
      ModIsTurn(begin + s, size);
      begin := (begin + s) % size;
      if begin == end { Reset(); }
    }

    /** As many bytes as there are, up to `s`; they leave the buffer only if `move`. */
    method Read(s: nat, move: bool) returns (bytes: seq<u8>)
      requires Valid()
      modifies this
      ensures Valid()
      ensures bytes == old(Contents())[..if old(|Contents()|) > s then s else old(|Contents()|)]
      ensures Contents() == if move then old(Contents())[|bytes|..] else old(Contents())
    {
      var available := Count();
      if available == 0 { return []; }
      var copy := if available > s then s else available;
      if end > begin {
        bytes := buffer[begin..begin + copy];
      } else {
        var tail := size - begin;
        if tail >= copy {
          bytes := buffer[begin..begin + copy];
        } else {
          bytes := buffer[begin..begin + tail];
          bytes := bytes + buffer[..copy - tail];
        }
      }
      forall k | 0 <= k < copy ensures bytes[k] == Slot(buffer[..], begin, k) {}
      assert bytes == Contents()[..copy];
      if move { Skip(copy); }
    }

    method Peek(s: nat) returns (bytes: seq<u8>)
      requires Valid()
      modifies this
      ensures Valid() && Contents() == old(Contents())
      ensures bytes == Contents()[..if |Contents()| > s then s else |Contents()|]
    {
      bytes := Read(s, false);
    }

    /** All `s` bytes or none. */
    method TryRead(s: nat) returns (ok: bool, bytes: seq<u8>)
      requires Valid()
      modifies this
      ensures Valid() && ok == (old(|Contents()|) >= s)
      ensures ok ==> bytes == old(Contents())[..s] && Contents() == old(Contents())[s..]
      ensures !ok ==> bytes == [] && Contents() == old(Contents())
    {
      if Count() >= s {
        bytes := Read(s, true);
        return true, bytes;
      }
      return false, [];
    }

    /** A four-byte big-endian number, if that many bytes are there. */
    method TryReadU32() returns (ok: bool, t: nat)
      requires Valid()
      modifies this
      ensures Valid() && ok == (old(|Contents()|) >= 4)
      ensures ok ==> t == Value(old(Contents())[..4]) && Contents() == old(Contents())[4..]
      ensures !ok ==> Contents() == old(Contents())
    {
      var bytes;
      ok, bytes := TryRead(4);
      t := 0;
      if ok {
        t := ReadImpl(bytes, 4);
        assert bytes[..4] == bytes;
      }
    }

    method Copy(at: nat, bytes: seq<u8>)
      requires Valid() && at + |bytes| <= size
      modifies buffer
      ensures forall i :: at <= i < at + |bytes| ==> buffer[i] == bytes[i - at]
      ensures forall j :: 0 <= j < size && !(at <= j < at + |bytes|) ==> buffer[j] == old(buffer[j])
    {
      forall i | at <= i < at + |bytes| { buffer[i] := bytes[i - at]; }
    }

    /** Appends the longest prefix that fits. */
    method Write(bytes: seq<u8>) returns (n: nat)
      requires Valid() && bytes != []
      modifies this, buffer
      ensures Valid()
      ensures n == if old(LeftCapacity()) > |bytes| then |bytes| else old(LeftCapacity())
      ensures Contents() == old(Contents()) + bytes[..n]
    {
      var available := LeftCapacity();
      if available == 0 { return 0; }
      if end == begin {
        end := 0;
        begin := 0;
      }
      n := if available > |bytes| then |bytes| else available;
      Put(bytes[..n]);
    }

    /** Writes bytes that fit, in one piece or around the end of the array. */
    method Put(bytes: seq<u8>)
      requires Valid() && |Contents()| + |bytes| < size && (begin == end ==> begin == 0)
      modifies this`end, buffer
      ensures Valid() && Contents() == old(Contents()) + bytes
    {
      hide Window, Slot;
      var n := |bytes|;
      ghost var count := Span(begin, end, size);
      ModIsTurn(end + n, size);
      var tail := size - end;
      if end <= begin || tail >= n {
        Copy(end, bytes);
      } else {
        Copy(end, bytes[..tail]);
        Copy(0, bytes[tail..]);
      }
      forall j | 0 <= j < size ensures buffer[j] == PutByte(old(buffer[..])[j], bytes, tail, j) {}
      hide PutByte;
      PutInPlace(old(buffer[..]), bytes, count, tail);
      end := if end <= begin || tail >= n then (end + n) % size else n - tail;
    }

    lemma PutInPlace(before: seq<u8>, bytes: seq<u8>, count: nat, tail: nat)
      requires Valid() && |before| == size && count == Span(begin, end, size) && count + |bytes| < size
      requires (begin == end ==> begin == 0) && tail == size - end
      requires forall j :: 0 <= j < size ==> buffer[j] == PutByte(before[j], bytes, tail, j)
      ensures Window(buffer[..], begin, count + |bytes|) == Window(before, begin, count) + bytes
    {
      var after := buffer[..];
      forall k | 0 <= k < count ensures Slot(after, begin, k) == Slot(before, begin, k) {}
      forall k | count <= k < count + |bytes| ensures Slot(after, begin, k) == bytes[k - count] {}
      WindowPut(before, after, begin, count, bytes);
    }

    /** What position `j` holds after the copy. */
    function PutByte(was: u8, bytes: seq<u8>, tail: nat, j: nat): u8
      reads this
    {
      if end <= j < end + |bytes| then bytes[j - end]
      else if end > begin && tail < |bytes| && j < |bytes| - tail then bytes[tail + j]
      else was
    }
  }
}
