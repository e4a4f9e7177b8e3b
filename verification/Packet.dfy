/** `packet`: a double-ended byte sequence in one growing buffer, with the data between two indices. */
module Packet {
  import opened Bytes

  const MIN_LEFT: nat := 128
  const MAX_LEFT: nat := 1024 * 1024 * 16
  const MIN_RIGHT: nat := 256
  const MAX_RIGHT: nat := 1024 * 1024 * 16
  const INCREMENT: nat := 1024 * 8 - 128

  /** How many times a side with `room` bytes must grow to take `length` more. */
  function Growths(length: nat, room: nat): nat
    decreases if length <= room then 0 else length - room
  {
    if length <= room then 0 else 1 + Growths(length, room + INCREMENT)
  }

  lemma {:induction false} GrowthsEnough(length: nat, room: nat)
    ensures length <= room + Growths(length, room) * INCREMENT
    ensures Growths(length, room) > 0 ==> room + (Growths(length, room) - 1) * INCREMENT < length
    decreases if length <= room then 0 else length - room
  {
    if length > room { GrowthsEnough(length, room + INCREMENT); }
  }

  lemma PutBefore(before: seq<u8>, after: seq<u8>, at: nat, begin: nat, end: nat, bytes: seq<u8>)
    requires at + |bytes| == begin <= end <= |before| == |after|
    requires forall i :: at <= i < begin ==> after[i] == bytes[i - at]
    requires forall j :: begin <= j < end ==> after[j] == before[j]
    ensures after[at..end] == bytes + before[begin..end]
  {}

  lemma PutAfter(before: seq<u8>, after: seq<u8>, begin: nat, end: nat, bytes: seq<u8>)
    requires begin <= end && end + |bytes| <= |before| == |after|
    requires forall i :: end <= i < end + |bytes| ==> after[i] == bytes[i - end]
    requires forall j :: begin <= j < end ==> after[j] == before[j]
    ensures after[begin..end + |bytes|] == before[begin..end] + bytes
  {}

  class Packet {
    var buffer: array<u8>
    var leftCapacity: nat
    var readIdx: nat
    var rightCapacity: nat
    var writeIdx: nat

    ghost predicate Valid()
      reads this
    {
      && buffer.Length == leftCapacity + rightCapacity
      && readIdx <= writeIdx <= buffer.Length
      && MIN_LEFT <= leftCapacity <= MAX_LEFT && MIN_RIGHT <= rightCapacity <= MAX_RIGHT
    }

    ghost function Contents(): seq<u8>
      requires Valid()
      reads this, buffer
    {
      buffer[readIdx..writeIdx]
    }

    constructor (rightCapacity: nat, leftCapacity: nat)
      requires rightCapacity <= MAX_RIGHT && leftCapacity <= MAX_LEFT
      ensures Valid() && fresh(buffer) && Contents() == []
    {
      this.leftCapacity := if leftCapacity > MIN_LEFT then leftCapacity else MIN_LEFT;
      this.rightCapacity := if rightCapacity > MIN_RIGHT then rightCapacity else MIN_RIGHT;
      var left := if leftCapacity > MIN_LEFT then leftCapacity else MIN_LEFT;
      var right := if rightCapacity > MIN_RIGHT then rightCapacity else MIN_RIGHT;
      buffer := new u8[left + right](i => 0);
      readIdx, writeIdx := left, left;
    }

    /** The copy has the same capacities, indices and bytes. */
    constructor Copy(other: Packet)
      requires other.Valid()
      ensures Valid() && fresh(buffer) && Contents() == other.Contents()
      ensures leftCapacity == other.leftCapacity && readIdx == other.readIdx
    {
      leftCapacity, rightCapacity := other.leftCapacity, other.rightCapacity;
      readIdx, writeIdx := other.readIdx, other.writeIdx;
      var copy := new u8[other.buffer.Length](i => 0);
      forall i | 0 <= i < other.buffer.Length { copy[i] := other.buffer[i]; }
      buffer := copy;
      new;
      assert buffer[..] == other.buffer[..];
      assert Contents() == buffer[..][readIdx..writeIdx] && other.Contents() == other.buffer[..][readIdx..writeIdx];
    }

    function Len(): (n: nat)
      requires Valid()
      reads this, buffer
      ensures n == |Contents()|
    {
      writeIdx - readIdx
    }

    method Realloc(length: nat)
      requires buffer.Length <= length
      modifies this`buffer
      ensures fresh(buffer) && buffer.Length == length
      ensures forall i :: 0 <= i < old(buffer.Length) ==> buffer[i] == old(buffer[i])
    {
      var grown := new u8[length](i => 0);
      forall i | 0 <= i < buffer.Length { grown[i] := buffer[i]; }
      buffer := grown;
    }

    /** Adds room on the left and moves the data there; an empty packet keeps its indices. */
    method ExtendLeft() returns (ok: bool)
      requires Valid()
      modifies this
      ensures Valid() && Contents() == old(Contents())
      ensures ok == (old(leftCapacity) + INCREMENT <= MAX_LEFT)
      ensures rightCapacity == old(rightCapacity)
      ensures !ok ==> buffer == old(buffer) && leftCapacity == old(leftCapacity) && readIdx == old(readIdx)
      ensures ok ==> fresh(buffer) && leftCapacity == old(leftCapacity) + INCREMENT
      ensures ok ==> readIdx == old(readIdx) + if old(Contents()) == [] then 0 else INCREMENT
    {
      if leftCapacity + INCREMENT > MAX_LEFT { return false; }
      ghost var kept := Contents();
      var len := Len();
      leftCapacity := leftCapacity + INCREMENT;
      Realloc(leftCapacity + rightCapacity);
      var newLeft := readIdx + INCREMENT;
      if newLeft != readIdx && len > 0 {
        forall i | 0 <= i < len { buffer[newLeft + i] := buffer[readIdx + i]; }
        writeIdx := writeIdx + INCREMENT;
        readIdx := newLeft;
      }
      ok := true;
    }

    method ExtendRight() returns (ok: bool)
      requires Valid()
      modifies this
      ensures Valid() && Contents() == old(Contents())
      ensures ok == (old(rightCapacity) + INCREMENT <= MAX_RIGHT)
      ensures leftCapacity == old(leftCapacity) && readIdx == old(readIdx) && writeIdx == old(writeIdx)
      ensures !ok ==> buffer == old(buffer) && rightCapacity == old(rightCapacity)
      ensures ok ==> fresh(buffer) && rightCapacity == old(rightCapacity) + INCREMENT
    {
      if rightCapacity + INCREMENT > MAX_RIGHT { return false; }
      rightCapacity := rightCapacity + INCREMENT;
      Realloc(leftCapacity + rightCapacity);
      ok := true;
    }

    /** The left room suffices, or the packet holds data and may grow far enough: an empty packet whose left
        room is too small never gets more of it, and its growing ends at the capacity limit. */
    ghost predicate CanWriteLeft(length: nat)
      reads this
    {
      length <= readIdx || (readIdx != writeIdx && leftCapacity + Growths(length, readIdx) * INCREMENT <= MAX_LEFT)
    }

    /** The growing loop of `write_left`. */
    method ReserveLeft(length: nat) returns (ok: bool)
      requires Valid()
      modifies this
      ensures Valid() && (buffer == old(buffer) || fresh(buffer)) && Contents() == old(Contents())
      ensures ok == old(CanWriteLeft(length)) && (ok ==> length <= readIdx)
    {
      while length > readIdx
        invariant Valid() && Contents() == old(Contents()) && (buffer == old(buffer) || fresh(buffer))
        invariant CanWriteLeft(length) == old(CanWriteLeft(length))
        decreases MAX_LEFT - leftCapacity
      {
        GrowthsEnough(length, readIdx + INCREMENT);
        var grown := ExtendLeft();
        if !grown { return false; }
      }
      ok := true;
    }

    /** Prepends exactly when it can; otherwise the data is as before. */
    method WriteLeft(bytes: seq<u8>) returns (ok: bool)
      requires Valid()
      modifies this, buffer
      ensures Valid() && (buffer == old(buffer) || fresh(buffer))
      ensures ok == old(CanWriteLeft(|bytes|))
      ensures Contents() == if ok then bytes + old(Contents()) else old(Contents())
    {
      ok := ReserveLeft(|bytes|);
      if !ok { return; }
      ghost var before := buffer[..];
      var at := readIdx - |bytes|;
      forall i | at <= i < readIdx { buffer[i] := bytes[i - at]; }
      PutBefore(before, buffer[..], at, readIdx, writeIdx, bytes);
      readIdx := at;
    }

    ghost predicate CanWrite(length: nat)
      requires Valid()
      reads this
    {
      rightCapacity + Growths(length, buffer.Length - writeIdx) * INCREMENT <= MAX_RIGHT
    }

    /** The growing loop of `write`. */
    method ReserveRight(length: nat) returns (ok: bool)
      requires Valid()
      modifies this
      ensures Valid() && (buffer == old(buffer) || fresh(buffer)) && Contents() == old(Contents())
      ensures ok == old(CanWrite(length)) && (ok ==> length <= buffer.Length - writeIdx)
    {
      while length > leftCapacity + rightCapacity - writeIdx
        invariant Valid() && Contents() == old(Contents()) && (buffer == old(buffer) || fresh(buffer))
        invariant CanWrite(length) == old(CanWrite(length))
        decreases MAX_RIGHT - rightCapacity
      {
        var grown := ExtendRight();
        if !grown { return false; }
      }
      ok := true;
    }

    /** Appends exactly when the right side may grow far enough. */
    method Write(bytes: seq<u8>) returns (ok: bool)
      requires Valid()
      modifies this, buffer
      ensures Valid() && (buffer == old(buffer) || fresh(buffer))
      ensures ok == old(CanWrite(|bytes|))
      ensures Contents() == if ok then old(Contents()) + bytes else old(Contents())
    {
      ok := ReserveRight(|bytes|);
      if !ok { return; }
      ghost var before := buffer[..];
      forall i | writeIdx <= i < writeIdx + |bytes| { buffer[i] := bytes[i - writeIdx]; }
      PutAfter(before, buffer[..], readIdx, writeIdx, bytes);
      writeIdx := writeIdx + |bytes|;
    }

    method Read(length: nat) returns (bytes: seq<u8>)
      requires Valid() && 0 < length <= |Contents()|
      modifies this`readIdx
      ensures Valid() && old(Contents()) == bytes + Contents() && |bytes| == length
    {
      bytes := buffer[readIdx..readIdx + length];
      readIdx := readIdx + length;
    }

    method Skip(length: nat)
      requires Valid() && length <= |Contents()|
      modifies this`readIdx
      ensures Valid() && Contents() == old(Contents())[length..]
    {
      readIdx := readIdx + length;
    }

    method Peek(size: nat) returns (bytes: seq<u8>)
      requires Valid()
      ensures bytes == Contents()[..if size >= |Contents()| then |Contents()| else size]
    {
      var n := if size >= Len() then Len() else size;
      bytes := buffer[readIdx..readIdx + n];
    }
  }
}
