/** `obfuscate`: the bits of a short value spread over a 32-bit word at places a random word chooses. */
module Obfuscate {
  import opened Bytes

  // ---- 32-bit words ----

  type Word = w: seq<bool> | |w| == 32 witness seq(32, _ => false)

  function Zero(): Word { seq(32, _ => false) }

  function Or(a: Word, b: Word): Word { seq(32, i requires 0 <= i < 32 => a[i] || b[i]) }

  lemma OrBit(a: Word, b: Word, k: nat)
    requires k < 32
    ensures Or(a, b)[k] == (a[k] || b[k])
  {}

  function Shl(a: Word, k: nat): Word { seq(32, i requires 0 <= i < 32 => i >= k && a[i - k]) }

  function Shr(a: Word, k: nat): Word { seq(32, i requires 0 <= i < 32 => i + k < 32 && a[i + k]) }

  function One(): Word { seq(32, i => i == 0) }

  /** `a & 0x1`. */
  function LowBit(a: Word): Word { seq(32, i => i == 0 && a[0]) }

  /** `a & 0x7`. */
  function LowThree(a: Word): nat { (if a[0] then 1 else 0) + (if a[1] then 2 else 0) + (if a[2] then 4 else 0) }

  /** Bit `k` of a number below eight. */
  predicate SmallBit(n: nat, k: nat) { if k == 0 then n % 2 == 1 else if k == 1 then n / 2 % 2 == 1 else k == 2 && n / 4 % 2 == 1 }

  function Small(n: nat): Word
    requires n < 8
  {
    seq(32, i requires 0 <= i < 32 => SmallBit(n, i))
  }

  // ---- where the bits go ----

  /** Each of the four bytes carries two bits of an 8-bit value, or four bits of a 16-bit one. */
  predicate PerByte(per: nat) { per == 2 || per == 4 }

  /** The byte that bit `i` goes to. */
  function Group(i: nat, per: nat): nat
    requires PerByte(per)
  {
    i / per
  }

  function Rank(i: nat, per: nat): nat
    requires PerByte(per)
  {
    i % per
  }

  lemma GroupBound(i: nat, per: nat)
    requires PerByte(per) && i < 4 * per
    ensures Group(i, per) < 4 && Rank(i, per) < 5 && (i == 0 ==> Rank(i, per) == 0)
    ensures Rank(i, per) != 0 ==> Group(i - 1, per) == Group(i, per) && Rank(i - 1, per) == Rank(i, per) - 1
  {
    if per == 2 {} else {}
  }

  lemma GroupAndRank(i: nat, j: nat, per: nat)
    requires PerByte(per) && Group(i, per) == Group(j, per) && Rank(i, per) == Rank(j, per)
    ensures i == j
  {
    if per == 2 {} else {}
  }

  /** Every byte has a first bit. */
  lemma GroupHead(g: nat, per: nat)
    requires PerByte(per) && g < 4
    ensures g * per < 4 * per && Group(g * per, per) == g
  {
    if per == 2 {} else {}
  }

  /** The first place used in byte `g`, taken from three bits of a word. */
  function Start(r: Word, g: nat): (s: nat)
    requires g < 4
    ensures s < 5
  {
    LowThree(Shr(r, 5 + 8 * g)) % 5
  }

  function Offset(r: Word, i: nat, per: nat): (b: nat)
    requires PerByte(per) && i < 4 * per
    ensures b < 5
  {
    GroupBound(i, per);
    if Rank(i, per) == 0 then Start(r, Group(i, per)) else (Offset(r, i - 1, per) + 1) % 5
  }

  lemma {:induction false} OffsetIs(r: Word, i: nat, per: nat)
    requires PerByte(per) && i < 4 * per
    ensures Group(i, per) < 4 && Offset(r, i, per) == (Start(r, Group(i, per)) + Rank(i, per)) % 5
  {
    hide Group, Rank, Start;
    GroupBound(i, per);
    if Rank(i, per) != 0 {
      OffsetIs(r, i - 1, per);
      var s := Start(r, Group(i, per)) + Rank(i, per);
      assert ((s - 1) % 5 + 1) % 5 == s % 5;
    }
  }

  /** Two bits of one byte never share a place. */
  lemma OffsetsDistinct(r: Word, i: nat, j: nat, per: nat)
    requires PerByte(per) && i < 4 * per && j < 4 * per && Group(i, per) == Group(j, per)
    requires Offset(r, i, per) == Offset(r, j, per)
    ensures i == j
  {
    hide Group, Rank, Start, Offset;
    GroupBound(i, per);
    GroupBound(j, per);
    OffsetIs(r, i, per);
    OffsetIs(r, j, per);
    GroupAndRank(i, j, per);
  }

  // ---- obfuscate ----

  /** What turn `i` of the loop adds. */
  function Term(val: seq<bool>, r: Word, i: nat, per: nat): Word
    requires PerByte(per) && |val| == 4 * per && i < 4 * per
  {
    GroupBound(i, per);
    var g := Group(i, per);
    Shl(Or(if val[i] then Shl(One(), Offset(r, i, per)) else Zero(), Shl(Small(Start(r, g)), 5)), 8 * g)
  }

  function Terms(val: seq<bool>, r: Word, n: nat, per: nat): Word
    requires PerByte(per) && |val| == 4 * per && n <= 4 * per
  {
    if n == 0 then Zero() else Or(Terms(val, r, n - 1, per), Term(val, r, n - 1, per))
  }

  function Obfuscated(val: seq<bool>, r: Word, per: nat): Word
    requires PerByte(per) && |val| == 4 * per
  {
    Terms(val, r, 4 * per, per)
  }

  /** Bit `p` of byte `g` is set by turn `i`. */
  predicate Sets(val: seq<bool>, r: Word, i: nat, per: nat, g: nat, p: nat)
    requires PerByte(per) && |val| == 4 * per && i < 4 * per && g < 4
  {
    Group(i, per) == g && if p < 5 then val[i] && Offset(r, i, per) == p else SmallBit(Start(r, g), p - 5)
  }

  lemma TermBit(val: seq<bool>, r: Word, i: nat, per: nat, g: nat, p: nat)
    requires PerByte(per) && |val| == 4 * per && i < 4 * per && g < 4 && p < 8
    ensures Term(val, r, i, per)[8 * g + p] <==> Sets(val, r, i, per, g, p)
  {
    hide Offset, Start, Group;
    GroupBound(i, per);
    var h := Group(i, per);
    var s, k := Start(r, h), 8 * g + p;
    var bi := Or(if val[i] then Shl(One(), Offset(r, i, per)) else Zero(), Shl(Small(s), 5));
    assert Term(val, r, i, per)[k] <==> k >= 8 * h && bi[k - 8 * h];
    if k >= 8 * h {
      var m := k - 8 * h;
      assert bi[m] <==> (val[i] && m == Offset(r, i, per)) || (m >= 5 && SmallBit(s, m - 5));
    }
  }

  lemma {:induction false} TermsBit(val: seq<bool>, r: Word, n: nat, per: nat, g: nat, p: nat)
    requires PerByte(per) && |val| == 4 * per && n <= 4 * per && g < 4 && p < 8
    ensures Terms(val, r, n, per)[8 * g + p] <==> exists i :: 0 <= i < n && Sets(val, r, i, per, g, p)
  {
    hide Term, Sets, Group;
    if n > 0 {
      TermsBit(val, r, n - 1, per, g, p);
      TermBit(val, r, n - 1, per, g, p);
      var before, last := Terms(val, r, n - 1, per), Term(val, r, n - 1, per);
      OrBit(before, last, 8 * g + p);
      if last[8 * g + p] { assert Sets(val, r, n - 1, per, g, p); }
    }
  }

  lemma HighBit(val: seq<bool>, r: Word, per: nat, g: nat, p: nat)
    requires PerByte(per) && |val| == 4 * per && g < 4 && 5 <= p < 8
    ensures Obfuscated(val, r, per)[8 * g + p] == SmallBit(Start(r, g), p - 5)
  {
    hide Group, Offset, Terms, SmallBit;
    GroupHead(g, per);
    TermsBit(val, r, 4 * per, per, g, p);
    assert Sets(val, r, g * per, per, g, p) == SmallBit(Start(r, g), p - 5);
  }

  /** The places can be read back from the result. */
  lemma StartKept(val: seq<bool>, r: Word, per: nat, g: nat)
    requires PerByte(per) && |val| == 4 * per && g < 4
    ensures Start(Obfuscated(val, r, per), g) == Start(r, g)
  {
    hide Obfuscated, SmallBit;
    HighBit(val, r, per, g, 5);
    HighBit(val, r, per, g, 6);
    HighBit(val, r, per, g, 7);
    StartFromBits(Obfuscated(val, r, per), g, Start(r, g));
  }

  lemma StartFromBits(x: Word, g: nat, s: nat)
    requires g < 4 && s < 5
    requires x[8 * g + 5] == SmallBit(s, 0) && x[8 * g + 6] == SmallBit(s, 1) && x[8 * g + 7] == SmallBit(s, 2)
    ensures Start(x, g) == s
  {
    var y := Shr(x, 5 + 8 * g);
    assert y[0] == x[8 * g + 5] && y[1] == x[8 * g + 6] && y[2] == x[8 * g + 7];
    assert LowThree(y) == s by {
      if s == 0 {} else if s == 1 {} else if s == 2 {} else if s == 3 {} else {}
    }
  }

  lemma OffsetKept(val: seq<bool>, r: Word, per: nat, i: nat)
    requires PerByte(per) && |val| == 4 * per && i < 4 * per
    ensures Offset(Obfuscated(val, r, per), i, per) == Offset(r, i, per)
  {
    hide Obfuscated, Start, Offset, Group, Rank;
    GroupBound(i, per);
    OffsetIs(r, i, per);
    OffsetIs(Obfuscated(val, r, per), i, per);
    StartKept(val, r, per, Group(i, per));
  }

  lemma BitKept(val: seq<bool>, r: Word, per: nat, i: nat)
    requires PerByte(per) && |val| == 4 * per && i < 4 * per
    ensures Group(i, per) < 4 && Obfuscated(val, r, per)[8 * Group(i, per) + Offset(r, i, per)] == val[i]
  {
    hide Offset, Terms, Group;
    GroupBound(i, per);
    var g, p := Group(i, per), Offset(r, i, per);
    TermsBit(val, r, 4 * per, per, g, p);
    forall j | 0 <= j < 4 * per && Sets(val, r, j, per, g, p) ensures j == i {
      OffsetsDistinct(r, j, i, per);
    }
    assert val[i] ==> Sets(val, r, i, per, g, p);
  }

  /** A number below five from three bits of byte `g` of the random word. */
  function Seed(r: Word, g: nat): nat
    requires g < 4
  {
    ((if r[8 * g + 5] then 1 else 0) + (if r[8 * g + 6] then 2 else 0) + (if r[8 * g + 7] then 4 else 0)) % 5
  }

  /** Bit `k` of those that byte `g` carries. */
  function Carried(g: nat, k: nat, per: nat): nat { if per == 2 then 2 * g + k else 4 * g + k }

  /** Bit by bit: the upper three bits of a byte are the number the random word gives for it, and of the lower five those
      from that number on, in a circle, carry the bits of the value. */
  lemma ObfuscatedExactly(val: seq<bool>, r: Word, per: nat, g: nat, p: nat)
    requires PerByte(per) && |val| == 4 * per && g < 4 && p < 8
    ensures var x := Obfuscated(val, r, per)[8 * g + p];
            && (p < 5 ==> (x <==> exists k: nat :: k < per && val[Carried(g, k, per)] && Turned(r, g, k, p)))
            && (p == 5 ==> (x <==> Seed(r, g) % 2 == 1))
            && (p == 6 ==> (x <==> Seed(r, g) / 2 % 2 == 1))
            && (p == 7 ==> (x <==> Seed(r, g) / 4 % 2 == 1))
  {
    SeedIsStart(r, g);
    hide Terms, Start, Seed, Offset, Group, Rank, Obfuscated, Sets, Turned;
    if p >= 5 {
      HighBit(val, r, per, g, p);
    } else {
      AllTerms(val, r, per, g, p);
      if i :| 0 <= i < 4 * per && Sets(val, r, i, per, g, p) { LowSet(val, r, i, per, g, p); }
      if k: nat :| k < per && val[Carried(g, k, per)] && Turned(r, g, k, p) { LowTurned(val, r, k, per, g, p); }
    }
  }

  predicate Turned(r: Word, g: nat, k: nat, p: nat)
    requires g < 4
  {
    (Seed(r, g) + k) % 5 == p
  }

  lemma SeedIsStart(r: Word, g: nat)
    requires g < 4
    ensures Start(r, g) == Seed(r, g)
  {}

  lemma AllTerms(val: seq<bool>, r: Word, per: nat, g: nat, p: nat)
    requires PerByte(per) && |val| == 4 * per && g < 4 && p < 8
    ensures Obfuscated(val, r, per)[8 * g + p] <==> exists i :: 0 <= i < 4 * per && Sets(val, r, i, per, g, p)
  {
    hide Sets, Terms;
    TermsBit(val, r, 4 * per, per, g, p);
  }

  lemma CarriedBack(i: nat, per: nat)
    requires PerByte(per) && i < 4 * per
    ensures Rank(i, per) < per && Carried(Group(i, per), Rank(i, per), per) == i && Group(i, per) < 4
  {
    if per == 2 {} else {}
  }

  lemma CarriedIn(g: nat, k: nat, per: nat)
    requires PerByte(per) && g < 4 && k < per
    ensures var i := Carried(g, k, per); i < 4 * per && Group(i, per) == g && Rank(i, per) == k
  {
    if per == 2 {} else {}
  }

  lemma LowSet(val: seq<bool>, r: Word, i: nat, per: nat, g: nat, p: nat)
    requires PerByte(per) && |val| == 4 * per && i < 4 * per && g < 4 && p < 5 && Sets(val, r, i, per, g, p)
    ensures var k := Rank(i, per); k < per && Carried(g, k, per) < 4 * per && val[Carried(g, k, per)] && Turned(r, g, k, p)
  {
    hide Start, Seed, Offset, Group, Rank, Carried;
    SeedIsStart(r, g);
    OffsetIs(r, i, per);
    CarriedBack(i, per);
  }

  lemma LowTurned(val: seq<bool>, r: Word, k: nat, per: nat, g: nat, p: nat)
    requires PerByte(per) && |val| == 4 * per && k < per && g < 4 && p < 5
    requires Carried(g, k, per) < 4 * per && val[Carried(g, k, per)] && Turned(r, g, k, p)
    ensures Sets(val, r, Carried(g, k, per), per, g, p)
  {
    hide Start, Seed, Offset, Group, Rank, Carried;
    SeedIsStart(r, g);
    CarriedIn(g, k, per);
    OffsetIs(r, Carried(g, k, per), per);
  }

  // ---- deobfuscate ----

  function Fetched(x: Word, i: nat, per: nat): Word
    requires PerByte(per) && i < 4 * per
  {
    GroupBound(i, per);
    Shl(LowBit(Shr(x, Offset(x, i, per) + 8 * Group(i, per))), i)
  }

  function Fetches(x: Word, n: nat, per: nat): Word
    requires PerByte(per) && n <= 4 * per
  {
    if n == 0 then Zero() else Or(Fetches(x, n - 1, per), Fetched(x, n - 1, per))
  }

  function Deobfuscated(x: Word, per: nat): (val: seq<bool>)
    requires PerByte(per)
    ensures |val| == 4 * per
  {
    Fetches(x, 4 * per, per)[..4 * per]
  }

  lemma {:induction false} FetchesBit(x: Word, n: nat, per: nat, k: nat)
    requires PerByte(per) && n <= 4 * per && k < 32
    ensures k < n ==> Group(k, per) < 4
    ensures Fetches(x, n, per)[k] <==> k < n && x[8 * Group(k, per) + Offset(x, k, per)]
  {
    hide Offset, Group;
    if n > 0 {
      FetchesBit(x, n - 1, per, k);
      GroupBound(n - 1, per);
      var at := Offset(x, n - 1, per) + 8 * Group(n - 1, per);
      assert LowBit(Shr(x, at))[0] == x[at];
    }
  }

  /** Every value comes back, whatever the random word. */
  lemma RoundTrip(val: seq<bool>, r: Word, per: nat)
    requires PerByte(per) && |val| == 4 * per
    ensures Deobfuscated(Obfuscated(val, r, per), per) == val
  {
    hide Obfuscated, Offset, Fetches, Group;
    var x := Obfuscated(val, r, per);
    forall i | 0 <= i < 4 * per ensures Fetches(x, 4 * per, per)[i] == val[i] {
      FetchesBit(x, 4 * per, per, i);
      OffsetKept(val, r, per, i);
      BitKept(val, r, per, i);
    }
  }

  // ---- the loops ----

  method Obfuscate(val: seq<bool>, r: Word, per: nat) returns (rr: Word)
    requires PerByte(per) && |val| == 4 * per
    ensures rr == Obfuscated(val, r, per)
  {
    hide Group, Rank, Or, Shl, Small, LowThree;
    rr := Zero();
    var b, bii := new nat[4 * per], new nat[4 * per];
    var i := 0;
    while i < 4 * per
      invariant i <= 4 * per
      invariant rr == Terms(val, r, i, per)
      invariant i > 0 ==> b[i - 1] == Offset(r, i - 1, per)
      invariant i > 0 ==> Group(i - 1, per) < 4 && bii[i - 1] == Start(r, Group(i - 1, per))
    {
      GroupBound(i, per);
      if Rank(i, per) == 0 {
        b[i] := LowThree(Shr(r, 5 + 8 * Group(i, per))) % 5;
        bii[i] := b[i];
      } else {
        b[i] := (b[i - 1] + 1) % 5;
        bii[i] := bii[i - 1];
      }
      var bi := if val[i] then Shl(One(), b[i]) else Zero();
      bi := Or(bi, Shl(Small(bii[i]), 5));
      rr := Or(rr, Shl(bi, 8 * Group(i, per)));
      i := i + 1;
    }
  }

  method Deobfuscate(x: Word, per: nat) returns (val: seq<bool>)
    requires PerByte(per)
    ensures val == Deobfuscated(x, per)
  {
    hide Group, Rank, Or, Shl, LowBit, LowThree, Shr;
    var r := Zero();
    var b := new nat[4 * per];
    var i := 0;
    while i < 4 * per
      invariant i <= 4 * per
      invariant r == Fetches(x, i, per)
      invariant i > 0 ==> b[i - 1] == Offset(x, i - 1, per)
    {
      GroupBound(i, per);
      if Rank(i, per) == 0 {
        b[i] := LowThree(Shr(x, 5 + 8 * Group(i, per))) % 5;
      } else {
        b[i] := (b[i - 1] + 1) % 5;
      }
      r := Or(r, Shl(LowBit(Shr(x, b[i] + 8 * Group(i, per))), i));
      i := i + 1;
    }
    val := r[..4 * per];
  }

  // ---- the two widths in use ----

  function U8Obfuscate(val: u8, r: u32): (x: u32)
  {
    Widths();
    Number(Obfuscated(Bits(val, 8), Bits(r, 32), 2))
  }

  function U8Deobfuscate(x: u32): (val: u8)
  {
    Widths();
    Number(Deobfuscated(Bits(x, 32), 2))
  }

  function U16Obfuscate(val: u16, r: u32): (x: u32)
  {
    Widths();
    Number(Obfuscated(Bits(val, 16), Bits(r, 32), 4))
  }

  function U16Deobfuscate(x: u32): (val: u16)
  {
    Widths();
    Number(Deobfuscated(Bits(x, 32), 4))
  }

  lemma U8RoundTrip(val: u8, r: u32)
    ensures U8Deobfuscate(U8Obfuscate(val, r)) == val
  {
    hide Obfuscated, Deobfuscated, Bits, Number;
    Widths();
    BitsOfNumber(Obfuscated(Bits(val, 8), Bits(r, 32), 2));
    RoundTrip(Bits(val, 8), Bits(r, 32), 2);
    NumberOfBits(val, 8);
  }

  lemma U16RoundTrip(val: u16, r: u32)
    ensures U16Deobfuscate(U16Obfuscate(val, r)) == val
  {
    hide Obfuscated, Deobfuscated, Bits, Number;
    Widths();
    BitsOfNumber(Obfuscated(Bits(val, 16), Bits(r, 32), 4));
    RoundTrip(Bits(val, 16), Bits(r, 32), 4);
    NumberOfBits(val, 16);
  }
}
