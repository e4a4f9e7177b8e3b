/** XXTEA block cipher on arrays of 32-bit words. */
module Xxtea {

  const DELTA: bv32 := 0x9e3779b9

  /** Addition and subtraction in 32 bits. */
  function Add(a: bv32, b: bv32): bv32 { a + b }

  function Sub(a: bv32, b: bv32): bv32 { a - b }

  type Key = k: seq<bv32> | |k| == 4 witness [0, 0, 0, 0]

  // ---- one word ----

  /** `p & 3`. */
  function LowTwo(p: nat): bv32 { if p % 4 == 0 then 0 else if p % 4 == 1 then 1 else if p % 4 == 2 then 2 else 3 }

  function KeyIndex(p: nat, e: bv32): (i: nat)
    ensures i < 4
  {
    var x := LowTwo(p) ^ e;
    if x == 0 then 0 else if x == 1 then 1 else if x == 2 then 2 else 3
  }

  /** WAWO_XXTEA_MX, with the key word it picks. */
  function MxWith(z: bv32, y: bv32, sum: bv32, k: bv32): bv32
  {
    (((z >> 5) ^ (y << 2)) + ((y >> 3) ^ (z << 4))) ^ ((sum ^ y) + (k ^ z))
  }

  function Mx(z: bv32, y: bv32, sum: bv32, key: Key, p: nat): bv32
  {
    MxWith(z, y, sum, key[KeyIndex(p, (sum >> 2) & 3)])
  }

  function Before(v: seq<bv32>, p: nat): bv32
    requires p < |v|
  {
    if p == 0 then v[|v| - 1] else v[p - 1]
  }

  function After(v: seq<bv32>, p: nat): bv32
    requires p < |v|
  {
    if p == |v| - 1 then v[0] else v[p + 1]
  }

  function Step(v: seq<bv32>, p: nat, sum: bv32, key: Key): (r: seq<bv32>)
    requires p < |v|
    ensures |r| == |v|
  {
    v[p := Add(v[p], Mx(Before(v, p), After(v, p), sum, key, p))]
  }

  function Unstep(v: seq<bv32>, p: nat, sum: bv32, key: Key): (r: seq<bv32>)
    requires p < |v|
    ensures |r| == |v|
  {
    v[p := Sub(v[p], Mx(Before(v, p), After(v, p), sum, key, p))]
  }

  lemma AddSubtract(a: bv32, m: bv32)
    ensures (a + m) - m == a && (a - m) + m == a
  {}

  lemma AddThenSub(a: bv32, m: bv32)
    ensures Sub(Add(a, m), m) == a
  {
    AddSubtract(a, m);
    calc { Sub(Add(a, m), m); Sub(a + m, m); (a + m) - m; a; }
  }

  lemma SubThenAdd(a: bv32, m: bv32)
    ensures Add(Sub(a, m), m) == a
  {
    AddSubtract(a, m);
    calc { Add(Sub(a, m), m); Add(a - m, m); (a - m) + m; a; }
  }

  /** The neighbours of a word are other words when there are at least two: a step is undone. */
  lemma StepUndone(v: seq<bv32>, p: nat, sum: bv32, key: Key)
    requires p < |v| && |v| >= 2
    ensures Unstep(Step(v, p, sum, key), p, sum, key) == v
    ensures Step(Unstep(v, p, sum, key), p, sum, key) == v
  {
    hide Mx, Add, Sub;
    var w, u := Step(v, p, sum, key), Unstep(v, p, sum, key);
    AddThenSub(v[p], Mx(Before(v, p), After(v, p), sum, key, p));
    SubThenAdd(v[p], Mx(Before(v, p), After(v, p), sum, key, p));
    assert Before(w, p) == Before(v, p) == Before(u, p);
    assert After(w, p) == After(v, p) == After(u, p);
    assert w[p := v[p]] == v && u[p := v[p]] == v;
  }

  // ---- rounds ----

  /** The first `k` steps of a round. */
  function EncRound(v: seq<bv32>, k: nat, sum: bv32, key: Key): (r: seq<bv32>)
    requires k <= |v|
    ensures |r| == |v|
  {
    if k == 0 then v else Step(EncRound(v, k - 1, sum, key), k - 1, sum, key)
  }

  /** Undoes the steps `k-1` down to 0. */
  function DecRound(v: seq<bv32>, k: nat, sum: bv32, key: Key): (r: seq<bv32>)
    requires k <= |v|
    ensures |r| == |v|
    decreases k
  {
    if k == 0 then v else DecRound(Unstep(v, k - 1, sum, key), k - 1, sum, key)
  }

  lemma {:induction false} RoundUndone(v: seq<bv32>, k: nat, sum: bv32, key: Key)
    requires k <= |v| && |v| >= 2
    ensures DecRound(EncRound(v, k, sum, key), k, sum, key) == v
    ensures EncRound(DecRound(v, k, sum, key), k, sum, key) == v
    decreases k
  {
    hide Step, Unstep;
    if k > 0 {
      StepUndone(EncRound(v, k - 1, sum, key), k - 1, sum, key);
      RoundUndone(v, k - 1, sum, key);
      var u := Unstep(v, k - 1, sum, key);
      RoundUndone(u, k - 1, sum, key);
      StepUndone(v, k - 1, sum, key);
    }
  }

  /** A number times a word: what the product of unsigned numbers leaves in 32 bits. */
  function Times(n: nat, w: bv32): bv32 { if n == 0 then 0 else Add(Times(n - 1, w), w) }

  function Sum(rounds: nat): bv32 { Times(rounds, DELTA) }

  lemma SumNext(r: nat)
    ensures Sum(r + 1) == Add(Sum(r), DELTA)
    ensures Sum(r) == Sub(Sum(r + 1), DELTA)
  {
    AddThenSub(Sum(r), DELTA);
  }

  function Enc(v: seq<bv32>, rounds: nat, key: Key): (r: seq<bv32>)
    ensures |r| == |v|
  {
    if rounds == 0 then v else EncRound(Enc(v, rounds - 1, key), |v|, Sum(rounds), key)
  }

  function Dec(v: seq<bv32>, rounds: nat, key: Key): (r: seq<bv32>)
    ensures |r| == |v|
    decreases rounds
  {
    if rounds == 0 then v else Dec(DecRound(v, |v|, Sum(rounds), key), rounds - 1, key)
  }

  lemma {:induction false} RoundsUndone(v: seq<bv32>, rounds: nat, key: Key)
    requires |v| >= 2
    ensures Dec(Enc(v, rounds, key), rounds, key) == v
    ensures Enc(Dec(v, rounds, key), rounds, key) == v
    decreases rounds
  {
    hide EncRound, DecRound, Sum;
    if rounds > 0 {
      RoundUndone(Enc(v, rounds - 1, key), |v|, Sum(rounds), key);
      RoundsUndone(v, rounds - 1, key);
      RoundUndone(v, |v|, Sum(rounds), key);
      RoundsUndone(DecRound(v, |v|, Sum(rounds), key), rounds - 1, key);
    }
  }

  function Rounds(n: nat): nat
    requires n > 0
  {
    6 + 52 / n
  }

  /** What the block cipher makes of `n >= 1` words. */
  function Encrypted(v: seq<bv32>, key: Key): (r: seq<bv32>)
    requires v != []
    ensures |r| == |v|
  {
    Enc(v, Rounds(|v|), key)
  }

  function Decrypted(v: seq<bv32>, key: Key): (r: seq<bv32>)
    requires v != []
    ensures |r| == |v|
  {
    Dec(v, Rounds(|v|), key)
  }

  /** Block inverse, both ways, for every array of at least two words and every key. */
  lemma BlockInverse(v: seq<bv32>, key: Key)
    requires |v| >= 2
    ensures Decrypted(Encrypted(v, key), key) == v
    ensures Encrypted(Decrypted(v, key), key) == v
  {
    RoundsUndone(v, Rounds(|v|), key);
  }

  // ---- the loops over the word array ----

  method BteaEncrypt(v: array<bv32>, key: Key)
    requires v.Length > 0
    modifies v
    ensures v[..] == Encrypted(old(v[..]), key)
  {
    hide EncRound, Mx, Add;
    var n := v.Length;
    var rounds := 6 + 52 / n;
    var sum := 0;
    var z := v[n - 1];
    var done := 0;
    while done < rounds
      invariant done <= rounds && sum == Sum(done) && z == v[n - 1]
      invariant v[..] == Enc(old(v[..]), done, key)
    {
      SumNext(done);
      sum := Add(sum, DELTA);
      EncryptRound(v, key, sum, z);
      z := v[n - 1];
      done := done + 1;
    }
  }

  method EncryptRound(v: array<bv32>, key: Key, sum: bv32, last: bv32)
    requires v.Length > 0 && last == v[v.Length - 1]
    modifies v
    ensures v[..] == EncRound(old(v[..]), v.Length, sum, key)
  {
    hide Mx, Add, Sub;
    var n := v.Length;
    var z := last;
    var y;
    var p := 0;
    while p < n - 1
      invariant p <= n - 1 && z == Before(v[..], p)
      invariant v[..] == EncRound(old(v[..]), p, sum, key)
    {
      y := v[p + 1];
      v[p] := Add(v[p], Mx(z, y, sum, key, p));
      z := v[p];
      p := p + 1;
    }
    y := v[0];
    v[n - 1] := Add(v[n - 1], Mx(z, y, sum, key, p));
    z := v[n - 1];
  }

  method BteaDecrypt(v: array<bv32>, key: Key)
    requires v.Length > 0
    modifies v
    ensures v[..] == Decrypted(old(v[..]), key)
  {
    hide DecRound, Mx, Sub;
    var n := v.Length;
    var rounds := 6 + 52 / n;
    var sum := Times(rounds, DELTA);
    var y := v[0];
    while rounds > 0
      invariant 0 <= rounds && sum == Sum(rounds) && y == v[0]
      invariant Dec(v[..], rounds, key) == Decrypted(old(v[..]), key)
    {
      DecryptRound(v, key, sum, y);
      y := v[0];
      SumNext(rounds - 1);
      sum := Sub(sum, DELTA);
      rounds := rounds - 1;
    }
  }

  method DecryptRound(v: array<bv32>, key: Key, sum: bv32, first: bv32)
    requires v.Length > 0 && first == v[0]
    modifies v
    ensures v[..] == DecRound(old(v[..]), v.Length, sum, key)
  {
    hide Mx, Add, Sub;
    var n := v.Length;
    var y := first;
    var z;
    var p := n - 1;
    while p > 0
      invariant 0 <= p <= n - 1 && y == After(v[..], p)
      invariant DecRound(v[..], p + 1, sum, key) == DecRound(old(v[..]), n, sum, key)
    {
      z := v[p - 1];
      v[p] := Sub(v[p], Mx(z, y, sum, key, p));
      y := v[p];
      p := p - 1;
    }
    z := v[n - 1];
    v[0] := Sub(v[0], Mx(z, y, sum, key, p));
    y := v[0];
  }
}
