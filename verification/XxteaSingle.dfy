/** XXTEA on a single word: the word is its own neighbour, and decryption does not undo encryption. */
module XxteaSingle {
  import opened Xxtea

  const ZERO: Key := [0, 0, 0, 0]

  /** `Mx` of a word that is its own neighbour, under the zero key. */
  function Churn(v: bv32, sum: bv32): bv32
  {
    (((v >> 5) ^ (v << 2)) + ((v >> 3) ^ (v << 4))) ^ ((sum ^ v) + (0 ^ v))
  }

  /** `n` rounds up, the first under `sum`, and `n` rounds down. */
  function Up(v: bv32, sum: bv32, n: nat): bv32
    decreases n
  {
    if n == 0 then v else Up(v + Churn(v, sum), sum + 0x9e3779b9, n - 1)
  }

  function Down(v: bv32, sum: bv32, n: nat): bv32
    decreases n
  {
    if n == 0 then v else Down(v - Churn(v, sum), sum - 0x9e3779b9, n - 1)
  }

  function Later(sum: bv32, n: nat): bv32
    decreases n
  {
    if n == 0 then sum else Later(sum + 0x9e3779b9, n - 1)
  }

  function Earlier(sum: bv32, n: nat): bv32
    decreases n
  {
    if n == 0 then sum else Earlier(sum - 0x9e3779b9, n - 1)
  }

  lemma {:induction false} UpSplit(v: bv32, sum: bv32, m: nat, n: nat)
    ensures Up(v, sum, m + n) == Up(Up(v, sum, m), Later(sum, m), n)
    decreases m
  {
    hide Churn;
    if m > 0 { UpSplit(v + Churn(v, sum), sum + 0x9e3779b9, m - 1, n); }
  }

  lemma {:induction false} DownSplit(v: bv32, sum: bv32, m: nat, n: nat)
    ensures Down(v, sum, m + n) == Down(Down(v, sum, m), Earlier(sum, m), n)
    decreases m
  {
    hide Churn;
    if m > 0 { DownSplit(v - Churn(v, sum), sum - 0x9e3779b9, m - 1, n); }
  }

  lemma Up5()
    ensures Up(0x00000000, 0x9e3779b9, 5) == 0x07e50a9b && Later(0x9e3779b9, 5) == 0xb54cda56
  {}

  lemma Up10()
    ensures Up(0x07e50a9b, 0xb54cda56, 5) == 0x2ec1b514 && Later(0xb54cda56, 5) == 0xcc623af3
  {}

  lemma Up15()
    ensures Up(0x2ec1b514, 0xcc623af3, 5) == 0x868b2c2a && Later(0xcc623af3, 5) == 0xe3779b90
  {}

  lemma Up20()
    ensures Up(0x868b2c2a, 0xe3779b90, 5) == 0x0485898c && Later(0xe3779b90, 5) == 0xfa8cfc2d
  {}

  lemma Up25()
    ensures Up(0x0485898c, 0xfa8cfc2d, 5) == 0x34b476ab && Later(0xfa8cfc2d, 5) == 0x11a25cca
  {}

  lemma Up30()
    ensures Up(0x34b476ab, 0x11a25cca, 5) == 0xf8bdd7b8 && Later(0x11a25cca, 5) == 0x28b7bd67
  {}

  lemma Up35()
    ensures Up(0xf8bdd7b8, 0x28b7bd67, 5) == 0x19929862 && Later(0x28b7bd67, 5) == 0x3fcd1e04
  {}

  lemma Up40()
    ensures Up(0x19929862, 0x3fcd1e04, 5) == 0xbb8f4573 && Later(0x3fcd1e04, 5) == 0x56e27ea1
  {}

  lemma Up45()
    ensures Up(0xbb8f4573, 0x56e27ea1, 5) == 0xe58c997d && Later(0x56e27ea1, 5) == 0x6df7df3e
  {}

  lemma Up50()
    ensures Up(0xe58c997d, 0x6df7df3e, 5) == 0x6b3a2823 && Later(0x6df7df3e, 5) == 0x850d3fdb
  {}

  lemma Up55()
    ensures Up(0x6b3a2823, 0x850d3fdb, 5) == 0x59d51f03 && Later(0x850d3fdb, 5) == 0x9c22a078
  {}

  lemma Up58()
    ensures Up(0x59d51f03, 0x9c22a078, 3) == 0xacc927b6
  {}

  /** All rounds up. */
  lemma UpAll()
    ensures Up(0x00000000, 0x9e3779b9, 58) == 0xacc927b6
  {
    hide Up, Later;
    Up5();
    Up10();
    Up15();
    Up20();
    Up25();
    Up30();
    Up35();
    Up40();
    Up45();
    Up50();
    Up55();
    Up58();
    UpSplit(0x00000000, 0x9e3779b9, 5, 53);
    UpSplit(0x07e50a9b, 0xb54cda56, 5, 48);
    UpSplit(0x2ec1b514, 0xcc623af3, 5, 43);
    UpSplit(0x868b2c2a, 0xe3779b90, 5, 38);
    UpSplit(0x0485898c, 0xfa8cfc2d, 5, 33);
    UpSplit(0x34b476ab, 0x11a25cca, 5, 28);
    UpSplit(0xf8bdd7b8, 0x28b7bd67, 5, 23);
    UpSplit(0x19929862, 0x3fcd1e04, 5, 18);
    UpSplit(0xbb8f4573, 0x56e27ea1, 5, 13);
    UpSplit(0xe58c997d, 0x6df7df3e, 5, 8);
    UpSplit(0x6b3a2823, 0x850d3fdb, 5, 3);
  }

  lemma Down5()
    ensures Down(0xacc927b6, 0xd89193ea, 5) == 0x282c7a32 && Earlier(0xd89193ea, 5) == 0xc17c334d
  {}

  lemma Down10()
    ensures Down(0x282c7a32, 0xc17c334d, 5) == 0xc134a454 && Earlier(0xc17c334d, 5) == 0xaa66d2b0
  {}

  lemma Down15()
    ensures Down(0xc134a454, 0xaa66d2b0, 5) == 0x1af18fb5 && Earlier(0xaa66d2b0, 5) == 0x93517213
  {}

  lemma Down20()
    ensures Down(0x1af18fb5, 0x93517213, 5) == 0x46b82029 && Earlier(0x93517213, 5) == 0x7c3c1176
  {}

  lemma Down25()
    ensures Down(0x46b82029, 0x7c3c1176, 5) == 0xc1e022d3 && Earlier(0x7c3c1176, 5) == 0x6526b0d9
  {}

  lemma Down30()
    ensures Down(0xc1e022d3, 0x6526b0d9, 5) == 0x52471e47 && Earlier(0x6526b0d9, 5) == 0x4e11503c
  {}

  lemma Down35()
    ensures Down(0x52471e47, 0x4e11503c, 5) == 0xde6e5bd9 && Earlier(0x4e11503c, 5) == 0x36fbef9f
  {}

  lemma Down40()
    ensures Down(0xde6e5bd9, 0x36fbef9f, 5) == 0xdebd545a && Earlier(0x36fbef9f, 5) == 0x1fe68f02
  {}

  lemma Down45()
    ensures Down(0xdebd545a, 0x1fe68f02, 5) == 0xe23a029a && Earlier(0x1fe68f02, 5) == 0x08d12e65
  {}

  lemma Down50()
    ensures Down(0xe23a029a, 0x08d12e65, 5) == 0xdffff9e7 && Earlier(0x08d12e65, 5) == 0xf1bbcdc8
  {}

  lemma Down55()
    ensures Down(0xdffff9e7, 0xf1bbcdc8, 5) == 0xddb860ab && Earlier(0xf1bbcdc8, 5) == 0xdaa66d2b
  {}

  lemma Down58()
    ensures Down(0xddb860ab, 0xdaa66d2b, 3) == 0x9825c7f5
  {}

  /** All rounds down again. */
  lemma DownAll()
    ensures Down(0xacc927b6, 0xd89193ea, 58) == 0x9825c7f5
  {
    hide Down, Earlier;
    Down5();
    Down10();
    Down15();
    Down20();
    Down25();
    Down30();
    Down35();
    Down40();
    Down45();
    Down50();
    Down55();
    Down58();
    DownSplit(0xacc927b6, 0xd89193ea, 5, 53);
    DownSplit(0x282c7a32, 0xc17c334d, 5, 48);
    DownSplit(0xc134a454, 0xaa66d2b0, 5, 43);
    DownSplit(0x1af18fb5, 0x93517213, 5, 38);
    DownSplit(0x46b82029, 0x7c3c1176, 5, 33);
    DownSplit(0xc1e022d3, 0x6526b0d9, 5, 28);
    DownSplit(0x52471e47, 0x4e11503c, 5, 23);
    DownSplit(0xde6e5bd9, 0x36fbef9f, 5, 18);
    DownSplit(0xdebd545a, 0x1fe68f02, 5, 13);
    DownSplit(0xe23a029a, 0x08d12e65, 5, 8);
    DownSplit(0xdffff9e7, 0xf1bbcdc8, 5, 3);
  }

  // ---- the rounds of the cipher ----

  lemma ChurnIsMx(v: bv32, sum: bv32)
    ensures Mx(v, v, sum, ZERO, 0) == Churn(v, sum)
  {
    assert MxWith(v, v, sum, 0) == Churn(v, sum);
    hide MxWith, KeyIndex, Churn;
    assert forall i :: 0 <= i < 4 ==> ZERO[i] == 0;
  }

  lemma OneStep(v: bv32, sum: bv32)
    ensures EncRound([v], 1, sum, ZERO) == [Add(v, Churn(v, sum))]
    ensures DecRound([v], 1, sum, ZERO) == [Sub(v, Churn(v, sum))]
  {
    hide Mx, Churn, Add, Sub;
    ChurnIsMx(v, sum);
    assert EncRound([v], 0, sum, ZERO) == [v];
    assert EncRound([v], 1, sum, ZERO) == Step([v], 0, sum, ZERO);
    assert DecRound([v], 1, sum, ZERO) == DecRound(Unstep([v], 0, sum, ZERO), 0, sum, ZERO) == Unstep([v], 0, sum, ZERO);
  }

  lemma {:induction false} LaterSplit(sum: bv32, m: nat, n: nat)
    ensures Later(sum, m + n) == Later(Later(sum, m), n)
    decreases m
  {
    if m > 0 { LaterSplit(sum + 0x9e3779b9, m - 1, n); }
  }

  lemma LaterOne(s: bv32)
    ensures Later(s, 1) == Add(s, DELTA)
  {
    assert Later(s, 1) == Later(s + 0x9e3779b9, 0);
  }

  lemma UpNone(v: bv32, s: bv32)
    ensures Up(v, s, 0) == v
  {}

  lemma UpOne(v: bv32, s: bv32)
    ensures Up(v, s, 1) == Add(v, Churn(v, s))
  {
    hide Churn;
    assert Up(v, s, 1) == Up(v + Churn(v, s), s + 0x9e3779b9, 0);
  }

  lemma DownNone(v: bv32, s: bv32)
    ensures Down(v, s, 0) == v
  {}

  lemma DownFirst(v: bv32, s: bv32, n: nat)
    requires n > 0
    ensures Down(v, s, n) == Down(Sub(v, Churn(v, s)), Sub(s, DELTA), n - 1)
  {
    hide Churn;
  }

  lemma {:induction false} LaterIsSum(r: nat)
    ensures Later(0x9e3779b9, r) == Sum(r + 1)
  {
    if r == 0 {
      assert Times(1, DELTA) == Add(Times(0, DELTA), DELTA) == 0x9e3779b9;
    } else {
      hide Add;
      var s := Later(0x9e3779b9, r - 1);
      LaterSplit(0x9e3779b9, r - 1, 1);
      LaterOne(s);
      LaterIsSum(r - 1);
      SumNext(r);
    }
  }

  lemma {:induction false} EncIsUp(v: bv32, r: nat)
    ensures Enc([v], r, ZERO) == [Up(v, 0x9e3779b9, r)]
  {
    hide Churn, Sum, Add, Later, Up;
    if r == 0 {
      UpNone(v, 0x9e3779b9);
    } else {
      EncIsUp(v, r - 1);
      var w, s := Up(v, 0x9e3779b9, r - 1), Later(0x9e3779b9, r - 1);
      UpSplit(v, 0x9e3779b9, r - 1, 1);
      UpOne(w, s);
      LaterIsSum(r - 1);
      OneStep(w, s);
    }
  }

  lemma {:induction false} DecIsDown(v: bv32, r: nat)
    ensures Dec([v], r, ZERO) == [Down(v, Sum(r), r)]
    decreases r
  {
    hide Churn, Sum, Sub, Down;
    if r == 0 {
      DownNone(v, Sum(0));
    } else {
      OneStep(v, Sum(r));
      SumNext(r - 1);
      DownFirst(v, Sum(r), r);
      DecIsDown(Sub(v, Churn(v, Sum(r))), r - 1);
    }
  }

  lemma LastSum()
    ensures Sum(58) == 0xd89193ea
  {
    LaterIsSum(57);
    LastLater();
  }

  lemma Last()
    ensures Later(0x9c22a078, 2) == 0xd89193ea
  {}

  lemma LastLater()
    ensures Later(0x9e3779b9, 57) == 0xd89193ea
  {
    Last();
    hide Later, Up;
    Up5();
    Up10();
    Up15();
    Up20();
    Up25();
    Up30();
    Up35();
    Up40();
    Up45();
    Up50();
    Up55();
    LaterSplit(0x9e3779b9, 5, 52);
    LaterSplit(0xb54cda56, 5, 47);
    LaterSplit(0xcc623af3, 5, 42);
    LaterSplit(0xe3779b90, 5, 37);
    LaterSplit(0xfa8cfc2d, 5, 32);
    LaterSplit(0x11a25cca, 5, 27);
    LaterSplit(0x28b7bd67, 5, 22);
    LaterSplit(0x3fcd1e04, 5, 17);
    LaterSplit(0x56e27ea1, 5, 12);
    LaterSplit(0x6df7df3e, 5, 7);
    LaterSplit(0x850d3fdb, 5, 2);
  }

  // ---- the cipher ----

  /** The word zero under the zero key does not come back. */
  lemma SingleWordNotUndone()
    ensures Decrypted(Encrypted([0], ZERO), ZERO) == [0x9825c7f5] != [0]
  {
    hide Up, Down, Sum;
    EncIsUp(0, 58);
    UpAll();
    DecIsDown(0xacc927b6, 58);
    LastSum();
    DownAll();
  }

  /** The inverse loops undo the loops for all blocks of `n` words, under every key, if and only if there are two
      words or more. */
  lemma UndoneIffTwoWords(n: nat)
    requires n >= 1
    ensures (forall v: seq<bv32>, key: Key :: |v| == n ==> Decrypted(Encrypted(v, key), key) == v) <==> n >= 2
  {
    hide Encrypted, Decrypted;
    if n >= 2 {
      forall v: seq<bv32>, key: Key | |v| == n ensures Decrypted(Encrypted(v, key), key) == v { BlockInverse(v, key); }
    } else {
      SingleWordNotUndone();
      assert |[0 as bv32]| == n;
    }
  }
}
