/** A known answer of the cipher: sixteen bytes under a key whose four words differ. It fixes the order of bytes in a
    word, the key word each step takes, the number of rounds and the length word. */
module XxteaKnown {
  import opened Bytes
  import opened Xxtea
  import opened XxteaBytes

  const DATA: seq<u8> := [0, 1, 2, 3, 4, 5, 6, 7, 8, 9, 10, 11, 12, 13, 14, 15]
  const KEY: seq<u8> := [16, 17, 18, 19, 20, 21, 22, 23, 24, 25, 26, 27, 28, 29, 30, 31]
  const K: Key := [0x13121110, 0x17161514, 0x1b1a1918, 0x1f1e1d1c]

  /** The data words and the length. */
  const PLAIN: seq<bv32> := [0x03020100, 0x07060504, 0x0b0a0908, 0x0f0e0d0c, 0x00000010]

  // ---- the rounds over five words ----

  /** A word after one step. */
  function Stirred(v: bv32, z: bv32, y: bv32, sum: bv32, k: bv32): bv32 { Add(v, MxWith(z, y, sum, k)) }

  /** The key word for step `p` of a round. */
  function Picked(key: Key, p: nat, sum: bv32): bv32 { key[KeyIndex(p, (sum >> 2) & 3)] }

  lemma OneStep(v: seq<bv32>, p: nat, sum: bv32, key: Key)
    requires p < |v|
    ensures Step(v, p, sum, key) == v[p := Stirred(v[p], Before(v, p), After(v, p), sum, Picked(key, p, sum))]
  {}

  lemma StepMore(v: seq<bv32>, p: nat, sum: bv32, key: Key, r: seq<bv32>)
    requires p < |v| && EncRound(v, p, sum, key) == r
    ensures EncRound(v, p + 1, sum, key) == Step(r, p, sum, key)
  {
    hide Step;
  }

  lemma NoStep(v: seq<bv32>, sum: bv32, key: Key)
    ensures EncRound(v, 0, sum, key) == v
  {}

  lemma Step0(a: bv32, b: bv32, c: bv32, d: bv32, e: bv32, x: bv32, sum: bv32, key: Key)
    requires x == Stirred(a, e, b, sum, Picked(key, 0, sum))
    ensures Step([a, b, c, d, e], 0, sum, key) == [x, b, c, d, e]
  {
    OneStep([a, b, c, d, e], 0, sum, key);
    hide Step, Stirred, Picked;
  }

  lemma Step1(a: bv32, b: bv32, c: bv32, d: bv32, e: bv32, x: bv32, sum: bv32, key: Key)
    requires x == Stirred(b, a, c, sum, Picked(key, 1, sum))
    ensures Step([a, b, c, d, e], 1, sum, key) == [a, x, c, d, e]
  {
    OneStep([a, b, c, d, e], 1, sum, key);
    hide Step, Stirred, Picked;
  }

  lemma Step2(a: bv32, b: bv32, c: bv32, d: bv32, e: bv32, x: bv32, sum: bv32, key: Key)
    requires x == Stirred(c, b, d, sum, Picked(key, 2, sum))
    ensures Step([a, b, c, d, e], 2, sum, key) == [a, b, x, d, e]
  {
    OneStep([a, b, c, d, e], 2, sum, key);
    hide Step, Stirred, Picked;
  }

  lemma Step3(a: bv32, b: bv32, c: bv32, d: bv32, e: bv32, x: bv32, sum: bv32, key: Key)
    requires x == Stirred(d, c, e, sum, Picked(key, 3, sum))
    ensures Step([a, b, c, d, e], 3, sum, key) == [a, b, c, x, e]
  {
    OneStep([a, b, c, d, e], 3, sum, key);
    hide Step, Stirred, Picked;
  }

  lemma Step4(a: bv32, b: bv32, c: bv32, d: bv32, e: bv32, x: bv32, sum: bv32, key: Key)
    requires x == Stirred(e, d, a, sum, Picked(key, 4, sum))
    ensures Step([a, b, c, d, e], 4, sum, key) == [a, b, c, d, x]
  {
    OneStep([a, b, c, d, e], 4, sum, key);
    hide Step, Stirred, Picked;
  }

  /** A round over five words, step by step. */
  lemma FiveSteps(a: bv32, b: bv32, c: bv32, d: bv32, e: bv32, a1: bv32, b1: bv32, c1: bv32, d1: bv32, e1: bv32, sum: bv32, key: Key)
    requires a1 == Stirred(a, e, b, sum, Picked(key, 0, sum)) && b1 == Stirred(b, a1, c, sum, Picked(key, 1, sum))
    requires c1 == Stirred(c, b1, d, sum, Picked(key, 2, sum)) && d1 == Stirred(d, c1, e, sum, Picked(key, 3, sum))
    requires e1 == Stirred(e, d1, a1, sum, Picked(key, 4, sum))
    ensures EncRound([a, b, c, d, e], 5, sum, key) == [a1, b1, c1, d1, e1]
  {
    hide Stirred, Picked, Step, EncRound;
    var v := [a, b, c, d, e];
    NoStep(v, sum, key);
    StepMore(v, 0, sum, key, v);
    Step0(a, b, c, d, e, a1, sum, key);
    StepMore(v, 1, sum, key, [a1, b, c, d, e]);
    Step1(a1, b, c, d, e, b1, sum, key);
    StepMore(v, 2, sum, key, [a1, b1, c, d, e]);
    Step2(a1, b1, c, d, e, c1, sum, key);
    StepMore(v, 3, sum, key, [a1, b1, c1, d, e]);
    Step3(a1, b1, c1, d, e, d1, sum, key);
    StepMore(v, 4, sum, key, [a1, b1, c1, d1, e]);
    Step4(a1, b1, c1, d1, e, e1, sum, key);
  }

  lemma Round1()
    ensures EncRound([0x03020100, 0x07060504, 0x0b0a0908, 0x0f0e0d0c, 0x00000010], 5, 0x9e3779b9, K) == [0xabb54175, 0xb1482e8a, 0x87903312, 0x62903a61, 0x453ace10]
  {
    assert Picked(K, 0, 0x9e3779b9) == 0x1b1a1918;
    assert Stirred(0x03020100, 0x00000010, 0x07060504, 0x9e3779b9, 0x1b1a1918) == 0xabb54175;
    assert Picked(K, 1, 0x9e3779b9) == 0x1f1e1d1c;
    assert Stirred(0x07060504, 0xabb54175, 0x0b0a0908, 0x9e3779b9, 0x1f1e1d1c) == 0xb1482e8a;
    assert Picked(K, 2, 0x9e3779b9) == 0x13121110;
    assert Stirred(0x0b0a0908, 0xb1482e8a, 0x0f0e0d0c, 0x9e3779b9, 0x13121110) == 0x87903312;
    assert Picked(K, 3, 0x9e3779b9) == 0x17161514;
    assert Stirred(0x0f0e0d0c, 0x87903312, 0x00000010, 0x9e3779b9, 0x17161514) == 0x62903a61;
    assert Picked(K, 4, 0x9e3779b9) == 0x1b1a1918;
    assert Stirred(0x00000010, 0x62903a61, 0xabb54175, 0x9e3779b9, 0x1b1a1918) == 0x453ace10;
    hide Stirred, Picked, EncRound;
    FiveSteps(0x03020100, 0x07060504, 0x0b0a0908, 0x0f0e0d0c, 0x00000010, 0xabb54175, 0xb1482e8a, 0x87903312, 0x62903a61, 0x453ace10, 0x9e3779b9, K);
  }

  lemma Round2()
    ensures EncRound([0xabb54175, 0xb1482e8a, 0x87903312, 0x62903a61, 0x453ace10], 5, 0x3c6ef372, K) == [0x9b762f46, 0x3bbac410, 0xc39456fd, 0x739792ab, 0xe5007d1a]
  {
    assert Picked(K, 0, 0x3c6ef372) == 0x13121110;
    assert Stirred(0xabb54175, 0x453ace10, 0xb1482e8a, 0x3c6ef372, 0x13121110) == 0x9b762f46;
    assert Picked(K, 1, 0x3c6ef372) == 0x17161514;
    assert Stirred(0xb1482e8a, 0x9b762f46, 0x87903312, 0x3c6ef372, 0x17161514) == 0x3bbac410;
    assert Picked(K, 2, 0x3c6ef372) == 0x1b1a1918;
    assert Stirred(0x87903312, 0x3bbac410, 0x62903a61, 0x3c6ef372, 0x1b1a1918) == 0xc39456fd;
    assert Picked(K, 3, 0x3c6ef372) == 0x1f1e1d1c;
    assert Stirred(0x62903a61, 0xc39456fd, 0x453ace10, 0x3c6ef372, 0x1f1e1d1c) == 0x739792ab;
    assert Picked(K, 4, 0x3c6ef372) == 0x13121110;
    assert Stirred(0x453ace10, 0x739792ab, 0x9b762f46, 0x3c6ef372, 0x13121110) == 0xe5007d1a;
    hide Stirred, Picked, EncRound;
    FiveSteps(0xabb54175, 0xb1482e8a, 0x87903312, 0x62903a61, 0x453ace10, 0x9b762f46, 0x3bbac410, 0xc39456fd, 0x739792ab, 0xe5007d1a, 0x3c6ef372, K);
  }

  lemma Round3()
    ensures EncRound([0x9b762f46, 0x3bbac410, 0xc39456fd, 0x739792ab, 0xe5007d1a], 5, 0xdaa66d2b, K) == [0x397ac13d, 0xdca8f50b, 0xb8e8a36f, 0x3febbf15, 0xba67cdba]
  {
    assert Picked(K, 0, 0xdaa66d2b) == 0x1b1a1918;
    assert Stirred(0x9b762f46, 0xe5007d1a, 0x3bbac410, 0xdaa66d2b, 0x1b1a1918) == 0x397ac13d;
    assert Picked(K, 1, 0xdaa66d2b) == 0x1f1e1d1c;
    assert Stirred(0x3bbac410, 0x397ac13d, 0xc39456fd, 0xdaa66d2b, 0x1f1e1d1c) == 0xdca8f50b;
    assert Picked(K, 2, 0xdaa66d2b) == 0x13121110;
    assert Stirred(0xc39456fd, 0xdca8f50b, 0x739792ab, 0xdaa66d2b, 0x13121110) == 0xb8e8a36f;
    assert Picked(K, 3, 0xdaa66d2b) == 0x17161514;
    assert Stirred(0x739792ab, 0xb8e8a36f, 0xe5007d1a, 0xdaa66d2b, 0x17161514) == 0x3febbf15;
    assert Picked(K, 4, 0xdaa66d2b) == 0x1b1a1918;
    assert Stirred(0xe5007d1a, 0x3febbf15, 0x397ac13d, 0xdaa66d2b, 0x1b1a1918) == 0xba67cdba;
    hide Stirred, Picked, EncRound;
    FiveSteps(0x9b762f46, 0x3bbac410, 0xc39456fd, 0x739792ab, 0xe5007d1a, 0x397ac13d, 0xdca8f50b, 0xb8e8a36f, 0x3febbf15, 0xba67cdba, 0xdaa66d2b, K);
  }

  lemma Round4()
    ensures EncRound([0x397ac13d, 0xdca8f50b, 0xb8e8a36f, 0x3febbf15, 0xba67cdba], 5, 0x78dde6e4, K) == [0x9e37051c, 0x734317e1, 0x3c7c2da2, 0x93165a19, 0xae74a290]
  {
    assert Picked(K, 0, 0x78dde6e4) == 0x17161514;
    assert Stirred(0x397ac13d, 0xba67cdba, 0xdca8f50b, 0x78dde6e4, 0x17161514) == 0x9e37051c;
    assert Picked(K, 1, 0x78dde6e4) == 0x13121110;
    assert Stirred(0xdca8f50b, 0x9e37051c, 0xb8e8a36f, 0x78dde6e4, 0x13121110) == 0x734317e1;
    assert Picked(K, 2, 0x78dde6e4) == 0x1f1e1d1c;
    assert Stirred(0xb8e8a36f, 0x734317e1, 0x3febbf15, 0x78dde6e4, 0x1f1e1d1c) == 0x3c7c2da2;
    assert Picked(K, 3, 0x78dde6e4) == 0x1b1a1918;
    assert Stirred(0x3febbf15, 0x3c7c2da2, 0xba67cdba, 0x78dde6e4, 0x1b1a1918) == 0x93165a19;
    assert Picked(K, 4, 0x78dde6e4) == 0x17161514;
    assert Stirred(0xba67cdba, 0x93165a19, 0x9e37051c, 0x78dde6e4, 0x17161514) == 0xae74a290;
    hide Stirred, Picked, EncRound;
    FiveSteps(0x397ac13d, 0xdca8f50b, 0xb8e8a36f, 0x3febbf15, 0xba67cdba, 0x9e37051c, 0x734317e1, 0x3c7c2da2, 0x93165a19, 0xae74a290, 0x78dde6e4, K);
  }

  lemma Round5()
    ensures EncRound([0x9e37051c, 0x734317e1, 0x3c7c2da2, 0x93165a19, 0xae74a290], 5, 0x1715609d, K) == [0x429a76a0, 0x1a27ffe7, 0xaa0cd75b, 0x961ca09d, 0x5557f7c6]
  {
    assert Picked(K, 0, 0x1715609d) == 0x1f1e1d1c;
    assert Stirred(0x9e37051c, 0xae74a290, 0x734317e1, 0x1715609d, 0x1f1e1d1c) == 0x429a76a0;
    assert Picked(K, 1, 0x1715609d) == 0x1b1a1918;
    assert Stirred(0x734317e1, 0x429a76a0, 0x3c7c2da2, 0x1715609d, 0x1b1a1918) == 0x1a27ffe7;
    assert Picked(K, 2, 0x1715609d) == 0x17161514;
    assert Stirred(0x3c7c2da2, 0x1a27ffe7, 0x93165a19, 0x1715609d, 0x17161514) == 0xaa0cd75b;
    assert Picked(K, 3, 0x1715609d) == 0x13121110;
    assert Stirred(0x93165a19, 0xaa0cd75b, 0xae74a290, 0x1715609d, 0x13121110) == 0x961ca09d;
    assert Picked(K, 4, 0x1715609d) == 0x1f1e1d1c;
    assert Stirred(0xae74a290, 0x961ca09d, 0x429a76a0, 0x1715609d, 0x1f1e1d1c) == 0x5557f7c6;
    hide Stirred, Picked, EncRound;
    FiveSteps(0x9e37051c, 0x734317e1, 0x3c7c2da2, 0x93165a19, 0xae74a290, 0x429a76a0, 0x1a27ffe7, 0xaa0cd75b, 0x961ca09d, 0x5557f7c6, 0x1715609d, K);
  }

  lemma Round6()
    ensures EncRound([0x429a76a0, 0x1a27ffe7, 0xaa0cd75b, 0x961ca09d, 0x5557f7c6], 5, 0xb54cda56, K) == [0x747841dd, 0x93247b2e, 0x7cf1ffb8, 0xea86e30a, 0x18abf074]
  {
    assert Picked(K, 0, 0xb54cda56) == 0x17161514;
    assert Stirred(0x429a76a0, 0x5557f7c6, 0x1a27ffe7, 0xb54cda56, 0x17161514) == 0x747841dd;
    assert Picked(K, 1, 0xb54cda56) == 0x13121110;
    assert Stirred(0x1a27ffe7, 0x747841dd, 0xaa0cd75b, 0xb54cda56, 0x13121110) == 0x93247b2e;
    assert Picked(K, 2, 0xb54cda56) == 0x1f1e1d1c;
    assert Stirred(0xaa0cd75b, 0x93247b2e, 0x961ca09d, 0xb54cda56, 0x1f1e1d1c) == 0x7cf1ffb8;
    assert Picked(K, 3, 0xb54cda56) == 0x1b1a1918;
    assert Stirred(0x961ca09d, 0x7cf1ffb8, 0x5557f7c6, 0xb54cda56, 0x1b1a1918) == 0xea86e30a;
    assert Picked(K, 4, 0xb54cda56) == 0x17161514;
    assert Stirred(0x5557f7c6, 0xea86e30a, 0x747841dd, 0xb54cda56, 0x17161514) == 0x18abf074;
    hide Stirred, Picked, EncRound;
    FiveSteps(0x429a76a0, 0x1a27ffe7, 0xaa0cd75b, 0x961ca09d, 0x5557f7c6, 0x747841dd, 0x93247b2e, 0x7cf1ffb8, 0xea86e30a, 0x18abf074, 0xb54cda56, K);
  }

  lemma Round7()
    ensures EncRound([0x747841dd, 0x93247b2e, 0x7cf1ffb8, 0xea86e30a, 0x18abf074], 5, 0x5384540f, K) == [0xa1de69c6, 0x76a028fe, 0xb8aa13d7, 0xf2805698, 0x7b80b39d]
  {
    assert Picked(K, 0, 0x5384540f) == 0x1f1e1d1c;
    assert Stirred(0x747841dd, 0x18abf074, 0x93247b2e, 0x5384540f, 0x1f1e1d1c) == 0xa1de69c6;
    assert Picked(K, 1, 0x5384540f) == 0x1b1a1918;
    assert Stirred(0x93247b2e, 0xa1de69c6, 0x7cf1ffb8, 0x5384540f, 0x1b1a1918) == 0x76a028fe;
    assert Picked(K, 2, 0x5384540f) == 0x17161514;
    assert Stirred(0x7cf1ffb8, 0x76a028fe, 0xea86e30a, 0x5384540f, 0x17161514) == 0xb8aa13d7;
    assert Picked(K, 3, 0x5384540f) == 0x13121110;
    assert Stirred(0xea86e30a, 0xb8aa13d7, 0x18abf074, 0x5384540f, 0x13121110) == 0xf2805698;
    assert Picked(K, 4, 0x5384540f) == 0x1f1e1d1c;
    assert Stirred(0x18abf074, 0xf2805698, 0xa1de69c6, 0x5384540f, 0x1f1e1d1c) == 0x7b80b39d;
    hide Stirred, Picked, EncRound;
    FiveSteps(0x747841dd, 0x93247b2e, 0x7cf1ffb8, 0xea86e30a, 0x18abf074, 0xa1de69c6, 0x76a028fe, 0xb8aa13d7, 0xf2805698, 0x7b80b39d, 0x5384540f, K);
  }

  lemma Round8()
    ensures EncRound([0xa1de69c6, 0x76a028fe, 0xb8aa13d7, 0xf2805698, 0x7b80b39d], 5, 0xf1bbcdc8, K) == [0x196bd64e, 0xa22cbaf7, 0x787bb644, 0x81a5faf4, 0x741b66a7]
  {
    assert Picked(K, 0, 0xf1bbcdc8) == 0x1b1a1918;
    assert Stirred(0xa1de69c6, 0x7b80b39d, 0x76a028fe, 0xf1bbcdc8, 0x1b1a1918) == 0x196bd64e;
    assert Picked(K, 1, 0xf1bbcdc8) == 0x1f1e1d1c;
    assert Stirred(0x76a028fe, 0x196bd64e, 0xb8aa13d7, 0xf1bbcdc8, 0x1f1e1d1c) == 0xa22cbaf7;
    assert Picked(K, 2, 0xf1bbcdc8) == 0x13121110;
    assert Stirred(0xb8aa13d7, 0xa22cbaf7, 0xf2805698, 0xf1bbcdc8, 0x13121110) == 0x787bb644;
    assert Picked(K, 3, 0xf1bbcdc8) == 0x17161514;
    assert Stirred(0xf2805698, 0x787bb644, 0x7b80b39d, 0xf1bbcdc8, 0x17161514) == 0x81a5faf4;
    assert Picked(K, 4, 0xf1bbcdc8) == 0x1b1a1918;
    assert Stirred(0x7b80b39d, 0x81a5faf4, 0x196bd64e, 0xf1bbcdc8, 0x1b1a1918) == 0x741b66a7;
    hide Stirred, Picked, EncRound;
    FiveSteps(0xa1de69c6, 0x76a028fe, 0xb8aa13d7, 0xf2805698, 0x7b80b39d, 0x196bd64e, 0xa22cbaf7, 0x787bb644, 0x81a5faf4, 0x741b66a7, 0xf1bbcdc8, K);
  }

  lemma Round9()
    ensures EncRound([0x196bd64e, 0xa22cbaf7, 0x787bb644, 0x81a5faf4, 0x741b66a7], 5, 0x8ff34781, K) == [0x8f5b3188, 0x11b3337c, 0x8259d374, 0xe8583b09, 0xa97fe562]
  {
    assert Picked(K, 0, 0x8ff34781) == 0x13121110;
    assert Stirred(0x196bd64e, 0x741b66a7, 0xa22cbaf7, 0x8ff34781, 0x13121110) == 0x8f5b3188;
    assert Picked(K, 1, 0x8ff34781) == 0x17161514;
    assert Stirred(0xa22cbaf7, 0x8f5b3188, 0x787bb644, 0x8ff34781, 0x17161514) == 0x11b3337c;
    assert Picked(K, 2, 0x8ff34781) == 0x1b1a1918;
    assert Stirred(0x787bb644, 0x11b3337c, 0x81a5faf4, 0x8ff34781, 0x1b1a1918) == 0x8259d374;
    assert Picked(K, 3, 0x8ff34781) == 0x1f1e1d1c;
    assert Stirred(0x81a5faf4, 0x8259d374, 0x741b66a7, 0x8ff34781, 0x1f1e1d1c) == 0xe8583b09;
    assert Picked(K, 4, 0x8ff34781) == 0x13121110;
    assert Stirred(0x741b66a7, 0xe8583b09, 0x8f5b3188, 0x8ff34781, 0x13121110) == 0xa97fe562;
    hide Stirred, Picked, EncRound;
    FiveSteps(0x196bd64e, 0xa22cbaf7, 0x787bb644, 0x81a5faf4, 0x741b66a7, 0x8f5b3188, 0x11b3337c, 0x8259d374, 0xe8583b09, 0xa97fe562, 0x8ff34781, K);
  }

  lemma Round10()
    ensures EncRound([0x8f5b3188, 0x11b3337c, 0x8259d374, 0xe8583b09, 0xa97fe562], 5, 0x2e2ac13a, K) == [0xb80bbf72, 0xdfd29d41, 0x974c9e2f, 0xecdbdb4f, 0xf9678c11]
  {
    assert Picked(K, 0, 0x2e2ac13a) == 0x1b1a1918;
    assert Stirred(0x8f5b3188, 0xa97fe562, 0x11b3337c, 0x2e2ac13a, 0x1b1a1918) == 0xb80bbf72;
    assert Picked(K, 1, 0x2e2ac13a) == 0x1f1e1d1c;
    assert Stirred(0x11b3337c, 0xb80bbf72, 0x8259d374, 0x2e2ac13a, 0x1f1e1d1c) == 0xdfd29d41;
    assert Picked(K, 2, 0x2e2ac13a) == 0x13121110;
    assert Stirred(0x8259d374, 0xdfd29d41, 0xe8583b09, 0x2e2ac13a, 0x13121110) == 0x974c9e2f;
    assert Picked(K, 3, 0x2e2ac13a) == 0x17161514;
    assert Stirred(0xe8583b09, 0x974c9e2f, 0xa97fe562, 0x2e2ac13a, 0x17161514) == 0xecdbdb4f;
    assert Picked(K, 4, 0x2e2ac13a) == 0x1b1a1918;
    assert Stirred(0xa97fe562, 0xecdbdb4f, 0xb80bbf72, 0x2e2ac13a, 0x1b1a1918) == 0xf9678c11;
    hide Stirred, Picked, EncRound;
    FiveSteps(0x8f5b3188, 0x11b3337c, 0x8259d374, 0xe8583b09, 0xa97fe562, 0xb80bbf72, 0xdfd29d41, 0x974c9e2f, 0xecdbdb4f, 0xf9678c11, 0x2e2ac13a, K);
  }

  lemma Round11()
    ensures EncRound([0xb80bbf72, 0xdfd29d41, 0x974c9e2f, 0xecdbdb4f, 0xf9678c11], 5, 0xcc623af3, K) == [0xb0315821, 0x48b89384, 0xcaad1ec0, 0x804ca7d9, 0xd188d1e6]
  {
    assert Picked(K, 0, 0xcc623af3) == 0x13121110;
    assert Stirred(0xb80bbf72, 0xf9678c11, 0xdfd29d41, 0xcc623af3, 0x13121110) == 0xb0315821;
    assert Picked(K, 1, 0xcc623af3) == 0x17161514;
    assert Stirred(0xdfd29d41, 0xb0315821, 0x974c9e2f, 0xcc623af3, 0x17161514) == 0x48b89384;
    assert Picked(K, 2, 0xcc623af3) == 0x1b1a1918;
    assert Stirred(0x974c9e2f, 0x48b89384, 0xecdbdb4f, 0xcc623af3, 0x1b1a1918) == 0xcaad1ec0;
    assert Picked(K, 3, 0xcc623af3) == 0x1f1e1d1c;
    assert Stirred(0xecdbdb4f, 0xcaad1ec0, 0xf9678c11, 0xcc623af3, 0x1f1e1d1c) == 0x804ca7d9;
    assert Picked(K, 4, 0xcc623af3) == 0x13121110;
    assert Stirred(0xf9678c11, 0x804ca7d9, 0xb0315821, 0xcc623af3, 0x13121110) == 0xd188d1e6;
    hide Stirred, Picked, EncRound;
    FiveSteps(0xb80bbf72, 0xdfd29d41, 0x974c9e2f, 0xecdbdb4f, 0xf9678c11, 0xb0315821, 0x48b89384, 0xcaad1ec0, 0x804ca7d9, 0xd188d1e6, 0xcc623af3, K);
  }

  lemma Round12()
    ensures EncRound([0xb0315821, 0x48b89384, 0xcaad1ec0, 0x804ca7d9, 0xd188d1e6], 5, 0x6a99b4ac, K) == [0x76f138ae, 0xda0e6b63, 0xd9ecbda6, 0xc44398aa, 0xb0918f70]
  {
    assert Picked(K, 0, 0x6a99b4ac) == 0x1f1e1d1c;
    assert Stirred(0xb0315821, 0xd188d1e6, 0x48b89384, 0x6a99b4ac, 0x1f1e1d1c) == 0x76f138ae;
    assert Picked(K, 1, 0x6a99b4ac) == 0x1b1a1918;
    assert Stirred(0x48b89384, 0x76f138ae, 0xcaad1ec0, 0x6a99b4ac, 0x1b1a1918) == 0xda0e6b63;
    assert Picked(K, 2, 0x6a99b4ac) == 0x17161514;
    assert Stirred(0xcaad1ec0, 0xda0e6b63, 0x804ca7d9, 0x6a99b4ac, 0x17161514) == 0xd9ecbda6;
    assert Picked(K, 3, 0x6a99b4ac) == 0x13121110;
    assert Stirred(0x804ca7d9, 0xd9ecbda6, 0xd188d1e6, 0x6a99b4ac, 0x13121110) == 0xc44398aa;
    assert Picked(K, 4, 0x6a99b4ac) == 0x1f1e1d1c;
    assert Stirred(0xd188d1e6, 0xc44398aa, 0x76f138ae, 0x6a99b4ac, 0x1f1e1d1c) == 0xb0918f70;
    hide Stirred, Picked, EncRound;
    FiveSteps(0xb0315821, 0x48b89384, 0xcaad1ec0, 0x804ca7d9, 0xd188d1e6, 0x76f138ae, 0xda0e6b63, 0xd9ecbda6, 0xc44398aa, 0xb0918f70, 0x6a99b4ac, K);
  }

  lemma Round13()
    ensures EncRound([0x76f138ae, 0xda0e6b63, 0xd9ecbda6, 0xc44398aa, 0xb0918f70], 5, 0x08d12e65, K) == [0x7161bbb7, 0x1cdf81c6, 0x10fa1b58, 0xdc996b87, 0x7eee3053]
  {
    assert Picked(K, 0, 0x08d12e65) == 0x17161514;
    assert Stirred(0x76f138ae, 0xb0918f70, 0xda0e6b63, 0x08d12e65, 0x17161514) == 0x7161bbb7;
    assert Picked(K, 1, 0x08d12e65) == 0x13121110;
    assert Stirred(0xda0e6b63, 0x7161bbb7, 0xd9ecbda6, 0x08d12e65, 0x13121110) == 0x1cdf81c6;
    assert Picked(K, 2, 0x08d12e65) == 0x1f1e1d1c;
    assert Stirred(0xd9ecbda6, 0x1cdf81c6, 0xc44398aa, 0x08d12e65, 0x1f1e1d1c) == 0x10fa1b58;
    assert Picked(K, 3, 0x08d12e65) == 0x1b1a1918;
    assert Stirred(0xc44398aa, 0x10fa1b58, 0xb0918f70, 0x08d12e65, 0x1b1a1918) == 0xdc996b87;
    assert Picked(K, 4, 0x08d12e65) == 0x17161514;
    assert Stirred(0xb0918f70, 0xdc996b87, 0x7161bbb7, 0x08d12e65, 0x17161514) == 0x7eee3053;
    hide Stirred, Picked, EncRound;
    FiveSteps(0x76f138ae, 0xda0e6b63, 0xd9ecbda6, 0xc44398aa, 0xb0918f70, 0x7161bbb7, 0x1cdf81c6, 0x10fa1b58, 0xdc996b87, 0x7eee3053, 0x08d12e65, K);
  }

  lemma Round14()
    ensures EncRound([0x7161bbb7, 0x1cdf81c6, 0x10fa1b58, 0xdc996b87, 0x7eee3053], 5, 0xa708a81e, K) == [0xb526f83c, 0x0d7d10ec, 0xbca6bf32, 0x2a28db37, 0x4d7f3540]
  {
    assert Picked(K, 0, 0xa708a81e) == 0x1f1e1d1c;
    assert Stirred(0x7161bbb7, 0x7eee3053, 0x1cdf81c6, 0xa708a81e, 0x1f1e1d1c) == 0xb526f83c;
    assert Picked(K, 1, 0xa708a81e) == 0x1b1a1918;
    assert Stirred(0x1cdf81c6, 0xb526f83c, 0x10fa1b58, 0xa708a81e, 0x1b1a1918) == 0x0d7d10ec;
    assert Picked(K, 2, 0xa708a81e) == 0x17161514;
    assert Stirred(0x10fa1b58, 0x0d7d10ec, 0xdc996b87, 0xa708a81e, 0x17161514) == 0xbca6bf32;
    assert Picked(K, 3, 0xa708a81e) == 0x13121110;
    assert Stirred(0xdc996b87, 0xbca6bf32, 0x7eee3053, 0xa708a81e, 0x13121110) == 0x2a28db37;
    assert Picked(K, 4, 0xa708a81e) == 0x1f1e1d1c;
    assert Stirred(0x7eee3053, 0x2a28db37, 0xb526f83c, 0xa708a81e, 0x1f1e1d1c) == 0x4d7f3540;
    hide Stirred, Picked, EncRound;
    FiveSteps(0x7161bbb7, 0x1cdf81c6, 0x10fa1b58, 0xdc996b87, 0x7eee3053, 0xb526f83c, 0x0d7d10ec, 0xbca6bf32, 0x2a28db37, 0x4d7f3540, 0xa708a81e, K);
  }

  lemma Round15()
    ensures EncRound([0xb526f83c, 0x0d7d10ec, 0xbca6bf32, 0x2a28db37, 0x4d7f3540], 5, 0x454021d7, K) == [0x6481d9f4, 0x2daf6e50, 0xe83f376a, 0x70a6db01, 0x5e8c4f4e]
  {
    assert Picked(K, 0, 0x454021d7) == 0x17161514;
    assert Stirred(0xb526f83c, 0x4d7f3540, 0x0d7d10ec, 0x454021d7, 0x17161514) == 0x6481d9f4;
    assert Picked(K, 1, 0x454021d7) == 0x13121110;
    assert Stirred(0x0d7d10ec, 0x6481d9f4, 0xbca6bf32, 0x454021d7, 0x13121110) == 0x2daf6e50;
    assert Picked(K, 2, 0x454021d7) == 0x1f1e1d1c;
    assert Stirred(0xbca6bf32, 0x2daf6e50, 0x2a28db37, 0x454021d7, 0x1f1e1d1c) == 0xe83f376a;
    assert Picked(K, 3, 0x454021d7) == 0x1b1a1918;
    assert Stirred(0x2a28db37, 0xe83f376a, 0x4d7f3540, 0x454021d7, 0x1b1a1918) == 0x70a6db01;
    assert Picked(K, 4, 0x454021d7) == 0x17161514;
    assert Stirred(0x4d7f3540, 0x70a6db01, 0x6481d9f4, 0x454021d7, 0x17161514) == 0x5e8c4f4e;
    hide Stirred, Picked, EncRound;
    FiveSteps(0xb526f83c, 0x0d7d10ec, 0xbca6bf32, 0x2a28db37, 0x4d7f3540, 0x6481d9f4, 0x2daf6e50, 0xe83f376a, 0x70a6db01, 0x5e8c4f4e, 0x454021d7, K);
  }

  lemma Round16()
    ensures EncRound([0x6481d9f4, 0x2daf6e50, 0xe83f376a, 0x70a6db01, 0x5e8c4f4e], 5, 0xe3779b90, K) == [0x224f7a6e, 0xc92c694c, 0xefe32575, 0x4e71ea8c, 0xcec5c331]
  {
    assert Picked(K, 0, 0xe3779b90) == 0x13121110;
    assert Stirred(0x6481d9f4, 0x5e8c4f4e, 0x2daf6e50, 0xe3779b90, 0x13121110) == 0x224f7a6e;
    assert Picked(K, 1, 0xe3779b90) == 0x17161514;
    assert Stirred(0x2daf6e50, 0x224f7a6e, 0xe83f376a, 0xe3779b90, 0x17161514) == 0xc92c694c;
    assert Picked(K, 2, 0xe3779b90) == 0x1b1a1918;
    assert Stirred(0xe83f376a, 0xc92c694c, 0x70a6db01, 0xe3779b90, 0x1b1a1918) == 0xefe32575;
    assert Picked(K, 3, 0xe3779b90) == 0x1f1e1d1c;
    assert Stirred(0x70a6db01, 0xefe32575, 0x5e8c4f4e, 0xe3779b90, 0x1f1e1d1c) == 0x4e71ea8c;
    assert Picked(K, 4, 0xe3779b90) == 0x13121110;
    assert Stirred(0x5e8c4f4e, 0x4e71ea8c, 0x224f7a6e, 0xe3779b90, 0x13121110) == 0xcec5c331;
    hide Stirred, Picked, EncRound;
    FiveSteps(0x6481d9f4, 0x2daf6e50, 0xe83f376a, 0x70a6db01, 0x5e8c4f4e, 0x224f7a6e, 0xc92c694c, 0xefe32575, 0x4e71ea8c, 0xcec5c331, 0xe3779b90, K);
  }

  lemma Sums()
    ensures Add(0x00000000, DELTA) == 0x9e3779b9
    ensures Add(0x9e3779b9, DELTA) == 0x3c6ef372
    ensures Add(0x3c6ef372, DELTA) == 0xdaa66d2b
    ensures Add(0xdaa66d2b, DELTA) == 0x78dde6e4
    ensures Add(0x78dde6e4, DELTA) == 0x1715609d
    ensures Add(0x1715609d, DELTA) == 0xb54cda56
    ensures Add(0xb54cda56, DELTA) == 0x5384540f
    ensures Add(0x5384540f, DELTA) == 0xf1bbcdc8
    ensures Add(0xf1bbcdc8, DELTA) == 0x8ff34781
    ensures Add(0x8ff34781, DELTA) == 0x2e2ac13a
    ensures Add(0x2e2ac13a, DELTA) == 0xcc623af3
    ensures Add(0xcc623af3, DELTA) == 0x6a99b4ac
    ensures Add(0x6a99b4ac, DELTA) == 0x08d12e65
    ensures Add(0x08d12e65, DELTA) == 0xa708a81e
    ensures Add(0xa708a81e, DELTA) == 0x454021d7
    ensures Add(0x454021d7, DELTA) == 0xe3779b90
  {}

  lemma Started(v: seq<bv32>)
    ensures Enc(v, 0, K) == v && Sum(0) == 0
  {}

  lemma RoundMore(v: seq<bv32>, r: nat, before: seq<bv32>, after: seq<bv32>, sum: bv32, more: bv32)
    requires Enc(v, r, K) == before && |v| == 5 && Sum(r) == sum && Add(sum, DELTA) == more && EncRound(before, 5, more, K) == after
    ensures Enc(v, r + 1, K) == after && Sum(r + 1) == more
  {
    SumNext(r);
  }

  lemma Rounds4()
    ensures Enc(PLAIN, 4, K) == [0x9e37051c, 0x734317e1, 0x3c7c2da2, 0x93165a19, 0xae74a290] && Sum(4) == 0x78dde6e4
  {
    hide Enc, EncRound, Sum, Add;
    Started(PLAIN);
    Sums();
    Round1();
    RoundMore(PLAIN, 0, [0x03020100, 0x07060504, 0x0b0a0908, 0x0f0e0d0c, 0x00000010], [0xabb54175, 0xb1482e8a, 0x87903312, 0x62903a61, 0x453ace10], 0x00000000, 0x9e3779b9);
    Round2();
    RoundMore(PLAIN, 1, [0xabb54175, 0xb1482e8a, 0x87903312, 0x62903a61, 0x453ace10], [0x9b762f46, 0x3bbac410, 0xc39456fd, 0x739792ab, 0xe5007d1a], 0x9e3779b9, 0x3c6ef372);
    Round3();
    RoundMore(PLAIN, 2, [0x9b762f46, 0x3bbac410, 0xc39456fd, 0x739792ab, 0xe5007d1a], [0x397ac13d, 0xdca8f50b, 0xb8e8a36f, 0x3febbf15, 0xba67cdba], 0x3c6ef372, 0xdaa66d2b);
    Round4();
    RoundMore(PLAIN, 3, [0x397ac13d, 0xdca8f50b, 0xb8e8a36f, 0x3febbf15, 0xba67cdba], [0x9e37051c, 0x734317e1, 0x3c7c2da2, 0x93165a19, 0xae74a290], 0xdaa66d2b, 0x78dde6e4);
  }

  lemma Rounds8()
    requires Enc(PLAIN, 4, K) == [0x9e37051c, 0x734317e1, 0x3c7c2da2, 0x93165a19, 0xae74a290] && Sum(4) == 0x78dde6e4
    ensures Enc(PLAIN, 8, K) == [0x196bd64e, 0xa22cbaf7, 0x787bb644, 0x81a5faf4, 0x741b66a7] && Sum(8) == 0xf1bbcdc8
  {
    hide Enc, EncRound, Sum, Add;
    Sums();
    Round5();
    RoundMore(PLAIN, 4, [0x9e37051c, 0x734317e1, 0x3c7c2da2, 0x93165a19, 0xae74a290], [0x429a76a0, 0x1a27ffe7, 0xaa0cd75b, 0x961ca09d, 0x5557f7c6], 0x78dde6e4, 0x1715609d);
    Round6();
    RoundMore(PLAIN, 5, [0x429a76a0, 0x1a27ffe7, 0xaa0cd75b, 0x961ca09d, 0x5557f7c6], [0x747841dd, 0x93247b2e, 0x7cf1ffb8, 0xea86e30a, 0x18abf074], 0x1715609d, 0xb54cda56);
    Round7();
    RoundMore(PLAIN, 6, [0x747841dd, 0x93247b2e, 0x7cf1ffb8, 0xea86e30a, 0x18abf074], [0xa1de69c6, 0x76a028fe, 0xb8aa13d7, 0xf2805698, 0x7b80b39d], 0xb54cda56, 0x5384540f);
    Round8();
    RoundMore(PLAIN, 7, [0xa1de69c6, 0x76a028fe, 0xb8aa13d7, 0xf2805698, 0x7b80b39d], [0x196bd64e, 0xa22cbaf7, 0x787bb644, 0x81a5faf4, 0x741b66a7], 0x5384540f, 0xf1bbcdc8);
  }

  lemma Rounds12()
    requires Enc(PLAIN, 8, K) == [0x196bd64e, 0xa22cbaf7, 0x787bb644, 0x81a5faf4, 0x741b66a7] && Sum(8) == 0xf1bbcdc8
    ensures Enc(PLAIN, 12, K) == [0x76f138ae, 0xda0e6b63, 0xd9ecbda6, 0xc44398aa, 0xb0918f70] && Sum(12) == 0x6a99b4ac
  {
    hide Enc, EncRound, Sum, Add;
    Sums();
    Round9();
    RoundMore(PLAIN, 8, [0x196bd64e, 0xa22cbaf7, 0x787bb644, 0x81a5faf4, 0x741b66a7], [0x8f5b3188, 0x11b3337c, 0x8259d374, 0xe8583b09, 0xa97fe562], 0xf1bbcdc8, 0x8ff34781);
    Round10();
    RoundMore(PLAIN, 9, [0x8f5b3188, 0x11b3337c, 0x8259d374, 0xe8583b09, 0xa97fe562], [0xb80bbf72, 0xdfd29d41, 0x974c9e2f, 0xecdbdb4f, 0xf9678c11], 0x8ff34781, 0x2e2ac13a);
    Round11();
    RoundMore(PLAIN, 10, [0xb80bbf72, 0xdfd29d41, 0x974c9e2f, 0xecdbdb4f, 0xf9678c11], [0xb0315821, 0x48b89384, 0xcaad1ec0, 0x804ca7d9, 0xd188d1e6], 0x2e2ac13a, 0xcc623af3);
    Round12();
    RoundMore(PLAIN, 11, [0xb0315821, 0x48b89384, 0xcaad1ec0, 0x804ca7d9, 0xd188d1e6], [0x76f138ae, 0xda0e6b63, 0xd9ecbda6, 0xc44398aa, 0xb0918f70], 0xcc623af3, 0x6a99b4ac);
  }

  lemma Rounds16()
    requires Enc(PLAIN, 12, K) == [0x76f138ae, 0xda0e6b63, 0xd9ecbda6, 0xc44398aa, 0xb0918f70] && Sum(12) == 0x6a99b4ac
    ensures Enc(PLAIN, 16, K) == [0x224f7a6e, 0xc92c694c, 0xefe32575, 0x4e71ea8c, 0xcec5c331] && Sum(16) == 0xe3779b90
  {
    hide Enc, EncRound, Sum, Add;
    Sums();
    Round13();
    RoundMore(PLAIN, 12, [0x76f138ae, 0xda0e6b63, 0xd9ecbda6, 0xc44398aa, 0xb0918f70], [0x7161bbb7, 0x1cdf81c6, 0x10fa1b58, 0xdc996b87, 0x7eee3053], 0x6a99b4ac, 0x08d12e65);
    Round14();
    RoundMore(PLAIN, 13, [0x7161bbb7, 0x1cdf81c6, 0x10fa1b58, 0xdc996b87, 0x7eee3053], [0xb526f83c, 0x0d7d10ec, 0xbca6bf32, 0x2a28db37, 0x4d7f3540], 0x08d12e65, 0xa708a81e);
    Round15();
    RoundMore(PLAIN, 14, [0xb526f83c, 0x0d7d10ec, 0xbca6bf32, 0x2a28db37, 0x4d7f3540], [0x6481d9f4, 0x2daf6e50, 0xe83f376a, 0x70a6db01, 0x5e8c4f4e], 0xa708a81e, 0x454021d7);
    Round16();
    RoundMore(PLAIN, 15, [0x6481d9f4, 0x2daf6e50, 0xe83f376a, 0x70a6db01, 0x5e8c4f4e], [0x224f7a6e, 0xc92c694c, 0xefe32575, 0x4e71ea8c, 0xcec5c331], 0x454021d7, 0xe3779b90);
  }

  lemma KnownWords()
    ensures Encrypted(PLAIN, K) == [0x224f7a6e, 0xc92c694c, 0xefe32575, 0x4e71ea8c, 0xcec5c331]
  {
    hide Enc, Sum;
    assert Rounds(5) == 16;
    Rounds4();
    Rounds8();
    Rounds12();
    Rounds16();
  }

  // ---- the bytes ----

  function Bit(b: bool, n: nat): nat { if b then n else 0 }

  function Value(w: bv32): nat
  {
    Bit(w & 0x1 != 0, 1) + Bit(w & 0x2 != 0, 2) + Bit(w & 0x4 != 0, 4) + Bit(w & 0x8 != 0, 8)
    + 16 * (Bit(w & 0x10 != 0, 1) + Bit(w & 0x20 != 0, 2) + Bit(w & 0x40 != 0, 4) + Bit(w & 0x80 != 0, 8))
  }

  lemma NumberStep(bits: seq<bool>, i: nat)
    requires i < |bits|
    ensures Number(bits[i..]) == Bit(bits[i], 1) + 2 * Number(bits[i + 1..])
  {
    assert bits[i..][1..] == bits[i + 1..];
  }

  lemma BitScale(b: bool, n: nat)
    ensures Bit(b, n) == n * Bit(b, 1)
  {}

  lemma FourBits(l: seq<bool>, i: nat)
    requires i + 4 <= |l|
    ensures Number(l[i..]) == Bit(l[i], 1) + Bit(l[i + 1], 2) + Bit(l[i + 2], 4) + Bit(l[i + 3], 8) + 16 * Number(l[i + 4..])
  {
    hide Number, Bit, Pow2;
    NumberStep(l, i);
    NumberStep(l, i + 1);
    NumberStep(l, i + 2);
    NumberStep(l, i + 3);
    BitScale(l[i + 1], 2);
    BitScale(l[i + 2], 4);
    BitScale(l[i + 3], 8);
  }

  lemma EightBits(l: seq<bool>)
    requires |l| == 8
    ensures Number(l) == Bit(l[0], 1) + Bit(l[1], 2) + Bit(l[2], 4) + Bit(l[3], 8)
                         + 16 * (Bit(l[4], 1) + Bit(l[5], 2) + Bit(l[6], 4) + Bit(l[7], 8))
  {
    hide Bit, Pow2;
    assert l[0..] == l && Number(l[8..]) == 0;
    FourBits(l, 0);
    FourBits(l, 4);
  }

  /** The low byte of a word is the sum of its bits. */
  lemma NarrowValue(w: bv32)
    ensures Narrow(w) == Value(w)
  {
    hide Number, Bit;
    EightBits(LowBits(w));
  }

  /** A word and its four bytes, least significant first. */
  predicate Splits(w: bv32, b0: u8, b1: u8, b2: u8, b3: u8)
  {
    ByteOf(w, 0) == b0 && ByteOf(w, 1) == b1 && ByteOf(w, 2) == b2 && ByteOf(w, 3) == b3
  }

  lemma SplitsInto(w: bv32, b0: u8, b1: u8, b2: u8, b3: u8)
    requires Value(w) == b0 && Value(w >> 8) == b1 && Value(w >> 16) == b2 && Value(w >> 24) == b3
    ensures Splits(w, b0, b1, b2, b3)
  {
    hide Value, Narrow, ShiftDown;
    Shifts(w);
    NarrowValue(ShiftDown(w, 0));
    NarrowValue(ShiftDown(w, 1));
    NarrowValue(ShiftDown(w, 2));
    NarrowValue(ShiftDown(w, 3));
  }

  lemma Shifts(w: bv32)
    ensures ShiftDown(w, 0) == w && ShiftDown(w, 1) == w >> 8 && ShiftDown(w, 2) == w >> 16 && ShiftDown(w, 3) == w >> 24
  {}

  lemma DataBytes()
    ensures Splits(0x03020100, 0, 1, 2, 3)
    ensures Splits(0x07060504, 4, 5, 6, 7)
  {
    hide Splits;
    SplitsInto(0x03020100, 0, 1, 2, 3);
    SplitsInto(0x07060504, 4, 5, 6, 7);
  }

  lemma MoreDataBytes()
    ensures Splits(0x0b0a0908, 8, 9, 10, 11)
    ensures Splits(0x0f0e0d0c, 12, 13, 14, 15)
    ensures Splits(0x00000010, 16, 0, 0, 0)
  {
    hide Splits;
    SplitsInto(0x0b0a0908, 8, 9, 10, 11);
    SplitsInto(0x0f0e0d0c, 12, 13, 14, 15);
    SplitsInto(0x00000010, 16, 0, 0, 0);
  }

  lemma KeyBytes()
    ensures Splits(0x13121110, 16, 17, 18, 19)
    ensures Splits(0x17161514, 20, 21, 22, 23)
  {
    hide Splits;
    SplitsInto(0x13121110, 16, 17, 18, 19);
    SplitsInto(0x17161514, 20, 21, 22, 23);
  }

  lemma MoreKeyBytes()
    ensures Splits(0x1b1a1918, 24, 25, 26, 27)
    ensures Splits(0x1f1e1d1c, 28, 29, 30, 31)
  {
    hide Splits;
    SplitsInto(0x1b1a1918, 24, 25, 26, 27);
    SplitsInto(0x1f1e1d1c, 28, 29, 30, 31);
  }

  lemma CipherBytes()
    ensures Splits(0x224f7a6e, 110, 122, 79, 34)
    ensures Splits(0xc92c694c, 76, 105, 44, 201)
    ensures Splits(0xefe32575, 117, 37, 227, 239)
  {
    hide Splits;
    SplitsInto(0x224f7a6e, 110, 122, 79, 34);
    SplitsInto(0xc92c694c, 76, 105, 44, 201);
    SplitsInto(0xefe32575, 117, 37, 227, 239);
  }

  lemma MoreCipherBytes()
    ensures Splits(0x4e71ea8c, 140, 234, 113, 78)
    ensures Splits(0xcec5c331, 49, 195, 197, 206)
  {
    hide Splits;
    SplitsInto(0x4e71ea8c, 140, 234, 113, 78);
    SplitsInto(0xcec5c331, 49, 195, 197, 206);
  }

  lemma Packs(bytes: seq<u8>, j: nat, w: bv32)
    requires 4 * j + 4 <= |bytes| && Splits(w, bytes[4 * j], bytes[4 * j + 1], bytes[4 * j + 2], bytes[4 * j + 3])
    ensures WordAt(bytes, j) == w
  {
    DigitsMakeWord(w);
  }

  lemma KnownKey()
    ensures KeyWords(KEY) == K
  {
    hide Splits, WordAt;
    KeyBytes();
    MoreKeyBytes();
    Packs(KEY, 0, K[0]);
    Packs(KEY, 1, K[1]);
    Packs(KEY, 2, K[2]);
    Packs(KEY, 3, K[3]);
  }

  lemma KnownPlain()
    ensures Padded(DATA) == PLAIN
  {
    hide Splits, WordAt, WordOf;
    DataBytes();
    MoreDataBytes();
    Packs(DATA, 0, PLAIN[0]);
    Packs(DATA, 1, PLAIN[1]);
    Packs(DATA, 2, PLAIN[2]);
    Packs(DATA, 3, PLAIN[3]);
    assert WordOf(16) == 0x00000010 by { LengthWord(); }
  }

  lemma LengthWord()
    requires Splits(0x00000010, 16, 0, 0, 0)
    ensures WordOf(16) == 0x00000010
  {
    hide Wide, Joined, ByteOf;
    DigitsMakeWord(0x00000010);
  }

  const CIPHER: seq<u8> := [110, 122, 79, 34, 76, 105, 44, 201, 117, 37, 227, 239, 140, 234, 113, 78, 49, 195, 197, 206]

  lemma BytesOfWord(words: seq<bv32>, j: nat, b0: u8, b1: u8, b2: u8, b3: u8)
    requires j < |words| && Splits(words[j], b0, b1, b2, b3)
    ensures var r := ToBytes(words, 4 * |words|); r[4 * j..4 * j + 4] == [b0, b1, b2, b3]
  {
    hide ByteOf;
  }

  /** Sixteen bytes under a sixteen-byte key, as the published algorithm encrypts them. */
  lemma KnownAnswer()
    ensures Encrypt(DATA, KEY) == CIPHER
  {
    hide Splits, KeyWords, Padded, Encrypted, ToBytes;
    KnownKey();
    KnownPlain();
    KnownWords();
    CipherBytes();
    MoreCipherBytes();
    var words := Encrypted(PLAIN, K);
    var r := ToBytes(words, 20);
    BytesOfWord(words, 0, 110, 122, 79, 34);
    BytesOfWord(words, 1, 76, 105, 44, 201);
    BytesOfWord(words, 2, 117, 37, 227, 239);
    BytesOfWord(words, 3, 140, 234, 113, 78);
    BytesOfWord(words, 4, 49, 195, 197, 206);
    assert r == r[0..4] + r[4..8] + r[8..12] + r[12..16] + r[16..20];
  }
}
