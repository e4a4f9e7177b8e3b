/** 64-bit modular arithmetic without overflow, and the key exchange on it. */
module DiffieHellman {
  import opened Arithmetic

  /** A machine word: every operation on it is checked to stay inside 64 bits. */
  newtype word = x: int | 0 <= x < 0x1_0000_0000_0000_0000

  const DH_Q: word := 0xffff_ffff_ffff_ffc5
  const DH_G: word := 5

  function Pow(a: nat, e: nat): nat { if e == 0 then 1 else a * Pow(a, e - 1) }

  // ---- facts about powers ----

  lemma MulAssociative(a: nat, b: nat, c: nat)
    ensures a * (b * c) == (a * b) * c
  {}

  lemma {:induction false} PowAdd(a: nat, m: nat, n: nat)
    ensures Pow(a, m + n) == Pow(a, m) * Pow(a, n)
  {
    if m > 0 {
      PowAdd(a, m - 1, n);
      MulAssociative(a, Pow(a, m - 1), Pow(a, n));
    }
  }

  lemma {:induction false} PowMul(a: nat, m: nat, n: nat)
    ensures Pow(Pow(a, m), n) == Pow(a, m * n)
  {
    if n > 0 {
      PowMul(a, m, n - 1);
      PowAdd(a, m, m * (n - 1));
      assert m + m * (n - 1) == m * n;
    }
  }

  lemma {:induction false} PowMod(a: nat, e: nat, q: nat)
    requires q > 0
    ensures Pow(a % q, e) % q == Pow(a, e) % q
  {
    if e > 0 {
      PowMod(a, e - 1, q);
      var p, r := Pow(a, e - 1), Pow(a % q, e - 1);
      MulMod(r, a % q, q);
      MulMod(p, a % q, q);
      MulMod(a, p, q);
      assert (a % q) * r % q == (r % q) * (a % q) % q;
      assert (p % q) * (a % q) % q == p * (a % q) % q;
      assert p * (a % q) % q == p * a % q;
    }
  }

  // ---- Q_mulmod ----

  lemma Doubling(a: nat, b: nat)
    ensures b % 2 == 0 ==> a * b == (a + a) * (b / 2)
    ensures b % 2 == 1 ==> a * b == a + (a + a) * (b / 2)
  {
    var h := b / 2;
    assert b == 2 * h + b % 2;
    assert a * (2 * h) == (a + a) * h;
    assert a * (2 * h + 1) == a * (2 * h) + a;
  }

  /** One turn of the loop: what is left to add does not change modulo `q`. */
  lemma MulModTurn(rt: int, a: nat, a': nat, rt': int, b: nat, q: nat)
    requires q > 0
    requires a' == a + a || a' == a + a - q
    requires rt' == (if b % 2 == 1 then rt + a else rt) || (b % 2 == 1 && rt' == rt + a - q)
    ensures (rt' + a' * (b / 2)) % q == (rt + a * b) % q
  {
    var h := b / 2;
    Doubling(a, b);
    var base := (if b % 2 == 1 then rt + a else rt) + (a + a) * h;
    assert base == rt + a * b;
    var i := if a' == a + a then 0 else -h;
    assert a' * h == (a + a) * h + q * i by {
      if a' != a + a { assert (a + a - q) * h == (a + a) * h - q * h; }
    }
    var j := if rt' == (if b % 2 == 1 then rt + a else rt) then 0 else -1;
    assert q * (i + j) == q * i + q * j;
    assert rt' + a' * h == base + q * (i + j);
    ModShift(base, q, i + j);
  }

  /** The product modulo `q` for `a <= q`; no step leaves 64 bits. */
  method QMulmod(a: word, b: word, q: word) returns (rt: word)
    requires 0 < q && a <= q
    ensures rt as int == (a as int * b as int) % q as int && rt < q
  {
    rt := 0;
    var a, b := a, b;
    ghost var total := a as int * b as int;
    while b != 0
      invariant a <= q && rt < q
      invariant (rt as int + a as int * b as int) % q as int == total % q as int
      decreases b
    {
      ghost var rt0, a0 := rt as int, a as int;
      var qA := q - a;
      if b % 2 == 1 {
        if rt >= qA { rt := rt - qA; } else { rt := rt + a; }
      }
      if a >= qA { a := a - qA; } else { a := a + a; }
      MulModTurn(rt0, a0, a as int, rt as int, b as int, q as int);
      b := b / 2;
    }
    DivModUnique(rt as int, q as int, 0, rt as int);
  }

  // ---- Q_powmod ----

  /** The exponent the loop uses: one subtraction of the modulus, no reduction. */
  function Exponent(b: nat, q: nat): nat { if b > q then b - q else b }

  /** Factors with the same remainder make products with the same remainder. */
  lemma MulSame(s: nat, t: nat, c: nat, q: nat)
    requires q > 0 && s % q == t % q
    ensures c * s % q == c * t % q
  {
    MulMod(s, c, q);
    MulMod(t, c, q);
  }

  lemma PowSquared(a: nat, h: nat, q: nat)
    requires q > 0
    ensures Pow(a * a % q, h) % q == Pow(a, 2 * h) % q
  {
    PowMul(a, 2, h);
    assert Pow(a, 2) == a * a by { assert Pow(a, 2) == a * Pow(a, 1) && Pow(a, 1) == a * Pow(a, 0); }
    PowMod(a * a, h, q);
  }

  lemma SquareStep(rt: nat, a: nat, b: nat, q: nat)
    requires q > 0
    ensures b % 2 == 0 ==> rt * Pow(a * a % q, b / 2) % q == rt * Pow(a, b) % q
    ensures b % 2 == 1 ==> (rt * a % q) * Pow(a * a % q, b / 2) % q == rt * Pow(a, b) % q
  {
    var h := b / 2;
    PowSquared(a, h, q);
    var s, t := Pow(a * a % q, h), Pow(a, 2 * h);
    if b % 2 == 0 {
      MulSame(s, t, rt, q);
    } else {
      assert Pow(a, b) == a * t;
      MulAssociative(rt, a, t);
      MulSame(s, t, rt * a, q);
      MulMod(rt * a, s, q);
    }
  }

  /** The power modulo `q`, of the exponent as the code takes it. */
  method QPowmod(a: word, b: word, q: word) returns (rt: word)
    requires 1 < q && a as int <= 2 * q as int
    ensures rt as int == Pow(a as int, Exponent(b as int, q as int)) % q as int
  {
    rt := 1;
    var a, b := a, b;
    ghost var a0 := a as int;
    if a > q { a := a - q; }
    if b > q { b := b - q; }
    ghost var e := b as int;
    PowBase(a0, a as int, e, q as int);
    while b != 0
      invariant a <= q && rt < q
      invariant rt as int * Pow(a as int, b as int) % q as int == Pow(a0, e) % q as int
      decreases b
    {
      SquareStep(rt as int, a as int, b as int, q as int);
      if b % 2 == 1 { rt := QMulmod(rt, a, q); }
      b := b / 2;
      a := QMulmod(a, a, q);
    }
    DivModUnique(rt as int, q as int, 0, rt as int);
  }

  lemma PowBase(a0: nat, a: nat, e: nat, q: nat)
    requires q > 0 && (a == a0 || a == a0 - q)
    ensures Pow(a, e) % q == Pow(a0, e) % q
  {
    ModShift(a0, q, -1);
    assert a % q == a0 % q;
    PowMod(a, e, q);
    PowMod(a0, e, q);
  }

  // ---- the exchange ----

  function PublicKey(priv: word): word
  {
    (Pow(DH_G as int, Exponent(priv as int, DH_Q as int)) % DH_Q as int) as word
  }

  function SharedKey(pub: word, priv: word): word
  {
    (Pow(pub as int, Exponent(priv as int, DH_Q as int)) % DH_Q as int) as word
  }

  method DhPublic(priv: word) returns (pub: word)
    ensures pub == PublicKey(priv)
  {
    pub := QPowmod(DH_G, priv, DH_Q);
  }

  method DhGenerateKey(pub: word, priv: word) returns (key: word)
    ensures key == SharedKey(pub, priv)
  {
    key := QPowmod(pub, priv, DH_Q);
  }

  lemma PowersCommute(g: nat, x: nat, y: nat, q: nat)
    requires q > 0
    ensures Pow(Pow(g, x) % q, y) % q == Pow(Pow(g, y) % q, x) % q
  {
    PowMod(Pow(g, x), y, q);
    PowMod(Pow(g, y), x, q);
    PowMul(g, x, y);
    PowMul(g, y, x);
    assert x * y == y * x;
  }

  /** Both sides compute the same key, for every pair of 64-bit private keys. */
  lemma Agreement(a: word, b: word)
    ensures SharedKey(PublicKey(a), b) == SharedKey(PublicKey(b), a)
  {
    hide Pow;
    var q := DH_Q as int;
    PowersCommute(DH_G as int, Exponent(a as int, q), Exponent(b as int, q), q);
  }

  // ---- when the power is the one asked for ----

  /** In general: an exponent up to the modulus is taken as it is; a larger one gives the power asked for exactly when
      the modulus as an exponent does not change the rest of the power. */
  lemma PowerExactIff(a: nat, b: nat, q: nat)
    requires q > 1
    ensures Pow(a, Exponent(b, q)) % q == Pow(a, b) % q <==>
            b <= q || (Pow(a, q) % q) * (Pow(a, b - q) % q) % q == Pow(a, b - q) % q
  {
    if b > q {
      PowAdd(a, q, b - q);
      MulMod(Pow(a, q), Pow(a, b - q), q);
      MulMod(Pow(a, b - q), Pow(a, q) % q, q);
    }
  }

  const Q: nat := 0xffff_ffff_ffff_ffc5

  // The powers of five along the binary digits of the modulus: fifty-eight ones, then 000101. Every step on given
  // words is an equation of its own.

  function Rest(c: nat): nat { c % 0xffff_ffff_ffff_ffc5 }

  function Square(c: nat): nat { c * c }

  function TimesFive(c: nat): nat { 5 * c }

  /** The remainder for twice the exponent. */
  function Twice(c: nat): nat { Rest(Square(c)) }

  /** The remainder for twice the exponent and one more. */
  function TwiceAndOne(c: nat): nat { Rest(TimesFive(Square(c))) }

  function EightOnes(c: nat): nat
  {
    TwiceAndOne(TwiceAndOne(TwiceAndOne(TwiceAndOne(TwiceAndOne(TwiceAndOne(TwiceAndOne(TwiceAndOne(c))))))))
  }

  function FiveTo(m: nat): nat { Pow(5, m) % Q }

  lemma PowTwice(m: nat)
    ensures FiveTo(2 * m) == Twice(FiveTo(m))
    ensures FiveTo(2 * m + 1) == TwiceAndOne(FiveTo(m))
  {
    var p := Pow(5, m);
    PowAdd(5, m, m);
    MulMod(p, p, Q);
    MulMod(p, p % Q, Q);
    MulMod(p * p, 5, Q);
    MulMod((p % Q) * (p % Q), 5, Q);
    assert Pow(5, 2 * m + 1) == 5 * Pow(5, 2 * m);
  }

  lemma PowEightOnes(m: nat)
    ensures FiveTo(256 * m + 255) == EightOnes(FiveTo(m))
  {
    hide FiveTo, TwiceAndOne;
    PowTwice(m);
    PowTwice(2 * m + 1);
    PowTwice(4 * m + 3);
    PowTwice(8 * m + 7);
    PowTwice(16 * m + 15);
    PowTwice(32 * m + 31);
    PowTwice(64 * m + 63);
    PowTwice(128 * m + 127);
  }

  lemma Ones8()
    ensures EightOnes(0x1) == 0x3e8471a0cef588e5
  {
    assert TwiceAndOne(0x1) == 0x5;
    assert TwiceAndOne(0x5) == 0x7d;
    assert TwiceAndOne(0x7d) == 0x1312d;
    assert TwiceAndOne(0x1312d) == 0x71afd498d;
    assert TwiceAndOne(0x71afd498d) == 0x6f7c40458122d061;
    assert TwiceAndOne(0x6f7c40458122d061) == 0x3ccb1b5dafb74fba;
    assert TwiceAndOne(0x3ccb1b5dafb74fba) == 0xd0de0a2d8a4d7f11;
    assert TwiceAndOne(0xd0de0a2d8a4d7f11) == 0x3e8471a0cef588e5;
  }

  lemma Ones16()
    ensures EightOnes(0x3e8471a0cef588e5) == 0xb20bc9f2237c6b60
  {
    assert TwiceAndOne(0x3e8471a0cef588e5) == 0xa20abe673d66ba87;
    assert TwiceAndOne(0xa20abe673d66ba87) == 0x1fdad39a7bebe5bd;
    assert TwiceAndOne(0x1fdad39a7bebe5bd) == 0xbf5121c6f4f75b05;
    assert TwiceAndOne(0xbf5121c6f4f75b05) == 0x269b3af306f4ae15;
    assert TwiceAndOne(0x269b3af306f4ae15) == 0x468f277d3965efd4;
    assert TwiceAndOne(0x468f277d3965efd4) == 0x92b9d1f446e0c65a;
    assert TwiceAndOne(0x92b9d1f446e0c65a) == 0x9a74c6b3071ce16e;
    assert TwiceAndOne(0x9a74c6b3071ce16e) == 0xb20bc9f2237c6b60;
  }

  lemma Ones24()
    ensures EightOnes(0xb20bc9f2237c6b60) == 0x321385ab3849fcba
  {
    assert TwiceAndOne(0xb20bc9f2237c6b60) == 0xc4cfe1ee076393aa;
    assert TwiceAndOne(0xc4cfe1ee076393aa) == 0xcf44e7f1761652ff;
    assert TwiceAndOne(0xcf44e7f1761652ff) == 0xf00aa3794279e74b;
    assert TwiceAndOne(0xf00aa3794279e74b) == 0x907724d544767199;
    assert TwiceAndOne(0x907724d544767199) == 0x2bb2c88dfff06d79;
    assert TwiceAndOne(0x2bb2c88dfff06d79) == 0x4a928245f60e644;
    assert TwiceAndOne(0x4a928245f60e644) == 0xfab94c47990d1e3;
    assert TwiceAndOne(0xfab94c47990d1e3) == 0x321385ab3849fcba;
  }

  lemma Ones32()
    ensures EightOnes(0x321385ab3849fcba) == 0x9df9c0746843571f
  {
    assert TwiceAndOne(0x321385ab3849fcba) == 0xc2ca10987d302b0b;
    assert TwiceAndOne(0xc2ca10987d302b0b) == 0x6507af4b1fc4b8b9;
    assert TwiceAndOne(0x6507af4b1fc4b8b9) == 0x436e113d18a7e372;
    assert TwiceAndOne(0x436e113d18a7e372) == 0x6a46afb7489160fb;
    assert TwiceAndOne(0x6a46afb7489160fb) == 0x44a4866d72231874;
    assert TwiceAndOne(0x44a4866d72231874) == 0xa89fb26600880ccb;
    assert TwiceAndOne(0xa89fb26600880ccb) == 0xb9954c51701599d6;
    assert TwiceAndOne(0xb9954c51701599d6) == 0x9df9c0746843571f;
  }

  lemma Ones40()
    ensures EightOnes(0x9df9c0746843571f) == 0x250772abb321cbae
  {
    assert TwiceAndOne(0x9df9c0746843571f) == 0x2a9c2089094307f9;
    assert TwiceAndOne(0x2a9c2089094307f9) == 0xa1e729904e09190a;
    assert TwiceAndOne(0xa1e729904e09190a) == 0xce57ff3ddf57db5c;
    assert TwiceAndOne(0xce57ff3ddf57db5c) == 0x937ad3eeab4eb2c7;
    assert TwiceAndOne(0x937ad3eeab4eb2c7) == 0x1881109c7e935d6b;
    assert TwiceAndOne(0x1881109c7e935d6b) == 0x666afe3bb0943691;
    assert TwiceAndOne(0x666afe3bb0943691) == 0xc7cc5681a178ba0a;
    assert TwiceAndOne(0xc7cc5681a178ba0a) == 0x250772abb321cbae;
  }

  lemma Ones48()
    ensures EightOnes(0x250772abb321cbae) == 0x2e1cbe149520aff9
  {
    assert TwiceAndOne(0x250772abb321cbae) == 0xd7191d06f05afa65;
    assert TwiceAndOne(0xd7191d06f05afa65) == 0xd5a65eb37a573d41;
    assert TwiceAndOne(0xd5a65eb37a573d41) == 0x62eba15591f41eb6;
    assert TwiceAndOne(0x62eba15591f41eb6) == 0x34700d0583127bad;
    assert TwiceAndOne(0x34700d0583127bad) == 0x2972ba03ecbee225;
    assert TwiceAndOne(0x2972ba03ecbee225) == 0xf294d520a64f78c4;
    assert TwiceAndOne(0xf294d520a64f78c4) == 0x19fe45b47ea4f3b9;
    assert TwiceAndOne(0x19fe45b47ea4f3b9) == 0x2e1cbe149520aff9;
  }

  lemma Ones56()
    ensures EightOnes(0x2e1cbe149520aff9) == 0x4e903f26cb51f502
  {
    assert TwiceAndOne(0x2e1cbe149520aff9) == 0x448fbb186af7761b;
    assert TwiceAndOne(0x448fbb186af7761b) == 0x63cd937dc7729776;
    assert TwiceAndOne(0x63cd937dc7729776) == 0xf1323a1091bdd147;
    assert TwiceAndOne(0xf1323a1091bdd147) == 0xc69a5d62db3a0ce2;
    assert TwiceAndOne(0xc69a5d62db3a0ce2) == 0xcb4c72858a73d1fa;
    assert TwiceAndOne(0xcb4c72858a73d1fa) == 0x5c1adc62c71a7821;
    assert TwiceAndOne(0x5c1adc62c71a7821) == 0x7928ddf029b5163e;
    assert TwiceAndOne(0x7928ddf029b5163e) == 0x4e903f26cb51f502;
  }

  lemma LastDigits()
    ensures TwiceAndOne(0x4e903f26cb51f502) == 0xb1c64468e5409d34
    ensures TwiceAndOne(0xb1c64468e5409d34) == 0xa3271be667272df6
    ensures Twice(0xa3271be667272df6) == 0x36bc5b90ea2a9b9
    ensures Twice(0x36bc5b90ea2a9b9) == 0xba7eb59554006c71
    ensures Twice(0xba7eb59554006c71) == 0xc06c18de9798041c
    ensures Twice(0xc06c18de9798041c) == 0x933a2da7e8d3e5f2
    ensures Twice(0x933a2da7e8d3e5f2) == 0xb851eb851eb851c1
    ensures Twice(0xb851eb851eb851c1) == 0x1758e219652bd3be
  {}

  lemma FiveToMostDigits()
    ensures FiveTo(Q - 5) == 0x1758e219652bd3be
  {
    assert FiveTo(0) == 1;
    hide FiveTo, EightOnes, Twice, TwiceAndOne;
    PowEightOnes(0x0);
    Ones8();
    PowEightOnes(0xff);
    Ones16();
    PowEightOnes(0xffff);
    Ones24();
    PowEightOnes(0xffffff);
    Ones32();
    PowEightOnes(0xffffffff);
    Ones40();
    PowEightOnes(0xffffffffff);
    Ones48();
    PowEightOnes(0xffffffffffff);
    Ones56();
    PowTwice(0xffffffffffffff);
    PowTwice(0x1ffffffffffffff);
    PowTwice(0x3ffffffffffffff);
    PowTwice(0x7fffffffffffffe);
    PowTwice(0xffffffffffffffc);
    PowTwice(0x1ffffffffffffff8);
    PowTwice(0x3ffffffffffffff0);
    PowTwice(0x7fffffffffffffe0);
    LastDigits();
  }

  /** Five to the modulus is five, modulo it. */
  lemma FiveToTheModulus()
    ensures Pow(5, Q) % Q == 5
  {
    FiveToMostDigits();
    hide Pow;
    PowAdd(5, Q - 5, 5);
    MulMod(Pow(5, Q - 5), 3125, Q);
    FifthPower();
  }

  lemma FifthPower()
    ensures Pow(5, 5) == 3125
  {
    assert Pow(5, 3) == 5 * Pow(5, 2) && Pow(5, 2) == 5 * Pow(5, 1) && Pow(5, 1) == 5 * Pow(5, 0);
    assert Pow(5, 5) == 5 * Pow(5, 4) && Pow(5, 4) == 5 * Pow(5, 3);
  }

  /** A factor with an inverse can be cancelled. */
  lemma Cancel(u: nat, p: nat, v: nat, q: nat)
    requires q > 1 && p * v % q == 1 && u * p % q == p % q
    ensures u % q == 1
  {
    MulMod(p * v, u, q);
    DivModUnique(u % q, q, 0, u % q);
    assert u * (p * v) == (u * p) * v;
    MulMod(u * p, v, q);
    MulMod(p, v, q);
    assert u * ((p * v) % q) % q == u * (p * v) % q;
  }

  const FIFTH: nat := 0x666666666666664f

  /** Every power of a power of five has an inverse. */
  lemma UnitPower(k: nat)
    ensures Pow(5, k) * Pow(FIFTH, k) % Q == 1
  {
    PowProduct(5, FIFTH, k);
    assert 5 * FIFTH % Q == 1;
    PowMod(5 * FIFTH, k, Q);
    PowOfOne(k);
  }

  lemma {:induction false} PowProduct(a: nat, b: nat, k: nat)
    ensures Pow(a, k) * Pow(b, k) == Pow(a * b, k)
  {
    if k > 0 {
      PowProduct(a, b, k - 1);
      var s, t := Pow(a, k - 1), Pow(b, k - 1);
      assert (a * s) * (b * t) == (a * b) * (s * t) by { Interchange(a, s, b, t); }
    }
  }

  lemma Interchange(a: nat, s: nat, b: nat, t: nat)
    ensures (a * s) * (b * t) == (a * b) * (s * t)
  {
    MulAssociative(a, s, b * t);
    MulAssociative(s, b, t);
    MulAssociative(b, s, t);
    MulAssociative(a, b, s * t);
    assert s * b == b * s;
  }

  lemma {:induction false} PowOfOne(k: nat)
    ensures Pow(1, k) == 1
  {
    if k > 0 { PowOfOne(k - 1); }
  }

  /** When the modulus as an exponent gives the base back and the rest of the power has an inverse: an exponent above
      the modulus gives the power asked for exactly if the base is one. */
  lemma AboveModulusIff(g: nat, k: nat, v: nat, q: nat)
    requires 1 < q && g < q && 0 < k && Pow(g, q) % q == g && Pow(g, k) * v % q == 1
    ensures Pow(g, Exponent(q + k, q)) % q == Pow(g, q + k) % q <==> g == 1
  {
    hide Pow;
    PowerExactIff(g, q + k, q);
    MulMod(Pow(g, k), g, q);
    if g * Pow(g, k) % q == Pow(g, k) % q {
      Cancel(g, Pow(g, k), v, q);
      DivModUnique(g, q, 0, g);
    }
  }

  /** The public key is five to the private one modulo the prime exactly when the private key does not exceed it. */
  lemma PublicKeyExactIff(priv: word)
    ensures PublicKey(priv) as int == Pow(5, priv as int) % Q <==> priv <= DH_Q
  {
    hide Pow;
    if priv > DH_Q {
      var k := priv as int - Q;
      FiveToTheModulus();
      UnitPower(k);
      AboveModulusIff(5, k, Pow(FIFTH, k), Q);
    }
  }

  /** A private key just above the prime: its public key is five, and not the square of five, which it stands for. */
  lemma PublicKeyAbovePrime()
    ensures PublicKey(DH_Q + 1) == 5 && Pow(5, Q + 1) % Q == 25
  {
    assert Pow(5, 1) == 5 * Pow(5, 0);
    FiveToTheModulus();
    PowAdd(5, 1, Q);
    MulMod(Pow(5, Q), 5, Q);
  }

  lemma PublicToTheModulus(y: nat)
    ensures Pow(Pow(5, y) % Q, Q) % Q == Pow(5, y) % Q
  {
    PowMod(Pow(5, y), Q, Q);
    PowMul(5, y, Q);
    PowMul(5, Q, y);
    assert y * Q == Q * y;
    FiveToTheModulus();
    PowMod(Pow(5, Q), y, Q);
  }

  lemma PublicPowerUnit(y: nat, k: nat)
    ensures Pow(Pow(5, y) % Q, k) * Pow(FIFTH, y * k) % Q == 1
  {
    hide Pow;
    PowMod(Pow(5, y), k, Q);
    PowMul(5, y, k);
    UnitPower(y * k);
    MulSame(Pow(Pow(5, y) % Q, k), Pow(5, y * k), Pow(FIFTH, y * k), Q);
  }

  /** The key computed from a public key is the power asked for exactly when the private key does not exceed the
      prime or the public key is one. */
  lemma SharedKeyExactIff(theirs: word, priv: word)
    ensures SharedKey(PublicKey(theirs), priv) as int == Pow(PublicKey(theirs) as int, priv as int) % Q
       <==> priv <= DH_Q || PublicKey(theirs) == 1
  {
    hide Pow;
    if priv > DH_Q {
      var g, k, y := PublicKey(theirs) as int, priv as int - Q, Exponent(theirs as int, Q);
      PublicToTheModulus(y);
      PublicPowerUnit(y, k);
      AboveModulusIff(g, k, Pow(FIFTH, y * k), Q);
    }
  }
}
