/** Division with remainder by numbers that are not literals, and small helpers. */
module Arithmetic {

  function Min(a: nat, b: nat): nat { if a > b then b else a }

  function Max(a: nat, b: nat): nat { if a > b then a else b }

  lemma MulAtLeast(d: int, k: int)
    requires d > 0 && k >= 1
    ensures d * k >= d
  {}

  lemma MulAtMost(d: int, k: int)
    requires d > 0 && k <= -1
    ensures d * k <= -d
  {}

  lemma DivModUnique(v: int, d: int, q: int, r: int)
    requires d > 0 && v == d * q + r && 0 <= r < d
    ensures v / d == q && v % d == r
  {
    var k := v / d - q;
    assert d * k == d * (v / d) - d * q;
    assert d * k == r - v % d;
    if k >= 1 { MulAtLeast(d, k); }
    if k <= -1 { MulAtMost(d, k); }
  }

  /** Numbers that differ by a multiple have the same remainder. */
  lemma ModShift(v: int, d: int, k: int)
    requires d > 0
    ensures (v + d * k) % d == v % d
  {
    assert d * (v / d + k) == d * (v / d) + d * k;
    DivModUnique(v + d * k, d, v / d + k, v % d);
  }

  lemma MulMod(a: nat, b: nat, q: nat)
    requires q > 0
    ensures (a % q) * b % q == a * b % q
    ensures b * (a % q) % q == b * a % q
  {
    var k := a / q;
    assert a == q * k + a % q;
    assert a * b == (a % q) * b + q * (k * b) by {
      assert (q * k + a % q) * b == (q * k) * b + (a % q) * b;
      assert (q * k) * b == q * (k * b);
    }
    ModShift((a % q) * b, q, k * b);
  }

  lemma DivDiv(v: nat, a: nat, b: nat)
    requires a > 0 && b > 0
    ensures a * b > 0 && v / (a * b) == v / a / b
  {
    var w := v / a;
    var q, s := w / b, w % b;
    var r := a * s + v % a;
    MulAtLeast(a, b);
    assert a * w == a * (b * q) + a * s by { assert w == b * q + s; }
    assert a * (b * q) == (a * b) * q;
    assert v == (a * b) * q + r;
    assert a * (s + 1) <= a * b;
    assert a * (s + 1) == a * s + a;
    DivModUnique(v, a * b, q, r);
  }

  lemma ModSplit(v: nat, m: nat)
    requires m > 0
    ensures v % (256 * m) == (v / 256) % m * 256 + v % 256
  {
    var q, r := v / 256, v % 256;
    var t := q / m;
    assert q == m * t + q % m;
    assert 256 * (m * t) == (256 * m) * t;
    assert v == (256 * m) * t + ((q % m) * 256 + r);
    DivModUnique(v, 256 * m, t, (q % m) * 256 + r);
  }
}
