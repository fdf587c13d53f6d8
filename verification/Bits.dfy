/** Unsigned machine words as natural numbers: powers of two, bitwise `&` and
    what masking with the page masks means in ordinary arithmetic. */
module Bits {

  const TWO_32: nat := 0x1_0000_0000
  const TWO_56: nat := 0x100_0000_0000_0000
  const TWO_64: nat := 0x1_0000_0000_0000_0000

  type byte = x: int | 0 <= x < 256

  function Pow2(k: nat): (p: nat)
    ensures p > 0
  {
    if k == 0 then 1 else 2 * Pow2(k - 1)
  }

  ghost predicate IsPowerOfTwo(p: nat) {
    exists k: nat :: p == Pow2(k)
  }

  /** Bitwise conjunction, bit by bit. */
  function And(a: nat, b: nat): (r: nat)
    ensures r <= a && r <= b
  {
    if a == 0 || b == 0 then 0
    else 2 * And(a / 2, b / 2) + (if a % 2 == 1 && b % 2 == 1 then 1 else 0)
  }

  /** Bitwise complement of a 64-bit word. */
  function Not64(x: nat): nat
    requires x < TWO_64
  {
    TWO_64 - 1 - x
  }

  /** Addition on uint64_t. */
  function Add64(x: nat, y: nat): nat {
    (x + y) % TWO_64
  }

  lemma DivBounds(r: nat, s: nat)
    requires s > 0
    ensures r / s * s <= r < (r / s + 1) * s
    ensures r < r / s * s + s
    ensures r / s >= 0
  {
    var q := r / s;
    assert r == s * q + r % s;
    assert (q + 1) * s == q * s + s;
  }

  lemma ModHalf(a: nat, p: nat)
    requires p > 0
    ensures a % (2 * p) == 2 * (a / 2 % p) + a % 2
  {
    var h := a / 2;
    var q, r := h / p, h % p;
    assert h == p * q + r;
    assert a == (2 * p) * q + (2 * r + a % 2) by {
      assert a == 2 * h + a % 2;
      assert 2 * (p * q) == (2 * p) * q;
    }
    DivModUnique(a, 2 * p, q, 2 * r + a % 2);
  }

  lemma MulBound(d: nat, e: int)
    ensures e >= 1 ==> d * e >= d
    ensures e == 0 ==> d * e == 0
    ensures e <= -1 ==> d * e + d <= 0
  {
    assert d * e == d * (e - 1) + d == d * (e + 1) - d;
  }

  lemma MulMonotone(d: nat, x: int, y: int)
    requires x <= y
    ensures d * x <= d * y
  {
    assert d * y == d * x + d * (y - x);
  }

  /** Multiplication as repeated addition, for step-by-step arguments. */
  function Times(d: nat, n: nat): nat {
    if n == 0 then 0 else Times(d, n - 1) + d
  }

  lemma {:induction false} TimesIsMul(d: nat, n: nat)
    ensures Times(d, n) == d * n
  {
    if n > 0 {
      TimesIsMul(d, n - 1);
      assert d * n == d * (n - 1) + d;
    }
  }

  lemma {:induction false} TimesMonotone(c: nat, d: nat, m: nat, n: nat)
    requires c <= d && m <= n
    ensures Times(c, m) <= Times(d, n)
  {
    if m < n {
      TimesMonotone(c, d, m, n - 1);
    } else if m > 0 {
      TimesMonotone(c, d, m - 1, n - 1);
    }
  }

  lemma {:induction false} TimesCancel(d: nat, m: nat, n: nat)
    requires d > 0 && Times(d, m) <= Times(d, n)
    ensures m <= n
  {
    assert Times(d, n + 1) == Times(d, n) + d;
    if n + 1 <= m {
      TimesMonotone(d, d, n + 1, m);
    }
  }

  /** Euclidean division is unique. */
  lemma DivModUnique(a: nat, d: nat, q: int, r: int)
    requires d > 0 && 0 <= r < d && a == d * q + r
    ensures a / d == q && a % d == r
  {
    var e := a / d - q;
    assert d * (a / d) + a % d == a;
    assert d * e == d * (a / d) - d * q;
    assert d * e == r - a % d;
    MulBound(d, e);
  }

  /** Masking with `p - 1` is the remainder by p. */
  lemma {:induction false} AndLowMask(a: nat, k: nat)
    ensures And(a, Pow2(k) - 1) == a % Pow2(k)
    decreases k
  {
    if k == 0 {
      assert a % 1 == 0;
    } else {
      var p := Pow2(k - 1);
      ModHalf(a, p);
      assert (2 * p - 1) / 2 == p - 1 && (2 * p - 1) % 2 == 1;
      AndLowMask(a / 2, k - 1);
      if a == 0 {
        assert 0 % (2 * p) == 0;
      }
    }
  }

  lemma Pow2Monotone(k: nat, w: nat)
    requires k <= w
    ensures Pow2(k) <= Pow2(w)
  {
  }

  /** Masking with the complement of `p - 1` clears the remainder by p. */
  lemma {:induction false} AndHighMask(a: nat, k: nat, w: nat)
    requires k <= w && a < Pow2(w)
    ensures Pow2(k) <= Pow2(w)
    ensures And(a, Pow2(w) - Pow2(k)) == a - a % Pow2(k)
    decreases k
  {
    hide Pow2;
    Pow2Monotone(k, w);
    if k == 0 {
      AllOnes(a, w);
    } else {
      AndHighMask(a / 2, k - 1, w - 1) by { HalfBelow(a, w); }
      HighStep(a, k, w);
    }
  }

  lemma AllOnes(a: nat, w: nat)
    requires a < Pow2(w)
    ensures Pow2(0) == 1 && And(a, Pow2(w) - 1) == a - a % 1
  {
    AndLowMask(a, w);
    SmallMod(a, Pow2(w));
  }

  lemma HalfBelow(a: nat, w: nat)
    requires w > 0 && a < Pow2(w)
    ensures a / 2 < Pow2(w - 1)
  {
  }

  lemma HighStep(a: nat, k: nat, w: nat)
    requires 0 < k <= w && Pow2(k - 1) <= Pow2(w - 1)
    requires And(a / 2, Pow2(w - 1) - Pow2(k - 1)) == a / 2 - a / 2 % Pow2(k - 1)
    ensures Pow2(k) <= Pow2(w) && And(a, Pow2(w) - Pow2(k)) == a - a % Pow2(k)
  {
    hide And;
    var p, q := Pow2(k - 1), Pow2(w - 1);
    ModHalf(a, p);
    AndEvenMask(a, q - p);
    assert Pow2(w) - Pow2(k) == 2 * (q - p);
  }

  /** Masking with an even mask drops the last bit. */
  lemma AndEvenMask(a: nat, m: nat)
    ensures And(a, 2 * m) == 2 * And(a / 2, m)
  {
    assert 2 * m / 2 == m && 2 * m % 2 == 0;
  }

  lemma DivHalf(a: nat, p: nat)
    requires p > 0
    ensures a / (2 * p) == a / 2 / p
  {
    var h := a / 2;
    var q, r := h / p, h % p;
    assert h == p * q + r && a == 2 * h + a % 2;
    assert 2 * (p * q) == (2 * p) * q;
    DivModUnique(a, 2 * p, q, 2 * r + a % 2);
  }

  /** Masking with one bit isolates that bit. */
  lemma {:induction false} AndOneBit(a: nat, k: nat)
    ensures And(a, Pow2(k)) == if a / Pow2(k) % 2 == 1 then Pow2(k) else 0
    decreases k
  {
    var q := Pow2(k);
    if k == 0 {
      assert a / 1 == a;
      assert And(a / 2, 0) == 0;
    } else {
      var p := Pow2(k - 1);
      assert q == 2 * p && q / 2 == p && q % 2 == 0;
      AndOneBit(a / 2, k - 1);
      DivHalf(a, p);
      assert a / q == a / 2 / p;
      if a == 0 {
        assert a / q == 0;
      } else {
        assert And(a, q) == 2 * And(a / 2, p);
      }
    }
  }

  lemma SmallMod(a: nat, p: nat)
    requires a < p
    ensures a % p == a && a / p == 0
  {
    DivModUnique(a, p, 0, a);
  }

  /** `x & ~(p - 1)` on 64-bit words, p a power of two. */
  lemma PageMasks(x: nat, p: nat)
    requires x < TWO_64 && IsPowerOfTwo(p) && p < TWO_64
    ensures And(x, Not64(p - 1)) == x - x % p
    ensures And(x, p - 1) == x % p
  {
    var k :| p == Pow2(k);
    Pow2At64();
    if k > 64 {
      Pow2Monotone(64, k);
      assert false;
    }
    AndLowMask(x, k);
    AndHighMask(x, k, 64);
  }

  lemma Pow2At64()
    ensures Pow2(64) == TWO_64
  {
    assert Pow2(8) == 256;
    Pow2Add(8, 8);
    Pow2Add(16, 16);
    Pow2Add(32, 32);
  }

  lemma {:induction false} Pow2Add(a: nat, b: nat)
    ensures Pow2(a + b) == Pow2(a) * Pow2(b)
    decreases a
  {
    if a > 0 {
      Pow2Add(a - 1, b);
      TwiceProduct(Pow2(a - 1), Pow2(b));
      assert Pow2(a + b) == 2 * Pow2(a - 1 + b);
    }
  }

  lemma TwiceProduct(x: nat, y: nat)
    ensures (2 * x) * y == 2 * (x * y)
  {
  }
}
