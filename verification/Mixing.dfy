/** Exclusive-or and multiplication by an odd constant lose nothing: each step of the digests can be undone. */
module Mixing {
  import opened Prelude

  function Pow2(n: nat): (r: nat)
    ensures r > 0
  {
    if n == 0 then 1 else 2 * Pow2(n - 1)
  }

  lemma Pow2Words()
    ensures Pow2(32) == 0x1_0000_0000 && Pow2(64) == 0x1_0000_0000_0000_0000
  {
    assert Pow2(8) == 0x100;
    hide Pow2;
    Pow2Sum(8, 8);
    Pow2Sum(16, 16);
    Pow2Sum(32, 32);
  }

  lemma Regroup(x: nat, y: nat)
    ensures 2 * (x * y) == (2 * x) * y
  {
  }

  lemma {:induction false} Pow2Sum(m: nat, n: nat)
    ensures Pow2(m + n) == Pow2(m) * Pow2(n)
  {
    if m > 0 {
      Pow2Sum(m - 1, n);
      Regroup(Pow2(m - 1), Pow2(n));
    }
  }

  // -------------------------------------------------------------------------- exclusive-or

  lemma {:induction false} XorFits(a: nat, b: nat, n: nat)
    requires a < Pow2(n) && b < Pow2(n)
    ensures Xor(a, b) < Pow2(n)
    decreases n
  {
    if n > 0 && (a != 0 || b != 0) {
      XorFits(a / 2, b / 2, n - 1);
    }
  }

  lemma {:induction false} XorSymmetric(a: nat, b: nat)
    ensures Xor(a, b) == Xor(b, a)
    decreases a + b
  {
    if a != 0 || b != 0 {
      XorSymmetric(a / 2, b / 2);
    }
  }

  lemma {:induction false} XorUnfolds(a: nat, b: nat)
    ensures Xor(a, b) == (a + b) % 2 + 2 * Xor(a / 2, b / 2)
  {
    if a == 0 && b == 0 {
      assert Xor(0, 0) == 0;
    }
  }

  lemma Halved(v: nat, low: nat, rest: nat)
    requires low < 2 && v == low + 2 * rest
    ensures v % 2 == low && v / 2 == rest
  {
  }

  /** Bit by bit, the lowest first. */
  lemma {:induction false} XorStep(a: nat, b: nat)
    ensures Xor(a, b) == (a + b) % 2 + 2 * Xor(a / 2, b / 2)
    ensures Xor(a, b) % 2 == (a + b) % 2 && Xor(a, b) / 2 == Xor(a / 2, b / 2)
  {
    hide Xor;
    XorUnfolds(a, b);
    Halved(Xor(a, b), (a + b) % 2, Xor(a / 2, b / 2));
  }

  /** What was mixed in can be taken out again. */
  lemma {:induction false} XorUndone(a: nat, b: nat)
    ensures Xor(Xor(a, b), b) == a
    decreases a + b
  {
    if a != 0 || b != 0 {
      hide Xor;
      XorUndone(a / 2, b / 2);
      XorStep(a, b);
      XorStep(Xor(a, b), b);
    }
  }

  lemma {:induction false} XorInjective(a: nat, a': nat, b: nat)
    requires Xor(a, b) == Xor(a', b)
    ensures a == a'
  {
    XorUndone(a, b);
    XorUndone(a', b);
  }

  lemma {:induction false} XorZero(a: nat, b: nat)
    ensures Xor(a, b) == 0 <==> a == b
  {
    XorUndone(a, b);
    XorUndone(b, b);
    NothingXor(b);
    SelfXor(b);
  }

  lemma {:induction false} NothingXor(b: nat)
    ensures Xor(0, b) == b
  {
    if b != 0 {
      NothingXor(b / 2);
    }
  }

  lemma {:induction false} SelfXor(b: nat)
    ensures Xor(b, b) == 0
  {
    if b != 0 {
      SelfXor(b / 2);
    }
  }

  /** High and low bits do not mix. */
  lemma {:induction false} XorSplit(a: nat, b: nat, c: nat, d: nat, n: nat)
    requires b < Pow2(n) && d < Pow2(n)
    ensures Xor(a * Pow2(n) + b, c * Pow2(n) + d) == Xor(a, c) * Pow2(n) + Xor(b, d)
    decreases n
  {
    if n > 0 {
      hide Xor;
      XorSplit(a, b / 2, c, d / 2, n - 1);
      XorSplitStep(a, b, c, d, Pow2(n - 1), Xor(a, c));
    }
  }

  lemma XorSplitStep(a: nat, b: nat, c: nat, d: nat, p: nat, high: nat)
    requires Xor(a * p + b / 2, c * p + d / 2) == high * p + Xor(b / 2, d / 2)
    ensures Xor(a * (2 * p) + b, c * (2 * p) + d) == high * (2 * p) + Xor(b, d)
  {
    hide Xor;
    Shifted(a, p, b);
    Shifted(c, p, d);
    Shifted(high, p, 0);
    var x, y := a * (2 * p) + b, c * (2 * p) + d;
    XorStep(x, y);
    XorStep(b, d);
    SameParity(x, y, b, d);
  }

  lemma SameParity(x: nat, y: nat, b: nat, d: nat)
    requires x % 2 == b % 2 && y % 2 == d % 2
    ensures (x + y) % 2 == (b + d) % 2
  {
  }

  lemma Shifted(a: nat, p: nat, b: nat)
    ensures a * (2 * p) == 2 * (a * p) && (a * (2 * p) + b) / 2 == a * p + b / 2 && (a * (2 * p) + b) % 2 == b % 2
  {
    assert a * (2 * p) == 2 * (a * p);
  }

  lemma Divided(x: nat, m: nat, q: nat, r: nat)
    requires r < m && x == m * q + r
    ensures x / m == q && x % m == r
  {
    var d := x / m - q;
    assert x == m * (x / m) + x % m;
    assert m * (x / m) - m * q == m * d;
    Small(m, d, r - x % m);
  }

  lemma Grows(m: nat, w: nat)
    requires w > 0
    ensures m * w >= m
  {
    assert m * w == m * (w - 1) + m && m * (w - 1) >= 0;
  }

  /** A multiple of m that is less than m away from zero is zero. */
  lemma Small(m: int, w: int, d: int)
    requires -m < d < m && d == m * w
    ensures w == 0 && d == 0
  {
    assert m * (0 - w) == 0 - m * w;
    if w != 0 {
      Grows(m, if w > 0 then w else 0 - w);
    }
  }

  // ------------------------------------------------------------- multiplying modulo a word

  /** Multiplying by p modulo m can be undone when p has an inverse q. */
  lemma TimesInjective(x: nat, y: nat, p: nat, q: nat, t: nat, m: nat)
    requires x < m && y < m && p * q == m * t + 1 && x * p % m == y * p % m
    ensures x == y
  {
    var d, w := x - y, x * p / m - y * p / m;
    assert x * p == m * (x * p / m) + x * p % m && y * p == m * (y * p / m) + y * p % m;
    assert d * p == x * p - y * p;
    assert m * w == m * (x * p / m) - m * (y * p / m);
    assert d * p == m * w;
    Undone(d, p, q, t, m, w);
    Small(m, w * q - d * t, d);
  }

  lemma Undone(d: int, p: nat, q: nat, t: nat, m: nat, w: int)
    requires p * q == m * t + 1 && d * p == m * w
    ensures d == m * (w * q - d * t)
  {
    assert d * (p * q) == (d * p) * q;
    assert (m * w) * q == m * (w * q);
    assert d * (m * t + 1) == m * (d * t) + d;
    assert m * (w * q - d * t) == m * (w * q) - m * (d * t);
  }
}
