/** Bitwise operators on natural numbers, and the identities that turn them into arithmetic. */
module Bits {

  type byte = x: nat | x < 256

  function Pow2(k: nat): (p: nat)
    ensures p >= 1
  {
    if k == 0 then 1 else 2 * Pow2(k - 1)
  }

  function Or(a: nat, b: nat): nat
    decreases a + b
  {
    if a == 0 && b == 0 then 0
    else 2 * Or(a / 2, b / 2) + (if a % 2 == 1 || b % 2 == 1 then 1 else 0)
  }

  function And(a: nat, b: nat): nat
  {
    if a == 0 || b == 0 then 0
    else 2 * And(a / 2, b / 2) + (if a % 2 == 1 && b % 2 == 1 then 1 else 0)
  }

  function Xor(a: nat, b: nat): nat
    decreases a + b
  {
    if a == 0 && b == 0 then 0
    else 2 * Xor(a / 2, b / 2) + (if a % 2 != b % 2 then 1 else 0)
  }

  /** Or-ing into bits that are all zero is addition. */
  lemma {:induction false} OrDisjoint(a: nat, b: nat, k: nat)
    requires a % Pow2(k) == 0 && b < Pow2(k)
    ensures Or(a, b) == a + b
  {
    if a == 0 && b == 0 {
    } else if k == 0 {
      OrZero(a);
    } else {
      var p := Pow2(k - 1);
      ModTwice(a, p);
      OrDisjoint(a / 2, b / 2, k - 1);
    }
  }

  lemma {:induction false} OrZero(a: nat)
    ensures Or(a, 0) == a
  {
    if a != 0 { OrZero(a / 2); }
  }

  lemma ModTwice(a: nat, p: nat)
    requires p > 0 && a % (2 * p) == 0
    ensures a % 2 == 0 && (a / 2) % p == 0
  {
    var q := a / (2 * p);
    assert a == 2 * p * q;
    assert a == 2 * (p * q);
    assert a / 2 == p * q;
    MulMod(q, p);
  }

  lemma {:induction false} MulMod(q: nat, p: nat)
    requires p > 0
    ensures (p * q) % p == 0 && (p * q) / p == q
  {
    assert p * q == q * p;
    DivModUnique(p * q, p, q, 0);
  }

  lemma MulAtLeast(x: nat, d: nat)
    requires x >= 1
    ensures x * d >= d
  {
  }

  /** Quotient and remainder are determined by the division equation. */
  lemma DivModUnique(n: nat, d: nat, q: nat, r: nat)
    requires d > 0 && r < d && n == q * d + r
    ensures n / d == q && n % d == r
  {
    var q', r' := n / d, n % d;
    assert q' * d + r' == q * d + r;
    assert (q - q') * d == q * d - q' * d == r' - r;
    if q' < q {
      MulAtLeast(q - q', d);
    } else if q' > q {
      MulAtLeast(q' - q, d);
    }
  }

  /** The low k bits of a. */
  function Low(a: nat, k: nat): nat
  {
    if k == 0 then 0 else 2 * Low(a / 2, k - 1) + a % 2
  }

  lemma {:induction false} LowIsMod(a: nat, k: nat)
    ensures Low(a, k) == a % Pow2(k)
  {
    if k != 0 {
      LowIsMod(a / 2, k - 1);
      ModDouble(a, Pow2(k - 1));
    }
  }

  lemma {:induction false} AndLow(a: nat, k: nat)
    ensures And(a, Pow2(k) - 1) == Low(a, k)
  {
    if k == 0 {
      AndZero(a);
    } else {
      AndLow(a / 2, k - 1);
      assert (Pow2(k) - 1) / 2 == Pow2(k - 1) - 1;
    }
  }

  /** And-ing with a mask of k ones is the remainder modulo 2^k. */
  lemma AndMask(a: nat, k: nat)
    ensures And(a, Pow2(k) - 1) == a % Pow2(k)
  {
    AndLow(a, k);
    LowIsMod(a, k);
  }

  lemma ModDouble(a: nat, p: nat)
    requires p > 0
    ensures a % (2 * p) == 2 * ((a / 2) % p) + a % 2
    ensures a / (2 * p) == (a / 2) / p
  {
    var q, r := (a / 2) / p, (a / 2) % p;
    assert a / 2 == q * p + r;
    assert a == 2 * (q * p + r) + a % 2;
    assert a == q * (2 * p) + (2 * r + a % 2);
    DivModUnique(a, 2 * p, q, 2 * r + a % 2);
  }

  /** And-ing with a single bit picks that bit out in place. */
  lemma {:induction false} AndBit(a: nat, k: nat)
    ensures And(a, Pow2(k)) == (a / Pow2(k)) % 2 * Pow2(k)
  {
    if a == 0 {
      assert 0 / Pow2(k) == 0;
    } else if k == 0 {
      AndZero(a / 2);
    } else {
      var p := Pow2(k - 1);
      AndBit(a / 2, k - 1);
      ModDouble(a, p);
      assert (2 * p) / 2 == p && (2 * p) % 2 == 0;
      assert And(a, 2 * p) == 2 * And(a / 2, p);
      var b := (a / 2) / p % 2;
      assert 2 * (b * p) == b * (2 * p);
    }
  }

  lemma AndZero(a: nat)
    ensures And(a, 0) == 0
  {
  }

  /** Exclusive or stays within the width of its operands. */
  lemma {:induction false} XorBound(a: nat, b: nat, k: nat)
    requires a < Pow2(k) && b < Pow2(k)
    ensures Xor(a, b) < Pow2(k)
  {
    if a == 0 && b == 0 {
    } else {
      XorBound(a / 2, b / 2, k - 1);
    }
  }

  lemma AddMultiple(r: nat, q: nat, d: nat)
    requires d > 0
    ensures (q * d + r) % d == r % d
  {
    assert q * d + r == (q + r / d) * d + r % d;
    DivModUnique(q * d + r, d, q + r / d, r % d);
  }

  lemma {:induction false} LowLow(a: nat, w: nat, k: nat)
    requires k <= w
    ensures Low(Low(a, w), k) == Low(a, k)
    decreases k
  {
    if k > 0 { LowLow(a / 2, w - 1, k - 1); }
  }

  /** Truncating to w bits does not disturb the low k of them. */
  lemma ModMod(a: nat, w: nat, k: nat)
    requires k <= w
    ensures (a % Pow2(w)) % Pow2(k) == a % Pow2(k)
  {
    hide Low, Pow2;
    LowIsMod(a, w);
    LowIsMod(a, k);
    LowIsMod(Low(a, w), k);
    LowLow(a, w, k);
  }

  function Shr(x: nat, j: nat): nat
  {
    if j == 0 then x else Shr(x / 2, j - 1)
  }

  predicate Bit(x: nat, i: nat)
  {
    if i == 0 then x % 2 == 1 else Bit(x / 2, i - 1)
  }

  lemma {:induction false} BitShr(x: nat, j: nat, i: nat)
    ensures Bit(Shr(x, j), i) == Bit(x, i + j)
    decreases j
  {
    if j > 0 { BitShr(x / 2, j - 1, i); }
  }

  lemma OrHalf(a: nat, b: nat)
    ensures Or(a, b) / 2 == Or(a / 2, b / 2)
    ensures Or(a, b) % 2 == 1 <==> a % 2 == 1 || b % 2 == 1
  {
  }

  lemma {:induction false} BitOr(a: nat, b: nat, i: nat)
    ensures Bit(Or(a, b), i) == (Bit(a, i) || Bit(b, i))
    decreases i
  {
    hide Or;
    OrHalf(a, b);
    if i > 0 { BitOr(a / 2, b / 2, i - 1); }
  }

  lemma {:induction false} BitsBelow(x: nat, b: nat)
    requires forall i: nat :: Bit(x, i) <==> i < b
    ensures x == Pow2(b) - 1
    decreases b
  {
    assert Bit(x, 0) <==> 0 < b;
    if b == 0 {
      NoBits(x);
    } else {
      forall i: nat ensures Bit(x / 2, i) <==> i < b - 1 {
        assert Bit(x, i + 1) == Bit(x / 2, i);
      }
      BitsBelow(x / 2, b - 1);
    }
  }

  lemma {:induction false} NoBits(x: nat)
    requires forall i: nat :: !Bit(x, i)
    ensures x == 0
  {
    assert !Bit(x, 0);
    if x != 0 {
      forall i: nat ensures !Bit(x / 2, i) {
        assert Bit(x, i + 1) == Bit(x / 2, i);
      }
      NoBits(x / 2);
    }
  }

  /** The number of bits of x. */
  function Width(x: nat): nat
  {
    if x == 0 then 0 else 1 + Width(x / 2)
  }

  lemma {:induction false} WidthBits(x: nat)
    ensures x < Pow2(Width(x)) && (x > 0 ==> Pow2(Width(x) - 1) <= x && Bit(x, Width(x) - 1))
    ensures forall i: nat :: i >= Width(x) ==> !Bit(x, i)
  {
    if x > 0 {
      WidthBits(x / 2);
      forall i: nat | i >= Width(x) ensures !Bit(x, i) {
        assert Bit(x, i) == Bit(x / 2, i - 1);
      }
    } else {
      forall i: nat ensures !Bit(0, i) { ZeroBit(i); }
    }
  }

  lemma {:induction false} ZeroBit(i: nat)
    ensures !Bit(0, i)
  {
    if i > 0 { ZeroBit(i - 1); }
  }

  lemma BigPowers()
    ensures Pow2(7) == 128 && Pow2(15) == 32768
    ensures Pow2(16) == 0x1_0000 && Pow2(17) == 0x2_0000 && Pow2(27) == 0x800_0000
    ensures Pow2(30) == 0x4000_0000 && Pow2(31) == 0x8000_0000 && Pow2(32) == 0x1_0000_0000
  {
    assert Pow2(5) == 32;
    assert Pow2(10) == 1024;
    assert Pow2(20) == 1048576;
    assert Pow2(30) == 1073741824;
  }

  lemma SixteenBits()
    ensures Pow2(16) == 65536
  {
    assert Pow2(8) == 256;
    assert Pow2(12) == 4096;
  }

  lemma {:induction false} Pow2Mono(a: nat, b: nat)
    requires a <= b
    ensures Pow2(a) <= Pow2(b)
  {
    if a < b { Pow2Mono(a, b - 1); }
  }
}
