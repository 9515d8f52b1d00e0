/** pow2roundup: smearing the top bit downwards. */
module BitHacks {
  import opened Bits

  /** One of the bits i .. i+j-1 of x is set. */
  ghost predicate AnyBit(x: nat, i: nat, j: nat)
  {
    exists m: nat :: i <= m < i + j && Bit(x, m)
  }

  ghost predicate Smeared(x: nat, y: nat, j: nat)
  {
    forall i: nat :: Bit(y, i) <==> AnyBit(x, i, j)
  }

  lemma SmearOnce(x: nat)
    ensures Smeared(x, x, 1)
  {
    hide Bit;
  }

  /** One step x |= x >> j doubles the reach of the smear. */
  lemma SmearStep(x: nat, y: nat, j: nat)
    requires Smeared(x, y, j)
    ensures Smeared(x, Or(y, Shr(y, j)), 2 * j)
  {
    hide Bit, Or, Shr;
    var z := Or(y, Shr(y, j));
    forall i: nat ensures Bit(z, i) <==> AnyBit(x, i, 2 * j) {
      BitOr(y, Shr(y, j), i);
      BitShr(y, j, i);
      assert Bit(y, i) <==> AnyBit(x, i, j);
      assert Bit(y, i + j) <==> AnyBit(x, i + j, j);
    }
  }

  lemma SmearedAll(x: nat, y: nat)
    requires Width(x) <= 32 && Smeared(x, y, 32)
    ensures y == Pow2(Width(x)) - 1
  {
    hide Bit, Width;
    var b := Width(x);
    WidthBits(x);
    NonzeroWidth(x);
    forall i: nat ensures Bit(y, i) <==> i < b {
      assert Bit(y, i) <==> AnyBit(x, i, 32);
    }
    BitsBelow(y, b);
  }

  lemma NonzeroWidth(x: nat)
    ensures Width(x) > 0 <==> x > 0
  {
  }

  lemma {:induction false} WidthBound(x: nat, k: nat)
    requires x < Pow2(k)
    ensures Width(x) <= k
  {
    if x > 0 { WidthBound(x / 2, k - 1); }
  }

  /** r = 2^k is the least power of two that is not below x. */
  predicate RoundsTo(x: int, r: int, k: nat)
  {
    r == Pow2(k) && x <= r && (k > 0 ==> Pow2(k - 1) < x)
  }

  /** For a 32-bit int: the least power of two not below x, except that above 2^30 the final
      increment overflows to INT_MIN. */
  method Pow2RoundUp(x: int) returns (r: int)
    requires x < 0x8000_0000
    ensures x <= 0 ==> r == 0
    ensures 0 < x <= 0x4000_0000 ==> exists k: nat :: k <= 30 && RoundsTo(x, r, k)
    ensures x > 0x4000_0000 ==> r == -0x8000_0000
  {
    hide Or, Shr, Width, Smeared, Pow2, RoundsTo;
    if x <= 0 { return 0; }
    var v: nat := x - 1;
    ghost var x0: nat := x - 1;
    SmearOnce(v);
    SmearStep(x0, v, 1);
    v := Or(v, Shr(v, 1));
    SmearStep(x0, v, 2);
    v := Or(v, Shr(v, 2));
    SmearStep(x0, v, 4);
    v := Or(v, Shr(v, 4));
    SmearStep(x0, v, 8);
    v := Or(v, Shr(v, 8));
    SmearStep(x0, v, 16);
    v := Or(v, Shr(v, 16));
    Rounded(x, v + 1);
    r := if v + 1 == 0x8000_0000 then -0x8000_0000 else v + 1;
  }

  lemma Rounded(x: nat, r: nat)
    requires 0 < x < 0x8000_0000 && r >= 1 && Smeared(x - 1, r - 1, 32)
    ensures x <= 0x4000_0000 ==> exists k: nat :: k <= 30 && RoundsTo(x, r, k)
    ensures x <= 0x4000_0000 <==> r < 0x8000_0000
    ensures r <= 0x8000_0000
  {
    hide Width, Smeared, Bit, Pow2;
    BigPowers();
    var k := Width(x - 1);
    WidthBits(x - 1);
    NonzeroWidth(x - 1);
    WidthBound(x - 1, 31);
    SmearedAll(x - 1, r - 1);
    if x <= 0x4000_0000 {
      WidthBound(x - 1, 30);
      Pow2Mono(k, 30);
      assert RoundsTo(x, r, k);
    } else {
      Pow2Mono(k, 31);
      if k <= 30 { Pow2Mono(k, 30); }
    }
  }
}
