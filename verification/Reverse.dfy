/** Bit reversal: Huffman codes are sent most significant bit first, tables are indexed least
    significant bit first. */
module Reverse {
  import opened Bits

  /** The low n bits of x, reversed. */
  function Rev(x: nat, n: nat): nat
  {
    if n == 0 then 0 else (if x % 2 == 1 then Pow2(n - 1) else 0) + Rev(x / 2, n - 1)
  }

  lemma {:induction false} RevBound(x: nat, n: nat)
    ensures Rev(x, n) < Pow2(n)
  {
    if n > 0 { RevBound(x / 2, n - 1); }
  }

  lemma {:induction false} Pow2Add(a: nat, b: nat)
    ensures Pow2(a + b) == Pow2(a) * Pow2(b)
    decreases a
  {
    if a > 0 {
      Pow2Add(a - 1, b);
      assert 2 * (Pow2(a - 1) * Pow2(b)) == (2 * Pow2(a - 1)) * Pow2(b);
    }
  }

  /** The first a bits end up above the other b. */
  lemma {:induction false} RevSplit(x: nat, a: nat, b: nat)
    ensures Rev(x, a + b) == Rev(x, a) * Pow2(b) + Rev(Shr(x, a), b)
    decreases a
  {
    if a > 0 {
      RevSplit(x / 2, a - 1, b);
      Pow2Add(a - 1, b);
      Collect(Pow2(a - 1), Rev(x / 2, a - 1), Pow2(b));
    }
  }

  lemma Collect(p: nat, r: nat, q: nat)
    ensures p * q + r * q == (p + r) * q
  {
  }

  lemma {:induction false} RevLow(x: nat, n: nat)
    ensures Rev(Low(x, n), n) == Rev(x, n)
  {
    if n > 0 { RevLow(x / 2, n - 1); }
  }

  lemma {:induction false} LowShr(y: nat, e: nat, r: nat, m: nat)
    requires y == e * Pow2(m) + r && r < Pow2(m)
    ensures Low(y, m) == r && Shr(y, m) == e
    decreases m
  {
    if m > 0 {
      var p := Pow2(m - 1);
      assert e * (2 * p) == 2 * (e * p);
      assert y / 2 == e * p + r / 2 && y % 2 == r % 2;
      LowShr(y / 2, e, r / 2, m - 1);
    }
  }

  /** Reversing twice gives the low bits back. */
  lemma {:induction false} RevRev(x: nat, n: nat)
    ensures Rev(Rev(x, n), n) == Low(x, n)
  {
    if n > 0 {
      var m := n - 1;
      var y, r := Rev(x, n), Rev(x / 2, m);
      RevBound(x / 2, m);
      LowShr(y, x % 2, r, m);
      RevLow(y, m);
      RevRev(x / 2, m);
      RevSplit(y, m, 1);
      RevOne(Shr(y, m));
      RevOneBit(Rev(y, m), x % 2);
    }
  }

  lemma RevOne(e: nat)
    ensures Rev(e, 1) == e % 2
  {
    assert Rev(e / 2, 0) == 0;
  }

  lemma RevOneBit(a: nat, e: nat)
    ensures a * Pow2(1) + e == 2 * a + e
  {
  }

  /** Zeros appended at the least significant end of a code leave its reversal unchanged. */
  lemma {:induction false} RevZeros(c: nat, m: nat, n: nat)
    ensures Rev(c * Pow2(m), m + n) == Rev(c, n)
    decreases m
  {
    if m > 0 {
      var p := Pow2(m - 1);
      assert c * (2 * p) == 2 * (c * p);
      RevZeros(c, m - 1, n);
    }
  }

  /** A word starts with the n-bit code c, sent most significant bit first, exactly if its low bits
      are the reversal of c. */
  lemma StartsWith(w: nat, c: nat, n: nat)
    requires c < Pow2(n)
    ensures Low(w, n) == Rev(c, n) <==> Rev(w, n) == c
  {
    RevRev(w, n);
    RevRev(c, n);
    RevLow(w, n);
    LowSmall(c, n);
  }

  lemma {:induction false} LowSmall(c: nat, n: nat)
    requires c < Pow2(n)
    ensures Low(c, n) == c
  {
    if n > 0 { LowSmall(c / 2, n - 1); }
  }

  /** inflate_table's increment of a reversed code, which carries from the top down. */
  function BackInc(h: nat, n: nat): nat
  {
    if n == 0 then 0
    else if h < Pow2(n - 1) then h + Pow2(n - 1)
    else BackInc(h - Pow2(n - 1), n - 1)
  }

  lemma {:induction false} BackIncIs(c: nat, n: nat)
    ensures BackInc(Rev(c, n), n) == Rev(c + 1, n)
  {
    if n > 0 {
      RevBound(c / 2, n - 1);
      if c % 2 == 0 {
        assert (c + 1) / 2 == c / 2;
      } else {
        assert (c + 1) / 2 == c / 2 + 1;
        BackIncIs(c / 2, n - 1);
      }
    }
  }

  /** bi_reverse: builds the reversal one bit at a time. */
  method BiReverse(code0: nat, len: nat) returns (r: nat)
    requires 1 <= len
    ensures r == Rev(code0, len)
  {
    hide Or, And, Rev;
    var code: nat, res: nat, n := code0, 0, len;
    ReverseStart(code0, len);
    while n > 0
      invariant 0 <= n <= len && res % 2 == 0
      invariant res / 2 * Pow2(n) + Rev(code, n) == Rev(code0, len)
    {
      AndMask(code, 1);
      OrDisjoint(res, And(code, 1), 1);
      ReverseStep(res, code, n);
      res := Or(res, And(code, 1));
      code, res, n := code / 2, res * 2, n - 1;
    }
    ReverseEnd(res, code);
    r := res / 2;
  }

  lemma ReverseStart(code: nat, len: nat)
    ensures 0 / 2 * Pow2(len) + Rev(code, len) == Rev(code, len)
  {
  }

  lemma ReverseStep(res: nat, code: nat, n: nat)
    requires n > 0 && res % 2 == 0
    ensures (res + code % 2) * 2 / 2 * Pow2(n - 1) + Rev(code / 2, n - 1) == res / 2 * Pow2(n) + Rev(code, n)
  {
    var p := Pow2(n - 1);
    assert res / 2 * (2 * p) == res * p;
    if code % 2 == 1 { assert (res + 1) * p == res * p + p; }
  }

  lemma ReverseEnd(res: nat, code: nat)
    requires res % 2 == 0
    ensures res / 2 * Pow2(0) + Rev(code, 0) == res / 2
  {
  }
}
