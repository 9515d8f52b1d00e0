/** The probe sequence i -> 5i + 1 modulo a power of two visits every slot before it repeats. */
module Probe {
  import opened Bits

  /** 2^k divides n. */
  predicate Div(k: nat, n: nat)
  {
    k == 0 || (n % 2 == 0 && Div(k - 1, n / 2))
  }

  lemma {:induction false} DivIsMod(k: nat, n: nat)
    ensures Div(k, n) <==> n % Pow2(k) == 0
  {
    if k > 0 {
      DivIsMod(k - 1, n / 2);
      ModDouble(n, Pow2(k - 1));
    }
  }

  /** The n-th probe from i, before reduction to a slot. */
  function Iter(i: nat, n: nat): nat
  {
    if n == 0 then i else 5 * Iter(i, n - 1) + 1
  }

  lemma {:induction false} IterAdd(i: nat, a: nat, b: nat)
    ensures Iter(i, a + b) == Iter(Iter(i, a), b)
    decreases b
  {
    if b > 0 {
      IterAdd(i, a, b - 1);
    }
  }

  /** Starting elsewhere scales the distance travelled from zero by an odd number. */
  lemma {:induction false} IterFrom(x: nat, d: nat)
    ensures Iter(x, d) == x + Iter(0, d) * (4 * x + 1)
  {
    if d > 0 {
      IterFrom(x, d - 1);
      var g, o := Iter(0, d - 1), 4 * x + 1;
      assert (5 * g + 1) * o == 5 * (g * o) + o;
    }
  }

  lemma {:induction false} IterParity(d: nat)
    ensures Iter(0, d) % 2 == d % 2
  {
    if d > 0 {
      IterParity(d - 1);
      NextParity(Iter(0, d - 1), d - 1);
    }
  }

  lemma NextParity(g: nat, d: nat)
    requires g % 2 == d % 2
    ensures (5 * g + 1) % 2 == (d + 1) % 2
  {
    NextOdd(4 * g, g);
    NextOdd(0, d);
  }

  /** With an even number added, the successor has the other parity. */
  lemma NextOdd(a: nat, g: nat)
    requires a % 4 == 0
    ensures (a + g + 1) % 2 == 1 - g % 2
  {
  }

  lemma IterTwice(e: nat)
    ensures Iter(0, 2 * e) == 2 * (Iter(0, e) * (2 * Iter(0, e) + 1))
  {
    IterAdd(0, e, e);
    var g := Iter(0, e);
    IterFrom(g, e);
    Rearrange(g);
  }

  lemma Rearrange(g: nat)
    ensures g + g * (4 * g + 1) == 2 * (g * (2 * g + 1))
  {
    assert g * (4 * g + 1) == 4 * (g * g) + g;
    assert g * (2 * g + 1) == 2 * (g * g) + g;
  }

  /** An odd factor does not help a power of two to divide. */
  lemma {:induction false} OddCancel(k: nat, g: nat, m: nat)
    requires Div(k, g * (2 * m + 1))
    ensures Div(k, g)
    decreases k
  {
    if k > 0 {
      OddTimes(g, m);
      Halve(g / 2, 2 * m + 1);
      OddCancel(k - 1, g / 2, m);
    }
  }

  lemma OddTimes(g: nat, m: nat)
    ensures g * (2 * m + 1) % 2 == g % 2
  {
    assert g * (2 * m + 1) == 2 * (g * m) + g;
    PlusEven(g * m, g);
  }

  lemma PlusEven(a: nat, g: nat)
    ensures (2 * a + g) % 2 == g % 2
  {
  }

  lemma Halve(h: nat, o: nat)
    ensures (2 * h) * o == 2 * (h * o) && (2 * h) * o / 2 == h * o
  {
    assert (2 * h) * o == 2 * (h * o);
  }

  lemma {:induction false} IterDiv(k: nat, d: nat)
    requires Div(k, Iter(0, d))
    ensures Div(k, d)
    decreases k
  {
    if k > 0 {
      IterParity(d);
      var e := d / 2;
      IterTwice(e);
      OddCancel(k - 1, Iter(0, e), Iter(0, e));
      IterDiv(k - 1, e);
    }
  }

  lemma SameRemainder(x: nat, y: nat, p: nat)
    requires p > 0 && x % p == y % p && x <= y
    ensures (y - x) % p == 0
  {
    var q := y / p - x / p;
    assert y == y / p * p + y % p && x == x / p * p + x % p;
    assert q * p == y / p * p - x / p * p;
    if q < 0 {
      MulAtLeast(-q, p);
    } else {
      DivModUnique(y - x, p, q, 0);
    }
  }

  lemma SmallMod(d: nat, p: nat)
    requires d < p
    ensures d % p == d
  {
    DivModUnique(d, p, 0, d);
  }

  /** The first 2^k probes are distinct modulo 2^k. */
  lemma FullCycle(k: nat, start: nat, a: nat, b: nat)
    requires a < b < Pow2(k)
    ensures Iter(start, a) % Pow2(k) != Iter(start, b) % Pow2(k)
  {
    hide Iter, Div, Pow2;
    var y, d := Iter(start, a), b - a;
    IterAdd(start, a, d);
    if y % Pow2(k) == Iter(y, d) % Pow2(k) {
      Return(k, y, d);
    }
  }

  /** Coming back to the same slot takes a multiple of 2^k probes. */
  lemma Return(k: nat, y: nat, d: nat)
    requires y % Pow2(k) == Iter(y, d) % Pow2(k)
    ensures d % Pow2(k) == 0 && (0 < d ==> d >= Pow2(k))
  {
    hide Iter, Div, Pow2;
    var g, o := Iter(0, d), 4 * y + 1;
    IterFrom(y, d);
    assert g * o >= 0;
    SameRemainder(y, y + g * o, Pow2(k));
    DivIsMod(k, g * o);
    assert o == 2 * (2 * y) + 1;
    OddCancel(k, g, 2 * y);
    IterDiv(k, d);
    DivIsMod(k, d);
    if d < Pow2(k) { SmallMod(d, Pow2(k)); }
  }

  function Slot(start: nat, n: nat, size: nat): (s: nat)
    requires size > 0
    ensures s < size
  {
    Iter(start, n) % size
  }

  ghost function Visited(start: nat, n: nat, size: nat): (v: set<nat>)
    requires size > 0
  {
    if n == 0 then {} else Visited(start, n - 1, size) + {Slot(start, n - 1, size)}
  }

  lemma {:induction false} VisitedIs(start: nat, n: nat, size: nat)
    requires size > 0
    ensures forall s :: s in Visited(start, n, size) <==> exists j: nat :: j < n && Slot(start, j, size) == s
  {
    hide Slot;
    if n > 0 {
      VisitedIs(start, n - 1, size);
      forall s | s in Visited(start, n, size) ensures exists j: nat :: j < n && Slot(start, j, size) == s {
        if s in Visited(start, n - 1, size) {
          var j: nat :| j < n - 1 && Slot(start, j, size) == s;
        } else {
          assert Slot(start, n - 1, size) == s;
        }
      }
    }
  }

  lemma {:induction false} VisitedCount(start: nat, n: nat, k: nat)
    requires n <= Pow2(k)
    ensures |Visited(start, n, Pow2(k))| == n
  {
    hide Slot, Pow2;
    if n > 0 {
      VisitedCount(start, n - 1, k);
      VisitedIs(start, n - 1, Pow2(k));
      forall j: nat | j < n - 1
        ensures Slot(start, j, Pow2(k)) != Slot(start, n - 1, Pow2(k))
      {
        NewSlot(start, j, n - 1, k);
      }
    }
  }

  lemma NewSlot(start: nat, a: nat, b: nat, k: nat)
    requires a < b < Pow2(k)
    ensures Slot(start, a, Pow2(k)) != Slot(start, b, Pow2(k))
  {
    hide Iter, Pow2;
    FullCycle(k, start, a, b);
  }

  ghost function Range(n: nat): (r: set<nat>)
    ensures |r| == n && forall x: nat :: x in r <==> x < n
  {
    if n == 0 then {} else Range(n - 1) + {n - 1}
  }

  lemma SubsetFull(a: set<nat>, b: set<nat>)
    requires a <= b && |a| == |b|
    ensures a == b
  {
    if x :| x in b && x !in a {
      assert a <= b - {x};
      SubsetSize(a, b - {x});
    }
  }

  lemma {:induction false} SubsetSize(a: set<nat>, b: set<nat>)
    requires a <= b
    ensures |a| <= |b|
  {
    if x :| x in a {
      SubsetSize(a - {x}, b - {x});
    }
  }

  lemma {:induction false} VisitedRange(start: nat, n: nat, size: nat)
    requires size > 0
    ensures Visited(start, n, size) <= Range(size)
  {
    hide Range, Slot;
    if n > 0 { VisitedRange(start, n - 1, size); }
  }

  /** Every slot is reached within the first 2^k probes. */
  lemma EverySlot(k: nat, start: nat, s: nat) returns (j: nat)
    requires s < Pow2(k)
    ensures j < Pow2(k) && Slot(start, j, Pow2(k)) == s
  {
    hide Visited, Range, Slot, Pow2;
    var size := Pow2(k);
    VisitedCount(start, size, k);
    VisitedRange(start, size, size);
    SubsetFull(Visited(start, size, size), Range(size));
    assert s in Range(size);
    VisitedIs(start, size, size);
    j :| j < size && Slot(start, j, size) == s;
  }
}
