/** Sums of code space over the nodes of a tree and over counts per length. */
module KraftSums {
  import opened Bits
  import opened Canonical

  predicate Within(s: seq<nat>, n: nat)
  {
    forall i :: 0 <= i < |s| ==> s[i] < n
  }

  /** The total weight of the nodes in s. */
  function SumW(s: seq<nat>, w: seq<nat>): nat
    requires Within(s, |w|)
  {
    if s == [] then 0 else w[s[0]] + SumW(s[1..], w)
  }

  lemma {:induction false} SumJoin(a: seq<nat>, b: seq<nat>, w: seq<nat>)
    requires Within(a, |w|) && Within(b, |w|)
    ensures Within(a + b, |w|) && SumW(a + b, w) == SumW(a, w) + SumW(b, w)
  {
    if a == [] {
      assert a + b == b;
    } else {
      SumJoin(a[1..], b, w);
      assert (a + b)[1..] == a[1..] + b;
    }
  }

  lemma SumOne(x: nat, w: seq<nat>)
    requires x < |w|
    ensures SumW([x], w) == w[x]
  {
    assert [x][1..] == [];
  }

  /** A sum does not depend on the order. */
  lemma {:induction false} SumPerm(a: seq<nat>, b: seq<nat>, w: seq<nat>)
    requires Within(a, |w|) && Within(b, |w|) && multiset(a) == multiset(b)
    ensures SumW(a, w) == SumW(b, w)
    decreases |a|
  {
    if a == [] {
      assert |multiset(a)| == |multiset(b)|;
    } else {
      var x := a[0];
      var i := Find(a, b);
      var b1, b2 := b[..i], b[i + 1..];
      Removed(a, b, i);
      SumPerm(a[1..], b1 + b2, w);
      SumJoin(b1, b2, w);
      SumJoin([x], b2, w);
      SumJoin(b1, [x] + b2, w);
      SumOne(x, w);
      assert b == b1 + ([x] + b2);
    }
  }

  lemma Find(a: seq<nat>, b: seq<nat>) returns (i: nat)
    requires a != [] && multiset(a) == multiset(b)
    ensures i < |b| && b[i] == a[0]
  {
    assert a[0] in multiset(a);
    assert a[0] in b;
    i :| i < |b| && b[i] == a[0];
  }

  lemma Removed(a: seq<nat>, b: seq<nat>, i: nat)
    requires a != [] && multiset(a) == multiset(b) && i < |b| && b[i] == a[0]
    ensures multiset(a[1..]) == multiset(b[..i] + b[i + 1..])
  {
    assert a == [a[0]] + a[1..];
    assert b == b[..i] + [b[i]] + b[i + 1..];
    assert multiset(a) == multiset{a[0]} + multiset(a[1..]);
    assert multiset(b) == multiset(b[..i]) + multiset{b[i]} + multiset(b[i + 1..]);
    assert multiset(b[..i] + b[i + 1..]) == multiset(b[..i]) + multiset(b[i + 1..]) == multiset(b) - multiset{b[i]};
    assert multiset(a[1..]) == multiset(a) - multiset{a[0]};
  }

  // ----- sums over lengths

  /** The code space of a code of length l, in units of codes of length max. */
  function Space(max: nat, l: nat): nat
  {
    if l <= max then Pow2(max - l) else 0
  }

  /** The code space of bl[b] codes for each length b up to n. */
  function KraftCount(bl: seq<nat>, max: nat, n: nat): nat
    requires n < |bl|
  {
    if n == 0 then 0 else KraftCount(bl, max, n - 1) + bl[n] * Space(max, n)
  }

  /** The number of codes of the lengths 1 to n. */
  function CodeCount(bl: seq<nat>, n: nat): nat
    requires n < |bl|
  {
    if n == 0 then 0 else CodeCount(bl, n - 1) + bl[n]
  }

  lemma {:induction false} KraftBump(bl: seq<nat>, max: nat, n: nat, b: nat, v: nat)
    requires n < |bl| && 1 <= b < |bl|
    ensures KraftCount(bl[b := v], max, n) + (if b <= n then bl[b] * Space(max, b) else 0) ==
            KraftCount(bl, max, n) + if b <= n then v * Space(max, b) else 0
  {
    hide Space;
    if n > 0 { KraftBump(bl, max, n - 1, b, v); }
  }

  lemma {:induction false} CountBump(bl: seq<nat>, n: nat, b: nat, v: nat)
    requires n < |bl| && 1 <= b < |bl|
    ensures CodeCount(bl[b := v], n) + (if b <= n then bl[b] else 0) == CodeCount(bl, n) + if b <= n then v else 0
  {
    if n > 0 { CountBump(bl, n - 1, b, v); }
  }

  /** If every shorter length is unused, the space is the number of codes. */
  lemma {:induction false} KraftNone(bl: seq<nat>, max: nat, n: nat)
    requires n < |bl| && forall b :: 1 <= b <= n ==> bl[b] == 0
    ensures KraftCount(bl, max, n) == 0 && CodeCount(bl, n) == 0
  {
    if n > 0 { KraftNone(bl, max, n - 1); }
  }

  /** Adding one code of length b. */
  lemma KraftInc(bl: seq<nat>, max: nat, n: nat, b: nat)
    requires 1 <= b <= n < |bl|
    ensures KraftCount(bl[b := bl[b] + 1], max, n) == KraftCount(bl, max, n) + Space(max, b)
    ensures CodeCount(bl[b := bl[b] + 1], n) == CodeCount(bl, n) + 1
  {
    hide Space;
    KraftBump(bl, max, n, b, bl[b] + 1);
    Distrib(bl[b], 1, Space(max, b));
    CountBump(bl, n, b, bl[b] + 1);
  }
}
