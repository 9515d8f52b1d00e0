/** Why merging the two least weights is best: no prefix code for some weights costs less than the merges. */
module OptimalCode {
  import opened Bits
  import opened Reverse
  import opened Canonical

  /** A symbol with its weight and the length of its code. */
  datatype Sym = Sym(w: nat, l: nat)

  /** What is added up over the symbols: the bits of all uses, or the code space in units of 2^-m. */
  datatype Measure = Bill | Room(m: nat)

  function Value(f: Measure, s: Sym): nat
  {
    match f
    case Bill => s.w * s.l
    case Room(m) => if s.l <= m then Pow2(m - s.l) else 0
  }

  function Sum(f: Measure, a: seq<Sym>): nat
  {
    if a == [] then 0 else Value(f, a[0]) + Sum(f, a[1..])
  }

  function Weights(a: seq<Sym>): multiset<nat>
  {
    if a == [] then multiset{} else multiset{a[0].w} + Weights(a[1..])
  }

  function Without(a: seq<Sym>, p: nat): (b: seq<Sym>)
    requires p < |a|
    ensures |b| == |a| - 1
  {
    a[..p] + a[p + 1..]
  }

  lemma WithoutNext(a: seq<Sym>, p: nat)
    requires 0 < p < |a|
    ensures Without(a, p)[0] == a[0] && Without(a, p)[1..] == Without(a[1..], p - 1)
  {
  }

  lemma {:induction false} BillAt(f: Measure, a: seq<Sym>, p: nat)
    requires p < |a|
    ensures Sum(f, a) == Value(f, a[p]) + Sum(f, Without(a, p))
  {
    hide Value, Without;
    if p == 0 {
      WithoutFirst(a);
    } else {
      BillAt(f, a[1..], p - 1);
      WithoutNext(a, p);
    }
  }

  lemma WithoutFirst(a: seq<Sym>)
    requires a != []
    ensures Without(a, 0) == a[1..]
  {
  }

  lemma {:induction false} WeightsAt(a: seq<Sym>, p: nat)
    requires p < |a|
    ensures Weights(a) == multiset{a[p].w} + Weights(Without(a, p))
  {
    hide Without;
    if p == 0 {
      WithoutFirst(a);
    } else {
      WeightsAt(a[1..], p - 1);
      WithoutNext(a, p);
    }
  }

  lemma SumAt(f: Measure, a: seq<Sym>, p: nat)
    requires p < |a|
    ensures Sum(f, a) == Value(f, a[p]) + Sum(f, Without(a, p))
    ensures Weights(a) == multiset{a[p].w} + Weights(Without(a, p))
  {
    hide Value, Sum, Weights, Without;
    BillAt(f, a, p);
    WeightsAt(a, p);
  }

  lemma SumSet(f: Measure, a: seq<Sym>, p: nat, s: Sym)
    requires p < |a|
    ensures Sum(f, a[p := s]) + Value(f, a[p]) == Sum(f, a) + Value(f, s)
    ensures s.w == a[p].w ==> Weights(a[p := s]) == Weights(a)
  {
    hide Value, Sum, Weights;
    SumAt(f, a, p);
    SumAt(f, a[p := s], p);
    assert Without(a[p := s], p) == Without(a, p);
  }

  /** The lengths, at most m, are those of some prefix code. */
  predicate Coding(a: seq<Sym>, m: nat)
  {
    (forall i :: 0 <= i < |a| ==> a[i].l <= m) && Sum(Room(m), a) <= Pow2(m)
  }

  lemma {:induction false} Rescale(a: seq<Sym>, m: nat, l: nat)
    requires l <= m && forall i :: 0 <= i < |a| ==> a[i].l <= l
    ensures Sum(Room(m), a) == Sum(Room(l), a) * Pow2(m - l)
  {
    hide Pow2;
    if a != [] {
      Rescale(a[1..], m, l);
      Pow2Add(l - a[0].l, m - l);
      Distrib(Value(Room(l), a[0]), Sum(Room(l), a[1..]), Pow2(m - l));
    }
  }

  lemma CodingAt(a: seq<Sym>, m: nat, l: nat)
    requires Coding(a, m) && l <= m && forall i :: 0 <= i < |a| ==> a[i].l <= l
    ensures Coding(a, l)
  {
    hide Pow2, Sum;
    Rescale(a, m, l);
    Pow2Add(l, m - l);
    Cancel(Sum(Room(l), a), Pow2(l), Pow2(m - l));
  }

  /** The longest length, and where it is. */
  lemma {:induction false} Longest(a: seq<Sym>) returns (p: nat)
    requires a != []
    ensures p < |a| && forall i :: 0 <= i < |a| ==> a[i].l <= a[p].l
  {
    p := 0;
    if |a| > 1 {
      var q := Longest(a[1..]);
      if a[q + 1].l > a[0].l { p := q + 1; }
      forall i | 0 <= i < |a| ensures a[i].l <= a[p].l { assert i > 0 ==> a[i] == a[1..][i - 1]; }
    }
  }

  /** Two symbols need at least one bit. */
  lemma SomeBits(a: seq<Sym>, m: nat)
    requires Coding(a, m) && |a| >= 2
    ensures exists i :: 0 <= i < |a| && a[i].l > 0
  {
    hide Pow2;
    FirstTwo(Room(m), a);
    assert a[0].l > 0 || a[1].l > 0;
  }

  lemma FirstTwo(f: Measure, a: seq<Sym>)
    requires |a| >= 2
    ensures Sum(f, a) >= Value(f, a[0]) + Value(f, a[1])
  {
    hide Value;
    assert a[1..][0] == a[1];
  }

  predicate AloneAt(a: seq<Sym>, p: nat)
    requires p < |a|
  {
    forall i :: 0 <= i < |a| && i != p ==> a[i].l < a[p].l
  }

  lemma {:induction false} EvenRoom(a: seq<Sym>, l: nat)
    requires forall i :: 0 <= i < |a| ==> a[i].l < l
    ensures Sum(Room(l), a) % 2 == 0
  {
    if a != [] { EvenRoom(a[1..], l); }
  }

  /** A code that alone has the longest length can lose a bit. */
  lemma Shorten(a: seq<Sym>, p: nat)
    requires p < |a| && a[p].l > 0 && Coding(a, a[p].l) && AloneAt(a, p)
    ensures var b := a[p := Sym(a[p].w, a[p].l - 1)];
            Coding(b, a[p].l) && Weights(b) == Weights(a) && Sum(Bill, b) <= Sum(Bill, a)
  {
    hide Sum, Weights;
    var l, s := a[p].l, Sym(a[p].w, a[p].l - 1);
    SumAt(Room(l), a, p);
    EvenRoom(Without(a, p), l);
    SumSet(Room(l), a, p, s);
    SumSet(Bill, a, p, s);
    LessBill(a[p].w, l);
    assert Pow2(0) == 1 && Pow2(1) == 2;
    assert Pow2(l) == 2 * Pow2(l - 1);
  }

  lemma LessBill(w: nat, l: nat)
    requires l > 0
    ensures w * (l - 1) <= w * l
  {
  }

  function AllBits(a: seq<Sym>): nat
  {
    if a == [] then 0 else a[0].l + AllBits(a[1..])
  }

  lemma {:induction false} BitsSet(a: seq<Sym>, p: nat, s: Sym)
    requires p < |a|
    ensures AllBits(a[p := s]) + a[p].l == AllBits(a) + s.l
  {
    if p > 0 {
      BitsSet(a[1..], p - 1, s);
      assert a[p := s][1..] == a[1..][p - 1 := s];
    } else {
      assert a[p := s][1..] == a[1..];
    }
  }

  /** Some code for the same weights costs no more and has its longest length twice. */
  lemma {:induction false} Paired(a: seq<Sym>, m: nat) returns (b: seq<Sym>, i: nat, j: nat)
    requires Coding(a, m) && |a| >= 2
    ensures |b| == |a| && Weights(b) == Weights(a) && Sum(Bill, b) <= Sum(Bill, a)
    ensures i < |b| && j < |b| && i != j && b[i].l == b[j].l > 0 && Coding(b, b[i].l)
    decreases AllBits(a)
  {
    hide Sum, Weights, Pow2, AllBits;
    SomeBits(a, m);
    i := Longest(a);
    CodingAt(a, m, a[i].l);
    if AloneAt(a, i) {
      Shorten(a, i);
      var s := Sym(a[i].w, a[i].l - 1);
      BitsSet(a, i, s);
      b, i, j := Paired(a[i := s], a[i].l);
    } else {
      b := a;
      j :| 0 <= j < |a| && j != i && a[j].l >= a[i].l;
    }
  }

  /** Giving the longer code to the smaller weight costs no more. */
  lemma Exchange(a: seq<Sym>, p: nat, q: nat, m: nat) returns (b: seq<Sym>)
    requires p < |a| && q < |a| && Coding(a, m) && a[p].w <= a[q].w && a[p].l <= a[q].l
    ensures b == a[p := Sym(a[p].w, a[q].l)][q := Sym(a[q].w, if p == q then a[q].l else a[p].l)]
    ensures Coding(b, m) && Weights(b) == Weights(a) && Sum(Bill, b) <= Sum(Bill, a)
  {
    hide Sum, Weights, Pow2;
    if p == q {
      b := a;
    } else {
      var s, t := Sym(a[p].w, a[q].l), Sym(a[q].w, a[p].l);
      var c := a[p := s];
      b := c[q := t];
      SumSet(Bill, a, p, s);
      SumSet(Bill, c, q, t);
      SumSet(Room(m), a, p, s);
      SumSet(Room(m), c, q, t);
      Crossed(a[p].w, a[q].w, a[p].l, a[q].l);
    }
  }

  lemma Crossed(v: nat, w: nat, k: nat, l: nat)
    requires v <= w && k <= l
    ensures v * l + w * k <= v * k + w * l
  {
    var d, e := w - v, l - k;
    assert w * l == v * l + d * l && w * k == v * k + d * k;
    assert d * l == d * k + d * e;
  }

  /** No prefix code for these weights costs less than c. */
  ghost predicate Optimal(ms: multiset<nat>, c: nat)
  {
    forall a: seq<Sym>, m: nat :: Coding(a, m) && Weights(a) == ms ==> Sum(Bill, a) >= c
  }

  lemma {:induction false} WeightsSize(a: seq<Sym>)
    ensures |Weights(a)| == |a|
  {
    if a != [] { WeightsSize(a[1..]); }
  }

  lemma {:induction false} FindWeight(a: seq<Sym>, x: nat) returns (p: nat)
    requires x in Weights(a)
    ensures p < |a| && a[p].w == x
  {
    if a[0].w == x {
      p := 0;
    } else {
      var q := FindWeight(a[1..], x);
      p := q + 1;
    }
  }

  /** Two symbols with the two least weights. */
  lemma FindTwo(a: seq<Sym>, x: nat, y: nat) returns (p: nat, q: nat)
    requires x in Weights(a) && y in Weights(a) - multiset{x}
    ensures p < |a| && q < |a| && p != q && a[p].w == x && a[q].w == y
  {
    hide Weights, Sum;
    p := FindWeight(a, x);
    SumAt(Bill, a, p);
    var b := Without(a, p);
    assert Weights(b) == Weights(a) - multiset{x};
    var r := FindWeight(b, y);
    q := if r < p then r else r + 1;
    assert b[r] == a[q];
  }

  lemma WeightAt(a: seq<Sym>, p: nat)
    requires p < |a|
    ensures a[p].w in Weights(a)
  {
    hide Weights, Sum;
    SumAt(Bill, a, p);
  }

  lemma OtherWeight(a: seq<Sym>, p: nat, i: nat)
    requires p < |a| && i < |a| && i != p
    ensures a[i].w in Weights(a) - multiset{a[p].w}
  {
    hide Weights, Sum;
    SumAt(Bill, a, p);
    var b := Without(a, p);
    var r := if i < p then i else i - 1;
    assert b[r] == a[i];
    WeightAt(b, r);
    assert Weights(b) == Weights(a) - multiset{a[p].w};
  }

  /** x and y are two least of these weights. */
  ghost predicate TwoLeast(ms: multiset<nat>, x: nat, y: nat)
  {
    && x in ms && y in ms - multiset{x}
    && (forall z :: z in ms ==> x <= z) && (forall z :: z in ms - multiset{x} ==> y <= z)
  }

  lemma TwoOrMore(ms: multiset<nat>, x: nat, y: nat)
    requires x in ms && y in ms - multiset{x}
    ensures |ms| >= 2
  {
    assert ms == multiset{x} + (multiset{y} + (ms - multiset{x} - multiset{y}));
  }

  /** The two least weights can have the longest codes. */
  lemma Deepest(a: seq<Sym>, m: nat, x: nat, y: nat) returns (b: seq<Sym>, p: nat, q: nat)
    requires Coding(a, m) && TwoLeast(Weights(a), x, y)
    ensures Weights(b) == Weights(a) && Sum(Bill, b) <= Sum(Bill, a)
    ensures p < |b| && q < |b| && p != q && b[p].w == x && b[q].w == y && b[p].l == b[q].l > 0 && Coding(b, b[p].l)
  {
    hide Sum, Weights, Pow2;
    WeightsSize(a);
    TwoOrMore(Weights(a), x, y);
    var i, j;
    b, i, j := Paired(a, m);
    var l := b[i].l;
    p, q := FindTwo(b, x, y);
    var k := if i != p then i else j;
    if b[p].l != l {
      WeightAt(b, i);
      b := Exchange(b, p, i, l);
      k := j;
    }
    if b[q].l != l {
      OtherWeight(b, p, k);
      b := Exchange(b, q, k, l);
    }
  }

  /** The weights after x and y have been merged. */
  function Joined(ms: multiset<nat>, x: nat, y: nat): multiset<nat>
  {
    ms - multiset{x} - multiset{y} + multiset{x + y}
  }

  /** Merging the two least weights: what is best after it is best before it. */
  lemma MergeOptimal(ms: multiset<nat>, x: nat, y: nat, c: nat)
    requires TwoLeast(ms, x, y) && Optimal(Joined(ms, x, y), c)
    ensures Optimal(ms, c + x + y)
  {
    hide Sum, Weights, Coding, TwoLeast, Joined;
    forall a: seq<Sym>, m: nat | Coding(a, m) && Weights(a) == ms
      ensures Sum(Bill, a) >= c + x + y
    {
      var b, p, q := Deepest(a, m, x, y);
      MergedBill(b, p, q, x, y, ms, c);
    }
  }

  /** The symbol for both in place of the two. */
  function Merged(b: seq<Sym>, p: nat, q: nat): (d: seq<Sym>)
    requires p < |b| && q < |b| && p != q && b[p].l > 0
  {
    [Sym(b[p].w + b[q].w, b[p].l - 1)] + Without(Without(b, p), if q < p then q else q - 1)
  }

  lemma MergedParts(b: seq<Sym>, p: nat, q: nat) returns (r: nat, b2: seq<Sym>)
    requires p < |b| && q < |b| && p != q && b[p].l > 0
    ensures r < |Without(b, p)| && Without(b, p)[r] == b[q] && b2 == Without(Without(b, p), r)
    ensures Merged(b, p, q)[0] == Sym(b[p].w + b[q].w, b[p].l - 1) && Without(Merged(b, p, q), 0) == b2
  {
    r := if q < p then q else q - 1;
    b2 := Without(Without(b, p), r);
    WithoutFirst(Merged(b, p, q));
  }

  lemma MergedSum(f: Measure, b: seq<Sym>, p: nat, q: nat)
    requires p < |b| && q < |b| && p != q && b[p].l > 0
    ensures var s := Sym(b[p].w + b[q].w, b[p].l - 1);
            Sum(f, b) + Value(f, s) == Value(f, b[p]) + Value(f, b[q]) + Sum(f, Merged(b, p, q))
  {
    hide Sum, Value, Without, Merged;
    var r, b2 := MergedParts(b, p, q);
    BillAt(f, b, p);
    BillAt(f, Without(b, p), r);
    BillAt(f, Merged(b, p, q), 0);
  }

  lemma MergedWeights(b: seq<Sym>, p: nat, q: nat)
    requires p < |b| && q < |b| && p != q && b[p].l > 0
    ensures Weights(Merged(b, p, q)) == Joined(Weights(b), b[p].w, b[q].w)
  {
    hide Weights, Without, Merged, Joined;
    var r, b2 := MergedParts(b, p, q);
    WeightsAt(b, p);
    WeightsAt(Without(b, p), r);
    WeightsAt(Merged(b, p, q), 0);
    TakeTwo(Weights(b), Weights(Without(b, p)), Weights(b2), b[p].w, b[q].w);
  }

  lemma TakeTwo(ms: multiset<nat>, ms1: multiset<nat>, ms2: multiset<nat>, x: nat, y: nat)
    requires ms == multiset{x} + ms1 && ms1 == multiset{y} + ms2
    ensures multiset{x + y} + ms2 == Joined(ms, x, y)
  {
    assert ms - multiset{x} == ms1;
    assert ms1 - multiset{y} == ms2;
  }

  lemma MergedShort(b: seq<Sym>, p: nat, q: nat)
    requires p < |b| && q < |b| && p != q && b[p].l > 0 && forall i :: 0 <= i < |b| ==> b[i].l <= b[p].l
    ensures var d := Merged(b, p, q); forall i :: 0 <= i < |d| ==> d[i].l <= b[p].l
  {
  }

  lemma MergedCoding(b: seq<Sym>, p: nat, q: nat)
    requires p < |b| && q < |b| && p != q && b[p].l == b[q].l > 0 && Coding(b, b[p].l)
    ensures Coding(Merged(b, p, q), b[p].l)
  {
    hide Sum, Merged, Pow2;
    MergedShort(b, p, q);
    MergedSum(Room(b[p].l), b, p, q);
    SmallUnits();
  }

  lemma SmallUnits()
    ensures Pow2(0) == 1 && Pow2(1) == 2
  {
  }

  lemma MergedBill(b: seq<Sym>, p: nat, q: nat, x: nat, y: nat, ms: multiset<nat>, c: nat)
    requires Weights(b) == ms && Optimal(Joined(ms, x, y), c)
    requires p < |b| && q < |b| && p != q && b[p].w == x && b[q].w == y && b[p].l == b[q].l > 0 && Coding(b, b[p].l)
    ensures Sum(Bill, b) >= c + x + y
  {
    hide Sum, Weights, Coding, Merged, Optimal, Joined;
    MergedSum(Bill, b, p, q);
    MergedWeights(b, p, q);
    MergedCoding(b, p, q);
    OptimalAt(Joined(ms, x, y), c, Merged(b, p, q), b[p].l);
    JoinBill(x, y, b[p].l);
  }

  lemma OptimalAt(ms: multiset<nat>, c: nat, a: seq<Sym>, m: nat)
    requires Optimal(ms, c) && Coding(a, m) && Weights(a) == ms
    ensures Sum(Bill, a) >= c
  {
  }

  lemma JoinBill(x: nat, y: nat, l: nat)
    requires l > 0
    ensures x * l + y * l == (x + y) * (l - 1) + x + y
  {
  }

  lemma OneWeight(x: nat)
    ensures Optimal(multiset{x}, 0)
  {
  }
}
