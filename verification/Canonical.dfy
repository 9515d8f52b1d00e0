/** Canonical Huffman codes over a sorted sequence of code lengths.  Each code is seen as an
    interval of 15-bit words: the words that start with it. */
module Canonical {
  import opened Bits
  import opened Reverse

  const MAXBITS := 15

  predicate SortedLens(ls: seq<nat>)
  {
    && (forall i :: 0 <= i < |ls| ==> 1 <= ls[i] <= MAXBITS)
    && (forall i, j :: 0 <= i <= j < |ls| ==> ls[i] <= ls[j])
  }

  /** The first word of the k-th interval. */
  function Cum(ls: seq<nat>, k: nat): nat
    requires k <= |ls| && SortedLens(ls)
  {
    if k == 0 then 0 else Cum(ls, k - 1) + Pow2(MAXBITS - ls[k - 1])
  }

  /** The same position counted in codes of length l: the canonical code value. */
  function CodeAt(ls: seq<nat>, k: nat, l: nat): nat
    requires k <= |ls| && SortedLens(ls) && (k > 0 ==> ls[k - 1] <= l)
  {
    if k == 0 then 0 else CodeAt(ls, k - 1, l) + Pow2(l - ls[k - 1])
  }

  lemma Distrib(a: nat, b: nat, q: nat)
    ensures (a + b) * q == a * q + b * q
  {
  }

  lemma MulMono(a: nat, b: nat, q: nat)
    requires a <= b
    ensures a * q <= b * q
  {
    Distrib(a, b - a, q);
  }

  lemma {:induction false} CumIsCode(ls: seq<nat>, k: nat, l: nat)
    requires k <= |ls| && SortedLens(ls) && l <= MAXBITS && (k > 0 ==> ls[k - 1] <= l)
    ensures Cum(ls, k) == CodeAt(ls, k, l) * Pow2(MAXBITS - l)
  {
    hide Pow2;
    if k > 0 {
      CumIsCode(ls, k - 1, l);
      var a, b := l - ls[k - 1], MAXBITS - l;
      Pow2Add(a, b);
      Distrib(CodeAt(ls, k - 1, l), Pow2(a), Pow2(b));
    }
  }

  lemma {:induction false} CumMono(ls: seq<nat>, j: nat, k: nat)
    requires j <= k <= |ls| && SortedLens(ls)
    ensures Cum(ls, j) <= Cum(ls, k) && (j < k ==> Cum(ls, j + 1) <= Cum(ls, k) && Cum(ls, j) < Cum(ls, k))
  {
    if j < k { CumMono(ls, j, k - 1); }
  }

  /** Not over-subscribed. */
  predicate Fitting(ls: seq<nat>)
  {
    SortedLens(ls) && Cum(ls, |ls|) <= Pow2(MAXBITS)
  }

  /** The code as a table index: least significant bit first. */
  function Huff(ls: seq<nat>, k: nat): nat
    requires k <= |ls| && SortedLens(ls)
  {
    Rev(Cum(ls, k), MAXBITS)
  }

  lemma HuffIsCode(ls: seq<nat>, k: nat, l: nat)
    requires k <= |ls| && SortedLens(ls) && l <= MAXBITS && (k > 0 ==> ls[k - 1] <= l)
    ensures Huff(ls, k) == Rev(CodeAt(ls, k, l), l) < Pow2(l)
  {
    hide Rev, Cum, CodeAt;
    CumIsCode(ls, k, l);
    RevZeros(CodeAt(ls, k, l), MAXBITS - l, l);
    RevBound(CodeAt(ls, k, l), l);
  }

  /** The backwards increment moves from one code to the next, whatever the next length. */
  lemma HuffNext(ls: seq<nat>, k: nat)
    requires k < |ls| && SortedLens(ls)
    ensures BackInc(Huff(ls, k), ls[k]) == Huff(ls, k + 1)
  {
    hide Rev, BackInc, Huff;
    var l := ls[k];
    HuffIsCode(ls, k, l);
    HuffIsCode(ls, k + 1, l);
    assert CodeAt(ls, k + 1, l) == CodeAt(ls, k, l) + 1;
    BackIncIs(CodeAt(ls, k, l), l);
  }

  /** The word w, read least significant bit first, starts with code k. */
  predicate Matches(ls: seq<nat>, k: nat, w: nat)
    requires k < |ls| && SortedLens(ls)
  {
    Low(w, ls[k]) == Huff(ls, k)
  }

  lemma Between(a: nat, c: nat, q: nat, r: nat)
    requires r < q
    ensures c * q <= a * q + r < (c + 1) * q <==> a == c
  {
    Distrib(c, 1, q);
    Distrib(a, 1, q);
    if a < c { MulMono(a + 1, c, q); } else { MulMono(c, a, q); }
    if a > c { MulMono(c + 1, a, q); }
  }

  lemma TopBits(w: nat, l: nat)
    requires l <= MAXBITS
    ensures Rev(w, MAXBITS) == Rev(w, l) * Pow2(MAXBITS - l) + Rev(Shr(w, l), MAXBITS - l)
    ensures Rev(Shr(w, l), MAXBITS - l) < Pow2(MAXBITS - l)
  {
    RevSplit(w, l, MAXBITS - l);
    RevBound(Shr(w, l), MAXBITS - l);
  }

  lemma CodeFits(ls: seq<nat>, k: nat)
    requires Fitting(ls) && k < |ls|
    ensures CodeAt(ls, k, ls[k]) < Pow2(ls[k])
  {
    hide Cum, CodeAt, Pow2;
    var l := ls[k];
    CumMono(ls, k, |ls|);
    CumIsCode(ls, k + 1, l);
    CodeStep(ls, k);
    Pow2Add(l, MAXBITS - l);
    Cancel(CodeAt(ls, k, l) + 1, Pow2(l), Pow2(MAXBITS - l));
  }

  lemma CodeStep(ls: seq<nat>, k: nat)
    requires SortedLens(ls) && k < |ls|
    ensures CodeAt(ls, k + 1, ls[k]) == CodeAt(ls, k, ls[k]) + 1
  {
  }

  lemma Cancel(a: nat, b: nat, q: nat)
    requires a * q <= b * q && q > 0
    ensures a <= b
  {
    if a > b {
      Distrib(b, a - b, q);
      MulAtLeast(a - b, q);
    }
  }

  /** Starting with code k is lying in its interval. */
  lemma Interval(ls: seq<nat>, k: nat, w: nat)
    requires Fitting(ls) && k < |ls|
    ensures Matches(ls, k, w) <==> Cum(ls, k) <= Rev(w, MAXBITS) < Cum(ls, k + 1)
  {
    hide Rev, Cum, CodeAt, Pow2, Huff;
    var l := ls[k];
    var c := CodeAt(ls, k, l);
    CodeFits(ls, k);
    HuffIsCode(ls, k, l);
    StartsWith(w, c, l);
    TopBits(w, l);
    CumIsCode(ls, k, l);
    CumIsCode(ls, k + 1, l);
    CodeStep(ls, k);
    Between(Rev(w, l), c, Pow2(MAXBITS - l), Rev(Shr(w, l), MAXBITS - l));
  }

  /** The codes are prefix-free. */
  lemma PrefixFree(ls: seq<nat>, j: nat, k: nat, w: nat)
    requires Fitting(ls) && j < k < |ls| && Matches(ls, j, w)
    ensures !Matches(ls, k, w)
  {
    hide Cum, Rev, Matches;
    Interval(ls, j, w);
    Interval(ls, k, w);
    CumMono(ls, j, k);
  }

  /** A word in no interval lies beyond them all. */
  lemma {:induction false} SomeInterval(ls: seq<nat>, k: nat, w: nat) returns (j: nat)
    requires Fitting(ls) && k <= |ls| && Rev(w, MAXBITS) < Cum(ls, k)
    ensures j < k && Matches(ls, j, w)
  {
    hide Matches, Rev;
    j := k - 1;
    if Rev(w, MAXBITS) < Cum(ls, j) {
      j := SomeInterval(ls, j, w);
    } else {
      Interval(ls, j, w);
    }
  }

  // ----- the first `root` bits

  /** The first root bits of the k-th code, as a number. */
  function Head(ls: seq<nat>, k: nat, root: nat): nat
    requires k <= |ls| && SortedLens(ls)
  {
    Rev(Huff(ls, k), root)
  }

  lemma HeadBounds(ls: seq<nat>, k: nat, root: nat)
    requires k <= |ls| && SortedLens(ls) && root <= MAXBITS && Cum(ls, k) < Pow2(MAXBITS)
    ensures var q := Pow2(MAXBITS - root);
            Head(ls, k, root) * q <= Cum(ls, k) < (Head(ls, k, root) + 1) * q
  {
    hide Rev, Cum, Pow2, Low, Shr;
    var h := Huff(ls, k);
    RevRev(Cum(ls, k), MAXBITS);
    LowSmall(Cum(ls, k), MAXBITS);
    TopBits(h, root);
    Distrib(Rev(h, root), 1, Pow2(MAXBITS - root));
  }

  /** Two table indices agree in their low root bits exactly if the codes agree in their heads. */
  lemma SameHead(v: nat, w: nat, root: nat)
    ensures Low(v, root) == Low(w, root) <==> Rev(v, root) == Rev(w, root)
  {
    RevLow(v, root);
    RevLow(w, root);
    RevRev(v, root);
    RevRev(w, root);
  }

  /** The k-th code starts a new group of codes with the same head. */
  predicate NewHead(ls: seq<nat>, k: nat, root: nat)
    requires 0 < k < |ls| && SortedLens(ls)
  {
    ls[k] > root && (ls[k - 1] <= root || Head(ls, k - 1, root) != Head(ls, k, root))
  }

  lemma CumBelow(ls: seq<nat>, k: nat)
    requires Fitting(ls) && k < |ls|
    ensures Cum(ls, k) < Pow2(MAXBITS)
  {
    hide Cum, Pow2;
    CumMono(ls, k, |ls|);
  }

  /** Such a code lies at the very start of its group's words. */
  lemma Aligned(ls: seq<nat>, k: nat, root: nat)
    requires Fitting(ls) && 0 < k < |ls| && root <= MAXBITS && NewHead(ls, k, root)
    ensures Cum(ls, k) == Head(ls, k, root) * Pow2(MAXBITS - root)
  {
    hide Cum, Pow2, Head, Rev, CodeAt;
    CumBelow(ls, k);
    HeadBounds(ls, k, root);
    if ls[k - 1] <= root {
      CumIsCode(ls, k, root);
      var q := Pow2(MAXBITS - root);
      Between(CodeAt(ls, k, root), Head(ls, k, root), q, 0);
    } else {
      AlignedDeep(ls, k, root);
    }
  }

  lemma AlignedDeep(ls: seq<nat>, k: nat, root: nat)
    requires Fitting(ls) && 0 < k < |ls| && root < ls[k - 1] && Head(ls, k - 1, root) != Head(ls, k, root)
    ensures Cum(ls, k) == Head(ls, k, root) * Pow2(MAXBITS - root)
  {
    hide Pow2, Head, Rev, CodeAt;
    var l := ls[k - 1];
    CumMono(ls, k - 1, k);
    CumBelow(ls, k - 1);
    CumBelow(ls, k);
    HeadBounds(ls, k - 1, root);
    HeadBounds(ls, k, root);
    CumIsCode(ls, k - 1, l);
    CumIsCode(ls, k, l);
    Pow2Add(l - root, MAXBITS - l);
    StepWithin(Head(ls, k - 1, root), Head(ls, k, root), Pow2(MAXBITS - root), CodeAt(ls, k - 1, l),
      Pow2(MAXBITS - l), Pow2(l - root));
  }

  /** Steps of size m inside blocks of size q = n*m land exactly on the block boundary. */
  lemma StepWithin(a: nat, b: nat, q: nat, c: nat, m: nat, n: nat)
    requires m > 0 && q == n * m && a != b
    requires a * q <= c * m < (a + 1) * q && b * q <= c * m + m < (b + 1) * q
    ensures c * m + m == b * q
  {
    var top := (a + 1) * n;
    Assoc(a + 1, n, m);
    if c >= top { MulMono(top, c, m); }
    MulMono(c + 1, top, m);
    Distrib(c, 1, m);
    if b < a { MulMono(b + 1, a, q); } else { MulMono(a + 1, b, q); }
  }

  lemma Assoc(a: nat, b: nat, c: nat)
    ensures a * (b * c) == (a * b) * c
  {
  }

  /** A word starting with an earlier code has a different head. */
  lemma EarlierHead(ls: seq<nat>, j: nat, k: nat, root: nat, w: nat)
    requires Fitting(ls) && j < k < |ls| && root <= MAXBITS && NewHead(ls, k, root) && Matches(ls, j, w)
    ensures Low(w, root) != Low(Huff(ls, k), root)
  {
    hide Cum, Pow2, Rev, Matches, NewHead, Huff;
    Interval(ls, j, w);
    CumMono(ls, j, k);
    Aligned(ls, k, root);
    TopBits(w, root);
    SameHead(w, Huff(ls, k), root);
  }
}
