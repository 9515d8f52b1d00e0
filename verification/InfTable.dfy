/** zlib_inflate_table: one- and two-level decoding tables for a canonical code. */
module InfTable {
  import opened Bits
  import opened Reverse
  import opened Canonical

  datatype Code = Code(op: nat, bits: nat, val: nat)

  datatype Found = NotFound | Found(entry: Code, used: nat)

  predicate IsLink(e: Code)
  {
    1 <= e.op < 16
  }

  /** How the decoders use a table: the low root bits pick an entry, which may link to a second
      table indexed by the bits after them. */
  function Lookup(t: seq<Code>, root: nat, w: nat): Found
  {
    var i := Low(w, root);
    if i >= |t| then NotFound
    else if IsLink(t[i]) then
      var j := t[i].val + Low(Shr(w, t[i].bits), t[i].op);
      if j >= |t| then NotFound else Found(t[j], t[i].bits + t[j].bits)
    else Found(t[i], t[i].bits)
  }

  lemma {:induction false} LowBound(w: nat, n: nat)
    ensures Low(w, n) < Pow2(n)
  {
    if n > 0 { LowBound(w / 2, n - 1); }
  }

  lemma {:induction false} LowJoin(w: nat, a: nat, b: nat)
    ensures Low(w, a + b) == Low(w, a) + Pow2(a) * Low(Shr(w, a), b)
    decreases a
  {
    if a > 0 {
      LowJoin(w / 2, a - 1, b);
      Assoc(2, Pow2(a - 1), Low(Shr(w, a), b));
    }
  }

  // ----- writing one code's entries

  /** Every index whose low a bits are `start` gets the entry, within n slots from off. */
  ghost function Filled(t: seq<Code>, off: nat, n: nat, a: nat, start: nat, e: Code): (r: seq<Code>)
    requires off + n <= |t|
    ensures |r| == |t|
  {
    seq(|t|, i requires 0 <= i < |t| => if off <= i < off + n && Low(i - off, a) == start then e else t[i])
  }

  lemma {:induction false} Regroup(x: nat, a: nat)
    ensures x == Shr(x, a) * Pow2(a) + Low(x, a)
    decreases a
  {
    if a > 0 {
      Regroup(x / 2, a - 1);
      assert 2 * (Shr(x, a) * Pow2(a - 1)) == Shr(x, a) * (2 * Pow2(a - 1));
    }
  }

  /** Indices with the same low bits are a whole step apart. */
  lemma Spaced(x: nat, m: nat, a: nat, start: nat)
    requires start < Pow2(a)
    ensures Low(m * Pow2(a) + start, a) == start
    ensures Low(x, a) == start && x < (m + 1) * Pow2(a) + start ==> x <= m * Pow2(a) + start
  {
    hide Low, Shr, Pow2;
    LowShr(m * Pow2(a) + start, m, start, a);
    Regroup(x, a);
    Distrib(m, 1, Pow2(a));
    if Low(x, a) == start && x < (m + 1) * Pow2(a) + start {
      if Shr(x, a) > m { MulMono(m + 1, Shr(x, a), Pow2(a)); }
      MulMono(Shr(x, a), m, Pow2(a));
    }
  }

  /** The same, so far only for indices from `fill` + start on. */
  ghost function Partly(t: seq<Code>, off: nat, n: nat, a: nat, start: nat, e: Code, fill: nat): (r: seq<Code>)
    requires off + n <= |t|
    ensures |r| == |t|
  {
    seq(|t|, i requires 0 <= i < |t| =>
      if off <= i < off + n && Low(i - off, a) == start && i - off >= fill + start then e else t[i])
  }

  lemma PartlyStep(t: seq<Code>, off: nat, n: nat, a: nat, start: nat, e: Code, m: nat)
    requires off + n <= |t| && start < Pow2(a) && (m + 1) * Pow2(a) <= n
    ensures var fill := m * Pow2(a);
            && off + start + fill < |t|
            && Partly(t, off, n, a, start, e, (m + 1) * Pow2(a))[off + start + fill := e] ==
              Partly(t, off, n, a, start, e, fill)
  {
    hide Low, Pow2;
    Distrib(m, 1, Pow2(a));
    Spaced(0, m, a, start);
    var fill := m * Pow2(a);
    var p, q := Partly(t, off, n, a, start, e, (m + 1) * Pow2(a)), Partly(t, off, n, a, start, e, fill);
    forall i | 0 <= i < |t| ensures p[off + start + fill := e][i] == q[i] {
      if off <= i < off + n { Spaced(i - off, m, a, start); }
    }
  }

  lemma PartlyEnds(t: seq<Code>, off: nat, n: nat, a: nat, start: nat, e: Code)
    requires off + n <= |t|
    ensures Partly(t, off, n, a, start, e, n) == t
    ensures Partly(t, off, n, a, start, e, 0) == Filled(t, off, n, a, start, e)
  {
    hide Low;
    var p, q := Partly(t, off, n, a, start, e, 0), Filled(t, off, n, a, start, e);
    forall i | 0 <= i < |t| ensures p[i] == q[i] {
      if off <= i < off + n { Regroup(i - off, a); MulMono(0, Shr(i - off, a), Pow2(a)); }
    }
  }

  /** The replication loop, from the top of the table down. */
  method Replicate(t0: seq<Code>, off: nat, curr: nat, a: nat, start: nat, e: Code) returns (t: seq<Code>)
    requires a <= curr && start < Pow2(a) && off + Pow2(curr) <= |t0|
    ensures t == Filled(t0, off, Pow2(curr), a, start, e)
  {
    hide Low, Pow2, Partly, Filled;
    t := t0;
    ghost var n := Pow2(curr);
    PartlyEnds(t0, off, n, a, start, e);
    var incr, fill := Pow2(a), Pow2(curr);
    Pow2Add(curr - a, a);
    ghost var m := Pow2(curr - a);
    while fill != 0
      invariant 0 <= m && fill == m * incr && 0 <= fill <= n
      invariant t == Partly(t0, off, n, a, start, e, fill)
      decreases m
    {
      assert m > 0;
      PartlyStep(t0, off, n, a, start, e, m - 1);
      Distrib(m - 1, 1, incr);
      fill, m := fill - incr, m - 1;
      t := t[off + start + fill := e];
    }
  }

  /** The increment loop that carries downwards. */
  method Increment(huff: nat, len: nat) returns (h: nat)
    requires 1 <= len && huff < Pow2(len)
    ensures h == BackInc(huff, len)
  {
    hide And, Pow2, Low, BackInc;
    var incr := Pow2(len - 1);
    ghost var n, rest := len, huff;
    IncrStart(huff, len);
    while incr != 0 && And(huff, incr) != 0
      invariant 0 <= n <= len && incr == (if n == 0 then 0 else Pow2(n - 1))
      invariant rest == Low(huff, n) && BackInc(rest, n) == BackInc(huff, len)
      decreases n
    {
      IncrBit(huff, n);
      IncrNext(rest, n);
      IncrHalf(n);
      incr, n, rest := incr / 2, n - 1, Low(huff, n - 1);
    }
    if incr != 0 {
      IncrBit(huff, n);
      IncrLast(huff, n);
      h := And(huff, incr - 1) + incr;
    } else {
      IncrNone(rest);
      h := 0;
    }
  }

  lemma IncrNone(rest: nat)
    ensures BackInc(rest, 0) == 0
  {
  }

  /** The first clear bit is set, and the bits below it are kept. */
  lemma IncrLast(huff: nat, n: nat)
    requires n > 0 && Low(huff, n) < Pow2(n - 1) && Low(huff, n) == Low(huff, n - 1)
    ensures BackInc(Low(huff, n), n) == And(huff, Pow2(n - 1) - 1) + Pow2(n - 1)
  {
    hide And, Pow2, Low;
    AndMask(huff, n - 1);
    LowIsMod(huff, n - 1);
  }

  lemma IncrStart(huff: nat, len: nat)
    requires huff < Pow2(len)
    ensures Low(huff, len) == huff
  {
    LowSmall(huff, len);
  }

  /** Testing the top bit of the low n bits. */
  lemma IncrBit(huff: nat, n: nat)
    requires n > 0
    ensures And(huff, Pow2(n - 1)) != 0 <==> Low(huff, n) >= Pow2(n - 1)
    ensures Low(huff, n) == Low(huff, n - 1) + (if And(huff, Pow2(n - 1)) != 0 then Pow2(n - 1) else 0)
  {
    hide And, Low, Pow2;
    var p := Pow2(n - 1);
    AndBit(huff, n - 1);
    LowJoin(huff, n - 1, 1);
    LowOne(Shr(huff, n - 1));
    ShrIsDiv(huff, n - 1);
    LowBound(huff, n - 1);
    BitTimes(p, Shr(huff, n - 1) % 2);
  }

  lemma BitTimes(p: nat, b: nat)
    requires b < 2
    ensures p * b == b * p == if b == 0 then 0 else p
  {
  }

  lemma LowOne(x: nat)
    ensures Low(x, 1) == x % 2
  {
    assert Low(x / 2, 0) == 0;
  }

  lemma {:induction false} ShrIsDiv(x: nat, n: nat)
    ensures Shr(x, n) == x / Pow2(n)
    decreases n
  {
    if n > 0 {
      ShrIsDiv(x / 2, n - 1);
      ModDouble(x, Pow2(n - 1));
    }
  }

  lemma IncrNext(rest: nat, n: nat)
    requires n > 0 && rest >= Pow2(n - 1)
    ensures BackInc(rest, n) == BackInc(rest - Pow2(n - 1), n - 1)
  {
  }

  lemma IncrHalf(n: nat)
    requires n > 0
    ensures Pow2(n - 1) / 2 == if n == 1 then 0 else Pow2(n - 2)
  {
  }

  // ----- what the tables hold

  /** The action for one symbol: operation (with its extra bits) and value. */
  datatype Action = Action(op: nat, val: nat)

  /** Word w finds action x with a code of `len` bits.  A second-level table in use either lies
      wholly before `off` or is the current one, at off with 2^curr entries, for the words whose
      low root bits are `low`. */
  predicate Good(t: seq<Code>, root: nat, len: nat, x: Action, w: nat, off: nat, curr: nat, low: int)
  {
    var i := Low(w, root);
    i < |t| &&
    if len <= root then t[i] == Code(x.op, len, x.val)
    else
      var e := t[i];
      var j := e.val + Low(Shr(w, root), e.op);
      && IsLink(e) && e.bits == root && e.val >= Pow2(root)
      && (e.val + Pow2(e.op) <= off || (e.val == off && e.op == curr && i == low))
      && j < |t| && t[j] == Code(x.op, len - root, x.val)
  }

  /** A good word is looked up correctly. */
  lemma GoodLookup(t: seq<Code>, root: nat, len: nat, x: Action, w: nat, off: nat, curr: nat, low: int)
    requires Good(t, root, len, x, w, off, curr, low) && !(1 <= x.op < 16)
    ensures Lookup(t, root, w) == Found(Code(x.op, if len <= root then len else len - root, x.val), len)
  {
  }

  /** All words that start with one of the first k codes are good. */
  ghost predicate AllGood(t: seq<Code>, root: nat, ls: seq<nat>, xs: seq<Action>, k: nat, off: nat, curr: nat, low: int)
    requires SortedLens(ls) && |xs| == |ls| && k <= |ls|
  {
    forall j, w: nat :: 0 <= j < k && Matches(ls, j, w) ==> Good(t, root, ls[j], xs[j], w, off, curr, low)
  }

  lemma FilledAt(t: seq<Code>, off: nat, n: nat, a: nat, start: nat, e: Code, i: nat)
    requires off + n <= |t| && i < |t|
    ensures Filled(t, off, n, a, start, e)[i] == if off <= i < off + n && Low(i - off, a) == start then e else t[i]
  {
  }

  lemma WriteRootOne(t: seq<Code>, root: nat, ls: seq<nat>, xs: seq<Action>, j: nat, k: nat, w: nat, curr: nat,
                     low: int)
    requires Fitting(ls) && |xs| == |ls| && j <= k < |ls| && ls[k] <= root && |t| == Pow2(root)
    requires Matches(ls, j, w) && (j < k ==> Good(t, root, ls[j], xs[j], w, 0, curr, low))
    ensures Good(Filled(t, 0, Pow2(root), ls[k], Huff(ls, k), Code(xs[k].op, ls[k], xs[k].val)), root, ls[j], xs[j],
                 w, 0, curr, low)
  {
    hide Low, Pow2, Huff, Filled;
    var i := Low(w, root);
    LowBound(w, root);
    FilledAt(t, 0, Pow2(root), ls[k], Huff(ls, k), Code(xs[k].op, ls[k], xs[k].val), i);
    LowLow(w, root, ls[k]);
    if j < k { PrefixFree(ls, j, k, w); }
  }

  /** Writing a short code into the root table. */
  lemma WriteRoot(t: seq<Code>, root: nat, ls: seq<nat>, xs: seq<Action>, k: nat, curr: nat, low: int)
    requires Fitting(ls) && |xs| == |ls| && k < |ls| && ls[k] <= root && |t| == Pow2(root)
    requires AllGood(t, root, ls, xs, k, 0, curr, low)
    ensures AllGood(Filled(t, 0, Pow2(root), ls[k], Huff(ls, k), Code(xs[k].op, ls[k], xs[k].val)), root, ls, xs,
                    k + 1, 0, curr, low)
  {
    hide Good, Matches, Pow2, Filled, Cum;
    var t' := Filled(t, 0, Pow2(root), ls[k], Huff(ls, k), Code(xs[k].op, ls[k], xs[k].val));
    forall j, w: nat | 0 <= j < k + 1 && Matches(ls, j, w)
      ensures Good(t', root, ls[j], xs[j], w, 0, curr, low)
    {
      WriteRootOne(t, root, ls, xs, j, k, w, curr, low);
    }
  }

  /** A word matches a long code exactly if both halves of the index do. */
  lemma MatchHalves(ls: seq<nat>, k: nat, root: nat, w: nat)
    requires SortedLens(ls) && k < |ls| && ls[k] > root
    ensures Matches(ls, k, w) <==>
              Low(w, root) == Low(Huff(ls, k), root) && Low(Shr(w, root), ls[k] - root) == Shr(Huff(ls, k), root)
    ensures Shr(Huff(ls, k), root) < Pow2(ls[k] - root)
  {
    hide Low, Shr, Pow2, Huff;
    var h, b := Huff(ls, k), ls[k] - root;
    LowJoin(w, root, b);
    HuffIsCode(ls, k, ls[k]);
    LowSmall(h, ls[k]);
    LowJoin(h, root, b);
    Regroup(h, root);
    LowBound(h, root);
    LowBound(w, root);
    LowBound(Shr(h, root), b);
    Commute(Pow2(root), Low(Shr(h, root), b));
    Commute(Pow2(root), Low(Shr(w, root), b));
    SplitEqual(Pow2(root), Low(w, root), Low(Shr(w, root), b), Low(h, root), Low(Shr(h, root), b));
    SplitEqual(Pow2(root), Low(h, root), Shr(h, root), Low(h, root), Low(Shr(h, root), b));
  }

  lemma Commute(a: nat, b: nat)
    ensures a * b == b * a
  {
  }

  lemma SplitEqual(p: nat, a: nat, x: nat, b: nat, y: nat)
    requires a < p && b < p
    ensures x * p + a == y * p + b <==> x == y && a == b
  {
    if x < y {
      MulMono(x + 1, y, p);
      Distrib(x, 1, p);
    } else if y < x {
      MulMono(y + 1, x, p);
      Distrib(y, 1, p);
    }
  }

  lemma WriteSubOne(t: seq<Code>, root: nat, ls: seq<nat>, xs: seq<Action>, j: nat, k: nat, w: nat, off: nat, curr: nat)
    requires Fitting(ls) && |xs| == |ls| && j <= k < |ls| && root < ls[k] <= root + curr && 1 <= curr < 16
    requires Pow2(root) <= off && |t| == off + Pow2(curr)
    requires var h := Huff(ls, k);
             (LowBound(h, root); t[Low(h, root)] == Code(curr, root, off))
    requires Matches(ls, j, w) && (j < k ==> Good(t, root, ls[j], xs[j], w, off, curr, Low(Huff(ls, k), root)))
    ensures var h := Huff(ls, k); var e := Code(xs[k].op, ls[k] - root, xs[k].val);
            Good(Filled(t, off, Pow2(curr), ls[k] - root, Shr(h, root), e), root, ls[j], xs[j], w, off, curr,
              Low(h, root))
  {
    hide Low, Shr, Pow2, Huff, Filled, Matches;
    var h := Huff(ls, k);
    var e := Code(xs[k].op, ls[k] - root, xs[k].val);
    var i, b := Low(w, root), ls[k] - root;
    LowBound(w, root);
    LowBound(h, root);
    FilledAt(t, off, Pow2(curr), b, Shr(h, root), e, i);
    MatchHalves(ls, k, root, w);
    if ls[j] > root {
      var y := Low(Shr(w, root), t[i].op);
      LowBound(Shr(w, root), t[i].op);
      FilledAt(t, off, Pow2(curr), b, Shr(h, root), e, t[i].val + y);
      LowLow(Shr(w, root), curr, b);
      if j < k { PrefixFree(ls, j, k, w); }
    }
  }

  /** Writing a long code into the current second-level table. */
  lemma WriteSub(t: seq<Code>, root: nat, ls: seq<nat>, xs: seq<Action>, k: nat, off: nat, curr: nat)
    requires Fitting(ls) && |xs| == |ls| && k < |ls| && root < ls[k] <= root + curr && 1 <= curr < 16
    requires Pow2(root) <= off && |t| == off + Pow2(curr)
    requires var h := Huff(ls, k);
             (LowBound(h, root); t[Low(h, root)] == Code(curr, root, off))
    requires AllGood(t, root, ls, xs, k, off, curr, Low(Huff(ls, k), root))
    ensures var h := Huff(ls, k); var e := Code(xs[k].op, ls[k] - root, xs[k].val);
            AllGood(Filled(t, off, Pow2(curr), ls[k] - root, Shr(h, root), e), root, ls, xs, k + 1, off, curr,
              Low(h, root))
  {
    hide Good, Matches, Pow2, Filled, Cum, Huff, Low, Shr;
    var h := Huff(ls, k);
    var e := Code(xs[k].op, ls[k] - root, xs[k].val);
    var t' := Filled(t, off, Pow2(curr), ls[k] - root, Shr(h, root), e);
    forall j, w: nat | 0 <= j < k + 1 && Matches(ls, j, w)
      ensures Good(t', root, ls[j], xs[j], w, off, curr, Low(h, root))
    {
      WriteSubOne(t, root, ls, xs, j, k, w, off, curr);
    }
  }

  lemma NewSubOne(t: seq<Code>, pad: seq<Code>, root: nat, ls: seq<nat>, xs: seq<Action>, j: nat, k: nat, w: nat,
                  off: nat, curr: nat, low: int, curr': nat)
    requires Fitting(ls) && |xs| == |ls| && j < k < |ls| && root <= MAXBITS && NewHead(ls, k, root)
    requires off + Pow2(curr) == |t| && Pow2(root) <= |t|
    requires Matches(ls, j, w) && Good(t, root, ls[j], xs[j], w, off, curr, low)
    ensures var low' := Low(Huff(ls, k), root);
            (LowBound(Huff(ls, k), root);
             Good(t[low' := Code(curr', root, |t|)] + pad, root, ls[j], xs[j], w, |t|, curr', low'))
  {
    hide Low, Shr, Pow2, Huff, Matches, NewHead, Cum;
    LowBound(Huff(ls, k), root);
    LowBound(w, root);
    EarlierHead(ls, j, k, root, w);
    var i := Low(w, root);
    if ls[j] > root {
      LowBound(Shr(w, root), t[i].op);
    }
  }

  /** Opening a new second-level table. */
  lemma NewSub(t: seq<Code>, pad: seq<Code>, root: nat, ls: seq<nat>, xs: seq<Action>, k: nat, off: nat, curr: nat,
               low: int, curr': nat)
    requires Fitting(ls) && |xs| == |ls| && 0 < k < |ls| && root <= MAXBITS && NewHead(ls, k, root)
    requires off + Pow2(curr) == |t| && Pow2(root) <= |t|
    requires AllGood(t, root, ls, xs, k, off, curr, low)
    ensures var low' := Low(Huff(ls, k), root);
            (LowBound(Huff(ls, k), root);
             AllGood(t[low' := Code(curr', root, |t|)] + pad, root, ls, xs, k, |t|, curr', low'))
  {
    hide Good, Matches, Pow2, Cum, NewHead, Huff, Low;
    LowBound(Huff(ls, k), root);
    var low' := Low(Huff(ls, k), root);
    var t' := t[low' := Code(curr', root, |t|)] + pad;
    forall j, w: nat | 0 <= j < k && Matches(ls, j, w)
      ensures Good(t', root, ls[j], xs[j], w, |t|, curr', low')
    {
      NewSubOne(t, pad, root, ls, xs, j, k, w, off, curr, low, curr');
    }
  }

  // ----- the size of a second-level table

  /** How many codes of length l are left from position k on. */
  function Rem(ls: seq<nat>, k: nat, l: nat): nat
    requires k <= |ls|
    decreases |ls| - k
  {
    if k == |ls| then 0 else (if ls[k] == l then 1 else 0) + Rem(ls, k + 1, l)
  }

  /** How many words the codes from position k on of length at most l take up. */
  function RemWords(ls: seq<nat>, k: nat, l: nat): nat
    requires k <= |ls| && SortedLens(ls)
    decreases |ls| - k
  {
    if k == |ls| then 0 else (if ls[k] <= l then Pow2(MAXBITS - ls[k]) else 0) + RemWords(ls, k + 1, l)
  }

  lemma {:induction false} RemWordsNext(ls: seq<nat>, k: nat, l: nat)
    requires k <= |ls| && SortedLens(ls) && 1 <= l <= MAXBITS
    ensures RemWords(ls, k, l) == RemWords(ls, k, l - 1) + Rem(ls, k, l) * Pow2(MAXBITS - l)
    decreases |ls| - k
  {
    hide Pow2;
    if k < |ls| {
      RemWordsNext(ls, k + 1, l);
      Distrib(Rem(ls, k + 1, l), 1, Pow2(MAXBITS - l));
    }
  }

  lemma {:induction false} RemWordsNone(ls: seq<nat>, k: nat, l: nat)
    requires k <= |ls| && SortedLens(ls) && (k < |ls| ==> l < ls[k])
    ensures RemWords(ls, k, l) == 0
    decreases |ls| - k
  {
    if k < |ls| { RemWordsNone(ls, k + 1, l); }
  }

  /** A code longer than l comes after all the words of the shorter ones. */
  lemma {:induction false} RemWordsBefore(ls: seq<nat>, k: nat, m: nat, l: nat)
    requires SortedLens(ls) && k <= m < |ls| && ls[m] > l
    ensures Cum(ls, m) >= Cum(ls, k) + RemWords(ls, k, l)
    decreases m - k
  {
    if k == m {
      RemWordsNone(ls, k, l);
    } else {
      RemWordsBefore(ls, k + 1, m, l);
    }
  }

  lemma {:induction false} RemWordsAll(ls: seq<nat>, k: nat)
    requires k <= |ls| && SortedLens(ls)
    ensures Cum(ls, |ls|) == Cum(ls, k) + RemWords(ls, k, MAXBITS)
    decreases |ls| - k
  {
    if k < |ls| { RemWordsAll(ls, k + 1); }
  }

  /** Every code left with the same head as code k has at most `limit` bits. */
  ghost predicate HeadLimit(ls: seq<nat>, k: nat, root: nat, limit: nat)
    requires SortedLens(ls) && k <= |ls|
  {
    forall m :: k <= m < |ls| && Head(ls, m, root) == Head(ls, k, root) ==> ls[m] <= limit
  }

  lemma LimitReached(ls: seq<nat>, k: nat, root: nat, l: nat)
    requires Fitting(ls) && 0 < k < |ls| && root <= MAXBITS && NewHead(ls, k, root)
    requires RemWords(ls, k, l) >= Pow2(MAXBITS - root)
    ensures HeadLimit(ls, k, root, l)
  {
    hide Cum, Head, Pow2, NewHead, RemWords, Rev;
    Aligned(ls, k, root);
    forall m | k <= m < |ls| && Head(ls, m, root) == Head(ls, k, root)
      ensures ls[m] <= l
    {
      CumBelow(ls, m);
      HeadBounds(ls, m, root);
      Distrib(Head(ls, k, root), 1, Pow2(MAXBITS - root));
      if ls[m] > l {
        RemWordsBefore(ls, k, m, l);
      }
    }
  }

  /** The loop that looks ahead in the counts to size the next second-level table. */
  method SubSize(ls: seq<nat>, count: seq<nat>, k: nat, root: nat, max: nat) returns (curr: nat)
    requires Fitting(ls) && 0 < k < |ls| && 1 <= root && NewHead(ls, k, root) && |count| == MAXBITS + 1
    requires forall l :: 1 <= l <= MAXBITS ==> count[l] == Rem(ls, k, l)
    requires max <= MAXBITS && forall i :: 0 <= i < |ls| ==> ls[i] <= max
    ensures ls[k] <= root + curr <= max && HeadLimit(ls, k, root, root + curr)
    ensures RemWords(ls, k, root + curr - 1) < Pow2(MAXBITS - root)
  {
    hide Cum, Head, Pow2, RemWords, Rev, Rem;
    curr := ls[k] - root;
    var left := Pow2(curr);
    RemWordsNone(ls, k, ls[k] - 1);
    Pow2Add(curr, MAXBITS - ls[k]);
    while curr + root < max
      invariant ls[k] <= root + curr <= max && left >= 1
      invariant left * Pow2(MAXBITS - (root + curr)) == Pow2(MAXBITS - root) - RemWords(ls, k, root + curr - 1)
      invariant RemWords(ls, k, root + curr - 1) < Pow2(MAXBITS - root)
    {
      var l := root + curr;
      RemWordsNext(ls, k, l);
      Subtract(left, count[l], Pow2(MAXBITS - l));
      left := left - count[l];
      if left <= 0 {
        NonPositive(left, Pow2(MAXBITS - l));
        LimitReached(ls, k, root, l);
        return;
      }
      MulMono(1, left, Pow2(MAXBITS - l));
      HalvePow(left, MAXBITS - l);
      curr, left := curr + 1, left * 2;
    }
  }

  lemma Subtract(a: int, b: int, q: nat)
    ensures (a - b) * q == a * q - b * q
  {
  }

  lemma NonPositive(a: int, q: nat)
    requires a <= 0
    ensures a * q <= 0
  {
  }

  lemma HalvePow(a: int, n: nat)
    requires n > 0
    ensures a * 2 * Pow2(n - 1) == a * Pow2(n)
  {
  }

  // ----- building the tables

  /** The tables so far: the one being filled starts at off and has 2^curr entries; drop is 0 while
      that is the root table; low is the root index that links to it. */
  datatype Tables = Tables(t: seq<Code>, off: nat, curr: nat, drop: nat, low: int)

  /** The table in use is the right one for code k. */
  ghost predicate Placed(ls: seq<nat>, k: nat, root: nat, st: Tables)
    requires SortedLens(ls) && k < |ls|
  {
    && |st.t| == st.off + Pow2(st.curr)
    && (ls[k] <= root ==> st.drop == 0 && st.off == 0 && st.curr == root && st.low == -1)
    && (ls[k] > root ==>
          && st.drop == root && st.low == Low(Huff(ls, k), root) && 1 <= st.curr < 16
          && Pow2(root) <= st.off <= Pow2(root) + Head(ls, k, root) * Pow2(MAXBITS - root)
          && root + st.curr <= MAXBITS
          && st.low < |st.t| && st.t[st.low] == Code(st.curr, root, st.off)
          && HeadLimit(ls, k, root, root + st.curr))
  }

  ghost predicate Done(ls: seq<nat>, xs: seq<Action>, k: nat, root: nat, st: Tables)
    requires SortedLens(ls) && |xs| == |ls| && k <= |ls|
  {
    AllGood(st.t, root, ls, xs, k, st.off, st.curr, st.low)
  }

  lemma FilledLow(t: seq<Code>, off: nat, n: nat, a: nat, start: nat, e: Code, i: nat)
    requires off + n <= |t| && i < off
    ensures Filled(t, off, n, a, start, e)[i] == t[i]
  {
  }

  /** Writes the entries of code k. */
  method WriteCode(ghost ls: seq<nat>, ghost xs: seq<Action>, ghost k: nat, root: nat, st: Tables, huff: nat,
                   len: nat, x: Action)
    returns (st': Tables)
    requires Fitting(ls) && |xs| == |ls| && k < |ls| && Placed(ls, k, root, st) && Done(ls, xs, k, root, st)
    requires huff == Huff(ls, k) && len == ls[k] && x == xs[k]
    ensures st' == st.(t := st'.t) && |st'.t| == |st.t|
    ensures Placed(ls, k, root, st') && Done(ls, xs, k + 1, root, st')
  {
    hide AllGood, HeadLimit, Pow2, Low, Shr, Filled, Huff, Head, Cum, Placed, Done;
    if len <= root {
      WrittenRoot(ls, xs, k, root, st, Code(x.op, len, x.val));
    } else {
      WrittenSub(ls, xs, k, root, st, Code(x.op, len - root, x.val));
    }
    var e := Code(x.op, len - st.drop, x.val);
    var t := Replicate(st.t, st.off, st.curr, len - st.drop, Shr(huff, st.drop), e);
    st' := st.(t := t);
  }

  /** What Replicate does for a short code. */
  lemma WrittenRoot(ls: seq<nat>, xs: seq<Action>, k: nat, root: nat, st: Tables, e: Code)
    requires Fitting(ls) && |xs| == |ls| && k < |ls| && Placed(ls, k, root, st) && Done(ls, xs, k, root, st)
             && ls[k] <= root
    requires e == Code(xs[k].op, ls[k], xs[k].val)
    ensures st.drop == 0 && ls[k] <= st.curr && Shr(Huff(ls, k), 0) < Pow2(ls[k]) && st.off + Pow2(st.curr) <= |st.t|
    ensures var st' := st.(t := Filled(st.t, st.off, Pow2(st.curr), ls[k], Shr(Huff(ls, k), 0), e));
            Placed(ls, k, root, st') && Done(ls, xs, k + 1, root, st')
  {
    hide AllGood, HeadLimit, Pow2, Low, Shr, Filled, Huff, Head, Cum;
    HuffIsCode(ls, k, ls[k]);
    ShrZero(Huff(ls, k));
    WriteRoot(st.t, root, ls, xs, k, st.curr, st.low);
  }

  lemma WrittenSub(ls: seq<nat>, xs: seq<Action>, k: nat, root: nat, st: Tables, e: Code)
    requires Fitting(ls) && |xs| == |ls| && k < |ls| && Placed(ls, k, root, st) && Done(ls, xs, k, root, st)
             && ls[k] > root
    requires e == Code(xs[k].op, ls[k] - root, xs[k].val)
    ensures st.drop == root && ls[k] - root <= st.curr && Shr(Huff(ls, k), root) < Pow2(ls[k] - root)
    ensures st.off + Pow2(st.curr) <= |st.t|
    ensures var st' := st.(t := Filled(st.t, st.off, Pow2(st.curr), ls[k] - root, Shr(Huff(ls, k), root), e));
            Placed(ls, k, root, st') && Done(ls, xs, k + 1, root, st')
  {
    hide AllGood, HeadLimit, Pow2, Low, Shr, Filled, Huff, Head, Cum;
    LowBound(Huff(ls, k), root);
    HeadLimitSelf(ls, k, root, root + st.curr);
    MatchHalves(ls, k, root, 0);
    WriteSub(st.t, root, ls, xs, k, st.off, st.curr);
    FilledLow(st.t, st.off, Pow2(st.curr), ls[k] - root, Shr(Huff(ls, k), root), e, st.low);
  }

  lemma ShrZero(h: nat)
    ensures Shr(h, 0) == h
  {
  }

  lemma HeadLimitSelf(ls: seq<nat>, k: nat, root: nat, limit: nat)
    requires SortedLens(ls) && k < |ls| && HeadLimit(ls, k, root, limit)
    ensures ls[k] <= limit
  {
    hide Head;
  }

  lemma HeadLimitNext(ls: seq<nat>, k: nat, root: nat, limit: nat)
    requires SortedLens(ls) && k + 1 < |ls| && HeadLimit(ls, k, root, limit)
             && Head(ls, k + 1, root) == Head(ls, k, root)
    ensures HeadLimit(ls, k + 1, root, limit)
  {
    hide Head;
  }

  lemma HeadsRise(ls: seq<nat>, j: nat, k: nat, root: nat)
    requires Fitting(ls) && j <= k < |ls| && root <= MAXBITS
    ensures Head(ls, j, root) <= Head(ls, k, root) < Pow2(root)
  {
    hide Head, Cum, Pow2, Rev;
    CumMono(ls, j, k);
    CumBelow(ls, j);
    CumBelow(ls, k);
    HeadBounds(ls, j, root);
    HeadBounds(ls, k, root);
    HeadSmall(ls, k, root);
    if Head(ls, j, root) > Head(ls, k, root) {
      MulMono(Head(ls, k, root) + 1, Head(ls, j, root), Pow2(MAXBITS - root));
    }
  }

  lemma HeadSmall(ls: seq<nat>, k: nat, root: nat)
    requires SortedLens(ls) && k <= |ls|
    ensures Head(ls, k, root) < Pow2(root)
  {
    RevBound(Huff(ls, k), root);
  }

  /** Staying in the same table for the next code. */
  lemma StayPlaced(ls: seq<nat>, k: nat, root: nat, st: Tables)
    requires SortedLens(ls) && k + 1 < |ls| && Placed(ls, k, root, st)
    requires ls[k + 1] <= root || Low(Huff(ls, k + 1), root) == st.low
    ensures Placed(ls, k + 1, root, st)
  {
    hide HeadLimit, Pow2, Low, Huff, Head;
    if ls[k + 1] > root {
      HeadIs(ls, k, root);
      HeadIs(ls, k + 1, root);
      SameHead(Huff(ls, k), Huff(ls, k + 1), root);
      HeadLimitNext(ls, k, root, root + st.curr);
    }
  }

  lemma HeadIs(ls: seq<nat>, k: nat, root: nat)
    requires SortedLens(ls) && k <= |ls|
    ensures Head(ls, k, root) == Rev(Huff(ls, k), root)
  {
  }

  lemma IsNewHead(ls: seq<nat>, k: nat, root: nat, st: Tables)
    requires SortedLens(ls) && k + 1 < |ls| && Placed(ls, k, root, st)
    requires ls[k + 1] > root && Low(Huff(ls, k + 1), root) != st.low
    ensures NewHead(ls, k + 1, root)
  {
    hide HeadLimit, Pow2, Low, Huff, Head;
    HeadIs(ls, k, root);
    HeadIs(ls, k + 1, root);
    SameHead(Huff(ls, k), Huff(ls, k + 1), root);
  }

  /** The offset of a new table stays small enough for the 16-bit link. */
  lemma OffsetFits(ls: seq<nat>, k: nat, root: nat, st: Tables)
    requires Fitting(ls) && k + 1 < |ls| && 1 <= root <= MAXBITS && Placed(ls, k, root, st) && NewHead(ls, k + 1, root)
    ensures Pow2(root) <= |st.t| <= Pow2(root) + Head(ls, k + 1, root) * Pow2(MAXBITS - root) && |st.t| < 65536
  {
    hide HeadLimit, Pow2, Low, Huff, Head, Cum;
    var q, a, b := Pow2(MAXBITS - root), Head(ls, k, root), Head(ls, k + 1, root);
    HeadsRise(ls, k, k + 1, root);
    if ls[k] > root {
      Pow2Mono(st.curr, MAXBITS - root);
      MulMono(a + 1, b, q);
      Distrib(a, 1, q);
    } else {
      MulMono(0, b, q);
    }
    MulMono(b + 1, Pow2(root), q);
    Distrib(b, 1, q);
    Pow2Add(root, MAXBITS - root);
    Pow2Mono(root, MAXBITS);
    PowMax();
  }

  lemma PowMax()
    ensures Pow2(MAXBITS) == 32768
  {
    assert Pow2(10) == 1024;
  }

  /** Opens a second-level table for code k + 1 and links it from the root. */
  method OpenSub(ghost ls: seq<nat>, ghost xs: seq<Action>, ghost k: nat, root: nat, st: Tables, huff: nat, curr: nat)
    returns (st': Tables)
    requires Fitting(ls) && |xs| == |ls| && k + 1 < |ls| && 1 <= root <= MAXBITS
    requires Placed(ls, k, root, st) && Done(ls, xs, k + 1, root, st) && NewHead(ls, k + 1, root)
    requires huff == Huff(ls, k + 1)
    requires ls[k + 1] <= root + curr <= MAXBITS && HeadLimit(ls, k + 1, root, root + curr)
    ensures Placed(ls, k + 1, root, st') && Done(ls, xs, k + 1, root, st')
    ensures st'.off == |st.t| && st'.curr == curr && |st'.t| == |st.t| + Pow2(curr)
  {
    hide AllGood, HeadLimit, Pow2, Low, Huff, Head, Cum;
    OffsetFits(ls, k, root, st);
    LowBound(huff, root);
    ghost var pad: seq<Code> := seq(Pow2(curr), i => Code(0, 0, 0));
    NewSub(st.t, pad, root, ls, xs, k + 1, st.off, st.curr, st.low, curr);
    var low := Low(huff, root);
    var off := |st.t|;
    st' := Tables(st.t[low := Code(curr, root, off % 65536)] + seq(Pow2(curr), i => Code(0, 0, 0)), off, curr, root,
      low);
    assert st'.t == st.t[low := Code(curr, root, off)] + pad;
  }

  const ENOUGH := 2048
  const MAXD := 592

  lemma {:induction false} RemLast(ls: seq<nat>, k: nat, l: nat)
    requires k <= |ls| && SortedLens(ls)
    ensures Rem(ls, k, l) > 0 <==> exists m :: k <= m < |ls| && ls[m] == l
    decreases |ls| - k
  {
    if k < |ls| { RemLast(ls, k + 1, l); }
  }

  /** Running out of codes of the current length means the next code is longer, or there is none. */
  lemma NextLength(ls: seq<nat>, k: nat)
    requires SortedLens(ls) && k < |ls|
    ensures Rem(ls, k, ls[k]) == 1 + Rem(ls, k + 1, ls[k])
    ensures forall l :: l != ls[k] ==> Rem(ls, k, l) == Rem(ls, k + 1, l)
    ensures Rem(ls, k + 1, ls[k]) == 0 && ls[k] == ls[|ls| - 1] ==> k + 1 == |ls|
    ensures Rem(ls, k + 1, ls[k]) == 0 && ls[k] != ls[|ls| - 1] ==> k + 1 < |ls|
    ensures Rem(ls, k + 1, ls[k]) != 0 ==> k + 1 < |ls| && ls[k + 1] == ls[k]
  {
    hide Rem;
    RemUnfold(ls, k);
    RemLast(ls, k + 1, ls[k]);
    if Rem(ls, k + 1, ls[k]) == 0 && k + 1 < |ls| {
      assert ls[|ls| - 1] != ls[k];
    }
  }

  lemma RemUnfold(ls: seq<nat>, k: nat)
    requires k < |ls|
    ensures forall l: nat :: Rem(ls, k, l) == (if ls[k] == l then 1 else 0) + Rem(ls, k + 1, l)
  {
  }

  // ----- how much space the tables take

  /** No word is left without a code. */
  predicate FullCode(ls: seq<nat>)
  {
    SortedLens(ls) && Cum(ls, |ls|) == Pow2(MAXBITS)
  }

  /** The first code from k on that is longer than l comes right after the words of the others. */
  lemma {:induction false} FirstLonger(ls: seq<nat>, k: nat, l: nat) returns (m: nat)
    requires SortedLens(ls) && k <= |ls|
    ensures k <= m <= |ls| && (m < |ls| ==> ls[m] > l) && Cum(ls, m) == Cum(ls, k) + RemWords(ls, k, l)
    decreases |ls| - k
  {
    m := k;
    if k < |ls| {
      if ls[k] <= l { m := FirstLonger(ls, k + 1, l); } else { RemWordsNone(ls, k, l); }
    }
  }

  /** Some code with the head of code k has root + curr bits. */
  ghost predicate Tight(ls: seq<nat>, k: nat, root: nat, curr: nat)
    requires SortedLens(ls) && k < |ls|
  {
    exists m :: 0 <= m < |ls| && Head(ls, m, root) == Head(ls, k, root) && ls[m] == root + curr
  }

  /** A second-level table is never larger than its longest code asks for. */
  lemma TightHead(ls: seq<nat>, k: nat, root: nat, curr: nat)
    requires FullCode(ls) && 0 < k < |ls| && 1 <= root <= MAXBITS && NewHead(ls, k, root) && root + curr >= 1
    requires HeadLimit(ls, k, root, root + curr) && RemWords(ls, k, root + curr - 1) < Pow2(MAXBITS - root)
    ensures Tight(ls, k, root, curr)
  {
    hide Cum, Pow2, Rev, RemWords, NewHead, Head;
    var q, h := Pow2(MAXBITS - root), Head(ls, k, root);
    var m := FirstLonger(ls, k, root + curr - 1);
    Aligned(ls, k, root);
    HeadSmall(ls, k, root);
    Distrib(h, 1, q);
    MulMono(h + 1, Pow2(root), q);
    Pow2Add(root, MAXBITS - root);
    CumBelow(ls, m);
    HeadBounds(ls, m, root);
    HeadsRise(ls, k, m, root);
    SameBlock(h, Head(ls, m, root), q, Cum(ls, m));
  }

  lemma SameBlock(a: nat, b: nat, q: nat, c: nat)
    requires a <= b && b * q <= c < (a + 1) * q
    ensures a == b
  {
    if a < b { MulMono(a + 1, b, q); }
  }

  /** The codes with the head of code k end before e. */
  ghost predicate Past(ls: seq<nat>, k: nat, root: nat, e: nat)
    requires SortedLens(ls) && k < |ls|
  {
    k < e <= |ls| && (e < |ls| ==> Head(ls, e, root) != Head(ls, k, root))
  }

  lemma {:induction false} CumSlow(ls: seq<nat>, k: nat, e: nat, l: nat)
    requires SortedLens(ls) && k <= e <= |ls| && l <= MAXBITS && (k < |ls| ==> l <= ls[k])
    ensures Cum(ls, e) <= Cum(ls, k) + (e - k) * Pow2(MAXBITS - l)
    decreases e - k
  {
    hide Pow2;
    if k < e {
      CumSlow(ls, k, e - 1, l);
      Pow2Mono(MAXBITS - ls[e - 1], MAXBITS - l);
      Distrib(e - 1 - k, 1, Pow2(MAXBITS - l));
    }
  }

  /** A group of codes with the same head has at least as many codes as words as long as its first. */
  lemma GroupSize(ls: seq<nat>, k: nat, root: nat, e: nat)
    requires FullCode(ls) && 0 < k < |ls| && 1 <= root <= MAXBITS && NewHead(ls, k, root) && Past(ls, k, root, e)
    ensures Pow2(ls[k] - root) <= e - k
  {
    hide Cum, Pow2, Rev, Head;
    var l, q, h := ls[k], Pow2(MAXBITS - root), Head(ls, k, root);
    Aligned(ls, k, root);
    Distrib(h, 1, q);
    if e == |ls| {
      HeadSmall(ls, k, root);
      MulMono(h + 1, Pow2(root), q);
      Pow2Add(root, MAXBITS - root);
    } else {
      CumBelow(ls, e);
      HeadBounds(ls, e, root);
      HeadsRise(ls, k, e, root);
      MulMono(h + 1, Head(ls, e, root), q);
    }
    CumSlow(ls, k, e, l);
    Pow2Add(l - root, MAXBITS - l);
    Cancel(Pow2(l - root), e - k, Pow2(MAXBITS - l));
  }

  /** The tables before the current one take no more entries than there are codes, beside the root. */
  ghost predicate Compact(ls: seq<nat>, k: nat, root: nat, off: nat, curr: nat)
    requires SortedLens(ls) && k < |ls|
  {
    ls[k] > root ==>
      Tight(ls, k, root, curr) && forall e: nat :: Past(ls, k, root, e) ==> off <= Pow2(root) + e
  }

  lemma CompactStay(ls: seq<nat>, k: nat, root: nat, st: Tables)
    requires SortedLens(ls) && k + 1 < |ls| && Placed(ls, k, root, st) && Compact(ls, k, root, st.off, st.curr)
    requires ls[k + 1] <= root || Low(Huff(ls, k + 1), root) == st.low
    ensures Compact(ls, k + 1, root, st.off, st.curr)
  {
    hide HeadLimit, Pow2, Low, Huff, Head;
    if ls[k + 1] > root {
      HeadIs(ls, k, root);
      HeadIs(ls, k + 1, root);
      SameHead(Huff(ls, k), Huff(ls, k + 1), root);
      var n := k + 1;
      forall e: nat | Past(ls, n, root, e) ensures st.off <= Pow2(root) + e { assert Past(ls, k, root, e); }
    }
  }

  /** Each table is at most as large as the next group of codes, because no later code is shorter. */
  lemma CompactOpen(ls: seq<nat>, k: nat, root: nat, st: Tables, curr: nat, e: nat)
    requires FullCode(ls) && k + 1 < |ls| && 1 <= root <= MAXBITS && Placed(ls, k, root, st)
             && Compact(ls, k, root, st.off, st.curr)
    requires NewHead(ls, k + 1, root) && Past(ls, k + 1, root, e)
    ensures |st.t| <= Pow2(root) + e
  {
    hide HeadLimit, Pow2, Low, Huff, Head, Cum;
    if ls[k] > root {
      assert Past(ls, k, root, k + 1);
      var m :| 0 <= m < |ls| && Head(ls, m, root) == Head(ls, k, root) && ls[m] == root + st.curr;
      HeadsRise(ls, k, k + 1, root);
      if m > k { HeadsRise(ls, k + 1, m, root); }
      Pow2Mono(st.curr, ls[k + 1] - root);
      GroupSize(ls, k + 1, root, e);
    }
  }

  /** So all the tables together take at most this much. */
  function TableSpace(root: nat, n: nat): nat
    requires root <= MAXBITS
  {
    Pow2(root) + n + Pow2(MAXBITS - root)
  }

  lemma OpenSpace(ls: seq<nat>, k: nat, root: nat, st: Tables, curr: nat)
    requires FullCode(ls) && k + 1 < |ls| && 1 <= root <= MAXBITS && Placed(ls, k, root, st)
             && Compact(ls, k, root, st.off, st.curr)
    requires NewHead(ls, k + 1, root) && root + curr <= MAXBITS
    ensures |st.t| + Pow2(curr) <= TableSpace(root, |ls|)
  {
    hide Pow2, Compact, Placed;
    assert Past(ls, k + 1, root, |ls|);
    CompactOpen(ls, k, root, st, curr, |ls|);
    Pow2Mono(curr, MAXBITS - root);
  }

  /** The loop over all codes.  The check for lack of space, which is made for literal/length tables only,
      never fails where TableSpace is below its limit. */
  method FillTables(ls: seq<nat>, xs: seq<Action>, count0: seq<nat>, root: nat, limited: bool)
    returns (ok: bool, t: seq<Code>, huff: nat)
    requires Fitting(ls) && ls != [] && |xs| == |ls|
    requires 1 <= root && ls[0] <= root <= ls[|ls| - 1]
    requires |count0| == MAXBITS + 1 && forall l: nat :: 1 <= l <= MAXBITS ==> count0[l] == Rem(ls, 0, l)
    ensures ok ==> exists off, curr, low :: AllGood(t, root, ls, xs, |ls|, off, curr, low)
    ensures ok ==> |t| >= Pow2(root) && huff == Huff(ls, |ls|)
    ensures ok && ls[|ls| - 1] <= root ==> |t| == Pow2(root)
    ensures ok && FullCode(ls) ==> |t| <= TableSpace(root, |ls|)
    ensures !ok ==> limited
    ensures !ok && ls[|ls| - 1] <= root ==> Pow2(root) >= ENOUGH - MAXD
    ensures !ok && FullCode(ls) ==> TableSpace(root, |ls|) >= ENOUGH - MAXD
  {
    hide AllGood, Pow2, Low, Huff, Head, Cum, Rem, BackInc, Placed, Compact, RemWords, HeadLimit;
    var max := ls[|ls| - 1];
    var sym, len, count := 0, ls[0], count0;
    huff := 0;
    var st := Tables(seq(Pow2(root), i => Code(0, 0, 0)), 0, root, 0, -1);
    t := st.t;
    if limited && |st.t| >= ENOUGH - MAXD { return false, t, huff; }
    Begin(ls, xs, root, st);
    while true
      invariant 0 <= sym < |ls| && len == ls[sym] && huff == Huff(ls, sym)
      invariant |count| == MAXBITS + 1 && forall l: nat :: 1 <= l <= MAXBITS ==> count[l] == Rem(ls, sym, l)
      invariant Placed(ls, sym, root, st) && Done(ls, xs, sym, root, st)
      invariant FullCode(ls) ==> Compact(ls, sym, root, st.off, st.curr) && |st.t| <= TableSpace(root, |ls|)
      decreases |ls| - sym
    {
      st := WriteCode(ls, xs, sym, root, st, huff, len, xs[sym]);
      HuffIsCode(ls, sym, len);
      HuffNext(ls, sym);
      huff := Increment(huff, len);
      NextLength(ls, sym);
      count := count[len := count[len] - 1];
      if count[len] == 0 {
        if len == max { break; }
        len := ls[sym + 1];
      }
      if len > root && Low(huff, root) != st.low {
        IsNewHead(ls, sym, root, st);
        var curr := SubSize(ls, count, sym + 1, root, max);
        ghost var before := st;
        if FullCode(ls) { OpenSpace(ls, sym, root, st, curr); }
        if limited && |st.t| + Pow2(curr) >= ENOUGH - MAXD { return false, t, huff; }
        st := OpenSub(ls, xs, sym, root, st, huff, curr);
        if FullCode(ls) { CompactNew(ls, sym, root, before, st, curr); }
      } else {
        if FullCode(ls) { CompactStay(ls, sym, root, st); }
        StayPlaced(ls, sym, root, st);
      }
      sym := sym + 1;
    }
    t := st.t;
    ok := true;
    TableLarge(ls, sym, root, st);
  }

  lemma CompactNew(ls: seq<nat>, k: nat, root: nat, st: Tables, st': Tables, curr: nat)
    requires FullCode(ls) && k + 1 < |ls| && 1 <= root <= MAXBITS && Placed(ls, k, root, st)
             && Compact(ls, k, root, st.off, st.curr)
    requires NewHead(ls, k + 1, root) && ls[k + 1] <= root + curr
    requires HeadLimit(ls, k + 1, root, root + curr) && RemWords(ls, k + 1, root + curr - 1) < Pow2(MAXBITS - root)
    requires st'.off == |st.t| && st'.curr == curr
    ensures Compact(ls, k + 1, root, st'.off, st'.curr)
  {
    hide Placed, NewHead, HeadLimit, RemWords, Pow2, Tight, Past, Cum;
    var n := k + 1;
    TightHead(ls, n, root, curr);
    forall e: nat | Past(ls, n, root, e) ensures st'.off <= Pow2(root) + e {
      CompactOpen(ls, k, root, st, curr, e);
    }
  }

  lemma Begin(ls: seq<nat>, xs: seq<Action>, root: nat, st: Tables)
    requires Fitting(ls) && ls != [] && |xs| == |ls| && ls[0] <= root <= MAXBITS
    requires |st.t| == Pow2(root) && st.off == 0 && st.curr == root && st.drop == 0 && st.low == -1
    ensures Placed(ls, 0, root, st) && Done(ls, xs, 0, root, st) && Huff(ls, 0) == 0
    ensures Compact(ls, 0, root, st.off, st.curr) && |st.t| <= TableSpace(root, |ls|)
  {
    hide Pow2, Good;
    RevZero(MAXBITS);
  }

  lemma {:induction false} RevZero(n: nat)
    ensures Rev(0, n) == 0
  {
    if n > 0 { RevZero(n - 1); }
  }

  lemma TableLarge(ls: seq<nat>, k: nat, root: nat, st: Tables)
    requires SortedLens(ls) && k < |ls| && Placed(ls, k, root, st)
    ensures |st.t| >= Pow2(root) && (ls[k] <= root ==> |st.t| == Pow2(root))
  {
    hide Pow2, Low, Huff, Head, HeadLimit;
  }
}
