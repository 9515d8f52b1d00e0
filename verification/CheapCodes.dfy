/** From the cheapest code for the frequencies of a block to the fewest bits for its symbols. */
module CheapCodes {
  import opened Bits
  import opened Canonical
  import opened CodeTables
  import opened BitFields
  import opened KraftSums
  import opened BitLengths
  import opened HuffmanTree
  import opened MergeCost
  import opened BuildTree
  import opened DeflateCodes
  import opened DeflateBlock
  import BC = BlockCost

  // ----- every tree is a prefix code

  lemma {:induction false} SumSubset(a: seq<nat>, b: seq<nat>, w: seq<nat>)
    requires Within(a, |w|) && Within(b, |w|) && Distinct(a) && forall x :: x in a ==> x in b
    ensures SumW(a, w) <= SumW(b, w)
    decreases |a|
  {
    hide SumW;
    if a == [] {
      assert a == [];
      SumEmpty(w);
    } else {
      var x := a[0];
      assert x in b;
      var i :| 0 <= i < |b| && b[i] == x;
      var rest := b[..i] + b[i + 1..];
      forall y | y in a[1..] ensures y in rest { StillIn(a, b, i, y); }
      SumSubset(a[1..], rest, w);
      TakeOut(b, i, w);
      FirstOut(a, w);
    }
  }

  lemma SumEmpty(w: seq<nat>)
    ensures SumW([], w) == 0
  {
  }

  lemma FirstOut(a: seq<nat>, w: seq<nat>)
    requires Within(a, |w|) && a != []
    ensures SumW(a, w) == w[a[0]] + SumW(a[1..], w)
  {
  }

  lemma StillIn(a: seq<nat>, b: seq<nat>, i: nat, y: nat)
    requires Distinct(a) && a != [] && i < |b| && b[i] == a[0] && y in a[1..] && y in b
    ensures y in b[..i] + b[i + 1..]
  {
    var j :| 0 <= j < |b| && b[j] == y;
    var r := b[..i] + b[i + 1..];
    assert y == if j < i then r[j] else r[j - 1];
  }

  lemma TakeOut(b: seq<nat>, i: nat, w: seq<nat>)
    requires Within(b, |w|) && i < |b|
    ensures Within(b[..i] + b[i + 1..], |w|) && SumW(b, w) == w[b[i]] + SumW(b[..i] + b[i + 1..], w)
  {
    hide SumW;
    var b1, x, b2 := b[..i], b[i], b[i + 1..];
    assert b == b1 + ([x] + b2);
    SumJoin(b1, [x] + b2, w);
    SumJoin([x], b2, w);
    SumJoin(b1, b2, w);
    SumOne(x, w);
  }

  lemma {:induction false} InBucket(lens: seq<nat>, s: nat, n: nat)
    requires s < n <= |lens|
    ensures s in Bucket(lens, lens[s], n)
  {
    if s < n - 1 { InBucket(lens, s, n - 1); }
  }

  lemma {:induction false} InWork(lens: seq<nat>, s: nat, l: nat)
    requires s < |lens| && 1 <= lens[s] <= l
    ensures s in Work(lens, l)
  {
    hide Bucket;
    if lens[s] == l { InBucket(lens, s, |lens|); } else { InWork(lens, s, l - 1); }
  }

  /** The code space of the first k symbols in canonical order. */
  lemma {:induction false} CumIsSum(lens: seq<nat>, k: nat)
    requires k <= |Sorted(lens)| && SortedLens(Sorted(lens))
    ensures Within(Work(lens, MAXBITS)[..k], |lens|)
    ensures SumW(Work(lens, MAXBITS)[..k], RoomW(lens, MAXBITS)) == Cum(Sorted(lens), k)
  {
    hide SumW, Pow2, Work, RoomW;
    var ws, w := Work(lens, MAXBITS), RoomW(lens, MAXBITS);
    if k == 0 {
      assert ws[..0] == [];
      SumEmpty(w);
    } else {
      CumIsSum(lens, k - 1);
      assert ws[..k] == ws[..k - 1] + [ws[k - 1]];
      SumJoin(ws[..k - 1], [ws[k - 1]], w);
      SumOne(ws[k - 1], w);
    }
  }

  /** The first n lengths, with zeros where there are none. */
  function Cut(lens: seq<nat>, n: nat): (c: seq<nat>)
    ensures |c| == n && forall s :: 0 <= s < n ==> c[s] == if s < |lens| then lens[s] else 0
  {
    seq(n, s requires s >= 0 => if s < |lens| then lens[s] else 0)
  }

  /** Codes that can be decoded are a prefix code for the symbols that they code. */
  lemma TreeIsCode(lens: seq<nat>, freq: seq<nat>, E: nat)
    requires LensOk(lens) && Fitting(Sorted(lens)) && E <= |freq|
    requires forall s :: 0 <= s < E && freq[s] != 0 ==> s < |lens| && lens[s] != 0
    ensures SomeCode(freq, E, Cut(lens, E), MAXBITS)
  {
    hide SumW, Pow2, Work, RoomW, Used, Cum, Sorted;
    var u, ws, w := Used(freq, E), Work(lens, MAXBITS), RoomW(lens, MAXBITS);
    UsedDistinct(freq, E);
    CumIsSum(lens, |Sorted(lens)|);
    assert ws[..|ws|] == ws;
    forall x | x in u ensures x in ws && x < |lens| { InWork(lens, x, MAXBITS); }
    forall i | 0 <= i < |u| ensures u[i] < |lens| { assert u[i] in u; }
    SumSubset(u, ws, w);
    SumAgree(u, RoomW(Cut(lens, E), MAXBITS), w);
  }

  // ----- the symbols of a block

  lemma {:induction false} LUsed(st: Static, l: Tree, d: Tree, toks: seq<Token>, n: nat, s: nat)
    requires StaticOk(st) && AllSend(st, l, d, toks) && n <= |toks| && s < BC.L_CODES && BC.LFreq(st, toks, n)[s] != 0
    ensures s < |l.lens| && l.lens[s] != 0
  {
    hide StaticOk, DCode;
    if n > 0 {
      assert CanSend(st, l, d, toks[n - 1]);
      if s != BC.LSymbol(st, toks[n - 1]) { LUsed(st, l, d, toks, n - 1, s); }
    }
  }

  lemma {:induction false} DUsed(st: Static, l: Tree, d: Tree, toks: seq<Token>, n: nat, s: nat)
    requires StaticOk(st) && AllSend(st, l, d, toks) && BC.TokensOk(toks) && n <= |toks| && s < D_CODES
    requires BC.DFreq(st, toks, n)[s] != 0
    ensures s < |d.lens| && d.lens[s] != 0
  {
    hide StaticOk, DCode;
    if n > 0 {
      assert CanSend(st, l, d, toks[n - 1]);
      if !toks[n - 1].Ref? || s != BC.DSymbol(st, toks[n - 1]) { DUsed(st, l, d, toks, n - 1, s); }
    }
  }

  lemma {:induction false} LUses(st: Static, toks: seq<Token>, n: nat)
    requires StaticOk(st) && n <= |toks|
    ensures RangeSum(BC.LFreq(st, toks, n), BC.L_CODES) == n + 1
    ensures forall s :: 0 <= s < 2 * BC.L_CODES ==> BC.LFreq(st, toks, n)[s] <= n + 1
  {
    hide RangeSum, StaticOk, BC.LSymbol;
    if n == 0 {
      var z := BC.Zeros(2 * BC.L_CODES);
      RangeTail(z, 0, BC.L_CODES);
      RangeNone(z);
      RangeUpdate(z, z[256 := 1], BC.L_CODES, 256);
    } else {
      LUses(st, toks, n - 1);
      var f, s := BC.LFreq(st, toks, n - 1), BC.LSymbol(st, toks[n - 1]);
      RangeUpdate(f, f[s := f[s] + 1], BC.L_CODES, s);
    }
  }

  lemma RangeNone(w: seq<nat>)
    ensures RangeSum(w, 0) == 0
  {
  }

  /** A block has no more distances than tokens; so no count of fewer than 65535 of them leaves 16 bits. */
  lemma {:induction false} DUses(st: Static, toks: seq<Token>, n: nat)
    requires StaticOk(st) && BC.TokensOk(toks) && n <= |toks|
    ensures RangeSum(BC.DFreq(st, toks, n), D_CODES) <= n
    ensures forall s :: 0 <= s < 2 * D_CODES ==> BC.DFreq(st, toks, n)[s] <= n
  {
    hide RangeSum, StaticOk, BC.DSymbol;
    if n == 0 {
      var z := BC.Zeros(2 * D_CODES);
      RangeTail(z, 0, D_CODES);
      RangeNone(z);
    } else {
      DUses(st, toks, n - 1);
      if toks[n - 1].Ref? {
        var f, s := BC.DFreq(st, toks, n - 1), BC.DSymbol(st, toks[n - 1]);
        RangeUpdate(f, f[s := f[s] + 1], D_CODES, s);
      }
    }
  }

  // ----- the fewest bits

  /** No other codes take fewer bits for the symbols of the block. */
  ghost predicate Shortest(st: Static, l: Tree, d: Tree, toks: seq<Token>)
    requires StaticOk(st) && AllSend(st, l, d, toks)
  {
    forall l': Tree, d': Tree :: TreeOk(l', LENS) && TreeOk(d', DISTS) && AllSend(st, l', d', toks) ==>
      Total(BlockFields(st, l, d, toks)) <= Total(BlockFields(st, l', d', toks))
  }

  lemma CostIs(dd: Desc, lens: seq<nat>, freq: seq<nat>)
    requires DescOk(dd) && |freq| >= dd.elems
    ensures TreeCost(dd, Cut(lens, dd.elems), freq) == BC.UseCost(freq, Priced(lens, dd), dd.elems)
  {
    hide RangeSum, Pow2;
    var E := dd.elems;
    RangeSame(Cost(E, Cut(lens, E), freq, dd.extra), BC.Uses(freq, Priced(lens, dd), E), E);
  }

  function Priced(lens: seq<nat>, dd: Desc): (w: seq<nat>)
    requires |dd.extra| == dd.elems
    ensures |w| == dd.elems && forall s :: 0 <= s < dd.elems ==> w[s] == Cut(lens, dd.elems)[s] + dd.extra[s]
  {
    seq(dd.elems, s requires 0 <= s < dd.elems => Cut(lens, dd.elems)[s] + dd.extra[s])
  }

  /** The bits of the symbols of a block are the costs of its two trees. */
  lemma BlockIs(st: Static, l: Tree, d: Tree, toks: seq<Token>)
    requires StaticOk(st) && AllSend(st, l, d, toks) && BC.TokensOk(toks)
    ensures Total(BlockFields(st, l, d, toks)) ==
            TreeCost(BC.LDesc(), Cut(l.lens, BC.L_CODES), BC.LFreq(st, toks, |toks|)) +
            TreeCost(BC.DDesc(), Cut(d.lens, D_CODES), BC.DFreq(st, toks, |toks|))
  {
    hide Total, BlockFields, BC.LFreq, BC.DFreq, BC.UseCost, TreeCost, StaticOk, AllSend;
    CostIs(BC.LDesc(), l.lens, BC.LFreq(st, toks, |toks|));
    CostIs(BC.DDesc(), d.lens, BC.DFreq(st, toks, |toks|));
    BC.BlockTotal(st, l, d, toks, Priced(l.lens, BC.LDesc()), Priced(d.lens, BC.DDesc()));
  }

  lemma CheapestShort(st: Static, l: Tree, d: Tree, toks: seq<Token>)
    requires StaticOk(st) && AllSend(st, l, d, toks) && BC.TokensOk(toks)
    requires Cheapest(BC.LDesc(), BC.LFreq(st, toks, |toks|), Cut(l.lens, BC.L_CODES))
    requires Cheapest(BC.DDesc(), BC.DFreq(st, toks, |toks|), Cut(d.lens, D_CODES))
    ensures Shortest(st, l, d, toks)
  {
    hide Total, BlockFields, BC.LFreq, BC.DFreq, TreeCost, StaticOk, AllSend, SomeCode, Sorted, SentCode, Fitting;
    var lf, df := BC.LFreq(st, toks, |toks|), BC.DFreq(st, toks, |toks|);
    BlockIs(st, l, d, toks);
    forall l': Tree, d': Tree | TreeOk(l', LENS) && TreeOk(d', DISTS) && AllSend(st, l', d', toks)
      ensures Total(BlockFields(st, l, d, toks)) <= Total(BlockFields(st, l', d', toks))
    {
      forall s | 0 <= s < BC.L_CODES && lf[s] != 0 ensures s < |l'.lens| && l'.lens[s] != 0 {
        LUsed(st, l', d', toks, |toks|, s);
      }
      forall s | 0 <= s < D_CODES && df[s] != 0 ensures s < |d'.lens| && d'.lens[s] != 0 {
        DUsed(st, l', d', toks, |toks|, s);
      }
      TreeIsCode(l'.lens, lf, BC.L_CODES);
      TreeIsCode(d'.lens, df, D_CODES);
      BlockIs(st, l', d', toks);
    }
  }
}
