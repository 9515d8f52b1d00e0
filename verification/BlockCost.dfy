/** The frequencies that zlib_tr_tally counts, and what the symbols of a block cost. */
module BlockCost {
  import opened Bits
  import opened Canonical
  import opened BitFields
  import opened HuffmanTree
  import opened BuildTree
  import opened DeflateCodes
  import opened DeflateBlock

  const L_CODES := 286
  const BL_CODES := 19

  // ----- the three tree descriptors

  /** The fixed literal and length code. */
  function StaticLens(): (s: seq<nat>)
    ensures |s| == 288
    ensures forall i :: 0 <= i < 288 ==> s[i] == if i < 144 then 8 else if i < 256 then 9 else if i < 280 then 7 else 8
  {
    seq(288, i => if i < 144 then 8 else if i < 256 then 9 else if i < 280 then 7 else 8)
  }

  function LExtra(): (s: seq<nat>)
    ensures |s| == L_CODES && forall i :: 0 <= i < L_CODES ==> s[i] == if i < 257 then 0 else ExtraL(i - 257)
  {
    seq(L_CODES, i => if i < 257 then 0 else ExtraL(i - 257))
  }

  function DExtra(): (s: seq<nat>)
    ensures |s| == D_CODES && forall i :: 0 <= i < D_CODES ==> s[i] == ExtraD(i)
  {
    seq(D_CODES, i requires i >= 0 => ExtraD(i))
  }

  function LDesc(): (d: Desc)
    ensures DescOk(d)
  {
    BigPowers();
    Desc(L_CODES, LExtra(), StaticLens(), 15)
  }

  function DDesc(): (d: Desc)
    ensures DescOk(d)
  {
    BigPowers();
    Desc(D_CODES, DExtra(), seq(D_CODES, i => 5), 15)
  }

  function BlDesc(): (d: Desc)
    ensures DescOk(d)
  {
    BigPowers();
    Desc(BL_CODES, seq(BL_CODES, i => if i < 16 then 0 else if i == 16 then 2 else if i == 17 then 3 else 7), [], 7)
  }

  // ----- frequencies

  function LSymbol(st: Static, tok: Token): (s: nat)
    requires StaticOk(st)
    ensures s < L_CODES
  {
    match tok
    case Char(c) => c
    case Ref(dist, lc) => assert IsLengthCode(st.lengthCode[lc], lc); 257 + st.lengthCode[lc]
  }

  function Zeros(n: nat): (s: seq<nat>)
    ensures |s| == n && forall i :: 0 <= i < n ==> s[i] == 0
  {
    seq(n, i => 0)
  }

  predicate TokensOk(toks: seq<Token>)
  {
    forall i :: 0 <= i < |toks| ==> TokenOk(toks[i])
  }

  /** How often the first n tokens use each literal or length symbol; END_BLOCK is used once. */
  function LFreq(st: Static, toks: seq<Token>, n: nat): (f: seq<nat>)
    requires StaticOk(st) && n <= |toks|
    ensures |f| == 2 * L_CODES
  {
    if n == 0 then Zeros(2 * L_CODES)[256 := 1]
    else
      var f := LFreq(st, toks, n - 1);
      var s := LSymbol(st, toks[n - 1]);
      f[s := f[s] + 1]
  }

  function DSymbol(st: Static, tok: Token): (s: nat)
    requires StaticOk(st) && TokenOk(tok) && tok.Ref?
    ensures s < D_CODES
  {
    DCodeOk(st, tok.dist - 1);
    DCode(st, tok.dist - 1)
  }

  /** How often they use each distance symbol. */
  function DFreq(st: Static, toks: seq<Token>, n: nat): (f: seq<nat>)
    requires StaticOk(st) && TokensOk(toks) && n <= |toks|
    ensures |f| == 2 * D_CODES
  {
    if n == 0 then Zeros(2 * D_CODES)
    else
      var f := DFreq(st, toks, n - 1);
      if toks[n - 1].Ref? then var s := DSymbol(st, toks[n - 1]); f[s := f[s] + 1] else f
  }

  lemma {:induction false} LCounted(st: Static, toks: seq<Token>, n: nat, i: nat)
    requires StaticOk(st) && i < n <= |toks|
    ensures LFreq(st, toks, n)[LSymbol(st, toks[i])] >= 1
  {
    if i < n - 1 { LCounted(st, toks, n - 1, i); }
  }

  lemma {:induction false} EndCounted(st: Static, toks: seq<Token>, n: nat)
    requires StaticOk(st) && n <= |toks|
    ensures LFreq(st, toks, n)[256] >= 1
  {
    hide LSymbol;
    if n > 0 { EndCounted(st, toks, n - 1); }
  }

  lemma {:induction false} DCounted(st: Static, toks: seq<Token>, n: nat, i: nat)
    requires StaticOk(st) && TokensOk(toks) && i < n <= |toks| && toks[i].Ref?
    ensures DFreq(st, toks, n)[DSymbol(st, toks[i])] >= 1
  {
    hide DSymbol;
    if i < n - 1 { DCounted(st, toks, n - 1, i); }
  }

  /** zlib_tr_tally for every token of a block. */
  method Tally(st: Static, toks: seq<Token>) returns (lf: seq<nat>, df: seq<nat>)
    requires StaticOk(st) && TokensOk(toks)
    ensures lf == LFreq(st, toks, |toks|) && df == DFreq(st, toks, |toks|)
  {
    hide DSymbol, LSymbol, StaticOk;
    lf, df := Zeros(2 * L_CODES)[256 := 1], Zeros(2 * D_CODES);
    for i := 0 to |toks|
      invariant lf == LFreq(st, toks, i) && df == DFreq(st, toks, i)
    {
      var s := LSymbol(st, toks[i]);
      lf := lf[s := lf[s] + 1];
      if toks[i].Ref? {
        var e := DSymbol(st, toks[i]);
        df := df[e := df[e] + 1];
      }
    }
  }

  // ----- costs

  /** The bits for all uses, with w[x] bits for each use of x. */
  function Uses(freq: seq<nat>, w: seq<nat>, n: nat): (c: seq<nat>)
    requires n <= |freq| && n <= |w|
    ensures |c| == n && forall x :: 0 <= x < n ==> c[x] == freq[x] * w[x]
  {
    seq(n, x requires 0 <= x < n => freq[x] * w[x])
  }

  function UseCost(freq: seq<nat>, w: seq<nat>, n: nat): nat
    requires n <= |freq| && n <= |w|
  {
    RangeSum(Uses(freq, w, n), n)
  }

  lemma OneMoreUse(freq: seq<nat>, w: seq<nat>, n: nat, s: nat)
    requires n <= |freq| && n <= |w| && s < n
    ensures UseCost(freq[s := freq[s] + 1], w, n) == UseCost(freq, w, n) + w[s]
  {
    hide RangeSum;
    Distrib(freq[s], 1, w[s]);
    RangeUpdate(Uses(freq, w, n), Uses(freq[s := freq[s] + 1], w, n), n, s);
  }

  lemma {:induction false} NoUse(w: seq<nat>, m: nat, n: nat)
    requires n <= |w| && n <= m
    ensures UseCost(Zeros(m), w, n) == 0
  {
    RangeTail(Uses(Zeros(m), w, n), 0, n);
  }

  function TokCost(st: Static, tok: Token, wl: seq<nat>, wd: seq<nat>): nat
    requires StaticOk(st) && TokenOk(tok) && |wl| == L_CODES && |wd| == D_CODES
  {
    wl[LSymbol(st, tok)] + if tok.Ref? then wd[DSymbol(st, tok)] else 0
  }

  function TokSum(st: Static, toks: seq<Token>, n: nat, wl: seq<nat>, wd: seq<nat>): nat
    requires StaticOk(st) && TokensOk(toks) && n <= |toks| && |wl| == L_CODES && |wd| == D_CODES
  {
    if n == 0 then 0 else TokSum(st, toks, n - 1, wl, wd) + TokCost(st, toks[n - 1], wl, wd)
  }

  /** Symbol by symbol or token by token, the cost is the same. */
  lemma {:induction false} FreqCost(st: Static, toks: seq<Token>, n: nat, wl: seq<nat>, wd: seq<nat>)
    requires StaticOk(st) && TokensOk(toks) && n <= |toks| && |wl| == L_CODES && |wd| == D_CODES
    ensures UseCost(LFreq(st, toks, n), wl, L_CODES) + UseCost(DFreq(st, toks, n), wd, D_CODES) ==
            wl[256] + TokSum(st, toks, n, wl, wd)
  {
    hide UseCost, DSymbol, LSymbol, StaticOk;
    if n == 0 {
      NoUse(wl, 2 * L_CODES, L_CODES);
      NoUse(wd, 2 * D_CODES, D_CODES);
      OneMoreUse(Zeros(2 * L_CODES), wl, L_CODES, 256);
    } else {
      FreqCost(st, toks, n - 1, wl, wd);
      OneMoreUse(LFreq(st, toks, n - 1), wl, L_CODES, LSymbol(st, toks[n - 1]));
      if toks[n - 1].Ref? {
        OneMoreUse(DFreq(st, toks, n - 1), wd, D_CODES, DSymbol(st, toks[n - 1]));
      }
    }
  }

  /** wl and wd are the lengths of the codes with their extra bits. */
  predicate Weights(l: Tree, d: Tree, wl: seq<nat>, wd: seq<nat>)
  {
    && |wl| == L_CODES && |wd| == D_CODES
    && (forall s :: 0 <= s < |l.lens| && s < L_CODES && l.lens[s] != 0 ==> wl[s] == l.lens[s] + LExtra()[s])
    && (forall s :: 0 <= s < |d.lens| && s < D_CODES && d.lens[s] != 0 ==> wd[s] == d.lens[s] + DExtra()[s])
  }

  lemma TotalExtra(v: nat, bits: nat)
    ensures Total(Extra(v, bits)) == bits
  {
    if bits != 0 { TotalOne(Field(v, bits)); }
  }

  lemma LengthTotal(st: Static, l: Tree, lc: byte)
    requires StaticOk(st) && 257 + st.lengthCode[lc] < |l.lens| == |l.codes|
    ensures st.lengthCode[lc] < 29
    ensures Total(LengthFields(st, l, lc)) == l.lens[257 + st.lengthCode[lc]] + ExtraL(st.lengthCode[lc])
  {
    hide Total, ExtraL, BaseL;
    var c := st.lengthCode[lc];
    assert IsLengthCode(c, lc);
    var v := if c == 28 then 0 else lc - BaseL(c);
    TotalOne(Sent(l, 257 + c));
    TotalExtra(v, ExtraL(c));
    TotalJoin([Sent(l, 257 + c)], Extra(v, ExtraL(c)));
  }

  lemma DistanceTotal(st: Static, d: Tree, dist: nat)
    requires StaticOk(st) && 1 <= dist <= 32768 && DCode(st, dist - 1) < |d.lens| == |d.codes|
    ensures DCode(st, dist - 1) < 30
    ensures Total(DistanceFields(st, d, dist)) == d.lens[DCode(st, dist - 1)] + ExtraD(DCode(st, dist - 1))
  {
    hide Total, ExtraD, BaseD, DCode;
    DCodeOk(st, dist - 1);
    var e := DCode(st, dist - 1);
    TotalOne(Sent(d, e));
    TotalExtra(dist - 1 - BaseD(e), ExtraD(e));
    TotalJoin([Sent(d, e)], Extra(dist - 1 - BaseD(e), ExtraD(e)));
  }

  lemma TokenTotal(st: Static, l: Tree, d: Tree, tok: Token, wl: seq<nat>, wd: seq<nat>)
    requires StaticOk(st) && CanSend(st, l, d, tok) && Weights(l, d, wl, wd)
    ensures Total(TokenFields(st, l, d, tok)) == TokCost(st, tok, wl, wd)
  {
    hide Total, LengthFields, DistanceFields, DCode, ExtraL, ExtraD, IsLengthCode, IsDistCode;
    match tok
    case Char(c) => TotalOne(Sent(l, c));
    case Ref(dist, lc) =>
      var c, e := st.lengthCode[lc], DCode(st, dist - 1);
      LengthTotal(st, l, lc);
      DistanceTotal(st, d, dist);
      assert LSymbol(st, tok) == 257 + c && LExtra()[257 + c] == ExtraL(c);
      assert DSymbol(st, tok) == e && DExtra()[e] == ExtraD(e);
      TotalJoin(LengthFields(st, l, lc), DistanceFields(st, d, dist));
  }

  lemma {:induction false} PrefixTotal(st: Static, l: Tree, d: Tree, toks: seq<Token>, i: nat, wl: seq<nat>,
                                       wd: seq<nat>)
    requires StaticOk(st) && AllSend(st, l, d, toks) && TokensOk(toks) && i <= |toks| && Weights(l, d, wl, wd)
    ensures Total(Prefix(st, l, d, toks, i)) == TokSum(st, toks, i, wl, wd)
  {
    hide Total, TokenFields, StaticOk, CanSend, Weights, TokCost;
    NoTotal();
    WeightSizes(l, d, wl, wd);
    if i > 0 {
      PrefixTotal(st, l, d, toks, i - 1, wl, wd);
      TokenTotal(st, l, d, toks[i - 1], wl, wd);
      TotalJoin(Prefix(st, l, d, toks, i - 1), TokenFields(st, l, d, toks[i - 1]));
    }
  }

  lemma WeightSizes(l: Tree, d: Tree, wl: seq<nat>, wd: seq<nat>)
    requires Weights(l, d, wl, wd)
    ensures |wl| == L_CODES && |wd| == D_CODES
  {
  }

  lemma NoTotal()
    ensures Total([]) == 0
  {
  }

  /** The bits of a block are what the counted frequencies say. */
  lemma BlockTotal(st: Static, l: Tree, d: Tree, toks: seq<Token>, wl: seq<nat>, wd: seq<nat>)
    requires StaticOk(st) && AllSend(st, l, d, toks) && TokensOk(toks) && Weights(l, d, wl, wd)
    ensures Total(BlockFields(st, l, d, toks)) ==
            UseCost(LFreq(st, toks, |toks|), wl, L_CODES) + UseCost(DFreq(st, toks, |toks|), wd, D_CODES)
  {
    hide Total, StaticOk, CanSend, UseCost, LFreq, DFreq, TokSum;
    BlockSnoc(st, l, d, toks, |toks|);
    assert toks[|toks|..] == [];
    TotalOne(Sent(l, 256));
    TotalJoin(Prefix(st, l, d, toks, |toks|), [Sent(l, 256)]);
    PrefixTotal(st, l, d, toks, |toks|, wl, wd);
    FreqCost(st, toks, |toks|, wl, wd);
  }
}
