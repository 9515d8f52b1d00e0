/** The three trees of a dynamic block: build_tree twice, then build_bl_tree. */
module DynamicTrees {
  import opened Bits
  import opened Canonical
  import opened CodeTables
  import opened BitFields
  import opened CodeLengths
  import opened InflateHeader
  import opened BitLengths
  import opened HuffmanTree
  import opened TreeDepth
  import opened BuildTree
  import opened DeflateCodes
  import opened DeflateBlock
  import opened DeflateHeader
  import opened BlockCost
  import opened CheapCodes

  // ----- lengths followed by zeros

  function Pad(s: seq<nat>, n: nat): (r: seq<nat>)
    requires |s| <= n
    ensures |r| == n && r[..|s|] == s && forall i :: |s| <= i < n ==> r[i] == 0
  {
    s + BlockCost.Zeros(n - |s|)
  }

  lemma {:induction false} BucketPad(lens: seq<nat>, k: nat, l: nat, n: nat)
    requires l >= 1 && |lens| <= k && n <= k
    ensures Bucket(Pad(lens, k), l, n) == Bucket(lens, l, if n <= |lens| then n else |lens|)
  {
    if n > 0 {
      BucketPad(lens, k, l, n - 1);
      if n <= |lens| { assert Pad(lens, k)[n - 1] == Pad(lens, k)[..|lens|][n - 1] == lens[n - 1]; }
    }
  }

  lemma {:induction false} WorkPad(lens: seq<nat>, k: nat, l: nat)
    requires |lens| <= k
    ensures Work(Pad(lens, k), l) == Work(lens, l)
  {
    hide Bucket, Pad;
    if l > 0 {
      WorkPad(lens, k, l - 1);
      BucketPad(lens, k, l, k);
    }
  }

  lemma {:induction false} FirstCodePad(lens: seq<nat>, k: nat, l: nat)
    requires |lens| <= k
    ensures FirstCode(Pad(lens, k), l) == FirstCode(lens, l)
  {
    if l > 1 {
      FirstCodePad(lens, k, l - 1);
      BucketPad(lens, k, l - 1, k);
    }
  }

  lemma PadAt(lens: seq<nat>, k: nat, s: nat)
    requires s < |lens| <= k
    ensures Pad(lens, k)[s] == lens[s]
  {
    assert Pad(lens, k)[..|lens|][s] == lens[s];
  }

  lemma SortedPad(lens: seq<nat>, k: nat)
    requires |lens| <= k
    ensures Sorted(Pad(lens, k)) == Sorted(lens)
  {
    hide Pad;
    WorkPad(lens, k, MAXBITS);
    var ws := Work(lens, MAXBITS);
    forall i | 0 <= i < |ws| ensures Pad(lens, k)[ws[i]] == lens[ws[i]] { PadAt(lens, k, ws[i]); }
  }

  lemma SentPad(lens: seq<nat>, k: nat, s: nat)
    requires s < |lens| <= k && lens[s] != 0
    ensures Pad(lens, k)[s] == lens[s] && SentCode(Pad(lens, k), s) == SentCode(lens, s)
  {
    hide Pad, Bucket, FirstCode;
    PadAt(lens, k, s);
    FirstCodePad(lens, k, lens[s]);
    BucketPad(lens, k, lens[s], s);
  }

  lemma TreePad(t: Tree, kind: CodeType, k: nat)
    requires TreeOk(t, kind) && |t.lens| <= k <= SymbolLimit(kind)
    ensures |t.codes| == |t.lens| && TreeOk(Tree(Pad(t.lens, k), Pad(t.codes, k)), kind)
  {
    hide Sorted, SentCode, Fitting, Pad;
    SortedPad(t.lens, k);
    var t' := Tree(Pad(t.lens, k), Pad(t.codes, k));
    forall s | 0 <= s < k ensures t'.lens[s] <= MAXBITS && (t'.lens[s] != 0 ==> t'.codes[s] == SentCode(t'.lens, s)) {
      if s < |t.lens| {
        PadAt(t.lens, k, s);
        PadAt(t.codes, k, s);
        if t.lens[s] != 0 { SentPad(t.lens, k, s); }
      }
    }
  }

  // ----- the cost of the code lengths

  function Counts(items: seq<Item>): (f: seq<nat>)
    requires ItemsOk(items)
    ensures |f| == 19 && forall s :: 0 <= s < 19 ==> f[s] == Count(items, s)
  {
    seq(19, s requires s >= 0 => Count(items, s))
  }

  /** w is the length of each code-length code with its extra bits. */
  predicate BlWeights(bl: Tree, w: seq<nat>)
  {
    |w| == 19 == |bl.lens| && forall s :: 0 <= s < 19 && bl.lens[s] != 0 ==> w[s] == bl.lens[s] + BlDesc().extra[s]
  }

  lemma ItemTotal(bl: Tree, i: Item, w: seq<nat>)
    requires ItemOk(i) && |bl.lens| == |bl.codes| == 19 && bl.lens[SymbolOf(i)] != 0 && BlWeights(bl, w)
    ensures Total(ItemFields(bl, i)) == w[SymbolOf(i)]
  {
    hide Total, Pow2;
    var f, x := Sent(bl, SymbolOf(i)), ItemExtra(i);
    TotalOne(f);
    TotalExtra(x.val, x.len);
    TotalJoin([f], Extra(x.val, x.len));
  }

  lemma {:induction false} ItemsTotal(bl: Tree, items: seq<Item>, w: seq<nat>)
    requires CanSendItems(bl, items) && |bl.codes| == 19 && BlWeights(bl, w)
    ensures Total(ItemsFields(bl, items)) == UseCost(Counts(items), w, 19)
  {
    hide Total, UseCost, ItemFields, BlDesc;
    if items == [] {
      NoTotal();
      NoUse(w, 19, 19);
      assert Counts(items) == BlockCost.Zeros(19);
    } else {
      var i, rest := items[0], items[1..];
      ItemsTotal(bl, rest, w);
      ItemTotal(bl, i, w);
      TotalJoin(ItemFields(bl, i), ItemsFields(bl, rest));
      var f := Counts(rest);
      assert Counts(items) == f[SymbolOf(i) := f[SymbolOf(i)] + 1];
      OneMoreUse(f, w, 19, SymbolOf(i));
    }
  }

  lemma {:induction false} ItemCounted(items: seq<Item>, j: nat)
    requires ItemsOk(items) && j < |items|
    ensures Count(items, SymbolOf(items[j])) >= 1
  {
    if j > 0 {
      ItemCounted(items[1..], j - 1);
      assert items[1..][j - 1] == items[j];
    }
  }

  // ----- from frequencies to trees

  lemma BuiltTree(d: Desc, kind: CodeType, freq: seq<nat>, dl: seq<nat>, codes: seq<nat>, bl: seq<nat>, maxCode: nat)
    requires maxCode < |dl| && CodeOk(dl[..maxCode + 1], bl, freq, d.max) && |codes| == maxCode + 1 <= SymbolLimit(kind)
    requires forall s :: 0 <= s <= maxCode && dl[s] != 0 ==> codes[s] == SentCode(dl[..maxCode + 1], s)
    ensures TreeOk(Tree(dl[..maxCode + 1], codes), kind)
  {
    hide SentCode, Sorted, Cum, Bucket, Pow2;
  }

  /** A symbol that was counted has a code. */
  lemma CountedCoded(freq0: seq<nat>, freq: seq<nat>, added: seq<nat>, lens: seq<nat>, bl: seq<nat>, max: nat, E: nat,
                     s: nat)
    requires AddedOk(freq0, freq, added) && CodeOk(lens, bl, freq, max) && |lens| <= E <= |freq| && |freq0| == |freq|
    requires forall x :: |lens| <= x < E ==> freq[x] == 0
    requires s < E && freq0[s] >= 1
    ensures s < |lens| && lens[s] != 0
  {
    hide Sorted, Cum, Bucket, Pow2, Added;
    AddedSet(freq0, added);
  }

  /** Lengths with their extra bits. */
  function Plus(lens: seq<nat>, extra: seq<nat>): (w: seq<nat>)
    requires |lens| >= |extra|
    ensures |w| == |extra| && forall s :: 0 <= s < |extra| ==> w[s] == lens[s] + extra[s]
  {
    seq(|extra|, s requires 0 <= s < |extra| => lens[s] + extra[s])
  }

  lemma TreeCostIs(d: Desc, dl: seq<nat>, freq: seq<nat>)
    requires DescOk(d) && |dl| >= d.elems && |freq| >= d.elems
    ensures TreeCost(d, dl[..d.elems], freq) == UseCost(freq, Plus(dl, d.extra), d.elems)
  {
    hide RangeSum, Pow2;
    RangeSame(Cost(d.elems, dl[..d.elems], freq, d.extra), Uses(freq, Plus(dl, d.extra), d.elems), d.elems);
  }

  lemma FixedCostIs(d: Desc, freq: seq<nat>)
    requires DescOk(d) && |freq| >= d.elems && d.slens != []
    ensures FixedCost(d, freq) == UseCost(freq, Plus(d.slens, d.extra), d.elems)
  {
    hide RangeSum, Pow2;
    RangeSame(StaticCost(d.elems, d.elems, d.slens, freq, d.extra), Uses(freq, Plus(d.slens, d.extra), d.elems),
      d.elems);
  }

  datatype Trees = Trees(l: Tree, d: Tree, bl: Tree, blcodes: nat)

  /** A complete code. */
  ghost predicate Whole(t: Tree)
  {
    SortedLens(Sorted(t.lens)) && Cum(Sorted(t.lens), |Sorted(t.lens)|) == Pow2(MAXBITS)
  }

  /** The trees of a dynamic block that can send the tokens. */
  ghost predicate TreesOk(st: Static, ts: Trees, toks: seq<Token>)
    requires StaticOk(st)
  {
    && TreeOk(ts.l, LENS) && TreeOk(ts.d, DISTS) && TreeOk(ts.bl, CODES) && Whole(ts.l) && Whole(ts.d) && Whole(ts.bl)
    && AllSend(st, ts.l, ts.d, toks) && HeaderOk(ts.bl, ts.l.lens, ts.d.lens, ts.blcodes)
    && forall i: nat :: ts.blcodes <= i < 19 ==> ts.bl.lens[Order(i)] == 0
  }

  /** The three repeat symbols are sent first. */
  lemma LaterRank(s: nat)
    requires s < 16
    ensures Rank(s) >= 3
  {
  }

  predicate AllZero(s: seq<nat>)
  {
    forall i :: 0 <= i < |s| ==> s[i] == 0
  }

  /** Repeats and zero lengths alone give zeros. */
  lemma {:induction false} OnlyZeros(have: seq<nat>, items: seq<Item>)
    requires AllZero(have) && Expand(have, items).Some?
    requires forall j :: 0 <= j < |items| ==> items[j].Len? ==> items[j].l == 0
    ensures AllZero(Expand(have, items).value)
    decreases |items|
  {
    if items != [] {
      var h := ExpandOne(have, items[0]).value;
      assert AllZero(h);
      OnlyZeros(h, items[1..]);
    }
  }

  /** Lengths that are not all zero are not sent without an explicit length. */
  lemma SomeLength(lens: seq<nat>, k: nat) returns (j: nat)
    requires Lens15(lens) && k < |lens| && lens[k] != 0
    ensures j < |Items(lens)| && Items(lens)[j].Len? && 1 <= Items(lens)[j].l <= 15
  {
    hide Rle, Expand;
    var items := Items(lens);
    RleExpands([], lens, 0, 0, -1);
    assert [] + lens[0..] == lens;
    if forall j :: 0 <= j < |items| ==> items[j].Len? ==> items[j].l == 0 {
      OnlyZeros([], items);
      assert false;
    }
    j :| 0 <= j < |items| && items[j].Len? && items[j].l != 0;
    assert ItemOk(items[j]);
  }

  /** max_blindex + 1: how many code-length lengths to send, at least four. */
  method BlCodes(lens: seq<nat>, ghost s: nat) returns (n: nat)
    requires |lens| == 19 && s < 16 && lens[s] != 0
    ensures 4 <= n <= 19 && forall i: nat :: n <= i < 19 ==> lens[Order(i)] == 0
    ensures lens[Order(n - 1)] != 0
  {
    hide Order, Rank;
    LaterRank(s);
    assert lens[Order(Rank(s))] != 0;
    var maxBlindex := 18;
    while maxBlindex >= 3
      invariant 3 <= maxBlindex <= 18 && forall i: nat :: maxBlindex < i < 19 ==> lens[Order(i)] == 0
    {
      if lens[Order(maxBlindex)] != 0 { break; }
      maxBlindex := maxBlindex - 1;
    }
    n := maxBlindex + 1;
  }

  /** Every symbol with a frequency has a code. */
  predicate Coded(t: Tree, freq: seq<nat>, E: nat)
  {
    E <= |freq| && forall s :: 0 <= s < E && freq[s] >= 1 ==> s < |t.lens| && t.lens[s] != 0
  }

  /** w is what each symbol of the tree costs. */
  predicate Prices(t: Tree, w: seq<nat>, extra: seq<nat>)
  {
    |w| == |extra| && forall s :: 0 <= s < |t.lens| && s < |extra| ==> w[s] == t.lens[s] + extra[s]
  }

  /** build_tree for one descriptor: the cheapest code for the frequencies, unless a length can need repair
      or their sum wraps around. */
  method BuildOne(d: Desc, ghost kind: CodeType, freq0: seq<nat>, opt0: int, stat0: int)
    returns (t: Tree, opt: int, stat: int, ghost w: seq<nat>)
    requires DescOk(d) && |freq0| == 2 * d.elems && d.elems <= SymbolLimit(kind)
    ensures TreeOk(t, kind) && Whole(t) && 2 <= |t.lens| == |t.codes| <= d.elems && Coded(t, freq0, d.elems)
    ensures forall s :: 0 <= s < |t.lens| ==> t.lens[s] <= d.max
    ensures Prices(t, w, d.extra) && opt == opt0 + UseCost(freq0, w, d.elems)
    ensures stat == stat0 + if d.slens == [] then 0 else UseCost(freq0, Plus(d.slens, d.extra), d.elems)
    ensures !Deep(d, freq0) && RangeSum(freq0, d.elems) < 65536 ==> Cheapest(d, freq0, Cut(t.lens, d.elems))
  {
    hide Sorted, Cum, Bucket, Pow2, SentCode, TreeCost, FixedCost, UseCost, AddedOk, TreeOk, Cheapest, RangeSum,
      Deep;
    var freq, dl, codes, bl, maxCode;
    ghost var added;
    freq, dl, codes, bl, maxCode, opt, stat, added :=
      Build(d, freq0, BlockCost.Zeros(2 * d.elems), opt0, stat0);
    t := Tree(dl[..maxCode + 1], codes);
    assert Cut(t.lens, d.elems) == dl[..d.elems];
    BuiltTree(d, kind, freq, dl, codes, bl, maxCode);
    w := Plus(dl, d.extra);
    TreeCostIs(d, dl, freq0);
    if d.slens != [] { FixedCostIs(d, freq0); } else { NoFixed(d, freq0); }
    forall s | 0 <= s < d.elems && freq0[s] >= 1 ensures s < |t.lens| && t.lens[s] != 0 {
      CountedCoded(freq0, freq, added, t.lens, bl, d.max, d.elems, s);
    }
  }

  lemma NoFixed(d: Desc, freq: seq<nat>)
    requires DescOk(d) && |freq| >= d.elems && d.slens == []
    ensures FixedCost(d, freq) == 0
  {
    hide RangeSum, Pow2;
    RangeTail(StaticCost(d.elems, d.elems, d.slens, freq, d.extra), 0, d.elems);
    NoRange(StaticCost(d.elems, d.elems, d.slens, freq, d.extra));
  }

  lemma NoRange(w: seq<nat>)
    ensures RangeSum(w, 0) == 0
  {
  }

  lemma TreesSend(st: Static, l: Tree, d: Tree, toks: seq<Token>)
    requires StaticOk(st) && TokensOk(toks) && |l.lens| == |l.codes| && |d.lens| == |d.codes|
    requires Coded(l, LFreq(st, toks, |toks|), L_CODES) && Coded(d, DFreq(st, toks, |toks|), D_CODES)
    ensures AllSend(st, l, d, toks)
  {
    hide LFreq, DFreq, StaticOk, DCode;
    EndCounted(st, toks, |toks|);
    forall i | 0 <= i < |toks| ensures CanSend(st, l, d, toks[i]) {
      LCounted(st, toks, |toks|, i);
      if toks[i].Ref? { DCounted(st, toks, |toks|, i); }
    }
  }

  lemma ItemsSend(bl: Tree, items: seq<Item>, freq: seq<nat>)
    requires ItemsOk(items) && |bl.lens| == |bl.codes| == 19 && |freq| >= 19
    requires forall s :: 0 <= s < 19 ==> freq[s] == Count(items, s)
    requires forall s :: 0 <= s < 19 && freq[s] >= 1 ==> bl.lens[s] != 0
    ensures CanSendItems(bl, items)
  {
    hide Count;
    forall j | 0 <= j < |items| ensures SymbolOf(items[j]) < 19 && bl.lens[SymbolOf(items[j])] != 0 {
      assert ItemOk(items[j]);
      ItemCounted(items, j);
    }
  }

  lemma HeaderTotal(bl: Tree, l: seq<nat>, d: seq<nat>, blcodes: nat)
    requires HeaderOk(bl, l, d, blcodes)
    ensures Total(HeaderFields(bl, l, d, blcodes)) == 14 + 3 * blcodes + Total(ItemsFields(bl, Items(l) + Items(d)))
  {
    hide Total, Items, ItemsFields, CanSendItems, Order;
    var fc, fr, fi := CountFields(|l|, |d|, blcodes), RankFields(bl.lens, blcodes),
      ItemsFields(bl, Items(l) + Items(d));
    TotalJoin(fc, fr + fi);
    TotalJoin(fr, fi);
    ThreesTotal(fr);
    var f, g, h := Field(|l| - 257, 5), Field(|d| - 1, 5), Field(blcodes - 4, 4);
    assert fc == [f] + ([g] + [h]);
    TotalOne(f);
    TotalOne(g);
    TotalOne(h);
    TotalJoin([f], [g] + [h]);
    TotalJoin([g], [h]);
  }

  /** No other code takes fewer bits for the code lengths. */
  ghost predicate CheapItems(items: seq<Item>, lens: seq<nat>)
  {
    && ItemsOk(items) && |lens| == 19
    && var freq := Counts(items) + BlockCost.Zeros(19);
       !Deep(BlDesc(), freq) && |items| < 65536 ==> Cheapest(BlDesc(), freq, lens)
  }

  lemma CountUses(items: seq<Item>, freq: seq<nat>)
    requires ItemsOk(items) && |freq| >= 19 && forall s :: 0 <= s < 19 ==> freq[s] == Count(items, s)
    ensures RangeSum(freq, 19) == |items|
  {
    hide Count, RangeSum;
    CountTotal(items);
    RangeSame(freq, Counts(items), 19);
  }

  lemma {:induction false} CountTotal(items: seq<Item>)
    requires ItemsOk(items)
    ensures RangeSum(Counts(items), 19) == |items|
  {
    hide RangeSum;
    if items == [] {
      RangeTail(Counts(items), 0, 19);
      NoRange(Counts(items));
    } else {
      var f, s := Counts(items[1..]), SymbolOf(items[0]);
      CountTotal(items[1..]);
      assert Counts(items) == f[s := f[s] + 1];
      RangeUpdate(f, Counts(items), 19, s);
    }
  }

  /** The code-length tree for the lengths of the other two. */
  method BuildBlTree(l: seq<nat>, d: seq<nat>, ghost k: nat, opt0: int, stat0: int)
    returns (bl: Tree, blcodes: nat, opt: int, stat: int)
    requires 257 <= |l| <= 286 && 1 <= |d| <= 30 && Lens15(l) && Lens15(d) && k < |l| && l[k] != 0
    ensures TreeOk(bl, CODES) && Whole(bl) && HeaderOk(bl, l, d, blcodes) && stat == stat0
    ensures forall i: nat :: blcodes <= i < 19 ==> bl.lens[Order(i)] == 0
    ensures opt == opt0 + Total(HeaderFields(bl, l, d, blcodes))
    ensures CheapItems(Items(l) + Items(d), bl.lens)
  {
    hide TreeOk, Total, UseCost, Items, ItemsFields, Order, Count, Pow2, HeaderFields, ItemsOk, Cheapest, Deep,
      RangeSum;
    var freq := ScanTree(l, BlockCost.Zeros(19));
    freq := ScanTree(d, freq);
    ghost var items := Items(l) + Items(d);
    CountJoin(Items(l), Items(d), 0);
    forall s | 0 <= s < 19 ensures freq[s] == Count(items, s) { CountJoin(Items(l), Items(d), s); }
    var freq2 := freq + BlockCost.Zeros(19);
    var t;
    ghost var w;
    t, opt, stat, w := BuildOne(BlDesc(), CODES, freq2, opt0, stat0);
    CountUses(items, freq2);
    assert Cut(t.lens, 19) == Pad(t.lens, 19);
    TreePad(t, CODES, 19);
    bl := Tree(Pad(t.lens, 19), Pad(t.codes, 19));
    SortedPad(t.lens, 19);
    PadFacts(t.lens, 19, 7);
    forall s | 0 <= s < 19 && freq[s] >= 1 ensures bl.lens[s] != 0 {
      assert freq2[s] == freq[s];
      PadAt(t.lens, 19, s);
    }
    ItemsSend(bl, items, freq);
    ghost var j := SomeLength(l, k);
    assert items[j] == Items(l)[j];
    ItemSendable(bl, items, j);
    blcodes := BlCodes(bl.lens, Items(l)[j].l);
    PadPrices(t, w, bl);
    ItemsTotal(bl, items, w);
    assert Counts(items) == freq && |items| == |Items(l)| + |Items(d)|;
    UseCostSame(freq, freq2, w, 19);
    HeaderTotal(bl, l, d, blcodes);
    opt := opt + 3 * blcodes + 5 + 5 + 4;
  }

  lemma ItemSendable(bl: Tree, items: seq<Item>, j: nat)
    requires CanSendItems(bl, items) && j < |items| && items[j].Len?
    ensures items[j].l < |bl.lens| && bl.lens[items[j].l] != 0
  {
    assert ItemOk(items[j]);
    assert SymbolOf(items[j]) == items[j].l;
  }

  lemma PadFacts(lens: seq<nat>, k: nat, max: nat)
    requires |lens| <= k && forall s :: 0 <= s < |lens| ==> lens[s] <= max
    ensures forall s :: 0 <= s < k ==> Pad(lens, k)[s] <= max
  {
    forall s | 0 <= s < k ensures Pad(lens, k)[s] <= max { if s < |lens| { PadAt(lens, k, s); } }
  }

  lemma PadPrices(t: Tree, w: seq<nat>, bl: Tree)
    requires Prices(t, w, BlDesc().extra) && |t.lens| <= 19 && |t.codes| <= 19
             && bl == Tree(Pad(t.lens, 19), Pad(t.codes, 19))
    ensures BlWeights(bl, w)
  {
    hide Pad;
    forall s | 0 <= s < 19 && bl.lens[s] != 0 ensures w[s] == bl.lens[s] + BlDesc().extra[s] {
      if s < |t.lens| { PadAt(t.lens, 19, s); }
    }
  }

  lemma UseCostSame(f: seq<nat>, g: seq<nat>, w: seq<nat>, n: nat)
    requires n <= |f| && n <= |g| && n <= |w| && f[..n] == g[..n]
    ensures UseCost(f, w, n) == UseCost(g, w, n)
  {
    forall x | 0 <= x < n ensures f[x] == g[x] { assert f[x] == f[..n][x] == g[..n][x]; }
    RangeSame(Uses(f, w, n), Uses(g, w, n), n);
  }

  /** What the block costs with the fixed codes. */
  ghost function StaticSize(st: Static, toks: seq<Token>): nat
    requires StaticOk(st) && TokensOk(toks)
  {
    UseCost(LFreq(st, toks, |toks|), Plus(LDesc().slens, LDesc().extra), L_CODES) +
    UseCost(DFreq(st, toks, |toks|), Plus(DDesc().slens, DDesc().extra), D_CODES)
  }

  /** A code for the symbols of the block can need repair. */
  ghost predicate MayRepair(st: Static, toks: seq<Token>)
    requires StaticOk(st) && TokensOk(toks)
  {
    Deep(LDesc(), LFreq(st, toks, |toks|)) || Deep(DDesc(), DFreq(st, toks, |toks|))
  }

  /** Otherwise no other codes take fewer bits for the symbols of the block, and likewise for its header. */
  ghost predicate Minimal(st: Static, ts: Trees, toks: seq<Token>)
    requires StaticOk(st) && TreesOk(st, ts, toks) && TokensOk(toks)
  {
    && (!MayRepair(st, toks) && |toks| + 1 < 65536 ==> Shortest(st, ts.l, ts.d, toks))
    && CheapItems(Items(ts.l.lens) + Items(ts.d.lens), ts.bl.lens)
  }

  /** With fewer than Fib(16) symbols there is nothing to repair. */
  lemma SmallShortest(st: Static, ts: Trees, toks: seq<Token>)
    requires StaticOk(st) && TokensOk(toks) && TreesOk(st, ts, toks) && Minimal(st, ts, toks)
    requires |toks| + 1 < 2584
    ensures Shortest(st, ts.l, ts.d, toks)
  {
    hide TreesOk, StaticOk, LFreq, DFreq, Deep, Shortest, Fib, RangeSum, CheapItems;
    FibValues();
    LUses(st, toks, |toks|);
    DUses(st, toks, |toks|);
    if Deep(LDesc(), LFreq(st, toks, |toks|)) { DeepHeavy(LDesc(), LFreq(st, toks, |toks|)); }
    if Deep(DDesc(), DFreq(st, toks, |toks|)) { DeepHeavy(DDesc(), DFreq(st, toks, |toks|)); }
  }

  /** All the trees of a block.  opt_len is exactly the number of bits of the header and the
      symbols with these trees, and static_len that of the symbols with the fixed codes.  Unless a code may
      need repair, no other codes take fewer bits for the symbols. */
  method BuildTrees(st: Static, ghost toks: seq<Token>, lf: seq<nat>, df: seq<nat>)
    returns (ts: Trees, opt: int, stat: int)
    requires StaticOk(st) && TokensOk(toks) && lf == LFreq(st, toks, |toks|) && df == DFreq(st, toks, |toks|)
    ensures TreesOk(st, ts, toks)
    ensures opt == Total(HeaderFields(ts.bl, ts.l.lens, ts.d.lens, ts.blcodes))
            + Total(BlockFields(st, ts.l, ts.d, toks))
    ensures stat == StaticSize(st, toks)
    ensures Minimal(st, ts, toks)
  {
    hide TreeOk, Total, UseCost, LFreq, DFreq, StaticOk, HeaderFields, BlockFields, AllSend, HeaderOk, Whole, Order,
      Cheapest, Shortest, Deep, RangeSum, CheapItems;
    var l, d, bl, blcodes;
    ghost var wl, wd;
    l, opt, stat, wl := BuildOne(LDesc(), LENS, lf, 0, 0);
    d, opt, stat, wd := BuildOne(DDesc(), DISTS, df, opt, stat);
    LUses(st, toks, |toks|);
    DUses(st, toks, |toks|);
    EndCounted(st, toks, |toks|);
    TreesSend(st, l, d, toks);
    if !MayRepair(st, toks) && |toks| + 1 < 65536 { CheapestShort(st, l, d, toks); }
    bl, blcodes, opt, stat := BuildBlTree(l.lens, d.lens, 256, opt, stat);
    ts := Trees(l, d, bl, blcodes);
    BlockTotal(st, l, d, toks, wl, wd);
  }
}
