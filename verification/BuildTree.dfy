/** build_tree as a whole: from frequencies to a complete code that inflate accepts. */
module BuildTree {
  import opened Bits
  import opened Reverse
  import opened Canonical
  import opened InfTable
  import opened CodeTables
  import opened KraftSums
  import opened BitLengths
  import opened Heap
  import opened HuffmanTree
  import opened MergeCost
  import opened TreeDepth

  // ----- from counts to a complete code

  lemma {:induction false} BucketSum(lens: seq<nat>, E: nat, dl: seq<nat>, b: nat, n: nat)
    requires n <= |lens| <= E && |lens| <= |dl| && lens == dl[..|lens|]
    ensures RangeSum(Ind(E, dl, b), n) == |Bucket(lens, b, n)|
  {
    if n > 0 { BucketSum(lens, E, dl, b, n - 1); }
  }

  /** With no code above max, counting space in units of length MAXBITS instead of max. */
  lemma {:induction false} KraftScale(bl: seq<nat>, max: nat, n: nat)
    requires |bl| == MAXBITS + 1 && n <= max <= MAXBITS
    ensures KraftCount(bl, MAXBITS, n) == KraftCount(bl, max, n) * Pow2(MAXBITS - max)
  {
    hide Pow2;
    if n > 0 {
      KraftScale(bl, max, n - 1);
      var q := Pow2(MAXBITS - max);
      Pow2Add(max - n, MAXBITS - max);
      Assoc(bl[n], Pow2(max - n), q);
      Distrib(KraftCount(bl, max, n - 1), bl[n] * Pow2(max - n), q);
    }
  }

  lemma {:induction false} KraftTail(bl: seq<nat>, max: nat, n: nat)
    requires |bl| == MAXBITS + 1 && max <= n <= MAXBITS && forall b :: max < b <= MAXBITS ==> bl[b] == 0
    ensures KraftCount(bl, MAXBITS, n) == KraftCount(bl, MAXBITS, max)
  {
    if n > max { KraftTail(bl, max, n - 1); }
  }

  lemma {:induction false} KraftIsRem(lens: seq<nat>, bl: seq<nat>, n: nat)
    requires CountsOk(lens, bl) && SortedLens(Sorted(lens)) && n <= MAXBITS
    ensures KraftCount(bl, MAXBITS, n) == RemWords(Sorted(lens), 0, n)
  {
    hide Pow2, Rem, RemWords, Bucket, Sorted, Cum;
    if n == 0 {
      RemWordsNone(Sorted(lens), 0, 0);
    } else {
      KraftIsRem(lens, bl, n - 1);
      RemWordsNext(Sorted(lens), 0, n);
      CountsAreRem(lens, bl);
    }
  }

  /** Counts that take the whole space are those of a complete code. */
  lemma Complete(lens: seq<nat>, bl: seq<nat>, max: nat)
    requires CountsOk(lens, bl) && 1 <= max <= MAXBITS && KraftCount(bl, max, max) == Pow2(max)
    requires forall b :: max < b <= MAXBITS ==> bl[b] == 0
    ensures SortedLens(Sorted(lens)) && Cum(Sorted(lens), |Sorted(lens)|) == Pow2(MAXBITS)
  {
    hide Pow2, Rem, RemWords, Bucket, Sorted, Cum, KraftCount;
    SortedIs(lens);
    KraftScale(bl, max, max);
    Pow2Add(max, MAXBITS - max);
    KraftTail(bl, max, MAXBITS);
    KraftIsRem(lens, bl, MAXBITS);
    RemWordsAll(Sorted(lens), 0);
    CumZero(Sorted(lens));
  }

  /** The only complete code for two symbols has one bit for each. */
  lemma TwoLeaves(leaves: seq<nat>, E: nat, dl: seq<nat>, bl: seq<nat>, max: nat)
    requires |leaves| == 2 && LeafCounts(leaves, E, dl, bl) && Within(leaves, E) && 1 <= max <= MAXBITS
    requires KraftCount(bl, max, max) == Pow2(max) && forall i :: 0 <= i < |leaves| ==> 1 <= dl[leaves[i]] <= max
    ensures dl[leaves[0]] == 1 && dl[leaves[1]] == 1
  {
    hide Pow2, KraftCount, CodeCount;
    var w := LeafSpace(E, dl, max, max);
    SumZero(leaves, Ind(E, dl, 0));
    KraftIsSum(leaves, E, dl, bl, max, max);
    assert leaves == [leaves[0]] + [leaves[1]];
    SumOne(leaves[0], w);
    SumOne(leaves[1], w);
    SumJoin([leaves[0]], [leaves[1]], w);
    HalfSpace(max, dl[leaves[0]]);
    HalfSpace(max, dl[leaves[1]]);
  }

  lemma HalfSpace(max: nat, l: nat)
    requires 1 <= l <= max
    ensures 2 * Space(max, l) <= Pow2(max) && (2 * Space(max, l) == Pow2(max) <==> l == 1)
  {
    Pow2Mono(max - l, max - 1);
    if l > 1 { Pow2Mono(max - l, max - 2); }
  }

  // ----- the symbols to code

  /** What the descriptor of a tree says: its size, its extra bits, its fixed lengths if any, and
      the longest code. */
  datatype Desc = Desc(elems: nat, extra: seq<nat>, slens: seq<nat>, max: nat)

  predicate DescOk(d: Desc)
  {
    && 3 <= d.elems <= Pow2(d.max) && |d.extra| == d.elems && (d.slens == [] || |d.slens| >= d.elems)
    && 1 <= d.max <= MAXBITS && d.extra[0] == 0 && d.extra[1] == 0 && d.extra[2] == 0
  }

  /** The symbols below n are collected: the ones in use are in the heap, and maxCode is the largest. */
  predicate Collected(freq: seq<nat>, n: nat, hp: seq<nat>, maxCode: int)
  {
    && n <= |freq| && hp == [0] + Used(freq, n) && -1 <= maxCode < n && (maxCode >= 0 ==> freq[maxCode] != 0)
    && forall x :: maxCode < x < n ==> freq[x] == 0
  }

  lemma NoneCollected(freq: seq<nat>)
    ensures Collected(freq, 0, [0], -1)
  {
  }

  lemma OneCollected(freq: seq<nat>, n: nat, hp: seq<nat>, maxCode: int)
    requires Collected(freq, n, hp, maxCode) && n < |freq|
    ensures if freq[n] != 0 then Collected(freq, n + 1, hp + [n], n) else Collected(freq, n + 1, hp, maxCode)
  {
    UsedNext(freq, n);
  }

  lemma AllCollected(freq: seq<nat>, n: nat, hp: seq<nat>, maxCode: int)
    requires Collected(freq, n, hp, maxCode)
    ensures hp == [0] + Used(freq, n) && Listed(hp, freq, n, maxCode)
  {
    hide Used;
    assert hp[1..] == Used(freq, n);
  }

  lemma UsedNext(freq: seq<nat>, n: nat)
    requires n < |freq|
    ensures [0] + Used(freq, n + 1) == if freq[n] != 0 then [0] + Used(freq, n) + [n] else [0] + Used(freq, n)
  {
  }

  /** The symbols in use, and zero lengths for the others. */
  method Collect(freq: seq<nat>, dl0: seq<nat>, E: nat) returns (hp: seq<nat>, dl: seq<nat>, maxCode: int)
    requires E <= |freq| && E <= |dl0|
    ensures hp == [0] + Used(freq, E) && Listed(hp, freq, E, maxCode)
    ensures |dl| == |dl0| && forall x :: 0 <= x < E && freq[x] == 0 ==> dl[x] == 0
  {
    hide Used, Listed, Collected;
    hp, dl, maxCode := [0], dl0, -1;
    NoneCollected(freq);
    for n := 0 to E
      invariant Collected(freq, n, hp, maxCode)
      invariant |dl| == |dl0| && forall x :: 0 <= x < n && freq[x] == 0 ==> dl[x] == 0
    {
      OneCollected(freq, n, hp, maxCode);
      if freq[n] != 0 {
        hp := hp + [n];
        maxCode := n;
      } else {
        dl := dl[n := 0];
      }
    }
    AllCollected(freq, E, hp, maxCode);
  }

  /** freq with frequency 1 for the symbols in `added`. */
  function Added(freq: seq<nat>, added: seq<nat>): (f: seq<nat>)
    requires Within(added, |freq|)
    ensures |f| == |freq|
  {
    if added == [] then freq else Added(freq, added[..|added| - 1])[added[|added| - 1] := 1]
  }

  /** The fixed lengths of the added symbols. */
  ghost function StaticOf(d: Desc, added: seq<nat>): nat
    requires d.slens == [] || Within(added, |d.slens|)
  {
    if added == [] || d.slens == [] then 0
    else StaticOf(d, added[..|added| - 1]) + d.slens[added[|added| - 1]]
  }

  lemma NotYet(hp: seq<nat>, freq: seq<nat>, E: nat, maxCode: nat)
    requires E <= |freq| && 1 <= |hp| < 3 && multiset(hp[1..]) == multiset(Used(freq, E)) && 2 <= maxCode < E
    requires freq[maxCode] != 0
    ensures freq[0] == 0
  {
    hide Used;
    var u := Used(freq, E);
    assert |multiset(hp[1..])| == |multiset(u)|;
    UsedAll(freq, E, maxCode);
    if freq[0] != 0 { UsedAll(freq, E, 0); }
  }

  /** The heap holds the symbols in use; maxCode is the largest. */
  predicate Listed(hp: seq<nat>, freq: seq<nat>, E: nat, maxCode: int)
  {
    && E <= |freq| && |hp| >= 1 && multiset(hp[1..]) == multiset(Used(freq, E))
    && -1 <= maxCode < E && (maxCode >= 0 ==> freq[maxCode] != 0) && forall x :: maxCode < x < E ==> freq[x] == 0
  }

  /** The added symbols are different, are among the first three, and were not in use. */
  predicate AddedOk(freq0: seq<nat>, freq: seq<nat>, added: seq<nat>)
  {
    && |added| <= 2 && Within(added, 3) && |freq0| >= 3 && Within(added, |freq0|) && freq == Added(freq0, added)
    && (forall i :: 0 <= i < |added| ==> freq0[added[i]] == 0)
    && (|added| == 2 ==> added[0] != added[1])
  }

  lemma ForceNode(hp: seq<nat>, freq: seq<nat>, E: nat, maxCode: int)
    requires Listed(hp, freq, E, maxCode) && |hp| < 3 && E >= 3
    ensures var node: nat := if maxCode < 2 then maxCode + 1 else 0;
            && node < 3 && freq[node] == 0
            && Listed(hp + [node], freq[node := 1], E, if maxCode < 2 then maxCode + 1 else maxCode)
  {
    hide Used;
    var node: nat := if maxCode < 2 then maxCode + 1 else 0;
    if maxCode >= 2 { NotYet(hp, freq, E, maxCode); }
    UsedForce(freq, E, node);
    assert (hp + [node])[1..] == hp[1..] + [node];
  }

  lemma AddedStep(freq: seq<nat>, added: seq<nat>, node: nat)
    requires Within(added, |freq|) && node < |freq|
    ensures Within(added + [node], |freq|) && Added(freq, added + [node]) == Added(freq, added)[node := 1]
    ensures Added(freq, []) == freq
  {
    assert (added + [node])[..|added|] == added;
  }

  lemma AddOne(freq0: seq<nat>, freq: seq<nat>, added: seq<nat>, node: nat)
    requires AddedOk(freq0, freq, added) && |added| <= 1 && node < 3 && |freq| >= 3 && freq[node] == 0
    ensures AddedOk(freq0, freq[node := 1], added + [node])
  {
    hide Added;
    AddedStep(freq0, added, node);
    if |added| == 1 {
      AddedStep(freq0, [], added[0]);
      assert [] + [added[0]] == added;
    } else {
      assert added == [];
    }
  }

  lemma StaticStep(d: Desc, added: seq<nat>, node: nat)
    requires d.slens == [] || (Within(added, |d.slens|) && node < |d.slens|)
    ensures Within(added + [node], |d.slens|) || d.slens == []
    ensures StaticOf(d, added + [node]) == StaticOf(d, added) + if d.slens == [] then 0 else d.slens[node]
  {
    assert (added + [node])[..|added|] == added;
  }

  /** At least two codes, so that every code has at least one bit. */
  method ForceTwo(hp0: seq<nat>, freq0: seq<nat>, maxCode0: int, d: Desc, opt0: int, stat0: int)
    returns (hp: seq<nat>, freq: seq<nat>, maxCode: int, opt: int, stat: int, ghost added: seq<nat>)
    requires DescOk(d) && Listed(hp0, freq0, d.elems, maxCode0)
    ensures |hp| >= 3 && Listed(hp, freq, d.elems, maxCode) && |freq| == |freq0|
    ensures AddedOk(freq0, freq, added) && (added != [] ==> |hp| == 3) && Within(added, d.elems)
    ensures opt == opt0 - |added| && stat == stat0 - StaticOf(d, added)
  {
    hide Listed, AddedOk, StaticOf, Added, Pow2;
    hp, freq, maxCode, opt, stat, added := hp0, freq0, maxCode0, opt0, stat0, [];
    ForceStart(hp0, freq0, maxCode0, d);
    while |hp| < 3
      invariant |hp| >= 1 && Listed(hp, freq, d.elems, maxCode) && |freq| == |freq0| >= d.elems
      invariant AddedOk(freq0, freq, added) && (added != [] ==> |hp| <= 3) && |added| + 1 <= |hp|
      invariant Within(added, d.elems) && opt == opt0 - |added| && stat == stat0 - StaticOf(d, added)
      decreases 3 - |hp|
    {
      ListedRange(hp, freq, d.elems, maxCode);
      ForceNode(hp, freq, d.elems, maxCode);
      var node: nat := if maxCode < 2 then maxCode + 1 else 0;
      AddOne(freq0, freq, added, node);
      StaticStep(d, added, node);
      if maxCode < 2 { maxCode := maxCode + 1; }
      hp := hp + [node];
      freq := freq[node := 1];
      opt := opt - 1;
      if d.slens != [] { stat := stat - d.slens[node]; }
      added := added + [node];
    }
  }

  lemma ListedRange(hp: seq<nat>, freq: seq<nat>, E: nat, maxCode: int)
    requires Listed(hp, freq, E, maxCode)
    ensures -1 <= maxCode < E <= |freq| && |hp| >= 1
  {
  }

  lemma ForceStart(hp: seq<nat>, freq: seq<nat>, maxCode: int, d: Desc)
    requires DescOk(d) && Listed(hp, freq, d.elems, maxCode)
    ensures AddedOk(freq, freq, []) && StaticOf(d, []) == 0 && |hp| >= 1 && |freq| >= d.elems
  {
  }

  /** Establishing the heap from the last father on. */
  method Heapify(hp0: seq<nat>, keys: Keys) returns (hp: seq<nat>)
    requires HeapOk(hp0, keys)
    ensures |hp| == |hp0| && HeapOk(hp, keys) && HeapFrom(hp, keys, 1) && multiset(hp[1..]) == multiset(hp0[1..])
  {
    hide Le;
    hp := hp0;
    var n := (|hp| - 1) / 2;
    while n >= 1
      invariant 0 <= n < |hp| == |hp0| && hp[0] == hp0[0] && multiset(hp) == multiset(hp0)
      invariant HeapOk(hp, keys) && HeapFrom(hp, keys, n + 1)
    {
      hp := DownHeap(hp, keys, n);
      n := n - 1;
    }
    TailPerm(hp, hp0);
  }

  // ----- the cost of the symbols

  lemma {:induction false} RangeUpdate(w: seq<nat>, w': seq<nat>, n: nat, x: nat)
    requires n <= |w| == |w'| && x < |w| && forall y :: 0 <= y < n && y != x ==> w'[y] == w[y]
    ensures RangeSum(w', n) + (if x < n then w[x] else 0) == RangeSum(w, n) + if x < n then w'[x] else 0
  {
    if n > 0 { RangeUpdate(w, w', n - 1, x); }
  }

  lemma CostAddOne(E: nat, dl: seq<nat>, freq: seq<nat>, extra: seq<nat>, x: nat)
    requires |freq| >= |dl| >= E && |extra| >= E && x < E && freq[x] == 0
    ensures RangeSum(Cost(E, dl, freq[x := 1], extra), E) == RangeSum(Cost(E, dl, freq, extra), E) + dl[x] + extra[x]
  {
    hide RangeSum;
    RangeUpdate(Cost(E, dl, freq, extra), Cost(E, dl, freq[x := 1], extra), E, x);
  }

  lemma StaticAddOne(E: nat, n: nat, slens: seq<nat>, freq: seq<nat>, extra: seq<nat>, x: nat)
    requires |freq| >= n >= E && |extra| >= E && (slens == [] || |slens| >= E) && x < E && freq[x] == 0
    ensures RangeSum(StaticCost(E, n, slens, freq[x := 1], extra), E) ==
            RangeSum(StaticCost(E, n, slens, freq, extra), E) + if slens == [] then 0 else slens[x] + extra[x]
  {
    hide RangeSum;
    RangeUpdate(StaticCost(E, n, slens, freq, extra), StaticCost(E, n, slens, freq[x := 1], extra), E, x);
  }

  /** The added symbols cost one bit each, or their fixed lengths. */
  lemma {:induction false} CostAdded(d: Desc, dl: seq<nat>, freq0: seq<nat>, added: seq<nat>)
    requires DescOk(d) && |freq0| >= |dl| >= d.elems && Within(added, 3) && Within(added, d.elems) && Distinct(added)
    requires forall i :: 0 <= i < |added| ==> freq0[added[i]] == 0 && dl[added[i]] == 1
    ensures RangeSum(Cost(d.elems, dl, Added(freq0, added), d.extra), d.elems) ==
            RangeSum(Cost(d.elems, dl, freq0, d.extra), d.elems) + |added|
    ensures RangeSum(StaticCost(d.elems, |dl|, d.slens, Added(freq0, added), d.extra), d.elems) ==
            RangeSum(StaticCost(d.elems, |dl|, d.slens, freq0, d.extra), d.elems) + StaticOf(d, added)
    decreases |added|
  {
    hide RangeSum, Pow2, Cost, StaticCost;
    if added != [] {
      var most, x := added[..|added| - 1], added[|added| - 1];
      CostAdded(d, dl, freq0, most);
      StillZero(freq0, most, x);
      CostAddOne(d.elems, dl, Added(freq0, most), d.extra, x);
      StaticAddOne(d.elems, |dl|, d.slens, Added(freq0, most), d.extra, x);
    }
  }

  lemma {:induction false} StillZero(freq0: seq<nat>, added: seq<nat>, x: nat)
    requires Within(added, |freq0|) && x < |freq0| && freq0[x] == 0 && x !in added
    ensures Added(freq0, added)[x] == 0
    decreases |added|
  {
    if added != [] {
      assert added == added[..|added| - 1] + [added[|added| - 1]];
      StillZero(freq0, added[..|added| - 1], x);
    }
  }

  // ----- build_tree

  /** The lengths and counts of a complete code for the symbols with non-zero frequency. */
  ghost predicate CodeOk(lens: seq<nat>, bl: seq<nat>, freq: seq<nat>, max: nat)
  {
    && |lens| <= |freq| && max <= MAXBITS && LensOk(lens) && CountsOk(lens, bl) && bl[0] == 0
    && (forall s :: 0 <= s < |lens| ==> lens[s] <= max && (lens[s] != 0 <==> freq[s] != 0))
    && SortedLens(Sorted(lens)) && Cum(Sorted(lens), |Sorted(lens)|) == Pow2(MAXBITS)
  }

  lemma {:induction false} RangeTail(w: seq<nat>, m: nat, n: nat)
    requires m <= n <= |w| && forall x :: m <= x < n ==> w[x] == 0
    ensures RangeSum(w, n) == RangeSum(w, m)
  {
    if m < n { RangeTail(w, m, n - 1); }
  }

  /** From the lengths of the leaves to the code of the symbols. */
  lemma LeavesToCode(d: Desc, freq: seq<nat>, dl: seq<nat>, bl: seq<nat>, maxCode: nat)
    requires DescOk(d) && d.elems <= |freq| && d.elems <= |dl| && maxCode < d.elems
    requires forall x :: maxCode < x < d.elems ==> freq[x] == 0
    requires forall x :: 0 <= x < d.elems && freq[x] == 0 ==> dl[x] == 0
    requires forall x :: 0 <= x < d.elems && freq[x] != 0 ==> 1 <= dl[x] <= d.max
    requires LeafCounts(Used(freq, d.elems), d.elems, dl, bl) && KraftCount(bl, d.max, d.max) == Pow2(d.max)
    ensures CodeOk(dl[..maxCode + 1], bl, freq, d.max)
  {
    hide Pow2, KraftCount, Used, Bucket, Sorted, Cum, SumW, RangeSum;
    var lens, E := dl[..maxCode + 1], d.elems;
    forall b: nat | 1 <= b <= MAXBITS
      ensures bl[b] == |Bucket(lens, b, |lens|)| && (b > d.max ==> bl[b] == 0)
    {
      UsedSum(freq, E, Ind(E, dl, b));
      RangeTail(Ind(E, dl, b), maxCode + 1, E);
      BucketSum(lens, E, dl, b, maxCode + 1);
      if b > d.max { SumZero(Used(freq, E), Ind(E, dl, b)); }
    }
    Complete(lens, bl, d.max);
  }

  lemma UsedLengths(freq: seq<nat>, E: nat, dl: seq<nat>, max: nat)
    requires E <= |freq| && E <= |dl| && Within(Used(freq, E), |dl|)
    requires forall i :: 0 <= i < |Used(freq, E)| ==> 1 <= dl[Used(freq, E)[i]] <= max
    ensures forall x :: 0 <= x < E && freq[x] != 0 ==> 1 <= dl[x] <= max
  {
    hide Used;
    forall x | 0 <= x < E && freq[x] != 0 ensures 1 <= dl[x] <= max { UsedAll(freq, E, x); }
  }

  lemma UnusedKept(order: seq<nat>, E: nat, k: nat, freq: seq<nat>, x: nat)
    requires E <= |freq| && MergeOrder(order, E, k, Used(freq, E)) && x < E && freq[x] == 0
    ensures x !in order
  {
    hide Par;
    assert x !in Used(freq, E) + Inner(E, k);
    assert x !in multiset(Used(freq, E) + Inner(E, k));
  }

  /** What the tree costs: the bits for all uses of all symbols. */
  ghost function TreeCost(d: Desc, lens: seq<nat>, freq: seq<nat>): nat
    requires |lens| == d.elems <= |freq| && |d.extra| == d.elems
  {
    RangeSum(Cost(d.elems, lens, freq, d.extra), d.elems)
  }

  ghost function FixedCost(d: Desc, freq: seq<nat>): nat
    requires d.elems <= |freq| && |d.extra| == d.elems && (d.slens == [] || |d.slens| >= d.elems)
  {
    RangeSum(StaticCost(d.elems, d.elems, d.slens, freq, d.extra), d.elems)
  }

  lemma {:induction false} RangeSame(w: seq<nat>, w': seq<nat>, n: nat)
    requires n <= |w| && n <= |w'| && forall x :: 0 <= x < n ==> w[x] == w'[x]
    ensures RangeSum(w, n) == RangeSum(w', n)
  {
    if n > 0 { RangeSame(w, w', n - 1); }
  }

  /** The total costs: the added symbols cancel out. */
  lemma TotalCosts(d: Desc, freq0: seq<nat>, freq: seq<nat>, dl: seq<nat>, added: seq<nat>)
    requires DescOk(d) && |freq0| == |freq| >= |dl| >= d.elems && AddedOk(freq0, freq, added) && Within(added, d.elems)
    requires forall i :: 0 <= i < |added| ==> dl[added[i]] == 1
    requires forall x :: 0 <= x < d.elems && freq[x] == 0 ==> dl[x] == 0
    ensures Within(Used(freq, d.elems), |dl|)
    ensures SumW(Used(freq, d.elems), Cost(d.elems, dl, freq, d.extra)) == TreeCost(d, dl[..d.elems], freq0) + |added|
    ensures SumW(Used(freq, d.elems), StaticCost(d.elems, |dl|, d.slens, freq, d.extra)) ==
            FixedCost(d, freq0) + StaticOf(d, added)
  {
    hide Pow2, Used, SumW, RangeSum, StaticOf, Added, AddedOk, Cost, StaticCost, TreeCost, FixedCost;
    AddedFacts(freq0, freq, added);
    CostAdded(d, dl, freq0, added);
    TreeTotal(d, freq0, freq, dl);
    FixedTotal(d, freq0, freq, |dl|);
  }

  lemma AddedFacts(freq0: seq<nat>, freq: seq<nat>, added: seq<nat>)
    requires AddedOk(freq0, freq, added)
    ensures Distinct(added) && Within(added, 3) && Within(added, |freq0|) && freq == Added(freq0, added)
    ensures forall i :: 0 <= i < |added| ==> freq0[added[i]] == 0
  {
    hide Added;
    forall i, j | 0 <= i < j < |added| ensures added[i] != added[j] {
      assert i == 0 && j == 1;
    }
  }

  lemma TreeTotal(d: Desc, freq0: seq<nat>, freq: seq<nat>, dl: seq<nat>)
    requires DescOk(d) && |freq0| == |freq| >= |dl| >= d.elems
    ensures Within(Used(freq, d.elems), |dl|)
    ensures SumW(Used(freq, d.elems), Cost(d.elems, dl, freq, d.extra)) ==
            RangeSum(Cost(d.elems, dl, freq, d.extra), d.elems)
    ensures TreeCost(d, dl[..d.elems], freq0) == RangeSum(Cost(d.elems, dl, freq0, d.extra), d.elems)
  {
    hide Pow2, Used, SumW, RangeSum;
    var E := d.elems;
    UsedSum(freq, E, Cost(E, dl, freq, d.extra));
    RangeSame(Cost(E, dl, freq0, d.extra), Cost(E, dl[..E], freq0, d.extra), E);
  }

  lemma FixedTotal(d: Desc, freq0: seq<nat>, freq: seq<nat>, n: nat)
    requires DescOk(d) && |freq0| == |freq| >= n >= d.elems
    ensures Within(Used(freq, d.elems), n)
    ensures SumW(Used(freq, d.elems), StaticCost(d.elems, n, d.slens, freq, d.extra)) ==
            RangeSum(StaticCost(d.elems, n, d.slens, freq, d.extra), d.elems)
    ensures FixedCost(d, freq0) == RangeSum(StaticCost(d.elems, n, d.slens, freq0, d.extra), d.elems)
  {
    hide Pow2, Used, SumW, RangeSum;
    var E := d.elems;
    UsedSum(freq, E, StaticCost(E, n, d.slens, freq, d.extra));
    RangeSame(StaticCost(E, n, d.slens, freq0, d.extra), StaticCost(E, E, d.slens, freq0, d.extra), E);
  }

  lemma ListedLeaves(hp: seq<nat>, freq: seq<nat>, E: nat, maxCode: int)
    requires Listed(hp, freq, E, maxCode) && |hp| >= 3
    ensures var leaves := Used(freq, E);
            && |leaves| == |hp| - 1 && Distinct(leaves) && Within(leaves, E) && |leaves| <= E
            && 1 <= maxCode < E && Within(leaves, maxCode + 1)
    ensures forall x :: maxCode < x < E ==> freq[x] == 0
    ensures forall i :: 1 <= i < |hp| ==> hp[i] < E
  {
    hide Used;
    var leaves := Used(freq, E);
    UsedDistinct(freq, E);
    assert |multiset(hp[1..])| == |multiset(leaves)|;
    assert forall i :: 0 <= i < |leaves| ==> leaves[i] < E && leaves[i] <= maxCode;
    assert leaves[0] != leaves[1];
    forall i | 1 <= i < |hp| ensures hp[i] < E {
      assert hp[1..][i - 1] == hp[i];
      assert hp[i] in multiset(leaves);
    }
  }

  lemma AddedLengths(freq0: seq<nat>, freq: seq<nat>, added: seq<nat>, E: nat, dl: seq<nat>, bl: seq<nat>, max: nat)
    requires AddedOk(freq0, freq, added) && 3 <= E <= |freq| && E <= |dl| && |Used(freq, E)| == 2 && 1 <= max <= MAXBITS
    requires LeafCounts(Used(freq, E), E, dl, bl) && Within(Used(freq, E), E) && KraftCount(bl, max, max) == Pow2(max)
    requires forall i :: 0 <= i < |Used(freq, E)| ==> 1 <= dl[Used(freq, E)[i]] <= max
    ensures Within(added, |dl|) && forall i :: 0 <= i < |added| ==> dl[added[i]] == 1
  {
    hide Used, KraftCount, Pow2, Added;
    var leaves := Used(freq, E);
    TwoLeaves(leaves, E, dl, bl, max);
    AddedSet(freq0, added);
    forall i | 0 <= i < |added| ensures dl[added[i]] == 1 { UsedAll(freq, E, added[i]); }
  }

  lemma {:induction false} AddedSet(freq0: seq<nat>, added: seq<nat>)
    requires Within(added, |freq0|)
    ensures forall i :: 0 <= i < |added| ==> Added(freq0, added)[added[i]] != 0
    ensures forall x :: 0 <= x < |freq0| && Added(freq0, added)[x] == 0 ==> freq0[x] == 0
    decreases |added|
  {
    if added != [] { AddedSet(freq0, added[..|added| - 1]); }
  }

  // ----- no code is cheaper

  /** Lengths of a prefix code for the symbols in use, with a bit for each at least. */
  ghost predicate SomeCode(freq: seq<nat>, E: nat, lens: seq<nat>, m: nat)
    requires E <= |freq|
  {
    |lens| == E && (forall x :: 0 <= x < E && freq[x] != 0 ==> lens[x] >= 1) && PrefixCode(Used(freq, E), lens, m)
  }

  /** No prefix code takes fewer bits for the uses of the symbols. */
  ghost predicate Cheapest(d: Desc, freq: seq<nat>, lens: seq<nat>)
    requires |lens| == d.elems <= |freq| && |d.extra| == d.elems
  {
    forall other: seq<nat>, m: nat :: SomeCode(freq, d.elems, other, m) ==>
      TreeCost(d, lens, freq) <= TreeCost(d, other, freq)
  }

  /** The extra bits of the uses of a symbol. */
  function ExtraW(freq: seq<nat>, extra: seq<nat>): (w: seq<nat>)
    requires |freq| >= |extra|
    ensures |w| == |extra| && forall x :: 0 <= x < |extra| ==> w[x] == freq[x] * extra[x]
  {
    seq(|extra|, x requires 0 <= x < |extra| => freq[x] * extra[x])
  }

  lemma TreeCostParts(d: Desc, lens: seq<nat>, freq: seq<nat>)
    requires |lens| == d.elems <= |freq| && |d.extra| == d.elems
    ensures var u := Used(freq, d.elems);
            TreeCost(d, lens, freq) == SumW(u, BillW(freq, lens)) + SumW(u, ExtraW(freq, d.extra))
  {
    hide Used, SumW, RangeSum, BillW, ExtraW, Cost;
    var E, u := d.elems, Used(freq, d.elems);
    var c, b, x := Cost(E, lens, freq, d.extra), BillW(freq, lens), ExtraW(freq, d.extra);
    CostParts(E, lens, freq, d.extra);
    UsedSum(freq, E, c);
    SumLinear(u, c, b, x, 1);
  }

  lemma CostParts(E: nat, lens: seq<nat>, freq: seq<nat>, extra: seq<nat>)
    requires |lens| == E <= |freq| && |extra| == E
    ensures forall x :: 0 <= x < E ==>
              Cost(E, lens, freq, extra)[x] == BillW(freq, lens)[x] + ExtraW(freq, extra)[x] * 1
    ensures forall x :: 0 <= x < E && freq[x] == 0 ==> Cost(E, lens, freq, extra)[x] == 0
  {
    forall x | 0 <= x < E
      ensures Cost(E, lens, freq, extra)[x] == BillW(freq, lens)[x] + ExtraW(freq, extra)[x] * 1
      ensures freq[x] == 0 ==> Cost(E, lens, freq, extra)[x] == 0
    {
      Spread(freq[x], lens[x], extra[x]);
    }
  }

  lemma Spread(f: nat, l: nat, x: nat)
    ensures f * (l + x) == f * l + f * x * 1 && (f == 0 ==> f * (l + x) == 0)
  {
  }

  /** If the lengths are the depths of the leaves in the tree of merges. */
  lemma CheapestMerged(d: Desc, freq: seq<nat>, order: seq<nat>, k: nat, w: seq<nat>, dl: seq<nat>)
    requires |d.extra| == d.elems && d.elems + k <= |dl| <= |w| && |dl| <= |freq|
    requires MergeOrder(order, d.elems, k, Used(freq, d.elems)) && Within(order, |dl|)
    requires Leveled(order, d.elems, k, dl, d.max, |order|) && Over(d.elems, k, dl, d.max, |order|) == 0
    requires Best(order[1..], [order[0]], d.elems, k, Used(freq, d.elems), freq, w)
    ensures Cheapest(d, freq, dl[..d.elems])
  {
    hide Used, SumW, MergeOrder, Leveled, Over, Best, TreeCost, PrefixCode;
    var E, u, lens := d.elems, Used(freq, d.elems), dl[..d.elems];
    forall other: seq<nat>, m: nat | SomeCode(freq, E, other, m)
      ensures TreeCost(d, lens, freq) <= TreeCost(d, other, freq)
    {
      NoneCheaper(order, E, k, u, freq, w, dl, d.max, other, m);
      TreeCostParts(d, lens, freq);
      TreeCostParts(d, other, freq);
      SumAgree(u, BillW(freq, lens), BillW(freq, dl));
    }
  }

  lemma {:induction false} RangeLe(w: seq<nat>, w': seq<nat>, n: nat)
    requires n <= |w| && n <= |w'| && forall x :: 0 <= x < n ==> w[x] <= w'[x]
    ensures RangeSum(w, n) <= RangeSum(w', n)
  {
    if n > 0 { RangeLe(w, w', n - 1); }
  }

  /** If every symbol in use has one bit. */
  lemma CheapestBit(d: Desc, freq: seq<nat>, lens: seq<nat>)
    requires |lens| == d.elems <= |freq| && |d.extra| == d.elems
    requires forall x :: 0 <= x < d.elems && freq[x] != 0 ==> lens[x] == 1
    ensures Cheapest(d, freq, lens)
  {
    hide Used, RangeSum, PrefixCode;
    var E := d.elems;
    forall other: seq<nat>, m: nat | SomeCode(freq, E, other, m)
      ensures TreeCost(d, lens, freq) <= TreeCost(d, other, freq)
    {
      forall x | 0 <= x < E ensures Cost(E, lens, freq, d.extra)[x] <= Cost(E, other, freq, d.extra)[x] {
        if freq[x] != 0 { MoreBits(freq[x], other[x], d.extra[x]); }
      }
      RangeLe(Cost(E, lens, freq, d.extra), Cost(E, other, freq, d.extra), E);
    }
  }

  lemma MoreBits(f: nat, l: nat, x: nat)
    requires l >= 1
    ensures f * (1 + x) <= f * (l + x)
  {
    Spread(f, 1 + x, l - 1);
  }

  /** With added symbols there are only two, of one bit each. */
  lemma AddedBits(freq0: seq<nat>, freq: seq<nat>, added: seq<nat>, E: nat, dl: seq<nat>, bl: seq<nat>, max: nat)
    requires AddedOk(freq0, freq, added) && 3 <= E <= |freq| && E <= |dl| && |Used(freq, E)| == 2 && 1 <= max <= MAXBITS
    requires LeafCounts(Used(freq, E), E, dl, bl) && Within(Used(freq, E), E) && KraftCount(bl, max, max) == Pow2(max)
    requires forall i :: 0 <= i < |Used(freq, E)| ==> 1 <= dl[Used(freq, E)[i]] <= max
    ensures |freq0| == |freq| && forall x :: 0 <= x < E && freq0[x] != 0 ==> dl[x] == 1
  {
    hide Used, KraftCount, Pow2, Added;
    TwoLeaves(Used(freq, E), E, dl, bl, max);
    AddedSet(freq0, added);
    forall x | 0 <= x < E && freq0[x] != 0 ensures dl[x] == 1 { UsedAll(freq, E, x); }
  }

  lemma NothingAdded(freq0: seq<nat>, freq: seq<nat>, E: nat)
    requires AddedOk(freq0, freq, []) && E <= |freq0|
    ensures freq == freq0 && Within(Used(freq, E), |freq|) && SumW(Used(freq, E), freq) == RangeSum(freq0, E)
  {
    hide Used, SumW, RangeSum;
    UsedSum(freq, E, freq);
  }

  lemma CheapestBuilt(d: Desc, freq0: seq<nat>, freq: seq<nat>, added: seq<nat>, order: seq<nat>, k: nat, w: seq<nat>,
                      dl: seq<nat>, bl: seq<nat>)
    requires DescOk(d) && AddedOk(freq0, freq, added) && |freq0| == |freq| == |dl| == 2 * d.elems && d.elems + k <= |dl|
    requires var u := Used(freq, d.elems);
             && (added != [] ==> |u| == 2) && MergeOrder(order, d.elems, k, u) && Within(order, |dl|)
             && LeafCounts(u, d.elems, dl, bl) && KraftCount(bl, d.max, d.max) == Pow2(d.max)
             && (forall i :: 0 <= i < |u| ==> 1 <= dl[u[i]] <= d.max)
             && |order| == 2 * k + 1
             && (SumW(u, freq) < 65536 ==> Best(order[1..], [order[0]], d.elems, k, u, freq, w))
    requires Leveled(order, d.elems, k, dl, d.max, |order|) && Over(d.elems, k, dl, d.max, |order|) == 0
    requires RangeSum(freq0, d.elems) < 65536
    ensures Cheapest(d, freq0, dl[..d.elems])
  {
    hide Best, Leveled, Over, Cheapest, Pow2, Used, SumW, RangeSum, AddedOk, KraftCount, MergeOrder, LeafCounts;
    var E := d.elems;
    if added != [] {
      AddedBits(freq0, freq, added, E, dl, bl, d.max);
      CheapestBit(d, freq0, dl[..E]);
    } else {
      NothingAdded(freq0, freq, E);
      BestSize(order, E, k, freq, w);
      CheapestMerged(d, freq, order, k, w, dl);
    }
  }

  lemma BestSize(order: seq<nat>, E: nat, k: nat, freq: seq<nat>, w: seq<nat>)
    requires E <= |freq| && |order| >= 1 && Best(order[1..], [order[0]], E, k, Used(freq, E), freq, w)
    ensures |w| == |freq|
  {
  }

  /** The middle of build_tree: from the heap of symbols to the lengths of their codes. */
  method Lengths(d: Desc, hp0: seq<nat>, freq: seq<nat>, dl0: seq<nat>, maxCode: nat, opt0: int, stat0: int)
    returns (dl: seq<nat>, bl: seq<nat>, opt: int, stat: int, ghost lv: seq<nat>, ghost order: seq<nat>, ghost k: nat,
             ghost w: seq<nat>)
    requires DescOk(d) && |freq| == |dl0| == 2 * d.elems && |hp0| >= 3 && Listed(hp0, freq, d.elems, maxCode)
    requires forall x :: 0 <= x < d.elems && freq[x] == 0 ==> dl0[x] == 0
    ensures |dl| == |dl0| && forall x :: 0 <= x < d.elems && freq[x] == 0 ==> dl[x] == 0
    ensures var u := Used(freq, d.elems);
            && Within(u, d.elems) && LeafCounts(u, d.elems, dl, bl) && KraftCount(bl, d.max, d.max) == Pow2(d.max)
            && (forall i :: 0 <= i < |u| ==> 1 <= dl[u[i]] <= d.max)
            && opt == opt0 + SumW(u, Cost(d.elems, dl, freq, d.extra))
            && stat == stat0 + SumW(u, StaticCost(d.elems, |dl|, d.slens, freq, d.extra))
            && MergeOrder(order, d.elems, k, u) && Within(order, |dl|) && d.elems + k <= |dl| && |order| == 2 * k + 1
            && (SumW(u, freq) < 65536 ==>
                  Best(order[1..], [order[0]], d.elems, k, u, freq, w) && Rising(order[1..], [order[0]], d.elems, k, w))
    ensures |lv| == |dl| && Leveled(order, d.elems, k, lv, d.max, |order|)
    ensures Over(d.elems, k, lv, d.max, |order|) == 0 ==> dl == lv
  {
    hide Best, Rising, Leveled, Over, Pow2, Used, SumW, Listed, KraftCount, MergeOrder, HeapFrom, Par, LeafCounts;
    var E := d.elems;
    ListedLeaves(hp0, freq, E, maxCode);
    ListedSet(hp0, freq, E, maxCode);
    ghost var leaves := Used(freq, E);
    var keys := Keys(freq, seq(|freq|, i => 0));
    var hp := Heapify(hp0, keys);
    var merges, n;
    merges, dl, n, w := MergeAll(hp, keys, dl0, E, leaves);
    order, k := merges, n;
    forall x | 0 <= x < E && freq[x] == 0 ensures x !in order { UnusedKept(order, E, k, freq, x); }
    dl, bl, opt, stat, lv :=
      GenBitlen(merges, E, n, maxCode, leaves, dl, d.max, freq, d.extra, d.slens, opt0, stat0);
  }

  /** A tree that merging two least nodes can give, with its depths cut off at the limit. */
  ghost predicate LeastMerges(d: Desc, freq: seq<nat>, order: seq<nat>, k: nat, lv: seq<nat>, w: seq<nat>)
    requires d.elems <= |freq|
  {
    && MergeOrder(order, d.elems, k, Used(freq, d.elems)) && Within(order, |lv|) && d.elems + k <= |lv|
    && |order| == 2 * k + 1 && Leveled(order, d.elems, k, lv, d.max, |order|)
    && Best(order[1..], [order[0]], d.elems, k, Used(freq, d.elems), freq, w)
    && Rising(order[1..], [order[0]], d.elems, k, w)
  }

  /** Some such tree has a node deeper than the limit. */
  ghost predicate Deep(d: Desc, freq: seq<nat>)
    requires d.elems <= |freq|
  {
    exists order: seq<nat>, k: nat, lv: seq<nat>, w: seq<nat> ::
      LeastMerges(d, freq, order, k, lv, w) && Over(d.elems, k, lv, d.max, |order|) != 0
  }

  /** That takes Fib(max + 1) uses at least. */
  lemma DeepHeavy(d: Desc, freq: seq<nat>)
    requires d.elems <= |freq| && Deep(d, freq)
    ensures RangeSum(freq, d.elems) >= Fib(d.max + 1)
  {
    hide Best, Rising, Leveled, Over, Used, SumW, RangeSum, MergeOrder, Fib;
    var order: seq<nat>, k: nat, lv: seq<nat>, w: seq<nat> :|
      LeastMerges(d, freq, order, k, lv, w) && Over(d.elems, k, lv, d.max, |order|) != 0;
    Shallow(order, d.elems, k, Used(freq, d.elems), freq, w, lv, d.max);
    UsedSum(freq, d.elems, freq);
  }

  /** A tree of two leaves is not deep. */
  lemma TwoShallow(order: seq<nat>, E: nat, k: nat, lv: seq<nat>, max: nat)
    requires k == 1 && |order| == 3 && E + k <= |lv| && Within(order, |lv|) && max >= 1
    requires Leveled(order, E, k, lv, max, 3) && order[0] == E
    ensures Over(E, k, lv, max, 3) == 0
  {
    assert Over(E, k, lv, max, 1) == 0;
    assert Over(E, k, lv, max, 2) == 0;
  }

  /** No node of the tree lies deeper than the limit, unless one of least merges does. */
  lemma NotOver(d: Desc, freq0: seq<nat>, freq: seq<nat>, added: seq<nat>, order: seq<nat>, k: nat, w: seq<nat>,
                lv: seq<nat>)
    requires DescOk(d) && AddedOk(freq0, freq, added) && |freq0| == |freq| >= d.elems && !Deep(d, freq0)
    requires RangeSum(freq0, d.elems) < 65536
    requires var u := Used(freq, d.elems);
             && (added != [] ==> |u| == 2) && MergeOrder(order, d.elems, k, u) && Within(order, |lv|)
             && d.elems + k <= |lv| && |order| == 2 * k + 1 && Leveled(order, d.elems, k, lv, d.max, |order|)
             && (SumW(u, freq) < 65536 ==>
                   && Best(order[1..], [order[0]], d.elems, k, u, freq, w)
                   && Rising(order[1..], [order[0]], d.elems, k, w))
    ensures Over(d.elems, k, lv, d.max, |order|) == 0
  {
    hide Best, Rising, Leveled, Over, Pow2, Used, SumW, RangeSum, AddedOk, MergeOrder;
    var E := d.elems;
    MergeSizes(order, E, k, Used(freq, E));
    if added != [] {
      TwoShallow(order, E, k, lv, d.max);
    } else {
      NothingAdded(freq0, freq, E);
      assert LeastMerges(d, freq0, order, k, lv, w);
    }
  }

  /** build_tree.  If no length can need repair and no sum of frequencies wraps around, the code is the
      cheapest of all. */
  method Build(d: Desc, freq0: seq<nat>, dl0: seq<nat>, opt0: int, stat0: int)
    returns (freq: seq<nat>, dl: seq<nat>, codes: seq<nat>, bl: seq<nat>, maxCode: nat, opt: int, stat: int,
             ghost added: seq<nat>)
    requires DescOk(d) && |freq0| == |dl0| == 2 * d.elems
    ensures |freq| == |dl| == |freq0| && 1 <= maxCode < d.elems && freq[maxCode] != 0
    ensures AddedOk(freq0, freq, added) && forall x :: maxCode < x < d.elems ==> freq[x] == 0 && dl[x] == 0
    ensures CodeOk(dl[..maxCode + 1], bl, freq, d.max)
    ensures |codes| == maxCode + 1
    ensures forall s :: 0 <= s <= maxCode && dl[s] != 0 ==> codes[s] == SentCode(dl[..maxCode + 1], s)
    ensures opt == opt0 + TreeCost(d, dl[..d.elems], freq0) && stat == stat0 + FixedCost(d, freq0)
    ensures !Deep(d, freq0) && RangeSum(freq0, d.elems) < 65536 ==> Cheapest(d, freq0, dl[..d.elems])
  {
    hide Best, Rising, Deep, Leveled, Over, Cheapest, Pow2, Used, SumW, RangeSum, StaticOf, Added, AddedOk, Listed,
      KraftCount, MergeOrder, SentCode, Sorted, Cum, Bucket, TreeCost, FixedCost, LeafCounts;
    var E := d.elems;
    var hp, mc;
    hp, dl, mc := Collect(freq0, dl0, E);
    hp, freq, mc, opt, stat, added := ForceTwo(hp, freq0, mc, d, opt0, stat0);
    ListedLeaves(hp, freq, E, mc);
    ListedSet(hp, freq, E, mc);
    maxCode := mc;
    AddedFacts(freq0, freq, added);
    AddedSet(freq0, added);
    ghost var lv, order, k, w;
    dl, bl, opt, stat, lv, order, k, w := Lengths(d, hp, freq, dl, maxCode, opt, stat);
    UsedLengths(freq, E, dl, d.max);
    LeavesToCode(d, freq, dl, bl, maxCode);
    if added != [] { AddedLengths(freq0, freq, added, E, dl, bl, d.max); }
    TotalCosts(d, freq0, freq, dl, added);
    if !Deep(d, freq0) && RangeSum(freq0, E) < 65536 {
      NotOver(d, freq0, freq, added, order, k, w, lv);
      CheapestBuilt(d, freq0, freq, added, order, k, w, dl, bl);
    }
    codes := GenCodes(dl[..maxCode + 1], bl);
  }

  lemma ListedSet(hp: seq<nat>, freq: seq<nat>, E: nat, maxCode: int)
    requires Listed(hp, freq, E, maxCode) && maxCode >= 0
    ensures E <= |freq| && maxCode < E && freq[maxCode] != 0 && multiset(hp[1..]) == multiset(Used(freq, E))
  {
  }
}
