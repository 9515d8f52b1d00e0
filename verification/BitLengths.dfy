/** gen_bitlen: code lengths from a Huffman tree, limited to a maximum. */
module BitLengths {
  import opened Bits
  import opened Canonical
  import opened KraftSums

  // ----- the tree in the heap array

  function Inner(E: nat, k: nat): (s: seq<nat>)
    ensures |s| == k && forall i :: 0 <= i < k ==> s[i] == E + i
  {
    seq(k, i => E + i)
  }

  /** The father of the node at position h. */
  function Par(E: nat, k: nat, h: nat): int
    requires h >= 1
  {
    E + k - 1 - (h - 1) / 2
  }

  predicate Distinct(s: seq<nat>)
  {
    forall i, j :: 0 <= i < j < |s| ==> s[i] != s[j]
  }

  /** The k merges of a Huffman tree, last one first: the root, then the two sons of each inner
      node.  Leaves are below E; merge i makes the node E + i from two older nodes. */
  predicate MergeOrder(order: seq<nat>, E: nat, k: nat, leaves: seq<nat>)
  {
    && k >= 1 && |order| == 2 * k + 1 && |leaves| == k + 1
    && Within(leaves, E) && Distinct(leaves) && Distinct(order)
    && multiset(order) == multiset(leaves + Inner(E, k))
    && order[0] == E + k - 1
    && forall h :: 1 <= h < |order| ==> order[h] < Par(E, k, h)
  }

  lemma InOrder(order: seq<nat>, E: nat, k: nat, leaves: seq<nat>, x: nat) returns (p: nat)
    requires MergeOrder(order, E, k, leaves) && E <= x < E + k
    ensures p < |order| && order[p] == x
  {
    hide Par;
    var all := leaves + Inner(E, k);
    assert all[k + 1 + (x - E)] == x;
    assert x in multiset(all);
    assert x in order;
    p :| p < |order| && order[p] == x;
  }

  /** A father comes before its sons. */
  lemma ParentBefore(order: seq<nat>, E: nat, k: nat, leaves: seq<nat>, h: nat) returns (p: nat)
    requires MergeOrder(order, E, k, leaves) && 1 <= h < |order|
    ensures p < h && order[p] == Par(E, k, h)
  {
    p := InOrder(order, E, k, leaves, Par(E, k, h));
    if p > 0 { assert order[p] < Par(E, k, p); }
  }

  lemma OrderBound(order: seq<nat>, E: nat, k: nat, leaves: seq<nat>)
    requires MergeOrder(order, E, k, leaves)
    ensures Within(order, E + k)
  {
  }

  // ----- weights of nodes

  /** 1 for a leaf of length b. */
  function Ind(E: nat, dl: seq<nat>, b: nat): (w: seq<nat>)
    ensures |w| == |dl| && forall x :: 0 <= x < |dl| ==> w[x] == if x < E && dl[x] == b then 1 else 0
  {
    seq(|dl|, x requires 0 <= x < |dl| => if x < E && dl[x] == b then 1 else 0)
  }

  /** The bits that the uses of a leaf take. */
  function Cost(E: nat, dl: seq<nat>, freq: seq<nat>, extra: seq<nat>): (w: seq<nat>)
    requires |freq| >= |dl| && |extra| >= E
    ensures |w| == |dl| && forall x :: 0 <= x < |dl| ==> w[x] == if x < E then freq[x] * (dl[x] + extra[x]) else 0
  {
    seq(|dl|, x requires 0 <= x < |dl| => if x < E then freq[x] * (dl[x] + extra[x]) else 0)
  }

  /** The same with the fixed lengths slens, or nothing without any. */
  function StaticCost(E: nat, n: nat, slens: seq<nat>, freq: seq<nat>, extra: seq<nat>): (w: seq<nat>)
    requires |freq| >= n && |extra| >= E && (slens == [] || |slens| >= E)
    ensures |w| == n
    ensures forall x :: 0 <= x < n ==> w[x] == if x < E && slens != [] then freq[x] * (slens[x] + extra[x]) else 0
  {
    seq(n, x requires 0 <= x < n => if x < E && slens != [] then freq[x] * (slens[x] + extra[x]) else 0)
  }

  /** The code space of a node. */
  function SpaceW(dl: seq<nat>, max: nat): (w: seq<nat>)
    ensures |w| == |dl| && forall x :: 0 <= x < |dl| ==> w[x] == Space(max, dl[x])
  {
    seq(|dl|, x requires 0 <= x < |dl| => Space(max, dl[x]))
  }

  lemma {:induction false} SumAgree(s: seq<nat>, w: seq<nat>, w': seq<nat>)
    requires Within(s, |w|) && Within(s, |w'|) && forall i :: 0 <= i < |s| ==> w[s[i]] == w'[s[i]]
    ensures SumW(s, w) == SumW(s, w')
  {
    if s != [] {
      assert w[s[0]] == w'[s[0]];
      SumAgree(s[1..], w, w');
    }
  }

  lemma SumNext(order: seq<nat>, h: nat, w: seq<nat>, w': seq<nat>)
    requires Within(order, |w|) && |w'| == |w| && h < |order|
    requires forall i :: 0 <= i < h ==> w[order[i]] == w'[order[i]]
    ensures Within(order[..h], |w|) && Within(order[..h + 1], |w|)
    ensures SumW(order[..h + 1], w') == SumW(order[..h], w) + w'[order[h]]
  {
    hide SumW;
    SumAgree(order[..h], w, w');
    assert order[..h + 1] == order[..h] + [order[h]];
    SumJoin(order[..h], [order[h]], w');
    SumOne(order[h], w');
  }

  // ----- first pass

  /** The length below a node of length l. */
  function Up(l: nat, max: nat): nat
  {
    if l < max then l + 1 else max
  }

  /** The nodes before position h have their lengths. */
  predicate Leveled(order: seq<nat>, E: nat, k: nat, dl: seq<nat>, max: nat, h: nat)
    requires 1 <= h <= |order| && Within(order, |dl|)
  {
    && dl[order[0]] == 0
    && (forall q :: 0 <= q < h ==> dl[order[q]] <= max)
    && (forall q :: 1 <= q < h ==> 0 <= Par(E, k, q) < |dl| && dl[order[q]] == Up(dl[Par(E, k, q)], max))
  }

  /** How many of the nodes before position h have a father of the maximal length. */
  function Over(E: nat, k: nat, dl: seq<nat>, max: nat, h: nat): nat
    requires E + k <= |dl| && h <= 2 * k + 1
  {
    if h <= 1 then 0
    else Over(E, k, dl, max, h - 1) + if dl[Par(E, k, h - 1)] == max then 1 else 0
  }

  lemma {:induction false} OverAgree(E: nat, k: nat, dl: seq<nat>, dl': seq<nat>, max: nat, h: nat, x: nat)
    requires E + k <= |dl| == |dl'| && 1 <= h <= 2 * k && x < Par(E, k, h)
    requires forall y :: 0 <= y < |dl| && y != x ==> dl[y] == dl'[y]
    ensures Over(E, k, dl, max, h) == Over(E, k, dl', max, h)
  {
    if h > 1 {
      assert Par(E, k, h - 1) > x;
      OverAgree(E, k, dl, dl', max, h - 1, x);
    }
  }

  lemma LevelStep(order: seq<nat>, E: nat, k: nat, leaves: seq<nat>, dl: seq<nat>, max: nat, h: nat)
    requires MergeOrder(order, E, k, leaves) && 1 <= h < |order| && E + k <= |dl| && Within(order, |dl|)
    requires Leveled(order, E, k, dl, max, h) && dl[order[h]] == Par(E, k, h)
    ensures dl[Par(E, k, h)] <= max
    ensures Leveled(order, E, k, dl[order[h] := Up(dl[Par(E, k, h)], max)], max, h + 1)
  {
    var p := ParentBefore(order, E, k, leaves, h);
    var n := order[h];
    var dl' := dl[n := Up(dl[Par(E, k, h)], max)];
    forall q | 0 <= q < h ensures dl'[order[q]] == dl[order[q]] { assert order[q] != n; }
    forall q | 1 <= q <= h ensures 0 <= Par(E, k, q) < |dl| && dl'[Par(E, k, q)] == dl[Par(E, k, q)] {
      assert n < Par(E, k, h) <= Par(E, k, q);
    }
  }

  lemma FirstLevel(order: seq<nat>, E: nat, k: nat, leaves: seq<nat>, dl: seq<nat>, max: nat)
    requires MergeOrder(order, E, k, leaves) && E + k <= |dl| && Within(order, |dl|)
    ensures Leveled(order, E, k, dl[order[0] := 0], max, 1) && Over(E, k, dl[order[0] := 0], max, 1) == 0
    ensures order[0] == E + k - 1 >= E && |order| == 2 * k + 1
    ensures forall q :: 1 <= q < |order| ==> order[q] != order[0]
  {
  }

  lemma OverStep(order: seq<nat>, E: nat, k: nat, leaves: seq<nat>, was: seq<nat>, v: nat, max: nat, h: nat)
    requires MergeOrder(order, E, k, leaves) && 1 <= h < |order| && E + k <= |was| && order[h] < |was|
    ensures Over(E, k, was[order[h] := v], max, h + 1) ==
            Over(E, k, was, max, h) + if was[Par(E, k, h)] == max then 1 else 0
  {
    OverAgree(E, k, was, was[order[h] := v], max, h, order[h]);
  }

  /** The nodes from position h on still have their fathers, and nothing else has changed. */
  predicate Unset(order: seq<nat>, E: nat, k: nat, dl0: seq<nat>, dl: seq<nat>, h: nat)
    requires Within(order, |dl0|) && h >= 1
  {
    && |dl| == |dl0|
    && (forall q :: h <= q < |order| ==> dl[order[q]] == Par(E, k, q))
    && (forall x :: 0 <= x < |dl| && x !in order ==> dl[x] == dl0[x])
  }

  predicate SameBefore(order: seq<nat>, was: seq<nat>, dl: seq<nat>, h: nat)
    requires Within(order, |dl|) && |was| == |dl| && h <= |order|
  {
    forall q :: 0 <= q < h ==> dl[order[q]] == was[order[q]]
  }

  lemma UnsetStep(order: seq<nat>, E: nat, k: nat, leaves: seq<nat>, dl0: seq<nat>, dl: seq<nat>, h: nat, v: nat)
    requires MergeOrder(order, E, k, leaves) && Within(order, |dl0|) && 1 <= h < |order|
             && Unset(order, E, k, dl0, dl, h)
    ensures dl[order[h]] == Par(E, k, h)
    ensures Unset(order, E, k, dl0, dl[order[h] := v], h + 1) && SameBefore(order, dl, dl[order[h] := v], h)
  {
    hide Par;
    OthersKept(order, E, k, leaves, h);
  }

  lemma OthersKept(order: seq<nat>, E: nat, k: nat, leaves: seq<nat>, h: nat)
    requires MergeOrder(order, E, k, leaves) && h < |order|
    ensures forall q :: 0 <= q < |order| && q != h ==> order[q] != order[h]
  {
  }

  /** The inner nodes are the ones above the largest code. */
  lemma LeafIff(order: seq<nat>, E: nat, k: nat, leaves: seq<nat>, maxCode: nat, h: nat)
    requires MergeOrder(order, E, k, leaves) && h < |order| && maxCode < E && Within(leaves, maxCode + 1)
    ensures order[h] <= maxCode <==> order[h] < E
  {
    var all := leaves + Inner(E, k);
    assert order[h] in multiset(order);
    assert order[h] in all;
  }

  /** The first h nodes have been passed: their lengths, their counts, the overflow and both costs. */
  ghost predicate Passed(order: seq<nat>, E: nat, k: nat, dl0: seq<nat>, max: nat, freq: seq<nat>, extra: seq<nat>,
                         slens: seq<nat>, h: nat, dl: seq<nat>, bl: seq<nat>, overflow: nat, opt: int, stat: int)
    requires Within(order, |dl0|) && E + k <= |dl0| && 1 <= h <= |order| == 2 * k + 1
    requires |freq| >= |dl0| && |extra| >= E && (slens == [] || |slens| >= E)
  {
    && |dl| == |dl0| && Leveled(order, E, k, dl, max, h) && Unset(order, E, k, dl0, dl, h)
    && overflow == Over(E, k, dl, max, h)
    && |bl| == MAXBITS + 1 && (forall b :: 0 <= b <= MAXBITS ==> Tallied(order, E, dl, h, b, bl[b]))
    && Costed(order, E, dl, freq, extra, slens, h, opt, stat)
  }

  /** One node of the first loop. */
  method PassNode(order: seq<nat>, E: nat, k: nat, maxCode: nat, ghost leaves: seq<nat>, ghost dl0: seq<nat>, max: nat,
                  freq: seq<nat>, extra: seq<nat>, slens: seq<nat>, h: nat, was: seq<nat>, bl0: seq<nat>, over0: nat,
                  opt1: int, stat1: int, ghost opt0: int, ghost stat0: int)
    returns (dl: seq<nat>, bl: seq<nat>, overflow: nat, opt: int, stat: int)
    requires MergeOrder(order, E, k, leaves) && E + k <= |dl0| && Within(order, |dl0|) && 1 <= max <= MAXBITS
    requires maxCode < E && Within(leaves, maxCode + 1) && 1 <= h < |order| == 2 * k + 1
    requires |freq| >= |dl0| && |extra| >= E && (slens == [] || |slens| >= E)
    requires Passed(order, E, k, dl0, max, freq, extra, slens, h, was, bl0, over0, opt1 - opt0, stat1 - stat0)
    ensures Passed(order, E, k, dl0, max, freq, extra, slens, h + 1, dl, bl, overflow, opt - opt0, stat - stat0)
  {
    hide SumW, Over, Leveled, MergeOrder, Par, Costed, Tallied, Unset, SameBefore;
    dl, bl, overflow, opt, stat := was, bl0, over0, opt1, stat1;
    var n := order[h];
    UnsetStep(order, E, k, leaves, dl0, was, h, 0);
    LevelStep(order, E, k, leaves, was, max, h);
    ParRange(E, k, h);
    var bits := was[was[n]] + 1;
    if bits > max { bits, overflow := max, overflow + 1; }
    UnsetStep(order, E, k, leaves, dl0, was, h, bits);
    OverStep(order, E, k, leaves, was, bits, max, h);
    LeafIff(order, E, k, leaves, maxCode, h);
    dl := was[n := bits];
    CostStep(order, E, was, dl, freq, extra, slens, h, opt - opt0, stat - stat0);
    if n <= maxCode {
      bl := bl[bits := bl[bits] + 1];
      opt := opt + freq[n] * (bits + extra[n]);
      if slens != [] { stat := stat + freq[n] * (slens[n] + extra[n]); }
    }
    forall b | 0 <= b <= MAXBITS ensures Tallied(order, E, dl, h + 1, b, bl[b]) {
      TallyStep(order, E, was, dl, h, b, bl0[b]);
    }
  }

  /** The first loop: every node gets its depth as length, but at most max. */
  method FirstPass(order: seq<nat>, E: nat, k: nat, maxCode: nat, ghost leaves: seq<nat>, dl0: seq<nat>, max: nat,
                   freq: seq<nat>, extra: seq<nat>, slens: seq<nat>, opt0: int, stat0: int)
    returns (dl: seq<nat>, bl: seq<nat>, overflow: nat, opt: int, stat: int)
    requires MergeOrder(order, E, k, leaves) && E + k <= |dl0| && Within(order, |dl0|) && 1 <= max <= MAXBITS
    requires maxCode < E && Within(leaves, maxCode + 1)
    requires forall h :: 1 <= h < |order| ==> dl0[order[h]] == Par(E, k, h)
    requires |freq| >= |dl0| && |extra| >= E && (slens == [] || |slens| >= E)
    ensures |dl| == |dl0| && Leveled(order, E, k, dl, max, |order|)
    ensures opt == opt0 + SumW(order, Cost(E, dl, freq, extra))
    ensures stat == stat0 + SumW(order, StaticCost(E, |dl|, slens, freq, extra))
    ensures forall x :: 0 <= x < |dl| && x !in order ==> dl[x] == dl0[x]
    ensures overflow == Over(E, k, dl, max, |order|)
    ensures |bl| == MAXBITS + 1 && forall b :: 0 <= b <= MAXBITS ==> bl[b] == SumW(order, Ind(E, dl, b))
  {
    hide SumW, Over, Leveled, MergeOrder, Par, Costed, Tallied, Unset, SameBefore, Passed;
    MergeSizes(order, E, k, leaves);
    bl, overflow, opt, stat := seq(MAXBITS + 1, i => 0), 0, opt0, stat0;
    dl := dl0[order[0] := 0];
    PassStart(order, E, k, leaves, dl0, max, freq, extra, slens, dl, bl);
    for h := 1 to |order|
      invariant Passed(order, E, k, dl0, max, freq, extra, slens, h, dl, bl, overflow, opt - opt0, stat - stat0)
    {
      dl, bl, overflow, opt, stat :=
        PassNode(order, E, k, maxCode, leaves, dl0, max, freq, extra, slens, h, dl, bl, overflow, opt, stat,
                 opt0, stat0);
    }
    PassEnd(order, E, k, dl0, max, freq, extra, slens, dl, bl, overflow, opt - opt0, stat - stat0);
  }

  lemma PassStart(order: seq<nat>, E: nat, k: nat, leaves: seq<nat>, dl0: seq<nat>, max: nat, freq: seq<nat>,
                  extra: seq<nat>, slens: seq<nat>, dl: seq<nat>, bl: seq<nat>)
    requires MergeOrder(order, E, k, leaves) && E + k <= |dl0| && Within(order, |dl0|) && |order| == 2 * k + 1
    requires forall h :: 1 <= h < |order| ==> dl0[order[h]] == Par(E, k, h)
    requires |freq| >= |dl0| && |extra| >= E && (slens == [] || |slens| >= E)
    requires dl == dl0[order[0] := 0] && |bl| == MAXBITS + 1 && forall b :: 0 <= b <= MAXBITS ==> bl[b] == 0
    ensures Passed(order, E, k, dl0, max, freq, extra, slens, 1, dl, bl, 0, 0, 0)
  {
    hide SumW, Over, Leveled, MergeOrder, Par, Costed, Tallied, Unset;
    FirstLevel(order, E, k, leaves, dl0, max);
    UnsetStart(order, E, k, leaves, dl0);
    forall b | 0 <= b <= MAXBITS ensures Tallied(order, E, dl, 1, b, 0) { TallyStart(order, E, dl, b); }
    CostStart(order, E, dl, freq, extra, slens);
  }

  lemma PassEnd(order: seq<nat>, E: nat, k: nat, dl0: seq<nat>, max: nat, freq: seq<nat>, extra: seq<nat>,
                slens: seq<nat>, dl: seq<nat>, bl: seq<nat>, overflow: nat, opt: int, stat: int)
    requires Within(order, |dl0|) && E + k <= |dl0| && |order| == 2 * k + 1
    requires |freq| >= |dl0| && |extra| >= E && (slens == [] || |slens| >= E)
    requires Passed(order, E, k, dl0, max, freq, extra, slens, |order|, dl, bl, overflow, opt, stat)
    ensures |dl| == |dl0| && Leveled(order, E, k, dl, max, |order|) && overflow == Over(E, k, dl, max, |order|)
    ensures opt == SumW(order, Cost(E, dl, freq, extra)) && stat == SumW(order, StaticCost(E, |dl|, slens, freq, extra))
    ensures forall x :: 0 <= x < |dl| && x !in order ==> dl[x] == dl0[x]
    ensures |bl| == MAXBITS + 1 && forall b :: 0 <= b <= MAXBITS ==> bl[b] == SumW(order, Ind(E, dl, b))
  {
    hide SumW, Over, Leveled, Par, Costed, Tallied, Unset;
    CostEnd(order, E, dl, freq, extra, slens, opt, stat);
    forall b | 0 <= b <= MAXBITS ensures bl[b] == SumW(order, Ind(E, dl, b)) { TallyEnd(order, E, dl, b, bl[b]); }
    UnsetEnd(order, E, k, dl0, dl);
  }

  lemma UnsetStart(order: seq<nat>, E: nat, k: nat, leaves: seq<nat>, dl0: seq<nat>)
    requires MergeOrder(order, E, k, leaves) && Within(order, |dl0|)
    requires forall h :: 1 <= h < |order| ==> dl0[order[h]] == Par(E, k, h)
    ensures Unset(order, E, k, dl0, dl0[order[0] := 0], 1)
  {
    hide Par;
    OthersKept(order, E, k, leaves, 0);
  }

  lemma UnsetEnd(order: seq<nat>, E: nat, k: nat, dl0: seq<nat>, dl: seq<nat>)
    requires Within(order, |dl0|) && |order| >= 1 && Unset(order, E, k, dl0, dl, |order|)
    ensures forall x :: 0 <= x < |dl| && x !in order ==> dl[x] == dl0[x]
  {
  }

  predicate Costed(order: seq<nat>, E: nat, dl: seq<nat>, freq: seq<nat>, extra: seq<nat>, slens: seq<nat>, h: nat,
                   opt: int, stat: int)
  {
    && |freq| >= |dl| && |extra| >= E && (slens == [] || |slens| >= E)
    && h <= |order| && Within(order[..h], |dl|) && opt == SumW(order[..h], Cost(E, dl, freq, extra))
    && stat == SumW(order[..h], StaticCost(E, |dl|, slens, freq, extra))
  }

  lemma CostStart(order: seq<nat>, E: nat, dl: seq<nat>, freq: seq<nat>, extra: seq<nat>, slens: seq<nat>)
    requires |freq| >= |dl| && |extra| >= E && (slens == [] || |slens| >= E)
    requires |order| >= 1 && E <= order[0] < |dl|
    ensures Costed(order, E, dl, freq, extra, slens, 1, 0, 0)
  {
    assert order[..1] == [order[0]];
    SumOne(order[0], Cost(E, dl, freq, extra));
    SumOne(order[0], StaticCost(E, |dl|, slens, freq, extra));
  }

  lemma CostStep(order: seq<nat>, E: nat, was: seq<nat>, dl: seq<nat>, freq: seq<nat>, extra: seq<nat>, slens: seq<nat>,
                 h: nat, opt: int, stat: int)
    requires Costed(order, E, was, freq, extra, slens, h, opt, stat) && h < |order| && Within(order, |dl|)
             && |was| == |dl|
    requires SameBefore(order, was, dl, h)
    ensures var n := order[h];
            Costed(order, E, dl, freq, extra, slens, h + 1,
                   opt + (if n < E then freq[n] * (dl[n] + extra[n]) else 0),
                   stat + (if n < E && slens != [] then freq[n] * (slens[n] + extra[n]) else 0))
  {
    hide SumW;
    SumNext(order, h, Cost(E, was, freq, extra), Cost(E, dl, freq, extra));
    SumLast(order, h, StaticCost(E, |dl|, slens, freq, extra));
  }

  lemma CostEnd(order: seq<nat>, E: nat, dl: seq<nat>, freq: seq<nat>, extra: seq<nat>, slens: seq<nat>, opt: int,
                stat: int)
    requires Within(order, |dl|) && Costed(order, E, dl, freq, extra, slens, |order|, opt, stat)
    ensures opt == SumW(order, Cost(E, dl, freq, extra))
    ensures stat == SumW(order, StaticCost(E, |dl|, slens, freq, extra))
  {
    assert order[..|order|] == order;
  }

  predicate Tallied(order: seq<nat>, E: nat, dl: seq<nat>, h: nat, b: nat, n: nat)
  {
    h <= |order| && Within(order[..h], |dl|) && n == SumW(order[..h], Ind(E, dl, b))
  }

  lemma TallyStart(order: seq<nat>, E: nat, dl: seq<nat>, b: nat)
    requires |order| >= 1 && E <= order[0] < |dl|
    ensures Tallied(order, E, dl, 1, b, 0)
  {
    assert order[..1] == [order[0]];
    SumOne(order[0], Ind(E, dl, b));
  }

  lemma TallyEnd(order: seq<nat>, E: nat, dl: seq<nat>, b: nat, n: nat)
    requires Within(order, |dl|) && Tallied(order, E, dl, |order|, b, n)
    ensures n == SumW(order, Ind(E, dl, b))
  {
    assert order[..|order|] == order;
  }

  lemma ParRange(E: nat, k: nat, h: nat)
    requires 1 <= h <= 2 * k
    ensures E <= Par(E, k, h) < E + k
  {
  }

  lemma TallyStep(order: seq<nat>, E: nat, was: seq<nat>, dl: seq<nat>, h: nat, b: nat, n: nat)
    requires h < |order| && Within(order, |dl|) && |was| == |dl| && Tallied(order, E, was, h, b, n)
    requires SameBefore(order, was, dl, h)
    ensures Tallied(order, E, dl, h + 1, b, n + if order[h] < E && dl[order[h]] == b then 1 else 0)
  {
    SumNext(order, h, Ind(E, was, b), Ind(E, dl, b));
  }

  // ----- the code space after the first pass

  lemma {:induction false} SumLinear(s: seq<nat>, a: seq<nat>, b: seq<nat>, d: seq<nat>, c: nat)
    requires Within(s, |a|) && |b| == |a| == |d| && forall i :: 0 <= i < |s| ==> a[s[i]] == b[s[i]] + d[s[i]] * c
    ensures SumW(s, a) == SumW(s, b) + SumW(s, d) * c
  {
    if s != [] {
      SumLinear(s[1..], a, b, d, c);
      assert a[s[0]] == b[s[0]] + d[s[0]] * c;
      Distrib(d[s[0]], SumW(s[1..], d), c);
    }
  }

  lemma {:induction false} SumZero(s: seq<nat>, w: seq<nat>)
    requires Within(s, |w|) && forall i :: 0 <= i < |s| ==> w[s[i]] == 0
    ensures SumW(s, w) == 0
  {
    if s != [] { SumZero(s[1..], w); }
  }

  /** The code space of the leaves of length 1 to n. */
  function LeafSpace(E: nat, dl: seq<nat>, max: nat, n: nat): (w: seq<nat>)
    ensures |w| == |dl|
    ensures forall x :: 0 <= x < |dl| ==> w[x] == if x < E && 1 <= dl[x] <= n then Space(max, dl[x]) else 0
  {
    seq(|dl|, x requires 0 <= x < |dl| => if x < E && 1 <= dl[x] <= n then Space(max, dl[x]) else 0)
  }

  function LeafOnes(E: nat, dl: seq<nat>, n: nat): (w: seq<nat>)
    ensures |w| == |dl|
    ensures forall x :: 0 <= x < |dl| ==> w[x] == if x < E && 1 <= dl[x] <= n then 1 else 0
  {
    seq(|dl|, x requires 0 <= x < |dl| => if x < E && 1 <= dl[x] <= n then 1 else 0)
  }

  /** bl holds the number of leaves of each length. */
  predicate BlOk(order: seq<nat>, E: nat, dl: seq<nat>, bl: seq<nat>)
  {
    && Within(order, |dl|) && |bl| == MAXBITS + 1
    && forall b :: 0 <= b <= MAXBITS ==> bl[b] == SumW(order, Ind(E, dl, b))
  }

  lemma {:induction false} KraftIsSum(order: seq<nat>, E: nat, dl: seq<nat>, bl: seq<nat>, max: nat, n: nat)
    requires BlOk(order, E, dl, bl) && n <= MAXBITS
    ensures KraftCount(bl, max, n) == SumW(order, LeafSpace(E, dl, max, n))
    ensures CodeCount(bl, n) == SumW(order, LeafOnes(E, dl, n))
  {
    hide SumW, Space;
    if n == 0 {
      SumZero(order, LeafSpace(E, dl, max, 0));
      SumZero(order, LeafOnes(E, dl, 0));
    } else {
      KraftIsSum(order, E, dl, bl, max, n - 1);
      SumLinear(order, LeafSpace(E, dl, max, n), LeafSpace(E, dl, max, n - 1), Ind(E, dl, n), Space(max, n));
      SumLinear(order, LeafOnes(E, dl, n), LeafOnes(E, dl, n - 1), Ind(E, dl, n), 1);
    }
  }

  /** Over the whole order a weight that is zero on inner nodes is a sum over the leaves. */
  lemma LeavesOnly(order: seq<nat>, E: nat, k: nat, leaves: seq<nat>, w: seq<nat>)
    requires MergeOrder(order, E, k, leaves) && E + k <= |w|
    requires forall x :: E <= x < |w| ==> w[x] == 0
    ensures Within(order, |w|) && Within(leaves, |w|) && SumW(order, w) == SumW(leaves, w)
  {
    hide SumW, Par;
    OrderBound(order, E, k, leaves);
    SumPerm(order, leaves + Inner(E, k), w);
    SumJoin(leaves, Inner(E, k), w);
    SumZero(Inner(E, k), w);
  }

  /** Half the space of a node, at the length below it. */
  lemma SpaceHalves(l: nat, max: nat)
    requires l <= max
    ensures 2 * Space(max, Up(l, max)) == Space(max, l) + if l == max then 1 else 0
  {
  }

  /** Pair by pair, the sons take the space of their father, and one more below the limit. */
  lemma {:induction false} PairsSpace(order: seq<nat>, E: nat, k: nat, leaves: seq<nat>, dl: seq<nat>, max: nat, t: nat)
    requires MergeOrder(order, E, k, leaves) && E + k <= |dl| && Within(order, |dl|)
    requires Leveled(order, E, k, dl, max, |order|) && t <= k
    ensures Within(order[1..1 + 2 * t], |dl|) && Within(Inner(E, k)[k - t..], |dl|)
    ensures 2 * SumW(order[1..1 + 2 * t], SpaceW(dl, max)) ==
            2 * SumW(Inner(E, k)[k - t..], SpaceW(dl, max)) + Over(E, k, dl, max, 1 + 2 * t)
  {
    hide SumW, Space, Up, MergeOrder, Leveled, Over;
    var w := SpaceW(dl, max);
    MergeSizes(order, E, k, leaves);
    OverNone(E, k, dl, max);
    if t == 0 {
      SumNone(w);
      assert order[1..1] == [] && Inner(E, k)[k..] == [];
    } else {
      var h := 2 * t - 1;
      PairsSpace(order, E, k, leaves, dl, max, t - 1);
      PairFacts(order, E, k, leaves, dl, max, t);
      var a, b, p := order[h], order[h + 1], E + k - t;
      var done := order[1..h];
      assert order[1..1 + 2 * t] == done + ([a] + [b]);
      SumOne(a, w);
      SumOne(b, w);
      SumOne(p, w);
      SumJoin([a], [b], w);
      SumJoin(done, [a] + [b], w);
      assert Inner(E, k)[k - t..] == [p] + Inner(E, k)[k - t + 1..];
      SumJoin([p], Inner(E, k)[k - t + 1..], w);
    }
  }

  lemma MergeSizes(order: seq<nat>, E: nat, k: nat, leaves: seq<nat>)
    requires MergeOrder(order, E, k, leaves)
    ensures k >= 1 && |order| == 2 * k + 1 && |leaves| == k + 1 && order[0] == E + k - 1 && Within(leaves, E)
  {
  }

  lemma OverNone(E: nat, k: nat, dl: seq<nat>, max: nat)
    requires E + k <= |dl|
    ensures Over(E, k, dl, max, 1) == 0
  {
  }

  lemma SumNone(w: seq<nat>)
    ensures SumW([], w) == 0
  {
  }

  lemma PairFacts(order: seq<nat>, E: nat, k: nat, leaves: seq<nat>, dl: seq<nat>, max: nat, t: nat)
    requires MergeOrder(order, E, k, leaves) && E + k <= |dl| && Within(order, |dl|)
    requires Leveled(order, E, k, dl, max, |order|) && 1 <= t <= k
    ensures var p, h := E + k - t, 2 * t - 1;
            && 2 * Space(max, dl[order[h]]) == Space(max, dl[p]) + (if dl[p] == max then 1 else 0)
            && dl[order[h + 1]] == dl[order[h]] && dl[p] <= max && dl[order[h]] == Up(dl[p], max)
            && Over(E, k, dl, max, 1 + 2 * t) == Over(E, k, dl, max, 1 + 2 * (t - 1)) + (if dl[p] == max then 2 else 0)
  {
    hide Space;
    var p, h := E + k - t, 2 * t - 1;
    assert Par(E, k, h) == p && Par(E, k, h + 1) == p;
    var q := ParentBefore(order, E, k, leaves, h);
    SpaceHalves(dl[p], max);
  }

  /** After the first pass the leaves take the whole space and half the overflow. */
  lemma TreeSpace(order: seq<nat>, E: nat, k: nat, leaves: seq<nat>, dl: seq<nat>, max: nat)
    requires MergeOrder(order, E, k, leaves) && E + k <= |dl| && Within(order, |dl|) && Within(leaves, |dl|)
    requires Leveled(order, E, k, dl, max, |order|)
    ensures 2 * SumW(leaves, SpaceW(dl, max)) == 2 * Pow2(max) + Over(E, k, dl, max, |order|)
  {
    hide SumW, Over, MergeOrder;
    MergeSizes(order, E, k, leaves);
    PairsSpace(order, E, k, leaves, dl, max, k);
    TreeSum(order, E, k, leaves, SpaceW(dl, max));
  }

  /** The weight of all nodes: the root and its descendants, or the leaves and the inner nodes. */
  lemma TreeSum(order: seq<nat>, E: nat, k: nat, leaves: seq<nat>, w: seq<nat>)
    requires MergeOrder(order, E, k, leaves) && E + k <= |w| && Within(order, |w|) && Within(leaves, |w|)
    ensures |order| == 1 + 2 * k && Within(order[1..1 + 2 * k], |w|) && Within(Inner(E, k)[0..], |w|)
    ensures w[order[0]] + SumW(order[1..1 + 2 * k], w) == SumW(leaves, w) + SumW(Inner(E, k)[0..], w)
  {
    hide SumW, Par;
    assert order == [order[0]] + order[1..];
    SumOne(order[0], w);
    SumJoin([order[0]], order[1..], w);
    assert Inner(E, k)[0..] == Inner(E, k);
    assert order[1..1 + 2 * k] == order[1..];
    SumPerm(order, leaves + Inner(E, k), w);
    SumJoin(leaves, Inner(E, k), w);
  }

  /** The space of the nodes above the limit. */
  function ShallowW(dl: seq<nat>, max: nat): (w: seq<nat>)
    ensures |w| == |dl| && forall x :: 0 <= x < |dl| ==> w[x] == if dl[x] < max then Space(max, dl[x]) else 0
  {
    seq(|dl|, x requires 0 <= x < |dl| => if dl[x] < max then Space(max, dl[x]) else 0)
  }

  lemma {:induction false} PairsShallow(order: seq<nat>, E: nat, k: nat, leaves: seq<nat>, dl: seq<nat>, max: nat,
                                        t: nat)
    requires MergeOrder(order, E, k, leaves) && E + k <= |dl| && Within(order, |dl|)
    requires Leveled(order, E, k, dl, max, |order|) && t <= k
    ensures Within(order[1..1 + 2 * t], |dl|) && Within(Inner(E, k)[k - t..], |dl|)
    ensures SumW(order[1..1 + 2 * t], ShallowW(dl, max)) <= SumW(Inner(E, k)[k - t..], ShallowW(dl, max))
  {
    hide SumW, Space, MergeOrder, Leveled, Over;
    var w := ShallowW(dl, max);
    MergeSizes(order, E, k, leaves);
    if t == 0 {
      assert order[1..1] == [] && Inner(E, k)[k..] == [];
    } else {
      var h := 2 * t - 1;
      PairsShallow(order, E, k, leaves, dl, max, t - 1);
      PairFacts(order, E, k, leaves, dl, max, t);
      var a, b, p := order[h], order[h + 1], E + k - t;
      var done := order[1..h];
      assert order[1..1 + 2 * t] == done + ([a] + [b]);
      SumOne(a, w);
      SumOne(b, w);
      SumOne(p, w);
      SumJoin([a], [b], w);
      SumJoin(done, [a] + [b], w);
      assert Inner(E, k)[k - t..] == [p] + Inner(E, k)[k - t + 1..];
      SumJoin([p], Inner(E, k)[k - t + 1..], w);
    }
  }

  lemma TreeShallow(order: seq<nat>, E: nat, k: nat, leaves: seq<nat>, dl: seq<nat>, max: nat)
    requires MergeOrder(order, E, k, leaves) && E + k <= |dl| && Within(order, |dl|) && Within(leaves, |dl|)
    requires Leveled(order, E, k, dl, max, |order|)
    ensures SumW(leaves, ShallowW(dl, max)) <= Pow2(max)
  {
    hide SumW, MergeOrder;
    MergeSizes(order, E, k, leaves);
    PairsShallow(order, E, k, leaves, dl, max, k);
    TreeSum(order, E, k, leaves, ShallowW(dl, max));
  }

  lemma LeafAt(order: seq<nat>, E: nat, k: nat, leaves: seq<nat>, i: nat) returns (h: nat)
    requires MergeOrder(order, E, k, leaves) && i < |leaves|
    ensures 1 <= h < |order| && order[h] == leaves[i]
  {
    var all := leaves + Inner(E, k);
    assert all[i] == leaves[i];
    assert leaves[i] in multiset(all);
    assert leaves[i] in order;
    h :| 0 <= h < |order| && order[h] == leaves[i];
  }

  lemma LeafLengths(order: seq<nat>, E: nat, k: nat, leaves: seq<nat>, dl: seq<nat>, max: nat)
    requires MergeOrder(order, E, k, leaves) && E + k <= |dl| && Within(order, |dl|) && Within(leaves, |dl|)
    requires Leveled(order, E, k, dl, max, |order|) && max >= 1
    ensures forall i :: 0 <= i < |leaves| ==> 1 <= dl[leaves[i]] <= max
  {
    hide MergeOrder;
    forall i | 0 <= i < |leaves| ensures 1 <= dl[leaves[i]] <= max {
      var h := LeafAt(order, E, k, leaves, i);
    }
  }

  lemma {:induction false} SumOnes(s: seq<nat>, w: seq<nat>)
    requires Within(s, |w|) && forall i :: 0 <= i < |s| ==> w[s[i]] == 1
    ensures SumW(s, w) == |s|
  {
    if s != [] { SumOnes(s[1..], w); }
  }

  /** The counts after the first pass: the space they take, the part above the limit, their number. */
  lemma FirstCounts(order: seq<nat>, E: nat, k: nat, leaves: seq<nat>, dl: seq<nat>, bl: seq<nat>, max: nat)
    requires MergeOrder(order, E, k, leaves) && E + k <= |dl| && Within(order, |dl|)
    requires Leveled(order, E, k, dl, max, |order|) && 1 <= max <= MAXBITS && BlOk(order, E, dl, bl)
    ensures 2 * KraftCount(bl, max, max) == 2 * Pow2(max) + Over(E, k, dl, max, |order|)
    ensures KraftCount(bl, max, max - 1) <= Pow2(max) && CodeCount(bl, max) == |leaves|
  {
    hide SumW, Over, Par, Space, KraftCount, CodeCount, MergeOrder, Leveled, BlOk;
    MergeSizes(order, E, k, leaves);
    var a, b, c := LeafSpace(E, dl, max, max), LeafSpace(E, dl, max, max - 1), LeafOnes(E, dl, max);
    KraftIsSum(order, E, dl, bl, max, max);
    KraftIsSum(order, E, dl, bl, max, max - 1);
    LeavesOnly(order, E, k, leaves, a);
    LeavesOnly(order, E, k, leaves, b);
    LeavesOnly(order, E, k, leaves, c);
    LeafLengths(order, E, k, leaves, dl, max);
    SumAgree(leaves, a, SpaceW(dl, max));
    SumAgree(leaves, b, ShallowW(dl, max));
    SumOnes(leaves, c);
    TreeSpace(order, E, k, leaves, dl, max);
    TreeShallow(order, E, k, leaves, dl, max);
  }

  // ----- moving leaves down

  lemma MoveDown(bl: seq<nat>, max: nat, bits: nat)
    requires max < |bl| && 1 <= bits < max && bl[bits] >= 1 && bl[max] >= 1
    ensures var bl1 := bl[bits := bl[bits] - 1];
            var bl2 := bl1[bits + 1 := bl1[bits + 1] + 2];
            && bl2[max] >= 1
            && var bl3 := bl2[max := bl2[max] - 1];
            && KraftCount(bl3, max, max) == KraftCount(bl, max, max) - 1
            && CodeCount(bl3, max) == CodeCount(bl, max)
            && KraftCount(bl3, max, max - 1) <= KraftCount(bl, max, max - 1)
  {
    hide KraftCount, CodeCount, Space;
    var bl1 := bl[bits := bl[bits] - 1];
    var bl1' := bl1[bits + 1 := bl1[bits + 1] + 1];
    var bl2 := bl1[bits + 1 := bl1[bits + 1] + 2];
    var bl3 := bl2[max := bl2[max] - 1];
    assert bl1[bits := bl1[bits] + 1] == bl;
    assert bl1'[bits + 1 := bl1'[bits + 1] + 1] == bl2;
    assert bl3[max := bl3[max] + 1] == bl2;
    SpaceSteps(max, bits);
    KraftInc(bl1, max, max, bits);
    KraftInc(bl1, max, max, bits + 1);
    KraftInc(bl1', max, max, bits + 1);
    KraftInc(bl3, max, max, max);
    KraftInc(bl1, max, max - 1, bits);
    KraftBump(bl3, max, max - 1, max, bl3[max] + 1);
    if bits + 1 < max {
      KraftInc(bl1, max, max - 1, bits + 1);
      KraftInc(bl1', max, max - 1, bits + 1);
    } else {
      KraftBump(bl1, max, max - 1, max, bl1[max] + 2);
    }
  }

  lemma SpaceSteps(max: nat, bits: nat)
    requires bits < max
    ensures Space(max, bits) == 2 * Space(max, bits + 1) && Space(max, max) == 1
  {
  }

  lemma LastTerm(bl: seq<nat>, max: nat)
    requires 1 <= max < |bl|
    ensures KraftCount(bl, max, max) == KraftCount(bl, max, max - 1) + bl[max]
    ensures CodeCount(bl, max) == CodeCount(bl, max - 1) + bl[max]
  {
    hide Space;
    SpaceSteps(max, max - 1);
  }

  /** The repair loop ends with a complete set of lengths for as many codes as before. */
  method Repair(bl0: seq<nat>, max: nat, overflow0: nat) returns (bl: seq<nat>)
    requires |bl0| == MAXBITS + 1 && 1 <= max <= MAXBITS && overflow0 > 0
    requires 2 * KraftCount(bl0, max, max) == 2 * Pow2(max) + overflow0
    requires KraftCount(bl0, max, max - 1) <= Pow2(max) && CodeCount(bl0, max) <= Pow2(max)
    ensures |bl| == |bl0| && bl[0] == bl0[0] && forall b :: max < b <= MAXBITS ==> bl[b] == bl0[b]
    ensures KraftCount(bl, max, max) == Pow2(max) && CodeCount(bl, max) == CodeCount(bl0, max)
  {
    hide KraftCount, CodeCount, Pow2;
    bl := bl0;
    var overflow: int := overflow0;
    while overflow > 0
      invariant overflow >= 0 && overflow % 2 == 0
      invariant |bl| == |bl0| && bl[0] == bl0[0] && forall b :: max < b <= MAXBITS ==> bl[b] == bl0[b]
      invariant 2 * KraftCount(bl, max, max) == 2 * Pow2(max) + overflow
      invariant KraftCount(bl, max, max - 1) <= Pow2(max) && CodeCount(bl, max) == CodeCount(bl0, max)
    {
      LastTerm(bl, max);
      assert bl[max] >= 1;
      var bits := max - 1;
      assert bits >= 1 by { if bits == 0 { KraftNone(bl, max, max - 1); } }
      while bl[bits] == 0
        invariant 1 <= bits < max && forall b :: bits < b < max ==> bl[b] == 0
        decreases bits
      {
        assert bits > 1 by { if bits == 1 { KraftNone(bl, max, max - 1); } }
        bits := bits - 1;
      }
      MoveDown(bl, max, bits);
      bl := bl[bits := bl[bits] - 1];
      bl := bl[bits + 1 := bl[bits + 1] + 2];
      bl := bl[max := bl[max] - 1];
      overflow := overflow - 2;
    }
  }

  // ----- the lengths again

  /** 1 for a leaf. */
  function IsLeaf(E: nat, n: nat): (w: seq<nat>)
    ensures |w| == n && forall x :: 0 <= x < n ==> w[x] == if x < E then 1 else 0
  {
    seq(n, x requires 0 <= x < n => if x < E then 1 else 0)
  }

  lemma SumFirst(order: seq<nat>, h: nat, w: seq<nat>)
    requires Within(order, |w|) && h < |order|
    ensures Within(order[h..], |w|) && Within(order[h + 1..], |w|)
    ensures SumW(order[h..], w) == w[order[h]] + SumW(order[h + 1..], w)
  {
    assert order[h..][1..] == order[h + 1..];
  }

  lemma SumLast(order: seq<nat>, h: nat, w: seq<nat>)
    requires Within(order, |w|) && h < |order|
    ensures Within(order[..h], |w|) && Within(order[..h + 1], |w|)
    ensures SumW(order[..h + 1], w) == SumW(order[..h], w) + w[order[h]]
  {
    SumNext(order, h, w, w);
  }

  /** Changing the weight of one node. */
  lemma SumUpdate(order: seq<nat>, h: nat, w: seq<nat>, w': seq<nat>)
    requires Within(order, |w|) && |w'| == |w| && h < |order| && Distinct(order)
    requires forall i :: 0 <= i < |order| && i != h ==> w'[order[i]] == w[order[i]]
    ensures SumW(order, w') - w'[order[h]] == SumW(order, w) - w[order[h]]
  {
    hide SumW;
    var a, b := order[..h], order[h + 1..];
    assert order == a + ([order[h]] + b);
    SumAgree(a, w, w');
    SumAgree(b, w, w');
    SumOne(order[h], w);
    SumOne(order[h], w');
    SumJoin([order[h]], b, w);
    SumJoin([order[h]], b, w');
    SumJoin(a, [order[h]] + b, w);
    SumJoin(a, [order[h]] + b, w');
  }

  lemma {:induction false} ZeroMeans(s: seq<nat>, w: seq<nat>)
    requires Within(s, |w|) && SumW(s, w) == 0
    ensures forall i :: 0 <= i < |s| ==> w[s[i]] == 0
  {
    if s != [] { ZeroMeans(s[1..], w); }
  }

  /** The state of the last loop at position h, with n codes of length `bits` still to give. */
  predicate Assigned(order: seq<nat>, E: nat, dl: seq<nat>, bl: seq<nat>, max: nat, h: nat, bits: nat, n: nat)
  {
    && h <= |order| && Within(order, |dl|) && |bl| == MAXBITS + 1 && 1 <= bits <= max <= MAXBITS && n <= bl[bits]
    && Within(order[h..], |dl|) && Within(order[..h], |dl|)
    && (forall q :: h <= q < |order| && order[q] < E ==> 1 <= dl[order[q]] <= max)
    && (forall b :: 1 <= b <= MAXBITS ==> SumW(order[h..], Ind(E, dl, b)) == Given(bl, max, bits, n, b))
    && SumW(order[..h], IsLeaf(E, |dl|)) == CodeCount(bl, bits - 1) + n
  }

  /** How many codes of length b have been given. */
  function Given(bl: seq<nat>, max: nat, bits: nat, n: nat, b: nat): int
    requires |bl| == MAXBITS + 1 && bits <= MAXBITS && b <= MAXBITS
  {
    if b > max then 0 else if b > bits then bl[b] else if b == bits then bl[b] - n else 0
  }

  lemma AssignLeaf(order: seq<nat>, E: nat, dl: seq<nat>, bl: seq<nat>, max: nat, h: nat, bits: nat, n: nat)
    requires Distinct(order) && h >= 1 && n >= 1 && Assigned(order, E, dl, bl, max, h, bits, n) && order[h - 1] < E
    ensures Assigned(order, E, dl[order[h - 1] := bits], bl, max, h - 1, bits, n - 1)
  {
    hide SumW, CodeCount;
    var m := order[h - 1];
    var dl' := dl[m := bits];
    SumLast(order, h - 1, IsLeaf(E, |dl|));
    forall q | 0 <= q < |order| && q != h - 1 ensures dl'[order[q]] == dl[order[q]] {
      assert order[q] != m;
    }
    forall b | 1 <= b <= MAXBITS ensures SumW(order[h - 1..], Ind(E, dl', b)) == Given(bl, max, bits, n - 1, b) {
      SumFirst(order, h - 1, Ind(E, dl', b));
      SumAgree(order[h..], Ind(E, dl, b), Ind(E, dl', b));
    }
  }

  lemma SkipInner(order: seq<nat>, E: nat, dl: seq<nat>, bl: seq<nat>, max: nat, h: nat, bits: nat, n: nat)
    requires h >= 1 && Assigned(order, E, dl, bl, max, h, bits, n) && order[h - 1] >= E
    ensures Assigned(order, E, dl, bl, max, h - 1, bits, n)
  {
    hide SumW, CodeCount;
    SumLast(order, h - 1, IsLeaf(E, |dl|));
    forall b | 1 <= b <= MAXBITS ensures SumW(order[h - 1..], Ind(E, dl, b)) == Given(bl, max, bits, n, b) {
      SumFirst(order, h - 1, Ind(E, dl, b));
    }
  }

  lemma SomeLeft(order: seq<nat>, E: nat, dl: seq<nat>, bl: seq<nat>, max: nat, h: nat, bits: nat, n: nat)
    requires Assigned(order, E, dl, bl, max, h, bits, n) && n >= 1
    ensures h >= 1
  {
    assert |order[..h]| == h;
  }

  lemma NextBits(order: seq<nat>, E: nat, dl: seq<nat>, bl: seq<nat>, max: nat, h: nat, bits: nat)
    requires Assigned(order, E, dl, bl, max, h, bits, 0) && bits >= 2
    ensures Assigned(order, E, dl, bl, max, h, bits - 1, bl[bits - 1])
  {
    hide SumW;
  }

  lemma AssignStart(order: seq<nat>, E: nat, k: nat, leaves: seq<nat>, dl: seq<nat>, bl: seq<nat>, max: nat)
    requires MergeOrder(order, E, k, leaves) && E + k <= |dl| && Within(order, |dl|)
    requires |bl| == MAXBITS + 1 && 1 <= max <= MAXBITS && CodeCount(bl, max) == |leaves|
    ensures Assigned(order, E, dl, bl, max, |order|, max, bl[max])
  {
    hide SumW, Par;
    var w := IsLeaf(E, |dl|);
    LeavesOnly(order, E, k, leaves, w);
    SumOnes(leaves, w);
    assert order[..|order|] == order && order[|order|..] == [];
    forall b | 1 <= b <= MAXBITS ensures SumW(order[|order|..], Ind(E, dl, b)) == 0 { SumNone(Ind(E, dl, b)); }
  }

  lemma AssignEnd(order: seq<nat>, E: nat, dl: seq<nat>, bl: seq<nat>, max: nat, h: nat)
    requires Assigned(order, E, dl, bl, max, h, 1, 0)
    ensures forall b :: 1 <= b <= MAXBITS ==> SumW(order, Ind(E, dl, b)) == if b <= max then bl[b] else 0
    ensures forall q :: 0 <= q < |order| && order[q] < E ==> 1 <= dl[order[q]] <= max
  {
    hide SumW;
    ZeroMeans(order[..h], IsLeaf(E, |dl|));
    assert forall q :: 0 <= q < h ==> order[q] == order[..h][q] && order[q] >= E;
    forall b | 1 <= b <= MAXBITS ensures SumW(order, Ind(E, dl, b)) == if b <= max then bl[b] else 0 {
      assert order == order[..h] + order[h..];
      SumZero(order[..h], Ind(E, dl, b));
      SumJoin(order[..h], order[h..], Ind(E, dl, b));
    }
  }

  lemma CostUpdate(order: seq<nat>, E: nat, k: nat, leaves: seq<nat>, dl: seq<nat>, freq: seq<nat>, extra: seq<nat>,
                   h: nat, bits: nat)
    requires MergeOrder(order, E, k, leaves) && Within(order, |dl|) && |freq| >= |dl| && |extra| >= E
    requires h < |order| && order[h] < E
    ensures var m := order[h];
            SumW(order, Cost(E, dl[m := bits], freq, extra)) ==
            SumW(order, Cost(E, dl, freq, extra)) + (bits - dl[m]) * freq[m]
  {
    hide SumW, Par;
    var m := order[h];
    var w, w' := Cost(E, dl, freq, extra), Cost(E, dl[m := bits], freq, extra);
    forall i | 0 <= i < |order| && i != h ensures w'[order[i]] == w[order[i]] { assert order[i] != m; }
    SumUpdate(order, h, w, w');
    assert (bits - dl[m]) * freq[m] == freq[m] * (bits + extra[m]) - freq[m] * (dl[m] + extra[m]);
  }

  /** The last loop: from the least frequent leaf on, bl[b] leaves of each length b. */
  method Reassign(order: seq<nat>, E: nat, k: nat, maxCode: nat, ghost leaves: seq<nat>, dl0: seq<nat>, bl: seq<nat>,
                  max: nat, freq: seq<nat>, ghost extra: seq<nat>, opt0: int)
    returns (dl: seq<nat>, opt: int)
    requires MergeOrder(order, E, k, leaves) && E + k <= |dl0| && Within(order, |dl0|)
    requires maxCode < E && Within(leaves, maxCode + 1) && |freq| >= |dl0| && |extra| >= E
    requires |bl| == MAXBITS + 1 && 1 <= max <= MAXBITS && CodeCount(bl, max) == |leaves|
    ensures |dl| == |dl0| && forall x :: 0 <= x < |dl| && (x >= E || x !in order) ==> dl[x] == dl0[x]
    ensures forall b :: 1 <= b <= MAXBITS ==> SumW(order, Ind(E, dl, b)) == if b <= max then bl[b] else 0
    ensures forall q :: 0 <= q < |order| && order[q] < E ==> 1 <= dl[order[q]] <= max
    ensures opt - SumW(order, Cost(E, dl, freq, extra)) == opt0 - SumW(order, Cost(E, dl0, freq, extra))
  {
    hide SumW, Assigned, MergeOrder;
    dl, opt := dl0, opt0;
    var h: nat, bits: nat := |order|, max;
    AssignStart(order, E, k, leaves, dl, bl, max);
    var n: nat := bl[bits];
    while true
      invariant |dl| == |dl0| && h <= |order| && 1 <= bits <= max && Assigned(order, E, dl, bl, max, h, bits, n)
      invariant forall x :: 0 <= x < |dl| && (x >= E || x !in order) ==> dl[x] == dl0[x]
      invariant opt - SumW(order, Cost(E, dl, freq, extra)) == opt0 - SumW(order, Cost(E, dl0, freq, extra))
      decreases bits, h
    {
      while n != 0
        invariant |dl| == |dl0| && h <= |order| && Assigned(order, E, dl, bl, max, h, bits, n)
        invariant forall x :: 0 <= x < |dl| && (x >= E || x !in order) ==> dl[x] == dl0[x]
        invariant opt - SumW(order, Cost(E, dl, freq, extra)) == opt0 - SumW(order, Cost(E, dl0, freq, extra))
        decreases h
      {
        SomeLeft(order, E, dl, bl, max, h, bits, n);
        h := h - 1;
        var m := order[h];
        LeafIff(order, E, k, leaves, maxCode, h);
        if m > maxCode {
          SkipInner(order, E, dl, bl, max, h + 1, bits, n);
        } else {
          OrderDistinct(order, E, k, leaves);
          AssignLeaf(order, E, dl, bl, max, h + 1, bits, n);
          if dl[m] != bits {
            CostUpdate(order, E, k, leaves, dl, freq, extra, h, bits);
            opt := opt + (bits - dl[m]) * freq[m];
            dl := dl[m := bits];
          } else {
            assert dl[m := bits] == dl;
          }
          n := n - 1;
        }
      }
      if bits == 1 { break; }
      NextBits(order, E, dl, bl, max, h, bits);
      bits := bits - 1;
      n := bl[bits];
    }
    AssignEnd(order, E, dl, bl, max, h);
  }

  lemma OrderDistinct(order: seq<nat>, E: nat, k: nat, leaves: seq<nat>)
    requires MergeOrder(order, E, k, leaves)
    ensures Distinct(order)
  {
  }

  // ----- gen_bitlen

  /** bl counts the leaves of each length. */
  predicate LeafCounts(leaves: seq<nat>, E: nat, dl: seq<nat>, bl: seq<nat>)
  {
    && Within(leaves, |dl|) && |bl| == MAXBITS + 1 && bl[0] == 0
    && forall b :: 1 <= b <= MAXBITS ==> bl[b] == SumW(leaves, Ind(E, dl, b))
  }

  lemma CountsOfLeaves(order: seq<nat>, E: nat, k: nat, leaves: seq<nat>, dl: seq<nat>, bl: seq<nat>)
    requires MergeOrder(order, E, k, leaves) && E + k <= |dl| && Within(order, |dl|)
    requires |bl| == MAXBITS + 1 && bl[0] == 0 && forall b :: 1 <= b <= MAXBITS ==> bl[b] == SumW(order, Ind(E, dl, b))
    ensures LeafCounts(leaves, E, dl, bl)
  {
    hide SumW, Par;
    forall b | 1 <= b <= MAXBITS ensures bl[b] == SumW(leaves, Ind(E, dl, b)) {
      LeavesOnly(order, E, k, leaves, Ind(E, dl, b));
    }
  }

  lemma NoLongOnes(order: seq<nat>, E: nat, k: nat, leaves: seq<nat>, dl: seq<nat>, max: nat, b: nat)
    requires MergeOrder(order, E, k, leaves) && E + k <= |dl| && Within(order, |dl|)
    requires Leveled(order, E, k, dl, max, |order|) && max >= 1 && (b == 0 || b > max)
    ensures SumW(order, Ind(E, dl, b)) == 0
  {
    hide SumW, Par;
    LeavesOnly(order, E, k, leaves, Ind(E, dl, b));
    LeafLengths(order, E, k, leaves, dl, max);
    SumZero(leaves, Ind(E, dl, b));
  }

  /** gen_bitlen: a complete set of lengths up to max for the leaves, their counts, and the total
      number of bits that the uses of all leaves take.  lv are the depths in the tree, cut off at max: the
      lengths are these, unless some node lies deeper. */
  method GenBitlen(order: seq<nat>, E: nat, k: nat, maxCode: nat, ghost leaves: seq<nat>, dl0: seq<nat>, max: nat,
                   freq: seq<nat>, extra: seq<nat>, slens: seq<nat>, opt0: int, stat0: int)
    returns (dl: seq<nat>, bl: seq<nat>, opt: int, stat: int, ghost lv: seq<nat>)
    requires MergeOrder(order, E, k, leaves) && E + k <= |dl0| && Within(order, |dl0|) && 1 <= max <= MAXBITS
    requires maxCode < E && Within(leaves, maxCode + 1) && |leaves| <= Pow2(max)
    requires forall h :: 1 <= h < |order| ==> dl0[order[h]] == Par(E, k, h)
    requires |freq| >= |dl0| && |extra| >= E && (slens == [] || |slens| >= E)
    ensures |dl| == |dl0| && forall x :: 0 <= x < |dl| && x !in order ==> dl[x] == dl0[x]
    ensures LeafCounts(leaves, E, dl, bl) && KraftCount(bl, max, max) == Pow2(max)
    ensures forall i :: 0 <= i < |leaves| ==> 1 <= dl[leaves[i]] <= max
    ensures opt == opt0 + SumW(leaves, Cost(E, dl, freq, extra))
    ensures stat == stat0 + SumW(leaves, StaticCost(E, |dl|, slens, freq, extra))
    ensures |order| == 2 * k + 1 && |lv| == |dl0| && Leveled(order, E, k, lv, max, |order|)
    ensures Over(E, k, lv, max, |order|) == 0 ==> dl == lv
  {
    hide SumW, MergeOrder, Leveled, Over, KraftCount, CodeCount, Pow2, Par;
    var overflow;
    dl, bl, overflow, opt, stat := FirstPass(order, E, k, maxCode, leaves, dl0, max, freq, extra, slens, opt0, stat0);
    MergeSizes(order, E, k, leaves);
    FirstCounts(order, E, k, leaves, dl, bl, max);
    NoLongOnes(order, E, k, leaves, dl, max, 0);
    CountsOfLeaves(order, E, k, leaves, dl, bl);
    LeafLengths(order, E, k, leaves, dl, max);
    LeavesOnly(order, E, k, leaves, StaticCost(E, |dl|, slens, freq, extra));
    LeavesOnly(order, E, k, leaves, Cost(E, dl, freq, extra));
    lv := dl;
    if overflow == 0 { return; }
    forall b | max < b <= MAXBITS ensures bl[b] == 0 { NoLongOnes(order, E, k, leaves, dl, max, b); }
    bl := Repair(bl, max, overflow);
    dl, opt := Reassign(order, E, k, maxCode, leaves, dl, bl, max, freq, extra, opt);
    CountsOfLeaves(order, E, k, leaves, dl, bl);
    LeavesOnly(order, E, k, leaves, Cost(E, dl, freq, extra));
    LeavesInOrder(order, E, k, leaves);
  }

  lemma LeavesInOrder(order: seq<nat>, E: nat, k: nat, leaves: seq<nat>)
    requires MergeOrder(order, E, k, leaves)
    ensures forall i :: 0 <= i < |leaves| ==> leaves[i] in order
  {
    hide MergeOrder;
    forall i | 0 <= i < |leaves| ensures leaves[i] in order {
      var q := LeafAt(order, E, k, leaves, i);
    }
  }
}
