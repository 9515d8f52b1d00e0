/** The merges of build_tree add up to the least cost of any code for the leaves. */
module MergeCost {
  import opened Bits
  import opened KraftSums
  import opened BitLengths
  import opened OptimalCode

  /** The weights of the nodes in s. */
  function NodeWeights(s: seq<nat>, w: seq<nat>): multiset<nat>
    requires Within(s, |w|)
  {
    if s == [] then multiset{} else multiset{w[s[0]]} + NodeWeights(s[1..], w)
  }

  lemma {:induction false} NodesJoin(a: seq<nat>, b: seq<nat>, w: seq<nat>)
    requires Within(a, |w|) && Within(b, |w|)
    ensures Within(a + b, |w|) && NodeWeights(a + b, w) == NodeWeights(a, w) + NodeWeights(b, w)
  {
    if a == [] {
      assert a + b == b;
    } else {
      NodesJoin(a[1..], b, w);
      NodesFirst(a + b, w);
      NodesFirst(a, w);
      assert (a + b)[1..] == a[1..] + b;
      hide NodeWeights;
      Regrouped(multiset{w[a[0]]}, NodeWeights(a[1..], w), NodeWeights(b, w));
    }
  }

  lemma NodesFirst(s: seq<nat>, w: seq<nat>)
    requires Within(s, |w|) && s != []
    ensures NodeWeights(s, w) == multiset{w[s[0]]} + NodeWeights(s[1..], w)
  {
  }

  lemma Regrouped(a: multiset<nat>, b: multiset<nat>, c: multiset<nat>)
    ensures (a + b) + c == a + (b + c)
  {
  }

  lemma NodesOne(x: nat, w: seq<nat>)
    requires x < |w|
    ensures NodeWeights([x], w) == multiset{w[x]}
  {
    assert [x][1..] == [];
  }

  lemma NodesTwo(x: nat, y: nat, w: seq<nat>)
    requires x < |w| && y < |w|
    ensures NodeWeights([x, y], w) == multiset{w[x]} + multiset{w[y]} && SumW([x, y], w) == w[x] + w[y]
  {
    hide NodeWeights, SumW;
    assert [x, y] == [x] + [y];
    NodesOne(x, w);
    NodesOne(y, w);
    NodesJoin([x], [y], w);
    SumOne(x, w);
    SumOne(y, w);
    SumJoin([x], [y], w);
  }

  lemma {:induction false} NodesPerm(a: seq<nat>, b: seq<nat>, w: seq<nat>)
    requires Within(a, |w|) && Within(b, |w|) && multiset(a) == multiset(b)
    ensures NodeWeights(a, w) == NodeWeights(b, w)
    decreases |a|
  {
    hide NodeWeights;
    if a == [] {
      assert |multiset(a)| == |multiset(b)|;
    } else {
      var i := Find(a, b);
      Removed(a, b, i);
      NodesPerm(a[1..], b[..i] + b[i + 1..], w);
      NodesMoved(a, b, i, w);
    }
  }

  lemma NodesMoved(a: seq<nat>, b: seq<nat>, i: nat, w: seq<nat>)
    requires Within(a, |w|) && Within(b, |w|) && a != [] && i < |b| && b[i] == a[0]
    requires NodeWeights(a[1..], w) == NodeWeights(b[..i] + b[i + 1..], w)
    ensures NodeWeights(a, w) == NodeWeights(b, w)
  {
    hide NodeWeights;
    var x, b1, b2 := a[0], b[..i], b[i + 1..];
    NodesJoin(b1, b2, w);
    NodesJoin([x], b2, w);
    NodesJoin(b1, [x] + b2, w);
    assert b == b1 + ([x] + b2);
    NodesJoin([x], a[1..], w);
    assert a == [x] + a[1..];
    Reorder(NodeWeights(b1, w), NodeWeights([x], w), NodeWeights(b2, w));
  }

  lemma Reorder(a: multiset<nat>, b: multiset<nat>, c: multiset<nat>)
    ensures a + (b + c) == b + (a + c)
  {
  }

  lemma {:induction false} NodesAgree(s: seq<nat>, w: seq<nat>, w': seq<nat>)
    requires Within(s, |w|) && Within(s, |w'|) && forall i :: 0 <= i < |s| ==> w[s[i]] == w'[s[i]]
    ensures NodeWeights(s, w) == NodeWeights(s, w')
  {
    if s != [] {
      assert w[s[0]] == w'[s[0]];
      NodesAgree(s[1..], w, w');
    }
  }

  lemma {:induction false} FindNode(s: seq<nat>, w: seq<nat>, z: nat) returns (x: nat)
    requires Within(s, |w|) && z in NodeWeights(s, w)
    ensures x in s && w[x] == z
  {
    if w[s[0]] == z { x := s[0]; } else { x := FindNode(s[1..], w, z); }
  }

  lemma {:induction false} HasWeight(s: seq<nat>, w: seq<nat>, x: nat)
    requires Within(s, |w|) && x in s
    ensures w[x] in NodeWeights(s, w)
  {
    if s[0] != x { HasWeight(s[1..], w, x); }
  }

  lemma RemoveAt(s: seq<nat>, j: nat)
    requires j < |s|
    ensures multiset(s) == multiset([s[j]] + (s[..j] + s[j + 1..]))
  {
    var a, n, b := s[..j], [s[j]], s[j + 1..];
    assert s == a + (n + b);
    assert multiset(s) == multiset(a) + (multiset(n) + multiset(b));
    assert multiset(n + (a + b)) == multiset(n) + (multiset(a) + multiset(b));
  }

  /** The nodes of s without its element n. */
  lemma Others(s: seq<nat>, n: nat) returns (r: seq<nat>)
    requires n in s && Distinct(s)
    ensures multiset(s) == multiset([n] + r)
    ensures forall x :: x in r <==> x in s && x != n
  {
    var j :| 0 <= j < |s| && s[j] == n;
    r := s[..j] + s[j + 1..];
    RemoveAt(s, j);
    forall x | x in s && x != n ensures x in r {
      var i :| 0 <= i < |s| && s[i] == x;
      assert x == if i < j then r[i] else r[i - 1];
    }
  }

  /** Two least nodes have two least weights. */
  lemma LeastWeights(live: seq<nat>, w: seq<nat>, n: nat, m: nat)
    requires Within(live, |w|) && Distinct(live) && n in live && m in live && n != m
    requires forall x :: x in live ==> w[n] <= w[x]
    requires forall x :: x in live && x != n ==> w[m] <= w[x]
    ensures TwoLeast(NodeWeights(live, w), w[n], w[m])
  {
    hide NodeWeights;
    var r := Others(live, n);
    InRange(live, r, |w|);
    NodesPerm(live, [n] + r, w);
    NodesJoin([n], r, w);
    NodesOne(n, w);
    HasWeight(live, w, n);
    HasWeight(r, w, m);
    var ms, rest := NodeWeights(live, w), NodeWeights(r, w);
    assert ms - multiset{w[n]} == rest;
    forall z | z in ms ensures w[n] <= z { var x := FindNode(live, w, z); }
    forall z | z in rest ensures w[m] <= z { var x := FindNode(r, w, z); }
  }

  lemma InRange(s: seq<nat>, r: seq<nat>, n: nat)
    requires Within(s, n) && forall x :: x in r ==> x in s
    ensures Within(r, n)
  {
    forall i | 0 <= i < |r| ensures r[i] < n { assert r[i] in s; }
  }

  /** After the merge the weights are joined, and their sum is the same. */
  lemma JoinedWeights(live: seq<nat>, live': seq<nat>, w: seq<nat>, n: nat, m: nat, node: nat)
    requires Within(live, node) && n in live && m in live && node < |w|
    requires multiset(live') + multiset{n, m} == multiset(live) + multiset{node}
    requires Within(live, |w|) && TwoLeast(NodeWeights(live, w), w[n], w[m])
    ensures var w' := w[node := w[n] + w[m]];
            && Within(live', |w|) && Within(live, |w|)
            && NodeWeights(live', w') == Joined(NodeWeights(live, w), w[n], w[m]) && SumW(live', w') == SumW(live, w)
  {
    hide NodeWeights, SumW, Joined, TwoLeast;
    var w' := w[node := w[n] + w[m]];
    var a, b := live' + [n, m], live + [node];
    assert multiset([n, m]) == multiset{n, m};
    assert multiset(a) == multiset(live') + multiset([n, m]);
    assert multiset(b) == multiset(live) + multiset{node};
    SamePlaces(a, b, |w|);
    PartOf(live', [n, m], |w|);
    NodesPerm(a, b, w');
    SumPerm(a, b, w');
    NodesJoin(live', [n, m], w');
    NodesJoin(live, [node], w');
    SumJoin(live', [n, m], w');
    SumJoin(live, [node], w');
    NodesTwo(n, m, w');
    NodesOne(node, w');
    SumOne(node, w');
    NodesAgree(live, w, w');
    SumAgree(live, w, w');
    Rejoin(NodeWeights(live, w), NodeWeights(live', w'), w[n], w[m]);
  }

  lemma SamePlaces(a: seq<nat>, b: seq<nat>, n: nat)
    requires multiset(a) == multiset(b) && Within(b, n)
    ensures Within(a, n)
  {
    forall i | 0 <= i < |a| ensures a[i] < n { assert a[i] in multiset(b); }
  }

  lemma PartOf(a: seq<nat>, b: seq<nat>, n: nat)
    requires Within(a + b, n)
    ensures Within(a, n) && Within(b, n)
  {
    forall i | 0 <= i < |a| ensures a[i] < n { assert (a + b)[i] == a[i]; }
    forall i | 0 <= i < |b| ensures b[i] < n { assert (a + b)[|a| + i] == b[i]; }
  }

  lemma Rejoin(ms: multiset<nat>, ms': multiset<nat>, x: nat, y: nat)
    requires ms' + (multiset{x} + multiset{y}) == ms + multiset{x + y} && TwoLeast(ms, x, y)
    ensures ms' == Joined(ms, x, y)
  {
    var ms1 := ms - multiset{x};
    var rest, two := ms1 - multiset{y}, multiset{x} + multiset{y};
    TakeOne(ms, x);
    TakeOne(ms1, y);
    Regroup(rest, multiset{x}, multiset{y}, multiset{x + y});
    Cancelled(ms', rest + multiset{x + y}, two);
  }

  lemma TakeOne(ms: multiset<nat>, x: nat)
    requires x in ms
    ensures ms == (ms - multiset{x}) + multiset{x}
  {
  }

  lemma Regroup(r: multiset<nat>, a: multiset<nat>, b: multiset<nat>, c: multiset<nat>)
    ensures ((r + b) + a) + c == (r + c) + (a + b)
  {
  }

  lemma Cancelled(a: multiset<nat>, b: multiset<nat>, c: multiset<nat>)
    requires a + c == b + c
    ensures a == b
  {
    forall x: nat ensures a[x] == b[x] { assert (a + c)[x] == (b + c)[x]; }
  }

  // ----- along the merges

  /** The j-th pair of sons, from the last merge on, adds up to its father. */
  predicate PairSum(order: seq<nat>, E: nat, i: nat, w: seq<nat>, j: nat)
  {
    && j < i && E + i <= |w| && 2 * j + 1 < |order| && order[2 * j] < |w| && order[2 * j + 1] < |w|
    && w[E + i - 1 - j] == w[order[2 * j]] + w[order[2 * j + 1]]
  }

  /** After i merges: what is best for the live nodes, with what has been merged, is best for the leaves. */
  ghost predicate Best(order: seq<nat>, live: seq<nat>, E: nat, i: nat, leaves: seq<nat>, w0: seq<nat>, w: seq<nat>)
  {
    && |w| == |w0| && Within(live, |w|) && Within(leaves, |w|) && E + i <= |w|
    && (forall x :: 0 <= x < E ==> w[x] == w0[x])
    && SumW(live, w) == SumW(leaves, w0)
    && (forall j: nat :: j < i ==> PairSum(order, E, i, w, j))
    && (forall c: nat :: Optimal(NodeWeights(live, w), c) ==> Optimal(NodeWeights(leaves, w0), c + Paid(E, i, w)))
  }

  /** The weights of the first i inner nodes. */
  function Paid(E: nat, i: nat, w: seq<nat>): nat
    requires E + i <= |w|
  {
    if i == 0 then 0 else Paid(E, i - 1, w) + w[E + i - 1]
  }

  lemma {:induction false} PaidSame(E: nat, i: nat, w: seq<nat>, w': seq<nat>)
    requires E + i <= |w| == |w'| && forall x :: 0 <= x < E + i ==> w[x] == w'[x]
    ensures Paid(E, i, w) == Paid(E, i, w')
  {
    if i > 0 { PaidSame(E, i - 1, w, w'); }
  }

  lemma BestStart(live: seq<nat>, E: nat, leaves: seq<nat>, w: seq<nat>)
    requires multiset(live) == multiset(leaves) && Within(leaves, E) && E <= |w|
    ensures Best([], live, E, 0, leaves, w, w)
  {
    hide Optimal, NodeWeights, SumW;
    SamePlaces(live, leaves, |w|);
    SumPerm(live, leaves, w);
    NodesPerm(live, leaves, w);
  }

  lemma PairsKept(order: seq<nat>, E: nat, i: nat, k: nat, w: seq<nat>, n: nat, m: nat, v: nat)
    requires E + i < |w| && n < E + i && m < E + i && v == w[n] + w[m] && Within(order, E + i) && |order| == 2 * i
    requires k == i + 1 && forall j: nat :: j < i ==> PairSum(order, E, i, w, j)
    ensures var w', order' := w[E + i := v], [m, n] + order; forall j: nat :: j < k ==> PairSum(order', E, k, w', j)
  {
    var w', order' := w[E + i := v], [m, n] + order;
    forall j: nat | j < k ensures PairSum(order', E, k, w', j) {
      if j > 0 {
        assert PairSum(order, E, i, w, j - 1);
        assert order'[2 * j] == order[2 * (j - 1)] && order'[2 * j + 1] == order[2 * (j - 1) + 1];
      }
    }
  }

  lemma {:induction false} SumAtLeast(s: seq<nat>, w: seq<nat>, n: nat, m: nat)
    requires Within(s, |w|) && Distinct(s) && n in s && m in s && n != m
    ensures w[n] + w[m] <= SumW(s, w)
  {
    hide SumW;
    var r := Others(s, n);
    InRange(s, r, |w|);
    SumPerm(s, [n] + r, w);
    SumJoin([n], r, w);
    SumOne(n, w);
    SumHas(r, w, m);
  }

  lemma {:induction false} SumHas(s: seq<nat>, w: seq<nat>, m: nat)
    requires Within(s, |w|) && m in s
    ensures w[m] <= SumW(s, w)
  {
    if s[0] != m { SumHas(s[1..], w, m); }
  }

  /** One merge of two least nodes, whose weights together do not wrap around. */
  lemma BestStep(order: seq<nat>, live: seq<nat>, E: nat, i: nat, leaves: seq<nat>, w0: seq<nat>, w: seq<nat>,
                 n: nat, m: nat, node: nat, live': seq<nat>)
    requires Best(order, live, E, i, leaves, w0, w) && node == E + i < |w| && |order| == 2 * i
    requires Within(live, E + i) && Within(order, E + i) && Distinct(live) && n in live && m in live && n != m
    requires multiset(live') + multiset{n, m} == multiset(live) + multiset{node}
    requires forall x :: x in live ==> w[n] <= w[x]
    requires forall x :: x in live && x != n ==> w[m] <= w[x]
    ensures w[n] + w[m] <= SumW(leaves, w0)
    ensures Best([m, n] + order, live', E, i + 1, leaves, w0, w[node := w[n] + w[m]])
  {
    hide Optimal, NodeWeights, SumW, PairSum, Joined, TwoLeast;
    var w' := w[node := w[n] + w[m]];
    SumAtLeast(live, w, n, m);
    PairsKept(order, E, i, i + 1, w, n, m, w[n] + w[m]);
    LeastWeights(live, w, n, m);
    JoinedWeights(live, live', w, n, m, node);
    PaidSame(E, i, w, w');
    forall c: nat | Optimal(NodeWeights(live', w'), c)
      ensures Optimal(NodeWeights(leaves, w0), c + Paid(E, i + 1, w'))
    {
      MergeOptimal(NodeWeights(live, w), w[n], w[m], c);
      var c' := c + w[n] + w[m];
      assert Optimal(NodeWeights(live, w), c');
    }
  }

  /** One node is left: no code for the leaves costs less than the merges. */
  lemma BestEnd(order: seq<nat>, root: nat, E: nat, k: nat, leaves: seq<nat>, w0: seq<nat>, w: seq<nat>)
    requires Best(order, [root], E, k, leaves, w0, w)
    ensures Optimal(NodeWeights(leaves, w0), Paid(E, k, w))
  {
    hide Optimal, NodeWeights, SumW;
    assert [root][0] < |w|;
    NodesOne(root, w);
    OneWeight(w[root]);
  }

  // ----- the cost of the tree

  /** The bits that the uses of a node take. */
  function BillW(w: seq<nat>, dl: seq<nat>): (b: seq<nat>)
    requires |w| >= |dl|
    ensures |b| == |dl| && forall x :: 0 <= x < |dl| ==> b[x] == w[x] * dl[x]
  {
    seq(|dl|, x requires 0 <= x < |dl| => w[x] * dl[x])
  }

  lemma {:induction false} OverMono(E: nat, k: nat, dl: seq<nat>, max: nat, g: nat, h: nat)
    requires E + k <= |dl| && g <= h <= 2 * k + 1
    ensures Over(E, k, dl, max, g) <= Over(E, k, dl, max, h)
  {
    if g < h { OverMono(E, k, dl, max, g, h - 1); }
  }

  /** The two sons of a node cost as much as the node, one level up, and its weight. */
  lemma PairBill(order: seq<nat>, E: nat, k: nat, leaves: seq<nat>, w: seq<nat>, dl: seq<nat>, max: nat, t: nat)
    requires MergeOrder(order, E, k, leaves) && E + k <= |dl| <= |w| && Within(order, |dl|) && 1 <= t <= k
    requires Leveled(order, E, k, dl, max, |order|) && Over(E, k, dl, max, |order|) == 0
    requires PairSum(order[1..], E, k, w, t - 1)
    ensures var b, p, h := BillW(w, dl), E + k - t, 2 * t - 1; b[order[h]] + b[order[h + 1]] == b[p] + w[p]
  {
    hide Space, Leveled, MergeOrder, Over, BillW;
    var p, h := E + k - t, 2 * t - 1;
    MergeSizes(order, E, k, leaves);
    PairFacts(order, E, k, leaves, dl, max, t);
    OverMono(E, k, dl, max, 1 + 2 * t, |order|);
    assert order[1..][2 * (t - 1)] == order[h] && order[1..][2 * (t - 1) + 1] == order[h + 1];
    var u, v, l := w[order[h]], w[order[h + 1]], dl[p];
    assert dl[order[h]] == l + 1 && w[p] == u + v;
    Unfold(u, v, l);
  }

  lemma Unfold(u: nat, v: nat, l: nat)
    ensures u * (l + 1) + v * (l + 1) == (u + v) * l + (u + v)
  {
  }

  lemma {:induction false} PairsBill(order: seq<nat>, E: nat, k: nat, leaves: seq<nat>, w: seq<nat>, dl: seq<nat>,
                                     max: nat, t: nat)
    requires MergeOrder(order, E, k, leaves) && E + k <= |dl| <= |w| && Within(order, |dl|) && t <= k
    requires Leveled(order, E, k, dl, max, |order|) && Over(E, k, dl, max, |order|) == 0
    requires forall j: nat :: j < k ==> PairSum(order[1..], E, k, w, j)
    ensures Within(order[1..1 + 2 * t], |dl|) && Within(Inner(E, k)[k - t..], |dl|)
    ensures SumW(order[1..1 + 2 * t], BillW(w, dl)) ==
            SumW(Inner(E, k)[k - t..], BillW(w, dl)) + SumW(Inner(E, k)[k - t..], w)
  {
    hide SumW, MergeOrder, Leveled, Over, PairSum, BillW;
    var b := BillW(w, dl);
    MergeSizes(order, E, k, leaves);
    if t == 0 {
      assert order[1..1] == [] && Inner(E, k)[k..] == [];
      SumNone(b);
      SumNone(w);
    } else {
      var h, p := 2 * t - 1, E + k - t;
      PairsBill(order, E, k, leaves, w, dl, max, t - 1);
      PairBill(order, E, k, leaves, w, dl, max, t);
      PairAdded(order[1..h], order[h], order[h + 1], b);
      assert order[1..1 + 2 * t] == order[1..h] + [order[h], order[h + 1]];
      assert Inner(E, k)[k - t..] == [p] + Inner(E, k)[k - t + 1..];
      SumOne(p, b);
      SumOne(p, w);
      SumJoin([p], Inner(E, k)[k - t + 1..], b);
      SumJoin([p], Inner(E, k)[k - t + 1..], w);
    }
  }

  lemma PairAdded(s: seq<nat>, x: nat, y: nat, b: seq<nat>)
    requires Within(s, |b|) && x < |b| && y < |b|
    ensures Within(s + [x, y], |b|) && SumW(s + [x, y], b) == SumW(s, b) + b[x] + b[y]
  {
    hide SumW, NodeWeights;
    NodesTwo(x, y, b);
    SumJoin(s, [x, y], b);
  }

  lemma {:induction false} PaidIs(E: nat, i: nat, w: seq<nat>)
    requires E + i <= |w|
    ensures Within(Inner(E, i), |w|) && SumW(Inner(E, i), w) == Paid(E, i, w)
  {
    hide SumW;
    if i == 0 {
      assert Inner(E, 0) == [];
      SumNone(w);
    } else {
      PaidIs(E, i - 1, w);
      assert Inner(E, i) == Inner(E, i - 1) + [E + i - 1];
      SumJoin(Inner(E, i - 1), [E + i - 1], w);
      SumOne(E + i - 1, w);
    }
  }

  /** The leaves, each at its depth, cost exactly the weights of the inner nodes. */
  lemma TreeBill(order: seq<nat>, E: nat, k: nat, leaves: seq<nat>, w: seq<nat>, dl: seq<nat>, max: nat)
    requires MergeOrder(order, E, k, leaves) && E + k <= |dl| <= |w| && Within(order, |dl|) && Within(leaves, |dl|)
    requires Leveled(order, E, k, dl, max, |order|) && Over(E, k, dl, max, |order|) == 0
    requires forall j: nat :: j < k ==> PairSum(order[1..], E, k, w, j)
    ensures SumW(leaves, BillW(w, dl)) == Paid(E, k, w)
  {
    hide SumW, Over, MergeOrder, PairSum;
    var b := BillW(w, dl);
    MergeSizes(order, E, k, leaves);
    PairsBill(order, E, k, leaves, w, dl, max, k);
    TreeSum(order, E, k, leaves, b);
    assert b[order[0]] == 0;
    assert Inner(E, k)[0..] == Inner(E, k);
    PaidIs(E, k, w);
  }

  // ----- other codes for the leaves

  /** The leaves with their weights and some other lengths. */
  function Syms(s: seq<nat>, w: seq<nat>, lens: seq<nat>): (a: seq<Sym>)
    requires Within(s, |w|) && Within(s, |lens|)
    ensures |a| == |s| && forall i :: 0 <= i < |s| ==> a[i] == Sym(w[s[i]], lens[s[i]])
  {
    if s == [] then [] else [Sym(w[s[0]], lens[s[0]])] + Syms(s[1..], w, lens)
  }

  /** The code space of a code of length l, in units of 2^-m. */
  function RoomW(lens: seq<nat>, m: nat): (r: seq<nat>)
    ensures |r| == |lens| && forall x :: 0 <= x < |lens| ==> r[x] == if lens[x] <= m then Pow2(m - lens[x]) else 0
  {
    seq(|lens|, x requires 0 <= x < |lens| => if lens[x] <= m then Pow2(m - lens[x]) else 0)
  }

  lemma {:induction false} SymsSums(s: seq<nat>, w: seq<nat>, lens: seq<nat>, m: nat)
    requires Within(s, |w|) && Within(s, |lens|) && |lens| <= |w|
    ensures Weights(Syms(s, w, lens)) == NodeWeights(s, w)
    ensures Sum(Bill, Syms(s, w, lens)) == SumW(s, BillW(w, lens))
    ensures Sum(Room(m), Syms(s, w, lens)) == SumW(s, RoomW(lens, m))
  {
    hide Pow2;
    if s != [] {
      SymsSums(s[1..], w, lens, m);
      assert Syms(s, w, lens)[1..] == Syms(s[1..], w, lens);
    }
  }

  /** These lengths, where s uses them, are those of a prefix code. */
  predicate PrefixCode(s: seq<nat>, lens: seq<nat>, m: nat)
  {
    && Within(s, |lens|) && (forall i :: 0 <= i < |s| ==> lens[s[i]] <= m)
    && SumW(s, RoomW(lens, m)) <= Pow2(m)
  }

  /** If the first pass needs no repair, its lengths cost no more than those of any prefix code. */
  lemma NoneCheaper(order: seq<nat>, E: nat, k: nat, leaves: seq<nat>, w0: seq<nat>, w: seq<nat>, dl: seq<nat>,
                    max: nat,
                    other: seq<nat>, m: nat)
    requires MergeOrder(order, E, k, leaves) && E + k <= |dl| <= |w| && Within(order, |dl|) && Within(leaves, |dl|)
    requires Leveled(order, E, k, dl, max, |order|) && Over(E, k, dl, max, |order|) == 0
    requires Best(order[1..], [order[0]], E, k, leaves, w0, w)
    requires |other| <= |w0| && PrefixCode(leaves, other, m)
    ensures SumW(leaves, BillW(w0, dl)) <= SumW(leaves, BillW(w0, other))
  {
    hide SumW, Over, MergeOrder, Leveled, PairSum, Optimal, NodeWeights;
    MergeSizes(order, E, k, leaves);
    TreeBill(order, E, k, leaves, w, dl, max);
    BestEnd(order[1..], order[0], E, k, leaves, w0, w);
    SumAgree(leaves, BillW(w, dl), BillW(w0, dl));
    SymsSums(leaves, w0, other, m);
    OptimalAt(NodeWeights(leaves, w0), Paid(E, k, w), Syms(leaves, w0, other), m);
  }
}
