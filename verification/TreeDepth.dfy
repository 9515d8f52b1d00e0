/** How deep a Huffman tree can be: the weights along a path grow at least like the Fibonacci numbers. */
module TreeDepth {
  import opened KraftSums
  import opened BitLengths
  import opened MergeCost

  function Fib(n: nat): nat
  {
    if n < 2 then n + 1 else Fib(n - 1) + Fib(n - 2)
  }

  lemma {:induction false} FibMono(m: nat, n: nat)
    requires m <= n
    ensures 1 <= Fib(m) <= Fib(n)
  {
    if n == 0 {
    } else if m < n {
      FibMono(m, n - 1);
    } else {
      FibMono(m - 1, m - 1);
    }
  }

  lemma FibValues()
    ensures Fib(8) == 55 && Fib(16) == 2584
  {
    assert Fib(4) == 8 && Fib(5) == 13;
    assert Fib(8) == 55 && Fib(9) == 89;
    assert Fib(12) == 377 && Fib(13) == 610;
  }

  // ----- along the merges

  /** Where the sons of the inner node x are, when i merges have been made. */
  function Sons(E: nat, i: nat, x: nat): int
  {
    2 * (E + i - 1 - x)
  }

  /** The sons of x, if it is an inner node, weigh b at most. */
  predicate Under(order: seq<nat>, E: nat, i: nat, w: seq<nat>, x: nat, b: nat)
  {
    x >= E ==>
      var t := Sons(E, i, x);
      && 0 <= t && t + 1 < |order| && order[t] < |w| && order[t + 1] < |w|
      && w[order[t]] <= b && w[order[t + 1]] <= b
  }

  /** In the j-th pair neither node weighs less than a son of the other. */
  predicate Graded(order: seq<nat>, E: nat, i: nat, w: seq<nat>, j: nat)
  {
    && 2 * j + 1 < |order| && order[2 * j] < |w| && order[2 * j + 1] < |w|
    && Under(order, E, i, w, order[2 * j], w[order[2 * j + 1]])
    && Under(order, E, i, w, order[2 * j + 1], w[order[2 * j]])
  }

  /** After i merges of two least nodes: no node that has a father weighs more than one that has none. */
  predicate Rising(order: seq<nat>, live: seq<nat>, E: nat, i: nat, w: seq<nat>)
  {
    && |order| == 2 * i && E + i <= |w| && Within(order, E + i) && Within(live, E + i)
    && (forall x :: x in order ==> 1 <= w[x]) && (forall y :: y in live ==> 1 <= w[y])
    && (forall x, y :: x in order && y in live ==> w[x] <= w[y])
    && (forall j: nat :: j < i ==> Graded(order, E, i, w, j))
  }

  lemma RisingStart(live: seq<nat>, E: nat, w: seq<nat>)
    requires Within(live, E) && E <= |w| && forall y :: y in live ==> 1 <= w[y]
    ensures Rising([], live, E, 0, w)
  {
  }

  lemma UnderKept(order: seq<nat>, E: nat, i: nat, w: seq<nat>, n: nat, m: nat, v: nat, x: nat, b: nat)
    requires E + i < |w| && Within(order, E + i) && x < E + i && Under(order, E, i, w, x, b)
    ensures Under([m, n] + order, E, i + 1, w[E + i := v], x, b)
  {
    if x >= E {
      var t := Sons(E, i, x);
      assert ([m, n] + order)[t + 2] == order[t] && ([m, n] + order)[t + 3] == order[t + 1];
    }
  }

  lemma UnderLive(order: seq<nat>, live: seq<nat>, E: nat, i: nat, w: seq<nat>, x: nat, y: nat)
    requires Rising(order, live, E, i, w) && x in live && y in live
    ensures x < E + i && y < E + i && Under(order, E, i, w, x, w[y])
  {
    hide Graded;
    if x >= E {
      var t := Sons(E, i, x);
      assert order[t] in order && order[t + 1] in order;
    }
  }

  lemma GradedStep(order: seq<nat>, live: seq<nat>, E: nat, i: nat, w: seq<nat>, n: nat, m: nat, v: nat, j: nat)
    requires Rising(order, live, E, i, w) && E + i < |w| && n in live && m in live && j < i + 1
    ensures Graded([m, n] + order, E, i + 1, w[E + i := v], j)
  {
    hide Under;
    var order', w' := [m, n] + order, w[E + i := v];
    if j == 0 {
      UnderLive(order, live, E, i, w, m, n);
      UnderLive(order, live, E, i, w, n, m);
      UnderKept(order, E, i, w, n, m, v, m, w[n]);
      UnderKept(order, E, i, w, n, m, v, n, w[m]);
    } else {
      assert Graded(order, E, i, w, j - 1);
      var a, b := order[2 * j - 2], order[2 * j - 1];
      assert order'[2 * j] == a && order'[2 * j + 1] == b;
      UnderKept(order, E, i, w, n, m, v, a, w[b]);
      UnderKept(order, E, i, w, n, m, v, b, w[a]);
    }
  }

  lemma FromBefore(live: seq<nat>, live': seq<nat>, n: nat, m: nat, node: nat)
    requires multiset(live') + multiset{n, m} == multiset(live) + multiset{node}
    ensures forall y :: y in live' ==> y == node || y in live
  {
    forall y | y in live' ensures y == node || y in live {
      assert y in multiset(live') + multiset{n, m};
      assert y in multiset(live) + multiset{node};
    }
  }

  /** The other live nodes after the merge of n and m. */
  lemma Remaining(live: seq<nat>, live': seq<nat>, n: nat, m: nat, node: nat)
    requires Distinct(live) && n in live && m in live && n != m && node !in live
    requires multiset(live') + multiset{n, m} == multiset(live) + multiset{node}
    ensures n !in live' && m !in live'
  {
    OnceOnly(live, n);
    OnceOnly(live, m);
    assert (multiset(live') + multiset{n, m})[n] == multiset(live')[n] + 1;
    assert (multiset(live') + multiset{n, m})[m] == multiset(live')[m] + 1;
  }

  lemma {:induction false} OnceOnly(s: seq<nat>, x: nat)
    requires Distinct(s)
    ensures multiset(s)[x] <= 1
  {
    if s != [] {
      assert s == [s[0]] + s[1..];
      OnceOnly(s[1..], x);
      if x == s[0] { assert x !in s[1..]; }
    }
  }

  lemma LevelKept(order: seq<nat>, live: seq<nat>, live': seq<nat>, w: seq<nat>, w': seq<nat>, n: nat, m: nat,
                  node: nat)
    requires Within(order, node) && Within(live, node) && node < |w| && n in live && m in live
    requires n != m && Distinct(live) && w' == w[node := w[n] + w[m]]
    requires multiset(live') + multiset{n, m} == multiset(live) + multiset{node}
    requires forall x, y :: x in order && y in live ==> w[x] <= w[y]
    requires forall x :: x in live ==> w[n] <= w[x]
    requires forall x :: x in live && x != n ==> w[m] <= w[x]
    ensures Within(live', node + 1)
    ensures forall x, y :: x in [m, n] + order && y in live' ==> w'[x] <= w'[y]
  {
    assert node !in live;
    FromBefore(live, live', n, m, node);
    Remaining(live, live', n, m, node);
    forall i | 0 <= i < |live'| ensures live'[i] < node + 1 { assert live'[i] in live'; }
    forall x, y | x in [m, n] + order && y in live' ensures w'[x] <= w'[y] {
      if x in order { assert w[x] <= w[n]; }
    }
  }

  /** One merge of two least nodes. */
  lemma RisingStep(order: seq<nat>, live: seq<nat>, E: nat, i: nat, w: seq<nat>, n: nat, m: nat, node: nat,
                   live': seq<nat>)
    requires Rising(order, live, E, i, w) && node == E + i < |w| && Distinct(live) && n in live && m in live && n != m
    requires multiset(live') + multiset{n, m} == multiset(live) + multiset{node}
    requires forall x :: x in live ==> w[n] <= w[x]
    requires forall x :: x in live && x != n ==> w[m] <= w[x]
    ensures Rising([m, n] + order, live', E, i + 1, w[node := w[n] + w[m]])
  {
    hide Graded;
    var order', w', v := [m, n] + order, w[node := w[n] + w[m]], w[n] + w[m];
    LevelKept(order, live, live', w, w', n, m, node);
    FromBefore(live, live', n, m, node);
    var k := i + 1;
    forall j: nat | j < k ensures Graded(order', E, k, w', j) {
      GradedStep(order, live, E, i, w, n, m, v, j);
    }
  }

  // ----- in the finished tree

  /** A node and the sum of its pair, by position. */
  lemma Pair(order: seq<nat>, E: nat, k: nat, w: seq<nat>, h: nat) returns (v: nat)
    requires |order| == 2 * k + 1 && 1 <= h < |order| && Rising(order[1..], [order[0]], E, k, w)
    requires forall j: nat :: j < k ==> PairSum(order[1..], E, k, w, j)
    ensures v in order[1..] && v < |w| && order[h] < |w| && 0 <= Par(E, k, h) < |w|
    ensures w[Par(E, k, h)] == w[order[h]] + w[v] && w[v] >= 1 && w[order[h]] >= 1
    ensures Under(order[1..], E, k, w, order[h], w[v])
  {
    hide Under;
    var j := (h - 1) / 2;
    var o := order[1..];
    assert PairSum(o, E, k, w, j) && Graded(o, E, k, w, j);
    var h' := if h == 2 * j + 1 then 2 * j + 1 else 2 * j;
    v := o[h'];
    assert order[h] == o[h - 1] && order[h] in o;
  }

  /** A node that weighs Fib(i + 1), with a son that weighs Fib(i), at level l makes the root weigh
      Fib(i + 1 + l). */
  lemma {:induction false} Climb(order: seq<nat>, E: nat, k: nat, leaves: seq<nat>, w: seq<nat>, dl: seq<nat>, max: nat,
                                 h: nat, i: nat, son: nat)
    requires MergeOrder(order, E, k, leaves) && E + k <= |dl| && Within(order, |dl|)
    requires Leveled(order, E, k, dl, max, |order|) && Rising(order[1..], [order[0]], E, k, w)
    requires forall j: nat :: j < k ==> PairSum(order[1..], E, k, w, j)
    requires h < |order| && 1 <= son < |order| && Par(E, k, son) == order[h]
    requires order[h] < |w| && order[son] < |w| && w[order[h]] >= Fib(i + 1) && w[order[son]] >= Fib(i)
    ensures order[0] < |w| && w[order[0]] >= Fib(i + 1 + dl[order[h]])
    decreases h
  {
    hide Rising, Fib, MergeOrder, PairSum;
    MergeSizes(order, E, k, leaves);
    if h > 0 {
      var v := Pair(order, E, k, w, h);
      SonUnder(order, E, k, w, order[h], son, w[v]);
      var p := ParentBefore(order, E, k, leaves, h);
      FibNext(i);
      Climb(order, E, k, leaves, w, dl, max, p, i + 1, h);
      FibMono(i + 1 + dl[order[h]], i + 2 + dl[order[p]]);
    }
  }

  lemma FibNext(i: nat)
    ensures Fib(i + 2) == Fib(i + 1) + Fib(i)
  {
  }

  lemma SonUnder(order: seq<nat>, E: nat, k: nat, w: seq<nat>, x: nat, son: nat, b: nat)
    requires |order| == 2 * k + 1 && 1 <= son < |order| && Par(E, k, son) == x && order[son] < |w|
    requires Under(order[1..], E, k, w, x, b)
    ensures w[order[son]] <= b
  {
    var t := Sons(E, k, x);
    assert t == 2 * ((son - 1) / 2);
    assert order[1..][t] == order[t + 1] && (t + 1 < |order[1..]| ==> order[1..][t + 1] == order[t + 2]);
  }

  lemma {:induction false} SomeOver(E: nat, k: nat, dl: seq<nat>, max: nat, h: nat) returns (q: nat)
    requires E + k <= |dl| && h <= 2 * k + 1 && Over(E, k, dl, max, h) != 0
    ensures 1 <= q < h && 0 <= Par(E, k, q) < |dl| && dl[Par(E, k, q)] == max
  {
    if dl[Par(E, k, h - 1)] == max { q := h - 1; } else { q := SomeOver(E, k, dl, max, h - 1); }
  }

  /** A tree with a node deeper than max weighs Fib(max + 1) or more. */
  lemma Shallow(order: seq<nat>, E: nat, k: nat, leaves: seq<nat>, w0: seq<nat>, w: seq<nat>, dl: seq<nat>, max: nat)
    requires MergeOrder(order, E, k, leaves) && E + k <= |dl| && Within(order, |dl|) && |order| == 2 * k + 1
    requires Leveled(order, E, k, dl, max, |order|) && Over(E, k, dl, max, |order|) != 0
    requires Best(order[1..], [order[0]], E, k, leaves, w0, w) && Rising(order[1..], [order[0]], E, k, w)
    ensures Within(leaves, |w0|) && SumW(leaves, w0) >= Fib(max + 1)
  {
    hide Rising, Fib, MergeOrder, Leveled, Over, PairSum, SumW, NodeWeights;
    var q := SomeOver(E, k, dl, max, |order|);
    var v := Pair(order, E, k, w, q);
    var p := ParentBefore(order, E, k, leaves, q);
    FirstFibs();
    Climb(order, E, k, leaves, w, dl, max, p, 0, q);
    SumOne(order[0], w);
  }

  lemma FirstFibs()
    ensures Fib(0) == 1 && Fib(1) == 2
  {
  }
}
