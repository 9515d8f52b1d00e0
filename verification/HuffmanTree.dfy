/** build_tree: a Huffman code for the symbols with non-zero frequency. */
module HuffmanTree {
  import opened KraftSums
  import opened BitLengths
  import opened Heap
  import opened MergeCost
  import opened TreeDepth

  // ----- the symbols in use

  /** The symbols below n with non-zero frequency. */
  function Used(freq: seq<nat>, n: nat): (s: seq<nat>)
    requires n <= |freq|
    ensures forall i :: 0 <= i < |s| ==> s[i] < n && freq[s[i]] != 0
  {
    if n == 0 then [] else if freq[n - 1] != 0 then Used(freq, n - 1) + [n - 1] else Used(freq, n - 1)
  }

  lemma {:induction false} UsedDistinct(freq: seq<nat>, n: nat)
    requires n <= |freq|
    ensures Distinct(Used(freq, n)) && |Used(freq, n)| <= n
  {
    if n > 0 { UsedDistinct(freq, n - 1); }
  }

  lemma {:induction false} UsedAll(freq: seq<nat>, n: nat, x: nat)
    requires x < n <= |freq| && freq[x] != 0
    ensures x in Used(freq, n)
  {
    if x < n - 1 { UsedAll(freq, n - 1, x); }
  }

  lemma {:induction false} UsedSame(freq: seq<nat>, freq': seq<nat>, n: nat)
    requires n <= |freq| && n <= |freq'| && freq[..n] == freq'[..n]
    ensures Used(freq, n) == Used(freq', n)
  {
    if n > 0 {
      assert freq[..n][..n - 1] == freq[..n - 1] && freq'[..n][..n - 1] == freq'[..n - 1];
      assert freq[n - 1] == freq[..n][n - 1] == freq'[..n][n - 1] == freq'[n - 1];
      UsedSame(freq, freq', n - 1);
    }
  }

  /** Giving an unused symbol the frequency 1. */
  lemma {:induction false} UsedForce(freq: seq<nat>, n: nat, x: nat)
    requires x < n <= |freq| && freq[x] == 0
    ensures multiset(Used(freq[x := 1], n)) == multiset(Used(freq, n)) + multiset{x}
  {
    hide Used;
    var f := freq[x := 1];
    UsedLast(freq, n);
    UsedLast(f, n);
    if x == n - 1 {
      assert freq[..n - 1] == f[..n - 1];
      UsedSame(freq, f, n - 1);
    } else {
      UsedForce(freq, n - 1, x);
    }
  }

  lemma UsedLast(freq: seq<nat>, n: nat)
    requires 1 <= n <= |freq|
    ensures multiset(Used(freq, n)) == multiset(Used(freq, n - 1))
            + if freq[n - 1] != 0 then multiset([n - 1]) else multiset{}
  {
  }

  /** The sum of the first n weights. */
  function RangeSum(w: seq<nat>, n: nat): nat
    requires n <= |w|
  {
    if n == 0 then 0 else RangeSum(w, n - 1) + w[n - 1]
  }

  lemma {:induction false} UsedSum(freq: seq<nat>, n: nat, w: seq<nat>)
    requires n <= |freq| && n <= |w| && forall x :: 0 <= x < n && freq[x] == 0 ==> w[x] == 0
    ensures Within(Used(freq, n), |w|) && SumW(Used(freq, n), w) == RangeSum(w, n)
  {
    if n > 0 {
      UsedSum(freq, n - 1, w);
      if freq[n - 1] != 0 {
        SumJoin(Used(freq, n - 1), [n - 1], w);
        SumOne(n - 1, w);
      }
    }
  }

  // ----- merging

  /** The father of position p of the merges, when i merges have been made. */
  function Father(E: nat, i: nat, p: nat): int
  {
    E + i - 1 - p / 2
  }

  /** i merges have been made: their sons are in `order`, the other nodes in the heap. */
  predicate Merging(order: seq<nat>, live: seq<nat>, E: nat, i: nat, leaves: seq<nat>, dl: seq<nat>)
  {
    && |order| == 2 * i && |live| + i == |leaves| && E + i <= |dl|
    && multiset(live) + multiset(order) == multiset(leaves + Inner(E, i))
    && Within(leaves, E)
    && forall p :: 0 <= p < |order| ==> order[p] < Father(E, i, p) && order[p] < |dl| && dl[order[p]] == Father(E, i, p)
  }

  lemma {:induction false} DistinctCount(s: seq<nat>, x: nat)
    requires Distinct(s)
    ensures multiset(s)[x] <= 1
  {
    if s != [] {
      var t := s[1..];
      assert s == [s[0]] + t;
      DistinctCount(t, x);
      if x == s[0] {
        assert x !in t;
        assert x !in multiset(t);
      }
    }
  }

  lemma NodesDistinct(leaves: seq<nat>, E: nat, i: nat)
    requires Distinct(leaves) && Within(leaves, E)
    ensures Distinct(leaves + Inner(E, i))
  {
  }

  /** All nodes are different. */
  lemma Apart(order: seq<nat>, live: seq<nat>, E: nat, i: nat, leaves: seq<nat>, dl: seq<nat>, x: nat)
    requires Merging(order, live, E, i, leaves, dl) && Distinct(leaves)
    ensures x in live ==> x !in order && multiset(live)[x] == 1 && x < E + i
  {
    hide Father;
    var all := leaves + Inner(E, i);
    NodesDistinct(leaves, E, i);
    DistinctCount(all, x);
    if x in live {
      assert x in multiset(live);
      assert x in multiset(all);
      assert x in all;
      assert x in order ==> x in multiset(order);
    }
  }

  /** Two live nodes become the sons of a new one. */
  lemma MergeStep(order: seq<nat>, live: seq<nat>, E: nat, i: nat, leaves: seq<nat>, dl: seq<nat>, n: nat, m: nat,
                  node: nat, live': seq<nat>)
    requires Merging(order, live, E, i, leaves, dl) && Distinct(leaves) && E + i < |dl|
    requires n in live && m in live && n != m
    requires multiset(live') + multiset{n, m} == multiset(live) + multiset{node} && node == E + i
    ensures n < E + i && m < E + i
    ensures Merging([m, n] + order, live', E, i + 1, leaves, dl[n := node][m := node])
  {
    Apart(order, live, E, i, leaves, dl, n);
    Apart(order, live, E, i, leaves, dl, m);
    var dl' := dl[n := node][m := node];
    var order' := [m, n] + order;
    MergeSets(order, live, E, i, leaves, n, m, node, live');
    LiveSize(live, live', n, m, node);
    forall p | 0 <= p < |order'|
      ensures order'[p] < Father(E, i + 1, p) && order'[p] < |dl'| && dl'[order'[p]] == Father(E, i + 1, p)
    {
      if p >= 2 {
        var q := p - 2;
        assert order'[p] == order[q];
        assert order[q] != n && order[q] != m;
        assert Father(E, i + 1, p) == Father(E, i, q);
      }
    }
  }

  lemma MergeSets(order: seq<nat>, live: seq<nat>, E: nat, i: nat, leaves: seq<nat>, n: nat, m: nat, node: nat,
                  live': seq<nat>)
    requires multiset(live) + multiset(order) == multiset(leaves + Inner(E, i))
    requires multiset(live') + multiset{n, m} == multiset(live) + multiset{node} && node == E + i
    ensures multiset(live') + multiset([m, n] + order) == multiset(leaves + Inner(E, i + 1))
  {
    assert Inner(E, i + 1) == Inner(E, i) + [node];
    assert leaves + Inner(E, i + 1) == (leaves + Inner(E, i)) + [node];
    assert multiset([m, n]) == multiset{n, m};
    assert multiset([m, n] + order) == multiset([m, n]) + multiset(order);
    assert multiset((leaves + Inner(E, i)) + [node]) == multiset(leaves + Inner(E, i)) + multiset{node};
    assert multiset(live') + multiset([m, n] + order) == (multiset(live') + multiset{n, m}) + multiset(order);
  }

  lemma LiveSize(live: seq<nat>, live': seq<nat>, n: nat, m: nat, node: nat)
    requires multiset(live') + multiset{n, m} == multiset(live) + multiset{node}
    ensures |live'| + 1 == |live|
  {
    assert |multiset(live') + multiset{n, m}| == |live'| + 2;
    assert |multiset(live) + multiset{node}| == |live| + 1;
  }

  /** When one node is left, the merges with the root in front are a merge order. */
  lemma MergesDone(order: seq<nat>, E: nat, k: nat, leaves: seq<nat>, dl: seq<nat>, root: nat)
    requires root == E + k - 1 && Merging(order, [root], E, k, leaves, dl) && Distinct(leaves) && k >= 1
    ensures MergeOrder([root] + order, E, k, leaves) && Within([root] + order, |dl|)
    ensures forall h :: 1 <= h < |[root] + order| ==> dl[([root] + order)[h]] == Par(E, k, h)
  {
    var all := [root] + order;
    var nodes := leaves + Inner(E, k);
    assert multiset(all) == multiset([root]) + multiset(order);
    NodesDistinct(leaves, E, k);
    PermDistinct(nodes, all);
    forall h | 1 <= h < |all| ensures all[h] < Par(E, k, h) && all[h] < |dl| && dl[all[h]] == Par(E, k, h) {
      assert all[h] == order[h - 1];
      assert Father(E, k, h - 1) == Par(E, k, h);
    }
  }

  lemma TwiceCount(b: seq<nat>, i: nat, j: nat)
    requires i < j < |b| && b[i] == b[j]
    ensures multiset(b)[b[i]] >= 2
  {
    assert b == b[..j] + [b[j]] + b[j + 1..];
    assert b[..j][i] == b[i];
    assert b[i] in multiset(b[..j]);
  }

  lemma PermDistinct(a: seq<nat>, b: seq<nat>)
    requires Distinct(a) && multiset(a) == multiset(b)
    ensures Distinct(b)
  {
    forall i, j | 0 <= i < j < |b| ensures b[i] != b[j] {
      DistinctCount(a, b[i]);
      if b[i] == b[j] { TwiceCount(b, i, j); }
    }
  }

  // ----- the priority queue

  lemma DropTop(hp: seq<nat>, keys: Keys)
    requires HeapOk(hp, keys) && HeapFrom(hp, keys, 1) && |hp| >= 3
    ensures var hp1 := hp[1 := hp[|hp| - 1]][..|hp| - 1];
            && HeapOk(hp1, keys) && HeapFrom(hp1, keys, 2) && |hp1| == |hp| - 1
            && multiset(hp1[1..]) + multiset{hp[1]} == multiset(hp[1..])
  {
    var last := |hp| - 1;
    var hp1 := hp[1 := hp[last]][..last];
    forall c | 2 <= c < |hp1| && c / 2 >= 2 ensures Le(keys, hp1[c / 2], hp1[c]) {
      assert Le(keys, hp[c / 2], hp[c]);
    }
    assert hp[1..] == [hp[1]] + hp[2..last] + [hp[last]];
    assert hp1[1..] == [hp[last]] + hp[2..last];
  }

  lemma TailPerm(a: seq<nat>, b: seq<nat>)
    requires |a| >= 1 && |b| >= 1 && a[0] == b[0] && multiset(a) == multiset(b)
    ensures multiset(a[1..]) == multiset(b[1..])
  {
    assert a == [a[0]] + a[1..] && b == [b[0]] + b[1..];
    assert multiset(a[1..]) == multiset(a) - multiset{a[0]};
    assert multiset(b[1..]) == multiset(b) - multiset{b[0]};
  }

  /** pqremove: the node that goes before all others leaves the heap. */
  method RemoveTop(hp0: seq<nat>, keys: Keys) returns (top: nat, hp: seq<nat>)
    requires HeapOk(hp0, keys) && HeapFrom(hp0, keys, 1) && |hp0| >= 3
    ensures top == hp0[1] && |hp| == |hp0| - 1 && multiset(hp[1..]) + multiset{top} == multiset(hp0[1..])
    ensures HeapOk(hp, keys) && HeapFrom(hp, keys, 1)
    ensures forall i :: 1 <= i < |hp0| ==> Le(keys, top, hp0[i])
  {
    hide HeapFrom, Le;
    top := hp0[1];
    forall i | 1 <= i < |hp0| ensures Le(keys, top, hp0[i]) { TopLeast(hp0, keys, i); }
    DropTop(hp0, keys);
    var hp1 := hp0[1 := hp0[|hp0| - 1]][..|hp0| - 1];
    hp := DownHeap(hp1, keys, 1);
    TailPerm(hp, hp1);
  }

  /** The first node of the heap is replaced by a new one. */
  lemma NewTop(hp: seq<nat>, keys: Keys, keys': Keys, node: nat)
    requires HeapOk(hp, keys) && HeapFrom(hp, keys, 1) && |hp| >= 2 && Covers(keys', node + 1)
    requires forall i :: 1 <= i < |hp| ==> hp[i] < node
    requires |keys'.freq| == |keys.freq| && |keys'.depth| == |keys.depth|
    requires forall x :: 0 <= x < node && Covers(keys, x + 1) ==>
               keys'.freq[x] == keys.freq[x] && keys'.depth[x] == keys.depth[x]
    ensures var hp1 := hp[1 := node];
            && HeapOk(hp1, keys') && HeapFrom(hp1, keys', 2)
            && multiset(hp1[1..]) + multiset{hp[1]} == multiset(hp[1..]) + multiset{node}
  {
    var hp1 := hp[1 := node];
    forall c | 2 <= c < |hp1| && c / 2 >= 2 ensures Le(keys', hp1[c / 2], hp1[c]) {
      assert Le(keys, hp[c / 2], hp[c]);
    }
    assert hp[1..] == [hp[1]] + hp[2..];
    assert hp1[1..] == [node] + hp[2..];
  }

  function Join(keys: Keys, n: nat, m: nat, node: nat): (keys': Keys)
    requires Covers(keys, n + 1) && Covers(keys, m + 1) && Covers(keys, node + 1)
    ensures |keys'.freq| == |keys.freq| && |keys'.depth| == |keys.depth|
  {
    var d := if keys.depth[n] >= keys.depth[m] then keys.depth[n] else keys.depth[m];
    Keys(keys.freq[node := (keys.freq[n] + keys.freq[m]) % 65536], keys.depth[node := (d + 1) % 256])
  }

  /** One turn of the loop: the two least nodes become the sons of a new node.  The 16 bits of a
      frequency and the 8 bits of a depth may wrap around. */
  method MergeTwo(hp0: seq<nat>, keys: Keys, node: nat) returns (n: nat, m: nat, hp: seq<nat>, keys': Keys)
    requires HeapOk(hp0, keys) && HeapFrom(hp0, keys, 1) && |hp0| >= 3 && Covers(keys, node + 1)
    requires forall i :: 1 <= i < |hp0| ==> hp0[i] < node
    ensures |hp| == |hp0| - 1 && HeapOk(hp, keys') && HeapFrom(hp, keys', 1) && (|hp| == 2 ==> hp[1] == node)
    ensures n in hp0[1..] && m in hp0[1..] && multiset(hp[1..]) + multiset{n, m} == multiset(hp0[1..]) + multiset{node}
    ensures Covers(keys, n + 1) && Covers(keys, m + 1) && keys' == Join(keys, n, m, node)
    ensures forall x :: x in hp0[1..] ==> Covers(keys, x + 1) && Le(keys, n, x)
    ensures forall x :: x in multiset(hp0[1..]) - multiset{n} ==> Covers(keys, x + 1) && Le(keys, m, x)
  {
    hide HeapFrom, Le;
    var hp1;
    n, hp1 := RemoveTop(hp0, keys);
    m := hp1[1];
    NextTop(hp0, hp1, keys, n, node);
    keys' := Join(keys, n, m, node);
    hp := ReplaceTop(hp1, keys, keys', node);
    Merged(multiset(hp[1..]), multiset(hp1[1..]), multiset(hp0[1..]), n, m, node);
  }

  lemma Merged(a: multiset<nat>, b: multiset<nat>, c: multiset<nat>, n: nat, m: nat, node: nat)
    requires a + multiset{m} == b + multiset{node} && b + multiset{n} == c
    ensures a + multiset{n, m} == c + multiset{node}
  {
    assert multiset{n, m} == multiset{m} + multiset{n};
    assert a + multiset{n, m} == (a + multiset{m}) + multiset{n};
  }

  /** The node that comes next after the least. */
  lemma NextTop(hp0: seq<nat>, hp1: seq<nat>, keys: Keys, n: nat, node: nat)
    requires |hp0| >= 3 && |hp1| >= 2 && hp0[1] == n && HeapOk(hp0, keys) && HeapOk(hp1, keys) && HeapFrom(hp1, keys, 1)
    requires multiset(hp1[1..]) + multiset{n} == multiset(hp0[1..])
    requires forall i :: 1 <= i < |hp0| ==> Le(keys, n, hp0[i])
    requires forall i :: 1 <= i < |hp0| ==> hp0[i] < node
    ensures n in hp0[1..] && hp1[1] in hp0[1..] && forall i :: 1 <= i < |hp1| ==> hp1[i] < node
    ensures forall x :: x in hp0[1..] ==> Covers(keys, x + 1) && Le(keys, n, x)
    ensures forall x :: x in multiset(hp0[1..]) - multiset{n} ==> Covers(keys, x + 1) && Le(keys, hp1[1], x)
  {
    hide HeapFrom, Le;
    assert hp0[1..][0] == n;
    FromParts(hp0, hp1, n);
    forall i | 1 <= i < |hp1| ensures hp1[i] < node {
      var j :| 0 <= j < |hp0[1..]| && hp0[1..][j] == hp1[i];
      assert hp0[j + 1] == hp1[i];
    }
    forall i | 1 <= i < |hp1| ensures Le(keys, hp1[1], hp1[i]) { TopLeast(hp1, keys, i); }
    assert multiset(hp1[1..]) == multiset(hp0[1..]) - multiset{n};
    forall x | x in hp0[1..] ensures Covers(keys, x + 1) && Le(keys, n, x) {
      var i :| 0 <= i < |hp0[1..]| && hp0[1..][i] == x;
      assert hp0[i + 1] == x;
    }
    forall x | x in multiset(hp1[1..]) ensures Covers(keys, x + 1) && Le(keys, hp1[1], x) {
      var i :| 0 <= i < |hp1[1..]| && hp1[1..][i] == x;
      assert hp1[i + 1] == x;
    }
  }

  /** The new node takes the place of the first one. */
  method ReplaceTop(hp1: seq<nat>, keys: Keys, keys': Keys, node: nat) returns (hp: seq<nat>)
    requires HeapOk(hp1, keys) && HeapFrom(hp1, keys, 1) && |hp1| >= 2 && Covers(keys', node + 1)
    requires forall i :: 1 <= i < |hp1| ==> hp1[i] < node
    requires |keys'.freq| == |keys.freq| && |keys'.depth| == |keys.depth|
    requires forall x :: 0 <= x < node && Covers(keys, x + 1) ==>
               keys'.freq[x] == keys.freq[x] && keys'.depth[x] == keys.depth[x]
    ensures |hp| == |hp1| && HeapOk(hp, keys') && HeapFrom(hp, keys', 1) && (|hp| == 2 ==> hp[1] == node)
    ensures multiset(hp[1..]) + multiset{hp1[1]} == multiset(hp1[1..]) + multiset{node}
  {
    hide HeapFrom, Le;
    NewTop(hp1, keys, keys', node);
    var hp2 := hp1[1 := node];
    hp := DownHeap(hp2, keys', 1);
    TailPerm(hp, hp2);
    if |hp| == 2 { OnlyOne(hp, hp2); }
  }

  lemma OnlyOne(hp: seq<nat>, hp2: seq<nat>)
    requires |hp| == 2 == |hp2| && multiset(hp[1..]) == multiset(hp2[1..])
    ensures hp[1] == hp2[1]
  {
    assert hp[1..] == [hp[1]] && hp2[1..] == [hp2[1]];
    assert hp[1] in multiset(hp2[1..]);
  }

  lemma FromParts(hp0: seq<nat>, hp1: seq<nat>, n: nat)
    requires |hp0| >= 1 && |hp1| >= 1 && multiset(hp1[1..]) + multiset{n} == multiset(hp0[1..])
    ensures forall i :: 1 <= i < |hp1| ==> hp1[i] in hp0[1..]
  {
    forall i | 1 <= i < |hp1| ensures hp1[i] in hp0[1..] {
      assert hp1[1..][i - 1] == hp1[i];
      assert hp1[i] in multiset(hp0[1..]);
    }
  }

  lemma LiveNodes(order: seq<nat>, hp: seq<nat>, E: nat, i: nat, leaves: seq<nat>, dl: seq<nat>)
    requires |hp| >= 1 && Merging(order, hp[1..], E, i, leaves, dl) && Distinct(leaves)
    ensures forall j :: 1 <= j < |hp| ==> hp[j] < E + i
  {
    hide Merging;
    forall j | 1 <= j < |hp| ensures hp[j] < E + i {
      assert hp[j] == hp[1..][j - 1];
      Apart(order, hp[1..], E, i, leaves, dl, hp[j]);
    }
  }

  lemma TwoNodes(order: seq<nat>, live: seq<nat>, E: nat, i: nat, leaves: seq<nat>, dl: seq<nat>, n: nat, m: nat,
                 node: nat, live': seq<nat>)
    requires Merging(order, live, E, i, leaves, dl) && Distinct(leaves) && n in live && m in live && node == E + i
    requires multiset(live') + multiset{n, m} == multiset(live) + multiset{node}
    ensures n != m
  {
    hide Merging;
    Apart(order, live, E, i, leaves, dl, n);
    assert (multiset(live) + multiset{node})[n] == 1;
    assert (multiset(live') + multiset{n, m})[n] >= multiset{n, m}[n];
  }

  lemma MergeStart(live: seq<nat>, E: nat, leaves: seq<nat>, dl: seq<nat>)
    requires multiset(live) == multiset(leaves) && Within(leaves, E) && E <= |dl|
    ensures Merging([], live, E, 0, leaves, dl)
  {
    assert leaves + Inner(E, 0) == leaves;
    assert |multiset(live)| == |multiset(leaves)|;
  }

  lemma MergeSize(order: seq<nat>, live: seq<nat>, E: nat, i: nat, leaves: seq<nat>, dl: seq<nat>)
    requires Merging(order, live, E, i, leaves, dl)
    ensures |live| + i == |leaves|
  {
  }

  lemma MergingDistinct(order: seq<nat>, live: seq<nat>, E: nat, i: nat, leaves: seq<nat>, dl: seq<nat>)
    requires Merging(order, live, E, i, leaves, dl) && Distinct(leaves)
    ensures Distinct(live) && Within(live, E + i) && Within(order, E + i) && |order| == 2 * i
  {
    hide Merging;
    forall a, b | 0 <= a < b < |live| ensures live[a] != live[b] {
      Apart(order, live, E, i, leaves, dl, live[a]);
      if live[a] == live[b] { TwiceCount(live, a, b); }
    }
    forall a | 0 <= a < |live| ensures live[a] < E + i { Apart(order, live, E, i, leaves, dl, live[a]); }
    OldNodes(order, live, E, i, leaves, dl);
  }

  lemma OldNodes(order: seq<nat>, live: seq<nat>, E: nat, i: nat, leaves: seq<nat>, dl: seq<nat>)
    requires Merging(order, live, E, i, leaves, dl)
    ensures Within(order, E + i) && |order| == 2 * i
  {
  }

  lemma OtherLive(live: seq<nat>, n: nat, x: nat)
    requires x in live && x != n
    ensures x in multiset(live) - multiset{n}
  {
    assert x in multiset(live);
  }

  /** A merge of two least nodes keeps the balance of costs, as long as no frequency wraps around. */
  lemma BestMerge(order: seq<nat>, live: seq<nat>, E: nat, i: nat, leaves: seq<nat>, dl: seq<nat>, w0: seq<nat>,
                  keys: Keys,
                  n: nat, m: nat, node: nat, live': seq<nat>)
    requires Merging(order, live, E, i, leaves, dl) && Distinct(leaves) && Within(leaves, |w0|)
    requires Best(order, live, E, i, leaves, w0, keys.freq) && SumW(leaves, w0) < 65536
    requires Rising(order, live, E, i, keys.freq)
    requires node == E + i && Covers(keys, node + 1) && n in live && m in live && n != m
    requires Covers(keys, n + 1) && Covers(keys, m + 1)
    requires multiset(live') + multiset{n, m} == multiset(live) + multiset{node}
    requires forall x :: x in live ==> Covers(keys, x + 1) && Le(keys, n, x)
    requires forall x :: x in multiset(live) - multiset{n} ==> Covers(keys, x + 1) && Le(keys, m, x)
    ensures Best([m, n] + order, live', E, i + 1, leaves, w0, Join(keys, n, m, node).freq)
    ensures Rising([m, n] + order, live', E, i + 1, Join(keys, n, m, node).freq)
  {
    hide Merging, Best, Rising, SumW;
    var w := keys.freq;
    MergingDistinct(order, live, E, i, leaves, dl);
    forall x | x in live && x != n ensures w[m] <= w[x] { OtherLive(live, n, x); }
    BestStep(order, live, E, i, leaves, w0, w, n, m, node, live');
    RisingStep(order, live, E, i, w, n, m, node, live');
  }

  /** The loop that builds the tree: its merges, last one first, in the upper part of the heap
      array.  As long as no frequency wraps around, no code for the leaves costs less than its merges. */
  method MergeAll(hp0: seq<nat>, keys0: Keys, dl0: seq<nat>, E: nat, ghost leaves: seq<nat>)
    returns (order: seq<nat>, dl: seq<nat>, k: nat, ghost w: seq<nat>)
    requires HeapOk(hp0, keys0) && HeapFrom(hp0, keys0, 1) && |hp0| >= 3 && multiset(hp0[1..]) == multiset(leaves)
    requires Distinct(leaves) && Within(leaves, E) && |leaves| <= E
    requires |dl0| >= 2 * E && Covers(keys0, |dl0|) && forall x :: x in leaves ==> keys0.freq[x] != 0
    ensures |dl| == |dl0| && MergeOrder(order, E, k, leaves) && Within(order, |dl|) && E + k <= |dl|
    ensures forall h :: 1 <= h < |order| ==> dl[order[h]] == Par(E, k, h)
    ensures forall x :: 0 <= x < |dl| && x !in order ==> dl[x] == dl0[x]
    ensures Within(leaves, |keys0.freq|) && |order| == 2 * k + 1
    ensures SumW(leaves, keys0.freq) < 65536 ==>
              Best(order[1..], [order[0]], E, k, leaves, keys0.freq, w) && Rising(order[1..], [order[0]], E, k, w)
  {
    hide Merging, HeapFrom, MergeOrder, Le, Par, Join, Best, Rising, SumW;
    assert Within(leaves, |keys0.freq|);
    BestStart(hp0[1..], E, leaves, keys0.freq);
    AllRising(hp0[1..], E, leaves, keys0.freq);
    order, dl, k := [], dl0, 0;
    var hp, keys := hp0, keys0;
    MergeStart(hp[1..], E, leaves, dl);
    MergeSize([], hp[1..], E, 0, leaves, dl);
    while |hp| >= 3
      invariant |hp| >= 2 && |dl| == |dl0| && Covers(keys, |dl0|) && HeapOk(hp, keys) && HeapFrom(hp, keys, 1)
      invariant Merging(order, hp[1..], E, k, leaves, dl) && |hp| - 1 + k == |leaves|
      invariant |hp| == 2 ==> k >= 1 && hp[1] == E + k - 1
      invariant forall x :: 0 <= x < |dl| && x !in order ==> dl[x] == dl0[x]
      invariant SumW(leaves, keys0.freq) < 65536 ==>
                  Best(order, hp[1..], E, k, leaves, keys0.freq, keys.freq) && Rising(order, hp[1..], E, k, keys.freq)
      decreases |hp|
    {
      var node := E + k;
      LiveNodes(order, hp, E, k, leaves, dl);
      var n, m, hp1, keys1 := MergeTwo(hp, keys, node);
      TwoNodes(order, hp[1..], E, k, leaves, dl, n, m, node, hp1[1..]);
      if SumW(leaves, keys0.freq) < 65536 {
        BestMerge(order, hp[1..], E, k, leaves, dl, keys0.freq, keys, n, m, node, hp1[1..]);
      }
      MergeStep(order, hp[1..], E, k, leaves, dl, n, m, node, hp1[1..]);
      order := [m, n] + order;
      dl := dl[n := node][m := node];
      hp, keys, k := hp1, keys1, node + 1 - E;
    }
    assert hp[1..] == [hp[1]];
    MergesDone(order, E, k, leaves, dl, hp[1]);
    MergeRoom(order, hp[1..], E, k, leaves, dl);
    OldNodes(order, hp[1..], E, k, leaves, dl);
    w := keys.freq;
    ghost var merges := order;
    order := [hp[1]] + order;
    assert order[1..] == merges;
  }

  lemma AllRising(live: seq<nat>, E: nat, leaves: seq<nat>, w: seq<nat>)
    requires multiset(live) == multiset(leaves) && Within(leaves, E) && E <= |w|
    requires forall x :: x in leaves ==> w[x] != 0
    ensures Rising([], live, E, 0, w)
  {
    forall i | 0 <= i < |live| ensures live[i] < E { assert live[i] in multiset(leaves); }
    forall y | y in live ensures 1 <= w[y] { assert y in multiset(leaves); }
    RisingStart(live, E, w);
  }

  lemma MergeRoom(order: seq<nat>, live: seq<nat>, E: nat, i: nat, leaves: seq<nat>, dl: seq<nat>)
    requires Merging(order, live, E, i, leaves, dl)
    ensures E + i <= |dl|
  {
  }
}
