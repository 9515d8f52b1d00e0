/** The priority queue of build_tree: a heap of tree nodes ordered by frequency, then by depth. */
module Heap {
  datatype Keys = Keys(freq: seq<nat>, depth: seq<nat>)

  predicate Covers(keys: Keys, n: nat)
  {
    |keys.freq| >= n && |keys.depth| >= n
  }

  /** The macro smaller: n goes before m. */
  predicate Le(keys: Keys, n: nat, m: nat)
    requires Covers(keys, n + 1) && Covers(keys, m + 1)
  {
    keys.freq[n] < keys.freq[m] || (keys.freq[n] == keys.freq[m] && keys.depth[n] <= keys.depth[m])
  }

  /** All nodes in the heap have keys; position 0 is not used. */
  predicate HeapOk(hp: seq<nat>, keys: Keys)
  {
    |hp| >= 1 && forall i :: 1 <= i < |hp| ==> Covers(keys, hp[i] + 1)
  }

  /** No father at position i or after goes after one of its sons. */
  predicate HeapFrom(hp: seq<nat>, keys: Keys, i: nat)
    requires HeapOk(hp, keys)
  {
    forall c :: 2 <= c < |hp| && c / 2 >= i ==> Le(keys, hp[c / 2], hp[c])
  }

  /** The heap with a hole at k, on the way down from k0 with the node v. */
  predicate Hole(hp: seq<nat>, keys: Keys, k0: nat, k: nat, v: nat)
    requires HeapOk(hp, keys) && Covers(keys, v + 1)
  {
    && 1 <= k0 <= k < |hp|
    && (forall c :: 2 <= c < |hp| && c / 2 >= k0 && c / 2 != k && c != k ==> Le(keys, hp[c / 2], hp[c]))
    && (k > k0 ==> k / 2 >= k0 && Le(keys, hp[k / 2], v))
    && (k > k0 ==> forall c :: 2 <= c < |hp| && c / 2 == k ==> Le(keys, hp[k / 2], hp[c]))
  }

  /** j is the smaller son of k, and v goes after it: it moves up. */
  lemma MoveUp(hp: seq<nat>, keys: Keys, k0: nat, k: nat, v: nat, j: nat)
    requires HeapOk(hp, keys) && Covers(keys, v + 1) && Hole(hp, keys, k0, k, v)
    requires j < |hp| && (j == 2 * k || j == 2 * k + 1) && !Le(keys, v, hp[j])
    requires forall c :: 2 <= c < |hp| && c / 2 == k ==> Le(keys, hp[j], hp[c])
    ensures HeapOk(hp[k := hp[j]], keys) && Hole(hp[k := hp[j]], keys, k0, j, v)
  {
    MovedLe(keys, v, hp[j]);
    hide Le;
    var hp' := hp[k := hp[j]];
    forall c | 2 <= c < |hp'| && c / 2 >= k0 && c / 2 != j && c != j ensures Le(keys, hp'[c / 2], hp'[c]) {
      if c / 2 == k {
      } else if c == k {
        assert Le(keys, hp[k / 2], hp[j]);
      } else {
        assert Le(keys, hp[c / 2], hp[c]);
      }
    }
    forall c | 2 <= c < |hp'| && c / 2 == j ensures Le(keys, hp'[j / 2], hp'[c]) {
      assert Le(keys, hp[c / 2], hp[c]);
    }
  }

  lemma MovedLe(keys: Keys, v: nat, w: nat)
    requires Covers(keys, v + 1) && Covers(keys, w + 1) && !Le(keys, v, w)
    ensures Le(keys, w, v)
  {
  }

  /** v fits at the hole. */
  lemma Fill(hp: seq<nat>, keys: Keys, k0: nat, k: nat, v: nat)
    requires HeapOk(hp, keys) && Covers(keys, v + 1) && Hole(hp, keys, k0, k, v)
    requires forall c :: 2 <= c < |hp| && c / 2 == k ==> Le(keys, v, hp[c])
    ensures HeapOk(hp[k := v], keys) && HeapFrom(hp[k := v], keys, k0)
  {
    var hp' := hp[k := v];
    forall c | 2 <= c < |hp'| && c / 2 >= k0 ensures Le(keys, hp'[c / 2], hp'[c]) {
      if c / 2 != k && c != k { assert Le(keys, hp[c / 2], hp[c]); }
    }
  }

  lemma Swap(hp: seq<nat>, k: nat, j: nat, v: nat)
    requires k < |hp| && j < |hp| && k != j
    ensures multiset(hp[k := hp[j]][j := v]) == multiset(hp[k := v])
  {
    var a, b := hp[k := v], hp[k := hp[j]][j := v];
    assert a[j] == hp[j] && a[k] == v && b == a[k := a[j]][j := a[k]];
  }

  /** pqdownheap: the node at k0 moves down until the heap is in order from k0 on. */
  method DownHeap(hp0: seq<nat>, keys: Keys, k0: nat) returns (hp: seq<nat>)
    requires HeapOk(hp0, keys) && 1 <= k0 < |hp0| && HeapFrom(hp0, keys, k0 + 1)
    ensures |hp| == |hp0| && hp[0] == hp0[0] && multiset(hp) == multiset(hp0)
    ensures HeapOk(hp, keys) && HeapFrom(hp, keys, k0)
  {
    hide Le, HeapFrom;
    var k, v := k0, hp0[k0];
    hp := hp0;
    var j := 2 * k;
    HoleStart(hp0, keys, k0);
    assert hp[k := v] == hp0;
    while j < |hp|
      invariant |hp| == |hp0| && HeapOk(hp, keys) && Covers(keys, v + 1) && Hole(hp, keys, k0, k, v) && j == 2 * k
      invariant hp[0] == hp0[0] && multiset(hp[k := v]) == multiset(hp0)
      decreases |hp| - k
    {
      if j + 1 < |hp| && Le(keys, hp[j + 1], hp[j]) { j := j + 1; }
      SmallerSon(hp, keys, k, j);
      if Le(keys, v, hp[j]) {
        BelowBoth(hp, keys, k, j, v);
        break;
      }
      MoveUp(hp, keys, k0, k, v, j);
      Swap(hp, k, j, v);
      hp := hp[k := hp[j]];
      k := j;
      j := 2 * j;
    }
    Fill(hp, keys, k0, k, v);
    hp := hp[k := v];
  }

  lemma HoleStart(hp: seq<nat>, keys: Keys, k: nat)
    requires HeapOk(hp, keys) && 1 <= k < |hp| && HeapFrom(hp, keys, k + 1)
    ensures Covers(keys, hp[k] + 1) && Hole(hp, keys, k, k, hp[k])
  {
    forall c | 2 <= c < |hp| && c / 2 >= k && c / 2 != k && c != k ensures Le(keys, hp[c / 2], hp[c]) {
      assert c / 2 >= k + 1;
    }
  }

  lemma SmallerSon(hp: seq<nat>, keys: Keys, k: nat, j: nat)
    requires HeapOk(hp, keys) && 1 <= k && 2 * k < |hp| && 2 * k <= j < |hp|
    requires j == if 2 * k + 1 < |hp| && Le(keys, hp[2 * k + 1], hp[2 * k]) then 2 * k + 1 else 2 * k
    ensures forall c :: 2 <= c < |hp| && c / 2 == k ==> Le(keys, hp[j], hp[c])
  {
  }

  lemma BelowBoth(hp: seq<nat>, keys: Keys, k: nat, j: nat, v: nat)
    requires HeapOk(hp, keys) && 1 <= k && 2 * k <= j < |hp| && Covers(keys, v + 1) && Le(keys, v, hp[j])
    requires forall c :: 2 <= c < |hp| && c / 2 == k ==> Le(keys, hp[j], hp[c])
    ensures forall c :: 2 <= c < |hp| && c / 2 == k ==> Le(keys, v, hp[c])
  {
  }

  /** The first node of a heap goes before all others. */
  lemma {:induction false} TopLeast(hp: seq<nat>, keys: Keys, i: nat)
    requires HeapOk(hp, keys) && HeapFrom(hp, keys, 1) && 1 <= i < |hp|
    ensures Le(keys, hp[1], hp[i])
    decreases i
  {
    if i >= 2 {
      TopLeast(hp, keys, i / 2);
      assert Le(keys, hp[i / 2], hp[i]);
    }
  }
}
