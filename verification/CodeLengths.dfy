/** The run-length form of code lengths in the header of a dynamic block. */
module CodeLengths {

  /** A length, a repeat of the previous length, or a run of zeros. */
  datatype Item = Len(l: nat) | Rep(n: nat) | Zeros(n: nat)

  predicate ItemOk(i: Item)
  {
    match i
    case Len(l) => l <= 15
    case Rep(n) => 3 <= n <= 6
    case Zeros(n) => 3 <= n <= 138
  }

  predicate ItemsOk(s: seq<Item>)
  {
    forall i :: 0 <= i < |s| ==> ItemOk(s[i])
  }

  function Times(v: nat, n: nat): (s: seq<nat>)
    ensures |s| == n && forall i :: 0 <= i < n ==> s[i] == v
  {
    seq(n, i => v)
  }

  datatype Option<T> = None | Some(value: T)

  // ----- what inflate makes of the items

  /** State CODELENS after one item. */
  function ExpandOne(have: seq<nat>, i: Item): Option<seq<nat>>
  {
    match i
    case Len(l) => Some(have + [l])
    case Rep(n) => if have == [] then None else Some(have + Times(have[|have| - 1], n))
    case Zeros(n) => Some(have + Times(0, n))
  }

  function Expand(have: seq<nat>, items: seq<Item>): Option<seq<nat>>
    decreases |items|
  {
    if items == [] then Some(have)
    else match ExpandOne(have, items[0])
         case None => None
         case Some(h) => Expand(h, items[1..])
  }

  lemma {:induction false} ExpandJoin(have: seq<nat>, a: seq<Item>, b: seq<Item>)
    ensures Expand(have, a + b) == match Expand(have, a) case None => None case Some(h) => Expand(h, b)
    decreases |a|
  {
    if a == [] {
      assert a + b == b;
    } else {
      assert (a + b)[1..] == a[1..] + b;
      match ExpandOne(have, a[0])
      case None =>
      case Some(h) => ExpandJoin(h, a[1..], b);
    }
  }

  // ----- what deflate makes of the lengths

  /** max_count and min_count after a length prev (-1 for none) when the next one is cur. */
  function MaxCount(prev: int, cur: nat): nat
  {
    if cur == 0 then 138 else if cur == prev then 6 else 7
  }

  function MinCount(prev: int, cur: nat): nat
  {
    if cur == 0 || cur == prev then 3 else 4
  }

  /** The items for a run of count lengths cur after prev. */
  function Emit(prev: int, cur: nat, count: nat): (s: seq<Item>)
    requires 1 <= count <= MaxCount(prev, cur)
    ensures cur <= 15 ==> ItemsOk(s)
  {
    if count < MinCount(prev, cur) then seq(count, i => Len(cur))
    else if cur != 0 then
      if cur != prev then [Len(cur), Rep(count - 1)] else [Rep(count)]
    else [Zeros(count)]
  }

  /** A run of `count` equal lengths ends before n, and it may go on with lens[n]. */
  predicate InRun(lens: seq<nat>, n: nat, count: nat, prev: int)
  {
    && count <= n <= |lens| && (n == |lens| ==> count == 0)
    && (n < |lens| ==> count < MaxCount(prev, lens[n]) && forall i :: n - count <= i < n ==> lens[i] == lens[n])
  }

  /** The run ends with lens[n]. */
  predicate RunEnds(lens: seq<nat>, n: nat, count: nat, prev: int)
    requires n < |lens|
  {
    count + 1 == MaxCount(prev, lens[n]) || n + 1 == |lens| || lens[n + 1] != lens[n]
  }

  /** The items for all the lengths from n - count on. */
  function Rle(lens: seq<nat>, n: nat, count: nat, prev: int): (s: seq<Item>)
    requires InRun(lens, n, count, prev)
    ensures (forall i :: 0 <= i < |lens| ==> lens[i] <= 15) ==> ItemsOk(s)
    decreases |lens| - n
  {
    if n == |lens| then []
    else if RunEnds(lens, n, count, prev) then
      Emit(prev, lens[n], count + 1) + Rle(lens, n + 1, 0, lens[n])
    else Rle(lens, n + 1, count + 1, prev)
  }

  /** All the items for the lengths of one tree. */
  function Items(lens: seq<nat>): (s: seq<Item>)
    ensures (forall i :: 0 <= i < |lens| ==> lens[i] <= 15) ==> ItemsOk(s)
  {
    Rle(lens, 0, 0, -1)
  }

  predicate EndsWith(have: seq<nat>, prev: int)
  {
    prev >= 0 ==> have != [] && have[|have| - 1] == prev
  }

  lemma {:induction false} ExpandLens(have: seq<nat>, cur: nat, count: nat)
    ensures Expand(have, seq(count, i => Len(cur))) == Some(have + Times(cur, count))
    decreases count
  {
    var s := seq(count, i => Len(cur));
    if count == 0 {
      assert have + Times(cur, 0) == have;
    } else {
      assert s[1..] == seq(count - 1, i => Len(cur));
      ExpandLens(have + [cur], cur, count - 1);
      assert have + [cur] + Times(cur, count - 1) == have + Times(cur, count);
    }
  }

  lemma EmitExpands(have: seq<nat>, prev: int, cur: nat, count: nat)
    requires 1 <= count <= MaxCount(prev, cur) && EndsWith(have, prev)
    ensures Expand(have, Emit(prev, cur, count)) == Some(have + Times(cur, count))
  {
    if count < MinCount(prev, cur) {
      ExpandLens(have, cur, count);
    } else if cur == 0 {
      OneItem(have, Zeros(count));
    } else if cur != prev {
      var h := have + [cur];
      OneItem(h, Rep(count - 1));
      assert [Len(cur), Rep(count - 1)][1..] == [Rep(count - 1)];
      assert h + Times(cur, count - 1) == have + Times(cur, count);
    } else {
      OneItem(have, Rep(count));
    }
  }

  lemma OneItem(have: seq<nat>, i: Item)
    ensures Expand(have, [i]) == ExpandOne(have, i)
  {
    assert [i][1..] == [];
  }

  lemma RleCases(lens: seq<nat>, n: nat, count: nat, prev: int)
    requires InRun(lens, n, count, prev)
    ensures n == |lens| ==> count == 0 && Rle(lens, n, count, prev) == []
    ensures n < |lens| && RunEnds(lens, n, count, prev) ==>
              && InRun(lens, n + 1, 0, lens[n]) && count + 1 <= MaxCount(prev, lens[n])
              && Rle(lens, n, count, prev) == Emit(prev, lens[n], count + 1) + Rle(lens, n + 1, 0, lens[n])
    ensures n < |lens| && !RunEnds(lens, n, count, prev) ==>
              InRun(lens, n + 1, count + 1, prev) && Rle(lens, n, count, prev) == Rle(lens, n + 1, count + 1, prev)
  {
    hide Emit;
  }

  /** Expanding the items gives the lengths back, after whatever came before. */
  lemma {:induction false} RleExpands(have: seq<nat>, lens: seq<nat>, n: nat, count: nat, prev: int)
    requires InRun(lens, n, count, prev) && EndsWith(have, prev) && count <= n <= |lens|
    ensures Expand(have, Rle(lens, n, count, prev)) == Some(have + lens[n - count..])
    decreases |lens| - n
  {
    hide Expand, Emit, MaxCount, Rle, InRun, RunEnds, EndsWith, ItemsOk;
    RleCases(lens, n, count, prev);
    if n == |lens| {
      NoItems(have);
      assert have + lens[n..] == have;
    } else if RunEnds(lens, n, count, prev) {
      var cur := lens[n];
      var h := have + Times(cur, count + 1);
      LastTime(have, cur, count);
      EmitExpands(have, prev, cur, count + 1);
      RleExpands(h, lens, n + 1, 0, cur);
      ExpandJoin(have, Emit(prev, cur, count + 1), Rle(lens, n + 1, 0, cur));
      WholeRun(have, lens, n, count, prev);
    } else {
      RleExpands(have, lens, n + 1, count + 1, prev);
    }
  }

  lemma LastTime(have: seq<nat>, cur: nat, count: nat)
    ensures EndsWith(have + Times(cur, count + 1), cur)
  {
  }

  lemma NoItems(have: seq<nat>)
    ensures Expand(have, []) == Some(have)
  {
  }

  lemma WholeRun(have: seq<nat>, lens: seq<nat>, n: nat, count: nat, prev: int)
    requires InRun(lens, n, count, prev) && n < |lens|
    ensures have + Times(lens[n], count + 1) + lens[n + 1..] == have + lens[n - count..]
  {
    assert lens[n - count..n + 1] == Times(lens[n], count + 1);
    assert lens[n - count..] == lens[n - count..n + 1] + lens[n + 1..];
  }

  /** The lengths of the two trees, sent one after the other, come back as one list. */
  lemma TreesExpand(l: seq<nat>, d: seq<nat>)
    ensures Expand([], Items(l) + Items(d)) == Some(l + d)
  {
    RleExpands([], l, 0, 0, -1);
    RleExpands(l, d, 0, 0, -1);
    ExpandJoin([], Items(l), Items(d));
    assert [] + l[0..] == l && d[0..] == d;
  }

  // ----- scan_tree and send_tree

  /** The symbol of the code-length code for an item, and its extra bits. */
  function SymbolOf(i: Item): (s: nat)
    requires ItemOk(i)
    ensures s < 19
  {
    match i
    case Len(l) => l
    case Rep(n) => 16
    case Zeros(n) => if n <= 10 then 17 else 18
  }

  function Count(items: seq<Item>, s: nat): nat
    requires ItemsOk(items)
  {
    if items == [] then 0 else (if SymbolOf(items[0]) == s then 1 else 0) + Count(items[1..], s)
  }

  lemma {:induction false} CountJoin(a: seq<Item>, b: seq<Item>, s: nat)
    requires ItemsOk(a) && ItemsOk(b)
    ensures ItemsOk(a + b) && Count(a + b, s) == Count(a, s) + Count(b, s)
  {
    if a == [] {
      assert a + b == b;
    } else {
      CountJoin(a[1..], b, s);
      assert (a + b)[1..] == a[1..] + b;
    }
  }

  lemma {:induction false} CountLens(cur: nat, count: nat, s: nat)
    requires cur <= 15
    ensures Count(seq(count, i => Len(cur)), s) == if s == cur then count else 0
    decreases count
  {
    if count > 0 {
      assert seq(count, i => Len(cur))[1..] == seq(count - 1, i => Len(cur));
      CountLens(cur, count - 1, s);
    }
  }

  predicate Lens15(lens: seq<nat>)
  {
    forall i :: 0 <= i < |lens| ==> lens[i] <= 15
  }

  /** tree[n].Len with the guard after the last one. */
  function Guarded(lens: seq<nat>, n: nat): nat
  {
    if n < |lens| then lens[n] else 0xffff
  }

  /** What one turn of the loop adds to the frequencies. */
  method Tally(freq0: seq<nat>, prev: int, cur: nat, count: nat, minCount: nat) returns (freq: seq<nat>)
    requires |freq0| == 19 && cur <= 15 && 1 <= count <= MaxCount(prev, cur) && minCount == MinCount(prev, cur)
    ensures |freq| == 19
    ensures forall s :: 0 <= s < 19 ==> freq[s] == freq0[s] + Count(Emit(prev, cur, count), s)
  {
    hide Count;
    freq := freq0;
    if count < minCount {
      freq := freq[cur := freq[cur] + count];
    } else if cur != 0 {
      if cur != prev { freq := freq[cur := freq[cur] + 1]; }
      freq := freq[16 := freq[16] + 1];
    } else if count <= 10 {
      freq := freq[17 := freq[17] + 1];
    } else {
      freq := freq[18 := freq[18] + 1];
    }
    forall s | 0 <= s < 19 ensures freq[s] == freq0[s] + Count(Emit(prev, cur, count), s) {
      if count < minCount {
        CountLens(cur, count, s);
      } else if cur != 0 && cur != prev {
        CountTwo(Len(cur), Rep(count - 1), s);
      } else {
        CountOne(if cur != 0 then Rep(count) else Zeros(count), s);
      }
    }
  }

  lemma RleStep(lens: seq<nat>, n: nat, count: nat, prev: int, s: nat)
    requires InRun(lens, n, count, prev) && n < |lens| && Lens15(lens) && RunEnds(lens, n, count, prev)
    ensures InRun(lens, n + 1, 0, lens[n]) && count + 1 <= MaxCount(prev, lens[n])
    ensures Count(Rle(lens, n, count, prev), s) ==
            Count(Emit(prev, lens[n], count + 1), s) + Count(Rle(lens, n + 1, 0, lens[n]), s)
  {
    hide Emit, MaxCount, Rle, InRun, RunEnds, ItemsOk, Count;
    RleCases(lens, n, count, prev);
    CountJoin(Emit(prev, lens[n], count + 1), Rle(lens, n + 1, 0, lens[n]), s);
  }

  lemma CountOne(i: Item, s: nat)
    requires ItemOk(i)
    ensures Count([i], s) == if SymbolOf(i) == s then 1 else 0
  {
    assert [i][1..] == [];
  }

  lemma CountTwo(i: Item, j: Item, s: nat)
    requires ItemOk(i) && ItemOk(j)
    ensures Count([i, j], s) == (if SymbolOf(i) == s then 1 else 0) + (if SymbolOf(j) == s then 1 else 0)
  {
    assert [i, j][1..] == [j];
    CountOne(j, s);
  }

  /** The loop state of scan_tree and send_tree at n. */
  predicate Scanning(lens: seq<nat>, n: nat, count: nat, prevlen: int, nextlen: nat, maxCount: nat, minCount: nat)
  {
    && InRun(lens, n, count, prevlen) && nextlen == Guarded(lens, n)
    && maxCount == MaxCount(prevlen, nextlen) && minCount == MinCount(prevlen, nextlen)
  }

  /** scan_tree: the frequencies of the symbols that send_tree will send. */
  method ScanTree(lens: seq<nat>, freq0: seq<nat>) returns (freq: seq<nat>)
    requires |lens| >= 1 && Lens15(lens) && |freq0| == 19
    ensures |freq| == 19
    ensures forall s :: 0 <= s < 19 ==> freq[s] == freq0[s] + Count(Items(lens), s)
  {
    hide Rle, Emit, Count, ItemsOk;
    freq := freq0;
    var prevlen: int, nextlen: nat, count: nat, maxCount: nat, minCount: nat := -1, lens[0], 0, 7, 4;
    if nextlen == 0 { maxCount, minCount := 138, 3; }
    for n := 0 to |lens|
      invariant Scanning(lens, n, count, prevlen, nextlen, maxCount, minCount) && |freq| == 19
      invariant forall s :: 0 <= s < 19 ==>
                  freq[s] + Count(Rle(lens, n, count, prevlen), s) == freq0[s] + Count(Items(lens), s)
    {
      var curlen := nextlen;
      nextlen := Guarded(lens, n + 1);
      count := count + 1;
      RleCases(lens, n, count - 1, prevlen);
      if !(count < maxCount && curlen == nextlen) {
        forall s | 0 <= s < 19
          ensures Count(Rle(lens, n, count - 1, prevlen), s) ==
                  Count(Emit(prevlen, curlen, count), s) + Count(Rle(lens, n + 1, 0, curlen), s)
        {
          RleStep(lens, n, count - 1, prevlen, s);
        }
        freq := Tally(freq, prevlen, curlen, count, minCount);
        count, prevlen := 0, curlen;
        if nextlen == 0 {
          maxCount, minCount := 138, 3;
        } else if curlen == nextlen {
          maxCount, minCount := 6, 3;
        } else {
          maxCount, minCount := 7, 4;
        }
      }
    }
    NoRle(lens, count, prevlen);
  }

  lemma NoRle(lens: seq<nat>, count: nat, prev: int)
    requires InRun(lens, |lens|, count, prev)
    ensures Rle(lens, |lens|, count, prev) == [] && forall s: nat :: Count([], s) == 0
  {
  }
}
