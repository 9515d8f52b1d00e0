/** The header of a dynamic block as deflate sends it, and the proof that inflate reads it back. */
module DeflateHeader {
  import opened Bits
  import opened InfTable
  import opened CodeTables
  import opened InflateSpec
  import opened BitFields
  import opened CodeLengths
  import opened DeflateBlock
  import BW = BitWriter
  import IS = InflateSlow
  import opened InflateHeader

  /** The number of extra bits of an item and their value. */
  function ItemExtra(i: Item): (f: Field)
    requires ItemOk(i)
    ensures f.val < Pow2(f.len)
  {
    SevenBits();
    match i
    case Len(l) => Field(0, 0)
    case Rep(n) => Field(n - 3, 2)
    case Zeros(n) => if n <= 10 then Field(n - 3, 3) else Field(n - 11, 7)
  }

  lemma SevenBits()
    ensures Pow2(0) == 1 && Pow2(2) == 4 && Pow2(3) == 8 && Pow2(7) == 128
  {
    assert Pow2(5) == 32;
  }

  function ItemFields(t: Tree, i: Item): seq<Field>
    requires ItemOk(i) && SymbolOf(i) < |t.lens| == |t.codes|
  {
    [Sent(t, SymbolOf(i))] + Extra(ItemExtra(i).val, ItemExtra(i).len)
  }

  /** The code-length tree has codes for all the items. */
  predicate CanSendItems(t: Tree, items: seq<Item>)
  {
    && |t.lens| == |t.codes| && ItemsOk(items)
    && forall j :: 0 <= j < |items| ==> SymbolOf(items[j]) < |t.lens| && t.lens[SymbolOf(items[j])] != 0
  }

  function ItemsFields(t: Tree, items: seq<Item>): seq<Field>
    requires CanSendItems(t, items)
  {
    if items == [] then [] else ItemFields(t, items[0]) + ItemsFields(t, items[1..])
  }

  lemma CanSendParts(t: Tree, a: seq<Item>, b: seq<Item>)
    requires CanSendItems(t, a + b)
    ensures CanSendItems(t, a) && CanSendItems(t, b)
    ensures a != [] ==> CanSendItems(t, a[1..] + b)
  {
    assert forall j :: 0 <= j < |a| ==> a[j] == (a + b)[j];
    assert forall j :: 0 <= j < |b| ==> b[j] == (a + b)[|a| + j];
    if a != [] { assert forall j :: 0 <= j < |a[1..] + b| ==> (a[1..] + b)[j] == (a + b)[j + 1]; }
  }

  lemma {:induction false} ItemsJoin(t: Tree, a: seq<Item>, b: seq<Item>)
    requires CanSendItems(t, a + b)
    ensures CanSendItems(t, a) && CanSendItems(t, b)
    ensures ItemsFields(t, a + b) == ItemsFields(t, a) + ItemsFields(t, b)
  {
    hide ItemFields, CanSendItems;
    CanSendParts(t, a, b);
    if a == [] {
      assert a + b == b;
    } else {
      assert (a + b)[1..] == a[1..] + b && (a + b)[0] == a[0];
      ItemsJoin(t, a[1..], b);
    }
  }

  lemma ItemFits(t: Tree, i: Item)
    requires TreeOk(t, CODES) && ItemOk(i) && SymbolOf(i) < |t.lens| == |t.codes| && t.lens[SymbolOf(i)] != 0
    ensures Fits(ItemFields(t, i))
  {
    hide TreeOk, Pow2;
    SentFits(t, CODES, SymbolOf(i));
  }

  method SendItem(w: BW.BitWriter, t: Tree, i: Item)
    requires w.Valid() && TreeOk(t, CODES) && ItemOk(i) && SymbolOf(i) < |t.lens| == |t.codes|
             && t.lens[SymbolOf(i)] != 0
    modifies w
    ensures w.Valid() && w.fields == old(w.fields) + ItemFields(t, i)
  {
    hide TreeOk, Pow2, BW.Holds;
    ghost var w0, fs := w.fields, ItemFields(t, i);
    SentFits(t, CODES, SymbolOf(i));
    w.SendBits(t.codes[SymbolOf(i)], t.lens[SymbolOf(i)]);
    var f := ItemExtra(i);
    if f.len != 0 {
      w.SendBits(f.val, f.len);
      assert w.fields == w0 + ([fs[0]] + [fs[1]]);
    } else {
      assert w.fields == w0 + [fs[0]];
    }
  }

  lemma ItemsOne(t: Tree, i: Item)
    requires ItemOk(i) && SymbolOf(i) < |t.lens| == |t.codes| && t.lens[SymbolOf(i)] != 0
    ensures CanSendItems(t, [i]) && ItemsFields(t, [i]) == ItemFields(t, i)
  {
    hide ItemFields;
    assert [i][1..] == [];
  }

  lemma LensSnoc(t: Tree, cur: nat, k: nat)
    requires cur <= 15 && cur < |t.lens| == |t.codes| && t.lens[cur] != 0
    ensures CanSendItems(t, seq(k, i => Len(cur))) && CanSendItems(t, seq(k + 1, i => Len(cur)))
    ensures ItemsFields(t, seq(k + 1, i => Len(cur))) ==
            ItemsFields(t, seq(k, i => Len(cur))) + ItemFields(t, Len(cur))
  {
    hide ItemFields, ItemsFields;
    assert seq(k + 1, i => Len(cur)) == seq(k, i => Len(cur)) + [Len(cur)];
    ItemsJoin(t, seq(k, i => Len(cur)), [Len(cur)]);
    ItemsOne(t, Len(cur));
  }

  lemma NoFields(t: Tree, items: seq<Item>)
    requires CanSendItems(t, items) && items == []
    ensures ItemsFields(t, items) == []
  {
  }

  method SendLens(w: BW.BitWriter, t: Tree, cur: nat, count: nat)
    requires w.Valid() && TreeOk(t, CODES) && cur <= 15 && CanSendItems(t, seq(count, i => Len(cur)))
    modifies w
    ensures w.Valid() && w.fields == old(w.fields) + ItemsFields(t, seq(count, i => Len(cur)))
  {
    hide TreeOk, BW.Holds, ItemFields, ItemsFields;
    ghost var w0 := w.fields;
    NoFields(t, []);
    for k := 0 to count
      invariant w.Valid() && CanSendItems(t, seq(k, i => Len(cur)))
      invariant w.fields == w0 + ItemsFields(t, seq(k, i => Len(cur)))
    {
      assert SymbolOf(seq(count, i => Len(cur))[k]) == cur;
      LensSnoc(t, cur, k);
      ghost var fs := ItemsFields(t, seq(k, i => Len(cur)));
      SendItem(w, t, Len(cur));
      assert w.fields == w0 + (fs + ItemFields(t, Len(cur)));
    }
  }

  /** What one turn of the loop of send_tree sends. */
  method SendRun(w: BW.BitWriter, t: Tree, prev: int, cur: nat, count: nat, minCount: nat)
    requires w.Valid() && TreeOk(t, CODES) && cur <= 15 && 1 <= count <= MaxCount(prev, cur)
    requires minCount == MinCount(prev, cur) && CanSendItems(t, Emit(prev, cur, count))
    modifies w
    ensures w.Valid() && w.fields == old(w.fields) + ItemsFields(t, Emit(prev, cur, count))
  {
    hide TreeOk, BW.Holds, ItemFields, ItemsFields;
    ghost var w0, items := w.fields, Emit(prev, cur, count);
    if count < minCount {
      SendLens(w, t, cur, count);
    } else if cur != 0 {
      var n := count;
      if cur != prev {
        assert items[0] == Len(cur) && items[1] == Rep(count - 1);
        SendItem(w, t, Len(cur));
        n := n - 1;
      } else {
        assert items[0] == Rep(count);
      }
      SendItem(w, t, Rep(n));
      if cur != prev {
        assert items == [Len(cur)] + [Rep(n)];
        ItemsJoin(t, [Len(cur)], [Rep(n)]);
        ItemsOne(t, Len(cur));
        ItemsOne(t, Rep(n));
        assert w.fields == w0 + (ItemFields(t, Len(cur)) + ItemFields(t, Rep(n)));
      } else {
        ItemsOne(t, Rep(n));
      }
    } else {
      assert items[0] == Zeros(count);
      SendItem(w, t, Zeros(count));
      ItemsOne(t, Zeros(count));
    }
  }

  /** send_tree. */
  method SendTree(w: BW.BitWriter, t: Tree, lens: seq<nat>)
    requires w.Valid() && TreeOk(t, CODES) && |lens| >= 1 && Lens15(lens) && CanSendItems(t, Items(lens))
    modifies w
    ensures w.Valid() && w.fields == old(w.fields) + ItemsFields(t, Items(lens))
  {
    hide Rle, Emit, ItemsOk, TreeOk, BW.Holds, ItemsFields, CanSendItems;
    ghost var w0 := w.fields;
    ghost var done: seq<Item> := [];
    var prevlen: int, nextlen: nat, count: nat, maxCount: nat, minCount: nat := -1, lens[0], 0, 7, 4;
    if nextlen == 0 { maxCount, minCount := 138, 3; }
    NoneSent(t, Items(lens));
    for n := 0 to |lens|
      invariant Scanning(lens, n, count, prevlen, nextlen, maxCount, minCount) && w.Valid()
      invariant Items(lens) == done + Rle(lens, n, count, prevlen)
      invariant CanSendItems(t, done) && w.fields == w0 + ItemsFields(t, done)
    {
      var curlen := nextlen;
      nextlen := Guarded(lens, n + 1);
      count := count + 1;
      RleCases(lens, n, count - 1, prevlen);
      if !(count < maxCount && curlen == nextlen) {
        ghost var more := Emit(prevlen, curlen, count);
        assert Items(lens) == (done + more) + Rle(lens, n + 1, 0, curlen);
        ItemsJoin(t, done + more, Rle(lens, n + 1, 0, curlen));
        ItemsJoin(t, done, more);
        SendRun(w, t, prevlen, curlen, count, minCount);
        assert w.fields == w0 + (ItemsFields(t, done) + ItemsFields(t, more));
        done := done + more;
        count, prevlen := 0, curlen;
        if nextlen == 0 {
          maxCount, minCount := 138, 3;
        } else if curlen == nextlen {
          maxCount, minCount := 6, 3;
        } else {
          maxCount, minCount := 7, 4;
        }
      }
    }
    NoRle(lens, count, prevlen);
    assert done == Items(lens);
  }

  lemma NoneSent(t: Tree, items: seq<Item>)
    requires CanSendItems(t, items)
    ensures CanSendItems(t, []) && ItemsFields(t, []) == []
  {
  }

  // ----- send_all_trees

  /** The lengths of the first n code-length codes in sending order. */
  function RankFields(lens: seq<nat>, n: nat): (fs: seq<Field>)
    requires |lens| == 19 && n <= 19
    ensures |fs| == n && forall i :: 0 <= i < n ==> fs[i] == Field(lens[Order(i)], 3)
  {
    seq(n, i requires 0 <= i < n => Field(lens[Order(i)], 3))
  }

  predicate HeaderOk(bl: Tree, l: seq<nat>, d: seq<nat>, blcodes: nat)
  {
    && 257 <= |l| <= 286 && 1 <= |d| <= 30 && 4 <= blcodes <= 19 && Lens15(l) && Lens15(d)
    && |bl.lens| == |bl.codes| == 19 && (forall s :: 0 <= s < 19 ==> bl.lens[s] < 8)
    && CanSendItems(bl, Items(l) + Items(d))
  }

  function CountFields(l: nat, d: nat, blcodes: nat): seq<Field>
    requires l >= 257 && d >= 1 && blcodes >= 4
  {
    [Field(l - 257, 5), Field(d - 1, 5), Field(blcodes - 4, 4)]
  }

  function HeaderFields(bl: Tree, l: seq<nat>, d: seq<nat>, blcodes: nat): seq<Field>
    requires HeaderOk(bl, l, d, blcodes)
  {
    CountFields(|l|, |d|, blcodes) + (RankFields(bl.lens, blcodes) + ItemsFields(bl, Items(l) + Items(d)))
  }

  lemma HeaderPowers()
    ensures Pow2(3) == 8 && Pow2(4) == 16 && Pow2(5) == 32
  {
    assert Pow2(4) == 16;
  }

  /** send_all_trees. */
  method SendAllTrees(w: BW.BitWriter, bl: Tree, l: seq<nat>, d: seq<nat>, blcodes: nat)
    requires w.Valid() && TreeOk(bl, CODES) && HeaderOk(bl, l, d, blcodes)
    modifies w
    ensures w.Valid() && w.fields == old(w.fields) + HeaderFields(bl, l, d, blcodes)
  {
    hide TreeOk, Pow2, BW.Holds, ItemsFields, CanSendItems, Items, Order;
    HeaderPowers();
    ItemsJoin(bl, Items(l), Items(d));
    ghost var w0, rf := w.fields, RankFields(bl.lens, blcodes);
    w.SendBits(|l| - 257, 5);
    w.SendBits(|d| - 1, 5);
    w.SendBits(blcodes - 4, 4);
    assert w.fields == w0 + CountFields(|l|, |d|, blcodes);
    ghost var w1 := w.fields;
    for rank := 0 to blcodes
      invariant w.Valid() && w.fields == w1 + rf[..rank]
    {
      w.SendBits(bl.lens[Order(rank)], 3);
      assert rf[..rank + 1] == rf[..rank] + [rf[rank]];
    }
    assert rf[..blcodes] == rf;
    SendTree(w, bl, l);
    SendTree(w, bl, d);
    ghost var fl, fd := ItemsFields(bl, Items(l)), ItemsFields(bl, Items(d));
    assert w.fields == w0 + (CountFields(|l|, |d|, blcodes) + (rf + (fl + fd)));
  }

  // ----- reading it back

  lemma {:induction false} ExpandGrows(have: seq<nat>, items: seq<Item>)
    requires ItemsOk(items) && Expand(have, items).Some?
    ensures |Expand(have, items).value| >= |have| + |items|
    decreases |items|
  {
    if items != [] { ExpandGrows(ExpandOne(have, items[0]).value, items[1..]); }
  }

  lemma ItemRead(t: Tree, table: seq<Code>, root: nat, i: Item, w: nat)
    requires TreeOk(t, CODES) && Decodes(table, root, CODES, t.lens)
    requires ItemOk(i) && SymbolOf(i) < |t.lens| == |t.codes| && t.lens[SymbolOf(i)] != 0
    requires Starts(w, ItemFields(t, i))
    ensures ItemAt(table, root, w) == (i, Total(ItemFields(t, i)))
  {
    hide TreeOk, Decodes, Lookup, Low, Shr, Pow2, Starts, Sent;
    var f, x := Sent(t, SymbolOf(i)), ItemExtra(i);
    SentFits(t, CODES, SymbolOf(i));
    StartsJoin(w, [f], Extra(x.val, x.len));
    TotalOne(f);
    TotalJoin([f], Extra(x.val, x.len));
    LookupSent(table, root, CODES, t, SymbolOf(i), w);
    ExtraRead(Shr(w, f.len), x.val, x.len);
  }

  lemma {:induction false} ItemsRead(t: Tree, table: seq<Code>, root: nat, items: seq<Item>, inp: seq<byte>, p: nat,
                                     have: seq<nat>, total: nat)
    requires TreeOk(t, CODES) && Decodes(table, root, CODES, t.lens) && CanSendItems(t, items)
    requires Starts(Ahead(inp, p), ItemsFields(t, items))
    requires Expand(have, items).Some? && |Expand(have, items).value| == total
    ensures ReadLengths(table, root, inp, p, have, total) ==
            Good(Expand(have, items).value, p + Total(ItemsFields(t, items)))
    decreases |items|
  {
    hide TreeOk, Decodes, Starts, Ahead, ItemFields, ItemAt, ExpandOne;
    ExpandGrows(have, items);
    if items == [] {
      ReadDone(table, root, inp, p, have, total);
    } else {
      var i, rest := items[0], items[1..];
      var fs, gs := ItemFields(t, i), ItemsFields(t, rest);
      ItemFits(t, i);
      StartsJoin(Ahead(inp, p), fs, gs);
      TotalJoin(fs, gs);
      ItemRead(t, table, root, i, Ahead(inp, p));
      IS.AheadShr(inp, p, Total(fs));
      var h := ExpandOne(have, i).value;
      ExpandGrows(h, rest);
      OneGrows(have, i);
      ItemsRead(t, table, root, rest, inp, p + Total(fs), h, total);
    }
  }

  lemma OneGrows(have: seq<nat>, i: Item)
    requires ItemOk(i) && ExpandOne(have, i).Some?
    ensures |ExpandOne(have, i).value| > |have|
  {
  }

  lemma CountsRead(l: nat, d: nat, blcodes: nat, w: nat)
    requires 257 <= l <= 286 && 1 <= d <= 30 && 4 <= blcodes <= 19 && Starts(w, CountFields(l, d, blcodes))
    ensures Low(w, 5) + 257 == l && Low(Shr(w, 5), 5) + 1 == d && Low(Shr(w, 10), 4) + 4 == blcodes
    ensures Total(CountFields(l, d, blcodes)) == 14
  {
    hide Low, Shr, Pow2, Starts, Total;
    HeaderPowers();
    var f, g, h := Field(l - 257, 5), Field(d - 1, 5), Field(blcodes - 4, 4);
    assert CountFields(l, d, blcodes) == [f] + ([g] + [h]);
    StartsJoin(w, [f], [g] + [h]);
    TotalOne(f);
    TotalOne(g);
    TotalOne(h);
    TotalJoin([f], [g] + [h]);
    TotalJoin([g], [h]);
    StartsOne(w, f);
    StartsJoin(Shr(w, 5), [g], [h]);
    StartsOne(Shr(w, 5), g);
    ShrShr(w, 5, 5);
    StartsOne(Shr(w, 10), h);
  }

  lemma {:induction false} ThreesTotal(fs: seq<Field>)
    requires forall i :: 0 <= i < |fs| ==> fs[i].len == 3
    ensures Total(fs) == 3 * |fs|
  {
    if fs != [] { ThreesTotal(fs[1..]); }
  }

  lemma RankRead(lens: seq<nat>, n: nat, w: nat, i: nat)
    requires |lens| == 19 && n <= 19 && i < n && (forall s :: 0 <= s < 19 ==> lens[s] < 8)
    requires Starts(w, RankFields(lens, n))
    ensures Low(Shr(w, 3 * i), 3) == lens[Order(i)]
  {
    hide Low, Shr, Pow2, Starts, Order, Total;
    HeaderPowers();
    var fs := RankFields(lens, n);
    var a, b, c := fs[..i], [fs[i]], fs[i + 1..];
    assert fs == a + (b + c);
    ThreesTotal(a);
    StartsJoin(w, a, b + c);
    StartsJoin(Shr(w, 3 * i), b, c);
    StartsOne(Shr(w, 3 * i), fs[i]);
  }

  lemma LenLensRead(lens: seq<nat>, n: nat, w: nat)
    requires |lens| == 19 && n <= 19 && (forall s :: 0 <= s < 19 ==> lens[s] < 8)
    requires Starts(w, RankFields(lens, n)) && forall i: nat :: n <= i < 19 ==> lens[Order(i)] == 0
    ensures LenLensOf(w, n) == lens
  {
    hide Low, Shr, Starts, Order, Rank, RankFields;
    forall s: nat | s < 19 ensures LenLensOf(w, n)[s] == lens[s] {
      var i := Rank(s);
      assert lens[Order(i)] == lens[s];
      if i < n { RankRead(lens, n, w, i); }
    }
  }

  /** The header comes back: the counts, the code-length lengths, and the lengths of both trees. */
  lemma HeaderRoundTrip(bl: Tree, l: seq<nat>, d: seq<nat>, blcodes: nat, inp: seq<byte>, p: nat)
    requires TreeOk(bl, CODES) && HeaderOk(bl, l, d, blcodes)
    requires forall i: nat :: blcodes <= i < 19 ==> bl.lens[Order(i)] == 0
    requires Starts(Ahead(inp, p), HeaderFields(bl, l, d, blcodes))
    ensures var w := Ahead(inp, p);
            Low(w, 5) + 257 == |l| && Low(Shr(w, 5), 5) + 1 == |d| && Low(Shr(w, 10), 4) + 4 == blcodes
    ensures LenLensOf(Ahead(inp, p + 14), blcodes) == bl.lens
    ensures forall t, root: nat :: Decodes(t, root, CODES, bl.lens) ==>
              ReadLengths(t, root, inp, p + 14 + 3 * blcodes, [], |l| + |d|) ==
              Good(l + d, p + Total(HeaderFields(bl, l, d, blcodes)))
  {
    hide TreeOk, Low, Shr, Ahead, Starts, Order, ItemsFields, CanSendItems, Items, Decodes, ReadLengths, Total,
      Expand, Pow2;
    var fc, fr, fi := CountFields(|l|, |d|, blcodes), RankFields(bl.lens, blcodes),
      ItemsFields(bl, Items(l) + Items(d));
    HeaderPowers();
    StartsJoin(Ahead(inp, p), fc, fr + fi);
    CountsRead(|l|, |d|, blcodes, Ahead(inp, p));
    IS.AheadShr(inp, p, 14);
    StartsJoin(Ahead(inp, p + 14), fr, fi);
    ThreesTotal(fr);
    LenLensRead(bl.lens, blcodes, Ahead(inp, p + 14));
    IS.AheadShr(inp, p + 14, 3 * blcodes);
    TotalJoin(fc, fr + fi);
    TotalJoin(fr, fi);
    TreesExpand(l, d);
    forall t, root: nat | Decodes(t, root, CODES, bl.lens)
      ensures ReadLengths(t, root, inp, p + 14 + 3 * blcodes, [], |l| + |d|) ==
              Good(l + d, p + Total(HeaderFields(bl, l, d, blcodes)))
    {
      ItemsRead(bl, t, root, Items(l) + Items(d), inp, p + 14 + 3 * blcodes, [], |l| + |d|);
    }
  }
}
