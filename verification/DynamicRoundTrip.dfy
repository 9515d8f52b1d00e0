/** A dynamic block from end to end: what deflate sends, inflate reads back. */
module DynamicRoundTrip {
  import opened Bits
  import opened Canonical
  import opened InfTable
  import opened CodeTables
  import opened InflateSpec
  import opened InflateSlow
  import opened CodeLengths
  import opened InflateHeader
  import opened BitFields
  import opened DeflateCodes
  import opened DeflateBlock
  import opened DeflateHeader
  import opened DynamicTrees
  import D = Deflater

  /** State TABLE. */
  method ReadCounts(inp: seq<byte>, lim: nat, a0: Acc) returns (ok: bool, nlen: nat, ndist: nat, ncode: nat, a: Acc)
    requires AccOk(inp, a0) && a0.next <= lim <= |inp|
    ensures AccOk(inp, a) && a.next <= lim && (ok <==> Pos(a0) + 14 <= 8 * lim)
    ensures ok ==> Pos(a) == Pos(a0) + 14 && (a0.bits < 8 ==> a.bits < 8)
    ensures var w := Ahead(inp, Pos(a0));
            ok ==> nlen == Low(w, 5) + 257 && ndist == Low(Shr(w, 5), 5) + 1 && ncode == Low(Shr(w, 10), 4) + 4
    ensures !ok ==> Pos(a) == Pos(a0)
  {
    hide Low, Shr, Ahead, Holding;
    nlen, ndist, ncode := 0, 0, 0;
    ok, a := NeedBits(inp, lim, a0, 14);
    if ok {
      AheadShr(inp, Pos(a0), 5);
      AheadShr(inp, Pos(a0), 10);
      Peek(inp, a.next, a.hold, a.bits, 5);
      nlen := Low(a.hold, 5) + 257;
      a := DropBits(inp, a, 5);
      Peek(inp, a.next, a.hold, a.bits, 5);
      ndist := Low(a.hold, 5) + 1;
      a := DropBits(inp, a, 5);
      Peek(inp, a.next, a.hold, a.bits, 4);
      ncode := Low(a.hold, 4) + 4;
      a := DropBits(inp, a, 4);
    }
  }

  lemma LenLensSmall(w: nat, n: nat)
    ensures forall s :: 0 <= s < 19 ==> LenLensOf(w, n)[s] <= 7
  {
    hide Low, Shr, Order, Rank;
    forall s | 0 <= s < 19 ensures LenLensOf(w, n)[s] <= 7 {
      LowBound(Shr(w, 3 * Rank(s)), 3);
      assert Pow2(3) == 8;
    }
  }

  /** The table for code lengths never has a second level. */
  lemma CodesFlat(t: seq<Code>, root: nat, lens: seq<nat>)
    requires |lens| == 19 && LensOk(lens) && SortedLens(Sorted(lens)) && Acceptable(CODES, Sorted(lens))
    requires TableOk(t, root, CODES) && Decodes(t, root, CODES, lens) && forall s :: 0 <= s < 19 ==> lens[s] <= root
    requires Sorted(lens) == [] ==> root == 1 && t == [CodeTables.Invalid, CodeTables.Invalid]
    ensures Flat(t, root)
  {
    hide Sorted, Cum, Decodes, TableOk, Pow2, Low;
    if Sorted(lens) == [] {
      forall w: nat ensures Low(w, root) < |t| && !IsLink(t[Low(w, root)]) { LowOne(w); }
    } else {
      FlatTable(t, root, CODES, lens);
    }
  }

  /** LENLENS and the table for code lengths, with all the input at hand. */
  method CodesTable(inp: seq<byte>, a0: Acc, ncode: nat) returns (ok: bool, bad: bool, t: seq<Code>, root: nat, a: Acc)
    requires AccOk(inp, a0) && a0.next <= |inp| && ncode <= 19
    ensures AccOk(inp, a) && a.next <= |inp| && (ok <==> Pos(a0) + 3 * ncode <= 8 * |inp|)
    ensures LensOk(LenLensOf(Ahead(inp, Pos(a0)), ncode)) && SortedLens(Sorted(LenLensOf(Ahead(inp, Pos(a0)), ncode)))
    ensures ok ==> (bad <==> !Acceptable(CODES, Sorted(LenLensOf(Ahead(inp, Pos(a0)), ncode))))
    ensures ok && !bad ==> Pos(a) == Pos(a0) + 3 * ncode && TableOk(t, root, CODES) && Flat(t, root)
    ensures ok && !bad && a0.bits < 8 ==> a.bits < 8
    ensures ok && !bad ==> Decodes(t, root, CODES, LenLensOf(Ahead(inp, Pos(a0)), ncode))
  {
    hide Low, Shr, Ahead, Holding, Sorted, Cum, Decodes, TableOk, Flat, Pow2, LenLensOf, Acceptable;
    ghost var want := LenLensOf(Ahead(inp, Pos(a0)), ncode);
    LenLensSmall(Ahead(inp, Pos(a0)), ncode);
    SortedIs(want);
    var have, lens, ret;
    bad, t, root := false, [], 0;
    ok, have, lens, a := LenLens(inp, |inp|, a0, 0, seq(19, i => 0), ncode, Pos(a0));
    if ok {
      ret, t, root := InflateTable(CODES, lens, 7);
      bad := ret != 0;
      if !bad { CodesFlat(t, root, lens); }
    }
  }

  // ----- the whole header

  function NLen(w: nat): nat { Low(w, 5) + 257 }

  function NDist(w: nat): nat { Low(Shr(w, 5), 5) + 1 }

  function NCode(w: nat): (n: nat)
    ensures n <= 19
  {
    LowBound(Shr(w, 10), 4);
    assert Pow2(4) == 16;
    Low(Shr(w, 10), 4) + 4
  }

  /** The lengths of the code-length code in the header at p. */
  ghost function ClLens(inp: seq<byte>, p: nat): (s: seq<nat>)
    ensures |s| == 19 && LensOk(s) && SortedLens(Sorted(s))
  {
    var s := LenLensOf(Ahead(inp, p + 14), NCode(Ahead(inp, p)));
    LenLensSmall(Ahead(inp, p + 14), NCode(Ahead(inp, p)));
    SortedIs(s);
    s
  }

  /** All the lengths in the header at p, read with the given table for code lengths. */
  ghost function AllLens(inp: seq<byte>, p: nat, t: seq<Code>, root: nat): Lengths
  {
    var w := Ahead(inp, p);
    ReadLengths(t, root, inp, p + 14 + 3 * NCode(w), [], NLen(w) + NDist(w))
  }

  /** The tables of a block are for these lengths. */
  ghost predicate TablesFor(b: Block, l: seq<nat>, d: seq<nat>)
  {
    && BlockOk(b) && |l| <= SymbolLimit(LENS) && |d| <= SymbolLimit(DISTS)
    && Decodes(b.lcode, b.lroot, LENS, l) && Decodes(b.dcode, b.droot, DISTS, d)
  }

  predicate Usable(kind: CodeType, lens: seq<nat>)
  {
    LensOk(lens) && (SortedIs(lens); Acceptable(kind, Sorted(lens)))
  }

  /** What can come of a dynamic header. */
  datatype Header = Ready(b: Block) | Short | Rejected

  /** The two tables for the symbols.  Any result but 0 is an error to inflate, but lack of space is never
      the reason, and both tables together fit the space for them. */
  method SymbolTables(l: seq<nat>, d: seq<nat>) returns (h: Header)
    requires LensOk(l) && LensOk(d) && |l| <= 286 && |d| <= 30
    ensures h == Rejected <==> !(Usable(LENS, l) && Usable(DISTS, d))
    ensures h != Rejected ==> h.Ready? && TablesFor(h.b, l, d) && |h.b.lcode| + |h.b.dcode| <= ENOUGH
  {
    hide Sorted, Cum, Decodes, TableOk, Pow2, Acceptable, TableSpace;
    EnoughIsEnough();
    SpaceMono(9, |l|, 288);
    SpaceMono(6, |d|, 32);
    var ret, lcode, lroot := InflateTable(LENS, l, 9);
    if ret != 0 { return Rejected; }
    var dret, dcode, droot := InflateTable(DISTS, d, 6);
    if dret != 0 { return Rejected; }
    h := Ready(Block(lcode, lroot, dcode, droot));
  }

  lemma {:induction false} ReadSmall(t: seq<Code>, root: nat, inp: seq<byte>, p: nat, have: seq<nat>, total: nat)
    requires LensOk(have)
    ensures ReadLengths(t, root, inp, p, have, total).Good? ==> LensOk(ReadLengths(t, root, inp, p, have, total).lens)
    decreases total - |have|
  {
    hide ItemAt, Ahead;
    if |have| < total {
      var (item, n) := ItemAt(t, root, Ahead(inp, p));
      ItemSmall(t, root, Ahead(inp, p));
      match ExpandOne(have, item)
      case None =>
      case Some(h) =>
        if |have| < |h| <= total { ReadSmall(t, root, inp, p + n, h, total); }
    }
  }

  lemma ItemSmall(t: seq<Code>, root: nat, w: nat)
    ensures ItemAt(t, root, w).0.Len? ==> ItemAt(t, root, w).0.l <= 15
  {
  }

  /** What the header at p comes to, if t is the table for its code lengths: too little input, a header to
      be rejected, or tables for its lengths, in the order in which inflate finds out. */
  ghost predicate HeaderIs(inp: seq<byte>, p: nat, t: seq<Code>, root: nat, h: Header, end: nat)
  {
    var w := Ahead(inp, p);
    var lens := AllLens(inp, p, t, root);
    if 8 * |inp| < p + 14 then h == Short
    else if NLen(w) > 286 || NDist(w) > 30 then h == Rejected
    else if 8 * |inp| < p + 14 + 3 * NCode(w) then h == Short
    else if !Acceptable(CODES, Sorted(ClLens(inp, p))) then h == Rejected
    else
      && Decodes(t, root, CODES, ClLens(inp, p))
      && if 8 * |inp| < lens.p then h == Short
         else if lens.Malformed? then h == Rejected
         else
           && |lens.lens| == NLen(w) + NDist(w)
           && (h == Rejected <==> !(Usable(LENS, lens.lens[..NLen(w)]) && Usable(DISTS, lens.lens[NLen(w)..])))
           && (h != Rejected ==>
                 && h.Ready? && end == lens.p && |h.b.lcode| + |h.b.dcode| <= ENOUGH
                 && TablesFor(h.b, lens.lens[..NLen(w)], lens.lens[NLen(w)..]))
  }

  /** The states TABLE, LENLENS and CODELENS in one go, then the tables for the symbols. */
  method ReadHeader(inp: seq<byte>, a0: Acc) returns (h: Header, a: Acc, ghost t: seq<Code>, ghost root: nat)
    requires AccOk(inp, a0) && a0.next <= |inp|
    ensures AccOk(inp, a) && a.next <= |inp| && (h.Ready? && a0.bits < 8 ==> a.bits < 8)
    ensures HeaderIs(inp, Pos(a0), t, root, h, Pos(a))
  {
    hide Low, Shr, Ahead, Holding, Sorted, Cum, Decodes, TableOk, Flat, Pow2, LenLensOf, Acceptable, Usable,
      TablesFor, ReadLengths;
    t, root := [], 0;
    ghost var p := Pos(a0);
    ghost var w := Ahead(inp, p);
    var ok, nlen, ndist, ncode;
    ok, nlen, ndist, ncode, a := ReadCounts(inp, |inp|, a0);
    if !ok { return Short, a, t, root; }
    assert nlen == NLen(w) && ndist == NDist(w) && ncode == NCode(w);
    if nlen > 286 || ndist > 30 { return Rejected, a, t, root; }
    var bad, tab, r;
    ok, bad, tab, r, a := CodesTable(inp, a, ncode);
    if !ok { return Short, a, t, root; }
    if bad { return Rejected, a, t, root; }
    t, root := tab, r;
    var lens;
    ReadSmall(tab, r, inp, Pos(a), [], nlen + ndist);
    ok, bad, lens, a := CodeLens(tab, r, inp, |inp|, a, [], nlen + ndist);
    if !ok { return Short, a, t, root; }
    if bad { return Rejected, a, t, root; }
    ReadSize(tab, r, inp, p + 14 + 3 * ncode, nlen + ndist);
    h := SymbolTables(lens[..nlen], lens[nlen..]);
  }

  lemma ReadSize(t: seq<Code>, root: nat, inp: seq<byte>, p: nat, total: nat)
    ensures var r := ReadLengths(t, root, inp, p, [], total); r.Good? ==> |r.lens| == total
  {
  }

  // ----- the round trip

  lemma WholeUsable(t: Tree, kind: CodeType)
    requires TreeOk(t, kind) && Whole(t)
    ensures SortedLens(Sorted(t.lens)) && Acceptable(kind, Sorted(t.lens)) && Usable(kind, t.lens)
  {
    hide Sorted, Cum, Pow2, SentCode;
  }

  /** What HeaderRoundTrip says, in terms of the header at p. */
  lemma SentHeader(st: Static, ts: Trees, toks: seq<Token>, inp: seq<byte>, p: nat)
    requires StaticOk(st) && TreesOk(st, ts, toks)
    requires Starts(Ahead(inp, p), HeaderFields(ts.bl, ts.l.lens, ts.d.lens, ts.blcodes))
    ensures var w := Ahead(inp, p);
            && NLen(w) == |ts.l.lens| <= 286 && NDist(w) == |ts.d.lens| <= 30 && NCode(w) == ts.blcodes
            && ClLens(inp, p) == ts.bl.lens && Acceptable(CODES, Sorted(ts.bl.lens))
    ensures forall t, root: nat :: Decodes(t, root, CODES, ts.bl.lens) ==>
              AllLens(inp, p, t, root) ==
              Good(ts.l.lens + ts.d.lens, p + Total(HeaderFields(ts.bl, ts.l.lens, ts.d.lens, ts.blcodes)))
  {
    hide TreeOk, Whole, Low, Shr, Ahead, Starts, Order, HeaderFields, Decodes, ReadLengths, Total, AllSend, StaticOk,
      LenLensOf;
    HeaderRoundTrip(ts.bl, ts.l.lens, ts.d.lens, ts.blcodes, inp, p);
    WholeUsable(ts.bl, CODES);
  }

  /** The number of bits of a dynamic block after its type. */
  ghost function BodyFields(st: Static, ts: Trees, toks: seq<Token>): seq<Field>
    requires StaticOk(st) && TreesOk(st, ts, toks)
  {
    HeaderFields(ts.bl, ts.l.lens, ts.d.lens, ts.blcodes) + BlockFields(st, ts.l, ts.d, toks)
  }

  lemma BodyParts(st: Static, ts: Trees, toks: seq<Token>, w: nat)
    requires StaticOk(st) && TreesOk(st, ts, toks) && Starts(w, BodyFields(st, ts, toks))
    ensures var fh, fb := HeaderFields(ts.bl, ts.l.lens, ts.d.lens, ts.blcodes), BlockFields(st, ts.l, ts.d, toks);
            && Starts(w, fh) && Starts(Shr(w, Total(fh)), fb)
              && Total(BodyFields(st, ts, toks)) == Total(fh) + Total(fb)
            && Total(fh) >= 14 + 3 * ts.blcodes
  {
    hide TreeOk, Whole, Starts, Total, AllSend, StaticOk, HeaderOk, Order, BlockFields;
    var fh, fb := HeaderFields(ts.bl, ts.l.lens, ts.d.lens, ts.blcodes), BlockFields(st, ts.l, ts.d, toks);
    HeaderFits(ts.bl, ts.l.lens, ts.d.lens, ts.blcodes);
    StartsJoin(w, fh, fb);
    TotalJoin(fh, fb);
    HeaderTotal(ts.bl, ts.l.lens, ts.d.lens, ts.blcodes);
  }

  lemma {:induction false} ItemsFit(bl: Tree, items: seq<Item>)
    requires TreeOk(bl, CODES) && CanSendItems(bl, items)
    ensures Fits(ItemsFields(bl, items))
  {
    hide TreeOk, ItemFields;
    if items != [] {
      ItemFits(bl, items[0]);
      ItemsFit(bl, items[1..]);
    }
  }

  lemma HeaderFits(bl: Tree, l: seq<nat>, d: seq<nat>, blcodes: nat)
    requires TreeOk(bl, CODES) && HeaderOk(bl, l, d, blcodes)
    ensures Fits(HeaderFields(bl, l, d, blcodes))
  {
    hide TreeOk, Items, ItemsFields, CanSendItems, Pow2, Order;
    HeaderPowers();
    ItemsFit(bl, Items(l) + Items(d));
  }

  /** Inflate reads a dynamic block back: it accepts the header, and |toks| + 1 symbols later the
      plain text is there and the block has ended. */
  method ReadBack(inp: seq<byte>, a0: Acc, ghost st: Static, ghost ts: Trees, ghost toks: seq<Token>,
                  ghost text: seq<byte>)
    returns (h: Header, a: Acc)
    requires AccOk(inp, a0) && a0.next <= |inp| && StaticOk(st) && TreesOk(st, ts, toks) && RefsOk(text, toks)
    requires Starts(Ahead(inp, Pos(a0)), BodyFields(st, ts, toks))
             && Pos(a0) + Total(BodyFields(st, ts, toks)) <= 8 * |inp|
    ensures AccOk(inp, a) && a.next <= |inp| && (a0.bits < 8 ==> a.bits < 8) && h.Ready? && BlockOk(h.b)
    ensures Run(h.b, inp, 0, State(Pos(a), text, LEN), |toks| + 1) ==
            State(Pos(a0) + Total(BodyFields(st, ts, toks)), Plain(text, toks), TYPE)
  {
    hide Low, Shr, Ahead, Holding, Sorted, Cum, Decodes, TableOk, Pow2, Acceptable, Usable, TreeOk, Whole, Starts,
      Total, AllSend, StaticOk, HeaderOk, Order, BlockFields, HeaderFields, BodyFields, NLen, NDist, NCode, ClLens,
      AllLens, Run, Plain, BlockOk;
    ghost var p, fh := Pos(a0), HeaderFields(ts.bl, ts.l.lens, ts.d.lens, ts.blcodes);
    BodyParts(st, ts, toks, Ahead(inp, p));
    SentHeader(st, ts, toks, inp, p);
    WholeUsable(ts.l, LENS);
    WholeUsable(ts.d, DISTS);
    ghost var t, root;
    h, a, t, root := ReadHeader(inp, a0);
    ghost var l, d := ts.l.lens, ts.d.lens;
    assert (l + d)[..|l|] == l && (l + d)[|l|..] == d;
    AheadShr(inp, p, Total(fh));
    BlockRoundTrip(st, h.b, ts.l, ts.d, toks, inp, p + Total(fh), text);
  }

  lemma {:induction false} BlockFits(st: Static, l: Tree, d: Tree, toks: seq<Token>)
    requires StaticOk(st) && TreeOk(l, LENS) && TreeOk(d, DISTS) && AllSend(st, l, d, toks)
    ensures Fits(BlockFields(st, l, d, toks))
    decreases |toks|
  {
    hide TreeOk, StaticOk, TokenFields, CanSend, Sent, SentCode;
    if toks == [] {
      SentFits(l, LENS, 256);
    } else {
      TokenFits(st, l, d, toks[0]);
      BlockFits(st, l, d, toks[1..]);
    }
  }

  lemma TypeBits(x: nat, kind: nat, eof: bool)
    requires kind <= 2 && Low(x, 3) == D.TypeField(kind, eof).val
    ensures Low(x, 1) == (if eof then 1 else 0) && Low(Shr(x, 1), 2) == kind
  {
    hide Shr, Low;
    var v := Low(x, 3);
    ShrLow(x, 3, 1);
    LowLow(x, 3, 1);
    LowOne(v);
    ShrOne(v);
  }

  lemma ShrOne(x: nat)
    ensures Shr(x, 1) == x / 2
  {
    assert Shr(x / 2, 0) == x / 2;
  }

  /** State TYPEDO: the last-block flag and the type of the block. */
  method ReadType(inp: seq<byte>, a0: Acc) returns (ok: bool, last: nat, kind: nat, a: Acc)
    requires AccOk(inp, a0) && a0.next <= |inp|
    ensures AccOk(inp, a) && a.next <= |inp| && (ok <==> Pos(a0) + 3 <= 8 * |inp|)
    ensures ok ==> Pos(a) == Pos(a0) + 3 && (a0.bits < 8 ==> a.bits < 8)
    ensures ok ==> last == Low(Ahead(inp, Pos(a0)), 1) && kind == Low(Shr(Ahead(inp, Pos(a0)), 1), 2)
  {
    hide Low, Shr, Ahead, Holding;
    last, kind := 0, 0;
    ok, a := NeedBits(inp, |inp|, a0, 3);
    if ok {
      AheadShr(inp, Pos(a0), 1);
      Peek(inp, a.next, a.hold, a.bits, 1);
      last := Low(a.hold, 1);
      a := DropBits(inp, a, 1);
      Peek(inp, a.next, a.hold, a.bits, 2);
      kind := Low(a.hold, 2);
      a := DropBits(inp, a, 2);
    }
  }

  lemma EmptyAcc(inp: seq<byte>)
    ensures AccOk(inp, Acc(0, 0, 0)) && Pos(Acc(0, 0, 0)) == 0 && Ahead(inp, Pos(Acc(0, 0, 0))) == Num(inp)
  {
    LowNone(Num(inp));
    ShrZero(Num(inp));
  }
}
