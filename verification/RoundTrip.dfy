/** A whole stream there and back: any number of blocks, each stored, with the fixed codes or with its own. */
module RoundTrip {
  import opened Bits
  import opened InfTable
  import opened CodeTables
  import opened InflateSpec
  import opened InflateSlow
  import S = InflateStored
  import W = Window
  import opened BitFields
  import opened CodeLengths
  import opened DeflateCodes
  import opened DeflateBlock
  import opened DeflateHeader
  import opened DynamicTrees
  import opened DynamicRoundTrip
  import opened StaticTrees
  import opened InflateBlocks
  import BW = BitWriter
  import D = Deflater
  import BC = BlockCost

  // ----- what deflate hands over

  /** The tokens of a block, its text if that is still in memory, and the compression level. */
  datatype Chunk = Chunk(toks: seq<Token>, buf: Option<seq<byte>>, storedLen: nat, level: nat)

  predicate Sizes(c: Chunk)
  {
    && BC.TokensOk(c.toks) && (c.buf.Some? ==> |c.buf.value| == c.storedLen < 65536)
    && (c.level == 0 ==> c.buf.Some?)
  }

  /** At level 0 there is only the text; else the tokens stand for it. */
  predicate ChunkOk(text: seq<byte>, c: Chunk)
  {
    && Sizes(c)
    && (c.level > 0 ==> RefsOk(text, c.toks) && (c.buf.Some? ==> Plain(text, c.toks) == text + c.buf.value))
  }

  function Meant(text: seq<byte>, c: Chunk): seq<byte>
    requires ChunkOk(text, c)
  {
    if c.level == 0 then text + c.buf.value else Plain(text, c.toks)
  }

  predicate ChunksOk(text: seq<byte>, cs: seq<Chunk>)
    decreases |cs|
  {
    cs != [] ==> ChunkOk(text, cs[0]) && ChunksOk(Meant(text, cs[0]), cs[1..])
  }

  function AllMeant(text: seq<byte>, cs: seq<Chunk>): seq<byte>
    requires ChunksOk(text, cs)
    decreases |cs|
  {
    if cs == [] then text else AllMeant(Meant(text, cs[0]), cs[1..])
  }

  // ----- what is sent

  /** The static tables and the fixed trees. */
  datatype Fixtures = Fixtures(st: Static, sl: Tree, sd: Tree)

  ghost predicate FixturesOk(x: Fixtures)
  {
    && StaticOk(x.st) && TreeOk(x.sl, LENS) && Whole(x.sl) && TreeOk(x.sd, DISTS)
    && x.sl.lens == BC.StaticLens() && x.sd.lens == Fives(30)
  }

  ghost predicate EncOk(x: Fixtures, c: Chunk, enc: D.Encoding)
  {
    && FixturesOk(x) && D.EncodingOk(x.st, x.sl, x.sd, enc, c.toks, c.buf) && (c.level == 0 ==> enc.Stored?)
  }

  ghost function Sent(x: Fixtures, c: Chunk, enc: D.Encoding, eof: bool): seq<Field>
  {
    if EncOk(x, c, enc) then D.EncFields(x.st, x.sl, x.sd, enc, c.toks, c.buf, eof) else []
  }

  /** The encodings of the blocks, sent from bit p on; a stored block is padded to a byte. */
  ghost predicate EncsOk(x: Fixtures, cs: seq<Chunk>, encs: seq<D.Encoding>, p: nat)
    decreases |cs|
  {
    && |encs| == |cs|
    && (cs != [] ==>
          && EncOk(x, cs[0], encs[0]) && (encs[0].Stored? ==> (p + 3 + encs[0].pad) % 8 == 0)
          && EncsOk(x, cs[1..], encs[1..], p + Total(Sent(x, cs[0], encs[0], |cs| == 1))))
  }

  ghost function AllSent(x: Fixtures, cs: seq<Chunk>, encs: seq<D.Encoding>): seq<Field>
    requires |cs| == |encs|
    decreases |cs|
  {
    if cs == [] then [] else Sent(x, cs[0], encs[0], |cs| == 1) + AllSent(x, cs[1..], encs[1..])
  }

  /** zlib_tr_flush_block for one block after the other. */
  method FlushAll(d: D.Deflater, cs: seq<Chunk>, ghost x: Fixtures)
    returns (ghost encs: seq<D.Encoding>, ghost pad: nat)
    requires FixturesOk(x) && d.Valid() && d.Exact() && d.st == x.st && d.sl == x.sl && d.sd == x.sd
    requires cs != [] && forall i :: 0 <= i < |cs| ==> Sizes(cs[i])
    modifies d, d.w
    ensures d.Valid() && d.w.valid == 0 && |encs| == |cs| && EncsOk(x, cs, encs, old(Total(d.w.fields)))
    ensures d.w.fields == old(d.w.fields) + AllSent(x, cs, encs) + BW.Pad(pad)
    decreases |cs|
  {
    hide FixturesOk, StaticOk, TreeOk, Total, D.EncFields, D.EncodingOk, BW.Holds, D.WellChosen, TreesOk, BW.Pad;
    var c, eof := cs[0], |cs| == 1;
    ghost var f0, p := d.w.fields, Total(d.w.fields);
    KnownFixtures(x);
    var len;
    ghost var enc, built;
    len, enc, built, pad := d.FlushBlock(c.toks, c.buf, c.storedLen, eof, c.level);
    ghost var f := D.EncFields(x.st, x.sl, x.sd, enc, c.toks, c.buf, eof);
    if eof {
      encs := [enc];
      assert cs[1..] == [] && encs[1..] == [];
      assert f0 + f + BW.Pad(pad) == f0 + (f + []) + BW.Pad(pad);
    } else {
      ghost var more;
      NoPad(f0 + f);
      TotalJoin(f0, f);
      more, pad := FlushAll(d, cs[1..], x);
      encs := [enc] + more;
      assert encs[1..] == more;
      Regroup(f0, f, AllSent(x, cs[1..], more), BW.Pad(pad));
    }
  }

  lemma KnownFixtures(x: Fixtures)
    requires FixturesOk(x)
    ensures StaticOk(x.st) && TreeOk(x.sl, LENS) && TreeOk(x.sd, DISTS)
  {
  }

  lemma NoPad(fs: seq<Field>)
    ensures fs + BW.Pad(0) == fs
  {
  }

  lemma Regroup(a: seq<Field>, b: seq<Field>, c: seq<Field>, d: seq<Field>)
    ensures a + b + c + d == a + (b + c) + d
  {
  }

  // ----- where it is in the bytes

  /** The blocks are in the input from bit p on. */
  ghost predicate Found(inp: seq<byte>, x: Fixtures, cs: seq<Chunk>, encs: seq<D.Encoding>, p: nat)
    requires |cs| == |encs|
    decreases |cs|
  {
    cs != [] ==>
      var f := Sent(x, cs[0], encs[0], |cs| == 1);
      && Starts(Ahead(inp, p), f) && Fits(f) && p + Total(f) <= 8 * |inp|
      && Found(inp, x, cs[1..], encs[1..], p + Total(f))
  }

  lemma FitsPart(a: seq<Field>, b: seq<Field>)
    requires Fits(a + b)
    ensures Fits(a) && Fits(b)
  {
    hide Pow2;
    forall i | 0 <= i < |a| ensures a[i].val < Pow2(a[i].len) { assert (a + b)[i] == a[i]; }
    forall i | 0 <= i < |b| ensures b[i].val < Pow2(b[i].len) { assert (a + b)[|a| + i] == b[i]; }
  }

  lemma {:induction false} AllFound(inp: seq<byte>, x: Fixtures, cs: seq<Chunk>, encs: seq<D.Encoding>, p: nat)
    requires EncsOk(x, cs, encs, p)
    requires var all := AllSent(x, cs, encs);
             Fits(all) && Starts(Ahead(inp, p), all) && p + Total(all) <= 8 * |inp|
    ensures Found(inp, x, cs, encs, p)
    decreases |cs|
  {
    hide Sent, EncOk, Starts, Total, Fits, Ahead;
    if cs != [] {
      var f := Sent(x, cs[0], encs[0], |cs| == 1);
      var more := AllSent(x, cs[1..], encs[1..]);
      FitsPart(f, more);
      StartsJoin(Ahead(inp, p), f, more);
      TotalJoin(f, more);
      AheadShr(inp, p, Total(f));
      AllFound(inp, x, cs[1..], encs[1..], p + Total(f));
    }
  }

  /** The fields of a stream are what its bytes start with. */
  lemma BytesStart(bytes: seq<byte>, all: seq<Field>, pad: nat)
    requires Fits(all) && Num(bytes) == Value(all + BW.Pad(pad)) && 8 * |bytes| == Total(all + BW.Pad(pad))
    ensures Starts(Ahead(bytes, 0), all) && Total(all) <= 8 * |bytes|
  {
    hide Low, Shr, Num, Value, Total, Fits, BW.Pad, Starts;
    var none: seq<Field> := [];
    assert none + (all + BW.Pad(pad)) == all + BW.Pad(pad);
    NoFields();
    StartsSent(none, all, BW.Pad(pad));
    TotalJoin(all, BW.Pad(pad));
  }

  lemma NoFields()
    ensures Fits([]) && Total([]) == 0
  {
  }

  // ----- reading one block

  /** The type of the block at p, and the fields after it. */
  lemma TypeAt(x: nat, f: Field, rest: seq<Field>, kind: nat, eof: bool)
    requires kind <= 2 && f == D.TypeField(kind, eof) && Starts(x, [f] + rest)
    ensures Low(x, 1) == (if eof then 1 else 0) && Low(Shr(x, 1), 2) == kind && Starts(Shr(x, 3), rest)
    ensures Total([f] + rest) == 3 + Total(rest)
  {
    hide Low, Shr, Starts, Total;
    D.ThreeBits(kind, eof);
    StartsJoin(x, [f], rest);
    StartsOne(x, f);
    TotalOne(f);
    TotalJoin([f], rest);
    TypeBits(x, kind, eof);
  }

  function Kind(enc: D.Encoding): nat
  {
    match enc
    case Stored(_) => D.STORED_BLOCK
    case Fixed => D.STATIC_TREES
    case Dynamic(_) => D.DYN_TREES
  }

  /** A stored block after its type. */
  function StoredBody(pad: nat, buf: seq<byte>): seq<Field>
    requires |buf| < 65536
  {
    BW.Pad(pad) + ([Field(|buf|, 16)] + ([Field(65535 - |buf|, 16)] + BW.ByteFields(buf)))
  }

  ghost function Body(x: Fixtures, c: Chunk, enc: D.Encoding): seq<Field>
    requires EncOk(x, c, enc)
  {
    match enc
    case Stored(pad) => StoredBody(pad, c.buf.value)
    case Fixed => BlockFields(x.st, x.sl, x.sd, c.toks)
    case Dynamic(ts) => BodyFields(x.st, ts, c.toks)
  }

  lemma SentIs(x: Fixtures, c: Chunk, enc: D.Encoding, eof: bool)
    requires EncOk(x, c, enc)
    ensures Sent(x, c, enc, eof) == [D.TypeField(Kind(enc), eof)] + Body(x, c, enc)
  {
    hide FixturesOk, StaticOk, TreeOk, TreesOk, AllSend, BlockFields, HeaderFields, BW.Pad;
    if enc.Stored? {
      var b := c.buf.value;
      StoredIs([D.TypeField(D.STORED_BLOCK, eof)], BW.Pad(enc.pad), Field(|b|, 16), Field(65535 - |b|, 16),
        BW.ByteFields(b));
    }
  }

  lemma StoredIs(t: seq<Field>, pad: seq<Field>, f: Field, g: Field, bs: seq<Field>)
    ensures t + pad + [f, g] + bs == t + (pad + ([f] + ([g] + bs)))
  {
  }

  lemma {:induction false} BytesAt(inp: seq<byte>, k: nat, buf: seq<byte>)
    requires Starts(Ahead(inp, 8 * k), BW.ByteFields(buf)) && k + |buf| <= |inp|
    ensures inp[k..k + |buf|] == buf
    decreases |buf|
  {
    hide Starts, Ahead, Low;
    if buf != [] {
      var f, rest := Field(buf[0], 8), buf[1..];
      assert BW.ByteFields(buf) == [f] + BW.ByteFields(rest);
      ByteFits(buf[0]);
      StartsJoin(Ahead(inp, 8 * k), [f], BW.ByteFields(rest));
      StartsOne(Ahead(inp, 8 * k), f);
      TotalOne(f);
      AheadShr(inp, 8 * k, 8);
      ByteIs(inp, k);
      BytesAt(inp, k + 1, rest);
      assert inp[k..k + |buf|] == [inp[k]] + inp[k + 1..k + 1 + |rest|];
      assert buf == [buf[0]] + rest;
    }
  }

  lemma ByteFits(b: byte)
    ensures Fits([Field(b, 8)])
  {
    EightBits();
  }

  lemma ByteIs(inp: seq<byte>, k: nat)
    requires k < |inp|
    ensures Low(Ahead(inp, 8 * k), 8) == inp[k]
  {
    hide Low, Shr, Num;
    NumByte(inp, k);
  }

  /** Two 16-bit fields are what the lengths of a stored block are read from. */
  lemma LengthsAt(x: nat, n: nat, rest: seq<Field>)
    requires n < 65536 && Starts(x, [Field(n, 16)] + ([Field(65535 - n, 16)] + rest))
    ensures Low(x, 16) == n && Low(Shr(x, 16), 16) == 65535 - n && Starts(Shr(Shr(x, 16), 16), rest)
    ensures Total([Field(n, 16)] + ([Field(65535 - n, 16)] + rest)) == 32 + Total(rest)
  {
    hide Starts, Low, Shr, Total;
    SixteenBits();
    var f, g := Field(n, 16), Field(65535 - n, 16);
    StartsJoin(x, [f], [g] + rest);
    StartsOne(x, f);
    TotalOne(f);
    StartsJoin(Shr(x, 16), [g], rest);
    StartsOne(Shr(x, 16), g);
    TotalOne(g);
    TotalJoin([f], [g] + rest);
    TotalJoin([g], rest);
  }

  lemma StoredAt(inp: seq<byte>, p: nat, pad: nat, buf: seq<byte>)
    requires |buf| < 65536 && pad < 8 && (p + pad) % 8 == 0
    requires Starts(Ahead(inp, p), StoredBody(pad, buf)) && p + Total(StoredBody(pad, buf)) <= 8 * |inp|
    ensures var q := S.Byte(p);
            && p + Total(StoredBody(pad, buf)) == 8 * (q + 4 + |buf|) && S.Agree(inp, q) && S.Size(inp, q) == |buf|
            && q + 4 + |buf| <= |inp| && inp[q + 4..q + 4 + |buf|] == buf
  {
    hide Starts, Low, Shr, Total, Ahead, BW.Pad;
    var n, bytes := |buf|, BW.ByteFields(buf);
    var rest := [Field(n, 16)] + ([Field(65535 - n, 16)] + bytes);
    var q := (p + pad) / 8;
    assert S.Byte(p) == q && 8 * q == p + pad;
    PadFits(pad);
    D.PadTotal(pad);
    StartsJoin(Ahead(inp, p), BW.Pad(pad), rest);
    TotalJoin(BW.Pad(pad), rest);
    AheadShr(inp, p, pad);
    LengthsAt(Ahead(inp, 8 * q), n, bytes);
    D.BytesTotal(bytes);
    AheadShr(inp, 8 * q, 16);
    AheadShr(inp, 8 * q + 16, 16);
    BytesAt(inp, q + 4, buf);
  }

  lemma PadFits(pad: nat)
    ensures Fits(BW.Pad(pad))
  {
    PowPositive(pad);
  }

  lemma {:induction false} PowPositive(n: nat)
    ensures Pow2(n) >= 1
  {
    if n > 0 { PowPositive(n - 1); }
  }

  // ----- the text grows

  lemma {:induction false} PlainGrows(text: seq<byte>, toks: seq<Token>)
    requires RefsOk(text, toks)
    ensures |text| <= |Plain(text, toks)|
    decreases |toks|
  {
    if toks != [] { PlainGrows(PlainOne(text, toks[0]), toks[1..]); }
  }

  lemma {:induction false} MeantGrows(text: seq<byte>, cs: seq<Chunk>)
    requires ChunksOk(text, cs)
    ensures |text| <= |AllMeant(text, cs)|
    decreases |cs|
  {
    hide Plain, RefsOk;
    if cs != [] {
      MeantGrows(Meant(text, cs[0]), cs[1..]);
      if cs[0].level > 0 { PlainGrows(text, cs[0].toks); }
    }
  }

  // ----- one block

  /** The block at the position of the accumulator, and the room for it. */
  ghost predicate BlockHere(inp: seq<byte>, a: Acc, w: W.Window, out: seq<byte>, room: nat, x: Fixtures, c: Chunk,
                            enc: D.Encoding)
    requires EncOk(x, c, enc)
    reads w, w.window
  {
    && w.Valid() && w.have == |w.hist| && AccOk(inp, a) && a.bits < 8 && a.next <= |inp| && |out| <= room
    && ChunkOk(w.hist + out, c) && |Meant(w.hist + out, c)| <= |w.hist| + room
    && (enc.Stored? ==> (Pos(a) + enc.pad) % 8 == 0)
    && Starts(Ahead(inp, Pos(a)), Body(x, c, enc)) && Pos(a) + Total(Body(x, c, enc)) <= 8 * |inp|
  }

  lemma StoredHere(inp: seq<byte>, a: Acc, w: W.Window, out: seq<byte>, room: nat, x: Fixtures, c: Chunk,
                   enc: D.Encoding)
    requires EncOk(x, c, enc) && enc.Stored? && BlockHere(inp, a, w, out, room, x, c, enc)
    ensures c.buf.Some? && w.hist + (out + c.buf.value) == Meant(w.hist + out, c)
    ensures var q, n := S.Byte(Pos(a)), |c.buf.value|;
            && Pos(a) + Total(Body(x, c, enc)) == 8 * (q + 4 + n) && S.Agree(inp, q) && S.Size(inp, q) == n
            && q + 4 + n <= |inp| && inp[q + 4..q + 4 + n] == c.buf.value && |out| + n <= room
  {
    hide FixturesOk, Starts, Low, Shr, Total, Ahead, BW.Pad, Holding, W.Holds, S.Byte, S.Size, S.Agree, StoredBody,
      RefsOk, Plain, BC.TokensOk;
    var b := c.buf.value;
    StoredAt(inp, Pos(a), enc.pad, b);
    assert w.hist + (out + b) == w.hist + out + b;
    assert |w.hist + out + b| == |w.hist| + |out| + |b|;
  }

  method StoredOne(inp: seq<byte>, a0: Acc, w: W.Window, out0: seq<byte>, room: nat, ghost x: Fixtures, ghost c: Chunk,
                   ghost enc: D.Encoding)
    returns (out: seq<byte>, a: Acc)
    requires EncOk(x, c, enc) && enc.Stored? && BlockHere(inp, a0, w, out0, room, x, c, enc)
    ensures AccOk(inp, a) && a.bits < 8 && a.next <= |inp| && |out| <= room
    ensures w.hist + out == Meant(w.hist + out0, c) && Pos(a) == Pos(a0) + Total(Body(x, c, enc))
  {
    hide EncOk, Body, Starts, Total, Ahead, Holding, W.Holds, S.Byte, S.Size, S.Agree, Meant, ChunkOk;
    StoredHere(inp, a0, w, out0, room, x, c, enc);
    var outcome;
    outcome, out, a := S.Stored(inp, |inp|, a0, out0, room);
  }

  method CodedOne(b: Block, inp: seq<byte>, a0: Acc, w: W.Window, out0: seq<byte>, room: nat, ghost n: nat,
                  ghost text: seq<byte>, ghost end: nat)
    returns (out: seq<byte>, a: Acc)
    requires BlockOk(b) && w.Valid() && w.have == |w.hist| && AccOk(inp, a0) && a0.bits < 8 && a0.next <= |inp|
    requires |out0| <= room && end <= 8 * |inp| && |text| <= |w.hist| + room
    requires Run(b, inp, 0, State(Pos(a0), w.hist + out0, LEN), n) == State(end, text, TYPE)
    ensures AccOk(inp, a) && a.bits < 8 && a.next <= |inp| && |out| <= room && w.hist + out == text && Pos(a) == end
  {
    hide BlockOk, Run, W.Holds, Holding;
    var ended;
    ended, out, a := InflateBlock(b, inp, a0, w, out0, room, n);
  }

  method FixedOne(inp: seq<byte>, a0: Acc, w: W.Window, out0: seq<byte>, room: nat, ghost x: Fixtures, ghost c: Chunk,
                  ghost enc: D.Encoding)
    returns (out: seq<byte>, a: Acc)
    requires EncOk(x, c, enc) && enc.Fixed? && BlockHere(inp, a0, w, out0, room, x, c, enc)
    ensures AccOk(inp, a) && a.bits < 8 && a.next <= |inp| && |out| <= room
    ensures w.hist + out == Meant(w.hist + out0, c) && Pos(a) == Pos(a0) + Total(Body(x, c, enc))
  {
    hide Starts, Total, Ahead, Holding, W.Holds, RefsOk, Plain, BC.TokensOk, StaticOk, TreeOk, Whole, BlockOk, FixedOk,
      Decodes, Run, AllSend, BlockFields, BC.StaticLens, Fives;
    var b := FixedTables(x.sl);
    FixedReads(b, x.sl, x.sd);
    BlockRoundTrip(x.st, b, x.sl, x.sd, c.toks, inp, Pos(a0), w.hist + out0);
    ReadsOk(b, x.sl, x.sd);
    out, a := CodedOne(b, inp, a0, w, out0, room, |c.toks| + 1, Meant(w.hist + out0, c),
      Pos(a0) + Total(Body(x, c, enc)));
  }

  lemma ReadsOk(b: Block, l: Tree, d: Tree)
    requires Reads(b, l, d)
    ensures BlockOk(b)
  {
  }

  method DynamicOne(inp: seq<byte>, a0: Acc, w: W.Window, out0: seq<byte>, room: nat, ghost x: Fixtures, ghost c: Chunk,
                    ghost enc: D.Encoding)
    returns (out: seq<byte>, a: Acc)
    requires EncOk(x, c, enc) && enc.Dynamic? && BlockHere(inp, a0, w, out0, room, x, c, enc)
    ensures AccOk(inp, a) && a.bits < 8 && a.next <= |inp| && |out| <= room
    ensures w.hist + out == Meant(w.hist + out0, c) && Pos(a) == Pos(a0) + Total(Body(x, c, enc))
  {
    hide Starts, Total, Ahead, Holding, W.Holds, RefsOk, Plain, BC.TokensOk, StaticOk, TreeOk, Whole, BlockOk, TreesOk,
      Run, BodyFields;
    var h;
    h, a := ReadBack(inp, a0, x.st, enc.ts, c.toks, w.hist + out0);
    out, a := CodedOne(h.b, inp, a, w, out0, room, |c.toks| + 1, Meant(w.hist + out0, c),
      Pos(a0) + Total(Body(x, c, enc)));
  }

  /** The states TYPE, then STORED and COPY, or the fixed tables, or the header of a block, and its symbols. */
  method OneBlock(inp: seq<byte>, a0: Acc, w: W.Window, out0: seq<byte>, room: nat, ghost x: Fixtures, ghost c: Chunk,
                  ghost enc: D.Encoding, ghost eof: bool)
    returns (last: bool, out: seq<byte>, a: Acc)
    requires EncOk(x, c, enc) && w.Valid() && w.have == |w.hist|
    requires AccOk(inp, a0) && a0.bits < 8 && a0.next <= |inp| && |out0| <= room
    requires ChunkOk(w.hist + out0, c) && |Meant(w.hist + out0, c)| <= |w.hist| + room
    requires enc.Stored? ==> (Pos(a0) + 3 + enc.pad) % 8 == 0
    requires var f := Sent(x, c, enc, eof); Starts(Ahead(inp, Pos(a0)), f) && Pos(a0) + Total(f) <= 8 * |inp|
    ensures AccOk(inp, a) && a.bits < 8 && a.next <= |inp| && |out| <= room && last == eof
    ensures w.hist + out == Meant(w.hist + out0, c) && Pos(a) == Pos(a0) + Total(Sent(x, c, enc, eof))
  {
    hide FixturesOk, EncOk, Sent, Body, Starts, Low, Shr, Total, Ahead, Holding, W.Holds, ChunkOk, Meant;
    SentIs(x, c, enc, eof);
    ghost var f := D.TypeField(Kind(enc), eof);
    TypeAt(Ahead(inp, Pos(a0)), f, Body(x, c, enc), Kind(enc), eof);
    AheadShr(inp, Pos(a0), 3);
    var ok, bit, kind;
    ok, bit, kind, a := ReadType(inp, a0);
    last := bit == 1;
    if kind == D.STORED_BLOCK {
      out, a := StoredOne(inp, a, w, out0, room, x, c, enc);
    } else if kind == D.STATIC_TREES {
      out, a := FixedOne(inp, a, w, out0, room, x, c, enc);
    } else {
      out, a := DynamicOne(inp, a, w, out0, room, x, c, enc);
    }
  }

  // ----- the stream

  /** The blocks are ahead in the input, and will make the text so far into the goal, for which there is room. */
  ghost predicate Rest(inp: seq<byte>, p: nat, text: seq<byte>, x: Fixtures, cs: seq<Chunk>, encs: seq<D.Encoding>,
                       goal: seq<byte>, room: nat)
  {
    && EncsOk(x, cs, encs, p) && Found(inp, x, cs, encs, p)
    && ChunksOk(text, cs) && AllMeant(text, cs) == goal && |goal| <= room
  }

  lemma NextRest(inp: seq<byte>, p: nat, text: seq<byte>, x: Fixtures, cs: seq<Chunk>, encs: seq<D.Encoding>,
                 goal: seq<byte>, room: nat)
    requires Rest(inp, p, text, x, cs, encs, goal, room) && cs != []
    ensures |encs| == |cs| && EncOk(x, cs[0], encs[0]) && (encs[0].Stored? ==> (p + 3 + encs[0].pad) % 8 == 0)
    ensures ChunkOk(text, cs[0]) && |text| <= room && |Meant(text, cs[0])| <= room
    ensures var f := Sent(x, cs[0], encs[0], |cs| == 1);
            && Starts(Ahead(inp, p), f) && p + Total(f) <= 8 * |inp|
            && Rest(inp, p + Total(f), Meant(text, cs[0]), x, cs[1..], encs[1..], goal, room)
  {
    hide EncOk, Sent, Starts, Total, Fits, Ahead, ChunkOk, Meant;
    MeantGrows(text, cs);
    MeantGrows(Meant(text, cs[0]), cs[1..]);
  }

  /** A call that started with nothing in the window is between two blocks. */
  ghost predicate Between(inp: seq<byte>, a: Acc, w: W.Window, out: seq<byte>, room: nat, x: Fixtures, cs: seq<Chunk>,
                          encs: seq<D.Encoding>, goal: seq<byte>)
    reads w, w.window
  {
    && w.Valid() && w.hist == [] && w.have == 0 && AccOk(inp, a) && a.bits < 8 && a.next <= |inp|
    && Rest(inp, Pos(a), out, x, cs, encs, goal, room)
  }

  method NextBlock(inp: seq<byte>, a0: Acc, w: W.Window, out0: seq<byte>, room: nat, ghost x: Fixtures,
                   ghost cs: seq<Chunk>, ghost encs: seq<D.Encoding>, ghost goal: seq<byte>)
    returns (last: bool, out: seq<byte>, a: Acc)
    requires cs != [] && Between(inp, a0, w, out0, room, x, cs, encs, goal)
    ensures |encs| == |cs| && Between(inp, a, w, out, room, x, cs[1..], encs[1..], goal) && (last <==> |cs| == 1)
  {
    hide Rest, EncOk, Sent, Starts, Total, Ahead, Holding, W.Holds, ChunkOk, Meant;
    assert w.hist + out0 == out0;
    NextRest(inp, Pos(a0), out0, x, cs, encs, goal, room);
    last, out, a := OneBlock(inp, a0, w, out0, room, x, cs[0], encs[0], |cs| == 1);
    assert w.hist + out == out;
  }

  lemma AtStart(inp: seq<byte>, w: W.Window, room: nat, x: Fixtures, cs: seq<Chunk>, encs: seq<D.Encoding>,
                goal: seq<byte>)
    requires w.Valid() && w.hist == [] && w.have == 0 && Rest(inp, 0, [], x, cs, encs, goal, room)
    ensures Between(inp, Acc(0, 0, 0), w, [], room, x, cs, encs, goal)
  {
    hide Rest, Ahead, Holding, W.Holds;
    EmptyAcc(inp);
  }

  lemma AtEnd(inp: seq<byte>, a: Acc, w: W.Window, out: seq<byte>, room: nat, x: Fixtures, cs: seq<Chunk>,
              encs: seq<D.Encoding>, goal: seq<byte>)
    requires Between(inp, a, w, out, room, x, cs, encs, goal) && |cs| == 0
    ensures out == goal
  {
    hide W.Holds;
    assert cs == [];
  }

  /** One call of inflate with all the input and room for all the text. */
  method InflateAll(inp: seq<byte>, size: nat, room: nat, ghost x: Fixtures, ghost cs: seq<Chunk>,
                    ghost encs: seq<D.Encoding>, ghost goal: seq<byte>)
    returns (out: seq<byte>)
    requires size > 0 && cs != [] && Rest(inp, 0, [], x, cs, encs, goal, room)
    ensures out == goal
  {
    hide *;
    var w := new W.Window(size);
    var a, last := Acc(0, 0, 0), false;
    out := [];
    AtStart(inp, w, room, x, cs, encs, goal);
    ghost var more, codes := cs, encs;
    while !last
      invariant Between(inp, a, w, out, room, x, more, codes, goal) && (last <==> |more| == 0)
      decreases |more|
    {
      last, out, a := NextBlock(inp, a, w, out, room, x, more, codes, goal);
      more, codes := more[1..], codes[1..];
    }
    AtEnd(inp, a, w, out, room, x, more, codes, goal);
  }

  /** Any sequence of blocks from tokens to bytes, each in the smallest of its encodings, and back. */
  method RoundTrip(cs: seq<Chunk>, size: nat, room: nat) returns (bytes: seq<byte>, out: seq<byte>)
    requires cs != [] && size > 0 && ChunksOk([], cs) && room >= |AllMeant([], cs)|
    ensures out == AllMeant([], cs)
  {
    hide FixturesOk, EncsOk, AllSent, Starts, Total, Value, Num, Fits, Ahead, BW.Pad, BW.Holds, AllMeant, StaticOk,
      TreeOk, Whole, Found;
    var st := StaticInit();
    var sl := StaticLTree();
    var sd := StaticDTree();
    ghost var x := Fixtures(st, sl, sd);
    FixturesAre(x);
    AllSizes([], cs);
    var d := new D.Deflater(st, sl, sd);
    ghost var encs, pad;
    NoFields();
    encs, pad := FlushAll(d, cs, x);
    bytes := d.w.pending;
    ghost var all := AllSent(x, cs, encs);
    WrittenBytes(d, all, pad);
    BytesStart(bytes, all, pad);
    AllFound(bytes, x, cs, encs, 0);
    out := InflateAll(bytes, size, room, x, cs, encs, AllMeant([], cs));
  }

  lemma FixturesAre(x: Fixtures)
    requires StaticOk(x.st) && TreeOk(x.sl, LENS) && Whole(x.sl) && TreeOk(x.sd, DISTS)
    requires x.sl.lens == BC.StaticLens() && x.sd.lens == Fives(30)
    ensures FixturesOk(x)
  {
  }

  lemma {:induction false} AllSizes(text: seq<byte>, cs: seq<Chunk>)
    requires ChunksOk(text, cs)
    ensures forall i :: 0 <= i < |cs| ==> Sizes(cs[i])
    decreases |cs|
  {
    hide Sizes, Plain, RefsOk;
    if cs != [] {
      AllSizes(Meant(text, cs[0]), cs[1..]);
      forall i | 0 <= i < |cs| ensures Sizes(cs[i]) { if i > 0 { assert cs[i] == cs[1..][i - 1]; } }
    }
  }

  lemma WrittenBytes(d: D.Deflater, all: seq<Field>, pad: nat)
    requires d.Valid() && d.w.valid == 0 && d.w.fields == [] + all + BW.Pad(pad)
    ensures Num(d.w.pending) == Value(all + BW.Pad(pad)) && 8 * |d.w.pending| == Total(all + BW.Pad(pad)) && Fits(all)
  {
    hide TreeOk, StaticOk, Num, Value, Total, BW.Pad, Fits, BW.Holds, Pow2;
    var fs := all + BW.Pad(pad);
    assert [] + all + BW.Pad(pad) == fs;
    NothingOpen(d.w.pending, d.w.buf, fs);
    FitsPart(all, BW.Pad(pad));
  }

  lemma NothingOpen(pending: seq<byte>, buf: nat, fs: seq<Field>)
    requires BW.Holds(pending, buf, 0, fs) && buf < Pow2(0)
    ensures Num(pending) == Value(fs) && 8 * |pending| == Total(fs)
  {
    hide Num, Value, Total;
    assert Pow2(0) == 1;
  }
}
