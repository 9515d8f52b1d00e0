/** Sending blocks: zlib_tr_flush_block and its relatives, with the count of the bits sent. */
module Deflater {
  import opened Bits
  import opened InflateHeader
  import opened CodeTables
  import opened BitFields
  import opened CodeLengths
  import opened DeflateCodes
  import opened DeflateBlock
  import opened DeflateHeader
  import opened BlockCost
  import opened DynamicTrees
  import opened StaticTrees
  import BW = BitWriter

  const STORED_BLOCK := 0
  const STATIC_TREES := 1
  const DYN_TREES := 2

  /** The three bits that start a block. */
  function TypeField(kind: nat, eof: bool): Field
  {
    Field(2 * kind + if eof then 1 else 0, 3)
  }

  function RoundUp(n: int): int
  {
    (n + 7) / 8 * 8
  }

  /** A stored block: the type, padding, the length and its complement, the bytes. */
  function StoredFields(eof: bool, pad: nat, buf: seq<byte>): seq<Field>
    requires |buf| < 65536
  {
    [TypeField(STORED_BLOCK, eof)] + BW.Pad(pad) + [Field(|buf|, 16), Field(65535 - |buf|, 16)] + BW.ByteFields(buf)
  }

  lemma {:induction false} BytesTotal(fs: seq<Field>)
    requires forall i :: 0 <= i < |fs| ==> fs[i].len == 8
    ensures Total(fs) == 8 * |fs|
  {
    if fs != [] { BytesTotal(fs[1..]); }
  }

  lemma PadTotal(n: nat)
    ensures Total(BW.Pad(n)) == n
  {
    if n == 0 { NoTotal(); } else { TotalOne(Field(0, n)); }
  }

  lemma ThreeBits(kind: nat, eof: bool)
    requires kind <= 2
    ensures TypeField(kind, eof).val < Pow2(3)
  {
    assert Pow2(3) == 8;
  }

  /** Rounding up to bytes is the same wherever the whole bytes are counted from. */
  lemma RoundIs(n: int, pad: nat)
    requires pad < 8 && (n + pad) % 8 == 0
    ensures RoundUp(n) == n + pad
  {
  }

  class Deflater {
    const w: BW.BitWriter
    const st: Static
    const sl: Tree
    const sd: Tree
    var compressedLen: int
    var lastEobLen: nat

    ghost predicate Valid()
      reads this, w
    {
      && w.Valid() && StaticOk(st) && TreeOk(sl, LENS) && TreeOk(sd, DISTS)
      && sl.lens == StaticLens() && sd.lens == Fives(30)
    }

    /** The count agrees with what was sent. */
    ghost predicate Exact()
      reads this, w
    {
      compressedLen == Total(w.fields)
    }

    constructor (st0: Static, sl0: Tree, sd0: Tree)
      requires StaticOk(st0) && TreeOk(sl0, LENS) && TreeOk(sd0, DISTS) && sl0.lens == StaticLens()
               && sd0.lens == Fives(30)
      ensures Valid() && Exact() && fresh(w) && w.fields == [] && st == st0 && sl == sl0 && sd == sd0
    {
      st, sl, sd := st0, sl0, sd0;
      w := new BW.BitWriter();
      compressedLen, lastEobLen := 0, 8;
    }

    /** zlib_tr_stored_block. */
    method StoredBlock(buf: seq<byte>, eof: bool) returns (ghost pad: nat)
      requires Valid() && |buf| < 65536
      modifies this, w
      ensures Valid() && pad < 8 && w.fields == old(w.fields) + StoredFields(eof, pad, buf)
      ensures (old(Total(w.fields)) + 3 + pad) % 8 == 0
      ensures old(Exact()) ==> Exact()
    {
      hide Pow2, Total, TreeOk, StaticOk, BW.Holds;
      ThreeBits(STORED_BLOCK, eof);
      ghost var f0, f1 := w.fields, TypeField(STORED_BLOCK, eof);
      w.SendBits(2 * STORED_BLOCK + (if eof then 1 else 0), 3);
      compressedLen := RoundUp(compressedLen + 3);
      compressedLen := compressedLen + (|buf| + 4) * 8;
      lastEobLen := 8;
      pad := CopyBlock(w, buf);
      TotalOne(f1);
      TotalJoin(f0, [f1]);
      assert w.fields == f0 + StoredFields(eof, pad, buf);
    }

    /** zlib_tr_stored_type_only, which rounds the count down where the bits are rounded up. */
    method StoredTypeOnly()
      requires Valid()
      modifies this, w
      ensures Valid() && Total(w.fields) == RoundUp(old(Total(w.fields)) + 3)
      ensures compressedLen == (old(compressedLen) + 3) / 8 * 8
      ensures old(Exact()) ==> (Exact() <==> (old(compressedLen) + 3) % 8 == 0)
    {
      hide Pow2, Total, TreeOk, StaticOk, BW.Holds;
      ThreeBits(STORED_BLOCK, false);
      ghost var f0, f1 := w.fields, TypeField(STORED_BLOCK, false);
      w.SendBits(2 * STORED_BLOCK, 3);
      TotalOne(f1);
      TotalJoin(f0, [f1]);
      ghost var pad := w.Windup();
      PadTotal(pad);
      TotalJoin(f0 + [f1], BW.Pad(pad));
      RoundIs(Total(f0 + [f1]), pad);
      compressedLen := (compressedLen + 3) / 8 * 8;
    }

    /** A block with the fixed codes. */
    method StaticBlock(toks: seq<Token>, eof: bool, staticLen: int)
      requires Valid() && TokensOk(toks) && staticLen == StaticSize(st, toks)
      modifies this, w
      ensures Valid()
      ensures (StaticSends(st, sl, sd, toks); w.fields == old(w.fields) + StaticFields(st, sl, sd, toks, eof))
      ensures old(Exact()) ==> Exact()
    {
      hide Pow2, Total, TreeOk, StaticOk, BW.Holds, BlockFields, AllSend, StaticSize;
      ThreeBits(STATIC_TREES, eof);
      StaticSends(st, sl, sd, toks);
      ghost var f0, f1, fb := w.fields, TypeField(STATIC_TREES, eof), BlockFields(st, sl, sd, toks);
      w.SendBits(2 * STATIC_TREES + (if eof then 1 else 0), 3);
      CompressBlock(w, st, sl, sd, toks);
      lastEobLen := sl.lens[256];
      compressedLen := compressedLen + 3 + staticLen;
      assert w.fields == f0 + ([f1] + fb);
      TotalOne(f1);
      TotalJoin(f0, [f1] + fb);
      TotalJoin([f1], fb);
    }

    /** A block with its own codes. */
    method DynamicBlock(ts: Trees, toks: seq<Token>, eof: bool, optLen: int)
      requires Valid() && TreesOk(st, ts, toks)
      requires optLen == Total(HeaderFields(ts.bl, ts.l.lens, ts.d.lens, ts.blcodes))
               + Total(BlockFields(st, ts.l, ts.d, toks))
      modifies this, w
      ensures Valid() && w.fields == old(w.fields) + DynamicFields(st, ts, toks, eof)
      ensures old(Exact()) ==> Exact()
    {
      hide Pow2, Total, TreeOk, StaticOk, BW.Holds, BlockFields, HeaderFields, AllSend, HeaderOk, Whole, Order;
      ThreeBits(DYN_TREES, eof);
      ghost var f0, f1 := w.fields, TypeField(DYN_TREES, eof);
      ghost var fh, fb := HeaderFields(ts.bl, ts.l.lens, ts.d.lens, ts.blcodes), BlockFields(st, ts.l, ts.d, toks);
      w.SendBits(2 * DYN_TREES + (if eof then 1 else 0), 3);
      SendAllTrees(w, ts.bl, ts.l.lens, ts.d.lens, ts.blcodes);
      CompressBlock(w, st, ts.l, ts.d, toks);
      EndHasCode(st, ts, toks);
      lastEobLen := ts.l.lens[256];
      compressedLen := compressedLen + 3 + optLen;
      assert w.fields == f0 + ([f1] + (fh + fb));
      TotalOne(f1);
      TotalJoin(f0, [f1] + (fh + fb));
      TotalJoin([f1], fh + fb);
      TotalJoin(fh, fb);
    }

    /** The end of zlib_tr_flush_block. */
    method Finish(eof: bool) returns (bytes: int, ghost pad: nat)
      requires Valid() && Exact()
      modifies this, w
      ensures Valid() && (!eof ==> Exact() && pad == 0) && bytes == compressedLen / 8
      ensures eof ==> bytes == |w.pending| && w.valid == 0
      ensures pad < 8 && w.fields == old(w.fields) + BW.Pad(pad)
    {
      hide Pow2, Total, TreeOk, StaticOk, BW.Holds;
      pad := 0;
      ghost var f0 := w.fields;
      if eof {
        pad := w.Windup();
        PadTotal(pad);
        TotalJoin(f0, BW.Pad(pad));
        RoundIs(Total(f0), pad);
        compressedLen := compressedLen + 7;
      } else {
        assert f0 + BW.Pad(0) == f0;
      }
      bytes := compressedLen / 8;
    }

    /** The trees for a block, and the bytes that it takes at best with codes and with the fixed codes; at
        level 0 there are none. */
    method Plan(toks: seq<Token>, storedLen: nat, level: nat)
      returns (ts: Trees, opt: int, stat: int, optLenb: int, staticLenb: int)
      requires Valid() && TokensOk(toks)
      ensures level == 0 ==> optLenb == staticLenb == storedLen + 5
      ensures level > 0 ==>
                && TreesOk(st, ts, toks) && Minimal(st, ts, toks) && stat == StaticSize(st, toks)
                && opt == Total(HeaderFields(ts.bl, ts.l.lens, ts.d.lens, ts.blcodes))
                          + Total(BlockFields(st, ts.l, ts.d, toks))
                && staticLenb == Bytes(stat) && optLenb == if staticLenb <= Bytes(opt) then staticLenb else Bytes(opt)
    {
      hide Pow2, Total, TreeOk, StaticOk, BW.Holds, BlockFields, HeaderFields, AllSend, HeaderOk, Whole, Order,
        StaticSize, TreesOk, Minimal;
      optLenb, staticLenb, opt, stat := storedLen + 5, storedLen + 5, 0, 0;
      ts := Trees(sl, sd, sl, 0);
      if level > 0 {
        var lf, df := BlockCost.Tally(st, toks);
        ts, opt, stat := BuildTrees(st, toks, lf, df);
        optLenb, staticLenb := (opt + 3 + 7) / 8, (stat + 3 + 7) / 8;
        if staticLenb <= optLenb { optLenb := staticLenb; }
      }
    }

    /** Sends the block in one of the three encodings, by their sizes in bytes. */
    method SendBlock(toks: seq<Token>, buf: Option<seq<byte>>, storedLen: nat, eof: bool, ts: Trees, opt: int,
                     stat: int, optLenb: int, staticLenb: int)
      returns (ghost enc: Encoding)
      requires Valid() && Exact() && TokensOk(toks) && (buf.Some? ==> |buf.value| == storedLen < 65536)
      requires if storedLen + 4 <= optLenb && buf.Some? then true
               else if staticLenb == optLenb then stat == StaticSize(st, toks)
               else && TreesOk(st, ts, toks)
                    && opt == Total(HeaderFields(ts.bl, ts.l.lens, ts.d.lens, ts.blcodes))
                              + Total(BlockFields(st, ts.l, ts.d, toks))
      modifies this, w
      ensures Valid() && Exact() && EncodingOk(st, sl, sd, enc, toks, buf)
      ensures w.fields == old(w.fields) + EncFields(st, sl, sd, enc, toks, buf, eof)
      ensures if storedLen + 4 <= optLenb && buf.Some? then
                enc.Stored? && (old(Total(w.fields)) + 3 + enc.pad) % 8 == 0
              else if staticLenb == optLenb then enc == Fixed
              else enc == Dynamic(ts)
    {
      hide Pow2, Total, TreeOk, StaticOk, BW.Holds, BlockFields, HeaderFields, AllSend, StaticSize, TreesOk,
        StoredFields, DynamicFields, StaticFields;
      StaticSends(st, sl, sd, toks);
      if storedLen + 4 <= optLenb && buf.Some? {
        ghost var pad := StoredBlock(buf.value, eof);
        enc := Stored(pad);
      } else if staticLenb == optLenb {
        StaticBlock(toks, eof, stat);
        enc := Fixed;
      } else {
        DynamicBlock(ts, toks, eof, opt);
        enc := Dynamic(ts);
      }
    }

    /** zlib_tr_flush_block: the smallest of the three encodings, with an exact count of its bits.  Its own
        codes are the shortest there are for the symbols, unless one may need repair.
        The result is the number of bytes sent so far, and after the last block all of them. */
    method FlushBlock(toks: seq<Token>, buf: Option<seq<byte>>, storedLen: nat, eof: bool, level: nat)
      returns (bytes: int, ghost enc: Encoding, ghost built: Trees, ghost pad: nat)
      requires Valid() && Exact() && TokensOk(toks) && (buf.Some? ==> |buf.value| == storedLen < 65536)
      requires level == 0 ==> buf.Some?
      modifies this, w
      ensures Valid() && (!eof ==> Exact() && pad == 0) && bytes == compressedLen / 8
      ensures eof ==> bytes == |w.pending| && w.valid == 0
      ensures pad < 8 && SentAs(st, sl, sd, enc, toks, buf, eof, old(w.fields), BW.Pad(pad), w.fields)
      ensures if level > 0 then WellChosen(st, enc, built, toks, buf.Some?, storedLen) else enc.Stored?
      ensures enc.Stored? ==> (old(Total(w.fields)) + 3 + enc.pad) % 8 == 0
    {
      hide Pow2, Total, TreeOk, StaticOk, BW.Holds, BlockFields, HeaderFields, StaticSize, TreesOk, Minimal, Bytes,
        EncodingOk, EncFields, TokensOk;
      var ts, opt, stat, optLenb, staticLenb := Plan(toks, storedLen, level);
      built := ts;
      enc := SendBlock(toks, buf, storedLen, eof, ts, opt, stat, optLenb, staticLenb);
      bytes, pad := Finish(eof);
    }
  }

  lemma StaticSends(st: Static, sl: Tree, sd: Tree, toks: seq<Token>)
    requires StaticOk(st) && TokensOk(toks) && TreeOk(sl, LENS) && TreeOk(sd, DISTS)
    requires sl.lens == StaticLens() && sd.lens == Fives(30)
    ensures AllSend(st, sl, sd, toks) && Total(BlockFields(st, sl, sd, toks)) == StaticSize(st, toks)
  {
    hide TreeOk, UseCost, LFreq, DFreq, Total, BlockFields, DCode, Pow2;
    TreeSizes(sl, LENS);
    TreeSizes(sd, DISTS);
    forall i | 0 <= i < |toks| ensures CanSend(st, sl, sd, toks[i]) {
      assert TokenOk(toks[i]);
      if toks[i].Ref? {
        assert IsLengthCode(st.lengthCode[toks[i].lc], toks[i].lc);
        DCodeOk(st, toks[i].dist - 1);
      }
    }
    BlockTotal(st, sl, sd, toks, Plus(LDesc().slens, LDesc().extra), Plus(DDesc().slens, DDesc().extra));
  }

  function StaticFields(st: Static, sl: Tree, sd: Tree, toks: seq<Token>, eof: bool): seq<Field>
    requires StaticOk(st) && AllSend(st, sl, sd, toks)
  {
    [TypeField(STATIC_TREES, eof)] + BlockFields(st, sl, sd, toks)
  }

  ghost function DynamicFields(st: Static, ts: Trees, toks: seq<Token>, eof: bool): seq<Field>
    requires StaticOk(st) && TreesOk(st, ts, toks)
  {
    [TypeField(DYN_TREES, eof)] +
    (HeaderFields(ts.bl, ts.l.lens, ts.d.lens, ts.blcodes) + BlockFields(st, ts.l, ts.d, toks))
  }

  lemma EndHasCode(st: Static, ts: Trees, toks: seq<Token>)
    requires StaticOk(st) && TreesOk(st, ts, toks)
    ensures 256 < |ts.l.lens|
  {
  }

  /** The encoding of a block: stored after some padding, with the fixed codes, or with its own. */
  datatype Encoding = Stored(pad: nat) | Fixed | Dynamic(ts: Trees)

  ghost predicate EncodingOk(st: Static, sl: Tree, sd: Tree, enc: Encoding, toks: seq<Token>, buf: Option<seq<byte>>)
    requires StaticOk(st)
  {
    match enc
    case Stored(pad) => pad < 8 && buf.Some? && |buf.value| < 65536
    case Fixed => AllSend(st, sl, sd, toks)
    case Dynamic(ts) => TreesOk(st, ts, toks)
  }

  ghost function EncFields(st: Static, sl: Tree, sd: Tree, enc: Encoding, toks: seq<Token>, buf: Option<seq<byte>>,
                           eof: bool): seq<Field>
    requires StaticOk(st) && EncodingOk(st, sl, sd, enc, toks, buf)
  {
    match enc
    case Stored(pad) => StoredFields(eof, pad, buf.value)
    case Fixed => StaticFields(st, sl, sd, toks, eof)
    case Dynamic(ts) => DynamicFields(st, ts, toks, eof)
  }

  /** The bytes that a number of bits takes after the three bits of the block type. */
  function Bytes(bits: int): int
  {
    (bits + 3 + 7) / 8
  }

  /** No other encoding would have been smaller. */
  ghost predicate Smallest(st: Static, enc: Encoding, ts: Trees, toks: seq<Token>, canStore: bool, storedLen: nat)
    requires StaticOk(st) && TokensOk(toks) && TreesOk(st, ts, toks)
  {
    var fixed := Bytes(StaticSize(st, toks));
    var own := Bytes(Total(HeaderFields(ts.bl, ts.l.lens, ts.d.lens, ts.blcodes))
      + Total(BlockFields(st, ts.l, ts.d, toks)));
    match enc
    case Stored(_) => canStore && storedLen + 4 <= fixed && storedLen + 4 <= own
    case Fixed => fixed <= own && (canStore ==> fixed < storedLen + 4)
    case Dynamic(t) => t == ts && own < fixed && (canStore ==> own < storedLen + 4)
  }

  /** The trees are the best for the block, and the encoding is the smallest. */
  ghost predicate WellChosen(st: Static, enc: Encoding, ts: Trees, toks: seq<Token>, canStore: bool, storedLen: nat)
  {
    && StaticOk(st) && TokensOk(toks) && TreesOk(st, ts, toks) && Minimal(st, ts, toks)
    && Smallest(st, enc, ts, toks, canStore, storedLen)
  }

  /** The fields of the encoding came after those before, and the padding after them. */
  ghost predicate SentAs(st: Static, sl: Tree, sd: Tree, enc: Encoding, toks: seq<Token>, buf: Option<seq<byte>>,
                         eof: bool, before: seq<Field>, pad: seq<Field>, after: seq<Field>)
  {
    && StaticOk(st) && EncodingOk(st, sl, sd, enc, toks, buf)
    && after == before + EncFields(st, sl, sd, enc, toks, buf, eof) + pad
  }

  /** copy_block with its header. */
  method CopyBlock(w: BW.BitWriter, buf: seq<byte>) returns (ghost pad: nat)
    requires w.Valid() && |buf| < 65536
    modifies w
    ensures w.Valid() && pad < 8 && (old(Total(w.fields)) + pad) % 8 == 0
    ensures w.fields == old(w.fields) + BW.Pad(pad) + [Field(|buf|, 16), Field(65535 - |buf|, 16)] + BW.ByteFields(buf)
    ensures Total(w.fields) == RoundUp(old(Total(w.fields))) + 32 + 8 * |buf|
  {
    hide Pow2, Total, BW.Holds, RoundUp;
    ghost var f0 := w.fields;
    pad := w.Windup();
    PadTotal(pad);
    TotalJoin(f0, BW.Pad(pad));
    RoundIs(Total(f0), pad);
    w.PutWord(|buf|);
    w.PutWord(65535 - |buf|);
    w.PutBytes(buf);
    ghost var words := [Field(|buf|, 16), Field(65535 - |buf|, 16)];
    assert w.fields == f0 + BW.Pad(pad) + words + BW.ByteFields(buf);
    StoredTotal(f0 + BW.Pad(pad), buf);
  }

  lemma StoredTotal(fs: seq<Field>, buf: seq<byte>)
    requires |buf| < 65536
    ensures Total(fs + [Field(|buf|, 16), Field(65535 - |buf|, 16)] + BW.ByteFields(buf)) == Total(fs) + 32 + 8 * |buf|
  {
    hide Total;
    var words := [Field(|buf|, 16), Field(65535 - |buf|, 16)];
    assert words == [words[0]] + [words[1]];
    TotalOne(words[0]);
    TotalOne(words[1]);
    TotalJoin([words[0]], [words[1]]);
    TotalJoin(fs, words);
    TotalJoin(fs + words, BW.ByteFields(buf));
    BytesTotal(BW.ByteFields(buf));
  }
}
