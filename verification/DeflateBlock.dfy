/** compress_block: the symbols of a block as bits, and the proof that inflate reads them back. */
module DeflateBlock {
  import opened Bits
  import opened Reverse
  import opened Canonical
  import opened InfTable
  import opened CodeTables
  import opened Lz77
  import opened InflateSpec
  import opened DeflateCodes
  import opened BitFields
  import BW = BitWriter
  import IS = InflateSlow

  /** A literal, or a match at a distance of length lc + 3. */
  datatype Token = Char(c: byte) | Ref(dist: nat, lc: byte)

  predicate TokenOk(tok: Token)
  {
    tok.Ref? ==> 1 <= tok.dist <= 32768
  }

  /** A code: the lengths and the codes that gen_codes made of them. */
  datatype Tree = Tree(lens: seq<nat>, codes: seq<nat>)

  ghost predicate TreeOk(t: Tree, kind: CodeType)
  {
    && |t.codes| == |t.lens| <= SymbolLimit(kind) && LensOk(t.lens) && Fitting(Sorted(t.lens))
    && forall s :: 0 <= s < |t.lens| && t.lens[s] != 0 ==> t.codes[s] == SentCode(t.lens, s)
  }

  function Sent(t: Tree, s: nat): (f: Field)
    requires s < |t.lens| == |t.codes|
  {
    Field(t.codes[s], t.lens[s])
  }

  function Extra(v: nat, bits: nat): (fs: seq<Field>)
  {
    if bits == 0 then [] else [Field(v, bits)]
  }

  /** The symbols that a token needs have codes. */
  predicate CanSend(st: Static, l: Tree, d: Tree, tok: Token)
    requires StaticOk(st)
  {
    && TokenOk(tok) && |l.lens| == |l.codes| && |d.lens| == |d.codes|
    && match tok
       case Char(c) => c as nat < |l.lens| && l.lens[c] != 0
       case Ref(dist, lc) =>
         var s := 257 + st.lengthCode[lc];
         var e := DCode(st, dist - 1);
         s < |l.lens| && l.lens[s] != 0 && e < |d.lens| && d.lens[e] != 0
  }

  function LengthFields(st: Static, l: Tree, lc: byte): seq<Field>
    requires StaticOk(st) && 257 + st.lengthCode[lc] < |l.lens| == |l.codes|
  {
    var c := st.lengthCode[lc];
    assert IsLengthCode(c, lc);
    [Sent(l, 257 + c)] + Extra(if c == 28 then 0 else lc - BaseL(c), ExtraL(c))
  }

  function DistanceFields(st: Static, d: Tree, dist: nat): seq<Field>
    requires StaticOk(st) && 1 <= dist <= 32768 && DCode(st, dist - 1) < |d.lens| == |d.codes|
  {
    var e := DCode(st, dist - 1);
    DCodeOk(st, dist - 1);
    [Sent(d, e)] + Extra(dist - 1 - BaseD(e), ExtraD(e))
  }

  function TokenFields(st: Static, l: Tree, d: Tree, tok: Token): seq<Field>
    requires StaticOk(st) && CanSend(st, l, d, tok)
  {
    match tok
    case Char(c) => [Sent(l, c)]
    case Ref(dist, lc) => LengthFields(st, l, lc) + DistanceFields(st, d, dist)
  }

  predicate AllSend(st: Static, l: Tree, d: Tree, toks: seq<Token>)
    requires StaticOk(st)
  {
    && (forall i :: 0 <= i < |toks| ==> CanSend(st, l, d, toks[i]))
    && 256 < |l.lens| == |l.codes| && l.lens[256] != 0
  }

  /** All the fields of a block, with its end-of-block code. */
  function BlockFields(st: Static, l: Tree, d: Tree, toks: seq<Token>): seq<Field>
    requires StaticOk(st) && AllSend(st, l, d, toks)
  {
    if toks == [] then [Sent(l, 256)]
    else TokenFields(st, l, d, toks[0]) + BlockFields(st, l, d, toks[1..])
  }

  /** What a block stands for. */
  function Plain(text: seq<byte>, toks: seq<Token>): seq<byte>
    requires RefsOk(text, toks)
    decreases |toks|
  {
    if toks == [] then text else Plain(PlainOne(text, toks[0]), toks[1..])
  }

  function PlainOne(text: seq<byte>, tok: Token): seq<byte>
    requires tok.Ref? ==> 1 <= tok.dist <= |text|
  {
    match tok
    case Char(c) => text + [c]
    case Ref(dist, lc) => Copy(text, dist, lc as nat + 3)
  }

  /** Every match lies within the text before it. */
  predicate RefsOk(text: seq<byte>, toks: seq<Token>)
    decreases |toks|
  {
    toks != [] ==>
      (toks[0].Ref? ==> 1 <= toks[0].dist <= |text|) && RefsOk(PlainOne(text, toks[0]), toks[1..])
  }

  // ----- fields that fit

  lemma SentFits(t: Tree, kind: CodeType, s: nat)
    requires TreeOk(t, kind) && s < |t.lens| && t.lens[s] != 0
    ensures Sent(t, s) == Field(SentCode(t.lens, s), t.lens[s]) && SentCode(t.lens, s) < Pow2(t.lens[s])
    ensures 1 <= t.lens[s] <= MAXBITS
  {
    hide Bucket, Pow2, Rev, Fitting, Sorted;
    RevBound(CodeValue(t.lens, s), t.lens[s]);
  }

  lemma LengthFits(st: Static, l: Tree, lc: byte)
    requires StaticOk(st) && TreeOk(l, LENS)
    requires 257 + st.lengthCode[lc] < |l.lens| && l.lens[257 + st.lengthCode[lc]] != 0
    ensures Fits(LengthFields(st, l, lc))
  {
    hide Sent, TreeOk, BaseL, ExtraL, Pow2;
    assert IsLengthCode(st.lengthCode[lc], lc);
    SentFits(l, LENS, 257 + st.lengthCode[lc]);
    TreeSizes(l, LENS);
  }

  lemma DistanceFits(st: Static, d: Tree, dist: nat)
    requires StaticOk(st) && TreeOk(d, DISTS) && 1 <= dist <= 32768
    requires DCode(st, dist - 1) < |d.lens| && d.lens[DCode(st, dist - 1)] != 0
    ensures Fits(DistanceFields(st, d, dist))
  {
    hide Sent, TreeOk, BaseD, ExtraD, Pow2, DCode;
    DCodeOk(st, dist - 1);
    SentFits(d, DISTS, DCode(st, dist - 1));
    TreeSizes(d, DISTS);
  }

  lemma TreeSizes(t: Tree, kind: CodeType)
    requires TreeOk(t, kind)
    ensures |t.codes| == |t.lens| <= SymbolLimit(kind)
  {
  }

  lemma TokenFits(st: Static, l: Tree, d: Tree, tok: Token)
    requires StaticOk(st) && TreeOk(l, LENS) && TreeOk(d, DISTS) && CanSend(st, l, d, tok)
    ensures Fits(TokenFields(st, l, d, tok))
  {
    hide Sent, TreeOk, BaseL, ExtraL, Pow2, DCode, LengthFields, DistanceFields;
    match tok
    case Char(c) => SentFits(l, LENS, c);
    case Ref(dist, lc) =>
      LengthFits(st, l, lc);
      DistanceFits(st, d, dist);
  }

  // ----- reading them back

  /** The tables of a block were made from the lengths of the two trees. */
  ghost predicate Reads(b: Block, l: Tree, d: Tree)
  {
    && BlockOk(b) && TreeOk(l, LENS) && TreeOk(d, DISTS)
    && Decodes(b.lcode, b.lroot, LENS, l.lens) && Decodes(b.dcode, b.droot, DISTS, d.lens)
  }

  lemma LookupSent(table: seq<Code>, root: nat, kind: CodeType, t: Tree, s: nat, x: nat)
    requires TreeOk(t, kind) && Decodes(table, root, kind, t.lens) && s < |t.lens| && t.lens[s] != 0
    requires Starts(x, [Sent(t, s)])
    ensures var f := Lookup(table, root, x);
            f.Found? && f.used == t.lens[s] && f.entry.op == ActionFor(kind, s).op
              && f.entry.val == ActionFor(kind, s).val
  {
    hide Lookup, SentCode, Low, LengthAction, DistanceAction, Starts, Pow2, Fitting;
    StartsOne(x, Sent(t, s));
  }

  lemma ExtraRead(x: nat, v: nat, bits: nat)
    requires Starts(x, Extra(v, bits)) && (bits == 0 ==> v == 0)
    ensures Low(x, bits) == v && Total(Extra(v, bits)) == bits
  {
    hide Pow2;
    if bits != 0 {
      StartsOne(x, Field(v, bits));
      TotalOne(Field(v, bits));
    }
  }

  lemma LengthRead(st: Static, b: Block, l: Tree, d: Tree, lc: byte, x: nat)
    requires StaticOk(st) && Reads(b, l, d)
    requires 257 + st.lengthCode[lc] < |l.lens| && l.lens[257 + st.lengthCode[lc]] != 0
    requires Starts(x, LengthFields(st, l, lc))
    ensures IS.HasLength(b, x, lc as nat + 3, Total(LengthFields(st, l, lc)))
  {
    hide TreeOk, BlockOk, Decodes, Lookup, Low, Shr, Pow2, Starts, LengthAction, Sent;
    var c := st.lengthCode[lc];
    assert IsLengthCode(c, lc);
    TreeSizes(l, LENS);
    var v := if c == 28 then 0 else lc - BaseL(c);
    var f := Sent(l, 257 + c);
    SentFits(l, LENS, 257 + c);
    StartsJoin(x, [f], Extra(v, ExtraL(c)));
    TotalOne(f);
    TotalJoin([f], Extra(v, ExtraL(c)));
    LookupSent(b.lcode, b.lroot, LENS, l, 257 + c, x);
    LengthOps(c);
    LengthLast();
    PowNone(c);
    ExtraRead(Shr(x, f.len), v, ExtraL(c));
  }

  lemma LengthLast()
    ensures BaseL(28) == 255 && ExtraL(28) == 0
  {
  }

  lemma PowNone(c: nat)
    ensures ExtraL(c) == 0 ==> Pow2(ExtraL(c)) == 1
  {
  }

  lemma DistanceRead(st: Static, b: Block, l: Tree, d: Tree, dist: nat, len: nat, n: nat, x: nat)
    requires StaticOk(st) && Reads(b, l, d) && 1 <= dist <= 32768
    requires DCode(st, dist - 1) < |d.lens| && d.lens[DCode(st, dist - 1)] != 0
    requires IS.HasLength(b, x, len, n) && Starts(Shr(x, n), DistanceFields(st, d, dist))
    ensures Decode(b, x) == Match(len, dist, n + Total(DistanceFields(st, d, dist)))
  {
    hide TreeOk, BlockOk, Decodes, Lookup, Low, Shr, Pow2, Starts, DistanceAction, Sent, DCode, Decode, IS.HasLength;
    var e := DCode(st, dist - 1);
    DCodeOk(st, dist - 1);
    TreeSizes(d, DISTS);
    var y, v, f := Shr(x, n), dist - 1 - BaseD(e), Sent(d, e);
    SentFits(d, DISTS, e);
    StartsJoin(y, [f], Extra(v, ExtraD(e)));
    TotalOne(f);
    TotalJoin([f], Extra(v, ExtraD(e)));
    LookupSent(b.dcode, b.droot, DISTS, d, e, y);
    DistanceOps(e);
    PowNoneD(e);
    ExtraRead(Shr(y, f.len), v, ExtraD(e));
    ShrShr(x, n, f.len);
    IS.LengthFirst(b, x, len, n);
  }

  lemma PowNoneD(c: nat)
    ensures ExtraD(c) == 0 ==> Pow2(ExtraD(c)) == 1
  {
  }

  /** Decoding the bits of a token gives the token back. */
  lemma TokenRead(st: Static, b: Block, l: Tree, d: Tree, tok: Token, x: nat)
    requires StaticOk(st) && Reads(b, l, d) && CanSend(st, l, d, tok)
    requires Starts(x, TokenFields(st, l, d, tok))
    ensures var n := Total(TokenFields(st, l, d, tok));
            Decode(b, x) == match tok
                            case Char(c) => Literal(c, n)
                            case Ref(dist, lc) => Match(lc as nat + 3, dist, n)
  {
    hide TreeOk, BlockOk, Decodes, Lookup, Low, Shr, Pow2, Starts, Sent, DCode, IS.HasLength, LengthFields,
      DistanceFields;
    match tok
    case Char(c) =>
      TotalOne(Sent(l, c));
      SentFits(l, LENS, c);
      LookupSent(b.lcode, b.lroot, LENS, l, c, x);
    case Ref(dist, lc) =>
      var fs, gs := LengthFields(st, l, lc), DistanceFields(st, d, dist);
      LengthFits(st, l, lc);
      StartsJoin(x, fs, gs);
      TotalJoin(fs, gs);
      LengthRead(st, b, l, d, lc, x);
      DistanceRead(st, b, l, d, dist, lc as nat + 3, Total(fs), x);
  }

  lemma EndRead(b: Block, l: Tree, d: Tree, x: nat)
    requires Reads(b, l, d) && 256 < |l.lens| && l.lens[256] != 0 && |l.codes| == |l.lens| && Starts(x, [Sent(l, 256)])
    ensures Decode(b, x) == EndOfBlock(l.lens[256])
  {
    hide TreeOk, BlockOk, Decodes, Lookup, Low, Shr, Pow2, Starts, Sent;
    LookupSent(b.lcode, b.lroot, LENS, l, 256, x);
  }

  /** Inflating what compress_block sent gives the plain text back, and stops after the
      end-of-block code. */
  lemma {:induction false} BlockRoundTrip(st: Static, b: Block, l: Tree, d: Tree, toks: seq<Token>, inp: seq<byte>,
                                          p: nat, text: seq<byte>)
    requires StaticOk(st) && Reads(b, l, d) && AllSend(st, l, d, toks) && RefsOk(text, toks)
    requires Starts(Ahead(inp, p), BlockFields(st, l, d, toks))
    ensures Run(b, inp, 0, State(p, text, LEN), |toks| + 1) ==
            State(p + Total(BlockFields(st, l, d, toks)), Plain(text, toks), TYPE)
    decreases |toks|
  {
    hide TreeOk, BlockOk, Decodes, Low, Shr, Pow2, Starts, Sent, Ahead, Decode, TokenFields, CanSend, Copy;
    var st0 := State(p, text, LEN);
    OneRun(b, inp, st0);
    if toks == [] {
      EndRead(b, l, d, Ahead(inp, p));
      TotalOne(Sent(l, 256));
      SentFits(l, LENS, 256);
    } else {
      var fs, gs := TokenFields(st, l, d, toks[0]), BlockFields(st, l, d, toks[1..]);
      TokenFits(st, l, d, toks[0]);
      StartsJoin(Ahead(inp, p), fs, gs);
      TotalJoin(fs, gs);
      TokenRead(st, b, l, d, toks[0], Ahead(inp, p));
      IS.AheadShr(inp, p, Total(fs));
      BlockRoundTrip(st, b, l, d, toks[1..], inp, p + Total(fs), PlainOne(text, toks[0]));
      RunSplit(b, inp, 0, st0, 1, |toks|);
    }
  }

  lemma OneRun(b: Block, inp: seq<byte>, st: State)
    requires BlockOk(b)
    ensures Run(b, inp, 0, st, 1) == Next(b, inp, 0, st)
  {
    hide Next;
    assert Run(b, inp, 0, st, 0) == st;
  }

  // ----- sending

  /** The length half of a match. */
  method SendLength(w: BW.BitWriter, st: Static, l: Tree, lc: byte)
    requires w.Valid() && StaticOk(st) && TreeOk(l, LENS)
    requires 257 + st.lengthCode[lc] < |l.lens| && l.lens[257 + st.lengthCode[lc]] != 0
    modifies w
    ensures w.Valid() && w.fields == old(w.fields) + LengthFields(st, l, lc)
  {
    hide BW.Holds, Pow2, TreeOk, Starts;
    TreeSizes(l, LENS);
    LengthFits(st, l, lc);
    var code := st.lengthCode[lc];
    assert IsLengthCode(code, lc);
    SentFits(l, LENS, 257 + code);
    ghost var fs := LengthFields(st, l, lc);
    ghost var w0 := w.fields;
    w.SendBits(l.codes[257 + code], l.lens[257 + code]);
    var extra := ExtraL(code);
    if extra != 0 {
      assert fs[1] == Field(lc - BaseL(code), extra);
      w.SendBits(lc - st.baseLength[code], extra);
      assert w.fields == w0 + ([fs[0]] + [fs[1]]);
    } else {
      assert w.fields == w0 + [fs[0]];
    }
  }

  /** The distance half of a match. */
  method SendDistance(w: BW.BitWriter, st: Static, d: Tree, dist0: nat)
    requires w.Valid() && StaticOk(st) && TreeOk(d, DISTS) && 1 <= dist0 <= 32768
    requires DCode(st, dist0 - 1) < |d.lens| && d.lens[DCode(st, dist0 - 1)] != 0
    modifies w
    ensures w.Valid() && w.fields == old(w.fields) + DistanceFields(st, d, dist0)
  {
    hide BW.Holds, Pow2, TreeOk, Starts;
    TreeSizes(d, DISTS);
    DistanceFits(st, d, dist0);
    var dist := dist0 - 1;
    var code := DCode(st, dist);
    DCodeOk(st, dist);
    SentFits(d, DISTS, code);
    ghost var fs := DistanceFields(st, d, dist0);
    ghost var w0 := w.fields;
    w.SendBits(d.codes[code], d.lens[code]);
    var extra := ExtraD(code);
    if extra != 0 {
      assert fs[1] == Field(dist - BaseD(code), extra);
      w.SendBits(dist - st.baseDist[code], extra);
      assert w.fields == w0 + ([fs[0]] + [fs[1]]);
    } else {
      assert w.fields == w0 + [fs[0]];
    }
  }

  lemma {:induction false} BlockSnoc(st: Static, l: Tree, d: Tree, toks: seq<Token>, i: nat)
    requires StaticOk(st) && AllSend(st, l, d, toks) && i <= |toks|
    ensures BlockFields(st, l, d, toks) == Prefix(st, l, d, toks, i) + BlockFields(st, l, d, toks[i..])
  {
    hide TokenFields, CanSend;
    if i > 0 {
      BlockSnoc(st, l, d, toks, i - 1);
      assert toks[i - 1..][0] == toks[i - 1] && toks[i - 1..][1..] == toks[i..];
    } else {
      assert toks[0..] == toks;
    }
  }

  /** The fields of the first i tokens. */
  ghost function Prefix(st: Static, l: Tree, d: Tree, toks: seq<Token>, i: nat): seq<Field>
    requires StaticOk(st) && AllSend(st, l, d, toks) && i <= |toks|
  {
    if i == 0 then [] else Prefix(st, l, d, toks, i - 1) + TokenFields(st, l, d, toks[i - 1])
  }

  method SendToken(w: BW.BitWriter, st: Static, l: Tree, d: Tree, tok: Token)
    requires w.Valid() && StaticOk(st) && TreeOk(l, LENS) && TreeOk(d, DISTS) && CanSend(st, l, d, tok)
    modifies w
    ensures w.Valid() && w.fields == old(w.fields) + TokenFields(st, l, d, tok)
  {
    hide BW.Holds, Pow2, TreeOk, LengthFields, DistanceFields, DCode, StaticOk;
    ghost var w0 := w.fields;
    match tok {
      case Char(c) =>
        SentFits(l, LENS, c);
        w.SendBits(l.codes[c], l.lens[c]);
      case Ref(dist, lc) =>
        SendLength(w, st, l, lc);
        SendDistance(w, st, d, dist);
        assert w.fields == w0 + (LengthFields(st, l, lc) + DistanceFields(st, d, dist));
    }
  }

  /** compress_block. */
  method CompressBlock(w: BW.BitWriter, st: Static, l: Tree, d: Tree, toks: seq<Token>)
    requires w.Valid() && StaticOk(st) && TreeOk(l, LENS) && TreeOk(d, DISTS) && AllSend(st, l, d, toks)
    modifies w
    ensures w.Valid() && w.fields == old(w.fields) + BlockFields(st, l, d, toks)
  {
    hide BW.Holds, Pow2, TreeOk, TokenFields, CanSend, StaticOk;
    ghost var w0 := w.fields;
    for lx := 0 to |toks|
      invariant w.Valid() && w.fields == w0 + Prefix(st, l, d, toks, lx)
    {
      ghost var pre := Prefix(st, l, d, toks, lx);
      SendToken(w, st, l, d, toks[lx]);
      assert w.fields == w0 + (pre + TokenFields(st, l, d, toks[lx]));
    }
    SentFits(l, LENS, 256);
    w.SendBits(l.codes[256], l.lens[256]);
    BlockSnoc(st, l, d, toks, |toks|);
    assert w.fields == w0 + (Prefix(st, l, d, toks, |toks|) + [Sent(l, 256)]);
  }
}
