/** inflate_fast: whole symbols while at least six bytes of input and 258 bytes of room are left,
    with no check of either inside a symbol. */
module InflateFast {
  import opened Bits
  import opened InfTable
  import opened CodeTables
  import opened Lz77
  import opened InflateSpec
  import opened InflateSlow
  import W = Window

  /** At least 15 bits, the most that a code can have. */
  method Refill(inp: seq<byte>, a0: Acc) returns (a: Acc)
    requires AccOk(inp, a0) && a0.bits <= 30 && (a0.bits < 15 ==> a0.next + 2 <= |inp|)
    ensures AccOk(inp, a) && Pos(a) == Pos(a0) && 15 <= a.bits <= 30
    ensures a.next == if a0.bits < 15 then a0.next + 2 else a0.next
  {
    hide Holding;
    a := a0;
    if a.bits < 15 {
      a := PullByte(inp, a);
      a := PullByte(inp, a);
    }
  }

  /** The lookups at dolen and dodist, following a link to the second level. */
  method FastEntry(t: seq<Code>, root: nat, ghost kind: CodeType, inp: seq<byte>, a0: Acc) returns (e: Code, a: Acc)
    requires TableOk(t, root, kind) && kind != CODES && AccOk(inp, a0) && a0.bits >= 15
    ensures AccOk(inp, a) && a.next == a0.next && a.bits <= a0.bits
    ensures var f := Lookup(t, root, Ahead(inp, Pos(a0)));
            f.Found? && f.used <= 15 && e == f.entry && Pos(a) == Pos(a0) + f.used
  {
    hide TableOk, Lookup, Low, Ahead, Holding, Shr, Pow2;
    Partial(t, root, kind, inp, a0);
    LookupOk(t, root, kind, Ahead(inp, Pos(a0)));
    ThroughLink(t, root, kind, a0.hold);
    EntryBits(t, root, kind, a0.hold);
    e := t[Low(a0.hold, root)];
    OpBits(e.op);
    a := DropBits(inp, a0, e.bits);
    if e.op != 0 && And(e.op, 16) == 0 && And(e.op, 64) == 0 {
      ShrLow(a0.hold, e.bits + e.op, e.bits);
      e := t[e.val + Low(a.hold, e.op)];
      a := DropBits(inp, a, e.bits);
    }
  }

  /** The extra bits of a length: at most one more byte. */
  method LengthExtra(inp: seq<byte>, a0: Acc, x: nat) returns (v: nat, a: Acc)
    requires AccOk(inp, a0) && x <= 5 && a0.bits <= 30 && (a0.bits < x ==> a0.next < |inp|)
    ensures AccOk(inp, a) && Pos(a) == Pos(a0) + x && v == Low(Ahead(inp, Pos(a0)), x)
    ensures a.next == (if a0.bits < x then a0.next + 1 else a0.next) && a.bits <= 30
  {
    hide Low, Ahead;
    v, a := 0, a0;
    LowNone(Ahead(inp, Pos(a0)));
    if x != 0 {
      if a.bits < x { a := PullByte(inp, a); }
      Peek(inp, a.next, a.hold, a.bits, x);
      v := Low(a.hold, x);
      a := DropBits(inp, a, x);
    }
  }

  /** The extra bits of a distance: up to two more bytes. */
  method DistanceExtra(inp: seq<byte>, a0: Acc, x: nat) returns (v: nat, a: Acc)
    requires AccOk(inp, a0) && x <= 13 && a0.bits <= 30
    requires (a0.bits < x ==> a0.next < |inp|) && (a0.bits + 8 < x ==> a0.next + 1 < |inp|)
    ensures AccOk(inp, a) && Pos(a) == Pos(a0) + x && v == Low(Ahead(inp, Pos(a0)), x) && a.bits <= 30
    ensures a.next == if a0.bits + 8 < x then a0.next + 2 else if a0.bits < x then a0.next + 1 else a0.next
  {
    hide Low, Ahead;
    a := a0;
    if a.bits < x {
      a := PullByte(inp, a);
      if a.bits < x { a := PullByte(inp, a); }
    }
    Peek(inp, a.next, a.hold, a.bits, x);
    v := Low(a.hold, x);
    a := DropBits(inp, a, x);
  }

  /** The length has been decoded: the rest of the match, up to the copy. */
  lemma FastMatch(b: Block, inp: seq<byte>, st: State, len: nat, n: nat, e: Code, g: nat)
    requires BlockOk(b) && HasLength(b, Ahead(inp, st.p), len, n)
    requires Lookup(b.dcode, b.droot, Ahead(inp, st.p + n)) == Found(e, g)
    ensures Decode(b, Ahead(inp, st.p)) ==
            if IsBase(e.op) then Match(len, e.val + Low(Ahead(inp, st.p + n + g), e.op - 16), n + g + e.op - 16)
            else Symbol.Invalid(n + g)
  {
    hide TableOk, Lookup, Low, Shr, Ahead, Decode, HasLength;
    AheadShr(inp, st.p, n);
    AheadShr(inp, st.p, n + g);
    LengthFirst(b, Ahead(inp, st.p), len, n);
  }

  lemma LengthDone(b: Block, inp: seq<byte>, st: State, e: Code, n: nat)
    requires BlockOk(b) && IsBase(e.op) && Lookup(b.lcode, b.lroot, Ahead(inp, st.p)) == Found(e, n)
    ensures HasLength(b, Ahead(inp, st.p), e.val + Low(Ahead(inp, st.p + n), e.op - 16), n + e.op - 16)
  {
    hide TableOk, Lookup, Low, Shr, Ahead;
    AheadShr(inp, st.p, n);
  }

  /** The length of a match, from its code on. */
  method FastLength(b: Block, inp: seq<byte>, lim: nat, a0: Acc, e: Code, ghost st: State) returns (len: nat, a: Acc)
    requires BlockOk(b) && AccOk(inp, a0) && Pos(a0) >= st.p && IsBase(e.op) && a0.bits <= 30
    requires Lookup(b.lcode, b.lroot, Ahead(inp, st.p)) == Found(e, Pos(a0) - st.p)
    requires st.p + 48 <= 8 * lim <= 8 * |inp| && a0.next <= lim
    ensures AccOk(inp, a) && st.p <= Pos(a) <= st.p + 20 && a.bits <= 30 && a.next <= lim
    ensures HasLength(b, Ahead(inp, st.p), len, Pos(a) - st.p)
  {
    hide TableOk, Lookup, Low, Shr, Ahead, HasLength, Holding, Pow2;
    LookupOk(b.lcode, b.lroot, LENS, Ahead(inp, st.p));
    OpBits(e.op);
    LengthDone(b, inp, st, e, Pos(a0) - st.p);
    var v;
    v, a := LengthExtra(inp, a0, And(e.op, 15));
    len := e.val + v;
  }

  /** The distance of a match, from the end of its length on. */
  method FastDistance(b: Block, inp: seq<byte>, lim: nat, a0: Acc, len: nat, ghost st: State)
    returns (valid: bool, dist: nat, a: Acc)
    requires BlockOk(b) && AccOk(inp, a0) && st.p <= Pos(a0) <= st.p + 20 && a0.bits <= 30
    requires HasLength(b, Ahead(inp, st.p), len, Pos(a0) - st.p)
    requires st.p + 48 <= 8 * lim <= 8 * |inp| && a0.next <= lim
    ensures AccOk(inp, a) && Pos(a) >= st.p && a.bits <= 30 && a.next <= lim
    ensures Decode(b, Ahead(inp, st.p)) ==
            if valid then Match(len, dist, Pos(a) - st.p) else Symbol.Invalid(Pos(a) - st.p)
  {
    hide TableOk, Lookup, Low, Shr, Ahead, Decode, HasLength, Holding, Pow2;
    ghost var n := Pos(a0) - st.p;
    a := Refill(inp, a0);
    var e;
    e, a := FastEntry(b.dcode, b.droot, DISTS, inp, a);
    LookupOk(b.dcode, b.droot, DISTS, Ahead(inp, st.p + n));
    FastMatch(b, inp, st, len, n, e, Pos(a) - st.p - n);
    OpBits(e.op);
    valid := And(e.op, 16) != 0;
    dist := 0;
    if valid {
      var v;
      v, a := DistanceExtra(inp, a, And(e.op, 15));
      dist := e.val + v;
    }
  }

  lemma FastEnds(b: Block, inp: seq<byte>, lo: nat, st: State, e: Code, n: nat)
    requires BlockOk(b) && st.mode == LEN && !IsBase(e.op)
    requires Lookup(b.lcode, b.lroot, Ahead(inp, st.p)) == Found(e, n)
    ensures ActionOk(LENS, e.op, e.val)
    ensures Next(b, inp, lo, st) ==
            if e.op == 0 then State(st.p + n, st.text + [e.val as byte], LEN)
            else State(st.p + n, st.text, if e.op == 96 then TYPE else BAD)
  {
    hide TableOk, Lookup, Low, Shr, Ahead;
    LookupOk(b.lcode, b.lroot, LENS, Ahead(inp, st.p));
  }

  lemma FastMatched(b: Block, inp: seq<byte>, lo: nat, st: State, len: nat, dist: nat, n: nat)
    requires BlockOk(b) && st.mode == LEN && Decode(b, Ahead(inp, st.p)) == Match(len, dist, n)
    ensures 3 <= len <= 258 && 1 <= dist <= 32768
    ensures Next(b, inp, lo, st) ==
            if dist > |st.text| - lo then State(st.p + n, st.text, BAD)
            else State(st.p + n, Copy(st.text, dist, len), LEN)
  {
    hide BlockOk, Decode, Ahead, Copy;
    DecodeBounds(b, Ahead(inp, st.p));
  }

  /** One turn of the loop decodes one symbol, whatever it is. */
  method FastSymbol(b: Block, inp: seq<byte>, lim: nat, w: W.Window, out: seq<byte>, a0: Acc, ghost lo: nat,
                    ghost st: State)
    returns (a: Acc, out': seq<byte>, mode: Mode)
    requires BlockOk(b) && Reach(b, inp, st, w, lo) && AccOk(inp, a0) && a0.bits <= 30
    requires a0.next + 6 <= lim <= |inp|
    requires st == State(Pos(a0), w.hist + out, LEN)
    ensures AccOk(inp, a) && a.bits <= 30 && a.next <= lim && |out'| <= |out| + 258
    ensures State(Pos(a), w.hist + out', mode) == Next(b, inp, lo, st)
  {
    hide BlockOk, TableOk, Lookup, Low, Shr, Ahead, Decode, HasLength, Holding, Pow2, Next, Copy, Reach, W.Holds;
    BothTables(b);
    a := Refill(inp, a0);
    var e;
    e, a := FastEntry(b.lcode, b.lroot, LENS, inp, a);
    ghost var n := Pos(a) - st.p;
    LookupOk(b.lcode, b.lroot, LENS, Ahead(inp, st.p));
    OpBits(e.op);
    out', mode := out, LEN;
    if And(e.op, 16) != 0 {
      var len, valid, dist;
      len, a := FastLength(b, inp, lim, a, e, st);
      valid, dist, a := FastDistance(b, inp, lim, a, len, st);
      out', mode := FastFinish(b, inp, w, out, valid, len, dist, lo, st, Pos(a) - st.p);
    } else {
      FastEnds(b, inp, lo, st, e, n);
      if e.op == 0 {
        out' := out + [e.val as byte];
        assert w.hist + out' == w.hist + out + [e.val as byte];
      } else if And(e.op, 32) != 0 {
        mode := TYPE;
      } else {
        mode := BAD;
      }
    }
  }

  method FastFinish(b: Block, inp: seq<byte>, w: W.Window, out: seq<byte>, valid: bool, len: nat, dist: nat,
                    ghost lo: nat, ghost st: State, ghost n: nat)
    returns (out': seq<byte>, mode: Mode)
    requires BlockOk(b) && Reach(b, inp, st, w, lo) && st.mode == LEN && st.text == w.hist + out
    requires Decode(b, Ahead(inp, st.p)) == if valid then Match(len, dist, n) else Symbol.Invalid(n)
    requires st.p + n <= 8 * |inp|
    ensures |out'| <= |out| + 258
    ensures State(st.p + n, w.hist + out', mode) == Next(b, inp, lo, st)
  {
    hide BlockOk, Ahead, Decode, Copy, NearRun, W.Holds;
    out', mode := out, BAD;
    if valid {
      FastMatched(b, inp, lo, st, len, dist, n);
      TooFar(b, inp, st, w, lo, out, dist);
      if dist <= w.have + |out| {
        mode := LEN;
        W.InRange(w.window[..], w.have, w.write, w.hist);
        out' := W.FastCopy(w, out, dist, len);
        assert |w.hist + out'| == |w.hist + out| + len;
      }
    }
  }

  lemma NextUses(b: Block, inp: seq<byte>, lo: nat, st: State)
    requires BlockOk(b) && st.mode == LEN
    ensures Next(b, inp, lo, st).p == st.p + Decode(b, Ahead(inp, st.p)).used
    ensures Decode(b, Ahead(inp, st.p)).used >= 1
  {
    hide BlockOk, Decode, Ahead, Copy;
    DecodeBounds(b, Ahead(inp, st.p));
  }

  /** inflate_fast equals k symbols decoded bit by bit, and gives back every whole byte it did not
      use without going back before its own start.  It stops inside a block only with less than nine bytes
      of input or less than 258 bytes of room left.  That needs less than the documented bits < 8:
      it is enough that the first symbol uses more than bits - 8 bits. */
  method Fast(b: Block, inp: seq<byte>, lim: nat, w: W.Window, out0: seq<byte>, room: nat, a0: Acc,
              ghost lo: nat, ghost st: State)
    returns (a: Acc, out: seq<byte>, mode: Mode, ghost k: nat)
    requires BlockOk(b) && Reach(b, inp, st, w, lo) && AccOk(inp, a0) && a0.bits <= 30
    requires a0.next + 6 <= lim <= |inp| && |out0| + 258 <= room
    requires st == State(Pos(a0), w.hist + out0, LEN)
    requires a0.bits < 8 + Decode(b, Ahead(inp, st.p)).used
    ensures AccOk(inp, a) && a.bits < 8 && a0.next <= a.next <= lim && |out| <= room
    ensures k >= 1 && State(Pos(a), w.hist + out, mode) == Run(b, inp, lo, st, k)
    ensures Pos(a) > Pos(a0)
    ensures mode == LEN ==> lim < a.next + 9 || room < |out| + 258
  {
    hide BlockOk, Low, Shr, Ahead, Decode, Holding, Next, Reach, W.Holds;
    NextUses(b, inp, lo, st);
    a, out, mode := FastSymbol(b, inp, lim, w, out0, a0, lo, st);
    k := 1;
    assert Run(b, inp, lo, st, 0) == st;
    while mode == LEN && a.next + 6 <= lim && |out| + 258 <= room
      invariant AccOk(inp, a) && a.bits <= 30 && a.next <= lim && |out| <= room
      invariant k >= 1 && State(Pos(a), w.hist + out, mode) == Run(b, inp, lo, st, k)
      invariant Pos(a) > Pos(a0) && Pos(a) > 8 * a0.next - 8
      decreases 8 * lim + 32 - Pos(a)
    {
      ghost var st' := Run(b, inp, lo, st, k);
      NextUses(b, inp, lo, st');
      ReachLater(b, inp, st, w, lo, k);
      a, out, mode := FastSymbol(b, inp, lim, w, out, a, lo, st');
      k := k + 1;
    }
    var len := a.bits / 8;
    var bits := a.bits - 8 * len;
    Unpull(inp, a.next, a.hold, a.bits, len);
    a := Acc(a.next - len, Low(a.hold, bits), bits);
  }
}
