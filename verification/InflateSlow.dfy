/** The states LEN to MATCH and LIT of zlib_inflate, which stop wherever input or output runs out
    and can be resumed there. */
module InflateSlow {
  import opened Bits
  import opened Canonical
  import opened InfTable
  import opened CodeTables
  import opened Lz77
  import opened InflateSpec
  import W = Window

  /** The bit accumulator: the bytes before `next` have been taken in. */
  datatype Acc = Acc(next: nat, hold: nat, bits: nat)

  ghost predicate AccOk(inp: seq<byte>, a: Acc)
  {
    a.bits <= 8 * a.next && Holding(inp, a.next, a.hold, a.bits) && a.bits <= 32
  }

  ghost function Pos(a: Acc): nat
    requires a.bits <= 8 * a.next
  {
    8 * a.next - a.bits
  }

  method PullByte(inp: seq<byte>, a: Acc) returns (a': Acc)
    requires AccOk(inp, a) && a.next < |inp| && a.bits <= 24
    ensures AccOk(inp, a') && Pos(a') == Pos(a) && a'.bits == a.bits + 8 && a'.next == a.next + 1
  {
    hide Holding, Pow2;
    Pull(inp, a.next, a.hold, a.bits);
    a' := Acc(a.next + 1, a.hold + inp[a.next] * Pow2(a.bits), a.bits + 8);
  }

  method DropBits(ghost inp: seq<byte>, a: Acc, n: nat) returns (a': Acc)
    requires AccOk(inp, a) && n <= a.bits
    ensures AccOk(inp, a') && Pos(a') == Pos(a) + n && a'.bits == a.bits - n && a'.next == a.next
    ensures a'.hold == Shr(a.hold, n)
  {
    hide Holding, Shr;
    Drop(inp, a.next, a.hold, a.bits, n);
    a' := Acc(a.next, Shr(a.hold, n), a.bits - n);
  }

  /** NEEDBITS: stops only when the available input ends too early. */
  method NeedBits(inp: seq<byte>, lim: nat, a0: Acc, n: nat) returns (ok: bool, a: Acc)
    requires AccOk(inp, a0) && a0.next <= lim <= |inp| && n <= 24
    ensures AccOk(inp, a) && Pos(a) == Pos(a0) && a.next <= lim
    ensures ok <==> Pos(a0) + n <= 8 * lim
    ensures ok ==> a.bits >= n
    ensures a.bits < (if a0.bits < 8 + n then 8 + n else a0.bits + 1)
  {
    a := a0;
    while a.bits < n
      invariant AccOk(inp, a) && Pos(a) == Pos(a0) && a.next <= lim
      invariant a.bits < 8 + n || a.bits == a0.bits
      decreases lim - a.next
    {
      if a.next == lim { return false, a; }
      a := PullByte(inp, a);
    }
    ok := true;
  }

  /** What a lookup sees of the accumulator agrees with the input once it uses no more bits than
      are there; and with enough bits it always does. */
  lemma Partial(t: seq<Code>, root: nat, kind: CodeType, inp: seq<byte>, a: Acc)
    requires TableOk(t, root, kind) && AccOk(inp, a)
    ensures var w := Ahead(inp, Pos(a)); var f := Lookup(t, root, a.hold);
            && f.Found? && Lookup(t, root, w).Found?
            && (f.used <= a.bits ==> Lookup(t, root, w) == f)
            && (Lookup(t, root, w).used <= a.bits ==> Lookup(t, root, w) == f)
  {
    hide Lookup, Low, Ahead;
    var w := Ahead(inp, Pos(a));
    LookupOk(t, root, kind, a.hold);
    LookupOk(t, root, kind, w);
    var f, g := Lookup(t, root, a.hold), Lookup(t, root, w);
    assert Settled(t, root, a.hold, w) && Settled(t, root, w, a.hold);
    if f.used <= a.bits { Peek(inp, a.next, a.hold, a.bits, f.used); }
    if g.used <= a.bits { Peek(inp, a.next, a.hold, a.bits, g.used); }
  }

  /** The entry reached through a link. */
  lemma ThroughLink(t: seq<Code>, root: nat, kind: CodeType, h: nat)
    requires TableOk(t, root, kind)
    ensures Low(h, root) < |t|
    ensures var e := t[Low(h, root)];
            && (!IsLink(e) ==> Lookup(t, root, h) == Found(e, e.bits))
            && (IsLink(e) ==>
                  var j := e.val + Shr(Low(h, e.bits + e.op), e.bits);
                  && e.bits == root && j < |t| && Lookup(t, root, h) == Found(t[j], root + t[j].bits)
                  && 1 <= t[j].bits && root + t[j].bits <= MAXBITS)
  {
    hide Low, Shr, ActionOk, Settled;
    assert EntryOk(t, root, kind, h);
    var e := t[Low(h, root)];
    if IsLink(e) { ShrLow(h, e.bits + e.op, e.bits); }
  }

  /** The two lookup loops of LEN and DIST, pulling one byte at a time, then dropping the code. */
  method DecodeEntry(t: seq<Code>, root: nat, ghost kind: CodeType, inp: seq<byte>, lim: nat, a0: Acc)
    returns (ok: bool, e: Code, a: Acc)
    requires TableOk(t, root, kind) && AccOk(inp, a0) && a0.next <= lim <= |inp|
    ensures AccOk(inp, a) && a.next <= lim
    ensures var f := Lookup(t, root, Ahead(inp, Pos(a0)));
            && f.Found? && (ok <==> Pos(a0) + f.used <= 8 * lim)
            && (if ok then e == f.entry && Pos(a) == Pos(a0) + f.used else Pos(a) == Pos(a0))
            && (a0.bits < 8 + f.used ==> a.bits < if ok then 8 else 8 + f.used)
  {
    hide TableOk, Lookup, Low, Ahead, Holding, Shr;
    LookupOk(t, root, kind, Ahead(inp, Pos(a0)));
    ghost var f := Lookup(t, root, Ahead(inp, Pos(a0)));
    a := a0;
    Partial(t, root, kind, inp, a);
    ThroughLink(t, root, kind, a.hold);
    e := t[Low(a.hold, root)];
    while e.bits > a.bits
      invariant AccOk(inp, a) && Pos(a) == Pos(a0) && a.next <= lim
      invariant a.bits < 8 + f.used || a.bits == a0.bits
      invariant Low(a.hold, root) < |t| && e == t[Low(a.hold, root)]
      decreases lim - a.next
    {
      Partial(t, root, kind, inp, a);
      ThroughLink(t, root, kind, a.hold);
      EntryBits(t, root, kind, a.hold);
      if a.next == lim { return false, e, a; }
      a := PullByte(inp, a);
      ThroughLink(t, root, kind, a.hold);
      e := t[Low(a.hold, root)];
    }
    Partial(t, root, kind, inp, a);
    ThroughLink(t, root, kind, a.hold);
    if IsLink(e) {
      ok, e, a := DecodeLinked(t, root, kind, inp, lim, a, e);
    } else {
      a := DropBits(inp, a, e.bits);
      ok := true;
    }
  }

  lemma EntryBits(t: seq<Code>, root: nat, kind: CodeType, h: nat)
    requires TableOk(t, root, kind)
    ensures Low(h, root) < |t| && t[Low(h, root)].bits <= MAXBITS
    ensures Lookup(t, root, h).Found? && t[Low(h, root)].bits <= Lookup(t, root, h).used
  {
    hide Low, Shr, ActionOk, Settled;
    assert EntryOk(t, root, kind, h);
  }

  /** The loop of the second lookup, without dropping the code. */
  method PeekLinked(t: seq<Code>, root: nat, ghost kind: CodeType, inp: seq<byte>, lim: nat, a0: Acc, last: Code)
    returns (ok: bool, e: Code, a: Acc)
    requires TableOk(t, root, kind) && AccOk(inp, a0) && a0.next <= lim <= |inp|
    requires Low(a0.hold, root) < |t| && last == t[Low(a0.hold, root)] && IsLink(last) && last.bits <= a0.bits
    ensures AccOk(inp, a) && a.next <= lim && Pos(a) == Pos(a0)
    ensures var f := Lookup(t, root, Ahead(inp, Pos(a0)));
            && f.Found? && (ok <==> Pos(a0) + f.used <= 8 * lim)
            && (ok ==> e == f.entry && last.bits + e.bits == f.used <= a.bits)
            && (a.bits < 8 + f.used || a.bits == a0.bits)
  {
    hide TableOk, Lookup, Low, Ahead, Holding, Shr;
    LookupOk(t, root, kind, Ahead(inp, Pos(a0)));
    ghost var f := Lookup(t, root, Ahead(inp, Pos(a0)));
    a := a0;
    ThroughLink(t, root, kind, a.hold);
    e := t[last.val + Shr(Low(a.hold, last.bits + last.op), last.bits)];
    while last.bits + e.bits > a.bits
      invariant AccOk(inp, a) && Pos(a) == Pos(a0) && a.next <= lim && a.bits >= root == last.bits
      invariant a.bits < 8 + f.used || a.bits == a0.bits
      invariant Low(a.hold, root) == Low(a0.hold, root)
      invariant var j := last.val + Shr(Low(a.hold, last.bits + last.op), last.bits); j < |t| && e == t[j]
      decreases lim - a.next
    {
      Partial(t, root, kind, inp, a);
      ThroughLink(t, root, kind, a.hold);
      if a.next == lim { return false, e, a; }
      Peek(inp, a.next, a.hold, a.bits, root);
      a := PullByte(inp, a);
      Peek(inp, a.next, a.hold, a.bits, root);
      ThroughLink(t, root, kind, a.hold);
      e := t[last.val + Shr(Low(a.hold, last.bits + last.op), last.bits)];
    }
    Partial(t, root, kind, inp, a);
    ThroughLink(t, root, kind, a.hold);
    ok := true;
  }

  method DecodeLinked(t: seq<Code>, root: nat, ghost kind: CodeType, inp: seq<byte>, lim: nat, a0: Acc, last: Code)
    returns (ok: bool, e: Code, a: Acc)
    requires TableOk(t, root, kind) && AccOk(inp, a0) && a0.next <= lim <= |inp|
    requires Low(a0.hold, root) < |t| && last == t[Low(a0.hold, root)] && IsLink(last) && last.bits <= a0.bits
    ensures AccOk(inp, a) && a.next <= lim
    ensures var f := Lookup(t, root, Ahead(inp, Pos(a0)));
            && f.Found? && (ok <==> Pos(a0) + f.used <= 8 * lim)
            && (if ok then e == f.entry && Pos(a) == Pos(a0) + f.used else Pos(a) == Pos(a0))
            && (a0.bits < 8 + f.used ==> a.bits < if ok then 8 else 8 + f.used)
  {
    hide TableOk, Lookup, Low, Ahead, Holding, Shr;
    ok, e, a := PeekLinked(t, root, kind, inp, lim, a0, last);
    if ok {
      a := DropBits(inp, a, last.bits);
      a := DropBits(inp, a, e.bits);
    }
  }

  // ----- the states

  datatype Phase = Len | LenExt | Dist | DistExt | Matching | Lit | Type | Bad

  /** The decoder between two steps. */
  datatype Slow = Slow(phase: Phase, acc: Acc, length: nat, offset: nat, extra: nat)

  /** A length symbol of n bits in all, extra bits included. */
  ghost predicate HasLength(b: Block, w: nat, len: nat, n: nat)
    requires BlockOk(b)
  {
    LookupOk(b.lcode, b.lroot, LENS, w);
    var f := Lookup(b.lcode, b.lroot, w);
    && IsBase(f.entry.op) && n == f.used + f.entry.op - 16
    && len == f.entry.val + Low(Shr(w, f.used), f.entry.op - 16)
  }

  /** The bits that the current step is about to use. */
  ghost function Needed(b: Block, w: nat, s: Slow): nat
    requires BlockOk(b)
  {
    match s.phase
    case Len => LookupOk(b.lcode, b.lroot, LENS, w); Lookup(b.lcode, b.lroot, w).used
    case Dist => LookupOk(b.dcode, b.droot, DISTS, w); Lookup(b.dcode, b.droot, w).used
    case LenExt => s.extra
    case DistExt => s.extra
    case _ => 0
  }

  /** The decoder is inside the symbol that starts at st, having produced `text` in all. */
  ghost predicate Pending(b: Block, inp: seq<byte>, st: State, s: Slow, text: seq<byte>)
    requires BlockOk(b)
  {
    && AccOk(inp, s.acc) && Pos(s.acc) >= st.p
    && s.acc.bits < 8 + Needed(b, Ahead(inp, Pos(s.acc)), s)
    && Inside(b, Ahead(inp, st.p), st, s, Pos(s.acc) - st.p, text)
  }

  /** ... n bits into it. */
  ghost predicate Inside(b: Block, w: nat, st: State, s: Slow, n: nat, text: seq<byte>)
    requires BlockOk(b)
  {
    match s.phase
    case Type => n == 0 && st.mode == TYPE && text == st.text
    case Bad => n == 0 && st.mode == BAD && text == st.text
    case Len => n == 0 && st.mode == LEN && text == st.text
    case Lit => st.mode == LEN && s.length < 256 && Decode(b, w) == Literal(s.length, n) && text == st.text
    case LenExt =>
      st.mode == LEN && s.extra <= 5 && HasLength(b, w, s.length + Low(Shr(w, n), s.extra), n + s.extra)
      && text == st.text
    case Dist => st.mode == LEN && HasLength(b, w, s.length, n) && text == st.text
    case DistExt =>
      st.mode == LEN && text == st.text && s.extra <= 13
      && Decode(b, w) == Match(s.length, s.offset + Low(Shr(w, n), s.extra), n + s.extra)
    case Matching =>
      st.mode == LEN && Decode(b, w).Match?
      && var d := Decode(b, w);
      && d.used == n && s.offset == d.dist && 1 <= s.length <= d.len
      && 1 <= d.dist <= |st.text| && text == Copy(st.text, d.dist, d.len - s.length)
  }

  /** The bit tests on an operation code, for the codes that the tables can hold. */
  lemma OpBits(op: nat)
    requires op < 32 || op in {64, 96, 196, 201}
    ensures And(op, 16) != 0 <==> IsBase(op)
    ensures And(op, 32) != 0 <==> op == 96
    ensures And(op, 64) != 0 <==> op >= 64
    ensures IsBase(op) ==> And(op, 15) == op - 16
  {
    hide And;
    PowersHere();
    AndBit(op, 4);
    AndBit(op, 5);
    AndBit(op, 6);
    AndMask(op, 4);
  }

  lemma PowersHere()
    ensures Pow2(4) == 16 && Pow2(5) == 32 && Pow2(6) == 64
  {
    assert Pow2(3) == 8;
    assert Pow2(5) == 32;
  }

  lemma BothTables(b: Block)
    requires BlockOk(b)
    ensures TableOk(b.lcode, b.lroot, LENS) && TableOk(b.dcode, b.droot, DISTS)
  {
  }

  lemma DecodeAtLeast(b: Block, w: nat)
    requires BlockOk(b)
    ensures Lookup(b.lcode, b.lroot, w).Found? && Decode(b, w).used >= Lookup(b.lcode, b.lroot, w).used
  {
    hide TableOk, Lookup, Low, Shr;
    LookupOk(b.lcode, b.lroot, LENS, w);
    var f := Lookup(b.lcode, b.lroot, w);
    if IsBase(f.entry.op) { LookupOk(b.dcode, b.droot, DISTS, Shr(w, f.used + f.entry.op - 16)); }
  }

  /** The accumulator is n bits into the symbol of st with less than a byte to spare. */
  ghost predicate At(inp: seq<byte>, st: State, a: Acc, n: nat)
  {
    AccOk(inp, a) && Pos(a) == st.p + n && a.bits < 8 && st.mode == LEN
  }

  /** The available input ends inside the symbol of st. */
  ghost predicate Starved(b: Block, inp: seq<byte>, st: State, lim: nat)
    requires BlockOk(b)
  {
    8 * lim < st.p + Decode(b, Ahead(inp, st.p)).used
  }

  lemma AheadShr(inp: seq<byte>, p: nat, n: nat)
    ensures Ahead(inp, p + n) == Shr(Ahead(inp, p), n)
  {
    hide Shr;
    ShrShr(Num(inp), p, n);
  }

  lemma ToLit(b: Block, inp: seq<byte>, st: State, s: Slow, e: Code, n: nat)
    requires BlockOk(b) && At(inp, st, s.acc, n) && s.phase == Lit && s.length == e.val && e.op == 0
    requires Lookup(b.lcode, b.lroot, Ahead(inp, st.p)) == Found(e, n)
    ensures Pending(b, inp, st, s, st.text)
  {
    hide Lookup, Low, Shr, Ahead, TableOk, Holding;
    LookupOk(b.lcode, b.lroot, LENS, Ahead(inp, st.p));
  }

  lemma ToLenExt(b: Block, inp: seq<byte>, st: State, s: Slow, e: Code, n: nat)
    requires BlockOk(b) && At(inp, st, s.acc, n)
    requires s.phase == LenExt && IsBase(e.op) && s.length == e.val && s.extra == e.op - 16
    requires Lookup(b.lcode, b.lroot, Ahead(inp, st.p)) == Found(e, n)
    ensures Pending(b, inp, st, s, st.text)
  {
    hide Lookup, Low, Shr, Ahead, TableOk, Holding, Pow2;
    LookupOk(b.lcode, b.lroot, LENS, Ahead(inp, st.p));
  }

  lemma ToEnd(b: Block, inp: seq<byte>, lo: nat, st: State, s: Slow, e: Code, n: nat)
    requires BlockOk(b) && At(inp, st, s.acc, n) && e.op >= 32
    requires s.phase == if e.op == 96 then Type else Bad
    requires Lookup(b.lcode, b.lroot, Ahead(inp, st.p)) == Found(e, n)
    ensures Pending(b, inp, Next(b, inp, lo, st), s, st.text)
  {
    hide Lookup, Low, Shr, Ahead, TableOk, Holding;
  }

  /** State LEN. */
  method StepLen(b: Block, inp: seq<byte>, lim: nat, s: Slow, ghost lo: nat, ghost st: State)
    returns (ok: bool, s': Slow, ghost st': State)
    requires BlockOk(b) && Pending(b, inp, st, s, st.text) && s.phase == Len && s.acc.next <= lim <= |inp|
    ensures Pending(b, inp, st', s', st.text) && s'.acc.next <= lim
    ensures st' == if s'.phase == Type || s'.phase == Bad then Next(b, inp, lo, st) else st
    ensures ok <==> s'.phase != Len
    ensures s'.phase in {Len, Type, Bad, Lit, LenExt}
    ensures !ok ==> Starved(b, inp, st, lim)
  {
    hide Holding, Lookup, Low, Shr, Ahead, TableOk, Next, Decode;
    ghost var w := Ahead(inp, st.p);
    LookupOk(b.lcode, b.lroot, LENS, w);
    DecodeAtLeast(b, w);
    var e, a;
    ok, e, a := DecodeEntry(b.lcode, b.lroot, LENS, inp, lim, s.acc);
    s', st' := s.(acc := a), st;
    if ok {
      ghost var n := Pos(a) - st.p;
      OpBits(e.op);
      if e.op == 0 {
        s' := s'.(phase := Lit, length := e.val);
        ToLit(b, inp, st, s', e, n);
      } else if And(e.op, 32) != 0 {
        s' := s'.(phase := Type);
        ToEnd(b, inp, lo, st, s', e, n);
        st' := Next(b, inp, lo, st);
      } else if And(e.op, 64) != 0 {
        s' := s'.(phase := Bad);
        ToEnd(b, inp, lo, st, s', e, n);
        st' := Next(b, inp, lo, st);
      } else {
        s' := s'.(phase := LenExt, length := e.val, extra := And(e.op, 15));
        ToLenExt(b, inp, st, s', e, n);
      }
    }
  }

  /** The extra bits of LENEXT and DISTEXT. */
  method TakeExtra(inp: seq<byte>, lim: nat, a0: Acc, extra: nat) returns (ok: bool, v: nat, a: Acc)
    requires AccOk(inp, a0) && a0.next <= lim <= |inp| && extra <= 16 && a0.bits < 8 + extra
    ensures AccOk(inp, a) && a.next <= lim
    ensures ok <==> Pos(a0) + extra <= 8 * lim
    ensures if ok then Pos(a) == Pos(a0) + extra && a.bits < 8 && v == Low(Ahead(inp, Pos(a0)), extra)
            else Pos(a) == Pos(a0) && a.bits < 8 + extra
  {
    hide Low, Ahead;
    ok, v, a := true, 0, a0;
    LowNone(Ahead(inp, Pos(a0)));
    if extra != 0 {
      ok, a := NeedBits(inp, lim, a, extra);
      if ok {
        Peek(inp, a.next, a.hold, a.bits, extra);
        v := Low(a.hold, extra);
        a := DropBits(inp, a, extra);
      }
    }
  }

  lemma LowNone(x: nat)
    ensures Low(x, 0) == 0
  {
  }

  lemma LengthFirst(b: Block, w: nat, len: nat, n: nat)
    requires BlockOk(b) && HasLength(b, w, len, n)
    ensures Lookup(b.dcode, b.droot, Shr(w, n)).Found? && Decode(b, w) == Distance(b, w, len, n)
    ensures Decode(b, w).used >= n + Lookup(b.dcode, b.droot, Shr(w, n)).used
  {
    hide TableOk, Lookup, Low, Shr;
    LookupOk(b.dcode, b.droot, DISTS, Shr(w, n));
  }

  lemma ToDist(b: Block, inp: seq<byte>, st: State, s: Slow, s': Slow)
    requires BlockOk(b) && Pending(b, inp, st, s, st.text) && s.phase == LenExt
    requires At(inp, st, s'.acc, Pos(s.acc) + s.extra - st.p) && s'.phase == Dist
    requires s'.length == s.length + Low(Ahead(inp, Pos(s.acc)), s.extra)
    ensures Pending(b, inp, st, s', st.text)
  {
    hide TableOk, Lookup, Low, Shr, Ahead, HasLength, Holding;
    AheadShr(inp, st.p, Pos(s.acc) - st.p);
  }

  lemma LenExtFacts(b: Block, inp: seq<byte>, st: State, s: Slow)
    requires BlockOk(b) && Pending(b, inp, st, s, st.text) && s.phase == LenExt
    ensures s.extra <= 5 && st.p + Decode(b, Ahead(inp, st.p)).used >= Pos(s.acc) + s.extra
  {
    hide TableOk, Lookup, Low, Shr, Ahead, Decode, Distance, Holding, Pow2;
    var w, n := Ahead(inp, st.p), Pos(s.acc) - st.p;
    LengthFirst(b, w, s.length + Low(Shr(w, n), s.extra), n + s.extra);
  }

  /** State LENEXT. */
  method StepLenExt(b: Block, inp: seq<byte>, lim: nat, s: Slow, ghost st: State) returns (ok: bool, s': Slow)
    requires BlockOk(b) && Pending(b, inp, st, s, st.text) && s.phase == LenExt && s.acc.next <= lim <= |inp|
    ensures Pending(b, inp, st, s', st.text) && s'.acc.next <= lim
    ensures s'.phase == if ok then Dist else LenExt
    ensures !ok ==> Starved(b, inp, st, lim)
  {
    hide Holding, Lookup, Low, Shr, Ahead, TableOk, Decode, HasLength;
    LenExtFacts(b, inp, st, s);
    var v, a;
    ok, v, a := TakeExtra(inp, lim, s.acc, s.extra);
    s' := s.(acc := a);
    if ok {
      s' := s'.(phase := Dist, length := s.length + v);
      ToDist(b, inp, st, s, s');
    }
  }

  lemma ToDistExt(b: Block, inp: seq<byte>, st: State, s: Slow, e: Code, g: nat, s': Slow)
    requires BlockOk(b) && Pending(b, inp, st, s, st.text) && s.phase == Dist
    requires Lookup(b.dcode, b.droot, Ahead(inp, Pos(s.acc))) == Found(e, g) && IsBase(e.op)
    requires At(inp, st, s'.acc, Pos(s.acc) + g - st.p)
    requires s' == s.(phase := DistExt, acc := s'.acc, offset := e.val, extra := e.op - 16)
    ensures Pending(b, inp, st, s', st.text)
  {
    hide TableOk, Lookup, Low, Shr, Ahead, Decode, Holding, Pow2;
    var w, n := Ahead(inp, st.p), Pos(s.acc) - st.p;
    AheadShr(inp, st.p, n);
    LengthFirst(b, w, s.length, n);
    LookupOk(b.dcode, b.droot, DISTS, Shr(w, n));
  }

  lemma ToBadDist(b: Block, inp: seq<byte>, lo: nat, st: State, s: Slow, e: Code, g: nat, s': Slow)
    requires BlockOk(b) && Pending(b, inp, st, s, st.text) && s.phase == Dist
    requires Lookup(b.dcode, b.droot, Ahead(inp, Pos(s.acc))) == Found(e, g) && !IsBase(e.op)
    requires At(inp, st, s'.acc, Pos(s.acc) + g - st.p) && s'.phase == Bad
    ensures Pending(b, inp, Next(b, inp, lo, st), s', st.text)
  {
    hide TableOk, Lookup, Low, Shr, Ahead, Decode, Holding, Pow2;
    var w, n := Ahead(inp, st.p), Pos(s.acc) - st.p;
    AheadShr(inp, st.p, n);
    LengthFirst(b, w, s.length, n);
  }

  lemma DistFacts(b: Block, inp: seq<byte>, st: State, s: Slow)
    requires BlockOk(b) && Pending(b, inp, st, s, st.text) && s.phase == Dist
    ensures Lookup(b.dcode, b.droot, Ahead(inp, Pos(s.acc))).Found?
    ensures s.acc.bits < 8 + Lookup(b.dcode, b.droot, Ahead(inp, Pos(s.acc))).used
    ensures st.p + Decode(b, Ahead(inp, st.p)).used
            >= Pos(s.acc) + Lookup(b.dcode, b.droot, Ahead(inp, Pos(s.acc))).used
  {
    hide TableOk, Lookup, Low, Shr, Ahead, Decode, Distance, Holding;
    var w, n := Ahead(inp, st.p), Pos(s.acc) - st.p;
    AheadShr(inp, st.p, n);
    LengthFirst(b, w, s.length, n);
  }

  /** State DIST. */
  method StepDist(b: Block, inp: seq<byte>, lim: nat, s: Slow, ghost lo: nat, ghost st: State)
    returns (ok: bool, s': Slow, ghost st': State)
    requires BlockOk(b) && Pending(b, inp, st, s, st.text) && s.phase == Dist && s.acc.next <= lim <= |inp|
    ensures Pending(b, inp, st', s', st.text) && s'.acc.next <= lim
    ensures st' == if s'.phase == Bad then Next(b, inp, lo, st) else st
    ensures s'.phase in {Dist, DistExt, Bad} && (ok <==> s'.phase != Dist)
    ensures !ok ==> Starved(b, inp, st, lim)
  {
    hide Holding, Lookup, Low, Shr, Ahead, TableOk, Decode, HasLength, Next;
    DistFacts(b, inp, st, s);
    LookupOk(b.dcode, b.droot, DISTS, Ahead(inp, Pos(s.acc)));
    var e, a;
    ok, e, a := DecodeEntry(b.dcode, b.droot, DISTS, inp, lim, s.acc);
    s', st' := s.(acc := a), st;
    if ok {
      ghost var g := Pos(a) - Pos(s.acc);
      OpBits(e.op);
      if And(e.op, 64) != 0 {
        s' := s'.(phase := Bad);
        ToBadDist(b, inp, lo, st, s, e, g, s');
        st' := Next(b, inp, lo, st);
      } else {
        s' := s'.(phase := DistExt, offset := e.val, extra := And(e.op, 15));
        ToDistExt(b, inp, st, s, e, g, s');
      }
    }
  }

  lemma ToMatching(b: Block, inp: seq<byte>, lo: nat, st: State, s: Slow, s': Slow)
    requires BlockOk(b) && Pending(b, inp, st, s, st.text) && s.phase == DistExt
    requires At(inp, st, s'.acc, Pos(s.acc) + s.extra - st.p) && s'.length == s.length
    requires s'.offset == s.offset + Low(Ahead(inp, Pos(s.acc)), s.extra)
    requires s'.phase == if s'.offset > |st.text| - lo then Bad else Matching
    ensures s'.phase == Bad ==> Pending(b, inp, Next(b, inp, lo, st), s', st.text)
    ensures s'.phase == Matching ==> Pending(b, inp, st, s', st.text)
  {
    hide TableOk, Lookup, Low, Shr, Ahead, Decode, Holding, Copy;
    AheadShr(inp, st.p, Pos(s.acc) - st.p);
    DecodeBounds(b, Ahead(inp, st.p));
    if s'.phase == Matching { CopyNone(st.text, s'.offset); }
  }

  /** text[lo..] is what matches may use: the part in the window and in the output of this call, or, if
      no match from st on reaches back further than the window, simply everything. */
  ghost predicate Reach(b: Block, inp: seq<byte>, st: State, w: W.Window, lo: nat)
    requires BlockOk(b)
    reads w, w.window
  {
    w.Valid() && (lo == |w.hist| - w.have || (lo == 0 && NearRun(b, inp, st, w.window.Length)))
  }

  lemma ReachLater(b: Block, inp: seq<byte>, st: State, w: W.Window, lo: nat, k: nat)
    requires BlockOk(b) && Reach(b, inp, st, w, lo)
    ensures Reach(b, inp, Run(b, inp, lo, st, k), w, lo)
  {
    hide BlockOk, NearRun, Run, W.Holds;
    if lo != |w.hist| - w.have { NearLater(b, inp, st, w.window.Length, k); }
  }

  /** A match in progress is within reach. */
  ghost predicate Ready(w: W.Window, lo: nat, out: seq<byte>, st: State, s: Slow)
    reads w
  {
    s.phase == Matching ==> s.offset <= w.have + |out| && s.offset <= |st.text| - lo
  }

  /** The test of the code, with what the window holds, agrees with the meaning. */
  lemma TooFar(b: Block, inp: seq<byte>, st: State, w: W.Window, lo: nat, out: seq<byte>, dist: nat)
    requires BlockOk(b) && Reach(b, inp, st, w, lo) && st.mode == LEN && st.text == w.hist + out
    requires Decode(b, Ahead(inp, st.p)).Match? && Decode(b, Ahead(inp, st.p)).dist == dist && Given(b, inp, st)
    ensures dist > w.have + |out| <==> dist > |w.hist + out| - lo
  {
    hide W.Holds, NearRun, BlockOk, Decode, Ahead, Given;
    W.InRange(w.window[..], w.have, w.write, w.hist);
    if lo != |w.hist| - w.have { NearNow(b, inp, st, w.window.Length); }
  }

  lemma DistExtFacts(b: Block, inp: seq<byte>, st: State, s: Slow)
    requires BlockOk(b) && Pending(b, inp, st, s, st.text) && s.phase == DistExt
    ensures var d := Decode(b, Ahead(inp, st.p));
            && st.mode == LEN && d.Match? && d.dist == s.offset + Low(Ahead(inp, Pos(s.acc)), s.extra)
            && st.p + d.used == Pos(s.acc) + s.extra
  {
    hide TableOk, Lookup, Low, Shr, Ahead, Decode, Holding;
    AheadShr(inp, st.p, Pos(s.acc) - st.p);
    DecodeBounds(b, Ahead(inp, st.p));
  }

  /** State DISTEXT. */
  method StepDistExt(b: Block, inp: seq<byte>, lim: nat, w: W.Window, out: seq<byte>, s: Slow, ghost lo: nat,
                     ghost st: State)
    returns (ok: bool, s': Slow, ghost st': State)
    requires BlockOk(b) && Pending(b, inp, st, s, st.text) && s.phase == DistExt && s.acc.next <= lim <= |inp|
    requires Reach(b, inp, st, w, lo) && w.hist + out == st.text
    ensures Pending(b, inp, st', s', st.text) && s'.acc.next <= lim
    ensures st' == if s'.phase == Bad then Next(b, inp, lo, st) else st
    ensures s'.phase in {DistExt, Matching, Bad} && (ok <==> s'.phase != DistExt)
    ensures Ready(w, lo, out, st, s')
    ensures !ok ==> Starved(b, inp, st, lim)
  {
    hide Holding, Lookup, Low, Shr, Ahead, TableOk, HasLength, Next, Decode, Reach, W.Holds;
    DistExtFacts(b, inp, st, s);
    var v, a;
    ok, v, a := TakeExtra(inp, lim, s.acc, s.extra);
    s', st' := s.(acc := a), st;
    if ok {
      TooFar(b, inp, st, w, lo, out, s.offset + v);
      s' := s'.(phase := Matching, offset := s.offset + v);
      if s'.offset > w.have + |out| {
        s' := s'.(phase := Bad);
      }
      ToMatching(b, inp, lo, st, s, s');
      if s'.phase == Bad { st' := Next(b, inp, lo, st); }
    }
  }

  lemma MatchMoves(b: Block, inp: seq<byte>, lo: nat, st: State, s: Slow, text: seq<byte>, n: nat, s': Slow,
                   text': seq<byte>)
    requires BlockOk(b) && Pending(b, inp, st, s, text) && s.phase == Matching && s.offset <= |st.text| - lo
    requires 1 <= n <= s.length && s.offset <= |text| && text' == Copy(text, s.offset, n)
    requires s' == s.(length := s.length - n, phase := if n == s.length then Len else Matching)
    ensures s'.phase == Matching ==> Pending(b, inp, st, s', text')
    ensures s'.phase == Len ==> Pending(b, inp, Next(b, inp, lo, st), s', text') && Next(b, inp, lo, st).text == text'
  {
    hide TableOk, Lookup, Low, Shr, Ahead, Decode, Holding, Copy;
    var d := Decode(b, Ahead(inp, st.p));
    CopySplit(st.text, d.dist, d.len - s.length, n);
  }

  lemma LitMoves(b: Block, inp: seq<byte>, lo: nat, st: State, s: Slow, s': Slow)
    requires BlockOk(b) && Pending(b, inp, st, s, st.text) && s.phase == Lit && s' == s.(phase := Len)
    requires s.length < 256
    ensures var st' := Next(b, inp, lo, st);
            st'.text == st.text + [s.length as byte] && Pending(b, inp, st', s', st'.text)
  {
    hide TableOk, Lookup, Low, Shr, Ahead, Decode, Holding;
  }

  /** State MATCH, with room in the output. */
  method StepMatch(b: Block, inp: seq<byte>, w: W.Window, out: seq<byte>, room: nat, s: Slow, ghost lo: nat,
                   ghost st: State)
    returns (out': seq<byte>, s': Slow, ghost st': State)
    requires BlockOk(b) && Pending(b, inp, st, s, w.hist + out) && s.phase == Matching && |out| < room
    requires Reach(b, inp, st, w, lo) && Ready(w, lo, out, st, s)
    ensures Pending(b, inp, st', s', w.hist + out') && |out'| <= room
    ensures s'.phase == Len || (s'.phase == Matching && s'.length < s.length)
    ensures st' == if s'.phase == Len then Next(b, inp, lo, st) else st
    ensures Ready(w, lo, out', st', s') && s'.acc == s.acc
  {
    hide Holding, Lookup, Low, Shr, Ahead, TableOk, HasLength, Next, Decode, W.Holds, Copy;
    W.InRange(w.window[..], w.have, w.write, w.hist);
    var copied;
    out', copied := W.SlowCopy(w, out, s.offset, s.length, room - |out|);
    s' := s.(length := s.length - copied);
    if s'.length == 0 { s' := s'.(phase := Len); }
    MatchMoves(b, inp, lo, st, s, w.hist + out, copied, s', w.hist + out');
    st' := if s'.phase == Len then Next(b, inp, lo, st) else st;
    assert |w.hist + out'| == |w.hist + out| + copied;
  }

  /** State LIT, with room in the output. */
  method StepLit(b: Block, inp: seq<byte>, ghost hist: seq<byte>, out: seq<byte>, s: Slow, ghost lo: nat,
                 ghost st: State)
    returns (out': seq<byte>, s': Slow)
    requires BlockOk(b) && Pending(b, inp, st, s, hist + out) && s.phase == Lit
    ensures Pending(b, inp, Next(b, inp, lo, st), s', hist + out') && s'.phase == Len
    ensures |out'| == |out| + 1 && s'.acc == s.acc
  {
    hide Holding, Lookup, Low, Shr, Ahead, TableOk, HasLength, Next, Decode;
    out' := out + [s.length as byte];
    s' := s.(phase := Len);
    LitMoves(b, inp, lo, st, s, s');
    assert hist + out' == hist + out + [s.length as byte];
  }
}
