/** Decoding a compressed block bit by bit: what inflate's fast and slow paths both compute. */
module InflateSpec {
  import opened Bits
  import opened Reverse
  import opened Canonical
  import opened InfTable
  import opened CodeTables
  import opened Lz77

  // ----- the input as a bit string

  /** The input as one number, the first byte least significant. */
  function Num(s: seq<byte>): nat
  {
    if s == [] then 0 else s[0] as nat + 256 * Num(s[1..])
  }

  /** The bits from position p on. */
  function Ahead(inp: seq<byte>, p: nat): nat
  {
    Shr(Num(inp), p)
  }

  lemma {:induction false} ShrShr(x: nat, a: nat, b: nat)
    ensures Shr(Shr(x, a), b) == Shr(x, a + b)
    decreases a
  {
    if a > 0 { ShrShr(x / 2, a - 1, b); }
  }

  lemma {:induction false} NumByte(inp: seq<byte>, k: nat)
    requires k < |inp|
    ensures Low(Shr(Num(inp), 8 * k), 8) == inp[k]
    decreases k
  {
    hide Low, Shr;
    var rest := Num(inp[1..]);
    EightBits();
    LowShr(Num(inp), rest, inp[0], 8);
    if k == 0 {
      ShrZero(Num(inp));
    } else {
      NumByte(inp[1..], k - 1);
      ShrShr(Num(inp), 8, 8 * (k - 1));
    }
  }

  lemma EightBits()
    ensures Pow2(8) == 256
  {
  }

  lemma {:induction false} ShrLow(w: nat, b: nat, n: nat)
    requires n <= b
    ensures Shr(Low(w, b), n) == Low(Shr(w, n), b - n)
    decreases n
  {
    if n > 0 { ShrLow(w / 2, b - 1, n - 1); }
  }

  /** The accumulator holds the next `bits` bits of the input; `next` is the first byte not in it. */
  predicate Holding(inp: seq<byte>, next: nat, hold: nat, bits: nat)
  {
    next <= |inp| && bits <= 8 * next && hold == Low(Ahead(inp, 8 * next - bits), bits)
  }

  lemma Pull(inp: seq<byte>, next: nat, hold: nat, bits: nat)
    requires Holding(inp, next, hold, bits) && next < |inp|
    ensures Holding(inp, next + 1, hold + inp[next] * Pow2(bits), bits + 8)
  {
    hide Low, Shr, Pow2, Num;
    var p := 8 * next - bits;
    LowJoin(Ahead(inp, p), bits, 8);
    ShrShr(Num(inp), p, bits);
    NumByte(inp, next);
    Commute(Pow2(bits), inp[next]);
  }

  lemma Drop(inp: seq<byte>, next: nat, hold: nat, bits: nat, n: nat)
    requires Holding(inp, next, hold, bits) && n <= bits
    ensures Holding(inp, next, Shr(hold, n), bits - n)
  {
    hide Low, Shr, Num;
    var p := 8 * next - bits;
    ShrLow(Ahead(inp, p), bits, n);
    ShrShr(Num(inp), p, n);
  }

  lemma Peek(inp: seq<byte>, next: nat, hold: nat, bits: nat, n: nat)
    requires Holding(inp, next, hold, bits) && n <= bits
    ensures Low(hold, n) == Low(Ahead(inp, 8 * next - bits), n)
  {
    hide Shr, Num;
    LowLow(Ahead(inp, 8 * next - bits), bits, n);
  }

  lemma HoldSmall(inp: seq<byte>, next: nat, hold: nat, bits: nat)
    requires Holding(inp, next, hold, bits)
    ensures hold < Pow2(bits)
  {
    hide Shr, Num;
    LowBound(Ahead(inp, 8 * next - bits), bits);
  }

  /** Giving whole bytes back. */
  lemma Unpull(inp: seq<byte>, next: nat, hold: nat, bits: nat, k: nat)
    requires Holding(inp, next, hold, bits) && 8 * k <= bits
    ensures Holding(inp, next - k, Low(hold, bits - 8 * k), bits - 8 * k)
  {
    Peek(inp, next, hold, bits, bits - 8 * k);
  }

  // ----- one symbol

  /** The tables of a block. */
  datatype Block = Block(lcode: seq<Code>, lroot: nat, dcode: seq<Code>, droot: nat)

  ghost predicate BlockOk(b: Block)
  {
    TableOk(b.lcode, b.lroot, LENS) && TableOk(b.dcode, b.droot, DISTS)
  }

  /** A decoded symbol and the number of bits it takes. */
  datatype Symbol =
    | Literal(b: byte, used: nat)
    | Match(len: nat, dist: nat, used: nat)
    | EndOfBlock(used: nat)
    | Invalid(used: nat)

  predicate IsBase(op: nat)
  {
    16 <= op < 32
  }

  lemma LookupOk(t: seq<Code>, root: nat, kind: CodeType, w: nat)
    requires TableOk(t, root, kind)
    ensures var f := Lookup(t, root, w);
            f.Found? && 1 <= f.used <= MAXBITS && ActionOk(kind, f.entry.op, f.entry.val)
  {
    hide Low, Shr, ActionOk, Settled;
    assert EntryOk(t, root, kind, w);
    var i := Low(w, root);
    assert IsLink(t[i]) ==> t[i].bits == root;
  }

  /** The distance part of a match of length len whose length took n bits. */
  function Distance(b: Block, w: nat, len: nat, n: nat): (s: Symbol)
    requires Lookup(b.dcode, b.droot, Shr(w, n)).Found?
  {
    var f := Lookup(b.dcode, b.droot, Shr(w, n));
    var m := n + f.used;
    if IsBase(f.entry.op) then
      Match(len, f.entry.val + Low(Shr(w, m), f.entry.op - 16), m + f.entry.op - 16)
    else Invalid(m)
  }

  /** The symbol that the bits w start with. */
  ghost function Decode(b: Block, w: nat): (s: Symbol)
    requires BlockOk(b)
  {
    LookupOk(b.lcode, b.lroot, LENS, w);
    var f := Lookup(b.lcode, b.lroot, w);
    if f.entry.op == 0 then Literal(f.entry.val, f.used)
    else if IsBase(f.entry.op) then
      var n := f.used + f.entry.op - 16;
      LookupOk(b.dcode, b.droot, DISTS, Shr(w, n));
      Distance(b, w, f.entry.val + Low(Shr(w, f.used), f.entry.op - 16), n)
    else if f.entry.op == 96 then EndOfBlock(f.used)
    else Invalid(f.used)
  }

  lemma DecodeBounds(b: Block, w: nat)
    requires BlockOk(b)
    ensures var s := Decode(b, w);
            && s.used >= 1
            && (s.Match? ==> s.used <= 48 && 3 <= s.len <= 258 && 1 <= s.dist <= 32768)
            && (!s.Match? ==> s.used <= 35)
            && (s.Literal? || s.EndOfBlock? ==> s.used <= 15)
  {
    hide Lookup, Shr, Low, TableOk;
    LookupOk(b.lcode, b.lroot, LENS, w);
    var f := Lookup(b.lcode, b.lroot, w);
    if IsBase(f.entry.op) {
      var x := f.entry.op - 16;
      LowBound(Shr(w, f.used), x);
      var n := f.used + x;
      LookupOk(b.dcode, b.droot, DISTS, Shr(w, n));
      var g := Lookup(b.dcode, b.droot, Shr(w, n));
      if IsBase(g.entry.op) { LowBound(Shr(w, n + g.used), g.entry.op - 16); }
    }
  }

  // ----- the run of a block

  datatype Mode = LEN | TYPE | BAD

  /** The state between symbols: the bit position, all the output so far, and the mode. */
  datatype State = State(p: nat, text: seq<byte>, mode: Mode)

  /** One symbol; text[lo..] is the part of the output that is still available to matches. */
  ghost function Next(b: Block, inp: seq<byte>, lo: nat, st: State): (st': State)
    requires BlockOk(b)
  {
    if st.mode != LEN then st
    else
      DecodeBounds(b, Ahead(inp, st.p));
      match Decode(b, Ahead(inp, st.p))
      case Literal(c, n) => State(st.p + n, st.text + [c], LEN)
      case EndOfBlock(n) => State(st.p + n, st.text, TYPE)
      case Invalid(n) => State(st.p + n, st.text, BAD)
      case Match(len, dist, n) =>
        if dist > |st.text| - lo then State(st.p + n, st.text, BAD)
        else State(st.p + n, Copy(st.text, dist, len), LEN)
  }

  ghost function Run(b: Block, inp: seq<byte>, lo: nat, st: State, k: nat): State
    requires BlockOk(b)
  {
    if k == 0 then st else Next(b, inp, lo, Run(b, inp, lo, st, k - 1))
  }

  lemma {:induction false} RunSplit(b: Block, inp: seq<byte>, lo: nat, st: State, j: nat, k: nat)
    requires BlockOk(b)
    ensures Run(b, inp, lo, Run(b, inp, lo, st, j), k) == Run(b, inp, lo, st, j + k)
    decreases k
  {
    hide Next, BlockOk;
    if k > 0 { RunSplit(b, inp, lo, st, j, k - 1); }
  }

  /** The match at st, if it is one, reaches back n bytes at most, or further than there is text. */
  ghost predicate Near(b: Block, inp: seq<byte>, st: State, n: nat)
    requires BlockOk(b)
  {
    var s := Decode(b, Ahead(inp, st.p));
    st.mode == LEN && s.Match? ==> s.dist <= n || s.dist > |st.text|
  }

  /** The input holds the whole symbol of st. */
  ghost predicate Given(b: Block, inp: seq<byte>, st: State)
    requires BlockOk(b)
  {
    st.p + Decode(b, Ahead(inp, st.p)).used <= 8 * |inp|
  }

  /** So do all the matches from st on that the input holds. */
  ghost predicate NearRun(b: Block, inp: seq<byte>, st: State, n: nat)
    requires BlockOk(b)
  {
    forall k: nat :: Given(b, inp, Run(b, inp, 0, st, k)) ==> Near(b, inp, Run(b, inp, 0, st, k), n)
  }

  lemma NearLater(b: Block, inp: seq<byte>, st: State, n: nat, j: nat)
    requires BlockOk(b) && NearRun(b, inp, st, n)
    ensures NearRun(b, inp, Run(b, inp, 0, st, j), n)
  {
    hide BlockOk, Near, Next, Run, Given;
    var q := Run(b, inp, 0, st, j);
    forall k: nat | Given(b, inp, Run(b, inp, 0, q, k))
      ensures Near(b, inp, Run(b, inp, 0, q, k), n)
    {
      RunSplit(b, inp, 0, st, j, k);
    }
  }

  lemma NearNow(b: Block, inp: seq<byte>, st: State, n: nat)
    requires BlockOk(b) && NearRun(b, inp, st, n) && Given(b, inp, st)
    ensures Near(b, inp, st, n)
  {
    hide BlockOk, Near, Next, Given;
    assert Run(b, inp, 0, st, 0) == st;
  }

  /** No match of the format reaches back further than 32K. */
  lemma NearAlways(b: Block, inp: seq<byte>, st: State, n: nat)
    requires BlockOk(b) && n >= 32768
    ensures NearRun(b, inp, st, n)
  {
    hide BlockOk, Next, Decode, Ahead, Run;
    forall k: nat
      ensures Near(b, inp, Run(b, inp, 0, st, k), n)
    {
      DecodeBounds(b, Ahead(inp, Run(b, inp, 0, st, k).p));
    }
  }

  /** Where only the last n bytes are left to a call, it goes on as if it had the whole text exactly if
      the match is near. */
  lemma NearIff(b: Block, inp: seq<byte>, st: State, n: nat)
    requires BlockOk(b) && n <= |st.text|
    ensures Next(b, inp, |st.text| - n, st) == Next(b, inp, 0, st) <==> Near(b, inp, st, n)
  {
    hide BlockOk, Decode, Ahead, Copy;
    DecodeBounds(b, Ahead(inp, st.p));
  }
}
