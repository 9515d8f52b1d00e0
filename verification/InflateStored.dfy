/** A stored block as inflate reads it: the states STORED and COPY. */
module InflateStored {
  import opened Bits
  import opened InfTable
  import opened InflateSpec
  import opened InflateSlow

  /** What becomes of a stored block: all of it is copied, the input or the room ends first, or its two
      lengths do not agree. */
  datatype Outcome = Whole | Part | Wrong

  /** The first byte at or after bit p. */
  function Byte(p: nat): nat
  {
    (p + 7) / 8
  }

  /** BYTEBITS: the rest of a byte is dropped. */
  method ByteBits(ghost inp: seq<byte>, a0: Acc) returns (a: Acc)
    requires AccOk(inp, a0)
    ensures AccOk(inp, a) && Pos(a) == 8 * Byte(Pos(a0)) && a.bits % 8 == 0 && a.next == a0.next
  {
    hide Holding, Shr;
    a := DropBits(inp, a0, a0.bits % 8);
    Aligned(a0.next, a0.bits);
  }

  lemma Aligned(next: nat, bits: nat)
    requires bits <= 8 * next
    ensures 8 * next - bits + bits % 8 == 8 * Byte(8 * next - bits) && (bits - bits % 8) % 8 == 0
  {
  }

  /** NEEDBITS(32) at a byte boundary. */
  method NeedWord(inp: seq<byte>, lim: nat, a0: Acc) returns (ok: bool, a: Acc)
    requires AccOk(inp, a0) && a0.next <= lim <= |inp| && a0.bits % 8 == 0
    ensures AccOk(inp, a) && Pos(a) == Pos(a0) && a.next <= lim && a.bits % 8 == 0
    ensures ok <==> Pos(a0) + 32 <= 8 * lim
    ensures ok ==> a.bits == 32
  {
    hide Holding;
    a := a0;
    while a.bits < 32
      invariant AccOk(inp, a) && Pos(a) == Pos(a0) && a.next <= lim && a.bits % 8 == 0
      decreases lim - a.next
    {
      if a.next == lim { return false, a; }
      a := PullByte(inp, a);
    }
    ok := true;
  }

  /** The lengths at the start of a stored block at byte q. */
  ghost function Size(inp: seq<byte>, q: nat): nat
  {
    Low(Ahead(inp, 8 * q), 16)
  }

  ghost predicate Agree(inp: seq<byte>, q: nat)
  {
    Low(Shr(Ahead(inp, 8 * q), 16), 16) == 65535 - Size(inp, q)
  }

  /** How much of n bytes can be copied. */
  function Copyable(n: nat, have: nat, left: nat): (c: nat)
    ensures c <= n && c <= have && c <= left && (c == n || c == have || c == left)
  {
    var c := if n > have then have else n;
    if c > left then left else c
  }

  /** STORED and COPY in one go.  Nothing is left in the accumulator behind the two lengths. */
  method Stored(inp: seq<byte>, lim: nat, a0: Acc, out0: seq<byte>, room: nat)
    returns (outcome: Outcome, out: seq<byte>, a: Acc)
    requires AccOk(inp, a0) && a0.next <= lim <= |inp| && |out0| <= room
    ensures AccOk(inp, a) && a.next <= lim
    ensures var q := Byte(Pos(a0));
            if q + 4 > lim then outcome == Part && out == out0
            else if !Agree(inp, q) then outcome == Wrong && out == out0
            else
              var n := Size(inp, q);
              var c := Copyable(n, lim - (q + 4), room - |out0|);
              && (outcome == if c == n then Whole else Part)
              && out == out0 + inp[q + 4..q + 4 + c] && a == Acc(q + 4 + c, 0, 0)
  {
    hide Holding, Low, Shr, Ahead, Byte;
    ghost var q := Byte(Pos(a0));
    var ok;
    a := ByteBits(inp, a0);
    ok, a := NeedWord(inp, lim, a);
    if !ok { return Part, out0, a; }
    WordIs(inp, a);
    assert a.next == q + 4;
    if Low(a.hold, 16) != 65535 - Shr(a.hold, 16) { return Wrong, out0, a; }
    var n, next := Low(a.hold, 16), a.next;
    var c := Copyable(n, lim - next, room - |out0|);
    out := out0 + inp[next..next + c];
    a := Acc(next + c, 0, 0);
    NothingHeld(inp, next + c);
    outcome := if c == n then Whole else Part;
  }

  lemma WordIs(inp: seq<byte>, a: Acc)
    requires AccOk(inp, a) && a.bits == 32 && Pos(a) % 8 == 0
    ensures var q := Pos(a) / 8;
            && Low(a.hold, 16) == Size(inp, q) <= 65535
            && Shr(a.hold, 16) == Low(Shr(Ahead(inp, 8 * q), 16), 16) <= 65535
  {
    hide Low, Shr, Ahead, Num;
    var w := Ahead(inp, Pos(a));
    Peek(inp, a.next, a.hold, a.bits, 16);
    ShrLow(w, 32, 16);
    LowBound(w, 16);
    LowBound(Shr(w, 16), 16);
    SixteenBits();
  }

  lemma NothingHeld(inp: seq<byte>, next: nat)
    requires next <= |inp|
    ensures AccOk(inp, Acc(next, 0, 0))
  {
  }
}
