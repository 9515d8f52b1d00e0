/** The header of a dynamic block as inflate reads it: the states TABLE, LENLENS and CODELENS. */
module InflateHeader {
  import opened Bits
  import opened Canonical
  import opened InfTable
  import opened CodeTables
  import opened InflateSpec
  import opened InflateSlow
  import opened CodeLengths

  // ----- the bits of an item

  /** The extra bits that follow the code-length symbol v. */
  function ExtraBits(v: nat): nat
  {
    if v < 16 then 0 else if v == 16 then 2 else if v == 17 then 3 else 7
  }

  function MakeItem(v: nat, x: nat): Item
  {
    if v < 16 then Item.Len(v) else if v == 16 then Rep(3 + x) else if v == 17 then Zeros(3 + x) else Zeros(11 + x)
  }

  /** The item that the bits w start with, and the number of bits it takes. */
  function ItemAt(t: seq<Code>, root: nat, w: nat): (Item, nat)
  {
    match Lookup(t, root, w)
    case NotFound => (Item.Len(0), 0)
    case Found(e, used) =>
      (MakeItem(e.val, Low(Shr(w, used), ExtraBits(e.val))), used + ExtraBits(e.val))
  }

  /** All the lengths, or an error, with the bit position after the last symbol. */
  datatype Lengths = Good(lens: seq<nat>, p: nat) | Malformed(p: nat)

  function ReadLengths(t: seq<Code>, root: nat, inp: seq<byte>, p: nat, have: seq<nat>, total: nat): (r: Lengths)
    ensures r.Good? && |have| <= total ==> |r.lens| == total
    decreases total - |have|
  {
    if |have| >= total then Good(have, p)
    else
      var (item, n) := ItemAt(t, root, Ahead(inp, p));
      match ExpandOne(have, item)
      case None => Malformed(p + n)
      case Some(h) =>
        if |h| > total || |h| <= |have| then Malformed(p + n) else ReadLengths(t, root, inp, p + n, h, total)
  }

  // ----- CODELENS

  /** The lookup loop, without dropping the code. */
  method PeekEntry(t: seq<Code>, root: nat, ghost kind: CodeType, inp: seq<byte>, lim: nat, a0: Acc)
    returns (ok: bool, e: Code, a: Acc)
    requires TableOk(t, root, kind) && Flat(t, root) && AccOk(inp, a0) && a0.next <= lim <= |inp|
    ensures AccOk(inp, a) && a.next <= lim && Pos(a) == Pos(a0)
    ensures var f := Lookup(t, root, Ahead(inp, Pos(a0)));
            && f.Found? && (ok <==> Pos(a0) + f.used <= 8 * lim) && (ok ==> f == Found(e, e.bits) && e.bits <= a.bits)
            && f.used <= MAXBITS && (a0.bits < 8 + f.used ==> a.bits < 8 + f.used)
  {
    hide TableOk, Lookup, Low, Ahead, Holding, Shr;
    LookupOk(t, root, kind, Ahead(inp, Pos(a0)));
    a := a0;
    Partial(t, root, kind, inp, a);
    ThroughLink(t, root, kind, a.hold);
    e := t[Low(a.hold, root)];
    while e.bits > a.bits
      invariant AccOk(inp, a) && Pos(a) == Pos(a0) && a.next <= lim
      invariant Low(a.hold, root) < |t| && e == t[Low(a.hold, root)]
      invariant var f := Lookup(t, root, Ahead(inp, Pos(a0))); a0.bits < 8 + f.used ==> a.bits < 8 + f.used
      decreases lim - a.next
    {
      Partial(t, root, kind, inp, a);
      ThroughLink(t, root, kind, a.hold);
      EntryBits(t, root, kind, a.hold);
      if a.next == lim { return false, e, a; }
      a := PullByte(inp, a);
      ThroughLink(t, root, kind, a.hold);
      e := t[Low(a.hold, root)];
    }
    Partial(t, root, kind, inp, a);
    ThroughLink(t, root, kind, a.hold);
    ok := true;
  }

  lemma ReadStep(t: seq<Code>, root: nat, inp: seq<byte>, p: nat, have: seq<nat>, total: nat, e: Code)
    requires |have| < total && Lookup(t, root, Ahead(inp, p)) == Found(e, e.bits)
    ensures var x := ExtraBits(e.val);
            var item := MakeItem(e.val, Low(Ahead(inp, p + e.bits), x));
            ReadLengths(t, root, inp, p, have, total) ==
            match ExpandOne(have, item)
            case None => Malformed(p + e.bits + x)
            case Some(h) =>
              if |h| > total || |h| <= |have| then Malformed(p + e.bits + x)
              else ReadLengths(t, root, inp, p + e.bits + x, h, total)
  {
    hide Lookup, Low, Shr, Ahead, ExpandOne;
    AheadShr(inp, p, e.bits);
  }

  lemma ReadDone(t: seq<Code>, root: nat, inp: seq<byte>, p: nat, have: seq<nat>, total: nat)
    requires |have| == total
    ensures ReadLengths(t, root, inp, p, have, total) == Good(have, p)
  {
  }

  /** The loop that stores a repeated length. */
  method Repeat(have0: seq<nat>, len: nat, copy: nat) returns (have: seq<nat>)
    ensures have == have0 + Times(len, copy)
  {
    have := have0;
    for i := 0 to copy
      invariant have == have0 + Times(len, i)
    {
      have := have + [len];
      assert Times(len, i + 1) == Times(len, i) + [len];
    }
  }

  /** One code-length symbol: ok if all its bits were there, bad if it is not allowed here. */
  method OneItem(t: seq<Code>, root: nat, inp: seq<byte>, lim: nat, a0: Acc, have0: seq<nat>, total: nat)
    returns (ok: bool, bad: bool, have: seq<nat>, a: Acc)
    requires TableOk(t, root, CODES) && Flat(t, root) && AccOk(inp, a0) && a0.next <= lim <= |inp|
    requires |have0| < total
    ensures AccOk(inp, a) && a.next <= lim
    ensures !ok ==> Pos(a) == Pos(a0) && have == have0 && 8 * lim < Pos(a0) + ItemAt(t, root, Ahead(inp, Pos(a0))).1
    ensures ok && bad ==>
              var r := ReadLengths(t, root, inp, Pos(a0), have0, total); r.Malformed? && r.p <= 8 * lim
    ensures ok && !bad ==> |have0| < |have| <= total && (a0.bits < 8 ==> a.bits < 8)
    ensures ok && !bad ==>
              ReadLengths(t, root, inp, Pos(a0), have0, total) == ReadLengths(t, root, inp, Pos(a), have, total)
  {
    hide TableOk, Flat, Lookup, Low, Ahead, Holding, Shr, ReadLengths;
    var e;
    bad, have := false, have0;
    LookupOk(t, root, CODES, Ahead(inp, Pos(a0)));
    ok, e, a := PeekEntry(t, root, CODES, inp, lim, a0);
    if !ok { return; }
    var x := ExtraBits(e.val);
    ok, a := NeedBits(inp, lim, a, e.bits + x);
    if !ok { return; }
    ReadStep(t, root, inp, Pos(a0), have0, total, e);
    a := DropBits(inp, a, e.bits);
    if e.val < 16 {
      have := have + [e.val];
      assert Pos(a) == Pos(a0) + e.bits + x;
    } else {
      Peek(inp, a.next, a.hold, a.bits, x);
      if e.val == 16 && have == [] { return true, true, have, a; }
      var len := if e.val == 16 then have[|have| - 1] else 0;
      var copy := (if e.val == 16 || e.val == 17 then 3 else 11) + Low(a.hold, x);
      a := DropBits(inp, a, x);
      if |have| + copy > total { return true, true, have, a; }
      have := Repeat(have, len, copy);
    }
  }

  lemma {:induction false} ReadForward(t: seq<Code>, root: nat, inp: seq<byte>, p: nat, have: seq<nat>, total: nat)
    ensures ReadLengths(t, root, inp, p, have, total).p >= p
    decreases total - |have|
  {
    hide ItemAt, Ahead;
    if |have| < total {
      var (item, n) := ItemAt(t, root, Ahead(inp, p));
      match ExpandOne(have, item)
      case None =>
      case Some(h) =>
        if |have| < |h| <= total { ReadForward(t, root, inp, p + n, h, total); }
    }
  }

  lemma ReadNeeds(t: seq<Code>, root: nat, inp: seq<byte>, p: nat, have: seq<nat>, total: nat)
    requires |have| < total
    ensures ReadLengths(t, root, inp, p, have, total).p >= p + ItemAt(t, root, Ahead(inp, p)).1
  {
    hide ItemAt, Ahead;
    var (item, n) := ItemAt(t, root, Ahead(inp, p));
    match ExpandOne(have, item)
    case None =>
    case Some(h) =>
      if |have| < |h| <= total { ReadForward(t, root, inp, p + n, h, total); }
  }

  /** State CODELENS, which can stop and go on between any two symbols. */
  method CodeLens(t: seq<Code>, root: nat, inp: seq<byte>, lim: nat, a0: Acc, have0: seq<nat>, total: nat)
    returns (ok: bool, bad: bool, have: seq<nat>, a: Acc)
    requires TableOk(t, root, CODES) && Flat(t, root) && AccOk(inp, a0) && a0.next <= lim <= |inp|
    requires |have0| <= total
    ensures AccOk(inp, a) && a.next <= lim && |have| <= total
    ensures ok <==> ReadLengths(t, root, inp, Pos(a0), have0, total).p <= 8 * lim
    ensures ok ==> (bad <==> ReadLengths(t, root, inp, Pos(a0), have0, total).Malformed?)
    ensures ok && !bad ==> ReadLengths(t, root, inp, Pos(a0), have0, total) == Good(have, Pos(a))
    ensures ok && !bad && a0.bits < 8 ==> a.bits < 8
    ensures !ok ==>
              && ReadLengths(t, root, inp, Pos(a0), have0, total) == ReadLengths(t, root, inp, Pos(a), have, total)
              && |have| < total && 8 * lim < Pos(a) + ItemAt(t, root, Ahead(inp, Pos(a))).1
  {
    hide TableOk, Flat, ItemAt, Ahead, Holding, ReadLengths;
    ok, bad, have, a := true, false, have0, a0;
    while |have| < total
      invariant AccOk(inp, a) && a.next <= lim && |have| <= total && (a0.bits < 8 ==> a.bits < 8)
      invariant ReadLengths(t, root, inp, Pos(a0), have0, total) == ReadLengths(t, root, inp, Pos(a), have, total)
      decreases total - |have|
    {
      var have1;
      ok, bad, have1, a := OneItem(t, root, inp, lim, a, have, total);
      if !ok { ReadNeeds(t, root, inp, Pos(a), have, total); }
      if !ok || bad { return; }
      have := have1;
    }
    ok, bad := true, false;
    AccWithin(inp, a, lim);
    ReadDone(t, root, inp, Pos(a), have, total);
  }

  lemma AccWithin(inp: seq<byte>, a: Acc, lim: nat)
    requires AccOk(inp, a) && a.next <= lim
    ensures Pos(a) <= 8 * lim
  {
  }

  // ----- LENLENS

  /** The order in which the lengths of the code-length code are sent: bl_order and order. */
  function Order(i: nat): (s: nat)
    requires i < 19
    ensures s < 19
  {
    match i
    case 0 => 16 case 1 => 17 case 2 => 18 case 3 => 0 case 4 => 8 case 5 => 7 case 6 => 9 case 7 => 6
    case 8 => 10 case 9 => 5 case 10 => 11 case 11 => 4 case 12 => 12 case 13 => 3 case 14 => 13
    case 15 => 2 case 16 => 14 case 17 => 1 case _ => 15
  }

  function Rank(s: nat): (i: nat)
    requires s < 19
    ensures i < 19 && Order(i) == s
  {
    match s
    case 0 => 3 case 1 => 17 case 2 => 15 case 3 => 13 case 4 => 11 case 5 => 9 case 6 => 7 case 7 => 5
    case 8 => 4 case 9 => 6 case 10 => 8 case 11 => 10 case 12 => 12 case 13 => 14 case 14 => 16
    case 15 => 18 case 16 => 0 case 17 => 1 case _ => 2
  }

  lemma OrderOnce(i: nat, j: nat)
    requires i < 19 && j < 19 && Order(i) == Order(j)
    ensures i == j
  {
    assert Rank(Order(i)) == i && Rank(Order(j)) == j;
  }

  /** The lengths of the code-length code: n three-bit fields, the others zero. */
  ghost function LenLensOf(w: nat, n: nat): (lens: seq<nat>)
    ensures |lens| == 19
  {
    seq(19, s requires 0 <= s < 19 => if Rank(s) < n then Low(Shr(w, 3 * Rank(s)), 3) else 0)
  }

  /** State LENLENS; have and lens carry its progress from one call to the next. */
  method LenLens(inp: seq<byte>, lim: nat, a0: Acc, have0: nat, lens0: seq<nat>, ncode: nat, ghost p: nat)
    returns (ok: bool, have: nat, lens: seq<nat>, a: Acc)
    requires AccOk(inp, a0) && a0.next <= lim <= |inp| && have0 <= ncode <= 19 && |lens0| == 19
    requires Pos(a0) == p + 3 * have0
    requires forall i: nat :: i < have0 ==> lens0[Order(i)] == Low(Shr(Ahead(inp, p), 3 * i), 3)
    ensures AccOk(inp, a) && a.next <= lim && |lens| == 19
    ensures ok <==> p + 3 * ncode <= 8 * lim
    ensures ok ==> have == 19 && lens == LenLensOf(Ahead(inp, p), ncode) && Pos(a) == p + 3 * ncode
    ensures ok && a0.bits < 8 ==> a.bits < 8
    ensures !ok ==> have < ncode && Pos(a) == p + 3 * have
    ensures !ok ==> forall i: nat :: i < have ==> lens[Order(i)] == Low(Shr(Ahead(inp, p), 3 * i), 3)
  {
    hide Low, Shr, Ahead, Holding, Order, Rank;
    have, lens, a := have0, lens0, a0;
    while have < ncode
      invariant AccOk(inp, a) && a.next <= lim && |lens| == 19 && have <= ncode && Pos(a) == p + 3 * have
      invariant a0.bits < 8 ==> a.bits < 8
      invariant forall i: nat :: i < have ==> lens[Order(i)] == Low(Shr(Ahead(inp, p), 3 * i), 3)
    {
      ok, a := NeedBits(inp, lim, a, 3);
      if !ok { return; }
      Peek(inp, a.next, a.hold, a.bits, 3);
      AheadShr(inp, p, 3 * have);
      forall i: nat | i < have ensures Order(i) != Order(have) {
        if Order(i) == Order(have) { OrderOnce(i, have); }
      }
      lens := lens[Order(have) := Low(a.hold, 3)];
      a := DropBits(inp, a, 3);
      have := have + 1;
    }
    ok := true;
    have, lens := ZeroRest(lens, have);
    forall s: nat | s < 19 ensures lens[s] == LenLensOf(Ahead(inp, p), ncode)[s] {
      assert lens[Order(Rank(s))] == lens[s];
    }
  }

  method ZeroRest(lens0: seq<nat>, have0: nat) returns (have: nat, lens: seq<nat>)
    requires |lens0| == 19 && have0 <= 19
    ensures have == 19 && |lens| == 19
    ensures forall i: nat :: i < 19 ==> lens[Order(i)] == if i < have0 then lens0[Order(i)] else 0
  {
    hide Order;
    have, lens := have0, lens0;
    while have < 19
      invariant have0 <= have <= 19 && |lens| == 19
      invariant forall i: nat :: i < have ==> lens[Order(i)] == if i < have0 then lens0[Order(i)] else 0
    {
      forall i: nat | i < have ensures Order(i) != Order(have) {
        if Order(i) == Order(have) { OrderOnce(i, have); }
      }
      lens := lens[Order(have) := 0];
      have := have + 1;
    }
  }
}
