/** A block inside one call of inflate, and the tables for the fixed codes. */
module InflateBlocks {
  import opened Bits
  import opened Reverse
  import opened Canonical
  import opened InfTable
  import opened CodeTables
  import opened InflateSpec
  import opened InflateSlow
  import I = Inflate
  import W = Window
  import opened KraftSums
  import opened DeflateBlock
  import opened BuildTree
  import opened DynamicTrees
  import opened DynamicRoundTrip
  import opened StaticTrees
  import BC = BlockCost

  // ----- the fixed tables

  lemma FivesWhole(bl: seq<nat>)
    requires |bl| == MAXBITS + 1 && bl[5] == 32 && forall b :: 0 <= b <= MAXBITS && b != 5 ==> bl[b] == 0
    ensures SortedLens(Sorted(Fives(32))) && Acceptable(DISTS, Sorted(Fives(32)))
  {
    hide Sorted, Bucket, Cum, KraftCount, RemWords, Pow2;
    SortedIs(Fives(32));
    forall l: nat | 1 <= l <= MAXBITS ensures bl[l] == |Bucket(Fives(32), l, 32)| { FivesBucket(32, l, 32); }
    KraftIsRem(Fives(32), bl, MAXBITS);
    RemWordsAll(Sorted(Fives(32)), 0);
    CumZero(Sorted(Fives(32)));
    AllFives(bl);
  }

  lemma AllFives(bl: seq<nat>)
    requires |bl| == MAXBITS + 1 && bl[5] == 32 && forall b :: 0 <= b <= MAXBITS && b != 5 ==> bl[b] == 0
    ensures KraftCount(bl, MAXBITS, MAXBITS) == Pow2(MAXBITS)
  {
    KraftNone(bl, MAXBITS, 4);
    KraftTail(bl, 5, MAXBITS);
    BigPowers();
    assert Pow2(10) == 1024;
  }

  /** The code for thirty distances is part of the one for thirty-two. */
  lemma FewerFives(t: seq<Code>, root: nat)
    requires Decodes(t, root, DISTS, Fives(32))
    ensures Decodes(t, root, DISTS, Fives(30))
  {
    hide Decodes, SentCode, Low, ActionFor, Lookup, Rev;
    forall s: nat, w: nat | s < 30 && Low(w, 5) == SentCode(Fives(30), s)
      ensures var x := ActionFor(DISTS, s);
        Lookup(t, root, w) == Found(Code(x.op, if 5 <= root then 5 else 5 - root, x.val), 5)
    {
      FivesSent(30, s);
      FivesSent(32, s);
      DecodesOne(t, root, DISTS, Fives(32), s, w);
    }
    DecodesAll(t, root, DISTS, Fives(30));
  }

  /** The table for the fixed literal and length code. */
  method FixedLengths(ghost sl: Tree) returns (t: seq<Code>, root: nat)
    requires sl.lens == BC.StaticLens() && TreeOk(sl, LENS) && Whole(sl)
    ensures TableOk(t, root, LENS) && Decodes(t, root, LENS, BC.StaticLens())
  {
    hide Sorted, Cum, Decodes, TableOk, Pow2, SentCode, TableSpace;
    EnoughIsEnough();
    WholeUsable(sl, LENS);
    var lens := BC.StaticLens();
    var ret;
    ret, t, root := InflateTable(LENS, lens, 9);
  }

  method FixedDistances() returns (t: seq<Code>, root: nat)
    ensures TableOk(t, root, DISTS) && Decodes(t, root, DISTS, Fives(30))
  {
    hide Sorted, Cum, Decodes, TableOk, Pow2, Acceptable, TableSpace;
    FivesWhole(BC.Zeros(16)[5 := 32]);
    var lens := Fives(32);
    var ret;
    ret, t, root := InflateTable(DISTS, lens, 5);
    FewerFives(t, root);
  }

  ghost predicate FixedOk(b: Block)
  {
    Decodes(b.lcode, b.lroot, LENS, BC.StaticLens()) && Decodes(b.dcode, b.droot, DISTS, Fives(30)) && BlockOk(b)
  }

  /** The tables for the fixed codes, built as those that zlib_fixedtables holds ready were: with all
      thirty-two distances. */
  method FixedTables(ghost sl: Tree) returns (b: Block)
    requires sl.lens == BC.StaticLens() && TreeOk(sl, LENS) && Whole(sl)
    ensures FixedOk(b)
  {
    hide Decodes, TableOk, TreeOk, Whole, BC.StaticLens, Fives;
    var lcode, lroot := FixedLengths(sl);
    var dcode, droot := FixedDistances();
    b := Block(lcode, lroot, dcode, droot);
  }

  lemma FixedReads(b: Block, sl: Tree, sd: Tree)
    requires FixedOk(b) && TreeOk(sl, LENS) && TreeOk(sd, DISTS) && sl.lens == BC.StaticLens() && sd.lens == Fives(30)
    ensures Reads(b, sl, sd)
  {
    hide BlockOk, TreeOk, Decodes;
  }

  // ----- one block inside a call of inflate

  lemma Begins(b: Block, inp: seq<byte>, a: Acc, s: Slow, text: seq<byte>)
    requires BlockOk(b) && AccOk(inp, a) && a.bits < 8 && s == Slow(Phase.Len, a, 0, 0, 0)
    ensures Pending(b, inp, State(Pos(a), text, LEN), s, text)
  {
    hide BlockOk, TableOk, Lookup, Decode, Ahead, Holding;
  }

  lemma BlockOver(b: Block, inp: seq<byte>, st: State, s: Slow, text: seq<byte>)
    requires BlockOk(b) && Pending(b, inp, st, s, text) && st.mode == TYPE
    ensures s.phase == Type && AccOk(inp, s.acc) && Pos(s.acc) == st.p && s.acc.bits < 8
  {
    hide BlockOk, Decode, Ahead, HasLength, Low, Shr, Holding;
  }

  /** A block that the input holds whole, inside one call of inflate with the output so far and room for
      the rest, in a window that holds all the text of earlier calls. */
  method InflateBlock(b: Block, inp: seq<byte>, a0: Acc, w: W.Window, out0: seq<byte>, room: nat, ghost n: nat)
    returns (ended: bool, out: seq<byte>, a: Acc)
    requires BlockOk(b) && w.Valid() && w.have == |w.hist| && AccOk(inp, a0) && a0.bits < 8 && a0.next <= |inp|
    requires |out0| <= room
    requires var e := Run(b, inp, 0, State(Pos(a0), w.hist + out0, LEN), n);
             e.mode == TYPE && e.p <= 8 * |inp| && |e.text| <= |w.hist| + room
    ensures AccOk(inp, a) && a.next <= |inp| && a.bits < 8 && |out| <= room
    ensures var e := Run(b, inp, 0, State(Pos(a0), w.hist + out0, LEN), n);
            ended && w.hist + out == e.text && Pos(a) == e.p
  {
    hide BlockOk, Pending, Next, Run, Ahead, Holding, W.Holds, I.Stopped, I.Served;
    var s := Slow(Phase.Len, a0, 0, 0, 0);
    ghost var st := State(Pos(a0), w.hist + out0, LEN);
    ghost var k;
    Begins(b, inp, a0, s, w.hist + out0);
    s, out, k := I.Call(b, inp, |inp|, w, out0, room, s, 0, st);
    ghost var q, c := Run(b, inp, 0, st, k), I.Piece(|inp|, room);
    I.CallServed(b, inp, q, s, w.hist + out, c, out);
    I.EndIff(b, inp, st, n, k, w.hist + out, c, out);
    I.SameEnd(b, inp, st, n, k);
    BlockOver(b, inp, q, s, w.hist + out);
    ended, a := s.phase == Type, s.acc;
  }
}
