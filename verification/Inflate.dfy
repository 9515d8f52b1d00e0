/** The body of a compressed block across any number of inflate calls: fast and slow path together
    decode the same symbols, however input and output are cut into pieces. */
module Inflate {
  import opened Bits
  import opened InfTable
  import opened CodeTables
  import opened InflateSpec
  import opened InflateSlow
  import F = InflateFast
  import W = Window
  import opened Lz77

  function Rank(s: Slow): nat
  {
    match s.phase
    case Len => 5
    case LenExt => 4
    case Dist => 3
    case DistExt => 2
    case Matching => 1
    case Lit => 1
    case _ => 0
  }

  lemma WholeText(b: Block, inp: seq<byte>, st: State, s: Slow, text: seq<byte>)
    requires BlockOk(b) && Pending(b, inp, st, s, text)
    ensures AccOk(inp, s.acc) && st.p <= Pos(s.acc)
    ensures s.phase != Matching ==> text == st.text
    ensures s.phase == Len ==> st == State(Pos(s.acc), text, LEN)
    ensures s.phase == Len ==> s.acc.bits < 8 + Decode(b, Ahead(inp, st.p)).used && s.acc.bits <= 22
    ensures s.phase in {Len, LenExt, Dist, DistExt, Matching, Lit} ==> st.mode == LEN
  {
    hide TableOk, Lookup, Decode, Ahead, Holding, Low, Shr, Pow2, HasLength;
    if s.phase == Len {
      DecodeAtLeast(b, Ahead(inp, st.p));
      LookupOk(b.lcode, b.lroot, LENS, Ahead(inp, st.p));
    }
  }

  lemma FastPending(b: Block, inp: seq<byte>, st: State, s: Slow, text: seq<byte>)
    requires BlockOk(b) && AccOk(inp, s.acc) && s.acc.bits < 8
    requires s.phase == (match st.mode case LEN => Len case TYPE => Type case BAD => Bad)
    requires st == State(Pos(s.acc), text, st.mode)
    ensures Pending(b, inp, st, s, text)
  {
    hide TableOk, Lookup, Decode, Ahead, Holding, Low, Shr, HasLength;
  }

  lemma RunNext(b: Block, inp: seq<byte>, lo: nat, st: State, k: nat)
    requires BlockOk(b)
    ensures Run(b, inp, lo, st, k + 1) == Next(b, inp, lo, Run(b, inp, lo, st, k))
  {
  }

  /** Why a call ends: the block is over or invalid, the input ends inside the next symbol, or there is
      no room for what that symbol has still to give. */
  ghost predicate Stopped(b: Block, inp: seq<byte>, st: State, s: Slow, lim: nat, full: bool)
    requires BlockOk(b)
  {
    s.phase == Type || s.phase == Bad || Starved(b, inp, st, lim) || (full && (s.phase == Lit || s.phase == Matching))
  }

  /** One visit to the switch: a phase of the slow path, or a burst of inflate_fast. */
  method Visit(b: Block, inp: seq<byte>, lim: nat, w: W.Window, out: seq<byte>, room: nat, s: Slow,
               ghost lo: nat, ghost st: State)
    returns (ok: bool, s': Slow, out': seq<byte>, ghost j: nat)
    requires BlockOk(b) && Reach(b, inp, st, w, lo) && Pending(b, inp, st, s, w.hist + out) && Ready(w, lo, out, st, s)
    requires s.acc.next <= lim <= |inp| && |out| <= room && s.phase != Type && s.phase != Bad
    ensures Pending(b, inp, Run(b, inp, lo, st, j), s', w.hist + out')
    ensures Ready(w, lo, out', Run(b, inp, lo, st, j), s')
    ensures s'.acc.next <= lim && |out'| <= room
    ensures !ok ==> j == 0 && out' == out && Stopped(b, inp, st, s', lim, |out| == room)
    ensures ok && j == 0 ==> Rank(s') < Rank(s) || (Rank(s') == Rank(s) && s'.length < s.length)
    ensures j > 0 ==> Run(b, inp, lo, st, j).p > st.p
  {
    hide BlockOk, Pending, Next, W.Holds, AccOk, Starved, NearRun;
    WholeText(b, inp, st, s, w.hist + out);
    F.NextUses(b, inp, lo, st);
    RunNext(b, inp, lo, st, 0);
    out', j := out, 0;
    ghost var st' := st;
    match s.phase
    case Len =>
      if lim - s.acc.next >= 6 && room - |out| >= 258 {
        var a, mode;
        a, out', mode, j := F.Fast(b, inp, lim, w, out, room, s.acc, lo, st);
        ok, s' := true, s.(acc := a, phase := match mode case LEN => Len case TYPE => Type case BAD => Bad);
        FastPending(b, inp, Run(b, inp, lo, st, j), s', w.hist + out');
      } else {
        ok, s', st' := StepLen(b, inp, lim, s, lo, st);
        j := if s'.phase == Type || s'.phase == Bad then 1 else 0;
      }
    case LenExt =>
      ok, s' := StepLenExt(b, inp, lim, s, st);
    case Dist =>
      ok, s', st' := StepDist(b, inp, lim, s, lo, st);
      j := if s'.phase == Bad then 1 else 0;
    case DistExt =>
      ok, s', st' := StepDistExt(b, inp, lim, w, out, s, lo, st);
      j := if s'.phase == Bad then 1 else 0;
    case Matching =>
      ok, s' := |out| != room, s;
      if ok {
        out', s', st' := StepMatch(b, inp, w, out, room, s, lo, st);
        j := if s'.phase == Len then 1 else 0;
      }
    case Lit =>
      ok, s' := |out| != room, s;
      if ok {
        out', s' := StepLit(b, inp, w.hist, out, s, lo, st);
        j := 1;
      }
  }

  /** One inflate call inside a block, with the input up to `lim` and `room` bytes for output, of which out0
      is in use: it decodes k whole symbols and stops inside the next one only for want of input or room. */
  method Call(b: Block, inp: seq<byte>, lim: nat, w: W.Window, out0: seq<byte>, room: nat, s0: Slow, ghost lo: nat,
              ghost st0: State)
    returns (s: Slow, out: seq<byte>, ghost k: nat)
    requires BlockOk(b) && Reach(b, inp, st0, w, lo) && Pending(b, inp, st0, s0, w.hist + out0)
    requires Ready(w, lo, out0, st0, s0) && s0.acc.next <= lim <= |inp| && |out0| <= room
    ensures var st := Run(b, inp, lo, st0, k);
            && Pending(b, inp, st, s, w.hist + out) && Ready(w, lo, out, st, s)
            && Stopped(b, inp, st, s, lim, |out| == room)
    ensures s.acc.next <= lim && |out| <= room
  {
    hide BlockOk, Pending, Next, Run, Starved, Reach, Ready;
    s, out, k := s0, out0, 0;
    ghost var st := st0;
    NoSteps(b, inp, lo, st0);
    while s.phase != Type && s.phase != Bad
      invariant st == Run(b, inp, lo, st0, k)
      invariant Pending(b, inp, st, s, w.hist + out) && Ready(w, lo, out, st, s)
      invariant s.acc.next <= lim && |out| <= room
      decreases 8 * lim - st.p, Rank(s), s.length
    {
      ghost var j;
      var ok;
      WholeText(b, inp, st, s, w.hist + out);
      ReachLater(b, inp, st0, w, lo, k);
      ok, s, out, j := Visit(b, inp, lim, w, out, room, s, lo, st);
      RunSplit(b, inp, lo, st0, k, j);
      NoSteps(b, inp, lo, st);
      k, st := k + j, Run(b, inp, lo, st, j);
      WholeText(b, inp, st, s, w.hist + out);
      if !ok { return; }
    }
  }

  lemma NoSteps(b: Block, inp: seq<byte>, lo: nat, st: State)
    requires BlockOk(b)
    ensures Run(b, inp, lo, st, 0) == st
  {
  }

  lemma WithinInput(inp: seq<byte>, a: Acc)
    requires AccOk(inp, a)
    ensures Pos(a) <= 8 * |inp|
  {
  }

  lemma Resume(b: Block, inp: seq<byte>, w: W.Window, st: State, s: Slow)
    requires BlockOk(b) && w.Valid() && NearRun(b, inp, st, w.window.Length) && Pending(b, inp, st, s, w.hist)
    ensures Reach(b, inp, st, w, 0) && Ready(w, 0, [], st, s)
  {
    hide TableOk, Lookup, Decode, Ahead, Holding, Low, Shr, HasLength, NearRun, W.Holds;
    W.InRange(w.window[..], w.have, w.write, w.hist);
    WithinInput(inp, s.acc);
    if s.phase == Matching { NearNow(b, inp, st, w.window.Length); }
    DecodeBounds(b, Ahead(inp, st.p));
  }

  /** The input available to one call and its room for output. */
  datatype Piece = Piece(lim: nat, room: nat)

  predicate Pieces(inp: seq<byte>, calls: seq<Piece>)
  {
    && (forall i :: 0 <= i < |calls| ==> calls[i].lim <= |inp|)
    && (forall i, j :: 0 <= i < j < |calls| ==> calls[i].lim <= calls[j].lim)
  }

  function Flat(outs: seq<seq<byte>>): seq<byte>
  {
    if outs == [] then [] else Flat(outs[..|outs| - 1]) + outs[|outs| - 1]
  }

  /** After a call the text is that of all symbols before st and a part of the next, which the call did not
      finish only because the input ends inside it, or because its room ran out before its text did. */
  ghost predicate Served(b: Block, inp: seq<byte>, st: State, text: seq<byte>, c: Piece, out: seq<byte>)
    requires BlockOk(b)
  {
    var next := Next(b, inp, 0, st).text;
    && st.text <= text <= next && st.p <= 8 * c.lim && |out| <= c.room
    && (st.mode != LEN || Starved(b, inp, st, c.lim) || (|out| == c.room && text != next))
  }

  ghost predicate ServedAt(b: Block, inp: seq<byte>, st: State, hist: seq<byte>, calls: seq<Piece>,
                           outs: seq<seq<byte>>, ks: seq<nat>, i: nat)
    requires BlockOk(b) && |outs| == |ks| == |calls| && i < |calls|
  {
    && Served(b, inp, Run(b, inp, 0, st, ks[i]), hist + Flat(outs[..i + 1]), calls[i], outs[i])
    && (i > 0 ==> ks[i - 1] <= ks[i])
  }

  /** So it is after each of the calls, the i-th of which is through with ks[i] symbols. */
  ghost predicate AllServed(b: Block, inp: seq<byte>, st: State, hist: seq<byte>, calls: seq<Piece>,
                            outs: seq<seq<byte>>, ks: seq<nat>)
    requires BlockOk(b)
  {
    |outs| == |ks| == |calls| && forall i :: 0 <= i < |calls| ==> ServedAt(b, inp, st, hist, calls, outs, ks, i)
  }

  function Last(ks: seq<nat>): nat
  {
    if ks == [] then 0 else ks[|ks| - 1]
  }

  lemma ServedMore(b: Block, inp: seq<byte>, st: State, hist: seq<byte>, calls: seq<Piece>, outs: seq<seq<byte>>,
                   ks: seq<nat>, c: Piece, out: seq<byte>, k: nat)
    requires BlockOk(b) && AllServed(b, inp, st, hist, calls, outs, ks) && Last(ks) <= k
    requires Served(b, inp, Run(b, inp, 0, st, k), hist + Flat(outs) + out, c, out)
    ensures AllServed(b, inp, st, hist, calls + [c], outs + [out], ks + [k])
  {
    hide BlockOk, Served, Run, Flat;
    var n := |calls|;
    FlatMore(outs, out);
    assert (outs + [out])[..n + 1] == outs + [out];
    assert hist + Flat(outs) + out == hist + (Flat(outs) + out);
    forall i | 0 <= i < n + 1
      ensures ServedAt(b, inp, st, hist, calls + [c], outs + [out], ks + [k], i)
    {
      if i < n {
        assert ServedAt(b, inp, st, hist, calls, outs, ks, i);
        assert (outs + [out])[..i + 1] == outs[..i + 1];
      }
    }
  }

  lemma FlatMore(outs: seq<seq<byte>>, out: seq<byte>)
    ensures Flat(outs + [out]) == Flat(outs) + out
  {
    assert (outs + [out])[..|outs|] == outs;
  }

  /** What the decoder has given is a part of the text up to the next symbol, and all of it only if nothing
      of that symbol is left to give. */
  lemma PartText(b: Block, inp: seq<byte>, st: State, s: Slow, text: seq<byte>)
    requires BlockOk(b) && Pending(b, inp, st, s, text)
    ensures st.text <= text <= Next(b, inp, 0, st).text
    ensures s.phase == Lit || s.phase == Matching ==> text != Next(b, inp, 0, st).text
    ensures s.phase == Type || s.phase == Bad <==> st.mode != LEN
    ensures s.phase == Type <==> st.mode == TYPE
  {
    hide BlockOk, Decode, Ahead, HasLength, Low, Shr, AccOk, Needed, Copy;
    DecodeBounds(b, Ahead(inp, st.p));
    if s.phase == Matching {
      var d := Decode(b, Ahead(inp, st.p));
      CopySplit(st.text, d.dist, d.len - s.length, s.length);
    }
  }

  lemma CallServed(b: Block, inp: seq<byte>, st: State, s: Slow, text: seq<byte>, c: Piece, out: seq<byte>)
    requires BlockOk(b) && Pending(b, inp, st, s, text) && Stopped(b, inp, st, s, c.lim, |out| == c.room)
    requires s.acc.next <= c.lim && |out| <= c.room
    ensures Served(b, inp, st, text, c, out)
  {
    hide BlockOk, Decode, Ahead, Inside, Needed, Next;
    PartText(b, inp, st, s, text);
  }

  /** Any sequence of calls, each followed by the update of the window, for every window that all the
      matches of the stream fit into: the pieces of output, one after the other, are the text of the one
      stream, and each call gets as far as its input and its room allow. */
  method Calls(b: Block, inp: seq<byte>, calls: seq<Piece>, w: W.Window, s0: Slow, ghost st0: State)
    returns (s: Slow, outs: seq<seq<byte>>, ghost ks: seq<nat>)
    requires BlockOk(b) && w.Valid() && NearRun(b, inp, st0, w.window.Length) && Pending(b, inp, st0, s0, w.hist)
    requires Pieces(inp, calls) && (|calls| > 0 ==> s0.acc.next <= calls[0].lim)
    modifies w, w.window
    ensures w.Valid() && w.hist == old(w.hist) + Flat(outs)
    ensures AllServed(b, inp, st0, old(w.hist), calls, outs, ks)
    ensures Pending(b, inp, Run(b, inp, 0, st0, Last(ks)), s, w.hist)
  {
    hide BlockOk, Pending, Next, Run, Stopped, Served, Reach, Ready, NearRun, W.Holds, Flat, AllServed;
    ghost var hist := w.hist;
    s, outs, ks := s0, [], [];
    NoSteps(b, inp, 0, st0);
    NoneServed(b, inp, st0, hist);
    for i := 0 to |calls|
      invariant w.Valid() && w.hist == hist + Flat(outs)
      invariant AllServed(b, inp, st0, hist, calls[..i], outs, ks)
      invariant Pending(b, inp, Run(b, inp, 0, st0, Last(ks)), s, w.hist)
      invariant i < |calls| ==> s.acc.next <= calls[i].lim
    {
      ghost var k := Last(ks);
      ghost var j;
      ghost var st := Run(b, inp, 0, st0, k);
      NearLater(b, inp, st0, w.window.Length, k);
      Resume(b, inp, w, st, s);
      var out;
      assert w.hist + [] == w.hist;
      s, out, j := Call(b, inp, calls[i].lim, w, [], calls[i].room, s, 0, st);
      RunSplit(b, inp, 0, st0, k, j);
      CallServed(b, inp, Run(b, inp, 0, st0, k + j), s, w.hist + out, calls[i], out);
      ServedMore(b, inp, st0, hist, calls[..i], outs, ks, calls[i], out, k + j);
      FlatMore(outs, out);
      w.Update(out);
      assert calls[..i + 1] == calls[..i] + [calls[i]];
      outs, ks := outs + [out], ks + [k + j];
    }
    assert calls[..|calls|] == calls;
  }

  lemma NoneServed(b: Block, inp: seq<byte>, st: State, hist: seq<byte>)
    requires BlockOk(b)
    ensures AllServed(b, inp, st, hist, [], [], []) && hist + Flat([]) == hist
  {
  }

  /** With a window of 32K there is nothing to ask of the stream. */
  method FullCalls(b: Block, inp: seq<byte>, calls: seq<Piece>, w: W.Window, s0: Slow, ghost st0: State)
    returns (s: Slow, outs: seq<seq<byte>>, ghost ks: seq<nat>)
    requires BlockOk(b) && w.Valid() && w.window.Length >= 32768 && Pending(b, inp, st0, s0, w.hist)
    requires Pieces(inp, calls) && (|calls| > 0 ==> s0.acc.next <= calls[0].lim)
    modifies w, w.window
    ensures w.Valid() && w.hist == old(w.hist) + Flat(outs)
    ensures AllServed(b, inp, st0, old(w.hist), calls, outs, ks)
    ensures Pending(b, inp, Run(b, inp, 0, st0, Last(ks)), s, w.hist)
  {
    hide BlockOk, Pending, Run, NearRun, W.Holds, AllServed, Flat;
    NearAlways(b, inp, st0, w.window.Length);
    s, outs, ks := Calls(b, inp, calls, w, s0, st0);
  }

  // ----- when the block is over

  lemma {:induction false} Stays(b: Block, inp: seq<byte>, st: State, k: nat)
    requires BlockOk(b) && st.mode != LEN
    ensures Run(b, inp, 0, st, k) == st
  {
    hide BlockOk, Decode, Ahead;
    if k > 0 { Stays(b, inp, st, k - 1); }
  }

  lemma {:induction false} Grows(b: Block, inp: seq<byte>, st: State, k: nat)
    requires BlockOk(b)
    ensures var q := Run(b, inp, 0, st, k); st.p <= q.p && |st.text| <= |q.text|
  {
    hide BlockOk, Decode, Ahead;
    if k > 0 {
      Grows(b, inp, st, k - 1);
      DecodeBounds(b, Ahead(inp, Run(b, inp, 0, st, k - 1).p));
    }
  }

  /** The n-th symbol from st on ends the block, and the input holds it. */
  ghost predicate EndsAt(b: Block, inp: seq<byte>, st: State, n: nat)
    requires BlockOk(b)
  {
    var e := Run(b, inp, 0, st, n);
    e.mode == TYPE && e.p <= 8 * |inp|
  }

  lemma SameEnd(b: Block, inp: seq<byte>, st: State, n: nat, k: nat)
    requires BlockOk(b) && EndsAt(b, inp, st, n)
    ensures var q, e := Run(b, inp, 0, st, k), Run(b, inp, 0, st, n);
            q == e || (k < n && q.mode == LEN)
  {
    hide BlockOk, Run, Next;
    if k >= n {
      RunSplit(b, inp, 0, st, n, k - n);
      Stays(b, inp, Run(b, inp, 0, st, n), k - n);
    } else {
      RunSplit(b, inp, 0, st, k, n - k);
      if Run(b, inp, 0, st, k).mode != LEN { Stays(b, inp, Run(b, inp, 0, st, k), n - k); }
    }
  }

  lemma BeforeEnd(b: Block, inp: seq<byte>, st: State, n: nat, k: nat)
    requires BlockOk(b) && EndsAt(b, inp, st, n) && k < n && Run(b, inp, 0, st, k).mode == LEN
    ensures var q := Run(b, inp, 0, st, k);
            !Starved(b, inp, q, |inp|) && |Next(b, inp, 0, q).text| <= |Run(b, inp, 0, st, n).text|
  {
    hide BlockOk, Run, Next, Ahead, Decode;
    var q := Run(b, inp, 0, st, k);
    RunNext(b, inp, 0, st, k);
    RunSplit(b, inp, 0, st, k + 1, n - k - 1);
    Grows(b, inp, Next(b, inp, 0, q), n - k - 1);
    F.NextUses(b, inp, 0, q);
  }

  /** A call that sees all the input of the block ends it exactly if it has room for the rest, and else it
      fills its room. */
  lemma EndIff(b: Block, inp: seq<byte>, st: State, n: nat, k: nat, text: seq<byte>, c: Piece, out: seq<byte>)
    requires BlockOk(b) && EndsAt(b, inp, st, n) && c.lim == |inp| && |out| <= |text|
    requires Served(b, inp, Run(b, inp, 0, st, k), text, c, out)
    ensures var e := Run(b, inp, 0, st, n).text;
            var ended := Run(b, inp, 0, st, k).mode == TYPE;
            && (ended <==> |e| <= |text| - |out| + c.room)
            && (if ended then text == e else |out| == c.room)
  {
    hide BlockOk, Run, Starved, Decode, Ahead;
    SameEnd(b, inp, st, n, k);
    if k < n && Run(b, inp, 0, st, k).mode == LEN {
      hide Next;
      BeforeEnd(b, inp, st, n, k);
    }
  }

  function Rooms(calls: seq<Piece>): nat
  {
    if calls == [] then 0 else Rooms(calls[..|calls| - 1]) + calls[|calls| - 1].room
  }

  lemma ServedBefore(b: Block, inp: seq<byte>, st: State, hist: seq<byte>, calls: seq<Piece>, outs: seq<seq<byte>>,
                     ks: seq<nat>)
    requires BlockOk(b) && AllServed(b, inp, st, hist, calls, outs, ks) && calls != []
    ensures var m := |calls| - 1;
            && AllServed(b, inp, st, hist, calls[..m], outs[..m], ks[..m]) && Last(ks[..m]) <= ks[m]
            && Served(b, inp, Run(b, inp, 0, st, ks[m]), hist + Flat(outs), calls[m], outs[m])
            && Flat(outs) == Flat(outs[..m]) + outs[m]
  {
    hide BlockOk, Run, Served, Flat;
    var m := |calls| - 1;
    assert ServedAt(b, inp, st, hist, calls, outs, ks, m);
    assert outs[..m + 1] == outs == outs[..m] + [outs[m]];
    FlatMore(outs[..m], outs[m]);
    forall i | 0 <= i < m
      ensures ServedAt(b, inp, st, hist, calls[..m], outs[..m], ks[..m], i)
    {
      assert ServedAt(b, inp, st, hist, calls, outs, ks, i);
      assert outs[..m][..i + 1] == outs[..i + 1];
    }
  }

  /** Calls that all see the whole input: the block is over after them exactly if their rooms together are
      enough for its text, and else they are all filled. */
  lemma {:induction false} RoomsIff(b: Block, inp: seq<byte>, st: State, n: nat, hist: seq<byte>, calls: seq<Piece>,
                                    outs: seq<seq<byte>>, ks: seq<nat>)
    requires BlockOk(b) && EndsAt(b, inp, st, n) && AllServed(b, inp, st, hist, calls, outs, ks)
    requires forall i :: 0 <= i < |calls| ==> calls[i].lim == |inp|
    ensures |Flat(outs)| <= Rooms(calls)
    ensures Run(b, inp, 0, st, Last(ks)).mode != TYPE ==> |Flat(outs)| == Rooms(calls)
    ensures calls != [] ==>
              (Run(b, inp, 0, st, Last(ks)).mode == TYPE <==> |Run(b, inp, 0, st, n).text| <= |hist| + Rooms(calls))
    decreases |calls|
  {
    hide BlockOk, Run, Served, Next, AllServed;
    AllFit(b, inp, st, hist, calls, outs, ks);
    if calls != [] {
      var m := |calls| - 1;
      var all := hist + Flat(outs);
      ServedBefore(b, inp, st, hist, calls, outs, ks);
      RoomsIff(b, inp, st, n, hist, calls[..m], outs[..m], ks[..m]);
      EndIff(b, inp, st, n, ks[m], all, calls[m], outs[m]);
      if Run(b, inp, 0, st, Last(ks[..m])).mode == TYPE { OverStays(b, inp, st, Last(ks[..m]), ks[m]); }
    }
  }

  lemma OverStays(b: Block, inp: seq<byte>, st: State, j: nat, k: nat)
    requires BlockOk(b) && j <= k && Run(b, inp, 0, st, j).mode == TYPE
    ensures Run(b, inp, 0, st, k) == Run(b, inp, 0, st, j)
  {
    hide BlockOk, Run, Next;
    RunSplit(b, inp, 0, st, j, k - j);
    Stays(b, inp, Run(b, inp, 0, st, j), k - j);
  }

  /** A block that the input holds to its end, in calls that are cut in any way up to the last, which sees
      all the input: it ends the block exactly if it has room for what the calls before it left, and then the
      pieces make up the whole text.  If every call sees all the input, that is exactly if the rooms
      together are enough. */
  method CallsToEnd(b: Block, inp: seq<byte>, calls: seq<Piece>, w: W.Window, s0: Slow, ghost st0: State, ghost n: nat)
    returns (s: Slow, outs: seq<seq<byte>>)
    requires BlockOk(b) && w.Valid() && NearRun(b, inp, st0, w.window.Length) && Pending(b, inp, st0, s0, w.hist)
    requires Pieces(inp, calls) && calls != [] && s0.acc.next <= calls[0].lim && calls[|calls| - 1].lim == |inp|
    requires EndsAt(b, inp, st0, n)
    modifies w, w.window
    ensures w.Valid() && w.hist == old(w.hist) + Flat(outs) && |outs| == |calls|
    ensures forall i :: 0 <= i < |calls| ==> |outs[i]| <= calls[i].room
    ensures var e, m := Run(b, inp, 0, st0, n).text, |calls| - 1;
            && (s.phase == Type <==> |e| <= |old(w.hist)| + |Flat(outs[..m])| + calls[m].room)
            && (s.phase == Type ==> w.hist == e)
            && ((forall i :: 0 <= i < |calls| ==> calls[i].lim == |inp|) ==>
                  (s.phase == Type <==> |e| <= |old(w.hist)| + Rooms(calls)))
  {
    hide BlockOk, Pending, Next, Run, Served, NearRun, W.Holds, Flat, EndsAt, AllServed;
    ghost var hist := w.hist;
    ghost var ks;
    s, outs, ks := Calls(b, inp, calls, w, s0, st0);
    ghost var m := |calls| - 1;
    AllFit(b, inp, st0, hist, calls, outs, ks);
    ServedBefore(b, inp, st0, hist, calls, outs, ks);
    EndIff(b, inp, st0, n, ks[m], w.hist, calls[m], outs[m]);
    PartText(b, inp, Run(b, inp, 0, st0, ks[m]), s, w.hist);
    if forall i :: 0 <= i < |calls| ==> calls[i].lim == |inp| {
      RoomsIff(b, inp, st0, n, hist, calls, outs, ks);
    }
  }

  lemma AllFit(b: Block, inp: seq<byte>, st: State, hist: seq<byte>, calls: seq<Piece>, outs: seq<seq<byte>>,
               ks: seq<nat>)
    requires BlockOk(b) && AllServed(b, inp, st, hist, calls, outs, ks)
    ensures |outs| == |ks| == |calls| && forall i :: 0 <= i < |calls| ==> |outs[i]| <= calls[i].room
  {
    hide BlockOk, Run, Next, Flat;
    forall i | 0 <= i < |calls|
      ensures |outs[i]| <= calls[i].room
    {
      assert ServedAt(b, inp, st, hist, calls, outs, ks, i);
    }
  }
}
