/** lzo1x_1_compress: a greedy parse driven by an unverified hash dictionary, written with the
    spare bits of each match patched in afterwards. */
module LzoCompress {
  import opened Bits
  import opened Lz77
  import opened LzoFormat
  import LzoDecoder

  const D_SIZE := 16384
  const D_MASK := D_SIZE - 1

  // ----- the hash dictionary

  lemma HashBound(x: nat)
    ensures And(x, D_MASK) < D_SIZE
  {
    hide And;
    AndMask(x, 14);
  }

  /** The primary dictionary slot for the four bytes at ip. */
  function Hash(inp: seq<byte>, ip: nat): (h: nat)
    requires ip + 3 < |inp|
    ensures h < D_SIZE
  {
    var x := Xor(inp[ip + 3] as nat * 64, inp[ip + 2]);
    var y := Xor(x * 32, inp[ip + 1]);
    var z := Xor(y * 32, inp[ip]);
    HashBound(0x21 * z / 32);
    And(0x21 * z / 32, D_MASK)
  }

  /** The secondary slot. */
  function Rehash(d: nat): (h: nat)
    ensures h < D_SIZE
  {
    RehashBound(d);
    Xor(And(d, 0x7ff), 0x201f)
  }

  lemma RehashBound(d: nat)
    ensures Xor(And(d, 0x7ff), 0x201f) < D_SIZE
  {
    hide And, Xor;
    AndMask(d, 11);
    XorBound(And(d, 0x7ff), 0x201f, 14);
  }

  /** A dictionary entry may point anywhere; it is usable only if it points behind ip, into the
      input, and not too far back.  (A pointer past ip gives an unsigned distance that is huge.) */
  predicate Usable(ip: nat, m: int)
  {
    0 <= m < ip && ip - m <= M4_MAX_OFFSET
  }

  predicate Near(inp: seq<byte>, ip: nat, m: int)
    requires Usable(ip, m) && ip + 3 < |inp|
  {
    ip - m <= M2_MAX_OFFSET || inp[m + 3] == inp[ip + 3]
  }

  /** The two dictionary probes and the three-byte comparison. */
  method FindMatch(inp: seq<byte>, ip: nat, dict: array<int>) returns (dindex: nat, found: bool, m: int)
    requires dict.Length == D_SIZE && ip + 3 < |inp|
    ensures dindex < D_SIZE
    ensures found ==> Usable(ip, m) && Near(inp, ip, m) && inp[m..m + 3] == inp[ip..ip + 3]
  {
    hide Hash, Rehash;
    dindex := Hash(inp, ip);
    m := dict[dindex];
    if !Usable(ip, m) { return dindex, false, m; }
    if !Near(inp, ip, m) {
      dindex := Rehash(dindex);
      m := dict[dindex];
      if !Usable(ip, m) || !Near(inp, ip, m) { return dindex, false, m; }
    }
    found := inp[m] == inp[ip] && inp[m + 1] == inp[ip + 1] && inp[m + 2] == inp[ip + 2];
  }

  // ----- matches

  /** The match cannot be continued. */
  predicate MaximalAt(inp: seq<byte>, pos: nat, off: nat, len: nat)
  {
    1 <= off <= pos && pos + len <= |inp| &&
    (pos + len == |inp| || inp[pos + len] != inp[pos + len - off])
  }

  /** How far the match extends: six bytes tested one by one, then a loop to the end of input. */
  method MatchLength(inp: seq<byte>, ip: nat, m: nat) returns (len: nat)
    requires m < ip && ip + 9 <= |inp| && inp[m..m + 3] == inp[ip..ip + 3]
    ensures len >= 3 && MaximalAt(inp, ip, ip - m, len)
    ensures inp[m..m + len] == inp[ip..ip + len]
  {
    len := 3;
    while len < 9 && inp[m + len] == inp[ip + len]
      invariant 3 <= len <= 9 && inp[m..m + len] == inp[ip..ip + len]
    {
      OneLonger(inp, m, ip, len);
      len := len + 1;
    }
    if len == 9 {
      while ip + len < |inp| && inp[m + len] == inp[ip + len]
        invariant 9 <= len && ip + len <= |inp| && inp[m..m + len] == inp[ip..ip + len]
        decreases |inp| - len
      {
        OneLonger(inp, m, ip, len);
        len := len + 1;
      }
    }
  }

  lemma OneLonger(s: seq<byte>, i: nat, j: nat, n: nat)
    requires i + n < |s| && j + n < |s| && s[i..i + n] == s[j..j + n] && s[i + n] == s[j + n]
    ensures s[i..i + (n + 1)] == s[j..j + (n + 1)]
  {
    assert s[i..i + (n + 1)] == s[i..i + n] + [s[i + n]];
    assert s[j..j + (n + 1)] == s[j..j + n] + [s[j + n]];
  }

  /** The loop that writes a zero-extended count. */
  method EmitCount(out0: seq<byte>, m0: nat) returns (out: seq<byte>)
    requires m0 >= 1
    ensures out == out0 + Ext(m0)
  {
    out := out0;
    var m := m0;
    while m > 255
      invariant m >= 1 && out + Ext(m) == out0 + Ext(m0)
    {
      Associative(out, [0], Ext(m - 255));
      out, m := out + [0], m - 255;
    }
    out := out + [m];
  }

  lemma ShortBytes(off: nat, len: nat)
    requires 1 <= off <= M2_MAX_OFFSET && 3 <= len <= M2_MAX_LEN
    ensures Or((len - 1) * 32, And(off - 1, 7) * 4) == (len - 1) * 32 + (off - 1) % 8 * 4
  {
    hide And, Or;
    AndMask(off - 1, 3);
    OrDisjoint((len - 1) * 32, (off - 1) % 8 * 4, 5);
  }

  lemma OffsetBits(m: nat)
    ensures And(m, 63) * 4 == m % 64 * 4
    ensures And(m, 0x4000) / 2048 == m / 0x4000 % 2 * 8
  {
    hide And;
    AndMask(m, 6);
    AndBit(m, 14);
  }

  /** The last two bytes of a long match; the second is truncated to a byte. */
  method EmitOffset(out0: seq<byte>, m: nat) returns (out: seq<byte>)
    requires m < 0x8000
    ensures out == out0 + Offset14(m % 0x4000, 0)
  {
    hide And;
    OffsetBits(m);
    out := out0 + [And(m, 63) * 4] + [m / 64 % 256];
    assert m / 64 % 256 == m % 0x4000 / 64 && m % 64 == m % 0x4000 % 64;
  }

  method EmitM3Prefix(out0: seq<byte>, off: nat, len: nat) returns (out: seq<byte>)
    requires MatchOk(off, len) && off <= M3_MAX_OFFSET && (off <= M2_MAX_OFFSET ==> len > M2_MAX_LEN)
    ensures out == out0 + MatchPrefix(off, len)
  {
    hide Or, Ext;
    if len <= M3_MAX_LEN {
      OrDisjoint(M3_MARKER, len - 2, 5);
      out := out0 + [Or(M3_MARKER, len - 2)];
    } else {
      OrZero(M3_MARKER);
      out := EmitCount(out0 + [Or(M3_MARKER, 0)], len - M3_MAX_LEN);
      Associative(out0, [32], Ext(len - M3_MAX_LEN));
    }
  }

  lemma M4Bits(off: nat, x: nat)
    requires M3_MAX_OFFSET < off <= M4_MAX_OFFSET && x < 8
    ensures Or(Or(M4_MARKER, And(off - 0x4000, 0x4000) / 2048), x) == M4Marker(off) + x
    ensures M4Marker(off) + x < 256
  {
    hide And, Or;
    OffsetBits(off - 0x4000);
    OrDisjoint(M4_MARKER, (off - 0x4000) / 0x4000 % 2 * 8, 4);
    OrDisjoint(M4Marker(off), x, 3);
  }

  lemma M4Prefix(off: nat, len: nat)
    requires MatchOk(off, len) && off > M3_MAX_OFFSET
    ensures len <= M4_MAX_LEN ==>
              M4Marker(off) + (len - 2) < 256 && MatchPrefix(off, len) == [M4Marker(off) + (len - 2)]
    ensures len > M4_MAX_LEN ==> M4Marker(off) < 256 && MatchPrefix(off, len) == [M4Marker(off)] + Ext(len - M4_MAX_LEN)
  {
    hide Ext;
  }

  method EmitM4Prefix(out0: seq<byte>, off: nat, len: nat) returns (out: seq<byte>)
    requires MatchOk(off, len) && off > M3_MAX_OFFSET
    ensures out == out0 + MatchPrefix(off, len)
  {
    hide Or, And, Ext, M4Marker, MatchPrefix;
    M4Prefix(off, len);
    var marker := Or(M4_MARKER, And(off - 0x4000, 0x4000) / 2048);
    if len <= M4_MAX_LEN {
      M4Bits(off, len - 2);
      out := out0 + [Or(marker, len - 2)];
    } else {
      M4Bits(off, 0);
      OrZero(marker);
      out := EmitCount(out0 + [marker], len - M4_MAX_LEN);
      Associative(out0, [marker], Ext(len - M4_MAX_LEN));
    }
  }

  /** A match instruction with its spare bits still zero. */
  method EmitMatch(out0: seq<byte>, off: nat, len: nat) returns (out: seq<byte>)
    requires MatchOk(off, len)
    ensures out == out0 + MatchBytes(off, len, 0)
  {
    hide And, Or, MatchPrefix, Offset14;
    if off <= M2_MAX_OFFSET && len <= M2_MAX_LEN {
      ShortBytes(off, len);
      out := out0 + [Or((len - 1) * 32, And(off - 1, 7) * 4)] + [(off - 1) / 8];
    } else {
      if off <= M3_MAX_OFFSET {
        out := EmitM3Prefix(out0, off, len);
        out := EmitOffset(out, off - 1);
      } else {
        out := EmitM4Prefix(out0, off, len);
        out := EmitOffset(out, off - 0x4000);
      }
      Associative(out0, MatchPrefix(off, len), Offset14(LongOffset(off), 0));
    }
  }

  // ----- literals

  /** Writing the spare bits afterwards gives the same bytes as writing them at once. */
  lemma PatchMatch(off: nat, len: nat, k: nat)
    requires MatchOk(off, len) && k < 4
    ensures var b := MatchBytes(off, len, 0);
            && b[|b| - 2] % 4 == 0
            && MatchBytes(off, len, k) == b[|b| - 2 := b[|b| - 2] + k]
  {
    hide MatchPrefix;
  }

  lemma PatchBytes(pre: seq<byte>, off: nat, len: nat, k: nat)
    requires MatchOk(off, len) && k < 4
    ensures var out := pre + MatchBytes(off, len, 0);
            && Or(out[|out| - 2], k) < 256
            && out[|out| - 2 := Or(out[|out| - 2], k)] == pre + MatchBytes(off, len, k)
  {
    hide Or, MatchBytes;
    PatchMatch(off, len, k);
    var out := pre + MatchBytes(off, len, 0);
    OrDisjoint(out[|out| - 2], k, 2);
  }

  method EmitRunHead(out0: seq<byte>, n: nat) returns (out: seq<byte>)
    requires n >= 4
    ensures out == out0 + RunHead(n)
  {
    hide Ext;
    if n <= 18 {
      out := out0 + [n - 3];
    } else {
      out := EmitCount(out0 + [0], n - 18);
      Associative(out0, [0], Ext(n - 18));
    }
  }

  /** A counted literal run of four or more. */
  method EmitRun(out0: seq<byte>, l: seq<byte>) returns (out: seq<byte>)
    requires |l| >= 4
    ensures out == out0 + RunBytes(l)
  {
    hide RunHead;
    out := EmitRunHead(out0, |l|);
    out := out + l;
    Associative(out0, RunHead(|l|), l);
  }

  /** Literals after a match that so far has none: one to three go into its spare bits. */
  method EmitLiterals(out0: seq<byte>, l: seq<byte>, ghost pre: seq<byte>, ghost it: Item) returns (out: seq<byte>)
    requires ItemOk(it) && it.lits == [] && out0 == pre + ItemBytes(it) && l != []
    ensures out == pre + ItemBytes(it.(lits := l))
  {
    hide MatchBytes, Or;
    assert out0 == pre + MatchBytes(it.off, it.len, 0);
    if |l| <= 3 {
      PatchBytes(pre, it.off, it.len, |l|);
      out := out0[|out0| - 2 := Or(out0[|out0| - 2], |l|)] + l;
    } else {
      out := EmitRun(out0, l);
    }
  }

  // ----- the parse

  /** Every match of the parse is as long as the input allows. */
  ghost predicate Greedy(inp: seq<byte>, m: nat, items: seq<Item>)
  {
    forall i :: 0 <= i < |items| ==> MaximalAt(inp, TextLen(m, items[..i]), items[i].off, items[i].len)
  }

  /** `out` encodes the first ip bytes of the input as a literal run and items. */
  ghost predicate Encoded(inp: seq<byte>, ip: nat, out: seq<byte>, first: seq<byte>, items: seq<Item>)
  {
    && ip <= |inp| && |first| >= 4
    && Fits(|first|, items) && Expand(first, items) == inp[..ip] && Greedy(inp, |first|, items)
    && (FitsItems(|first|, items); out == RunBytes(first) + Body(items))
  }

  /** Between matches: nothing is written yet, or the last match still has no literals. */
  ghost predicate Parsed(inp: seq<byte>, ii: nat, out: seq<byte>, first: seq<byte>, items: seq<Item>)
  {
    || (items == [] && first == [] && out == [] && ii == 0)
    || (items != [] && items[|items| - 1].lits == [] && Encoded(inp, ii, out, first, items))
  }

  function WithLits(items: seq<Item>, l: seq<byte>): (r: seq<Item>)
    requires items != []
    ensures |r| == |items|
  {
    var n := |items| - 1;
    items[..n] + [items[n].(lits := l)]
  }

  lemma LitsExpand(first: seq<byte>, items: seq<Item>, l: seq<byte>)
    requires Fits(|first|, items) && items != [] && items[|items| - 1].lits == []
    ensures Fits(|first|, WithLits(items, l))
    ensures Expand(first, WithLits(items, l)) == Expand(first, items) + l
  {
    hide Copy;
    var n := |items| - 1;
    var r := WithLits(items, l);
    assert r[..n] == items[..n];
  }

  lemma LitsGreedy(inp: seq<byte>, m: nat, items: seq<Item>, l: seq<byte>)
    requires Greedy(inp, m, items) && items != []
    ensures Greedy(inp, m, WithLits(items, l))
  {
    var r := WithLits(items, l);
    forall i | 0 <= i < |r|
      ensures MaximalAt(inp, TextLen(m, r[..i]), r[i].off, r[i].len)
    {
      assert r[..i] == items[..i];
    }
  }

  lemma LitsBody(items: seq<Item>, l: seq<byte>, it: Item)
    requires items != [] && it == items[|items| - 1]
    requires forall i :: 0 <= i < |items| ==> ItemOk(items[i])
    ensures var r := WithLits(items, l); forall i :: 0 <= i < |r| ==> ItemOk(r[i])
    ensures ItemOk(it) && Body(WithLits(items, l)) == Body(items[..|items| - 1]) + ItemBytes(it.(lits := l))
  {
    hide ItemBytes;
    var n := |items| - 1;
    var r := WithLits(items, l);
    assert r[..n] == items[..n] && r[n] == it.(lits := l);
  }

  /** Matching text is what the decoder's copy reproduces. */
  lemma {:induction false} CopyIsText(inp: seq<byte>, ip: nat, off: nat, len: nat)
    requires 1 <= off <= ip && ip + len <= |inp|
    requires inp[ip - off..ip - off + len] == inp[ip..ip + len]
    ensures Copy(inp[..ip], off, len) == inp[..ip + len]
    decreases len
  {
    if len > 0 {
      assert inp[ip] == inp[ip..ip + len][0] == inp[ip - off];
      assert inp[..ip] + [inp[..ip][ip - off]] == inp[..ip + 1];
      var s, t := inp[ip - off..ip - off + len], inp[ip..ip + len];
      assert inp[ip + 1 - off..ip - off + len] == s[1..] && inp[ip + 1..ip + len] == t[1..];
      CopyIsText(inp, ip + 1, off, len - 1);
    }
  }

  lemma AddMatchExpand(inp: seq<byte>, ip: nat, first: seq<byte>, items: seq<Item>, off: nat, len: nat)
    requires Fits(|first|, items) && ip <= |inp| && Expand(first, items) == inp[..ip]
    requires MatchOk(off, len) && off <= ip && ip + len <= |inp|
    requires inp[ip - off..ip - off + len] == inp[ip..ip + len]
    ensures var r := items + [Item(off, len, [])];
            Fits(|first|, r) && Expand(first, r) == inp[..ip + len]
  {
    hide Copy;
    var r := items + [Item(off, len, [])];
    assert r[..|items|] == items;
    CopyIsText(inp, ip, off, len);
  }

  lemma AddMatchGreedy(inp: seq<byte>, m: nat, items: seq<Item>, it: Item)
    requires Greedy(inp, m, items) && MaximalAt(inp, TextLen(m, items), it.off, it.len)
    ensures Greedy(inp, m, items + [it])
  {
    var r := items + [it];
    forall i | 0 <= i < |r|
      ensures MaximalAt(inp, TextLen(m, r[..i]), r[i].off, r[i].len)
    {
      assert i < |items| ==> r[..i] == items[..i];
      assert i == |items| ==> r[..i] == items;
    }
  }

  lemma AddMatchBody(items: seq<Item>, it: Item)
    requires ItemOk(it) && forall i :: 0 <= i < |items| ==> ItemOk(items[i])
    ensures Body(items + [it]) == Body(items) + ItemBytes(it)
  {
    hide ItemBytes;
    assert (items + [it])[..|items|] == items;
  }

  /** Writes the literals inp[ii..ip] that precede a match or end the input. */
  method AddLiterals(inp: seq<byte>, ii: nat, ip: nat, out0: seq<byte>, ghost first0: seq<byte>,
                     ghost items0: seq<Item>)
    returns (out: seq<byte>, ghost first: seq<byte>, ghost items: seq<Item>)
    requires Parsed(inp, ii, out0, first0, items0) && ii < ip <= |inp|
    requires items0 == [] ==> ip >= 4
    ensures Encoded(inp, ip, out, first, items)
  {
    hide Encoded, Fits, Body, ItemBytes, RunBytes;
    OutNonempty(inp, ii, out0, first0, items0);
    var l := inp[ii..ip];
    if out0 == [] {
      first, items := l, [];
      out := EmitRun(out0, l);
      FirstRun(inp, ip, out);
    } else {
      ghost var n := |items0| - 1;
      first, items := first0, WithLits(items0, l);
      LastItem(inp, ii, out0, first0, items0);
      out := EmitLiterals(out0, l, RunBytes(first) + Body(items0[..n]), items0[n]);
      LitsEncoded(inp, ii, ip, out0, out, first, items0);
    }
  }

  lemma LastItem(inp: seq<byte>, ii: nat, out: seq<byte>, first: seq<byte>, items: seq<Item>)
    requires items != [] && Encoded(inp, ii, out, first, items)
    ensures forall i :: 0 <= i < |items| ==> ItemOk(items[i])
    ensures out == RunBytes(first) + Body(items[..|items| - 1]) + ItemBytes(items[|items| - 1])
  {
    hide Fits, Expand, Greedy, RunBytes, ItemBytes;
    FitsItems(|first|, items);
    Associative(RunBytes(first), Body(items[..|items| - 1]), ItemBytes(items[|items| - 1]));
  }

  lemma OutNonempty(inp: seq<byte>, ii: nat, out: seq<byte>, first: seq<byte>, items: seq<Item>)
    requires Parsed(inp, ii, out, first, items)
    ensures out == [] <==> items == []
  {
    hide Fits, Expand, Greedy, Body;
    if items != [] { FitsItems(|first|, items); }
  }

  lemma FirstRun(inp: seq<byte>, ip: nat, out: seq<byte>)
    requires 4 <= ip <= |inp| && out == [] + RunBytes(inp[0..ip])
    ensures Encoded(inp, ip, out, inp[0..ip], [])
  {
    hide RunBytes;
    assert inp[0..ip] == inp[..ip];
  }

  lemma LitsEncoded(inp: seq<byte>, ii: nat, ip: nat, out0: seq<byte>, out: seq<byte>, first: seq<byte>,
                    items: seq<Item>)
    requires items != [] && items[|items| - 1].lits == [] && Encoded(inp, ii, out0, first, items) && ii < ip <= |inp|
    requires (FitsItems(|first|, items);
              out == RunBytes(first) + Body(items[..|items| - 1]) + ItemBytes(items[|items| - 1].(lits := inp[ii..ip])))
    ensures Encoded(inp, ip, out, first, WithLits(items, inp[ii..ip]))
  {
    hide Fits, Expand, Greedy, RunBytes, ItemBytes, Body;
    var l, it := inp[ii..ip], items[|items| - 1];
    FitsItems(|first|, items);
    LitsExpand(first, items, l);
    LitsGreedy(inp, |first|, items, l);
    LitsBody(items, l, it);
    assert inp[..ii] + l == inp[..ip];
    Associative(RunBytes(first), Body(items[..|items| - 1]), ItemBytes(it.(lits := l)));
  }

  /** Writes one match found at ip. */
  method AddMatch(inp: seq<byte>, ip: nat, off: nat, len: nat, out0: seq<byte>, ghost first: seq<byte>,
                  ghost items0: seq<Item>)
    returns (out: seq<byte>, ghost items: seq<Item>)
    requires Encoded(inp, ip, out0, first, items0)
    requires MatchOk(off, len) && MaximalAt(inp, ip, off, len)
    requires inp[ip - off..ip - off + len] == inp[ip..ip + len]
    ensures items == items0 + [Item(off, len, [])] && Parsed(inp, ip + len, out, first, items)
  {
    hide Fits, Expand, Greedy, RunBytes, Body, MatchBytes;
    ghost var it := Item(off, len, []);
    items := items0 + [it];
    out := EmitMatch(out0, off, len);
    FitsItems(|first|, items0);
    AddMatchExpand(inp, ip, first, items0, off, len);
    TextLenIs(first, items0);
    AddMatchGreedy(inp, |first|, items0, it);
    AddMatchBody(items0, it);
    BareItem(it);
    Associative(RunBytes(first), Body(items0), ItemBytes(it));
  }

  lemma BareItem(it: Item)
    requires ItemOk(it) && it.lits == []
    ensures ItemBytes(it) == MatchBytes(it.off, it.len, 0)
  {
    hide MatchBytes;
  }

  lemma TextLenIs(first: seq<byte>, items: seq<Item>)
    requires Fits(|first|, items)
    ensures TextLen(|first|, items) == |Expand(first, items)|
  {
  }

  lemma FoundOk(inp: seq<byte>, ip: nat, m: nat, len: nat)
    requires ip + 3 < |inp| && Usable(ip, m) && Near(inp, ip, m)
    requires len >= 3 && MaximalAt(inp, ip, ip - m, len)
    ensures MatchOk(ip - m, len)
  {
  }

  /** The main loop.  The working dictionary is never cleared and may start with any contents. */
  method DoCompress(inp: seq<byte>, dict: array<int>)
    returns (out: seq<byte>, ii: nat, ghost first: seq<byte>, ghost items: seq<Item>)
    requires |inp| > M2_MAX_LEN + 5 && dict.Length == D_SIZE
    modifies dict
    ensures ii <= |inp| && Parsed(inp, ii, out, first, items)
  {
    hide Encoded, MatchOk;
    var ip := 4;
    ii, out, first, items := 0, [], [], [];
    while true
      invariant Parsed(inp, ii, out, first, items)
      invariant 4 <= ip && ii <= ip && ip + 9 < |inp|
      decreases |inp| - ip
    {
      var dindex, found, m := FindMatch(inp, ip, dict);
      dict[dindex] := ip;
      if !found {
        ip := ip + 1;
      } else {
        if ip != ii {
          out, first, items := AddLiterals(inp, ii, ip, out, first, items);
        }
        var len := MatchLength(inp, ip, m);
        FoundOk(inp, ip, m, len);
        out, items := AddMatch(inp, ip, ip - m, len, out, first, items);
        ip := ip + len;
        ii := ip;
      }
      if ip + M2_MAX_LEN + 5 >= |inp| { break; }
    }
  }

  lemma EncodedStream(inp: seq<byte>, out: seq<byte>, first: seq<byte>, items: seq<Item>)
    requires Encoded(inp, |inp|, out, first, items)
    ensures var s := Stream(false, first, items);
            Wellformed(s) && out + Eof == StreamBytes(s) && Expand(first, items) == inp && Greedy(inp, |first|, items)
  {
    hide Fits, Expand, Greedy, RunBytes, Body;
    assert inp[..|inp|] == inp;
  }

  /** lzo1x_1_compress: the output is a well-formed stream for exactly the input, with every match
      maximal, and so decodes to it; it stays within the worst-case size. */
  method Compress(inp: seq<byte>, dict: array<int>) returns (out: seq<byte>, ghost s: Stream)
    requires dict.Length == D_SIZE
    modifies dict
    ensures Wellformed(s) && out == StreamBytes(s) && Expand(s.first, s.items) == inp && Greedy(inp, |s.first|, s.items)
    ensures |out| <= |inp| + |inp| / 16 + 4
    ensures LzoDecoder.Decode(out, |inp|) == LzoDecoder.Halt(|out|, LzoDecoder.Ok, inp)
  {
    hide Encoded, StreamBytes, LzoDecoder.Decode;
    var ii: nat := 0;
    ghost var first, items := [], [];
    out := [];
    if |inp| > M2_MAX_LEN + 5 {
      out, ii, first, items := DoCompress(inp, dict);
    }
    out, s := Finish(inp, ii, out, first, items);
    LzoDecoder.DecodeStream(s);
    WorstCase(s);
  }

  /** The literals after the last match, and the end code. */
  method Finish(inp: seq<byte>, ii: nat, out0: seq<byte>, ghost first0: seq<byte>, ghost items0: seq<Item>)
    returns (out: seq<byte>, ghost s: Stream)
    requires Parsed(inp, ii, out0, first0, items0) && ii <= |inp|
    ensures Wellformed(s) && out == StreamBytes(s) && Expand(s.first, s.items) == inp && Greedy(inp, |s.first|, s.items)
  {
    hide Wellformed, StreamBytes, Fits, Expand, Body, RunBytes, Encoded, Or, Greedy;
    OutNonempty(inp, ii, out0, first0, items0);
    var t := |inp| - ii;
    out := out0;
    if out == [] && t <= 238 {
      if t > 0 {
        out := [17 + t] + inp;
      }
      s := Stream(t > 0, inp, []);
      LoneRun(inp);
    } else {
      ghost var first, items := first0, items0;
      if t > 0 {
        out, first, items := AddLiterals(inp, ii, |inp|, out, first, items);
      }
      EncodedStream(inp, out, first, items);
      s := Stream(false, first, items);
    }
    OrDisjoint(M4_MARKER, 1, 1);
    out := out + [Or(M4_MARKER, 1), 0, 0];
  }

  lemma LoneRun(inp: seq<byte>)
    requires |inp| <= 238
    ensures var s := Stream(|inp| > 0, inp, []);
            && Wellformed(s) && Expand(s.first, s.items) == inp && Greedy(inp, |s.first|, s.items)
            && StreamBytes(s) == (if |inp| > 0 then [17 + |inp|] + inp else []) + Eof
  {
  }

  /** The size the logger reserves for the compressed form of a full buffer. */
  function WorstCompress(x: nat): nat
  {
    x + x / 16 + 64 + 3
  }

  /** __lzo_compress: the output fits the work buffer sized by WorstCompress, also for the bytes that a
      record may take behind the end of the log buffer.  The assertion of the code admits inputs up to
      the size of the work buffer; not ok stands for an output past its end. */
  method CompressInto(inp: seq<byte>, bufferSize: nat, dict: array<int>, work: array<byte>)
    returns (ok: bool, n: nat, ghost s: Stream)
    requires dict.Length == D_SIZE && work.Length == WorstCompress(bufferSize)
    requires |inp| <= work.Length
    modifies dict, work
    ensures Wellformed(s) && Expand(s.first, s.items) == inp && Greedy(inp, |s.first|, s.items)
    ensures ok <==> |StreamBytes(s)| <= work.Length
    ensures ok ==> n <= work.Length && work[..n] == StreamBytes(s)
    ensures |inp| <= bufferSize + 59 ==> ok
    ensures NoRecur(inp) && |inp| + 4 > work.Length ==> !ok
    ensures ok ==> LzoDecoder.Decode(work[..n], |inp|) == LzoDecoder.Halt(n, LzoDecoder.Ok, inp)
  {
    hide StreamBytes, LzoDecoder.Decode, Greedy, Wellformed, Expand, NoRecur;
    var out;
    out, s := Compress(inp, dict);
    if NoRecur(inp) && inp != [] { Incompressible(s, inp); }
    n := |out|;
    ok := n <= work.Length;
    if !ok { return; }
    for i := 0 to n
      invariant forall j :: 0 <= j < i ==> work[j] == out[j]
    {
      work[i] := out[i];
    }
    assert work[..n] == out;
  }

  /** The three bytes at i come again at j. */
  predicate Again(inp: seq<byte>, i: nat, j: nat)
  {
    i < j && j + 3 <= |inp| && inp[i] == inp[j] && inp[i + 1] == inp[j + 1] && inp[i + 2] == inp[j + 2]
  }

  /** No three bytes come again within the reach of a match. */
  predicate NoRecur(inp: seq<byte>)
  {
    forall i: nat, j: nat :: i < j <= |inp| && j - i <= M4_MAX_OFFSET ==> !Again(inp, i, j)
  }

  /** Such a text has no match, so its stream is four bytes longer or more. */
  lemma Incompressible(s: Stream, inp: seq<byte>)
    requires Wellformed(s) && Expand(s.first, s.items) == inp && NoRecur(inp) && inp != []
    ensures |StreamBytes(s)| >= |inp| + 4
  {
    if s.items != [] {
      var k := |s.items| - 1;
      var it, text := s.items[k], Expand(s.first, s.items[..k]);
      Recurs(text, it.off, it.len, it.lits);
      assert false;
    }
  }

  lemma Recurs(text: seq<byte>, off: nat, len: nat, lits: seq<byte>)
    requires 1 <= off <= |text| && off <= M4_MAX_OFFSET && len >= 3
    ensures !NoRecur(Copy(text, off, len) + lits)
  {
    hide Copy;
    var r, j := Copy(text, off, len) + lits, |text|;
    CopySplit(text, off, 3, len - 3);
    var three := Copy(text, off, 3);
    CopyThree(text, off);
    assert r[..j + 3] == three;
    assert forall k :: 0 <= k < j + 3 ==> r[k] == three[k];
    assert Again(r, j - off, j);
  }

  lemma CopyThree(text: seq<byte>, off: nat)
    requires 1 <= off <= |text|
    ensures Again(Copy(text, off, 3), |text| - off, |text|)
  {
    hide Copy;
    var m := |text| - off;
    var t1 := text + [text[m]];
    var t2 := t1 + [t1[m + 1]];
    var t3 := t2 + [t2[m + 2]];
    CopyOne(text, off, 3);
    CopyOne(t1, off, 2);
    CopyOne(t2, off, 1);
    CopyNone(t3, off);
  }

  // ----- a text of any length without matches

  /** The digits of j in base 85, lowest first. */
  function Digit(c: nat, j: nat): (d: nat)
    ensures d < 85
  {
    if c == 0 then j % 85 else if c == 1 then j / 85 % 85 else j / 7225 % 85
  }

  /** The numbers 0, 1, 2, ... with three digits each; every digit shows its place. */
  function Counting(n: nat): (s: seq<byte>)
    ensures |s| == n && forall i :: 0 <= i < n ==> s[i] as nat == i % 3 * 85 + Digit(i % 3, i / 3)
  {
    seq(n, i requires 0 <= i < n => (i % 3 * 85 + Digit(i % 3, i / 3)) as byte)
  }

  /** Numbers with the same distance from each other, of which each pair agrees in one digit, are far apart. */
  lemma FarApart(a: nat, b: nat, c: nat, d: nat)
    requires d > 0 && Digit(0, a) == Digit(0, a + d) && Digit(1, b) == Digit(1, b + d) && Digit(2, c) == Digit(2, c + d)
    ensures d >= 614125
  {
    SameRest(a, d);
    var e := d / 85;
    assert (b + d) / 85 == b / 85 + e;
    SameRest(b / 85, e);
    var f := e / 85;
    assert (c + d) / 7225 == c / 7225 + f;
    SameRest(c / 7225, f);
  }

  lemma SameRest(a: nat, d: nat)
    requires a % 85 == (a + d) % 85
    ensures d % 85 == 0
  {
  }

  /** Equal bytes of the text are the same digit of their numbers. */
  lemma SameDigit(n: nat, i: nat, j: nat)
    requires i < j < n && Counting(n)[i] == Counting(n)[j]
    ensures i % 3 == j % 3 && j / 3 == i / 3 + (j - i) / 3 && Digit(i % 3, i / 3) == Digit(i % 3, j / 3)
  {
    hide Digit;
    var c, c', d, d' := i % 3, j % 3, Digit(i % 3, i / 3), Digit(j % 3, j / 3);
    assert c * 85 + d == c' * 85 + d';
  }

  lemma CountingFresh(n: nat)
    ensures NoRecur(Counting(n))
  {
    hide Counting, Digit;
    forall i: nat, j: nat | i < j <= n && j - i <= M4_MAX_OFFSET ensures !Again(Counting(n), i, j) {
      if Again(Counting(n), i, j) {
        SameDigit(n, i, j);
        SameDigit(n, i + 1, j + 1);
        SameDigit(n, i + 2, j + 2);
        NotNear(i, (j - i) / 3);
      }
    }
  }

  /** One of three neighbours is the first digit of its number, one the second, one the third. */
  lemma NotNear(i: nat, d: nat)
    requires d > 0 && Digit(i % 3, i / 3) == Digit(i % 3, i / 3 + d)
    requires Digit((i + 1) % 3, (i + 1) / 3) == Digit((i + 1) % 3, (i + 1) / 3 + d)
    requires Digit((i + 2) % 3, (i + 2) / 3) == Digit((i + 2) % 3, (i + 2) / 3 + d)
    ensures d >= 614125
  {
    hide Digit;
    var q := i / 3;
    if i % 3 == 0 {
      assert (i + 1) / 3 == q && (i + 2) / 3 == q && (i + 1) % 3 == 1 && (i + 2) % 3 == 2;
      FarApart(q, q, q, d);
    } else if i % 3 == 1 {
      assert (i + 1) / 3 == q && (i + 2) / 3 == q + 1 && (i + 1) % 3 == 2 && (i + 2) % 3 == 0;
      FarApart(q + 1, q, q, d);
    } else {
      assert (i + 1) / 3 == q + 1 && (i + 2) / 3 == q + 1 && (i + 1) % 3 == 0 && (i + 2) % 3 == 1;
      FarApart(q + 1, q + 1, q, d);
    }
  }

  /** For every size of the log buffer the assertion of the code admits an input whose compressed form does
      not fit. */
  lemma AssertTooWeak(bufferSize: nat) returns (inp: seq<byte>)
    ensures |inp| <= WorstCompress(bufferSize)
    ensures forall s: Stream :: Wellformed(s) && Expand(s.first, s.items) == inp ==>
              |StreamBytes(s)| > WorstCompress(bufferSize)
  {
    hide StreamBytes, Expand, NoRecur, Counting;
    inp := Counting(WorstCompress(bufferSize));
    CountingFresh(|inp|);
    forall s: Stream | Wellformed(s) && Expand(s.first, s.items) == inp
      ensures |StreamBytes(s)| > WorstCompress(bufferSize)
    {
      Incompressible(s, inp);
    }
  }
}
