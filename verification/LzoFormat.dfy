/** The LZO1X byte format as the compressor emits it: a first literal run, then items that are
    each a match followed by a literal run, then the end-of-stream code.  The format is stated
    with arithmetic only; the codec works with shifts, masks and in-place patches. */
module LzoFormat {
  import opened Bits
  import opened Lz77

  const M2_MAX_OFFSET := 0x0800
  const M3_MAX_OFFSET := 0x4000
  const M4_MAX_OFFSET := 0xbfff
  const M2_MAX_LEN := 8
  const M3_MAX_LEN := 33
  const M4_MAX_LEN := 9
  const M3_MARKER := 32
  const M4_MARKER := 16

  /** A match of `len` bytes found `off` bytes back, and the literals that follow it. */
  datatype Item = Item(off: nat, len: nat, lits: seq<byte>)

  /** `short` marks the one-byte header used when the whole input is a short literal run. */
  datatype Stream = Stream(short: bool, first: seq<byte>, items: seq<Item>)

  const Eof: seq<byte> := [17, 0, 0]

  /** A count of at least one: zeros worth 255 each, then a nonzero byte. */
  function Ext(m: nat): (e: seq<byte>)
    requires m >= 1
    ensures |e| == 1 + (m - 1) / 255
  {
    if m > 255 then [0] + Ext(m - 255) else [m]
  }

  /** The count of a run of four or more literals. */
  function RunHead(n: nat): (h: seq<byte>)
    requires n >= 4
    ensures |h| >= 1 && h[0] <= 15
  {
    if n <= 18 then [n - 3] else [0] + Ext(n - 18)
  }

  function RunBytes(l: seq<byte>): seq<byte>
  {
    if |l| <= 3 then l else RunHead(|l|) + l
  }

  /** The number of literals that fits into the two spare bits of the preceding match. */
  function Spare(l: seq<byte>): nat
  {
    if |l| <= 3 then |l| else 0
  }

  predicate MatchOk(off: nat, len: nat)
  {
    1 <= off <= M4_MAX_OFFSET && 3 <= len && (off > M2_MAX_OFFSET ==> len >= 4)
  }

  function Offset14(o: nat, k: nat): (b: seq<byte>)
    requires o < 0x4000 && k < 4
    ensures |b| == 2
  {
    [o % 64 * 4 + k, o / 64]
  }

  function M4Marker(off: nat): (m: nat)
    requires M3_MAX_OFFSET < off <= M4_MAX_OFFSET
  {
    16 + (off - 0x4000) / 0x4000 * 8
  }

  /** Everything of a match instruction except its last two bytes in the long forms. */
  function MatchPrefix(off: nat, len: nat): (b: seq<byte>)
    requires MatchOk(off, len) && !(off <= M2_MAX_OFFSET && len <= M2_MAX_LEN)
  {
    if off <= M3_MAX_OFFSET then
      (if len <= M3_MAX_LEN then [32 + (len - 2)] else [32] + Ext(len - M3_MAX_LEN))
    else
      (if len <= M4_MAX_LEN then [M4Marker(off) + (len - 2)] else [M4Marker(off)] + Ext(len - M4_MAX_LEN))
  }

  function LongOffset(off: nat): (o: nat)
    requires 1 <= off <= M4_MAX_OFFSET
    ensures o < 0x4000
  {
    if off <= M3_MAX_OFFSET then off - 1 else (off - 0x4000) % 0x4000
  }

  /** A match instruction whose two spare bits hold `k`. */
  function MatchBytes(off: nat, len: nat, k: nat): (b: seq<byte>)
    requires MatchOk(off, len) && k < 4
    ensures |b| >= 2 && b[0] >= 16
  {
    if off <= M2_MAX_OFFSET && len <= M2_MAX_LEN then
      [(len - 1) * 32 + (off - 1) % 8 * 4 + k, (off - 1) / 8]
    else
      MatchPrefix(off, len) + Offset14(LongOffset(off), k)
  }

  predicate ItemOk(it: Item)
  {
    MatchOk(it.off, it.len)
  }

  function ItemBytes(it: Item): (b: seq<byte>)
    requires ItemOk(it)
    ensures |b| >= 2 && b[0] >= 16
  {
    MatchBytes(it.off, it.len, Spare(it.lits)) + RunBytes(it.lits)
  }

  /** The length of the decoded text, for a first run of `m` bytes. */
  function TextLen(m: nat, items: seq<Item>): (n: nat)
    ensures n >= m
  {
    if items == [] then m
    else
      var k := |items| - 1;
      TextLen(m, items[..k]) + items[k].len + |items[k].lits|
  }

  /** Every match is well formed and reaches back only into text already produced. */
  predicate Fits(m: nat, items: seq<Item>)
  {
    items == [] ||
    (var k := |items| - 1;
     Fits(m, items[..k]) && ItemOk(items[k]) && items[k].off <= TextLen(m, items[..k]))
  }

  /** The decoded text of a literal run followed by items. */
  function Expand(first: seq<byte>, items: seq<Item>): (r: seq<byte>)
    requires Fits(|first|, items)
    ensures |r| == TextLen(|first|, items)
  {
    if items == [] then first
    else
      var k := |items| - 1;
      Copy(Expand(first, items[..k]), items[k].off, items[k].len) + items[k].lits
  }

  function Body(items: seq<Item>): seq<byte>
    requires forall i :: 0 <= i < |items| ==> ItemOk(items[i])
  {
    if items == [] then [] else Body(items[..|items| - 1]) + ItemBytes(items[|items| - 1])
  }

  function BodyFrom(items: seq<Item>, k: nat): (b: seq<byte>)
    requires k <= |items|
    requires forall i :: 0 <= i < |items| ==> ItemOk(items[i])
    ensures |b| >= 3 && b[0] >= 16
    decreases |items| - k
  {
    if k == |items| then Eof else ItemBytes(items[k]) + BodyFrom(items, k + 1)
  }

  lemma {:induction false} FitsItems(m: nat, items: seq<Item>)
    requires Fits(m, items)
    ensures forall i :: 0 <= i < |items| ==> ItemOk(items[i])
  {
    if items != [] { FitsItems(m, items[..|items| - 1]); }
  }

  /** Item k of a fitting sequence fits the text before it, and that text is within the whole. */
  lemma {:induction false} FitsAt(m: nat, items: seq<Item>, k: nat)
    requires Fits(m, items) && k < |items|
    ensures Fits(m, items[..k]) && ItemOk(items[k]) && items[k].off <= TextLen(m, items[..k])
    ensures TextLen(m, items[..k + 1]) == TextLen(m, items[..k]) + items[k].len + |items[k].lits|
    ensures TextLen(m, items[..k + 1]) <= TextLen(m, items)
  {
    var n := |items| - 1;
    if k == n {
      assert items[..k + 1] == items;
    } else {
      FitsAt(m, items[..n], k);
      assert items[..n][..k] == items[..k] && items[..n][..k + 1] == items[..k + 1];
    }
  }

  lemma BodyNext(items: seq<Item>, k: nat)
    requires k < |items| && forall i :: 0 <= i < |items| ==> ItemOk(items[i])
    ensures Body(items[..k + 1]) == Body(items[..k]) + ItemBytes(items[k])
  {
    assert items[..k + 1][..k] == items[..k];
  }

  /** The bytes of the items can be read from the front as well as built from the back. */
  lemma {:induction false} BodySplit(items: seq<Item>, k: nat)
    requires k <= |items|
    requires forall i :: 0 <= i < |items| ==> ItemOk(items[i])
    ensures Body(items[..k]) + BodyFrom(items, k) == Body(items) + Eof
    decreases |items| - k
  {
    hide ItemBytes;
    if k == |items| {
      assert items[..k] == items;
    } else {
      BodyNext(items, k);
      BodySplit(items, k + 1);
      Associative(Body(items[..k]), ItemBytes(items[k]), BodyFrom(items, k + 1));
    }
  }

  lemma Associative(a: seq<byte>, b: seq<byte>, c: seq<byte>)
    ensures a + (b + c) == (a + b) + c
  {
  }

  /** What the compressor may emit: a short header only for a lone literal run, and otherwise a
      first run long enough that its count byte is not taken for a match. */
  predicate Wellformed(s: Stream)
  {
    && Fits(|s.first|, s.items)
    && (s.short ==> s.items == [] && 1 <= |s.first| <= 238)
    && (!s.short ==> |s.first| >= 4 || (s.first == [] && s.items == []))
  }

  function StreamBytes(s: Stream): seq<byte>
    requires Wellformed(s)
  {
    FitsItems(|s.first|, s.items);
    (if s.short then [17 + |s.first|] + s.first else RunBytes(s.first)) + Body(s.items) + Eof
  }

  // ----- worst case

  /** A match always saves at least one byte over sending its text. */
  lemma MatchSaves(off: nat, len: nat, k: nat)
    requires MatchOk(off, len) && k < 4
    ensures |MatchBytes(off, len, k)| <= len - 1
  {
  }

  lemma RunCost(l: seq<byte>)
    ensures |RunBytes(l)| <= |l| + 1 + |l| / 16
  {
  }

  lemma {:induction false} BodyCost(m: nat, items: seq<Item>)
    requires Fits(m, items)
    ensures (FitsItems(m, items); 16 * |Body(items)| <= 17 * (TextLen(m, items) - m))
  {
    FitsItems(m, items);
    if items != [] {
      var k := |items| - 1;
      var it := items[k];
      BodyCost(m, items[..k]);
      MatchSaves(it.off, it.len, Spare(it.lits));
      ItemCost(it);
      assert |Body(items)| == |Body(items[..k])| + |ItemBytes(it)|;
    }
  }

  lemma ItemCost(it: Item)
    requires ItemOk(it)
    ensures 16 * |ItemBytes(it)| <= 17 * (it.len + |it.lits|)
  {
    MatchSaves(it.off, it.len, Spare(it.lits));
    RunCost(it.lits);
  }

  /** The compressed form of n bytes takes at most n + n/16 + 4 bytes. */
  lemma WorstCase(s: Stream)
    requires Wellformed(s)
    ensures var n := |Expand(s.first, s.items)|; |StreamBytes(s)| <= n + n / 16 + 4
  {
    BodyCost(|s.first|, s.items);
    RunCost(s.first);
    FitsItems(|s.first|, s.items);
    var n, m := TextLen(|s.first|, s.items), |s.first|;
    assert |Body(s.items)| <= (n - m) + (n - m) / 16;
    assert m / 16 + (n - m) / 16 <= n / 16;
  }
}
