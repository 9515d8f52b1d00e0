/** The log file: frames holding either LZO-compressed or raw data. */
module LogFormat {
  import opened Bits
  import LzoDecoder

  const COMPRESSED_DATA_MARK: byte := 1
  const UNCOMPRESSED_DATA_MARK: byte := 0
  const WORD_LIMIT := 0x1_0000_0000

  function U32(n: nat): (b: seq<byte>)
    requires n < WORD_LIMIT
    ensures |b| == 4
  {
    [n % 256, n / 256 % 256, n / 65536 % 256, n / 16777216]
  }

  function FromU32(b: seq<byte>): nat
    requires |b| == 4
  {
    b[0] as nat + b[1] as nat * 256 + b[2] as nat * 65536 + b[3] as nat * 16777216
  }

  lemma U32RoundTrip(n: nat)
    requires n < WORD_LIMIT
    ensures FromU32(U32(n)) == n
  {
    var a, b := n / 256, n / 65536;
    assert n == a * 256 + n % 256;
    assert a / 256 == b && a == b * 256 + a % 256;
    assert b / 256 == n / 16777216 && b == b / 256 * 256 + b % 256;
  }

  /** A block of log data as written to the file. */
  datatype Frame = Packed(data: seq<byte>, comp: seq<byte>) | Raw(data: seq<byte>)

  predicate FrameOk(f: Frame)
  {
    && |f.data| < WORD_LIMIT
    && (f.Packed? ==> |f.comp| < WORD_LIMIT
                      && LzoDecoder.Decode(f.comp, |f.data|) == LzoDecoder.Halt(|f.comp|, LzoDecoder.Ok, f.data))
  }

  function FrameBytes(f: Frame): (b: seq<byte>)
    requires FrameOk(f)
    ensures |b| >= 5
  {
    match f
    case Packed(data, comp) => [COMPRESSED_DATA_MARK] + U32(|data|) + U32(|comp|) + comp
    case Raw(data) => [UNCOMPRESSED_DATA_MARK] + U32(|data|) + data
  }

  predicate FramesOk(fs: seq<Frame>)
  {
    forall i :: 0 <= i < |fs| ==> FrameOk(fs[i])
  }

  /** The file that holds the given frames. */
  function FileOf(fs: seq<Frame>): seq<byte>
    requires FramesOk(fs)
  {
    if fs == [] then [] else FrameBytes(fs[0]) + FileOf(fs[1..])
  }

  lemma {:induction false} FileAppend(fs: seq<Frame>, f: Frame)
    requires FramesOk(fs) && FrameOk(f)
    ensures FramesOk(fs + [f]) && FileOf(fs + [f]) == FileOf(fs) + FrameBytes(f)
  {
    hide FrameBytes, FrameOk;
    var r := fs + [f];
    if fs == [] {
      assert r[1..] == [] && FileOf(r[1..]) == [];
    } else {
      assert r[1..] == fs[1..] + [f];
      FileAppend(fs[1..], f);
      assert FileOf(r) == FrameBytes(fs[0]) + FileOf(r[1..]);
      assert FrameBytes(fs[0]) + (FileOf(fs[1..]) + FrameBytes(f)) == FileOf(fs) + FrameBytes(f);
    }
  }

  /** The data of the frames, in order. */
  function Text(fs: seq<Frame>): seq<byte>
  {
    if fs == [] then [] else fs[0].data + Text(fs[1..])
  }

  lemma {:induction false} TextAppend(fs: seq<Frame>, f: Frame)
    ensures Text(fs + [f]) == Text(fs) + f.data
  {
    var r := fs + [f];
    if fs != [] {
      assert r[1..] == fs[1..] + [f];
      TextAppend(fs[1..], f);
    }
  }

  /** The data of each frame. */
  function Blocks(fs: seq<Frame>): (bs: seq<seq<byte>>)
    ensures |bs| == |fs|
    ensures forall i :: 0 <= i < |fs| ==> bs[i] == fs[i].data
  {
    if fs == [] then [] else [fs[0].data] + Blocks(fs[1..])
  }

  lemma BlocksAppend(fs: seq<Frame>, f: Frame)
    ensures Blocks(fs + [f]) == Blocks(fs) + [f.data]
  {
    hide Blocks;
  }

  predicate NoEmpty(fs: seq<Frame>)
  {
    forall i :: 0 <= i < |fs| ==> fs[i].data != []
  }

  /** How many bytes lie before the first empty frame. */
  function Head(fs: seq<Frame>): nat
  {
    if fs == [] || fs[0].data == [] then 0 else |fs[0].data| + Head(fs[1..])
  }

  lemma {:induction false} HeadAll(fs: seq<Frame>)
    requires NoEmpty(fs)
    ensures Head(fs) == |Text(fs)|
  {
    if fs != [] { HeadAll(fs[1..]); }
  }

  /** Behind an empty frame nothing counts. */
  lemma {:induction false} HeadKept(fs: seq<Frame>, more: seq<Frame>)
    requires !NoEmpty(fs)
    ensures Head(fs + more) == Head(fs)
  {
    var r := fs + more;
    if fs[0].data != [] {
      assert r[1..] == fs[1..] + more;
      assert !NoEmpty(fs[1..]);
      HeadKept(fs[1..], more);
    }
  }

  lemma {:induction false} HeadStops(fs: seq<Frame>, f: Frame)
    requires NoEmpty(fs) && f.data == []
    ensures Head(fs + [f]) == |Text(fs)| && !NoEmpty(fs + [f])
  {
    var r := fs + [f];
    assert r[|fs|].data == [];
    if fs != [] {
      assert r[1..] == fs[1..] + [f];
      HeadStops(fs[1..], f);
    }
  }

  // ----- parsing one frame

  datatype Error = None | LogEnd | LogCorrupted | FileCorrupted | LzoInflate

  datatype Parse = Parse(error: Error, pos: nat, data: seq<byte>)

  /** What next_region makes of the file at position pos. */
  function ParseAt(file: seq<byte>, pos: nat): (p: Parse)
    requires pos <= |file|
    ensures pos <= p.pos <= |file| && (p.error == None ==> pos < p.pos)
  {
    if pos == |file| then Parse(LogEnd, pos, [])
    else if file[pos] == COMPRESSED_DATA_MARK then
      if |file| - pos < 9 then Parse(LogEnd, |file|, [])
      else
        var full, comp := FromU32(file[pos + 1..pos + 5]), FromU32(file[pos + 5..pos + 9]);
        if |file| - (pos + 9) < comp then Parse(LogEnd, |file|, [])
        else
          var r := LzoDecoder.Decode(file[pos + 9..pos + 9 + comp], full);
          if |r.out| != full then Parse(LzoInflate, pos + 9 + comp, [])
          else Parse(None, pos + 9 + comp, r.out)
    else if file[pos] == UNCOMPRESSED_DATA_MARK then
      if |file| - pos < 5 then Parse(LogEnd, |file|, [])
      else
        var size := FromU32(file[pos + 1..pos + 5]);
        if |file| - (pos + 5) < size then Parse(LogEnd, |file|, [])
        else Parse(None, pos + 5 + size, file[pos + 5..pos + 5 + size])
    else Parse(FileCorrupted, pos + 1, [])
  }

  /** Parsing inverts framing: the data comes back, whether it was compressed or not. */
  lemma ParseFrame(file: seq<byte>, pos: nat, f: Frame)
    requires pos <= |file| && FrameOk(f) && FrameBytes(f) <= file[pos..]
    ensures ParseAt(file, pos) == Parse(None, pos + |FrameBytes(f)|, f.data)
  {
    hide U32, FromU32, LzoDecoder.Decode;
    var b, w := FrameBytes(f), file[pos..];
    assert w[..|b|] == b;
    assert file[pos] == w[0] == b[0];
    U32RoundTrip(|f.data|);
    assert file[pos + 1..pos + 5] == b[1..5] == U32(|f.data|);
    match f
    case Packed(data, comp) =>
      U32RoundTrip(|comp|);
      assert file[pos + 5..pos + 9] == b[5..9] == U32(|comp|);
      assert file[pos + 9..pos + 9 + |comp|] == b[9..] == comp;
    case Raw(data) =>
      assert file[pos + 5..pos + 5 + |data|] == b[5..] == data;
  }

  lemma FromU32Only(b: seq<byte>)
    requires |b| == 4
    ensures FromU32(b) < WORD_LIMIT && U32(FromU32(b)) == b
  {
    var n := FromU32(b);
    var c, d, e := b[1] as nat + b[2] as nat * 256 + b[3] as nat * 65536, b[2] as nat + b[3] as nat * 256, b[3] as nat;
    assert n == c * 256 + b[0] as nat && n / 256 == c && n % 256 == b[0] as nat;
    assert c == d * 256 + b[1] as nat && c / 256 == d && n / 65536 == d && d == e * 256 + b[2] as nat;
  }

  /** Nothing else is parsed: a region that next_region accepts was one frame, up to the position it
      leaves, and holds as many bytes as that frame announces. */
  lemma ParseOnly(file: seq<byte>, pos: nat)
    requires pos < |file| && ParseAt(file, pos).error == None
    ensures var p := ParseAt(file, pos);
            && |p.data| < WORD_LIMIT
            && (file[pos] == UNCOMPRESSED_DATA_MARK ==> file[pos..p.pos] == FrameBytes(Raw(p.data)))
            && (file[pos] != UNCOMPRESSED_DATA_MARK ==>
                  && p.pos - pos - 9 >= 0 && p.pos - pos - 9 < WORD_LIMIT
                  && var comp := file[pos + 9..p.pos];
                     && LzoDecoder.Decode(comp, |p.data|).out == p.data
                     && file[pos..p.pos] == [COMPRESSED_DATA_MARK] + U32(|p.data|) + U32(|comp|) + comp)
  {
    hide U32, FromU32, LzoDecoder.Decode;
    var p := ParseAt(file, pos);
    FromU32Only(file[pos + 1..pos + 5]);
    if file[pos] == UNCOMPRESSED_DATA_MARK {
      assert file[pos..p.pos] == [UNCOMPRESSED_DATA_MARK] + file[pos + 1..pos + 5] + p.data;
    } else {
      FromU32Only(file[pos + 5..pos + 9]);
      var comp := file[pos + 9..p.pos];
      assert file[pos..p.pos] == [COMPRESSED_DATA_MARK] + file[pos + 1..pos + 5] + file[pos + 5..pos + 9] + comp;
    }
  }
}
