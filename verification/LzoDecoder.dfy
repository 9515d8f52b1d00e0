/** The LZO1X decoder, one function per label of its control flow, and the proof that it inverts
    the format of LzoFormat. */
module LzoDecoder {
  import opened Bits
  import opened Lz77
  import opened LzoFormat

  /** OutOfBounds stands for a read past the end of the input that the code does not guard. */
  datatype Status = Ok | InputOverrun | OutputOverrun | LookbehindOverrun | EofNotFound | InputNotConsumed | OutOfBounds

  datatype Count = NoCount | Count(t: nat, ip: nat)

  /** Reads a zero-extended count: each zero byte adds 255, the first nonzero byte ends it. */
  function ReadCount(inp: seq<byte>, ip: nat, t: nat): (c: Count)
    ensures c.Count? ==> ip < c.ip <= |inp|
    decreases |inp| - ip
  {
    if ip >= |inp| then NoCount
    else if inp[ip] == 0 then ReadCount(inp, ip + 1, t + 255)
    else Count(t + inp[ip], ip + 1)
  }

  /** The long-length forms: a zero length field is continued in the following bytes. */
  function LongCount(inp: seq<byte>, ip: nat, t: nat, base: nat): (c: Count)
    requires ip <= |inp|
    ensures c.Count? ==> ip <= c.ip <= |inp|
  {
    if t != 0 then Count(t, ip)
    else
      var c := ReadCount(inp, ip, 0);
      if c.NoCount? then c else Count(c.t + base, c.ip)
  }

  /** One constructor per label: the head of the outer loop, first_literal_run, match (with the
      instruction byte in t), match_done, match_next (with t literals to copy), and the returns. */
  datatype State =
    | Top(ip: nat, out: seq<byte>)
    | AfterLiterals(ip: nat, out: seq<byte>)
    | Match(ip: nat, t: byte, out: seq<byte>)
    | MatchDone(ip: nat, out: seq<byte>)
    | MatchNext(ip: nat, n: nat, out: seq<byte>)
    | Halt(ip: nat, status: Status, out: seq<byte>)

  predicate Valid(inp: seq<byte>, cap: nat, st: State)
  {
    && st.ip <= |inp| && |st.out| <= cap
    && (st.Match? ==> st.ip >= 1)
    && (st.MatchDone? ==> st.ip >= 2)
  }

  function Rank(inp: seq<byte>, st: State): int
  {
    8 * (|inp| - st.ip) +
    (match st case Halt(_, _, _) => 0 case Top(_, _) => 1 case AfterLiterals(_, _) => 1
              case MatchNext(_, _, _) => 2 case MatchDone(_, _) => 3 case Match(_, _, _) => 4)
  }

  function Word(lo: byte, hi: byte): nat
  {
    lo as nat + hi as nat * 256
  }

  /** The bounds checks before a copy, then the copy. */
  function CopyTo(cap: nat, ip: nat, off: nat, len: nat, out: seq<byte>): (st': State)
    requires |out| <= cap && off >= 1
    ensures st'.ip == ip && |st'.out| <= cap && (st'.Halt? || st'.MatchDone?)
  {
    if off > |out| then Halt(ip, LookbehindOverrun, out)
    else if cap - |out| < len then Halt(ip, OutputOverrun, out)
    else MatchDone(ip, Copy(out, off, len))
  }

  function StepTop(inp: seq<byte>, cap: nat, ip: nat, out: seq<byte>): (st': State)
    requires ip <= |inp| && |out| <= cap
    ensures Valid(inp, cap, st') && st'.ip >= ip && (st'.Halt? || st'.ip > ip)
  {
    if ip == |inp| then Halt(ip, EofNotFound, out)
    else if inp[ip] >= 16 then Match(ip + 1, inp[ip], out)
    else
      var c := LongCount(inp, ip + 1, inp[ip], 15);
      if c.NoCount? then Halt(|inp|, InputOverrun, out)
      else if cap - |out| < c.t + 3 then Halt(c.ip, OutputOverrun, out)
      else if |inp| - c.ip < c.t + 4 then Halt(c.ip, InputOverrun, out)
      else AfterLiterals(c.ip + c.t + 3, out + inp[c.ip..c.ip + c.t + 3])
  }

  function StepAfterLiterals(inp: seq<byte>, cap: nat, ip: nat, out: seq<byte>): (st': State)
    requires ip <= |inp| && |out| <= cap
    ensures Valid(inp, cap, st') && st'.ip >= ip && (st'.Halt? || st'.ip > ip)
  {
    if ip == |inp| then Halt(ip, OutOfBounds, out)
    else if inp[ip] >= 16 then Match(ip + 1, inp[ip], out)
    else if ip + 1 == |inp| then Halt(ip, OutOfBounds, out)
    else CopyTo(cap, ip + 2, 1 + M2_MAX_OFFSET + inp[ip] / 4 + inp[ip + 1] as nat * 4, 3, out)
  }

  /** A match whose offset takes the last two bytes of the instruction; an M4 offset of zero is
      the end code. */
  function StepLong(inp: seq<byte>, cap: nat, c: Count, m4: bool, high: nat, out: seq<byte>): (st': State)
    requires |out| <= cap && (c.Count? ==> c.ip <= |inp|)
    ensures Valid(inp, cap, st') && (c.Count? ==> st'.ip >= c.ip && (st'.Halt? || st'.ip > c.ip))
            && (c.NoCount? ==> st'.Halt? && st'.ip == |inp|)
  {
    if c.NoCount? then Halt(|inp|, InputOverrun, out)
    else if |inp| - c.ip < 2 then Halt(c.ip, OutOfBounds, out)
    else
      var off := high + Word(inp[c.ip], inp[c.ip + 1]) / 4;
      if m4 && off == 0 then
        Halt(c.ip + 2, if c.ip + 2 == |inp| then Ok else InputNotConsumed, out)
      else CopyTo(cap, c.ip + 2, off + (if m4 then 0x4000 else 1), c.t + 2, out)
  }

  function StepMatch(inp: seq<byte>, cap: nat, ip: nat, t: byte, out: seq<byte>): (st': State)
    requires 1 <= ip <= |inp| && |out| <= cap
    ensures Valid(inp, cap, st') && st'.ip >= ip && (st'.Halt? || st'.ip > ip)
  {
    if 16 <= t < 64 then
      if t >= 32 then StepLong(inp, cap, LongCount(inp, ip, And(t, 31), 31), false, 0, out)
      else StepLong(inp, cap, LongCount(inp, ip, And(t, 7), 7), true, And(t, 8) * 2048, out)
    else if ip == |inp| then Halt(ip, OutOfBounds, out)
    else if t >= 64 then CopyTo(cap, ip + 1, 1 + And(t / 4, 7) + inp[ip] as nat * 8, t / 32 - 1 + 2, out)
    else CopyTo(cap, ip + 1, 1 + t / 4 + inp[ip] as nat * 4, 2, out)
  }

  function StepMatchNext(inp: seq<byte>, cap: nat, ip: nat, t: nat, out: seq<byte>): (st': State)
    requires ip <= |inp| && |out| <= cap
    ensures Valid(inp, cap, st') && st'.ip >= ip && (st'.Halt? || st'.ip > ip)
  {
    if cap - |out| < t then Halt(ip, OutputOverrun, out)
    else if |inp| - ip < t + 1 then Halt(ip, InputOverrun, out)
    else
      var out' := out + inp[ip..ip + t];
      if ip + t + 1 == |inp| then Halt(ip + t + 1, EofNotFound, out')
      else Match(ip + t + 1, inp[ip + t], out')
  }

  function Step(inp: seq<byte>, cap: nat, st: State): (st': State)
    requires Valid(inp, cap, st) && !st.Halt?
    ensures Valid(inp, cap, st') && 0 <= Rank(inp, st') < Rank(inp, st)
  {
    match st
    case Top(ip, out) => StepTop(inp, cap, ip, out)
    case AfterLiterals(ip, out) => StepAfterLiterals(inp, cap, ip, out)
    case Match(ip, t, out) => StepMatch(inp, cap, ip, t, out)
    case MatchDone(ip, out) =>
      // the spare bits say how many literals follow without a count
      var t := And(inp[ip - 2], 3);
      if t == 0 then Top(ip, out) else MatchNext(ip, t, out)
    case MatchNext(ip, t, out) => StepMatchNext(inp, cap, ip, t, out)
  }

  function Run(inp: seq<byte>, cap: nat, st: State): (r: State)
    requires Valid(inp, cap, st)
    ensures r.Halt? && Valid(inp, cap, r)
    decreases Rank(inp, st)
  {
    if st.Halt? then st else Run(inp, cap, Step(inp, cap, st))
  }

  lemma RunStep(inp: seq<byte>, cap: nat, st: State)
    requires Valid(inp, cap, st) && !st.Halt?
    ensures Run(inp, cap, st) == Run(inp, cap, Step(inp, cap, st))
  {
  }

  function Start(inp: seq<byte>, cap: nat): (st: State)
    ensures Valid(inp, cap, st)
  {
    if inp == [] then Halt(0, OutOfBounds, [])
    else if inp[0] > 17 then
      var t := inp[0] - 17;
      if t < 4 then MatchNext(1, t, [])
      else if cap < t then Halt(1, OutputOverrun, [])
      else if |inp| - 1 < t + 1 then Halt(1, InputOverrun, [])
      else AfterLiterals(1 + t, inp[1..1 + t])
    else Top(0, [])
  }

  /** The whole of lzo1x_decompress_safe, for an output buffer of `cap` bytes. */
  function Decode(inp: seq<byte>, cap: nat): State
  {
    Run(inp, cap, Start(inp, cap))
  }

  // ----- decoding what the format says

  /** `pat` occurs in `inp` at position `ip`. */
  predicate At(inp: seq<byte>, ip: nat, pat: seq<byte>)
  {
    ip + |pat| <= |inp| && inp[ip..ip + |pat|] == pat
  }

  lemma AtSplit(inp: seq<byte>, ip: nat, a: seq<byte>, b: seq<byte>)
    requires At(inp, ip, a + b)
    ensures At(inp, ip, a) && At(inp, ip + |a|, b)
  {
    var w := inp[ip..ip + |a + b|];
    assert inp[ip..ip + |a|] == w[..|a|] == a;
    assert inp[ip + |a|..ip + |a| + |b|] == w[|a|..] == b;
  }

  lemma {:induction false} ReadExt(inp: seq<byte>, ip: nat, t: nat, m: nat)
    requires m >= 1 && At(inp, ip, Ext(m))
    ensures ReadCount(inp, ip, t) == Count(t + m, ip + |Ext(m)|)
    decreases m
  {
    assert inp[ip] == inp[ip..ip + |Ext(m)|][0];
    if m > 255 {
      AtSplit(inp, ip, [0], Ext(m - 255));
      ReadExt(inp, ip + 1, t + 255, m - 255);
    }
  }

  /** The fields of a two-byte match instruction. */
  lemma ShortByte(l: nat, d: nat, k: nat)
    requires 2 <= l < 8 && d < 8 && k < 4
    ensures var t := l * 32 + d * 4 + k;
            And(t / 4, 7) == d && t / 32 == l && And(t, 3) == k && 64 <= t < 256
  {
    hide And;
    var t := l * 32 + d * 4 + k;
    assert t / 4 == 8 * l + d;
    AndMask(t / 4, 3);
    AndMask(t, 2);
  }

  lemma MatchShort(inp: seq<byte>, ip: nat, off: nat, len: nat, k: nat, out: seq<byte>, cap: nat)
    requires MatchOk(off, len) && k < 4 && off <= M2_MAX_OFFSET && len <= M2_MAX_LEN
    requires At(inp, ip, MatchBytes(off, len, k))
    requires off <= |out| && |out| + len <= cap
    ensures StepMatch(inp, cap, ip + 1, inp[ip], out) == MatchDone(ip + 2, Copy(out, off, len))
    ensures |MatchBytes(off, len, k)| == 2
    ensures And(inp[ip], 3) == k
  {
    hide And, Copy, MatchBytes;
    var w := inp[ip..ip + 2];
    ShortForm(off, len, k);
    assert inp[ip] == w[0] && inp[ip + 1] == w[1];
    ShortByte(len - 1, (off - 1) % 8, k);
    ShortOffset(off);
  }

  lemma ShortForm(off: nat, len: nat, k: nat)
    requires MatchOk(off, len) && k < 4 && off <= M2_MAX_OFFSET && len <= M2_MAX_LEN
    ensures MatchBytes(off, len, k) == [(len - 1) * 32 + (off - 1) % 8 * 4 + k, (off - 1) / 8]
  {
  }

  lemma ShortOffset(off: nat)
    requires off >= 1
    ensures 1 + (off - 1) % 8 + (off - 1) / 8 * 8 == off
  {
  }

  /** A match of three bytes right after a literal run, at an offset just beyond the short form. */
  function AfterRunBytes(off: nat, k: nat): (b: seq<byte>)
    requires M2_MAX_OFFSET < off <= M2_MAX_OFFSET + 1024 && k < 4
  {
    var o := off - 1 - M2_MAX_OFFSET;
    [o % 4 * 4 + k, o / 4]
  }

  /** It is read back as such, with its spare bits, and checked like any other. */
  lemma AfterRun(inp: seq<byte>, ip: nat, off: nat, k: nat, out: seq<byte>, cap: nat)
    requires M2_MAX_OFFSET < off <= M2_MAX_OFFSET + 1024 && k < 4 && |out| <= cap
    requires At(inp, ip, AfterRunBytes(off, k))
    ensures StepAfterLiterals(inp, cap, ip, out) ==
            if off > |out| then Halt(ip + 2, LookbehindOverrun, out)
            else if |out| + 3 > cap then Halt(ip + 2, OutputOverrun, out)
            else MatchDone(ip + 2, Copy(out, off, 3))
    ensures And(inp[ip], 3) == k
  {
    hide And, Copy;
    var w, o := inp[ip..ip + 2], off - 1 - M2_MAX_OFFSET;
    assert inp[ip] == w[0] == o % 4 * 4 + k && inp[ip + 1] == w[1] == o / 4;
    AndMask(inp[ip], 2);
    LowTwo(o, k, inp[ip]);
  }

  /** The two lowest bits of an offset, above two spare bits. */
  lemma LowTwo(o: nat, k: nat, b: nat)
    requires k < 4 && b == o % 4 * 4 + k
    ensures b / 4 == o % 4 && b % 4 == k && b / 4 + o / 4 * 4 == o && b < 16
  {
  }

  /** The length field of a long match reads back as len - 2, and the marker's offset bit too. */
  lemma PrefixCount(inp: seq<byte>, ip: nat, off: nat, len: nat)
    requires MatchOk(off, len) && !(off <= M2_MAX_OFFSET && len <= M2_MAX_LEN)
    requires At(inp, ip, MatchPrefix(off, len))
    ensures off <= M3_MAX_OFFSET ==>
      && 32 <= inp[ip] < 64
      && LongCount(inp, ip + 1, And(inp[ip], 31), 31) == Count(len - 2, ip + |MatchPrefix(off, len)|)
    ensures off > M3_MAX_OFFSET ==>
      && 16 <= inp[ip] < 32
      && LongCount(inp, ip + 1, And(inp[ip], 7), 7) == Count(len - 2, ip + |MatchPrefix(off, len)|)
      && And(inp[ip], 8) * 2048 + LongOffset(off) + 0x4000 == off
  {
    if off <= M3_MAX_OFFSET {
      M3Count(inp, ip, off, len);
    } else {
      M4Count(inp, ip, off, len);
    }
  }

  lemma M3Count(inp: seq<byte>, ip: nat, off: nat, len: nat)
    requires MatchOk(off, len) && off <= M3_MAX_OFFSET && (off <= M2_MAX_OFFSET ==> len > M2_MAX_LEN)
    requires At(inp, ip, MatchPrefix(off, len))
    ensures 32 <= inp[ip] < 64
    ensures LongCount(inp, ip + 1, And(inp[ip], 31), 31) == Count(len - 2, ip + |MatchPrefix(off, len)|)
  {
    hide And, Ext, MatchPrefix, ReadCount;
    M3Prefix(off, len);
    assert inp[ip] == inp[ip..ip + |MatchPrefix(off, len)|][0];
    M3Byte(inp[ip]);
    if len > M3_MAX_LEN {
      AtSplit(inp, ip, [32], Ext(len - M3_MAX_LEN));
      ReadExt(inp, ip + 1, 0, len - M3_MAX_LEN);
    }
  }

  lemma M3Prefix(off: nat, len: nat)
    requires MatchOk(off, len) && off <= M3_MAX_OFFSET && (off <= M2_MAX_OFFSET ==> len > M2_MAX_LEN)
    ensures len <= M3_MAX_LEN ==> MatchPrefix(off, len) == [32 + (len - 2)]
    ensures len > M3_MAX_LEN ==> MatchPrefix(off, len) == [32] + Ext(len - M3_MAX_LEN)
  {
    hide Ext;
  }

  lemma M3Byte(t: nat)
    requires 32 <= t < 64
    ensures And(t, 31) == t - 32
  {
    hide And;
    AndMask(t, 5);
    FiveBits();
  }

  lemma FiveBits()
    ensures Pow2(5) == 32
  {
  }

  lemma M4Byte(off: nat, x: nat)
    requires M3_MAX_OFFSET < off <= M4_MAX_OFFSET && x < 8
    ensures And(M4Marker(off) + x, 7) == x
    ensures And(M4Marker(off) + x, 8) * 2048 + LongOffset(off) + 0x4000 == off
    ensures 16 <= M4Marker(off) + x < 32
  {
    hide And;
    AndMask(M4Marker(off) + x, 3);
    AndBit(M4Marker(off) + x, 3);
  }

  lemma M4Count(inp: seq<byte>, ip: nat, off: nat, len: nat)
    requires MatchOk(off, len) && off > M3_MAX_OFFSET
    requires At(inp, ip, MatchPrefix(off, len))
    ensures 16 <= inp[ip] < 32
    ensures LongCount(inp, ip + 1, And(inp[ip], 7), 7) == Count(len - 2, ip + |MatchPrefix(off, len)|)
    ensures And(inp[ip], 8) * 2048 + LongOffset(off) + 0x4000 == off
  {
    hide And;
    assert inp[ip] == inp[ip..ip + |MatchPrefix(off, len)|][0];
    if len > M4_MAX_LEN {
      M4Byte(off, 0);
      AtSplit(inp, ip, [M4Marker(off)], Ext(len - M4_MAX_LEN));
      ReadExt(inp, ip + 1, 0, len - M4_MAX_LEN);
    } else {
      M4Byte(off, len - 2);
    }
  }

  lemma OffsetBytes(inp: seq<byte>, q: nat, o: nat, k: nat)
    requires o < 0x4000 && k < 4 && At(inp, q, Offset14(o, k))
    ensures Word(inp[q], inp[q + 1]) / 4 == o && And(inp[q], 3) == k
  {
    hide And;
    var w := inp[q..q + 2];
    assert inp[q] == w[0] && inp[q + 1] == w[1];
    AndMask(inp[q], 2);
  }

  lemma LongStep(inp: seq<byte>, q: nat, off: nat, len: nat, m4: bool, high: nat, out: seq<byte>, cap: nat)
    requires 1 <= off <= |out| && len >= 2 && |out| + len <= cap && q + 2 <= |inp|
    requires high + Word(inp[q], inp[q + 1]) / 4 + (if m4 then 0x4000 else 1) == off
    requires m4 ==> off > 0x4000
    ensures StepLong(inp, cap, Count(len - 2, q), m4, high, out) == MatchDone(q + 2, Copy(out, off, len))
  {
    hide Copy, Word;
  }

  lemma MatchLong(inp: seq<byte>, ip: nat, off: nat, len: nat, k: nat, out: seq<byte>, cap: nat)
    requires MatchOk(off, len) && k < 4 && !(off <= M2_MAX_OFFSET && len <= M2_MAX_LEN)
    requires At(inp, ip, MatchBytes(off, len, k))
    requires off <= |out| && |out| + len <= cap
    ensures var p := ip + |MatchBytes(off, len, k)|;
            && StepMatch(inp, cap, ip + 1, inp[ip], out) == MatchDone(p, Copy(out, off, len))
            && And(inp[p - 2], 3) == k
  {
    hide And, Copy, LongCount, MatchPrefix, Word, Offset14, StepLong;
    var pre, o := MatchPrefix(off, len), LongOffset(off);
    AtSplit(inp, ip, pre, Offset14(o, k));
    OffsetBytes(inp, ip + |pre|, o, k);
    PrefixCount(inp, ip, off, len);
    if off <= M3_MAX_OFFSET {
      LongStep(inp, ip + |pre|, off, len, false, 0, out, cap);
    } else {
      LongStep(inp, ip + |pre|, off, len, true, And(inp[ip], 8) * 2048, out, cap);
    }
  }

  /** A match instruction decodes to its copy; its spare bits read back as k. */
  lemma DecodeMatch(inp: seq<byte>, ip: nat, off: nat, len: nat, k: nat, out: seq<byte>, cap: nat)
    requires MatchOk(off, len) && k < 4
    requires At(inp, ip, MatchBytes(off, len, k))
    requires off <= |out| && |out| + len <= cap
    ensures var p := ip + |MatchBytes(off, len, k)|;
            && StepMatch(inp, cap, ip + 1, inp[ip], out) == MatchDone(p, Copy(out, off, len))
            && And(inp[p - 2], 3) == k
  {
    hide And, Copy, StepMatch, MatchBytes;
    if off <= M2_MAX_OFFSET && len <= M2_MAX_LEN {
      MatchShort(inp, ip, off, len, k, out, cap);
    } else {
      MatchLong(inp, ip, off, len, k, out, cap);
    }
  }

  lemma CountRun(inp: seq<byte>, ip: nat, n: nat)
    requires n >= 4 && At(inp, ip, RunHead(n))
    ensures inp[ip] <= 15 && LongCount(inp, ip + 1, inp[ip], 15) == Count(n - 3, ip + |RunHead(n)|)
  {
    assert inp[ip] == inp[ip..ip + |RunHead(n)|][0];
    if n > 18 {
      AtSplit(inp, ip, [0], Ext(n - 18));
      ReadExt(inp, ip + 1, 0, n - 18);
    }
  }

  /** A counted literal run decodes to its literals. */
  lemma DecodeRun(inp: seq<byte>, ip: nat, lits: seq<byte>, out: seq<byte>, cap: nat)
    requires |lits| >= 4 && At(inp, ip, RunBytes(lits)) && |out| + |lits| <= cap
    requires ip + |RunBytes(lits)| < |inp|
    ensures StepTop(inp, cap, ip, out) == AfterLiterals(ip + |RunBytes(lits)|, out + lits)
  {
    hide RunHead, LongCount;
    AtSplit(inp, ip, RunHead(|lits|), lits);
    CountRun(inp, ip, |lits|);
  }

  /** A counted run, then the instruction after it. */
  lemma RunThenMatch(inp: seq<byte>, ip: nat, lits: seq<byte>, out: seq<byte>, cap: nat)
    requires |lits| >= 4 && At(inp, ip, RunBytes(lits)) && |out| + |lits| <= cap
    requires ip + |RunBytes(lits)| < |inp| && inp[ip + |RunBytes(lits)|] >= 16
    ensures var q := ip + |RunBytes(lits)|;
            Run(inp, cap, Top(ip, out)) == Run(inp, cap, Match(q + 1, inp[q], out + lits))
  {
    hide Run, RunBytes, StepTop;
    DecodeRun(inp, ip, lits, out, cap);
    RunStep(inp, cap, Top(ip, out));
    RunStep(inp, cap, AfterLiterals(ip + |RunBytes(lits)|, out + lits));
  }

  /** The literals after a match, in whichever form, lead to the next instruction. */
  lemma DecodeLits(inp: seq<byte>, p: nat, lits: seq<byte>, out: seq<byte>, cap: nat)
    requires 2 <= p && At(inp, p, RunBytes(lits)) && |out| + |lits| <= cap
    requires p + |RunBytes(lits)| + 2 <= |inp| && inp[p + |RunBytes(lits)|] >= 16
    requires And(inp[p - 2], 3) == Spare(lits)
    ensures var q := p + |RunBytes(lits)|;
            Run(inp, cap, MatchDone(p, out)) == Run(inp, cap, Match(q + 1, inp[q], out + lits))
  {
    hide And, Run;
    RunStep(inp, cap, MatchDone(p, out));
    if |lits| == 0 {
      assert out + lits == out;
      RunStep(inp, cap, Top(p, out));
    } else if |lits| <= 3 {
      assert inp[p..p + |lits|] == lits;
      RunStep(inp, cap, MatchNext(p, |lits|, out));
    } else {
      RunThenMatch(inp, p, lits, out, cap);
    }
  }

  lemma DecodeEof(inp: seq<byte>, ip: nat, out: seq<byte>, cap: nat)
    requires At(inp, ip, Eof) && ip + 3 == |inp| && |out| <= cap
    ensures inp[ip] == 17 && Step(inp, cap, Match(ip + 1, inp[ip], out)) == Halt(|inp|, Ok, out)
  {
    var w := inp[ip..ip + 3];
    assert inp[ip] == w[0] && inp[ip + 1] == w[1] && inp[ip + 2] == w[2];
    AndMask(17, 3);
    AndBit(17, 3);
  }

  /** A whole item decodes to its copy and its literals. */
  lemma DecodeItem(inp: seq<byte>, ip: nat, it: Item, out: seq<byte>, cap: nat)
    requires ItemOk(it) && At(inp, ip, ItemBytes(it))
    requires it.off <= |out| && |out| + it.len + |it.lits| <= cap
    requires ip + |ItemBytes(it)| + 2 <= |inp| && inp[ip + |ItemBytes(it)|] >= 16
    ensures var q := ip + |ItemBytes(it)|;
            Run(inp, cap, Match(ip + 1, inp[ip], out))
            == Run(inp, cap, Match(q + 1, inp[q], Copy(out, it.off, it.len) + it.lits))
  {
    hide Run, Copy, StepMatch, MatchBytes, RunBytes, And;
    var k := Spare(it.lits);
    var mb, rb := MatchBytes(it.off, it.len, k), RunBytes(it.lits);
    AtSplit(inp, ip, mb, rb);
    DecodeMatch(inp, ip, it.off, it.len, k, out, cap);
    RunStep(inp, cap, Match(ip + 1, inp[ip], out));
    DecodeLits(inp, ip + |mb|, it.lits, Copy(out, it.off, it.len), cap);
  }

  /** `inp` from position ip on is the rest of the stream from item k. */
  predicate Rest(inp: seq<byte>, ip: nat, items: seq<Item>, k: nat)
    requires k <= |items| && forall i :: 0 <= i < |items| ==> ItemOk(items[i])
  {
    At(inp, ip, BodyFrom(items, k)) && ip + |BodyFrom(items, k)| == |inp|
  }

  lemma RestNext(inp: seq<byte>, ip: nat, items: seq<Item>, k: nat)
    requires k <= |items| && forall i :: 0 <= i < |items| ==> ItemOk(items[i])
    requires Rest(inp, ip, items, k)
    ensures ip + 2 < |inp| && inp[ip] >= 16
    ensures k < |items| ==> At(inp, ip, ItemBytes(items[k])) && Rest(inp, ip + |ItemBytes(items[k])|, items, k + 1)
  {
    hide ItemBytes;
    var b := BodyFrom(items, k);
    assert inp[ip] == inp[ip..ip + |b|][0];
    if k < |items| { AtSplit(inp, ip, ItemBytes(items[k]), BodyFrom(items, k + 1)); }
  }

  lemma LastStep(inp: seq<byte>, ip: nat, items: seq<Item>, out: seq<byte>, cap: nat)
    requires forall i :: 0 <= i < |items| ==> ItemOk(items[i])
    requires Rest(inp, ip, items, |items|) && |out| <= cap
    ensures ip < |inp| && Run(inp, cap, Match(ip + 1, inp[ip], out)) == Halt(|inp|, Ok, out)
  {
    DecodeEof(inp, ip, out, cap);
    RunStep(inp, cap, Match(ip + 1, inp[ip], out));
  }

  /** From the k-th item on, the decoder produces the rest of the text and stops at the end code.
      In particular no match is taken for the end code. */
  lemma {:induction false} DecodeItems(inp: seq<byte>, ip: nat, first: seq<byte>, items: seq<Item>, k: nat, cap: nat)
    requires k <= |items| && Fits(|first|, items) && Fits(|first|, items[..k])
    requires (FitsItems(|first|, items); Rest(inp, ip, items, k))
    requires |Expand(first, items[..k])| <= cap == |Expand(first, items)|
    ensures ip < |inp|
    ensures Run(inp, cap, Match(ip + 1, inp[ip], Expand(first, items[..k]))) == Halt(|inp|, Ok, Expand(first, items))
    decreases |items| - k
  {
    hide Run, Copy, ItemBytes, Rest, TextLen;
    FitsItems(|first|, items);
    RestNext(inp, ip, items, k);
    var out := Expand(first, items[..k]);
    if k == |items| {
      assert items[..k] == items;
      LastStep(inp, ip, items, out, cap);
    } else {
      var it, q := items[k], ip + |ItemBytes(items[k])|;
      FitsAt(|first|, items, k);
      RestNext(inp, q, items, k + 1);
      DecodeItem(inp, ip, it, out, cap);
      ExpandNext(first, items, k);
      DecodeItems(inp, q, first, items, k + 1, cap);
    }
  }

  lemma ExpandNext(first: seq<byte>, items: seq<Item>, k: nat)
    requires k < |items| && Fits(|first|, items[..k]) && ItemOk(items[k])
    requires items[k].off <= TextLen(|first|, items[..k])
    ensures Fits(|first|, items[..k + 1])
    ensures Expand(first, items[..k + 1]) == Copy(Expand(first, items[..k]), items[k].off, items[k].len) + items[k].lits
  {
    assert items[..k + 1][..k] == items[..k];
  }

  function HeadBytes(s: Stream): seq<byte>
    requires Wellformed(s)
  {
    if s.short then [17 + |s.first|] + s.first else RunBytes(s.first)
  }

  lemma DecodeShortHead(inp: seq<byte>, first: seq<byte>, tail: seq<byte>, cap: nat)
    requires 1 <= |first| <= 238 && |tail| >= 3 && tail[0] >= 16 && |first| <= cap
    requires inp == [17 + |first|] + first + tail
    ensures Decode(inp, cap) == Run(inp, cap, Match(|first| + 2, tail[0], first))
  {
    var n := |first|;
    assert [] + first == first;
    assert inp[1..1 + n] == first && inp[1 + n] == tail[0];
    RunStep(inp, cap, Start(inp, cap));
  }

  lemma RunByte(l: seq<byte>)
    requires |l| >= 4
    ensures |RunBytes(l)| > 0 && RunBytes(l)[0] <= 15
  {
  }

  lemma DecodeRunHead(inp: seq<byte>, first: seq<byte>, tail: seq<byte>, cap: nat)
    requires |first| >= 4 && |tail| >= 3 && tail[0] >= 16 && |first| <= cap
    requires inp == RunBytes(first) + tail
    ensures Decode(inp, cap) == Run(inp, cap, Match(|RunBytes(first)| + 1, tail[0], first))
  {
    hide Run, RunBytes;
    var q := |RunBytes(first)|;
    RunByte(first);
    assert inp[0] == RunBytes(first)[0] && inp[q] == tail[0];
    assert [] + first == first;
    assert inp[0..q] == RunBytes(first);
    RunThenMatch(inp, 0, first, [], cap);
  }

  lemma DecodeHead(inp: seq<byte>, s: Stream, tail: seq<byte>, cap: nat)
    requires Wellformed(s) && |tail| >= 3 && tail[0] >= 16 && |s.first| <= cap
    requires inp == HeadBytes(s) + tail
    requires !s.short && s.first == [] ==> tail == Eof
    ensures Decode(inp, cap) == Run(inp, cap, Match(|HeadBytes(s)| + 1, tail[0], s.first))
  {
    hide Run, Fits;
    if s.short {
      DecodeShortHead(inp, s.first, tail, cap);
    } else if s.first == [] {
      assert inp == tail;
      RunStep(inp, cap, Top(0, []));
    } else {
      DecodeRunHead(inp, s.first, tail, cap);
    }
  }

  /** The decoder inverts the format: given room for exactly the text, it succeeds, consumes every
      byte and produces the text. */
  lemma DecodeStream(s: Stream)
    requires Wellformed(s)
    ensures var text := Expand(s.first, s.items);
            Decode(StreamBytes(s), |text|) == Halt(|StreamBytes(s)|, Ok, text)
  {
    hide Run, Expand, Decode, StreamBytes, HeadBytes, BodyFrom, Rest, TextLen;
    var inp, text := StreamBytes(s), Expand(s.first, s.items);
    FitsItems(|s.first|, s.items);
    var head, tail := HeadBytes(s), BodyFrom(s.items, 0);
    StreamParts(s);
    EmptyRest(s);
    FirstText(s);
    DecodeHead(inp, s, tail, |text|);
    DecodeItems(inp, |head|, s.first, s.items, 0, |text|);
  }

  lemma FirstText(s: Stream)
    requires Wellformed(s)
    ensures s.items[..0] == [] && Fits(|s.first|, s.items[..0]) && Expand(s.first, s.items[..0]) == s.first
    ensures |s.first| <= |Expand(s.first, s.items)|
  {
    hide Expand;
    ExpandFirst(s.first, s.items[..0]);
  }

  lemma ExpandFirst(first: seq<byte>, items: seq<Item>)
    requires items == []
    ensures Expand(first, items) == first
  {
  }

  lemma StreamParts(s: Stream)
    requires Wellformed(s)
    ensures (FitsItems(|s.first|, s.items);
             var head, tail := HeadBytes(s), BodyFrom(s.items, 0);
             StreamBytes(s) == head + tail && Rest(StreamBytes(s), |head|, s.items, 0))
  {
    hide RunBytes, Body, BodyFrom, Fits;
    FitsItems(|s.first|, s.items);
    BodyWhole(s.items);
    var inp, head, tail := StreamBytes(s), HeadBytes(s), BodyFrom(s.items, 0);
    assert inp == head + tail;
    assert inp[|head|..|head| + |tail|] == tail;
  }

  lemma BodyWhole(items: seq<Item>)
    requires forall i :: 0 <= i < |items| ==> ItemOk(items[i])
    ensures Body(items) + Eof == BodyFrom(items, 0)
  {
    BodySplit(items, 0);
    assert items[..0] == [];
  }

  lemma EmptyRest(s: Stream)
    requires Wellformed(s)
    ensures Expand(s.first, []) == s.first
    ensures s.items == [] ==> BodyFrom(s.items, 0) == Eof
  {
  }
}
