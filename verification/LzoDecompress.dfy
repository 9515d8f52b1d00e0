/** lzo1x_decompress_safe, with its counting and copying loops, computes LzoDecoder.Decode. */
module LzoDecompress {
  import opened Bits
  import opened Lz77
  import opened LzoFormat
  import opened LzoDecoder

  /** The loop over zero bytes that extends a length field. */
  method ExtendCount(inp: seq<byte>, start: nat, t0: nat, base: nat) returns (c: Count)
    requires start <= |inp|
    ensures c == LongCount(inp, start, t0, base)
  {
    var t, ip := t0, start;
    if t == 0 {
      if ip == |inp| { return NoCount; }
      while inp[ip] == 0
        invariant start <= ip < |inp|
        invariant ReadCount(inp, ip, t) == ReadCount(inp, start, 0)
        decreases |inp| - ip
      {
        t, ip := t + 255, ip + 1;
        if ip == |inp| { return NoCount; }
      }
      t, ip := t + base + inp[ip], ip + 1;
    }
    return Count(t, ip);
  }

  /** Copies t + 3 literals, four bytes at a time and then singly. */
  method CopyLiterals(inp: seq<byte>, start: nat, t0: nat, old_out: seq<byte>) returns (ip: nat, out: seq<byte>)
    requires t0 >= 1 && start + t0 + 3 <= |inp|
    ensures ip == start + t0 + 3 && out == old_out + inp[start..ip]
  {
    var t := t0;
    out, ip := old_out + inp[start..start + 4], start + 4;
    t := t - 1;
    while t >= 4
      invariant start <= ip && ip + t == start + t0 + 3
      invariant out == old_out + inp[start..ip]
    {
      out, ip, t := out + inp[ip..ip + 4], ip + 4, t - 4;
    }
    while t > 0
      invariant start <= ip && ip + t == start + t0 + 3
      invariant out == old_out + inp[start..ip]
    {
      out, ip, t := out + [inp[ip]], ip + 1, t - 1;
    }
  }

  /** Label copy_match: byte by byte, so that the copy may read what it has just written. */
  method CopyBytes(old_out: seq<byte>, off: nat, len: nat) returns (out: seq<byte>)
    requires 1 <= off <= |old_out|
    ensures out == Copy(old_out, off, len)
  {
    out := old_out;
    var t := len;
    while t > 0
      invariant |out| >= |old_out| && 0 <= t <= len
      invariant Copy(out, off, t) == Copy(old_out, off, len)
    {
      out, t := out + [out[|out| - off]], t - 1;
    }
  }

  /** The copy of a long match: whole words when it is long enough and far enough back. */
  method CopyWords(old_out: seq<byte>, off: nat, t0: nat) returns (out: seq<byte>)
    requires 1 <= off <= |old_out|
    ensures out == Copy(old_out, off, t0 + 2)
  {
    hide Copy;
    out := old_out;
    var t := t0;
    if t >= 6 && off >= 4 {
      var n := t + 2;
      while n >= 4
        invariant |out| >= |old_out| && n >= 0
        invariant Copy(out, off, n) == Copy(old_out, off, t0 + 2)
      {
        CopyFour(out, off);
        CopySplit(out, off, 4, n - 4);
        var m := |out| - off;
        out, n := out + out[m..m + 4], n - 4;
      }
      out := CopyBytes(out, off, n);
    } else {
      out := CopyBytes(out, off, t + 2);
    }
  }

  method AtTop(inp: seq<byte>, cap: nat, ip: nat, out: seq<byte>) returns (st: State)
    requires ip <= |inp| && |out| <= cap
    ensures st == StepTop(inp, cap, ip, out)
  {
    if ip == |inp| { return Halt(ip, EofNotFound, out); }
    if inp[ip] >= 16 { return Match(ip + 1, inp[ip], out); }
    var c := ExtendCount(inp, ip + 1, inp[ip], 15);
    if c.NoCount? { return Halt(|inp|, InputOverrun, out); }
    if cap - |out| < c.t + 3 { return Halt(c.ip, OutputOverrun, out); }
    if |inp| - c.ip < c.t + 4 { return Halt(c.ip, InputOverrun, out); }
    var ip', out' := CopyLiterals(inp, c.ip, c.t, out);
    return AfterLiterals(ip', out');
  }

  method CheckedCopy(cap: nat, ip: nat, off: nat, len: nat, wide: bool, out: seq<byte>) returns (st: State)
    requires |out| <= cap && off >= 1 && len >= 2
    ensures st == CopyTo(cap, ip, off, len, out)
  {
    if off > |out| { return Halt(ip, LookbehindOverrun, out); }
    if cap - |out| < len { return Halt(ip, OutputOverrun, out); }
    var out';
    if wide { out' := CopyWords(out, off, len - 2); } else { out' := CopyBytes(out, off, len); }
    return MatchDone(ip, out');
  }

  method AtLong(inp: seq<byte>, cap: nat, c: Count, m4: bool, high: nat, out: seq<byte>) returns (st: State)
    requires |out| <= cap && (c.Count? ==> c.ip <= |inp|)
    ensures st == StepLong(inp, cap, c, m4, high, out)
  {
    hide CopyTo, Word;
    if c.NoCount? { return Halt(|inp|, InputOverrun, out); }
    if |inp| - c.ip < 2 { return Halt(c.ip, OutOfBounds, out); }
    var off := high + Word(inp[c.ip], inp[c.ip + 1]) / 4;
    if m4 && off == 0 {
      return Halt(c.ip + 2, if c.ip + 2 == |inp| then Ok else InputNotConsumed, out);
    }
    st := CheckedCopy(cap, c.ip + 2, off + (if m4 then 0x4000 else 1), c.t + 2, true, out);
  }

  method AtMatch(inp: seq<byte>, cap: nat, ip: nat, t: byte, out: seq<byte>) returns (st: State)
    requires 1 <= ip <= |inp| && |out| <= cap
    ensures st == StepMatch(inp, cap, ip, t, out)
  {
    hide And, StepLong, CopyTo, LongCount;
    if t >= 64 {
      if ip == |inp| { return Halt(ip, OutOfBounds, out); }
      st := CheckedCopy(cap, ip + 1, 1 + And(t / 4, 7) + inp[ip] as nat * 8, t / 32 - 1 + 2, false, out);
    } else if t >= 32 {
      var c := ExtendCount(inp, ip, And(t, 31), 31);
      st := AtLong(inp, cap, c, false, 0, out);
    } else if t >= 16 {
      var c := ExtendCount(inp, ip, And(t, 7), 7);
      st := AtLong(inp, cap, c, true, And(t, 8) * 2048, out);
    } else {
      if ip == |inp| { return Halt(ip, OutOfBounds, out); }
      st := CheckedCopy(cap, ip + 1, 1 + t / 4 + inp[ip] as nat * 4, 2, false, out);
    }
  }

  method AtAfterLiterals(inp: seq<byte>, cap: nat, ip: nat, out: seq<byte>) returns (st: State)
    requires ip <= |inp| && |out| <= cap
    ensures st == StepAfterLiterals(inp, cap, ip, out)
  {
    if ip == |inp| { return Halt(ip, OutOfBounds, out); }
    if inp[ip] >= 16 { return Match(ip + 1, inp[ip], out); }
    if ip + 1 == |inp| { return Halt(ip, OutOfBounds, out); }
    st := CheckedCopy(cap, ip + 2, 1 + M2_MAX_OFFSET + inp[ip] / 4 + inp[ip + 1] as nat * 4, 3, false, out);
  }

  /** The control loop of the decompressor: each pass runs the code at one label. */
  method Decompress(inp: seq<byte>, cap: nat) returns (st: State)
    ensures st == Decode(inp, cap) && st.Halt? && |st.out| <= cap
  {
    hide StepTop, StepMatch, StepAfterLiterals, StepMatchNext, And;
    st := Start(inp, cap);
    while !st.Halt?
      invariant Valid(inp, cap, st) && Run(inp, cap, st) == Decode(inp, cap)
      decreases Rank(inp, st)
    {
      ghost var was := st;
      RunStep(inp, cap, st);
      match st {
        case Top(ip, out) => st := AtTop(inp, cap, ip, out);
        case AfterLiterals(ip, out) => st := AtAfterLiterals(inp, cap, ip, out);
        case Match(ip, t, out) => st := AtMatch(inp, cap, ip, t, out);
        case MatchDone(ip, out) =>
          var t := And(inp[ip - 2], 3);
          st := if t == 0 then Top(ip, out) else MatchNext(ip, t, out);
        case MatchNext(ip, n, out) => st := StepMatchNext(inp, cap, ip, n, out);
      }
      assert st == Step(inp, cap, was);
    }
  }
}
