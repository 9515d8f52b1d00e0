/** The sliding window of inflate: a circular buffer of the most recent output, and the copies of
    matches that start in it. */
module Window {
  import opened Bits
  import opened Lz77

  /** Where the byte d back from the write position is. */
  function Index(write: nat, d: nat, size: nat): int
  {
    if d <= write then write - d else size + write - d
  }

  /** The window holds the last `have` bytes of the history, ending just before `write`. */
  predicate Holds(win: seq<byte>, have: nat, write: nat, hist: seq<byte>)
  {
    && write < |win| && have <= |win| && have <= |hist|
    && (have < |win| ==> write == have == |hist|)
    && forall d :: 1 <= d <= have ==> win[Index(write, d, |win|)] == hist[|hist| - d]
  }

  lemma StoredEnd(w: seq<byte>, src: seq<byte>, mid: seq<byte>)
    requires |mid| == |w| + |src| && mid == w + src + mid[|w| + |src|..]
    ensures mid == w + src
  {
  }

  lemma StoredAll(win: seq<byte>, src: seq<byte>, win': seq<byte>)
    requires |src| == |win| && win' == win[..0] + src + win[0 + |src|..]
    ensures win' == src
  {
  }

  lemma StoredFront(mid: seq<byte>, src: seq<byte>, win: seq<byte>)
    requires |src| <= |mid| && win == mid[..0] + src + mid[0 + |src|..]
    ensures win == src + mid[|src|..]
  {
  }

  class Window {
    const window: array<byte>
    var have: nat
    var write: nat
    ghost var hist: seq<byte>

    ghost predicate Valid()
      reads this, window
    {
      Holds(window[..], have, write, hist)
    }

    constructor (size: nat)
      requires size > 0
      ensures Valid() && fresh(window) && window.Length == size && hist == [] && have == 0
    {
      window := new byte[size];
      have, write, hist := 0, 0, [];
    }

    method Store(at: nat, src: seq<byte>)
      requires at + |src| <= window.Length
      modifies window
      ensures window[..] == old(window[..at]) + src + old(window[at + |src|..])
    {
      ghost var w := window[..];
      for i := 0 to |src|
        invariant forall j :: 0 <= j < window.Length ==> window[j] == if at <= j < at + i then src[j - at] else w[j]
      {
        window[at + i] := src[i];
      }
    }

    /** The two memcpys of an update that runs past the end of the buffer. */
    method StoreAround(out: seq<byte>, dist: nat)
      requires write <= window.Length && dist == window.Length - write && dist <= |out| <= window.Length
      modifies window
      ensures window[..] == out[dist..] + (old(window[..write]) + out[..dist])[|out| - dist..]
    {
      ghost var w := window[..write];
      Store(write, out[..dist]);
      ghost var mid := window[..];
      StoredEnd(w, out[..dist], mid);
      Store(0, out[dist..]);
      StoredFront(mid, out[dist..], window[..]);
    }

    /** zlib_updatewindow with the output of one inflate call.  Afterwards the window again holds
        the end of the whole history. */
    method Update(out: seq<byte>)
      requires Valid()
      modifies this, window
      ensures Valid() && hist == old(hist) + out
    {
      hide Holds, Index;
      InRange(window[..], have, write, hist);
      if |out| >= window.Length {
        Replace(out);
      } else if window.Length - write >= |out| {
        Extend(out);
      } else {
        WrapAround(out);
      }
    }

    /** More output than the window holds. */
    method Replace(out: seq<byte>)
      requires Valid() && |out| >= window.Length
      modifies this, window
      ensures Valid() && hist == old(hist) + out
    {
      hide Holds, Index;
      var size := window.Length;
      ghost var win, h0 := window[..], hist;
      InRange(win, have, write, hist);
      hist := hist + out;
      Store(0, out[|out| - size..]);
      write, have := 0, size;
      StoredAll(win, out[|out| - size..], window[..]);
      Replaced(h0, out, window[..]);
    }

    /** Output that fits before the end of the buffer. */
    method Extend(out: seq<byte>)
      requires Valid() && |out| < window.Length && window.Length - write >= |out|
      modifies this, window
      ensures Valid() && hist == old(hist) + out
    {
      hide Holds, Index;
      var size := window.Length;
      ghost var win, h0, have0, write0 := window[..], hist, have, write;
      InRange(win, have, write, hist);
      hist := hist + out;
      Store(write, out);
      write := write + |out|;
      if write == size { write := 0; }
      if have < size { have := have + |out|; }
      Appended(win, have0, h0, out, write0, window[..]);
    }

    /** Output that runs past the end of the buffer. */
    method WrapAround(out: seq<byte>)
      requires Valid() && window.Length - write < |out| < window.Length
      modifies this, window
      ensures Valid() && hist == old(hist) + out
    {
      hide Holds, Index;
      var size, dist := window.Length, window.Length - write;
      ghost var win, h0, have0, write0 := window[..], hist, have, write;
      InRange(win, have, write, hist);
      hist := hist + out;
      StoreAround(out, dist);
      write, have := |out| - dist, size;
      assert win[..write0] == old(window[..write]);
      Wrapped(win, have0, h0, out, write0, window[..]);
    }
  }

  /** A stretch of the window is what a match that starts there copies. */
  lemma FromWindow(win: seq<byte>, have: nat, write: nat, hist: seq<byte>, out: seq<byte>, dist: nat, n: nat)
    requires Holds(win, have, write, hist) && |out| < dist <= have + |out|
    requires var op := dist - |out|; n <= (if op <= write then op else op - write)
    ensures var from := Index(write, dist - |out|, |win|);
            && 0 <= from && from + n <= |win|
            && Copy(hist + out, dist, n) == hist + (out + win[from..from + n])
  {
    hide Copy, Holds, Index;
    var op := dist - |out|;
    var from, h := Index(write, op, |win|), hist + out;
    InRange(win, have, write, hist);
    StretchInside(write, op, |win|, n);
    var src := win[from..from + n];
    forall i | 0 <= i < n ensures src[i] == (h + src)[|h| - dist + i] {
      StretchAt(win, have, write, hist, op, i);
    }
    CopyRun(h, dist, src);
    assert h + src == hist + (out + src);
  }

  lemma StretchInside(write: nat, op: nat, size: nat, n: nat)
    requires write <= size && op <= size && n <= (if op <= write then op else op - write)
    ensures 0 <= Index(write, op, size) && Index(write, op, size) + n <= size
  {
  }

  lemma StretchAt(win: seq<byte>, have: nat, write: nat, hist: seq<byte>, op: nat, i: nat)
    requires Holds(win, have, write, hist) && op <= have && i < (if op <= write then op else op - write)
    ensures 0 <= Index(write, op, |win|) + i < |win| && op - i <= |hist|
    ensures win[Index(write, op, |win|) + i] == hist[|hist| - op + i]
  {
    assert win[Index(write, op - i, |win|)] == hist[|hist| - (op - i)];
  }

  /** One contiguous piece of a match copied from the window. */
  method Piece(w: Window, out0: seq<byte>, dist: nat, from: nat, n: nat, ghost len: nat) returns (out: seq<byte>)
    requires w.Valid() && |out0| < dist <= w.have + |out0| && n <= len
    requires var op := dist - |out0|;
             from == Index(w.write, op, w.window.Length) && n <= (if op <= w.write then op else op - w.write)
    ensures |out| == |out0| + n
    ensures Copy(w.hist + out, dist, len - n) == Copy(w.hist + out0, dist, len)
  {
    hide Copy, Holds;
    InRange(w.window[..], w.have, w.write, w.hist);
    FromWindow(w.window[..], w.have, w.write, w.hist, out0, dist, n);
    CopySplit(w.hist + out0, dist, n, len - n);
    assert w.window[..][from..from + n] == w.window[from..from + n];
    out := out0 + w.window[from..from + n];
  }

  /** Three bytes at a time from the output itself, as inflate_fast does; the rest singly. */
  method CopyThrees(out0: seq<byte>, dist: nat, len: nat) returns (out: seq<byte>)
    requires 1 <= dist <= |out0|
    ensures out == Copy(out0, dist, len)
  {
    hide Copy;
    out := out0;
    var n := len;
    while n > 2
      invariant |out| >= |out0| && n >= 0
      invariant Copy(out, dist, n) == Copy(out0, dist, len)
    {
      CopyOne(out, dist, n);
      out := out + [out[|out| - dist]];
      CopyOne(out, dist, n - 1);
      out := out + [out[|out| - dist]];
      CopyOne(out, dist, n - 2);
      out := out + [out[|out| - dist]];
      n := n - 3;
    }
    if n > 0 {
      CopyOne(out, dist, n);
      out := out + [out[|out| - dist]];
      if n > 1 {
        CopyOne(out, dist, n - 1);
        out := out + [out[|out| - dist]];
      }
    }
    CopyNone(out, dist);
  }

  /** The part of a match that lies in the window, in one piece or in two around its end. */
  method FromPieces(w: Window, out0: seq<byte>, dist: nat, len0: nat) returns (out: seq<byte>, len: nat)
    requires w.Valid() && |out0| < dist <= w.have + |out0| && len0 >= 1
    ensures |out| >= |out0| && Copy(w.hist + out, dist, len) == Copy(w.hist + out0, dist, len0)
    ensures len > 0 ==> dist <= |out|
  {
    hide Copy, Holds;
    InRange(w.window[..], w.have, w.write, w.hist);
    out := out0;
    len := len0;
    var size, op := w.window.Length, dist - |out|;
    if w.write == 0 {
      var n := if op < len then op else len;
      out := Piece(w, out, dist, size - op, n, len);
      len := len - n;
    } else if w.write < op {
      var n := if op - w.write < len then op - w.write else len;
      out := Piece(w, out, dist, size + w.write - op, n, len);
      len := len - n;
      if len > 0 {
        n := if w.write < len then w.write else len;
        out := Piece(w, out, dist, 0, n, len);
        len := len - n;
      }
    } else {
      var n := if op < len then op else len;
      out := Piece(w, out, dist, w.write - op, n, len);
      len := len - n;
    }
  }

  /** The match copy of inflate_fast: up to two pieces of the window, then the output.  The result
      is the plain copy from the whole history. */
  method FastCopy(w: Window, out0: seq<byte>, dist: nat, len0: nat) returns (out: seq<byte>)
    requires w.Valid() && 1 <= dist <= w.have + |out0| && len0 >= 1
    ensures w.hist + out == Copy(w.hist + out0, dist, len0)
  {
    hide Copy, Holds;
    InRange(w.window[..], w.have, w.write, w.hist);
    out := out0;
    var len := len0;
    if dist > |out| {
      out, len := FromPieces(w, out, dist, len);
    }
    if len > 0 {
      CopyPrefix(w.hist, out, dist, len);
      out := CopyThrees(out, dist, len);
    } else {
      CopyNone(w.hist + out, dist);
    }
  }

  /** One visit to state MATCH: as much as one contiguous source and the room in the output allow. */
  method SlowCopy(w: Window, out0: seq<byte>, offset: nat, length: nat, left: nat) returns (out: seq<byte>, copied: nat)
    requires w.Valid() && 1 <= offset <= w.have + |out0| && length >= 1 && left >= 1
    ensures 1 <= copied <= length && copied <= left
    ensures w.hist + out == Copy(w.hist + out0, offset, copied)
  {
    hide Copy, Holds;
    InRange(w.window[..], w.have, w.write, w.hist);
    copied := |out0|;
    if offset > copied {
      copied := offset - copied;
      var from;
      if copied > w.write {
        copied := copied - w.write;
        from := w.window.Length - copied;
      } else {
        from := w.write - copied;
      }
      if copied > length { copied := length; }
      if copied > left { copied := left; }
      out := Piece(w, out0, offset, from, copied, copied);
      CopyNone(w.hist + out, offset);
    } else {
      copied := length;
      if copied > left { copied := left; }
      CopyPrefix(w.hist, out0, offset, copied);
      out := CopyThrees(out0, offset, copied);
    }
  }

  /** The new bytes fit before the end of the buffer. */
  lemma Appended(win: seq<byte>, have: nat, hist: seq<byte>, out: seq<byte>, write: nat, win': seq<byte>)
    requires Holds(win, have, write, hist) && |out| < |win| && write + |out| <= |win|
    requires win' == win[..write] + out + win[write + |out|..]
    ensures var write' := if write + |out| == |win| then 0 else write + |out|;
            var have' := if have < |win| then have + |out| else have;
            Holds(win', have', write', hist + out)
  {
    var size, n := |win|, |out|;
    var write' := if write + n == size then 0 else write + n;
    var have' := if have < size then have + n else have;
    var h := hist + out;
    forall d | 1 <= d <= have' ensures win'[Index(write', d, size)] == h[|h| - d] {
      if d <= n {
        assert h[|h| - d] == out[n - d];
        assert Index(write', d, size) == write + n - d;
      } else {
        assert h[|h| - d] == hist[|hist| - (d - n)];
        assert win[Index(write, d - n, size)] == hist[|hist| - (d - n)];
        assert Index(write', d, size) == Index(write, d - n, size);
      }
    }
  }

  /** The new bytes run past the end and continue at the start. */
  lemma Wrapped(win: seq<byte>, have: nat, hist: seq<byte>, out: seq<byte>, write: nat, win': seq<byte>)
    requires Holds(win, have, write, hist) && |out| < |win| && write + |out| > |win|
    requires var dist := |win| - write;
             win' == out[dist..] + (win[..write] + out[..dist])[|out| - dist..]
    ensures Holds(win', |win|, |out| - (|win| - write), hist + out)
  {
    var size, n := |win|, |out|;
    var dist, h := size - write, hist + out;
    var write' := n - dist;
    forall d | 1 <= d <= size ensures win'[Index(write', d, size)] == h[|h| - d] {
      if d <= n {
        assert h[|h| - d] == out[n - d];
      } else {
        assert win[Index(write, d - n, size)] == hist[|hist| - (d - n)];
        assert h[|h| - d] == hist[|hist| - (d - n)];
      }
    }
  }

  /** The new bytes fill the whole buffer. */
  lemma Replaced(hist: seq<byte>, out: seq<byte>, win': seq<byte>)
    requires 0 < |win'| <= |out| && win' == out[|out| - |win'|..]
    ensures Holds(win', |win'|, 0, hist + out)
  {
    var h := hist + out;
    forall d | 1 <= d <= |win'| ensures win'[Index(0, d, |win'|)] == h[|h| - d] {
      assert h[|h| - d] == out[|out| - d];
    }
  }

  lemma InRange(win: seq<byte>, have: nat, write: nat, hist: seq<byte>)
    requires Holds(win, have, write, hist)
    ensures write < |win| && have <= |win| && have <= |hist| && (have < |win| ==> write == have == |hist|)
  {
  }
}
