/** Back references: copying from earlier output, possibly overlapping it. */
module Lz77 {
  import opened Bits

  /** What a match copies, one byte at a time, so that it may overlap itself. */
  function Copy(out: seq<byte>, off: nat, len: nat): (r: seq<byte>)
    requires 1 <= off <= |out|
    ensures |r| == |out| + len && r[..|out|] == out
    decreases len
  {
    if len == 0 then out
    else
      var one := out + [out[|out| - off]];
      assert one[..|out|] == out;
      var r := Copy(one, off, len - 1);
      assert r[..|out|] == r[..|one|][..|out|];
      r
  }

  lemma CopyOne(out: seq<byte>, off: nat, len: nat)
    requires 1 <= off <= |out| && len >= 1
    ensures Copy(out, off, len) == Copy(out + [out[|out| - off]], off, len - 1)
  {
  }

  lemma CopyNone(out: seq<byte>, off: nat)
    requires 1 <= off <= |out|
    ensures Copy(out, off, 0) == out
  {
  }

  lemma {:induction false} CopySplit(out: seq<byte>, off: nat, a: nat, b: nat)
    requires 1 <= off <= |out|
    ensures Copy(out, off, a + b) == Copy(Copy(out, off, a), off, b)
    decreases a
  {
    hide Copy;
    if a == 0 {
      CopyNone(out, off);
    } else {
      CopyOne(out, off, a + b);
      CopyOne(out, off, a);
      CopySplit(out + [out[|out| - off]], off, a - 1, b);
    }
  }

  /** At distance four or more, a four-byte load and store copies the same as single bytes. */
  lemma CopyFour(out: seq<byte>, off: nat)
    requires 4 <= off <= |out|
    ensures var m := |out| - off; Copy(out, off, 4) == out + out[m..m + 4]
  {
    hide Copy;
    var m := |out| - off;
    var o1 := out + [out[m]];
    var o2 := o1 + [out[m + 1]];
    var o3 := o2 + [out[m + 2]];
    var o4 := o3 + [out[m + 3]];
    CopyOne(out, off, 4);
    CopyOne(o1, off, 3);
    CopyOne(o2, off, 2);
    CopyOne(o3, off, 1);
    CopyNone(o4, off);
    assert o4 == out + out[m..m + 4];
  }

  /** A copy is determined byte by byte. */
  lemma {:induction false} CopyRun(h: seq<byte>, off: nat, src: seq<byte>)
    requires 1 <= off <= |h|
    requires forall i :: 0 <= i < |src| ==> src[i] == (h + src)[|h| - off + i]
    ensures Copy(h, off, |src|) == h + src
    decreases |src|
  {
    hide Copy;
    if src == [] {
      CopyNone(h, off);
      assert h + src == h;
    } else {
      var h', rest := h + [src[0]], src[1..];
      assert h + src == h' + rest;
      assert src[0] == h[|h| - off];
      forall i | 0 <= i < |rest| ensures rest[i] == (h' + rest)[|h'| - off + i] {
        assert rest[i] == src[i + 1];
      }
      CopyRun(h', off, rest);
      CopyOne(h, off, |src|);
    }
  }

  /** Earlier history that the copy does not reach can be left aside. */
  lemma {:induction false} CopyPrefix(pre: seq<byte>, out: seq<byte>, off: nat, len: nat)
    requires 1 <= off <= |out|
    ensures Copy(pre + out, off, len) == pre + Copy(out, off, len)
    decreases len
  {
    hide Copy;
    var h := pre + out;
    if len == 0 {
      CopyNone(h, off);
      CopyNone(out, off);
    } else {
      var out' := out + [out[|out| - off]];
      assert h + [h[|h| - off]] == pre + out';
      CopyPrefix(pre, out', off, len - 1);
      CopyOne(h, off, len);
      CopyOne(out, off, len);
    }
  }
}
