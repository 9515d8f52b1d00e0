/** The 16-bit buffer through which deflate sends values of any number of bits. */
module BitWriter {
  import opened Bits
  import opened Reverse
  import opened Canonical
  import opened InfTable
  import opened InflateSpec
  import opened BitFields

  lemma {:induction false} NumJoin(a: seq<byte>, b: seq<byte>)
    ensures Num(a + b) == Num(a) + Pow2(8 * |a|) * Num(b)
  {
    hide Pow2;
    if a == [] {
      assert a + b == b;
      PowZero();
    } else {
      NumJoin(a[1..], b);
      assert (a + b)[1..] == a[1..] + b;
      Pow2Add(8, 8 * (|a| - 1));
      EightBits();
      Spread(256, Num(a[1..]), Pow2(8 * (|a| - 1)), Num(b));
    }
  }

  lemma NumTwo(x: byte, y: byte)
    ensures Num([x]) == x && Num([x, y]) == x + 256 * y
  {
    assert Num([]) == 0;
    assert [x][1..] == [] && [x, y][1..] == [y] && [y][1..] == [];
  }

  lemma WordBytes(w: nat)
    requires w < 65536
    ensures w % 256 + 256 * (w / 256) == w && w / 256 < 256
  {
  }

  predicate Holds(pending: seq<byte>, buf: nat, valid: nat, fs: seq<Field>)
  {
    && Num(pending) + Pow2(8 * |pending|) * buf == Value(fs)
    && 8 * |pending| + valid == Total(fs)
  }

  /** Room in the buffer: the value goes above the valid bits. */
  lemma SendLow(pending: seq<byte>, buf: nat, valid: nat, fs: seq<Field>, value: nat, len: nat)
    requires Holds(pending, buf, valid, fs) && buf < Pow2(valid) && value < Pow2(len)
    ensures var buf' := Or(value * Pow2(valid), buf);
            buf' < Pow2(valid + len) && Holds(pending, buf', valid + len, fs + [Field(value, len)])
  {
    hide Pow2, Or;
    MulMod(value, Pow2(valid));
    Commute(value, Pow2(valid));
    OrDisjoint(value * Pow2(valid), buf, valid);
    Pow2Add(valid, len);
    Under(buf, Pow2(valid), value, Pow2(len));
    OneField(fs, value, len);
    Pow2Add(8 * |pending|, valid);
    Spread(Pow2(8 * |pending|), buf, Pow2(valid), value);
  }

  lemma OneField(fs: seq<Field>, value: nat, len: nat)
    ensures Value(fs + [Field(value, len)]) == Value(fs) + Pow2(Total(fs)) * value
    ensures Total(fs + [Field(value, len)]) == Total(fs) + len
  {
    hide Pow2;
    var f := [Field(value, len)];
    ValueJoin(fs, f);
    TotalJoin(fs, f);
    assert f[1..] == [];
    assert Value(f) == value + Pow2(len) * 0;
  }

  /** The buffer as a 16-bit word moves to the pending bytes. */
  lemma PutShort(pending: seq<byte>, word: nat, hi: nat, valid: nat, fs: seq<Field>)
    requires word < 65536 && Holds(pending, word + 65536 * hi, 16 + valid, fs)
    ensures Holds(pending + [word % 256, word / 256], hi, valid, fs)
  {
    hide Pow2;
    NumJoin(pending, [word % 256, word / 256]);
    NumTwo(word % 256, word / 256);
    WordBytes(word);
    Pow2Add(8 * |pending|, 16);
    SixteenBits();
    Spread(Pow2(8 * |pending|), word, 65536, hi);
  }

  /** One byte of the buffer moves to the pending bytes. */
  lemma PutByte(pending: seq<byte>, buf: nat, valid: nat, fs: seq<Field>)
    requires Holds(pending, buf, 8 + valid, fs)
    ensures Holds(pending + [buf % 256], buf / 256, valid, fs)
  {
    hide Pow2;
    NumJoin(pending, [buf % 256]);
    NumTwo(buf % 256, 0);
    Pow2Add(8 * |pending|, 8);
    EightBits();
    Spread(Pow2(8 * |pending|), buf % 256, 256, buf / 256);
  }

  /** A value that crosses the end of the buffer: the part that fits, then the rest. */
  lemma Cross(buf: nat, valid: nat, value: nat)
    requires valid <= 16 && buf < Pow2(valid)
    ensures var x := Or(value * Pow2(valid), buf);
            x == x % 65536 + 65536 * (value / Pow2(16 - valid))
  {
    hide Pow2, Or;
    var p, r := Pow2(valid), Pow2(16 - valid);
    MulMod(value, p);
    Commute(value, p);
    OrDisjoint(value * p, buf, valid);
    Pow2Add(valid, 16 - valid);
    SixteenBits();
    Carry(buf, p, r, value);
  }

  lemma Carry(buf: nat, p: nat, r: nat, value: nat)
    requires p * r == 65536 && buf < p && r > 0
    ensures var x := value * p + buf; x == x % 65536 + 65536 * (value / r)
  {
    var hi, lo := value / r, value % r;
    CarryParts(buf, p, r, hi, lo, value);
  }

  lemma CarryParts(buf: nat, p: nat, r: nat, hi: nat, lo: nat, value: nat)
    requires p * r == 65536 && buf < p && lo < r && value == hi * r + lo
    ensures var x := value * p + buf; x == x % 65536 + 65536 * hi
  {
    Under(buf, p, lo, r);
    CrossSum(buf, p, r, hi, lo);
    DivModUnique(value * p + buf, 65536, hi, buf + p * lo);
  }

  lemma CrossSum(buf: nat, p: nat, r: nat, hi: nat, lo: nat)
    requires p * r == 65536
    ensures (hi * r + lo) * p + buf == hi * 65536 + (buf + p * lo)
  {
    Distrib(hi * r, lo, p);
    Assoc(hi, r, p);
    Commute(r, p);
    Commute(lo, p);
    assert (hi * r) * p == hi * (r * p);
  }

  /** What is left of a value after 16 - valid of its bits. */
  lemma RestFits(value: nat, len: nat, n: nat)
    requires value < Pow2(len) && n <= len
    ensures value / Pow2(n) < Pow2(len - n)
  {
    hide Pow2;
    Pow2Add(n, len - n);
    var q := value / Pow2(n);
    if q >= Pow2(len - n) {
      MulMono(Pow2(len - n), q, Pow2(n));
      assert value >= q * Pow2(n);
      Commute(q, Pow2(n));
      Commute(Pow2(len - n), Pow2(n));
    }
  }

  class BitWriter {
    var pending: seq<byte>
    var buf: nat
    var valid: nat
    /** Everything sent so far. */
    ghost var fields: seq<Field>

    ghost predicate Valid()
      reads this
    {
      && valid <= 16 && buf < Pow2(valid) && Fits(fields)
      && Holds(pending, buf, valid, fields)
    }

    constructor ()
      ensures Valid() && fields == [] && valid == 0
    {
      pending, buf, valid, fields := [], 0, 0, [];
    }

    /** send_bits. */
    method SendBits(value: nat, length: nat)
      requires Valid() && 1 <= length <= 15 && value < Pow2(length)
      modifies this
      ensures Valid() && fields == old(fields) + [Field(value, length)]
    {
      hide Pow2, Or, Holds;
      SendLow(pending, buf, valid, fields, value, length);
      if valid > 16 - length {
        Cross(buf, valid, value);
        RestFits(value, length, 16 - valid);
        var word := Or(value * Pow2(valid), buf) % 65536;
        PutShort(pending, word, value / Pow2(16 - valid), valid + length - 16, fields + [Field(value, length)]);
        pending := pending + [word % 256, word / 256];
        buf := value / Pow2(16 - valid);
        valid := valid + length - 16;
      } else {
        buf := Or(value * Pow2(valid), buf);
        valid := valid + length;
      }
      fields := fields + [Field(value, length)];
    }

    /** bi_flush: whole bytes leave the buffer, and nothing that was sent changes. */
    method Flush()
      requires Valid()
      modifies this
      ensures Valid() && fields == old(fields) && valid < 8
    {
      hide Holds;
      if valid == 16 {
        SixteenBits();
        PutShort(pending, buf, 0, 0, fields);
        pending := pending + [buf % 256, buf / 256];
        buf, valid := 0, 0;
      } else if valid >= 8 {
        PutByte(pending, buf, valid - 8, fields);
        RestFits(buf, valid, 8);
        EightBits();
        pending := pending + [buf % 256];
        buf, valid := buf / 256, valid - 8;
      }
    }

    /** put_short on a byte boundary. */
    method PutWord(word: nat)
      requires Valid() && valid == 0 && buf == 0 && word < 65536
      modifies this
      ensures Valid() && valid == 0 && buf == 0 && fields == old(fields) + [Field(word, 16)]
    {
      hide Holds, Pow2;
      PowZero();
      SixteenBits();
      AppendWord(pending, fields, word);
      pending := pending + [word % 256, word / 256];
      fields := fields + [Field(word, 16)];
    }

    /** Bytes copied behind a byte boundary. */
    method PutBytes(src: seq<byte>)
      requires Valid() && valid == 0 && buf == 0
      modifies this
      ensures Valid() && valid == 0 && buf == 0 && fields == old(fields) + ByteFields(src)
    {
      hide Holds, Pow2;
      AppendBytes(pending, fields, src);
      FitsBytes(src);
      pending := pending + src;
      fields := fields + ByteFields(src);
    }

    /** bi_windup: zero bits up to the next byte boundary, and the buffer is empty. */
    method Windup() returns (ghost pad: nat)
      requires Valid()
      modifies this
      ensures Valid() && valid == 0 && buf == 0 && pad < 8
      ensures fields == old(fields) + if pad == 0 then [] else [Field(0, pad)]
      ensures Num(pending) == Value(fields) && 8 * |pending| == Total(fields)
    {
      hide Pow2, Holds;
      pad := 0;
      if valid > 8 {
        pad := 16 - valid;
        Padded(pending, buf, valid, fields, pad);
        SixteenBits();
        PutShort(pending, buf, 0, 0, fields + Pad(pad));
        pending := pending + [buf % 256, buf / 256];
      } else if valid > 0 {
        pad := 8 - valid;
        Padded(pending, buf, valid, fields, pad);
        EightBits();
        PutByte(pending, buf, 0, fields + Pad(pad));
        pending := pending + [buf % 256];
      } else {
        PowZero();
        assert fields + Pad(0) == fields;
      }
      fields := fields + Pad(pad);
      buf, valid := 0, 0;
      PowZero();
      ByteEnd(pending, fields);
    }
  }

  function ByteFields(src: seq<byte>): (fs: seq<Field>)
    ensures |fs| == |src| && forall i :: 0 <= i < |src| ==> fs[i] == Field(src[i], 8)
  {
    seq(|src|, i requires 0 <= i < |src| => Field(src[i], 8))
  }

  lemma FitsBytes(src: seq<byte>)
    ensures Fits(ByteFields(src))
  {
    EightBits();
  }

  lemma AppendWord(pending: seq<byte>, fs: seq<Field>, word: nat)
    requires Holds(pending, 0, 0, fs) && word < 65536
    ensures Holds(pending + [word % 256, word / 256], 0, 0, fs + [Field(word, 16)])
  {
    hide Pow2;
    OneField(fs, word, 16);
    NumJoin(pending, [word % 256, word / 256]);
    NumTwo(word % 256, word / 256);
    WordBytes(word);
  }

  lemma {:induction false} AppendBytes(pending: seq<byte>, fs: seq<Field>, src: seq<byte>)
    requires Holds(pending, 0, 0, fs)
    ensures Holds(pending + src, 0, 0, fs + ByteFields(src))
    decreases |src|
  {
    hide Pow2, Num, Value, Total;
    if src == [] {
      assert pending + src == pending && fs + ByteFields(src) == fs;
    } else {
      var b := src[0];
      OneField(fs, b, 8);
      NumJoin(pending, [b]);
      NumTwo(b, 0);
      assert |pending + [b]| == |pending| + 1;
      AppendBytes(pending + [b], fs + [Field(b, 8)], src[1..]);
      assert pending + [b] + src[1..] == pending + src;
      assert fs + [Field(b, 8)] + ByteFields(src[1..]) == fs + ByteFields(src);
    }
  }

  function Pad(n: nat): seq<Field>
  {
    if n == 0 then [] else [Field(0, n)]
  }

  lemma Padded(pending: seq<byte>, buf: nat, valid: nat, fs: seq<Field>, n: nat)
    requires Holds(pending, buf, valid, fs) && buf < Pow2(valid) && Fits(fs)
    ensures Holds(pending, buf, valid + n, fs + Pad(n)) && Fits(fs + Pad(n)) && buf < Pow2(valid + n)
  {
    hide Pow2;
    if n == 0 { assert fs + Pad(0) == fs; } else { OneField(fs, 0, n); }
    Pow2Add(valid, n);
    PowPositive(n);
    MulMono(1, Pow2(n), Pow2(valid));
  }

  lemma PowPositive(n: nat)
    ensures Pow2(n) >= 1
  {
  }

  lemma ByteEnd(pending: seq<byte>, fs: seq<Field>)
    requires Holds(pending, 0, 0, fs)
    ensures Num(pending) == Value(fs) && 8 * |pending| == Total(fs)
  {
  }
}
