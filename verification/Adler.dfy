/** The Adler-32 checksum with its delayed reductions. */
module Adler {
  import opened Bits

  const BASE: nat := 65521
  const NMAX: nat := 5552
  const WORD: nat := 0x1_0000_0000

  datatype Sums = Sums(s1: nat, s2: nat)

  /** The definition in section 2.2 of RFC 1950: both sums modulo 65521 at every byte. */
  function Fold(p: Sums, data: seq<byte>): Sums
    decreases |data|
  {
    if data == [] then p
    else
      var s1 := (p.s1 + data[0]) % BASE;
      Fold(Sums(s1, (p.s2 + s1) % BASE), data[1..])
  }

  /** The same without reducing. */
  function Raw(p: Sums, data: seq<byte>): Sums
    decreases |data|
  {
    if data == [] then p else Raw(Sums(p.s1 + data[0], p.s2 + p.s1 + data[0]), data[1..])
  }

  function Mod(p: Sums): Sums
  {
    Sums(p.s1 % BASE, p.s2 % BASE)
  }

  /** Checksumming in pieces. */
  lemma {:induction false} FoldJoin(p: Sums, a: seq<byte>, b: seq<byte>)
    ensures Fold(p, a + b) == Fold(Fold(p, a), b)
    decreases |a|
  {
    if a == [] {
      assert a + b == b;
    } else {
      var s1 := (p.s1 + a[0]) % BASE;
      assert (a + b)[1..] == a[1..] + b;
      FoldJoin(Sums(s1, (p.s2 + s1) % BASE), a[1..], b);
    }
  }

  lemma {:induction false} RawJoin(p: Sums, a: seq<byte>, b: seq<byte>)
    ensures Raw(p, a + b) == Raw(Raw(p, a), b)
    decreases |a|
  {
    if a == [] {
      assert a + b == b;
    } else {
      assert (a + b)[1..] == a[1..] + b;
      RawJoin(Sums(p.s1 + a[0], p.s2 + p.s1 + a[0]), a[1..], b);
    }
  }

  lemma ModSum(x: nat, y: nat)
    ensures (x + y) % BASE == (x % BASE + y) % BASE && (x + y) % BASE == (x + y % BASE) % BASE
  {
    AddMultiple(x % BASE + y, x / BASE, BASE);
    AddMultiple(x + y % BASE, y / BASE, BASE);
  }

  /** Reducing at the end is as good as reducing at every byte. */
  lemma {:induction false} RawMod(p: Sums, q: Sums, data: seq<byte>)
    requires q == Mod(p)
    ensures Mod(Raw(p, data)) == Fold(q, data)
    decreases |data|
  {
    if data != [] {
      var b := data[0];
      var p1 := Sums(p.s1 + b, p.s2 + p.s1 + b);
      var s1 := (q.s1 + b) % BASE;
      ModSum(p.s1, b);
      ModSum(p.s2, p.s1 + b);
      ModSum(p.s2, s1);
      RawMod(p1, Sums(s1, (q.s2 + s1) % BASE), data[1..]);
    }
  }

  lemma FirstReduces(p: Sums, data: seq<byte>)
    requires data != []
    ensures Fold(p, data) == Fold(Mod(p), data)
  {
    var s1 := (p.s1 + data[0]) % BASE;
    ModSum(p.s1, data[0]);
    ModSum(p.s2, s1);
  }

  // ----- no overflow within NMAX bytes

  function Triangle(n: nat): nat
  {
    if n == 0 then 0 else Triangle(n - 1) + n
  }

  lemma {:induction false} TriangleMono(a: nat, b: nat)
    requires a <= b
    ensures Triangle(a) <= Triangle(b)
    decreases b
  {
    if a < b { TriangleMono(a, b - 1); }
  }

  lemma {:induction false} TriangleIs(n: nat)
    ensures 2 * Triangle(n) == n * (n + 1)
  {
    if n > 0 {
      TriangleIs(n - 1);
      assert n * (n + 1) == (n - 1) * n + 2 * n;
    }
  }

  /** How large the sums can be after n bytes. */
  predicate Bounded(p: Sums, n: nat)
  {
    p.s1 <= 65535 + 255 * n && p.s2 <= 65535 + 65535 * n + 255 * Triangle(n)
  }

  lemma BoundedFits(p: Sums, n: nat)
    requires Bounded(p, n) && n <= NMAX
    ensures p.s1 < WORD && p.s2 < WORD
  {
    TriangleMono(n, NMAX);
    TriangleIs(NMAX);
  }

  lemma BoundedStep(p: Sums, n: nat, b: byte)
    requires Bounded(p, n)
    ensures Bounded(Sums(p.s1 + b, p.s2 + p.s1 + b), n + 1)
  {
  }

  lemma RawOne(p: Sums, buf: seq<byte>, i: nat, j: nat)
    requires i <= j < |buf|
    ensures var r := Raw(p, buf[i..j]); Raw(p, buf[i..j + 1]) == Sums(r.s1 + buf[j], r.s2 + r.s1 + buf[j])
  {
    assert buf[i..j + 1] == buf[i..j] + [buf[j]];
    RawJoin(p, buf[i..j], [buf[j]]);
    var r := Raw(p, buf[i..j]);
    assert [buf[j]][1..] == [];
    assert Raw(Sums(r.s1 + buf[j], r.s2 + r.s1 + buf[j]), []) == Sums(r.s1 + buf[j], r.s2 + r.s1 + buf[j]);
  }

  /** One byte of DO1: neither sum exceeds 32 bits. */
  method AddByte(buf: seq<byte>, ghost p: Sums, ghost i: nat, j: nat, s1: nat, s2: nat) returns (t1: nat, t2: nat)
    requires i <= j < |buf| && j - i < NMAX && Sums(s1, s2) == Raw(p, buf[i..j]) && Bounded(Sums(s1, s2), j - i)
    ensures Sums(t1, t2) == Raw(p, buf[i..j + 1]) && Bounded(Sums(t1, t2), j + 1 - i) && t1 < WORD && t2 < WORD
  {
    RawOne(p, buf, i, j);
    BoundedStep(Sums(s1, s2), j - i, buf[j]);
    t1 := s1 + buf[j];
    t2 := s2 + t1;
    BoundedFits(Sums(t1, t2), j + 1 - i);
  }

  /** The inner loops over k bytes: sixteen at a time, then singly. */
  method AddBlock(buf: seq<byte>, i: nat, k0: nat, a1: nat, a2: nat) returns (s1: nat, s2: nat)
    requires k0 <= NMAX && i + k0 <= |buf| && a1 < 65536 && a2 < 65536
    ensures Sums(s1, s2) == Raw(Sums(a1, a2), buf[i..i + k0]) && s1 < WORD && s2 < WORD
  {
    hide Raw, Bounded;
    ghost var p := Sums(a1, a2);
    s1, s2 := a1, a2;
    var k, j := k0, i;
    BlockStart(p, buf, i);
    BoundedFits(p, 0);
    while k >= 16
      invariant i <= j && j + k == i + k0 && k >= 0
      invariant Sums(s1, s2) == Raw(p, buf[i..j]) && Bounded(Sums(s1, s2), j - i) && s1 < WORD && s2 < WORD
    {
      for n := 0 to 16
        invariant Sums(s1, s2) == Raw(p, buf[i..j + n]) && Bounded(Sums(s1, s2), j + n - i) && s1 < WORD && s2 < WORD
      {
        s1, s2 := AddByte(buf, p, i, j + n, s1, s2);
      }
      j, k := j + 16, k - 16;
    }
    while k != 0
      invariant i <= j && j + k == i + k0 && k >= 0
      invariant Sums(s1, s2) == Raw(p, buf[i..j]) && Bounded(Sums(s1, s2), j - i) && s1 < WORD && s2 < WORD
    {
      s1, s2 := AddByte(buf, p, i, j, s1, s2);
      j, k := j + 1, k - 1;
    }
  }

  lemma BlockStart(p: Sums, buf: seq<byte>, i: nat)
    requires i <= |buf| && p.s1 < 65536 && p.s2 < 65536
    ensures Raw(p, buf[i..i]) == p && Bounded(p, 0)
  {
    assert buf[i..i] == [];
  }

  function Unpack(adler: nat): Sums
  {
    Sums(adler % 65536, adler / 65536 % 65536)
  }

  function Pack(p: Sums): nat
  {
    p.s2 * 65536 + p.s1
  }

  /** A block of at most NMAX bytes and the reduction after it. */
  lemma BlockMod(p: Sums, buf: seq<byte>, i: nat, k: nat)
    requires 1 <= k && i + k <= |buf|
    ensures Mod(Raw(Fold(p, buf[..i]), buf[i..i + k])) == Fold(p, buf[..i + k])
  {
    var q := Fold(p, buf[..i]);
    RawMod(q, Mod(q), buf[i..i + k]);
    FirstReduces(q, buf[i..i + k]);
    FoldJoin(p, buf[..i], buf[i..i + k]);
    assert buf[..i + k] == buf[..i] + buf[i..i + k];
  }

  /** A buffer, or none. */
  datatype Buffer = Null | Bytes(data: seq<byte>)

  /** zlib_adler32: the per-byte definition, although it reduces only every 5552 bytes.  Without a buffer it
      gives the value to start from, that of no bytes at all. */
  method Adler32(adler: nat, buffer: Buffer) returns (r: nat)
    requires adler < WORD
    ensures r == (if buffer.Null? then Pack(Sums(1, 0)) else Pack(Fold(Unpack(adler), buffer.data))) && r < WORD
  {
    hide Fold, Raw, Or;
    if buffer.Null? { return 1; }
    var buf := buffer.data;
    var s1: nat, s2: nat := adler % 65536, adler / 65536 % 65536;
    ghost var p := Sums(s1, s2);
    var i: nat, len: nat := 0, |buf|;
    FoldNone(p, buf);
    while len > 0
      invariant i + len == |buf| && Sums(s1, s2) == Fold(p, buf[..i]) && s1 < 65536 && s2 < 65536
      decreases len
    {
      var k := if len < NMAX then len else NMAX;
      len := len - k;
      BlockMod(p, buf, i, k);
      s1, s2 := AddBlock(buf, i, k, s1, s2);
      s1, s2 := s1 % BASE, s2 % BASE;
      i := i + k;
    }
    assert buf[..i] == buf;
    SixteenBits();
    MulMod(s2, Pow2(16));
    OrDisjoint(s2 * 65536, s1, 16);
    r := Or(s2 * 65536, s1);
  }

  lemma FoldNone(p: Sums, buf: seq<byte>)
    ensures Fold(p, buf[..0]) == p
  {
    assert buf[..0] == [];
  }

  /** A checksum continued over a second piece is the checksum of both. */
  lemma InPieces(adler: nat, a: seq<byte>, b: seq<byte>)
    requires adler < WORD
    ensures Pack(Fold(Unpack(Pack(Fold(Unpack(adler), a))), b)) == Pack(Fold(Unpack(adler), a + b))
  {
    var p := Fold(Unpack(adler), a);
    FoldSmall(Unpack(adler), a);
    FoldJoin(Unpack(adler), a, b);
    DivModUnique(Pack(p), 65536, p.s2, p.s1);
    assert p.s2 % 65536 == p.s2;
  }

  lemma {:induction false} FoldSmall(p: Sums, data: seq<byte>)
    requires p.s1 < 65536 && p.s2 < 65536
    ensures Fold(p, data).s1 < 65536 && Fold(p, data).s2 < 65536
    decreases |data|
  {
    if data != [] {
      var s1 := (p.s1 + data[0]) % BASE;
      FoldSmall(Sums(s1, (p.s2 + s1) % BASE), data[1..]);
    }
  }
}
