/** The constant tables of deflate, which map lengths and distances to codes, and their agreement
    with the tables that inflate decodes with. */
module DeflateCodes {
  import opened Bits
  import opened InfTable
  import opened CodeTables

  const LENGTH_CODES := 29
  const D_CODES := 30

  /** extra_lbits. */
  function ExtraL(code: nat): nat
  {
    if code < 8 then 0 else if code < 12 then 1 else if code < 16 then 2 else if code < 20 then 3
    else if code < 24 then 4 else if code < 28 then 5 else 0
  }

  /** extra_dbits. */
  function ExtraD(code: nat): nat
  {
    if code < 4 then 0 else code / 2 - 1
  }

  /** The first length (less 3) of a code: the codes before it take a range of lengths each.  The last
      code stands for the length 258 alone. */
  function BaseL(code: nat): (b: nat)
    requires code < LENGTH_CODES
  {
    if code == 0 then 0 else if code == 28 then 255 else BaseL(code - 1) + Pow2(ExtraL(code - 1))
  }

  /** The first distance (less 1) of a code. */
  function BaseD(code: nat): (b: nat)
    requires code < D_CODES
  {
    if code == 0 then 0 else BaseD(code - 1) + Pow2(ExtraD(code - 1))
  }

  lemma LengthTable(code: nat)
    requires code < 28
    ensures LengthAction(code).op == 16 + ExtraL(code)
    ensures LengthAction(code).val + Pow2(ExtraL(code)) == if code == 27 then 259 else LengthAction(code + 1).val
  {
    hide Pow2;
    ExtraPowers();
  }

  /** The tables of inflate hold the ranges that deflate computes. */
  lemma {:induction false} LengthOps(code: nat)
    requires code < LENGTH_CODES
    ensures LengthAction(code) == Action(16 + ExtraL(code), 3 + BaseL(code))
  {
    hide Pow2;
    if code < 28 { LengthTable(code); }
    if 0 < code < 28 {
      LengthOps(code - 1);
      LengthTable(code - 1);
    }
  }

  lemma DistanceTable(code: nat)
    requires code < 30
    ensures DistanceAction(code).op == 16 + ExtraD(code)
    ensures DistanceAction(code).val + Pow2(ExtraD(code)) == if code == 29 then 32769 else DistanceAction(code + 1).val
  {
    hide Pow2;
    ExtraPowers();
  }

  lemma {:induction false} DistanceBase(code: nat, val: nat)
    requires code < D_CODES && val == DistanceAction(code).val
    ensures val == 1 + BaseD(code)
  {
    hide Pow2, ExtraD, DistanceAction, ActionOk;
    if code == 0 {
      DistanceZero();
    } else {
      var before := DistanceAction(code - 1).val;
      DistanceBase(code - 1, before);
      DistanceTable(code - 1);
    }
  }

  lemma DistanceOps(code: nat)
    requires code < D_CODES
    ensures DistanceAction(code) == Action(16 + ExtraD(code), 1 + BaseD(code))
  {
    hide Pow2, ExtraD, DistanceAction, ActionOk, BaseD;
    DistanceTable(code);
    DistanceBase(code, DistanceAction(code).val);
  }

  lemma DistanceZero()
    ensures DistanceAction(0).val == 1
  {
  }

  lemma LengthStep(code: nat)
    requires code < 28
    ensures BaseL(0) == 0
    ensures BaseL(code) + Pow2(ExtraL(code)) == if code == 27 then 256 else BaseL(code + 1)
  {
    hide Pow2, ExtraL, LengthAction;
    LengthOps(code);
    LengthTable(code);
  }

  lemma DistanceStep(code: nat)
    requires code < 30
    ensures BaseD(0) == 0
    ensures BaseD(code) + Pow2(ExtraD(code)) == if code == 29 then 32768 else BaseD(code + 1)
  {
    hide Pow2, ExtraD, DistanceAction;
    DistanceOps(code);
    DistanceTable(code);
  }

  // ----- tr_static_init

  datatype Static = Static(lengthCode: seq<nat>, baseLength: seq<nat>, distCode: seq<nat>, baseDist: seq<nat>)

  /** code is the code of the normalized length lc. */
  predicate IsLengthCode(code: nat, lc: nat)
  {
    && code < LENGTH_CODES && (code == 28 <==> lc == 255)
    && (code < 28 ==> BaseL(code) <= lc < BaseL(code) + Pow2(ExtraL(code)))
  }

  /** code is the code of the distances d to e - 1 (less 1). */
  predicate IsDistCode(code: nat, d: nat, e: nat)
  {
    code < D_CODES && BaseD(code) <= d < e <= BaseD(code) + Pow2(ExtraD(code))
  }

  predicate StaticOk(t: Static)
  {
    && |t.lengthCode| == 256 && |t.baseLength| == LENGTH_CODES && |t.distCode| == 512 && |t.baseDist| == D_CODES
    && (forall lc :: 0 <= lc < 256 ==> IsLengthCode(t.lengthCode[lc], lc))
    && (forall c :: 0 <= c < 28 ==> t.baseLength[c] == BaseL(c))
    && (forall d :: 0 <= d < 256 ==> IsDistCode(t.distCode[d], d, d + 1))
    && (forall j :: 2 <= j < 256 ==> IsDistCode(t.distCode[256 + j], 128 * j, 128 * j + 128))
    && (forall c :: 0 <= c < D_CODES ==> t.baseDist[c] == BaseD(c))
  }

  /** d_code. */
  function DCode(t: Static, d: nat): nat
    requires StaticOk(t) && d < 32768
  {
    if d < 256 then t.distCode[d] else t.distCode[256 + d / 128]
  }

  lemma DCodeOk(t: Static, d: nat)
    requires StaticOk(t) && d < 32768
    ensures DCode(t, d) < D_CODES && BaseD(DCode(t, d)) <= d < BaseD(DCode(t, d)) + Pow2(ExtraD(DCode(t, d)))
  {
    hide BaseD, ExtraD, Pow2;
    if d >= 256 {
      var j := d / 128;
      assert IsDistCode(t.distCode[256 + j], 128 * j, 128 * j + 128);
    } else {
      assert IsDistCode(t.distCode[d], d, d + 1);
    }
  }

  /** One run of the length table. */
  method FillLengths() returns (lengthCode: seq<nat>, baseLength: seq<nat>)
    ensures |lengthCode| == 256 && |baseLength| == LENGTH_CODES
    ensures forall lc :: 0 <= lc < 256 ==> IsLengthCode(lengthCode[lc], lc)
    ensures forall c :: 0 <= c < 28 ==> baseLength[c] == BaseL(c)
  {
    hide BaseL, ExtraL, Pow2;
    lengthCode, baseLength := seq(256, i => 0), seq(LENGTH_CODES, i => 0);
    var length, code := 0, 0;
    LengthStep(0);
    while code < LENGTH_CODES - 1
      invariant code <= 28 && |lengthCode| == 256 && |baseLength| == LENGTH_CODES
      invariant length == (if code == 28 then 256 else BaseL(code)) && length <= 256
      invariant forall lc :: 0 <= lc < length ==>
                  lengthCode[lc] < 28
                  && BaseL(lengthCode[lc]) <= lc < BaseL(lengthCode[lc]) + Pow2(ExtraL(lengthCode[lc]))
      invariant forall c :: 0 <= c < code ==> baseLength[c] == BaseL(c)
    {
      LengthStep(code);
      LengthRoom(code);
      baseLength := baseLength[code := length];
      ghost var l0 := length;
      for n := 0 to Pow2(ExtraL(code))
        invariant length == l0 + n <= 256 && |lengthCode| == 256
        invariant forall lc :: 0 <= lc < length ==>
                    lengthCode[lc] < 28
                    && BaseL(lengthCode[lc]) <= lc < BaseL(lengthCode[lc]) + Pow2(ExtraL(lengthCode[lc]))
      {
        lengthCode := lengthCode[length := code];
        length := length + 1;
      }
      code := code + 1;
    }
    lengthCode := lengthCode[length - 1 := code];
  }

  lemma LengthRoom(code: nat)
    requires code < 28
    ensures BaseL(code) + Pow2(ExtraL(code)) <= 256
  {
    hide Pow2, BaseL;
    ExtraPowers();
    LengthOps(code);
  }

  lemma DistanceRoom(code: nat)
    requires code < 30
    ensures BaseD(code) + Pow2(ExtraD(code)) <= 32768
    ensures code < 16 ==> BaseD(code) + Pow2(ExtraD(code)) <= 256
    ensures code >= 16 ==>
              BaseD(code) % 128 == 0 && ExtraD(code) >= 7 && Pow2(ExtraD(code)) == 128 * Pow2(ExtraD(code) - 7)
    ensures BaseD(16) == 256
  {
    hide Pow2, BaseD, ExtraD, DistanceAction;
    DistanceOps(code);
    DistanceTable(code);
    if code < 29 { DistanceRange(code); } else { LastDistance(); }
    DistanceOps(16);
    Sixteenth();
    if code >= 16 { FarExtra(code); }
  }

  lemma LastDistance()
    ensures (DistanceAction(29).val - 1) % 128 == 0
  {
  }

  lemma Sixteenth()
    ensures DistanceAction(16).val == 257
  {
  }

  lemma DistanceRange(code: nat)
    requires code < 29
    ensures DistanceAction(code + 1).val <= 32769 && (code < 16 ==> DistanceAction(code + 1).val <= 257)
    ensures code >= 16 ==> (DistanceAction(code).val - 1) % 128 == 0
  {
    hide ActionOk;
  }

  lemma FarExtra(code: nat)
    requires 16 <= code < 30
    ensures ExtraD(code) >= 7 && Pow2(ExtraD(code)) == 128 * Pow2(ExtraD(code) - 7)
  {
    hide Pow2;
    ExtraPowers();
  }

  /** Codes of the distances below 256. */
  method FillNear() returns (distCode: seq<nat>, baseDist: seq<nat>)
    ensures |distCode| == 512 && |baseDist| == D_CODES
    ensures forall d :: 0 <= d < 256 ==> IsDistCode(distCode[d], d, d + 1)
    ensures forall c :: 0 <= c < 16 ==> baseDist[c] == BaseD(c)
  {
    hide BaseD, ExtraD, Pow2;
    distCode, baseDist := seq(512, i => 0), seq(D_CODES, i => 0);
    var dist := 0;
    DistanceStep(0);
    for code := 0 to 16
      invariant dist == BaseD(code) && dist <= 256 && |distCode| == 512 && |baseDist| == D_CODES
      invariant forall d :: 0 <= d < dist ==> IsDistCode(distCode[d], d, d + 1)
      invariant forall c :: 0 <= c < code ==> baseDist[c] == BaseD(c)
    {
      DistanceStep(code);
      DistanceRoom(code);
      baseDist := baseDist[code := dist];
      ghost var d0 := dist;
      for n := 0 to Pow2(ExtraD(code))
        invariant dist == d0 + n <= 256 && |distCode| == 512
        invariant forall d :: 0 <= d < dist ==> IsDistCode(distCode[d], d, d + 1)
      {
        distCode := distCode[dist := code];
        dist := dist + 1;
      }
    }
    DistanceRoom(0);
  }

  /** Codes of the other distances, in units of 128. */
  method FillFar(distCode0: seq<nat>, baseDist0: seq<nat>) returns (distCode: seq<nat>, baseDist: seq<nat>)
    requires |distCode0| == 512 && |baseDist0| == D_CODES
    requires forall c :: 0 <= c < 16 ==> baseDist0[c] == BaseD(c)
    ensures |distCode| == 512 && |baseDist| == D_CODES && distCode[..256] == distCode0[..256]
    ensures forall j :: 2 <= j < 256 ==> IsDistCode(distCode[256 + j], 128 * j, 128 * j + 128)
    ensures forall c :: 0 <= c < D_CODES ==> baseDist[c] == BaseD(c)
  {
    hide BaseD, ExtraD, Pow2;
    distCode, baseDist := distCode0, baseDist0;
    var dist := 256 / 128;
    DistanceRoom(0);
    for code := 16 to D_CODES
      invariant 128 * dist == (if code == D_CODES then 32768 else BaseD(code)) && 2 <= dist <= 256
      invariant |distCode| == 512 && |baseDist| == D_CODES && distCode[..256] == distCode0[..256]
      invariant forall j :: 2 <= j < dist ==> IsDistCode(distCode[256 + j], 128 * j, 128 * j + 128)
      invariant forall c :: 0 <= c < code ==> baseDist[c] == BaseD(c)
    {
      DistanceStep(code);
      DistanceRoom(code);
      baseDist := baseDist[code := dist * 128];
      ghost var d0 := dist;
      for n := 0 to Pow2(ExtraD(code) - 7)
        invariant dist == d0 + n <= 256 && |distCode| == 512 && distCode[..256] == distCode0[..256]
        invariant forall j :: 2 <= j < dist ==> IsDistCode(distCode[256 + j], 128 * j, 128 * j + 128)
      {
        distCode := distCode[256 + dist := code];
        dist := dist + 1;
      }
    }
  }

  method StaticInit() returns (t: Static)
    ensures StaticOk(t)
  {
    hide IsDistCode, IsLengthCode;
    var lengthCode, baseLength := FillLengths();
    var near, base := FillNear();
    var distCode, baseDist := FillFar(near, base);
    forall d | 0 <= d < 256 ensures IsDistCode(distCode[d], d, d + 1) {
      assert distCode[d] == distCode[..256][d] == near[..256][d] == near[d];
    }
    t := Static(lengthCode, baseLength, distCode, baseDist);
  }
}
