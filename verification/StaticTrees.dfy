/** The fixed codes of tr_static_init. */
module StaticTrees {
  import opened Bits
  import opened Reverse
  import opened Canonical
  import opened InfTable
  import opened CodeTables
  import opened KraftSums
  import opened BuildTree
  import opened DeflateBlock
  import opened BlockCost
  import opened DynamicTrees

  /** The number of codes of each length in the fixed literal code. */
  predicate StaticCounts(bl: seq<nat>)
  {
    && |bl| == MAXBITS + 1 && bl[7] == 24 && bl[8] == 152 && bl[9] == 112
    && forall b :: 0 <= b <= MAXBITS && b != 7 && b != 8 && b != 9 ==> bl[b] == 0
  }

  /** They take the whole code space. */
  lemma StaticKraft(bl: seq<nat>)
    requires StaticCounts(bl)
    ensures KraftCount(bl, MAXBITS, MAXBITS) == Pow2(MAXBITS)
  {
    KraftNone(bl, MAXBITS, 6);
    KraftTail(bl, 9, MAXBITS);
    BigPowers();
    assert Pow2(8) == 256 && Pow2(7) == 128 && Pow2(6) == 64;
    assert KraftCount(bl, MAXBITS, 7) == 24 * 256;
    assert KraftCount(bl, MAXBITS, 8) == 24 * 256 + 152 * 128;
  }

  /** A run of codes of one length. */
  method StaticRun(lens0: seq<nat>, bl0: seq<nat>, n: nat, len: nat) returns (lens: seq<nat>, bl: seq<nat>)
    requires |lens0| <= n <= 288 && |bl0| == MAXBITS + 1 && 7 <= len <= 9
    requires lens0 == StaticLens()[..|lens0|] && forall i :: |lens0| <= i < n ==> StaticLens()[i] == len
    requires forall l: nat :: 0 <= l <= MAXBITS ==> bl0[l] == |Bucket(StaticLens(), l, |lens0|)|
    ensures lens == StaticLens()[..n] && |bl| == MAXBITS + 1 && bl == bl0[len := bl0[len] + n - |lens0|]
    ensures forall l: nat :: 0 <= l <= MAXBITS ==> bl[l] == |Bucket(StaticLens(), l, n)|
  {
    hide Bucket;
    lens, bl := lens0, bl0;
    while |lens| < n
      invariant |lens0| <= |lens| <= n && lens == StaticLens()[..|lens|] && |bl| == MAXBITS + 1
      invariant bl == bl0[len := bl0[len] + |lens| - |lens0|]
      invariant forall l: nat :: 0 <= l <= MAXBITS ==> bl[l] == |Bucket(StaticLens(), l, |lens|)|
    {
      BucketStep(StaticLens(), |lens|);
      lens := lens + [len];
      bl := bl[len := bl[len] + 1];
    }
  }

  /** The fixed literal and length tree. */
  method StaticLTree() returns (t: Tree)
    ensures t.lens == StaticLens() && TreeOk(t, LENS) && Whole(t)
  {
    hide Bucket, Pow2, SentCode, Sorted, Cum, KraftCount;
    var bl: seq<nat> := BlockCost.Zeros(MAXBITS + 1);
    forall l: nat ensures Bucket(StaticLens(), l, 0) == [] { BucketNone(StaticLens(), l); }
    var lens;
    lens, bl := StaticRun([], bl, 144, 8);
    lens, bl := StaticRun(lens, bl, 256, 9);
    lens, bl := StaticRun(lens, bl, 280, 7);
    lens, bl := StaticRun(lens, bl, 288, 8);
    assert lens == StaticLens();
    assert StaticCounts(bl);
    StaticKraft(bl);
    Complete(lens, bl, MAXBITS);
    var codes := GenCodes(lens, bl);
    t := Tree(lens, codes);
  }

  function Fives(n: nat): (s: seq<nat>)
    ensures |s| == n && forall i :: 0 <= i < n ==> s[i] == 5
  {
    seq(n, i => 5)
  }

  lemma {:induction false} FivesBucket(k: nat, l: nat, n: nat)
    requires n <= k
    ensures |Bucket(Fives(k), l, n)| == if l == 5 then n else 0
  {
    if n > 0 { FivesBucket(k, l, n - 1); }
  }

  lemma {:induction false} FivesFirst(k: nat, l: nat)
    requires l <= 5
    ensures FirstCode(Fives(k), l) == 0
  {
    hide Bucket, Fives;
    if l > 1 {
      FivesFirst(k, l - 1);
      FivesBucket(k, l - 1, k);
    }
  }

  lemma FivesSent(k: nat, s: nat)
    requires s < k
    ensures SentCode(Fives(k), s) == Rev(s, 5)
  {
    FivesFirst(k, 5);
    FivesBucket(k, 5, s);
  }

  lemma FivesFit(bl: seq<nat>)
    requires |bl| == MAXBITS + 1 && bl[5] == 30 && forall b :: 0 <= b <= MAXBITS && b != 5 ==> bl[b] == 0
    ensures Fitting(Sorted(Fives(30)))
  {
    hide Sorted, Bucket, Cum, KraftCount, RemWords, Pow2;
    SortedIs(Fives(30));
    forall l: nat | 1 <= l <= MAXBITS ensures bl[l] == |Bucket(Fives(30), l, 30)| { FivesBucket(30, l, 30); }
    KraftIsRem(Fives(30), bl, MAXBITS);
    RemWordsAll(Sorted(Fives(30)), 0);
    CumZero(Sorted(Fives(30)));
    FivesKraft(bl);
  }

  lemma FivesKraft(bl: seq<nat>)
    requires |bl| == MAXBITS + 1 && bl[5] == 30 && forall b :: 0 <= b <= MAXBITS && b != 5 ==> bl[b] == 0
    ensures KraftCount(bl, MAXBITS, MAXBITS) == 30720 && Pow2(MAXBITS) == 32768
  {
    KraftNone(bl, MAXBITS, 4);
    KraftTail(bl, 5, MAXBITS);
    BigPowers();
    assert Pow2(10) == 1024;
  }

  /** The fixed distance tree. */
  method StaticDTree() returns (t: Tree)
    ensures t.lens == Fives(30) && TreeOk(t, DISTS)
  {
    hide Bucket, Sorted, SentCode, Rev, Cum;
    var codes: seq<nat> := [];
    for n := 0 to 30
      invariant |codes| == n && forall i :: 0 <= i < n ==> codes[i] == Rev(i, 5)
    {
      var c := BiReverse(n, 5);
      codes := codes + [c];
    }
    FivesFit(BlockCost.Zeros(16)[5 := 30]);
    forall s | 0 <= s < 30 ensures codes[s] == SentCode(Fives(30), s) { FivesSent(30, s); }
    t := Tree(Fives(30), codes);
  }
}
