/** From code lengths to codes (gen_codes) and to decoding tables (zlib_inflate_table), and the
    agreement between the two. */
module CodeTables {
  import opened Bits
  import opened Reverse
  import opened Canonical
  import opened InfTable

  predicate LensOk(lens: seq<nat>)
  {
    forall i :: 0 <= i < |lens| ==> lens[i] <= MAXBITS
  }

  // ----- symbols in canonical order

  /** The symbols below n whose code has length l, in order. */
  function Bucket(lens: seq<nat>, l: nat, n: nat): (b: seq<nat>)
    requires n <= |lens|
    ensures forall i :: 0 <= i < |b| ==> b[i] < n && lens[b[i]] == l
  {
    if n == 0 then []
    else if lens[n - 1] == l then Bucket(lens, l, n - 1) + [n - 1]
    else Bucket(lens, l, n - 1)
  }

  /** The symbols with a code of length 1 to l, sorted by length and then by symbol. */
  function Work(lens: seq<nat>, l: nat): (ws: seq<nat>)
    ensures forall i :: 0 <= i < |ws| ==> ws[i] < |lens| && 1 <= lens[ws[i]] <= l
  {
    if l == 0 then [] else Work(lens, l - 1) + Bucket(lens, l, |lens|)
  }

  function LensAt(lens: seq<nat>, ws: seq<nat>): (ls: seq<nat>)
    requires forall i :: 0 <= i < |ws| ==> ws[i] < |lens|
    ensures |ls| == |ws| && forall i :: 0 <= i < |ws| ==> ls[i] == lens[ws[i]]
  {
    seq(|ws|, i requires 0 <= i < |ws| => lens[ws[i]])
  }

  /** The lengths in canonical order. */
  function Sorted(lens: seq<nat>): (ls: seq<nat>)
    ensures |ls| == |Work(lens, MAXBITS)|
  {
    LensAt(lens, Work(lens, MAXBITS))
  }

  lemma {:induction false} WorkSorted(lens: seq<nat>, l: nat)
    requires l <= MAXBITS
    ensures SortedLens(LensAt(lens, Work(lens, l)))
  {
    if l > 0 { WorkSorted(lens, l - 1); }
  }

  lemma {:induction false} WorkPrefix(lens: seq<nat>, a: nat, b: nat)
    requires a <= b
    ensures Work(lens, a) <= Work(lens, b)
  {
    hide Bucket;
    if a < b { WorkPrefix(lens, a, b - 1); }
  }

  /** The number of codes of each length is the number of symbols in its bucket. */
  lemma {:induction false} RemIsBucket(lens: seq<nat>, n: nat, l: nat)
    requires n <= MAXBITS && l >= 1
    ensures Rem(LensAt(lens, Work(lens, n)), 0, l) == if l <= n then |Bucket(lens, l, |lens|)| else 0
  {
    hide Rem, Bucket;
    if n == 0 {
      RemNone(l);
      assert LensAt(lens, Work(lens, 0)) == [];
    } else {
      RemIsBucket(lens, n - 1, l);
      var a, b := Work(lens, n - 1), Bucket(lens, n, |lens|);
      LensJoin(lens, a, b);
      RemAppend(LensAt(lens, a), LensAt(lens, b), 0, n, l);
    }
  }

  lemma RemNone(l: nat)
    ensures Rem([], 0, l) == 0
  {
  }

  lemma LensJoin(lens: seq<nat>, a: seq<nat>, b: seq<nat>)
    requires forall i :: 0 <= i < |a| ==> a[i] < |lens|
    requires forall i :: 0 <= i < |b| ==> b[i] < |lens|
    ensures forall i :: 0 <= i < |a + b| ==> (a + b)[i] < |lens|
    ensures LensAt(lens, a + b) == LensAt(lens, a) + LensAt(lens, b)
  {
    hide LensAt;
  }

  lemma {:induction false} RemAppend(a: seq<nat>, b: seq<nat>, k: nat, c: nat, l: nat)
    requires k <= |a| && forall i :: 0 <= i < |b| ==> b[i] == c
    ensures Rem(a + b, k, l) == Rem(a, k, l) + if l == c then |b| else 0
    decreases |a| - k
  {
    if k == |a| {
      RemSame(a + b, k, c, l);
    } else {
      RemAppend(a, b, k + 1, c, l);
    }
  }

  lemma {:induction false} RemSame(a: seq<nat>, k: nat, c: nat, l: nat)
    requires k <= |a| && forall i :: k <= i < |a| ==> a[i] == c
    ensures Rem(a, k, l) == if l == c then |a| - k else 0
    decreases |a| - k
  {
    if k < |a| { RemSame(a, k + 1, c, l); }
  }

  // ----- the codes

  /** next_code: the first code value of length l. */
  function FirstCode(lens: seq<nat>, l: nat): nat
  {
    if l <= 1 then 0 else 2 * (FirstCode(lens, l - 1) + |Bucket(lens, l - 1, |lens|)|)
  }

  /** The code of symbol s, most significant bit first. */
  function CodeValue(lens: seq<nat>, s: nat): nat
    requires s < |lens|
  {
    FirstCode(lens, lens[s]) + |Bucket(lens, lens[s], s)|
  }

  /** The code of symbol s as it is sent: least significant bit first. */
  function SentCode(lens: seq<nat>, s: nat): nat
    requires s < |lens|
  {
    Rev(CodeValue(lens, s), lens[s])
  }

  lemma {:induction false} CodeDouble(ls: seq<nat>, k: nat, l: nat)
    requires SortedLens(ls) && k <= |ls| && (k > 0 ==> ls[k - 1] <= l)
    ensures CodeAt(ls, k, l + 1) == 2 * CodeAt(ls, k, l)
  {
    if k > 0 { CodeDouble(ls, k - 1, l); }
  }

  lemma {:induction false} CodeAhead(ls: seq<nat>, k: nat, c: nat, l: nat)
    requires SortedLens(ls) && k + c <= |ls| && (k > 0 ==> ls[k - 1] <= l)
    requires forall i :: k <= i < k + c ==> ls[i] == l
    ensures CodeAt(ls, k + c, l) == CodeAt(ls, k, l) + c
    decreases c
  {
    if c > 0 { CodeAhead(ls, k, c - 1, l); }
  }

  lemma WorkAt(lens: seq<nat>, l: nat, i: nat)
    requires 1 <= l && i < |Bucket(lens, l, |lens|)|
    ensures var k := |Work(lens, l - 1)| + i; k < |Work(lens, l)| && Work(lens, l)[k] == Bucket(lens, l, |lens|)[i]
  {
    hide Bucket;
  }

  lemma SortedAt(lens: seq<nat>, l: nat, i: nat)
    requires 1 <= l <= MAXBITS && i < |Bucket(lens, l, |lens|)|
    ensures var k := |Work(lens, l - 1)| + i;
            k < |Sorted(lens)| && Work(lens, MAXBITS)[k] == Bucket(lens, l, |lens|)[i] && Sorted(lens)[k] == l
  {
    hide Bucket, Work;
    WorkAt(lens, l, i);
    WorkPrefix(lens, l, MAXBITS);
  }

  lemma SortedIs(lens: seq<nat>)
    ensures SortedLens(Sorted(lens))
  {
    WorkSorted(lens, MAXBITS);
  }

  lemma WorkLen(lens: seq<nat>, l: nat)
    ensures |Work(lens, 0)| == 0 && |Work(lens, l + 1)| == |Work(lens, l)| + |Bucket(lens, l + 1, |lens|)|
  {
  }

  lemma CodeZero(ls: seq<nat>, l: nat)
    requires SortedLens(ls)
    ensures CodeAt(ls, 0, l) == 0
  {
  }

  lemma BucketLens(lens: seq<nat>, l: nat)
    requires 1 <= l <= MAXBITS
    ensures var k, c := |Work(lens, l - 1)|, |Bucket(lens, l, |lens|)|;
            k + c <= |Sorted(lens)| && forall i :: k <= i < k + c ==> Sorted(lens)[i] == l
  {
    hide Bucket, Work;
    var ls, k, c := Sorted(lens), |Work(lens, l - 1)|, |Bucket(lens, l, |lens|)|;
    WorkLen(lens, l - 1);
    WorkPrefix(lens, l, MAXBITS);
    forall i | k <= i < k + c ensures ls[i] == l { SortedAt(lens, l, i - k); }
  }

  /** A place in the canonical order where all shorter codes have gone before. */
  ghost predicate Boundary(lens: seq<nat>, k: nat, l: nat)
  {
    SortedLens(Sorted(lens)) && k <= |Sorted(lens)| && (k > 0 ==> Sorted(lens)[k - 1] <= l)
  }

  lemma RunStart(lens: seq<nat>, l: nat)
    requires 1 <= l <= MAXBITS
    ensures Boundary(lens, |Work(lens, l - 1)|, l - 1)
  {
    hide Bucket, Work, Sorted;
    SortedIs(lens);
    WorkPrefix(lens, l - 1, MAXBITS);
    LastShorter(lens, l);
  }

  /** next_code agrees with the position of the length's first code. */
  lemma {:induction false} FirstCodeIs(lens: seq<nat>, l: nat)
    requires 1 <= l <= MAXBITS
    ensures (RunStart(lens, l); CodeAt(Sorted(lens), |Work(lens, l - 1)|, l) == FirstCode(lens, l))
  {
    hide Bucket, Work, CodeAt, Sorted;
    RunStart(lens, l);
    var ls := Sorted(lens);
    if l == 1 {
      WorkLen(lens, 0);
      CodeZero(ls, 1);
    } else {
      var k, c := |Work(lens, l - 2)|, |Bucket(lens, l - 1, |lens|)|;
      FirstCodeIs(lens, l - 1);
      RunStart(lens, l - 1);
      BucketLens(lens, l - 1);
      WorkLen(lens, l - 2);
      CodeAhead(ls, k, c, l - 1);
      CodeDouble(ls, k + c, l - 1);
    }
  }

  lemma LastShorter(lens: seq<nat>, l: nat)
    requires 1 <= l <= MAXBITS && |Work(lens, l - 1)| <= |Sorted(lens)|
    ensures var k := |Work(lens, l - 1)|; k > 0 ==> Sorted(lens)[k - 1] <= l - 1
  {
    hide Bucket;
    WorkPrefix(lens, l - 1, MAXBITS);
  }

  lemma {:induction false} RankOf(lens: seq<nat>, s: nat, n: nat)
    requires s < n <= |lens|
    ensures |Bucket(lens, lens[s], s)| < |Bucket(lens, lens[s], n)|
    ensures Bucket(lens, lens[s], n)[|Bucket(lens, lens[s], s)|] == s
  {
    if s + 1 < n { RankOf(lens, s, n - 1); }
  }

  /** The position of symbol s in canonical order. */
  function Position(lens: seq<nat>, s: nat): nat
    requires s < |lens| && lens[s] >= 1
  {
    |Work(lens, lens[s] - 1)| + |Bucket(lens, lens[s], s)|
  }

  /** The code gen_codes assigns is the one the tables are built for. */
  lemma SentIsHuff(lens: seq<nat>, s: nat)
    requires s < |lens| && 1 <= lens[s] <= MAXBITS
    ensures SortedLens(Sorted(lens))
    ensures var k := Position(lens, s);
            && k < |Sorted(lens)| && Work(lens, MAXBITS)[k] == s && Sorted(lens)[k] == lens[s]
            && Huff(Sorted(lens), k) == SentCode(lens, s)
  {
    hide Bucket, Work, Huff, CodeAt, FirstCode, Rev, Sorted;
    var ls, l := Sorted(lens), lens[s];
    var k0, c := |Work(lens, l - 1)|, |Bucket(lens, l, s)|;
    SortedIs(lens);
    RankOf(lens, s, |lens|);
    SortedAt(lens, l, c);
    WorkPrefix(lens, l - 1, MAXBITS);
    LastShorter(lens, l);
    FirstCodeIs(lens, l);
    BucketLens(lens, l);
    CodeAhead(ls, k0, c, l);
    HuffIsCode(ls, k0 + c, l);
  }

  // ----- gen_codes

  predicate CountsOk(lens: seq<nat>, count: seq<nat>)
  {
    |count| == MAXBITS + 1 && forall l: nat :: 1 <= l <= MAXBITS ==> count[l] == |Bucket(lens, l, |lens|)|
  }

  /** Codes of a set of lengths that is not over-subscribed fit their lengths. */
  lemma CodesFit(lens: seq<nat>, l: nat)
    requires 1 <= l <= MAXBITS && Fitting(Sorted(lens))
    ensures FirstCode(lens, l) + |Bucket(lens, l, |lens|)| <= Pow2(l) <= 32768
  {
    hide Bucket, Work, CodeAt, Cum, FirstCode, Pow2, Sorted;
    var ls, k, c := Sorted(lens), |Work(lens, l - 1)|, |Bucket(lens, l, |lens|)|;
    SortedIs(lens);
    WorkPrefix(lens, l - 1, MAXBITS);
    LastShorter(lens, l);
    FirstCodeIs(lens, l);
    BucketLens(lens, l);
    CodeAhead(ls, k, c, l);
    CumIsCode(ls, k + c, l);
    CumMono(ls, k + c, |ls|);
    Pow2Add(l, MAXBITS - l);
    Cancel(CodeAt(ls, k + c, l), Pow2(l), Pow2(MAXBITS - l));
    Pow2Mono(l, MAXBITS);
    PowMax();
  }

  lemma FirstCodeStep(lens: seq<nat>, l: nat)
    ensures FirstCode(lens, 1) == 0
    ensures l > 1 ==> FirstCode(lens, l) == 2 * (FirstCode(lens, l - 1) + |Bucket(lens, l - 1, |lens|)|)
  {
  }

  method NextCodes(lens: seq<nat>, blCount: seq<nat>) returns (next: seq<nat>)
    requires CountsOk(lens, blCount) && blCount[0] == 0 && Fitting(Sorted(lens))
    ensures |next| == MAXBITS + 1 && forall l: nat :: 1 <= l <= MAXBITS ==> next[l] == FirstCode(lens, l)
  {
    hide Bucket, Cum, Sorted, Pow2, FirstCode;
    next := seq(MAXBITS + 1, i => 0);
    var code := 0;
    for bits := 1 to MAXBITS + 1
      invariant |next| == MAXBITS + 1 && (bits > 1 ==> code == FirstCode(lens, bits - 1)) && (bits == 1 ==> code == 0)
      invariant forall l: nat :: 1 <= l < bits ==> next[l] == FirstCode(lens, l)
    {
      CodesFit(lens, bits);
      FirstCodeStep(lens, bits);
      code := (code + blCount[bits - 1]) * 2 % 65536;
      next := next[bits := code];
    }
  }

  lemma BucketStep(lens: seq<nat>, n: nat)
    requires n < |lens|
    ensures |Bucket(lens, lens[n], n + 1)| == |Bucket(lens, lens[n], n)| + 1
    ensures forall l: nat :: l != lens[n] ==> Bucket(lens, l, n + 1) == Bucket(lens, l, n)
  {
  }

  /** gen_codes: every symbol gets the code of its place in canonical order, bit-reversed. */
  method GenCodes(lens: seq<nat>, blCount: seq<nat>) returns (codes: seq<nat>)
    requires LensOk(lens) && CountsOk(lens, blCount) && blCount[0] == 0 && Fitting(Sorted(lens))
    ensures |codes| == |lens| && forall s :: 0 <= s < |lens| && lens[s] != 0 ==> codes[s] == SentCode(lens, s)
  {
    hide Bucket, Cum, Sorted, Pow2, FirstCode, Rev;
    var next := NextCodes(lens, blCount);
    codes := seq(|lens|, i => 0);
    forall l: nat ensures Bucket(lens, l, 0) == [] { BucketNone(lens, l); }
    for n := 0 to |lens|
      invariant |codes| == |lens| && |next| == MAXBITS + 1
      invariant forall l: nat :: 1 <= l <= MAXBITS ==> next[l] == FirstCode(lens, l) + |Bucket(lens, l, n)|
      invariant forall s :: 0 <= s < n && lens[s] != 0 ==> codes[s] == SentCode(lens, s)
    {
      var len := lens[n];
      BucketStep(lens, n);
      if len != 0 {
        var code := BiReverse(next[len], len);
        codes := codes[n := code];
        CodesFit(lens, len);
        RankOf(lens, n, |lens|);
        next := next[len := (next[len] + 1) % 65536];
      }
    }
  }

  lemma BucketNone(lens: seq<nat>, l: nat)
    ensures Bucket(lens, l, 0) == []
  {
  }

  /** Any word starts with the code of at most one symbol. */
  lemma SentPrefixFree(lens: seq<nat>, s: nat, u: nat, w: nat)
    requires Fitting(Sorted(lens)) && s < |lens| && u < |lens| && 1 <= lens[s] <= MAXBITS && 1 <= lens[u] <= MAXBITS
    requires Low(w, lens[s]) == SentCode(lens, s) && Low(w, lens[u]) == SentCode(lens, u)
    ensures s == u
  {
    hide Sorted, SentCode, Huff, Cum, Work, Bucket, Position, Low;
    SentIsHuff(lens, s);
    SentIsHuff(lens, u);
    var a, b := Position(lens, s), Position(lens, u);
    if a < b {
      PrefixFree(Sorted(lens), a, b, w);
    } else if b < a {
      PrefixFree(Sorted(lens), b, a, w);
    }
  }

  // ----- sorting the symbols

  /** Slot i of length l's run in the sorted order. */
  ghost predicate RunPlaced(lens: seq<nat>, work: seq<nat>, n: nat, l: nat)
    requires n <= |lens| && 1 <= l <= MAXBITS && |work| == |Work(lens, MAXBITS)|
  {
    var k := |Work(lens, l - 1)|;
    k + |Bucket(lens, l, n)| <= |work| && work[k..k + |Bucket(lens, l, n)|] == Bucket(lens, l, n)
  }

  ghost predicate AllRuns(lens: seq<nat>, work: seq<nat>, n: nat)
    requires n <= |lens|
  {
    |work| == |Work(lens, MAXBITS)| && forall l: nat :: 1 <= l <= MAXBITS ==> RunPlaced(lens, work, n, l)
  }

  lemma {:induction false} BucketGrows(lens: seq<nat>, l: nat, n: nat, m: nat)
    requires n <= m <= |lens|
    ensures Bucket(lens, l, n) <= Bucket(lens, l, m)
  {
    if n < m { BucketGrows(lens, l, n, m - 1); }
  }

  lemma RunBounds(lens: seq<nat>, l: nat, n: nat)
    requires n <= |lens| && 1 <= l <= MAXBITS
    ensures |Work(lens, l - 1)| + |Bucket(lens, l, n)| <= |Work(lens, l)| <= |Work(lens, MAXBITS)|
  {
    hide Work, Bucket;
    WorkLen(lens, l - 1);
    BucketGrows(lens, l, n, |lens|);
    WorkPrefix(lens, l, MAXBITS);
  }

  lemma PlaceOne(lens: seq<nat>, work: seq<nat>, n: nat, l: nat)
    requires n < |lens| && 1 <= l <= MAXBITS && 1 <= lens[n] <= MAXBITS && |work| == |Work(lens, MAXBITS)|
    requires RunPlaced(lens, work, n, l)
    ensures var p := Position(lens, n); p < |work| && RunPlaced(lens, work[p := n], n + 1, l)
  {
    hide Work, Bucket;
    var p := Position(lens, n);
    RunBounds(lens, lens[n], n + 1);
    RunBounds(lens, l, n + 1);
    BucketStep(lens, n);
    if l == lens[n] {
      BucketLast(lens, n);
    } else if l < lens[n] {
      WorkPrefix(lens, l, lens[n] - 1);
    } else {
      WorkPrefix(lens, lens[n], l - 1);
    }
  }

  lemma BucketLast(lens: seq<nat>, n: nat)
    requires n < |lens|
    ensures Bucket(lens, lens[n], n + 1) == Bucket(lens, lens[n], n) + [n]
  {
  }

  lemma {:induction false} AllPlaced(lens: seq<nat>, work: seq<nat>, l: nat)
    requires l <= MAXBITS && AllRuns(lens, work, |lens|)
    ensures |Work(lens, l)| <= |work| && work[..|Work(lens, l)|] == Work(lens, l)
  {
    hide Bucket;
    if l > 0 {
      AllPlaced(lens, work, l - 1);
      var k, c := |Work(lens, l - 1)|, |Bucket(lens, l, |lens|)|;
      assert RunPlaced(lens, work, |lens|, l);
      assert work[..k + c] == work[..k] + work[k..k + c];
    }
  }

  method Offsets(lens: seq<nat>, count: seq<nat>) returns (offs: seq<nat>)
    requires CountsOk(lens, count)
    ensures |offs| == MAXBITS + 1 && forall l: nat :: 1 <= l <= MAXBITS ==> offs[l] == |Work(lens, l - 1)|
  {
    hide Bucket, Work;
    offs := seq(MAXBITS + 1, i => 0);
    WorkLen(lens, 0);
    for len := 1 to MAXBITS
      invariant |offs| == MAXBITS + 1
      invariant forall l: nat :: 1 <= l <= len ==> offs[l] == |Work(lens, l - 1)|
    {
      WorkLen(lens, len - 1);
      offs := offs[len + 1 := offs[len] + count[len]];
    }
  }

  /** The counting sort: by length, and by symbol within each length. */
  method SortSymbols(lens: seq<nat>, count: seq<nat>) returns (work: seq<nat>)
    requires LensOk(lens) && CountsOk(lens, count)
    ensures work == Work(lens, MAXBITS)
  {
    hide Bucket, Work, AllRuns;
    var offs := Offsets(lens, count);
    WorkLen(lens, MAXBITS - 1);
    work := seq(offs[MAXBITS] + count[MAXBITS], i => 0);
    RunsNone(lens, work);
    forall l: nat ensures Bucket(lens, l, 0) == [] { BucketNone(lens, l); }
    for sym := 0 to |lens|
      invariant AllRuns(lens, work, sym) && |offs| == MAXBITS + 1
      invariant forall l: nat :: 1 <= l <= MAXBITS ==> offs[l] == |Work(lens, l - 1)| + |Bucket(lens, l, sym)|
    {
      BucketStep(lens, sym);
      RunsNext(lens, work, sym);
      if lens[sym] != 0 {
        work := work[offs[lens[sym]] := sym];
        offs := offs[lens[sym] := offs[lens[sym]] + 1];
      }
    }
    AllPlaced(lens, work, MAXBITS);
    RunsSize(lens, work);
    assert work[..|work|] == work;
  }

  lemma RunsSize(lens: seq<nat>, work: seq<nat>)
    requires AllRuns(lens, work, |lens|)
    ensures |work| == |Work(lens, MAXBITS)|
  {
  }

  lemma RunsNone(lens: seq<nat>, work: seq<nat>)
    requires |work| == |Work(lens, MAXBITS)|
    ensures AllRuns(lens, work, 0)
  {
    hide Work;
    forall l: nat | 1 <= l <= MAXBITS ensures RunPlaced(lens, work, 0, l) { RunBounds(lens, l, 0); }
  }

  lemma RunsNext(lens: seq<nat>, work: seq<nat>, n: nat)
    requires n < |lens| && LensOk(lens) && AllRuns(lens, work, n)
    ensures lens[n] != 0 ==> Position(lens, n) < |work| && AllRuns(lens, work[Position(lens, n) := n], n + 1)
    ensures lens[n] == 0 ==> AllRuns(lens, work, n + 1)
  {
    hide Work, Bucket, RunPlaced;
    var m := n + 1;
    if lens[n] != 0 {
      PlaceOne(lens, work, n, 1);
      var work' := work[Position(lens, n) := n];
      forall l: nat | 1 <= l <= MAXBITS ensures RunPlaced(lens, work', m, l) { PlaceOne(lens, work, n, l); }
    } else {
      forall l: nat | 1 <= l <= MAXBITS ensures RunPlaced(lens, work, m, l) { RunSkip(lens, work, n, l); }
    }
  }

  lemma RunSkip(lens: seq<nat>, work: seq<nat>, n: nat, l: nat)
    requires n < |lens| && lens[n] == 0 && 1 <= l <= MAXBITS && |work| == |Work(lens, MAXBITS)|
    requires RunPlaced(lens, work, n, l)
    ensures RunPlaced(lens, work, n + 1, l)
  {
    hide Work;
  }

  // ----- zlib_inflate_table

  datatype CodeType = CODES | LENS | DISTS

  function SymbolLimit(kind: CodeType): nat
  {
    match kind case CODES => 19 case LENS => 288 case DISTS => 32
  }

  /** The operations that can follow a code of each kind, with the values they may carry. */
  predicate ActionOk(kind: CodeType, op: nat, val: nat)
  {
    || op == 64
    || (match kind
        case CODES => op == 0 && val < 19
        case LENS => (op == 0 && val < 256) || (16 <= op <= 21 && 3 <= val && val + Pow2(op - 16) - 1 <= 258)
                     || op == 96 || op == 196 || op == 201
        case DISTS => 16 <= op <= 29 && 1 <= val && val + Pow2(op - 16) - 1 <= 32768)
  }

  /** The base and extra bits of length code 257 + i, from the tables lbase and lext. */
  function LengthAction(i: nat): (x: Action)
    requires i < 31
    ensures x.op >= 16 && ActionOk(LENS, x.op, x.val)
  {
    match i
    case 0 => Action(16, 3) case 1 => Action(16, 4) case 2 => Action(16, 5) case 3 => Action(16, 6)
    case 4 => Action(16, 7) case 5 => Action(16, 8) case 6 => Action(16, 9) case 7 => Action(16, 10)
    case 8 => Action(17, 11) case 9 => Action(17, 13) case 10 => Action(17, 15) case 11 => Action(17, 17)
    case 12 => Action(18, 19) case 13 => Action(18, 23) case 14 => Action(18, 27) case 15 => Action(18, 31)
    case 16 => Action(19, 35) case 17 => Action(19, 43) case 18 => Action(19, 51) case 19 => Action(19, 59)
    case 20 => Action(20, 67) case 21 => Action(20, 83) case 22 => Action(20, 99) case 23 => Action(20, 115)
    case 24 => Action(21, 131) case 25 => Action(21, 163) case 26 => Action(21, 195) case 27 => Action(21, 227)
    case 28 => Action(16, 258) case 29 => Action(201, 0) case _ => Action(196, 0)
  }

  lemma ExtraPowers()
    ensures Pow2(0) == 1 && Pow2(1) == 2 && Pow2(2) == 4 && Pow2(3) == 8 && Pow2(4) == 16 && Pow2(5) == 32
    ensures Pow2(6) == 64 && Pow2(7) == 128 && Pow2(8) == 256 && Pow2(9) == 512 && Pow2(10) == 1024
    ensures Pow2(11) == 2048 && Pow2(12) == 4096 && Pow2(13) == 8192
  {
    assert Pow2(3) == 8;
    assert Pow2(6) == 64;
    assert Pow2(9) == 512;
  }

  /** The base and extra bits of distance code i, from the tables dbase and dext. */
  function DistanceAction(i: nat): (x: Action)
    requires i < 32
    ensures x.op >= 16 && ActionOk(DISTS, x.op, x.val)
  {
    ExtraPowers();
    match i
    case 0 => Action(16, 1) case 1 => Action(16, 2) case 2 => Action(16, 3) case 3 => Action(16, 4)
    case 4 => Action(17, 5) case 5 => Action(17, 7) case 6 => Action(18, 9) case 7 => Action(18, 13)
    case 8 => Action(19, 17) case 9 => Action(19, 25) case 10 => Action(20, 33) case 11 => Action(20, 49)
    case 12 => Action(21, 65) case 13 => Action(21, 97) case 14 => Action(22, 129) case 15 => Action(22, 193)
    case 16 => Action(23, 257) case 17 => Action(23, 385) case 18 => Action(24, 513) case 19 => Action(24, 769)
    case 20 => Action(25, 1025) case 21 => Action(25, 1537) case 22 => Action(26, 2049) case 23 => Action(26, 3073)
    case 24 => Action(27, 4097) case 25 => Action(27, 6145) case 26 => Action(28, 8193) case 27 => Action(28, 12289)
    case 28 => Action(29, 16385) case 29 => Action(29, 24577) case 30 => Action(64, 0) case _ => Action(64, 0)
  }

  /** What decoding symbol s means: a literal, a length or distance base with extra bits, the end of
      the block, or an invalid code. */
  function ActionFor(kind: CodeType, s: nat): (x: Action)
    requires s < SymbolLimit(kind)
    ensures !(1 <= x.op < 16) && ActionOk(kind, x.op, x.val)
  {
    match kind
    case CODES => Action(0, s)
    case LENS =>
      if s < 256 then Action(0, s)
      else if s == 256 then Action(32 + 64, 0)
      else LengthAction(s - 257)
    case DISTS => DistanceAction(s)
  }

  function Actions(kind: CodeType, ws: seq<nat>): (xs: seq<Action>)
    requires forall i :: 0 <= i < |ws| ==> ws[i] < SymbolLimit(kind)
    ensures |xs| == |ws| && forall i :: 0 <= i < |ws| ==> xs[i] == ActionFor(kind, ws[i])
  {
    seq(|ws|, i requires 0 <= i < |ws| => ActionFor(kind, ws[i]))
  }

  method CountLengths(lens: seq<nat>) returns (count: seq<nat>)
    requires LensOk(lens)
    ensures CountsOk(lens, count)
  {
    hide Bucket;
    count := seq(MAXBITS + 1, i => 0);
    forall l: nat ensures Bucket(lens, l, 0) == [] { BucketNone(lens, l); }
    for sym := 0 to |lens|
      invariant |count| == MAXBITS + 1
      invariant forall l: nat :: 0 <= l <= MAXBITS ==> count[l] == |Bucket(lens, l, sym)|
    {
      BucketStep(lens, sym);
      count := count[lens[sym] := count[lens[sym]] + 1];
    }
  }

  lemma CountsAreRem(lens: seq<nat>, count: seq<nat>)
    requires CountsOk(lens, count)
    ensures forall l: nat :: 1 <= l <= MAXBITS ==> count[l] == Rem(Sorted(lens), 0, l)
  {
    hide Bucket, Rem;
    forall l: nat | 1 <= l <= MAXBITS ensures count[l] == Rem(Sorted(lens), 0, l) { RemIsBucket(lens, MAXBITS, l); }
  }

  /** The longest and shortest lengths in use. */
  method Extremes(ghost ls: seq<nat>, count: seq<nat>) returns (min: nat, max: nat)
    requires SortedLens(ls) && |count| == MAXBITS + 1
    requires forall l: nat :: 1 <= l <= MAXBITS ==> count[l] == Rem(ls, 0, l)
    ensures ls == [] <==> max == 0
    ensures ls != [] ==> max == ls[|ls| - 1] && min == ls[0]
  {
    hide Rem;
    forall l: nat ensures Rem(ls, 0, l) > 0 <==> exists m :: 0 <= m < |ls| && ls[m] == l { RemLast(ls, 0, l); }
    if ls != [] {
      assert Rem(ls, 0, ls[|ls| - 1]) > 0 && Rem(ls, 0, ls[0]) > 0;
      assert count[ls[|ls| - 1]] > 0 && count[ls[0]] > 0;
    }
    max, min := MAXBITS, 1;
    while max >= 1 && count[max] == 0
      invariant 0 <= max <= MAXBITS && forall l: nat :: max < l <= MAXBITS ==> count[l] == 0
    {
      max := max - 1;
    }
    if max == 0 { return; }
    while min <= MAXBITS && count[min] == 0
      invariant 1 <= min <= MAXBITS + 1 && forall l: nat :: 1 <= l < min ==> count[l] == 0
    {
      min := min + 1;
    }
  }

  /** The check for over-subscribed sets; otherwise what is left of the code space. */
  method CodeSpace(ghost ls: seq<nat>, count: seq<nat>) returns (over: bool, left: int)
    requires SortedLens(ls) && |count| == MAXBITS + 1
    requires forall l: nat :: 1 <= l <= MAXBITS ==> count[l] == Rem(ls, 0, l)
    ensures over <==> Cum(ls, |ls|) > Pow2(MAXBITS)
    ensures !over ==> left == Pow2(MAXBITS) - Cum(ls, |ls|)
  {
    hide Rem, RemWords, Cum, Pow2;
    left := 1;
    RemWordsAll(ls, 0);
    RemWordsNone(ls, 0, 0);
    CumZero(ls);
    for len := 1 to MAXBITS + 1
      invariant left >= 0 && left * Pow2(MAXBITS - (len - 1)) == Pow2(MAXBITS) - RemWords(ls, 0, len - 1)
    {
      RemWordsNext(ls, 0, len);
      HalvePow(left, MAXBITS - (len - 1));
      Subtract(left * 2, count[len], Pow2(MAXBITS - len));
      left := left * 2 - count[len];
      if left < 0 {
        NegativeProduct(left, Pow2(MAXBITS - len));
        RemWordsMono(ls, 0, len, MAXBITS);
        return true, left;
      }
    }
    OnePow();
    return false, left;
  }

  lemma CumZero(ls: seq<nat>)
    requires SortedLens(ls)
    ensures Cum(ls, 0) == 0
  {
  }

  lemma OnePow()
    ensures Pow2(0) == 1
  {
  }

  lemma NegativeProduct(a: int, q: nat)
    requires a < 0 && q > 0
    ensures a * q < 0
  {
  }

  lemma {:induction false} RemWordsMono(ls: seq<nat>, k: nat, a: nat, b: nat)
    requires k <= |ls| && SortedLens(ls) && a <= b
    ensures RemWords(ls, k, a) <= RemWords(ls, k, b)
    decreases |ls| - k
  {
    if k < |ls| { RemWordsMono(ls, k + 1, a, b); }
  }

  /** Every word that starts with the code of a symbol is looked up to that symbol's action, using
      up exactly the bits of the code. */
  ghost predicate Decodes(table: seq<Code>, root: nat, kind: CodeType, lens: seq<nat>)
    requires |lens| <= SymbolLimit(kind)
  {
    forall s, w: nat :: 0 <= s < |lens| && lens[s] != 0 && Low(w, lens[s]) == SentCode(lens, s) ==>
      var x := ActionFor(kind, s);
      Lookup(table, root, w) == Found(Code(x.op, if lens[s] <= root then lens[s] else lens[s] - root, x.val), lens[s])
  }

  lemma GoodDecodes(t: seq<Code>, root: nat, kind: CodeType, lens: seq<nat>, xs: seq<Action>, off: nat, curr: nat,
                    low: int)
    requires |lens| <= SymbolLimit(kind) && LensOk(lens) && SortedLens(Sorted(lens))
    requires xs == Actions(kind, Work(lens, MAXBITS))
    requires AllGood(t, root, Sorted(lens), xs, |Sorted(lens)|, off, curr, low)
    ensures Decodes(t, root, kind, lens)
  {
    hide Lookup, Low, Huff, SentCode, Sorted, Good, Work, ActionFor;
    var ls := Sorted(lens);
    forall s, w: nat | 0 <= s < |lens| && lens[s] != 0 && Low(w, lens[s]) == SentCode(lens, s)
      ensures var x := ActionFor(kind, s);
        Lookup(t, root, w) == Found(Code(x.op, if lens[s] <= root then lens[s] else lens[s] - root, x.val), lens[s])
    {
      SentIsHuff(lens, s);
      var k := Position(lens, s);
      assert Matches(ls, k, w);
      GoodLookup(t, root, lens[s], xs[k], w, off, curr, low);
    }
  }

  const Invalid := Code(64, 1, 0)

  // ----- what the decoders rely on

  /** Where word w leads: a final entry of the root table, or one of a linked table. */
  predicate EntryOk(t: seq<Code>, root: nat, kind: CodeType, w: nat)
  {
    var i := Low(w, root);
    i < |t| &&
    if IsLink(t[i]) then
      var j := t[i].val + Low(Shr(w, root), t[i].op);
      && t[i].bits == root
      && j < |t| && !IsLink(t[j]) && 1 <= t[j].bits && root + t[j].bits <= MAXBITS
      && ActionOk(kind, t[j].op, t[j].val)
    else 1 <= t[i].bits <= root && ActionOk(kind, t[i].op, t[i].val)
  }

  /** The bits after a code do not influence its lookup. */
  predicate Settled(t: seq<Code>, root: nat, v: nat, w: nat)
  {
    var f := Lookup(t, root, v);
    f.Found? && Low(v, f.used) == Low(w, f.used) ==> Lookup(t, root, w) == f
  }

  ghost predicate TableOk(t: seq<Code>, root: nat, kind: CodeType)
  {
    && 1 <= root <= MAXBITS
    && (forall w: nat :: EntryOk(t, root, kind, w))
    && (forall v: nat, w: nat :: Settled(t, root, v, w))
  }

  lemma GoodEntry(t: seq<Code>, root: nat, kind: CodeType, len: nat, x: Action, w: nat, off: nat, curr: nat, low: int)
    requires Good(t, root, len, x, w, off, curr, low) && 1 <= len <= MAXBITS
    requires !(1 <= x.op < 16) && ActionOk(kind, x.op, x.val)
    ensures EntryOk(t, root, kind, w)
  {
    hide Low, Shr, Pow2, ActionOk;
  }

  /** A complete code leaves no word without an entry. */
  lemma CompleteTable(t: seq<Code>, root: nat, kind: CodeType, ls: seq<nat>, xs: seq<Action>, off: nat, curr: nat,
                      low: int)
    requires SortedLens(ls) && Cum(ls, |ls|) == Pow2(MAXBITS) && |xs| == |ls| && 1 <= root <= MAXBITS
    requires forall j :: 0 <= j < |xs| ==> !(1 <= xs[j].op < 16) && ActionOk(kind, xs[j].op, xs[j].val)
    requires AllGood(t, root, ls, xs, |ls|, off, curr, low)
    ensures TableOk(t, root, kind)
  {
    hide Cum, Pow2, Good, EntryOk, Low, Lookup, ActionOk, Matches, Settled;
    forall w: nat ensures EntryOk(t, root, kind, w) {
      RevBound(w, MAXBITS);
      var j := SomeInterval(ls, |ls|, w);
      GoodEntry(t, root, kind, ls[j], xs[j], w, off, curr, low);
    }
    forall v: nat, w: nat ensures Settled(t, root, v, w) {
      RevBound(v, MAXBITS);
      var j := SomeInterval(ls, |ls|, v);
      GoodSettled(t, root, ls, xs, j, v, w, off, curr, low);
    }
  }

  lemma GoodSettled(t: seq<Code>, root: nat, ls: seq<nat>, xs: seq<Action>, j: nat, v: nat, w: nat, off: nat,
                    curr: nat, low: int)
    requires SortedLens(ls) && |xs| == |ls| && j < |ls| && Matches(ls, j, v) && !(1 <= xs[j].op < 16)
    requires AllGood(t, root, ls, xs, |ls|, off, curr, low)
    ensures Settled(t, root, v, w)
  {
    hide Good, Low, Lookup, Huff;
    GoodLookup(t, root, ls[j], xs[j], v, off, curr, low);
    if Low(v, ls[j]) == Low(w, ls[j]) {
      GoodLookup(t, root, ls[j], xs[j], w, off, curr, low);
    }
  }

  /** Two entries for the two values of one bit. */
  lemma TwoEntryTable(t: seq<Code>, kind: CodeType)
    requires |t| == 2 && t[0].bits == 1 && t[1].bits == 1 && !IsLink(t[0]) && !IsLink(t[1])
    requires ActionOk(kind, t[0].op, t[0].val) && ActionOk(kind, t[1].op, t[1].val)
    ensures TableOk(t, 1, kind)
  {
    hide ActionOk;
    forall w: nat ensures EntryOk(t, 1, kind, w) { LowOne(w); }
    forall v: nat, w: nat ensures Settled(t, 1, v, w) { LowOne(v); LowOne(w); }
  }

  /** A set of lengths the code accepts: complete, or a lone one-bit code that is not a code-length code. */
  predicate Acceptable(kind: CodeType, ls: seq<nat>)
    requires SortedLens(ls)
  {
    ls == [] || Cum(ls, |ls|) == Pow2(MAXBITS) || (Cum(ls, |ls|) < Pow2(MAXBITS) && kind != CODES && ls[|ls| - 1] == 1)
  }

  lemma NoCodes(kind: CodeType, lens: seq<nat>, t: seq<Code>, root: nat)
    requires LensOk(lens) && |lens| <= SymbolLimit(kind) && Sorted(lens) == []
    ensures Decodes(t, root, kind, lens)
  {
    hide Lookup, SentCode, Low, Sorted;
    forall s | 0 <= s < |lens| ensures lens[s] == 0 {
      if lens[s] != 0 { SentIsHuff(lens, s); }
    }
  }

  lemma FullHuff(ls: seq<nat>)
    requires SortedLens(ls) && Cum(ls, |ls|) == Pow2(MAXBITS)
    ensures Huff(ls, |ls|) == 0
  {
    hide Cum, Pow2;
    RevZeros(1, MAXBITS, 0);
  }

  lemma TwoOnes(ls: seq<nat>)
    requires SortedLens(ls) && |ls| >= 2 && ls[|ls| - 1] == 1
    ensures Cum(ls, |ls|) >= Pow2(MAXBITS)
  {
    hide Pow2;
    assert 1 <= ls[0] <= ls[|ls| - 1] && 1 <= ls[1] <= ls[|ls| - 1];
    CumMono(ls, 2, |ls|);
    assert Cum(ls, 2) == Cum(ls, 1) + Pow2(14) == Cum(ls, 0) + Pow2(14) + Pow2(14);
    TwiceHalf();
  }

  lemma TwiceHalf()
    ensures Pow2(14) + Pow2(14) == Pow2(15)
  {
  }

  lemma LoneCode(ls: seq<nat>)
    requires SortedLens(ls) && ls != [] && ls[|ls| - 1] == 1 && Cum(ls, |ls|) < Pow2(MAXBITS)
    ensures ls == [1] && Huff(ls, 0) == 0 && Huff(ls, 1) == 1
  {
    hide Rev;
    assert ls[0] == 1;
    if |ls| > 1 { TwoOnes(ls); }
    HuffIsCode(ls, 0, 1);
    HuffIsCode(ls, 1, 1);
    RevOne(0);
    RevOne(1);
  }

  lemma PadLone(t: seq<Code>, kind: CodeType, lens: seq<nat>)
    requires LensOk(lens) && |lens| <= SymbolLimit(kind) && Sorted(lens) == [1] && |t| == 2 && Huff([1], 0) == 0
    requires Decodes(t, 1, kind, lens) && !IsLink(t[0])
    ensures Decodes(t[1 := Invalid], 1, kind, lens)
  {
    hide SentCode, Sorted, Huff, ActionFor, Low, Decodes;
    var t' := t[1 := Invalid];
    forall s, w: nat | 0 <= s < |lens| && lens[s] != 0 && Low(w, lens[s]) == SentCode(lens, s)
      ensures var x := ActionFor(kind, s);
        Lookup(t', 1, w) == Found(Code(x.op, if lens[s] <= 1 then lens[s] else lens[s] - 1, x.val), lens[s])
    {
      SentIsHuff(lens, s);
      assert lens[s] == 1 && Low(w, 1) == 0;
      DecodesOne(t, 1, kind, lens, s, w);
    }
    DecodesAll(t', 1, kind, lens);
  }

  lemma LoneEntry(t: seq<Code>, xs: seq<Action>, off: nat, curr: nat, low: int)
    requires |xs| == 1 && SortedLens([1]) && Huff([1], 0) == 0 && !(1 <= xs[0].op < 16)
    requires AllGood(t, 1, [1], xs, 1, off, curr, low)
    ensures |t| > 0 && t[0] == Code(xs[0].op, 1, xs[0].val)
  {
    hide Huff;
    assert Low(0, 1) == 0;
    assert Matches([1], 0, 0);
  }

  lemma DecodesOne(t: seq<Code>, root: nat, kind: CodeType, lens: seq<nat>, s: nat, w: nat)
    requires |lens| <= SymbolLimit(kind) && Decodes(t, root, kind, lens)
    requires s < |lens| && lens[s] != 0 && Low(w, lens[s]) == SentCode(lens, s)
    ensures var x := ActionFor(kind, s);
      Lookup(t, root, w) == Found(Code(x.op, if lens[s] <= root then lens[s] else lens[s] - root, x.val), lens[s])
  {
    hide Low, SentCode, ActionFor, Lookup;
  }

  lemma DecodesAll(t: seq<Code>, root: nat, kind: CodeType, lens: seq<nat>)
    requires |lens| <= SymbolLimit(kind)
    requires forall s, w: nat :: 0 <= s < |lens| && lens[s] != 0 && Low(w, lens[s]) == SentCode(lens, s) ==>
      var x := ActionFor(kind, s);
      Lookup(t, root, w) == Found(Code(x.op, if lens[s] <= root then lens[s] else lens[s] - root, x.val), lens[s])
    ensures Decodes(t, root, kind, lens)
  {
    hide Low, SentCode, ActionFor, Lookup;
  }

  /** How many symbols below n have a code of length 1 to l. */
  function Coded(lens: seq<nat>, l: nat, n: nat): nat
    requires n <= |lens|
  {
    if l == 0 then 0 else Coded(lens, l - 1, n) + |Bucket(lens, l, n)|
  }

  lemma {:induction false} CodedStep(lens: seq<nat>, l: nat, n: nat)
    requires n < |lens|
    ensures Coded(lens, l, n + 1) == Coded(lens, l, n) + if 1 <= lens[n] <= l then 1 else 0
  {
    if l > 0 { CodedStep(lens, l - 1, n); }
  }

  lemma {:induction false} CodedBound(lens: seq<nat>, l: nat, n: nat)
    requires n <= |lens|
    ensures Coded(lens, l, n) <= n
    decreases n
  {
    if n == 0 {
      CodedNone(lens, l);
    } else {
      CodedBound(lens, l, n - 1);
      CodedStep(lens, l, n - 1);
    }
  }

  lemma {:induction false} CodedNone(lens: seq<nat>, l: nat)
    ensures Coded(lens, l, 0) == 0
  {
    if l > 0 { CodedNone(lens, l - 1); }
  }

  lemma {:induction false} WorkCoded(lens: seq<nat>, l: nat)
    ensures |Work(lens, l)| == Coded(lens, l, |lens|)
  {
    hide Bucket;
    if l > 0 { WorkCoded(lens, l - 1); }
  }

  lemma WorkSize(lens: seq<nat>)
    ensures |Sorted(lens)| <= |lens|
  {
    WorkCoded(lens, MAXBITS);
    CodedBound(lens, MAXBITS, |lens|);
  }

  lemma SpaceMono(root: nat, a: nat, b: nat)
    requires root <= MAXBITS && a <= b
    ensures TableSpace(root, a) <= TableSpace(root, b)
  {
  }

  /** A complete code whose shortest codes have l bits has 2^l codes or more. */
  lemma ManyCodes(ls: seq<nat>)
    requires ls != [] && SortedLens(ls) && Cum(ls, |ls|) == Pow2(MAXBITS)
    ensures Pow2(ls[0]) <= |ls|
  {
    hide Cum, Pow2;
    CumZero(ls);
    CumSlow(ls, 0, |ls|, ls[0]);
    Pow2Add(ls[0], MAXBITS - ls[0]);
    Cancel(Pow2(ls[0]), |ls|, Pow2(MAXBITS - ls[0]));
  }

  /** Fills the tables for a set of lengths that was found acceptable. */
  method BuildTables(kind: CodeType, lens: seq<nat>, count: seq<nat>, root: nat, left: int)
    returns (ret: int, table: seq<Code>)
    requires LensOk(lens) && |lens| <= SymbolLimit(kind) && CountsOk(lens, count)
    requires var ls := Sorted(lens);
             && SortedLens(ls) && ls != [] && 1 <= root && ls[0] <= root <= ls[|ls| - 1]
             && 0 <= left == Pow2(MAXBITS) - Cum(ls, |ls|) && (left > 0 ==> ls[|ls| - 1] == 1)
    ensures ret == 0 || ret == 1
    ensures ret == 1 ==> kind == LENS && TableSpace(root, |lens|) >= ENOUGH - MAXD
    ensures ret == 0 ==> Pow2(root) <= |table| <= TableSpace(root, |lens|) && Decodes(table, root, kind, lens)
    ensures ret == 0 && Sorted(lens)[|Sorted(lens)| - 1] <= root ==> |table| == Pow2(root)
    ensures ret == 1 && Sorted(lens)[|Sorted(lens)| - 1] <= root ==> Pow2(root) >= ENOUGH - MAXD
    ensures ret == 0 && left > 0 ==> root == 1 && |table| == 2 && table[1] == Invalid
    ensures ret == 0 ==> TableOk(table, root, kind)
  {
    hide Bucket, Work, Rem, Cum, Decodes, Huff, AllGood, Pow2, TableOk, ActionOk;
    CountsAreRem(lens, count);
    WorkSize(lens);
    SpaceMono(root, |Sorted(lens)|, |lens|);
    var work := SortSymbols(lens, count);
    var ls, xs := LensAt(lens, work), Actions(kind, work);
    var ok, t, huff := FillTables(ls, xs, count, root, kind == LENS);
    if !ok { return 1, t; }
    ghost var off, curr, low :| AllGood(t, root, ls, xs, |ls|, off, curr, low);
    GoodDecodes(t, root, kind, lens, xs, off, curr, low);
    table := t;
    if left == 0 {
      FullHuff(ls);
      CompleteTable(t, root, kind, ls, xs, off, curr, low);
    } else {
      LoneCode(ls);
      LoneEntry(t, xs, off, curr, low);
      TwoEntries();
      PadLone(t, kind, lens);
      InvalidOk(kind);
      TwoEntryTable(t[1 := Invalid], kind);
    }
    if huff != 0 {
      // the only incomplete set accepted is a lone one-bit code, so one entry is left to fill
      table := t[huff := Invalid];
    }
    ret := 0;
  }

  lemma InvalidOk(kind: CodeType)
    ensures ActionOk(kind, Invalid.op, Invalid.val) && !IsLink(Invalid)
  {
  }

  lemma TwoEntries()
    ensures Pow2(1) == 2
  {
  }

  /** No length is above the last one in canonical order. */
  lemma LongestLast(lens: seq<nat>)
    requires LensOk(lens) && SortedLens(Sorted(lens))
    ensures var ls := Sorted(lens);
            forall s :: 0 <= s < |lens| ==> lens[s] <= if ls == [] then 0 else ls[|ls| - 1]
  {
    hide Bucket, Work, SentCode, Huff, Sorted, Position;
    forall s | 0 <= s < |lens| ensures lens[s] <= if Sorted(lens) == [] then 0 else Sorted(lens)[|Sorted(lens)| - 1] {
      if lens[s] != 0 { SentIsHuff(lens, s); }
    }
  }

  lemma {:induction false} BucketRank(lens: seq<nat>, l: nat, n: nat, i: nat)
    requires n <= |lens| && i < |Bucket(lens, l, n)|
    ensures |Bucket(lens, l, Bucket(lens, l, n)[i])| == i
    decreases n
  {
    if n > 0 {
      if lens[n - 1] != l || i < |Bucket(lens, l, n - 1)| { BucketRank(lens, l, n - 1, i); }
    }
  }

  /** Every place in canonical order belongs to the symbol found there. */
  lemma {:induction false} WorkPosition(lens: seq<nat>, l: nat, k: nat)
    requires k < |Work(lens, l)|
    ensures Position(lens, Work(lens, l)[k]) == k
  {
    hide Bucket;
    if k < |Work(lens, l - 1)| {
      WorkPosition(lens, l - 1, k);
    } else {
      BucketRank(lens, l, |lens|, k - |Work(lens, l - 1)|);
    }
  }

  /** With a complete code every word starts with the code of some symbol. */
  lemma SomeSymbol(lens: seq<nat>, w: nat) returns (s: nat)
    requires LensOk(lens) && SortedLens(Sorted(lens)) && Cum(Sorted(lens), |Sorted(lens)|) == Pow2(MAXBITS)
    ensures s < |lens| && lens[s] != 0 && Low(w, lens[s]) == SentCode(lens, s)
  {
    hide Bucket, Work, SentCode, Huff, Sorted, Position, Cum, Pow2, Low, Rev;
    RevBound(w, MAXBITS);
    var j := SomeInterval(Sorted(lens), |Sorted(lens)|, w);
    SortedSize(lens);
    s := Work(lens, MAXBITS)[j];
    WorkPosition(lens, MAXBITS, j);
    SentIsHuff(lens, s);
  }

  lemma SortedSize(lens: seq<nat>)
    ensures |Sorted(lens)| == |Work(lens, MAXBITS)|
  {
  }

  /** No entry is a link when no code is longer than the first level. */
  ghost predicate Flat(t: seq<Code>, root: nat)
  {
    forall w: nat :: Low(w, root) < |t| && !IsLink(t[Low(w, root)])
  }

  lemma FlatTable(t: seq<Code>, root: nat, kind: CodeType, lens: seq<nat>)
    requires |lens| <= SymbolLimit(kind) && TableOk(t, root, kind) && Decodes(t, root, kind, lens)
    requires LensOk(lens) && SortedLens(Sorted(lens)) && Cum(Sorted(lens), |Sorted(lens)|) == Pow2(MAXBITS)
    requires forall s :: 0 <= s < |lens| ==> lens[s] <= root
    ensures Flat(t, root)
  {
    hide Sorted, Cum, Pow2, Low, Shr, SentCode, ActionOk, Settled, ActionFor;
    forall w: nat ensures Low(w, root) < |t| && !IsLink(t[Low(w, root)]) {
      assert EntryOk(t, root, kind, w);
      var s := SomeSymbol(lens, w);
      assert Lookup(t, root, w).Found? && Lookup(t, root, w).used == lens[s];
    }
  }

  /** The first level never has more bits than asked for if there are too few symbols for that. */
  lemma RootFits(ls: seq<nat>, n: nat, bits: nat)
    requires ls != [] && SortedLens(ls) && |ls| <= n < Pow2(bits + 1) && bits >= 1
    requires Cum(ls, |ls|) == Pow2(MAXBITS) || ls[0] == 1
    ensures ls[0] <= bits
  {
    hide Cum, Pow2;
    if ls[0] > bits {
      ManyCodes(ls);
      Pow2Mono(bits + 1, ls[0]);
    }
  }

  lemma SpaceRoot(root: nat, bits: nat, n: nat)
    requires root <= bits <= MAXBITS
    ensures Pow2(root) <= TableSpace(bits, n)
  {
    Pow2Mono(root, bits);
  }

  /** The sizes that inflate asks for: the check for lack of space never fails, and the tables of a block
      fit the space for them together. */
  lemma EnoughIsEnough()
    ensures Pow2(10) == 1024 && Pow2(7) == 128
    ensures TableSpace(9, 288) < ENOUGH - MAXD && TableSpace(9, 288) + TableSpace(6, 32) <= ENOUGH
  {
    assert Pow2(6) == 64;
    assert Pow2(9) == 512;
  }

  /** zlib_inflate_table: 0 for success, -1 for an invalid set of lengths, 1 for lack of space. */
  method InflateTable(kind: CodeType, lens: seq<nat>, bits: nat) returns (ret: int, table: seq<Code>, root: nat)
    requires LensOk(lens) && |lens| <= SymbolLimit(kind)
    ensures SortedLens(Sorted(lens))
    ensures ret == 0 || ret == 1 || ret == -1
    ensures ret == -1 <==> !Acceptable(kind, Sorted(lens))
    ensures ret == 1 ==> kind == LENS && bits != 9
    ensures 1 <= bits <= MAXBITS && |lens| < Pow2(bits + 1) ==>
              && (ret == 0 ==> |table| <= TableSpace(bits, |lens|))
              && (ret == 1 ==> TableSpace(bits, |lens|) >= ENOUGH - MAXD)
    ensures ret == 0 ==> 1 <= root <= MAXBITS && |table| >= Pow2(root) && Decodes(table, root, kind, lens)
    ensures ret == 0 ==> TableOk(table, root, kind)
    ensures ret == 0 && Sorted(lens) == [] ==> root == 1 && table == [Invalid, Invalid]
    ensures ret == 0 && Sorted(lens) != [] && Cum(Sorted(lens), |Sorted(lens)|) < Pow2(MAXBITS) ==>
              root == 1 && |table| == 2 && table[1] == Invalid
    ensures ret == 0 && root < bits ==> forall s :: 0 <= s < |lens| ==> lens[s] <= root
  {
    hide Bucket, Work, Rem, Cum, Decodes, Sorted, Pow2, TableOk;
    SortedIs(lens);
    ghost var ls := Sorted(lens);
    var count := CountLengths(lens);
    CountsAreRem(lens, count);
    root := bits;
    var min, max := Extremes(ls, count);
    LongestLast(lens);
    if root > max { root := max; }
    if max == 0 {
      NoCodes(kind, lens, [Invalid, Invalid], 1);
      TwoEntries();
      InvalidOk(kind);
      TwoEntryTable([Invalid, Invalid], kind);
      if 1 <= bits <= MAXBITS { SpaceRoot(1, bits, |lens|); }
      return 0, [Invalid, Invalid], 1;
    }
    if root < min { root := min; }
    var over, left := CodeSpace(ls, count);
    if over { return -1, [], root; }
    if left > 0 && (kind == CODES || max != 1) { return -1, [], root; }
    ret, table := BuildTables(kind, lens, count, root, left);
    if 1 <= bits <= MAXBITS && |lens| < Pow2(bits + 1) {
      WorkSize(lens);
      RootFits(ls, |lens|, bits);
      SpaceRoot(root, bits, |lens|);
    }
    if bits == 9 {
      EnoughIsEnough();
      if kind == LENS { SpaceMono(9, |lens|, 288); }
    }
  }
}
