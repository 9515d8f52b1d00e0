/** The code-cache dictionary: open addressing over a power-of-two table, grown by rehashing. */
module Dict {
  import opened Bits
  import opened Probe
  import opened BitHacks

  const NO_SUCH_KEY := 0
  const DUMMY_KEY := 1
  const DEFAULT_DICT_SLOTS := 100000
  const WORD := 0x1_0000_0000

  datatype Entry = Entry(key: nat, value: nat)

  // ----- the table as a value

  /** get_entry: the slot that holds the key, or else the first free slot on its probe path,
      or -1 when neither is met in a whole cycle. */
  function Search(t: seq<Entry>, key: nat, n: nat): (p: int)
    requires n <= |t|
    ensures p == -1 || (0 <= p < |t| && (t[p].key == key || t[p].key == NO_SUCH_KEY))
    decreases |t| - n
  {
    if n == |t| then -1
    else
      var s := Slot(key, n, |t|);
      if t[s].key == key || t[s].key == NO_SUCH_KEY then s else Search(t, key, n + 1)
  }

  /** Every stored key is found where it is stored. */
  ghost predicate Sound(t: seq<Entry>)
  {
    forall s :: 0 <= s < |t| && t[s].key != NO_SUCH_KEY ==> t[s].key != DUMMY_KEY && Search(t, t[s].key, 0) == s
  }

  ghost function Keys(t: seq<Entry>): set<nat>
  {
    set s | 0 <= s < |t| && t[s].key != NO_SUCH_KEY :: t[s].key
  }

  /** The map that the table represents. */
  ghost function Contents(t: seq<Entry>): map<nat, nat>
    requires Sound(t)
  {
    map k | k in Keys(t) :: t[Search(t, k, 0)].value
  }

  function Occupied(t: seq<Entry>): (n: nat)
    ensures n <= |t|
  {
    if t == [] then 0 else Occupied(t[..|t| - 1]) + (if t[|t| - 1].key != NO_SUCH_KEY then 1 else 0)
  }

  lemma {:induction false} OccupiedUpdate(t: seq<Entry>, p: nat, e: Entry)
    requires p < |t| && e.key != NO_SUCH_KEY
    ensures Occupied(t[p := e]) == Occupied(t) + (if t[p].key == NO_SUCH_KEY then 1 else 0)
  {
    var n := |t| - 1;
    if p == n {
      assert t[p := e][..n] == t[..n];
    } else {
      OccupiedUpdate(t[..n], p, e);
      assert t[p := e][..n] == t[..n][p := e];
    }
  }

  lemma {:induction false} FreeSlot(t: seq<Entry>) returns (s: nat)
    requires Occupied(t) < |t|
    ensures s < |t| && t[s].key == NO_SUCH_KEY
  {
    var n := |t| - 1;
    if t[n].key == NO_SUCH_KEY {
      s := n;
    } else {
      s := FreeSlot(t[..n]);
    }
  }

  lemma {:induction false} SearchStops(t: seq<Entry>, key: nat, n: nat, m: nat)
    requires n <= m < |t|
    requires t[Slot(key, m, |t|)].key == key || t[Slot(key, m, |t|)].key == NO_SUCH_KEY
    ensures Search(t, key, n) != -1
    decreases m - n
  {
    if n < m { SearchStops(t, key, n + 1, m); }
  }

  /** get_entry returns NULL only if the key is absent and the table is full. */
  lemma SearchFails(t: seq<Entry>, key: nat, k: nat)
    requires |t| == Pow2(k) && Search(t, key, 0) == -1
    ensures forall s :: 0 <= s < |t| ==> t[s].key != key && t[s].key != NO_SUCH_KEY
  {
    hide Search, Slot;
    forall s | 0 <= s < |t| ensures t[s].key != key && t[s].key != NO_SUCH_KEY {
      var m := EverySlot(k, key, s);
      if t[s].key == key || t[s].key == NO_SUCH_KEY { SearchStops(t, key, 0, m); }
    }
  }

  lemma SearchSucceeds(t: seq<Entry>, key: nat, k: nat)
    requires |t| == Pow2(k) && Occupied(t) < |t|
    ensures Search(t, key, 0) != -1
  {
    hide Search;
    if Search(t, key, 0) == -1 {
      SearchFails(t, key, k);
      var s := FreeSlot(t);
    }
  }

  /** Storing a key in the slot its search chose leaves it there. */
  lemma {:induction false} SearchSelf(t: seq<Entry>, key: nat, v: nat, n: nat)
    requires n <= |t| && Search(t, key, n) != -1
    ensures var p := Search(t, key, n); Search(t[p := Entry(key, v)], key, n) == p
    decreases |t| - n
  {
    var p := Search(t, key, n);
    var s := Slot(key, n, |t|);
    if t[s].key != key && t[s].key != NO_SUCH_KEY {
      SearchSelf(t, key, v, n + 1);
      assert s != p;
    }
  }

  /** It does not move any other stored key. */
  lemma {:induction false} SearchOther(t: seq<Entry>, p: nat, e: Entry, key: nat, n: nat)
    requires n <= |t| && p < |t| && e.key != NO_SUCH_KEY && e.key != key && key != NO_SUCH_KEY
    requires t[p].key == e.key || t[p].key == NO_SUCH_KEY
    requires Search(t, key, n) != -1 && t[Search(t, key, n)].key == key
    ensures Search(t[p := e], key, n) == Search(t, key, n)
    decreases |t| - n
  {
    var s := Slot(key, n, |t|);
    if t[s].key != key {
      SearchOther(t, p, e, key, n + 1);
    }
  }

  lemma SoundUpdate(t: seq<Entry>, key: nat, v: nat)
    requires Sound(t) && key > DUMMY_KEY && Search(t, key, 0) != -1
    ensures Sound(t[Search(t, key, 0) := Entry(key, v)])
  {
    hide Search;
    var p, e := Search(t, key, 0), Entry(key, v);
    var t' := t[p := e];
    SearchSelf(t, key, v, 0);
    forall s | 0 <= s < |t'| && t'[s].key != NO_SUCH_KEY
      ensures t'[s].key != DUMMY_KEY && Search(t', t'[s].key, 0) == s
    {
      if s != p {
        assert t'[s] == t[s];
        assert t[s].key != key;
        SearchOther(t, p, e, t[s].key, 0);
      }
    }
  }

  /** The map after storing a key. */
  lemma ContentsUpdate(t: seq<Entry>, key: nat, v: nat)
    requires Sound(t) && key > DUMMY_KEY && Search(t, key, 0) != -1
    ensures (SoundUpdate(t, key, v);
             Contents(t[Search(t, key, 0) := Entry(key, v)]) == Contents(t)[key := v])
  {
    hide Search;
    SoundUpdate(t, key, v);
    var p, e := Search(t, key, 0), Entry(key, v);
    var t' := t[p := e];
    KeysUpdate(t, p, e);
    SearchSelf(t, key, v, 0);
    forall k | k in Keys(t) && k != key
      ensures Search(t', k, 0) == Search(t, k, 0) && t'[Search(t, k, 0)] == t[Search(t, k, 0)]
    {
      var s :| 0 <= s < |t| && t[s].key == k;
      assert Search(t, t[s].key, 0) == s;
      SearchOther(t, p, e, k, 0);
    }
  }

  lemma KeysUpdate(t: seq<Entry>, p: nat, e: Entry)
    requires p < |t| && e.key != NO_SUCH_KEY && (t[p].key == e.key || t[p].key == NO_SUCH_KEY)
    ensures Keys(t[p := e]) == Keys(t) + {e.key}
  {
    var t' := t[p := e];
    forall k | k in Keys(t) ensures k in Keys(t') {
      var s :| 0 <= s < |t| && t[s].key == k && k != NO_SUCH_KEY;
      if s == p { assert t'[p].key == k; } else { assert t'[s].key == k; }
    }
    assert t'[p].key == e.key;
  }

  /** What dict_get returns for the slot a search gives. */
  lemma Lookup(t: seq<Entry>, key: nat)
    requires Sound(t) && key > DUMMY_KEY
    ensures var p := Search(t, key, 0);
            (if p == -1 || t[p].key == NO_SUCH_KEY then 0 else t[p].value)
            == (if key in Contents(t) then Contents(t)[key] else 0)
  {
    hide Search;
    if key in Keys(t) {
      var s :| 0 <= s < |t| && t[s].key == key;
      assert Search(t, t[s].key, 0) == s;
    }
  }

  lemma InContents(t: seq<Entry>, key: nat)
    requires Sound(t) && key > DUMMY_KEY && Search(t, key, 0) != -1
    ensures key in Contents(t) <==> t[Search(t, key, 0)].key != NO_SUCH_KEY
  {
    hide Search;
    if key in Keys(t) {
      var s :| 0 <= s < |t| && t[s].key == key;
      assert Search(t, t[s].key, 0) == s;
    }
  }

  // ----- the table in memory

  lemma ScaleMod(x: nat, p: nat)
    requires p > 0
    ensures (5 * x + 1) % p == (5 * (x % p) + 1) % p
  {
    var a, r := x / p, x % p;
    assert x == a * p + r;
    assert 5 * x + 1 == (5 * a) * p + (5 * r + 1);
    AddMultiple(5 * r + 1, 5 * a, p);
  }

  /** i, masked to k bits, is the n-th slot on the key's probe path. */
  ghost predicate InStep(i: nat, key: nat, n: nat, k: nat)
  {
    i % Pow2(k) == Slot(key, n, Pow2(k))
  }

  lemma StartStep(key: nat, k: nat)
    ensures InStep(And(key, Pow2(k) - 1), key, 0, k)
  {
    hide And, Pow2;
    AndMask(key, k);
    ModMod(key, k, k);
  }

  /** A 32-bit step of the probe stays in step with the unbounded one. */
  lemma ProbeStep(i: nat, key: nat, n: nat, k: nat)
    requires k <= 31 && InStep(i, key, n, k)
    ensures InStep((5 * i + 1) % WORD, key, n + 1, k)
  {
    hide Pow2;
    BigPowers();
    ScaleMod(i, Pow2(k));
    ScaleMod(Iter(key, n), Pow2(k));
    ModMod(5 * i + 1, 32, k);
  }

  lemma SearchStep(t: seq<Entry>, key: nat, n: nat, i: nat, k: nat)
    requires n < |t| == Pow2(k) && InStep(i, key, n, k)
    ensures var s := And(i, Pow2(k) - 1);
            && s < |t|
            && Search(t, key, n) == if t[s].key == key || t[s].key == NO_SUCH_KEY then s else Search(t, key, n + 1)
  {
    hide And, Pow2, Slot;
    AndMask(i, k);
  }

  class Table {
    var mask: nat
    var active: int
    const table: array<Entry>
    ghost const k: nat

    ghost predicate Shape()
      reads this
    {
      k <= 27 && table.Length == Pow2(k) && mask == Pow2(k) - 1
    }

    /** Occupied slots never exceed the count, and the count is at most one over two thirds. */
    ghost predicate Valid()
      reads this, table
    {
      && Shape() && Sound(table[..])
      && Occupied(table[..]) <= active && 3 * active <= 2 * table.Length + 3
    }

    ghost function Map(): map<nat, nat>
      requires Sound(table[..])
      reads this, table
    {
      Contents(table[..])
    }

    /** create_dict; slots are rounded up to a power of two. */
    constructor (size: nat, ghost k0: nat)
      requires k0 <= 27 && size == Pow2(k0)
      ensures fresh(table) && Valid() && k == k0 && active == 0 && table.Length == size && Map() == map[]
      ensures Occupied(table[..]) == 0
    {
      mask, active := size - 1, 0;
      table := new Entry[size](_ => Entry(NO_SUCH_KEY, 0));
      k := k0;
      new;
      EmptyTable(table[..]);
    }

    method GetEntry(key: nat) returns (p: int)
      requires Shape() && key > DUMMY_KEY
      requires forall s :: 0 <= s < table.Length ==> table[s].key != DUMMY_KEY
      ensures p == Search(table[..], key, 0)
    {
      hide Pow2, And, InStep, Search;
      var size, checked := mask + 1, 0;
      var i := And(key, mask);
      StartStep(key, k);
      while checked < size
        invariant 0 <= checked <= size && i >= 0 && InStep(i, key, checked, k)
        invariant Search(table[..], key, checked) == Search(table[..], key, 0)
      {
        SearchStep(table[..], key, checked, i, k);
        var s := And(i, mask);
        if table[s].key == key || table[s].key == NO_SUCH_KEY { return s; }
        ProbeStep(i, key, checked, k);
        i, checked := (i * 4 + i + 1) % WORD, checked + 1;
      }
      SearchEnd(table[..], key);
      return -1;
    }

    /** dict_insert_clean: an occupied slot is overwritten, and counted again all the same. */
    method InsertClean(key: nat, value: nat)
      requires Shape() && Sound(table[..]) && key > DUMMY_KEY && Occupied(table[..]) < table.Length
      modifies table, this`active
      ensures Sound(table[..]) && Map() == old(Map())[key := value]
      ensures active == old(active) + 1
      ensures Occupied(table[..]) == old(Occupied(table[..])) + if key in old(Map()) then 0 else 1
    {
      hide Search, Keys, Pow2, Contents;
      SearchSucceeds(table[..], key, k);
      var p := GetEntry(key);
      ghost var t := table[..];
      SoundUpdate(t, key, value);
      ContentsUpdate(t, key, value);
      OccupiedUpdate(t, p, Entry(key, value));
      InContents(t, key);
      table[p] := Entry(key, value);
      assert table[..] == t[p := Entry(key, value)];
      active := active + 1;
    }

    /** dict_get on an existing dictionary. */
    method Get(key: nat) returns (v: nat)
      requires Valid() && key > DUMMY_KEY
      ensures v == if key in Map() then Map()[key] else 0
    {
      hide Search, Keys, Contents;
      var p := GetEntry(key);
      Lookup(table[..], key);
      if p == -1 || table[p].key == NO_SUCH_KEY { return 0; }
      return table[p].value;
    }
  }

  lemma SearchEnd(t: seq<Entry>, key: nat)
    ensures Search(t, key, |t|) == -1
  {
  }

  lemma {:induction false} EmptyTable(t: seq<Entry>)
    requires forall s :: 0 <= s < |t| ==> t[s].key == NO_SUCH_KEY
    ensures Sound(t) && Keys(t) == {} && Contents(t) == map[] && Occupied(t) == 0
  {
    if t != [] { EmptyTable(t[..|t| - 1]); }
  }

  /** The keys and values found in the first n slots. */
  ghost function Prefix(t: seq<Entry>, n: nat): map<nat, nat>
    requires n <= |t|
  {
    if n == 0 then map[]
    else if t[n - 1].key == NO_SUCH_KEY then Prefix(t, n - 1)
    else Prefix(t, n - 1)[t[n - 1].key := t[n - 1].value]
  }

  lemma {:induction false} PrefixIs(t: seq<Entry>, n: nat)
    requires Sound(t) && n <= |t|
    ensures forall key :: key in Prefix(t, n) <==>
              key != NO_SUCH_KEY && 0 <= Search(t, key, 0) < n && t[Search(t, key, 0)].key == key
    ensures forall key :: key in Prefix(t, n) ==> Prefix(t, n)[key] == t[Search(t, key, 0)].value
  {
    hide Search;
    if n > 0 { PrefixIs(t, n - 1); }
  }

  lemma PrefixNext(t: seq<Entry>, n: nat)
    requires Sound(t) && n < |t|
    ensures t[n].key != NO_SUCH_KEY ==>
              t[n].key !in Prefix(t, n) && Prefix(t, n + 1) == Prefix(t, n)[t[n].key := t[n].value]
    ensures t[n].key == NO_SUCH_KEY ==> Prefix(t, n + 1) == Prefix(t, n)
  {
    hide Search;
    PrefixIs(t, n);
  }

  lemma PrefixAll(t: seq<Entry>)
    requires Sound(t)
    ensures Prefix(t, |t|) == Contents(t)
  {
    hide Search, Prefix;
    PrefixIs(t, |t|);
    forall key ensures key in Prefix(t, |t|) <==> key in Keys(t) {
      if key in Keys(t) {
        var s :| 0 <= s < |t| && t[s].key == key;
        assert Search(t, t[s].key, 0) == s;
      }
    }
  }

  lemma OccupiedPrefix(t: seq<Entry>, n: nat)
    requires n < |t|
    ensures Occupied(t[..n + 1]) == Occupied(t[..n]) + (if t[n].key != NO_SUCH_KEY then 1 else 0)
  {
    assert t[..n + 1][..n] == t[..n];
  }

  /** copy_dict: reinserts every entry of the old table into a larger empty one. */
  method CopyDict(dst: Table, src: Table)
    requires dst != src && dst.table != src.table
    requires src.Valid() && dst.Valid() && dst.active == 0 && dst.Map() == map[] && Occupied(dst.table[..]) == 0
    requires dst.table.Length > src.table.Length
    modifies dst.table, dst`active
    ensures Sound(dst.table[..]) && dst.Map() == src.Map()
    ensures dst.active == Occupied(src.table[..]) == Occupied(dst.table[..])
  {
    hide Search, Keys, Contents, Pow2, Occupied, Prefix;
    ghost var t := src.table[..];
    NoneOccupied(t);
    var i := 0;
    while i < src.mask + 1
      invariant 0 <= i <= |t| && src.table[..] == t && Sound(dst.table[..])
      invariant dst.Map() == Prefix(t, i) && dst.active == Occupied(t[..i])
      invariant Occupied(dst.table[..]) == dst.active
      invariant src.Shape() && dst.Shape()
    {
      OccupiedPrefix(t, i);
      PrefixNext(t, i);
      var e := src.table[i];
      assert e == t[i];
      if e.key != NO_SUCH_KEY && e.key != DUMMY_KEY {
        dst.InsertClean(e.key, e.value);
      }
      i := i + 1;
    }
    PrefixAll(t);
    assert t[..|t|] == t;
  }

  lemma NoneOccupied(t: seq<Entry>)
    ensures Occupied(t[..0]) == 0 && Prefix(t, 0) == map[]
  {
  }

  /** create_dict.  Beyond 2^27 slots the allocation size no longer fits an int. */
  method CreateDict(slots: nat, ghost k: nat) returns (d: Table)
    requires slots >= 1 && k <= 27 && RoundsTo(slots, Pow2(k), k)
    ensures fresh(d) && fresh(d.table) && d.Valid() && d.k == k && d.active == 0 && d.Map() == map[]
    ensures Occupied(d.table[..]) == 0
  {
    hide Pow2, Occupied, Contents;
    BigPowers();
    Pow2Mono(k, 30);
    var size := Pow2RoundUp(slots);
    RoundUnique(slots, size, k);
    d := new Table(size, k);
  }

  lemma RoundUnique(x: nat, r: int, k: nat)
    requires RoundsTo(x, Pow2(k), k)
    requires exists j: nat :: j <= 30 && RoundsTo(x, r, j)
    ensures r == Pow2(k)
  {
    hide Pow2;
    var j: nat :| j <= 30 && RoundsTo(x, r, j);
    if j < k { Pow2Mono(j, k - 1); }
    if j > k { Pow2Mono(k, j - 1); }
  }

  /** The table has to grow before the next insertion. */
  predicate Crowded(d: Table)
    reads d
  {
    d.active * 3 > 2 * d.mask + 2
  }

  /** The size asked for in growing gives twice the slots exactly if there is more than one. */
  lemma GrowthIff(k: nat)
    ensures RoundsTo((Pow2(k) - 1) * 2 + 1, Pow2(k + 1), k + 1) <==> k >= 1
  {
    if k >= 1 { Pow2Mono(1, k); }
  }

  /** Twice the slots.  The count starts again from the keys that are there. */
  method Grow(d: Table) returns (d': Table)
    requires d.Valid() && 1 <= d.k < 27
    ensures fresh(d') && fresh(d'.table) && d'.Valid() && d'.k == d.k + 1 && !Crowded(d') && d'.Map() == d.Map()
    ensures d'.active == Occupied(d.table[..]) == Occupied(d'.table[..])
  {
    hide Occupied, Contents, Sound;
    GrowthIff(d.k);
    d' := CreateDict(d.mask * 2 + 1, d.k + 1);
    CopyDict(d', d);
  }

  /** dict_insert: afterwards the dictionary is the old map with one key set. */
  method Insert(d: Table?, key: nat, value: nat) returns (d': Table)
    requires key > DUMMY_KEY && (d != null ==> d.Valid() && (Crowded(d) ==> 1 <= d.k < 27))
    modifies if d == null then {} else {d, d.table}
    ensures d'.Valid() && d'.Map() == (if d == null then map[] else old(d.Map()))[key := value]
    ensures d'.active <= (if d == null then 0 else old(d.active)) + 1
    ensures d == null ==> d'.active == Occupied(d'.table[..]) == 1
    ensures d != null && key !in old(d.Map()) && old(d.active == Occupied(d.table[..])) ==>
              d'.active == Occupied(d'.table[..]) == old(d.active) + 1
    ensures d == null ==> d'.k == 17 && fresh(d') && fresh(d'.table)
    ensures d != null && !old(Crowded(d)) ==> d' == d
    ensures d != null && old(Crowded(d)) ==> d'.k == d.k + 1 && fresh(d') && fresh(d'.table)
  {
    hide Occupied, Contents, Sound;
    if d == null {
      BigPowers();
      d' := CreateDict(DEFAULT_DICT_SLOTS, 17);
    } else if Crowded(d) {
      d' := Grow(d);
    } else {
      d' := d;
    }
    d'.InsertClean(key, value);
  }

  // ----- whole runs

  function Inserted(ops: seq<Entry>): map<nat, nat>
  {
    if ops == [] then map[] else Inserted(ops[..|ops| - 1])[ops[|ops| - 1].key := ops[|ops| - 1].value]
  }

  /** With 2^27 slots and this many entries the next insertion would ask for 2^28 slots, whose size in
      bytes does not fit an int. */
  const LAST_INSERT := 89_478_486

  predicate NewKeys(ops: seq<Entry>)
  {
    forall i, j :: 0 <= i < j < |ops| ==> ops[i].key != ops[j].key
  }

  /** After any run of insertions, with overwrites and growth, a lookup gives the last value inserted
      for the key, and 0 for a key never inserted.  Not ok stands for a table that would have to grow
      beyond 2^27 slots, which LAST_INSERT insertions never need, and more new keys always do. */
  method RunDict(ops: seq<Entry>, key: nat) returns (ok: bool, v: nat)
    requires key > DUMMY_KEY && forall i :: 0 <= i < |ops| ==> ops[i].key > DUMMY_KEY
    ensures ok ==> v == if key in Inserted(ops) then Inserted(ops)[key] else 0
    ensures |ops| <= LAST_INSERT ==> ok
    ensures NewKeys(ops) && |ops| > LAST_INSERT ==> !ok
  {
    hide Occupied, Contents, Sound, Inserted, Pow2, NewKeys;
    var d: Table? := null;
    InsertedNone();
    assert ops[..0] == [];
    for n := 0 to |ops|
      invariant d == null <==> n == 0
      invariant d != null ==> fresh(d) && fresh(d.table) && d.Valid() && d.Map() == Inserted(ops[..n]) && d.active <= n
      invariant d != null ==> d.k >= 17 && (NewKeys(ops) ==> d.active == Occupied(d.table[..]) == n <= LAST_INSERT)
      invariant n == 0 ==> Inserted(ops[..n]) == map[]
    {
      InsertedNext(ops, n);
      if NewKeys(ops) { NewKey(ops, n); }
      if d != null {
        CrowdedSize(d);
        if Crowded(d) && d.mask + 1 >= 0x800_0000 { return false, 0; }
      }
      d := Insert(d, ops[n].key, ops[n].value);
    }
    assert ops[..|ops|] == ops;
    if d == null { return true, 0; }
    ok := true;
    v := d.Get(key);
  }

  lemma NewKey(ops: seq<Entry>, n: nat)
    requires NewKeys(ops) && n < |ops|
    ensures ops[n].key !in Inserted(ops[..n])
  {
    InsertedOnly(ops, n, ops[n].key);
  }

  lemma {:induction false} InsertedOnly(ops: seq<Entry>, n: nat, key: nat)
    requires n <= |ops| && forall i :: 0 <= i < n ==> ops[i].key != key
    ensures key !in Inserted(ops[..n])
  {
    if n > 0 {
      InsertedOnly(ops, n - 1, key);
      InsertedNext(ops, n - 1);
    }
  }

  lemma CrowdedSize(d: Table)
    requires d.Valid()
    ensures d.mask + 1 >= 0x800_0000 <==> d.k == 27
    ensures Crowded(d) && d.k == 27 <==> d.active >= LAST_INSERT
  {
    hide Sound, Occupied, Pow2;
    BigPowers();
    if d.k < 27 {
      Pow2Mono(d.k, 26);
      TwoPowers();
    }
  }

  lemma TwoPowers()
    ensures Pow2(27) == 2 * Pow2(26)
  {
  }

  lemma InsertedNone()
    ensures Inserted([]) == map[]
  {
  }

  lemma InsertedNext(ops: seq<Entry>, n: nat)
    requires n < |ops|
    ensures Inserted(ops[..n + 1]) == Inserted(ops[..n])[ops[n].key := ops[n].value]
  {
    assert ops[..n + 1][..n] == ops[..n];
  }
}
