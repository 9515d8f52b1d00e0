/** Values on given numbers of bits, one after the other. */
module BitFields {
  import opened Bits
  import opened Reverse
  import opened Canonical
  import opened InfTable

  /** A value sent on a number of bits. */
  datatype Field = Field(val: nat, len: nat)

  predicate Fits(fs: seq<Field>)
  {
    forall i :: 0 <= i < |fs| ==> fs[i].val < Pow2(fs[i].len)
  }

  function Total(fs: seq<Field>): nat
  {
    if fs == [] then 0 else fs[0].len + Total(fs[1..])
  }

  /** The fields as one number, the first field least significant. */
  function Value(fs: seq<Field>): nat
  {
    if fs == [] then 0 else fs[0].val + Pow2(fs[0].len) * Value(fs[1..])
  }

  lemma {:induction false} TotalJoin(a: seq<Field>, b: seq<Field>)
    ensures Total(a + b) == Total(a) + Total(b)
  {
    if a == [] {
      assert a + b == b;
    } else {
      TotalJoin(a[1..], b);
      assert (a + b)[1..] == a[1..] + b;
    }
  }

  lemma {:induction false} ValueJoin(a: seq<Field>, b: seq<Field>)
    ensures Value(a + b) == Value(a) + Pow2(Total(a)) * Value(b)
  {
    hide Pow2;
    if a == [] {
      assert a + b == b;
      PowZero();
    } else {
      ValueJoin(a[1..], b);
      assert (a + b)[1..] == a[1..] + b;
      var p, q := Pow2(a[0].len), Pow2(Total(a[1..]));
      Pow2Add(a[0].len, Total(a[1..]));
      Spread(p, Value(a[1..]), q, Value(b));
    }
  }

  lemma PowZero()
    ensures Pow2(0) == 1
  {
  }

  lemma Spread(p: nat, x: nat, q: nat, y: nat)
    ensures p * (x + q * y) == p * x + (p * q) * y
  {
    Assoc(p, q, y);
    assert p * (x + q * y) == p * x + p * (q * y);
  }

  lemma {:induction false} ValueBound(fs: seq<Field>)
    requires Fits(fs)
    ensures Value(fs) < Pow2(Total(fs))
  {
    hide Pow2;
    if fs == [] {
      PowZero();
    } else {
      ValueBound(fs[1..]);
      Pow2Add(fs[0].len, Total(fs[1..]));
      Under(fs[0].val, Pow2(fs[0].len), Value(fs[1..]), Pow2(Total(fs[1..])));
    }
  }

  lemma Under(a: nat, p: nat, x: nat, q: nat)
    requires a < p && x < q
    ensures a + p * x < p * q
  {
    MulMono(x + 1, q, p);
    Distrib(x, 1, p);
  }

  /** The bits x start with the fields. */
  predicate Starts(x: nat, fs: seq<Field>)
  {
    Low(x, Total(fs)) == Value(fs)
  }

  lemma StartsJoin(x: nat, a: seq<Field>, b: seq<Field>)
    requires Fits(a) && Starts(x, a + b)
    ensures Starts(x, a) && Starts(Shr(x, Total(a)), b)
  {
    hide Pow2, Low, Shr, Value, Total;
    var n := Total(a);
    TotalJoin(a, b);
    ValueJoin(a, b);
    LowJoin(x, n, Total(b));
    ValueBound(a);
    LowBound(x, n);
    Commute(Pow2(n), Low(Shr(x, n), Total(b)));
    Commute(Pow2(n), Value(b));
    SplitEqual(Pow2(n), Low(x, n), Low(Shr(x, n), Total(b)), Value(a), Value(b));
  }

  lemma StartsOne(x: nat, f: Field)
    requires Starts(x, [f])
    ensures Low(x, f.len) == f.val
  {
    hide Pow2, Low;
    assert [f][1..] == [];
    assert Value([f]) == f.val + Pow2(f.len) * 0;
    assert Total([f]) == f.len;
  }

  lemma TotalOne(f: Field)
    ensures Total([f]) == f.len
  {
    assert [f][1..] == [];
  }

  /** Among all the fields sent, some in the middle are what the bits at their place start with. */
  lemma StartsSent(pre: seq<Field>, body: seq<Field>, post: seq<Field>)
    requires Fits(pre) && Fits(body)
    ensures Starts(Shr(Value(pre + (body + post)), Total(pre)), body)
  {
    hide Low, Shr, Value, Total, Pow2;
    ValueJoin(pre, body + post);
    ValueBound(pre);
    LowShr(Value(pre + (body + post)), Value(body + post), Value(pre), Total(pre));
    ValueJoin(body, post);
    ValueBound(body);
    LowShr(Value(body + post), Value(post), Value(body), Total(body));
  }
}
