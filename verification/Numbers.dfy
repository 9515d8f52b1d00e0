/** Printing numbers without dividing by ten, and reading them back. */
module Numbers {
  import opened Bits
  import opened Canonical

  // ----- digits

  /** The value of a list of digits, the least significant first. */
  function Val(ds: seq<nat>, b: nat): nat
  {
    if ds == [] then 0 else ds[0] + b * Val(ds[1..], b)
  }

  /** The digits of v without leading zeros. */
  function Digits(v: nat, b: nat): (ds: seq<nat>)
    requires b >= 2
    ensures ds != []
    decreases v
  {
    if v < b then [v] else (QuotientSmaller(v, b); [v % b] + Digits(v / b, b))
  }

  lemma QuotientSmaller(v: nat, b: nat)
    requires 2 <= b <= v
    ensures v / b < v && v % b >= 0
  {
    QuotientPositive(v, b);
    Euclid(v, b);
    MulMono(2, b, v / b);
  }

  predicate Below(ds: seq<nat>, b: nat)
  {
    forall i :: 0 <= i < |ds| ==> ds[i] < b
  }

  /** No leading zero, except for zero itself. */
  predicate Proper(ds: seq<nat>)
  {
    |ds| == 1 || (|ds| > 1 && ds[|ds| - 1] != 0)
  }

  /** ds is v written out in base b. */
  predicate Writes(ds: seq<nat>, v: nat, b: nat)
  {
    Val(ds, b) == v && Below(ds, b) && Proper(ds) && (v > 0 ==> ds[|ds| - 1] != 0)
  }

  lemma {:induction false} DigitsVal(v: nat, b: nat)
    requires b >= 2
    ensures Writes(Digits(v, b), v, b)
    decreases v
  {
    hide Writes, Digits;
    if v < b {
      OneDigit(v, b);
      DigitsOne(v, b);
    } else {
      var q, r := DigitsNext(v, b);
      DigitsVal(q, b);
      OneMore(Digits(q, b), q, r, b);
    }
  }

  lemma DigitsOne(v: nat, b: nat)
    requires b >= 2 && v < b
    ensures Digits(v, b) == [v]
  {
  }

  lemma DigitsNext(v: nat, b: nat) returns (q: nat, r: nat)
    requires 2 <= b <= v
    ensures 1 <= q < v && r < b && v == r + b * q && Digits(v, b) == [r] + Digits(q, b)
  {
    q, r := v / b, v % b;
    Euclid(v, b);
    QuotientPositive(v, b);
  }

  lemma OneDigit(v: nat, b: nat)
    requires v < b
    ensures Writes([v], v, b)
  {
    assert [v][1..] == [];
    assert b * 0 == 0;
  }

  lemma OneMore(high: seq<nat>, q: nat, r: nat, b: nat)
    requires Writes(high, q, b) && q >= 1 && r < b
    ensures Writes([r] + high, r + b * q, b)
  {
    assert ([r] + high)[1..] == high;
  }

  lemma Euclid(v: nat, b: nat)
    requires b >= 1
    ensures v % b + b * (v / b) == v
  {
  }

  lemma QuotientPositive(v: nat, b: nat)
    requires 1 <= b <= v
    ensures v / b >= 1 && v % b < b
  {
    if v / b == 0 { Euclid(v, b); }
  }

  lemma {:induction false} ProperPositive(ds: seq<nat>, b: nat)
    requires b >= 2 && ds != [] && ds[|ds| - 1] != 0
    ensures Val(ds, b) >= 1
  {
    if |ds| > 1 {
      ProperPositive(ds[1..], b);
      MulAtLeast(Val(ds[1..], b), b);
    }
  }

  /** Digits that mean v are the digits of v. */
  lemma {:induction false} DigitsOnly(ds: seq<nat>, b: nat)
    requires b >= 2 && Below(ds, b) && Proper(ds)
    ensures ds == Digits(Val(ds, b), b)
  {
    var v, rest := Val(ds, b), ds[1..];
    if |ds| == 1 {
      assert rest == [];
      assert b * 0 == 0;
    } else {
      ProperPositive(rest, b);
      DigitsOnly(rest, b);
      assert v == Val(rest, b) * b + ds[0];
      DivModUnique(v, b, Val(rest, b), ds[0]);
      MulAtLeast(Val(rest, b), b);
      assert ds == [ds[0]] + rest;
    }
  }

  lemma {:induction false} ValJoin(a: seq<nat>, c: seq<nat>, b: nat)
    ensures Val(a + c, b) == Val(a, b) + Power(b, |a|) * Val(c, b)
  {
    if a == [] {
      assert a + c == c;
    } else {
      ValJoin(a[1..], c, b);
      assert (a + c)[1..] == a[1..] + c;
      Assoc(b, Power(b, |a| - 1), Val(c, b));
      var x, y := Val(a[1..], b), Power(b, |a| - 1) * Val(c, b);
      assert b * (x + y) == b * x + b * y;
    }
  }

  function Power(b: nat, n: nat): nat
  {
    if n == 0 then 1 else b * Power(b, n - 1)
  }

  // ----- decimal digits by multiplication

  /** The two reciprocals are exact in the ranges where they are used. */
  function Tenth(x: nat): (q: nat)
    requires x <= 339
    ensures 10 * q <= x < 10 * q + 10
  {
    var a, r := x / 10, x % 10;
    DivModUnique(x * 0xcd, 2048, a, 2 * a + 205 * r);
    x * 0xcd / 2048
  }

  function ShortTenth(x: nat): (q: nat)
    requires x <= 68
    ensures 10 * q <= x < 10 * q + 10
  {
    var a, r := x / 10, x % 10;
    DivModUnique(x * 0xd, 128, a, 2 * a + 13 * r);
    x * 0xd / 128
  }

  lemma FiveVal(a: nat, b: nat, c: nat, d: nat, e: nat)
    ensures Val([a, b, c, d, e], 10) == a + 10 * b + 100 * c + 1000 * d + 10000 * e
    ensures Val([a, b, c, d], 10) == a + 10 * b + 100 * c + 1000 * d
    ensures Val([a, b, c], 10) == a + 10 * b + 100 * c
    ensures Val([a, b], 10) == a + 10 * b && Val([a], 10) == a
  {
    FourVal(b, c, d, e);
    FourVal(a, b, c, d);
    assert [a, b, c, d, e][1..] == [b, c, d, e];
  }

  lemma FourVal(a: nat, b: nat, c: nat, d: nat)
    ensures Val([a, b, c, d], 10) == a + 10 * b + 100 * c + 1000 * d
    ensures Val([a, b, c], 10) == a + 10 * b + 100 * c
    ensures Val([a, b], 10) == a + 10 * b && Val([a], 10) == a
  {
    TwoVal(c, d);
    TwoVal(b, c);
    TwoVal(a, b);
    assert [b, c, d][1..] == [c, d];
    assert [a, b, c, d][1..] == [b, c, d] && [a, b, c][1..] == [b, c];
  }

  lemma TwoVal(a: nat, b: nat)
    ensures Val([a, b], 10) == a + 10 * b && Val([a], 10) == a
  {
    assert [a, b][1..] == [b];
    SingleVal(a, 10);
    SingleVal(b, 10);
  }

  /** The hexadecimal digits of q weigh in with their decimal ones. */
  lemma HexSplit(q: nat)
    requires q < 100000
    ensures var d1, d2, d3 := q / 16 % 16, q / 256 % 16, q / 4096;
            q == 4096 * d3 + 256 * d2 + 16 * d1 + q % 16 && d3 <= 24 && d2 < 16 && d1 < 16
  {
    var a, r0 := q / 16, q % 16;
    var b, r1 := a / 16, a % 16;
    var c, r2 := b / 16, b % 16;
    DivModUnique(q, 256, b, 16 * r1 + r0);
    DivModUnique(q, 4096, c, 256 * r2 + 16 * r1 + r0);
    assert q / 256 == b;
    assert q / 4096 == c;
    assert q / 256 % 16 == r2;
    assert q / 16 % 16 == r1;
    assert q == 4096 * c + 256 * r2 + 16 * r1 + r0;
    assert c <= 24;
  }

  /** Digits with a leading one that is not zero. */
  lemma Shown(a: nat, b: nat, c: nat, d: nat, e: nat)
    requires a < 10 && b < 10 && c < 10 && d < 10 && e < 10
    ensures Digits(a, 10) == [a]
    ensures b != 0 ==> Digits(a + 10 * b, 10) == [a, b]
    ensures c != 0 ==> Digits(a + 10 * b + 100 * c, 10) == [a, b, c]
    ensures d != 0 ==> Digits(a + 10 * b + 100 * c + 1000 * d, 10) == [a, b, c, d]
    ensures e != 0 ==> Digits(a + 10 * b + 100 * c + 1000 * d + 10000 * e, 10) == [a, b, c, d, e]
  {
    hide Val, Digits;
    FiveVal(a, b, c, d, e);
    DigitsOnly([a], 10);
    if b != 0 { DigitsOnly([a, b], 10); }
    if c != 0 { DigitsOnly([a, b, c], 10); }
    if d != 0 { DigitsOnly([a, b, c, d], 10); }
    if e != 0 { DigitsOnly([a, b, c, d, e], 10); }
  }

  /** put_dec_full: always five digits. */
  method PutDecFull(q0: nat) returns (ds: seq<nat>)
    requires q0 < 100000
    ensures |ds| == 5 && Below(ds, 10) && Val(ds, 10) == q0
  {
    hide Tenth, ShortTenth, Val;
    HexSplit(q0);
    var d1, d2, d3 := q0 / 16 % 16, q0 / 256 % 16, q0 / 4096;
    var d0 := 6 * (d3 + d2 + d1) + q0 % 16;
    var q := Tenth(d0);
    var e0 := d0 - 10 * q;
    d1 := q + 9 * d3 + 5 * d2 + d1;
    q := Tenth(d1);
    var e1 := d1 - 10 * q;
    d2 := q + 2 * d2;
    q := ShortTenth(d2);
    var e2 := d2 - 10 * q;
    d3 := q + 4 * d3;
    q := Tenth(d3);
    var e3 := d3 - 10 * q;
    ds := [e0, e1, e2, e3, q];
    FiveVal(e0, e1, e2, e3, q);
  }

  /** put_dec_trunc: the same without leading zeros. */
  method PutDecTrunc(q0: nat) returns (ds: seq<nat>)
    requires q0 < 100000
    ensures ds == Digits(q0, 10)
  {
    hide Tenth, ShortTenth, Val, Digits;
    HexSplit(q0);
    var d1, d2, d3 := q0 / 16 % 16, q0 / 256 % 16, q0 / 4096;
    var d0 := 6 * (d3 + d2 + d1) + q0 % 16;
    var q := Tenth(d0);
    d0 := d0 - 10 * q;
    ds := [d0];
    d1 := q + 9 * d3 + 5 * d2 + d1;
    assert q0 == d0 + 10 * d1 + 200 * d2 + 4000 * d3;
    ds := PutUpper(q0, d0, d1, d2, d3);
  }

  /** The digits after the first, each with the carry into the next. */
  method PutUpper(ghost q0: nat, d0: nat, t1: nat, h2: nat, h3: nat) returns (ds: seq<nat>)
    requires d0 < 10 && t1 <= 339 && h2 < 16 && h3 <= 24 && 9 * h3 + 5 * h2 <= t1
    requires q0 == d0 + 10 * t1 + 200 * h2 + 4000 * h3 && q0 < 100000
    ensures ds == Digits(q0, 10)
  {
    hide Tenth, ShortTenth, Digits;
    if t1 == 0 {
      Shown(d0, 0, 0, 0, 0);
      return [d0];
    }
    var q := Tenth(t1);
    var d1, t2 := t1 - 10 * q, q + 2 * h2;
    if t2 == 0 && h3 == 0 {
      Shown(d0, d1, 0, 0, 0);
      return [d0, d1];
    }
    q := ShortTenth(t2);
    var d2, t3 := t2 - 10 * q, q + 4 * h3;
    if t3 == 0 {
      Shown(d0, d1, d2, 0, 0);
      return [d0, d1, d2];
    }
    q := Tenth(t3);
    var d3 := t3 - 10 * q;
    Shown(d0, d1, d2, d3, q);
    if q == 0 { return [d0, d1, d2, d3]; }
    ds := [d0, d1, d2, d3, q];
  }

  lemma HundredThousand()
    ensures Power(10, 5) == 100000
  {
    assert Power(10, 3) == 1000;
  }

  /** Five digits below, the others above. */
  lemma Above(low: seq<nat>, n: nat)
    requires |low| == 5 && Below(low, 10) && n >= 100000 && Val(low, 10) == n % 100000
    ensures Digits(n, 10) == low + Digits(n / 100000, 10)
  {
    hide Val, Digits;
    var high := Digits(n / 100000, 10);
    DigitsVal(n / 100000, 10);
    HundredThousand();
    ValJoin(low, high, 10);
    DigitsOnly(low + high, 10);
  }

  /** put_dec: groups of five digits from do_div by 100000. */
  method PutDec(num0: nat) returns (ds: seq<nat>)
    ensures ds == Digits(num0, 10)
  {
    hide Val, Digits;
    var num := num0;
    ds := [];
    while num >= 100000
      invariant Digits(num0, 10) == ds + Digits(num, 10)
    {
      var rem := num % 100000;
      var low := PutDecFull(rem);
      Above(low, num);
      num := num / 100000;
      ds := ds + low;
    }
    var high := PutDecTrunc(num);
    ds := ds + high;
  }

  /** The digit loop of number for the bases 8 and 16. */
  lemma DigitsStep(num: nat, base: nat)
    requires base >= 2 && num >= 1
    ensures Digits(num, base) == if num < base then [num % base] else [num % base] + Digits(num / base, base)
    ensures num / base < num && (num < base <==> num / base == 0)
  {
    if num < base {
      DivModUnique(num, base, 0, num);
    } else {
      QuotientPositive(num, base);
      Euclid(num, base);
      MulAtLeast(num / base, 2);
      MulMono(2, base, num / base);
    }
  }

  lemma LowByte(num: nat, base: nat)
    requires base == 8 || base == 16
    ensures num % 256 % base == num % base
  {
  }

  /** The digits of number in the order in which they are made. */
  method NumberDigits(num0: nat, base: nat) returns (ds: seq<nat>)
    requires base == 8 || base == 10 || base == 16
    ensures ds == Digits(num0, base)
  {
    hide Digits;
    if num0 == 0 {
      DigitsZero(base);
      return [0];
    }
    if base == 10 {
      ds := PutDec(num0);
      return;
    }
    var num := num0;
    ds := [];
    while true
      invariant num >= 1 && Digits(num0, base) == ds + Digits(num, base)
      decreases num
    {
      DigitsStep(num, base);
      LowByte(num, base);
      DigitsAdded(ds, num % base, Digits(num / base, base));
      ds := ds + [num % 256 % base];
      num := num / base;
      if num == 0 { break; }
    }
  }

  lemma DigitsAdded(ds: seq<nat>, d: nat, rest: seq<nat>)
    ensures ds + ([d] + rest) == (ds + [d]) + rest
  {
  }

  lemma DigitsZero(base: nat)
    requires base >= 2
    ensures Digits(0, base) == [0]
  {
  }

  // ----- characters

  function DigitChar(d: nat, small: bool): char
    requires d < 16
  {
    if d < 10 then ('0' as int + d) as char else ((if small then 'a' else 'A') as int + d - 10) as char
  }

  /** The digits as text, the most significant first. */
  function Text(ds: seq<nat>, small: bool): (s: string)
    requires Below(ds, 16)
    ensures |s| == |ds|
  {
    if ds == [] then "" else Text(ds[1..], small) + [DigitChar(ds[0], small)]
  }

  predicate IsDigit(c: char)
  {
    '0' <= c <= '9'
  }

  predicate IsXDigit(c: char)
  {
    IsDigit(c) || 'a' <= c <= 'f' || 'A' <= c <= 'F'
  }

  function DigitValue(c: char): nat
    requires IsXDigit(c)
  {
    if IsDigit(c) then c as int - '0' as int
    else if 'a' <= c <= 'f' then c as int - 'a' as int + 10 else c as int - 'A' as int + 10
  }

  lemma CharValue(d: nat, small: bool)
    requires d < 16
    ensures IsXDigit(DigitChar(d, small)) && DigitValue(DigitChar(d, small)) == d
  {
  }

  /** A string ends with a zero character. */
  function At(s: string, i: nat): char
  {
    if i < |s| then s[i] else 0 as char
  }

  predicate IsX(c: char)
  {
    c == 'x' || c == 'X'
  }

  predicate InBase(c: char, base: nat)
  {
    IsXDigit(c) && DigitValue(c) < base
  }

  const WRAP: nat := 0x1_0000_0000_0000_0000

  /** Where the digits start, and their base. */
  function Begin(s: string, base: nat): (nat, nat)
  {
    if base == 0 then
      if At(s, 0) != '0' then (0, 10)
      else if IsX(At(s, 1)) && IsXDigit(At(s, 2)) then (2, 16) else (1, 8)
    else if base == 16 && At(s, 0) == '0' && IsX(At(s, 1)) then (2, 16)
    else (0, base)
  }

  function ParseFrom(s: string, i: nat, base: nat, acc: nat): (nat, nat)
    decreases |s| - i
  {
    if InBase(At(s, i), base) && i < |s| then ParseFrom(s, i + 1, base, (acc * base + DigitValue(At(s, i))) % WRAP)
    else (acc, i)
  }

  /** simple_strtoull: the value, and where the digits end. */
  method Strtoull(s: string, base0: nat) returns (result: nat, end: nat)
    ensures (result, end) == ParseFrom(s, Begin(s, base0).0, Begin(s, base0).1, 0)
  {
    var cp, base := 0, base0;
    if base == 0 {
      base := 10;
      if At(s, cp) == '0' {
        base := 8;
        cp := cp + 1;
        if IsX(At(s, cp)) && IsXDigit(At(s, cp + 1)) {
          cp := cp + 1;
          base := 16;
        }
      }
    } else if base == 16 {
      if At(s, 0) == '0' && IsX(At(s, 1)) { cp := cp + 2; }
    }
    result := 0;
    while InBase(At(s, cp), base)
      invariant ParseFrom(s, cp, base, result) == ParseFrom(s, Begin(s, base0).0, Begin(s, base0).1, 0)
      decreases |s| - cp
    {
      result := (result * base + DigitValue(At(s, cp))) % WRAP;
      cp := cp + 1;
    }
    end := cp;
  }

  // ----- there and back

  lemma {:induction false} TextTop(ds: seq<nat>, small: bool)
    requires Below(ds, 16) && ds != []
    ensures var n := |ds| - 1;
            Below(ds[..n], 16) && Text(ds, small) == [DigitChar(ds[n], small)] + Text(ds[..n], small)
  {
    hide DigitChar;
    var n := |ds| - 1;
    if n == 0 {
      assert ds[1..] == [] && ds[..0] == [];
    } else {
      var low, c := ds[..n], DigitChar(ds[n], small);
      TextTop(ds[1..], small);
      assert ds[1..][..n - 1] == low[1..] && ds[1..][n - 1] == ds[n];
      assert Text(low, small) == Text(low[1..], small) + [DigitChar(ds[0], small)];
      assert [c] + Text(low[1..], small) + [DigitChar(ds[0], small)] == [c] + Text(low, small);
    }
  }

  lemma TopDigit(ds: seq<nat>, b: nat)
    requires ds != []
    ensures var n := |ds| - 1; Val(ds, b) == Val(ds[..n], b) + Power(b, n) * ds[n]
  {
    hide Val, Power;
    var n := |ds| - 1;
    assert ds == ds[..n] + [ds[n]];
    ValJoin(ds[..n], [ds[n]], b);
    OneDigit(ds[n], ds[n] + 1);
    SingleVal(ds[n], b);
  }

  lemma SingleVal(d: nat, b: nat)
    ensures Val([d], b) == d
  {
    assert [d][1..] == [];
    assert b * 0 == 0;
  }

  /** Reading the text of some digits, after acc and before something that is not a digit. */
  lemma {:induction false} ParseText(s: string, i: nat, ds: seq<nat>, small: bool, base: nat, acc: nat)
    requires 2 <= base <= 16 && Below(ds, base) && Below(ds, 16) && i + |ds| <= |s| && s[i..i + |ds|] == Text(ds, small)
    requires !InBase(At(s, i + |ds|), base) && acc * Power(base, |ds|) + Val(ds, base) < WRAP
    ensures ParseFrom(s, i, base, acc) == (acc * Power(base, |ds|) + Val(ds, base), i + |ds|)
    decreases |ds|
  {
    hide Val, Power, Text, ParseFrom, InBase;
    if ds == [] {
      PowerSteps(base, 0);
      NoDigits(base);
      ParseStop(s, i, base, acc);
    } else {
      var n := |ds| - 1;
      var d, low := ds[n], ds[..n];
      TextTop(ds, small);
      CharValue(d, small);
      TopDigit(ds, base);
      PowerSteps(base, n);
      var p := Power(base, n);
      PowerPositive(base, n);
      Horner(acc, base, d, p);
      assert s[i] == s[i..i + |ds|][0];
      assert s[i + 1..i + 1 + n] == s[i..i + |ds|][1..];
      ParseStep(s, i, base, acc, d);
      ParseText(s, i + 1, low, small, base, acc * base + d);
    }
  }

  lemma ParseStop(s: string, i: nat, base: nat, acc: nat)
    requires !InBase(At(s, i), base)
    ensures ParseFrom(s, i, base, acc) == (acc, i)
  {
  }

  lemma ParseStep(s: string, i: nat, base: nat, acc: nat, d: nat)
    requires i < |s| && IsXDigit(s[i]) && DigitValue(s[i]) == d < base && acc * base + d < WRAP
    ensures ParseFrom(s, i, base, acc) == ParseFrom(s, i + 1, base, acc * base + d)
  {
    assert (acc * base + d) % WRAP == acc * base + d;
  }

  lemma PowerSteps(b: nat, n: nat)
    ensures Power(b, 0) == 1 && Power(b, n + 1) == b * Power(b, n)
  {
  }

  lemma NoDigits(b: nat)
    ensures Val([], b) == 0
  {
  }

  lemma {:induction false} PowerPositive(b: nat, n: nat)
    requires b >= 1
    ensures Power(b, n) >= 1
  {
    if n > 0 { PowerPositive(b, n - 1); }
  }

  lemma Horner(acc: nat, b: nat, d: nat, p: nat)
    requires p >= 1
    ensures (acc * b + d) * p == acc * (b * p) + p * d && acc * b + d <= (acc * b + d) * p
  {
    Distrib(acc * b, d, p);
    Assoc(acc, b, p);
    MulMono(1, p, acc * b + d);
  }

  /** Where parsing ends there is no digit. */
  lemma {:induction false} ParseEnd(s: string, i: nat, base: nat, acc: nat)
    ensures var (v, end) := ParseFrom(s, i, base, acc); end >= i && !InBase(At(s, end), base)
    decreases |s| - i
  {
    if InBase(At(s, i), base) { ParseEnd(s, i + 1, base, (acc * base + DigitValue(At(s, i))) % WRAP); }
  }

  /** What may follow the digits of v without being taken for a part of them, when the base is known. */
  predicate Stops(v: nat, base: nat, rest: string)
  {
    !InBase(At(rest, 0), base) && !(v == 0 && base == 16 && IsX(At(rest, 0)))
  }

  /** The same when the base is to be found out. */
  predicate StopsAuto(v: nat, base: nat, rest: string)
  {
    if v == 0 && base == 10 then !InBase(At(rest, 0), 8) && !(IsX(At(rest, 0)) && IsXDigit(At(rest, 1)))
    else !InBase(At(rest, 0), base)
  }

  /** The text of a number in base 8, 10 or 16. */
  ghost function Printed(v: nat, base: nat, small: bool): (s: string)
    requires base == 8 || base == 10 || base == 16
    ensures |s| >= 1
  {
    DigitsVal(v, base);
    Text(Digits(v, base), small)
  }

  lemma FirstChar(v: nat, base: nat, small: bool)
    requires base == 8 || base == 10 || base == 16
    ensures var s := Printed(v, base, small); IsXDigit(s[0]) && (v > 0 ==> s[0] != '0') && (v == 0 ==> s == "0")
  {
    hide Digits, Val;
    DigitsVal(v, base);
    var ds := Digits(v, base);
    TextTop(ds, small);
    CharValue(ds[|ds| - 1], small);
    if v == 0 {
      DigitsZero(base);
      TextTop([0], small);
    }
  }

  /** Digits behind some prefix are read as the number that was printed. */
  lemma ParsePrinted(pre: string, v: nat, base: nat, small: bool, rest: string)
    requires (base == 8 || base == 10 || base == 16) && v < WRAP && !InBase(At(rest, 0), base)
    ensures var p := Printed(v, base, small);
            ParseFrom(pre + p + rest, |pre|, base, 0) == (v, |pre| + |p|)
  {
    hide Digits, Val, ParseFrom;
    DigitsVal(v, base);
    var ds, p := Digits(v, base), Printed(v, base, small);
    var s := pre + p + rest;
    assert s[|pre|..|pre| + |p|] == p;
    assert At(s, |pre| + |p|) == At(rest, 0);
    ParseText(s, |pre|, ds, small, base, 0);
  }

  /** Printing a 64-bit number and parsing it in the same base gives it back, and ends where it ended,
      exactly if nothing that follows is taken for a part of it. */
  lemma PrintParse(v: nat, base: nat, small: bool, rest: string)
    requires (base == 8 || base == 10 || base == 16) && v < WRAP
    ensures var p := Printed(v, base, small);
            var (start, b) := Begin(p + rest, base);
            ParseFrom(p + rest, start, b, 0) == (v, |p|) <==> Stops(v, base, rest)
  {
    hide Printed, ParseFrom, InBase;
    var p := Printed(v, base, small);
    var s := p + rest;
    FirstChar(v, base, small);
    assert At(s, 0) == p[0] && At(s, |p|) == At(rest, 0);
    var (start, b) := Begin(s, base);
    ParseEnd(s, start, b, 0);
    if Stops(v, base, rest) {
      ParsePrinted("", v, base, small, rest);
      assert "" + p + rest == s;
    }
  }

  /** The prefix that number puts before the digits on demand. */
  function Prefix(base: nat, small: bool): string
  {
    if base == 16 then (if small then "0x" else "0X") else if base == 8 then "0" else ""
  }

  /** With its prefix a number is read back without being told its base. */
  lemma PrintParseAuto(v: nat, base: nat, small: bool, rest: string)
    requires (base == 8 || base == 10 || base == 16) && v < WRAP
    ensures var p := Prefix(base, small) + Printed(v, base, small);
            var (start, b) := Begin(p + rest, 0);
            ParseFrom(p + rest, start, b, 0) == (v, |p|) <==> StopsAuto(v, base, rest)
  {
    hide Printed, ParseFrom, InBase;
    var pre, p := Prefix(base, small), Printed(v, base, small);
    var s := pre + p + rest;
    FirstChar(v, base, small);
    var (start, b) := Begin(s, 0);
    ParseEnd(s, start, b, 0);
    assert At(s, |pre| + |p|) == At(rest, 0);
    BeginAuto(v, base, small, rest);
    if StopsAuto(v, base, rest) {
      if v == 0 && base == 10 {
        ZeroAlone(s);
      } else {
        ParsePrinted(pre, v, base, small, rest);
      }
    }
  }

  lemma BeginAuto(v: nat, base: nat, small: bool, rest: string)
    requires base == 8 || base == 10 || base == 16
    ensures var pre := Prefix(base, small);
            Begin(pre + Printed(v, base, small) + rest, 0) ==
            if v == 0 && base == 10 then (if IsX(At(rest, 0)) && IsXDigit(At(rest, 1)) then (2, 16) else (1, 8))
            else (|pre|, base)
  {
    hide Printed;
    var pre, p := Prefix(base, small), Printed(v, base, small);
    var s := pre + p + rest;
    FirstChar(v, base, small);
    if base == 16 {
      assert s[0] == '0' && IsX(s[1]) && s[2] == p[0];
    } else if base == 8 {
      OctalFirst(v, small);
      assert s[0] == '0' && s[1] == p[0];
    } else {
      assert s == p + rest;
      assert At(s, 0) == p[0];
      if v == 0 { assert At(s, 1) == At(rest, 0) && At(s, 2) == At(rest, 1); }
    }
  }

  lemma OctalFirst(v: nat, small: bool)
    ensures !IsX(Printed(v, 8, small)[0])
  {
    hide Printed;
    FirstChar(v, 8, small);
  }

  lemma ZeroAlone(s: string)
    requires |s| >= 1 && s[0] == '0' && !InBase(At(s, 1), 8)
    ensures ParseFrom(s, 1, 8, 0) == (0, 1)
  {
  }

  /** The code of both directions together, with and without the prefix. */
  method PrintThenParse(v: nat, base: nat, small: bool, prefixed: bool, rest: string)
    returns (printed: string, result: nat, end: nat)
    requires (base == 8 || base == 10 || base == 16) && v < WRAP
    ensures printed == (if prefixed then Prefix(base, small) else "") + Printed(v, base, small)
    ensures result == v && end == |printed| <==> if prefixed then StopsAuto(v, base, rest) else Stops(v, base, rest)
  {
    hide Digits, Val, Printed, ParseFrom, InBase, Stops, StopsAuto, Text;
    var ds := NumberDigits(v, base);
    PrintedIs(v, base, small);
    printed := Text(ds, small);
    if prefixed {
      PrintParseAuto(v, base, small, rest);
      printed := Prefix(base, small) + printed;
      result, end := Strtoull(printed + rest, 0);
    } else {
      PrintParse(v, base, small, rest);
      assert "" + printed == printed;
      result, end := Strtoull(printed + rest, base);
    }
  }

  lemma PrintedIs(v: nat, base: nat, small: bool)
    requires base == 8 || base == 10 || base == 16
    ensures Below(Digits(v, base), 16) && Printed(v, base, small) == Text(Digits(v, base), small)
  {
    DigitsVal(v, base);
  }
}
