/** The protocol by which the replayed process reads system call data from the host. */
module ReadProtocol {
  import opened Bits

  const START: nat := 0xf0f0f0f0
  const READ: nat := 0xe0e0e0e0
  const END: nat := 0x0f0f0f0f
  const SEND_BUF_SZ: nat := 4096
  const LIMIT: nat := 0x1_0000_0000

  /** A 32-bit number on the wire, and back. */
  function Word(v: nat): (s: seq<byte>)
    ensures |s| == 4
  {
    [v % 256, v / 256 % 256, v / 65536 % 256, v / 16777216 % 256]
  }

  function Value(s: seq<byte>): nat
    requires |s| == 4
  {
    s[0] as nat + 256 * (s[1] as nat) + 65536 * (s[2] as nat) + 16777216 * (s[3] as nat)
  }

  lemma WordValue(v: nat)
    requires v < LIMIT
    ensures Value(Word(v)) == v
  {
    var a, b, c := v / 256, v / 65536, v / 16777216;
    assert a / 256 == b && b / 256 == c;
    assert v == v % 256 + 256 * a && a == a % 256 + 256 * b && b == b % 256 + 256 * c;
  }

  function Sum(ls: seq<nat>): nat
  {
    if ls == [] then 0 else ls[0] + Sum(ls[1..])
  }

  // ----- the two sides

  /** What the target sends before it waits for data, or to finish. */
  function Batch(ls: seq<nat>): (s: seq<byte>)
    ensures |s| >= 4
  {
    if ls == [] then Word(END) else Word(READ) + Word(ls[0])
  }

  /** The target: sending the request for the first of the reads ls, or the end mark; waiting for
      n more bytes of a read; finished. */
  datatype Target = Sending(out: seq<byte>, ls: seq<nat>) | Waiting(n: nat, rest: seq<nat>) | Finished

  /** What the host waits for. */
  datatype What = Begin | Mark | Size

  datatype Host = Need(what: What, buf: seq<byte>) | Serving(pending: seq<byte>, left: nat) | Done | Failed

  /** Both sides, the bytes under way in both directions, what the target got, the log position.
      lag counts the reads of no bytes that the target is done with and the host has not seen; no
      step depends on it. */
  datatype Sys = Sys(t: Target, h: Host, up: seq<byte>, down: seq<byte>, got: seq<byte>, pos: nat, lag: nat)

  function Request(ls: seq<nat>): Target
  {
    Sending(Batch(ls), ls)
  }

  /** The target after sending: the next read, if it asked for one. */
  function AfterSend(ls: seq<nat>): Target
  {
    if ls == [] then Finished else if ls[0] == 0 then Request(ls[1..]) else Waiting(ls[0], ls[1..])
  }

  /** The host with `left` bytes of a read to serve: another chunk from the log, or the next mark. */
  function Serve(log: seq<byte>, pos: nat, left: nat): (Host, nat)
  {
    if left == 0 then (Need(Mark, []), pos)
    else
      var n := if left > SEND_BUF_SZ then SEND_BUF_SZ else left;
      if pos + n > |log| then (Failed, pos) else (Serving(log[pos..pos + n], left - n), pos + n)
  }

  /** The host with a whole word. */
  function Heard(log: seq<byte>, pos: nat, what: What, word: nat): (Host, nat)
  {
    match what
    case Begin => (if word == START then Need(Mark, []) else Failed, pos)
    case Mark => (if word == READ then Need(Size, []) else if word == END then Done else Failed, pos)
    case Size => Serve(log, pos, word)
  }

  /** Some bytes move: any number that fits, as send and recv see fit. */
  datatype Move = TSend(k: nat) | TRecv(k: nat) | HSend(k: nat) | HRecv(k: nat)

  predicate Enabled(cap: nat, s: Sys, m: Move)
  {
    m.k >= 1 &&
    match m
    case TSend(k) => s.t.Sending? && k <= |s.t.out| && |s.up| + k <= cap
    case TRecv(k) => s.t.Waiting? && k <= s.t.n && k <= |s.down|
    case HSend(k) => s.h.Serving? && k <= |s.h.pending| && |s.down| + k <= cap
    case HRecv(k) => s.h.Need? && |s.h.buf| + k <= 4 && k <= |s.up|
  }

  function Step(cap: nat, log: seq<byte>, s: Sys, m: Move): Sys
    requires Enabled(cap, s, m)
  {
    match m
    case TSend(k) =>
      var out := s.t.out[k..];
      s.(up := s.up + s.t.out[..k], t := if out == [] then AfterSend(s.t.ls) else Sending(out, s.t.ls),
         lag := if out == [] && s.t.ls != [] && s.t.ls[0] == 0 then s.lag + 1 else s.lag)
    case TRecv(k) =>
      s.(down := s.down[k..], got := s.got + s.down[..k],
         t := if s.t.n == k then Request(s.t.rest) else Waiting(s.t.n - k, s.t.rest))
    case HSend(k) =>
      var more := s.h.pending[k..];
      var (h, pos) := if more == [] then Serve(log, s.pos, s.h.left) else (Serving(more, s.h.left), s.pos);
      s.(down := s.down + s.h.pending[..k], h := h, pos := pos)
    case HRecv(k) =>
      var buf := s.h.buf + s.up[..k];
      var (h, pos) := if |buf| == 4 then Heard(log, s.pos, s.h.what, Value(buf)) else (Need(s.h.what, buf), s.pos);
      s.(up := s.up[k..], h := h, pos := pos,
         lag := if |buf| == 4 && s.h.what == Size && Value(buf) == 0 && s.lag > 0 then s.lag - 1 else s.lag)
  }

  function Init(ls: seq<nat>): Sys
  {
    Sys(Sending(Word(START) + Batch(ls), ls), Need(Begin, []), [], [], [], 0, 0)
  }

  // ----- the invariant

  /** k requests for no bytes. */
  function Reqs(k: nat): seq<byte>
  {
    if k == 0 then [] else Word(READ) + Word(0) + Reqs(k - 1)
  }

  /** The bytes that the host still has to see, when the target is at the request for ls. */
  function Expect(what: What, k: nat, ls: seq<nat>): (s: seq<byte>)
    requires what == Size && k == 0 ==> ls != []
    ensures |s| >= 4
  {
    match what
    case Begin => Word(START) + (Reqs(k) + Batch(ls))
    case Mark => Reqs(k) + Batch(ls)
    case Size => if k == 0 then Word(ls[0]) else Word(0) + (Reqs(k - 1) + Batch(ls))
  }

  /** The reads that are still to be served in full, as the target sees them. */
  function Asking(t: Target): seq<nat>
  {
    match t
    case Sending(_, ls) => ls
    case Waiting(n, rest) => [n] + rest
    case Finished => []
  }

  function Unsent(t: Target): seq<byte>
  {
    if t.Sending? then t.out else []
  }

  /** Requests are on their way up, and nothing on its way down. */
  predicate Asked(s: Sys)
  {
    && s.h.Need? && |s.h.buf| < 4 && s.down == []
    && (s.h.what == Size && s.lag == 0 ==> Asking(s.t) != [])
    && s.h.buf + s.up + Unsent(s.t) == Expect(s.h.what, s.lag, Asking(s.t))
  }

  /** The rest of a read is on its way down, or the host has no more of it, and nothing is on its way up. */
  predicate Served(s: Sys)
  {
    && s.t.Waiting? && s.up == [] && s.lag == 0
    && match s.h
       case Serving(pending, left) => pending != [] && s.t.n == |s.down| + |pending| + left
       case Need(what, buf) => what == Mark && buf == [] && s.t.n == |s.down|
       case Failed => |s.down| < s.t.n
       case _ => false
  }

  predicate Shape(s: Sys)
  {
    match s.t
    case Sending(out, ls) => out != [] && Asked(s)
    case Waiting(n, rest) => n > 0 && (Asked(s) || Served(s))
    case Finished => Asked(s) || (s.h == Done && s.up == [] && s.down == [])
  }

  predicate Small(ls: seq<nat>)
  {
    forall i :: 0 <= i < |ls| ==> ls[i] < LIMIT
  }

  function InHand(h: Host): seq<byte>
  {
    if h.Serving? then h.pending else []
  }

  /** The bytes that the host has yet to take from the log. */
  function Owed(s: Sys): nat
  {
    if s.t.Waiting? && s.h.Serving? then s.h.left + Sum(s.t.rest)
    else if s.t.Waiting? && s.h == Failed && |s.down| <= s.t.n then s.t.n - |s.down| + Sum(s.t.rest)
    else if s.t.Waiting? && s.down != [] then Sum(s.t.rest)
    else Sum(Asking(s.t))
  }

  predicate Inv(log: seq<byte>, s: Sys)
  {
    && Shape(s) && Small(Asking(s.t))
    && s.pos <= |log| && s.got + s.down + InHand(s.h) == log[..s.pos]
    && (s.h == Failed ==> s.pos + Owed(s) > |log| && s.pos + SEND_BUF_SZ > |log|)
  }

  lemma InitInv(log: seq<byte>, ls: seq<nat>)
    requires Small(ls)
    ensures Inv(log, Init(ls))
  {
    var s := Init(ls);
    assert Reqs(0) + Batch(ls) == Batch(ls);
    assert s.h.buf + s.up + Unsent(s.t) == Expect(Begin, 0, ls);
  }

  lemma {:induction false} ReqsEnd(k: nat)
    ensures Reqs(k) + (Word(READ) + Word(0)) == Reqs(k + 1)
  {
    if k == 0 {
      assert Reqs(0) == [];
    } else {
      ReqsEnd(k - 1);
      Regrouped(Word(READ) + Word(0), Reqs(k - 1), Word(READ) + Word(0));
    }
  }

  /** A request for no bytes after k others. */
  lemma ReqsBatch(k: nat, ls: seq<nat>)
    requires ls != [] && ls[0] == 0
    ensures Reqs(k) + Batch(ls) == Reqs(k + 1)
  {
    hide Word, Reqs;
    ReqsEnd(k);
  }

  lemma Regrouped(a: seq<byte>, b: seq<byte>, c: seq<byte>)
    ensures (a + b) + c == a + (b + c)
  {
  }

  /** Going on after a read of no bytes. */
  lemma ExpectZero(what: What, k: nat, ls: seq<nat>)
    requires ls != [] && ls[0] == 0
    ensures Expect(what, k, ls) + Batch(ls[1..]) == Expect(what, k + 1, ls[1..])
  {
    hide Word, Reqs, Batch;
    ReqsBatch(k, ls);
    var r := Batch(ls[1..]);
    match what
    case Begin => Regrouped(Word(START), Reqs(k + 1), r);
    case Mark =>
    case Size =>
      if k == 0 {
        NoReqs(r);
      } else {
        ReqsBatch(k - 1, ls);
        Regrouped(Word(0), Reqs(k), r);
      }
  }

  lemma NoReqs(r: seq<byte>)
    ensures Reqs(0) + r == r
  {
  }

  lemma TSendKeeps(cap: nat, log: seq<byte>, s: Sys, k: nat)
    requires Inv(log, s) && Enabled(cap, s, TSend(k))
    ensures Inv(log, Step(cap, log, s, TSend(k)))
  {
    hide Expect, Batch, Word, Reqs;
    var out, ls := s.t.out[k..], s.t.ls;
    var s' := Step(cap, log, s, TSend(k));
    assert s.t.out == s.t.out[..k] + out;
    assert s.h.buf + s'.up + out == s.h.buf + s.up + s.t.out;
    if out == [] && ls != [] {
      if ls[0] == 0 {
        ExpectZero(s.h.what, s.lag, ls);
        assert s.h.buf + s'.up + Batch(ls[1..]) == s.h.buf + s'.up + out + Batch(ls[1..]);
      } else {
        assert [ls[0]] + ls[1..] == ls;
      }
    }
  }

  lemma TRecvKeeps(cap: nat, log: seq<byte>, s: Sys, k: nat)
    requires Inv(log, s) && Enabled(cap, s, TRecv(k))
    ensures Inv(log, Step(cap, log, s, TRecv(k)))
  {
    hide Batch, Word, Sum, Reqs, Expect;
    var s' := Step(cap, log, s, TRecv(k));
    var n, rest := s.t.n, s.t.rest;
    assert s.down == s.down[..k] + s.down[k..];
    assert s'.got + s'.down + InHand(s.h) == s.got + s.down + InHand(s.h);
    assert Served(s);
    SmallTail(n, rest);
    SumCons(n, rest);
    SumCons(n - k, rest);
    if n == k {
      assert s.h == Need(Mark, []);
      NextRequest(rest);
    }
  }

  lemma SmallTail(n: nat, rest: seq<nat>)
    requires Small([n] + rest)
    ensures Small(rest) && forall m: nat :: m <= n ==> Small([m] + rest)
  {
    forall i | 0 <= i < |rest| ensures rest[i] < LIMIT { assert ([n] + rest)[i + 1] == rest[i]; }
    assert ([n] + rest)[0] == n;
  }

  lemma NextRequest(rest: seq<nat>)
    ensures [] + [] + Batch(rest) == Expect(Mark, 0, rest)
  {
    hide Batch;
    NoReqs(Batch(rest));
  }

  lemma HSendKeeps(cap: nat, log: seq<byte>, s: Sys, k: nat)
    requires Inv(log, s) && Enabled(cap, s, HSend(k))
    ensures Inv(log, Step(cap, log, s, HSend(k)))
  {
    hide Batch, Word, Expect, Sum, Reqs, Serve;
    var s' := Step(cap, log, s, HSend(k));
    var pending, left := s.h.pending, s.h.left;
    assert pending == pending[..k] + pending[k..];
    assert s.got + s'.down + pending[k..] == s.got + s.down + pending;
    if pending[k..] == [] { NextChunk(log, s.pos, left); }
  }

  /** Whatever the host goes on with, it has taken that much more of the log. */
  lemma NextChunk(log: seq<byte>, pos: nat, left: nat)
    requires pos <= |log|
    ensures var (h, pos') := Serve(log, pos, left);
            && pos <= pos' <= |log| && log[..pos] + InHand(h) == log[..pos']
            && match h
               case Serving(pending, left') => pending != [] && |pending| + left' == left && pos' == pos + |pending|
               case Need(what, buf) => what == Mark && buf == [] && left == 0
               case Failed => left > 0 && pos + left > |log| && pos + SEND_BUF_SZ > |log|
               case Done => false
  {
    var n := if left > SEND_BUF_SZ then SEND_BUF_SZ else left;
    if pos + n <= |log| { assert log[..pos + n] == log[..pos] + log[pos..pos + n]; }
  }

  /** The word that comes first, and what comes after it. */
  lemma ExpectHead(what: What, k: nat, ls: seq<nat>)
    requires what == Size && k == 0 ==> ls != []
    ensures var e := Expect(what, k, ls);
            match what
            case Begin => e[..4] == Word(START) && e[4..] == Expect(Mark, k, ls)
            case Mark =>
              if k == 0 && ls == [] then e[..4] == Word(END) && e[4..] == []
              else e[..4] == Word(READ) && e[4..] == Expect(Size, k, ls)
            case Size =>
              if k == 0 then e[..4] == Word(ls[0]) && e[4..] == []
              else e[..4] == Word(0) && e[4..] == Expect(Mark, k - 1, ls)
  {
    hide Word;
    if what == Mark {
      if k == 0 {
        assert Reqs(0) + Batch(ls) == Batch(ls);
      } else {
        assert Reqs(k) + Batch(ls) == Word(READ) + (Word(0) + (Reqs(k - 1) + Batch(ls)));
      }
    }
  }

  lemma MarkValues()
    ensures Value(Word(START)) == START && Value(Word(READ)) == READ && Value(Word(END)) == END && Value(Word(0)) == 0
  {
    WordValue(START);
    WordValue(READ);
    WordValue(END);
    WordValue(0);
  }

  lemma Cut(buf: seq<byte>, up: seq<byte>, out: seq<byte>, k: nat, e: seq<byte>)
    requires k <= |up| && |buf| + k == 4 && buf + up + out == e
    ensures buf + up[..k] == e[..4] && up[k..] + out == e[4..]
  {
    assert buf + up + out == (buf + up[..k]) + (up[k..] + out);
  }

  /** A change of what the host has heard keeps the rest. */
  lemma HeardKeeps(log: seq<byte>, s: Sys, s': Sys)
    requires Inv(log, s) && Asked(s) && s' == s.(h := s'.h, up := s'.up, lag := s'.lag)
    requires Asked(s') || (s.t == Finished && s'.h == Done && s'.up == [])
    ensures Inv(log, s')
  {
    hide Expect, Sum;
  }

  lemma HearerAsked(cap: nat, log: seq<byte>, s: Sys, k: nat)
    requires Inv(log, s) && Enabled(cap, s, HRecv(k))
    ensures Asked(s)
  {
    hide Expect, Sum;
  }

  lemma PartHeard(cap: nat, log: seq<byte>, s: Sys, k: nat)
    requires Asked(s) && Enabled(cap, s, HRecv(k)) && |s.h.buf| + k < 4
    ensures Asked(Step(cap, log, s, HRecv(k)))
    ensures var s' := Step(cap, log, s, HRecv(k)); s' == s.(h := s'.h, up := s'.up, lag := s'.lag)
  {
    hide Expect, Sum, Value;
    var buf := s.h.buf + s.up[..k];
    assert buf + s.up[k..] + Unsent(s.t) == s.h.buf + s.up + Unsent(s.t);
  }

  /** A whole word, but not the size of a read to serve. */
  lemma WordHeard(cap: nat, log: seq<byte>, s: Sys, k: nat)
    requires Asked(s) && Enabled(cap, s, HRecv(k)) && |s.h.buf| + k == 4 && !(s.h.what == Size && s.lag == 0)
    requires s.t.Sending? ==> s.t.out != []
    ensures var s' := Step(cap, log, s, HRecv(k));
            && s' == s.(h := s'.h, up := s'.up, lag := s'.lag)
            && (Asked(s') || (s.t == Finished && s'.h == Done && s'.up == []))
  {
    hide Expect, Sum, Value, Word, Reqs, Batch;
    var ls, rest := Asking(s.t), s.up[k..];
    Cut(s.h.buf, s.up, Unsent(s.t), k, Expect(s.h.what, s.lag, ls));
    ExpectHead(s.h.what, s.lag, ls);
    MarkValues();
    assert [] + rest + Unsent(s.t) == rest + Unsent(s.t);
  }

  lemma SizeHeard(cap: nat, log: seq<byte>, s: Sys, k: nat)
    requires Inv(log, s) && Asked(s) && Enabled(cap, s, HRecv(k)) && |s.h.buf| + k == 4 && s.h.what == Size
             && s.lag == 0
    ensures Inv(log, Step(cap, log, s, HRecv(k)))
  {
    hide Expect, Sum, Value, Word, Reqs, Batch;
    var s', ls := Step(cap, log, s, HRecv(k)), Asking(s.t);
    Cut(s.h.buf, s.up, Unsent(s.t), k, Expect(Size, 0, ls));
    ExpectHead(Size, 0, ls);
    assert Unsent(s.t) == [] && s'.up == [];
    assert s.t.Waiting?;
    WordValue(ls[0]);
    ServeKeeps(log, s, s', ls[0]);
  }

  lemma HRecvKeeps(cap: nat, log: seq<byte>, s: Sys, k: nat)
    requires Inv(log, s) && Enabled(cap, s, HRecv(k))
    ensures Inv(log, Step(cap, log, s, HRecv(k)))
  {
    hide Inv, Asked, Step;
    HearerAsked(cap, log, s, k);
    var s' := Step(cap, log, s, HRecv(k));
    if |s.h.buf| + k < 4 {
      PartHeard(cap, log, s, k);
      HeardKeeps(log, s, s');
    } else if s.h.what == Size && s.lag == 0 {
      SizeHeard(cap, log, s, k);
    } else {
      SendingSome(log, s);
      WordHeard(cap, log, s, k);
      HeardKeeps(log, s, s');
    }
  }

  lemma SendingSome(log: seq<byte>, s: Sys)
    requires Inv(log, s)
    ensures s.t.Sending? ==> s.t.out != []
  {
  }

  lemma ServeKeeps(log: seq<byte>, s: Sys, s': Sys, n: nat)
    requires Inv(log, s) && Asked(s) && s.t.Waiting? && s.t.n == n && s.lag == 0
             && Serve(log, s.pos, n) == (s'.h, s'.pos)
    requires s'.t == s.t && s'.up == [] && s'.down == s.down && s'.got == s.got && s'.lag == 0
    ensures Inv(log, s')
  {
    hide Expect, Sum, Serve;
    SumCons(n, s.t.rest);
    NextChunk(log, s.pos, n);
    assert s.got + [] + InHand(s'.h) == s.got + [] + [] + InHand(s'.h);
  }

  lemma StepKeeps(cap: nat, log: seq<byte>, s: Sys, m: Move)
    requires Inv(log, s) && Enabled(cap, s, m)
    ensures Inv(log, Step(cap, log, s, m))
  {
    hide Inv, Step;
    match m
    case TSend(k) => TSendKeeps(cap, log, s, k);
    case TRecv(k) => TRecvKeeps(cap, log, s, k);
    case HSend(k) => HSendKeeps(cap, log, s, k);
    case HRecv(k) => HRecvKeeps(cap, log, s, k);
  }

  // ----- every run

  predicate Runs(cap: nat, log: seq<byte>, s: Sys, ms: seq<Move>)
    decreases |ms|
  {
    ms != [] ==> Enabled(cap, s, ms[0]) && Runs(cap, log, Step(cap, log, s, ms[0]), ms[1..])
  }

  function After(cap: nat, log: seq<byte>, s: Sys, ms: seq<Move>): Sys
    requires Runs(cap, log, s, ms)
    decreases |ms|
  {
    if ms == [] then s else After(cap, log, Step(cap, log, s, ms[0]), ms[1..])
  }

  lemma {:induction false} RunKeeps(cap: nat, log: seq<byte>, s: Sys, ms: seq<Move>)
    requires Inv(log, s) && Runs(cap, log, s, ms)
    ensures Inv(log, After(cap, log, s, ms))
    decreases |ms|
  {
    hide Inv, Step;
    if ms != [] {
      StepKeeps(cap, log, s, ms[0]);
      RunKeeps(cap, log, Step(cap, log, s, ms[0]), ms[1..]);
    }
  }

  /** Somebody can always go on until both are done, or the host has failed and the target has all it sent. */
  lemma Progress(cap: nat, log: seq<byte>, s: Sys) returns (m: Move)
    requires Inv(log, s) && cap >= 1 && !(s.t == Finished && s.h == Done) && !(s.h == Failed && s.down == [])
    ensures Enabled(cap, s, m)
  {
    hide Expect, Batch, Word;
    if s.h.Serving? {
      m := if |s.down| < cap then HSend(1) else TRecv(1);
    } else if s.down != [] {
      m := TRecv(1);
    } else if s.up != [] {
      m := HRecv(1);
    } else {
      assert Asked(s);
      assert s.h.buf + s.up + Unsent(s.t) == s.h.buf + Unsent(s.t);
      m := TSend(1);
    }
  }

  /** The bytes that the target has yet to send after the request for ls. */
  function Later(ls: seq<nat>): nat
  {
    if ls == [] then 0 else |Batch(ls[1..])| + Later(ls[1..])
  }

  function UpLeft(t: Target): nat
  {
    match t
    case Sending(out, ls) => |out| + Later(ls)
    case Waiting(n, rest) => |Batch(rest)| + Later(rest)
    case Finished => 0
  }

  /** Every byte moves twice. */
  function Work(s: Sys): nat
  {
    2 * UpLeft(s.t) + |s.up| + 2 * (Owed(s) + |InHand(s.h)|) + |s.down|
  }

  /** Bytes taken from the log and bytes still owed. */
  function Data(s: Sys): nat
  {
    s.pos + Owed(s)
  }

  lemma SumCons(n: nat, rest: seq<nat>)
    ensures Sum([n] + rest) == n + Sum(rest)
  {
    assert ([n] + rest)[1..] == rest;
  }

  lemma TSendMoves(cap: nat, log: seq<byte>, s: Sys, k: nat)
    requires Inv(log, s) && Enabled(cap, s, TSend(k))
    ensures var s' := Step(cap, log, s, TSend(k)); Work(s') < Work(s) && Data(s') == Data(s)
  {
    hide Batch, Word, Expect, Sum;
    var ls := s.t.ls;
    if ls != [] {
      SumCons(ls[0], ls[1..]);
      assert [ls[0]] + ls[1..] == ls;
    }
  }

  lemma TRecvMoves(cap: nat, log: seq<byte>, s: Sys, k: nat)
    requires Inv(log, s) && Enabled(cap, s, TRecv(k))
    ensures var s' := Step(cap, log, s, TRecv(k)); Work(s') < Work(s) && Data(s') == Data(s)
  {
    hide Batch, Word, Expect, Sum;
    assert Served(s);
    SumCons(s.t.n, s.t.rest);
    SumCons(s.t.n - k, s.t.rest);
  }

  lemma TargetMoves(cap: nat, log: seq<byte>, s: Sys, m: Move)
    requires Inv(log, s) && Enabled(cap, s, m) && (m.TSend? || m.TRecv?)
    ensures var s' := Step(cap, log, s, m); Work(s') < Work(s) && Data(s') == Data(s)
  {
    hide Inv, Step, Work, Data;
    if m.TSend? { TSendMoves(cap, log, s, m.k); } else { TRecvMoves(cap, log, s, m.k); }
  }

  lemma HSendMoves(cap: nat, log: seq<byte>, s: Sys, m: Move)
    requires Inv(log, s) && Enabled(cap, s, m) && m.HSend?
    ensures var s' := Step(cap, log, s, m); Work(s') < Work(s) && Data(s') == Data(s)
  {
    hide Batch, Word, Expect, Value, UpLeft, Sum;
    assert Served(s);
  }

  lemma HRecvMoves(cap: nat, log: seq<byte>, s: Sys, m: Move)
    requires Inv(log, s) && Enabled(cap, s, m) && m.HRecv?
    ensures var s' := Step(cap, log, s, m); Work(s') < Work(s) && Data(s') == Data(s)
  {
    hide Batch, Word, Expect, Value, UpLeft, Sum, Reqs;
    assert Asked(s);
    var ls, buf := Asking(s.t), s.h.buf + s.up[..m.k];
    if |buf| == 4 {
      Cut(s.h.buf, s.up, Unsent(s.t), m.k, Expect(s.h.what, s.lag, ls));
      ExpectHead(s.h.what, s.lag, ls);
      MarkValues();
      if s.h.what == Size && s.lag == 0 {
        assert Unsent(s.t) == [];
        assert s.t.Waiting?;
        WordValue(ls[0]);
        ServeMoves(log, s, Step(cap, log, s, m), ls[0], m.k);
      }
    }
  }

  lemma ServeMoves(log: seq<byte>, s: Sys, s': Sys, n: nat, k: nat)
    requires Inv(log, s) && Asked(s) && s.t.Waiting? && s.t.n == n && s.lag == 0
             && Serve(log, s.pos, n) == (s'.h, s'.pos)
    requires s'.t == s.t && |s'.up| + k == |s.up| && s'.down == s.down && k >= 1
    ensures Work(s') < Work(s) && Data(s') == Data(s)
  {
    hide Batch, Word, Expect, Value, UpLeft, Sum;
    SumCons(n, s.t.rest);
  }

  lemma {:induction false} RunMoves(cap: nat, log: seq<byte>, s: Sys, ms: seq<Move>)
    requires Inv(log, s) && Runs(cap, log, s, ms)
    ensures Work(After(cap, log, s, ms)) + |ms| <= Work(s) && Data(After(cap, log, s, ms)) == Data(s)
    decreases |ms|
  {
    hide Inv, Step, Work, Data;
    if ms != [] {
      StepKeeps(cap, log, s, ms[0]);
      if ms[0].TSend? || ms[0].TRecv? {
        TargetMoves(cap, log, s, ms[0]);
      } else if ms[0].HSend? {
        HSendMoves(cap, log, s, ms[0]);
      } else {
        HRecvMoves(cap, log, s, ms[0]);
      }
      RunMoves(cap, log, Step(cap, log, s, ms[0]), ms[1..]);
    }
  }

  /** In every state of every run the target has got exactly the log up to where its reads are; the host
      has seen no mark that it did not expect, and fails only for reads past the end of the log. */
  lemma ReadsExact(cap: nat, log: seq<byte>, ls: seq<nat>, ms: seq<Move>)
    requires Small(ls) && Runs(cap, log, Init(ls), ms)
    ensures var s := After(cap, log, Init(ls), ms);
            && |s.got| <= |log| && s.got == log[..|s.got|] && |s.got| + Sum(Asking(s.t)) == Sum(ls)
            && (s.h == Failed ==> Sum(ls) > |log|)
  {
    hide Inv, Init, Runs, After, Data, Sum, Step;
    InitInv(log, ls);
    RunKeeps(cap, log, Init(ls), ms);
    RunMoves(cap, log, Init(ls), ms);
    var s := After(cap, log, Init(ls), ms);
    GotSoFar(log, s);
    InitOwes(ls);
  }

  lemma InitOwes(ls: seq<nat>)
    ensures Data(Init(ls)) == Sum(ls)
  {
    hide Sum, Word, Batch;
  }

  lemma GotSoFar(log: seq<byte>, s: Sys)
    requires Inv(log, s)
    ensures |s.got| <= |log| && s.got == log[..|s.got|] && |s.got| + Sum(Asking(s.t)) == Data(s)
    ensures s.h == Failed ==> Data(s) > |log|
  {
    hide Expect, Sum;
    assert |s.got + s.down + InHand(s.h)| == s.pos;
    assert (s.got + s.down + InHand(s.h))[..|s.got|] == s.got;
    if s.t.Waiting? { SumCons(s.t.n, s.t.rest); }
  }

  /** Both sides are done, the channels are empty, and all the data has arrived. */
  predicate Complete(log: seq<byte>, ls: seq<nat>, s: Sys)
  {
    && s.t == Finished && s.h == Done && s.up == [] && s.down == []
    && Sum(ls) <= |log| && s.got == log[..Sum(ls)]
  }

  /** The log was too short: the host has given up on a chunk of it, and the target, which has got all
      chunks before that one, waits for ever. */
  predicate Stuck(log: seq<byte>, s: Sys)
  {
    && s.t.Waiting? && s.h == Failed && s.up == [] && s.down == []
    && |s.got| <= |log| < |s.got| + SEND_BUF_SZ && s.got == log[..|s.got|]
  }

  /** No run goes on for ever, and one that cannot go on is complete if and only if the log has enough for
      all the reads. */
  lemma CompleteIff(cap: nat, log: seq<byte>, ls: seq<nat>, ms: seq<Move>)
    requires cap >= 1 && Small(ls) && Runs(cap, log, Init(ls), ms)
    ensures |ms| <= Work(Init(ls))
    ensures var s := After(cap, log, Init(ls), ms);
            (forall m :: !Enabled(cap, s, m)) ==>
              if Sum(ls) <= |log| then Complete(log, ls, s) else Stuck(log, s)
  {
    hide Inv, Work, Data, Enabled, Sum;
    InitInv(log, ls);
    RunKeeps(cap, log, Init(ls), ms);
    RunMoves(cap, log, Init(ls), ms);
    ReadsExact(cap, log, ls, ms);
    var s := After(cap, log, Init(ls), ms);
    if s.t == Finished && s.h == Done {
      DoneEmpty(log, s);
    } else if s.h == Failed && s.down == [] {
      FailedShape(log, s);
    } else {
      var m := Progress(cap, log, s);
    }
  }

  lemma DoneEmpty(log: seq<byte>, s: Sys)
    requires Inv(log, s) && s.t == Finished && s.h == Done
    ensures s.up == [] && s.down == [] && Sum(Asking(s.t)) == 0
  {
  }

  lemma FailedShape(log: seq<byte>, s: Sys)
    requires Inv(log, s) && s.h == Failed && s.down == []
    ensures Stuck(log, s)
  {
    hide Expect, Sum;
    assert s.got + [] + [] == s.got;
  }
}
