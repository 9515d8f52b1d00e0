/** Structured exceptions on top of setjmp and longjmp: TRY, FINALLY, CATCH and THROW. */
module Exceptions {
  // ----- programs

  const NO_EXCEPTION: nat := 0
  const UNCATCHABLE: nat := 25
  const LV_NONE: nat := 0
  const LV_TAINTED: nat := 2
  const LV_UNCATCHABLE: nat := 4

  datatype Exc = Exc(kind: nat, level: nat, val: int)

  const NONE := Exc(NO_EXCEPTION, LV_NONE, 0)

  /** Statements, as far as exceptions see them.  Try stands for TRY, FINALLY and CATCH on the
      exception variable x; EatSmall for EAT_SMALL_EXP. */
  datatype Stmt =
    | Skip
    | Act(n: nat)
    | Throw(e: Exc)
    | Rethrow(x: nat)
    | EatSmall(x: nat)
    | Break
    | Continue
    | Seq(first: Stmt, second: Stmt)
    | Try(x: nat, body: Stmt, fin: Stmt, handler: Stmt)

  type Env = map<nat, Exc>

  function Get(env: Env, x: nat): Exc
  {
    if x in env then env[x] else NONE
  }

  /** What throw_exception makes of its arguments. */
  function Raised(e: Exc): Exc
  {
    if e.level >= LV_UNCATCHABLE then Exc(UNCATCHABLE, LV_UNCATCHABLE, e.val) else e
  }

  // ----- what programs mean

  datatype Outcome = Normal | Broke | Continued | Raise(e: Exc)

  datatype Result = Result(out: Outcome, env: Env, trace: seq<nat>)

  predicate Eats(e: Exc)
  {
    1 <= e.level <= LV_TAINTED
  }

  function Eval(s: Stmt, env: Env): Result
  {
    match s
    case Skip => Result(Normal, env, [])
    case Act(n) => Result(Normal, env, [n])
    case Throw(e) => Result(Raise(Raised(e)), env, [])
    case Rethrow(x) => Result(Raise(Raised(Get(env, x))), env, [])
    case EatSmall(x) =>
      if Eats(Get(env, x)) then Result(Normal, env, []) else Result(Raise(Raised(Get(env, x))), env, [])
    case Break => Result(Broke, env, [])
    case Continue => Result(Continued, env, [])
    case Seq(a, b) =>
      var r := Eval(a, env);
      if r.out != Normal then r else var q := Eval(b, r.env); Result(q.out, q.env, r.trace + q.trace)
    case Try(x, b, f, h) =>
      var r := Eval(b, env[x := NONE]);
      var env1 := if r.out.Raise? then r.env[x := r.out.e] else r.env;
      var q := Eval(f, env1);
      if q.out != Normal then Result(q.out, q.env, r.trace + q.trace)
      else if Get(q.env, x).kind == NO_EXCEPTION then Result(Normal, q.env, r.trace + q.trace)
      else var p := Eval(h, q.env); Result(p.out, p.env, r.trace + q.trace + p.trace)
  }

  // ----- the machine

  datatype Phase = INIT | EXEC_BODY | WAIT_FINALLY | THROWN

  datatype Action = ITER_0 | FINALLY | THROW

  /** The code still to run: a statement, the test of the loop of TRY, FINALLY, or CATCH. */
  datatype Frame = Do(s: Stmt) | Loop(body: Stmt) | Final(fin: Stmt) | Test(x: nat, handler: Stmt)

  /** The jump buffer holds the code from the point of setjmp on. */
  datatype Catcher = Catcher(phase: Phase, x: nat, buf: seq<Frame>)

  datatype Machine =
    | Run(code: seq<Frame>, stack: seq<Catcher>, env: Env, trace: seq<nat>)
    | Fatal(e: Exc, trace: seq<nat>)
    | Fault

  datatype Turn = Bad | Turn(go: bool, stack: seq<Catcher>)

  /** exceptions_state_mc on the current catcher, the first of the stack. */
  function StateMc(stack: seq<Catcher>, action: Action): Turn
    requires stack != []
  {
    var c, rest := stack[0], stack[1..];
    match (c.phase, action)
    case (INIT, ITER_0) => Turn(true, [c.(phase := EXEC_BODY)] + rest)
    case (EXEC_BODY, ITER_0) => Turn(false, [c.(phase := WAIT_FINALLY)] + rest)
    case (EXEC_BODY, THROW) => Turn(false, [c.(phase := THROWN)] + rest)
    case (EXEC_BODY, FINALLY) => Turn(true, rest)
    case (WAIT_FINALLY, FINALLY) => Turn(true, rest)
    case (THROWN, ITER_0) => Turn(false, [c.(phase := WAIT_FINALLY)] + rest)
    case (_, _) => Bad
  }

  /** The code after the innermost loop, or from its test on. */
  function AfterLoop(code: seq<Frame>): seq<Frame>
  {
    if code == [] then [] else if code[0].Loop? then code[1..] else AfterLoop(code[1..])
  }

  function AtLoop(code: seq<Frame>): seq<Frame>
  {
    if code == [] then [] else if code[0].Loop? then code else AtLoop(code[1..])
  }

  /** __throw_exception. */
  function ThrowTo(stack: seq<Catcher>, env: Env, trace: seq<nat>, e: Exc): Machine
  {
    if stack == [] then Fatal(Raised(e), trace)
    else match StateMc(stack, THROW)
         case Bad => Fault
         case Turn(_, stack') => Run(stack[0].buf, stack', env[stack[0].x := Raised(e)], trace)
  }

  function StepStmt(s: Stmt, k: seq<Frame>, stack: seq<Catcher>, env: Env, trace: seq<nat>): Machine
  {
    match s
    case Skip => Run(k, stack, env, trace)
    case Act(n) => Run(k, stack, env, trace + [n])
    case Throw(e) => ThrowTo(stack, env, trace, e)
    case Rethrow(x) => ThrowTo(stack, env, trace, Get(env, x))
    case EatSmall(x) => if Eats(Get(env, x)) then Run(k, stack, env, trace) else ThrowTo(stack, env, trace, Get(env, x))
    case Break => Run(AfterLoop(k), stack, env, trace)
    case Continue => Run(AtLoop(k), stack, env, trace)
    case Seq(a, b) => Run([Do(a), Do(b)] + k, stack, env, trace)
    case Try(x, b, f, h) =>
      var code := [Loop(b), Final(f), Test(x, h)] + k;
      Run(code, [Catcher(INIT, x, code)] + stack, env[x := NONE], trace)
  }

  function Step(m: Machine): Machine
  {
    if !m.Run? || m.code == [] then m
    else
      var k := m.code[1..];
      match m.code[0]
      case Do(s) => StepStmt(s, k, m.stack, m.env, m.trace)
      case Loop(b) =>
        if m.stack == [] then Fault
        else (match StateMc(m.stack, ITER_0)
              case Bad => Fault
              case Turn(go, stack) => Run(if go then [Do(b)] + m.code else k, stack, m.env, m.trace))
      case Final(f) =>
        if m.stack == [] then Fault
        else (match StateMc(m.stack, FINALLY)
              case Bad => Fault
              case Turn(_, stack) => Run([Do(f)] + k, stack, m.env, m.trace))
      case Test(x, h) => Run(if Get(m.env, x).kind != NO_EXCEPTION then [Do(h)] + k else k, m.stack, m.env, m.trace)
  }

  function Steps(m: Machine, n: nat): Machine
    decreases n
  {
    if n == 0 then m else Steps(Step(m), n - 1)
  }

  lemma {:induction false} StepsJoin(m: Machine, a: nat, b: nat)
    ensures Steps(Steps(m, a), b) == Steps(m, a + b)
    decreases a
  {
    hide Step;
    if a > 0 { StepsJoin(Step(m), a - 1, b); }
  }

  // ----- the machine does what the program means

  /** The innermost catcher, if any, is running its body. */
  predicate Active(stack: seq<Catcher>)
  {
    stack != [] ==> stack[0].phase == EXEC_BODY
  }

  /** Where a statement with result r leaves the machine. */
  function Leaves(r: Result, k: seq<Frame>, stack: seq<Catcher>, trace: seq<nat>): Machine
  {
    var tr := trace + r.trace;
    match r.out
    case Normal => Run(k, stack, r.env, tr)
    case Broke => Run(AfterLoop(k), stack, r.env, tr)
    case Continued => Run(AtLoop(k), stack, r.env, tr)
    case Raise(e) =>
      if stack == [] then Fatal(e, tr)
      else Run(stack[0].buf, [stack[0].(phase := THROWN)] + stack[1..], r.env[stack[0].x := e], tr)
  }

  lemma OneStep(m: Machine)
    ensures Steps(m, 1) == Step(m)
  {
    hide Step;
    assert Steps(Step(m), 0) == Step(m);
  }

  lemma Simple(s: Stmt, k: seq<Frame>, stack: seq<Catcher>, env: Env, trace: seq<nat>)
    requires Active(stack) && !s.Seq? && !s.Try?
    ensures Step(Run([Do(s)] + k, stack, env, trace)) == Leaves(Eval(s, env), k, stack, trace)
  {
    assert ([Do(s)] + k)[1..] == k;
    assert trace + [] == trace;
  }

  function TryCode(s: Stmt, k: seq<Frame>): seq<Frame>
    requires s.Try?
  {
    [Loop(s.body), Final(s.fin), Test(s.x, s.handler)] + k
  }

  /** Entering TRY: two steps bring the machine into the body. */
  lemma EnterTry(s: Stmt, k: seq<Frame>, stack: seq<Catcher>, env: Env, trace: seq<nat>)
    requires s.Try?
    ensures var code := TryCode(s, k);
            Steps(Run([Do(s)] + k, stack, env, trace), 2) ==
            Run([Do(s.body)] + code, [Catcher(EXEC_BODY, s.x, code)] + stack, env[s.x := NONE], trace)
  {
    var m, code := Run([Do(s)] + k, stack, env, trace), TryCode(s, k);
    assert ([Do(s)] + k)[1..] == k;
    var m1 := Run(code, [Catcher(INIT, s.x, code)] + stack, env[s.x := NONE], trace);
    assert Step(m) == m1;
    assert ([Catcher(INIT, s.x, code)] + stack)[1..] == stack;
    OneStep(m);
    OneStep(m1);
    StepsJoin(m, 1, 1);
  }

  /** However the body ends, at most two steps later FINALLY has popped the catcher. */
  lemma LeaveBody(s: Stmt, k: seq<Frame>, stack: seq<Catcher>, r: Result, trace: seq<nat>) returns (n: nat)
    requires s.Try?
    ensures var code := TryCode(s, k);
            var env := if r.out.Raise? then r.env[s.x := r.out.e] else r.env;
            Steps(Leaves(r, code, [Catcher(EXEC_BODY, s.x, code)] + stack, trace), n) ==
            Run([Do(s.fin), Test(s.x, s.handler)] + k, stack, env, trace + r.trace)
  {
    var code, c := TryCode(s, k), Catcher(EXEC_BODY, s.x, TryCode(s, k));
    var env := if r.out.Raise? then r.env[s.x := r.out.e] else r.env;
    var m := Leaves(r, code, [c] + stack, trace);
    var after := [Final(s.fin), Test(s.x, s.handler)] + k;
    assert code[1..] == after && ([c] + stack)[1..] == stack;
    assert AfterLoop(code) == after && AtLoop(code) == code;
    var last := Run([Do(s.fin), Test(s.x, s.handler)] + k, stack, env, trace + r.trace);
    if r.out == Broke {
      FinalStep(s, k, c, stack, env, trace + r.trace);
      OneStep(m);
      n := 1;
    } else {
      var c1 := c.(phase := WAIT_FINALLY);
      var m1 := Run(after, [c1] + stack, env, trace + r.trace);
      assert ([c.(phase := THROWN)] + stack)[1..] == stack;
      assert Step(m) == m1;
      FinalStep(s, k, c1, stack, env, trace + r.trace);
      OneStep(m);
      OneStep(m1);
      StepsJoin(m, 1, 1);
      n := 2;
    }
  }

  lemma FinalStep(s: Stmt, k: seq<Frame>, c: Catcher, stack: seq<Catcher>, env: Env, trace: seq<nat>)
    requires s.Try? && (c.phase == EXEC_BODY || c.phase == WAIT_FINALLY)
    ensures Step(Run([Final(s.fin), Test(s.x, s.handler)] + k, [c] + stack, env, trace)) ==
            Run([Do(s.fin), Test(s.x, s.handler)] + k, stack, env, trace)
  {
    var code := [Final(s.fin), Test(s.x, s.handler)] + k;
    assert ([c] + stack)[1..] == stack;
    assert code[1..] == [Test(s.x, s.handler)] + k;
    assert [Do(s.fin)] + ([Test(s.x, s.handler)] + k) == [Do(s.fin), Test(s.x, s.handler)] + k;
  }

  lemma TestStep(x: nat, h: Stmt, k: seq<Frame>, stack: seq<Catcher>, env: Env, trace: seq<nat>)
    ensures Step(Run([Test(x, h)] + k, stack, env, trace)) ==
            Run(if Get(env, x).kind != NO_EXCEPTION then [Do(h)] + k else k, stack, env, trace)
    ensures AfterLoop([Test(x, h)] + k) == AfterLoop(k) && AtLoop([Test(x, h)] + k) == AtLoop(k)
  {
    assert ([Test(x, h)] + k)[1..] == k;
  }

  lemma SeqStep(a: Stmt, b: Stmt, k: seq<Frame>, stack: seq<Catcher>, env: Env, trace: seq<nat>)
    ensures Step(Run([Do(Seq(a, b))] + k, stack, env, trace)) == Run([Do(a)] + ([Do(b)] + k), stack, env, trace)
    ensures AfterLoop([Do(b)] + k) == AfterLoop(k) && AtLoop([Do(b)] + k) == AtLoop(k)
  {
    assert ([Do(Seq(a, b))] + k)[1..] == k;
    assert ([Do(b)] + k)[1..] == k;
    assert [Do(a), Do(b)] + k == [Do(a)] + ([Do(b)] + k);
  }

  /** The machine reaches what the program means: it never faults, every FINALLY runs once, and
      except for a throw to the catcher outside the stack of catchers is as before. */
  lemma {:induction false} Simulates(s: Stmt, k: seq<Frame>, stack: seq<Catcher>, env: Env, trace: seq<nat>)
    returns (n: nat)
    requires Active(stack)
    ensures Steps(Run([Do(s)] + k, stack, env, trace), n) == Leaves(Eval(s, env), k, stack, trace)
    decreases s, 2
  {
    hide Step, Steps, StateMc, Leaves, Eval;
    var m := Run([Do(s)] + k, stack, env, trace);
    match s
    case Seq(a, b) =>
      SeqStep(a, b, k, stack, env, trace);
      OneStep(m);
      var r := Eval(a, env);
      var i := Simulates(a, [Do(b)] + k, stack, env, trace);
      StepsJoin(m, 1, i);
      SeqLeaves(a, b, k, stack, env, trace);
      n := 1 + i;
      if r.out == Normal {
        var j := Simulates(b, k, stack, r.env, trace + r.trace);
        StepsJoin(m, n, j);
        n := n + j;
      }
    case Try(x, b, f, h) =>
      n := SimulatesTry(s, k, stack, env, trace);
    case _ =>
      Simple(s, k, stack, env, trace);
      OneStep(m);
      n := 1;
  }

  /** One statement after the other leaves what the second leaves, or the first if it does not end. */
  lemma SeqLeaves(a: Stmt, b: Stmt, k: seq<Frame>, stack: seq<Catcher>, env: Env, trace: seq<nat>)
    ensures var r, s := Eval(a, env), Eval(Seq(a, b), env);
            if r.out == Normal then
              && Leaves(r, [Do(b)] + k, stack, trace) == Run([Do(b)] + k, stack, r.env, trace + r.trace)
              && Leaves(s, k, stack, trace) == Leaves(Eval(b, r.env), k, stack, trace + r.trace)
            else Leaves(r, [Do(b)] + k, stack, trace) == Leaves(s, k, stack, trace)
  {
    hide Eval, AfterLoop, AtLoop;
    EvalSeq(a, b, env);
    DoLoop(b, k);
    var r := Eval(a, env);
    if r.out == Normal { LeavesLater(Eval(b, r.env), k, stack, trace, r.trace); }
  }

  lemma EvalSeq(a: Stmt, b: Stmt, env: Env)
    ensures var r := Eval(a, env);
            Eval(Seq(a, b), env) == if r.out != Normal then r else After(Eval(b, r.env), r.trace)
  {
  }

  lemma DoLoop(b: Stmt, k: seq<Frame>)
    ensures AfterLoop([Do(b)] + k) == AfterLoop(k) && AtLoop([Do(b)] + k) == AtLoop(k)
  {
    assert ([Do(b)] + k)[1..] == k;
  }

  lemma {:induction false} SimulatesTry(s: Stmt, k: seq<Frame>, stack: seq<Catcher>, env: Env, trace: seq<nat>)
    returns (n: nat)
    requires Active(stack) && s.Try?
    ensures Steps(Run([Do(s)] + k, stack, env, trace), n) == Leaves(Eval(s, env), k, stack, trace)
    decreases s, 1
  {
    hide Step, Steps, StateMc, Leaves, AfterLoop, AtLoop;
    var m, code := Run([Do(s)] + k, stack, env, trace), TryCode(s, k);
    var inner := [Catcher(EXEC_BODY, s.x, code)] + stack;
    EnterTry(s, k, stack, env, trace);
    var r := Eval(s.body, env[s.x := NONE]);
    var i := Simulates(s.body, code, inner, env[s.x := NONE], trace);
    StepsJoin(m, 2, i);
    var j := LeaveBody(s, k, stack, r, trace);
    StepsJoin(m, 2 + i, j);
    var env1 := if r.out.Raise? then r.env[s.x := r.out.e] else r.env;
    var rest := [Test(s.x, s.handler)] + k;
    assert [Do(s.fin), Test(s.x, s.handler)] + k == [Do(s.fin)] + rest;
    var q := Eval(s.fin, env1);
    var l := Simulates(s.fin, rest, stack, env1, trace + r.trace);
    StepsJoin(m, 2 + i + j, l);
    n := 2 + i + j + l;
    var more := FinishTry(s, k, stack, env, trace, r, q);
    StepsJoin(m, n, more);
    n := n + more;
  }

  /** After the FINALLY block: out with its own outcome, or on to CATCH. */
  lemma {:induction false} FinishTry(s: Stmt, k: seq<Frame>, stack: seq<Catcher>, env: Env, trace: seq<nat>,
                                     r: Result, q: Result)
    returns (n: nat)
    requires Active(stack) && s.Try? && r == Eval(s.body, env[s.x := NONE])
    requires q == Eval(s.fin, if r.out.Raise? then r.env[s.x := r.out.e] else r.env)
    ensures Steps(Leaves(q, [Test(s.x, s.handler)] + k, stack, trace + r.trace), n) ==
            Leaves(Eval(s, env), k, stack, trace)
    decreases s, 0
  {
    hide Step, Steps, StateMc, Leaves, Eval, AfterLoop, AtLoop;
    var m := Leaves(q, [Test(s.x, s.handler)] + k, stack, trace + r.trace);
    EvalTry(s, env, r, q);
    LeavesTest(q, s.x, s.handler, k, stack, trace, r.trace);
    NoSteps(m);
    n := 0;
    if q.out == Normal {
      OneStep(m);
      n := 1;
      if Get(q.env, s.x).kind != NO_EXCEPTION {
        var i := Simulates(s.handler, k, stack, q.env, trace + r.trace + q.trace);
        StepsJoin(m, 1, i);
        n := 1 + i;
        LeavesLater(Eval(s.handler, q.env), k, stack, trace, r.trace + q.trace);
        assert trace + r.trace + q.trace == trace + (r.trace + q.trace);
      } else {
        LeavesNormal(Eval(s, env), k, stack, trace);
        assert trace + r.trace + q.trace == trace + (r.trace + q.trace);
      }
    }
  }

  lemma EvalTry(s: Stmt, env: Env, r: Result, q: Result)
    requires s.Try? && r == Eval(s.body, env[s.x := NONE])
    requires q == Eval(s.fin, if r.out.Raise? then r.env[s.x := r.out.e] else r.env)
    ensures q.out != Normal ==> Eval(s, env) == Result(q.out, q.env, r.trace + q.trace)
    ensures q.out == Normal && Get(q.env, s.x).kind == NO_EXCEPTION ==>
              Eval(s, env) == Result(Normal, q.env, r.trace + q.trace)
    ensures q.out == Normal && Get(q.env, s.x).kind != NO_EXCEPTION ==>
              Eval(s, env) == After(Eval(s.handler, q.env), r.trace + q.trace)
  {
  }

  /** A result with a trace before it. */
  function After(r: Result, trace: seq<nat>): Result
  {
    Result(r.out, r.env, trace + r.trace)
  }

  lemma LeavesLater(r: Result, k: seq<Frame>, stack: seq<Catcher>, trace: seq<nat>, more: seq<nat>)
    ensures Leaves(r, k, stack, trace + more) == Leaves(After(r, more), k, stack, trace)
  {
    assert trace + more + r.trace == trace + (more + r.trace);
  }

  lemma LeavesNormal(r: Result, k: seq<Frame>, stack: seq<Catcher>, trace: seq<nat>)
    requires r.out == Normal
    ensures Leaves(r, k, stack, trace) == Run(k, stack, r.env, trace + r.trace)
  {
  }

  /** CATCH does not get in the way of what leaves the FINALLY block. */
  lemma LeavesTest(q: Result, x: nat, h: Stmt, k: seq<Frame>, stack: seq<Catcher>, trace: seq<nat>, more: seq<nat>)
    ensures var m := Leaves(q, [Test(x, h)] + k, stack, trace + more);
            && (q.out != Normal ==> m == Leaves(After(q, more), k, stack, trace))
            && (q.out == Normal ==>
                  Step(m) == Run(if Get(q.env, x).kind != NO_EXCEPTION then [Do(h)] + k else k, stack, q.env,
                                 trace + more + q.trace))
  {
    hide AfterLoop, AtLoop, Step;
    TestStep(x, h, k, stack, q.env, trace + more + q.trace);
    LeavesLater(q, k, stack, trace, more);
  }

  lemma NoSteps(m: Machine)
    ensures Steps(m, 0) == m
  {
  }

  // ----- whole programs

  lemma {:induction false} FaultStays(n: nat)
    ensures Steps(Fault, n) == Fault
  {
    if n > 0 { FaultStays(n - 1); }
  }

  lemma {:induction false} Done(m: Machine, n: nat)
    requires (m.Run? && m.code == []) || m.Fatal?
    ensures Steps(m, n) == m
  {
    if n > 0 { Done(m, n - 1); }
  }

  /** A program from start to end: it finishes with an empty stack of catchers, or stops with the
      exception that nothing catches. */
  lemma Program(s: Stmt) returns (n: nat)
    ensures var r := Eval(s, map[]);
            Steps(Run([Do(s)], [], map[], []), n) ==
            if r.out.Raise? then Fatal(r.out.e, r.trace) else Run([], [], r.env, r.trace)
  {
    hide Eval, Steps;
    n := Simulates(s, [], [], map[], []);
    assert [Do(s)] + [] == [Do(s)];
    assert [] + Eval(s, map[]).trace == Eval(s, map[]).trace;
  }

  /** In no state of a run is the state machine of a catcher given an action it does not expect. */
  lemma NeverFaults(s: Stmt, j: nat)
    ensures Steps(Run([Do(s)], [], map[], []), j) != Fault
  {
    hide Eval, Steps;
    var m := Run([Do(s)], [], map[], []);
    var n := Program(s);
    if j <= n {
      StepsJoin(m, j, n - j);
      FaultStays(n - j);
    } else {
      StepsJoin(m, n, j - n);
      Done(Steps(m, n), j - n);
    }
  }

  // ----- CATCH and the exception variable

  /** The exception variables of the TRY statements in s. */
  function Vars(s: Stmt): set<nat>
  {
    match s
    case Seq(a, b) => Vars(a) + Vars(b)
    case Try(x, b, f, h) => {x} + Vars(b) + Vars(f) + Vars(h)
    case _ => {}
  }

  lemma {:induction false} Untouched(s: Stmt, env: Env, x: nat)
    requires x !in Vars(s)
    ensures Get(Eval(s, env).env, x) == Get(env, x)
    decreases s
  {
    match s
    case Seq(a, b) =>
      Untouched(a, env, x);
      Untouched(b, Eval(a, env).env, x);
    case Try(y, b, f, h) =>
      var r := Eval(b, env[y := NONE]);
      var env1 := if r.out.Raise? then r.env[y := r.out.e] else r.env;
      Untouched(b, env[y := NONE], x);
      Untouched(f, env1, x);
      Untouched(h, Eval(f, env1).env, x);
    case _ =>
  }

  /** The handler of a TRY whose variable no TRY inside uses runs exactly if its body threw. */
  lemma CatchIffThrown(s: Stmt, env: Env)
    requires s.Try? && s.x !in Vars(s.body) + Vars(s.fin)
    ensures var r := Eval(s.body, env[s.x := NONE]);
            var q := Eval(s.fin, if r.out.Raise? then r.env[s.x := r.out.e] else r.env);
            var thrown := r.out.Raise? && r.out.e.kind != NO_EXCEPTION;
            q.out == Normal ==>
              Eval(s, env) == if thrown then After(Eval(s.handler, q.env), r.trace + q.trace)
                              else Result(Normal, q.env, r.trace + q.trace)
  {
    hide Eval, Vars;
    var r := Eval(s.body, env[s.x := NONE]);
    var env1 := if r.out.Raise? then r.env[s.x := r.out.e] else r.env;
    var q := Eval(s.fin, env1);
    Untouched(s.body, env[s.x := NONE], s.x);
    Untouched(s.fin, env1, s.x);
    EvalTry(s, env, r, q);
  }

  /** How the last TRY with a given variable came out that ran within a statement. */
  datatype Last = Never | Clear | Caught

  function Later(a: Last, b: Last): Last
  {
    if b.Never? then a else b
  }

  function LastTry(s: Stmt, env: Env, x: nat): Last
  {
    match s
    case Seq(a, b) =>
      var r := Eval(a, env);
      if r.out != Normal then LastTry(a, env, x) else Later(LastTry(a, env, x), LastTry(b, r.env, x))
    case Try(y, b, f, h) =>
      var r := Eval(b, env[y := NONE]);
      var env1 := if r.out.Raise? then r.env[y := r.out.e] else r.env;
      var q := Eval(f, env1);
      var body := LastTry(b, env[y := NONE], x);
      var own := if y != x then body
                 else if r.out.Raise? then (if r.out.e.kind != NO_EXCEPTION then Caught else Clear)
                 else Later(Clear, body);
      var done := Later(own, LastTry(f, env1, x));
      if q.out != Normal || Get(q.env, y).kind == NO_EXCEPTION then done else Later(done, LastTry(h, q.env, x))
    case _ => Never
  }

  lemma {:induction false} LastTryIff(s: Stmt, env: Env, x: nat)
    ensures Says(LastTry(s, env, x), Get(env, x), Get(Eval(s, env).env, x))
    decreases s
  {
    match s
    case Seq(a, b) =>
      LastTryIff(a, env, x);
      LastTryIff(b, Eval(a, env).env, x);
    case Try(y, b, f, h) =>
      var r := Eval(b, env[y := NONE]);
      var env1 := if r.out.Raise? then r.env[y := r.out.e] else r.env;
      LastTryIff(b, env[y := NONE], x);
      LastTryIff(f, env1, x);
      LastTryIff(h, Eval(f, env1).env, x);
      TryLast(s, env, x, r, env1);
    case _ =>
  }

  /** What a variable holds after the last TRY that used it. */
  predicate Says(l: Last, before: Exc, after: Exc)
  {
    after.kind != NO_EXCEPTION <==>
    match l case Never => before.kind != NO_EXCEPTION case Clear => false case Caught => true
  }

  lemma TryLast(s: Stmt, env: Env, x: nat, r: Result, env1: Env)
    requires s.Try? && r == Eval(s.body, env[s.x := NONE])
             && env1 == if r.out.Raise? then r.env[s.x := r.out.e] else r.env
    requires Says(LastTry(s.body, env[s.x := NONE], x), Get(env[s.x := NONE], x), Get(r.env, x))
    requires var q := Eval(s.fin, env1);
             && Says(LastTry(s.fin, env1, x), Get(env1, x), Get(q.env, x))
             && Says(LastTry(s.handler, q.env, x), Get(q.env, x), Get(Eval(s.handler, q.env).env, x))
    ensures Says(LastTry(s, env, x), Get(env, x), Get(Eval(s, env).env, x))
  {
    var q := Eval(s.fin, env1);
    EvalTry(s, env, r, q);
    LastOfTry(s, env, x, r, env1, q);
    hide Eval, LastTry;
  }

  lemma LastOfTry(s: Stmt, env: Env, x: nat, r: Result, env1: Env, q: Result)
    requires s.Try? && r == Eval(s.body, env[s.x := NONE])
             && env1 == if r.out.Raise? then r.env[s.x := r.out.e] else r.env
    requires q == Eval(s.fin, env1)
    ensures var body := LastTry(s.body, env[s.x := NONE], x);
            var own := if s.x != x then body
                       else if r.out.Raise? then (if r.out.e.kind != NO_EXCEPTION then Caught else Clear)
                       else Later(Clear, body);
            var done := Later(own, LastTry(s.fin, env1, x));
            LastTry(s, env, x) ==
            if q.out != Normal || Get(q.env, s.x).kind == NO_EXCEPTION then done
            else Later(done, LastTry(s.handler, q.env, x))
  {
    hide Eval;
  }

  /** For every TRY: a handler runs exactly if the last TRY with its variable, itself or one inside, caught
      an exception. */
  lemma CatchIffCaught(s: Stmt, env: Env)
    requires s.Try?
    ensures var r := Eval(s.body, env[s.x := NONE]);
            var env1 := if r.out.Raise? then r.env[s.x := r.out.e] else r.env;
            var q := Eval(s.fin, env1);
            var thrown := r.out.Raise? && r.out.e.kind != NO_EXCEPTION;
            var inside := if r.out.Raise? then Never else LastTry(s.body, env[s.x := NONE], s.x);
            var caught := Later(if thrown then Caught else inside, LastTry(s.fin, env1, s.x)) == Caught;
            q.out == Normal ==>
              Eval(s, env) == if caught then After(Eval(s.handler, q.env), r.trace + q.trace)
                              else Result(Normal, q.env, r.trace + q.trace)
  {
    hide Eval, LastTry;
    var r := Eval(s.body, env[s.x := NONE]);
    var env1 := if r.out.Raise? then r.env[s.x := r.out.e] else r.env;
    LastTryIff(s.body, env[s.x := NONE], s.x);
    LastTryIff(s.fin, env1, s.x);
    EvalTry(s, env, r, Eval(s.fin, env1));
  }

  /** A TRY around one that caught an exception and dealt with it: the outer body ended normally, and yet
      the outer handler runs if both use the same variable, and only then. */
  lemma SharedVariable(x: nat, y: nat, b: Stmt, h: Stmt, n: nat, env: Env)
    requires {x, y} !! Vars(b) + Vars(h)
    requires var r := Eval(b, env[x := NONE][y := NONE]);
             && r.out.Raise? && r.out.e.kind != NO_EXCEPTION && Eval(h, r.env[y := r.out.e]).out == Normal
    ensures var inner := Try(y, b, Skip, h);
            var r := Eval(inner, env[x := NONE]);
            r.out == Normal && Eval(Try(x, inner, Skip, Act(n)), env).trace == r.trace + if x == y then [n] else []
  {
    hide Vars;
    var inner, env0 := Try(y, b, Skip, h), env[x := NONE];
    var r := Eval(b, env0[y := NONE]);
    var env1 := r.env[y := r.out.e];
    EvalTry(inner, env0, r, Eval(Skip, env1));
    Untouched(b, env0[y := NONE], x);
    Untouched(h, env1, x);
    var s := Eval(inner, env0);
    assert Get(s.env, x) == Get(env1, x);
    EvalTry(Try(x, inner, Skip, Act(n)), env, s, Eval(Skip, s.env));
  }

  /** NOTHROW swallows exceptions of the two lower levels and passes on all others. */
  lemma Nothrow(x: nat, b: Stmt, env: Env)
    requires x !in Vars(b)
    ensures var r := Eval(b, env[x := NONE]);
            var out := Eval(Try(x, b, Skip, EatSmall(x)), env).out;
            if r.out.Raise? && r.out.e.kind != NO_EXCEPTION && !Eats(r.out.e) then out == Raise(Raised(r.out.e))
            else out == Normal
  {
    hide Vars;
    var s := Try(x, b, Skip, EatSmall(x));
    NoVars();
    CatchIffThrown(s, env);
  }

  lemma NoVars()
    ensures Vars(Skip) == {}
  {
  }

  /** Whatever the body does, FINALLY runs once, right after it and before the handler. */
  lemma FinallyOnce(x: nat, b: Stmt, n: nat, h: Stmt, env: Env)
    ensures var r := Eval(b, env[x := NONE]);
            r.trace + [n] <= Eval(Try(x, b, Act(n), h), env).trace
    ensures x !in Vars(b) ==>
              var r := Eval(b, env[x := NONE]);
              !(r.out.Raise? && r.out.e.kind != NO_EXCEPTION) ==> Eval(Try(x, b, Act(n), h), env).trace == r.trace + [n]
  {
    var s := Try(x, b, Act(n), h);
    if x !in Vars(b) { CatchIffThrown(s, env); }
  }

  // ----- the life of a catcher

  datatype Life = Alive(phase: Phase) | Popped | Faulted

  function FeedOne(l: Life, action: Action): Life
  {
    if !l.Alive? then Faulted
    else match StateMc([Catcher(l.phase, 0, [])], action)
         case Bad => Faulted
         case Turn(_, stack) => if stack == [] then Popped else Alive(stack[0].phase)
  }

  function Feed(l: Life, actions: seq<Action>): Life
    decreases |actions|
  {
    if actions == [] then l else Feed(FeedOne(l, actions[0]), actions[1..])
  }

  /** What takes a catcher from its creation to its end without a fault: the body entered once, and then
      a break, the end of the body, or one throw, and FINALLY once. */
  predicate WholeLife(actions: seq<Action>)
  {
    || actions == [ITER_0, FINALLY]
    || actions == [ITER_0, ITER_0, FINALLY]
    || actions == [ITER_0, THROW, ITER_0, FINALLY]
  }

  lemma LifeIff(actions: seq<Action>)
    ensures Feed(Alive(INIT), actions) == Popped <==> WholeLife(actions)
  {
    hide FeedOne;
    FeedTable();
    FeedRest(Alive(INIT), actions);
    if actions != [] {
      FeedRest(Faulted, actions[1..]);
      BodyLife(actions[1..]);
      assert actions == [actions[0]] + actions[1..];
    }
  }

  lemma WaitingLife(actions: seq<Action>)
    ensures Feed(Alive(WAIT_FINALLY), actions) == Popped <==> actions == [FINALLY]
  {
    hide FeedOne;
    FeedTable();
    FeedRest(Alive(WAIT_FINALLY), actions);
    if actions != [] {
      FeedRest(Faulted, actions[1..]);
      assert actions == [actions[0]] + actions[1..];
    }
  }

  lemma ThrownLife(actions: seq<Action>)
    ensures Feed(Alive(THROWN), actions) == Popped <==> actions == [ITER_0, FINALLY]
  {
    hide FeedOne;
    FeedTable();
    FeedRest(Alive(THROWN), actions);
    if actions != [] {
      FeedRest(Faulted, actions[1..]);
      WaitingLife(actions[1..]);
      assert actions == [actions[0]] + actions[1..];
    }
  }

  lemma BodyLife(actions: seq<Action>)
    ensures Feed(Alive(EXEC_BODY), actions) == Popped <==>
            actions == [FINALLY] || actions == [ITER_0, FINALLY] || actions == [THROW, ITER_0, FINALLY]
  {
    hide FeedOne;
    FeedTable();
    FeedRest(Alive(EXEC_BODY), actions);
    if actions != [] {
      FeedRest(Faulted, actions[1..]);
      WaitingLife(actions[1..]);
      ThrownLife(actions[1..]);
      var first, tail := actions[0], actions[1..];
      assert actions == [first] + tail;
      match first
      case FINALLY =>
      case ITER_0 => assert actions == [ITER_0, FINALLY] ==> tail == [FINALLY];
      case THROW => assert actions == [THROW, ITER_0, FINALLY] ==> tail == [ITER_0, FINALLY];
    }
  }

  lemma FeedTable()
    ensures FeedOne(Alive(INIT), ITER_0) == Alive(EXEC_BODY) && FeedOne(Alive(EXEC_BODY), ITER_0) == Alive(WAIT_FINALLY)
    ensures FeedOne(Alive(EXEC_BODY), THROW) == Alive(THROWN) && FeedOne(Alive(THROWN), ITER_0) == Alive(WAIT_FINALLY)
    ensures FeedOne(Alive(EXEC_BODY), FINALLY) == Popped && FeedOne(Alive(WAIT_FINALLY), FINALLY) == Popped
    ensures forall a :: a != ITER_0 ==> FeedOne(Alive(INIT), a) == Faulted && FeedOne(Alive(THROWN), a) == Faulted
    ensures forall a :: a != FINALLY ==> FeedOne(Alive(WAIT_FINALLY), a) == Faulted
  {
  }

  /** Nothing is left to do for a catcher that is gone. */
  lemma {:induction false} FeedRest(l: Life, actions: seq<Action>)
    ensures Feed(Faulted, actions) == Faulted
    ensures Feed(Popped, actions) == Popped <==> actions == []
    ensures Feed(l, actions) == if actions == [] then l else Feed(FeedOne(l, actions[0]), actions[1..])
    decreases |actions|
  {
    if actions != [] { FeedRest(l, actions[1..]); }
  }

  // ----- the catchers in memory

  /** The global stack of catchers and the exception variables they point to. */
  class Catchers {
    var stack: seq<Catcher>
    var env: Env

    constructor ()
      ensures stack == [] && env == map[]
    {
      stack, env := [], map[];
    }

    /** exceptions_state_mc_init. */
    method Init(x: nat, buf: seq<Frame>)
      modifies this
      ensures stack == [Catcher(INIT, x, buf)] + old(stack) && env == old(env)[x := NONE]
    {
      env := env[x := NONE];
      stack := [Catcher(INIT, x, buf)] + stack;
    }

    /** exceptions_state_mc: ok is false where the code reports a fault. */
    method StateMachine(action: Action) returns (ok: bool, go: bool)
      requires stack != []
      modifies this
      ensures env == old(env)
      ensures StateMc(old(stack), action) == if ok then Turn(go, stack) else Bad
      ensures !ok ==> stack == old(stack)
    {
      var c := stack[0];
      ok, go := true, false;
      match c.phase {
        case INIT =>
          if action == ITER_0 {
            stack, go := stack[0 := c.(phase := EXEC_BODY)], true;
          } else {
            ok := false;
          }
        case EXEC_BODY =>
          if action == ITER_0 {
            stack := stack[0 := c.(phase := WAIT_FINALLY)];
          } else if action == THROW {
            stack := stack[0 := c.(phase := THROWN)];
          } else {
            stack, go := stack[1..], true;
          }
        case WAIT_FINALLY =>
          if action == FINALLY {
            stack, go := stack[1..], true;
          } else {
            ok := false;
          }
        case THROWN =>
          if action == ITER_0 {
            stack := stack[0 := c.(phase := WAIT_FINALLY)];
          } else {
            ok := false;
          }
      }
    }

    /** __throw_exception up to the jump: the code to go on with, or none in the outmost scope. */
    method ThrowException(e: Exc, ghost trace: seq<nat>) returns (jump: bool, buf: seq<Frame>, exp: Exc)
      requires Active(stack)
      modifies this
      ensures exp == Raised(e) && (jump <==> old(stack) != [])
      ensures ThrowTo(old(stack), old(env), trace, e) == if jump then Run(buf, stack, env, trace) else Fatal(exp, trace)
    {
      exp := e;
      if e.level >= LV_UNCATCHABLE { exp := Exc(UNCATCHABLE, LV_UNCATCHABLE, e.val); }
      if stack == [] { return false, [], exp; }
      env := env[stack[0].x := exp];
      buf := stack[0].buf;
      var ok, go := StateMachine(THROW);
      jump := true;
    }
  }
}
