/** The latch by which a signal handler knows whether it interrupted a system call. */
module SyscallLatch {
  /** Two signed bytes. */
  datatype Latch = Latch(base: int, counter: int)

  /** incb and decb. */
  function Wrap8(x: int): int
  {
    (x + 128) % 256 - 128
  }

  lemma Wraps(l: nat)
    requires l <= 127
    ensures Wrap8(l) == l && Wrap8(l + 1) == (if l < 127 then l + 1 else -128) && Wrap8(Wrap8(l + 1) - 1) == l
  {
  }

  /** IS_BREAK_SYSCALL. */
  predicate IsBreak(l: Latch)
  {
    l.counter > l.base
  }

  /** The points of wrapped_syscall: before it; with base set; with signals disabled; past
      ENTER_SYSCALL; in the kernel with signals enabled; with signals disabled again; past
      EXIT_SYSCALL. */
  datatype Point = Outside | Prepared | Masked | Entered | InKernel | Leaving | Left

  /** What the handler keeps of an interrupted activity in its signal frame. */
  datatype Frame = Frame(saved: Latch, isBreak: bool, at: Point)

  /** A process: the latch, the point of the running activity, the interrupted ones, latest first. */
  datatype Proc = Proc(latch: Latch, at: Point, frames: seq<Frame>)

  const START := Proc(Latch(0, 0), Outside, [])

  datatype Event = Advance | Signal | SigReturn

  /** Signals arrive only while they are enabled; a handler returns only outside system calls. */
  predicate Enabled(p: Proc, e: Event)
  {
    match e
    case Advance => true
    case Signal => p.at == Outside || p.at == Prepared || p.at == InKernel
    case SigReturn => p.at == Outside && p.frames != []
  }

  function AdvanceOf(p: Proc): Proc
  {
    match p.at
    case Outside => p.(at := Prepared, latch := Latch(p.latch.counter, p.latch.counter))
    case Prepared => p.(at := Masked)
    case Masked => p.(at := Entered, latch := p.latch.(counter := Wrap8(p.latch.counter + 1)))
    case Entered => p.(at := InKernel)
    case InKernel => p.(at := Leaving)
    case Leaving => p.(at := Left, latch := p.latch.(counter := Wrap8(p.latch.counter - 1)))
    case Left => p.(at := Outside)
  }

  /** do_wrapped_sighandler. */
  function SignalOf(p: Proc): Proc
  {
    var broken := IsBreak(p.latch);
    Proc(if broken then Latch(p.latch.counter, p.latch.counter) else p.latch, Outside,
         [Frame(p.latch, broken, p.at)] + p.frames)
  }

  /** do_wrapped_sigreturn and do_wrapped_rt_sigreturn. */
  function ReturnOf(p: Proc): Proc
    requires p.frames != []
  {
    var f := p.frames[0];
    Proc(if f.isBreak then f.saved else p.latch, f.at, p.frames[1..])
  }

  function Step(p: Proc, e: Event): Proc
    requires Enabled(p, e)
  {
    match e
    case Advance => AdvanceOf(p)
    case Signal => SignalOf(p)
    case SigReturn => ReturnOf(p)
  }

  // ----- the invariant

  predicate InGates(at: Point)
  {
    at == Entered || at == InKernel || at == Leaving
  }

  /** How many interrupted activities are between the gates. */
  function Level(frames: seq<Frame>): nat
  {
    if frames == [] then 0 else Level(frames[1..]) + if frames[0].at == InKernel then 1 else 0
  }

  function LatchAt(at: Point, frames: seq<Frame>): Latch
  {
    Latch(Level(frames), Level(frames) + if InGates(at) then 1 else 0)
  }

  predicate FramesGood(frames: seq<Frame>)
  {
    frames != [] ==>
      && frames[0].saved == LatchAt(frames[0].at, frames[1..]) && (frames[0].isBreak <==> frames[0].at == InKernel)
      && (frames[0].at == Outside || frames[0].at == Prepared || frames[0].at == InKernel)
      && FramesGood(frames[1..])
  }

  /** The latch is a function of where the process and its interrupted activities are, up to the
      wrap-around of its signed bytes. */
  predicate Tracked(p: Proc)
  {
    var l := LatchAt(p.at, p.frames);
    FramesGood(p.frames) && l.base <= 127 && p.latch == l.(counter := Wrap8(l.counter))
  }

  /** ENTER_SYSCALL finds room in the counter. */
  predicate Room(p: Proc)
  {
    p.at == Masked ==> Level(p.frames) < 127
  }

  /** The counter has not wrapped around. */
  predicate Good(p: Proc)
  {
    Tracked(p) && LatchAt(p.at, p.frames).counter <= 127
  }

  /** The test at handler entry tells whether a system call is interrupted between its gates. */
  predicate RightAt(p: Proc)
  {
    IsBreak(p.latch) <==> p.at == InKernel
  }

  lemma RightIff(p: Proc)
    requires Tracked(p) && Enabled(p, Signal)
    ensures RightAt(p) <==> (p.at == InKernel ==> Level(p.frames) < 127)
  {
    hide Wrap8, Level;
    Wraps(Level(p.frames));
  }

  lemma TrackedStep(p: Proc, e: Event)
    requires Tracked(p) && Enabled(p, e) && (e == Signal ==> RightAt(p))
    ensures Tracked(Step(p, e))
  {
    hide Wrap8;
    Wraps(Level(p.frames));
    match e
    case Advance =>
    case Signal =>
      assert SignalOf(p).frames[1..] == p.frames;
    case SigReturn =>
      Wraps(Level(p.frames[1..]));
  }

  /** No wrap-around goes unnoticed: it happens only where ENTER_SYSCALL finds no room. */
  lemma StepKeeps(p: Proc, e: Event)
    requires Good(p) && Enabled(p, e)
    ensures Good(Step(p, e)) <==> Room(p)
  {
    hide Wrap8;
    if e == Signal {
      RightIff(p);
      assert SignalOf(p).frames[1..] == p.frames;
    }
    TrackedStep(p, e);
  }

  // ----- runs

  /** Every event is enabled when it happens. */
  predicate Runs(p: Proc, es: seq<Event>)
    decreases |es|
  {
    es != [] ==> Enabled(p, es[0]) && Runs(Step(p, es[0]), es[1..])
  }

  function After(p: Proc, es: seq<Event>): Proc
    requires Runs(p, es)
    decreases |es|
  {
    if es == [] then p else After(Step(p, es[0]), es[1..])
  }

  /** Every signal finds the test right. */
  predicate AllRight(p: Proc, es: seq<Event>)
    requires Runs(p, es)
    decreases |es|
  {
    es != [] ==> (es[0] == Signal ==> RightAt(p)) && AllRight(Step(p, es[0]), es[1..])
  }

  /** No signal interrupts a system call that is itself within 127 interrupted ones. */
  predicate NoneTooDeep(p: Proc, es: seq<Event>)
    requires Runs(p, es)
    decreases |es|
  {
    es != [] ==>
      (es[0] == Signal && p.at == InKernel ==> Level(p.frames) < 127) && NoneTooDeep(Step(p, es[0]), es[1..])
  }

  /** Every ENTER_SYSCALL finds room. */
  predicate Roomy(p: Proc, es: seq<Event>)
    requires Runs(p, es)
    decreases |es|
  {
    es != [] ==> Room(p) && Roomy(Step(p, es[0]), es[1..])
  }

  /** Every signal finds the test right, and so would a signal in any of the system calls made. */
  predicate Recognised(p: Proc, es: seq<Event>)
    requires Runs(p, es)
    decreases |es|
  {
    es != [] ==>
      && (es[0] == Signal ==> RightAt(p))
      && (p.at == Masked ==> RightAt(AdvanceOf(AdvanceOf(p))))
      && Recognised(Step(p, es[0]), es[1..])
  }

  lemma {:induction false} RunKeeps(p: Proc, es: seq<Event>)
    requires Good(p) && Runs(p, es) && Roomy(p, es)
    ensures Good(After(p, es))
    decreases |es|
  {
    hide Step, Good, Enabled, Room;
    if es != [] {
      StepKeeps(p, es[0]);
      RunKeeps(Step(p, es[0]), es[1..]);
    }
  }

  lemma {:induction false} TrackedRun(p: Proc, es: seq<Event>)
    requires Tracked(p) && Runs(p, es) && AllRight(p, es)
    ensures Tracked(After(p, es))
    decreases |es|
  {
    hide Step, Tracked, Enabled, RightAt;
    if es != [] {
      TrackedStep(p, es[0]);
      TrackedRun(Step(p, es[0]), es[1..]);
    }
  }

  /** For every run, nested or not: the test is right at every signal exactly if none is too deep. */
  lemma {:induction false} BreakIff(p: Proc, es: seq<Event>)
    requires Tracked(p) && Runs(p, es)
    ensures AllRight(p, es) <==> NoneTooDeep(p, es)
    decreases |es|
  {
    hide Step, Tracked, RightAt, Level;
    if es != [] {
      if es[0] == Signal { RightIff(p); }
      if es[0] == Signal ==> RightAt(p) {
        TrackedStep(p, es[0]);
        BreakIff(Step(p, es[0]), es[1..]);
      }
    }
  }

  /** ENTER_SYSCALL always found room exactly if no signal could have been taken wrongly. */
  lemma {:induction false} RoomIff(p: Proc, es: seq<Event>)
    requires Good(p) && Runs(p, es)
    ensures Recognised(p, es) <==> Roomy(p, es)
    decreases |es|
  {
    hide Step, Good, RightAt, Room, AdvanceOf;
    if es != [] {
      StepKeeps(p, es[0]);
      GoodRight(p);
      if Room(p) { RoomIff(Step(p, es[0]), es[1..]); }
    }
  }

  lemma GoodRight(p: Proc)
    requires Good(p)
    ensures Enabled(p, Signal) ==> RightAt(p)
    ensures Room(p) <==> (p.at == Masked ==> RightAt(AdvanceOf(AdvanceOf(p))))
  {
    hide Wrap8, Level;
    Wraps(Level(p.frames));
  }

  /** Outside system calls the two bytes are equal. */
  lemma OutsideEqual(p: Proc, es: seq<Event>)
    requires Tracked(p) && Runs(p, es) && AllRight(p, es) && After(p, es).at == Outside
    ensures After(p, es).latch.base == After(p, es).latch.counter
  {
    hide After, AllRight, Runs;
    TrackedRun(p, es);
  }

  // ----- what a handler leaves behind

  /** The events of a handler never return from its own frame. */
  predicate Within(p: Proc, es: seq<Event>, depth: nat)
    requires Runs(p, es)
    decreases |es|
  {
    |p.frames| >= depth && (es != [] ==> Within(Step(p, es[0]), es[1..], depth))
  }

  /** Frames below a handler stay as they are. */
  lemma {:induction false} BelowKept(p: Proc, es: seq<Event>, below: seq<Frame>)
    requires Runs(p, es) && Within(p, es, |below|) && |p.frames| >= |below| && p.frames[|p.frames| - |below|..] == below
    ensures var q := After(p, es); |q.frames| >= |below| && q.frames[|q.frames| - |below|..] == below
    decreases |es|
  {
    if es != [] {
      var q := Step(p, es[0]);
      assert q.frames[|q.frames| - |below|..] == below;
      BelowKept(q, es[1..], below);
    }
  }

  lemma SignalKeeps(p: Proc)
    requires Tracked(p) && Enabled(p, Signal) && RightAt(p)
    ensures Tracked(SignalOf(p)) && SignalOf(p).frames == [Frame(p.latch, IsBreak(p.latch), p.at)] + p.frames
  {
    TrackedStep(p, Signal);
  }

  /** A signal, anything that its handler does, and its return leave the process as it was. */
  lemma HandlerRestores(p: Proc, es: seq<Event>)
    requires Tracked(p) && Enabled(p, Signal) && RightAt(p)
    requires Runs(SignalOf(p), es) && AllRight(SignalOf(p), es) && Within(SignalOf(p), es, |p.frames| + 1)
    requires var q := After(SignalOf(p), es); |q.frames| == |p.frames| + 1 && Enabled(q, SigReturn)
    ensures ReturnOf(After(SignalOf(p), es)) == p
  {
    hide Tracked, Runs, Within, After, SignalOf, AllRight, RightAt;
    var s := SignalOf(p);
    SignalKeeps(p);
    assert s.frames[0..] == s.frames;
    BelowKept(s, es, s.frames);
    TrackedRun(s, es);
    var q := After(s, es);
    assert q.frames[0..] == q.frames;
    TrackedStep(q, SigReturn);
    assert q.frames[1..] == p.frames;
    SamePlace(ReturnOf(q), p);
  }

  lemma SamePlace(p: Proc, q: Proc)
    requires Tracked(p) && Tracked(q) && p.at == q.at && p.frames == q.frames
    ensures p == q
  {
  }

  // ----- the limit of a signed byte

  /** Past the gate the test holds exactly while the counter has room. */
  lemma GateIff(c: int)
    requires -128 <= c <= 127
    ensures IsBreak(Latch(c, Wrap8(c + 1))) <==> c < 127
  {
  }

  /** n system calls, each made by the handler of the signal that interrupted the one before. */
  function Nested(n: nat): seq<Frame>
  {
    if n == 0 then [] else [Frame(LatchAt(InKernel, Nested(n - 1)), true, InKernel)] + Nested(n - 1)
  }

  lemma {:induction false} NestedLevel(n: nat)
    ensures Level(Nested(n)) == n
  {
    if n > 0 {
      NestedLevel(n - 1);
      assert Nested(n)[1..] == Nested(n - 1);
    }
  }

  /** A system call into the kernel, and a signal there. */
  const DIVE: seq<Event> := [Advance, Advance, Advance, Advance, Signal]

  function Dive(n: nat): seq<Event>
  {
    if n == 0 then [] else Dive(n - 1) + DIVE
  }

  lemma DiveOnce(n: nat)
    requires n < 127
    ensures var p := Proc(Latch(n, n), Outside, Nested(n));
            Runs(p, DIVE) && After(p, DIVE) == Proc(Latch(n + 1, n + 1), Outside, Nested(n + 1)) && AllRight(p, DIVE)
  {
    hide Wrap8, Level, Runs, After, NoneTooDeep, AllRight;
    NestedLevel(n);
    Wraps(n);
    FiveSteps(Proc(Latch(n, n), Outside, Nested(n)));
  }

  lemma FiveSteps(p: Proc)
    requires p.at == Outside
    ensures var q := AdvanceOf(AdvanceOf(AdvanceOf(AdvanceOf(p))));
            && q.at == InKernel && q.frames == p.frames
            && q.latch == Latch(p.latch.counter, Wrap8(p.latch.counter + 1))
            && Runs(p, DIVE) && After(p, DIVE) == SignalOf(q)
            && (AllRight(p, DIVE) <==> RightAt(q)) && (NoneTooDeep(p, DIVE) <==> Level(q.frames) < 127)
  {
    hide Wrap8, Level;
    var q1 := AdvanceOf(p);
    var q2 := AdvanceOf(q1);
    var q3 := AdvanceOf(q2);
    var q4 := AdvanceOf(q3);
    var d1, d2, d3, d4 := DIVE[1..], DIVE[1..][1..], DIVE[1..][1..][1..], DIVE[1..][1..][1..][1..];
    assert d1 == [Advance, Advance, Advance, Signal] && d2 == [Advance, Advance, Signal] && d3 == [Advance, Signal];
    assert d4 == [Signal] && d4[1..] == [];
    assert Runs(SignalOf(q4), []) && AllRight(SignalOf(q4), []) && NoneTooDeep(SignalOf(q4), []);
    assert Runs(q4, d4) && After(q4, d4) == SignalOf(q4);
    assert Runs(q3, d3) && After(q3, d3) == SignalOf(q4);
    assert Runs(q2, d2) && After(q2, d2) == SignalOf(q4);
    assert Runs(q1, d1) && After(q1, d1) == SignalOf(q4);
  }

  lemma {:induction false} RunsJoin(p: Proc, es: seq<Event>, fs: seq<Event>)
    requires Runs(p, es) && Runs(After(p, es), fs)
    ensures Runs(p, es + fs) && After(p, es + fs) == After(After(p, es), fs)
    ensures AllRight(p, es + fs) <==> AllRight(p, es) && AllRight(After(p, es), fs)
    decreases |es|
  {
    hide Step, RightAt, Enabled;
    var r := es + fs;
    if es == [] {
      assert r == fs;
    } else {
      RunsJoin(Step(p, es[0]), es[1..], fs);
      assert r[1..] == es[1..] + fs;
    }
  }

  /** Up to 127 system calls can be nested within each other's handlers. */
  lemma {:induction false} DiveRuns(n: nat)
    requires n <= 127
    ensures Runs(START, Dive(n)) && After(START, Dive(n)) == Proc(Latch(n, n), Outside, Nested(n))
    ensures AllRight(START, Dive(n))
  {
    hide Runs, After, AllRight;
    if n == 0 {
      Begins();
    } else {
      DiveRuns(n - 1);
      DiveOnce(n - 1);
      RunsJoin(START, Dive(n - 1), DIVE);
    }
  }

  lemma Begins()
    ensures Runs(START, []) && After(START, []) == START && AllRight(START, []) && Tracked(START) && Good(START)
  {
  }

  /** And then a signal in the next system call is not seen as a break. */
  lemma TooDeep()
    ensures Runs(START, Dive(128)) && !AllRight(START, Dive(128))
  {
    hide Runs, After, AllRight, NoneTooDeep;
    var p := Proc(Latch(127, 127), Outside, Nested(127));
    DiveRuns(127);
    NestedLevel(127);
    Wraps(127);
    FiveSteps(p);
    RunsJoin(START, Dive(127), DIVE);
  }

  lemma {:induction false} RoomyTail(p: Proc, es: seq<Event>, fs: seq<Event>)
    requires Runs(p, es + fs) && Roomy(p, es + fs) && Runs(p, es) && Runs(After(p, es), fs)
    ensures Roomy(After(p, es), fs)
    decreases |es|
  {
    hide Step, Room, Enabled;
    var r := es + fs;
    if es == [] {
      assert r == fs;
    } else {
      assert r[1..] == es[1..] + fs;
      RoomyTail(Step(p, es[0]), es[1..], fs);
    }
  }

  /** A system call within 127 others that no signal interrupts finds no room, and yet goes unnoticed. */
  lemma QuietDeep()
    ensures var es := Dive(127) + [Advance, Advance, Advance];
            Runs(START, es) && AllRight(START, es) && !Roomy(START, es)
  {
    hide Runs, After, AllRight, Roomy;
    var p, fs := Proc(Latch(127, 127), Outside, Nested(127)), [Advance, Advance, Advance];
    DiveRuns(127);
    NestedLevel(127);
    ThreeSteps(p);
    RunsJoin(START, Dive(127), fs);
    if Roomy(START, Dive(127) + fs) { RoomyTail(START, Dive(127), fs); }
  }

  lemma ThreeSteps(p: Proc)
    requires p.at == Outside && Level(p.frames) == 127
    ensures var fs := [Advance, Advance, Advance]; Runs(p, fs) && AllRight(p, fs) && !Roomy(p, fs)
  {
    hide Wrap8, Level;
    var fs: seq<Event> := [Advance, Advance, Advance];
    var q1 := AdvanceOf(p);
    var q2 := AdvanceOf(q1);
    var q3 := AdvanceOf(q2);
    assert fs[1..] == [Advance, Advance] && fs[1..][1..] == [Advance] && fs[1..][1..][1..] == [];
    assert Runs(q3, []) && AllRight(q3, []);
    assert Runs(q2, fs[1..][1..]) && AllRight(q2, fs[1..][1..]) && !Room(q2);
    assert Runs(q1, fs[1..]) && AllRight(q1, fs[1..]) && !Roomy(q1, fs[1..]);
  }

  /** n points further without a signal. */
  function Advances(p: Proc, n: nat): Proc
  {
    if n == 0 then p else AdvanceOf(Advances(p, n - 1))
  }

  /** The seven steps of a system call give the process back; a signal half way through would be a break
      exactly if fewer than 127 system calls are interrupted. */
  lemma CallRestores(p: Proc)
    requires Tracked(p) && p.at == Outside
    ensures Advances(p, 7) == p
    ensures Advances(p, 4).at == InKernel && Advances(p, 4).frames == p.frames
    ensures IsBreak(Advances(p, 4).latch) <==> Level(p.frames) < 127
  {
    hide Wrap8, Level, Advances, FramesGood;
    var l := Level(p.frames);
    assert l <= 127;
    Wraps(l);
    assert p.latch == Latch(l, l);
    HalfWay(p);
    OtherHalf(p);
  }

  lemma HalfWay(p: Proc)
    requires p.at == Outside
    ensures Advances(p, 4) == Proc(Latch(p.latch.counter, Wrap8(p.latch.counter + 1)), InKernel, p.frames)
  {
    hide Wrap8, Advances;
    NoAdvance(p);
    OneAdvance(p, 0);
    OneAdvance(p, 1);
    OneAdvance(p, 2);
    OneAdvance(p, 3);
  }

  lemma OtherHalf(p: Proc)
    requires Advances(p, 4).at == InKernel
    ensures var q := Advances(p, 4);
            Advances(p, 7) == q.(at := Outside, latch := q.latch.(counter := Wrap8(q.latch.counter - 1)))
  {
    hide Wrap8, Advances;
    OneAdvance(p, 4);
    OneAdvance(p, 5);
    OneAdvance(p, 6);
  }

  lemma NoAdvance(p: Proc)
    ensures Advances(p, 0) == p
  {
  }

  lemma OneAdvance(p: Proc, n: nat)
    ensures Advances(p, n + 1) == AdvanceOf(Advances(p, n))
  {
  }

  // ----- the latch in memory

  /** The global latch and the frames on the stack, as the wrapper and the handlers update them. */
  class Process {
    var base: int
    var counter: int
    var at: Point
    var frames: seq<Frame>

    function State(): Proc
      reads this
    {
      Proc(Latch(base, counter), at, frames)
    }

    constructor ()
      ensures State() == START && Tracked(State())
    {
      base, counter, at, frames := 0, 0, Outside, [];
    }

    /** A whole wrapped_syscall without a signal: what the kernel runs in, and the state after it, which
        is the one before it. */
    method WrappedSyscall() returns (inside: Proc)
      requires Tracked(State()) && at == Outside
      modifies this
      ensures inside == old(Advances(State(), 4)) && inside.at == InKernel
      ensures IsBreak(inside.latch) <==> old(Level(frames)) < 127
      ensures State() == old(State())
    {
      hide Level, Tracked, AdvanceOf;
      CallRestores(State());
      for i := 0 to 4
        invariant Tracked(State()) && State() == Advances(old(State()), i)
      {
        Advance();
      }
      inside := State();
      for i := 4 to 7
        invariant Tracked(State()) && State() == Advances(old(State()), i)
      {
        Advance();
      }
    }

    method Advance()
      requires Tracked(State())
      modifies this
      ensures State() == Step(old(State()), Event.Advance) && Tracked(State())
    {
      TrackedStep(State(), Event.Advance);
      match at {
        case Outside => base, at := counter, Prepared;
        case Prepared => at := Masked;
        case Masked => counter, at := Wrap8(counter + 1), Entered;
        case Entered => at := InKernel;
        case InKernel => at := Leaving;
        case Leaving => counter, at := Wrap8(counter - 1), Left;
        case Left => at := Outside;
      }
    }

    method SigHandler() returns (isBreak: bool)
      requires Tracked(State()) && Enabled(State(), Signal)
      modifies this
      ensures State() == Step(old(State()), Signal)
      ensures isBreak <==> old(at) == InKernel && old(Level(frames)) < 127
      ensures (old(at) == InKernel ==> isBreak) ==> Tracked(State())
    {
      RightIff(State());
      if RightAt(State()) { TrackedStep(State(), Signal); }
      isBreak := counter > base;
      frames := [Frame(Latch(base, counter), isBreak, at)] + frames;
      if isBreak { base := counter; }
      at := Outside;
    }

    method SigReturn()
      requires Tracked(State()) && Enabled(State(), Event.SigReturn)
      modifies this
      ensures State() == Step(old(State()), Event.SigReturn) && Tracked(State())
    {
      TrackedStep(State(), Event.SigReturn);
      var f := frames[0];
      if f.isBreak { base, counter := f.saved.base, f.saved.counter; }
      at, frames := f.at, frames[1..];
    }
  }
}
