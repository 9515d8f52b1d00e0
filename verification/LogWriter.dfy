/** The recording side: data is appended to a buffer that is compressed into the log file. */
module LogWriter {
  import opened Bits
  import opened LogFormat
  import LzoFormat
  import LzoDecoder
  import LzoCompress

  const MAX_LOGGER_SIZE := 10240 * 4096 - 8

  /** The log pages: what the compressor is prepared for. */
  const BUFFER_SIZE := 10240 * 4096

  /** The longest record of generated code, that of rdtsc, and the bytes allocated behind the buffer for it. */
  const RECORD_MAX := 12
  const SPARE := 8

  /** `logged` is everything ever appended; `frames` are the blocks already in the file. */
  class Logger {
    const dict: array<int>
    const work: array<byte>
    var buffer: seq<byte>
    var file: seq<byte>
    ghost var frames: seq<Frame>
    ghost var logged: seq<byte>

    ghost predicate Valid()
      reads this
    {
      && dict.Length == LzoCompress.D_SIZE && work.Length == LzoCompress.WorstCompress(BUFFER_SIZE)
      && |buffer| < MAX_LOGGER_SIZE
      && FramesOk(frames) && file == FileOf(frames)
      && logged == Text(frames) + buffer
    }

    constructor (d: array<int>)
      requires d.Length == LzoCompress.D_SIZE
      ensures Valid() && dict == d && logged == [] && frames == [] && buffer == [] && fresh(work)
    {
      dict, work := d, new byte[LzoCompress.WorstCompress(BUFFER_SIZE)];
      buffer, file, frames, logged := [], [], [], [];
    }

    /** The blocks in the file, and what is still in the buffer. */
    ghost function Pages(): Book
      reads this
    {
      Book(Blocks(frames), buffer)
    }

    /** Compresses the buffer into one frame, which always fits the work buffer, and empties it.  An empty
        buffer gives an empty frame. */
    method FlushBuffer()
      requires dict.Length == LzoCompress.D_SIZE && work.Length == LzoCompress.WorstCompress(BUFFER_SIZE)
      requires |buffer| < MAX_LOGGER_SIZE + RECORD_MAX
      requires FramesOk(frames) && file == FileOf(frames) && logged == Text(frames) + buffer
      modifies this, dict, work
      ensures Valid() && buffer == [] && logged == old(logged)
      ensures |frames| == |old(frames)| + 1 && frames[..|old(frames)|] == old(frames)
      ensures frames[|old(frames)|].data == old(buffer) && Pages() == Book(old(Pages().blocks) + [old(buffer)], [])
    {
      hide FrameBytes, LzoDecoder.Decode, LzoFormat.Wellformed, Text, FileOf, Blocks;
      var ok, n;
      ghost var s;
      ok, n, s := LzoCompress.CompressInto(buffer, BUFFER_SIZE, dict, work);
      var comp := work[..n];
      ghost var f := Packed(buffer, comp);
      BlocksAppend(frames, f);
      FileAppend(frames, f);
      TextAppend(frames, f);
      PackedBytes(f);
      file := file + ([COMPRESSED_DATA_MARK] + U32(|buffer|) + U32(|comp|) + comp);
      frames := frames + [f];
      buffer := [];
      assert logged == Text(frames) + buffer;
    }

    /** Outgoing data larger than the buffer is written uncompressed. */
    method WriteDirect(data: seq<byte>)
      requires Valid() && buffer == [] && |data| < WORD_LIMIT
      modifies this
      ensures Valid() && buffer == [] && logged == old(logged) + data
      ensures |frames| == |old(frames)| + 1 && frames[..|old(frames)|] == old(frames)
      ensures frames[|old(frames)|].data == data && Pages() == Book(old(Pages().blocks) + [data], [])
    {
      hide Text, FileOf, Blocks;
      ghost var f := Raw(data);
      BlocksAppend(frames, f);
      FileAppend(frames, f);
      TextAppend(frames, f);
      file := file + ([UNCOMPRESSED_DATA_MARK] + U32(|data|) + data);
      frames, logged := frames + [f], logged + data;
      assert logged == Text(frames) + buffer;
    }

    method Store(data: seq<byte>)
      requires Valid() && |buffer| + |data| < MAX_LOGGER_SIZE
      modifies this`buffer, this`logged
      ensures Valid() && buffer == old(buffer) + data && logged == old(logged) + data
    {
      hide Text, FileOf, FrameOk;
      buffer, logged := buffer + data, logged + data;
      assert logged == Text(frames) + buffer;
    }

    /** append_buffer.  The final assertion of the code fails exactly for data of the buffer's own
        size; an empty append is refused at once. */
    method Append(data: seq<byte>) returns (ok: bool)
      requires Valid() && |data| < WORD_LIMIT
      modifies this, dict, work
      ensures ok <==> data != [] && |data| != MAX_LOGGER_SIZE
      ensures ok ==> Valid() && logged == old(logged) + data
      ensures ok ==> Grown(old(frames), frames)
      ensures ok ==> |buffer| == BufferAfter(|old(buffer)|, AppendOp(data))
      ensures ok ==> Pages() == Turn(old(Pages()), AppendOp(data))
    {
      hide Text, FileOf, FrameOk, Blocks;
      if data == [] { return false; }
      if |buffer| + |data| < MAX_LOGGER_SIZE {
        Store(data);
        return true;
      }
      if buffer != [] {
        FlushBuffer();
      }
      if |data| < MAX_LOGGER_SIZE {
        Store(data);
        return true;
      }
      if |data| == MAX_LOGGER_SIZE { return false; }
      WriteDirect(data);
      return true;
    }

    /** A branch record stored straight into the buffer, followed by do_check_logger_buffer.  Not ok
        stands for a record that runs past the allocation. */
    method Record(data: seq<byte>) returns (ok: bool)
      requires Valid() && |data| <= RECORD_MAX
      modifies this, dict, work
      ensures ok <==> |old(buffer)| + |data| <= MAX_LOGGER_SIZE + SPARE
      ensures ok ==> Valid() && logged == old(logged) + data
      ensures ok ==> Grown(old(frames), frames)
      ensures ok ==> |buffer| == BufferAfter(|old(buffer)|, RecordOp(data))
      ensures ok ==> Pages() == Turn(old(Pages()), RecordOp(data))
    {
      hide Text, FileOf, FrameOk, Blocks;
      ok := |buffer| + |data| <= MAX_LOGGER_SIZE + SPARE;
      if !ok { return; }
      buffer, logged := buffer + data, logged + data;
      assert logged == Text(frames) + buffer;
      if |buffer| >= MAX_LOGGER_SIZE {
        FlushBuffer();
      }
    }

    /** flush_logger: unconditional, whatever is in the buffer. */
    method Flush()
      requires Valid()
      modifies this, dict, work
      ensures Valid() && buffer == [] && logged == old(logged)
      ensures old(frames) <= frames && (old(buffer) != [] ==> Grown(old(frames), frames))
      ensures old(buffer) == [] ==> |frames| == |old(frames)| + 1 && frames[|old(frames)|].data == []
      ensures Pages() == Turn(old(Pages()), FlushOp)
    {
      hide Text, FileOf, FrameOk, Blocks;
      FlushBuffer();
    }
  }

  lemma PackedBytes(f: Frame)
    requires f.Packed? && FrameOk(f)
    ensures FrameBytes(f) == [COMPRESSED_DATA_MARK] + U32(|f.data|) + U32(|f.comp|) + f.comp
  {
  }

  /** `b` extends `a` by frames that are not empty. */
  predicate Grown(a: seq<Frame>, b: seq<Frame>)
  {
    a <= b && forall i :: |a| <= i < |b| ==> b[i].data != []
  }

  // ----- what the program asks of the logger

  datatype Op = AppendOp(data: seq<byte>) | RecordOp(data: seq<byte>) | FlushOp

  /** The fill of the buffer after an operation. */
  function BufferAfter(n: nat, op: Op): nat
  {
    match op
    case AppendOp(data) =>
      if n + |data| < MAX_LOGGER_SIZE then n + |data|
      else if |data| < MAX_LOGGER_SIZE then |data| else 0
    case RecordOp(data) => if n + |data| < MAX_LOGGER_SIZE then n + |data| else 0
    case FlushOp => 0
  }

  /** The blocks of a log and the bytes after them that are not yet in a block. */
  datatype Book = Book(blocks: seq<seq<byte>>, open: seq<byte>)

  /** Where an operation ends a block: before data that does not fit any more, after data that is larger
      than the buffer, after a record that fills it, and at a flush. */
  function Turn(b: Book, op: Op): Book
  {
    match op
    case AppendOp(data) =>
      if |b.open| + |data| < MAX_LOGGER_SIZE then Book(b.blocks, b.open + data)
      else
        var blocks := if b.open == [] then b.blocks else b.blocks + [b.open];
        if |data| < MAX_LOGGER_SIZE then Book(blocks, data) else Book(blocks + [data], [])
    case RecordOp(data) =>
      var open := b.open + data;
      if |open| < MAX_LOGGER_SIZE then Book(b.blocks, open) else Book(b.blocks + [open], [])
    case FlushOp => Book(b.blocks + [b.open], [])
  }

  function Written(ops: seq<Op>): Book
  {
    if ops == [] then Book([], []) else Turn(Written(ops[..|ops| - 1]), ops[|ops| - 1])
  }

  lemma WrittenNext(ops: seq<Op>, op: Op)
    ensures Written(ops + [op]) == Turn(Written(ops), op)
  {
    hide Turn;
    assert (ops + [op])[..|ops|] == ops;
  }

  lemma WrittenStep(ops: seq<Op>, k: nat)
    requires k < |ops|
    ensures Written(ops[..k + 1]) == Turn(Written(ops[..k]), ops[k])
  {
    hide Turn;
    assert ops[..k + 1] == ops[..k] + [ops[k]];
    WrittenNext(ops[..k], ops[k]);
  }

  function BufferLen(ops: seq<Op>): nat
  {
    if ops == [] then 0 else BufferAfter(BufferLen(ops[..|ops| - 1]), ops[|ops| - 1])
  }

  function Logged(ops: seq<Op>): seq<byte>
  {
    if ops == [] then []
    else Logged(ops[..|ops| - 1]) + (if ops[|ops| - 1].FlushOp? then [] else ops[|ops| - 1].data)
  }

  /** Sizes that can occur: those of a 32-bit append and of the records of generated code. */
  predicate Sized(op: Op)
  {
    match op
    case AppendOp(data) => |data| < WORD_LIMIT
    case RecordOp(data) => |data| <= RECORD_MAX
    case FlushOp => true
  }

  /** Whether the code gets through an operation at a given fill: no empty append, none of exactly
      the buffer's size, no record past the allocation. */
  predicate Accepted(n: nat, op: Op)
  {
    match op
    case AppendOp(data) => data != [] && |data| != MAX_LOGGER_SIZE
    case RecordOp(data) => n + |data| <= MAX_LOGGER_SIZE + SPARE
    case FlushOp => true
  }

  ghost predicate AllAccepted(ops: seq<Op>)
  {
    forall i :: 0 <= i < |ops| ==> Accepted(BufferLen(ops[..i]), ops[i])
  }

  // ----- flushes of an empty buffer

  predicate IdleAt(ops: seq<Op>, i: nat)
    requires i < |ops|
  {
    ops[i].FlushOp? && BufferLen(ops[..i]) == 0
  }

  predicate Idle(ops: seq<Op>)
  {
    ops != [] && (Idle(ops[..|ops| - 1]) || IdleAt(ops, |ops| - 1))
  }

  /** How much is logged before the first flush of an empty buffer. */
  function Solid(ops: seq<Op>): nat
  {
    if ops == [] then 0
    else if Idle(ops[..|ops| - 1]) then Solid(ops[..|ops| - 1]) else |Logged(ops)|
  }

  lemma OpsNext(ops: seq<Op>, k: nat)
    requires k < |ops|
    ensures BufferLen(ops[..k + 1]) == BufferAfter(BufferLen(ops[..k]), ops[k])
    ensures Logged(ops[..k + 1]) == Logged(ops[..k]) + (if ops[k].FlushOp? then [] else ops[k].data)
    ensures Idle(ops[..k + 1]) <==> Idle(ops[..k]) || IdleAt(ops, k)
    ensures Solid(ops[..k + 1]) == if Idle(ops[..k]) then Solid(ops[..k]) else |Logged(ops[..k + 1])|
  {
    assert ops[..k + 1][..k] == ops[..k];
  }

  lemma {:induction false} IdleIff(ops: seq<Op>)
    ensures Idle(ops) <==> exists i :: 0 <= i < |ops| && IdleAt(ops, i)
  {
    if ops != [] {
      var k := |ops| - 1;
      var p := ops[..k];
      IdleIff(p);
      forall i | 0 <= i < k
        ensures IdleAt(p, i) <==> IdleAt(ops, i)
      {
        assert p[..i] == ops[..i];
      }
      if i :| 0 <= i < |ops| && IdleAt(ops, i) {
        assert i < k ==> IdleAt(p, i);
      }
    }
  }

  /** An empty buffer is flushed only if nothing is logged after it. */
  ghost predicate Careful(ops: seq<Op>)
  {
    forall i, j :: 0 <= i < j < |ops| && IdleAt(ops, i) ==> ops[j].FlushOp? || ops[j].data == []
  }

  lemma CarefulNext(ops: seq<Op>, k: nat)
    requires |ops| == k + 1
    ensures Careful(ops) <==> Careful(ops[..k]) && (Idle(ops[..k]) ==> ops[k].FlushOp? || ops[k].data == [])
  {
    hide BufferLen;
    var p := ops[..k];
    IdleIff(p);
    forall i | 0 <= i < k
      ensures p[..i] == ops[..i] && (IdleAt(p, i) <==> IdleAt(ops, i))
    {
      assert p[..i] == ops[..i];
    }
    if Careful(ops) && Idle(p) {
      var i :| 0 <= i < |p| && IdleAt(p, i);
      assert IdleAt(ops, i);
    }
    if Careful(p) && (Idle(p) ==> ops[k].FlushOp? || ops[k].data == []) {
      forall i, j | 0 <= i < j < |ops| && IdleAt(ops, i)
        ensures ops[j].FlushOp? || ops[j].data == []
      {
        assert IdleAt(p, i);
        if j < k { assert p[j] == ops[j]; }
      }
    }
  }

  /** Exactly then everything logged counts. */
  lemma {:induction false} SolidIff(ops: seq<Op>)
    ensures Solid(ops) <= |Logged(ops)|
    ensures Solid(ops) == |Logged(ops)| <==> Careful(ops)
  {
    if ops != [] {
      var k := |ops| - 1;
      SolidIff(ops[..k]);
      CarefulNext(ops, k);
      if !Idle(ops[..k]) { NeverIdle(ops[..k]); }
    }
  }

  lemma NeverIdle(ops: seq<Op>)
    requires !Idle(ops)
    ensures Careful(ops)
  {
    IdleIff(ops);
  }

  // ----- the bytes behind the buffer

  lemma {:induction false} BelowEnd(ops: seq<Op>)
    ensures BufferLen(ops) < MAX_LOGGER_SIZE
  {
    if ops != [] { BelowEnd(ops[..|ops| - 1]); }
  }

  /** Appends of whole units, and the records of generated code, of one or three words. */
  predicate InUnit(op: Op, u: nat)
    requires u > 0
  {
    match op
    case AppendOp(data) => data != [] && |data| != MAX_LOGGER_SIZE && |data| % u == 0
    case RecordOp(data) => |data| == 4 || |data| == 12
    case FlushOp => true
  }

  predicate InUnits(ops: seq<Op>, u: nat)
    requires u > 0
  {
    forall i :: 0 <= i < |ops| ==> InUnit(ops[i], u)
  }

  lemma WholeWords(n: nat, u: nat)
    requires u > 0 && n % u == 0 && u % 4 == 0
    ensures n % 4 == 0
  {
    var q, v := n / u, u / 4;
    assert n == u * q && u == 4 * v;
    assert n == 4 * (v * q);
  }

  lemma WordsAfter(n: nat, op: Op)
    requires n % 4 == 0 && (op.FlushOp? || |op.data| % 4 == 0)
    ensures BufferAfter(n, op) % 4 == 0
  {
  }

  lemma {:induction false} WordsFill(ops: seq<Op>, u: nat)
    requires u > 0 && u % 4 == 0 && InUnits(ops, u)
    ensures BufferLen(ops) % 4 == 0
  {
    hide BufferAfter;
    if ops != [] {
      var k := |ops| - 1;
      WordsFill(ops[..k], u);
      if ops[k].AppendOp? { WholeWords(|ops[k].data|, u); }
      WordsAfter(BufferLen(ops[..k]), ops[k]);
    }
  }

  lemma WordsFit(ops: seq<Op>, u: nat)
    requires u > 0 && u % 4 == 0 && InUnits(ops, u)
    ensures AllAccepted(ops)
  {
    forall i | 0 <= i < |ops|
      ensures Accepted(BufferLen(ops[..i]), ops[i])
    {
      BelowEnd(ops[..i]);
      WordsFill(ops[..i], u);
    }
  }

  /** One append of u bytes and then j records of a word each. */
  function Uneven(u: nat, j: nat): (ops: seq<Op>)
    ensures |ops| == j + 1
  {
    if j == 0 then [AppendOp(Zeros(u))] else Uneven(u, j - 1) + [RecordOp(Zeros(4))]
  }

  function Zeros(n: nat): (s: seq<byte>)
    ensures |s| == n
  {
    seq(n, i => 0)
  }

  lemma {:induction false} UnevenFill(u: nat, j: nat)
    requires 0 < u && u + 4 * j < MAX_LOGGER_SIZE
    ensures BufferLen(Uneven(u, j)) == u + 4 * j
  {
    hide BufferAfter, BufferLen, Zeros;
    if j == 0 {
      var op := AppendOp(Zeros(u));
      NoOps();
      OneMore([], op);
      assert [] + [op] == Uneven(u, 0);
      FitsAfter(0, op);
    } else {
      var op := RecordOp(Zeros(4));
      UnevenFill(u, j - 1);
      OneMore(Uneven(u, j - 1), op);
      FitsAfter(u + 4 * (j - 1), op);
    }
  }

  lemma OneMore(ops: seq<Op>, op: Op)
    ensures BufferLen(ops + [op]) == BufferAfter(BufferLen(ops), op)
  {
    var r := ops + [op];
    assert r[..|ops|] == ops;
  }

  lemma FitsAfter(n: nat, op: Op)
    requires !op.FlushOp? && n + |op.data| < MAX_LOGGER_SIZE
    ensures BufferAfter(n, op) == n + |op.data|
  {
  }

  lemma {:induction false} UnevenUnits(u: nat, j: nat)
    requires 0 < u < MAX_LOGGER_SIZE
    ensures InUnits(Uneven(u, j), u)
  {
    if j == 0 {
      assert InUnit(AppendOp(Zeros(u)), u);
    } else {
      hide InUnit, Zeros;
      UnevenUnits(u, j - 1);
      WordUnit(u);
    }
  }

  lemma WordUnit(u: nat)
    requires u > 0
    ensures InUnit(RecordOp(Zeros(4)), u) && InUnit(RecordOp(Zeros(12)), u)
  {
  }

  /** The record of rdtsc leaves the allocation once the buffer is filled to its last three bytes. */
  lemma UnevenFails(u: nat) returns (ops: seq<Op>)
    requires 0 < u < MAX_LOGGER_SIZE && u % 4 != 0
    ensures InUnits(ops, u) && !AllAccepted(ops)
  {
    var j := (MAX_LOGGER_SIZE - 1 - u) / 4;
    var p := Uneven(u, j);
    UnevenFill(u, j);
    UnevenUnits(u, j);
    ops := p + [RecordOp(Zeros(12))];
    assert ops[..j + 1] == p;
    assert !Accepted(BufferLen(ops[..j + 1]), ops[j + 1]);
  }

  /** The spare bytes are enough for all runs that append in units of u exactly if u is whole words. */
  lemma SpareIff(u: nat)
    requires 0 < u < MAX_LOGGER_SIZE
    ensures (forall ops: seq<Op> :: InUnits(ops, u) ==> AllAccepted(ops)) <==> u % 4 == 0
  {
    if u % 4 == 0 {
      forall ops: seq<Op> | InUnits(ops, u)
        ensures AllAccepted(ops)
      {
        WordsFit(ops, u);
      }
    } else {
      var ops := UnevenFails(u);
    }
  }

  // ----- whole runs

  method RunOp(log: Logger, op: Op) returns (ok: bool)
    requires log.Valid() && Sized(op)
    modifies log, log.dict, log.work
    ensures ok <==> Accepted(|old(log.buffer)|, op)
    ensures ok ==> log.Valid() && log.logged == old(log.logged) + (if op.FlushOp? then [] else op.data)
    ensures ok ==> |log.buffer| == BufferAfter(|old(log.buffer)|, op) && log.Pages() == Turn(old(log.Pages()), op)
    ensures ok && !(op.FlushOp? && |old(log.buffer)| == 0) ==> Grown(old(log.frames), log.frames)
    ensures op.FlushOp? && |old(log.buffer)| == 0 ==> Stopped(old(log.frames), log.frames)
  {
    ok := true;
    match op {
      case AppendOp(data) => ok := log.Append(data);
      case RecordOp(data) => ok := log.Record(data);
      case FlushOp => log.Flush();
    }
  }

  /** `b` is `a` and one empty frame. */
  predicate Stopped(a: seq<Frame>, b: seq<Frame>)
  {
    |b| == |a| + 1 && b[..|a|] == a && b[|a|].data == []
  }

  lemma HeadMoves(a: seq<Frame>, b: seq<Frame>)
    requires Grown(a, b) || Stopped(a, b)
    ensures !NoEmpty(a) ==> Head(b) == Head(a) && !NoEmpty(b)
    ensures NoEmpty(a) && Stopped(a, b) ==> Head(b) == |Text(a)| && !NoEmpty(b)
    ensures NoEmpty(a) && Grown(a, b) ==> NoEmpty(b)
  {
    var more := b[|a|..];
    assert b == a + more;
    if !NoEmpty(a) {
      HeadKept(a, more);
      var i :| 0 <= i < |a| && a[i].data == [];
      assert b[i].data == [];
    } else if Stopped(a, b) {
      assert more == [b[|a|]];
      HeadStops(a, b[|a|]);
    }
  }

  /** Runs the operations on a fresh logger with arbitrary dictionary contents.  It gets through all of
      them exactly if each is accepted.  The file and the buffer then hold everything logged, in
      order, and what was logged before the first flush of an empty buffer lies before any empty
      frame. */
  method RunLogger(ops: seq<Op>, dict: array<int>) returns (ok: bool, log: Logger)
    requires dict.Length == LzoCompress.D_SIZE
    requires forall i :: 0 <= i < |ops| ==> Sized(ops[i])
    modifies dict
    ensures fresh(log) && fresh(log.work) && log.dict == dict && (ok <==> AllAccepted(ops))
    ensures ok ==> log.Valid() && log.logged == Logged(ops) && |log.buffer| == BufferLen(ops)
    ensures ok ==> HeadIs(ops, log.frames) && log.Pages() == Written(ops)
  {
    hide BufferAfter, Accepted, BufferLen, Logged, Idle, Solid, Head, NoEmpty, Grown, Stopped, HeadIs, Sized, Turn,
      Written, Blocks, FileOf, Text, FrameOk;
    log := new Logger(dict);
    NoOps();
    assert ops[..0] == [];
    ok := true;
    for k := 0 to |ops|
      invariant fresh(log) && fresh(log.work) && log.Valid() && log.dict == dict && log.Pages() == Written(ops[..k])
      invariant log.logged == Logged(ops[..k]) && |log.buffer| == BufferLen(ops[..k])
      invariant HeadIs(ops[..k], log.frames)
      invariant forall i :: 0 <= i < k ==> Accepted(BufferLen(ops[..i]), ops[i])
    {
      ghost var before := log.frames;
      ghost var buffered := log.buffer;
      OpsNext(ops, k);
      WrittenStep(ops, k);
      ok := RunOp(log, ops[k]);
      if !ok { return; }
      HeadStep(ops, k, before, buffered, log.frames);
    }
    assert ops[..|ops|] == ops;
  }

  /** The frames tell how far a reader gets. */
  ghost predicate HeadIs(ops: seq<Op>, frames: seq<Frame>)
  {
    if Idle(ops) then !NoEmpty(frames) && Head(frames) == Solid(ops)
    else NoEmpty(frames) && Solid(ops) == |Logged(ops)|
  }

  lemma HeadStep(ops: seq<Op>, k: nat, before: seq<Frame>, buffered: seq<byte>, after: seq<Frame>)
    requires k < |ops| && HeadIs(ops[..k], before)
    requires |buffered| == BufferLen(ops[..k]) && Logged(ops[..k]) == Text(before) + buffered
    requires if IdleAt(ops, k) then Stopped(before, after) else Grown(before, after)
    ensures HeadIs(ops[..k + 1], after)
  {
    hide BufferLen, Logged, Idle, Solid, Head, NoEmpty, Grown, Stopped, BufferAfter;
    OpsNext(ops, k);
    HeadMoves(before, after);
  }

  lemma NoOps()
    ensures BufferLen([]) == 0 && Logged([]) == [] && HeadIs([], []) && Written([]) == Book([], []) && Blocks([]) == []
  {
  }
}
