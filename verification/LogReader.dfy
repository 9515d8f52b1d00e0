/** The replay side: the log is read back region by region. */
module LogReader {
  import opened Bits
  import opened LogFormat
  import LogWriter
  import LzoDecoder
  import LzoDecompress
  import LzoCompress

  /** What is left of the current block, and the blocks after it. */
  datatype View = View(cur: seq<byte>, bs: seq<seq<byte>>)

  function Load(v: View): View
    requires v.bs != []
  {
    View(v.bs[0], v.bs[1..])
  }

  /** Whether a read of n bytes gets through: it may cross into the next block only if that block
      is not empty, because two reads in a row that return nothing are taken for corruption. */
  predicate CanRead(v: View, n: nat)
    decreases |v.bs|
  {
    n <= |v.cur| || (v.bs != [] && v.bs[0] != [] && CanRead(Load(v), n - |v.cur|))
  }

  /** What n bytes further on is left. */
  function Drop(v: View, n: nat): View
    decreases |v.bs|
  {
    if n <= |v.cur| then View(v.cur[n..], v.bs)
    else if v.bs == [] then View([], [])
    else Drop(Load(v), n - |v.cur|)
  }

  /** Whether n bytes can be looked at p bytes further on: they must not cross into another block,
      and the log may end only where they begin. */
  predicate AheadOk(v: View, p: nat, n: nat)
    decreases |v.bs|
  {
    n == 0 ||
    if p < |v.cur| then p + n <= |v.cur|
    else if p == |v.cur| then v.bs == [] || n <= |v.bs[0]|
    else v.bs != [] && AheadOk(Load(v), p - |v.cur|, n)
  }

  /** In closed form: the bytes lie before the first empty block. */
  lemma {:induction false} CanReadIff(cur: seq<byte>, fs: seq<Frame>, n: nat)
    ensures CanRead(View(cur, Blocks(fs)), n) <==> n <= |cur| + Head(fs)
    decreases |fs|
  {
    if n > |cur| && fs != [] {
      assert Blocks(fs)[1..] == Blocks(fs[1..]);
      CanReadIff(fs[0].data, fs[1..], n - |cur|);
    }
  }

  /** Two one-byte blocks with an empty block between them: both bytes are in the file, but a read
      of both fails. */
  lemma EmptyBlockBlocks(x: byte, y: byte)
    ensures var fs := [Raw([x]), Raw([]), Raw([y])];
            Text(fs) == [x, y] && CanRead(View([], Blocks(fs)), 1) && !CanRead(View([], Blocks(fs)), 2)
  {
    var fs := [Raw([x]), Raw([]), Raw([y])];
    assert fs[1..] == [Raw([]), Raw([y])] && fs[1..][1..] == [Raw([y])] && fs[1..][1..][1..] == [];
    assert Text([Raw([y])]) == [y];
    assert Text(fs[1..]) == [y];
    CanReadIff([], fs, 1);
    CanReadIff([], fs, 2);
    assert Head(fs[1..]) == 0;
  }

  lemma {:induction false} CanReadSplit(v: View, m: nat, n: nat)
    ensures CanRead(v, m + n) <==> CanRead(v, m) && CanRead(Drop(v, m), n)
    decreases |v.bs|
  {
    if m > |v.cur| && v.bs != [] { CanReadSplit(Load(v), m - |v.cur|, n); }
  }

  lemma {:induction false} AheadShift(v: View, m: nat, p: nat, n: nat)
    requires CanRead(v, m)
    ensures AheadOk(v, m + p, n) <==> AheadOk(Drop(v, m), p, n)
    decreases |v.bs|
  {
    if m > |v.cur| { AheadShift(Load(v), m - |v.cur|, p, n); }
  }

  class Reader {
    const file: seq<byte>
    var pos: nat
    var region: seq<byte>
    var ptr: nat
    ghost var rest: seq<Frame>

    /** The file from pos on is the frames still to come. */
    ghost predicate Valid()
      reads this
    {
      && pos <= |file| && ptr <= |region|
      && FramesOk(rest) && file[pos..] == FileOf(rest)
    }

    ghost function Stream(): seq<byte>
      reads this
      requires ptr <= |region|
    {
      region[ptr..] + Text(rest)
    }

    ghost function Left(): View
      reads this
      requires ptr <= |region|
    {
      View(region[ptr..], Blocks(rest))
    }

    constructor (f: seq<byte>, ghost fs: seq<Frame>)
      requires FramesOk(fs) && f == FileOf(fs)
      ensures Valid() && file == f && Stream() == Text(fs) && region == [] && ptr == 0 && rest == fs
    {
      file, pos, region, ptr, rest := f, 0, [], 0, fs;
    }

    /** next_region: drops the current region and loads the next one. */
    method NextRegion() returns (error: Error)
      requires pos <= |file|
      modifies this`pos, this`region, this`ptr
      ensures var p := ParseAt(file, old(pos)); error == p.error && pos == p.pos && region == p.data && ptr == 0
    {
      hide FromU32, LzoDecoder.Decode;
      region, ptr := [], 0;
      if pos == |file| { return LogEnd; }
      var mark := file[pos];
      if mark == COMPRESSED_DATA_MARK {
        if |file| - pos < 9 { pos := |file|; return LogEnd; }
        var full, comp := FromU32(file[pos + 1..pos + 5]), FromU32(file[pos + 5..pos + 9]);
        if |file| - (pos + 9) < comp { pos := |file|; return LogEnd; }
        var st := LzoDecompress.Decompress(file[pos + 9..pos + 9 + comp], full);
        pos := pos + 9 + comp;
        // the code checks only the length that came out
        if |st.out| != full { return LzoInflate; }
        region := st.out;
      } else if mark == UNCOMPRESSED_DATA_MARK {
        if |file| - pos < 5 { pos := |file|; return LogEnd; }
        var size := FromU32(file[pos + 1..pos + 5]);
        if |file| - (pos + 5) < size { pos := |file|; return LogEnd; }
        region := file[pos + 5..pos + 5 + size];
        pos := pos + 5 + size;
      } else {
        pos := pos + 1;
        return FileCorrupted;
      }
      return None;
    }

    /** On a well-formed log, the next region is the next frame's data. */
    method Advance() returns (error: Error)
      requires Valid()
      modifies this
      ensures Valid() && ptr == 0 && old(ptr <= |region|)
      ensures old(rest) == [] ==> error == LogEnd && region == [] && rest == []
      ensures old(rest) != [] ==> error == None && region == old(rest)[0].data && rest == old(rest)[1..]
    {
      hide ParseAt, FrameBytes, FrameOk;
      if rest != [] {
        FileNext(file, pos, rest);
      } else {
        EndOfFile(file, pos);
      }
      error := NextRegion();
      if rest != [] { rest := rest[1..]; }
    }

    /** read_log: at most one of the current region's bytes, its tail, or a region change. */
    method ReadLog(size: nat) returns (error: Error, data: seq<byte>)
      requires Valid()
      modifies this
      ensures Valid()
      ensures size == 0 ==> error == None && data == [] && unchanged(this)
      ensures size > 0 && old(ptr < |region|) ==>
                && error == None && rest == old(rest) && region == old(region)
                && ptr == (if old(ptr) + size <= |region| then old(ptr) + size else |region|)
                && data == region[old(ptr)..ptr]
      ensures size > 0 && old(ptr == |region|) ==>
                && data == [] && ptr == 0
                && (if old(rest) == [] then error == LogEnd && region == [] && rest == []
                    else error == None && region == old(rest)[0].data && rest == old(rest)[1..])
    {
      hide FileOf, FrameOk;
      if size == 0 { return None, []; }
      if ptr + size <= |region| {
        data := region[ptr..ptr + size];
        ptr := ptr + size;
        return None, data;
      }
      if ptr < |region| {
        data := region[ptr..];
        ptr := |region|;
        return None, data;
      }
      error := Advance();
      data := [];
    }

    /** read_log_full gets the next n bytes of the stream exactly when CanRead allows it. */
    method ReadLogFull(n: nat) returns (error: Error, data: seq<byte>)
      requires Valid()
      modifies this
      ensures Valid()
      ensures error == None <==> old(CanRead(Left(), n))
      ensures error == None ==> |data| == n && old(Stream()) == data + Stream() && Left() == old(Drop(Left(), n))
    {
      hide CanRead, Drop, Text, Blocks, FileOf, FrameOk, Reading;
      ghost var g := Goal(n, Stream(), CanRead(Left(), n), Drop(Left(), n));
      Begin(g, region[ptr..], rest);
      var lastZero, size := false, n;
      data := [];
      while size > 0
        invariant Valid() && 0 <= size && Reading(g, lastZero, data, region[ptr..], rest, size)
        decreases |rest|, size, !lastZero
      {
        ghost var cur, rest0 := region[ptr..], rest;
        var chunk;
        error, chunk := ReadLog(size);
        if chunk == [] {
          NextBlock(g, lastZero, data, cur, rest0, size);
          if error != None { return; }
          if lastZero { return LogCorrupted, data; }
          lastZero := true;
        } else {
          assert region[ptr..] == cur[|chunk|..] && chunk == cur[..|chunk|];
          NextChunk(g, lastZero, data, cur, rest, size, |chunk|);
          data, lastZero, size := data + chunk, false, size - |chunk|;
        }
      }
      Finished(g, lastZero, data, region[ptr..], rest);
      error := None;
    }

    /** readahead_log looks at the next bytes without consuming them.  It may load a region, but
        the stream still to be read stays the same whatever the outcome. */
    method Readahead(sz: nat) returns (error: Error, found: bool, data: seq<byte>)
      requires Valid()
      modifies this
      ensures Valid() && Stream() == old(Stream())
      ensures error == None <==> old(AheadOk(Left(), 0, sz))
      ensures error == None ==> (found <==> sz == 0 || old(ptr < |region| || rest != []))
      ensures error == None ==> Left() == old(Left()) || Loaded(old(Left()), Left())
      ensures error == None && found && sz > 0 ==> sz <= |Stream()| && data == Stream()[..sz]
    {
      hide FileOf, FrameOk, Text;
      data := [];
      if sz == 0 { return None, true, data; }
      if ptr + sz <= |region| {
        return None, true, region[ptr..ptr + sz];
      }
      if ptr != |region| { return LogCorrupted, false, data; }
      ghost var cur, rest0 := region[ptr..], rest;
      error := Advance();
      if error == LogEnd {
        assert region[ptr..] == old(region[ptr..]) == [];
        return None, false, data;
      }
      StreamNext(cur, rest0);
      if |region| < sz { return LogCorrupted, false, data; }
      return None, true, region[..sz];
    }
  }

  /** The next block has been loaded behind a used-up one, and it is not empty. */
  ghost predicate Loaded(v: View, v': View)
  {
    v.cur == [] && v.bs != [] && v.bs[0] != [] && v' == Load(v)
  }

  /** A read of n bytes: the stream before it, whether it will succeed, and what will then be left. */
  datatype Goal = Goal(n: nat, stream: seq<byte>, possible: bool, end: View)

  /** What the reading loop knows: after a read that returned nothing, an empty region means failure. */
  ghost predicate Reading(g: Goal, lastZero: bool, data: seq<byte>, cur: seq<byte>, fs: seq<Frame>, size: nat)
  {
    var v := View(cur, Blocks(fs));
    && |data| + size == g.n && g.stream == data + (cur + Text(fs)) && g.end == Drop(v, size)
    && g.possible == (!(lastZero && cur == [] && size > 0) && CanRead(v, size))
  }

  lemma Begin(g: Goal, cur: seq<byte>, fs: seq<Frame>)
    requires var v := View(cur, Blocks(fs)); g == Goal(g.n, cur + Text(fs), CanRead(v, g.n), Drop(v, g.n))
    ensures Reading(g, false, [], cur, fs, g.n)
  {
    assert [] + (cur + Text(fs)) == cur + Text(fs);
  }

  lemma Finished(g: Goal, lastZero: bool, data: seq<byte>, cur: seq<byte>, fs: seq<Frame>)
    requires Reading(g, lastZero, data, cur, fs, 0)
    ensures g.possible && |data| == g.n && g.stream == data + (cur + Text(fs)) && g.end == View(cur, Blocks(fs))
  {
    assert cur[0..] == cur;
  }

  lemma NextChunk(g: Goal, lastZero: bool, data: seq<byte>, cur: seq<byte>, fs: seq<Frame>, size: nat, m: nat)
    requires Reading(g, lastZero, data, cur, fs, size) && 0 < m <= |cur| && m <= size
    ensures Reading(g, false, data + cur[..m], cur[m..], fs, size - m)
  {
    if size <= |cur| { assert cur[size..] == cur[m..][size - m..]; }
    assert data + (cur + Text(fs)) == (data + cur[..m]) + (cur[m..] + Text(fs));
  }

  lemma NextBlock(g: Goal, lastZero: bool, data: seq<byte>, cur: seq<byte>, fs: seq<Frame>, size: nat)
    requires Reading(g, lastZero, data, cur, fs, size) && cur == [] && size > 0
    ensures fs == [] || lastZero ==> !g.possible
    ensures fs != [] && !lastZero ==> Reading(g, true, data, fs[0].data[0..], fs[1..], size)
  {
    if fs != [] {
      assert fs[0].data[0..] == fs[0].data;
      assert Blocks(fs)[1..] == Blocks(fs[1..]);
    }
  }

  lemma FileNext(file: seq<byte>, pos: nat, fs: seq<Frame>)
    requires pos <= |file| && fs != [] && FramesOk(fs) && file[pos..] == FileOf(fs)
    ensures var p := ParseAt(file, pos);
            p.error == None && p.data == fs[0].data && FramesOk(fs[1..]) && file[p.pos..] == FileOf(fs[1..])
  {
    hide ParseAt, FrameBytes;
    var b := FrameBytes(fs[0]);
    assert FileOf(fs) == b + FileOf(fs[1..]);
    ParseFrame(file, pos, fs[0]);
    assert file[pos + |b|..] == file[pos..][|b|..];
  }

  lemma EndOfFile(file: seq<byte>, pos: nat)
    requires pos <= |file| && file[pos..] == []
    ensures ParseAt(file, pos) == Parse(LogEnd, pos, [])
  {
  }

  lemma StreamNext(cur: seq<byte>, fs: seq<Frame>)
    requires cur == [] && fs != []
    ensures cur + Text(fs) == fs[0].data[0..] + Text(fs[1..])
  {
  }

  // ----- whole runs

  datatype Request = Read(size: nat) | Ahead(size: nat)

  function Total(reqs: seq<Request>): nat
  {
    if reqs == [] then 0 else (if reqs[0].Read? then reqs[0].size else 0) + Total(reqs[1..])
  }

  /** Whether all the requests can be served, one after the other. */
  predicate Servable(v: View, reqs: seq<Request>)
    decreases |reqs|
  {
    reqs == [] ||
    if reqs[0].Read? then CanRead(v, reqs[0].size) && Servable(Drop(v, reqs[0].size), reqs[1..])
    else AheadOk(v, 0, reqs[0].size) && Servable(v, reqs[1..])
  }

  /** In closed form: all that is read can be read at once, and every look ahead stays in one block. */
  ghost predicate InReach(v: View, reqs: seq<Request>)
  {
    && CanRead(v, Total(reqs))
    && forall k :: 0 <= k < |reqs| && reqs[k].Ahead? ==> AheadOk(v, Total(reqs[..k]), reqs[k].size)
  }

  lemma {:induction false} ServableIff(v: View, reqs: seq<Request>)
    ensures Servable(v, reqs) <==> InReach(v, reqs)
    decreases |reqs|
  {
    hide CanRead, AheadOk, Drop;
    if reqs == [] {
      NoBytes(v);
    } else {
      var n := if reqs[0].Read? then reqs[0].size else 0;
      NoBytes(v);
      ServableIff(Drop(v, n), reqs[1..]);
      InReachNext(v, reqs, n);
    }
  }

  lemma NoBytes(v: View)
    ensures CanRead(v, 0) && Drop(v, 0) == v
  {
    assert v.cur[0..] == v.cur;
  }

  lemma InReachNext(v: View, reqs: seq<Request>, n: nat)
    requires reqs != [] && n == if reqs[0].Read? then reqs[0].size else 0
    ensures InReach(v, reqs) <==>
            CanRead(v, n) && InReach(Drop(v, n), reqs[1..]) && (reqs[0].Ahead? ==> AheadOk(v, 0, reqs[0].size))
  {
    hide CanRead, AheadOk, Drop;
    var tail := reqs[1..];
    CanReadSplit(v, n, Total(tail));
    if CanRead(v, n) {
      forall k | 0 <= k < |tail|
        ensures reqs[k + 1] == tail[k]
        ensures AheadOk(v, Total(reqs[..k + 1]), tail[k].size) <==> AheadOk(Drop(v, n), Total(tail[..k]), tail[k].size)
      {
        assert reqs[..k + 1][1..] == tail[..k];
        assert Total(reqs[..k + 1]) == n + Total(tail[..k]);
        AheadShift(v, n, Total(tail[..k]), tail[k].size);
      }
      assert Total(reqs[..0]) == 0;
      forall k | 0 <= k < |reqs| && reqs[k].Ahead?
        ensures k > 0 ==> tail[k - 1] == reqs[k]
      {
      }
    }
  }

  /** Loading a block that is not empty changes nothing for what follows. */
  lemma {:induction false} LoadedSame(v: View, v': View, reqs: seq<Request>)
    requires Loaded(v, v')
    ensures Servable(v, reqs) <==> Servable(v', reqs)
    decreases |reqs|
  {
    if reqs != [] {
      if reqs[0].Ahead? || reqs[0].size == 0 {
        NoBytes(v);
        NoBytes(v');
        LoadedSame(v, v', reqs[1..]);
      }
    }
  }

  /** Serves reads and looks ahead up to the first that fails.  All are served exactly if they are in
      reach, and the reads return consecutive pieces of the stream. */
  method Replay(r: Reader, reqs: seq<Request>) returns (ok: bool, data: seq<byte>)
    requires r.Valid()
    modifies r
    ensures r.Valid() && (ok <==> old(InReach(r.Left(), reqs)))
    ensures ok ==> |data| == Total(reqs) && old(r.Stream()) == data + r.Stream()
  {
    hide CanRead, AheadOk, Drop, Servable, InReach, FileOf, FrameOk, Text, Blocks, Loaded;
    ServableIff(r.Left(), reqs);
    data := [];
    assert reqs[0..] == reqs;
    for k := 0 to |reqs|
      invariant r.Valid() && (old(Servable(r.Left(), reqs)) <==> Servable(r.Left(), reqs[k..]))
      invariant |data| + Total(reqs[k..]) == Total(reqs) && old(r.Stream()) == data + r.Stream()
    {
      ghost var v := r.Left();
      ServableNext(v, reqs, k);
      if reqs[k].Read? {
        var error, chunk := r.ReadLogFull(reqs[k].size);
        if error != None { return false, data; }
        assert data + (chunk + r.Stream()) == data + chunk + r.Stream();
        data := data + chunk;
      } else {
        var error, found, ahead := r.Readahead(reqs[k].size);
        if error != None { return false, data; }
        if r.Left() != v { LoadedSame(v, r.Left(), reqs[k + 1..]); }
      }
    }
    ServableNone(r.Left(), reqs);
    ok := true;
  }

  lemma ServableNext(v: View, reqs: seq<Request>, k: nat)
    requires k < |reqs|
    ensures Servable(v, reqs[k..]) <==>
            if reqs[k].Read? then CanRead(v, reqs[k].size) && Servable(Drop(v, reqs[k].size), reqs[k + 1..])
            else AheadOk(v, 0, reqs[k].size) && Servable(v, reqs[k + 1..])
    ensures Total(reqs[k..]) == (if reqs[k].Read? then reqs[k].size else 0) + Total(reqs[k + 1..])
  {
    hide CanRead, AheadOk, Drop;
    assert reqs[k..][1..] == reqs[k + 1..];
  }

  lemma ServableNone(v: View, reqs: seq<Request>)
    ensures Servable(v, reqs[|reqs|..]) && Total(reqs[|reqs|..]) == 0
  {
  }

  /** Record, flush at exit, and replay: whatever is logged, through whatever compressor dictionary, and
      however the replay cuts its reads, the bytes come back in order.  Requests can be served exactly if
      they are in reach of the blocks that the operations write, which is not beyond what was logged before
      the first flush of an empty buffer, and for a plain sequence of reads exactly up to there. */
  method RecordThenReplay(ops: seq<LogWriter.Op>, dict: array<int>, reqs: seq<Request>)
    returns (recorded: bool, ok: bool, data: seq<byte>)
    requires dict.Length == LzoCompress.D_SIZE
    requires forall i :: 0 <= i < |ops| ==> LogWriter.Sized(ops[i])
    modifies dict
    ensures recorded <==> LogWriter.AllAccepted(ops)
    ensures recorded ==> (ok <==> InReach(View([], LogWriter.Written(ops + [LogWriter.FlushOp]).blocks), reqs))
    ensures recorded && ok ==> |data| == Total(reqs) && data <= LogWriter.Logged(ops)
    ensures recorded && ok ==> Total(reqs) <= LogWriter.Solid(ops)
    ensures recorded && (forall k :: 0 <= k < |reqs| ==> reqs[k].Read?) ==>
              (ok <==> Total(reqs) <= LogWriter.Solid(ops))
  {
    hide FileOf, FrameOk, LogWriter.AllAccepted, LogWriter.Sized, LogWriter.Logged, LogWriter.HeadIs, LogWriter.Solid,
      Total, CanRead, AheadOk, Blocks, Text, LogWriter.Grown, LogWriter.Written;
    var log;
    recorded, log := LogWriter.RunLogger(ops, dict);
    if !recorded { return false, false, []; }
    ghost var before, buffered := log.frames, log.buffer;
    log.Flush();
    ghost var fs := log.frames;
    LogWriter.WrittenNext(ops, LogWriter.FlushOp);
    assert Text(log.frames) == log.logged;
    LastFlush(ops, before, buffered, fs);
    var r := new Reader(log.file, fs);
    assert r.Left() == View([], Blocks(fs));
    CanReadIff([], fs, Total(reqs));
    ok, data := Replay(r, reqs);
  }

  lemma LastFlush(ops: seq<LogWriter.Op>, before: seq<Frame>, buffered: seq<byte>, after: seq<Frame>)
    requires LogWriter.HeadIs(ops, before) && LogWriter.Logged(ops) == Text(before) + buffered
    requires Text(after) == LogWriter.Logged(ops)
    requires if buffered == [] then LogWriter.Stopped(before, after) else LogWriter.Grown(before, after)
    ensures Head(after) == LogWriter.Solid(ops)
  {
    hide LogWriter.Logged, LogWriter.Solid, Text, Head, NoEmpty, LogWriter.Idle;
    LogWriter.HeadMoves(before, after);
    if NoEmpty(after) { HeadAll(after); }
  }
}
