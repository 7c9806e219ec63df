/**
 * The proxy side of one request: handle_with_cache takes a segment from the
 * pool, writes the control line to the cache over the socket, and forwards
 * the chunks the cache publishes in the segment to the client, handing each
 * one back with sem_cache_ready.
 *
 * The two processes are run as one sequential schedule: whenever the handler
 * waits on sem_proxy_ready with a count of zero, the cache's worker for the
 * request runs until it posts or can go no further; if nothing was posted by
 * then, nothing ever will be, and the handler waits for ever.
 */
module ProxyHandler {
  import opened Wrappers
  import opened CTypes
  import opened ShmLayout
  import opened ControlLine
  import opened ChunkStream
  import opened ShmChannel
  import opened SimpleCached

  /** The status a gfs_sendheader call announces. */
  datatype Status = GfOk | GfError

  /** One call the handler makes towards the client: a header, or gfs_send of some bytes. */
  datatype Event = Header(status: Status, length: nat) | Body(bytes: seq<Byte>)

  /** The handler returns a value, or waits on sem_proxy_ready for ever. */
  datatype Outcome = Returned(value: int) | Blocked

  /** The calls made towards the client, in order, and how the handler ends. */
  datatype Served = Served(trace: seq<Event>, outcome: Outcome)

  /** MAX_RETRIES: how many times connect is tried. */
  const MaxRetries: nat := 5

  /**
   * The answers of the calls outside the model: whether connect attempt i
   * succeeds, whether write succeeds, whether the GF_OK header goes out, what
   * the i-th gfs_send returns, and what gfs_sendheader returns for GF_ERROR.
   */
  datatype ProxyIo = ProxyIo(
    connectOk: nat -> bool,
    writeOk: bool,
    headerOk: bool,
    sent: nat -> int,
    errorReply: int)

  /** Some attempt among the first MaxRetries connects. */
  predicate Connects(io: ProxyIo)
  {
    exists i :: 0 <= i < MaxRetries && io.connectOk(i)
  }

  /** The error answer: gfs_sendheader(GF_ERROR, 0) and its result. */
  function Refused(io: ProxyIo): Served
  {
    Served([Header(GfError, 0)], Returned(io.errorReply))
  }

  // ---------------------------------------------------------------- specification

  /** The size the OK header announces: the file's size once the worker has opened it. */
  function FileSize(task: Task, env: CacheEnv): nat
  {
    if FileOf(task, env).Some? then |FileOf(task, env).value| else 0
  }

  /** The chunks the cache publishes for a control line: none when the boss drops the line. */
  function Published(line: string, env: CacheEnv, header: SizeT): seq<Chunk>
  {
    var t := ParseRequest(Received(line));
    if t.None? then [] else Expected(t.value, env, header)
  }

  /** The file size the cache records for a control line. */
  function Announced(line: string, env: CacheEnv): nat
  {
    var t := ParseRequest(Received(line));
    if t.None? then 0 else FileSize(t.value, env)
  }

  /** One pass of the send loop ends the handler with a result, or goes on with a new total and calls. */
  datatype Pass = Stop(result: Served) | Go(total: int, acc: seq<Event>)

  /**
   * One pass of the send loop over chunk c, the k-th sent, having sent
   * `total` bytes with the calls `acc`: a chunk longer than the usable size
   * is an error; a failed send is an error after it; after a chunk flagged
   * last the handler returns the total; otherwise it waits for the next.
   */
  function Step(c: Chunk, usable: SizeT, io: ProxyIo, k: nat, total: int, acc: seq<Event>): (p: Pass)
    ensures p.Go? <==> Sends(c, usable, io, k) && !c.last
    ensures p.Go? ==> p.acc == acc + [Body(c.data)] && p.total == total + io.sent(k)
    ensures p.Stop? ==> p.result.outcome.Returned? && |acc| < |p.result.trace| && p.result.trace[..|acc|] == acc
  {
    if |c.data| > usable then Stop(Served(acc + [Header(GfError, 0)], Returned(io.errorReply)))
    else if io.sent(k) < 0 then Stop(Served(acc + [Body(c.data), Header(GfError, 0)], Returned(io.errorReply)))
    else if c.last then Stop(Served(acc + [Body(c.data)], Returned(total + io.sent(k))))
    else Go(total + io.sent(k), acc + [Body(c.data)])
  }

  /** A chunk the handler sends without error is handed back with a post of sem_cache_ready. */
  predicate Sends(c: Chunk, usable: SizeT, io: ProxyIo, k: nat)
  {
    |c.data| <= usable && io.sent(k) >= 0
  }

  /**
   * A pass that ends the handler returns, with the chunk flagged last as the
   * final call when it was sent, and with an error header as the final call
   * otherwise; a pass that goes on sent a chunk not flagged last.
   */
  lemma StepEnds(c: Chunk, usable: SizeT, io: ProxyIo, k: nat, total: int, acc: seq<Event>)
    ensures var p := Step(c, usable, io, k, total, acc);
            && (p.Stop? ==> p.result.outcome.Returned? && p.result.trace != [])
            && (p.Stop? && Sends(c, usable, io, k) ==>
                  c.last && p.result.trace[|p.result.trace| - 1] == Body(c.data))
            && (p.Stop? && !Sends(c, usable, io, k) ==> p.result.trace[|p.result.trace| - 1] == Header(GfError, 0))
            && (p.Go? ==> Sends(c, usable, io, k) && !c.last && p.acc == acc + [Body(c.data)])
  {
  }

  /** The send loop from chunk k of `cs` on; when the cache publishes nothing more, the handler waits for ever. */
  function Forward(cs: seq<Chunk>, usable: SizeT, io: ProxyIo, k: nat, total: int, acc: seq<Event>): (r: Served)
    ensures |acc| <= |r.trace| && r.trace[..|acc|] == acc
    ensures r.outcome.Returned? ==> |acc| < |r.trace|
    decreases |cs| - k
  {
    if k >= |cs| then Served(acc, Blocked)
    else
      match Step(cs[k], usable, io, k, total, acc)
      case Stop(r) => r
      case Go(t, a) => Forward(cs, usable, io, k + 1, t, a)
  }

  /**
   * Everything after the control line is written, given the chunks the cache
   * publishes: no chunk, a wait for ever; an empty first chunk, an error; a
   * failed OK header, an error after it; otherwise the send loop.
   */
  function Consume(cs: seq<Chunk>, size: nat, usable: SizeT, io: ProxyIo): (r: Served)
    ensures r.trace == [] <==> cs == []
    ensures cs == [] ==> r.outcome.Blocked?
  {
    if cs == [] then Served([], Blocked)
    else if cs[0].data == [] then Refused(io)
    else if !io.headerOk then Served([Header(GfOk, size), Header(GfError, 0)], Returned(io.errorReply))
    else Forward(cs, usable, io, 0, 0, [Header(GfOk, size)])
  }

  /** The whole handler once it holds the segment named `name`. */
  function Handle(name: string, path: string, segsize: SizeT, header: SizeT, io: ProxyIo, env: CacheEnv): (r: Served)
    ensures r.outcome.Returned? ==> r.trace != []
    ensures r.outcome.Blocked? ==> Connects(io) && io.writeOk
  {
    if !Connects(io) || !io.writeOk then Refused(io)
    else
      var line := FormatRequest(name, path, segsize);
      Consume(Published(line, env, header), Announced(line, env), UsableSize(segsize, header), io)
  }

  /** The last call towards the client sends an empty chunk. */
  predicate EndsOnEmptyChunk(trace: seq<Event>)
  {
    trace != [] && trace[|trace| - 1] == Body([])
  }

  // ---------------------------------------------------------------- properties of the handler

  /** gfs_send of each chunk of `cs`, in order. */
  function BodiesOf(cs: seq<Chunk>): (t: seq<Event>)
    ensures |t| == |cs|
  {
    if cs == [] then [] else [Body(cs[0].data)] + BodiesOf(cs[1..])
  }

  /** Body call i carries chunk i. */
  lemma {:induction false} BodiesAt(cs: seq<Chunk>)
    ensures forall i :: 0 <= i < |cs| ==> BodiesOf(cs)[i] == Body(cs[i].data)
  {
    if cs != [] {
      var rest := cs[1..];
      BodiesAt(rest);
      var t := BodiesOf(cs);
      assert t == [Body(cs[0].data)] + BodiesOf(rest);
      forall i | 1 <= i < |cs|
        ensures t[i] == Body(cs[i].data)
      {
        assert t[i] == BodiesOf(rest)[i - 1] && rest[i - 1] == cs[i];
      }
    }
  }

  /** The bytes the client receives through the gfs_send calls of a trace, in order. */
  function BodyBytes(trace: seq<Event>): seq<Byte>
  {
    if trace == [] then [] else (if trace[0].Body? then trace[0].bytes else []) + BodyBytes(trace[1..])
  }

  /** What the gfs_send calls k to n - 1 report, added up. */
  function SentFrom(io: ProxyIo, k: nat, n: nat): int
    decreases n - k
  {
    if k >= n then 0 else io.sent(k) + SentFrom(io, k + 1, n)
  }

  /** A body call within the usable size. */
  predicate Fits(e: Event, usable: SizeT)
  {
    e.Body? && |e.bytes| <= usable
  }

  /** Call i of r is the error header, made last, and r returns what it reported. */
  predicate ErrorAt(r: Served, i: nat, io: ProxyIo)
  {
    i == |r.trace| - 1 && r.trace[i] == Header(GfError, 0) && r.outcome == Returned(io.errorReply)
  }

  /**
   * After the calls `acc`, the send loop makes only body calls within the
   * usable size, except for an error header, which is its last call and
   * whose result it returns.
   */
  lemma {:induction false} ForwardShape(cs: seq<Chunk>, usable: SizeT, io: ProxyIo, k: nat, total: int, acc: seq<Event>)
    ensures var r := Forward(cs, usable, io, k, total, acc);
            && |acc| <= |r.trace| && r.trace[..|acc|] == acc
            && forall i :: |acc| <= i < |r.trace| ==> Fits(r.trace[i], usable) || ErrorAt(r, i, io)
    decreases |cs| - k
  {
    if k < |cs| {
      StepEnds(cs[k], usable, io, k, total, acc);
      var p := Step(cs[k], usable, io, k, total, acc);
      if p.Go? {
        ForwardShape(cs, usable, io, k + 1, p.total, p.acc);
        var r := Forward(cs, usable, io, k + 1, p.total, p.acc);
        assert r.trace[..|acc|] == r.trace[..|p.acc|][..|acc|];
        assert r.trace[|acc|] == p.acc[|acc|];
      }
    }
  }

  /**
   * What the client receives: nothing at all exactly when the cache
   * publishes nothing; an error header alone when the first chunk is empty;
   * the OK header first exactly when the first chunk has bytes; after the
   * first call only bodies within the usable size, and possibly, as the very
   * last call, an error header whose result the handler returns.
   */
  lemma ConsumeShape(cs: seq<Chunk>, size: nat, usable: SizeT, io: ProxyIo)
    ensures var r := Consume(cs, size, usable, io);
            && (r.trace == [] <==> cs == [])
            && (cs != [] && cs[0].data == [] ==> r == Refused(io))
            && (r.trace != [] && r.trace[0] == Header(GfOk, size) <==> cs != [] && cs[0].data != [])
            && forall i :: 0 < i < |r.trace| ==> Fits(r.trace[i], usable) || ErrorAt(r, i, io)
  {
    if cs != [] && cs[0].data != [] && io.headerOk {
      ForwardShape(cs, usable, io, 0, 0, [Header(GfOk, size)]);
    }
  }

  /**
   * When every chunk from k on is sent without error and only the final one
   * may be flagged last, the send loop sends them all, then returns the
   * total reported if the final one is flagged last, and waits for ever if not.
   */
  lemma {:induction false} ForwardRun(cs: seq<Chunk>, usable: SizeT, io: ProxyIo, k: nat, total: int, acc: seq<Event>)
    requires k <= |cs|
    requires forall i :: k <= i < |cs| ==> Sends(cs[i], usable, io, i)
    requires forall i :: k <= i < |cs| - 1 ==> !cs[i].last
    ensures Forward(cs, usable, io, k, total, acc)
            == Served(acc + BodiesOf(cs[k..]),
                      if k < |cs| && cs[|cs| - 1].last then Returned(total + SentFrom(io, k, |cs|)) else Blocked)
    decreases |cs| - k
  {
    if k == |cs| {
      assert cs[k..] == [] && acc + [] == acc;
    } else if k + 1 == |cs| {
      ForwardLast(cs, usable, io, k, total, acc);
    } else {
      var b := [Body(cs[k].data)];
      ForwardGo(cs, usable, io, k, total, acc);
      ForwardRun(cs, usable, io, k + 1, total + io.sent(k), acc + b);
      assert acc + b + BodiesOf(cs[k + 1..]) == acc + (b + BodiesOf(cs[k + 1..]));
    }
  }

  /** The final chunk, sent without error: the handler returns when it is flagged last, and waits otherwise. */
  lemma ForwardLast(cs: seq<Chunk>, usable: SizeT, io: ProxyIo, k: nat, total: int, acc: seq<Event>)
    requires k + 1 == |cs| && Sends(cs[k], usable, io, k)
    ensures Forward(cs, usable, io, k, total, acc)
            == Served(acc + BodiesOf(cs[k..]), if cs[k].last then Returned(total + SentFrom(io, k, |cs|)) else Blocked)
  {
    var c := cs[k];
    assert cs[k..] == [c];
    assert BodiesOf([c]) == [Body(c.data)];
    assert SentFrom(io, k, |cs|) == io.sent(k);
  }

  /** A chunk not flagged last, sent without error: the loop goes on with the next. */
  lemma ForwardGo(cs: seq<Chunk>, usable: SizeT, io: ProxyIo, k: nat, total: int, acc: seq<Event>)
    requires k + 1 < |cs| && Sends(cs[k], usable, io, k) && !cs[k].last
    ensures Forward(cs, usable, io, k, total, acc)
            == Forward(cs, usable, io, k + 1, total + io.sent(k), acc + [Body(cs[k].data)])
    ensures BodiesOf(cs[k..]) == [Body(cs[k].data)] + BodiesOf(cs[k + 1..])
    ensures SentFrom(io, k, |cs|) == io.sent(k) + SentFrom(io, k + 1, |cs|)
  {
    assert cs[k..][1..] == cs[k + 1..];
  }

  /** The body calls for a sequence of chunks carry exactly the chunks' bytes, in order. */
  lemma {:induction false} BodiesCarry(cs: seq<Chunk>)
    ensures BodyBytes(BodiesOf(cs)) == Concat(cs)
  {
    if cs != [] {
      BodiesCarry(cs[1..]);
      assert BodiesOf(cs)[1..] == BodiesOf(cs[1..]);
    }
  }

  /** When each send reports the length of its chunk, the total is the length of all chunks from k on. */
  lemma {:induction false} SentLengths(cs: seq<Chunk>, io: ProxyIo, k: nat)
    requires k <= |cs|
    requires forall i :: k <= i < |cs| ==> io.sent(i) == |cs[i].data|
    ensures SentFrom(io, k, |cs|) == |Concat(cs[k..])|
    decreases |cs| - k
  {
    if k < |cs| {
      SentLengths(cs, io, k + 1);
      assert cs[k..] == [cs[k]] + cs[k + 1..];
      ConcatCons(cs[k], cs[k + 1..]);
    } else {
      assert cs[k..] == [];
    }
  }

  /**
   * The cache publishes chunks that each go out without error, only the
   * final one possibly flagged last, and the first with bytes: the client
   * gets the OK header and one body per chunk, and the handler returns the
   * total the sends reported when the final chunk is flagged last, and waits
   * for ever when it is not.
   */
  lemma SmoothConsume(cs: seq<Chunk>, size: nat, usable: SizeT, io: ProxyIo)
    requires cs != [] && cs[0].data != [] && io.headerOk
    requires forall i :: 0 <= i < |cs| ==> Sends(cs[i], usable, io, i)
    requires forall i :: 0 <= i < |cs| - 1 ==> !cs[i].last
    ensures Consume(cs, size, usable, io)
            == Served([Header(GfOk, size)] + BodiesOf(cs),
                      if cs[|cs| - 1].last then Returned(SentFrom(io, 0, |cs|)) else Blocked)
  {
    ForwardRun(cs, usable, io, 0, 0, [Header(GfOk, size)]);
    assert cs[0..] == cs;
  }

  /** The OK header carries no bytes: the client receives the body calls' bytes. */
  lemma BytesAfterHeader(size: nat, cs: seq<Chunk>)
    ensures BodyBytes([Header(GfOk, size)] + BodiesOf(cs)) == Concat(cs)
  {
    BodiesCarry(cs);
    assert ([Header(GfOk, size)] + BodiesOf(cs))[1..] == BodiesOf(cs);
  }

  /** The usable size of a segment larger than its header is a valid chunk size. */
  lemma LastChunkEmptyIffMultiple(file: seq<Byte>, segsize: SizeT, header: SizeT)
    requires header < segsize <= LongMax
    ensures var cs := Chunks(file, 0, UsableSize(segsize, header));
            cs[|cs| - 1].data == [] <==> |file| % UsableSize(segsize, header) == 0
  {
    LastChunkEmptyIffDivisible(file, 0, UsableSize(segsize, header));
  }

  /** Once connected and written, a line the boss parses is served from the cache task's stream. */
  lemma HandleOfParsedLine(name: string, path: string, segsize: SizeT, header: SizeT, io: ProxyIo, env: CacheEnv, task: Task)
    requires Connects(io) && io.writeOk
    requires ParseRequest(Received(FormatRequest(name, path, segsize))) == Some(task)
    ensures Handle(name, path, segsize, header, io, env)
            == Consume(Expected(task, env, header), FileSize(task, env), UsableSize(segsize, header), io)
  {
  }

  /**
   * A non-empty file whose header and sends all succeed reaches the client as
   * an OK header with its size, then one body per chunk, each fitting the
   * segment and together the whole file; the total the sends reported is
   * returned.
   */
  lemma HealthyStream(file: seq<Byte>, segsize: SizeT, header: SizeT, io: ProxyIo)
    requires header < segsize <= LongMax && file != []
    requires io.headerOk && forall i :: io.sent(i) >= 0
    ensures var m := UsableSize(segsize, header);
            var cs := Chunks(file, 0, m);
            var r := Consume(cs, |file|, m, io);
            && r.trace == [Header(GfOk, |file|)] + BodiesOf(cs)
            && (forall i :: 0 < i < |r.trace| ==> Fits(r.trace[i], m))
            && BodyBytes(r.trace) == file
            && r.outcome == Returned(SentFrom(io, 0, |cs|))
  {
    var m := UsableSize(segsize, header);
    var cs := Chunks(file, 0, m);
    ChunksCover(file, 0, m);
    ChunksShape(file, 0, m);
    assert file[0..] == file;
    FirstChunkEmpty(file, 0, m);
    SmoothConsume(cs, |file|, m, io);
    var r := Consume(cs, |file|, m, io);
    BytesAfterHeader(|file|, cs);
    BodiesAt(cs);
    forall i | 0 < i < |r.trace|
      ensures Fits(r.trace[i], m)
    {
      assert r.trace[i] == BodiesOf(cs)[i - 1];
    }
  }

  /**
   * In the same healthy transfer the handler returns the file's size when
   * each send reports its chunk's length, and the last body is empty exactly
   * when the size is a multiple of the usable size.
   */
  lemma HealthyEnding(file: seq<Byte>, segsize: SizeT, header: SizeT, io: ProxyIo)
    requires header < segsize <= LongMax && file != []
    requires io.headerOk && forall i :: io.sent(i) >= 0
    ensures var m := UsableSize(segsize, header);
            var cs := Chunks(file, 0, m);
            var r := Consume(cs, |file|, m, io);
            && ((forall i :: 0 <= i < |cs| ==> io.sent(i) == |cs[i].data|) ==> r.outcome == Returned(|file|))
            && (EndsOnEmptyChunk(r.trace) <==> |file| % m == 0)
  {
    var m := UsableSize(segsize, header);
    var cs := Chunks(file, 0, m);
    HealthyStream(file, segsize, header, io);
    ChunksCover(file, 0, m);
    assert file[0..] == file;
    var r := Consume(cs, |file|, m, io);
    if forall i :: 0 <= i < |cs| ==> io.sent(i) == |cs[i].data| {
      SentLengths(cs, io, 0);
      assert cs[0..] == cs;
    }
    BodiesAt(cs);
    assert r.trace[|r.trace| - 1] == Body(cs[|cs| - 1].data);
    LastChunkEmptyIffMultiple(file, segsize, header);
  }

  /**
   * A request with no failure anywhere, for a name and path without white
   * space and a line that fits: the client gets exactly what HealthyStream
   * and HealthyEnding describe for the cached file.
   */
  lemma HealthyTransfer(name: string, path: string, segsize: SizeT, header: SizeT, io: ProxyIo, env: CacheEnv)
    requires IsWord(name) && |name| < TaskNameLen && IsWord(path) && '\n' !in path
    requires segsize <= LongMax && |name| + |path| + |Numerals.Decimal(segsize)| + 3 < MaxRequestLen
    requires header < segsize
    requires Connects(io) && io.writeOk && io.headerOk && forall i :: io.sent(i) >= 0
    requires AttachSucceeds(env.attach) && path in env.store && env.dupOk && env.fstatOk && env.failedRead.None?
    requires env.store[path] != []
    ensures var file := env.store[path];
            Handle(name, path, segsize, header, io, env)
            == Consume(Chunks(file, 0, UsableSize(segsize, header)), |file|, UsableSize(segsize, header), io)
  {
    var task := Task(name, path, segsize);
    ProxyLineBecomesTask(name, path, segsize);
    HandleOfParsedLine(name, path, segsize, header, io, env, task);
    ExpectedOfFile(task, env, header);
  }

  /** On a miss the cache publishes one empty chunk, and the client gets an error header alone. */
  lemma MissIsRefused(name: string, path: string, segsize: SizeT, header: SizeT, io: ProxyIo, env: CacheEnv, task: Task)
    requires Connects(io) && io.writeOk
    requires ParseRequest(Received(FormatRequest(name, path, segsize))) == Some(task)
    requires AttachSucceeds(env.attach) && task.key !in env.store
    ensures Handle(name, path, segsize, header, io, env) == Refused(io)
  {
    HandleOfParsedLine(name, path, segsize, header, io, env, task);
    MissPublishesOneEmptyLastChunk(task, env, header);
  }

  /**
   * An empty file is published as one empty chunk, so the client gets an
   * error header where an OK header with size 0 could be expected.
   */
  lemma EmptyFileIsRefused(name: string, path: string, segsize: SizeT, header: SizeT, io: ProxyIo, env: CacheEnv, task: Task)
    requires Connects(io) && io.writeOk
    requires ParseRequest(Received(FormatRequest(name, path, segsize))) == Some(task)
    requires FileOf(task, env) == Some([]) && FailsAt(task, env, header) != Some(0)
    ensures Handle(name, path, segsize, header, io, env) == Refused(io)
  {
    HandleOfParsedLine(name, path, segsize, header, io, env, task);
    ExpectedOfFile(task, env, header);
    assert Chunks([], 0, MaxChunk(task, header)) == [Chunk([], true)];
  }

  /**
   * When the boss drops the line, or the worker cannot attach the segment,
   * dup or fstat the file, nothing is published and the handler, having sent
   * nothing, waits for ever.
   */
  lemma SilentCacheBlocks(name: string, path: string, segsize: SizeT, header: SizeT, io: ProxyIo, env: CacheEnv)
    requires Connects(io) && io.writeOk
    requires var t := ParseRequest(Received(FormatRequest(name, path, segsize)));
             t.None? || !AttachSucceeds(env.attach) || (t.value.key in env.store && (!env.dupOk || !env.fstatOk))
    ensures Handle(name, path, segsize, header, io, env) == Served([], Blocked)
  {
    var t := ParseRequest(Received(FormatRequest(name, path, segsize)));
    if t.Some? {
      SetupFailurePublishesNothing(t.value, env, header);
    }
  }

  /**
   * A failing pread ends the stream before any chunk flagged last: even with
   * every send succeeding, the handler never returns.
   */
  lemma FailedReadBlocks(name: string, path: string, segsize: SizeT, header: SizeT, io: ProxyIo, env: CacheEnv, task: Task)
    requires Connects(io) && io.writeOk && io.headerOk && forall i :: io.sent(i) >= 0
    requires ParseRequest(Received(FormatRequest(name, path, segsize))) == Some(task)
    requires FileOf(task, env).Some? && FailsAt(task, env, header).Some?
    requires FailsAt(task, env, header).value < |Chunks(FileOf(task, env).value, 0, MaxChunk(task, header))|
    requires UsableSize(segsize, header) == MaxChunk(task, header)
    ensures Handle(name, path, segsize, header, io, env).outcome == Blocked
  {
    HandleOfParsedLine(name, path, segsize, header, io, env, task);
    StreamWithoutLastBlocks(task, env, header, io);
  }

  /** The stream cut by a failing read, sent without error, leaves the handler waiting. */
  lemma StreamWithoutLastBlocks(task: Task, env: CacheEnv, header: SizeT, io: ProxyIo)
    requires io.headerOk && forall i :: io.sent(i) >= 0
    requires FileOf(task, env).Some? && FailsAt(task, env, header).Some?
    requires FailsAt(task, env, header).value < |Chunks(FileOf(task, env).value, 0, MaxChunk(task, header))|
    ensures Consume(Expected(task, env, header), FileSize(task, env), MaxChunk(task, header), io).outcome == Blocked
  {
    var file := FileOf(task, env).value;
    var m := MaxChunk(task, header);
    var e := Expected(task, env, header);
    FailedReadPublishesNoLastChunk(task, env, header);
    if e != [] && e[0].data != [] {
      ExpectedOfFile(task, env, header);
      ChunksShape(file, 0, m);
      assert forall i :: 0 <= i < |e| ==> e[i] == Chunks(file, 0, m)[i];
      SmoothConsume(e, |file|, m, io);
    }
  }

  /**
   * Once the first chunk has bytes the OK header goes out first; a failure
   * after that (the header itself, an oversized chunk, a failed send) adds an
   * error header as the last call, so the client receives both.
   */
  lemma ErrorAfterOk(cs: seq<Chunk>, size: nat, usable: SizeT, io: ProxyIo)
    requires cs != [] && cs[0].data != []
    requires !io.headerOk || |cs[0].data| > usable || io.sent(0) < 0
    ensures var r := Consume(cs, size, usable, io);
            |r.trace| >= 2 && r.trace[0] == Header(GfOk, size) && r.trace[|r.trace| - 1] == Header(GfError, 0)
            && r.outcome == Returned(io.errorReply)
  {
  }

  // ---------------------------------------------------------------- the cache as seen from the handler

  ghost function StreamOf(w: Worker?): seq<Chunk>
  {
    if w == null then [] else w.stream
  }

  ghost function SizeOf(w: Worker?): nat
  {
    if w == null then 0 else FileSize(w.task, w.env)
  }

  ghost function CountOf(w: Worker?): nat
    reads w
  {
    if w == null then 0 else w.count
  }

  ghost function Passes(w: Worker?): nat
    reads w
  {
    if w == null then 0 else w.passes
  }

  /** How many chunks the worker has still to publish. */
  ghost function Remaining(w: Worker?): nat
    reads w
  {
    if w == null || |w.stream| < w.count then 0 else |w.stream| - w.count
  }

  ghost predicate Runs(payload: Channel, w: Worker?)
    reads payload`datalen, payload`data, payload`isLastChunk, payload`totalFileSize, payload`waiters, w
  {
    payload.Valid() && (w != null ==> w.region == payload && w.Valid())
  }

  /** No post of either semaphore is pending in the segment. */
  predicate Quiet(payload: Channel)
    reads payload
  {
    payload.proxyReady == 0 && payload.cacheReady == 0
  }

  /** No post is pending and no worker of an earlier request waits on the segment. */
  ghost predicate Clear(payload: Channel)
    reads payload
  {
    Quiet(payload) && payload.waiters == 0
  }

  /**
   * The segment carries nothing from earlier requests and the worker, if the
   * boss made one, has not started.
   */
  ghost predicate Idle(payload: Channel, w: Worker?)
    reads payload, w
  {
    Clear(payload) && (w != null ==> w.phase == Start && w.count == 0 && w.passes == 0)
  }

  /**
   * The handler gave up on a chunk with bytes: its reply, begun with the OK
   * header, ends in an error header while the payload still holds that
   * chunk. The worker that published it waits on sem_cache_ready, which no
   * one will post.
   */
  ghost predicate Strands(payload: Channel, trace: seq<Event>)
    reads payload
  {
    |trace| >= 2 && trace[|trace| - 1] == Header(GfError, 0) && payload.datalen != 0
  }

  /**
   * The handler is about to forward chunk k: the worker has published it and
   * nothing more, has passed sem_cache_ready once per chunk before it, and
   * no post is pending.
   */
  ghost predicate AtChunk(payload: Channel, w: Worker?, k: nat)
    reads payload, w
  {
    w != null && w.count == k + 1 && w.passes == k && w.count <= |w.stream|
    && Quiet(payload) && Holds(payload, w.stream[k])
  }

  /**
   * The handler has returned: either after handing back the chunk flagged
   * last, with the one post of sem_cache_ready for it pending, or after an
   * error header with no post pending. An error header alone answers only
   * an empty chunk.
   */
  ghost predicate Settled(payload: Channel, w: Worker?, trace: seq<Event>)
    reads payload, w
  {
    && w != null && payload.proxyReady == 0 && w.count == w.passes + 1 && w.count <= |w.stream|
    && payload.cacheReady <= 1 && trace != [] && (payload.datalen != 0 ==> |trace| >= 2)
    && (payload.cacheReady == 1 ==>
          w.stream[w.count - 1].last && trace[|trace| - 1] == Body(w.stream[w.count - 1].data))
    && (payload.cacheReady == 0 ==> trace[|trace| - 1] == Header(GfError, 0))
  }

  // ---------------------------------------------------------------- the handler

  /**
   * The connect loop: at most MaxRetries attempts, stopping at the first that
   * succeeds.
   */
  method Connect(io: ProxyIo) returns (connected: bool, attempts: nat)
    ensures connected <==> Connects(io)
    ensures 1 <= attempts <= MaxRetries
    ensures connected ==> io.connectOk(attempts - 1)
    ensures forall i :: 0 <= i < attempts - 1 ==> !io.connectOk(i)
    ensures !connected ==> attempts == MaxRetries
  {
    connected, attempts := false, 0;
    while attempts < MaxRetries
      invariant attempts <= MaxRetries && !connected
      invariant forall i :: 0 <= i < attempts ==> !io.connectOk(i)
    {
      attempts := attempts + 1;
      if io.connectOk(attempts - 1) {
        connected := true;
        return;
      }
    }
  }

  /**
   * The handler is about to wait for chunk j: the worker has published j
   * chunks, and has passed sem_cache_ready, or has a post of it pending,
   * once for each chunk before; no post of sem_proxy_ready is pending.
   */
  ghost predicate Expecting(payload: Channel, w: Worker?, j: nat)
    reads payload, w
  {
    w != null && payload.proxyReady == 0 && w.count == j && w.passes + payload.cacheReady == j
  }

  /**
   * sem_wait on sem_proxy_ready: a pending post is taken at once; otherwise
   * the worker runs, and the wait passes when it has posted. When the
   * handler expects chunk j, the wait passes exactly when the stream has it.
   */
  method AwaitChunk(payload: Channel, worker: Worker?, ghost j: nat) returns (got: bool)
    requires Runs(payload, worker)
    modifies payload, worker
    ensures Runs(payload, worker)
    ensures got ==> payload.proxyReady + Remaining(worker) < old(payload.proxyReady + Remaining(worker))
    ensures worker == null && old(payload.proxyReady) == 0 ==> !got
    ensures old(Expecting(payload, worker, j)) ==>
              (got <==> j < |worker.stream|) && (got ==> AtChunk(payload, worker, j))
  {
    if payload.proxyReady == 0 && worker != null {
      worker.Resume();
    }
    if payload.proxyReady == 0 {
      return false;
    }
    payload.proxyReady := payload.proxyReady - 1;
    got := true;
  }

  /** The chunk the payload holds: `datalen` bytes of `data`, last when `is_last_chunk` is non-zero. */
  function Pending(payload: Channel): (c: Chunk)
    requires payload.Valid()
    reads payload
  {
    Chunk(payload.data[..payload.datalen], payload.isLastChunk != 0)
  }

  /** A payload holding chunk c reads back as c. */
  lemma PendingHolds(payload: Channel, c: Chunk)
    requires Holds(payload, c)
    ensures payload.Valid() && Pending(payload) == c
  {
  }

  /**
   * One pass of the send loop over the chunk in the payload: check its
   * length, send it, and hand it back with a post of sem_cache_ready.
   */
  method SendChunk(payload: Channel, usable: SizeT, io: ProxyIo, k: nat, total: int, acc: seq<Event>, ghost c: Chunk)
    returns (pass: Pass)
    requires payload.Valid()
    modifies payload`cacheReady
    ensures pass == Step(Pending(payload), usable, io, k, total, acc)
    ensures Holds(payload, c) ==> pass == Step(c, usable, io, k, total, acc)
    ensures payload.cacheReady == old(payload.cacheReady) + (if Sends(Pending(payload), usable, io, k) then 1 else 0)
  {
    if Holds(payload, c) {
      PendingHolds(payload, c);
    }
    if payload.datalen > usable {
      return Stop(Served(acc + [Header(GfError, 0)], Returned(io.errorReply)));
    }
    var bytes := payload.data[..payload.datalen];
    var sent := io.sent(k);
    if sent < 0 {
      return Stop(Served(acc + [Body(bytes), Header(GfError, 0)], Returned(io.errorReply)));
    }
    payload.cacheReady := payload.cacheReady + 1;
    if payload.isLastChunk != 0 {
      return Stop(Served(acc + [Body(bytes)], Returned(total + sent)));
    }
    pass := Go(total + sent, acc + [Body(bytes)]);
  }

  /**
   * A pass that stops on the chunk the worker published leaves the segment
   * settled: sem_cache_ready holds the one post for a sent last chunk, and
   * none after an error header.
   */
  lemma StopSettles(payload: Channel, w: Worker, c: Chunk, usable: SizeT, io: ProxyIo, k: nat, total: int, acc: seq<Event>)
    requires w.count == k + 1 && w.passes == k && w.count <= |w.stream| && c == w.stream[k]
    requires payload.proxyReady == 0 && Holds(payload, c) && acc != []
    requires payload.cacheReady == (if Sends(c, usable, io, k) then 1 else 0)
    requires Step(c, usable, io, k, total, acc).Stop?
    ensures Settled(payload, w, Step(c, usable, io, k, total, acc).result.trace)
  {
    StepEnds(c, usable, io, k, total, acc);
  }

  /**
   * The send loop: each chunk within the usable size is sent and handed back
   * with a post of sem_cache_ready; the chunk flagged last ends it.
   */
  method SendLoop(payload: Channel, worker: Worker?, usable: SizeT, io: ProxyIo, head: seq<Event>, ghost clean: bool)
    returns (outcome: Outcome, trace: seq<Event>)
    requires Runs(payload, worker)
    requires clean ==> AtChunk(payload, worker, 0) && head != []
    modifies payload, worker
    ensures Runs(payload, worker)
    ensures clean ==> Served(trace, outcome) == Forward(StreamOf(worker), usable, io, 0, 0, head)
    ensures clean && outcome.Returned? ==> Settled(payload, worker, trace)
  {
    ghost var cs := StreamOf(worker);
    ghost var goal := Forward(cs, usable, io, 0, 0, head);
    trace := head;
    var total := 0;
    var sends: nat := 0;
    while true
      invariant Runs(payload, worker)
      invariant clean ==> AtChunk(payload, worker, sends) && Forward(cs, usable, io, sends, total, trace) == goal
      invariant clean ==> |trace| >= 1
      decreases payload.proxyReady + Remaining(worker)
    {
      ghost var c := if clean then cs[sends] else Chunk([], false);
      var pass := SendChunk(payload, usable, io, sends, total, trace, c);
      if pass.Stop? {
        if clean {
          StopSettles(payload, worker, c, usable, io, sends, total, trace);
        }
        return pass.result.outcome, pass.result.trace;
      }
      if clean {
        PendingHolds(payload, c);
        assert Forward(cs, usable, io, sends + 1, pass.total, pass.acc) == goal;
      }
      total, trace, sends := pass.total, pass.acc, sends + 1;
      assert clean ==> Expecting(payload, worker, sends);
      var got := AwaitChunk(payload, worker, sends);
      if !got {
        return Blocked, trace;
      }
    }
  }

  /**
   * Once the handler has returned, the worker runs on until it blocks or
   * finishes. It blocks for good exactly when the handler gave up on a
   * chunk with bytes.
   */
  method Drain(payload: Channel, worker: Worker?, ghost trace: seq<Event>, ghost tidy: bool)
    requires Runs(payload, worker)
    requires tidy ==> Settled(payload, worker, trace)
    modifies payload, worker
    ensures Runs(payload, worker)
    ensures tidy ==> payload.proxyReady == 0 && payload.cacheReady == (if EndsOnEmptyChunk(trace) then 1 else 0)
    ensures tidy ==> payload.waiters == worker.others + (if Strands(payload, trace) then 1 else 0)
  {
    if worker != null {
      worker.Resume();
    }
  }

  /**
   * Everything after the control line is written: wait for the first chunk,
   * refuse an empty one, send the OK header with the recorded file size, and
   * run the send loop; the worker then runs on.
   */
  method Serve(payload: Channel, worker: Worker?, usable: SizeT, io: ProxyIo) returns (outcome: Outcome, trace: seq<Event>)
    requires Runs(payload, worker)
    modifies payload, worker
    ensures Runs(payload, worker)
    ensures old(Idle(payload, worker)) ==> Served(trace, outcome) == Consume(StreamOf(worker), SizeOf(worker), usable, io)
    ensures old(Idle(payload, worker)) && outcome.Returned? ==>
              payload.proxyReady == 0 && payload.cacheReady == (if EndsOnEmptyChunk(trace) then 1 else 0)
              && payload.waiters == (if Strands(payload, trace) then 1 else 0)
  {
    ghost var clean := Idle(payload, worker);
    var got := AwaitChunk(payload, worker, 0);
    if !got {
      return Blocked, [];
    }
    if payload.datalen == 0 {
      outcome, trace := Returned(io.errorReply), [Header(GfError, 0)];
    } else if !io.headerOk {
      outcome, trace := Returned(io.errorReply), [Header(GfOk, payload.totalFileSize), Header(GfError, 0)];
    } else {
      outcome, trace := SendLoop(payload, worker, usable, io, [Header(GfOk, payload.totalFileSize)], clean);
    }
    if outcome.Returned? {
      Drain(payload, worker, trace, clean);
    }
  }

  /**
   * The control line reaches the cache: the boss queues its task, if it
   * parses, a worker takes it and attaches the segment, and the handler
   * serves what the worker publishes.
   */
  method Exchange(payload: Channel, line: string, header: SizeT, usable: SizeT, io: ProxyIo, env: CacheEnv)
    returns (outcome: Outcome, trace: seq<Event>)
    requires payload.Valid()
    modifies payload
    ensures payload.Valid()
    ensures old(Clear(payload)) ==> Served(trace, outcome) == Consume(Published(line, env, header), Announced(line, env), usable, io)
    ensures old(Clear(payload)) && outcome.Returned? ==>
              payload.proxyReady == 0 && payload.cacheReady == (if EndsOnEmptyChunk(trace) then 1 else 0)
              && payload.waiters == (if Strands(payload, trace) then 1 else 0)
  {
    ghost var parsed := ParseRequest(Received(line));
    var queue := new TaskQueue();
    BossStep(queue, Sent(line));
    var task := queue.Pop();
    assert task == parsed;
    var worker: Worker? := null;
    if task.Some? {
      worker := new Worker(task.value, env, header, payload);
    }
    assert StreamOf(worker) == Published(line, env, header) && SizeOf(worker) == Announced(line, env);
    outcome, trace := Serve(payload, worker, usable, io);
  }

  /**
   * handle_with_cache: take a segment (none free: an error header), format
   * the control line, connect and write it (failure: release and an error
   * header), let the boss queue the cache task and a worker take it, and serve.
   * A handler that returns puts the segment back at the end of the pool; one
   * that waits for ever keeps it.
   */
  method HandleWithCache(pool: SegmentPool, segsize: SizeT, header: SizeT, path: string, io: ProxyIo, env: CacheEnv)
    returns (outcome: Outcome, trace: seq<Event>)
    requires pool.Valid()
    requires pool.free != [] ==> pool.free[0].addr.Valid()
    modifies pool, if pool.free != [] then {pool.free[0].addr} else {}
    ensures pool.Valid() && (old(pool.free) != [] ==> old(pool.free[0].addr).Valid())
    ensures old(pool.free) == [] ==> pool.free == [] && Served(trace, outcome) == Refused(io)
    ensures old(pool.free) != [] && outcome.Returned? ==> pool.free == old(pool.free)[1..] + [old(pool.free)[0]]
    ensures old(pool.free) != [] && outcome.Blocked? ==> pool.free == old(pool.free)[1..]
    ensures old(pool.free) != [] && old(Clear(pool.free[0].addr)) ==>
              Served(trace, outcome) == Handle(old(pool.free[0].name), path, segsize, header, io, env)
    ensures old(pool.free) != [] && old(Clear(pool.free[0].addr)) && outcome.Returned? ==>
              var payload := old(pool.free[0].addr);
              payload.proxyReady == 0 && payload.cacheReady == (if EndsOnEmptyChunk(trace) then 1 else 0)
              && payload.waiters == (if Strands(payload, trace) then 1 else 0)
  {
    var acquired := pool.Acquire();
    if acquired.None? {
      return Returned(io.errorReply), [Header(GfError, 0)];
    }
    var seg := acquired.value;
    ghost var rest := pool.free;
    var payload: Channel := seg.addr;
    var line := FormatRequest(seg.name, path, segsize);
    var connected, attempts := Connect(io);
    if !connected || !io.writeOk {
      pool.Release(seg);
      return Returned(io.errorReply), [Header(GfError, 0)];
    }
    outcome, trace := Exchange(payload, line, header, UsableSize(segsize, header), io, env);
    if outcome.Returned? {
      pool.Release(seg);
    }
  }
}
