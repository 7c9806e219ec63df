/**
 * The cache daemon: the boss turns each received control line into a task
 * on a FIFO queue, and a worker serves a task by streaming the file through
 * the cache task's shared segment one chunk at a time, handing over with the
 * segment's two semaphores.
 *
 * The worker is a resumable state machine: `Resume` runs it until it would
 * block on `sem_cache_ready` with a count of zero, or until it finishes.
 */
module SimpleCached {
  import opened Wrappers
  import opened CTypes
  import opened ShmLayout
  import opened ControlLine
  import opened ChunkStream
  import opened ShmChannel

  // ---------------------------------------------------------------- the boss

  /** request_queue: cache tasks waiting for a worker, oldest first. */
  class TaskQueue {
    var tasks: seq<Task>

    constructor ()
      ensures tasks == []
    {
      tasks := [];
    }

    /** steque_enqueue: the cache task goes to the back. */
    method Enqueue(t: Task)
      modifies this
      ensures tasks == old(tasks) + [t]
    {
      tasks := tasks + [t];
    }

    /** steque_pop by a worker: the oldest task; None stands for waiting on an empty queue. */
    method Pop() returns (t: Option<Task>)
      modifies this
      ensures old(tasks) == [] ==> t == None && tasks == []
      ensures old(tasks) != [] ==> t == Some(old(tasks)[0]) && tasks == old(tasks)[1..]
    {
      if tasks == [] {
        return None;
      }
      t := Some(tasks[0]);
      tasks := tasks[1..];
    }
  }

  /** What `read(client_fd, buf, sizeof(buf) - 1)` reports: an error, or the bytes the peer wrote. */
  datatype Incoming = ReadError | Sent(bytes: string)

  /** The bytes one read takes into the 6100-byte buffer: at most 6099. */
  function Received(bytes: string): (r: string)
    ensures |r| < MaxCacheRequestLen && |r| <= |bytes| && r == bytes[..|r|]
    ensures |bytes| < MaxCacheRequestLen ==> r == bytes
  {
    Field(bytes, MaxCacheRequestLen - 1)
  }

  /**
   * One round of the boss loop for one accepted connection: a failed or
   * empty read enqueues nothing; otherwise the line is parsed and a task is
   * enqueued exactly when it has a name and a key.
   */
  method BossStep(queue: TaskQueue, incoming: Incoming)
    modifies queue
    ensures incoming.ReadError? ==> queue.tasks == old(queue.tasks)
    ensures incoming.Sent? && incoming.bytes == [] ==> queue.tasks == old(queue.tasks)
    ensures incoming.Sent? ==>
              var parsed := ParseRequest(Received(incoming.bytes));
              queue.tasks == old(queue.tasks) + (if parsed.Some? then [parsed.value] else [])
  {
    if incoming.ReadError? {
      return;
    }
    var buf := Received(incoming.bytes);
    if |buf| == 0 {
      EmptyLineHasNoTask();
      return;
    }
    var parsed := ParseRequest(buf);
    if parsed.None? {
      return;
    }
    queue.Enqueue(parsed.value);
  }

  /**
   * The line the proxy writes for a segment named by `SegmentName`-style words
   * reaches the queue as the cache task for that segment, that path and that size.
   */
  lemma ProxyLineBecomesTask(name: string, path: string, segsize: SizeT)
    requires IsWord(name) && |name| < TaskNameLen
    requires IsWord(path) && '\n' !in path
    requires segsize <= LongMax
    requires |name| + |path| + |Numerals.Decimal(segsize)| + 3 < MaxRequestLen
    ensures ParseRequest(Received(FormatRequest(name, path, segsize))) == Some(Task(name, path, segsize))
  {
    RequestRoundTrip(name, path, segsize);
  }

  // ---------------------------------------------------------------- the worker's environment

  /**
   * Everything outside the worker that decides what it does: the cache's
   * contents by key, the answers to attach's calls, whether dup and fstat
   * succeed, and the index of the first pread that fails, if any.
   */
  datatype CacheEnv = CacheEnv(
    store: map<string, seq<Byte>>,
    attach: OsCalls,
    dupOk: bool,
    fstatOk: bool,
    failedRead: Option<nat>)

  /** `max_chunk_size = task->segment_size - sizeof(*payload)`, in size_t. */
  function MaxChunk(task: Task, header: SizeT): (m: SizeT)
    ensures header <= task.segmentSize ==> m + header == task.segmentSize
  {
    UsableSize(task.segmentSize, header)
  }

  /**
   * The index of the first pread that fails: the first of all when the chunk
   * size, as ssize_t, is negative (Linux refuses a count above SSIZE_MAX with
   * EINVAL), otherwise the one the environment names, if any.
   */
  function FailsAt(task: Task, env: CacheEnv, header: SizeT): (f: Option<nat>)
    ensures MaxChunk(task, header) > LongMax ==> f == Some(0)
    ensures MaxChunk(task, header) <= LongMax ==> f == env.failedRead
  {
    if MaxChunk(task, header) > LongMax then Some(0) else env.failedRead
  }

  /** The file the worker streams: present when attach, lookup, dup and fstat all succeed. */
  function FileOf(task: Task, env: CacheEnv): (f: Option<seq<Byte>>)
    ensures f.Some? <==> AttachSucceeds(env.attach) && task.key in env.store && env.dupOk && env.fstatOk
    ensures f.Some? ==> f.value == env.store[task.key]
  {
    if AttachSucceeds(env.attach) && task.key in env.store && env.dupOk && env.fstatOk
    then Some(env.store[task.key])
    else None
  }

  /**
   * Every chunk the worker publishes for a task, in order: nothing when
   * attach, dup or fstat fails; one empty last chunk on a miss; otherwise the
   * file's chunks, cut short before the first failing pread.
   */
  function Expected(task: Task, env: CacheEnv, header: SizeT): (e: seq<Chunk>)
    ensures e != [] ==> AttachSucceeds(env.attach)
    ensures FileOf(task, env).Some? && FailsAt(task, env, header).None? ==> e != [] && e[|e| - 1].last
  {
    if !AttachSucceeds(env.attach) then []
    else if task.key !in env.store then [Chunk([], true)]
    else if !env.dupOk || !env.fstatOk then []
    else Cut(Chunks(env.store[task.key], 0, MaxChunk(task, header)), FailsAt(task, env, header))
  }

  /** The chunks published before the read with index `failedRead` fails, if it ever does. */
  function Cut(cs: seq<Chunk>, failedRead: Option<nat>): (r: seq<Chunk>)
    ensures |r| <= |cs| && r == cs[..|r|]
    ensures failedRead.None? ==> r == cs
  {
    if failedRead.Some? && failedRead.value < |cs| then cs[..failedRead.value] else cs
  }

  /** A read before the failing one publishes its chunk at its own index. */
  lemma CutKeeps(cs: seq<Chunk>, failedRead: Option<nat>, k: nat)
    requires k < |cs| && (failedRead.Some? ==> failedRead.value > k)
    ensures k < |Cut(cs, failedRead)| && Cut(cs, failedRead)[k] == cs[k]
    ensures k + 1 == |cs| ==> |Cut(cs, failedRead)| == k + 1
  {
  }

  /** The stream stops right before the failing read. */
  lemma CutStops(cs: seq<Chunk>, failedRead: Option<nat>, k: nat)
    requires k < |cs| && failedRead == Some(k)
    ensures |Cut(cs, failedRead)| == k
  {
  }

  /** Once the file is open the stream is its chunks, cut at the failing read. */
  lemma ExpectedOfFile(task: Task, env: CacheEnv, header: SizeT)
    requires FileOf(task, env).Some?
    ensures Expected(task, env, header) == Cut(Chunks(FileOf(task, env).value, 0, MaxChunk(task, header)), FailsAt(task, env, header))
  {
  }

  /** On a miss the worker publishes exactly one chunk, empty and flagged last. */
  lemma MissPublishesOneEmptyLastChunk(task: Task, env: CacheEnv, header: SizeT)
    requires AttachSucceeds(env.attach) && task.key !in env.store
    ensures Expected(task, env, header) == [Chunk([], true)]
    ensures FileOf(task, env) == None
  {
  }

  /** When attach, dup or fstat fails the worker publishes nothing at all. */
  lemma SetupFailurePublishesNothing(task: Task, env: CacheEnv, header: SizeT)
    requires !AttachSucceeds(env.attach) || (task.key in env.store && (!env.dupOk || !env.fstatOk))
    ensures Expected(task, env, header) == []
  {
  }

  /**
   * A failing pread ends the stream before any chunk flagged last, so the
   * proxy never sees the end of the file.
   */
  lemma FailedReadPublishesNoLastChunk(task: Task, env: CacheEnv, header: SizeT)
    requires FileOf(task, env).Some? && FailsAt(task, env, header).Some?
    requires FailsAt(task, env, header).value < |Chunks(FileOf(task, env).value, 0, MaxChunk(task, header))|
    ensures var e := Expected(task, env, header);
            |e| == FailsAt(task, env, header).value && forall i :: 0 <= i < |e| ==> !e[i].last
  {
    var cs := Chunks(FileOf(task, env).value, 0, MaxChunk(task, header));
    ChunksShape(FileOf(task, env).value, 0, MaxChunk(task, header));
    assert WellShaped(cs, MaxChunk(task, header));
  }

  /**
   * A chunk size that wraps past SSIZE_MAX makes the very first pread fail:
   * the worker publishes nothing, not even the file size's last chunk.
   */
  lemma WrappedChunkSizePublishesNothing(task: Task, env: CacheEnv, header: SizeT)
    requires FileOf(task, env).Some? && MaxChunk(task, header) > LongMax
    ensures Expected(task, env, header) == []
  {
    ExpectedOfFile(task, env, header);
  }

  /**
   * Without a failing read, and with a positive chunk size, the published
   * chunks reproduce the file, each within the chunk size, with the last
   * flag on the final chunk only.
   */
  lemma StreamReproducesFile(task: Task, env: CacheEnv, header: SizeT)
    requires FileOf(task, env).Some? && FailsAt(task, env, header).None? && 0 < MaxChunk(task, header)
    ensures var e := Expected(task, env, header);
            Concat(e) == FileOf(task, env).value && WellShaped(e, MaxChunk(task, header))
  {
    var s := FileOf(task, env).value;
    ChunksCover(s, 0, MaxChunk(task, header));
    ChunksShape(s, 0, MaxChunk(task, header));
  }

  /** The offset the worker reads at after k full reads: each read advances it by what pread returned. */
  function Offset(file: seq<Byte>, m: SizeT, k: nat): (o: nat)
    ensures o <= |file|
  {
    if k == 0 then 0
    else
      var p := Offset(file, m, k - 1);
      p + ReadLen(|file|, p, m)
  }

  /** When more than one chunk is left, the first read is a full one and the rest come from where it ends. */
  lemma ChunksTail(file: seq<Byte>, p: nat, m: SizeT)
    requires p <= |file| && |Chunks(file, p, m)| >= 2
    ensures ReadLen(|file|, p, m) > 0
    ensures Chunks(file, p + ReadLen(|file|, p, m), m) == Chunks(file, p, m)[1..]
  {
    var n := ReadLen(|file|, p, m);
    assert n != 0 && !LastFlag(n, m);
    assert Chunks(file, p, m) == [Chunk(file[p..p + n], false)] + Chunks(file, p + n, m);
  }

  /** The chunks read from the offset after k reads are the file's chunks from index k on. */
  lemma {:induction false} ChunksFrom(file: seq<Byte>, m: SizeT, k: nat)
    requires k < |Chunks(file, 0, m)|
    ensures Chunks(file, Offset(file, m, k), m) == Chunks(file, 0, m)[k..]
    decreases k
  {
    if k > 0 {
      ChunksFrom(file, m, k - 1);
      var all := Chunks(file, 0, m);
      ChunksTail(file, Offset(file, m, k - 1), m);
      assert all[k..] == all[k - 1..][1..];
    }
  }

  // ---------------------------------------------------------------- the worker

  /** Where the worker is: before attach, between reads, waiting on sem_cache_ready, or finished. */
  datatype Phase = Start | Reading | Waiting | Done

  /**
   * Between reads: the file is open, one pread was issued per published
   * chunk, the offset is where those reads left it, a chunk of the file is
   * still to come, and the failing read, if any, is not behind.
   */
  ghost predicate StreamingAt(task: Task, env: CacheEnv, header: SizeT,
                              file: seq<Byte>, offset: nat, readCount: nat, count: nat)
  {
    var m := MaxChunk(task, header);
    && FileOf(task, env) == Some(file)
    && readCount == count
    && count < |Chunks(file, 0, m)|
    && offset == Offset(file, m, count)
    && (FailsAt(task, env, header).Some? ==> FailsAt(task, env, header).value >= count)
  }

  /**
   * The worker's progress through `stream`, the chunks it publishes for
   * `task`: `count` of them are published; before attach none is; when
   * finished all are; between reads the next read yields the next chunk;
   * while waiting the published chunk is non-empty, and is the final one
   * when flagged last.
   */
  ghost predicate WorkerInv(task: Task, env: CacheEnv, header: SizeT, stream: seq<Chunk>,
                            phase: Phase, file: seq<Byte>, offset: nat, readCount: nat, count: nat)
  {
    && stream == Expected(task, env, header)
    && offset <= |file|
    && count <= |stream|
    && (phase == Start ==> count == 0)
    && (phase == Done ==> count == |stream|)
    && (phase == Reading ==> StreamingAt(task, env, header, file, offset, readCount, count))
    && (phase == Waiting ==>
          && 0 < count && stream[count - 1].data != [] && FileOf(task, env) == Some(file)
          && (stream[count - 1].last ==> count == |stream|)
          && (!stream[count - 1].last ==> StreamingAt(task, env, header, file, offset, readCount, count)))
  }

  /**
   * Attach fails: nothing is published. A miss: one empty last chunk.
   * dup or fstat fails: nothing. Otherwise streaming starts at offset 0.
   */
  lemma BeginStep(task: Task, env: CacheEnv, header: SizeT, stream: seq<Chunk>,
                  file: seq<Byte>, offset: nat, readCount: nat)
    requires WorkerInv(task, env, header, stream, Start, file, offset, readCount, 0)
    ensures !AttachSucceeds(env.attach) ==> WorkerInv(task, env, header, stream, Done, file, offset, readCount, 0)
    ensures AttachSucceeds(env.attach) && task.key !in env.store ==>
              stream == [Chunk([], true)] && WorkerInv(task, env, header, stream, Done, file, offset, readCount, 1)
    ensures AttachSucceeds(env.attach) && task.key in env.store && (!env.dupOk || !env.fstatOk) ==>
              WorkerInv(task, env, header, stream, Done, file, offset, readCount, 0)
    ensures FileOf(task, env).Some? ==>
              WorkerInv(task, env, header, stream, Reading, FileOf(task, env).value, 0, 0, 0)
  {
  }

  /**
   * The read at the offset after k reads yields the file's chunk k; a chunk
   * flagged last is the final one, any other is followed by more.
   */
  lemma ChunkAt(file: seq<Byte>, m: SizeT, k: nat)
    requires k < |Chunks(file, 0, m)|
    ensures var o := Offset(file, m, k);
            var n := ReadLen(|file|, o, m);
            var all := Chunks(file, 0, m);
            && all[k] == Chunk(file[o..o + n], n == 0 || LastFlag(n, m))
            && (all[k].last <==> k + 1 == |all|)
  {
    var o := Offset(file, m, k);
    var all := Chunks(file, 0, m);
    ChunksFrom(file, m, k);
    assert all[k..][0] == all[k];
    assert |all[k..]| == |all| - k;
  }

  /** The chunk a read at the worker's offset yields is the stream's next chunk; it is last exactly when the stream ends there. */
  lemma NextOfStream(task: Task, env: CacheEnv, header: SizeT, stream: seq<Chunk>,
                     file: seq<Byte>, offset: nat, count: nat)
    requires WorkerInv(task, env, header, stream, Reading, file, offset, count, count)
    requires FailsAt(task, env, header) != Some(count)
    ensures var m := MaxChunk(task, header);
            var n := ReadLen(|file|, offset, m);
            && count < |stream| && stream[count] == Chunk(file[offset..offset + n], n == 0 || LastFlag(n, m))
            && (stream[count].last ==> count + 1 == |stream|)
            && (!stream[count].last ==> count + 1 < |Chunks(file, 0, m)|)
  {
    var m := MaxChunk(task, header);
    ChunkAt(file, m, count);
    ExpectedOfFile(task, env, header);
    CutKeeps(Chunks(file, 0, m), FailsAt(task, env, header), count);
  }

  lemma ReadStep(task: Task, env: CacheEnv, header: SizeT, stream: seq<Chunk>,
                 file: seq<Byte>, offset: nat, count: nat, n: nat)
    requires WorkerInv(task, env, header, stream, Reading, file, offset, count, count)
    requires FailsAt(task, env, header) != Some(count)
    requires n == ReadLen(|file|, offset, MaxChunk(task, header)) && n > 0
    ensures count < |stream| && stream[count] == Chunk(file[offset..offset + n], LastFlag(n, MaxChunk(task, header)))
    ensures WorkerInv(task, env, header, stream, Waiting, file, offset + n, count + 1, count + 1)
  {
    NextOfStream(task, env, header, stream, file, offset, count);
    assert Offset(file, MaxChunk(task, header), count + 1) == offset + n;
  }


  /** An empty read publishes the stream's final chunk, empty and flagged last, and the worker finishes. */
  lemma EndStep(task: Task, env: CacheEnv, header: SizeT, stream: seq<Chunk>,
                file: seq<Byte>, offset: nat, count: nat)
    requires WorkerInv(task, env, header, stream, Reading, file, offset, count, count)
    requires FailsAt(task, env, header) != Some(count)
    requires ReadLen(|file|, offset, MaxChunk(task, header)) == 0
    ensures count < |stream| && stream[count] == Chunk([], true)
    ensures WorkerInv(task, env, header, stream, Done, file, offset, count + 1, count + 1)
  {
    NextOfStream(task, env, header, stream, file, offset, count);
    assert file[offset..offset] == [];
  }


  /** The failing read ends the stream: the worker finishes with everything published. */
  lemma FailStep(task: Task, env: CacheEnv, header: SizeT, stream: seq<Chunk>,
                 file: seq<Byte>, offset: nat, count: nat)
    requires WorkerInv(task, env, header, stream, Reading, file, offset, count, count)
    requires FailsAt(task, env, header) == Some(count)
    ensures WorkerInv(task, env, header, stream, Done, file, offset, count, count)
  {
    ExpectedOfFile(task, env, header);
    CutStops(Chunks(file, 0, MaxChunk(task, header)), FailsAt(task, env, header), count);
  }

  /** Past the wait the worker finishes after the last chunk and reads on otherwise. */
  lemma WaitStep(task: Task, env: CacheEnv, header: SizeT, stream: seq<Chunk>,
                 file: seq<Byte>, offset: nat, readCount: nat, count: nat)
    requires WorkerInv(task, env, header, stream, Waiting, file, offset, readCount, count)
    ensures stream[count - 1].last ==> WorkerInv(task, env, header, stream, Done, file, offset, readCount, count)
    ensures !stream[count - 1].last ==> WorkerInv(task, env, header, stream, Reading, file, offset, readCount, count)
  {
  }

  /** The payload holds chunk c: its length, its bytes and its last flag as 1 or 0. */
  ghost predicate Holds(region: Channel, c: Chunk)
    reads region`datalen, region`data, region`isLastChunk
  {
    region.datalen == |c.data| && region.datalen <= |region.data|
    && region.data[..region.datalen] == c.data
    && region.isLastChunk == (if c.last then 1 else 0)
  }

  /** One worker thread serving one task through the payload `region`. */
  class Worker {
    const task: Task
    const env: CacheEnv
    const header: SizeT
    const region: Channel
    /** Every chunk this worker publishes for its task, in order. */
    ghost const stream: seq<Chunk>
    var phase: Phase
    var file: seq<Byte>
    var offset: nat
    var readCount: nat
    /** How many chunks of `stream` are published, each announced by one post of sem_proxy_ready. */
    ghost var count: nat
    /** How many times the worker has passed sem_cache_ready, each time taking one count. */
    ghost var passes: nat
    /** The other workers waiting on this segment's sem_cache_ready. */
    ghost const others: nat

    ghost predicate Valid()
      reads this, region`datalen, region`data, region`isLastChunk, region`totalFileSize, region`waiters
    {
      && region.Valid()
      && WorkerInv(task, env, header, stream, phase, file, offset, readCount, count)
      && (0 < count ==> Holds(region, stream[count - 1]))
      && (phase == Reading && 0 < count ==> stream[count - 1].data != [])
      && passes + (if phase == Waiting then 1 else 0)
           + (if phase == Done && 0 < count && stream[count - 1].data == [] then 1 else 0) == count
      && (phase != Start && FileOf(task, env).Some? ==> region.totalFileSize == |FileOf(task, env).value|)
      && region.waiters == others + (if phase == Waiting then 1 else 0)
    }

    /** A worker that has popped `task` and is about to attach its segment. */
    constructor (task: Task, env: CacheEnv, header: SizeT, region: Channel)
      requires region.Valid()
      ensures this.task == task && this.env == env && this.header == header && this.region == region
      ensures stream == Expected(task, env, header)
      ensures Valid() && phase == Start && count == 0 && passes == 0 && others == region.waiters
    {
      this.task, this.env, this.header, this.region := task, env, header, region;
      others := region.waiters;
      stream := Expected(task, env, header);
      phase, file, offset, readCount := Start, [], 0, 0;
      count, passes := 0, 0;
    }

    /**
     * Attach, look the key up, dup, fstat. On a miss the worker publishes an
     * empty last chunk and finishes; on any failure it finishes silently;
     * otherwise it records the file size and starts reading.
     */
    method Begin()
      requires Valid() && phase == Start
      modifies this, region
      ensures passes == old(passes)
      ensures Valid()
      ensures phase == Reading || phase == Done
      ensures region.cacheReady == old(region.cacheReady)
      ensures old(count) <= count <= old(count) + 1
      ensures region.proxyReady == old(region.proxyReady) + count - old(count)
      ensures phase == Reading ==> count == old(count)
    {
      BeginStep(task, env, header, stream, file, offset, readCount);
      var seg := new Segment();
      var rc := seg.Attach(task.shmName, task.segmentSize, env.attach, region);
      if rc < 0 {
        phase := Done;
        return;
      }
      if task.key !in env.store {
        region.Publish([], true);
        count := count + 1;
        phase := Done;
        return;
      }
      if !env.dupOk || !env.fstatOk {
        phase := Done;
        return;
      }
      file := env.store[task.key];
      region.totalFileSize := |file|;
      offset, readCount, phase := 0, 0, Reading;
    }

    /**
     * One pass of the read loop: a failed pread finishes the worker; an empty
     * read publishes an empty last chunk and finishes; any other read
     * publishes its bytes, flagged last when shorter than the signed
     * maximum, and leaves the worker waiting for the proxy.
     */
    method ReadChunk()
      requires Valid() && phase == Reading
      modifies this, region
      ensures passes == old(passes)
      ensures Valid()
      ensures phase == Waiting || phase == Done
      ensures region.cacheReady == old(region.cacheReady)
      ensures old(count) <= count <= old(count) + 1
      ensures region.proxyReady == old(region.proxyReady) + count - old(count)
      ensures phase == Waiting ==> count == old(count) + 1 && old(offset) < offset
      ensures file == old(file)
    {
      if FailsAt(task, env, header) == Some(readCount) {
        ReadFails();
        return;
      }
      var n := ReadLen(|file|, offset, MaxChunk(task, header));
      if n == 0 {
        PublishEnd();
      } else {
        PublishBytes(n);
      }
    }

    /** pread returned -1: the worker stops without publishing anything more. */
    method ReadFails()
      requires Valid() && phase == Reading && FailsAt(task, env, header) == Some(readCount)
      modifies this
      ensures passes == old(passes)
      ensures Valid() && phase == Done && count == old(count) && file == old(file)
    {
      FailStep(task, env, header, stream, file, offset, count);
      phase := Done;
    }

    /** pread returned 0: an empty last chunk is published and the worker stops without waiting. */
    method PublishEnd()
      requires Valid() && phase == Reading && FailsAt(task, env, header) != Some(readCount)
      requires ReadLen(|file|, offset, MaxChunk(task, header)) == 0
      modifies this, region
      ensures passes == old(passes)
      ensures Valid() && phase == Done && count == old(count) + 1 && file == old(file)
      ensures region.cacheReady == old(region.cacheReady) && region.proxyReady == old(region.proxyReady) + 1
    {
      EndStep(task, env, header, stream, file, offset, count);
      var empty: seq<Byte> := [];
      region.Publish(empty, true);
      readCount, count, phase := readCount + 1, count + 1, Done;
      assert WorkerInv(task, env, header, stream, phase, file, offset, readCount, count);
      assert stream[count - 1].data == [];
      assert Holds(region, stream[count - 1]);
      assert passes + 1 == count;
      assert region.waiters == others && region.Valid();
    }

    /** pread returned n > 0 bytes: they are published and the worker goes on to wait for the proxy. */
    method PublishBytes(n: nat)
      requires Valid() && phase == Reading && FailsAt(task, env, header) != Some(readCount)
      requires n == ReadLen(|file|, offset, MaxChunk(task, header)) && n > 0
      modifies this, region
      ensures passes == old(passes)
      ensures Valid() && phase == Waiting && file == old(file) && offset == old(offset) + n
      ensures count == old(count) + 1
      ensures region.cacheReady == old(region.cacheReady) && region.proxyReady == old(region.proxyReady) + 1
    {
      var m := MaxChunk(task, header);
      var bytes, last := file[offset..offset + n], LastFlag(n, m);
      ReadStep(task, env, header, stream, file, offset, count, n);
      region.Publish(bytes, last);
      region.waiters := region.waiters + 1;
      readCount, offset, count, phase := readCount + 1, offset + n, count + 1, Waiting;
      assert Holds(region, stream[count - 1]);
    }

    /** sem_wait on sem_cache_ready passed: stop after the last chunk, else read on. */
    method PassWait()
      requires Valid() && phase == Waiting && region.cacheReady > 0
      modifies this, region`cacheReady, region`waiters
      ensures Valid() && (phase == Reading || phase == Done)
      ensures region.cacheReady == old(region.cacheReady) - 1 && passes == old(passes) + 1
      ensures region.waiters == old(region.waiters) - 1
      ensures count == old(count) && file == old(file) && offset == old(offset)
    {
      WaitStep(task, env, header, stream, file, offset, readCount, count);
      region.cacheReady := region.cacheReady - 1;
      region.waiters := region.waiters - 1;
      passes := passes + 1;
      if region.isLastChunk != 0 {
        phase := Done;
      } else {
        phase := Reading;
      }
    }

    /**
     * Runs the worker until it blocks on sem_cache_ready with a count of
     * zero or finishes. Every chunk it publishes posts sem_proxy_ready once,
     * and every pass past the wait takes one count of sem_cache_ready. When
     * the count of sem_cache_ready matches the handshake (1 exactly when the
     * worker is waiting), it publishes at most one further chunk of the
     * stream and leaves that count at 0.
     */
    method Resume()
      requires Valid()
      modifies this, region
      ensures Valid()
      ensures phase == Waiting || phase == Done
      ensures phase == Waiting ==> region.cacheReady == 0
      ensures old(count) <= count && region.cacheReady <= old(region.cacheReady)
      ensures region.proxyReady == old(region.proxyReady) + count - old(count)
      ensures passes + region.cacheReady == old(passes) + old(region.cacheReady)
      ensures old(region.cacheReady) == (if old(phase) == Waiting then 1 else 0) ==>
                region.cacheReady == 0 && count == Min(old(count) + 1, |stream|)
    {
      ghost var startCount := count;
      ghost var p0 := region.proxyReady;
      ghost var c0 := region.cacheReady;
      ghost var passes0 := passes;
      ghost var clean := c0 == (if phase == Waiting then 1 else 0);
      var blocked := false;
      while phase != Done && !blocked
        invariant Valid()
        invariant startCount <= count && region.cacheReady <= c0
        invariant region.proxyReady == p0 + count - startCount
        invariant passes + region.cacheReady == passes0 + c0
        invariant blocked ==> phase == Waiting && region.cacheReady == 0
        invariant clean ==> count <= startCount + 1
        invariant clean ==> region.cacheReady == 0 || (phase == Waiting && region.cacheReady == 1 && count == startCount)
        invariant clean && (phase == Start || phase == Reading) ==> count == startCount
        invariant clean && phase == Waiting && region.cacheReady == 0 ==> count == startCount + 1
        decreases (if phase != Done then 1 else 0), (if phase == Start then 1 else 0), |file| - offset,
                  (if phase == Waiting then 1 else 0), (if blocked then 0 else 1)
      {
        match phase
        case Start =>
          Begin();
        case Reading =>
          ReadChunk();
        case Waiting =>
          if region.cacheReady == 0 {
            blocked := true;
          } else {
            PassWait();
          }
      }
    }
  }
}
