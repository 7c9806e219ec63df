# Shared-memory file cache: proxy handler and cache daemon

This project models the core of a two-process file cache. A web proxy answers
requests for a path. It does not read files itself. It borrows a POSIX
shared-memory segment from a pool and writes a one-line control message
(`<segment name> <path> <segment size>\n`) to the cache daemon over a Unix
socket. It then forwards the file that the daemon streams through the segment
to the client.

The daemon has two parts:

- A **boss** parses each control line into a task and puts it on a FIFO queue.
- A **worker** pops a task and attaches the named segment. It looks the key up
  in the cache and copies the file into the segment, one chunk at a time.

Each segment begins with a header of two counting semaphores, the pending
chunk's length, a last-chunk flag and the total file size. The data buffer
follows. The two sides hand the buffer back and forth:

- the worker posts `sem_proxy_ready` when a chunk is in place;
- the proxy posts `sem_cache_ready` when it has forwarded that chunk.

Modules, one per part of the program:

| module | file | what it models |
|---|---|---|
| `CTypes` | `ctypes.dfy` | `size_t` wrap-around, the `(ssize_t)` cast, `long`, C strings cut at NUL, `strncpy`, `snprintf` truncation |
| `Numerals` | `decimal.dfy` | `%d` and `%zu` decimal formatting, with its inverse |
| `Wrappers` | `wrappers.dfy` | `Option` |
| `ShmLayout` | `shm_layout.dfy` | `shm_payload_t` as the class `Channel`, and the usable chunk size |
| `ShmChannel` | `shm_channel.dfy` | `shm_segment_t` as the class `Segment`, create, attach and destroy, the free-segment pool, `create_n_segments` |
| `ControlLine` | `control_line.dfy` | the proxy's request line, and the boss's `strtok`/`atol` parse of it |
| `ChunkStream` | `chunks.dfy` | the sequence of chunks the worker's read loop cuts a file into |
| `SimpleCached` | `simplecached.dfy` | the boss's task queue, and the worker as a resumable state machine over a `Channel` |
| `ProxyHandler` | `handle_with_cache.dfy` | `handle_with_cache`: the pool, the control line, the semaphore handshake and what goes to the client |

**Scheduling.** Threads and processes are replaced by one sequential
schedule, and the proxy handler drives it:

- A semaphore is a `nat` counter on the `Channel` object.
- When the handler must wait on `sem_proxy_ready` and its count is zero, it
  runs the worker (`Worker.Resume`). The worker runs until it blocks on
  `sem_cache_ready` with a count of zero, or until it has finished its task.
- If `sem_proxy_ready` is still zero after that, the handler waits forever.
  The model reports this as the outcome `Blocked`.

**Clean segment.** A segment is clean (`ProxyHandler.Clear`) when, as the
handler starts, both counters are zero and no worker of an earlier request
still waits on its `sem_cache_ready`. The channel keeps a ghost count of such
waiting workers. The full functional contracts of the handler hold when the
segment is clean. Their reference is the pure function `ProxyHandler.Handle`:
the events the client sees (headers and bodies) and the value the handler
returns, computed from
- the control line,
- the cache contents (`SimpleCached.CacheEnv`),
- the outcomes of the socket and client calls (`ProxyHandler.ProxyIo`).

The lemmas about `Handle` are the properties of the exchange:
- a healthy transfer forwards exactly the file, in chunks that fit the segment;
- a miss or an empty file gets an error header;
- a silent cache or a failed read leaves the handler waiting;
- a file whose size is a multiple of the chunk size leaves
  `sem_cache_ready` at 1.

**Behaviours of the code worth knowing:**

- A cache miss makes the proxy send a `GF_ERROR` header, not `GF_FILE_NOT_FOUND`
  (`cache/handle_with_cache.c:72-79`, `:126-130`).
- An empty cached file is treated like a miss (`ProxyHandler.EmptyFileIsRefused`).
- When the file size is a multiple of the chunk size, the worker publishes one
  more chunk, empty and flagged last. It does not flag the final full chunk.
  The proxy forwards that empty chunk and posts `sem_cache_ready` for it, but
  the worker never waits for that post, so the segment goes back to the pool
  with `sem_cache_ready` at 1 (`ProxyHandler.HealthyEnding`,
  `ProxyHandler.HandleWithCache`).
- A failure after the `GF_OK` header has been sent makes the handler send a
  second header, `GF_ERROR` (`ProxyHandler.ErrorAfterOk`).
- When the handler gives up on a chunk with bytes (the `GF_OK` header fails,
  the chunk overflows the usable size, or its send fails), it returns without
  posting `sem_cache_ready`. The worker that published the chunk stays blocked
  on that semaphore, and the segment goes back to the pool with a waiter on it
  (`ProxyHandler.Strands`, `ProxyHandler.Drain`,
  `ProxyHandler.HandleWithCache`). That segment is no longer clean: the next
  request's post of `sem_cache_ready` may wake the old worker instead of the
  new one.
- A segment size smaller than the payload header wraps the chunk size past
  `SSIZE_MAX`. Linux refuses such a `pread` count with `EINVAL`, so the worker
  publishes nothing and the handler waits forever
  (`SimpleCached.FailsAt`, `SimpleCached.WrappedChunkSizePublishesNothing`,
  `ProxyHandler.FailedReadBlocks`).
- A size token that is not a number gives segment size 0, not the
  `SHM_SEGMENT_SIZE` fallback of 5712: the fallback applies only when the line
  has no third token, and `atol` of a non-numeric token is 0
  (`cache/simplecached.c:262-265`, `ControlLine.MalformedSizeGivesZero`).

## Model

| member | source | states |
|---|---|---|
| CTypes.SizeSub | cache/simplecached.c:77 | size_t subtraction equals the difference when it does not underflow, and exceeds its minuend exactly when it wraps |
| CTypes.SizeSubModular | cache/simplecached.c:77 | the wrapped difference is the unique size_t congruent to the difference modulo 2^64 |
| CTypes.AsSigned | cache/simplecached.c:127 | the (ssize_t) reinterpretation is in long range, keeps values up to LONG_MAX and is negative exactly above it |
| CTypes.LongToSize | cache/simplecached.c:264 | the (size_t) cast of a long keeps non-negative values and adds 2^64 to negative ones |
| CTypes.CString | cache/handle_with_cache.c:36 | a C string is the longest NUL-free prefix of the buffer |
| CTypes.Truncate | cache/handle_with_cache.c:36 | snprintf into n bytes keeps a prefix of exactly min(length, n-1) characters, so the whole text when it fits |
| CTypes.Field | cache/simplecached.c:270-271 | strncpy into an n-byte field keeps the first min(len, n) characters, the whole string exactly when it fits |
| CTypes.CStringOfNulFree | cache/handle_with_cache.c:36 | a string without NUL is its own C string |
| Numerals.DigitChar | cache/shm_channel.c:13 | a digit value prints as a decimal digit character |
| Numerals.DigitValue | cache/simplecached.c:264 | a digit character reads back as the value that prints as it |
| Numerals.Decimal | cache/shm_channel.c:13 | %d/%zu of a number is a non-empty digit string with a leading zero only for zero |
| Numerals.DigitsValueOfDecimal | cache/simplecached.c:264 | reading the digits of the decimal form gives back the number |
| Numerals.DecimalInjective | cache/shm_channel.c:13 | different numbers print differently |
| Numerals.DecimalLength | cache/shm_channel.c:13 | a number below 10^k prints in at most k digits |
| ShmLayout.UsableSize | cache/handle_with_cache.c:94 | segsize - sizeof(shm_payload_t) in size_t: the bytes left after the header, and above LONG_MAX minus the header when the segment is smaller than the header |
| ShmLayout.Overwrite | cache/simplecached.c:109 | pread into the buffer replaces its first bytes with the bytes read and keeps the rest |
| ShmLayout.Channel.constructor | cache/shm_channel.h:20-27 | a payload with the given counters, length, flag, size and buffer |
| ShmLayout.Channel.Publish | cache/simplecached.c:124-129 | publishing a chunk sets datalen and the data to its bytes, sets the flag, posts sem_proxy_ready once and leaves sem_cache_ready, the total size and the waiting workers alone |
| ShmChannel.StoredName | cache/shm_channel.c:27 | strncpy keeps exactly the first min(length of the C string, SHM_NAME_LEN) characters, so all of the name when it fits |
| ShmChannel.Segment.constructor | cache/shm_channel.h:12-17 | a fresh segment record with no name, size, descriptor or mapping |
| ShmChannel.Segment.Create | cache/shm_channel.c:26-44 | records name and size; returns 0 exactly when shm_open, ftruncate and mmap succeed, and then maps the region with both semaphores at 0 and datalen 0; returns -1 and leaves the region alone otherwise |
| ShmChannel.Segment.Attach | cache/shm_channel.c:46-57 | records name and size; returns 0 exactly when shm_open and mmap succeed, mapping the region, else -1 |
| ShmChannel.Segment.Destroy | cache/shm_channel.c:59-68 | always returns 0 |
| ShmChannel.SegmentName | cache/shm_channel.c:13 | the i-th segment name fits SHM_NAME_LEN with room for its NUL |
| ShmChannel.SegmentNameFits | cache/shm_channel.c:13 | for any int index the name is "/proxy_shm_" then the decimal index, stored unchanged |
| ShmChannel.SegmentNamesDistinct | cache/shm_channel.c:11-13 | distinct indices give distinct names, each a single word without newline, so it survives the control line |
| ShmChannel.Succeeded | cache/shm_channel.c:10-24 | no segments are attempted for a non-positive count |
| ShmChannel.SucceededIndices | cache/shm_channel.c:10-24 | the indices whose creation succeeds, strictly increasing, exactly those below n whose create succeeds |
| ShmChannel.SegmentPool.constructor | cache/shm_channel.h:30 | an empty pool: the `steque_t` the proxy hands to create_n_segments, before any segment is enqueued |
| ShmChannel.SegmentPool.Acquire | cache/handle_with_cache.c:24-30 | None and no change on an empty pool, else the oldest segment, removed from the front |
| ShmChannel.SegmentPool.Release | cache/handle_with_cache.c:120-122 | the segment goes to the back of the pool |
| ShmChannel.MadeFromStep | cache/shm_channel.c:16-22 | appending the segment made for the next succeeding index extends the description of the pool |
| ShmChannel.CreateOne | cache/shm_channel.c:12-22 | a failed create leaves the pool and the region as they were; a successful one appends one fresh segment made for index i, whose region has both semaphores and datalen at 0; no region's waiter count changes |
| ShmChannel.CreateNSegments | cache/shm_channel.c:10-24 | the pool keeps its old segments and gains, in index order, one fresh segment for each index whose create succeeds; each such index's region starts with both semaphores and datalen at 0 and keeps its waiter count |
| ShmChannel.PooledSegmentsReady | cache/shm_channel.c:10-24 | every segment create_n_segments appended maps a region with both semaphores and datalen at 0 |
| ControlLine.FormatRequest | cache/handle_with_cache.c:35-36 | the request line is the first min(length, 1023) characters of "name path size\n", and holds no NUL |
| ControlLine.SkipDelims | cache/simplecached.c:258-260 | strtok skips a run of delimiters and stops at the first non-delimiter |
| ControlLine.TokenLen | cache/simplecached.c:258-260 | a token runs up to the first delimiter |
| ControlLine.Strtok | cache/simplecached.c:258-260 | no token exactly when only delimiters remain; a token is non-empty and delimiter-free |
| ControlLine.TokenLenOfWord | cache/simplecached.c:258-260 | a delimiter-free word followed by a delimiter or the end is one token |
| ControlLine.StrtokWord | cache/simplecached.c:258-259 | strtok returns a word and the rest after its delimiter |
| ControlLine.StrtokLastWord | cache/simplecached.c:260 | strtok returns a final word with nothing after it |
| ControlLine.SkipSpace | cache/simplecached.c:264 | atol skips leading white space: the result is a suffix, every character skipped is white space, and it does not start with white space |
| ControlLine.LeadingDigits | cache/simplecached.c:264 | atol reads the longest run of digits |
| ControlLine.Saturate | cache/simplecached.c:264 | a value above LONG_MAX gives LONG_MAX, one below LONG_MIN gives LONG_MIN, and one in range is kept |
| ControlLine.Atol | cache/simplecached.c:264 | atol always gives a long |
| ControlLine.AtolOfDecimal | cache/simplecached.c:264 | atol of a printed number up to LONG_MAX gives the number back |
| ControlLine.AtolOfDigits | cache/simplecached.c:264 | atol of a digit string in long range is its value |
| ControlLine.LeadingDigitsOfDigits | cache/simplecached.c:264 | a digit string is read whole |
| ControlLine.Tokenize | cache/simplecached.c:258-260 | without a name there is no key, and without a key no size |
| ControlLine.CutAtNewline | cache/simplecached.c:266 | the key is cut at its first newline, and keeps everything before it |
| ControlLine.SegmentSizeOf | cache/simplecached.c:262-265 | the segment size falls back to SHM_SEGMENT_SIZE without a third token |
| ControlLine.TaskOf | cache/simplecached.c:266-272 | the cache task's name and key fit their fields and the key has no newline |
| ControlLine.ParseRequest | cache/simplecached.c:257-272 | a line yields a task exactly when it has a key token |
| ControlLine.ParseOfLineWithoutSize | cache/simplecached.c:258-272 | "name key\n" parses to that name and key, the newline trimmed, with the fallback segment size |
| ControlLine.TokenizeOfTwoWords | cache/simplecached.c:258-260 | two words give a name and a key token and no size token |
| ControlLine.CutAtNewlineOfLine | cache/simplecached.c:266 | a key ending its line at a newline keeps exactly the text before it |
| ControlLine.TwoWordLineFallsBack | cache/simplecached.c:262-266 | a line "seg key\n" gives key "key" (the newline trimmed) and the fallback size 5712 |
| ControlLine.EmptyLineHasNoTask | cache/simplecached.c:258-267 | an empty line yields no task |
| ControlLine.AsWrittenAgreesWhenKeyPresent | cache/simplecached.c:258-272 | the boss as written and the corrected parse agree on every line with a key |
| ControlLine.BossActionAsWritten | cache/simplecached.c:257-272 | the boss as written trims a NULL key exactly when the corrected parse finds no task; otherwise it enqueues a task whose key has no newline and whose name fits its field |
| ControlLine.NameOnlyLineDereferencesNull | cache/simplecached.c:266-267 | a line with only a name makes the boss as written trim a NULL key |
| ControlLine.RequestRoundTrip | cache/simplecached.c:257-272 | parsing the proxy's line gives back the segment name, the path and the segment size, for a name that leaves room for strncpy's NUL |
| ControlLine.ParseOfWellFormedLine | cache/simplecached.c:257-272 | "name path digits\n" parses to that name and path, with the size cast from atol of the digits |
| ControlLine.TokenizeOfWellFormedLine | cache/simplecached.c:258-260 | "name path digits\n" splits into those three tokens |
| ControlLine.TokenizeOfParts | cache/simplecached.c:258-260 | a line assembled from a name, a path and digits splits into those three tokens |
| ControlLine.ParseOfSizedLine | cache/simplecached.c:257-272 | "name path w\n" parses to that name and path, with the size cast from atol of the word w, whatever w holds |
| ControlLine.TokenizeOfSizedLine | cache/simplecached.c:258-260 | "name path w\n" splits into those three tokens |
| ControlLine.NonNumericSizeIsZero | cache/simplecached.c:262-265 | a size token that starts with neither white space, a sign nor a digit gives atol 0 and segment size 0 |
| ControlLine.ParseOfNonNumericSize | cache/simplecached.c:257-272 | "name path w\n" with such a w parses to a task of segment size 0 |
| ControlLine.MalformedSizeGivesZero | cache/simplecached.c:262-265 | "seg key abc\n" parses to segment size 0, not the fallback 5712 |
| ControlLine.WordHasNoSpace | cache/simplecached.c:258 | a word holds no space delimiter |
| ControlLine.DigitsHaveNoDelims | cache/simplecached.c:260 | digits hold neither delimiter of the size token |
| ControlLine.StrtokAt | cache/simplecached.c:258-260 | strtok on a word, a delimiter and a rest gives the word and the rest |
| ControlLine.TokenizeOfTokens | cache/simplecached.c:258-260 | the three strtok calls chain on the rest of each other |
| ControlLine.CutAtNewlineOfPlain | cache/simplecached.c:266 | a key without newline is kept whole |
| ControlLine.ParsedNameIsSegmentName | cache/simplecached.c:258-270 | whatever the path, a parsed proxy line names the proxy's segment |
| ControlLine.FirstWordOfPrefix | cache/simplecached.c:258-270 | a line truncated anywhere after its first word still names that word |
| ControlLine.ShmNameOfFirstToken | cache/simplecached.c:258-270 | the cache task's segment name is the first token when it fits the field |
| ChunkStream.ReadLen | cache/simplecached.c:109 | a pread that the kernel accepts returns the chunk size or what is left of the file, whichever is smaller |
| ChunkStream.Chunks | cache/simplecached.c:105-134 | the read loop produces at least one chunk, and the final chunk is flagged last |
| ChunkStream.ConcatCons | cache/simplecached.c:122 | the bytes of a chunk run are its first chunk's bytes, then the rest |
| ChunkStream.ChunksCover | cache/simplecached.c:105-134 | with a positive chunk size the chunks' bytes are the file from the offset on |
| ChunkStream.CoverEnd | cache/simplecached.c:116-127 | a read that ends the loop covers the rest of the file |
| ChunkStream.CoverStep | cache/simplecached.c:122-133 | a full read followed by a covering tail covers the file |
| ChunkStream.ConcatPrepend | cache/simplecached.c:122 | a chunk in front of a run puts its bytes in front |
| ChunkStream.ChunksShape | cache/simplecached.c:105-134 | every chunk fits the chunk size; all but the final one are non-empty, full and not flagged last |
| ChunkStream.WellShapedOne | cache/simplecached.c:127 | a single last chunk within the size is well shaped |
| ChunkStream.WellShapedCons | cache/simplecached.c:122-133 | a full non-last chunk before a well-shaped run is well shaped |
| ChunkStream.DivStep | cache/simplecached.c:122 | one full read lowers the quotient by one and keeps the remainder |
| ChunkStream.DivUnique | cache/simplecached.c:105-134 | arithmetic helper of ChunksCount: quotient and remainder are unique |
| ChunkStream.MulAtLeast | cache/simplecached.c:105-134 | arithmetic helper of ChunksCount: a positive multiple of m is at least m |
| ChunkStream.LastFlag | cache/simplecached.c:127 | a read is flagged last exactly when the chunk size is at most LONG_MAX and the read is shorter than it, the signed comparison of line 127 |
| ChunkStream.ChunksCount | cache/simplecached.c:105-134 | a file of S bytes in chunks of C gives S/C + 1 chunks, the last holding S mod C bytes |
| ChunkStream.LastChunkEmptyIffDivisible | cache/simplecached.c:116-127 | the final chunk is empty exactly when C divides S |
| ChunkStream.ZeroMaxGivesEmptyLast | cache/simplecached.c:109-121 | a zero chunk size gives one empty last chunk |
| ChunkStream.HugeMaxNeverFlagsLast | cache/simplecached.c:127 | the signed comparison alone never flags a read last for a chunk size above LONG_MAX; the worker never gets that far, since its first such pread fails (SimpleCached.FailsAt) |
| ChunkStream.FirstChunkEmpty | cache/simplecached.c:109-121 | the first chunk is empty exactly when nothing is left to read or the chunk size is 0 |
| SimpleCached.TaskQueue.constructor | cache/simplecached.c:220 | an empty queue |
| SimpleCached.TaskQueue.Enqueue | cache/simplecached.c:274-278 | the cache task goes to the back |
| SimpleCached.TaskQueue.Pop | cache/simplecached.c:59-65 | the oldest task comes off the front; an empty queue stays empty |
| SimpleCached.Received | cache/simplecached.c:252-253 | one read takes at most 6099 bytes, all of a shorter message |
| SimpleCached.BossStep | cache/simplecached.c:249-279 | a failed or empty read enqueues nothing; otherwise the parsed task, if any, is appended |
| SimpleCached.ProxyLineBecomesTask | cache/simplecached.c:253-272 | the proxy's line reaches the queue as the cache task for that segment, path and size |
| SimpleCached.MaxChunk | cache/simplecached.c:77 | the chunk size plus the header is the segment size when the segment holds the header |
| SimpleCached.FailsAt | cache/simplecached.c:109-114 | the first pread fails when the chunk size exceeds SSIZE_MAX, and otherwise the one the environment names fails, if any |
| SimpleCached.FileOf | cache/simplecached.c:70-103 | the file is read exactly when attach, lookup, dup and fstat succeed, and it is the cached content |
| SimpleCached.Cut | cache/simplecached.c:109-114 | a failing read cuts the stream to the chunks before it |
| SimpleCached.CutKeeps | cache/simplecached.c:109-114 | a chunk read before the failing read is published at its own index |
| SimpleCached.CutStops | cache/simplecached.c:111-114 | the stream stops right before the failing read |
| SimpleCached.Expected | cache/simplecached.c:58-134 | the worker publishes something only after a successful attach, and an open file whose reads all succeed ends in a chunk flagged last |
| SimpleCached.ExpectedOfFile | cache/simplecached.c:103-134 | once the file is open the stream is its chunks, cut at the failing read |
| SimpleCached.MissPublishesOneEmptyLastChunk | cache/simplecached.c:79-87 | a miss publishes exactly one empty chunk flagged last |
| SimpleCached.SetupFailurePublishesNothing | cache/simplecached.c:70-102 | a failed attach, dup or fstat publishes nothing |
| SimpleCached.FailedReadPublishesNoLastChunk | cache/simplecached.c:111-114 | a failed pread ends the stream before any chunk flagged last |
| SimpleCached.WrappedChunkSizePublishesNothing | cache/simplecached.c:77-114 | a chunk size wrapped past SSIZE_MAX publishes no chunk at all |
| SimpleCached.StreamReproducesFile | cache/simplecached.c:105-134 | without read errors the published chunks reproduce the file, fit the chunk size and flag only the final one last |
| SimpleCached.Offset | cache/simplecached.c:122 | the read offset never passes the end of the file |
| SimpleCached.ChunksTail | cache/simplecached.c:109-122 | with more chunks to come the read is non-empty and the rest is read from where it ends |
| SimpleCached.ChunksFrom | cache/simplecached.c:106-122 | reading from the offset after k reads gives the file's chunks from index k |
| SimpleCached.BeginStep | cache/simplecached.c:70-106 | the setup either ends the cache task (nothing, or the miss chunk) or starts reading the cached file at offset 0 |
| SimpleCached.ChunkAt | cache/simplecached.c:109-127 | chunk k is the bytes read at the k-th offset, flagged last when the read is empty or short, and only the final chunk is |
| SimpleCached.NextOfStream | cache/simplecached.c:109-129 | the next chunk published is the bytes pread returns at the current offset |
| SimpleCached.ReadStep | cache/simplecached.c:122-131 | a non-empty read publishes the next chunk and advances the offset |
| SimpleCached.EndStep | cache/simplecached.c:116-121 | an empty read publishes an empty last chunk and ends the cache task |
| SimpleCached.FailStep | cache/simplecached.c:111-114 | a failing read ends the cache task without publishing |
| SimpleCached.WaitStep | cache/simplecached.c:131-133 | after the wait the worker stops on a last chunk and reads on otherwise |
| SimpleCached.Worker.constructor | cache/simplecached.c:64-69 | a worker for the popped task, before attach, whose stream is everything it will publish for that task |
| SimpleCached.Worker.Begin | cache/simplecached.c:70-106 | the setup publishes at most the miss chunk and posts sem_proxy_ready once per chunk published |
| SimpleCached.Worker.ReadChunk | cache/simplecached.c:109-131 | one read publishes at most one chunk, posting once for it, and moves the offset forward when it waits |
| SimpleCached.Worker.ReadFails | cache/simplecached.c:111-114 | a failing read ends the cache task without a post |
| SimpleCached.Worker.PublishEnd | cache/simplecached.c:116-121 | an empty read publishes one chunk and posts sem_proxy_ready once |
| SimpleCached.Worker.PublishBytes | cache/simplecached.c:122-129 | a non-empty read publishes one chunk, advances the offset by its length, posts once and leaves the worker waiting on sem_cache_ready |
| SimpleCached.Worker.PassWait | cache/simplecached.c:131-133 | passing sem_cache_ready takes one count from it, and the worker no longer waits |
| SimpleCached.Worker.Resume | cache/simplecached.c:58-134 | the worker runs until it blocks on a zero sem_cache_ready or finishes; one post of sem_proxy_ready per chunk published; every count it takes from sem_cache_ready is a pass; after one handed-back chunk it publishes exactly the next one |
| ProxyHandler.Step | cache/handle_with_cache.c:94-117 | one pass goes on exactly when its chunk fits the segment, is sent and is not last, and then adds its body and the bytes sent; when it stops it returns, extending what was sent |
| ProxyHandler.Forward | cache/handle_with_cache.c:88-118 | the send loop only appends to what was sent, and a return adds at least one event |
| ProxyHandler.Consume | cache/handle_with_cache.c:65-118 | after the line is written the client sees nothing exactly when the cache publishes no chunk, and then the handler waits for ever |
| ProxyHandler.Handle | cache/handle_with_cache.c:33-118 | a return always sends the client something, and the handler can wait for ever only after connecting and writing the line |
| ProxyHandler.StepEnds | cache/handle_with_cache.c:94-112 | one loop pass either stops with a return value (after the last chunk's body, or with a GF_ERROR header) or forwards a non-last chunk and goes on |
| ProxyHandler.BodiesOf | cache/handle_with_cache.c:100 | one body per chunk |
| ProxyHandler.BodiesAt | cache/handle_with_cache.c:100 | body i carries chunk i's bytes |
| ProxyHandler.ForwardShape | cache/handle_with_cache.c:91-118 | the loop only appends to what was sent, and every event it adds is a body that fits the segment or the final GF_ERROR header |
| ProxyHandler.ConsumeShape | cache/handle_with_cache.c:67-118 | the client sees nothing exactly when no chunk comes; an empty first chunk is refused; GF_OK opens the reply exactly when the first chunk has bytes; nothing after it overflows the segment except in the final error |
| ProxyHandler.ForwardRun | cache/handle_with_cache.c:91-118 | when every send succeeds the loop forwards the bodies of the remaining chunks and returns the running total, or waits forever when the stream has no last chunk |
| ProxyHandler.ForwardLast | cache/handle_with_cache.c:100-112 | forwarding the final chunk returns the total when it is flagged last |
| ProxyHandler.ForwardGo | cache/handle_with_cache.c:100-117 | a successful non-last pass adds its body and its bytes sent, then waits for the next chunk |
| ProxyHandler.BodiesCarry | cache/handle_with_cache.c:100 | the bodies carry the chunks' bytes, in order |
| ProxyHandler.SentLengths | cache/handle_with_cache.c:105 | when each send reports its chunk's length, total_sent is the number of bytes forwarded |
| ProxyHandler.SmoothConsume | cache/handle_with_cache.c:81-118 | with a non-empty first chunk and no failure the reply is GF_OK with the size, then one body per chunk |
| ProxyHandler.BytesAfterHeader | cache/handle_with_cache.c:82-100 | the bytes after the GF_OK header are the chunks' bytes |
| ProxyHandler.LastChunkEmptyIffMultiple | cache/handle_with_cache.c:109 | the stream ends on an empty chunk exactly when the usable size divides the file size |
| ProxyHandler.HandleOfParsedLine | cache/handle_with_cache.c:33-86 | once the line is delivered, the handler consumes what the worker publishes for the parsed task |
| ProxyHandler.HealthyStream | cache/handle_with_cache.c:81-124 | a non-empty file whose sends succeed reaches the client as GF_OK with its size, then bodies that fit the segment and whose bytes are the file; the handler returns total_sent |
| ProxyHandler.HealthyEnding | cache/handle_with_cache.c:105-112 | in that transfer total_sent is the file size when sends are full, and the last chunk is empty exactly when the chunk size divides the file size |
| ProxyHandler.HealthyTransfer | cache/handle_with_cache.c:16-124 | with a cached file, the handler's whole exchange forwards that file's chunks |
| ProxyHandler.MissIsRefused | cache/handle_with_cache.c:72-79 | a cache miss gets one GF_ERROR header and the error return |
| ProxyHandler.EmptyFileIsRefused | cache/handle_with_cache.c:72-79 | an empty cached file gets one GF_ERROR header and the error return |
| ProxyHandler.SilentCacheBlocks | cache/handle_with_cache.c:67-70 | an unparsable line or a failed attach, dup or fstat leaves the handler waiting forever with nothing sent |
| ProxyHandler.FailedReadBlocks | cache/handle_with_cache.c:114-117 | a failing pread, including one refused for a wrapped chunk size, leaves the handler waiting forever |
| ProxyHandler.StreamWithoutLastBlocks | cache/handle_with_cache.c:109-117 | a stream that never flags a chunk last leaves the handler waiting forever |
| ProxyHandler.ErrorAfterOk | cache/handle_with_cache.c:82-130 | a failure after GF_OK sends a second header, GF_ERROR, and returns the error value |
| ProxyHandler.Connect | cache/handle_with_cache.c:44-56 | connects exactly when one of the 5 attempts succeeds, stopping at the first that does, and makes all 5 otherwise |
| ProxyHandler.AwaitChunk | cache/handle_with_cache.c:67-70 | sem_wait on sem_proxy_ready: when the worker is at chunk j it returns exactly when chunk j exists, and then chunk j is in the segment |
| ProxyHandler.PendingHolds | cache/handle_with_cache.c:94-109 | the chunk the handler reads from the segment is the one the worker published |
| ProxyHandler.SendChunk | cache/handle_with_cache.c:94-112 | one loop pass over the pending chunk behaves as the reference pass, and posts sem_cache_ready exactly when the chunk is forwarded |
| ProxyHandler.StopSettles | cache/handle_with_cache.c:94-112 | a pass that stops on the chunk the worker published leaves the segment settled: one post of sem_cache_ready pending after a sent last chunk, none after an error header |
| ProxyHandler.SendLoop | cache/handle_with_cache.c:88-118 | on a clean segment the loop sends what the reference loop sends over the worker's stream, and leaves the segment settled when it returns |
| ProxyHandler.Drain | cache/simplecached.c:131-133 | after a returned transfer the worker takes its pass; both counters are then 0, except sem_cache_ready at 1 after an empty last chunk; the worker is left waiting exactly when the handler gave up on a chunk with bytes |
| ProxyHandler.Serve | cache/handle_with_cache.c:65-118 | on a clean segment the handshake sends to the client exactly the reference reply to the worker's stream, and on return leaves the counters and the waiting worker as Drain states |
| ProxyHandler.Exchange | cache/handle_with_cache.c:58-118 | the written line becomes the worker's task, and on a clean segment the reply is the reference reply to what that worker publishes; on return one worker is left waiting exactly when the handler gave up on a chunk with bytes |
| ProxyHandler.HandleWithCache | cache/handle_with_cache.c:16-131 | an empty pool gets GF_ERROR; otherwise the segment is taken from the front and returned to the back unless the handler waits forever; the segment stays well formed; on a clean segment the reply is Handle's, and a returned transfer leaves sem_cache_ready at 1 exactly after an empty last chunk and one worker waiting exactly when the handler gave up on a chunk with bytes |

## Left out

- Threads, mutexes and condition variables are left out. One sequential schedule stands in for them: the proxy handler runs the worker whenever it waits on an empty `sem_proxy_ready`. Other interleavings and other proxy threads on the same daemon are not modelled.
- Sockets, `sleep(1)` between connection attempts and the client connection are left out. The outcome of each call is a field of `ProxyHandler.ProxyIo`, and `gfs_sendheader`'s return value is `errorReply`.
- `sem_wait` returning -1 (EINTR) is not modelled, so the error branches at `cache/handle_with_cache.c:67-70` and `:114-117` never run.
- `ProxyHandler.SendLoop` uses an unbounded integer for `total_sent`, so `ssize_t` overflow is not modelled.
- Name lookup by `shm_open` is left out. Create and attach receive the mapped `Channel` object directly; the name only travels in the control line.
- `ProxyHandler.HandleWithCache`, `ProxyHandler.Exchange`, `ProxyHandler.Serve` and `ProxyHandler.SendLoop` give their full functional contract only on a clean segment: both counters 0 and no waiting worker. A segment left with `sem_cache_ready` at 1, or with a worker an earlier handler abandoned, is only covered by the frame, validity and pool contracts; which worker a post then wakes is not modelled.
- `ShmLayout.Channel.Publish`: the data buffer has no fixed capacity. A chunk longer than the mapping, which a worker gets when its task names a larger segment size than the proxy mapped, is stored whole, where the C worker's `pread` writes past the end of the segment.
- `ControlLine.TaskOf`: a name of 64 characters or more, or a key of 1024 or more, fills its `strncpy` field with no NUL. The C worker then reads the name on into the key field, and the key on into the size's bytes. The model keeps the first 64 or 1024 characters as the whole name or key, and its round-trip lemmas require shorter words.
- `ShmChannel.StoredName`: likewise, a name of 64 characters or more is stored without a NUL, and a later use of `shm_name` as a C string runs past the field. The model keeps the first 64 characters.
- `SimpleCached.BossStep` follows the corrected parse `ControlLine.ParseRequest`, which drops a line without a key. The daemon as written dereferences NULL on such a line and dies (see Findings). The composed model does not follow that crash.
- `ChunkStream.ReadLen` models a `pread` the kernel accepts. A count above `SSIZE_MAX` is modelled by `SimpleCached.FailsAt` as a failing read, as Linux reports it; other systems, where the result is implementation-defined, are not modelled.
- Each handler models a single worker serving one task on that segment. The daemon's other workers and queued tasks for other segments are not modelled.
- `sizeof(shm_payload_t)` is platform dependent, so it is the parameter `header`.
- `simplecache_get`, `dup`, `fstat` and `pread` are the parameter `SimpleCached.CacheEnv`. It holds the store as a map, success flags, and the index of the first `pread` that fails. Short reads other than at the end of the file are not modelled.
- `simplecache_init`, `simplecache_destroy`, the signal handler, `getopt` option parsing, socket setup in `main`, and all `printf` logging are left out. They are start-up, shut-down and I/O.
- A handler that waits forever (`Blocked`) never returns, so its segment never goes back to the pool. The model states this but cannot express the non-termination itself.
- `ShmChannel.Segment.Destroy` does not model `munmap`, `close` or `shm_unlink`. They have no observable effect in the model.
- `server/webproxy.c` and `server/handle_with_curl.c` are not part of this model.

## Findings

| source | as written | input that shows it | evidently intended | confidence | as-written member | corrected member |
|---|---|---|---|---|---|---|
| cache/simplecached.c:266-267 | the key is trimmed with `strcspn` before the NULL test, so a line without a second token dereferences a NULL `key` | the control line `seg\n` | test `shm_name` and `key` for NULL first, and drop the line without enqueuing | not executed | ControlLine.NameOnlyLineDereferencesNull | ControlLine.ParseRequest |
