/** The constants and the shared payload layout every segment carries. */
module ShmLayout {
  import opened CTypes

  /** SHM_NAME_LEN: the size of a segment's name field. */
  const ShmNameLen: nat := 64
  /** SHM_SEGMENT_SIZE: the segment size the cache uses when a request names none. */
  const ShmSegmentSize: SizeT := 5712

  /**
   * The bytes of `data` a segment of `segsize` bytes offers once the payload
   * header (`header`, which is sizeof(shm_payload_t)) is taken off, computed
   * in size_t as both processes compute it.
   */
  function UsableSize(segsize: SizeT, header: SizeT): (r: SizeT)
    ensures header <= segsize ==> r + header == segsize
    ensures segsize < header ==> r > LongMax - header
  {
    SizeSub(segsize, header)
  }

  /** The data buffer after pread stores `bytes` at its start; the rest keeps its old contents. */
  function Overwrite(area: seq<Byte>, bytes: seq<Byte>): (r: seq<Byte>)
    ensures |r| == if |bytes| <= |area| then |area| else |bytes|
    ensures r[..|bytes|] == bytes && r[|bytes|..] == if |bytes| <= |area| then area[|bytes|..] else []
  {
    if |bytes| <= |area| then bytes + area[|bytes|..] else bytes
  }

  /**
   * shm_payload_t, the start of a mapped segment, shared by the proxy and the
   * cache. The two semaphores are their counts; `data` is the flexible buffer,
   * of which the first `datalen` bytes are the pending chunk.
   */
  class Channel {
    var proxyReady: nat
    var cacheReady: nat
    var datalen: nat
    var isLastChunk: int
    var totalFileSize: nat
    var data: seq<Byte>
    /**
     * How many cache workers have posted sem_proxy_ready for a chunk with
     * bytes and have not yet passed their wait on sem_cache_ready.
     */
    ghost var waiters: nat

    /** As shm_segment_create leaves the payload: both semaphores at 0 and no pending chunk. */
    ghost predicate Initialised()
      reads this
    {
      proxyReady == 0 && cacheReady == 0 && datalen == 0
    }

    /** The pending chunk lies inside the buffer. */
    ghost predicate Valid()
      reads this`datalen, this`data
    {
      datalen <= |data|
    }

    /**
     * The memory of a shared-memory object as some earlier user left it,
     * with the workers an earlier request left waiting on it.
     */
    constructor (proxyReady: nat, cacheReady: nat, datalen: nat, isLastChunk: int, totalFileSize: nat,
                 data: seq<Byte>, ghost waiters: nat)
      requires datalen <= |data|
      ensures Valid()
      ensures this.proxyReady == proxyReady && this.cacheReady == cacheReady
      ensures this.datalen == datalen && this.isLastChunk == isLastChunk
      ensures this.totalFileSize == totalFileSize && this.data == data && this.waiters == waiters
    {
      this.proxyReady, this.cacheReady := proxyReady, cacheReady;
      this.datalen, this.isLastChunk := datalen, isLastChunk;
      this.totalFileSize, this.data := totalFileSize, data;
      this.waiters := waiters;
    }

    /**
     * The cache side of one hand-over: the chunk's bytes land at the start of
     * `data`, `datalen` and `is_last_chunk` are set, and sem_proxy_ready is
     * posted once.
     */
    method Publish(bytes: seq<Byte>, last: bool)
      requires Valid()
      modifies this
      ensures Valid() && datalen == |bytes| && data[..datalen] == bytes
      ensures isLastChunk == (if last then 1 else 0)
      ensures data == Overwrite(old(data), bytes)
      ensures proxyReady == old(proxyReady) + 1 && cacheReady == old(cacheReady)
      ensures totalFileSize == old(totalFileSize) && waiters == old(waiters)
    {
      data := Overwrite(data, bytes);
      datalen := |bytes|;
      isLastChunk := if last then 1 else 0;
      proxyReady := proxyReady + 1;
    }
  }
}
