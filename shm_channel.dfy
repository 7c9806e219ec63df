/**
 * Named shared-memory segments: creating, attaching and destroying one, and
 * the proxy's FIFO pool of free segments filled by `create_n_segments`.
 * shm_open, ftruncate and mmap are represented only by whether they succeed
 * and by the memory object a successful mapping reaches.
 */
module ShmChannel {
  import opened Wrappers
  import opened CTypes
  import opened Numerals
  import opened ShmLayout
  import ControlLine

  /**
   * What the operating system answers to one segment's calls: the descriptor
   * shm_open returns (negative on failure), whether ftruncate succeeds and
   * whether mmap succeeds.
   */
  datatype OsCalls = OsCalls(openFd: int, truncateOk: bool, mapOk: bool)

  /** shm_segment_create succeeds exactly when all three calls do. */
  predicate CreateSucceeds(os: OsCalls)
  {
    os.openFd >= 0 && os.truncateOk && os.mapOk
  }

  /** shm_segment_attach neither creates nor truncates: it needs only open and map. */
  predicate AttachSucceeds(os: OsCalls)
  {
    os.openFd >= 0 && os.mapOk
  }

  /** The name `strncpy(seg->shm_name, name, SHM_NAME_LEN)` stores. */
  function StoredName(name: string): (r: string)
    ensures |r| == Min(|CString(name)|, ShmNameLen) && r == CString(name)[..|r|]
    ensures |CString(name)| <= ShmNameLen ==> r == CString(name)
  {
    Field(CString(name), ShmNameLen)
  }

  /** shm_segment_t: the name, the size, the descriptor and the mapping (null when unmapped or MAP_FAILED). */
  class Segment {
    var name: string
    var size: SizeT
    var fd: int
    var addr: Channel?

    /** A freshly allocated, not yet initialised segment record. */
    constructor ()
      ensures name == [] && size == 0 && fd == -1 && addr == null
    {
      name, size, fd, addr := [], 0, -1, null;
    }

    /**
     * shm_segment_create: name and size are recorded before any call; the
     * result is 0 when open, truncate and map all succeed and -1 otherwise;
     * on success both semaphore counts and `datalen` are 0 while the last
     * flag, the total size and the data are left as the object held them.
     */
    method Create(name: string, size: SizeT, os: OsCalls, region: Channel) returns (rc: int)
      modifies this, region
      ensures this.name == StoredName(name) && this.size == size && fd == os.openFd
      ensures rc == 0 <==> CreateSucceeds(os)
      ensures rc == 0 || rc == -1
      ensures rc == 0 ==> addr == region && region.proxyReady == 0 && region.cacheReady == 0
                          && region.datalen == 0 && region.isLastChunk == old(region.isLastChunk)
                          && region.totalFileSize == old(region.totalFileSize) && region.data == old(region.data)
                          && region.waiters == old(region.waiters)
      ensures rc != 0 ==> unchanged(region)
      ensures rc != 0 ==> addr == (if os.openFd >= 0 && os.truncateOk then null else old(addr))
    {
      this.name := StoredName(name);
      this.size := size;
      fd := os.openFd;
      if fd < 0 {
        return -1;
      }
      if !os.truncateOk {
        return -1;
      }
      if !os.mapOk {
        addr := null;
        return -1;
      }
      addr := region;
      region.proxyReady := 0;
      region.cacheReady := 0;
      region.datalen := 0;
      rc := 0;
    }

    /**
     * shm_segment_attach: records name and size, opens without creating and
     * maps; it writes no payload field (the region is outside its frame).
     */
    method Attach(name: string, size: SizeT, os: OsCalls, region: Channel) returns (rc: int)
      modifies this
      ensures this.name == StoredName(name) && this.size == size && fd == os.openFd
      ensures rc == 0 <==> AttachSucceeds(os)
      ensures rc == 0 || rc == -1
      ensures rc == 0 ==> addr == region
    {
      this.name := StoredName(name);
      this.size := size;
      fd := os.openFd;
      if fd < 0 {
        return -1;
      }
      if !os.mapOk {
        addr := null;
        return -1;
      }
      addr := region;
      rc := 0;
    }

    /** shm_segment_destroy: unmaps, closes and unlinks, and always reports 0. */
    method Destroy() returns (rc: int)
      ensures rc == 0
    {
      rc := 0;
    }
  }

  /** The name `snprintf(shm_name, SHM_NAME_LEN, "/proxy_shm_%d", i)` produces. */
  function SegmentName(i: nat): (r: string)
    ensures |r| < ShmNameLen
  {
    Truncate("/proxy_shm_" + Decimal(i), ShmNameLen)
  }

  /** For every index an int can hold the name is not truncated. */
  lemma SegmentNameFits(i: nat)
    requires i <= IntMax
    ensures SegmentName(i) == "/proxy_shm_" + Decimal(i)
    ensures StoredName(SegmentName(i)) == SegmentName(i)
  {
    assert Pow10(10) == 10000000000;
    DecimalLength(i, 10);
    var s := "/proxy_shm_" + Decimal(i);
    assert '\0' !in s by {
      assert forall k :: 0 <= k < |Decimal(i)| ==> Decimal(i)[k] != '\0';
    }
    CStringOfNulFree(s);
  }

  /** Different indices name different segments, and every name is a word the control line carries intact. */
  lemma SegmentNamesDistinct(i: nat, j: nat)
    requires i <= IntMax && j <= IntMax && i != j
    ensures SegmentName(i) != SegmentName(j)
    ensures ControlLine.IsWord(SegmentName(i)) && '\n' !in SegmentName(i)
  {
    SegmentNameFits(i);
    SegmentNameFits(j);
    var p := "/proxy_shm_";
    if SegmentName(i) == SegmentName(j) {
      assert Decimal(i) == SegmentName(i)[|p|..];
      assert Decimal(j) == SegmentName(j)[|p|..];
      DecimalInjective(i, j);
    }
    assert forall k :: 0 <= k < |Decimal(i)| ==> Decimal(i)[k] != ' ' && Decimal(i)[k] != '\n' && Decimal(i)[k] != '\0';
  }

  /** The indices below n whose creation succeeds, in increasing order. */
  function Succeeded(n: int, os: nat -> OsCalls): (idx: seq<nat>)
    ensures n <= 0 ==> idx == []
    decreases n
  {
    if n <= 0 then []
    else Succeeded(n - 1, os) + (if CreateSucceeds(os(n - 1)) then [n - 1] else [])
  }

  /**
   * At most n segments are created; their indices increase strictly and are
   * exactly the indices below n whose calls all succeed.
   */
  lemma {:induction false} SucceededIndices(n: int, os: nat -> OsCalls)
    ensures |Succeeded(n, os)| <= (if n <= 0 then 0 else n)
    ensures forall a, b :: 0 <= a < b < |Succeeded(n, os)| ==> Succeeded(n, os)[a] < Succeeded(n, os)[b]
    ensures forall i: nat :: i in Succeeded(n, os) <==> i < n && CreateSucceeds(os(i))
    decreases n
  {
    if n > 0 {
      SucceededIndices(n - 1, os);
      var prev := Succeeded(n - 1, os);
      var idx := Succeeded(n, os);
      assert forall a :: 0 <= a < |prev| ==> prev[a] < n - 1 by {
        forall a | 0 <= a < |prev|
          ensures prev[a] < n - 1
        {
          assert prev[a] in prev;
        }
      }
      assert forall a :: 0 <= a < |prev| ==> idx[a] == prev[a];
    }
  }

  /** The proxy's free list: a FIFO of segments, each mapped. */
  class SegmentPool {
    var free: seq<Segment>

    ghost predicate Valid()
      reads this, free
    {
      forall k :: 0 <= k < |free| ==> free[k].addr != null
    }

    constructor ()
      ensures free == [] && Valid()
    {
      free := [];
    }

    /** steque_pop under the lock: the front segment, or None when the pool is empty. */
    method Acquire() returns (seg: Option<Segment>)
      requires Valid()
      modifies this
      ensures Valid()
      ensures old(free) == [] ==> seg == None && free == old(free)
      ensures old(free) != [] ==> seg == Some(old(free)[0]) && free == old(free)[1..]
      ensures seg.Some? ==> seg.value.addr != null
    {
      if free == [] {
        return None;
      }
      seg := Some(free[0]);
      free := free[1..];
    }

    /** steque_enqueue under the lock: the segment goes to the back. */
    method Release(seg: Segment)
      requires Valid() && seg.addr != null
      modifies this
      ensures free == old(free) + [seg] && Valid()
    {
      free := free + [seg];
    }
  }

  /** One segment's record is the one create_n_segments makes for index i. */
  ghost predicate MadeFor(seg: Segment, i: nat, segsize: SizeT, os: nat -> OsCalls, regions: nat -> Channel)
    reads seg
  {
    seg.name == StoredName(SegmentName(i)) && seg.size == segsize
    && seg.addr == regions(i) && seg.fd == os(i).openFd
  }

  /** The segments of `free` from position `base` on were made, in order, for the indices in `idx`. */
  ghost predicate MadeFrom(free: seq<Segment>, base: nat, idx: seq<nat>, segsize: SizeT, os: nat -> OsCalls, regions: nat -> Channel)
    reads free
  {
    base + |idx| == |free| && forall k :: 0 <= k < |idx| ==> MadeFor(free[base + k], idx[k], segsize, os, regions)
  }

  /**
   * Each segment create_n_segments appends maps a region as shm_segment_create
   * left it: both semaphores and the pending length at 0.
   */
  lemma PooledSegmentsReady(free: seq<Segment>, base: nat, n: int, segsize: SizeT, os: nat -> OsCalls, regions: nat -> Channel)
    requires MadeFrom(free, base, Succeeded(n, os), segsize, os, regions)
    requires forall j: nat :: j < n && CreateSucceeds(os(j)) ==> regions(j).Initialised() && regions(j).Valid()
    ensures forall k :: base <= k < |free| ==> free[k].addr != null && free[k].addr.Initialised() && free[k].addr.Valid()
  {
    var idx := Succeeded(n, os);
    SucceededIndices(n, os);
    forall k | base <= k < |free|
      ensures free[k].addr != null && free[k].addr.Initialised() && free[k].addr.Valid()
    {
      assert idx[k - base] in idx;
      assert MadeFor(free[base + (k - base)], idx[k - base], segsize, os, regions);
    }
  }

  lemma MadeFromStep(before: seq<Segment>, after: seq<Segment>, base: nat, idx: seq<nat>, idx2: seq<nat>, i: nat,
                     segsize: SizeT, os: nat -> OsCalls, regions: nat -> Channel)
    requires MadeFrom(before, base, idx, segsize, os, regions)
    requires |after| == |before| + 1 && forall k :: 0 <= k < |before| ==> after[k] == before[k]
    requires MadeFor(after[|before|], i, segsize, os, regions) && idx2 == idx + [i]
    ensures MadeFrom(after, base, idx2, segsize, os, regions)
  {
    forall k | 0 <= k < |idx2|
      ensures MadeFor(after[base + k], idx2[k], segsize, os, regions)
    {
      if k < |idx| {
        assert after[base + k] == before[base + k] && idx2[k] == idx[k];
      }
    }
  }

  /**
   * create_n_segments: tries indices 0 … n-1 in order, and appends to the pool
   * a new segment for each index whose creation succeeds, named after the
   * index, of the given size and mapped onto that index's memory object.
   */
  method CreateNSegments(n: int, segsize: SizeT, pool: SegmentPool, os: nat -> OsCalls, regions: nat -> Channel,
                         ghost objects: set<Channel>)
    requires pool.Valid()
    requires forall i: nat :: i < n ==> regions(i) in objects
    modifies pool, objects
    ensures pool.Valid()
    ensures |pool.free| >= |old(pool.free)| && pool.free[..|old(pool.free)|] == old(pool.free)
    ensures MadeFrom(pool.free, |old(pool.free)|, Succeeded(n, os), segsize, os, regions)
    ensures forall k :: |old(pool.free)| <= k < |pool.free| ==> fresh(pool.free[k])
    ensures forall j: nat :: j < n && CreateSucceeds(os(j)) ==> regions(j).Initialised() && regions(j).Valid()
    ensures forall j: nat :: j < n ==> regions(j).waiters == old(regions(j).waiters)
  {
    var i := 0;
    ghost var start := pool.free;
    while i < n
      invariant 0 <= i && (n <= 0 ==> i == 0) && (0 < n ==> i <= n)
      invariant pool.Valid()
      invariant |start| <= |pool.free| && pool.free[..|start|] == start
      invariant MadeFrom(pool.free, |start|, Succeeded(i, os), segsize, os, regions)
      invariant forall k :: |start| <= k < |pool.free| ==> fresh(pool.free[k])
      invariant forall j: nat :: j < i && CreateSucceeds(os(j)) ==> regions(j).Initialised() && regions(j).Valid()
      invariant forall j: nat :: j < n ==> regions(j).waiters == old(regions(j).waiters)
      decreases n - i
    {
      ghost var before := pool.free;
      CreateOne(i, segsize, pool, os, regions, regions(i), objects);
      forall k | |start| <= k < |pool.free|
        ensures fresh(pool.free[k])
      {
        if k < |before| {
          assert pool.free[k] == before[k];
        }
      }
      if CreateSucceeds(os(i)) {
        MadeFromStep(before, pool.free, |start|, Succeeded(i, os), Succeeded(i + 1, os), i, segsize, os, regions);
      } else {
        assert Succeeded(i + 1, os) == Succeeded(i, os);
      }
      i := i + 1;
    }
    assert Succeeded(i, os) == Succeeded(n, os);
  }

  /** One pass of the loop in create_n_segments: segment i is created and, when that succeeds, released to the pool. */
  method CreateOne(i: nat, segsize: SizeT, pool: SegmentPool, os: nat -> OsCalls, regions: nat -> Channel, region: Channel,
                   ghost objects: set<Channel>)
    requires pool.Valid() && region == regions(i)
    requires forall j: nat :: j <= i ==> regions(j) in objects
    modifies pool, region
    ensures pool.Valid()
    ensures !CreateSucceeds(os(i)) ==> pool.free == old(pool.free) && unchanged(region)
    ensures CreateSucceeds(os(i)) ==> region.Initialised() && region.Valid()
    ensures forall c :: c in objects ==> c.waiters == old(c.waiters)
    ensures (forall j: nat :: j < i && CreateSucceeds(os(j)) ==> old(regions(j).Initialised() && regions(j).Valid()))
            ==> forall j: nat :: j <= i && CreateSucceeds(os(j)) ==> regions(j).Initialised() && regions(j).Valid()
    ensures CreateSucceeds(os(i)) ==>
              |pool.free| == |old(pool.free)| + 1
              && (forall k :: 0 <= k < |old(pool.free)| ==> pool.free[k] == old(pool.free)[k])
              && fresh(pool.free[|old(pool.free)|]) && MadeFor(pool.free[|old(pool.free)|], i, segsize, os, regions)
  {
    var name := SegmentName(i);
    var seg := new Segment();
    var rc := seg.Create(name, segsize, os(i), region);
    if rc < 0 {
      return;
    }
    pool.Release(seg);
  }
}
