/**
 * The sequence of chunks the cache worker publishes for one file: each pread
 * of at most `max` bytes at the running offset becomes one chunk, flagged
 * last when it came back shorter than `(ssize_t)max`, and a read that returns
 * nothing becomes a zero-length last chunk.
 */
module ChunkStream {
  import opened CTypes

  /** One publication in the payload: `datalen` bytes of `data` and `is_last_chunk`. */
  datatype Chunk = Chunk(data: seq<Byte>, last: bool)

  /** What pread of `max` bytes at `off` returns for a regular file of `size` bytes. */
  function ReadLen(size: nat, off: nat, max: SizeT): (n: nat)
    requires off <= size
    ensures n <= max && n <= size - off
    ensures n == max || n == size - off
  {
    Min(max, size - off)
  }

  /** `is_last_chunk = (n < (ssize_t)max_chunk_size)`: a signed comparison. */
  predicate LastFlag(n: nat, max: SizeT)
    ensures LastFlag(n, max) <==> max <= LongMax && n < max
  {
    n < AsSigned(max)
  }

  /** The chunks the worker's read loop publishes from offset `off` on. */
  function Chunks(s: seq<Byte>, off: nat, max: SizeT): (cs: seq<Chunk>)
    requires off <= |s|
    ensures cs != [] && cs[|cs| - 1].last
    decreases |s| - off
  {
    var n := ReadLen(|s|, off, max);
    if n == 0 then [Chunk([], true)]
    else if LastFlag(n, max) then [Chunk(s[off..off + n], true)]
    else [Chunk(s[off..off + n], false)] + Chunks(s, off + n, max)
  }

  /** The bytes of a chunk sequence, in order. */
  function Concat(cs: seq<Chunk>): seq<Byte>
  {
    if cs == [] then [] else cs[0].data + Concat(cs[1..])
  }

  lemma ConcatCons(c: Chunk, cs: seq<Chunk>)
    ensures Concat([c] + cs) == c.data + Concat(cs)
  {
    assert ([c] + cs)[1..] == cs;
  }

  /** The chunks from `off` on, concatenated, are the file from `off` on. */
  ghost predicate Covers(s: seq<Byte>, off: nat, max: SizeT)
    requires off <= |s|
  {
    Concat(Chunks(s, off, max)) == s[off..]
  }

  /** With a positive maximum, concatenating the chunks reproduces the file from the offset on. */
  lemma {:induction false} ChunksCover(s: seq<Byte>, off: nat, max: SizeT)
    requires off <= |s| && 0 < max
    ensures Covers(s, off, max)
    decreases |s| - off
  {
    var n := ReadLen(|s|, off, max);
    if n == 0 || LastFlag(n, max) {
      CoverEnd(s, off, max);
    } else {
      ChunksCover(s, off + n, max);
      CoverStep(s, off, n, max);
    }
  }

  lemma CoverEnd(s: seq<Byte>, off: nat, max: SizeT)
    requires off <= |s| && 0 < max
    requires ReadLen(|s|, off, max) == 0 || LastFlag(ReadLen(|s|, off, max), max)
    ensures Covers(s, off, max)
  {
    var n := ReadLen(|s|, off, max);
    assert n == |s| - off;
    assert s[off..off + n] == s[off..];
    assert Chunks(s, off, max) == [Chunk(s[off..off + n], true)];
    ConcatCons(Chunk(s[off..off + n], true), []);
    assert s[off..off + n] == s[off..];
  }

  lemma CoverStep(s: seq<Byte>, off: nat, n: nat, max: SizeT)
    requires off <= |s|
    requires n == ReadLen(|s|, off, max)
    requires 0 < n
    requires !LastFlag(n, max)
    requires Covers(s, off + n, max)
    ensures Covers(s, off, max)
  {
    var c := Chunk(s[off..off + n], false);
    assert s[off..] == s[off..off + n] + s[off + n..];
    ConcatPrepend(Chunks(s, off, max), c, Chunks(s, off + n, max), s[off..], s[off + n..]);
  }

  lemma ConcatPrepend(cs: seq<Chunk>, c: Chunk, rest: seq<Chunk>, whole: seq<Byte>, tail: seq<Byte>)
    requires cs == [c] + rest && Concat(rest) == tail && whole == c.data + tail
    ensures Concat(cs) == whole
  {
    ConcatCons(c, rest);
  }

  /**
   * Every chunk holds at most `max` bytes, only the final chunk is flagged
   * last, only the final chunk can be empty, and when `max` fits a long every
   * chunk before the final one is a full `max`-byte chunk.
   */
  predicate WellShaped(cs: seq<Chunk>, max: SizeT)
  {
    && (forall i :: 0 <= i < |cs| ==> |cs[i].data| <= max)
    && (forall i :: 0 <= i < |cs| ==> (cs[i].last <==> i == |cs| - 1))
    && (forall i :: 0 <= i < |cs| - 1 ==> cs[i].data != [])
    && (max <= LongMax ==> forall i :: 0 <= i < |cs| - 1 ==> |cs[i].data| == max)
  }

  lemma {:induction false} ChunksShape(s: seq<Byte>, off: nat, max: SizeT)
    requires off <= |s|
    ensures WellShaped(Chunks(s, off, max), max)
    decreases |s| - off
  {
    var n := ReadLen(|s|, off, max);
    if n != 0 && !LastFlag(n, max) {
      ChunksShape(s, off + n, max);
      var c := Chunk(s[off..off + n], false);
      assert max <= LongMax ==> n == max;
      WellShapedCons(Chunks(s, off, max), c, Chunks(s, off + n, max), max);
    } else {
      WellShapedOne(Chunks(s, off, max), Chunk(s[off..off + n], true), max);
    }
  }

  lemma WellShapedOne(cs: seq<Chunk>, c: Chunk, max: SizeT)
    requires cs == [c] && c.last && |c.data| <= max
    ensures WellShaped(cs, max)
  {
  }

  lemma WellShapedCons(cs: seq<Chunk>, c: Chunk, rest: seq<Chunk>, max: SizeT)
    requires cs == [c] + rest
    requires WellShaped(rest, max) && rest != []
    requires !c.last && c.data != [] && |c.data| <= max
    requires max <= LongMax ==> |c.data| == max
    ensures WellShaped(cs, max)
  {
    forall i | 1 <= i < |cs|
      ensures cs[i] == rest[i - 1]
    {
    }
  }

  lemma DivStep(r: nat, m: nat)
    requires 0 < m <= r
    ensures (r - m) / m == r / m - 1 && (r - m) % m == r % m
  {
    var q, t := (r - m) / m, (r - m) % m;
    assert r - m == q * m + t && 0 <= t < m;
    assert r == (q + 1) * m + t;
    DivUnique(r, m, q + 1, t);
  }

  lemma DivUnique(r: nat, m: nat, q: int, t: int)
    requires 0 < m && r == q * m + t && 0 <= t < m
    ensures r / m == q && r % m == t
  {
    var q0, t0 := r / m, r % m;
    var d := q - q0;
    assert d * m == t0 - t by {
      assert q * m - q0 * m == t0 - t;
      assert d * m == q * m - q0 * m;
    }
    if d >= 1 {
      MulAtLeast(d, m);
    } else if d <= -1 {
      MulAtLeast(-d, m);
    }
  }

  lemma MulAtLeast(d: int, m: nat)
    requires d >= 1
    ensures d * m >= m
  {
    assert d * m == (d - 1) * m + m;
  }

  /**
   * For a maximum that is positive and fits a long, a file of `r` remaining
   * bytes is published as ⌊r / max⌋ full chunks followed by one last chunk of
   * `r % max` bytes, which is zero-length exactly when max divides r
   * (in particular for an empty file).
   */
  lemma {:induction false} ChunksCount(s: seq<Byte>, off: nat, max: SizeT)
    requires off <= |s| && 0 < max <= LongMax
    ensures var cs := Chunks(s, off, max);
            |cs| == (|s| - off) / max + 1 && |cs[|cs| - 1].data| == (|s| - off) % max
    decreases |s| - off
  {
    var r := |s| - off;
    var n := ReadLen(|s|, off, max);
    var cs := Chunks(s, off, max);
    assert AsSigned(max) == max;
    if n == 0 {
      assert r == 0 && cs == [Chunk([], true)];
      DivUnique(r, max, 0, 0);
    } else if LastFlag(n, max) {
      assert n == r && cs == [Chunk(s[off..off + n], true)];
      DivUnique(r, max, 0, r);
    } else {
      assert n == max;
      var rest := Chunks(s, off + n, max);
      assert cs == [Chunk(s[off..off + n], false)] + rest;
      ChunksCount(s, off + n, max);
      assert |cs| == |rest| + 1 && cs[|cs| - 1] == rest[|rest| - 1];
      DivStep(r, max);
    }
  }

  /** The last chunk is empty exactly when max divides the remaining size. */
  lemma LastChunkEmptyIffDivisible(s: seq<Byte>, off: nat, max: SizeT)
    requires off <= |s| && 0 < max <= LongMax
    ensures var cs := Chunks(s, off, max);
            cs[|cs| - 1].data == [] <==> (|s| - off) % max == 0
  {
    ChunksCount(s, off, max);
  }

  /** With a maximum of zero (segment size equal to the header) the only chunk is an empty last one. */
  lemma ZeroMaxGivesEmptyLast(s: seq<Byte>, off: nat)
    requires off <= |s|
    ensures Chunks(s, off, 0) == [Chunk([], true)]
  {
  }

  /**
   * A maximum above LONG_MAX turns negative in the signed comparison, so no
   * non-empty chunk is flagged last: the whole rest is one non-last chunk,
   * followed by an empty last one.
   */
  lemma HugeMaxNeverFlagsLast(s: seq<Byte>, off: nat, max: SizeT)
    requires off < |s| && |s| <= LongMax && LongMax < max
    ensures Chunks(s, off, max) == [Chunk(s[off..], false), Chunk([], true)]
  {
    assert AsSigned(max) < 0;
    assert ReadLen(|s|, off, max) == |s| - off;
    assert s[off..|s|] == s[off..];
    assert Chunks(s, |s|, max) == [Chunk([], true)];
  }

  /** The first chunk is empty exactly when nothing is left to read or the maximum is zero. */
  lemma FirstChunkEmpty(s: seq<Byte>, off: nat, max: SizeT)
    requires off <= |s|
    ensures Chunks(s, off, max)[0].data == [] <==> (off == |s| || max == 0)
  {
  }
}
