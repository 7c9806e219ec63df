/** Widths and string conventions of C that the cache transport depends on. */
module CTypes {

  /** One byte of file content. */
  type Byte = b: int | 0 <= b < 256

  /** 2^64: size_t arithmetic is taken modulo this value. */
  const SizeModulus: nat := 0x1_0000_0000_0000_0000

  /** A value of the 64-bit unsigned type size_t. */
  type SizeT = n: nat | n < SizeModulus

  /** The range of the 64-bit signed types long and ssize_t. */
  const LongMax: int := 0x7FFF_FFFF_FFFF_FFFF
  const LongMin: int := -0x8000_0000_0000_0000

  /** INT_MAX of the 32-bit type int. */
  const IntMax: int := 0x7FFF_FFFF

  function Min(a: int, b: int): int { if a <= b then a else b }

  /** size_t subtraction `a - b`, which wraps around below zero. */
  function SizeSub(a: SizeT, b: SizeT): (r: SizeT)
    ensures b <= a ==> r + b == a
    ensures b <= a <==> r <= a
  {
    if b <= a then a - b else a - b + SizeModulus
  }

  /** SizeSub is the unique size_t that added to `b` gives `a` modulo 2^64. */
  lemma SizeSubModular(a: SizeT, b: SizeT, r: SizeT)
    ensures r == SizeSub(a, b) <==> (r + b) % SizeModulus == a
  {
    if b > a && r == SizeSub(a, b) {
      assert r + b == a + SizeModulus;
    }
    if (r + b) % SizeModulus == a {
      assert r + b == a || r + b == a + SizeModulus;
    }
  }

  /** The cast `(ssize_t) m`: the same 64 bits read as a two's complement number. */
  function AsSigned(m: SizeT): (r: int)
    ensures LongMin <= r <= LongMax
    ensures r == m || r == m - SizeModulus
    ensures r < 0 <==> m > LongMax
    ensures m <= LongMax ==> r == m
  {
    if m <= LongMax then m else m - SizeModulus
  }

  /** The cast `(size_t) v` of a long. */
  function LongToSize(v: int): (r: SizeT)
    requires LongMin <= v <= LongMax
    ensures r == v || r == v + SizeModulus
    ensures 0 <= v ==> r == v
  {
    if 0 <= v then v else v + SizeModulus
  }

  /** The C string stored in a char buffer: every character before the first NUL. */
  function CString(s: string): (r: string)
    ensures |r| <= |s| && r == s[..|r|]
    ensures '\0' !in r
    ensures |r| < |s| ==> s[|r|] == '\0'
  {
    if s == [] || s[0] == '\0' then [] else [s[0]] + CString(s[1..])
  }

  /** What `snprintf` into an n-byte buffer keeps of a formatted string: at most n - 1 characters. */
  function Truncate(s: string, n: nat): (r: string)
    requires 0 < n
    ensures |r| < n && |r| <= |s| && r == s[..|r|]
    ensures |r| == Min(|s|, n - 1)
    ensures |s| < n ==> r == s
  {
    if |s| < n then s else s[..n - 1]
  }

  /** What `strncpy` into an n-byte field keeps of a C string: its first n characters. */
  function Field(s: string, n: nat): (r: string)
    ensures |r| == Min(|s|, n) && r == s[..|r|]
    ensures r == s <==> |s| <= n
  {
    if |s| <= n then s else s[..n]
  }

  lemma CStringOfNulFree(s: string)
    requires '\0' !in s
    ensures CString(s) == s
  {
  }
}
