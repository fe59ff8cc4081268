/** Byte streams, the slices readers hand out, and Go's 64-bit addition. */
module Streams {

  type byte = x: int | 0 <= x < 256

  /** An unbounded sequence of bytes: what a pseudo-random source or a repeated pattern yields. */
  type Stream = nat -> byte

  const TWO_63 := 0x8000_0000_0000_0000

  type Int64 = x: int | -0x8000_0000_0000_0000 <= x < 0x8000_0000_0000_0000

  /** Addition of two int64 values, wrapping around as Go's does. */
  function Add64(a: Int64, b: Int64): (r: Int64)
    ensures -TWO_63 <= a + b < TWO_63 ==> r == a + b
    ensures (r - (a + b)) % (2 * TWO_63) == 0
  {
    if a + b >= TWO_63 then a + b - 2 * TWO_63
    else if a + b < -TWO_63 then a + b + 2 * TWO_63
    else a + b
  }

  /** The bytes of f at lo, ..., hi - 1. */
  function Slice(f: Stream, lo: nat, hi: nat): (s: seq<byte>)
    requires lo <= hi
    ensures |s| == hi - lo
    ensures forall i :: 0 <= i < hi - lo ==> s[i] == f(lo + i)
  {
    seq(hi - lo, i requires 0 <= i => f(lo + i))
  }

  lemma SliceAppend(f: Stream, a: nat, b: nat, c: nat)
    requires a <= b <= c
    ensures Slice(f, a, b) + Slice(f, b, c) == Slice(f, a, c)
  {
  }

  function Flatten(parts: seq<seq<byte>>): (s: seq<byte>)
  {
    if parts == [] then [] else Flatten(parts[..|parts| - 1]) + parts[|parts| - 1]
  }
}
