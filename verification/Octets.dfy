/** Bytes as numbers, and output that is written one element after the other. */
module Octets {

  type byte = b: nat | b < 256

  /** The first `n` elements of the output. */
  ghost predicate Holds<T>(dst: array<T>, n: nat, s: seq<T>)
    reads dst
  {
    n == |s| <= dst.Length && dst[..n] == s
  }

  method Put<T>(dst: array<T>, d: nat, c: T, ghost s: seq<T>)
    requires Holds(dst, d, s) && d < dst.Length
    modifies dst
    ensures Holds(dst, d + 1, s + [c])
  {
    dst[d] := c;
    assert dst[..d + 1] == dst[..d] + [c];
  }

  lemma Associative<T>(a: seq<T>, b: seq<T>, c: seq<T>)
    ensures (a + b) + c == a + (b + c)
  {
  }
}
