/** Machine words as numbers, with the bit operations that the bitmaps need. A single-bit
    `w | m` is `SetBit`, `w & ~m` is `ClearBit`, and the test `w & m` is `Bit`. */
module Bits {

  function Pow2(n: nat): (p: nat)
    ensures p > 0
  {
    if n == 0 then 1 else 2 * Pow2(n - 1)
  }

  const WORD_BITS: nat := 64
  const BUSY: nat := 0xffff_ffff_ffff_ffff
  type word = w: nat | w <= BUSY

  predicate Bit(w: nat, i: nat) {
    if i == 0 then w % 2 == 1 else Bit(w / 2, i - 1)
  }

  function SetBit(w: nat, i: nat): nat {
    if Bit(w, i) then w else w + Pow2(i)
  }

  lemma {:induction false} BitPow2(w: nat, i: nat)
    requires Bit(w, i)
    ensures w >= Pow2(i)
    decreases i
  {
    if i > 0 { BitPow2(w / 2, i - 1); }
  }

  function ClearBit(w: nat, i: nat): nat {
    if Bit(w, i) then (BitPow2(w, i); w - Pow2(i)) else w
  }

  lemma {:induction false} SetBitAt(w: nat, i: nat, j: nat)
    ensures Bit(SetBit(w, i), j) <==> i == j || Bit(w, j)
    decreases i
  {
    if !Bit(w, i) {
      if i == 0 {
        assert (w + 1) / 2 == w / 2;
      } else {
        assert (w + Pow2(i)) / 2 == w / 2 + Pow2(i - 1);
        if j > 0 { SetBitAt(w / 2, i - 1, j - 1); }
      }
    }
  }

  lemma {:induction false} ClearBitAt(w: nat, i: nat, j: nat)
    ensures Bit(ClearBit(w, i), j) <==> i != j && Bit(w, j)
    decreases i
  {
    if Bit(w, i) {
      BitPow2(w, i);
      if i == 0 {
        assert (w - 1) / 2 == w / 2;
      } else {
        BitPow2(w / 2, i - 1);
        assert (w - Pow2(i)) / 2 == w / 2 - Pow2(i - 1);
        if j > 0 { ClearBitAt(w / 2, i - 1, j - 1); }
      }
    }
  }

  lemma {:induction false} SetBitFits(w: nat, i: nat, n: nat)
    requires w < Pow2(n) && i < n
    ensures SetBit(w, i) < Pow2(n)
    decreases i
  {
    if i > 0 && !Bit(w, i) {
      SetBitFits(w / 2, i - 1, n - 1);
      assert (w + Pow2(i)) / 2 == w / 2 + Pow2(i - 1);
    }
  }

  /** The word of `n` ones. */
  lemma {:induction false} OnesBits(n: nat, i: nat)
    ensures Bit(Pow2(n) - 1, i) <==> i < n
    decreases n
  {
    if n == 0 { ZeroBits(i); }
    else {
      assert (Pow2(n) - 1) / 2 == Pow2(n - 1) - 1;
      if i > 0 { OnesBits(n - 1, i - 1); }
    }
  }

  lemma {:induction false} ZeroBits(i: nat)
    ensures !Bit(0, i)
    decreases i
  {
    if i > 0 { ZeroBits(i - 1); }
  }

  /** A word that is not all ones has a clear bit, and one that is not zero has a set bit. */
  lemma {:induction false} SomeClear(w: nat, n: nat) returns (i: nat)
    requires w < Pow2(n) && w != Pow2(n) - 1
    ensures i < n && !Bit(w, i)
    decreases n
  {
    if w % 2 == 0 { i := 0; }
    else {
      i := SomeClear(w / 2, n - 1);
      i := i + 1;
    }
  }

  lemma {:induction false} SomeSet(w: nat, n: nat) returns (i: nat)
    requires 0 < w < Pow2(n)
    ensures i < n && Bit(w, i)
    decreases n
  {
    if w % 2 == 1 { i := 0; }
    else {
      i := SomeSet(w / 2, n - 1);
      i := i + 1;
    }
  }

  /** `w >> k`. */
  function Half(w: nat, k: nat): (h: nat) {
    if k == 0 then w else Half(w / 2, k - 1)
  }

  lemma {:induction false} BitAbove(w: nat, k: nat, i: nat)
    ensures Bit(w, k + i) <==> Bit(Half(w, k), i)
    decreases k
  {
    if k > 0 { BitAbove(w / 2, k - 1, i); }
  }

  lemma {:induction false} HalfAdd(w: nat, a: nat, b: nat)
    ensures Half(w, a + b) == Half(Half(w, a), b)
    decreases a
  {
    if a > 0 { HalfAdd(w / 2, a - 1, b); }
  }

  lemma Half4(w: nat)
    ensures Half(w, 4) == w / 16
  {
    assert Half(w, 4) == Half(w / 2, 3) == Half(w / 2 / 2, 2) == Half(w / 2 / 2 / 2, 1) == w / 2 / 2 / 2 / 2;
  }

  lemma Half8(w: nat)
    ensures Half(w, 8) == w / 256
  {
    HalfAdd(w, 4, 4);
    Half4(w);
    Half4(w / 16);
  }

  const UPPER: nat := 0x1_0000_0000

  lemma Half32(w: nat)
    ensures Half(w, 32) == w / UPPER
  {
    HalfAdd(w, 8, 24);
    HalfAdd(Half(w, 8), 8, 16);
    HalfAdd(Half(Half(w, 8), 8), 8, 8);
    Half8(w);
    Half8(w / 256);
    Half8(w / 256 / 256);
    Half8(w / 256 / 256 / 256);
  }

  lemma Pow2Values()
    ensures Pow2(8) == 256 && Pow2(16) == 0x1_0000 && Pow2(32) == UPPER && Pow2(64) == BUSY + 1
  {
    assert Pow2(4) == 16;
    Pow2Add(4, 4);
    Pow2Add(8, 8);
    Pow2Add(16, 16);
    Pow2Add(32, 32);
  }

  /** The upper half of a word as a bitmap of its own. */
  lemma UpperBit(w: nat, b: nat)
    ensures Bit(w, 32 + b) <==> Bit(w / UPPER, b)
    ensures SetBit(w, 32 + b) / UPPER == SetBit(w / UPPER, b)
    ensures SetBit(w, 32 + b) % UPPER == w % UPPER
    ensures ClearBit(w, 32 + b) / UPPER == ClearBit(w / UPPER, b)
    ensures ClearBit(w, 32 + b) % UPPER == w % UPPER
  {
    BitAbove(w, 32, b);
    Half32(w);
    Pow2Add(32, b);
    Pow2Values();
    if Bit(w, 32 + b) { BitPow2(w, 32 + b); }
  }

  lemma {:induction false} Pow2Add(a: nat, b: nat)
    ensures Pow2(a + b) == Pow2(a) * Pow2(b)
    decreases a
  {
    if a > 0 { Pow2Add(a - 1, b); }
  }
}
