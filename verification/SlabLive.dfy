/** What the bitmaps and the kinds of the pages mean for the callers: the words of a bitmap say
    which chunks are free, and the regions handed out lie apart, inside the pool and off the
    bitmaps. */
module SlabLive {
  import opened Bits
  import opened SlabState
  import opened SlabOps

  // ---------- the three bitmap encodings ----------

  /** `map` of lines 204, 344 and 473. */
  function MapWords(shift: nat): nat {
    Count(shift) / WORD_BITS
  }

  function MapWord(W: seq<word>, x: nat, n: nat): word
    requires n < PAGE_WORDS && (x + 1) * PAGE_WORDS <= |W|
  {
    W[x * PAGE_WORDS + n]
  }

  /** `Bit` under a name that does not unfold, for use in quantifiers. */
  ghost predicate On(w: nat, i: nat) {
    Bit(w, i)
  }

  lemma FullBit(w: word, i: nat)
    requires w == BUSY && i < WORD_BITS
    ensures Bit(w, i)
  {
    Pow2Values();
    OnesBits(WORD_BITS, i);
  }

  lemma WordIsFull(w: word)
    ensures w == BUSY <==> forall i: nat :: i < WORD_BITS ==> On(w, i)
  {
    Pow2Values();
    if w == BUSY {
      forall i: nat | i < WORD_BITS ensures On(w, i) { FullBit(w, i); }
    } else {
      var i := SomeClear(w, WORD_BITS);
      assert !On(w, i);
    }
  }

  lemma WordFits(w: word, i: nat)
    requires i < WORD_BITS
    ensures SetBit(w, i) <= BUSY && ClearBit(w, i) <= BUSY
  {
    Pow2Values();
    SetBitFits(w, i, WORD_BITS);
  }

  /** The bitmap of a small page is full when all its words are. */
  lemma SmallFull(W: seq<word>, x: nat, shift: nat, busy: set<nat>)
    requires (x + 1) * PAGE_WORDS <= |W| && MIN_SHIFT <= shift < EXACT_SHIFT && BitmapOk(shift, W, x, shift, busy)
    ensures Full(Chunks(shift, busy)) <==> forall n: nat :: n < MapWords(shift) ==> MapWord(W, x, n) == BUSY
  {
    if Full(Chunks(shift, busy)) {
      forall n: nat | n < MapWords(shift) ensures MapWord(W, x, n) == BUSY {
        var w := W[x * PAGE_WORDS + n];
        forall i: nat | i < WORD_BITS ensures On(w, i) {
          var b := n * WORD_BITS + i;
          assert b / WORD_BITS == n && b % WORD_BITS == i && b < Count(shift);
          assert b < Reserved(shift) || b in busy;
          assert MapBit(shift, W, x, shift, b);
        }
        WordIsFull(w);
      }
    }
    if forall n: nat :: n < MapWords(shift) ==> MapWord(W, x, n) == BUSY {
      forall b: nat | Reserved(shift) <= b < Count(shift) ensures b in busy {
        assert b / WORD_BITS < MapWords(shift);
        FullBit(MapWord(W, x, b / WORD_BITS), b % WORD_BITS);
        assert MapBit(shift, W, x, shift, b);
      }
    }
  }

  lemma SmallSet(W: seq<word>, x: nat, shift: nat, busy: set<nat>, b: nat)
    requires (x + 1) * PAGE_WORDS <= |W| && MIN_SHIFT <= shift < EXACT_SHIFT && BitmapOk(shift, W, x, shift, busy)
    requires Reserved(shift) <= b < Count(shift)
    ensures b / WORD_BITS < MapWords(shift) <= PAGE_WORDS
    ensures var w := W[x * PAGE_WORDS + b / WORD_BITS];
      && SetBit(w, b % WORD_BITS) <= BUSY
      && BitmapOk(shift, W[x * PAGE_WORDS + b / WORD_BITS := SetBit(w, b % WORD_BITS)], x, shift, busy + {b})
  {
    var n, w := b / WORD_BITS, W[x * PAGE_WORDS + b / WORD_BITS];
    WordFits(w, b % WORD_BITS);
    var W' := W[x * PAGE_WORDS + n := SetBit(w, b % WORD_BITS)];
    forall c: nat | c < Count(shift) ensures MapBit(shift, W', x, shift, c) <==> c < Reserved(shift) || c in busy + {b} {
      assert MapBit(shift, W, x, shift, c) <==> c < Reserved(shift) || c in busy;
      SetBitAt(w, b % WORD_BITS, c % WORD_BITS);
    }
  }

  lemma SmallClear(W: seq<word>, x: nat, shift: nat, busy: set<nat>, b: nat)
    requires (x + 1) * PAGE_WORDS <= |W| && MIN_SHIFT <= shift < EXACT_SHIFT && BitmapOk(shift, W, x, shift, busy)
    requires Reserved(shift) <= b < Count(shift)
    ensures b / WORD_BITS < MapWords(shift) <= PAGE_WORDS
    ensures var w := W[x * PAGE_WORDS + b / WORD_BITS];
      && ClearBit(w, b % WORD_BITS) <= BUSY
      && BitmapOk(shift, W[x * PAGE_WORDS + b / WORD_BITS := ClearBit(w, b % WORD_BITS)], x, shift, busy - {b})
  {
    var n, w := b / WORD_BITS, W[x * PAGE_WORDS + b / WORD_BITS];
    WordFits(w, b % WORD_BITS);
    var W' := W[x * PAGE_WORDS + n := ClearBit(w, b % WORD_BITS)];
    forall c: nat | c < Count(shift) ensures MapBit(shift, W', x, shift, c) <==> c < Reserved(shift) || c in busy - {b} {
      assert MapBit(shift, W, x, shift, c) <==> c < Reserved(shift) || c in busy;
      ClearBitAt(w, b % WORD_BITS, c % WORD_BITS);
    }
  }

  /** `w & ~((1 << n) - 1)`. */
  function DropLow(w: nat, n: nat): (r: nat) {
    Half(w, n) * Pow2(n)
  }

  lemma {:induction false} HalfFits(w: nat, a: nat, b: nat)
    requires w < Pow2(a + b)
    ensures Half(w, a) < Pow2(b)
    decreases a
  {
    if a > 0 { HalfFits(w / 2, a - 1, b); }
  }

  lemma DropLowZero(w: word, n: nat)
    requires n <= WORD_BITS
    ensures DropLow(w, n) == 0 <==> forall i: nat :: n <= i < WORD_BITS ==> !On(w, i)
  {
    Pow2Values();
    HalfFits(w, n, WORD_BITS - n);
    hide Half;
    ProductZero(Half(w, n), Pow2(n));
    if Half(w, n) == 0 {
      forall i: nat | n <= i < WORD_BITS ensures !On(w, i) {
        BitAbove(w, n, i - n);
        ZeroBits(i - n);
      }
    } else {
      var i := SomeSet(Half(w, n), WORD_BITS - n);
      BitAbove(w, n, i);
      assert On(w, n + i);
    }
  }

  lemma ProductZero(a: nat, p: nat)
    requires p > 0
    ensures a * p == 0 <==> a == 0
  {
    if a > 0 { Order(0, a, p); }
  }

  lemma NoBits(w: word)
    ensures w == 0 <==> forall i: nat :: i < WORD_BITS ==> !On(w, i)
  {
    Pow2Values();
    if w != 0 {
      var i := SomeSet(w, WORD_BITS);
      assert On(w, i);
    } else {
      forall i: nat | i < WORD_BITS ensures !On(w, i) { ZeroBits(i); }
    }
  }

  /** The tests of lines 469-479: no bit but those of the bitmap's own chunks is set. */
  lemma SmallEmpty(W: seq<word>, x: nat, shift: nat, busy: set<nat>)
    requires (x + 1) * PAGE_WORDS <= |W| && MIN_SHIFT <= shift < EXACT_SHIFT && BitmapOk(shift, W, x, shift, busy)
    requires ChunksOk(Chunks(shift, busy))
    ensures busy == {} <==> DropLow(W[x * PAGE_WORDS], Reserved(shift)) == 0 && forall n: nat :: 1 <= n < MapWords(shift) ==> MapWord(W, x, n) == 0
  {
    hide DropLow, Bit;
    DropLowZero(W[x * PAGE_WORDS], Reserved(shift));
    if busy == {} {
      forall i: nat | Reserved(shift) <= i < WORD_BITS ensures !On(W[x * PAGE_WORDS], i) {
        assert !MapBit(shift, W, x, shift, i);
      }
      forall n: nat | 1 <= n < MapWords(shift) ensures MapWord(W, x, n) == 0 {
        forall i: nat | i < WORD_BITS ensures !On(MapWord(W, x, n), i) {
          var b := n * WORD_BITS + i;
          assert b / WORD_BITS == n && b % WORD_BITS == i && b < Count(shift);
          assert !MapBit(shift, W, x, shift, b);
        }
        NoBits(MapWord(W, x, n));
      }
    } else {
      var b :| b in busy;
      assert MapBit(shift, W, x, shift, b);
      if b < WORD_BITS {
        assert On(W[x * PAGE_WORDS], b);
      } else {
        NoBits(MapWord(W, x, b / WORD_BITS));
        assert On(MapWord(W, x, b / WORD_BITS), b % WORD_BITS);
        assert 1 <= b / WORD_BITS < MapWords(shift);
      }
    }
  }

  lemma ExactFull(slab: word, W: seq<word>, x: nat, busy: set<nat>)
    requires (x + 1) * PAGE_WORDS <= |W| && BitmapOk(slab, W, x, EXACT_SHIFT, busy) && ChunksOk(Chunks(EXACT_SHIFT, busy))
    ensures Full(Chunks(EXACT_SHIFT, busy)) <==> slab == BUSY
    ensures busy == {} <==> slab == 0
  {
    hide Bit;
    WordIsFull(slab);
    NoBits(slab);
    forall b: nat | b < WORD_BITS ensures On(slab, b) <==> b in busy {
      assert MapBit(slab, W, x, EXACT_SHIFT, b) <==> b in busy;
    }
    var k := Chunks(EXACT_SHIFT, busy);
    if slab != BUSY {
      var b: nat :| b < WORD_BITS && !On(slab, b);
      assert b !in k.busy;
    }
    if busy != {} {
      var b :| b in busy;
      assert On(slab, b);
    }
  }

  lemma ExactSet(slab: word, W: seq<word>, x: nat, busy: set<nat>, b: nat)
    requires (x + 1) * PAGE_WORDS <= |W| && b < WORD_BITS && BitmapOk(slab, W, x, EXACT_SHIFT, busy)
    ensures SetBit(slab, b) <= BUSY && BitmapOk(SetBit(slab, b), W, x, EXACT_SHIFT, busy + {b})
    ensures ClearBit(slab, b) <= BUSY && BitmapOk(ClearBit(slab, b), W, x, EXACT_SHIFT, busy - {b})
  {
    WordFits(slab, b);
    forall c: nat | c < WORD_BITS
      ensures MapBit(SetBit(slab, b), W, x, EXACT_SHIFT, c) <==> c in busy + {b}
      ensures MapBit(ClearBit(slab, b), W, x, EXACT_SHIFT, c) <==> c in busy - {b}
    {
      assert MapBit(slab, W, x, EXACT_SHIFT, c) <==> c in busy;
      SetBitAt(slab, b, c);
      ClearBitAt(slab, b, c);
    }
  }

  lemma BigFull(slab: word, W: seq<word>, x: nat, shift: nat, busy: set<nat>)
    requires (x + 1) * PAGE_WORDS <= |W| && EXACT_SHIFT < shift < PAGE_SHIFT && BitmapOk(slab, W, x, shift, busy) && ChunksOk(Chunks(shift, busy))
    ensures Full(Chunks(shift, busy)) <==> slab / UPPER == Pow2(Count(shift)) - 1
    ensures busy == {} <==> slab / UPPER == 0
  {
    var u, n := slab / UPPER, Count(shift);
    forall b: nat | b < n ensures Bit(u, b) <==> b in busy {
      assert MapBit(slab, W, x, shift, b) <==> b in busy;
      UpperBit(slab, b);
    }
    if u == Pow2(n) - 1 {
      forall b: nat | b < n ensures Bit(u, b) { OnesBits(n, b); }
    } else {
      var i := SomeClear(u, n);
    }
    if u != 0 {
      var i := SomeSet(u, n);
    } else if busy != {} {
      var b :| b in busy;
      ZeroBits(b);
    }
  }

  lemma BigSet(slab: word, W: seq<word>, x: nat, shift: nat, busy: set<nat>, b: nat)
    requires (x + 1) * PAGE_WORDS <= |W| && EXACT_SHIFT < shift < PAGE_SHIFT && b < Count(shift) && BitmapOk(slab, W, x, shift, busy)
    ensures SetBit(slab, 32 + b) <= BUSY && BitmapOk(SetBit(slab, 32 + b), W, x, shift, busy + {b})
    ensures ClearBit(slab, 32 + b) <= BUSY && BitmapOk(ClearBit(slab, 32 + b), W, x, shift, busy - {b})
  {
    WordFits(slab, 32 + b);
    UpperBit(slab, b);
    SetBitFits(slab / UPPER, b, Count(shift));
    forall c: nat | c < Count(shift)
      ensures MapBit(SetBit(slab, 32 + b), W, x, shift, c) <==> c in busy + {b}
      ensures MapBit(ClearBit(slab, 32 + b), W, x, shift, c) <==> c in busy - {b}
    {
      assert MapBit(slab, W, x, shift, c) <==> c in busy;
      SetBitAt(slab, 32 + b, 32 + c);
      ClearBitAt(slab, 32 + b, 32 + c);
    }
  }

  /** The first bitmaps, of lines 342-350, 363 and 376. */
  lemma FirstBitmap(W: seq<word>, x: nat, shift: nat)
    requires (x + 1) * PAGE_WORDS <= |W|
    ensures Pow2(Reserved(shift) + 1) - 1 <= BUSY && UPPER + shift % 16 <= BUSY
    ensures MIN_SHIFT <= shift < EXACT_SHIFT && W[x * PAGE_WORDS] == Pow2(Reserved(shift) + 1) - 1
      && (forall n: nat :: 1 <= n < MapWords(shift) ==> MapWord(W, x, n) == 0)
      ==> BitmapOk(shift, W, x, shift, {Reserved(shift)})
    ensures BitmapOk(1, W, x, EXACT_SHIFT, {0})
    ensures EXACT_SHIFT < shift < PAGE_SHIFT ==> BitmapOk(UPPER + shift, W, x, shift, {0})
  {
    assert Pow2(9) == 512 && Pow2(3) == 8 && Pow2(2) == 4 && Pow2(1) == 2;
    if MIN_SHIFT <= shift < EXACT_SHIFT && W[x * PAGE_WORDS] == Pow2(Reserved(shift) + 1) - 1
      && (forall n: nat :: 1 <= n < MapWords(shift) ==> MapWord(W, x, n) == 0)
    {
      forall b: nat | b < Count(shift) ensures MapBit(shift, W, x, shift, b) <==> b < Reserved(shift) || b in {Reserved(shift)} {
        if b < WORD_BITS {
          OnesBits(Reserved(shift) + 1, b);
        } else {
          assert MapWord(W, x, b / WORD_BITS) == 0;
          ZeroBits(b % WORD_BITS);
        }
      }
    }
    forall b: nat | b < WORD_BITS ensures MapBit(1, W, x, EXACT_SHIFT, b) <==> b in {0} {
      OnesBits(1, b);
    }
    if EXACT_SHIFT < shift < PAGE_SHIFT {
      var slab := UPPER + shift;
      forall b: nat | b < Count(shift) ensures MapBit(slab, W, x, shift, b) <==> b in {0} {
        UpperBit(slab, b);
        OnesBits(1, b);
      }
      assert 1 < Pow2(Count(shift));
    }
  }

  // ---------- the regions handed out ----------

  /** What is allocated on a page: a region at offset `off` from its start. */
  ghost predicate LiveIn(k: Kind, off: nat, size: nat) {
    match k
    case Free(_) => false
    case Rest(_) => false
    case Block(n) => off == 0 && size == n * PAGE
    case Chunks(shift, busy) => size == Size(shift) && off % Size(shift) == 0 && off / Size(shift) in busy
  }

  /** A region of `size` bytes at offset `at` of the pool is allocated. */
  ghost predicate LiveAt(K: seq<Kind>, at: nat, size: nat) {
    at / PAGE < |K| && LiveIn(K[at / PAGE], at % PAGE, size)
  }

  /** All chunks are of the sizes the pool has, and in the page. */
  ghost predicate KindsOk(K: seq<Kind>) {
    Tiled(K) && forall i: nat :: i < |K| && K[i].Chunks? ==> ChunksOk(K[i])
  }

  lemma InvKinds(s: State)
    requires Inv(s)
    ensures KindsOk(s.K)
  {
    forall i: nat | i < |s.K| && s.K[i].Chunks? ensures ChunksOk(s.K[i]) {
      assert PageOk(s, i);
    }
  }

  lemma SizeFacts(shift: nat)
    requires IsShift(shift)
    ensures Count(shift) * Size(shift) == PAGE && 0 < Size(shift) <= MAX_SIZE
    ensures Reserved(shift) < Count(shift)
    ensures Reserved(shift) * Size(shift) >= (if shift < EXACT_SHIFT then MapWords(shift) * 8 else 0)
  {
  }

  lemma Order(a: nat, b: nat, s: nat)
    requires a < b
    ensures a * s + s <= b * s
  {
    assert (a + 1) * s <= b * s;
  }

  lemma ChunkInPage(shift: nat, b: nat)
    requires IsShift(shift) && b < Count(shift)
    ensures b * Size(shift) + Size(shift) <= PAGE
  {
    SizeFacts(shift);
    Order(b, Count(shift), Size(shift));
  }

  lemma MultipleOf(off: nat, s: nat, b: nat)
    requires s > 0
    ensures off % s == 0 && off / s == b <==> off == b * s
  {
    if off == b * s {
      var q := off / s;
      if q != b { Order(if q < b then q else b, if q < b then b else q, s); }
    }
  }

  lemma LiveChunk(k: Kind, off: nat, size: nat)
    requires k.Chunks? && ChunksOk(k) && LiveIn(k, off, size)
    ensures size > 0 && off == off / size * size && Reserved(k.shift) <= off / size < Count(k.shift) && off + size <= PAGE
  {
    SizeFacts(k.shift);
    MultipleOf(off, size, off / size);
    ChunkInPage(k.shift, off / size);
  }

  lemma AlignedSum(x: nat, c: nat, b: nat, s: nat)
    requires s > 0 && c * s == PAGE
    ensures (x * PAGE + b * s) % s == 0
  {
    assert x * PAGE + b * s == (x * c + b) * s;
    MultipleOf(x * PAGE + b * s, s, x * c + b);
  }

  /** Live regions are inside the pool and aligned to their size, at most a page. */
  lemma LiveInside(K: seq<Kind>, at: nat, size: nat)
    requires KindsOk(K) && LiveAt(K, at, size)
    ensures size > 0 && at + size <= |K| * PAGE
    ensures at % (if size < PAGE then size else PAGE) == 0
  {
    var x, k := at / PAGE, K[at / PAGE];
    if k.Chunks? {
      LiveChunk(k, at % PAGE, size);
      SizeFacts(k.shift);
      AlignedSum(x, Count(k.shift), at % PAGE / size, size);
    } else {
      assert HeadOk(K, x);
    }
  }

  /** Live chunks lie after the bitmap of their page. */
  lemma LiveOffBitmap(K: seq<Kind>, at: nat, size: nat)
    requires KindsOk(K) && LiveAt(K, at, size) && K[at / PAGE].Chunks? && K[at / PAGE].shift < EXACT_SHIFT
    ensures at % PAGE >= 8 * MapWords(K[at / PAGE].shift)
  {
    var k := K[at / PAGE];
    LiveChunk(k, at % PAGE, size);
    SizeFacts(k.shift);
    assert at % PAGE / size * size >= Reserved(k.shift) * size;
  }

  /** Two live regions that start at different places do not overlap; a start has one region. */
  lemma LiveDisjoint(K: seq<Kind>, at: nat, size: nat, at': nat, size': nat)
    requires KindsOk(K) && LiveAt(K, at, size) && LiveAt(K, at', size') && at <= at'
    ensures at == at' ==> size == size'
    ensures at < at' ==> at + size <= at'
  {
    var x, y := at / PAGE, at' / PAGE;
    if K[x].Chunks? {
      LiveChunk(K[x], at % PAGE, size);
      if x == y {
        LiveChunk(K[x], at' % PAGE, size');
        var b, c := at % PAGE / size, at' % PAGE / size;
        if b != c { Order(if b < c then b else c, if b < c then c else b, size); }
      }
    } else {
      assert HeadOk(K, x);
    }
  }

  /** The pages of the runs from `i` on. */
  ghost function RunSum(K: seq<Kind>, i: nat): nat
    requires i <= |K|
    decreases |K| - i
  {
    if i == |K| then 0 else RunLen(K[i]) + RunSum(K, i + 1)
  }

  lemma {:induction false} RunsAreAll(K: seq<Kind>, i: nat, head: nat)
    requires Tiled(K) && head < i <= |K| && !K[head].Rest? && i <= head + RunLen(K[head])
    ensures RunSum(K, i) == |K| - (head + RunLen(K[head]))
    decreases |K| - i
  {
    assert HeadOk(K, head);
    if i == |K| {
    } else if i < head + RunLen(K[head]) {
      RunsAreAll(K, i + 1, head);
    } else {
      NextIsHead(K, i, head);
      assert HeadOk(K, i);
      RunsAreAll(K, i + 1, i);
    }
  }

  lemma NextIsHead(K: seq<Kind>, i: nat, head: nat)
    requires Tiled(K) && head < i < |K| && !K[head].Rest? && i == head + RunLen(K[head])
    ensures !K[i].Rest?
  {
    assert RestOk(K, i) && HeadOk(K, head);
    var j := if K[i].Rest? then K[i].head else head;
    assert HeadOk(K, j);
  }

  /** Free pages, allocated pages and pages of chunks add up to the pages of the pool. */
  lemma PagesConserved(K: seq<Kind>)
    requires Tiled(K)
    ensures RunSum(K, 0) == |K|
  {
    if K != [] {
      assert RestOk(K, 0) && HeadOk(K, 0);
      RunsAreAll(K, 1, 0);
    }
  }

  // ---------- how the operations change the live regions ----------

  /** Exactly the region at `at` is new. */
  ghost predicate Gains(K: seq<Kind>, K': seq<Kind>, at: nat, size: nat) {
    && (forall z: nat :: !LiveAt(K, at, z))
    && forall a: nat, z: nat :: LiveAt(K', a, z) <==> LiveAt(K, a, z) || (a == at && z == size)
  }

  /** Exactly the region at `at` is gone. */
  ghost predicate Loses(K: seq<Kind>, K': seq<Kind>, at: nat) {
    forall a: nat, z: nat :: LiveAt(K', a, z) <==> LiveAt(K, a, z) && a != at
  }

  /** Allocating and then freeing the result restores the set of live regions. */
  lemma AllocFreeRestores(K: seq<Kind>, K1: seq<Kind>, K2: seq<Kind>, at: nat, size: nat)
    requires Gains(K, K1, at, size) && Loses(K1, K2, at)
    ensures forall a: nat, z: nat :: LiveAt(K2, a, z) <==> LiveAt(K, a, z)
  {
  }

  lemma TakeGains(K: seq<Kind>, x: nat, n: nat)
    requires x < |K| && K[x].Free? && 1 <= n <= K[x].len && x + K[x].len <= |K| && HeadOk(K, x)
    ensures Gains(K, TakeK(K, x, n, K[x].len), x * PAGE, n * PAGE)
  {
  }

  lemma MarkGains(K: seq<Kind>, x: nat, b: nat)
    requires x < |K| && K[x].Chunks? && IsShift(K[x].shift) && b < Count(K[x].shift) && b !in K[x].busy
    ensures Gains(K, K[x := Marked(K[x], b)], x * PAGE + b * Size(K[x].shift), Size(K[x].shift))
  {
    var S, K' := Size(K[x].shift), K[x := Marked(K[x], b)];
    ChunkInPage(K[x].shift, b);
    SizeFacts(K[x].shift);
    forall off: nat, z: nat ensures LiveIn(K'[x], off, z) <==> LiveIn(K[x], off, z) || (off == b * S && z == S) {
      MultipleOf(off, S, b);
    }
    MultipleOf(b * S, S, b);
  }

  /** A free page cut into chunks, one of them handed out. */
  lemma OpenGains(K: seq<Kind>, x: nat, shift: nat)
    requires x < |K| && K[x].Free? && x + K[x].len <= |K| && 1 <= K[x].len && HeadOk(K, x) && IsShift(shift)
    ensures Gains(K, TakeK(K, x, 1, K[x].len)[x := Chunks(shift, {Reserved(shift)})], x * PAGE + Reserved(shift) * Size(shift), Size(shift))
  {
    var S, b, K' := Size(shift), Reserved(shift), TakeK(K, x, 1, K[x].len)[x := Chunks(shift, {Reserved(shift)})];
    SizeFacts(shift);
    ChunkInPage(shift, b);
    forall off: nat, z: nat ensures LiveIn(K'[x], off, z) <==> (off == b * S && z == S) {
      MultipleOf(off, S, b);
    }
  }

  lemma UnmarkLoses(K: seq<Kind>, x: nat, b: nat)
    requires x < |K| && K[x].Chunks? && IsShift(K[x].shift) && b < Count(K[x].shift)
    ensures Loses(K, K[x := Unmarked(K[x], b)], x * PAGE + b * Size(K[x].shift))
    ensures K[x].busy == {b} ==> Loses(K, K[x := Free(1)], x * PAGE + b * Size(K[x].shift))
  {
    var S := Size(K[x].shift);
    ChunkInPage(K[x].shift, b);
    SizeFacts(K[x].shift);
    forall off: nat, z: nat ensures LiveIn(Unmarked(K[x], b), off, z) <==> LiveIn(K[x], off, z) && off != b * S {
      MultipleOf(off, S, b);
    }
    if K[x].busy == {b} {
      forall off: nat, z: nat ensures LiveIn(K[x], off, z) ==> off == b * S {
        MultipleOf(off, S, b);
      }
    }
  }

  lemma ReleaseLoses(K: seq<Kind>, x: nat)
    requires x < |K| && K[x].Block?
    ensures Loses(K, K[x := Free(K[x].len)], x * PAGE)
  {
  }
}
