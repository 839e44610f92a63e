/** The slab allocator of `ngx_slab.c` for 4096-byte pages and 64-bit words. Addresses are
    offsets from `pool->start`; the pages' descriptors, the slot heads and the free-list head
    share one index space, and a link is an index or `NIL`. */
module Slab {
  import opened Bits
  import opened SlabState
  import opened SlabOps
  import opened SlabLive

  const DESC_SIZE: nat := 24       // sizeof(ngx_slab_page_t)

  /** Pages for a request of at least half a page: lines 166-167. */
  function PagesFor(size: nat): nat {
    size / PAGE + if size % PAGE != 0 then 1 else 0
  }

  /** The bytes a request gets. */
  ghost function Granted(size: nat): nat {
    if size >= MAX_SIZE then PagesFor(size) * PAGE else Size(ShiftFor(size))
  }

  /** The smallest chunk size, as a shift, that holds `size` bytes. */
  ghost function ShiftFor(size: nat): nat {
    if size <= 8 then 3 else if size <= 16 then 4 else if size <= 32 then 5 else if size <= 64 then 6
    else if size <= 128 then 7 else if size <= 256 then 8 else if size <= 512 then 9 else if size <= 1024 then 10 else 11
  }

  /** The request can be met: a free run long enough, or a page of the size with a free chunk. */
  ghost predicate Room(K: seq<Kind>, size: nat) {
    if size >= MAX_SIZE then HasRun(K, PagesFor(size)) else HasChunk(K, ShiftFor(size)) || HasRun(K, 1)
  }

  ghost predicate HasRun(K: seq<Kind>, n: nat) {
    exists y: nat :: y < |K| && K[y].Free? && K[y].len >= n
  }

  ghost predicate HasChunk(K: seq<Kind>, shift: nat) {
    exists y: nat :: y < |K| && K[y].Chunks? && K[y].shift == shift && !Full(K[y])
  }

  lemma GrantedEnough(size: nat)
    ensures Granted(size) >= size && IsShift(ShiftFor(size))
    ensures size < MAX_SIZE ==> size <= Granted(size) && (Granted(size) < 2 * size || Granted(size) == 8)
    ensures size >= MAX_SIZE ==> Granted(size) < size + PAGE
  {
  }

  /** `for (m = 1, i = 0; m; m <<= 1, i++)` over a word that is not all ones. */
  method FirstClear(w: word) returns (i: nat)
    requires w != BUSY
    ensures i < WORD_BITS && !Bit(w, i) && forall j: nat :: j < i ==> On(w, j)
  {
    i := 0;
    WordIsFull(w);
    while i < WORD_BITS
      invariant i <= WORD_BITS && forall j: nat :: j < i ==> On(w, j)
    {
      if !Bit(w, i) { return; }
      i := i + 1;
    }
    assert false;
  }

  lemma {:induction false} HalfZero(w: nat, k: nat)
    ensures Half(w, k) == 0 <==> w < Pow2(k)
    decreases k
  {
    if k > 0 { HalfZero(w / 2, k - 1); }
  }

  lemma {:induction false} HalfStep(w: nat, k: nat)
    ensures Half(w, k + 1) == Half(w, k) / 2
    decreases k
  {
    if k > 0 { HalfStep(w / 2, k - 1); }
  }

  lemma {:induction false} Pow2Mono(a: nat, b: nat)
    ensures a <= b ==> Pow2(a) <= Pow2(b)
    decreases b
  {
    if a < b { Pow2Mono(a, b - 1); }
  }

  /** Lines 179-188: the shift of the smallest chunk size that holds `size` bytes. */
  method FindShift(size: nat) returns (shift: nat)
    requires size < MAX_SIZE
    ensures shift == ShiftFor(size)
  {
    if size > 8 {
      shift := 1;
      var s := (size - 1) / 2;
      while s != 0
        invariant shift >= 1 && s == Half(size - 1, shift) && Half(size - 1, shift - 1) > 0
        decreases s
      {
        HalfStep(size - 1, shift);
        s := s / 2;
        shift := shift + 1;
      }
      HalfZero(size - 1, shift);
      HalfZero(size - 1, shift - 1);
      assert Pow2(3) == 8 && Pow2(7) == 128 && Pow2(11) == 2048;
      Pow2Mono(11, shift - 1);
    } else {
      shift := MIN_SHIFT;
    }
  }

  /** Where the parts of a pool lie. */
  datatype Layout = Layout(slots: nat, table: nat, start: nat, count: nat)

  /** Lines 93-130. */
  function LayoutOf(pool: nat, header: nat, end: nat): Layout
    requires pool + header + 3 * (PAGE + DESC_SIZE) <= end
  {
    var p := pool + header;
    var table := p + SLOTS * DESC_SIZE;
    var n := (end - p) / (PAGE + DESC_SIZE);
    var start := (table + n * DESC_SIZE + PAGE - 1) / PAGE * PAGE;
    var m := n - (end - start) / PAGE;
    Layout(p, table, start, if m > 0 then n - m else n)
  }

  /** The slot heads, the descriptors and the pages follow one another without overlap up to the
      end of the pool; the pages are aligned, and alignment costs at most two of them. */
  lemma LayoutFits(pool: nat, header: nat, end: word)
    requires pool + header + 3 * (PAGE + DESC_SIZE) <= end
    ensures var l := LayoutOf(pool, header, end);
      && l.slots + SLOTS * DESC_SIZE <= l.table && l.table + l.count * DESC_SIZE <= l.start
      && l.start % PAGE == 0 && l.start + l.count * PAGE <= end
      && 1 <= l.count < PAGE_START && l.count + 2 >= (end - pool - header) / (PAGE + DESC_SIZE)
  {
  }

  function FirstDesc(n: nat, i: nat): Desc
    requires n < PAGE_START
  {
    if i == 0 then Desc(n, n + FREE, n + FREE, TAG_PAGE)
    else if i < n then Desc(0, NIL, NIL, TAG_PAGE)
    else if i < n + FREE then Desc(0, i, NIL, TAG_PAGE)
    else Desc(0, 0, NIL, TAG_PAGE)
  }

  function FirstDescs(n: nat): (D: seq<Desc>)
    requires n < PAGE_START
  {
    seq(n + RINGS, i requires 0 <= i => FirstDesc(n, i))
  }

  /** One free run of all pages. */
  ghost function OneRun(n: nat): seq<Kind> {
    seq(n, i => if i == 0 then Free(n) else Rest(0))
  }

  ghost function FirstRings(n: nat): (R: seq<seq<nat>>) {
    seq(RINGS, h requires 0 <= h => if h == FREE then [n + FREE, 0] else [n + h])
  }

  lemma FirstInv(n: nat, W: seq<word>)
    requires 1 <= n < PAGE_START && |W| == n * PAGE_WORDS
    ensures Inv(State(FirstDescs(n), W, OneRun(n), FirstRings(n)))
  {
    var s := State(FirstDescs(n), W, OneRun(n), FirstRings(n));
    forall i: nat | i < n ensures HeadOk(s.K, i) && RestOk(s.K, i) && PageOk(s, i) {
    }
    forall h: nat | h < RINGS ensures RingOk(s.D, s.R[h], n, h) {
      var r := s.R[h];
      forall i: nat | i < |r| ensures LinkedAt(s.D, r, i) {
      }
    }
    forall x: nat, h: nat | x < n && h < RINGS ensures x in s.R[h] <==> Belongs(s.K[x], h) {
      if x > 0 { assert s.K[x] == Rest(0); }
    }
  }

  class SlabPool {
    const count: nat
    const pages: array<Desc>
    const words: array<word>
    ghost var kinds: seq<Kind>
    ghost var rings: seq<seq<nat>>

    ghost function St(): State
      reads this, pages, words
    {
      State(pages[..], words[..], kinds, rings)
    }

    ghost predicate Valid()
      reads this, pages, words
    {
      pages.Length == count + RINGS && |kinds| == count && Inv(St())
    }

    // ---------- ngx_slab_init ----------

    /** Lines 91-130. The pool at address `pool` has a header of `header` bytes and ends at `end`;
        the zones that use it are at least eight pages long. */
    constructor (pool: nat, header: nat, end: word)
      requires pool + header + 3 * (PAGE + DESC_SIZE) <= end
      ensures Valid() && fresh(pages) && fresh(words)
      ensures count == LayoutOf(pool, header, end).count && kinds == OneRun(count)
    {
      var n := LayoutOf(pool, header, end).count;
      LayoutFits(pool, header, end);
      count := n;
      var d := new Desc[n + RINGS](i => FirstDesc(n, i));
      pages := d;
      words := new word[n * PAGE_WORDS](_ => 0);
      kinds := OneRun(n);
      rings := FirstRings(n);
      new;
      assert pages[..] == FirstDescs(n);
      FirstInv(n, words[..]);
    }

    // ---------- links ----------

    method SetNext(y: nat, next: int)
      requires y < pages.Length
      modifies pages
      ensures pages[..] == old(pages[..])[y := old(pages[y]).(next := next)]
    {
      pages[y] := pages[y].(next := next);
    }

    method SetSlab(y: nat, slab: word)
      requires y < pages.Length
      modifies pages
      ensures pages[..] == old(pages[..])[y := old(pages[y]).(slab := slab)]
    {
      pages[y] := pages[y].(slab := slab);
    }

    method SetDesc(y: nat, d: Desc)
      requires y < pages.Length
      modifies pages
      ensures pages[..] == old(pages[..])[y := d]
    {
      pages[y] := d;
    }

    method SetWord(n: nat, w: word)
      requires n < words.Length
      modifies words
      ensures words[..] == old(words[..])[n := w]
    {
      words[n] := w;
    }

    /** Lines 638-640, 684-686 and the first half of 230-236. */
    method UnlinkPage(x: nat)
      requires x < pages.Length && 0 <= pages[x].prev < pages.Length && 0 <= pages[x].next < pages.Length
      modifies pages
      ensures pages[..] == Unlink(old(pages[..]), x)
    {
      var prev, next, tag := pages[x].prev, pages[x].next, pages[x].tag;
      SetNext(prev, next);
      SetDesc(next, pages[next].(prev := prev, tag := tag));
    }

    /** Lines 454-458, 504-508, 543-547 and 689-694. */
    method PushPage(head: nat, x: nat, tag: nat)
      requires x < pages.Length && head < pages.Length && x != head && 0 <= pages[head].next < pages.Length
      modifies pages
      ensures pages[..] == Push(old(pages[..]), head, x, tag)
    {
      var next := pages[head].next;
      SetDesc(x, pages[x].(next := next, prev := head, tag := tag));
      SetDesc(next, pages[next].(prev := x, tag := tag));
      SetNext(head, x);
    }

    /** Lines 630-635. */
    method ReplacePage(x: nat, y: nat)
      requires x < pages.Length && y < pages.Length && 0 <= pages[x].prev < pages.Length && 0 <= pages[x].next < pages.Length
      requires x != y && pages[x].prev != x && pages[x].next != x
      modifies pages
      ensures pages[..] == Swap(old(pages[..]), x, y)
    {
      var prev, next, tag := pages[x].prev, pages[x].next, pages[x].tag;
      SetDesc(y, pages[y].(next := next, prev := prev, tag := tag));
      SetNext(prev, y);
      SetDesc(next, pages[next].(prev := y, tag := TAG_PAGE));
    }

    // ---------- ngx_slab_alloc_pages ----------

    /** First fit on the free list. */
    method AllocPages(n: nat) returns (x: int, ghost k: nat)
      requires Valid() && 1 <= n
      modifies this`kinds, this`rings, pages
      ensures Valid()
      ensures x == NIL ==> St() == old(St()) && !HasRun(kinds, n)
      ensures x != NIL ==> CanTake(old(St()), k, n) && x == old(rings)[FREE][k] && St() == Take(old(St()), k, n)
      ensures x != NIL ==> forall j :: 1 <= j < k ==> TooShort(old(kinds), old(rings)[FREE], j, n)
    {
      ghost var s, r := St(), rings[FREE];
      HeadNext(s.D, s.R, count, FREE);
      var page := pages[count + FREE].next;
      k := 1;
      while page != count + FREE && pages[page].slab < n
        invariant 1 <= k <= |r| && page == Around(r, k) && (page == count + FREE || 0 <= page < pages.Length)
        invariant forall j :: 1 <= j < k ==> TooShort(s.K, r, j, n)
        decreases |r| - k
        modifies {}
      {
        FreeStep(s, k);
        page := pages[page].next;
        k := k + 1;
      }
      if page != count + FREE {
        FreeStep(s, k);
        x := page;
        TakeRunAt(page, n, k);
      } else {
        NoRun(s, k, n);
        x := NIL;
      }
    }

    // ---------- lines 628-658 ----------

    method TakeRunAt(x: nat, n: nat, ghost k: nat)
      requires Valid() && CanTake(St(), k, n) && x == rings[FREE][k]
      modifies this`kinds, this`rings, pages
      ensures Valid() && St() == Take(old(St()), k, n)
    {
      ghost var s := St();
      FreeFacts(s, k);
      ghost var len := kinds[x].len;
      TakeInv(s, k, n);
      LinksApart(s, FREE, k);
      hide RingOk, Tiled, PagesOk, MembersOk, TakeRun, TakeLinks;
      TakeLinksAt(x, n, len);
      MarkRun(x, n);
      kinds := TakeK(kinds, x, n, len);
      rings := TakeR(rings, k, n, len);
    }

    /** Lines 628-641. */
    method TakeLinksAt(x: nat, n: nat, ghost len: nat)
      requires 1 <= n <= len < PAGE_START && x + len <= pages.Length && pages[x].slab == len
      requires 0 <= pages[x].prev < pages.Length && 0 <= pages[x].next < pages.Length && pages[x].prev != x && pages[x].next != x
      modifies pages
      ensures pages[..] == TakeLinks(old(pages[..]), x, n, len)
    {
      if pages[x].slab > n {
        SetSlab(x + n, pages[x].slab - n);
        hide Swap, Unlink;
        ReplacePage(x, x + n);
      } else {
        UnlinkPage(x);
      }
    }

    /** Lines 643-656. */
    method MarkRun(x: nat, n: nat)
      requires 1 <= n < PAGE_START && x + n <= pages.Length
      modifies pages
      ensures pages[..] == TakeRun(old(pages[..]), x, n)
    {
      pages[x] := Desc(n + PAGE_START, NIL, NIL, TAG_PAGE);
      var p := x + 1;
      while p < x + n
        invariant x < p <= x + n
        invariant forall j :: 0 <= j < pages.Length ==> pages[j] == if j == x then Desc(n + PAGE_START, NIL, NIL, TAG_PAGE)
                    else if x < j < p then Desc(BUSY, NIL, NIL, TAG_PAGE) else old(pages[j])
      {
        pages[p] := Desc(BUSY, NIL, NIL, TAG_PAGE);
        p := p + 1;
      }
    }

    // ---------- a chunk of a page on a slot list ----------

    /** Page `x` holds chunks of `Size(shift)` and has a free one. */
    ghost predicate HasFree(x: nat, shift: nat)
      reads this, pages, words
    {
      Valid() && x < count && kinds[x].Chunks? && kinds[x].shift == shift && !Full(kinds[x])
    }

    /** Lines 230-236, 263-269, 305-311: the bitmap of page `x` has the bit of chunk `b` set; when
        it is full now, the page leaves its list. */
    method Settle(x: nat, b: nat, full: bool, ghost s: State, ghost slab: word)
      requires s.K == kinds && s.R == rings && |kinds| == count && pages.Length == count + RINGS
      requires CanMark(s, x, b, slab, words[..]) && pages[..] == s.D[x := s.D[x].(slab := slab)]
      requires full <==> Full(Marked(s.K[x], b))
      modifies this`kinds, this`rings, pages
      ensures Valid() && kinds == s.K[x := Marked(s.K[x], b)]
    {
      ChunkFacts(s, x);
      ghost var h := s.K[x].shift - MIN_SHIFT;
      ghost var k;
      assert b !in s.K[x].busy && !Full(s.K[x]);
      k := OnRing(s, x, h);
      if full {
        MarkFullInv(s, x, b, slab, words[..], k);
        hide Inv, RingsOk, Unlink, CanMark;
        LeaveList(x);
        kinds, rings := kinds[x := Marked(kinds[x], b)], rings[h := Cut(rings[h], k)];
      } else {
        MarkStayInv(s, x, b, slab, words[..]);
        hide Inv, RingsOk, CanMark;
        kinds := kinds[x := Marked(kinds[x], b)];
      }
    }

    method LeaveList(x: nat)
      requires x < pages.Length && 0 <= pages[x].prev < pages.Length && 0 <= pages[x].next < pages.Length
      requires pages[x].prev != x && pages[x].next != x
      modifies pages
      ensures pages[..] == Unlink(old(pages[..]), x)[x := Desc(old(pages[x]).slab, NIL, NIL, old(pages[x]).tag)]
    {
      UnlinkPage(x);
      SetDesc(x, Desc(pages[x].slab, NIL, NIL, pages[x].tag));
    }

    /** Lines 207-214: the first clear bit of the bitmap of a small page. */
    method FindSmall(x: nat, shift: nat) returns (n: nat, i: nat)
      requires HasFree(x, shift) && MIN_SHIFT <= shift < EXACT_SHIFT
      ensures n < MapWords(shift) && i < WORD_BITS && (x + 1) * PAGE_WORDS <= words.Length
      ensures !Bit(words[x * PAGE_WORDS + n], i) && words[x * PAGE_WORDS + n] < BUSY
      ensures forall j: nat :: j < n ==> MapWord(words[..], x, j) == BUSY
    {
      WordsNotFull(St(), x, shift);
      hide Inv, Full, Bit;
      var mapWords := MapWords(shift);
      n := FullWords(x, 0, mapWords);
      i := FirstClear(words[x * PAGE_WORDS + n]);
    }

    /** The loops of lines 207 and 222: the first word from `n` on that is not full, if any. */
    method FullWords(x: nat, n: nat, mapWords: nat) returns (m: nat)
      requires n <= mapWords <= PAGE_WORDS && (x + 1) * PAGE_WORDS <= words.Length
      ensures n <= m <= mapWords && (forall j: nat :: n <= j < m ==> MapWord(words[..], x, j) == BUSY)
      ensures m < mapWords ==> MapWord(words[..], x, m) != BUSY
    {
      m := n;
      while m < mapWords && words[x * PAGE_WORDS + m] == BUSY
        invariant n <= m <= mapWords && forall j: nat :: n <= j < m ==> MapWord(words[..], x, j) == BUSY
      {
        m := m + 1;
      }
    }

    /** Lines 200-248. The page is the first of its slot list, so it has a free chunk and the loop
        over the further pages of the list never goes round. */
    method TakeSmall(x: nat, shift: nat) returns (b: nat)
      requires HasFree(x, shift) && MIN_SHIFT <= shift < EXACT_SHIFT
      modifies this`kinds, this`rings, pages, words
      ensures Valid() && Reserved(shift) <= b < Count(shift) && b !in old(kinds)[x].busy
      ensures kinds == old(kinds)[x := Marked(old(kinds)[x], b)]
    {
      ghost var s, busy := St(), kinds[x].busy;
      ChunkFacts(s, x);
      var n, i := FindSmall(x, shift);
      b := n * WORD_BITS + i;
      assert b / WORD_BITS == n && b % WORD_BITS == i && b < Count(shift);
      ClearChunk(s, x, shift, b);
      SmallSet(s.W, x, shift, busy, b);
      hide Inv, BitmapOk, SetBit, Bit, Full;
      var at := x * PAGE_WORDS + n;
      SetWord(at, SetBit(words[at], i));
      SmallFull(words[..], x, shift, busy + {b});
      var full := words[at] == BUSY;
      if full {
        var m := FullWords(x, n + 1, MapWords(shift));
        full := m == MapWords(shift);
      }
      FullAfter(s.W, words[..], x, n, shift, full);
      assert s.D[x := s.D[x].(slab := shift)] == s.D;
      Settle(x, b, full, s, shift);
    }

    /** Lines 252-282. */
    method TakeExact(x: nat) returns (b: nat)
      requires HasFree(x, EXACT_SHIFT)
      modifies this`kinds, this`rings, pages
      ensures Valid() && Reserved(EXACT_SHIFT) <= b < Count(EXACT_SHIFT) && b !in old(kinds)[x].busy
      ensures kinds == old(kinds)[x := Marked(old(kinds)[x], b)]
    {
      ghost var s, busy := St(), kinds[x].busy;
      ChunkFacts(s, x);
      ExactFull(pages[x].slab, s.W, x, busy);
      b := FirstClear(pages[x].slab);
      assert !MapBit(pages[x].slab, s.W, x, EXACT_SHIFT, b);
      ExactSet(pages[x].slab, s.W, x, busy, b);
      SetSlab(x, SetBit(pages[x].slab, b));
      ExactFull(pages[x].slab, s.W, x, busy + {b});
      Settle(x, b, pages[x].slab == BUSY, s, pages[x].slab);
    }

    /** Lines 294-300. */
    method FindBig(x: nat, shift: nat) returns (b: nat)
      requires HasFree(x, shift) && EXACT_SHIFT < shift < PAGE_SHIFT
      ensures b < Count(shift) && b !in kinds[x].busy && x < pages.Length
    {
      ghost var s, busy := St(), kinds[x].busy;
      ChunkFacts(s, x);
      var n := Count(shift);
      b := 0;
      while b < n && Bit(pages[x].slab, 32 + b)
        invariant b <= n && forall j: nat :: j < b ==> MapBit(s.D[x].slab, s.W, x, shift, j)
      {
        b := b + 1;
      }
      NotAll(s, x, b);
      assert !MapBit(s.D[x].slab, s.W, x, shift, b);
    }

    /** Lines 286-324; `mask` is the upper half of the word of lines 286-289. */
    method TakeBig(x: nat, shift: nat) returns (b: nat)
      requires HasFree(x, shift) && EXACT_SHIFT < shift < PAGE_SHIFT
      modifies this`kinds, this`rings, pages
      ensures Valid() && Reserved(shift) <= b < Count(shift) && b !in old(kinds)[x].busy
      ensures kinds == old(kinds)[x := Marked(old(kinds)[x], b)]
    {
      ghost var s, busy := St(), kinds[x].busy;
      ChunkFacts(s, x);
      LowShift(pages[x].slab, shift);
      var mask := Pow2(Count(pages[x].slab % 16)) - 1;
      b := FindBig(x, shift);
      BigSet(pages[x].slab, s.W, x, shift, busy, b);
      hide Inv, BitmapOk, SetBit, Bit, Full, Pow2;
      SetSlab(x, SetBit(pages[x].slab, 32 + b));
      BigFull(pages[x].slab, s.W, x, shift, busy + {b});
      Settle(x, b, pages[x].slab / UPPER == mask, s, pages[x].slab);
    }

    /** Lines 196-326: the first page of the slot list. */
    method TakeChunk(x: nat, shift: nat) returns (p: nat)
      requires HasFree(x, shift) && IsShift(shift)
      modifies this`kinds, this`rings, pages, words
      ensures Valid() && Gains(old(kinds), kinds, p, Size(shift))
    {
      var b;
      if shift < EXACT_SHIFT {
        b := TakeSmall(x, shift);
      } else if shift == EXACT_SHIFT {
        b := TakeExact(x);
      } else {
        b := TakeBig(x, shift);
      }
      MarkGains(old(kinds), x, b);
      p := x * PAGE + b * Size(shift);
    }

    // ---------- a new page for a size ----------

    /** Lines 330-386, after page `x` was handed out. */
    method OpenPage(x: nat, shift: nat) returns (p: nat)
      requires Valid() && x < count && kinds[x] == Block(1) && IsShift(shift) && |rings[shift - MIN_SHIFT]| == 1
      modifies this`kinds, this`rings, pages, words
      ensures Valid() && kinds == old(kinds)[x := Chunks(shift, {Reserved(shift)})]
      ensures p == x * PAGE + Reserved(shift) * Size(shift)
    {
      ghost var s := St();
      var head := count + shift - MIN_SHIFT;
      var slab, n := FirstWords(x, shift);
      p := x * PAGE + Size(shift) * n;
      OpenInv(s, x, shift, slab, words[..]);
      hide Inv, BitmapOk, CanOpen;
      SetDesc(x, Desc(slab, head, head, TagOf(shift)));
      SetNext(head, x);
      kinds, rings := kinds[x := Chunks(shift, {Reserved(shift)})], rings[shift - MIN_SHIFT := Pushed(rings[shift - MIN_SHIFT], x)];
    }

    /** The first bitmap of page `x`; `n` chunks hold it. */
    method FirstWords(x: nat, shift: nat) returns (slab: word, n: nat)
      requires (x + 1) * PAGE_WORDS <= words.Length && IsShift(shift)
      modifies words
      ensures OnlyPage(old(words[..]), words[..], x) && BitmapOk(slab, words[..], x, shift, {Reserved(shift)})
      ensures n == Reserved(shift)
    {
      hide BitmapOk;
      slab, n := shift, 0;
      if shift < EXACT_SHIFT {
        n := Count(shift) / 8 / Size(shift);
        if n == 0 { n := 1; }
        FirstBitmap(words[..], x, shift);
        FirstMap(x, shift, n);
      } else if shift == EXACT_SHIFT {
        slab := 1;
      } else {
        FirstBitmap(words[..], x, shift);
        slab := UPPER + shift;
      }
      FirstBitmap(words[..], x, shift);
    }

    /** Lines 342-348; `2 << n` is `Pow2(n + 1)`. */
    method FirstMap(x: nat, shift: nat, n: nat)
      requires (x + 1) * PAGE_WORDS <= words.Length && MIN_SHIFT <= shift < EXACT_SHIFT && Pow2(n + 1) - 1 <= BUSY
      modifies words
      ensures OnlyPage(old(words[..]), words[..], x)
      ensures words[x * PAGE_WORDS] == Pow2(n + 1) - 1
      ensures forall i: nat :: 1 <= i < MapWords(shift) ==> MapWord(words[..], x, i) == 0
    {
      words[x * PAGE_WORDS] := Pow2(n + 1) - 1;
      var i := 1;
      while i < MapWords(shift)
        invariant 1 <= i <= MapWords(shift) && OnlyPage(old(words[..]), words[..], x)
        invariant words[x * PAGE_WORDS] == Pow2(n + 1) - 1
        invariant forall j: nat :: 1 <= j < i ==> MapWord(words[..], x, j) == 0
      {
        ghost var W := words[..];
        words[x * PAGE_WORDS + i] := 0;
        forall j: nat | 1 <= j <= i ensures MapWord(words[..], x, j) == 0 {
          assert j < i ==> MapWord(W, x, j) == 0;
        }
        i := i + 1;
      }
    }

    // ---------- ngx_slab_alloc_locked ----------

    /** A request is met exactly when there is room, and then one new region, disjoint from the
        others and at least as long as requested, is live. */
    method AllocLocked(size: word) returns (p: int)
      requires Valid()
      modifies this`kinds, this`rings, pages, words
      ensures Valid()
      ensures p == NIL <==> !Room(old(kinds), size)
      ensures p == NIL ==> kinds == old(kinds)
      ensures p != NIL ==> 0 <= p && Gains(old(kinds), kinds, p, Granted(size)) && Granted(size) >= size
    {
      GrantedEnough(size);
      if size >= MAX_SIZE {
        var x, k := AllocPages(PagesFor(size));
        if x != NIL {
          TookRun(old(St()), k, PagesFor(size));
          p := x * PAGE;
        } else {
          p := NIL;
        }
      } else {
        var shift := FindShift(size);
        p := AllocOf(shift);
      }
    }

    /** Lines 193-389 for a chunk size. */
    method AllocOf(shift: nat) returns (p: int)
      requires Valid() && IsShift(shift)
      modifies this`kinds, this`rings, pages, words
      ensures Valid()
      ensures p == NIL <==> !(HasChunk(old(kinds), shift) || HasRun(old(kinds), 1))
      ensures p == NIL ==> kinds == old(kinds)
      ensures p != NIL ==> 0 <= p && Gains(old(kinds), kinds, p, Size(shift))
    {
      var slot := shift - MIN_SHIFT;
      var page := pages[count + slot].next;
      SlotPage(St(), slot);
      hide Inv, Gains, HasRun, HasChunk;
      if pages[page].next != page {
        p := TakeChunk(page, shift);
      } else {
        var x, k := AllocPages(1);
        if x != NIL {
          TookRun(old(St()), k, 1);
          TookSlots(old(St()), k, 1);
          p := OpenPage(x, shift);
          OpenGains(old(kinds), x, shift);
        } else {
          p := NIL;
        }
      }
    }

    // ---------- ngx_slab_free_locked ----------

    /** Lines 449-461, 499-511, 538-550: the bit of chunk `b` is clear in `slab` and the words; a
        page that was full goes back on its list first. */
    method Relist(x: nat, shift: nat)
      requires Valid() && x < count && kinds[x].Chunks? && kinds[x].shift == shift && Full(kinds[x]) && IsShift(shift)
      modifies pages
      ensures 0 <= old(pages[count + shift - MIN_SHIFT].next) < pages.Length
      ensures pages[..] == Push(old(pages[..]), count + shift - MIN_SHIFT, x, TagOf(shift))
      ensures pages[x].slab == old(pages[x].slab)
    {
      ghost var s, h := St(), shift - MIN_SHIFT;
      HeadNext(s.D, s.R, count, h);
      OffRings(s, x);
      RingsPush(s.D, s.R, count, h, x);
      hide Inv;
      PushPage(count + shift - MIN_SHIFT, x, TagOf(shift));
    }

    /** The ghost side of giving chunk `b` back, once descriptors and words are written. */
    ghost method Unmark(x: nat, b: nat, s: State, slab: word)
      requires s.K == kinds && s.R == rings && |kinds| == count && pages.Length == count + RINGS
      requires CanUnmark(s, x, b, slab, words[..])
      requires Full(s.K[x]) ==> CanReopen(s, x, b, slab, words[..]) && pages[..] == UnmarkFull(s, x, b, slab, words[..]).D
      requires !Full(s.K[x]) ==> pages[..] == UnmarkStay(s, x, b, slab, words[..]).D
      modifies this`kinds, this`rings
      ensures Valid() && kinds == s.K[x := Unmarked(s.K[x], b)]
    {
      if Full(s.K[x]) {
        UnmarkFullInv(s, x, b, slab, words[..]);
        hide Inv;
        var h := kinds[x].shift - MIN_SHIFT;
        kinds, rings := kinds[x := Unmarked(kinds[x], b)], rings[h := Pushed(rings[h], x)];
      } else {
        UnmarkStayInv(s, x, b, slab, words[..]);
        hide Inv;
        kinds := kinds[x := Unmarked(kinds[x], b)];
      }
    }

    /** `ngx_slab_free_pages`. */
    method FreePages(x: nat, n: nat)
      requires Valid() && CanRelease(St(), x) && n == RunLen(kinds[x])
      modifies this`kinds, this`rings, pages
      ensures Valid() && kinds == old(kinds)[x := Free(n)]
    {
      ghost var s := St();
      if pages[x].next != NIL {
        ReleaseListed(x, n);
      } else {
        FreeIsBlock(s, x);
        BlockFacts(s, x);
        ReleaseBlockInv(s, x);
        HeadNext(s.D, s.R, count, FREE);
        hide Inv, PagesOk, RingsOk, Push;
        ZeroRun(x, n);
        PushPage(count + FREE, x, TAG_PAGE);
        kinds, rings := kinds[x := Free(n)], rings[FREE := Pushed(rings[FREE], x)];
      }
    }

    /** Lines 677-695 for a page that is on a slot list. */
    method ReleaseListed(x: nat, n: nat)
      requires Valid() && CanRelease(St(), x) && n == RunLen(kinds[x]) && pages[x].next != NIL
      modifies this`kinds, this`rings, pages
      ensures Valid() && kinds == old(kinds)[x := Free(n)]
    {
      ghost var s := St();
      FreeIsBlock(s, x);
      ghost var k := EmptyPage(s, x);
      ghost var h := kinds[x].shift - MIN_SHIFT;
      ClosedRings(s, x, k);
      ReleaseChunksInv(s, x, k);
      hide Inv, PagesOk, RingsOk, Push, Unlink;
      ZeroRun(x, n);
      assert pages[..] == s.D[x := s.D[x].(slab := 1)];
      UnlinkPage(x);
      PushPage(count + FREE, x, TAG_PAGE);
      ghost var R1 := rings[h := Cut(rings[h], k)];
      kinds, rings := kinds[x := Free(1)], R1[FREE := Pushed(R1[FREE], x)];
    }

    /** Lines 677-681. */
    method ZeroRun(x: nat, n: nat)
      requires 1 <= n < PAGE_START && x + n <= pages.Length
      modifies pages
      ensures pages[..] == Zeroed(old(pages[..]), x, n)
    {
      pages[x] := pages[x].(slab := n);
      var p := x + 1;
      while p < x + n
        invariant x < p <= x + n
        invariant forall j :: 0 <= j < pages.Length ==> pages[j] == if j == x then old(pages[j]).(slab := n)
                    else if x < j < p then Desc(0, NIL, NIL, TAG_PAGE) else old(pages[j])
      {
        pages[p] := Desc(0, NIL, NIL, TAG_PAGE);
        p := p + 1;
      }
    }

    /** What `Free` does to a page of chunks: chunk `b` is free, and the page too if it was the last. */
    ghost function Dropped(k: Kind, b: nat): Kind
      requires k.Chunks?
    {
      if k.busy == {b} then Free(1) else Unmarked(k, b)
    }

    /** Lines 441-483. */
    method FreeSmall(x: nat, b: nat, shift: nat)
      requires Valid() && x < count && kinds[x].Chunks? && kinds[x].shift == shift < EXACT_SHIFT && b in kinds[x].busy
      modifies this`kinds, this`rings, pages, words
      ensures Valid() && kinds == old(kinds)[x := Dropped(old(kinds)[x], b)]
    {
      ClearSmall(x, b, shift);
      ghost var busy := kinds[x].busy;
      ChunkFacts(St(), x);
      SmallEmpty(words[..], x, shift, busy);
      var n := Count(shift) / 8 / Size(shift);
      if n == 0 { n := 1; }
      if DropLow(words[x * PAGE_WORDS], n) == 0 {
        var m := ZeroWords(x, MapWords(shift));
        if m == MapWords(shift) {
          FreePages(x, 1);
        }
      }
    }

    /** Lines 475-479. */
    method ZeroWords(x: nat, mapWords: nat) returns (m: nat)
      requires 1 <= mapWords <= PAGE_WORDS && (x + 1) * PAGE_WORDS <= words.Length
      ensures 1 <= m <= mapWords && (forall j: nat :: 1 <= j < m ==> MapWord(words[..], x, j) == 0)
      ensures m < mapWords ==> MapWord(words[..], x, m) != 0
    {
      m := 1;
      while m < mapWords && words[x * PAGE_WORDS + m] == 0
        invariant 1 <= m <= mapWords && forall j: nat :: 1 <= j < m ==> MapWord(words[..], x, j) == 0
      {
        m := m + 1;
      }
    }

    /** Lines 449-461. */
    method ClearSmall(x: nat, b: nat, shift: nat)
      requires Valid() && x < count && kinds[x].Chunks? && kinds[x].shift == shift < EXACT_SHIFT && b in kinds[x].busy
      modifies this`kinds, this`rings, pages, words
      ensures Valid() && kinds == old(kinds)[x := Unmarked(old(kinds)[x], b)]
    {
      ghost var s := St();
      ChunkFacts(s, x);
      FullIsOff(s, x);
      SmallClear(s.W, x, shift, kinds[x].busy, b);
      hide Inv, BitmapOk, ClearBit, Full, Push;
      if pages[x].next == NIL {
        Relist(x, shift);
      }
      var at := x * PAGE_WORDS + b / WORD_BITS;
      SetWord(at, ClearBit(words[at], b % WORD_BITS));
      assert pages[..] == pages[..][x := pages[x].(slab := shift)];
      Unmark(x, b, s, shift);
    }

    /** Lines 490-519. */
    method FreeExact(x: nat, b: nat)
      requires Valid() && x < count && kinds[x].Chunks? && kinds[x].shift == EXACT_SHIFT && b in kinds[x].busy
      modifies this`kinds, this`rings, pages
      ensures Valid() && kinds == old(kinds)[x := Dropped(old(kinds)[x], b)]
    {
      ClearExact(x, b);
      ChunkFacts(St(), x);
      ExactFull(pages[x].slab, words[..], x, kinds[x].busy);
      if pages[x].slab == 0 {
        FreePages(x, 1);
      }
    }

    method ClearExact(x: nat, b: nat)
      requires Valid() && x < count && kinds[x].Chunks? && kinds[x].shift == EXACT_SHIFT && b in kinds[x].busy
      modifies this`kinds, this`rings, pages
      ensures Valid() && kinds == old(kinds)[x := Unmarked(old(kinds)[x], b)]
    {
      ghost var s := St();
      ChunkFacts(s, x);
      ExactFull(pages[x].slab, s.W, x, kinds[x].busy);
      ExactSet(pages[x].slab, s.W, x, kinds[x].busy, b);
      hide Inv, BitmapOk, ClearBit, Full, Push;
      var slab := pages[x].slab;
      if slab == BUSY {
        Relist(x, EXACT_SHIFT);
      }
      SetSlab(x, ClearBit(slab, b));
      Unmark(x, b, s, pages[x].slab);
    }

    /** Lines 526-558. */
    method FreeBig(x: nat, b: nat, shift: nat)
      requires Valid() && x < count && kinds[x].Chunks? && kinds[x].shift == shift > EXACT_SHIFT && b in kinds[x].busy
      modifies this`kinds, this`rings, pages
      ensures Valid() && kinds == old(kinds)[x := Dropped(old(kinds)[x], b)]
    {
      ClearBig(x, b, shift);
      ChunkFacts(St(), x);
      BigFull(pages[x].slab, words[..], x, shift, kinds[x].busy);
      if pages[x].slab / UPPER == 0 {
        FreePages(x, 1);
      }
    }

    method ClearBig(x: nat, b: nat, shift: nat)
      requires Valid() && x < count && kinds[x].Chunks? && kinds[x].shift == shift > EXACT_SHIFT && b in kinds[x].busy
      modifies this`kinds, this`rings, pages
      ensures Valid() && kinds == old(kinds)[x := Unmarked(old(kinds)[x], b)]
    {
      ghost var s := St();
      ChunkFacts(s, x);
      FullIsOff(s, x);
      BigSet(pages[x].slab, s.W, x, shift, kinds[x].busy, b);
      hide Inv, BitmapOk, ClearBit, Full, Push;
      var slab := pages[x].slab;
      if pages[x].next == NIL {
        Relist(x, shift);
      }
      SetSlab(x, ClearBit(slab, 32 + b));
      Unmark(x, b, s, pages[x].slab);
    }

    /** A live region is given back: exactly it is gone. The error branches, which log and return
        without a change, are for pointers that are not live. */
    method FreeLocked(p: nat, ghost size: nat)
      requires Valid() && LiveAt(kinds, p, size)
      modifies this`kinds, this`rings, pages, words
      ensures Valid() && Loses(old(kinds), kinds, p)
    {
      var x := p / PAGE;
      ghost var s := St();
      LiveKind(s, p, size);
      var slab, tag := pages[x].slab, pages[x].tag;
      if tag == TAG_PAGE {
        FreePages(x, slab - PAGE_START);
        ReleaseLoses(s.K, x);
      } else {
        var shift := if tag == TAG_EXACT then EXACT_SHIFT else slab % 16;
        var b := p % PAGE / Size(shift);
        if tag == TAG_SMALL {
          FreeSmall(x, b, shift);
        } else if tag == TAG_EXACT {
          FreeExact(x, b);
        } else {
          FreeBig(x, b, shift);
        }
        UnmarkLoses(s.K, x, b);
      }
    }

    // ---------- the pool as its callers see it ----------

    /** Live regions of a pool are inside it and aligned, behind the bitmap of their page, and
        apart from one another. */
    lemma Regions(at: nat, size: nat)
      requires Valid() && LiveAt(kinds, at, size)
      ensures size > 0 && at + size <= count * PAGE && at % (if size < PAGE then size else PAGE) == 0
      ensures var k := kinds[at / PAGE]; k.Chunks? && k.shift < EXACT_SHIFT ==> at % PAGE >= 8 * MapWords(k.shift)
      ensures forall at': nat, size': nat :: LiveAt(kinds, at', size') ==>
        (at == at' && size == size') || at + size <= at' || at' + size' <= at
    {
      InvKinds(St());
      hide Inv;
      LiveInside(kinds, at, size);
      if kinds[at / PAGE].Chunks? && kinds[at / PAGE].shift < EXACT_SHIFT {
        LiveOffBitmap(kinds, at, size);
      }
      forall at': nat, size': nat | LiveAt(kinds, at', size')
        ensures (at == at' && size == size') || at + size <= at' || at' + size' <= at
      {
        if at <= at' {
          LiveDisjoint(kinds, at, size, at', size');
        } else {
          LiveDisjoint(kinds, at', size', at, size);
        }
      }
    }

    /** Every page of a pool is in one free run, one allocation or one page of chunks. */
    lemma AllPages()
      requires Valid()
      ensures RunSum(kinds, 0) == count
    {
      InvKinds(St());
      hide Inv;
      PagesConserved(kinds);
    }

    /** An allocation that is given back at once: the live regions are as before. */
    method AllocAndFree(size: word) returns (p: int)
      requires Valid()
      modifies this`kinds, this`rings, pages, words
      ensures Valid() && (p == NIL <==> !Room(old(kinds), size))
      ensures forall at: nat, z: nat :: LiveAt(kinds, at, z) <==> LiveAt(old(kinds), at, z)
    {
      hide Inv, LiveAt, Room, Granted;
      ghost var before := kinds;
      p := AllocLocked(size);
      if p != NIL {
        ghost var between := kinds;
        FreeLocked(p, Granted(size));
        AllocFreeRestores(before, between, kinds, p, Granted(size));
      }
    }
  }

  /** The bitmap of a small page with a free chunk has a word that is not full. */
  lemma WordsNotFull(s: State, x: nat, shift: nat)
    requires IsChunks(s, x) && s.K[x].shift == shift && MIN_SHIFT <= shift < EXACT_SHIFT && !Full(s.K[x])
    ensures (x + 1) * PAGE_WORDS <= |s.W| && MapWords(shift) <= PAGE_WORDS
    ensures !forall n: nat :: n < MapWords(shift) ==> MapWord(s.W, x, n) == BUSY
  {
    ChunkFacts(s, x);
    hide Inv;
    SmallFull(s.W, x, shift, s.K[x].busy);
    assert s.K[x] == Chunks(shift, s.K[x].busy);
  }

  lemma NotAll(s: State, x: nat, n: nat)
    requires IsChunks(s, x) && !Full(s.K[x]) && s.K[x].shift > EXACT_SHIFT && n <= Count(s.K[x].shift)
    requires (x + 1) * PAGE_WORDS <= |s.W| && forall j: nat :: j < n ==> MapBit(s.D[x].slab, s.W, x, s.K[x].shift, j)
    ensures n < Count(s.K[x].shift)
  {
    assert PageOk(s, x);
    var b: nat :| Reserved(s.K[x].shift) <= b < Count(s.K[x].shift) && b !in s.K[x].busy;
    assert !MapBit(s.D[x].slab, s.W, x, s.K[x].shift, b);
  }

  ghost predicate TooShort(K: seq<Kind>, r: seq<nat>, j: int, n: nat) {
    0 <= j < |r| && r[j] < |K| && K[r[j]].Free? && K[r[j]].len < n
  }

  /** The whole free list was seen. */
  lemma NoRun(s: State, k: nat, n: nat)
    requires Inv(s) && 1 <= k <= |s.R[FREE]| && Around(s.R[FREE], k) == |s.K| + FREE
    requires forall j :: 1 <= j < k ==> TooShort(s.K, s.R[FREE], j, n)
    ensures !HasRun(s.K, n)
  {
    var r := s.R[FREE];
    assert RingOk(s.D, r, |s.K|, FREE);
    if k < |r| { DistinctAt(s.D, r, 0, k); }
    forall y: nat | y < |s.K| && s.K[y].Free? ensures s.K[y].len < n {
      assert Belongs(s.K[y], FREE) && y in r;
      var j :| 0 <= j < |r| && r[j] == y;
      assert TooShort(s.K, r, j, n);
    }
  }

  lemma FreeStep(s: State, k: nat)
    requires Inv(s) && 1 <= k <= |s.R[FREE]| && Around(s.R[FREE], k) != |s.K| + FREE
    ensures k < |s.R[FREE]|
    ensures var x := s.R[FREE][k]; x < |s.K| && s.K[x].Free? && s.D[x].slab == s.K[x].len && x + s.K[x].len <= |s.K|
    ensures s.D[s.R[FREE][k]].next == Around(s.R[FREE], k + 1) && 0 <= Around(s.R[FREE], k + 1) < |s.D|
  {
    HeadNext(s.D, s.R, |s.K|, FREE);
    FreeFacts(s, k);
    RingLinks(s.D, s.R, |s.K|, FREE, k);
  }

  lemma ClearChunk(s: State, x: nat, shift: nat, b: nat)
    requires IsChunks(s, x) && s.K[x].shift == shift && MIN_SHIFT <= shift < EXACT_SHIFT
    requires b < Count(shift) && !Bit(s.W[x * PAGE_WORDS + b / WORD_BITS], b % WORD_BITS)
    ensures Reserved(shift) <= b && b !in s.K[x].busy
  {
    assert PageOk(s, x);
    assert !MapBit(s.D[x].slab, s.W, x, shift, b);
  }

  /** `slab & NGX_SLAB_SHIFT_MASK`. */
  lemma LowShift(slab: word, shift: nat)
    requires shift < 16
    ensures slab % UPPER == shift ==> slab % 16 == shift
  {
  }

  lemma FullAfter(W: seq<word>, W': seq<word>, x: nat, n: nat, shift: nat, full: bool)
    requires (x + 1) * PAGE_WORDS <= |W| == |W'| && MIN_SHIFT <= shift < EXACT_SHIFT && n < MapWords(shift)
    requires W' == W[x * PAGE_WORDS + n := W'[x * PAGE_WORDS + n]]
    requires forall j: nat :: j < n ==> MapWord(W, x, j) == BUSY
    requires full <==> MapWord(W', x, n) == BUSY && forall j: nat :: n + 1 <= j < MapWords(shift) ==> MapWord(W', x, j) == BUSY
    ensures full <==> forall j: nat :: j < MapWords(shift) ==> MapWord(W', x, j) == BUSY
  {
    forall j: nat | j < n ensures MapWord(W', x, j) == BUSY {
      assert MapWord(W, x, j) == BUSY;
    }
  }

  /** What taking a run does for the callers. */
  lemma TookRun(s: State, k: nat, n: nat)
    requires CanTake(s, k, n)
    ensures HasRun(s.K, n) && Gains(s.K, Take(s, k, n).K, s.R[FREE][k] * PAGE, n * PAGE)
    ensures s.R[FREE][k] + s.K[s.R[FREE][k]].len <= |s.K|
    ensures Take(s, k, n).K == TakeK(s.K, s.R[FREE][k], n, s.K[s.R[FREE][k]].len)
    ensures HeadOk(s.K, s.R[FREE][k])
  {
    FreeFacts(s, k);
    assert HeadOk(s.K, s.R[FREE][k]);
    TakeGains(s.K, s.R[FREE][k], n);
  }

  /** `page->next != page` tells whether the slot list has a page, and it has a free chunk then. */
  lemma SlotPage(s: State, h: nat)
    requires Inv(s) && h < FREE
    ensures 0 <= s.D[|s.K| + h].next < |s.D|
    ensures var x := s.D[|s.K| + h].next;
      if s.D[x].next != x then x < |s.K| && s.K[x].Chunks? && s.K[x].shift == MIN_SHIFT + h && !Full(s.K[x]) && HasChunk(s.K, MIN_SHIFT + h)
      else |s.R[h]| == 1 && !HasChunk(s.K, MIN_SHIFT + h)
  {
    var r, x := s.R[h], s.D[|s.K| + h].next;
    HeadNext(s.D, s.R, |s.K|, h);
    if |r| > 1 {
      LinksApart(s, h, 1);
      assert r[1] in r && Belongs(s.K[x], h);
    } else {
      assert RingOk(s.D, r, |s.K|, h);
      assert r == [r[0]];
      forall y: nat | y < |s.K| ensures !Belongs(s.K[y], h) {
        assert y !in r;
      }
    }
  }

  /** Handing out pages leaves the slot lists as they are. */
  lemma TookSlots(s: State, k: nat, n: nat)
    requires CanTake(s, k, n)
    ensures forall h: nat :: h < FREE ==> Take(s, k, n).R[h] == s.R[h]
    ensures |Take(s, k, n).R| == RINGS && |s.R| == RINGS
  {
    FreeFacts(s, k);
  }

  /** `page->next == NULL` tells that a page of chunks is full. */
  lemma FullIsOff(s: State, x: nat)
    requires IsChunks(s, x)
    ensures s.D[x].next == NIL <==> Full(s.K[x])
  {
    ChunkFacts(s, x);
    if !Full(s.K[x]) {
      var k := OnRing(s, x, s.K[x].shift - MIN_SHIFT);
    }
  }

  /** `page->next` tells whether a page to release is on a list. */
  lemma FreeIsBlock(s: State, x: nat)
    requires CanRelease(s, x)
    ensures s.D[x].next == NIL <==> s.K[x].Block?
  {
    assert PageOk(s, x);
    if s.K[x].Chunks? {
      var k := EmptyPage(s, x);
    }
  }

  /** The type bits and the size word of the page of a live region. */
  lemma LiveKind(s: State, p: nat, size: nat)
    requires Inv(s) && LiveAt(s.K, p, size)
    ensures var x, k := p / PAGE, s.K[p / PAGE];
      if s.D[x].tag == TAG_PAGE
        then k.Block? && p == x * PAGE && s.D[x].slab == k.len + PAGE_START
      else
        && k.Chunks? && ChunksOk(k) && s.D[x].tag == TagOf(k.shift)
        && (k.shift != EXACT_SHIFT ==> s.D[x].slab % 16 == k.shift)
        && p % PAGE / Size(k.shift) in k.busy && p == x * PAGE + p % PAGE / Size(k.shift) * Size(k.shift)
  {
    var x, k := p / PAGE, s.K[p / PAGE];
    assert PageOk(s, x);
    if k.Chunks? {
      LiveChunk(k, p % PAGE, size);
      LowShift(s.D[x].slab, k.shift);
    }
  }
}
