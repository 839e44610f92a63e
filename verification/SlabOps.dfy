/** The operations of the allocator on its state, each shown to keep the invariant: a chunk is
    taken or given back, a page is cut into chunks, pages go back to the free list. */
module SlabOps {
  import opened Bits
  import opened SlabState

  /** The words outside page `x` are as before. */
  ghost predicate OnlyPage(W: seq<word>, W': seq<word>, x: nat) {
    |W'| == |W| && forall w :: 0 <= w < |W| && !(x * PAGE_WORDS <= w < (x + 1) * PAGE_WORDS) ==> W'[w] == W[w]
  }

  ghost predicate IsChunks(s: State, x: nat) {
    Inv(s) && x < |s.K| && s.K[x].Chunks?
  }

  lemma ChunkFacts(s: State, x: nat)
    requires IsChunks(s, x)
    ensures PageOk(s, x) && ChunksOk(s.K[x]) && MIN_SHIFT <= s.K[x].shift < PAGE_SHIFT
  {
  }

  /** The other pages stay right. */
  lemma OthersOk(s: State, s': State, x: nat)
    requires Inv(s) && Sized(s') && x < |s.K| == |s'.K| && s'.K == s.K[x := s'.K[x]] && OnlyPage(s.W, s'.W, x)
    requires forall y: nat :: y < |s.K| && y != x ==>
      (s'.D[y].slab == s.D[y].slab && s'.D[y].tag == s.D[y].tag && (OnNone(s.R, y) ==> s'.D[y] == s.D[y]))
    requires PageOk(s', x)
    ensures PagesOk(s')
  {
    forall i: nat | i < |s'.K| ensures PageOk(s', i) {
      if i != x { PageFrame(s, s', i); }
    }
  }

  // ---------- a chunk is taken ----------

  /** Chunk `b` of page `x` is free, and `slab` and `W` are the bitmap with its bit set. */
  ghost predicate CanMark(s: State, x: nat, b: nat, slab: word, W: seq<word>) {
    && IsChunks(s, x) && Reserved(s.K[x].shift) <= b < Count(s.K[x].shift) && b !in s.K[x].busy
    && OnlyPage(s.W, W, x) && BitmapOk(slab, W, x, s.K[x].shift, s.K[x].busy + {b})
  }

  ghost function Marked(k: Kind, b: nat): Kind
    requires k.Chunks?
  {
    Chunks(k.shift, k.busy + {b})
  }

  /** A page with further free chunks stays on its list. */
  ghost function MarkStay(s: State, x: nat, b: nat, slab: word, W: seq<word>): State
    requires CanMark(s, x, b, slab, W)
  {
    State(s.D[x := s.D[x].(slab := slab)], W, s.K[x := Marked(s.K[x], b)], s.R)
  }

  lemma MarkStayInv(s: State, x: nat, b: nat, slab: word, W: seq<word>)
    requires CanMark(s, x, b, slab, W) && !Full(Marked(s.K[x], b))
    ensures Inv(MarkStay(s, x, b, slab, W))
  {
    var s' := MarkStay(s, x, b, slab, W);
    ChunkFacts(s, x);
    TiledUpdate(s.K, x, s'.K[x]);
    assert !Full(s.K[x]);
    OthersOk(s, s', x);
    hide RingOk, Tiled, PageOk;
    RingsFrame(s.D, s'.D, s.R, |s.K|);
    forall z: nat, h: nat | z < |s.K| && h < RINGS ensures z in s'.R[h] <==> Belongs(s'.K[z], h) {
      assert z in s.R[h] <==> Belongs(s.K[z], h);
    }
  }

  /** The page goes off its list, at place `k`, when its last chunk is taken. */
  ghost predicate CanFill(s: State, x: nat, b: nat, slab: word, W: seq<word>, k: nat) {
    && CanMark(s, x, b, slab, W) && Full(Marked(s.K[x], b)) && MIN_SHIFT <= s.K[x].shift < PAGE_SHIFT
    && 1 <= k < |s.R[s.K[x].shift - MIN_SHIFT]| && s.R[s.K[x].shift - MIN_SHIFT][k] == x
    && 0 <= s.D[x].prev < |s.D| && 0 <= s.D[x].next < |s.D|
  }

  ghost function MarkFull(s: State, x: nat, b: nat, slab: word, W: seq<word>, k: nat): State
    requires CanFill(s, x, b, slab, W, k)
  {
    var shift := s.K[x].shift;
    State(Unlink(s.D[x := s.D[x].(slab := slab)], x)[x := Desc(slab, NIL, NIL, TagOf(shift))], W,
          s.K[x := Marked(s.K[x], b)], s.R[shift - MIN_SHIFT := Cut(s.R[shift - MIN_SHIFT], k)])
  }

  lemma MarkFullInv(s: State, x: nat, b: nat, slab: word, W: seq<word>, k: nat)
    requires CanFill(s, x, b, slab, W, k)
    ensures Inv(MarkFull(s, x, b, slab, W, k))
  {
    var s', h := MarkFull(s, x, b, slab, W, k), s.K[x].shift - MIN_SHIFT;
    ChunkFacts(s, x);
    TiledUpdate(s.K, x, s'.K[x]);
    var D0 := s.D[x := s.D[x].(slab := slab)];
    hide RingOk, Tiled, Unlink, Cut, PagesOk;
    RingsFrame(s.D, D0, s.R, |s.K|);
    RingsUnlink(D0, s.R, |s.K|, h, k);
    CutRing(s, h, k);
    MarkFullMembers(s, x, b, slab, W, k);
    RingsFrame(Unlink(D0, x), s'.D, s'.R, |s.K|);
    OthersOk(s, s', x);
  }

  lemma CutRing(s: State, h: nat, k: nat)
    requires Inv(s) && h < RINGS && 1 <= k < |s.R[h]|
    ensures forall y :: y in Cut(s.R[h], k) <==> y in s.R[h] && y != s.R[h][k]
  {
    assert RingOk(s.D, s.R[h], |s.K|, h);
    CutMembers(s.R[h], k);
  }

  lemma MarkFullMembers(s: State, x: nat, b: nat, slab: word, W: seq<word>, k: nat)
    requires CanFill(s, x, b, slab, W, k)
    ensures MembersOk(MarkFull(s, x, b, slab, W, k).K, MarkFull(s, x, b, slab, W, k).R)
    ensures OnNone(MarkFull(s, x, b, slab, W, k).R, x)
  {
    var s', h := MarkFull(s, x, b, slab, W, k), s.K[x].shift - MIN_SHIFT;
    CutRing(s, h, k);
    hide RingOk, Tiled, Unlink, Cut, PagesOk, BitmapOk;
    forall z: nat, g: nat | z < |s.K| && g < RINGS ensures z in s'.R[g] <==> Belongs(s'.K[z], g) {
      assert z in s.R[g] <==> Belongs(s.K[z], g);
    }
    forall g: nat | g < RINGS ensures x !in s'.R[g] { assert !Belongs(s'.K[x], g); }
  }

  // ---------- a chunk is given back ----------

  /** Chunk `b` of page `x` is in use, and `slab` and `W` are the bitmap with its bit clear. */
  ghost predicate CanUnmark(s: State, x: nat, b: nat, slab: word, W: seq<word>) {
    && IsChunks(s, x) && b in s.K[x].busy
    && OnlyPage(s.W, W, x) && BitmapOk(slab, W, x, s.K[x].shift, s.K[x].busy - {b})
  }

  ghost function Unmarked(k: Kind, b: nat): Kind
    requires k.Chunks?
  {
    Chunks(k.shift, k.busy - {b})
  }

  ghost function UnmarkStay(s: State, x: nat, b: nat, slab: word, W: seq<word>): State
    requires CanUnmark(s, x, b, slab, W)
  {
    State(s.D[x := s.D[x].(slab := slab)], W, s.K[x := Unmarked(s.K[x], b)], s.R)
  }

  lemma UnmarkNotFull(k: Kind, b: nat)
    requires k.Chunks? && ChunksOk(k) && b in k.busy
    ensures !Full(Unmarked(k, b)) && ChunksOk(Unmarked(k, b))
  {
  }

  lemma UnmarkStayInv(s: State, x: nat, b: nat, slab: word, W: seq<word>)
    requires CanUnmark(s, x, b, slab, W) && !Full(s.K[x])
    ensures Inv(UnmarkStay(s, x, b, slab, W))
  {
    var s' := UnmarkStay(s, x, b, slab, W);
    ChunkFacts(s, x);
    TiledUpdate(s.K, x, s'.K[x]);
    UnmarkNotFull(s.K[x], b);
    OthersOk(s, s', x);
    hide RingOk, Tiled, PageOk;
    RingsFrame(s.D, s'.D, s.R, |s.K|);
    forall z: nat, h: nat | z < |s.K| && h < RINGS ensures z in s'.R[h] <==> Belongs(s'.K[z], h) {
      assert z in s.R[h] <==> Belongs(s.K[z], h);
    }
  }

  /** A page that was full goes to the front of its list. */
  ghost predicate CanReopen(s: State, x: nat, b: nat, slab: word, W: seq<word>) {
    && CanUnmark(s, x, b, slab, W) && Full(s.K[x]) && MIN_SHIFT <= s.K[x].shift < PAGE_SHIFT
    && 0 <= s.D[|s.K| + s.K[x].shift - MIN_SHIFT].next < |s.D|
  }

  ghost function UnmarkFull(s: State, x: nat, b: nat, slab: word, W: seq<word>): State
    requires CanReopen(s, x, b, slab, W)
  {
    var h := s.K[x].shift - MIN_SHIFT;
    var D0 := Push(s.D, |s.K| + h, x, RingTag(h));
    State(D0[x := D0[x].(slab := slab)], W, s.K[x := Unmarked(s.K[x], b)], s.R[h := Pushed(s.R[h], x)])
  }

  lemma OffRings(s: State, x: nat)
    requires Inv(s) && x < |s.K| && forall h: nat :: h < RINGS ==> !Belongs(s.K[x], h)
    ensures OnNone(s.R, x)
  {
    forall h: nat | h < RINGS ensures x !in s.R[h] {
      assert !Belongs(s.K[x], h);
    }
  }

  lemma UnmarkFullRings(s: State, x: nat, b: nat, slab: word, W: seq<word>)
    requires CanReopen(s, x, b, slab, W)
    ensures OnNone(s.R, x)
    ensures var s' := UnmarkFull(s, x, b, slab, W);
      && RingsOk(s'.D, s'.R, |s.K|) && s'.D[x].tag == TagOf(s.K[x].shift)
      && forall y: nat :: y < |s.K| && y != x ==>
           (s'.D[y].slab == s.D[y].slab && s'.D[y].tag == s.D[y].tag && (OnNone(s.R, y) ==> s'.D[y] == s.D[y]))
  {
    var s', h := UnmarkFull(s, x, b, slab, W), s.K[x].shift - MIN_SHIFT;
    OffRings(s, x);
    var D0 := Push(s.D, |s.K| + h, x, RingTag(h));
    hide RingOk, Tiled, Push, Pushed, PagesOk, BitmapOk, Full;
    RingsPush(s.D, s.R, |s.K|, h, x);
    RingsFrame(D0, s'.D, s'.R, |s.K|);
    assert s'.D[x].tag == D0[x].tag == RingTag(h);
    forall y: nat | y < |s.K| && y != x
      ensures s'.D[y].slab == s.D[y].slab && s'.D[y].tag == s.D[y].tag && (OnNone(s.R, y) ==> s'.D[y] == s.D[y])
    {
      assert s'.D[y] == D0[y];
    }
  }

  lemma UnmarkFullInv(s: State, x: nat, b: nat, slab: word, W: seq<word>)
    requires CanReopen(s, x, b, slab, W)
    ensures Inv(UnmarkFull(s, x, b, slab, W))
  {
    var s', h := UnmarkFull(s, x, b, slab, W), s.K[x].shift - MIN_SHIFT;
    ChunkFacts(s, x);
    TiledUpdate(s.K, x, s'.K[x]);
    UnmarkNotFull(s.K[x], b);
    UnmarkFullRings(s, x, b, slab, W);
    hide RingsOk, Tiled, Push, Pushed, PagesOk, BitmapOk, Full;
    OthersOk(s, s', x);
    PushMembers(s, s', x, h);
  }

  /** The members of the lists when a page joins one. */
  lemma PushMembers(s: State, s': State, x: nat, h: nat)
    requires Inv(s) && h < RINGS && x < |s.K| == |s'.K| && s'.K == s.K[x := s'.K[x]] && s'.R == s.R[h := Pushed(s.R[h], x)]
    requires OnNone(s.R, x) && forall g: nat :: g < RINGS ==> (Belongs(s'.K[x], g) <==> g == h)
    ensures MembersOk(s'.K, s'.R)
  {
    PushedMembers(s.R[h], x);
    hide RingOk, Tiled, Pushed, PagesOk;
    forall z: nat, g: nat | z < |s.K| && g < RINGS ensures z in s'.R[g] <==> Belongs(s'.K[z], g) {
      assert z in s.R[g] <==> Belongs(s.K[z], g);
    }
  }

  // ---------- ngx_slab_free_pages ----------

  /** A page is released when it heads an allocation, or holds chunks and none is in use. */
  ghost predicate CanRelease(s: State, x: nat) {
    Inv(s) && x < |s.K| && (s.K[x].Block? || (s.K[x].Chunks? && s.K[x].busy == {}))
  }

  function Zeroed(D: seq<Desc>, x: nat, n: nat): (D': seq<Desc>)
    requires 1 <= n < PAGE_START && x + n <= |D|
    ensures |D'| == |D|
    ensures forall j :: 0 <= j < |D| ==> D'[j] == if j == x then D[j].(slab := n) else if x < j < x + n then Desc(0, NIL, NIL, TAG_PAGE) else D[j]
  {
    seq(|D|, j requires 0 <= j < |D| => if j == x then D[j].(slab := n) else if x < j < x + n then Desc(0, NIL, NIL, TAG_PAGE) else D[j])
  }

  /** A block, which is on no list. */
  ghost function ReleaseBlock(s: State, x: nat): State
    requires CanRelease(s, x) && s.K[x].Block?
  {
    BlockFacts(s, x);
    var n := s.K[x].len;
    HeadNext(s.D, s.R, |s.K|, FREE);
    State(Push(Zeroed(s.D, x, n), |s.K| + FREE, x, TAG_PAGE), s.W, s.K[x := Free(n)], s.R[FREE := Pushed(s.R[FREE], x)])
  }

  lemma HeadNext(D: seq<Desc>, R: seq<seq<nat>>, P: nat, h: nat)
    requires RingsOk(D, R, P) && h < RINGS
    ensures R[h] != [] && R[h][0] == P + h
    ensures 0 <= D[P + h].next == Around(R[h], 1) < |D|
    ensures D[P + h].next < P || (D[P + h].next == P + h && |R[h]| == 1)
  {
    assert RingOk(D, R[h], P, h);
    HeadLinks(D, R[h]);
    if |R[h]| > 1 {
      RingLinks(D, R, P, h, 1);
    }
  }

  lemma BlockFacts(s: State, x: nat)
    requires CanRelease(s, x) && s.K[x].Block?
    ensures 1 <= s.K[x].len < PAGE_START && x + s.K[x].len <= |s.K|
    ensures s.D[x].slab == s.K[x].len + PAGE_START && s.D[x].next == NIL && s.D[x].tag == TAG_PAGE
    ensures forall j :: x < j < x + s.K[x].len ==> s.K[j] == Rest(x)
    ensures forall j: nat :: x <= j < x + s.K[x].len ==> OnNone(s.R, j)
    ensures Zeroed(s.D, x, s.K[x].len)[|s.K| + FREE] == s.D[|s.K| + FREE]
  {
    assert HeadOk(s.K, x) && PageOk(s, x);
    forall j: nat | x <= j < x + s.K[x].len ensures OnNone(s.R, j) {
      OffRings(s, j);
    }
  }

  lemma ReleaseBlockInv(s: State, x: nat)
    requires CanRelease(s, x) && s.K[x].Block?
    ensures Inv(ReleaseBlock(s, x))
  {
    var s', n := ReleaseBlock(s, x), s.K[x].len;
    BlockFacts(s, x);
    TiledUpdate(s.K, x, s'.K[x]);
    var D0 := Zeroed(s.D, x, n);
    hide RingOk, Tiled, Push, Pushed, Zeroed, BitmapOk;
    RingsFrame(s.D, D0, s.R, |s.K|);
    RingsPush(D0, s.R, |s.K|, FREE, x);
    PushMembers(s, s', x, FREE);
    assert PagesOk(s') by {
      forall i: nat | i < |s'.K| ensures PageOk(s', i) {
        if i < x || i >= x + n { PageFrame(s, s', i); }
      }
    }
  }

  /** A page whose last chunk came back; `k` is its place on its slot list. */
  ghost predicate CanClose(s: State, x: nat, k: nat) {
    && CanRelease(s, x) && s.K[x].Chunks? && MIN_SHIFT <= s.K[x].shift < PAGE_SHIFT
    && 1 <= k < |s.R[s.K[x].shift - MIN_SHIFT]| && s.R[s.K[x].shift - MIN_SHIFT][k] == x
    && 0 <= s.D[x].prev < |s.D| && 0 <= s.D[x].next < |s.D| && 0 <= s.D[|s.K| + FREE].next < |s.D|
  }

  lemma EmptyPage(s: State, x: nat) returns (k: nat)
    requires CanRelease(s, x) && s.K[x].Chunks?
    ensures CanClose(s, x, k) && s.D[x].next != NIL
  {
    ChunkFacts(s, x);
    assert Reserved(s.K[x].shift) < Count(s.K[x].shift) && Reserved(s.K[x].shift) !in s.K[x].busy;
    k := OnRing(s, x, s.K[x].shift - MIN_SHIFT);
    HeadNext(s.D, s.R, |s.K|, FREE);
  }

  ghost function Closed(s: State, x: nat, k: nat): (D': seq<Desc>)
    requires CanClose(s, x, k)
    ensures |D'| == |s.D|
  {
    Unlink(s.D[x := s.D[x].(slab := 1)], x)
  }

  /** The list heads keep pointing into the index space. */
  lemma ClosedRings(s: State, x: nat, k: nat)
    requires CanClose(s, x, k)
    ensures var h, D' := s.K[x].shift - MIN_SHIFT, Closed(s, x, k);
      && RingsOk(D', s.R[h := Cut(s.R[h], k)], |s.K|) && OnNone(s.R[h := Cut(s.R[h], k)], x)
      && D'[x].slab == 1 && 0 <= D'[|s.K| + FREE].next < |D'|
      && forall y: nat :: y < |s.K| && y != x ==>
           (D'[y].slab == s.D[y].slab && D'[y].tag == s.D[y].tag && (OnNone(s.R, y) ==> D'[y] == s.D[y]))
  {
    var h, D0 := s.K[x].shift - MIN_SHIFT, s.D[x := s.D[x].(slab := 1)];
    hide RingOk, Tiled, Unlink, Cut, PagesOk, BitmapOk;
    RingsFrame(s.D, D0, s.R, |s.K|);
    RingsUnlink(D0, s.R, |s.K|, h, k);
    CutRing(s, h, k);
    var R' := s.R[h := Cut(s.R[h], k)];
    forall g: nat | g < RINGS ensures x !in R'[g] {
      if g != h { RingsApart(s.D, s.R, |s.K|, h, g, x); }
    }
    HeadNext(Unlink(D0, x), R', |s.K|, FREE);
  }

  ghost function ReleaseChunks(s: State, x: nat, k: nat): State
    requires CanClose(s, x, k)
  {
    ClosedRings(s, x, k);
    var h := s.K[x].shift - MIN_SHIFT;
    var R1 := s.R[h := Cut(s.R[h], k)];
    HeadNext(Closed(s, x, k), R1, |s.K|, FREE);
    State(Push(Closed(s, x, k), |s.K| + FREE, x, TAG_PAGE), s.W, s.K[x := Free(1)], R1[FREE := Pushed(R1[FREE], x)])
  }

  lemma ReleaseChunksMembers(s: State, x: nat, k: nat)
    requires CanClose(s, x, k)
    ensures MembersOk(ReleaseChunks(s, x, k).K, ReleaseChunks(s, x, k).R)
  {
    var s', h := ReleaseChunks(s, x, k), s.K[x].shift - MIN_SHIFT;
    CutRing(s, h, k);
    PushedMembers(s.R[FREE], x);
    assert RingOk(s.D, s.R[h], |s.K|, h);
    hide RingOk, Tiled, Unlink, Push, Cut, Pushed, PagesOk, BitmapOk, Closed;
    forall z: nat, g: nat | z < |s.K| && g < RINGS ensures z in s'.R[g] <==> Belongs(s'.K[z], g) {
      assert z in s.R[g] <==> Belongs(s.K[z], g);
    }
  }

  lemma ReleaseChunksInv(s: State, x: nat, k: nat)
    requires CanClose(s, x, k)
    ensures Inv(ReleaseChunks(s, x, k))
  {
    var s', h := ReleaseChunks(s, x, k), s.K[x].shift - MIN_SHIFT;
    ChunkFacts(s, x);
    TiledUpdate(s.K, x, s'.K[x]);
    ClosedRings(s, x, k);
    ReleaseChunksMembers(s, x, k);
    hide RingOk, Tiled, Push, Pushed, Cut, BitmapOk, Full, MembersOk, Closed;
    RingsPush(Closed(s, x, k), s.R[h := Cut(s.R[h], k)], |s.K|, FREE, x);
    NoneCut(s, h, k);
    OthersOk(s, s', x);
  }

  /** A page on no list is on none after one list lost a page. */
  lemma NoneCut(s: State, h: nat, k: nat)
    requires Inv(s) && h < RINGS && 1 <= k < |s.R[h]|
    ensures forall y: nat :: OnNone(s.R, y) ==> OnNone(s.R[h := Cut(s.R[h], k)], y)
  {
    CutRing(s, h, k);
  }

  // ---------- a page is cut into chunks ----------

  /** The page just handed out, and the bitmap with the reserved chunks and the first one set. */
  ghost predicate CanOpen(s: State, x: nat, shift: nat, slab: word, W: seq<word>) {
    && Inv(s) && x < |s.K| && s.K[x] == Block(1) && MIN_SHIFT <= shift < PAGE_SHIFT
    && |s.R[shift - MIN_SHIFT]| == 1 && OnlyPage(s.W, W, x) && BitmapOk(slab, W, x, shift, {Reserved(shift)})
  }

  /** Lines 350-354, 363-367, 376-380: the page alone on its list; the head's `prev` is not set. */
  function OpenD(D: seq<Desc>, head: nat, x: nat, slab: word, tag: nat): seq<Desc>
    requires x < |D| && head < |D|
  {
    var D1 := D[x := Desc(slab, head, head, tag)];
    D1[head := D1[head].(next := x)]
  }

  ghost function Open(s: State, x: nat, shift: nat, slab: word, W: seq<word>): State
    requires CanOpen(s, x, shift, slab, W)
  {
    var h := shift - MIN_SHIFT;
    State(OpenD(s.D, |s.K| + h, x, slab, TagOf(shift)), W, s.K[x := Chunks(shift, {Reserved(shift)})], s.R[h := Pushed(s.R[h], x)])
  }

  lemma OpenInv(s: State, x: nat, shift: nat, slab: word, W: seq<word>)
    requires CanOpen(s, x, shift, slab, W)
    ensures Inv(Open(s, x, shift, slab, W))
  {
    var s', h := Open(s, x, shift, slab, W), shift - MIN_SHIFT;
    TiledUpdate(s.K, x, s'.K[x]);
    OffRings(s, x);
    HeadNext(s.D, s.R, |s.K|, h);
    var D0 := Push(s.D, |s.K| + h, x, RingTag(h));
    PushedMembers(s.R[h], x);
    assert Reserved(shift) + 1 < Count(shift) && Reserved(shift) + 1 !in s'.K[x].busy;
    hide RingOk, Tiled, Pushed, BitmapOk, Full;
    RingsPush(s.D, s.R, |s.K|, h, x);
    RingsFrame(D0, s'.D, s'.R, |s.K|);
    PushMembers(s, s', x, h);
    OthersOk(s, s', x);
  }
}
