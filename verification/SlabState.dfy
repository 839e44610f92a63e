/** The state of a slab pool as plain values: the page descriptors, the slot heads and the
    free-list head in one index space, the words of the pages, and a ghost description of what
    every page is used for. The memory operations of the allocator are functions on it, and
    each is shown to keep the invariant. */
module SlabState {
  import opened Bits

  const PAGE: nat := 4096
  const PAGE_SHIFT: nat := 12
  const PAGE_WORDS: nat := 512     // 64-bit words in a page
  const MIN_SHIFT: nat := 3        // set by ngx_init_zone_pool
  const EXACT_SHIFT: nat := 6
  const MAX_SIZE: nat := 2048
  const SLOTS: nat := 9
  const PAGE_START: nat := 0x8000_0000_0000_0000
  const NIL: int := -1

  const TAG_PAGE: nat := 0
  const TAG_BIG: nat := 1
  const TAG_EXACT: nat := 2
  const TAG_SMALL: nat := 3

  /** `ngx_slab_page_t`; `prev` and the two type bits kept in it are separate fields. */
  datatype Desc = Desc(slab: word, next: int, prev: int, tag: nat)

  /** What a page is: the first page of a free run or of a multi-page allocation, one of their
      further pages, or a page cut into chunks of one size, with the set of those in use. */
  datatype Kind = Free(len: nat) | Block(len: nat) | Rest(head: nat) | Chunks(shift: nat, busy: set<nat>)

  /** `1 << (PAGE_SHIFT - shift)`, the chunks of a page. */
  function Count(shift: nat): nat {
    match shift
    case 3 => 512 case 4 => 256 case 5 => 128 case 6 => 64 case 7 => 32
    case 8 => 16 case 9 => 8 case 10 => 4 case 11 => 2 case _ => 1
  }

  function Size(shift: nat): nat {
    match shift
    case 3 => 8 case 4 => 16 case 5 => 32 case 6 => 64 case 7 => 128
    case 8 => 256 case 9 => 512 case 10 => 1024 case 11 => 2048 case _ => 4096
  }

  /** The chunks at the start of a page that hold its own bitmap. */
  function Reserved(shift: nat): nat {
    match shift
    case 3 => 8 case 4 => 2 case 5 => 1 case _ => 0
  }

  function TagOf(shift: nat): nat {
    if shift < EXACT_SHIFT then TAG_SMALL else if shift == EXACT_SHIFT then TAG_EXACT else TAG_BIG
  }

  ghost predicate IsShift(shift: nat) {
    MIN_SHIFT <= shift < PAGE_SHIFT
  }

  ghost predicate Full(k: Kind)
    requires k.Chunks?
  {
    forall b: nat :: Reserved(k.shift) <= b < Count(k.shift) ==> b in k.busy
  }

  // ---------- pages tile the pool ----------

  ghost function RunLen(k: Kind): nat {
    match k
    case Free(n) => n
    case Block(n) => n
    case Rest(_) => 0
    case Chunks(_, _) => 1
  }

  ghost predicate HeadOk(K: seq<Kind>, i: nat)
    requires i < |K|
  {
    !K[i].Rest? ==>
      && 1 <= RunLen(K[i]) && i + RunLen(K[i]) <= |K|
      && forall j :: i < j < i + RunLen(K[i]) ==> K[j] == Rest(i)
  }

  ghost predicate RestOk(K: seq<Kind>, j: nat)
    requires j < |K|
  {
    K[j].Rest? ==>
      && K[j].head < j && !K[K[j].head].Rest? && j < K[j].head + RunLen(K[K[j].head])
  }

  /** Every page belongs to exactly one run. */
  ghost predicate Tiled(K: seq<Kind>) {
    (forall i: nat :: i < |K| ==> HeadOk(K, i)) && (forall j: nat :: j < |K| ==> RestOk(K, j))
  }

  // ---------- doubly linked lists of pages ----------

  ghost predicate Distinct(r: seq<nat>) {
    forall a, b :: 0 <= a < b < |r| ==> r[a] != r[b]
  }

  /** The ring of indices from the head of a list through its members and back. */
  function Around(r: seq<nat>, i: nat): nat
    requires r != [] && i <= |r|
  {
    if i < |r| then r[i] else r[0]
  }

  /** The links of one node of the ring; the head `r[0]` has no meaningful `prev`. */
  ghost predicate LinkedAt(D: seq<Desc>, r: seq<nat>, i: nat)
    requires i < |r|
  {
    && r[i] < |D| && 0 <= Around(r, i + 1) < |D|
    && D[r[i]].next == Around(r, i + 1) && (i > 0 ==> D[r[i]].prev == r[i - 1])
  }

  ghost predicate Linked(D: seq<Desc>, r: seq<nat>) {
    r != [] && Distinct(r) && forall i: nat :: i < |r| ==> LinkedAt(D, r, i)
  }

  lemma LinkedFrame(D: seq<Desc>, D': seq<Desc>, r: seq<nat>)
    requires Linked(D, r) && |D'| == |D|
    requires forall i :: 0 <= i < |r| && r[i] < |D| ==> D'[r[i]].next == D[r[i]].next && (i > 0 ==> D'[r[i]].prev == D[r[i]].prev)
    ensures Linked(D', r)
  {
    forall i: nat | i < |r| ensures LinkedAt(D', r, i) {
      assert LinkedAt(D, r, i);
    }
  }

  function Cut(r: seq<nat>, k: nat): (r': seq<nat>)
    requires k < |r|
    ensures |r'| == |r| - 1
  {
    r[..k] + r[k + 1..]
  }

  lemma CutIndex(r: seq<nat>, k: nat, j: nat)
    requires k < |r| && j < |Cut(r, k)|
    ensures Cut(r, k)[j] == r[if j < k then j else j + 1]
  {
  }

  lemma CutMembers(r: seq<nat>, k: nat)
    requires Distinct(r) && k < |r|
    ensures Distinct(Cut(r, k))
    ensures forall x :: x in Cut(r, k) <==> x in r && x != r[k]
  {
    var r' := Cut(r, k);
    assert forall j :: 0 <= j < |r'| ==> r'[j] == r[if j < k then j else j + 1];
    forall x | x in r && x != r[k] ensures x in r' {
      var i :| 0 <= i < |r| && r[i] == x;
      assert r'[if i < k then i else i - 1] == x;
    }
  }

  /** `prev->next = page->next; page->next->prev = page->prev`. */
  function Unlink(D: seq<Desc>, x: nat): seq<Desc>
    requires x < |D| && 0 <= D[x].prev < |D| && 0 <= D[x].next < |D|
  {
    var D1 := D[D[x].prev := D[D[x].prev].(next := D[x].next)];
    D1[D[x].next := D1[D[x].next].(prev := D[x].prev, tag := D[x].tag)]
  }

  lemma UnlinkAt(D: seq<Desc>, x: nat, y: nat)
    requires x < |D| && 0 <= D[x].prev < |D| && 0 <= D[x].next < |D| && y < |D|
    ensures Unlink(D, x)[y].next == if y == D[x].prev then D[x].next else D[y].next
    ensures Unlink(D, x)[y].prev == if y == D[x].next then D[x].prev else D[y].prev
    ensures |Unlink(D, x)| == |D|
  {
  }

  lemma UnlinkStep(D: seq<Desc>, r: seq<nat>, k: nat, j: nat)
    requires Linked(D, r) && 1 <= k < |r| && j < |r| - 1
    requires r[k] < |D| && 0 <= D[r[k]].prev == r[k - 1] < |D| && 0 <= D[r[k]].next == Around(r, k + 1) < |D|
    ensures LinkedAt(Unlink(D, r[k]), Cut(r, k), j)
  {
    hide Unlink, Cut, Linked;
    var i := if j < k then j else j + 1;
    CutIndex(r, k, j);
    if j + 1 < |r| - 1 { CutIndex(r, k, j + 1); }
    CutIndex(r, k, 0);
    LinkedHas(D, r, i);
    UnlinkAt(D, r[k], r[i]);
    LinkedHas(D, r, k);
    DistinctAt(D, r, i, k - 1);
    if j > 0 {
      CutIndex(r, k, j - 1);
      if k + 1 < |r| { DistinctAt(D, r, i, k + 1); } else { DistinctAt(D, r, i, 0); }
    }
  }

  lemma LinkedHas(D: seq<Desc>, r: seq<nat>, i: nat)
    requires Linked(D, r) && i < |r|
    ensures LinkedAt(D, r, i)
  {
  }

  lemma DistinctAt(D: seq<Desc>, r: seq<nat>, i: nat, j: nat)
    requires Linked(D, r) && i < |r| && j < |r|
    ensures i != j ==> r[i] != r[j]
  {
  }

  lemma UnlinkLinked(D: seq<Desc>, r: seq<nat>, k: nat)
    requires Linked(D, r) && 1 <= k < |r|
    ensures r[k] < |D| && 0 <= D[r[k]].prev == r[k - 1] < |D| && 0 <= D[r[k]].next == Around(r, k + 1) < |D|
    ensures Linked(Unlink(D, r[k]), Cut(r, k))
  {
    hide Unlink, Cut, LinkedAt;
    LinkedLinks(D, r, k);
    CutMembers(r, k);
    forall j: nat | j < |r| - 1 ensures LinkedAt(Unlink(D, r[k]), Cut(r, k), j) {
      UnlinkStep(D, r, k, j);
    }
  }

  lemma LinkedLinks(D: seq<Desc>, r: seq<nat>, k: nat)
    requires Linked(D, r) && 1 <= k < |r|
    ensures r[k] < |D| && 0 <= D[r[k]].prev == r[k - 1] < |D| && 0 <= D[r[k]].next == Around(r, k + 1) < |D|
  {
    assert LinkedAt(D, r, k) && LinkedAt(D, r, k - 1);
  }

  /** `page->next = head->next; page->prev = head; page->next->prev = page; head->next = page`. */
  function Push(D: seq<Desc>, head: nat, x: nat, tag: nat): seq<Desc>
    requires x < |D| && head < |D| && x != head && 0 <= D[head].next < |D|
  {
    var nx := D[head].next;
    var D1 := D[x := D[x].(next := nx, prev := head, tag := tag)];
    var D2 := D1[nx := D1[nx].(prev := x, tag := tag)];
    D2[head := D2[head].(next := x)]
  }

  lemma PushAt(D: seq<Desc>, head: nat, x: nat, tag: nat, y: nat)
    requires x < |D| && head < |D| && x != head && 0 <= D[head].next < |D| && D[head].next != x && y < |D|
    ensures Push(D, head, x, tag)[y].next == if y == head then x else if y == x then D[head].next else D[y].next
    ensures Push(D, head, x, tag)[y].prev == if y == D[head].next then x else if y == x then head else D[y].prev
    ensures |Push(D, head, x, tag)| == |D|
  {
  }

  ghost function Pushed(r: seq<nat>, x: nat): (r': seq<nat>)
    requires r != []
    ensures |r'| == |r| + 1 && r'[0] == r[0] && r'[1] == x
    ensures forall j :: 2 <= j <= |r| ==> r'[j] == r[j - 1]
  {
    [r[0], x] + r[1..]
  }

  lemma PushStep(D: seq<Desc>, r: seq<nat>, x: nat, tag: nat, j: nat)
    requires Linked(D, r) && x < |D| && x !in r && j <= |r| && r[0] < |D| && 0 <= D[r[0]].next == Around(r, 1) < |D|
    ensures LinkedAt(Push(D, r[0], x, tag), Pushed(r, x), j)
  {
    LinkedHas(D, r, 0);
    hide Push, Linked, Pushed;
    assert Around(r, 1) in r && r[0] in r;
    if j >= 1 { LinkedHas(D, r, j - 1); }
    assert j >= 2 ==> Pushed(r, x)[j] == r[j - 1];
    PushAt(D, r[0], x, tag, Pushed(r, x)[j]);
    if j >= 2 {
      DistinctAt(D, r, j - 1, 0);
      if |r| > 1 { DistinctAt(D, r, j - 1, 1); }
    }
  }

  lemma PushLinked(D: seq<Desc>, r: seq<nat>, x: nat, tag: nat)
    requires Linked(D, r) && x < |D| && x !in r
    ensures r[0] < |D| && 0 <= D[r[0]].next == Around(r, 1) < |D|
    ensures Linked(Push(D, r[0], x, tag), Pushed(r, x))
  {
    hide Push, LinkedAt;
    HeadLinks(D, r);
    forall j: nat | j <= |r| ensures LinkedAt(Push(D, r[0], x, tag), Pushed(r, x), j) {
      PushStep(D, r, x, tag, j);
    }
  }

  lemma HeadLinks(D: seq<Desc>, r: seq<nat>)
    requires Linked(D, r)
    ensures r[0] < |D| && 0 <= D[r[0]].next == Around(r, 1) < |D|
  {
    assert LinkedAt(D, r, 0);
  }

  /** The descriptor `y` takes the place of `x` in its list. */
  function Swap(D: seq<Desc>, x: nat, y: nat): seq<Desc>
    requires x < |D| && y < |D| && 0 <= D[x].prev < |D| && 0 <= D[x].next < |D|
  {
    var D1 := D[y := D[y].(next := D[x].next, prev := D[x].prev, tag := D[x].tag)];
    var D2 := D1[D[x].prev := D1[D[x].prev].(next := y)];
    D2[D[x].next := D2[D[x].next].(prev := y, tag := TAG_PAGE)]
  }

  lemma SwapAt(D: seq<Desc>, x: nat, y: nat, z: nat)
    requires x < |D| && y < |D| && 0 <= D[x].prev < |D| && 0 <= D[x].next < |D| && z < |D|
    requires y != D[x].prev && y != D[x].next
    ensures Swap(D, x, y)[z].next == if z == D[x].prev then y else if z == y then D[x].next else D[z].next
    ensures Swap(D, x, y)[z].prev == if z == D[x].next then y else if z == y then D[x].prev else D[z].prev
    ensures |Swap(D, x, y)| == |D|
  {
  }

  lemma SwapStep(D: seq<Desc>, r: seq<nat>, k: nat, y: nat, j: nat)
    requires Linked(D, r) && 1 <= k < |r| && y < |D| && y !in r && j < |r|
    requires r[k] < |D| && 0 <= D[r[k]].prev == r[k - 1] < |D| && 0 <= D[r[k]].next == Around(r, k + 1) < |D|
    ensures LinkedAt(Swap(D, r[k], y), r[k := y], j)
  {
    hide Swap, Linked;
    LinkedHas(D, r, j);
    LinkedHas(D, r, k);
    assert Around(r, k + 1) in r && r[k - 1] in r;
    SwapAt(D, r[k], y, r[k := y][j]);
    DistinctAt(D, r, j, k - 1);
    if k + 1 < |r| { DistinctAt(D, r, j, k + 1); } else { DistinctAt(D, r, j, 0); }
  }

  lemma SwapLinked(D: seq<Desc>, r: seq<nat>, k: nat, y: nat)
    requires Linked(D, r) && 1 <= k < |r| && y < |D| && y !in r
    ensures r[k] < |D| && 0 <= D[r[k]].prev == r[k - 1] < |D| && 0 <= D[r[k]].next == Around(r, k + 1) < |D|
    ensures Linked(Swap(D, r[k], y), r[k := y])
  {
    hide Swap, LinkedAt;
    LinkedLinks(D, r, k);
    var D', r' := Swap(D, r[k], y), r[k := y];
    assert Around(r, k + 1) in r && r[k - 1] in r;
    SwapAt(D, r[k], y, y);
    forall j: nat | j < |r'| ensures LinkedAt(D', r', j) {
      SwapStep(D, r, k, y, j);
    }
  }

  // ---------- the ten rings: the slot lists and the free list ----------

  const RINGS: nat := 10
  const FREE: nat := 9

  /** The list type kept in the low bits of `prev` by the pages of a ring. */
  function RingTag(h: nat): nat {
    if h == FREE then TAG_PAGE else TagOf(MIN_SHIFT + h)
  }

  /** A list of pages `0..P-1` with its head at `P + h`. */
  ghost predicate RingOk(D: seq<Desc>, r: seq<nat>, P: nat, h: nat) {
    && Linked(D, r) && P + h < |D| && r[0] == P + h
    && forall y :: y in r ==> y == P + h || (y < P && D[y].tag == RingTag(h))
  }

  ghost predicate OneRing(R: seq<seq<nat>>, P: nat) {
    forall y: nat, g: nat, h: nat :: y < P && g < |R| && h < |R| && y in R[g] && y in R[h] ==> g == h
  }

  ghost predicate RingsOk(D: seq<Desc>, R: seq<seq<nat>>, P: nat) {
    |D| == P + RINGS && |R| == RINGS && OneRing(R, P) && forall h: nat :: h < RINGS ==> RingOk(D, R[h], P, h)
  }

  ghost predicate OnNone(R: seq<seq<nat>>, y: nat) {
    forall h: nat :: h < |R| ==> y !in R[h]
  }

  /** No size word and no list type of a page changes, and off the rings nothing does. */
  ghost predicate SamePages(D: seq<Desc>, D': seq<Desc>, R: seq<seq<nat>>, P: nat)
    requires P <= |D| == |D'|
  {
    forall y: nat :: y < P ==> D'[y].slab == D[y].slab && D'[y].tag == D[y].tag && (OnNone(R, y) ==> D'[y] == D[y])
  }

  lemma RingFrame(D: seq<Desc>, D': seq<Desc>, r: seq<nat>, P: nat, h: nat)
    requires RingOk(D, r, P, h) && |D'| == |D|
    requires forall y :: y in r && y < |D| ==> D'[y].next == D[y].next && (y < P ==> D'[y].prev == D[y].prev && D'[y].tag == D[y].tag)
    ensures RingOk(D', r, P, h)
  {
    forall i | 0 <= i < |r| && r[i] < |D| ensures i > 0 ==> D'[r[i]].prev == D[r[i]].prev {
      DistinctAt(D, r, 0, i);
      assert r[i] in r;
    }
    LinkedFrame(D, D', r);
  }

  /** Changing descriptors that are on no list. */
  lemma RingsFrame(D: seq<Desc>, D': seq<Desc>, R: seq<seq<nat>>, P: nat)
    requires RingsOk(D, R, P) && |D'| == |D|
    requires forall y: nat :: y < |D| && !OnNone(R, y) ==>
      (D'[y].next == D[y].next && (y < P ==> D'[y].prev == D[y].prev && D'[y].tag == D[y].tag))
    ensures RingsOk(D', R, P)
  {
    forall h: nat | h < RINGS ensures RingOk(D', R[h], P, h) {
      RingFrame(D, D', R[h], P, h);
    }
  }

  /** One ring changes; the others keep their links. */
  lemma RingsChange(D: seq<Desc>, D': seq<Desc>, R: seq<seq<nat>>, P: nat, h: nat, r': seq<nat>, x: nat)
    requires RingsOk(D, R, P) && h < RINGS && |D'| == |D| && RingOk(D', r', P, h)
    requires x < P && (x in R[h] || OnNone(R, x))
    requires forall y :: y in r' ==> y == x || y in R[h]
    requires forall y: nat :: y < |D| && y != x && y !in R[h] ==> D'[y] == D[y]
    ensures RingsOk(D', R[h := r'], P)
  {
    var R' := R[h := r'];
    forall g: nat | g < RINGS ensures RingOk(D', R'[g], P, g) {
      if g != h {
        forall y | y in R[g] && y < |D| ensures D'[y] == D[y] {
          RingsApart(D, R, P, g, h, y);
        }
        RingFrame(D, D', R[g], P, g);
      }
    }
  }

  lemma RingsApart(D: seq<Desc>, R: seq<seq<nat>>, P: nat, g: nat, h: nat, y: nat)
    requires RingsOk(D, R, P) && g < RINGS && h < RINGS && g != h && y in R[g]
    ensures y !in R[h]
  {
    assert RingOk(D, R[g], P, g) && RingOk(D, R[h], P, h);
  }

  lemma RingLinks(D: seq<Desc>, R: seq<seq<nat>>, P: nat, h: nat, k: nat)
    requires RingsOk(D, R, P) && h < RINGS && 1 <= k < |R[h]|
    ensures R[h][k] < P && D[R[h][k]].tag == RingTag(h)
    ensures D[R[h][k]].prev == R[h][k - 1] < |D| && 0 <= D[R[h][k]].next == Around(R[h], k + 1) < |D|
    ensures R[h][k] in R[h] && R[h][k - 1] in R[h] && Around(R[h], k + 1) in R[h]
  {
    assert RingOk(D, R[h], P, h);
    DistinctAt(D, R[h], 0, k);
    LinkedLinks(D, R[h], k);
  }

  /** Taking a page off its list. */
  lemma RingsUnlink(D: seq<Desc>, R: seq<seq<nat>>, P: nat, h: nat, k: nat)
    requires RingsOk(D, R, P) && h < RINGS && 1 <= k < |R[h]|
    ensures var x := R[h][k]; x < P && 0 <= D[x].prev < |D| && 0 <= D[x].next < |D|
    ensures RingsOk(Unlink(D, R[h][k]), R[h := Cut(R[h], k)], P)
    ensures SamePages(D, Unlink(D, R[h][k]), R, P)
  {
    RingLinks(D, R, P, h, k);
    var r, x := R[h], R[h][k];
    assert RingOk(D, r, P, h);
    var D' := Unlink(D, x);
    UnlinkLinked(D, r, k);
    CutMembers(r, k);
    hide Linked, Cut;
    RingsChange(D, D', R, P, h, Cut(r, k), x);
  }

  /** Putting a page that is on no list at the front of a list. */
  lemma RingsPush(D: seq<Desc>, R: seq<seq<nat>>, P: nat, h: nat, x: nat)
    requires RingsOk(D, R, P) && h < RINGS && x < P && OnNone(R, x)
    ensures 0 <= D[P + h].next < |D| && D[P + h].next != x
    ensures RingsOk(Push(D, P + h, x, RingTag(h)), R[h := Pushed(R[h], x)], P)
    ensures var D' := Push(D, P + h, x, RingTag(h)); forall y: nat :: y < P && y != x ==>
      (D'[y].slab == D[y].slab && D'[y].tag == D[y].tag && (OnNone(R, y) ==> D'[y] == D[y]))
    ensures var d := Push(D, P + h, x, RingTag(h))[x]; d.slab == D[x].slab && d.tag == RingTag(h)
  {
    var r := R[h];
    assert RingOk(D, r, P, h);
    PushLinked(D, r, x, RingTag(h));
    var D' := Push(D, P + h, x, RingTag(h));
    PushedMembers(r, x);
    assert Around(r, 1) in r;
    hide Linked, Pushed;
    RingsChange(D, D', R, P, h, Pushed(r, x), x);
  }

  lemma PushedMembers(r: seq<nat>, x: nat)
    requires r != []
    ensures forall y :: y in Pushed(r, x) <==> y == x || y in r
  {
    forall y | y in r ensures y in Pushed(r, x) {
      var j :| 0 <= j < |r| && r[j] == y;
      assert Pushed(r, x)[if j == 0 then 0 else j + 1] == y;
    }
  }

  function Replaced(r: seq<nat>, k: nat, y: nat): seq<nat>
    requires k < |r|
  {
    r[k := y]
  }

  /** One page taking the place of another on the free list. */
  lemma RingsSwap(D: seq<Desc>, R: seq<seq<nat>>, P: nat, k: nat, y: nat)
    requires RingsOk(D, R, P) && 1 <= k < |R[FREE]| && y < P && OnNone(R, y)
    ensures var x := R[FREE][k]; x < P && 0 <= D[x].prev < |D| && 0 <= D[x].next < |D|
    ensures RingsOk(Swap(D, R[FREE][k], y), R[FREE := Replaced(R[FREE], k, y)], P)
    ensures var D' := Swap(D, R[FREE][k], y);
      && D'[y].slab == D[y].slab && D'[y].tag == TAG_PAGE
      && forall z: nat :: z < P && z != y ==> D'[z].slab == D[z].slab && D'[z].tag == D[z].tag && (OnNone(R, z) ==> D'[z] == D[z])
  {
    RingLinks(D, R, P, FREE, k);
    var r, x := R[FREE], R[FREE][k];
    assert RingOk(D, r, P, FREE);
    var D' := Swap(D, x, y);
    SwapLinked(D, r, k, y);
    SwapMembers(r, k, y);
    assert y !in r;
    hide Linked;
    forall z | z in r[k := y] ensures z == P + FREE || (z < P && D'[z].tag == TAG_PAGE) {
      assert z == y || z in r;
      SwapAt(D, x, y, z);
    }
    RingsChange(D, D', R, P, FREE, r[k := y], y);
  }

  lemma SwapMembers(r: seq<nat>, k: nat, y: nat)
    requires Distinct(r) && k < |r| && y !in r
    ensures forall x :: x in r[k := y] <==> x == y || (x in r && x != r[k])
  {
    forall x | x in r && x != r[k] ensures x in r[k := y] {
      var i :| 0 <= i < |r| && r[i] == x;
      assert r[k := y][i] == x;
    }
    assert r[k := y][k] == y;
  }

  // ---------- the invariant ----------

  /** Everything the allocator keeps: descriptors of pages, slot heads and free-list head; the
      words of the pages; what the pages are; and the lists as rings. */
  datatype State = State(D: seq<Desc>, W: seq<word>, K: seq<Kind>, R: seq<seq<nat>>)

  /** One bit of the bitmap of page `i`, in the encoding of its chunk size. */
  predicate MapBit(slab: word, W: seq<word>, i: nat, shift: nat, b: nat)
    requires b < Count(shift) && (i + 1) * PAGE_WORDS <= |W|
  {
    if shift < EXACT_SHIFT then Bit(W[i * PAGE_WORDS + b / WORD_BITS], b % WORD_BITS)
    else if shift == EXACT_SHIFT then Bit(slab, b)
    else Bit(slab, 32 + b)
  }

  ghost predicate BitmapOk(slab: word, W: seq<word>, i: nat, shift: nat, busy: set<nat>)
    requires (i + 1) * PAGE_WORDS <= |W|
  {
    && (forall b: nat :: b < Count(shift) ==> (MapBit(slab, W, i, shift, b) <==> b < Reserved(shift) || b in busy))
    && (shift < EXACT_SHIFT ==> slab == shift)
    && (shift > EXACT_SHIFT ==> slab % UPPER == shift && slab / UPPER < Pow2(Count(shift)))
  }

  ghost predicate ChunksOk(k: Kind)
    requires k.Chunks?
  {
    IsShift(k.shift) && forall b :: b in k.busy ==> Reserved(k.shift) <= b < Count(k.shift)
  }

  ghost predicate PageOk(s: State, i: nat)
    requires i < |s.K| <= |s.D| && |s.W| == PAGE_WORDS * |s.K|
  {
    match s.K[i]
    case Free(n) => s.D[i].slab == n && s.D[i].tag == TAG_PAGE
    case Block(n) => s.D[i].slab == n + PAGE_START && s.D[i].next == NIL && s.D[i].tag == TAG_PAGE
    case Rest(_) => true
    case Chunks(shift, busy) =>
      && ChunksOk(s.K[i]) && BitmapOk(s.D[i].slab, s.W, i, shift, busy)
      && s.D[i].tag == TagOf(shift) && (Full(s.K[i]) ==> s.D[i].next == NIL)
  }

  /** The list a page belongs on: free runs on the free list, pages with a free chunk on the
      list of their size, and all others on none. */
  ghost predicate Belongs(k: Kind, h: nat) {
    if h == FREE then k.Free? else k.Chunks? && k.shift == MIN_SHIFT + h && !Full(k)
  }

  ghost predicate Sized(s: State) {
    |s.K| < PAGE_START && |s.D| == |s.K| + RINGS && |s.W| == PAGE_WORDS * |s.K| && |s.R| == RINGS
  }

  ghost predicate PagesOk(s: State)
    requires Sized(s)
  {
    forall i: nat :: i < |s.K| ==> PageOk(s, i)
  }

  ghost predicate MembersOk(K: seq<Kind>, R: seq<seq<nat>>) {
    forall x: nat, h: nat :: x < |K| && h < |R| ==> (x in R[h] <==> Belongs(K[x], h))
  }

  ghost predicate Inv(s: State) {
    Sized(s) && Tiled(s.K) && PagesOk(s) && RingsOk(s.D, s.R, |s.K|) && MembersOk(s.K, s.R)
  }

  /** What keeps a page right that an operation is not about. */
  lemma PageFrame(s: State, s': State, i: nat)
    requires Sized(s) && Sized(s') && i < |s.K| == |s'.K| && PageOk(s, i) && MembersOk(s.K, s.R)
    requires s'.K[i] == s.K[i] && s'.D[i].slab == s.D[i].slab && s'.D[i].tag == s.D[i].tag
    requires OnNone(s.R, i) ==> s'.D[i] == s.D[i]
    requires forall w :: i * PAGE_WORDS <= w < (i + 1) * PAGE_WORDS ==> s'.W[w] == s.W[w]
    ensures PageOk(s', i)
  {
    if s.K[i].Chunks? {
      BitmapFrame(s.D[i].slab, s.W, s'.W, i, s.K[i].shift, s.K[i].busy);
    }
  }

  lemma BitmapFrame(slab: word, W: seq<word>, W': seq<word>, i: nat, shift: nat, busy: set<nat>)
    requires |W| == |W'| && (i + 1) * PAGE_WORDS <= |W| && BitmapOk(slab, W, i, shift, busy)
    requires forall w :: i * PAGE_WORDS <= w < (i + 1) * PAGE_WORDS ==> W'[w] == W[w]
    ensures BitmapOk(slab, W', i, shift, busy)
  {
    forall b: nat | b < Count(shift) ensures MapBit(slab, W', i, shift, b) == MapBit(slab, W, i, shift, b) {
      assert b / WORD_BITS < PAGE_WORDS;
    }
  }

  lemma LinksApart(s: State, h: nat, k: nat)
    requires Inv(s) && h < RINGS && 1 <= k < |s.R[h]|
    ensures var x := s.R[h][k]; x < |s.K| && s.D[x].prev != x && s.D[x].next != x
    ensures var x := s.R[h][k]; 0 <= s.D[x].prev < |s.D| && 0 <= s.D[x].next < |s.D|
    ensures k + 1 < |s.R[h]| ==> s.D[s.R[h][k]].next == s.R[h][k + 1]
  {
    assert RingOk(s.D, s.R[h], |s.K|, h);
    RingLinks(s.D, s.R, |s.K|, h, k);
    DistinctAt(s.D, s.R[h], k, k - 1);
    if k + 1 < |s.R[h]| { DistinctAt(s.D, s.R[h], k, k + 1); } else { DistinctAt(s.D, s.R[h], k, 0); }
  }

  /** A page on the list `h`, and what is known about it there. */
  lemma OnRing(s: State, x: nat, h: nat) returns (k: nat)
    requires Inv(s) && x < |s.K| && h < RINGS && Belongs(s.K[x], h)
    ensures 1 <= k < |s.R[h]| && s.R[h][k] == x && s.D[x].next != NIL
    ensures 0 <= s.D[x].prev < |s.D| && 0 <= s.D[x].next < |s.D| && s.D[x].prev != x && s.D[x].next != x
  {
    assert x in s.R[h] && RingOk(s.D, s.R[h], |s.K|, h);
    k :| 0 <= k < |s.R[h]| && s.R[h][k] == x;
    LinksApart(s, h, k);
  }

  lemma TiledUpdate(K: seq<Kind>, x: nat, k: Kind)
    requires Tiled(K) && x < |K| && !K[x].Rest? && !k.Rest? && RunLen(k) == RunLen(K[x])
    ensures Tiled(K[x := k])
  {
    var K' := K[x := k];
    forall i: nat | i < |K'| ensures HeadOk(K', i) {
      assert HeadOk(K, i);
    }
    forall j: nat | j < |K'| ensures RestOk(K', j) {
      assert RestOk(K, j);
    }
  }

  /** Different runs share no page. */
  lemma Apart(K: seq<Kind>, i: nat, x: nat, j: nat)
    requires Tiled(K) && i < |K| && x < |K| && !K[i].Rest? && !K[x].Rest? && i != x
    requires i <= j < i + RunLen(K[i])
    ensures !(x <= j < x + RunLen(K[x]))
  {
    assert HeadOk(K, i) && HeadOk(K, x);
  }

  // ---------- ngx_slab_alloc_pages ----------

  /** `s.R[FREE][k]` is the first page of a free run of at least `n` pages. */
  ghost predicate CanTake(s: State, k: nat, n: nat) {
    Inv(s) && 1 <= k < |s.R[FREE]| && s.R[FREE][k] < |s.K| && s.K[s.R[FREE][k]].Free? && 1 <= n <= s.K[s.R[FREE][k]].len
  }

  lemma FreeFacts(s: State, k: nat)
    requires Inv(s) && 1 <= k < |s.R[FREE]|
    ensures var x := s.R[FREE][k]; x < |s.K| && s.K[x].Free? && 1 <= s.K[x].len < PAGE_START && x + s.K[x].len <= |s.K|
    ensures var x := s.R[FREE][k]; s.D[x].slab == s.K[x].len && 0 <= s.D[x].prev < |s.D| && 0 <= s.D[x].next < |s.D|
    ensures var x := s.R[FREE][k]; forall j :: x < j < x + s.K[x].len ==> s.K[j] == Rest(x)
  {
    var x := s.R[FREE][k];
    RingLinks(s.D, s.R, |s.K|, FREE, k);
    assert x in s.R[FREE] && HeadOk(s.K, x) && PageOk(s, x);
  }

  /** The free list with the run shortened from the front or taken off. */
  function TakeLinks(D: seq<Desc>, x: nat, n: nat, len: nat): seq<Desc>
    requires 1 <= n <= len < PAGE_START && x + len <= |D| && 0 <= D[x].prev < |D| && 0 <= D[x].next < |D|
  {
    if len > n then Swap(D[x + n := D[x + n].(slab := len - n)], x, x + n) else Unlink(D, x)
  }

  /** The descriptors of the pages handed out. */
  function TakeRun(D: seq<Desc>, x: nat, n: nat): (D': seq<Desc>)
    requires 1 <= n < PAGE_START && x + n <= |D|
    ensures |D'| == |D|
    ensures forall j :: 0 <= j < |D| ==> D'[j] == if j == x then Desc(n + PAGE_START, NIL, NIL, TAG_PAGE)
              else if x < j < x + n then Desc(BUSY, NIL, NIL, TAG_PAGE) else D[j]
  {
    seq(|D|, j requires 0 <= j < |D| => if j == x then Desc(n + PAGE_START, NIL, NIL, TAG_PAGE)
              else if x < j < x + n then Desc(BUSY, NIL, NIL, TAG_PAGE) else D[j])
  }

  ghost function TakeK(K: seq<Kind>, x: nat, n: nat, len: nat): (K': seq<Kind>)
    requires 1 <= n <= len && x + len <= |K|
    ensures |K'| == |K|
    ensures forall j :: 0 <= j < |K| ==> K'[j] == if j == x then Block(n)
              else if j == x + n && n < len then Free(len - n)
              else if x + n < j < x + len then Rest(x + n) else K[j]
  {
    seq(|K|, j requires 0 <= j < |K| => if j == x then Block(n)
              else if j == x + n && n < len then Free(len - n)
              else if x + n < j < x + len then Rest(x + n) else K[j])
  }

  ghost function TakeR(R: seq<seq<nat>>, k: nat, n: nat, len: nat): seq<seq<nat>>
    requires |R| == RINGS && k < |R[FREE]|
  {
    R[FREE := if len > n then Replaced(R[FREE], k, R[FREE][k] + n) else Cut(R[FREE], k)]
  }

  /** The first `n` pages of the free run become an allocation. */
  ghost function Take(s: State, k: nat, n: nat): State
    requires CanTake(s, k, n)
  {
    FreeFacts(s, k);
    var x, len := s.R[FREE][k], s.K[s.R[FREE][k]].len;
    State(TakeRun(TakeLinks(s.D, x, n, len), x, n), s.W, TakeK(s.K, x, n, len), TakeR(s.R, k, n, len))
  }

  lemma TakeTiled(K: seq<Kind>, x: nat, n: nat)
    requires Tiled(K) && x < |K| && K[x].Free? && 1 <= n <= K[x].len && x + K[x].len <= |K|
    ensures Tiled(TakeK(K, x, n, K[x].len))
  {
    var len, K' := K[x].len, TakeK(K, x, n, K[x].len);
    assert HeadOk(K, x);
    forall i: nat | i < |K'| ensures HeadOk(K', i) {
      assert HeadOk(K, i);
      forall j | !K'[i].Rest? && i < j < i + RunLen(K'[i]) ensures K'[j] == Rest(i) {
        if i < x || i >= x + len {
          Apart(K, i, x, j);
        }
      }
    }
    forall j: nat | j < |K'| ensures RestOk(K', j) {
      assert RestOk(K, j);
    }
  }

  /** The links after the run is shortened or removed. */
  lemma TakeLinksOk(s: State, k: nat, n: nat)
    requires CanTake(s, k, n)
    ensures var x := s.R[FREE][k]; x + s.K[x].len <= |s.K| && 1 <= n <= s.K[x].len < PAGE_START
    ensures var x := s.R[FREE][k]; 0 <= s.D[x].prev < |s.D| && 0 <= s.D[x].next < |s.D|
    ensures var x, len := s.R[FREE][k], s.K[s.R[FREE][k]].len; var D' := TakeLinks(s.D, x, n, len);
      && RingsOk(D', TakeR(s.R, k, n, len), |s.K|)
      && (len > n ==> D'[x + n].slab == len - n && D'[x + n].tag == TAG_PAGE)
      && forall z: nat :: z < |s.K| && !(len > n && z == x + n) ==>
           D'[z].slab == s.D[z].slab && D'[z].tag == s.D[z].tag && (OnNone(s.R, z) ==> D'[z] == s.D[z])
  {
    FreeFacts(s, k);
    var x, len := s.R[FREE][k], s.K[s.R[FREE][k]].len;
    hide Swap, Unlink, RingOk, Cut;
    if len > n {
      var y := x + n;
      assert s.K[y] == Rest(x);
      assert OnNone(s.R, y) by {
        forall h: nat | h < RINGS ensures y !in s.R[h] { assert !Belongs(s.K[y], h); }
      }
      var D0 := s.D[y := s.D[y].(slab := len - n)];
      RingsFrame(s.D, D0, s.R, |s.K|);
      RingsSwap(D0, s.R, |s.K|, k, y);
    } else {
      RingsUnlink(s.D, s.R, |s.K|, FREE, k);
    }
  }

  lemma TakeMembers(s: State, k: nat, n: nat)
    requires CanTake(s, k, n)
    ensures MembersOk(Take(s, k, n).K, Take(s, k, n).R)
  {
    FreeFacts(s, k);
    var s', x, len := Take(s, k, n), s.R[FREE][k], s.K[s.R[FREE][k]].len;
    assert RingOk(s.D, s.R[FREE], |s.K|, FREE);
    hide TakeLinks, TakeRun, Cut, Tiled, PagesOk;
    if len > n {
      assert s.K[x + n] == Rest(x) && x + n !in s.R[FREE];
      SwapMembers(s.R[FREE], k, x + n);
    } else {
      CutMembers(s.R[FREE], k);
    }
    forall z: nat, h: nat | z < |s.K| && h < RINGS ensures z in s'.R[h] <==> Belongs(s'.K[z], h) {
      assert z in s.R[h] <==> Belongs(s.K[z], h);
    }
  }

  lemma TakePages(s: State, k: nat, n: nat)
    requires CanTake(s, k, n)
    ensures Sized(Take(s, k, n)) && PagesOk(Take(s, k, n))
  {
    FreeFacts(s, k);
    var s', x, len := Take(s, k, n), s.R[FREE][k], s.K[s.R[FREE][k]].len;
    TakeLinksOk(s, k, n);
    hide TakeLinks, Swap, Unlink, RingOk, TakeR, BitmapOk;
    forall i: nat | i < |s'.K| ensures PageOk(s', i) {
      if i < x || i >= x + len { PageFrame(s, s', i); }
    }
  }

  /** Handing out pages of a free run keeps the invariant. */
  lemma TakeInv(s: State, k: nat, n: nat)
    requires CanTake(s, k, n)
    ensures Inv(Take(s, k, n))
  {
    FreeFacts(s, k);
    var s', x, len := Take(s, k, n), s.R[FREE][k], s.K[s.R[FREE][k]].len;
    TakeTiled(s.K, x, n);
    TakePages(s, k, n);
    TakeLinksOk(s, k, n);
    TakeMembers(s, k, n);
    hide TakeLinks, PagesOk, RingOk, TakeR, Tiled;
    forall y: nat | x <= y < x + n ensures OnNone(s'.R, y) {
      forall h: nat | h < RINGS ensures y !in s'.R[h] { assert !Belongs(s'.K[y], h); }
    }
    RingsFrame(TakeLinks(s.D, x, n, len), s'.D, s'.R, |s.K|);
  }
}
