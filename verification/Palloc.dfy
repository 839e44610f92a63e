/** The pools of `ngx_palloc.c` and the arrays of `ngx_array.c` that grow in them. Addresses are
    numbers, and the memory that the system gives is a parameter of the calls. */
module Palloc {
  import opened Alignment
  import opened Options

  const ALIGNMENT: nat := 8             // `NGX_ALIGNMENT`
  const POOL_ALIGNMENT: nat := 16       // `NGX_POOL_ALIGNMENT`
  const POOL: nat := 80                 // `sizeof(ngx_pool_t)`
  const POOL_DATA: nat := 32            // `sizeof(ngx_pool_data_t)`
  const POOL_LARGE: nat := 16           // `sizeof(ngx_pool_large_t)`
  const MAX_FROM_POOL: nat := 4095      // `NGX_MAX_ALLOC_FROM_POOL`
  const WORD: nat := 0x1_0000_0000_0000_0000

  /** `ngx_pool_data_t`; all blocks of a pool have one size. */
  datatype Block = Block(base: nat, last: nat, failed: nat)

  /** `ngx_pool_large_t`, at its own address. */
  datatype Large = Large(node: nat, alloc: Option<Region>)

  datatype Region = Region(at: nat, size: nat)

  /** `(size_t) (end - m)` */
  function Room(end: nat, m: nat): nat {
    (end - m) % WORD
  }

  // ---------- the invariant ----------

  predicate Apart(r: Region, s: Region) {
    r.at + r.size <= s.at || s.at + s.size <= r.at
  }

  function Whole(b: Block, psize: nat): Region {
    Region(b.base, psize)
  }

  predicate BlockOk(b: Block, psize: nat) {
    b.base % POOL_ALIGNMENT == 0 && b.base + POOL_DATA <= b.last <= b.base + psize
  }

  predicate InBlock(b: Block, r: Region) {
    b.base + POOL_DATA <= r.at && r.at + r.size <= b.last
  }

  /** The memory of the system: blocks and large pieces, none over another. */
  ghost predicate Separate(blocks: seq<Block>, psize: nat, large: set<Region>) {
    && (forall i, j :: 0 <= i < j < |blocks| ==> Apart(Whole(blocks[i], psize), Whole(blocks[j], psize)))
    && (forall i, r :: 0 <= i < |blocks| && r in large ==> Apart(Whole(blocks[i], psize), r))
    && (forall r, s :: r in large && s in large && r != s ==> Apart(r, s))
    && (forall r :: r in large ==> r.size > 0)
  }

  predicate At(blocks: seq<Block>, i: nat, r: Region) {
    i < |blocks| && InBlock(blocks[i], r)
  }

  /** What was given out lies in a block, before its `last`, or is a large piece. */
  ghost predicate Given(blocks: seq<Block>, large: set<Region>, given: set<Region>) {
    && (forall r :: r in given ==> r.size > 0 && (r in large || exists i :: At(blocks, i, r)))
    && (forall r, s :: r in given && s in given && r != s ==> Apart(r, s))
  }

  ghost predicate BlocksOk(blocks: seq<Block>, psize: nat) {
    forall i :: 0 <= i < |blocks| ==> BlockOk(blocks[i], psize)
  }

  /** A block is passed over only after six failures; of the blocks after it the earlier ones have
      failed at least as often. */
  predicate Counted(blocks: seq<Block>, current: nat) {
    && current < |blocks| && blocks[|blocks| - 1].failed == 0
    && (forall i :: 0 <= i < current ==> blocks[i].failed >= 6)
    && (forall i, j :: current <= i < j < |blocks| ==> blocks[i].failed >= blocks[j].failed)
  }

  // ---------- a piece of a block is given out ----------

  /** The place of a piece. */
  function Start(b: Block, align: bool): nat {
    if align then Align(b.last, ALIGNMENT) else b.last
  }

  /** With ends that are aligned the place is in the block, and the room is what there is. */
  lemma StartOk(b: Block, psize: nat, align: bool)
    requires BlockOk(b, psize) && psize % ALIGNMENT == 0 && psize < WORD
    ensures b.last <= Start(b, align) <= b.base + psize && Room(b.base + psize, Start(b, align)) == b.base + psize - Start(b, align)
  {
    if align {
      EndOf(b.base, psize);
      AlignBelow(b.last, b.base + psize);
    }
    RoomIs(b.base + psize - Start(b, align));
  }

  lemma EndOf(base: nat, psize: nat)
    requires base % POOL_ALIGNMENT == 0
    ensures (base + psize) % ALIGNMENT == psize % ALIGNMENT
  {
    assert base == 8 * (2 * (base / 16));
  }

  /** The first piece of a new block is right behind its header. */
  lemma FirstPlace(base: nat)
    requires base % POOL_ALIGNMENT == 0
    ensures Align(base + POOL_DATA, ALIGNMENT) == base + POOL_DATA && (base + POOL_DATA) % ALIGNMENT == 0
  {
    EndOf(base, POOL_DATA);
    AlignBelow(base + POOL_DATA, base + POOL_DATA);
  }

  lemma AlignBelow(a: nat, e: nat)
    requires a <= e && e % 8 == 0
    ensures Align(a, ALIGNMENT) <= e
  {
  }

  lemma RoomIs(n: nat)
    requires n < WORD
    ensures n % WORD == n
  {
  }

  /** In a full block the aligned place is not behind the end, and there is no room, when and only
      when the size of the blocks is a multiple of the alignment; otherwise the room seems to be
      almost all of memory. */
  lemma FullBlockRoom(b: Block, psize: nat)
    requires BlockOk(b, psize) && b.last == b.base + psize
    ensures psize % ALIGNMENT == 0 <==> Start(b, true) <= b.base + psize && Room(b.base + psize, Start(b, true)) == 0
    ensures psize % ALIGNMENT != 0 ==> Room(b.base + psize, Start(b, true)) > WORD - ALIGNMENT
  {
    EndOf(b.base, psize);
    if psize % ALIGNMENT == 0 {
      AlignBelow(b.last, b.base + psize);
    } else {
      Behind(b.base + psize);
    }
  }

  lemma Behind(e: nat)
    requires e % ALIGNMENT != 0
    ensures Align(e, ALIGNMENT) > e && (e - Align(e, ALIGNMENT)) % WORD > WORD - ALIGNMENT
  {
    var m: int := Align(e, ALIGNMENT) - e;
    assert (-m) % WORD == WORD - m;
  }

  function Carve(b: Block, m: nat, size: nat): Block {
    b.(last := m + size)
  }

  lemma CarveSeparate(blocks: seq<Block>, psize: nat, large: set<Region>, i: nat, b: Block)
    requires i < |blocks| && BlocksOk(blocks, psize) && Separate(blocks, psize, large)
    requires b.base == blocks[i].base && BlockOk(b, psize)
    ensures BlocksOk(blocks[i := b], psize) && Separate(blocks[i := b], psize, large)
  {
    var now := blocks[i := b];
    assert forall k :: 0 <= k < |blocks| ==> Whole(now[k], psize) == Whole(blocks[k], psize);
    hide BlockOk;
  }

  /** What was given out is apart from a piece of a block behind its `last`. */
  lemma CarveApart(blocks: seq<Block>, psize: nat, large: set<Region>, i: nat, r: Region, s: Region)
    requires i < |blocks| && BlocksOk(blocks, psize) && Separate(blocks, psize, large)
    requires blocks[i].last <= r.at && r.at + r.size <= blocks[i].base + psize
    requires s in large || exists k :: At(blocks, k, s)
    ensures Apart(s, r)
  {
    if s in large {
      assert Apart(Whole(blocks[i], psize), s);
    } else {
      var k: nat :| At(blocks, k, s);
      if k < i {
        assert Apart(Whole(blocks[k], psize), Whole(blocks[i], psize));
      } else if i < k {
        assert Apart(Whole(blocks[i], psize), Whole(blocks[k], psize));
      }
      assert BlockOk(blocks[k], psize);
    }
  }

  lemma CarveGiven(blocks: seq<Block>, psize: nat, large: set<Region>, given: set<Region>, i: nat, m: nat, size: nat)
    requires i < |blocks| && BlocksOk(blocks, psize) && Separate(blocks, psize, large) && Given(blocks, large, given)
    requires blocks[i].last <= m && m + size <= blocks[i].base + psize
    ensures Given(blocks[i := Carve(blocks[i], m, size)], large, given + Piece(m, size))
  {
    var now, r := blocks[i := Carve(blocks[i], m, size)], Region(m, size);
    forall s | s in given ensures Apart(s, r) && (s in large || exists k :: At(now, k, s)) {
      CarveApart(blocks, psize, large, i, r, s);
      if s !in large {
        var k: nat :| At(blocks, k, s);
        assert At(now, k, s);
      }
    }
    hide Separate;
    assert At(now, i, r) by { assert BlockOk(blocks[i], psize); }
  }

  /** A piece without bytes needs no place. */
  function Piece(at: nat, size: nat): set<Region> {
    if size > 0 then {Region(at, size)} else {}
  }

  // ---------- new blocks ----------

  /** Memory that the system gives is apart from all that the pool has. */
  ghost predicate Fresh(blocks: seq<Block>, psize: nat, chunks: set<Region>, r: Region) {
    && (forall i :: 0 <= i < |blocks| ==> Apart(Whole(blocks[i], psize), r))
    && forall c :: c in chunks ==> Apart(c, r)
  }

  lemma AddBlock(blocks: seq<Block>, psize: nat, chunks: set<Region>, given: set<Region>, b: Block)
    requires BlocksOk(blocks, psize) && Separate(blocks, psize, chunks) && Given(blocks, chunks, given)
    requires BlockOk(b, psize) && Fresh(blocks, psize, chunks, Whole(b, psize))
    ensures BlocksOk(blocks + [b], psize) && Separate(blocks + [b], psize, chunks) && Given(blocks + [b], chunks, given)
  {
    var now := blocks + [b];
    forall r | r in given ensures r in chunks || exists i :: At(now, i, r) {
      if r !in chunks {
        var i: nat :| At(blocks, i, r);
        assert At(now, i, r);
      }
    }
    hide BlockOk;
  }

  /** The failures of the blocks from `current` on are counted, up to a block. */
  function FailTo(blocks: seq<Block>, current: nat, e: nat): (r: seq<Block>)
    ensures |r| == |blocks|
  {
    seq(|blocks|, i requires 0 <= i < |blocks| =>
      if current <= i < e then blocks[i].(failed := blocks[i].failed + 1) else blocks[i])
  }

  lemma FailStep(blocks: seq<Block>, current: nat, p: nat)
    requires current <= p < |blocks|
    ensures FailTo(blocks, current, p)[p] == blocks[p]
    ensures FailTo(blocks, current, p)[p := blocks[p].(failed := blocks[p].failed + 1)] == FailTo(blocks, current, p + 1)
  {
  }

  /** All but the last. */
  function Fail(blocks: seq<Block>, current: nat): (r: seq<Block>)
    ensures |r| == |blocks|
  {
    if blocks == [] then [] else FailTo(blocks, current, |blocks| - 1)
  }

  /** The blocks of the loop of lines 205-209 that had failed more than four times are passed. */
  ghost predicate Passed(blocks: seq<Block>, current: nat, next: nat) {
    && current <= next < |blocks|
    && (forall i :: current <= i < next ==> blocks[i].failed > 4)
    && (next < |blocks| - 1 ==> blocks[next].failed <= 4)
  }

  lemma FailOk(blocks: seq<Block>, psize: nat, chunks: set<Region>, given: set<Region>, current: nat)
    requires BlocksOk(blocks, psize) && Separate(blocks, psize, chunks) && Given(blocks, chunks, given)
    ensures var now := Fail(blocks, current); BlocksOk(now, psize) && Separate(now, psize, chunks) && Given(now, chunks, given)
  {
    var now := Fail(blocks, current);
    assert forall i :: 0 <= i < |blocks| ==> now[i].base == blocks[i].base && now[i].last == blocks[i].last;
    hide Fail;
    assert forall i :: 0 <= i < |blocks| ==> Whole(now[i], psize) == Whole(blocks[i], psize);
    forall r | r in given ensures r in chunks || exists i :: At(now, i, r) {
      if r !in chunks {
        var i: nat :| At(blocks, i, r);
        assert At(now, i, r);
      }
    }
  }

  lemma FreshFail(blocks: seq<Block>, psize: nat, chunks: set<Region>, current: nat, r: Region)
    requires Fresh(blocks, psize, chunks, r)
    ensures Fresh(Fail(blocks, current), psize, chunks, r)
  {
    var now := Fail(blocks, current);
    assert forall i :: 0 <= i < |blocks| ==> Whole(now[i], psize) == Whole(blocks[i], psize);
  }

  lemma PassedOn(blocks: seq<Block>, current: nat, next: nat)
    requires Passed(blocks, current, next)
    ensures current <= next
  {
  }

  lemma CarveAll(blocks: seq<Block>, psize: nat, large: set<Region>, given: set<Region>, i: nat, r: Region)
    requires i < |blocks| && BlocksOk(blocks, psize) && Separate(blocks, psize, large) && Given(blocks, large, given)
    requires blocks[i].last <= r.at && r.at + r.size <= blocks[i].base + psize
    ensures forall s :: s in given ==> Apart(s, r)
  {
    forall s | s in given ensures Apart(s, r) {
      CarveApart(blocks, psize, large, i, r, s);
    }
  }

  lemma NotAChunk(blocks: seq<Block>, psize: nat, chunks: set<Region>, i: nat, r: Region)
    requires i < |blocks| && Separate(blocks, psize, chunks) && blocks[i].base < r.at && r.at + r.size <= blocks[i].base + psize
    ensures r !in chunks
  {
  }

  /** The blocks stay where they are, and at most one comes after them. */
  predicate Kept(was: seq<Block>, blocks: seq<Block>, block: Option<nat>) {
    && |was| <= |blocks| && (forall i :: 0 <= i < |was| ==> blocks[i].base == was[i].base)
    && (|blocks| == |was| || (|blocks| == |was| + 1 && block == Some(blocks[|was|].base)))
  }

  lemma FreshKept(was: seq<Block>, blocks: seq<Block>, psize: nat, chunks: set<Region>, block: Option<nat>, c: Region)
    requires Kept(was, blocks, block) && Fresh(was, psize, chunks, c)
    requires block.Some? ==> Apart(Region(block.value, psize), c)
    ensures Fresh(blocks, psize, chunks, c)
  {
    assert forall i :: 0 <= i < |was| ==> Whole(blocks[i], psize) == Whole(was[i], psize);
    assert |blocks| > |was| ==> Whole(blocks[|was|], psize) == Region(block.value, psize);
  }

  lemma FailKept(blocks: seq<Block>, current: nat, b: Block)
    ensures Kept(blocks, Fail(blocks, current) + [b], Some(b.base))
  {
  }

  lemma ResetOk(was: seq<Block>, blocks: seq<Block>, psize: nat, chunks: set<Region>)
    requires Separate(was, psize, chunks) && BlocksOk(was, psize) && psize >= POOL && |blocks| == |was| > 0
    requires forall i :: 0 <= i < |blocks| ==> blocks[i] == Block(was[i].base, was[i].base + POOL, 0)
    ensures Separate(blocks, psize, {}) && BlocksOk(blocks, psize) && Given(blocks, {}, {}) && Counted(blocks, 0)
  {
    assert forall i :: 0 <= i < |blocks| ==> Whole(blocks[i], psize) == Whole(was[i], psize);
    assert forall i :: 0 <= i < |blocks| ==> BlockOk(was[i], psize);
  }

  lemma BlockAt(blocks: seq<Block>, psize: nat, i: nat)
    requires BlocksOk(blocks, psize) && i < |blocks|
    ensures BlockOk(blocks[i], psize)
  {
  }

  lemma CarveCounted(blocks: seq<Block>, current: nat, i: nat, b: Block)
    requires Counted(blocks, current) && i < |blocks| && b.failed == blocks[i].failed
    ensures Counted(blocks[i := b], current)
  {
  }

  lemma FailCounted(blocks: seq<Block>, current: nat, next: nat, b: Block)
    requires Counted(blocks, current) && Passed(blocks, current, next) && b.failed == 0
    ensures Counted(Fail(blocks, current) + [b], next)
  {
  }

  lemma AddChunk(blocks: seq<Block>, psize: nat, chunks: set<Region>, given: set<Region>, c: Region)
    requires BlocksOk(blocks, psize) && Separate(blocks, psize, chunks) && Given(blocks, chunks, given)
    requires c.size > 0 && Fresh(blocks, psize, chunks, c)
    ensures Separate(blocks, psize, chunks + {c}) && Given(blocks, chunks + {c}, given + {c})
    ensures c !in given && c !in chunks && forall r :: r in given ==> Apart(r, c)
  {
    ChunkSeparate(blocks, psize, chunks, c);
    forall r | r in given ensures Apart(r, c) {
      if r !in chunks {
        var i: nat :| At(blocks, i, r);
        assert Apart(Whole(blocks[i], psize), c) && BlockOk(blocks[i], psize);
      }
    }
    assert !Apart(c, c);
    hide Separate, BlocksOk, Fresh, At;
  }

  lemma ChunkSeparate(blocks: seq<Block>, psize: nat, chunks: set<Region>, c: Region)
    requires Separate(blocks, psize, chunks) && c.size > 0 && Fresh(blocks, psize, chunks, c)
    ensures Separate(blocks, psize, chunks + {c})
  {
  }

  lemma DropChunk(blocks: seq<Block>, psize: nat, chunks: set<Region>, given: set<Region>, c: Region)
    requires Separate(blocks, psize, chunks) && Given(blocks, chunks, given)
    ensures Separate(blocks, psize, chunks - {c}) && Given(blocks, chunks - {c}, given - {c})
  {
  }

  lemma FirstBlock(blocks: seq<Block>, current: nat)
    requires Counted(blocks, current)
    ensures blocks != []
  {
  }

  // ---------- the pool ----------

  /** The large pieces are those of the list, whose nodes are pieces of the pool. */
  ghost predicate LargeOk(large: seq<Large>, chunks: set<Region>, given: set<Region>, nodes: set<Region>) {
    && nodes <= given && nodes !! chunks
    && (forall i :: 0 <= i < |large| ==> Region(large[i].node, POOL_LARGE) in nodes)
    && (forall i :: 0 <= i < |large| && large[i].alloc.Some? ==> large[i].alloc.value in chunks)
    && (forall i, j :: 0 <= i < j < |large| && large[i].alloc.Some? ==> large[i].alloc != large[j].alloc)
    && (forall c :: c in chunks ==> c in given && exists i :: 0 <= i < |large| && large[i].alloc == Some(c))
  }

  /** One of the first five nodes that has given its piece back. */
  predicate FirstFree(large: seq<Large>, i: nat) {
    i < |large| && i < 5 && large[i].alloc.None? && forall j :: 0 <= j < i ==> large[j].alloc.Some?
  }

  lemma LargeGrows(large: seq<Large>, chunks: set<Region>, given: set<Region>, nodes: set<Region>, more: set<Region>)
    requires LargeOk(large, chunks, given, nodes) && given <= more
    ensures LargeOk(large, chunks, more, nodes)
  {
  }

  /** Pieces that are neither large nor nodes come and go. */
  lemma LargeChanges(large: seq<Large>, chunks: set<Region>, given: set<Region>, nodes: set<Region>, r: Region, more: set<Region>)
    requires LargeOk(large, chunks, given, nodes) && r !in nodes && r !in chunks
    ensures LargeOk(large, chunks, given - {r} + more, nodes)
  {
  }

  /** A free node of the list takes a piece. */
  lemma LargeTakes(large: seq<Large>, chunks: set<Region>, given: set<Region>, nodes: set<Region>, i: nat, c: Region)
    requires i < |large| && large[i].alloc.None? && LargeOk(large, chunks, given, nodes) && c !in given
    ensures LargeOk(large[i := large[i].(alloc := Some(c))], chunks + {c}, given + {c}, nodes)
  {
    var now := large[i := large[i].(alloc := Some(c))];
    assert c !in chunks;
    assert now[i].alloc == Some(c);
    forall d | d in chunks ensures exists k :: 0 <= k < |now| && now[k].alloc == Some(d) {
      var k :| 0 <= k < |large| && large[k].alloc == Some(d);
      assert now[k].alloc == Some(d);
    }
  }

  /** A new node is put before the list. */
  lemma LargePut(large: seq<Large>, chunks: set<Region>, given: set<Region>, nodes: set<Region>, node: nat, c: Region)
    requires LargeOk(large, chunks, given, nodes) && c !in given && Region(node, POOL_LARGE) in given - chunks
    ensures LargeOk([Large(node, Some(c))] + large, chunks + {c}, given + {c}, nodes + {Region(node, POOL_LARGE)})
  {
    var now := [Large(node, Some(c))] + large;
    assert c !in chunks;
    assert now[0].alloc == Some(c);
    forall d | d in chunks ensures exists k :: 0 <= k < |now| && now[k].alloc == Some(d) {
      var k :| 0 <= k < |large| && large[k].alloc == Some(d);
      assert now[k + 1].alloc == Some(d);
    }
  }

  lemma LargeFrees(large: seq<Large>, chunks: set<Region>, given: set<Region>, nodes: set<Region>, i: nat, c: Region)
    requires i < |large| && large[i].alloc == Some(c) && LargeOk(large, chunks, given, nodes)
    ensures c in chunks && c in given && c !in nodes
    ensures LargeOk(large[i := large[i].(alloc := None)], chunks - {c}, given - {c}, nodes)
  {
    var now := large[i := large[i].(alloc := None)];
    forall d | d in chunks - {c} ensures exists k :: 0 <= k < |now| && now[k].alloc == Some(d) {
      var k :| 0 <= k < |large| && large[k].alloc == Some(d);
      assert now[k].alloc == Some(d);
    }
  }

  lemma NodesGiven(large: seq<Large>, chunks: set<Region>, given: set<Region>, nodes: set<Region>)
    requires LargeOk(large, chunks, given, nodes)
    ensures nodes <= given && chunks <= given && nodes !! chunks
  {
  }

  /** A piece that is apart from all others is new. */
  lemma NewPiece(given: set<Region>, at: nat, size: nat)
    requires size > 0 && forall s :: s in given ==> Apart(s, Region(at, size))
    ensures Region(at, size) !in given
  {
    assert !Apart(Region(at, size), Region(at, size));
  }

  /** What the system gives in one call: a block, and a large piece. */
  datatype System = System(block: Option<nat>, piece: Option<nat>)

  class Pool {
    const psize: nat
    const max: nat
    var blocks: seq<Block>
    var current: nat
    var large: seq<Large>
    var memory: nat -> bv8
    ghost var chunks: set<Region>   // the large pieces
    ghost var given: set<Region>    // all pieces, and the large ones
    ghost var nodes: set<Region>    // the pieces that hold the list of large ones

    ghost predicate Valid()
      reads this
    {
      && psize % ALIGNMENT == 0 && POOL + POOL_LARGE <= psize < WORD && POOL_LARGE <= max <= psize - POOL
      && BlocksOk(blocks, psize) && Separate(blocks, psize, chunks) && Given(blocks, chunks, given) && Counted(blocks, current)
      && LargeOk(large, chunks, given, nodes)
    }

    /** What the callers have been given. */
    ghost function Users(): set<Region>
      reads this
    {
      given - nodes
    }

    /** The current block has room for a piece. */
    predicate Roomy(size: nat, align: bool)
      reads this
    {
      current < |blocks| && size <= max && Room(blocks[current].base + psize, Start(blocks[current], align)) >= size
    }

    /** The next piece of the current block. */
    function Next(align: bool): nat
      requires current < |blocks|
      reads this
    {
      Start(blocks[current], align)
    }

    /** `ngx_create_pool` */
    constructor (size: nat, base: nat)
      requires POOL + POOL_LARGE <= size < WORD && size % ALIGNMENT == 0 && base % POOL_ALIGNMENT == 0
      ensures blocks == [Block(base, base + POOL, 0)] && current == 0
      ensures Valid() && given == {} && nodes == {} && psize == size && max == (if size - POOL < MAX_FROM_POOL then size - POOL else MAX_FROM_POOL)
    {
      psize, max := size, if size - POOL < MAX_FROM_POOL then size - POOL else MAX_FROM_POOL;
      blocks, current, large := [Block(base, base + POOL, 0)], 0, [];
      memory := _ => 0;
      chunks, given, nodes := {}, {}, {};
    }

    /** The loops of lines 129-140 and 159-170: the first block from `current` on with room. */
    method FindRoom(size: nat, align: bool) returns (p: nat)
      requires Valid()
      ensures current <= p <= |blocks|
      ensures p < |blocks| ==> Room(blocks[p].base + psize, Start(blocks[p], align)) >= size
      ensures forall i :: current <= i < p ==> Room(blocks[i].base + psize, Start(blocks[i], align)) < size
    {
      p := current;
      while true
        invariant current <= p < |blocks|
        invariant forall i :: current <= i < p ==> Room(blocks[i].base + psize, Start(blocks[i], align)) < size
        decreases |blocks| - p
      {
        if Room(blocks[p].base + psize, Start(blocks[p], align)) >= size {
          return;
        }
        p := p + 1;
        if p == |blocks| {
          return;
        }
      }
    }

    /** What the system gives is aligned, apart from all else, and fits the address space. */
    ghost predicate Sound(w: System, size: nat)
      reads this
    {
      && (w.block.Some? ==> w.block.value % POOL_ALIGNMENT == 0 && Fresh(blocks, psize, chunks, Region(w.block.value, psize)))
      && (w.piece.Some? ==> Fresh(blocks, psize, chunks, Region(w.piece.value, size)))
      && (w.block.Some? && w.piece.Some? ==> Apart(Region(w.block.value, psize), Region(w.piece.value, size)))
    }

    /** Lines 205-209: the failures are counted, and `current` moves on. */
    method CountFailures() returns (next: nat)
      requires Counted(blocks, current)
      modifies this`blocks
      ensures blocks == Fail(old(blocks), current) && Passed(old(blocks), current, next)
    {
      next := current;
      ghost var was := blocks;
      assert blocks == FailTo(was, current, current);
      hide FailTo;
      var p := current;
      while p + 1 < |blocks|
        invariant current <= p < |blocks| == |was| && current <= next <= p
        invariant blocks == FailTo(was, current, p)
        invariant next > current ==> was[next - 1].failed > 4
        invariant forall i :: next <= i < p ==> was[i].failed <= 4
      {
        FailStep(was, current, p);
        if blocks[p].failed > 4 {
          next := p + 1;
        }
        blocks := blocks[p := blocks[p].(failed := blocks[p].failed + 1)];
        p := p + 1;
      }
    }

    /** `ngx_palloc_block` */
    method PallocBlock(size: nat, w: System) returns (r: Option<nat>)
      requires Valid() && size <= max && Sound(w, size)
      modifies this`blocks, this`current, this`given
      ensures Valid() && r.Some? == w.block.Some?
      ensures given == old(given) + (if r.Some? then Piece(r.value, size) else {})
      ensures r.Some? ==> r.value % ALIGNMENT == 0 && forall s :: s in old(given) ==> Apart(s, Region(r.value, size))
      ensures current >= old(current) && (r.Some? ==> Region(r.value, size) !in chunks)
      ensures Kept(old(blocks), blocks, w.block)
    {
      hide Separate, Given, BlocksOk, Counted, LargeOk, Fail, Passed, Align;
      if w.block.None? {
        return None;
      }
      var base := w.block.value;
      var m := Align(base + POOL_DATA, ALIGNMENT);
      FirstPlace(base);
      var b := Block(base, m + size, 0);
      var next := CountFailures();
      FailOk(old(blocks), psize, chunks, given, current);
      FailCounted(old(blocks), current, next, b);
      FreshFail(old(blocks), psize, chunks, current, Whole(b, psize));
      ghost var empty := Block(base, m, 0);
      AddBlock(blocks, psize, chunks, given, empty);
      ghost var n := |blocks|;
      CarveSeparate(blocks + [empty], psize, chunks, n, b);
      CarveGiven(blocks + [empty], psize, chunks, given, n, m, size);
      CarveAll(blocks + [empty], psize, chunks, given, n, Region(m, size));
      assert (blocks + [empty])[n := b] == blocks + [b];
      blocks := blocks + [b];
      FailKept(old(blocks), current, b);
      NotAChunk(blocks, psize, chunks, n, Region(m, size));
      LargeGrows(large, chunks, given, nodes, given + Piece(m, size));
      given := given + Piece(m, size);
      assert current <= next by { PassedOn(old(blocks), current, next); }
      current := next;
      return Some(m);
    }

    /** Lines 127-142 and 157-172: a piece of a block; of the current one, if that has room. */
    method Small(size: nat, align: bool, w: System) returns (r: Option<nat>)
      requires Valid() && size <= max && Sound(w, size)
      modifies this`blocks, this`current, this`given
      ensures Valid() && current >= old(current)
      ensures given == old(given) + (if r.Some? then Piece(r.value, size) else {})
      ensures r.Some? ==> (align ==> r.value % ALIGNMENT == 0) && forall s :: s in old(given) ==> Apart(s, Region(r.value, size))
      ensures r.None? ==> w.block.None?
      ensures r.Some? ==> Region(r.value, size) !in chunks
      ensures Kept(old(blocks), blocks, w.block)
      ensures old(Roomy(size, align)) ==>
        r == Some(old(Next(align))) && current == old(current) && blocks == old(blocks)[current := Carve(old(blocks)[current], r.value, size)]
    {
      hide Separate, Given, BlocksOk, Counted, LargeOk;
      var p := FindRoom(size, align);
      if p == |blocks| {
        r := PallocBlock(size, w);
        return;
      }
      BlockAt(blocks, psize, p);
      StartOk(blocks[p], psize, align);
      var m := Start(blocks[p], align);
      var b := Carve(blocks[p], m, size);
      CarveSeparate(blocks, psize, chunks, p, b);
      CarveGiven(blocks, psize, chunks, given, p, m, size);
      CarveAll(blocks, psize, chunks, given, p, Region(m, size));
      CarveCounted(blocks, current, p, b);
      LargeGrows(large, chunks, given, nodes, given + Piece(m, size));
      blocks := blocks[p := b];
      given := given + Piece(m, size);
      NotAChunk(blocks, psize, chunks, p, Region(m, size));
      return Some(m);
    }

    /** `ngx_palloc_large`: the first free one of the first five nodes takes the piece, or a new node
        before the list. */
    method PallocLarge(size: nat, w: System) returns (r: Option<nat>)
      requires Valid() && size > 0 && Sound(w, size)
      modifies this`blocks, this`current, this`given, this`chunks, this`large, this`nodes
      ensures Valid() && current >= old(current) && nodes >= old(nodes)
      ensures given - nodes == old(given - nodes) + (if r.Some? then {Region(r.value, size)} else {}) || r.None?
      ensures r.Some? ==> r == w.piece && forall s :: s in old(given) ==> Apart(s, Region(r.value, size))
      ensures r.None? ==> given == old(given) && nodes == old(nodes) && (w.piece.None? || w.block.None?)
      ensures r.None? ==> large == old(large)
      ensures r.Some? ==> forall i: nat :: FirstFree(old(large), i) ==> large == old(large)[i := old(large)[i].(alloc := Some(Region(r.value, size)))]
      ensures r.Some? && (forall i: nat :: !FirstFree(old(large), i)) ==>
        && |large| == |old(large)| + 1 && large[1..] == old(large)
        && large[0].alloc == Some(Region(r.value, size)) && Region(large[0].node, POOL_LARGE) in nodes
    {
      hide Separate, Given, BlocksOk, Counted, LargeOk;
      if w.piece.None? {
        return None;
      }
      var c := Region(w.piece.value, size);
      assert nodes <= given by { NodesGiven(large, chunks, given, nodes); }
      var i := 0;
      while i < |large|
        invariant 0 <= i <= |large| && i <= 4 && forall j :: 0 <= j < i ==> large[j].alloc.Some?
      {
        if large[i].alloc.None? {
          assert FirstFree(large, i);
          AddChunk(blocks, psize, chunks, given, c);
          LargeTakes(large, chunks, given, nodes, i, c);
          large := large[i := large[i].(alloc := Some(c))];
          chunks, given := chunks + {c}, given + {c};
          return Some(c.at);
        }
        if i > 3 {
          break;
        }
        i := i + 1;
      }
      var node := Small(POOL_LARGE, true, System(w.block, None));
      if node.None? {
        return None;
      }
      FreshKept(old(blocks), blocks, psize, chunks, w.block, c);
      NewPiece(old(given), node.value, POOL_LARGE);
      r := NewLarge(node.value, c);
    }

    /** Lines 250-252. */
    method NewLarge(node: nat, c: Region) returns (r: Option<nat>)
      requires Valid() && c.size > 0 && Fresh(blocks, psize, chunks, c) && Region(node, POOL_LARGE) in given - chunks
      modifies this`given, this`chunks, this`large, this`nodes
      ensures Valid() && r == Some(c.at) && given == old(given) + {c} && nodes == old(nodes) + {Region(node, POOL_LARGE)}
      ensures large == [Large(node, Some(c))] + old(large)
      ensures c !in old(given) && forall s :: s in old(given) ==> Apart(s, c)
    {
      hide Separate, Given, BlocksOk, Counted, LargeOk;
      AddChunk(blocks, psize, chunks, given, c);
      LargePut(large, chunks, given, nodes, node, c);
      large := [Large(node, Some(c))] + large;
      chunks, given, nodes := chunks + {c}, given + {c}, nodes + {Region(node, POOL_LARGE)};
      return Some(c.at);
    }

    /** `ngx_palloc` and, without alignment, `ngx_pnalloc`: the callers have one piece more, and it
        is apart from all that was given out before. */
    method Alloc(size: nat, align: bool, w: System) returns (r: Option<nat>)
      requires Valid() && Sound(w, size)
      modifies this`blocks, this`current, this`given, this`chunks, this`large, this`nodes
      ensures Valid() && current >= old(current)
      ensures Users() == old(Users()) + (if r.Some? then Piece(r.value, size) else {})
      ensures r.Some? ==> forall s :: s in old(Users()) ==> Apart(s, Region(r.value, size))
      ensures r.Some? && align && size <= max ==> r.value % ALIGNMENT == 0
      ensures r.None? ==> w.piece.None? || w.block.None?
      ensures old(Roomy(size, align)) ==>
        r == Some(old(Next(align))) && current == old(current) && blocks == old(blocks)[current := Carve(old(blocks)[current], r.value, size)]
    {
      hide Separate, Given, BlocksOk, Counted, LargeOk;
      if size <= max {
        assert nodes <= given by { NodesGiven(large, chunks, given, nodes); }
        r := Small(size, align, w);
        if r.Some? && size > 0 {
          NewPiece(old(given), r.value, size);
        }
      } else {
        r := PallocLarge(size, w);
      }
    }

    /** `p->d.last += k`, when the last piece of the first block is the caller's. */
    method Extend(ghost at: nat, ghost size: nat, k: nat)
      requires Valid() && Piece(at, size) <= Users() && at + size == blocks[0].last && blocks[0].last + k <= blocks[0].base + psize
      modifies this`blocks, this`given
      ensures Valid() && Users() == old(Users()) - Piece(at, size) + Piece(at, size + k)
      ensures k > 0 ==> Region(at, size + k) !in old(Users())
      ensures blocks == old(blocks)[0 := Block(old(blocks)[0].base, old(blocks)[0].last + k, old(blocks)[0].failed)]
    {
      hide Separate, Given, BlocksOk, Counted, LargeOk;
      FirstBlock(blocks, current);
      BlockAt(blocks, psize, 0);
      var b := blocks[0].(last := blocks[0].last + k);
      CarveSeparate(blocks, psize, chunks, 0, b);
      CarveCounted(blocks, current, 0, b);
      NodesGiven(large, chunks, given, nodes);
      ghost var r := Region(at, size);
      if size > 0 {
        InFirst(blocks, psize, chunks, given, r);
        GrowGiven(blocks, psize, chunks, given, r, k);
        NewEnd(blocks, psize, chunks, given, r, k);
        LargeChanges(large, chunks, given, nodes, r, {Region(at, size + k)});
        given := given - {r} + {Region(at, size + k)};
      } else {
        CarveGiven(blocks, psize, chunks, given, 0, at, k);
        CarveAll(blocks, psize, chunks, given, 0, Region(at, k));
        LargeGrows(large, chunks, given, nodes, given + Piece(at, k));
        if k > 0 {
          NewPiece(given, at, k);
        }
        given := given + Piece(at, k);
      }
      blocks := blocks[0 := b];
    }

    /** `ngx_memcpy` within the memory of the pool. */
    method Copy(dst: nat, src: nat, n: nat)
      requires Valid()
      modifies this`memory
      ensures Valid() && memory == Copied(old(memory), dst, src, n) && Users() == old(Users())
    {
      memory := Copied(memory, dst, src, n);
    }

    /** `p->d.last = at`, for a caller's piece that ends there. */
    method Retract(at: nat, ghost size: nat)
      requires Valid() && Piece(at, size) <= Users() && at + size == blocks[0].last
      modifies this`blocks, this`given
      ensures Valid() && Users() == old(Users()) - Piece(at, size)
      ensures blocks == old(blocks)[0 := Block(old(blocks)[0].base, at, old(blocks)[0].failed)]
    {
      hide Separate, Given, BlocksOk, Counted, LargeOk;
      FirstBlock(blocks, current);
      ghost var r := Region(at, size);
      var b := blocks[0].(last := at);
      if size > 0 {
        InFirst(blocks, psize, chunks, given, r);
        ShrinkGiven(blocks, psize, chunks, given, r);
        CarveSeparate(blocks, psize, chunks, 0, b);
        CarveCounted(blocks, current, 0, b);
        LargeChanges(large, chunks, given, nodes, r, {});
        assert given - {r} + {} == given - {r};
        given := given - {r};
      } else {
        assert blocks[0 := b] == blocks;
      }
      blocks := blocks[0 := b];
    }

    /** `ngx_pfree`: a large piece is given back; anything else stays. */
    method Pfree(p: nat) returns (ok: bool)
      requires Valid()
      modifies this`large, this`chunks, this`given
      ensures Valid() && ok == exists c :: c in old(chunks) && c.at == p
      ensures ok ==> exists c :: c in old(chunks) && c.at == p && Users() == old(Users()) - {c}
      ensures !ok ==> Users() == old(Users()) && large == old(large)
    {
      hide Separate, Given, BlocksOk, Counted;
      var i := 0;
      while i < |large|
        invariant 0 <= i <= |large|
        invariant forall k :: 0 <= k < i && large[k].alloc.Some? ==> large[k].alloc.value.at != p
      {
        if large[i].alloc.Some? && large[i].alloc.value.at == p {
          ghost var c := large[i].alloc.value;
          LargeFrees(large, chunks, given, nodes, i, c);
          DropChunk(blocks, psize, chunks, given, c);
          large := large[i := large[i].(alloc := None)];
          chunks, given := chunks - {c}, given - {c};
          return true;
        }
        i := i + 1;
      }
      return false;
    }

    /** `ngx_reset_pool`: nothing is given out any more. */
    method Reset()
      requires Valid()
      modifies this
      ensures Valid() && given == {} && chunks == {} && large == [] && current == 0
      ensures |blocks| == |old(blocks)| && forall i :: 0 <= i < |blocks| ==> blocks[i] == Block(old(blocks)[i].base, old(blocks)[i].base + POOL, 0)
    {
      ghost var was := blocks;
      var i := 0;
      while i < |blocks|
        invariant 0 <= i <= |blocks| == |was|
        invariant forall k :: 0 <= k < |was| ==> blocks[k] == if k < i then Block(was[k].base, was[k].base + POOL, 0) else was[k]
      {
        blocks := blocks[i := Block(blocks[i].base, blocks[i].base + POOL, 0)];
        i := i + 1;
      }
      current, large := 0, [];
      chunks, given, nodes := {}, {}, {};
      ResetOk(was, blocks, psize, old(chunks));
    }
  }

  // ---------- arrays ----------

  /** Memory after `ngx_memcpy`. */
  function Copied(m: nat -> bv8, dst: nat, src: nat, n: nat): nat -> bv8 {
    (a: nat) => if dst <= a < dst + n then m(a - dst + src) else m(a)
  }

  /** A piece that ends where the first block's pieces end lies in that block. */
  lemma InFirst(blocks: seq<Block>, psize: nat, chunks: set<Region>, given: set<Region>, r: Region)
    requires blocks != [] && BlocksOk(blocks, psize) && Separate(blocks, psize, chunks) && Given(blocks, chunks, given)
    requires r in given && r.at + r.size == blocks[0].last
    ensures InBlock(blocks[0], r) && r !in chunks
  {
    assert BlockOk(blocks[0], psize) && r.size > 0;
    assert !Apart(Whole(blocks[0], psize), r);
    var k: nat :| At(blocks, k, r);
    assert BlockOk(blocks[k], psize);
    assert !Apart(Whole(blocks[0], psize), Whole(blocks[k], psize));
  }

  /** The last piece of the first block grows. */
  lemma GrowGiven(blocks: seq<Block>, psize: nat, chunks: set<Region>, given: set<Region>, r: Region, k: nat)
    requires blocks != [] && BlocksOk(blocks, psize) && Separate(blocks, psize, chunks) && Given(blocks, chunks, given)
    requires r in given && r.at + r.size == blocks[0].last && blocks[0].last + k <= blocks[0].base + psize
    ensures var b := blocks[0].(last := blocks[0].last + k);
      Given(blocks[0 := b], chunks, given - {r} + {Region(r.at, r.size + k)})
  {
    var b, t := blocks[0].(last := blocks[0].last + k), Region(r.at, r.size + k);
    var now := blocks[0 := b];
    InFirst(blocks, psize, chunks, given, r);
    forall s | s in given && s != r ensures Apart(s, t) && (s in chunks || exists i :: At(now, i, s)) {
      assert Apart(s, r) && s.size > 0;
      CarveApart(blocks, psize, chunks, 0, Region(blocks[0].last, k), s);
      if s !in chunks {
        var i: nat :| At(blocks, i, s);
        assert At(now, i, s);
      }
    }
    assert At(now, 0, t) && r.size > 0;
    hide Separate, BlocksOk, At;
  }

  /** The longer piece was not there before. */
  lemma NewEnd(blocks: seq<Block>, psize: nat, chunks: set<Region>, given: set<Region>, r: Region, k: nat)
    requires Given(blocks, chunks, given) && r in given
    ensures k > 0 ==> Region(r.at, r.size + k) !in given
  {
    assert r.size > 0;
    assert k > 0 ==> !Apart(r, Region(r.at, r.size + k));
  }

  /** The last piece of the first block is given back. */
  lemma ShrinkGiven(blocks: seq<Block>, psize: nat, chunks: set<Region>, given: set<Region>, r: Region)
    requires blocks != [] && BlocksOk(blocks, psize) && Separate(blocks, psize, chunks) && Given(blocks, chunks, given)
    requires r in given && r.at + r.size == blocks[0].last
    ensures var b := blocks[0].(last := r.at);
      BlockOk(b, psize) && Given(blocks[0 := b], chunks, given - {r})
  {
    var b := blocks[0].(last := r.at);
    var now := blocks[0 := b];
    InFirst(blocks, psize, chunks, given, r);
    assert BlockOk(blocks[0], psize);
    forall s | s in given && s != r ensures s in chunks || exists i :: At(now, i, s) {
      assert Apart(s, r) && s.size > 0;
      if s !in chunks {
        var i: nat :| At(blocks, i, s);
        assert At(now, i, s);
      }
    }
    hide Separate, BlocksOk, At;
  }

  /** The bytes of the elements are the same at their new place. */
  ghost predicate Saved(m: nat -> bv8, m': nat -> bv8, was: nat, now: nat, n: nat) {
    forall a: nat :: now <= a < now + n ==> m'(a) == m(a - now + was)
  }

  /** The bytes of all other pieces are the same. */
  ghost predicate OthersSaved(m: nat -> bv8, m': nat -> bv8, users: set<Region>) {
    forall s, a: nat :: s in users && s.at <= a < s.at + s.size ==> m'(a) == m(a)
  }

  /** A copy saves the elements. */
  lemma CopyOwn(m: nat -> bv8, dst: nat, src: nat, n: nat, k: nat)
    requires k <= n
    ensures Saved(m, Copied(m, dst, src, n), src, dst, k)
  {
  }

  /** A copy to a new piece saves all other pieces, if it fits. */
  lemma CopyOthers(m: nat -> bv8, dst: nat, src: nat, n: nat, others: set<Region>, size: nat)
    requires n <= size && forall s :: s in others ==> Apart(s, Region(dst, size))
    ensures OthersSaved(m, Copied(m, dst, src, n), others)
  {
  }

  lemma NothingMoved(m: nat -> bv8, others: set<Region>)
    ensures OthersSaved(m, m, others)
  {
  }

  /** The bytes of `n` elements. */
  function Span(size: nat, n: nat): nat {
    size * n
  }

  lemma SpanSum(size: nat, m: nat, n: nat)
    ensures Span(size, m + n) == Span(size, m) + Span(size, n)
  {
  }

  lemma SpanGrows(size: nat, a: nat, b: nat)
    requires a <= b
    ensures Span(size, a) <= Span(size, b)
  {
  }

  const ARRAY: nat := 40                // `sizeof(ngx_array_t)`

  /** The next piece of a block that is used up to an aligned place. */
  lemma NextPlace(b: Block, psize: nat)
    requires b.last % ALIGNMENT == 0 && b.base <= b.last <= b.base + psize && psize < WORD
    ensures Start(b, true) == b.last && Room(b.base + psize, b.last) == b.base + psize - b.last
  {
    AlignBelow(b.last, b.last);
    RoomIs(b.base + psize - b.last);
  }

  /** What is away from the blocks does not end where a piece of the first one does. */
  lemma Away(blocks: seq<Block>, psize: nat, chunks: set<Region>, r: Region)
    requires blocks != [] && BlocksOk(blocks, psize) && r.size > 0 && r.at + r.size == blocks[0].last
    ensures !Fresh(blocks, psize, chunks, r)
  {
    assert BlockOk(blocks[0], psize) && !Apart(Whole(blocks[0], psize), r);
  }

  /** `ngx_array_t`. Its elements are a piece of the pool, if they take any bytes. */
  class Array {
    const pool: Pool
    const size: nat
    var elts: nat
    var nelts: nat
    var nalloc: nat

    ghost predicate Valid()
      reads this, pool
    {
      pool.Valid() && Piece(elts, Span(size, nalloc)) <= pool.Users()
    }

    /** The elements are in the piece. */
    predicate Within()
      reads this
    {
      nelts <= nalloc
    }

    /** `ngx_array_init`, with memory for the elements at hand. */
    constructor (p: Pool, n: nat, size: nat, elts: nat)
      requires p.Valid() && Piece(elts, Span(size, n)) <= p.Users()
      ensures Valid() && Within() && pool == p && nelts == 0 && nalloc == n && this.elts == elts && this.size == size
    {
      pool, this.size := p, size;
      this.elts, nelts, nalloc := elts, 0, n;
    }

    /** What the callers have besides this array. */
    ghost function Others(): set<Region>
      reads this, pool
    {
      pool.Users() - Piece(elts, Span(size, nalloc))
    }

    /** Whether the array is the last piece of the first block and `n` elements more fit there. */
    predicate AtEnd(n: nat)
      reads this, pool
    {
      && pool.blocks != [] && elts + Span(size, nalloc) == pool.blocks[0].last
      && pool.blocks[0].last + Span(size, n) <= pool.blocks[0].base + pool.psize
    }

    /** Lines 73-74 and 122-123: the array grows where it is. */
    method Extend(n: nat)
      requires Valid() && AtEnd(n)
      modifies this`nalloc, pool
      ensures Valid() && Others() == old(Others()) && nalloc == old(nalloc) + n && pool.memory == old(pool.memory)
    {
      SpanSum(size, nalloc, n);
      hide Span, Separate, Given, BlocksOk, Counted, LargeOk;
      pool.Extend(elts, Span(size, nalloc), Span(size, n));
      nalloc := nalloc + n;
    }

    /** Lines 79-86 and 128-137: a new piece for `more` elements, with the first `count` of the
        old ones. */
    method Move(more: nat, count: nat, w: System) returns (ok: bool)
      requires Valid() && nelts <= count && pool.Sound(w, Span(size, more))
      modifies this`elts, this`nalloc, pool
      ensures Valid() && old(Others()) <= Others()
      ensures ok ==> nalloc == more && (old(pool.Roomy(Span(size, more), true)) ==> elts == old(pool.Next(true)))
      ensures !ok ==> elts == old(elts) && nalloc == old(nalloc) && pool.memory == old(pool.memory)
      ensures ok || w.piece.None? || w.block.None?
      ensures old(pool.Roomy(Span(size, more), true)) ==>
        ok && pool.current == old(pool.current) && pool.blocks == old(pool.blocks)[pool.current := Carve(old(pool.blocks)[pool.current], elts, Span(size, more))]
      ensures ok ==> Saved(old(pool.memory), pool.memory, old(elts), elts, Span(size, nelts))
      ensures count <= more || !ok ==> OthersSaved(old(pool.memory), pool.memory, old(Others()))
    {
      hide Span, Saved, OthersSaved, Copied, Separate, Given, BlocksOk, Counted, LargeOk, Room, Start;
      SpanGrows(size, nelts, count);
      ghost var m, others := pool.memory, Others();
      var place := pool.Alloc(Span(size, more), true, w);
      if place.None? {
        NothingMoved(m, others);
        return false;
      }
      CopyOwn(m, place.value, elts, Span(size, count), Span(size, nelts));
      if count <= more {
        SpanGrows(size, count, more);
        CopyOthers(m, place.value, elts, Span(size, count), others, Span(size, more));
      }
      pool.Copy(place.value, elts, Span(size, count));
      elts, nalloc := place.value, more;
      return true;
    }

    /** `ngx_array_push`: a place for one element; the elements and all that others have stay as
        they are. The place is in the piece of the array unless that has no bytes and cannot grow
        where it is, and unless an element was outside before. */
    method Push(w: System) returns (r: Option<nat>)
      requires Valid() && pool.Sound(w, Span(size, 2 * nalloc))
      modifies this, pool
      ensures Valid() && old(Others()) <= Others()
      ensures r.Some? ==> nelts == old(nelts) + 1 && r.value == elts + Span(size, old(nelts))
      ensures r.Some? ==> (Within() <==> old(Within()) && (old(nalloc) > 0 || old(AtEnd(1))))
      ensures r.None? ==> nelts == old(nelts) && nalloc == old(nalloc) && elts == old(elts) && (w.piece.None? || w.block.None?)
      ensures Saved(old(pool.memory), pool.memory, old(elts), elts, Span(size, old(nelts)))
      ensures OthersSaved(old(pool.memory), pool.memory, old(Others()))
      ensures old(nelts == nalloc && !AtEnd(1) && pool.Roomy(Span(size, 2 * nalloc), true)) ==>
        && r.Some? && nalloc == 2 * old(nalloc) && elts == old(pool.Next(true)) && pool.current == old(pool.current)
        && pool.blocks == old(pool.blocks)[pool.current := Carve(old(pool.blocks)[pool.current], elts, Span(size, nalloc))]
    {
      hide Span, Copied, Separate, Given, BlocksOk, Counted, LargeOk, Room, Start;
      if nelts == nalloc {
        if AtEnd(1) {
          Extend(1);
        } else {
          var ok := Move(2 * nalloc, nalloc, w);
          if !ok {
            return None;
          }
        }
      }
      r := Some(elts + Span(size, nelts));
      nelts := nelts + 1;
    }

    /** `ngx_array_push_n`. Elements outside of the piece come back into it only when a new piece is
        long enough for all, and the bytes of others are safe when what is copied fits the new piece. */
    method PushN(n: nat, w: System) returns (r: Option<nat>)
      requires Valid() && pool.Sound(w, Span(size, 2 * (if n >= nalloc then n else nalloc)))
      modifies this, pool
      ensures Valid() && old(Others()) <= Others()
      ensures r.Some? ==> nelts == old(nelts) + n && r.value == elts + Span(size, old(nelts))
      ensures r.Some? ==>
        (Within() <==> old(Within()) || (!old(AtEnd(n)) && old(nelts) + n <= 2 * (if n >= old(nalloc) then n else old(nalloc))))
      ensures r.None? ==> nelts == old(nelts) && nalloc == old(nalloc) && elts == old(elts) && (w.piece.None? || w.block.None?)
      ensures Saved(old(pool.memory), pool.memory, old(elts), elts, Span(size, old(nelts)))
      ensures r.None? || old(AtEnd(n)) || old(nelts) <= 2 * (if n >= old(nalloc) then n else old(nalloc)) ==> OthersSaved(old(pool.memory), pool.memory, old(Others()))
    {
      hide Span, Copied, Separate, Given, BlocksOk, Counted, LargeOk, Room, Start;
      if nelts + n > nalloc {
        if AtEnd(n) {
          Extend(n);
        } else {
          var ok := Move(2 * (if n >= nalloc then n else nalloc), nelts, w);
          if !ok {
            return None;
          }
        }
      }
      r := Some(elts + Span(size, nelts));
      nelts := nelts + n;
    }

    /** `ngx_array_destroy` of an array whose own place `self` is a piece of the pool, or away from
        it: what is at the end of the first block is given back, and nothing of the others. */
    method Destroy(self: nat)
      requires Valid()
      requires Region(self, ARRAY) in Others() || Fresh(pool.blocks, pool.psize, pool.chunks, Region(self, ARRAY))
      modifies pool
      ensures pool.Valid() && pool.memory == old(pool.memory)
      ensures old(Others()) - {Region(self, ARRAY)} <= pool.Users() <= old(pool.Users())
    {
      FirstBlock(pool.blocks, pool.current);
      if elts + Span(size, nalloc) == pool.blocks[0].last {
        hide Span;
        pool.Retract(elts, Span(size, nalloc));
      }
      if self + ARRAY == pool.blocks[0].last {
        FirstBlock(pool.blocks, pool.current);
        Away(pool.blocks, pool.psize, pool.chunks, Region(self, ARRAY));
        pool.Retract(self, ARRAY);
      }
    }
  }

  /** An array for no elements, another piece after it, and a push: the place that is handed out
      is the one that the pool gives away next. */
  method EmptyArrayOverlaps(base: nat) returns (pushed: nat, given: nat)
    requires base % POOL_ALIGNMENT == 0
    ensures pushed == given
  {
    hide Separate, Given, BlocksOk, Counted, LargeOk, Saved, OthersSaved, Start, Room;
    var pool := new Pool(4096, base);
    EndOf(base, POOL);
    EndOf(base, POOL + 8);
    NextPlace(pool.blocks[0], 4096);
    var none := System(None, None);
    var elts := pool.Alloc(0, true, none);
    var other := pool.Alloc(8, true, none);
    NextPlace(pool.blocks[0], 4096);
    var a := new Array(pool, 0, 8, elts.value);
    var r := a.Push(none);
    var next := pool.Alloc(8, true, none);
    pushed, given := r.value, next.value;
  }
}
