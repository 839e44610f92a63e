/** Buffers and chains in memory. Buffers live in one store and a pointer is an index into it; a
    chain is the sequence of the buffers it links. The steps of the output chain and of the
    filter it feeds are shown to lose, repeat and reorder no byte. */
module ChainFlow {

  type byte = bv8

  /** `ngx_buf_t`; `start` is 0 and `end` is `|mem|`. `mine` is `buf->tag == ctx->tag`. */
  datatype Buf = Buf(mem: seq<byte>, pos: nat, last: nat, kind: Kind, flags: Flags, mine: bool)

  datatype Kind = Kind(temporary: bool, memory: bool, mmap: bool)

  datatype Flags = Flags(flush: bool, lastBuf: bool, sync: bool, lastInChain: bool)

  predicate InMemory(b: Buf) {
    b.kind.temporary || b.kind.memory || b.kind.mmap
  }

  predicate Special(b: Buf) {
    (b.flags.flush || b.flags.lastBuf || b.flags.sync) && !InMemory(b)
  }

  ghost predicate Whole(b: Buf) {
    b.pos <= b.last <= |b.mem|
  }

  /** `ngx_buf_size`; buffers in memory only, so the file range is empty. */
  function Size(b: Buf): nat
    requires Whole(b)
  {
    if InMemory(b) then b.last - b.pos else 0
  }

  /** The bytes a buffer holds. */
  function Data(b: Buf): (d: seq<byte>)
    requires Whole(b)
    ensures |d| == Size(b)
  {
    if InMemory(b) then b.mem[b.pos..b.last] else []
  }

  ghost predicate AllWhole(B: seq<Buf>) {
    forall i :: 0 <= i < |B| ==> Whole(B[i])
  }

  ghost predicate Within(B: seq<Buf>, c: seq<nat>) {
    forall i :: 0 <= i < |c| ==> c[i] < |B|
  }

  /** `a + b`, under a name that proofs can hide. */
  function Cat(a: seq<byte>, b: seq<byte>): seq<byte> {
    a + b
  }

  lemma CatAssoc(a: seq<byte>, b: seq<byte>, c: seq<byte>)
    ensures Cat(Cat(a, b), c) == Cat(a, Cat(b, c))
  {
  }

  lemma CatNil(a: seq<byte>)
    ensures Cat([], a) == a && Cat(a, []) == a
  {
  }

  /** The bytes of a chain, in order. */
  ghost function Bytes(B: seq<Buf>, c: seq<nat>): seq<byte>
    requires AllWhole(B) && Within(B, c)
  {
    if c == [] then [] else Cat(Data(B[c[0]]), Bytes(B, c[1..]))
  }

  lemma {:induction false} BytesAppend(B: seq<Buf>, c: seq<nat>, d: seq<nat>)
    requires AllWhole(B) && Within(B, c) && Within(B, d)
    ensures Within(B, c + d) && Bytes(B, c + d) == Cat(Bytes(B, c), Bytes(B, d))
  {
    if c == [] {
      assert c + d == d;
      CatNil(Bytes(B, d));
    } else {
      assert (c + d)[1..] == c[1..] + d;
      BytesAppend(B, c[1..], d);
      CatAssoc(Data(B[c[0]]), Bytes(B, c[1..]), Bytes(B, d));
      hide Cat, Data;
    }
  }

  lemma {:induction false} BytesFrame(B: seq<Buf>, B': seq<Buf>, c: seq<nat>)
    requires AllWhole(B) && AllWhole(B') && Within(B, c) && Within(B', c)
    requires forall i :: 0 <= i < |c| ==> Data(B'[c[i]]) == Data(B[c[i]])
    ensures Bytes(B', c) == Bytes(B, c)
  {
    if c != [] {
      BytesFrame(B, B', c[1..]);
    }
  }

  lemma BytesOne(B: seq<Buf>, i: nat)
    requires AllWhole(B) && i < |B|
    ensures Bytes(B, [i]) == Data(B[i])
  {
    assert [i][1..] == [];
    CatNil(Data(B[i]));
  }

  ghost predicate Distinct(c: seq<nat>) {
    forall i, j :: 0 <= i < j < |c| ==> c[i] != c[j]
  }

  /** How many buffers of the store carry the tag of the context. */
  ghost function Owned(B: seq<Buf>): nat {
    if B == [] then 0 else Owned(B[..|B| - 1]) + if B[|B| - 1].mine then 1 else 0
  }

  ghost predicate SameTags(B: seq<Buf>, B': seq<Buf>) {
    |B'| == |B| && forall i :: 0 <= i < |B| ==> B'[i].mine == B[i].mine
  }

  lemma {:induction false} OwnedFrame(B: seq<Buf>, B': seq<Buf>)
    requires SameTags(B, B')
    ensures Owned(B') == Owned(B)
  {
    if B != [] {
      OwnedFrame(B[..|B| - 1], B'[..|B| - 1]);
    }
  }

  // ---------- the invariant ----------

  /** Where a buffer is linked: in `ctx->in`, in `ctx->free`, in the queue of the next filter (and
      then possibly in `ctx->busy`), in the output chain being built, drained and to be recycled,
      or nowhere any more. */
  datatype Place = Nowhere | Input | Free | Queue | Out | Spent

  /** The buffers and the chains that link them; `out` is the chain being built, `queue` what the
      next filter holds, `sent` what it has drained, `given` all bytes passed in. */
  datatype Flow = Flow(store: seq<Buf>, place: seq<Place>, input: seq<nat>, free: seq<nat>, busy: seq<nat>,
                       queue: seq<nat>, out: seq<nat>, sent: seq<byte>, given: seq<byte>)

  ghost predicate Empty(b: Buf) {
    b.kind.temporary && b.pos == 0 && b.last == 0 && |b.mem| > 0
  }

  /** Tagged buffers are the context's own: temporary, empty when free, with bytes when handed on. */
  ghost predicate BufOk(b: Buf, p: Place) {
    && Whole(b) && (b.mine ==> b.kind.temporary && |b.mem| > 0 && (p.Free? || p.Queue? || p.Out? || p.Spent?))
    && (p.Free? ==> b.mine && Empty(b)) && ((p.Queue? || p.Out?) && b.mine ==> Size(b) > 0)
  }

  ghost predicate ChainOk(place: seq<Place>, c: seq<nat>, p: Place) {
    Distinct(c) && forall i :: 0 <= i < |c| ==> c[i] < |place| && place[c[i]] == p
  }

  ghost predicate StoreOk(B: seq<Buf>, place: seq<Place>) {
    |place| == |B| && forall i :: 0 <= i < |B| ==> BufOk(B[i], place[i])
  }

  /** The busy buffers are the last ones of the queue, and the tagged ones of it are all busy. */
  ghost predicate BusyOk(B: seq<Buf>, queue: seq<nat>, busy: seq<nat>) {
    && AllWhole(B) && Within(B, queue) && |busy| <= |queue| && queue[|queue| - |busy|..] == busy
    && (forall i :: 0 <= i < |queue| - |busy| ==> !B[queue[i]].mine)
    && (busy == [] || Size(B[queue[|queue| - |busy|]]) > 0)
  }

  ghost predicate Placed(f: Flow) {
    && StoreOk(f.store, f.place) && ChainOk(f.place, f.input, Input) && ChainOk(f.place, f.free, Free)
    && ChainOk(f.place, f.queue, Queue) && ChainOk(f.place, f.out, Out) && BusyOk(f.store, f.queue, f.busy)
  }

  lemma Fits(f: Flow)
    requires Placed(f)
    ensures AllWhole(f.store) && Within(f.store, f.input) && Within(f.store, f.free) && Within(f.store, f.queue) && Within(f.store, f.out)
  {
  }

  /** Everything given so far was handed on or still waits, in order. */
  ghost predicate Conserved(f: Flow)
    requires Placed(f)
  {
    Fits(f);
    Total(f.sent, Bytes(f.store, f.queue), Bytes(f.store, f.out), Bytes(f.store, f.input)) == f.given
  }

  /** What was drained, what the filter holds, what is about to be handed on, and what waits. */
  ghost function Total(sent: seq<byte>, queue: seq<byte>, out: seq<byte>, input: seq<byte>): seq<byte> {
    sent + queue + out + input
  }

  lemma TotalMove(s: seq<byte>, q: seq<byte>, o: seq<byte>, x: seq<byte>, r: seq<byte>)
    ensures Total(s, q, o, Cat(x, r)) == Total(s, q, Cat(o, x), r)
  {
  }

  lemma TotalHand(s: seq<byte>, q: seq<byte>, o: seq<byte>, i: seq<byte>)
    ensures Total(s, q, o, i) == Total(s, Cat(q, o), [], i)
  {
  }

  lemma TotalDrain(s: seq<byte>, x: seq<byte>, q: seq<byte>, o: seq<byte>, i: seq<byte>)
    ensures Total(s, Cat(x, q), o, i) == Total(s + x, q, o, i)
  {
  }

  lemma TotalTack(s: seq<byte>, q: seq<byte>, o: seq<byte>, i: seq<byte>, c: seq<byte>)
    ensures Total(s, q, o, Cat(i, c)) == Total(s, q, o, i) + c
  {
  }

  ghost predicate FlowOk(f: Flow) {
    Placed(f) && Conserved(f)
  }

  // ---------- one round of the inner loop ----------

  lemma HeadTail(B: seq<Buf>, c: seq<nat>)
    requires AllWhole(B) && Within(B, c) && c != []
    ensures Bytes(B, c) == Cat(Data(B[c[0]]), Bytes(B, c[1..]))
  {
  }

  lemma TailOk(place: seq<Place>, c: seq<nat>, p: Place, q: Place)
    requires ChainOk(place, c, p) && c != [] && p != q
    ensures ChainOk(place[c[0] := q], c[1..], p)
  {
  }

  lemma AddOk(place: seq<Place>, c: seq<nat>, p: Place, x: nat)
    requires ChainOk(place, c, p) && x < |place| && place[x] != p
    ensures ChainOk(place[x := p], c + [x], p) && ChainOk(place[x := p], [x] + c, p)
  {
  }

  lemma KeepOk(place: seq<Place>, c: seq<nat>, p: Place, x: nat, q: Place)
    requires ChainOk(place, c, p) && x < |place| && place[x] != p
    ensures ChainOk(place[x := q], c, p)
  {
  }

  lemma PlaceOk(B: seq<Buf>, place: seq<Place>, x: nat, q: Place)
    requires StoreOk(B, place) && x < |B| && BufOk(B[x], q)
    ensures StoreOk(B, place[x := q])
  {
  }

  /** Lines 100-120: a buffer without bytes is dropped. */
  lemma DropStep(f: Flow)
    requires FlowOk(f) && f.input != [] && (Fits(f); Size(f.store[f.input[0]]) == 0)
    ensures FlowOk(f.(input := f.input[1..], place := f.place[f.input[0] := Nowhere]))
  {
    Fits(f);
    var x := f.input[0];
    PlaceOk(f.store, f.place, x, Nowhere);
    TailOk(f.place, f.input, Input, Nowhere);
    KeepOk(f.place, f.free, Free, x, Nowhere);
    KeepOk(f.place, f.queue, Queue, x, Nowhere);
    KeepOk(f.place, f.out, Out, x, Nowhere);
    HeadTail(f.store, f.input);
    CatNil(Bytes(f.store, f.input[1..]));
    hide ChainOk, StoreOk, BusyOk, Bytes, Total, Cat;
  }

  /** Lines 122-134: the link moves to the output chain. */
  lemma MoveStep(f: Flow)
    requires FlowOk(f) && f.input != []
    ensures FlowOk(f.(input := f.input[1..], out := f.out + [f.input[0]], place := f.place[f.input[0] := Out]))
  {
    Fits(f);
    var x := f.input[0];
    PlaceOk(f.store, f.place, x, Out);
    TailOk(f.place, f.input, Input, Out);
    KeepOk(f.place, f.free, Free, x, Out);
    KeepOk(f.place, f.queue, Queue, x, Out);
    AddOk(f.place, f.out, Out, x);
    HeadTail(f.store, f.input);
    BytesAppend(f.store, f.out, [x]);
    BytesOne(f.store, x);
    hide ChainOk, StoreOk, BusyOk, Bytes, Data, Total, Cat;
    TotalMove(f.sent, Bytes(f.store, f.queue), Bytes(f.store, f.out), Data(f.store[x]), Bytes(f.store, f.input[1..]));
  }

  /** `n` bytes of the first input buffer fit into the first free buffer `dst`. */
  ghost predicate CanCopy(f: Flow, dst: nat, n: nat) {
    && FlowOk(f) && f.input != [] && f.free != [] && dst == f.free[0]
    && (Fits(f); InMemory(f.store[f.input[0]]) && Size(f.store[f.input[0]]) > 0
    && n == (if Size(f.store[f.input[0]]) < |f.store[dst].mem| then Size(f.store[f.input[0]]) else |f.store[dst].mem|))
  }

  /** Lines 483-510: `n` bytes go from the first input buffer to the buffer `dst`. */
  function Copied(B: seq<Buf>, src: nat, dst: nat, n: nat): (B': seq<Buf>)
    requires src < |B| && dst < |B| && src != dst && n <= |B[dst].mem| && B[src].pos + n <= |B[src].mem|
    ensures |B'| == |B|
  {
    B[dst := Filled(B[src], B[dst], n)][src := B[src].(pos := B[src].pos + n)]
  }

  /** `ngx_memcpy` to the start of a memory. */
  function Put(x: seq<byte>, m: seq<byte>): seq<byte>
    requires |x| <= |m|
  {
    x + m[|x|..]
  }

  function Filled(s: Buf, d: Buf, n: nat): Buf
    requires n <= |d.mem| && s.pos + n <= |s.mem|
  {
    Buf(Put(s.mem[s.pos..s.pos + n], d.mem), d.pos, n, d.kind, if s.pos + n == s.last then s.flags.(sync := d.flags.sync) else d.flags, d.mine)
  }

  lemma Cut(m: seq<byte>, a: nat, n: nat, z: nat)
    requires a + n <= z <= |m|
    ensures m[a..z] == Cat(m[a..a + n], m[a + n..z])
  {
  }

  lemma PutFront(x: seq<byte>, m: seq<byte>)
    requires |x| <= |m|
    ensures |Put(x, m)| == |m| && Put(x, m)[0..|x|] == x
  {
  }

  lemma CopyTwo(s: Buf, d: Buf, n: nat)
    requires Whole(s) && InMemory(s) && Empty(d) && n <= |d.mem| && n <= Size(s)
    ensures var d', s' := Filled(s, d, n), s.(pos := s.pos + n);
      && Whole(d') && Whole(s') && Data(s) == Cat(Data(d'), Data(s')) && Size(d') == n
      && |d'.mem| == |d.mem| && d'.mine == d.mine && d'.kind == d.kind
  {
    Cut(s.mem, s.pos, n, s.last);
    PutFront(s.mem[s.pos..s.pos + n], d.mem);
    hide Cat, Put;
  }

  lemma CopyData(B: seq<Buf>, src: nat, dst: nat, n: nat)
    requires AllWhole(B) && src < |B| && dst < |B| && src != dst && InMemory(B[src]) && Empty(B[dst])
    requires n <= |B[dst].mem| && n <= Size(B[src])
    ensures var B' := Copied(B, src, dst, n);
      && AllWhole(B') && Data(B[src]) == Cat(Data(B'[dst]), Data(B'[src])) && Size(B'[dst]) == n
      && B'[dst].mine == B[dst].mine && B'[src].mine == B[src].mine && B'[dst].kind == B[dst].kind && |B'[dst].mem| == |B[dst].mem|
      && forall i :: 0 <= i < |B| && i != src && i != dst ==> B'[i] == B[i]
  {
    CopyTwo(B[src], B[dst], n);
    hide Filled, Data, Size, Cat;
  }

  /** The flow after the copy, before the drained input buffer is unlinked. */
  ghost function CopyFlow(f: Flow, dst: nat, n: nat): Flow
    requires CanCopy(f, dst, n)
  {
    f.(store := Copied(f.store, f.input[0], dst, n), free := f.free[1..], out := f.out + [dst], place := f.place[dst := Out])
  }

  lemma CopyBusy(f: Flow, dst: nat, n: nat)
    requires CanCopy(f, dst, n)
    ensures BusyOk(CopyFlow(f, dst, n).store, f.queue, f.busy)
  {
    Fits(f);
    CopyData(f.store, f.input[0], dst, n);
    assert forall i :: 0 <= i < |f.queue| ==> f.place[f.queue[i]] == Queue;
    hide Cat, StoreOk, Copied, Data, Conserved;
  }

  lemma CopyStore(f: Flow, dst: nat, n: nat)
    requires CanCopy(f, dst, n)
    ensures var f' := CopyFlow(f, dst, n); StoreOk(f'.store, f'.place)
  {
    Fits(f);
    CopyData(f.store, f.input[0], dst, n);
    hide Cat, ChainOk, Copied, Data, Conserved, BusyOk;
  }

  lemma CopyPlaced(f: Flow, dst: nat, n: nat)
    requires CanCopy(f, dst, n)
    ensures Placed(CopyFlow(f, dst, n))
  {
    Fits(f);
    CopyStore(f, dst, n);
    CopyBusy(f, dst, n);
    KeepOk(f.place, f.input, Input, dst, Out);
    TailOk(f.place, f.free, Free, Out);
    KeepOk(f.place, f.queue, Queue, dst, Out);
    AddOk(f.place, f.out, Out, dst);
    hide Cat, ChainOk, Copied, Data, Conserved, StoreOk, BusyOk;
  }

  lemma CopyOthers(f: Flow, dst: nat, n: nat)
    requires CanCopy(f, dst, n)
    ensures forall i :: 0 <= i < |f.queue| ==> f.queue[i] != dst && f.queue[i] != f.input[0]
    ensures forall i :: 0 <= i < |f.out| ==> f.out[i] != dst && f.out[i] != f.input[0]
    ensures forall i :: 1 <= i < |f.input| ==> f.input[i] != dst && f.input[i] != f.input[0]
  {
    assert f.place[dst] == Free && f.place[f.input[0]] == Input;
    hide StoreOk, BusyOk, Conserved, Size;
  }

  /** The chains that the copy does not touch keep their bytes. */
  lemma CopyFrame(f: Flow, dst: nat, n: nat)
    requires CanCopy(f, dst, n)
    ensures AllWhole(f.store) && Within(f.store, f.queue) && Within(f.store, f.out) && Within(f.store, f.input)
    ensures var B' := CopyFlow(f, dst, n).store;
      && AllWhole(B') && Within(B', f.queue) && Within(B', f.out) && Within(B', f.input)
      && Bytes(B', f.queue) == Bytes(f.store, f.queue) && Bytes(B', f.out) == Bytes(f.store, f.out)
      && Bytes(B', f.input[1..]) == Bytes(f.store, f.input[1..])
  {
    Fits(f);
    var B, B' := f.store, CopyFlow(f, dst, n).store;
    CopyData(B, f.input[0], dst, n);
    CopyOthers(f, dst, n);
    hide Copied, Data, FlowOk, CanCopy, Size, AllWhole, Cat;
    BytesFrame(B, B', f.queue);
    BytesFrame(B, B', f.out);
    BytesFrame(B, B', f.input[1..]);
  }

  lemma CopyConserved(f: Flow, dst: nat, n: nat)
    requires CanCopy(f, dst, n)
    ensures FlowOk(CopyFlow(f, dst, n))
  {
    CopyPlaced(f, dst, n);
    var B, B' := f.store, CopyFlow(f, dst, n).store;
    CopyFrame(f, dst, n);
    CopyData(B, f.input[0], dst, n);
    HeadTail(B, f.input);
    HeadTail(B', f.input);
    BytesAppend(B', f.out, [dst]);
    BytesOne(B', dst);
    hide Placed, Bytes, Copied, Data, AllWhole, Within, Size, Total, Cat;
    CopyTotal(f.sent, Bytes(B, f.queue), Bytes(B, f.out), Data(B'[dst]), Data(B'[f.input[0]]), Bytes(B, f.input[1..]));
  }

  lemma CopyTotal(s: seq<byte>, q: seq<byte>, o: seq<byte>, x: seq<byte>, y: seq<byte>, r: seq<byte>)
    ensures Total(s, q, o, Cat(Cat(x, y), r)) == Total(s, q, Cat(o, x), Cat(y, r))
  {
    TotalMove(s, q, o, x, Cat(y, r));
    CatAssoc(x, y, r);
  }

  lemma MoreBuffers(B: seq<Buf>, b: Buf, c: seq<nat>)
    requires AllWhole(B) && Within(B, c) && Whole(b)
    ensures AllWhole(B + [b]) && Within(B + [b], c) && Bytes(B + [b], c) == Bytes(B, c)
  {
    BytesFrame(B, B + [b], c);
  }

  lemma MorePlaces(place: seq<Place>, c: seq<nat>, p: Place, q: Place)
    requires ChainOk(place, c, p)
    ensures ChainOk(place + [q], c, p)
  {
  }

  lemma MoreFree(place: seq<Place>, c: seq<nat>, p: Place)
    requires ChainOk(place, c, p)
    ensures ChainOk(place + [p], [|place|] + c, p) && ChainOk(place + [p], c + [|place|], p)
  {
  }

  lemma MoreStore(B: seq<Buf>, place: seq<Place>, queue: seq<nat>, busy: seq<nat>, b: Buf, p: Place)
    requires StoreOk(B, place) && BusyOk(B, queue, busy) && BufOk(b, p)
    ensures StoreOk(B + [b], place + [p]) && BusyOk(B + [b], queue, busy)
    ensures Owned(B + [b]) == Owned(B) + if b.mine then 1 else 0
  {
    assert (B + [b])[..|B|] == B;
  }

  /** A new temporary buffer, lines 383-455, as a free one. */
  lemma GrowStep(f: Flow, b: Buf)
    requires FlowOk(f) && Empty(b) && b.mine
    ensures FlowOk(f.(store := f.store + [b], place := f.place + [Free], free := [|f.store|] + f.free))
    ensures Owned(f.store + [b]) == Owned(f.store) + 1
  {
    Fits(f);
    MoreStore(f.store, f.place, f.queue, f.busy, b, Free);
    MoreBuffers(f.store, b, f.queue);
    MoreBuffers(f.store, b, f.out);
    MoreBuffers(f.store, b, f.input);
    MorePlaces(f.place, f.input, Input, Free);
    MorePlaces(f.place, f.queue, Queue, Free);
    MorePlaces(f.place, f.out, Out, Free);
    MoreFree(f.place, f.free, Free);
    assert |f.place| == |f.store|;
    hide ChainOk, StoreOk, BusyOk, Bytes, AllWhole, Within, Total, Owned;
  }

  // ---------- the next filter, and ngx_chain_update_chains ----------

  /** Between handing on and the end of the clean-up: `q` is all that the filter had to send, it
      still holds the buffers from `k` on, and those of `busy` before `at` are dealt with. */
  ghost predicate Cleaning(f: Flow, q: seq<nat>, k: nat, at: nat) {
    && k <= |q| && at <= |q| && f.queue == q[k..] && f.busy == q[at..] && f.out == [] && Distinct(q)
    && StoreOk(f.store, f.place) && ChainOk(f.place, f.input, Input) && ChainOk(f.place, f.free, Free) && ChainOk(f.place, f.queue, Queue)
    && QueueOk(f.store, f.place, q, k, at)
    && AllWhole(f.store) && Within(f.store, f.input) && Within(f.store, f.queue)
    && Total(f.sent, Bytes(f.store, f.queue), [], Bytes(f.store, f.input)) == f.given
  }

  /** Buffers the filter let go of are drained; those already dealt with are drained or not
      tagged; the tagged ones still to be dealt with are spent or still in the queue. */
  ghost predicate QueueOk(B: seq<Buf>, place: seq<Place>, q: seq<nat>, k: nat, at: nat) {
    && |place| == |B| && Within(B, q) && AllWhole(B)
    && (forall i :: 0 <= i < k && i < |q| ==> Size(B[q[i]]) == 0)
    && (forall i :: 0 <= i < at && i < |q| ==> Size(B[q[i]]) == 0 || !B[q[i]].mine)
    && (forall i :: at <= i < |q| && B[q[i]].mine ==> place[q[i]] == Spent || place[q[i]] == Queue)
  }

  ghost function HandedOver(place: seq<Place>): (place': seq<Place>)
    ensures |place'| == |place|
  {
    seq(|place|, i requires 0 <= i < |place| => if place[i] == Out then Queue else place[i])
  }

  ghost function HandOver(f: Flow): Flow {
    f.(place := HandedOver(f.place), queue := f.queue + f.out, busy := f.busy + f.out, out := [])
  }

  lemma ChainDistinct(place: seq<Place>, c: seq<nat>, p: Place, d: seq<nat>, q: Place)
    requires ChainOk(place, c, p) && ChainOk(place, d, q) && p != q
    ensures Distinct(c + d)
  {
  }

  lemma HandOverPlaces(f: Flow)
    requires Placed(f)
    ensures var g := HandOver(f);
      && StoreOk(g.store, g.place) && ChainOk(g.place, g.queue, Queue)
      && ChainOk(g.place, f.input, Input) && ChainOk(g.place, f.free, Free)
  {
    ChainDistinct(f.place, f.queue, Queue, f.out, Out);
    hide BusyOk;
    forall i | 0 <= i < |f.store| ensures BufOk(f.store[i], HandedOver(f.place)[i]) {
      assert BufOk(f.store[i], f.place[i]);
    }
  }

  lemma HandOverTotal(f: Flow)
    requires FlowOk(f)
    ensures AllWhole(f.store) && Within(f.store, f.queue + f.out) && Within(f.store, f.input)
    ensures Total(f.sent, Bytes(f.store, f.queue + f.out), [], Bytes(f.store, f.input)) == f.given
  {
    Fits(f);
    BytesAppend(f.store, f.queue, f.out);
    hide Placed, Bytes, AllWhole, Within, Total, Cat;
    TotalHand(f.sent, Bytes(f.store, f.queue), Bytes(f.store, f.out), Bytes(f.store, f.input));
  }

  lemma HandOverBusy(f: Flow)
    requires Placed(f)
    ensures |f.busy| <= |f.queue| && (f.queue + f.out)[|f.queue| - |f.busy|..] == f.busy + f.out && Distinct(f.queue + f.out)
  {
    hide StoreOk;
    ChainDistinct(f.place, f.queue, Queue, f.out, Out);
  }

  /** The output chain joins the queue of the filter. */
  lemma HandOverOk(f: Flow)
    requires FlowOk(f)
    ensures Cleaning(HandOver(f), f.queue + f.out, 0, |f.queue| - |f.busy|)
  {
    HandOverTotal(f);
    HandOverBusy(f);
    HandOverPlaces(f);
    HandOverQueue(f);
    hide FlowOk, StoreOk, ChainOk, Bytes, QueueOk, HandedOver, AllWhole, Within, Total, Distinct;
  }

  lemma HandOverQueue(f: Flow)
    requires Placed(f)
    ensures QueueOk(f.store, HandOver(f).place, f.queue + f.out, 0, |f.queue| - |f.busy|)
  {
    HandOverPlaces(f);
    Fits(f);
    var q := f.queue + f.out;
    forall i | 0 <= i < |q| ensures q[i] < |f.store| && HandOver(f).place[q[i]] == Queue {
      assert i < |f.queue| ==> q[i] == f.queue[i];
      assert i >= |f.queue| ==> q[i] == f.out[i - |f.queue|];
    }
  }

  function Advance(B: seq<Buf>, x: nat, t: nat): (B': seq<Buf>)
    requires x < |B| && Whole(B[x]) && t <= Size(B[x])
    ensures |B'| == |B|
  {
    B[x := B[x].(pos := B[x].pos + t)]
  }

  lemma AdvanceData(b: Buf, t: nat)
    requires Whole(b) && t <= Size(b)
    ensures var b' := b.(pos := b.pos + t); Whole(b') && Data(b) == Cat(Data(b)[..t], Data(b')) && Size(b') == Size(b) - t
  {
    if InMemory(b) {
      Cut(b.mem, b.pos, t, b.last);
    }
  }

  /** The head of a chain loses its first bytes. */
  lemma HeadShrinks(B: seq<Buf>, B': seq<Buf>, c: seq<nat>, x: seq<byte>)
    requires AllWhole(B) && AllWhole(B') && Within(B, c) && Within(B', c) && c != []
    requires Data(B[c[0]]) == Cat(x, Data(B'[c[0]]))
    requires forall i :: 1 <= i < |c| ==> Data(B'[c[i]]) == Data(B[c[i]])
    ensures Bytes(B, c) == Cat(x, Bytes(B', c))
  {
    hide Cat, Data;
    BytesFrame(B, B', c[1..]);
    CatAssoc(x, Data(B'[c[0]]), Bytes(B, c[1..]));
  }

  /** The filter drains `t` bytes of its first buffer. */
  ghost function Drain(f: Flow, t: nat): Flow
    requires f.queue != [] && f.queue[0] < |f.store| && Whole(f.store[f.queue[0]]) && t <= Size(f.store[f.queue[0]])
  {
    f.(store := Advance(f.store, f.queue[0], t), sent := f.sent + Data(f.store[f.queue[0]])[..t])
  }

  /** It drains a part, */
  lemma DrainPart(f: Flow, q: seq<nat>, k: nat, at: nat, t: nat)
    requires Cleaning(f, q, k, at) && f.queue != [] && (f.queue[0] < |f.store| && t < Size(f.store[f.queue[0]]))
    ensures Cleaning(Drain(f, t), q, k, at)
  {
    DrainBytes(f, t);
    DrainQueue(f, q, k, at, t);
    hide ChainOk, Bytes, QueueOk, Data, Size, Total;
  }

  lemma DrainQueue(f: Flow, q: seq<nat>, k: nat, at: nat, t: nat)
    requires Cleaning(f, q, k, at) && f.queue != [] && (f.queue[0] < |f.store| && t < Size(f.store[f.queue[0]]))
    ensures var g := Drain(f, t); StoreOk(g.store, g.place) && QueueOk(g.store, g.place, q, k, at)
  {
    var x := f.queue[0];
    AdvanceData(f.store[x], t);
    assert f.place[x] == Queue && q[k] == x;
    hide Data, Bytes;
  }

  lemma DrainBytes(f: Flow, t: nat)
    requires AllWhole(f.store) && Within(f.store, f.input) && Within(f.store, f.queue) && ChainOk(f.place, f.input, Input) && ChainOk(f.place, f.queue, Queue)
    requires f.queue != [] && t <= Size(f.store[f.queue[0]])
    requires Total(f.sent, Bytes(f.store, f.queue), [], Bytes(f.store, f.input)) == f.given
    ensures var g := Drain(f, t);
      && AllWhole(g.store) && Within(g.store, f.input) && Within(g.store, f.queue)
      && Total(g.sent, Bytes(g.store, f.queue), [], Bytes(g.store, f.input)) == f.given
      && Bytes(g.store, f.input) == Bytes(f.store, f.input)
  {
    var g, y := Drain(f, t), Data(f.store[f.queue[0]])[..t];
    DrainFrame(f, t);
    hide Bytes, ChainOk, AllWhole, Within, Total, Data, Size, Cat;
    DrainTotal(f.sent, Bytes(f.store, f.queue), y, Bytes(g.store, f.queue), Bytes(f.store, f.input));
  }

  lemma DrainTotal(s: seq<byte>, w: seq<byte>, y: seq<byte>, w': seq<byte>, i: seq<byte>)
    requires w == Cat(y, w')
    ensures Total(s, w, [], i) == Total(s + y, w', [], i)
  {
    TotalDrain(s, y, w', [], i);
  }

  lemma DrainFrame(f: Flow, t: nat)
    requires AllWhole(f.store) && Within(f.store, f.input) && Within(f.store, f.queue) && ChainOk(f.place, f.input, Input) && ChainOk(f.place, f.queue, Queue)
    requires f.queue != [] && t <= Size(f.store[f.queue[0]])
    ensures var g := Drain(f, t);
      && AllWhole(g.store) && Within(g.store, f.input) && Within(g.store, f.queue)
      && Bytes(g.store, f.input) == Bytes(f.store, f.input)
      && Bytes(f.store, f.queue) == Cat(Data(f.store[f.queue[0]])[..t], Bytes(g.store, f.queue))
  {
    var x, g := f.queue[0], Drain(f, t);
    AdvanceData(f.store[x], t);
    DrainApart(f, t);
    hide Data, Size, Total, Cat, ChainOk, AllWhole;
    BytesFrame(f.store, g.store, f.input);
    HeadShrinks(f.store, g.store, f.queue, Data(f.store[x])[..t]);
  }

  lemma DrainApart(f: Flow, t: nat)
    requires AllWhole(f.store) && Within(f.store, f.input) && Within(f.store, f.queue) && ChainOk(f.place, f.input, Input) && ChainOk(f.place, f.queue, Queue)
    requires f.queue != [] && t <= Size(f.store[f.queue[0]])
    ensures var B' := Drain(f, t).store;
      && |B'| == |f.store| && AllWhole(B')
      && (forall i :: 0 <= i < |f.input| ==> B'[f.input[i]] == f.store[f.input[i]])
      && (forall i :: 1 <= i < |f.queue| ==> B'[f.queue[i]] == f.store[f.queue[i]])
  {
    AdvanceData(f.store[f.queue[0]], t);
    assert f.place[f.queue[0]] == Queue;
    hide Data, Size, Cat;
  }

  /** or all of it, and lets go of the buffer. */
  ghost function LetGo(f: Flow, t: nat): Flow
    requires f.queue != [] && f.queue[0] < |f.store| == |f.place| && Whole(f.store[f.queue[0]]) && t <= Size(f.store[f.queue[0]])
  {
    var x := f.queue[0];
    Drain(f, t).(queue := f.queue[1..], place := f.place[x := if f.store[x].mine then Spent else Nowhere])
  }

  lemma LetGoStore(f: Flow, q: seq<nat>, k: nat, at: nat, t: nat)
    requires Cleaning(f, q, k, at) && f.queue != [] && (f.queue[0] < |f.store| && t == Size(f.store[f.queue[0]]))
    ensures var g := LetGo(f, t); StoreOk(g.store, g.place)
  {
    var x := f.queue[0];
    AdvanceData(f.store[x], t);
    assert f.place[x] == Queue && BufOk(f.store[x], Queue);
    hide Data, Bytes, ChainOk, QueueOk, Total, Within, Distinct;
  }

  lemma LetGoQueue(f: Flow, q: seq<nat>, k: nat, at: nat, t: nat)
    requires Cleaning(f, q, k, at) && f.queue != [] && (f.queue[0] < |f.store| && t == Size(f.store[f.queue[0]]))
    ensures var g := LetGo(f, t); QueueOk(g.store, g.place, q, k + 1, at)
  {
    var g, x := LetGo(f, t), f.queue[0];
    AdvanceData(f.store[x], t);
    assert q[k] == x && Size(g.store[x]) == 0 && g.store[x].mine == f.store[x].mine && (f.store[x].mine ==> g.place[x] == Spent);
    forall i | 0 <= i < |q| && i != k ensures g.store[q[i]] == f.store[q[i]] && g.place[q[i]] == f.place[q[i]] {
      assert q[i] != q[k];
    }
    hide Size, Data, Bytes, ChainOk, StoreOk, Total, Drain;
  }

  lemma DrainedHead(B: seq<Buf>, c: seq<nat>)
    requires AllWhole(B) && Within(B, c) && c != [] && Size(B[c[0]]) == 0
    ensures Bytes(B, c) == Bytes(B, c[1..])
  {
    CatNil(Bytes(B, c[1..]));
    hide Cat;
  }

  lemma LetGoOk(f: Flow, q: seq<nat>, k: nat, at: nat, t: nat)
    requires Cleaning(f, q, k, at) && f.queue != [] && (f.queue[0] < |f.store| && t == Size(f.store[f.queue[0]]))
    ensures Cleaning(LetGo(f, t), q, k + 1, at)
  {
    var x, g := f.queue[0], LetGo(f, t);
    var p := g.place[x];
    AdvanceData(f.store[x], t);
    LetGoStore(f, q, k, at, t);
    LetGoQueue(f, q, k, at, t);
    hide QueueOk, StoreOk;
    DrainBytes(f, t);
    hide Data, Size, Bytes;
    DrainedHead(g.store, f.queue);
    assert q[k..][1..] == q[k + 1..];
    KeepOk(f.place, f.input, Input, x, p);
    KeepOk(f.place, f.free, Free, x, p);
    TailOk(f.place, f.queue, Queue, p);
    hide ChainOk, AllWhole, Total;
  }

  /** Lines 207-211 of ngx_buf.c: a drained buffer of another owner leaves the busy chain. */
  lemma CleanDrop(f: Flow, q: seq<nat>, k: nat, at: nat)
    requires Cleaning(f, q, k, at) && at < |q| && (Size(f.store[q[at]]) == 0 && !f.store[q[at]].mine)
    ensures Cleaning(f.(busy := f.busy[1..]), q, k, at + 1)
  {
    assert q[at..][1..] == q[at + 1..];
    hide ChainOk, Bytes, Data, Size, StoreOk, Total;
  }

  /** Lines 213-218 of ngx_buf.c: a drained tagged one is emptied and free. */
  ghost function Recycle(f: Flow, x: nat): Flow
    requires x < |f.store| == |f.place| && f.busy != []
  {
    f.(store := f.store[x := f.store[x].(pos := 0, last := 0)], place := f.place[x := Free], free := [x] + f.free, busy := f.busy[1..])
  }

  lemma RecycleBytes(f: Flow, x: nat)
    requires StoreOk(f.store, f.place) && x < |f.store| && f.busy != [] && f.place[x] == Spent
    requires AllWhole(f.store) && Within(f.store, f.input) && Within(f.store, f.queue)
    requires ChainOk(f.place, f.input, Input) && ChainOk(f.place, f.queue, Queue)
    ensures var g := Recycle(f, x);
      && AllWhole(g.store) && Within(g.store, f.input) && Within(g.store, f.queue)
      && Bytes(g.store, f.queue) == Bytes(f.store, f.queue) && Bytes(g.store, f.input) == Bytes(f.store, f.input)
  {
    var g := Recycle(f, x);
    hide Data, Size;
    BytesFrame(f.store, g.store, f.queue);
    BytesFrame(f.store, g.store, f.input);
  }

  lemma RecyclePlaces(f: Flow, q: seq<nat>, k: nat, at: nat)
    requires Cleaning(f, q, k, at) && at < |q| && (Size(f.store[q[at]]) == 0 && f.store[q[at]].mine)
    ensures f.place[q[at]] == Spent
    ensures var g := Recycle(f, q[at]); StoreOk(g.store, g.place) && QueueOk(g.store, g.place, q, k, at + 1)
  {
    assert BufOk(f.store[q[at]], f.place[q[at]]);
    hide Data, Bytes, ChainOk;
  }

  lemma CleanRecycle(f: Flow, q: seq<nat>, k: nat, at: nat)
    requires Cleaning(f, q, k, at) && at < |q| && (Size(f.store[q[at]]) == 0 && f.store[q[at]].mine)
    ensures Cleaning(Recycle(f, q[at]), q, k, at + 1)
  {
    var x := q[at];
    RecyclePlaces(f, q, k, at);
    RecycleBytes(f, x);
    KeepOk(f.place, f.input, Input, x, Free);
    KeepOk(f.place, f.queue, Queue, x, Free);
    AddOk(f.place, f.free, Free, x);
    assert q[at..][1..] == q[at + 1..];
    hide ChainOk, Bytes, QueueOk, Data, Size, StoreOk, AllWhole, Within, Total;
  }

  lemma CleanEndBusy(f: Flow, q: seq<nat>, k: nat, at: nat)
    requires Cleaning(f, q, k, at) && (at == |q| || Size(f.store[q[at]]) > 0)
    ensures BusyOk(f.store, f.queue, f.busy)
  {
    hide Data, Bytes, ChainOk;
    assert at >= k;
    assert |f.queue| - |f.busy| == at - k;
    forall i | 0 <= i < at - k ensures !f.store[f.queue[i]].mine {
      assert f.queue[i] == q[k + i];
      QueuedTag(f, q, k, at, k + i);
    }
    assert q[k..][at - k..] == q[at..];
  }

  lemma QueuedTag(f: Flow, q: seq<nat>, k: nat, at: nat, i: nat)
    requires Cleaning(f, q, k, at) && k <= i < at
    ensures !f.store[q[i]].mine
  {
    hide Bytes, Data;
    assert q[k..][i - k] == q[i];
    assert BufOk(f.store[q[i]], f.place[q[i]]);
  }

  /** Line 203 of ngx_buf.c: the head of the busy chain still has bytes, or the chain is empty. */
  lemma CleanEnd(f: Flow, q: seq<nat>, k: nat, at: nat)
    requires Cleaning(f, q, k, at) && (at == |q| || Size(f.store[q[at]]) > 0)
    ensures FlowOk(f)
  {
    CleanEndBusy(f, q, k, at);
    hide Data, Bytes, StoreOk, QueueOk, BusyOk, Total;
    NoBytes(f);
  }

  lemma NoBytes(f: Flow)
    requires AllWhole(f.store) && Within(f.store, f.queue) && Within(f.store, f.input)
    ensures Within(f.store, []) && Bytes(f.store, []) == []
    ensures Total(f.sent, Bytes(f.store, f.queue), [], Bytes(f.store, f.input)) == f.sent + Bytes(f.store, f.queue) + Bytes(f.store, f.input)
  {
    hide Data;
  }

  // ---------- new input ----------

  /** The bytes of buffers that are passed in. */
  ghost function AllData(bs: seq<Buf>): seq<byte>
    requires AllWhole(bs)
  {
    if bs == [] then [] else AllData(bs[..|bs| - 1]) + Data(bs[|bs| - 1])
  }

  /** One more buffer at the end of `ctx->in`. */
  ghost function AddOne(f: Flow, b: Buf): Flow
    requires Whole(b)
  {
    f.(store := f.store + [b], place := f.place + [Input], input := f.input + [|f.store|], given := f.given + Data(b))
  }

  lemma AddOneTotal(f: Flow, b: Buf)
    requires FlowOk(f) && Whole(b)
    ensures AllWhole(f.store + [b]) && Within(f.store + [b], f.queue) && Within(f.store + [b], f.out) && Within(f.store + [b], f.input + [|f.store|])
    ensures var B' := f.store + [b]; Total(f.sent, Bytes(B', f.queue), Bytes(B', f.out), Bytes(B', f.input + [|f.store|])) == f.given + Data(b)
  {
    Fits(f);
    var B', x := f.store + [b], |f.store|;
    hide Data, Total, Cat, StoreOk, BusyOk;
    MoreBuffers(f.store, b, f.queue);
    MoreBuffers(f.store, b, f.out);
    MoreBuffers(f.store, b, f.input);
    BytesAppend(B', f.input, [x]);
    BytesOne(B', x);
    hide Placed, Bytes, AllWhole, Within;
    TotalTack(f.sent, Bytes(f.store, f.queue), Bytes(f.store, f.out), Bytes(f.store, f.input), Data(b));
  }

  lemma AddOneOk(f: Flow, b: Buf)
    requires FlowOk(f) && Whole(b) && !b.mine
    ensures FlowOk(AddOne(f, b)) && Owned(f.store + [b]) == Owned(f.store)
  {
    AddOneTotal(f, b);
    MoreStore(f.store, f.place, f.queue, f.busy, b, Input);
    MorePlaces(f.place, f.free, Free, Input);
    MorePlaces(f.place, f.queue, Queue, Input);
    MorePlaces(f.place, f.out, Out, Input);
    MoreFree(f.place, f.input, Input);
    assert |f.place| == |f.store|;
    hide ChainOk, StoreOk, BusyOk, Bytes, AllWhole, Within, Data, Total, Owned, Cat;
  }

  // ---------- progress, and the short path ----------

  /** What the outer loop still has to do. */
  ghost function Todo(B: seq<Buf>, input: seq<nat>): nat
    requires AllWhole(B) && Within(B, input)
  {
    |Bytes(B, input)| + |input|
  }

  lemma TodoTail(B: seq<Buf>, input: seq<nat>)
    requires AllWhole(B) && Within(B, input) && input != []
    ensures Within(B, input[1..]) && Todo(B, input[1..]) < Todo(B, input)
  {
    HeadTail(B, input);
  }

  lemma TodoCopy(f: Flow, dst: nat, n: nat)
    requires CanCopy(f, dst, n)
    ensures AllWhole(f.store) && Within(f.store, f.input)
    ensures var B' := CopyFlow(f, dst, n).store; AllWhole(B') && Within(B', f.input) && Todo(B', f.input) < Todo(f.store, f.input)
  {
    CopyFrame(f, dst, n);
    CopyData(f.store, f.input[0], dst, n);
    HeadTail(f.store, f.input);
    HeadTail(CopyFlow(f, dst, n).store, f.input);
    hide Copied, Bytes, Data;
  }

  /** Lines 57-67: what is passed straight on does not become busy. */
  lemma ShortEnd(f: Flow, q: seq<nat>, k: nat, at: nat)
    requires Cleaning(f, q, k, at) && forall i :: 0 <= i < |q| && q[i] < |f.store| ==> !f.store[q[i]].mine
    ensures FlowOk(f.(busy := []))
  {
    assert q[|q|..] == [];
    hide ChainOk, Bytes, Data, Size, StoreOk, Total;
    assert Cleaning(f.(busy := []), q, k, |q|);
    CleanEnd(f.(busy := []), q, k, |q|);
  }
}
