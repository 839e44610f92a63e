/** The output chain of `ngx_output_chain.c` and the chain recycling of `ngx_buf.c`. The next
    filter is an adversary: it queues what it is given and drains any number of bytes from the
    front of its queue. */
module OutputChain {
  import opened ChainFlow
  import opened Options

  datatype Rc = Ok | Again | Error | Done

  class Context {
    const num: nat               // bufs.num
    const size: nat              // bufs.size
    const sendfile: bool
    const directio: bool
    const needInMemory: bool
    const needInTemp: bool
    var store: seq<Buf>
    var input: seq<nat>
    var free: seq<nat>
    var busy: seq<nat>
    var made: nat                // ctx->allocated
    var queue: seq<nat>          // what the next filter holds
    ghost var place: seq<Place>
    ghost var sent: seq<byte>
    ghost var given: seq<byte>
    ghost var failed: bool       // the filter returned NGX_ERROR or NGX_DONE

    ghost function At(out: seq<nat>): Flow
      reads this
    {
      Flow(store, place, input, free, busy, queue, out, sent, given)
    }

    /** Every byte given was drained, is held by the filter, or waits in `ctx->in`, in order; and
        no more than `bufs.num` temporary buffers exist. */
    ghost predicate Valid()
      reads this
    {
      Building([]) && !failed
    }

    ghost predicate Building(out: seq<nat>)
      reads this
    {
      FlowOk(At(out)) && Owned(store) == made <= num && size > 0
    }

    constructor (num: nat, size: nat, sendfile: bool, directio: bool, needInMemory: bool, needInTemp: bool)
      requires size > 0
      ensures Valid() && given == [] && sent == []
    {
      this.num, this.size := num, size;
      this.sendfile, this.directio, this.needInMemory, this.needInTemp := sendfile, directio, needInMemory, needInTemp;
      store, input, free, busy, queue, place := [], [], [], [], [], [];
      made, sent, given, failed := 0, [], [], false;
    }

    /** Lines 220-260 for buffers without a file. */
    predicate AsIs(b: Buf) {
      Special(b) || ((sendfile || InMemory(b)) && (needInMemory ==> InMemory(b)) && (needInTemp ==> !(b.kind.memory || b.kind.mmap)))
    }

    // ---------- copying into temporary buffers ----------

    /** Lines 383-455 without the flag `recycled`: a new temporary buffer. */
    method GetBuf(ghost out: seq<nat>, bsize: nat) returns (dst: nat)
      requires Building(out) && CanUse(store, input) && bsize > 0 && made < num
      modifies this`store, this`place, this`made
      ensures FlowOk(At(out).(free := [dst] + free)) && Owned(store) == made && made <= num
      ensures CanUse(store, input) && Todo(store, input) == old(Todo(store, input))
    {
      var b := store[input[0]];
      var n := size;
      if b.flags.lastInChain {
        if bsize < size {
          n := bsize;
        } else if !directio && num == 1 && bsize < size + size / 4 {
          n := bsize;
        }
      }
      var d := Buf(seq(n, _ => 0), 0, 0, Kind(true, false, false), Flags(false, false, false, false), true);
      GrowStep(At(out), d);
      MoreBuffers(store, d, input);
      hide FlowOk, Bytes;
      dst := |store|;
      store, place, made := store + [d], place + [Free], made + 1;
    }

    /** Lines 459-510: the buffer `dst` is empty and in no chain. */
    method CopyBuf(ghost out: seq<nat>, dst: nat)
      requires FlowOk(At(out).(free := [dst] + free)) && Owned(store) == made && CanUse(store, input)
      modifies this`store, this`place
      ensures FlowOk(At(out + [dst])) && Owned(store) == made && InputFits(store, input)
      ensures Todo(store, input) < old(Todo(store, input))
    {
      ghost var f := At(out).(free := [dst] + free);
      var src := input[0];
      DstEmpty(f, dst);
      var room := |store[dst].mem| - store[dst].pos;
      var n := if Size(store[src]) < room then Size(store[src]) else room;
      CopyAll(f, dst, n);
      hide FlowOk, Owned, Todo, Cat, Data, Bytes;
      store := Copied(store, src, dst, n);
      place := place[dst := Out];
    }

    /** Lines 146-195: the next piece of the input goes through a temporary buffer, if there is one. */
    method CopyNext(out: seq<nat>) returns (more: seq<nat>)
      requires Building(out) && CanUse(store, input) && (free != [] || (out == [] && made < num))
      modifies this`store, this`place, this`input, this`free, this`made
      ensures Building(more) && InputFits(store, input) && more != [] && Todo(store, input) < old(Todo(store, input))
    {
      hide FlowOk, Todo;
      var dst;
      if free != [] {
        dst := free[0];
        assert [free[0]] + free[1..] == free;
        free := free[1..];
      } else {
        dst := GetBuf(out, Size(store[input[0]]));
      }
      CopyBuf(out, dst);
      more := out + [dst];
      if Size(store[input[0]]) == 0 {
        Drop(more);
      }
    }

    /** Lines 100-120 and 182-184: a buffer without bytes leaves `ctx->in`. */
    method Drop(ghost out: seq<nat>)
      requires Building(out) && InputFits(store, input) && input != [] && Size(store[input[0]]) == 0
      modifies this`place, this`input
      ensures Building(out) && InputFits(store, input) && Todo(store, input) < old(Todo(store, input))
    {
      DropStep(At(out));
      BusyLength(At(out));
      TodoTail(store, input);
      hide FlowOk, Todo;
      place := place[input[0] := Nowhere];
      input := input[1..];
    }

    /** Lines 126-131: the link moves to the output chain. */
    method Move(out: seq<nat>) returns (more: seq<nat>)
      requires Building(out) && InputFits(store, input) && input != []
      modifies this`place, this`input
      ensures more == out + [old(input)[0]] && input == old(input)[1..] && Building(more) && InputFits(store, input) && Todo(store, input) < old(Todo(store, input))
    {
      MoveStep(At(out));
      BusyLength(At(out));
      TodoTail(store, input);
      hide FlowOk, Todo;
      more := out + [input[0]];
      place := place[input[0] := Out];
      input := input[1..];
    }

    /** Lines 91-196: input goes to the output chain until it is used up or no temporary buffer is
        left for it. */
    method FillOut() returns (out: seq<nat>)
      requires Building([]) && InputFits(store, input)
      modifies this`store, this`place, this`input, this`free, this`made
      ensures Building(out) && InputFits(store, input)
      ensures input != [] ==> free == [] && (out != [] || made == num)
      ensures Todo(store, input) + (if out == [] then 0 else 1) <= old(Todo(store, input))
    {
      hide FlowOk, Todo;
      out := [];
      while input != []
        invariant Building(out) && InputFits(store, input)
        invariant Todo(store, input) + (if out == [] then 0 else 1) <= old(Todo(store, input))
        decreases Todo(store, input)
      {
        var b := store[input[0]];
        var bsize := Size(b);
        if bsize == 0 && !Special(b) {
          Drop(out);
        } else if AsIs(b) {
          out := Move(out);
        } else if free == [] && (out != [] || made == num) {
          break;
        } else {
          out := CopyNext(out);
        }
      }
    }

    // ---------- the next filter ----------

    /** `ctx->output_filter`: takes the chain, drains as much as it likes and answers anything. */
    method NextFilter(out: seq<nat>) returns (rc: Rc, ghost k: nat)
      requires Building(out) && InputFits(store, input)
      modifies this`store, this`queue, this`place, this`sent
      ensures Cleaning(At([]).(busy := busy + out), old(queue) + out, k, |old(queue)| - |busy|)
      ensures SameTags(old(store), store) && old(sent) <= sent && |busy| <= |old(queue)|
      ensures InputFits(store, input) && Bytes(store, input) == old(Bytes(store, input))
    {
      hide Cleaning, FlowOk, Owned, Bytes;
      ghost var q, at := queue + out, |queue| - |busy|;
      Enqueue(out);
      k := ReadSome(busy + out, q, at);
      rc := *;
    }

    method Enqueue(out: seq<nat>)
      requires Building(out)
      modifies this`queue, this`place
      ensures Cleaning(At([]).(busy := busy + out), old(queue) + out, 0, |old(queue)| - |busy|) && |busy| <= |old(queue)|
    {
      HandOverOk(At(out));
      BusyLength(At(out));
      hide Cleaning, FlowOk;
      queue, place := queue + out, HandedOver(place);
    }

    /** The filter reads as much as it likes. */
    method ReadSome(ghost b: seq<nat>, ghost q: seq<nat>, ghost at: nat) returns (ghost k: nat)
      requires Cleaning(At([]).(busy := b), q, 0, at) && InputFits(store, input)
      modifies this`store, this`queue, this`place, this`sent
      ensures Cleaning(At([]).(busy := b), q, k, at)
      ensures SameTags(old(store), store) && old(sent) <= sent
      ensures InputFits(store, input) && Bytes(store, input) == old(Bytes(store, input))
    {
      hide Cleaning, Bytes, Total, Cat;
      k := 0;
      var more: bool := *;
      while queue != [] && more
        invariant Cleaning(At([]).(busy := b), q, k, at) && SameTags(old(store), store) && old(sent) <= sent
        invariant InputFits(store, input) && Bytes(store, input) == old(Bytes(store, input))
        decreases |queue|, more
      {
        HeadFacts(At([]).(busy := b), q, k, at);
        var t: nat := *;
        if t < Size(store[queue[0]]) {
          ReadPart(t, b, q, k, at);
          more := false;
        } else {
          ReadAll(b, q, k, at);
          k := k + 1;
          more := *;
        }
      }
    }

    /** The filter reads `t` bytes of its first buffer. */
    method ReadPart(t: nat, ghost b: seq<nat>, ghost q: seq<nat>, ghost k: nat, ghost at: nat)
      requires InputFits(store, input) && Cleaning(At([]).(busy := b), q, k, at) && queue != [] && queue[0] < |store| && Whole(store[queue[0]]) && t < Size(store[queue[0]])
      modifies this`store, this`sent
      ensures Cleaning(At([]).(busy := b), q, k, at)
      ensures SameTags(old(store), store) && old(sent) <= sent
      ensures InputFits(store, input) && Bytes(store, input) == old(Bytes(store, input))
    {
      DrainPart(At([]).(busy := b), q, k, at, t);
      Cleaned(At([]).(busy := b), q, k, at);
      DrainBytes(At([]).(busy := b), t);
      hide Cleaning, Bytes, Total, Cat;
      sent := sent + Data(store[queue[0]])[..t];
      store := Advance(store, queue[0], t);
    }

    /** The filter reads its first buffer to the end and lets go of it. */
    method ReadAll(ghost b: seq<nat>, ghost q: seq<nat>, ghost k: nat, ghost at: nat)
      requires InputFits(store, input) && Cleaning(At([]).(busy := b), q, k, at) && queue != [] && queue[0] < |store| && Whole(store[queue[0]])
      modifies this`store, this`queue, this`place, this`sent
      ensures Cleaning(At([]).(busy := b), q, k + 1, at) && |queue| == |old(queue)| - 1
      ensures SameTags(old(store), store) && old(sent) <= sent
      ensures InputFits(store, input) && Bytes(store, input) == old(Bytes(store, input))
    {
      var x, t := queue[0], Size(store[queue[0]]);
      LetGoOk(At([]).(busy := b), q, k, at, t);
      Cleaned(At([]).(busy := b), q, k, at);
      DrainBytes(At([]).(busy := b), t);
      hide Cleaning, Bytes, Total, Cat;
      sent := sent + Data(store[x])[..t];
      place := place[x := if store[x].mine then Spent else Nowhere];
      store := Advance(store, x, t);
      queue := queue[1..];
    }

    // ---------- ngx_chain_update_chains ----------

    method UpdateChains(out: seq<nat>, ghost q: seq<nat>, ghost k: nat, ghost at: nat)
      requires Cleaning(At([]).(busy := busy + out), q, k, at) && InputFits(store, input)
      modifies this`store, this`place, this`free, this`busy
      ensures FlowOk(At([])) && SameTags(old(store), store)
      ensures InputFits(store, input) && Bytes(store, input) == old(Bytes(store, input))
    {
      busy := busy + out;
      ghost var i := at;
      while true
        invariant Cleaning(At([]), q, k, i) && SameTags(old(store), store)
        invariant InputFits(store, input) && Bytes(store, input) == old(Bytes(store, input))
        decreases |busy|
      {
        BusyFacts(At([]), q, k, i);
        if busy == [] || Size(store[busy[0]]) != 0 {
          CleanEnd(At([]), q, k, i);
          return;
        }
        if !store[busy[0]].mine {
          CleanDrop(At([]), q, k, i);
          hide Cleaning;
          busy := busy[1..];
        } else {
          RecycleHead(q, k, i);
        }
        i := i + 1;
      }
    }

    /** Lines 213-218 of ngx_buf.c. */
    method RecycleHead(ghost q: seq<nat>, ghost k: nat, ghost at: nat)
      requires Cleaning(At([]), q, k, at) && InputFits(store, input)
      requires busy != [] && busy[0] < |store| && Whole(store[busy[0]]) && Size(store[busy[0]]) == 0 && store[busy[0]].mine
      modifies this`store, this`place, this`free, this`busy
      ensures Cleaning(At([]), q, k, at + 1) && SameTags(old(store), store) && |busy| == |old(busy)| - 1
      ensures InputFits(store, input) && Bytes(store, input) == old(Bytes(store, input))
    {
      var x := busy[0];
      BusyFacts(At([]), q, k, at);
      CleanRecycle(At([]), q, k, at);
      RecyclePlaces(At([]), q, k, at);
      Cleaned(At([]), q, k, at);
      RecycleBytes(At([]), x);
      hide Cleaning, Bytes, Total, Cat;
      store := store[x := store[x].(pos := 0, last := 0)];
      place, free, busy := place[x := Free], [x] + free, busy[1..];
    }

    /** Lines 207-214: the output chain goes to the filter, and what is drained is recycled. */
    method HandOn(out: seq<nat>) returns (rc: Rc)
      requires Building(out) && InputFits(store, input) && !failed
      modifies this`store, this`queue, this`place, this`sent, this`free, this`busy, this`failed
      ensures (failed <==> rc == Error || rc == Done) && old(sent) <= sent && Accounted()
      ensures !failed ==> Valid() && InputFits(store, input) && Todo(store, input) == old(Todo(store, input))
      ensures !failed ==> Building([])
    {
      hide Cleaning, FlowOk, Bytes, Owned, Total, Cat;
      ghost var q, at := queue + out, |queue| - |busy|;
      ghost var k;
      rc, k := NextFilter(out);
      Cleaned(At([]).(busy := busy + out), q, k, at);
      OwnedFrame(old(store), store);
      if rc == Error || rc == Done {
        NoBytes(At([]));
        failed := true;
        return;
      }
      ghost var B := store;
      UpdateChains(out, q, k, at);
      OwnedFrame(B, store);
      AllAccounted(At([]));
    }

    /** Lines 56-68: a single buffer, or nothing, goes straight to the filter. */
    method PassOn(bs: seq<Buf>) returns (rc: Rc)
      requires Valid() && busy == [] && |bs| <= 1 && |input| == |bs| && InputFits(store, input)
      modifies this`store, this`queue, this`place, this`sent, this`failed, this`input
      ensures (failed <==> rc == Error || rc == Done) && old(sent) <= sent && Accounted() && (!failed ==> Valid()) && input == []
    {
      NothingMine(At([]));
      hide FlowOk, Bytes, Owned, Todo, NoneMine, Data, Accounted;
      ghost var q := queue + input;
      var out := [];
      if input != [] {
        out := Move([]);
      }
      assert queue + out == q;
      rc := PassOut(out);
    }

    method PassOut(out: seq<nat>) returns (rc: Rc)
      requires Building(out) && busy == [] && InputFits(store, input) && NoneMine(store, queue + out)
      modifies this`store, this`queue, this`place, this`sent, this`failed
      ensures (failed <==> rc == Error || rc == Done) && old(sent) <= sent && Accounted() && (!failed ==> Valid())
    {
      hide Cleaning, FlowOk, Bytes, Owned, Total, Cat;
      ghost var q := queue + out;
      ghost var k;
      rc, k := NextFilter(out);
      OwnedFrame(old(store), store);
      PassedOn(old(store), At([]).(busy := busy + out), q, k, |old(queue)|);
      failed := rc == Error || rc == Done;
    }

    // ---------- ngx_output_chain ----------

    /** Lines 264-330: the links of the new chain are added at the end of `ctx->in`. */
    method AddCopy(bs: seq<Buf>)
      requires Valid() && InputBufs(bs)
      modifies this`store, this`place, this`input, this`given
      ensures Valid() && InputFits(store, input) && given == old(given) + AllData(bs)
      ensures |store| == |old(store)| + |bs| && |input| == |old(input)| + |bs|
      ensures |bs| == 1 ==> input == old(input) + [|old(store)|] && store == old(store) + bs
    {
      hide FlowOk, AllData, Data, Owned;
      var i := 0;
      NoData(bs);
      while i < |bs|
        invariant i <= |bs| && Valid() && given == old(given) + AllData(bs[..i])
        invariant |store| == |old(store)| + i && |input| == |old(input)| + i
        invariant i == 0 ==> store == old(store) && input == old(input)
        invariant i == 1 ==> store == old(store) + [bs[0]] && input == old(input) + [|old(store)|]
      {
        AddOneOk(At([]), bs[i]);
        MoreData(bs, i, old(given));
        store, place, input, given := store + [bs[i]], place + [Input], input + [|store|], given + Data(bs[i]);
        i := i + 1;
      }
      assert bs[..i] == bs;
      FlowFits(At([]));
    }

    /** What was drained, what the filter holds and what waits are, in order, what was given. */
    ghost predicate Accounted()
      reads this
    {
      InputFits(store, input) && Within(store, queue) && sent + Bytes(store, queue) + Bytes(store, input) == given
    }

    /** `ngx_output_chain`: whatever the filter does, no byte is lost, repeated or reordered. Input
        stays behind only with `NGX_AGAIN`, and then no temporary buffer is left. */
    method Output(bs: seq<Buf>) returns (rc: Rc)
      requires Valid() && InputBufs(bs)
      modifies this
      ensures given == old(given) + AllData(bs) && old(sent) <= sent && Accounted()
      ensures made <= num && (failed <==> rc == Error || rc == Done) && (!failed ==> Valid())
      ensures !failed && input != [] ==> rc == Again && free == [] && made == num
    {
      hide FlowOk, Bytes, Owned, Todo, AllData, Data;
      var short := input == [] && busy == [] && |bs| <= 1;
      AddCopy(bs);
      if short && (bs == [] || AsIs(bs[0])) {
        rc := PassOn(bs);
        return;
      }
      var last: Option<Rc> := None;
      while true
        invariant Valid() && InputFits(store, input) && given == old(given) + AllData(bs) && old(sent) <= sent
        invariant last.Some? ==> last.value == Ok || last.value == Again
        decreases Todo(store, input), if last.None? then 1 else 0
      {
        var out := FillOut();
        assert made <= num;
        if out == [] && last.Some? {
          rc := if input != [] then Again else last.value;
          AllAccounted(At([]));
          return;
        }
        rc := HandOn(out);
        if rc == Error || rc == Done {
          return;
        }
        last := Some(rc);
      }
    }
  }

  /** What callers pass in: buffers of their own, not carrying the tag of the context. */
  ghost predicate InputBufs(bs: seq<Buf>) {
    AllWhole(bs) && forall i :: 0 <= i < |bs| ==> !bs[i].mine
  }

  lemma NoData(bs: seq<Buf>)
    ensures AllWhole(bs[..0]) && AllData(bs[..0]) == []
  {
  }

  lemma MoreData(bs: seq<Buf>, i: nat, before: seq<byte>)
    requires AllWhole(bs) && i < |bs|
    ensures AllWhole(bs[..i]) && AllWhole(bs[..i + 1]) && Whole(bs[i])
    ensures before + AllData(bs[..i + 1]) == before + AllData(bs[..i]) + Data(bs[i])
  {
    assert bs[..i + 1][..i] == bs[..i];
  }

  lemma AllAccounted(f: Flow)
    requires FlowOk(f) && f.out == []
    ensures InputFits(f.store, f.input) && Within(f.store, f.queue) && f.sent + Bytes(f.store, f.queue) + Bytes(f.store, f.input) == f.given
  {
    Fits(f);
    NoBytes(f);
  }

  ghost predicate InputFits(B: seq<Buf>, input: seq<nat>) {
    AllWhole(B) && Within(B, input)
  }

  /** The first input buffer has bytes to copy. */
  ghost predicate CanUse(B: seq<Buf>, input: seq<nat>) {
    InputFits(B, input) && input != [] && InMemory(B[input[0]]) && Size(B[input[0]]) > 0
  }

  lemma DstEmpty(f: Flow, dst: nat)
    requires FlowOk(f) && f.free != [] && f.free[0] == dst
    ensures dst < |f.store| && Empty(f.store[dst]) && |f.place| == |f.store|
  {
  }

  lemma CopyAll(f: Flow, dst: nat, n: nat)
    requires FlowOk(f) && f.free != [] && f.free[0] == dst && dst < |f.store| && CanUse(f.store, f.input)
    requires n == if Size(f.store[f.input[0]]) < |f.store[dst].mem| then Size(f.store[f.input[0]]) else |f.store[dst].mem|
    ensures CanCopy(f, dst, n) && FlowOk(CopyFlow(f, dst, n)) && InputFits(CopyFlow(f, dst, n).store, f.input)
    ensures Todo(CopyFlow(f, dst, n).store, f.input) < Todo(f.store, f.input)
    ensures Owned(CopyFlow(f, dst, n).store) == Owned(f.store)
  {
    CopyConserved(f, dst, n);
    TodoCopy(f, dst, n);
    OwnedFrame(f.store, CopyFlow(f, dst, n).store);
  }

  lemma BusyLength(f: Flow)
    requires Placed(f)
    ensures |f.busy| <= |f.queue| && |f.place| == |f.store|
  {
  }

  lemma HeadFacts(f: Flow, q: seq<nat>, k: nat, at: nat)
    requires Cleaning(f, q, k, at) && f.queue != []
    ensures f.queue[0] < |f.store| && Whole(f.store[f.queue[0]])
  {
  }

  lemma Cleaned(f: Flow, q: seq<nat>, k: nat, at: nat)
    requires Cleaning(f, q, k, at)
    ensures |f.place| == |f.store| && StoreOk(f.store, f.place) && AllWhole(f.store) && Within(f.store, f.input) && Within(f.store, f.queue)
    ensures ChainOk(f.place, f.input, Input) && ChainOk(f.place, f.queue, Queue)
    ensures Total(f.sent, Bytes(f.store, f.queue), [], Bytes(f.store, f.input)) == f.given
  {
  }

  /** With nothing busy, neither the filter nor the input has a tagged buffer. */
  lemma NothingMine(f: Flow)
    requires FlowOk(f) && f.busy == []
    ensures NoneMine(f.store, f.queue + f.input)
  {
    Fits(f);
    forall i | 0 <= i < |f.queue + f.input| ensures !f.store[(f.queue + f.input)[i]].mine {
      if i >= |f.queue| {
        assert f.place[f.input[i - |f.queue|]] == Input;
      }
    }
  }

  ghost predicate NoneMine(B: seq<Buf>, c: seq<nat>) {
    Within(B, c) && forall i :: 0 <= i < |c| && c[i] < |B| ==> !B[c[i]].mine
  }

  lemma PassedOn(B: seq<Buf>, f: Flow, q: seq<nat>, k: nat, at: nat)
    requires Cleaning(f, q, k, at) && NoneMine(B, q) && SameTags(B, f.store)
    ensures FlowOk(f.(busy := []))
    ensures InputFits(f.store, f.input) && Within(f.store, f.queue) && f.sent + Bytes(f.store, f.queue) + Bytes(f.store, f.input) == f.given
  {
    Cleaned(f, q, k, at);
    NoBytes(f);
    hide Cleaning;
    ShortEnd(f, q, k, at);
  }

  lemma FlowFits(f: Flow)
    requires FlowOk(f)
    ensures InputFits(f.store, f.input) && |f.place| == |f.store|
  {
    Fits(f);
  }

  lemma BusyFacts(f: Flow, q: seq<nat>, k: nat, at: nat)
    requires Cleaning(f, q, k, at)
    ensures at <= |q| && f.busy == q[at..] && |f.place| == |f.store| && AllWhole(f.store) && Within(f.store, q)
  {
  }
}
