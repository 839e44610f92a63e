/** The cache of open files of `ngx_open_file_cache.c`: a tree of entries by name, a queue of them
    by last use, and a reference count in each. Entries live in one store, and a pointer to one is
    its key there. What the system answers is a parameter of the calls. */
module OpenFileCache {
  import opened Options

  const INVALID: int := -1
  const COUNTS: nat := 0x100_0000       // `count` has 24 bits
  const USES: nat := 0x1_0000_0000      // `uses` has 32

  /** What stat() and fstat() tell; `meta` is the size, the times and the other kinds. */
  datatype Info = Info(uniq: nat, isDir: bool, meta: nat)

  /** `ngx_cached_open_file_t`. */
  datatype File = File(name: string, fd: int, count: nat, err: nat, close: bool, accessed: int, info: Info, rest: Rest)

  datatype Rest = Rest(uses: nat, created: int, links: nat)

  /** `ngx_open_file_info_t`: the answer, and what the caller wants. */
  datatype Of = Of(fd: int, err: nat, info: Info, want: Want)

  datatype Want = Want(valid: int, minUses: nat, errors: bool, testDir: bool, links: nat)

  /** What the system does in one call: the answer of stat(), a descriptor or an error of open(),
      the answer of fstat(), and memory for an entry. */
  datatype World = World(stat: Reply, opens: bool, openErr: nat, fd: nat, fstat: Option<Info>, memory: Option<nat>)

  datatype Reply = Fine(info: Info) | Error(err: nat)

  // ---------- the invariant ----------

  predicate Listed(files: map<nat, File>, tree: map<string, nat>, p: nat)
    requires p in files
  {
    files[p].name in tree && tree[files[p].name] == p
  }

  ghost predicate TreeOk(files: map<nat, File>, tree: map<string, nat>) {
    forall n :: n in tree ==> tree[n] in files && files[tree[n]].name == n
  }

  predicate NoDup(queue: seq<nat>) {
    forall i, j :: 0 <= i < j < |queue| ==> queue[i] != queue[j]
  }

  /** The queue holds the entries of the tree but those that a call has taken out. */
  ghost predicate QueueOk(files: map<nat, File>, tree: map<string, nat>, queue: seq<nat>, out: set<nat>) {
    && NoDup(queue)
    && (forall p :: p in queue ==> p in files && p !in out)
    && (forall p :: p in files ==> (Listed(files, tree, p) <==> p in queue || p in out))
  }

  /** The count is the number of cleanups to come; only an open file is in use. */
  predicate Basic(f: File, held: nat) {
    && f.count == held
    && (f.fd < 0 ==> f.fd == INVALID && f.count == 0)
    && (f.err != 0 || f.info.isDir ==> f.fd == INVALID)
  }

  /** An entry that has left the tree is in use and is closed with its last cleanup. */
  predicate Placed(f: File, listed: bool) {
    if listed then f.err == 0 ==> !f.close else f.close && f.count > 0
  }

  /** `limbo` is not where it should be, and of `raw` only the name and the count are set. */
  ghost predicate FilesOk(files: map<nat, File>, tree: map<string, nat>, held: multiset<nat>, limbo: set<nat>, raw: set<nat>) {
    && (forall p :: p in held ==> p in files)
    && (forall p :: p in files ==> files[p].count == held[p])
    && (forall p :: p in files && p !in raw ==> Basic(files[p], held[p]))
    && (forall p :: p in files && p !in raw && p !in limbo ==> Placed(files[p], Listed(files, tree, p)))
  }

  predicate Owns(files: map<nat, File>, p: nat, d: nat) {
    p in files && files[p].fd == d
  }

  /** Every open descriptor belongs to exactly one entry, or is loose in a call. */
  ghost predicate Owned(files: map<nat, File>, open: set<nat>, loose: set<nat>, raw: set<nat>) {
    && loose <= open
    && (forall p :: p in files && p !in raw && files[p].fd >= 0 ==> files[p].fd in open && files[p].fd !in loose)
    && (forall p, q :: p in files && q in files && p !in raw && q !in raw && p != q && files[p].fd >= 0 ==> files[p].fd != files[q].fd)
    && (forall d :: d in open && d !in loose ==> exists p :: p !in raw && Owns(files, p, d))
  }

  /** The most recently used entry comes first. */
  ghost predicate Ordered(files: map<nat, File>, queue: seq<nat>, clock: int) {
    && (forall p :: p in queue ==> p in files && files[p].accessed <= clock)
    && (forall i, j :: 0 <= i < j < |queue| ==> files[queue[i]].accessed >= files[queue[j]].accessed)
  }

  /** No entry in use is lost, and its descriptor stays the same. */
  ghost predicate Kept(was: map<nat, File>, files: map<nat, File>, held: multiset<nat>) {
    forall p :: p in held ==> p in was && p in files && files[p].fd == was[p].fd && files[p].name == was[p].name
  }

  /** The queue without an entry. */
  function Without(queue: seq<nat>, p: nat): seq<nat> {
    if queue == [] then [] else if queue[0] == p then queue[1..] else [queue[0]] + Without(queue[1..], p)
  }

  lemma {:induction false} WithoutAt(queue: seq<nat>, i: nat)
    requires i < |queue| && NoDup(queue)
    ensures Without(queue, queue[i]) == queue[..i] + queue[i + 1..]
  {
    if i > 0 {
      WithoutAt(queue[1..], i - 1);
      assert queue[..i] == [queue[0]] + queue[1..][..i - 1] && queue[1..][i..] == queue[i + 1..];
    }
  }

  // ---------- single changes ----------

  /** A change of an entry that leaves its name. */
  lemma SetTree(files: map<nat, File>, tree: map<string, nat>, queue: seq<nat>, out: set<nat>, p: nat, f: File)
    requires p in files && f.name == files[p].name && TreeOk(files, tree) && QueueOk(files, tree, queue, out)
    ensures TreeOk(files[p := f], tree) && QueueOk(files[p := f], tree, queue, out)
    ensures forall q :: q in files ==> Listed(files[p := f], tree, q) == Listed(files, tree, q)
  {
    var now := files[p := f];
    assert forall q :: q in now <==> q in files;
    assert forall q :: q in files ==> now[q].name == files[q].name;
  }

  lemma SetOrder(files: map<nat, File>, queue: seq<nat>, clock: int, p: nat, f: File)
    requires p in files && Ordered(files, queue, clock) && (p in queue ==> f.accessed == files[p].accessed)
    ensures Ordered(files[p := f], queue, clock)
  {
  }

  lemma TakeOutAt(queue: seq<nat>, i: nat)
    requires i < |queue| && NoDup(queue)
    ensures var q := queue[..i] + queue[i + 1..];
      NoDup(q) && forall p :: p in q <==> p in queue && p != queue[i]
  {
    var q := queue[..i] + queue[i + 1..];
    assert forall k :: 0 <= k < |q| ==> q[k] == queue[if k < i then k else k + 1];
    forall p | p in queue && p != queue[i] ensures p in q {
      var k :| 0 <= k < |queue| && queue[k] == p;
      assert q[if k < i then k else k - 1] == p;
    }
  }

  lemma TakeOutOrder(files: map<nat, File>, queue: seq<nat>, i: nat, clock: int)
    requires i < |queue| && Ordered(files, queue, clock)
    ensures Ordered(files, queue[..i] + queue[i + 1..], clock)
  {
    var q := queue[..i] + queue[i + 1..];
    assert forall k :: 0 <= k < |q| ==> q[k] == queue[if k < i then k else k + 1];
  }

  /** The entry `queue[i]` is taken out of the queue. */
  lemma TakeOut(files: map<nat, File>, tree: map<string, nat>, queue: seq<nat>, i: nat, clock: int)
    requires i < |queue| && QueueOk(files, tree, queue, {}) && Ordered(files, queue, clock)
    ensures QueueOk(files, tree, queue[..i] + queue[i + 1..], {queue[i]}) && Ordered(files, queue[..i] + queue[i + 1..], clock)
  {
    TakeOutAt(queue, i);
    TakeOutOrder(files, queue, i, clock);
    hide Ordered, NoDup, Listed;
    var p := queue[i];
    assert p in queue;
  }

  /** An entry is put at the head of the queue, used now. */
  lemma PutIn(files: map<nat, File>, tree: map<string, nat>, queue: seq<nat>, clock: int, p: nat, now: int)
    requires p in files && QueueOk(files, tree, queue, {p}) && Ordered(files, queue, clock) && clock <= now
    ensures var put := files[p := files[p].(accessed := now)];
      QueueOk(put, tree, [p] + queue, {}) && Ordered(put, [p] + queue, now)
  {
    var put, q := files[p := files[p].(accessed := now)], [p] + queue;
    assert forall x :: x in q <==> x == p || x in queue;
    assert forall x :: x in files ==> Listed(put, tree, x) == Listed(files, tree, x);
    assert p !in queue;
  }

  /** The descriptor of an entry is closed. */
  lemma CloseOwned(files: map<nat, File>, open: set<nat>, loose: set<nat>, p: nat)
    requires p in files && files[p].fd >= 0 && Owned(files, open, loose, {})
    ensures Owned(files[p := files[p].(fd := INVALID)], open - {files[p].fd}, loose, {})
  {
    var now, d := files[p := files[p].(fd := INVALID)], files[p].fd;
    forall e | e in open - {d} && e !in loose ensures exists q :: q !in {} && Owns(now, q, e) {
      var q :| q !in {} && Owns(files, q, e);
      assert Owns(now, q, e);
    }
  }

  /** An entry that owns no descriptor is freed. */
  lemma FreeOwned(files: map<nat, File>, open: set<nat>, loose: set<nat>, p: nat)
    requires p in files && files[p].fd < 0 && Owned(files, open, loose, {})
    ensures Owned(files - {p}, open, loose, {})
  {
    var now := files - {p};
    forall e | e in open && e !in loose ensures exists q :: q !in {} && Owns(now, q, e) {
      var q :| q !in {} && Owns(files, q, e);
      assert Owns(now, q, e);
    }
  }

  /** A change of an entry that leaves its descriptor. */
  lemma SetOwned(files: map<nat, File>, open: set<nat>, loose: set<nat>, raw: set<nat>, p: nat, f: File)
    requires p in files && files[p].fd == f.fd && Owned(files, open, loose, raw)
    ensures Owned(files[p := f], open, loose, raw)
  {
    var now := files[p := f];
    forall e | e in open && e !in loose ensures exists q :: q !in raw && Owns(now, q, e) {
      var q :| q !in raw && Owns(files, q, e);
      assert Owns(now, q, e);
    }
  }

  /** An entry out of the tree that nobody uses is freed. */
  lemma FreeTree(files: map<nat, File>, tree: map<string, nat>, queue: seq<nat>, out: set<nat>, p: nat)
    requires p in files && TreeOk(files, tree) && QueueOk(files, tree, queue, out) && !Listed(files, tree, p)
    ensures TreeOk(files - {p}, tree) && QueueOk(files - {p}, tree, queue, out)
  {
    assert forall n :: n in tree ==> tree[n] != p;
    assert forall q :: q in files - {p} ==> Listed(files - {p}, tree, q) == Listed(files, tree, q);
  }

  lemma FreeFiles(files: map<nat, File>, tree: map<string, nat>, held: multiset<nat>, p: nat)
    requires p in files && FilesOk(files, tree, held, {p}, {}) && files[p].count == 0
    ensures FilesOk(files - {p}, tree, held, {}, {})
  {
    assert p !in held;
    assert forall q :: q in files - {p} ==> Listed(files - {p}, tree, q) == Listed(files, tree, q);
  }

  lemma SetFiles(files: map<nat, File>, tree: map<string, nat>, held: multiset<nat>, limbo: set<nat>, raw: set<nat>, p: nat, f: File)
    requires p in files && f.name == files[p].name && f.count == files[p].count && FilesOk(files, tree, held, limbo, raw)
    requires p !in raw ==> Basic(f, held[p])
    requires p !in raw && p !in limbo ==> Placed(f, Listed(files, tree, p))
    ensures FilesOk(files[p := f], tree, held, limbo, raw)
  {
    assert forall q :: q in files ==> Listed(files[p := f], tree, q) == Listed(files, tree, q);
  }

  lemma UseFiles(files: map<nat, File>, tree: map<string, nat>, held: multiset<nat>, limbo: set<nat>, raw: set<nat>, p: nat, f: File)
    requires p in files && FilesOk(files, tree, held, limbo, raw) && f == files[p].(accessed := f.accessed, rest := f.rest)
    ensures FilesOk(files[p := f], tree, held, limbo, raw)
  {
    var now := files[p := f];
    assert forall h :: Basic(f, h) == Basic(files[p], h);
    assert forall l :: Placed(f, l) == Placed(files[p], l);
    hide Basic, Placed;
    assert forall q :: q in files ==> Listed(now, tree, q) == Listed(files, tree, q);
  }

  /** An entry is used: this concerns neither its place nor its descriptor. */
  lemma UseOk(files: map<nat, File>, tree: map<string, nat>, held: multiset<nat>, open: set<nat>, limbo: set<nat>, loose: set<nat>, raw: set<nat>,
              p: nat, now: int, rest: Rest)
    requires p in files && TreeOk(files, tree) && FilesOk(files, tree, held, limbo, raw) && Owned(files, open, loose, raw)
    ensures var f := files[p].(accessed := now, rest := rest);
      TreeOk(files[p := f], tree) && FilesOk(files[p := f], tree, held, limbo, raw) && Owned(files[p := f], open, loose, raw)
  {
    var f := files[p].(accessed := now, rest := rest);
    SetOwned(files, open, loose, raw, p, f);
    hide Owned, Owns;
    UseFiles(files, tree, held, limbo, raw, p, f);
    hide FilesOk;
    assert forall q :: q in files[p := f] <==> q in files;
  }

  /** An entry is where it should be again. */
  lemma Settle(files: map<nat, File>, tree: map<string, nat>, held: multiset<nat>, p: nat)
    requires p in files && FilesOk(files, tree, held, {p}, {}) && Placed(files[p], Listed(files, tree, p))
    ensures FilesOk(files, tree, held, {}, {})
  {
  }

  lemma InUse(files: map<nat, File>, tree: map<string, nat>, held: multiset<nat>, open: set<nat>, p: nat, loose: set<nat>)
    requires p in files && FilesOk(files, tree, held, {p}, {}) && Owned(files, open, loose, {})
    ensures Basic(files[p], held[p]) && (files[p].fd >= 0 ==> files[p].fd in open)
  {
  }

  lemma InQueue(files: map<nat, File>, tree: map<string, nat>, queue: seq<nat>, out: set<nat>, p: nat)
    requires p in files && QueueOk(files, tree, queue, out)
    ensures Listed(files, tree, p) <==> p in queue || p in out
  {
  }

  lemma QueueIn(files: map<nat, File>, tree: map<string, nat>, queue: seq<nat>, out: set<nat>)
    requires QueueOk(files, tree, queue, out)
    ensures forall i :: 0 <= i < |queue| ==> queue[i] in files
  {
  }

  lemma QueueNoDup(files: map<nat, File>, tree: map<string, nat>, queue: seq<nat>, out: set<nat>)
    requires QueueOk(files, tree, queue, out)
    ensures NoDup(queue)
  {
  }

  lemma FreeOrder(files: map<nat, File>, tree: map<string, nat>, queue: seq<nat>, clock: int, p: nat)
    requires p in files && QueueOk(files, tree, queue, {}) && !Listed(files, tree, p) && Ordered(files, queue, clock)
    ensures Ordered(files - {p}, queue, clock)
  {
    assert p !in queue;
  }

  /** The descriptor of an entry, if it has one. */
  function Fds(f: File): set<nat> {
    if f.fd >= 0 then {f.fd as nat} else {}
  }

  // ---------- entries leave the cache ----------

  lemma UnlistTree(files: map<nat, File>, tree: map<string, nat>, queue: seq<nat>, p: nat)
    requires p in files && Listed(files, tree, p) && TreeOk(files, tree) && QueueOk(files, tree, queue, {p})
    ensures var less := tree - {files[p].name};
      TreeOk(files, less) && QueueOk(files, less, queue, {}) && !Listed(files, less, p) && |less| == |tree| - 1
  {
    var less := tree - {files[p].name};
    assert tree.Keys == less.Keys + {files[p].name};
    assert forall q :: q in files && q != p ==> Listed(files, less, q) == Listed(files, tree, q);
  }

  lemma UnlistFiles(files: map<nat, File>, tree: map<string, nat>, held: multiset<nat>, p: nat)
    requires p in files && Listed(files, tree, p) && FilesOk(files, tree, held, {}, {})
    ensures FilesOk(files, tree - {files[p].name}, held, {p}, {})
  {
    var less := tree - {files[p].name};
    assert forall q :: q in files && q != p ==> Listed(files, less, q) == Listed(files, tree, q);
  }

  ghost predicate Submap(a: map<string, nat>, b: map<string, nat>) {
    forall n :: n in a ==> n in b && a[n] == b[n]
  }

  /** An entry may leave by force or because it was not used for too long. */
  predicate Leaves(files: map<nat, File>, queue: seq<nat>, i: nat, n: nat, now: int, inactive: int)
    requires i < |queue|
  {
    (n == 0 && i == |queue| - 1) || (queue[i] in files && now - files[queue[i]].accessed > inactive)
  }

  predicate AllLeave(files: map<nat, File>, queue: seq<nat>, m: nat, n: nat, now: int, inactive: int) {
    forall i :: m <= i < |queue| ==> Leaves(files, queue, i, n, now, inactive)
  }

  /** From the end of the queue `q` at most `3 - n` entries leave, the last one by force if `n` is
      0, and no fewer than may leave. */
  ghost predicate Expired(files: map<nat, File>, q: seq<nat>, r: seq<nat>, n: nat, now: int, inactive: int) {
    && r <= q && |q| - |r| <= 3 - n
    && AllLeave(files, q, |r|, n, now, inactive)
    && (|q| - |r| < 3 - n && r != [] ==> !Leaves(files, q, |r| - 1, n, now, inactive))
  }

  ghost predicate Same(was: map<nat, File>, files: map<nat, File>, queue: seq<nat>) {
    forall p :: p in queue ==> p in files && p in was && files[p] == was[p]
  }

  /** An entry has left the tree: it is closed and freed, or it waits for its last cleanup. */
  function Dismissed(files: map<nat, File>, p: nat): map<nat, File>
    requires p in files
  {
    if files[p].count == 0 then files - {p} else files[p := files[p].(close := true)]
  }

  lemma Unchanged(files: map<nat, File>, tree: map<string, nat>, queue: seq<nat>, held: multiset<nat>, open: set<nat>)
    requires QueueOk(files, tree, queue, {}) && FilesOk(files, tree, held, {}, {})
    ensures Between(files, tree, queue, open, files, tree, queue, open, held)
  {
  }

  lemma Twice(files: map<nat, File>, p: nat, f: File)
    requires p in files
    ensures files[p := f] - {p} == files - {p} && files[p := f][p := f] == files[p := f]
  {
  }

  /** The last entry of the queue leaves: those in use and the others in the queue are as before. */
  lemma EvictKept(was: map<nat, File>, files: map<nat, File>, tree: map<string, nat>, held: multiset<nat>, p: nat)
    requires p in files && FilesOk(files, tree, held, {}, {}) && Kept(was, files, held)
    ensures Kept(was, Dismissed(files, p), held)
  {
    assert files[p].count == 0 ==> p !in held;
    hide FilesOk;
  }

  lemma EvictSame(was: map<nat, File>, files: map<nat, File>, tree: map<string, nat>, queue: seq<nat>)
    requires queue != [] && QueueOk(files, tree, queue, {}) && Same(was, files, queue)
    ensures var p := queue[|queue| - 1];
      p in files && p in was && files[p] == was[p] && Same(was, Dismissed(files, p), queue[..|queue| - 1])
  {
    var p := queue[|queue| - 1];
    assert forall q :: q in queue[..|queue| - 1] ==> q in queue && q != p;
    hide QueueOk;
  }

  lemma EvictTree(tree: map<string, nat>, tree0: map<string, nat>, n: string)
    requires Submap(tree, tree0)
    ensures Submap(tree - {n}, tree0)
  {
  }

  /** What holds between the start of a clean-up and any time in it. */
  ghost predicate Between(files0: map<nat, File>, tree0: map<string, nat>, queue0: seq<nat>, open0: set<nat>,
                          files: map<nat, File>, tree: map<string, nat>, queue: seq<nat>, open: set<nat>, held: multiset<nat>) {
    && Kept(files0, files, held) && Same(files0, files, queue) && Submap(tree, tree0)
    && files.Keys <= files0.Keys && open <= open0 && queue <= queue0
  }

  lemma BetweenStep(files0: map<nat, File>, tree0: map<string, nat>, queue0: seq<nat>, open0: set<nat>,
                    files: map<nat, File>, tree: map<string, nat>, queue: seq<nat>, open: set<nat>, held: multiset<nat>, less: set<nat>)
    requires less <= open && Between(files0, tree0, queue0, open0, files, tree, queue, open, held)
    requires queue != [] && QueueOk(files, tree, queue, {}) && FilesOk(files, tree, held, {}, {})
    ensures var p := queue[|queue| - 1];
      && p in files && p in files0 && files[p] == files0[p] && queue0[|queue| - 1] == p
      && Between(files0, tree0, queue0, open0, Dismissed(files, p), tree - {files[p].name}, queue[..|queue| - 1], less, held)
  {
    EvictSame(files0, files, tree, queue);
    var p := queue[|queue| - 1];
    EvictKept(files0, files, tree, held, p);
    EvictTree(tree, tree0, files[p].name);
    hide Kept, Same, Submap, QueueOk, FilesOk;
    assert queue[..|queue| - 1] <= queue0;
  }

  lemma BetweenLast(files0: map<nat, File>, tree0: map<string, nat>, queue0: seq<nat>, open0: set<nat>,
                    files: map<nat, File>, tree: map<string, nat>, queue: seq<nat>, open: set<nat>, held: multiset<nat>)
    requires queue != [] && Between(files0, tree0, queue0, open0, files, tree, queue, open, held)
    ensures var p := queue[|queue| - 1];
      p in files && p in files0 && files[p] == files0[p] && |queue| <= |queue0| && queue0[|queue| - 1] == p
  {
  }

  // ---------- an entry is opened, and given back ----------

  /** An entry in use is open. */
  lemma HeldOpen(files: map<nat, File>, tree: map<string, nat>, held: multiset<nat>, open: set<nat>, p: nat)
    requires p in held && FilesOk(files, tree, held, {}, {}) && Owned(files, open, {}, {})
    ensures p in files && files[p].count == held[p] && files[p].err == 0 && !files[p].info.isDir
    ensures files[p].fd >= 0 && files[p].fd in open && (files[p].close <==> !Listed(files, tree, p))
  {
    assert Basic(files[p], held[p]) && Placed(files[p], Listed(files, tree, p));
  }

  /** One cleanup less. */
  lemma GiveBack(files: map<nat, File>, tree: map<string, nat>, held: multiset<nat>, p: nat, f: File)
    requires p in held && FilesOk(files, tree, held, {}, {})
    requires p in files && f.name == files[p].name && Basic(f, held[p] - 1)
    ensures FilesOk(files[p := f], tree, held - multiset{p}, {p}, {})
  {
    var now := files[p := f];
    assert forall q :: q in files ==> Listed(now, tree, q) == Listed(files, tree, q);
    hide Basic, Placed, Listed;
    assert forall q :: q != p ==> (held - multiset{p})[q] == held[q];
  }

  /** What the system tells about a name: no answer, the file of the descriptor at hand, a
      directory, or a file that is open now. */
  datatype Got = Failed(err: nat) | Same(info: Info) | Dir(info: Info) | Regular(info: Info, fd: nat)

  function Ask(fd: int, uniq: nat, testDir: bool, w: World): Got {
    if fd >= 0 && w.stat.Error? then Failed(w.stat.err)
    else if fd >= 0 && w.stat.info.uniq == uniq then Got.Same(w.stat.info)
    else if fd < 0 && testDir && w.stat.Error? then Failed(w.stat.err)
    else if fd < 0 && testDir && w.stat.info.isDir then Dir(w.stat.info)
    else if !w.opens then Failed(w.openErr)
    else if w.fstat.None? then Failed(0)
    else if w.fstat.value.isDir then Dir(w.fstat.value)
    else Regular(w.fstat.value, w.fd)
  }

  /** stat() and open() in one call see the same file, and the descriptor and the memory are new. */
  predicate Sound(w: World, files: map<nat, File>, open: set<nat>) {
    && (w.stat.Fine? && w.fstat.Some? ==> w.stat.info.uniq == w.fstat.value.uniq)
    && w.fd !in open && (w.memory.Some? ==> w.memory.value !in files)
  }

  /** The number of an open file is not the one of a directory. */
  predicate SoundFor(w: World, f: File) {
    f.fd >= 0 && w.stat.Fine? && w.stat.info.uniq == f.info.uniq ==> !w.stat.info.isDir
  }

  /** The entry is tested again, and its name is now a directory, on another device, with the number
      of the file that the entry has open. */
  predicate Clash(f: File, of: Of, now: int, w: World) {
    !Hit(f, of, now) && !SoundFor(w, f)
  }

  /** An entry of a minute ago for a file with the number 7, and stat() that tells of a directory 7. */
  lemma ClashInput()
    ensures Clash(File("f", 5, 0, 0, false, 0, Info(7, false, 0), Rest(1, 0, 0)),
                  Of(INVALID, 0, Info(0, false, 0), Want(60, 1, false, false, 0)), 60,
                  World(Fine(Info(7, true, 0)), false, 0, 6, None, None))
  {
  }

  predicate Clashes(files: map<nat, File>, tree: map<string, nat>, name: string, of: Of, now: int, w: World) {
    name in tree && tree[name] in files && Clash(files[tree[name]], of, now, w)
  }

  /** After a clash the entry has a descriptor that is closed, or shares it with the entry that took
      its name. */
  predicate Torn(f: File, p: nat, files: map<nat, File>, tree: map<string, nat>, open: set<nat>, name: string, ok: bool, of: Of, w: World) {
    && of.err == 0 && of.info.isDir && of.fd == f.fd && ok == (f.count == 0 || w.memory.Some?)
    && p in files && files[p].fd == f.fd
    && (ok ==> name in tree && tree[name] in files && files[tree[name]].fd == f.fd && files[tree[name]].info == of.info)
    && (if f.count == 0 || !ok then f.fd !in open else tree[name] != p)
  }

  lemma TornInvalid(f: File, p: nat, files: map<nat, File>, tree: map<string, nat>, open: set<nat>, name: string, ok: bool, of: Of, w: World)
    requires f.fd >= 0 && Torn(f, p, files, tree, open, name, ok, of, w)
    ensures !Owned(files, open, {}, {})
  {
    assert p !in {};
  }

  lemma OpenOwned(files: map<nat, File>, open: set<nat>, d: nat)
    requires Owned(files, open, {}, {}) && d !in open
    ensures Owned(files, open + {d}, {d}, {})
  {
    forall e | e in open + {d} && e !in {d} ensures exists p :: p !in {} && Owns(files, p, e) {
      assert e in open && e !in {};
    }
  }

  /** An entry gives its descriptor up: it is closed, or in the hands of the call, or there is none. */
  lemma RawOwned(files: map<nat, File>, open: set<nat>, loose: set<nat>, p: nat)
    requires p in files && Owned(files, open, loose, {})
    ensures Owned(files, open - Fds(files[p]), loose, {p})
    ensures Owned(files, open, loose + Fds(files[p]), {p})
  {
    forall e | e in open && e !in loose && e !in Fds(files[p]) ensures exists q :: q !in {p} && Owns(files, q, e) {
      var q :| q !in {} && Owns(files, q, e);
      assert q != p;
    }
  }

  lemma RawFiles(files: map<nat, File>, tree: map<string, nat>, held: multiset<nat>, p: nat)
    requires FilesOk(files, tree, held, {}, {})
    ensures FilesOk(files, tree, held, {}, {p})
  {
  }

  /** The entry takes the loose descriptor of the call. */
  lemma UpdateOwned(files: map<nat, File>, open: set<nat>, p: nat, f: File)
    requires p in files && Owned(files, open, Fds(f), {p})
    ensures Owned(files[p := f], open, {}, {})
  {
    var now := files[p := f];
    forall e | e in open && e !in {} ensures exists q :: q !in {} && Owns(now, q, e) {
      if e in Fds(f) {
        assert p !in {} && Owns(now, p, e);
      } else {
        var q :| q !in {p} && Owns(files, q, e);
        assert q !in {} && Owns(now, q, e);
      }
    }
  }

  lemma UpdateFiles(files: map<nat, File>, tree: map<string, nat>, held: multiset<nat>, p: nat, f: File, more: multiset<nat>)
    requires p in files && FilesOk(files, tree, held, {}, {p}) && f.name == files[p].name && more <= multiset{p}
    requires Basic(f, held[p] + more[p]) && Placed(f, Listed(files, tree, p))
    ensures FilesOk(files[p := f], tree, held + more, {}, {})
  {
    var now := files[p := f];
    assert forall q :: q != p ==> more[q] == 0;
    assert forall q :: q in files ==> Listed(now, tree, q) == Listed(files, tree, q);
  }

  lemma NewListed(files: map<nat, File>, tree: map<string, nat>, p: nat, f: File)
    requires p !in files && f.name !in tree
    ensures forall q :: q in files ==> Listed(files[p := f], tree[f.name := p], q) == Listed(files, tree, q)
  {
  }

  lemma NewTree(files: map<nat, File>, tree: map<string, nat>, p: nat, f: File)
    requires p !in files && f.name !in tree && TreeOk(files, tree)
    ensures TreeOk(files[p := f], tree[f.name := p])
  {
  }

  lemma NewCount(tree: map<string, nat>, name: string, p: nat)
    requires name !in tree
    ensures |tree[name := p]| == |tree| + 1
  {
    assert tree[name := p].Keys == tree.Keys + {name};
  }

  lemma NewQueue(files: map<nat, File>, tree: map<string, nat>, queue: seq<nat>, p: nat, f: File)
    requires p !in files && f.name !in tree && TreeOk(files, tree) && QueueOk(files, tree, queue, {})
    ensures QueueOk(files[p := f], tree[f.name := p], queue, {p})
  {
    NewListed(files, tree, p, f);
    hide TreeOk;
    assert p !in queue && Listed(files[p := f], tree[f.name := p], p);
    hide Listed, NoDup;
  }

  lemma NewFiles(files: map<nat, File>, tree: map<string, nat>, held: multiset<nat>, p: nat, f: File)
    requires p !in files && f.name !in tree && f.count == 0 && TreeOk(files, tree) && FilesOk(files, tree, held, {}, {})
    ensures FilesOk(files[p := f], tree[f.name := p], held, {}, {p})
  {
    NewListed(files, tree, p, f);
    hide TreeOk, Listed;
    assert p !in held;
  }

  lemma NewOwned(files: map<nat, File>, open: set<nat>, loose: set<nat>, p: nat, f: File)
    requires p !in files && Owned(files, open, loose, {})
    ensures Owned(files[p := f], open, loose, {p})
  {
    var now := files[p := f];
    forall e | e in open && e !in loose ensures exists q :: q !in {p} && Owns(now, q, e) {
      var q :| q !in {} && Owns(files, q, e);
      assert q !in {p} && Owns(now, q, e);
    }
  }

  lemma RawCount(files: map<nat, File>, tree: map<string, nat>, held: multiset<nat>, p: nat)
    requires p in files && FilesOk(files, tree, held, {}, {p})
    ensures files[p].count == held[p]
  {
  }

  lemma Later(files: map<nat, File>, queue: seq<nat>, clock: int, now: int)
    requires Ordered(files, queue, clock) && clock <= now
    ensures Ordered(files, queue, now)
  {
  }

  lemma CloseKept(files0: map<nat, File>, files: map<nat, File>, held: multiset<nat>, open: set<nat>, tree: map<string, nat>, p: nat, f: File)
    requires p in files0 && FilesOk(files, tree, held, {}, {}) && f.fd == files0[p].fd && f.name == files0[p].name
    requires forall q :: q in files && q != p ==> q in files0 && files[q] == files0[q]
    requires p in files ==> files[p].name == f.name && (f.count > 0 ==> files[p].fd == f.fd)
    requires p in held ==> f.count > 0
    ensures Kept(files0, files, held)
  {
  }

  lemma BetweenKept(files0: map<nat, File>, files1: map<nat, File>, tree1: map<string, nat>, queue1: seq<nat>, open1: set<nat>,
                    files: map<nat, File>, tree: map<string, nat>, queue: seq<nat>, open: set<nat>, held: multiset<nat>)
    requires Kept(files0, files1, held) && Between(files1, tree1, queue1, open1, files, tree, queue, open, held)
    ensures Kept(files0, files, held) && queue <= queue1 && open <= open1
  {
  }

  /** `file->uses++`. */
  function Used(f: File): File {
    f.(rest := f.rest.(uses := (f.rest.uses + 1) % USES))
  }

  function OfFds(of: Of): set<nat> {
    if of.fd >= 0 then {of.fd as nat} else {}
  }

  /** What is written into an entry at `update`. */
  function Stored(was: File, of: Of, now: int): File {
    var f := was.(fd := of.fd, err := of.err, rest := Rest(was.rest.uses, now, of.want.links));
    if of.err != 0 then f
    else if of.info.isDir then f.(info := of.info, close := false)
    else f.(info := of.info, close := false, count := (f.count + 1) % COUNTS)
  }

  /** The entry says what the call has found; of an error it keeps what it said before. */
  predicate Written(f: File, was: File, of: Of, now: int) {
    && f.name == was.name && f.fd == of.fd && f.err == of.err && f.accessed == was.accessed
    && f.rest == Rest(was.rest.uses, now, of.want.links)
    && (if of.err == 0 then f.info == of.info && !f.close && f.count == was.count + (if of.info.isDir then 0 else 1)
        else f.info == was.info && f.close == was.close && f.count == was.count)
  }

  lemma NewOrder(files: map<nat, File>, tree: map<string, nat>, queue: seq<nat>, clock: int, p: nat, f: File)
    requires p !in files && Ordered(files, queue, clock)
    ensures Ordered(files[p := f], queue, clock)
  {
    assert p !in queue;
  }

  /** What the call knows after it has asked the system. */
  function After(of: Of, got: Got): Of {
    match got
    case Failed(e) => of.(fd := INVALID, err := e)
    case Same(i) => of.(info := i)
    case Dir(i) => of.(fd := INVALID, info := i)
    case Regular(i, d) => of.(fd := d, info := i)
  }

  /** The caller gets one cleanup when and only when it gets an open file. */
  ghost predicate Handed(held0: multiset<nat>, held: multiset<nat>, ok: bool, of: Of, clean: Option<nat>) {
    && (clean.Some? <==> ok && !of.info.isDir)
    && held == held0 + (if clean.Some? then multiset{clean.value} else multiset{})
  }

  // ---------- the number of entries ----------

  function Names(files: map<nat, File>, queue: seq<nat>): set<string>
    requires forall p :: p in queue ==> p in files
  {
    if queue == [] then {} else {files[queue[0]].name} + Names(files, queue[1..])
  }

  lemma {:induction false} NamesAre(files: map<nat, File>, queue: seq<nat>)
    requires forall p :: p in queue ==> p in files
    ensures forall n :: n in Names(files, queue) <==> exists p :: p in queue && files[p].name == n
  {
    if queue != [] {
      NamesAre(files, queue[1..]);
      assert forall p :: p in queue <==> p == queue[0] || p in queue[1..];
    }
  }

  lemma {:induction false} NamesCount(files: map<nat, File>, queue: seq<nat>)
    requires forall p :: p in queue ==> p in files
    requires forall i, j :: 0 <= i < j < |queue| ==> files[queue[i]].name != files[queue[j]].name
    ensures |Names(files, queue)| == |queue|
  {
    if queue != [] {
      var rest := queue[1..];
      assert forall i, j :: 0 <= i < j < |rest| ==> files[rest[i]].name != files[rest[j]].name by {
        assert forall i :: 0 <= i < |rest| ==> rest[i] == queue[i + 1];
      }
      NamesCount(files, rest);
      NamesAre(files, rest);
      assert files[queue[0]].name !in Names(files, rest);
    }
  }

  /** The tree has as many entries as the queue. */
  lemma CurrentIsQueue(files: map<nat, File>, tree: map<string, nat>, queue: seq<nat>)
    requires TreeOk(files, tree) && QueueOk(files, tree, queue, {})
    ensures |tree| == |queue|
  {
    forall i, j | 0 <= i < j < |queue| ensures files[queue[i]].name != files[queue[j]].name {
      assert queue[i] in queue && queue[j] in queue;
      assert Listed(files, tree, queue[i]) && Listed(files, tree, queue[j]);
    }
    NamesAre(files, queue);
    NamesCount(files, queue);
    forall n ensures n in tree <==> n in Names(files, queue) {
      if n in tree {
        assert Listed(files, tree, tree[n]);
      }
      if n in Names(files, queue) {
        var p :| p in queue && files[p].name == n;
        assert Listed(files, tree, p);
      }
    }
    assert tree.Keys == Names(files, queue);
  }

  lemma KeptRefl(files: map<nat, File>, tree: map<string, nat>, held: multiset<nat>)
    requires FilesOk(files, tree, held, {}, {})
    ensures Kept(files, files, held)
  {
  }

  lemma KeptNew(files0: map<nat, File>, files: map<nat, File>, tree: map<string, nat>, held: multiset<nat>, p: nat, f: File)
    requires Kept(files0, files, held) && FilesOk(files, tree, held, {}, {}) && p !in files
    ensures Kept(files0, files[p := f], held)
  {
    assert p !in held;
  }

  lemma LooseClosed(files: map<nat, File>, open: set<nat>, d: nat)
    requires Owned(files, open, {d}, {})
    ensures Owned(files, open - {d}, {}, {}) && d in open
  {
    forall e | e in open - {d} && e !in {} ensures exists p :: p !in {} && Owns(files, p, e) {
      assert e in open && e !in {d};
    }
  }

  /** The name is in the cache, used last, and what the caller was told is what its entry says. */
  ghost predicate Shown(files: map<nat, File>, tree: map<string, nat>, queue: seq<nat>, name: string, of: Of, clean: Option<nat>, now: int) {
    && name in tree && tree[name] in files && queue != [] && queue[0] == tree[name]
    && (clean.Some? ==> clean.value == tree[name])
    && var f := files[tree[name]];
      f.name == name && f.fd == of.fd && f.err == 0 && f.info == of.info && f.accessed == now
  }

  lemma KeptStore(files: map<nat, File>, tree: map<string, nat>, held: multiset<nat>, p: nat, f: File)
    requires p in files && FilesOk(files, tree, held, {}, {p}) && f.name == files[p].name
    requires files[p].count > 0 ==> f.fd == files[p].fd
    ensures Kept(files, files[p := f], held)
  {
  }

  /** The entry was not used often enough to be kept open. */
  predicate Dropped(f: File) {
    f.fd == INVALID && f.err == 0 && !f.info.isDir
  }

  /** The entry is young enough, and what the caller wants. */
  predicate Hit(f: File, of: Of, now: int) {
    && !Dropped(f) && (of.info.uniq == 0 || of.info.uniq == f.info.uniq)
    && now - f.rest.created < of.want.valid && of.want.links == f.rest.links
  }

  /** What the system is asked about an entry. */
  function Question(f: File, of: Of, w: World): Got {
    if Dropped(f) then Ask(INVALID, of.info.uniq, of.want.testDir, w)
    else Ask(f.fd, f.info.uniq, of.want.testDir || f.info.isDir, w)
  }

  /** The caller learns what the system said. */
  predicate Told(got: Got, w: World, ok: bool, of: Of) {
    if got.Failed? then !ok && of.err == got.err
    else of.err == 0 && of.info == got.info && (ok || w.memory.None?)
  }

  /** The caller learns what the entry says. */
  predicate FromCache(f: File, ok: bool, of: Of) {
    ok == (f.err == 0) && of.err == f.err && (ok ==> of.fd == f.fd && of.info == f.info)
  }

  /** A change of an entry that leaves its name and descriptor, and then others. */
  lemma KeptSet(files0: map<nat, File>, p: nat, f: File, files: map<nat, File>, held: multiset<nat>)
    requires p in files0 && f.name == files0[p].name && f.fd == files0[p].fd && Kept(files0[p := f], files, held)
    ensures Kept(files0, files, held)
  {
  }

  lemma KeptLess(files0: map<nat, File>, p: nat, f: File, files: map<nat, File>, held0: multiset<nat>, held: multiset<nat>)
    requires held0 <= held && Kept(files, files, held)
    requires p in files0 && files == files0[p := f] && f.name == files0[p].name && f.fd == files0[p].fd
    ensures Kept(files0, files, held0)
  {
  }

  lemma InPlace(files: map<nat, File>, tree: map<string, nat>, held: multiset<nat>, p: nat)
    requires p in files && FilesOk(files, tree, held, {}, {})
    ensures Basic(files[p], held[p]) && Placed(files[p], Listed(files, tree, p))
  {
  }

  /** Without entries in the queue and cleanups to come, nothing is open. */
  lemma NothingLeft(files: map<nat, File>, tree: map<string, nat>, held: multiset<nat>, open: set<nat>, queue: seq<nat>)
    requires TreeOk(files, tree) && QueueOk(files, tree, queue, {}) && FilesOk(files, tree, held, {}, {}) && Owned(files, open, {}, {})
    requires queue == [] && held == multiset{}
    ensures files == map[] && tree == map[] && open == {}
  {
    assert forall p :: p in files ==> !Listed(files, tree, p) && files[p].count == 0;
    assert files.Keys == {} && files == map[];
    assert tree.Keys == {} && tree == map[];
    assert forall p, d :: !Owns(files, p, d);
  }

  lemma DropUses(files: map<nat, File>, tree: map<string, nat>, held: multiset<nat>, p: nat, f: File)
    requires p in files && FilesOk(files, tree, held, {p}, {}) && f == files[p].(close := true, count := 0)
    ensures FilesOk(files[p := f], tree, held[p := 0], {p}, {})
  {
    var now := files[p := f];
    assert forall q :: q in files ==> Listed(now, tree, q) == Listed(files, tree, q);
    assert forall q :: q != p ==> held[p := 0][q] == held[q];
  }

  /** All entries are left but those that are gone, with their cleanups. */
  ghost predicate Remain(files0: map<nat, File>, gone: seq<nat>, held0: multiset<nat>, files: map<nat, File>, held: multiset<nat>) {
    && (forall p :: p in files <==> p in files0 && p !in gone)
    && (forall p :: p in files ==> files[p] == files0[p] && held[p] == held0[p])
  }

  lemma NothingGone(files: map<nat, File>, queue: seq<nat>, held: multiset<nat>)
    ensures Remain(files, queue[|queue|..], held, files, held)
  {
  }

  lemma OneGone(files0: map<nat, File>, queue0: seq<nat>, held0: multiset<nat>, files: map<nat, File>, held: multiset<nat>, k: nat)
    requires k < |queue0| && Remain(files0, queue0[k + 1..], held0, files, held)
    ensures Remain(files0, queue0[k..], held0, files - {queue0[k]}, held[queue0[k] := 0])
  {
    assert queue0[k..] == [queue0[k]] + queue0[k + 1..];
  }

  lemma OpenAre(files: map<nat, File>, open: set<nat>)
    requires Owned(files, open, {}, {})
    ensures forall d: nat :: d in open <==> exists p :: Owns(files, p, d)
  {
    forall d: nat ensures d in open <==> exists p :: Owns(files, p, d) {
      if d in open {
        var p :| p !in {} && Owns(files, p, d);
      }
      if exists p :: Owns(files, p, d) {
        var p :| Owns(files, p, d);
        assert p !in {};
      }
    }
  }

  lemma NoneListed(files: map<nat, File>, tree: map<string, nat>)
    requires TreeOk(files, tree) && QueueOk(files, tree, [], {})
    ensures tree == map[]
  {
    assert forall n :: n in tree ==> tree[n] in files && Listed(files, tree, tree[n]);
    assert tree.Keys == {};
  }

  lemma NoneHeld(files: map<nat, File>, tree: map<string, nat>, held: multiset<nat>)
    requires FilesOk(files, tree, held, {}, {}) && forall p :: p in files ==> held[p] == 0
    ensures held == multiset{}
  {
    hide Basic, Placed;
    assert forall p :: p in held ==> p in files;
  }

  lemma HeldCounts(files: map<nat, File>, tree: map<string, nat>, held: multiset<nat>)
    requires FilesOk(files, tree, held, {}, {})
    ensures forall p :: p in held <==> p in files && files[p].count > 0
  {
    hide Basic, Placed;
  }

  /** What is left when the queue is empty are the entries that were out of the tree. */
  lemma LeftOver(files0: map<nat, File>, tree0: map<string, nat>, queue0: seq<nat>, held0: multiset<nat>, files: map<nat, File>, held: multiset<nat>)
    requires QueueOk(files0, tree0, queue0, {}) && Remain(files0, queue0, held0, files, held)
    ensures forall p :: p in files <==> p in files0 && !Listed(files0, tree0, p)
    ensures forall p :: p in files ==> files[p] == files0[p] && held[p] == held0[p]
  {
    hide NoDup, Listed;
  }

  lemma LimboFiles(files: map<nat, File>, tree: map<string, nat>, held: multiset<nat>, p: nat)
    requires FilesOk(files, tree, held, {}, {})
    ensures FilesOk(files, tree, held, {p}, {})
  {
  }

  // ---------- the cache ----------

  class Cache {
    var files: map<nat, File>       // the entries that are allocated
    var tree: map<string, nat>      // `rbtree`
    var queue: seq<nat>             // `expire_queue`
    var current: nat
    const max: nat
    const inactive: int
    var open: set<nat>              // the descriptors that the system has open
    ghost var held: multiset<nat>   // the entries of the cleanups to come
    ghost var clock: int

    ghost predicate Inv(out: set<nat>, limbo: set<nat>, loose: set<nat>, raw: set<nat>)
      reads this
    {
      && TreeOk(files, tree) && QueueOk(files, tree, queue, out) && Ordered(files, queue, clock)
      && FilesOk(files, tree, held, limbo, raw) && Owned(files, open, loose, raw)
      && |tree| == current <= max && max >= 1
    }

    ghost predicate Valid()
      reads this
    {
      Inv({}, {}, {}, {})
    }

    constructor (max: nat, inactive: int, ghost now: int)
      requires max >= 1
      ensures Valid() && files == map[] && tree == map[] && queue == [] && open == {} && held == multiset{} && clock == now
    {
      this.max, this.inactive := max, inactive;
      files, tree, queue, current, open, held, clock := map[], map[], [], 0, {}, multiset{}, now;
    }

    /** `ngx_close_file`, of an open descriptor only. */
    method CloseFd(d: int)
      requires d >= 0 && d in open
      modifies this`open
      ensures open == old(open) - {d as nat}
    {
      open := open - {d as nat};
    }

    /** Lines 1041-1045: the entry is used now. */
    method Touch(p: nat, now: int, ghost loose: set<nat>)
      requires now == clock && Inv({}, {p}, loose, {}) && p in queue && p in files
      modifies this`files, this`queue
      ensures Inv({}, {p}, loose, {})
      ensures files == old(files)[p := old(files[p]).(accessed := now)]
      ensures queue == [p] + Without(old(queue), p)
    {
      hide TreeOk, QueueOk, Ordered, FilesOk, Owned;
      assert NoDup(queue) by { QueueNoDup(files, tree, queue, {}); }
      var i := Find(p);
      TakeOut(files, tree, queue, i, clock);
      queue := queue[..i] + queue[i + 1..];
      PutIn(files, tree, queue, clock, p, now);
      UseOk(files, tree, held, open, {p}, loose, {}, p, now, files[p].rest);
      files := files[p := files[p].(accessed := now)];
      queue := [p] + queue;
    }

    /** The place of an entry in the queue; the source has it from the links. */
    method Find(p: nat) returns (i: nat)
      requires p in queue && NoDup(queue)
      ensures i < |queue| && queue[i] == p && Without(queue, p) == queue[..i] + queue[i + 1..]
    {
      i :| i < |queue| && queue[i] == p;
      WithoutAt(queue, i);
    }

    /** Lines 1058-1066. */
    method CloseEntry(p: nat, ghost loose: set<nat>)
      requires Inv({}, {p}, loose, {}) && p in files && files[p].count == 0
      modifies this`files, this`open
      ensures Inv({}, {p}, loose, {})
      ensures files == old(files)[p := old(files[p]).(fd := INVALID)]
      ensures open == old(open) - Fds(old(files[p]))
    {
      hide TreeOk, QueueOk, Ordered, FilesOk, Owned;
      var f := files[p];
      InUse(files, tree, held, open, p, loose);
      if f.fd != INVALID {
        CloseOwned(files, open, loose, p);
        CloseFd(f.fd);
        var g := f.(fd := INVALID);
        SetTree(files, tree, queue, {}, p, g);
        SetOrder(files, queue, clock, p, g);
        SetFiles(files, tree, held, {p}, {}, p, g);
        files := files[p := g];
      } else {
        assert files[p := f.(fd := INVALID)] == files;
      }
    }

    /** Lines 1072-1073, for an entry out of the tree. */
    method Free(p: nat, ghost loose: set<nat>)
      requires Inv({}, {p}, loose, {}) && p in files && !Listed(files, tree, p)
      requires files[p].count == 0 && files[p].fd == INVALID
      modifies this`files
      ensures Inv({}, {}, loose, {}) && files == old(files) - {p}
    {
      hide QueueOk, Ordered, FilesOk, Owned, TreeOk;
      FreeTree(files, tree, queue, {}, p);
      FreeFiles(files, tree, held, p);
      FreeOwned(files, open, loose, p);
      FreeOrder(files, tree, queue, clock, p);
      files := files - {p};
    }

    /** `ngx_close_cached_file`. */
    method CloseCachedFile(p: nat, minUses: nat, now: int, ghost loose: set<nat>)
      requires now == clock && Inv({}, {p}, loose, {}) && p in files && files[p].err == 0 && !files[p].info.isDir
      requires files[p].close <==> !Listed(files, tree, p)
      modifies this`files, this`queue, this`open
      ensures Inv({}, {}, loose, {})
      ensures var f := old(files[p]);
        var last := f.count == 0 && (f.close || f.rest.uses < minUses);
        && queue == (if f.close then old(queue) else [p] + Without(old(queue), p))
        && open == (if last then old(open) - Fds(f) else old(open))
        && files == (if last && f.close then old(files) - {p} else
                     old(files)[p := f.(accessed := if f.close then f.accessed else now, fd := if last then INVALID else f.fd)])
    {
      hide QueueOk, Ordered, FilesOk, Owned, TreeOk;
      var f := files[p];
      if !f.close {
        InQueue(files, tree, queue, {}, p);
        Touch(p, now, loose);
        if f.rest.uses >= minUses || f.count > 0 {
          Settle(files, tree, held, p);
          return;
        }
      }
      if f.count > 0 {
        Settle(files, tree, held, p);
        assert files == files[p := f];
        return;
      }
      CloseEntry(p, loose);
      if !f.close {
        Settle(files, tree, held, p);
        return;
      }
      Free(p, loose);
      assert files == old(files) - {p};
    }

    /** `ngx_rbtree_delete` and the counter beside it. */
    method Unlist(p: nat, ghost loose: set<nat>)
      requires Inv({p}, {}, loose, {}) && p in files && Listed(files, tree, p)
      modifies this`tree, this`current
      ensures Inv({}, {p}, loose, {}) && !Listed(files, tree, p)
      ensures tree == old(tree) - {files[p].name}
    {
      hide QueueOk, Ordered, FilesOk, Owned, TreeOk;
      UnlistTree(files, tree, queue, p);
      UnlistFiles(files, tree, held, p);
      tree := tree - {files[p].name};
      current := current - 1;
    }

    /** Lines 1116-1128: the last entry of the queue is taken out of the cache. */
    method TakeLast(ghost loose: set<nat>) returns (p: nat)
      requires Inv({}, {}, loose, {}) && queue != []
      modifies this`tree, this`queue, this`current
      ensures p == old(queue)[|old(queue)| - 1] && p in files
      ensures Inv({}, {p}, loose, {}) && !Listed(files, tree, p)
      ensures queue == old(queue)[..|old(queue)| - 1] && tree == old(tree) - {files[p].name}
    {
      hide Ordered, FilesOk, Owned, TreeOk;
      var k := |queue| - 1;
      p := queue[k];
      assert p in files;
      TakeOut(files, tree, queue, k, clock);
      hide QueueOk;
      assert queue[..k] + queue[k + 1..] == queue[..k];
      queue := queue[..k];
      InQueue(files, tree, queue, {p}, p);
      Unlist(p, loose);
    }

    /** `file->close = 1` for an entry out of the tree. */
    method SetClose(p: nat, ghost loose: set<nat>)
      requires Inv({}, {p}, loose, {}) && p in files && !Listed(files, tree, p)
      modifies this`files
      ensures files == old(files)[p := old(files[p]).(close := true)]
      ensures Inv({}, {p}, loose, {}) && !Listed(files, tree, p)
    {
      hide QueueOk, Ordered, FilesOk, Owned, TreeOk;
      var f := files[p].(close := true);
      InUse(files, tree, held, open, p, loose);
      SetTree(files, tree, queue, {}, p, f);
      SetOrder(files, queue, clock, p, f);
      SetFiles(files, tree, held, {p}, {}, p, f);
      SetOwned(files, open, loose, {}, p, f);
      files := files[p := f];
    }

    /** Lines 1116-1140: the last entry of the queue leaves the cache. */
    method Evict(now: int, ghost loose: set<nat>)
      requires now == clock && Inv({}, {}, loose, {}) && queue != []
      modifies this`files, this`tree, this`queue, this`current, this`open
      ensures Inv({}, {}, loose, {}) && queue == old(queue)[..|old(queue)| - 1]
      ensures var p := old(queue)[|old(queue)| - 1];
        && p in old(files) && tree == old(tree) - {old(files)[p].name}
        && files == Dismissed(old(files), p)
        && open == (if old(files)[p].count == 0 then old(open) - Fds(old(files)[p]) else old(open))
    {
      hide Ordered, FilesOk, Owned, TreeOk, QueueOk;
      var p := TakeLast(loose);
      InUse(files, tree, held, open, p, loose);
      var f := files[p];
      if f.err == 0 && !f.info.isDir {
        SetClose(p, loose);
        CloseCachedFile(p, 0, now, loose);
        Twice(old(files), p, f.(close := true));
      } else {
        Free(p, loose);
        assert Fds(f) == {} && open - {} == open && files == Dismissed(old(files), p);
      }
    }

    /** The same in the middle of a clean-up. */
    method EvictNext(now: int, ghost loose: set<nat>,
                     ghost files0: map<nat, File>, ghost tree0: map<string, nat>, ghost queue0: seq<nat>, ghost open0: set<nat>)
      requires now == clock && Inv({}, {}, loose, {}) && queue != []
      requires Between(files0, tree0, queue0, open0, files, tree, queue, open, held)
      modifies this`files, this`tree, this`queue, this`current, this`open
      ensures Inv({}, {}, loose, {}) && queue == old(queue)[..|old(queue)| - 1]
      ensures Between(files0, tree0, queue0, open0, files, tree, queue, open, held)
    {
      hide Ordered, FilesOk, Owned, TreeOk, QueueOk, Between;
      QueueIn(files, tree, queue, {});
      ghost var p := queue[|queue| - 1];
      ghost var less := if files[p].count == 0 then open - Fds(files[p]) else open;
      BetweenStep(files0, tree0, queue0, open0, files, tree, queue, open, held, less);
      Evict(now, loose);
    }

    /** `ngx_expire_old_cached_files`. */
    method ExpireOld(n0: nat, now: int, ghost loose: set<nat>)
      requires now == clock && Inv({}, {}, loose, {}) && n0 <= 1
      modifies this`files, this`tree, this`queue, this`current, this`open
      ensures Inv({}, {}, loose, {})
      ensures Expired(old(files), old(queue), queue, n0, now, inactive)
      ensures Between(old(files), old(tree), old(queue), old(open), files, tree, queue, open, held)
    {
      hide Ordered, FilesOk, Owned, TreeOk, QueueOk, Between;
      var n := n0;
      assert Between(old(files), old(tree), old(queue), old(open), files, tree, queue, open, held) by {
        Unchanged(files, tree, queue, held, open);
      }
      while n < 3
        invariant Inv({}, {}, loose, {}) && n0 <= n <= 3
        invariant queue <= old(queue) && |old(queue)| - |queue| == n - n0 && AllLeave(old(files), old(queue), |queue|, n0, now, inactive)
        invariant Between(old(files), old(tree), old(queue), old(open), files, tree, queue, open, held)
      {
        if queue == [] {
          return;
        }
        var p := queue[|queue| - 1];
        BetweenLast(old(files), old(tree), old(queue), old(open), files, tree, queue, open, held);
        if n != 0 && now - files[p].accessed <= inactive {
          return;
        }
        n := n + 1;
        EvictNext(now, loose, old(files), old(tree), old(queue), old(open));
      }
    }

    /** `ngx_open_file_cleanup`: one use of an entry ends. */
    method Cleanup(p: nat, minUses: nat, now: int)
      requires Valid() && p in held && clock <= now
      modifies this
      ensures Valid() && clock == now && held == old(held) - multiset{p} && p in old(files)
      ensures Kept(old(files), files, held) && open <= old(open)
      ensures var f := old(files)[p];
        && queue <= (if f.close then old(queue) else [p] + Without(old(queue), p))
        && (f.count == 1 && (f.close || f.rest.uses < minUses) ==> f.fd !in open)
    {
      hide QueueOk, Ordered, FilesOk, Owned, TreeOk;
      ghost var files0 := files;
      CloseUse(p, minUses, now);
      hide Kept, Between, Expired;
      ghost var files1, tree1, queue1, open1 := files, tree, queue, open;
      ExpireOld(1, now, {});
      BetweenKept(files0, files1, tree1, queue1, open1, files, tree, queue, open, held);
    }

    /** The same before the clean-up of old entries. */
    method CloseUse(p: nat, minUses: nat, now: int)
      requires Valid() && p in held && clock <= now
      modifies this`files, this`queue, this`open, this`held, this`clock
      ensures Valid() && clock == now && held == old(held) - multiset{p} && p in old(files)
      ensures Kept(old(files), files, held) && open <= old(open)
      ensures var f := old(files)[p];
        && queue == (if f.close then old(queue) else [p] + Without(old(queue), p))
        && (f.count == 1 && (f.close || f.rest.uses < minUses) ==> f.fd !in open)
    {
      hide QueueOk, Ordered, FilesOk, Owned, TreeOk, Kept;
      ghost var files0 := files;
      Release(p, now);
      ghost var f := files[p];
      CloseCachedFile(p, minUses, now, {});
      CloseKept(files0, files, held, open, tree, p, f);
    }

    /** `c->file->count--`. */
    method Release(p: nat, now: int)
      requires Valid() && p in held && clock <= now
      modifies this`files, this`held, this`clock
      ensures Inv({}, {p}, {}, {}) && clock == now && held == old(held) - multiset{p}
      ensures p in old(files) && files == old(files)[p := old(files)[p].(count := old(files)[p].count - 1)]
      ensures files[p].err == 0 && !files[p].info.isDir && files[p].count == held[p] && files[p].fd >= 0 && files[p].fd in open
      ensures files[p].close <==> !Listed(files, tree, p)
    {
      hide QueueOk, Ordered, FilesOk, Owned, TreeOk;
      HeldOpen(files, tree, held, open, p);
      clock := now;
      Later(files, queue, old(clock), now);
      var f := files[p].(count := files[p].count - 1);
      GiveBack(files, tree, held, p, f);
      SetTree(files, tree, queue, {}, p, f);
      SetOrder(files, queue, clock, p, f);
      SetOwned(files, open, {}, {}, p, f);
      held := held - multiset{p};
      files := files[p := f];
    }

    /** Lines 213 and 215. */
    method Take(p: nat)
      requires Valid() && p in queue && p in files
      modifies this`files, this`queue
      ensures Inv({p}, {}, {}, {})
      ensures files == old(files)[p := Used(old(files)[p])] && queue == Without(old(queue), p)
    {
      hide QueueOk, Ordered, FilesOk, Owned, TreeOk;
      assert NoDup(queue) by { QueueNoDup(files, tree, queue, {}); }
      var i := Find(p);
      TakeOut(files, tree, queue, i, clock);
      queue := queue[..i] + queue[i + 1..];
      UseOk(files, tree, held, open, {}, {}, {}, p, files[p].accessed, Used(files[p]).rest);
      SetTree(files, tree, queue, {p}, p, Used(files[p]));
      SetOrder(files, queue, clock, p, Used(files[p]));
      files := files[p := Used(files[p])];
    }

    /** Lines 428-430: the entry is put at the head of the queue. */
    method PutFirst(p: nat, now: int)
      requires now == clock && Inv({p}, {}, {}, {}) && p in files
      modifies this`files, this`queue
      ensures Valid() && files == old(files)[p := old(files)[p].(accessed := now)] && queue == [p] + old(queue)
    {
      hide QueueOk, Ordered, FilesOk, Owned, TreeOk;
      PutIn(files, tree, queue, clock, p, now);
      UseOk(files, tree, held, open, {}, {}, {}, p, now, files[p].rest);
      files := files[p := files[p].(accessed := now)];
      queue := [p] + queue;
    }

    /** Lines 399-424: what the call has found is written into the entry. */
    method Update(p: nat, of: Of, now: int)
      requires now == clock && Inv({p}, {}, OfFds(of), {p}) && p in files && Listed(files, tree, p)
      requires if of.err == 0 && !of.info.isDir then of.fd >= 0 && files[p].count + 1 < COUNTS else of.fd == INVALID && files[p].count == 0
      modifies this`files, this`held
      ensures Inv({p}, {}, {}, {})
      ensures held == old(held) + (if of.err == 0 && !of.info.isDir then multiset{p} else multiset{})
      ensures p in files && files == old(files)[p := files[p]] && Written(files[p], old(files)[p], of, now)
    {
      hide QueueOk, Ordered, FilesOk, Owned, TreeOk;
      var f := Stored(files[p], of, now);
      ghost var more := if of.err == 0 && !of.info.isDir then multiset{p} else multiset{};
      RawCount(files, tree, held, p);
      UpdateFiles(files, tree, held, p, f, more);
      UpdateOwned(files, open, p, f);
      SetTree(files, tree, queue, {p}, p, f);
      SetOrder(files, queue, clock, p, f);
      held := held + more;
      files := files[p := f];
    }

    /** `ngx_open_and_stat_file`. */
    method OpenAndStat(of0: Of, w: World) returns (ok: bool, of: Of)
      requires of0.err == 0 && w.fd !in open
      modifies this`open
      ensures var got := Ask(of0.fd, of0.info.uniq, of0.want.testDir, w);
        ok == !got.Failed? && of == After(of0, got) && open == old(open) + (if got.Regular? then {w.fd} else {})
    {
      of := of0;
      if of.fd >= 0 {
        if w.stat.Error? {
          return false, of.(fd := INVALID, err := w.stat.err);
        }
        if of.info.uniq == w.stat.info.uniq {
          return true, of.(info := w.stat.info);
        }
      } else if of.want.testDir {
        if w.stat.Error? {
          return false, of.(fd := INVALID, err := w.stat.err);
        }
        if w.stat.info.isDir {
          return true, of.(fd := INVALID, info := w.stat.info);
        }
      }
      if !w.opens {
        return false, of.(fd := INVALID, err := w.openErr);
      }
      open := open + {w.fd};
      if w.fstat.None? {
        CloseFd(w.fd);
        return false, of.(fd := INVALID);
      }
      if w.fstat.value.isDir {
        CloseFd(w.fd);
        of := of.(fd := INVALID);
      } else {
        of := of.(fd := w.fd);
      }
      return true, of.(info := w.fstat.value);
    }

    /** Lines 399-449. */
    method Store(p: nat, of: Of, now: int) returns (ok: bool, clean: Option<nat>)
      requires now == clock && Inv({p}, {}, OfFds(of), {p}) && p in files && Listed(files, tree, p)
      requires if of.err == 0 && !of.info.isDir then of.fd >= 0 && files[p].count + 1 < COUNTS else of.fd == INVALID && files[p].count == 0
      modifies this`files, this`queue, this`held
      ensures Valid() && Handed(old(held), held, ok, of, clean) && ok == (of.err == 0) && (clean.Some? ==> clean.value == p)
      ensures queue == [p] + old(queue) && p in files && files == old(files)[p := files[p]]
      ensures Written(files[p].(accessed := old(files)[p].accessed), old(files)[p], of, now) && files[p].accessed == now
    {
      hide QueueOk, Ordered, FilesOk, Owned, TreeOk;
      Update(p, of, now);
      PutFirst(p, now);
      ok, clean := of.err == 0, if of.err == 0 && !of.info.isDir then Some(p) else None;
    }

    /** Lines 455-476, with an entry at hand: it leaves the cache. */
    method Fail(p: nat)
      requires Inv({p}, {}, {}, {}) && p in files && Listed(files, tree, p)
      modifies this`files, this`tree, this`current, this`open
      ensures Valid() && tree == old(tree) - {old(files)[p].name} && files == Dismissed(old(files), p)
      ensures open == (if old(files)[p].count == 0 then old(open) - Fds(old(files)[p]) else old(open))
    {
      hide QueueOk, Ordered, FilesOk, Owned, TreeOk;
      Unlist(p, {});
      InUse(files, tree, held, open, p, {});
      if files[p].count == 0 {
        CloseEntry(p, {});
        Free(p, {});
        assert files == Dismissed(old(files), p);
      } else {
        SetClose(p, {});
        Settle(files, tree, held, p);
      }
    }

    /** Lines 366-391: a new entry. */
    method NewEntry(name: string, p: nat, ghost loose: set<nat>)
      requires Inv({}, {}, loose, {}) && name !in tree && p !in files && current < max
      modifies this`files, this`tree, this`current
      ensures Inv({p}, {}, loose, {p}) && p in files && tree == old(tree)[name := p]
      ensures files == old(files)[p := files[p]] && files[p].name == name && files[p].count == 0
    {
      hide QueueOk, Ordered, FilesOk, Owned, TreeOk;
      var f: File := *;
      f := f.(name := name, count := 0, rest := f.rest.(uses := 1));
      NewTree(files, tree, p, f);
      NewCount(tree, name, p);
      NewQueue(files, tree, queue, p, f);
      NewFiles(files, tree, held, p, f);
      NewOwned(files, open, loose, p, f);
      NewOrder(files, tree, queue, clock, p, f);
      files := files[p := f];
      tree := tree[name := p];
      current := current + 1;
    }

    /** Lines 362-449: what was found gets a new entry; if there is no memory, it is closed. */
    method Create(name: string, of: Of, now: int, w: World) returns (ok: bool, clean: Option<nat>)
      requires now == clock && Inv({}, {}, OfFds(of), {}) && name !in tree && (w.memory.Some? ==> w.memory.value !in files)
      requires if of.err == 0 && !of.info.isDir then of.fd >= 0 else of.fd == INVALID
      modifies this`files, this`tree, this`queue, this`current, this`open, this`held
      ensures Valid() && Kept(old(files), files, old(held)) && Handed(old(held), held, ok, of, clean)
      ensures ok == (of.err == 0 && w.memory.Some?) && (ok ==> Shown(files, tree, queue, name, of, clean, now))
    {
      hide QueueOk, Ordered, FilesOk, Owned, TreeOk, Kept, Written, Shown;
      KeptRefl(files, tree, held);
      if current >= max {
        MakeRoom(name, now, OfFds(of));
      }
      if w.memory.None? {
        CloseLoose(of);
        return false, None;
      }
      ok, clean := Enter(name, w.memory.value, of, now, old(files));
    }

    /** Lines 478-483. */
    method CloseLoose(of: Of)
      requires Inv({}, {}, OfFds(of), {}) && (of.fd < 0 ==> of.fd == INVALID)
      modifies this`open
      ensures Valid() && open == old(open) - OfFds(of)
    {
      hide QueueOk, Ordered, FilesOk, Owned, TreeOk;
      if of.fd != INVALID {
        LooseClosed(files, open, of.fd);
        CloseFd(of.fd);
      }
    }

    /** Lines 366-449. */
    method Enter(name: string, p: nat, of: Of, now: int, ghost files0: map<nat, File>) returns (ok: bool, clean: Option<nat>)
      requires now == clock && Inv({}, {}, OfFds(of), {}) && name !in tree && p !in files && current < max
      requires if of.err == 0 && !of.info.isDir then of.fd >= 0 else of.fd == INVALID
      requires Kept(files0, files, held)
      modifies this`files, this`tree, this`queue, this`current, this`held
      ensures Valid() && Kept(files0, files, old(held)) && Handed(old(held), held, ok, of, clean)
      ensures ok == (of.err == 0) && (ok ==> Shown(files, tree, queue, name, of, clean, now))
    {
      hide QueueOk, Ordered, FilesOk, Owned, TreeOk, Kept;
      ghost var files1, tree1, held1 := files, tree, held;
      NewEntry(name, p, OfFds(of));
      ghost var raw := files[p];
      ok, clean := Store(p, of, now);
      assert files == files1[p := files[p]];
      KeptNew(files0, files1, tree1, held1, p, files[p]);
    }

    /** Lines 362-364. */
    method MakeRoom(name: string, now: int, ghost loose: set<nat>)
      requires now == clock && Inv({}, {}, loose, {}) && current >= max && name !in tree
      modifies this`files, this`tree, this`queue, this`current, this`open
      ensures Inv({}, {}, loose, {}) && current < max && name !in tree && Kept(old(files), files, held) && files.Keys <= old(files).Keys
    {
      CurrentIsQueue(files, tree, queue);
      ghost var q := queue;
      ExpireOld(0, now, loose);
      CurrentIsQueue(files, tree, queue);
      assert queue == q ==> Leaves(old(files), q, |queue| - 1, 0, now, inactive);
    }

    /** Lines 393-449, `add_event` and `update`: the entry takes what was found. Its own
        descriptor was closed, or there is none, or it is the one that was found. */
    method Restore(p: nat, of: Of, now: int) returns (ok: bool, clean: Option<nat>)
      requires now == clock && Inv({p}, {}, OfFds(of), {p}) && p in files && Listed(files, tree, p) && files[p].count + 1 < COUNTS
      requires if of.err == 0 && !of.info.isDir then of.fd >= 0 else of.fd == INVALID && files[p].count == 0
      requires files[p].count > 0 ==> files[p].fd == of.fd
      modifies this`files, this`queue, this`held
      ensures Valid() && Kept(old(files), files, old(held)) && Handed(old(held), held, ok, of, clean)
      ensures ok == (of.err == 0) && (ok ==> Shown(files, tree, queue, old(files)[p].name, of, clean, now))
    {
      hide QueueOk, Ordered, FilesOk, Owned, TreeOk;
      ghost var files0, tree0, held0 := files, tree, held;
      ok, clean := Store(p, of, now);
      KeptStore(files0, tree0, held0, p, files[p]);
    }

    /** Lines 295-349: the entry was tested again, and `of` says what was found. */
    method Replace(p: nat, of: Of, now: int, w: World, ghost loose: set<nat>) returns (ok: bool, clean: Option<nat>)
      requires now == clock && Inv({p}, {}, loose, {}) && p in files && Listed(files, tree, p) && !Dropped(files[p])
      requires files[p].count + 1 < COUNTS && (w.memory.Some? ==> w.memory.value !in files)
      requires if of.err == 0 && !of.info.isDir then of.fd >= 0 else of.fd == INVALID
      requires loose == if of.fd >= 0 && of.info.uniq == files[p].info.uniq && files[p].fd >= 0 then {} else OfFds(of)
      requires loose != OfFds(of) ==> of.fd == files[p].fd
      modifies this`files, this`tree, this`queue, this`current, this`open, this`held
      ensures Valid() && Kept(old(files), files, old(held)) && Handed(old(held), held, ok, of, clean)
      ensures ok ==> of.err == 0 && Shown(files, tree, queue, old(files)[p].name, of, clean, now)
      ensures ok || of.err != 0 || w.memory.None?
    {
      hide QueueOk, Ordered, FilesOk, Owned, TreeOk, Kept, Shown;
      var f := files[p];
      LimboFiles(files, tree, held, p);
      InUse(files, tree, held, open, p, loose);
      RawFiles(files, tree, held, p);
      RawOwned(files, open, loose, p);
      if f.info.isDir || f.err != 0 || (!of.info.isDir && of.err == 0 && of.info.uniq == f.info.uniq) {
        assert f.fd < 0 ==> Fds(f) == {} && open - {} == open;
        assert f.fd >= 0 ==> Fds(f) == OfFds(of) == {} + Fds(f);
        ok, clean := Restore(p, of, now);
      } else if f.count == 0 {
        CloseFd(f.fd);
        ok, clean := Restore(p, of, now);
      } else {
        ok, clean := Supersede(p, of, now, w);
      }
    }

    /** Lines 343-349 and 360-449: an entry in use stays behind, and its name gets a new one. */
    method Supersede(p: nat, of: Of, now: int, w: World) returns (ok: bool, clean: Option<nat>)
      requires now == clock && Inv({p}, {}, OfFds(of), {}) && p in files && Listed(files, tree, p) && files[p].count > 0
      requires w.memory.Some? ==> w.memory.value !in files
      requires if of.err == 0 && !of.info.isDir then of.fd >= 0 else of.fd == INVALID
      modifies this`files, this`tree, this`queue, this`current, this`open, this`held
      ensures Valid() && Kept(old(files), files, old(held)) && Handed(old(held), held, ok, of, clean)
      ensures ok == (of.err == 0 && w.memory.Some?)
      ensures ok ==> Shown(files, tree, queue, old(files)[p].name, of, clean, now)
    {
      hide QueueOk, Ordered, FilesOk, Owned, TreeOk, Kept, Shown;
      var f := files[p];
      ghost var files0 := files;
      Unlist(p, OfFds(of));
      SetClose(p, OfFds(of));
      Settle(files, tree, held, p);
      ghost var files1, held1 := files, held;
      ok, clean := Create(f.name, of, now, w);
      KeptSet(files0, p, files1[p], files, held1);
    }

    /** `ngx_open_and_stat_file` with its new descriptor in the hands of the call. */
    method AskSystem(of0: Of, w: World, ghost out: set<nat>) returns (ok: bool, of: Of, ghost loose: set<nat>)
      requires of0.err == 0 && Sound(w, files, open) && Inv(out, {}, {}, {})
      modifies this`open
      ensures Inv(out, {}, loose, {})
      ensures var got := Ask(of0.fd, of0.info.uniq, of0.want.testDir, w);
        ok == !got.Failed? && of == After(of0, got) && loose == (if got.Regular? then {w.fd} else {})
    {
      hide QueueOk, Ordered, FilesOk, Owned, TreeOk;
      OpenOwned(files, open, w.fd);
      ghost var open0 := open;
      ok, of := OpenAndStat(of0, w);
      loose := if Ask(of0.fd, of0.info.uniq, of0.want.testDir, w).Regular? then {w.fd} else {};
      assert loose == {} ==> open == open0;
    }

    /** Lines 217-228: the entry was not used often enough to keep its file open. */
    method Reopen(p: nat, of0: Of, now: int, w: World) returns (ok: bool, of: Of, clean: Option<nat>)
      requires now == clock && Inv({p}, {}, {}, {}) && p in files && Listed(files, tree, p) && Dropped(files[p])
      requires Sound(w, files, open) && of0.fd == INVALID && of0.err == 0
      modifies this`files, this`tree, this`queue, this`current, this`open, this`held
      ensures Valid() && Kept(old(files), files, old(held)) && Handed(old(held), held, ok, of, clean)
      ensures Told(Question(old(files)[p], of0, w), w, ok, of)
      ensures ok ==> Shown(files, tree, queue, old(files)[p].name, of, clean, now)
    {
      hide QueueOk, Ordered, FilesOk, Owned, TreeOk, Kept, Shown;
      LimboFiles(files, tree, held, p);
      InUse(files, tree, held, open, p, {});
      ghost var loose;
      ok, of, loose := AskSystem(of0, w, {p});
      if !ok && (of.err == 0 || !of.want.errors) {
        clean := None;
        GiveUp(p);
        return;
      }
      RawFiles(files, tree, held, p);
      RawOwned(files, open, loose, p);
      assert Fds(files[p]) == {} && open - {} == open && loose == OfFds(of);
      ok, clean := Restore(p, of, now);
    }

    /** `failed` when nothing is open. */
    method GiveUp(p: nat)
      requires Inv({p}, {}, {}, {}) && p in files && Listed(files, tree, p)
      modifies this`files, this`tree, this`current, this`open
      ensures Valid() && Kept(old(files), files, held) && old(files)[p].name !in tree
    {
      hide QueueOk, Ordered, FilesOk, Owned, TreeOk, Kept;
      KeptRefl(files, tree, held);
      EvictKept(files, files, tree, held, p);
      Fail(p);
    }

    /** Lines 275-349: the entry is too old, and the file is tested again. */
    method Retest(p: nat, of0: Of, now: int, w: World) returns (ok: bool, of: Of, clean: Option<nat>)
      requires now == clock && Inv({p}, {}, {}, {}) && p in files && Listed(files, tree, p) && !Dropped(files[p])
      requires Sound(w, files, open) && SoundFor(w, files[p]) && of0.fd == INVALID && of0.err == 0 && files[p].count + 1 < COUNTS
      modifies this`files, this`tree, this`queue, this`current, this`open, this`held
      ensures Valid() && Kept(old(files), files, old(held)) && Handed(old(held), held, ok, of, clean)
      ensures Told(Question(old(files)[p], of0, w), w, ok, of)
      ensures ok ==> Shown(files, tree, queue, old(files)[p].name, of, clean, now)
    {
      hide QueueOk, Ordered, FilesOk, Owned, TreeOk, Kept, Shown;
      var f := files[p];
      of := of0.(fd := f.fd, info := of0.info.(uniq := f.info.uniq));
      if f.info.isDir {
        of := of.(want := of.want.(testDir := true));
      }
      LimboFiles(files, tree, held, p);
      InUse(files, tree, held, open, p, {});
      ghost var loose;
      ok, of, loose := AskSystem(of, w, {p});
      if !ok && (of.err == 0 || !of.want.errors) {
        clean := None;
        GiveUp(p);
        return;
      }
      ok, clean := Replace(p, of, now, w, loose);
    }

    /** The same lines, when the file is now a directory with its number: the old descriptor is kept
        for the directory, but closed at line 335, or used by two entries, or closed at line 479. */
    method RetestClash(p: nat, of0: Of, now: int, w: World) returns (ok: bool, of: Of, clean: Option<nat>)
      requires now == clock && Inv({p}, {}, {}, {}) && p in files && Listed(files, tree, p) && !Dropped(files[p])
      requires Sound(w, files, open) && !SoundFor(w, files[p]) && of0.fd == INVALID && of0.err == 0
      modifies this`files, this`tree, this`queue, this`current, this`open, this`held
      ensures Torn(old(files)[p], p, files, tree, open, old(files)[p].name, ok, of, w) && !Valid()
      ensures held == old(held) && clean.None?
    {
      hide QueueOk, Ordered, FilesOk, Owned, TreeOk, Kept;
      var f := files[p];
      of := of0.(fd := f.fd, info := of0.info.(uniq := f.info.uniq));
      LimboFiles(files, tree, held, p);
      InUse(files, tree, held, open, p, {});
      ghost var loose;
      ok, of, loose := AskSystem(of, w, {p});
      clean := None;
      InUse(files, tree, held, open, p, loose);
      if f.count == 0 {
        CloseFd(f.fd);
        files := files[p := Stored(f, of, now).(accessed := now)];
        queue := [p] + queue;
      } else {
        Unlist(p, {});
        SetClose(p, {});
        assert Placed(files[p], false);
        Settle(files, tree, held, p);
        ok := CreateShared(f.name, p, of, now, w);
      }
      TornInvalid(f, p, files, tree, open, f.name, ok, of, w);
    }

    /** Lines 360-485 with the descriptor of the entry `p`, which is in use. */
    method CreateShared(name: string, ghost p: nat, of: Of, now: int, w: World) returns (ok: bool)
      requires now == clock && Valid() && name !in tree && (w.memory.Some? ==> w.memory.value !in files)
      requires p in files && files[p].count > 0 && of.fd == files[p].fd && of.err == 0 && of.info.isDir
      modifies this`files, this`tree, this`queue, this`current, this`open
      ensures p in files && files[p].fd == of.fd && ok == w.memory.Some?
      ensures ok ==> name in tree && tree[name] in files && tree[name] != p && files[tree[name]].fd == of.fd && files[tree[name]].info == of.info
      ensures !ok ==> of.fd !in open
    {
      hide QueueOk, Ordered, FilesOk, Owned, TreeOk;
      assert p in held by { InPlace(files, tree, held, p); }
      if current >= max {
        MakeRoom(name, now, {});
      }
      assert p in files && files[p].fd == of.fd;
      if w.memory.None? {
        HeldOpen(files, tree, held, open, p);
        CloseFd(of.fd);
        return false;
      }
      NewEntry(name, w.memory.value, {});
      files := files[w.memory.value := Stored(files[w.memory.value], of, now).(accessed := now)];
      queue := [w.memory.value] + queue;
      return true;
    }

    /** Lines 230-268: the entry answers. */
    method Answer(p: nat, of0: Of, now: int) returns (ok: bool, of: Of, clean: Option<nat>)
      requires now == clock && Inv({p}, {}, {}, {}) && p in files && Listed(files, tree, p) && !Dropped(files[p])
      requires of0.fd == INVALID && of0.err == 0 && files[p].count + 1 < COUNTS
      modifies this`files, this`queue, this`held
      ensures Valid() && Kept(old(files), files, old(held)) && Handed(old(held), held, ok, of, clean)
      ensures FromCache(old(files)[p], ok, of)
      ensures ok ==> Shown(files, tree, queue, old(files)[p].name, of, clean, now)
    {
      hide QueueOk, Ordered, FilesOk, Owned, TreeOk;
      of := of0;
      var f := files[p];
      ghost var files0, held0 := files, held;
      LimboFiles(files, tree, held, p);
      InUse(files, tree, held, open, p, {});
      if f.err == 0 {
        of := of.(fd := f.fd, info := f.info);
        if !f.info.isDir {
          Count(p);
        }
      } else {
        of := of.(err := f.err);
      }
      PutFirst(p, now);
      KeptRefl(files, tree, held);
      KeptLess(files0, p, files[p], files, held0, held);
      ok, clean := of.err == 0, if of.err == 0 && !of.info.isDir then Some(p) else None;
    }

    /** `file->count++` for an open entry. */
    method Count(p: nat)
      requires Inv({p}, {}, {}, {}) && p in files && files[p].fd >= 0 && files[p].count + 1 < COUNTS
      modifies this`files, this`held
      ensures Inv({p}, {}, {}, {}) && held == old(held) + multiset{p}
      ensures files == old(files)[p := old(files)[p].(count := old(files)[p].count + 1)]
    {
      hide QueueOk, Ordered, FilesOk, Owned, TreeOk;
      var f := files[p].(count := (files[p].count + 1) % COUNTS);
      LimboFiles(files, tree, held, p);
      InUse(files, tree, held, open, p, {});
      InPlace(files, tree, held, p);
      RawFiles(files, tree, held, p);
      UpdateFiles(files, tree, held, p, f, multiset{p});
      SetOwned(files, open, {}, {}, p, f);
      SetTree(files, tree, queue, {p}, p, f);
      SetOrder(files, queue, clock, p, f);
      held := held + multiset{p};
      files := files[p := f];
    }

    /** Lines 211-350: the name is in the cache. */
    method Reuse(name: string, of0: Of, now: int, w: World) returns (ok: bool, of: Of, clean: Option<nat>)
      requires Valid() && now == clock && Sound(w, files, open) && of0.fd == INVALID && of0.err == 0
      requires name in tree && tree[name] in files && Listed(files, tree, tree[name]) && files[tree[name]].name == name
      requires files[tree[name]].count + 1 < COUNTS
      modifies this`files, this`tree, this`queue, this`current, this`open, this`held
      ensures var p := old(tree)[name]; var f := old(files)[p];
        if Clash(f, of0, now, w) then Torn(f, p, files, tree, open, name, ok, of, w) && !Valid()
        else Valid() && Kept(old(files), files, old(held)) && (ok ==> Shown(files, tree, queue, name, of, clean, now))
      ensures Handed(old(held), held, ok, of, clean)
      ensures var f := old(files)[old(tree)[name]];
        if Hit(f, of0, now) then FromCache(f, ok, of) && open == old(open)
        else !Clash(f, of0, now, w) ==> Told(Question(f, of0, w), w, ok, of)
    {
      hide QueueOk, Ordered, FilesOk, Owned, Kept, Shown, TreeOk;
      var p := tree[name];
      InQueue(files, tree, queue, {}, p);
      ghost var files0 := files;
      Take(p);
      ghost var f := files[p];
      if Dropped(files[p]) {
        ok, of, clean := Reopen(p, of0, now, w);
      } else if Hit(files[p], of0, now) {
        ok, of, clean := Answer(p, of0, now);
      } else if SoundFor(w, files[p]) {
        ok, of, clean := Retest(p, of0, now, w);
      } else {
        ok, of, clean := RetestClash(p, of0, now, w);
        return;
      }
      KeptSet(files0, p, f, files, old(held));
    }

    /** Lines 352-449: the name is not in the cache. */
    method OpenNew(name: string, of0: Of, now: int, w: World) returns (ok: bool, of: Of, clean: Option<nat>)
      requires Valid() && now == clock && Sound(w, files, open) && name !in tree && of0.fd == INVALID && of0.err == 0
      modifies this`files, this`tree, this`queue, this`current, this`open, this`held
      ensures Valid() && Kept(old(files), files, old(held)) && Handed(old(held), held, ok, of, clean)
      ensures Told(Ask(INVALID, of0.info.uniq, of0.want.testDir, w), w, ok, of)
      ensures ok ==> Shown(files, tree, queue, name, of, clean, now)
    {
      hide QueueOk, Ordered, FilesOk, Owned, TreeOk, Kept, Shown;
      clean := None;
      KeptRefl(files, tree, held);
      ghost var loose;
      ok, of, loose := AskSystem(of0, w, {});
      if !ok && (of.err == 0 || !of.want.errors) {
        return;
      }
      assert loose == OfFds(of);
      ok, clean := Create(name, of, now, w);
    }

    /** `ngx_open_cached_file`: what the caller is told is what its entry says if that is young
        enough, and what the system says otherwise. No entry in use loses its descriptor. All this
        holds when and only when the entry does not clash with a directory. */
    method OpenCachedFile(name: string, of0: Of, now: int, w: World) returns (ok: bool, of: Of, clean: Option<nat>)
      requires Valid() && clock <= now && Sound(w, files, open)
      requires name in tree && tree[name] in files ==> files[tree[name]].count + 1 < COUNTS
      modifies this
      ensures Valid() <==> !old(Clashes(files, tree, name, of0, now, w))
      ensures clock == now && Handed(old(held), held, ok, of, clean)
      ensures Valid() ==> Kept(old(files), files, old(held)) && (ok ==> Shown(files, tree, queue, name, of, clean, now))
      ensures name !in old(tree) ==> Told(Ask(INVALID, of0.info.uniq, of0.want.testDir, w), w, ok, of)
      ensures name in old(tree) ==>
        (var p := old(tree)[name];
        && p in old(files)
        && if Hit(old(files)[p], of0, now) then FromCache(old(files)[p], ok, of) && open == old(open)
           else if Valid() then Told(Question(old(files)[p], of0, w), w, ok, of)
           else Torn(old(files)[p], p, files, tree, open, name, ok, of, w))
    {
      hide QueueOk, Ordered, FilesOk, Owned, Kept, Shown, Torn, Told, FromCache, Handed;
      clock := now;
      Later(files, queue, old(clock), now);
      of := of0.(fd := INVALID, err := 0);
      if name in tree {
        ok, of, clean := Reuse(name, of, now, w);
        return;
      }
      ok, of, clean := OpenNew(name, of, now, w);
    }

    /** Lines 119-120: an entry out of the tree is to be closed, whoever uses it. */
    method Disuse(p: nat)
      requires Inv({}, {p}, {}, {}) && p in files && !Listed(files, tree, p)
      modifies this`files, this`held
      ensures Inv({}, {p}, {}, {}) && held == old(held)[p := 0]
      ensures files == old(files)[p := old(files[p]).(close := true, count := 0)] && !Listed(files, tree, p)
    {
      hide QueueOk, Ordered, FilesOk, Owned, TreeOk;
      var f := files[p].(close := true, count := 0);
      InUse(files, tree, held, open, p, {});
      DropUses(files, tree, held, p, f);
      SetTree(files, tree, queue, {}, p, f);
      SetOrder(files, queue, clock, p, f);
      SetOwned(files, open, {}, {}, p, f);
      held := held[p := 0];
      files := files[p := f];
    }

    /** Lines 105-126: the last entry of the queue is closed and freed. */
    method Discard(now: int)
      requires now == clock && Valid() && queue != []
      modifies this`files, this`tree, this`queue, this`current, this`open, this`held
      ensures Valid() && queue == old(queue)[..|old(queue)| - 1]
      ensures var p := old(queue)[|old(queue)| - 1]; files == old(files) - {p} && held == old(held)[p := 0]
    {
      hide QueueOk, Ordered, FilesOk, Owned, TreeOk;
      var p := TakeLast({});
      InUse(files, tree, held, open, p, {});
      if files[p].err == 0 && !files[p].info.isDir {
        Disuse(p);
        CloseCachedFile(p, 0, now, {});
        assert files == old(files) - {p};
      } else {
        assert held == held[p := 0];
        Free(p, {});
      }
    }

    /** `ngx_open_file_cache_cleanup`: what is in the cache is closed and freed, even if it is in use;
        what had left it before stays open for its cleanups. */
    method CleanupCache(now: int)
      requires Valid() && clock <= now
      modifies this
      ensures Valid() && tree == map[] && queue == [] && current == 0
      ensures forall p :: p in files <==> p in old(files) && !Listed(old(files), old(tree), p)
      ensures forall p :: p in files ==> files[p] == old(files)[p] && held[p] == old(held)[p]
      ensures forall d: nat :: d in open <==> exists p :: Owns(files, p, d)
      ensures old(held) == multiset{} ==> files == map[] && open == {}
      ensures (forall p :: p in old(held) ==> p in files) <==> (forall p :: p in old(files) && Listed(old(files), old(tree), p) ==> old(files)[p].count == 0)
    {
      hide QueueOk, Ordered, FilesOk, Owned, TreeOk;
      ghost var files0, tree0, queue0, held0 := files, tree, queue, held;
      assert QueueOk(files, tree, queue, {}) && FilesOk(files, tree, held, {}, {});
      clock := now;
      Later(files, queue, old(clock), now);
      NothingGone(files, queue, held);
      hide Remain;
      while queue != []
        invariant Valid() && clock == now && queue <= queue0
        invariant Remain(files0, queue0[|queue|..], held0, files, held)
        decreases |queue|
      {
        OneGone(files0, queue0, held0, files, held, |queue| - 1);
        Discard(now);
      }
      assert queue0[0..] == queue0;
      LeftOver(files0, tree0, queue0, held0, files, held);
      HeldCounts(files0, tree0, held0);
      NoneListed(files, tree);
      OpenAre(files, open);
      hide Listed, Owns;
      if held0 == multiset{} {
        NoneHeld(files, tree, held);
        NothingLeft(files, tree, held, open, queue);
      }
    }
  }
}
