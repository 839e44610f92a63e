# The core library of nginx 1.6.2 in Dafny

This project models the hand-written data structures, allocators, locks, parsers and encoders of
nginx's core library, and proves that each agrees, across its loops, in-place changes and
functions, with a simple abstract object: a sorted sequence, a map, a byte stream, a set of live
regions. `dafny verify dfyconfig.toml` checks all of it.

The form follows the source. What changes in place is a class or an array with loops and
invariants; protocols between processes are state machines whose steps are the single accesses to
shared memory; code that only computes is functions.

| component | files |
|---|---|
| red-black tree with parent pointers and a shared sentinel | RbShape, RbOrder, RbTree |
| slab allocator | Bits, SlabState, SlabOps, SlabLive, Slab |
| shared-memory mutex, accept mutex | Shmtx, AcceptMutex |
| output chain | ChainFlow, OutputChain |
| packed hash, wildcard index | HashTable, Wildcard, WildcardHash |
| tokenizer of configuration files | ConfToken |
| cache of open files | OpenFileCache |
| radix tree | Radix |
| pools and arrays | Palloc |
| IPv6 text, dates, CRC-32, base64, URIs, MD5 | Inet, GmTime, Crc32, Base64, Uri, Md5 |
| shared by several | Alignment, Octets, Options |

What the model takes as given: addresses, sizes and words are numbers, with the width of the source
written out where it can be exceeded; memory and descriptors that the system hands out are new;
`stat` and `open` in one call see the same file; input buffers do not carry the tag of the output chain; slab pages have 4096 bytes and
words 64 bits; pool sizes are multiples of `NGX_ALIGNMENT`; the clock of the open-file cache does
not go back. Pointers into a store (radix nodes, cache entries, chain buffers, slab pages) are
indices or keys of it; the nodes of the red-black tree are objects. All memory is of one process
for a class; the two lock models have any number of processes.

## Model

| member | source | states |
|---|---|---|
| RbTrees.RbTree.Insert | nginx-1.6.2/src/core/ngx_rbtree.c:24-94 | the new node, and nothing else, joins the in-order sequence of the linked tree; if that was sorted it goes just after all nodes it does not go to the left of, and the links again spell a tree with a black root, no red node with a red child and equal black heights |
| RbTrees.RbTree.Delete | nginx-1.6.2/src/core/ngx_rbtree.c:157-322 | exactly the given node leaves the in-order sequence; order, colours, black heights and all parent links below the root hold again, though the parent of the shared sentinel is overwritten on the way |
| RbTrees.RbTree.InsertValue | nginx-1.6.2/src/core/ngx_rbtree.c:97-154 | the descent ends at an empty place whose position in the sorted sequence is right for the node, for each of the comparison callbacks |
| RbTrees.RbTree.Rebalance | nginx-1.6.2/src/core/ngx_rbtree.c:47-93 | re-colouring and rotating upwards from a red leaf ends in a valid tree with the same in-order sequence |
| RbTrees.RbTree.RotateLeft | nginx-1.6.2/src/core/ngx_rbtree.c:325-352 | relinking four pointers turns the subtree in focus into its left rotation and leaves the rest of the tree |
| RbTrees.RbTree.RotateRight | nginx-1.6.2/src/core/ngx_rbtree.c:355-382 | the same for the right rotation |
| RbTrees.RbTree.Repair | nginx-1.6.2/src/core/ngx_rbtree.c:253-321 | a subtree whose black height is one short is made up for by the loop of the deletion, from either side, up to a valid tree |
| RbTrees.RbTree.MendLeft | nginx-1.6.2/src/core/ngx_rbtree.c:261-288 | one round with the hole as a left child: done, or the hole is one level higher, with the same sequence |
| RbTrees.RbTree.MendRight | nginx-1.6.2/src/core/ngx_rbtree.c:290-317 | the mirror image of that round |
| RbTrees.RbTree.DeleteRoot | nginx-1.6.2/src/core/ngx_rbtree.c:187-198 | a root with at most one child is replaced by it and the tree is valid, although the parent of the new root is left as it was |
| RbTrees.RbTree.DetachInner | nginx-1.6.2/src/core/ngx_rbtree.c:200-251 | a node with two children is replaced, links and colour, by the leftmost node of its right subtree |
| RbTrees.RbTree.Min | nginx-1.6.2/src/core/ngx_rbtree.h:78-87 | the loop ends at the leftmost node of a subtree, the successor of the node above it |
| RbTrees.RbTree.ValidHeight | nginx-1.6.2/src/core/ngx_rbtree.c:24-322 | every tree that insertions and deletions leave is at most 2 log2(n + 1) high |
| RbTrees.RbTree.LookupString | nginx-1.6.2/src/core/ngx_string.c:1815-1856 | the composite key (hash, length, bytes) is found if and only if a node has it |
| RbTrees.RbTree.LookupFile | nginx-1.6.2/src/core/ngx_open_file_cache.c:1186-1223 | the composite key (hash, name) is found if and only if a node has it |
| RbOrder.TimerOrder | nginx-1.6.2/src/core/ngx_rbtree.c:122-154 | within half the range of the clock the signed difference of two timers orders them by their distance from the start of the range |
| RbOrder.TimerOrderIff | nginx-1.6.2/src/core/ngx_rbtree.c:132-142 | the timer comparison is an order of a set of expiry times if and only if they lie within half the range of the clock |
| RbOrder.TimerCircle | nginx-1.6.2/src/core/ngx_rbtree.c:132-142 | three expiry times a third of the range apart each come before the next |
| RbOrder.NotLeftTrans | nginx-1.6.2/src/core/ngx_rbtree.c:97-154 | for all four callbacks "does not go to the left of" is transitive, so one descent places an item |
| RbOrder.InsertKeepsSorted | nginx-1.6.2/src/core/ngx_rbtree.c:97-119 | putting an item at its place keeps a sequence sorted |
| Slab.LayoutFits | nginx-1.6.2/src/core/ngx_slab.c:72-135 | slot heads, descriptors and pages follow one another without overlap up to the end of the pool, the pages aligned, and at most two pages are lost to alignment |
| Slab.SlabPool.constructor | nginx-1.6.2/src/core/ngx_slab.c:72-135 | the new pool satisfies the invariant with one free run of all its pages |
| Slab.SlabPool.AllocPages | nginx-1.6.2/src/core/ngx_slab.c:619-668 | the first run of the free list that is long enough is shortened by the pages handed out; nothing is returned only when no run is long enough |
| Slab.SlabPool.AllocLocked | nginx-1.6.2/src/core/ngx_slab.c:153-396 | a request fails if and only if no slot page of its size has a free chunk and no free run is long enough; otherwise exactly one region, at least as long as asked for, becomes live |
| Slab.SlabPool.TakeSmall | nginx-1.6.2/src/core/ngx_slab.c:200-248 | a clear bit of the bitmap kept in the page is found in the first page of the slot list and set; a page that fills up leaves the list |
| Slab.SlabPool.TakeExact | nginx-1.6.2/src/core/ngx_slab.c:250-282 | the same with the bitmap in the descriptor word |
| Slab.SlabPool.TakeBig | nginx-1.6.2/src/core/ngx_slab.c:284-324 | the same with the bitmap in the upper half of the word |
| Slab.SlabPool.OpenPage | nginx-1.6.2/src/core/ngx_slab.c:330-389 | a free page is cut into chunks, those of its own bitmap taken and one handed out |
| Slab.SlabPool.FreeLocked | nginx-1.6.2/src/core/ngx_slab.c:410-616 | freeing a live region makes exactly that region not live, whatever the kind of its page |
| Slab.SlabPool.FreeSmall | nginx-1.6.2/src/core/ngx_slab.c:439-486 | the chunk is given back; a full page joins its slot list again, an empty one becomes a free run |
| Slab.SlabPool.FreeExact | nginx-1.6.2/src/core/ngx_slab.c:488-521 | the same for the bitmap in the descriptor word |
| Slab.SlabPool.FreeBig | nginx-1.6.2/src/core/ngx_slab.c:523-560 | the same for the bitmap in the upper half of the word |
| Slab.FindShift | nginx-1.6.2/src/core/ngx_slab.c:176-192 | the smallest chunk size that holds the request |
| Slab.SlabPool.FreePages | nginx-1.6.2/src/core/ngx_slab.c:671-695 | a run of pages is cleared and put at the front of the free list, as one run that is not merged with others |
| Slab.SlotPage | nginx-1.6.2/src/core/ngx_slab.c:193-196 | the first page of a slot list, if there is one, always has a free chunk |
| Slab.SlabPool.Regions | nginx-1.6.2/src/core/ngx_slab.c:153-396 | all live regions of a pool are inside it, aligned to their size (at most a page), behind the bitmap of their page and pairwise disjoint |
| Slab.SlabPool.AllPages | nginx-1.6.2/src/core/ngx_slab.c:619-695 | the lengths of free runs, allocations and slot pages always add up to the number of pages |
| Slab.SlabPool.AllocAndFree | nginx-1.6.2/src/core/ngx_slab.c:153-616 | an allocation that is freed again leaves the set of live regions as it was |
| SlabLive.LiveInside | nginx-1.6.2/src/core/ngx_slab.c:153-396 | for every arrangement of pages the invariant allows, live regions are inside and aligned |
| SlabLive.LiveDisjoint | nginx-1.6.2/src/core/ngx_slab.c:153-396 | for every such arrangement, live regions do not overlap |
| SlabLive.PagesConserved | nginx-1.6.2/src/core/ngx_slab.c:619-695 | for every such arrangement, each page is in exactly one run |
| SlabState.TakeInv | nginx-1.6.2/src/core/ngx_slab.c:619-668 | taking pages from a run keeps the invariant: rings of links, page kinds and bitmaps |
| SlabOps.MarkFullInv | nginx-1.6.2/src/core/ngx_slab.c:222-240 | setting the last clear bit and unlinking the page keeps the invariant that full pages are off-list with a null link |
| SlabOps.UnmarkFullInv | nginx-1.6.2/src/core/ngx_slab.c:447-461 | clearing a bit of a full page and linking it again keeps the invariant |
| SlabOps.OpenInv | nginx-1.6.2/src/core/ngx_slab.c:330-389 | cutting a free page into chunks keeps the invariant |
| Shmtx.MutualExclusion | nginx-1.6.2/src/core/ngx_shmtx.c:62-160 | for any number of processes and any interleaving at most one is between lock and unlock, and the lock word is its pid |
| Shmtx.OnlyOwnerReleases | nginx-1.6.2/src/core/ngx_shmtx.c:135-160 | while the owner lives only its own unlock clears the lock word |
| Shmtx.NoLostWakeup | nginx-1.6.2/src/core/ngx_shmtx.c:69-195 | in every run whose deaths are safe, wait + semaphore + posts in flight covers all processes committed to sleeping, and a free lock with a sleeper has a post, a waker or a contender |
| Shmtx.QuietMeansAwake | nginx-1.6.2/src/core/ngx_shmtx.c:69-195 | when all are outside, asleep or dead, the lock free and no post pending, nobody is asleep |
| Shmtx.DeathIsSafe | nginx-1.6.2/src/core/ngx_shmtx.c:163-195 | the death of a process keeps these invariants if and only if the count can spare its post and, on a free lock with another sleeper, another process or a post attends to the lock |
| Shmtx.StepAlive | nginx-1.6.2/src/core/ngx_shmtx.c:69-195 | every single step keeps the count and the attention |
| Shmtx.WaitIsNotUndone | nginx-1.6.2/src/core/ngx_shmtx.c:98-105 | a run in which the lock is won after the counter was raised, and the counter stays raised |
| Shmtx.FailedWaitIsNotUndone | nginx-1.6.2/src/core/ngx_shmtx.c:110-125 | a run in which the wait for the semaphore fails, and the counter stays raised |
| Shmtx.SurplusStep | nginx-1.6.2/src/core/ngx_shmtx.c:98-126 | a step of a live process leaves wait + semaphore + posts in flight less those committed to sleeping as it is, but for a lock won after counting and a failed wait, which raise it by one |
| Shmtx.CountExactIff | nginx-1.6.2/src/core/ngx_shmtx.c:69-195 | in every run without deaths the count is too high by exactly the number of locks won after counting and of failed waits, so it is exact if and only if there was none |
| Shmtx.KilledWakerLosesWakeup | nginx-1.6.2/src/core/ngx_shmtx.c:163-195 | a run in which a process is killed between unlock and post, and a sleeper stays on a free lock |
| AcceptMutex.OnePoller | nginx-1.6.2/src/event/ngx_event_accept.c:369-407 | of the workers that ran the trylock in their current iteration at most one polls with listening events enabled |
| AcceptMutex.HeldMeansOwned | nginx-1.6.2/src/event/ngx_event.c:229-268 | from that trylock to the unlock the held flag, ownership of the lock and the activation of every listening event agree |
| AcceptMutex.NeverReleasesAnothers | nginx-1.6.2/src/event/ngx_event.c:254-268 | no step of one worker, not even an unlock with a held flag left over from before, releases a lock another worker owns |
| AcceptMutex.RunInv | nginx-1.6.2/src/event/ngx_event_accept.c:369-474 | the invariant of lock, flags and events holds in every run with any number of workers, deaths and EMFILE events |
| AcceptMutex.SkippedTrylockOverlaps | nginx-1.6.2/src/event/ngx_event.c:229-254 | a run in which a worker with ngx_accept_disabled > 0 skips the trylock and polls with its events enabled while another holds the lock |
| AcceptMutex.SkipIff | nginx-1.6.2/src/event/ngx_event.c:229-254 | at the top of its loop a worker comes to poll enabled events without the lock if and only if ngx_accept_disabled is positive, its held flag is set and there are listening sockets |
| AcceptMutex.StrayIff | nginx-1.6.2/src/event/ngx_event.c:229-268 | of all steps of all workers and the master, only that one makes a worker poll enabled events without the lock |
| AcceptMutex.PollerOwnsIff | nginx-1.6.2/src/event/ngx_event.c:229-268 | in every run a worker that polls enabled events has the lock if and only if it ran the trylock in this iteration; of two that poll at once one skipped it |
| OutputChain.Context.Output | nginx-1.6.2/src/core/ngx_output_chain.c:41-217 | for every input and every draining behaviour of the next filter, the bytes handed on followed by those of ctx->in are the input so far in order; at most bufs.num temporary buffers exist; the loop ends, and with input left over it answers NGX_AGAIN with no free buffer |
| OutputChain.Context.FillOut | nginx-1.6.2/src/core/ngx_output_chain.c:91-196 | input moves to the output chain, directly or through temporary buffers, until it is used up or no buffer is left, and no byte is lost or out of order |
| OutputChain.Context.CopyNext | nginx-1.6.2/src/core/ngx_output_chain.c:144-195 | a temporary buffer is taken from the free chain or made below the limit, and filled with the next bytes of the input; a buffer in the busy chain is never written |
| OutputChain.Context.CopyBuf | nginx-1.6.2/src/core/ngx_output_chain.c:459-599 | the copy is as long as the smaller of source and destination, and moves exactly these bytes |
| OutputChain.Context.GetBuf | nginx-1.6.2/src/core/ngx_output_chain.c:383-456 | a new empty temporary buffer of the configured size or of what is left of the last one |
| OutputChain.Context.UpdateChains | nginx-1.6.2/src/core/ngx_buf.c:183-220 | drained buffers leave the head of the busy chain, those of this context become free and empty, and the walk stops at the first buffer with bytes |
| OutputChain.Context.NextFilter | nginx-1.6.2/src/core/ngx_output_chain.c:207-211 | the filter as an adversary: it queues the chain and drains any prefix of bytes, and never touches what is not in its queue |
| OutputChain.Context.PassOn | nginx-1.6.2/src/core/ngx_output_chain.c:54-75 | a single buffer, or none, that needs no copy goes straight to the filter |
| OutputChain.Context.AddCopy | nginx-1.6.2/src/core/ngx_output_chain.c:264-330 | new input is put behind the chain that is left from before |
| ChainFlow.CopyConserved | nginx-1.6.2/src/core/ngx_output_chain.c:459-599 | copying between two buffers moves bytes from the input to the output chain and keeps the whole stream |
| ChainFlow.CleanRecycle | nginx-1.6.2/src/core/ngx_buf.c:183-220 | recycling a drained buffer changes no byte of the stream |
| ChainFlow.TodoCopy | nginx-1.6.2/src/core/ngx_output_chain.c:91-196 | a copy leaves strictly less to do, which ends the loops |
| HashTable.StepIsEltSize | nginx-1.6.2/src/core/ngx_hash.c:41-45 | the aligned step of the search equals NGX_HASH_ELT_SIZE |
| HashTable.Hash.Find | nginx-1.6.2/src/core/ngx_hash.c:12-49 | the walk over the packed bytes of a bucket gives the value of the first stored name equal to the one looked for, or NULL |
| HashTable.Hash.Visit | nginx-1.6.2/src/core/ngx_hash.c:24-45 | one element is read from memory: it is the end of the bucket, the name looked for, or the walk goes on at the start of the next element |
| HashTable.Hash.constructor | nginx-1.6.2/src/core/ngx_hash.c:322-419 | the buckets, elements and ending nulls are laid out in one block and read back as the names given |
| HashTable.FindsExactly | nginx-1.6.2/src/core/ngx_hash.c:12-49 | under its own hash every stored name is found, and any other name gives NULL |
| HashTable.FindSize | nginx-1.6.2/src/core/ngx_hash.c:258-320 | a name too long for a bucket is reported if and only if there is one; otherwise the first size from the start of the search that the check accepts, or, if it refuses all, a size above max_size |
| HashTable.NoSizeAccepted | nginx-1.6.2/src/core/ngx_hash.c:285-320 | two names of one hash that fit a bucket, but not together, for which every size is refused |
| HashTable.InitAndFind | nginx-1.6.2/src/core/ngx_hash.c:12-419 | with buckets of less than 32 KiB, when a size is found no bucket overflows, every stored name is found with its value and any other gives NULL; when none is found no size fits |
| HashTable.Check | nginx-1.6.2/src/core/ngx_hash.c:285-308 | the loop over the names accepts a size if and only if no u_short count exceeds the room |
| HashTable.CheckExactIff | nginx-1.6.2/src/core/ngx_hash.c:285-308 | accepting is the same as fitting, for all names and sizes, if and only if the room of a bucket is less than 32 KiB |
| HashTable.TwoHalves | nginx-1.6.2/src/core/ngx_hash.c:294-303 | from 32 to 64 KiB two names that need twice the room are accepted |
| HashTable.RoomCut | nginx-1.6.2/src/core/ngx_hash.c:303-305 | from 64 KiB on the room itself is cut to a u_short and a name that fits is refused |
| HashTable.PlaceInside | nginx-1.6.2/src/core/ngx_hash.c:322-414 | an element lies in the region of its bucket with a null after it, and in the block |
| HashTable.PlacesApart | nginx-1.6.2/src/core/ngx_hash.c:386-404 | the elements of two names do not overlap |
| HashTable.Measure | nginx-1.6.2/src/core/ngx_hash.c:322-347 | the bytes of each bucket in whole cache lines, and their sum |
| HashTable.Fill | nginx-1.6.2/src/core/ngx_hash.c:386-404 | all elements stand at their places |
| HashTable.Finish | nginx-1.6.2/src/core/ngx_hash.c:406-414 | every bucket that is not empty ends in a null |
| Wildcard.FindHeadLongest | nginx-1.6.2/src/core/ngx_hash.c:52-143 | over the structure that is built, the search returns the value of the longest pattern ".s" or "*.s" that matches the name, the latter only below s, or NULL |
| Wildcard.FindTailLongest | nginx-1.6.2/src/core/ngx_hash.c:146-207 | the same for the longest pattern "p.*" |
| Wildcard.WildcardInit | nginx-1.6.2/src/core/ngx_hash.c:455-597 | the recursive construction, group by group of names with one first label, gives the index that the names stand for |
| Wildcard.WildcardGroup | nginx-1.6.2/src/core/ngx_hash.c:487-586 | one group of names becomes one row: its value, or the index of what follows the label, with the right mark |
| Wildcard.CollectNext | nginx-1.6.2/src/core/ngx_hash.c:509-562 | the names that share the label, with the label cut off |
| Wildcard.SameHeadBetween | nginx-1.6.2/src/core/ngx_string.c:826-854 | in the order of ngx_dns_strcmp names with the same first label stand together |
| Wildcard.OrderOfTails | nginx-1.6.2/src/core/ngx_string.c:826-854 | with the same first label that order is the order of the rests |
| Wildcard.TogetherMeans | nginx-1.6.2/src/core/ngx_hash.c:537-546 | the comparison that ends a group is true exactly when the first labels agree |
| Wildcard.LookupRows | nginx-1.6.2/src/core/ngx_hash.c:455-597 | the index has for each label the row of all names that begin with it |
| Wildcard.TurnAround | nginx-1.6.2/src/core/ngx_hash.c:879-899 | the labels of a name are turned around in place |
| Wildcard.TurnedAround | nginx-1.6.2/src/core/ngx_hash.c:818-905 | ".s" and "*.s" become patterns with the labels of s from the last to the first, marked exactly when they match only below s |
| WildcardHash.FindLabel | nginx-1.6.2/src/core/ngx_hash.c:82-88 | one level of the index kept as a packed hash answers a label with the entry of its row, or NULL |
| WildcardHash.RowsAreFound | nginx-1.6.2/src/core/ngx_hash.c:589-594 | the buckets built from the rows of a level hold exactly what the rows do |
| ConfToken.ConfFile.ReadToken | nginx-1.6.2/src/core/ngx_conf_file.c:430-734 | unless a read fails, the words, return code, place and line are those of the lexer over the whole text, whatever the refill points; "too long parameter" is answered if and only if that lexer needs a character more when its token fills the window |
| ConfToken.ConfFile.Refill | nginx-1.6.2/src/core/ngx_conf_file.c:482-533 | the token so far moves to the front of the window and more text is read behind it; it fails with "too long" exactly when the token fills the window |
| ConfToken.ConfFile.ReadChar | nginx-1.6.2/src/core/ngx_conf_file.c:460-540 | the next character of the text, with the start of the token where it is then |
| ConfToken.ConfFile.ReadWord | nginx-1.6.2/src/core/ngx_conf_file.c:673-720 | the word between two places of the window, unescaped |
| ConfToken.QuotedWordsReadBack | nginx-1.6.2/src/core/ngx_conf_file.c:580-734 | any non-empty list of words in double quotes with quotes and backslashes escaped is read back exactly, and fits the window if and only if each escaped word with its quote and space is shorter than it |
| ConfToken.UnescapeEscape | nginx-1.6.2/src/core/ngx_conf_file.c:688-718 | unescaping undoes escaping for every word |
| OpenFileCache.Cache.OpenCachedFile | nginx-1.6.2/src/core/ngx_open_file_cache.c:143-486 | the caller is told what a young entry says or else what the system says; a cleanup is handed out exactly with an open file; no entry in use loses its descriptor; the entry is first in the queue; and descriptors, tree, queue and counts agree: if and only if the entry does not clash with a directory of the same number |
| OpenFileCache.Cache.Cleanup | nginx-1.6.2/src/core/ngx_open_file_cache.c:1017-1028 | the count goes down by one; with the last use a detached or little used file is closed, and one or two old entries go |
| OpenFileCache.Cache.CloseCachedFile | nginx-1.6.2/src/core/ngx_open_file_cache.c:1031-1074 | the exact new entry, queue and set of open descriptors in all four cases |
| OpenFileCache.Cache.ExpireOld | nginx-1.6.2/src/core/ngx_open_file_cache.c:1094-1142 | at most three less n entries leave from the end of the queue, the first by force if n is 0, the others only if unused for too long, and no fewer |
| OpenFileCache.Cache.Evict | nginx-1.6.2/src/core/ngx_open_file_cache.c:1116-1140 | the entry used least recently leaves tree and queue; it is closed and freed if nobody uses it, and kept for its last user if somebody does |
| OpenFileCache.Cache.Retest | nginx-1.6.2/src/core/ngx_open_file_cache.c:275-350 | an old entry is tested again; it is kept, replaced in place, or detached for its users while its name gets a new entry |
| OpenFileCache.Cache.RetestClash | nginx-1.6.2/src/core/ngx_open_file_cache.c:286-349 | when a file is now a directory on another device with its inode number, the caller is answered, but the entry keeps a closed descriptor, shares it with the new entry of its name, or loses it while in use |
| OpenFileCache.Cache.Supersede | nginx-1.6.2/src/core/ngx_open_file_cache.c:343-391 | an entry in use whose file changed leaves the tree, marked to be closed with its last use |
| OpenFileCache.Cache.Create | nginx-1.6.2/src/core/ngx_open_file_cache.c:360-451 | a new entry is made after room is made for it; without memory the new descriptor is closed |
| OpenFileCache.Cache.MakeRoom | nginx-1.6.2/src/core/ngx_open_file_cache.c:362-364 | a full cache drops at least one entry, so that current stays at most max |
| OpenFileCache.Cache.Fail | nginx-1.6.2/src/core/ngx_open_file_cache.c:455-476 | an entry that cannot be opened leaves the cache |
| OpenFileCache.Cache.OpenAndStat | nginx-1.6.2/src/core/ngx_open_file_cache.c:839-945 | the descriptors opened and closed, and the answer, for each answer of stat, open and fstat |
| OpenFileCache.Cache.CloseFd | nginx-1.6.2/src/core/ngx_open_file_cache.c:1058-1066 | a descriptor is closed only while it is open, hence once |
| OpenFileCache.Cache.CleanupCache | nginx-1.6.2/src/core/ngx_open_file_cache.c:88-140 | every entry of the cache is closed and freed even if it is in use; the entries that had left it keep their descriptor and count; with no use left nothing is open |
| OpenFileCache.CurrentIsQueue | nginx-1.6.2/src/core/ngx_open_file_cache.c:362-386 | the tree has as many entries as the queue, which is `current` |
| OpenFileCache.HeldOpen | nginx-1.6.2/src/core/ngx_open_file_cache.c:1017-1028 | an entry in use has an open descriptor and counts its cleanups |
| OpenFileCache.NothingLeft | nginx-1.6.2/src/core/ngx_open_file_cache.c:88-140 | with an empty queue and no cleanup to come no descriptor is open |
| OpenFileCache.PutIn | nginx-1.6.2/src/core/ngx_open_file_cache.c:428-430 | putting an entry first keeps the queue ordered by last access |
| Radix.RadixTree.Find | nginx-1.6.2/src/core/ngx_radix_tree.c:236-263 | the value of the longest stored prefix of the key, or none |
| Radix.RadixTree.Insert | nginx-1.6.2/src/core/ngx_radix_tree.c:108-170 | NGX_BUSY if and only if the prefix is stored; otherwise exactly that prefix gets the value |
| Radix.RadixTree.Delete | nginx-1.6.2/src/core/ngx_radix_tree.c:173-233 | NGX_OK if and only if the prefix is stored, which then is not; nodes that carry nothing go to the free list |
| Radix.RadixTree.constructor | nginx-1.6.2/src/core/ngx_radix_tree.c:15-43 | the new tree has one node and no prefix |
| Radix.RadixTree.Walk | nginx-1.6.2/src/core/ngx_radix_tree.c:117-131 | the descent to the last node on the way of a prefix |
| Radix.RadixTree.AddChild | nginx-1.6.2/src/core/ngx_radix_tree.c:146-164 | a node from the free list or a new one is linked below, and is in one of both only |
| Radix.RadixTree.Prune | nginx-1.6.2/src/core/ngx_radix_tree.c:206-230 | nodes without children and value go up to the first that has one |
| Radix.LinkOk | nginx-1.6.2/src/core/ngx_radix_tree.c:146-164 | linking a node keeps tree, parents and free list apart and right |
| Radix.CutOk | nginx-1.6.2/src/core/ngx_radix_tree.c:206-230 | cutting a leaf keeps them right, and gives its node to the free list |
| Radix.LinkLeaves | nginx-1.6.2/src/core/ngx_radix_tree.c:146-164 | of the leaves only the newest may lack a value while a path is built |
| Radix.CutLeaves | nginx-1.6.2/src/core/ngx_radix_tree.c:206-230 | after a deletion every leaf but the root carries a value |
| Radix.OnlyRootHasNoParent | nginx-1.6.2/src/core/ngx_radix_tree.c:203-213 | the parent that a deletion follows from a leaf is null if and only if the leaf is the root |
| Inet.Inet6RoundTrip | nginx-1.6.2/src/core/ngx_inet.c:58-171 | for every 16-byte address the printed text is parsed back to the same bytes, but for the form with dots ending in 255.255.255.255, which is refused |
| Inet.RefusedAddress | nginx-1.6.2/src/core/ngx_inet.c:109-117 | ::255.255.255.255 is refused |
| Inet.Inet6Addr | nginx-1.6.2/src/core/ngx_inet.c:58-171 | the parser with its in-place shift for the run of zeros accepts the texts, and gives the bytes, that the character-by-character definition says |
| Inet.Inet6Ntop | nginx-1.6.2/src/core/ngx_inet.c:286-359 | the text written to the buffer, at most 45 characters, or nothing in a shorter buffer |
| Inet.InetAddr | nginx-1.6.2/src/core/ngx_inet.c:17-53 | a text is accepted if and only if it is four parts with dots between them, each of digits only and less than 256 modulo 2^64; the result is their 32 bits |
| Inet.InetAddrIff | nginx-1.6.2/src/core/ngx_inet.c:17-53 | the same of the loop over the characters; the parts, with dots between, are the text |
| Inet.DotsAlone | nginx-1.6.2/src/core/ngx_inet.c:28-53 | the text of three dots is taken for 0.0.0.0 |
| Inet.LongestRun | nginx-1.6.2/src/core/ngx_inet.c:296-322 | the run of zero words that is left out |
| Inet.ScanIsLongest | nginx-1.6.2/src/core/ngx_inet.c:296-322 | it is the first of the longest runs of at least two words |
| Inet.ReadQuad | nginx-1.6.2/src/core/ngx_inet.c:17-53 | four printed numbers are read back as their 32 bits |
| Inet.Spread | nginx-1.6.2/src/core/ngx_inet.c:155-160 | the words after the run of zeros move to the end of the buffer, and the run is filled with zeros |
| GmTime.GmtimeDate | nginx-1.6.2/src/core/ngx_times.c:282-372 | the result is the date that is t / 86400 days after 1 January 1970 if and only if its year fits an int |
| GmTime.CivilDate | nginx-1.6.2/src/core/ngx_times.c:304-363 | for every time the computed month and day are valid and the calendar counts t / 86400 days up to them |
| GmTime.CivilClock | nginx-1.6.2/src/core/ngx_times.c:290-302 | the time of day adds up, and the weekday goes on by one from Thursday |
| GmTime.EstimateNear | nginx-1.6.2/src/core/ngx_times.c:319-327 | the estimated year is right, or one too large for three days at most |
| GmTime.GmtimeOrderKept | nginx-1.6.2/src/core/ngx_times.c:282-372 | earlier times have earlier dates, and only they, as long as the year fits |
| GmTime.OrderKept | nginx-1.6.2/src/core/ngx_times.c:288-363 | the same before the year is cut to an int |
| GmTime.OneDate | nginx-1.6.2/src/core/ngx_times.c:304-363 | no two dates have one day number |
| Crc32.Short | nginx-1.6.2/src/core/ngx_crc32.h:20-35 | the loop with the table of sixteen gives the bitwise CRC-32 |
| Crc32.Long | nginx-1.6.2/src/core/ngx_crc32.h:38-50 | so does the loop with the table of 256 |
| Crc32.Update | nginx-1.6.2/src/core/ngx_crc32.h:57-69 | an update gives the bitwise register after the bytes |
| Crc32.SerialSplits | nginx-1.6.2/src/core/ngx_crc32.h:53-73 | updates with parts are one update with the whole |
| Crc32.Table256Is | nginx-1.6.2/src/core/ngx_crc32.c:34-99 | every entry of the large table is the register after eight shifts of its index |
| Crc32.Table16Is | nginx-1.6.2/src/core/ngx_crc32.c:26-31 | a look-up in the small table is four shifts, for every register |
| Crc32.OneByteIsSeen | nginx-1.6.2/src/core/ngx_crc32.h:38-50 | texts that differ in one byte have different sums |
| Base64.DecodeEncode | nginx-1.6.2/src/core/ngx_string.c:1122-1263 | decoding undoes encoding for every byte string, in both alphabets, with and without padding |
| Base64.EncodeDecode | nginx-1.6.2/src/core/ngx_string.c:1122-1263 | a text of whole groups of letters is the encoding of what it decodes to |
| Base64.Encode | nginx-1.6.2/src/core/ngx_string.c:1122-1163 | the bytes written are the encoding, and fit the length of ngx_base64_encoded_length |
| Base64.Decode | nginx-1.6.2/src/core/ngx_string.c:1220-1263 | the text is accepted if and only if all before the first "=" is in the alphabet and is no single letter over; then the bytes written are the decoding |
| Base64.JoinSplit | nginx-1.6.2/src/core/ngx_string.c:1243-1250 | the shifts and masks of the decoder undo those of the encoder |
| Uri.RoundTrip | nginx-1.6.2/src/core/ngx_string.c:1405-1701 | unescaping with type 0 reads all of an escaped text, and undoes escaping if and only if the table is not the one of REFRESH or the text has no percent sign |
| Uri.EscapeUri | nginx-1.6.2/src/core/ngx_string.c:1405-1571 | without a destination the number of characters to escape; with one the escaped text, as long as the size plus twice that number |
| Uri.UnescapeUri | nginx-1.6.2/src/core/ngx_string.c:1574-1701 | for all types, decoding in place, to a place before the source or apart from it writes what the state machine says, never beyond what it has read, and changes nothing else |
| Uri.PercentEscaped | nginx-1.6.2/src/core/ngx_string.c:1412-1539 | every table but that of REFRESH has the percent sign |
| Uri.Lighter | nginx-1.6.2/src/core/ngx_string.c:1574-1701 | a percent sign that was left in makes the result strictly lighter than the text, so it is another text |
| Md5.Context.Final | nginx-1.6.2/src/core/ngx_md5.c:65-115 | the sum is that of RFC 1321 for all bytes given so far, padded as in its sections 3.1 and 3.2 |
| Md5.Context.Update | nginx-1.6.2/src/core/ngx_md5.c:34-62 | the text so far grows by exactly the data, however it is split |
| Md5.Context.Body | nginx-1.6.2/src/core/ngx_md5.c:173-287 | the block loop compresses the blocks of the data one after the other |
| Md5.AllSteps | nginx-1.6.2/src/core/ngx_md5.c:200-270 | the 64 unrolled steps are the table-driven steps of section 3.4 |
| Md5.FIs | nginx-1.6.2/src/core/ngx_md5.c:126-126 | the rewritten F is that of section 3.4 on all words |
| Md5.GIs | nginx-1.6.2/src/core/ngx_md5.c:127-127 | the rewritten G is that of section 3.4 on all words |
| Md5.PaddedIs | nginx-1.6.2/src/core/ngx_md5.c:70-95 | the one or two last blocks are the padding of the definition |
| Palloc.Pool.Alloc | nginx-1.6.2/src/core/ngx_palloc.c:119-176 | the new region is inside its block, apart from all that was given out before, and aligned for ngx_palloc; the callers have exactly one region more; a current block with room gives its next place |
| Palloc.Pool.FindRoom | nginx-1.6.2/src/core/ngx_palloc.c:125-141 | the first block from `current` on with room for the request |
| Palloc.Pool.PallocBlock | nginx-1.6.2/src/core/ngx_palloc.c:179-216 | a new block is linked, and `current` passes a block only after at least six counted failures |
| Palloc.Pool.CountFailures | nginx-1.6.2/src/core/ngx_palloc.c:205-209 | the failures of all blocks but the last are counted, and exactly those that had failed more than four times are passed |
| Palloc.Pool.PallocLarge | nginx-1.6.2/src/core/ngx_palloc.c:219-255 | a large piece goes to the first free one of the first five nodes of the list, and only if there is none to a new node before the list, which is a region of its own |
| Palloc.Pool.Pfree | nginx-1.6.2/src/core/ngx_palloc.c:283-300 | a large piece is given back if and only if it is one of the pool, and nothing else changes |
| Palloc.Pool.Reset | nginx-1.6.2/src/core/ngx_palloc.c:96-116 | after a reset nothing is given out and every block is empty |
| Palloc.FullBlockRoom | nginx-1.6.2/src/core/ngx_palloc.c:129-133 | in a full block the aligned place is at the end, with no room, if and only if the size of the blocks is a multiple of the alignment; otherwise the room wraps around to almost all of memory |
| Palloc.Array.Push | nginx-1.6.2/src/core/ngx_array.c:50-94 | a place for one element; the elements and the bytes of all other regions are saved, whether the array grows in place or moves; the place is inside the region of the array if and only if all were before and the array had a region or could grow in place |
| Palloc.EmptyArrayOverlaps | nginx-1.6.2/src/core/ngx_array.c:50-94 | an array made for 0 elements with another region behind it: the place of the pushed element is the region that the pool gives away next |
| Palloc.Array.PushN | nginx-1.6.2/src/core/ngx_array.c:98-145 | the same for n elements, also none; when the elements are inside their region again |
| Palloc.Array.Destroy | nginx-1.6.2/src/core/ngx_array.c:33-47 | what the array has at the end of the first block is given back, and nothing of other regions, also for an array of no elements |
| Palloc.GrowGiven | nginx-1.6.2/src/core/ngx_array.c:64-75 | a region that ends where the first block does can be longer without meeting another |

## Findings

Inputs for which the code does not do what its documentation or its callers' expectation says,
each with the exact condition.

| member | what happens | when it does not |
|---|---|---|
| Shmtx.KilledWakerLosesWakeup | a process killed between releasing the lock and posting the semaphore leaves a sleeper on a free lock | Shmtx.DeathIsSafe: a death is harmless if and only if the count can spare the post and somebody else attends to the lock |
| Shmtx.WaitIsNotUndone, Shmtx.FailedWaitIsNotUndone | the counter stays raised when the lock is won at line 103 of ngx_shmtx.c after counting, and when the wait for the semaphore fails at lines 113-120, so it is only a bound | Shmtx.CountExactIff: in a run without deaths the count is exact if and only if neither happens; each adds one (Shmtx.SurplusStep) |
| AcceptMutex.SkippedTrylockOverlaps | with `ngx_accept_disabled` > 0 a worker that holds the events of its last turn polls them beside the new owner | AcceptMutex.SkipIff, AcceptMutex.StrayIff: a worker comes to poll enabled events without the lock if and only if it is at the top of its loop with `ngx_accept_disabled` > 0, the flag set and a listening socket; AcceptMutex.PollerOwnsIff: one that polls them has the lock if and only if it ran the trylock |
| HashTable.CheckExactIff | the bucket check counts in a `u_short`; it accepts names that do not fit (TwoHalves), refuses names that do (RoomCut), or accepts everything (AllAccepted) | if and only if `bucket_size - 8` is less than 32 KiB |
| HashTable.NoSizeAccepted | when the check refuses every size, ngx_hash_init goes on with a size above max_size, for which its array of max_size counts is too short | HashTable.FindSize: if and only if a size from the start of the search to max_size is accepted |
| Palloc.EmptyArrayOverlaps | ngx_array_push on an array made for 0 elements hands out a place that the pool gives away again | Palloc.Array.Push: the place is the own of the array if and only if `nalloc` > 0, or the array is the last piece of the first block and one element fits behind it |
| OpenFileCache.Cache.RetestClash, OpenFileCache.ClashInput | a file that is now a directory on another device with the inode number of the open file: the old descriptor is stored again after it is closed, or in two entries, or closed under its users | OpenFileCache.Cache.OpenCachedFile: descriptors and entries agree after the call if and only if it is not so |
| OpenFileCache.Cache.CleanupCache | the entries of the cache are freed even if a cleanup of a request is to come that uses them | if and only if no entry of the cache has a count |
| Palloc.FullBlockRoom | with a pool size that is no multiple of the alignment a full block seems to have almost all of memory as room | if and only if the size is a multiple of `NGX_ALIGNMENT` |
| RbOrder.TimerCircle | expiry times spread over more than half the range of the clock compare in a circle | RbOrder.TimerOrderIff: an order if and only if all lie within half the range |
| Inet.RefusedAddress | the printed form `::255.255.255.255` is refused by the parser, whose error value it is | Inet.Inet6RoundTrip: every address but the dotted form with four last bytes of 255 |
| Inet.DotsAlone | ngx_inet_addr takes texts for addresses that are none, as three dots for 0.0.0.0 | Inet.InetAddrIff: four parts of digits, each less than 256 modulo 2^64, and no others; a part may have no digit |
| GmTime.GmtimeDate | the cast of the year to an int gives another year from the second 67767976233532800 on | if and only if the time is before it |
| Uri.RoundTrip | the table of REFRESH leaves the percent sign, so unescaping changes the text | if and only if the text has no percent sign |
| Radix.OnlyRootHasNoParent | deleting the zero-length prefix from a root without children follows a null parent | if and only if the leaf is not the root |

In `ngx_conf_read_token` white space and comments count to the 4096 characters of the window too,
from the last start of a token on (ConfToken.Fits).

## Left out

- Sockets, files, signals, process start-up, logging, OpenSSL, PCRE, the resolver and directive dispatch.
- Allocation failure in the output chain, the radix tree, the hash and the wildcard index; it is modelled for the pools and the open-file cache.
- The 128-bit radix tree and the preallocation of the 32-bit one.
- File-backed, direct-I/O and AIO branches of the output chain and the propagation of the recycled flag; flags of a recycled buffer stay as the code leaves them.
- What ngx_hash_init builds when no size fits, and the storage of the wildcard header.
- ngx_hash_add_key but for turning the labels around; its search for a conflicting key (NGX_BUSY) is not modelled.
- Slab frees of pointers that are not live, and other chunk minima than that of ngx_cycle.c:873 (8 bytes).
- Event add and delete failures, semaphore post failure, and the wrap-around of the wait counter after 2^64 increments.
- vnode events, the symbolic-link walk of openat, read-ahead, direct I/O and the calls without a cache in the open-file cache.
- Radix.RadixTree.Delete: the zero-length prefix of a root without children is excluded, because the code follows a null parent there.
- Slab.SlabPool.FreeLocked: requires a live region, because the error branches only log.
- HashTable.Hash.constructor: requires that a bucket with its null and a cache line stays below 64 KiB, the range of the counts it is laid out with.
- OpenFileCache.Cache.OpenCachedFile: requires fewer than 2^24 - 1 uses of the entry, the range of its count; the name index is a map, whose search in the tree is RbTrees.RbTree.LookupFile.
- Wildcard.FindHeadLongest: a value pointer with its two low bits is a pair of a word or an index and a tag, and a level of the index is its rows; WildcardHash joins a level to the packed hash.
- Uri.UnescapeUri: requires that the destination does not begin behind the start of the source and within its length, as no caller has it: ngx_http_parse.c:1864 unescapes into memory of its own, the others in place.
- Palloc.Array.PushN: the bytes of others are not promised when elements already outside of the region are more than the new one holds, because the copy writes over them.
- Md5.Context.Final: the table of sines is taken as its 64 constants.
- RbTrees.RbTree.Insert: the parent of the root is not promised, because a deletion can leave it stale.
