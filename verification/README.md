# Verification of the disaggregated-memory runtime

The compute side of the system keeps objects in a remote memory pool and caches them in local
slots. A client names an object by a global address (an 8-bit type and a 56-bit offset), asks for it
with `cache_request`, gets a token, turns the token into a raw pointer with `cache_access` or
`cache_access_mut`, and gives the token back with `cache_token_free`. The cache is meant to be
invisible. This project models the cache, the tag arithmetic, the allocator, the type registry and
the binary-tree client in Dafny, and proves that it is, and under which conditions it is not.

## How it is built

- `Bits`, `Addr`: unsigned words, bitwise `&` as a function on naturals, packed addresses, the masks
  of `extract_tag`.
- `SlotWord`: the 32-bit word `[valid|io|rc]` of a slot and the record it stands for.
- `FreeList`, `ChunkList`, `CacheBlock`, `Allocator`, `Context`: the classes. They update linked
  nodes, arrays and maps in place, as the C code does, and every method is proved against the value
  functions below. `ComputeContext` has the public calls of the runtime.
- `Alloc`, `AllocPageZero`: sequential allocation as functions on values.
- `AllocThreads`, `AllocThreadsSafe`, `AllocThreadsExact`, `AllocThreadsPool`, `AllocThreadsProgress`:
  allocation by any number of threads as a machine of atomic steps (first load, second load,
  fetch-and-add, insert, bump) under the read-write lock of the list.
- `CacheSpec`, `CacheInv`, `CacheRequest`: the state of the whole runtime as a value, its operations,
  the invariant `Inv` and the view `View` (slot bytes if an object is cached, remote bytes otherwise).
- `Machines`, `Simulation`, `Transparency`: the cached runtime and a flat memory side by side, over
  whole runs of a client. `Client` runs such a client on the compute context.
- `References`, `Eviction`: how many objects can be held, and when a request comes to an end.
- `BinaryTree`, `NativeTree`: search trees as values with node identities, and the native C tree on
  the heap, one call at a time and over runs.
- `NodeLayout`, `RemoteTree`, `DmTree`, `TreeRuns`, `TreeEnds`, `TreeProgram`: the same tree kept in
  remote memory through the cache, whole runs of it, when its calls end, and programs on it.

## Main results

1. *Transparency* (`Transparency.RuntimeIsInvisible`, `Client.RunClient`). From a fresh runtime, every
   run of registrations, allocations, requests, mutable accesses, loads, stores and frees, on any types
   and with any eviction choices, gives exactly the answers of flat memory. The client's rules are all
   rules about flat memory. `RunCanBeServed` adds that a client whose held objects fit into the slots
   is never left without a victim, and `RunClient` runs the operations on the context itself.
2. *The heap program refines the value model* (`Context.ComputeContext.CacheRequest` and its parts):
   the code with its free list, retry loop, table updates and transfers ends in the state
   `Request` describes; the branch that pushes a slot back is dead in sequential runs.
3. *The tree in remote memory is the native tree* (`DmTree.InsertRemote`, `DmTree.SearchRemote`,
   `TreeRuns.RunIsNative`): the pointer to the parent's slot, taken before the recursive call, is good
   after it; only the parent of a new node looks different; one token stays on each node visited;
   whole programs answer as the native tree does. `TreeProgram.RunTree` runs such a program on the
   context and hears what a set of keys would answer.
4. *When calls end* (`References.RequestEndsExactly`, `TreeEnds.SearchEndsExactly`,
   `TreeEnds.InsertEndsExactly`), given draws in which every index recurs: a request ends if and only
   if the objects held of the type, with the one asked for, are no more than the 256 slots; a search
   or an insertion if and only if the objects held, with those on its path and a node it has to make,
   are no more. Insertion and search never free a token, so a tree program runs until 256 different
   nodes are held; a call that visits another one then never ends.
5. *Interleaved allocation* (`AllocThreadsExact.SafeExactly`, `AllocThreadsPool.InPoolExactly`): the
   exact conditions under which every schedule of every number of threads is safe. Whatever the
   schedule, no page is lost and nobody is blocked for ever (`AllocThreadsProgress.PageIsServed`,
   `PagesBecomeObjects`, `CallsCanFinish`), and a call left alone is the sequential one
   (`AloneIsAllocate`).

## What the code does differently from its intention

- The chunk-full test (`runtime/compute/src/alloc.c:28-29`) masks with `page_size - 1` and so keeps the
  page offset where the page start was meant. Outside page zero, and with nobody else at work, it is
  always true: every object gets a page of its own (`Alloc.ChunkFullIffOutsidePageZero`). In a pool at
  address 0 it lets objects cross pages: `AllocPageZero.PageZeroOverlap` has a run whose objects
  overlap, and `AllocPageZero.PageSafeExactly` says that no run of any calls on any types goes wrong if
  and only if every registered size divides the page and no reserved type (with sizes from the caller)
  is used, or pages have one byte. The memory server here never makes such a pool: it takes it from
  `mmap(NULL, ...)`, in pages of 4096 bytes (`runtime/memory/src/context.c:22-25`). The comment at
  `runtime/compute/src/context-internal.h:19` has the same mask; the model follows the code.
- The test loads `next_addr` twice, and other threads bump it in between. In a pool that starts at page
  one (at address `page_size`) a thread can then find the first chunk not full although it has been
  bumped, and bump it without a chunk of its own (`AllocThreads.TestOutcome`); anywhere further up it
  cannot. The model takes the load on the left of the comparison first; in the other order, and when
  one load serves for both, the test is always true (`AllocThreads.OtherOrder`).
- With several threads a chunk can be bumped once by each of them. All objects of all runs are in one
  page and disjoint if and only if, for every size that a type allows and that fits, a page holds as
  many objects as there are threads, or pages when these are fewer; and in a pool that starts at page
  one with two threads or more, objects are whole pages, or there are two threads only and the size
  divides the page (`AllocThreadsExact.SafeExactly`). A reserved type allows every size, so with two
  threads and two pages it is never safe.
- With two or more threads an address behind the pool can be returned: a thread links an out-of-pool
  chunk as tail before it finds the pool drained, and another thread that has passed the test bumps
  it (`AllocThreadsPool.InPoolExactly`).
- `register_type` grows the array of chunk lists with `reallocarray` and initialises only the lock of
  the new list (`runtime/compute/src/type.c:27-33`); its `head` and `tail` are whatever the memory held,
  and `disagg_alloc` tests and follows them (`runtime/compute/src/alloc.c:27-28`). The model starts a new
  type with an empty list, which is what is meant; every result about a registered type rests on that.

## Assumptions

The page size is a power of two, the pool is page-aligned, does not start in page zero and ends within
56 bits (`Addr.PoolOk`); types have ids from 3 on; addresses passed to the cache lie in allocated
objects; tokens are not used after they were freed; fewer than 2^30 tokens of one object are
outstanding. The chunk list of a newly registered type is empty, which the C code leaves to the
contents of fresh memory. The cache is single-threaded, as version 0.1 is (`docs/version.md:2`).
Assertions are compiled in: the entry of the translation table is set inside one
(`runtime/compute/src/cache.c:119`), so with `NDEBUG` nothing would ever be listed and two slots could
carry one tag; the tag check of `cache_token_free` (`runtime/compute/src/cache.c:229`) is one as well.
`rand()` is an arbitrary function from the number of the call to the value drawn.

## Model

| member | source | states |
|---|---|---|
| Addr.UnpackPack | runtime/compute/include/addr.h:14-22 | the packed word determines type and offset, so table keys are injective, and only the null address packs to 0 |
| Addr.PackUnpack | runtime/compute/include/addr.h:14-20 | every 64-bit word is the packing of one address |
| Addr.TagIsCellStart | runtime/compute/src/addr.c:8-13 | masks and division give page start plus stride cell times type size |
| Addr.TagDecomposition | runtime/compute/src/addr.c:7-13 | an offset is its tag plus a slot offset below the type size |
| Addr.TagIdempotent | runtime/compute/src/addr.c:8-13 | the tag of a tag is the tag |
| Addr.SameTagIffSameCell | runtime/compute/src/addr.c:8-13 | two offsets share a tag if and only if they lie in one stride cell of one page |
| Addr.TagOfInterior | runtime/compute/src/addr.c:8-13 | every interior offset of an object at a stride cell has the object's base as its tag |
| SlotWord.PackedRoundTrip | runtime/compute/src/cache-internal.h:31 | the packed word and the record (valid, io, rc) are inverse codings |
| SlotWord.WordFields | runtime/compute/src/cache.c:15 | bit 31 of the word is the valid flag, bit 30 the io flag, and the rest the count |
| SlotWord.IncrementRefines | runtime/compute/src/cache.c:138 | a 32-bit increment adds one reference and touches no flag if and only if the count has room |
| SlotWord.DecrementRefines | runtime/compute/src/cache.c:230 | a decrement drops one reference if and only if one is held, and then touches no flag |
| SlotWord.CompareExchangeRefines | runtime/compute/src/cache.c:160-161 | the exchange succeeds exactly on valid, idle, unreferenced slots and leaves a clear word |
| SlotWord.QuiescentSteps | runtime/compute/src/cache.c:132-138 | between calls the io bit is clear, and stays so; the evictor takes a valid slot exactly if nobody references it |
| SlotWord.BorrowedFlags | runtime/compute/src/cache.c:226-231 | dropping a reference that nobody holds clears the valid bit and sets the io bit |
| SlotWord.RunRefines | runtime/compute/src/cache.c:138-230 | over any run with the count below 2^30 flags never move and the count is the balance of references |
| FreeList.CacheFreeList.constructor | runtime/compute/src/cache.c:17-28 | one range, flattened to the slots in order |
| FreeList.CacheFreeList.Push | runtime/compute/src/cache.c:30-42 | on a non-empty list the slot is appended at the end, coalescing or not, and ranges stay non-empty and acyclic |
| FreeList.CacheFreeList.Pop | runtime/compute/src/cache.c:44-58 | removes and returns the first slot, or -1 on the empty list |
| FreeList.EmptyIffNoRange | runtime/compute/src/cache.c:45 | with non-empty ranges the list has no range exactly if it has no slot |
| ChunkList.ChunkRefList.Insert | runtime/compute/src/context-internal.h:23-36 | appends a chunk at the tail of the linked list |
| Alloc.ChunkFullIffOutsidePageZero | runtime/compute/src/alloc.c:27-29 | the chunk-full test holds exactly for bump pointers outside page zero |
| Alloc.AllocateMeaning | runtime/compute/src/alloc.c:11-47 | one call of any size: oversized requests change nothing; others open a fresh chunk and return its page start unless the pool is drained, but for requests of no bytes while the last chunk is at page one |
| Alloc.EmptyRequest | runtime/compute/src/alloc.c:27-29 | for requests of no bytes the chunk-full test holds exactly from page two on |
| Alloc.SequentialAllocation | runtime/compute/src/alloc.c:11-47 | over all call sequences objects of one byte or more lie in the pool, one a page, at increasing pages, whatever requests of no bytes come between; once drained none of them succeeds any more |
| Alloc.PoolServesExactly | runtime/compute/src/alloc.c:11-47 | of calls for one byte up to a page, made from the start, call i gets page i of the pool if the pool has it, and nothing otherwise |
| AllocPageZero.PageZeroOverlap | runtime/compute/src/alloc.c:28-29 | a pool at address 0 in which the second object crosses a page and overlaps the third |
| AllocPageZero.PageSafeExactly | runtime/compute/src/alloc.c:14-43 | over all call sequences on all types, registered ones with their size and reserved ones with any, no object crosses a page if and only if the pool is outside page zero, or pages have one byte, or there are registered types only and every size that fits divides the page |
| Allocator.ChunkAllocator.AddType | runtime/compute/src/type.c:25-33 | a new type is given an empty chunk list, where the C code leaves head and tail uninitialised; the lists of other types stay |
| Allocator.ChunkAllocator.DisaggAlloc | runtime/compute/src/alloc.c:11-47 | the linked lists and the counter change as the sequential function says |
| AllocThreads.TestMeaning | runtime/compute/src/alloc.c:28-29 | the test says not full exactly if the first load is so far into page one that one object more stays below the page offset of the second |
| AllocThreads.OtherOrder | runtime/compute/src/alloc.c:28-29 | if the masked load comes first the test always says full |
| AllocThreads.TestOutcome | runtime/compute/src/alloc.c:23-30 | in every reachable state a thread passes the test only on the chunk at page one, in a pool that starts there, and only if it was bumped between the loads |
| AllocThreads.StepKeepsInv | runtime/compute/src/alloc.c:23-45 | every atomic step of every thread keeps the invariant: chunks distinct and aligned, one bump a chunk for each thread that fetched one, and every page of the pool that is gone either used for a returned object or held by a thread, none lost |
| AllocThreads.RunKeepsInv | runtime/compute/src/alloc.c:23-45 | the invariant, with its exact count of pages, holds after every schedule |
| AllocThreadsProgress.StepAdvancesCall | runtime/compute/src/alloc.c:13-46 | a step brings its thread's call further and touches no other thread; it waits only before an insertion while somebody reads the list; a call ends with one object more of its type and size, or with nothing if its chunk lies behind the pool |
| AllocThreadsProgress.PageIsKept | runtime/compute/src/context-internal.h:27-35 | a thread that holds a page of the pool still holds it for the same call after its step, or has returned one object more |
| AllocThreadsProgress.NothingIfDrained | runtime/compute/src/alloc.c:31-37 | a call ends with nothing only after the chunk counter has passed the end of the pool |
| AllocThreadsProgress.PageIsServed | runtime/compute/src/alloc.c:31-46 | in every schedule a call that holds a page of the pool keeps it or has got its object |
| AllocThreadsProgress.PagesBecomeObjects | runtime/compute/src/alloc.c:11-47 | after every schedule from the start, once no call is under way, at least as many objects were returned as pages of the pool are gone |
| AllocThreadsProgress.SomebodyCanMove | runtime/compute/src/alloc.c:23-45 | while a call is under way some thread can bring its own call further: the locks block nobody for ever |
| AllocThreadsProgress.CallsCanFinish | runtime/compute/src/alloc.c:23-45 | from every state all calls under way can be brought to their ends |
| AllocThreadsProgress.AloneIsAllocate | runtime/compute/src/alloc.c:11-47 | a call on a list that nobody else works on is, step by step, one call of the sequential allocation: same lists, same counter, same answer |
| AllocThreadsSafe.BumpsOfChunk | runtime/compute/src/alloc.c:31-43 | threads that fetched a chunk bump a chunk at most once each, and at most as often as the pool has pages |
| AllocThreadsSafe.FittingIsSafe | runtime/compute/src/alloc.c:23-45 | if no chunk is bumped behind its page all returned objects are in-page and disjoint |
| AllocThreadsSafe.NonePassedRun | runtime/compute/src/alloc.c:27-30 | outside page one, alone, in an empty pool or with page-sized objects only no thread of any schedule passes the test |
| AllocThreadsSafe.PairRun | runtime/compute/src/alloc.c:23-45 | two threads on a pool at page one never owe the first chunk more bumps than it has places, if sizes divide the page |
| AllocThreadsExact.RaceIsUnsafe | runtime/compute/src/alloc.c:30-43 | if a page cannot hold an object of each thread, or page, a schedule returns an object across a page |
| AllocThreadsExact.RestIsUnsafe | runtime/compute/src/alloc.c:28-43 | at page one two threads can climb past the page end if the size does not divide the page |
| AllocThreadsExact.CrowdIsUnsafe | runtime/compute/src/alloc.c:28-43 | at page one three threads can share the last place of the page |
| AllocThreadsExact.SafeExactly | runtime/compute/src/alloc.c:14-45 | all schedules, of calls on registered types and of any sizes on reserved ones, are safe if and only if every size that can be asked for and fits meets the condition on threads, pages and pool start |
| AllocThreadsPool.LastPageRace | runtime/compute/src/alloc.c:31-43 | two threads at the last page: an address behind the pool is returned |
| AllocThreadsPool.InPoolExactly | runtime/compute/src/alloc.c:31-43 | no schedule returns an object behind the pool if and only if there is at most one thread, or nothing can be allocated |
| CacheInv.PinKeeps | runtime/compute/src/cache.c:138 | taking a reference keeps invariant and view |
| CacheInv.UnpinKeeps | runtime/compute/src/cache.c:227-231 | dropping a reference keeps invariant and view |
| CacheInv.UnpinKeepsExactly | runtime/compute/src/cache.c:226-231 | freeing a token of a valid slot keeps the invariant if and only if the slot has a reference |
| CacheInv.MarkDirtyKeeps | runtime/compute/src/cache.c:221-224 | marking dirty keeps invariant and view |
| CacheInv.StoreKeeps | runtime/compute/src/cache.c:215-224 | a store through a pointer for writing changes exactly the stored range of the one object cached there |
| CacheInv.TakeFreeKeeps | runtime/compute/src/cache.c:152 | a popped slot leaves the rest in agreement with one hole |
| CacheInv.EvictKeeps | runtime/compute/src/cache.c:161-173 | eviction with or without write-back keeps the agreement of table, slots and free list, and the view |
| CacheInv.EvictRemote | runtime/compute/src/cache.c:164-171 | write-back puts the slot's bytes at the evicted object and changes no other object |
| CacheInv.EvictInSteps | runtime/compute/src/cache.c:161-173 | the order of the code (word, table, dirty bit, write-back, tag) amounts to one eviction |
| CacheInv.FillKeeps | runtime/compute/src/cache.c:179-201 | a fetch closes the hole, pins the object once and keeps the view |
| CacheInv.FillInSteps | runtime/compute/src/cache.c:179-195 | the order of the code (metadata, table, bytes, word) amounts to one fetch |
| CacheRequest.AllocatorAndCacheAgree | runtime/compute/src/addr.c:8-13 | for an address of a registered type the tag, and the base that a request works on, is an allocated object exactly if the address lies inside that object |
| CacheRequest.RequestKeeps | runtime/compute/src/cache.c:147-213 | a request keeps invariant and view with any victim, and adds one reference to the slot that holds the object |
| CacheRequest.RequestPinSafety | runtime/compute/src/cache.c:153-195 | no referenced slot is evicted, refetched or changed by a request |
| CacheRequest.RequestRemote | runtime/compute/src/cache.c:161-172 | a request changes remote memory at most in the range of an evicted dirty unreferenced object |
| CacheRequest.RequestOtherTypes | runtime/compute/src/cache.c:104-163 | a request touches no slot, free list or table entry of another type |
| CacheRequest.AllocObjectKeeps | runtime/compute/src/alloc.c:11-47 | allocation adds at most one object, new, and leaves every object's visible bytes alone |
| CacheRequest.RegisterKeeps | runtime/compute/src/type.c:18-37 | the new id is the number of types, below 255, or -1; the new type has 256 zeroed slots, all free in order; with the new chunk list taken as empty, the invariant and the view of all objects are kept |
| CacheRequest.TypeIds | runtime/compute/src/type.c:18-37 | of a fresh context registration k, from 0, gets id k + 3 if k is below 252, and -1 otherwise |
| CacheRequest.InitInv | runtime/compute/src/context.c:42-56 | a fresh context satisfies the invariant |
| CacheBlocks.CacheBlock.constructor | runtime/compute/src/cache.c:78-94 | exactly 256 zeroed slots and metadata, all free, in order |
| CacheBlocks.CacheBlock.CompareExchange | runtime/compute/src/cache.c:160-161 | takes a slot exactly if it is evictable and leaves all others |
| CacheBlocks.CacheBlock.WriteAt | runtime/compute/src/cache.c:215-224 | bytes written inside one slot change that slot only |
| Context.ComputeContext.constructor | runtime/compute/src/context.c:42-56 | a context after the handshake is the initial state |
| Context.ComputeContext.ExtractTagOf | runtime/compute/src/addr.c:8-13 | the tag is the start of the page plus the whole objects before the address in it, and the address lies less than one object behind it; it is the base the specification works on |
| Context.ComputeContext.TryRequest | runtime/compute/src/cache.c:101-143 | a hit pins; a miss claims the entry for a given slot if nobody has it; nothing else changes |
| Context.ComputeContext.DrawVictim | runtime/compute/src/cache.c:156-176 | the retry loop ends at the first draw that can be evicted, with its word cleared; its measure is the distance to that draw |
| Context.ComputeContext.EvictOne | runtime/compute/src/cache.c:156-176 | the loop and what follows it are one eviction of the slot drawn |
| Context.ComputeContext.Fetch | runtime/compute/src/cache.c:179-204 | claim and fetch give the filled slot; the push-back branch is unreachable |
| Context.ComputeContext.CacheRequest | runtime/compute/src/cache.c:147-213 | ends in the state the specification gives, with the victim first drawn, the same view and one more reference; the token has the tag of the object that the address lies in, and the distance from its start, below its size |
| Context.ComputeContext.CacheAccess | runtime/compute/src/cache.c:215-219 | the pointer is slot index times size plus slot offset |
| Context.ComputeContext.CacheAccessMut | runtime/compute/src/cache.c:221-224 | marks the slot dirty, with the same view |
| Context.ComputeContext.TokenFree | runtime/compute/src/cache.c:226-231 | for any token whose slot carries its tag, as the assertion demands: the count is decremented; on a valid slot the invariant is kept if and only if a reference was held, and then the view is the same |
| Context.ComputeContext.Save | runtime/compute/src/cache.c:215-224 | a store through a mutable pointer changes the view by that range of that object |
| Context.ComputeContext.DisaggAlloc | runtime/compute/src/alloc.c:11-47 | the next page of the pool if there is one and the object fits, and nothing otherwise; types 0 to 2 take the size asked for; the state changes as the specification says |
| Context.ComputeContext.RegisterType | runtime/compute/src/type.c:18-37 | the number of types as the next id, with 256 free slots and, where the C code leaves it uninitialised, an empty chunk list; -1 when 255 are taken |
| Machines.RequestLeadsThere | runtime/compute/src/cache.c:196-201 | in flat memory, the reference that the cache is compared with, a token leads to the address asked for, inside an object of its type |
| Machines.LoadFindsStored | runtime/compute/src/cache.c:215-224 | in flat memory a load finds what was stored at its address, through whichever token, and a store leaves all other bytes |
| Simulation.BaseAgrees | runtime/compute/src/addr.c:8-13 | the base computed with the page masks is the object that flat memory has the address in |
| Simulation.PinsAreRefs | runtime/compute/src/cache.c:138-230 | a slot's count is the number of outstanding tokens of its object |
| Transparency.StepSimulates | runtime/compute/src/cache.c:147-231 | every call stays in bounds and answers as flat memory |
| Transparency.Transparent | runtime/compute/src/cache.c:147-231 | so does every run, with any eviction choices |
| Transparency.NeverStuck | runtime/compute/src/cache.c:151-177 | a client whose held objects are at most 256 always finds a victim |
| Transparency.RunCanBeServed | runtime/compute/src/cache.c:151-177 | victims exist for every legal run |
| Transparency.RuntimeIsInvisible | runtime/compute/src/cache.c:147-231 | the same from a fresh runtime over any pool contents |
| Client.Call | runtime/compute/src/cache.c:147-231 | one operation made on the context answers as flat memory and keeps the client's tokens and the context in step with it |
| Client.RunClient | runtime/compute/src/cache.c:147-231 | a list of operations run on a fresh context returns the answers of flat memory |
| Transparency.PinSafety | runtime/compute/src/cache.c:138-231 | over any run, from request to free a token stands for a valid, referenced slot with its tag |
| Transparency.PointersPreserveDistance | runtime/compute/src/cache.c:196-219 | live tokens of one object share the slot and their pointers differ as the addresses do |
| Transparency.TypesAreIsolated | runtime/compute/src/cache.c:106-163 | a call on one type leaves slots, counts, entries and visible memory of every other type |
| References.RequestOnward | runtime/compute/src/cache.c:138-195 | a request adds one to the count of its object, leaves all other counts, and moves nothing that is held |
| References.RequestDirties | runtime/compute/src/cache.c:179-195 | a request makes nothing dirty |
| References.MarkDirties | runtime/compute/src/cache.c:221-224 | mutable access makes its object dirty and no other |
| References.RequestEndsExactly | runtime/compute/src/cache.c:148-177 | a request ends if and only if the objects held with the one asked for are at most 256 |
| Eviction.EvictableIffUnpinned | runtime/compute/src/cache.c:157-161 | in a full cache a slot can be evicted if and only if nobody references it |
| Eviction.LoopEndsExactly | runtime/compute/src/cache.c:156-176 | with recurring draws the retry loop ends if and only if some slot is unreferenced |
| Eviction.Distance | runtime/compute/src/cache.c:156-176 | the measure of the retry loop: the draw that ends it is so far off, and none before it does |
| BinaryTree.InsertKeys | examples/binary_tree.c:19-29 | insertion adds exactly the key and keeps the order |
| BinaryTree.InsertNodes | examples/binary_tree.c:19-29 | an existing key changes nothing; otherwise one node joins and no node is used twice |
| BinaryTree.InsertShape | examples/pre/binary_tree.c:20-31 | insertion and search do not depend on where nodes live: they commute with forgetting it |
| BinaryTree.FindIff | examples/binary_tree.c:56-82 | search finds a key if and only if it is in the tree, at a node that carries it |
| BinaryTree.MinIsLeast | examples/binary_tree.c:85-91 | the leftmost node has the least key |
| BinaryTree.DeleteKeys | examples/binary_tree.c:94-117 | deletion removes exactly the key and keeps the order |
| BinaryTree.DeleteNodes | examples/binary_tree.c:94-117 | nodes stay disjoint, and exactly one is given up if the key was there |
| BinaryTree.DeleteInside | examples/binary_tree.c:94-117 | deletion uses no node that was not in the tree |
| BinaryTree.InorderSortedIff | examples/binary_tree.c:120-126 | a tree is ordered if and only if its traversal is strictly sorted |
| BinaryTree.DeleteShape | examples/binary_tree.c:94-117 | deletion, too, commutes with forgetting where nodes live |
| BinaryTree.RunStaysSorted | examples/binary_tree.c:19-126 | over any run of insertions and deletions, as values, the keys are those of a set, and traversal stays strictly sorted; `NativeTree.RunNative` carries it to the heap |
| NativeTree.InsertNative | examples/pre/binary_tree.c:20-31 | the heap becomes the tree with the key inserted, sharing nothing |
| NativeTree.SearchNative | examples/pre/binary_tree.c:35-47 | returns the node on the search path, which has the key, or null |
| NativeTree.FindMin | examples/binary_tree.c:85-91 | returns the leftmost node |
| NativeTree.DeleteNative | examples/binary_tree.c:94-117 | on any tree that shares nothing, ordered or not, the heap becomes the tree with the key deleted; the node given back is the one dropped |
| NativeTree.TakeLeast | examples/binary_tree.c:112-114 | a node with two children takes the least key on its right, which is deleted there |
| NativeTree.InorderTraversal | examples/binary_tree.c:120-126 | prints the in-order sequence of keys |
| NativeTree.RunNative | examples/binary_tree.c:19-117 | after any run of insertions and deletions the heap holds an ordered tree of distinct nodes, each old or newly made, with the keys that a set would hold and the shape that the run has as values |
| NativeTree.PrintAfter | examples/binary_tree.c:129-154 | a program that changes the tree and then traverses it prints exactly the keys left, in strictly increasing order |
| NodeLayout.KeyRoundTrip | examples/pre/dm_binary_tree_pre.c:8-11 | a 32-bit key survives being stored and loaded |
| NodeLayout.LinkRoundTrip | examples/pre/dm_binary_tree_pre.c:8-11 | so does an address, and storing a loaded link changes no byte |
| NodeLayout.KeyStored | examples/pre/dm_binary_tree_pre.c:85 | the key is stored in bytes 0 to 3, low byte first, and no other byte changes |
| NodeLayout.LinkStored | examples/pre/dm_binary_tree_pre.c:105-111 | a link is stored in its eight bytes, at 8 or 16: the type id, then the offset, low byte first; no other byte changes; storing the same link changes nothing |
| NodeLayout.NodeBytes | examples/pre/dm_binary_tree_pre.c:8-11 | what is read as key and links of a 24-byte node is exactly the two's complement integer at bytes 0 to 3 and the addresses at bytes 8 to 15 and 16 to 23 |
| RemoteTree.RootBytes | examples/pre/dm_binary_tree_pre.c:8-11 | the root of a tree in remote memory has its key at byte 0 and the addresses of its subtrees at bytes 8 and 16 |
| RemoteTree.FoundHasKey | examples/pre/dm_binary_tree_pre.c:118-141 | the node found has the key in its first four bytes |
| RemoteTree.RepFrame | examples/pre/dm_binary_tree_pre.c:93-115 | a tree depends on the bytes of its own nodes only |
| RemoteTree.InsertAscends | examples/pre/dm_binary_tree_pre.c:105-111 | linking in the subtree gives the inserted tree, changes only the parent of a new node, and counts one token a node |
| DmTree.PointerStays | examples/pre/dm_binary_tree_pre.c:104-105 | a slot pointer to a held object stays good and dirty whatever is requested and evicted in between |
| DmTree.CreateNode | examples/pre/dm_binary_tree_pre.c:77-91 | a new object that is a one-node tree, with the key at bytes 0 to 3 and zeros at bytes 8 to 23; nothing else looks different or becomes dirty |
| DmTree.InsertRemote | examples/pre/dm_binary_tree_pre.c:93-115 | remote memory then holds the tree that native insertion computes; a node is made exactly if the key was new; all other objects stay; one token is left on each node visited; dirty become just the nodes it goes on from and the new one |
| DmTree.InsertBelow | examples/pre/dm_binary_tree_pre.c:102-113 | one level, with the pointer taken before the recursive call and stored through after it |
| DmTree.LinkChild | examples/pre/dm_binary_tree_pre.c:105-111 | the store through the old pointer after the recursive call completes the insertion |
| DmTree.StillLinked | examples/pre/dm_binary_tree_pre.c:104-105 | after the call below the parent's pointer still denotes the parent, dirty |
| DmTree.SearchRemote | examples/pre/dm_binary_tree_pre.c:118-141 | terminates with the node the native search finds, which has the key, or null; visible memory is unchanged and nothing becomes dirty |
| DmTree.SearchMarking | examples/DM_binary_tree.c:102-129 | the same for the variant that takes mutable access on left turns: dirty become just the nodes where it goes left |
| TreeRuns.NextCallIsServed | examples/pre/dm_binary_tree_pre.c:93-141 | within the budget of slots, pages and counts the next call can be made |
| TreeRuns.CallIsNative | examples/pre/dm_binary_tree_pre.c:93-141 | each call answers like the native tree, keeps the shapes alike and the budget for the rest |
| TreeRuns.RunIsNative | examples/pre/dm_binary_tree_pre.c:93-141 | so does every run of insertions and searches; no object outside the tree changes, and the budget for the rest is kept |
| TreeRuns.NativeIsKeySet | examples/pre/binary_tree.c:20-47 | over any run the native tree answers like a set of keys, holds its keys and stays ordered |
| TreeRuns.ProgramIsKeySet | examples/pre/dm_binary_tree_pre.c:77-141 | a program from scratch that inserts no more different keys than 256 and than there are pages answers like a set at every point, and its next call can be made |
| TreeEnds.SearchEndsExactly | examples/pre/dm_binary_tree_pre.c:118-141 | the requests of a search all end if and only if the objects held with those on its path are at most 256 |
| TreeEnds.InsertEndsExactly | examples/pre/dm_binary_tree_pre.c:77-115 | the requests of an insertion all end if and only if the same holds with one more for a node it has to make |
| TreeProgram.CallTree | examples/pre/dm_binary_tree_pre.c:93-141 | one insertion or search on the context changes the key set, or answers from it, keeps the budget, and changes no object outside the tree |
| TreeProgram.RunCalls | examples/pre/dm_binary_tree_pre.c:93-141 | a run of calls on any tree and cache within budget, also a cache full of unpinned objects, hears what a set of keys answers, ends with its keys, and changes no object outside the tree |
| TreeProgram.RunTree | examples/pre/dm_binary_tree_pre.c:58-141 | a program run on a fresh context, from the registration of the node type on, hears from its searches what a set of keys answers |

## Left out

- RDMA connections, completions and error paths: a transfer is an atomic copy to or from the pool's bytes.
- The hash map (`hashmap.h` is not part of this model): a finite map keyed by type and tag.
- The cache under several threads and the spin on the io bit: the code does not keep coherence there.
- AllocThreads.RunKeepsInv: runs are followed as long as the chunk counter and all bump pointers stay a page below 2^56; wrap-around is not.
- AllocThreadsProgress.PagesBecomeObjects: for the same runs without wrap-around.
- AllocThreadsProgress.CallsCanFinish: that a schedule which ends all calls exists; that a scheduler picks it is not modelled.
- AllocThreadsExact.SafeExactly: assumes two pages of address room behind the pool, for the schedules that go wrong at its end.
- AllocThreadsPool.InPoolExactly: assumes the same two pages of address room behind the pool.
- Fairness of the chunk lists' locks, and registration of types while other threads allocate.
- AllocThreadsExact.RaceIsUnsafe: calls of the interleaved machine are for one byte or more; requests of no bytes on reserved types are modelled one call at a time only.
- Allocator.ChunkAllocator.AddType: what uninitialised list heads would lead to is not modelled.
- CacheRequest.RegisterKeeps: as for `AddType`, the new chunk list is taken as empty.
- Context.ComputeContext.RegisterType: as for `AddType`, the new chunk list is taken as empty.
- DmTree.CreateNode: needs a page left; when allocation fails the C code goes on to request the null address, of a type that has no cache to look into.
- Context.ComputeContext.CacheRequest: needs a draw ahead that can be evicted; otherwise the loop of the C code does not end (`References.RequestEndsExactly` says when).
- NativeTree.DeleteNative: freed nodes are returned as a ghost result; that nobody uses them is in `BinaryTree.DeleteNodes`.
- Failure of `malloc` and `calloc`, teardown of contexts and free lists.
- Types 0 to 2 in the cache, the `count` argument, `disagg_free` (empty), address dependencies, offloading, struct layouts.
- `main` functions, `runtime/common/parse.h`, `test/`.
